/**
 * What the player commands and the deal of `Blackjack`
 * (blackjack/blackjack.py) do to one seated player, as functions on `Player`
 * values; the `Table` class applies them to its `players` field.
 */
module Rules {
  import opened Wrappers
  import opened Cards

  /** The player with `h` in place of the hand at `i`. */
  function WithHand(p: Player, i: nat, h: Hand): (r: Player)
    requires i < |p.hands|
    ensures r.currHand == p.currHand && |r.hands| == |p.hands| && r.hands[i] == h
    ensures forall j :: 0 <= j < |p.hands| && j != i ==> r.hands[j] == p.hands[j]
  {
    p.(hands := p.hands[i := h])
  }

  /**
   * `draw_card` for a seated player: the card goes to the end of the hand in
   * play, which is then counted; the other hands and the index stay.
   */
  function DrawFor(p: Player, c: Card): (r: Player)
    requires WellFormed(p)
    ensures WellFormed(r) && r.currHand == p.currHand && |r.hands| == |p.hands|
    ensures r.hands[p.currHand] == Drawn(Current(p), c)
    ensures forall j :: 0 <= j < |p.hands| && j != p.currHand ==> r.hands[j] == p.hands[j]
  {
    WithHand(p, p.currHand, Drawn(Current(p), c))
  }

  /**
   * The closing rule shared by `hit`, `stand` and `double`: the hand at `i`
   * is marked standing and play moves to the next hand if there is one.
   */
  function CloseHand(p: Player, i: nat, h: Hand): (r: Player)
    requires i < |p.hands| && p.currHand == i
    ensures WellFormed(r) && |r.hands| == |p.hands|
    ensures r.hands[i] == h.(standing := true)
    ensures r.currHand == if i + 1 < |p.hands| then i + 1 else i
    ensures forall j :: 0 <= j < |p.hands| && j != i ==> r.hands[j] == p.hands[j]
  {
    var q := WithHand(p, i, h.(standing := true));
    if |p.hands| > i + 1 then q.(currHand := i + 1) else q
  }

  /**
   * `hit`: the card is drawn and the hand counted again whatever the state;
   * only in a game on an open hand does a count over 21 close the hand.
   */
  function Hit(p: Player, c: Card, inGame: bool): (r: Player)
    requires WellFormed(p)
    ensures WellFormed(r) && |r.hands| == |p.hands|
    ensures SameStakes(p.hands, r.hands)
  {
    var drawn := DrawFor(p, c);
    var i := drawn.currHand;
    var counting := Counted(drawn.hands[i]);
    var counted := WithHand(drawn, i, counting.hand);
    assert SameStakes(p.hands, counted.hands);
    if inGame && !counted.hands[i].standing && counting.count > 21 then
      CloseHand(counted, i, counting.hand)
    else counted
  }

  /** `stand`: in a game on an open hand, the hand is counted and closed. */
  function Stand(p: Player, inGame: bool): (r: Player)
    requires WellFormed(p)
    ensures WellFormed(r) && |r.hands| == |p.hands|
    ensures SameStakes(p.hands, r.hands)
  {
    if inGame && !Current(p).standing then
      CloseHand(p, p.currHand, Counted(Current(p)).hand)
    else p
  }

  /** The first step of `double`: the hand's bet is doubled. */
  function DoubleBet(p: Player): (r: Player)
    requires WellFormed(p)
    ensures WellFormed(r) && r.currHand == p.currHand && |r.hands| == |p.hands|
    ensures Current(r) == Current(p).(bet := 2 * Current(p).bet)
    ensures forall j :: 0 <= j < |p.hands| && j != p.currHand ==> r.hands[j] == p.hands[j]
    ensures StakesNonNegative(p.hands) ==> StakesNonNegative(r.hands)
  {
    WithHand(p, p.currHand, Current(p).(bet := Current(p).bet + Current(p).bet))
  }

  /**
   * The rest of `double` once the stake is withdrawn: one card is drawn, the
   * hand counted, and it closes unless the count is exactly 21.
   */
  function DoubleDraw(p: Player, c: Card): (r: Player)
    requires WellFormed(p)
    ensures WellFormed(r) && |r.hands| == |p.hands|
    ensures SameStakes(p.hands, r.hands)
  {
    var drawn := DrawFor(p, c);
    var i := drawn.currHand;
    var counting := Counted(drawn.hands[i]);
    var counted := WithHand(drawn, i, counting.hand);
    assert SameStakes(p.hands, counted.hands);
    if counting.count != 21 then CloseHand(counted, i, counting.hand) else counted
  }

  /** Why `split` does nothing. */
  datatype SplitRefusal = NotInGame | AlreadyStanding | NotTwoCards | DifferentValues

  /** What `split` does to the player and what it answers. */
  datatype SplitReply = Split | Refused(why: SplitRefusal) | MissingCard

  datatype SplitOutcome = SplitOutcome(player: Player, reply: SplitReply)

  /** An 11/1 pair of aces turned back into two aces worth 11 each. */
  function ResetAces(cards: seq<Card>): (r: seq<Card>)
    requires |cards| >= 2
    ensures |r| == |cards| && r[2..] == cards[2..]
  {
    if (cards[0].value == 11 && cards[1].value == 1) || (cards[0].value == 1 && cards[1].value == 11) then
      cards[0 := cards[0].(value := 11, rank := Ace)][1 := cards[1].(value := 11, rank := Ace)]
    else cards
  }

  /**
   * `split`: with fewer than two cards the lookup of the second card fails
   * and nothing changes. Otherwise a demoted ace pair is reset (and stays
   * reset); if the hand is exactly two cards of one value, open and in a
   * game, the second card moves to a new last hand with the same bet and an
   * empty rank list, and the first card stays.
   */
  function SplitHand(p: Player, inGame: bool): (r: SplitOutcome)
    requires WellFormed(p)
    ensures WellFormed(r.player) && r.player.currHand == p.currHand
    ensures StakesNonNegative(p.hands) ==> StakesNonNegative(r.player.hands)
  {
    var h := Current(p);
    if |h.cards| < 2 then SplitOutcome(p, MissingCard)
    else
      var cards := ResetAces(h.cards);
      if cards[0].value == cards[1].value && |cards| == 2 && inGame && !h.standing then
        var kept := h.(cards := [cards[0]]);
        var added := Hand([cards[1]], [], h.bet, false, false);
        SplitOutcome(Player(p.currHand, p.hands[p.currHand := kept] + [added]), Split)
      else
        var why :=
          if !inGame then NotInGame
          else if h.standing then AlreadyStanding
          else if |cards| != 2 then NotTwoCards
          else DifferentValues;
        SplitOutcome(WithHand(p, p.currHand, h.(cards := cards)), Refused(why))
  }

  /**
   * One player of the deal: two cards to the hand in play, the rank list read
   * before the count, the count, and a natural marks the hand blackjack and
   * standing.
   */
  function DealTo(p: Player, c1: Card, c2: Card): (r: Player)
    requires WellFormed(p)
    ensures WellFormed(r) && r.currHand == p.currHand && |r.hands| == |p.hands|
    ensures SameStakes(p.hands, r.hands)
  {
    var drawn := DrawFor(DrawFor(p, c1), c2);
    var i := drawn.currHand;
    var ranks := drawn.hands[i].ranks;
    var counted := Counted(drawn.hands[i]).hand;
    WithHand(drawn, i, if IsNatural(ranks) then counted.(blackjack := true, standing := true) else counted)
  }

  /** Every hand of the player is standing. */
  predicate AllHandsStanding(p: Player) {
    forall j :: 0 <= j < |p.hands| ==> p.hands[j].standing
  }

  // ---------------------------------------------------------------------
  // Properties of the player commands.
  // ---------------------------------------------------------------------

  /**
   * `hit` adds exactly one card to the hand in play; in a game on an open
   * hand a count over 21 closes it and moves on only if a later hand exists,
   * while otherwise (refused, or at most 21) no flag or index changes.
   */
  lemma HitSpec(p: Player, c: Card, inGame: bool)
    requires WellFormed(p)
    ensures var r := Hit(p, c, inGame);
            var i := p.currHand;
            var counting := Counted(Drawn(Current(p), c));
            && |r.hands[i].cards| == |Current(p).cards| + 1
            && r.hands[i].bet == Current(p).bet
            && (forall j :: 0 <= j < |p.hands| && j != i ==> r.hands[j] == p.hands[j])
            && (inGame && !Current(p).standing && counting.count > 21 ==>
                  r.hands[i] == counting.hand.(standing := true)
                  && r.currHand == (if i + 1 < |p.hands| then i + 1 else i))
            && (!(inGame && !Current(p).standing && counting.count > 21) ==>
                  r.hands[i] == counting.hand && r.currHand == i)
  {
  }

  /** `stand` on an open hand in a game closes it; otherwise nothing changes. */
  lemma StandSpec(p: Player, inGame: bool)
    requires WellFormed(p)
    ensures var r := Stand(p, inGame);
            var i := p.currHand;
            && (inGame && !Current(p).standing ==>
                  && r.hands[i] == Counted(Current(p)).hand.(standing := true)
                  && r.hands[i].cards == Counted(Current(p)).hand.cards
                  && r.currHand == (if i + 1 < |p.hands| then i + 1 else i)
                  && forall j :: 0 <= j < |p.hands| && j != i ==> r.hands[j] == p.hands[j])
            && (!(inGame && !Current(p).standing) ==> r == p)
  {
  }

  /**
   * `double` ends with the bet doubled and exactly one more card; the hand
   * closes unless the count is 21, and play moves on only if a later hand
   * exists.
   */
  lemma {:induction false} DoubleSpec(p: Player, c: Card)
    requires WellFormed(p)
    ensures var r := DoubleDraw(DoubleBet(p), c);
            var i := p.currHand;
            var counting := Counted(Drawn(Current(p).(bet := 2 * Current(p).bet), c));
            && r.hands[i].bet == 2 * Current(p).bet
            && |r.hands[i].cards| == |Current(p).cards| + 1
            && r.hands[i].cards[..|Current(p).cards|] == counting.hand.cards[..|Current(p).cards|]
            && (forall j :: 0 <= j < |p.hands| && j != i ==> r.hands[j] == p.hands[j])
            && (counting.count != 21 ==>
                  r.hands[i].standing && r.currHand == (if i + 1 < |p.hands| then i + 1 else i))
            && (counting.count == 21 ==> r.hands[i] == counting.hand && r.currHand == i)
  {
    var doubled := DoubleBet(p);
    assert Current(doubled) == Current(p).(bet := 2 * Current(p).bet);
  }

  /**
   * A granted `split` appends one hand at index `|hands|` holding the former
   * second card with the same bet and both flags clear; the hand in play
   * keeps only its first card and its rank list; no other hand changes.
   */
  lemma SplitSpec(p: Player, inGame: bool)
    requires WellFormed(p)
    ensures var r := SplitHand(p, inGame);
            var h := Current(p);
            r.reply == Split ==>
              && |h.cards| == 2
              && inGame && !h.standing
              && ResetAces(h.cards)[0].value == ResetAces(h.cards)[1].value
              && |r.player.hands| == |p.hands| + 1
              && r.player.hands[|p.hands|] == Hand([ResetAces(h.cards)[1]], [], h.bet, false, false)
              && r.player.hands[p.currHand] == h.(cards := [ResetAces(h.cards)[0]])
              && (forall j :: 0 <= j < |p.hands| && j != p.currHand ==> r.player.hands[j] == p.hands[j])
    ensures var r := SplitHand(p, inGame);
            var h := Current(p);
            && (|h.cards| < 2 <==> r.reply == MissingCard)
            && (r.reply == MissingCard ==> r.player == p)
            && (r.reply.Refused? ==>
                  r.player.hands == p.hands[p.currHand := h.(cards := ResetAces(h.cards))])
            && ((|h.cards| >= 2 && !(ResetAces(h.cards)[0].value == ResetAces(h.cards)[1].value
                   && |h.cards| == 2 && inGame && !h.standing)) ==> r.reply.Refused?)
  {
  }

  /** A demoted ace pair becomes two aces worth 11, which is a pair a split accepts. */
  lemma ResetAcesSpec(cards: seq<Card>)
    requires |cards| >= 2
    ensures var r := ResetAces(cards);
            && ((cards[0].value == 11 && cards[1].value == 1) || (cards[0].value == 1 && cards[1].value == 11) ==>
                  r[0] == cards[0].(value := 11, rank := Ace) && r[1] == cards[1].(value := 11, rank := Ace)
                  && r[0].value == r[1].value)
            && (!((cards[0].value == 11 && cards[1].value == 1) || (cards[0].value == 1 && cards[1].value == 11)) ==>
                  r == cards)
  {
  }

  /**
   * The deal gives the hand in play exactly two more cards; the hand is
   * marked blackjack, and then standing as well, exactly when the ranks
   * read before the count make a natural.
   */
  lemma DealToSpec(p: Player, c1: Card, c2: Card)
    requires WellFormed(p)
    ensures var r := DealTo(p, c1, c2);
            var i := p.currHand;
            var drawn := Drawn(Drawn(Current(p), c1), c2);
            && |r.hands[i].cards| == |Current(p).cards| + 2
            && r.hands[i].bet == Current(p).bet
            && (IsNatural(drawn.ranks) ==> r.hands[i].blackjack && r.hands[i].standing)
            && (!IsNatural(drawn.ranks) ==>
                  r.hands[i].blackjack == Current(p).blackjack && r.hands[i].standing == Current(p).standing)
            && r.hands[i].cards == Counted(drawn).hand.cards
            && (forall j :: 0 <= j < |p.hands| && j != i ==> r.hands[j] == p.hands[j])
  {
    var once := DrawFor(p, c1);
    assert Current(once) == Drawn(Current(p), c1);
  }

  /**
   * A player seated by a bet is dealt a blackjack, and left standing, exactly
   * when the two deck cards are an ace and a jack, queen or king.
   */
  lemma {:induction false} FreshDealNatural(bet: int, s1: Suit, n1: CardNumber, s2: Suit, n2: CardNumber)
    ensures var c1 := Card(s1, Entry(n1).rank, Entry(n1).value);
            var c2 := Card(s2, Entry(n2).rank, Entry(n2).value);
            var h := DealTo(FreshPlayer(bet), c1, c2).hands[0];
            && (h.blackjack <==> IsNatural([c1.rank, c2.rank]))
            && (h.standing <==> IsNatural([c1.rank, c2.rank]))
  {
    var c1 := Card(s1, Entry(n1).rank, Entry(n1).value);
    var c2 := Card(s2, Entry(n2).rank, Entry(n2).value);
    var empty := Hand([], [], bet, false, false);
    var one := Appended(empty, c1);
    assert Sum(one.cards) == c1.value <= 11 by {
      assert Sum(empty.cards) == 0;
    }
    assert Drawn(empty, c1) == one;
    var two := Appended(one, c2);
    assert two.ranks == [c1.rank, c2.rank];
    var p1 := DrawFor(FreshPlayer(bet), c1);
    assert Current(p1) == one;
    var p2 := DrawFor(p1, c2);
    assert Current(p2) == Drawn(one, c2);
    if Sum(two.cards) > 21 {
      assert n1 == 1 && n2 == 1;
      assert FirstEleven(two.cards) == Some(0);
      assert Drawn(one, c2).ranks == RanksOf([Demote(c1), c2]);
      assert Drawn(one, c2).ranks == [SmallAce, Ace];
    } else {
      assert Drawn(one, c2) == two;
    }
  }
}
