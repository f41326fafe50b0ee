/**
 * Cards, the deck table and hand counting of `Blackjack`
 * (blackjack/blackjack.py): the deck built in `__init__`, `count_hand`'s
 * ace-demotion rule and the card append of `draw_card`.
 */
module Cards {
  import opened Wrappers

  datatype Suit = Hearts | Diamonds | Clubs | Spades

  /** The four suits in the order `__init__` fills the deck. */
  const Suits: seq<Suit> := [Hearts, Diamonds, Clubs, Spades]

  /** A card's rank name; `SmallAce` is an ace demoted to value 1. */
  datatype Rank = Pip(n: int) | Ace | SmallAce | Jack | Queen | King

  datatype Card = Card(suit: Suit, rank: Rank, value: int)

  /** One entry of the deck table. */
  datatype DeckEntry = DeckEntry(rank: Rank, value: int)

  /** The card numbers `randint(1, 13)` produces. */
  type CardNumber = n: int | 1 <= n <= 13 witness 1

  /** The deck table entry for each card number. */
  function Entry(n: CardNumber): DeckEntry {
    if n == 1 then DeckEntry(Ace, 11)
    else if n <= 10 then DeckEntry(Pip(n), n)
    else if n == 11 then DeckEntry(Jack, 10)
    else if n == 12 then DeckEntry(Queen, 10)
    else DeckEntry(King, 10)
  }

  /** The deck: every suit maps every card number to its entry. */
  ghost predicate StandardDeck(deck: map<Suit, map<int, DeckEntry>>) {
    && (forall s: Suit :: s in deck)
    && (forall s: Suit, n: int :: n in deck[s] <==> 1 <= n <= 13)
    && (forall s: Suit, n: int :: 1 <= n <= 13 ==> deck[s][n] == Entry(n))
  }

  /** Number cards are worth their number, an ace 11 and a face card 10. */
  lemma EntryValues(n: CardNumber)
    ensures 2 <= n <= 10 ==> Entry(n) == DeckEntry(Pip(n), n)
    ensures n == 1 ==> Entry(n).value == 11 && Entry(n).rank == Ace
    ensures n >= 11 ==> Entry(n).value == 10 && Entry(n).rank in {Jack, Queen, King}
    ensures 1 <= Entry(n).value <= 11
  {
  }

  /** The nested loops of `__init__` that fill the deck table. */
  method BuildDeck() returns (deck: map<Suit, map<int, DeckEntry>>)
    ensures StandardDeck(deck)
  {
    deck := map[];
    for s := 0 to |Suits|
      invariant forall t: Suit :: t in deck <==> t in Suits[..s]
      invariant forall t: Suit, n: int :: t in deck ==> (n in deck[t] <==> 1 <= n <= 13)
      invariant forall t: Suit, n: int :: t in deck && 1 <= n <= 13 ==> deck[t][n] == Entry(n)
    {
      var suit := Suits[s];
      var row: map<int, DeckEntry> := map[];
      for i := 2 to 11
        invariant forall n :: n in row <==> 2 <= n < i
        invariant forall n :: 2 <= n < i ==> row[n] == Entry(n)
      {
        row := row[i := DeckEntry(Pip(i), i)];
      }
      row := row[1 := DeckEntry(Ace, 11)];
      row := row[11 := DeckEntry(Jack, 10)];
      row := row[12 := DeckEntry(Queen, 10)];
      row := row[13 := DeckEntry(King, 10)];
      deck := deck[suit := row];
      assert Suits[..s + 1] == Suits[..s] + [suit];
    }
    assert Suits[..|Suits|] == Suits;
    forall t: Suit
      ensures t in deck
    {
      assert t == Suits[0] || t == Suits[1] || t == Suits[2] || t == Suits[3];
    }
  }

  /** A hand: its cards, its rank list, the stake and the two flags. */
  datatype Hand = Hand(cards: seq<Card>, ranks: seq<Rank>, bet: int, standing: bool, blackjack: bool)

  /** A seated player: the index of the hand in play and the hands (more than one after a split). */
  datatype Player = Player(currHand: nat, hands: seq<Hand>)

  /** Every hand's stake is non-negative. */
  predicate StakesNonNegative(hands: seq<Hand>) {
    forall i :: 0 <= i < |hands| ==> hands[i].bet >= 0
  }

  /** Two hand lists hold the same stakes, hand by hand. */
  predicate SameStakes(hands: seq<Hand>, hands': seq<Hand>) {
    |hands| == |hands'| && forall i :: 0 <= i < |hands| ==> hands'[i].bet == hands[i].bet
  }

  predicate WellFormed(p: Player) {
    p.currHand < |p.hands|
  }

  function Current(p: Player): Hand
    requires WellFormed(p)
  {
    p.hands[p.currHand]
  }

  /** The player a bet seats: one empty hand holding the bet, neither flag set. */
  function FreshPlayer(bet: int): (p: Player)
    ensures WellFormed(p) && p.currHand == 0 && |p.hands| == 1
    ensures p.hands[0] == Hand([], [], bet, false, false)
  {
    Player(0, [Hand([], [], bet, false, false)])
  }

  /** Sum of the card values, accumulated in card order. */
  function Sum(cards: seq<Card>): int {
    if |cards| == 0 then 0 else Sum(cards[..|cards| - 1]) + cards[|cards| - 1].value
  }

  /** The rank of every card, in card order. */
  function RanksOf(cards: seq<Card>): (r: seq<Rank>)
    ensures |r| == |cards|
    ensures forall i :: 0 <= i < |cards| ==> r[i] == cards[i].rank
  {
    if |cards| == 0 then [] else RanksOf(cards[..|cards| - 1]) + [cards[|cards| - 1].rank]
  }

  /** The index of the first card valued 11, if any. */
  function FirstEleven(cards: seq<Card>): (r: Option<nat>)
    ensures r.None? <==> forall i :: 0 <= i < |cards| ==> cards[i].value != 11
    ensures r.Some? ==> r.value < |cards| && cards[r.value].value == 11
    ensures r.Some? ==> forall i :: 0 <= i < r.value ==> cards[i].value != 11
  {
    if |cards| == 0 then None
    else if cards[0].value == 11 then Some(0)
    else match FirstEleven(cards[1..])
      case None => None
      case Some(i) => Some(i + 1)
  }

  /** An ace counted as 1. */
  function Demote(c: Card): Card {
    c.(value := 1, rank := SmallAce)
  }

  /** Changing one card's value changes the sum by the difference. */
  lemma {:induction false} SumUpdate(cards: seq<Card>, i: nat, c: Card)
    requires i < |cards|
    ensures Sum(cards[i := c]) == Sum(cards) - cards[i].value + c.value
    decreases |cards|
  {
    var n := |cards| - 1;
    if i < n {
      SumUpdate(cards[..n], i, c);
      assert cards[i := c][..n] == cards[..n][i := c];
    } else {
      assert cards[i := c][..n] == cards[..n];
    }
  }

  /** The sum of a sequence with one more card at the end. */
  lemma SumAppend(cards: seq<Card>, c: Card)
    ensures Sum(cards + [c]) == Sum(cards) + c.value
  {
    assert (cards + [c])[..|cards|] == cards;
  }

  /** What `count_hand` leaves behind: the hand and the count it returns. */
  datatype Counting = Counting(hand: Hand, count: int)

  /**
   * `count_hand`: when the cards sum to more than 21 and one of them is
   * valued 11, the first such card becomes a small ace worth 1, the rank list
   * is rebuilt from the cards and the count is ten less; otherwise nothing
   * changes and the count is the sum.
   */
  function Counted(h: Hand): (r: Counting)
    ensures r.count == Sum(r.hand.cards)
    ensures |r.hand.cards| == |h.cards|
    ensures r.hand.bet == h.bet && r.hand.standing == h.standing && r.hand.blackjack == h.blackjack
    ensures Sum(h.cards) <= 21 || FirstEleven(h.cards).None? ==> r == Counting(h, Sum(h.cards))
    ensures Sum(h.cards) > 21 && FirstEleven(h.cards).Some? ==>
              var i := FirstEleven(h.cards).value;
              && r.count == Sum(h.cards) - 10
              && r.hand.cards == h.cards[i := Demote(h.cards[i])]
              && r.hand.ranks == RanksOf(r.hand.cards)
  {
    var total := Sum(h.cards);
    match FirstEleven(h.cards)
    case Some(i) =>
      if total > 21 then
        var cards := h.cards[i := Demote(h.cards[i])];
        SumUpdate(h.cards, i, Demote(h.cards[i]));
        Counting(h.(cards := cards, ranks := RanksOf(cards)), total - 10)
      else Counting(h, total)
    case None => Counting(h, total)
  }

  /** `count_hand` changes at most one card, and only an 11 into a small ace. */
  lemma CountedChangesAtMostOne(h: Hand)
    ensures var r := Counted(h).hand;
            forall i, j :: 0 <= i < j < |h.cards| && r.cards[i] != h.cards[i] ==> r.cards[j] == h.cards[j]
    ensures var r := Counted(h).hand;
            forall i :: 0 <= i < |h.cards| && r.cards[i] != h.cards[i] ==>
              h.cards[i].value == 11 && r.cards[i] == Demote(h.cards[i])
  {
  }

  /** A hand that counts to at most 21 is left as it is by a second count. */
  lemma CountedIdempotentBelow22(h: Hand)
    requires Counted(h).count <= 21
    ensures Counted(Counted(h).hand) == Counted(h)
  {
  }

  /** The loops of `count_hand` over one hand. */
  method CountHand(h: Hand) returns (r: Counting)
    ensures r == Counted(h)
  {
    var count := 0;
    for i := 0 to |h.cards|
      invariant count == Sum(h.cards[..i])
    {
      assert h.cards[..i + 1][..i] == h.cards[..i];
      count := count + h.cards[i].value;
    }
    assert h.cards[..|h.cards|] == h.cards;
    var cards := h.cards;
    var ranks := h.ranks;
    var i := 0;
    while i < |cards|
      invariant 0 <= i <= |cards|
      invariant cards == h.cards && ranks == h.ranks && count == Sum(h.cards)
      invariant count > 21 ==> forall j :: 0 <= j < i ==> cards[j].value != 11
    {
      if count > 21 {
        if cards[i].value == 11 {
          assert FirstEleven(h.cards) == Some(i);
          cards := cards[i := Demote(cards[i])];
          count := count - 10;
          ranks := [];
          for j := 0 to |cards|
            invariant ranks == RanksOf(cards[..j])
          {
            assert cards[..j + 1][..j] == cards[..j];
            ranks := ranks + [cards[j].rank];
          }
          assert cards[..|cards|] == cards;
          return Counting(h.(cards := cards, ranks := ranks), count);
        }
      }
      i := i + 1;
    }
    return Counting(h.(cards := cards, ranks := ranks), count);
  }

  /** The hand with the drawn card appended, before `draw_card` counts it. */
  function Appended(h: Hand, c: Card): (r: Hand)
    ensures r.cards == h.cards + [c] && r.ranks == h.ranks + [c.rank]
    ensures r.bet == h.bet && r.standing == h.standing && r.blackjack == h.blackjack
    ensures Sum(r.cards) == Sum(h.cards) + c.value
  {
    SumAppend(h.cards, c);
    h.(cards := h.cards + [c], ranks := h.ranks + [c.rank])
  }

  /** `draw_card` on one hand: the card goes to the end and the hand is counted. */
  function Drawn(h: Hand, c: Card): (r: Hand)
    ensures |r.cards| == |h.cards| + 1 && r.cards[|h.cards|].suit == c.suit
    ensures r.bet == h.bet && r.standing == h.standing && r.blackjack == h.blackjack
  {
    Counted(Appended(h, c)).hand
  }

  /** A draw that does not take the hand over 21 keeps every card as drawn. */
  lemma DrawnKeepsCards(h: Hand, c: Card)
    requires Sum(h.cards) + c.value <= 21
    ensures Drawn(h, c).cards == h.cards + [c]
  {
  }

  /** The card `draw_card` builds from a drawn suit and number. */
  function CardOf(deck: map<Suit, map<int, DeckEntry>>, suit: Suit, num: CardNumber): (c: Card)
    requires StandardDeck(deck)
    ensures c == Card(suit, Entry(num).rank, Entry(num).value)
  {
    Card(suit, deck[suit][num].rank, deck[suit][num].value)
  }

  /** A natural: an ace together with a jack, queen or king in the rank list. */
  predicate IsNatural(ranks: seq<Rank>) {
    Ace in ranks && (Jack in ranks || Queen in ranks || King in ranks)
  }

  /** Ace and ten is not a natural; ace and king is, in either order. */
  lemma NaturalExamples()
    ensures !IsNatural([Ace, Pip(10)]) && !IsNatural([SmallAce, King])
    ensures IsNatural([Ace, King]) && IsNatural([Queen, Ace])
  {
    assert [Ace, King][0] == Ace && [Ace, King][1] == King;
    assert [Queen, Ace][1] == Ace && [Queen, Ace][0] == Queen;
  }
}
