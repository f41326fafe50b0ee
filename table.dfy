/**
 * The `Blackjack` cog (blackjack/blackjack.py) as a class: the table's
 * phase, the seated players in the order they first bet, the dealer's hand,
 * and the commands and game-loop steps that change them. Card draws are
 * parameters; each `asyncio.sleep` of the loop is a point between two steps.
 */
module Blackjack {
  import opened Wrappers
  import opened Ledger
  import opened CasinoBank
  import opened Cards
  import opened Rules
  import opened Settlement

  /** `game_state`. */
  datatype Phase = Null | Pregame | Drawing | Game | Endgame

  /** The settings the table reads; the pre-game time and the image switch only pace and decorate. */
  datatype TableSettings = TableSettings(minBet: int, maxBet: int, maxEnabled: bool, gameTime: int)

  /** The settings file `check_files` writes when there is none. */
  const DefaultTableSettings := TableSettings(10, 5000, false, 60)

  /** What `randint(1, 4)` and `randint(1, 13)` pick in `draw_card`. */
  datatype Draw = Draw(suit: Suit, num: CardNumber)

  /** The card a draw gives with the standard deck. */
  function DrawnCard(d: Draw): Card {
    Card(d.suit, Entry(d.num).rank, Entry(d.num).value)
  }

  /** `draw_card`'s lookup of a draw in the deck `__init__` built. */
  function CardFor(deck: map<Suit, map<int, DeckEntry>>, d: Draw): (c: Card)
    requires StandardDeck(deck)
    ensures c == DrawnCard(d)
  {
    CardOf(deck, d.suit, d.num)
  }

  /** What a command answers. */
  datatype Reply =
    | Done
    | AlreadyRunning
    | NoGame
    | InProgress
    | OutOfRange
    | CannotAfford
    | NotNow
    | Standing
    | NotSeated
    | BankRaised(error: BankError)
    | Splitting(split: SplitReply)

  /** The hand `self.players[self.bot]` starts from at the deal: no cards, no stake. */
  const EmptyHand := Hand([], [], 0, false, false)

  /** Whether `bet` passes the minimum and, when enabled, the maximum. */
  predicate InRange(s: TableSettings, bet: int) {
    !(bet < s.minBet || (bet > s.maxBet && s.maxEnabled))
  }

  /**
   * `self.players` without the dealer: each user appears once (the dict's
   * keys are members, which compare by user id alone, whatever the server),
   * every seat is well formed and its stakes are non-negative.
   */
  predicate Seated(seats: seq<Seat>) {
    && (forall i, j :: 0 <= i < j < |seats| ==> seats[i].key.user != seats[j].key.user)
    && (forall i :: 0 <= i < |seats| ==> WellFormed(seats[i].player) && StakesNonNegative(seats[i].player.hands))
  }

  /**
   * The seat of the member with user id `user`: the lookup
   * `self.players[player]`, which matches a member of any server with that id.
   */
  function Find(seats: seq<Seat>, user: Id): (r: Option<nat>)
    ensures r.None? <==> forall i :: 0 <= i < |seats| ==> seats[i].key.user != user
    ensures r.Some? ==> r.value < |seats| && seats[r.value].key.user == user
  {
    if |seats| == 0 then None
    else if seats[|seats| - 1].key.user == user then Some(|seats| - 1)
    else Find(seats[..|seats| - 1], user)
  }

  /** A well-formed player with non-negative stakes can take over any seat. */
  lemma Reseat(seats: seq<Seat>, i: nat, p: Player)
    requires Seated(seats) && i < |seats|
    requires WellFormed(p) && StakesNonNegative(p.hands)
    ensures Seated(seats[i := Seat(seats[i].key, p)])
  {
  }

  /** A seat's player replaced by one with the same stakes keeps the table seated. */
  lemma ReseatSameStakes(seats: seq<Seat>, i: nat, p: Player)
    requires Seated(seats) && i < |seats|
    requires WellFormed(p) && SameStakes(seats[i].player.hands, p.hands)
    ensures Seated(seats[i := Seat(seats[i].key, p)])
  {
    assert StakesNonNegative(seats[i].player.hands);
    Reseat(seats, i, p);
  }

  /** The deal for one seat: two cards to its hand in play. */
  function DealtSeat(s: Seat, draws: (Draw, Draw)): Seat
    requires WellFormed(s.player)
  {
    Seat(s.key, DealTo(s.player, DrawnCard(draws.0), DrawnCard(draws.1)))
  }

  /** The deal keeps every seat's key, shape and stakes, so the table stays seated. */
  lemma DealtSeated(seats: seq<Seat>, draws: seq<(Draw, Draw)>, dealt: seq<Seat>)
    requires Seated(seats) && |draws| == |seats| == |dealt|
    requires forall j :: 0 <= j < |seats| ==> dealt[j] == DealtSeat(seats[j], draws[j])
    ensures Seated(dealt)
  {
  }

  /** The deal's loop over the seated players: two cards each, in seat order. */
  method DealSeats(deck: map<Suit, map<int, DeckEntry>>, seats: seq<Seat>, draws: seq<(Draw, Draw)>)
    returns (dealt: seq<Seat>)
    requires StandardDeck(deck) && Seated(seats) && |draws| == |seats|
    ensures |dealt| == |seats| && Seated(dealt)
    ensures forall j :: 0 <= j < |seats| ==> dealt[j] == DealtSeat(seats[j], draws[j])
  {
    dealt := [];
    for i := 0 to |seats|
      invariant |dealt| == i
      invariant forall j :: 0 <= j < i ==> dealt[j] == DealtSeat(seats[j], draws[j])
    {
      var c1 := CardFor(deck, draws[i].0);
      var c2 := CardFor(deck, draws[i].1);
      var seat := Seat(seats[i].key, DealTo(seats[i].player, c1, c2));
      DealtOneMore(seats, draws, dealt, seat);
      dealt := dealt + [seat];
    }
    DealtSeated(seats, draws, dealt);
  }

  /** The deal's loop invariant carried over one more seat. */
  lemma DealtOneMore(seats: seq<Seat>, draws: seq<(Draw, Draw)>, dealt: seq<Seat>, seat: Seat)
    requires Seated(seats) && |draws| == |seats| && |dealt| < |seats|
    requires forall j :: 0 <= j < |dealt| ==> dealt[j] == DealtSeat(seats[j], draws[j])
    requires seat == DealtSeat(seats[|dealt|], draws[|dealt|])
    ensures forall j :: 0 <= j < |dealt| + 1 ==> (dealt + [seat])[j] == DealtSeat(seats[j], draws[j])
  {
    forall j | 0 <= j < |dealt| + 1
      ensures (dealt + [seat])[j] == DealtSeat(seats[j], draws[j])
    {
      if j < |dealt| {
        assert (dealt + [seat])[j] == dealt[j];
      }
    }
  }

  /** Every hand of every seated player is standing. */
  predicate EveryHandStanding(seats: seq<Seat>) {
    forall i :: 0 <= i < |seats| ==> AllHandsStanding(seats[i].player)
  }

  class Table {
    const bank: Bank
    const settings: TableSettings
    const deck: map<Suit, map<int, DeckEntry>>
    var state: Phase
    /** Whether a `blackjack_game` loop is alive; an exception inside it ends it. */
    var running: bool
    /** Whether this round's pregame reset has run and bets are being taken. */
    var betsOpen: bool
    var timer: int
    var seats: seq<Seat>
    var dealer: Hand

    ghost predicate Valid()
      reads this
    {
      && StandardDeck(deck)
      && Seated(seats)
      && (state == Null ==> !running)
      && (betsOpen ==> running && state == Pregame)
    }

    /** `__init__`: the deck is built and no game is running. */
    constructor (bank: Bank, settings: TableSettings)
      ensures this.bank == bank && this.settings == settings
      ensures state == Null && !running && !betsOpen && timer == 0
      ensures seats == [] && dealer == EmptyHand
      ensures Valid()
    {
      var d := BuildDeck();
      this.bank := bank;
      this.settings := settings;
      deck := d;
      state := Null;
      running := false;
      betsOpen := false;
      timer := 0;
      seats := [];
      dealer := EmptyHand;
    }

    /**
     * `start`: only a table with no game opens one and starts the loop, whose
     * first pregame reset runs before anything else can happen: no players,
     * the timer at 0 and bets open.
     */
    method Start() returns (r: Reply)
      requires Valid()
      modifies this
      ensures Valid()
      ensures old(state) == Null ==>
                r == Done && state == Pregame && running && betsOpen && seats == [] && timer == 0
      ensures old(state) != Null ==>
                && r == AlreadyRunning && state == old(state) && running == old(running) && betsOpen == old(betsOpen)
                && seats == old(seats) && timer == old(timer)
      ensures dealer == old(dealer)
    {
      if state == Null {
        state := Pregame;
        running := true;
        seats := [];
        timer := 0;
        betsOpen := true;
        r := Done;
      } else {
        r := AlreadyRunning;
      }
    }

    /**
     * `stop`: any game is switched off, and the loop ends at its next check;
     * the seated players and their stakes stay where they are.
     */
    method Stop() returns (r: Reply)
      requires Valid()
      modifies this
      ensures Valid()
      ensures old(state) == Null ==> r == NoGame && state == Null && running == old(running) && betsOpen == old(betsOpen)
      ensures old(state) != Null ==> r == Done && state == Null && !running && !betsOpen
      ensures seats == old(seats) && timer == old(timer) && dealer == old(dealer)
    {
      if state == Null {
        r := NoGame;
      } else {
        state := Null;
        running := false;
        betsOpen := false;
        r := Done;
      }
    }

    /**
     * The loop's pregame reset at the top of each later round (the first one
     * is part of `Start`): the seats and the timer are cleared and bets open.
     */
    method NewRound()
      requires Valid()
      modifies this
      ensures Valid()
      ensures old(running && state == Pregame && !betsOpen) ==> seats == [] && timer == 0 && betsOpen
      ensures !old(running && state == Pregame && !betsOpen) ==>
                seats == old(seats) && timer == old(timer) && betsOpen == old(betsOpen)
      ensures state == old(state) && running == old(running) && dealer == old(dealer)
    {
      if running && state == Pregame && !betsOpen {
        seats := [];
        timer := 0;
        betsOpen := true;
      }
    }

    /** The end of the betting time: no bets abort the game, otherwise the deal begins. */
    method CloseBetting()
      requires Valid()
      modifies this
      ensures Valid()
      ensures old(betsOpen) && old(seats) == [] ==> state == Null && !running && !betsOpen
      ensures old(betsOpen) && old(seats) != [] ==> state == Drawing && running && !betsOpen
      ensures !old(betsOpen) ==> state == old(state) && running == old(running) && betsOpen == old(betsOpen)
      ensures seats == old(seats) && timer == old(timer) && dealer == old(dealer)
    {
      if running && state == Pregame && betsOpen {
        betsOpen := false;
        if |seats| == 0 {
          state := Null;
          running := false;
        } else {
          state := Drawing;
        }
      }
    }

    /**
     * `bet`: `can_spend` is asked first and raises for a missing account. A
     * bet is placed only if affordable, in pregame and in range; a first bet
     * withdraws the stake and takes a new seat, a repeated one deposits and
     * withdraws the new amount (net nothing) and keeps the seat's place and
     * key; either way the seat starts over with one empty hand holding the
     * new bet. The bank calls use the author's own account, so a repeat bet
     * from another server keeps the seat paying into the first bet's account.
     */
    method Bet(k: AccountKey, bet: int) returns (r: Reply)
      requires Valid()
      modifies this, bank
      ensures Valid()
      ensures old(bank.Valid()) ==> bank.Valid()
      ensures bank.legacy == old(bank.legacy)
      ensures state == old(state) && running == old(running) && betsOpen == old(betsOpen)
      ensures timer == old(timer) && dealer == old(dealer)
      ensures k !in old(bank.accounts) ==> r == BankRaised(NoAccount)
      ensures r == Done <==>
                && k in old(bank.accounts) && old(bank.accounts)[k].balance >= bet as real
                && old(state) == Pregame && InRange(settings, bet) && bet >= 0
      ensures r == Done && Find(old(seats), k.user).None? ==>
                && seats == old(seats) + [Seat(k, FreshPlayer(bet))]
                && bank.accounts == Withdraw(old(bank.accounts), k, bet as real).value
      ensures r == Done && Find(old(seats), k.user).Some? ==>
                var i := Find(old(seats), k.user).value;
                && seats == old(seats)[i := Seat(old(seats)[i].key, FreshPlayer(bet))]
                && bank.accounts == old(bank.accounts)
      ensures r != Done ==> seats == old(seats) && bank.accounts == old(bank.accounts)
      ensures k in old(bank.accounts) ==>
                var affordable := old(bank.accounts)[k].balance >= bet as real;
                && (affordable && old(state) == Pregame && !InRange(settings, bet) ==> r == OutOfRange)
                && (affordable && old(state) == Pregame && InRange(settings, bet) && bet < 0 ==>
                      r == BankRaised(NegativeValue))
                && (!(affordable && old(state) == Pregame) && old(state) == Null ==> r == NoGame)
                && (!(affordable && old(state) == Pregame) && old(state) != Null && old(state) != Pregame ==>
                      r == InProgress)
                && (!affordable && old(state) == Pregame ==> r == CannotAfford)
    {
      var can := bank.CanSpend(k, bet as real);
      if can.Failure? {
        return BankRaised(can.error);
      }
      if can.value && state == Pregame {
        if !InRange(settings, bet) {
          return OutOfRange;
        }
        var found := Find(seats, k.user);
        if found.None? {
          var w := bank.WithdrawCredits(k, bet as real);
          if w.Fail? {
            return BankRaised(w.error);
          }
          seats := seats + [Seat(k, FreshPlayer(bet))];
        } else {
          var d := bank.DepositCredits(k, bet as real);
          if d.Fail? {
            return BankRaised(d.error);
          }
          DepositThenWithdraw(old(bank.accounts), k, bet as real);
          var w := bank.WithdrawCredits(k, bet as real);
          assert w.Pass?;
          Reseat(seats, found.value, FreshPlayer(bet));
          seats := seats[found.value := Seat(seats[found.value].key, FreshPlayer(bet))];
        }
        r := Done;
      } else if state == Null {
        r := NoGame;
      } else if state != Pregame {
        r := InProgress;
      } else {
        r := CannotAfford;
      }
    }

    /**
     * `hit`: an unseated author is refused before anything happens; a seated
     * one is dealt a card whatever the phase (see `Rules.Hit`).
     */
    method Hit(k: AccountKey, d: Draw) returns (r: Reply)
      requires Valid()
      modifies this
      ensures Valid()
      ensures state == old(state) && running == old(running) && betsOpen == old(betsOpen)
      ensures timer == old(timer) && dealer == old(dealer)
      ensures Find(old(seats), k.user).None? ==> r == NotSeated && seats == old(seats)
      ensures Find(old(seats), k.user).Some? ==>
                var i := Find(old(seats), k.user).value;
                var p := old(seats)[i].player;
                && seats == old(seats)[i := Seat(old(seats)[i].key, Rules.Hit(p, DrawnCard(d), old(state) == Game))]
                && r == (if old(state) != Game then NotNow else if Current(p).standing then Standing else Done)
    {
      var found := Find(seats, k.user);
      if found.None? {
        return NotSeated;
      }
      var i := found.value;
      var p := seats[i].player;
      var c := CardFor(deck, d);
      var q := Rules.Hit(p, c, state == Game);
      ReseatSameStakes(seats, i, q);
      seats := seats[i := Seat(seats[i].key, q)];
      r := if state != Game then NotNow else if Current(p).standing then Standing else Done;
    }

    /** `stand`: closes the hand in play of a seated player, in a game, if it is open. */
    method Stand(k: AccountKey) returns (r: Reply)
      requires Valid()
      modifies this
      ensures Valid()
      ensures state == old(state) && running == old(running) && betsOpen == old(betsOpen)
      ensures timer == old(timer) && dealer == old(dealer)
      ensures Find(old(seats), k.user).None? ==> r == NotSeated && seats == old(seats)
      ensures Find(old(seats), k.user).Some? ==>
                var i := Find(old(seats), k.user).value;
                var p := old(seats)[i].player;
                && seats == old(seats)[i := Seat(old(seats)[i].key, Rules.Stand(p, old(state) == Game))]
                && r == (if old(state) != Game then NotNow else if Current(p).standing then Standing else Done)
    {
      var found := Find(seats, k.user);
      if found.None? {
        return NotSeated;
      }
      var i := found.value;
      var p := seats[i].player;
      var q := Rules.Stand(p, state == Game);
      ReseatSameStakes(seats, i, q);
      seats := seats[i := Seat(seats[i].key, q)];
      r := if state != Game then NotNow else if Current(p).standing then Standing else Done;
    }

    /**
     * `double`: `can_spend` of the current bet is asked first; in a game, on
     * an open and affordable hand, the bet is doubled, the old amount
     * withdrawn (a failed withdrawal raises with the bet already doubled)
     * and one card drawn.
     */
    method Double(k: AccountKey, d: Draw) returns (r: Reply)
      requires Valid()
      modifies this, bank
      ensures Valid()
      ensures old(bank.Valid()) ==> bank.Valid()
      ensures bank.legacy == old(bank.legacy)
      ensures state == old(state) && running == old(running) && betsOpen == old(betsOpen)
      ensures timer == old(timer) && dealer == old(dealer)
      ensures Find(old(seats), k.user).None? ==> r == NotSeated && seats == old(seats) && bank.accounts == old(bank.accounts)
      ensures Find(old(seats), k.user).Some? ==>
                var i := Find(old(seats), k.user).value;
                var p := old(seats)[i].player;
                var bet := Current(p).bet;
                var m := old(bank.accounts);
                var open := k in m && m[k].balance >= bet as real && !Current(p).standing && old(state) == Game;
                && (k !in m ==> r == BankRaised(NoAccount) && seats == old(seats) && bank.accounts == m)
                && (open ==> bank.accounts == After(Withdraw(m, k, bet as real), m))
                && (open && Withdraw(m, k, bet as real).Success? ==>
                      r == Done && seats == old(seats)[i := Seat(old(seats)[i].key, DoubleDraw(DoubleBet(p), DrawnCard(d)))])
                && (open && Withdraw(m, k, bet as real).Failure? ==>
                      && r == BankRaised(Withdraw(m, k, bet as real).error)
                      && seats == old(seats)[i := Seat(old(seats)[i].key, DoubleBet(p))])
                && (k in m && !open ==>
                      && seats == old(seats) && bank.accounts == m
                      && r == (if old(state) != Game then NotNow
                               else if Current(p).standing then Standing
                               else CannotAfford))
    {
      var found := Find(seats, k.user);
      if found.None? {
        return NotSeated;
      }
      var i := found.value;
      var p := seats[i].player;
      var bet := Current(p).bet;
      var can := bank.CanSpend(k, bet as real);
      if can.Failure? {
        return BankRaised(can.error);
      }
      if can.value && !Current(p).standing && state == Game {
        r := DoubleOpen(k, i, d);
      } else if state != Game {
        r := NotNow;
      } else if Current(p).standing {
        r := Standing;
      } else {
        r := CannotAfford;
      }
    }

    /**
     * The affordable branch of `double`: the bet of the hand in play of seat
     * `i` is doubled, then the old amount is withdrawn from the author's
     * account `k`; only if that succeeds is the card drawn. The seat keeps
     * its key.
     */
    method DoubleOpen(k: AccountKey, i: nat, d: Draw) returns (r: Reply)
      requires Valid() && i < |seats|
      modifies this, bank
      ensures Valid()
      ensures old(bank.Valid()) ==> bank.Valid()
      ensures bank.legacy == old(bank.legacy)
      ensures state == old(state) && running == old(running) && betsOpen == old(betsOpen)
      ensures timer == old(timer) && dealer == old(dealer)
      ensures var key := old(seats)[i].key;
              var p := old(seats)[i].player;
              var w := Withdraw(old(bank.accounts), k, Current(p).bet as real);
              && bank.accounts == After(w, old(bank.accounts))
              && (w.Success? ==> r == Done && seats == old(seats)[i := Seat(key, DoubleDraw(DoubleBet(p), DrawnCard(d)))])
              && (w.Failure? ==> r == BankRaised(w.error) && seats == old(seats)[i := Seat(key, DoubleBet(p))])
    {
      var p := seats[i].player;
      var doubled := DoubleBet(p);
      var w := bank.WithdrawCredits(k, Current(p).bet as real);
      var q := doubled;
      if w.Pass? {
        var c := CardFor(deck, d);
        q := DoubleDraw(doubled, c);
      }
      Reseat(seats, i, q);
      seats := seats[i := Seat(seats[i].key, q)];
      r := if w.Fail? then BankRaised(w.error) else Done;
    }

    /** `split`: applies `Rules.SplitHand` to a seated player's hand in play; no stake is taken. */
    method Split(k: AccountKey) returns (r: Reply)
      requires Valid()
      modifies this
      ensures Valid()
      ensures state == old(state) && running == old(running) && betsOpen == old(betsOpen)
      ensures timer == old(timer) && dealer == old(dealer)
      ensures Find(old(seats), k.user).None? ==> r == NotSeated && seats == old(seats)
      ensures Find(old(seats), k.user).Some? ==>
                var i := Find(old(seats), k.user).value;
                var s := SplitHand(old(seats)[i].player, old(state) == Game);
                seats == old(seats)[i := Seat(old(seats)[i].key, s.player)] && r == Splitting(s.reply)
    {
      var found := Find(seats, k.user);
      if found.None? {
        return NotSeated;
      }
      var i := found.value;
      var s := SplitHand(seats[i].player, state == Game);
      Reseat(seats, i, s.player);
      seats := seats[i := Seat(seats[i].key, s.player)];
      r := Splitting(s.reply);
    }

    /**
     * The deal: two cards to every seated player in seat order, a fresh
     * dealer hand with one card, and the game begins.
     */
    method Deal(draws: seq<(Draw, Draw)>, d: Draw)
      requires Valid()
      requires |draws| == |seats|
      modifies this
      ensures Valid()
      ensures old(running && state == Drawing) ==>
                && |seats| == |old(seats)|
                && (forall i :: 0 <= i < |seats| ==> seats[i] == DealtSeat(old(seats)[i], draws[i]))
                && dealer == Drawn(EmptyHand, DrawnCard(d))
                && state == Game
      ensures !old(running && state == Drawing) ==> seats == old(seats) && dealer == old(dealer) && state == old(state)
      ensures running == old(running) && betsOpen == old(betsOpen) && timer == old(timer)
    {
      if running && state == Drawing {
        var dealt := DealSeats(deck, seats, draws);
        seats := dealt;
        var c := CardFor(deck, d);
        dealer := Drawn(EmptyHand, c);
        state := Game;
      }
    }

    /** The game loop's check over every seated player's every hand. */
    method AllStood() returns (b: bool)
      requires Valid()
      ensures b <==> EveryHandStanding(seats)
    {
      b := true;
      for i := 0 to |seats|
        invariant b <==> forall j :: 0 <= j < i ==> AllHandsStanding(seats[j].player)
      {
        var hands := seats[i].player.hands;
        ghost var earlier := b;
        for j := 0 to |hands|
          invariant b <==> earlier && forall h :: 0 <= h < j ==> hands[h].standing
        {
          if !hands[j].standing {
            b := false;
          }
        }
      }
    }

    /** One second of the game phase: the timer runs until everyone stands or time is up. */
    method Tick()
      requires Valid()
      modifies this
      ensures Valid()
      ensures old(running && state == Game) ==>
                if old(timer) < settings.gameTime && !EveryHandStanding(old(seats))
                then state == Game && timer == old(timer) + 1
                else state == Endgame && timer == old(timer)
      ensures !old(running && state == Game) ==> state == old(state) && timer == old(timer)
      ensures seats == old(seats) && dealer == old(dealer)
      ensures running == old(running) && betsOpen == old(betsOpen)
    {
      if running && state == Game {
        var stood := AllStood();
        if timer < settings.gameTime && !stood {
          timer := timer + 1;
        } else {
          state := Endgame;
        }
      }
    }

    /**
     * The payout loops: every seated player's hands in seat order, each paid
     * by `Payout` into the player's account; a deposit that raises stops them.
     */
    method SettleBets(o: DealerOutcome) returns (error: Option<BankError>)
      requires Valid()
      modifies this, bank
      ensures Valid()
      ensures old(bank.Valid()) ==> bank.Valid()
      ensures var s := SettleTable(old(bank.accounts), old(seats), o);
              bank.accounts == s.accounts && seats == s.seats && error == s.error
      ensures bank.legacy == old(bank.legacy)
      ensures state == old(state) && running == old(running) && betsOpen == old(betsOpen)
      ensures timer == old(timer) && dealer == old(dealer)
    {
      var table;
      table, error := SettleSeats(bank, seats, o);
      SeatedAfterSettling(seats, o, old(bank.accounts));
      SettleTableSafe(old(bank.accounts), seats, o);
      seats := table;
    }

    /**
     * The dealer's turn: one more card, a count, and the outcome; below 17
     * without a natural the dealer draws again at the next step. Once an
     * outcome is found the round is finished.
     */
    method DealerTurn(d: Draw) returns (r: Outcome<BankError>)
      requires Valid()
      modifies this, bank
      ensures Valid()
      ensures old(bank.Valid()) ==> bank.Valid()
      ensures bank.legacy == old(bank.legacy)
      ensures timer == old(timer) && betsOpen == old(betsOpen)
      ensures !old(running && state == Endgame) ==>
                && r == Pass && state == old(state) && running == old(running)
                && seats == old(seats) && dealer == old(dealer) && bank.accounts == old(bank.accounts)
      ensures old(running && state == Endgame) ==>
                var counting := Counted(Drawn(old(dealer), DrawnCard(d)));
                var outcome := DealerResult(counting.hand, counting.count);
                && dealer == counting.hand
                && (outcome.None? ==>
                      && r == Pass && state == Endgame && running
                      && seats == old(seats) && bank.accounts == old(bank.accounts))
                && (outcome.Some? ==> Finished(old(bank.accounts), old(seats), outcome.value, r))
    {
      r := Pass;
      if running && state == Endgame {
        var c := CardFor(deck, d);
        var counting := CountHand(Drawn(dealer, c));
        dealer := counting.hand;
        var outcome := DealerResult(counting.hand, counting.count);
        if outcome.Some? {
          r := FinishRound(outcome.value);
        }
      }
    }

    /** What finishing a round with dealer outcome `o` leaves, from accounts `m` and seats `seats`. */
    ghost predicate Finished(m: Accounts, seats: seq<Seat>, o: DealerOutcome, r: Outcome<BankError>)
      reads this, bank
    {
      var s := SettleTable(m, seats, o);
      && this.seats == s.seats && bank.accounts == s.accounts
      && (s.error.Some? ==> r == Fail(s.error.value) && state == Endgame && !running)
      && (s.error.None? && FirstMissing(s.seats, s.accounts).Some? ==>
            r == Fail(NoAccount) && state == Pregame && !running)
      && (s.error.None? && FirstMissing(s.seats, s.accounts).None? ==>
            r == Pass && state == Pregame && running)
    }

    /**
     * The end of a round: the bets are settled and the table returns to
     * pregame, after which each seated player's balance is looked up. An
     * exception in either loop ends the game loop where it stands.
     */
    method FinishRound(o: DealerOutcome) returns (r: Outcome<BankError>)
      requires Valid() && running && state == Endgame
      modifies this, bank
      ensures Valid()
      ensures old(bank.Valid()) ==> bank.Valid()
      ensures bank.legacy == old(bank.legacy)
      ensures timer == old(timer) && betsOpen == old(betsOpen) && dealer == old(dealer)
      ensures Finished(old(bank.accounts), old(seats), o, r)
    {
      r := Pass;
      var error := SettleBets(o);
      if error.Some? {
        running := false;
        return Fail(error.value);
      }
      state := Pregame;
      var missing := ReportBalances();
      if missing {
        running := false;
        r := Fail(NoAccount);
      }
    }

    /** The balance report after a round: `get_balance` raises for the first seat with no account. */
    method ReportBalances() returns (missing: bool)
      requires Valid()
      ensures missing <==> FirstMissing(seats, bank.accounts).Some?
    {
      for i := 0 to |seats|
        invariant forall j :: 0 <= j < i ==> seats[j].key in bank.accounts
      {
        var balance := bank.GetBalance(seats[i].key);
        if balance.Failure? {
          return true;
        }
      }
      return false;
    }
  }

  /** The loop over the seats of `SettleBets`, in seat order, paying into `bank`. */
  method SettleSeats(bank: Bank, seats: seq<Seat>, o: DealerOutcome) returns (seats': seq<Seat>, error: Option<BankError>)
    modifies bank
    ensures var s := SettleTable(old(bank.accounts), seats, o);
            bank.accounts == s.accounts && seats' == s.seats && error == s.error
    ensures bank.legacy == old(bank.legacy)
  {
    ghost var target := SettleTable(bank.accounts, seats, o);
    var done := [];
    ghost var paid := 0.0;
    error := None;
    var i := 0;
    while i < |seats| && error.None?
      invariant 0 <= i <= |seats|
      invariant bank.legacy == old(bank.legacy)
      invariant target == Resumed(bank.accounts, done, paid, error, seats[i..], o)
      decreases |seats| - i
    {
      ghost var before := bank.accounts;
      ghost var paidBefore := paid;
      var doneBefore := done;
      var seat;
      seat, error := SettleSeat(bank, seats[i], o);
      paid := paid + SettleHands(before, seats[i].key, seats[i].player.hands, o).paid;
      done := done + [seat];
      ResumedStep(before, doneBefore, paidBefore, seats, i, o, bank.accounts, seat, paid, error);
      i := i + 1;
    }
    ResumedEnd(bank.accounts, done, paid, error, seats[i..], o);
    seats' := done + seats[i..];
  }

  /** The settlement of one seat: its player's payout loop, with the key kept. */
  method SettleSeat(bank: Bank, seat: Seat, o: DealerOutcome) returns (seat': Seat, error: Option<BankError>)
    modifies bank
    ensures var s := SettleHands(old(bank.accounts), seat.key, seat.player.hands, o);
            && bank.accounts == s.accounts && error == s.error
            && seat' == Seat(seat.key, seat.player.(hands := s.hands))
    ensures bank.legacy == old(bank.legacy)
  {
    var hands;
    hands, error := SettlePlayer(bank, seat.key, seat.player.hands, o);
    seat' := Seat(seat.key, seat.player.(hands := hands));
  }

  /** One seat's payout loop over its hands, in hand order, into account `k` of `bank`. */
  method SettlePlayer(bank: Bank, k: AccountKey, hands: seq<Hand>, o: DealerOutcome) returns (hands': seq<Hand>, error: Option<BankError>)
    modifies bank
    ensures var s := SettleHands(old(bank.accounts), k, hands, o);
            bank.accounts == s.accounts && hands' == s.hands && error == s.error
    ensures bank.legacy == old(bank.legacy)
  {
    ghost var target := SettleHands(bank.accounts, k, hands, o);
    var done := [];
    ghost var paid := 0.0;
    error := None;
    var j := 0;
    ResumedHandsStart(bank.accounts, k, hands, o);
    while j < |hands| && error.None?
      invariant 0 <= j <= |hands|
      invariant bank.legacy == old(bank.legacy)
      invariant target == ResumedHands(bank.accounts, k, done, paid, error, hands[j..], o)
      decreases |hands| - j
    {
      done, paid, error := SettleNext(bank, k, hands, j, o, target, done, paid);
      j := j + 1;
    }
    ResumedHandsEnd(bank.accounts, k, done, paid, error, hands[j..], o);
    hands' := done + hands[j..];
  }

  /** One turn of the hand loop: hand `j` is settled and the loop resumes after it. */
  method SettleNext(bank: Bank, k: AccountKey, hands: seq<Hand>, j: nat, o: DealerOutcome,
                    ghost target: Settled, done: seq<Hand>, ghost paid: real)
      returns (done': seq<Hand>, ghost paid': real, error: Option<BankError>)
    requires j < |hands|
    requires target == ResumedHands(bank.accounts, k, done, paid, None, hands[j..], o)
    modifies bank
    ensures target == ResumedHands(bank.accounts, k, done', paid', error, hands[j + 1..], o)
    ensures bank.legacy == old(bank.legacy)
  {
    ghost var before := bank.accounts;
    var h, amount;
    h, amount, error := SettleHand(bank, k, hands[j], o);
    done' := done + [h];
    paid' := paid + amount;
    ResumedHandsStep(before, k, done, paid, hands, j, o, bank.accounts, h, amount, error);
  }

  /**
   * The payout of one hand: it is counted (except against a dealer
   * blackjack) and what it wins is deposited to account `k`.
   */
  method SettleHand(bank: Bank, k: AccountKey, h: Hand, o: DealerOutcome) returns (h': Hand, amount: real, error: Option<BankError>)
    modifies bank
    ensures var s := HandSettled(old(bank.accounts), k, h, o);
            bank.accounts == s.accounts && [h'] == s.hands && amount == s.paid && error == s.error
    ensures bank.legacy == old(bank.legacy)
  {
    var c: Counting;
    if o.DealerBlackjack? {
      c := Scored(h, o);
    } else {
      c := CountHand(h);
    }
    h' := c.hand;
    amount := 0.0;
    error := None;
    var pay := Payout(c.hand, c.count, o);
    if pay.Some? {
      var result := bank.DepositCredits(k, pay.value);
      if result.Fail? {
        error := Some(result.error);
      } else {
        amount := pay.value;
      }
    }
  }

  /** Where the payout of one hand leaves the bank, the hand and the amount paid. */
  function HandSettled(m: Accounts, k: AccountKey, h: Hand, o: DealerOutcome): Settled {
    var c := Scored(h, o);
    match Payout(c.hand, c.count, o)
    case None => Settled(m, [c.hand], 0.0, None)
    case Some(amount) =>
      match Deposit(m, k, amount)
      case Failure(e) => Settled(m, [c.hand], 0.0, Some(e))
      case Success(m') => Settled(m', [c.hand], amount, None)
  }

  /** Settling keeps every seat's key, hand in play and stakes, so the table stays seated. */
  lemma SeatedAfterSettling(seats: seq<Seat>, o: DealerOutcome, m: Accounts)
    requires Seated(seats)
    ensures Seated(SettleTable(m, seats, o).seats)
  {
    var r := SettleTable(m, seats, o).seats;
    SettleTableKeeps(m, seats, o);
    forall i | 0 <= i < |r|
      ensures WellFormed(r[i].player) && StakesNonNegative(r[i].player.hands)
    {
      assert SameStakes(seats[i].player.hands, r[i].player.hands);
    }
  }

  /** Where the payout loops end, given the seats settled so far and the seats left. */
  function Resumed(m: Accounts, done: seq<Seat>, paid: real, error: Option<BankError>,
                   rest: seq<Seat>, o: DealerOutcome): TableSettled
  {
    if error.Some? then TableSettled(m, done + rest, paid, error)
    else
      var t := SettleTable(m, rest, o);
      TableSettled(t.accounts, done + t.seats, paid + t.paid, t.error)
  }

  /** Where one player's payout loop ends, given the hands settled so far and the hands left. */
  function ResumedHands(m: Accounts, k: AccountKey, done: seq<Hand>, paid: real, error: Option<BankError>,
                        rest: seq<Hand>, o: DealerOutcome): Settled
  {
    if error.Some? then Settled(m, done + rest, paid, error)
    else Behind(done, paid, SettleHands(m, k, rest, o))
  }

  /** A loop over the seats ends where it stands once a deposit failed or no seat is left. */
  lemma ResumedEnd(m: Accounts, done: seq<Seat>, paid: real, error: Option<BankError>,
                   rest: seq<Seat>, o: DealerOutcome)
    requires error.Some? || rest == []
    ensures var t := Resumed(m, done, paid, error, rest, o);
            t.accounts == m && t.seats == done + rest && t.error == error
  {
    if error.None? {
      assert done + [] == done;
    }
  }

  /** A player's payout loop starts with nothing settled and every hand left. */
  lemma ResumedHandsStart(m: Accounts, k: AccountKey, hands: seq<Hand>, o: DealerOutcome)
    ensures ResumedHands(m, k, [], 0.0, None, hands[0..], o) == SettleHands(m, k, hands, o)
  {
    assert hands[0..] == hands;
    var s := SettleHands(m, k, hands, o);
    assert [] + s.hands == s.hands;
  }

  /** A player's payout loop ends where it stands once a deposit failed or no hand is left. */
  lemma ResumedHandsEnd(m: Accounts, k: AccountKey, done: seq<Hand>, paid: real, error: Option<BankError>,
                        rest: seq<Hand>, o: DealerOutcome)
    requires error.Some? || rest == []
    ensures var t := ResumedHands(m, k, done, paid, error, rest, o);
            t.accounts == m && t.hands == done + rest && t.error == error
  {
    if error.None? {
      assert done + [] == done;
    }
  }

  /** One hand of a player's payout loop, stated on `ResumedHands`. */
  lemma ResumedHandsStep(m: Accounts, k: AccountKey, done: seq<Hand>, paid: real, hands: seq<Hand>, j: nat,
                         o: DealerOutcome, m': Accounts, h: Hand, amount: real, error': Option<BankError>)
    requires j < |hands|
    requires var s := HandSettled(m, k, hands[j], o);
             m' == s.accounts && [h] == s.hands && amount == s.paid && error' == s.error
    ensures ResumedHands(m, k, done, paid, None, hands[j..], o)
            == ResumedHands(m', k, done + [h], paid + amount, error', hands[j + 1..], o)
  {
    var rest := hands[j..];
    assert rest[0] == hands[j] && rest[1..] == hands[j + 1..];
    var s := HandSettled(m, k, hands[j], o);
    SettleHandsCons(m, k, rest, o, s);
    ResumedHandsStepOn(m, k, done, paid, rest, o, s, h);
  }

  /** `ResumedHandsStep` on the hands left, with the first hand's settlement named. */
  lemma ResumedHandsStepOn(m: Accounts, k: AccountKey, done: seq<Hand>, paid: real, rest: seq<Hand>,
                           o: DealerOutcome, s: Settled, h: Hand)
    requires |rest| > 0 && s.hands == [h]
    requires s.error.Some? ==> s.accounts == m && s.paid == 0.0
    requires s.error.Some? ==> SettleHands(m, k, rest, o) == Settled(m, s.hands + rest[1..], 0.0, s.error)
    requires s.error.None? ==> SettleHands(m, k, rest, o) == Behind(s.hands, s.paid, SettleHands(s.accounts, k, rest[1..], o))
    ensures ResumedHands(m, k, done, paid, None, rest, o)
            == ResumedHands(s.accounts, k, done + [h], paid + s.paid, s.error, rest[1..], o)
  {
    if s.error.Some? {
      assert done + ([h] + rest[1..]) == (done + [h]) + rest[1..];
    } else {
      var u := SettleHands(s.accounts, k, rest[1..], o);
      assert done + ([h] + u.hands) == (done + [h]) + u.hands;
    }
  }

  /** `SettleHands` unfolded once, with the first hand's settlement named. */
  lemma SettleHandsCons(m: Accounts, k: AccountKey, hands: seq<Hand>, o: DealerOutcome, s: Settled)
    requires |hands| > 0 && s == HandSettled(m, k, hands[0], o)
    ensures |s.hands| == 1 && (s.error.Some? ==> s.accounts == m && s.paid == 0.0)
    ensures s.error.Some? ==> SettleHands(m, k, hands, o) == Settled(m, s.hands + hands[1..], 0.0, s.error)
    ensures s.error.None? ==> SettleHands(m, k, hands, o) == Behind(s.hands, s.paid, SettleHands(s.accounts, k, hands[1..], o))
  {
  }

  /** One seat of the payout loops, stated on `Resumed`. */
  lemma ResumedStep(m: Accounts, done: seq<Seat>, paid: real, seats: seq<Seat>, i: nat, o: DealerOutcome,
                    m': Accounts, seat: Seat, paid': real, error': Option<BankError>)
    requires i < |seats|
    requires var s := SettleHands(m, seats[i].key, seats[i].player.hands, o);
             && m' == s.accounts && error' == s.error && paid' == paid + s.paid
             && seat == Seat(seats[i].key, seats[i].player.(hands := s.hands))
    ensures Resumed(m, done, paid, None, seats[i..], o) == Resumed(m', done + [seat], paid', error', seats[i + 1..], o)
  {
    var rest := seats[i..];
    assert rest[0] == seats[i] && rest[1..] == seats[i + 1..];
    var s := SettleHands(m, seats[i].key, seats[i].player.hands, o);
    SettleTableCons(m, rest, o, s, seat);
    ResumedStepOn(m, done, paid, rest, o, s, seat);
  }

  /** `ResumedStep` on the seats left, with the first seat's settlement named. */
  lemma ResumedStepOn(m: Accounts, done: seq<Seat>, paid: real, rest: seq<Seat>, o: DealerOutcome, s: Settled, seat: Seat)
    requires |rest| > 0
    requires s.error.Some? ==> SettleTable(m, rest, o) == TableSettled(s.accounts, [seat] + rest[1..], s.paid, s.error)
    requires s.error.None? ==>
               var t := SettleTable(s.accounts, rest[1..], o);
               SettleTable(m, rest, o) == TableSettled(t.accounts, [seat] + t.seats, s.paid + t.paid, t.error)
    ensures Resumed(m, done, paid, None, rest, o) == Resumed(s.accounts, done + [seat], paid + s.paid, s.error, rest[1..], o)
  {
    if s.error.Some? {
      assert done + ([seat] + rest[1..]) == (done + [seat]) + rest[1..];
    } else {
      var t := SettleTable(s.accounts, rest[1..], o);
      assert done + ([seat] + t.seats) == (done + [seat]) + t.seats;
    }
  }

  /** `SettleTable` unfolded once, with the first seat's settlement named. */
  lemma SettleTableCons(m: Accounts, rest: seq<Seat>, o: DealerOutcome, s: Settled, seat: Seat)
    requires |rest| > 0
    requires s == SettleHands(m, rest[0].key, rest[0].player.hands, o)
    requires seat == Seat(rest[0].key, rest[0].player.(hands := s.hands))
    ensures s.error.Some? ==> SettleTable(m, rest, o) == TableSettled(s.accounts, [seat] + rest[1..], s.paid, s.error)
    ensures s.error.None? ==>
              var t := SettleTable(s.accounts, rest[1..], o);
              SettleTable(m, rest, o) == TableSettled(t.accounts, [seat] + t.seats, s.paid + t.paid, t.error)
  {
  }
}
