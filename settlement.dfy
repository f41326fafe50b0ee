/**
 * The endgame of `blackjack_game` (blackjack/blackjack.py): the dealer's
 * outcome, the payout table keyed on it, and the deposits made hand by hand.
 * A deposit that raises ends the settlement where it stands.
 */
module Settlement {
  import opened Wrappers
  import opened Ledger
  import opened Cards

  datatype DealerOutcome = DealerBlackjack | DealerBust | DealerStands(total: int)

  /**
   * The dealer's outcome after a draw and a count: a natural in exactly two
   * ranks, else a bust over 21, else standing at 17 or more; below 17 there
   * is none yet and the dealer draws again.
   */
  function DealerResult(dealer: Hand, count: int): (r: Option<DealerOutcome>)
    ensures r == Some(DealerBlackjack) <==> IsNatural(dealer.ranks) && |dealer.ranks| == 2
    ensures r == Some(DealerBust) <==> !(IsNatural(dealer.ranks) && |dealer.ranks| == 2) && count > 21
    ensures r.Some? && r.value.DealerStands? ==> r.value.total == count && 17 <= count <= 21
    ensures r.None? <==> !(IsNatural(dealer.ranks) && |dealer.ranks| == 2) && count < 17
  {
    if IsNatural(dealer.ranks) && |dealer.ranks| == 2 then Some(DealerBlackjack)
    else if count > 21 then Some(DealerBust)
    else if count >= 17 then Some(DealerStands(count))
    else None
  }

  /**
   * The deposit for one hand with count `count`, or `None` when the source
   * makes no deposit call. The 2.5x payout is exact here.
   */
  function Payout(h: Hand, count: int, o: DealerOutcome): (r: Option<real>)
    ensures o.DealerBlackjack? ==> (r.Some? <==> h.blackjack)
    ensures h.blackjack && !o.DealerBlackjack? ==> r == Some(h.bet as real * 2.5)
    ensures !h.blackjack && count > 21 ==> r.None?
    ensures h.bet >= 0 && r.Some? ==> r.value >= h.bet as real
  {
    match o
    case DealerBlackjack =>
      if h.blackjack then Some(h.bet as real) else None
    case DealerBust =>
      if h.blackjack then Some(h.bet as real * 2.5)
      else if count <= 21 then Some((h.bet * 2) as real)
      else None
    case DealerStands(d) =>
      if h.blackjack then Some(h.bet as real * 2.5)
      else if count > 21 then None
      else if count > d then Some((h.bet * 2) as real)
      else if count == d then Some(h.bet as real)
      else None
  }

  /** The result of one hand against the dealer, by the usual rules. */
  datatype Verdict = NaturalWin | Win | Push | Loss

  /** A hand's rank in the showdown: a natural beats everything, a bust loses to everything. */
  function PlayerScore(h: Hand, count: int): int {
    if h.blackjack then 22 else if count > 21 then -2 else count
  }

  /** The dealer's rank in the showdown: a bust is beaten by every live hand. */
  function DealerScore(o: DealerOutcome): int {
    match o
    case DealerBlackjack => 22
    case DealerBust => -1
    case DealerStands(d) => d
  }

  function VerdictOf(h: Hand, count: int, o: DealerOutcome): Verdict {
    var mine := PlayerScore(h, count);
    var theirs := DealerScore(o);
    if mine > theirs then (if h.blackjack then NaturalWin else Win)
    else if mine == theirs then Push
    else Loss
  }

  /** What each verdict returns to the player: the stake times 2.5, 2 or 1, or nothing. */
  function Stake(v: Verdict, bet: int): Option<real> {
    match v
    case NaturalWin => Some(bet as real * 2.5)
    case Win => Some((bet * 2) as real)
    case Push => Some(bet as real)
    case Loss => None
  }

  /**
   * The payout table is the showdown: a natural wins 2.5x unless the dealer
   * also has one (then it pushes), a live hand above the dealer wins 2x, an
   * equal one pushes, and everything else loses the stake.
   */
  lemma PayoutIsShowdown(h: Hand, count: int, o: DealerOutcome)
    requires 0 <= count
    requires o.DealerStands? ==> 17 <= o.total <= 21
    ensures Payout(h, count, o) == Stake(VerdictOf(h, count, o), h.bet)
  {
  }

  /** The table's own worked cases for a stake of 100. */
  lemma PayoutExamples()
    ensures var natural := Hand([], [Ace, King], 100, true, true);
            var twenty := Hand([], [King, Queen], 100, true, false);
            && Payout(natural, 21, DealerBust) == Some(250.0)
            && Payout(natural, 21, DealerStands(20)) == Some(250.0)
            && Payout(natural, 21, DealerBlackjack) == Some(100.0)
            && Payout(twenty, 20, DealerBlackjack) == None
            && Payout(twenty, 20, DealerBust) == Some(200.0)
            && Payout(twenty, 20, DealerStands(19)) == Some(200.0)
            && Payout(twenty, 20, DealerStands(20)) == Some(100.0)
            && Payout(twenty, 20, DealerStands(21)) == None
            && Payout(twenty, 25, DealerBust) == None
  {
  }

  /** The count each hand is paid on: the dealer-blackjack branch does not count hands. */
  function Scored(h: Hand, o: DealerOutcome): (r: Counting)
    ensures r.count == Sum(r.hand.cards) && |r.hand.cards| == |h.cards|
    ensures r.hand.bet == h.bet && r.hand.standing == h.standing && r.hand.blackjack == h.blackjack
    ensures o.DealerBlackjack? ==> r.hand == h
  {
    if o.DealerBlackjack? then Counting(h, Sum(h.cards)) else Counted(h)
  }

  /** Where the settlement of one player's hands ends. */
  datatype Settled = Settled(accounts: Accounts, hands: seq<Hand>, paid: real, error: Option<BankError>)

  /** `s` with hands already settled in front of it and what they paid added. */
  function Behind(done: seq<Hand>, paid: real, s: Settled): Settled {
    s.(hands := done + s.hands, paid := paid + s.paid)
  }

  /**
   * The loop over one player's hands: each hand is counted (except against a
   * dealer blackjack) and its payout deposited to account `k`; a deposit that
   * fails stops the loop with the remaining hands untouched.
   */
  function SettleHands(m: Accounts, k: AccountKey, hands: seq<Hand>, o: DealerOutcome): (r: Settled)
    ensures |r.hands| == |hands|
    decreases |hands|
  {
    if |hands| == 0 then Settled(m, [], 0.0, None)
    else
      var c := Scored(hands[0], o);
      match Payout(c.hand, c.count, o)
      case None =>
        Behind([c.hand], 0.0, SettleHands(m, k, hands[1..], o))
      case Some(amount) =>
        match Deposit(m, k, amount)
        case Failure(e) => Settled(m, [c.hand] + hands[1..], 0.0, Some(e))
        case Success(m') => Behind([c.hand], amount, SettleHands(m', k, hands[1..], o))
  }

  /** Settling moves money only into account `k`, by exactly what it reports as paid. */
  lemma {:induction false} SettleHandsMoney(m: Accounts, k: AccountKey, hands: seq<Hand>, o: DealerOutcome)
    ensures var r := SettleHands(m, k, hands, o);
            Total(r.accounts) == Total(m) + r.paid && OthersUnchanged(m, r.accounts, k)
    decreases |hands|
  {
    if |hands| > 0 {
      var c := Scored(hands[0], o);
      match Payout(c.hand, c.count, o)
      case None =>
        SettleHandsMoney(m, k, hands[1..], o);
      case Some(amount) =>
        match Deposit(m, k, amount)
        case Failure(e) =>
        case Success(m') =>
          DepositTotal(m, k, amount);
          SettleHandsMoney(m', k, hands[1..], o);
    }
  }

  /** Each hand keeps its stake and both flags. */
  predicate StakesAndFlagsKept(hands: seq<Hand>, hands': seq<Hand>) {
    && SameStakes(hands, hands')
    && forall i :: 0 <= i < |hands| ==>
         hands'[i].blackjack == hands[i].blackjack && hands'[i].standing == hands[i].standing
  }

  lemma KeptCons(h: Hand, h': Hand, rest: seq<Hand>, rest': seq<Hand>)
    requires h'.bet == h.bet && h'.blackjack == h.blackjack && h'.standing == h.standing
    requires StakesAndFlagsKept(rest, rest')
    ensures StakesAndFlagsKept([h] + rest, [h'] + rest')
  {
    var a, b := [h] + rest, [h'] + rest';
    forall i | 0 < i < |a|
      ensures b[i].bet == a[i].bet && b[i].blackjack == a[i].blackjack && b[i].standing == a[i].standing
    {
      assert a[i] == rest[i - 1] && b[i] == rest'[i - 1];
    }
  }

  /** Settling keeps every hand's stake and flags. */
  lemma {:induction false} SettleHandsStakes(m: Accounts, k: AccountKey, hands: seq<Hand>, o: DealerOutcome)
    ensures StakesAndFlagsKept(hands, SettleHands(m, k, hands, o).hands)
    decreases |hands|
  {
    if |hands| > 0 {
      var c := Scored(hands[0], o);
      assert hands == [hands[0]] + hands[1..];
      match Payout(c.hand, c.count, o)
      case None =>
        SettleHandsStakes(m, k, hands[1..], o);
        KeptCons(hands[0], c.hand, hands[1..], SettleHands(m, k, hands[1..], o).hands);
      case Some(amount) =>
        match Deposit(m, k, amount)
        case Failure(e) =>
          KeptCons(hands[0], c.hand, hands[1..], hands[1..]);
        case Success(m') =>
          SettleHandsStakes(m', k, hands[1..], o);
          KeptCons(hands[0], c.hand, hands[1..], SettleHands(m', k, hands[1..], o).hands);
    }
  }

  /**
   * Settling moves money only into account `k`, by exactly what it reports
   * as paid, and keeps every hand's stake and flags.
   */
  lemma SettleHandsKeeps(m: Accounts, k: AccountKey, hands: seq<Hand>, o: DealerOutcome)
    ensures var r := SettleHands(m, k, hands, o);
            && Total(r.accounts) == Total(m) + r.paid
            && OthersUnchanged(m, r.accounts, k)
            && SameStakes(hands, r.hands)
            && forall i :: 0 <= i < |hands| ==>
                 r.hands[i].blackjack == hands[i].blackjack && r.hands[i].standing == hands[i].standing
  {
    SettleHandsMoney(m, k, hands, o);
    SettleHandsStakes(m, k, hands, o);
  }

  /**
   * With non-negative stakes every payout is a deposit of a non-negative
   * amount: nothing is taken, balances stay non-negative, and the only
   * deposit that can fail is one to an account that is gone.
   */
  lemma {:induction false} SettleHandsSafe(m: Accounts, k: AccountKey, hands: seq<Hand>, o: DealerOutcome)
    requires StakesNonNegative(hands)
    ensures var r := SettleHands(m, k, hands, o);
            && r.paid >= 0.0
            && (NonNegative(m) ==> NonNegative(r.accounts))
            && (k in m ==> r.error.None?)
            && (r.error.Some? ==> r.error == Some(NoAccount) && r.accounts == m)
    decreases |hands|
  {
    if |hands| > 0 {
      assert StakesNonNegative(hands[1..]);
      var c := Scored(hands[0], o);
      match Payout(c.hand, c.count, o)
      case None =>
        SettleHandsSafe(m, k, hands[1..], o);
      case Some(amount) =>
        assert amount >= 0.0;
        match Deposit(m, k, amount)
        case Failure(e) =>
        case Success(m') =>
          SettleHandsSafe(m', k, hands[1..], o);
    }
  }

  /** One entry of `self.players`: the member's account key and the seated player. */
  datatype Seat = Seat(key: AccountKey, player: Player)

  /** Where the settlement of the whole table ends. */
  datatype TableSettled = TableSettled(accounts: Accounts, seats: seq<Seat>, paid: real, error: Option<BankError>)

  /** Every seated player's stakes are non-negative. */
  predicate TableStakesNonNegative(seats: seq<Seat>) {
    forall i :: 0 <= i < |seats| ==> StakesNonNegative(seats[i].player.hands)
  }

  /** Every seat has an account in `m`. */
  predicate AllHaveAccounts(seats: seq<Seat>, m: Accounts) {
    forall i :: 0 <= i < |seats| ==> seats[i].key in m
  }

  /** The loop over the seats in seat order; a failed deposit stops it. */
  function SettleTable(m: Accounts, seats: seq<Seat>, o: DealerOutcome): (r: TableSettled)
    ensures |r.seats| == |seats|
    decreases |seats|
  {
    if |seats| == 0 then TableSettled(m, [], 0.0, None)
    else
      var k := seats[0].key;
      var p := seats[0].player;
      var s := SettleHands(m, k, p.hands, o);
      var seat := Seat(k, p.(hands := s.hands));
      if s.error.Some? then TableSettled(s.accounts, [seat] + seats[1..], s.paid, s.error)
      else
        var t := SettleTable(s.accounts, seats[1..], o);
        TableSettled(t.accounts, [seat] + t.seats, s.paid + t.paid, t.error)
  }

  /** Each seat keeps its key, its hand in play, its number of hands and their stakes. */
  predicate SeatsKept(seats: seq<Seat>, seats': seq<Seat>) {
    && |seats'| == |seats|
    && forall i :: 0 <= i < |seats| ==>
         && seats'[i].key == seats[i].key
         && seats'[i].player.currHand == seats[i].player.currHand
         && SameStakes(seats[i].player.hands, seats'[i].player.hands)
  }

  /**
   * Settling the table keeps every seat's shape and stakes, keeps the set
   * of accounts, and adds to the bank exactly what it reports as paid.
   */
  lemma {:induction false} SettleTableKeeps(m: Accounts, seats: seq<Seat>, o: DealerOutcome)
    ensures var r := SettleTable(m, seats, o);
            && SeatsKept(seats, r.seats)
            && Total(r.accounts) == Total(m) + r.paid
            && r.accounts.Keys == m.Keys
    decreases |seats|
  {
    if |seats| > 0 {
      var k := seats[0].key;
      var p := seats[0].player;
      SettleHandsKeeps(m, k, p.hands, o);
      var s := SettleHands(m, k, p.hands, o);
      var r := SettleTable(m, seats, o);
      if s.error.None? {
        SettleTableKeeps(s.accounts, seats[1..], o);
        var t := SettleTable(s.accounts, seats[1..], o);
        assert r.seats == [Seat(k, p.(hands := s.hands))] + t.seats;
        assert forall i :: 1 <= i < |seats| ==> r.seats[i] == t.seats[i - 1] && seats[i] == seats[1..][i - 1];
      } else {
        assert r.seats == [Seat(k, p.(hands := s.hands))] + seats[1..];
      }
    }
  }

  /**
   * With non-negative stakes the table's settlement only adds money, keeps
   * every balance non-negative, and cannot fail while every seated player
   * still has an account.
   */
  lemma {:induction false} SettleTableSafe(m: Accounts, seats: seq<Seat>, o: DealerOutcome)
    requires TableStakesNonNegative(seats)
    ensures var r := SettleTable(m, seats, o);
            && r.paid >= 0.0
            && TableStakesNonNegative(r.seats)
            && (NonNegative(m) ==> NonNegative(r.accounts))
            && (AllHaveAccounts(seats, m) ==> r.error.None?)
    decreases |seats|
  {
    var r := SettleTable(m, seats, o);
    SettleTableKeeps(m, seats, o);
    forall i | 0 <= i < |seats|
      ensures StakesNonNegative(r.seats[i].player.hands)
    {
      assert SameStakes(seats[i].player.hands, r.seats[i].player.hands);
    }
    if |seats| > 0 {
      var k := seats[0].key;
      assert StakesNonNegative(seats[0].player.hands);
      SettleHandsSafe(m, k, seats[0].player.hands, o);
      SettleHandsKeeps(m, k, seats[0].player.hands, o);
      var s := SettleHands(m, k, seats[0].player.hands, o);
      assert TableStakesNonNegative(seats[1..]) by {
        assert forall i :: 0 <= i < |seats| - 1 ==> seats[1..][i] == seats[i + 1];
      }
      if s.error.None? {
        assert AllHaveAccounts(seats, m) ==> AllHaveAccounts(seats[1..], s.accounts) by {
          assert forall i :: 0 <= i < |seats| - 1 ==> seats[1..][i] == seats[i + 1];
        }
        SettleTableSafe(s.accounts, seats[1..], o);
      }
    }
  }

  /** The first seat whose account is gone, if any: the balance report raises there. */
  function FirstMissing(seats: seq<Seat>, m: Accounts): (r: Option<nat>)
    ensures r.None? <==> AllHaveAccounts(seats, m)
    ensures r.Some? ==> r.value < |seats| && seats[r.value].key !in m
    ensures r.Some? ==> forall i :: 0 <= i < r.value ==> seats[i].key in m
  {
    if |seats| == 0 then None
    else if seats[0].key !in m then Some(0)
    else match FirstMissing(seats[1..], m)
      case None => None
      case Some(i) => Some(i + 1)
  }
}

