/**
 * The casino ledger as values: the account table, the bank's error kinds and
 * one function per mutating operation of `Bank` in casinobank/casinobank.py.
 * Each function returns the new table, or the error the source raises; a
 * failure carries no table, so a failed operation changes nothing.
 */
module Ledger {
  import opened Wrappers

  type Id = string

  /** An account is identified by the server it was opened on and its holder. */
  datatype AccountKey = AccountKey(server: Id, user: Id)

  /** The stored record; the creation timestamp is not modelled. */
  datatype Account = Account(name: string, balance: real)

  /** `accounts[server][user]` of the source, flattened to one map. */
  type Accounts = map<AccountKey, Account>

  datatype BankError =
    | AccountAlreadyExists
    | NoAccount
    | InsufficientBalance
    | NegativeValue
    | SameSenderAndReceiver

  /** The `Account` record handed out by the lookups and listings. */
  datatype AccountRow = AccountRow(id: Id, server: Id, name: string, balance: real)

  /** Some account of a non-empty table. */
  ghost function Pick(m: Accounts): (k: AccountKey)
    requires |m| > 0
    ensures k in m
  {
    var k :| k in m; k
  }

  /** Sum of all balances in the table. */
  ghost function Total(m: Accounts): real
    decreases |m|
  {
    if |m| == 0 then 0.0
    else
      var k := Pick(m);
      m[k].balance + Total(m - {k})
  }

  ghost predicate NonNegative(m: Accounts) {
    forall k :: k in m ==> m[k].balance >= 0.0
  }

  /** Two tables agree on every account other than `k`. */
  ghost predicate OthersUnchanged(m: Accounts, m': Accounts, k: AccountKey) {
    m'.Keys == m.Keys && forall j :: j in m && j != k ==> m'[j] == m[j]
  }

  lemma {:induction false} TotalRemove(m: Accounts, k: AccountKey)
    requires k in m
    ensures Total(m) == m[k].balance + Total(m - {k})
    decreases |m|
  {
    var j := Pick(m);
    if j != k {
      var withoutJ, withoutK := m - {j}, m - {k};
      assert k in withoutJ && j in withoutK;
      TotalRemove(withoutJ, k);
      TotalRemove(withoutK, j);
      assert withoutJ - {k} == withoutK - {j};
    }
  }

  lemma TotalUpdate(m: Accounts, k: AccountKey, a: Account)
    requires k in m
    ensures Total(m[k := a]) == Total(m) - m[k].balance + a.balance
  {
    TotalRemove(m, k);
    TotalRemove(m[k := a], k);
    assert m[k := a] - {k} == m - {k};
  }

  lemma TotalInsert(m: Accounts, k: AccountKey, a: Account)
    requires k !in m
    ensures Total(m[k := a]) == Total(m) + a.balance
  {
    TotalRemove(m[k := a], k);
    assert m[k := a] - {k} == m;
  }

  /** The table with account `k`'s balance replaced. */
  function WithBalance(m: Accounts, k: AccountKey, balance: real): (r: Accounts)
    requires k in m
    ensures OthersUnchanged(m, r, k)
    ensures r[k] == Account(m[k].name, balance)
  {
    m[k := m[k].(balance := balance)]
  }

  /** `_get_account`: the record, or `NoAccount`. */
  function Lookup(m: Accounts, k: AccountKey): (r: Result<Account, BankError>)
    ensures r.Success? <==> k in m
    ensures r.Success? ==> r.value == m[k]
    ensures r.Failure? ==> r.error == NoAccount
  {
    if k in m then Success(m[k]) else Failure(NoAccount)
  }

  /** `create_account`: a new record whose balance is the legacy balance if one exists. */
  function Create(m: Accounts, legacy: map<Id, real>, k: AccountKey, name: string, initialBalance: real)
    : (r: Result<Accounts, BankError>)
    ensures r.Failure? <==> k in m
    ensures r.Failure? ==> r.error == AccountAlreadyExists
    ensures r.Success? ==>
              && r.value.Keys == m.Keys + {k}
              && (forall j :: j in m ==> r.value[j] == m[j])
              && r.value[k].name == name
              && r.value[k].balance == (if k.user in legacy then legacy[k.user] else initialBalance)
  {
    if k in m then Failure(AccountAlreadyExists)
    else
      var balance := if k.user in legacy then legacy[k.user] else initialBalance;
      Success(m[k := Account(name, balance)])
  }

  /** `withdraw_credits`: checks the sign, then the account, then the funds. */
  function Withdraw(m: Accounts, k: AccountKey, amount: real): (r: Result<Accounts, BankError>)
    ensures amount < 0.0 ==> r == Failure(NegativeValue)
    ensures amount >= 0.0 && k !in m ==> r == Failure(NoAccount)
    ensures amount >= 0.0 && k in m && m[k].balance < amount ==> r == Failure(InsufficientBalance)
    ensures r.Success? <==> amount >= 0.0 && k in m && m[k].balance >= amount
    ensures r.Success? ==>
              && OthersUnchanged(m, r.value, k)
              && r.value[k] == Account(m[k].name, m[k].balance - amount)
    ensures r.Success? && NonNegative(m) ==> NonNegative(r.value)
  {
    if amount < 0.0 then Failure(NegativeValue)
    else if k !in m then Failure(NoAccount)
    else if m[k].balance >= amount then Success(WithBalance(m, k, m[k].balance - amount))
    else Failure(InsufficientBalance)
  }

  /** `deposit_credits`: checks the sign, then the account. */
  function Deposit(m: Accounts, k: AccountKey, amount: real): (r: Result<Accounts, BankError>)
    ensures amount < 0.0 ==> r == Failure(NegativeValue)
    ensures amount >= 0.0 && k !in m ==> r == Failure(NoAccount)
    ensures r.Success? <==> amount >= 0.0 && k in m
    ensures r.Success? ==>
              && OthersUnchanged(m, r.value, k)
              && r.value[k] == Account(m[k].name, m[k].balance + amount)
    ensures r.Success? && NonNegative(m) ==> NonNegative(r.value)
  {
    if amount < 0.0 then Failure(NegativeValue)
    else if k !in m then Failure(NoAccount)
    else Success(WithBalance(m, k, m[k].balance + amount))
  }

  /** `set_credits`: overwrites the balance after the same two checks. */
  function SetCredits(m: Accounts, k: AccountKey, amount: real): (r: Result<Accounts, BankError>)
    ensures amount < 0.0 ==> r == Failure(NegativeValue)
    ensures amount >= 0.0 && k !in m ==> r == Failure(NoAccount)
    ensures r.Success? <==> amount >= 0.0 && k in m
    ensures r.Success? ==>
              && OthersUnchanged(m, r.value, k)
              && r.value[k] == Account(m[k].name, amount)
    ensures r.Success? && NonNegative(m) ==> NonNegative(r.value)
  {
    if amount < 0.0 then Failure(NegativeValue)
    else if k !in m then Failure(NoAccount)
    else Success(WithBalance(m, k, amount))
  }

  /**
   * `transfer_credits`: sign, then same party, then both accounts, then the
   * sender's funds; on success a withdrawal followed by a deposit.
   */
  function Transfer(m: Accounts, sender: AccountKey, receiver: AccountKey, amount: real)
    : (r: Result<Accounts, BankError>)
    ensures amount < 0.0 ==> r == Failure(NegativeValue)
    ensures amount >= 0.0 && sender == receiver ==> r == Failure(SameSenderAndReceiver)
    ensures amount >= 0.0 && sender != receiver && (sender !in m || receiver !in m) ==>
              r == Failure(NoAccount)
    ensures r.Success? <==>
              amount >= 0.0 && sender != receiver && sender in m && receiver in m
              && m[sender].balance >= amount
    ensures r.Failure? && amount >= 0.0 && sender != receiver && sender in m && receiver in m ==>
              r.error == InsufficientBalance
    ensures r.Success? ==>
              && r.value.Keys == m.Keys
              && r.value[sender] == Account(m[sender].name, m[sender].balance - amount)
              && r.value[receiver] == Account(m[receiver].name, m[receiver].balance + amount)
              && (forall j :: j in m && j != sender && j != receiver ==> r.value[j] == m[j])
    ensures r.Success? && NonNegative(m) ==> NonNegative(r.value)
  {
    if amount < 0.0 then Failure(NegativeValue)
    else if sender == receiver then Failure(SameSenderAndReceiver)
    else if sender !in m || receiver !in m then Failure(NoAccount)
    else if m[sender].balance < amount then Failure(InsufficientBalance)
    else
      var afterWithdraw := Withdraw(m, sender, amount).value;
      Deposit(afterWithdraw, receiver, amount)
  }

  /** A new account adds its opening balance to the bank's total. */
  lemma CreateTotal(m: Accounts, legacy: map<Id, real>, k: AccountKey, name: string, initialBalance: real)
    requires Create(m, legacy, k, name, initialBalance).Success?
    ensures var m' := Create(m, legacy, k, name, initialBalance).value;
            Total(m') == Total(m) + m'[k].balance
  {
    var m' := Create(m, legacy, k, name, initialBalance).value;
    TotalInsert(m, k, m'[k]);
    assert m' == m[k := m'[k]];
  }

  /** A withdrawal takes exactly its amount out of the bank's total. */
  lemma WithdrawTotal(m: Accounts, k: AccountKey, amount: real)
    requires Withdraw(m, k, amount).Success?
    ensures Total(Withdraw(m, k, amount).value) == Total(m) - amount
  {
    TotalUpdate(m, k, Account(m[k].name, m[k].balance - amount));
  }

  /** A deposit adds exactly its amount to the bank's total. */
  lemma DepositTotal(m: Accounts, k: AccountKey, amount: real)
    requires Deposit(m, k, amount).Success?
    ensures Total(Deposit(m, k, amount).value) == Total(m) + amount
  {
    TotalUpdate(m, k, Account(m[k].name, m[k].balance + amount));
  }

  /** Setting a balance changes the total by the difference. */
  lemma SetCreditsTotal(m: Accounts, k: AccountKey, amount: real)
    requires SetCredits(m, k, amount).Success?
    ensures Total(SetCredits(m, k, amount).value) == Total(m) - m[k].balance + amount
  {
    TotalUpdate(m, k, Account(m[k].name, amount));
  }

  /** A transfer moves credits between accounts and leaves the bank's total unchanged. */
  lemma TransferKeepsTotal(m: Accounts, sender: AccountKey, receiver: AccountKey, amount: real)
    requires Transfer(m, sender, receiver, amount).Success?
    ensures Total(Transfer(m, sender, receiver, amount).value) == Total(m)
  {
    WithdrawTotal(m, sender, amount);
    var afterWithdraw := Withdraw(m, sender, amount).value;
    DepositTotal(afterWithdraw, receiver, amount);
  }

  /** `wipe_bank`: every account of one server is dropped, nothing else. */
  function Wipe(m: Accounts, server: Id): (r: Accounts)
    ensures forall k :: k in r <==> k in m && k.server != server
    ensures forall k :: k in r ==> r[k] == m[k]
    ensures NonNegative(m) ==> NonNegative(r)
  {
    map k | k in m && k.server != server :: m[k]
  }

  /** `can_spend`: whether the balance covers `amount`, or `NoAccount`. */
  function CanSpend(m: Accounts, k: AccountKey, amount: real): (r: Result<bool, BankError>)
    ensures r.Success? <==> k in m
    ensures r.Failure? ==> r.error == NoAccount
    ensures r.Success? ==> (r.value <==> m[k].balance >= amount)
  {
    match Lookup(m, k)
    case Success(account) => Success(account.balance >= amount)
    case Failure(e) => Failure(e)
  }

  /** What an operation returns to its caller. */
  function OutcomeOf(r: Result<Accounts, BankError>): Outcome<BankError> {
    match r
    case Success(_) => Pass
    case Failure(e) => Fail(e)
  }

  /** The table after an operation: the new one on success, the old one on failure. */
  function After(r: Result<Accounts, BankError>, before: Accounts): Accounts {
    match r
    case Success(m) => m
    case Failure(_) => before
  }

  /**
   * A deposit followed by a withdrawal of the same amount restores the table:
   * the repeat-bet path of the blackjack table (refund, then charge) is net zero.
   */
  lemma DepositThenWithdraw(m: Accounts, k: AccountKey, amount: real)
    requires k in m && m[k].balance >= 0.0 && amount >= 0.0
    ensures Deposit(m, k, amount).Success?
    ensures Withdraw(Deposit(m, k, amount).value, k, amount) == Success(m)
  {
    var m' := Deposit(m, k, amount).value;
    assert m'[k].balance >= amount;
    var m'' := Withdraw(m', k, amount).value;
    assert m''[k] == Account(m[k].name, m[k].balance);
    assert m'' == m;
  }
}
