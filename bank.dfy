/**
 * `Bank` and the payday rule of `Economy` (casinobank/casinobank.py). The
 * bank keeps its account table in a field that every mutator reassigns; each
 * mutator is proved to do exactly what the matching `Ledger` function says.
 */
module CasinoBank {
  import opened Wrappers
  import opened Ledger

  class Bank {
    /** The account table loaded from the bank file, flattened by (server, user). */
    var accounts: Accounts
    /** Top-level balances of the old single-server bank format, by user id. */
    var legacy: map<Id, real>

    ghost predicate Valid()
      reads this
    {
      NonNegative(accounts) && forall u :: u in legacy ==> legacy[u] >= 0.0
    }

    constructor (accounts: Accounts, legacy: map<Id, real>)
      ensures this.accounts == accounts && this.legacy == legacy
    {
      this.accounts := accounts;
      this.legacy := legacy;
    }

    /** `_get_account`. */
    function GetAccount(k: AccountKey): (r: Result<Account, BankError>)
      reads this
      ensures r.Success? <==> k in accounts
      ensures r.Success? ==> r.value == accounts[k]
      ensures r.Failure? ==> r.error == NoAccount
    {
      Lookup(accounts, k)
    }

    /** `account_exists`: the lookup does not raise `NoAccount`. */
    predicate AccountExists(k: AccountKey)
      reads this
      ensures AccountExists(k) <==> k in accounts
    {
      GetAccount(k).Success?
    }

    /** `get_balance`. */
    function GetBalance(k: AccountKey): (r: Result<real, BankError>)
      reads this
      ensures r.Success? <==> k in accounts
      ensures r.Success? ==> r.value == accounts[k].balance
      ensures r.Failure? ==> r.error == NoAccount
    {
      match GetAccount(k)
      case Success(a) => Success(a.balance)
      case Failure(e) => Failure(e)
    }

    /** `can_spend`. */
    function CanSpend(k: AccountKey, amount: real): (r: Result<bool, BankError>)
      reads this
      ensures r.Success? <==> k in accounts
      ensures r.Failure? ==> r.error == NoAccount
      ensures r.Success? ==> (r.value <==> accounts[k].balance >= amount)
    {
      match GetAccount(k)
      case Success(a) => Success(a.balance >= amount)
      case Failure(e) => Failure(e)
    }

    /** `create_account`: returns the new account's record. */
    method CreateAccount(k: AccountKey, name: string, initialBalance: real)
      returns (r: Result<Account, BankError>)
      modifies this
      ensures var spec := Create(old(accounts), old(legacy), k, name, initialBalance);
              accounts == (if spec.Success? then spec.value else old(accounts))
              && (spec.Failure? ==> r == Failure(spec.error))
              && (spec.Success? ==> r == Success(accounts[k]))
      ensures legacy == old(legacy)
      ensures old(Valid()) && initialBalance >= 0.0 ==> Valid()
    {
      if !AccountExists(k) {
        var balance;
        if k.user in legacy {
          balance := legacy[k.user];
        } else {
          balance := initialBalance;
        }
        accounts := accounts[k := Account(name, balance)];
        r := Success(accounts[k]);
      } else {
        r := Failure(AccountAlreadyExists);
      }
    }

    /** `withdraw_credits`. */
    method WithdrawCredits(k: AccountKey, amount: real) returns (r: Outcome<BankError>)
      modifies this
      ensures r == OutcomeOf(Withdraw(old(accounts), k, amount))
      ensures accounts == After(Withdraw(old(accounts), k, amount), old(accounts))
      ensures legacy == old(legacy)
      ensures old(Valid()) ==> Valid()
    {
      if amount < 0.0 {
        return Fail(NegativeValue);
      }
      var found := GetAccount(k);
      if found.Failure? {
        return Fail(found.error);
      }
      var account := found.value;
      if account.balance >= amount {
        accounts := accounts[k := account.(balance := account.balance - amount)];
        r := Pass;
      } else {
        r := Fail(InsufficientBalance);
      }
    }

    /** `deposit_credits`. */
    method DepositCredits(k: AccountKey, amount: real) returns (r: Outcome<BankError>)
      modifies this
      ensures r == OutcomeOf(Deposit(old(accounts), k, amount))
      ensures accounts == After(Deposit(old(accounts), k, amount), old(accounts))
      ensures legacy == old(legacy)
      ensures old(Valid()) ==> Valid()
    {
      if amount < 0.0 {
        return Fail(NegativeValue);
      }
      var found := GetAccount(k);
      if found.Failure? {
        return Fail(found.error);
      }
      var account := found.value;
      accounts := accounts[k := account.(balance := account.balance + amount)];
      r := Pass;
    }

    /** `set_credits`. */
    method SetCredits(k: AccountKey, amount: real) returns (r: Outcome<BankError>)
      modifies this
      ensures r == OutcomeOf(Ledger.SetCredits(old(accounts), k, amount))
      ensures accounts == After(Ledger.SetCredits(old(accounts), k, amount), old(accounts))
      ensures legacy == old(legacy)
      ensures old(Valid()) ==> Valid()
    {
      if amount < 0.0 {
        return Fail(NegativeValue);
      }
      var found := GetAccount(k);
      if found.Failure? {
        return Fail(found.error);
      }
      var account := found.value;
      accounts := accounts[k := account.(balance := amount)];
      r := Pass;
    }

    /** `transfer_credits`: the checks, then a withdrawal and a deposit. */
    method TransferCredits(sender: AccountKey, receiver: AccountKey, amount: real)
      returns (r: Outcome<BankError>)
      modifies this
      ensures r == OutcomeOf(Transfer(old(accounts), sender, receiver, amount))
      ensures accounts == After(Transfer(old(accounts), sender, receiver, amount), old(accounts))
      ensures legacy == old(legacy)
      ensures old(Valid()) ==> Valid()
    {
      if amount < 0.0 {
        return Fail(NegativeValue);
      }
      if sender == receiver {
        return Fail(SameSenderAndReceiver);
      }
      if AccountExists(sender) && AccountExists(receiver) {
        var senderAccount := GetAccount(sender).value;
        if senderAccount.balance < amount {
          return Fail(InsufficientBalance);
        }
        var withdrawn := WithdrawCredits(sender, amount);
        var deposited := DepositCredits(receiver, amount);
        r := Pass;
      } else {
        r := Fail(NoAccount);
      }
    }

    /** `wipe_bank`: the server's accounts are emptied. */
    method WipeBank(server: Id)
      modifies this
      ensures accounts == Wipe(old(accounts), server)
      ensures legacy == old(legacy)
      ensures old(Valid()) ==> Valid()
    {
      accounts := map k | k in accounts && k.server != server :: accounts[k];
    }

    /**
     * `get_server_accounts`: one record per account of the server, in an
     * order the model leaves open (the source follows the file's key order).
     */
    method GetServerAccounts(server: Id) returns (rows: seq<AccountRow>)
      ensures forall i :: 0 <= i < |rows| ==>
                && rows[i].server == server
                && AccountKey(server, rows[i].id) in accounts
                && accounts[AccountKey(server, rows[i].id)] == Account(rows[i].name, rows[i].balance)
      ensures forall k :: k in accounts && k.server == server ==>
                exists i :: 0 <= i < |rows| && rows[i].id == k.user
      ensures forall i, j :: 0 <= i < j < |rows| ==> rows[i].id != rows[j].id
    {
      var remaining := set k | k in accounts && k.server == server;
      rows := [];
      while remaining != {}
        invariant remaining <= accounts.Keys
        invariant forall k :: k in remaining ==> k.server == server
        invariant forall i :: 0 <= i < |rows| ==>
                    && rows[i].server == server
                    && AccountKey(server, rows[i].id) in accounts
                    && AccountKey(server, rows[i].id) !in remaining
                    && accounts[AccountKey(server, rows[i].id)] == Account(rows[i].name, rows[i].balance)
        invariant forall k :: k in accounts && k.server == server && k !in remaining ==>
                    exists i :: 0 <= i < |rows| && rows[i].id == k.user
        invariant forall i, j :: 0 <= i < j < |rows| ==> rows[i].id != rows[j].id
        decreases remaining
      {
        var k :| k in remaining;
        var before := rows;
        rows := rows + [AccountRow(k.user, k.server, accounts[k].name, accounts[k].balance)];
        forall j | j in accounts && j.server == server && j !in remaining - {k}
          ensures exists i :: 0 <= i < |rows| && rows[i].id == j.user
        {
          if j == k {
            assert rows[|before|].id == j.user;
          } else {
            var i :| 0 <= i < |before| && before[i].id == j.user;
            assert rows[i] == before[i];
          }
        }
        remaining := remaining - {k};
      }
    }

    /**
     * `get_all_accounts`: the records of every server the bot is still on
     * (`liveServers` stands for the bot's server lookup), in an open order.
     */
    method GetAllAccounts(liveServers: set<Id>) returns (rows: seq<AccountRow>)
      ensures forall i :: 0 <= i < |rows| ==>
                && rows[i].server in liveServers
                && AccountKey(rows[i].server, rows[i].id) in accounts
                && accounts[AccountKey(rows[i].server, rows[i].id)] == Account(rows[i].name, rows[i].balance)
      ensures forall k :: k in accounts && k.server in liveServers ==>
                exists i :: 0 <= i < |rows| && rows[i].server == k.server && rows[i].id == k.user
      ensures forall i, j :: 0 <= i < j < |rows| ==>
                AccountKey(rows[i].server, rows[i].id) != AccountKey(rows[j].server, rows[j].id)
    {
      var remaining := set k | k in accounts && k.server in liveServers;
      rows := [];
      while remaining != {}
        invariant remaining <= accounts.Keys
        invariant forall i :: 0 <= i < |rows| ==>
                    && rows[i].server in liveServers
                    && AccountKey(rows[i].server, rows[i].id) in accounts
                    && AccountKey(rows[i].server, rows[i].id) !in remaining
                    && accounts[AccountKey(rows[i].server, rows[i].id)] == Account(rows[i].name, rows[i].balance)
        invariant forall k :: k in accounts && k.server in liveServers && k !in remaining ==>
                    exists i :: 0 <= i < |rows| && rows[i].server == k.server && rows[i].id == k.user
        invariant forall i, j :: 0 <= i < j < |rows| ==>
                    AccountKey(rows[i].server, rows[i].id) != AccountKey(rows[j].server, rows[j].id)
        decreases remaining
      {
        var k :| k in remaining;
        var before := rows;
        rows := rows + [AccountRow(k.user, k.server, accounts[k].name, accounts[k].balance)];
        forall j | j in accounts && j.server in liveServers && j !in remaining - {k}
          ensures exists i :: 0 <= i < |rows| && rows[i].server == j.server && rows[i].id == j.user
        {
          if j == k {
            assert rows[|before|].server == j.server && rows[|before|].id == j.user;
          } else {
            var i :| 0 <= i < |before| && before[i].server == j.server && before[i].id == j.user;
            assert rows[i] == before[i];
          }
        }
        remaining := remaining - {k};
      }
    }
  }

  /** The per-server economy settings; the setter commands are not modelled. */
  datatype PaydaySettings = PaydaySettings(paydayTime: int, paydayCredits: int)

  const DefaultSettings := PaydaySettings(86400, 500)

  datatype PaydayReply =
    | Paid
    | TooSoon(remaining: int)
    | NeedsAccount
    | Raised(error: BankError)

  function Abs(x: int): nat {
    if x < 0 then -x else x
  }

  /** The payday part of `Economy`. */
  class Economy {
    const bank: Bank
    /** Per-server settings; a server without its own entry uses `defaults`. */
    const settings: map<Id, PaydaySettings>
    /**
     * `DefaultSettings`, or the whole settings file when it is in the old
     * single-server format.
     */
    const defaults: PaydaySettings
    /** `payday_register[server][user]`: the clock reading of the last claim. */
    var paydayRegister: map<AccountKey, int>

    constructor (bank: Bank, settings: map<Id, PaydaySettings>, defaults: PaydaySettings)
      ensures this.bank == bank && this.settings == settings && this.defaults == defaults
      ensures paydayRegister == map[]
    {
      this.bank := bank;
      this.settings := settings;
      this.defaults := defaults;
      paydayRegister := map[];
    }

    function SettingsFor(server: Id): PaydaySettings {
      if server in settings then settings[server] else defaults
    }

    /**
     * `payday` at clock reading `now`: a first claim records the time and
     * deposits the credits; a later one deposits and re-records only when at
     * least `PAYDAY_TIME` has elapsed; without an account nothing changes.
     */
    method Payday(k: AccountKey, now: int) returns (r: PaydayReply)
      modifies this, bank
      ensures old(bank.Valid()) ==> bank.Valid()
      ensures bank.legacy == old(bank.legacy)
      ensures var s := SettingsFor(k.server);
              var dep := Deposit(old(bank.accounts), k, s.paydayCredits as real);
              if k !in old(bank.accounts) then
                r == NeedsAccount && bank.accounts == old(bank.accounts)
                && paydayRegister == old(paydayRegister)
              else if k !in old(paydayRegister) then
                bank.accounts == After(dep, old(bank.accounts))
                && paydayRegister == old(paydayRegister)[k := now]
                && r == (if dep.Success? then Paid else Raised(dep.error))
              else if Abs(old(paydayRegister)[k] - now) >= s.paydayTime then
                bank.accounts == After(dep, old(bank.accounts))
                && paydayRegister == (if dep.Success? then old(paydayRegister)[k := now]
                                      else old(paydayRegister))
                && r == (if dep.Success? then Paid else Raised(dep.error))
              else
                bank.accounts == old(bank.accounts) && paydayRegister == old(paydayRegister)
                && r == TooSoon(s.paydayTime - Abs(old(paydayRegister)[k] - now))
    {
      var s := SettingsFor(k.server);
      if bank.AccountExists(k) {
        if k in paydayRegister {
          var seconds := Abs(paydayRegister[k] - now);
          if seconds >= s.paydayTime {
            var dep := bank.DepositCredits(k, s.paydayCredits as real);
            if dep.Fail? {
              return Raised(dep.error);
            }
            paydayRegister := paydayRegister[k := now];
            r := Paid;
          } else {
            r := TooSoon(s.paydayTime - seconds);
          }
        } else {
          paydayRegister := paydayRegister[k := now];
          var dep := bank.DepositCredits(k, s.paydayCredits as real);
          r := if dep.Pass? then Paid else Raised(dep.error);
        }
      } else {
        r := NeedsAccount;
      }
    }
  }
}
