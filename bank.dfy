/**
 * The ledger's objects: clients, histories and accounts whose balance and
 * history change in place, the transactions' `register`, `make_transaction`
 * and the lookup of a client by CPF.
 */
module Bank {
  import opened Wrappers
  import opened Records
  import opened Accounts

  /** A client (an `Individual`): identity data and the accounts opened for it. */
  class Individual {
    const name: string
    const birthDate: string
    const cpf: string
    const address: string
    var accounts: seq<Account>

    constructor (name: string, birthDate: string, cpf: string, address: string)
      ensures this.name == name && this.birthDate == birthDate
      ensures this.cpf == cpf && this.address == address
      ensures accounts == []
    {
      this.name := name;
      this.birthDate := birthDate;
      this.cpf := cpf;
      this.address := address;
      accounts := [];
    }

    /** `add_account`: the account goes to the end of the client's list. */
    method AddAccount(account: Account)
      modifies this
      ensures accounts == old(accounts) + [account]
    {
      accounts := accounts + [account];
    }
  }

  /** An account's append-only log of accepted transactions. */
  class History {
    const client: Individual
    var transactions: seq<Record>

    constructor (client: Individual)
      ensures this.client == client && transactions == []
    {
      this.client := client;
      transactions := [];
    }

    /** `add_transaction`: appends the record of `t`, stamped with `date`; earlier
        records stay as they are. */
    method AddTransaction(t: Transaction, date: Date)
      modifies this
      ensures transactions == old(transactions) + [RecordOf(t, date)]
      ensures forall filter :: (Report(transactions, filter)
        == Report(old(transactions), filter) + Report([RecordOf(t, date)], filter))
    {
      transactions := transactions + [RecordOf(t, date)];
      forall filter: Option<string>
        ensures Report(transactions, filter)
          == Report(old(transactions), filter) + Report([RecordOf(t, date)], filter)
      {
        ReportAppend(old(transactions), [RecordOf(t, date)], filter);
      }
    }

    /** `generate_report`: scans the stored records in order and keeps those whose
        type matches the filter case-insensitively, or every record when there is
        no filter. */
    method GenerateReport(filter: Option<string> := None) returns (out: seq<Record>)
      ensures out == Report(transactions, filter)
    {
      out := [];
      var i := 0;
      while i < |transactions|
        invariant 0 <= i <= |transactions|
        invariant out == Report(transactions[..i], filter)
      {
        var record := transactions[i];
        assert transactions[..i + 1][..i] == transactions[..i];
        if filter.None? || Lower(record.kind) == Lower(filter.value) {
          out := out + [record];
        }
        i := i + 1;
      }
      assert transactions[..i] == transactions;
    }
  }

  /** An account of either class. The class is fixed when it is opened: a plain
      `Account` or a `CheckingAccount` with its two caps. */
  class Account {
    var balance: real
    const number: int
    const agency: string
    const client: Individual
    const history: History
    const kind: AccountKind

    /** The balance is never negative. */
    ghost predicate Valid()
      reads this
    {
      balance >= 0.0
    }

    /** The account as a value, as the ledger rules see it. */
    ghost function State(): AccountState
      reads this, history
    {
      AccountState(kind, balance, history.transactions)
    }

    /** Opens a plain account with balance 0 and an empty history. */
    constructor (number: int, client: Individual)
      ensures Valid() && fresh(history)
      ensures State() == Initial(Base) && Consistent(State())
      ensures this.number == number && this.client == client && agency == "0001"
      ensures history.client == client
    {
      balance := 0.0;
      this.number := number;
      agency := "0001";
      this.client := client;
      history := new History(client);
      kind := Base;
    }

    /** Opens a checking account with balance 0, an empty history and the given caps. */
    constructor CheckingAccount(number: int, client: Individual,
                                limit: real := DefaultLimit, withdrawLimit: int := DefaultWithdrawLimit)
      ensures Valid() && fresh(history)
      ensures State() == Initial(Checking(limit, withdrawLimit)) && Consistent(State())
      ensures this.number == number && this.client == client && agency == "0001"
      ensures history.client == client
    {
      balance := 0.0;
      this.number := number;
      agency := "0001";
      this.client := client;
      history := new History(client);
      kind := Checking(limit, withdrawLimit);
    }

    /** `deposit`: a positive amount is added to the balance. */
    method Deposit(amount: real) returns (ok: bool)
      requires Valid()
      modifies this
      ensures Valid()
      ensures ok == DepositOutcome(amount).Accepted?
      ensures balance == if ok then old(balance) + amount else old(balance)
    {
      if amount > 0.0 {
        balance := balance + amount;
        return true;
      }
      return false;
    }

    /** The plain account's `withdraw`: a positive amount covered by the balance is
        taken from it. */
    method BaseWithdraw(amount: real) returns (ok: bool)
      requires Valid()
      modifies this
      ensures Valid()
      ensures ok == BaseWithdrawOutcome(old(balance), amount).Accepted?
      ensures balance == if ok then old(balance) - amount else old(balance)
    {
      if amount > balance {
        return false;
      }
      if amount > 0.0 {
        balance := balance - amount;
        return true;
      }
      return false;
    }

    /** `withdraw` of the account's class. A checking account counts the withdrawals in
        its history, refuses an amount over its cap or a withdrawal past its count,
        and otherwise defers to the plain rule. */
    method Withdraw(amount: real) returns (ok: bool)
      requires Valid()
      modifies this
      ensures Valid()
      ensures ok == WithdrawOutcome(kind, old(balance), history.transactions, amount).Accepted?
      ensures balance == if ok then old(balance) - amount else old(balance)
    {
      match kind
      case Base =>
        ok := BaseWithdraw(amount);
      case Checking(limit, withdrawLimit) =>
        var withdrawCount := WithdrawCount(history.transactions);
        if amount > limit {
          return false;
        }
        if withdrawCount >= withdrawLimit {
          return false;
        }
        ok := BaseWithdraw(amount);
    }
  }

  /** `register` of both transaction classes: the transaction delegates to the
      account and, only when the account accepts, appends its record to the
      account's history. */
  method Register(t: Transaction, account: Account, date: Date)
    requires account.Valid()
    modifies account, account.history
    ensures account.Valid()
    ensures account.State() == Registered(old(account.State()), t, date)
    ensures account.history.transactions == old(account.history.transactions)
      + (if Answer(old(account.State()), t).Accepted? then [RecordOf(t, date)] else [])
    ensures Consistent(old(account.State())) ==> Consistent(account.State())
  {
    ghost var before := account.State();
    match t {
      case Withdraw(amount) =>
        var ok := account.Withdraw(amount);
        if ok {
          account.history.AddTransaction(t, date);
        }
      case Deposit(amount) =>
        var ok := account.Deposit(amount);
        if ok {
          account.history.AddTransaction(t, date);
        }
    }
    if Consistent(before) {
      RegisteredConsistent(before, t, date);
    }
  }

  /** `make_transaction`: registers the transaction with the account. */
  method MakeTransaction(account: Account, t: Transaction, date: Date)
    requires account.Valid()
    modifies account, account.history
    ensures account.Valid()
    ensures account.State() == Registered(old(account.State()), t, date)
    ensures Consistent(old(account.State())) ==> Consistent(account.State())
  {
    Register(t, account, date);
  }

  /** `filter_client`: the first client with the given CPF, or `None` when no client has it. */
  method FilterClient(cpf: string, clients: seq<Individual>) returns (c: Option<Individual>)
    ensures c.None? <==> forall i :: 0 <= i < |clients| ==> clients[i].cpf != cpf
    ensures c.Some? ==> exists i :: (0 <= i < |clients| && clients[i] == c.value && clients[i].cpf == cpf
      && forall j :: 0 <= j < i ==> clients[j].cpf != cpf)
  {
    var i := 0;
    while i < |clients|
      invariant 0 <= i <= |clients|
      invariant forall j :: 0 <= j < i ==> clients[j].cpf != cpf
    {
      if clients[i].cpf == cpf {
        return Some(clients[i]);
      }
      i := i + 1;
    }
    return None;
  }
}
