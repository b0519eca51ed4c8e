/**
 * The account rules as values: whether a deposit or a withdrawal is accepted
 * (and, if not, which message the account prints), the state an account is in
 * after a transaction registers itself, and the ledger invariants that every
 * sequence of registrations keeps.
 */
module Accounts {
  import opened Wrappers
  import opened Records

  /** The two account classes: the plain `Account` and `CheckingAccount` with its caps. */
  datatype AccountKind = Base | Checking(limit: real, withdrawLimit: int)

  /** The default per-withdrawal cap of a checking account. */
  const DefaultLimit: real := 500.0

  /** The default lifetime number of withdrawals of a checking account. */
  const DefaultWithdrawLimit: int := 3

  /** Why an operation was refused; each is one of the messages the account prints. */
  datatype Rejection =
    | InsufficientFunds
    | InvalidAmount
    | WithdrawalLimitExceeded
    | WithdrawalCountExceeded

  /** The answer of `deposit`/`withdraw`: `True` is `Accepted`. */
  datatype Outcome = Accepted | Rejected(reason: Rejection)

  /** The withdrawals a checking account has made, counted from its history. */
  function WithdrawCount(rs: seq<Record>): (n: nat)
    ensures n <= |rs|
  {
    CountKind(rs, Withdraw(0.0).TypeName())
  }

  /** `Account.deposit`: only a positive amount is accepted. */
  function DepositOutcome(amount: real): (o: Outcome)
    ensures o.Accepted? <==> amount > 0.0
    ensures o.Rejected? ==> o.reason == InvalidAmount
  {
    if amount > 0.0 then Accepted else Rejected(InvalidAmount)
  }

  /** `Account.withdraw`: the amount must be positive and covered by the balance;
      an uncovered amount is reported as insufficient funds before its sign is looked at. */
  function BaseWithdrawOutcome(balance: real, amount: real): (o: Outcome)
    ensures o.Accepted? <==> 0.0 < amount <= balance
    ensures o == Rejected(InsufficientFunds) <==> amount > balance
    ensures o == Rejected(InvalidAmount) <==> amount <= balance && amount <= 0.0
  {
    if amount > balance then Rejected(InsufficientFunds)
    else if amount > 0.0 then Accepted
    else Rejected(InvalidAmount)
  }

  /** `withdraw` of either account class. A checking account first applies its
      amount cap, then its count cap, and only then the plain account's rule. */
  function WithdrawOutcome(kind: AccountKind, balance: real, rs: seq<Record>, amount: real): (o: Outcome)
    ensures o.Accepted? <==>
      0.0 < amount <= balance &&
      (kind.Checking? ==> amount <= kind.limit && WithdrawCount(rs) < kind.withdrawLimit)
    ensures kind.Base? ==> o == BaseWithdrawOutcome(balance, amount)
    ensures kind.Checking? && amount > kind.limit ==> o == Rejected(WithdrawalLimitExceeded)
    ensures kind.Checking? && amount <= kind.limit && WithdrawCount(rs) >= kind.withdrawLimit ==>
      o == Rejected(WithdrawalCountExceeded)
    ensures kind.Checking? && amount <= kind.limit && WithdrawCount(rs) < kind.withdrawLimit ==>
      o == BaseWithdrawOutcome(balance, amount)
  {
    match kind
    case Base => BaseWithdrawOutcome(balance, amount)
    case Checking(limit, withdrawLimit) =>
      if amount > limit then Rejected(WithdrawalLimitExceeded)
      else if WithdrawCount(rs) >= withdrawLimit then Rejected(WithdrawalCountExceeded)
      else BaseWithdrawOutcome(balance, amount)
  }

  /** What an account is: its class, its balance and its history's records. */
  datatype AccountState = AccountState(kind: AccountKind, balance: real, records: seq<Record>)

  /** The answer the account gives when `t` delegates to it. */
  function Answer(s: AccountState, t: Transaction): (o: Outcome)
    ensures t.Deposit? ==> (o.Accepted? <==> t.amount > 0.0)
    ensures t.Withdraw? ==> (o.Accepted? <==>
      0.0 < t.amount <= s.balance &&
      (s.kind.Checking? ==> t.amount <= s.kind.limit && WithdrawCount(s.records) < s.kind.withdrawLimit))
  {
    match t
    case Deposit(amount) => DepositOutcome(amount)
    case Withdraw(amount) => WithdrawOutcome(s.kind, s.balance, s.records, amount)
  }

  /** The balance after `t` has been accepted. */
  function Moved(balance: real, t: Transaction): real {
    match t
    case Deposit(amount) => balance + amount
    case Withdraw(amount) => balance - amount
  }

  /** The account after `t.register(account)`: the balance moves and one record is
      appended when the account accepts, and nothing changes when it refuses. */
  function Registered(s: AccountState, t: Transaction, date: Date): (r: AccountState)
    ensures r.kind == s.kind
    ensures |r.records| == |s.records| + (if Answer(s, t).Accepted? then 1 else 0)
    ensures r.records[..|s.records|] == s.records
    ensures Answer(s, t).Accepted? ==> r.records[|s.records|] == RecordOf(t, date)
    ensures Answer(s, t).Accepted? ==> r.balance == Moved(s.balance, t)
    ensures Answer(s, t).Rejected? ==> r == s
  {
    if Answer(s, t).Accepted? then
      s.(balance := Moved(s.balance, t), records := s.records + [RecordOf(t, date)])
    else s
  }

  /** The signed effect a record stands for. */
  function Signed(r: Record): real {
    if r.kind == "Deposit" then r.amount
    else if r.kind == "Withdraw" then -r.amount
    else 0.0
  }

  /** Deposits minus withdrawals over a history. */
  function Net(rs: seq<Record>): real {
    if rs == [] then 0.0 else Net(rs[..|rs| - 1]) + Signed(rs[|rs| - 1])
  }

  /** A checking account's caps, read off its history. The count cap reads
      `count <= max(0, withdrawLimit)`: a zero count is always allowed, because the
      cap may be zero or negative and a new account must still be within it. */
  predicate WithinCaps(limit: real, withdrawLimit: int, rs: seq<Record>) {
    && (WithdrawCount(rs) == 0 || WithdrawCount(rs) <= withdrawLimit)
    && (forall i :: 0 <= i < |rs| && rs[i].kind == "Withdraw" ==> rs[i].amount <= limit)
  }

  /** The ledger invariant: the balance is never negative and is exactly what the
      history records, every record is a transaction the account accepted, and a
      checking account's history is within its caps. */
  predicate Consistent(s: AccountState) {
    && s.balance >= 0.0
    && s.balance == Net(s.records)
    && (forall i :: 0 <= i < |s.records| ==> WellFormed(s.records[i]))
    && (s.kind.Checking? ==> WithinCaps(s.kind.limit, s.kind.withdrawLimit, s.records))
  }

  /** A freshly opened account, of either class: balance 0 and an empty history,
      which satisfies the ledger invariant. */
  function Initial(kind: AccountKind): (s: AccountState)
    ensures s.kind == kind && s.balance == 0.0 && s.records == []
    ensures Consistent(s)
  {
    AccountState(kind, 0.0, [])
  }

  /** Registering any transaction keeps the ledger invariant. */
  lemma RegisteredConsistent(s: AccountState, t: Transaction, date: Date)
    requires Consistent(s)
    ensures Consistent(Registered(s, t, date))
  {
    if Answer(s, t).Accepted? {
      var r := RecordOf(t, date);
      var rs := s.records + [r];
      assert rs[..|rs| - 1] == s.records;
      CountKindSnoc(s.records, r, "Withdraw");
    }
  }

  /** One registration request: the transaction and the time it is recorded at. */
  datatype Request = Request(tx: Transaction, date: Date)

  /** The final account and the answer given to each request. */
  datatype RunResult = RunResult(final: AccountState, outcomes: seq<Outcome>)

  /** Registers the requests one after another. */
  function Run(s: AccountState, reqs: seq<Request>): (r: RunResult)
    ensures |r.outcomes| == |reqs|
    ensures r.final.kind == s.kind
    decreases |reqs|
  {
    if reqs == [] then RunResult(s, [])
    else
      var rest := Run(Registered(s, reqs[0].tx, reqs[0].date), reqs[1..]);
      RunResult(rest.final, [Answer(s, reqs[0].tx)] + rest.outcomes)
  }

  /** The records that the accepted requests produce, in request order. */
  function Logged(reqs: seq<Request>, outcomes: seq<Outcome>): seq<Record>
    requires |reqs| == |outcomes|
  {
    if reqs == [] then []
    else
      (if outcomes[0].Accepted? then [RecordOf(reqs[0].tx, reqs[0].date)] else [])
      + Logged(reqs[1..], outcomes[1..])
  }

  /** The number of accepted answers. */
  function AcceptedCount(outcomes: seq<Outcome>): nat {
    if outcomes == [] then 0
    else (if outcomes[0].Accepted? then 1 else 0) + AcceptedCount(outcomes[1..])
  }

  /** Every reachable account state is consistent. */
  lemma {:induction false} RunConsistent(s: AccountState, reqs: seq<Request>)
    requires Consistent(s)
    ensures Consistent(Run(s, reqs).final)
    decreases |reqs|
  {
    if reqs != [] {
      RegisteredConsistent(s, reqs[0].tx, reqs[0].date);
      RunConsistent(Registered(s, reqs[0].tx, reqs[0].date), reqs[1..]);
    }
  }

  /** The history grows by exactly the records of the accepted requests, at its end;
      earlier records are never changed. */
  lemma {:induction false} RunLogsAccepted(s: AccountState, reqs: seq<Request>)
    ensures Run(s, reqs).final.records == s.records + Logged(reqs, Run(s, reqs).outcomes)
    decreases |reqs|
  {
    if reqs == [] {
      assert s.records + [] == s.records;
    } else {
      var s' := Registered(s, reqs[0].tx, reqs[0].date);
      var rest := Run(s', reqs[1..]);
      var outcomes := Run(s, reqs).outcomes;
      RunLogsAccepted(s', reqs[1..]);
      assert outcomes[1..] == rest.outcomes;
      var head := if outcomes[0].Accepted? then [RecordOf(reqs[0].tx, reqs[0].date)] else [];
      assert outcomes[0] == Answer(s, reqs[0].tx);
      assert s'.records == s.records + head by {
        if Answer(s, reqs[0].tx).Accepted? {
          assert s'.records == s.records + [RecordOf(reqs[0].tx, reqs[0].date)];
        } else {
          assert s' == s;
          assert s.records + [] == s.records;
        }
      }
      assert Logged(reqs, outcomes) == head + Logged(reqs[1..], rest.outcomes);
      assert s.records + head + Logged(reqs[1..], rest.outcomes)
          == s.records + (head + Logged(reqs[1..], rest.outcomes));
    }
  }

  /** There is one logged record per accepted request. */
  lemma {:induction false} LoggedLength(reqs: seq<Request>, outcomes: seq<Outcome>)
    requires |reqs| == |outcomes|
    ensures |Logged(reqs, outcomes)| == AcceptedCount(outcomes)
    decreases |reqs|
  {
    if reqs != [] {
      LoggedLength(reqs[1..], outcomes[1..]);
    }
  }

  /** The history's length goes up by the number of accepted requests. */
  lemma HistoryLength(s: AccountState, reqs: seq<Request>)
    ensures |Run(s, reqs).final.records| == |s.records| + AcceptedCount(Run(s, reqs).outcomes)
  {
    RunLogsAccepted(s, reqs);
    LoggedLength(reqs, Run(s, reqs).outcomes);
  }

  /** From a new account, any sequence of registrations leaves a non-negative balance
      equal to the history's net amount, and a history of exactly the accepted
      requests, with a checking account's caps respected. */
  lemma FromOpening(kind: AccountKind, reqs: seq<Request>)
    ensures Consistent(Run(Initial(kind), reqs).final)
    ensures Run(Initial(kind), reqs).final.balance >= 0.0
    ensures Run(Initial(kind), reqs).final.records == Logged(reqs, Run(Initial(kind), reqs).outcomes)
    ensures |Run(Initial(kind), reqs).final.records| == AcceptedCount(Run(Initial(kind), reqs).outcomes)
  {
    RunConsistent(Initial(kind), reqs);
    RunLogsAccepted(Initial(kind), reqs);
    HistoryLength(Initial(kind), reqs);
  }

  /** Once a checking account has used up its withdrawals, every later withdrawal is
      refused, the withdrawal count stays where it is and the balance can only grow. */
  lemma {:induction false} CapReachedRefusesWithdrawals(s: AccountState, reqs: seq<Request>)
    requires s.kind.Checking? && WithdrawCount(s.records) >= s.kind.withdrawLimit
    ensures WithdrawCount(Run(s, reqs).final.records) == WithdrawCount(s.records)
    ensures Run(s, reqs).final.balance >= s.balance
    ensures forall i :: 0 <= i < |reqs| && reqs[i].tx.Withdraw? ==> Run(s, reqs).outcomes[i].Rejected?
    decreases |reqs|
  {
    if reqs != [] {
      var t := reqs[0].tx;
      var s' := Registered(s, t, reqs[0].date);
      CapReachedStep(s, t, reqs[0].date);
      CapReachedRefusesWithdrawals(s', reqs[1..]);
      var outcomes := Run(s, reqs).outcomes;
      var rest := Run(s', reqs[1..]).outcomes;
      assert Run(s, reqs).final == Run(s', reqs[1..]).final;
      assert outcomes == [Answer(s, t)] + rest;
      forall i | 0 <= i < |reqs| && reqs[i].tx.Withdraw?
        ensures outcomes[i].Rejected?
      {
        if i > 0 {
          assert reqs[1..][i - 1] == reqs[i];
          assert outcomes[i] == rest[i - 1];
        }
      }
    }
  }

  /** One registration on a checking account whose count cap is reached: a withdrawal
      is refused, the count stays where it is and the balance does not fall. */
  lemma CapReachedStep(s: AccountState, t: Transaction, date: Date)
    requires s.kind.Checking? && WithdrawCount(s.records) >= s.kind.withdrawLimit
    ensures Registered(s, t, date).kind == s.kind
    ensures WithdrawCount(Registered(s, t, date).records) == WithdrawCount(s.records)
    ensures Registered(s, t, date).balance >= s.balance
    ensures t.Withdraw? ==> Answer(s, t).Rejected?
  {
    if Answer(s, t).Accepted? {
      CountKindSnoc(s.records, RecordOf(t, date), "Withdraw");
    }
  }

  /** A checking withdrawal within the balance and both caps is accepted: the balance
      drops by the amount, its record is appended and the count goes up by one. */
  lemma CheckingWithdrawAccepted(s: AccountState, amount: real, date: Date)
    requires s.kind.Checking? && WithdrawCount(s.records) < s.kind.withdrawLimit
    requires 0.0 < amount <= s.balance && amount <= s.kind.limit
    ensures Registered(s, Withdraw(amount), date)
      == s.(balance := s.balance - amount, records := s.records + [Record("Withdraw", amount, date)])
    ensures WithdrawCount(Registered(s, Withdraw(amount), date).records) == WithdrawCount(s.records) + 1
  {
    CountKindSnoc(s.records, Record("Withdraw", amount, date), "Withdraw");
  }

  /** A new checking account with the default caps: deposit 1000, withdraw 200 three
      times, then a fourth withdrawal of 50 is refused by the count cap. */
  lemma ScenarioFourthWithdrawal(d0: Date, d1: Date, d2: Date, d3: Date, d4: Date)
    ensures
      var r := Run(Initial(Checking(DefaultLimit, DefaultWithdrawLimit)),
                   [Request(Deposit(1000.0), d0), Request(Withdraw(200.0), d1),
                    Request(Withdraw(200.0), d2), Request(Withdraw(200.0), d3),
                    Request(Withdraw(50.0), d4)]);
      && r.final.balance == 400.0
      && |r.final.records| == 4
      && WithdrawCount(r.final.records) == 3
      && r.outcomes == [Accepted, Accepted, Accepted, Accepted, Rejected(WithdrawalCountExceeded)]
  {
    var kind := Checking(DefaultLimit, DefaultWithdrawLimit);
    var reqs := [Request(Deposit(1000.0), d0), Request(Withdraw(200.0), d1),
                 Request(Withdraw(200.0), d2), Request(Withdraw(200.0), d3),
                 Request(Withdraw(50.0), d4)];
    var s0 := Initial(kind);
    var s1 := Registered(s0, Deposit(1000.0), d0);
    assert s1.records == [Record("Deposit", 1000.0, d0)] && s1.balance == 1000.0;
    assert WithdrawCount(s1.records) == 0 by { CountKindSnoc([], s1.records[0], "Withdraw"); }
    CheckingWithdrawAccepted(s1, 200.0, d1);
    var s2 := Registered(s1, Withdraw(200.0), d1);
    CheckingWithdrawAccepted(s2, 200.0, d2);
    var s3 := Registered(s2, Withdraw(200.0), d2);
    CheckingWithdrawAccepted(s3, 200.0, d3);
    var s4 := Registered(s3, Withdraw(200.0), d3);
    assert s4.balance == 400.0 && |s4.records| == 4 && WithdrawCount(s4.records) == 3;
    assert Answer(s4, Withdraw(50.0)) == Rejected(WithdrawalCountExceeded);
    assert Run(s4, reqs[4..]) == RunResult(s4, [Rejected(WithdrawalCountExceeded)]);
    assert Run(s3, reqs[3..]) == RunResult(s4, [Accepted, Rejected(WithdrawalCountExceeded)]);
    assert Run(s2, reqs[2..]) == RunResult(s4, [Accepted, Accepted, Rejected(WithdrawalCountExceeded)]);
    assert Run(s1, reqs[1..]) == RunResult(s4, [Accepted, Accepted, Accepted, Rejected(WithdrawalCountExceeded)]);
  }

  /** A new checking account refuses a first withdrawal of 600 by its amount cap and
      stays unchanged. */
  lemma ScenarioOverLimit(date: Date)
    ensures Answer(Initial(Checking(DefaultLimit, DefaultWithdrawLimit)), Withdraw(600.0))
      == Rejected(WithdrawalLimitExceeded)
    ensures Registered(Initial(Checking(DefaultLimit, DefaultWithdrawLimit)), Withdraw(600.0), date)
      == Initial(Checking(DefaultLimit, DefaultWithdrawLimit))
  {
  }
}
