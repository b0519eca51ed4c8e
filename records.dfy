/**
 * Transactions and the history records they leave behind, with the
 * case-insensitive filtering used by the history report.
 */
module Records {
  import opened Wrappers

  /** A monetary movement: the `Deposit` and `Withdraw` transaction classes. */
  datatype Transaction = Deposit(amount: real) | Withdraw(amount: real)
  {
    /** The variant's class name, which becomes the record's `type`. */
    function TypeName(): (name: string)
      ensures name == "Deposit" <==> Deposit?
      ensures name == "Withdraw" <==> Withdraw?
    {
      match this
      case Deposit(_) => "Deposit"
      case Withdraw(_) => "Withdraw"
    }
  }

  /** The timestamp a record carries; taken as an opaque value. */
  type Date = string

  /** One history entry `{type, amount, date}`. */
  datatype Record = Record(kind: string, amount: real, date: Date)

  /** The record `add_transaction` builds for `t`. */
  function RecordOf(t: Transaction, date: Date): (r: Record)
    ensures r.kind == t.TypeName()
    ensures WellFormed(r) <==> t.amount > 0.0
    ensures r.kind == "Withdraw" <==> t.Withdraw?
    ensures r.amount == t.amount && r.date == date
  {
    Record(t.TypeName(), t.amount, date)
  }

  /** Lower-cases one ASCII letter and leaves every other character as it is. */
  function LowerChar(c: char): char {
    if 'A' <= c <= 'Z' then (c as int + 32) as char else c
  }

  /** `str.lower()` on ASCII text. */
  function Lower(s: string): (r: string)
    ensures |r| == |s|
    ensures forall i :: 0 <= i < |s| ==> r[i] == LowerChar(s[i])
  {
    if s == [] then [] else [LowerChar(s[0])] + Lower(s[1..])
  }

  /** The test `generate_report` applies to each record. */
  predicate Matches(r: Record, filter: Option<string>)
    ensures filter.None? ==> Matches(r, filter)
    ensures filter == Some("") ==> (Matches(r, filter) <==> r.kind == "")
  {
    filter.None? || Lower(r.kind) == Lower(filter.value)
  }

  /** The records `generate_report(filter)` yields, in the order they are stored. */
  function Report(rs: seq<Record>, filter: Option<string>): (out: seq<Record>)
    ensures |out| <= |rs|
    ensures forall x :: x in out ==> x in rs && Matches(x, filter)
  {
    if rs == [] then []
    else
      var prefix := Report(rs[..|rs| - 1], filter);
      var last := rs[|rs| - 1];
      if Matches(last, filter) then prefix + [last] else prefix
  }

  /** Every stored record that matches the filter is in the report. */
  lemma {:induction false} ReportComplete(rs: seq<Record>, filter: Option<string>, x: Record)
    requires x in rs && Matches(x, filter)
    ensures x in Report(rs, filter)
  {
    var last := rs[|rs| - 1];
    if x != last {
      assert rs == rs[..|rs| - 1] + [last];
      ReportComplete(rs[..|rs| - 1], filter, x);
    }
  }

  /** Reporting over a concatenation reports each part in turn: order is kept. */
  lemma {:induction false} ReportAppend(a: seq<Record>, b: seq<Record>, filter: Option<string>)
    ensures Report(a + b, filter) == Report(a, filter) + Report(b, filter)
  {
    if b == [] {
      assert a + b == a;
    } else {
      var b' := b[..|b| - 1];
      assert (a + b)[..|a + b| - 1] == a + b';
      ReportAppend(a, b', filter);
    }
  }

  /** With no filter the report is the whole history. */
  lemma {:induction false} ReportNoFilter(rs: seq<Record>)
    ensures Report(rs, None) == rs
  {
    if rs != [] {
      ReportNoFilter(rs[..|rs| - 1]);
    }
  }

  /** The empty-string filter matches no record whose type is non-empty. */
  lemma {:induction false} ReportEmptyFilter(rs: seq<Record>)
    requires forall i :: 0 <= i < |rs| ==> rs[i].kind != ""
    ensures Report(rs, Some("")) == []
  {
    if rs != [] {
      var last := rs[|rs| - 1];
      assert |Lower(last.kind)| != 0;
      ReportEmptyFilter(rs[..|rs| - 1]);
    }
  }

  /** The number of records whose type is exactly `kind` (a case-sensitive test). */
  function CountKind(rs: seq<Record>, kind: string): (n: nat)
    ensures n <= |rs|
  {
    if rs == [] then 0
    else CountKind(rs[..|rs| - 1], kind) + (if rs[|rs| - 1].kind == kind then 1 else 0)
  }

  /** Appending a record adds one to its own type's count and nothing to another's. */
  lemma CountKindSnoc(rs: seq<Record>, x: Record, kind: string)
    ensures CountKind(rs + [x], kind) == CountKind(rs, kind) + (if x.kind == kind then 1 else 0)
  {
    assert (rs + [x])[..|rs|] == rs;
  }

  /** A record of the kind the ledger writes: a transaction type and a positive amount. */
  predicate WellFormed(r: Record) {
    (r.kind == "Deposit" || r.kind == "Withdraw") && r.amount > 0.0
  }

  /** On well-formed records the case-sensitive withdrawal count equals the size of the
      case-insensitive report for "withdraw". */
  lemma {:induction false} CountMatchesReport(rs: seq<Record>)
    requires forall i :: 0 <= i < |rs| ==> WellFormed(rs[i])
    ensures CountKind(rs, "Withdraw") == |Report(rs, Some("withdraw"))|
  {
    if rs != [] {
      var last := rs[|rs| - 1];
      assert Lower("Withdraw") == "withdraw";
      assert Lower("withdraw") == "withdraw";
      assert Lower("Deposit")[0] == 'd';
      CountMatchesReport(rs[..|rs| - 1]);
    }
  }

  /** The records the extract screen lists, as written: it asks for the report
      with the empty string as filter. */
  function ExtractAsWritten(rs: seq<Record>): seq<Record> {
    Report(rs, Some(""))
  }

  /** As written, the extract lists nothing for any history the ledger can hold. */
  lemma ExtractAsWrittenShowsNothing(rs: seq<Record>)
    requires forall i :: 0 <= i < |rs| ==> WellFormed(rs[i])
    ensures ExtractAsWritten(rs) == []
  {
    ReportEmptyFilter(rs);
  }

  /** A concrete history: one deposit is stored, yet the extract as written is empty. */
  lemma ExtractAsWrittenHidesDeposit(date: Date)
    ensures ExtractAsWritten([Record("Deposit", 100.0, date)]) == []
  {
    ExtractAsWrittenShowsNothing([Record("Deposit", 100.0, date)]);
  }

  /** The records the extract screen is meant to list: the unfiltered report. */
  function Extract(rs: seq<Record>): (out: seq<Record>)
    ensures out == rs
  {
    ReportNoFilter(rs);
    Report(rs, None)
  }
}
