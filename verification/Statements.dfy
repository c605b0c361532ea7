/** Statements: a contact's ledger cut into periods. Times are the milliseconds of a row's date. */
module Statements {
  import opened Wrappers
  import opened Sums
  import opened Books
  import opened Reconciliation

  datatype DatedRow = DatedRow(time: int, row: Row)

  function DatedChange(): DatedRow -> int {
    (r: DatedRow) => r.row.increase - r.row.decrease
  }

  predicate Within(r: DatedRow, from: Option<int>, to: Option<int>) {
    (from.Some? ==> r.time >= from.value) && (to.Some? ==> r.time <= to.value)
  }

  /** `filterStatementRows`. */
  function InPeriod(rows: seq<DatedRow>, from: Option<int>, to: Option<int>): seq<DatedRow> {
    if rows == [] then []
    else InPeriod(rows[..|rows| - 1], from, to) + if Within(rows[|rows| - 1], from, to) then [rows[|rows| - 1]] else []
  }

  /** Exactly the rows dated on or between the two days, each as often as it is in the ledger. */
  lemma {:induction false} InPeriodExactly(rows: seq<DatedRow>, from: Option<int>, to: Option<int>, r: DatedRow)
    ensures multiset(InPeriod(rows, from, to))[r]
         == if (from.None? || from.value <= r.time) && (to.None? || r.time <= to.value) then multiset(rows)[r] else 0
  {
    if rows != [] {
      var n := |rows| - 1;
      InPeriodExactly(rows[..n], from, to, r);
      CountOneMore(InPeriod(rows[..n], from, to), rows[n], Within(rows[n], from, to), r);
      CountOneMore(rows[..n], rows[n], true, r);
      assert rows == rows[..n] + [rows[n]];
    }
  }

  /** And in the ledger's order. */
  lemma {:induction false} InPeriodInOrder(rows: seq<DatedRow>, k: nat, from: Option<int>, to: Option<int>)
    requires k <= |rows|
    ensures InPeriod(rows[..k], from, to) <= InPeriod(rows, from, to)
  {
    if k < |rows| {
      InPeriodInOrder(rows[..|rows| - 1], k, from, to);
      assert rows[..|rows| - 1][..k] == rows[..k];
    } else {
      assert rows[..k] == rows;
    }
  }

  lemma CountOneMore<T>(rows: seq<T>, row: T, kept: bool, r: T)
    ensures multiset(rows + if kept then [row] else [])[r] == multiset(rows)[r] + if kept && row == r then 1 else 0
  {
    assert rows + [] == rows;
    assert multiset(rows + [row]) == multiset(rows) + multiset{row};
  }

  /** `calculateStatementOpeningBalance`. */
  function Opening(rows: seq<DatedRow>, from: Option<int>): int {
    if from == None then 0 else SumOf(InPeriod(rows, None, Some(from.value - 1)), DatedChange())
  }

  function Closing(rows: seq<DatedRow>, from: Option<int>, to: Option<int>): int {
    Opening(rows, from) + SumOf(InPeriod(rows, from, to), DatedChange())
  }

  method OpeningBalance(rows: seq<DatedRow>, from: Option<int>) returns (opening: int)
    ensures opening == Opening(rows, from)
  {
    opening := 0;
    if from == None {
      return;
    }
    for k := 0 to |rows|
      invariant opening == Opening(rows[..k], from)
    {
      var r := rows[k];
      assert rows[..k + 1][..k] == rows[..k];
      var before := InPeriod(rows[..k], None, Some(from.value - 1));
      SumInsert(before, r);
      assert before + [] == before;
      if r.time < from.value {
        opening := opening + r.row.increase - r.row.decrease;
      }
    }
    assert rows[..|rows|] == rows;
  }

  method FilterRows(rows: seq<DatedRow>, from: Option<int>, to: Option<int>) returns (shown: seq<DatedRow>)
    ensures shown == InPeriod(rows, from, to)
  {
    shown := [];
    for k := 0 to |rows|
      invariant shown == InPeriod(rows[..k], from, to)
    {
      assert rows[..k + 1][..k] == rows[..k];
      if (from == None || rows[k].time >= from.value) && (to == None || rows[k].time <= to.value) {
        shown := shown + [rows[k]];
      }
    }
    assert rows[..|rows|] == rows;
  }

  /** A statement: the opening balance, the rows of the period and their running balances, and where they end. */
  method Statement(rows: seq<DatedRow>, from: Option<int>, to: Option<int>)
    returns (opening: int, shown: seq<DatedRow>, balances: seq<int>, closing: int)
    ensures opening == Opening(rows, from) && shown == InPeriod(rows, from, to) && closing == Closing(rows, from, to)
    ensures |balances| == |shown|
    ensures forall i :: 0 <= i < |shown| ==> balances[i] == opening + SumOf(shown[..i + 1], DatedChange())
  {
    opening := OpeningBalance(rows, from);
    shown := FilterRows(rows, from, to);
    hide Opening, InPeriod;
    var balance := opening;
    balances := [];
    for k := 0 to |shown|
      invariant |balances| == k && balance == opening + SumOf(shown[..k], DatedChange())
      invariant forall i :: 0 <= i < k ==> balances[i] == opening + SumOf(shown[..i + 1], DatedChange())
    {
      assert shown[..k + 1][..k] == shown[..k];
      balance := balance + shown[k].row.increase - shown[k].row.decrease;
      balances := balances + [balance];
    }
    assert shown[..|shown|] == shown;
    closing := if balances == [] then opening else balances[|balances| - 1];
  }

  /** The closing balance is the ledger's balance at the end of the period, wherever the period starts. */
  lemma {:induction false} ClosingIsBalanceAt(rows: seq<DatedRow>, from: Option<int>, to: Option<int>)
    requires from.Some? && to.Some? ==> from.value <= to.value + 1
    ensures Closing(rows, from, to) == SumOf(InPeriod(rows, None, to), DatedChange())
  {
    if rows != [] && from.Some? {
      var n := |rows| - 1;
      var r := rows[n];
      ClosingIsBalanceAt(rows[..n], from, to);
      OneMoreRow(rows, None, Some(from.value - 1));
      OneMoreRow(rows, from, to);
      OneMoreRow(rows, None, to);
      hide InPeriod;
    }
  }

  lemma OneMoreRow(rows: seq<DatedRow>, from: Option<int>, to: Option<int>)
    requires rows != []
    ensures var n := |rows| - 1;
            SumOf(InPeriod(rows, from, to), DatedChange())
            == SumOf(InPeriod(rows[..n], from, to), DatedChange()) + if Within(rows[n], from, to) then DatedChange()(rows[n]) else 0
  {
    var before := InPeriod(rows[..|rows| - 1], from, to);
    SumAppend(before, rows[|rows| - 1], DatedChange());
    assert before + [] == before;
  }

  /** The closing balance of a period is the opening balance of the next one. */
  lemma AdjacentPeriodsMeet(rows: seq<DatedRow>, from: Option<int>, to: int)
    requires from.Some? ==> from.value <= to + 1
    ensures Closing(rows, from, Some(to)) == Opening(rows, Some(to + 1))
  {
    ClosingIsBalanceAt(rows, from, Some(to));
  }

  predicate Sorted(rows: seq<DatedRow>) {
    forall i, j :: 0 <= i < j < |rows| ==> rows[i].time <= rows[j].time
  }

  predicate Increasing(cuts: seq<int>) {
    forall i, j :: 0 <= i < j < |cuts| ==> cuts[i] <= cuts[j]
  }

  /** The rows of consecutive periods that end at the cuts. */
  function Chained(rows: seq<DatedRow>, cuts: seq<int>): seq<DatedRow> {
    if cuts == [] then []
    else
      Chained(rows, cuts[..|cuts| - 1])
      + InPeriod(rows, if |cuts| == 1 then None else Some(cuts[|cuts| - 2] + 1), Some(cuts[|cuts| - 1]))
  }

  /** Chained statements show every row up to the last cut once, in ledger order. */
  lemma {:induction false} ChainedStatementsAreTheLedger(rows: seq<DatedRow>, cuts: seq<int>)
    requires Sorted(rows) && Increasing(cuts) && cuts != []
    ensures Chained(rows, cuts) == InPeriod(rows, None, Some(cuts[|cuts| - 1]))
  {
    hide InPeriod;
    var n := |cuts| - 1;
    if n > 0 {
      ChainedStatementsAreTheLedger(rows, cuts[..n]);
      SplitPeriod(rows, cuts[n - 1], cuts[n]);
    } else {
      assert Chained(rows, cuts[..0]) == [];
    }
  }

  lemma {:induction false} SplitPeriod(rows: seq<DatedRow>, cut: int, to: int)
    requires Sorted(rows) && cut <= to
    ensures InPeriod(rows, None, Some(to)) == InPeriod(rows, None, Some(cut)) + InPeriod(rows, Some(cut + 1), Some(to))
  {
    if rows != [] {
      var n := |rows| - 1;
      SplitPeriod(rows[..n], cut, to);
      if rows[n].time <= cut {
        NothingAfter(rows, cut, to);
      }
    }
  }

  lemma {:induction false} NothingAfter(rows: seq<DatedRow>, cut: int, to: int)
    requires Sorted(rows) && (rows != [] ==> rows[|rows| - 1].time <= cut)
    ensures InPeriod(rows, Some(cut + 1), Some(to)) == []
  {
    if rows != [] {
      NothingAfter(rows[..|rows| - 1], cut, to);
    }
  }

  /** An informational row changes the running balance of no other row, wherever it stands. */
  lemma NeutralRowsChangeNothing(rows: seq<DatedRow>, at: nat, time: int, opening: int, i: nat)
    requires at <= |rows| && i < |rows|
    ensures var more := rows[..at] + [DatedRow(time, NEUTRAL)] + rows[at..];
            var k := if i < at then i else i + 1;
            opening + SumOf(more[..k + 1], DatedChange()) == opening + SumOf(rows[..i + 1], DatedChange())
  {
    var neutral := DatedRow(time, NEUTRAL);
    var more := rows[..at] + [neutral] + rows[at..];
    if i < at {
      assert more[..i + 1] == rows[..i + 1];
    } else {
      assert more[..i + 2] == (rows[..at] + [neutral]) + rows[at..i + 1];
      assert rows[..i + 1] == rows[..at] + rows[at..i + 1];
      SumOfParts(rows[..at] + [neutral], rows[at..i + 1], DatedChange());
      SumOfParts(rows[..at], rows[at..i + 1], DatedChange());
      SumInsert(rows[..at], neutral);
    }
  }
}
