/** Totals over the rows of a table. */
module Sums {
  function SumOf<T>(rows: seq<T>, value: T -> int): int {
    if rows == [] then 0 else SumOf(rows[..|rows| - 1], value) + value(rows[|rows| - 1])
  }

  lemma SumAppend<T>(rows: seq<T>, row: T, value: T -> int)
    ensures SumOf(rows + [row], value) == SumOf(rows, value) + value(row)
  {
  }

  /** Inserting a row adds its value, whatever is being totalled. */
  lemma SumInsert<T>(rows: seq<T>, row: T)
    ensures forall value: T -> int :: SumOf(rows + [row], value) == SumOf(rows, value) + value(row)
  {
  }

  /** Updating a row exchanges its old value for the new one. */
  lemma SumUpdate<T>(rows: seq<T>, i: nat, row: T)
    requires i < |rows|
    ensures forall value: T -> int :: SumOf(rows[i := row], value) == SumOf(rows, value) - value(rows[i]) + value(row)
  {
  }

  ghost predicate NonNegative<T(!new)>(value: T -> int) {
    forall row: T :: value(row) >= 0
  }

  /** A total of non-negative values is at least each of them. */
  lemma {:induction false} SumAtLeast<T(!new)>(rows: seq<T>, value: T -> int)
    requires NonNegative(value)
    ensures SumOf(rows, value) >= 0
    ensures forall i :: 0 <= i < |rows| ==> value(rows[i]) <= SumOf(rows, value)
  {
    if rows != [] {
      var n := |rows| - 1;
      SumAtLeast(rows[..n], value);
      forall i | 0 <= i < |rows|
        ensures value(rows[i]) <= SumOf(rows, value)
      {
        if i < n {
          assert rows[..n][i] == rows[i];
        }
      }
    }
  }

  lemma {:induction false} SumSame<T>(rows: seq<T>, one: T -> int, other: T -> int)
    requires forall i :: 0 <= i < |rows| ==> one(rows[i]) == other(rows[i])
    ensures SumOf(rows, one) == SumOf(rows, other)
  {
    if rows != [] {
      SumSame(rows[..|rows| - 1], one, other);
    }
  }

  /** Changes that a value does not see leave its total alone. */
  lemma {:induction false} SumUnseen<T>(rows: seq<T>, after: seq<T>, value: T -> int)
    requires |rows| == |after| && forall i :: 0 <= i < |rows| ==> value(rows[i]) == value(after[i])
    ensures SumOf(rows, value) == SumOf(after, value)
  {
    if rows != [] {
      SumUnseen(rows[..|rows| - 1], after[..|after| - 1], value);
    }
  }

  lemma {:induction false} SumZero<T>(rows: seq<T>, value: T -> int)
    requires forall i :: 0 <= i < |rows| ==> value(rows[i]) == 0
    ensures SumOf(rows, value) == 0
  {
    if rows != [] {
      SumZero(rows[..|rows| - 1], value);
    }
  }

  lemma {:induction false} SumAdds<T>(rows: seq<T>, one: T -> int, other: T -> int, both: T -> int)
    requires forall i :: 0 <= i < |rows| ==> both(rows[i]) == one(rows[i]) + other(rows[i])
    ensures SumOf(rows, both) == SumOf(rows, one) + SumOf(rows, other)
  {
    if rows != [] {
      SumAdds(rows[..|rows| - 1], one, other, both);
    }
  }

  /** A total does not depend on the order of the rows. */
  lemma {:induction false} SumOfReordered<T>(rows: seq<T>, order: seq<T>, value: T -> int)
    requires multiset(rows) == multiset(order)
    ensures SumOf(rows, value) == SumOf(order, value)
  {
    if rows == [] {
      assert |multiset(order)| == 0;
    } else {
      var n := |rows| - 1;
      assert rows[n] in multiset(order);
      var k :| 0 <= k < |order| && order[k] == rows[n];
      var others := order[..k] + order[k + 1..];
      assert order == order[..k] + [order[k]] + order[k + 1..];
      assert rows == rows[..n] + [rows[n]];
      assert multiset(order) == multiset(others) + multiset{order[k]};
      assert multiset(rows) == multiset(rows[..n]) + multiset{rows[n]};
      assert multiset(others) == multiset(rows[..n]) by {
        assert multiset(others) == multiset(order) - multiset{order[k]};
        assert multiset(rows[..n]) == multiset(rows) - multiset{rows[n]};
      }
      SumOfReordered(rows[..n], others, value);
      SumOfParts(order[..k], order[k + 1..], value);
      SumOfParts(order[..k] + [order[k]], order[k + 1..], value);
      SumInsert(order[..k], order[k]);
    }
  }

  lemma {:induction false} SumOfParts<T>(x: seq<T>, y: seq<T>, value: T -> int)
    ensures SumOf(x + y, value) == SumOf(x, value) + SumOf(y, value)
  {
    if y == [] {
      assert x + y == x;
    } else {
      assert (x + y)[..|x + y| - 1] == x + y[..|y| - 1];
      SumOfParts(x, y[..|y| - 1], value);
    }
  }
}
