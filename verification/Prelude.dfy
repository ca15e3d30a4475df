/** Optional values, sums over table rows and sums over row numbers. */
module Prelude {

  datatype Option<+T> = None | Some(value: T)

  /** Sum of `f` over the rows of a table. */
  function Total<T>(rows: seq<T>, f: T -> int): int {
    if rows == [] then 0 else Total(rows[..|rows| - 1], f) + f(rows[|rows| - 1])
  }

  lemma TotalAppend<T>(rows: seq<T>, x: T, f: T -> int)
    ensures Total(rows + [x], f) == Total(rows, f) + f(x)
  {
    assert (rows + [x])[..|rows|] == rows;
  }

  lemma {:induction false} TotalUpdate<T>(rows: seq<T>, i: nat, x: T, f: T -> int)
    requires i < |rows|
    ensures Total(rows[i := x], f) == Total(rows, f) - f(rows[i]) + f(x)
  {
    var n := |rows| - 1;
    if i == n {
      assert rows[i := x][..n] == rows[..n];
    } else {
      assert rows[i := x][..n] == rows[..n][i := x];
      TotalUpdate(rows[..n], i, x, f);
    }
  }

  lemma {:induction false} TotalCongruent<T>(rows: seq<T>, rows': seq<T>, f: T -> int)
    requires |rows| == |rows'|
    requires forall i :: 0 <= i < |rows| ==> f(rows[i]) == f(rows'[i])
    ensures Total(rows, f) == Total(rows', f)
  {
    if rows != [] {
      TotalCongruent(rows[..|rows| - 1], rows'[..|rows| - 1], f);
    }
  }

  lemma {:induction false} TotalMonotone<T>(rows: seq<T>, f: T -> int, g: T -> int)
    requires forall i :: 0 <= i < |rows| ==> f(rows[i]) <= g(rows[i])
    ensures Total(rows, f) <= Total(rows, g)
  {
    if rows != [] {
      TotalMonotone(rows[..|rows| - 1], f, g);
    }
  }

  lemma {:induction false} TotalDominates<T>(rows: seq<T>, rows': seq<T>, f: T -> int)
    requires |rows| == |rows'|
    requires forall i :: 0 <= i < |rows| ==> f(rows'[i]) <= f(rows[i])
    ensures Total(rows', f) <= Total(rows, f)
  {
    if rows != [] {
      TotalDominates(rows[..|rows| - 1], rows'[..|rows| - 1], f);
    }
  }

  /** With non-negative terms, every single row is a lower bound of the sum. */
  lemma {:induction false} TotalCovers<T>(rows: seq<T>, i: nat, f: T -> int)
    requires i < |rows|
    requires forall k :: 0 <= k < |rows| ==> f(rows[k]) >= 0
    ensures Total(rows, f) >= f(rows[i])
  {
    var n := |rows| - 1;
    TotalNonNegative(rows[..n], f);
    if i < n {
      TotalCovers(rows[..n], i, f);
    }
  }

  /** With non-negative terms, two rows count twice. */
  lemma {:induction false} TotalCoversTwo<T>(rows: seq<T>, i: nat, j: nat, f: T -> int)
    requires i < j < |rows|
    requires forall k :: 0 <= k < |rows| ==> f(rows[k]) >= 0
    ensures Total(rows, f) >= f(rows[i]) + f(rows[j])
  {
    var n := |rows| - 1;
    if j == n {
      TotalCovers(rows[..n], i, f);
    } else {
      TotalCoversTwo(rows[..n], i, j, f);
    }
  }

  lemma {:induction false} TotalNonNegative<T>(rows: seq<T>, f: T -> int)
    requires forall k :: 0 <= k < |rows| ==> f(rows[k]) >= 0
    ensures Total(rows, f) >= 0
  {
    if rows != [] {
      TotalNonNegative(rows[..|rows| - 1], f);
    }
  }

  lemma {:induction false} TotalZero<T>(rows: seq<T>, f: T -> int)
    requires forall k :: 0 <= k < |rows| ==> f(rows[k]) == 0
    ensures Total(rows, f) == 0
  {
    if rows != [] {
      TotalZero(rows[..|rows| - 1], f);
    }
  }

  /** The numbers of the rows that count as one. */
  function Ones<T>(rows: seq<T>, f: T -> int): set<nat> {
    set i: nat | i < |rows| && f(rows[i]) == 1
  }

  /** A sum of zeros and ones counts rows. */
  lemma {:induction false} TotalCounts<T>(rows: seq<T>, f: T -> int)
    requires forall i :: 0 <= i < |rows| ==> f(rows[i]) == 0 || f(rows[i]) == 1
    ensures Total(rows, f) == |Ones(rows, f)|
  {
    if rows != [] {
      var n := |rows| - 1;
      TotalCounts(rows[..n], f);
      assert Ones(rows, f) == Ones(rows[..n], f) + if f(rows[n]) == 1 then {n} else {};
    }
  }

  /** Sum of real terms over the rows of a table. */
  function RealTotal<T>(rows: seq<T>, f: T -> real): real {
    if rows == [] then 0.0 else RealTotal(rows[..|rows| - 1], f) + f(rows[|rows| - 1])
  }

  lemma {:induction false} RealTotalUpdate<T>(rows: seq<T>, i: nat, x: T, f: T -> real)
    requires i < |rows|
    ensures RealTotal(rows[i := x], f) == RealTotal(rows, f) - f(rows[i]) + f(x)
  {
    var n := |rows| - 1;
    if i == n {
      assert rows[i := x][..n] == rows[..n];
    } else {
      assert rows[i := x][..n] == rows[..n][i := x];
      RealTotalUpdate(rows[..n], i, x, f);
    }
  }

  lemma {:induction false} RealTotalCongruent<T>(rows: seq<T>, rows': seq<T>, f: T -> real)
    requires |rows| == |rows'| && forall i :: 0 <= i < |rows| ==> f(rows[i]) == f(rows'[i])
    ensures RealTotal(rows, f) == RealTotal(rows', f)
  {
    if rows != [] {
      RealTotalCongruent(rows[..|rows| - 1], rows'[..|rows| - 1], f);
    }
  }

  lemma {:induction false} RealTotalZero<T>(rows: seq<T>, f: T -> real)
    requires forall i :: 0 <= i < |rows| ==> f(rows[i]) == 0.0
    ensures RealTotal(rows, f) == 0.0
  {
    if rows != [] {
      RealTotalZero(rows[..|rows| - 1], f);
    }
  }

  /** Sum of `f` over the row numbers below n. */
  function SumTo(n: nat, f: nat -> int): int {
    if n == 0 then 0 else SumTo(n - 1, f) + f(n - 1)
  }

  lemma {:induction false} SumCongruent(n: nat, f: nat -> int, g: nat -> int)
    requires forall i: nat :: i < n ==> f(i) == g(i)
    ensures SumTo(n, f) == SumTo(n, g)
  {
    if n > 0 { SumCongruent(n - 1, f, g); }
  }

  /** Two terms that differ at one row number only. */
  lemma {:induction false} SumChangesAt(n: nat, f: nat -> int, g: nat -> int, k: nat)
    requires k < n && forall i: nat :: i < n && i != k ==> f(i) == g(i)
    ensures SumTo(n, g) == SumTo(n, f) - f(k) + g(k)
  {
    if k == n - 1 {
      SumCongruent(n - 1, f, g);
    } else {
      SumChangesAt(n - 1, f, g, k);
    }
  }

  lemma {:induction false} SumNonNegative(n: nat, f: nat -> int)
    requires forall i: nat :: i < n ==> f(i) >= 0
    ensures SumTo(n, f) >= 0
  {
    if n > 0 { SumNonNegative(n - 1, f); }
  }

  lemma {:induction false} SumCovers(n: nat, f: nat -> int, k: nat)
    requires k < n && forall i: nat :: i < n ==> f(i) >= 0
    ensures SumTo(n, f) >= f(k)
  {
    SumNonNegative(n - 1, f);
    if k < n - 1 { SumCovers(n - 1, f, k); }
  }

  lemma {:induction false} SumSplits(n: nat, f: nat -> int, g: nat -> int, h: nat -> int)
    requires forall i: nat :: i < n ==> f(i) == g(i) + h(i)
    ensures SumTo(n, f) == SumTo(n, g) + SumTo(n, h)
  {
    if n > 0 { SumSplits(n - 1, f, g, h); }
  }

  /** A sum of non-negative terms is zero exactly when they all are. */
  lemma {:induction false} SumZeroIff(n: nat, f: nat -> int)
    requires forall i: nat :: i < n ==> f(i) >= 0
    ensures SumTo(n, f) == 0 <==> forall i: nat :: i < n ==> f(i) == 0
  {
    if n > 0 {
      SumZeroIff(n - 1, f);
      SumNonNegative(n - 1, f);
    }
  }
}
