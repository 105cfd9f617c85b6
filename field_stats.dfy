/** The array reductions both thermal engines use: numpy's copy, max, min,
    sum and "count the cells above t" over a square window of a field, and
    np.max(np.abs(A - B)) for the convergence test. */
module FieldStats {
  import opened Common

  // ---------------------------------------------------------------------------
  // Reductions over a sequence of cell values
  // ---------------------------------------------------------------------------

  function SeqMax(s: seq<real>): (m: real)
    requires |s| > 0
    ensures m in s
    ensures forall k :: 0 <= k < |s| ==> s[k] <= m
  {
    if |s| == 1 then s[0]
    else
      var rest := SeqMax(s[1..]);
      if s[0] >= rest then s[0] else rest
  }

  function SeqMin(s: seq<real>): (m: real)
    requires |s| > 0
    ensures m in s
    ensures forall k :: 0 <= k < |s| ==> m <= s[k]
  {
    if |s| == 1 then s[0]
    else
      var rest := SeqMin(s[1..]);
      if s[0] <= rest then s[0] else rest
  }

  function Sum(s: seq<real>): real
  {
    if s == [] then 0.0 else s[0] + Sum(s[1..])
  }

  /** np.sum(s > t): how many values lie strictly above t. */
  function CountAbove(s: seq<real>, t: real): (c: nat)
    ensures c <= |s|
  {
    if s == [] then 0 else (if s[0] > t then 1 else 0) + CountAbove(s[1..], t)
  }

  lemma {:induction false} CountAboveNone(s: seq<real>, t: real)
    requires forall k :: 0 <= k < |s| ==> s[k] <= t
    ensures CountAbove(s, t) == 0
  {
    if s != [] {
      CountAboveNone(s[1..], t);
    }
  }

  lemma {:induction false} CountAboveSome(s: seq<real>, t: real, k: nat)
    requires k < |s| && s[k] > t
    ensures CountAbove(s, t) >= 1
  {
    if k > 0 {
      CountAboveSome(s[1..], t, k - 1);
    }
  }

  /** The sum lies between |s| times the least and |s| times the largest value,
      so the mean lies between the minimum and the maximum. */
  lemma {:induction false} SumBetween(s: seq<real>, lo: real, hi: real)
    requires forall k :: 0 <= k < |s| ==> lo <= s[k] <= hi
    ensures (|s| as real) * lo <= Sum(s) <= (|s| as real) * hi
  {
    if s != [] {
      SumBetween(s[1..], lo, hi);
    }
  }

  /** n * lo <= total <= n * hi with n > 0 puts total / n in [lo, hi]. */
  lemma ScaleBounds(total: real, lo: real, hi: real, n: real)
    requires n > 0.0 && n * lo <= total <= n * hi
    ensures lo <= total / n <= hi
  {
  }

  lemma {:induction false} MeanBetween(s: seq<real>)
    requires |s| > 0
    ensures SeqMin(s) <= Sum(s) / (|s| as real) <= SeqMax(s)
  {
    MeanOfBounded(s, SeqMin(s), SeqMax(s));
  }

  /** The mean of values in [lo, hi] lies in [lo, hi]. */
  lemma MeanOfBounded(s: seq<real>, lo: real, hi: real)
    requires |s| > 0
    requires forall k :: 0 <= k < |s| ==> lo <= s[k] <= hi
    ensures lo <= Sum(s) / (|s| as real) <= hi
  {
    SumBetween(s, lo, hi);
    ScaleBounds(Sum(s), lo, hi, |s| as real);
  }

  // ---------------------------------------------------------------------------
  // Square windows of a field, flattened row by row (numpy's T[lo:hi, lo:hi])
  // ---------------------------------------------------------------------------

  predicate IsSquare(T: array2<real>, n: nat)
  {
    T.Length0 == n && T.Length1 == n
  }

  function RowSegment(T: array2<real>, i: nat, lo: nat, hi: nat): (s: seq<real>)
    reads T
    requires i < T.Length0 && lo <= hi <= T.Length1
    ensures |s| == hi - lo
    ensures forall k :: 0 <= k < |s| ==> s[k] == T[i, lo + k]
  {
    seq(hi - lo, k requires 0 <= k < hi - lo reads T => T[i, lo + k])
  }

  /** Rows row..hi-1 of the window with columns [lo, hi). */
  function Rows(T: array2<real>, lo: nat, hi: nat, row: nat): seq<real>
    reads T
    requires row <= hi <= T.Length0 && lo <= hi <= T.Length1
    decreases hi - row
  {
    if row == hi then [] else RowSegment(T, row, lo, hi) + Rows(T, lo, hi, row + 1)
  }

  function Window(T: array2<real>, lo: nat, hi: nat): seq<real>
    reads T
    requires lo <= hi <= T.Length0 && hi <= T.Length1
  {
    Rows(T, lo, hi, lo)
  }

  lemma {:induction false} RowsLength(T: array2<real>, lo: nat, hi: nat, row: nat)
    requires row <= hi <= T.Length0 && lo <= hi <= T.Length1
    ensures |Rows(T, lo, hi, row)| == (hi - row) * (hi - lo)
    decreases hi - row
  {
    if row < hi {
      RowsLength(T, lo, hi, row + 1);
      assert (hi - row) * (hi - lo) == (hi - lo) + (hi - (row + 1)) * (hi - lo);
    }
  }

  /** Every cell of the window appears in it ... */
  lemma {:induction false} RowsHasCell(T: array2<real>, lo: nat, hi: nat, row: nat, a: nat, b: nat)
    requires row <= hi <= T.Length0 && lo <= hi <= T.Length1
    requires row <= a < hi && lo <= b < hi
    ensures T[a, b] in Rows(T, lo, hi, row)
    decreases hi - row
  {
    if a == row {
      assert RowSegment(T, row, lo, hi)[b - lo] == T[a, b];
    } else {
      RowsHasCell(T, lo, hi, row + 1, a, b);
    }
  }

  /** ... and nothing else does. */
  lemma {:induction false} RowsOnlyCells(T: array2<real>, lo: nat, hi: nat, row: nat, x: real)
    requires row <= hi <= T.Length0 && lo <= hi <= T.Length1
    requires x in Rows(T, lo, hi, row)
    ensures exists a, b :: row <= a < hi && lo <= b < hi && T[a, b] == x
    decreases hi - row
  {
    if x in RowSegment(T, row, lo, hi) {
      var k :| 0 <= k < hi - lo && RowSegment(T, row, lo, hi)[k] == x;
      assert T[row, lo + k] == x;
    } else {
      RowsOnlyCells(T, lo, hi, row + 1, x);
    }
  }

  lemma WindowCells(T: array2<real>, lo: nat, hi: nat)
    requires lo <= hi <= T.Length0 && hi <= T.Length1
    ensures |Window(T, lo, hi)| == (hi - lo) * (hi - lo)
    ensures forall a, b :: lo <= a < hi && lo <= b < hi ==> T[a, b] in Window(T, lo, hi)
    ensures forall x :: x in Window(T, lo, hi) ==>
              exists a, b :: lo <= a < hi && lo <= b < hi && T[a, b] == x
  {
    RowsLength(T, lo, hi, lo);
    forall a, b | lo <= a < hi && lo <= b < hi
      ensures T[a, b] in Window(T, lo, hi)
    {
      RowsHasCell(T, lo, hi, lo, a, b);
    }
    forall x | x in Window(T, lo, hi)
      ensures exists a, b :: lo <= a < hi && lo <= b < hi && T[a, b] == x
    {
      RowsOnlyCells(T, lo, hi, lo, x);
    }
  }

  // ---------------------------------------------------------------------------
  // Fields as values: a snapshot of an array, row by row
  // ---------------------------------------------------------------------------

  /** A temperature field as a value: g[i][j] is the cell in row i, column j. */
  type Grid = seq<seq<real>>

  predicate IsGrid(g: Grid, n: nat)
  {
    |g| == n && forall i :: 0 <= i < n ==> |g[i]| == n
  }

  /** The value an array holds at this moment. */
  function Snapshot(T: array2<real>): (g: Grid)
    reads T
    ensures |g| == T.Length0
    ensures forall i :: 0 <= i < T.Length0 ==> |g[i]| == T.Length1
    ensures forall i, j :: 0 <= i < T.Length0 && 0 <= j < T.Length1 ==> g[i][j] == T[i, j]
  {
    seq(T.Length0, i requires 0 <= i < T.Length0 reads T => RowSegment(T, i, 0, T.Length1))
  }

  /** Two arrays of the same shape holding the same cells have the same snapshot. */
  lemma SnapshotsEqual(A: array2<real>, B: array2<real>)
    requires A.Length0 == B.Length0 && A.Length1 == B.Length1
    requires forall i, j :: 0 <= i < A.Length0 && 0 <= j < A.Length1 ==> A[i, j] == B[i, j]
    ensures Snapshot(A) == Snapshot(B)
  {
    forall i | 0 <= i < A.Length0
      ensures Snapshot(A)[i] == Snapshot(B)[i]
    {
      assert Snapshot(A)[i] == RowSegment(A, i, 0, A.Length1);
      assert Snapshot(B)[i] == RowSegment(B, i, 0, B.Length1);
    }
  }

  /** An array whose cells are those of a square grid has that grid as its snapshot. */
  lemma SnapshotIs(T: array2<real>, g: Grid)
    requires T.Length0 == T.Length1 && IsGrid(g, T.Length0)
    requires forall i, j :: 0 <= i < T.Length0 && 0 <= j < T.Length0 ==> T[i, j] == g[i][j]
    ensures Snapshot(T) == g
  {
    forall i | 0 <= i < T.Length0
      ensures Snapshot(T)[i] == g[i]
    {
      assert Snapshot(T)[i] == RowSegment(T, i, 0, T.Length1);
    }
  }

  /** np.ones((n, n)) * v. */
  function ConstantGrid(n: nat, v: real): (g: Grid)
    ensures IsGrid(g, n)
    ensures forall i, j :: 0 <= i < n && 0 <= j < n ==> g[i][j] == v
  {
    seq(n, i => seq(n, j => v))
  }

  /** The largest |after[i][j] - before[i][j]| over the first cols columns of row i. */
  function RowMaxChange(before: Grid, after: Grid, i: nat, cols: nat): real
    requires i < |before| && i < |after| && 1 <= cols && cols <= |before[i]| && cols <= |after[i]|
    decreases cols
  {
    var d := Abs(after[i][cols - 1] - before[i][cols - 1]);
    if cols == 1 then d
    else
      var m := RowMaxChange(before, after, i, cols - 1);
      if d > m then d else m
  }

  /** The largest |after[i][j] - before[i][j]| over the first rows rows of two n x n fields. */
  function GridMaxChange(before: Grid, after: Grid, n: nat, rows: nat): real
    requires IsGrid(before, n) && IsGrid(after, n) && 1 <= rows <= n
    decreases rows
  {
    var r := RowMaxChange(before, after, rows - 1, n);
    if rows == 1 then r
    else
      var m := GridMaxChange(before, after, n, rows - 1);
      if r > m then r else m
  }

  lemma {:induction false} RowMaxChangeIsMax(before: Grid, after: Grid, i: nat, cols: nat)
    requires i < |before| && i < |after| && 1 <= cols && cols <= |before[i]| && cols <= |after[i]|
    ensures forall j :: 0 <= j < cols ==> Abs(after[i][j] - before[i][j]) <= RowMaxChange(before, after, i, cols)
    ensures exists j :: 0 <= j < cols && Abs(after[i][j] - before[i][j]) == RowMaxChange(before, after, i, cols)
    decreases cols
  {
    if cols > 1 {
      RowMaxChangeIsMax(before, after, i, cols - 1);
      var m := RowMaxChange(before, after, i, cols - 1);
      var j :| 0 <= j < cols - 1 && Abs(after[i][j] - before[i][j]) == m;
      if Abs(after[i][cols - 1] - before[i][cols - 1]) <= m {
        assert Abs(after[i][j] - before[i][j]) == RowMaxChange(before, after, i, cols);
      }
    }
  }

  lemma {:induction false} GridMaxChangeIsMax(before: Grid, after: Grid, n: nat, rows: nat)
    requires IsGrid(before, n) && IsGrid(after, n) && 1 <= rows <= n
    ensures forall i, j :: 0 <= i < rows && 0 <= j < n ==> Abs(after[i][j] - before[i][j]) <= GridMaxChange(before, after, n, rows)
    ensures exists i, j :: 0 <= i < rows && 0 <= j < n && Abs(after[i][j] - before[i][j]) == GridMaxChange(before, after, n, rows)
    decreases rows
  {
    RowMaxChangeIsMax(before, after, rows - 1, n);
    if rows > 1 {
      GridMaxChangeIsMax(before, after, n, rows - 1);
      var m := GridMaxChange(before, after, n, rows - 1);
      var a, b :| 0 <= a < rows - 1 && 0 <= b < n && Abs(after[a][b] - before[a][b]) == m;
      if RowMaxChange(before, after, rows - 1, n) <= m {
        assert Abs(after[a][b] - before[a][b]) == GridMaxChange(before, after, n, rows);
      }
    }
  }

  /** e is np.max(np.abs(after - before)) of two n x n fields. */
  ghost predicate IsMaxChange(before: Grid, after: Grid, n: nat, e: real)
  {
    IsGrid(before, n) && IsGrid(after, n) && n >= 1 && e == GridMaxChange(before, after, n, n)
  }

  /** The largest change bounds every cell's change and is some cell's change;
      and a value with both properties is the largest change. */
  lemma IsMaxChangeIff(before: Grid, after: Grid, n: nat, e: real)
    requires IsGrid(before, n) && IsGrid(after, n) && n >= 1
    ensures IsMaxChange(before, after, n, e) <==>
              && (forall i, j :: 0 <= i < n && 0 <= j < n ==> Abs(after[i][j] - before[i][j]) <= e)
              && (exists i, j :: 0 <= i < n && 0 <= j < n && Abs(after[i][j] - before[i][j]) == e)
  {
    GridMaxChangeIsMax(before, after, n, n);
    var g := GridMaxChange(before, after, n, n);
    var a, b :| 0 <= a < n && 0 <= b < n && Abs(after[a][b] - before[a][b]) == g;
    if exists i, j :: 0 <= i < n && 0 <= j < n && Abs(after[i][j] - before[i][j]) == e {
      var c, d :| 0 <= c < n && 0 <= d < n && Abs(after[c][d] - before[c][d]) == e;
      assert e <= g;
    }
  }

  /** What MaxAbsDiff establishes on two arrays, stated on their snapshots. */
  lemma MaxChangeOfSnapshots(Before: array2<real>, After: array2<real>, e: real)
    requires Before.Length0 == Before.Length1 == After.Length0 == After.Length1 >= 1
    requires forall i, j :: 0 <= i < After.Length0 && 0 <= j < After.Length0 ==> Abs(After[i, j] - Before[i, j]) <= e
    requires exists i, j :: 0 <= i < After.Length0 && 0 <= j < After.Length0 && Abs(After[i, j] - Before[i, j]) == e
    ensures IsMaxChange(Snapshot(Before), Snapshot(After), After.Length0, e)
  {
    var n := After.Length0;
    var a, b :| 0 <= a < n && 0 <= b < n && Abs(After[a, b] - Before[a, b]) == e;
    assert Abs(Snapshot(After)[a][b] - Snapshot(Before)[a][b]) == e;
    IsMaxChangeIff(Snapshot(Before), Snapshot(After), n, e);
  }

  /** Every entry of s is at least t, stated from the last entry back (the
      convergence tests use it for the changes that did not stop a run). */
  predicate AllAtLeast(s: seq<real>, t: real)
    decreases |s|
  {
    |s| > 0 ==> s[|s| - 1] >= t && AllAtLeast(s[..|s| - 1], t)
  }

  lemma {:induction false} AllAtLeastMeans(s: seq<real>, t: real)
    requires AllAtLeast(s, t)
    ensures forall k :: 0 <= k < |s| ==> s[k] >= t
    decreases |s|
  {
    if |s| > 0 {
      AllAtLeastMeans(s[..|s| - 1], t);
      assert forall k :: 0 <= k < |s| - 1 ==> s[..|s| - 1][k] == s[k];
    }
  }

  /** The changes before the last one of a run were all at least t. */
  lemma AllButLastAtLeast(s: seq<real>, t: real)
    requires |s| > 0 ==> AllAtLeast(s[..|s| - 1], t)
    ensures forall k :: 0 <= k < |s| - 1 ==> s[k] >= t
  {
    if |s| > 0 {
      AllAtLeastMeans(s[..|s| - 1], t);
      assert forall k :: 0 <= k < |s| - 1 ==> s[..|s| - 1][k] == s[k];
    }
  }

  // ---------------------------------------------------------------------------
  // Imperative helpers: T.copy() and np.max(np.abs(A - B))
  // ---------------------------------------------------------------------------

  method CopyField(T: array2<real>) returns (C: array2<real>)
    ensures fresh(C)
    ensures C.Length0 == T.Length0 && C.Length1 == T.Length1
    ensures forall i, j :: 0 <= i < T.Length0 && 0 <= j < T.Length1 ==> C[i, j] == T[i, j]
  {
    C := new real[T.Length0, T.Length1];
    forall i, j | 0 <= i < T.Length0 && 0 <= j < T.Length1 {
      C[i, j] := T[i, j];
    }
  }

  /** The largest cell-wise change between two fields of the same non-empty shape. */
  method MaxAbsDiff(A: array2<real>, B: array2<real>) returns (e: real)
    requires A.Length0 == B.Length0 && A.Length1 == B.Length1
    requires A.Length0 >= 1 && A.Length1 >= 1
    ensures forall i, j :: 0 <= i < A.Length0 && 0 <= j < A.Length1 ==> Abs(A[i, j] - B[i, j]) <= e
    ensures exists i, j :: 0 <= i < A.Length0 && 0 <= j < A.Length1 && Abs(A[i, j] - B[i, j]) == e
  {
    var rows, cols := A.Length0, A.Length1;
    e := Abs(A[0, 0] - B[0, 0]);
    ghost var wi, wj := 0, 0;
    var i := 0;
    while i < rows
      invariant 0 <= i <= rows
      invariant 0 <= wi < rows && 0 <= wj < cols && Abs(A[wi, wj] - B[wi, wj]) == e
      invariant forall a, b :: 0 <= a < i && 0 <= b < cols ==> Abs(A[a, b] - B[a, b]) <= e
    {
      var j := 0;
      while j < cols
        invariant 0 <= j <= cols
        invariant 0 <= wi < rows && 0 <= wj < cols && Abs(A[wi, wj] - B[wi, wj]) == e
        invariant forall a, b :: 0 <= a < i && 0 <= b < cols ==> Abs(A[a, b] - B[a, b]) <= e
        invariant forall b :: 0 <= b < j ==> Abs(A[i, b] - B[i, b]) <= e
      {
        var d := Abs(A[i, j] - B[i, j]);
        if d > e {
          e := d;
          wi, wj := i, j;
        }
        j := j + 1;
      }
      i := i + 1;
    }
  }
}
