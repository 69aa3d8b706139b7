/**
 * The distance-graph aggregator: `calculate_distance_matrix` turns raw
 * (start_location, end_location, distance) records into a square frame
 * indexed by location on both axes.
 *
 * The source pivots the records (duplicates summed, absent cells 0), adds
 * the pivot to its own transpose with pandas label alignment, and then
 * zeroes every diagonal cell in a loop. Label alignment leaves a cell NaN
 * unless both frames have it; `None` is that NaN here.
 */
module Aggregator {
  import opened Wrappers
  import opened Labels
  import opened Frames

  /** One row of the raw input table. */
  datatype Record = Record(startLoc: int, endLoc: int, distance: real)

  /** The labels of the pivot's index: every start location. */
  function Starts(rs: seq<Record>): set<int> {
    set r | r in rs :: r.startLoc
  }

  /** The labels of the pivot's columns: every end location. */
  function Ends(rs: seq<Record>): set<int> {
    set r | r in rs :: r.endLoc
  }

  /** Every record has a non-negative distance. */
  predicate NonNegative(rs: seq<Record>) {
    forall r :: r in rs ==> r.distance >= 0.0
  }

  /** The sum of the distances of all records from `a` to `b` (0 when there are none). */
  function DirectedSum(rs: seq<Record>, a: int, b: int): (s: real)
    ensures NonNegative(rs) ==> s >= 0.0
  {
    if rs == [] then 0.0
    else (if rs[0].startLoc == a && rs[0].endLoc == b then rs[0].distance else 0.0)
         + DirectedSum(rs[1..], a, b)
  }

  /** The pivot table after `fillna(0)`: index Starts, columns Ends, duplicates summed. */
  function Pivot(rs: seq<Record>): (p: Matrix<real>)
    ensures forall a :: a in p <==> a in Starts(rs)
    ensures HasColumns(p, Ends(rs))
    ensures forall a, b :: a in p && b in p[a] ==> p[a][b] == DirectedSum(rs, a, b)
  {
    map a | a in Starts(rs) :: map b | b in Ends(rs) :: DirectedSum(rs, a, b)
  }

  /**
   * One cell of a frame plus its transpose under label alignment: a number
   * only where both the frame and its transpose have the cell.
   */
  function AlignedCell(p: Matrix<real>, cols: set<int>, a: int, b: int): (r: Option<real>)
    requires HasColumns(p, cols)
    ensures r.Some? <==> (a in p && b in cols) && (b in p && a in cols)
    ensures r.Some? ==> r.value == p[a][b] + p[b][a]
  {
    if a in p && b in cols && b in p && a in cols then Some(p[a][b] + p[b][a]) else None
  }

  /**
   * A frame plus its transpose: both are re-indexed on the union of the row
   * and column labels before their cells are added.
   */
  function PlusTranspose(p: Matrix<real>, cols: set<int>): (t: Matrix<Option<real>>)
    requires HasColumns(p, cols)
    ensures forall a :: a in t <==> a in p || a in cols
    ensures Square(t)
    ensures forall a, b :: a in t && b in t ==> t[a][b] == AlignedCell(p, cols, a, b)
    ensures forall a, b :: a in t && b in t ==> t[a][b] == t[b][a]
  {
    var ids := p.Keys + cols;
    map a | a in ids :: map b | b in ids :: AlignedCell(p, cols, a, b)
  }

  /** The frame with every diagonal cell overwritten by 0. */
  function ZeroDiagonal(t: Matrix<Option<real>>): (z: Matrix<Option<real>>)
    requires Square(t)
    ensures forall a :: a in z <==> a in t
    ensures Square(z)
    ensures forall a :: a in z ==> z[a][a] == Some(0.0)
    ensures forall a, b :: a in z && b in z && a != b ==> z[a][b] == t[a][b]
  {
    map a | a in t :: map b | b in t[a] :: if a == b then Some(0.0) else t[a][b]
  }

  /** The frame `calculate_distance_matrix` returns. */
  function DistanceMatrix(rs: seq<Record>): (m: Matrix<Option<real>>)
    ensures forall a :: a in m <==> a in Starts(rs) || a in Ends(rs)
    ensures Square(m)
    ensures forall a :: a in m ==> m[a][a] == Some(0.0)
    ensures forall a, b :: a in m && b in m ==> m[a][b] == m[b][a]
  {
    ZeroDiagonal(PlusTranspose(Pivot(rs), Ends(rs)))
  }

  /** The aligned sum after the loop has zeroed the diagonal cells of the rows in `done`. */
  function PartlyZeroed(t: Matrix<Option<real>>, done: set<int>): Matrix<Option<real>> {
    map a | a in t :: map b | b in t[a] :: if a == b && a in done then Some(0.0) else t[a][b]
  }

  /** Before the loop nothing has been zeroed. */
  lemma NoneZeroed(t: Matrix<Option<real>>)
    ensures PartlyZeroed(t, {}) == t
  {
    MatrixEquality(PartlyZeroed(t, {}), t);
  }

  /** One more pass of the loop: zeroing the cell (idx, idx) moves idx into `done`. */
  lemma ZeroOneMore(t: Matrix<Option<real>>, done: set<int>, idx: int)
    requires idx in t && idx in t[idx]
    ensures PartlyZeroed(t, done + {idx})
         == var m := PartlyZeroed(t, done); m[idx := m[idx][idx := Some(0.0)]]
  {
    var m := PartlyZeroed(t, done);
    MatrixEquality(PartlyZeroed(t, done + {idx}), m[idx := m[idx][idx := Some(0.0)]]);
  }

  /** After the loop every row has been visited, so every diagonal cell is 0. */
  lemma AllZeroed(t: Matrix<Option<real>>, done: set<int>)
    requires Square(t)
    requires forall a :: a in t ==> a in done
    ensures PartlyZeroed(t, done) == ZeroDiagonal(t)
  {
    MatrixEquality(PartlyZeroed(t, done), ZeroDiagonal(t));
  }

  /**
   * The procedure itself: build the aligned sum, then walk the index and
   * overwrite each diagonal cell with 0.
   */
  method CalculateDistanceMatrix(rs: seq<Record>) returns (m: Matrix<Option<real>>)
    ensures m == DistanceMatrix(rs)
  {
    var t := PlusTranspose(Pivot(rs), Ends(rs));
    m := t;
    var todo, done := t.Keys, {};
    NoneZeroed(t);
    while todo != {}
      invariant forall a :: a in todo ==> a in t
      invariant forall a :: a in t ==> a in todo || a in done
      invariant m == PartlyZeroed(t, done)
      decreases todo
    {
      var idx :| idx in todo;
      ZeroOneMore(t, done, idx);
      m := m[idx := m[idx][idx := Some(0.0)]];
      todo, done := todo - {idx}, done + {idx};
    }
    AllZeroed(t, done);
  }

  /** Adding one more record for a pair adds its distance to that pair's sum. */
  lemma {:induction false} DirectedSumAppend(rs: seq<Record>, r: Record, a: int, b: int)
    ensures DirectedSum(rs + [r], a, b)
         == DirectedSum(rs, a, b) + (if r.startLoc == a && r.endLoc == b then r.distance else 0.0)
  {
    if rs != [] {
      assert (rs + [r])[1..] == rs[1..] + [r];
      DirectedSumAppend(rs[1..], r, a, b);
    }
  }

  /** A pair with no records sums to 0: the `fillna(0)` after the pivot and the empty sum agree. */
  lemma {:induction false} DirectedSumAbsent(rs: seq<Record>, a: int, b: int)
    requires forall r :: r in rs ==> r.startLoc != a || r.endLoc != b
    ensures DirectedSum(rs, a, b) == 0.0
  {
    if rs != [] {
      assert rs[0] in rs;
      DirectedSumAbsent(rs[1..], a, b);
    }
  }

  /** Off the diagonal, the zeroing loop leaves the aligned sum's cell as it was. */
  lemma OffDiagonalIsAligned(rs: seq<Record>, a: int, b: int)
    requires a in Starts(rs) + Ends(rs) && b in Starts(rs) + Ends(rs) && a != b
    ensures DistanceMatrix(rs)[a][b] == AlignedCell(Pivot(rs), Ends(rs), a, b)
  {
    var t := PlusTranspose(Pivot(rs), Ends(rs));
    assert a in t && b in t;
  }

  /** Where both locations are start and end labels, the aligned cell is the two-way sum. */
  lemma AlignedPivotCellPresent(rs: seq<Record>, a: int, b: int)
    requires a in Starts(rs) * Ends(rs) && b in Starts(rs) * Ends(rs)
    ensures AlignedCell(Pivot(rs), Ends(rs), a, b).Some?
    ensures AlignedCell(Pivot(rs), Ends(rs), a, b).value == DirectedSum(rs, a, b) + DirectedSum(rs, b, a)
  {
  }

  /** Elsewhere label alignment leaves the cell NaN. */
  lemma AlignedPivotCellMissing(rs: seq<Record>, a: int, b: int)
    requires !(a in Starts(rs) * Ends(rs) && b in Starts(rs) * Ends(rs))
    ensures AlignedCell(Pivot(rs), Ends(rs), a, b) == None
  {
  }

  /**
   * An off-diagonal cell: a number exactly when both locations occur as a
   * start and as an end, and then the a-to-b sum plus the b-to-a sum.
   */
  lemma OffDiagonalCell(rs: seq<Record>, a: int, b: int)
    requires a in Starts(rs) + Ends(rs) && b in Starts(rs) + Ends(rs) && a != b
    ensures DistanceMatrix(rs)[a][b].Some? <==> a in Starts(rs) * Ends(rs) && b in Starts(rs) * Ends(rs)
    ensures DistanceMatrix(rs)[a][b].Some? ==>
      DistanceMatrix(rs)[a][b].value == DirectedSum(rs, a, b) + DirectedSum(rs, b, a)
  {
    OffDiagonalIsAligned(rs, a, b);
    if a in Starts(rs) * Ends(rs) && b in Starts(rs) * Ends(rs) {
      AlignedPivotCellPresent(rs, a, b);
    } else {
      AlignedPivotCellMissing(rs, a, b);
    }
  }

  /** When every start is also an end and vice versa, no cell is NaN. */
  lemma SameLabelsNoMissingCell(rs: seq<Record>, a: int, b: int)
    requires Starts(rs) == Ends(rs)
    requires a in Starts(rs) && b in Starts(rs)
    ensures DistanceMatrix(rs)[a][b].Some?
  {
  }

  /** The records 1 -> 2 (10), 2 -> 1 (10) and 1 -> 3 (5). */
  predicate IsScenario(rs: seq<Record>) {
    rs == [Record(1, 2, 10.0), Record(2, 1, 10.0), Record(1, 3, 5.0)]
  }

  /** Location 3 is an end but never a start; 1 and 2 are both. */
  lemma ScenarioLabels(rs: seq<Record>)
    requires IsScenario(rs)
    ensures forall a :: a in Starts(rs) <==> a == 1 || a == 2
    ensures forall a :: a in Ends(rs) <==> a == 1 || a == 2 || a == 3
  {
    assert rs[0] in rs && rs[1] in rs && rs[2] in rs;
    forall a | a in Starts(rs) ensures a == 1 || a == 2 {
      var r :| r in rs && r.startLoc == a;
    }
    forall a | a in Ends(rs) ensures a == 1 || a == 2 || a == 3 {
      var r :| r in rs && r.endLoc == a;
    }
  }

  /** One record each way between 1 and 2. */
  lemma ScenarioSums(rs: seq<Record>)
    requires IsScenario(rs)
    ensures DirectedSum(rs, 1, 2) == 10.0 && DirectedSum(rs, 2, 1) == 10.0
  {
    var r0, r1, r2 := rs[0], rs[1], rs[2];
    assert rs[1..] == [r1, r2] && rs[1..][1..] == [r2] && rs[1..][1..][1..] == [];
    assert DirectedSum([r2], 1, 2) == 0.0 && DirectedSum([r2], 2, 1) == 0.0;
    assert DirectedSum([r1, r2], 1, 2) == 0.0 && DirectedSum([r1, r2], 2, 1) == 10.0;
  }

  /** The matrix of the three records has the labels 1, 2 and 3. */
  lemma ScenarioMatrixLabels(rs: seq<Record>)
    requires IsScenario(rs)
    ensures forall a :: a in DistanceMatrix(rs) <==> a == 1 || a == 2 || a == 3
  {
    ScenarioLabels(rs);
  }

  /** The pair 1, 2 sums both directions: 10 + 10. */
  lemma ScenarioPairSummed(rs: seq<Record>)
    requires IsScenario(rs)
    ensures 1 in DistanceMatrix(rs) && 2 in DistanceMatrix(rs)
    ensures DistanceMatrix(rs)[1][2] == Some(20.0)
  {
    ScenarioLabels(rs);
    OffDiagonalCell(rs, 1, 2);
    ScenarioSums(rs);
  }

  /** Location 3 is never a start, so label alignment leaves its off-diagonal cells NaN. */
  lemma ScenarioNeverStartIsMissing(rs: seq<Record>, b: int)
    requires IsScenario(rs) && (b == 1 || b == 2)
    ensures 3 in DistanceMatrix(rs) && b in DistanceMatrix(rs)
    ensures DistanceMatrix(rs)[3][b] == None && DistanceMatrix(rs)[b][3] == None
  {
    ScenarioLabels(rs);
    OffDiagonalCell(rs, 3, b);
    OffDiagonalCell(rs, b, 3);
  }
}
