/**
 * The matrix unroller: `unroll_distance_matrix` melts a square frame back
 * into one (id_start, id_end, distance) row per cell, drops the diagonal
 * and sorts by (id_start, id_end).
 *
 * The model builds the sorted list directly, row label by row label and
 * within a row column label by column label, both ascending. The cell type
 * is left open, so a frame with NaN cells unrolls the same way.
 */
module Unroller {
  import opened Labels
  import opened Frames

  /** One row of the unrolled table. */
  datatype Edge<V> = Edge(idStart: int, idEnd: int, distance: V)

  /** The order `sort_values(by=['id_start', 'id_end'])` puts rows in. */
  predicate Before<V>(e: Edge<V>, f: Edge<V>) {
    e.idStart < f.idStart || (e.idStart == f.idStart && e.idEnd < f.idEnd)
  }

  /** Strictly ascending by (id_start, id_end): sorted, and no ordered pair twice. */
  predicate StrictlySorted<V>(es: seq<Edge<V>>) {
    forall i, j :: 0 <= i < j < |es| ==> Before(es[i], es[j])
  }

  /** The melted row of label `i`: one edge per column label other than `i`. */
  function RowEdges<V>(m: Matrix<V>, i: int, cols: seq<int>): (r: seq<Edge<V>>)
    requires i in m && forall j :: j in cols ==> j in m[i]
    ensures forall e :: e in r ==>
      (e.idStart == i && e.idEnd in cols && e.idEnd != i && e.distance == m[i][e.idEnd])
    ensures forall j :: j in cols && j != i ==> Edge(i, j, m[i][j]) in r
  {
    if cols == [] then []
    else if cols[0] == i then RowEdges(m, i, cols[1..])
    else [Edge(i, cols[0], m[i][cols[0]])] + RowEdges(m, i, cols[1..])
  }

  /** A row melted from ascending column labels is strictly ascending. */
  lemma {:induction false} RowEdgesSorted<V>(m: Matrix<V>, i: int, cols: seq<int>)
    requires i in m && forall j :: j in cols ==> j in m[i]
    requires StrictlyIncreasing(cols)
    ensures StrictlySorted(RowEdges(m, i, cols))
  {
    if cols != [] {
      RowEdgesSorted(m, i, cols[1..]);
      var r := RowEdges(m, i, cols);
      var rest := RowEdges(m, i, cols[1..]);
      if cols[0] != i {
        forall k | 0 < k < |r| ensures Before(r[0], r[k]) {
          assert r[k] == rest[k - 1];
          assert rest[k - 1] in rest;
        }
      }
    }
  }

  /** A row melted from distinct column labels drops exactly the diagonal cell. */
  lemma {:induction false} RowEdgesLength<V>(m: Matrix<V>, i: int, cols: seq<int>)
    requires i in m && forall j :: j in cols ==> j in m[i]
    requires StrictlyIncreasing(cols)
    ensures |RowEdges(m, i, cols)| == if i in cols then |cols| - 1 else |cols|
  {
    if cols != [] {
      RowEdgesLength(m, i, cols[1..]);
      if cols[0] == i {
        assert i !in cols[1..];
      } else {
        assert i in cols <==> i in cols[1..];
      }
    }
  }

  /** The melted rows of the labels in `rows`, one after another. */
  function Rows<V>(m: Matrix<V>, rows: seq<int>, cols: seq<int>): (r: seq<Edge<V>>)
    requires forall i :: i in rows ==> i in m
    requires forall i, j :: i in rows && j in cols ==> j in m[i]
    ensures forall e :: e in r ==>
      (e.idStart in rows && e.idEnd in cols && e.idStart != e.idEnd
       && e.distance == m[e.idStart][e.idEnd])
    ensures forall i, j :: i in rows && j in cols && i != j ==> Edge(i, j, m[i][j]) in r
  {
    if rows == [] then []
    else RowEdges(m, rows[0], cols) + Rows(m, rows[1..], cols)
  }

  /** Rows melted in ascending label order give a strictly ascending table. */
  lemma {:induction false} RowsSorted<V>(m: Matrix<V>, rows: seq<int>, cols: seq<int>)
    requires forall i :: i in rows ==> i in m
    requires forall i, j :: i in rows && j in cols ==> j in m[i]
    requires StrictlyIncreasing(rows) && StrictlyIncreasing(cols)
    ensures StrictlySorted(Rows(m, rows, cols))
  {
    if rows != [] {
      var head := RowEdges(m, rows[0], cols);
      var rest := Rows(m, rows[1..], cols);
      RowEdgesSorted(m, rows[0], cols);
      RowsSorted(m, rows[1..], cols);
      var r := head + rest;
      forall x, y | 0 <= x < |head| <= y < |r| ensures Before(r[x], r[y]) {
        assert r[x] == head[x] && head[x] in head;
        assert r[y] == rest[y - |head|] && rest[y - |head|] in rest;
      }
    }
  }

  /** The counting step: N - 1 more edges on top of K rows of N - 1. */
  lemma RowCountStep(k: int, n: int)
    ensures (n - 1) + (k * n - k) == (k + 1) * n - (k + 1)
  {
  }

  /** Each of the N row labels contributes N - 1 edges. */
  lemma {:induction false} RowsLength<V>(m: Matrix<V>, rows: seq<int>, cols: seq<int>)
    requires forall i :: i in rows ==> i in m
    requires forall i, j :: i in rows && j in cols ==> j in m[i]
    requires StrictlyIncreasing(cols) && forall i :: i in rows ==> i in cols
    ensures |Rows(m, rows, cols)| == |rows| * |cols| - |rows|
  {
    if rows != [] {
      RowEdgesLength(m, rows[0], cols);
      RowsLength(m, rows[1..], cols);
      assert rows[0] in cols;
      RowCountStep(|rows| - 1, |cols|);
    }
  }

  /**
   * The unrolled table of a square frame: every ordered pair of distinct
   * labels once, with its cell, strictly ascending by (id_start, id_end),
   * N * N - N rows for N labels.
   */
  function Unroll<V>(m: Matrix<V>): (r: seq<Edge<V>>)
    requires Square(m)
    ensures forall e :: e in r ==>
      (e.idStart in m && e.idEnd in m && e.idStart != e.idEnd && e.distance == m[e.idStart][e.idEnd])
    ensures forall a, b :: a in m && b in m && a != b ==> Edge(a, b, m[a][b]) in r
    ensures StrictlySorted(r)
    ensures |r| == |m| * |m| - |m|
  {
    var ids := SortedIds(m.Keys);
    assert forall i :: i in ids <==> i in m;
    assert forall i, j :: i in ids && j in ids ==> j in m[i];
    RowsSorted(m, ids, ids);
    RowsLength(m, ids, ids);
    var n := |ids|;
    assert n == |m|;
    Rows(m, ids, ids)
  }
}
