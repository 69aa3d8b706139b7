/** Labelled two-dimensional frames: the shape every stage of the pipeline passes on. */
module Frames {

  /**
   * A labelled frame as a map from row label to row, each row a map from
   * column label to cell.
   */
  type Matrix<V> = map<int, map<int, V>>

  /** Every row has exactly the given column labels. */
  ghost predicate HasColumns<V>(m: Matrix<V>, cols: set<int>) {
    forall a, b :: a in m ==> (b in m[a] <==> b in cols)
  }

  /** The index and the columns are the same labels. */
  ghost predicate Square<V>(m: Matrix<V>) {
    forall a, b :: a in m ==> (b in m[a] <==> b in m)
  }

  /** Two rows with the same labels and the same cells are the same row. */
  lemma RowEquality<V>(r: map<int, V>, s: map<int, V>)
    requires forall b :: b in r <==> b in s
    requires forall b :: b in r ==> r[b] == s[b]
    ensures r == s
  {
    forall b | b in r ensures b in s && r[b] == s[b] {}
    forall b | b in s ensures b in r {}
    assert r.Keys == s.Keys;
  }

  /** Two frames with the same labels and the same cells are the same frame. */
  lemma MatrixEquality<V>(m: Matrix<V>, z: Matrix<V>)
    requires forall a :: a in m <==> a in z
    requires forall a, b :: a in m ==> (b in m[a] <==> b in z[a])
    requires forall a, b :: a in m && b in m[a] ==> m[a][b] == z[a][b]
    ensures m == z
  {
    forall a | a in m ensures a in z && m[a] == z[a] {
      RowEquality(m[a], z[a]);
    }
    forall a | a in z ensures a in m {}
    assert m.Keys == z.Keys;
  }
}
