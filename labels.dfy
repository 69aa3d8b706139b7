/**
 * Location labels and the sorted order pandas gives them: the index of a
 * pivot table, the union index of an aligned sum and the result of
 * `sort_values` all list labels in ascending order, without repeats.
 */
module Labels {

  /** Strictly ascending, hence also free of repeats. */
  predicate StrictlyIncreasing(xs: seq<int>) {
    forall i, j :: 0 <= i < j < |xs| ==> xs[i] < xs[j]
  }

  /** `m` is the least label of `s`. */
  ghost predicate IsLeast(m: int, s: set<int>) {
    m in s && forall x :: x in s ==> m <= x
  }

  lemma NonEmptyHasLabel(s: set<int>)
    requires s != {}
    ensures exists y :: y in s
  {
    if forall y :: y !in s {
      assert false;
    }
  }

  /** A finite non-empty label set has a least label. */
  lemma {:induction false} MinExists(s: set<int>)
    requires s != {}
    ensures exists m :: IsLeast(m, s)
  {
    NonEmptyHasLabel(s);
    var y :| y in s;
    if s == {y} {
      assert IsLeast(y, s);
    } else {
      MinExists(s - {y});
      var m :| IsLeast(m, s - {y});
      var least := if y < m then y else m;
      forall x | x in s ensures least <= x {
        if x != y {
          assert x in s - {y};
        }
      }
      assert IsLeast(least, s);
    }
  }

  /** The least label of a non-empty label set. */
  function Min(s: set<int>): (m: int)
    requires s != {}
    ensures m in s && forall x :: x in s ==> m <= x
  {
    MinExists(s);
    var m :| m in s && forall x :: x in s ==> m <= x;
    m
  }

  /** The labels of `s` in ascending order: how pandas lays out an index it built. */
  function SortedIds(s: set<int>): (r: seq<int>)
    ensures StrictlyIncreasing(r)
    ensures forall x :: x in r ==> x in s
    ensures forall x :: x in s ==> x in r
    ensures |r| == |s|
    decreases s
  {
    if s == {} then []
    else
      var m := Min(s);
      var rest := SortedIds(s - {m});
      assert forall j :: 0 <= j < |rest| ==> m < rest[j] by {
        forall j | 0 <= j < |rest| ensures m < rest[j] {
          assert rest[j] in s - {m};
        }
      }
      [m] + rest
  }
}
