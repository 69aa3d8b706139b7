/**
 * The threshold selector: `find_ids_within_ten_percentage_threshold` groups
 * the unrolled table by id_start, averages each group's distances, and keeps
 * the ids whose average lies in the closed band [0.9 * ref, 1.1 * ref], where
 * ref is the average of the reference id. The result has one (id_start,
 * average) row per kept id, ascending by id_start.
 *
 * Distances are `Option<real>` as in the matrix: pandas' mean skips NaN
 * cells, a group with no known distance averages to NaN, and every
 * comparison with NaN is false, so such an id is never kept. An id that does
 * not occur at all averages to NaN too, so an unknown reference selects
 * nothing rather than raising an error.
 */
module ThresholdSelector {
  import opened Wrappers
  import opened Labels
  import opened Unroller

  /** The unrolled table the selector reads. */
  type Table = seq<Edge<Option<real>>>

  /** One row of the result: an id and its average outgoing distance. */
  datatype AvgRow = AvgRow(idStart: int, distance: real)

  /** The sum of the known distances of the rows that start at `i`. */
  function KnownSum(es: Table, i: int): real {
    if es == [] then 0.0
    else (if es[0].idStart == i && es[0].distance.Some? then es[0].distance.value else 0.0)
         + KnownSum(es[1..], i)
  }

  /** How many rows start at `i` and have a known distance. */
  function KnownCount(es: Table, i: int): nat {
    if es == [] then 0
    else (if es[0].idStart == i && es[0].distance.Some? then 1 else 0) + KnownCount(es[1..], i)
  }

  /**
   * The group mean with NaN skipped: `None` when the group has no known
   * distance, otherwise the number that times the count gives the sum.
   */
  function Mean(es: Table, i: int): (r: Option<real>)
    ensures r.None? <==> KnownCount(es, i) == 0
    ensures r.Some? ==> r.value * KnownCount(es, i) as real == KnownSum(es, i)
  {
    if KnownCount(es, i) == 0 then None else Some(KnownSum(es, i) / KnownCount(es, i) as real)
  }

  /** The groups of `groupby('id_start')`. */
  function StartIds(es: Table): set<int> {
    set e | e in es :: e.idStart
  }

  /** The band filter: both comparisons hold, which needs both means known. */
  predicate InBand(mean: Option<real>, ref: Option<real>) {
    mean.Some? && ref.Some? && mean.value >= ref.value * 0.9 && mean.value <= ref.value * 1.1
  }

  /** Rows ascending by id_start, no id twice. */
  predicate AscendingIds(r: seq<AvgRow>) {
    forall j, k :: 0 <= j < k < |r| ==> r[j].idStart < r[k].idStart
  }

  /** The groups of `ids`, in that order, whose mean is in the band around `ref`. */
  function KeepInBand(es: Table, ids: seq<int>, ref: Option<real>): (r: seq<AvgRow>)
    ensures forall row :: row in r ==>
      (row.idStart in ids && InBand(Mean(es, row.idStart), ref) && Mean(es, row.idStart) == Some(row.distance))
    ensures forall i :: i in ids && InBand(Mean(es, i), ref) ==> AvgRow(i, Mean(es, i).value) in r
  {
    if ids == [] then []
    else if InBand(Mean(es, ids[0]), ref) then
      [AvgRow(ids[0], Mean(es, ids[0]).value)] + KeepInBand(es, ids[1..], ref)
    else KeepInBand(es, ids[1..], ref)
  }

  /** Filtering ascending ids keeps them ascending. */
  lemma {:induction false} KeepInBandAscending(es: Table, ids: seq<int>, ref: Option<real>)
    requires StrictlyIncreasing(ids)
    ensures AscendingIds(KeepInBand(es, ids, ref))
  {
    if ids != [] {
      KeepInBandAscending(es, ids[1..], ref);
      var rest := KeepInBand(es, ids[1..], ref);
      forall k | 0 <= k < |rest| ensures ids[0] < rest[k].idStart {
        assert rest[k] in rest;
      }
    }
  }

  /** A group with a known distance is one of the groups. */
  lemma {:induction false} CountedIsStart(es: Table, i: int)
    requires KnownCount(es, i) > 0
    ensures i in StartIds(es)
  {
    assert es != [];
    if es[0].idStart != i || es[0].distance.None? {
      CountedIsStart(es[1..], i);
      var e :| e in es[1..] && e.idStart == i;
      assert e in es;
    }
  }

  /**
   * The rows `find_ids_within_ten_percentage_threshold` returns: exactly the
   * ids whose mean lies in the closed band around the reference's mean, each
   * with its mean, ascending by id.
   */
  function Select(es: Table, referenceId: int): (r: seq<AvgRow>)
    ensures AscendingIds(r)
    ensures forall row :: row in r ==>
      (InBand(Mean(es, row.idStart), Mean(es, referenceId)) && Mean(es, row.idStart) == Some(row.distance))
    ensures forall i :: InBand(Mean(es, i), Mean(es, referenceId)) ==> AvgRow(i, Mean(es, i).value) in r
  {
    var ref := Mean(es, referenceId);
    var ids := SortedIds(StartIds(es));
    KeepInBandAscending(es, ids, ref);
    forall i | InBand(Mean(es, i), ref) ensures i in ids {
      CountedIsStart(es, i);
    }
    KeepInBand(es, ids, ref)
  }

  /** A group has a mean exactly when one of its rows has a known distance. */
  lemma {:induction false} MeanKnownIff(es: Table, i: int)
    ensures Mean(es, i).Some? <==> exists e :: e in es && e.idStart == i && e.distance.Some?
  {
    if es != [] {
      MeanKnownIff(es[1..], i);
      if exists e :: e in es && e.idStart == i && e.distance.Some? {
        var e :| e in es && e.idStart == i && e.distance.Some?;
        if e != es[0] {
          assert e in es[1..];
        }
      }
      if exists e :: e in es[1..] && e.idStart == i && e.distance.Some? {
        var e :| e in es[1..] && e.idStart == i && e.distance.Some?;
        assert e in es;
      }
    }
  }

  /** A sum of `c` terms between `lo` and `hi`, divided by `c`, lies between them too. */
  lemma QuotientBounds(c: real, s: real, lo: real, hi: real)
    requires c > 0.0 && c * lo <= s <= c * hi
    ensures lo <= s / c <= hi
  {
    var q := s / c;
    assert q * c == s;
  }

  /** Known distances of at least `lo` sum to at least count * lo. */
  lemma {:induction false} KnownSumAtLeast(es: Table, i: int, lo: real)
    requires forall e :: e in es && e.idStart == i && e.distance.Some? ==> lo <= e.distance.value
    ensures KnownCount(es, i) as real * lo <= KnownSum(es, i)
  {
    if es != [] {
      var e := es[0];
      assert e in es;
      forall f | f in es[1..] && f.idStart == i && f.distance.Some? ensures lo <= f.distance.value {
        assert f in es;
      }
      KnownSumAtLeast(es[1..], i, lo);
      var c := KnownCount(es[1..], i) as real;
      if e.idStart == i && e.distance.Some? {
        assert (c + 1.0) * lo == c * lo + lo;
      }
    }
  }

  /** Known distances of at most `hi` sum to at most count * hi. */
  lemma {:induction false} KnownSumAtMost(es: Table, i: int, hi: real)
    requires forall e :: e in es && e.idStart == i && e.distance.Some? ==> e.distance.value <= hi
    ensures KnownSum(es, i) <= KnownCount(es, i) as real * hi
  {
    if es != [] {
      var e := es[0];
      assert e in es;
      forall f | f in es[1..] && f.idStart == i && f.distance.Some? ensures f.distance.value <= hi {
        assert f in es;
      }
      KnownSumAtMost(es[1..], i, hi);
      var c := KnownCount(es[1..], i) as real;
      if e.idStart == i && e.distance.Some? {
        assert (c + 1.0) * hi == c * hi + hi;
      }
    }
  }

  /** A group's mean lies between the least and the greatest of its known distances. */
  lemma MeanBounds(es: Table, i: int, lo: real, hi: real)
    requires forall e :: e in es && e.idStart == i && e.distance.Some? ==> lo <= e.distance.value <= hi
    requires Mean(es, i).Some?
    ensures lo <= Mean(es, i).value <= hi
  {
    KnownSumAtLeast(es, i, lo);
    KnownSumAtMost(es, i, hi);
    QuotientBounds(KnownCount(es, i) as real, KnownSum(es, i), lo, hi);
  }

  /** A reference with a known, non-negative mean selects itself. */
  lemma ReferenceSelected(es: Table, referenceId: int)
    requires Mean(es, referenceId).Some? && Mean(es, referenceId).value >= 0.0
    ensures AvgRow(referenceId, Mean(es, referenceId).value) in Select(es, referenceId)
  {
    var x := Mean(es, referenceId).value;
    assert x * 0.9 <= x <= x * 1.1;
  }

  /** When no mean is in the band, nothing is kept. */
  lemma {:induction false} NothingInBand(es: Table, ids: seq<int>, ref: Option<real>)
    requires forall i :: !InBand(Mean(es, i), ref)
    ensures KeepInBand(es, ids, ref) == []
  {
    if ids != [] {
      NothingInBand(es, ids[1..], ref);
    }
  }

  /** A reference without a known mean (absent, or only NaN distances) selects nothing. */
  lemma UnknownReferenceSelectsNothing(es: Table, referenceId: int)
    requires Mean(es, referenceId).None?
    ensures Select(es, referenceId) == []
  {
    NothingInBand(es, SortedIds(StartIds(es)), Mean(es, referenceId));
  }

  /** A negative reference mean makes the band empty: 0.9 * ref lies above 1.1 * ref. */
  lemma NegativeReferenceSelectsNothing(es: Table, referenceId: int)
    requires Mean(es, referenceId).Some? && Mean(es, referenceId).value < 0.0
    ensures Select(es, referenceId) == []
  {
    NothingInBand(es, SortedIds(StartIds(es)), Mean(es, referenceId));
  }

  /** Both ends of the band are inside it: a mean of exactly 0.9 * ref or 1.1 * ref is kept. */
  lemma BandEndsIncluded(es: Table, referenceId: int, i: int)
    requires Mean(es, referenceId).Some? && Mean(es, referenceId).value >= 0.0
    requires Mean(es, i) == Some(Mean(es, referenceId).value * 0.9)
          || Mean(es, i) == Some(Mean(es, referenceId).value * 1.1)
    ensures AvgRow(i, Mean(es, i).value) in Select(es, referenceId)
  {
  }

  /** The band around a zero reference is the single point zero. */
  lemma ZeroBand(mean: Option<real>)
    ensures InBand(mean, Some(0.0)) <==> mean == Some(0.0)
  {
  }

  /** With a zero reference mean only the ids with a zero mean are kept. */
  lemma ZeroReferenceKeepsZeros(es: Table, referenceId: int, i: int)
    requires Mean(es, referenceId) == Some(0.0)
    ensures (exists row :: row in Select(es, referenceId) && row.idStart == i) <==> Mean(es, i) == Some(0.0)
  {
    var r := Select(es, referenceId);
    ZeroBand(Mean(es, i));
    if exists row :: row in r && row.idStart == i {
      var row :| row in r && row.idStart == i;
      assert InBand(Mean(es, i), Some(0.0));
    }
    if Mean(es, i) == Some(0.0) {
      assert AvgRow(i, 0.0) in r;
    }
  }
}
