/**
 * The toll rate engine: `calculate_toll_rate` adds one toll column per
 * vehicle class to the caller's table (distance times the class's
 * coefficient), and `calculate_time_based_toll_rates` then walks the table
 * row by row and multiplies a row's tolls by the factor of every weekday
 * window that contains its start time, or by the weekend factor once.
 *
 * Both procedures change the caller's table in place, so the table is an
 * array of rows here and each procedure is a method over it. A row keeps its
 * toll columns in a map from vehicle class to amount, so "the column is not
 * there yet" can be told apart from "the column holds an amount".
 */
module TollEngine {

  /** The vehicle classes that get a toll column. */
  datatype Vehicle = Moto | Car | Rv | Bus | Truck

  /** The coefficient table of the base pricing: a positive rate, from 0.8 for a motorcycle to 3.6 for a truck. */
  function Rate(v: Vehicle): (r: real)
    ensures 0.8 <= r <= 3.6
  {
    match v
    case Moto => 0.8
    case Car => 1.2
    case Rv => 1.5
    case Bus => 2.2
    case Truck => 3.6
  }

  /** The vehicle classes in the order both procedures visit them. */
  const Vehicles: seq<Vehicle> := [Moto, Car, Rv, Bus, Truck]

  /** Microseconds in a day: `datetime.time` counts down to the microsecond. */
  const DayMicros: int := 86_400_000_000

  /** The day of the week as `weekday()` numbers it: Monday 0 to Sunday 6. */
  type Weekday = d: int | 0 <= d < 7

  /** A time of day in microseconds since midnight. */
  type TimeOfDay = t: int | 0 <= t < DayMicros

  /** The start time of a row, reduced to the two things the discounting reads. */
  datatype Timestamp = Timestamp(weekday: Weekday, timeOfDay: TimeOfDay)

  /** One row of the table: the edge, its start time and its toll columns so far. */
  datatype Row = Row(idStart: int, idEnd: int, distance: real, startTime: Timestamp, tolls: map<Vehicle, real>)

  /** The position of a class in `Vehicles`. */
  function Index(v: Vehicle): (n: nat)
    ensures n < |Vehicles| && Vehicles[n] == v
  {
    match v
    case Moto => 0
    case Car => 1
    case Rv => 2
    case Bus => 3
    case Truck => 4
  }

  /** No class is listed twice: position `n` holds `v` only at `v`'s own position. */
  lemma IndexUnique(v: Vehicle, n: int)
    requires 0 <= n < |Vehicles|
    ensures Vehicles[n] == v <==> n == Index(v)
  {
  }

  /** A row with a toll column for every class. */
  predicate HasTolls(row: Row) {
    forall v: Vehicle :: v in row.tolls
  }

  // ---------------------------------------------------------------- base pricing

  /** The assignment of one whole column for one row: the toll of `v` is distance times its rate. */
  function Price(row: Row, v: Vehicle): Row {
    row.(tolls := row.tolls[v := row.distance * Rate(v)])
  }

  /** A row after the columns of the first `n` classes have been assigned, in order. */
  function PriceFirst(row: Row, n: nat): Row
    requires n <= |Vehicles|
  {
    if n == 0 then row else Price(PriceFirst(row, n - 1), Vehicles[n - 1])
  }

  /** Assigning columns touches no field but the toll columns. */
  lemma {:induction false} PriceFirstFields(row: Row, n: nat)
    requires n <= |Vehicles|
    ensures PriceFirst(row, n).(tolls := row.tolls) == row
  {
    if n > 0 {
      PriceFirstFields(row, n - 1);
    }
  }

  /** The first `n` columns are set to distance times rate; the other columns are left alone. */
  lemma {:induction false} PriceFirstCell(row: Row, n: nat, v: Vehicle)
    requires n <= |Vehicles|
    ensures v in PriceFirst(row, n).tolls <==> v in row.tolls || Index(v) < n
    ensures Index(v) < n ==> PriceFirst(row, n).tolls[v] == row.distance * Rate(v)
    ensures v in row.tolls && Index(v) >= n ==> PriceFirst(row, n).tolls[v] == row.tolls[v]
  {
    if n > 0 {
      PriceFirstCell(row, n - 1, v);
      PriceFirstFields(row, n - 1);
      IndexUnique(v, n - 1);
    }
  }

  /**
   * A row after base pricing: every class has a toll equal to the distance
   * times its coefficient, and the rest of the row is as it was.
   */
  function WithBaseTolls(row: Row): (r: Row)
    ensures r.(tolls := row.tolls) == row
    ensures forall v :: v in r.tolls && r.tolls[v] == row.distance * Rate(v)
    ensures HasTolls(r)
  {
    var r := PriceFirst(row, |Vehicles|);
    PriceFirstFields(row, |Vehicles|);
    forall v ensures v in r.tolls && r.tolls[v] == row.distance * Rate(v) {
      PriceFirstCell(row, |Vehicles|, v);
    }
    r
  }

  /**
   * `calculate_toll_rate`: for each class in turn, assign the class's column
   * for the whole table at once.
   */
  method CalculateTollRate(a: array<Row>)
    modifies a
    ensures forall k :: 0 <= k < a.Length ==> a[k] == WithBaseTolls(old(a[k]))
  {
    var n := 0;
    while n < |Vehicles|
      invariant 0 <= n <= |Vehicles|
      invariant forall k :: 0 <= k < a.Length ==> a[k] == PriceFirst(old(a[k]), n)
    {
      var v := Vehicles[n];
      forall k | 0 <= k < a.Length {
        a[k] := Price(a[k], v);
      }
      n := n + 1;
    }
  }

  // ---------------------------------------------------------------- discounting

  /** A weekday window: closed on both ends. */
  datatype Window = Window(from: int, to: int, factor: real)

  /** 09:00:00 in microseconds. */
  const Nine: int := 32_400_000_000

  /** 10:00:00 in microseconds. */
  const Ten: int := 36_000_000_000

  /** 18:00:00 in microseconds. */
  const Eighteen: int := 64_800_000_000

  /** 23:59:59 in microseconds. */
  const LastSecond: int := 86_399_000_000

  /** The weekday windows in the order they are tried: morning, midday, evening. */
  const WeekdayWindows: seq<Window> := [Window(0, Ten, 0.8), Window(Ten, Eighteen, 1.2), Window(Eighteen, LastSecond, 0.8)]

  /** The factor applied to every toll of a Saturday or Sunday row. */
  const WeekendFactor: real := 0.7

  /** The window test: start <= time <= end. */
  predicate Contains(w: Window, t: int) {
    w.from <= t <= w.to
  }

  /** The in-place update of one toll cell: multiply it by `f`. */
  function Scale(row: Row, v: Vehicle, f: real): Row
    requires v in row.tolls
  {
    row.(tolls := row.tolls[v := row.tolls[v] * f])
  }

  /** A row after the cells of the first `n` classes have been multiplied by `f`, in order. */
  function ScaleFirst(row: Row, n: nat, f: real): (r: Row)
    requires n <= |Vehicles| && HasTolls(row)
    ensures HasTolls(r)
  {
    if n == 0 then row else Scale(ScaleFirst(row, n - 1, f), Vehicles[n - 1], f)
  }

  /** Multiplying cells touches no field but the toll columns. */
  lemma {:induction false} ScaleFirstFields(row: Row, n: nat, f: real)
    requires n <= |Vehicles| && HasTolls(row)
    ensures ScaleFirst(row, n, f).(tolls := row.tolls) == row
  {
    if n > 0 {
      ScaleFirstFields(row, n - 1, f);
    }
  }

  /** The cells of the first `n` classes are multiplied by `f` once; the others are left alone. */
  lemma {:induction false} ScaleFirstCell(row: Row, n: nat, f: real, v: Vehicle)
    requires n <= |Vehicles| && HasTolls(row)
    ensures ScaleFirst(row, n, f).tolls[v] == if Index(v) < n then row.tolls[v] * f else row.tolls[v]
  {
    if n > 0 {
      ScaleFirstCell(row, n - 1, f, v);
      IndexUnique(v, n - 1);
    }
  }

  /** A row whose every toll has been multiplied by `f`, the cells one class after another. */
  function Discounted(row: Row, f: real): (r: Row)
    requires HasTolls(row)
    ensures HasTolls(r)
  {
    ScaleFirst(row, |Vehicles|, f)
  }

  /** Discounting multiplies one toll by `f`. */
  lemma DiscountedCell(row: Row, f: real, v: Vehicle)
    requires HasTolls(row)
    ensures Discounted(row, f).tolls[v] == row.tolls[v] * f
  {
    ScaleFirstCell(row, |Vehicles|, f, v);
  }

  /** Discounting multiplies every toll by `f` and changes nothing else in the row. */
  lemma DiscountedTolls(row: Row, f: real)
    requires HasTolls(row)
    ensures Discounted(row, f).(tolls := row.tolls) == row
    ensures forall v :: Discounted(row, f).tolls[v] == row.tolls[v] * f
  {
    ScaleFirstFields(row, |Vehicles|, f);
    forall v ensures Discounted(row, f).tolls[v] == row.tolls[v] * f {
      DiscountedCell(row, f, v);
    }
  }

  /** A weekday row after the first `w` windows have been tried, in order. */
  function ApplyFirst(row: Row, w: nat): (r: Row)
    requires w <= |WeekdayWindows| && HasTolls(row)
    ensures HasTolls(r)
  {
    if w == 0 then row
    else
      var prev := ApplyFirst(row, w - 1);
      var window := WeekdayWindows[w - 1];
      if Contains(window, row.startTime.timeOfDay) then Discounted(prev, window.factor) else prev
  }

  /** One row as `calculate_time_based_toll_rates` leaves it. */
  function TimeAdjusted(row: Row): (r: Row)
    requires HasTolls(row)
    ensures HasTolls(r)
  {
    if row.startTime.weekday < 5 then ApplyFirst(row, |WeekdayWindows|)
    else Discounted(row, WeekendFactor)
  }

  /** The product of the factors of those of the first `w` windows that contain `t`. */
  function WindowProduct(t: int, w: nat): (r: real)
    requires w <= |WeekdayWindows|
    ensures 0.0 < r
  {
    if w == 0 then 1.0
    else WindowProduct(t, w - 1) * (if Contains(WeekdayWindows[w - 1], t) then WeekdayWindows[w - 1].factor else 1.0)
  }

  /** The factor a row's tolls are multiplied by, from its start time alone: one of five values. */
  function DayFactor(ts: Timestamp): (r: real)
    ensures r == 0.7 || r == 0.8 || r == 0.96 || r == 1.0 || r == 1.2
  {
    WeekdayFactor(ts.timeOfDay);
    if ts.weekday < 5 then WindowProduct(ts.timeOfDay, |WeekdayWindows|) else WeekendFactor
  }

  /** Trying windows touches no field but the toll columns. */
  lemma {:induction false} ApplyFirstFields(row: Row, w: nat)
    requires w <= |WeekdayWindows| && HasTolls(row)
    ensures ApplyFirst(row, w).(tolls := row.tolls) == row
  {
    if w > 0 {
      ApplyFirstFields(row, w - 1);
      ScaleFirstFields(ApplyFirst(row, w - 1), |Vehicles|, WeekdayWindows[w - 1].factor);
    }
  }

  /** (x * p) * f is x * (p * f), with the intermediate results named. */
  lemma ProductStep(x: real, p: real, f: real, y: real, z: real)
    requires y == x * p && z == y * f
    ensures z == x * (p * f)
  {
  }

  /** Trying window `w` after the first `w - 1` multiplies by that window's factor when it matches. */
  lemma ApplyFirstStep(row: Row, w: nat, v: Vehicle)
    requires 0 < w <= |WeekdayWindows| && HasTolls(row)
    requires ApplyFirst(row, w - 1).tolls[v] == row.tolls[v] * WindowProduct(row.startTime.timeOfDay, w - 1)
    ensures ApplyFirst(row, w).tolls[v] == row.tolls[v] * WindowProduct(row.startTime.timeOfDay, w)
  {
    var t := row.startTime.timeOfDay;
    var window := WeekdayWindows[w - 1];
    var prev := ApplyFirst(row, w - 1);
    var p := WindowProduct(t, w - 1);
    if Contains(window, t) {
      var f := window.factor;
      DiscountedCell(prev, f, v);
      ProductStep(row.tolls[v], p, f, prev.tolls[v], ApplyFirst(row, w).tolls[v]);
      assert WindowProduct(t, w) == p * f;
    } else {
      assert WindowProduct(t, w) == p * 1.0;
    }
  }

  /** Trying the first `w` windows multiplies a toll by the product of the matching factors. */
  lemma {:induction false} ApplyFirstCell(row: Row, w: nat, v: Vehicle)
    requires w <= |WeekdayWindows| && HasTolls(row)
    ensures ApplyFirst(row, w).tolls[v] == row.tolls[v] * WindowProduct(row.startTime.timeOfDay, w)
  {
    if w > 0 {
      ApplyFirstCell(row, w - 1, v);
      ApplyFirstStep(row, w, v);
    }
  }

  /** On a weekday every toll is multiplied by the product of the matching window factors. */
  lemma WeekdayTolls(row: Row, v: Vehicle)
    requires HasTolls(row) && row.startTime.weekday < 5
    ensures TimeAdjusted(row).tolls[v] == row.tolls[v] * DayFactor(row.startTime)
  {
    ApplyFirstCell(row, |WeekdayWindows|, v);
    assert TimeAdjusted(row) == ApplyFirst(row, |WeekdayWindows|);
    assert DayFactor(row.startTime) == WindowProduct(row.startTime.timeOfDay, |WeekdayWindows|);
  }

  /**
   * A row after discounting: every toll multiplied by the start time's day
   * factor, and nothing else in the row changed.
   */
  lemma TimeAdjustedTolls(row: Row)
    requires HasTolls(row)
    ensures TimeAdjusted(row).(tolls := row.tolls) == row
    ensures forall v :: TimeAdjusted(row).tolls[v] == row.tolls[v] * DayFactor(row.startTime)
  {
    if row.startTime.weekday < 5 {
      ApplyFirstFields(row, |WeekdayWindows|);
      forall v ensures TimeAdjusted(row).tolls[v] == row.tolls[v] * DayFactor(row.startTime) {
        WeekdayTolls(row, v);
      }
    } else {
      DiscountedTolls(row, WeekendFactor);
    }
  }

  /**
   * The weekday factor by time of day. The windows are closed and share
   * their ends, so exactly 10:00:00 and 18:00:00 get two factors; a time
   * after 23:59:59 is in no window and keeps the factor 1.
   */
  lemma WeekdayFactor(t: int)
    ensures WindowProduct(t, |WeekdayWindows|) ==
      if t < 0 then 1.0
      else if t < Ten then 0.8
      else if t == Ten then 0.8 * 1.2
      else if t < Eighteen then 1.2
      else if t == Eighteen then 1.2 * 0.8
      else if t <= LastSecond then 0.8
      else 1.0
  {
    assert WindowProduct(t, 0) == 1.0;
    var p1 := WindowProduct(t, 1);
    var p2 := WindowProduct(t, 2);
    assert p1 == if 0 <= t <= Ten then 0.8 else 1.0;
    assert p2 == p1 * (if Ten <= t <= Eighteen then 1.2 else 1.0);
    assert WindowProduct(t, 3) == p2 * (if Eighteen <= t <= LastSecond then 0.8 else 1.0);
  }

  /** Saturday and Sunday: one factor 0.7 whatever the time of day. */
  lemma WeekendFlat(ts: Timestamp)
    requires ts.weekday >= 5
    ensures DayFactor(ts) == 0.7
  {
  }

  /** The innermost loop: multiply the row's cell of each class, one class after another. */
  method ScaleRow(a: array<Row>, idx: int, f: real)
    requires 0 <= idx < a.Length && HasTolls(a[idx])
    modifies a
    ensures a[idx] == Discounted(old(a[idx]), f)
    ensures forall k :: 0 <= k < a.Length && k != idx ==> a[k] == old(a[k])
  {
    var row := a[idx];
    var n := 0;
    while n < |Vehicles|
      invariant 0 <= n <= |Vehicles|
      invariant a[idx] == ScaleFirst(row, n, f)
      invariant forall k :: 0 <= k < a.Length && k != idx ==> a[k] == old(a[k])
    {
      a[idx] := Scale(a[idx], Vehicles[n], f);
      n := n + 1;
    }
  }

  /**
   * The body of the row loop: try each weekday window in turn and scale the
   * tolls when the window contains the start time, or scale them once by
   * the weekend factor.
   */
  method AdjustRow(a: array<Row>, idx: int)
    requires 0 <= idx < a.Length && HasTolls(a[idx])
    modifies a
    ensures a[idx] == TimeAdjusted(old(a[idx]))
    ensures forall k :: 0 <= k < a.Length && k != idx ==> a[k] == old(a[k])
  {
    var row := a[idx];
    if row.startTime.weekday < 5 {
      var w := 0;
      while w < |WeekdayWindows|
        invariant 0 <= w <= |WeekdayWindows|
        invariant a[idx] == ApplyFirst(row, w)
        invariant forall k :: 0 <= k < a.Length && k != idx ==> a[k] == old(a[k])
      {
        var window := WeekdayWindows[w];
        if Contains(window, row.startTime.timeOfDay) {
          ScaleRow(a, idx, window.factor);
        }
        w := w + 1;
      }
    } else {
      ScaleRow(a, idx, WeekendFactor);
    }
  }

  /** `calculate_time_based_toll_rates`: every row adjusted by its own start time, in place. */
  method CalculateTimeBasedTollRates(a: array<Row>)
    requires forall k :: 0 <= k < a.Length ==> HasTolls(a[k])
    modifies a
    ensures forall k :: 0 <= k < a.Length ==> a[k] == TimeAdjusted(old(a[k]))
  {
    var idx := 0;
    while idx < a.Length
      invariant 0 <= idx <= a.Length
      invariant forall k :: 0 <= k < idx ==> HasTolls(old(a[k])) && a[k] == TimeAdjusted(old(a[k]))
      invariant forall k :: idx <= k < a.Length ==> a[k] == old(a[k])
    {
      AdjustRow(a, idx);
      idx := idx + 1;
    }
  }

  /**
   * A car edge of distance 10 starting on a Monday at 09:00:00: base toll
   * 12, then the morning factor 0.8, so 9.6.
   */
  lemma CarAtNineOnMonday(row: Row)
    requires row.distance == 10.0 && row.startTime == Timestamp(0, Nine)
    ensures WithBaseTolls(row).tolls[Car] == 12.0
    ensures TimeAdjusted(WithBaseTolls(row)).tolls[Car] == 9.6
  {
    TimeAdjustedTolls(WithBaseTolls(row));
    WeekdayFactor(Nine);
  }

  /** At exactly 10:00:00 on a weekday both the morning and the midday factor apply. */
  lemma TenOClockCompounds(row: Row)
    requires HasTolls(row) && row.startTime.weekday < 5 && row.startTime.timeOfDay == Ten
    ensures forall v :: TimeAdjusted(row).tolls[v] == row.tolls[v] * 0.96
  {
    TimeAdjustedTolls(row);
    WeekdayFactor(Ten);
  }
}
