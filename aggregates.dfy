/** The four cached reductions the charts are drawn from. */
module Aggregates {
  import opened Wrappers
  import opened Calendar
  import opened Cleaner
  import opened Enricher
  import opened Tally

  // ---- Top pickup zones ----

  type ZoneKey = (string, string)

  const TopZoneCount := 10

  /** The (zone, borough) group key of each row; rows with a null zone or borough have none. */
  function ZoneKeys(view: seq<EnrichedTrip>): seq<ZoneKey> {
    if view == [] then []
    else
      var e := view[0];
      (if e.pickupZone.Some? && e.pickupBorough.Some? then [(e.pickupZone.value, e.pickupBorough.value)] else [])
      + ZoneKeys(view[1..])
  }

  /** The number of rows picked up in zone `z` of borough `b`. */
  function RowsInZone(view: seq<EnrichedTrip>, z: string, b: string): nat {
    if view == [] then 0
    else (if view[0].pickupZone == Some(z) && view[0].pickupBorough == Some(b) then 1 else 0)
         + RowsInZone(view[1..], z, b)
  }

  lemma {:induction false} ZoneKeysCount(view: seq<EnrichedTrip>, z: string, b: string)
    ensures multiset(ZoneKeys(view))[(z, b)] == RowsInZone(view, z, b)
  {
    if view != [] {
      ZoneKeysCount(view[1..], z, b);
    }
  }

  /**
   * `agg_top10_zones`: at most ten (zone, borough) groups, largest trip count
   * first, each with the number of rows in it; a group is left out only when
   * ten are shown, and then none shown has a smaller count.
   */
  function TopZones(view: seq<EnrichedTrip>): (r: seq<Entry<ZoneKey>>)
    ensures |r| <= TopZoneCount
    ensures SortedByCount(r)
    ensures UniqueKeys(r)
    ensures forall e :: e in r ==> e.count == RowsInZone(view, e.key.0, e.key.1) && e.count > 0
    ensures forall z, b :: RowsInZone(view, z, b) > 0 && (z, b) !in Keys(r) ==>
              |r| == TopZoneCount && forall e :: e in r ==> RowsInZone(view, z, b) <= e.count
  {
    var keys := ZoneKeys(view);
    var r := TopCounts(keys, TopZoneCount);
    forall e | e in r ensures e.count == RowsInZone(view, e.key.0, e.key.1) {
      ZoneKeysCount(view, e.key.0, e.key.1);
    }
    forall z, b | RowsInZone(view, z, b) > 0 && (z, b) !in Keys(r)
      ensures |r| == TopZoneCount && forall e :: e in r ==> RowsInZone(view, z, b) <= e.count
    {
      ZoneKeysCount(view, z, b);
      assert (z, b) in multiset(keys);
    }
    r
  }

  // ---- Mean fare per hour ----

  datatype HourlyFare = HourlyFare(hour: Hour, meanFare: real)

  function Sum(xs: seq<real>): real {
    if xs == [] then 0.0 else xs[0] + Sum(xs[1..])
  }

  /** `.mean()`. */
  function Mean(xs: seq<real>): real
    requires |xs| > 0
  {
    Sum(xs) / |xs| as real
  }

  /** The mean, counted once per value, gives back the sum. */
  lemma MeanTimesCount(xs: seq<real>)
    requires |xs| > 0
    ensures Mean(xs) * |xs| as real == Sum(xs)
  {
  }

  /** `mean` is the average of `xs`: taken once per value, it gives back their sum. */
  predicate IsMeanOf(mean: real, xs: seq<real>) {
    |xs| > 0 && mean * |xs| as real == Sum(xs)
  }

  lemma MeanIsMeanOf(xs: seq<real>)
    requires |xs| > 0
    ensures IsMeanOf(Mean(xs), xs)
  {
    MeanTimesCount(xs);
  }

  /** Some row of the view was picked up in hour `h`. */
  predicate HourOccurs(view: seq<EnrichedTrip>, h: Hour) {
    view != [] && (view[0].trip.pickupHour == h || HourOccurs(view[1..], h))
  }

  lemma {:induction false} HourOccursIff(view: seq<EnrichedTrip>, h: Hour)
    ensures HourOccurs(view, h) <==> exists e :: e in view && e.trip.pickupHour == h
  {
    if view != [] {
      HourOccursIff(view[1..], h);
      assert view == [view[0]] + view[1..];
    }
  }

  lemma {:induction false} RowHourOccurs(view: seq<EnrichedTrip>, e: EnrichedTrip)
    requires e in view
    ensures HourOccurs(view, e.trip.pickupHour)
  {
    if view[0] != e {
      RowHourOccurs(view[1..], e);
    }
  }

  /** The hours from `h` on that occur in the view, in ascending order. */
  function HoursFrom(view: seq<EnrichedTrip>, h: nat): (hs: seq<Hour>)
    requires h <= 24
    ensures forall i, j :: 0 <= i < j < |hs| ==> hs[i] < hs[j]
    ensures forall x :: x in hs ==> h <= x && HourOccurs(view, x)
    ensures forall x: Hour :: h <= x && HourOccurs(view, x) ==> x in hs
    decreases 24 - h
  {
    if h == 24 then []
    else
      var rest := HoursFrom(view, h + 1);
      if HourOccurs(view, h) then
        var hs := [h as Hour] + rest;
        assert forall j :: 0 < j < |hs| ==> hs[j] == rest[j - 1] && rest[j - 1] in rest;
        hs
      else rest
  }

  function HoursPresent(view: seq<EnrichedTrip>): seq<Hour> {
    HoursFrom(view, 0)
  }

  /** The fares of the rows picked up in hour `h`, in row order. */
  function FaresAt(view: seq<EnrichedTrip>, h: Hour): seq<real> {
    if view == [] then []
    else (if view[0].trip.pickupHour == h then [view[0].trip.fare] else []) + FaresAt(view[1..], h)
  }

  lemma {:induction false} FaresAtOccurringHour(view: seq<EnrichedTrip>, h: Hour)
    requires HourOccurs(view, h)
    ensures |FaresAt(view, h)| > 0
  {
    if view[0].trip.pickupHour != h {
      FaresAtOccurringHour(view[1..], h);
    }
  }

  function HoursOf(r: seq<HourlyFare>): (hs: seq<Hour>)
    ensures |hs| == |r| && forall i :: 0 <= i < |r| ==> hs[i] == r[i].hour
  {
    seq(|r|, i requires 0 <= i < |r| => r[i].hour)
  }

  /**
   * `agg_hourly_fare`: one row per hour occurring in the view, in ascending hour
   * order, holding the mean fare of that hour's rows.
   */
  function HourlyMeanFare(view: seq<EnrichedTrip>): (r: seq<HourlyFare>)
    ensures forall i, j :: 0 <= i < j < |r| ==> r[i].hour < r[j].hour
    ensures forall i :: 0 <= i < |r| ==> HourOccurs(view, r[i].hour)
    ensures forall e :: e in view ==> e.trip.pickupHour in HoursOf(r)
    ensures forall i :: 0 <= i < |r| ==>
              |FaresAt(view, r[i].hour)| > 0 && r[i].meanFare == Mean(FaresAt(view, r[i].hour))
  {
    var hs := HoursPresent(view);
    forall i | 0 <= i < |hs| ensures |FaresAt(view, hs[i])| > 0 { FaresAtOccurringHour(view, hs[i]); }
    var r := MeansAt(view, hs);
    forall e | e in view ensures e.trip.pickupHour in HoursOf(r) {
      HourPresent(view, e);
    }
    r
  }

  /** The hourly rows for the listed hours, each with the mean fare of that hour. */
  function MeansAt(view: seq<EnrichedTrip>, hs: seq<Hour>): (r: seq<HourlyFare>)
    requires forall h :: h in hs ==> |FaresAt(view, h)| > 0
    ensures HoursOf(r) == hs
    ensures forall i :: 0 <= i < |r| ==> r[i].meanFare == Mean(FaresAt(view, hs[i]))
  {
    if hs == [] then []
    else
      var rest := MeansAt(view, hs[1..]);
      var r := [HourlyFare(hs[0], Mean(FaresAt(view, hs[0])))] + rest;
      assert forall i :: 0 < i < |r| ==> r[i] == rest[i - 1];
      r
  }

  lemma HourPresent(view: seq<EnrichedTrip>, e: EnrichedTrip)
    requires e in view
    ensures e.trip.pickupHour in HoursPresent(view)
  {
    RowHourOccurs(view, e);
  }

  lemma {:induction false} SumAtLeast(xs: seq<real>, lo: real)
    requires forall x :: x in xs ==> lo <= x
    ensures |xs| as real * lo <= Sum(xs)
  {
    if xs != [] {
      var n := |xs[1..]| as real;
      assert xs[0] in xs;
      assert forall x :: x in xs[1..] ==> x in xs;
      SumAtLeast(xs[1..], lo);
      assert |xs| as real * lo == n * lo + lo;
    }
  }

  lemma {:induction false} SumAtMost(xs: seq<real>, hi: real)
    requires forall x :: x in xs ==> x <= hi
    ensures Sum(xs) <= |xs| as real * hi
  {
    if xs != [] {
      var n := |xs[1..]| as real;
      assert xs[0] in xs;
      assert forall x :: x in xs[1..] ==> x in xs;
      SumAtMost(xs[1..], hi);
      assert |xs| as real * hi == n * hi + hi;
    }
  }

  lemma SumWithin(xs: seq<real>, lo: real, hi: real)
    requires forall x :: x in xs ==> lo <= x <= hi
    ensures |xs| as real * lo <= Sum(xs) <= |xs| as real * hi
  {
    SumAtLeast(xs, lo);
    SumAtMost(xs, hi);
  }

  lemma {:induction false} SumAbove(xs: seq<real>, lo: real)
    requires |xs| > 0 && forall x :: x in xs ==> lo < x
    ensures |xs| as real * lo < Sum(xs)
  {
    assert xs[0] in xs;
    if |xs| > 1 {
      var n := |xs[1..]| as real;
      assert forall x :: x in xs[1..] ==> x in xs;
      SumAbove(xs[1..], lo);
      assert |xs| as real * lo == n * lo + lo;
    }
  }

  lemma {:induction false} SumBelow(xs: seq<real>, hi: real)
    requires |xs| > 0 && forall x :: x in xs ==> x < hi
    ensures Sum(xs) < |xs| as real * hi
  {
    assert xs[0] in xs;
    if |xs| > 1 {
      var n := |xs[1..]| as real;
      assert forall x :: x in xs[1..] ==> x in xs;
      SumBelow(xs[1..], hi);
      assert |xs| as real * hi == n * hi + hi;
    }
  }

  /** With strict bounds on every element the sum of a non-empty list is strictly bounded too. */
  lemma SumStrictlyWithin(xs: seq<real>, lo: real, hi: real)
    requires |xs| > 0 && forall x :: x in xs ==> lo < x < hi
    ensures |xs| as real * lo < Sum(xs) < |xs| as real * hi
  {
    SumAbove(xs, lo);
    SumBelow(xs, hi);
  }

  /** The mean of values strictly inside a range is strictly inside it. */
  lemma MeanStrictlyWithin(xs: seq<real>, lo: real, hi: real)
    requires |xs| > 0
    requires forall x :: x in xs ==> lo < x < hi
    ensures lo < Mean(xs) < hi
  {
    SumStrictlyWithin(xs, lo, hi);
    MeanTimesCount(xs);
  }

  /** The mean of values within [lo, hi] is within [lo, hi]. */
  lemma MeanWithin(xs: seq<real>, lo: real, hi: real)
    requires |xs| > 0
    requires forall x :: x in xs ==> lo <= x <= hi
    ensures lo <= Mean(xs) <= hi
  {
    SumWithin(xs, lo, hi);
    MeanTimesCount(xs);
  }

  lemma {:induction false} FaresAtWithin(view: seq<EnrichedTrip>, h: Hour, lo: real, hi: real)
    requires forall e :: e in view ==> lo <= e.trip.fare <= hi
    ensures forall x :: x in FaresAt(view, h) ==> lo <= x <= hi
  {
    if view != [] {
      assert forall e :: e in view[1..] ==> e in view;
      FaresAtWithin(view[1..], h, lo, hi);
    }
  }

  /** On cleaned rows every hourly mean is a fare the cleaning rules allow. */
  lemma HourlyMeanWithinFareRange(view: seq<EnrichedTrip>)
    requires forall e :: e in view ==> WellFormed(e.trip)
    ensures forall f :: f in HourlyMeanFare(view) ==> 0.0 <= f.meanFare <= MaxFare
  {
    var r := HourlyMeanFare(view);
    forall i | 0 <= i < |r| ensures 0.0 <= r[i].meanFare <= MaxFare {
      FaresAtWithin(view, r[i].hour, 0.0, MaxFare);
      MeanWithin(FaresAt(view, r[i].hour), 0.0, MaxFare);
    }
  }

  // ---- Payment breakdown ----

  function PaymentNames(view: seq<EnrichedTrip>): (names: seq<string>)
    ensures |names| == |view|
  {
    if view == [] then [] else [view[0].paymentName] + PaymentNames(view[1..])
  }

  /** The number of rows with payment label `name`. */
  function RowsPaying(view: seq<EnrichedTrip>, name: string): nat {
    if view == [] then 0
    else (if view[0].paymentName == name then 1 else 0) + RowsPaying(view[1..], name)
  }

  lemma {:induction false} PaymentNamesCount(view: seq<EnrichedTrip>, name: string)
    ensures multiset(PaymentNames(view))[name] == RowsPaying(view, name)
    ensures name in PaymentNames(view) <==> RowsPaying(view, name) > 0
  {
    if view != [] {
      PaymentNamesCount(view[1..], name);
    }
  }

  /**
   * `agg_payment`: one row per payment label occurring in the view, with its
   * positive number of rows, largest first; the counts add up to the view's length.
   */
  function PaymentCounts(view: seq<EnrichedTrip>): (r: seq<Entry<string>>)
    ensures SortedByCount(r)
    ensures UniqueKeys(r)
    ensures forall e :: e in r ==> e.count == RowsPaying(view, e.key) && e.count > 0
    ensures forall e :: e in view ==> e.paymentName in Keys(r)
    ensures Total(r) == |view|
  {
    var names := PaymentNames(view);
    var r := ValueCounts(names);
    forall e | e in r ensures e.count == RowsPaying(view, e.key) { PaymentNamesCount(view, e.key); }
    forall e | e in view ensures e.paymentName in names {
      PaymentNamesCount(view, e.paymentName);
      RowsPayingOwnLabel(view, e);
    }
    r
  }

  lemma {:induction false} RowsPayingOwnLabel(view: seq<EnrichedTrip>, e: EnrichedTrip)
    requires e in view
    ensures RowsPaying(view, e.paymentName) > 0
  {
    if view[0] != e {
      RowsPayingOwnLabel(view[1..], e);
    }
  }

  // ---- Weekday x hour heatmap ----

  /** The pivot table: one row per weekday, one column per hour, trip counts in the cells. */
  datatype Heatmap = Heatmap(days: seq<string>, hours: seq<Hour>, cells: seq<seq<nat>>)

  /** The number of rows picked up on weekday `d` (a `DayOrder` position) in hour `h`. */
  function CellCount(view: seq<EnrichedTrip>, d: nat, h: Hour): nat {
    if view == [] then 0
    else (if view[0].day == Some(d) && view[0].trip.pickupHour == h then 1 else 0) + CellCount(view[1..], d, h)
  }

  function RowCells(view: seq<EnrichedTrip>, d: nat, hours: seq<Hour>): (row: seq<nat>)
    ensures |row| == |hours| && forall j :: 0 <= j < |hours| ==> row[j] == CellCount(view, d, hours[j])
  {
    if hours == [] then [] else [CellCount(view, d, hours[0])] + RowCells(view, d, hours[1..])
  }

  function GridRows(view: seq<EnrichedTrip>, days: seq<nat>, hours: seq<Hour>): (grid: seq<seq<nat>>)
    ensures |grid| == |days| && forall i :: 0 <= i < |days| ==> grid[i] == RowCells(view, days[i], hours)
  {
    if days == [] then [] else [RowCells(view, days[0], hours)] + GridRows(view, days[1..], hours)
  }

  function SumNats(xs: seq<nat>): nat {
    if xs == [] then 0 else xs[0] + SumNats(xs[1..])
  }

  function GridSum(grid: seq<seq<nat>>): nat {
    if grid == [] then 0 else SumNats(grid[0]) + GridSum(grid[1..])
  }

  /** The positions of `DayOrder`, Monday first. */
  const DayCodes: seq<nat> := [0, 1, 2, 3, 4, 5, 6]

  /**
   * `agg_heatmap`: rows are the weekdays Monday to Sunday, columns the hours
   * occurring in the view, cells the number of rows with that weekday and hour
   * (0 where there is none). An empty view pivots to an empty table.
   */
  function WeekdayHourHeatmap(view: seq<EnrichedTrip>): (m: Heatmap)
    ensures view != [] ==> m.days == DayOrder
    ensures view == [] ==> m.days == [] && m.hours == []
    ensures forall i, j :: 0 <= i < j < |m.hours| ==> m.hours[i] < m.hours[j]
    ensures forall h :: h in m.hours ==> HourOccurs(view, h)
    ensures forall e :: e in view ==> e.trip.pickupHour in m.hours
    ensures |m.cells| == |m.days|
    ensures forall i :: 0 <= i < |m.cells| ==>
              |m.cells[i]| == |m.hours| && forall j :: 0 <= j < |m.hours| ==> m.cells[i][j] == CellCount(view, i, m.hours[j])
  {
    var hours := HoursPresent(view);
    HoursPresentFacts(view);
    if hours == [] then
      Heatmap([], [], [])
    else
      Heatmap(DayOrder, hours, WeekGrid(view, hours))
  }

  /** The cells for Monday to Sunday: row `i` holds the counts of weekday code `i`. */
  function WeekGrid(view: seq<EnrichedTrip>, hours: seq<Hour>): (grid: seq<seq<nat>>)
    ensures |grid| == |DayOrder|
    ensures forall i :: 0 <= i < |grid| ==>
              |grid[i]| == |hours| && forall j :: 0 <= j < |hours| ==> grid[i][j] == CellCount(view, i, hours[j])
  {
    assert forall i :: 0 <= i < |DayCodes| ==> DayCodes[i] == i;
    GridRows(view, DayCodes, hours)
  }

  /** Every row's hour is listed, and no hour is listed exactly when the view is empty. */
  lemma HoursPresentFacts(view: seq<EnrichedTrip>)
    ensures forall e :: e in view ==> e.trip.pickupHour in HoursPresent(view)
    ensures HoursPresent(view) == [] <==> view == []
  {
    forall e | e in view ensures e.trip.pickupHour in HoursPresent(view) { HourPresent(view, e); }
    if HoursPresent(view) != [] {
      assert HourOccurs(view, HoursPresent(view)[0]);
    }
    if view != [] {
      assert view[0] in view;
    }
  }

  lemma {:induction false} RowSplit(e: EnrichedTrip, t: seq<EnrichedTrip>, d: nat, hours: seq<Hour>)
    requires NoDuplicates(hours)
    ensures SumNats(RowCells([e] + t, d, hours))
            == SumNats(RowCells(t, d, hours)) + (if e.day == Some(d) && e.trip.pickupHour in hours then 1 else 0)
  {
    if hours != [] {
      assert ([e] + t)[1..] == t;
      var rest := hours[1..];
      assert NoDuplicates(rest) by {
        forall i, j | 0 <= i < j < |rest| ensures rest[i] != rest[j] { assert rest[i] == hours[i + 1] && rest[j] == hours[j + 1]; }
      }
      assert hours[0] !in rest by {
        forall j | 0 <= j < |rest| ensures rest[j] != hours[0] { assert rest[j] == hours[j + 1]; }
      }
      assert hours == [hours[0]] + rest;
      RowSplit(e, t, d, rest);
    }
  }

  lemma {:induction false} GridSplit(e: EnrichedTrip, t: seq<EnrichedTrip>, days: seq<nat>, hours: seq<Hour>)
    requires NoDuplicates(days) && NoDuplicates(hours)
    ensures GridSum(GridRows([e] + t, days, hours))
            == GridSum(GridRows(t, days, hours))
               + (if e.day.Some? && e.day.value in days && e.trip.pickupHour in hours then 1 else 0)
  {
    if days != [] {
      var rest := days[1..];
      assert NoDuplicates(rest) by {
        forall i, j | 0 <= i < j < |rest| ensures rest[i] != rest[j] { assert rest[i] == days[i + 1] && rest[j] == days[j + 1]; }
      }
      assert days[0] !in rest by {
        forall j | 0 <= j < |rest| ensures rest[j] != days[0] { assert rest[j] == days[j + 1]; }
      }
      assert days == [days[0]] + rest;
      RowSplit(e, t, days[0], hours);
      GridSplit(e, t, rest, hours);
    }
  }

  lemma {:induction false} GridCovers(view: seq<EnrichedTrip>, days: seq<nat>, hours: seq<Hour>)
    requires NoDuplicates(days) && NoDuplicates(hours)
    requires forall e :: e in view ==> e.day.Some? && e.day.value in days && e.trip.pickupHour in hours
    ensures GridSum(GridRows(view, days, hours)) == |view|
  {
    if view == [] {
      GridEmpty(days, hours);
    } else {
      var t := view[1..];
      assert view == [view[0]] + t;
      assert forall e :: e in t ==> e in view;
      GridCovers(t, days, hours);
      GridSplit(view[0], t, days, hours);
    }
  }

  lemma {:induction false} GridEmpty(days: seq<nat>, hours: seq<Hour>)
    ensures GridSum(GridRows([], days, hours)) == 0
  {
    if days != [] {
      RowEmpty(days[0], hours);
      GridEmpty(days[1..], hours);
    }
  }

  lemma {:induction false} RowEmpty(d: nat, hours: seq<Hour>)
    ensures SumNats(RowCells([], d, hours)) == 0
  {
    if hours != [] {
      RowEmpty(d, hours[1..]);
    }
  }

  /** When every row has a weekday, each row is counted in exactly one cell. */
  lemma HeatmapCountsEveryRow(view: seq<EnrichedTrip>)
    requires forall e :: e in view ==> e.day.Some? && e.day.value < |DayOrder|
    ensures GridSum(WeekdayHourHeatmap(view).cells) == |view|
  {
    var hours := HoursPresent(view);
    HoursPresentFacts(view);
    if view != [] {
      assert NoDuplicates(DayCodes) by {
        assert forall i :: 0 <= i < |DayCodes| ==> DayCodes[i] == i;
      }
      assert forall x: nat :: x < 7 ==> x in DayCodes by {
        forall x: nat | x < 7 ensures x in DayCodes { assert DayCodes[x] == x; }
      }
      GridCovers(view, DayCodes, hours);
    }
  }
}
