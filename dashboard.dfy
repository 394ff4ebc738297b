/** The dashboard page: loading the data, the key metrics and the empty-view stop. */
module Dashboard {
  import opened Wrappers
  import opened Sequences
  import opened Calendar
  import opened Cleaner
  import opened Enricher
  import opened FilterEngine
  import opened Tally
  import opened Aggregates

  /**
   * `load_data`: a cleaned file left by an earlier run is used as it is, with
   * no check that it came from this raw file or this cleaning code; only
   * without one is the raw file cleaned. The display fields are added either way.
   */
  method LoadData(raw: seq<RawTrip>, zones: map<int, ZoneInfo>, cached: Option<seq<CleanTrip>>)
    returns (df: seq<EnrichedTrip>)
    ensures cached.Some? ==> df == Enrich(cached.value, zones)
    ensures cached.None? ==> df == Enrich(Clean(raw), zones)
    ensures cached.None? ==> |df| <= |raw| && forall e :: e in df ==> WellFormed(e.trip)
  {
    var trips: seq<CleanTrip>;
    if cached.Some? {
      trips := cached.value;
    } else {
      trips := CleanFrame(raw);
    }
    df := Enrich(trips, zones);
    if cached.None? {
      forall e | e in df ensures WellFormed(e.trip) {
        var i :| 0 <= i < |df| && df[i] == e;
        assert trips[i] in trips;
      }
    }
  }

  /** Every row the pipeline produces from the raw table, joined with any zone lookup. */
  lemma FreshRowsAreConsistent(raw: seq<RawTrip>, zones: map<int, ZoneInfo>)
    ensures forall e :: e in Enrich(Clean(raw), zones) ==>
              && WellFormed(e.trip)
              && e.day == Some(WeekdayIndex(e.trip.pickup)) && DayOrder[e.day.value] == e.trip.pickupDayOfWeek
              && e.paymentName in PaymentLabels
              && 0 <= e.pickupDate < 31
  {
    var cs := Clean(raw);
    var df := Enrich(cs, zones);
    forall e | e in df
      ensures && WellFormed(e.trip)
              && e.day == Some(WeekdayIndex(e.trip.pickup)) && DayOrder[e.day.value] == e.trip.pickupDayOfWeek
              && e.paymentName in PaymentLabels
              && 0 <= e.pickupDate < 31
    {
      var i :| 0 <= i < |df| && df[i] == e;
      assert cs[i] in cs;
      EnrichedFieldsOfWellFormedRow(cs[i], zones);
    }
  }

  datatype Metrics = Metrics(trips: nat, meanFare: real, totalRevenue: real, meanDistance: real, meanDuration: real)

  function Fares(view: seq<EnrichedTrip>): (xs: seq<real>)
    ensures |xs| == |view| && forall i :: 0 <= i < |view| ==> xs[i] == view[i].trip.fare
  {
    seq(|view|, i requires 0 <= i < |view| => view[i].trip.fare)
  }

  function Distances(view: seq<EnrichedTrip>): (xs: seq<real>)
    ensures |xs| == |view| && forall i :: 0 <= i < |view| ==> xs[i] == view[i].trip.distance
  {
    seq(|view|, i requires 0 <= i < |view| => view[i].trip.distance)
  }

  function Durations(view: seq<EnrichedTrip>): (xs: seq<real>)
    ensures |xs| == |view| && forall i :: 0 <= i < |view| ==> xs[i] == view[i].trip.durationMinutes
  {
    seq(|view|, i requires 0 <= i < |view| => view[i].trip.durationMinutes)
  }

  /** The amount of a row; a null amount counts as 0 (it is skipped by the sum). */
  function AmountOf(e: EnrichedTrip): real {
    match e.trip.totalAmount
    case Some(a) => a
    case None => 0.0
  }

  /** `total_amount.sum()`. */
  function TotalRevenue(view: seq<EnrichedTrip>): real {
    if view == [] then 0.0 else AmountOf(view[0]) + TotalRevenue(view[1..])
  }

  predicate HasAmount(e: EnrichedTrip) {
    e.trip.totalAmount.Some?
  }

  /** The total amounts of the rows that have one, in row order. */
  function PaidAmounts(view: seq<EnrichedTrip>): (xs: seq<real>)
    ensures |xs| == |Select(view, HasAmount)|
    ensures forall i :: 0 <= i < |xs| ==> xs[i] == AmountOf(Select(view, HasAmount)[i])
  {
    var paid := Select(view, HasAmount);
    seq(|paid|, i requires 0 <= i < |paid| => AmountOf(paid[i]))
  }

  /** The revenue is the sum of the amounts that are present. */
  lemma {:induction false} TotalRevenueIsSumOfPaid(view: seq<EnrichedTrip>)
    ensures TotalRevenue(view) == Sum(PaidAmounts(view))
  {
    if view != [] {
      TotalRevenueIsSumOfPaid(view[1..]);
      var xs, rest := PaidAmounts(view), PaidAmounts(view[1..]);
      if HasAmount(view[0]) {
        assert Select(view, HasAmount) == [view[0]] + Select(view[1..], HasAmount);
        assert xs[1..] == rest;
        assert Sum(xs) == xs[0] + Sum(xs[1..]);
      } else {
        assert Select(view, HasAmount) == Select(view[1..], HasAmount);
        assert xs == rest;
      }
    }
  }

  /** The revenue of two parts of a view adds up to the revenue of the whole. */
  lemma {:induction false} TotalRevenueConcat(a: seq<EnrichedTrip>, b: seq<EnrichedTrip>)
    ensures TotalRevenue(a + b) == TotalRevenue(a) + TotalRevenue(b)
  {
    if a != [] {
      assert (a + b)[1..] == a[1..] + b;
      TotalRevenueConcat(a[1..], b);
    } else {
      assert a + b == b;
    }
  }

  /**
   * The five key metrics; a mean needs at least one row. Each average, taken
   * once per trip, gives back the column's sum; the revenue sums the amounts present.
   */
  function KeyMetrics(view: seq<EnrichedTrip>): (m: Metrics)
    requires |view| > 0
    ensures m.trips == |view|
    ensures IsMeanOf(m.meanFare, Fares(view))
    ensures IsMeanOf(m.meanDistance, Distances(view))
    ensures IsMeanOf(m.meanDuration, Durations(view))
    ensures m.totalRevenue == Sum(PaidAmounts(view))
  {
    MeanIsMeanOf(Fares(view));
    MeanIsMeanOf(Distances(view));
    MeanIsMeanOf(Durations(view));
    TotalRevenueIsSumOfPaid(view);
    Metrics(|view|, Mean(Fares(view)), TotalRevenue(view), Mean(Distances(view)), Mean(Durations(view)))
  }

  /** On cleaned rows the averages stay inside the ranges the cleaning rules enforce. */
  lemma KeyMetricsOfCleanedRows(view: seq<EnrichedTrip>)
    requires |view| > 0 && forall e :: e in view ==> WellFormed(e.trip)
    ensures 0.0 <= KeyMetrics(view).meanFare <= MaxFare
    ensures 0.0 < KeyMetrics(view).meanDistance < MaxDistance
    ensures 0.0 <= KeyMetrics(view).meanDuration
  {
    forall x | x in Fares(view) ensures 0.0 <= x <= MaxFare {
      var i :| 0 <= i < |view| && Fares(view)[i] == x;
      assert view[i] in view;
    }
    MeanWithin(Fares(view), 0.0, MaxFare);
    forall x | x in Distances(view) ensures 0.0 < x < MaxDistance {
      var i :| 0 <= i < |view| && Distances(view)[i] == x;
      assert view[i] in view;
    }
    MeanStrictlyWithin(Distances(view), 0.0, MaxDistance);
    forall x | x in Durations(view) ensures 0.0 <= x {
      var i :| 0 <= i < |view| && Durations(view)[i] == x;
      assert view[i] in view;
    }
    DurationsBelowLargest(Durations(view));
  }

  /** The largest of a non-empty list bounds it, so its mean is at least its smallest bound. */
  lemma DurationsBelowLargest(xs: seq<real>)
    requires |xs| > 0 && forall x :: x in xs ==> 0.0 <= x
    ensures 0.0 <= Mean(xs)
  {
    var hi := Largest(xs);
    MeanWithin(xs, 0.0, hi);
  }

  function Largest(xs: seq<real>): (m: real)
    requires |xs| > 0
    ensures forall x :: x in xs ==> x <= m
  {
    if |xs| == 1 then xs[0]
    else
      var rest := Largest(xs[1..]);
      assert forall x :: x in xs ==> x == xs[0] || x in xs[1..];
      if xs[0] >= rest then xs[0] else rest
  }

  /** What the page shows once the filters leave at least one trip. */
  datatype Panel = Panel(
    metrics: Metrics,
    topZones: seq<Entry<ZoneKey>>,
    hourlyFare: seq<HourlyFare>,
    payments: seq<Entry<string>>,
    heatmap: Heatmap)

  /**
   * The page under a filter: with no matching trip it warns and stops before
   * any metric or aggregate is computed; otherwise it computes all of them
   * over the filtered view.
   */
  function Render(df: seq<EnrichedTrip>, f: Filter): (p: Option<Panel>)
    ensures p.None? <==> Apply(df, f) == []
    ensures p.Some? ==> p.value.metrics.trips == |Apply(df, f)| > 0
    ensures p.Some? ==> Total(p.value.payments) == p.value.metrics.trips
    ensures p.Some? ==> |p.value.topZones| <= TopZoneCount && p.value.heatmap.days == DayOrder
  {
    var view := Apply(df, f);
    if |view| == 0 then None
    else Some(Panel(KeyMetrics(view), TopZones(view), HourlyMeanFare(view), PaymentCounts(view), WeekdayHourHeatmap(view)))
  }

  /** An empty view reduces to the empty form of every aggregate. */
  lemma EmptyViewAggregates()
    ensures TopZones([]) == [] && HourlyMeanFare([]) == [] && PaymentCounts([]) == []
    ensures WeekdayHourHeatmap([]) == Heatmap([], [], [])
  {
  }

  /** Deselecting every payment label shows the warning instead of the panel. */
  lemma NoPaymentSelectedStops(df: seq<EnrichedTrip>, f: Filter)
    requires f.payments == {}
    ensures Render(df, f).None?
  {
    NoPaymentsNoRows(df, f);
  }

  /**
   * Freshly cleaned data under untouched widgets: the panel covers every trip,
   * the payment counts and the heatmap cells each add up to the trip count.
   */
  lemma DefaultPanelCoversAllTrips(raw: seq<RawTrip>, zones: map<int, ZoneInfo>)
    requires Clean(raw) != []
    ensures var df := Enrich(Clean(raw), zones);
            var p := Render(df, DefaultFilter(df).value);
            p.Some? && p.value.metrics.trips == |df| && GridSum(p.value.heatmap.cells) == |df|
  {
    var df := Enrich(Clean(raw), zones);
    DefaultFilterKeepsEverything(df);
    FreshRowsAreConsistent(raw, zones);
    HeatmapCountsEveryRow(df);
  }
}
