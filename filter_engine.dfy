/** The sidebar filters: a date range, an hour range and a set of payment labels, combined by AND. */
module FilterEngine {
  import opened Wrappers
  import opened Sequences
  import opened Calendar
  import opened Cleaner
  import opened Enricher

  /** What the date widget hands back: a pair of dates, or a single date. */
  datatype DateInput = DateRange(first: int, last: int) | SingleDate(date: int)

  datatype Filter = Filter(startDate: int, endDate: int, hourMin: int, hourMax: int, payments: set<string>)

  /** A single date stands for the range from that date to itself. */
  function DateBounds(input: DateInput): (bounds: (int, int))
    ensures input.SingleDate? ==> bounds.0 == bounds.1 == input.date
    ensures input.DateRange? ==> bounds == (input.first, input.last)
  {
    match input
    case DateRange(first, last) => (first, last)
    case SingleDate(d) => (d, d)
  }

  /** The filter the sidebar widgets describe. */
  function FromWidgets(dates: DateInput, hourMin: int, hourMax: int, payments: set<string>): Filter {
    var (start, end) := DateBounds(dates);
    Filter(start, end, hourMin, hourMax, payments)
  }

  predicate Matches(f: Filter, e: EnrichedTrip) {
    && f.startDate <= e.pickupDate <= f.endDate
    && f.hourMin <= e.trip.pickupHour <= f.hourMax
    && e.paymentName in f.payments
  }

  /** `df[mask].copy()`: the rows the filter lets through, in order; `df` itself is a value and stays as it is. */
  function Apply(df: seq<EnrichedTrip>, f: Filter): (view: seq<EnrichedTrip>)
    ensures |view| <= |df|
    ensures forall e :: e in view ==> e in df && Matches(f, e)
    ensures forall e :: e in df && Matches(f, e) ==> e in view
  {
    Select(df, (e: EnrichedTrip) => Matches(f, e))
  }

  /** The earliest pickup date in a non-empty table. */
  function MinDate(df: seq<EnrichedTrip>): (d: int)
    requires |df| > 0
    ensures forall e :: e in df ==> d <= e.pickupDate
    ensures exists e :: e in df && e.pickupDate == d
  {
    if |df| == 1 then df[0].pickupDate
    else
      var rest := MinDate(df[1..]);
      assert forall e :: e in df[1..] ==> e in df;
      if df[0].pickupDate <= rest then df[0].pickupDate else rest
  }

  /** The latest pickup date in a non-empty table. */
  function MaxDate(df: seq<EnrichedTrip>): (d: int)
    requires |df| > 0
    ensures forall e :: e in df ==> e.pickupDate <= d
    ensures exists e :: e in df && e.pickupDate == d
  {
    if |df| == 1 then df[0].pickupDate
    else
      var rest := MaxDate(df[1..]);
      assert forall e :: e in df[1..] ==> e in df;
      if df[0].pickupDate >= rest then df[0].pickupDate else rest
  }

  /** The options of the payment widget: every label that occurs. */
  function PaymentOptions(df: seq<EnrichedTrip>): (labels: set<string>)
    ensures forall e :: e in df ==> e.paymentName in labels
    ensures forall l :: l in labels ==> exists e :: e in df && e.paymentName == l
  {
    set e | e in df :: e.paymentName
  }

  /**
   * The widgets' initial values: the full date span, hours 0 to 23, every
   * payment label. An empty table has no date span.
   */
  function DefaultFilter(df: seq<EnrichedTrip>): Option<Filter> {
    if df == [] then None
    else Some(FromWidgets(DateRange(MinDate(df), MaxDate(df)), 0, 23, PaymentOptions(df)))
  }

  /** The filter keeps exactly the matching positions of the table, in order. */
  lemma ApplyIsOrderPreservingSelection(df: seq<EnrichedTrip>, f: Filter) returns (idx: seq<nat>)
    ensures Embeds(Apply(df, f), df, idx)
    ensures forall j :: 0 <= j < |df| ==> (j in idx <==> Matches(f, df[j]))
  {
    idx := SelectPositions(df, (e: EnrichedTrip) => Matches(f, e));
  }

  /** Untouched widgets show the whole table. */
  lemma DefaultFilterKeepsEverything(df: seq<EnrichedTrip>)
    ensures DefaultFilter(df).Some? <==> df != []
    ensures DefaultFilter(df).Some? ==> Apply(df, DefaultFilter(df).value) == df
  {
    if df != [] {
      var f := DefaultFilter(df).value;
      SelectKeepsAll(df, (e: EnrichedTrip) => Matches(f, e));
    }
  }

  /** Deselecting every payment label empties the view. */
  lemma NoPaymentsNoRows(df: seq<EnrichedTrip>, f: Filter)
    requires f.payments == {}
    ensures Apply(df, f) == []
  {
    SelectNone(df, (e: EnrichedTrip) => Matches(f, e));
  }

  /** Picking one date keeps exactly the rows of that date that pass the other two filters. */
  lemma SingleDateKeepsThatDay(df: seq<EnrichedTrip>, d: int, hourMin: int, hourMax: int, payments: set<string>, e: EnrichedTrip)
    ensures var f := FromWidgets(SingleDate(d), hourMin, hourMax, payments);
            e in Apply(df, f) <==>
              e in df && e.pickupDate == d && hourMin <= e.trip.pickupHour <= hourMax && e.paymentName in payments
  {
  }
}
