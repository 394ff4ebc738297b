/** The display fields `load_data` adds after cleaning: pickup date, payment label, pickup zone, ordered weekday. */
module Enricher {
  import opened Wrappers
  import opened Calendar
  import opened Cleaner

  /** One row of the zone lookup file, keyed by LocationID; its text cells may be null. */
  datatype ZoneInfo = ZoneInfo(borough: Option<string>, zone: Option<string>)

  datatype EnrichedTrip = EnrichedTrip(
    trip: CleanTrip,
    pickupDate: int,
    paymentName: string,
    pickupZone: Option<string>,
    pickupBorough: Option<string>,
    day: Option<nat>)

  /** `PAYMENT_MAP`. */
  const PaymentMap: map<int, string> := map[
    0 := "Flex Fare", 1 := "Credit Card", 2 := "Cash", 3 := "No Charge",
    4 := "Dispute", 5 := "Unknown", 6 := "Voided Trip"]

  const OtherPayment := "Other"

  /** Every label a row can carry. */
  const PaymentLabels: set<string> := PaymentMap.Values + {OtherPayment}

  /** `payment_type.map(PAYMENT_MAP).fillna("Other")`. */
  function PaymentName(code: Option<int>): (name: string)
    ensures name in PaymentLabels
  {
    if code.Some? && code.value in PaymentMap then PaymentMap[code.value] else OtherPayment
  }

  /** The left join of one row with the zone lookup on its pickup LocationID. */
  function PickupZone(c: CleanTrip, zones: map<int, ZoneInfo>): ZoneInfo {
    if c.puLocation in zones then zones[c.puLocation] else ZoneInfo(None, None)
  }

  function EnrichRow(c: CleanTrip, zones: map<int, ZoneInfo>): (e: EnrichedTrip)
    ensures e.trip == c
  {
    var z := PickupZone(c, zones);
    EnrichedTrip(c, DateOf(c.pickup), PaymentName(c.paymentType), z.zone, z.borough, DayCode(c.pickupDayOfWeek))
  }

  /** The enrichment step over the whole table: one output row per input row, in order. */
  function Enrich(cs: seq<CleanTrip>, zones: map<int, ZoneInfo>): (df: seq<EnrichedTrip>)
    ensures |df| == |cs|
    ensures forall i :: 0 <= i < |cs| ==> df[i].trip == cs[i]
  {
    seq(|cs|, i requires 0 <= i < |cs| => EnrichRow(cs[i], zones))
  }

  /** Codes 0 to 6 get their label from the table; every other code, and a null, is "Other". */
  lemma PaymentNameByCode(code: Option<int>)
    ensures code.Some? && 0 <= code.value <= 6 ==> PaymentName(code) == PaymentMap[code.value]
    ensures !(code.Some? && 0 <= code.value <= 6) ==> PaymentName(code) == OtherPayment
    ensures PaymentName(Some(1)) == "Credit Card" && PaymentName(Some(2)) == "Cash"
  {
    assert PaymentMap.Keys == {0, 1, 2, 3, 4, 5, 6};
  }

  /**
   * The zone join keeps every row; a LocationID with an entry in the lookup gets
   * that entry's zone and borough, any other gets null for both.
   */
  lemma ZoneJoinIsLeftJoin(cs: seq<CleanTrip>, zones: map<int, ZoneInfo>, i: nat)
    requires i < |cs|
    ensures |Enrich(cs, zones)| == |cs| && Enrich(cs, zones)[i].trip == cs[i]
    ensures cs[i].puLocation in zones ==>
      Enrich(cs, zones)[i].pickupZone == zones[cs[i].puLocation].zone
      && Enrich(cs, zones)[i].pickupBorough == zones[cs[i].puLocation].borough
    ensures cs[i].puLocation !in zones ==>
      Enrich(cs, zones)[i].pickupZone.None? && Enrich(cs, zones)[i].pickupBorough.None?
  {
  }

  /** On well-formed rows the derived fields agree with the pickup instant. */
  lemma EnrichedFieldsOfWellFormedRow(c: CleanTrip, zones: map<int, ZoneInfo>)
    requires WellFormed(c)
    ensures EnrichRow(c, zones).day == Some(WeekdayIndex(c.pickup))
    ensures DayOrder[EnrichRow(c, zones).day.value] == c.pickupDayOfWeek
    ensures EnrichRow(c, zones).pickupDate * SecondsPerDay + c.pickupHour * SecondsPerHour
            <= c.pickup < EnrichRow(c, zones).pickupDate * SecondsPerDay + (c.pickupHour + 1) * SecondsPerHour
    ensures 0 <= EnrichRow(c, zones).pickupDate < 31
  {
    DayCodeOfDayName(c.pickup);
    ClockDecomposition(c.pickup);
  }
}
