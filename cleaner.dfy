/**
 * The cleaning and feature-engineering body of `load_data`: a chain of row masks
 * over the raw January trip file followed by four derived columns.
 */
module Cleaner {
  import opened Wrappers
  import opened Sequences
  import opened Calendar

  /** One row of the raw trip file; every column may be null. */
  datatype RawTrip = RawTrip(
    pickup: Option<int>,
    dropoff: Option<int>,
    puLocation: Option<int>,
    doLocation: Option<int>,
    distance: Option<real>,
    fare: Option<real>,
    totalAmount: Option<real>,
    passengers: Option<int>,
    paymentType: Option<int>)

  /** One row of the cleaned file: the critical columns are present, four columns are derived. */
  datatype CleanTrip = CleanTrip(
    pickup: int,
    dropoff: int,
    puLocation: int,
    doLocation: int,
    distance: real,
    fare: real,
    totalAmount: Option<real>,
    passengers: int,
    paymentType: Option<int>,
    durationMinutes: real,
    speedMph: real,
    pickupHour: Hour,
    pickupDayOfWeek: string)

  const MaxDistance: real := 50.0
  const MaxFare: real := 500.0

  /** The row masks of the cleaning step, one per filter line. A comparison with a null is false. */
  datatype Mask =
    | InJanuary
    | CriticalPresent
    | PositiveDistance
    | FareInRange
    | DropoffNotBeforePickup
    | PositivePassengers
    | DistanceBelowLimit

  predicate Holds(m: Mask, r: RawTrip) {
    match m
    case InJanuary => r.pickup.Some? && JanuaryStart <= r.pickup.value < FebruaryStart
    case CriticalPresent =>
      r.pickup.Some? && r.dropoff.Some? && r.puLocation.Some? && r.doLocation.Some? && r.fare.Some?
    case PositiveDistance => r.distance.Some? && r.distance.value > 0.0
    case FareInRange => r.fare.Some? && 0.0 <= r.fare.value <= MaxFare
    case DropoffNotBeforePickup => r.pickup.Some? && r.dropoff.Some? && r.dropoff.value >= r.pickup.value
    case PositivePassengers => r.passengers.Some? && r.passengers.value > 0
    case DistanceBelowLimit => r.distance.Some? && r.distance.value < MaxDistance
  }

  /** The masks in the order the cleaning step applies them. */
  const CleaningSteps: seq<Mask> := [
    InJanuary, CriticalPresent, PositiveDistance, FareInRange,
    DropoffNotBeforePickup, PositivePassengers, DistanceBelowLimit]

  predicate AllHold(ms: seq<Mask>, r: RawTrip) {
    forall m :: m in ms ==> Holds(m, r)
  }

  /** `df[mask_1 & ... & mask_k]`. */
  function Where(rows: seq<RawTrip>, ms: seq<Mask>): seq<RawTrip> {
    Select(rows, (r: RawTrip) => AllHold(ms, r))
  }

  /** A raw row survives cleaning: the conjunction of every mask, written out. */
  predicate Kept(r: RawTrip) {
    && r.pickup.Some? && r.dropoff.Some? && r.puLocation.Some? && r.doLocation.Some? && r.fare.Some?
    && JanuaryStart <= r.pickup.value < FebruaryStart
    && r.distance.Some? && 0.0 < r.distance.value < MaxDistance
    && 0.0 <= r.fare.value <= MaxFare
    && r.dropoff.value >= r.pickup.value
    && r.passengers.Some? && r.passengers.value > 0
  }

  lemma KeptIsAllSteps(r: RawTrip)
    ensures AllHold(CleaningSteps, r) <==> Kept(r)
  {
    if AllHold(CleaningSteps, r) {
      assert Holds(CleaningSteps[0], r) && Holds(CleaningSteps[1], r) && Holds(CleaningSteps[2], r);
      assert Holds(CleaningSteps[3], r) && Holds(CleaningSteps[4], r);
      assert Holds(CleaningSteps[5], r) && Holds(CleaningSteps[6], r);
    }
  }

  /** Applying one list of masks after another is applying both lists at once. */
  lemma WhereThenWhere(rows: seq<RawTrip>, a: seq<Mask>, b: seq<Mask>)
    ensures Where(Where(rows, a), b) == Where(rows, a + b)
  {
    var p := (r: RawTrip) => AllHold(a, r);
    var q := (r: RawTrip) => AllHold(b, r);
    var pq := (r: RawTrip) => AllHold(a + b, r);
    forall r ensures pq(r) == (p(r) && q(r)) {
      if p(r) && q(r) {
        forall m | m in a + b ensures Holds(m, r) {
          if m in a { assert Holds(m, r); } else { assert m in b; }
        }
      }
    }
    SelectThenSelect(rows, p, q, pq);
  }

  /** The invariants the cleaning rules establish on every kept row. */
  predicate MeetsCleaningRules(c: CleanTrip) {
    && JanuaryStart <= c.pickup < FebruaryStart
    && 0.0 < c.distance < MaxDistance
    && 0.0 <= c.fare <= MaxFare
    && c.dropoff >= c.pickup
    && c.passengers > 0
  }

  /** What the derived columns mean. */
  predicate FeaturesConsistent(c: CleanTrip) {
    && c.durationMinutes * 60.0 == (c.dropoff - c.pickup) as real
    && c.durationMinutes >= 0.0
    && c.speedMph >= 0.0
    && (c.speedMph == 0.0 <==> c.durationMinutes == 0.0)
    && (c.durationMinutes > 0.0 ==> c.speedMph * (c.durationMinutes / 60.0) == c.distance)
    && c.pickupHour == HourOf(c.pickup)
    && c.pickupDayOfWeek == DayName(c.pickup)
  }

  predicate WellFormed(c: CleanTrip) {
    MeetsCleaningRules(c) && FeaturesConsistent(c)
  }

  /** The raw row a cleaned row came from: the derived columns dropped again. */
  function Source(c: CleanTrip): RawTrip {
    RawTrip(Some(c.pickup), Some(c.dropoff), Some(c.puLocation), Some(c.doLocation),
            Some(c.distance), Some(c.fare), c.totalAmount, Some(c.passengers), c.paymentType)
  }

  function Sources(cs: seq<CleanTrip>): (rs: seq<RawTrip>)
    ensures |rs| == |cs| && forall i :: 0 <= i < |cs| ==> rs[i] == Source(cs[i])
  {
    seq(|cs|, i requires 0 <= i < |cs| => Source(cs[i]))
  }

  /**
   * Duration, speed, pickup hour and weekday of one kept row. The speed of a
   * zero-length trip is infinite in floating point and is replaced by 0; since
   * the distance is positive there is no 0/0 case.
   */
  function Featurize(r: RawTrip): (c: CleanTrip)
    requires Kept(r)
    ensures Source(c) == r
    ensures WellFormed(c)
  {
    var pickup := r.pickup.value;
    var seconds := (r.dropoff.value - pickup) as real;
    var minutes := seconds / 60.0;
    var hours := minutes / 60.0;
    var speed := if hours == 0.0 then 0.0 else r.distance.value / hours;
    CleanTrip(pickup, r.dropoff.value, r.puLocation.value, r.doLocation.value,
              r.distance.value, r.fare.value, r.totalAmount, r.passengers.value, r.paymentType,
              minutes, speed, HourOf(pickup), DayName(pickup))
  }

  function AddFeatures(rows: seq<RawTrip>): (cs: seq<CleanTrip>)
    requires forall r :: r in rows ==> Kept(r)
    ensures Sources(cs) == rows
    ensures forall c :: c in cs ==> WellFormed(c)
  {
    seq(|rows|, i requires 0 <= i < |rows| => Featurize(rows[i]))
  }

  /** The rows cleaning keeps, before the derived columns are added. */
  function KeptRows(raw: seq<RawTrip>): (rows: seq<RawTrip>)
    ensures forall r :: r in rows ==> Kept(r)
  {
    var rows := Where(raw, CleaningSteps);
    forall r | r in rows ensures Kept(r) { KeptIsAllSteps(r); }
    rows
  }

  /** The cleaned, feature-enriched dataset computed from the raw trip file. */
  function Clean(raw: seq<RawTrip>): (cs: seq<CleanTrip>)
    ensures |cs| <= |raw|
    ensures forall c :: c in cs ==> WellFormed(c)
  {
    AddFeatures(KeptRows(raw))
  }

  /**
   * The cleaning body as the source runs it: `df` is rebound through one mask
   * after another, then the derived columns are assigned.
   */
  method CleanFrame(raw: seq<RawTrip>) returns (df: seq<CleanTrip>)
    ensures df == Clean(raw)
  {
    var rows := raw;
    ghost var applied: seq<Mask> := [];
    assert rows == Where(raw, applied) by { SelectKeepsAll(raw, (r: RawTrip) => AllHold([], r)); }
    rows := Where(rows, [InJanuary]);
    WhereThenWhere(raw, applied, [InJanuary]); applied := applied + [InJanuary];
    rows := Where(rows, [CriticalPresent]);
    WhereThenWhere(raw, applied, [CriticalPresent]); applied := applied + [CriticalPresent];
    rows := Where(rows, [PositiveDistance]);
    WhereThenWhere(raw, applied, [PositiveDistance]); applied := applied + [PositiveDistance];
    rows := Where(rows, [FareInRange]);
    WhereThenWhere(raw, applied, [FareInRange]); applied := applied + [FareInRange];
    rows := Where(rows, [DropoffNotBeforePickup]);
    WhereThenWhere(raw, applied, [DropoffNotBeforePickup]); applied := applied + [DropoffNotBeforePickup];
    rows := Where(rows, [PositivePassengers]);
    WhereThenWhere(raw, applied, [PositivePassengers]); applied := applied + [PositivePassengers];
    rows := Where(rows, [DistanceBelowLimit]);
    WhereThenWhere(raw, applied, [DistanceBelowLimit]); applied := applied + [DistanceBelowLimit];
    assert applied == CleaningSteps;
    assert rows == KeptRows(raw);
    df := AddFeatures(rows);
  }

  /** Dropping the derived columns of the cleaned data gives back exactly the kept raw rows, in order. */
  lemma CleanOnlyRemovesRows(raw: seq<RawTrip>) returns (idx: seq<nat>)
    ensures Embeds(Sources(Clean(raw)), raw, idx)
    ensures forall j :: 0 <= j < |raw| ==> (j in idx <==> Kept(raw[j]))
  {
    idx := SelectPositions(raw, (r: RawTrip) => AllHold(CleaningSteps, r));
    forall j | 0 <= j < |raw| ensures AllHold(CleaningSteps, raw[j]) <==> Kept(raw[j]) {
      KeptIsAllSteps(raw[j]);
    }
  }

  /** Every raw row, with all its copies, is kept exactly when it meets every cleaning rule. */
  lemma CleanKeepsExactlyKeptRows(raw: seq<RawTrip>, r: RawTrip)
    ensures multiset(Sources(Clean(raw)))[r] == if Kept(r) then multiset(raw)[r] else 0
  {
    SelectMultiplicity(raw, (x: RawTrip) => AllHold(CleaningSteps, x), r);
    KeptIsAllSteps(r);
  }

  /** Cleaning rows that already meet every rule keeps them all, in order. */
  lemma CleanKeepsCleanRows(raw: seq<RawTrip>)
    requires forall r :: r in raw ==> Kept(r)
    ensures Sources(Clean(raw)) == raw
  {
    forall r | r in raw ensures AllHold(CleaningSteps, r) { KeptIsAllSteps(r); }
    SelectKeepsAll(raw, (x: RawTrip) => AllHold(CleaningSteps, x));
  }

  /** Cleaning the cleaned data again changes nothing: the derived columns come out the same. */
  lemma CleanIdempotent(raw: seq<RawTrip>)
    ensures Clean(Sources(Clean(raw))) == Clean(raw)
  {
    CleanKeepsCleanRows(Sources(Clean(raw)));
  }

  /**
   * A trip picked up 2024-01-05 08:00 and dropped off at 08:15 after 2 miles
   * lasts 15 minutes at 8 mph, in hour 8 of a Friday.
   */
  lemma FridayMorningTrip()
    ensures var pickup := 4 * SecondsPerDay + 8 * SecondsPerHour;
            var raw := RawTrip(Some(pickup), Some(pickup + 15 * 60), Some(161), Some(237),
                               Some(2.0), Some(10.0), Some(14.0), Some(1), Some(1));
            var cs := Clean([raw]);
            |cs| == 1 && cs[0].durationMinutes == 15.0 && cs[0].speedMph == 8.0
            && cs[0].pickupHour == 8 && cs[0].pickupDayOfWeek == "Friday"
  {
    var pickup := 4 * SecondsPerDay + 8 * SecondsPerHour;
    var raw := RawTrip(Some(pickup), Some(pickup + 15 * 60), Some(161), Some(237),
                       Some(2.0), Some(10.0), Some(14.0), Some(1), Some(1));
    KeptIsAllSteps(raw);
    assert Where([raw], CleaningSteps) == [raw];
  }
}
