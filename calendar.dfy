/**
 * Pickup and dropoff instants are whole seconds counted from 2024-01-01 00:00:00,
 * which was a Monday. Dafny's `/` and `%` by a positive constant round toward
 * minus infinity, so the hour, date and weekday below are also right for
 * instants before 2024.
 */
module Calendar {
  import opened Wrappers
  import opened Sequences

  type Hour = h: int | 0 <= h < 24

  const SecondsPerHour := 3600
  const SecondsPerDay := 86400

  /** 2024-01-01 00:00 and 2024-02-01 00:00: the month the dashboard covers. */
  const JanuaryStart := 0
  const FebruaryStart := 31 * SecondsPerDay

  /** `DAY_ORDER`: the weekday names in the order the heatmap shows them. */
  const DayOrder: seq<string> := ["Monday", "Tuesday", "Wednesday", "Thursday", "Friday", "Saturday", "Sunday"]

  /** `.dt.date`: the calendar day, as a day number (0 is 2024-01-01). */
  function DateOf(t: int): int {
    t / SecondsPerDay
  }

  /** `.dt.hour`. */
  function HourOf(t: int): Hour {
    (t / SecondsPerHour) % 24
  }

  /** Position of the weekday of `t` in `DayOrder`. */
  function WeekdayIndex(t: int): (d: nat)
    ensures d < |DayOrder|
  {
    DateOf(t) % 7
  }

  /** `.dt.day_name()`. */
  function DayName(t: int): (name: string)
    ensures name in DayOrder
  {
    DayOrder[WeekdayIndex(t)]
  }

  /** The categorical code of a weekday name with categories `DayOrder`; `None` for any other string. */
  function DayCode(name: string): (code: Option<nat>)
    ensures code.Some? <==> name in DayOrder
    ensures code.Some? ==> code.value < |DayOrder| && DayOrder[code.value] == name
  {
    IndexOf(DayOrder, name)
  }

  /** The date, the hour and the offset within the hour put the instant back together. */
  lemma ClockDecomposition(t: int)
    ensures t == DateOf(t) * SecondsPerDay + HourOf(t) * SecondsPerHour + t % SecondsPerHour
    ensures 0 <= t % SecondsPerHour < SecondsPerHour
  {
    var q, r := t / 3600, t % 3600;
    assert t == 3600 * q + r;
    var d, h := q / 24, q % 24;
    assert q == 24 * d + h;
    assert t == 86400 * d + (3600 * h + r);
    assert t / 86400 == d;
  }

  /** The week starts on 2024-01-01, and the weekday moves on by one each day. */
  lemma WeekdayProgression(t: int)
    ensures DayName(JanuaryStart) == "Monday"
    ensures WeekdayIndex(t + SecondsPerDay) == (WeekdayIndex(t) + 1) % 7
    ensures DayName(t + 7 * SecondsPerDay) == DayName(t)
  {
    assert DateOf(t + SecondsPerDay) == DateOf(t) + 1;
    assert DateOf(t + 7 * SecondsPerDay) == DateOf(t) + 7;
  }

  /** Decoding the name of a weekday gives back its position: the names are distinct. */
  lemma DayCodeOfDayName(t: int)
    ensures DayCode(DayName(t)) == Some(WeekdayIndex(t))
  {
    assert forall j, k :: 0 <= j < k < 7 ==> DayOrder[j] != DayOrder[k];
  }
}
