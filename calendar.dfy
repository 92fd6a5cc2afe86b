/** Naive (time-zone-free) timestamps as pandas sees them: whole seconds since
    1970-01-01 00:00:00, with the calendar fields pandas exposes through `.dt`. */
module Calendar {

  /** Seconds since 1970-01-01 00:00:00 (a day is always 86400 seconds: no zones, no DST). */
  type Timestamp = int

  const SecondsPerMinute: int := 60
  const SecondsPerHour: int := 3600
  const SecondsPerDay: int := 86400

  /** A proleptic Gregorian calendar date. */
  datatype Date = Date(year: int, month: int, day: int)

  /** Days since 1970-01-01 of the day holding `t`. */
  function DayIndex(t: Timestamp): int {
    t / SecondsPerDay
  }

  /** `t.floor("h")` as an hour index: hours since 1970-01-01 00:00. */
  function HourIndex(t: Timestamp): (h: int)
    ensures h * SecondsPerHour <= t < (h + 1) * SecondsPerHour
  {
    t / SecondsPerHour
  }

  /** Midnight of the day holding `t`. */
  function StartOfDay(t: Timestamp): (m: Timestamp)
    ensures m <= t < m + SecondsPerDay
  {
    DayIndex(t) * SecondsPerDay
  }

  /** `pd.Timestamp(year, month, day, hour, minute)` on the day of `t`. */
  function OnDayOf(t: Timestamp, hour: nat, minute: nat): (r: Timestamp)
    requires hour < 24 && minute < 60
    ensures DayIndex(r) == DayIndex(t)
    ensures r - StartOfDay(t) == hour * SecondsPerHour + minute * SecondsPerMinute
  {
    StartOfDay(t) + hour * SecondsPerHour + minute * SecondsPerMinute
  }

  /** Hour of day (0..23) of an hour index. */
  function HourOfDay(h: int): (hd: nat)
    ensures hd < 24
  {
    h % 24
  }

  /** `t.hour`. */
  function Hour(t: Timestamp): (hd: nat)
    ensures hd < 24
  {
    HourOfDay(HourIndex(t))
  }

  /** Day of the week of a day index, Monday = 0 … Sunday = 6 (1970-01-01 was a Thursday). */
  function WeekdayOfDay(d: int): (w: nat)
    ensures w < 7
  {
    (d + 3) % 7
  }

  /** `t.dayofweek`. */
  function DayOfWeek(t: Timestamp): (w: nat)
    ensures w < 7
  {
    WeekdayOfDay(DayIndex(t))
  }

  /** Day of the week of the hour index `h`. */
  function DayOfWeekOfHour(h: int): (w: nat)
    ensures w < 7
  {
    WeekdayOfDay(h / 24)
  }

  /** The calendar date of a day index (days-to-civil conversion of the proleptic
      Gregorian calendar, in 400-year eras starting on 0000-03-01). */
  function CivilFromDays(days: int): Date {
    var z := days + 719468;
    var era := z / 146097;
    var doe := z - era * 146097;
    var yoe := (doe - doe / 1460 + doe / 36524 - doe / 146096) / 365;
    var doy := doe - (365 * yoe + yoe / 4 - yoe / 100);
    var mp := (5 * doy + 2) / 153;
    var d := doy - (153 * mp + 2) / 5 + 1;
    var m := if mp < 10 then mp + 3 else mp - 9;
    Date(yoe + era * 400 + (if m <= 2 then 1 else 0), m, d)
  }

  /** `t.year`, `t.month`, `t.day`. */
  function Year(t: Timestamp): int { CivilFromDays(DayIndex(t)).year }
  function Month(t: Timestamp): int { CivilFromDays(DayIndex(t)).month }
  function DayOfMonth(t: Timestamp): int { CivilFromDays(DayIndex(t)).day }

  /** Month of the hour index `h`. */
  function MonthOfHour(h: int): int { CivilFromDays(h / 24).month }

  /** The hour-index calendar fields agree with those of the hour's first second. */
  lemma HourFields(h: int)
    ensures HourIndex(h * SecondsPerHour) == h
    ensures DayIndex(h * SecondsPerHour) == h / 24
    ensures Hour(h * SecondsPerHour) == HourOfDay(h)
    ensures DayOfWeek(h * SecondsPerHour) == DayOfWeekOfHour(h)
    ensures Month(h * SecondsPerHour) == MonthOfHour(h)
  {
    var t := h * SecondsPerHour;
    assert t == (h / 24) * SecondsPerDay + (h % 24) * SecondsPerHour;
  }

  /** Day 19422 is Monday 2023-03-06. */
  lemma KnownMonday()
    ensures CivilFromDays(19422) == Date(2023, 3, 6) && WeekdayOfDay(19422) == 0
  {
    var z := 19422 + 719468;
    assert z / 146097 == 5;
    var doe := z - 5 * 146097;
    assert doe == 8405;
    assert (doe - doe / 1460 + doe / 36524 - doe / 146096) / 365 == 23;
    assert doe - (365 * 23 + 23 / 4 - 23 / 100) == 5;
  }

  /** The hour index is the day's first hour plus the hour of the day. */
  lemma HourIndexSplit(t: Timestamp)
    ensures HourIndex(t) == DayIndex(t) * 24 + Hour(t)
  {
    var h := t / SecondsPerHour;
    var d := t / SecondsPerDay;
    assert d * SecondsPerDay <= t < (d + 1) * SecondsPerDay;
    assert h * SecondsPerHour <= t < (h + 1) * SecondsPerHour;
    assert d * 24 <= h < d * 24 + 24;
    assert h / 24 == d;
  }

  /** Flooring to the hour is monotone. */
  lemma HourIndexMonotone(a: Timestamp, b: Timestamp)
    requires a <= b
    ensures HourIndex(a) <= HourIndex(b)
  {
  }
}
