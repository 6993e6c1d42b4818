/** The date helpers of src/utils/date.ts, over naive local time.

    A JavaScript `Date` is an instant.  With no time zone and no daylight
    saving (the system's naive wall-clock reading), an instant is a whole
    number of minutes since 0000-01-01 00:00, and a calendar day is 1440 of
    them.  Every instant the layout sees comes from the text form, so it is a
    whole minute. */
module Dates {
  import opened Wrappers
  import opened DateTimes

  type Instant = int

  const MinutesPerDay: int := 1440
  const MinutesPerWeek: int := 7 * MinutesPerDay

  /** The instant a wall-clock reading names. */
  function ToInstant(dt: DateTime): Instant
    requires Valid(dt)
  {
    MinutesPerDay * DayNumber(dt) + 60 * dt.hour + dt.minute
  }

  /** The calendar day an instant falls on. */
  function DayOf(t: Instant): int
  {
    t / MinutesPerDay
  }

  /** Sunday is 0 ... Saturday is 6; day 0, 1 January of year 0, was a Saturday. */
  function Weekday(day: int): (w: int)
    ensures 0 <= w < 7
  {
    (day + 6) % 7
  }

  /** `startOfDay(d)`. */
  function StartOfDay(t: Instant): (r: Instant)
    ensures r <= t < r + MinutesPerDay
    ensures r % MinutesPerDay == 0 && DayOf(r) == DayOf(t)
  {
    t - t % MinutesPerDay
  }

  /** `toDate(s)`: the instant `s` names, or `None` for date-fns's Invalid Date.
      The instant falls on the calendar day of the date read, `60 * hour +
      minute` minutes after its midnight. */
  function ToDate(s: string): (r: Option<Instant>)
    ensures r.Some? <==> Parse(s).Some?
    ensures r.Some? ==> DayOf(r.value) == DayNumber(Parse(s).value)
    ensures r.Some? ==> MinutesFromDayStart(r.value) == 60 * Parse(s).value.hour + Parse(s).value.minute
  {
    match Parse(s)
    case None => None
    case Some(dt) => InstantParts(dt); Some(ToInstant(dt))
  }

  /** `differenceInMinutes(a, b)`, exact on whole minutes. */
  function DifferenceInMinutes(a: Instant, b: Instant): int
  {
    a - b
  }

  /** `minutesFromWeekStart(d, weekStart)`: from a week start, whole days of
      1440 minutes and then the minutes into the day. */
  function MinutesFromWeekStart(d: Instant, weekStart: Instant): (m: int)
    ensures IsWeekStart(weekStart) ==>
      m == MinutesPerDay * DayIndexFromWeekStart(d, weekStart) + MinutesFromDayStart(d)
  {
    assert weekStart % MinutesPerDay == 0 ==> weekStart == MinutesPerDay * DayOf(weekStart);
    assert d == MinutesPerDay * DayOf(d) + d % MinutesPerDay;
    DifferenceInMinutes(d, weekStart)
  }

  /** `minutesFromDayStart(d)`: minutes since local midnight. */
  function MinutesFromDayStart(d: Instant): (m: int)
    ensures 0 <= m < MinutesPerDay
    ensures d - m == StartOfDay(d)
  {
    DifferenceInMinutes(d, StartOfDay(d))
  }

  /** `dayIndexFromWeekStart(d, weekStart)`: `differenceInCalendarDays`, the
      number of midnights between the two dates, whatever the times of day.
      Inside the week of a week start it runs from 0 (Sunday) to 6 (Saturday)
      and is the weekday of `d`. */
  function DayIndexFromWeekStart(d: Instant, weekStart: Instant): (i: int)
    ensures IsWeekStart(weekStart) && weekStart <= d < weekStart + MinutesPerWeek ==>
      0 <= i <= 6 && i == Weekday(DayOf(d))
  {
    assert weekStart % MinutesPerDay == 0 ==> weekStart == MinutesPerDay * DayOf(weekStart);
    DayOf(d) - DayOf(weekStart)
  }

  /** The Sunday 00:00 instants. */
  predicate IsWeekStart(w: Instant)
  {
    w % MinutesPerDay == 0 && Weekday(DayOf(w)) == 0
  }

  /** `normalizeWeekStart(d)`: `startOfWeek(d, { weekStartsOn: 0 })`, going
      back from `d`'s midnight by its weekday. */
  function NormalizeWeekStart(d: Instant): (w: Instant)
    ensures IsWeekStart(w)
    ensures w <= d < w + MinutesPerWeek
  {
    var q := DayOf(d);
    var back := Weekday(q);
    assert StartOfDay(d) == MinutesPerDay * q;
    var w := MinutesPerDay * (q - back);
    assert DayOf(w) == q - back;
    w
  }

  /** `inSameWeek(ds, weekStart)`: `isSameWeek(toDate(ds), weekStart)`, which
      compares the two week starts; an Invalid Date is in no week.  Against a
      week start it is the half-open seven-day window. */
  function InSameWeek(ds: string, weekStart: Instant): (b: bool)
    ensures IsWeekStart(weekStart) ==>
      (b <==> ToDate(ds).Some? && weekStart <= ToDate(ds).value < weekStart + MinutesPerWeek)
  {
    match ToDate(ds)
    case None => false
    case Some(t) =>
      NormalizeIdempotent(weekStart);
      WeekContainment(t, weekStart);
      NormalizeWeekStart(t) == NormalizeWeekStart(weekStart)
  }

  /** `formatTime(s)`: `h:mma` lower-cased, e.g. `9:05am`.  date-fns's
      `format` throws on an Invalid Date, which is `None` here. */
  function FormatTime(s: string): (r: Option<string>)
    ensures r.Some? <==> ToDate(s).Some?
  {
    match ToDate(s)
    case None => None
    case Some(t) =>
      var m := MinutesFromDayStart(t);
      Some(Lower(ClockText(m / 60, m % 60)))
  }

  /** `formatRange(s, e)`: the two times joined by a hyphen. */
  function FormatRange(s: string, e: string): (r: Option<string>)
    ensures r.Some? <==> ToDate(s).Some? && ToDate(e).Some?
    ensures r.Some? ==> r.value == FormatTime(s).value + "-" + FormatTime(e).value
  {
    match (FormatTime(s), FormatTime(e))
    case (Some(a), Some(b)) => Some(a + "-" + b)
    case _ => None
  }

  /** JavaScript's `toLowerCase` on the characters a clock text can hold. */
  function LowerChar(c: char): char
  {
    if 'A' <= c <= 'Z' then (c as int - 'A' as int + 'a' as int) as char else c
  }

  function Lower(s: string): (r: string)
    ensures |r| == |s| && forall i :: 0 <= i < |s| ==> r[i] == LowerChar(s[i])
  {
    seq(|s|, i requires 0 <= i < |s| => LowerChar(s[i]))
  }

  // ---------------------------------------------------------------------
  // Properties

  /** The instant of a date-time lies on its calendar day, `60 * hour + minute`
      minutes after midnight. */
  lemma InstantParts(dt: DateTime)
    requires Valid(dt)
    ensures DayOf(ToInstant(dt)) == DayNumber(dt)
    ensures MinutesFromDayStart(ToInstant(dt)) == 60 * dt.hour + dt.minute
  {
    var t := ToInstant(dt);
    var m := 60 * dt.hour + dt.minute;
    assert 0 <= m < MinutesPerDay;
    assert t / MinutesPerDay == DayNumber(dt);
    assert t % MinutesPerDay == m;
  }

  /** Distinct date-times are distinct instants. */
  lemma ToInstantInjective(a: DateTime, b: DateTime)
    requires Valid(a) && Valid(b)
    requires ToInstant(a) == ToInstant(b)
    ensures a == b
  {
    InstantParts(a);
    InstantParts(b);
    DayNumberInjective(a, b);
    assert 60 * a.hour + a.minute == 60 * b.hour + b.minute;
  }

  /** A time stamp the producers write reads as the instant of its date-time,
      and no other text reads as that instant. */
  lemma ToDateFormat(dt: DateTime, s: string)
    requires Formattable(dt)
    ensures ToDate(Format(dt)) == Some(ToInstant(dt))
    ensures ToDate(s) == Some(ToInstant(dt)) ==> s == Format(dt)
  {
    ParseFormat(dt);
    if ToDate(s) == Some(ToInstant(dt)) {
      var p := Parse(s).value;
      ToInstantInjective(p, dt);
      FormatParse(s);
    }
  }

  /** `dayIndexFromWeekStart` counts calendar dates: it is the difference of
      day numbers, and the time of day of either argument does not matter. */
  lemma DayIndexCountsDates(dt: DateTime, weekStart: Instant)
    requires Valid(dt)
    ensures DayIndexFromWeekStart(ToInstant(dt), weekStart) == DayNumber(dt) - DayOf(weekStart)
    ensures DayIndexFromWeekStart(ToInstant(dt), weekStart)
         == DayIndexFromWeekStart(StartOfDay(ToInstant(dt)), StartOfDay(weekStart))
  {
    InstantParts(dt);
  }

  /** A week start is the only week start whose week holds the instants of its
      seven days: `d` is in `[w, w + 7 days)` exactly when `d`'s week starts at `w`. */
  lemma WeekContainment(d: Instant, w: Instant)
    ensures IsWeekStart(w) ==> (w <= d < w + MinutesPerWeek <==> NormalizeWeekStart(d) == w)
  {
    var n := NormalizeWeekStart(d);
    if IsWeekStart(w) && w <= d < w + MinutesPerWeek {
      SameWeekStart(n, w);
    }
  }

  /** Two week starts less than a week apart are equal. */
  lemma SameWeekStart(a: Instant, b: Instant)
    requires IsWeekStart(a) && IsWeekStart(b)
    requires a - MinutesPerWeek < b < a + MinutesPerWeek
    ensures a == b
  {
    var p, q := DayOf(a), DayOf(b);
    assert a == MinutesPerDay * p && b == MinutesPerDay * q;
    assert p - 7 < q < p + 7;
    assert (p + 6) % 7 == 0 && (q + 6) % 7 == 0;
  }

  /** `normalizeWeekStart` is idempotent and fixes exactly the week starts. */
  lemma NormalizeIdempotent(d: Instant)
    ensures NormalizeWeekStart(NormalizeWeekStart(d)) == NormalizeWeekStart(d)
    ensures NormalizeWeekStart(d) == d <==> IsWeekStart(d)
  {
    var w := NormalizeWeekStart(d);
    WeekContainment(w, w);
    if IsWeekStart(d) {
      WeekContainment(d, d);
    }
  }

  /** Inside its week, a day index runs from 0 (Sunday) to 6 (Saturday) and is
      the weekday of the instant. */
  lemma DayIndexInWeek(s: string, w: Instant)
    requires IsWeekStart(w) && InSameWeek(s, w)
    ensures 0 <= DayIndexFromWeekStart(ToDate(s).value, w) <= 6
    ensures DayIndexFromWeekStart(ToDate(s).value, w) == Weekday(DayOf(ToDate(s).value))
  {
  }

  /** The time text is the tail of the time stamp, lower-cased. */
  lemma FormatTimeOfStamp(s: string)
    requires Parse(s).Some?
    ensures FormatTime(s) == Some(Lower(s[11..]))
  {
    var dt := Parse(s).value;
    FormatTimeOfParse(s);
    ClockTail(s);
  }

  lemma FormatTimeOfParse(s: string)
    requires Parse(s).Some?
    ensures FormatTime(s) == Some(Lower(ClockText(Parse(s).value.hour, Parse(s).value.minute)))
  {
    var dt := Parse(s).value;
    var m := 60 * dt.hour + dt.minute;
    assert m / 60 == dt.hour && m % 60 == dt.minute;
  }

  lemma ClockTail(s: string)
    requires Parse(s).Some?
    ensures s[11..] == ClockText(Parse(s).value.hour, Parse(s).value.minute)
  {
    ClockTextOfParse(s[11..]);
    assert ParseClock(s[11..]).value == (Parse(s).value.hour, Parse(s).value.minute);
  }

  /** 10 March 2024 was a Sunday: the weekday numbering agrees with the calendar. */
  lemma March10of2024IsSunday()
    ensures ToDate("03/10/2024 12:00AM").Some?
    ensures IsWeekStart(ToDate("03/10/2024 12:00AM").value)
  {
    var dt := DateTime(2024, 3, 10, 0, 0);
    assert Format(dt) == "03/10/2024 12:00AM";
    ParseFormat(dt);
    InstantParts(dt);
    assert DayNumber(dt) == 739320;
  }
}
