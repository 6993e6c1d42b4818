/** Naive wall-clock date-times in the proleptic Gregorian calendar and the
    one text form the system stores them in, `MM/dd/yyyy h:mma`
    (for example `03/14/2024 9:05AM`). */
module DateTimes {
  import opened Wrappers

  datatype DateTime = DateTime(year: int, month: int, day: int, hour: int, minute: int)

  predicate IsLeapYear(y: int)
  {
    y % 4 == 0 && (y % 100 != 0 || y % 400 == 0)
  }

  function DaysInMonth(y: int, m: int): (n: int)
    requires 1 <= m <= 12
    ensures 28 <= n <= 31
    ensures n == 29 <==> m == 2 && IsLeapYear(y)
  {
    if m == 2 then (if IsLeapYear(y) then 29 else 28)
    else if m == 4 || m == 6 || m == 9 || m == 11 then 30
    else 31
  }

  predicate ValidDate(y: int, m: int, d: int)
  {
    1 <= m <= 12 && 1 <= d <= DaysInMonth(y, m)
  }

  /** A real calendar date and a clock reading within the day. */
  predicate Valid(dt: DateTime)
  {
    ValidDate(dt.year, dt.month, dt.day) && 0 <= dt.hour < 24 && 0 <= dt.minute < 60
  }

  /** Days from 1 January of year 0 to 1 January of year `y`: 365 per year
      plus one per leap year in between. */
  function DaysBeforeYear(y: int): int
  {
    365 * y + (y + 3) / 4 - (y + 99) / 100 + (y + 399) / 400
  }

  function DaysInYear(y: int): int
  {
    if IsLeapYear(y) then 366 else 365
  }

  /** Days from 1 January to the first of month `m` of year `y`. */
  function DaysBeforeMonth(y: int, m: int): (n: int)
    requires 1 <= m <= 12
    ensures 0 <= n <= 334 + (if IsLeapYear(y) then 1 else 0)
    ensures m > 1 ==> n == DaysBeforeMonth(y, m - 1) + DaysInMonth(y, m - 1)
  {
    if m == 1 then 0 else DaysBeforeMonth(y, m - 1) + DaysInMonth(y, m - 1)
  }

  /** Days-from-civil: the number of the calendar day, 0 on 1 January of year 0. */
  function DayNumber(dt: DateTime): int
    requires ValidDate(dt.year, dt.month, dt.day)
  {
    DaysBeforeYear(dt.year) + DaysBeforeMonth(dt.year, dt.month) + dt.day - 1
  }

  /** Consecutive years are a year's length apart. */
  lemma DaysBeforeNextYear(y: int)
    ensures DaysBeforeYear(y + 1) == DaysBeforeYear(y) + DaysInYear(y)
  {
    Step4(y);
    Step100(y);
    Step400(y);
    CenturyDivisibility(y);
  }

  /** A multiple of 400 is one of 100, and a multiple of 100 one of 4. */
  lemma CenturyDivisibility(y: int)
    ensures y % 400 == 0 ==> y % 100 == 0
    ensures y % 100 == 0 ==> y % 4 == 0
  {
    var q4, q100 := y / 400, y / 100;
    assert y == 400 * q4 + y % 400 && y == 100 * q100 + y % 100;
  }

  lemma Step4(y: int)
    ensures (y + 4) / 4 == (y + 3) / 4 + (if y % 4 == 0 then 1 else 0)
  {
  }

  lemma Step100(y: int)
    ensures (y + 100) / 100 == (y + 99) / 100 + (if y % 100 == 0 then 1 else 0)
  {
  }

  lemma Step400(y: int)
    ensures (y + 400) / 400 == (y + 399) / 400 + (if y % 400 == 0 then 1 else 0)
  {
  }

  /** A year's days are numbered below the next year's first day. */
  lemma DayWithinYear(dt: DateTime)
    requires ValidDate(dt.year, dt.month, dt.day)
    ensures DaysBeforeYear(dt.year) <= DayNumber(dt) < DaysBeforeYear(dt.year + 1)
  {
    DaysBeforeNextYear(dt.year);
    MonthWithinYear(dt.year, dt.month);
  }

  lemma {:induction false} MonthWithinYear(y: int, m: int)
    requires 1 <= m <= 12
    ensures DaysBeforeMonth(y, m) + DaysInMonth(y, m) <= DaysInYear(y)
    decreases 12 - m
  {
    if m < 12 {
      MonthWithinYear(y, m + 1);
    }
  }

  lemma {:induction false} MonthsIncrease(y: int, m1: int, m2: int)
    requires 1 <= m1 < m2 <= 12
    ensures DaysBeforeMonth(y, m1) + DaysInMonth(y, m1) <= DaysBeforeMonth(y, m2)
    decreases m2 - m1
  {
    if m1 + 1 < m2 {
      MonthsIncrease(y, m1, m2 - 1);
    }
  }

  lemma {:induction false} YearsIncrease(y1: int, y2: int)
    requires y1 < y2
    ensures DaysBeforeYear(y1 + 1) <= DaysBeforeYear(y2)
    decreases y2 - y1
  {
    if y1 + 1 < y2 {
      YearsIncrease(y1, y2 - 1);
      DaysBeforeNextYear(y2 - 1);
    }
  }

  /** Calendar order on the date part. */
  predicate DateBefore(a: DateTime, b: DateTime)
  {
    a.year < b.year
    || (a.year == b.year && a.month < b.month)
    || (a.year == b.year && a.month == b.month && a.day < b.day)
  }

  /** The day number follows the calendar: an earlier date has a smaller number. */
  lemma DayNumberIncreasing(a: DateTime, b: DateTime)
    requires ValidDate(a.year, a.month, a.day) && ValidDate(b.year, b.month, b.day)
    requires DateBefore(a, b)
    ensures DayNumber(a) < DayNumber(b)
  {
    if a.year < b.year {
      DayWithinYear(a);
      YearsIncrease(a.year, b.year);
    } else if a.month < b.month {
      MonthsIncrease(a.year, a.month, b.month);
    }
  }

  /** So two dates with the same day number are the same date. */
  lemma DayNumberInjective(a: DateTime, b: DateTime)
    requires ValidDate(a.year, a.month, a.day) && ValidDate(b.year, b.month, b.day)
    requires DayNumber(a) == DayNumber(b)
    ensures a.year == b.year && a.month == b.month && a.day == b.day
  {
    if DateBefore(a, b) {
      DayNumberIncreasing(a, b);
    } else if DateBefore(b, a) {
      DayNumberIncreasing(b, a);
    }
  }

  // ---------------------------------------------------------------------
  // The text form `MM/dd/yyyy h:mma`

  predicate IsDigit(c: char)
  {
    '0' <= c <= '9'
  }

  predicate AllDigits(s: string)
  {
    forall i :: 0 <= i < |s| ==> IsDigit(s[i])
  }

  function DigitValue(c: char): (n: int)
    requires IsDigit(c)
    ensures 0 <= n < 10
  {
    c as int - '0' as int
  }

  function DigitChar(n: int): (c: char)
    requires 0 <= n < 10
    ensures IsDigit(c) && DigitValue(c) == n
  {
    (n + '0' as int) as char
  }

  /** The value of a two-digit field. */
  function Value2(s: string): (n: int)
    requires |s| == 2 && AllDigits(s)
    ensures 0 <= n < 100
  {
    10 * DigitValue(s[0]) + DigitValue(s[1])
  }

  /** The value of a four-digit field. */
  function Value4(s: string): (n: int)
    requires |s| == 4 && AllDigits(s)
    ensures 0 <= n < 10000
  {
    100 * Value2(s[..2]) + Value2(s[2..])
  }

  /** A number below 100 written with two digits, zero-padded. */
  function Pad2(n: int): (s: string)
    requires 0 <= n < 100
    ensures |s| == 2 && AllDigits(s) && Value2(s) == n
  {
    [DigitChar(n / 10), DigitChar(n % 10)]
  }

  /** A number below 10000 written with four digits, zero-padded. */
  function Pad4(n: int): (s: string)
    requires 0 <= n < 10000
    ensures |s| == 4 && AllDigits(s) && Value4(s) == n
  {
    var s := Pad2(n / 100) + Pad2(n % 100);
    assert s[..2] == Pad2(n / 100) && s[2..] == Pad2(n % 100);
    s
  }

  lemma Pad2OfValue(s: string)
    requires |s| == 2 && AllDigits(s)
    ensures Pad2(Value2(s)) == s
  {
    var x, y := DigitValue(s[0]), DigitValue(s[1]);
    assert (10 * x + y) / 10 == x && (10 * x + y) % 10 == y;
  }

  lemma Pad4OfValue(s: string)
    requires |s| == 4 && AllDigits(s)
    ensures Pad4(Value4(s)) == s
  {
    var hi, lo := Value2(s[..2]), Value2(s[2..]);
    assert (100 * hi + lo) / 100 == hi && (100 * hi + lo) % 100 == lo;
    Pad2OfValue(s[..2]);
    Pad2OfValue(s[2..]);
    assert s == s[..2] + s[2..];
  }

  /** The 12-hour clock hour `h` shows for a 24-hour hour. */
  function Hour12(h: int): (r: int)
    requires 0 <= h < 24
    ensures 1 <= r <= 12 && r % 12 == h % 12
  {
    if h % 12 == 0 then 12 else h % 12
  }

  /** The `h` token: the 12-hour clock hour without a leading zero. */
  function HourText(h12: int): (s: string)
    requires 1 <= h12 <= 12
    ensures 1 <= |s| <= 2 && AllDigits(s) && s[0] != '0'
  {
    if h12 < 10 then [DigitChar(h12)] else Pad2(h12)
  }

  /** The `a` token: `AM` before noon, `PM` from noon on. */
  function Meridiem(h: int): string
  {
    if h < 12 then "AM" else "PM"
  }

  /** `h:mma` for a 24-hour clock reading. */
  function ClockText(h: int, m: int): (s: string)
    requires 0 <= h < 24 && 0 <= m < 60
    ensures 6 <= |s| <= 7
  {
    HourText(Hour12(h)) + ":" + Pad2(m) + Meridiem(h)
  }

  /** What the four-digit `yyyy` token can write back and read: years 1 to
      9999 (date-fns reads year 0 as invalid). */
  predicate Formattable(dt: DateTime)
  {
    Valid(dt) && 1 <= dt.year < 10000
  }

  /** `format(d, "MM/dd/yyyy h:mma")`, as the record producers write it. */
  function Format(dt: DateTime): (s: string)
    requires Formattable(dt)
    ensures 17 <= |s| <= 18
  {
    Pad2(dt.month) + "/" + Pad2(dt.day) + "/" + Pad4(dt.year) + " " + ClockText(dt.hour, dt.minute)
  }

  /** Reads `h:mma` (the text after the date and the space): the hour and
      minute on the 24-hour clock, 12AM being hour 0 and 12PM hour 12. */
  function ParseClock(t: string): (r: Option<(int, int)>)
    ensures r.Some? ==> 0 <= r.value.0 < 24 && 0 <= r.value.1 < 60
  {
    var hourLen := if |t| == 6 then 1 else 2;
    if !(|t| == 6 || |t| == 7) || t[hourLen] != ':' then None
    else
      var hourText, minuteText, marker := t[..hourLen], t[hourLen + 1..hourLen + 3], t[hourLen + 3..];
      if !AllDigits(hourText) || hourText[0] == '0' || !AllDigits(minuteText) then None
      else
        var h12 := if hourLen == 1 then DigitValue(hourText[0]) else Value2(hourText);
        var m := Value2(minuteText);
        if h12 > 12 || m >= 60 || (marker != "AM" && marker != "PM") then None
        else Some((h12 % 12 + (if marker == "PM" then 12 else 0), m))
  }

  /** `parse(s, "MM/dd/yyyy h:mma", ...)`: `None` where date-fns yields an
      Invalid Date (the text does not match, names no real date, or names
      year 0). */
  function Parse(s: string): (r: Option<DateTime>)
    ensures r.Some? ==> Formattable(r.value)
  {
    if |s| < 11 || !AllDigits(s[0..2]) || s[2] != '/' || !AllDigits(s[3..5]) || s[5] != '/'
       || !AllDigits(s[6..10]) || s[10] != ' '
    then None
    else
      var month, day, year := Value2(s[0..2]), Value2(s[3..5]), Value4(s[6..10]);
      match ParseClock(s[11..])
      case None => None
      case Some((h, m)) =>
        if ValidDate(year, month, day) && 1 <= year then Some(DateTime(year, month, day, h, m)) else None
  }

  lemma ClockRoundTrip(h: int, m: int)
    requires 0 <= h < 24 && 0 <= m < 60
    ensures ParseClock(ClockText(h, m)) == Some((h, m))
  {
    var t := ClockText(h, m);
    var ht := HourText(Hour12(h));
    var hourLen := |ht|;
    assert t[..hourLen] == ht;
    assert t[hourLen] == ':';
    assert t[hourLen + 1..hourLen + 3] == Pad2(m);
    assert t[hourLen + 3..] == Meridiem(h);
    if hourLen == 2 {
      Pad2OfValue(ht);
    }
  }

  lemma ClockTextOfParse(t: string)
    requires ParseClock(t).Some?
    ensures ClockText(ParseClock(t).value.0, ParseClock(t).value.1) == t
  {
    var (h, m) := ParseClock(t).value;
    var hourLen := if |t| == 6 then 1 else 2;
    var hourText, minuteText, marker := t[..hourLen], t[hourLen + 1..hourLen + 3], t[hourLen + 3..];
    var h12 := if hourLen == 1 then DigitValue(hourText[0]) else Value2(hourText);
    assert Hour12(h) == h12;
    if hourLen == 2 {
      Pad2OfValue(hourText);
    } else {
      assert [DigitChar(h12)] == hourText;
    }
    Pad2OfValue(minuteText);
    assert Meridiem(h) == marker;
    assert t == hourText + ":" + minuteText + marker;
  }

  /** Formatting then parsing gives back the date-time. */
  lemma {:induction false} ParseFormat(dt: DateTime)
    requires Formattable(dt)
    ensures Parse(Format(dt)) == Some(dt)
  {
    var s := Format(dt);
    assert s[0..2] == Pad2(dt.month);
    assert s[3..5] == Pad2(dt.day);
    assert s[6..10] == Pad4(dt.year);
    assert s[11..] == ClockText(dt.hour, dt.minute);
    ClockRoundTrip(dt.hour, dt.minute);
  }

  /** Parsing then formatting gives back the text: the parser accepts exactly
      the strings the producers write. */
  lemma {:induction false} FormatParse(s: string)
    requires Parse(s).Some?
    ensures Format(Parse(s).value) == s
  {
    var dt := Parse(s).value;
    Pad2OfValue(s[0..2]);
    Pad2OfValue(s[3..5]);
    Pad4OfValue(s[6..10]);
    ClockTextOfParse(s[11..]);
    assert s == s[0..2] + "/" + s[3..5] + "/" + s[6..10] + " " + s[11..];
  }
}
