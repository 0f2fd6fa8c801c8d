/** Proleptic Gregorian calendar arithmetic for the dashboard's week number,
    with times of day counted in whole seconds instead of JavaScript's
    floating-point milliseconds. */
module Calendar {
  import opened Basics
  import opened Text

  const SecondsPerDay: nat := 86400
  const SecondsPerWeek: nat := 7 * SecondsPerDay

  /** A local date and time as the fields `new Date("yyyy-MM-ddTHH:mm")` reads. */
  datatype DateTime = DateTime(year: int, month: int, day: int, hour: int, minute: int, second: int)

  predicate IsLeapYear(y: int)
  {
    y % 4 == 0 && (y % 100 != 0 || y % 400 == 0)
  }

  function DaysInYear(y: int): nat
  {
    if IsLeapYear(y) then 366 else 365
  }

  function DaysInMonth(y: int, m: int): nat
    requires 1 <= m <= 12
  {
    if m == 2 then (if IsLeapYear(y) then 29 else 28)
    else if m == 4 || m == 6 || m == 9 || m == 11 then 30
    else 31
  }

  /** Days of year `y` before the first of month `m` (`m == 13` is the whole year). */
  function DaysBeforeMonth(y: int, m: int): nat
    requires 1 <= m <= 13
  {
    var common := [0, 31, 59, 90, 120, 151, 181, 212, 243, 273, 304, 334, 365][m - 1];
    if IsLeapYear(y) && m > 2 then common + 1 else common
  }

  /** The cumulative table agrees with the month lengths. */
  lemma DaysBeforeMonthStep(y: int, m: int)
    requires 1 <= m <= 12
    ensures DaysBeforeMonth(y, m + 1) == DaysBeforeMonth(y, m) + DaysInMonth(y, m)
    ensures DaysBeforeMonth(y, 13) == DaysInYear(y)
  {
  }

  predicate IsValid(d: DateTime)
  {
    && 1 <= d.month <= 12 && 1 <= d.day <= DaysInMonth(d.year, d.month)
    && 0 <= d.hour < 24 && 0 <= d.minute < 60 && 0 <= d.second < 60
  }

  /** Whole days from January 1st of `d.year` to `d`'s date. */
  function DayOfYear(d: DateTime): (n: nat)
    requires IsValid(d)
    ensures n < DaysInYear(d.year)
  {
    DaysBeforeMonthStep(d.year, d.month);
    assert d.month + 1 <= 13;
    DaysBeforeMonthBounded(d.year, d.month + 1);
    DaysBeforeMonth(d.year, d.month) + d.day - 1
  }

  lemma DaysBeforeMonthBounded(y: int, m: int)
    requires 1 <= m <= 13
    ensures DaysBeforeMonth(y, m) <= DaysInYear(y)
  {
  }

  function SecondOfDay(d: DateTime): nat
    requires IsValid(d)
  {
    d.hour * 3600 + d.minute * 60 + d.second
  }

  /** Seconds elapsed since January 1st of `d.year`, 00:00:00. */
  function SecondOfYear(d: DateTime): (n: nat)
    requires IsValid(d)
    ensures n < DaysInYear(d.year) * SecondsPerDay
  {
    DayOfYear(d) * SecondsPerDay + SecondOfDay(d)
  }

  /** Days from 0001-01-01 to January 1st of year `y`. */
  function DaysBeforeYear(y: int): int
  {
    365 * (y - 1) + (y - 1) / 4 - (y - 1) / 100 + (y - 1) / 400
  }

  /** `new Date(y, 0, 1).getDay()`: 0 for Sunday up to 6 for Saturday
      (0001-01-01 was a Monday). */
  function Jan1Weekday(y: int): (w: nat)
    ensures w < 7
  {
    (DaysBeforeYear(y) + 1) % 7
  }

  lemma DivStep(y: int, d: int)
    requires d == 4 || d == 100 || d == 400
    ensures y / d - (y - 1) / d == (if y % d == 0 then 1 else 0)
  {
    var q := (y - 1) / d;
    var r := (y - 1) % d;
    if d == 4 {
      assert y == 4 * q + r + 1;
    } else if d == 100 {
      assert y == 100 * q + r + 1;
    } else {
      assert y == 400 * q + r + 1;
    }
  }

  /** Consecutive New Year's Days are a year's length apart in the week. */
  lemma NextJan1Weekday(y: int)
    ensures Jan1Weekday(y + 1) == (Jan1Weekday(y) + DaysInYear(y)) % 7
  {
    YearLength(y);
    var a := DaysBeforeYear(y) + 1;
    var n := DaysInYear(y);
    assert Jan1Weekday(y + 1) == (a + n) % 7;
    assert Jan1Weekday(y) == a % 7;
    ModShift(a, n);
  }

  lemma ModShift(a: int, n: int)
    ensures (a % 7 + n) % 7 == (a + n) % 7
  {
    var q := a / 7;
    assert a == 7 * q + a % 7;
    assert a + n == 7 * q + (a % 7 + n);
  }

  lemma YearLength(y: int)
    ensures DaysBeforeYear(y + 1) == DaysBeforeYear(y) + DaysInYear(y)
  {
    DivStep(y, 4);
    DivStep(y, 100);
    DivStep(y, 400);
  }

  /** January 1st, 2024 was a Monday. */
  lemma Jan1Of2024()
    ensures Jan1Weekday(2024) == 1
  {
  }

  /** June 1st, 2024 at 10:00 is in week 23: the days since January 1st
      plus the weekday plus one come to exactly 22 weeks at midnight, and the
      morning hours carry it into the next. */
  lemma June1Of2024Week()
    ensures WeekNumber(DateTime(2024, 6, 1, 10, 0, 0)) == 23
  {
    var d := DateTime(2024, 6, 1, 10, 0, 0);
    assert DayOfYear(d) == 152;
    Jan1Of2024();
    TimeOfDayCrossesWeek(d);
  }

  /** `getWeekNumber`: ceil((days since January 1st + weekday of January 1st + 1) / 7),
      where the days since January 1st include the fraction of the current day. */
  function WeekNumber(d: DateTime): (w: int)
    requires IsValid(d)
    ensures 1 <= w <= 54
    ensures (w - 1) * SecondsPerWeek < WeekNumerator(d) <= w * SecondsPerWeek
  {
    (WeekNumerator(d) + SecondsPerWeek - 1) / SecondsPerWeek
  }

  /** The quantity whose ceiling over a week is the week number, in seconds. */
  function WeekNumerator(d: DateTime): nat
    requires IsValid(d)
  {
    SecondOfYear(d) + (Jan1Weekday(d.year) + 1) * SecondsPerDay
  }

  /** On a day where the day count lands exactly on a multiple of seven, the
      week number at midnight is that multiple's week, and any later time of
      the same day already belongs to the next week. */
  lemma TimeOfDayCrossesWeek(d: DateTime)
    requires IsValid(d)
    requires (DayOfYear(d) + Jan1Weekday(d.year) + 1) % 7 == 0
    ensures SecondOfDay(d) == 0 ==> WeekNumber(d) == (DayOfYear(d) + Jan1Weekday(d.year) + 1) / 7
    ensures SecondOfDay(d) > 0 ==> WeekNumber(d) == (DayOfYear(d) + Jan1Weekday(d.year) + 1) / 7 + 1
  {
    var n := DayOfYear(d) + Jan1Weekday(d.year) + 1;
    var k := n / 7;
    var sod := SecondOfDay(d);
    assert n == 7 * k;
    assert WeekNumerator(d) == n * SecondsPerDay + sod;
    assert n * SecondsPerDay == k * SecondsPerWeek;
    if sod == 0 {
      WholeWeeks(k, SecondsPerWeek - 1);
    } else {
      assert WeekNumerator(d) + SecondsPerWeek - 1 == (k + 1) * SecondsPerWeek + (sod - 1);
      WholeWeeks(k + 1, sod - 1);
    }
  }

  lemma WholeWeeks(k: int, r: int)
    requires 0 <= r < SecondsPerWeek
    ensures (k * SecondsPerWeek + r) / SecondsPerWeek == k
  {
  }

  // ---------------------------------------------------------------------------
  // The `yyyy-MM-ddTHH:mm[:ss]` local date-time text the dashboard hands to `new Date`.

  /** The digits of `n` written in exactly `w` places, with leading zeros. */
  function Fixed(n: nat, w: nat): (s: string)
    ensures |s| == w && AllDigits(s)
  {
    if w == 0 then [] else Fixed(n / 10, w - 1) + [DigitChar(n % 10)]
  }

  function Pow10(w: nat): nat
  {
    if w == 0 then 1 else 10 * Pow10(w - 1)
  }

  lemma {:induction false} FixedValue(n: nat, w: nat)
    requires n < Pow10(w)
    ensures DigitsValue(Fixed(n, w)) == n
    decreases w
  {
    if w > 0 {
      FixedValue(n / 10, w - 1);
      var s := Fixed(n, w);
      assert s[..|s| - 1] == Fixed(n / 10, w - 1);
    }
  }

  /** Reads `s[i..i + w]` as a number when it is all digits. */
  function FieldAt(s: string, i: nat, w: nat): Option<nat>
    requires i + w <= |s|
  {
    if AllDigits(s[i..i + w]) then Some(DigitsValue(s[i..i + w])) else None
  }

  /** `new Date(text)` for the date-time forms `yyyy-MM-ddTHH:mm` and
      `yyyy-MM-ddTHH:mm:ss`, read as local time; any other text, or fields out
      of range, is an Invalid Date (`None`). */
  function ParseLocal(s: string): (r: Option<DateTime>)
    ensures r.Some? ==> IsValid(r.value) && 0 <= r.value.year <= 9999
  {
    if !(|s| == 16 || (|s| == 19 && s[16] == ':')) then None
    else if s[4] != '-' || s[7] != '-' || s[10] != 'T' || s[13] != ':' then None
    else
      var year := FieldAt(s, 0, 4);
      var month := FieldAt(s, 5, 2);
      var day := FieldAt(s, 8, 2);
      var hour := FieldAt(s, 11, 2);
      var minute := FieldAt(s, 14, 2);
      var second := if |s| == 19 then FieldAt(s, 17, 2) else Some(0);
      if year.None? || month.None? || day.None? || hour.None? || minute.None? || second.None? then None
      else
        FieldBound(s, 0, 4);
        var d := DateTime(year.value, month.value, day.value, hour.value, minute.value, second.value);
        if IsValid(d) then Some(d) else None
  }

  lemma FieldBound(s: string, i: nat, w: nat)
    requires i + w <= |s| && FieldAt(s, i, w).Some?
    ensures FieldAt(s, i, w).value < Pow10(w)
  {
    DigitsBound(s[i..i + w]);
  }

  lemma {:induction false} DigitsBound(s: string)
    requires AllDigits(s)
    ensures DigitsValue(s) < Pow10(|s|)
    decreases |s|
  {
    if |s| > 0 {
      DigitsBound(s[..|s| - 1]);
    }
  }

  /** The text `yyyy-MM-ddTHH:mm` for `d`: the form the dashboard builds
      from a record's date. */
  function FormatMinutes(d: DateTime): string
    requires IsValid(d) && 0 <= d.year <= 9999
  {
    Fixed(d.year, 4) + "-" + Fixed(d.month, 2) + "-" + Fixed(d.day, 2) + "T"
    + Fixed(d.hour, 2) + ":" + Fixed(d.minute, 2)
  }

  /** The text `yyyy-MM-ddTHH:mm:ss` for `d`. */
  function Format(d: DateTime): string
    requires IsValid(d) && 0 <= d.year <= 9999
  {
    FormatMinutes(d) + ":" + Fixed(d.second, 2)
  }

  /** Parsing the minute form reads back every field it wrote; the seconds
      are 0. */
  lemma ParseFormatMinutes(d: DateTime)
    requires IsValid(d) && 0 <= d.year <= 9999 && d.second == 0
    ensures ParseLocal(FormatMinutes(d)) == Some(d)
  {
    var s := FormatMinutes(d);
    assert s[0..4] == Fixed(d.year, 4);
    assert s[5..7] == Fixed(d.month, 2);
    assert s[8..10] == Fixed(d.day, 2);
    assert s[11..13] == Fixed(d.hour, 2);
    assert s[14..16] == Fixed(d.minute, 2);
    assert Pow10(2) == 100 && Pow10(4) == 10000;
    FixedValue(d.year, 4);
    FixedValue(d.month, 2);
    FixedValue(d.day, 2);
    FixedValue(d.hour, 2);
    FixedValue(d.minute, 2);
  }

  /** Parsing reads back every field that formatting wrote. */
  lemma ParseFormat(d: DateTime)
    requires IsValid(d) && 0 <= d.year <= 9999
    ensures ParseLocal(Format(d)) == Some(d)
  {
    var s := Format(d);
    assert s[0..4] == Fixed(d.year, 4);
    assert s[5..7] == Fixed(d.month, 2);
    assert s[8..10] == Fixed(d.day, 2);
    assert s[11..13] == Fixed(d.hour, 2);
    assert s[14..16] == Fixed(d.minute, 2);
    assert s[17..19] == Fixed(d.second, 2);
    assert Pow10(2) == 100 && Pow10(4) == 10000;
    FixedValue(d.year, 4);
    FixedValue(d.month, 2);
    FixedValue(d.day, 2);
    FixedValue(d.hour, 2);
    FixedValue(d.minute, 2);
    FixedValue(d.second, 2);
  }
}
