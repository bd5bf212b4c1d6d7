/**
 * `datetime.strptime(text, "%m/%d/%Y %H:%M")` and the naive `datetime` it builds,
 * with the calendar checks the `datetime` constructor makes, and the instant
 * expressed as whole seconds since 0001-01-01 00:00.
 *
 * Each numeric directive of the pattern accepts a run of digits: `%m`, `%d`,
 * `%H` and `%M` one or two digits (so that their value is in range), `%Y` exactly
 * four; the space of the pattern matches one or more whitespace characters, and
 * nothing may follow the minutes.
 */
module Strptime {
  import opened Wrappers
  import opened PyStr

  datatype DateTime = DateTime(year: int, month: int, day: int, hour: int, minute: int)

  predicate IsLeap(y: int) {
    y % 4 == 0 && (y % 100 != 0 || y % 400 == 0)
  }

  function DaysInMonth(y: int, m: int): (n: int)
    requires 1 <= m <= 12
    ensures 28 <= n <= 31
  {
    if m == 2 then (if IsLeap(y) then 29 else 28)
    else if m == 4 || m == 6 || m == 9 || m == 11 then 30
    else 31
  }

  /** What the `datetime` constructor accepts. */
  predicate ValidDateTime(dt: DateTime) {
    && 1 <= dt.year <= 9999
    && 1 <= dt.month <= 12
    && 1 <= dt.day <= DaysInMonth(dt.year, dt.month)
    && 0 <= dt.hour <= 23
    && 0 <= dt.minute <= 59
  }

  /** The value of a string of decimal digits. */
  function DigitsValue(s: string): (n: nat)
    requires AllDigits(s)
  {
    if s == [] then 0 else 10 * DigitsValue(s[..|s| - 1]) + (s[|s| - 1] as int - '0' as int)
  }

  /** One numeric directive: the leading run of digits, which must have between `lo` and `hi` characters. */
  function ReadNumber(s: string, lo: nat, hi: nat): Option<(nat, string)> {
    var k := LeadingCount(s, IsDigit);
    if lo <= k <= hi then Some((DigitsValue(s[..k]), s[k..])) else None
  }

  /** One literal character of the pattern. */
  function ReadChar(s: string, c: char): Option<string> {
    if |s| > 0 && s[0] == c then Some(s[1..]) else None
  }

  /** A space of the pattern: one or more whitespace characters. */
  function ReadSpaces(s: string): Option<string> {
    var k := LeadingCount(s, IsSpace);
    if k > 0 then Some(s[k..]) else None
  }

  /** `datetime.strptime(s, "%m/%d/%Y %H:%M")`; `None` where Python raises `ValueError`. */
  function Parse(s: string): (r: Option<DateTime>)
    ensures r.Some? ==> ValidDateTime(r.value)
  {
    var date :- ReadDate(s);
    var s3 :- ReadSpaces(date.1);
    var clock :- ReadClock(s3);
    var dt := DateTime(date.0.2, date.0.0, date.0.1, clock.0.0, clock.0.1);
    if clock.1 == [] && ValidDateTime(dt) then Some(dt) else None
  }

  /** `%m/%d/%Y`: the month, day and year read, and the rest of the text. */
  function ReadDate(s: string): Option<((nat, nat, nat), string)> {
    var month :- ReadNumber(s, 1, 2);
    var s1 :- ReadChar(month.1, '/');
    var day :- ReadNumber(s1, 1, 2);
    var s2 :- ReadChar(day.1, '/');
    var year :- ReadNumber(s2, 4, 4);
    Some(((month.0, day.0, year.0), year.1))
  }

  /** `%H:%M`: the hour and minute read, and the rest of the text. */
  function ReadClock(s: string): Option<((nat, nat), string)> {
    var hour :- ReadNumber(s, 1, 2);
    var s4 :- ReadChar(hour.1, ':');
    var minute :- ReadNumber(s4, 1, 2);
    Some(((hour.0, minute.0), minute.1))
  }

  // ---------------------------------------------------------------- timestamps

  function DaysBeforeYear(y: int): int
    requires y >= 1
  {
    var p := y - 1;
    p * 365 + p / 4 - p / 100 + p / 400
  }

  function DaysBeforeMonth(y: int, m: int): int
    requires 1 <= m <= 13
  {
    if m == 1 then 0 else DaysBeforeMonth(y, m - 1) + DaysInMonth(y, m - 1)
  }

  /** Python's `date.toordinal()`: 0001-01-01 is day 1. */
  function Ordinal(dt: DateTime): int
    requires ValidDateTime(dt)
  {
    DaysBeforeYear(dt.year) + DaysBeforeMonth(dt.year, dt.month) + dt.day
  }

  /** The instant of a naive `datetime`, in whole seconds since 0001-01-01 00:00. */
  function ToSeconds(dt: DateTime): int
    requires ValidDateTime(dt)
  {
    (Ordinal(dt) - 1) * 86400 + dt.hour * 3600 + dt.minute * 60
  }

  /** Chronological order of two datetimes, field by field. */
  predicate Before(a: DateTime, b: DateTime) {
    || a.year < b.year
    || (a.year == b.year && a.month < b.month)
    || (a.year == b.year && a.month == b.month && a.day < b.day)
    || (a.year == b.year && a.month == b.month && a.day == b.day && a.hour < b.hour)
    || (a.year == b.year && a.month == b.month && a.day == b.day && a.hour == b.hour && a.minute < b.minute)
  }

  lemma YearLength(y: int)
    requires y >= 1
    ensures DaysBeforeYear(y + 1) == DaysBeforeYear(y) + DaysBeforeMonth(y, 13)
    ensures DaysBeforeMonth(y, 13) == if IsLeap(y) then 366 else 365
  {
    MonthsOfYear(y);
    DaysBeforeYearStep(y);
  }

  lemma DaysBeforeYearStep(y: int)
    requires y >= 1
    ensures DaysBeforeYear(y + 1) == DaysBeforeYear(y) + 365 + (if IsLeap(y) then 1 else 0)
  {
    var p := y - 1;
    LeapDaysStep(p);
    assert DaysBeforeYear(y + 1) == y * 365 + y / 4 - y / 100 + y / 400;
    assert DaysBeforeYear(y) == p * 365 + p / 4 - p / 100 + p / 400;
  }

  lemma MonthsOfYear(y: int)
    ensures DaysBeforeMonth(y, 13) == if IsLeap(y) then 366 else 365
  {
    assert DaysInMonth(y, 2) == if IsLeap(y) then 29 else 28;
    assert DaysBeforeMonth(y, 2) == 31;
    assert DaysBeforeMonth(y, 3) == 31 + DaysInMonth(y, 2);
    assert DaysBeforeMonth(y, 5) == 92 + DaysInMonth(y, 2);
    assert DaysBeforeMonth(y, 7) == 153 + DaysInMonth(y, 2);
    assert DaysBeforeMonth(y, 9) == 215 + DaysInMonth(y, 2);
    assert DaysBeforeMonth(y, 11) == 276 + DaysInMonth(y, 2);
  }

  /** The leap days counted before a year grow by one exactly at a leap year. */
  lemma LeapDaysStep(p: int)
    requires p >= 0
    ensures (p + 1) / 4 == p / 4 + (if (p + 1) % 4 == 0 then 1 else 0)
    ensures (p + 1) / 100 == p / 100 + (if (p + 1) % 100 == 0 then 1 else 0)
    ensures (p + 1) / 400 == p / 400 + (if (p + 1) % 400 == 0 then 1 else 0)
  {
  }

  lemma {:induction false} DaysBeforeMonthMono(y: int, m: int, m': int)
    requires 1 <= m <= m' <= 13
    ensures DaysBeforeMonth(y, m) <= DaysBeforeMonth(y, m')
    decreases m' - m
  {
    if m < m' {
      DaysBeforeMonthMono(y, m, m' - 1);
    }
  }

  lemma {:induction false} DaysBeforeYearMono(y: int, y': int)
    requires 1 <= y < y'
    ensures DaysBeforeYear(y) + DaysBeforeMonth(y, 13) <= DaysBeforeYear(y')
    decreases y' - y
  {
    YearLength(y);
    if y + 1 < y' {
      DaysBeforeYearMono(y + 1, y');
      YearLength(y + 1);
    }
  }

  lemma OrdinalBefore(a: DateTime, b: DateTime)
    requires ValidDateTime(a) && ValidDateTime(b)
    requires a.year < b.year || (a.year == b.year && a.month < b.month)
             || (a.year == b.year && a.month == b.month && a.day < b.day)
    ensures Ordinal(a) < Ordinal(b)
  {
    DaysBeforeMonthMono(a.year, a.month + 1, 13);
    assert DaysBeforeMonth(a.year, a.month + 1) == DaysBeforeMonth(a.year, a.month) + DaysInMonth(a.year, a.month);
    if a.year < b.year {
      DaysBeforeYearMono(a.year, b.year);
      DaysBeforeMonthMono(b.year, 1, b.month);
    } else if a.month < b.month {
      DaysBeforeMonthMono(a.year, a.month + 1, b.month);
    }
  }

  /** Later datetimes have larger timestamps, so distinct valid datetimes never share an instant. */
  lemma SecondsIncreasing(a: DateTime, b: DateTime)
    requires ValidDateTime(a) && ValidDateTime(b) && Before(a, b)
    ensures ToSeconds(a) < ToSeconds(b)
  {
    if a.year == b.year && a.month == b.month && a.day == b.day {
    } else {
      OrdinalBefore(a, b);
    }
  }

  lemma SecondsInjective(a: DateTime, b: DateTime)
    requires ValidDateTime(a) && ValidDateTime(b) && ToSeconds(a) == ToSeconds(b)
    ensures a == b
  {
    if Before(a, b) {
      SecondsIncreasing(a, b);
    } else if Before(b, a) {
      SecondsIncreasing(b, a);
    }
  }

  // ---------------------------------------------------------------- formatting

  function Digit(n: int): (c: char)
    requires 0 <= n <= 9
    ensures IsDigit(c)
  {
    ('0' as int + n) as char
  }

  /** `n` written with exactly `width` digits, zero-padded (`%0*d`). */
  function Padded(n: nat, width: nat): (s: string)
    ensures |s| == width && AllDigits(s)
  {
    if width == 0 then [] else Padded(n / 10, width - 1) + [Digit(n % 10)]
  }

  lemma {:induction false} PaddedValue(n: nat, width: nat)
    requires width <= 4
    requires n < Pow10(width)
    ensures DigitsValue(Padded(n, width)) == n
  {
    if width > 0 {
      var s := Padded(n, width);
      assert s[..|s| - 1] == Padded(n / 10, width - 1);
      PaddedValue(n / 10, width - 1);
    }
  }

  function Pow10(k: nat): nat {
    if k == 0 then 1 else 10 * Pow10(k - 1)
  }

  /** Reading a zero-padded number that a non-digit follows gives it back. */
  lemma ReadPadded(n: nat, width: nat, lo: nat, hi: nat, rest: string)
    requires 1 <= width <= 4 && n < Pow10(width) && lo <= width <= hi
    requires rest == [] || !IsDigit(rest[0])
    ensures ReadNumber(Padded(n, width) + rest, lo, hi) == Some((n, rest))
  {
    var s := Padded(n, width) + rest;
    LeadingCountOfConcat(Padded(n, width), rest, IsDigit);
    assert s[..width] == Padded(n, width);
    assert s[width..] == rest;
    PaddedValue(n, width);
  }

  /** `dt.strftime("%m/%d/%Y %H:%M")` with `sep` in place of the colon. */
  function Format(dt: DateTime, sep: char): string
    requires ValidDateTime(dt)
  {
    FormatDate(dt) + " " + FormatClock(dt, sep)
  }

  /** `%m/%d/%Y`. */
  function FormatDate(dt: DateTime): (s: string)
    requires ValidDateTime(dt)
    ensures s != [] && NoSpace(s)
  {
    var s := Padded(dt.month, 2) + "/" + Padded(dt.day, 2) + "/" + Padded(dt.year, 4);
    DigitsNoSpace(Padded(dt.month, 2));
    DigitsNoSpace(Padded(dt.day, 2));
    DigitsNoSpace(Padded(dt.year, 4));
    s
  }

  /** `%H:%M`, with `sep` in place of the colon. */
  function FormatClock(dt: DateTime, sep: char): string
    requires ValidDateTime(dt)
  {
    Padded(dt.hour, 2) + [sep] + Padded(dt.minute, 2)
  }

  lemma DigitsNoSpace(s: string)
    requires AllDigits(s)
    ensures NoSpace(s)
  {
  }

  /** Every valid datetime, written in the pattern, parses back to itself. */
  lemma ParseFormat(dt: DateTime)
    requires ValidDateTime(dt)
    ensures Parse(Format(dt, ':')) == Some(dt)
  {
    var c := FormatClock(dt, ':');
    ReadFormattedDate(dt, " " + c);
    assert ReadSpaces(" " + c) == Some(c) by {
      LeadingCountOfConcat(" ", c, IsSpace);
      assert (" " + c)[1..] == c;
    }
    ReadFormattedClock(dt);
    assert Format(dt, ':') == FormatDate(dt) + (" " + c);
  }

  lemma ReadFormattedDate(dt: DateTime, rest: string)
    requires ValidDateTime(dt)
    requires rest == [] || !IsDigit(rest[0])
    ensures ReadDate(FormatDate(dt) + rest) == Some(((dt.month, dt.day, dt.year), rest))
  {
    var mo, d, y := Padded(dt.month, 2), Padded(dt.day, 2), Padded(dt.year, 4);
    var r1 := y + rest;
    var r0 := d + ("/" + r1);
    assert FormatDate(dt) + rest == mo + ("/" + r0);
    ReadPaddedThen(dt.month, 2, '/', r0);
    ReadPaddedThen(dt.day, 2, '/', r1);
    ReadPadded(dt.year, 4, 4, 4, rest);
  }

  /** A zero-padded one- or two-digit field followed by a literal character. */
  lemma ReadPaddedThen(n: nat, width: nat, c: char, rest: string)
    requires 1 <= width <= 2 && n < Pow10(width) && !IsDigit(c)
    ensures ReadNumber(Padded(n, width) + ([c] + rest), 1, 2) == Some((n, [c] + rest))
    ensures ReadChar([c] + rest, c) == Some(rest)
  {
    ReadPadded(n, width, 1, 2, [c] + rest);
    assert ([c] + rest)[1..] == rest;
  }

  lemma ReadFormattedClock(dt: DateTime)
    requires ValidDateTime(dt)
    ensures ReadClock(FormatClock(dt, ':')) == Some(((dt.hour, dt.minute), []))
  {
    var h, mi := Padded(dt.hour, 2), Padded(dt.minute, 2);
    assert FormatClock(dt, ':') == h + (":" + mi);
    ReadPaddedThen(dt.hour, 2, ':', mi);
    assert ReadNumber(mi, 1, 2) == Some((dt.minute, [])) by {
      ReadPadded(dt.minute, 2, 1, 2, []);
      assert mi + [] == mi;
    }
  }
}
