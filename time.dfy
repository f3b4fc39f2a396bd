/**
 * Local clock arithmetic (src/utils/time.ts) over integer milliseconds.
 *
 * A `Date` is modelled by the integer number of milliseconds of its local wall
 * clock, counted from 0001-01-01T00:00:00.000 of the proleptic Gregorian calendar.
 * There is no time zone and no daylight-saving shift, so "one day later" is always
 * `MsPerDay` later. The civil fields (`getFullYear`, `getMonth() + 1`, `getDate`,
 * `getDay`, `getHours`, ...) are functions of that number.
 */
module Time {
  import opened Wrappers
  import opened Strings
  import opened JsMath

  type Instant = int

  const MsPerSecond: int := 1000
  const MsPerMinute: int := 60 * MsPerSecond
  const MsPerHour: int := 60 * MsPerMinute
  const MsPerDay: int := 24 * MsPerHour

  /** Days in one 400-year Gregorian cycle. */
  const DaysPer400Years: int := 146097

  // ---------------------------------------------------------------- civil calendar

  predicate IsLeapYear(y: int) {
    y % 4 == 0 && (y % 100 != 0 || y % 400 == 0)
  }

  function DaysInYear(y: int): int {
    if IsLeapYear(y) then 366 else 365
  }

  function DaysInMonth(y: int, m: int): (n: int)
    requires 1 <= m <= 12
    ensures 28 <= n <= 31
  {
    if m == 2 then (if IsLeapYear(y) then 29 else 28)
    else if m == 4 || m == 6 || m == 9 || m == 11 then 30
    else 31
  }

  /** Days of year `y` before the first of month `m` (`m == 13` gives the whole year). */
  function DaysBeforeMonth(y: int, m: int): (n: int)
    requires 1 <= m <= 13
    ensures m == 1 ==> n == 0
    ensures m == 13 ==> n == DaysInYear(y)
    ensures 0 <= n <= 366
  {
    var common :=
      if m == 1 then 0 else if m == 2 then 31 else if m == 3 then 59 else if m == 4 then 90
      else if m == 5 then 120 else if m == 6 then 151 else if m == 7 then 181 else if m == 8 then 212
      else if m == 9 then 243 else if m == 10 then 273 else if m == 11 then 304 else if m == 12 then 334
      else 365;
    common + (if m >= 3 && IsLeapYear(y) then 1 else 0)
  }

  /** Each month starts where the one before it ends. */
  lemma MonthStep(y: int, m: int)
    requires 1 <= m <= 12
    ensures DaysBeforeMonth(y, m + 1) == DaysBeforeMonth(y, m) + DaysInMonth(y, m)
  {
  }

  /** Day number of January 1st of year `y`; year 1 starts on day 0. */
  function DaysBeforeYear(y: int): int {
    var p := y - 1;
    365 * p + p / 4 - p / 100 + p / 400
  }

  lemma YearStep(y: int)
    ensures DaysBeforeYear(y + 1) == DaysBeforeYear(y) + DaysInYear(y)
  {
    var p := y - 1;
    DivSucc4(p);
    DivSucc100(p);
    DivSucc400(p);
    assert p + 1 == y;
    LeapDays(y);
  }

  /** A leap year is a multiple of 4 that is not a multiple of 100 unless it is one of 400. */
  lemma LeapDays(y: int)
    ensures DaysInYear(y) == 365 + (if y % 4 == 0 then 1 else 0) - (if y % 100 == 0 then 1 else 0)
      + (if y % 400 == 0 then 1 else 0)
  {
    if y % 400 == 0 {
      var q := y / 400;
      assert y == 100 * (4 * q) && y == 4 * (100 * q);
    } else if y % 100 == 0 {
      var q := y / 100;
      assert y == 4 * (25 * q);
    }
  }

  lemma DivSucc4(p: int)
    ensures (p + 1) / 4 == p / 4 + (if (p + 1) % 4 == 0 then 1 else 0)
  {
    var q := p / 4;
    assert p == 4 * q + p % 4;
    if p % 4 == 3 {
      assert p + 1 == 4 * (q + 1);
    } else {
      assert p + 1 == 4 * q + (p % 4 + 1);
    }
  }

  lemma DivSucc100(p: int)
    ensures (p + 1) / 100 == p / 100 + (if (p + 1) % 100 == 0 then 1 else 0)
  {
    var q := p / 100;
    assert p == 100 * q + p % 100;
    if p % 100 == 99 {
      assert p + 1 == 100 * (q + 1);
    } else {
      assert p + 1 == 100 * q + (p % 100 + 1);
    }
  }

  lemma DivSucc400(p: int)
    ensures (p + 1) / 400 == p / 400 + (if (p + 1) % 400 == 0 then 1 else 0)
  {
    var q := p / 400;
    assert p == 400 * q + p % 400;
    if p % 400 == 399 {
      assert p + 1 == 400 * (q + 1);
    } else {
      assert p + 1 == 400 * q + (p % 400 + 1);
    }
  }

  lemma EraStart(e: int)
    ensures DaysBeforeYear(400 * e + 1) == DaysPer400Years * e
  {
    var p := 400 * e;
    assert p / 4 == 100 * e;
    assert p / 100 == 4 * e;
    assert p / 400 == e;
  }

  lemma {:induction false} YearsIncrease(a: int, b: int)
    requires a < b
    ensures DaysBeforeYear(a + 1) <= DaysBeforeYear(b)
    decreases b - a
  {
    YearStep(a);
    if a + 1 < b {
      YearsIncrease(a + 1, b);
      YearStep(a + 1);
    }
  }

  /** The calendar date the civil fields of a `Date` report; `month` is 1-based. */
  datatype Civil = Civil(year: int, month: int, day: int)

  predicate ValidCivil(c: Civil) {
    1 <= c.month <= 12 && 1 <= c.day <= DaysInMonth(c.year, c.month)
  }

  /** The day number of a calendar date (JavaScript `new Date(y, m - 1, d)` at midnight). */
  function DaysFromCivil(c: Civil): int
    requires 1 <= c.month <= 12
  {
    DaysBeforeYear(c.year) + DaysBeforeMonth(c.year, c.month) + c.day - 1
  }

  /** The year containing day `n`, searched upwards from a year that starts no later. */
  function FindYear(n: int, y: int): (r: int)
    requires DaysBeforeYear(y) <= n
    ensures DaysBeforeYear(r) <= n < DaysBeforeYear(r + 1)
    decreases n - DaysBeforeYear(y)
  {
    YearStep(y);
    if n < DaysBeforeYear(y + 1) then y else FindYear(n, y + 1)
  }

  /** The month of year `y` containing day-of-year `k`, searched upwards from `m`. */
  function FindMonth(y: int, k: int, m: int): (r: int)
    requires 1 <= m <= 12 && DaysBeforeMonth(y, m) <= k < DaysInYear(y)
    ensures m <= r <= 12
    ensures DaysBeforeMonth(y, r) <= k < DaysBeforeMonth(y, r + 1)
    decreases 12 - m
  {
    MonthStep(y, m);
    if k < DaysBeforeMonth(y, m + 1) then m else FindMonth(y, k, m + 1)
  }

  /** The calendar date of day number `n`: a valid date whose day number is `n`. */
  function CivilFromDays(n: int): (c: Civil)
    ensures ValidCivil(c)
    ensures DaysFromCivil(c) == n
  {
    var era := n / DaysPer400Years;
    EraStart(era);
    assert DaysPer400Years * era <= n;
    var y := FindYear(n, 400 * era + 1);
    YearStep(y);
    var k := n - DaysBeforeYear(y);
    var m := FindMonth(y, k, 1);
    MonthStep(y, m);
    Civil(y, m, k - DaysBeforeMonth(y, m) + 1)
  }

  /** The days of a valid date fall inside its own year. */
  lemma DayOfYearInRange(c: Civil)
    requires ValidCivil(c)
    ensures DaysBeforeYear(c.year) <= DaysFromCivil(c) < DaysBeforeYear(c.year + 1)
  {
    YearStep(c.year);
    MonthsIncrease(c.year, c.month + 1, 13);
  }

  lemma {:induction false} MonthsIncrease(y: int, a: int, b: int)
    requires 1 <= a <= b <= 13
    ensures DaysBeforeMonth(y, a) <= DaysBeforeMonth(y, b)
    ensures a < b ==> DaysBeforeMonth(y, a) + DaysInMonth(y, a) <= DaysBeforeMonth(y, b)
    decreases b - a
  {
    if a < b {
      MonthStep(y, a);
      MonthsIncrease(y, a + 1, b);
    }
  }

  /** Different valid dates have different day numbers. */
  lemma {:induction false} DaysFromCivilInjective(c1: Civil, c2: Civil)
    requires ValidCivil(c1) && ValidCivil(c2)
    requires DaysFromCivil(c1) == DaysFromCivil(c2)
    ensures c1 == c2
  {
    DayOfYearInRange(c1);
    DayOfYearInRange(c2);
    if c1.year < c2.year {
      YearsIncrease(c1.year, c2.year);
      assert false;
    } else if c2.year < c1.year {
      YearsIncrease(c2.year, c1.year);
      assert false;
    }
    if c1.month < c2.month {
      MonthsIncrease(c1.year, c1.month, c2.month);
      assert false;
    } else if c2.month < c1.month {
      MonthsIncrease(c1.year, c2.month, c1.month);
      assert false;
    }
  }

  /** Round trip: the calendar date of a valid date's day number is that date. */
  lemma CivilRoundTrip(c: Civil)
    requires ValidCivil(c)
    ensures CivilFromDays(DaysFromCivil(c)) == c
  {
    DaysFromCivilInjective(CivilFromDays(DaysFromCivil(c)), c);
  }

  // ---------------------------------------------------------------- fields of an instant

  function DayNumber(t: Instant): int {
    t / MsPerDay
  }

  function TimeOfDay(t: Instant): (ms: int)
    ensures 0 <= ms < MsPerDay
  {
    t % MsPerDay
  }

  /** Midnight of the day of `t` (`setHours(0, 0, 0, 0)`). */
  function StartOfDay(t: Instant): (r: Instant)
    ensures r <= t < r + MsPerDay
    ensures TimeOfDay(r) == 0 && DayNumber(r) == DayNumber(t)
  {
    DayNumber(t) * MsPerDay
  }

  /** Minutes since midnight. */
  function MinuteOfDay(t: Instant): (m: int)
    ensures 0 <= m < 24 * 60
  {
    TimeOfDay(t) / MsPerMinute
  }

  function Hours(t: Instant): (h: int)
    ensures 0 <= h < 24
  {
    MinuteOfDay(t) / 60
  }

  function Minutes(t: Instant): (m: int)
    ensures 0 <= m < 60
  {
    MinuteOfDay(t) % 60
  }

  function Seconds(t: Instant): (s: int)
    ensures 0 <= s < 60
  {
    (t % MsPerMinute) / MsPerSecond
  }

  function Millis(t: Instant): (ms: int)
    ensures 0 <= ms < 1000
  {
    t % MsPerSecond
  }

  function CivilDate(t: Instant): Civil {
    CivilFromDays(DayNumber(t))
  }

  /** `getFullYear()`. */
  function FullYear(t: Instant): int {
    CivilDate(t).year
  }

  /** `getMonth() + 1`. */
  function Month(t: Instant): (m: int)
    ensures 1 <= m <= 12
  {
    CivilDate(t).month
  }

  /** `getDate()`. */
  function DayOfMonth(t: Instant): (d: int)
    ensures 1 <= d <= 31
  {
    CivilDate(t).day
  }

  /** `getDay()` of a day number: 0 is Sunday; 0001-01-01 was a Monday. */
  function WeekdayOfDay(n: int): (w: int)
    ensures 0 <= w < 7
  {
    (n + 1) % 7
  }

  /** Midnight of day `n` is on day `n`, at time 0. */
  lemma MidnightOfDay(n: int)
    ensures DayNumber(n * MsPerDay) == n && TimeOfDay(n * MsPerDay) == 0
  {
  }

  /** `k` days after day `n` the weekday has moved on by `k`, modulo 7. */
  lemma WeekdayAfter(n: int, k: int)
    ensures WeekdayOfDay(n + k) == (WeekdayOfDay(n) + k) % 7
  {
    var q, w := (n + 1) / 7, (n + 1) % 7;
    assert n + 1 == 7 * q + w;
    var q2, w2 := (w + k) / 7, (w + k) % 7;
    assert w + k == 7 * q2 + w2;
    assert n + k + 1 == 7 * (q + q2) + w2;
  }

  /** A local time from its day and clock fields, normalising overflow like `setHours`. */
  function AtTimeOfDay(day: int, h: int, m: int, s: int, ms: int): Instant {
    day * MsPerDay + h * MsPerHour + m * MsPerMinute + s * MsPerSecond + ms
  }

  lemma FieldsOfAtTimeOfDay(day: int, h: int, m: int)
    requires 0 <= h < 24 && 0 <= m < 60
    ensures var t := AtTimeOfDay(day, h, m, 0, 0);
      DayNumber(t) == day && Hours(t) == h && Minutes(t) == m && Seconds(t) == 0 && Millis(t) == 0
  {
    var t := AtTimeOfDay(day, h, m, 0, 0);
    var mins := h * 60 + m;
    var r := mins * 60000;
    assert t == 86400000 * day + r;
    DivModUnique(t, 86400000, day, r);
    DivModUnique(r, 60000, mins, 0);
    DivModUnique(mins, 60, h, m);
    DivModUnique(t, 60000, day * 1440 + mins, 0);
    DivModUnique(t, 1000, (day * 1440 + mins) * 60, 0);
  }

  // ---------------------------------------------------------------- src/utils/time.ts

  /** `formatClockTime`: the hour unpadded, `" : "`, the minute padded to two digits. */
  function FormatClockTime(t: Instant): string {
    NatToString(Hours(t)) + " : " + Pad2(NatToString(Minutes(t)))
  }

  /** The separator sits five characters from the end; each side reads back as its field. */
  lemma FormatClockTimeReadsBack(t: Instant)
    ensures var r := FormatClockTime(t); var k := |r| - 5;
      k >= 1 &&
      r[k..k + 3] == " : " &&
      NumberOf(r[..k]) == Some(Hours(t)) &&
      NumberOf(r[k + 3..]) == Some(Minutes(t)) &&
      (Hours(t) < 10 <==> k == 1)
  {
    var hs := NatToString(Hours(t));
    var ms := Pad2(NatToString(Minutes(t)));
    Pad2Length(Minutes(t));
    NatToStringLength(Hours(t));
    var r := FormatClockTime(t);
    assert r == hs + " : " + ms;
    var k := |r| - 5;
    assert k == |hs|;
    assert r[..k] == hs;
    assert r[k..k + 3] == " : ";
    assert r[k + 3..] == ms;
    NumberOfNatToString(Hours(t));
    NumberOfPad2(Minutes(t));
  }

  /** `getDateKey`: `${year}-${MM}-${DD}` with month and day zero-padded. */
  function DateKey(t: Instant): string {
    var c := CivilDate(t);
    IntToString(c.year) + MonthDaySuffix(c)
  }

  /** The date key only depends on the day. */
  lemma DateKeyOfSameDay(a: Instant, b: Instant)
    requires DayNumber(a) == DayNumber(b)
    ensures DateKey(a) == DateKey(b)
  {
  }

  /**
   * For a year that is not negative, splitting the key on '-' gives three parts that
   * `Number` reads back as the year, the month and the day; for a four-digit year
   * the key is ten characters long (RFC 3339 `full-date`).
   */
  lemma DateKeyRoundTrip(t: Instant)
    requires FullYear(t) >= 0
    ensures var parts := Split(DateKey(t), '-');
      |parts| == 3 &&
      NumberOf(parts[0]) == Some(FullYear(t)) &&
      NumberOf(parts[1]) == Some(Month(t)) &&
      NumberOf(parts[2]) == Some(DayOfMonth(t)) &&
      |parts[1]| == 2 && |parts[2]| == 2
    ensures 1000 <= FullYear(t) < 10000 ==> |DateKey(t)| == 10
  {
    var c := CivilDate(t);
    KeyParts(c.year, c.month, c.day, DateKey(t));
  }

  /** Splitting `year-MM-DD` written from three numbers gives the numbers back. */
  lemma KeyParts(year: nat, month: nat, day: nat, key: string)
    requires 1 <= month <= 12 && 1 <= day <= 31
    requires key == IntToString(year) + ("-" + Pad2(NatToString(month)) + "-" + Pad2(NatToString(day)))
    ensures var parts := Split(key, '-');
      |parts| == 3 &&
      NumberOf(parts[0]) == Some(year) && NumberOf(parts[1]) == Some(month) && NumberOf(parts[2]) == Some(day) &&
      |parts[1]| == 2 && |parts[2]| == 2
    ensures 1000 <= year < 10000 ==> |key| == 10
  {
    var y := NatToString(year);
    var m := Pad2(NatToString(month));
    var d := Pad2(NatToString(day));
    Pad2Length(month);
    Pad2Length(day);
    NatToStringLength(year);
    SplitDigitGroups(y, m, d, key);
    NumberOfNatToString(year);
    NumberOfPad2(month);
    NumberOfPad2(day);
  }

  lemma SplitDigitGroups(y: string, m: string, d: string, key: string)
    requires AllDigits(y) && AllDigits(m) && AllDigits(d)
    requires key == y + ("-" + m + "-" + d)
    ensures Split(key, '-') == [y, m, d] && |key| == |y| + |m| + |d| + 2
  {
    DigitsHaveNoDash(y);
    DigitsHaveNoDash(m);
    DigitsHaveNoDash(d);
    assert key == y + ['-'] + m + ['-'] + d;
    SplitThree(y, m, d, '-');
  }

  /** Two instants with a non-negative year share a date key iff they fall on the same day. */
  lemma DateKeyIdentifiesDay(a: Instant, b: Instant)
    requires FullYear(a) >= 0 && FullYear(b) >= 0
    ensures DateKey(a) == DateKey(b) <==> DayNumber(a) == DayNumber(b)
  {
    if DateKey(a) == DateKey(b) {
      DateKeyRoundTrip(a);
      DateKeyRoundTrip(b);
      DaysFromCivilInjective(CivilDate(a), CivilDate(b));
    }
  }

  /** The year of `toISOString`: four digits for 0..9999, otherwise a sign and six digits. */
  function IsoYear(y: int): (r: string)
    ensures |r| >= 4
    ensures 1000 <= y <= 9999 ==> r == NatToString(y)
  {
    NatToStringLength(if y < 0 then -y else y);
    if 0 <= y <= 9999 then PadStart(NatToString(y), 4, '0')
    else if y < 0 then "-" + PadStart(NatToString(-y), 6, '0')
    else "+" + PadStart(NatToString(y), 6, '0')
  }

  /** `-MM-DD`, the part of a date key (and of an ISO string) after the year. */
  function MonthDaySuffix(c: Civil): (r: string)
    requires ValidCivil(c)
    ensures |r| == 6
  {
    Pad2Length(c.month);
    Pad2Length(c.day);
    "-" + Pad2(NatToString(c.month)) + "-" + Pad2(NatToString(c.day))
  }

  /** `THH:mm:ss.sssZ`, the time part of an ISO string. */
  function IsoTimeSuffix(t: Instant): (r: string)
    ensures |r| == 14
  {
    Pad2Length(Hours(t));
    Pad2Length(Minutes(t));
    Pad2Length(Seconds(t));
    NatToStringLength(Millis(t));
    "T" + Pad2(NatToString(Hours(t))) + ":" + Pad2(NatToString(Minutes(t))) + ":" +
      Pad2(NatToString(Seconds(t))) + "." + PadStart(NatToString(Millis(t)), 3, '0') + "Z"
  }

  /** `toISOString`: `YYYY-MM-DDTHH:mm:ss.sssZ`, the clock read as UTC. */
  function IsoString(t: Instant): (r: string)
    ensures |r| >= 24
  {
    var c := CivilDate(t);
    IsoYear(c.year) + MonthDaySuffix(c) + IsoTimeSuffix(t)
  }

  /** For a four-digit year the ISO string is 24 characters and begins with the date key. */
  lemma IsoStringStartsWithDateKey(t: Instant)
    requires 1000 <= FullYear(t) <= 9999
    ensures |IsoString(t)| == 24
    ensures IsoString(t)[..10] == DateKey(t)
  {
    var c := CivilDate(t);
    var key := NatToString(c.year) + MonthDaySuffix(c);
    FourDigitYearParts(t);
    NatToStringLength(c.year);
    assert |key| == 10;
    assert (key + IsoTimeSuffix(t))[..10] == key;
  }

  lemma FourDigitYearParts(t: Instant)
    requires 1000 <= FullYear(t) <= 9999
    ensures IsoString(t) == NatToString(CivilDate(t).year) + MonthDaySuffix(CivilDate(t)) + IsoTimeSuffix(t)
    ensures DateKey(t) == NatToString(CivilDate(t).year) + MonthDaySuffix(CivilDate(t))
  {
  }

  /** `addMinutes`: a new instant `minutes` later. */
  function AddMinutes(t: Instant, minutes: int): (r: Instant)
    ensures r - t == minutes * MsPerMinute
  {
    t + minutes * MsPerMinute
  }

  lemma AddMinutesProperties(t: Instant, a: int, b: int)
    ensures AddMinutes(t, 0) == t
    ensures AddMinutes(AddMinutes(t, a), b) == AddMinutes(t, a + b)
    ensures a > 0 ==> t < AddMinutes(t, a)
  {
  }

  /** `isBefore`: the strict order of timestamps. */
  predicate IsBefore(a: Instant, b: Instant) {
    a < b
  }

  lemma IsBeforeIsStrictOrder(a: Instant, b: Instant, c: Instant)
    ensures !IsBefore(a, a)
    ensures IsBefore(a, b) ==> !IsBefore(b, a)
    ensures IsBefore(a, b) && IsBefore(b, c) ==> IsBefore(a, c)
    ensures a != b ==> IsBefore(a, b) || IsBefore(b, a)
  {
  }

  /** `clampDateToMinute`: seconds and milliseconds set to zero, every other field kept. */
  function ClampDateToMinute(t: Instant): (r: Instant)
    ensures Seconds(r) == 0 && Millis(r) == 0
    ensures DayNumber(r) == DayNumber(t) && Hours(r) == Hours(t) && Minutes(r) == Minutes(t)
    ensures r <= t < r + MsPerMinute && r % MsPerMinute == 0
  {
    ClampKeepsMinute(t);
    t - t % MsPerMinute
  }

  lemma ClampKeepsMinute(t: Instant)
    ensures var r := t - t % MsPerMinute;
      r % MsPerMinute == 0 && r % MsPerSecond == 0 &&
      DayNumber(r) == DayNumber(t) && MinuteOfDay(r) == MinuteOfDay(t)
  {
    var q, d := t / 86400000, t % 86400000;
    var a, s := d / 60000, d % 60000;
    assert 0 <= a < 1440;
    var minutes := q * 1440 + a;
    assert t == 60000 * minutes + s;
    DivModUnique(t, 60000, minutes, s);
    var r := t - t % MsPerMinute;
    assert r == 60000 * minutes;
    DivModUnique(r, 60000, minutes, 0);
    DivModUnique(r, 1000, minutes * 60, 0);
    DivModUnique(r, 86400000, q, a * 60000);
    DivModUnique(a * 60000, 60000, a, 0);
  }

  lemma ClampDateToMinuteIdempotent(t: Instant)
    ensures ClampDateToMinute(ClampDateToMinute(t)) == ClampDateToMinute(t)
  {
    var r := ClampDateToMinute(t);
    assert r % MsPerMinute == 0;
    assert ClampDateToMinute(r) == r - r % MsPerMinute;
  }
}
