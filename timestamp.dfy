// `format_timestamp_ms_to_utc`: epoch milliseconds to "YYYY-MM-DD HH:MM:SS"
// in UTC, with the calendar arithmetic checked against the "Seconds Since the
// Epoch" formula of section 4.16 of the POSIX.1-2017 Base Definitions.
module Timestamp {
  import opened Text
  import opened Values

  datatype DateTime = DateTime(year: int, month: int, day: int, hour: int, minute: int, second: int)

  predicate IsLeap(y: int) {
    y % 4 == 0 && (y % 100 != 0 || y % 400 == 0)
  }

  function DaysInYear(y: int): int {
    if IsLeap(y) then 366 else 365
  }

  function DaysInMonth(y: int, m: int): int
    requires 1 <= m <= 12
  {
    if m == 2 then (if IsLeap(y) then 29 else 28)
    else if m == 4 || m == 6 || m == 9 || m == 11 then 30
    else 31
  }

  /** Days of the year before the first of month m (m == 13: the whole year). */
  function DaysBeforeMonth(y: int, m: int): int
    requires 1 <= m <= 13
  {
    [0, 31, 59, 90, 120, 151, 181, 212, 243, 273, 304, 334, 365][m - 1]
    + (if m > 2 && IsLeap(y) then 1 else 0)
  }

  /** Each month starts where the previous one ends. */
  lemma {:induction false} MonthStep(y: int, m: int)
    requires 1 <= m <= 12
    ensures DaysBeforeMonth(y, m + 1) == DaysBeforeMonth(y, m) + DaysInMonth(y, m)
  {
  }

  lemma {:induction false} WholeYear(y: int)
    ensures DaysBeforeMonth(y, 13) == DaysInYear(y)
  {
  }

  lemma {:induction false} DaysBeforeMonthGrows(y: int, m: int, n: int)
    requires 1 <= m <= n <= 13
    ensures DaysBeforeMonth(y, m) <= DaysBeforeMonth(y, n)
  {
  }

  predicate ValidDateTime(dt: DateTime) {
    1 <= dt.month <= 12 && 1 <= dt.day <= DaysInMonth(dt.year, dt.month)
    && 0 <= dt.hour < 24 && 0 <= dt.minute < 60 && 0 <= dt.second < 60
  }

  /** Days from 1970-01-01 to the first of January of year y. */
  function DaysBeforeYear(y: int): int
    decreases if y >= 1970 then y - 1970 else 1970 - y
  {
    if y == 1970 then 0
    else if y > 1970 then DaysBeforeYear(y - 1) + DaysInYear(y - 1)
    else DaysBeforeYear(y + 1) - DaysInYear(y)
  }

  lemma {:induction false} DaysBeforeYearGrows(a: int, b: int)
    requires a <= b
    ensures DaysBeforeYear(a) + 365 * (b - a) <= DaysBeforeYear(b)
    decreases b - a
  {
    if a < b {
      DaysBeforeYearGrows(a, b - 1);
      DaysBeforeYearStep(b - 1);
    }
  }

  lemma {:induction false} DaysBeforeYearStep(y: int)
    ensures DaysBeforeYear(y + 1) == DaysBeforeYear(y) + DaysInYear(y)
  {
  }

  /** The year and day of the year of day `d` counted from the first of year y. */
  function YearFrom(d: int, y: int): (r: (int, int))
    requires d >= 0
    ensures r.0 >= y && 0 <= r.1 < DaysInYear(r.0)
    ensures DaysBeforeYear(r.0) + r.1 == DaysBeforeYear(y) + d
    decreases d
  {
    DaysBeforeYearStep(y);
    if d < DaysInYear(y) then (y, d) else YearFrom(d - DaysInYear(y), y + 1)
  }

  /** The same for a negative day `d`, counted back from the first of year y. */
  function YearBefore(d: int, y: int): (r: (int, int))
    requires d < 0
    ensures r.0 < y && 0 <= r.1 < DaysInYear(r.0)
    ensures DaysBeforeYear(r.0) + r.1 == DaysBeforeYear(y) + d
    decreases -d
  {
    DaysBeforeYearStep(y - 1);
    var back := d + DaysInYear(y - 1);
    if back >= 0 then (y - 1, back) else YearBefore(back, y - 1)
  }

  /** Year and day of the year of a day number counted from 1970-01-01. */
  function YearOfDay(days: int): (r: (int, int))
    ensures 0 <= r.1 < DaysInYear(r.0)
    ensures DaysBeforeYear(r.0) + r.1 == days
    ensures days >= 0 ==> r.0 >= 1970
  {
    if days >= 0 then YearFrom(days, 1970) else YearBefore(days, 1970)
  }

  /** Month and day of the month of day-of-year `yd`, searching from month m. */
  function MonthFrom(y: int, yd: int, m: int): (r: (int, int))
    requires 1 <= m <= 12
    requires DaysBeforeMonth(y, m) <= yd < DaysInYear(y)
    ensures m <= r.0 <= 12 && 1 <= r.1 <= DaysInMonth(y, r.0)
    ensures DaysBeforeMonth(y, r.0) + r.1 - 1 == yd
    decreases 12 - m
  {
    WholeYear(y);
    MonthStep(y, m);
    if yd < DaysBeforeMonth(y, m + 1) then (m, yd - DaysBeforeMonth(y, m) + 1)
    else
      if m == 12 then assert false; (m, 1)
      else MonthFrom(y, yd, m + 1)
  }

  /** Broken-down UTC time of a count of seconds since the epoch. */
  function ToCivil(s: int): (dt: DateTime)
    ensures ValidDateTime(dt)
    ensures s >= 0 ==> dt.year >= 1970
  {
    var days := s / 86400;
    var rem := s % 86400;
    var (y, yd) := YearOfDay(days);
    var (m, d) := MonthFrom(y, yd, 1);
    DateTime(y, m, d, rem / 3600, rem % 3600 / 60, rem % 60)
  }

  // ---------------------------------------------------------------------
  // Section 4.16 of POSIX.1-2017 Base Definitions

  /** C's `/`, truncating toward zero, as the standard's formula is written. */
  function CDiv(a: int, b: int): int
    requires b > 0
  {
    if a >= 0 then a / b else -((-a) / b)
  }

  function YearDay(dt: DateTime): int
    requires 1 <= dt.month <= 12
  {
    DaysBeforeMonth(dt.year, dt.month) + dt.day - 1
  }

  /** tm_sec + tm_min*60 + tm_hour*3600 + tm_yday*86400 + (tm_year-70)*31536000
      + ((tm_year-69)/4)*86400 - ((tm_year-1)/100)*86400 + ((tm_year+299)/400)*86400 */
  function PosixSeconds(dt: DateTime): int
    requires 1 <= dt.month <= 12
  {
    var ty := dt.year - 1900;
    dt.second + dt.minute * 60 + dt.hour * 3600 + YearDay(dt) * 86400
    + (ty - 70) * 31536000 + CDiv(ty - 69, 4) * 86400 - CDiv(ty - 1, 100) * 86400
    + CDiv(ty + 299, 400) * 86400
  }

  /** The leap-day count of the POSIX formula. */
  function PosixDays(y: int): int {
    var ty := y - 1900;
    (ty - 70) * 365 + CDiv(ty - 69, 4) - CDiv(ty - 1, 100) + CDiv(ty + 299, 400)
  }

  lemma {:induction false} DivStep(n: nat, k: nat)
    requires k == 4 || k == 100 || k == 400
    ensures (n + 1) / k == n / k + (if (n + 1) % k == 0 then 1 else 0)
  {
    if k == 4 {
    } else if k == 100 {
    } else {
    }
  }

  lemma {:induction false} LeapTerms(p: int)
    requires p >= 1970
    ensures CDiv(p + 1 - 1969, 4) - CDiv(p - 1969, 4) == (if p % 4 == 0 then 1 else 0)
    ensures CDiv(p + 1 - 1901, 100) - CDiv(p - 1901, 100) == (if p % 100 == 0 then 1 else 0)
    ensures CDiv(p + 1 - 1601, 400) - CDiv(p - 1601, 400) == (if p % 400 == 0 then 1 else 0)
  {
    LeapTerm4(p);
    LeapTerm100(p);
    LeapTerm400(p);
  }

  lemma {:induction false} LeapTerm4(p: int)
    requires p >= 1970
    ensures CDiv(p + 1 - 1969, 4) - CDiv(p - 1969, 4) == (if p % 4 == 0 then 1 else 0)
  {
    DivStep(p - 1969, 4);
    assert (p - 1968) % 4 == p % 4;
  }

  lemma {:induction false} LeapTerm100(p: int)
    requires p >= 1970
    ensures CDiv(p + 1 - 1901, 100) - CDiv(p - 1901, 100) == (if p % 100 == 0 then 1 else 0)
  {
    DivStep(p - 1901, 100);
    assert (p - 1900) % 100 == p % 100;
  }

  lemma {:induction false} LeapTerm400(p: int)
    requires p >= 1970
    ensures CDiv(p + 1 - 1601, 400) - CDiv(p - 1601, 400) == (if p % 400 == 0 then 1 else 0)
  {
    DivStep(p - 1601, 400);
    assert (p - 1600) % 400 == p % 400;
  }

  lemma {:induction false} PosixDaysStep(p: int)
    requires p >= 1970
    ensures PosixDays(p + 1) == PosixDays(p) + DaysInYear(p)
  {
    LeapTerms(p);
    PosixDaysDiff(p);
    LeapDivisors(p);
  }

  /** One year more adds 365 days plus the change in each leap term. */
  lemma {:induction false} PosixDaysDiff(p: int)
    ensures PosixDays(p + 1) - PosixDays(p) == 365
      + (CDiv(p + 1 - 1969, 4) - CDiv(p - 1969, 4))
      - (CDiv(p + 1 - 1901, 100) - CDiv(p - 1901, 100))
      + (CDiv(p + 1 - 1601, 400) - CDiv(p - 1601, 400))
  {
  }

  lemma {:induction false} LeapDivisors(p: int)
    ensures p % 400 == 0 ==> p % 100 == 0
    ensures p % 100 == 0 ==> p % 4 == 0
  {
    if p % 400 == 0 {
      var q := p / 400;
      MultipleOf(p, 100, 4 * q);
    }
    if p % 100 == 0 {
      var q := p / 100;
      MultipleOf(p, 4, 25 * q);
    }
  }

  lemma {:induction false} MultipleOf(p: int, k: int, m: int)
    requires k == 4 || k == 100
    requires p == k * m
    ensures p % k == 0
  {
    if k == 4 {
      assert p == 4 * m;
    } else {
      assert p == 100 * m;
    }
  }

  lemma {:induction false} PosixDaysCount(y: int)
    requires y >= 1970
    ensures PosixDays(y) == DaysBeforeYear(y)
    decreases y - 1970
  {
    if y > 1970 {
      PosixDaysCount(y - 1);
      PosixDaysStep(y - 1);
    }
  }

  lemma {:induction false} PosixOfCivil(dt: DateTime)
    requires ValidDateTime(dt) && dt.year >= 1970
    ensures PosixSeconds(dt) == dt.second + dt.minute * 60 + dt.hour * 3600
      + (DaysBeforeYear(dt.year) + YearDay(dt)) * 86400
  {
    PosixDaysCount(dt.year);
  }

  /** For every non-negative count of seconds, the broken-down time gives the
      count back through the POSIX formula. */
  lemma {:induction false} PosixRoundTrip(s: int)
    requires s >= 0
    ensures PosixSeconds(ToCivil(s)) == s
  {
    var dt := ToCivil(s);
    PosixOfCivil(dt);
    var rem := s % 86400;
    assert rem == rem / 3600 * 3600 + rem % 3600 / 60 * 60 + rem % 60;
  }

  lemma {:induction false} YearFromAt(y0: int, y: int, yd: int)
    requires y0 <= y && 0 <= yd < DaysInYear(y)
    ensures DaysBeforeYear(y) - DaysBeforeYear(y0) + yd >= 0
    ensures YearFrom(DaysBeforeYear(y) - DaysBeforeYear(y0) + yd, y0) == (y, yd)
    decreases y - y0
  {
    DaysBeforeYearStep(y0);
    DaysBeforeYearGrows(y0, y);
    if y0 < y {
      DaysBeforeYearGrows(y0 + 1, y);
      YearFromAt(y0 + 1, y, yd);
    }
  }

  lemma {:induction false} MonthFromAt(y: int, m0: int, m: int, d: int)
    requires 1 <= m0 <= m <= 12 && 1 <= d <= DaysInMonth(y, m)
    ensures DaysBeforeMonth(y, m0) <= DaysBeforeMonth(y, m) + d - 1 < DaysInYear(y)
    ensures MonthFrom(y, DaysBeforeMonth(y, m) + d - 1, m0) == (m, d)
    decreases m - m0
  {
    WholeYear(y);
    DaysBeforeMonthGrows(y, m0, m);
    DaysBeforeMonthGrows(y, m + 1, 13);
    if m0 < m {
      DaysBeforeMonthGrows(y, m0 + 1, m);
      MonthFromAt(y, m0 + 1, m, d);
    }
  }

  lemma {:induction false} DivModUnique(s: int, q: int, r: int)
    requires 0 <= r < 86400 && s == q * 86400 + r
    ensures s / 86400 == q && s % 86400 == r
  {
  }

  lemma {:induction false} PosixDayAndTime(dt: DateTime)
    requires ValidDateTime(dt) && dt.year >= 1970
    ensures PosixSeconds(dt) / 86400 == DaysBeforeYear(dt.year) + YearDay(dt)
    ensures PosixSeconds(dt) % 86400 == dt.second + dt.minute * 60 + dt.hour * 3600
  {
    PosixOfCivil(dt);
    DivModUnique(PosixSeconds(dt), DaysBeforeYear(dt.year) + YearDay(dt), dt.second + dt.minute * 60 + dt.hour * 3600);
  }

  lemma {:induction false} YearOfDayAt(y: int, yd: int)
    requires y >= 1970 && 0 <= yd < DaysInYear(y)
    ensures YearOfDay(DaysBeforeYear(y) + yd) == (y, yd)
  {
    YearFromAt(1970, y, yd);
    EpochYear();
  }

  lemma {:induction false} EpochYear()
    ensures DaysBeforeYear(1970) == 0
  {
  }

  lemma {:induction false} TimeOfDay(dt: DateTime)
    requires ValidDateTime(dt)
    ensures var secs := dt.second + dt.minute * 60 + dt.hour * 3600;
      secs / 3600 == dt.hour && secs % 3600 / 60 == dt.minute && secs % 60 == dt.second
  {
  }

  /** Every valid date and time from 1970 on is the broken-down form of its
      POSIX count of seconds. */
  lemma {:induction false} CivilOfPosix(dt: DateTime)
    requires ValidDateTime(dt) && dt.year >= 1970
    ensures ToCivil(PosixSeconds(dt)) == dt
  {
    var s := PosixSeconds(dt);
    PosixDayAndTime(dt);
    YearOfDayAt(dt.year, YearDay(dt));
    assert YearOfDay(s / 86400) == (dt.year, YearDay(dt));
    MonthFromAt(dt.year, 1, dt.month, dt.day);
    assert MonthFrom(dt.year, YearDay(dt), 1) == (dt.month, dt.day);
    TimeOfDay(dt);
  }

  // ---------------------------------------------------------------------
  // The formatter

  function Pad2(n: int): string
    requires 0 <= n
  {
    PadNat(n, 2)
  }

  /** "%Y-%m-%d %H:%M:%S" */
  function Render(dt: DateTime): string
    requires ValidDateTime(dt) && dt.year >= 1
  {
    PadNat(dt.year, 4) + "-" + Pad2(dt.month) + "-" + Pad2(dt.day) + " "
    + Pad2(dt.hour) + ":" + Pad2(dt.minute) + ":" + Pad2(dt.second)
  }

  /** `format_timestamp_ms_to_utc(ms)`: the UTC time of floor(ms / 1000)
      seconds; str(ms) where int(float(ms)) raises or the year falls outside
      1..9999. */
  function FormatTimestampMs(num: NumberSyntax, ms: Value): string {
    match IntOfFloat(num, ms)
    case None => Str(ms)
    case Some(t) =>
      var dt := ToCivil(t / 1000);
      if 1 <= dt.year <= 9999 then Render(dt) else Str(ms)
  }

  /** The epoch. */
  lemma {:induction false} EpochIsNewYear1970()
    ensures ToCivil(0) == DateTime(1970, 1, 1, 0, 0, 0)
  {
    CivilOfPosix(DateTime(1970, 1, 1, 0, 0, 0));
  }

  /** 10^12 ms, the smallest time the signal validators accept, is
      2001-09-09 01:46:40 UTC. */
  lemma {:induction false} TrillionMs(ms: int)
    requires ms == 1000 * 1000000000
    ensures ToCivil(ms / 1000) == DateTime(2001, 9, 9, 1, 46, 40)
  {
    var dt := DateTime(2001, 9, 9, 1, 46, 40);
    assert YearDay(dt) == 251;
    assert PosixSeconds(dt) == ms / 1000;
    CivilOfPosix(dt);
  }

  /** The formatter prints the date and time whose POSIX count of seconds
      is the whole seconds of the timestamp, for every time from 1970 to
      the end of 9999. */
  lemma {:induction false} FormatTimestampMsPrintsDate(num: NumberSyntax, ms: Value, dt: DateTime)
    requires ValidDateTime(dt) && 1970 <= dt.year <= 9999
    requires IntOfFloat(num, ms).Some? && IntOfFloat(num, ms).value / 1000 == PosixSeconds(dt)
    ensures FormatTimestampMs(num, ms) == Render(dt)
  {
    CivilOfPosix(dt);
  }

  /** A value `int(float())` rejects is printed as str() gives it. */
  lemma {:induction false} FormatTimestampMsFallback(num: NumberSyntax, ms: Value)
    requires IntOfFloat(num, ms).None?
    ensures FormatTimestampMs(num, ms) == Str(ms)
  {
  }
}
