/** UTC civil time as the record's `ObservationDateUtc` exposes it: a proleptic
    Gregorian date and a time of day to the millisecond, years 1 to 9999 (the
    range of .NET's DateTime), obtained by adding a number of milliseconds to
    the Unix epoch 1970-01-01T00:00:00Z. */
module CivilTime {
  import opened Wrappers
  import opened Text

  const MsPerSecond: int := 1000
  const MsPerMinute: int := 60000
  const MsPerHour: int := 3600000
  const MsPerDay: int := 86400000

  datatype DateTime = DateTime(year: int, month: int, day: int,
                               hour: int, minute: int, second: int, millisecond: int)

  predicate IsLeapYear(y: int) {
    y % 4 == 0 && (y % 100 != 0 || y % 400 == 0)
  }

  function DaysInYear(y: int): int {
    if IsLeapYear(y) then 366 else 365
  }

  function DaysInMonth(y: int, m: int): int
    requires 1 <= m <= 12
  {
    if m == 2 then (if IsLeapYear(y) then 29 else 28)
    else if m == 4 || m == 6 || m == 9 || m == 11 then 30
    else 31
  }

  /** Days from 0001-01-01 to the first of January of year `y`. */
  function DaysBeforeYear(y: int): int
    requires 1 <= y
  {
    var p := y - 1;
    365 * p + p / 4 - p / 100 + p / 400
  }

  /** Days from the first of January of year `y` to the first day of month `m`
      (`m == 13` gives the length of the year). */
  function DaysBeforeMonth(y: int, m: int): int
    requires 1 <= m <= 13
  {
    [0, 31, 59, 90, 120, 151, 181, 212, 243, 273, 304, 334, 365][m - 1]
      + (if IsLeapYear(y) && m > 2 then 1 else 0)
  }

  /** A representable DateTime: every field within its calendar range. */
  predicate Valid(d: DateTime) {
    1 <= d.year <= 9999 && 1 <= d.month <= 12 && 1 <= d.day <= DaysInMonth(d.year, d.month)
    && 0 <= d.hour < 24 && 0 <= d.minute < 60 && 0 <= d.second < 60 && 0 <= d.millisecond < 1000
  }

  /** Days from 0001-01-01 to the date of `d`. */
  function DayNumber(d: DateTime): int
    requires Valid(d)
  {
    DaysBeforeYear(d.year) + DaysBeforeMonth(d.year, d.month) + d.day - 1
  }

  /** Milliseconds from midnight to the time of day of `d`. */
  function MsOfDay(d: DateTime): int
    requires Valid(d)
  {
    d.hour * MsPerHour + d.minute * MsPerMinute + d.second * MsPerSecond + d.millisecond
  }

  /** Milliseconds elapsed from 0001-01-01T00:00:00 to `d` (DateTime.Ticks / 10000). */
  function TotalMs(d: DateTime): int
    requires Valid(d)
  {
    DayNumber(d) * MsPerDay + MsOfDay(d)
  }

  const UnixEpoch: DateTime := DateTime(1970, 1, 1, 0, 0, 0, 0)

  /** TotalMs(UnixEpoch): 719162 days. */
  const UnixEpochMs: int := 62135596800000

  /** Milliseconds from 0001-01-01 to 10000-01-01, one past DateTime.MaxValue. */
  const EndOfTimeMs: int := 315537897600000

  lemma Constants()
    ensures TotalMs(UnixEpoch) == UnixEpochMs
    ensures DaysBeforeYear(10000) * MsPerDay == EndOfTimeMs
  {
  }

  // ------------------------------------------------- calendar arithmetic

  lemma DaysBeforeNextYear(y: int)
    requires 1 <= y
    ensures DaysBeforeYear(y + 1) == DaysBeforeYear(y) + DaysInYear(y)
  {
    var p := y - 1;
    assert (p + 1) / 4 == p / 4 + (if (p + 1) % 4 == 0 then 1 else 0);
    assert (p + 1) / 100 == p / 100 + (if (p + 1) % 100 == 0 then 1 else 0);
    assert (p + 1) / 400 == p / 400 + (if (p + 1) % 400 == 0 then 1 else 0);
  }

  lemma {:induction false} DaysBeforeYearMonotone(a: int, b: int)
    requires 1 <= a <= b
    ensures DaysBeforeYear(a) + 365 * (b - a) <= DaysBeforeYear(b)
    decreases b - a
  {
    if a < b {
      DaysBeforeYearMonotone(a, b - 1);
      DaysBeforeNextYear(b - 1);
    }
  }

  /** The year whose days contain day number `days`, searched upwards from `y`. */
  function YearContaining(days: int, y: int): (r: int)
    requires 1 <= y && DaysBeforeYear(y) <= days
    ensures y <= r && DaysBeforeYear(r) <= days < DaysBeforeYear(r + 1)
    decreases days - DaysBeforeYear(y)
  {
    DaysBeforeNextYear(y);
    if days < DaysBeforeYear(y + 1) then y else YearContaining(days, y + 1)
  }

  /** The month whose days contain day `dayOfYear` (counted from 0) of year `y`,
      searched upwards from `m`. */
  function MonthContaining(y: int, dayOfYear: int, m: int): (r: int)
    requires 1 <= m <= 12 && DaysBeforeMonth(y, m) <= dayOfYear < DaysInYear(y)
    ensures m <= r <= 12 && DaysBeforeMonth(y, r) <= dayOfYear < DaysBeforeMonth(y, r + 1)
    decreases 12 - m
  {
    if m == 12 || dayOfYear < DaysBeforeMonth(y, m + 1) then m
    else MonthContaining(y, dayOfYear, m + 1)
  }

  lemma MonthLengths(y: int, m: int)
    requires 1 <= m <= 12
    ensures DaysBeforeMonth(y, m + 1) == DaysBeforeMonth(y, m) + DaysInMonth(y, m)
    ensures DaysBeforeMonth(y, 13) == DaysInYear(y)
  {
  }

  lemma MonthsIncrease(y: int, a: int, b: int)
    requires 1 <= a < b <= 13
    ensures DaysBeforeMonth(y, a) < DaysBeforeMonth(y, b)
  {
  }

  // ------------------------------------------------------ conversions

  /** The DateTime that lies `t` milliseconds after 0001-01-01T00:00:00. */
  function FromTotalMs(t: int): (d: DateTime)
    requires 0 <= t < EndOfTimeMs
    ensures Valid(d) && TotalMs(d) == t
  {
    var days := t / MsPerDay;
    var rem := t % MsPerDay;
    assert DaysBeforeYear(1) == 0;
    var y := YearContaining(days, 1);
    YearInRange(days, y);
    var dayOfYear := days - DaysBeforeYear(y);
    DaysBeforeNextYear(y);
    var m := MonthContaining(y, dayOfYear, 1);
    MonthLengths(y, m);
    var d := DateTime(y, m, dayOfYear - DaysBeforeMonth(y, m) + 1,
                      rem / MsPerHour, rem % MsPerHour / MsPerMinute,
                      rem % MsPerMinute / MsPerSecond, rem % MsPerSecond);
    TimeOfDay(rem);
    d
  }

  lemma YearInRange(days: int, y: int)
    requires 0 <= days < DaysBeforeYear(10000)
    requires 1 <= y && DaysBeforeYear(y) <= days
    ensures y <= 9999
  {
    if y >= 10000 {
      DaysBeforeYearMonotone(10000, y);
    }
  }

  lemma TimeOfDay(rem: int)
    requires 0 <= rem < MsPerDay
    ensures rem == rem / MsPerHour * MsPerHour + rem % MsPerHour / MsPerMinute * MsPerMinute
                   + rem % MsPerMinute / MsPerSecond * MsPerSecond + rem % MsPerSecond
    ensures 0 <= rem / MsPerHour < 24
  {
    var h, r1 := rem / MsPerHour, rem % MsPerHour;
    var mi, r2 := r1 / MsPerMinute, r1 % MsPerMinute;
    var s, ms := r2 / MsPerSecond, r2 % MsPerSecond;
    assert r1 == mi * MsPerMinute + r2;
    DivModUnique(rem / MsPerMinute, rem % MsPerMinute, h * 60 + mi, r2, MsPerMinute);
    assert r2 == s * MsPerSecond + ms;
    DivModUnique(rem / MsPerSecond, rem % MsPerSecond, (h * 60 + mi) * 60 + s, ms, MsPerSecond);
  }

  /** `DateTime(1970, 1, 1, 0, 0, 0, 0, DateTimeKind.Utc).AddMilliseconds(ms)`;
      `None` where AddMilliseconds throws ArgumentOutOfRangeException because
      the sum falls outside years 1 to 9999. */
  function FromUnixMs(ms: int): (r: Option<DateTime>)
    ensures r.Some? <==> 0 <= UnixEpochMs + ms < EndOfTimeMs
    ensures r.Some? ==> Valid(r.value) && TotalMs(r.value) == TotalMs(UnixEpoch) + ms
  {
    Constants();
    var t := UnixEpochMs + ms;
    if 0 <= t < EndOfTimeMs then Some(FromTotalMs(t)) else None
  }

  /** Two valid DateTimes that are the same number of milliseconds after year 1
      are the same DateTime: no two civil times share an instant. */
  lemma TotalMsInjective(a: DateTime, b: DateTime)
    requires Valid(a) && Valid(b) && TotalMs(a) == TotalMs(b)
    ensures a == b
  {
    DivModUnique(DayNumber(a), MsOfDay(a), DayNumber(b), MsOfDay(b), MsPerDay);
    DayNumberInjective(a, b);
    MsOfDayInjective(a, b);
  }

  /** A valid date's day number lies within its year, after the months before it. */
  lemma DayWithinYear(d: DateTime)
    requires Valid(d)
    ensures DaysBeforeYear(d.year) + DaysBeforeMonth(d.year, d.month) <= DayNumber(d)
    ensures DayNumber(d) < DaysBeforeYear(d.year) + DaysBeforeMonth(d.year, d.month + 1)
    ensures DayNumber(d) < DaysBeforeYear(d.year + 1)
  {
    MonthLengths(d.year, d.month);
    DaysBeforeNextYear(d.year);
    if d.month < 12 {
      MonthsIncrease(d.year, d.month + 1, 13);
    }
  }

  /** Years own disjoint ranges of day numbers. */
  lemma YearOwnsDays(ya: int, yb: int, n: int)
    requires 1 <= ya && 1 <= yb
    requires DaysBeforeYear(ya) <= n < DaysBeforeYear(ya + 1)
    requires DaysBeforeYear(yb) <= n < DaysBeforeYear(yb + 1)
    ensures ya == yb
  {
    if ya < yb {
      DaysBeforeYearMonotone(ya + 1, yb);
    } else if yb < ya {
      DaysBeforeYearMonotone(yb + 1, ya);
    }
  }

  /** Within a year, months own disjoint ranges of days. */
  lemma MonthOwnsDays(y: int, ma: int, mb: int, k: int)
    requires 1 <= ma <= 12 && 1 <= mb <= 12
    requires DaysBeforeMonth(y, ma) <= k < DaysBeforeMonth(y, ma + 1)
    requires DaysBeforeMonth(y, mb) <= k < DaysBeforeMonth(y, mb + 1)
    ensures ma == mb
  {
    if ma < mb {
      MonthsIncrease(y, ma + 1, mb);
    } else if mb < ma {
      MonthsIncrease(y, mb + 1, ma);
    }
  }

  lemma DayNumberInjective(a: DateTime, b: DateTime)
    requires Valid(a) && Valid(b) && DayNumber(a) == DayNumber(b)
    ensures a.year == b.year && a.month == b.month && a.day == b.day
  {
    DayWithinYear(a);
    DayWithinYear(b);
    YearOwnsDays(a.year, b.year, DayNumber(a));
    var k := DayNumber(a) - DaysBeforeYear(a.year);
    MonthOwnsDays(a.year, a.month, b.month, k);
  }



  lemma MsOfDayInjective(a: DateTime, b: DateTime)
    requires Valid(a) && Valid(b) && MsOfDay(a) == MsOfDay(b)
    ensures a.hour == b.hour && a.minute == b.minute && a.second == b.second
    ensures a.millisecond == b.millisecond
  {
    var ra := a.minute * MsPerMinute + a.second * MsPerSecond + a.millisecond;
    var rb := b.minute * MsPerMinute + b.second * MsPerSecond + b.millisecond;
    DivModUnique(a.hour, ra, b.hour, rb, MsPerHour);
    DivModUnique(a.minute, a.second * MsPerSecond + a.millisecond,
                 b.minute, b.second * MsPerSecond + b.millisecond, MsPerMinute);
    DivModUnique(a.second, a.millisecond, b.second, b.millisecond, MsPerSecond);
  }

  /** Quotient and remainder by one of the time units are unique. */
  lemma DivModUnique(q1: int, r1: int, q2: int, r2: int, k: int)
    requires k == MsPerSecond || k == MsPerMinute || k == MsPerHour || k == MsPerDay
    requires 0 <= r1 < k && 0 <= r2 < k
    requires q1 * k + r1 == q2 * k + r2
    ensures q1 == q2 && r1 == r2
  {
    if k == MsPerSecond {
      assert q1 * 1000 + r1 == q2 * 1000 + r2;
    } else if k == MsPerMinute {
      assert q1 * 60000 + r1 == q2 * 60000 + r2;
    } else if k == MsPerHour {
      assert q1 * 3600000 + r1 == q2 * 3600000 + r2;
    } else {
      assert q1 * 86400000 + r1 == q2 * 86400000 + r2;
    }
  }

  /** Converting a representable DateTime to milliseconds and back returns it. */
  lemma FromTotalMsOfTotalMs(d: DateTime)
    requires Valid(d)
    ensures 0 <= TotalMs(d) < EndOfTimeMs && FromTotalMs(TotalMs(d)) == d
  {
    var t := TotalMs(d);
    Constants();
    MonthLengths(d.year, d.month);
    DaysBeforeNextYear(d.year);
    DaysBeforeYearMonotone(d.year + 1, 10000);
    TotalMsInjective(FromTotalMs(t), d);
  }

  // ------------------------------------------------------------ rendering

  /** `ToString("yyyy-MM-dd-HH-mm")`: year padded to four digits, the other
      fields to two, joined by '-'. The fields are those of the Gregorian
      calendar, as under the invariant culture. */
  function MinuteStamp(d: DateTime): (s: string)
    requires Valid(d)
    ensures |s| == 16
  {
    ZeroPadWidth(d.year, 4);
    ZeroPadWidth(d.month, 2);
    ZeroPadWidth(d.day, 2);
    ZeroPadWidth(d.hour, 2);
    ZeroPadWidth(d.minute, 2);
    var f := MinuteStampFields(d);
    Join5(f[0], f[1], f[2], f[3], f[4], "-");
    Join(f, "-")
  }

  function MinuteStampFields(d: DateTime): seq<string>
    requires Valid(d)
  {
    [ZeroPad(d.year, 4), ZeroPad(d.month, 2), ZeroPad(d.day, 2), ZeroPad(d.hour, 2), ZeroPad(d.minute, 2)]
  }

  /** The minute stamp reads back into year, month, day, hour and minute. */
  lemma MinuteStampReadsBack(d: DateTime)
    requires Valid(d)
    ensures var parts := Split(MinuteStamp(d), '-');
      |parts| == 5 && (forall i :: 0 <= i < 5 ==> AllDigits(parts[i]))
      && ParseNat(parts[0]) == d.year && ParseNat(parts[1]) == d.month
      && ParseNat(parts[2]) == d.day && ParseNat(parts[3]) == d.hour
      && ParseNat(parts[4]) == d.minute
  {
    var fields := MinuteStampFields(d);
    SplitDigitFields(fields);
    ParseZeroPad(d.year, 4);
    ParseZeroPad(d.month, 2);
    ParseZeroPad(d.day, 2);
    ParseZeroPad(d.hour, 2);
    ParseZeroPad(d.minute, 2);
  }

  /** Fields of digits joined by '-' split back into the same fields. */
  lemma SplitDigitFields(fields: seq<string>)
    requires 1 <= |fields| && forall i :: 0 <= i < |fields| ==> AllDigits(fields[i])
    ensures Split(Join(fields, "-"), '-') == fields
  {
    forall i | 0 <= i < |fields| ensures '-' !in fields[i] {
      NotDashInDigits(fields[i]);
    }
    SplitJoin(fields, '-');
  }

  lemma NotDashInDigits(s: string)
    requires AllDigits(s)
    ensures '-' !in s
  {
  }

  /** Equal minute stamps mean equal instants up to the minute. */
  lemma MinuteStampInjective(a: DateTime, b: DateTime)
    requires Valid(a) && Valid(b) && MinuteStamp(a) == MinuteStamp(b)
    ensures a.year == b.year && a.month == b.month && a.day == b.day
    ensures a.hour == b.hour && a.minute == b.minute
  {
    MinuteStampReadsBack(a);
    MinuteStampReadsBack(b);
  }
}
