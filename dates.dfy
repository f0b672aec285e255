/**
 * PHP `DateTime` values as this plugin uses them: a civil date and a
 * time of day in UTC, the arithmetic of `DateTime::add` with
 * `P<n>D` and `P<n>M` intervals, and the `date()`/`format()` letters the
 * model classes use ('d', 'n', 'w').
 */
module Dates {

  /** Microseconds in a day: PHP `DateTime` carries microseconds. */
  const MicrosPerDay: int := 86_400_000_000
  const MicrosPerSecond: int := 1_000_000
  const SecondsPerDay: int := 86_400

  /** Gregorian leap years (proleptic). */
  predicate IsLeapYear(y: int) {
    y % 4 == 0 && (y % 100 != 0 || y % 400 == 0)
  }

  function DaysInMonth(y: int, m: int): (n: int)
    requires 1 <= m <= 12
    ensures 28 <= n <= 31
    ensures n == 29 <==> m == 2 && IsLeapYear(y)
    ensures n == 28 <==> m == 2 && !IsLeapYear(y)
    ensures n == 30 <==> m == 4 || m == 6 || m == 9 || m == 11
  {
    if m == 2 then (if IsLeapYear(y) then 29 else 28)
    else if m == 4 || m == 6 || m == 9 || m == 11 then 30
    else 31
  }

  datatype LocalDateTime = DateTimeOf(year: int, month: int, day: int, timeOfDay: int)

  ghost predicate ValidDateTime(t: LocalDateTime) {
    && 1 <= t.month <= 12
    && 1 <= t.day <= DaysInMonth(t.year, t.month)
    && 0 <= t.timeOfDay < MicrosPerDay
  }

  /**
   * A PHP `DateTime`: a date that exists in the calendar and a time of day
   * in microseconds since midnight. Two values are equal exactly when they
   * denote the same instant, which is what PHP's `==` on `DateTime` compares.
   */
  type DateTime = t: LocalDateTime | ValidDateTime(t) witness DateTimeOf(1970, 1, 1, 0)

  /** Months counted from January of year 0: the position of a date's month on the month line. */
  function MonthIndex(t: LocalDateTime): int {
    t.year * 12 + t.month - 1
  }

  /** Chronological order of two instants. */
  predicate Before(a: DateTime, b: DateTime) {
    || MonthIndex(a) < MonthIndex(b)
    || (MonthIndex(a) == MonthIndex(b) && a.day < b.day)
    || (MonthIndex(a) == MonthIndex(b) && a.day == b.day && a.timeOfDay < b.timeOfDay)
  }

  lemma BeforeTransitive(a: DateTime, b: DateTime, c: DateTime)
    requires Before(a, b) && Before(b, c)
    ensures Before(a, c)
  {
  }

  lemma BeforeIrreflexive(a: DateTime)
    ensures !Before(a, a)
  {
  }

  // ---------------------------------------------------------------------
  // Day numbers

  /** Days from 1 March of year 0 to 1 March of year `y` (years counted from March). */
  function DaysBeforeMarchYear(y: int): int {
    var r := y % 400;
    (y / 400) * 146097 + 365 * r + r / 4 - r / 100
  }

  /** Days from 1 March to the first of month `m` of the same March-based year. */
  function DaysFromMarch(m: int): int
    requires 1 <= m <= 12
  {
    match m
    case 3 => 0
    case 4 => 31
    case 5 => 61
    case 6 => 92
    case 7 => 122
    case 8 => 153
    case 9 => 184
    case 10 => 214
    case 11 => 245
    case 12 => 275
    case 1 => 306
    case _ => 337
  }

  /** The day number of `t`: days since 1 January 1970. */
  function Ordinal(t: DateTime): int {
    var y := if t.month <= 2 then t.year - 1 else t.year;
    DaysBeforeMarchYear(y) + DaysFromMarch(t.month) + t.day - 1 - 719468
  }

  /** Within one 400-year cycle, year r + 1 of the cycle adds a leap day exactly when its number is divisible by 4 but not by 100. */
  lemma CycleYearLength(r: int)
    requires 0 <= r < 399
    ensures var next := 365 * (r + 1) + (r + 1) / 4 - (r + 1) / 100;
      next == 365 * r + r / 4 - r / 100 + 365 + (if (r + 1) % 4 == 0 && (r + 1) % 100 != 0 then 1 else 0)
  {
  }

  /** Remainders by a divisor of 400 do not see whole 400-year cycles. */
  lemma CycleShift4(q: int, s: int)
    ensures (400 * q + s) % 4 == s % 4
  {
    assert 400 * q + s == 4 * (100 * q + s / 4) + s % 4;
  }

  lemma CycleShift100(q: int, s: int)
    ensures (400 * q + s) % 100 == s % 100
  {
    assert 400 * q + s == 100 * (4 * q + s / 100) + s % 100;
  }

  /** A March-based year starting in `y` has 366 days exactly when its February, in year y + 1, has 29. */
  lemma MarchYearLength(y: int)
    ensures DaysBeforeMarchYear(y + 1) == DaysBeforeMarchYear(y) + 365 + (if IsLeapYear(y + 1) then 1 else 0)
  {
    var q, r := y / 400, y % 400;
    assert y + 1 == 400 * q + (r + 1);
    CycleShift4(q, r + 1);
    CycleShift100(q, r + 1);
    if r < 399 {
      assert (y + 1) / 400 == q && (y + 1) % 400 == r + 1;
      CycleYearLength(r);
      assert IsLeapYear(y + 1) <==> (r + 1) % 4 == 0 && (r + 1) % 100 != 0;
    } else {
      assert y + 1 == 400 * (q + 1);
      assert (y + 1) / 400 == q + 1 && (y + 1) % 400 == 0;
      assert IsLeapYear(y + 1);
    }
  }

  // ---------------------------------------------------------------------
  // Adding days

  /** The same time of day on the following calendar day. */
  function NextDay(t: DateTime): (r: DateTime)
    ensures r.timeOfDay == t.timeOfDay
    ensures Before(t, r)
  {
    if t.day < DaysInMonth(t.year, t.month) then
      t.(day := t.day + 1)
    else if t.month < 12 then
      DateTimeOf(t.year, t.month + 1, 1, t.timeOfDay)
    else
      DateTimeOf(t.year + 1, 1, 1, t.timeOfDay)
  }

  /** The next day's day number is one more, across month and year ends and leap days. */
  lemma NextDayOrdinal(t: DateTime)
    ensures Ordinal(NextDay(t)) == Ordinal(t) + 1
  {
    var n := NextDay(t);
    if t.day < DaysInMonth(t.year, t.month) {
      assert n == t.(day := t.day + 1);
    } else if t.month == 2 {
      assert n == DateTimeOf(t.year, 3, 1, t.timeOfDay);
      MarchYearLength(t.year - 1);
    } else if t.month < 12 {
      assert n == DateTimeOf(t.year, t.month + 1, 1, t.timeOfDay);
      assert DaysFromMarch(t.month + 1) == DaysFromMarch(t.month) + DaysInMonth(t.year, t.month);
    } else {
      assert n == DateTimeOf(t.year + 1, 1, 1, t.timeOfDay);
    }
  }

  /** `$t->add(new DateInterval('P<k>D'))` on a clone of `t`. */
  function AddDays(t: DateTime, k: nat): (r: DateTime)
    ensures r.timeOfDay == t.timeOfDay
    decreases k
  {
    if k == 0 then t else NextDay(AddDays(t, k - 1))
  }

  /** Adding k days keeps the time of day and advances the day number by k. */
  lemma {:induction false} AddDaysOrdinal(t: DateTime, k: nat)
    ensures AddDays(t, k).timeOfDay == t.timeOfDay
    ensures Ordinal(AddDays(t, k)) == Ordinal(t) + k
  {
    if k > 0 {
      var p := AddDays(t, k - 1);
      assert AddDays(t, k) == NextDay(p);
      AddDaysOrdinal(t, k - 1);
      NextDayOrdinal(p);
    }
  }

  /** Adding more days gives a strictly later instant. */
  lemma {:induction false} AddDaysIncreasing(t: DateTime, j: nat, k: nat)
    requires j < k
    ensures Before(AddDays(t, j), AddDays(t, k))
  {
    if j + 1 < k {
      AddDaysIncreasing(t, j, k - 1);
      BeforeTransitive(AddDays(t, j), AddDays(t, k - 1), AddDays(t, k));
    }
  }

  /** Different day offsets give different instants. */
  lemma AddDaysInjective(t: DateTime, j: nat, k: nat)
    requires j != k
    ensures AddDays(t, j) != AddDays(t, k)
  {
    AddDaysOrdinal(t, j);
    AddDaysOrdinal(t, k);
  }

  // ---------------------------------------------------------------------
  // Adding months

  /**
   * `$t->add(new DateInterval('P<n>M'))` on a clone of `t`: n is added to the
   * month field, whole years carry into the year field, and a day of month
   * the target month does not have rolls over into the month after it
   * (31 January + 1 month is 3 March, or 2 March in a leap year).
   */
  function AddMonths(t: DateTime, n: nat): (r: DateTime)
    ensures r.timeOfDay == t.timeOfDay
  {
    var total := t.month - 1 + n;
    var y := t.year + total / 12;
    var m := total % 12 + 1;
    var dim := DaysInMonth(y, m);
    // December has 31 days, so only a month before December can overflow.
    if t.day <= dim then DateTimeOf(y, m, t.day, t.timeOfDay)
    else DateTimeOf(y, m + 1, t.day - dim, t.timeOfDay)
  }

  /**
   * The target month lies n calendar months after `t`'s. Adding n months
   * lands in it on the same day of the month when it has that day, and
   * otherwise in the month after it, on day (day - its length), at most 3.
   */
  lemma AddMonthsPosition(t: DateTime, n: nat)
    ensures var target := DateTimeOf(t.year + (t.month - 1 + n) / 12, (t.month - 1 + n) % 12 + 1, 1, 0);
      var r := AddMonths(t, n);
      && MonthIndex(target) == MonthIndex(t) + n
      && (t.day <= DaysInMonth(target.year, target.month) ==>
            MonthIndex(r) == MonthIndex(t) + n && r.day == t.day)
      && (t.day > DaysInMonth(target.year, target.month) ==>
            MonthIndex(r) == MonthIndex(t) + n + 1 && r.day == t.day - DaysInMonth(target.year, target.month) <= 3)
  {
  }

  /** Adding zero months changes nothing. */
  lemma AddMonthsZero(t: DateTime)
    ensures AddMonths(t, 0) == t
  {
  }

  /** Adding one more month gives a strictly later instant. */
  lemma AddMonthsStep(t: DateTime, i: nat)
    ensures Before(AddMonths(t, i), AddMonths(t, i + 1))
  {
    AddMonthsPosition(t, i);
    AddMonthsPosition(t, i + 1);
  }

  /** Adding more months gives a strictly later instant. */
  lemma {:induction false} AddMonthsIncreasing(t: DateTime, i: nat, j: nat)
    requires i < j
    ensures Before(AddMonths(t, i), AddMonths(t, j))
  {
    AddMonthsStep(t, j - 1);
    if i + 1 < j {
      AddMonthsIncreasing(t, i, j - 1);
      BeforeTransitive(AddMonths(t, i), AddMonths(t, j - 1), AddMonths(t, j));
    }
  }

  // ---------------------------------------------------------------------
  // Timestamps and weekdays

  /** `DateTime::getTimestamp()`: whole UTC seconds since the epoch. */
  function Timestamp(t: DateTime): (ts: int)
    ensures ts / SecondsPerDay == Ordinal(t)
    ensures ts % SecondsPerDay == t.timeOfDay / MicrosPerSecond
  {
    var s := t.timeOfDay / MicrosPerSecond;
    assert 0 <= s < SecondsPerDay;
    Ordinal(t) * SecondsPerDay + s
  }

  /** `date('w', ts)`: the day of the week of a timestamp, 0 for Sunday to 6 for Saturday (1 January 1970 was a Thursday). */
  function WeekdayOfTimestamp(ts: int): (w: int)
    ensures 0 <= w <= 6
  {
    (ts / SecondsPerDay + 4) % 7
  }

  /** The day of the week of a date, 0 for Sunday. */
  function Weekday(t: DateTime): (w: int)
    ensures 0 <= w <= 6
  {
    (Ordinal(t) + 4) % 7
  }

  /** The weekday read from the timestamp is the weekday of the day. */
  lemma WeekdayOfTimestampIsWeekday(t: DateTime)
    ensures WeekdayOfTimestamp(Timestamp(t)) == Weekday(t)
  {
    var s := t.timeOfDay / MicrosPerSecond;
    assert 0 <= s < SecondsPerDay;
    assert Timestamp(t) / SecondsPerDay == Ordinal(t);
  }

  /** Each added day advances the timestamp by 86400 seconds and the weekday by one. */
  lemma AddDaysTimestampAndWeekday(t: DateTime, k: nat)
    ensures Timestamp(AddDays(t, k)) == Timestamp(t) + SecondsPerDay * k
    ensures Weekday(AddDays(t, k)) == (Weekday(t) + k) % 7
  {
    AddDaysOrdinal(t, k);
    var o, s := Ordinal(t), t.timeOfDay / MicrosPerSecond;
    assert Timestamp(AddDays(t, k)) == (o + k) * SecondsPerDay + s;
    assert (o + k) * SecondsPerDay == o * SecondsPerDay + SecondsPerDay * k;
    ModSum(o + 4, k);
  }

  /** Remainders by 7 of a sum. */
  lemma ModSum(a: int, k: int)
    ensures (a + k) % 7 == (a % 7 + k) % 7
  {
    assert a + k == 7 * (a / 7) + (a % 7 + k);
  }

  lemma EpochIsThursday()
    ensures Ordinal(DateTimeOf(1970, 1, 1, 0)) == 0
    ensures Timestamp(DateTimeOf(1970, 1, 1, 0)) == 0
    ensures Weekday(DateTimeOf(1970, 1, 1, 0)) == 4
  {
  }

  /** The timestamp 1441065600 is 1 September 2015, 00:00 UTC, a Tuesday. */
  lemma SeptemberFirst2015()
    ensures Timestamp(DateTimeOf(2015, 9, 1, 0)) == 1_441_065_600
    ensures Weekday(DateTimeOf(2015, 9, 1, 0)) == 2
  {
  }

  /** 31 January 2017 plus one month is 3 March 2017, not 28 February. */
  lemma JanuaryEndPlusOneMonth()
    ensures AddMonths(DateTimeOf(2017, 1, 31, 0), 1) == DateTimeOf(2017, 3, 3, 0)
    ensures AddMonths(DateTimeOf(2017, 1, 31, 0), 2) == DateTimeOf(2017, 3, 31, 0)
    ensures AddMonths(AddMonths(DateTimeOf(2017, 1, 31, 0), 1), 1) != AddMonths(DateTimeOf(2017, 1, 31, 0), 2)
  {
  }

  /** A week from 30 December 2017 crosses into 2018. */
  lemma WeekAcrossNewYear()
    ensures AddDays(DateTimeOf(2017, 12, 30, 0), 2) == DateTimeOf(2018, 1, 1, 0)
    ensures AddDays(DateTimeOf(2017, 12, 30, 0), 6) == DateTimeOf(2018, 1, 5, 0)
  {
    var t: DateTime := DateTimeOf(2017, 12, 30, 0);
    assert AddDays(t, 1) == DateTimeOf(2017, 12, 31, 0);
    assert AddDays(t, 2) == DateTimeOf(2018, 1, 1, 0);
    assert AddDays(t, 3) == DateTimeOf(2018, 1, 2, 0);
    assert AddDays(t, 4) == DateTimeOf(2018, 1, 3, 0);
    assert AddDays(t, 5) == DateTimeOf(2018, 1, 4, 0);
  }

  // ---------------------------------------------------------------------
  // Decimal rendering, as in the format letters 'd' and 'n'

  function DigitChar(n: int): (c: char)
    requires 0 <= n < 10
    ensures '0' <= c <= '9'
  {
    "0123456789"[n]
  }

  /** The number a string of decimal digits denotes. */
  function DecimalValue(s: string): int
  {
    if s == [] then 0
    else DecimalValue(s[..|s| - 1]) * 10 + (s[|s| - 1] as int - '0' as int)
  }

  /** Decimal digits without leading zeros: format letter 'n'. */
  function FormatDecimal(n: nat): (s: string)
    ensures 1 <= |s|
    ensures forall i :: 0 <= i < |s| ==> '0' <= s[i] <= '9'
    ensures n < 10 <==> |s| == 1
    ensures n < 100 ==> |s| <= 2
    ensures n > 0 ==> s[0] != '0'
  {
    if n < 10 then [DigitChar(n)] else FormatDecimal(n / 10) + [DigitChar(n % 10)]
  }

  /** Two decimal digits with a leading zero: format letter 'd'. */
  function FormatTwoDigits(n: nat): (s: string)
    requires n < 100
    ensures |s| == 2
    ensures forall i :: 0 <= i < |s| ==> '0' <= s[i] <= '9'
  {
    [DigitChar(n / 10), DigitChar(n % 10)]
  }

  lemma {:induction false} FormatDecimalValue(n: nat)
    ensures DecimalValue(FormatDecimal(n)) == n
  {
    if n >= 10 {
      var s := FormatDecimal(n);
      assert s[..|s| - 1] == FormatDecimal(n / 10);
      FormatDecimalValue(n / 10);
      assert "0123456789"[n % 10] as int - '0' as int == n % 10;
    } else {
      assert "0123456789"[n] as int - '0' as int == n;
    }
  }

  lemma FormatTwoDigitsValue(n: nat)
    requires n < 100
    ensures DecimalValue(FormatTwoDigits(n)) == n
  {
    var s := FormatTwoDigits(n);
    assert s[..1] == [DigitChar(n / 10)];
    assert [DigitChar(n / 10)][..0] == [];
    assert "0123456789"[n / 10] as int - '0' as int == n / 10;
    assert "0123456789"[n % 10] as int - '0' as int == n % 10;
  }
}
