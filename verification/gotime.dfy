/** The part of Go's `time` package the tool relies on: `time.Date` in UTC,
    `Time.Unix`, and the `Duration` that `Time.Sub` returns, read back as
    whole seconds. The calendar is the proleptic Gregorian one, year 0
    included. */
module GoTime {
  import opened GoInt
  import opened Strconv

  predicate IsLeap(y: int) {
    y % 4 == 0 && (y % 100 != 0 || y % 400 == 0)
  }

  function YearLength(y: int): int {
    if IsLeap(y) then 366 else 365
  }

  /** Days from 1970-01-01 to January 1 of `y`, counted a year at a time;
      the reference the closed form below is checked against. */
  function DaysToYear(y: int): int
    decreases if y >= 1970 then y - 1970 else 1970 - y
  {
    if y == 1970 then 0
    else if y > 1970 then DaysToYear(y - 1) + YearLength(y - 1)
    else DaysToYear(y + 1) - YearLength(y)
  }

  /** Leap years among 1..n (for negative `n`, minus those among n+1..0). */
  function Leaps(n: int): int {
    n / 4 - n / 100 + n / 400
  }

  /** The closed form `time.Date` uses for whole years. */
  function DaysBeforeYear(y: int): int {
    365 * (y - 1970) + Leaps(y - 1) - Leaps(1969)
  }

  lemma QuotientStep(n: int, k: int)
    requires k == 4 || k == 100 || k == 400
    ensures n / k - (n - 1) / k == if n % k == 0 then 1 else 0
  {
    if k == 4 {
      assert n / 4 - (n - 1) / 4 == if n % 4 == 0 then 1 else 0;
    } else if k == 100 {
      assert n / 100 - (n - 1) / 100 == if n % 100 == 0 then 1 else 0;
    } else {
      assert n / 400 - (n - 1) / 400 == if n % 400 == 0 then 1 else 0;
    }
  }

  /** A year adds one to the leap count exactly when it is a leap year. */
  lemma LeapsStep(n: int)
    ensures Leaps(n) - Leaps(n - 1) == if IsLeap(n) then 1 else 0
  {
    QuotientStep(n, 4);
    QuotientStep(n, 100);
    QuotientStep(n, 400);
    CenturiesDivide(n);
  }

  lemma CenturiesDivide(n: int)
    ensures n % 400 == 0 ==> n % 100 == 0
    ensures n % 100 == 0 ==> n % 4 == 0
  {
    if n % 400 == 0 {
      var q := n / 400;
      assert n == 100 * (4 * q);
    }
    if n % 100 == 0 {
      var q := n / 100;
      assert n == 4 * (25 * q);
    }
  }

  /** The closed form counts the same days as the year-by-year reference. */
  lemma {:induction false} DaysBeforeYearCounts(y: int)
    ensures DaysBeforeYear(y) == DaysToYear(y)
    decreases if y >= 1970 then y - 1970 else 1970 - y
  {
    if y > 1970 {
      DaysBeforeYearCounts(y - 1);
      LeapsStep(y - 1);
    } else if y < 1970 {
      DaysBeforeYearCounts(y + 1);
      LeapsStep(y);
    }
  }

  /** Days in month `m` (1..12) of year `y`. */
  function MonthLength(y: int, m: int): int
    requires 1 <= m <= 12
  {
    if m == 2 then (if IsLeap(y) then 29 else 28)
    else if m == 4 || m == 6 || m == 9 || m == 11 then 30
    else 31
  }

  /** Go's `daysBefore` table: days before each month of a common year. */
  const CommonDaysBefore: seq<int> := [0, 31, 59, 90, 120, 151, 181, 212, 243, 273, 304, 334, 365]

  /** Days from January 1 to the first of month `m`, leap day added from
      March on. */
  function DaysBeforeMonth(y: int, m: int): int
    requires 1 <= m <= 12
  {
    CommonDaysBefore[m - 1] + (if IsLeap(y) && m >= 3 then 1 else 0)
  }

  /** The month table agrees with the month lengths: January starts the
      year and each month starts where the previous one ends, the last
      ending with the year. */
  lemma MonthsFillYear(y: int)
    ensures DaysBeforeMonth(y, 1) == 0
    ensures forall m :: 1 <= m < 12 ==> DaysBeforeMonth(y, m + 1) == DaysBeforeMonth(y, m) + MonthLength(y, m)
    ensures DaysBeforeMonth(y, 12) + MonthLength(y, 12) == YearLength(y)
  {
  }

  /** `time.Date(y, time.Month(mo), d, h, mi, s, 0, time.UTC).Unix()`. The
      month is first brought into 1..12, carrying whole years (rounding
      down); out-of-range days, hours, minutes and seconds carry linearly,
      so they enter the sum unchanged. */
  function Unix(y: int, mo: int, d: int, h: int, mi: int, s: int): int {
    Days(y, mo, d) * 86400 + h * 3600 + mi * 60 + s
  }

  /** Days from the epoch to day `d` of month `mo` of year `y`, the month
      normalised first. */
  function Days(y: int, mo: int, d: int): int {
    var year := y + (mo - 1) / 12;
    var month := (mo - 1) % 12 + 1;
    DaysBeforeYear(year) + DaysBeforeMonth(year, month) + d - 1
  }

  /** The epoch is 1970-01-01 00:00:00 UTC. */
  lemma UnixEpoch()
    ensures Unix(1970, 1, 1, 0, 0, 0) == 0
  {
  }

  /** The calendar reading of `Unix`: for in-range fields it counts the days
      of the years and months before the date, one `YearLength` and one
      `MonthLength` at a time. */
  lemma UnixCounts(y: int, mo: int, d: int, h: int, mi: int, s: int)
    requires 1 <= mo <= 12
    ensures Unix(y, mo, d, h, mi, s) ==
            (DaysToYear(y) + MonthsBefore(y, mo) + d - 1) * 86400 + h * 3600 + mi * 60 + s
  {
    DaysBeforeYearCounts(y);
    MonthsBeforeTable(y, mo);
    assert (mo - 1) / 12 == 0 && (mo - 1) % 12 + 1 == mo;
  }

  /** Days in months 1..m-1 of year `y`, summed one month at a time. */
  function MonthsBefore(y: int, m: int): int
    requires 1 <= m <= 12
  {
    if m == 1 then 0 else MonthsBefore(y, m - 1) + MonthLength(y, m - 1)
  }

  lemma {:induction false} MonthsBeforeTable(y: int, m: int)
    requires 1 <= m <= 12
    ensures MonthsBefore(y, m) == DaysBeforeMonth(y, m)
  {
    MonthsFillYear(y);
    if m > 1 {
      MonthsBeforeTable(y, m - 1);
    }
  }

  /** Twelve months more is one year more. */
  lemma UnixMonthCarry(y: int, mo: int, d: int, h: int, mi: int, s: int)
    ensures Unix(y, mo + 12, d, h, mi, s) == Unix(y + 1, mo, d, h, mi, s)
  {
    assert (mo + 12 - 1) / 12 == (mo - 1) / 12 + 1;
    assert (mo + 12 - 1) % 12 == (mo - 1) % 12;
  }

  /** The day after the last of a month is the first of the next one, also
      across a year end. */
  lemma UnixDayRollover(y: int, mo: int, h: int, mi: int, s: int)
    requires 1 <= mo <= 12
    ensures Unix(y, mo, MonthLength(y, mo) + 1, h, mi, s) == Unix(y, mo + 1, 1, h, mi, s)
  {
    DayRollover(y, mo);
  }

  lemma DayRollover(y: int, mo: int)
    requires 1 <= mo <= 12
    ensures Days(y, mo, MonthLength(y, mo) + 1) == Days(y, mo + 1, 1)
  {
    if mo == 12 {
      YearRollover(y);
    } else {
      MonthsFillYear(y);
      assert (mo - 1) / 12 == 0 && (mo - 1) % 12 + 1 == mo;
      assert mo / 12 == 0 && mo % 12 + 1 == mo + 1;
    }
  }

  lemma YearRollover(y: int)
    ensures Days(y, 12, 32) == Days(y, 13, 1)
  {
    LeapsStep(y);
    assert Days(y, 12, 32) == DaysBeforeYear(y) + YearLength(y);
    assert Days(y, 13, 1) == DaysBeforeYear(y + 1);
  }



  /** The largest `time.Duration`, in nanoseconds. */
  const MaxDuration: int := MaxInt64
  const MinDuration: int := MinInt64
  const Second: int := 1_000_000_000

  /** `int(end.Sub(start).Seconds())` for times on whole seconds: the
      difference in nanoseconds, saturated to the int64 range as `Sub`
      does, then truncated to whole seconds. */
  function SubSeconds(start: int, end: int): (r: int)
    ensures -9223372036 <= r <= 9223372036
    ensures -9223372036 <= end - start <= 9223372036 ==> r == end - start
    ensures end - start > 9223372036 ==> r == 9223372036
    ensures end - start < -9223372036 ==> r == -9223372036
  {
    var ns := (end - start) * Second;
    var d := if ns > MaxDuration then MaxDuration else if ns < MinDuration then MinDuration else ns;
    TruncDiv(d, Second)
  }
}
