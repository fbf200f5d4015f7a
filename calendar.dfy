/** Proleptic Gregorian calendar dates, standing in for Python's `datetime`,
    `calendar.monthrange` and `timedelta` arithmetic. */
module Calendar {

  /** A year/month/day triple, not necessarily a real date. */
  datatype Ymd = Ymd(year: int, month: int, day: int)

  type Year = y: int | 1 <= y <= 9999 witness 1970
  type Month = m: int | 1 <= m <= 12 witness 1

  predicate IsLeapYear(y: int) {
    y % 4 == 0 && (y % 100 != 0 || y % 400 == 0)
  }

  function DaysInYear(y: int): (n: int)
    ensures n == 365 || n == 366
    ensures n == 366 <==> IsLeapYear(y)
  {
    if IsLeapYear(y) then 366 else 365
  }

  /** The second component of `calendar.monthrange(y, m)`. */
  function DaysInMonth(y: int, m: Month): (n: int)
    ensures 28 <= n <= 31
    ensures m == 2 ==> (n == 29 <==> IsLeapYear(y))
    ensures m != 2 ==> n == (if m in {4, 6, 9, 11} then 30 else 31)
  {
    if m == 2 then (if IsLeapYear(y) then 29 else 28)
    else if m == 4 || m == 6 || m == 9 || m == 11 then 30
    else 31
  }

  /** A date that `datetime` accepts. */
  predicate IsDate(d: Ymd) {
    1 <= d.year <= 9999 && 1 <= d.month <= 12 && 1 <= d.day <= DaysInMonth(d.year, d.month)
  }

  type Date = d: Ymd | IsDate(d) witness Ymd(1970, 1, 1)

  /** Days of year `y` that precede the first day of month `m`. */
  function DaysBeforeMonth(y: int, m: Month): nat {
    if m == 1 then 0 else DaysBeforeMonth(y, m - 1) + DaysInMonth(y, m - 1)
  }

  /** Days from 0001-01-01 up to the first day of year `y`. */
  function DaysBeforeYear(y: int): int
    requires y >= 1
  {
    var k := y - 1;
    365 * k + k / 4 - k / 100 + k / 400
  }

  /** The proleptic Gregorian ordinal of `d`, as `date.toordinal()` gives it
      (0001-01-01 is day 1). */
  function DayNumber(d: Date): int {
    DaysBeforeYear(d.year) + DaysBeforeMonth(d.year, d.month) + d.day
  }

  /** The order in which `datetime` values compare. */
  predicate Before(a: Ymd, b: Ymd) {
    a.year < b.year
    || (a.year == b.year && a.month < b.month)
    || (a.year == b.year && a.month == b.month && a.day < b.day)
  }

  /** `d - timedelta(days=1)`; 0001-01-01 has no predecessor in `datetime`
      and is mapped to a non-date here. */
  function PrevDay(d: Date): Ymd {
    if d.day > 1 then Ymd(d.year, d.month, d.day - 1)
    else if d.month > 1 then Ymd(d.year, d.month - 1, DaysInMonth(d.year, d.month - 1))
    else Ymd(d.year - 1, 12, 31)
  }

  /** `(d - timedelta(days=1)).day`: how the source counts the days of `d`'s
      month that precede `d`. */
  function DaysIntoMonth(d: Date): (n: int)
    ensures d.day > 1 ==> n == d.day - 1
    ensures d.day == 1 && d.month > 1 ==> n == DaysInMonth(d.year, d.month - 1)
    ensures d.day == 1 && d.month == 1 ==> n == 31
  {
    PrevDay(d).day
  }

  /** Going from `k` to `k + 1` adds one to `k / n` exactly when `n` divides `k + 1`. */
  lemma DivStep(k: int, n: int)
    requires k >= 0 && n > 0
    ensures (k + 1) / n == k / n + (if (k + 1) % n == 0 then 1 else 0)
  {
    var q, r := k / n, k % n;
    assert k == n * q + r && 0 <= r < n;
    if r + 1 == n {
      DivUnique(k + 1, n, q + 1, 0);
    } else {
      DivUnique(k + 1, n, q, r + 1);
    }
  }

  lemma DivUnique(x: int, n: int, q: int, r: int)
    requires n > 0 && x == n * q + r && 0 <= r < n
    ensures x / n == q && x % n == r
  {
    var q', r' := x / n, x % n;
    assert n * q' + r' == n * q + r;
    if q' < q {
      assert n * q - n * q' == n * (q - q');
      MulAtLeast(n, q - q');
    } else if q' > q {
      assert n * q' - n * q == n * (q' - q);
      MulAtLeast(n, q' - q);
    }
  }

  lemma {:induction false} MulAtLeast(n: int, d: int)
    requires n > 0 && d >= 1
    ensures n * d >= n
    decreases d
  {
    if d > 1 {
      assert n * d == n * (d - 1) + n;
      MulAtLeast(n, d - 1);
    }
  }

  /** The ordinals of consecutive years differ by the length of the earlier one. */
  lemma YearStep(y: int)
    requires y >= 1
    ensures DaysBeforeYear(y + 1) == DaysBeforeYear(y) + DaysInYear(y)
  {
    var k := y - 1;
    DivStep(k, 4);
    DivStep(k, 100);
    DivStep(k, 400);
  }

  lemma MonthStep(y: int, m: Month)
    ensures m < 12 ==> DaysBeforeMonth(y, m) + DaysInMonth(y, m) == DaysBeforeMonth(y, m + 1)
    ensures m == 12 ==> DaysBeforeMonth(y, m) + DaysInMonth(y, m) == DaysInYear(y)
  {
    if m == 12 {
      DaysBeforeDecember(y);
    }
  }

  /** The first eleven months of a year have 334 days, one more in a leap year. */
  lemma DaysBeforeDecember(y: int)
    ensures DaysBeforeMonth(y, 12) == 334 + (if IsLeapYear(y) then 1 else 0)
  {
    var leap := if IsLeapYear(y) then 1 else 0;
    assert DaysBeforeMonth(y, 2) == 31;
    assert DaysBeforeMonth(y, 3) == 59 + leap;
    assert DaysBeforeMonth(y, 4) == 90 + leap;
    assert DaysBeforeMonth(y, 5) == 120 + leap;
    assert DaysBeforeMonth(y, 6) == 151 + leap;
    assert DaysBeforeMonth(y, 7) == 181 + leap;
    assert DaysBeforeMonth(y, 8) == 212 + leap;
    assert DaysBeforeMonth(y, 9) == 243 + leap;
    assert DaysBeforeMonth(y, 10) == 273 + leap;
    assert DaysBeforeMonth(y, 11) == 304 + leap;
  }

  /** Every date lies inside its own year's block of ordinals. */
  lemma WithinYear(d: Date)
    ensures DaysBeforeYear(d.year) < DayNumber(d) <= DaysBeforeYear(d.year) + DaysInYear(d.year)
  {
    MonthEnds(d.year, d.month);
  }

  lemma {:induction false} MonthEnds(y: int, m: Month)
    ensures DaysBeforeMonth(y, m) + DaysInMonth(y, m) <= DaysInYear(y)
    decreases 12 - m
  {
    MonthStep(y, m);
    if m < 12 {
      MonthEnds(y, m + 1);
    }
  }

  lemma {:induction false} MonthsAscend(y: int, m1: Month, m2: Month)
    requires m1 < m2
    ensures DaysBeforeMonth(y, m1) + DaysInMonth(y, m1) <= DaysBeforeMonth(y, m2)
    decreases m2 - m1
  {
    MonthStep(y, m1);
    if m1 + 1 < m2 {
      MonthsAscend(y, m1 + 1, m2);
    }
  }

  lemma {:induction false} YearsAscend(y1: int, y2: int)
    requires 1 <= y1 <= y2
    ensures DaysBeforeYear(y1) + 365 * (y2 - y1) <= DaysBeforeYear(y2)
    decreases y2 - y1
  {
    if y1 < y2 {
      YearStep(y1);
      YearsAscend(y1 + 1, y2);
    }
  }

  /** Ordinals follow the order of `datetime` comparison. */
  lemma DayNumberMonotone(a: Date, b: Date)
    requires Before(a, b)
    ensures DayNumber(a) < DayNumber(b)
  {
    if a.year < b.year {
      WithinYear(a);
      WithinYear(b);
      YearStep(a.year);
      YearsAscend(a.year + 1, b.year);
    } else if a.month < b.month {
      MonthsAscend(a.year, a.month, b.month);
    }
  }

  /** Two dates are the same date exactly when their ordinals agree. */
  lemma DayNumberInjective(a: Date, b: Date)
    ensures DayNumber(a) == DayNumber(b) <==> a == b
  {
    if Before(a, b) {
      DayNumberMonotone(a, b);
    } else if Before(b, a) {
      DayNumberMonotone(b, a);
    }
  }

  /** `PrevDay` is one day back on the ordinal line. */
  lemma PrevDayIsOneDayBack(d: Date)
    requires d != Ymd(1, 1, 1)
    ensures IsDate(PrevDay(d))
    ensures DayNumber(PrevDay(d)) == DayNumber(d) - 1
  {
    if d.day > 1 {
    } else if d.month > 1 {
      PrevDayAcrossMonth(d);
    } else {
      PrevDayAcrossYear(d);
    }
  }

  lemma PrevDayAcrossMonth(d: Date)
    requires d.day == 1 && d.month > 1
    ensures IsDate(PrevDay(d))
    ensures DayNumber(PrevDay(d)) == DayNumber(d) - 1
  {
    var p := PrevDay(d);
    assert p == Ymd(d.year, d.month - 1, DaysInMonth(d.year, d.month - 1));
    assert DaysBeforeMonth(d.year, d.month) == DaysBeforeMonth(d.year, d.month - 1) + p.day;
  }

  lemma PrevDayAcrossYear(d: Date)
    requires d.day == 1 && d.month == 1 && d.year > 1
    ensures IsDate(PrevDay(d))
    ensures DayNumber(PrevDay(d)) == DayNumber(d) - 1
  {
    var p := PrevDay(d);
    assert p == Ymd(d.year - 1, 12, 31);
    YearStep(d.year - 1);
    MonthStep(d.year - 1, 12);
    assert DayNumber(p) == DaysBeforeYear(d.year - 1) + DaysInYear(d.year - 1);
  }
}
