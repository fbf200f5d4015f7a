/** The billing-period allocation engine of `src/invoice.py`: the `Invoice`
    class, its validators, the interval allocation, the missing-month
    synthesis and the tariff arithmetic. */
module Billing {
  import opened Calendar
  import opened Rounding
  import opened Records
  import opened Formatting

  function Abs(x: int): nat {
    if x < 0 then -x else x
  }

  /** `get_days_difference`: the number of days between two dates, where a
      date's distance to itself is replaced by its day of month so that it
      can be divided by. */
  function DaysDifference(a: Date, b: Date): (n: int)
    ensures n >= 1
    ensures a != b ==> n == Abs(DayNumber(a) - DayNumber(b))
    ensures a == b ==> n == a.day
  {
    DayNumberInjective(a, b);
    var diff := Abs(DayNumber(a) - DayNumber(b));
    if diff == 0 then a.day else diff
  }

  lemma DaysDifferenceSymmetric(a: Date, b: Date)
    ensures DaysDifference(a, b) == DaysDifference(b, a)
  {
  }

  // ---------------------------------------------------------------------
  // Interval allocation (`get_interval_consumption`)
  // ---------------------------------------------------------------------

  /** `days / span * value`: the part of an interval's consumption that
      falls on `days` of its `span` days, at the interval's constant rate. */
  function Portion(days: int, span: int, value: real): real
    requires span >= 1
  {
    days as real / span as real * value
  }

  /** The unrounded consumption attributed to `cur`'s month: the days of the
      month before `cur` at the rate of the interval ending at `cur`, the rest
      at the rate of the interval ending at `next`. */
  function MonthConsumption(prev: Date, cur: Date, next: Date, curValue: real, nextValue: real): real {
    SplitConsumption(DaysIntoMonth(cur), DaysInMonth(cur.year, cur.month),
                     DaysDifference(cur, prev), DaysDifference(cur, next), curValue, nextValue)
  }

  /** A month of `whole` days whose first `before` days belong to an interval
      of `spanBefore` days consuming `curValue`, and whose other days belong
      to an interval of `spanAfter` days consuming `nextValue`. */
  function SplitConsumption(before: int, whole: int, spanBefore: int, spanAfter: int,
                            curValue: real, nextValue: real): real
    requires spanBefore >= 1 && spanAfter >= 1
  {
    Portion(before, spanBefore, curValue) + Portion(whole - before, spanAfter, nextValue)
  }

  predicate IsWhole(x: real) {
    x.Floor as real == x
  }

  /** A rule for a month's consumption from the previous, the current and the
      next date and the readings of the intervals ending at the current and at
      the next date; the source's rule is `MonthConsumption`. The allocation
      below is stated for any rule, because its shape does not depend on it. */
  type MonthRule = (Date, Date, Date, real, real) -> real

  /** The entry the loop emits for the interior date `dates[i]`, or the
      `StopIteration` of a date with no reading. */
  function InteriorShare(dates: seq<Date>, rows: seq<Reading>, i: nat, rule: MonthRule): (r: Result<Share>)
    requires 0 < i < |dates| - 1
    ensures r.Ok? ==> r.value.date == dates[i] && IsWhole(r.value.value)
    ensures r.Err? <==> FirstReadingOn(rows, dates[i]).None? || FirstReadingOn(rows, dates[i + 1]).None?
    ensures r.Err? ==> r.error == StopIteration
  {
    match FirstReadingOn(rows, dates[i])
    case None => Err(StopIteration)
    case Some(c) =>
      match FirstReadingOn(rows, dates[i + 1])
      case None => Err(StopIteration)
      case Some(n) =>
        var v := rule(dates[i - 1], dates[i], dates[i + 1], rows[c].value, rows[n].value);
        Ok(Share(dates[i], TruncToUnit(v) as real))
  }

  /** Number of interior dates (neither first nor last) of a list of `len`. */
  function InteriorCount(len: nat): nat {
    if len < 2 then 0 else len - 2
  }

  /** The step for interior date `i`, as a function of `i`. */
  function InteriorStep(dates: seq<Date>, rows: seq<Reading>, rule: MonthRule): nat -> Result<Share> {
    i => if 0 < i < |dates| - 1 then InteriorShare(dates, rows, i, rule) else Err(IndexError)
  }

  /** Runs steps `1..n` in order: the values of all of them, or the error of
      the first one that fails. */
  function RunSteps<T>(step: nat -> Result<T>, n: nat): Result<seq<T>> {
    if n == 0 then Ok([])
    else match RunSteps(step, n - 1)
      case Err(e) => Err(e)
      case Ok(s) =>
        match step(n)
        case Err(e) => Err(e)
        case Ok(x) => Ok(s + [x])
  }

  /** `RunSteps` succeeds exactly when every step does, and then lists their
      values in order. */
  lemma {:induction false} RunStepsOk<T>(step: nat -> Result<T>, n: nat)
    ensures RunSteps(step, n).Ok? <==> forall k :: 1 <= k <= n ==> step(k).Ok?
    ensures RunSteps(step, n).Ok? ==>
              |RunSteps(step, n).value| == n
              && forall k :: 0 <= k < n ==> RunSteps(step, n).value[k] == step(k + 1).value
  {
    if n > 0 {
      RunStepsOk(step, n - 1);
    }
  }

  /** A failed run reports the error of one of its steps. */
  lemma {:induction false} RunStepsErr<T>(step: nat -> Result<T>, n: nat)
    ensures RunSteps(step, n).Err? ==>
              exists k :: 1 <= k <= n && step(k).Err? && RunSteps(step, n).error == step(k).error
  {
    if n > 0 {
      RunStepsErr(step, n - 1);
    }
  }

  /** Once a run has failed, running more steps reports the same error. */
  lemma {:induction false} FailureStays<T>(step: nat -> Result<T>, m: nat, n: nat)
    requires m <= n && RunSteps(step, m).Err?
    ensures RunSteps(step, n) == RunSteps(step, m)
    decreases n - m
  {
    if m < n {
      FailureStays(step, m, n - 1);
    }
  }

  /** A run stops at its first failing step and reports that step's error. */
  lemma {:induction false} FirstFailingStep<T>(step: nat -> Result<T>, n: nat, j: nat)
    requires 1 <= j <= n && step(j).Err?
    requires forall k :: 1 <= k < j ==> step(k).Ok?
    ensures RunSteps(step, n) == Err(step(j).error)
  {
    RunStepsOk(step, j - 1);
    FailureStays(step, j, n);
  }

  /** All shares of a validated date list under `rule`, stopping at the
      first `StopIteration`. */
  function AllocateBy(dates: seq<Date>, rows: seq<Reading>, rule: MonthRule): Result<seq<Share>> {
    RunSteps(InteriorStep(dates, rows, rule), InteriorCount(|dates|))
  }

  /** What the loop of `get_interval_consumption` computes. */
  function Allocate(dates: seq<Date>, rows: seq<Reading>): Result<seq<Share>> {
    AllocateBy(dates, rows, MonthConsumption)
  }

  /** One whole-unit entry per interior date, in list order; the first and
      last dates are only anchors. */
  lemma AllocateShape(dates: seq<Date>, rows: seq<Reading>, rule: MonthRule)
    requires AllocateBy(dates, rows, rule).Ok?
    ensures |AllocateBy(dates, rows, rule).value| == InteriorCount(|dates|)
    ensures forall k :: 0 <= k < |AllocateBy(dates, rows, rule).value| ==>
              AllocateBy(dates, rows, rule).value[k].date == dates[k + 1]
              && IsWhole(AllocateBy(dates, rows, rule).value[k].value)
  {
    var step := InteriorStep(dates, rows, rule);
    var n := InteriorCount(|dates|);
    RunStepsOk(step, n);
    var shares := RunSteps(step, n).value;
    forall k | 0 <= k < |shares|
      ensures shares[k].date == dates[k + 1] && IsWhole(shares[k].value)
    {
      StepFacts(dates, rows, rule, k + 1);
    }
  }

  /** What one step of the allocation yields, read off `InteriorShare`. */
  lemma StepFacts(dates: seq<Date>, rows: seq<Reading>, rule: MonthRule, i: nat)
    requires 1 <= i <= InteriorCount(|dates|)
    ensures InteriorStep(dates, rows, rule)(i).Ok? ==>
              InteriorStep(dates, rows, rule)(i).value.date == dates[i] && IsWhole(InteriorStep(dates, rows, rule)(i).value.value)
    ensures InteriorStep(dates, rows, rule)(i).Ok? <==>
              FirstReadingOn(rows, dates[i]).Some? && FirstReadingOn(rows, dates[i + 1]).Some?
    ensures InteriorStep(dates, rows, rule)(i).Err? ==> InteriorStep(dates, rows, rule)(i).error == StopIteration
  {
    assert InteriorStep(dates, rows, rule)(i) == InteriorShare(dates, rows, i, rule);
  }

  /** The allocation fails, with `StopIteration`, exactly when some date after
      the first has no reading (with fewer than three dates nothing is looked up). */
  lemma AllocateSucceeds(dates: seq<Date>, rows: seq<Reading>, rule: MonthRule)
    ensures AllocateBy(dates, rows, rule).Ok? <==>
              |dates| < 3 || forall i :: 1 <= i < |dates| ==> FirstReadingOn(rows, dates[i]).Some?
    ensures AllocateBy(dates, rows, rule).Err? ==> AllocateBy(dates, rows, rule).error == StopIteration
  {
    if |dates| >= 3 {
      if AllocateBy(dates, rows, rule).Ok? {
        SucceedsOnlyWithReadings(dates, rows, rule);
      }
      if forall i :: 1 <= i < |dates| ==> FirstReadingOn(rows, dates[i]).Some? {
        ReadingsMakeItSucceed(dates, rows, rule);
      }
    }
    FailsWithStopIteration(dates, rows, rule);
  }

  lemma SucceedsOnlyWithReadings(dates: seq<Date>, rows: seq<Reading>, rule: MonthRule)
    requires |dates| >= 3 && AllocateBy(dates, rows, rule).Ok?
    ensures forall i :: 1 <= i < |dates| ==> FirstReadingOn(rows, dates[i]).Some?
  {
    var n := InteriorCount(|dates|);
    RunStepsOk(InteriorStep(dates, rows, rule), n);
    forall i | 1 <= i < |dates| ensures FirstReadingOn(rows, dates[i]).Some? {
      if i < |dates| - 1 {
        StepFacts(dates, rows, rule, i);
      } else {
        StepFacts(dates, rows, rule, i - 1);
      }
    }
  }

  lemma ReadingsMakeItSucceed(dates: seq<Date>, rows: seq<Reading>, rule: MonthRule)
    requires |dates| >= 3
    requires forall i :: 1 <= i < |dates| ==> FirstReadingOn(rows, dates[i]).Some?
    ensures AllocateBy(dates, rows, rule).Ok?
  {
    var step := InteriorStep(dates, rows, rule);
    var n := InteriorCount(|dates|);
    forall k | 1 <= k <= n ensures step(k).Ok? {
      StepFacts(dates, rows, rule, k);
    }
    RunStepsOk(step, n);
  }

  lemma FailsWithStopIteration(dates: seq<Date>, rows: seq<Reading>, rule: MonthRule)
    ensures AllocateBy(dates, rows, rule).Err? ==> AllocateBy(dates, rows, rule).error == StopIteration
  {
    var step := InteriorStep(dates, rows, rule);
    var n := InteriorCount(|dates|);
    RunStepsErr(step, n);
    if RunSteps(step, n).Err? {
      var k :| 1 <= k <= n && step(k).Err? && RunSteps(step, n).error == step(k).error;
      StepFacts(dates, rows, rule, k);
    }
  }

  /** The loop of `get_interval_consumption` over a validated date list; the
      first and the last date are skipped, as the source's `continue` does. */
  method AllocateShares(dates: seq<Date>, meterValues: seq<Reading>) returns (r: Result<seq<Share>>)
    ensures r == Allocate(dates, meterValues)
  {
    ghost var step := InteriorStep(dates, meterValues, MonthConsumption);
    ghost var n := InteriorCount(|dates|);
    var sharePeriod: seq<Share> := [];
    ghost var done: nat := 0;
    for index := 0 to |dates|
      invariant done == if index <= 1 then 0 else if index - 1 > n then n else index - 1
      invariant RunSteps(step, done) == Ok(sharePeriod)
    {
      if index == 0 || index == |dates| - 1 {
        continue;
      }
      var entry := InteriorEntry(dates, meterValues, index);
      if entry.Err? {
        FailureStays(step, index, n);
        return Err(entry.error);
      }
      sharePeriod := sharePeriod + [entry.value];
      done := index;
    }
    return Ok(sharePeriod);
  }

  /** One pass of that loop: look up the readings of the date and of the next
      one (`next(...)` raises `StopIteration` when there is none), split the
      month between the two intervals and truncate to whole units. */
  method InteriorEntry(dates: seq<Date>, meterValues: seq<Reading>, index: nat) returns (r: Result<Share>)
    requires 0 < index < |dates| - 1
    ensures r == InteriorShare(dates, meterValues, index, MonthConsumption)
  {
    var current := FirstReadingOn(meterValues, dates[index]);
    if current.None? {
      return Err(StopIteration);
    }
    var next := FirstReadingOn(meterValues, dates[index + 1]);
    if next.None? {
      return Err(StopIteration);
    }
    var consumption := MonthConsumption(dates[index - 1], dates[index], dates[index + 1],
                                        meterValues[current.value].value, meterValues[next.value].value);
    return Ok(Share(dates[index], TruncToUnit(consumption) as real));
  }

  /** For a date after the first of its month the two day weights are the
      days before it and the days from it on, both non-negative. On the first
      of a month the first weight is the whole previous month, so the second
      weight is the difference of the two months' lengths: negative after a
      longer month (February, April, June, September, November), 0 on
      1 January. */
  lemma DayWeights(d: Date)
    ensures d.day > 1 ==> 0 < DaysIntoMonth(d) && 0 < DaysInMonth(d.year, d.month) - DaysIntoMonth(d)
    ensures d.day == 1 && d.month > 1 ==>
              DaysInMonth(d.year, d.month) - DaysIntoMonth(d) == DaysInMonth(d.year, d.month) - DaysInMonth(d.year, d.month - 1)
    ensures d.day == 1 && d.month == 1 ==> DaysInMonth(d.year, d.month) - DaysIntoMonth(d) == 0
    ensures d.day == 1 && d.month in {2, 4, 6, 9, 11} ==> DaysInMonth(d.year, d.month) - DaysIntoMonth(d) < 0
  {
  }

  /** At one daily rate, the part of an interval falling on `days` of its
      days is those days times the rate. */
  lemma PortionAtConstantRate(days: int, span: int, rate: real)
    requires span >= 1
    ensures Portion(days, span, rate * span as real) == days as real * rate
  {
    var w := days as real;
    var sp := span as real;
    calc {
      w / sp * (rate * sp);
      (w / sp * sp) * rate;
      { assert w / sp * sp == w; }
      w * rate;
    }
  }

  /** When both intervals around an interior date were consumed at one daily
      rate, its month is given exactly the month's length times that rate,
      wherever in the month the date falls. */
  lemma ConstantRateFillsMonth(before: int, whole: int, spanBefore: int, spanAfter: int, rate: real)
    requires spanBefore >= 1 && spanAfter >= 1
    ensures SplitConsumption(before, whole, spanBefore, spanAfter, rate * spanBefore as real, rate * spanAfter as real)
            == rate * whole as real
  {
    PortionAtConstantRate(before, spanBefore, rate);
    PortionAtConstantRate(whole - before, spanAfter, rate);
    assert before as real * rate + (whole - before) as real * rate == whole as real * rate;
  }

  /** With non-negative readings and a date after the first of its month, the
      month's consumption is non-negative and at most what the two intervals
      consumed together. */
  lemma SplitConsumptionBounds(before: int, whole: int, spanBefore: int, spanAfter: int,
                               curValue: real, nextValue: real)
    requires spanBefore >= 1 && spanAfter >= 1
    requires 0 <= before <= spanBefore && 0 <= whole - before <= spanAfter
    requires curValue >= 0.0 && nextValue >= 0.0
    ensures 0.0 <= SplitConsumption(before, whole, spanBefore, spanAfter, curValue, nextValue) <= curValue + nextValue
  {
    PortionBounds(before, spanBefore, curValue);
    PortionBounds(whole - before, spanAfter, nextValue);
  }

  lemma PortionBounds(days: int, span: int, value: real)
    requires 0 <= days <= span && span >= 1 && value >= 0.0
    ensures 0.0 <= Portion(days, span, value) <= value
  {
    var f := days as real / span as real;
    assert 0.0 <= f <= 1.0;
    assert f * value <= 1.0 * value;
  }

  // ---------------------------------------------------------------------
  // Missing-month synthesis (`insert_missing_month`)
  // ---------------------------------------------------------------------

  /** The target month falls strictly between the months of entries `k` and `k + 1`. */
  predicate GapAt(s: seq<Share>, k: int, m: int)
    requires 0 <= k < |s| - 1
  {
    s[k].date.month < m < s[k + 1].date.month
  }

  /** The first consecutive pair that skips month `m`. */
  function FirstGap(s: seq<Share>, m: int): (r: Option<nat>)
    ensures r.Some? ==> r.value < |s| - 1 && GapAt(s, r.value, m)
    ensures r.Some? ==> forall k :: 0 <= k < r.value ==> !GapAt(s, k, m)
    ensures r.None? ==> forall k :: 0 <= k < |s| - 1 ==> !GapAt(s, k, m)
  {
    if |s| < 2 then None
    else if GapAt(s, 0, m) then Some(0)
    else
      var rest := FirstGap(s[1..], m);
      assert forall k :: 1 <= k < |s| - 1 && (rest.None? || k <= rest.value) ==> !GapAt(s, k, m) by {
        forall k | 1 <= k < |s| - 1 && (rest.None? || k <= rest.value)
          ensures !GapAt(s, k, m)
        {
          assert s[1..][k - 1] == s[k] && s[1..][k] == s[k + 1];
          assert !GapAt(s[1..], k - 1, m);
        }
      }
      match rest
      case None => None
      case Some(k) =>
        assert s[1..][k] == s[k + 1] && s[1..][k + 1] == s[k + 2];
        Some(k + 1)
  }

  /** A gap with none before it is the first gap. */
  lemma FirstGapIs(s: seq<Share>, m: int, i: nat)
    requires i < |s| - 1 && GapAt(s, i, m)
    requires forall k :: 0 <= k < i ==> !GapAt(s, k, m)
    ensures FirstGap(s, m) == Some(i)
  {
  }

  // ---------------------------------------------------------------------
  // Tariff arithmetic
  // ---------------------------------------------------------------------

  /** `get_base_price`: the yearly tariff over a fixed 365 days, times the
      days of the month, truncated to cents. */
  function ProratedBasePrice(tariff: real, y: int, m: Month): real {
    Prorate(tariff, DaysInMonth(y, m))
  }

  /** `days` days' worth of a yearly tariff, truncated to cents. */
  function Prorate(tariff: real, days: int): real {
    TruncToCents(tariff / 365.0 * days as real)
  }

  /** The base price is a whole number of cents and, for a non-negative
      tariff, less than one cent below the exact prorated amount. */
  lemma BasePriceBounds(tariff: real, y: int, m: Month)
    ensures IsWholeCents(ProratedBasePrice(tariff, y, m))
    ensures tariff >= 0.0 ==>
              tariff * DaysInMonth(y, m) as real / 365.0 - 0.01 < ProratedBasePrice(tariff, y, m)
              <= tariff * DaysInMonth(y, m) as real / 365.0
  {
    ProrateBounds(tariff, DaysInMonth(y, m));
  }

  lemma ProrateBounds(tariff: real, days: int)
    ensures IsWholeCents(Prorate(tariff, days))
    ensures tariff >= 0.0 && days >= 0 ==>
              tariff * days as real / 365.0 - 0.01 < Prorate(tariff, days) <= tariff * days as real / 365.0
  {
    var exact := tariff / 365.0 * days as real;
    assert exact == tariff * days as real / 365.0;
    if tariff >= 0.0 && days >= 0 {
      ScaleMonotone(tariff / 365.0, 0.0, days as real);
    }
    TruncToCentsBounds(exact);
  }

  /** A longer month never costs less base fee. */
  lemma BasePriceMonotone(tariff: real, y1: int, m1: Month, y2: int, m2: Month)
    requires tariff >= 0.0
    requires DaysInMonth(y1, m1) <= DaysInMonth(y2, m2)
    ensures ProratedBasePrice(tariff, y1, m1) <= ProratedBasePrice(tariff, y2, m2)
  {
    ProrateMonotone(tariff, DaysInMonth(y1, m1), DaysInMonth(y2, m2));
  }

  lemma ProrateMonotone(tariff: real, d1: int, d2: int)
    requires tariff >= 0.0 && 0 <= d1 <= d2
    ensures Prorate(tariff, d1) <= Prorate(tariff, d2)
  {
    ScaleMonotone(tariff / 365.0, d1 as real, d2 as real);
    TruncToCentsMonotone(tariff / 365.0 * d1 as real, tariff / 365.0 * d2 as real);
  }

  lemma ScaleMonotone(c: real, a: real, b: real)
    requires c >= 0.0 && 0.0 <= a <= b
    ensures 0.0 <= c * a <= c * b
  {
  }

  /** The year enters the base price only through February's length: the
      divisor is 365 in leap years too. */
  lemma BasePriceIgnoresYear(tariff: real, y1: int, y2: int, m: Month)
    requires m != 2 || IsLeapYear(y1) == IsLeapYear(y2)
    ensures ProratedBasePrice(tariff, y1, m) == ProratedBasePrice(tariff, y2, m)
  {
  }

  /** The base fee of the sample customer (170 a year) as the code computes it. */
  lemma BasePriceSamples()
    ensures ProratedBasePrice(170.0, 2021, 2) == 13.04
    ensures ProratedBasePrice(170.0, 2020, 2) == 13.50
    ensures ProratedBasePrice(170.0, 2023, 7) == 14.43
  {
    assert 1304.0 <= 170.0 / 365.0 * 28.0 * 100.0 < 1305.0;
    assert 1350.0 <= 170.0 / 365.0 * 29.0 * 100.0 < 1351.0;
    assert 1443.0 <= 170.0 / 365.0 * 31.0 * 100.0 < 1444.0;
  }

  /** The entries dated in month `m`, in list order. */
  function SharesInMonth(s: seq<Share>, m: int): (r: seq<Share>)
    ensures |r| <= |s|
  {
    if s == [] then []
    else SharesInMonth(s[..|s| - 1], m) + (if s[|s| - 1].date.month == m then [s[|s| - 1]] else [])
  }

  /** The filter keeps exactly the entries of month `m`. */
  lemma {:induction false} SharesInMonthMembers(s: seq<Share>, m: int)
    ensures forall x :: x in SharesInMonth(s, m) <==> x in s && x.date.month == m
  {
    if s != [] {
      var init := s[..|s| - 1];
      SharesInMonthMembers(init, m);
      assert s == init + [s[|s| - 1]];
    }
  }

  /** The index of the last entry dated in month `m`. */
  function LastIndexInMonth(s: seq<Share>, m: int): (r: Option<nat>)
    ensures r.Some? ==> r.value < |s| && s[r.value].date.month == m
    ensures r.Some? ==> forall k :: r.value < k < |s| ==> s[k].date.month != m
    ensures r.None? <==> forall k :: 0 <= k < |s| ==> s[k].date.month != m
  {
    if s == [] then None
    else if s[|s| - 1].date.month == m then Some(|s| - 1)
    else LastIndexInMonth(s[..|s| - 1], m)
  }

  /** The last element of the month filter is the last entry of the month. */
  lemma {:induction false} LastOfMonthFilter(s: seq<Share>, m: int)
    ensures |SharesInMonth(s, m)| == 0 <==> LastIndexInMonth(s, m).None?
    ensures LastIndexInMonth(s, m).Some? ==>
              SharesInMonth(s, m)[|SharesInMonth(s, m)| - 1] == s[LastIndexInMonth(s, m).value]
  {
    if s != [] {
      LastOfMonthFilter(s[..|s| - 1], m);
    }
  }

  /** An entry's consumption times the tariff in cents, truncated to cents. */
  function EnergyCharge(value: real, tariff: real): real {
    TruncToCents(value * (tariff / 100.0))
  }

  /** `get_energy_price` after the list is built: the last entry of the target
      month times the tariff in cents, truncated to cents; `IndexError` when
      the month has no entry. */
  function EnergyPriceOf(s: seq<Share>, tariff: real, m: int): (r: Result<real>)
    ensures r.Err? <==> forall k :: 0 <= k < |s| ==> s[k].date.month != m
    ensures r.Err? ==> r.error == IndexError
    ensures r.Ok? ==> LastIndexInMonth(s, m).Some?
    ensures r.Ok? ==> r.value == EnergyCharge(s[LastIndexInMonth(s, m).value].value, tariff)
  {
    LastOfMonthFilter(s, m);
    var inMonth := SharesInMonth(s, m);
    if |inMonth| == 0 then Err(IndexError)
    else
      var v := inMonth[|inMonth| - 1].value;
      assert v == s[LastIndexInMonth(s, m).value].value;
      Ok(EnergyCharge(v, tariff))
  }

  /** A successful energy price is a whole number of cents. */
  lemma EnergyPriceWholeCents(s: seq<Share>, tariff: real, m: int)
    requires EnergyPriceOf(s, tariff, m).Ok?
    ensures IsWholeCents(EnergyPriceOf(s, tariff, m).value)
  {
    TruncToCentsBounds(s[LastIndexInMonth(s, m).value].value * (tariff / 100.0));
  }

  /** The first index of a reading in the target month of another year. */
  function FirstOtherYear(rows: seq<Reading>, y: int, m: int): (r: Option<nat>)
    ensures r.Some? ==> r.value < |rows| && rows[r.value].date.year != y && rows[r.value].date.month == m
    ensures r.Some? ==> forall k :: 0 <= k < r.value ==> rows[k].date.year == y || rows[k].date.month != m
    ensures r.None? <==> forall k :: 0 <= k < |rows| ==> rows[k].date.year == y || rows[k].date.month != m
  {
    if rows == [] then None
    else if rows[0].date.year != y && rows[0].date.month == m then Some(0)
    else match FirstOtherYear(rows[1..], y, m)
      case None => None
      case Some(k) => Some(k + 1)
  }

  /** `except ValueError: raise ValueError("Not sufficient data available")`,
      for the only ValueError the two date checks can raise; their other
      error, IndexError, is not caught. */
  function WrapValueError(e: Error): Error {
    if e == BareValueError then NotSufficientData else e
  }

  /** Repeating the last date of a sorted list keeps it sorted. */
  lemma RepeatLastSorted(s: seq<Date>)
    requires SortedByDate(s) && |s| > 0
    ensures SortedByDate(s + [s[|s| - 1]])
  {
    var t := s + [s[|s| - 1]];
    forall i, j | 0 <= i < j < |t| ensures !Before(t[j], t[i]) {
      if j == |s| && i < |s| - 1 {
        assert t[j] == s[|s| - 1] && t[i] == s[i];
      }
    }
  }

  /** The figures `make_report` writes. */
  datatype Figures = Figures(customer: Customer, period: string, basePrice: real, energyPrice: real, totalPrice: real)

  class Invoice {
    const customerId: string
    const year: Year
    const month: Month
    /** The rows of `data/customers.csv`. */
    const customerRows: seq<Customer>
    /** The rows of `data/meter_values.csv`. */
    const meterRows: seq<Reading>

    constructor (customerId: string, year: Year, month: Month, customerRows: seq<Customer>, meterRows: seq<Reading>)
      ensures this.customerId == customerId && this.year == year && this.month == month
      ensures this.customerRows == customerRows && this.meterRows == meterRows
    {
      this.customerId := customerId;
      this.year := year;
      this.month := month;
      this.customerRows := customerRows;
      this.meterRows := meterRows;
    }

    function GetCustomer(): (r: seq<Customer>)
      ensures forall c :: c in r <==> c in customerRows && c.id == customerId
    {
      CustomersWithId(customerRows, customerId)
    }

    /** The customer's readings, of every year. */
    function GetMeterValues(): (r: seq<Reading>)
      ensures forall v :: v in r <==> v in meterRows && v.customer == customerId
    {
      ReadingsOf(meterRows, customerId)
    }

    function CheckCustomerExists(): (o: Outcome)
      ensures o.Pass? <==> exists c :: c in customerRows && c.id == customerId
      ensures o.Fail? ==> o.error == CustomerNotFound(customerId)
    {
      var customers := GetCustomer();
      if |customers| == 0 then Fail(CustomerNotFound(customerId))
      else
        assert customers[0] in customers;
        Pass
    }

    /** Fails on the first reading dated in the target month of a different
        year; a missing target month is not detected. */
    function CheckDateExists(): (o: Outcome)
      ensures o.Pass? <==> forall v :: v in GetMeterValues() ==> v.date.year == year || v.date.month != month
      ensures o.Fail? ==> exists k :: 0 <= k < |GetMeterValues()|
                                      && GetMeterValues()[k].date.year != year && GetMeterValues()[k].date.month == month
                                      && (forall j :: 0 <= j < k ==> GetMeterValues()[j].date.year == year
                                                                     || GetMeterValues()[j].date.month != month)
                                      && o.error == DateNotFound(GetMeterValues()[k].date)
    {
      var rows := GetMeterValues();
      match FirstOtherYear(rows, year, month)
      case None => Pass
      case Some(k) => assert rows[k] in rows; Fail(DateNotFound(rows[k].date))
    }

    method GetSortedDates() returns (r: seq<Date>)
      ensures r == ChronologicalDates(GetMeterValues())
    {
      var values := GetMeterValues();
      var dates: seq<Date> := [];
      for i := 0 to |values|
        invariant |dates| == i
        invariant forall k :: 0 <= k < i ==> dates[k] == values[k].date
      {
        dates := dates + [values[i].date];
      }
      assert dates == DatesOf(values);
      r := SortByDate(dates);
    }

    /** The past half of the validator: the first reading must lie in an
        earlier month (of any year) or on the 1st of the target month. */
    function CheckPast(dates: seq<Date>): (r: Result<seq<Date>>)
      ensures r.Ok? <==> |dates| > 0 && (dates[0].month < month || (dates[0].month == month && dates[0].day == 1))
      ensures r.Ok? ==> r.value == dates
      ensures |dates| == 0 ==> r == Err(IndexError)
      ensures |dates| > 0 && r.Err? ==> r.error == BareValueError
    {
      if |dates| == 0 then Err(IndexError)
      else if dates[0].month < month || (dates[0].month == month && dates[0].day == 1) then Ok(dates)
      else Err(BareValueError)
    }

    /** The future half of the validator: a last reading in a later month
        passes unchanged, one on the last day of the target month passes with
        its date appended once more, anything else fails. */
    function FutureCheck(dates: seq<Date>): (r: Result<seq<Date>>)
      ensures |dates| == 0 ==> r == Err(IndexError)
      ensures |dates| > 0 && dates[|dates| - 1].month > month ==> r == Ok(dates)
      ensures |dates| > 0 && dates[|dates| - 1].month == month && dates[|dates| - 1].day == DaysInMonth(year, month) ==>
                r.Ok? && |r.value| == |dates| + 1 && r.value[..|dates|] == dates && r.value[|dates|] == dates[|dates| - 1]
      ensures r.Ok? <==>
                |dates| > 0 && (dates[|dates| - 1].month > month
                                || (dates[|dates| - 1].month == month && dates[|dates| - 1].day == DaysInMonth(year, month)))
      ensures |dates| > 0 && r.Err? ==> r.error == BareValueError
    {
      if |dates| == 0 then Err(IndexError)
      else
        var last: Date := dates[|dates| - 1];
        if last.month > month then Ok(dates)
        else if last.month == month && last.day == DaysInMonth(year, month) then Ok(dates + [last])
        else Err(BareValueError)
    }

    method CheckFuture(dates: MutableList<Date>) returns (o: Outcome)
      modifies dates
      ensures o == if FutureCheck(old(dates.items)).Ok? then Pass else Fail(FutureCheck(old(dates.items)).error)
      ensures dates.items == if FutureCheck(old(dates.items)).Ok? then FutureCheck(old(dates.items)).value else old(dates.items)
    {
      if |dates.items| == 0 {
        return Fail(IndexError);
      }
      var last := dates.items[|dates.items| - 1];
      var daysInMonth := DaysInMonth(year, month);
      if last.month > month {
        return Pass;
      } else if last.month == month && last.day == daysInMonth {
        dates.items := dates.items + [dates.items[|dates.items| - 1]];
        return Pass;
      }
      return Fail(BareValueError);
    }

    /** The combined validator. Either half failing becomes the one
        `NotSufficientData` error; only the `IndexError` of an empty list
        escapes unwrapped. */
    function SufficientDates(dates: seq<Date>): (r: Result<seq<Date>>)
      ensures r.Ok? <==> CheckPast(dates).Ok? && FutureCheck(dates).Ok?
      ensures r.Ok? ==> r == FutureCheck(dates)
      ensures |dates| == 0 ==> r == Err(IndexError)
      ensures |dates| > 0 && r.Err? ==> r.error == NotSufficientData
    {
      match CheckPast(dates)
      case Err(e) => Err(WrapValueError(e))
      case Ok(ds) =>
        match FutureCheck(ds)
        case Err(e) => Err(WrapValueError(e))
        case Ok(ds') => Ok(ds')
    }

    method CheckSufficientData(dates: MutableList<Date>) returns (o: Outcome)
      modifies dates
      ensures o == if SufficientDates(old(dates.items)).Ok? then Pass else Fail(SufficientDates(old(dates.items)).error)
      ensures dates.items == if SufficientDates(old(dates.items)).Ok? then SufficientDates(old(dates.items)).value else old(dates.items)
    {
      var past := CheckPast(dates.items);
      if past.Err? {
        return Fail(WrapValueError(past.error));
      }
      var future := CheckFuture(dates);
      if future.Fail? {
        return Fail(WrapValueError(future.error));
      }
      return Pass;
    }

    /** What `get_interval_consumption` returns. */
    function IntervalConsumption(): Result<seq<Share>> {
      match SufficientDates(ChronologicalDates(GetMeterValues()))
      case Err(e) => Err(e)
      case Ok(dates) => Allocate(dates, GetMeterValues())
    }

    method GetIntervalConsumption() returns (r: Result<seq<Share>>)
      ensures r == IntervalConsumption()
    {
      var sorted := GetSortedDates();
      var list := new MutableList(sorted);
      var checked := CheckSufficientData(list);
      if checked.Fail? {
        return Err(checked.error);
      }
      r := AllocateShares(list.items, GetMeterValues());
    }

    /** The entries of a successful allocation are whole units, in
        chronological order. */
    lemma IntervalSharesChronological()
      requires IntervalConsumption().Ok?
      ensures forall k :: 0 <= k < |IntervalConsumption().value| ==> IsWhole(IntervalConsumption().value[k].value)
      ensures forall j, k :: 0 <= j < k < |IntervalConsumption().value| ==>
                !Before(IntervalConsumption().value[k].date, IntervalConsumption().value[j].date)
    {
      var sorted := ChronologicalDates(GetMeterValues());
      var dates := SufficientDates(sorted).value;
      RepeatLastSorted(sorted);
      assert SortedByDate(dates);
      AllocateShape(dates, GetMeterValues(), MonthConsumption);
    }

    /** Once the dates are validated the allocation cannot fail: every
        validated date is a reading date, so no `next(...)` raises
        StopIteration, and the only errors are the validator's. */
    lemma IntervalConsumptionFailsOnlyInValidation()
      ensures IntervalConsumption().Err? <==> SufficientDates(ChronologicalDates(GetMeterValues())).Err?
      ensures IntervalConsumption().Err? ==>
                IntervalConsumption().error == SufficientDates(ChronologicalDates(GetMeterValues())).error
    {
      var sorted := ChronologicalDates(GetMeterValues());
      var checked := SufficientDates(sorted);
      if checked.Ok? {
        var dates := checked.value;
        SortedDatesHaveReadings(GetMeterValues());
        forall i | 1 <= i < |dates| ensures FirstReadingOn(GetMeterValues(), dates[i]).Some? {
          if i < |sorted| {
            assert dates[i] == sorted[i];
          } else {
            assert dates[i] == sorted[|sorted| - 1];
          }
        }
        AllocateSucceeds(dates, GetMeterValues(), MonthConsumption);
      }
    }

    /** The synthetic first-of-month entry for a gap between `cur` and `next`:
        the month's length over the gap's span, times the next entry's
        (already truncated) value, itself not rounded. */
    function SyntheticShare(cur: Date, next: Share): (r: Share)
      ensures r.date.year == year && r.date.month == month && r.date.day == 1
    {
      Share(Ymd(year, month, 1), DaysInMonth(year, month) as real / DaysDifference(cur, next.date) as real * next.value)
    }

    /** What `insert_missing_month` leaves in the list. */
    function WithMissingMonth(s: seq<Share>): (r: seq<Share>)
      ensures FirstGap(s, month).None? ==> r == s
      ensures FirstGap(s, month).Some? ==>
                var i := FirstGap(s, month).value;
                |r| == |s| + 1 && r[..i + 1] == s[..i + 1] && r[i + 2..] == s[i + 1..]
                && r[i + 1] == SyntheticShare(s[i].date, s[i + 1])
    {
      match FirstGap(s, month)
      case None => s
      case Some(i) => s[..i + 1] + [SyntheticShare(s[i].date, s[i + 1])] + s[i + 1..]
    }

    method InsertMissingMonth(consumptions: MutableList<Share>)
      modifies consumptions
      ensures consumptions.items == WithMissingMonth(old(consumptions.items))
    {
      var items := consumptions.items;
      var index: nat := 0;
      while index < |items| - 1
        invariant forall k :: 0 <= k < index && k < |items| - 1 ==> !GapAt(items, k, month)
      {
        var currentDate := items[index].date;
        var nextDate := items[index + 1].date;
        if currentDate.month < month < nextDate.month {
          FirstGapIs(items, month, index);
          var entry := SyntheticShare(currentDate, items[index + 1]);
          consumptions.items := items[..index + 1] + [entry] + items[index + 1..];
          return;
        }
        index := index + 1;
      }
      assert FirstGap(items, month).None?;
    }

    function GetBasePrice(): (r: Result<real>)
      ensures r.Err? <==> forall c :: c in customerRows ==> c.id != customerId
      ensures r.Err? ==> r.error == IndexError
      ensures r.Ok? ==> FirstCustomerWithId(customerRows, customerId).Some?
                        && r.value == ProratedBasePrice(customerRows[FirstCustomerWithId(customerRows, customerId).value].baseTariff,
                                                        year, month)
      ensures r.Ok? ==> IsWholeCents(r.value)
    {
      var customers := GetCustomer();
      CustomersWithIdHead(customerRows, customerId);
      if |customers| == 0 then Err(IndexError)
      else
        ProrateBounds(customers[0].baseTariff, DaysInMonth(year, month));
        Ok(ProratedBasePrice(customers[0].baseTariff, year, month))
    }

    /** What `get_energy_price` returns. */
    function EnergyPrice(): Result<real> {
      var customers := GetCustomer();
      if |customers| == 0 then Err(IndexError)
      else match IntervalConsumption()
        case Err(e) => Err(e)
        case Ok(consumptions) => EnergyPriceOf(WithMissingMonth(consumptions), customers[0].energyTariff, month)
    }

    method GetEnergyPrice() returns (r: Result<real>)
      ensures r == EnergyPrice()
      ensures r.Ok? ==> IsWholeCents(r.value)
    {
      var customers := GetCustomer();
      if |customers| == 0 {
        return Err(IndexError);
      }
      var energyTariff := customers[0].energyTariff;
      var consumptions := GetIntervalConsumption();
      if consumptions.Err? {
        return Err(consumptions.error);
      }
      var list := new MutableList(consumptions.value);
      InsertMissingMonth(list);
      r := EnergyPriceOf(list.items, energyTariff, month);
      if r.Ok? {
        EnergyPriceWholeCents(list.items, energyTariff, month);
      }
    }

    /** `get_month_range`: "dd.mm.yyyy bis dd.mm.yyyy" from the first to the
        last day of the target month. */
    function GetMonthRange(): (r: string)
      ensures |r| == 25 && r[10..15] == " bis "
      ensures ParseDate(r[..10]) == Some(Ymd(year, month, 1))
      ensures ParseDate(r[15..]) == Some(Ymd(year, month, DaysInMonth(year, month)))
    {
      var first: Date := Ymd(year, month, 1);
      var last: Date := Ymd(year, month, DaysInMonth(year, month));
      var r := FormatDate(first) + " bis " + FormatDate(last);
      assert r[..10] == FormatDate(first) && r[15..] == FormatDate(last);
      r
    }

    /** The figures of `make_report`, without writing the file. */
    method ReportFigures() returns (r: Result<Figures>)
      ensures r.Err? <==> GetCustomer() == [] || EnergyPrice().Err?
      ensures r.Err? ==> r.error == EnergyPrice().error
      ensures r.Ok? ==> r.value.basePrice == GetBasePrice().value && r.value.energyPrice == EnergyPrice().value
      ensures r.Ok? ==> r.value.totalPrice == r.value.basePrice + r.value.energyPrice
      ensures r.Ok? ==> IsWholeCents(r.value.basePrice) && IsWholeCents(r.value.energyPrice)
      ensures r.Ok? ==> r.value.period == GetMonthRange()
      ensures r.Ok? ==> FirstCustomerWithId(customerRows, customerId).Some?
                        && r.value.customer == customerRows[FirstCustomerWithId(customerRows, customerId).value]
    {
      var customers := GetCustomer();
      if |customers| == 0 {
        return Err(IndexError);
      }
      CustomersWithIdHead(customerRows, customerId);
      var period := GetMonthRange();
      var basePrice := GetBasePrice();
      var energyPrice := GetEnergyPrice();
      if energyPrice.Err? {
        return Err(energyPrice.error);
      }
      r := Ok(Figures(customers[0], period, basePrice.value, energyPrice.value, basePrice.value + energyPrice.value));
    }
  }
}
