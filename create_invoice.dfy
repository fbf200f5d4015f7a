/** The earlier variant of the invoice class, `src/create_invoice.py`: the
    same row filters and sorting, but plain day distances with no zero
    guard, validators that only reject same-month cases, a share formula
    that uses the current reading for both halves and does not round, and an
    energy price read from the first share of the target month. */
module EarlyBilling {
  import opened Calendar
  import opened Records
  import Billing

  /** `get_days_difference` of this version: the plain distance in days,
      which is 0 for equal dates. */
  function DaysBetween(a: Date, b: Date): (n: nat)
    ensures n == 0 <==> a == b
    ensures a != b ==> n == Billing.DaysDifference(a, b)
  {
    DayNumberInjective(a, b);
    Billing.Abs(DayNumber(a) - DayNumber(b))
  }

  lemma DaysBetweenSymmetric(a: Date, b: Date)
    ensures DaysBetween(a, b) == DaysBetween(b, a)
  {
  }

  /** The past check: only a first reading inside the target month that is
      not on its 1st is rejected. */
  function PastVerdict(dates: seq<Date>, month: Month): (o: Outcome)
    ensures |dates| == 0 ==> o == Fail(IndexError)
    ensures o.Pass? <==> |dates| > 0 && (dates[0].month != month || dates[0].day == 1)
    ensures |dates| > 0 && o.Fail? ==> o.error == InsufficientDataError
  {
    if |dates| == 0 then Fail(IndexError)
    else if dates[0].month == month && dates[0].day != 1 then Fail(InsufficientDataError)
    else Pass
  }

  /** The future check: only a last reading inside the target month that is
      not on its final day is rejected; the list is never changed. */
  function FutureVerdict(dates: seq<Date>, year: Year, month: Month): (o: Outcome)
    ensures |dates| == 0 ==> o == Fail(IndexError)
    ensures o.Pass? <==> |dates| > 0 && (dates[|dates| - 1].month != month
                                         || dates[|dates| - 1].day == DaysInMonth(year, month))
    ensures |dates| > 0 && o.Fail? ==> o.error == InsufficientDataError
  {
    if |dates| == 0 then Fail(IndexError)
    else
      var last := dates[|dates| - 1];
      if last.month == month && last.day != DaysInMonth(year, month) then Fail(InsufficientDataError)
      else Pass
  }

  type Span = n: int | n >= 1 witness 1

  /** A rule for a share from the current date, the two non-zero spans and
      the current reading; this version's rule is `EarlyValue`. The period
      below is stated for any rule and any day distance (this version's is
      `DaysBetween`), because its shape does not depend on them. */
  type ShareRule = (Date, Span, Span, real) -> real

  type Distance = (Date, Date) -> nat

  /** `d.day / spanBefore * v + (daysInMonth - d.day) / spanAfter * v`,
      not rounded. */
  function EarlyValue(d: Date, spanBefore: Span, spanAfter: Span, v: real): real {
    Billing.SplitConsumption(d.day, DaysInMonth(d.year, d.month), spanBefore, spanAfter, v, v)
  }

  /** The share of interior date `dates[i]`, raising as the expression does
      when evaluated left to right: the span back first, then the reading
      (`None["value"]` when the date has none), then the span forward. */
  function EarlyShare(dates: seq<Date>, rows: seq<Reading>, i: nat, distance: Distance, rule: ShareRule): (r: Result<Share>)
    requires 0 < i < |dates| - 1
    ensures r.Ok? ==> r.value.date == dates[i]
    ensures r.Ok? <==> distance(dates[i], dates[i - 1]) != 0 && distance(dates[i], dates[i + 1]) != 0
                       && FirstReadingOn(rows, dates[i]).Some?
    ensures distance(dates[i], dates[i - 1]) == 0 ==> r == Err(ZeroDivisionError)
    ensures distance(dates[i], dates[i - 1]) != 0 && FirstReadingOn(rows, dates[i]).None? ==> r == Err(NoneNotSubscriptable)
    ensures (distance(dates[i], dates[i - 1]) != 0 && FirstReadingOn(rows, dates[i]).Some?
             && distance(dates[i], dates[i + 1]) == 0) ==> r == Err(ZeroDivisionError)
  {
    var cur := dates[i];
    var spanBefore := distance(cur, dates[i - 1]);
    if spanBefore == 0 then Err(ZeroDivisionError)
    else match FirstReadingOn(rows, cur)
      case None => Err(NoneNotSubscriptable)
      case Some(c) =>
        var spanAfter := distance(cur, dates[i + 1]);
        if spanAfter == 0 then Err(ZeroDivisionError)
        else
          Ok(Share(cur, rule(cur, spanBefore, spanAfter, rows[c].value)))
  }

  function EarlyStep(dates: seq<Date>, rows: seq<Reading>, distance: Distance, rule: ShareRule): nat -> Result<Share> {
    i => if 0 < i < |dates| - 1 then EarlyShare(dates, rows, i, distance, rule) else Err(IndexError)
  }

  /** The entries of a sorted date list under `rule`, stopping at the first error. */
  function SharePeriodBy(dates: seq<Date>, rows: seq<Reading>, distance: Distance, rule: ShareRule): Result<seq<Share>> {
    Billing.RunSteps(EarlyStep(dates, rows, distance, rule), Billing.InteriorCount(|dates|))
  }

  /** What `get_share_period` returns for a sorted date list. */
  function SharePeriodOf(dates: seq<Date>, rows: seq<Reading>): Result<seq<Share>> {
    SharePeriodBy(dates, rows, DaysBetween, EarlyValue)
  }

  lemma EarlyStepFacts(dates: seq<Date>, rows: seq<Reading>, distance: Distance, rule: ShareRule, i: nat)
    requires 1 <= i <= Billing.InteriorCount(|dates|)
    ensures EarlyStep(dates, rows, distance, rule)(i).Ok? ==> EarlyStep(dates, rows, distance, rule)(i).value.date == dates[i]
    ensures distance(dates[i], dates[i - 1]) == 0 ==> EarlyStep(dates, rows, distance, rule)(i).Err?
    ensures distance(dates[i], dates[i + 1]) == 0 ==> EarlyStep(dates, rows, distance, rule)(i).Err?
  {
    assert EarlyStep(dates, rows, distance, rule)(i) == EarlyShare(dates, rows, i, distance, rule);
  }

  /** One entry per interior date, in list order, dated as that date. */
  lemma SharePeriodShape(dates: seq<Date>, rows: seq<Reading>, distance: Distance, rule: ShareRule)
    requires SharePeriodBy(dates, rows, distance, rule).Ok?
    ensures |SharePeriodBy(dates, rows, distance, rule).value| == Billing.InteriorCount(|dates|)
    ensures forall k :: 0 <= k < |SharePeriodBy(dates, rows, distance, rule).value| ==> SharePeriodBy(dates, rows, distance, rule).value[k].date == dates[k + 1]
  {
    var step := EarlyStep(dates, rows, distance, rule);
    var n := Billing.InteriorCount(|dates|);
    Billing.RunStepsOk(step, n);
    var shares := Billing.RunSteps(step, n).value;
    forall k | 0 <= k < |shares| ensures shares[k].date == dates[k + 1] {
      EarlyStepFacts(dates, rows, distance, rule, k + 1);
    }
  }

  /** A zero distance from an interior date to either neighbour makes the
      period fail: that span is divided by. */
  lemma RepeatedDateFails(dates: seq<Date>, rows: seq<Reading>, distance: Distance, rule: ShareRule, i: nat)
    requires 0 < i < |dates| - 1
    requires distance(dates[i], dates[i - 1]) == 0 || distance(dates[i], dates[i + 1]) == 0
    ensures SharePeriodBy(dates, rows, distance, rule).Err?
  {
    var step := EarlyStep(dates, rows, distance, rule);
    Billing.RunStepsOk(step, Billing.InteriorCount(|dates|));
    EarlyStepFacts(dates, rows, distance, rule, i);
  }

  /** A date listed twice in a row (two readings on one day) makes
      `get_share_period` fail once the list has an interior date, whether the
      pair is at the start, inside or at the end of the list. */
  lemma RepeatedReadingFails(dates: seq<Date>, rows: seq<Reading>, i: nat)
    requires |dates| >= 3 && 0 < i < |dates| && dates[i - 1] == dates[i]
    ensures SharePeriodOf(dates, rows).Err?
  {
    if i < |dates| - 1 {
      RepeatedDateFails(dates, rows, DaysBetween, EarlyValue, i);
    } else {
      RepeatedDateFails(dates, rows, DaysBetween, EarlyValue, i - 1);
    }
  }

  /** When every date has a reading, as the invoice's own sorted dates do,
      the period fails exactly when two adjacent dates are equal, and always
      with `ZeroDivisionError`: a repeated date is the only zero span. */
  lemma SharePeriodFailsOnRepeats(dates: seq<Date>, rows: seq<Reading>)
    requires forall d :: d in dates ==> FirstReadingOn(rows, d).Some?
    ensures SharePeriodOf(dates, rows).Err? <==>
              |dates| >= 3 && exists i :: 0 < i < |dates| && dates[i - 1] == dates[i]
    ensures SharePeriodOf(dates, rows).Err? ==> SharePeriodOf(dates, rows).error == ZeroDivisionError
  {
    var step := EarlyStep(dates, rows, DaysBetween, EarlyValue);
    var n := Billing.InteriorCount(|dates|);
    if |dates| >= 3 && exists i :: 0 < i < |dates| && dates[i - 1] == dates[i] {
      var i :| 0 < i < |dates| && dates[i - 1] == dates[i];
      RepeatedReadingFails(dates, rows, i);
    }
    Billing.RunStepsErr(step, n);
    if SharePeriodOf(dates, rows).Err? {
      var k :| 1 <= k <= n && step(k).Err? && Billing.RunSteps(step, n).error == step(k).error;
      assert step(k) == EarlyShare(dates, rows, k, DaysBetween, EarlyValue);
      assert dates[k] in dates;
      if DaysBetween(dates[k], dates[k - 1]) == 0 {
        assert dates[k - 1] == dates[k];
      } else {
        assert dates[k] == dates[k + 1];
      }
    }
  }

  /** Two readings on the first date end the period with `ZeroDivisionError`
      before anything else is looked at. */
  lemma FirstDatesRepeated(dates: seq<Date>, rows: seq<Reading>)
    requires |dates| >= 3 && dates[0] == dates[1]
    ensures SharePeriodOf(dates, rows) == Err(ZeroDivisionError)
  {
    FirstSpanZero(dates, rows, DaysBetween, EarlyValue);
  }

  lemma FirstSpanZero(dates: seq<Date>, rows: seq<Reading>, distance: Distance, rule: ShareRule)
    requires |dates| >= 3 && distance(dates[1], dates[0]) == 0
    ensures SharePeriodBy(dates, rows, distance, rule) == Err(ZeroDivisionError)
  {
    var step := EarlyStep(dates, rows, distance, rule);
    assert step(1) == EarlyShare(dates, rows, 1, distance, rule);
    Billing.FirstFailingStep(step, Billing.InteriorCount(|dates|), 1);
  }

  /** The first day weight of this version is the day of month itself. After
      the 1st that is one day more than the later version's weight, so the
      date's own day is counted toward the interval ending at it; on the 1st
      it is 1 where the later version counts the whole previous month. */
  lemma EarlyDayWeights(d: Date)
    ensures d.day > 1 ==> d.day == DaysIntoMonth(d) + 1
    ensures d.day == 1 ==> DaysIntoMonth(d) >= 28 && d.day < DaysIntoMonth(d)
  {
  }

  /** Both halves use the current reading, so a share is that reading times
      the sum of the two day fractions. */
  lemma EarlyShareFactors(day: int, whole: int, spanBefore: int, spanAfter: int, v: real)
    requires spanBefore >= 1 && spanAfter >= 1
    ensures Billing.SplitConsumption(day, whole, spanBefore, spanAfter, v, v)
            == v * (day as real / spanBefore as real + (whole - day) as real / spanAfter as real)
  {
    var f, g := day as real / spanBefore as real, (whole - day) as real / spanAfter as real;
    assert f * v + g * v == v * (f + g);
  }

  /** The index of the first entry dated in month `m`. */
  function FirstIndexInMonth(s: seq<Share>, m: int): (r: Option<nat>)
    ensures r.Some? ==> r.value < |s| && s[r.value].date.month == m
    ensures r.Some? ==> forall k :: 0 <= k < r.value ==> s[k].date.month != m
    ensures r.None? <==> forall k :: 0 <= k < |s| ==> s[k].date.month != m
  {
    if s == [] then None
    else match FirstIndexInMonth(s[..|s| - 1], m)
      case Some(k) => Some(k)
      case None => if s[|s| - 1].date.month == m then Some(|s| - 1) else None
  }

  /** The first element of the month filter is the first entry of the month. */
  lemma {:induction false} FirstOfMonthFilter(s: seq<Share>, m: int)
    ensures |Billing.SharesInMonth(s, m)| == 0 <==> FirstIndexInMonth(s, m).None?
    ensures FirstIndexInMonth(s, m).Some? ==> Billing.SharesInMonth(s, m)[0] == s[FirstIndexInMonth(s, m).value]
  {
    if s != [] {
      FirstOfMonthFilter(s[..|s| - 1], m);
    }
  }

  /** `get_energy_price` of this version after the list is built: the first
      entry of the target month times the tariff in cents, truncated to
      cents; `IndexError` when the month has no entry. */
  function FirstEnergyPriceOf(s: seq<Share>, tariff: real, m: int): (r: Result<real>)
    ensures r.Err? <==> forall k :: 0 <= k < |s| ==> s[k].date.month != m
    ensures r.Err? ==> r.error == IndexError
    ensures r.Ok? ==> FirstIndexInMonth(s, m).Some?
    ensures r.Ok? ==> r.value == Billing.EnergyCharge(s[FirstIndexInMonth(s, m).value].value, tariff)
  {
    FirstOfMonthFilter(s, m);
    var inMonth := Billing.SharesInMonth(s, m);
    if |inMonth| == 0 then Err(IndexError)
    else Ok(Billing.EnergyCharge(inMonth[0].value, tariff))
  }

  /** With a single entry in the target month the two versions charge the same. */
  lemma OneEntryPricesAgree(s: seq<Share>, tariff: real, m: int)
    requires FirstIndexInMonth(s, m) == Billing.LastIndexInMonth(s, m)
    ensures FirstEnergyPriceOf(s, tariff, m) == Billing.EnergyPriceOf(s, tariff, m)
  {
  }

  /** The past check of the sorted dates looks only at the earliest reading. */
  lemma PastVerdictOfReadings(rows: seq<Reading>, month: Month)
    ensures PastVerdict(ChronologicalDates(rows), month) == Fail(IndexError) <==> rows == []
    ensures PastVerdict(ChronologicalDates(rows), month).Pass? <==>
              exists d :: Earliest(rows, d) && (d.month != month || d.day == 1)
    ensures rows != [] && PastVerdict(ChronologicalDates(rows), month).Fail? ==>
              PastVerdict(ChronologicalDates(rows), month).error == InsufficientDataError
  {
    ChronologicalEndsExact(rows);
    if rows != [] {
      var first := ChronologicalDates(rows)[0];
      assert Earliest(rows, first);
    }
  }

  /** The future check of the sorted dates looks only at the latest reading. */
  lemma FutureVerdictOfReadings(rows: seq<Reading>, year: Year, month: Month)
    ensures FutureVerdict(ChronologicalDates(rows), year, month) == Fail(IndexError) <==> rows == []
    ensures FutureVerdict(ChronologicalDates(rows), year, month).Pass? <==>
              exists d :: Latest(rows, d) && (d.month != month || d.day == DaysInMonth(year, month))
    ensures rows != [] && FutureVerdict(ChronologicalDates(rows), year, month).Fail? ==>
              FutureVerdict(ChronologicalDates(rows), year, month).error == InsufficientDataError
  {
    ChronologicalEndsExact(rows);
    if rows != [] {
      var last := ChronologicalDates(rows)[|rows| - 1];
      assert Latest(rows, last);
    }
  }

  class Invoice {
    const customerId: string
    const year: Year
    const month: Month
    const customerRows: seq<Customer>
    const meterRows: seq<Reading>

    constructor (customerId: string, year: Year, month: Month, customerRows: seq<Customer>, meterRows: seq<Reading>)
      ensures this.customerId == customerId && this.year == year && this.month == month
      ensures this.customerRows == customerRows && this.meterRows == meterRows
    {
      this.customerId := customerId;
      this.year := year;
      this.month := month;
      this.customerRows := customerRows;
      this.meterRows := meterRows;
    }

    /** `get_sorted_dates` (the same code as in the later version). */
    function SortedDates(): (r: seq<Date>)
      ensures SortedByDate(r)
      ensures multiset(r) == multiset(DatesOf(ReadingsOf(meterRows, customerId)))
    {
      ChronologicalDates(ReadingsOf(meterRows, customerId))
    }

    /** The past check, in terms of the customer's readings: IndexError when
        there are none; otherwise it passes exactly when the earliest reading
        lies outside the target month or on its 1st. */
    function CheckPast(): (o: Outcome)
      ensures o == Fail(IndexError) <==> ReadingsOf(meterRows, customerId) == []
      ensures o.Pass? <==> exists d :: Earliest(ReadingsOf(meterRows, customerId), d) && (d.month != month || d.day == 1)
      ensures ReadingsOf(meterRows, customerId) != [] && o.Fail? ==> o.error == InsufficientDataError
    {
      PastVerdictOfReadings(ReadingsOf(meterRows, customerId), month);
      PastVerdict(SortedDates(), month)
    }

    /** The future check, in terms of the customer's readings: IndexError
        when there are none; otherwise it passes exactly when the latest
        reading lies outside the target month or on its last day. */
    function CheckFuture(): (o: Outcome)
      ensures o == Fail(IndexError) <==> ReadingsOf(meterRows, customerId) == []
      ensures o.Pass? <==> exists d :: Latest(ReadingsOf(meterRows, customerId), d)
                                      && (d.month != month || d.day == DaysInMonth(year, month))
      ensures ReadingsOf(meterRows, customerId) != [] && o.Fail? ==> o.error == InsufficientDataError
    {
      FutureVerdictOfReadings(ReadingsOf(meterRows, customerId), year, month);
      FutureVerdict(SortedDates(), year, month)
    }

    function GetBasePrice(): (r: Result<real>)
      ensures r.Err? <==> forall c :: c in customerRows ==> c.id != customerId
      ensures r.Err? ==> r.error == IndexError
      ensures r.Ok? ==> FirstCustomerWithId(customerRows, customerId).Some?
                        && r.value == Billing.ProratedBasePrice(customerRows[FirstCustomerWithId(customerRows, customerId).value].baseTariff,
                                                                year, month)
    {
      var customers := CustomersWithId(customerRows, customerId);
      CustomersWithIdHead(customerRows, customerId);
      if |customers| == 0 then Err(IndexError)
      else
        Ok(Billing.ProratedBasePrice(customers[0].baseTariff, year, month))
    }

    /** What `get_share_period` returns: the entries of the sorted reading
        dates, one per interior date and dated with it. */
    function SharePeriod(): (r: Result<seq<Share>>)
      ensures r.Ok? ==> |r.value| == Billing.InteriorCount(|SortedDates()|)
      ensures r.Ok? ==> forall k :: 0 <= k < |r.value| ==> r.value[k].date == SortedDates()[k + 1]
      ensures r.Err? <==> |SortedDates()| >= 3 && exists i :: 0 < i < |SortedDates()| && SortedDates()[i - 1] == SortedDates()[i]
      ensures r.Err? ==> r.error == ZeroDivisionError
    {
      var p := SharePeriodOf(SortedDates(), ReadingsOf(meterRows, customerId));
      SortedDatesHaveReadings(ReadingsOf(meterRows, customerId));
      SharePeriodFailsOnRepeats(SortedDates(), ReadingsOf(meterRows, customerId));
      if p.Ok? then
        SharePeriodShape(SortedDates(), ReadingsOf(meterRows, customerId), DaysBetween, EarlyValue);
        p
      else p
    }

    /** The loop of `get_share_period`; the first and the last date are
        skipped, and nothing is validated beforehand. */
    method GetSharePeriod() returns (r: Result<seq<Share>>)
      ensures r == SharePeriod()
    {
      var dates := SortedDates();
      var meterValues := ReadingsOf(meterRows, customerId);
      ghost var step := EarlyStep(dates, meterValues, DaysBetween, EarlyValue);
      ghost var n := Billing.InteriorCount(|dates|);
      var sharePeriod: seq<Share> := [];
      ghost var done: nat := 0;
      for key := 0 to |dates|
        invariant done == if key <= 1 then 0 else if key - 1 > n then n else key - 1
        invariant Billing.RunSteps(step, done) == Ok(sharePeriod)
      {
        if key == 0 || key == |dates| - 1 {
          continue;
        }
        var entry := EarlyEntry(dates, meterValues, key);
        if entry.Err? {
          Billing.FailureStays(step, key, n);
          return Err(entry.error);
        }
        sharePeriod := sharePeriod + [entry.value];
        done := key;
      }
      return Ok(sharePeriod);
    }

    /** One pass of that loop. */
    static method EarlyEntry(dates: seq<Date>, meterValues: seq<Reading>, key: nat) returns (r: Result<Share>)
      requires 0 < key < |dates| - 1
      ensures r == EarlyShare(dates, meterValues, key, DaysBetween, EarlyValue)
    {
      var currentDate := dates[key];
      var spanBefore := DaysBetween(currentDate, dates[key - 1]);
      if spanBefore == 0 {
        return Err(ZeroDivisionError);
      }
      var current := FirstReadingOn(meterValues, currentDate);
      if current.None? {
        return Err(NoneNotSubscriptable);
      }
      var spanAfter := DaysBetween(currentDate, dates[key + 1]);
      if spanAfter == 0 {
        return Err(ZeroDivisionError);
      }
      var value := meterValues[current.value].value;
      var daysInMonth := DaysInMonth(currentDate.year, currentDate.month);
      var first := Billing.Portion(currentDate.day, spanBefore, value);
      var second := Billing.Portion(daysInMonth - currentDate.day, spanAfter, value);
      return Ok(Share(currentDate, first + second));
    }

    /** What `get_energy_price` returns. */
    function EnergyPrice(): Result<real> {
      var customers := CustomersWithId(customerRows, customerId);
      if |customers| == 0 then Err(IndexError)
      else match SharePeriod()
        case Err(e) => Err(e)
        case Ok(shares) => FirstEnergyPriceOf(shares, customers[0].energyTariff, month)
    }

    method GetEnergyPrice() returns (r: Result<real>)
      ensures r == EnergyPrice()
    {
      var customers := CustomersWithId(customerRows, customerId);
      if |customers| == 0 {
        return Err(IndexError);
      }
      var energyTariff := customers[0].energyTariff;
      var sharePeriod := GetSharePeriod();
      if sharePeriod.Err? {
        return Err(sharePeriod.error);
      }
      r := FirstEnergyPriceOf(sharePeriod.value, energyTariff, month);
    }
  }

  /** Both versions compute the same base price from the same rows. */
  lemma BasePricesAgree(later: Billing.Invoice, early: Invoice)
    requires later.customerRows == early.customerRows && later.customerId == early.customerId
    requires later.year == early.year && later.month == early.month
    ensures early.GetBasePrice() == later.GetBasePrice()
  {
  }

  /** Every list the later past check accepts passes this one; a first
      reading in a later month than the target passes here and fails there. */
  lemma PastChecksDiverge(later: Billing.Invoice, dates: seq<Date>)
    ensures later.CheckPast(dates).Ok? ==> PastVerdict(dates, later.month).Pass?
    ensures |dates| > 0 && dates[0].month > later.month ==>
              PastVerdict(dates, later.month).Pass? && later.CheckPast(dates).Err?
  {
  }

  /** Every list the later future check accepts passes this one; a last
      reading in an earlier month than the target passes here and fails there. */
  lemma FutureChecksDiverge(later: Billing.Invoice, dates: seq<Date>)
    ensures later.FutureCheck(dates).Ok? ==> FutureVerdict(dates, later.year, later.month).Pass?
    ensures |dates| > 0 && dates[|dates| - 1].month < later.month ==>
              FutureVerdict(dates, later.year, later.month).Pass? && later.FutureCheck(dates).Err?
  {
  }
}
