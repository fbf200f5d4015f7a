# Monthly electricity invoice: allocation model

This project models the billing engine of a small electricity-invoicing program in Dafny. The engine holds a customer's tariffs and a series of meter readings. Each reading is the consumption of the interval that ends on its date. From these the engine computes the invoice of one target month:

- the **base price**: the yearly base tariff prorated over the days of the month, truncated to cents;
- the **energy price**: the consumption attributed to the month times the energy tariff in cents, truncated to cents;
- their **total** and the **billing period** line `dd.mm.yyyy bis dd.mm.yyyy`.

Two versions of the `Invoice` class are modelled.

- **`Billing`** (`src/invoice.py`), the later version:
  - it validates the sorted reading dates;
  - it splits each interior date's month between the interval ending at that date and the next one, at their constant daily rates, and truncates the result to whole units;
  - when the target month falls between two entries, it synthesises a first-of-month entry;
  - it prices the last entry of the target month.
- **`EarlyBilling`** (`src/create_invoice.py`), the earlier version:
  - its day distance has no zero guard, so a repeated date divides by zero;
  - its validators only reject same-month cases;
  - its share formula uses the current reading for both halves and is not rounded;
  - it prices the first entry of the target month.

Supporting modules:

- `Calendar`: proleptic Gregorian dates, `monthrange`, ordinals, and the day before a date.
- `Rounding`: `quantize(..., ROUND_DOWN)` to units and to cents.
- `Records`: rows, errors, filters, chronological sorting, and first-match lookup.
- `Formatting`: `strftime("%d.%m.%Y")` and its inverse.

The interval loops of both versions, the date-collecting loop of `get_sorted_dates` and the loop of `insert_missing_month` are Dafny methods, each proved equal to a specification function. The scan of `check_date_exists`, which only raises or finishes, is modelled by the recursive function `FirstOtherYear` behind `CheckDateExists`. The interval loops of both versions are specified through one generic `RunSteps`: it runs steps `1..n` and stops at the first failing step. The properties are stated as lemmas about that function. Lists that the source mutates and shares with its caller are `MutableList` objects. These are the date list extended by the future check and the share list extended by `insert_missing_month`. Exceptions are `Err`/`Fail` values that carry the Python exception they stand for.

## Model

| member | source | states |
|---|---|---|
| Calendar.DaysInMonth | src/invoice.py:156 | `monthrange(y, m)[1]` lies in 28..31; February has 29 days exactly in leap years; April, June, September and November have 30 days, the other months 31 |
| Calendar.DaysIntoMonth | src/invoice.py:150 | `(d - timedelta(days=1)).day` is `d.day - 1` after the 1st, the previous month's length on the 1st, and 31 on 1 January |
| Calendar.PrevDayIsOneDayBack | src/invoice.py:150 | the day before any date except 0001-01-01 is a valid date whose ordinal is one less |
| Calendar.DayNumberMonotone | src/invoice.py:211 | the ordinal used for date subtraction is strictly increasing in `datetime` order |
| Calendar.DayNumberInjective | src/invoice.py:211 | two dates have equal ordinals exactly when they are the same date, so a zero difference means equal dates |
| Rounding.TruncToUnitBounds | src/invoice.py:163-170 | quantize to units with ROUND_DOWN moves toward zero by less than one unit |
| Rounding.TruncToCentsBounds | src/invoice.py:84 | quantize to cents with ROUND_DOWN gives whole cents, less than one cent closer to zero |
| Rounding.TruncToCentsMonotone | src/invoice.py:84 | truncation to cents keeps the order of two non-negative amounts |
| Rounding.WholeCentsSum | src/invoice.py:190 | the total of two whole-cent prices is a whole-cent amount |
| Records.CustomersWithId | src/invoice.py:16-20 | the filter keeps exactly the customer rows with the id |
| Records.ReadingsOf | src/invoice.py:22-24 | the filter keeps exactly the meter rows of the customer |
| Records.FirstCustomerWithId | src/invoice.py:81 | the index of the first customer row with the id, the row `get_customer()[0]` is; there is none exactly when no row has the id |
| Records.CustomersWithIdHead | src/invoice.py:16-20 | the filtered list is non-empty exactly when some row has the id, and its head is the first such row |
| Records.DatesOf | src/invoice.py:38-41 | the collected dates are the rows' dates, one per row, in row order |
| Records.InsertByDate | src/invoice.py:42 | insertion into a chronologically sorted list keeps it sorted and adds exactly the one date |
| Records.SortByDate | src/invoice.py:42 | `sorted(..., key=parse)` returns a chronologically sorted permutation of its input |
| Records.ChronologicalDates | src/invoice.py:38-42 | `get_sorted_dates` returns the customer's reading dates as a sorted permutation |
| Records.ChronologicalMembers | src/invoice.py:38-42 | every reading's date is in the sorted list, and every entry of the sorted list is some reading's date |
| Records.ChronologicalEnds | src/invoice.py:59 | the sorted list has one entry per reading; its first entry is the earliest reading date and its last the latest |
| Records.EndsUnique | src/invoice.py:71 | there is only one earliest and only one latest reading date |
| Records.ChronologicalEndsExact | src/create_invoice.py:47-52 | a date is the earliest reading date exactly when it is the sorted list's first entry, and the latest exactly when it is its last |
| Records.SortedDatesHaveReadings | src/invoice.py:132-144 | every entry of the sorted date list has a reading, so the `next(...)` lookup of a sorted date always finds one |
| Records.FirstReadingOn | src/invoice.py:132-144 | `next(...)` picks the first row dated on the date; there is none exactly when no row has that date |
| Formatting.Pad2 | src/invoice.py:179 | `%d` and `%m` give two digits that read back as the number |
| Formatting.Pad4 | src/invoice.py:179 | `%Y` gives four digits that read back as the year |
| Formatting.FormatDate | src/invoice.py:179 | `strftime("%d.%m.%Y")` gives ten characters that parse back to the same date |
| Billing.DaysDifference | src/invoice.py:209-214 | the distance is at least 1; it is the absolute ordinal difference for distinct dates and the day of month for equal dates |
| Billing.DaysDifferenceSymmetric | src/invoice.py:209-214 | the distance does not depend on the argument order |
| Billing.Portion | src/invoice.py:149-161 | `days / span * value`; its properties are stated by PortionAtConstantRate and PortionBounds |
| Billing.SplitConsumption | src/invoice.py:149-161 | the first `before` days of a month at the rate of one interval, the rest at the rate of the next; its properties are stated by ConstantRateFillsMonth and SplitConsumptionBounds |
| Billing.MonthConsumption | src/invoice.py:146-161 | the unrounded consumption of a date's month, split at `(d - 1 day).day` with the day distances to the neighbouring dates; its weights are described by DayWeights |
| Billing.InteriorShare | src/invoice.py:128-170 | an interior date's entry carries that date and a whole-unit value; it fails, with StopIteration, exactly when the date or the next date has no reading |
| Billing.RunStepsOk | src/invoice.py:124-170 | the loop succeeds exactly when every step does, and then lists the step values in order |
| Billing.RunStepsErr | src/invoice.py:124-170 | a failed loop reports the error of one of its steps |
| Billing.FailureStays | src/invoice.py:124-170 | once a step has raised, later iterations do not change the outcome |
| Billing.FirstFailingStep | src/invoice.py:124-170 | the loop reports the error of its first failing step |
| Billing.StepFacts | src/invoice.py:132-170 | one iteration yields the date's whole-unit entry, or StopIteration exactly when a reading is missing |
| Billing.AllocateShape | src/invoice.py:124-171 | a successful allocation has one whole-unit entry per interior date, dated as that date, in list order |
| Billing.AllocateSucceeds | src/invoice.py:132-144 | the allocation succeeds exactly when fewer than three dates are given or every date after the first has a reading; otherwise it fails with StopIteration |
| Billing.SucceedsOnlyWithReadings | src/invoice.py:132-144 | a successful allocation of three or more dates implies that every date after the first has a reading |
| Billing.ReadingsMakeItSucceed | src/invoice.py:132-144 | if every date after the first has a reading, the allocation succeeds |
| Billing.FailsWithStopIteration | src/invoice.py:132-144 | the only error the allocation raises is StopIteration |
| Billing.Allocate | src/invoice.py:122-171 | the shares of a validated date list under the source's rule, as RunSteps over the interior dates; described by AllocateShape and AllocateSucceeds, and computed by AllocateShares |
| Billing.AllocateShares | src/invoice.py:124-171 | the loop, with the first and last dates skipped, returns the allocation specification |
| Billing.InteriorEntry | src/invoice.py:128-170 | one pass of the loop computes the specified interior entry, including its StopIteration cases |
| Billing.DayWeights | src/invoice.py:149-161 | after the 1st, both day weights are positive; on the 1st of a later month the second weight is the month's length minus the previous month's, so it is negative on the 1st of February, April, June, September and November, and it is 0 on 1 January |
| Billing.PortionAtConstantRate | src/invoice.py:149-153 | at one daily rate, the part of an interval on `days` of its days is those days times the rate |
| Billing.ConstantRateFillsMonth | src/invoice.py:149-161 | when both intervals were consumed at one daily rate, the month receives its length times that rate |
| Billing.SplitConsumptionBounds | src/invoice.py:149-161 | with non-negative readings and weights within the spans, the month's share lies between 0 and the sum of the two readings. For distinct dates with the current one after the 1st, the weights are within the spans exactly when the previous reading is on or before the 1st of the month and the next one on or after the 1st of the next month. A current reading on the 1st, or a repeated date such as the one the future check appends, can meet them otherwise. Distinct readings packed into one month after its 1st are not covered |
| Billing.PortionBounds | src/invoice.py:149-153 | a portion of a non-negative reading lies between 0 and the reading |
| Billing.Prorate | src/invoice.py:80-84 | `days` days' worth of a yearly tariff over 365, truncated to cents; described by ProrateBounds and ProrateMonotone |
| Billing.ProratedBasePrice | src/invoice.py:80-84 | the base price of a month, `Prorate` over its length; described by BasePriceBounds, BasePriceMonotone, BasePriceIgnoresYear and BasePriceSamples |
| Billing.FirstGap | src/invoice.py:101-105 | the first index whose entry and next entry have months strictly around the target month, or none |
| Billing.FirstGapIs | src/invoice.py:101-116 | a gap with no earlier gap is where `insert_missing_month` breaks |
| Billing.BasePriceBounds | src/invoice.py:80-84 | the base price is whole cents and, for a non-negative tariff, within one cent below tariff × days / 365 |
| Billing.ProrateBounds | src/invoice.py:80-84 | prorating a tariff over some days gives whole cents, within one cent below the exact amount |
| Billing.BasePriceMonotone | src/invoice.py:80-84 | a month with more days never has a lower base price |
| Billing.ProrateMonotone | src/invoice.py:80-84 | more days never cost less |
| Billing.BasePriceIgnoresYear | src/invoice.py:80-84 | the year matters only through February's length; the divisor is 365 even in leap years |
| Billing.BasePriceSamples | src/invoice.py:80-84 | a 170/year tariff costs 13.04 in February 2021, 13.50 in February 2020 and 14.43 in July 2023 |
| Billing.SharesInMonth | src/invoice.py:89-93 | the month filter is no longer than the list |
| Billing.SharesInMonthMembers | src/invoice.py:89-93 | the month filter keeps exactly the entries dated in the target month |
| Billing.LastIndexInMonth | src/invoice.py:95 | the index of the last entry dated in the month; there is none exactly when no entry is in the month |
| Billing.LastOfMonthFilter | src/invoice.py:89-95 | `share_period[-1]` is the last entry of the month, and the filter is empty exactly when none is |
| Billing.EnergyCharge | src/invoice.py:95-98 | a consumption times the tariff in cents, truncated to cents; EnergyPriceWholeCents states that it gives whole cents |
| Billing.EnergyPriceOf | src/invoice.py:89-98 | IndexError exactly when no entry is in the month; otherwise the last such entry times tariff / 100, truncated to cents |
| Billing.EnergyPriceWholeCents | src/invoice.py:95-98 | a successful energy price is a whole number of cents |
| Billing.FirstOtherYear | src/invoice.py:30-36 | the first reading, in row order, that lies in the target month of a different year; there is none exactly when no such reading exists |
| Billing.WrapValueError | src/invoice.py:52-53 | the re-raise of the combined validator: a bare ValueError, the only ValueError the two date checks raise, becomes NotSufficientData, and their IndexError is not caught; used by SufficientDates |
| Billing.RepeatLastSorted | src/invoice.py:76 | appending the last date again keeps the list sorted |
| Billing.Invoice.constructor | src/invoice.py:11-14 | stores the customer id, the year, the month and the rows it reads |
| Billing.Invoice.GetCustomer | src/invoice.py:16-20 | exactly the customer rows with the invoice's id |
| Billing.Invoice.GetMeterValues | src/invoice.py:22-24 | exactly the meter rows of the invoice's customer, of every year |
| Billing.Invoice.CheckCustomerExists | src/invoice.py:26-28 | passes exactly when a customer row has the id; otherwise it fails with the not-found error |
| Billing.Invoice.CheckDateExists | src/invoice.py:30-36 | passes exactly when no reading falls in the target month of another year; otherwise it fails naming the date of the first such reading in row order |
| Billing.Invoice.GetSortedDates | src/invoice.py:38-42 | the collecting loop followed by the sort gives the chronological date list |
| Billing.Invoice.CheckPast | src/invoice.py:56-66 | accepts, unchanged, exactly a first date in an earlier month or on the 1st of the target month (year ignored); IndexError when the list is empty; otherwise a bare ValueError |
| Billing.Invoice.FutureCheck | src/invoice.py:68-78 | a last date in a later month passes unchanged; one on the target month's last day passes with that date appended once more; everything else fails |
| Billing.Invoice.CheckFuture | src/invoice.py:68-78 | the in-place version: on success the shared list becomes the checked list; on failure it is left as it was |
| Billing.Invoice.SufficientDates | src/invoice.py:44-54 | passes exactly when both halves pass, with the future half's list; a non-empty list that fails gets NotSufficientData; an empty list gets IndexError |
| Billing.Invoice.CheckSufficientData | src/invoice.py:44-54 | the in-place validator agrees with `SufficientDates` in its verdict and in the list it leaves |
| Billing.Invoice.GetIntervalConsumption | src/invoice.py:119-171 | validation followed by the loop returns the specified allocation of the validated dates |
| Billing.Invoice.IntervalConsumption | src/invoice.py:119-171 | validation of the sorted dates followed by `Allocate`; computed by GetIntervalConsumption and described by IntervalSharesChronological |
| Billing.Invoice.IntervalSharesChronological | src/invoice.py:119-171 | a successful allocation lists whole-unit entries in chronological order |
| Billing.Invoice.IntervalConsumptionFailsOnlyInValidation | src/invoice.py:119-171 | the interval consumption fails exactly when the validator fails, with the validator's error; the loop never raises StopIteration on validated dates |
| Billing.Invoice.SyntheticShare | src/invoice.py:106-114 | the synthesised entry is dated on the 1st of the target month |
| Billing.Invoice.WithMissingMonth | src/invoice.py:100-117 | with no gap the list is unchanged; otherwise exactly one synthetic entry is inserted after the first gap, and everything else stays in order |
| Billing.Invoice.InsertMissingMonth | src/invoice.py:100-117 | the in-place loop leaves the shared list as `WithMissingMonth` of its old contents |
| Billing.Invoice.GetBasePrice | src/invoice.py:80-84 | IndexError exactly when the customer is unknown; otherwise the prorated base tariff of the first row with the id, in whole cents |
| Billing.Invoice.GetEnergyPrice | src/invoice.py:86-98 | the tariff lookup, the allocation, the insertion and the pricing give the specified energy price, in whole cents |
| Billing.Invoice.EnergyPrice | src/invoice.py:86-98 | the tariff of the first row with the id applied by `EnergyPriceOf` to the allocation with the missing month inserted; computed by GetEnergyPrice |
| Billing.Invoice.GetMonthRange | src/invoice.py:173-179 | 25 characters: the first and the last day of the target month, joined by " bis ", each parsing back to its date |
| Billing.Invoice.ReportFigures | src/invoice.py:181-190 | fails exactly when the customer is unknown or the energy price fails, and then carries the energy price's error, which is IndexError for an unknown customer; otherwise it returns the first row with the id as customer, the period line, the base and energy prices, both in whole cents, and their sum as total |
| EarlyBilling.DaysBetween | src/create_invoice.py:114-116 | the plain distance is 0 exactly for equal dates, and otherwise agrees with the later version's distance |
| EarlyBilling.DaysBetweenSymmetric | src/create_invoice.py:114-116 | the distance does not depend on the argument order |
| EarlyBilling.PastVerdict | src/create_invoice.py:46-49 | passes exactly when the first date is outside the target month or on its 1st; an empty list gives IndexError, otherwise InsufficientDataError |
| EarlyBilling.FutureVerdict | src/create_invoice.py:51-55 | passes exactly when the last date is outside the target month or on its last day; an empty list gives IndexError, otherwise InsufficientDataError |
| EarlyBilling.PastVerdictOfReadings | src/create_invoice.py:46-49 | on the sorted dates, the past check gives IndexError exactly when there are no readings, and otherwise passes exactly when the earliest reading is outside the target month or on its 1st |
| EarlyBilling.FutureVerdictOfReadings | src/create_invoice.py:51-55 | on the sorted dates, the future check gives IndexError exactly when there are no readings, and otherwise passes exactly when the latest reading is outside the target month or on its last day |
| EarlyBilling.EarlyValue | src/create_invoice.py:95-110 | `d.day / spanBefore * v + (days in month - d.day) / spanAfter * v`, not rounded; described by EarlyShareFactors and EarlyDayWeights |
| EarlyBilling.EarlyShare | src/create_invoice.py:82-111 | an interior entry is dated as its date; it succeeds exactly when both spans are non-zero and a reading exists; a zero span back gives ZeroDivisionError, else a missing reading gives the None subscript error, else a zero span forward gives ZeroDivisionError |
| EarlyBilling.EarlyStepFacts | src/create_invoice.py:82-111 | one iteration yields an entry dated as its date, and fails when either span is 0 |
| EarlyBilling.SharePeriodOf | src/create_invoice.py:73-112 | the entries of a sorted date list, RunSteps over the interior dates with this version's distance and rule; described by SharePeriodShape, RepeatedReadingFails and FirstDatesRepeated, and computed by GetSharePeriod |
| EarlyBilling.SharePeriodShape | src/create_invoice.py:78-112 | a successful period has one entry per interior date, dated as that date, in list order |
| EarlyBilling.RepeatedDateFails | src/create_invoice.py:95-107 | a zero distance from an interior date to either neighbour makes the period fail |
| EarlyBilling.RepeatedReadingFails | src/create_invoice.py:95-107 | two readings on one day anywhere in a list of three or more dates make `get_share_period` fail, including a repeated first or last pair |
| EarlyBilling.FirstDatesRepeated | src/create_invoice.py:78-97 | two readings on the first date end the period with ZeroDivisionError before anything else is looked up |
| EarlyBilling.SharePeriodFailsOnRepeats | src/create_invoice.py:78-110 | when every date has a reading, the period fails exactly when there are three or more dates and two adjacent ones are equal, and every failure is ZeroDivisionError |
| EarlyBilling.FirstSpanZero | src/create_invoice.py:78-97 | for any rule and distance, a zero first span reports ZeroDivisionError |
| EarlyBilling.EarlyDayWeights | src/create_invoice.py:95-107 | the first weight is the day of month: after the 1st one more than the later version's weight; on the 1st it is 1 where the later version counts the whole previous month |
| EarlyBilling.EarlyShareFactors | src/create_invoice.py:95-107 | because both halves use the current reading, a share is that reading times the sum of the two day fractions |
| EarlyBilling.FirstIndexInMonth | src/create_invoice.py:65-70 | the index of the first entry dated in the month; there is none exactly when no entry is in the month |
| EarlyBilling.FirstOfMonthFilter | src/create_invoice.py:65-70 | `share_period[0]` is the first entry of the month, and the filter is empty exactly when none is |
| EarlyBilling.FirstEnergyPriceOf | src/create_invoice.py:63-71 | IndexError exactly when no entry is in the month; otherwise the first such entry times tariff / 100, truncated to cents |
| EarlyBilling.OneEntryPricesAgree | src/create_invoice.py:70 | when the first and last entries of the month coincide, both versions charge the same energy price |
| EarlyBilling.Invoice.constructor | src/create_invoice.py:13-16 | stores the customer id, the year, the month and the rows it reads |
| EarlyBilling.Invoice.SortedDates | src/create_invoice.py:40-44 | a chronologically sorted permutation of the customer's reading dates |
| EarlyBilling.Invoice.CheckPast | src/create_invoice.py:46-49 | IndexError exactly when the customer has no readings; otherwise it passes exactly when the earliest reading is outside the target month or on its 1st, and fails with InsufficientDataError |
| EarlyBilling.Invoice.CheckFuture | src/create_invoice.py:51-55 | IndexError exactly when the customer has no readings; otherwise it passes exactly when the latest reading is outside the target month or on its last day, and fails with InsufficientDataError |
| EarlyBilling.Invoice.GetBasePrice | src/create_invoice.py:57-61 | IndexError exactly when the customer is unknown; otherwise the prorated base tariff of the first row with the id |
| EarlyBilling.Invoice.SharePeriod | src/create_invoice.py:73-112 | the sorted dates and the customer's readings fed to SharePeriodOf; on success one entry per interior sorted date, dated with it; it fails exactly when there are three or more dates and two adjacent sorted dates are equal, and then always with ZeroDivisionError; computed by GetSharePeriod |
| EarlyBilling.Invoice.GetSharePeriod | src/create_invoice.py:73-112 | the loop over the sorted dates, with no validation, returns the specified period |
| EarlyBilling.Invoice.EarlyEntry | src/create_invoice.py:82-111 | one pass of the loop computes the specified entry, raising in the order the expression is evaluated |
| EarlyBilling.Invoice.GetEnergyPrice | src/create_invoice.py:63-71 | the tariff lookup, the period and the first-entry pricing give the specified energy price |
| EarlyBilling.Invoice.EnergyPrice | src/create_invoice.py:63-71 | the tariff of the first row with the id applied by `FirstEnergyPriceOf` to the period; computed by GetEnergyPrice |
| EarlyBilling.BasePricesAgree | src/create_invoice.py:57-61 | both versions compute the same base price from the same rows |
| EarlyBilling.PastChecksDiverge | src/create_invoice.py:46-49 | every list the later past check accepts passes the early one; a first date in a later month passes here but fails there |
| EarlyBilling.FutureChecksDiverge | src/create_invoice.py:51-55 | every list the later future check accepts passes the early one; a last date in an earlier month passes here but fails there |

## Left out

- Reading `data/customers.csv` and `data/meter_values.csv` (`read_csv`, including its FileNotFoundError) is not modelled. The rows are constructor parameters, already parsed.
- Writing `report.txt` is not modelled. `ReportFigures` returns the figures that `make_report` writes; the fixed text of its lines is left out.
- Date strings are not parsed. Every date is a valid Gregorian date of years 1..9999. Two spellings of one date become the same value. Dates outside that range, and the missing predecessor of 0001-01-01, are not modelled.
- Float and `Decimal` arithmetic, including the conversions `Decimal(float)` and the 28-digit decimal context, are exact rational arithmetic here. Only the ROUND_DOWN truncations are modelled.
- The text of the exception messages is not modelled. Each exception is an `Error` constructor that carries the customer id or date it names.
- The earlier version's `get_customer`, `get_meter_values`, `check_customer_exists`, `check_date_exists` and `get_sorted_dates` are the same code as the later version's. They are modelled once, in `Records` and `Billing`.
- `src/cli.py`, which builds an `Invoice` of `src/invoice.py` from the command-line id, year and month and calls `make_report`, is not part of this model, nor is the exception module `src/exeptions.py`.
- The invoice's own year and month are restricted to 1..9999 and 1..12. The source accepts any integer; the errors below are not modelled.
  - A month of 0 or less fails the past check (src/invoice.py:60-66) before `calendar.monthrange` is called. A month of 13 or more passes it, and `calendar.monthrange` then raises a ValueError in the future check. Both surface as "Not sufficient data available".
  - `get_base_price` and `get_month_range` raise a ValueError for any month outside 1..12.
  - The guard of `insert_missing_month` (src/invoice.py:105) can hold only for a month in 2..11. Its `datetime(year, month, 1)` therefore raises only for a year outside 1..9999, with such a month and a gap. `get_month_range` raises for such a year too.
- Billing.AllocateShape, Billing.AllocateSucceeds and EarlyBilling.SharePeriodShape: proved for any month rule, or any share rule and distance. The source's own rule only enters through `Allocate` and `SharePeriodOf`.
- Billing.ReportFigures: states that the base price and the energy price are whole cents, not the total. That the sum of two whole-cent amounts is whole cents is the separate lemma `Rounding.WholeCentsSum`.
- Billing.Invoice.SyntheticShare: states only the entry's date. Its value, month length over the gap span times the next entry's value and not rounded, is the body itself.
- Where the repository's documentation describes other behaviour, the model follows the code:
  - truncation is ROUND_DOWN, not rounding up;
  - the base price divides by 365 in leap years too;
  - the later past check accepts a first reading on the 1st of the target month;
  - both versions compare months without their years;
  - the sample figures quoted for the example customer do not follow from this code.
