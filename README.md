# mortgage-calc amortization engine in Dafny

This project models the loan amortization engine of `main.py` in mortgage-calc
and proves properties of that model. The engine is the generator
`payments(loan, repayments)`, together with its helpers:

- `add_months` and `first_day`;
- the day-by-day lookup of a period's repayments, `iter_repayments`;
- the grouping of repayments by date, `group_repayments`;
- the classification of a repayment's goal, `is_debt`, `is_period` and `__is_goal_of`.

`payments` computes one annuity payment up front from the monthly rate. It then
walks monthly periods. In each period it:

1. gathers the period's repayments, or falls back to the budget-driven default repayment;
2. raises on a goal of another type, or on a positive PERIOD sum;
3. accrues flat monthly interest;
4. takes the DEBT repayments and the principal part of the payment off the balance;
5. clamps the balance at 0 at payoff, folding the overshoot into the principal and the payment;
6. yields a `Payment`;
7. stops after payoff, or once the next period would end on or after `add_months(start_date, months)`.

Modules, one file each:

- `Wrappers` (`wrappers.dfy`): `Option` and `Result`.
- `Dates` (`dates.dfy`): Gregorian dates as Python's `datetime` computes them.
  - Leap years and month lengths (`calendar.monthrange`).
  - The day ordinal (`toordinal`). It defines `+ timedelta(days=k)` and `(end - start).days`.
  - `add_months` and `first_day`.
- `Repayments` (`repayments.dfy`):
  - `RepaymentGoal` and the run-time content of a goal field (enum member, string, or anything else);
  - goal classification;
  - the goal-filtered sums;
  - `group_repayments`, as a method whose loop walks the input list and builds a `map`;
  - `iter_repayments`, as a method with the day loop and the `found` flag.
- `Schedule` (`schedule.dfy`):
  - `Loan` and `Payment`;
  - the annuity and the recurrence it pays off;
  - the default repayments;
  - one pass of the loop body (`Settle`, `Step`, `Next`), and the method `SettlePeriod` for the loop body's arithmetic;
  - the specification of the whole run, `Run`;
  - the method `Payments`, which has the source's `while` loop and state variables and is proved to produce exactly `PaymentsOf(loan, repayments)`.
- `ScheduleProperties` (`schedule_properties.dfy`): what the run promises.
  - The general lemmas hold for the loop started from any state `st` under any fixed terms `t`. They are stated on `Emitted(t, st)`, the payments of `RunFrom(t, st)`.
  - `PaymentsOf(loan, index)` is by definition `RunFrom(Setup(loan, index), Init(loan))`. So each general lemma applies to `payments(loan, index)` with `t := Setup(loan, index)` and `st := Init(loan)`.
  - The `Loan*` lemmas and `AnnuityAloneRunsToTerm` spell that instance out.

The generator is modelled by what it has produced when it stops. A `Trace` holds the
yielded payments and, if the generator stopped by raising, the error. Payments
yielded before the error stay yielded, as a consumer of the generator sees them.

## Model

| member | source | states |
|---|---|---|
| Dates.DaysInMonth | main.py:62 | `calendar.monthrange(year, month)[1]`: 28 to 31 days; 29 exactly for February of a leap year, 28 exactly for February of a common year |
| Dates.AddMonths | main.py:58-63 | the result is a valid date whose absolute month `year*12 + month - 1` is the source's plus `months` (floor division and modulo for negative offsets); its day is the source day, or the last day of the target month when that month is shorter |
| Dates.FirstDay | main.py:80-81 | `date.replace(day=1)` is a valid date in the same month |
| Dates.FirstDayIsEarliest | main.py:80-81 | no date of the month lies before the first day, and every other date of the month lies after it |
| Dates.NextDay | main.py:90 | the next day is a valid date after the given one |
| Dates.NextDayOrdinal | main.py:90 | the next day's ordinal is one more, so `NextDay` is `+ timedelta(days=1)` |
| Dates.Ordinal | main.py:86-87 | `date.toordinal()`: the days before the year, before the month in that year, and the day of the month, with 0001-01-01 as day 1; its order on valid dates is the dates' order (`BeforeIffOrdinal`) |
| Dates.DaysBetween | main.py:86-87 | `(period_end - period_start).days`, the difference of the ordinals |
| Dates.DayAt | main.py:89-90 | `period_start + timedelta(days=k)` is a valid date, `k` successive next days on; its ordinal is `k` more (`DayAtOrdinal`) |
| Dates.DayAtOrdinal | main.py:89-90 | the date `k` days after `start` has ordinal `Ordinal(start) + k` |
| Dates.DayAtAscending | main.py:89-90 | the dates walked by `range(period.days)` are strictly ascending |
| Dates.BeforeIffOrdinal | main.py:87 | on valid dates, the chronological order and equality are those of the ordinals, so `(end - start).days` is an ordinal difference |
| Dates.DayAtReaches | main.py:87-90 | every valid date from `start` onwards is the date `DaysBetween(start, d)` days after `start` |
| Dates.BeforeMonthIndex | main.py:123 | a date before another never lies in a later month, so the loop guard bounds the month of the period end |
| Dates.MonthIndexBefore | main.py:123 | a date in an earlier month is before, so a period ending in an earlier month than the end passes the loop guard |
| Repayments.NameInjective | main.py:30 | two goals have the same `name` exactly when they are the same member |
| Repayments.IsGoalOf | main.py:28-33 | fails with `ValueError` exactly on a goal that is neither an enum member nor a string; otherwise true exactly when the goal is the target member or the target's name as a string |
| Repayments.IsDebt | main.py:22-23 | `is_debt` is `__is_goal_of(DEBT)`; `IsDebtByName` states its outcomes by the goal's name |
| Repayments.IsPeriod | main.py:25-26 | `is_period` is `__is_goal_of(PERIOD)`; `IsPeriodByName` states its outcomes by the goal's name |
| Repayments.IsDebtByName | main.py:22-33 | `is_debt` is true exactly when the goal's name is "DEBT", false exactly when it carries another name, and raises exactly when it carries no name |
| Repayments.IsPeriodByName | main.py:25-33 | the same for `is_period` and "PERIOD" |
| Repayments.SumByGoal | main.py:127-137 | the goal-filtered sum fails exactly when some repayment's goal is of another type, naming the first such goal; otherwise it is the sum of the amounts of the repayments whose goal names the target |
| Repayments.TotalAmount | main.py:155 | `sum(r.amount for r in period_repayments)`, the amounts of the gathered list added in order |
| Repayments.GroupRepayments | main.py:173-179 | the keys are exactly the dates that occur, and each key's list is the repayments of that date in input order |
| Repayments.OnDateDated | main.py:177 | every repayment in a date's group carries that date and comes from the input |
| Repayments.GroupsArePermutation | main.py:173-179 | the groups of all occurring dates, concatenated without repetition, are a permutation of the input |
| Repayments.IterRepayments | main.py:84-98 | the yielded repayments are `PeriodLookup`: the stored lists of the range's days concatenated day by day, or the default when no day is a key |
| Repayments.PeriodLookup | main.py:84-98 | what `iter_repayments` yields: the stored lists of the days `[start, end)` walked in order, concatenated, or the default when no walked day is a key; its properties are `FoundIffKeyInRange`, `CollectMembers`, `EmptyIndexYieldsDefault` and `GroupedLookupInRange` |
| Repayments.FoundIffKeyInRange | main.py:87-97 | some day walked is a key exactly when some key lies in the half-open range `[start, end)`, so the default is used exactly when none does |
| Repayments.EmptyIndexYieldsDefault | main.py:95-97 | an empty dictionary yields the default list |
| Repayments.CollectMembers | main.py:89-94 | a repayment is yielded from the dictionary exactly when it is stored for one of the days walked |
| Repayments.GroupedLookupInRange | main.py:89-94 | with a dictionary built by `group_repayments`, every repayment yielded from it is an input repayment dated inside `[start, end)` |
| Schedule.GeometricSumClosed | main.py:112 | `(x - 1) * (1 + x + ... + x^(k-1)) == x^k - 1` |
| Schedule.AmortizedClosed | main.py:142-148 | the balance after `k` periods of interest and payment, with nothing else repaid, is `b*(1+r)^k - P*(1 + ... + (1+r)^(k-1))` |
| Schedule.AmortizedSnoc | main.py:142-148 | one more period of the recurrence settles one more period of interest and payment on the balance reached |
| Schedule.AnnuityPayment | main.py:111-113 | the annuity `amount*r*(1+r)^n/((1+r)^n - 1)`, computed once from the amount borrowed; what it promises is `AnnuityPaysOff` |
| Schedule.AnnuityPaysOff | main.py:111-113 | the annuity `amount*r*(1+r)^n/((1+r)^n - 1)` leaves exactly 0 after `n` such periods |
| Schedule.AnnuityExceedsInterest | main.py:111-113 | with a positive amount, rate and term, the annuity exceeds the interest on the whole amount |
| Schedule.AmortizedPositive | main.py:111-113 | with a positive amount, rate and term, the annuity leaves a positive balance before the last period |
| Schedule.PositiveBefore | main.py:142-148 | with a positive payment and a rate that is not negative, a balance that is not negative after `m` periods was positive at every earlier one |
| Schedule.DefaultRepayments | main.py:115-121 | at most one default repayment, every one with a positive amount; there is one exactly when the budget is positive and exceeds the annuity, and it is dated at the loan start, for the excess, with the loan's default goal |
| Schedule.Setup | main.py:102-121 | the fixed terms of the loop: the monthly rate, the default repayments and the end date `add_months(start_date, months)`, a valid date `months` months after the start |
| Schedule.Init | main.py:104-108 | the loop starts on the amount borrowed and the annuity, over the period from `start_date` to the payment day of the start month, both valid dates of the start month |
| Schedule.Settle | main.py:142-155 | interest is balance times rate; amount is interest plus principal; the new balance is the old less the positive DEBT sum and the principal part, clamped at 0; the amount stays the payment unless the balance is cleared, when the principal is what was left; `repayment_amount` is the sum of all the period's repayments |
| Schedule.SettlePeriod | main.py:142-164 | the loop body's statements compute exactly `Settle` |
| Schedule.Step | main.py:124-155 | one pass fails exactly on a goal of another type (with that error) or on a positive PERIOD sum (`NotImplementedError`); otherwise it settles with the DEBT sum and the sum of all the gathered repayments |
| Schedule.Next | main.py:166-167 | the next period starts where this one ended and ends one month later |
| Schedule.Run | main.py:123-170 | the `while` loop from a state under any pass: stop when the period end is not before the end date; otherwise take the pass, stop on its error, yield its payment, stop on a cleared balance and go on from `Next`; what it yields is stated by `RunLength` and the `ScheduleProperties` lemmas |
| Schedule.RunLength | main.py:123-170 | the loop yields nothing and raises nothing once the period end is not before the end date, and otherwise at most one payment for each month from the period end to the end date |
| Schedule.RunFrom | main.py:123-170 | the loop from a state under fixed terms, each pass being `Step`; its properties are the `ScheduleProperties` lemmas |
| Schedule.PaymentsOf | main.py:101-170 | `payments(loan, repayments)` run until it stops; it yields at most `months + 1` payments |
| Schedule.StepFailsOnGoal | main.py:127-131 | a period whose DEBT sum meets a goal of another type raises that `ValueError` |
| Schedule.StepFailsOnPeriod | main.py:133-140 | a period with a positive PERIOD sum raises `NotImplementedError` |
| Schedule.StepSettles | main.py:142-155 | otherwise the period settles on its DEBT sum and its repayment total |
| Schedule.RunFails | main.py:138-140 | a failing pass ends the run with its error after the payments already yielded |
| Schedule.RunSettles | main.py:156-170 | a settled pass is yielded; the run stops after it when the balance is cleared and goes on from the next period otherwise |
| Schedule.RunEnds | main.py:123 | a period ending on or after the end yields nothing and raises nothing |
| Schedule.Payments | main.py:101-170 | the loop yields exactly the payments, and raises exactly the error, of `PaymentsOf(loan, repayments)` |
| ScheduleProperties.StateAtShift | main.py:166-167 | the loop state before payment `i` of a run is the state before payment `i - 1` of the run from the next period |
| ScheduleProperties.RunSettled | main.py:123-170 | every yielded payment is the pass from the state before it, taken before the end |
| ScheduleProperties.RunKeepsBalance | main.py:169-170 | every payment of a run but the last leaves a positive balance |
| ScheduleProperties.RunFirst | main.py:123-170 | a nonempty run passed the guard and starts with the first pass's payment; a longer one kept a balance and continues as the run from the next period |
| ScheduleProperties.RunRaises | main.py:123-140 | a run that raised did so in the period after its last payment, which ends before the end, from a state the pass fails on, and only after a positive balance |
| ScheduleProperties.RunHalts | main.py:123-170 | a run that raised nothing ended on a cleared balance or because the period after its last payment does not end before the end |
| ScheduleProperties.StateAtMonth | main.py:167 | the period end before payment `i` lies `i` months after the first period end |
| ScheduleProperties.StateBefore | main.py:123-167 | the state before payment `i` is valid and before the end; the pass from it yields payment `i` over that state's period; only the last payment may clear the balance |
| ScheduleProperties.StatePeriod | main.py:123-167 | payment `i` covers the period of the state before it, which ends before the end |
| ScheduleProperties.BalanceLeft | main.py:169-170 | every payment but the last leaves a positive balance |
| ScheduleProperties.PaymentKept | main.py:150-153 | the payment amount carried in the loop state stays the starting one up to the last payment |
| ScheduleProperties.PaymentAt | main.py:124-164 | payment `i` settles the balance before it with the starting payment, the DEBT sum and the total of its period's repayments, and that period neither failed nor had a positive PERIOD sum |
| ScheduleProperties.PeriodAt | main.py:166-167 | payment 0 covers the starting period; each later one starts at the previous end and ends `add_months(previous end, 1)`; payment `i` ends `i` months after the first end, before the end date |
| ScheduleProperties.PaymentsAreContiguous | main.py:166-167 | the same, for all payments of a run |
| ScheduleProperties.PaymentSettles | main.py:142-164 | payment `i`'s interest, amount split, clamped balance recurrence, non-negative balance, unchanged amount until payoff, and repayment total |
| ScheduleProperties.PaymentsAccrueInterest | main.py:142-143 | every payment's interest is the balance before it times the monthly rate, and its amount is interest plus principal |
| ScheduleProperties.PaymentsFollowBalance | main.py:145-153 | every payment leaves the balance before it, less the positive DEBT sum and the principal part, clamped at 0 |
| ScheduleProperties.PaymentsKeepAmount | main.py:150-155 | no yielded balance is negative; the amount is the starting payment while a balance is left; `repayment_amount` is the sum of the period's repayments |
| ScheduleProperties.StateAfter | main.py:166-167 | after the last payment the loop state covers the period that follows it |
| ScheduleProperties.PaymentsStopAtPayoff | main.py:169-170 | the run stops right after the first payment that clears the balance; a run that raised nothing and yielded nothing started at or after the end; one that yielded something ended on a cleared balance or because the next period would reach the end |
| ScheduleProperties.PaymentsFailOnNextPeriod | main.py:127-140 | a raising run raised in the period after its last payment, before the end and after a positive balance; that period has a goal of another type (the error) or a positive PERIOD sum (`NotImplementedError`), and nothing of it is yielded |
| ScheduleProperties.InterestMonotone | main.py:142 | at a rate that is not negative, interest on a smaller balance that is not negative is no larger |
| ScheduleProperties.SettleShrinks | main.py:142-153 | at a rate that is not negative, a period from a positive balance whose payment exceeds the interest on a balance at least as large leaves less than it found |
| ScheduleProperties.PeriodShrinks | main.py:142-153 | at a rate that is not negative, when the payment exceeds the interest on the starting balance, a period that found a positive balance not above the start leaves less than it found |
| ScheduleProperties.BalanceBelow | main.py:142-153 | from a positive balance at a rate that is not negative, when the payment exceeds the interest on the starting balance, each balance is positive, not above the start, and the next is smaller |
| ScheduleProperties.BalanceDecreases | main.py:142-153 | from a positive balance at a rate that is not negative, when the payment exceeds the interest on the starting balance, every payment of a run leaves less than the balance before it, and no balance exceeds the start |
| ScheduleProperties.StepWithoutRepayments | main.py:124-125 | with an empty dictionary and no default repayment, a period gathers nothing and settles with nothing repaid |
| ScheduleProperties.NothingToRepay | main.py:95-97 | with an empty dictionary and no default repayment, every pass from a valid period settles with nothing repaid |
| ScheduleProperties.SettleAmortized | main.py:142-153 | settling with nothing repaid takes one period of the recurrence, clamped at 0, for the full payment unless that balance is negative |
| ScheduleProperties.AmortizingStep | main.py:123-167 | a run on the recurrence passes the guard, settles with nothing repaid, and keeps the premise for one period fewer |
| ScheduleProperties.AmortizedRunLength | main.py:123-170 | a run on the recurrence that reaches 0 in exactly `m` periods raises nothing and yields exactly `m` payments |
| ScheduleProperties.AmortizedRunAt | main.py:142-170 | without repayments, payment `j` leaves the recurrence's balance after `j + 1` periods, clamped at 0, and is the full payment while that balance is not negative |
| ScheduleProperties.PlainShift | main.py:166-167 | in a run on the recurrence, payment `j > 0` is payment `j - 1` of the run from the next period, which starts from the recurrence's balance after one period and the same payment |
| ScheduleProperties.AmortizedPayment | main.py:142-170 | in a run on the recurrence of exactly `m` payments, each is the full payment and leaves the recurrence's balance after `j + 1` periods |
| ScheduleProperties.AmortizedRun | main.py:123-170 | those `m` payments are each the full payment and leave the recurrence's balances |
| ScheduleProperties.SettleWithin | main.py:142-153 | because a DEBT sum is taken off only when positive, settling leaves a balance between 0 and one period of the recurrence from the balance before, clamped at 0, and keeps the payment while a balance is left |
| ScheduleProperties.StepWithin | main.py:124-155 | whatever the dictionary and the default repayments, the pass of the loop from any state, when it settles, does so within the recurrence |
| ScheduleProperties.StepsWithin | main.py:124-155 | whatever the dictionary and the default repayments, every pass of the loop that settles does so within the recurrence |
| ScheduleProperties.PaysOffWithin | main.py:123-170 | with `1 + r` not negative, a run whose passes settle within the recurrence, from a balance not above one whose recurrence reaches 0 within `m` periods that all end before the end date, raises or yields between 1 and `m` payments, the last leaving 0 |
| ScheduleProperties.PaysOffFrom | main.py:123-170 | with `1 + r` not negative, the same for the loop under any terms, whatever the repayments: from a valid state whose balance is not above one whose recurrence reaches 0 within `m` periods that all end before the end date, a run that raises nothing yields between 1 and `m` payments, the last leaving 0 |
| ScheduleProperties.LoanStartsAboveInterest | main.py:104-113 | with a positive amount, rate and term the loop starts from a valid state with the amount borrowed, the monthly rate and the annuity, which exceeds the interest on the amount |
| ScheduleProperties.LoanPeriods | main.py:106-167 | the first period of `payments` starts at `start_date` and ends on the payment day; later ones are contiguous months; none ends on or after `add_months(start_date, months)` |
| ScheduleProperties.LoanPaymentsSettle | main.py:142-155 | every payment of `payments` accrues the monthly interest on the balance before it, splits into interest and principal, leaves no negative balance, is the annuity until payoff, and records its period's repayment total |
| ScheduleProperties.LoanBalanceDecreases | main.py:142-153 | with a positive amount, rate and term, every payment of `payments` leaves less than the balance before it, and no balance exceeds the amount borrowed |
| ScheduleProperties.LoanPaysOffByTerm | main.py:101-170 | whatever the repayments, `payments` that raises nothing yields between 1 and `months` payments and the last leaves 0, for every rate with `1 + r` not negative |
| ScheduleProperties.LoanStops | main.py:123-170 | `payments` stops right after the first payment that clears the balance; when it raises nothing it stops on a cleared balance or because the next period would reach the end, and, unless `1 + r` is negative, on a cleared balance within `months` payments |
| ScheduleProperties.AnnuityAloneRunsToTerm | main.py:101-170 | with no repayments and a budget not above the annuity, a loan with a positive amount, rate and term raises nothing and yields exactly `months` payments of the annuity; the `j`-th leaves the recurrence's balance after `j + 1` periods and the last leaves 0 |

### Behaviour worth knowing

- **Goals.** Only the DEBT sum reduces the balance.
  - A positive PERIOD sum raises `NotImplementedError`; it does not reduce the balance.
  - A goal string of any other name, such as "NONE", counts toward `repayment_amount` and reduces nothing.
- **Interest.** It is flat monthly, `balance * rate / 100 / 12`, whatever the length of the period.
- **Annuity.** It is computed once, from the amount borrowed, and not again after repayments.
  - There is no zero-rate branch: a zero rate divides by zero.
- **Default repayment.** The code builds it only when `monthly_budget > 0` (main.py:115-119) and keeps it only when its amount, `monthly_budget - monthly_payment`, is positive (main.py:121).
- **No clamping of other fields.** The code does not clamp the yielded amount, interest or principal at 0. Only the balance is clamped.
- **Errors are lazy.** An unknown goal type is rejected only when a period gathers that repayment. The payments yielded before it stay yielded.
- **Loop guard.** A period ending exactly on `add_months(start_date, months)` is not yielded; the loop runs while `period_end < end_date`.
  - That allows up to `months + 1` periods (`PaymentsOf`).
  - Whatever the repayments, a run that raises nothing, at a rate with `1 + r` not negative, clears the balance within `months` payments (`LoanPaysOffByTerm`): repayments only lower the balance below the annuity's recurrence.
  - With no repayments, a positive amount, rate and term, and a budget not above the annuity, the annuity clears the balance at period `months`, so exactly `months` payments are yielded (`AnnuityAloneRunsToTerm`).
  - With a zero amount the annuity is 0 and the first period clears the balance, so, unless the first period raises, exactly one payment is yielded. A budget above the annuity adds a default repayment, for the excess and with the loan's default goal, to every period whose days hold no stored repayment.
- **The first period** is `[start_date, start_date.replace(day=payment_day))`. When the payment day is earlier than the start day, this range is empty; the code marks that case as a TODO. Such a period walks no days and takes the default repayment.
- **Period ends drift.** Later period ends are `add_months(previous end, 1)`. Once a short month clamps the day, later ends keep the clamped day.

## Left out

- `main`, argument parsing, TOML loading and all printing (main.py:182-223): input and output glue.
- `format_money`, `print_line` and `pad_col` (main.py:66-77): presentation only.
- IEEE floating point: money is exact `real`, so nothing about rounding is claimed.
- Laziness of the generator: a consumer that stops pulling early sees a prefix of the modelled trace. The model describes the run to its natural stop.
- Library errors the code does not handle are preconditions (`ValidLoan`), not error results:
  - `replace(day=payment_day)` on a day the start month lacks raises `ValueError` (main.py:108);
  - the annuity divides by `(1 + r) ** months - 1`, which is zero for a zero rate or a zero term (main.py:113).
- Schedule.ValidLoan: it also requires `months >= 0`, because the power is modelled on natural exponents. With a negative term the code yields nothing, since the end date precedes the first period end, unless computing the annuity divides by zero.
- The bounds of `datetime` (years 1 to 9999, `OverflowError` past them) are not modelled; dates are unbounded.
- The values stored in the repayment dictionary are modelled as lists, as `group_repayments` builds them. An iterator stored there would be consumed by the first period that reads it; that case is not modelled.
- A `Repayment.goal` holding a `str` subclass or an enum of another class is not distinguished: a goal field is an enum member of `RepaymentGoal`, a string, or anything else.
- ScheduleProperties.LoanPaysOffByTerm: it requires `1 + r >= 0` for the monthly rate `r`, an annual rate of at least -1200%. Below that the recurrence is not monotone, so a repayment could raise a later balance; the code does not reject such rates.
- ScheduleProperties.LoanStops: its payoff-within-`months` clause carries the same `1 + r >= 0` condition, for the same reason.
