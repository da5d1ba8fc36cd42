/**
 * The amortization engine of main.py: `payments(loan, repayments)`, a generator that
 * walks the periods of a loan month by month, applies the DEBT-goal repayments of each
 * period, accrues flat monthly interest, sizes nothing but the one annuity payment
 * computed up front, clamps the balance at payoff and stops there.
 *
 * Money is exact `real` arithmetic. The generator is modelled by what it has yielded
 * when it stops: the emitted payments and, when it stopped by raising, the error.
 */
module Schedule {
  import opened Wrappers
  import opened Dates
  import opened Repayments

  /** `Loan`; `rate` is the annual rate in percent. */
  datatype Loan = Loan(
    startDate: Date,
    amount: real,
    months: int,
    rate: real,
    paymentDay: int,
    monthlyBudget: real,
    defaultRepaymentGoal: GoalField)

  /** `Payment`, one yielded period. */
  datatype Payment = Payment(
    startDate: Date,
    endDate: Date,
    amount: real,
    interestAmount: real,
    principalAmount: real,
    loanAmount: real,
    repaymentAmount: real)

  /** `x ** n` */
  function Pow(x: real, n: nat): real
    decreases n
  {
    if n == 0 then 1.0 else x * Pow(x, n - 1)
  }

  /** `loan.rate / 100 / 12` */
  function MonthlyRate(loan: Loan): real {
    loan.rate / 100.0 / 12.0
  }

  /** `loan.start_date.replace(day=loan.payment_day)`, the end of the first period. */
  function FirstPeriodEnd(loan: Loan): Date {
    Date(loan.startDate.year, loan.startDate.month, loan.paymentDay)
  }

  /**
   * What `payments` needs of its loan that the code does not check itself: a start
   * date, a payment day that exists in the start month (`replace` raises otherwise),
   * a term that is not negative, and a rate for which `(1 + r) ** months - 1` is not
   * zero (the annuity formula divides by it; a zero rate or a zero term make it zero).
   */
  predicate ValidLoan(loan: Loan) {
    && ValidDate(loan.startDate)
    && ValidDate(FirstPeriodEnd(loan))
    && loan.months >= 0
    && Pow(1.0 + MonthlyRate(loan), loan.months) != 1.0
  }

  /** `add_months(loan.start_date, loan.months)`: no period may end on or after it. */
  function ScheduleEnd(loan: Loan): Date
    requires ValidDate(loan.startDate)
  {
    AddMonths(loan.startDate, loan.months)
  }

  /** The annuity `amount * r * (1 + r) ** n / ((1 + r) ** n - 1)`, computed once. */
  function AnnuityPayment(amount: real, rate: real, months: nat): real
    requires Pow(1.0 + rate, months) != 1.0
  {
    var common := Pow(1.0 + rate, months);
    amount * rate * common / (common - 1.0)
  }

  // ---------------------------------------------------------------------------
  // The annuity and what it promises

  /** The balance after `k` periods that accrue `balance * rate` and pay `payment`, with nothing else paid. */
  function Amortized(balance: real, rate: real, payment: real, k: nat): real
    decreases k
  {
    if k == 0 then balance else Amortized(balance - (payment - balance * rate), rate, payment, k - 1)
  }

  /** `1 + x + ... + x ** (k - 1)` */
  function GeometricSum(x: real, k: nat): real
    decreases k
  {
    if k == 0 then 0.0 else Pow(x, k - 1) + GeometricSum(x, k - 1)
  }

  lemma {:induction false} GeometricSumClosed(x: real, k: nat)
    ensures (x - 1.0) * GeometricSum(x, k) == Pow(x, k) - 1.0
    decreases k
  {
    if k > 0 {
      GeometricSumClosed(x, k - 1);
      assert (x - 1.0) * GeometricSum(x, k)
          == (x - 1.0) * Pow(x, k - 1) + (x - 1.0) * GeometricSum(x, k - 1);
    }
  }

  lemma {:induction false} AmortizedClosed(balance: real, rate: real, payment: real, k: nat)
    ensures Amortized(balance, rate, payment, k)
            == balance * Pow(1.0 + rate, k) - payment * GeometricSum(1.0 + rate, k)
    decreases k
  {
    if k > 0 {
      var next := balance - (payment - balance * rate);
      AmortizedClosed(next, rate, payment, k - 1);
      var x := 1.0 + rate;
      assert next == balance * x - payment;
      assert next * Pow(x, k - 1) == balance * Pow(x, k) - payment * Pow(x, k - 1);
    }
  }

  /** The balance one period further on: one more step of the same recurrence. */
  lemma {:induction false} AmortizedSnoc(balance: real, rate: real, payment: real, k: nat)
    ensures Amortized(balance, rate, payment, k + 1)
            == Amortized(balance, rate, payment, k) - (payment - Amortized(balance, rate, payment, k) * rate)
    decreases k
  {
    if k > 0 {
      AmortizedSnoc(balance - (payment - balance * rate), rate, payment, k - 1);
    }
  }

  /**
   * The annuity payment pays the loan off exactly: after `months` periods of flat
   * monthly interest and that payment, nothing is left.
   */
  lemma AnnuityPaysOff(amount: real, rate: real, months: nat)
    requires Pow(1.0 + rate, months) != 1.0
    ensures Amortized(amount, rate, AnnuityPayment(amount, rate, months), months) == 0.0
  {
    var c := Pow(1.0 + rate, months);
    var p := AnnuityPayment(amount, rate, months);
    GeometricSumClosed(1.0 + rate, months);
    AmortizedClosed(amount, rate, p, months);
    DivideThenMultiply(amount * rate * c, c - 1.0);
    AnnuityBalance(amount, rate, p, c, GeometricSum(1.0 + rate, months));
  }

  lemma DivideThenMultiply(x: real, q: real)
    requires q != 0.0
    ensures x / q * q == x
  {
  }

  /** The closed form of the remaining balance vanishes for the annuity's `p`. */
  lemma AnnuityBalance(amount: real, rate: real, p: real, c: real, s: real)
    requires c != 1.0 && rate * s == c - 1.0 && p * (c - 1.0) == amount * rate * c
    ensures amount * c - p * s == 0.0
  {
    assert (p * s) * (c - 1.0) == (amount * c) * (c - 1.0) by {
      assert (p * s) * (c - 1.0) == (p * (c - 1.0)) * s;
      assert amount * rate * c * s == amount * c * (rate * s);
    }
    CancelFactor(p * s, amount * c, c - 1.0);
  }

  lemma CancelFactor(x: real, y: real, q: real)
    requires q != 0.0 && x * q == y * q
    ensures x == y
  {
    assert (x - y) * q == 0.0;
  }

  lemma CancelPositiveFactor(x: real, y: real, q: real)
    requires q > 0.0 && x * q > y * q
    ensures x > y
  {
    assert (x - y) * q > 0.0;
  }

  lemma {:induction false} PowAboveOne(x: real, n: nat)
    requires x > 1.0 && n >= 1
    ensures Pow(x, n) > 1.0
    decreases n
  {
    if n > 1 {
      PowAboveOne(x, n - 1);
      assert x * Pow(x, n - 1) > Pow(x, n - 1);
    }
  }

  /** With a positive rate, the annuity exceeds the interest on the whole amount. */
  lemma AnnuityExceedsInterest(amount: real, rate: real, months: nat)
    requires amount > 0.0 && rate > 0.0 && months >= 1
    ensures Pow(1.0 + rate, months) > 1.0
    ensures AnnuityPayment(amount, rate, months) > amount * rate
  {
    PowAboveOne(1.0 + rate, months);
    var c := Pow(1.0 + rate, months);
    var p := AnnuityPayment(amount, rate, months);
    assert p * (c - 1.0) == amount * rate * c;
    assert amount * rate * c > amount * rate * (c - 1.0);
    assert p * (c - 1.0) > (amount * rate) * (c - 1.0);
    CancelPositiveFactor(p, amount * rate, c - 1.0);
  }

  /**
   * Before the last period the annuity leaves a positive balance: a balance that is
   * not positive only falls further, so it could not come back up to 0 at the end.
   */
  lemma AmortizedPositive(amount: real, rate: real, months: nat, j: nat)
    requires amount > 0.0 && rate > 0.0 && j < months
    ensures Pow(1.0 + rate, months) > 1.0
    ensures Amortized(amount, rate, AnnuityPayment(amount, rate, months), j) > 0.0
  {
    AnnuityExceedsInterest(amount, rate, months);
    AnnuityPaysOff(amount, rate, months);
    assert amount * rate > 0.0;
    PositiveBefore(amount, rate, AnnuityPayment(amount, rate, months), j, months);
  }

  /** A balance that is not negative after `m` periods was positive at every earlier period. */
  lemma {:induction false} PositiveBefore(balance: real, rate: real, payment: real, j: nat, m: nat)
    requires rate >= 0.0 && payment > 0.0 && j < m
    requires Amortized(balance, rate, payment, m) >= 0.0
    ensures Amortized(balance, rate, payment, j) > 0.0
    decreases m - j
  {
    if j + 1 < m {
      PositiveBefore(balance, rate, payment, j + 1, m);
    }
    AmortizedSnoc(balance, rate, payment, j);
    PositiveFromNext(Amortized(balance, rate, payment, j), rate, payment);
  }

  lemma PositiveFromNext(a: real, rate: real, payment: real)
    requires rate >= 0.0 && payment > 0.0 && a - (payment - a * rate) >= 0.0
    ensures a > 0.0
  {
    assert a <= 0.0 ==> a * rate <= 0.0;
  }

  // ---------------------------------------------------------------------------
  // The default repayment

  /**
   * `default_repayments`: with a positive budget, one repayment of what the budget
   * leaves over the annuity, with the loan's default goal; it, and the zero repayment
   * used without a budget, are kept only when their amount is positive.
   */
  function DefaultRepayments(loan: Loan, payment: real): (r: seq<Repayment>)
    ensures |r| <= 1
    ensures forall i :: 0 <= i < |r| ==> r[i].amount > 0.0
    ensures r != [] <==> loan.monthlyBudget > 0.0 && loan.monthlyBudget - payment > 0.0
    ensures r != [] ==> r[0] == Repayment(loan.startDate, loan.monthlyBudget - payment, loan.defaultRepaymentGoal)
  {
    var zeroRepayment := Repayment(loan.startDate, 0.0, EnumGoal(NoGoal));
    var defaultRepayment :=
      if loan.monthlyBudget > 0.0
      then Repayment(loan.startDate, loan.monthlyBudget - payment, loan.defaultRepaymentGoal)
      else zeroRepayment;
    if defaultRepayment.amount > 0.0 then [defaultRepayment] else []
  }

  // ---------------------------------------------------------------------------
  // One pass of the loop

  /** What stays fixed during the loop. */
  datatype Terms = Terms(
    monthlyRate: real,
    endDate: Date,
    defaults: seq<Repayment>,
    index: map<Date, seq<Repayment>>)

  /** What the loop updates: `loan_amount`, the period bounds and `monthly_payment`. */
  datatype State = State(loanAmount: real, periodStart: Date, periodEnd: Date, monthlyPayment: real)

  /** What the generator has yielded when it stops, and the error it raised, if any. */
  datatype Trace = Trace(payments: seq<Payment>, failure: Option<Error>)

  function Setup(loan: Loan, index: map<Date, seq<Repayment>>): (r: Terms)
    requires ValidLoan(loan)
    ensures ValidDate(r.endDate) && MonthIndex(r.endDate) == MonthIndex(loan.startDate) + loan.months
  {
    var rate := MonthlyRate(loan);
    Terms(rate, ScheduleEnd(loan), DefaultRepayments(loan, AnnuityPayment(loan.amount, rate, loan.months)), index)
  }

  function Init(loan: Loan): (r: State)
    requires ValidLoan(loan)
    ensures ValidDate(r.periodStart) && ValidDate(r.periodEnd)
    ensures MonthIndex(r.periodEnd) == MonthIndex(loan.startDate)
  {
    State(loan.amount, loan.startDate, FirstPeriodEnd(loan), AnnuityPayment(loan.amount, MonthlyRate(loan), loan.months))
  }

  predicate ValidState(t: Terms, st: State) {
    ValidDate(t.endDate) && ValidDate(st.periodStart) && ValidDate(st.periodEnd)
  }

  /** The interest of one period on `balance`: `loan_amount * monthly_rate`. */
  function Interest(balance: real, rate: real): real {
    balance * rate
  }

  /** The balance clamp `if x <= 0: x = 0`. */
  function Max0(x: real): real {
    if x <= 0.0 then 0.0 else x
  }

  /** The repayments gathered for the period `[start, end)`. */
  function Gathered(t: Terms, start: Date, end: Date): seq<Repayment>
    requires ValidDate(start) && ValidDate(end)
  {
    PeriodLookup(start, end, t.index, t.defaults)
  }

  /**
   * The arithmetic of one period, once the repayments are summed: flat monthly
   * interest on the balance, the DEBT sum taken off the balance when it is positive,
   * the principal part of the payment taken off next, and at payoff the balance
   * clamped to 0 with the principal absorbing the overshoot.
   */
  function Settle(st: State, rate: real, debt: real, repaid: real): (p: Payment)
    ensures p.startDate == st.periodStart && p.endDate == st.periodEnd
    ensures p.interestAmount == Interest(st.loanAmount, rate)
    ensures p.amount == p.interestAmount + p.principalAmount
    ensures p.loanAmount == Max0(st.loanAmount - Max0(debt) - (st.monthlyPayment - p.interestAmount))
    ensures p.loanAmount > 0.0 ==> p.amount == st.monthlyPayment
    ensures p.loanAmount == 0.0 ==> p.principalAmount == st.loanAmount - Max0(debt)
    ensures p.repaymentAmount == repaid
  {
    var interest := Interest(st.loanAmount, rate);
    var principal := st.monthlyPayment - interest;
    var reduced := if debt > 0.0 then st.loanAmount - debt else st.loanAmount;
    var balance := reduced - principal;
    if balance <= 0.0 then
      Payment(st.periodStart, st.periodEnd, interest + (principal + balance), interest,
              principal + balance, 0.0, repaid)
    else
      Payment(st.periodStart, st.periodEnd, st.monthlyPayment, interest, principal, balance, repaid)
  }

  /**
   * The arithmetic of the loop body: interest on the balance, the DEBT sum taken
   * off, then the principal part, and at payoff the clamp that folds the overshoot
   * into the principal and the payment.
   */
  method SettlePeriod(periodStart: Date, periodEnd: Date, balance: real, monthlyRate: real,
                      payment: real, debt: real, repaid: real)
    returns (p: Payment)
    ensures p == Settle(State(balance, periodStart, periodEnd, payment), monthlyRate, debt, repaid)
  {
    var loanAmount := balance;
    var monthlyPayment := payment;
    var interestAmount := loanAmount * monthlyRate;
    var principalAmount := monthlyPayment - interestAmount;
    if debt > 0.0 {
      loanAmount := loanAmount - debt;
    }
    loanAmount := loanAmount - principalAmount;
    if loanAmount <= 0.0 {
      principalAmount := principalAmount + loanAmount;
      monthlyPayment := interestAmount + principalAmount;
      loanAmount := 0.0;
    }
    p := Payment(periodStart, periodEnd, monthlyPayment, interestAmount, principalAmount, loanAmount, repaid);
  }

  /**
   * One pass of the loop body, up to the `yield`: it fails on a goal of another type
   * (raised while summing the DEBT repayments) or on a positive PERIOD sum; otherwise
   * the period settles with the DEBT sum and the total of all its repayments.
   */
  function Step(t: Terms, st: State): (r: Result<Payment, Error>)
    requires ValidState(t, st)
    ensures var reps := Gathered(t, st.periodStart, st.periodEnd);
            && (r.Err? <==> SumByGoal(reps, Debt).Err? || SumByGoal(reps, Period).value > 0.0)
            && (r.Err? ==> r.error == if SumByGoal(reps, Debt).Err? then SumByGoal(reps, Debt).error
                                      else PeriodRepaymentNotImplemented)
            && (r.Ok? ==> r.value == Settle(st, t.monthlyRate, SumByGoal(reps, Debt).value, TotalAmount(reps)))
  {
    var reps := Gathered(t, st.periodStart, st.periodEnd);
    match SumByGoal(reps, Debt)
    case Err(e) => Err(e)
    case Ok(debt) =>
      if SumByGoal(reps, Period).value > 0.0 then Err(PeriodRepaymentNotImplemented)
      else Ok(Settle(st, t.monthlyRate, debt, TotalAmount(reps)))
  }

  /**
   * The loop's advance after yielding `p`: the next period starts where this one
   * ended and ends a month later; the balance and the payment are those of `p`.
   */
  function Next(st: State, p: Payment): (r: State)
    requires ValidDate(st.periodEnd)
    ensures ValidDate(r.periodStart) && ValidDate(r.periodEnd)
    ensures MonthIndex(r.periodEnd) == MonthIndex(st.periodEnd) + 1
  {
    State(p.loanAmount, st.periodEnd, AddMonths(st.periodEnd, 1), p.amount)
  }

  /**
   * One pass of the loop as a function of the state. The value on an invalid state is
   * arbitrary and never reached: `ValidState` holds at every state `Run` reaches.
   */
  function StepOf(t: Terms): State -> Result<Payment, Error> {
    s => if ValidState(t, s) then Step(t, s) else Err(PeriodRepaymentNotImplemented)
  }

  /**
   * The rest of the run from state `st`, whatever one pass computes: while the period
   * ends before `endDate`, take a pass; stop on its error, emit its payment, stop once
   * the balance is cleared and advance otherwise.
   */
  function Run(step: State -> Result<Payment, Error>, endDate: Date, st: State): Trace
    requires ValidDate(endDate) && ValidDate(st.periodEnd)
    decreases MonthIndex(endDate) - MonthIndex(st.periodEnd) + 1
  {
    if !Before(st.periodEnd, endDate) then Trace([], None)
    else
      match step(st)
      case Err(e) => Trace([], Some(e))
      case Ok(p) =>
        if p.loanAmount <= 0.0 then Trace([p], None)
        else
          BeforeMonthIndex(st.periodEnd, endDate);
          var rest := Run(step, endDate, Next(st, p));
          Trace([p] + rest.payments, rest.failure)
  }

  /**
   * The run yields nothing once the period end is not before the end date, and
   * otherwise at most one payment for each month from the period end to the end date.
   */
  lemma {:induction false} RunLength(step: State -> Result<Payment, Error>, endDate: Date, st: State)
    requires ValidDate(endDate) && ValidDate(st.periodEnd)
    ensures !Before(st.periodEnd, endDate) ==> Run(step, endDate, st) == Trace([], None)
    ensures Before(st.periodEnd, endDate) ==>
              |Run(step, endDate, st).payments| <= MonthIndex(endDate) - MonthIndex(st.periodEnd) + 1
    decreases MonthIndex(endDate) - MonthIndex(st.periodEnd) + 1
  {
    if Before(st.periodEnd, endDate) && step(st).Ok? && step(st).value.loanAmount > 0.0 {
      BeforeMonthIndex(st.periodEnd, endDate);
      RunLength(step, endDate, Next(st, step(st).value));
    }
  }

  /** The loop run from state `st` until it stops. */
  function RunFrom(t: Terms, st: State): Trace
    requires ValidState(t, st)
  {
    Run(StepOf(t), t.endDate, st)
  }

  /** `payments(loan, repayments)` run until it stops. */
  function PaymentsOf(loan: Loan, index: map<Date, seq<Repayment>>): (r: Trace)
    requires ValidLoan(loan)
    ensures |r.payments| <= loan.months + 1
  {
    RunLength(StepOf(Setup(loan, index)), Setup(loan, index).endDate, Init(loan));
    RunFrom(Setup(loan, index), Init(loan))
  }

  function Prepend(ps: seq<Payment>, tr: Trace): Trace {
    Trace(ps + tr.payments, tr.failure)
  }

  /** A period whose DEBT sum fails fails with that sum's error. */
  lemma StepFailsOnGoal(t: Terms, st: State, reps: seq<Repayment>)
    requires ValidState(t, st) && reps == Gathered(t, st.periodStart, st.periodEnd)
    requires SumByGoal(reps, Debt).Err?
    ensures StepOf(t)(st) == Err(SumByGoal(reps, Debt).error)
  {
  }

  /** A period with a positive PERIOD sum fails, once its DEBT sum succeeds. */
  lemma StepFailsOnPeriod(t: Terms, st: State, reps: seq<Repayment>)
    requires ValidState(t, st) && reps == Gathered(t, st.periodStart, st.periodEnd)
    requires SumByGoal(reps, Debt).Ok? && SumByGoal(reps, Period).value > 0.0
    ensures StepOf(t)(st) == Err(PeriodRepaymentNotImplemented)
  {
  }

  /** Otherwise the period settles with its DEBT sum and the total of its repayments. */
  lemma StepSettles(t: Terms, st: State, reps: seq<Repayment>)
    requires ValidState(t, st) && reps == Gathered(t, st.periodStart, st.periodEnd)
    requires SumByGoal(reps, Debt).Ok? && SumByGoal(reps, Period).value <= 0.0
    ensures StepOf(t)(st) == Ok(Settle(st, t.monthlyRate, SumByGoal(reps, Debt).value, TotalAmount(reps)))
  {
  }

  /** A period that fails ends the run with its error and emits nothing more. */
  lemma RunFails(step: State -> Result<Payment, Error>, endDate: Date, st: State, e: Error,
                 emitted: seq<Payment>, whole: Trace)
    requires ValidDate(endDate) && ValidDate(st.periodEnd) && Before(st.periodEnd, endDate)
    requires step(st) == Err(e)
    requires Prepend(emitted, Run(step, endDate, st)) == whole
    ensures whole == Trace(emitted, Some(e))
  {
    assert emitted + [] == emitted;
  }

  /** A period that settles is emitted; the run stops if it paid off and goes on from `Next` otherwise. */
  lemma RunSettles(step: State -> Result<Payment, Error>, endDate: Date, st: State, p: Payment,
                   emitted: seq<Payment>, whole: Trace)
    requires ValidDate(endDate) && ValidDate(st.periodEnd) && Before(st.periodEnd, endDate)
    requires step(st) == Ok(p)
    requires Prepend(emitted, Run(step, endDate, st)) == whole
    ensures p.loanAmount <= 0.0 ==> whole == Trace(emitted + [p], None)
    ensures p.loanAmount > 0.0 ==> whole == Prepend(emitted + [p], Run(step, endDate, Next(st, p)))
  {
    if p.loanAmount > 0.0 {
      var rest := Run(step, endDate, Next(st, p));
      assert emitted + ([p] + rest.payments) == (emitted + [p]) + rest.payments;
    }
  }

  /** The run from a period that ends at or after the end emits nothing. */
  lemma RunEnds(step: State -> Result<Payment, Error>, endDate: Date, st: State,
                emitted: seq<Payment>, whole: Trace)
    requires ValidDate(endDate) && ValidDate(st.periodEnd) && !Before(st.periodEnd, endDate)
    requires Prepend(emitted, Run(step, endDate, st)) == whole
    ensures whole == Trace(emitted, None)
  {
    assert emitted + [] == emitted;
  }

  /** `payments`, with the yielded payments collected in order. */
  method Payments(loan: Loan, repayments: map<Date, seq<Repayment>>)
    returns (emitted: seq<Payment>, failure: Option<Error>)
    requires ValidLoan(loan)
    ensures Trace(emitted, failure) == PaymentsOf(loan, repayments)
  {
    var endDate := AddMonths(loan.startDate, loan.months);
    var loanAmount := loan.amount;
    var zeroRepayment := Repayment(loan.startDate, 0.0, EnumGoal(NoGoal));
    var currentPeriodStart := loan.startDate;
    var currentPeriodEnd := Date(currentPeriodStart.year, currentPeriodStart.month, loan.paymentDay);
    var monthlyRate := loan.rate / 100.0 / 12.0;
    var monthlyPayment := AnnuityPayment(loanAmount, monthlyRate, loan.months);
    var defaultRepayment :=
      if loan.monthlyBudget > 0.0
      then Repayment(loan.startDate, loan.monthlyBudget - monthlyPayment, loan.defaultRepaymentGoal)
      else zeroRepayment;
    var defaultRepayments := if defaultRepayment.amount > 0.0 then [defaultRepayment] else [];
    ghost var t := Setup(loan, repayments);
    assert monthlyRate == MonthlyRate(loan);
    assert t == Terms(monthlyRate, endDate, defaultRepayments, repayments);
    ghost var step := StepOf(t);
    ghost var whole := Run(step, endDate, Init(loan));
    ghost var st := Init(loan);
    ghost var paidOff := false;
    emitted, failure := [], None;
    while Before(currentPeriodEnd, endDate)
      invariant st == State(loanAmount, currentPeriodStart, currentPeriodEnd, monthlyPayment)
      invariant ValidState(t, st)
      invariant Prepend(emitted, Run(step, endDate, st)) == whole
      invariant failure == None && !paidOff
      decreases MonthIndex(endDate) - MonthIndex(currentPeriodEnd) + 1
    {
      BeforeMonthIndex(currentPeriodEnd, endDate);
      var periodRepayments := IterRepayments(currentPeriodStart, currentPeriodEnd, repayments, defaultRepayments);
      var currentDebtRepayment := SumByGoal(periodRepayments, Debt);
      if currentDebtRepayment.Err? {
        failure := Some(currentDebtRepayment.error);
        StepFailsOnGoal(t, st, periodRepayments);
        RunFails(step, endDate, st, currentDebtRepayment.error, emitted, whole);
        return;
      }
      var currentPeriodRepayment := SumByGoal(periodRepayments, Period).value;
      if currentPeriodRepayment > 0.0 {
        failure := Some(PeriodRepaymentNotImplemented);
        StepFailsOnPeriod(t, st, periodRepayments);
        RunFails(step, endDate, st, PeriodRepaymentNotImplemented, emitted, whole);
        return;
      }
      var sumRepaymentAmount := TotalAmount(periodRepayments);
      var payment := SettlePeriod(currentPeriodStart, currentPeriodEnd, loanAmount, monthlyRate, monthlyPayment,
                                  currentDebtRepayment.value, sumRepaymentAmount);
      loanAmount, monthlyPayment := payment.loanAmount, payment.amount;
      StepSettles(t, st, periodRepayments);
      RunSettles(step, endDate, st, payment, emitted, whole);
      emitted := emitted + [payment];
      currentPeriodStart := currentPeriodEnd;
      currentPeriodEnd := AddMonths(currentPeriodEnd, 1);
      st := Next(st, payment);
      if loanAmount <= 0.0 {
        paidOff := true;
        break;
      }
    }
    if !paidOff {
      RunEnds(step, endDate, st, emitted, whole);
    }
  }
}
