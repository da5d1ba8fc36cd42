/**
 * What `payments` promises about the whole run: the shape of the yielded sequence
 * (contiguous monthly periods, all ending before the schedule's end), the balance
 * recurrence each yielded payment follows, the ways the run can stop, and that with
 * no extra repayments the annuity pays the loan off in exactly `months` periods.
 */
module ScheduleProperties {
  import opened Wrappers
  import opened Dates
  import opened Repayments
  import opened Schedule

  // ---------------------------------------------------------------------------
  // Any run, whatever one pass computes

  /** The last payment. */
  function Last(ps: seq<Payment>): Payment
    requires |ps| > 0
  {
    ps[|ps| - 1]
  }

  /** The loop state before the `i`-th yielded payment of a run that started in `st`. */
  function StateAt(st: State, ps: seq<Payment>, i: nat): (r: State)
    requires ValidDate(st.periodEnd) && i <= |ps|
    ensures ValidDate(r.periodEnd)
    ensures i > 0 ==> ValidDate(r.periodStart)
    decreases i
  {
    if i == 0 then st else Next(StateAt(st, ps, i - 1), ps[i - 1])
  }

  lemma {:induction false} StateAtShift(st: State, p: Payment, rest: seq<Payment>, i: nat)
    requires ValidDate(st.periodEnd) && 1 <= i <= |rest| + 1
    ensures StateAt(st, [p] + rest, i) == StateAt(Next(st, p), rest, i - 1)
    decreases i
  {
    if i > 1 {
      StateAtShift(st, p, rest, i - 1);
      assert ([p] + rest)[i - 1] == rest[i - 2];
    }
  }

  /** The `i`-th payment is the pass from the state before it, taken before the end. */
  predicate SettledAt(step: State -> Result<Payment, Error>, endDate: Date, st: State, ps: seq<Payment>, i: nat)
    requires ValidDate(st.periodEnd) && i < |ps|
  {
    Before(StateAt(st, ps, i).periodEnd, endDate) && step(StateAt(st, ps, i)) == Ok(ps[i])
  }

  /** Every payment of a run is the pass from the state before it, taken before the end. */
  lemma {:induction false} RunSettled(step: State -> Result<Payment, Error>, endDate: Date, st: State)
    requires ValidDate(endDate) && ValidDate(st.periodEnd)
    ensures forall i :: 0 <= i < |Run(step, endDate, st).payments| ==>
              SettledAt(step, endDate, st, Run(step, endDate, st).payments, i)
    decreases MonthIndex(endDate) - MonthIndex(st.periodEnd) + 1
  {
    if Before(st.periodEnd, endDate) && step(st).Ok? && step(st).value.loanAmount > 0.0 {
      var p := step(st).value;
      BeforeMonthIndex(st.periodEnd, endDate);
      var rest := Run(step, endDate, Next(st, p)).payments;
      RunSettled(step, endDate, Next(st, p));
      var ps := [p] + rest;
      assert Run(step, endDate, st).payments == ps;
      forall i | 0 <= i < |ps|
        ensures SettledAt(step, endDate, st, ps, i)
      {
        if i > 0 {
          StateAtShift(st, p, rest, i);
          assert SettledAt(step, endDate, Next(st, p), rest, i - 1);
        }
      }
    }
  }

  /** Every payment of a run but the last leaves a positive balance. */
  lemma {:induction false} RunKeepsBalance(step: State -> Result<Payment, Error>, endDate: Date, st: State)
    requires ValidDate(endDate) && ValidDate(st.periodEnd)
    ensures forall i :: 0 <= i < |Run(step, endDate, st).payments| - 1 ==>
              Run(step, endDate, st).payments[i].loanAmount > 0.0
    decreases MonthIndex(endDate) - MonthIndex(st.periodEnd) + 1
  {
    if Before(st.periodEnd, endDate) && step(st).Ok? && step(st).value.loanAmount > 0.0 {
      var p := step(st).value;
      BeforeMonthIndex(st.periodEnd, endDate);
      var rest := Run(step, endDate, Next(st, p)).payments;
      RunKeepsBalance(step, endDate, Next(st, p));
      var ps := [p] + rest;
      assert Run(step, endDate, st).payments == ps;
      forall i | 0 < i < |ps| - 1
        ensures ps[i].loanAmount > 0.0
      {
        assert ps[i] == rest[i - 1];
      }
    }
  }

  /**
   * A run that emits anything took its first pass before the end and starts with that
   * pass's payment; one that emits more went on from the next state with a balance left.
   */
  lemma RunFirst(step: State -> Result<Payment, Error>, endDate: Date, st: State)
    requires ValidDate(endDate) && ValidDate(st.periodEnd)
    ensures |Run(step, endDate, st).payments| > 0 ==>
              && Before(st.periodEnd, endDate) && step(st).Ok?
              && Run(step, endDate, st).payments[0] == step(st).value
    ensures |Run(step, endDate, st).payments| > 1 ==>
              && Before(st.periodEnd, endDate) && step(st).Ok? && step(st).value.loanAmount > 0.0
              && Run(step, endDate, st).payments == [step(st).value] + Run(step, endDate, Next(st, step(st).value)).payments
  {
    if Before(st.periodEnd, endDate) {
      BeforeMonthIndex(st.periodEnd, endDate);
    }
  }

  /**
   * How a run raises: in the pass from the state after the last payment, taken before
   * the end, which follows a positive balance.
   */
  lemma {:induction false} RunRaises(step: State -> Result<Payment, Error>, endDate: Date, st: State)
    requires ValidDate(endDate) && ValidDate(st.periodEnd)
    requires Run(step, endDate, st).failure.Some?
    ensures Before(StateAt(st, Run(step, endDate, st).payments, |Run(step, endDate, st).payments|).periodEnd, endDate)
    ensures step(StateAt(st, Run(step, endDate, st).payments, |Run(step, endDate, st).payments|))
            == Err(Run(step, endDate, st).failure.value)
    ensures |Run(step, endDate, st).payments| > 0 ==> Last(Run(step, endDate, st).payments).loanAmount > 0.0
    decreases MonthIndex(endDate) - MonthIndex(st.periodEnd) + 1
  {
    if Before(st.periodEnd, endDate) && step(st).Ok? && step(st).value.loanAmount > 0.0 {
      var p := step(st).value;
      BeforeMonthIndex(st.periodEnd, endDate);
      var tail := Run(step, endDate, Next(st, p));
      RunRaises(step, endDate, Next(st, p));
      var ps := [p] + tail.payments;
      assert Run(step, endDate, st) == Trace(ps, tail.failure);
      StateAtShift(st, p, tail.payments, |ps|);
      if |tail.payments| > 0 {
        assert Last(ps) == Last(tail.payments);
      }
    }
  }

  /**
   * How a run that raised nothing stops: on a payment that cleared the balance, or
   * because the period after its last payment does not end before the end.
   */
  lemma {:induction false} RunHalts(step: State -> Result<Payment, Error>, endDate: Date, st: State)
    requires ValidDate(endDate) && ValidDate(st.periodEnd)
    requires Run(step, endDate, st).failure.None?
    ensures || (|Run(step, endDate, st).payments| > 0 && Last(Run(step, endDate, st).payments).loanAmount <= 0.0)
            || !Before(StateAt(st, Run(step, endDate, st).payments, |Run(step, endDate, st).payments|).periodEnd, endDate)
    decreases MonthIndex(endDate) - MonthIndex(st.periodEnd) + 1
  {
    if Before(st.periodEnd, endDate) && step(st).Ok? && step(st).value.loanAmount > 0.0 {
      var p := step(st).value;
      BeforeMonthIndex(st.periodEnd, endDate);
      var tail := Run(step, endDate, Next(st, p));
      RunHalts(step, endDate, Next(st, p));
      var ps := [p] + tail.payments;
      assert Run(step, endDate, st) == Trace(ps, tail.failure);
      StateAtShift(st, p, tail.payments, |ps|);
      if |tail.payments| > 0 {
        assert Last(ps) == Last(tail.payments);
      }
    }
  }

  // ---------------------------------------------------------------------------
  // The loop run from any state

  /** The payments the loop yields from state `st`. */
  function Emitted(t: Terms, st: State): seq<Payment>
    requires ValidState(t, st)
  {
    RunFrom(t, st).payments
  }

  /** The balance before the `i`-th payment: the starting balance, then each payment's `loan_amount`. */
  function Balance(st: State, ps: seq<Payment>, i: nat): real
    requires i <= |ps|
  {
    if i == 0 then st.loanAmount else ps[i - 1].loanAmount
  }

  /** The repayments `iter_repayments` gathers for the period of `p`. */
  function Repaid(t: Terms, p: Payment): seq<Repayment>
    requires ValidDate(p.startDate) && ValidDate(p.endDate)
  {
    Gathered(t, p.startDate, p.endDate)
  }

  /** The month of the period end advances by one per payment. */
  lemma {:induction false} StateAtMonth(st: State, ps: seq<Payment>, i: nat)
    requires ValidDate(st.periodEnd) && i <= |ps|
    ensures MonthIndex(StateAt(st, ps, i).periodEnd) == MonthIndex(st.periodEnd) + i
    decreases i
  {
    if i > 0 {
      StateAtMonth(st, ps, i - 1);
    }
  }

  /**
   * The state before the `i`-th payment is a valid state whose period ends before the
   * end, the pass from it yields that payment, over that state's period, and only the
   * last payment may leave no balance.
   */
  lemma StateBefore(t: Terms, st: State, ps: seq<Payment>, i: nat)
    requires ValidState(t, st) && ps == Emitted(t, st) && i < |ps|
    ensures ValidState(t, StateAt(st, ps, i))
    ensures Before(StateAt(st, ps, i).periodEnd, t.endDate)
    ensures Step(t, StateAt(st, ps, i)) == Ok(ps[i])
    ensures ps[i].startDate == StateAt(st, ps, i).periodStart && ps[i].endDate == StateAt(st, ps, i).periodEnd
    ensures i < |ps| - 1 ==> ps[i].loanAmount > 0.0
  {
    RunSettled(StepOf(t), t.endDate, st);
    RunKeepsBalance(StepOf(t), t.endDate, st);
    assert SettledAt(StepOf(t), t.endDate, st, ps, i);
  }

  /** The `i`-th payment covers the period of the state before it, which ends before the end. */
  lemma StatePeriod(t: Terms, st: State, ps: seq<Payment>, i: nat)
    requires ValidState(t, st) && ps == Emitted(t, st) && i < |ps|
    ensures ValidDate(ps[i].startDate) && ValidDate(ps[i].endDate)
    ensures ps[i].startDate == StateAt(st, ps, i).periodStart && ps[i].endDate == StateAt(st, ps, i).periodEnd
    ensures Before(ps[i].endDate, t.endDate)
  {
    StateBefore(t, st, ps, i);
  }

  /** Every payment but the last leaves a positive balance. */
  lemma BalanceLeft(t: Terms, st: State, ps: seq<Payment>, i: nat)
    requires ValidState(t, st) && ps == Emitted(t, st) && i < |ps| - 1
    ensures ps[i].loanAmount > 0.0
  {
    RunKeepsBalance(StepOf(t), t.endDate, st);
  }

  /** The payment amount stays the one of `st` up to the last payment. */
  lemma {:induction false} PaymentKept(t: Terms, st: State, ps: seq<Payment>, i: nat)
    requires ValidState(t, st) && ps == Emitted(t, st) && i < |ps|
    ensures StateAt(st, ps, i).monthlyPayment == st.monthlyPayment
    decreases i
  {
    if i > 0 {
      PaymentKept(t, st, ps, i - 1);
      StateBefore(t, st, ps, i - 1);
    }
  }

  /** The `i`-th payment is the pass that settles the balance before it, with the payment of `st`. */
  lemma PaymentAt(t: Terms, st: State, ps: seq<Payment>, i: nat)
    requires ValidState(t, st) && ps == Emitted(t, st) && i < |ps|
    ensures ValidDate(ps[i].startDate) && ValidDate(ps[i].endDate)
    ensures SumByGoal(Repaid(t, ps[i]), Debt).Ok?
    ensures SumByGoal(Repaid(t, ps[i]), Period).value <= 0.0
    ensures ps[i] == Settle(State(Balance(st, ps, i), ps[i].startDate, ps[i].endDate, st.monthlyPayment),
                            t.monthlyRate, SumByGoal(Repaid(t, ps[i]), Debt).value, TotalAmount(Repaid(t, ps[i])))
  {
    StateBefore(t, st, ps, i);
    PaymentKept(t, st, ps, i);
    assert StateAt(st, ps, i) == State(Balance(st, ps, i), ps[i].startDate, ps[i].endDate, st.monthlyPayment);
  }

  /** The period of the `i`-th payment. */
  lemma PeriodAt(t: Terms, st: State, ps: seq<Payment>, i: nat)
    requires ValidState(t, st) && ps == Emitted(t, st) && i < |ps|
    ensures ValidDate(ps[i].startDate) && ValidDate(ps[i].endDate)
    ensures i == 0 ==> ps[i].startDate == st.periodStart && ps[i].endDate == st.periodEnd
    ensures i > 0 ==> ps[i].startDate == ps[i - 1].endDate
    ensures i > 0 ==> ValidDate(ps[i - 1].endDate) && ps[i].endDate == AddMonths(ps[i - 1].endDate, 1)
    ensures MonthIndex(ps[i].endDate) == MonthIndex(st.periodEnd) + i
    ensures Before(ps[i].endDate, t.endDate)
  {
    StatePeriod(t, st, ps, i);
    StateAtMonth(st, ps, i);
    if i > 0 {
      StatePeriod(t, st, ps, i - 1);
      assert StateAt(st, ps, i) == Next(StateAt(st, ps, i - 1), ps[i - 1]);
    }
  }

  /**
   * The periods are contiguous months: the first is the period of `st`, each later
   * one starts where the one before ended and ends a month after it, the `i`-th ends
   * `i` months after the first, and none ends on or after the schedule's end.
   */
  lemma PaymentsAreContiguous(t: Terms, st: State)
    requires ValidState(t, st)
    ensures forall i :: 0 <= i < |Emitted(t, st)| ==>
              ValidDate(Emitted(t, st)[i].startDate) && ValidDate(Emitted(t, st)[i].endDate)
    ensures |Emitted(t, st)| > 0 ==>
              Emitted(t, st)[0].startDate == st.periodStart && Emitted(t, st)[0].endDate == st.periodEnd
    ensures forall i :: 0 < i < |Emitted(t, st)| ==>
              && Emitted(t, st)[i].startDate == Emitted(t, st)[i - 1].endDate
              && Emitted(t, st)[i].endDate == AddMonths(Emitted(t, st)[i - 1].endDate, 1)
    ensures forall i :: 0 <= i < |Emitted(t, st)| ==>
              MonthIndex(Emitted(t, st)[i].endDate) == MonthIndex(st.periodEnd) + i
    ensures forall i :: 0 <= i < |Emitted(t, st)| ==> Before(Emitted(t, st)[i].endDate, t.endDate)
  {
    var ps := Emitted(t, st);
    forall i | 0 <= i < |ps|
      ensures ValidDate(ps[i].startDate) && ValidDate(ps[i].endDate)
      ensures i == 0 ==> ps[i].startDate == st.periodStart && ps[i].endDate == st.periodEnd
      ensures i > 0 ==> ps[i].startDate == ps[i - 1].endDate && ps[i].endDate == AddMonths(ps[i - 1].endDate, 1)
      ensures MonthIndex(ps[i].endDate) == MonthIndex(st.periodEnd) + i
      ensures Before(ps[i].endDate, t.endDate)
    {
      PeriodAt(t, st, ps, i);
    }
  }

  /** What the `i`-th payment settles, read off `Settle`. */
  lemma PaymentSettles(t: Terms, st: State, ps: seq<Payment>, i: nat)
    requires ValidState(t, st) && ps == Emitted(t, st) && i < |ps|
    ensures ValidDate(ps[i].startDate) && ValidDate(ps[i].endDate)
    ensures SumByGoal(Repaid(t, ps[i]), Debt).Ok? && SumByGoal(Repaid(t, ps[i]), Period).value <= 0.0
    ensures ps[i].interestAmount == Interest(Balance(st, ps, i), t.monthlyRate)
    ensures ps[i].amount == ps[i].interestAmount + ps[i].principalAmount
    ensures ps[i].loanAmount
            == Max0(Balance(st, ps, i) - Max0(SumByGoal(Repaid(t, ps[i]), Debt).value)
                    - (st.monthlyPayment - ps[i].interestAmount))
    ensures ps[i].loanAmount >= 0.0
    ensures ps[i].loanAmount > 0.0 ==> ps[i].amount == st.monthlyPayment
    ensures ps[i].repaymentAmount == TotalAmount(Repaid(t, ps[i]))
  {
    PaymentAt(t, st, ps, i);
    var before := State(Balance(st, ps, i), ps[i].startDate, ps[i].endDate, st.monthlyPayment);
    var p := Settle(before, t.monthlyRate, SumByGoal(Repaid(t, ps[i]), Debt).value, TotalAmount(Repaid(t, ps[i])));
    assert ps[i] == p;
  }

  /**
   * Every payment accrues interest on the balance before it: the interest is the
   * balance times the monthly rate and the amount is interest plus principal. No
   * yielded period had a goal of another type or a positive PERIOD sum.
   */
  lemma PaymentsAccrueInterest(t: Terms, st: State)
    requires ValidState(t, st)
    ensures forall i :: 0 <= i < |Emitted(t, st)| ==>
              && ValidDate(Emitted(t, st)[i].startDate) && ValidDate(Emitted(t, st)[i].endDate)
              && SumByGoal(Repaid(t, Emitted(t, st)[i]), Debt).Ok?
              && SumByGoal(Repaid(t, Emitted(t, st)[i]), Period).value <= 0.0
    ensures forall i :: 0 <= i < |Emitted(t, st)| ==>
              Emitted(t, st)[i].interestAmount == Interest(Balance(st, Emitted(t, st), i), t.monthlyRate)
    ensures forall i :: 0 <= i < |Emitted(t, st)| ==>
              Emitted(t, st)[i].amount == Emitted(t, st)[i].interestAmount + Emitted(t, st)[i].principalAmount
  {
    forall i | 0 <= i < |Emitted(t, st)| {
      PaymentSettles(t, st, Emitted(t, st), i);
    }
  }

  /**
   * The `i`-th payment leaves the balance before it less the positive DEBT sum of its
   * period and the principal part of the payment of `st`, clamped at 0.
   */
  predicate LeavesBalance(t: Terms, st: State, ps: seq<Payment>, i: nat)
    requires i < |ps| && ValidDate(ps[i].startDate) && ValidDate(ps[i].endDate)
  {
    && SumByGoal(Repaid(t, ps[i]), Debt).Ok?
    && ps[i].loanAmount
       == Max0(Balance(st, ps, i) - Max0(SumByGoal(Repaid(t, ps[i]), Debt).value)
               - (st.monthlyPayment - ps[i].interestAmount))
  }

  /** Every payment settles the balance before it, as `LeavesBalance` says. */
  lemma PaymentsFollowBalance(t: Terms, st: State)
    requires ValidState(t, st)
    ensures forall i :: 0 <= i < |Emitted(t, st)| ==>
              && ValidDate(Emitted(t, st)[i].startDate) && ValidDate(Emitted(t, st)[i].endDate)
              && LeavesBalance(t, st, Emitted(t, st), i)
  {
    forall i | 0 <= i < |Emitted(t, st)|
      ensures ValidDate(Emitted(t, st)[i].startDate) && ValidDate(Emitted(t, st)[i].endDate)
      ensures LeavesBalance(t, st, Emitted(t, st), i)
    {
      PaymentLeaves(t, st, Emitted(t, st), i);
    }
  }

  lemma PaymentLeaves(t: Terms, st: State, ps: seq<Payment>, i: nat)
    requires ValidState(t, st) && ps == Emitted(t, st) && i < |ps|
    ensures ValidDate(ps[i].startDate) && ValidDate(ps[i].endDate)
    ensures LeavesBalance(t, st, ps, i)
  {
    PaymentSettles(t, st, ps, i);
  }

  /**
   * The amount of every payment is the payment of `st` until payoff, no balance is
   * left negative, and `repayment_amount` is the sum of all the period's repayments.
   */
  lemma PaymentsKeepAmount(t: Terms, st: State)
    requires ValidState(t, st)
    ensures forall i :: 0 <= i < |Emitted(t, st)| ==> Emitted(t, st)[i].loanAmount >= 0.0
    ensures forall i :: 0 <= i < |Emitted(t, st)| ==>
              Emitted(t, st)[i].loanAmount > 0.0 ==> Emitted(t, st)[i].amount == st.monthlyPayment
    ensures forall i :: 0 <= i < |Emitted(t, st)| ==>
              && ValidDate(Emitted(t, st)[i].startDate) && ValidDate(Emitted(t, st)[i].endDate)
              && Emitted(t, st)[i].repaymentAmount == TotalAmount(Repaid(t, Emitted(t, st)[i]))
  {
    forall i | 0 <= i < |Emitted(t, st)| {
      PaymentSettles(t, st, Emitted(t, st), i);
    }
  }

  /** The state after the last payment: the period that follows it, with the balance it left. */
  lemma StateAfter(t: Terms, st: State, ps: seq<Payment>)
    requires ValidState(t, st) && ps == Emitted(t, st)
    ensures ValidState(t, StateAt(st, ps, |ps|))
    ensures |ps| == 0 ==> StateAt(st, ps, |ps|) == st
    ensures |ps| > 0 ==>
              && ValidDate(Last(ps).endDate)
              && StateAt(st, ps, |ps|).periodStart == Last(ps).endDate
              && StateAt(st, ps, |ps|).periodEnd == AddMonths(Last(ps).endDate, 1)
  {
    if |ps| > 0 {
      var k := |ps| - 1;
      StatePeriod(t, st, ps, k);
      assert StateAt(st, ps, |ps|) == Next(StateAt(st, ps, k), ps[k]);
    }
  }

  /**
   * The run stops right after the first payment that clears the balance: every
   * payment but the last leaves a positive balance, and a run that raised nothing
   * ended on a cleared balance or because the next period would end on or after the
   * schedule's end.
   */
  lemma PaymentsStopAtPayoff(t: Terms, st: State)
    requires ValidState(t, st)
    ensures forall i :: 0 <= i < |Emitted(t, st)| - 1 ==> Emitted(t, st)[i].loanAmount > 0.0
    ensures RunFrom(t, st).failure.None? && |Emitted(t, st)| == 0 ==> !Before(st.periodEnd, t.endDate)
    ensures RunFrom(t, st).failure.None? && |Emitted(t, st)| > 0 ==>
              && ValidDate(Last(Emitted(t, st)).endDate)
              && (Last(Emitted(t, st)).loanAmount == 0.0
                  || !Before(AddMonths(Last(Emitted(t, st)).endDate, 1), t.endDate))
  {
    var ps := Emitted(t, st);
    RunKeepsBalance(StepOf(t), t.endDate, st);
    if RunFrom(t, st).failure.None? {
      RunHalts(StepOf(t), t.endDate, st);
    }
    StateAfter(t, st, ps);
    if |ps| > 0 {
      PaymentSettles(t, st, ps, |ps| - 1);
    }
  }

  /**
   * A run that raised stopped in the period after its last payment, which ends before
   * the schedule's end and follows a positive balance, and whose repayments hold a
   * goal of another type (the error names the first one) or, with none, sum to a
   * positive PERIOD amount: nothing of that period was emitted.
   */
  lemma PaymentsFailOnNextPeriod(t: Terms, st: State)
    requires ValidState(t, st)
    requires RunFrom(t, st).failure.Some?
    ensures |Emitted(t, st)| > 0 ==> Last(Emitted(t, st)).loanAmount > 0.0
    ensures ValidState(t, StateAt(st, Emitted(t, st), |Emitted(t, st)|))
    ensures Before(StateAt(st, Emitted(t, st), |Emitted(t, st)|).periodEnd, t.endDate)
    ensures var next := StateAt(st, Emitted(t, st), |Emitted(t, st)|);
            var reps := Gathered(t, next.periodStart, next.periodEnd);
            var e := RunFrom(t, st).failure.value;
            || (SumByGoal(reps, Debt).Err? && e == SumByGoal(reps, Debt).error
                && e.InvalidGoal? && e.goal.OtherGoal?)
            || (SumByGoal(reps, Debt).Ok? && SumByGoal(reps, Period).value > 0.0
                && e == PeriodRepaymentNotImplemented)
  {
    RunRaises(StepOf(t), t.endDate, st);
    StateAfter(t, st, Emitted(t, st));
  }

  /** The interest on a smaller balance is no larger. */
  lemma InterestMonotone(b: real, a: real, rate: real)
    requires 0.0 <= b <= a && rate >= 0.0
    ensures Interest(b, rate) <= Interest(a, rate)
  {
    assert (a - b) * rate >= 0.0;
  }

  lemma BalanceBelow(t: Terms, st: State, ps: seq<Payment>, i: nat)
    requires ValidState(t, st) && ps == Emitted(t, st) && i < |ps|
    requires st.loanAmount > 0.0 && t.monthlyRate >= 0.0
    requires st.monthlyPayment > Interest(st.loanAmount, t.monthlyRate)
    ensures 0.0 < Balance(st, ps, i) <= st.loanAmount
    ensures ps[i].loanAmount < Balance(st, ps, i)
  {
    forall k | 0 <= k < |ps| ensures ShrinksAt(st, ps, k) {
      PeriodShrinks(t, st, ps, k);
    }
    forall k | 0 <= k < |ps| - 1 ensures ps[k].loanAmount > 0.0 {
      BalanceLeft(t, st, ps, k);
    }
    BalanceBelowFrom(st, ps, i);
  }

  /** Period `i` leaves less than it found whenever it found a balance in `(0, st.loanAmount]`. */
  predicate ShrinksAt(st: State, ps: seq<Payment>, i: nat)
    requires i < |ps|
  {
    0.0 < Balance(st, ps, i) <= st.loanAmount ==> ps[i].loanAmount < Balance(st, ps, i)
  }

  lemma PeriodShrinks(t: Terms, st: State, ps: seq<Payment>, i: nat)
    requires ValidState(t, st) && ps == Emitted(t, st) && i < |ps|
    requires t.monthlyRate >= 0.0
    requires st.monthlyPayment > Interest(st.loanAmount, t.monthlyRate)
    ensures ShrinksAt(st, ps, i)
  {
    if 0.0 < Balance(st, ps, i) <= st.loanAmount {
      PaymentAt(t, st, ps, i);
      SettleShrinks(State(Balance(st, ps, i), ps[i].startDate, ps[i].endDate, st.monthlyPayment), st.loanAmount,
                    t.monthlyRate, SumByGoal(Repaid(t, ps[i]), Debt).value, TotalAmount(Repaid(t, ps[i])));
    }
  }

  /** The balances of a sequence of shrinking periods, none but the last paying off, fall from the start. */
  lemma {:induction false} BalanceBelowFrom(st: State, ps: seq<Payment>, i: nat)
    requires i < |ps| && st.loanAmount > 0.0
    requires forall k :: 0 <= k < |ps| ==> ShrinksAt(st, ps, k)
    requires forall k :: 0 <= k < |ps| - 1 ==> ps[k].loanAmount > 0.0
    ensures 0.0 < Balance(st, ps, i) <= st.loanAmount
    ensures ps[i].loanAmount < Balance(st, ps, i)
    decreases i
  {
    if i > 0 {
      BalanceBelowFrom(st, ps, i - 1);
      assert ShrinksAt(st, ps, i - 1);
    }
    assert ShrinksAt(st, ps, i);
  }

  /** A period whose payment exceeds the interest on a balance at least as large leaves less than it found. */
  lemma SettleShrinks(s: State, top: real, rate: real, debt: real, repaid: real)
    requires 0.0 < s.loanAmount <= top && rate >= 0.0 && s.monthlyPayment > Interest(top, rate)
    ensures Settle(s, rate, debt, repaid).loanAmount < s.loanAmount
  {
    InterestMonotone(s.loanAmount, top, rate);
  }

  /**
   * When the payment exceeds the interest on the starting balance and the rate is
   * not negative, every payment leaves less than the balance before it, and no
   * balance exceeds the starting one.
   */
  lemma BalanceDecreases(t: Terms, st: State)
    requires ValidState(t, st) && st.loanAmount > 0.0 && t.monthlyRate >= 0.0
    requires st.monthlyPayment > Interest(st.loanAmount, t.monthlyRate)
    ensures forall i :: 0 <= i < |Emitted(t, st)| ==>
              Emitted(t, st)[i].loanAmount < Balance(st, Emitted(t, st), i) <= st.loanAmount
  {
    forall i | 0 <= i < |Emitted(t, st)| {
      BalanceBelow(t, st, Emitted(t, st), i);
    }
  }

  /** Every pass from a state with valid period bounds settles it with nothing repaid. */
  ghost predicate SettlesPlainly(step: State -> Result<Payment, Error>, rate: real) {
    forall s: State :: ValidDate(s.periodStart) && ValidDate(s.periodEnd) ==> step(s) == Ok(Settle(s, rate, 0.0, 0.0))
  }

  /**
   * The premise of a run whose balance follows the recurrence `Amortized` from the
   * current one: it reaches 0 after exactly `m` periods, stays positive before, and
   * the end leaves room for all `m` of them.
   */
  predicate AmortizesIn(endDate: Date, rate: real, st: State, m: nat) {
    && ValidDate(endDate) && ValidDate(st.periodStart) && ValidDate(st.periodEnd)
    && m >= 1
    && Amortized(st.loanAmount, rate, st.monthlyPayment, m) == 0.0
    && (forall j :: 0 < j < m ==> Amortized(st.loanAmount, rate, st.monthlyPayment, j) > 0.0)
    && MonthIndex(st.periodEnd) + m <= MonthIndex(endDate)
  }

  /** Such a run settles its first period plainly, and the premise holds for the rest of it. */
  lemma AmortizingStep(step: State -> Result<Payment, Error>, endDate: Date, rate: real, st: State, m: nat)
    requires SettlesPlainly(step, rate) && AmortizesIn(endDate, rate, st, m)
    ensures Before(st.periodEnd, endDate)
    ensures step(st) == Ok(Settle(st, rate, 0.0, 0.0))
    ensures Settle(st, rate, 0.0, 0.0).loanAmount == Amortized(st.loanAmount, rate, st.monthlyPayment, 1)
    ensures m > 1 ==> AmortizesIn(endDate, rate, Next(st, Settle(st, rate, 0.0, 0.0)), m - 1)
  {
    MonthIndexBefore(st.periodEnd, endDate);
    SettleAmortized(st, rate);
    var p := Settle(st, rate, 0.0, 0.0);
    if m > 1 {
      assert Amortized(st.loanAmount, rate, st.monthlyPayment, 1) > 0.0;
      assert Amortized(st.loanAmount, rate, st.monthlyPayment, m)
          == Amortized(p.loanAmount, rate, st.monthlyPayment, m - 1);
      forall j | 0 < j < m - 1
        ensures Amortized(p.loanAmount, rate, st.monthlyPayment, j) > 0.0
      {
        assert Amortized(st.loanAmount, rate, st.monthlyPayment, j + 1) > 0.0;
      }
    }
  }

  /** Such a run stops without error after exactly `m` periods. */
  lemma {:induction false} AmortizedRunLength(step: State -> Result<Payment, Error>, endDate: Date, rate: real,
                                              st: State, m: nat)
    requires SettlesPlainly(step, rate) && AmortizesIn(endDate, rate, st, m)
    ensures Run(step, endDate, st).failure == None
    ensures |Run(step, endDate, st).payments| == m
    decreases m
  {
    AmortizingStep(step, endDate, rate, st, m);
    if m > 1 {
      AmortizedRunLength(step, endDate, rate, Next(st, Settle(st, rate, 0.0, 0.0)), m - 1);
    }
  }

  /**
   * In a run that settles every period plainly, a payment after the first is a payment
   * of the run from the next period, which starts from one period of the recurrence
   * with the same payment.
   */
  lemma PlainShift(step: State -> Result<Payment, Error>, endDate: Date, rate: real, st: State, j: nat)
    requires ValidDate(endDate) && ValidDate(st.periodStart) && ValidDate(st.periodEnd)
    requires SettlesPlainly(step, rate)
    requires 0 < j < |Run(step, endDate, st).payments|
    ensures var next := Next(st, Settle(st, rate, 0.0, 0.0));
            && next.loanAmount == Amortized(st.loanAmount, rate, st.monthlyPayment, 1)
            && next.monthlyPayment == st.monthlyPayment
            && j - 1 < |Run(step, endDate, next).payments|
            && Run(step, endDate, st).payments[j] == Run(step, endDate, next).payments[j - 1]
  {
    RunFirst(step, endDate, st);
    var p := Settle(st, rate, 0.0, 0.0);
    assert step(st).value == p;
    SettleAmortized(st, rate);
  }

  /**
   * In a run that settles every period plainly, the `j`-th payment leaves the balance
   * of `j + 1` periods of the recurrence from the current one, clamped at 0, and is
   * the full payment while that balance is not negative.
   */
  lemma {:induction false} AmortizedRunAt(step: State -> Result<Payment, Error>, endDate: Date, rate: real,
                                          st: State, j: nat)
    requires ValidDate(endDate) && ValidDate(st.periodStart) && ValidDate(st.periodEnd)
    requires SettlesPlainly(step, rate)
    requires j < |Run(step, endDate, st).payments|
    ensures Run(step, endDate, st).payments[j].loanAmount == Max0(Amortized(st.loanAmount, rate, st.monthlyPayment, j + 1))
    ensures Amortized(st.loanAmount, rate, st.monthlyPayment, j + 1) >= 0.0 ==>
              Run(step, endDate, st).payments[j].amount == st.monthlyPayment
    decreases j
  {
    if j == 0 {
      RunFirst(step, endDate, st);
      assert step(st).value == Settle(st, rate, 0.0, 0.0);
      SettleAmortized(st, rate);
    } else {
      PlainShift(step, endDate, rate, st, j);
      var next := Next(st, Settle(st, rate, 0.0, 0.0));
      AmortizedRunAt(step, endDate, rate, next, j - 1);
      assert Amortized(st.loanAmount, rate, st.monthlyPayment, j + 1)
          == Amortized(next.loanAmount, rate, st.monthlyPayment, j);
    }
  }

  /** Without an index and defaults every pass of the loop settles plainly. */
  lemma NothingToRepay(t: Terms)
    requires ValidDate(t.endDate) && t.index == map[] && t.defaults == []
    ensures SettlesPlainly(StepOf(t), t.monthlyRate)
  {
    forall s: State | ValidDate(s.periodStart) && ValidDate(s.periodEnd)
      ensures StepOf(t)(s) == Ok(Settle(s, t.monthlyRate, 0.0, 0.0))
    {
      StepWithoutRepayments(t, s);
    }
  }

  /** In such a run of `m` payments, the `j`-th is the full payment and leaves the recurrence's balance. */
  lemma AmortizedPayment(step: State -> Result<Payment, Error>, endDate: Date, rate: real, st: State, m: nat, j: nat)
    requires SettlesPlainly(step, rate) && AmortizesIn(endDate, rate, st, m)
    requires j < m == |Run(step, endDate, st).payments|
    ensures Run(step, endDate, st).payments[j].amount == st.monthlyPayment
    ensures Run(step, endDate, st).payments[j].loanAmount == Amortized(st.loanAmount, rate, st.monthlyPayment, j + 1)
  {
    AmortizedRunAt(step, endDate, rate, st, j);
    var a := Amortized(st.loanAmount, rate, st.monthlyPayment, j + 1);
    if j + 1 < m {
      assert a > 0.0;
    } else {
      assert j + 1 == m && a == 0.0;
    }
  }

  /**
   * With no repayments at all, a run whose balance follows the recurrence `Amortized`
   * to 0 in `m` periods settles exactly those `m` periods on that recurrence, each for
   * the full payment, and stops without error.
   */
  lemma AmortizedRun(t: Terms, st: State, m: nat)
    requires ValidState(t, st) && t.index == map[] && t.defaults == []
    requires AmortizesIn(t.endDate, t.monthlyRate, st, m)
    ensures RunFrom(t, st).failure == None
    ensures |Emitted(t, st)| == m
    ensures forall j :: 0 <= j < m ==> Emitted(t, st)[j].amount == st.monthlyPayment
    ensures forall j :: 0 <= j < m ==>
              Emitted(t, st)[j].loanAmount == Amortized(st.loanAmount, t.monthlyRate, st.monthlyPayment, j + 1)
  {
    NothingToRepay(t);
    AmortizedRunLength(StepOf(t), t.endDate, t.monthlyRate, st, m);
    forall j | 0 <= j < m
      ensures Emitted(t, st)[j].amount == st.monthlyPayment
      ensures Emitted(t, st)[j].loanAmount == Amortized(st.loanAmount, t.monthlyRate, st.monthlyPayment, j + 1)
    {
      AmortizedPayment(StepOf(t), t.endDate, t.monthlyRate, st, m, j);
    }
  }

  /** Without an index and defaults a period gathers nothing and settles with nothing repaid. */
  lemma StepWithoutRepayments(t: Terms, st: State)
    requires ValidState(t, st) && t.index == map[] && t.defaults == []
    ensures StepOf(t)(st) == Ok(Settle(st, t.monthlyRate, 0.0, 0.0))
  {
    EmptyIndexYieldsDefault(st.periodStart, st.periodEnd, []);
    assert Gathered(t, st.periodStart, st.periodEnd) == [];
  }

  /**
   * Settling with nothing repaid leaves one period of the recurrence, clamped at 0,
   * for the full payment unless that balance is negative.
   */
  lemma SettleAmortized(st: State, rate: real)
    ensures Settle(st, rate, 0.0, 0.0).loanAmount == Max0(Amortized(st.loanAmount, rate, st.monthlyPayment, 1))
    ensures Amortized(st.loanAmount, rate, st.monthlyPayment, 1) >= 0.0 ==>
              Settle(st, rate, 0.0, 0.0).amount == st.monthlyPayment
    ensures Settle(st, rate, 0.0, 0.0).loanAmount > 0.0 ==> Settle(st, rate, 0.0, 0.0).amount == st.monthlyPayment
  {
    var a := st.loanAmount;
    assert Amortized(a, rate, st.monthlyPayment, 1) == a - (st.monthlyPayment - a * rate);
  }

  /**
   * Every pass from a state with valid period bounds that settles leaves a balance
   * between 0 and one period of the recurrence from the current one, clamped at 0,
   * and keeps the payment while a balance is left. Repayments only lower the balance.
   */
  ghost predicate SettlesWithin(step: State -> Result<Payment, Error>, rate: real) {
    forall s: State :: WithinAt(step, rate, s)
  }

  /** `SettlesWithin` for the pass from `s`. */
  predicate WithinAt(step: State -> Result<Payment, Error>, rate: real, s: State) {
    ValidDate(s.periodStart) && ValidDate(s.periodEnd) && step(s).Ok? ==>
      && 0.0 <= step(s).value.loanAmount <= Max0(s.loanAmount * (1.0 + rate) - s.monthlyPayment)
      && (step(s).value.loanAmount > 0.0 ==> step(s).value.amount == s.monthlyPayment)
  }

  /** A DEBT sum is taken off only when positive, so settling never leaves more than the recurrence. */
  lemma SettleWithin(s: State, rate: real, debt: real, repaid: real)
    ensures 0.0 <= Settle(s, rate, debt, repaid).loanAmount <= Max0(s.loanAmount * (1.0 + rate) - s.monthlyPayment)
    ensures Settle(s, rate, debt, repaid).loanAmount > 0.0 ==> Settle(s, rate, debt, repaid).amount == s.monthlyPayment
  {
    var b := s.loanAmount;
    assert b * (1.0 + rate) == b + b * rate;
    assert b - Max0(debt) - (s.monthlyPayment - Interest(b, rate)) <= b * (1.0 + rate) - s.monthlyPayment;
  }

  /** Whatever the repayments, every pass of the loop settles within the recurrence. */
  lemma StepsWithin(t: Terms)
    requires ValidDate(t.endDate)
    ensures SettlesWithin(StepOf(t), t.monthlyRate)
  {
    forall s: State
      ensures WithinAt(StepOf(t), t.monthlyRate, s)
    {
      StepWithin(t, s);
    }
  }

  /** The pass of the loop from `s` settles within the recurrence, whatever it gathers. */
  lemma StepWithin(t: Terms, s: State)
    requires ValidDate(t.endDate)
    ensures WithinAt(StepOf(t), t.monthlyRate, s)
  {
    if ValidDate(s.periodStart) && ValidDate(s.periodEnd) {
      var reps := Gathered(t, s.periodStart, s.periodEnd);
      assert StepOf(t)(s) == Step(t, s);
      if Step(t, s).Ok? {
        SettleWithin(s, t.monthlyRate, SumByGoal(reps, Debt).value, TotalAmount(reps));
      }
    }
  }

  /** One period of the recurrence from a larger balance is no smaller, when `1 + rate` is not negative. */
  lemma ShiftBound(a: real, b: real, rate: real, payment: real)
    requires a <= b && 1.0 + rate >= 0.0
    ensures a * (1.0 + rate) - payment <= b - (payment - b * rate)
  {
    var c := 1.0 + rate;
    NonNegativeProduct(b - a, c);
    assert b * c - a * c == (b - a) * c;
    assert b * c == b + b * rate;
  }

  lemma NonNegativeProduct(x: real, y: real)
    requires x >= 0.0 && y >= 0.0
    ensures x * y >= 0.0
  {
  }

  /**
   * The premise of a run that pays off within `m` periods: its passes settle within
   * the recurrence, its balance is not above `bound`, whose recurrence reaches 0
   * within `m` periods, and all `m` of them end before the end.
   */
  ghost predicate PaysOffPremise(step: State -> Result<Payment, Error>, endDate: Date, rate: real,
                                 st: State, bound: real, m: nat) {
    && SettlesWithin(step, rate) && 1.0 + rate >= 0.0
    && ValidDate(endDate) && ValidDate(st.periodStart) && ValidDate(st.periodEnd)
    && m >= 1 && MonthIndex(st.periodEnd) + m <= MonthIndex(endDate)
    && st.loanAmount <= bound && Amortized(bound, rate, st.monthlyPayment, m) <= 0.0
  }

  /** A trace that raised, or that yielded between 1 and `m` payments, the last leaving 0. */
  predicate ClearedWithin(tr: Trace, m: nat) {
    tr.failure.None? ==> 0 < |tr.payments| <= m && Last(tr.payments).loanAmount == 0.0
  }

  /**
   * A run whose passes settle within the recurrence, from a balance not above `bound`
   * whose recurrence reaches 0 within `m` periods that all end before the end, either
   * raises or yields at most `m` payments, the last of which leaves 0.
   */
  lemma {:induction false} PaysOffWithin(step: State -> Result<Payment, Error>, endDate: Date, rate: real,
                                         st: State, bound: real, m: nat)
    requires PaysOffPremise(step, endDate, rate, st, bound, m)
    ensures ClearedWithin(Run(step, endDate, st), m)
    decreases m
  {
    MonthIndexBefore(st.periodEnd, endDate);
    if step(st).Ok? {
      var p := step(st).value;
      RunOnce(step, endDate, st);
      SettledWithin(step, rate, st);
      if p.loanAmount > 0.0 {
        var after := WithinShift(step, endDate, rate, st, bound, m);
        var next := Next(st, p);
        PaysOffWithin(step, endDate, rate, next, after, m - 1);
        ClearedAfter(p, Run(step, endDate, next), m);
      }
    }
  }

  /** Yielding a payment that leaves a balance before a trace cleared within `m - 1` clears within `m`. */
  lemma ClearedAfter(p: Payment, rest: Trace, m: nat)
    requires m >= 1 && ClearedWithin(rest, m - 1)
    ensures ClearedWithin(Trace([p] + rest.payments, rest.failure), m)
  {
    if rest.failure.None? {
      assert Last([p] + rest.payments) == Last(rest.payments);
    }
  }

  /** A pass that settles is yielded; the run stops after it on a cleared balance and goes on from `Next` otherwise. */
  lemma RunOnce(step: State -> Result<Payment, Error>, endDate: Date, st: State)
    requires ValidDate(endDate) && ValidDate(st.periodEnd) && Before(st.periodEnd, endDate) && step(st).Ok?
    ensures step(st).value.loanAmount <= 0.0 ==> Run(step, endDate, st) == Trace([step(st).value], None)
    ensures step(st).value.loanAmount > 0.0 ==>
              Run(step, endDate, st) == Trace([step(st).value] + Run(step, endDate, Next(st, step(st).value)).payments,
                                              Run(step, endDate, Next(st, step(st).value)).failure)
  {
  }

  /**
   * A pass within the recurrence that leaves a balance, under the premise for `m`
   * periods, leaves the premise for `m - 1` periods from one period of the recurrence
   * on `bound`.
   */
  lemma WithinShift(step: State -> Result<Payment, Error>, endDate: Date, rate: real, st: State, bound: real, m: nat)
    returns (after: real)
    requires PaysOffPremise(step, endDate, rate, st, bound, m)
    requires step(st).Ok? && step(st).value.loanAmount > 0.0
    ensures m >= 2 && PaysOffPremise(step, endDate, rate, Next(st, step(st).value), after, m - 1)
  {
    after := bound - (st.monthlyPayment - bound * rate);
    SettledWithin(step, rate, st);
    BoundShift(st.loanAmount, bound, rate, st.monthlyPayment, step(st).value.loanAmount);
    assert Amortized(bound, rate, st.monthlyPayment, m) == Amortized(after, rate, st.monthlyPayment, m - 1);
    if m == 1 {
      assert false;
    }
  }

  /** What `SettlesWithin` promises of the pass from `s`. */
  lemma SettledWithin(step: State -> Result<Payment, Error>, rate: real, s: State)
    requires SettlesWithin(step, rate) && ValidDate(s.periodStart) && ValidDate(s.periodEnd) && step(s).Ok?
    ensures 0.0 <= step(s).value.loanAmount <= Max0(s.loanAmount * (1.0 + rate) - s.monthlyPayment)
    ensures step(s).value.loanAmount > 0.0 ==> step(s).value.amount == s.monthlyPayment
  {
    assert WithinAt(step, rate, s);
  }

  /** A positive balance within one period of the recurrence from below `bound` is within one period from `bound`. */
  lemma BoundShift(a: real, bound: real, rate: real, payment: real, left: real)
    requires a <= bound && 1.0 + rate >= 0.0
    requires 0.0 < left <= Max0(a * (1.0 + rate) - payment)
    ensures left <= bound - (payment - bound * rate)
  {
    ShiftBound(a, bound, rate, payment);
  }

  /**
   * Whatever the repayments, a run of the loop from a balance not above `bound`, whose
   * recurrence reaches 0 within `m` periods that all end before the end, raises or
   * yields at most `m` payments, the last of which leaves 0.
   */
  lemma PaysOffFrom(t: Terms, st: State, bound: real, m: nat)
    requires ValidState(t, st) && 1.0 + t.monthlyRate >= 0.0
    requires m >= 1 && MonthIndex(st.periodEnd) + m <= MonthIndex(t.endDate)
    requires st.loanAmount <= bound && Amortized(bound, t.monthlyRate, st.monthlyPayment, m) <= 0.0
    ensures RunFrom(t, st).failure.None? ==> 0 < |Emitted(t, st)| <= m && Last(Emitted(t, st)).loanAmount == 0.0
  {
    StepsWithin(t);
    PaysOffWithin(StepOf(t), t.endDate, t.monthlyRate, st, bound, m);
  }

  // ---------------------------------------------------------------------------
  // The run of `payments(loan, repayments)`

  /** The payments `payments(loan, index)` yields. */
  function Yielded(loan: Loan, index: map<Date, seq<Repayment>>): seq<Payment>
    requires ValidLoan(loan)
  {
    PaymentsOf(loan, index).payments
  }

  /** The annuity `payments` computes once for `loan`. */
  function Annuity(loan: Loan): real
    requires ValidLoan(loan)
  {
    AnnuityPayment(loan.amount, MonthlyRate(loan), loan.months)
  }

  /**
   * A loan with a positive amount, rate and term starts the loop in a valid state
   * whose payment, the annuity, exceeds the interest on the amount borrowed: the
   * premise of `BalanceDecreases` for `PaymentsOf(loan, index)`.
   */
  lemma LoanStartsAboveInterest(loan: Loan, index: map<Date, seq<Repayment>>)
    requires ValidLoan(loan) && loan.amount > 0.0 && loan.rate > 0.0 && loan.months >= 1
    ensures ValidState(Setup(loan, index), Init(loan))
    ensures Init(loan).loanAmount == loan.amount && Setup(loan, index).monthlyRate == MonthlyRate(loan) > 0.0
    ensures Init(loan).monthlyPayment == Annuity(loan) > Interest(loan.amount, MonthlyRate(loan))
  {
    AnnuityExceedsInterest(loan.amount, MonthlyRate(loan), loan.months);
  }

  /**
   * The periods of `payments(loan, index)` start at the loan's start date, end on the
   * payment day of the start month first and one month later each time after, and
   * none ends on or after `add_months(start_date, months)`.
   */
  lemma LoanPeriods(loan: Loan, index: map<Date, seq<Repayment>>)
    requires ValidLoan(loan)
    ensures |Yielded(loan, index)| > 0 ==>
              Yielded(loan, index)[0].startDate == loan.startDate && Yielded(loan, index)[0].endDate == FirstPeriodEnd(loan)
    ensures forall i {:trigger Yielded(loan, index)[i]} :: 0 < i < |Yielded(loan, index)| ==>
              && Yielded(loan, index)[i].startDate == Yielded(loan, index)[i - 1].endDate
              && ValidDate(Yielded(loan, index)[i - 1].endDate)
              && Yielded(loan, index)[i].endDate == AddMonths(Yielded(loan, index)[i - 1].endDate, 1)
    ensures forall i :: 0 <= i < |Yielded(loan, index)| ==>
              && ValidDate(Yielded(loan, index)[i].endDate)
              && Before(Yielded(loan, index)[i].endDate, ScheduleEnd(loan))
  {
    PaymentsAreContiguous(Setup(loan, index), Init(loan));
  }

  /**
   * With a positive amount, rate and term, every payment of `payments(loan, index)`
   * leaves less than the balance before it, and no balance exceeds the amount borrowed.
   */
  lemma LoanBalanceDecreases(loan: Loan, index: map<Date, seq<Repayment>>)
    requires ValidLoan(loan) && loan.amount > 0.0 && loan.rate > 0.0 && loan.months >= 1
    ensures forall i :: 0 <= i < |Yielded(loan, index)| ==>
              Yielded(loan, index)[i].loanAmount < Balance(Init(loan), Yielded(loan, index), i) <= loan.amount
  {
    LoanStartsAboveInterest(loan, index);
    var t, st := Setup(loan, index), Init(loan);
    assert Yielded(loan, index) == Emitted(t, st);
    BalanceDecreases(t, st);
  }

  /**
   * Every payment of `payments(loan, index)` accrues the monthly interest on the
   * balance before it, splits into interest and principal, leaves no negative
   * balance, is the annuity until payoff, and records the sum of its period's
   * repayments.
   */
  lemma LoanPaymentsSettle(loan: Loan, index: map<Date, seq<Repayment>>)
    requires ValidLoan(loan)
    ensures forall i :: 0 <= i < |Yielded(loan, index)| ==>
              Yielded(loan, index)[i].interestAmount
              == Interest(Balance(Init(loan), Yielded(loan, index), i), MonthlyRate(loan))
    ensures forall i :: 0 <= i < |Yielded(loan, index)| ==>
              && Yielded(loan, index)[i].amount
                 == Yielded(loan, index)[i].interestAmount + Yielded(loan, index)[i].principalAmount
              && Yielded(loan, index)[i].loanAmount >= 0.0
              && (Yielded(loan, index)[i].loanAmount > 0.0 ==> Yielded(loan, index)[i].amount == Annuity(loan))
    ensures forall i :: 0 <= i < |Yielded(loan, index)| ==>
              && ValidDate(Yielded(loan, index)[i].startDate) && ValidDate(Yielded(loan, index)[i].endDate)
              && Yielded(loan, index)[i].repaymentAmount
                 == TotalAmount(PeriodLookup(Yielded(loan, index)[i].startDate, Yielded(loan, index)[i].endDate,
                                             index, DefaultRepayments(loan, Annuity(loan))))
  {
    var t, st := Setup(loan, index), Init(loan);
    assert t.monthlyRate == MonthlyRate(loan) && st.monthlyPayment == Annuity(loan);
    assert t.index == index && t.defaults == DefaultRepayments(loan, Annuity(loan));
    var ps := Emitted(t, st);
    assert Yielded(loan, index) == ps;
    PaymentsAccrueInterest(t, st);
    PaymentsKeepAmount(t, st);
    forall i | 0 <= i < |ps|
      ensures ValidDate(ps[i].startDate) && ValidDate(ps[i].endDate)
      ensures ps[i].repaymentAmount
              == TotalAmount(PeriodLookup(ps[i].startDate, ps[i].endDate, index, DefaultRepayments(loan, Annuity(loan))))
    {
      assert Repaid(t, ps[i]) == PeriodLookup(ps[i].startDate, ps[i].endDate, index, DefaultRepayments(loan, Annuity(loan)));
    }
  }

  /**
   * `payments(loan, index)` stops right after the first payment that clears the
   * balance; when it raised nothing it stopped there or because the next period would
   * end on or after `add_months(start_date, months)`, and unless `1 + r` is negative it
   * stopped on a cleared balance within `months` payments.
   */
  lemma LoanStops(loan: Loan, index: map<Date, seq<Repayment>>)
    requires ValidLoan(loan)
    ensures forall i :: 0 <= i < |Yielded(loan, index)| - 1 ==> Yielded(loan, index)[i].loanAmount > 0.0
    ensures PaymentsOf(loan, index).failure.None? && |Yielded(loan, index)| > 0 ==>
              && ValidDate(Last(Yielded(loan, index)).endDate)
              && (Last(Yielded(loan, index)).loanAmount == 0.0
                  || !Before(AddMonths(Last(Yielded(loan, index)).endDate, 1), ScheduleEnd(loan)))
    ensures 1.0 + MonthlyRate(loan) >= 0.0 && PaymentsOf(loan, index).failure.None? ==>
              && 0 < |Yielded(loan, index)| <= loan.months
              && Last(Yielded(loan, index)).loanAmount == 0.0
  {
    var t, st := Setup(loan, index), Init(loan);
    assert t.endDate == ScheduleEnd(loan);
    assert PaymentsOf(loan, index) == RunFrom(t, st) && Yielded(loan, index) == Emitted(t, st);
    PaymentsStopAtPayoff(t, st);
    if 1.0 + MonthlyRate(loan) >= 0.0 {
      LoanPaysOffByTerm(loan, index);
    }
  }

  /**
   * Whatever the repayments, `payments(loan, index)` pays the loan off by its term:
   * when it raises nothing it yields between 1 and `months` payments and the last
   * leaves 0. The annuity clears the amount in `months` periods of the recurrence, and
   * repayments only lower the balance; `1 + r >= 0` keeps the recurrence monotone.
   */
  lemma LoanPaysOffByTerm(loan: Loan, index: map<Date, seq<Repayment>>)
    requires ValidLoan(loan) && 1.0 + MonthlyRate(loan) >= 0.0
    ensures PaymentsOf(loan, index).failure.None? ==>
              && 0 < |Yielded(loan, index)| <= loan.months
              && Last(Yielded(loan, index)).loanAmount == 0.0
  {
    var t, st := Setup(loan, index), Init(loan);
    assert t.monthlyRate == MonthlyRate(loan) && t.endDate == ScheduleEnd(loan);
    assert st.loanAmount == loan.amount && st.monthlyPayment == Annuity(loan);
    assert PaymentsOf(loan, index) == RunFrom(t, st) && Yielded(loan, index) == Emitted(t, st);
    assert loan.months >= 1;
    assert MonthIndex(st.periodEnd) + loan.months <= MonthIndex(t.endDate);
    AnnuityPaysOff(loan.amount, MonthlyRate(loan), loan.months);
    PaysOffFrom(t, st, loan.amount, loan.months);
  }

  /**
   * With no repayments and a budget that leaves nothing over the annuity, a loan with
   * a positive amount, rate and term is paid off by exactly `months` payments of the
   * annuity, the `j`-th leaving the balance of `j + 1` periods of the recurrence, the
   * last leaving 0, and the run raises nothing.
   */
  lemma AnnuityAloneRunsToTerm(loan: Loan)
    requires ValidLoan(loan) && loan.amount > 0.0 && loan.rate > 0.0 && loan.months >= 1
    requires loan.monthlyBudget <= Annuity(loan)
    ensures PaymentsOf(loan, map[]).failure == None
    ensures |Yielded(loan, map[])| == loan.months
    ensures forall j :: 0 <= j < loan.months ==> Yielded(loan, map[])[j].amount == Annuity(loan)
    ensures forall j :: 0 <= j < loan.months ==>
              Yielded(loan, map[])[j].loanAmount == Amortized(loan.amount, MonthlyRate(loan), Annuity(loan), j + 1)
    ensures Last(Yielded(loan, map[])).loanAmount == 0.0
  {
    var rate := MonthlyRate(loan);
    var t := Setup(loan, map[]);
    assert t.defaults == [];
    forall j | 0 < j < loan.months
      ensures Amortized(loan.amount, rate, Annuity(loan), j) > 0.0
    {
      AmortizedPositive(loan.amount, rate, loan.months, j);
    }
    AnnuityPaysOff(loan.amount, rate, loan.months);
    AmortizedRun(t, Init(loan), loan.months);
  }
}
