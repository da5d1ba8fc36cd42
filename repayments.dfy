/**
 * Extra repayments of main.py: the `Repayment` record and the classification of its
 * goal (`is_debt`, `is_period`), the summing of repayments by goal, the grouping of
 * repayments by date (`group_repayments`) and the lookup of a period's repayments
 * day by day (`iter_repayments`).
 */
module Repayments {
  import opened Wrappers
  import opened Dates

  /** The enum `RepaymentGoal` (DEBT = 1, PERIOD = 2, NONE = 100). */
  datatype RepaymentGoal = Debt | Period | NoGoal

  /** `goal.name` */
  function Name(g: RepaymentGoal): string {
    match g
    case Debt => "DEBT"
    case Period => "PERIOD"
    case NoGoal => "NONE"
  }

  lemma NameInjective(a: RepaymentGoal, b: RepaymentGoal)
    ensures Name(a) == Name(b) <==> a == b
  {
  }

  /**
   * What a `Repayment.goal` holds at run time: the annotation says `RepaymentGoal`,
   * but a repayment read from the configuration carries the goal's name as a string,
   * and nothing stops any other value from getting there.
   */
  datatype GoalField = EnumGoal(goal: RepaymentGoal) | TextGoal(text: string) | OtherGoal

  datatype Repayment = Repayment(date: Date, amount: real, goal: GoalField)

  /** The exceptions the schedule can raise. */
  datatype Error =
    | InvalidGoal(goal: GoalField)       // ValueError from __is_goal_of
    | PeriodRepaymentNotImplemented      // NotImplementedError in payments

  /** `Repayment.__is_goal_of`: the goal's name is compared, whichever form it takes. */
  function IsGoalOf(field: GoalField, target: RepaymentGoal): (r: Result<bool, Error>)
    ensures r.Err? <==> field.OtherGoal?
    ensures r.Err? ==> r.error == InvalidGoal(field)
    ensures r.Ok? ==> (r.value <==> field == EnumGoal(target) || field == TextGoal(Name(target)))
  {
    match field
    case EnumGoal(g) => NameInjective(g, target); Ok(Name(g) == Name(target))
    case TextGoal(s) => Ok(s == Name(target))
    case OtherGoal => Err(InvalidGoal(field))
  }

  function IsDebt(r: Repayment): Result<bool, Error> {
    IsGoalOf(r.goal, Debt)
  }

  function IsPeriod(r: Repayment): Result<bool, Error> {
    IsGoalOf(r.goal, Period)
  }

  /** The name a goal field carries, if it is an enum member or a string. */
  function GoalName(field: GoalField): Option<string> {
    match field
    case EnumGoal(g) => Some(Name(g))
    case TextGoal(s) => Some(s)
    case OtherGoal => None
  }

  /** `is_debt` holds exactly when the goal's name is "DEBT", and fails exactly on a goal of another type. */
  lemma IsDebtByName(r: Repayment)
    ensures IsDebt(r) == Ok(true) <==> GoalName(r.goal) == Some("DEBT")
    ensures IsDebt(r) == Ok(false) <==> GoalName(r.goal).Some? && GoalName(r.goal) != Some("DEBT")
    ensures IsDebt(r).Err? <==> GoalName(r.goal) == None
  {
  }

  /** `is_period` holds exactly when the goal's name is "PERIOD", and fails exactly on a goal of another type. */
  lemma IsPeriodByName(r: Repayment)
    ensures IsPeriod(r) == Ok(true) <==> GoalName(r.goal) == Some("PERIOD")
    ensures IsPeriod(r) == Ok(false) <==> GoalName(r.goal).Some? && GoalName(r.goal) != Some("PERIOD")
    ensures IsPeriod(r).Err? <==> GoalName(r.goal) == None
  {
  }

  /** `sum(r.amount for r in repayments)` */
  function TotalAmount(repayments: seq<Repayment>): real {
    if repayments == [] then 0.0 else repayments[0].amount + TotalAmount(repayments[1..])
  }

  /** The repayments whose goal carries the name of `target`, in order. */
  function NamedAs(repayments: seq<Repayment>, target: RepaymentGoal): seq<Repayment> {
    if repayments == [] then []
    else (if GoalName(repayments[0].goal) == Some(Name(target)) then [repayments[0]] else [])
         + NamedAs(repayments[1..], target)
  }

  /**
   * `sum(r.amount for r in filter(lambda r: r.is_debt(), repayments))` (or `is_period`):
   * the filter classifies the repayments in order, so the first goal of another type
   * raises; otherwise the sum is over the repayments whose goal names `target`.
   */
  function SumByGoal(repayments: seq<Repayment>, target: RepaymentGoal): (r: Result<real, Error>)
    ensures r.Err? <==> exists i :: 0 <= i < |repayments| && repayments[i].goal.OtherGoal?
    ensures r.Err? ==> exists i :: 0 <= i < |repayments| && r.error == InvalidGoal(repayments[i].goal)
                          && repayments[i].goal.OtherGoal?
                          && forall j :: 0 <= j < i ==> !repayments[j].goal.OtherGoal?
    ensures r.Ok? ==> r.value == TotalAmount(NamedAs(repayments, target))
  {
    if repayments == [] then Ok(0.0)
    else
      match IsGoalOf(repayments[0].goal, target)
      case Err(e) => Err(e)
      case Ok(matches) =>
        match SumByGoal(repayments[1..], target)
        case Err(e) =>
          assert forall i :: 1 <= i < |repayments| ==> repayments[i] == repayments[1..][i - 1];
          Err(e)
        case Ok(rest) =>
          assert forall i :: 1 <= i < |repayments| ==> repayments[i] == repayments[1..][i - 1];
          var head := if GoalName(repayments[0].goal) == Some(Name(target)) then [repayments[0]] else [];
          assert matches <==> head != [] by {
            if repayments[0].goal.EnumGoal? { NameInjective(repayments[0].goal.goal, target); }
          }
          assert NamedAs(repayments, target) == head + NamedAs(repayments[1..], target);
          var tail := NamedAs(repayments[1..], target);
          assert head != [] ==> (head + tail)[0] == repayments[0] && (head + tail)[1..] == tail;
          assert head == [] ==> head + tail == tail;
          Ok((if matches then repayments[0].amount else 0.0) + rest)
  }

  // ---------------------------------------------------------------------------
  // group_repayments

  /** Some repayment is dated `d`. */
  predicate HasDate(repayments: seq<Repayment>, d: Date) {
    exists i :: 0 <= i < |repayments| && repayments[i].date == d
  }

  /** The repayments dated `d`, in input order. */
  function OnDate(repayments: seq<Repayment>, d: Date): seq<Repayment>
    decreases |repayments|
  {
    if repayments == [] then []
    else
      var last := repayments[|repayments| - 1];
      OnDate(repayments[..|repayments| - 1], d) + (if last.date == d then [last] else [])
  }

  /**
   * `group_repayments`: the keys are exactly the dates that occur, and each date's
   * list holds the repayments of that date in input order.
   */
  method GroupRepayments(repayments: seq<Repayment>) returns (index: map<Date, seq<Repayment>>)
    ensures forall d :: d in index <==> HasDate(repayments, d)
    ensures forall d :: d in index ==> index[d] == OnDate(repayments, d)
  {
    index := map[];
    for i := 0 to |repayments|
      invariant forall d :: d in index <==> HasDate(repayments[..i], d)
      invariant forall d :: d in index ==> index[d] == OnDate(repayments[..i], d)
      invariant forall d :: d !in index ==> OnDate(repayments[..i], d) == []
    {
      var r := repayments[i];
      assert repayments[..i + 1][..i] == repayments[..i];
      forall d ensures HasDate(repayments[..i + 1], d) <==> HasDate(repayments[..i], d) || r.date == d {
        if HasDate(repayments[..i + 1], d) {
          var k :| 0 <= k <= i && repayments[..i + 1][k].date == d;
          assert k < i ==> repayments[..i][k] == repayments[k];
        }
        if HasDate(repayments[..i], d) {
          var k :| 0 <= k < i && repayments[..i][k].date == d;
          assert repayments[..i + 1][k] == repayments[k];
        }
        assert repayments[..i + 1][i] == r;
      }
      assert forall d :: OnDate(repayments[..i + 1], d) == OnDate(repayments[..i], d) + (if r.date == d then [r] else []);
      var group := if r.date in index then index[r.date] else [];   // setdefault(date, [])
      index := index[r.date := group + [r]];                        // .append(repayment)
    }
    assert repayments[..|repayments|] == repayments;
  }

  /** The repayments of the groups for `dates`, one group after another. */
  function Flatten(dates: seq<Date>, repayments: seq<Repayment>): seq<Repayment> {
    if dates == [] then [] else OnDate(repayments, dates[0]) + Flatten(dates[1..], repayments)
  }

  /** Every repayment of a group carries the group's date. */
  lemma {:induction false} OnDateDated(repayments: seq<Repayment>, d: Date)
    ensures forall r :: r in OnDate(repayments, d) ==> r.date == d
    ensures forall r :: r in OnDate(repayments, d) ==> r in repayments
    decreases |repayments|
  {
    if repayments != [] {
      var init := repayments[..|repayments| - 1];
      OnDateDated(init, d);
      assert forall r :: r in init ==> r in repayments;
    }
  }

  lemma {:induction false} FlattenSnoc(dates: seq<Date>, repayments: seq<Repayment>, r: Repayment)
    requires forall i, j :: 0 <= i < j < |dates| ==> dates[i] != dates[j]
    ensures multiset(Flatten(dates, repayments + [r]))
            == multiset(Flatten(dates, repayments)) + (if r.date in dates then multiset{r} else multiset{})
    decreases |dates|
  {
    if dates != [] {
      assert (repayments + [r])[..|repayments + [r]| - 1] == repayments;
      FlattenSnoc(dates[1..], repayments, r);
      if dates[0] == r.date {
        assert r.date !in dates[1..] by {
          forall i | 0 <= i < |dates[1..]| ensures dates[1..][i] != r.date {
            assert dates[1..][i] == dates[i + 1];
          }
        }
      } else {
        assert r.date in dates <==> r.date in dates[1..] by {
          assert dates == [dates[0]] + dates[1..];
        }
      }
    }
  }

  /**
   * Nothing is lost or invented by grouping: the groups of all the dates that occur,
   * taken in any order without repetition, hold exactly the input repayments.
   */
  lemma {:induction false} GroupsArePermutation(dates: seq<Date>, repayments: seq<Repayment>)
    requires forall i, j :: 0 <= i < j < |dates| ==> dates[i] != dates[j]
    requires forall i :: 0 <= i < |repayments| ==> repayments[i].date in dates
    ensures multiset(Flatten(dates, repayments)) == multiset(repayments)
    decreases |repayments|
  {
    if repayments == [] {
      assert forall ds: seq<Date> {:induction ds} :: Flatten(ds, []) == [] by {
        forall ds: seq<Date> ensures Flatten(ds, []) == [] { EmptyFlatten(ds); }
      }
    } else {
      var init := repayments[..|repayments| - 1];
      var last := repayments[|repayments| - 1];
      assert repayments == init + [last];
      assert forall i :: 0 <= i < |init| ==> init[i] == repayments[i];
      GroupsArePermutation(dates, init);
      FlattenSnoc(dates, init, last);
    }
  }

  lemma {:induction false} EmptyFlatten(dates: seq<Date>)
    ensures Flatten(dates, []) == []
    decreases |dates|
  {
    if dates != [] {
      EmptyFlatten(dates[1..]);
    }
  }

  // ---------------------------------------------------------------------------
  // iter_repayments

  /** A dictionary whose keys are `datetime.date` values. */
  predicate ValidIndex(index: map<Date, seq<Repayment>>) {
    forall d :: d in index ==> ValidDate(d)
  }

  /** The number of days `range(period.days)` walks: `(end - start).days`, none when negative. */
  function DaysInRange(start: Date, end: Date): nat
    requires ValidDate(start) && ValidDate(end)
  {
    if DaysBetween(start, end) > 0 then DaysBetween(start, end) else 0
  }

  /** Some of the first `n` days from `start` is a key. */
  predicate AnyKey(index: map<Date, seq<Repayment>>, start: Date, n: nat)
    requires ValidDate(start)
  {
    exists k :: 0 <= k < n && DayAt(start, k) in index
  }

  function Stored(index: map<Date, seq<Repayment>>, d: Date): seq<Repayment> {
    if d in index then index[d] else []
  }

  /** The stored repayments of the first `n` days from `start`, day after day. */
  function Collect(index: map<Date, seq<Repayment>>, start: Date, n: nat): seq<Repayment>
    requires ValidDate(start)
    decreases n
  {
    if n == 0 then [] else Collect(index, start, n - 1) + Stored(index, DayAt(start, n - 1))
  }

  /** What `iter_repayments(start, end, index, default)` yields. */
  function PeriodLookup(start: Date, end: Date, index: map<Date, seq<Repayment>>, default: seq<Repayment>): seq<Repayment>
    requires ValidDate(start) && ValidDate(end)
  {
    var n := DaysInRange(start, end);
    if AnyKey(index, start, n) then Collect(index, start, n) else default
  }

  /** `iter_repayments`, with the yielded repayments collected into a sequence. */
  method IterRepayments(start: Date, end: Date, index: map<Date, seq<Repayment>>, default: seq<Repayment>)
    returns (yielded: seq<Repayment>)
    requires ValidDate(start) && ValidDate(end)
    ensures yielded == PeriodLookup(start, end, index, default)
  {
    var period := DaysBetween(start, end);
    var found := false;
    yielded := [];
    var n := if period > 0 then period else 0;
    for days := 0 to n
      invariant found <==> AnyKey(index, start, days)
      invariant yielded == Collect(index, start, days)
      invariant !found ==> yielded == []
    {
      var date := DayAt(start, days);
      if date in index {
        found := true;
        yielded := yielded + index[date];
      }
    }
    if !found {
      yielded := yielded + default;
    }
  }

  /**
   * The lookup falls back to the default exactly when no key of the dictionary lies
   * in the half-open range `[start, end)`.
   */
  lemma FoundIffKeyInRange(index: map<Date, seq<Repayment>>, start: Date, end: Date)
    requires ValidDate(start) && ValidDate(end) && ValidIndex(index)
    ensures AnyKey(index, start, DaysInRange(start, end))
            <==> exists d :: d in index && !Before(d, start) && Before(d, end)
  {
    var n := DaysInRange(start, end);
    if AnyKey(index, start, n) {
      var k :| 0 <= k < n && DayAt(start, k) in index;
      var d := DayAt(start, k);
      DayAtOrdinal(start, k);
      BeforeIffOrdinal(d, start);
      BeforeIffOrdinal(d, end);
      assert !Before(d, start) && Before(d, end);
    }
    if exists d :: d in index && !Before(d, start) && Before(d, end) {
      var d :| d in index && !Before(d, start) && Before(d, end);
      DayAtReaches(start, d);
      BeforeIffOrdinal(d, end);
      assert DayAt(start, DaysBetween(start, d)) in index;
    }
  }

  /** An empty dictionary always yields the default. */
  lemma EmptyIndexYieldsDefault(start: Date, end: Date, default: seq<Repayment>)
    requires ValidDate(start) && ValidDate(end)
    ensures PeriodLookup(start, end, map[], default) == default
  {
  }

  /**
   * The yielded repayments are those stored for the dates of the range, walked in
   * ascending order and each kept in its stored order.
   */
  lemma {:induction false} CollectMembers(index: map<Date, seq<Repayment>>, start: Date, n: nat, r: Repayment)
    requires ValidDate(start)
    ensures r in Collect(index, start, n) <==> exists k :: 0 <= k < n && r in Stored(index, DayAt(start, k))
    decreases n
  {
    if n > 0 {
      CollectMembers(index, start, n - 1, r);
      var last := Stored(index, DayAt(start, n - 1));
      assert r in Collect(index, start, n) <==> r in Collect(index, start, n - 1) || r in last;
      if r in last {
        assert exists k :: 0 <= k < n && r in Stored(index, DayAt(start, k));
      }
      if exists k :: 0 <= k < n && r in Stored(index, DayAt(start, k)) {
        var k :| 0 <= k < n && r in Stored(index, DayAt(start, k));
        assert k < n - 1 || r in last;
      }
    }
  }

  /**
   * With a dictionary built by `group_repayments`, every repayment yielded from the
   * dictionary is dated inside the half-open range `[start, end)`.
   */
  lemma GroupedLookupInRange(repayments: seq<Repayment>, index: map<Date, seq<Repayment>>, start: Date, end: Date, r: Repayment)
    requires ValidDate(start) && ValidDate(end)
    requires forall d :: d in index ==> index[d] == OnDate(repayments, d)
    requires r in Collect(index, start, DaysInRange(start, end))
    ensures !Before(r.date, start) && Before(r.date, end)
    ensures r in repayments
  {
    var n := DaysInRange(start, end);
    CollectMembers(index, start, n, r);
    var k :| 0 <= k < n && r in Stored(index, DayAt(start, k));
    var d := DayAt(start, k);
    OnDateDated(repayments, d);
    DayAtOrdinal(start, k);
    BeforeIffOrdinal(d, start);
    BeforeIffOrdinal(d, end);
  }
}
