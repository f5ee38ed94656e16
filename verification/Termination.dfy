/** A measure that falls on every dispatch, result and failure. */
module Termination {
  import opened Types
  import opened Lifecycle
  import opened LifecycleInvariants
  import opened ExactlyOnce
  import opened Retries
  import opened Scenarios

  /** Retries left come first, then how far the row is from its end. */
  function Rank(row: Row): int {
    2 * (MAX_RETRIES - row.retries) +
    match row.status
    case Pending => 3
    case Dispatched => 2
    case Running => 2
    case Failed => 1
    case Complete => 0
  }

  const FULL_RANK := 9

  function Measure(rows: seq<Row>): int {
    if rows == [] then 0 else Measure(rows[..|rows| - 1]) + Rank(rows[|rows| - 1])
  }

  lemma {:induction false} MeasureUpdate(rows: seq<Row>, t: nat, row: Row)
    requires t < |rows|
    ensures Measure(rows[t := row]) == Measure(rows) - Rank(rows[t]) + Rank(row)
  {
    hide Rank;
    var last := |rows| - 1;
    var after := rows[t := row];
    if t == last {
      assert after[..last] == rows[..last];
    } else {
      assert after[..last] == rows[..last][t := row];
      MeasureUpdate(rows[..last], t, row);
    }
  }

  lemma {:induction false} MeasureAppend(rows: seq<Row>, more: seq<Row>)
    requires forall i | 0 <= i < |more| :: Rank(more[i]) == FULL_RANK
    ensures Measure(rows + more) == Measure(rows) + FULL_RANK * |more|
  {
    hide Rank;
    if more == [] {
      assert rows + more == rows;
    } else {
      var all := rows + more;
      assert all[..|all| - 1] == rows + more[..|more| - 1];
      MeasureAppend(rows, more[..|more| - 1]);
    }
  }

  lemma {:induction false} MeasureNonNegative(rows: seq<Row>)
    requires forall t | 0 <= t < |rows| :: rows[t].retries <= MAX_RETRIES
    ensures Measure(rows) >= 0
  {
    if rows != [] { MeasureNonNegative(rows[..|rows| - 1]); }
  }

  /** A dispatch, a failure, or the result of a task that is not complete yet. */
  ghost predicate Effective(s: State, step: Step)
    requires Shape(s)
  {
    || step.Claim?
    || step.FailRow?
    || (step.Mark? && step.a < |s.attempts| && s.rows[TaskOf(s, step.a)].status != Complete)
  }

  /** The one row a step may change. */
  function Touched(s: State, step: Step): nat
    requires Shape(s) && (step.Mark? ==> step.a < |s.attempts|) && (step.FailRow? ==> step.f < |s.failures|)
  {
    match step
    case Claim(t) => t
    case FailRow(f) => s.failures[f].task
    case Mark(a) => TaskOf(s, a)
    case _ => 0
  }

  lemma {:induction false} RowsStep(m: Mode, s: State, step: Step)
    requires Shape(s) && Enabled(m, s, step)
    ensures var rows, t := Apply(m, s, step).rows, Touched(s, step);
            if step.Seed? || step.Insert? then |s.rows| <= |rows| && rows == s.rows + rows[|s.rows|..]
            else if step.Claim? || step.FailRow? || step.Mark? then t < |s.rows| && t < |rows|
                && rows == s.rows[t := rows[t]]
            else rows == s.rows
  {
    hide CreditsFor, Remaining, ReceiptSum, TierPlan;
  }

  lemma {:induction false} RankStep(m: Guarded, s: State, step: Step)
    requires Shape(s) && Enabled(m, s, step) && (step.Claim? || step.FailRow? || step.Mark?)
    ensures var n, t := Apply(m, s, step), Touched(s, step);
            && t < |s.rows| && t < |n.rows|
            && var fall := Rank(s.rows[t]) - Rank(n.rows[t]); if Effective(s, step) then 1 <= fall <= 3 else fall == 0
  {
    hide CreditsFor, Remaining, ReceiptSum, TierPlan;
  }

  /** The measure falls, by at most three, on every effective step and stays on every other, new rows apart. */
  lemma {:induction false} MeasureFalls(m: Guarded, s: State, step: Step)
    requires Shape(s) && Enabled(m, s, step)
    ensures var n := Apply(m, s, step);
            var fall := Measure(s.rows) + FULL_RANK * (|n.rows| - |s.rows|) - Measure(n.rows);
            && |s.rows| <= |n.rows|
            && (if Effective(s, step) then 1 <= fall <= 3 else fall == 0)
            && (step.Seed? || step.Insert? || |n.rows| == |s.rows|)
  {
    RowsStep(m, s, step);
    SeedNotEffective(s, step);
    var n := Apply(m, s, step);
    if step.Seed? || step.Insert? {
      AddedRows(m, s, step);
    } else if step.Claim? || step.FailRow? || step.Mark? {
      hide Apply, Enabled, Effective;
      RankStep(m, s, step);
      var t := Touched(s, step);
      MeasureUpdate(s.rows, t, n.rows[t]);
    }
  }

  lemma {:induction false} AddedRows(m: Mode, s: State, step: Step)
    requires Shape(s) && Enabled(m, s, step) && (step.Seed? || step.Insert?)
    ensures var n := Apply(m, s, step);
            |s.rows| <= |n.rows| && Measure(n.rows) == Measure(s.rows) + FULL_RANK * (|n.rows| - |s.rows|)
  {
    RowsStep(m, s, step);
    hide Apply, Enabled;
    var n := Apply(m, s, step);
    forall i | 0 <= i < |n.rows[|s.rows|..]|
      ensures Rank(n.rows[|s.rows|..][i]) == FULL_RANK
    {
      NewRows(m, s, step, |s.rows| + i);
    }
    MeasureAppend(s.rows, n.rows[|s.rows|..]);
  }

  /** With handlers serialised every mark is effective. */
  lemma {:induction false} MarksEffective(m: Guarded, s: State, a: nat)
    requires m.serialised && Reachable(m, s) && InPhase(s, a, Loaded)
    ensures Shape(s) && Effective(s, Mark(a))
  {
    ReachableOnce(m, s);
    assert LoadedFor(s, a, TaskOf(s, a));
  }

  ghost function EffectiveSteps(m: Mode, s: State, steps: seq<Step>): nat
    requires Shape(s) && IsRun(m, s, steps)
    decreases |steps|
  {
    if steps == [] then 0
    else
      StepKeepsShape(m, s, steps[0]);
      EffectiveSteps(m, Apply(m, s, steps[0]), steps[1..]) + if Effective(s, steps[0]) then 1 else 0
  }

  /** Every effective step takes between one and three off the measure. */
  lemma {:induction false} EffectiveStepsCounted(m: Guarded, s: State, steps: seq<Step>)
    requires Shape(s) && IsRun(m, s, steps)
    ensures var n, count := After(m, s, steps), EffectiveSteps(m, s, steps);
            var fall := Measure(s.rows) + FULL_RANK * (|n.rows| - |s.rows|) - Measure(n.rows);
            |s.rows| <= |n.rows| && count <= fall <= 3 * count
    decreases |steps|
  {
    hide Apply, Enabled, Measure, Effective, Shape;
    if steps != [] {
      StepKeepsShape(m, s, steps[0]);
      MeasureFalls(m, s, steps[0]);
      EffectiveStepsCounted(m, Apply(m, s, steps[0]), steps[1..]);
    }
  }

  lemma {:induction false} SeedNotEffective(s: State, step: Step)
    requires Shape(s)
    ensures step.Seed? || step.Insert? ==> !Effective(s, step)
  {
  }

  ghost predicate Settles(m: Mode, steps: seq<Step>)
    requires IsRun(m, Start(m), steps)
  {
    EffectiveSteps(m, Start(m), steps) <= FULL_RANK * |After(m, Start(m), steps).rows|
  }

  lemma {:induction false} RunSettles(m: Guarded, steps: seq<Step>)
    requires m.serialisedRetry && IsRun(m, Start(m), steps)
    ensures Settles(m, steps)
  {
    EffectiveStepsCounted(m, Start(m), steps);
    var n := After(m, Start(m), steps);
    assert Reachable(m, n) by { assert Leads(m, Start(m), n); }
    RetryBound(m, n);
    MeasureNonNegative(n.rows);
  }

  /** Calls of `fail_task` that overlap keep one row going for as many steps as there are calls. */
  lemma {:induction false} UnsettledRun(m: Guarded) returns (steps: seq<Step>)
    requires !m.serialisedRetry
    ensures IsRun(m, Start(m), steps) && !Settles(m, steps)
  {
    var s := RetriesUnbounded(m, 60);
    steps :| IsRun(m, Start(m), steps) && After(m, Start(m), steps) == s;
    EffectiveStepsCounted(m, Start(m), steps);
    LowMeasure(s.rows);
  }

  lemma {:induction false} LowMeasure(rows: seq<Row>)
    requires |rows| == 3 && rows[0].retries == 60 && rows[1] == PLAN[1] && rows[2] == PLAN[2]
    ensures Measure(rows) <= -90
  {
    assert rows[..2][..1] == rows[..1] && rows[..2][1] == rows[1] && rows[..1][0] == rows[0] && rows[..1][..0] == [];
    assert Measure(rows) == Measure(rows[..2]) + Rank(rows[2]);
    assert Measure(rows[..2]) == Measure(rows[..2][..1]) + Rank(rows[..2][1]);
    assert Measure(rows[..1]) == Measure(rows[..1][..0]) + Rank(rows[..1][0]);
  }

  /**
    Every run makes at most nine effective steps per sub-task ever created, so that dispatch, failure and
    retry come to an end, if and only if calls of `fail_task` for one row do not overlap.
  */
  lemma {:induction false} RunsSettleIff(m: Guarded)
    ensures m.serialisedRetry <==> forall steps | IsRun(m, Start(m), steps) :: Settles(m, steps)
  {
    hide Settles, IsRun;
    if m.serialisedRetry {
      forall steps | IsRun(m, Start(m), steps)
        ensures Settles(m, steps)
      {
        RunSettles(m, steps);
      }
    } else {
      var steps := UnsettledRun(m);
    }
  }
}
