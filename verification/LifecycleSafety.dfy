/** What holds in every reachable state; most of it needs that only rows in flight are failed. */
module LifecycleSafety {
  import opened Types
  import opened Lifecycle
  import opened LifecycleInvariants

  lemma {:induction false} ReachableBase(m: Mode, s: State)
    requires Reachable(m, s)
    ensures BaseInv(s)
  {
    var steps :| IsRun(m, Start(m), steps) && After(m, Start(m), steps) == s;
    RunKeepsBase(m, Start(m), steps);
  }

  lemma {:induction false} ReachableInv(m: Guarded, s: State)
    requires Reachable(m, s)
    ensures Inv(s)
  {
    var steps :| IsRun(m, Start(m), steps) && After(m, Start(m), steps) == s;
    RunKeepsInv(m, Start(m), steps);
  }

  lemma {:induction false} InitReachable(m: Mode)
    ensures Shape(Start(m)) && Reachable(m, Start(m))
  {
    LeadsNowhere(m, Start(m));
  }

  lemma {:induction false} LeadsNowhere(m: Mode, s: State)
    requires Shape(s)
    ensures Leads(m, s, s)
  {
    assert IsRun(m, s, []) && After(m, s, []) == s;
  }

  lemma {:induction false} LeadsStep(m: Mode, s: State, n: State, step: Step)
    requires Shape(s) && Shape(n) && Leads(m, s, n) && Enabled(m, n, step)
    ensures Shape(Apply(m, n, step)) && Leads(m, s, Apply(m, n, step))
  {
    hide Enabled, Apply, Shape;
    var steps :| IsRun(m, s, steps) && After(m, s, steps) == n;
    StepKeepsShape(m, n, step);
    RunSnoc(m, s, steps, step);
  }

  /** One more step from a reachable state. */
  lemma {:induction false} ReachableStep(m: Mode, s: State, step: Step)
    requires Shape(s) && Reachable(m, s) && Enabled(m, s, step)
    ensures Shape(Apply(m, s, step)) && Reachable(m, Apply(m, s, step))
  {
    hide Enabled, Apply;
    LeadsStep(m, Start(m), s, step);
  }

  lemma {:induction false} RunSnoc(m: Mode, s: State, steps: seq<Step>, step: Step)
    requires Shape(s) && IsRun(m, s, steps) && Enabled(m, After(m, s, steps), step)
    ensures IsRun(m, s, steps + [step])
    ensures After(m, s, steps + [step]) == Apply(m, After(m, s, steps), step)
    decreases |steps|
  {
    hide Enabled, Apply, Shape;
    var all := steps + [step];
    if steps == [] {
      assert all == [step] && all[1..] == [];
      StepKeepsShape(m, s, step);
    } else {
      assert all[0] == steps[0] && all[1..] == steps[1..] + [step];
      StepKeepsShape(m, s, steps[0]);
      RunSnoc(m, Apply(m, s, steps[0]), steps[1..], step);
    }
  }

  /** Whatever was ever on the stream has every lower position of its job complete, whatever happened since. */
  lemma {:induction false} PositionBarrier(m: Guarded, s: State, e: nat, d: nat)
    requires Reachable(m, s) && e < |s.stream| && d < |s.rows|
    requires s.stream[e] < |s.rows| && s.rows[d].job == s.rows[s.stream[e]].job
        && s.rows[d].position < s.rows[s.stream[e]].position
    ensures s.rows[d].status == Complete
  {
    ReachableInv(m, s);
    assert Started(s, s.stream[e]);
    assert LowerComplete(s.rows, s.stream[e]);
  }

  // -------------------------------------------------------------------------
  // Claims, ACKs and finalisation
  // -------------------------------------------------------------------------

  /** The step is `fail_task`'s update of row `t`. */
  predicate FailsRow(s: State, step: Step, t: nat) {
    step.FailRow? && step.f < |s.failures| && s.failures[step.f].task == t
  }

  ghost predicate NeverFails(m: Mode, s: State, steps: seq<Step>, t: nat)
    requires Shape(s) && IsRun(m, s, steps)
    decreases |steps|
  {
    steps == [] ||
    (StepKeepsShape(m, s, steps[0]);
     !FailsRow(s, steps[0], t) && NeverFails(m, Apply(m, s, steps[0]), steps[1..], t))
  }

  lemma {:induction false} StaysClaimed(m: Mode, s: State, t: nat, step: Step)
    requires Shape(s) && Enabled(m, s, step) && t < |s.rows| && s.rows[t].status != Pending && !FailsRow(s, step, t)
    ensures step != Claim(t)
    ensures t < |Apply(m, s, step).rows| && Apply(m, s, step).rows[t].status != Pending
  {
    hide CreditsFor, Remaining, ReceiptSum, TierPlan;
  }

  /** A claimed row cannot be claimed again, by any replica, before `fail_task` hands it back. */
  lemma {:induction false} OneClaim(m: Mode, s: State, t: nat, steps: seq<Step>)
    requires Shape(s) && t < |s.rows| && s.rows[t].status != Pending
    requires IsRun(m, s, steps) && NeverFails(m, s, steps, t)
    ensures Claim(t) !in steps
    decreases |steps|
  {
    if steps != [] {
      StepKeepsShape(m, s, steps[0]);
      StaysClaimed(m, s, t, steps[0]);
      hide Shape, Enabled, Apply, FailsRow;
      OneClaim(m, Apply(m, s, steps[0]), t, steps[1..]);
    }
  }

  /** An acknowledged entry's task is complete. */
  lemma {:induction false} AckOnlyComplete(m: Guarded, s: State, e: nat)
    requires Reachable(m, s) && e in s.acked
    ensures e < |s.stream| && s.stream[e] < |s.rows| && s.rows[s.stream[e]].status == Complete
  {
    ReachableInv(m, s);
  }

  lemma {:induction false} NeverClosedEarly(m: Guarded, s: State, j: nat)
    requires m.atomicSeed && Reachable(m, s) && j < |s.jobs| && s.jobs[j].status == JobComplete
    ensures Seeded(s, j) && JobDone(s.rows, j)
  {
    var steps :| IsRun(m, Start(m), steps) && After(m, Start(m), steps) == s;
    RunKeepsClosing(m, Start(m), steps);
  }
}
