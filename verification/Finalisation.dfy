/**
  Closing jobs: never lost, if and only if `fail_task` fails a row and its job together and every handler that has
  marked its task runs to its end.
*/
module Finalisation {
  import opened Lifecycle
  import opened LifecycleInvariants
  import opened LifecycleSafety
  import opened Scenarios

  /** No handler of the job is between its mark and its update of the job. */
  ghost predicate HandlersDone(s: State, j: nat)
    requires Shape(s)
  {
    forall a | 0 <= a < |s.attempts| && JobOf(s, a) == j :: !s.attempts[a].phase.Finalising()
  }

  ghost predicate Finished(s: State, j: nat) {
    Seeded(s, j) && JobDone(s.rows, j)
  }

  /** A finished job is closed once its handlers have ended. */
  ghost predicate ClosingNotLost(s: State)
    requires Shape(s)
  {
    forall j: nat | Finished(s, j) && HandlersDone(s, j) :: s.jobs[j].status == JobComplete
  }

  // -------------------------------------------------------------------------
  // Row and job failed together
  // -------------------------------------------------------------------------

  ghost predicate NoneEscalating(s: State) {
    forall f | 0 <= f < |s.failures| :: s.failures[f].stage != RowFailed
  }

  /** A finished job is closed or some handler is still going to close it. */
  ghost predicate NotLost(s: State)
    requires Shape(s)
  {
    forall j: nat | Finished(s, j) && s.jobs[j].status != JobComplete :: exists a: nat :: FinaliserFor(s, j, a)
  }

  ghost predicate OpenInv(s: State) {
    Shape(s) && NoneEscalating(s) && NotLost(s)
  }

  lemma {:induction false} KeepsNoneEscalating(m: Mode, s: State, step: Step)
    requires m.atomicEscalation && Shape(s) && Enabled(m, s, step) && NoneEscalating(s)
    ensures NoneEscalating(Apply(m, s, step))
  {
    hide CreditsFor, ReceiptSum, Remaining, TierPlan;
  }

  /** A closed job whose rows are complete is never failed: it has nothing left in flight. */
  lemma {:induction false} StaysClosed(m: Guarded, s: State, step: Step, j: nat)
    requires Shape(s) && Enabled(m, s, step) && j < |s.jobs| && JobDone(s.rows, j) && NoneEscalating(s)
    ensures j < |Apply(m, s, step).jobs|
    ensures s.jobs[j].status == JobComplete ==> Apply(m, s, step).jobs[j].status == JobComplete
  {
    hide CreditsFor, ReceiptSum, Remaining, TierPlan;
  }

  lemma {:induction false} KeepsFinaliser(m: Mode, s: State, step: Step, j: nat, a: nat)
    requires m.reliableHandlers && Shape(s) && Enabled(m, s, step) && FinaliserFor(s, j, a) && Finished(s, j)
    ensures var n := Apply(m, s, step);
            && Shape(n) && j < |n.jobs|
            && (FinaliserFor(n, j, a) || n.jobs[j].status == JobComplete)
  {
    hide CreditsFor, ReceiptSum, TierPlan, JobDone, Remaining;
    JobOfAfter(m, s, step, a);
    RemainingZero(s.rows, j);
  }

  lemma {:induction false} KeepsNotLost(m: Guarded, s: State, step: Step)
    requires m.reliableHandlers && Shape(s) && Enabled(m, s, step) && NoneEscalating(s) && NotLost(s)
    ensures Shape(Apply(m, s, step)) && NotLost(Apply(m, s, step))
  {
    hide Apply, Enabled, JobDone, Shape;
    StepKeepsShape(m, s, step);
    var n := Apply(m, s, step);
    forall j: nat | Finished(n, j) && n.jobs[j].status != JobComplete
      ensures exists a: nat :: FinaliserFor(n, j, a)
    {
      if Finished(s, j) {
        StaysClosed(m, s, step, j);
        var a: nat :| FinaliserFor(s, j, a);
        KeepsFinaliser(m, s, step, j, a);
        assert FinaliserFor(n, j, a);
      } else {
        DoneByMark(m, s, step, j);
        MarkFinalises(m, s, step, j);
        assert FinaliserFor(n, j, step.a);
      }
    }
  }

  lemma {:induction false} MarkFinalises(m: Mode, s: State, step: Step, j: nat)
    requires Shape(s) && Enabled(m, s, step) && step.Mark? && JobOf(s, step.a) == j
    ensures Shape(Apply(m, s, step)) && FinaliserFor(Apply(m, s, step), j, step.a)
  {
    JobOfAfter(m, s, step, step.a);
  }

  lemma {:induction false} RunKeepsOpen(m: Guarded, s: State, steps: seq<Step>)
    requires m.atomicEscalation && m.reliableHandlers && OpenInv(s) && IsRun(m, s, steps)
    ensures OpenInv(After(m, s, steps))
    decreases |steps|
  {
    hide Apply, Enabled, NoneEscalating, NotLost;
    if steps != [] {
      KeepsNoneEscalating(m, s, steps[0]);
      KeepsNotLost(m, s, steps[0]);
      RunKeepsOpen(m, Apply(m, s, steps[0]), steps[1..]);
    }
  }

  lemma {:induction false} NoLostFinalisation(m: Guarded, s: State)
    requires m.atomicEscalation && m.reliableHandlers && Reachable(m, s)
    ensures Shape(s) && ClosingNotLost(s)
  {
    hide Apply, Enabled;
    var steps :| IsRun(m, Start(m), steps) && After(m, Start(m), steps) == s;
    RunKeepsOpen(m, Start(m), steps);
  }

  // -------------------------------------------------------------------------
  // Row and job failed by two statements
  // -------------------------------------------------------------------------

  /** The job is failed for good after its last handler has closed it. */
  lemma {:induction false} FailedAfterClose(m: Mode) returns (s: State)
    requires !m.atomicEscalation
    ensures Reachable(m, s) && Shape(s) && Finished(s, 0) && s.jobs[0].status == JobFailed
    ensures forall a | 0 <= a < |s.attempts| :: s.attempts[a].phase == Replied
  {
    hide Reachable, Apply, Enabled;
    GoneReachable(m);
    var s0 := GoneState(m);
    assert TaskOf(s0, 0) == 0;
    var s1 := MarkHeld(m, s0, 0);
    var s2 := RunTask(m, s1, 1, WORKER);
    var s3 := RunTask(m, s2, 2, WORKER);
    assert AllMarked(s3) by {
      assert |s3.rows| == 3 && |s3.attempts| == 3;
    }
    s := AnswerAndEscalate(m, s3, 3);
  }

  /** A finished job of three rows none of which has been paid for. */
  ghost predicate AllMarked(s: State) {
    && Shape(s) && Finished(s, 0) && |s.attempts| == 3
    && forall a | 0 <= a < 3 :: s.attempts[a].phase == Marked && JobOf(s, a) == 0
  }

  /** The three handlers end, and then `fail_task` gets to its second update. */
  lemma {:induction false} AnswerAndEscalate(m: Mode, s: State, f: nat) returns (n: State)
    requires Reachable(m, s) && AllMarked(s) && InStage(s, f, RowFailed) && s.rows[s.failures[f].task].job == 0
    ensures Reachable(m, n) && Shape(n) && Finished(n, 0) && n.jobs[0].status == JobFailed
    ensures forall a | 0 <= a < |n.attempts| :: n.attempts[a].phase == Replied
  {
    hide Reachable, JobDone, CreditsFor, Remaining, ReceiptSum;
    var s1 := PayAndSettle(m, s, 0);
    var s2 := PayAndSettle(m, s1, 1);
    var s3 := PayAndSettle(m, s2, 2);
    ReachableStep(m, s3, FailJob(f));
    n := Apply(m, s3, FailJob(f));
  }

  lemma {:induction false} FailedNotClosed(m: Mode) returns (s: State)
    requires !m.atomicEscalation
    ensures Reachable(m, s) && Shape(s) && !ClosingNotLost(s)
  {
    hide Reachable, JobDone, Shape;
    s := FailedAfterClose(m);
    assert Finished(s, 0) && HandlersDone(s, 0);
  }

  /** Every handler of a job has died before its update of the job. */
  lemma {:induction false} CrashedNotClosed(m: Mode) returns (s: State)
    requires !m.reliableHandlers
    ensures Reachable(m, s) && Shape(s) && |s.jobs| == 1 && Finished(s, 0) && s.jobs[0].status == JobPending
    ensures forall a | 0 <= a < |s.attempts| :: s.attempts[a].phase == Dropped
    ensures !ClosingNotLost(s)
  {
    hide Reachable;
    s := CrashedJob(m);
    assert PLAN[3..] == [];
    assert Finished(s, 0) && HandlersDone(s, 0);
  }

  /**
    Over all runs with only rows in flight failed, a job whose rows are all there and complete is closed once
    its handlers have ended if and only if failing a row for good and failing its job are one step and no handler
    dies between its mark and its answer. The code has two statements, and the second can overwrite a job that a
    late result has completed; and a handler that fails after its mark is not repeated.
  */
  lemma {:induction false} NoLostFinalisationIff(m: Guarded)
    ensures m.atomicEscalation && m.reliableHandlers <==>
            forall s: State | Reachable(m, s) :: Shape(s) && ClosingNotLost(s)
  {
    hide Reachable, ClosingNotLost;
    if m.atomicEscalation && m.reliableHandlers {
      forall s: State | Reachable(m, s)
        ensures Shape(s) && ClosingNotLost(s)
      {
        NoLostFinalisation(m, s);
      }
    } else if !m.atomicEscalation {
      var s := FailedNotClosed(m);
    } else {
      var s := CrashedNotClosed(m);
    }
  }
}
