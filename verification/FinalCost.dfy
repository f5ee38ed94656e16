/**
  The recorded cost of a job: right for every run if and only if finalise runs as one statement and every handler
  that has marked its task gets to it.
*/
module FinalCost {
  import opened Wrappers
  import opened Lifecycle
  import opened LifecycleInvariants
  import opened LifecycleSafety
  import opened Finalisation
  import opened Scenarios
  import opened RunCredits

  predicate CostIsSum(s: State, j: nat)
    requires j < |s.jobs|
  {
    s.jobs[j].cost == Some(ReceiptSum(s.receipts, j))
  }

  /** Once its handlers have ended, a finished job is recorded at the sum of all its receipts. */
  ghost predicate CostsRight(s: State)
    requires Shape(s)
  {
    forall j: nat | Finished(s, j) && HandlersDone(s, j) :: CostIsSum(s, j)
  }

  // -------------------------------------------------------------------------
  // Atomic finalise
  // -------------------------------------------------------------------------

  ghost predicate NoneCounted(s: State) {
    forall a | 0 <= a < |s.attempts| :: !s.attempts[a].phase.Counted? && !s.attempts[a].phase.Summed?
  }

  /** A finished job is recorded at the sum of its receipts, or some handler is still going to do so. */
  ghost predicate CostTracked(s: State)
    requires Shape(s)
  {
    forall j: nat | Finished(s, j) :: CostIsSum(s, j) || exists a: nat :: FinaliserFor(s, j, a)
  }

  lemma {:induction false} KeepsNoneCounted(m: Mode, s: State, step: Step)
    requires m.atomicFinalise && Shape(s) && Enabled(m, s, step) && NoneCounted(s)
    ensures NoneCounted(Apply(m, s, step))
  {
    hide CreditsFor, Remaining, ReceiptSum, TierPlan;
  }

  lemma {:induction false} OtherJobsReceipt(receipts: seq<Receipt>, r: Receipt, j: nat)
    ensures ReceiptSum(receipts + [r], j) == ReceiptSum(receipts, j) + if r.job == j then r.credits else 0.0
  {
    assert (receipts + [r])[..|receipts|] == receipts;
  }

  lemma {:induction false} SumAfter(m: Mode, s: State, step: Step, j: nat)
    requires Shape(s) && Enabled(m, s, step) && Shape(Apply(m, s, step))
    ensures var n := Apply(m, s, step);
            ReceiptSum(n.receipts, j) == ReceiptSum(s.receipts, j) || (step.Write? && FinaliserFor(n, j, step.a))
  {
    hide CreditsFor, Remaining, ReceiptSum, TierPlan;
    if step.Write? {
      var at, t := s.attempts[step.a], TaskOf(s, step.a);
      OtherJobsReceipt(s.receipts, Receipt(t, s.rows[t].job, at.node, at.tokensIn, at.tokensOut, at.phase.credits), j);
    }
  }

  /** A finished job's cost changes only when it is finalised, and then it is the sum of its receipts. */
  lemma {:induction false} FinishedJobAfter(m: Mode, s: State, step: Step, j: nat)
    requires m.atomicFinalise && Shape(s) && Enabled(m, s, step) && NoneCounted(s) && Finished(s, j)
    ensures j < |Apply(m, s, step).jobs|
    ensures var n := Apply(m, s, step);
            if step.Finalise? && JobOf(s, step.a) == j then CostIsSum(n, j) else n.jobs[j].cost == s.jobs[j].cost
  {
    hide CreditsFor, ReceiptSum, Remaining, TierPlan;
    RemainingZero(s.rows, j);
  }

  lemma {:induction false} StaysFinaliser(m: Mode, s: State, step: Step, j: nat, a: nat)
    requires m.atomicFinalise && m.reliableHandlers && Shape(s) && Enabled(m, s, step) && NoneCounted(s)
        && FinaliserFor(s, j, a)
    ensures Shape(Apply(m, s, step)) && (step == Finalise(a) || FinaliserFor(Apply(m, s, step), j, a))
  {
    hide CreditsFor, Remaining, ReceiptSum, TierPlan;
    JobOfAfter(m, s, step, a);
  }

  lemma {:induction false} KeepsCostTracked(m: Guarded, s: State, step: Step)
    requires m.atomicFinalise && m.reliableHandlers && Shape(s) && Enabled(m, s, step) && NoneCounted(s)
        && CostTracked(s) && Shape(Apply(m, s, step))
    ensures CostTracked(Apply(m, s, step))
  {
    var n := Apply(m, s, step);
    hide Apply, Enabled, Remaining, ReceiptSum, Shape, NoneCounted, JobDone;
    forall j: nat | Finished(n, j)
      ensures CostIsSum(n, j) || exists a: nat :: FinaliserFor(n, j, a)
    {
      if Finished(s, j) {
        FinishedJobAfter(m, s, step, j);
        SumAfter(m, s, step, j);
        if a: nat :| FinaliserFor(s, j, a) {
          StaysFinaliser(m, s, step, j, a);
        }
      } else {
        DoneByMark(m, s, step, j);
        MarkFinalises(m, s, step, j);
      }
    }
  }

  ghost predicate CostInv(s: State) {
    Inv(s) && NoneCounted(s) && CostTracked(s)
  }

  lemma {:induction false} RunKeepsCost(m: Guarded, s: State, steps: seq<Step>)
    requires m.atomicFinalise && m.reliableHandlers && CostInv(s) && IsRun(m, s, steps)
    ensures CostInv(After(m, s, steps))
    decreases |steps|
  {
    hide Apply, Enabled, NoneCounted, CostTracked;
    if steps != [] {
      StepKeepsInv(m, s, steps[0]);
      KeepsNoneCounted(m, s, steps[0]);
      KeepsCostTracked(m, s, steps[0]);
      RunKeepsCost(m, Apply(m, s, steps[0]), steps[1..]);
    }
  }

  lemma {:induction false} AtomicCost(m: Guarded, s: State)
    requires m.atomicFinalise && m.reliableHandlers && Reachable(m, s)
    ensures Shape(s) && CostsRight(s)
  {
    InitReachable(m);
    ReachableInv(m, Start(m));
    hide Apply, Enabled;
    var steps :| IsRun(m, Start(m), steps) && After(m, Start(m), steps) == s;
    RunKeepsCost(m, Start(m), steps);
    assert CostTracked(s);
  }

  // -------------------------------------------------------------------------
  // Count, sum and update as separate statements
  // -------------------------------------------------------------------------

  /** A handler pays its node and reads the total, but has not updated the job yet. */
  lemma {:induction false} PayAndSum(m: Mode, s: State, a: nat) returns (n: State)
    requires !m.atomicFinalise && Reachable(m, s) && Shape(s) && InPhase(s, a, Marked) && JobDone(s.rows, JobOf(s, a))
    ensures Reachable(m, n) && Shape(n)
    ensures n == s.(attempts := n.attempts, receipts := n.receipts)
    ensures |n.receipts| == |s.receipts| + 1 && n.receipts[..|s.receipts|] == s.receipts
    ensures n.receipts[|s.receipts|].job == JobOf(s, a) && n.receipts[|s.receipts|].credits == CreditsFor(s, a)
    ensures n.attempts == s.attempts[a := s.attempts[a].(phase := Summed(ReceiptSum(n.receipts, JobOf(s, a))))]
  {
    hide CreditsFor, Reachable, Remaining, ReceiptSum, JobDone;
    RemainingZero(s.rows, JobOf(s, a));
    ReachableStep(m, s, Credit(a));
    var s1 := Apply(m, s, Credit(a));
    ReachableStep(m, s1, Write(a));
    var s2 := Apply(m, s1, Write(a));
    ReachableStep(m, s2, Count(a));
    var s3 := Apply(m, s2, Count(a));
    ReachableStep(m, s3, Sum(a));
    n := Apply(m, s3, Sum(a));
  }

  lemma {:induction false} CloseIt(m: Mode, s: State, a: nat) returns (n: State)
    requires Reachable(m, s) && Shape(s) && a < |s.attempts| && s.attempts[a].phase.Summed?
    ensures Reachable(m, n) && Shape(n)
    ensures n == s.(attempts := s.attempts[a := s.attempts[a].(phase := Replied)], jobs := n.jobs)
        && |n.jobs| == |s.jobs|
    ensures n.jobs[JobOf(s, a)].cost == Some(s.attempts[a].phase.total)
    ensures forall j | 0 <= j < |s.jobs| ::
        n.jobs[j].budget == s.jobs[j].budget && n.jobs[j].unseeded == s.jobs[j].unseeded
  {
    hide CreditsFor, Reachable, Remaining, ReceiptSum;
    ReachableStep(m, s, Close(a));
    n := Apply(m, s, Close(a));
  }

  /** Two last handlers of a job: the one that sums first updates last. */
  lemma {:induction false} StaleTotal(m: Mode, s: State, a: nat, b: nat, j: nat) returns (n: State)
    requires !m.atomicFinalise && Reachable(m, s) && Shape(s) && a != b
    requires InPhase(s, a, Marked) && InPhase(s, b, Marked) && JobOf(s, a) == j && JobOf(s, b) == j
    requires Seeded(s, j) && JobDone(s.rows, j) && CreditsFor(s, b) != 0.0
    requires forall c | 0 <= c < |s.attempts| && c != a && c != b && JobOf(s, c) == j ::
        !s.attempts[c].phase.Finalising()
    ensures Reachable(m, n) && Shape(n) && !CostsRight(n)
  {
    hide CreditsFor, Reachable, Remaining, ReceiptSum, JobDone, Shape;
    var s1 := PayAndSum(m, s, a);
    SameJobs(s, s1);
    var s2 := PayAndSum(m, s1, b);
    SameJobs(s1, s2);
    var s3 := CloseIt(m, s2, b);
    SameJobs(s2, s3);
    n := CloseIt(m, s3, a);
    SameJobs(s3, n);
    var r := s2.receipts[|s1.receipts|];
    assert s2.receipts == s1.receipts + [r];
    OtherJobsReceipt(s1.receipts, r, j);
    SameCredits(s, s1, b);
    assert !CostIsSum(n, j);
    assert HandlersDone(n, j);
  }

  lemma {:induction false} SameJobs(s: State, n: State)
    requires Shape(s) && Shape(n) && n.rows == s.rows && n.stream == s.stream && |n.attempts| == |s.attempts|
    requires forall c | 0 <= c < |s.attempts| :: TaskOf(n, c) == TaskOf(s, c)
    ensures forall c | 0 <= c < |s.attempts| :: JobOf(n, c) == JobOf(s, c)
  {
  }

  lemma {:induction false} SameCredits(s: State, n: State, a: nat)
    requires Shape(s) && Shape(n) && n.rows == s.rows && n.jobs == s.jobs && n.stream == s.stream
    requires a < |s.attempts| && a < |n.attempts| && n.attempts[a] == s.attempts[a]
    ensures CreditsFor(n, a) == CreditsFor(s, a)
  {
  }

  /** One of three handlers of a finished job has ended. */
  lemma {:induction false} FirstClosed(m: Mode) returns (s: State)
    requires !m.atomicFinalise
    ensures Reachable(m, s) && Shape(s) && |s.attempts| == 3 && Seeded(s, 0) && JobDone(s.rows, 0)
    ensures s.attempts[0].phase == Replied && s.attempts[1].phase == Marked && s.attempts[2].phase == Marked
    ensures forall a | 0 <= a < 3 :: JobOf(s, a) == 0
    ensures CreditsFor(s, 2) > 0.0
  {
    hide Reachable, CreditsFor, ReceiptSum;
    var s0 := MarkedTimes(3);
    AllMarkedReachable(m);
    assert |s0.rows| == 3 && JobOf(s0, 0) == 0;
    var s1 := PayAndSum(m, s0, 0);
    s := CloseIt(m, s1, 0);
    CreditsPositive(s, 2);
  }

  lemma {:induction false} SplitCost(m: Mode) returns (n: State)
    requires !m.atomicFinalise
    ensures Reachable(m, n) && Shape(n) && !CostsRight(n)
  {
    hide Reachable, CreditsFor, ReceiptSum, CostsRight, JobDone;
    var s := FirstClosed(m);
    n := StaleTotal(m, s, 1, 2, 0);
  }

  /** A job all of whose handlers died after their marks has no cost at all. */
  lemma {:induction false} CrashedCost(m: Mode) returns (n: State)
    requires !m.reliableHandlers
    ensures Reachable(m, n) && Shape(n) && !CostsRight(n)
  {
    hide Reachable, ReceiptSum;
    n := CrashedJob(m);
    assert PLAN[3..] == [];
    assert Finished(n, 0) && HandlersDone(n, 0);
  }

  /**
    Over all runs with only rows in flight failed, the recorded cost of a finished job whose handlers have
    ended is the sum of all its receipts if and only if count, sum and update of one finalise run together and no
    handler dies between its mark and its answer. The code runs them as three statements.
  */
  lemma {:induction false} CostsRightIffAtomic(m: Guarded)
    ensures m.atomicFinalise && m.reliableHandlers <==>
            forall s: State | Reachable(m, s) :: Shape(s) && CostsRight(s)
  {
    hide Reachable, CostsRight;
    if m.atomicFinalise && m.reliableHandlers {
      forall s: State | Reachable(m, s)
        ensures Shape(s) && CostsRight(s)
      {
        AtomicCost(m, s);
      }
    } else if !m.atomicFinalise {
      var s := SplitCost(m);
    } else {
      var s := CrashedCost(m);
    }
  }

  /**
    Such a job is closed at the right cost if and only if finalising and escalating are one step each and no
    handler dies between its mark and its answer.
  */
  lemma {:induction false} ClosedAtCostIff(m: Guarded)
    ensures m.atomicFinalise && m.atomicEscalation && m.reliableHandlers <==>
            forall s: State | Reachable(m, s) :: Shape(s) && ClosingNotLost(s) && CostsRight(s)
  {
    hide Reachable, ClosingNotLost, CostsRight;
    CostsRightIffAtomic(m);
    NoLostFinalisationIff(m);
    if forall s: State | Reachable(m, s) :: Shape(s) && ClosingNotLost(s) && CostsRight(s) {
      assert forall s: State | Reachable(m, s) :: Shape(s) && ClosingNotLost(s);
      assert forall s: State | Reachable(m, s) :: Shape(s) && CostsRight(s);
    }
  }
}
