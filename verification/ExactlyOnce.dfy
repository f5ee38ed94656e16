/**
  Receipts: at most one per task, if and only if guard, validation and mark are serialised per task and only rows
  in flight are failed; exactly one per completed task, if and only if besides no handler dies after its mark.
*/
module ExactlyOnce {
  import opened Types
  import opened Lifecycle
  import opened LifecycleInvariants
  import opened LifecycleSafety
  import opened Scenarios

  predicate ReceiptFor(s: State, r: nat, t: nat) {
    r < |s.receipts| && s.receipts[r].task == t
  }

  ghost predicate OwingFor(s: State, a: nat, t: nat)
    requires Shape(s)
  {
    a < |s.attempts| && s.attempts[a].phase.Owing() && TaskOf(s, a) == t
  }

  ghost predicate LoadedFor(s: State, a: nat, t: nat)
    requires Shape(s)
  {
    a < |s.attempts| && s.attempts[a].phase == Loaded && TaskOf(s, a) == t
  }

  ghost predicate PaidOnce(s: State, t: nat) {
    exists r: nat :: ReceiptFor(s, r, t) && forall q: nat :: ReceiptFor(s, q, t) ==> q == r
  }

  /** A task nobody is about to pay has been paid exactly once if it is complete, and not at all otherwise. */
  ghost predicate ReceiptsExact(s: State)
    requires Shape(s)
  {
    forall t | 0 <= t < |s.rows| && (forall a: nat :: !OwingFor(s, a, t)) ::
      if s.rows[t].status == Complete then PaidOnce(s, t) else forall r: nat :: !ReceiptFor(s, r, t)
  }

  ghost predicate NeverTwice(s: State) {
    forall q: nat, r: nat, t: nat | ReceiptFor(s, q, t) && ReceiptFor(s, r, t) :: q == r
  }

  // -------------------------------------------------------------------------
  // Invariants of the serialised mode
  // -------------------------------------------------------------------------

  ghost predicate LoadedFresh(s: State)
    requires Shape(s)
  {
    && (forall a: nat, t: nat | LoadedFor(s, a, t) :: s.rows[t].status != Complete)
    && (forall a: nat, b: nat, t: nat | LoadedFor(s, a, t) && LoadedFor(s, b, t) :: a == b)
  }

  /** At most one receipt or owing handler for any task. */
  ghost predicate AtMostOnce(s: State)
    requires Shape(s)
  {
    && NeverTwice(s)
    && (forall a: nat, b: nat, t: nat | OwingFor(s, a, t) && OwingFor(s, b, t) :: a == b)
    && (forall a: nat, r: nat, t: nat | OwingFor(s, a, t) && ReceiptFor(s, r, t) :: false)
  }

  ghost predicate ReceiptsComplete(s: State)
    requires Shape(s)
  {
    forall r | 0 <= r < |s.receipts| :: s.rows[s.receipts[r].task].status == Complete
  }

  ghost predicate PaidOrOwing(s: State, t: nat)
    requires Shape(s)
  {
    (exists a: nat :: OwingFor(s, a, t)) || (exists r: nat :: ReceiptFor(s, r, t))
  }

  ghost predicate AtLeastOnce(s: State)
    requires Shape(s)
  {
    forall t | 0 <= t < |s.rows| && s.rows[t].status == Complete :: PaidOrOwing(s, t)
  }

  ghost predicate OnceInv(s: State) {
    && Inv(s) && LoadedFresh(s) && AtMostOnce(s) && ReceiptsComplete(s)
  }

  lemma {:induction false} LoadedBefore(m: Mode, s: State, step: Step, a: nat, t: nat)
    requires Shape(s) && Enabled(m, s, step) && Shape(Apply(m, s, step)) && LoadedFor(Apply(m, s, step), a, t)
    ensures LoadedFor(s, a, t)
        || (step == Load(a) && a < |s.attempts| && TaskOf(s, a) == t && s.rows[t].status != Complete)
  {
    hide CreditsFor, Remaining, ReceiptSum, TierPlan;
  }

  lemma {:induction false} OwingBefore(m: Mode, s: State, step: Step, a: nat, t: nat)
    requires Shape(s) && Enabled(m, s, step) && Shape(Apply(m, s, step)) && OwingFor(Apply(m, s, step), a, t)
    ensures step != Write(a)
    ensures OwingFor(s, a, t) || (step == Mark(a) && LoadedFor(s, a, t))
  {
    hide CreditsFor, Remaining, ReceiptSum, TierPlan;
  }

  lemma {:induction false} PhaseAfter(m: Mode, s: State, step: Step, a: nat)
    requires Shape(s) && Enabled(m, s, step) && a < |s.attempts| && a < |Apply(m, s, step).attempts|
    ensures var before, after := s.attempts[a].phase, Apply(m, s, step).attempts[a].phase;
            && (before.Owing() && step != Write(a) && step != Crash(a) ==> after.Owing())
            && (step == Mark(a) ==> after == Marked)
            && (step == Write(a) ==> after == Receipted)
  {
    hide CreditsFor, Remaining, ReceiptSum, TierPlan, Shape;
  }

  lemma {:induction false} AttemptAfter(m: Mode, s: State, step: Step, a: nat)
    requires Shape(s) && Enabled(m, s, step) && Shape(Apply(m, s, step)) && a < |s.attempts|
    ensures var n := Apply(m, s, step);
            && a < |n.attempts| && TaskOf(n, a) == TaskOf(s, a)
            && (s.attempts[a].phase.Owing() && step != Write(a) && step != Crash(a) ==> n.attempts[a].phase.Owing())
            && (step == Mark(a) ==> n.attempts[a].phase == Marked)
            && (step == Write(a) ==> n.attempts[a].phase == Receipted)
  {
    hide Apply, Enabled, Shape;
    TaskAfter(m, s, step, a);
    PhaseAfter(m, s, step, a);
  }

  lemma {:induction false} ReceiptsAfter(m: Mode, s: State, step: Step)
    requires Shape(s) && Enabled(m, s, step)
    ensures var n := Apply(m, s, step);
            if step.Write? then
              |n.receipts| == |s.receipts| + 1 && n.receipts[..|s.receipts|] == s.receipts
              && n.receipts[|s.receipts|].task == TaskOf(s, step.a)
            else n.receipts == s.receipts
  {
    hide CreditsFor, Remaining, ReceiptSum, TierPlan;
  }

  /** Only a mark completes a row. */
  lemma {:induction false} CompletedBy(m: Mode, s: State, step: Step, t: nat)
    requires Shape(s) && Enabled(m, s, step) && t < |Apply(m, s, step).rows|
        && Apply(m, s, step).rows[t].status == Complete
    ensures t < |s.rows| && (s.rows[t].status == Complete || (step.Mark? && TaskOf(s, step.a) == t))
  {
    hide CreditsFor, Remaining, ReceiptSum, TierPlan;
    if t >= |s.rows| { NewRows(m, s, step, t); }
  }

  lemma {:induction false} KeepsLoadedFresh(m: Guarded, s: State, step: Step)
    requires m.serialised && Shape(s) && Enabled(m, s, step) && LoadedFresh(s) && Shape(Apply(m, s, step))
    ensures LoadedFresh(Apply(m, s, step))
  {
    var n := Apply(m, s, step);
    assert step.Load? ==> forall b: nat, t: nat | LoadedFor(s, b, t) :: t != TaskOf(s, step.a);
    hide Apply, Shape;
    forall a: nat, t: nat | LoadedFor(n, a, t)
      ensures n.rows[t].status != Complete
    {
      LoadedBefore(m, s, step, a, t);
      if step.Mark? {
        AttemptAfter(m, s, step, step.a);
        assert LoadedFor(s, step.a, TaskOf(s, step.a));
      }
      if n.rows[t].status == Complete {
        CompletedBy(m, s, step, t);
      }
    }
    forall a: nat, b: nat, t: nat | LoadedFor(n, a, t) && LoadedFor(n, b, t)
      ensures a == b
    {
      LoadedBefore(m, s, step, a, t);
      LoadedBefore(m, s, step, b, t);
    }
  }

  lemma {:induction false} ReceiptBefore(m: Mode, s: State, step: Step, r: nat, t: nat)
    requires Shape(s) && Enabled(m, s, step) && ReceiptFor(Apply(m, s, step), r, t)
    ensures ReceiptFor(s, r, t) || (step.Write? && OwingFor(s, step.a, t) && r == |s.receipts|)
  {
    ReceiptsAfter(m, s, step);
    if r < |s.receipts| {
      assert Apply(m, s, step).receipts[r] == s.receipts[r];
    }
  }

  /** In a fresh task nothing has been paid and nobody owes. */
  lemma {:induction false} UnpaidBeforeMark(s: State, a: nat, t: nat)
    requires Inv(s) && LoadedFresh(s) && ReceiptsComplete(s) && LoadedFor(s, a, t)
    ensures forall r: nat :: !ReceiptFor(s, r, t)
    ensures forall b: nat :: !OwingFor(s, b, t)
  {
  }

  lemma {:induction false} KeepsAtMostOnce(m: Guarded, s: State, step: Step)
    requires OnceInv(s) && Enabled(m, s, step) && Shape(Apply(m, s, step))
    ensures AtMostOnce(Apply(m, s, step))
  {
    var n := Apply(m, s, step);
    if step.Mark? {
      UnpaidBeforeMark(s, step.a, TaskOf(s, step.a));
    }
    hide Apply, Shape, Inv, LoadedFresh, ReceiptsComplete, ReceiptFor, OwingFor, LoadedFor;
    forall q: nat, r: nat, t: nat | ReceiptFor(n, q, t) && ReceiptFor(n, r, t)
      ensures q == r
    {
      ReceiptBefore(m, s, step, q, t);
      ReceiptBefore(m, s, step, r, t);
    }
    forall a: nat, b: nat, t: nat | OwingFor(n, a, t) && OwingFor(n, b, t)
      ensures a == b
    {
      OwingBefore(m, s, step, a, t);
      OwingBefore(m, s, step, b, t);
      MarkIsFor(s, step, t);
    }
    forall a: nat, r: nat, t: nat | OwingFor(n, a, t) && ReceiptFor(n, r, t)
      ensures false
    {
      OwingBefore(m, s, step, a, t);
      ReceiptBefore(m, s, step, r, t);
      MarkIsFor(s, step, t);
    }
  }

  lemma {:induction false} MarkIsFor(s: State, step: Step, t: nat)
    requires Shape(s)
    ensures step.Mark? && LoadedFor(s, step.a, t) ==> TaskOf(s, step.a) == t
  {
  }

  lemma {:induction false} KeepsReceiptsComplete(m: Guarded, s: State, step: Step)
    requires Inv(s) && ReceiptsComplete(s) && Enabled(m, s, step) && Shape(Apply(m, s, step))
    ensures ReceiptsComplete(Apply(m, s, step))
  {
    var n := Apply(m, s, step);
    hide Apply;
    ReceiptsAfter(m, s, step);
    forall r | 0 <= r < |n.receipts|
      ensures n.rows[n.receipts[r].task].status == Complete
    {
      ReceiptBefore(m, s, step, r, n.receipts[r].task);
      CompleteAfter(m, s, step, n.receipts[r].task);
    }
  }

  lemma {:induction false} KeepsAtLeastOnce(m: Guarded, s: State, step: Step)
    requires m.reliableHandlers && Inv(s) && AtLeastOnce(s) && Enabled(m, s, step) && Shape(Apply(m, s, step))
    ensures AtLeastOnce(Apply(m, s, step))
  {
    var n := Apply(m, s, step);
    hide Apply, Inv;
    ReceiptsAfter(m, s, step);
    forall t | 0 <= t < |n.rows| && n.rows[t].status == Complete
      ensures PaidOrOwing(n, t)
    {
      CompletedBy(m, s, step, t);
      if s.rows[t].status == Complete {
        StaysPaid(m, s, step, t);
      } else {
        AttemptAfter(m, s, step, step.a);
        assert OwingFor(n, step.a, t);
      }
    }
  }

  lemma {:induction false} StaysPaid(m: Mode, s: State, step: Step, t: nat)
    requires m.reliableHandlers && Shape(s) && Enabled(m, s, step) && Shape(Apply(m, s, step)) && PaidOrOwing(s, t)
    ensures PaidOrOwing(Apply(m, s, step), t)
  {
    var n := Apply(m, s, step);
    hide Apply;
    ReceiptsAfter(m, s, step);
    if a: nat :| OwingFor(s, a, t) {
      AttemptAfter(m, s, step, a);
      if step == Write(a) {
        assert ReceiptFor(n, |s.receipts|, t);
      } else {
        assert OwingFor(n, a, t);
      }
    } else {
      var r: nat :| ReceiptFor(s, r, t);
      assert n.receipts[r] == s.receipts[r];
      assert ReceiptFor(n, r, t);
    }
  }

  lemma {:induction false} StepKeepsOnce(m: Guarded, s: State, step: Step)
    requires m.serialised && OnceInv(s) && Enabled(m, s, step)
    ensures OnceInv(Apply(m, s, step))
  {
    hide Apply, Enabled, Shape, LoadedFresh, AtMostOnce, ReceiptsComplete;
    StepKeepsInv(m, s, step);
    KeepsLoadedFresh(m, s, step);
    KeepsAtMostOnce(m, s, step);
    KeepsReceiptsComplete(m, s, step);
  }

  lemma {:induction false} RunKeepsOnce(m: Guarded, s: State, steps: seq<Step>)
    requires m.serialised && OnceInv(s) && IsRun(m, s, steps)
    ensures OnceInv(After(m, s, steps))
    decreases |steps|
  {
    hide Apply, Enabled;
    if steps != [] {
      StepKeepsOnce(m, s, steps[0]);
      RunKeepsOnce(m, Apply(m, s, steps[0]), steps[1..]);
    }
  }

  lemma {:induction false} ReachableOnce(m: Guarded, s: State)
    requires m.serialised && Reachable(m, s)
    ensures OnceInv(s)
  {
    var steps :| IsRun(m, Start(m), steps) && After(m, Start(m), steps) == s;
    RunKeepsOnce(m, Start(m), steps);
  }

  lemma {:induction false} RunKeepsPaid(m: Guarded, s: State, steps: seq<Step>)
    requires m.reliableHandlers && Inv(s) && AtLeastOnce(s) && IsRun(m, s, steps)
    ensures Shape(After(m, s, steps)) && AtLeastOnce(After(m, s, steps))
    decreases |steps|
  {
    hide Apply, Enabled, AtLeastOnce;
    if steps != [] {
      StepKeepsInv(m, s, steps[0]);
      KeepsAtLeastOnce(m, s, steps[0]);
      RunKeepsPaid(m, Apply(m, s, steps[0]), steps[1..]);
    }
  }

  lemma {:induction false} ReachablePaid(m: Guarded, s: State)
    requires m.reliableHandlers && Reachable(m, s)
    ensures Shape(s) && AtLeastOnce(s)
  {
    var steps :| IsRun(m, Start(m), steps) && After(m, Start(m), steps) == s;
    RunKeepsPaid(m, Start(m), steps);
  }

  lemma {:induction false} SerialisedPaysOnce(m: Guarded, s: State)
    requires m.serialised && m.reliableHandlers && Reachable(m, s)
    ensures Shape(s) && ReceiptsExact(s)
  {
    hide Reachable;
    ReachableOnce(m, s);
    ReachablePaid(m, s);
    forall t | 0 <= t < |s.rows| && (forall a: nat :: !OwingFor(s, a, t))
      ensures if s.rows[t].status == Complete then PaidOnce(s, t) else forall r: nat :: !ReceiptFor(s, r, t)
    {
      if s.rows[t].status == Complete {
        assert PaidOrOwing(s, t);
        var r: nat :| ReceiptFor(s, r, t);
      }
    }
  }

  // -------------------------------------------------------------------------
  // Without serialisation
  // -------------------------------------------------------------------------

  /** Two handlers of one task that have both passed the guard are both paid. */
  lemma {:induction false} BothPaid(m: Mode, s: State, a: nat, b: nat, t: nat) returns (n: State)
    requires Shape(s) && Reachable(m, s) && a != b && LoadedFor(s, a, t) && LoadedFor(s, b, t)
    ensures Reachable(m, n) && Shape(n)
    ensures exists q: nat, r: nat :: q != r && ReceiptFor(n, q, t) && ReceiptFor(n, r, t)
    ensures forall c: nat | OwingFor(n, c, t) :: OwingFor(s, c, t)
  {
    hide Shape, Enabled, Apply, Reachable, TaskOf;
    var s1 := Pay(m, s, a, t);
    n := Pay(m, s1, b, t);
    assert ReceiptFor(n, |s.receipts|, t) && ReceiptFor(n, |s.receipts| + 1, t);
  }

  /** One handler goes from its guard to its receipt while no other moves. */
  lemma {:induction false} Pay(m: Mode, s: State, a: nat, t: nat) returns (n: State)
    requires Shape(s) && Reachable(m, s) && LoadedFor(s, a, t)
    ensures Reachable(m, n) && Shape(n)
    ensures |n.receipts| == |s.receipts| + 1 && n.receipts[..|s.receipts|] == s.receipts
        && ReceiptFor(n, |s.receipts|, t)
    ensures |n.attempts| == |s.attempts| && !n.attempts[a].phase.Owing()
    ensures forall b | 0 <= b < |s.attempts| && b != a :: n.attempts[b] == s.attempts[b] && TaskOf(n, b) == TaskOf(s, b)
    ensures TaskOf(n, a) == t && n.rows[t].status == Complete
  {
    hide CreditsFor, Reachable;
    ReachableStep(m, s, Mark(a));
    var s1 := Apply(m, s, Mark(a));
    ReachableStep(m, s1, Credit(a));
    var s2 := Apply(m, s1, Credit(a));
    ReachableStep(m, s2, Write(a));
    n := Apply(m, s2, Write(a));
  }

  /** One entry in the hands of two workers: a redelivery before the first answer. */
  lemma {:induction false} TwiceDelivered(m: Mode) returns (s: State)
    ensures Reachable(m, s) && Shape(s)
    ensures |s.attempts| == 2 && s.attempts[0].phase == Holding && s.attempts[1].phase == Holding
    ensures TaskOf(s, 0) == 0 && TaskOf(s, 1) == 0 && |s.rows| > 0 && s.rows[0].status != Complete
  {
    hide Reachable;
    FullySeeded(m);
    var node, s0 := Node(Edge, 0), PartlySeeded(3);
    assert s0.rows == PLAN;
    var s1 := HandOut(m, s0, 0, node);
    ReachableStep(m, s1, Deliver(0, node, 1, 1));
    s := Apply(m, s1, Deliver(0, node, 1, 1));
  }

  lemma {:induction false} BothLoaded(m: Mode) returns (s: State)
    requires !m.serialised
    ensures Reachable(m, s) && Shape(s) && LoadedFor(s, 0, 0) && LoadedFor(s, 1, 0)
    ensures forall a: nat :: !OwingFor(s, a, 0)
  {
    hide Reachable, TierPlan, CreditsFor;
    var s0 := TwiceDelivered(m);
    ReachableStep(m, s0, Load(0));
    var s1 := Apply(m, s0, Load(0));
    ReachableStep(m, s1, Load(1));
    s := Apply(m, s1, Load(1));
  }

  lemma {:induction false} UnserialisedPaysTwice(m: Mode) returns (n: State)
    requires !m.serialised
    ensures Reachable(m, n) && Shape(n) && !NeverTwice(n) && !ReceiptsExact(n)
  {
    hide Reachable, Apply, LoadedFor, OwingFor, ReceiptFor, ReceiptsExact, Shape;
    var s := BothLoaded(m);
    n := BothPaid(m, s, 0, 1, 0);
    var q: nat, r: nat :| q != r && ReceiptFor(n, q, 0) && ReceiptFor(n, r, 0);
    if ReceiptsExact(n) {
      OneReceipt(n, 0, q, r);
    }
  }

  lemma {:induction false} OneReceipt(s: State, t: nat, q: nat, r: nat)
    requires Shape(s) && ReceiptsExact(s) && (forall a: nat :: !OwingFor(s, a, t))
    requires ReceiptFor(s, q, t) && ReceiptFor(s, r, t)
    ensures q == r
  {
    assert t < |s.rows|;
    hide OwingFor, Shape, ReceiptFor;
  }

  /** A paid task is failed and answered again. */
  lemma {:induction false} UnguardedPaysTwice(m: Mode) returns (n: State)
    requires !m.guardedFail
    ensures Reachable(m, n) && Shape(n) && !NeverTwice(n) && !ReceiptsExact(n)
  {
    hide Reachable, Apply, Enabled, OwingFor, ReceiptFor, ReceiptsExact, Shape, JobDone, CreditsFor;
    var s := PaidThenFailed(m);
    var s1 := RunTask(m, s, 0, WORKER);
    var s2 := PayAndSettle(m, s1, |s.attempts|);
    n := s2;
    TwoReceipts(n);
    if ReceiptsExact(n) {
      OneReceipt(n, 0, 0, 1);
    }
  }

  lemma {:induction false} TwoReceipts(s: State)
    requires Shape(s) && |s.receipts| == 2 && s.receipts[0].task == 0 && s.receipts[1].task == 0
    requires forall a | 0 <= a < |s.attempts| :: s.attempts[a].phase == Replied
    ensures ReceiptFor(s, 0, 0) && ReceiptFor(s, 1, 0) && forall a: nat :: !OwingFor(s, a, 0)
  {
  }

  lemma {:induction false} PaidThenFailed(m: Mode) returns (s: State)
    requires !m.guardedFail
    ensures Reachable(m, s) && Shape(s) && Eligible(s.rows, 0) && s.outbox == [] && |s.receipts| == 1
        && s.receipts[0].task == 0
    ensures |s.attempts| == 1 && s.attempts[0].phase == Replied && s.group.Some?
  {
    hide Reachable, Apply, Enabled, JobDone, CreditsFor, ReceiptSum;
    FullySeeded(m);
    var s0 := PartlySeeded(3);
    assert s0.rows == PLAN;
    var s1 := RunTask(m, s0, 0, WORKER);
    assert TaskOf(s1, 0) == 0;
    var s2 := PayAndSettle(m, s1, 0);
    assert NoneNoted(s2);
    s := FailInFlight(m, s2, 0);
  }

  /** A task whose handler died after its mark is complete and never paid for. */
  lemma {:induction false} CrashedUnpaid(m: Mode) returns (s: State)
    requires !m.reliableHandlers
    ensures Reachable(m, s) && Shape(s) && !ReceiptsExact(s)
  {
    hide Reachable;
    s := CrashedJob(m);
    assert forall a: nat :: !OwingFor(s, a, 0);
    assert !PaidOnce(s, 0);
  }

  /**
    Over every run with any number of stale claims, redeliveries and results nobody asked for, no task is paid
    twice if and only if a handler's guard and mark are not interleaved with another handler of the same task and
    only rows in flight are failed. The code does neither.
  */
  lemma {:induction false} NeverTwiceIff(m: Mode)
    ensures m.serialised && m.guardedFail <==> forall s: State | Reachable(m, s) :: NeverTwice(s)
  {
    hide Reachable;
    if m.serialised && m.guardedFail {
      forall s: State | Reachable(m, s)
        ensures NeverTwice(s)
      {
        ReachableOnce(m, s);
      }
    } else if !m.serialised {
      var s := UnserialisedPaysTwice(m);
    } else {
      var s := UnguardedPaysTwice(m);
    }
  }

  /**
    Each completed sub-task ends with exactly one receipt if and only if besides no handler dies between its mark
    and its answer: a later answer to the task is refused, so nobody makes up for it.
  */
  lemma {:induction false} ExactlyOnceIff(m: Mode)
    ensures m.serialised && m.guardedFail && m.reliableHandlers <==>
            forall s: State | Reachable(m, s) :: Shape(s) && ReceiptsExact(s)
  {
    hide Reachable;
    if m.serialised && m.guardedFail && m.reliableHandlers {
      forall s: State | Reachable(m, s)
        ensures Shape(s) && ReceiptsExact(s)
      {
        SerialisedPaysOnce(m, s);
      }
    } else if !m.serialised {
      var s := UnserialisedPaysTwice(m);
    } else if !m.guardedFail {
      var s := UnguardedPaysTwice(m);
    } else {
      var s := CrashedUnpaid(m);
    }
  }
}
