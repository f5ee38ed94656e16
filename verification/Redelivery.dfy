/**
  Which stream entries can still be acknowledged: a completed task's entry is lost with its last answer, and an entry
  pushed before the consumer group was created from the beginning.
*/
module Redelivery {
  import opened Wrappers
  import opened Types
  import opened Lifecycle
  import opened LifecycleInvariants
  import opened LifecycleSafety
  import opened ExactlyOnce
  import opened Progress
  import opened Scenarios

  /** An attempt that has passed the guard and can still end in an ACK. */
  predicate Live(p: Phase) {
    !p.Holding? && !p.Dropped? && !p.Acked?
  }

  ghost predicate LiveOn(s: State, e: nat, a: nat) {
    a < |s.attempts| && s.attempts[a].entry == Some(e) && Live(s.attempts[a].phase)
  }

  /** Pending in the consumer group, its task complete, and nobody on the way to acknowledging it. */
  ghost predicate Stranded(s: State, e: nat)
    requires Shape(s)
  {
    e < |s.stream| && e !in s.acked && s.rows[s.stream[e]].status == Complete && forall a: nat :: !LiveOn(s, e, a)
  }

  lemma {:induction false} LiveBefore(m: Guarded, s: State, step: Step, e: nat, a: nat)
    requires Shape(s) && Enabled(m, s, step) && Stranded(s, e)
    ensures !LiveOn(Apply(m, s, step), e, a)
  {
    hide CreditsFor, Remaining, ReceiptSum, TierPlan;
    assert !LiveOn(s, e, a);
  }

  /** Every redelivery of a stranded entry is answered "task already completed", which is not acknowledged. */
  lemma {:induction false} StaysStranded(m: Guarded, s: State, step: Step, e: nat)
    requires Shape(s) && Enabled(m, s, step) && Stranded(s, e)
    ensures Shape(Apply(m, s, step)) && Stranded(Apply(m, s, step), e)
  {
    hide CreditsFor, Remaining, ReceiptSum, TierPlan;
    StepKeepsShape(m, s, step);
    CompleteAfter(m, s, step, s.stream[e]);
    forall a: nat
      ensures !LiveOn(Apply(m, s, step), e, a)
    {
      LiveBefore(m, s, step, e, a);
    }
    if step.Ack? { assert !LiveOn(s, e, step.a); }
  }

  lemma {:induction false} StrandedForGood(m: Guarded, s: State, steps: seq<Step>, e: nat)
    requires Shape(s) && IsRun(m, s, steps) && Stranded(s, e)
    ensures Stranded(After(m, s, steps), e)
    decreases |steps|
  {
    hide Apply, Enabled, Stranded;
    if steps != [] {
      StaysStranded(m, s, steps[0], e);
      StrandedForGood(m, Apply(m, s, steps[0]), steps[1..], e);
    }
  }

  /** A worker that dies between its answer and its ACK strands the entry, unless another attempt on it is live. */
  lemma {:induction false} LostAckStrands(m: Guarded, s: State, a: nat)
    requires Reachable(m, s) && InPhase(s, a, Replied) && s.attempts[a].entry.Some?
    requires forall b: nat | LiveOn(s, s.attempts[a].entry.value, b) :: b == a
    requires s.attempts[a].entry.value !in s.acked
    ensures Shape(s) && Shape(Apply(m, s, Lose(a))) && Stranded(Apply(m, s, Lose(a)), s.attempts[a].entry.value)
  {
    hide Reachable;
    ReachableInv(m, s);
    StepKeepsShape(m, s, Lose(a));
    var n, e := Apply(m, s, Lose(a)), s.attempts[a].entry.value;
    assert EntryInGroup(s, s.attempts[a]);
    assert s.rows[TaskOf(s, a)].status == Complete;
    forall b: nat
      ensures !LiveOn(n, e, b)
    {
      assert b != a ==> !LiveOn(s, e, b);
    }
  }

  lemma {:induction false} DriveToAck(m: Guarded, s: State, c: State, a: nat) returns (n: State)
    requires Shape(s) && Shape(c) && From(m, s, c) && a < |c.attempts| && Live(c.attempts[a].phase)
        && c.attempts[a].entry.Some?
    ensures Leads(m, s, n) && c.attempts[a].entry.value in n.acked
  {
    hide Leads, Sound, Remaining, CreditsFor, ReceiptSum;
    n := c;
    if n.attempts[a].phase == Loaded || n.attempts[a].phase.Owing() {
      n := DriveToReceipt(m, s, n, a);
    }
    if n.attempts[a].phase != Replied {
      n := DriveToReply(m, s, n, a);
    }
    FromStep(m, s, n, Ack(a));
    n := Apply(m, n, Ack(a));
  }

  /** With handlers serialised at most one attempt holds the guard of a task; the worker may give it up. */
  lemma {:induction false} FreeGuard(m: Guarded, s: State, t: nat) returns (n: State)
    requires Reachable(m, s) && Shape(s)
    ensures From(m, s, n) && Shape(n)
    ensures n.rows == s.rows && n.stream == s.stream && n.acked == s.acked && n.group == s.group
    ensures m.serialised ==> !TaskBusy(n, t)
  {
    hide Reachable, Leads, Sound;
    ReachableSound(m, s);
    LeadsNowhere(m, s);
    n := s;
    if m.serialised {
      ReachableOnce(m, s);
      if b: nat :| LoadedFor(s, b, t) {
        FromStep(m, s, s, Abandon(b));
        n := Apply(m, s, Abandon(b));
        assert forall c | 0 <= c < |n.attempts| && n.attempts[c].phase == Loaded && TaskOf(n, c) == t ::
            LoadedFor(s, c, t);
      } else {
        assert forall c | 0 <= c < |s.attempts| && s.attempts[c].phase == Loaded && TaskOf(s, c) == t ::
            LoadedFor(s, c, t);
      }
    }
  }

  lemma {:induction false} FreshAck(m: Guarded, s: State, e: nat) returns (n: State)
    requires Reachable(m, s) && Shape(s) && Deliverable(s, e) && s.rows[s.stream[e]].status != Complete
    ensures Leads(m, s, n) && e in n.acked
  {
    hide Reachable, Leads, Sound, Remaining, CreditsFor, ReceiptSum;
    var t := s.stream[e];
    var c := FreeGuard(m, s, t);
    var a, step := |c.attempts|, Deliver(e, WORKER, 0, 0);
    FromStep(m, s, c, step);
    var c1 := Apply(m, c, step);
    assert TaskBusy(c1, t) ==> TaskBusy(c, t);
    FromStep(m, s, c1, Load(a));
    var c2 := Apply(m, c1, Load(a));
    n := DriveToAck(m, s, c2, a);
  }

  /** Pushed before the group's first entry, or before there is a group at all. */
  predicate Missed(s: State, e: nat) {
    e < |s.stream| && !InGroup(s, e)
  }

  lemma {:induction false} StaysMissed(m: Mode, s: State, step: Step, e: nat)
    requires Shape(s) && Enabled(m, s, step) && Missed(s, e) && e !in s.acked
    ensures Missed(Apply(m, s, step), e) && e !in Apply(m, s, step).acked
  {
    hide CreditsFor, Remaining, ReceiptSum, TierPlan;
    if step.Ack? { assert EntryInGroup(s, s.attempts[step.a]); }
  }

  lemma {:induction false} MissedForEver(m: Mode, s: State, steps: seq<Step>, e: nat)
    requires Shape(s) && IsRun(m, s, steps) && Missed(s, e) && e !in s.acked
    ensures e !in After(m, s, steps).acked
    decreases |steps|
  {
    hide Apply, Enabled, Missed;
    if steps != [] {
      StaysMissed(m, s, steps[0], e);
      StepKeepsShape(m, s, steps[0]);
      MissedForEver(m, Apply(m, s, steps[0]), steps[1..], e);
    }
  }

  /**
    An unacknowledged entry can still be acknowledged in some continuation if and only if it was pushed after the
    consumer group was created and is not stranded.
  */
  lemma {:induction false} AckableIffNotStranded(m: Guarded, s: State, e: nat)
    requires Reachable(m, s)
    requires e < |s.stream| && e !in s.acked
    ensures Shape(s)
    ensures (exists n: State | Leads(m, s, n) :: e in n.acked) <==> !Missed(s, e) && !Stranded(s, e)
  {
    hide Reachable;
    ReachableSound(m, s);
    if Missed(s, e) || Stranded(s, e) {
      forall n: State | Leads(m, s, n)
        ensures e !in n.acked
      {
        var steps :| IsRun(m, s, steps) && After(m, s, steps) == n;
        if Missed(s, e) { MissedForEver(m, s, steps, e); } else { StrandedForGood(m, s, steps, e); }
      }
    } else {
      var n: State;
      if a: nat :| LiveOn(s, e, a) {
        LeadsNowhere(m, s);
        n := DriveToAck(m, s, s, a);
      } else {
        n := FreshAck(m, s, e);
      }
    }
  }

  /** The first entry of the system can be such a one: it is pushed before the first worker starts. */
  lemma {:induction false} MissedReachable(m: Mode) returns (s: State)
    requires !m.groupFirst
    ensures Reachable(m, s) && Shape(s) && s.group.Some? && Missed(s, 0) && 0 !in s.acked
  {
    s := MissedRow(m);
  }

  /** Stranded entries exist: the only worker on a task answers it and dies before its ACK. */
  lemma {:induction false} StrandedReachable(m: Guarded) returns (s: State)
    ensures Reachable(m, s) && Shape(s) && Stranded(s, 0)
  {
    hide Reachable, Apply, Enabled, JobDone, CreditsFor;
    FullySeeded(m);
    var s0 := PartlySeeded(3);
    assert s0.rows == PLAN;
    var s1 := RunTask(m, s0, 0, WORKER);
    var s2 := PayAndSettle(m, s1, 0);
    ReplyEnablesLose(m, s2, 0);
    ReachableStep(m, s2, Lose(0));
    LostAckStrands(m, s2, 0);
    s := Apply(m, s2, Lose(0));
  }

  lemma {:induction false} ReplyEnablesLose(m: Mode, s: State, a: nat)
    requires Shape(s) && InPhase(s, a, Replied)
    ensures Enabled(m, s, Lose(a))
  {
  }
}
