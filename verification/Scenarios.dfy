/** Short concrete runs from the empty system, as steps towards reachable states of interest. */
module Scenarios {
  import opened Wrappers
  import opened Types
  import opened Lifecycle
  import opened LifecycleInvariants
  import opened LifecycleSafety

  const PLAN: seq<Row> := [NewRow(0, Planner, 0), NewRow(0, Coder, 1), NewRow(0, Summarizer, 2)]

  /** A new node. */
  const WORKER := Node(Edge, 0)

  /** A standard job of which the first k rows are there; the consumer group reads everything, unless said otherwise. */
  function PartlySeeded(k: nat, group: Option<nat> := Some(0)): State
    requires k <= 3
  {
    State(PLAN[..k], [Job(JobPending, 1.0, None, PLAN[k..])], [], [], {}, group, [], [], [])
  }

  lemma {:induction false} InsertNext(m: Mode, k: nat, group: Option<nat>)
    requires k < 3 && (group.Some? ==> group.value == 0) && Reachable(m, PartlySeeded(k, group))
    ensures Reachable(m, PartlySeeded(k + 1, group))
  {
    hide Reachable;
    var s := PartlySeeded(k, group);
    ReachableStep(m, s, Insert(0));
    assert PLAN[k..][0] == PLAN[k] && PLAN[k..][1..] == PLAN[k + 1..] && PLAN[..k] + [PLAN[k]] == PLAN[..k + 1];
    assert Apply(m, s, Insert(0)) == PartlySeeded(k + 1, group);
  }

  /** A standard job of one credit has been inserted, nothing else has happened. */
  lemma {:induction false} SeededFrom(m: Mode, group: Option<nat>)
    requires group == None || group == Some(0)
    requires Reachable(m, INIT.(group := group))
    ensures Reachable(m, PartlySeeded(3, group))
    ensures !m.atomicSeed ==> Reachable(m, PartlySeeded(1, group))
  {
    hide Reachable;
    var s, step := INIT.(group := group), Seed(Standard, 1.0);
    ReachableStep(m, s, step);
    assert PLAN[..3] == PLAN && PLAN[3..] == [] && PLAN[..0] == [] && PLAN[0..] == PLAN;
    if m.atomicSeed {
      assert Apply(m, s, step) == PartlySeeded(3, group);
    } else {
      assert Apply(m, s, step) == PartlySeeded(0, group);
      InsertNext(m, 0, group);
      InsertNext(m, 1, group);
      InsertNext(m, 2, group);
    }
  }

  /** A worker is there from the beginning. */
  lemma {:induction false} FullySeeded(m: Mode)
    ensures Reachable(m, PartlySeeded(3))
    ensures !m.atomicSeed ==> Reachable(m, PartlySeeded(1))
  {
    hide Reachable;
    InitReachable(m);
    ReachableStep(m, Start(m), Join);
    assert Apply(m, Start(m), Join) == INIT.(group := Some(0));
    SeededFrom(m, Some(0));
  }

  /** No worker has been there yet. */
  lemma {:induction false} SeededAlone(m: Mode)
    requires !m.groupFirst
    ensures Reachable(m, PartlySeeded(3, None))
  {
    InitReachable(m);
    assert Start(m) == INIT.(group := None);
    SeededFrom(m, None);
  }

  // -------------------------------------------------------------------------
  // A sub-task and its handler
  // -------------------------------------------------------------------------

  /** A row is claimed and pushed, or its push fails. */
  lemma {:induction false} ClaimAnd(m: Mode, s: State, t: nat, pushed: bool) returns (n: State)
    requires Reachable(m, s) && Shape(s) && Eligible(s.rows, t) && s.outbox == [] && (pushed || !m.reliablePush)
    ensures Reachable(m, n) && Shape(n)
    ensures n == s.(rows := s.rows[t := s.rows[t].(status := Dispatched)],
                    stream := if pushed then s.stream + [t] else s.stream)
  {
    hide CreditsFor, Reachable, Remaining, ReceiptSum;
    ReachableStep(m, s, Claim(t));
    var s1 := Apply(m, s, Claim(t));
    var step := if pushed then Push(0) else Forget(0);
    ReachableStep(m, s1, step);
    n := Apply(m, s1, step);
  }

  /** One row is claimed, pushed and handed to a worker. */
  lemma {:induction false} HandOut(m: Mode, s: State, t: nat, node: Node) returns (n: State)
    requires Reachable(m, s) && Shape(s) && Eligible(s.rows, t) && s.outbox == [] && s.group.Some?
    ensures Reachable(m, n) && Shape(n)
    ensures n == s.(rows := s.rows[t := s.rows[t].(status := Dispatched)], stream := s.stream + [t],
                    attempts := s.attempts + [Attempt(t, Some(|s.stream|), node, 1, 1, Holding)])
  {
    hide CreditsFor, Reachable, Remaining, ReceiptSum;
    var e := |s.stream|;
    var s1 := ClaimAnd(m, s, t, true);
    ReachableStep(m, s1, Deliver(e, node, 1, 1));
    n := Apply(m, s1, Deliver(e, node, 1, 1));
  }

  /** A held entry of an unfinished row is answered, up to the mark. */
  lemma {:induction false} MarkHeld(m: Mode, s: State, a: nat) returns (n: State)
    requires Reachable(m, s) && Shape(s) && InPhase(s, a, Holding) && s.rows[TaskOf(s, a)].status != Complete
    requires forall b | 0 <= b < |s.attempts| :: s.attempts[b].phase != Loaded
    ensures Reachable(m, n) && Shape(n)
    ensures var at, t := s.attempts[a], TaskOf(s, a);
            n == To(SetRow(s, t, s.rows[t].(status := Complete, tokensIn := at.tokensIn, tokensOut := at.tokensOut)),
                a, Marked)
  {
    hide CreditsFor, Reachable, Remaining, ReceiptSum;
    ReachableStep(m, s, Load(a));
    var s1 := Apply(m, s, Load(a));
    ReachableStep(m, s1, Mark(a));
    n := Apply(m, s1, Mark(a));
  }

  /** One sub-task from its claim to its mark, nothing else moving. */
  lemma {:induction false} RunTask(m: Mode, s: State, t: nat, node: Node) returns (n: State)
    requires Reachable(m, s) && Shape(s) && Eligible(s.rows, t) && s.outbox == [] && s.group.Some?
    requires forall a | 0 <= a < |s.attempts| :: s.attempts[a].phase != Loaded
    ensures Reachable(m, n) && Shape(n)
    ensures n == s.(rows := s.rows[t := s.rows[t].(status := Complete, tokensIn := 1, tokensOut := 1)],
                    stream := s.stream + [t],
                    attempts := s.attempts + [Attempt(t, Some(|s.stream|), node, 1, 1, Marked)])
  {
    hide Reachable, Apply, Enabled;
    var s1 := HandOut(m, s, t, node);
    assert TaskOf(s1, |s.attempts|) == t;
    n := MarkHeld(m, s1, |s.attempts|);
  }

  /** A handler goes from its mark to its answer; it closes the job if every row is complete. */
  lemma {:induction false} PayAndSettle(m: Mode, s: State, a: nat) returns (n: State)
    requires Reachable(m, s) && Shape(s) && InPhase(s, a, Marked)
    ensures Reachable(m, n) && Shape(n)
    ensures |n.receipts| == |s.receipts| + 1 && n.receipts[..|s.receipts|] == s.receipts
    ensures var r := n.receipts[|s.receipts|];
            && r.task == TaskOf(s, a) && r.job == JobOf(s, a) && r.node == s.attempts[a].node
            && r.credits == CreditsFor(s, a)
    ensures var j := JobOf(s, a);
            && n == To(s, a, Replied).(receipts := n.receipts, jobs := n.jobs)
            && n.jobs == if JobDone(s.rows, j) then CloseJob(s, j, ReceiptSum(n.receipts, j)).jobs else s.jobs
  {
    hide CreditsFor, Reachable, Remaining, ReceiptSum, JobDone;
    RemainingZero(s.rows, JobOf(s, a));
    ReachableStep(m, s, Credit(a));
    var s1 := Apply(m, s, Credit(a));
    ReachableStep(m, s1, Write(a));
    var s2 := Apply(m, s1, Write(a));
    ReachableStep(m, s2, Finalise(a));
    n := Apply(m, s2, Finalise(a));
  }

  /** A row with its result stored. */
  function Answered(row: Row): Row {
    row.(status := Complete, tokensIn := 1, tokensOut := 1)
  }

  const DONE: seq<Row> := [Answered(PLAN[0]), Answered(PLAN[1]), Answered(PLAN[2])]

  const MARKED: seq<Attempt> :=
    [Attempt(0, Some(0), WORKER, 1, 1, Marked), Attempt(1, Some(1), WORKER, 1, 1, Marked),
        Attempt(2, Some(2), WORKER, 1, 1, Marked)]

  /** The first k sub-tasks of a standard job are complete and no receipt is written yet. */
  function MarkedTimes(k: nat): State
    requires k <= 3
  {
    PartlySeeded(3).(rows := DONE[..k] + PLAN[k..], stream := [0, 1, 2][..k], attempts := MARKED[..k])
  }

  lemma {:induction false} NextMarked(m: Mode, k: nat)
    requires k < 3 && Reachable(m, MarkedTimes(k)) && Shape(MarkedTimes(k))
    ensures Reachable(m, MarkedTimes(k + 1)) && Shape(MarkedTimes(k + 1))
  {
    hide Reachable, Apply, Enabled, Shape;
    var s := MarkedTimes(k);
    var n := RunTask(m, s, k, WORKER);
    assert n.rows == MarkedTimes(k + 1).rows;
    assert n.stream == [0, 1, 2][..k + 1] && n.attempts == MARKED[..k + 1];
    assert n == MarkedTimes(k + 1);
  }

  lemma {:induction false} AllMarkedReachable(m: Mode)
    ensures Reachable(m, MarkedTimes(3)) && Shape(MarkedTimes(3))
  {
    hide Reachable;
    FullySeeded(m);
    assert PLAN[3..] == [];
    assert DONE[..0] + PLAN[0..] == PLAN[..3];
    assert MarkedTimes(0) == PartlySeeded(3);
    hide Shape, MarkedTimes;
    NextMarked(m, 0);
    NextMarked(m, 1);
    NextMarked(m, 2);
  }

  /** A handler ends with an error after its mark. */
  lemma {:induction false} CrashMarked(m: Mode, s: State, a: nat) returns (n: State)
    requires !m.reliableHandlers && Reachable(m, s) && Shape(s) && InPhase(s, a, Marked)
    ensures Reachable(m, n) && Shape(n) && n == To(s, a, Dropped)
  {
    hide CreditsFor, Reachable, Remaining, ReceiptSum;
    ReachableStep(m, s, Crash(a));
    n := Apply(m, s, Crash(a));
  }

  /** All rows of a job are complete, nobody is paid and no handler is left. */
  lemma {:induction false} CrashedJob(m: Mode) returns (s: State)
    requires !m.reliableHandlers
    ensures Reachable(m, s) && Shape(s) && s.jobs == PartlySeeded(3).jobs && s.rows == DONE && s.receipts == []
    ensures forall a | 0 <= a < |s.attempts| :: s.attempts[a].phase == Dropped
  {
    hide Reachable, Apply, Enabled;
    AllMarkedReachable(m);
    assert DONE[..3] == DONE && PLAN[3..] == [] && MARKED[..3] == MARKED;
    s := CrashMarked(m, MarkedTimes(3), 0);
    s := CrashMarked(m, s, 1);
    s := CrashMarked(m, s, 2);
  }

  // -------------------------------------------------------------------------
  // Failures
  // -------------------------------------------------------------------------

  ghost predicate NoneNoted(s: State) {
    forall f | 0 <= f < |s.failures| :: s.failures[f].stage != Noted
  }

  /** The row in flight is failed: read, then update, nothing else moving. */
  lemma {:induction false} FailInFlight(m: Mode, s: State, t: nat) returns (n: State)
    requires Reachable(m, s) && Shape(s) && t < |s.rows| && NoneNoted(s)
    requires m.guardedFail ==> s.rows[t].status.InFlight()
    ensures Reachable(m, n) && Shape(n) && NoneNoted(n)
    ensures var row, r := s.rows[t], s.rows[t].retries;
            n == if r < MAX_RETRIES then
                   Retried(s, t).(failures := s.failures + [Failure(t, r, Over)])
                 else if m.atomicEscalation then
                   JobGone(RowGone(s, t), row.job).(failures := s.failures + [Failure(t, r, Over)])
                 else RowGone(s, t).(failures := s.failures + [Failure(t, r, RowFailed)])
  {
    hide CreditsFor, Reachable, Remaining, ReceiptSum;
    var f := |s.failures|;
    ReachableStep(m, s, Note(t));
    var s1 := Apply(m, s, Note(t));
    ReachableStep(m, s1, FailRow(f));
    n := Apply(m, s1, FailRow(f));
  }

  /** One dispatch that fails. */
  lemma {:induction false} FailRound(m: Mode, s: State, t: nat) returns (n: State)
    requires Reachable(m, s) && Shape(s) && Eligible(s.rows, t) && s.outbox == [] && NoneNoted(s)
        && s.rows[t].retries < MAX_RETRIES
    ensures Reachable(m, n) && Shape(n) && NoneNoted(n)
    ensures n == s.(rows := s.rows[t := s.rows[t].(retries := s.rows[t].retries + 1)], stream := s.stream + [t],
                    failures := s.failures + [Failure(t, s.rows[t].retries, Over)])
  {
    hide CreditsFor, Reachable, Remaining, ReceiptSum;
    var s1 := ClaimAnd(m, s, t, true);
    n := FailInFlight(m, s1, t);
  }

  /** One dispatch whose push fails; the row is failed all the same. */
  lemma {:induction false} ForgetRound(m: Mode, s: State, t: nat) returns (n: State)
    requires !m.reliablePush && Reachable(m, s) && Shape(s) && Eligible(s.rows, t) && s.outbox == [] && NoneNoted(s)
        && s.rows[t].retries < MAX_RETRIES
    ensures Reachable(m, n) && Shape(n) && NoneNoted(n)
    ensures n == s.(rows := s.rows[t := s.rows[t].(retries := s.rows[t].retries + 1)],
                    failures := s.failures + [Failure(t, s.rows[t].retries, Over)])
  {
    hide CreditsFor, Reachable, Remaining, ReceiptSum;
    var s1 := ClaimAnd(m, s, t, false);
    n := FailInFlight(m, s1, t);
  }

  function Tried(retries: nat, status: SubTaskStatus): seq<Row> {
    [PLAN[0].(retries := retries, status := status), PLAN[1], PLAN[2]]
  }

  function Calls(k: nat): seq<Failure>
    requires k <= 3
  {
    [Failure(0, 0, Over), Failure(0, 1, Over), Failure(0, 2, Over)][..k]
  }

  /** The first row has been dispatched and failed k times. */
  function TriedTimes(k: nat, group: Option<nat> := Some(0)): State
    requires k <= 3
  {
    PartlySeeded(3, group).(rows := Tried(k, Pending), stream := [0, 0, 0][..k], failures := Calls(k))
  }

  lemma {:induction false} NextTry(m: Mode, k: nat, group: Option<nat>)
    requires k < 3 && Reachable(m, TriedTimes(k, group)) && (group.Some? ==> group.value == 0)
    ensures Reachable(m, TriedTimes(k + 1, group))
  {
    hide Reachable, Apply, Enabled;
    var s := TriedTimes(k, group);
    assert PLAN[3..] == [];
    var n := FailRound(m, s, 0);
    assert n.rows == Tried(k + 1, Pending) && n.stream == [0, 0, 0][..k + 1] && n.failures == Calls(k + 1);
    assert n == TriedTimes(k + 1, group);
  }

  lemma {:induction false} ExhaustedFrom(m: Mode, group: Option<nat>)
    requires (group.Some? ==> group.value == 0) && Reachable(m, PartlySeeded(3, group))
    ensures Reachable(m, TriedTimes(3, group))
  {
    hide Reachable;
    assert PartlySeeded(3, group) == TriedTimes(0, group);
    NextTry(m, 0, group);
    NextTry(m, 1, group);
    NextTry(m, 2, group);
  }

  lemma {:induction false} ExhaustedReachable(m: Mode)
    ensures Reachable(m, TriedTimes(3))
  {
    hide Reachable;
    FullySeeded(m);
    ExhaustedFrom(m, Some(0));
  }

  /** The first row has been claimed k times, its push has failed each time, and so it has been failed. */
  function NeverPushed(k: nat): State
    requires k <= 3
  {
    PartlySeeded(3).(rows := Tried(k, Pending), failures := Calls(k))
  }

  lemma {:induction false} NextForgotten(m: Mode, k: nat)
    requires k < 3 && !m.reliablePush && Reachable(m, NeverPushed(k))
    ensures Reachable(m, NeverPushed(k + 1))
  {
    hide Reachable, Apply, Enabled;
    var s := NeverPushed(k);
    assert PLAN[3..] == [];
    var n := ForgetRound(m, s, 0);
    assert n.rows == Tried(k + 1, Pending) && n.failures == Calls(k + 1);
    assert n == NeverPushed(k + 1);
  }

  lemma {:induction false} NeverPushedReachable(m: Mode)
    requires !m.reliablePush
    ensures Reachable(m, NeverPushed(3))
  {
    hide Reachable;
    FullySeeded(m);
    assert PartlySeeded(3) == NeverPushed(0);
    NextForgotten(m, 0);
    NextForgotten(m, 1);
    NextForgotten(m, 2);
  }

  /** Its fourth dispatch fails too, while a worker holds the entry. */
  function GoneState(m: Mode): State {
    var last := Failure(0, 3, if m.atomicEscalation then Over else RowFailed);
    TriedTimes(3).(rows := Tried(3, Failed), stream := [0, 0, 0, 0],
        attempts := [Attempt(0, Some(3), WORKER, 1, 1, Holding)],
               jobs := [Job(if m.atomicEscalation then JobFailed else JobPending, 1.0, None, [])],
               failures := Calls(3) + [last])
  }

  lemma {:induction false} GoneReachable(m: Mode)
    ensures Reachable(m, GoneState(m)) && Shape(GoneState(m))
  {
    hide Reachable, Apply, Enabled;
    ExhaustedReachable(m);
    var s1 := HandOut(m, TriedTimes(3), 0, WORKER);
    assert s1.rows == Tried(3, Dispatched);
    assert NoneNoted(s1);
    var s2 := FailInFlight(m, s1, 0);
    assert s2.rows == Tried(3, Failed);
    assert PLAN[3..] == [] && TriedTimes(3).jobs == [Job(JobPending, 1.0, None, [])];
    assert s2.jobs == GoneState(m).jobs;
    assert s2 == GoneState(m);
  }

  /** A job that is marked failed, with one of its entries still in a worker's hands. */
  lemma {:induction false} FailedJobReachable(m: Mode) returns (s: State)
    ensures Reachable(m, s) && Shape(s) && |s.jobs| == 1 && s.jobs[0].status == JobFailed
    ensures s.rows == Tried(3, Failed) && |s.attempts| == 1 && s.attempts[0].phase == Holding && TaskOf(s, 0) == 0
  {
    hide Reachable;
    GoneReachable(m);
    s := GoneState(m);
    if !m.atomicEscalation {
      ReachableStep(m, s, FailJob(3));
      s := Apply(m, s, FailJob(3));
    }
  }

  // -------------------------------------------------------------------------
  // Closing early
  // -------------------------------------------------------------------------

  /** The only row inserted so far is finished and its handler finalises the job. */
  lemma {:induction false} ClosedEarly(m: Mode) returns (n: State)
    requires !m.atomicSeed
    ensures Reachable(m, n) && |n.jobs| == 1 && n.jobs[0].status == JobComplete && !Seeded(n, 0)
  {
    hide Reachable, Apply, Enabled;
    FullySeeded(m);
    var s := PartlySeeded(1);
    assert s.rows == [PLAN[0]] && |s.jobs[0].unseeded| == 2;
    var s1 := RunTask(m, s, 0, WORKER);
    assert TaskOf(s1, 0) == 0 && JobDone(s1.rows, 0);
    n := PayAndSettle(m, s1, 0);
  }

  /**
    Over all runs with only rows in flight failed, a job is marked complete only when all its rows are there
    and complete if and only if a job and its rows are inserted together. The code inserts them one statement
    at a time.
  */
  lemma {:induction false} NoEarlyCloseIffAtomicSeed(m: Guarded)
    ensures m.atomicSeed <==>
            forall s: State, j: nat | Reachable(m, s) && j < |s.jobs| && s.jobs[j].status == JobComplete ::
              Seeded(s, j) && JobDone(s.rows, j)
  {
    hide Reachable, JobDone;
    if m.atomicSeed {
      forall s: State, j: nat | Reachable(m, s) && j < |s.jobs| && s.jobs[j].status == JobComplete
        ensures Seeded(s, j) && JobDone(s.rows, j)
      {
        NeverClosedEarly(m, s, j);
      }
    } else {
      var n := ClosedEarly(m);
      assert !Seeded(n, 0);
    }
  }
}
