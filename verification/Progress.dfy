/** What a run can still reach: which rows can still move, and which jobs can still finish. */
module Progress {
  import opened Wrappers
  import opened Types
  import opened Lifecycle
  import opened LifecycleInvariants
  import opened LifecycleSafety
  import opened Finalisation
  import opened Retries
  import opened Scenarios

  // -------------------------------------------------------------------------
  // Some step of an unfinished job is always enabled
  // -------------------------------------------------------------------------

  predicate Unfinished(rows: seq<Row>, j: nat, t: nat) {
    t < |rows| && rows[t].job == j && rows[t].status != Complete
  }

  /** An unfinished row of the job with every lower position complete. */
  lemma {:induction false} LowestUnfinished(rows: seq<Row>, j: nat, k: nat) returns (t: nat)
    requires k <= |rows| && exists d: nat :: d < k && Unfinished(rows, j, d)
    ensures t < k && Unfinished(rows, j, t)
    ensures forall d: nat | d < k && Unfinished(rows, j, d) :: rows[t].position <= rows[d].position
  {
    if rest: nat :| rest < k - 1 && Unfinished(rows, j, rest) {
      t := LowestUnfinished(rows, j, k - 1);
      if Unfinished(rows, j, k - 1) && rows[k - 1].position < rows[t].position {
        t := k - 1;
      }
    } else {
      t := k - 1;
    }
  }

  lemma {:induction false} Lowest(rows: seq<Row>, j: nat) returns (t: nat)
    requires !JobDone(rows, j)
    ensures Unfinished(rows, j, t) && LowerComplete(rows, t)
  {
    var u: nat :| u < |rows| && rows[u].job == j && rows[u].status != Complete;
    assert Unfinished(rows, j, u);
    t := LowestUnfinished(rows, j, |rows|);
    forall d | 0 <= d < |rows| && rows[d].job == rows[t].job && rows[d].position < rows[t].position
      ensures rows[d].status == Complete
    {
      assert !Unfinished(rows, j, d);
    }
  }

  predicate Carries(s: State, e: nat, t: nat) {
    Deliverable(s, e) && s.stream[e] == t
  }

  /** Waiting to be pushed, or on the stream where some worker will see it. */
  ghost predicate Reached(s: State, t: nat) {
    t in s.outbox || exists e: nat :: Carries(s, e, t)
  }

  /** A claim, push or delivery of row t. */
  ghost predicate Moves(m: Mode, s: State, step: Step, t: nat)
    requires Shape(s)
  {
    && Enabled(m, s, step)
    && match step
       case Claim(u) => u == t
       case Push(i) => s.outbox[i] == t
       case Deliver(e, _, _, _) => s.stream[e] == t
       case _ => false
  }

  ghost predicate Movable(m: Mode, s: State, t: nat)
    requires Shape(s)
  {
    exists step: Step :: Moves(m, s, step, t)
  }

  lemma {:induction false} MovableIff(m: Mode, s: State, t: nat)
    requires Shape(s) && t < |s.rows| && LowerComplete(s.rows, t)
    ensures Movable(m, s, t) <==> s.rows[t].status == Pending || Reached(s, t)
  {
    if s.rows[t].status == Pending {
      assert Moves(m, s, Claim(t), t);
    } else if t in s.outbox {
      var i: nat :| i < |s.outbox| && s.outbox[i] == t;
      assert Moves(m, s, Push(i), t);
    } else if e: nat :| Carries(s, e, t) {
      assert Moves(m, s, Deliver(e, WORKER, 0, 0), t);
    } else {
      forall step: Step
        ensures !Moves(m, s, step, t)
      {
        assert step.Deliver? ==> !Carries(s, step.entry, t);
      }
    }
  }

  /** Some unfinished row with every lower position complete can be claimed, pushed or delivered. */
  ghost predicate JobMovable(m: Mode, s: State, j: nat)
    requires Shape(s)
  {
    exists t: nat :: Unfinished(s.rows, j, t) && LowerComplete(s.rows, t) && Movable(m, s, t)
  }

  lemma {:induction false} RunKeepsIssued(m: Guarded, s: State, steps: seq<Step>)
    requires m.reliablePush && Shape(s) && IsRun(m, s, steps) && ClaimedIssued(s)
    ensures ClaimedIssued(After(m, s, steps))
    decreases |steps|
  {
    hide Apply, Enabled, ClaimedIssued;
    if steps != [] {
      StepKeepsShape(m, s, steps[0]);
      KeepsClaimedIssued(m, s, steps[0]);
      RunKeepsIssued(m, Apply(m, s, steps[0]), steps[1..]);
    }
  }

  lemma {:induction false} GroupAfter(m: Mode, s: State, step: Step)
    requires Shape(s) && Enabled(m, s, step) && s.group.Some?
    ensures Apply(m, s, step).group == s.group
  {
    AttemptsKeepShape(m, s, step);
  }

  lemma {:induction false} RunKeepsGroup(m: Mode, s: State, steps: seq<Step>)
    requires Shape(s) && IsRun(m, s, steps) && s.group.Some?
    ensures After(m, s, steps).group == s.group
    decreases |steps|
  {
    hide Apply, Enabled, Shape;
    if steps != [] {
      GroupAfter(m, s, steps[0]);
      StepKeepsShape(m, s, steps[0]);
      RunKeepsGroup(m, Apply(m, s, steps[0]), steps[1..]);
    }
  }

  /** With the group there first and no push lost, whatever has been claimed and not finished can be delivered. */
  lemma {:induction false} NothingMissed(m: Guarded, s: State, t: nat)
    requires m.reliablePush && m.groupFirst && Reachable(m, s) && t < |s.rows|
    requires s.rows[t].status != Pending && s.rows[t].status != Complete
    ensures Reached(s, t)
  {
    ReachableInv(m, s);
    var steps :| IsRun(m, Start(m), steps) && After(m, Start(m), steps) == s;
    RunKeepsIssued(m, Start(m), steps);
    RunKeepsGroup(m, Start(m), steps);
    if t !in s.outbox {
      var e: nat :| e < |s.stream| && s.stream[e] == t;
      assert Carries(s, e, t);
    }
  }

  lemma {:induction false} NeverStuck(m: Guarded, s: State, j: nat)
    requires m.reliablePush && m.groupFirst && Reachable(m, s)
    requires !JobDone(s.rows, j)
    ensures Shape(s) && JobMovable(m, s, j)
  {
    hide Reachable, Movable;
    ReachableInv(m, s);
    var t := Lowest(s.rows, j);
    if s.rows[t].status != Pending { NothingMissed(m, s, t); }
    MovableIff(m, s, t);
  }

  /** The only row that may move is in flight, and nobody will see it. */
  lemma {:induction false} OnlyFirstStuck(m: Mode, s: State)
    requires Shape(s) && |s.rows| == 3 && s.rows[0] == PLAN[0].(status := Dispatched)
    requires s.rows[1] == PLAN[1] && s.rows[2] == PLAN[2] && !Reached(s, 0)
    ensures !JobDone(s.rows, 0) && !JobMovable(m, s, 0)
  {
    forall t: nat | Unfinished(s.rows, 0, t) && LowerComplete(s.rows, t)
      ensures !Movable(m, s, t)
    {
      assert t == 0;
      MovableIff(m, s, 0);
    }
  }

  /** The first row is pushed before any worker has been there; the group starts behind its entry. */
  lemma {:induction false} MissedRow(m: Mode) returns (s: State)
    requires !m.groupFirst
    ensures Reachable(m, s) && Shape(s) && s.group == Some(1) && s.stream == [0] && s.acked == {}
    ensures !JobDone(s.rows, 0) && !JobMovable(m, s, 0)
  {
    hide Reachable, JobMovable;
    SeededAlone(m);
    var s0 := PartlySeeded(3, None);
    assert s0.rows == PLAN;
    var s1 := ClaimAnd(m, s0, 0, true);
    ReachableStep(m, s1, Join);
    s := Apply(m, s1, Join);
    OnlyFirstStuck(m, s);
  }

  /** The first row is claimed and its push fails. */
  lemma {:induction false} ForgottenRow(m: Mode) returns (s: State)
    requires !m.reliablePush
    ensures Reachable(m, s) && Shape(s)
    ensures !JobDone(s.rows, 0) && !JobMovable(m, s, 0)
  {
    hide Reachable, JobMovable;
    FullySeeded(m);
    assert PartlySeeded(3).rows == PLAN;
    s := ClaimAnd(m, PartlySeeded(3), 0, false);
    OnlyFirstStuck(m, s);
  }

  ghost predicate AllMovable(m: Mode, s: State)
    requires Shape(s)
  {
    forall j: nat | !JobDone(s.rows, j) :: JobMovable(m, s, j)
  }

  /**
    Whatever failed or died before, an unfinished job of any reachable state has a claim, push or delivery of a row
    with every lower position complete enabled, if and only if no push is lost and the consumer group is there
    before anything is pushed. The code creates the group when the first worker starts, at the end of the stream,
    and gives up on a batch at the first failed push.
  */
  lemma {:induction false} NeverStuckIff(m: Guarded)
    ensures m.reliablePush && m.groupFirst <==> forall s: State | Reachable(m, s) :: Shape(s) && AllMovable(m, s)
  {
    hide Reachable, JobMovable, JobDone;
    if m.reliablePush && m.groupFirst {
      forall s: State | Reachable(m, s)
        ensures Shape(s) && AllMovable(m, s)
      {
        ReachableShape(m, s);
        forall j: nat | !JobDone(s.rows, j)
          ensures JobMovable(m, s, j)
        {
          NeverStuck(m, s, j);
        }
      }
    } else if !m.groupFirst {
      var s := MissedRow(m);
      assert !AllMovable(m, s);
    } else {
      var s := ForgottenRow(m);
      assert !AllMovable(m, s);
    }
  }

  lemma {:induction false} ReachableShape(m: Mode, s: State)
    requires Reachable(m, s)
    ensures Shape(s)
  {
    ReachableBase(m, s);
  }

  // -------------------------------------------------------------------------
  // Rows that nothing can complete any more
  // -------------------------------------------------------------------------

  /** A result for the row is on its way to its mark. */
  predicate HeldBy(s: State, a: nat, t: nat) {
    a < |s.attempts| && TaskOf(s, a) == t && (s.attempts[a].phase == Holding || s.attempts[a].phase == Loaded)
  }

  /** A call of `fail_task` that is going to put the row back to pending. */
  ghost predicate LowNote(s: State, f: nat, t: nat) {
    NotedAt(s, f, t) && s.failures[f].retries < MAX_RETRIES
  }

  /** A call of `fail_task`, under way or still to come, can put the row back to pending. */
  ghost predicate Revivable(s: State, t: nat)
    requires t < |s.rows|
  {
    s.rows[t].status.InFlight() && (s.rows[t].retries < MAX_RETRIES || exists f: nat :: LowNote(s, f, t))
  }

  /** Claimed and not complete, out of every worker's and every handler's sight, and beyond `fail_task`'s help. */
  ghost predicate Lost(s: State, t: nat) {
    && t < |s.rows| && s.rows[t].status != Complete && s.rows[t].status != Pending
    && !Reached(s, t) && (forall a: nat :: !HeldBy(s, a, t)) && !Revivable(s, t)
  }

  lemma {:induction false} ReachedBefore(m: Mode, s: State, step: Step, t: nat)
    requires Shape(s) && Enabled(m, s, step) && t < |s.rows| && Reached(Apply(m, s, step), t)
    ensures Reached(s, t) || s.rows[t].status == Pending
  {
    hide CreditsFor, Remaining, ReceiptSum, TierPlan;
    var n := Apply(m, s, step);
    if e: nat :| Carries(n, e, t) {
      if e < |s.stream| && s.group.Some? { assert Carries(s, e, t); }
    } else {
      QueuesAfter(m, s, step);
    }
  }

  lemma {:induction false} HeldBefore(m: Mode, s: State, step: Step, a: nat, t: nat)
    requires Shape(s) && Enabled(m, s, step) && HeldBy(Apply(m, s, step), a, t)
    ensures HeldBy(s, a, t) || step.Submit? || (step.Deliver? && Carries(s, step.entry, t))
  {
    hide CreditsFor, Remaining, ReceiptSum, TierPlan;
  }

  lemma {:induction false} LostRowAfter(m: Guarded, s: State, step: Step, t: nat)
    requires Shape(s) && Enabled(m, s, step) && Lost(s, t)
    ensures var n := Apply(m, s, step);
            && t < |n.rows| && n.rows[t].status != Complete && n.rows[t].status != Pending
            && (n.rows[t].status.InFlight() ==> s.rows[t].status.InFlight())
  {
    hide CreditsFor, Remaining, ReceiptSum, TierPlan;
    assert step.Mark? ==> !HeldBy(s, step.a, t);
    assert step.FailRow? ==> !LowNote(s, step.f, t);
  }

  lemma {:induction false} NotRevived(m: Guarded, s: State, step: Step, t: nat)
    requires Shape(s) && Enabled(m, s, step) && Lost(s, t)
    ensures var n := Apply(m, s, step); t < |n.rows| && !Revivable(n, t)
  {
    LostRowAfter(m, s, step, t);
    RetriesAfter(m, s, step, t);
    var n := Apply(m, s, step);
    hide Apply, Enabled;
    if n.rows[t].status.InFlight() {
      forall f: nat
        ensures !LowNote(n, f, t)
      {
        assert !LowNote(s, f, t);
        if LowNote(n, f, t) { NotedBefore(m, s, step, f, t); }
      }
    }
  }

  lemma {:induction false} StaysLost(m: Guarded, s: State, step: Step, t: nat)
    requires m.promptedOnly && Shape(s) && Enabled(m, s, step) && Lost(s, t)
    ensures Lost(Apply(m, s, step), t)
  {
    var n := Apply(m, s, step);
    LostRowAfter(m, s, step, t);
    NotRevived(m, s, step, t);
    if Reached(n, t) { ReachedBefore(m, s, step, t); }
    forall a: nat
      ensures !HeldBy(n, a, t)
    {
      if HeldBy(n, a, t) { HeldBefore(m, s, step, a, t); }
    }
  }

  // -------------------------------------------------------------------------
  // Continuations
  // -------------------------------------------------------------------------

  ghost predicate Sound(m: Guarded, s: State) {
    Inv(s) && (m.serialisedRetry ==> NotesCurrent(s))
  }

  /** Reached from `s`, with every invariant. */
  ghost predicate From(m: Guarded, s: State, n: State)
    requires Shape(s)
  {
    Sound(m, n) && Leads(m, s, n)
  }

  lemma {:induction false} FromStep(m: Guarded, s: State, n: State, step: Step)
    requires Shape(s) && From(m, s, n) && Enabled(m, n, step)
    ensures Shape(Apply(m, n, step)) && From(m, s, Apply(m, n, step))
  {
    hide Enabled, Apply, NotesCurrent;
    StepKeepsInv(m, n, step);
    if m.serialisedRetry { KeepsNotesCurrent(m, n, step); }
    LeadsStep(m, s, n, step);
  }

  lemma {:induction false} ReachableSound(m: Guarded, s: State)
    requires Reachable(m, s)
    ensures Sound(m, s)
  {
    hide Reachable, NotesCurrent;
    ReachableInv(m, s);
    if m.serialisedRetry { ReachableNotes(m, s); }
  }

  // -------------------------------------------------------------------------
  // Driving one handler to its reply
  // -------------------------------------------------------------------------

  predicate SamePlans(c: State, n: State) {
    |n.jobs| == |c.jobs| && forall j | 0 <= j < |c.jobs| :: n.jobs[j].unseeded == c.jobs[j].unseeded
  }

  /** What driving attempt `a` leaves alone. */
  ghost predicate Kept(c: State, n: State, a: nat)
    requires Shape(c) && Shape(n)
  {
    && a < |c.attempts|
    && n.stream == c.stream && n.acked == c.acked && n.outbox == c.outbox && n.group == c.group
    && n.failures == c.failures
    && |n.attempts| == |c.attempts| && |n.rows| == |c.rows| && SamePlans(c, n)
    && n.attempts[a].entry == c.attempts[a].entry && TaskOf(n, a) == TaskOf(c, a)
    && (forall b | 0 <= b < |c.attempts| && b != a :: n.attempts[b] == c.attempts[b])
    && (forall t | 0 <= t < |c.rows| && t != TaskOf(c, a) :: n.rows[t] == c.rows[t])
    && n.rows[TaskOf(c, a)].job == JobOf(c, a) && n.rows[TaskOf(c, a)].position == c.rows[TaskOf(c, a)].position
  }

  lemma {:induction false} KeptTrans(c: State, n: State, k: State, a: nat)
    requires Shape(c) && Shape(n) && Shape(k) && Kept(c, n, a) && Kept(n, k, a)
    ensures Kept(c, k, a)
  {
  }

  lemma {:induction false} OneDrive(m: Guarded, s: State, c: State, step: Step) returns (n: State)
    requires Shape(s) && Shape(c) && From(m, s, c) && Enabled(m, c, step)
    requires step.Mark? || step.Credit? || step.Write? || step.Finalise? || step.Sum? || step.Close?
    ensures n == Apply(m, c, step) && Shape(n) && From(m, s, n) && Kept(c, n, step.a)
  {
    hide CreditsFor, Remaining, ReceiptSum, From, TierPlan;
    n := Apply(m, c, step);
    FromStep(m, s, c, step);
  }

  lemma {:induction false} DriveToReceipt(m: Guarded, s: State, c: State, a: nat) returns (n: State)
    requires Shape(s) && Shape(c) && From(m, s, c) && a < |c.attempts|
    requires c.attempts[a].phase == Loaded || c.attempts[a].phase.Owing()
    ensures Shape(n) && From(m, s, n) && Kept(c, n, a) && n.attempts[a].phase == Receipted
    ensures c.attempts[a].phase.Owing() ==> n.rows == c.rows
    decreases if c.attempts[a].phase == Loaded then 2 else if c.attempts[a].phase == Marked then 1 else 0
  {
    hide From, CreditsFor;
    var p := c.attempts[a].phase;
    var step := if p == Loaded then Mark(a) else if p == Marked then Credit(a) else Write(a);
    n := OneDrive(m, s, c, step);
    if step != Write(a) {
      var c' := n;
      n := DriveToReceipt(m, s, c', a);
      KeptTrans(c, c', n, a);
    }
  }

  lemma {:induction false} DriveToReply(m: Guarded, s: State, c: State, a: nat) returns (n: State)
    requires Shape(s) && Shape(c) && From(m, s, c) && a < |c.attempts|
    requires c.attempts[a].phase == Receipted || c.attempts[a].phase.Counted? || c.attempts[a].phase.Summed?
    ensures Shape(n) && From(m, s, n) && Kept(c, n, a) && n.attempts[a].phase == Replied && n.rows == c.rows
    ensures JobDone(c.rows, JobOf(c, a)) && c.attempts[a].phase.Finalising() ==>
        n.jobs[JobOf(c, a)].status == JobComplete
    decreases if c.attempts[a].phase.Counted? then 1 else 0
  {
    hide From, CreditsFor, Remaining, ReceiptSum;
    RemainingZero(c.rows, JobOf(c, a));
    var p := c.attempts[a].phase;
    var step := if p == Receipted then Finalise(a) else if p.Counted? then Sum(a) else Close(a);
    n := OneDrive(m, s, c, step);
    if n.attempts[a].phase != Replied {
      var c' := n;
      n := DriveToReply(m, s, c', a);
      KeptTrans(c, c', n, a);
    }
  }

  // -------------------------------------------------------------------------
  // Finishing one row
  // -------------------------------------------------------------------------

  /** Only row t may have changed. */
  ghost predicate OnlyRow(before: seq<Row>, after: seq<Row>, t: nat) {
    && t < |before| == |after| && after[t].job == before[t].job && after[t].position == before[t].position
    && forall d | 0 <= d < |before| && d != t :: after[d] == before[d]
  }

  lemma {:induction false} OnlyRowLower(before: seq<Row>, after: seq<Row>, t: nat)
    requires OnlyRow(before, after, t) && LowerComplete(before, t)
    ensures LowerComplete(after, t)
  {
  }

  /** Only row t may have changed, and no other row has been lost. */
  ghost predicate Spares(c: State, n: State, t: nat) {
    OnlyRow(c.rows, n.rows, t) && SamePlans(c, n) && forall u: nat | u != t && Lost(n, u) :: Lost(c, u)
  }

  lemma {:induction false} SparesTrans(c: State, n: State, k: State, t: nat)
    requires Spares(c, n, t) && Spares(n, k, t)
    ensures Spares(c, k, t)
  {
    hide Lost;
  }

  /** A move of row t, or a worker that starts. */
  ghost predicate About(m: Mode, s: State, step: Step, t: nat)
    requires Shape(s) && Enabled(m, s, step)
  {
    match step
    case Claim(u) => u == t
    case Push(i) => s.outbox[i] == t
    case Join => true
    case Deliver(e, _, _, _) => s.stream[e] == t
    case Load(a) => TaskOf(s, a) == t
    case Note(u) => u == t
    case FailRow(f) => s.failures[f].task == t && s.failures[f].retries < MAX_RETRIES
    case _ => false
  }

  lemma {:induction false} StaysReached(m: Mode, s: State, step: Step, t: nat, u: nat)
    requires Shape(s) && Enabled(m, s, step) && About(m, s, step, t) && u != t && Reached(s, u)
    ensures Reached(Apply(m, s, step), u)
  {
    hide CreditsFor, Remaining, ReceiptSum, TierPlan;
    var n := Apply(m, s, step);
    if e: nat :| Carries(s, e, u) {
      assert Carries(n, e, u);
    } else if step.Push? {
      RemoveAt(s.outbox, step.i);
      assert multiset(s.outbox)[u] > 0;
    }
  }

  lemma {:induction false} StaysHeld(m: Mode, s: State, step: Step, t: nat, u: nat, a: nat)
    requires Shape(s) && Enabled(m, s, step) && About(m, s, step, t) && u != t && HeldBy(s, a, u)
    ensures HeldBy(Apply(m, s, step), a, u)
  {
    hide CreditsFor, Remaining, ReceiptSum, TierPlan;
  }

  lemma {:induction false} StaysNoted(m: Mode, s: State, step: Step, t: nat, u: nat, f: nat)
    requires Shape(s) && Enabled(m, s, step) && About(m, s, step, t) && u != t && LowNote(s, f, u)
    ensures LowNote(Apply(m, s, step), f, u)
  {
    hide CreditsFor, Remaining, ReceiptSum, TierPlan;
  }

  lemma {:induction false} AboutRow(m: Mode, s: State, step: Step, t: nat)
    requires Shape(s) && Enabled(m, s, step) && About(m, s, step, t) && t < |s.rows|
    ensures OnlyRow(s.rows, Apply(m, s, step).rows, t) && SamePlans(s, Apply(m, s, step))
    ensures s.rows[t].status != Complete && m.guardedFail ==> Apply(m, s, step).rows[t].status != Complete
  {
    hide CreditsFor, Remaining, ReceiptSum, TierPlan;
  }

  lemma {:induction false} AboutSpares(m: Guarded, s: State, step: Step, t: nat)
    requires Shape(s) && Enabled(m, s, step) && About(m, s, step, t) && t < |s.rows|
    ensures Spares(s, Apply(m, s, step), t)
  {
    var n := Apply(m, s, step);
    AboutRow(m, s, step, t);
    hide Apply, Enabled, About, Shape, Reached, HeldBy, LowNote;
    forall u: nat | u != t && Lost(n, u)
      ensures Lost(s, u)
    {
      if Reached(s, u) { StaysReached(m, s, step, t, u); }
      forall a: nat
        ensures !HeldBy(s, a, u)
      {
        if HeldBy(s, a, u) { StaysHeld(m, s, step, t, u, a); }
      }
      if f: nat :| LowNote(s, f, u) { StaysNoted(m, s, step, t, u, f); }
    }
  }

  /** One more step about row t in a continuation that began at o. */
  lemma {:induction false} Advance(m: Guarded, s: State, o: State, c: State, step: Step, t: nat) returns (n: State)
    requires Shape(s) && Shape(c) && From(m, s, c) && Spares(o, c, t)
    requires Enabled(m, c, step) && About(m, c, step, t) && c.rows[t].status != Complete
    ensures n == Apply(m, c, step) && Shape(n) && From(m, s, n) && Spares(o, n, t) && t < |n.rows|
        && n.rows[t].status != Complete
  {
    hide Enabled, Apply, From, About, Shape, Lost;
    n := Apply(m, c, step);
    FromStep(m, s, c, step);
    AboutRow(m, c, step, t);
    AboutSpares(m, c, step, t);
    SparesTrans(o, c, n, t);
  }

  /** `fail_task` puts a row in flight back to pending. */
  lemma {:induction false} ToPending(m: Guarded, s: State, o: State, c: State, t: nat) returns (n: State)
    requires Shape(s) && Shape(c) && From(m, s, c) && Spares(o, c, t) && Revivable(c, t)
    ensures Shape(n) && From(m, s, n) && Spares(o, n, t) && t < |n.rows| && n.rows[t].status == Pending
  {
    hide Leads, CreditsFor, Remaining, ReceiptSum, Spares, Inv;
    assert OnlyRow(o.rows, c.rows, t) by { SparesRow(o, c, t); }
    n := c;
    var f: nat;
    if g: nat :| LowNote(c, g, t) {
      f := g;
    } else {
      if m.serialisedRetry && RowBusy(c, t) { NotBusy(m, c, t); }
      n := Advance(m, s, o, n, Note(t), t);
      f := |c.failures|;
    }
    n := Advance(m, s, o, n, FailRow(f), t);
  }

  lemma {:induction false} SparesRow(c: State, n: State, t: nat)
    requires Spares(c, n, t)
    ensures OnlyRow(c.rows, n.rows, t)
  {
  }

  lemma {:induction false} NotBusy(m: Guarded, s: State, t: nat)
    requires Shape(s) && Sound(m, s) && t < |s.rows| && s.rows[t].retries < MAX_RETRIES
    requires m.serialisedRetry && RowBusy(s, t)
    ensures exists f: nat :: LowNote(s, f, t)
  {
    var f :| 0 <= f < |s.failures| && s.failures[f].stage == Noted && s.failures[f].task == t;
    assert NotedAt(s, f, t);
    assert LowNote(s, f, t);
  }

  /** A claimed row is pushed to where some worker will see it. */
  lemma {:induction false} ToStream(m: Guarded, s: State, o: State, c: State, t: nat) returns (n: State, e: nat)
    requires Shape(s) && Shape(c) && From(m, s, c) && Spares(o, c, t)
    requires t in c.outbox && t < |c.rows| && c.rows[t].status != Complete
    ensures Shape(n) && From(m, s, n) && Spares(o, n, t) && t < |n.rows| && n.rows[t].status != Complete
        && Carries(n, e, t)
  {
    hide From, CreditsFor, Remaining, ReceiptSum, Spares;
    n := c;
    if c.group.None? {
      n := Advance(m, s, o, n, Join, t);
    }
    var i: nat :| i < |n.outbox| && n.outbox[i] == t;
    e := |n.stream|;
    n := Advance(m, s, o, n, Push(i), t);
  }

  lemma {:induction false} ToOutbox(m: Guarded, s: State, o: State, c: State, t: nat) returns (n: State)
    requires Shape(s) && Shape(c) && From(m, s, c) && Spares(o, c, t) && LowerComplete(o.rows, t)
    requires c.rows[t].status == Pending || Revivable(c, t)
    ensures Shape(n) && From(m, s, n) && Spares(o, n, t) && t < |n.rows| && n.rows[t].status != Complete
        && t in n.outbox
  {
    hide From, CreditsFor, Remaining, ReceiptSum, Lost;
    n := c;
    if n.rows[t].status != Pending {
      n := ToPending(m, s, o, n, t);
    }
    OnlyRowLower(o.rows, n.rows, t);
    n := Advance(m, s, o, n, Claim(t), t);
  }

  /** A row that is not lost gets to a worker. */
  lemma {:induction false} ToHeld(m: Guarded, s: State, c: State, t: nat) returns (n: State, a: nat)
    requires Shape(s) && Shape(c) && From(m, s, c) && t < |c.rows| && c.rows[t].status != Complete
        && LowerComplete(c.rows, t) && !Lost(c, t)
    ensures Shape(n) && From(m, s, n) && Spares(c, n, t) && t < |n.rows| && n.rows[t].status != Complete
        && HeldBy(n, a, t)
  {
    hide From, Shape, CreditsFor, Remaining, ReceiptSum, Spares, Revivable, Deliverable;
    n := c;
    SparesNothing(c, t);
    if b: nat :| HeldBy(c, b, t) {
      a := b;
    } else {
      var e: nat;
      if d: nat :| Carries(c, d, t) {
        e := d;
      } else {
        if t !in c.outbox {
          n := ToOutbox(m, s, c, n, t);
        }
        n, e := ToStream(m, s, c, n, t);
      }
      n, a := ToWorker(m, s, c, n, e, t);
    }
  }

  lemma {:induction false} SparesNothing(c: State, t: nat)
    requires t < |c.rows|
    ensures Spares(c, c, t)
  {
  }

  lemma {:induction false} ToWorker(m: Guarded, s: State, o: State, c: State, e: nat, t: nat)
    returns (n: State, a: nat)
    requires Shape(s) && Shape(c) && From(m, s, c) && Spares(o, c, t) && Carries(c, e, t)
    requires t < |c.rows| && c.rows[t].status != Complete
    ensures Shape(n) && From(m, s, n) && Spares(o, n, t) && t < |n.rows| && n.rows[t].status != Complete
        && HeldBy(n, a, t)
  {
    hide From, CreditsFor, Remaining, ReceiptSum, Spares;
    a := |c.attempts|;
    n := Advance(m, s, o, c, Deliver(e, WORKER, 0, 0), t);
  }

  lemma {:induction false} ToLoaded(m: Guarded, s: State, o: State, c: State, t: nat, a: nat)
    returns (n: State, b: nat)
    requires Shape(s) && Shape(c) && From(m, s, c) && Spares(o, c, t) && HeldBy(c, a, t)
    requires t < |c.rows| && c.rows[t].status != Complete
    ensures Shape(n) && From(m, s, n) && Spares(o, n, t) && t < |n.rows| && n.rows[t].status != Complete
    ensures InPhase(n, b, Loaded) && TaskOf(n, b) == t
  {
    hide From, CreditsFor, Remaining, ReceiptSum, Spares;
    if d: nat :| InPhase(c, d, Loaded) && TaskOf(c, d) == t {
      n, b := c, d;
    } else {
      assert forall d | 0 <= d < |c.attempts| :: InPhase(c, d, Loaded) ==> TaskOf(c, d) != t;
      assert !TaskBusy(c, t);
      n := Advance(m, s, o, c, Load(a), t);
      b := a;
    }
  }

  lemma {:induction false} KeptSpares(c: State, n: State, a: nat)
    requires Shape(c) && Shape(n) && Kept(c, n, a)
    ensures Spares(c, n, TaskOf(c, a))
  {
    var t := TaskOf(c, a);
    forall u: nat | u != t && Lost(n, u)
      ensures Lost(c, u)
    {
      assert forall e: nat :: Carries(c, e, u) <==> Carries(n, e, u);
      assert forall b: nat :: HeldBy(c, b, u) ==> HeldBy(n, b, u);
      assert forall f: nat :: LowNote(c, f, u) <==> LowNote(n, f, u);
    }
  }

  lemma {:induction false} FinishRow(m: Guarded, s: State, c: State, t: nat) returns (n: State, a: nat)
    requires Shape(s) && Shape(c) && From(m, s, c) && t < |c.rows| && c.rows[t].status != Complete
        && LowerComplete(c.rows, t) && !Lost(c, t)
    ensures Shape(n) && From(m, s, n) && Spares(c, n, t) && t < |n.rows| && n.rows[t].status == Complete
    ensures InPhase(n, a, Receipted) && TaskOf(n, a) == t
  {
    hide From, Shape, Spares, Lost;
    var c1, b := ToHeld(m, s, c, t);
    var c2;
    c2, a := ToLoaded(m, s, c, c1, t, b);
    n := DriveToReceipt(m, s, c2, a);
    KeptSpares(c2, n, a);
    SparesTrans(c, c2, n, t);
    ReceiptedComplete(m, s, n, a);
  }

  lemma {:induction false} ReceiptedComplete(m: Guarded, s: State, n: State, a: nat)
    requires Shape(s) && Shape(n) && From(m, s, n) && InPhase(n, a, Receipted)
    ensures n.rows[TaskOf(n, a)].status == Complete
  {
  }

  // -------------------------------------------------------------------------
  // Finishing a job
  // -------------------------------------------------------------------------

  lemma {:induction false} FewerRemaining(before: seq<Row>, after: seq<Row>, t: nat, j: nat)
    requires OnlyRow(before, after, t) && Unfinished(before, j, t) && after[t].status == Complete
    ensures Remaining(after, j) < Remaining(before, j)
  {
    var last := |before| - 1;
    if t < last {
      FewerRemaining(before[..last], after[..last], t, j);
    } else {
      assert before[..last] == after[..last];
    }
  }

  ghost predicate NoneLost(s: State, j: nat) {
    forall t: nat | t < |s.rows| && s.rows[t].job == j :: !Lost(s, t)
  }

  lemma {:induction false} NoneLostAfter(c: State, n: State, t: nat, j: nat)
    requires Spares(c, n, t) && NoneLost(c, j) && n.rows[t].status == Complete
    ensures NoneLost(n, j)
  {
    forall u: nat | u < |n.rows| && n.rows[u].job == j
      ensures !Lost(n, u)
    {
      if u != t { assert n.rows[u] == c.rows[u] && !Lost(c, u); }
    }
  }

  /** All rows of an unfinished job are completed; the last one's handler has still to finalise the job. */
  lemma {:induction false} FinishRows(m: Guarded, s: State, c: State, j: nat) returns (n: State, a: nat)
    requires Shape(s) && Shape(c) && From(m, s, c) && !JobDone(c.rows, j) && NoneLost(c, j)
    ensures Shape(n) && From(m, s, n) && SamePlans(c, n) && JobDone(n.rows, j)
    ensures InPhase(n, a, Receipted) && JobOf(n, a) == j
    decreases Remaining(c.rows, j)
  {
    hide From, Shape, LowerComplete, Lost;
    var t := Lowest(c.rows, j);
    n, a := FinishRow(m, s, c, t);
    FewerRemaining(c.rows, n.rows, t, j);
    NoneLostAfter(c, n, t, j);
    if !JobDone(n.rows, j) {
      n, a := FinishRows(m, s, n, j);
    }
  }

  lemma {:induction false} InsertLosesNone(m: Guarded, c: State, j: nat)
    requires Shape(c) && Enabled(m, c, Insert(j)) && NoneLost(c, j)
    ensures NoneLost(Apply(m, c, Insert(j)), j)
  {
    hide CreditsFor, Remaining, ReceiptSum;
    var n := Apply(m, c, Insert(j));
    forall u: nat | u < |n.rows| && n.rows[u].job == j
      ensures !Lost(n, u)
    {
      if u < |c.rows| {
        assert !Lost(c, u);
        assert forall e: nat :: Carries(c, e, u) ==> Carries(n, e, u);
        assert forall b: nat :: HeldBy(c, b, u) ==> HeldBy(n, b, u);
        assert forall f: nat :: LowNote(c, f, u) ==> LowNote(n, f, u);
      }
    }
  }

  /** `submit_job` runs to its end. */
  lemma {:induction false} SeedRows(m: Guarded, s: State, c: State, j: nat) returns (n: State)
    requires Shape(s) && Shape(c) && From(m, s, c) && j < |c.jobs| && !Finished(c, j) && NoneLost(c, j)
    ensures Shape(n) && From(m, s, n) && Seeded(n, j) && !JobDone(n.rows, j) && NoneLost(n, j)
    decreases |c.jobs[j].unseeded|
  {
    hide From, Shape, NoneLost;
    n := c;
    if !Seeded(c, j) {
      FromStep(m, s, c, Insert(j));
      InsertedNotDone(m, c, Insert(j), j);
      InsertLosesNone(m, c, j);
      n := SeedRows(m, s, Apply(m, c, Insert(j)), j);
    }
  }

  predicate Closing(p: Phase) {
    p == Loaded || p.Finalising()
  }

  /** An attempt that can still bring a finished job to its end. */
  ghost predicate Closer(s: State, j: nat, a: nat)
    requires Shape(s)
  {
    a < |s.attempts| && JobOf(s, a) == j && Closing(s.attempts[a].phase)
  }

  lemma {:induction false} CloseBy(m: Guarded, s: State, c: State, j: nat, a: nat) returns (n: State)
    requires Shape(s) && Shape(c) && From(m, s, c) && Finished(c, j) && Closer(c, j, a)
    ensures From(m, s, n) && Finished(n, j) && n.jobs[j].status == JobComplete
  {
    hide From, CreditsFor, Remaining, ReceiptSum;
    n := c;
    if n.attempts[a].phase == Loaded || n.attempts[a].phase.Owing() {
      n := DriveToReceipt(m, s, n, a);
      ReceiptedComplete(m, s, n, a);
      StillDone(c, n, j, a);
    }
    n := DriveToReply(m, s, n, a);
  }

  lemma {:induction false} StillDone(c: State, n: State, j: nat, a: nat)
    requires Shape(c) && Shape(n) && Kept(c, n, a) && JobDone(c.rows, j) && n.rows[TaskOf(n, a)].status == Complete
    ensures JobDone(n.rows, j)
  {
    assert TaskOf(n, a) == TaskOf(c, a);
    forall t | 0 <= t < |n.rows| && n.rows[t].job == j
      ensures n.rows[t].status == Complete
    {
    }
  }

  /** The same system with no results but those of workers that were handed the task. */
  function Prompted(m: Mode): Mode {
    m.(promptedOnly := true)
  }

  /** Some run from here, without a result nobody asked for, completes the job and closes it. */
  ghost predicate CanFinish(m: Mode, s: State, j: nat)
    requires Shape(s)
  {
    exists n: State | Leads(Prompted(m), s, n) :: Finished(n, j) && n.jobs[j].status == JobComplete
  }

  /** All rows complete, the job not closed, and nobody left to close it. */
  ghost predicate ClosedOff(s: State, j: nat)
    requires Shape(s)
  {
    Finished(s, j) && s.jobs[j].status != JobComplete && forall a: nat :: !Closer(s, j, a)
  }

  /** The job cannot be closed, or some row of it is lost. */
  ghost predicate DeadEnd(s: State, j: nat)
    requires Shape(s)
  {
    ClosedOff(s, j) || !NoneLost(s, j)
  }

  lemma {:induction false} ClosingBefore(m: Guarded, s: State, step: Step, a: nat)
    requires Shape(s) && Enabled(m, s, step) && a < |Apply(m, s, step).attempts|
        && Closing(Apply(m, s, step).attempts[a].phase)
    ensures a < |s.attempts|
    ensures Closing(s.attempts[a].phase) || s.rows[TaskOf(s, a)].status != Complete || step == Count(a)
    ensures step == Count(a) ==> s.attempts[a].phase == Receipted
  {
    hide CreditsFor, Remaining, ReceiptSum, TierPlan;
  }

  lemma {:induction false} CloserBefore(m: Guarded, s: State, step: Step, j: nat, a: nat)
    requires Shape(s) && Enabled(m, s, step) && ClosedOff(s, j)
    ensures Shape(Apply(m, s, step)) && !Closer(Apply(m, s, step), j, a)
  {
    StepKeepsShape(m, s, step);
    var n := Apply(m, s, step);
    assert !Closer(s, j, a);
    hide Apply, Enabled;
    if Closer(n, j, a) {
      ClosingBefore(m, s, step, a);
      JobOfAfter(m, s, step, a);
    }
  }

  lemma {:induction false} StaysOpen(m: Guarded, s: State, step: Step, j: nat)
    requires Shape(s) && Enabled(m, s, step) && ClosedOff(s, j)
    ensures j < |Apply(m, s, step).jobs| && Apply(m, s, step).jobs[j].status != JobComplete
  {
    hide CreditsFor, Remaining, ReceiptSum, TierPlan, JobDone;
    assert step.Close? || step.Finalise? ==> !Closer(s, j, step.a);
  }

  lemma {:induction false} StaysClosedOff(m: Guarded, s: State, step: Step, j: nat)
    requires Shape(s) && Enabled(m, s, step) && ClosedOff(s, j)
    ensures Shape(Apply(m, s, step)) && ClosedOff(Apply(m, s, step), j)
  {
    hide Apply, Enabled, Shape, JobDone, Closer;
    StepKeepsShape(m, s, step);
    JobDoneAfter(m, s, step, j);
    StaysOpen(m, s, step, j);
    RowsKeepJobs(m, s, step);
    PlansAfter(m, s, step, j);
    NoInsertLeft(m, s, step, j);
    forall a: nat
      ensures !Closer(Apply(m, s, step), j, a)
    {
      CloserBefore(m, s, step, j, a);
    }
  }

  lemma {:induction false} NoInsertLeft(m: Mode, s: State, step: Step, j: nat)
    requires Shape(s) && Enabled(m, s, step) && Seeded(s, j)
    ensures step != Insert(j)
  {
  }

  lemma {:induction false} StaysDead(m: Guarded, s: State, step: Step, j: nat)
    requires m.promptedOnly && Shape(s) && Enabled(m, s, step) && DeadEnd(s, j)
    ensures Shape(Apply(m, s, step)) && DeadEnd(Apply(m, s, step), j)
  {
    StepKeepsShape(m, s, step);
    hide Apply, Enabled, Shape, ClosedOff, Lost;
    if ClosedOff(s, j) {
      StaysClosedOff(m, s, step, j);
    } else {
      var t: nat :| t < |s.rows| && s.rows[t].job == j && Lost(s, t);
      StaysLost(m, s, step, t);
      RowsAfter(m, s, step, t);
      assert !NoneLost(Apply(m, s, step), j);
    }
  }

  lemma {:induction false} DeadForGood(m: Guarded, s: State, steps: seq<Step>, j: nat)
    requires m.promptedOnly && Shape(s) && IsRun(m, s, steps) && DeadEnd(s, j)
    ensures DeadEnd(After(m, s, steps), j)
    decreases |steps|
  {
    hide Apply, Enabled, DeadEnd;
    if steps != [] {
      StaysDead(m, s, steps[0], j);
      DeadForGood(m, Apply(m, s, steps[0]), steps[1..], j);
    }
  }

  lemma {:induction false} DeadMeansOpen(s: State, j: nat)
    requires Shape(s) && DeadEnd(s, j)
    ensures !(Finished(s, j) && s.jobs[j].status == JobComplete)
  {
    if !NoneLost(s, j) {
      var t: nat :| t < |s.rows| && s.rows[t].job == j && Lost(s, t);
    }
  }

  lemma {:induction false} FinishFrom(m: Guarded, s: State, j: nat) returns (n: State)
    requires Sound(m, s)
    requires Shape(s) && j < |s.jobs| && !DeadEnd(s, j)
    ensures Leads(m, s, n) && Finished(n, j) && n.jobs[j].status == JobComplete
  {
    hide Leads, JobDone, NoneLost, Sound;
    LeadsNowhere(m, s);
    if !Finished(s, j) {
      var c := SeedRows(m, s, s, j);
      var a;
      c, a := FinishRows(m, s, c, j);
      n := CloseBy(m, s, c, j, a);
    } else if s.jobs[j].status == JobComplete {
      n := s;
    } else {
      var a: nat :| Closer(s, j, a);
      n := CloseBy(m, s, s, j, a);
    }
  }

  /**
    A job of a reachable state, whatever has failed, been lost or been delivered twice, can still be completed
    and closed by the workers that are handed its rows if and only if it is not a dead end: all rows complete, not
    closed and nobody left to close it, or some row lost for good.
  */
  lemma {:induction false} CanFinishIffNotDead(m: Guarded, s: State, j: nat)
    requires Reachable(m, s)
    requires j < |s.jobs|
    ensures Shape(s) && (CanFinish(m, s, j) <==> !DeadEnd(s, j))
  {
    hide Reachable, DeadEnd;
    ReachableSound(m, s);
    var p: Guarded := Prompted(m);
    if DeadEnd(s, j) {
      forall n: State | Leads(p, s, n)
        ensures !(Finished(n, j) && n.jobs[j].status == JobComplete)
      {
        var steps :| IsRun(p, s, steps) && After(p, s, steps) == n;
        DeadForGood(p, s, steps, j);
        DeadMeansOpen(n, j);
      }
    } else {
      var n := FinishFrom(p, s, j);
    }
  }

  // -------------------------------------------------------------------------
  // Every job can finish
  // -------------------------------------------------------------------------

  lemma {:induction false} NoCloserMeansDone(s: State, j: nat)
    requires Shape(s) && ClosedOff(s, j)
    ensures HandlersDone(s, j) && Finished(s, j) && s.jobs[j].status != JobComplete
  {
    forall a | 0 <= a < |s.attempts| && JobOf(s, a) == j
      ensures !s.attempts[a].phase.Finalising()
    {
      assert !Closer(s, j, a);
    }
  }

  lemma {:induction false} EveryJobCanFinish(m: Guarded, s: State, j: nat)
    requires m.atomicEscalation && m.reliableHandlers && m.groupFirst && m.reliablePush
    requires Reachable(m, s) && j < |s.jobs|
    ensures Shape(s) && CanFinish(m, s, j)
  {
    hide Reachable, CanFinish, HandlersDone, JobDone, ClosedOff;
    NoLostFinalisation(m, s);
    if ClosedOff(s, j) { NoCloserMeansDone(s, j); }
    forall t: nat | t < |s.rows| && s.rows[t].job == j
      ensures !Lost(s, t)
    {
      if Lost(s, t) { NothingMissed(m, s, t); }
    }
    CanFinishIffNotDead(m, s, j);
  }

  /** The first row is pushed four times and failed three times before any worker has been there. */
  lemma {:induction false} MissedForGood(m: Mode) returns (s: State)
    requires !m.groupFirst
    ensures Reachable(m, s) && Shape(s) && |s.jobs| == 1 && |s.rows| > 0 && s.rows[0].job == 0 && Lost(s, 0)
  {
    hide Reachable;
    SeededAlone(m);
    ExhaustedFrom(m, None);
    s := ClaimAnd(m, TriedTimes(3, None), 0, true);
    assert s.rows[0] == PLAN[0].(retries := 3, status := Dispatched);
  }

  /** The first row is claimed four times, its push fails each time, and it is failed three times. */
  lemma {:induction false} ForgottenForGood(m: Mode) returns (s: State)
    requires !m.reliablePush
    ensures Reachable(m, s) && Shape(s) && |s.jobs| == 1 && |s.rows| > 0 && s.rows[0].job == 0 && Lost(s, 0)
  {
    hide Reachable;
    NeverPushedReachable(m);
    s := ClaimAnd(m, NeverPushed(3), 0, false);
    assert s.rows[0] == PLAN[0].(retries := 3, status := Dispatched);
  }

  lemma {:induction false} DeadEndReachable(m: Guarded) returns (s: State)
    requires !(m.atomicEscalation && m.reliableHandlers && m.groupFirst && m.reliablePush)
    ensures Reachable(m, s) && Shape(s) && |s.jobs| > 0 && !CanFinish(m, s, 0)
  {
    hide Reachable, CanFinish, Lost;
    if !m.atomicEscalation {
      s := FailedAfterClose(m);
      assert ClosedOff(s, 0);
    } else if !m.reliableHandlers {
      s := CrashedNotClosed(m);
      assert ClosedOff(s, 0);
    } else if !m.groupFirst {
      s := MissedForGood(m);
    } else {
      s := ForgottenForGood(m);
    }
    CanFinishIffNotDead(m, s, 0);
  }

  ghost predicate AllCanFinish(m: Mode, s: State)
    requires Shape(s)
  {
    forall j: nat | j < |s.jobs| :: CanFinish(m, s, j)
  }

  /**
    Every job of every reachable state can still be completed and closed if and only if failing a row for good
    and failing its job are one step, no handler dies between its mark and its answer, the consumer group is there
    before anything is pushed and no push is lost.
  */
  lemma {:induction false} EveryJobCanFinishIff(m: Guarded)
    ensures m.atomicEscalation && m.reliableHandlers && m.groupFirst && m.reliablePush <==>
            forall s: State | Reachable(m, s) :: Shape(s) && AllCanFinish(m, s)
  {
    hide Reachable, CanFinish;
    if m.atomicEscalation && m.reliableHandlers && m.groupFirst && m.reliablePush {
      forall s: State | Reachable(m, s)
        ensures Shape(s) && AllCanFinish(m, s)
      {
        ReachableShape(m, s);
        forall j: nat | j < |s.jobs|
          ensures CanFinish(m, s, j)
        {
          EveryJobCanFinish(m, s, j);
        }
      }
    } else {
      var s := DeadEndReachable(m);
      assert !AllCanFinish(m, s);
    }
  }

  /** `failed` is not final: a reachable failed job that is completed and closed later. */
  lemma {:induction false} FailedJobFinishes(m: Guarded) returns (s: State, n: State)
    ensures Reachable(m, s) && Shape(s) && |s.jobs| == 1 && s.jobs[0].status == JobFailed
    ensures Leads(Prompted(m), s, n) && Finished(n, 0) && n.jobs[0].status == JobComplete
  {
    hide Reachable, Leads;
    s := FailedJobReachable(m);
    assert s.rows[0].job == 0 && s.rows[0].status != Complete;
    assert HeldBy(s, 0, 0);
    ReachableSound(m, s);
    n := FinishFrom(Prompted(m), s, 0);
  }
}
