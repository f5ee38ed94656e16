/** What every step keeps, whatever the interleaving. */
module LifecycleInvariants {
  import opened Types
  import opened Lifecycle

  // -------------------------------------------------------------------------
  // Dispatch
  // -------------------------------------------------------------------------

  predicate LowerComplete(rows: seq<Row>, t: nat)
    requires t < |rows|
  {
    forall d | 0 <= d < |rows| :: rows[d].job == rows[t].job && rows[d].position < rows[t].position ==>
        rows[d].status == Complete
  }

  /** A row that has ever left `pending` for the stream; a result nobody asked for is no such move. */
  predicate Started(s: State, t: nat)
    requires t < |s.rows|
  {
    || (s.rows[t].status != Pending && s.rows[t].status != Complete)
    || t in s.outbox || t in s.stream
  }

  /** Whatever was ever put on the stream has every lower position of its job complete. */
  ghost predicate Barrier(s: State) {
    forall t | 0 <= t < |s.rows| && Started(s, t) :: LowerComplete(s.rows, t)
  }

  /** The rows still to be inserted come last. */
  ghost predicate InsertedLast(rows: seq<Row>, plan: seq<Row>, job: nat) {
    && (forall i, k | 0 <= i < k < |plan| :: plan[i].position <= plan[k].position)
    && (forall t, i | 0 <= t < |rows| && rows[t].job == job && 0 <= i < |plan| :: rows[t].position <= plan[i].position)
  }

  ghost predicate PlansOrdered(s: State) {
    forall j | 0 <= j < |s.jobs| :: InsertedLast(s.rows, s.jobs[j].unseeded, j)
  }

  function Issued(s: State, t: nat): nat {
    multiset(s.outbox)[t] + multiset(s.stream)[t]
  }

  /** One claim per dispatch, and one dispatch more than retries. */
  ghost predicate IssueBound(s: State) {
    forall t | 0 <= t < |s.rows| ::
      Issued(s, t) <= s.rows[t].retries + if s.rows[t].status == Pending then 0 else 1
  }

  /** A row in flight or failed is waiting to be pushed or has an entry. */
  ghost predicate ClaimedIssued(s: State) {
    forall t | 0 <= t < |s.rows| && s.rows[t].status != Pending && s.rows[t].status != Complete ::
      t in s.outbox || t in s.stream
  }

  // -------------------------------------------------------------------------
  // Results
  // -------------------------------------------------------------------------

  ghost predicate MarkedComplete(s: State)
    requires Shape(s)
  {
    forall a | 0 <= a < |s.attempts| && s.attempts[a].phase.AfterMark() :: s.rows[TaskOf(s, a)].status == Complete
  }

  ghost predicate AckedComplete(s: State)
    requires Shape(s)
  {
    forall e | e in s.acked :: s.rows[s.stream[e]].status == Complete
  }

  function JobOf(s: State, a: nat): nat
    requires Shape(s) && a < |s.attempts|
  {
    s.rows[TaskOf(s, a)].job
  }

  /** All rows of the job are there. */
  ghost predicate Seeded(s: State, j: nat) {
    j < |s.jobs| && s.jobs[j].unseeded == []
  }

  ghost predicate AllSeeded(s: State) {
    forall j | 0 <= j < |s.jobs| :: Seeded(s, j)
  }

  /** A job is closed, or about to be, only when all its rows are complete. */
  ghost predicate ClosedRight(s: State)
    requires Shape(s)
  {
    && (forall j | 0 <= j < |s.jobs| && s.jobs[j].status == JobComplete :: JobDone(s.rows, j))
    && (forall a | 0 <= a < |s.attempts| && CountedZero(s, a) :: JobDone(s.rows, JobOf(s, a)))
  }

  ghost predicate FinaliserFor(s: State, j: nat, a: nat)
    requires Shape(s)
  {
    a < |s.attempts| && s.attempts[a].phase.Finalising() && JobOf(s, a) == j
  }

  /** Kept even if rows that are not in flight are failed. */
  ghost predicate BaseInv(s: State) {
    Shape(s) && PlansOrdered(s) && IssueBound(s)
  }

  ghost predicate Inv(s: State) {
    BaseInv(s) && Barrier(s) && MarkedComplete(s) && AckedComplete(s)
  }

  /** What is kept besides when a job and its rows are inserted together. */
  ghost predicate ClosingInv(s: State) {
    Shape(s) && AllSeeded(s) && ClosedRight(s)
  }

  // -------------------------------------------------------------------------
  // Counting facts
  // -------------------------------------------------------------------------

  lemma {:induction false} RemainingZero(rows: seq<Row>, job: nat)
    ensures Remaining(rows, job) == 0 <==> JobDone(rows, job)
  {
    if rows != [] {
      var front := rows[..|rows| - 1];
      RemainingZero(front, job);
      if JobDone(front, job) {
        forall t | 0 <= t < |rows| - 1
          ensures rows[t].job == job ==> rows[t].status == Complete
        {
          assert front[t] == rows[t];
        }
      } else {
        var t :| 0 <= t < |front| && front[t].job == job && front[t].status != Complete;
        assert rows[t] == front[t];
      }
    }
  }

  /** The rows of a job that are not complete. */
  ghost function Unfinished(rows: seq<Row>, job: nat): set<nat> {
    set t: nat | t < |rows| && rows[t].job == job && rows[t].status != Complete
  }

  lemma {:induction false} RemainingCounts(rows: seq<Row>, job: nat)
    ensures Remaining(rows, job) == |Unfinished(rows, job)|
  {
    if rows != [] {
      var last := |rows| - 1;
      RemainingCounts(rows[..last], job);
      assert Unfinished(rows, job) ==
          Unfinished(rows[..last], job) +
          if rows[last].job == job && rows[last].status != Complete then {last} else {};
    }
  }

  lemma {:induction false} RemoveAt(q: seq<nat>, i: nat)
    requires i < |q|
    ensures multiset(q) == multiset(q[..i] + q[i + 1..]) + multiset{q[i]}
  {
    assert q == q[..i] + [q[i]] + q[i + 1..];
  }

  // -------------------------------------------------------------------------
  // Steps
  // -------------------------------------------------------------------------

  lemma {:induction false} RowsAfter(m: Mode, s: State, step: Step, t: nat)
    requires Shape(s) && Enabled(m, s, step) && t < |s.rows|
    ensures var n := Apply(m, s, step);
            && |s.rows| <= |n.rows| && |s.jobs| <= |n.jobs|
            && n.rows[t].job == s.rows[t].job && n.rows[t].position == s.rows[t].position
  {
    hide CreditsFor, ReceiptSum, Remaining, TierPlan;
  }

  /** Complete rows stay complete. */
  lemma {:induction false} CompleteAfter(m: Guarded, s: State, step: Step, t: nat)
    requires Shape(s) && Enabled(m, s, step) && t < |s.rows|
    ensures var n := Apply(m, s, step);
            && |s.rows| <= |n.rows| && |s.jobs| <= |n.jobs|
            && n.rows[t].job == s.rows[t].job && n.rows[t].position == s.rows[t].position
            && (s.rows[t].status == Complete ==> n.rows[t].status == Complete)
  {
    hide CreditsFor, ReceiptSum, Remaining, TierPlan;
  }

  lemma {:induction false} NewRows(m: Mode, s: State, step: Step, t: nat)
    requires Shape(s) && Enabled(m, s, step) && |s.rows| <= t < |Apply(m, s, step).rows|
    ensures (step.Seed? && Apply(m, s, step).rows[t].job == |s.jobs|) ||
            (step.Insert? && t == |s.rows| && Apply(m, s, step).rows[t] == s.jobs[step.j].unseeded[0]
                && Apply(m, s, step).rows[t].job == step.j)
    ensures Apply(m, s, step).rows[t].status == Pending && Apply(m, s, step).rows[t].retries == 0
  {
    hide CreditsFor, ReceiptSum, Remaining;
  }

  lemma {:induction false} QueuesAfter(m: Mode, s: State, step: Step)
    requires Shape(s) && Enabled(m, s, step)
    ensures step.Push? || step.Forget? ==> step.i < |s.outbox|
    ensures var n := Apply(m, s, step);
            && n.outbox == (if step.Claim? then s.outbox + [step.t]
                            else if step.Push? || step.Forget? then s.outbox[..step.i] + s.outbox[step.i + 1..]
                            else s.outbox)
            && n.stream == if step.Push? then s.stream + [s.outbox[step.i]] else s.stream
  {
    hide CreditsFor, Remaining, ReceiptSum, TierPlan;
  }

  lemma {:induction false} StartedBefore(m: Guarded, s: State, step: Step, t: nat)
    requires Shape(s) && Enabled(m, s, step)
    requires t < |Apply(m, s, step).rows| && Started(Apply(m, s, step), t)
    ensures t < |s.rows|
    ensures Started(s, t) || LowerComplete(s.rows, t)
  {
    hide CreditsFor, ReceiptSum, Remaining, TierPlan;
    var n := Apply(m, s, step);
    if t >= |s.rows| {
      NewRows(m, s, step, t);
    } else {
      QueuesAfter(m, s, step);
    }
  }

  lemma {:induction false} PlansAfter(m: Mode, s: State, step: Step, j: nat)
    requires Shape(s) && Enabled(m, s, step) && j < |Apply(m, s, step).jobs|
    ensures var plan := Apply(m, s, step).jobs[j].unseeded;
            if j < |s.jobs| then plan == if step == Insert(j) then s.jobs[j].unseeded[1..] else s.jobs[j].unseeded
            else step.Seed? && j == |s.jobs| && plan == if m.atomicSeed then [] else TierPlan(step.tier, j)
  {
    hide CreditsFor, ReceiptSum, Remaining, TierPlan;
  }

  lemma {:induction false} KeepsPlansOrdered(m: Mode, s: State, step: Step)
    requires Shape(s) && Enabled(m, s, step) && PlansOrdered(s)
    ensures PlansOrdered(Apply(m, s, step))
  {
    var n := Apply(m, s, step);
    hide Apply, TierPlan;
    RowsKeepJobs(m, s, step);
    forall j | 0 <= j < |n.jobs|
      ensures InsertedLast(n.rows, n.jobs[j].unseeded, j)
    {
      PlansAfter(m, s, step, j);
      forall t, i | 0 <= t < |n.rows| && n.rows[t].job == j && 0 <= i < |n.jobs[j].unseeded|
        ensures n.rows[t].position <= n.jobs[j].unseeded[i].position
      {
        if t < |s.rows| { RowsAfter(m, s, step, t); } else { NewRows(m, s, step, t); }
      }
    }
  }

  lemma {:induction false} KeepsBarrier(m: Guarded, s: State, step: Step)
    requires Shape(s) && Enabled(m, s, step) && PlansOrdered(s) && Barrier(s)
    ensures Barrier(Apply(m, s, step))
  {
    var n := Apply(m, s, step);
    assert step.Insert? ==> InsertedLast(s.rows, s.jobs[step.j].unseeded, step.j);
    forall t, d | 0 <= t < |n.rows| && Started(n, t) && 0 <= d < |n.rows| && n.rows[d].job == n.rows[t].job
        && n.rows[d].position < n.rows[t].position
      ensures n.rows[d].status == Complete
    {
      StartedBefore(m, s, step, t);
      assert LowerComplete(s.rows, t);
      CompleteAfter(m, s, step, t);
      if d >= |s.rows| {
        NewRows(m, s, step, d);
      } else {
        CompleteAfter(m, s, step, d);
      }
    }
  }

  lemma {:induction false} PushMoves(outbox: seq<nat>, stream: seq<nat>, i: nat, t: nat)
    requires i < |outbox|
    ensures multiset(outbox[..i] + outbox[i + 1..])[t] + multiset(stream + [outbox[i]])[t] ==
        multiset(outbox)[t] + multiset(stream)[t]
  {
    RemoveAt(outbox, i);
    assert multiset(stream + [outbox[i]]) == multiset(stream) + multiset{outbox[i]};
  }

  /** Only a claim issues a row; a push moves it from the outbox to the stream, and a failed one takes it back. */
  lemma {:induction false} IssuedAfter(m: Mode, s: State, step: Step, t: nat)
    requires Shape(s) && Enabled(m, s, step)
    ensures Issued(Apply(m, s, step), t) ==
            Issued(s, t) + (if step == Claim(t) then 1 else 0) -
            (if step.Forget? && step.i < |s.outbox| && s.outbox[step.i] == t then 1 else 0)
  {
    hide Apply, Enabled, Shape;
    QueuesAfter(m, s, step);
    if step.Claim? {
      assert multiset(s.outbox + [step.t]) == multiset(s.outbox) + multiset{step.t};
    } else if step.Push? {
      PushMoves(s.outbox, s.stream, step.i, t);
    } else if step.Forget? {
      RemoveAt(s.outbox, step.i);
    }
  }

  lemma {:induction false} UnknownNotIssued(s: State, t: nat)
    requires Shape(s) && t >= |s.rows|
    ensures Issued(s, t) == 0
  {
    assert t !in s.outbox && t !in s.stream;
  }

  lemma {:induction false} KeepsIssueBound(m: Mode, s: State, step: Step)
    requires Shape(s) && Enabled(m, s, step) && IssueBound(s)
    ensures IssueBound(Apply(m, s, step))
  {
    hide Issued;
    var n := Apply(m, s, step);
    forall t | 0 <= t < |n.rows|
      ensures Issued(n, t) <= n.rows[t].retries + if n.rows[t].status == Pending then 0 else 1
    {
      IssuedAfter(m, s, step, t);
      if t >= |s.rows| {
        NewRows(m, s, step, t);
        UnknownNotIssued(s, t);
      }
    }
  }

  lemma {:induction false} KeepsClaimedIssued(m: Guarded, s: State, step: Step)
    requires m.reliablePush && Shape(s) && Enabled(m, s, step) && ClaimedIssued(s)
    ensures ClaimedIssued(Apply(m, s, step))
  {
    hide CreditsFor, ReceiptSum, Remaining, TierPlan;
    var n := Apply(m, s, step);
    forall t | 0 <= t < |n.rows| && n.rows[t].status != Pending && n.rows[t].status != Complete
      ensures t in n.outbox || t in n.stream
    {
      if t >= |s.rows| {
        NewRows(m, s, step, t);
      } else if step.Push? {
        RemoveAt(s.outbox, step.i);
        assert multiset(s.outbox)[t] > 0 ==> t in n.outbox || t == s.outbox[step.i];
      } else if step.Claim? {
        assert step.t in n.outbox;
      }
    }
  }

  lemma {:induction false} TaskAfter(m: Mode, s: State, step: Step, a: nat)
    requires Shape(s) && Enabled(m, s, step) && a < |s.attempts|
    ensures var n := Apply(m, s, step);
            && Shape(n) && a < |n.attempts| && TaskOf(n, a) == TaskOf(s, a)
            && n.attempts[a].entry == s.attempts[a].entry
  {
    StepKeepsShape(m, s, step);
    hide CreditsFor, ReceiptSum, Remaining, TierPlan, Shape;
  }

  lemma {:induction false} JobOfAfter(m: Mode, s: State, step: Step, a: nat)
    requires Shape(s) && Enabled(m, s, step) && a < |s.attempts|
    ensures var n := Apply(m, s, step); Shape(n) && a < |n.attempts| && JobOf(n, a) == JobOf(s, a)
  {
    hide Apply, Enabled;
    TaskAfter(m, s, step, a);
    RowsAfter(m, s, step, TaskOf(s, a));
  }

  /** Only a mark brings an attempt past the mark. */
  lemma {:induction false} MarkedBefore(m: Guarded, s: State, step: Step, a: nat)
    requires Shape(s) && Enabled(m, s, step)
    requires a < |Apply(m, s, step).attempts| && Apply(m, s, step).attempts[a].phase.AfterMark()
    ensures a < |s.attempts|
    ensures s.attempts[a].phase.AfterMark() ||
            (step == Mark(a) && TaskOf(s, a) < |Apply(m, s, step).rows|
             && Apply(m, s, step).rows[TaskOf(s, a)].status == Complete)
  {
    hide CreditsFor, ReceiptSum, Remaining, TierPlan;
  }

  lemma {:induction false} KeepsMarkedComplete(m: Guarded, s: State, step: Step)
    requires Shape(s) && Enabled(m, s, step) && MarkedComplete(s)
    ensures Shape(Apply(m, s, step)) && MarkedComplete(Apply(m, s, step))
  {
    hide Apply, Enabled;
    StepKeepsShape(m, s, step);
    var n := Apply(m, s, step);
    forall a | 0 <= a < |n.attempts| && n.attempts[a].phase.AfterMark()
      ensures n.rows[TaskOf(n, a)].status == Complete
    {
      MarkedBefore(m, s, step, a);
      TaskAfter(m, s, step, a);
      CompleteAfter(m, s, step, TaskOf(s, a));
    }
  }

  lemma {:induction false} KeepsAckedComplete(m: Guarded, s: State, step: Step)
    requires Shape(s) && Enabled(m, s, step) && MarkedComplete(s) && AckedComplete(s)
    ensures Shape(Apply(m, s, step)) && AckedComplete(Apply(m, s, step))
  {
    hide CreditsFor, ReceiptSum, Remaining, TierPlan;
    StepKeepsShape(m, s, step);
    var n := Apply(m, s, step);
    forall e | e in n.acked
      ensures n.rows[n.stream[e]].status == Complete
    {
      assert n.stream[e] == s.stream[e];
      if e !in s.acked {
        assert EntryInGroup(s, s.attempts[step.a]) && s.rows[TaskOf(s, step.a)].status == Complete;
      }
      CompleteAfter(m, s, step, s.stream[e]);
    }
  }

  lemma {:induction false} JobDoneAfter(m: Guarded, s: State, step: Step, j: nat)
    requires Shape(s) && Enabled(m, s, step) && Seeded(s, j) && JobDone(s.rows, j)
    ensures JobDone(Apply(m, s, step).rows, j)
  {
    var n := Apply(m, s, step);
    forall t | 0 <= t < |n.rows| && n.rows[t].job == j
      ensures n.rows[t].status == Complete
    {
      if t >= |s.rows| { NewRows(m, s, step, t); } else { CompleteAfter(m, s, step, t); }
    }
  }

  ghost predicate CountedZero(s: State, a: nat)
    requires a < |s.attempts|
  {
    s.attempts[a].phase.Summed? || (s.attempts[a].phase.Counted? && s.attempts[a].phase.remaining == 0)
  }

  lemma {:induction false} CountedZeroBefore(m: Guarded, s: State, step: Step, a: nat)
    requires Shape(s) && Enabled(m, s, step) && a < |Apply(m, s, step).attempts| && CountedZero(Apply(m, s, step), a)
    ensures a < |s.attempts|
    ensures CountedZero(s, a) || Remaining(s.rows, JobOf(s, a)) == 0
  {
    hide CreditsFor, Remaining, ReceiptSum, TierPlan;
  }

  lemma {:induction false} ClosedBefore(m: Guarded, s: State, step: Step, j: nat)
    requires Shape(s) && Enabled(m, s, step) && ClosedRight(s)
    requires j < |Apply(m, s, step).jobs| && Apply(m, s, step).jobs[j].status == JobComplete
    ensures j < |s.jobs|
    ensures JobDone(s.rows, j) || Remaining(s.rows, j) == 0
  {
    hide CreditsFor, Remaining, ReceiptSum, TierPlan;
    if step.Close? {
      assert CountedZero(s, step.a);
    }
  }

  lemma {:induction false} KeepsAllSeeded(m: Mode, s: State, step: Step)
    requires m.atomicSeed && Shape(s) && Enabled(m, s, step) && AllSeeded(s)
    ensures AllSeeded(Apply(m, s, step))
  {
    forall j | 0 <= j < |Apply(m, s, step).jobs|
      ensures Seeded(Apply(m, s, step), j)
    {
      PlansAfter(m, s, step, j);
      if j < |s.jobs| { assert Seeded(s, j); }
    }
  }

  lemma {:induction false} KeepsClosedRight(m: Guarded, s: State, step: Step)
    requires Shape(s) && Enabled(m, s, step) && AllSeeded(s) && ClosedRight(s)
    ensures Shape(Apply(m, s, step)) && ClosedRight(Apply(m, s, step))
  {
    hide Enabled, Apply, Remaining;
    StepKeepsShape(m, s, step);
    var n := Apply(m, s, step);
    forall a | 0 <= a < |n.attempts| && CountedZero(n, a)
      ensures JobDone(n.rows, JobOf(n, a))
    {
      CountedZeroBefore(m, s, step, a);
      JobOfAfter(m, s, step, a);
      RemainingZero(s.rows, JobOf(s, a));
      JobDoneAfter(m, s, step, JobOf(s, a));
    }
    forall j | 0 <= j < |n.jobs| && n.jobs[j].status == JobComplete
      ensures JobDone(n.rows, j)
    {
      ClosedBefore(m, s, step, j);
      RemainingZero(s.rows, j);
      JobDoneAfter(m, s, step, j);
    }
  }

  /** A step that inserts the last row of a job leaves a row pending. */
  lemma {:induction false} InsertedNotDone(m: Mode, s: State, step: Step, j: nat)
    requires Shape(s) && Enabled(m, s, step)
    requires (step.Seed? && j == |s.jobs| && m.atomicSeed) || step == Insert(j)
    ensures !JobDone(Apply(m, s, step).rows, j)
  {
    var row := Apply(m, s, step).rows[|s.rows|];
    assert row.job == j && row.status == Pending;
  }

  /** A job becomes fully seeded with all rows complete only by a mark. */
  lemma {:induction false} DoneByMark(m: Guarded, s: State, step: Step, j: nat)
    requires Shape(s) && Enabled(m, s, step)
    requires Seeded(Apply(m, s, step), j) && JobDone(Apply(m, s, step).rows, j)
    requires !Seeded(s, j) || !JobDone(s.rows, j)
    ensures step.Mark? && JobOf(s, step.a) == j
  {
    hide CreditsFor, ReceiptSum, Remaining, TierPlan;
    var n := Apply(m, s, step);
    PlansAfter(m, s, step, j);
    if step.Seed? && j == |s.jobs| {
      assert m.atomicSeed by { NonEmptyPlan(step.tier, j); }
      InsertedNotDone(m, s, step, j);
    } else if step == Insert(j) {
      InsertedNotDone(m, s, step, j);
    } else {
      var t :| 0 <= t < |s.rows| && s.rows[t].job == j && s.rows[t].status != Complete;
      assert n.rows[t].status == Complete by { CompleteAfter(m, s, step, t); }
    }
  }

  lemma {:induction false} NonEmptyPlan(tier: JobTier, job: nat)
    ensures TierPlan(tier, job) != []
  {
  }

  lemma {:induction false} StepKeepsBase(m: Mode, s: State, step: Step)
    requires BaseInv(s) && Enabled(m, s, step)
    ensures BaseInv(Apply(m, s, step))
  {
    hide Apply, Enabled, PlansOrdered, IssueBound, Shape;
    StepKeepsShape(m, s, step);
    KeepsPlansOrdered(m, s, step);
    KeepsIssueBound(m, s, step);
  }

  lemma {:induction false} RunKeepsBase(m: Mode, s: State, steps: seq<Step>)
    requires BaseInv(s) && IsRun(m, s, steps)
    ensures BaseInv(After(m, s, steps))
    decreases |steps|
  {
    hide Apply, Enabled;
    if steps != [] {
      StepKeepsBase(m, s, steps[0]);
      RunKeepsBase(m, Apply(m, s, steps[0]), steps[1..]);
    }
  }

  lemma {:induction false} StepKeepsInv(m: Guarded, s: State, step: Step)
    requires Inv(s) && Enabled(m, s, step)
    ensures Inv(Apply(m, s, step))
  {
    hide Apply, Enabled, PlansOrdered, Barrier, IssueBound, MarkedComplete, AckedComplete, Shape;
    StepKeepsBase(m, s, step);
    KeepsBarrier(m, s, step);
    KeepsMarkedComplete(m, s, step);
    KeepsAckedComplete(m, s, step);
  }

  lemma {:induction false} RunKeepsInv(m: Guarded, s: State, steps: seq<Step>)
    requires Inv(s) && IsRun(m, s, steps)
    ensures Inv(After(m, s, steps))
    decreases |steps|
  {
    hide Apply, Enabled;
    if steps != [] {
      StepKeepsInv(m, s, steps[0]);
      RunKeepsInv(m, Apply(m, s, steps[0]), steps[1..]);
    }
  }

  lemma {:induction false} RunKeepsClosing(m: Guarded, s: State, steps: seq<Step>)
    requires m.atomicSeed && ClosingInv(s) && IsRun(m, s, steps)
    ensures ClosingInv(After(m, s, steps))
    decreases |steps|
  {
    hide Apply, Enabled, AllSeeded, ClosedRight;
    if steps != [] {
      StepKeepsShape(m, s, steps[0]);
      KeepsAllSeeded(m, s, steps[0]);
      KeepsClosedRight(m, s, steps[0]);
      RunKeepsClosing(m, Apply(m, s, steps[0]), steps[1..]);
    }
  }
}
