/** Retries and pushes: bounded if and only if `fail_task` reads and updates a row undisturbed. */
module Retries {
  import opened Types
  import opened Lifecycle
  import opened LifecycleInvariants
  import opened LifecycleSafety
  import opened Scenarios

  // -------------------------------------------------------------------------
  // Pushes, row by row
  // -------------------------------------------------------------------------

  function RowsOf(rows: seq<Row>, job: nat): nat {
    if rows == [] then 0 else RowsOf(rows[..|rows| - 1], job) + if rows[|rows| - 1].job == job then 1 else 0
  }

  function PushesOf(stream: seq<nat>, rows: seq<Row>, job: nat): nat
    requires forall e | 0 <= e < |stream| :: stream[e] < |rows|
  {
    if stream == [] then 0
    else PushesOf(stream[..|stream| - 1], rows, job) + if rows[stream[|stream| - 1]].job == job then 1 else 0
  }

  /** The same pushes, row by row. */
  function PushesByRow(pushes: multiset<nat>, rows: seq<Row>, job: nat): nat {
    if rows == [] then 0
    else
      var t := |rows| - 1;
      PushesByRow(pushes, rows[..t], job) + if rows[t].job == job then pushes[t] else 0
  }

  lemma {:induction false} OneMorePush(pushes: multiset<nat>, rows: seq<Row>, job: nat, x: nat)
    ensures PushesByRow(pushes + multiset{x}, rows, job) ==
            PushesByRow(pushes, rows, job) + if x < |rows| && rows[x].job == job then 1 else 0
  {
    if rows != [] { OneMorePush(pushes, rows[..|rows| - 1], job, x); }
  }

  lemma {:induction false} NoPushes(rows: seq<Row>, job: nat)
    ensures PushesByRow(multiset{}, rows, job) == 0
  {
    if rows != [] { NoPushes(rows[..|rows| - 1], job); }
  }

  lemma {:induction false} PushesAddUp(stream: seq<nat>, rows: seq<Row>, job: nat)
    requires forall e | 0 <= e < |stream| :: stream[e] < |rows|
    ensures PushesOf(stream, rows, job) == PushesByRow(multiset(stream), rows, job)
  {
    if stream == [] {
      NoPushes(rows, job);
    } else {
      var front, x := stream[..|stream| - 1], stream[|stream| - 1];
      assert stream == front + [x];
      PushesAddUp(front, rows, job);
      OneMorePush(multiset(front), rows, job, x);
    }
  }

  lemma {:induction false} FewPushesPerRow(pushes: multiset<nat>, rows: seq<Row>, job: nat, limit: nat)
    requires forall t | 0 <= t < |rows| :: pushes[t] <= limit
    ensures PushesByRow(pushes, rows, job) <= limit * RowsOf(rows, job)
  {
    if rows != [] {
      var front := rows[..|rows| - 1];
      FewPushesPerRow(pushes, front, job, limit);
      assert limit * (RowsOf(front, job) + 1) == limit * RowsOf(front, job) + limit;
    }
  }

  // -------------------------------------------------------------------------
  // Read and update undisturbed
  // -------------------------------------------------------------------------

  ghost predicate NotedAt(s: State, f: nat, t: nat) {
    InStage(s, f, Noted) && s.failures[f].task == t
  }

  /** At most one call is between its read and its update of a row, and what it has read is still true. */
  ghost predicate NotesCurrent(s: State)
    requires Shape(s)
  {
    && (forall f: nat, t: nat | NotedAt(s, f, t) :: s.failures[f].retries == s.rows[t].retries)
    && (forall f: nat, g: nat, t: nat | NotedAt(s, f, t) && NotedAt(s, g, t) :: f == g)
  }

  ghost predicate RetriesLow(s: State) {
    forall t | 0 <= t < |s.rows| :: s.rows[t].retries <= 3
  }

  ghost predicate RetryInv(s: State) {
    Shape(s) && NotesCurrent(s) && RetriesLow(s)
  }

  lemma {:induction false} RetriesAfter(m: Mode, s: State, step: Step, t: nat)
    requires Shape(s) && Enabled(m, s, step) && t < |s.rows|
    ensures t < |Apply(m, s, step).rows|
    ensures Apply(m, s, step).rows[t].retries ==
            s.rows[t].retries + if FailsRow(s, step, t) && s.failures[step.f].retries < MAX_RETRIES then 1 else 0
  {
    hide CreditsFor, Remaining, ReceiptSum, TierPlan;
  }

  lemma {:induction false} NotedBefore(m: Mode, s: State, step: Step, f: nat, t: nat)
    requires Shape(s) && Enabled(m, s, step) && NotedAt(Apply(m, s, step), f, t)
    ensures step != FailRow(f) && t < |s.rows|
    ensures if NotedAt(s, f, t) then Apply(m, s, step).failures[f] == s.failures[f]
            else step == Note(t) && f == |s.failures| && Apply(m, s, step).failures[f].retries == s.rows[t].retries
  {
    hide CreditsFor, Remaining, ReceiptSum, TierPlan;
  }

  lemma {:induction false} KeepsNotesCurrent(m: Mode, s: State, step: Step)
    requires m.serialisedRetry && Shape(s) && Enabled(m, s, step) && NotesCurrent(s) && Shape(Apply(m, s, step))
    ensures NotesCurrent(Apply(m, s, step))
  {
    var n := Apply(m, s, step);
    assert step.Note? ==> forall f: nat :: !NotedAt(s, f, step.t);
    assert step.FailRow? ==> NotedAt(s, step.f, s.failures[step.f].task);
    hide Apply, Enabled, Shape, NotedAt;
    forall f: nat, t: nat | NotedAt(n, f, t)
      ensures n.failures[f].retries == n.rows[t].retries
    {
      NotedBefore(m, s, step, f, t);
      RetriesAfter(m, s, step, t);
    }
    forall f: nat, g: nat, t: nat | NotedAt(n, f, t) && NotedAt(n, g, t)
      ensures f == g
    {
      NotedBefore(m, s, step, f, t);
      NotedBefore(m, s, step, g, t);
    }
  }

  lemma {:induction false} KeepsRetriesLow(m: Mode, s: State, step: Step)
    requires Shape(s) && Enabled(m, s, step) && NotesCurrent(s) && RetriesLow(s)
    ensures RetriesLow(Apply(m, s, step))
  {
    var n := Apply(m, s, step);
    assert step.FailRow? ==> NotedAt(s, step.f, s.failures[step.f].task);
    hide Apply, Enabled;
    forall t | 0 <= t < |n.rows|
      ensures n.rows[t].retries <= 3
    {
      if t < |s.rows| { RetriesAfter(m, s, step, t); } else { NewRows(m, s, step, t); }
    }
  }

  lemma {:induction false} RunKeepsRetries(m: Mode, s: State, steps: seq<Step>)
    requires m.serialisedRetry && RetryInv(s) && IsRun(m, s, steps)
    ensures RetryInv(After(m, s, steps))
    decreases |steps|
  {
    hide Apply, Enabled, NotesCurrent, RetriesLow;
    if steps != [] {
      StepKeepsShape(m, s, steps[0]);
      KeepsNotesCurrent(m, s, steps[0]);
      KeepsRetriesLow(m, s, steps[0]);
      RunKeepsRetries(m, Apply(m, s, steps[0]), steps[1..]);
    }
  }

  lemma {:induction false} ReachableNotes(m: Mode, s: State)
    requires m.serialisedRetry && Reachable(m, s)
    ensures RetryInv(s)
  {
    var steps :| IsRun(m, Start(m), steps) && After(m, Start(m), steps) == s;
    RunKeepsRetries(m, Start(m), steps);
  }

  /** Any number of replicas and calls: no row is pushed more often than once more than it was retried. */
  lemma {:induction false} PushesFollowRetries(m: Mode, s: State, t: nat)
    requires Reachable(m, s) && t < |s.rows|
    ensures multiset(s.stream)[t] <= s.rows[t].retries + 1
  {
    ReachableBase(m, s);
    assert Issued(s, t) >= multiset(s.stream)[t];
  }

  /** No row is retried more than three times, and a job of n rows is pushed at most 4n times. */
  ghost predicate WithinBounds(s: State)
    requires Shape(s)
  {
    && RetriesLow(s)
    && forall job: nat :: PushesOf(s.stream, s.rows, job) <= 4 * RowsOf(s.rows, job)
  }

  lemma {:induction false} RetryBound(m: Mode, s: State)
    requires m.serialisedRetry && Reachable(m, s)
    ensures Shape(s) && WithinBounds(s)
  {
    ReachableNotes(m, s);
    hide Reachable, IsRun, After, NotesCurrent;
    var pushes := multiset(s.stream);
    forall t | 0 <= t < |s.rows|
      ensures pushes[t] <= 4
    {
      PushesFollowRetries(m, s, t);
    }
    forall job: nat
      ensures PushesOf(s.stream, s.rows, job) <= 4 * RowsOf(s.rows, job)
    {
      PushesAddUp(s.stream, s.rows, job);
      FewPushesPerRow(pushes, s.rows, job, 4);
    }
  }

  // -------------------------------------------------------------------------
  // Calls that have all read the same count
  // -------------------------------------------------------------------------

  function Overlapping(n: nat, k: nat): seq<Failure>
    requires k <= n
  {
    seq(n, i requires 0 <= i < n => Failure(0, 0, if i < k then Over else Noted))
  }

  /** Of n calls that read the count 0, the first k have updated the row, each after a new dispatch. */
  function Overlap(n: nat, k: nat): State
    requires k <= n
  {
    PartlySeeded(3).(rows := Tried(k, Pending), outbox := seq(k, _ => 0), failures := Overlapping(n, k))
  }

  lemma {:induction false} AllRead(m: Mode, n: nat)
    requires !m.serialisedRetry
    ensures Reachable(m, Overlap(n, 0))
  {
    hide Reachable;
    if n == 0 {
      FullySeeded(m);
      assert Overlap(0, 0) == PartlySeeded(3);
    } else {
      AllRead(m, n - 1);
      var s := Overlap(n - 1, 0);
      ReachableStep(m, s, Note(0));
      assert Overlapping(n, 0) == Overlapping(n - 1, 0) + [Failure(0, 0, Noted)];
      assert Apply(m, s, Note(0)) == Overlap(n, 0);
    }
  }

  lemma {:induction false} ShapeOfOverlap(m: Mode, n: nat, k: nat)
    requires k <= n
    ensures Shape(Overlap(n, k)) && Eligible(Overlap(n, k).rows, 0)
  {
    assert PLAN[3..] == [];
  }

  lemma {:induction false} OneMoreRetry(m: Mode, n: nat, k: nat)
    requires k < n && Reachable(m, Overlap(n, k))
    ensures Reachable(m, Overlap(n, k + 1))
  {
    hide Reachable, CreditsFor, Remaining, ReceiptSum, PartlySeeded;
    var s := Overlap(n, k);
    ShapeOfOverlap(m, n, k);
    ReachableStep(m, s, Claim(0));
    var s1 := Apply(m, s, Claim(0));
    assert s1 == s.(rows := Tried(k, Dispatched), outbox := s.outbox + [0]);
    ReachableStep(m, s1, FailRow(k));
    var s2 := Apply(m, s1, FailRow(k));
    assert s2.rows == Tried(k + 1, Pending);
    assert s2.outbox == seq(k + 1, _ => 0);
    assert s2.failures == Overlapping(n, k + 1);
    assert s2 == Overlap(n, k + 1);
  }

  lemma {:induction false} ManyRetries(m: Mode, n: nat, k: nat)
    requires !m.serialisedRetry && k <= n
    ensures Reachable(m, Overlap(n, k))
    decreases k
  {
    hide Reachable, Overlap;
    if k == 0 {
      AllRead(m, n);
    } else {
      ManyRetries(m, n, k - 1);
      OneMoreRetry(m, n, k - 1);
    }
  }

  /** Without the lock there is no bound at all. */
  lemma {:induction false} RetriesUnbounded(m: Mode, n: nat) returns (s: State)
    requires !m.serialisedRetry
    ensures Reachable(m, s) && |s.rows| == 3 && s.rows[0].retries == n && s.rows[1] == PLAN[1] && s.rows[2] == PLAN[2]
  {
    ManyRetries(m, n, n);
    s := Overlap(n, n);
  }

  /**
    Over all runs, any number of replicas and calls, no row is retried more than three times and a job of n
    rows is pushed at most 4n times if and only if `fail_task`'s read of the retry count and its update of the
    row run without another call for that row in between. The code has two statements and no lock; then the
    retries of a row have no bound.
  */
  lemma {:induction false} RetryBoundIff(m: Mode)
    ensures m.serialisedRetry <==> forall s: State | Reachable(m, s) :: Shape(s) && WithinBounds(s)
  {
    hide Reachable, Shape, PushesOf, RowsOf;
    if m.serialisedRetry {
      forall s: State | Reachable(m, s)
        ensures Shape(s) && WithinBounds(s)
      {
        RetryBound(m, s);
      }
    } else {
      var s := RetriesUnbounded(m, 4);
      assert !RetriesLow(s);
    }
  }
}
