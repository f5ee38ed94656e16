/** Runs of the orchestrator against runs of the DAG that a job's positions stand for. */
module RunRefinement {
  import opened Types
  import opened Graph
  import Dag
  import opened Lifecycle
  import opened LifecycleInvariants
  import opened DispatchRefinement

  /** The statuses of a job's rows, in creation order. */
  function JobStatuses(rows: seq<Row>, job: nat): seq<SubTaskStatus> {
    StatusesAt(rows, JobRows(rows, job))
  }

  /** An edge for every pair of rising positions of the job. */
  function JobDag(rows: seq<Row>, job: nat): Edges {
    Dag.DagOf(Positions(rows, JobRows(rows, job)))
  }

  /** Nothing changes, or one event does that the DAG allows. */
  ghost predicate Moves(edges: Edges, before: seq<SubTaskStatus>, after: seq<SubTaskStatus>) {
    after == before || exists e :: Dag.Enabled(edges, before, e) && Dag.Apply(before, e) == after
  }

  /** A result for a row of the job that has been put back or given up meanwhile. */
  ghost predicate LateResult(s: State, step: Step, job: nat)
    requires Shape(s)
  {
    && step.Mark? && InPhase(s, step.a, Loaded) && s.rows[TaskOf(s, step.a)].job == job
    && (s.rows[TaskOf(s, step.a)].status == Pending || s.rows[TaskOf(s, step.a)].status == Failed)
  }

  // -------------------------------------------------------------------------
  // The rows of one job
  // -------------------------------------------------------------------------

  lemma {:induction false} JobRowsOnce(rows: seq<Row>, job: nat, i: nat, k: nat)
    requires i < k < |JobRows(rows, job)|
    ensures JobRows(rows, job)[i] < JobRows(rows, job)[k]
  {
    var front := rows[..|rows| - 1];
    if k < |JobRows(front, job)| { JobRowsOnce(front, job, i, k); }
  }

  /** The job's rows keep their places, and new rows belong to other jobs. */
  ghost predicate KeepsRows(before: seq<Row>, after: seq<Row>, job: nat) {
    && |before| <= |after|
    && (forall t | 0 <= t < |before| :: after[t].job == before[t].job && after[t].position == before[t].position)
    && (forall t | |before| <= t < |after| :: after[t].job != job)
  }

  lemma {:induction false} SameJobRows(before: seq<Row>, after: seq<Row>, job: nat)
    requires KeepsRows(before, after, job)
    ensures JobRows(after, job) == JobRows(before, job) && JobDag(after, job) == JobDag(before, job)
    decreases |after|
  {
    if |before| < |after| {
      SameJobRows(before, after[..|after| - 1], job);
    } else if after != [] {
      SameJobRows(before[..|before| - 1], after[..|after| - 1], job);
    }
    assert Positions(after, JobRows(after, job)) == Positions(before, JobRows(before, job));
  }

  lemma {:induction false} StepKeepsRows(m: Mode, s: State, step: Step, job: nat)
    requires Shape(s) && Enabled(m, s, step) && Seeded(s, job)
    ensures KeepsRows(s.rows, Apply(m, s, step).rows, job)
  {
    var n := Apply(m, s, step);
    forall t | 0 <= t < |n.rows|
      ensures t < |s.rows| ==> n.rows[t].job == s.rows[t].job && n.rows[t].position == s.rows[t].position
      ensures t >= |s.rows| ==> n.rows[t].job != job
    {
      if t < |s.rows| { RowsAfter(m, s, step, t); } else { NewRows(m, s, step, t); }
    }
    RowsKeepJobs(m, s, step);
  }

  // -------------------------------------------------------------------------
  // One step
  // -------------------------------------------------------------------------

  /** The row whose status a step may change. */
  function Target(s: State, step: Step): int {
    match step
    case Claim(t) => t
    case Mark(a) => if a < |s.attempts| then s.attempts[a].task else -1
    case FailRow(f) => if f < |s.failures| then s.failures[f].task else -1
    case _ => -1
  }

  lemma {:induction false} StatusAfter(m: Guarded, s: State, step: Step, t: nat)
    requires Shape(s) && Enabled(m, s, step) && t < |s.rows|
    ensures t < |Apply(m, s, step).rows|
    ensures var was, now := s.rows[t].status, Apply(m, s, step).rows[t].status;
            if Target(s, step) != t then now == was
            else if step.Claim? then Eligible(s.rows, t) && now == Dispatched
            else if step.Mark? then now == Complete
            else was.InFlight() && (now == Pending || now == Failed)
  {
    RowsAfter(m, s, step, t);
    hide CreditsFor, ReceiptSum, Remaining, TierPlan, Eligible;
  }

  /**
    With only rows in flight failed, whatever any participant does to a job whose rows are all there is a move of its
    DAG, that is the start of a ready task, or the completion, retry or giving up of one in flight, if and only if it
    is not a late result.
  */
  lemma {:induction false} StepIsMoveIff(m: Guarded, s: State, step: Step, job: nat)
    requires Shape(s) && Enabled(m, s, step) && Seeded(s, job)
    ensures var n := Apply(m, s, step);
            && JobDag(n.rows, job) == JobDag(s.rows, job)
            && (Moves(JobDag(s.rows, job), JobStatuses(s.rows, job), JobStatuses(n.rows, job)) <==>
                !LateResult(s, step, job))
  {
    hide Apply, Enabled, Eligible, Shape, JobRows, JobDag, Moves, Seeded, LateResult;
    var at, n := JobRows(s.rows, job), Apply(m, s, step);
    var edges, was, now := JobDag(s.rows, job), JobStatuses(s.rows, job), JobStatuses(n.rows, job);
    OthersKeep(m, s, step, job);
    if k :| 0 <= k < |at| && at[k] == Target(s, step) {
      OnlyOnce(s.rows, job, k);
      assert now == was[k := now[k]];
      StatusAfter(m, s, step, at[k]);
      LateMeans(m, s, step, job, at[k]);
      ReadyIsEligible(s.rows, job, k);
      OneRowMoves(edges, was, k, now[k]);
    } else {
      if LateResult(s, step, job) {
        var i := LateRow(s, step, job);
        assert false;
      }
      assert now == was;
      StandingStill(edges, was);
    }
  }

  lemma {:induction false} LateMeans(m: Mode, s: State, step: Step, job: nat, t: nat)
    requires Shape(s) && Enabled(m, s, step) && t < |s.rows| && s.rows[t].job == job && Target(s, step) == t
    ensures LateResult(s, step, job) <==> step.Mark? && (s.rows[t].status == Pending || s.rows[t].status == Failed)
  {
  }

  lemma {:induction false} LateRow(s: State, step: Step, job: nat) returns (k: nat)
    requires Shape(s) && LateResult(s, step, job)
    ensures k < |JobRows(s.rows, job)| && JobRows(s.rows, job)[k] == Target(s, step)
  {
    k := JobRowsAll(s.rows, job, TaskOf(s, step.a));
  }

  lemma {:induction false} StandingStill(edges: Edges, was: seq<SubTaskStatus>)
    ensures Moves(edges, was, was)
  {
  }

  lemma {:induction false} OnlyOnce(rows: seq<Row>, job: nat, k: nat)
    requires k < |JobRows(rows, job)|
    ensures forall i | 0 <= i < |JobRows(rows, job)| && i != k :: JobRows(rows, job)[i] != JobRows(rows, job)[k]
  {
    hide JobRows;
    var at := JobRows(rows, job);
    forall i | 0 <= i < |at| && i != k
      ensures at[i] != at[k]
    {
      if i < k { JobRowsOnce(rows, job, i, k); } else { JobRowsOnce(rows, job, k, i); }
    }
  }

  lemma {:induction false} ReadyIsEligible(rows: seq<Row>, job: nat, k: nat)
    requires k < |JobRows(rows, job)|
    ensures Eligible(rows, JobRows(rows, job)[k]) <==> Dag.Ready(JobDag(rows, job), JobStatuses(rows, job), k)
  {
    hide JobRows, Eligible;
    EligibleIsReady(rows, job, k);
  }

  /** The job keeps its rows and its DAG, and only the step's target can change its status. */
  lemma {:induction false} OthersKeep(m: Guarded, s: State, step: Step, job: nat)
    requires Shape(s) && Enabled(m, s, step) && Seeded(s, job)
    ensures var at, n := JobRows(s.rows, job), Apply(m, s, step);
            && JobRows(n.rows, job) == at && JobDag(n.rows, job) == JobDag(s.rows, job)
            && |JobStatuses(s.rows, job)| == |JobStatuses(n.rows, job)| == |at|
            && forall k | 0 <= k < |at| ::
                 && at[k] < |s.rows| && at[k] < |n.rows|
                 && JobStatuses(s.rows, job)[k] == s.rows[at[k]].status
                 && JobStatuses(n.rows, job)[k] == n.rows[at[k]].status
                 && (at[k] != Target(s, step) ==> JobStatuses(n.rows, job)[k] == JobStatuses(s.rows, job)[k])
  {
    hide Apply, Enabled, Eligible, Shape, JobRows, Seeded;
    var at, n := JobRows(s.rows, job), Apply(m, s, step);
    StepKeepsRows(m, s, step, job);
    SameJobRows(s.rows, n.rows, job);
    forall k | 0 <= k < |at|
      ensures at[k] < |n.rows|
      ensures at[k] != Target(s, step) ==> n.rows[at[k]].status == s.rows[at[k]].status
    {
      StatusAfter(m, s, step, at[k]);
    }
  }

  /** What the DAG lets happen to one task. */
  lemma {:induction false} OneRowMoves(edges: Edges, was: seq<SubTaskStatus>, k: nat, to: SubTaskStatus)
    requires k < |was|
    ensures Moves(edges, was, was[k := to]) <==>
              || to == was[k] || (was[k].InFlight() && to in {Complete, Pending, Failed})
              || (Dag.Ready(edges, was, k) && to == Dispatched)
  {
    if e :| Dag.Enabled(edges, was, e) && Dag.Apply(was, e) == was[k := to] && to != was[k] {
      assert was[k := to][k] == to;
      assert e.i == k;
    }
    if was[k].InFlight() && to == Complete {
      assert Dag.Enabled(edges, was, Dag.Finish(k)) && Dag.Apply(was, Dag.Finish(k)) == was[k := to];
    } else if was[k].InFlight() && to == Pending {
      assert Dag.Enabled(edges, was, Dag.Retry(k)) && Dag.Apply(was, Dag.Retry(k)) == was[k := to];
    } else if was[k].InFlight() && to == Failed {
      assert Dag.Enabled(edges, was, Dag.GiveUp(k)) && Dag.Apply(was, Dag.GiveUp(k)) == was[k := to];
    } else if Dag.Ready(edges, was, k) && to == Dispatched {
      assert Dag.Enabled(edges, was, Dag.Start(k)) && Dag.Apply(was, Dag.Start(k)) == was[k := to];
    }
  }

  // -------------------------------------------------------------------------
  // Whole runs
  // -------------------------------------------------------------------------

  lemma {:induction false} StaysSeeded(m: Mode, s: State, step: Step, job: nat)
    requires Shape(s) && Enabled(m, s, step) && Seeded(s, job)
    ensures Seeded(Apply(m, s, step), job)
  {
    RowsKeepJobs(m, s, step);
    PlansAfter(m, s, step, job);
    hide Apply;
  }

  ghost predicate NoLateResult(m: Mode, s: State, steps: seq<Step>, job: nat)
    requires Shape(s) && IsRun(m, s, steps)
    decreases |steps|
  {
    steps == [] || (!LateResult(s, steps[0], job)
        && (StepKeepsShape(m, s, steps[0]); NoLateResult(m, Apply(m, s, steps[0]), steps[1..], job)))
  }

  /**
    Any run of any number of replicas, handlers and workers, seen through the statuses of one job, is a run of the
    job's DAG, as long as no late result comes in.
  */
  lemma {:induction false} RunRefines(m: Guarded, s: State, steps: seq<Step>, job: nat)
      returns (events: seq<Dag.Event>)
    requires Shape(s) && IsRun(m, s, steps) && Seeded(s, job) && NoLateResult(m, s, steps, job)
    ensures Dag.IsRun(JobDag(s.rows, job), JobStatuses(s.rows, job), events)
    ensures Dag.After(JobStatuses(s.rows, job), events) == JobStatuses(After(m, s, steps).rows, job)
    decreases |steps|
  {
    hide Apply, Enabled, JobStatuses, JobDag, Shape, LateResult, Dag.Enabled, Dag.Apply;
    events := [];
    if steps != [] {
      var n := Apply(m, s, steps[0]);
      StepKeepsShape(m, s, steps[0]);
      StaysSeeded(m, s, steps[0], job);
      StepIsMoveIff(m, s, steps[0], job);
      var rest := RunRefines(m, n, steps[1..], job);
      var edges, was, now := JobDag(s.rows, job), JobStatuses(s.rows, job), JobStatuses(n.rows, job);
      if now == was {
        events := rest;
      } else {
        var e :| Dag.Enabled(edges, was, e) && Dag.Apply(was, e) == now;
        events := [e] + rest;
        assert events[1..] == rest;
      }
    }
  }
}
