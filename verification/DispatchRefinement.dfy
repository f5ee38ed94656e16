/** The dispatcher's SQL condition against `ready_indices` of the DAG its positions stand for. */
module DispatchRefinement {
  import opened Types
  import Dag
  import opened Lifecycle
  import opened JobPlans
  import opened TaskManager

  /** The rows of one job, in creation order. */
  function JobRows(rows: seq<Row>, job: nat): (at: seq<nat>)
    ensures forall k | 0 <= k < |at| :: at[k] < |rows| && rows[at[k]].job == job
  {
    if rows == [] then []
    else JobRows(rows[..|rows| - 1], job) + if rows[|rows| - 1].job == job then [|rows| - 1] else []
  }

  lemma {:induction false} JobRowsAll(rows: seq<Row>, job: nat, t: nat) returns (k: nat)
    requires t < |rows| && rows[t].job == job
    ensures k < |JobRows(rows, job)| && JobRows(rows, job)[k] == t
  {
    var last := |rows| - 1;
    if t == last {
      k := |JobRows(rows[..last], job)|;
    } else {
      k := JobRowsAll(rows[..last], job, t);
    }
  }

  function Positions(rows: seq<Row>, at: seq<nat>): (pos: seq<int>)
    requires forall k | 0 <= k < |at| :: at[k] < |rows|
    ensures |pos| == |at| && forall k | 0 <= k < |at| :: pos[k] == rows[at[k]].position
  {
    seq(|at|, k requires 0 <= k < |at| => rows[at[k]].position)
  }

  function StatusesAt(rows: seq<Row>, at: seq<nat>): (st: seq<SubTaskStatus>)
    requires forall k | 0 <= k < |at| :: at[k] < |rows|
    ensures |st| == |at| && forall k | 0 <= k < |at| :: st[k] == rows[at[k]].status
  {
    seq(|at|, k requires 0 <= k < |at| => rows[at[k]].status)
  }

  /** For each row of any job the dispatcher's condition holds exactly when its task is ready in the position DAG. */
  lemma {:induction false} EligibleIsReady(rows: seq<Row>, job: nat, k: nat)
    requires k < |JobRows(rows, job)|
    ensures var at := JobRows(rows, job);
            Eligible(rows, at[k]) <==> Dag.Ready(Dag.DagOf(Positions(rows, at)), StatusesAt(rows, at), k)
  {
    var at := JobRows(rows, job);
    var pos, st := Positions(rows, at), StatusesAt(rows, at);
    if Dag.Ready(Dag.DagOf(pos), st, k) {
      forall d | 0 <= d < |rows| && rows[d].job == rows[at[k]].job && rows[d].position < rows[at[k]].position
        ensures rows[d].status == Complete
      {
        var i := JobRowsAll(rows, job, d);
        assert (i, k) in Dag.DagOf(pos);
      }
    }
  }

  /** One dispatch, limit and row locks apart, claims exactly the tasks `ready_indices` would list, job by job. */
  lemma {:induction false} DispatchClaimsReady(rows: seq<Row>, locked: set<nat>, job: nat, k: nat)
    requires k < |JobRows(rows, job)|
    ensures var at := JobRows(rows, job);
            var ready := ReadyFrom(rows, locked, 0, DISPATCH_LIMIT);
            var isReady := Dag.Ready(Dag.DagOf(Positions(rows, at)), StatusesAt(rows, at), k);
            && (at[k] in ready ==> isReady && at[k] !in locked)
            && (isReady && at[k] !in locked && |ready| < 50 ==> at[k] in ready)
  {
    EligibleIsReady(rows, job, k);
    var ready := ReadyFrom(rows, locked, 0, DISPATCH_LIMIT);
    var t := JobRows(rows, job)[k];
    if t in ready {
      var i :| 0 <= i < |ready| && ready[i] == t;
      assert Eligible(rows, ready[i]);
    }
  }

  /** Once the planner of a Premium job is done, one dispatch sends out both its coders. */
  lemma {:induction false} BothCodersGo(rows: seq<Row>, locked: set<nat>, base: nat, job: nat)
    requires AsSubmitted(rows, base, job, Premium) && IsDone(rows, base)
    requires IsPending(rows, base + 1) && IsPending(rows, base + 2) && base + 1 !in locked && base + 2 !in locked
    requires |Dispatchable(rows, locked)| <= 50
    ensures var ready := ReadyFrom(rows, locked, 0, DISPATCH_LIMIT); base + 1 in ready && base + 2 in ready
  {
    EligibleByTier(rows, base, job, Premium);
    FiftyAtOnce(rows, locked);
    assert base + 1 in Dispatchable(rows, locked) && base + 2 in Dispatchable(rows, locked);
  }
}
