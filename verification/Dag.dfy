/** `build_dag`, `ready_indices`, and runs that dispatch whatever is ready. */
module Dag {
  import opened Wrappers
  import opened Types
  import opened Graph

  datatype PlannerTask = PlannerTask(role: AgentRole, promptShard: string, minTier: NodeTier)

  /** The planner's answer, already parsed. */
  datatype Plan = Plan(tasks: seq<PlannerTask>, edges: Edges)

  datatype SubTask = SubTask(
    id: nat, jobId: nat, role: AgentRole, promptShard: string, minTier: NodeTier, status: SubTaskStatus)

  datatype TaskDag = TaskDag(tasks: seq<SubTask>, edges: Edges)

  datatype DagError = NoTasks | TooLarge | OutOfBounds(source: nat, target: nat, n: nat) | SelfLoop | Cyclic

  const MAX_TASKS: nat := 64

  // -------------------------------------------------------------------------
  // build_dag
  // -------------------------------------------------------------------------

  predicate GoodEdge(n: nat, e: (nat, nat)) {
    e.0 < n && e.1 < n && e.0 != e.1
  }

  /** `k` is the first edge that `build_dag` rejects. */
  ghost predicate FirstBadEdge(n: nat, edges: Edges, k: nat) {
    k < |edges| && !GoodEdge(n, edges[k]) && forall i | 0 <= i < k :: GoodEdge(n, edges[i])
  }

  ghost predicate FreshTask(t: SubTask, jobId: nat, from: PlannerTask) {
    && t.jobId == jobId && t.status == Pending
    && t.role == from.role && t.promptShard == from.promptShard && t.minTier == from.minTier
  }

  /** A plan that `build_dag` accepts. */
  ghost predicate Acceptable(plan: Plan) {
    1 <= |plan.tasks| <= 64 && InBounds(|plan.tasks|, plan.edges) && !HasCycle(plan.edges)
  }

  lemma {:induction false} SelfLoopIsCycle(edges: Edges, k: nat)
    requires k < |edges| && edges[k].0 == edges[k].1
    ensures HasCycle(edges)
  {
    var v := edges[k].0;
    assert (v, v) == edges[k];
    assert IsCycle(edges, [v, v]);
  }

  lemma {:induction false} FirstBadEdgeUnique(n: nat, edges: Edges, k: nat)
    requires FirstBadEdge(n, edges, k)
    ensures forall j: nat :: FirstBadEdge(n, edges, j) ==> j == k
  {
  }

  /**
    A plan is accepted exactly when it has 1 to 64 tasks, every edge is in bounds and no path returns to
    its start; otherwise the error names the first check that failed.
  */
  method BuildDag(jobId: nat, plan: Plan, ids: nat -> nat) returns (r: Result<TaskDag, DagError>)
    ensures r.Ok? <==> Acceptable(plan)
    ensures r.Ok? ==>
              && r.value.edges == plan.edges && |r.value.tasks| == |plan.tasks|
              && forall i | 0 <= i < |plan.tasks| ::
                   r.value.tasks[i].id == ids(i) && FreshTask(r.value.tasks[i], jobId, plan.tasks[i])
    ensures r == Err(NoTasks) <==> plan.tasks == []
    ensures r == Err(TooLarge) <==> |plan.tasks| > 64
    ensures forall k: nat | 1 <= |plan.tasks| <= 64 && FirstBadEdge(|plan.tasks|, plan.edges, k) ::
              var n, (from, to) := |plan.tasks|, plan.edges[k];
              r == Err(if from >= n || to >= n then OutOfBounds(from, to, n) else SelfLoop)
    ensures r == Err(Cyclic) ==>
        HasCycle(plan.edges) && forall i | 0 <= i < |plan.edges| :: GoodEdge(|plan.tasks|, plan.edges[i])
  {
    var n := |plan.tasks|;
    if n == 0 {
      return Err(NoTasks);
    }
    if n > MAX_TASKS {
      return Err(TooLarge);
    }
    for k := 0 to |plan.edges|
      invariant forall i | 0 <= i < k :: GoodEdge(n, plan.edges[i])
    {
      var (from, to) := plan.edges[k];
      assert plan.edges[k] == (from, to);
      if from >= n || to >= n {
        FirstBadEdgeUnique(n, plan.edges, k);
        return Err(OutOfBounds(from, to, n));
      }
      if from == to {
        FirstBadEdgeUnique(n, plan.edges, k);
        SelfLoopIsCycle(plan.edges, k);
        return Err(SelfLoop);
      }
    }
    var tasks := seq(n, i requires 0 <= i < n =>
      SubTask(ids(i), jobId, plan.tasks[i].role, plan.tasks[i].promptShard, plan.tasks[i].minTier, Pending));
    var dag := TaskDag(tasks, plan.edges);
    var sorted, _ := Toposort(|dag.tasks|, dag.edges);
    if !sorted {
      return Err(Cyclic);
    }
    return Ok(dag);
  }

  /** The same acceptance condition, with a topological order as its evidence. */
  lemma {:induction false} AcceptableMeansOrdered(plan: Plan)
    ensures Acceptable(plan) <==>
            && 1 <= |plan.tasks| <= 64 && InBounds(|plan.tasks|, plan.edges)
            && exists order :: IsTopological(|plan.tasks|, plan.edges, order)
  {
    if InBounds(|plan.tasks|, plan.edges) {
      AcyclicIffOrdered(|plan.tasks|, plan.edges);
    }
  }

  // -------------------------------------------------------------------------
  // ready_indices
  // -------------------------------------------------------------------------

  /** All predecessors are complete and the task is still pending. */
  ghost predicate Ready(edges: Edges, st: seq<SubTaskStatus>, i: nat) {
    i < |st| && st[i] == Pending && forall a | (a, i) in edges && a < |st| :: st[a] == Complete
  }

  function Statuses(dag: TaskDag): (st: seq<SubTaskStatus>)
    ensures |st| == |dag.tasks| && forall i | 0 <= i < |st| :: st[i] == dag.tasks[i].status
  {
    seq(|dag.tasks|, i requires 0 <= i < |dag.tasks| => dag.tasks[i].status)
  }

  method ReadyIndices(dag: TaskDag) returns (ready: seq<nat>)
    requires InBounds(|dag.tasks|, dag.edges)
    ensures forall i: nat :: i in ready <==> Ready(dag.edges, Statuses(dag), i)
    ensures forall i, j | 0 <= i < j < |ready| :: ready[i] < ready[j]
  {
    var n := |dag.tasks|;
    var blocked := new bool[n](_ => false);
    for k := 0 to |dag.edges|
      invariant forall b | 0 <= b < n ::
                  blocked[b] <==> exists m ::
                      0 <= m < k && dag.edges[m].1 == b && dag.tasks[dag.edges[m].0].status != Complete
    {
      var (from, to) := dag.edges[k];
      ghost var before := blocked[..];
      if dag.tasks[from].status != Complete {
        blocked[to] := true;
        assert dag.edges[k].1 == to && dag.tasks[dag.edges[k].0].status != Complete;
      }
      forall b | 0 <= b < n
        ensures blocked[b] <==> exists m ::
            0 <= m < k + 1 && dag.edges[m].1 == b && dag.tasks[dag.edges[m].0].status != Complete
      {
        assert before[b] <==> exists m ::
            0 <= m < k && dag.edges[m].1 == b && dag.tasks[dag.edges[m].0].status != Complete;
        if blocked[b] && !before[b] {
          assert b == to;
        }
      }
    }
    forall b | 0 <= b < n
      ensures !blocked[b] && dag.tasks[b].status == Pending <==> Ready(dag.edges, Statuses(dag), b)
    {
      if blocked[b] {
        var m :| 0 <= m < |dag.edges| && dag.edges[m].1 == b && dag.tasks[dag.edges[m].0].status != Complete;
        assert (dag.edges[m].0, b) in dag.edges;
      }
    }
    ready := [];
    for i := 0 to n
      invariant forall j: nat :: j in ready <==> j < i && Ready(dag.edges, Statuses(dag), j)
      invariant forall a, b | 0 <= a < b < |ready| :: ready[a] < ready[b]
    {
      if !blocked[i] && dag.tasks[i].status == Pending {
        assert forall a | 0 <= a < |ready| :: ready[a] in ready;
        ready := ready + [i];
      }
    }
  }

  // -------------------------------------------------------------------------
  // Runs that start only ready tasks
  // -------------------------------------------------------------------------

  datatype Event = Start(i: nat) | Finish(i: nat) | Retry(i: nat) | GiveUp(i: nat)

  ghost predicate Enabled(edges: Edges, st: seq<SubTaskStatus>, e: Event) {
    match e
    case Start(i) => Ready(edges, st, i)
    case Finish(i) => i < |st| && st[i].InFlight()
    case Retry(i) => i < |st| && st[i].InFlight()
    case GiveUp(i) => i < |st| && st[i].InFlight()
  }

  function Apply(st: seq<SubTaskStatus>, e: Event): seq<SubTaskStatus> {
    if e.i >= |st| then st
    else
      st[e.i := match e
                case Start(_) => Dispatched
                case Finish(_) => Complete
                case Retry(_) => Pending
                case GiveUp(_) => Failed]
  }

  ghost predicate IsRun(edges: Edges, st: seq<SubTaskStatus>, events: seq<Event>)
    decreases |events|
  {
    events == [] || (Enabled(edges, st, events[0]) && IsRun(edges, Apply(st, events[0]), events[1..]))
  }

  function After(st: seq<SubTaskStatus>, events: seq<Event>): (r: seq<SubTaskStatus>)
    ensures |r| == |st|
    decreases |events|
  {
    if events == [] then st else After(Apply(st, events[0]), events[1..])
  }

  /** The tasks completed along a run, in order. */
  function Completions(events: seq<Event>): seq<nat> {
    if events == [] then []
    else (if events[0].Finish? then [events[0].i] else []) + Completions(events[1..])
  }

  predicate AllPending(st: seq<SubTaskStatus>) {
    forall i | 0 <= i < |st| :: st[i] == Pending
  }

  predicate AllComplete(st: seq<SubTaskStatus>) {
    forall i | 0 <= i < |st| :: st[i] == Complete
  }

  /** Whatever has ever been started has all its predecessors complete. */
  ghost predicate Closed(edges: Edges, st: seq<SubTaskStatus>) {
    forall a, b | (a, b) in edges && a < |st| && b < |st| && st[b] != Pending :: st[a] == Complete
  }

  /** While some task is unfinished and none is in flight or failed, something is ready. */
  lemma {:induction false} NeverStuck(edges: Edges, st: seq<SubTaskStatus>)
    requires InBounds(|st|, edges) && !HasCycle(edges)
    requires forall i | 0 <= i < |st| :: st[i] == Pending || st[i] == Complete
    requires !AllComplete(st)
    ensures exists i :: Ready(edges, st, i)
  {
    var order := CompleteOrder(|st|, edges, []);
    ElementsBelow(order, |st|);
    var i :| 0 <= i < |st| && st[i] != Complete;
    assert i in order;
    var k :| 0 <= k < |order| && order[k] == i;
    forall m | 0 <= m < |order|
      ensures order[m] < |st|
    {
      assert order[m] in order;
    }
    var j := FirstUnfinished(order, st, k);
    forall a | (a, order[j]) in edges && a < |st|
      ensures st[a] == Complete
    {
      assert a in order;
      var m :| 0 <= m < |order| && order[m] == a;
      assert m < j;
    }
    assert Ready(edges, st, order[j]);
  }

  lemma {:induction false} FirstUnfinished(order: seq<nat>, st: seq<SubTaskStatus>, k: nat) returns (j: nat)
    requires forall m | 0 <= m < |order| :: order[m] < |st|
    requires k < |order| && st[order[k]] != Complete
    ensures j <= k && st[order[j]] != Complete && forall m | 0 <= m < j :: st[order[m]] == Complete
  {
    j := 0;
    while st[order[j]] == Complete
      invariant j <= k && forall m | 0 <= m < j :: st[order[m]] == Complete
      decreases k - j
    {
      j := j + 1;
    }
  }

  lemma {:induction false} RunStaysClosed(edges: Edges, st: seq<SubTaskStatus>, events: seq<Event>)
    requires Closed(edges, st) && IsRun(edges, st, events)
    ensures Closed(edges, After(st, events))
    decreases |events|
  {
    if events != [] {
      RunStaysClosed(edges, Apply(st, events[0]), events[1..]);
    }
  }

  /** How a run's completions relate to the statuses around it. */
  lemma {:induction false} CompletionsExact(edges: Edges, st: seq<SubTaskStatus>, events: seq<Event>)
    requires IsRun(edges, st, events)
    ensures NoDuplicates(Completions(events))
    ensures forall i | i in Completions(events) :: i < |st|
    ensures forall i | 0 <= i < |st| ::
              After(st, events)[i] == Complete <==> st[i] == Complete || i in Completions(events)
    ensures forall i | 0 <= i < |st| && st[i] == Complete :: i !in Completions(events)
    decreases |events|
  {
    if events != [] {
      CompletionsExact(edges, Apply(st, events[0]), events[1..]);
    }
  }

  lemma {:induction false} CompletionsOrdered(edges: Edges, st: seq<SubTaskStatus>, events: seq<Event>, a: nat, j: nat)
    requires Closed(edges, st) && IsRun(edges, st, events)
    requires j < |Completions(events)| && a < |st| && (a, Completions(events)[j]) in edges
    ensures st[a] == Complete || a in Completions(events)[..j]
    decreases |events|
  {
    var e := events[0];
    var next := Apply(st, e);
    var rest := Completions(events[1..]);
    if e.Finish? {
      if j > 0 {
        assert Completions(events)[j] == rest[j - 1];
        CompletionsOrdered(edges, next, events[1..], a, j - 1);
        assert Completions(events)[..j] == [e.i] + rest[..j - 1];
      }
    } else {
      assert Completions(events) == rest;
      CompletionsOrdered(edges, next, events[1..], a, j);
    }
  }

  /**
    A run from the all-pending state that ends with every task complete has completed each task exactly
    once, in a topological order.
  */
  lemma {:induction false} RunIsTopological(edges: Edges, st: seq<SubTaskStatus>, events: seq<Event>)
    requires InBounds(|st|, edges) && AllPending(st) && IsRun(edges, st, events)
    requires AllComplete(After(st, events))
    ensures IsTopological(|st|, edges, Completions(events))
  {
    var c := Completions(events);
    CompletionsExact(edges, st, events);
    ElementsBelow(c, |st|);
    if |c| < |st| {
      var v := Missing(|st|, c);
    }
    forall i, j | 0 <= i < |st| && 0 <= j < |st| && (c[i], c[j]) in edges
      ensures i < j
    {
      CompletionsOrdered(edges, st, events, c[i], j);
      var k :| 0 <= k < j && c[k] == c[i];
    }
  }

  /** A run of an accepted plan that can go no further, and in which nothing was given up, is finished. */
  lemma {:induction false} MaximalRunFinishes(edges: Edges, st: seq<SubTaskStatus>, events: seq<Event>)
    requires InBounds(|st|, edges) && !HasCycle(edges) && AllPending(st) && IsRun(edges, st, events)
    requires forall e :: !Enabled(edges, After(st, events), e)
    requires forall i | 0 <= i < |st| :: After(st, events)[i] != Failed
    ensures IsTopological(|st|, edges, Completions(events))
  {
    var end := After(st, events);
    forall i | 0 <= i < |end|
      ensures end[i] == Pending || end[i] == Complete
    {
      assert !Enabled(edges, end, Finish(i));
    }
    if !AllComplete(end) {
      NeverStuck(edges, end);
      var i :| Ready(edges, end, i);
      assert Enabled(edges, end, Start(i));
    }
    RunIsTopological(edges, st, events);
  }

  // -------------------------------------------------------------------------
  // The dispatcher's positions are a special case
  // -------------------------------------------------------------------------

  /** An edge for every pair of strictly increasing positions. */
  function PositionEdges(pos: seq<int>, i: nat, j: nat): (edges: Edges)
    requires i <= |pos| && (i < |pos| ==> j <= |pos|)
    ensures forall a, b :: (a, b) in edges <==>
              i <= a < |pos| && 0 <= b < |pos| && pos[a] < pos[b] && (a == i ==> j <= b)
    decreases |pos| - i, |pos| - j
  {
    if i == |pos| then []
    else if j == |pos| then PositionEdges(pos, i + 1, 0)
    else (if pos[i] < pos[j] then [(i, j)] else []) + PositionEdges(pos, i, j + 1)
  }

  function DagOf(pos: seq<int>): (edges: Edges)
    ensures forall a, b :: (a, b) in edges <==> 0 <= a < |pos| && 0 <= b < |pos| && pos[a] < pos[b]
  {
    PositionEdges(pos, 0, 0)
  }

  lemma {:induction false} PositionsRise(pos: seq<int>, p: seq<nat>)
    requires |p| >= 2 && IsWalk(DagOf(pos), p)
    ensures p[0] < |pos| && p[|p| - 1] < |pos| && pos[p[0]] < pos[p[|p| - 1]]
    decreases |p|
  {
    assert (p[0], p[1]) in DagOf(pos);
    if |p| > 2 {
      SubWalk(DagOf(pos), p, 1, |p|);
      PositionsRise(pos, p[1..]);
    }
  }

  /** `build_dag` would accept the position DAG of any job with 1 to 64 sub-tasks. */
  lemma {:induction false} PositionsAreAcceptable(tasks: seq<PlannerTask>, pos: seq<int>)
    requires |tasks| == |pos| && 1 <= |pos| <= 64
    ensures Acceptable(Plan(tasks, DagOf(pos)))
  {
    var edges := DagOf(pos);
    forall i | 0 <= i < |edges|
      ensures edges[i].0 < |pos| && edges[i].1 < |pos|
    {
      assert (edges[i].0, edges[i].1) in edges;
    }
    if p :| IsCycle(edges, p) {
      PositionsRise(pos, p);
    }
  }
}
