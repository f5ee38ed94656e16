/**
  Sub-tasks from dispatch to receipt, as a step system.

  Every step is one statement against PostgreSQL or Redis, or one move of a worker, so a run of the system
  is a statement-level interleaving of any number of orchestrator replicas, result handlers and workers.
*/
module Lifecycle {
  import opened Wrappers
  import opened Types
  import opened Credits

  // -------------------------------------------------------------------------
  // State
  // -------------------------------------------------------------------------

  /** A `sub_tasks` row; its id is its index. */
  datatype Row = Row(
    job: nat, role: AgentRole, position: int, status: SubTaskStatus, retries: nat, tokensIn: U32, tokensOut: U32)

  datatype JobStatus = JobPending | JobComplete | JobFailed

  /** A `jobs` row, its id being its index, with the rows of its plan that `submit_job` has yet to insert. */
  datatype Job = Job(status: JobStatus, budget: real, cost: Option<real>, unseeded: seq<Row>)

  datatype Node = Node(tier: NodeTier, jobsCompleted: nat)

  /** A `credit_receipts` row. */
  datatype Receipt = Receipt(task: nat, job: nat, node: Node, tokensIn: U32, tokensOut: U32, credits: real)

  /** How far one result has got, from the worker's read of an entry, if it has one, to its ACK. */
  datatype Phase =
    | Holding                     // the worker has the entry, or a result to report without one
    | Loaded                      // the handler's guard saw an incomplete task
    | Marked                      // the row is complete
    | Credited(credits: real)     // the share is computed
    | Receipted                   // the receipt is stored
    | Counted(remaining: nat)     // finalise has counted the job's incomplete rows
    | Summed(total: real)         // finalise has summed the job's receipts
    | Replied                     // the handler has answered with the receipt
    | Acked                       // the worker has acknowledged the entry
    | Dropped                     // rejected, or the worker is gone
  {
    predicate AfterMark() {
      Marked? || Credited? || Receipted? || Counted? || Summed? || Replied? || Acked?
    }
    /** The receipt for this mark is still to be written. */
    predicate Owing() {
      Marked? || Credited?
    }
    /** Between the mark and the answer. */
    predicate Unanswered() {
      Marked? || Credited? || Receipted? || Counted? || Summed?
    }
    /** The job's completion is still to be written by this handler, if everything is complete. */
    predicate Finalising() {
      Marked? || Credited? || Receipted? || (Counted? && remaining == 0) || Summed?
    }
  }

  /** One result for a task; it comes from a delivered entry, or from a node that was never handed the task. */
  datatype Attempt = Attempt(
    task: nat, entry: Option<nat>, node: Node, tokensIn: U32, tokensOut: U32, phase: Phase)

  /** How far one call of `fail_task` has got. */
  datatype Stage =
    | Noted        // it has read the retry count
    | RowFailed    // it has failed the row for good and is about to fail the job
    | Over

  datatype Failure = Failure(task: nat, retries: nat, stage: Stage)

  /**
    `outbox`: claimed rows not pushed yet; `stream`: the task each entry carries; `acked`: acknowledged entries;
    `group`: the first entry the consumer group reads, once a worker has created the group.
  */
  datatype State = State(
    rows: seq<Row>, jobs: seq<Job>, outbox: seq<nat>, stream: seq<nat>, acked: set<nat>, group: Option<nat>,
    receipts: seq<Receipt>, attempts: seq<Attempt>, failures: seq<Failure>)

  const INIT := State([], [], [], [], {}, None, [], [], [])

  const MAX_RETRIES: nat := 3

  /** Fresh rows of one job. */
  predicate PlanOf(plan: seq<Row>, job: nat) {
    forall i | 0 <= i < |plan| :: plan[i] == NewRow(job, plan[i].role, plan[i].position)
  }

  /** Index bounds between the tables. */
  ghost predicate Shape(s: State) {
    && (forall t | 0 <= t < |s.rows| :: s.rows[t].job < |s.jobs|)
    && (forall j | 0 <= j < |s.jobs| :: PlanOf(s.jobs[j].unseeded, j))
    && (forall i | 0 <= i < |s.outbox| :: s.outbox[i] < |s.rows|)
    && (forall e | 0 <= e < |s.stream| :: s.stream[e] < |s.rows|)
    && (forall e | e in s.acked :: e < |s.stream|)
    && (s.group.Some? ==> s.group.value <= |s.stream|)
    && (forall a | 0 <= a < |s.attempts| :: s.attempts[a].task < |s.rows| && EntryInGroup(s, s.attempts[a]))
    && (forall f | 0 <= f < |s.failures| :: s.failures[f].task < |s.rows|)
    && (forall r | 0 <= r < |s.receipts| ::
          s.receipts[r].task < |s.rows| && s.receipts[r].job == s.rows[s.receipts[r].task].job)
  }

  /** The entry behind an attempt, if any, carries its task and was pushed after the group was created. */
  predicate EntryInGroup(s: State, at: Attempt) {
    at.entry.Some? ==> InGroup(s, at.entry.value) && s.stream[at.entry.value] == at.task
  }

  /** XREADGROUP and XAUTOCLAIM return only entries the group has not started after. */
  predicate InGroup(s: State, e: nat) {
    s.group.Some? && s.group.value <= e < |s.stream|
  }

  predicate Deliverable(s: State, e: nat) {
    InGroup(s, e) && e !in s.acked
  }

  function TaskOf(s: State, a: nat): nat
    requires a < |s.attempts|
  {
    s.attempts[a].task
  }

  // -------------------------------------------------------------------------
  // Seeding a job
  // -------------------------------------------------------------------------

  function NewRow(job: nat, role: AgentRole, position: int): Row {
    Row(job, role, position, Pending, 0, 0, 0)
  }

  /** The rows `submit_job` inserts for each tier. */
  function TierPlan(tier: JobTier, job: nat): (rows: seq<Row>)
    ensures |rows| >= 3 && PlanOf(rows, job)
    ensures forall i, k | 0 <= i < k < |rows| :: rows[i].position <= rows[k].position
  {
    match tier
    case Standard => [NewRow(job, Planner, 0), NewRow(job, Coder, 1), NewRow(job, Summarizer, 2)]
    case Paid => [NewRow(job, Planner, 0), NewRow(job, Coder, 1), NewRow(job, Critic, 2)]
    case Premium =>
      [NewRow(job, Planner, 0), NewRow(job, Coder, 1), NewRow(job, Coder, 1), NewRow(job, Critic, 2),
          NewRow(job, Aggregator, 3)]
  }

  // -------------------------------------------------------------------------
  // Queries
  // -------------------------------------------------------------------------

  /** The dispatcher's condition: pending, and no row of the job at a lower position is unfinished. */
  predicate Eligible(rows: seq<Row>, t: nat) {
    && t < |rows| && rows[t].status == Pending
    && forall d | 0 <= d < |rows| :: rows[d].job == rows[t].job && rows[d].position < rows[t].position ==>
        rows[d].status == Complete
  }

  predicate JobDone(rows: seq<Row>, job: nat) {
    forall t | 0 <= t < |rows| :: rows[t].job == job ==> rows[t].status == Complete
  }

  /** SELECT COUNT(*) ... WHERE job_id = job AND status != 'complete' */
  function Remaining(rows: seq<Row>, job: nat): nat {
    if rows == [] then 0
    else
      var last := rows[|rows| - 1];
      Remaining(rows[..|rows| - 1], job) + if last.job == job && last.status != Complete then 1 else 0
  }

  /** The completed rows of a job as the credit formula sees them: tier always Edge. */
  function CompletedWorks(rows: seq<Row>, job: nat): seq<Work> {
    if rows == [] then []
    else
      var last := rows[|rows| - 1];
      CompletedWorks(rows[..|rows| - 1], job) +
      if last.job == job && last.status == Complete then [Work(last.tokensIn, last.tokensOut, last.role, Edge)] else []
  }

  /** SELECT SUM(credits) ... WHERE job_id = job */
  function ReceiptSum(receipts: seq<Receipt>, job: nat): real {
    if receipts == [] then 0.0
    else
      var last := receipts[|receipts| - 1];
      ReceiptSum(receipts[..|receipts| - 1], job) + if last.job == job then last.credits else 0.0
  }

  /** The share `submit_task_result` computes for an attempt in the current state. */
  function CreditsFor(s: State, a: nat): real
    requires Shape(s) && a < |s.attempts|
  {
    var at := s.attempts[a];
    var row := s.rows[TaskOf(s, a)];
    NodeCreditShare(Work(at.tokensIn, at.tokensOut, row.role, at.node.tier),
                    CompletedWorks(s.rows, row.job), s.jobs[row.job].budget, at.node.jobsCompleted)
  }

  // -------------------------------------------------------------------------
  // Steps
  // -------------------------------------------------------------------------

  /**
    Which statements run together. `serialised`: a handler's guard, validation and mark run without another
    handler of the same task in between. `atomicFinalise`: count, sum and update of one finalise are one step.
    `atomicSeed`: so are inserting a job and all its rows. `guardedFail`: a row is failed only while it is in
    flight. `serialisedRetry`: `fail_task`'s read of the retry count and its update of the row run without
    another call for that row in between. `atomicEscalation`: failing a row for good and failing its job are
    one step. `groupFirst`: the consumer group is there before anything is pushed. `reliablePush`: every claimed
    row is pushed. `reliableHandlers`: a handler that has marked its task answers. `promptedOnly`: only workers
    that were handed a task report a result for it. The code has none of them.
  */
  datatype Mode = Mode(
    serialised: bool, atomicFinalise: bool, atomicSeed: bool,
    guardedFail: bool, serialisedRetry: bool, atomicEscalation: bool,
    groupFirst: bool, reliablePush: bool, reliableHandlers: bool, promptedOnly: bool)

  /** Only rows in flight are failed. */
  type Guarded = m: Mode | m.guardedFail
    witness Mode(false, false, false, true, false, false, false, false, false, false)

  /** The tables before the first job. */
  function Start(m: Mode): State {
    if m.groupFirst then INIT.(group := Some(0)) else INIT
  }

  datatype Step =
    | Seed(tier: JobTier, budget: real)   // insert the job
    | Insert(j: nat)              // insert the next row of its plan
    | Claim(t: nat)               // a replica's claim of one eligible row
    | Push(i: nat)                // XADD of a claimed row
    | Forget(i: nat)              // the XADD failed, or the dispatcher died before it
    | Join                        // a worker starts: XGROUP CREATE at the end of the stream, unless it exists
    | Deliver(entry: nat, node: Node, tokensIn: U32, tokensOut: U32)   // first read or redelivery
    | Submit(t: nat, node: Node, tokensIn: U32, tokensOut: U32)        // a result nobody asked this node for
    | Abandon(a: nat)             // inference failed, the output was invalid, or the worker died
    | Load(a: nat)
    | Mark(a: nat)
    | Credit(a: nat)
    | Write(a: nat)               // insert the receipt
    | Count(a: nat)
    | Sum(a: nat)
    | Close(a: nat)               // update the job
    | Finalise(a: nat)            // count, sum and close together
    | Crash(a: nat)               // the handler ends with an error after its mark
    | Ack(a: nat)
    | Lose(a: nat)                // the worker dies before its ACK
    | Note(t: nat)                // fail_task reads the retry count
    | FailRow(f: nat)             // it updates the row
    | FailJob(f: nat)             // it updates the job

  ghost predicate InPhase(s: State, a: nat, p: Phase) {
    a < |s.attempts| && s.attempts[a].phase == p
  }

  /** Another handler of the same task is between its guard and its mark. */
  ghost predicate TaskBusy(s: State, task: nat)
    requires Shape(s)
  {
    exists b | 0 <= b < |s.attempts| :: s.attempts[b].phase == Loaded && TaskOf(s, b) == task
  }

  /** Another call of `fail_task` for the row is between its read and its update. */
  ghost predicate RowBusy(s: State, t: nat) {
    exists f | 0 <= f < |s.failures| :: s.failures[f].stage == Noted && s.failures[f].task == t
  }

  ghost predicate InStage(s: State, f: nat, stage: Stage) {
    f < |s.failures| && s.failures[f].stage == stage
  }

  ghost predicate Enabled(m: Mode, s: State, step: Step)
    requires Shape(s)
  {
    match step
    case Seed(_, budget) => budget > 0.0
    case Insert(j) => j < |s.jobs| && s.jobs[j].unseeded != []
    case Claim(t) => Eligible(s.rows, t)
    case Push(i) => i < |s.outbox|
    case Forget(i) => i < |s.outbox| && !m.reliablePush
    case Join => true
    case Deliver(e, _, _, _) => Deliverable(s, e)
    case Submit(t, _, _, _) => t < |s.rows| && !m.promptedOnly
    case Abandon(a) => InPhase(s, a, Holding) || InPhase(s, a, Loaded)
    case Load(a) => InPhase(s, a, Holding) && (m.serialised ==> !TaskBusy(s, TaskOf(s, a)))
    case Mark(a) => InPhase(s, a, Loaded)
    case Credit(a) => InPhase(s, a, Marked)
    case Write(a) => a < |s.attempts| && s.attempts[a].phase.Credited?
    case Count(a) => InPhase(s, a, Receipted) && !m.atomicFinalise
    case Sum(a) => a < |s.attempts| && s.attempts[a].phase.Counted?
    case Close(a) => a < |s.attempts| && s.attempts[a].phase.Summed?
    case Finalise(a) => InPhase(s, a, Receipted)
    case Crash(a) => a < |s.attempts| && s.attempts[a].phase.Unanswered() && !m.reliableHandlers
    case Ack(a) => InPhase(s, a, Replied) && s.attempts[a].entry.Some?
    case Lose(a) => InPhase(s, a, Replied)
    case Note(t) => t < |s.rows| && (m.serialisedRetry ==> !RowBusy(s, t))
    case FailRow(f) => InStage(s, f, Noted) && (m.guardedFail ==> s.rows[s.failures[f].task].status.InFlight())
    case FailJob(f) => InStage(s, f, RowFailed)
  }

  function To(s: State, a: nat, p: Phase): State
    requires a < |s.attempts|
  {
    s.(attempts := s.attempts[a := s.attempts[a].(phase := p)])
  }

  function SetRow(s: State, t: nat, row: Row): State
    requires t < |s.rows|
  {
    s.(rows := s.rows[t := row])
  }

  function CloseJob(s: State, job: nat, total: real): State
    requires job < |s.jobs|
  {
    s.(jobs := s.jobs[job := s.jobs[job].(status := JobComplete, cost := Some(total))])
  }

  function Staged(s: State, f: nat, stage: Stage): State
    requires f < |s.failures|
  {
    s.(failures := s.failures[f := s.failures[f].(stage := stage)])
  }

  /** Back to pending, with one more retry than the row has now. */
  function Retried(s: State, t: nat): State
    requires t < |s.rows|
  {
    SetRow(s, t, s.rows[t].(status := Pending, retries := s.rows[t].retries + 1))
  }

  function RowGone(s: State, t: nat): State
    requires t < |s.rows|
  {
    SetRow(s, t, s.rows[t].(status := Failed))
  }

  function JobGone(s: State, job: nat): State
    requires job < |s.jobs|
  {
    s.(jobs := s.jobs[job := s.jobs[job].(status := JobFailed)])
  }

  ghost function Apply(m: Mode, s: State, step: Step): State
    requires Shape(s) && Enabled(m, s, step)
  {
    match step
    case Seed(tier, budget) =>
      var plan := TierPlan(tier, |s.jobs|);
      if m.atomicSeed then s.(jobs := s.jobs + [Job(JobPending, budget, None, [])], rows := s.rows + plan)
      else s.(jobs := s.jobs + [Job(JobPending, budget, None, plan)])
    case Insert(j) =>
      var job := s.jobs[j];
      s.(jobs := s.jobs[j := job.(unseeded := job.unseeded[1..])], rows := s.rows + [job.unseeded[0]])
    case Claim(t) =>
      SetRow(s, t, s.rows[t].(status := Dispatched)).(outbox := s.outbox + [t])
    case Push(i) =>
      s.(outbox := s.outbox[..i] + s.outbox[i + 1..], stream := s.stream + [s.outbox[i]])
    case Forget(i) => s.(outbox := s.outbox[..i] + s.outbox[i + 1..])
    case Join => if s.group.None? then s.(group := Some(|s.stream|)) else s
    case Deliver(e, node, tin, tout) =>
      s.(attempts := s.attempts + [Attempt(s.stream[e], Some(e), node, tin, tout, Holding)])
    case Submit(t, node, tin, tout) =>
      s.(attempts := s.attempts + [Attempt(t, None, node, tin, tout, Holding)])
    case Abandon(a) => To(s, a, Dropped)
    case Load(a) =>
      To(s, a, if s.rows[TaskOf(s, a)].status == Complete then Dropped else Loaded)
    case Mark(a) =>
      var at, t := s.attempts[a], TaskOf(s, a);
      To(SetRow(s, t, s.rows[t].(status := Complete, tokensIn := at.tokensIn, tokensOut := at.tokensOut)), a, Marked)
    case Credit(a) => To(s, a, Credited(CreditsFor(s, a)))
    case Write(a) =>
      var at, t := s.attempts[a], TaskOf(s, a);
      To(s, a, Receipted).(receipts :=
        s.receipts + [Receipt(t, s.rows[t].job, at.node, at.tokensIn, at.tokensOut, at.phase.credits)])
    case Count(a) => To(s, a, Counted(Remaining(s.rows, s.rows[TaskOf(s, a)].job)))
    case Sum(a) =>
      var total := ReceiptSum(s.receipts, s.rows[TaskOf(s, a)].job);
      To(s, a, if s.attempts[a].phase.remaining == 0 then Summed(total) else Replied)
    case Close(a) =>
      To(CloseJob(s, s.rows[TaskOf(s, a)].job, s.attempts[a].phase.total), a, Replied)
    case Finalise(a) =>
      var job := s.rows[TaskOf(s, a)].job;
      To(if Remaining(s.rows, job) == 0 then CloseJob(s, job, ReceiptSum(s.receipts, job)) else s, a, Replied)
    case Crash(a) => To(s, a, Dropped)
    case Ack(a) => To(s, a, Acked).(acked := s.acked + {s.attempts[a].entry.value})
    case Lose(a) => To(s, a, Dropped)
    case Note(t) => s.(failures := s.failures + [Failure(t, s.rows[t].retries, Noted)])
    case FailRow(f) =>
      var t := s.failures[f].task;
      if s.failures[f].retries < MAX_RETRIES then Staged(Retried(s, t), f, Over)
      else if m.atomicEscalation then Staged(JobGone(RowGone(s, t), s.rows[t].job), f, Over)
      else Staged(RowGone(s, t), f, RowFailed)
    case FailJob(f) => Staged(JobGone(s, s.rows[s.failures[f].task].job), f, Over)
  }

  lemma {:induction false} RowsKeepJobs(m: Mode, s: State, step: Step)
    requires Shape(s) && Enabled(m, s, step)
    ensures var n := Apply(m, s, step);
            && |s.rows| <= |n.rows| && |s.jobs| <= |n.jobs|
            && (forall t | 0 <= t < |s.rows| :: n.rows[t].job == s.rows[t].job)
            && (forall t | |s.rows| <= t < |n.rows| :: n.rows[t].job < |n.jobs|)
  {
    hide CreditsFor, Remaining, ReceiptSum;
  }

  lemma {:induction false} PlansKeepShape(m: Mode, s: State, step: Step)
    requires Shape(s) && Enabled(m, s, step)
    ensures var n := Apply(m, s, step); forall j | 0 <= j < |n.jobs| :: PlanOf(n.jobs[j].unseeded, j)
  {
    hide CreditsFor, Remaining, ReceiptSum;
  }

  lemma {:induction false} QueuesKeepShape(m: Mode, s: State, step: Step)
    requires Shape(s) && Enabled(m, s, step)
    ensures var n := Apply(m, s, step);
            && |s.stream| <= |n.stream| && n.stream[..|s.stream|] == s.stream
            && (forall i | 0 <= i < |n.outbox| :: n.outbox[i] < |s.rows|)
            && (forall e | 0 <= e < |n.stream| :: n.stream[e] < |s.rows|)
            && (forall e | e in n.acked :: e < |s.stream|)
  {
    hide CreditsFor, Remaining, ReceiptSum, TierPlan;
  }

  lemma {:induction false} AttemptsKeepShape(m: Mode, s: State, step: Step)
    requires Shape(s) && Enabled(m, s, step)
    ensures var n := Apply(m, s, step);
            && (s.group.Some? ==> n.group == s.group) && (n.group.Some? ==> n.group.value <= |n.stream|)
            && (forall a | 0 <= a < |n.attempts| :: n.attempts[a].task < |s.rows| && EntryInGroup(s, n.attempts[a]))
  {
    hide CreditsFor, Remaining, ReceiptSum, TierPlan;
  }

  lemma {:induction false} GroupGrows(s: State, n: State, at: Attempt)
    requires EntryInGroup(s, at) && (s.group.Some? ==> n.group == s.group)
    requires |s.stream| <= |n.stream| && n.stream[..|s.stream|] == s.stream
    ensures EntryInGroup(n, at)
  {
  }

  lemma {:induction false} FailuresKeepShape(m: Mode, s: State, step: Step)
    requires Shape(s) && Enabled(m, s, step)
    ensures forall f | 0 <= f < |Apply(m, s, step).failures| :: Apply(m, s, step).failures[f].task < |s.rows|
  {
    hide CreditsFor, Remaining, ReceiptSum, TierPlan;
  }

  lemma {:induction false} ReceiptsKeepShape(m: Mode, s: State, step: Step)
    requires Shape(s) && Enabled(m, s, step)
    ensures var n := Apply(m, s, step);
            forall r | 0 <= r < |n.receipts| ::
              n.receipts[r].task < |s.rows| && n.receipts[r].job == s.rows[n.receipts[r].task].job
  {
    hide CreditsFor, Remaining, ReceiptSum, TierPlan;
  }

  lemma {:induction false} StepKeepsShape(m: Mode, s: State, step: Step)
    requires Shape(s) && Enabled(m, s, step)
    ensures Shape(Apply(m, s, step))
  {
    hide Apply, Enabled;
    RowsKeepJobs(m, s, step);
    PlansKeepShape(m, s, step);
    QueuesKeepShape(m, s, step);
    AttemptsKeepShape(m, s, step);
    var n := Apply(m, s, step);
    forall a | 0 <= a < |n.attempts|
      ensures n.attempts[a].task < |n.rows| && EntryInGroup(n, n.attempts[a])
    {
      GroupGrows(s, n, n.attempts[a]);
    }
    FailuresKeepShape(m, s, step);
    ReceiptsKeepShape(m, s, step);
  }

  // -------------------------------------------------------------------------
  // Runs
  // -------------------------------------------------------------------------

  ghost predicate IsRun(m: Mode, s: State, steps: seq<Step>)
    requires Shape(s)
    decreases |steps|
  {
    steps == [] || (Enabled(m, s, steps[0])
        && (StepKeepsShape(m, s, steps[0]); IsRun(m, Apply(m, s, steps[0]), steps[1..])))
  }

  ghost function After(m: Mode, s: State, steps: seq<Step>): (r: State)
    requires Shape(s) && IsRun(m, s, steps)
    ensures Shape(r)
    decreases |steps|
  {
    if steps == [] then s
    else
      StepKeepsShape(m, s, steps[0]);
      After(m, Apply(m, s, steps[0]), steps[1..])
  }

  /** Some run goes from `s` to `n`. */
  ghost predicate Leads(m: Mode, s: State, n: State)
    requires Shape(s)
  {
    exists steps | IsRun(m, s, steps) :: After(m, s, steps) == n
  }

  /** A state the system can be in. */
  ghost predicate Reachable(m: Mode, s: State) {
    Leads(m, Start(m), s)
  }
}
