/** The orchestrator's operations as they update the tables, each proved to be a run of the step system. */
module TaskManager {
  import opened Wrappers
  import opened Types
  import opened Credits
  import opened Lifecycle
  import opened LifecycleInvariants
  import opened LifecycleSafety
  import opened JobPlans

  /** `steps` is a run from `s` to `n`. */
  ghost predicate RunTo(m: Mode, s: State, steps: seq<Step>, n: State) {
    Shape(s) && IsRun(m, s, steps) && After(m, s, steps) == n
  }

  lemma {:induction false} RunToShape(m: Mode, s: State, steps: seq<Step>, n: State)
    requires RunTo(m, s, steps, n)
    ensures Shape(s) && Shape(n)
  {
  }

  const DISPATCH_LIMIT: nat := 50

  predicate Ascending(ready: seq<nat>) {
    forall i, k | 0 <= i < k < |ready| :: ready[i] < ready[k]
  }

  predicate AllEligible(rows: seq<Row>, ready: seq<nat>) {
    forall i | 0 <= i < |ready| :: Eligible(rows, ready[i])
  }

  /**
    The rows one dispatch claims: eligible, not locked by another replica, in creation order, up to the limit.
    A row passed over comes after every claimed one, and only when the limit is used up.
  */
  function ReadyFrom(rows: seq<Row>, locked: set<nat>, from: nat, limit: nat): (ready: seq<nat>)
    requires from <= |rows|
    ensures |ready| <= limit
    ensures AllEligible(rows, ready) && Ascending(ready)
    ensures forall i | 0 <= i < |ready| :: from <= ready[i] && ready[i] !in locked
    ensures forall t: nat | from <= t && Eligible(rows, t) && t !in locked && t !in ready ::
              |ready| == limit && forall i | 0 <= i < |ready| :: ready[i] < t
    decreases |rows| - from
  {
    if from == |rows| || limit == 0 then []
    else if Eligible(rows, from) && from !in locked then [from] + ReadyFrom(rows, locked, from + 1, limit - 1)
    else ReadyFrom(rows, locked, from + 1, limit)
  }

  /** The rows one dispatch may claim. */
  ghost function Dispatchable(rows: seq<Row>, locked: set<nat>): set<nat> {
    set t: nat | t < |rows| && Eligible(rows, t) && t !in locked
  }

  function SetOf(ready: seq<nat>): set<nat> {
    set t | t in ready
  }

  lemma {:induction false} AscendingSize(ready: seq<nat>)
    requires Ascending(ready)
    ensures |SetOf(ready)| == |ready|
  {
    if ready != [] {
      var front, last := ready[..|ready| - 1], ready[|ready| - 1];
      AscendingSize(front);
      assert ready == front + [last];
      assert SetOf(ready) == SetOf(front) + {last};
    }
  }

  /** Up to fifty rows go out together; of more the fifty earliest. */
  lemma {:induction false} FiftyAtOnce(rows: seq<Row>, locked: set<nat>)
    ensures var ready, all := ReadyFrom(rows, locked, 0, DISPATCH_LIMIT), Dispatchable(rows, locked);
            && SetOf(ready) <= all && |ready| == (if |all| <= 50 then |all| else 50)
            && (|all| <= 50 ==> SetOf(ready) == all)
            && forall t, d | t in SetOf(ready) && d in all - SetOf(ready) :: t < d
  {
    var ready, all := ReadyFrom(rows, locked, 0, DISPATCH_LIMIT), Dispatchable(rows, locked);
    hide ReadyFrom, Eligible;
    AscendingSize(ready);
    var chosen := SetOf(ready);
    forall t | t in chosen
      ensures t in all
    {
      var i :| 0 <= i < |ready| && ready[i] == t;
      assert Eligible(rows, ready[i]);
    }
    if all <= chosen {
      assert chosen == all;
    } else {
      var d :| d in all && d !in chosen;
      assert d !in ready;
      SubsetSize(chosen + {d}, all);
    }
  }

  lemma {:induction false} SubsetSize(a: set<nat>, b: set<nat>)
    requires a <= b
    ensures |a| <= |b|
  {
    if x :| x in a {
      SubsetSize(a - {x}, b - {x});
    }
  }

  function DispatchedRows(rows: seq<Row>, ready: seq<nat>): seq<Row> {
    seq(|rows|, t requires 0 <= t < |rows| => if t in ready then rows[t].(status := Dispatched) else rows[t])
  }

  function Claims(ready: seq<nat>): seq<Step> {
    seq(|ready|, i requires 0 <= i < |ready| => Claim(ready[i]))
  }

  lemma {:induction false} ClaimsSplit(ready: seq<nat>)
    ensures ready == [] ==> Claims(ready) == []
    ensures ready != [] ==> Claims(ready) == [Claim(ready[0])] + Claims(ready[1..])
  {
  }

  lemma {:induction false} ApplySeed(m: Mode, s: State, tier: JobTier, budget: real)
    requires Shape(s) && budget > 0.0 && !m.atomicSeed
    ensures Enabled(m, s, Seed(tier, budget))
    ensures Apply(m, s, Seed(tier, budget)) ==
        s.(jobs := s.jobs + [Job(JobPending, budget, None, TierPlan(tier, |s.jobs|))])
    ensures var together := m.(atomicSeed := true);
            && Enabled(together, s, Seed(tier, budget))
            && Apply(together, s, Seed(tier, budget)) ==
               s.(jobs := s.jobs + [Job(JobPending, budget, None, [])], rows := s.rows + TierPlan(tier, |s.jobs|))
  {
    hide CreditsFor, Remaining, ReceiptSum, TierPlan;
  }

  lemma {:induction false} ApplyInsert(m: Mode, s: State, j: nat)
    requires Shape(s) && j < |s.jobs| && s.jobs[j].unseeded != []
    ensures Enabled(m, s, Insert(j))
    ensures var plan := s.jobs[j].unseeded;
            Apply(m, s, Insert(j)) ==
                s.(jobs := s.jobs[j := s.jobs[j].(unseeded := plan[1..])], rows := s.rows + [plan[0]])
  {
    hide CreditsFor, Remaining, ReceiptSum, TierPlan;
  }

  lemma {:induction false} ApplyClaim(m: Mode, s: State, t: nat)
    requires Shape(s) && Eligible(s.rows, t)
    ensures Enabled(m, s, Claim(t))
    ensures Apply(m, s, Claim(t)) == s.(rows := s.rows[t := s.rows[t].(status := Dispatched)], outbox := s.outbox + [t])
    ensures Shape(Apply(m, s, Claim(t)))
  {
    hide CreditsFor, Remaining, ReceiptSum;
    StepKeepsShape(m, s, Claim(t));
  }

  lemma {:induction false} ApplyPush(m: Mode, s: State, i: nat)
    requires Shape(s) && i < |s.outbox|
    ensures Enabled(m, s, Push(i))
    ensures Apply(m, s, Push(i)) == s.(outbox := s.outbox[..i] + s.outbox[i + 1..], stream := s.stream + [s.outbox[i]])
  {
    hide CreditsFor, Remaining, ReceiptSum;
  }

  lemma {:induction false} ApplyForget(m: Mode, s: State, i: nat)
    requires Shape(s) && i < |s.outbox| && !m.reliablePush
    ensures Enabled(m, s, Forget(i))
    ensures Apply(m, s, Forget(i)) == s.(outbox := s.outbox[..i] + s.outbox[i + 1..])
  {
    hide CreditsFor, Remaining, ReceiptSum;
  }

  lemma {:induction false} ApplyJoin(m: Mode, s: State)
    requires Shape(s)
    ensures Enabled(m, s, Join) && Shape(Apply(m, s, Join))
    ensures Apply(m, s, Join) == if s.group.None? then s.(group := Some(|s.stream|)) else s
  {
    hide CreditsFor, Remaining, ReceiptSum;
    StepKeepsShape(m, s, Join);
  }

  lemma {:induction false} DispatchedSplit(rows: seq<Row>, ready: seq<nat>)
    requires ready != [] ==> ready[0] < |rows| && ready[0] !in ready[1..]
    ensures ready == [] ==> DispatchedRows(rows, ready) == rows
    ensures ready != [] ==>
              DispatchedRows(rows[ready[0] := rows[ready[0]].(status := Dispatched)], ready[1..]) ==
                  DispatchedRows(rows, ready)
  {
    if ready != [] {
      var t, rest := ready[0], ready[1..];
      assert ready == [t] + rest;
      assert forall d: nat :: d in ready <==> d == t || d in rest;
    }
  }

  lemma {:induction false} RestEligible(rows: seq<Row>, ready: seq<nat>)
    requires AllEligible(rows, ready) && Ascending(ready) && ready != []
    ensures ready[0] < |rows| && Eligible(rows, ready[0]) && ready[0] !in ready[1..]
    ensures AllEligible(rows[ready[0] := rows[ready[0]].(status := Dispatched)], ready[1..]) && Ascending(ready[1..])
  {
    assert Eligible(rows, ready[0]);
  }

  /** Claiming one row keeps the others eligible, so one UPDATE is a run of single claims. */
  lemma {:induction false} ClaimsAreARun(m: Mode, s: State, ready: seq<nat>)
    requires Shape(s) && AllEligible(s.rows, ready) && Ascending(ready)
    ensures RunTo(m, s, Claims(ready), s.(rows := DispatchedRows(s.rows, ready), outbox := s.outbox + ready))
    decreases |ready|
  {
    hide Apply, Enabled, Eligible, AllEligible, Ascending, DispatchedRows, Claims, Shape;
    ClaimsSplit(ready);
    if ready == [] {
      DispatchedSplit(s.rows, ready);
      assert s.outbox + ready == s.outbox;
    } else {
      RestEligible(s.rows, ready);
      ApplyClaim(m, s, ready[0]);
      var n := Apply(m, s, Claim(ready[0]));
      ClaimsAreARun(m, n, ready[1..]);
      DispatchedSplit(s.rows, ready);
      assert n.outbox + ready[1..] == s.outbox + ready;
    }
  }

  // -------------------------------------------------------------------------
  // The result handler's statements as steps
  // -------------------------------------------------------------------------

  lemma {:induction false} ApplyLoad(m: Mode, s: State, a: nat)
    requires Shape(s) && InPhase(s, a, Holding) && (m.serialised ==> !TaskBusy(s, TaskOf(s, a)))
    ensures Enabled(m, s, Load(a))
    ensures Apply(m, s, Load(a)) == To(s, a, if s.rows[TaskOf(s, a)].status == Complete then Dropped else Loaded)
  {
    hide CreditsFor, Remaining, ReceiptSum;
  }

  lemma {:induction false} ApplyAbandon(m: Mode, s: State, a: nat)
    requires Shape(s) && (InPhase(s, a, Holding) || InPhase(s, a, Loaded))
    ensures Enabled(m, s, Abandon(a)) && Apply(m, s, Abandon(a)) == To(s, a, Dropped)
  {
    hide CreditsFor, Remaining, ReceiptSum;
  }

  lemma {:induction false} ApplyMark(m: Mode, s: State, a: nat)
    requires Shape(s) && InPhase(s, a, Loaded)
    ensures Enabled(m, s, Mark(a))
    ensures var at, t := s.attempts[a], TaskOf(s, a);
            Apply(m, s, Mark(a)) ==
            To(SetRow(s, t, s.rows[t].(status := Complete, tokensIn := at.tokensIn, tokensOut := at.tokensOut)), a,
                Marked)
  {
    hide CreditsFor, Remaining, ReceiptSum;
  }

  lemma {:induction false} ApplyCredit(m: Mode, s: State, a: nat)
    requires Shape(s) && InPhase(s, a, Marked)
    ensures Enabled(m, s, Credit(a)) && Apply(m, s, Credit(a)) == To(s, a, Credited(CreditsFor(s, a)))
  {
    hide CreditsFor, Remaining, ReceiptSum;
  }

  lemma {:induction false} ApplyWrite(m: Mode, s: State, a: nat)
    requires Shape(s) && a < |s.attempts| && s.attempts[a].phase.Credited?
    ensures Enabled(m, s, Write(a))
    ensures var at, t := s.attempts[a], TaskOf(s, a);
            Apply(m, s, Write(a)) == To(s, a, Receipted).(receipts :=
              s.receipts + [Receipt(t, s.rows[t].job, at.node, at.tokensIn, at.tokensOut, at.phase.credits)])
  {
    hide CreditsFor, Remaining, ReceiptSum;
  }

  lemma {:induction false} ApplyFinalise(m: Mode, s: State, a: nat)
    requires Shape(s) && InPhase(s, a, Receipted)
    ensures Enabled(m, s, Finalise(a))
    ensures var job := s.rows[TaskOf(s, a)].job;
            Apply(m, s, Finalise(a)) ==
            To(if JobDone(s.rows, job) then CloseJob(s, job, ReceiptSum(s.receipts, job)) else s, a, Replied)
  {
    hide CreditsFor, ReceiptSum;
    RemainingZero(s.rows, s.rows[TaskOf(s, a)].job);
  }

  /** What one failure makes of a row, whatever its status. */
  function FailedOnce(row: Row): Row {
    if row.retries < 3 then row.(status := Pending, retries := row.retries + 1) else row.(status := Failed)
  }

  lemma {:induction false} ApplyNote(m: Mode, s: State, t: nat)
    requires Shape(s) && t < |s.rows| && (m.serialisedRetry ==> !RowBusy(s, t))
    ensures Enabled(m, s, Note(t)) && Shape(Apply(m, s, Note(t)))
    ensures Apply(m, s, Note(t)) == s.(failures := s.failures + [Failure(t, s.rows[t].retries, Noted)])
  {
    hide CreditsFor, Remaining, ReceiptSum;
    StepKeepsShape(m, s, Note(t));
  }

  lemma {:induction false} ApplyFailRow(m: Mode, s: State, f: nat)
    requires Shape(s) && InStage(s, f, Noted) && (m.guardedFail ==> s.rows[s.failures[f].task].status.InFlight())
    ensures Enabled(m, s, FailRow(f)) && Shape(Apply(m, s, FailRow(f)))
    ensures var t := s.failures[f].task;
            Apply(m, s, FailRow(f)) ==
            if s.failures[f].retries < MAX_RETRIES then Staged(Retried(s, t), f, Over)
            else if m.atomicEscalation then Staged(JobGone(RowGone(s, t), s.rows[t].job), f, Over)
            else Staged(RowGone(s, t), f, RowFailed)
  {
    hide CreditsFor, Remaining, ReceiptSum;
    StepKeepsShape(m, s, FailRow(f));
  }

  lemma {:induction false} ApplyFailJob(m: Mode, s: State, f: nat)
    requires Shape(s) && InStage(s, f, RowFailed)
    ensures Enabled(m, s, FailJob(f))
    ensures Apply(m, s, FailJob(f)) == Staged(JobGone(s, s.rows[s.failures[f].task].job), f, Over)
  {
    hide CreditsFor, Remaining, ReceiptSum;
  }

  lemma {:induction false} NoStep(m: Mode, s: State)
    requires Shape(s)
    ensures RunTo(m, s, [], s)
  {
  }

  lemma {:induction false} OneStep(m: Mode, s: State, step: Step) returns (steps: seq<Step>)
    requires Shape(s) && Enabled(m, s, step)
    ensures steps == [step] && RunTo(m, s, steps, Apply(m, s, step))
  {
    hide Enabled, Apply;
    steps := [] + [step];
    RunSnoc(m, s, [], step);
  }

  lemma {:induction false} NextStep(m: Mode, s: State, steps: seq<Step>, c: State, step: Step) returns (more: seq<Step>)
    requires RunTo(m, s, steps, c) && Enabled(m, c, step)
    ensures more == steps + [step] && RunTo(m, s, more, Apply(m, c, step))
  {
    hide Enabled, Apply;
    more := steps + [step];
    RunSnoc(m, s, steps, step);
  }

  lemma {:induction false} InvAfter(m: Mode, s: State, steps: seq<Step>, n: State)
    requires RunTo(m, s, steps, n)
    ensures m.guardedFail && Inv(s) ==> Inv(n)
  {
    if m.guardedFail && Inv(s) { RunKeepsInv(m, s, steps); }
  }

  /** A row with its result stored. */
  function Done(row: Row, tokensIn: U32, tokensOut: U32): Row {
    row.(status := Complete, tokensIn := tokensIn, tokensOut := tokensOut)
  }

  lemma {:induction false} RunAppend(m: Mode, s: State, steps: seq<Step>, c: State, more: seq<Step>, n: State)
    requires RunTo(m, s, steps, c) && RunTo(m, c, more, n)
    ensures RunTo(m, s, steps + more, n)
    decreases |steps|
  {
    hide Enabled, Apply, Shape;
    var all := steps + more;
    if steps == [] {
      assert all == more;
    } else {
      assert all[0] == steps[0] && all[1..] == steps[1..] + more;
      StepKeepsShape(m, s, steps[0]);
      RunAppend(m, Apply(m, s, steps[0]), steps[1..], c, more, n);
    }
  }

  /** How a result comes about: from a delivered entry or from none. */
  function Arrival(entry: Option<nat>, task: nat, node: Node, tokensIn: U32, tokensOut: U32): Step {
    match entry
    case Some(e) => Deliver(e, node, tokensIn, tokensOut)
    case None => Submit(task, node, tokensIn, tokensOut)
  }

  /** The entry behind a result carries its task; without one, results nobody asked for must be allowed. */
  ghost predicate MayArrive(m: Mode, s: State, entry: Option<nat>, task: nat) {
    && task < |s.rows|
    && match entry
       case Some(e) => Deliverable(s, e) && s.stream[e] == task
       case None => !m.promptedOnly
  }

  lemma {:induction false} ApplyArrival(
      m: Mode, s: State, entry: Option<nat>, task: nat, node: Node, tokensIn: U32, tokensOut: U32)
    requires Shape(s) && MayArrive(m, s, entry, task)
    ensures Enabled(m, s, Arrival(entry, task, node, tokensIn, tokensOut))
    ensures Apply(m, s, Arrival(entry, task, node, tokensIn, tokensOut)) ==
        s.(attempts := s.attempts + [Attempt(task, entry, node, tokensIn, tokensOut, Holding)])
    ensures Shape(Apply(m, s, Arrival(entry, task, node, tokensIn, tokensOut)))
  {
    hide CreditsFor, Remaining, ReceiptSum;
    StepKeepsShape(m, s, Arrival(entry, task, node, tokensIn, tokensOut));
  }

  lemma {:induction false} ApplyAck(m: Mode, s: State, a: nat)
    requires Shape(s) && InPhase(s, a, Replied) && s.attempts[a].entry.Some?
    ensures Enabled(m, s, Ack(a))
    ensures Apply(m, s, Ack(a)) == To(s, a, Acked).(acked := s.acked + {s.attempts[a].entry.value})
  {
    hide CreditsFor, Remaining, ReceiptSum;
  }

  /** The tables after one call of `fail_task` that nobody disturbs. */
  function FailedState(s: State, t: nat): State
    requires t < |s.rows| && s.rows[t].job < |s.jobs|
  {
    var row, done := s.rows[t], s.failures + [Failure(t, s.rows[t].retries, Over)];
    if row.retries < MAX_RETRIES then Retried(s, t).(failures := done)
    else JobGone(RowGone(s, t), row.job).(failures := done)
  }

  lemma {:induction false} FailRun(m: Mode, s: State, t: nat) returns (steps: seq<Step>)
    requires Shape(s) && t < |s.rows| && (m.serialisedRetry ==> !RowBusy(s, t))
    requires m.guardedFail ==> s.rows[t].status.InFlight()
    ensures RunTo(m, s, steps, FailedState(s, t))
  {
    hide Apply, Enabled, RunTo, RowBusy;
    var f := |s.failures|;
    ApplyNote(m, s, t);
    steps := OneStep(m, s, Note(t));
    var noted := Apply(m, s, Note(t));
    ApplyFailRow(m, noted, f);
    steps := NextStep(m, s, steps, noted, FailRow(f));
    var n := Apply(m, noted, FailRow(f));
    if s.rows[t].retries >= MAX_RETRIES && !m.atomicEscalation {
      ApplyFailJob(m, n, f);
      steps := NextStep(m, s, steps, n, FailJob(f));
      n := Apply(m, n, FailJob(f));
    }
    assert n.failures == FailedState(s, t).failures;
  }

  /** What an accepted result goes through. */
  function HandlerSteps(a: nat): seq<Step> {
    [Load(a), Mark(a), Credit(a), Write(a), Finalise(a)]
  }

  datatype Rejection = UnknownNode | NotFound | AlreadyCompleted | InvalidOutput

  /** What inference on one entry came to; `valid` is the validator's verdict on the output. */
  datatype Inference = InferenceFailed | Produced(tokensIn: U32, tokensOut: U32, valid: bool)

  predicate Below(indices: seq<nat>, n: nat) {
    forall i | 0 <= i < |indices| :: indices[i] < n
  }

  predicate Accepted(rows: seq<Row>, task: nat, output: Inference) {
    output.Produced? && output.valid && task < |rows| && rows[task].status != Complete
  }

  /** The rows after the first i entries of a round. */
  function RoundRows(
      rows: seq<Row>, stream: seq<nat>, entries: seq<nat>, outputs: seq<Inference>, i: nat): (r: seq<Row>)
    requires i <= |entries| == |outputs| && Below(entries, |stream|)
    ensures |r| == |rows|
  {
    if i == 0 then rows
    else
      var now, task, output := RoundRows(rows, stream, entries, outputs, i - 1), stream[entries[i - 1]], outputs[i - 1];
      if Accepted(now, task, output) then now[task := Done(now[task], output.tokensIn, output.tokensOut)] else now
  }

  /** Each answer is the verdict on the rows as they were at that entry's turn. */
  ghost predicate AnswersRight(
      rows: seq<Row>, stream: seq<nat>, entries: seq<nat>, outputs: seq<Inference>, answered: seq<bool>)
    requires |answered| <= |entries| == |outputs| && Below(entries, |stream|)
  {
    forall i | 0 <= i < |answered| ::
      answered[i] <==> Accepted(RoundRows(rows, stream, entries, outputs, i), stream[entries[i]], outputs[i])
  }

  lemma {:induction false} NoRound(rows: seq<Row>, stream: seq<nat>, entries: seq<nat>, outputs: seq<Inference>)
    requires |entries| == |outputs| && Below(entries, |stream|)
    ensures RoundRows(rows, stream, entries, outputs, 0) == rows && AnswersRight(rows, stream, entries, outputs, [])
  {
  }

  lemma {:induction false} NextRow(
      rows: seq<Row>, stream: seq<nat>, entries: seq<nat>, outputs: seq<Inference>, answered: seq<bool>)
    requires |answered| < |entries| == |outputs| && Below(entries, |stream|)
    requires AnswersRight(rows, stream, entries, outputs, answered)
    ensures var i := |answered|;
            var now, task, output := RoundRows(rows, stream, entries, outputs, i), stream[entries[i]], outputs[i];
            var ok := Accepted(now, task, output);
            && RoundRows(rows, stream, entries, outputs, i + 1) ==
               (if !ok then now
                else
                  assert task < |now|;
                  now[task := Done(now[task], output.tokensIn, output.tokensOut)])
            && AnswersRight(rows, stream, entries, outputs, answered + [ok])
  {
    hide Done;
    var ok := Accepted(RoundRows(rows, stream, entries, outputs, |answered|), stream[entries[|answered|]],
        outputs[|answered|]);
    assert forall i | 0 <= i < |answered| :: (answered + [ok])[i] == answered[i];
  }

  predicate Distinct(entries: seq<nat>) {
    forall i, k | 0 <= i < k < |entries| :: entries[i] != entries[k]
  }

  /** The entries answered with a receipt. */
  function Answered(entries: seq<nat>, answered: seq<bool>): set<nat>
    requires |answered| <= |entries|
  {
    set i | 0 <= i < |answered| && answered[i] :: entries[i]
  }

  lemma {:induction false} NoneAnswered(entries: seq<nat>)
    ensures Answered(entries, []) == {}
  {
  }

  predicate AllInGroup(s: State, entries: seq<nat>) {
    forall i | 0 <= i < |entries| :: InGroup(s, entries[i])
  }

  predicate NoneIn(entries: seq<nat>, acked: set<nat>) {
    forall i | 0 <= i < |entries| :: entries[i] !in acked
  }

  lemma {:induction false} NextInRange(entries: seq<nat>, stream: seq<nat>, n: nat, i: nat)
    requires Below(entries, |stream|) && Below(stream, n) && i < |entries|
    ensures entries[i] < |stream| && stream[entries[i]] < n
  {
  }

  lemma {:induction false} NotYetAcked(entries: seq<nat>, answered: seq<bool>, acked: set<nat>)
    requires |answered| < |entries| && Distinct(entries) && NoneIn(entries, acked)
    ensures entries[|answered|] !in acked + Answered(entries, answered)
  {
  }

  lemma {:induction false} NextAnswer(entries: seq<nat>, answered: seq<bool>, acked: set<nat>, ok: bool)
    requires |answered| < |entries|
    ensures var before := acked + Answered(entries, answered);
            (if ok then before + {entries[|answered|]} else before) == acked + Answered(entries, answered + [ok])
  {
    var more := answered + [ok];
    assert more[|answered|] == ok;
    assert forall i | 0 <= i < |answered| :: more[i] == answered[i];
    assert ok ==> entries[|answered|] in Answered(entries, more);
    forall e | e in Answered(entries, answered)
      ensures e in Answered(entries, more)
    {
      var i :| 0 <= i < |answered| && answered[i] && entries[i] == e;
      assert more[i];
    }
  }

  class TaskManager {
    var rows: seq<Row>
    var jobs: seq<Job>
    var stream: seq<nat>
    var acked: set<nat>
    var group: Option<nat>
    var receipts: seq<Receipt>
    ghost var outbox: seq<nat>
    ghost var attempts: seq<Attempt>
    ghost var failures: seq<Failure>

    ghost function View(): State
      reads this
    {
      State(rows, jobs, outbox, stream, acked, group, receipts, attempts, failures)
    }

    /** Empty tables; the group may have been created already. */
    constructor (groupFirst: bool)
      ensures forall m: Mode | m.groupFirst == groupFirst :: View() == Start(m) && Inv(View())
    {
      rows, jobs, outbox, stream, acked, receipts := [], [], [], [], {}, [];
      attempts, failures := [], [];
      group := if groupFirst then Some(0) else None;
    }

    /** A worker starts: XGROUP CREATE with `$`, whose error for an existing group is ignored. */
    method JoinGroup(ghost m: Mode)
      requires Shape(View())
      modifies this`group
      ensures Enabled(m, old(View()), Join) && View() == Apply(m, old(View()), Join)
      ensures group == if old(group).None? then Some(|stream|) else old(group)
      ensures m.guardedFail && Inv(old(View())) ==> Inv(View())
    {
      ApplyJoin(m, View());
      if m.guardedFail && Inv(View()) { StepKeepsInv(m, View(), Join); }
      hide Apply, Enabled, Inv;
      if group.None? {
        group := Some(|stream|);
      }
    }

    /**
      `submit_job`: the job's row, then one row per entry of the tier's plan, each its own statement; run
      without another statement in between it leaves what one insertion of everything would.
    */
    method SubmitJob(ghost m: Mode, tier: JobTier, budget: real) returns (job: nat, ghost steps: seq<Step>)
      requires Shape(View()) && budget > 0.0 && !m.atomicSeed
      modifies this`rows, this`jobs
      ensures job == |old(jobs)|
      ensures jobs == old(jobs) + [Job(JobPending, budget, None, [])] && rows == old(rows) + TierPlan(tier, job)
      ensures AsSubmitted(rows, |old(rows)|, job, tier)
      ensures |rows| == |old(rows)| + if tier == Premium then 5 else 3
      ensures forall t | |old(rows)| <= t < |rows| ::
                rows[t] == Row(job, rows[t].role, rows[t].position, Pending, 0, 0, 0)
      ensures RunTo(m, old(View()), steps, View())
      ensures var together := m.(atomicSeed := true);
              Enabled(together, old(View()), Seed(tier, budget))
                  && View() == Apply(together, old(View()), Seed(tier, budget))
      ensures m.guardedFail && Inv(old(View())) ==> Inv(View())
    {
      hide Apply, Enabled, Inv, RunTo, TierPlan;
      ghost var before := View();
      job := |jobs|;
      var plan := TierPlan(tier, job);
      ApplySeed(m, before, tier, budget);
      steps := OneStep(m, before, Seed(tier, budget));
      jobs := jobs + [Job(JobPending, budget, None, plan)];
      for i := 0 to |plan|
        invariant rows == old(rows) + plan[..i]
        invariant jobs == old(jobs) + [Job(JobPending, budget, None, plan[i..])]
        invariant RunTo(m, before, steps, View())
      {
        RunToShape(m, before, steps, View());
        ApplyInsert(m, View(), job);
        steps := NextStep(m, before, steps, View(), Insert(job));
        jobs := jobs[job := jobs[job].(unseeded := plan[i + 1..])];
        rows := rows + [plan[i]];
      }
      assert plan[..|plan|] == plan && plan[|plan|..] == [];
      PlanAsSubmitted(old(rows), job, tier);
      assert forall t | |old(rows)| <= t < |rows| :: rows[t] == plan[t - |old(rows)|];
      InvAfter(m, before, steps, View());
    }

    /** XADD for one row of a batch after the other, until one fails. */
    method PushBatch(
        ghost m: Mode, ghost before: State, ghost so: seq<Step>, ghost queued: seq<nat>, ready: seq<nat>, working: nat)
      returns (pushed: nat, ghost steps: seq<Step>)
      requires RunTo(m, before, so, View()) && outbox == queued + ready
      modifies this`stream, this`outbox
      ensures pushed == if |ready| <= working then |ready| else working
      ensures stream == old(stream) + ready[..pushed] && outbox == queued + ready[pushed..]
      ensures RunTo(m, before, steps, View())
    {
      hide Apply, Enabled, RunTo, Shape;
      pushed, steps := 0, so;
      while pushed < |ready| && pushed < working
        invariant pushed <= |ready| && pushed <= working
        invariant stream == old(stream) + ready[..pushed] && outbox == queued + ready[pushed..]
        invariant RunTo(m, before, steps, View())
      {
        RunToShape(m, before, steps, View());
        ApplyPush(m, View(), |queued|);
        steps := NextStep(m, before, steps, View(), Push(|queued|));
        stream := stream + [ready[pushed]];
        outbox := outbox[..|queued|] + outbox[|queued| + 1..];
        pushed := pushed + 1;
      }
    }

    /** What is left of a batch is never pushed. */
    ghost method ForgetRest(m: Mode, before: State, so: seq<Step>, queued: nat) returns (steps: seq<Step>)
      requires RunTo(m, before, so, View()) && queued <= |outbox| && (m.reliablePush ==> queued == |outbox|)
      modifies this`outbox
      ensures outbox == old(outbox)[..queued] && RunTo(m, before, steps, View())
    {
      hide Apply, Enabled, RunTo, Shape;
      steps := so;
      while |outbox| > queued
        invariant queued <= |outbox| && (m.reliablePush ==> queued == |outbox|)
        invariant outbox[..queued] == old(outbox)[..queued]
        invariant View() == old(View()).(outbox := outbox)
        invariant RunTo(m, before, steps, View())
        decreases |outbox|
      {
        RunToShape(m, before, steps, View());
        ApplyForget(m, View(), queued);
        steps := NextStep(m, before, steps, View(), Forget(queued));
        outbox := outbox[..queued] + outbox[queued + 1..];
      }
    }

    /**
      `dispatch_ready_tasks`: one UPDATE claims the rows, then each is pushed in turn, until the first XADD that
      fails; `working` is the number of XADDs that succeed before one fails. The rest of the batch stays claimed.
    */
    method DispatchReadyTasks(ghost m: Mode, locked: set<nat>, working: nat)
      returns (ok: bool, ready: seq<nat>, ghost steps: seq<Step>)
      requires Shape(View()) && (m.reliablePush ==> working >= 50)
      modifies this`rows, this`stream, this`outbox
      ensures ready == ReadyFrom(old(rows), locked, 0, 50) && Ascending(ready)
      ensures var all := Dispatchable(old(rows), locked);
              && SetOf(ready) <= all && |ready| == (if |all| <= 50 then |all| else 50)
              && (|all| <= 50 ==> SetOf(ready) == all)
              && forall t, d | t in SetOf(ready) && d in all - SetOf(ready) :: t < d
      ensures ok <==> |ready| <= working
      ensures rows == DispatchedRows(old(rows), ready)
      ensures stream == old(stream) + if ok then ready else ready[..working]
      ensures outbox == old(outbox)
      ensures RunTo(m, old(View()), steps, View())
      ensures m.guardedFail && Inv(old(View())) ==> Inv(View())
    {
      hide Inv, Apply, Enabled, Eligible, AllEligible, Ascending, ReadyFrom, Shape, RunTo, Claims, DispatchedRows;
      ready := ReadyFrom(rows, locked, 0, DISPATCH_LIMIT);
      FiftyAtOnce(rows, locked);
      ClaimsAreARun(m, View(), ready);
      steps := Claims(ready);
      ghost var before, queued := View(), outbox;
      rows := DispatchedRows(rows, ready);
      outbox := outbox + ready;
      var pushed;
      pushed, steps := PushBatch(m, before, steps, queued, ready, working);
      ok := pushed == |ready|;
      assert ready[..|ready|] == ready;
      steps := ForgetRest(m, before, steps, |queued|);
      InvAfter(m, before, steps, View());
    }

    /** `fail_task`: back to pending with one more retry, or failed together with its job. */
    method FailTask(ghost m: Mode, task: nat) returns (r: Result<(), Rejection>, ghost steps: seq<Step>)
      requires Shape(View()) && (m.serialisedRetry ==> !RowBusy(View(), task))
      modifies this`rows, this`jobs, this`failures
      ensures r.Ok? <==> task < |old(rows)|
      ensures r.Err? ==> View() == old(View())
      ensures r.Ok? ==> rows == old(rows)[task := FailedOnce(old(rows)[task])]
      ensures r.Ok? ==> jobs == if old(rows)[task].retries < 3 then old(jobs)
                                else JobGone(old(View()), old(rows)[task].job).jobs
      ensures r.Ok? && (m.guardedFail ==> old(rows)[task].status.InFlight()) ==> RunTo(m, old(View()), steps, View())
    {
      hide RunTo, RowBusy;
      steps := [];
      if task >= |rows| { return Err(NotFound), steps; }
      ghost var before := View();
      if m.guardedFail ==> rows[task].status.InFlight() {
        steps := FailRun(m, before, task);
      }
      var row := rows[task];
      if row.retries < MAX_RETRIES {
        rows := rows[task := row.(status := Pending, retries := row.retries + 1)];
      } else {
        rows := rows[task := row.(status := Failed)];
        jobs := jobs[row.job := jobs[row.job].(status := JobFailed)];
      }
      failures := failures + [Failure(task, row.retries, Over)];
      return Ok(()), steps;
    }

    /** Attempt `a` is handling a result of `task` with these values. */
    ghost predicate Handles(a: nat, task: nat, node: Node, tokensIn: U32, tokensOut: U32)
      reads this
    {
      && Shape(View()) && task < |rows| && a < |attempts| && TaskOf(View(), a) == task
      && attempts[a] == Attempt(task, attempts[a].entry, node, tokensIn, tokensOut, attempts[a].phase)
    }

    lemma {:induction false} HandlesInRange(a: nat, task: nat, node: Node, tokensIn: U32, tokensOut: U32)
      requires Handles(a, task, node, tokensIn, tokensOut)
      ensures task < |rows| && a < |attempts|
    {
    }

    /** The double-submit guard. */
    method LoadTask(
        ghost m: Mode, ghost a: nat, task: nat, ghost node: Node, ghost tokensIn: U32, ghost tokensOut: U32)
      returns (open: bool)
      requires Handles(a, task, node, tokensIn, tokensOut) && attempts[a].phase == Holding
      requires m.serialised ==> !TaskBusy(View(), task)
      modifies this`attempts
      ensures Enabled(m, old(View()), Load(a)) && View() == Apply(m, old(View()), Load(a))
      ensures open <==> rows[task].status != Complete
      ensures attempts == old(attempts)[a := old(attempts)[a].(phase := if open then Loaded else Dropped)]
      ensures Handles(a, task, node, tokensIn, tokensOut)
    {
      ApplyLoad(m, View(), a);
      hide Apply, Enabled, TaskBusy;
      open := rows[task].status != Complete;
      attempts := attempts[a := attempts[a].(phase := if open then Loaded else Dropped)];
    }

    method MarkComplete(ghost m: Mode, ghost a: nat, task: nat, ghost node: Node, tokensIn: U32, tokensOut: U32)
      requires Handles(a, task, node, tokensIn, tokensOut) && attempts[a].phase == Loaded
      modifies this`rows, this`attempts
      ensures Enabled(m, old(View()), Mark(a)) && View() == Apply(m, old(View()), Mark(a))
      ensures a < |old(attempts)| && attempts == old(attempts)[a := old(attempts)[a].(phase := Marked)]
      ensures Handles(a, task, node, tokensIn, tokensOut)
      ensures task < |old(rows)| && rows == old(rows)[task := Done(old(rows)[task], tokensIn, tokensOut)]
    {
      ApplyMark(m, View(), a);
      StepKeepsShape(m, View(), Mark(a));
      hide Apply, Enabled;
      rows := rows[task := Done(rows[task], tokensIn, tokensOut)];
      attempts := attempts[a := attempts[a].(phase := Marked)];
    }

    /** The share, against the rows complete at this moment. */
    method ComputeShare(ghost m: Mode, ghost a: nat, task: nat, node: Node, tokensIn: U32, tokensOut: U32)
        returns (credits: real)
      requires Handles(a, task, node, tokensIn, tokensOut) && attempts[a].phase == Marked
      modifies this`attempts
      ensures Enabled(m, old(View()), Credit(a)) && View() == Apply(m, old(View()), Credit(a))
      ensures a < |old(attempts)| && attempts == old(attempts)[a := old(attempts)[a].(phase := Credited(credits))]
      ensures Handles(a, task, node, tokensIn, tokensOut)
    {
      ApplyCredit(m, View(), a);
      hide Apply, Enabled, NodeCreditShare, CompletedWorks;
      var work := Work(tokensIn, tokensOut, rows[task].role, node.tier);
      var job := rows[task].job;
      credits := NodeCreditShare(work, CompletedWorks(rows, job), jobs[job].budget, node.jobsCompleted);
      attempts := attempts[a := attempts[a].(phase := Credited(credits))];
    }

    method PersistReceipt(
        ghost m: Mode, ghost a: nat, task: nat, node: Node, tokensIn: U32, tokensOut: U32, credits: real)
      returns (receipt: Receipt)
      requires Handles(a, task, node, tokensIn, tokensOut) && attempts[a].phase == Credited(credits)
      modifies this`receipts, this`attempts
      ensures Enabled(m, old(View()), Write(a)) && View() == Apply(m, old(View()), Write(a))
      ensures a < |old(attempts)| && attempts == old(attempts)[a := old(attempts)[a].(phase := Receipted)]
      ensures Handles(a, task, node, tokensIn, tokensOut)
      ensures receipts == old(receipts) + [receipt]
    {
      ApplyWrite(m, View(), a);
      StepKeepsShape(m, View(), Write(a));
      hide Apply, Enabled;
      receipt := Receipt(task, rows[task].job, node, tokensIn, tokensOut, credits);
      receipts := receipts + [receipt];
      attempts := attempts[a := attempts[a].(phase := Receipted)];
    }

    /** `finalize_job_if_ready`, run without another handler of the job in between. */
    method FinalizeJobIfReady(
        ghost m: Mode, ghost a: nat, job: nat, ghost task: nat, ghost node: Node, ghost tin: U32, ghost tout: U32)
      requires Handles(a, task, node, tin, tout) && attempts[a].phase == Receipted && rows[task].job == job
      modifies this`jobs, this`attempts
      ensures jobs == if JobDone(rows, job)
                      then CloseJob(old(View()), job, ReceiptSum(receipts, job)).jobs
                      else old(jobs)
      ensures a < |old(attempts)| && attempts == old(attempts)[a := old(attempts)[a].(phase := Replied)]
      ensures Enabled(m, old(View()), Finalise(a)) && View() == Apply(m, old(View()), Finalise(a))
    {
      ApplyFinalise(m, View(), a);
      hide Apply, Enabled;
      var pendingCount := Remaining(rows, job);
      RemainingZero(rows, job);
      if pendingCount == 0 {
        var totalCost := ReceiptSum(receipts, job);
        jobs := jobs[job := jobs[job].(status := JobComplete, cost := Some(totalCost))];
      }
      attempts := attempts[a := attempts[a].(phase := Replied)];
    }

    /** From the mark to the answer. */
    method AcceptResult(
        ghost m: Mode, ghost before: State, ghost so: seq<Step>, ghost a: nat, task: nat, node: Node, tokensIn: U32,
        tokensOut: U32)
      returns (receipt: Receipt, ghost steps: seq<Step>)
      requires Handles(a, task, node, tokensIn, tokensOut) && attempts[a].phase == Loaded
      requires RunTo(m, before, so, View())
      modifies this`rows, this`jobs, this`receipts, this`attempts
      ensures task < |old(rows)| && rows == old(rows)[task := Done(old(rows)[task], tokensIn, tokensOut)]
      ensures steps == so + [Mark(a), Credit(a), Write(a), Finalise(a)] && receipts == old(receipts) + [receipt]
      ensures RunTo(m, before, steps, View())
      ensures a < |old(attempts)| && attempts == old(attempts)[a := old(attempts)[a].(phase := Replied)]
    {
      hide Apply, Enabled, JobDone, ReceiptSum, RunTo, Handles, Shape, View;
      assert task < |rows| && a < |attempts| by { HandlesInRange(a, task, node, tokensIn, tokensOut); }
      var job := rows[task].job;
      ghost var s0 := View();
      MarkComplete(m, a, task, node, tokensIn, tokensOut);
      steps := NextStep(m, before, so, s0, Mark(a));
      ghost var s1 := View();
      var credits := ComputeShare(m, a, task, node, tokensIn, tokensOut);
      steps := NextStep(m, before, steps, s1, Credit(a));
      ghost var s2 := View();
      receipt := PersistReceipt(m, a, task, node, tokensIn, tokensOut, credits);
      steps := NextStep(m, before, steps, s2, Write(a));
      ghost var s3 := View();
      FinalizeJobIfReady(m, a, job, task, node, tokensIn, tokensOut);
      steps := NextStep(m, before, steps, s3, Finalise(a));
    }

    /** A result exists: an entry has reached a worker, or some node is about to report without one. */
    ghost method Arrive(
        m: Mode, before: State, so: seq<Step>, entry: Option<nat>, task: nat, node: Node, tokensIn: U32, tokensOut: U32)
      returns (a: nat, steps: seq<Step>)
      requires Shape(View()) && MayArrive(m, View(), entry, task) && RunTo(m, before, so, View())
      modifies this`attempts
      ensures a == |old(attempts)|
      ensures attempts == old(attempts) + [Attempt(task, entry, node, tokensIn, tokensOut, Holding)]
      ensures Handles(a, task, node, tokensIn, tokensOut)
      ensures TaskBusy(View(), task) ==> old(TaskBusy(View(), task))
      ensures steps == so + [Arrival(entry, task, node, tokensIn, tokensOut)] && RunTo(m, before, steps, View())
    {
      assert task < |rows|;
      hide Apply, Enabled, RunTo, Arrival, MayArrive;
      a := |attempts|;
      var s0 := View();
      ApplyArrival(m, s0, entry, task, node, tokensIn, tokensOut);
      steps := NextStep(m, before, so, s0, Arrival(entry, task, node, tokensIn, tokensOut));
      attempts := attempts + [Attempt(task, entry, node, tokensIn, tokensOut, Holding)];
    }

    /**
      `submit_task_result` of any registered node for any task, handed to it or not, run without another handler of
      the task between its guard and its mark: the answer says which guard rejected it, and an accepted result is
      marked, paid, recorded and finalised.
    */
    method SubmitTaskResult(
        ghost m: Mode, ghost entry: Option<nat>, task: nat, node: Option<Node>, tokensIn: U32, tokensOut: U32,
        valid: bool)
      returns (r: Result<Receipt, Rejection>, ghost steps: seq<Step>)
      requires Shape(View()) && (m.serialised ==> !TaskBusy(View(), task))
      requires node.Some? && task < |rows| ==> MayArrive(m, View(), entry, task)
      modifies this`rows, this`jobs, this`receipts, this`attempts
      ensures RunTo(m, old(View()), steps, View())
      ensures r.Ok? ==>
                && node.Some?
                && steps == [Arrival(entry, task, node.value, tokensIn, tokensOut)] + HandlerSteps(|old(attempts)|)
      ensures r.Ok? ==> receipts == old(receipts) + [r.value]
      ensures r.Ok? ==> task < |old(rows)| && rows == old(rows)[task := Done(old(rows)[task], tokensIn, tokensOut)]
      ensures m.guardedFail && Inv(old(View())) ==> Inv(View())
      ensures r.Err? ==> rows == old(rows) && jobs == old(jobs) && receipts == old(receipts)
      ensures node.None? || task >= |old(rows)| ==> attempts == old(attempts)
      ensures node.Some? && task < |old(rows)| ==>
                attempts == old(attempts) +
                  [Attempt(task, entry, node.value, tokensIn, tokensOut, if r.Ok? then Replied else Dropped)]
      ensures r.Ok? <==> node.Some? && task < |old(rows)| && old(rows)[task].status != Complete && valid
      ensures r == Err(UnknownNode) <==> node.None?
      ensures r == Err(NotFound) <==> node.Some? && task >= |old(rows)|
      ensures r == Err(AlreadyCompleted) <==> node.Some? && task < |old(rows)| && old(rows)[task].status == Complete
      ensures r == Err(InvalidOutput) <==>
          node.Some? && task < |old(rows)| && old(rows)[task].status != Complete && !valid
    {
      hide Apply, Enabled, JobDone, ReceiptSum, TaskBusy, RunTo, Inv, MayArrive, Arrival, Handles;
      ghost var before := View();
      steps := [];
      NoStep(m, before);
      if node.None? { return Err(UnknownNode), steps; }
      if task >= |rows| { return Err(NotFound), steps; }

      ghost var a;
      a, steps := Arrive(m, before, steps, entry, task, node.value, tokensIn, tokensOut);
      ghost var arrived := View();
      var open := LoadTask(m, a, task, node.value, tokensIn, tokensOut);
      steps := NextStep(m, before, steps, arrived, Load(a));
      InvAfter(m, before, steps, View());
      if !open { return Err(AlreadyCompleted), steps; }

      if !valid {
        RunToShape(m, before, steps, View());
        ApplyAbandon(m, View(), a);
        steps := NextStep(m, before, steps, View(), Abandon(a));
        attempts := attempts[a := attempts[a].(phase := Dropped)];
        InvAfter(m, before, steps, View());
        return Err(InvalidOutput), steps;
      }

      var receipt;
      receipt, steps := AcceptResult(m, before, steps, a, task, node.value, tokensIn, tokensOut);
      InvAfter(m, before, steps, View());
      r := Ok(receipt);
    }

    /** No handler is between its guard and its mark. */
    ghost predicate GuardsFree()
      reads this
    {
      forall a | 0 <= a < |attempts| :: attempts[a].phase != Loaded
    }

    /** Inference failed: the entry stays pending. */
    ghost method GiveUp(m: Mode, before: State, so: seq<Step>, a: nat) returns (steps: seq<Step>)
      requires Shape(View()) && a < |attempts| && attempts[a].phase == Holding && GuardsFree()
          && RunTo(m, before, so, View())
      modifies this`attempts
      ensures Shape(View()) && GuardsFree() && RunTo(m, before, steps, View())
    {
      hide Apply, Enabled, RunTo;
      var s0 := View();
      ApplyAbandon(m, s0, a);
      steps := NextStep(m, before, so, s0, Abandon(a));
      attempts := attempts[a := attempts[a].(phase := Dropped)];
    }

    /** XACK, once the orchestrator has answered with a receipt. */
    method Acknowledge(ghost m: Mode, ghost before: State, ghost so: seq<Step>, ghost a: nat, e: nat)
        returns (ghost steps: seq<Step>)
      requires a < |attempts| && attempts[a].phase == Replied && attempts[a].entry == Some(e)
      requires RunTo(m, before, so, View())
      requires forall b | 0 <= b < |attempts| && b != a :: attempts[b].phase != Loaded
      modifies this`attempts, this`acked
      ensures acked == old(acked) + {e} && GuardsFree() && RunTo(m, before, steps, View())
    {
      ghost var s0 := View();
      RunToShape(m, before, so, s0);
      ApplyAck(m, s0, a);
      hide Apply, Enabled, RunTo;
      steps := NextStep(m, before, so, s0, Ack(a));
      attempts := attempts[a := attempts[a].(phase := Acked)];
      acked := acked + {e};
    }

    /** `process_task` and the ACK for one delivered entry. */
    method ProcessEntry(ghost m: Mode, ghost before: State, ghost so: seq<Step>, node: Node, e: nat, output: Inference)
      returns (ok: bool, ghost steps: seq<Step>)
      requires Shape(View()) && Deliverable(View(), e) && stream[e] < |rows| && GuardsFree()
      requires RunTo(m, before, so, View())
      modifies this`rows, this`jobs, this`receipts, this`attempts, this`acked
      ensures ok <==> Accepted(old(rows), stream[e], output)
      ensures acked == if ok then old(acked) + {e} else old(acked)
      ensures var row := old(rows)[stream[e]];
              rows == if ok then old(rows)[stream[e] := Done(row, output.tokensIn, output.tokensOut)] else old(rows)
      ensures Shape(View()) && GuardsFree() && RunTo(m, before, steps, View())
    {
      hide Apply, Enabled, RunTo, Inv, Shape, Handles, Done, Arrival;
      var task := stream[e];
      ghost var received := View();
      assert MayArrive(m, received, Some(e), task) && !TaskBusy(received, task);
      hide TaskBusy, MayArrive;
      if output.InferenceFailed? {
        ghost var a;
        a, steps := Arrive(m, before, so, Some(e), task, node, 0, 0);
        RunToShape(m, before, steps, View());
        steps := GiveUp(m, before, steps, a);
        return false, steps;
      }
      var r;
      ghost var more;
      r, more := SubmitTaskResult(m, Some(e), task, Some(node), output.tokensIn, output.tokensOut, output.valid);
      RunAppend(m, before, so, received, more, View());
      steps := so + more;
      ok := r.Ok?;
      if ok {
        steps := Acknowledge(m, before, steps, |received.attempts|, e);
      }
      RunToShape(m, before, steps, View());
    }

    /** After the first |answered| entries of a round that started at `before`. */
    ghost predicate RoundInv(
      m: Mode, before: State, entries: seq<nat>, outputs: seq<Inference>, answered: seq<bool>, steps: seq<Step>)
      reads this
    {
      && |answered| <= |entries| == |outputs| && Below(entries, |stream|) && stream == before.stream
      && Shape(View()) && GuardsFree() && Distinct(entries) && NoneIn(entries, before.acked)
      && AllInGroup(before, entries) && group == before.group
      && rows == RoundRows(before.rows, stream, entries, outputs, |answered|)
      && acked == before.acked + Answered(entries, answered)
      && AnswersRight(before.rows, stream, entries, outputs, answered)
      && RunTo(m, before, steps, View())
    }

    lemma {:induction false} NextDeliverable(
        m: Mode, before: State, entries: seq<nat>, outputs: seq<Inference>, answered: seq<bool>, so: seq<Step>)
      requires RoundInv(m, before, entries, outputs, answered, so) && |answered| < |entries|
      ensures var e := entries[|answered|];
              e < |stream| && e < |before.stream| && Deliverable(View(), e) && stream[e] < |rows| && GuardsFree()
    {
      assert Below(stream, |rows|);
      hide GuardsFree, Distinct, NoneIn, RoundRows, Answered, AnswersRight, RunTo, Accepted, Done, Below;
      NotYetAcked(entries, answered, before.acked);
      NextInRange(entries, stream, |rows|, |answered|);
      assert InGroup(before, entries[|answered|]);
    }

    method RoundStep(
      ghost m: Mode, ghost before: State, node: Node, entries: seq<nat>, outputs: seq<Inference>,
      ghost answered: seq<bool>, ghost so: seq<Step>, i: nat) returns (ok: bool, ghost steps: seq<Step>)
      requires RoundInv(m, before, entries, outputs, answered, so) && i == |answered| < |entries|
      modifies this`rows, this`jobs, this`receipts, this`attempts, this`acked
      ensures RoundInv(m, before, entries, outputs, answered + [ok], steps)
    {
      assert Below(stream, |rows|);
      hide View, Shape, GuardsFree, Distinct, NoneIn, RoundRows, Answered, AnswersRight, RunTo, Accepted, Done, Below;
      NextDeliverable(m, before, entries, outputs, answered, so);
      NextRow(before.rows, stream, entries, outputs, answered);
      ok, steps := ProcessEntry(m, before, so, node, entries[i], outputs[i]);
      NextAnswer(entries, answered, before.acked, ok);
    }

    /**
      One round of `run_worker_loop`: claimed entries, then fresh ones; an entry is acknowledged exactly when
      inference produced an output, the output passed validation, and its task was not complete at its turn.
    */
    method WorkerRound(ghost m: Mode, node: Node, entries: seq<nat>, outputs: seq<Inference>)
      returns (answered: seq<bool>, ghost steps: seq<Step>)
      requires Shape(View()) && |outputs| == |entries| && Distinct(entries) && GuardsFree()
      requires Below(entries, |stream|) && NoneIn(entries, acked) && AllInGroup(View(), entries)
      modifies this`rows, this`jobs, this`receipts, this`attempts, this`acked
      ensures |answered| == |entries| && rows == RoundRows(old(rows), stream, entries, outputs, |entries|)
      ensures acked == old(acked) + Answered(entries, answered)
      ensures AnswersRight(old(rows), stream, entries, outputs, answered)
      ensures RunTo(m, old(View()), steps, View())
      ensures m.guardedFail && Inv(old(View())) ==> Inv(View())
    {
      hide Shape, GuardsFree, Distinct, NoneIn, RoundRows, Answered, AnswersRight, RunTo, Inv, Below;
      ghost var before := View();
      NoRound(rows, stream, entries, outputs);
      NoneAnswered(entries);
      NoStep(m, before);
      answered, steps := [], [];
      for i := 0 to |entries|
        invariant |answered| == i && RoundInv(m, before, entries, outputs, answered, steps)
      {
        var ok;
        ok, steps := RoundStep(m, before, node, entries, outputs, answered, steps, i);
        answered := answered + [ok];
      }
      InvAfter(m, before, steps, View());
    }
  }
}
