/** The rows each tier of job is made of, and in which order they may go out. */
module JobPlans {
  import opened Types
  import opened Lifecycle
  import opened LifecycleInvariants

  /** Row t is the one that the job's plan has for this role at this position. */
  predicate RowIs(rows: seq<Row>, t: nat, job: nat, role: AgentRole, position: int) {
    t < |rows| && rows[t].job == job && rows[t].role == role && rows[t].position == position
  }

  /** The job's rows begin at `base`, in the order in which they were inserted, and there are no others. */
  ghost predicate AsSubmitted(rows: seq<Row>, base: nat, job: nat, tier: JobTier) {
    match tier
    case Standard =>
      && RowIs(rows, base, job, Planner, 0) && RowIs(rows, base + 1, job, Coder, 1)
      && RowIs(rows, base + 2, job, Summarizer, 2) && OnlyRows(rows, base, 3, job)
    case Paid =>
      && RowIs(rows, base, job, Planner, 0) && RowIs(rows, base + 1, job, Coder, 1)
      && RowIs(rows, base + 2, job, Critic, 2) && OnlyRows(rows, base, 3, job)
    case Premium =>
      && RowIs(rows, base, job, Planner, 0)
      && RowIs(rows, base + 1, job, Coder, 1) && RowIs(rows, base + 2, job, Coder, 1)
      && RowIs(rows, base + 3, job, Critic, 2) && RowIs(rows, base + 4, job, Aggregator, 3)
      && OnlyRows(rows, base, 5, job)
  }

  ghost predicate OnlyRows(rows: seq<Row>, base: nat, n: nat, job: nat) {
    forall t | 0 <= t < |rows| && rows[t].job == job :: base <= t < base + n
  }

  /** What `submit_job` inserts, whatever rows of other jobs are there. */
  lemma {:induction false} PlanAsSubmitted(before: seq<Row>, job: nat, tier: JobTier)
    requires forall t | 0 <= t < |before| :: before[t].job != job
    ensures AsSubmitted(before + TierPlan(tier, job), |before|, job, tier)
    ensures |TierPlan(tier, job)| == match tier case Standard => 3 case Paid => 3 case Premium => 5
    ensures forall row | row in TierPlan(tier, job) :: row.status == Pending && row.retries == 0
  {
  }

  /** Rows keep their role, and no step gives a fully inserted job another row. */
  lemma {:induction false} RolesAfter(m: Mode, s: State, step: Step, t: nat)
    requires Shape(s) && Enabled(m, s, step) && t < |s.rows|
    ensures t < |Apply(m, s, step).rows| && Apply(m, s, step).rows[t].role == s.rows[t].role
  {
    hide CreditsFor, Remaining, ReceiptSum, TierPlan;
  }

  lemma {:induction false} StaysRow(m: Mode, s: State, step: Step, t: nat, job: nat, role: AgentRole, position: int)
    requires Shape(s) && Enabled(m, s, step) && RowIs(s.rows, t, job, role, position)
    ensures RowIs(Apply(m, s, step).rows, t, job, role, position)
  {
    hide Apply, Enabled;
    RolesAfter(m, s, step, t);
    RowsAfter(m, s, step, t);
  }

  lemma {:induction false} StaysOnly(m: Mode, s: State, step: Step, base: nat, n: nat, job: nat)
    requires Shape(s) && Enabled(m, s, step) && Seeded(s, job) && OnlyRows(s.rows, base, n, job)
    ensures OnlyRows(Apply(m, s, step).rows, base, n, job)
  {
    var next := Apply(m, s, step);
    forall t | 0 <= t < |next.rows| && next.rows[t].job == job
      ensures base <= t < base + n
    {
      if t < |s.rows| { RowsAfter(m, s, step, t); } else { NewRows(m, s, step, t); }
    }
  }

  lemma {:induction false} StaysSubmitted(m: Mode, s: State, step: Step, base: nat, job: nat, tier: JobTier)
    requires Shape(s) && Enabled(m, s, step) && Seeded(s, job) && AsSubmitted(s.rows, base, job, tier)
    ensures Seeded(Apply(m, s, step), job) && AsSubmitted(Apply(m, s, step).rows, base, job, tier)
  {
    RowsAfter(m, s, step, base);
    PlansAfter(m, s, step, job);
    StaysOnly(m, s, step, base, if tier == Premium then 5 else 3, job);
    hide Apply, Enabled, RowIs, OnlyRows, Shape;
    var rows := s.rows;
    StaysRow(m, s, step, base, job, Planner, 0);
    StaysRow(m, s, step, base + 1, job, Coder, 1);
    match tier
    case Standard => StaysRow(m, s, step, base + 2, job, Summarizer, 2);
    case Paid => StaysRow(m, s, step, base + 2, job, Critic, 2);
    case Premium =>
      StaysRow(m, s, step, base + 2, job, Coder, 1);
      StaysRow(m, s, step, base + 3, job, Critic, 2);
      StaysRow(m, s, step, base + 4, job, Aggregator, 3);
  }

  lemma {:induction false} SubmittedForGood(
      m: Mode, s: State, steps: seq<Step>, base: nat, job: nat, tier: JobTier)
    requires Shape(s) && IsRun(m, s, steps) && Seeded(s, job) && AsSubmitted(s.rows, base, job, tier)
    ensures AsSubmitted(After(m, s, steps).rows, base, job, tier)
    decreases |steps|
  {
    hide Apply, Enabled, AsSubmitted;
    if steps != [] {
      StaysSubmitted(m, s, steps[0], base, job, tier);
      StepKeepsShape(m, s, steps[0]);
      SubmittedForGood(m, Apply(m, s, steps[0]), steps[1..], base, job, tier);
    }
  }

  predicate IsDone(rows: seq<Row>, t: nat) {
    t < |rows| && rows[t].status == Complete
  }

  predicate IsPending(rows: seq<Row>, t: nat) {
    t < |rows| && rows[t].status == Pending
  }

  /**
    The order of a job's tasks, tier by tier. Standard and Paid: planner, coder, then summary or review. Premium:
    planner, then both coders side by side, then the review of both, then the aggregation.
  */
  lemma {:induction false} EligibleByTier(rows: seq<Row>, base: nat, job: nat, tier: JobTier)
    requires AsSubmitted(rows, base, job, tier)
    ensures Eligible(rows, base) <==> IsPending(rows, base)
    ensures Eligible(rows, base + 1) <==> IsPending(rows, base + 1) && IsDone(rows, base)
    ensures tier != Premium ==>
              (Eligible(rows, base + 2) <==> IsPending(rows, base + 2) && IsDone(rows, base) && IsDone(rows, base + 1))
    ensures tier == Premium ==>
              && (Eligible(rows, base + 2) <==> IsPending(rows, base + 2) && IsDone(rows, base))
              && (Eligible(rows, base + 3) <==>
                  IsPending(rows, base + 3) && IsDone(rows, base) && IsDone(rows, base + 1) && IsDone(rows, base + 2))
              && (Eligible(rows, base + 4) <==>
                  && IsPending(rows, base + 4) && IsDone(rows, base) && IsDone(rows, base + 1) && IsDone(rows, base + 2)
                  && IsDone(rows, base + 3))
  {
  }
}
