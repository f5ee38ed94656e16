/** The credits of receipts over whole runs, with handlers of one task serialised. */
module RunCredits {
  import opened Types
  import opened Credits
  import opened Lifecycle
  import opened LifecycleInvariants
  import opened LifecycleSafety
  import opened ExactlyOnce

  function RowWork(row: Row): Work {
    Work(row.tokensIn, row.tokensOut, row.role, Edge)
  }

  function JobScore(rows: seq<Row>, job: nat): (score: real)
    ensures score >= 0.0
  {
    TotalScore(CompletedWorks(rows, job))
  }

  lemma {:induction false} JobScoreSnoc(rows: seq<Row>, job: nat)
    requires rows != []
    ensures var last := rows[|rows| - 1];
            JobScore(rows, job) == JobScore(rows[..|rows| - 1], job) +
                                   if last.job == job && last.status == Complete then Score(RowWork(last)) else 0.0
  {
    hide Score;
    var works := CompletedWorks(rows[..|rows| - 1], job);
    var all := CompletedWorks(rows, job);
    if all != works {
      assert all[..|all| - 1] == works;
    }
  }

  /** A completed row's own work is in the list its share is computed against. */
  lemma {:induction false} OwnWorkCounted(rows: seq<Row>, t: nat)
    requires t < |rows| && rows[t].status == Complete
    ensures JobScore(rows, rows[t].job) >= Score(RowWork(rows[t]))
  {
    hide Score, JobScore;
    JobScoreSnoc(rows, rows[t].job);
    if t < |rows| - 1 {
      OwnWorkCounted(rows[..|rows| - 1], t);
    }
  }

  /** Rows are only added, and complete rows do not change. */
  ghost predicate Extends(before: seq<Row>, after: seq<Row>) {
    && |before| <= |after|
    && forall t | 0 <= t < |before| ::
      after[t].job == before[t].job && after[t].role == before[t].role
          && (before[t].status == Complete ==> after[t] == before[t])
  }

  lemma {:induction false} JobScoreGrows(before: seq<Row>, after: seq<Row>, job: nat)
    requires Extends(before, after)
    ensures JobScore(before, job) <= JobScore(after, job)
    decreases |after|
  {
    hide Score, JobScore;
    if after != [] {
      var front := after[..|after| - 1];
      JobScoreSnoc(after, job);
      if |before| < |after| {
        assert Extends(before, front);
        JobScoreGrows(before, front, job);
      } else {
        JobScoreSnoc(before, job);
        JobScoreGrows(before[..|before| - 1], front, job);
      }
    } else {
      assert before == after;
    }
  }

  /**
    At least the share the formula gives against the rows complete now, at most the node's factor times the
    executor pool, and nothing for work without a score.
  */
  ghost predicate Fair(rows: seq<Row>, budget: real, job: nat, w: Work, jobs: nat, credits: real) {
    && Score(AsEdge(w)) <= JobScore(rows, job)
    && NodeCreditShare(w, CompletedWorks(rows, job), budget, jobs) <= credits <=
        Factor(w.tier, jobs) * (EXECUTOR_PART * budget)
    && (Score(w) == 0.0 ==> credits == 0.0)
  }

  lemma {:induction false} FairAtIssue(rows: seq<Row>, budget: real, job: nat, w: Work, jobs: nat)
    requires budget > 0.0 && Score(AsEdge(w)) <= JobScore(rows, job)
    ensures Fair(rows, budget, job, w, jobs, NodeCreditShare(w, CompletedWorks(rows, job), budget, jobs))
  {
    hide Score, Factor, NodeCreditShare;
    ReceiptAgainst(w, CompletedWorks(rows, job), budget, jobs);
  }

  lemma {:induction false} StaysFair(
      before: seq<Row>, after: seq<Row>, budget: real, job: nat, w: Work, jobs: nat, credits: real)
    requires budget > 0.0 && Extends(before, after) && Fair(before, budget, job, w, jobs, credits)
    ensures Fair(after, budget, job, w, jobs, credits)
  {
    hide Score, Factor, NodeCreditShare, Extends;
    JobScoreGrows(before, after, job);
    ShareAgainstMore(w, CompletedWorks(before, job), CompletedWorks(after, job), budget, jobs);
  }

  // -------------------------------------------------------------------------
  // Over runs
  // -------------------------------------------------------------------------

  ghost predicate BudgetsPositive(s: State) {
    forall j | 0 <= j < |s.jobs| :: s.jobs[j].budget > 0.0
  }

  /** What an attempt on row t is paid for. */
  function AttemptWork(at: Attempt, row: Row): Work {
    Work(at.tokensIn, at.tokensOut, row.role, at.node.tier)
  }

  function ReceiptWork(r: Receipt, row: Row): Work {
    Work(r.tokensIn, r.tokensOut, row.role, r.node.tier)
  }

  /** An owing handler's tokens are the row's, and what it has computed is fair. */
  ghost predicate OwingFair(s: State)
    requires Shape(s)
  {
    forall a: nat, t: nat | OwingFor(s, a, t) :: OwingFairAt(s, a, t)
  }

  ghost predicate OwingFairAt(s: State, a: nat, t: nat)
    requires Shape(s) && OwingFor(s, a, t)
  {
    var at, row := s.attempts[a], s.rows[t];
    && at.tokensIn == row.tokensIn && at.tokensOut == row.tokensOut
    && (at.phase.Credited? ==>
          Fair(s.rows, s.jobs[row.job].budget, row.job, AttemptWork(at, row), at.node.jobsCompleted, at.phase.credits))
  }

  /** A receipt is for the tokens stored in its row, and fair. */
  ghost predicate ReceiptFairAt(s: State, r: nat)
    requires Shape(s) && r < |s.receipts|
  {
    var re := s.receipts[r];
    var row := s.rows[re.task];
    && re.tokensIn == row.tokensIn && re.tokensOut == row.tokensOut
    && Fair(s.rows, s.jobs[row.job].budget, row.job, ReceiptWork(re, row), re.node.jobsCompleted, re.credits)
  }

  ghost predicate ReceiptsFair(s: State)
    requires Shape(s)
  {
    forall r | 0 <= r < |s.receipts| :: ReceiptFairAt(s, r)
  }

  ghost predicate PayInv(s: State) {
    OnceInv(s) && BudgetsPositive(s) && OwingFair(s) && ReceiptsFair(s)
  }

  lemma {:induction false} BudgetsAfter(m: Guarded, s: State, step: Step)
    requires Shape(s) && Enabled(m, s, step) && BudgetsPositive(s)
    ensures var n := Apply(m, s, step);
            BudgetsPositive(n) && |s.jobs| <= |n.jobs| && forall j | 0 <= j < |s.jobs| ::
                n.jobs[j].budget == s.jobs[j].budget
  {
    hide CreditsFor, Remaining, ReceiptSum, TierPlan;
  }

  lemma {:induction false} StepExtends(m: Guarded, s: State, step: Step)
    requires Shape(s) && Enabled(m, s, step) && LoadedFresh(s)
    ensures Extends(s.rows, Apply(m, s, step).rows)
  {
    hide CreditsFor, Remaining, ReceiptSum, TierPlan;
    if step.Mark? {
      assert LoadedFor(s, step.a, TaskOf(s, step.a));
    }
  }

  /** What an owing handler knows after a step. */
  lemma {:induction false} OwingStep(m: Guarded, s: State, step: Step, a: nat, t: nat)
    requires Shape(s) && Enabled(m, s, step) && Shape(Apply(m, s, step)) && OwingFor(Apply(m, s, step), a, t)
    ensures var n := Apply(m, s, step);
            if step == Mark(a) then
              n.attempts[a].phase == Marked
              && n.rows[t].tokensIn == n.attempts[a].tokensIn && n.rows[t].tokensOut == n.attempts[a].tokensOut
            else if step == Credit(a) then
              OwingFor(s, a, t) && n.rows == s.rows && n.jobs == s.jobs
              && n.attempts[a] == s.attempts[a].(phase := Credited(CreditsFor(s, a)))
            else
              OwingFor(s, a, t) && n.attempts[a] == s.attempts[a]
  {
    hide CreditsFor, Remaining, ReceiptSum, TierPlan;
  }

  lemma {:induction false} KeepsOwingFair(m: Guarded, s: State, step: Step)
    requires PayInv(s) && Enabled(m, s, step) && OnceInv(Apply(m, s, step))
    ensures OwingFair(Apply(m, s, step))
  {
    var n := Apply(m, s, step);
    StepExtends(m, s, step);
    BudgetsAfter(m, s, step);
    forall a: nat, t: nat | OwingFor(n, a, t)
      ensures OwingFairAt(n, a, t)
    {
      OwingStep(m, s, step, a, t);
      hide Apply, Fair, Extends, NewerTables, LoadedFresh, AtMostOnce;
      if step == Mark(a) {
      } else if step == Credit(a) {
        CreditFair(s, a, t);
      } else {
        assert OwingFairAt(s, a, t);
        assert s.rows[t].status == Complete;
        OwingStaysFair(s, n, a, t);
      }
    }
  }

  lemma {:induction false} CreditFair(s: State, a: nat, t: nat)
    requires PayInv(s) && OwingFor(s, a, t)
    ensures var at, row := s.attempts[a], s.rows[t];
            Fair(s.rows, s.jobs[row.job].budget, row.job, AttemptWork(at, row), at.node.jobsCompleted, CreditsFor(s, a))
  {
    hide Fair, Score, NodeCreditShare, JobScore;
    var at, row := s.attempts[a], s.rows[t];
    assert OwingFairAt(s, a, t);
    assert row.status == Complete;
    OwnWorkCounted(s.rows, t);
    assert AsEdge(AttemptWork(at, row)) == RowWork(row);
    FairAtIssue(s.rows, s.jobs[row.job].budget, row.job, AttemptWork(at, row), at.node.jobsCompleted);
  }

  /** The receipt a write adds. */
  lemma {:induction false} WrittenReceipt(m: Guarded, s: State, step: Step)
    requires Shape(s) && Enabled(m, s, step) && step.Write?
    ensures var n, at, t := Apply(m, s, step), s.attempts[step.a], TaskOf(s, step.a);
            && n.receipts == s.receipts +
                [Receipt(t, s.rows[t].job, at.node, at.tokensIn, at.tokensOut, at.phase.credits)]
            && n.rows == s.rows && n.jobs == s.jobs && OwingFor(s, step.a, t)
  {
  }

  /** The tables a step leaves behind in the serialised mode. */
  ghost predicate NewerTables(s: State, n: State) {
    && Extends(s.rows, n.rows) && |s.jobs| <= |n.jobs|
    && forall j | 0 <= j < |s.jobs| :: s.jobs[j].budget > 0.0 && n.jobs[j].budget == s.jobs[j].budget
  }

  lemma {:induction false} ReceiptStaysFair(s: State, n: State, r: nat)
    requires Shape(s) && Shape(n) && NewerTables(s, n) && r < |s.receipts| && r < |n.receipts|
        && n.receipts[r] == s.receipts[r]
    requires s.rows[s.receipts[r].task].status == Complete && ReceiptFairAt(s, r)
    ensures ReceiptFairAt(n, r)
  {
    hide Fair;
    var re := s.receipts[r];
    var row := s.rows[re.task];
    assert n.rows[re.task] == row;
    StaysFair(s.rows, n.rows, s.jobs[row.job].budget, row.job, ReceiptWork(re, row), re.node.jobsCompleted, re.credits);
  }

  lemma {:induction false} OwingStaysFair(s: State, n: State, a: nat, t: nat)
    requires Shape(s) && Shape(n) && NewerTables(s, n) && OwingFor(s, a, t) && OwingFor(n, a, t)
        && n.attempts[a] == s.attempts[a]
    requires s.rows[t].status == Complete && OwingFairAt(s, a, t)
    ensures OwingFairAt(n, a, t)
  {
    hide Fair;
    var at, row := s.attempts[a], s.rows[t];
    assert n.rows[t] == row;
    if at.phase.Credited? {
      StaysFair(s.rows, n.rows, s.jobs[row.job].budget, row.job, AttemptWork(at, row), at.node.jobsCompleted,
          at.phase.credits);
    }
  }

  lemma {:induction false} KeepsReceiptsFair(m: Guarded, s: State, step: Step)
    requires PayInv(s) && Enabled(m, s, step) && OnceInv(Apply(m, s, step))
    ensures ReceiptsFair(Apply(m, s, step))
  {
    var n := Apply(m, s, step);
    StepExtends(m, s, step);
    BudgetsAfter(m, s, step);
    ReceiptsAfter(m, s, step);
    hide Apply, Fair, Extends, NewerTables, Inv, LoadedFresh, AtMostOnce;
    if step.Write? {
      WrittenReceipt(m, s, step);
      assert OwingFairAt(s, step.a, TaskOf(s, step.a));
    }
    forall r | 0 <= r < |n.receipts|
      ensures ReceiptFairAt(n, r)
    {
      if r < |s.receipts| {
        assert n.receipts[r] == s.receipts[r];
        ReceiptStaysFair(s, n, r);
      }
    }
  }

  lemma {:induction false} StepKeepsPay(m: Guarded, s: State, step: Step)
    requires m.serialised && PayInv(s) && Enabled(m, s, step)
    ensures PayInv(Apply(m, s, step))
  {
    hide Apply, Enabled, BudgetsPositive, OwingFair, ReceiptsFair;
    StepKeepsOnce(m, s, step);
    BudgetsAfter(m, s, step);
    KeepsOwingFair(m, s, step);
    KeepsReceiptsFair(m, s, step);
  }

  lemma {:induction false} RunKeepsPay(m: Guarded, s: State, steps: seq<Step>)
    requires m.serialised && PayInv(s) && IsRun(m, s, steps)
    ensures PayInv(After(m, s, steps))
    decreases |steps|
  {
    hide Apply, Enabled, BudgetsPositive, OwingFair, ReceiptsFair;
    if steps != [] {
      StepKeepsPay(m, s, steps[0]);
      StepKeepsShape(m, s, steps[0]);
      RunKeepsPay(m, Apply(m, s, steps[0]), steps[1..]);
    }
  }

  lemma {:induction false} InitPay(m: Guarded)
    requires m.serialised
    ensures PayInv(Start(m))
  {
    InitReachable(m);
    ReachableOnce(m, Start(m));
    hide OnceInv, Fair;
  }

  lemma {:induction false} ReachablePay(m: Guarded, s: State)
    requires m.serialised && Reachable(m, s)
    ensures PayInv(s)
  {
    InitPay(m);
    hide Apply, Enabled, PayInv;
    var steps :| IsRun(m, Start(m), steps) && After(m, Start(m), steps) == s;
    RunKeepsPay(m, Start(m), steps);
  }

  /**
    Handlers of a task serialised, in every reachable state: a receipt is for the tokens stored with the
    task, is at least the share the same formula gives against the tasks complete now, the final list
    included, and is at most the node's factor times 0.70 of the budget: its tier's multiplier, halved on probation.
  */
  lemma {:induction false} ReceiptsWithinBounds(m: Guarded, s: State, r: nat)
    requires m.serialised && Reachable(m, s) && r < |s.receipts|
    ensures Shape(s)
    ensures var re := s.receipts[r];
            var row := s.rows[re.task];
            var budget := s.jobs[row.job].budget;
            && re.job == row.job && re.tokensIn == row.tokensIn && re.tokensOut == row.tokensOut
            && NodeCreditShare(ReceiptWork(re, row), CompletedWorks(s.rows, row.job), budget,
                re.node.jobsCompleted) <= re.credits
            && 0.0 <= re.credits <= Factor(re.node.tier, re.node.jobsCompleted) * (EXECUTOR_PART * budget)
            && (Score(ReceiptWork(re, row)) == 0.0 ==> re.credits == 0.0)
  {
    ReachablePay(m, s);
    hide Reachable, Factor, NodeCreditShare, Score, JobScore, LoadedFresh, AtMostOnce, ReceiptsComplete;
    assert ReceiptFairAt(s, r);
    var re := s.receipts[r];
    var row := s.rows[re.task];
    ShareNonNegative(ReceiptWork(re, row), CompletedWorks(s.rows, row.job), s.jobs[row.job].budget,
        re.node.jobsCompleted);
  }

  lemma {:induction false} ShareNonNegative(w: Work, all: seq<Work>, total: real, jobs: nat)
    requires total >= 0.0
    ensures NodeCreditShare(w, all, total, jobs) >= 0.0
    ensures total > 0.0 && Score(w) > 0.0 && TotalScore(all) > 0.0 ==> NodeCreditShare(w, all, total, jobs) > 0.0
  {
    hide Score, TotalScore;
    if TotalScore(all) > 0.0 {
      ShareBounds(w, all, total, jobs);
      if total > 0.0 {
        var unit := EXECUTOR_PART * total / TotalScore(all);
        assert unit > 0.0;
        ProductSign(Score(w), unit);
      }
    }
  }

  lemma {:induction false} CreditsPositive(s: State, a: nat)
    requires Shape(s) && a < |s.attempts|
    requires var at, row := s.attempts[a], s.rows[TaskOf(s, a)];
             row.status == Complete && Tokens(RowWork(row)) > 0 && Tokens(AttemptWork(at, row)) > 0
                 && s.jobs[row.job].budget > 0.0
    ensures CreditsFor(s, a) > 0.0
  {
    var at, row := s.attempts[a], s.rows[TaskOf(s, a)];
    OwnWorkCounted(s.rows, TaskOf(s, a));
    ShareNonNegative(AttemptWork(at, row), CompletedWorks(s.rows, row.job), s.jobs[row.job].budget,
        at.node.jobsCompleted);
  }
}
