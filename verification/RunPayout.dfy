/** What a job pays out in all, to whatever nodes, over whole runs with the handlers of a task serialised. */
module RunPayout {
  import opened Types
  import opened Credits
  import opened Lifecycle
  import opened LifecycleSafety
  import opened Finalisation
  import opened ExactlyOnce
  import opened RunCredits
  import opened Scenarios

  // -------------------------------------------------------------------------
  // Receipts, row by row
  // -------------------------------------------------------------------------

  /** What the receipts of task `t` add up to. */
  function PaidFor(receipts: seq<Receipt>, t: nat): real {
    if receipts == [] then 0.0
    else
      var last := receipts[|receipts| - 1];
      PaidFor(receipts[..|receipts| - 1], t) + if last.task == t then last.credits else 0.0
  }

  function PaidByRow(receipts: seq<Receipt>, rows: seq<Row>, job: nat): real {
    if rows == [] then 0.0
    else
      var t := |rows| - 1;
      PaidByRow(receipts, rows[..t], job) + if rows[t].job == job then PaidFor(receipts, t) else 0.0
  }

  lemma {:induction false} NothingPaid(rows: seq<Row>, job: nat)
    ensures PaidByRow([], rows, job) == 0.0
  {
    if rows != [] { NothingPaid(rows[..|rows| - 1], job); }
  }

  lemma {:induction false} OneMoreReceipt(receipts: seq<Receipt>, r: Receipt, rows: seq<Row>, job: nat)
    ensures PaidByRow(receipts + [r], rows, job) ==
            PaidByRow(receipts, rows, job) + if r.task < |rows| && rows[r.task].job == job then r.credits else 0.0
  {
    assert (receipts + [r])[..|receipts|] == receipts;
    if rows != [] { OneMoreReceipt(receipts, r, rows[..|rows| - 1], job); }
  }

  lemma {:induction false} ReceiptsAddUp(receipts: seq<Receipt>, rows: seq<Row>, job: nat)
    requires forall r | 0 <= r < |receipts| ::
        receipts[r].task < |rows| && receipts[r].job == rows[receipts[r].task].job
    ensures ReceiptSum(receipts, job) == PaidByRow(receipts, rows, job)
  {
    if receipts == [] {
      NothingPaid(rows, job);
    } else {
      var front, last := receipts[..|receipts| - 1], receipts[|receipts| - 1];
      assert receipts == front + [last];
      ReceiptsAddUp(front, rows, job);
      OneMoreReceipt(front, last, rows, job);
    }
  }

  lemma {:induction false} NoReceiptFor(receipts: seq<Receipt>, t: nat)
    requires forall q | 0 <= q < |receipts| :: receipts[q].task != t
    ensures PaidFor(receipts, t) == 0.0
  {
    if receipts != [] { NoReceiptFor(receipts[..|receipts| - 1], t); }
  }

  lemma {:induction false} OnlyReceiptFor(receipts: seq<Receipt>, t: nat, r: nat)
    requires r < |receipts| && receipts[r].task == t
    requires forall q | 0 <= q < |receipts| && receipts[q].task == t :: q == r
    ensures PaidFor(receipts, t) == receipts[r].credits
  {
    var front := receipts[..|receipts| - 1];
    if r == |receipts| - 1 {
      NoReceiptFor(front, t);
    } else {
      OnlyReceiptFor(front, t, r);
    }
  }

  // -------------------------------------------------------------------------
  // Bounds
  // -------------------------------------------------------------------------

  /** A complete row of the job whose work has a score. */
  predicate CountsFor(row: Row, job: nat) {
    row.job == job && row.status == Complete && Tokens(RowWork(row)) > 0
  }

  function ScoredRows(rows: seq<Row>, job: nat): nat {
    if rows == [] then 0
    else ScoredRows(rows[..|rows| - 1], job) + if CountsFor(rows[|rows| - 1], job) then 1 else 0
  }

  function RowScore(row: Row, job: nat): real {
    if row.job == job && row.status == Complete then Score(RowWork(row)) else 0.0
  }

  /** A pay between a score in units and a number of shares of the given size. */
  ghost predicate Between(score: real, paid: real, n: nat, unit: real, most: real) {
    score * unit <= paid <= n as real * most
  }

  /** Each row of the job is paid at least its score in units and at most one share, or nothing without a score. */
  ghost predicate RowsWithin(receipts: seq<Receipt>, rows: seq<Row>, job: nat, unit: real, most: real) {
    forall t | 0 <= t < |rows| && rows[t].job == job :: RowWithin(receipts, rows[t], t, job, unit, most)
  }

  ghost predicate RowWithin(receipts: seq<Receipt>, row: Row, t: nat, job: nat, unit: real, most: real) {
    Between(RowScore(row, job), PaidFor(receipts, t), if CountsFor(row, job) then 1 else 0, unit, most)
  }

  lemma {:induction false} RowsBetween(receipts: seq<Receipt>, rows: seq<Row>, job: nat, unit: real, most: real)
    requires RowsWithin(receipts, rows, job, unit, most)
    ensures Between(JobScore(rows, job), PaidByRow(receipts, rows, job), ScoredRows(rows, job), unit, most)
  {
    hide Score, JobScore, PaidFor, RowWork, Between, CountsFor;
    if rows == [] {
      NoScore(job);
      NoneBetween(unit, most);
    } else {
      var t := |rows| - 1;
      var front := rows[..t];
      assert forall d | 0 <= d < |front| && front[d].job == job :: front[d] == rows[d];
      RowsBetween(receipts, front, job, unit, most);
      JobScoreSnoc(rows, job);
      if rows[t].job == job {
        assert RowWithin(receipts, rows[t], t, job, unit, most);
        OneMoreRow(JobScore(front, job), RowScore(rows[t], job), unit, PaidByRow(receipts, front, job),
                   PaidFor(receipts, t), ScoredRows(front, job), if CountsFor(rows[t], job) then 1 else 0, most);
      } else {
        assert !CountsFor(rows[t], job) by { OtherJob(rows[t], job); }
      }
    }
  }

  lemma {:induction false} NoneBetween(unit: real, most: real)
    ensures Between(0.0, 0.0, 0, unit, most)
  {
  }

  lemma {:induction false} SumBetween(score: real, paid: real, n: nat, unit: real, most: real)
    requires Between(score, paid, n, unit, most) && score >= 0.0 && unit >= 0.0
    ensures score * unit <= paid <= n as real * most && 0.0 <= paid
  {
    ProductNonNegative(score, unit);
  }

  lemma {:induction false} OtherJob(row: Row, job: nat)
    requires row.job != job
    ensures !CountsFor(row, job)
  {
  }

  lemma {:induction false} OneMoreRow(
      score: real, more: real, unit: real, paid: real, pay: real, n: nat, k: nat, most: real)
    requires Between(score, paid, n, unit, most) && Between(more, pay, k, unit, most)
    ensures Between(score + more, paid + pay, n + k, unit, most)
  {
    Distributes(score, more, unit);
    Distributes(n as real, k as real, most);
  }

  lemma {:induction false} NoScore(job: nat)
    ensures JobScore([], job) == 0.0
  {
  }

  /** The factors of the nodes the job's receipts went to lie between lo and hi. */
  ghost predicate FactorsBetween(s: State, j: nat, lo: real, hi: real) {
    forall r | 0 <= r < |s.receipts| && s.receipts[r].job == j ::
      lo <= Factor(s.receipts[r].node.tier, s.receipts[r].node.jobsCompleted) <= hi
  }

  function Pool(s: State, j: nat): real
    requires j < |s.jobs|
  {
    EXECUTOR_PART * s.jobs[j].budget
  }

  /** One receipt of a job. */
  lemma {:induction false} ReceiptWithin(m: Guarded, s: State, j: nat, r: nat, lo: real, hi: real)
    requires m.serialised && Reachable(m, s) && r < |s.receipts| && s.receipts[r].job == j < |s.jobs|
    requires FactorsBetween(s, j, lo, hi) && 0.0 < lo <= hi
    ensures Shape(s)
    ensures var row, credits := s.rows[s.receipts[r].task], s.receipts[r].credits;
            && row.job == j && row.status == Complete && 0.0 <= credits <= hi * Pool(s, j)
            && (Tokens(RowWork(row)) == 0 ==> credits == 0.0)
            && (JobScore(s.rows, j) > 0.0 ==>
                Score(RowWork(row)) * (lo * Pool(s, j) / JobScore(s.rows, j)) <= credits)
  {
    hide Reachable, Score, JobScore, NodeCreditShare, CompletedWorks, Factor, Tokens;
    ReachablePay(m, s);
    ReceiptsWithinBounds(m, s, r);
    var re := s.receipts[r];
    var row := s.rows[re.task];
    var w, f := ReceiptWork(re, row), Factor(re.node.tier, re.node.jobsCompleted);
    assert row.status == Complete by { ReceiptRowComplete(s, r); }
    assert AsEdge(w) == RowWork(row);
    EdgeTokens(w);
    Scales(f, hi, Pool(s, j));
    if JobScore(s.rows, j) > 0.0 {
      ScoreOfWorks(s.rows, j);
      ShareAsFactor(w, CompletedWorks(s.rows, j), s.jobs[j].budget, re.node.jobsCompleted);
      LeastShare(Score(RowWork(row)), lo, f, Pool(s, j), JobScore(s.rows, j));
    }
  }

  lemma {:induction false} ReceiptRowComplete(s: State, r: nat)
    requires PayInv(s) && r < |s.receipts|
    ensures Shape(s) && s.rows[s.receipts[r].task].status == Complete && BudgetsPositive(s)
  {
  }

  lemma {:induction false} LeastShare(e: real, lo: real, f: real, pool: real, score: real)
    requires e >= 0.0 && 0.0 < lo <= f && pool >= 0.0 && score > 0.0
    ensures e * (lo * pool / score) <= f * (e * (pool / score))
  {
    var unit := pool / score;
    assert unit * score == pool;
    assert (lo * unit) * score == lo * pool;
    assert lo * pool / score == lo * unit;
    Fraction(e, score, pool);
    Scales(lo, f, e * unit);
    assert e * (lo * unit) == lo * (e * unit);
  }

  lemma {:induction false} ScoreOfWorks(rows: seq<Row>, j: nat)
    ensures JobScore(rows, j) == TotalScore(CompletedWorks(rows, j))
  {
  }

  lemma {:induction false} UniqueReceipt(s: State, r: nat, t: nat)
    requires ReceiptFor(s, r, t) && NeverTwice(s)
    ensures PaidFor(s.receipts, t) == s.receipts[r].credits
  {
    assert forall q | 0 <= q < |s.receipts| && s.receipts[q].task == t :: ReceiptFor(s, q, t);
    OnlyReceiptFor(s.receipts, t, r);
  }

  lemma {:induction false} NobodyOwes(s: State, j: nat, t: nat)
    requires Shape(s) && HandlersDone(s, j) && t < |s.rows| && s.rows[t].job == j && ReceiptsExact(s)
        && s.rows[t].status == Complete
    ensures PaidOnce(s, t)
  {
    assert forall a: nat :: !OwingFor(s, a, t);
  }

  lemma {:induction false} ScoredRowsScore(rows: seq<Row>, job: nat)
    ensures ScoredRows(rows, job) > 0 <==> JobScore(rows, job) > 0.0
  {
    hide JobScore, Tokens;
    if rows == [] {
      NoScore(job);
    } else {
      ScoredRowsScore(rows[..|rows| - 1], job);
      JobScoreSnoc(rows, job);
    }
  }

  /** Finished, with something to pay for, and no handler that still has to pay or never will. */
  ghost predicate PaidUp(m: Mode, s: State, j: nat)
    requires Shape(s)
  {
    m.reliableHandlers && Finished(s, j) && HandlersDone(s, j) && ScoredRows(s.rows, j) > 0
  }

  lemma {:induction false} PaidUpScored(m: Mode, s: State, j: nat)
    requires Shape(s) && PaidUp(m, s, j)
    ensures JobScore(s.rows, j) > 0.0
  {
    ScoredRowsScore(s.rows, j);
  }

  /** What one point of score is sure to earn. */
  ghost function Unit(m: Mode, s: State, j: nat, lo: real): real
    requires Shape(s) && j < |s.jobs|
  {
    if PaidUp(m, s, j) then
      PaidUpScored(m, s, j);
      lo * Pool(s, j) / JobScore(s.rows, j)
    else 0.0
  }

  lemma {:induction false} UnitEarns(m: Guarded, s: State, j: nat, lo: real)
    requires m.serialised && Reachable(m, s) && Shape(s) && j < |s.jobs| && lo > 0.0
    ensures Unit(m, s, j, lo) >= 0.0
    ensures PaidUp(m, s, j) ==>
              JobScore(s.rows, j) * Unit(m, s, j, lo) == lo * SplitPayout(s.jobs[j].budget).executorPool
  {
    hide Reachable, JobScore, PaidUp;
    ReachablePay(m, s);
    ProductNonNegative(lo, Pool(s, j));
    if PaidUp(m, s, j) {
      PaidUpScored(m, s, j);
      Fraction(0.0, JobScore(s.rows, j), lo * Pool(s, j));
    }
  }

  lemma {:induction false} RowPaid(m: Guarded, s: State, j: nat, t: nat, lo: real, hi: real, most: real)
    requires m.serialised && Reachable(m, s) && Shape(s) && j < |s.jobs| && t < |s.rows| && s.rows[t].job == j
    requires FactorsBetween(s, j, lo, hi) && 0.0 < lo <= hi && most == hi * Pool(s, j)
    ensures RowWithin(s.receipts, s.rows[t], t, j, Unit(m, s, j, lo), most)
  {
    hide Reachable, Score, JobScore, PaidFor, Factor, RowWork, Tokens, HandlersDone, ScoredRows;
    ReachableOnce(m, s);
    ReachablePay(m, s);
    ScoredRowsScore(s.rows, j);
    if r: nat :| ReceiptFor(s, r, t) {
      UniqueReceipt(s, r, t);
      ReceiptWithin(m, s, j, r, lo, hi);
    } else {
      assert forall q | 0 <= q < |s.receipts| && s.receipts[q].task == t :: ReceiptFor(s, q, t);
      NoReceiptFor(s.receipts, t);
      ProductNonNegative(hi, Pool(s, j));
      if PaidUp(m, s, j) {
        SerialisedPaysOnce(m, s);
        NobodyOwes(s, j, t);
      }
    }
  }

  /**
    In every reachable state with handlers serialised, whatever nodes were paid, new or not and of any tier: if lo and
    hi bound their factors, the receipts of a job total at most hi executor pools for each of its complete rows with a
    score. Once the job is finished with a positive score and its handlers have ended, they total at least lo pools,
    unless a handler died before it could pay.
  */
  lemma {:induction false} JobPayout(m: Guarded, s: State, j: nat, lo: real, hi: real)
    requires m.serialised && Reachable(m, s) && j < |s.jobs|
    requires FactorsBetween(s, j, lo, hi) && 0.0 < lo <= hi
    ensures Shape(s)
    ensures var pool := SplitPayout(s.jobs[j].budget).executorPool;
            && 0.0 <= ReceiptSum(s.receipts, j) <= ScoredRows(s.rows, j) as real * (hi * pool)
            && (PaidUp(m, s, j) ==> lo * pool <= ReceiptSum(s.receipts, j))
  {
    hide Reachable, JobScore, PaidFor, PaidByRow, ReceiptSum, ScoredRows, FactorsBetween, Between, PaidUp;
    ReachableInv(m, s);
    var unit, most := Unit(m, s, j, lo), hi * Pool(s, j);
    ReceiptsAddUp(s.receipts, s.rows, j);
    forall t | 0 <= t < |s.rows| && s.rows[t].job == j
      ensures RowWithin(s.receipts, s.rows[t], t, j, unit, most)
    {
      RowPaid(m, s, j, t, lo, hi, most);
    }
    RowsBetween(s.receipts, s.rows, j, unit, most);
    UnitEarns(m, s, j, lo);
    SumBetween(JobScore(s.rows, j), ReceiptSum(s.receipts, j), ScoredRows(s.rows, j), unit, most);
    SameProduct(ScoredRows(s.rows, j) as real, most, hi * SplitPayout(s.jobs[j].budget).executorPool);
  }

  lemma {:induction false} SameProduct(a: real, b: real, c: real)
    requires b == c
    ensures a * b == a * c
  {
  }

  // -------------------------------------------------------------------------
  // A job that pays out more than its pool
  // -------------------------------------------------------------------------

  /** The first row of a standard job is complete and nothing else has happened. */
  lemma {:induction false} FirstScore(rows: seq<Row>)
    requires rows == [Answered(PLAN[0]), PLAN[1], PLAN[2]]
    ensures CompletedWorks(rows, 0) == [RowWork(rows[0])]
  {
    assert CompletedWorks(rows, 0) == CompletedWorks(rows[..2], 0);
    assert rows[..2][..1] == rows[..1] && rows[..1][..0] == [];
    assert CompletedWorks(rows[..2], 0) == CompletedWorks(rows[..1], 0);
    assert CompletedWorks(rows[..1], 0) == CompletedWorks([], 0) + [RowWork(rows[0])];
  }

  lemma {:induction false} OneMoreCredit(receipts: seq<Receipt>, more: seq<Receipt>, job: nat)
    requires |more| == |receipts| + 1 && more[..|receipts|] == receipts && more[|receipts|].job == job
    ensures ReceiptSum(more, job) == ReceiptSum(receipts, job) + more[|receipts|].credits
  {
  }

  /** The only work counted so far earns the node's factor in pools. */
  lemma {:induction false} AloneTakesPool(s: State, node: Node)
    requires Shape(s) && |s.attempts| == 1 && TaskOf(s, 0) == 0 && |s.jobs| > 0
        && s.jobs[0].budget == 1.0
    requires s.rows == [Answered(PLAN[0]), PLAN[1], PLAN[2]]
    requires s.attempts[0].node == node && s.attempts[0].tokensIn == 1 && s.attempts[0].tokensOut == 1
    ensures CreditsFor(s, 0) == Factor(node.tier, node.jobsCompleted) * EXECUTOR_PART
  {
    hide Score, NodeCreditShare, CompletedWorks, Factor;
    FirstScore(s.rows);
    var w, all := AttemptWork(s.attempts[0], s.rows[0]), [RowWork(s.rows[0])];
    assert AsEdge(w) == all[0];
    assert all[..0] == [];
    assert TotalScore(all) == Score(all[0]) > 0.0;
    ShareAsFactor(w, all, 1.0, node.jobsCompleted);
    assert Score(all[0]) * (EXECUTOR_PART * 1.0 / Score(all[0])) == EXECUTOR_PART;
  }

  /** One receipt of a new Pro node, for the first sub-task of a job, is already one and a half pools. */
  lemma {:induction false} OverpaidReachable(m: Mode) returns (s: State)
    ensures Reachable(m, s) && Shape(s) && |s.jobs| == 1 && |s.receipts| == 1 && s.receipts[0].node == Node(Pro, 0)
    ensures ReceiptSum(s.receipts, 0) == 1.5 * SplitPayout(s.jobs[0].budget).executorPool > 0.0
  {
    hide Reachable, Apply, Enabled, CreditsFor, ReceiptSum, JobDone;
    FullySeeded(m);
    var s0 := PartlySeeded(3);
    assert s0.rows == PLAN && PLAN[3..] == [];
    var s1 := RunTask(m, s0, 0, Node(Pro, 0));
    assert s1.rows == [Answered(PLAN[0]), PLAN[1], PLAN[2]];
    AloneTakesPool(s1, Node(Pro, 0));
    assert !JobDone(s1.rows, 0) by { NotDone(s1.rows, 0, 1); }
    s := PayAndSettle(m, s1, 0);
    OneMoreCredit(s1.receipts, s.receipts, 0);
    NothingReceived(0);
  }

  lemma {:induction false} NotDone(rows: seq<Row>, job: nat, t: nat)
    requires t < |rows| && rows[t].job == job && rows[t].status != Complete
    ensures !JobDone(rows, job)
  {
  }

  lemma {:induction false} NothingReceived(job: nat)
    ensures ReceiptSum([], job) == 0.0
  {
  }
}
