/** The credit formula over exact reals: the batch split, and the way `submit_task_result` really pays. */
module Credits {
  import opened Types

  const U32_SIZE: nat := 0x1_0000_0000

  type U32 = n: nat | n < U32_SIZE

  function Weight(role: AgentRole): (w: real)
    ensures w > 0.0
  {
    match role
    case Planner => 2.0
    case Aggregator => 2.0
    case Coder => 1.5
    case Researcher => 1.5
    case Critic => 1.2
    case Summarizer => 0.8
    case ApiRelay => 1.0
  }

  function TierMultiplier(tier: NodeTier): (m: real)
    ensures m > 0.0
  {
    match tier
    case Nano => 0.1
    case Edge => 1.0
    case Pro => 3.0
    case Cluster => 8.0
  }

  /** One task's token counts as the formula sees them. */
  datatype Work = Work(tokensIn: U32, tokensOut: U32, role: AgentRole, tier: NodeTier)

  /** The token sum is a `u32` addition, which wraps in the release profile. */
  function Tokens(w: Work): nat {
    (w.tokensIn + w.tokensOut) % U32_SIZE
  }

  function Score(w: Work): (s: real)
    ensures s >= 0.0
    ensures s > 0.0 <==> Tokens(w) > 0
  {
    ScorePositive(w);
    Tokens(w) as real * Weight(w.role) * TierMultiplier(w.tier)
  }

  lemma {:induction false} ScorePositive(w: Work)
    ensures Tokens(w) as real * Weight(w.role) * TierMultiplier(w.tier) >= 0.0
    ensures Tokens(w) as real * Weight(w.role) * TierMultiplier(w.tier) > 0.0 <==> Tokens(w) > 0
  {
    var t := Tokens(w) as real;
    ProductSign(t, Weight(w.role));
    ProductSign(t * Weight(w.role), TierMultiplier(w.tier));
  }

  lemma {:induction false} ProductSign(a: real, b: real)
    requires a >= 0.0 && b > 0.0
    ensures a * b >= 0.0 && (a * b > 0.0 <==> a > 0.0)
  {
  }

  function TotalScore(all: seq<Work>): (s: real)
    ensures s >= 0.0
  {
    if all == [] then 0.0 else TotalScore(all[..|all| - 1]) + Score(all[|all| - 1])
  }

  const EXECUTOR_PART := 0.70
  const PROBATION_JOBS: nat := 100

  function NodeCreditShare(w: Work, all: seq<Work>, totalPayout: real, jobsCompleted: nat): real {
    var totalScore := TotalScore(all);
    if totalScore == 0.0 then 0.0
    else
      var share := (Score(w) / totalScore) * EXECUTOR_PART * totalPayout;
      if jobsCompleted < PROBATION_JOBS then share * 0.5 else share
  }

  datatype PayoutSplit = PayoutSplit(executorPool: real, orchestrator: real, validationPool: real)

  function SplitPayout(total: real): PayoutSplit {
    PayoutSplit(total * 0.70, total * 0.20, total * 0.10)
  }

  // -------------------------------------------------------------------------
  // The numbers
  // -------------------------------------------------------------------------

  /** Input and output tokens count alike, times the role's and the tier's number, while their sum fits 32 bits. */
  lemma {:induction false} ScoreInNumbers(w: Work)
    requires w.tokensIn + w.tokensOut < 0x1_0000_0000
    ensures Score(w) ==
            (w.tokensIn + w.tokensOut) as real
            * (match w.role
               case Planner => 2.0 case Aggregator => 2.0 case Coder => 1.5 case Researcher => 1.5
               case Critic => 1.2 case Summarizer => 0.8 case ApiRelay => 1.0)
            * (match w.tier case Nano => 0.1 case Edge => 1.0 case Pro => 3.0 case Cluster => 8.0)
  {
    assert Tokens(w) == w.tokensIn + w.tokensOut;
    assert Score(w) == Tokens(w) as real * Weight(w.role) * TierMultiplier(w.tier);
    match w.role case _ =>
      match w.tier case _ =>
  }

  /** Past 32 bits the sum starts again from zero. */
  lemma {:induction false} ScoreWraps(w: Work, small: Work)
    requires w.tokensIn + w.tokensOut == 0x1_0000_0000 + small.tokensIn + small.tokensOut
    requires w.role == small.role && w.tier == small.tier
    ensures Score(w) == Score(small)
  {
    assert Tokens(w) == Tokens(small);
  }

  /** Exchanging the two counts changes no share, in the work paid for or in the list it is paid against. */
  lemma {:induction false} CountsExchange(w: Work, total: real, jobs: nat, all: seq<Work>, k: nat)
    requires k < |all|
    ensures NodeCreditShare(Exchanged(w), all, total, jobs) == NodeCreditShare(w, all, total, jobs)
    ensures NodeCreditShare(w, all[k := Exchanged(all[k])], total, jobs) == NodeCreditShare(w, all, total, jobs)
  {
    SameTokens(w);
    TotalExchanged(all, k);
  }

  function Exchanged(w: Work): Work {
    w.(tokensIn := w.tokensOut, tokensOut := w.tokensIn)
  }

  lemma {:induction false} SameTokens(w: Work)
    ensures Score(Exchanged(w)) == Score(w)
  {
    assert Tokens(Exchanged(w)) == Tokens(w);
  }

  lemma {:induction false} TotalExchanged(all: seq<Work>, k: nat)
    requires k < |all|
    ensures TotalScore(all[k := Exchanged(all[k])]) == TotalScore(all)
  {
    hide Score;
    var last := |all| - 1;
    var other := all[k := Exchanged(all[k])];
    SameTokens(all[k]);
    if k < last {
      assert other[..last] == all[..last][k := Exchanged(all[k])];
      TotalExchanged(all[..last], k);
    } else {
      assert other[..last] == all[..last];
    }
  }

  /** One more output token is worth something. */
  lemma {:induction false} OneMoreToken(w: Work)
    requires w.tokensIn + w.tokensOut + 1 < 0x1_0000_0000
    ensures Score(w.(tokensOut := w.tokensOut + 1)) > Score(w)
  {
    hide Score, Tokens, Weight, TierMultiplier;
    var n := w.tokensIn + w.tokensOut;
    ScoreOf(w, n);
    ScoreOf(w.(tokensOut := w.tokensOut + 1), n + 1);
    StepUp(n as real, Weight(w.role), TierMultiplier(w.tier));
  }

  lemma {:induction false} ScoreOf(w: Work, n: nat)
    requires n == w.tokensIn + w.tokensOut < U32_SIZE
    ensures Score(w) == n as real * Weight(w.role) * TierMultiplier(w.tier)
  {
    assert Tokens(w) == n;
  }

  lemma {:induction false} StepUp(n: real, weight: real, tier: real)
    requires weight > 0.0 && tier > 0.0
    ensures (n + 1.0) * weight * tier > n * weight * tier
  {
    assert (n + 1.0) * weight * tier == n * weight * tier + weight * tier;
    ProductSign(weight, tier);
  }

  // -------------------------------------------------------------------------
  // Facts about one share
  // -------------------------------------------------------------------------

  lemma {:induction false} Fraction(s: real, t: real, pool: real)
    requires t > 0.0 && s >= 0.0 && pool >= 0.0
    ensures (s / t) * pool == s * (pool / t)
    ensures pool / t >= 0.0 && s * (pool / t) >= 0.0
  {
    var q, p := s / t, pool / t;
    assert q * t == s && p * t == pool;
    assert q * (p * t) == (q * t) * p;
    ProductNonNegative(s, p);
  }

  lemma {:induction false} ProductNonNegative(a: real, b: real)
    requires a >= 0.0 && b >= 0.0
    ensures a * b >= 0.0
  {
  }

  lemma {:induction false} Associates(a: real, b: real, c: real)
    ensures a * b * c == a * (b * c)
  {
  }

  /** What a share would be for a veteran: the score's fraction of the executor pool. */
  lemma {:induction false} ShareBounds(w: Work, all: seq<Work>, total: real, jobs: nat)
    requires total >= 0.0 && TotalScore(all) > 0.0
    ensures var full := Score(w) * (EXECUTOR_PART * total / TotalScore(all));
            && full >= 0.0
            && NodeCreditShare(w, all, total, jobs) == if jobs < PROBATION_JOBS then full * 0.5 else full
  {
    hide Score, TotalScore;
    Associates(Score(w) / TotalScore(all), EXECUTOR_PART, total);
    Fraction(Score(w), TotalScore(all), EXECUTOR_PART * total);
  }

  /** A larger denominator never raises a share. */
  lemma {:induction false} ShareShrinks(w: Work, fewer: seq<Work>, more: seq<Work>, total: real, jobs: nat)
    requires total >= 0.0 && 0.0 < TotalScore(fewer) <= TotalScore(more)
    ensures NodeCreditShare(w, fewer, total, jobs) >= NodeCreditShare(w, more, total, jobs) >= 0.0
  {
    hide Score, TotalScore, NodeCreditShare;
    ShareBounds(w, fewer, total, jobs);
    ShareBounds(w, more, total, jobs);
    Reciprocals(EXECUTOR_PART * total, TotalScore(fewer), TotalScore(more), Score(w));
  }

  lemma {:induction false} Reciprocals(pool: real, a: real, b: real, s: real)
    requires pool >= 0.0 && 0.0 < a <= b && s >= 0.0
    ensures s * (pool / a) >= s * (pool / b)
  {
    var p, q := pool / a, pool / b;
    assert p * a == pool && q * b == pool;
    ProductNonNegative(q, b - a);
    assert q * (b - a) == q * b - q * a;
    assert (p - q) * a >= 0.0;
    QuotientSign(p - q, a);
    ProductNonNegative(s, p - q);
  }

  lemma {:induction false} QuotientSign(d: real, a: real)
    requires a > 0.0 && d * a >= 0.0
    ensures d >= 0.0
  {
  }

  // -------------------------------------------------------------------------
  // Batch: everybody scored against the same list
  // -------------------------------------------------------------------------

  datatype Contribution = Contribution(work: Work, jobsCompleted: nat)

  function Works(cs: seq<Contribution>): seq<Work> {
    if cs == [] then [] else Works(cs[..|cs| - 1]) + [cs[|cs| - 1].work]
  }

  function BatchShares(cs: seq<Contribution>, all: seq<Work>, total: real): real {
    if cs == [] then 0.0
    else
      var last := cs[|cs| - 1];
      BatchShares(cs[..|cs| - 1], all, total) + NodeCreditShare(last.work, all, total, last.jobsCompleted)
  }

  lemma {:induction false} WorksSnoc(cs: seq<Contribution>)
    requires cs != []
    ensures TotalScore(Works(cs)) == TotalScore(Works(cs[..|cs| - 1])) + Score(cs[|cs| - 1].work)
  {
    var before := Works(cs[..|cs| - 1]);
    var works := Works(cs);
    assert works[..|works| - 1] == before;
  }

  lemma {:induction false} BatchSharesBounds(cs: seq<Contribution>, all: seq<Work>, total: real, unit: real)
    requires total >= 0.0 && TotalScore(all) > 0.0
    requires unit == EXECUTOR_PART * total / TotalScore(all)
    ensures 0.5 * (TotalScore(Works(cs)) * unit) <= BatchShares(cs, all, total) <= TotalScore(Works(cs)) * unit
    ensures (forall c | c in cs :: c.jobsCompleted >= 100) ==>
              BatchShares(cs, all, total) == TotalScore(Works(cs)) * unit
  {
    hide Score, TotalScore, NodeCreditShare, Works;
    if cs == [] {
      NoWorks();
    } else {
      var front, last := cs[..|cs| - 1], cs[|cs| - 1];
      BatchSharesBounds(front, all, total, unit);
      WorksSnoc(cs);
      ShareBounds(last.work, all, total, last.jobsCompleted);
      Distributes(TotalScore(Works(front)), Score(last.work), unit);
    }
  }

  lemma {:induction false} NoWorks()
    ensures TotalScore(Works([])) == 0.0
  {
  }

  lemma {:induction false} Distributes(a: real, b: real, c: real)
    ensures (a + b) * c == a * c + b * c
  {
  }

  /**
    Scored as one batch, the shares never exceed the executor pool; once anything has been scored they pay
    out at least half of it, and exactly all of it when every node is past probation.
  */
  lemma {:induction false} BatchConservation(cs: seq<Contribution>, total: real)
    requires total >= 0.0
    ensures var paid := BatchShares(cs, Works(cs), total);
            var pool := 0.70 * total;
            && 0.0 <= paid <= pool
            && (TotalScore(Works(cs)) == 0.0 ==> paid == 0.0)
            && (TotalScore(Works(cs)) > 0.0 ==> 0.5 * pool <= paid)
            && (TotalScore(Works(cs)) > 0.0 && (forall c | c in cs :: c.jobsCompleted >= 100) ==>
                paid == pool)
    ensures var split := SplitPayout(total);
            && split.executorPool + split.orchestrator + split.validationPool == total
            && split.executorPool == 7.0 * split.validationPool && split.orchestrator == 2.0 * split.validationPool
  {
    hide Score, TotalScore, Works, BatchShares;
    var score := TotalScore(Works(cs));
    if score > 0.0 {
      var unit := EXECUTOR_PART * total / score;
      BatchSharesBounds(cs, Works(cs), total, unit);
      assert score * unit == EXECUTOR_PART * total;
    } else {
      NothingScored(cs, Works(cs), total);
    }
  }

  lemma {:induction false} NothingScored(cs: seq<Contribution>, all: seq<Work>, total: real)
    requires TotalScore(all) == 0.0
    ensures BatchShares(cs, all, total) == 0.0
  {
    if cs != [] { NothingScored(cs[..|cs| - 1], all, total); }
  }

  // -------------------------------------------------------------------------
  // The call site: each receipt is computed against the tasks complete so far, all taken as Edge tier
  // -------------------------------------------------------------------------

  function AsEdge(w: Work): Work {
    w.(tier := Edge)
  }

  function EdgeWorks(cs: seq<Contribution>): seq<Work> {
    if cs == [] then [] else EdgeWorks(cs[..|cs| - 1]) + [AsEdge(cs[|cs| - 1].work)]
  }

  function EdgeScore(cs: seq<Contribution>): (s: real)
    ensures s >= 0.0
  {
    TotalScore(EdgeWorks(cs))
  }

  lemma {:induction false} EdgeScoreSnoc(cs: seq<Contribution>)
    requires cs != []
    ensures EdgeScore(cs) == EdgeScore(cs[..|cs| - 1]) + Score(AsEdge(cs[|cs| - 1].work))
  {
    var before := EdgeWorks(cs[..|cs| - 1]);
    var works := EdgeWorks(cs);
    assert works[..|works| - 1] == before;
  }

  lemma {:induction false} EdgeScoreGrows(cs: seq<Contribution>, k: nat)
    requires k <= |cs|
    ensures EdgeScore(cs[..k]) <= EdgeScore(cs)
    decreases |cs| - k
  {
    if k < |cs| {
      EdgeScoreGrows(cs, k + 1);
      EdgeScoreSnoc(cs[..k + 1]);
      assert cs[..k + 1][..k] == cs[..k];
    } else {
      assert cs[..k] == cs;
    }
  }

  /** The receipt written when the k-th task of a job completes, handlers running one after another. */
  function Receipt(cs: seq<Contribution>, k: nat, budget: real): real
    requires k < |cs|
  {
    NodeCreditShare(cs[k].work, EdgeWorks(cs[..k + 1]), budget, cs[k].jobsCompleted)
  }

  function ReceiptTotal(cs: seq<Contribution>, budget: real): real {
    if cs == [] then 0.0 else ReceiptTotal(cs[..|cs| - 1], budget) + Receipt(cs, |cs| - 1, budget)
  }

  lemma {:induction false} TierScales(w: Work)
    ensures Score(w) == Score(AsEdge(w)) * TierMultiplier(w.tier)
  {
    var a := Tokens(w) as real * Weight(w.role);
    assert Tokens(AsEdge(w)) == Tokens(w);
    assert Score(AsEdge(w)) == a * 1.0;
  }

  /** What the node's tier and its probation make of its fraction of the pool. */
  function Factor(tier: NodeTier, jobs: nat): (f: real)
    ensures f > 0.0
  {
    TierMultiplier(tier) * if jobs < PROBATION_JOBS then 0.5 else 1.0
  }

  /** A share is the node's factor times the Edge score's fraction of the pool. */
  lemma {:induction false} ShareAsFactor(w: Work, all: seq<Work>, total: real, jobs: nat)
    requires total >= 0.0 && TotalScore(all) > 0.0
    ensures NodeCreditShare(w, all, total, jobs) ==
            Factor(w.tier, jobs) * (Score(AsEdge(w)) * (EXECUTOR_PART * total / TotalScore(all)))
  {
    hide Score, TotalScore, NodeCreditShare, TierMultiplier;
    ShareBounds(w, all, total, jobs);
    TierScales(w);
    var e, m, unit := Score(AsEdge(w)), TierMultiplier(w.tier), EXECUTOR_PART * total / TotalScore(all);
    assert (e * m) * unit == m * (e * unit);
  }

  /**
    A receipt against any list that has counted the task itself: non-negative and at most the node's factor
    times the executor pool, whatever else has completed meanwhile.
  */
  lemma {:induction false} ReceiptAgainst(w: Work, all: seq<Work>, budget: real, jobs: nat)
    requires budget >= 0.0 && TotalScore(all) >= Score(AsEdge(w))
    ensures 0.0 <= NodeCreditShare(w, all, budget, jobs) <= Factor(w.tier, jobs) * (EXECUTOR_PART * budget)
    ensures Score(w) == 0.0 ==> NodeCreditShare(w, all, budget, jobs) == 0.0
  {
    var t, e, f := TotalScore(all), Score(AsEdge(w)), Factor(w.tier, jobs);
    hide Score, TotalScore, TierMultiplier, Factor;
    var pool := EXECUTOR_PART * budget;
    ProductNonNegative(f, pool);
    if t > 0.0 {
      hide NodeCreditShare;
      ShareAsFactor(w, all, budget, jobs);
      Fraction(e, t, pool);
      ProductNonNegative(f, e * (pool / t));
      FractionOfPool(e, t, f, pool);
      assert (e * f) * (pool / t) == f * (e * (pool / t));
    }
    if Score(w) == 0.0 { ZeroShare(w, all, budget, jobs); }
  }

  lemma {:induction false} ZeroShare(w: Work, all: seq<Work>, budget: real, jobs: nat)
    requires Score(w) == 0.0
    ensures NodeCreditShare(w, all, budget, jobs) == 0.0
  {
    if TotalScore(all) != 0.0 {
      assert Score(w) / TotalScore(all) == 0.0;
    }
  }

  lemma {:induction false} FractionOfPool(e: real, t: real, m: real, pool: real)
    requires 0.0 <= e <= t && t > 0.0 && m > 0.0 && pool >= 0.0
    ensures (e * m) * (pool / t) <= m * pool
  {
    var p := pool / t;
    assert p * t == pool;
    Fraction(t, t, pool);
    ProductNonNegative(t - e, p);
    assert (t - e) * p == t * p - e * p;
    assert (e * m) * p == m * (e * p);
    ProductNonNegative(m, pool - e * p);
    assert m * (pool - e * p) == m * pool - m * (e * p);
  }

  /** Work that is already in the list earns no more when the list grows. */
  lemma {:induction false} ShareAgainstMore(w: Work, fewer: seq<Work>, more: seq<Work>, total: real, jobs: nat)
    requires total >= 0.0 && Score(AsEdge(w)) <= TotalScore(fewer) <= TotalScore(more)
    ensures NodeCreditShare(w, fewer, total, jobs) >= NodeCreditShare(w, more, total, jobs)
  {
    hide Score, TotalScore, NodeCreditShare, TierMultiplier;
    TierScales(w);
    if Score(AsEdge(w)) > 0.0 {
      ShareShrinks(w, fewer, more, total, jobs);
    } else {
      assert Score(w) == 0.0;
      ZeroShare(w, fewer, total, jobs);
      ZeroShare(w, more, total, jobs);
    }
  }

  /**
    Each receipt is at least the share the same formula gives against the finished job, and at most the
    node's factor times the executor pool.
  */
  lemma {:induction false} ReceiptBounds(cs: seq<Contribution>, k: nat, budget: real)
    requires k < |cs| && budget >= 0.0
    ensures Receipt(cs, k, budget) >= NodeCreditShare(cs[k].work, EdgeWorks(cs), budget, cs[k].jobsCompleted)
    ensures 0.0 <= Receipt(cs, k, budget) <= Factor(cs[k].work.tier, cs[k].jobsCompleted) * (EXECUTOR_PART * budget)
  {
    hide Score, TotalScore, NodeCreditShare, EdgeWorks, TierMultiplier;
    var w := cs[k].work;
    var seen := cs[..k + 1];
    assert seen[..k] == cs[..k];
    EdgeScoreSnoc(seen);
    EdgeScoreGrows(cs, k + 1);
    ReceiptAgainst(w, EdgeWorks(seen), budget, cs[k].jobsCompleted);
    ShareAgainstMore(w, EdgeWorks(seen), EdgeWorks(cs), budget, cs[k].jobsCompleted);
  }

  // -------------------------------------------------------------------------
  // What a list of receipts adds up to
  // -------------------------------------------------------------------------

  predicate IsScored(c: Contribution) {
    Tokens(c.work) > 0
  }

  function Scored(cs: seq<Contribution>): nat {
    if cs == [] then 0 else Scored(cs[..|cs| - 1]) + if IsScored(cs[|cs| - 1]) then 1 else 0
  }

  lemma {:induction false} ScoredMeansScore(cs: seq<Contribution>)
    ensures Scored(cs) > 0 <==> EdgeScore(cs) > 0.0
  {
    if cs != [] {
      ScoredMeansScore(cs[..|cs| - 1]);
      EdgeScoreSnoc(cs);
      assert Tokens(AsEdge(cs[|cs| - 1].work)) == Tokens(cs[|cs| - 1].work);
    }
  }

  /** The last task's part of the score counted so far. */
  function Part(cs: seq<Contribution>): real
    requires cs != []
  {
    if EdgeScore(cs) == 0.0 then 0.0 else Score(AsEdge(cs[|cs| - 1].work)) / EdgeScore(cs)
  }

  /** The parts of all tasks, each at the time of its receipt: a number only the tasks' tokens and roles decide. */
  function Growth(cs: seq<Contribution>): real {
    if cs == [] then 0.0 else Growth(cs[..|cs| - 1]) + Part(cs)
  }

  function FactorOf(c: Contribution): (f: real)
    ensures f > 0.0
  {
    Factor(c.work.tier, c.jobsCompleted)
  }

  /** The parts, each times the factor of its node. */
  function Portion(cs: seq<Contribution>): real {
    if cs == [] then 0.0 else Portion(cs[..|cs| - 1]) + FactorOf(cs[|cs| - 1]) * Part(cs)
  }

  /** The first scored task is alone, later ones share. */
  lemma {:induction false} PartBounds(cs: seq<Contribution>)
    requires cs != []
    ensures if !IsScored(cs[|cs| - 1]) then Part(cs) == 0.0
            else if Scored(cs) == 1 then Part(cs) == 1.0 else 0.0 < Part(cs) < 1.0
  {
    hide Score, EdgeScore, Tokens;
    var front, last := cs[..|cs| - 1], cs[|cs| - 1];
    EdgeScoreSnoc(cs);
    ScoredMeansScore(front);
    assert Tokens(AsEdge(last.work)) == Tokens(last.work) by { EdgeTokens(last.work); }
    var e, t := Score(AsEdge(last.work)), EdgeScore(cs);
    if t > 0.0 {
      assert (e / t) * t == e;
      if e > 0.0 { ProperPart(e, t); }
    }
  }

  lemma {:induction false} EdgeTokens(w: Work)
    ensures Tokens(AsEdge(w)) == Tokens(w)
  {
  }

  lemma {:induction false} ProperPart(e: real, t: real)
    requires 0.0 < e <= t
    ensures 0.0 < e / t <= 1.0 && (e / t == 1.0 <==> e == t)
  {
    var q := e / t;
    assert q * t == e;
  }

  /** What the number of scored tasks says about their growth. */
  predicate GrowthOf(g: real, n: nat) {
    if n == 0 then g == 0.0 else if n == 1 then g == 1.0 else 1.0 < g < n as real
  }

  /** Between one and the number of scored tasks, strictly once there are two. */
  lemma {:induction false} GrowthBounds(cs: seq<Contribution>)
    ensures GrowthOf(Growth(cs), Scored(cs))
  {
    if cs != [] {
      hide Part, IsScored;
      GrowthBounds(cs[..|cs| - 1]);
      PartBounds(cs);
    }
  }

  lemma {:induction false} ReceiptAsPart(cs: seq<Contribution>, budget: real)
    requires cs != [] && budget >= 0.0
    ensures Receipt(cs, |cs| - 1, budget) == FactorOf(cs[|cs| - 1]) * (Part(cs) * (EXECUTOR_PART * budget))
  {
    hide Score, TotalScore, TierMultiplier, EdgeWorks, Factor;
    var last := cs[|cs| - 1];
    assert cs[..|cs|] == cs;
    var pool := EXECUTOR_PART * budget;
    if EdgeScore(cs) == 0.0 {
    } else {
      hide NodeCreditShare;
      ShareAsFactor(last.work, EdgeWorks(cs), budget, last.jobsCompleted);
      Fraction(Score(AsEdge(last.work)), EdgeScore(cs), pool);
    }
  }

  /** For any nodes, tiers and orders: the receipts of a list are its portion of the pool. */
  lemma {:induction false} ReceiptsArePortion(cs: seq<Contribution>, budget: real)
    requires budget >= 0.0
    ensures ReceiptTotal(cs, budget) == Portion(cs) * (EXECUTOR_PART * budget)
  {
    hide Receipt, Part, FactorOf;
    if cs != [] {
      var pool, f := EXECUTOR_PART * budget, FactorOf(cs[|cs| - 1]);
      ReceiptsArePortion(cs[..|cs| - 1], budget);
      ReceiptAsPart(cs, budget);
      assert f * (Part(cs) * pool) == (f * Part(cs)) * pool;
      Distributes(Portion(cs[..|cs| - 1]), f * Part(cs), pool);
    }
  }

  predicate FactorsWithin(cs: seq<Contribution>, lo: real, hi: real) {
    forall i | 0 <= i < |cs| :: lo <= FactorOf(cs[i]) <= hi
  }

  lemma {:induction false} PortionWithin(cs: seq<Contribution>, lo: real, hi: real)
    requires FactorsWithin(cs, lo, hi)
    ensures lo * Growth(cs) <= Portion(cs) <= hi * Growth(cs)
  {
    hide Part, FactorOf;
    if cs != [] {
      var front, f := cs[..|cs| - 1], FactorOf(cs[|cs| - 1]);
      PortionWithin(front, lo, hi);
      PartBounds(cs);
      Distributes(Growth(front), Part(cs), lo);
      Distributes(Growth(front), Part(cs), hi);
      Scales(lo, f, Part(cs));
      Scales(f, hi, Part(cs));
    }
  }

  lemma {:induction false} Scales(a: real, b: real, p: real)
    requires a <= b && p >= 0.0
    ensures a * p <= b * p
  {
    ProductNonNegative(b - a, p);
    Distributes(b - a, a, p);
  }

  lemma {:induction false} ScalesStrictly(a: real, b: real, p: real)
    requires a < b && p > 0.0
    ensures a * p < b * p
  {
    ProductSign(b - a, p);
    Distributes(b - a, a, p);
  }

  lemma {:induction false} PortionScale(x: real, g: real, n: nat, lo: real, hi: real, pool: real)
    requires lo * g <= x <= hi * g && GrowthOf(g, n) && 0.0 < lo <= hi && pool > 0.0
    ensures n == 0 ==> x * pool == 0.0
    ensures n > 0 ==> lo * pool <= x * pool
    ensures n > 1 ==> lo * pool < x * pool
    ensures x * pool <= hi * n as real * pool
  {
    Scales(g, n as real, hi);
    Scales(x, hi * n as real, pool);
    if n > 1 {
      ScalesStrictly(1.0, g, lo);
      ScalesStrictly(lo, x, pool);
    } else if n == 1 {
      Scales(lo, x, pool);
    }
  }

  /**
    Tasks completed one after another by nodes of any tier, new or not, whose factors lie between lo and hi: with
    no scored task the receipts are zero, otherwise they total between lo pools and hi pools for each scored task,
    and more than lo pools as soon as a second task is scored.
  */
  lemma {:induction false} IncrementalTotal(cs: seq<Contribution>, budget: real, lo: real, hi: real)
    requires FactorsWithin(cs, lo, hi) && 0.0 < lo <= hi && budget > 0.0
    ensures var pool := SplitPayout(budget).executorPool;
            && (Scored(cs) == 0 ==> ReceiptTotal(cs, budget) == 0.0)
            && (Scored(cs) > 0 ==> lo * pool <= ReceiptTotal(cs, budget))
            && (Scored(cs) > 1 ==> lo * pool < ReceiptTotal(cs, budget))
            && ReceiptTotal(cs, budget) <= hi * Scored(cs) as real * pool
  {
    hide Growth, Portion, ReceiptTotal, FactorsWithin, Scored;
    var pool := SplitPayout(budget).executorPool;
    assert pool == EXECUTOR_PART * budget;
    ReceiptsArePortion(cs, budget);
    PortionWithin(cs, lo, hi);
    GrowthBounds(cs);
    PortionScale(Portion(cs), Growth(cs), Scored(cs), lo, hi, pool);
  }

  /**
    Nodes of one factor overpay exactly when the growth of the job's score exceeds the factor's reciprocal. With a
    factor above one any scored task does; at one a second one; below one no number of tasks up to the reciprocal.
  */
  lemma {:induction false} OverpaidIff(cs: seq<Contribution>, budget: real, f: real)
    requires FactorsWithin(cs, f, f) && f > 0.0 && budget > 0.0
    ensures var over := ReceiptTotal(cs, budget) > SplitPayout(budget).executorPool;
            && (over <==> f * Growth(cs) > 1.0)
            && (f > 1.0 ==> (over <==> Scored(cs) > 0))
            && (f == 1.0 ==> (over <==> Scored(cs) > 1))
            && (f * Scored(cs) as real <= 1.0 ==> !over)
  {
    hide Growth, Portion, ReceiptTotal, FactorsWithin;
    ReceiptsArePortion(cs, budget);
    PortionWithin(cs, f, f);
    GrowthBounds(cs);
    MoreThanOnce(Portion(cs), EXECUTOR_PART * budget);
    Threshold(f, Growth(cs), Scored(cs));
  }

  lemma {:induction false} Threshold(f: real, g: real, n: nat)
    requires GrowthOf(g, n) && f > 0.0
    ensures f > 1.0 ==> (f * g > 1.0 <==> n > 0)
    ensures f == 1.0 ==> (f * g > 1.0 <==> n > 1)
    ensures f * n as real <= 1.0 ==> f * g <= 1.0
  {
    Scales(g, n as real, f);
    if n > 0 { Scales(1.0, g, f); }
  }

  lemma {:induction false} MoreThanOnce(x: real, pool: real)
    requires pool > 0.0
    ensures x * pool > pool <==> x > 1.0
  {
    if x > 1.0 {
      ProductSign(x - 1.0, pool);
    } else {
      Scales(x, 1.0, pool);
    }
  }

  lemma {:induction false} TwoScores(a: Contribution, b: Contribution)
    ensures EdgeScore([a]) == Score(AsEdge(a.work))
    ensures EdgeScore([a, b]) == Score(AsEdge(a.work)) + Score(AsEdge(b.work))
  {
    var one, two := [a], [a, b];
    assert two[..1] == one && one[..0] == [];
    EdgeScoreSnoc(one);
    EdgeScoreSnoc(two);
    assert EdgeScore([]) == 0.0;
  }

  lemma {:induction false} TwoReceipts(a: Contribution, b: Contribution, budget: real)
    requires budget >= 0.0 && EdgeScore([a]) > 0.0 && EdgeScore([a, b]) > 0.0
    ensures var pool := EXECUTOR_PART * budget;
            && Receipt([a, b], 0, budget) == FactorOf(a) * (Score(AsEdge(a.work)) / EdgeScore([a]) * pool)
            && Receipt([a, b], 1, budget) == FactorOf(b) * (Score(AsEdge(b.work)) / EdgeScore([a, b]) * pool)
  {
    hide Score, EdgeScore, FactorOf, NodeCreditShare;
    var one, two := [a], [a, b];
    assert two[..1] == one && two[..2] == two && one[..1] == one;
    ReceiptAsPart(one, budget);
    ReceiptAsPart(two, budget);
    assert Receipt(two, 0, budget) == Receipt(one, 0, budget);
  }

  lemma {:induction false} EdgeScores(a: Work, b: Work)
    requires a.role == Planner && b.role == Coder && a.tier == Edge && b.tier == Edge
    requires a.tokensIn + a.tokensOut < 0x1_0000_0000 && b.tokensIn + b.tokensOut < 0x1_0000_0000
    ensures AsEdge(a) == a && AsEdge(b) == b
    ensures Score(a) == 2.0 * (a.tokensIn + a.tokensOut) as real
    ensures Score(b) == 1.5 * (b.tokensIn + b.tokensOut) as real
  {
    ScoreInNumbers(a);
    ScoreInNumbers(b);
  }

  /**
    A planner's and then a coder's result, from Edge nodes past their first 100 jobs: the first is paid 0.70 of the
    budget, the second that times its part of 1.5 to 2.0 per token.
  */
  lemma {:induction false} PlannerThenCoder(a: Contribution, b: Contribution, budget: real)
    requires a.work.role == Planner && b.work.role == Coder && a.work.tier == Edge && b.work.tier == Edge
    requires a.jobsCompleted >= 100 && b.jobsCompleted >= 100 && budget >= 0.0
    requires 0 < a.work.tokensIn + a.work.tokensOut < 0x1_0000_0000
    requires b.work.tokensIn + b.work.tokensOut < 0x1_0000_0000
    ensures Receipt([a, b], 0, budget) == 0.70 * budget
    ensures var s, t := 2.0 * (a.work.tokensIn + a.work.tokensOut) as real,
                        1.5 * (b.work.tokensIn + b.work.tokensOut) as real;
            Receipt([a, b], 1, budget) == t / (s + t) * (0.70 * budget)
  {
    hide Receipt, EdgeScore;
    EdgeScores(a.work, b.work);
    TwoScores(a, b);
    assert FactorOf(a) == 1.0 && FactorOf(b) == 1.0;
    hide Score, FactorOf;
    TwoReceipts(a, b, budget);
    ProperPart(Score(a.work), Score(a.work));
  }

  // -------------------------------------------------------------------------
  // New nodes: the only ones there are, as nothing writes the number of jobs a node has completed
  // -------------------------------------------------------------------------

  predicate NewNodes(cs: seq<Contribution>, tier: NodeTier) {
    forall i | 0 <= i < |cs| :: cs[i].work.tier == tier && cs[i].jobsCompleted < 100
  }

  /**
    One tier on probation. Pro and Cluster nodes overpay with the first scored task; Edge nodes exactly when the
    score grows by more than two, never with two scored tasks; Nano nodes when it grows by more than twenty.
  */
  lemma {:induction false} NewNodesOverpayIff(cs: seq<Contribution>, tier: NodeTier, budget: real)
    requires NewNodes(cs, tier) && budget > 0.0
    ensures var over := ReceiptTotal(cs, budget) > SplitPayout(budget).executorPool;
            match tier
            case Pro => over <==> Scored(cs) > 0
            case Cluster => over <==> Scored(cs) > 0
            case Edge => (over <==> Growth(cs) > 2.0) && (Scored(cs) <= 2 ==> !over)
            case Nano => (over <==> Growth(cs) > 20.0) && (Scored(cs) <= 20 ==> !over)
  {
    hide Growth, ReceiptTotal;
    OverpaidIff(cs, budget, TierMultiplier(tier) * 0.5);
  }

  /** A new Edge node's work on n tokens, as planner. */
  function NewEdge(n: U32): Contribution {
    Contribution(Work(n, 0, Planner, Edge), 0)
  }

  lemma {:induction false} NewEdgeScore(n: U32)
    ensures Score(AsEdge(NewEdge(n).work)) == 2.0 * n as real
  {
  }

  /** One more new Edge node on a list whose tokens add up to `total`. */
  lemma {:induction false} OneMoreEdge(cs: seq<Contribution>, total: nat, n: U32)
    requires EdgeScore(cs) == 2.0 * total as real && total + n > 0
    ensures var more := cs + [NewEdge(n)];
            && EdgeScore(more) == 2.0 * (total + n) as real
            && Growth(more) == Growth(cs) + n as real / (total + n) as real
  {
    hide EdgeScore, Score;
    var more := cs + [NewEdge(n)];
    assert more[..|cs|] == cs;
    EdgeScoreSnoc(more);
    NewEdgeScore(n);
    assert Growth(more) == Growth(cs) + Part(more);
    hide Growth;
    var sum := 2.0 * (total + n) as real;
    assert EdgeScore(more) == sum > 0.0;
    assert Part(more) == (2.0 * n as real) / sum;
    Halves(n, total + n);
  }

  /** Three scored tasks of new Edge nodes may or may not overpay: alike they do not, growing tenfold they do. */
  lemma {:induction false} ThreeTasksDecideNothing()
    ensures Growth([NewEdge(1), NewEdge(1), NewEdge(1)]) < 2.0
    ensures Growth([NewEdge(1), NewEdge(9), NewEdge(90)]) > 2.0
  {
    ThreeTasks(1, 1, 1);
    ThreeTasks(1, 9, 90);
  }

  lemma {:induction false} ThreeTasks(a: U32, b: U32, c: U32)
    requires a > 0
    ensures Growth([NewEdge(a), NewEdge(b), NewEdge(c)]) ==
            a as real / a as real + b as real / (a + b) as real + c as real / (a + b + c) as real
  {
    NoTasks();
    hide EdgeScore, Growth, NewEdge;
    OneMoreEdge([], 0, a);
    assert [] + [NewEdge(a)] == [NewEdge(a)];
    OneMoreEdge([NewEdge(a)], a, b);
    assert [NewEdge(a)] + [NewEdge(b)] == [NewEdge(a), NewEdge(b)];
    OneMoreEdge([NewEdge(a), NewEdge(b)], a + b, c);
    assert [NewEdge(a), NewEdge(b)] + [NewEdge(c)] == [NewEdge(a), NewEdge(b), NewEdge(c)];
  }

  lemma {:induction false} NoTasks()
    ensures EdgeScore([]) == 0.0 && Growth([]) == 0.0
  {
  }

  lemma {:induction false} Halves(x: nat, y: nat)
    requires y > 0
    ensures (2.0 * x as real) / (2.0 * y as real) == x as real / y as real
  {
    var q := x as real / y as real;
    assert q * y as real == x as real;
    assert q * (2.0 * y as real) == 2.0 * x as real;
  }
}
