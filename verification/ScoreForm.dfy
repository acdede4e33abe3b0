/** The score of an eligible quote in closed form (`ranking.ts`): a number of its inputs, with every rounding spelled out. */
module ScoreForm {
  import opened Foundations
  import opened Marketplace
  import Eligibility
  import Ranking

  /**
   `share` is the part of `whole` left by `used`, in whole basis points rounded down: all of it when nothing is used,
   none of it when nothing is left.
   */
  predicate IsShare(share: int, used: int, whole: int) {
    if used <= 0 then share == 10_000
    else if used >= whole then share == 0
    else share * whole <= 10_000 * (whole - used) < (share + 1) * whole
  }

  lemma ShareIsUnique(a: int, b: int, used: int, whole: int)
    requires IsShare(a, used, whole) && IsShare(b, used, whole)
    ensures a == b
  {
    if 0 < used < whole {
      assert a < b ==> (a + 1) * whole <= b * whole;
      assert b < a ==> (b + 1) * whole <= a * whole;
    }
  }

  /** `n` is the mean of these numbers, rounded down. */
  predicate IsMean(n: int, sum: int, count: int) { n * count <= sum < (n + 1) * count }

  /** The five observations of a quote with a passed preview, each with its age limit. */
  function Observations(m: Mandate, q: Quote): seq<(int, int)>
    requires q.preview.PreviewPassed?
  {
    [ (q.observedAt, m.maxEvidenceAgeSeconds), (q.estimates.observedAt, m.maxEvidenceAgeSeconds),
      (q.evidence.observedAt, m.maxEvidenceAgeSeconds), (q.reputation.observedAt, m.maxEvidenceAgeSeconds),
      (q.preview.observedAt, m.maxPreviewAgeSeconds) ]
  }

  predicate IsAgeShare(share: int, observation: (int, int), at: int) { IsShare(share, at - observation.0, observation.1) }

  ghost predicate LeavesAtLeast(share: int, observation: (int, int), at: int) {
    forall s :: IsAgeShare(s, observation, at) ==> share <= s
  }

  /** The least of the shares the observations leave of their age limits. */
  ghost predicate IsFreshness(share: int, observations: seq<(int, int)>, at: int) {
    && (exists i :: 0 <= i < |observations| && IsAgeShare(share, observations[i], at))
    && forall i :: 0 <= i < |observations| ==> LeavesAtLeast(share, observations[i], at)
  }

  lemma FloorOfQuotient(n: int, d: int)
    requires d > 0
    ensures n / d * d <= n < (n / d + 1) * d
  {
    assert n == n / d * d + n % d;
  }

  lemma RatioIsShare(used: int, whole: int)
    requires whole > 0 || used >= 0
    ensures IsShare(Ranking.RatioScore(used, whole), used, whole)
  {
    if 0 < used < whole {
      FloorOfQuotient((whole - used) * 10_000, whole);
    }
  }

  lemma AgeIsShare(age: int, limit: int)
    requires limit > 0
    ensures IsShare(Ranking.AgeScore(age, limit), age, limit)
  {
    if 0 < age < limit {
      FloorOfQuotient((limit - age) * 10_000, limit);
    }
  }

  function AgeScores(m: Mandate, q: Quote, at: int): seq<int>
    requires q.preview.PreviewPassed?
  {
    var os := Observations(m, q);
    seq(5, i requires 0 <= i < 5 => Ranking.AgeScore(at - os[i].0, os[i].1))
  }

  lemma FreshnessIsLeast(m: Mandate, q: Quote, at: int)
    requires q.preview.PreviewPassed?
    ensures Ranking.EvidenceFreshness(m, q, at) in AgeScores(m, q, at)
    ensures forall i :: 0 <= i < 5 ==> Ranking.EvidenceFreshness(m, q, at) <= AgeScores(m, q, at)[i]
  {
    var s := AgeScores(m, q, at);
    assert Ranking.EvidenceFreshness(m, q, at) == Min(Min(s[0], s[1]), Min(Min(s[2], s[3]), s[4]));
  }

  lemma FreshnessIs(m: Mandate, q: Quote, at: int)
    requires ValidMandate(m) && q.preview.PreviewPassed?
    ensures IsFreshness(Ranking.EvidenceFreshness(m, q, at), Observations(m, q), at)
  {
    var os, s := Observations(m, q), AgeScores(m, q, at);
    forall i | 0 <= i < 5 ensures IsShare(s[i], at - os[i].0, os[i].1) { AgeIsShare(at - os[i].0, os[i].1); }
    FreshnessIsLeast(m, q, at);
    var f := Ranking.EvidenceFreshness(m, q, at);
    var k :| 0 <= k < 5 && s[k] == f;
    assert IsAgeShare(f, os[k], at);
    forall i | 0 <= i < |os| ensures LeavesAtLeast(f, os[i], at) {
      forall x | IsAgeShare(x, os[i], at) ensures f <= x {
        ShareIsUnique(x, s[i], at - os[i].0, os[i].1);
      }
    }
  }

  /** What is left of permission lifetime, spend cap, exposure and slippage. */
  ghost predicate AreRiskShares(s: seq<int>, m: Mandate, q: Quote) {
    && |s| == 4
    && IsShare(s[0], q.permissions.expiresAt - m.createdAt, m.permissions.expiresAt - m.createdAt)
    && IsShare(s[1], q.permissions.spendCapUsdMicros, m.permissions.maxSpendUsdMicros)
    && IsShare(s[2], q.estimates.exposureUsdMicros, m.budgets.maxExposureUsdMicros)
    && IsShare(s[3], q.estimates.slippageBps, m.budgets.maxSlippageBps)
  }

  /** What is left of agent fee, gas and slippage; a fee not yet normalized counts as none. */
  ghost predicate AreCostShares(s: seq<int>, m: Mandate, q: Quote) {
    && |s| == 3
    && IsShare(s[0], if q.pricing.NormalizedZero? then q.pricing.agentFeeUsdMicros else 0, m.budgets.maxAgentFeeUsdMicros)
    && IsShare(s[1], q.estimates.gasUsdMicros, m.budgets.maxGasUsdMicros)
    && IsShare(s[2], q.estimates.slippageBps, m.budgets.maxSlippageBps)
  }

  ghost predicate IsRisk(n: int, m: Mandate, q: Quote) {
    exists s :: AreRiskShares(s, m, q) && IsMean(n, s[0] + s[1] + s[2] + s[3], 4)
  }

  ghost predicate IsCost(n: int, m: Mandate, q: Quote) {
    exists s :: AreCostShares(s, m, q) && IsMean(n, s[0] + s[1] + s[2], 3)
  }

  /** Half the reputation score, three tenths of its confidence, a fifth for its sample, full at ten. */
  predicate IsReputation(n: int, r: Reputation) {
    IsMean(n, 50 * r.scoreBps + 30 * r.evidenceConfidenceBps + 20 * (if r.sampleSize >= 10 then 10_000 else 1_000 * r.sampleSize), 100)
  }

  lemma RiskIs(m: Mandate, q: Quote)
    requires ValidMandate(m)
    ensures IsRisk(Ranking.RiskCompatibility(m, q), m, q)
  {
    RatioIsShare(q.permissions.expiresAt - m.createdAt, m.permissions.expiresAt - m.createdAt);
    RatioIsShare(q.permissions.spendCapUsdMicros, m.permissions.maxSpendUsdMicros);
    RatioIsShare(q.estimates.exposureUsdMicros, m.budgets.maxExposureUsdMicros);
    RatioIsShare(q.estimates.slippageBps, m.budgets.maxSlippageBps);
    var s := [ Ranking.RatioScore(q.permissions.expiresAt - m.createdAt, m.permissions.expiresAt - m.createdAt),
               Ranking.RatioScore(q.permissions.spendCapUsdMicros, m.permissions.maxSpendUsdMicros),
               Ranking.RatioScore(q.estimates.exposureUsdMicros, m.budgets.maxExposureUsdMicros),
               Ranking.RatioScore(q.estimates.slippageBps, m.budgets.maxSlippageBps) ];
    assert AreRiskShares(s, m, q);
    FloorOfQuotient(s[0] + s[1] + s[2] + s[3], 4);
  }

  lemma CostIs(m: Mandate, q: Quote)
    ensures IsCost(Ranking.TotalCost(m, q), m, q)
  {
    RatioIsShare(Ranking.AgentFee(q), m.budgets.maxAgentFeeUsdMicros);
    RatioIsShare(q.estimates.gasUsdMicros, m.budgets.maxGasUsdMicros);
    RatioIsShare(q.estimates.slippageBps, m.budgets.maxSlippageBps);
    var s := [ Ranking.RatioScore(Ranking.AgentFee(q), m.budgets.maxAgentFeeUsdMicros),
               Ranking.RatioScore(q.estimates.gasUsdMicros, m.budgets.maxGasUsdMicros),
               Ranking.RatioScore(q.estimates.slippageBps, m.budgets.maxSlippageBps) ];
    assert AreCostShares(s, m, q);
    FloorOfQuotient(s[0] + s[1] + s[2], 3);
  }

  lemma ReputationIs(r: Reputation)
    ensures IsReputation(Ranking.ReputationConfidence(r), r)
  {
    FloorOfQuotient(r.scoreBps * 50 + r.evidenceConfidenceBps * 30 + Min(10_000, r.sampleSize * 1_000) * 20, 100);
  }

  lemma RiskIsUnique(a: int, b: int, m: Mandate, q: Quote)
    requires IsRisk(a, m, q) && IsRisk(b, m, q)
    ensures a == b
  {
    var s :| AreRiskShares(s, m, q) && IsMean(a, s[0] + s[1] + s[2] + s[3], 4);
    var t :| AreRiskShares(t, m, q) && IsMean(b, t[0] + t[1] + t[2] + t[3], 4);
    ShareIsUnique(s[0], t[0], q.permissions.expiresAt - m.createdAt, m.permissions.expiresAt - m.createdAt);
    ShareIsUnique(s[1], t[1], q.permissions.spendCapUsdMicros, m.permissions.maxSpendUsdMicros);
    ShareIsUnique(s[2], t[2], q.estimates.exposureUsdMicros, m.budgets.maxExposureUsdMicros);
    ShareIsUnique(s[3], t[3], q.estimates.slippageBps, m.budgets.maxSlippageBps);
  }

  lemma CostIsUnique(a: int, b: int, m: Mandate, q: Quote)
    requires IsCost(a, m, q) && IsCost(b, m, q)
    ensures a == b
  {
    var s :| AreCostShares(s, m, q) && IsMean(a, s[0] + s[1] + s[2], 3);
    var t :| AreCostShares(t, m, q) && IsMean(b, t[0] + t[1] + t[2], 3);
    ShareIsUnique(s[0], t[0], if q.pricing.NormalizedZero? then q.pricing.agentFeeUsdMicros else 0, m.budgets.maxAgentFeeUsdMicros);
    ShareIsUnique(s[1], t[1], q.estimates.gasUsdMicros, m.budgets.maxGasUsdMicros);
    ShareIsUnique(s[2], t[2], q.estimates.slippageBps, m.budgets.maxSlippageBps);
  }

  lemma FreshnessIsUnique(a: int, b: int, observations: seq<(int, int)>, at: int)
    requires IsFreshness(a, observations, at) && IsFreshness(b, observations, at)
    ensures a == b
  {}

  /** A factor is its weight, its basis points and their product. */
  predicate Weighs(f: Factor, weight: nat, bps: int) {
    f.weight == weight && f.scoreBps == bps && f.weightedPoints == weight * bps
  }

  lemma FactorsWeigh(m: Mandate, q: Quote, at: int)
    requires ValidQuote(q) && q.preview.PreviewPassed?
    ensures
      var s := Ranking.ScoreEligibleQuote(m, q, at);
      var e, r, c := Ranking.EvidenceFreshness(m, q, at), Ranking.RiskCompatibility(m, q), Ranking.TotalCost(m, q);
      var p := Ranking.ReputationConfidence(q.reputation);
      && Weighs(s.factors.mandateFit, 30, 10_000) && Weighs(s.factors.executionReadiness, 20, 10_000)
      && Weighs(s.factors.evidenceFreshness, 20, e) && Weighs(s.factors.riskCompatibility, 15, r)
      && Weighs(s.factors.totalCost, 10, c) && Weighs(s.factors.reputationConfidence, 5, p)
      && s.weightedTotal == 500_000 + 20 * e + 15 * r + 10 * c + 5 * p && s.scoreBps == s.weightedTotal / 100
  {
    Ranking.ClampChangesNothing(m, q, at);
  }

  lemma FreshnessIff(m: Mandate, q: Quote, at: int, n: int)
    requires ValidMandate(m) && q.preview.PreviewPassed?
    ensures IsFreshness(n, Observations(m, q), at) <==> n == Ranking.EvidenceFreshness(m, q, at)
  {
    FreshnessIs(m, q, at);
    if IsFreshness(n, Observations(m, q), at) {
      FreshnessIsUnique(n, Ranking.EvidenceFreshness(m, q, at), Observations(m, q), at);
    }
  }

  lemma RiskIff(m: Mandate, q: Quote, n: int)
    requires ValidMandate(m)
    ensures IsRisk(n, m, q) <==> n == Ranking.RiskCompatibility(m, q)
  {
    RiskIs(m, q);
    if IsRisk(n, m, q) {
      RiskIsUnique(n, Ranking.RiskCompatibility(m, q), m, q);
    }
  }

  lemma CostIff(m: Mandate, q: Quote, n: int)
    ensures IsCost(n, m, q) <==> n == Ranking.TotalCost(m, q)
  {
    CostIs(m, q);
    if IsCost(n, m, q) {
      CostIsUnique(n, Ranking.TotalCost(m, q), m, q);
    }
  }

  lemma ReputationIff(r: Reputation, n: int)
    ensures IsReputation(n, r) <==> n == Ranking.ReputationConfidence(r)
  {
    ReputationIs(r);
  }

  /**
   The score of a quote with a passed preview: fit and readiness count in full, and freshness, risk, cost and reputation
   are the numbers the inputs determine, weighted 30, 20, 20, 15, 10 and 5.
   */
  lemma ScoreIs(m: Mandate, q: Quote, at: int, freshness: int, risk: int, cost: int, reputation: int)
    requires ValidMandate(m) && ValidQuote(q) && q.preview.PreviewPassed?
    ensures
      var s := Ranking.ScoreEligibleQuote(m, q, at);
      IsFreshness(freshness, Observations(m, q), at) && IsRisk(risk, m, q) && IsCost(cost, m, q) && IsReputation(reputation, q.reputation)
      <==>
      && Weighs(s.factors.mandateFit, 30, 10_000) && Weighs(s.factors.executionReadiness, 20, 10_000)
      && Weighs(s.factors.evidenceFreshness, 20, freshness) && Weighs(s.factors.riskCompatibility, 15, risk)
      && Weighs(s.factors.totalCost, 10, cost) && Weighs(s.factors.reputationConfidence, 5, reputation)
      && s.weightedTotal == 500_000 + 20 * freshness + 15 * risk + 10 * cost + 5 * reputation
      && s.scoreBps == s.weightedTotal / 100
  {
    FreshnessIff(m, q, at, freshness);
    RiskIff(m, q, risk);
    CostIff(m, q, cost);
    ReputationIff(q.reputation, reputation);
    FactorsWeigh(m, q, at);
  }

  /** The score of an eligible decision, as a number of its inputs. */
  lemma EligibleScoreIs(m: Mandate, q: Quote, at: int, freshness: int, risk: int, cost: int, reputation: int)
    requires ValidMandate(m) && ValidQuote(q) && Eligibility.Decide(m, q, at).outcome.Eligible?
    requires q.preview.PreviewPassed? ==> IsFreshness(freshness, Observations(m, q), at)
    requires IsRisk(risk, m, q) && IsCost(cost, m, q) && IsReputation(reputation, q.reputation)
    ensures q.preview.PreviewPassed? && Eligibility.Decide(m, q, at).score.Some?
    ensures Eligibility.Decide(m, q, at).score.value.weightedTotal == 500_000 + 20 * freshness + 15 * risk + 10 * cost + 5 * reputation
  {
    Eligibility.EligibleIff(m, q, at);
    Eligibility.EligibleScoreBounds(m, q, at);
    ScoreIs(m, q, at, freshness, risk, cost, reputation);
  }
}
