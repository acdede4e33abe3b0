/** Integer scoring of eligible quotes (`ranking.ts`), its bounds and its monotonicity. */
module Ranking {
  import opened Arithmetic
  import opened Foundations
  import opened Marketplace

  function ClampBps(value: int): nat {
    Max(0, Min(10_000, value))
  }

  /** The share of a ceiling left unused, in basis points. */
  function RatioScore(numerator: int, denominator: int): int {
    if denominator <= 0 then (if numerator == 0 then 10_000 else 0)
    else if numerator <= 0 then 10_000
    else if numerator >= denominator then 0
    else (denominator - numerator) * 10_000 / denominator
  }

  /** The share of an age limit left unused, in basis points. */
  function AgeScore(ageSeconds: int, maxAgeSeconds: int): int {
    if ageSeconds <= 0 then 10_000
    else if ageSeconds >= maxAgeSeconds then 0
    else (maxAgeSeconds - ageSeconds) * 10_000 / maxAgeSeconds
  }

  function MakeFactor(weight: nat, scoreBps: int): Factor {
    Factor(weight, ClampBps(scoreBps), weight * ClampBps(scoreBps))
  }

  function EvidenceFreshness(m: Mandate, q: Quote, at: int): int {
    Min(Min(AgeScore(at - q.observedAt, m.maxEvidenceAgeSeconds),
            AgeScore(at - q.estimates.observedAt, m.maxEvidenceAgeSeconds)),
        Min(Min(AgeScore(at - q.evidence.observedAt, m.maxEvidenceAgeSeconds),
                AgeScore(at - q.reputation.observedAt, m.maxEvidenceAgeSeconds)),
            if q.preview.PreviewPassed? then AgeScore(at - q.preview.observedAt, m.maxPreviewAgeSeconds) else 0))
  }

  function SlippageMargin(m: Mandate, q: Quote): int {
    RatioScore(q.estimates.slippageBps, m.budgets.maxSlippageBps)
  }

  function RiskCompatibility(m: Mandate, q: Quote): int {
    var expiryMargin := RatioScore(q.permissions.expiresAt - m.createdAt, m.permissions.expiresAt - m.createdAt);
    var spendMargin := RatioScore(q.permissions.spendCapUsdMicros, m.permissions.maxSpendUsdMicros);
    var exposureMargin := RatioScore(q.estimates.exposureUsdMicros, m.budgets.maxExposureUsdMicros);
    (expiryMargin + spendMargin + exposureMargin + SlippageMargin(m, q)) / 4
  }

  function AgentFee(q: Quote): nat {
    if q.pricing.NormalizedZero? then q.pricing.agentFeeUsdMicros else 0
  }

  function TotalCost(m: Mandate, q: Quote): int {
    (RatioScore(AgentFee(q), m.budgets.maxAgentFeeUsdMicros) + RatioScore(q.estimates.gasUsdMicros, m.budgets.maxGasUsdMicros)
     + SlippageMargin(m, q)) / 3
  }

  function ReputationConfidence(r: Reputation): int {
    (r.scoreBps * 50 + r.evidenceConfidenceBps * 30 + Min(10_000, r.sampleSize * 1_000) * 20) / 100
  }

  function ScoreEligibleQuote(m: Mandate, q: Quote, at: int): Score {
    var factors := Factors(
      MakeFactor(30, 10_000),
      MakeFactor(20, if q.preview.PreviewPassed? then 10_000 else 0),
      MakeFactor(20, EvidenceFreshness(m, q, at)),
      MakeFactor(15, RiskCompatibility(m, q)),
      MakeFactor(10, TotalCost(m, q)),
      MakeFactor(5, ReputationConfidence(q.reputation)));
    var total := factors.mandateFit.weightedPoints + factors.executionReadiness.weightedPoints
      + factors.evidenceFreshness.weightedPoints + factors.riskCompatibility.weightedPoints
      + factors.totalCost.weightedPoints + factors.reputationConfidence.weightedPoints;
    Score(factors, total, total / 100)
  }

  // ---- bounds ----

  lemma ShareBounds(left: int, whole: int)
    requires 0 < left <= whole
    ensures 0 <= left * 10_000 / whole <= 10_000
  {
    DivisionMonotone(0, left * 10_000, whole);
    DivisionMonotone(left * 10_000, 10_000 * whole, whole);
    assert 10_000 * whole / whole == 10_000;
  }

  lemma RatioScoreBounds(numerator: int, denominator: int)
    ensures 0 <= RatioScore(numerator, denominator) <= 10_000
  {
    if 0 < numerator < denominator {
      ShareBounds(denominator - numerator, denominator);
    }
  }

  lemma AgeScoreBounds(age: int, limit: int)
    ensures 0 <= AgeScore(age, limit) <= 10_000
  {
    if 0 < age < limit {
      ShareBounds(limit - age, limit);
    }
  }

  /** Every factor is in basis points before it is clamped. */
  lemma FactorsInRange(m: Mandate, q: Quote, at: int)
    requires ValidMeasures(q.estimates, q.reputation)
    ensures 0 <= EvidenceFreshness(m, q, at) <= 10_000
    ensures 0 <= RiskCompatibility(m, q) <= 10_000
    ensures 0 <= TotalCost(m, q) <= 10_000
    ensures 0 <= ReputationConfidence(q.reputation) <= 10_000
  {
    AgeScoreBounds(at - q.observedAt, m.maxEvidenceAgeSeconds);
    AgeScoreBounds(at - q.estimates.observedAt, m.maxEvidenceAgeSeconds);
    AgeScoreBounds(at - q.evidence.observedAt, m.maxEvidenceAgeSeconds);
    AgeScoreBounds(at - q.reputation.observedAt, m.maxEvidenceAgeSeconds);
    if q.preview.PreviewPassed? {
      AgeScoreBounds(at - q.preview.observedAt, m.maxPreviewAgeSeconds);
    }
    RatioScoreBounds(q.permissions.expiresAt - m.createdAt, m.permissions.expiresAt - m.createdAt);
    RatioScoreBounds(q.permissions.spendCapUsdMicros, m.permissions.maxSpendUsdMicros);
    RatioScoreBounds(q.estimates.exposureUsdMicros, m.budgets.maxExposureUsdMicros);
    RatioScoreBounds(q.estimates.slippageBps, m.budgets.maxSlippageBps);
    RatioScoreBounds(AgentFee(q), m.budgets.maxAgentFeeUsdMicros);
    RatioScoreBounds(q.estimates.gasUsdMicros, m.budgets.maxGasUsdMicros);
  }

  /** Clamping never changes a factor, and the score always passes the score schema with the pinned weights. */
  lemma ClampChangesNothing(m: Mandate, q: Quote, at: int)
    requires ValidMeasures(q.estimates, q.reputation)
    ensures
      var f := ScoreEligibleQuote(m, q, at).factors;
      && f.evidenceFreshness.scoreBps == EvidenceFreshness(m, q, at)
      && f.riskCompatibility.scoreBps == RiskCompatibility(m, q)
      && f.totalCost.scoreBps == TotalCost(m, q)
      && f.reputationConfidence.scoreBps == ReputationConfidence(q.reputation)
    ensures ValidScore(ScoreEligibleQuote(m, q, at))
  {
    FactorsInRange(m, q, at);
  }

  /** A quote with a passed preview scores at least half of everything, and the basis points follow. */
  lemma ScoreBounds(m: Mandate, q: Quote, at: int)
    requires ValidMeasures(q.estimates, q.reputation) && q.preview.PreviewPassed?
    ensures
      var s := ScoreEligibleQuote(m, q, at);
      && 500_000 <= s.weightedTotal <= 1_000_000
      && 5_000 <= s.scoreBps <= 10_000
      && s.weightedTotal == 500_000 + 20 * EvidenceFreshness(m, q, at) + 15 * RiskCompatibility(m, q)
           + 10 * TotalCost(m, q) + 5 * ReputationConfidence(q.reputation)
  {
    FactorsInRange(m, q, at);
  }

  // ---- monotonicity ----

  lemma RatioScoreMonotone(less: int, more: int, ceiling: int)
    requires less <= more && (ceiling <= 0 ==> 0 <= less)
    ensures RatioScore(less, ceiling) >= RatioScore(more, ceiling)
  {
    RatioScoreBounds(less, ceiling);
    RatioScoreBounds(more, ceiling);
    if 0 < less && more < ceiling {
      DivisionMonotone((ceiling - more) * 10_000, (ceiling - less) * 10_000, ceiling);
    }
  }

  lemma AgeScoreMonotone(younger: int, older: int, limit: int)
    requires younger <= older
    ensures AgeScore(younger, limit) >= AgeScore(older, limit)
  {
    AgeScoreBounds(younger, limit);
    AgeScoreBounds(older, limit);
    if 0 < younger && older < limit {
      DivisionMonotone((limit - older) * 10_000, (limit - younger) * 10_000, limit);
    }
  }

  /** `a` is no worse than `b` in every input the score reads. */
  predicate NoWorse(a: Quote, b: Quote) {
    && a.observedAt >= b.observedAt && a.estimates.observedAt >= b.estimates.observedAt
    && a.evidence.observedAt >= b.evidence.observedAt && a.reputation.observedAt >= b.reputation.observedAt
    && (b.preview.PreviewPassed? ==> a.preview.PreviewPassed? && a.preview.observedAt >= b.preview.observedAt)
    && a.permissions.expiresAt <= b.permissions.expiresAt
    && a.permissions.spendCapUsdMicros <= b.permissions.spendCapUsdMicros
    && a.estimates.exposureUsdMicros <= b.estimates.exposureUsdMicros
    && a.estimates.slippageBps <= b.estimates.slippageBps && a.estimates.gasUsdMicros <= b.estimates.gasUsdMicros
    && AgentFee(a) <= AgentFee(b)
    && a.reputation.scoreBps >= b.reputation.scoreBps && a.reputation.sampleSize >= b.reputation.sampleSize
    && a.reputation.evidenceConfidenceBps >= b.reputation.evidenceConfidenceBps
  }

  lemma FreshnessMonotone(m: Mandate, a: Quote, b: Quote, sooner: int, later: int)
    requires NoWorse(a, b) && sooner <= later
    ensures EvidenceFreshness(m, a, sooner) >= EvidenceFreshness(m, b, later)
  {
    AgeScoreMonotone(sooner - a.observedAt, later - b.observedAt, m.maxEvidenceAgeSeconds);
    AgeScoreMonotone(sooner - a.estimates.observedAt, later - b.estimates.observedAt, m.maxEvidenceAgeSeconds);
    AgeScoreMonotone(sooner - a.evidence.observedAt, later - b.evidence.observedAt, m.maxEvidenceAgeSeconds);
    AgeScoreMonotone(sooner - a.reputation.observedAt, later - b.reputation.observedAt, m.maxEvidenceAgeSeconds);
    if b.preview.PreviewPassed? {
      AgeScoreMonotone(sooner - a.preview.observedAt, later - b.preview.observedAt, m.maxPreviewAgeSeconds);
    } else if a.preview.PreviewPassed? {
      AgeScoreBounds(sooner - a.preview.observedAt, m.maxPreviewAgeSeconds);
    }
  }

  lemma MarginsMonotone(m: Mandate, a: Quote, b: Quote)
    requires ValidMandate(m) && NoWorse(a, b)
    ensures RiskCompatibility(m, a) >= RiskCompatibility(m, b)
    ensures TotalCost(m, a) >= TotalCost(m, b)
  {
    RatioScoreMonotone(a.permissions.expiresAt - m.createdAt, b.permissions.expiresAt - m.createdAt,
      m.permissions.expiresAt - m.createdAt);
    RatioScoreMonotone(a.permissions.spendCapUsdMicros, b.permissions.spendCapUsdMicros, m.permissions.maxSpendUsdMicros);
    RatioScoreMonotone(a.estimates.exposureUsdMicros, b.estimates.exposureUsdMicros, m.budgets.maxExposureUsdMicros);
    RatioScoreMonotone(a.estimates.slippageBps, b.estimates.slippageBps, m.budgets.maxSlippageBps);
    RatioScoreMonotone(AgentFee(a), AgentFee(b), m.budgets.maxAgentFeeUsdMicros);
    RatioScoreMonotone(a.estimates.gasUsdMicros, b.estimates.gasUsdMicros, m.budgets.maxGasUsdMicros);
  }

  lemma ReputationMonotone(a: Reputation, b: Reputation)
    requires a.scoreBps >= b.scoreBps && a.sampleSize >= b.sampleSize && a.evidenceConfidenceBps >= b.evidenceConfidenceBps
    ensures ReputationConfidence(a) >= ReputationConfidence(b)
  {}

  /**
   A quote no worse in every input, scored no later, scores at least as high; with equal quotes this says that a
   score never rises as time passes.
   */
  lemma ScoreMonotone(m: Mandate, a: Quote, b: Quote, sooner: int, later: int)
    requires ValidMandate(m) && NoWorse(a, b) && sooner <= later
    ensures ScoreEligibleQuote(m, a, sooner).weightedTotal >= ScoreEligibleQuote(m, b, later).weightedTotal
    ensures ScoreEligibleQuote(m, a, sooner).scoreBps >= ScoreEligibleQuote(m, b, later).scoreBps
  {
    FreshnessMonotone(m, a, b, sooner, later);
    MarginsMonotone(m, a, b);
    ReputationMonotone(a.reputation, b.reputation);
    TotalsMonotone(ScoreEligibleQuote(m, a, sooner).factors, ScoreEligibleQuote(m, b, later).factors);
  }

  lemma TotalsMonotone(a: Factors, b: Factors)
    requires a.mandateFit.weightedPoints >= b.mandateFit.weightedPoints
    requires a.executionReadiness.weightedPoints >= b.executionReadiness.weightedPoints
    requires a.evidenceFreshness.weightedPoints >= b.evidenceFreshness.weightedPoints
    requires a.riskCompatibility.weightedPoints >= b.riskCompatibility.weightedPoints
    requires a.totalCost.weightedPoints >= b.totalCost.weightedPoints
    requires a.reputationConfidence.weightedPoints >= b.reputationConfidence.weightedPoints
    ensures a.mandateFit.weightedPoints + a.executionReadiness.weightedPoints + a.evidenceFreshness.weightedPoints
            + a.riskCompatibility.weightedPoints + a.totalCost.weightedPoints + a.reputationConfidence.weightedPoints
            >= b.mandateFit.weightedPoints + b.executionReadiness.weightedPoints + b.evidenceFreshness.weightedPoints
               + b.riskCompatibility.weightedPoints + b.totalCost.weightedPoints + b.reputationConfidence.weightedPoints
  {}
}
