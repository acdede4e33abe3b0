/**
 The artifacts of Marketplace Core (`schemas.ts`, `primitives.ts`, `category-policy.ts`) with the cross-field rules
 their schemas enforce. Amounts are the values of canonical decimals; token ids stay text because identity is by text.
 */
module Marketplace {
  import opened Foundations
  import opened Ordering
  import Decimal

  const MAX_CANDIDATES := 8
  const MAX_TICK := 887_272

  datatype Category = Rebalancing | Grid | Yield | Health

  datatype Gate = Pass | Fail | Unknown

  // ---- candidates ----

  datatype Candidate = Candidate(chainId: nat, tokenId: Text, owner: string, publisher: string, taskInterface: string)

  predicate ValidCandidate(c: Candidate) {
    c.chainId == 56 && Decimal.Canonical(c.tokenId)
  }

  const COLON: Unit := 58

  /** `candidateId`. */
  function CandidateId(c: Candidate): Text {
    Decimal.Digits(c.chainId) + [COLON] + c.tokenId
  }

  /** `BigInt(tokenId)`; the schema admits only canonical decimals, so the other case does not arise. */
  function TokenNumber(tokenId: Text): nat {
    if Decimal.AllDigits(tokenId) then Decimal.ValueOf(tokenId) else 0
  }

  /** `compareCandidateKeys`: by chain, then by the token id as a number. */
  function CompareCandidates(a: Candidate, b: Candidate): int {
    if a.chainId != b.chainId then a.chainId - b.chainId
    else
      var x, y := TokenNumber(a.tokenId), TokenNumber(b.tokenId);
      if x < y then -1 else if x > y then 1 else 0
  }

  /** Comparing equal is having the same identity, because a number has one canonical decimal. */
  lemma CompareEqualIsSameIdentity(a: Candidate, b: Candidate)
    requires Decimal.Canonical(a.tokenId) && Decimal.Canonical(b.tokenId)
    ensures CompareCandidates(a, b) == 0 <==> CandidateId(a) == CandidateId(b)
  {
    if CompareCandidates(a, b) == 0 {
      Decimal.ValueInjective(a.tokenId, b.tokenId);
    }
    if CandidateId(a) == CandidateId(b) {
      CandidateIdInjective(a, b);
    }
  }

  /** On one chain candidates stand in the order of their token numbers, whatever the lengths of their decimals. */
  lemma CandidatesByNumber(a: Candidate, b: Candidate, m: nat, n: nat)
    requires a.chainId == b.chainId && a.tokenId == Decimal.Digits(m) && b.tokenId == Decimal.Digits(n)
    ensures CompareCandidates(a, b) < 0 <==> m < n
    ensures CompareCandidates(a, b) == 0 <==> m == n
  {
    Decimal.DigitsCanonical(m);
    Decimal.DigitsCanonical(n);
    Decimal.ValueOfDigits(m);
    Decimal.ValueOfDigits(n);
  }

  lemma CandidateIdInjective(a: Candidate, b: Candidate)
    requires CandidateId(a) == CandidateId(b)
    ensures a.chainId == b.chainId && a.tokenId == b.tokenId
  {
    var x, y := Decimal.Digits(a.chainId), Decimal.Digits(b.chainId);
    Decimal.DigitsCanonical(a.chainId);
    Decimal.DigitsCanonical(b.chainId);
    assert CandidateId(a)[|x|] == COLON && CandidateId(b)[|y|] == COLON;
    assert forall i :: 0 <= i < |x| ==> CandidateId(a)[i] == x[i];
    assert forall i :: 0 <= i < |y| ==> CandidateId(b)[i] == y[i];
    assert |x| == |y|;
    assert x == CandidateId(a)[..|x|] == CandidateId(b)[..|y|] == y;
    assert a.tokenId == CandidateId(a)[|x| + 1..] == CandidateId(b)[|y| + 1..] == b.tokenId;
    Decimal.ValueOfDigits(a.chainId);
    Decimal.ValueOfDigits(b.chainId);
  }

  // ---- mandates ----

  datatype Budgets = Budgets(
    maxAgentFeeUsdMicros: nat, maxGasUsdMicros: nat, maxSlippageBps: nat, maxExposureUsdMicros: nat)

  datatype MandatePermissions = MandatePermissions(
    allowedProtocols: seq<string>, allowedContracts: seq<string>, allowedCalls: seq<string>,
    maxSpendUsdMicros: nat, expiresAt: int)

  datatype Position = Position(poolAddress: string, positionManagerAddress: string, tokenId: Text)

  datatype TriggerMode = OutOfRange | BoundaryProximity

  datatype RangePolicy = RangePolicy(
    position: Position, approvedLowerTick: int, approvedUpperTick: int, targetWidthTicks: int,
    triggerMode: TriggerMode, triggerDistanceTicks: int)

  datatype Mandate = Mandate(
    mandateId: string, category: Category, createdAt: int, expiresAt: int, maxClockSkewSeconds: int,
    maxEvidenceAgeSeconds: int, maxPreviewAgeSeconds: int, budgets: Budgets, permissions: MandatePermissions,
    rebalancing: Option<RangePolicy>)

  predicate ValidMandate(m: Mandate) {
    && 0 < m.createdAt < m.expiresAt
    && 0 <= m.maxClockSkewSeconds <= 300
    && 5 <= m.maxEvidenceAgeSeconds <= 3_600
    && 5 <= m.maxPreviewAgeSeconds <= 3_600
    && m.budgets.maxSlippageBps <= 10_000
    && m.createdAt < m.permissions.expiresAt <= m.expiresAt
    && (m.category.Rebalancing? <==> m.rebalancing.Some?)
    && (m.rebalancing.Some? ==> ValidRangePolicy(m.rebalancing.value))
  }

  predicate ValidRangePolicy(p: RangePolicy) {
    && -MAX_TICK <= p.approvedLowerTick < p.approvedUpperTick <= MAX_TICK
    && 0 < p.targetWidthTicks <= p.approvedUpperTick - p.approvedLowerTick
    && 0 <= p.triggerDistanceTicks
  }

  // ---- projections and quotes ----

  datatype Estimates = Estimates(gasUsdMicros: nat, slippageBps: nat, exposureUsdMicros: nat, observedAt: int)

  datatype QuotePermissions = QuotePermissions(
    contracts: seq<string>, calls: seq<string>, spendCapUsdMicros: nat, expiresAt: int)

  datatype Verification = Verification(
    identity: Gate, publisher: Gate, endpoint: Gate, taskInterface: Gate, category: Gate, quoteCompleteness: Gate)

  datatype Preview =
    | PreviewPassed(observedAt: int, observedBlock: nat, observedBlockHash: string)
    | PreviewFailed(errorCode: string)
    | PreviewUnavailable

  datatype Reputation = Reputation(scoreBps: nat, sampleSize: nat, evidenceConfidenceBps: nat, observedAt: int)

  datatype TriggerReason = OutsideCurrentRange | NearRangeBoundary

  datatype Trigger = Trigger(fired: bool, reason: TriggerReason, distanceToBoundaryTicks: int)

  type Positive = n: int | 0 < n witness 1

  datatype Evidence =
    | RebalancingEvidence(
        protocol: string, position: Position, observedAt: int, observedBlock: nat, observedBlockHash: string,
        currentTick: int, tickSpacing: Positive, currentLowerTick: int, currentUpperTick: int,
        proposedLowerTick: int, proposedUpperTick: int, trigger: Trigger)
    | OtherEvidence(category: Category, observedAt: int)

  function EvidenceCategory(e: Evidence): Category {
    match e
    case RebalancingEvidence(_, _, _, _, _, _, _, _, _, _, _, _) => Rebalancing
    case OtherEvidence(category, _) => category
  }

  predicate ValidEvidence(e: Evidence) {
    match e
    case OtherEvidence(category, _) => !category.Rebalancing?
    case RebalancingEvidence(_, _, _, _, _, tick, _, lower, upper, proposedLower, proposedUpper, trigger) =>
      && -MAX_TICK <= tick <= MAX_TICK
      && -MAX_TICK <= lower < upper <= MAX_TICK
      && -MAX_TICK <= proposedLower < proposedUpper <= MAX_TICK
      && 0 <= trigger.distanceToBoundaryTicks
  }

  datatype Price = Price(amountAtomic: nat, currency: string)

  /** What a verifier signs about a quote. */
  datatype Payload = Payload(
    sourceCommitments: string, quoteId: Text, mandateId: string, category: Category, candidate: Candidate,
    observedAt: int, observedBlock: nat, observedBlockHash: string, expiresAt: int, proposedAction: string, price: Price,
    estimates: Estimates, permissions: QuotePermissions, verification: Verification, preview: Preview,
    reputation: Reputation, evidence: Evidence)

  /** A display-safe quote projection: a payload with the time it was captured. */
  datatype Projection = Projection(capturedAt: int, payload: Payload)

  datatype Pricing =
    | NormalizedZero(currency: string, agentFeeUsdMicros: nat)
    | UsdUnavailable(amountAtomic: nat, currency: string)

  datatype Normalization =
    | Normalized
    | InconclusiveNormalization(code: string)
    | UnsupportedNormalization(code: string)

  datatype ProjectionSha256 = ProjectionSha256(content: Projection)

  datatype Quote = Quote(
    sourceCommitments: string, sourceProjectionSha256: ProjectionSha256, capturedAt: int, quoteId: Text, mandateId: string,
    category: Category, candidate: Candidate, observedAt: int, observedBlock: nat, observedBlockHash: string,
    expiresAt: int, proposedAction: string, pricing: Pricing, estimates: Estimates, permissions: QuotePermissions,
    verification: Verification, preview: Preview, reputation: Reputation, evidence: Evidence,
    normalization: Normalization)

  predicate ValidMeasures(e: Estimates, r: Reputation) {
    e.slippageBps <= 10_000 && r.scoreBps <= 10_000 && r.evidenceConfidenceBps <= 10_000
  }

  /** Nothing was observed after capture, and the quote outlives both. */
  predicate Chronological(
    capturedAt: int, observedAt: int, estimates: Estimates, reputation: Reputation, evidence: Evidence, preview: Preview,
    expiresAt: int)
  {
    && observedAt <= capturedAt && estimates.observedAt <= capturedAt && reputation.observedAt <= capturedAt
    && evidence.observedAt <= capturedAt
    && (preview.PreviewPassed? ==> preview.observedAt <= capturedAt)
    && observedAt < expiresAt && capturedAt < expiresAt
  }

  predicate ValidProjection(projection: Projection) {
    var p := projection.payload;
    && ValidCandidate(p.candidate) && ValidMeasures(p.estimates, p.reputation) && ValidEvidence(p.evidence)
    && EvidenceCategory(p.evidence) == p.category
    && Chronological(projection.capturedAt, p.observedAt, p.estimates, p.reputation, p.evidence, p.preview, p.expiresAt)
  }

  /** The unsupported code of a category, `CATEGORY_POLICIES`. */
  function UnsupportedCode(c: Category): string
    requires !c.Rebalancing?
  {
    match c
    case Grid => "CATEGORY_GRID_UNSUPPORTED"
    case Yield => "CATEGORY_YIELD_UNSUPPORTED"
    case Health => "CATEGORY_HEALTH_UNSUPPORTED"
  }

  const PRICING_USD_UNAVAILABLE := "PRICING_USD_UNAVAILABLE"

  predicate ValidQuote(q: Quote) {
    && ValidCandidate(q.candidate) && ValidMeasures(q.estimates, q.reputation) && ValidEvidence(q.evidence)
    && EvidenceCategory(q.evidence) == q.category
    && Chronological(q.capturedAt, q.observedAt, q.estimates, q.reputation, q.evidence, q.preview, q.expiresAt)
    && (match q.pricing
        case NormalizedZero(_, fee) => fee == 0
        case UsdUnavailable(amount, _) => amount != 0)
    && q.normalization ==
         if !q.category.Rebalancing? then UnsupportedNormalization(UnsupportedCode(q.category))
         else if q.pricing.NormalizedZero? then Normalized
         else InconclusiveNormalization(PRICING_USD_UNAVAILABLE)
  }

  /** `normalizeDisplaySafeQuoteProjection`. */
  function NormalizeProjection(projection: Projection): Quote {
    var p := projection.payload;
    var pricing :=
      if p.price.amountAtomic == 0 then NormalizedZero(p.price.currency, 0)
      else UsdUnavailable(p.price.amountAtomic, p.price.currency);
    var normalization :=
      if p.category.Rebalancing?
      then (if p.price.amountAtomic == 0 then Normalized else InconclusiveNormalization(PRICING_USD_UNAVAILABLE))
      else UnsupportedNormalization(UnsupportedCode(p.category));
    Quote(p.sourceCommitments, ProjectionSha256(projection), projection.capturedAt, p.quoteId, p.mandateId, p.category,
      p.candidate, p.observedAt, p.observedBlock, p.observedBlockHash, p.expiresAt, p.proposedAction, pricing, p.estimates,
      p.permissions, p.verification, p.preview, p.reputation, p.evidence, normalization)
  }

  /** Normalizing a valid projection always gives a quote the quote schema accepts; the schema parse never throws. */
  lemma NormalizeIsValid(p: Projection)
    requires ValidProjection(p)
    ensures ValidQuote(NormalizeProjection(p))
    ensures NormalizeProjection(p).quoteId == p.payload.quoteId && NormalizeProjection(p).candidate == p.payload.candidate
  {}

  /** The payload a quote was normalized from, read off its own fields. */
  function PayloadOf(q: Quote): Payload {
    var price := match q.pricing
      case NormalizedZero(currency, _) => Price(0, currency)
      case UsdUnavailable(amount, currency) => Price(amount, currency);
    Payload(q.sourceCommitments, q.quoteId, q.mandateId, q.category, q.candidate, q.observedAt, q.observedBlock,
      q.observedBlockHash, q.expiresAt, q.proposedAction, price, q.estimates, q.permissions, q.verification, q.preview,
      q.reputation, q.evidence)
  }

  /** Normalizing loses nothing: payload and capture time can be read back, and the quote commits to both. */
  lemma NormalizationLosesNothing(p: Projection)
    ensures
      var q := NormalizeProjection(p);
      Projection(q.capturedAt, PayloadOf(q)) == p && q.sourceProjectionSha256.content == p
  {}

  // ---- scores, findings and decisions ----

  datatype Factor = Factor(weight: nat, scoreBps: nat, weightedPoints: nat)

  datatype Factors = Factors(
    mandateFit: Factor, executionReadiness: Factor, evidenceFreshness: Factor, riskCompatibility: Factor,
    totalCost: Factor, reputationConfidence: Factor)

  datatype Score = Score(factors: Factors, weightedTotal: nat, scoreBps: nat)

  predicate ValidFactor(f: Factor, weight: nat) {
    f.weight == weight && f.scoreBps <= 10_000 && f.weightedPoints == f.weight * f.scoreBps
  }

  /** `rankingScoreSchema` with the pinned `STRATEGY_WEIGHTS`. */
  predicate ValidScore(s: Score) {
    && ValidFactor(s.factors.mandateFit, 30) && ValidFactor(s.factors.executionReadiness, 20)
    && ValidFactor(s.factors.evidenceFreshness, 20) && ValidFactor(s.factors.riskCompatibility, 15)
    && ValidFactor(s.factors.totalCost, 10) && ValidFactor(s.factors.reputationConfidence, 5)
    && s.weightedTotal == s.factors.mandateFit.weightedPoints + s.factors.executionReadiness.weightedPoints
         + s.factors.evidenceFreshness.weightedPoints + s.factors.riskCompatibility.weightedPoints
         + s.factors.totalCost.weightedPoints + s.factors.reputationConfidence.weightedPoints
    && s.scoreBps == s.weightedTotal / 100
  }

  datatype FindingKind = Exclusion | Inconclusive | Unsupported

  datatype Finding = Finding(kind: FindingKind, code: string)

  datatype Outcome = Eligible | Excluded | InconclusiveOutcome | UnsupportedOutcome

  datatype QuoteSha256 = QuoteSha256(content: Quote)

  datatype Decision = Decision(
    mandateId: string, evaluatedAt: int, quoteId: Text, candidate: Candidate, quoteSha256: QuoteSha256,
    outcome: Outcome, findings: seq<Finding>, score: Option<Score>)
}
