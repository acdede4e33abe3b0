/** Which quotes are eligible, and why not (`evaluate.ts`, `rebalancingFindings` and `decide`). */
module Eligibility {
  import opened Foundations
  import opened Ordering
  import opened Marketplace
  import opened Findings
  import TickRange
  import Ranking

  function Ex(code: string): Finding { Finding(Exclusion, code) }

  function Inc(code: string): Finding { Finding(Inconclusive, code) }

  // ---- what is raised, in the order it is pushed; each group appends to what was raised before ----

  /** A verification gate with the codes it raises when failed and when unknown. */
  datatype GateCheck = GateCheck(state: Gate, failed: string, unknown: string)

  function GateChecks(v: Verification): seq<GateCheck> {
    [ GateCheck(v.identity, "IDENTITY_UNAVAILABLE", "IDENTITY_CHECK_INCONCLUSIVE"),
      GateCheck(v.publisher, "PUBLISHER_UNKNOWN", "PUBLISHER_CHECK_INCONCLUSIVE"),
      GateCheck(v.endpoint, "AGENT_UNREACHABLE", "ENDPOINT_CHECK_INCONCLUSIVE"),
      GateCheck(v.taskInterface, "TASK_INTERFACE_UNSUPPORTED", "TASK_INTERFACE_CHECK_INCONCLUSIVE"),
      GateCheck(v.category, "CATEGORY_UNVERIFIED", "CATEGORY_CHECK_INCONCLUSIVE"),
      GateCheck(v.quoteCompleteness, "QUOTE_INCOMPLETE", "QUOTE_COMPLETENESS_INCONCLUSIVE") ]
  }

  function GateFinding(g: GateCheck): Option<Finding> {
    match g.state
    case Fail => Some(Ex(g.failed))
    case Unknown => Some(Inc(g.unknown))
    case Pass => None
  }

  function RaiseGates(gates: seq<GateCheck>): (r: seq<Finding>)
    ensures Hard(r) && |r| <= |gates|
    ensures r == [] <==> forall g :: g in gates ==> g.state == Pass
  {
    if gates == [] then []
    else
      assert gates == gates[..|gates| - 1] + [gates[|gates| - 1]];
      var last := GateFinding(gates[|gates| - 1]);
      RaiseGates(gates[..|gates| - 1]) + (if last.Some? then [last.value] else [])
  }

  /** Exclusions and inconclusive findings only. */
  predicate Hard(fs: seq<Finding>) {
    forall f :: f in fs ==> f.kind != Unsupported
  }

  /** The code names a dated observation raises findings under. */
  datatype TimestampCodes = TimestampCodes(precedesMandate: string, stale: string, future: string)

  /** Observed under the mandate, not ahead of the clock beyond the skew, and not too old. */
  predicate Timely(m: Mandate, at: int, observedAt: int, maxAge: int) {
    m.createdAt <= observedAt <= at + m.maxClockSkewSeconds && at - observedAt <= maxAge
  }

  function RaiseTimestamp(acc: seq<Finding>, m: Mandate, at: int, observedAt: int, maxAge: int, codes: TimestampCodes): seq<Finding> {
    acc
    + When(observedAt < m.createdAt, Ex(codes.precedesMandate))
    + When(observedAt > at + m.maxClockSkewSeconds, Inc(codes.future))
    + When(at - observedAt > maxAge, Ex(codes.stale))
  }

  lemma TimestampRaises(acc: seq<Finding>, m: Mandate, at: int, observedAt: int, maxAge: int, codes: TimestampCodes)
    ensures Hard(acc) ==> Hard(RaiseTimestamp(acc, m, at, observedAt, maxAge, codes))
    ensures |RaiseTimestamp(acc, m, at, observedAt, maxAge, codes)| <= |acc| + 3
    ensures RaiseTimestamp(acc, m, at, observedAt, maxAge, codes) == [] <==> acc == [] && Timely(m, at, observedAt, maxAge)
  {}

  const QUOTE_CODES := TimestampCodes("QUOTE_PRECEDES_MANDATE", "QUOTE_STALE", "QUOTE_TIMESTAMP_IN_FUTURE")
  const ESTIMATE_CODES := TimestampCodes("ESTIMATE_PRECEDES_MANDATE", "ESTIMATE_STALE", "ESTIMATE_TIMESTAMP_IN_FUTURE")
  const REPUTATION_CODES := TimestampCodes("REPUTATION_PRECEDES_MANDATE", "REPUTATION_STALE", "REPUTATION_TIMESTAMP_IN_FUTURE")
  const PREVIEW_CODES := TimestampCodes("PREVIEW_PRECEDES_MANDATE", "PREVIEW_STALE", "PREVIEW_TIMESTAMP_IN_FUTURE")
  const EVIDENCE_CODES :=
    TimestampCodes("CATEGORY_EVIDENCE_PRECEDES_MANDATE", "CATEGORY_EVIDENCE_STALE", "CATEGORY_EVIDENCE_TIMESTAMP_IN_FUTURE")

  predicate BoundAndLive(m: Mandate, q: Quote, at: int) {
    && m.category.Rebalancing? && q.mandateId == m.mandateId && q.category == m.category && at < m.expiresAt
  }

  function RaiseBinding(acc: seq<Finding>, m: Mandate, q: Quote, at: int): seq<Finding> {
    acc
    + When(!m.category.Rebalancing?, Ex("MANDATE_CATEGORY_MISMATCH"))
    + When(q.mandateId != m.mandateId, Ex("MANDATE_ID_MISMATCH"))
    + When(q.category != m.category, Ex("MANDATE_CATEGORY_MISMATCH"))
    + When(at >= m.expiresAt, Ex("MANDATE_EXPIRED"))
  }

  lemma BindingRaises(acc: seq<Finding>, m: Mandate, q: Quote, at: int)
    ensures Hard(acc) ==> Hard(RaiseBinding(acc, m, q, at))
    ensures |RaiseBinding(acc, m, q, at)| <= |acc| + 4
    ensures RaiseBinding(acc, m, q, at) == [] <==> acc == [] && BoundAndLive(m, q, at)
  {}

  predicate LifetimeOk(m: Mandate, q: Quote, at: int) {
    q.capturedAt <= at + m.maxClockSkewSeconds && at < q.expiresAt <= m.expiresAt
  }

  function RaiseLifetime(acc: seq<Finding>, m: Mandate, q: Quote, at: int): seq<Finding> {
    acc
    + When(q.capturedAt > at + m.maxClockSkewSeconds, Inc("CAPTURE_TIMESTAMP_IN_FUTURE"))
    + When(q.expiresAt <= at, Ex("QUOTE_EXPIRED"))
    + When(q.expiresAt > m.expiresAt, Ex("QUOTE_OUTLIVES_MANDATE"))
  }

  lemma LifetimeRaises(acc: seq<Finding>, m: Mandate, q: Quote, at: int)
    ensures Hard(acc) ==> Hard(RaiseLifetime(acc, m, q, at))
    ensures |RaiseLifetime(acc, m, q, at)| <= |acc| + 3
    ensures RaiseLifetime(acc, m, q, at) == [] <==> acc == [] && LifetimeOk(m, q, at)
  {}

  function RaiseNormalization(acc: seq<Finding>, q: Quote): seq<Finding> {
    acc + (if q.normalization.InconclusiveNormalization? then [Inc(q.normalization.code)] else [])
  }

  lemma NormalizationRaises(acc: seq<Finding>, q: Quote)
    ensures Hard(acc) ==> Hard(RaiseNormalization(acc, q))
    ensures |RaiseNormalization(acc, q)| <= |acc| + 1
    ensures RaiseNormalization(acc, q) == [] <==> acc == [] && !q.normalization.InconclusiveNormalization?
  {}

  predicate PreviewOk(m: Mandate, q: Quote, at: int) {
    && q.preview.PreviewPassed? && Timely(m, at, q.preview.observedAt, m.maxPreviewAgeSeconds)
    && q.preview.observedBlock == q.observedBlock && q.preview.observedBlockHash == q.observedBlockHash
  }

  function RaisePreview(acc: seq<Finding>, m: Mandate, q: Quote, at: int): seq<Finding> {
    match q.preview
    case PreviewFailed(_) => acc + [Ex("EXECUTION_PREVIEW_FAILED")]
    case PreviewUnavailable => acc + [Inc("EXECUTION_PREVIEW_INCONCLUSIVE")]
    case PreviewPassed(observedAt, block, hash) =>
      RaiseTimestamp(acc, m, at, observedAt, m.maxPreviewAgeSeconds, PREVIEW_CODES)
      + When(block != q.observedBlock || hash != q.observedBlockHash, Ex("PREVIEW_BLOCK_MISMATCH"))
  }

  lemma PreviewRaises(acc: seq<Finding>, m: Mandate, q: Quote, at: int)
    ensures Hard(acc) ==> Hard(RaisePreview(acc, m, q, at))
    ensures |RaisePreview(acc, m, q, at)| <= |acc| + 4
    ensures RaisePreview(acc, m, q, at) == [] <==> acc == [] && PreviewOk(m, q, at)
  {
    if q.preview.PreviewPassed? {
      TimestampRaises(acc, m, at, q.preview.observedAt, m.maxPreviewAgeSeconds, PREVIEW_CODES);
    }
  }

  predicate Anchored(m: Mandate, q: Quote, e: Evidence, p: RangePolicy)
    requires e.RebalancingEvidence?
  {
    && e.observedBlock == q.observedBlock && e.observedBlockHash == q.observedBlockHash
    && e.position == p.position
    && e.protocol in m.permissions.allowedProtocols
  }

  function RaiseAnchors(acc: seq<Finding>, m: Mandate, q: Quote, e: Evidence, p: RangePolicy, at: int): seq<Finding>
    requires e.RebalancingEvidence?
  {
    RaiseTimestamp(acc, m, at, e.observedAt, m.maxEvidenceAgeSeconds, EVIDENCE_CODES)
    + When(e.observedBlock != q.observedBlock || e.observedBlockHash != q.observedBlockHash, Ex("EVIDENCE_BLOCK_MISMATCH"))
    + When(e.position.poolAddress != p.position.poolAddress
           || e.position.positionManagerAddress != p.position.positionManagerAddress
           || e.position.tokenId != p.position.tokenId, Ex("POSITION_MISMATCH"))
    + When(e.protocol !in m.permissions.allowedProtocols, Ex("PROTOCOL_NOT_ALLOWED"))
  }

  lemma AnchorsRaises(acc: seq<Finding>, m: Mandate, q: Quote, e: Evidence, p: RangePolicy, at: int)
    requires e.RebalancingEvidence?
    ensures Hard(acc) ==> Hard(RaiseAnchors(acc, m, q, e, p, at))
    ensures |RaiseAnchors(acc, m, q, e, p, at)| <= |acc| + 6
    ensures RaiseAnchors(acc, m, q, e, p, at) == [] <==>
            acc == [] && Timely(m, at, e.observedAt, m.maxEvidenceAgeSeconds) && Anchored(m, q, e, p)
  {
    TimestampRaises(acc, m, at, e.observedAt, m.maxEvidenceAgeSeconds, EVIDENCE_CODES);
  }

  predicate IsOutside(e: Evidence)
    requires e.RebalancingEvidence?
  {
    e.currentTick < e.currentLowerTick || e.currentTick >= e.currentUpperTick
  }

  function BoundaryDistance(e: Evidence): int
    requires e.RebalancingEvidence?
  {
    if IsOutside(e) then 0 else Min(e.currentTick - e.currentLowerTick, e.currentUpperTick - e.currentTick)
  }

  /** The trigger fired, its account of the range is right, and it is one the policy asks for. */
  predicate TriggerOk(e: Evidence, p: RangePolicy)
    requires e.RebalancingEvidence?
  {
    && e.trigger.fired
    && e.trigger.distanceToBoundaryTicks == BoundaryDistance(e)
    && (e.trigger.reason == OutsideCurrentRange <==> IsOutside(e))
    && (IsOutside(e) || (p.triggerMode.BoundaryProximity? && BoundaryDistance(e) <= p.triggerDistanceTicks))
  }

  function RaiseTrigger(acc: seq<Finding>, e: Evidence, p: RangePolicy): seq<Finding>
    requires e.RebalancingEvidence?
  {
    var valid :=
      && e.trigger.distanceToBoundaryTicks == BoundaryDistance(e)
      && e.trigger.reason == if IsOutside(e) then OutsideCurrentRange else NearRangeBoundary;
    acc
    + When(!e.trigger.fired, Ex("REBALANCE_TRIGGER_NOT_FIRED"))
    + When(!valid, Ex("TRIGGER_EVIDENCE_INVALID"))
    + When(e.trigger.fired &&
           ((p.triggerMode.OutOfRange? && !IsOutside(e)) ||
            (p.triggerMode.BoundaryProximity? && !IsOutside(e) && BoundaryDistance(e) > p.triggerDistanceTicks)),
           Ex("TRIGGER_POLICY_MISMATCH"))
  }

  lemma TriggerRaises(acc: seq<Finding>, e: Evidence, p: RangePolicy)
    requires e.RebalancingEvidence?
    ensures Hard(acc) ==> Hard(RaiseTrigger(acc, e, p))
    ensures |RaiseTrigger(acc, e, p)| <= |acc| + 3
    ensures RaiseTrigger(acc, e, p) == [] <==> acc == [] && TriggerOk(e, p)
  {}

  /**
   The proposed range is the aligned range of the target width nearest the current tick, inside the approved range;
   nothing here mentions how the evaluator computes it.
   */
  predicate RangeOk(e: Evidence, p: RangePolicy)
    requires e.RebalancingEvidence?
  {
    && TickRange.Aligned(e.currentLowerTick, e.tickSpacing) && TickRange.Aligned(e.currentUpperTick, e.tickSpacing)
    && TickRange.Aligned(p.targetWidthTicks, e.tickSpacing)
    && TickRange.Aligned(e.proposedLowerTick, e.tickSpacing)
    && TickRange.Nearest(e.proposedLowerTick, e.currentTick, p.targetWidthTicks, e.tickSpacing)
    && e.proposedUpperTick == e.proposedLowerTick + p.targetWidthTicks
    && p.approvedLowerTick <= e.proposedLowerTick && e.proposedUpperTick <= p.approvedUpperTick
  }

  predicate EndpointsAligned(e: Evidence)
    requires e.RebalancingEvidence?
  {
    && e.currentLowerTick % e.tickSpacing == 0 && e.currentUpperTick % e.tickSpacing == 0
    && e.proposedLowerTick % e.tickSpacing == 0 && e.proposedUpperTick % e.tickSpacing == 0
  }

  predicate WithinPolicy(e: Evidence, p: RangePolicy)
    requires e.RebalancingEvidence?
  {
    && p.approvedLowerTick <= e.proposedLowerTick && e.proposedUpperTick <= p.approvedUpperTick
    && e.proposedLowerTick < e.proposedUpperTick && e.proposedLowerTick <= e.currentTick < e.proposedUpperTick
  }

  predicate AsExpected(e: Evidence, p: RangePolicy)
    requires e.RebalancingEvidence?
  {
    var lower := TickRange.ExpectedLower(e.currentTick, p.targetWidthTicks, e.tickSpacing);
    && e.proposedUpperTick - e.proposedLowerTick == p.targetWidthTicks
    && e.proposedLowerTick == lower && e.proposedUpperTick == lower + p.targetWidthTicks
  }

  function RaiseRange(acc: seq<Finding>, e: Evidence, p: RangePolicy): seq<Finding>
    requires e.RebalancingEvidence?
  {
    var widthAligned := p.targetWidthTicks % e.tickSpacing == 0;
    acc
    + When(!EndpointsAligned(e), Ex("TICK_ALIGNMENT_INVALID"))
    + When(!widthAligned, Ex("TARGET_WIDTH_NOT_TICK_ALIGNED"))
    + When(!WithinPolicy(e, p), Ex("RANGE_OUTSIDE_POLICY"))
    + When(widthAligned && !AsExpected(e, p), Ex("TARGET_WIDTH_MISMATCH"))
  }

  lemma RangeRaises(acc: seq<Finding>, e: Evidence, p: RangePolicy)
    requires e.RebalancingEvidence?
    ensures Hard(acc) ==> Hard(RaiseRange(acc, e, p))
    ensures |RaiseRange(acc, e, p)| <= |acc| + 4
  {}

  /** The four range checks together accept exactly the unique nearest aligned range. */
  lemma RaiseRangeIff(acc: seq<Finding>, e: Evidence, p: RangePolicy)
    requires e.RebalancingEvidence? && p.targetWidthTicks > 0
    ensures RaiseRange(acc, e, p) == [] <==> acc == [] && RangeOk(e, p)
  {
    var s := e.tickSpacing;
    TickRange.ExpectedIffNearest(e.proposedLowerTick, e.currentTick, p.targetWidthTicks, s);
    if RangeOk(e, p) {
      TickRange.NearestContainsTick(e.proposedLowerTick, e.currentTick, p.targetWidthTicks, s);
      SumAligned(e.proposedLowerTick, p.targetWidthTicks, s);
    }
  }

  lemma SumAligned(a: int, b: int, s: int)
    requires s > 0 && TickRange.Aligned(a, s) && TickRange.Aligned(b, s)
    ensures TickRange.Aligned(a + b, s)
  {
    assert a == a / s * s && b == b / s * s;
    assert a + b == (a / s + b / s) * s;
    TickRange.MultipleIsAligned(a / s + b / s, s);
  }

  predicate WithinCeilings(m: Mandate, q: Quote) {
    && q.estimates.gasUsdMicros <= m.budgets.maxGasUsdMicros
    && q.estimates.slippageBps <= m.budgets.maxSlippageBps
    && q.estimates.exposureUsdMicros <= m.budgets.maxExposureUsdMicros
    && (q.pricing.NormalizedZero? ==> q.pricing.agentFeeUsdMicros <= m.budgets.maxAgentFeeUsdMicros)
  }

  function RaiseCeilings(acc: seq<Finding>, m: Mandate, q: Quote): seq<Finding> {
    acc
    + When(q.estimates.gasUsdMicros > m.budgets.maxGasUsdMicros, Ex("GAS_BUDGET_EXCEEDED"))
    + When(q.estimates.slippageBps > m.budgets.maxSlippageBps, Ex("SLIPPAGE_BUDGET_EXCEEDED"))
    + When(q.estimates.exposureUsdMicros > m.budgets.maxExposureUsdMicros, Ex("EXPOSURE_BUDGET_EXCEEDED"))
    + When(q.pricing.NormalizedZero? && q.pricing.agentFeeUsdMicros > m.budgets.maxAgentFeeUsdMicros,
           Ex("AGENT_FEE_BUDGET_EXCEEDED"))
  }

  lemma CeilingsRaises(acc: seq<Finding>, m: Mandate, q: Quote)
    ensures Hard(acc) ==> Hard(RaiseCeilings(acc, m, q))
    ensures |RaiseCeilings(acc, m, q)| <= |acc| + 4
    ensures RaiseCeilings(acc, m, q) == [] <==> acc == [] && WithinCeilings(m, q)
  {}

  predicate PermissionsOk(m: Mandate, q: Quote, at: int) {
    && q.permissions.spendCapUsdMicros <= m.permissions.maxSpendUsdMicros
    && at < q.permissions.expiresAt <= m.permissions.expiresAt
    && (forall i :: 0 <= i < |q.permissions.contracts| ==> q.permissions.contracts[i] in m.permissions.allowedContracts)
    && (forall i :: 0 <= i < |q.permissions.calls| ==> q.permissions.calls[i] in m.permissions.allowedCalls)
  }

  function RaisePermissions(acc: seq<Finding>, m: Mandate, q: Quote, at: int): seq<Finding> {
    acc
    + When(q.permissions.spendCapUsdMicros > m.permissions.maxSpendUsdMicros, Ex("PERMISSION_SPEND_CAP_EXCEEDED"))
    + When(q.permissions.expiresAt <= at, Ex("PERMISSION_EXPIRED"))
    + When(q.permissions.expiresAt > m.permissions.expiresAt, Ex("PERMISSION_OUTLIVES_MANDATE"))
    + When(exists i :: 0 <= i < |q.permissions.contracts| && q.permissions.contracts[i] !in m.permissions.allowedContracts,
           Ex("PERMISSION_CONTRACT_NOT_ALLOWED"))
    + When(exists i :: 0 <= i < |q.permissions.calls| && q.permissions.calls[i] !in m.permissions.allowedCalls,
           Ex("PERMISSION_CALL_NOT_ALLOWED"))
  }

  lemma PermissionsRaises(acc: seq<Finding>, m: Mandate, q: Quote, at: int)
    ensures Hard(acc) ==> Hard(RaisePermissions(acc, m, q, at))
    ensures |RaisePermissions(acc, m, q, at)| <= |acc| + 5
    ensures RaisePermissions(acc, m, q, at) == [] <==> acc == [] && PermissionsOk(m, q, at)
  {}

  function RaiseQuote(acc: seq<Finding>, m: Mandate, q: Quote, at: int): seq<Finding> {
    RaiseLifetime(
      RaiseTimestamp(RaiseBinding(acc, m, q, at), m, at, q.observedAt, m.maxEvidenceAgeSeconds, QUOTE_CODES), m, q, at)
  }

  function RaiseObservations(acc: seq<Finding>, m: Mandate, q: Quote, at: int): seq<Finding> {
    var a := RaiseTimestamp(acc, m, at, q.estimates.observedAt, m.maxEvidenceAgeSeconds, ESTIMATE_CODES);
    var b := RaiseTimestamp(a, m, at, q.reputation.observedAt, m.maxEvidenceAgeSeconds, REPUTATION_CODES);
    RaisePreview(RaiseNormalization(b, q), m, q, at)
  }

  /** Everything raised before the category evidence is looked at. */
  function RaiseGeneral(m: Mandate, q: Quote, at: int): seq<Finding> {
    RaiseObservations(RaiseQuote(RaiseGates(GateChecks(q.verification)), m, q, at), m, q, at)
  }

  function RaiseForPosition(acc: seq<Finding>, m: Mandate, q: Quote, e: Evidence, p: RangePolicy, at: int): seq<Finding>
    requires e.RebalancingEvidence?
  {
    var a := RaiseTrigger(RaiseAnchors(acc, m, q, e, p, at), e, p);
    RaisePermissions(RaiseCeilings(RaiseRange(a, e, p), m, q), m, q, at)
  }

  /** All findings in the order they are pushed. */
  function Raised(m: Mandate, q: Quote, at: int): seq<Finding>
  {
    var general := RaiseGeneral(m, q, at);
    if !q.evidence.RebalancingEvidence? || m.rebalancing.None? then general
    else RaiseForPosition(general, m, q, q.evidence, m.rebalancing.value, at)
  }

  // ---- eligibility in one declarative sentence ----

  predicate AllGatesPass(v: Verification) {
    && v.identity.Pass? && v.publisher.Pass? && v.endpoint.Pass? && v.taskInterface.Pass? && v.category.Pass?
    && v.quoteCompleteness.Pass?
  }

  /** What a quote must satisfy whatever the time. */
  predicate Fits(m: Mandate, q: Quote)
  {
    && q.category == m.category && m.category.Rebalancing? && q.evidence.RebalancingEvidence? && m.rebalancing.Some?
    && q.mandateId == m.mandateId
    && AllGatesPass(q.verification)
    && q.normalization.Normalized?
    && q.preview.PreviewPassed?
    && q.preview.observedBlock == q.observedBlock && q.preview.observedBlockHash == q.observedBlockHash
    && Anchored(m, q, q.evidence, m.rebalancing.value)
    && TriggerOk(q.evidence, m.rebalancing.value)
    && RangeOk(q.evidence, m.rebalancing.value)
    && WithinCeilings(m, q)
    && q.permissions.spendCapUsdMicros <= m.permissions.maxSpendUsdMicros
    && q.permissions.expiresAt <= m.permissions.expiresAt
    && (forall i :: 0 <= i < |q.permissions.contracts| ==> q.permissions.contracts[i] in m.permissions.allowedContracts)
    && (forall i :: 0 <= i < |q.permissions.calls| ==> q.permissions.calls[i] in m.permissions.allowedCalls)
    && q.expiresAt <= m.expiresAt
    && m.createdAt <= q.observedAt && m.createdAt <= q.estimates.observedAt && m.createdAt <= q.reputation.observedAt
    && m.createdAt <= q.preview.observedAt && m.createdAt <= q.evidence.observedAt
  }

  /** The first second at which an otherwise fitting quote is eligible. */
  function EligibleFrom(m: Mandate, q: Quote): int {
    q.capturedAt - m.maxClockSkewSeconds
  }

  function OldestEvidence(q: Quote): int {
    Min(Min(q.observedAt, q.estimates.observedAt), Min(q.reputation.observedAt, q.evidence.observedAt))
  }

  /** The first second at which it no longer is. */
  function EligibleUntil(m: Mandate, q: Quote): int
    requires q.preview.PreviewPassed?
  {
    Min(Min(q.expiresAt, q.permissions.expiresAt),
        Min(OldestEvidence(q) + m.maxEvidenceAgeSeconds + 1, q.preview.observedAt + m.maxPreviewAgeSeconds + 1))
  }

  predicate GeneralOk(m: Mandate, q: Quote, at: int) {
    && AllGatesPass(q.verification) && BoundAndLive(m, q, at)
    && Timely(m, at, q.observedAt, m.maxEvidenceAgeSeconds) && LifetimeOk(m, q, at)
    && Timely(m, at, q.estimates.observedAt, m.maxEvidenceAgeSeconds)
    && Timely(m, at, q.reputation.observedAt, m.maxEvidenceAgeSeconds)
    && !q.normalization.InconclusiveNormalization? && PreviewOk(m, q, at)
  }

  predicate PositionOk(m: Mandate, q: Quote, e: Evidence, p: RangePolicy, at: int)
    requires e.RebalancingEvidence?
  {
    && Timely(m, at, e.observedAt, m.maxEvidenceAgeSeconds) && Anchored(m, q, e, p)
    && TriggerOk(e, p) && RangeOk(e, p) && WithinCeilings(m, q) && PermissionsOk(m, q, at)
  }

  lemma GeneralIff(m: Mandate, q: Quote, at: int)
    ensures RaiseGeneral(m, q, at) == [] <==> GeneralOk(m, q, at)
    ensures Hard(RaiseGeneral(m, q, at)) && |RaiseGeneral(m, q, at)| <= 27
  {
    GatesIff(q.verification);
    var gates := RaiseGates(GateChecks(q.verification));
    QuoteRaises(gates, m, q, at);
    ObservationsRaise(RaiseQuote(gates, m, q, at), m, q, at);
  }

  lemma QuoteRaises(acc: seq<Finding>, m: Mandate, q: Quote, at: int)
    ensures Hard(acc) ==> Hard(RaiseQuote(acc, m, q, at))
    ensures |RaiseQuote(acc, m, q, at)| <= |acc| + 10
    ensures RaiseQuote(acc, m, q, at) == [] <==>
            acc == [] && BoundAndLive(m, q, at) && Timely(m, at, q.observedAt, m.maxEvidenceAgeSeconds) && LifetimeOk(m, q, at)
  {
    var a := RaiseBinding(acc, m, q, at);
    BindingRaises(acc, m, q, at);
    TimestampRaises(a, m, at, q.observedAt, m.maxEvidenceAgeSeconds, QUOTE_CODES);
    LifetimeRaises(RaiseTimestamp(a, m, at, q.observedAt, m.maxEvidenceAgeSeconds, QUOTE_CODES), m, q, at);
  }

  lemma ObservationsRaise(acc: seq<Finding>, m: Mandate, q: Quote, at: int)
    ensures Hard(acc) ==> Hard(RaiseObservations(acc, m, q, at))
    ensures |RaiseObservations(acc, m, q, at)| <= |acc| + 11
    ensures RaiseObservations(acc, m, q, at) == [] <==>
            && acc == [] && Timely(m, at, q.estimates.observedAt, m.maxEvidenceAgeSeconds)
            && Timely(m, at, q.reputation.observedAt, m.maxEvidenceAgeSeconds)
            && !q.normalization.InconclusiveNormalization? && PreviewOk(m, q, at)
  {
    var a := RaiseTimestamp(acc, m, at, q.estimates.observedAt, m.maxEvidenceAgeSeconds, ESTIMATE_CODES);
    var b := RaiseTimestamp(a, m, at, q.reputation.observedAt, m.maxEvidenceAgeSeconds, REPUTATION_CODES);
    TimestampRaises(acc, m, at, q.estimates.observedAt, m.maxEvidenceAgeSeconds, ESTIMATE_CODES);
    TimestampRaises(a, m, at, q.reputation.observedAt, m.maxEvidenceAgeSeconds, REPUTATION_CODES);
    NormalizationRaises(b, q);
    PreviewRaises(RaiseNormalization(b, q), m, q, at);
  }

  lemma GatesIff(v: Verification)
    ensures RaiseGates(GateChecks(v)) == [] <==> AllGatesPass(v)
    ensures |RaiseGates(GateChecks(v))| <= 6
  {
    var gates := GateChecks(v);
    assert gates[0].state == v.identity && gates[1].state == v.publisher && gates[2].state == v.endpoint;
    assert gates[3].state == v.taskInterface && gates[4].state == v.category && gates[5].state == v.quoteCompleteness;
    assert forall i :: 0 <= i < |gates| ==> gates[i] in gates;
  }

  lemma PositionIff(acc: seq<Finding>, m: Mandate, q: Quote, e: Evidence, p: RangePolicy, at: int)
    requires e.RebalancingEvidence? && p.targetWidthTicks > 0
    ensures RaiseForPosition(acc, m, q, e, p, at) == [] <==> acc == [] && PositionOk(m, q, e, p, at)
    ensures Hard(acc) ==> Hard(RaiseForPosition(acc, m, q, e, p, at))
    ensures |RaiseForPosition(acc, m, q, e, p, at)| <= |acc| + 22
  {
    var anchored := RaiseAnchors(acc, m, q, e, p, at);
    var triggered := RaiseTrigger(anchored, e, p);
    var ranged := RaiseRange(triggered, e, p);
    AnchorsRaises(acc, m, q, e, p, at);
    TriggerRaises(anchored, e, p);
    RangeRaises(triggered, e, p);
    RaiseRangeIff(triggered, e, p);
    CeilingsRaises(ranged, m, q);
    PermissionsRaises(RaiseCeilings(ranged, m, q), m, q, at);
  }

  lemma RebalancingHasPolicy(m: Mandate, q: Quote)
    requires ValidMandate(m) && ValidQuote(q) && q.category == m.category == Rebalancing
    ensures q.evidence.RebalancingEvidence? && m.rebalancing.Some?
    ensures m.rebalancing.value.targetWidthTicks > 0
  {}

  lemma RaisedIff(m: Mandate, q: Quote, at: int)
    requires ValidMandate(m) && ValidQuote(q) && q.category == m.category == Rebalancing
    ensures q.evidence.RebalancingEvidence? && m.rebalancing.Some?
    ensures Raised(m, q, at) == [] <==> GeneralOk(m, q, at) && PositionOk(m, q, q.evidence, m.rebalancing.value, at)
    ensures Hard(Raised(m, q, at)) && |Raised(m, q, at)| <= 49
  {
    RebalancingHasPolicy(m, q);
    GeneralIff(m, q, at);
    var general := RaiseGeneral(m, q, at);
    assert Raised(m, q, at) == RaiseForPosition(general, m, q, q.evidence, m.rebalancing.value, at);
    PositionIff(general, m, q, q.evidence, m.rebalancing.value, at);
  }

  lemma SeparateTimes(m: Mandate, q: Quote, at: int)
    requires ValidMandate(m) && ValidQuote(q) && q.category == m.category == Rebalancing
    requires q.evidence.RebalancingEvidence?
    ensures GeneralOk(m, q, at) && PositionOk(m, q, q.evidence, m.rebalancing.value, at) <==>
            Fits(m, q) && EligibleFrom(m, q) <= at < EligibleUntil(m, q)
  {
    if q.preview.PreviewPassed? && q.expiresAt <= m.expiresAt {
      TimesIff(m, q, at);
    }
  }

  /** For a rebalancing mandate and quote nothing is raised exactly when the quote fits and the time is in its interval. */
  lemma NothingRaisedIff(m: Mandate, q: Quote, at: int)
    requires ValidMandate(m) && ValidQuote(q) && q.category == m.category == Rebalancing
    ensures Raised(m, q, at) == [] <==>
            Fits(m, q) && EligibleFrom(m, q) <= at < EligibleUntil(m, q)
  {
    RaisedIff(m, q, at);
    SeparateTimes(m, q, at);
  }

  /** The timing conditions of the separate checks are one half-open interval. */
  lemma TimesIff(m: Mandate, q: Quote, at: int)
    requires ValidMandate(m) && ValidQuote(q) && q.preview.PreviewPassed? && q.expiresAt <= m.expiresAt
    ensures (&& at < m.expiresAt && LifetimeOk(m, q, at) && at < q.permissions.expiresAt
             && Timely(m, at, q.observedAt, m.maxEvidenceAgeSeconds)
             && Timely(m, at, q.estimates.observedAt, m.maxEvidenceAgeSeconds)
             && Timely(m, at, q.reputation.observedAt, m.maxEvidenceAgeSeconds)
             && Timely(m, at, q.evidence.observedAt, m.maxEvidenceAgeSeconds)
             && Timely(m, at, q.preview.observedAt, m.maxPreviewAgeSeconds))
            <==>
            (&& m.createdAt <= OldestEvidence(q) && m.createdAt <= q.preview.observedAt
             && EligibleFrom(m, q) <= at < EligibleUntil(m, q))
  {}

  // ---- decisions ----

  function Decide(m: Mandate, q: Quote, at: int): Decision {
    if q.category != m.category then
      Decision(m.mandateId, at, q.quoteId, q.candidate, QuoteSha256(q), Excluded, [Ex("MANDATE_CATEGORY_MISMATCH")], None)
    else if q.normalization.UnsupportedNormalization? then
      Decision(m.mandateId, at, q.quoteId, q.candidate, QuoteSha256(q), UnsupportedOutcome,
        [Finding(Unsupported, q.normalization.code)], None)
    else
      var findings := Canonical(Raised(m, q, at));
      var outcome := OutcomeOf(findings);
      Decision(m.mandateId, at, q.quoteId, q.candidate, QuoteSha256(q), outcome, findings,
        if outcome.Eligible? then Some(Ranking.ScoreEligibleQuote(m, q, at)) else None)
  }

  /** Exclusion over inconclusive over eligible, as `decide` computes it. */
  function OutcomeOf(findings: seq<Finding>): Outcome {
    if exists i :: 0 <= i < |findings| && findings[i].kind.Exclusion? then Excluded
    else if exists i :: 0 <= i < |findings| && findings[i].kind.Inconclusive? then InconclusiveOutcome
    else Eligible
  }

  /** The precedence the decision schema recomputes from the findings. */
  function ExpectedOutcome(findings: seq<Finding>): Outcome {
    if exists i :: 0 <= i < |findings| && findings[i].kind.Exclusion? then Excluded
    else if exists i :: 0 <= i < |findings| && findings[i].kind.Inconclusive? then InconclusiveOutcome
    else if exists i :: 0 <= i < |findings| && findings[i].kind.Unsupported? then UnsupportedOutcome
    else Eligible
  }

  /** `marketplaceEligibilityDecisionSchema`. */
  predicate ValidDecision(d: Decision) {
    && 0 < d.evaluatedAt <= MAX_SAFE_INTEGER
    && ValidCandidate(d.candidate)
    && |d.findings| <= 64 && InCanonicalOrder(d.findings)
    && (d.score.Some? ==> ValidScore(d.score.value))
    && d.outcome == ExpectedOutcome(d.findings)
    && (if d.outcome.Eligible? then d.findings == [] && d.score.Some? else d.findings != [] && d.score.None?)
  }

  lemma HardOutcome(fs: seq<Finding>)
    requires Hard(fs)
    ensures OutcomeOf(fs) == ExpectedOutcome(fs)
    ensures OutcomeOf(fs).Eligible? <==> fs == []
  {
    if fs != [] {
      assert fs[0] in fs;
    }
  }

  lemma CanonicalKeepsHard(fs: seq<Finding>)
    requires Hard(fs)
    ensures Hard(Canonical(fs)) && (Canonical(fs) == [] <==> fs == [])
  {
    CanonicalIsCanonical(fs);
    if fs != [] {
      assert fs[0] in Canonical(fs);
    }
  }

  /** A quote is eligible exactly when it fits the mandate and the time lies in one half-open interval of the quote. */
  lemma EligibleIff(m: Mandate, q: Quote, at: int)
    requires ValidMandate(m) && ValidQuote(q)
    ensures Decide(m, q, at).outcome.Eligible? <==>
            Fits(m, q) && EligibleFrom(m, q) <= at < EligibleUntil(m, q)
  {
    if q.category == m.category == Rebalancing {
      NothingRaisedIff(m, q, at);
      RaisedIff(m, q, at);
      CanonicalKeepsHard(Raised(m, q, at));
      HardOutcome(Canonical(Raised(m, q, at)));
    }
  }

  lemma RebalancingDecisionIsValid(m: Mandate, q: Quote, at: int)
    requires ValidMandate(m) && ValidQuote(q) && 0 < at <= MAX_SAFE_INTEGER && q.category == m.category == Rebalancing
    ensures ValidDecision(Decide(m, q, at))
  {
    RaisedIff(m, q, at);
    CanonicalKeepsHard(Raised(m, q, at));
    CanonicalIsCanonical(Raised(m, q, at));
    HardOutcome(Canonical(Raised(m, q, at)));
    Ranking.ClampChangesNothing(m, q, at);
  }

  /** No decision ever violates the decision schema, so the final parse never throws. */
  lemma DecisionIsValid(m: Mandate, q: Quote, at: int)
    requires ValidMandate(m) && ValidQuote(q) && 0 < at <= MAX_SAFE_INTEGER
    ensures ValidDecision(Decide(m, q, at))
  {
    if q.category == m.category == Rebalancing {
      RebalancingDecisionIsValid(m, q, at);
    } else {
      var findings := Decide(m, q, at).findings;
      assert |findings| == 1 && findings[0] in findings;
      assert ExpectedOutcome(findings) == Decide(m, q, at).outcome;
    }
  }

  /** An eligible quote's score lies in the upper half of the scale. */
  lemma EligibleScoreBounds(m: Mandate, q: Quote, at: int)
    requires ValidMandate(m) && ValidQuote(q) && Decide(m, q, at).outcome.Eligible?
    ensures Decide(m, q, at).score == Some(Ranking.ScoreEligibleQuote(m, q, at))
    ensures 500_000 <= Decide(m, q, at).score.value.weightedTotal <= 1_000_000
    ensures 5_000 <= Decide(m, q, at).score.value.scoreBps <= 10_000
  {
    EligibleIff(m, q, at);
    Ranking.ScoreBounds(m, q, at);
  }

  /** The range of an eligible quote is the only aligned one of the target width nearest the tick, and it contains it. */
  lemma EligibleRangeIsUnique(m: Mandate, q: Quote, at: int, lower: int)
    requires ValidMandate(m) && ValidQuote(q) && Decide(m, q, at).outcome.Eligible?
    ensures q.evidence.RebalancingEvidence? && m.rebalancing.Some?
    ensures
      var e, p := q.evidence, m.rebalancing.value;
      && e.proposedLowerTick <= e.currentTick < e.proposedUpperTick == e.proposedLowerTick + p.targetWidthTicks
      && (TickRange.Aligned(lower, e.tickSpacing) && TickRange.Nearest(lower, e.currentTick, p.targetWidthTicks, e.tickSpacing)
          <==> lower == e.proposedLowerTick)
  {
    EligibleIff(m, q, at);
    var e, p := q.evidence, m.rebalancing.value;
    assert RangeOk(e, p);
    TickRange.NearestContainsTick(e.proposedLowerTick, e.currentTick, p.targetWidthTicks, e.tickSpacing);
    TickRange.ExpectedIffNearest(lower, e.currentTick, p.targetWidthTicks, e.tickSpacing);
    TickRange.ExpectedIffNearest(e.proposedLowerTick, e.currentTick, p.targetWidthTicks, e.tickSpacing);
  }

  // ---- loosening a mandate ----

  predicate Includes(more: seq<string>, less: seq<string>) {
    forall x :: x in less ==> x in more
  }

  predicate LooserPolicy(looser: RangePolicy, strict: RangePolicy) {
    && looser.position == strict.position && looser.targetWidthTicks == strict.targetWidthTicks
    && looser.approvedLowerTick <= strict.approvedLowerTick && looser.approvedUpperTick >= strict.approvedUpperTick
    && (looser.triggerMode == strict.triggerMode || looser.triggerMode.BoundaryProximity?)
    && looser.triggerDistanceTicks >= strict.triggerDistanceTicks
  }

  /** Every ceiling is at least as high, every allow-list at least as long, every limit at least as late. */
  predicate Looser(looser: Mandate, strict: Mandate) {
    && looser.mandateId == strict.mandateId && looser.category == strict.category
    && looser.createdAt <= strict.createdAt && looser.expiresAt >= strict.expiresAt
    && looser.maxClockSkewSeconds >= strict.maxClockSkewSeconds
    && looser.maxEvidenceAgeSeconds >= strict.maxEvidenceAgeSeconds
    && looser.maxPreviewAgeSeconds >= strict.maxPreviewAgeSeconds
    && looser.budgets.maxAgentFeeUsdMicros >= strict.budgets.maxAgentFeeUsdMicros
    && looser.budgets.maxGasUsdMicros >= strict.budgets.maxGasUsdMicros
    && looser.budgets.maxSlippageBps >= strict.budgets.maxSlippageBps
    && looser.budgets.maxExposureUsdMicros >= strict.budgets.maxExposureUsdMicros
    && Includes(looser.permissions.allowedProtocols, strict.permissions.allowedProtocols)
    && Includes(looser.permissions.allowedContracts, strict.permissions.allowedContracts)
    && Includes(looser.permissions.allowedCalls, strict.permissions.allowedCalls)
    && looser.permissions.maxSpendUsdMicros >= strict.permissions.maxSpendUsdMicros
    && looser.permissions.expiresAt >= strict.permissions.expiresAt
    && looser.rebalancing.Some? && strict.rebalancing.Some?
    && LooserPolicy(looser.rebalancing.value, strict.rebalancing.value)
  }

  /** Loosening a mandate never takes eligibility away. */
  lemma LooserKeepsEligible(looser: Mandate, strict: Mandate, q: Quote, at: int)
    requires ValidMandate(looser) && ValidMandate(strict) && ValidQuote(q) && Looser(looser, strict)
    requires Decide(strict, q, at).outcome.Eligible?
    ensures Decide(looser, q, at).outcome.Eligible?
  {
    EligibleIff(strict, q, at);
    EligibleIff(looser, q, at);
    LooserFits(looser, strict, q);
  }

  lemma LooserFits(looser: Mandate, strict: Mandate, q: Quote)
    requires Looser(looser, strict) && Fits(strict, q)
    ensures Fits(looser, q)
  {
    assert TriggerOk(q.evidence, looser.rebalancing.value);
    assert RangeOk(q.evidence, looser.rebalancing.value);
    assert Anchored(looser, q, q.evidence, looser.rebalancing.value);
  }

  // ---- the evaluator's own loops and pushes ----

  method AddTimestampFindings(list: FindingList, m: Mandate, at: int, observedAt: int, maxAge: int, codes: TimestampCodes)
    modifies list
    ensures list.items == RaiseTimestamp(old(list.items), m, at, observedAt, maxAge, codes)
  {
    list.AddIf(observedAt < m.createdAt, Ex(codes.precedesMandate));
    list.AddIf(observedAt > at + m.maxClockSkewSeconds, Inc(codes.future));
    list.AddIf(at - observedAt > maxAge, Ex(codes.stale));
  }

  method AddGateFindings(list: FindingList, v: Verification)
    requires list.items == []
    modifies list
    ensures list.items == RaiseGates(GateChecks(v))
  {
    var gates := GateChecks(v);
    for i := 0 to |gates|
      invariant list.items == RaiseGates(gates[..i])
    {
      assert gates[..i + 1][..i] == gates[..i];
      var finding := GateFinding(gates[i]);
      if finding.Some? {
        list.items := list.items + [finding.value];
      }
    }
    assert gates[..|gates|] == gates;
  }

  method AddPreviewFindings(list: FindingList, m: Mandate, q: Quote, at: int)
    modifies list
    ensures list.items == RaisePreview(old(list.items), m, q, at)
  {
    if q.preview.PreviewFailed? {
      list.AddIf(true, Ex("EXECUTION_PREVIEW_FAILED"));
    } else if q.preview.PreviewUnavailable? {
      list.AddIf(true, Inc("EXECUTION_PREVIEW_INCONCLUSIVE"));
    } else {
      AddTimestampFindings(list, m, at, q.preview.observedAt, m.maxPreviewAgeSeconds, PREVIEW_CODES);
      list.AddIf(q.preview.observedBlock != q.observedBlock || q.preview.observedBlockHash != q.observedBlockHash,
        Ex("PREVIEW_BLOCK_MISMATCH"));
    }
  }

  method AddBindingFindings(list: FindingList, m: Mandate, q: Quote, at: int)
    modifies list
    ensures list.items == RaiseBinding(old(list.items), m, q, at)
  {
    list.AddIf(!m.category.Rebalancing?, Ex("MANDATE_CATEGORY_MISMATCH"));
    list.AddIf(q.mandateId != m.mandateId, Ex("MANDATE_ID_MISMATCH"));
    list.AddIf(q.category != m.category, Ex("MANDATE_CATEGORY_MISMATCH"));
    list.AddIf(at >= m.expiresAt, Ex("MANDATE_EXPIRED"));
  }

  method AddLifetimeFindings(list: FindingList, m: Mandate, q: Quote, at: int)
    modifies list
    ensures list.items == RaiseLifetime(old(list.items), m, q, at)
  {
    list.AddIf(q.capturedAt > at + m.maxClockSkewSeconds, Inc("CAPTURE_TIMESTAMP_IN_FUTURE"));
    list.AddIf(q.expiresAt <= at, Ex("QUOTE_EXPIRED"));
    list.AddIf(q.expiresAt > m.expiresAt, Ex("QUOTE_OUTLIVES_MANDATE"));
  }

  method AddQuoteFindings(list: FindingList, m: Mandate, q: Quote, at: int)
    modifies list
    ensures list.items == RaiseQuote(old(list.items), m, q, at)
  {
    AddBindingFindings(list, m, q, at);
    AddTimestampFindings(list, m, at, q.observedAt, m.maxEvidenceAgeSeconds, QUOTE_CODES);
    AddLifetimeFindings(list, m, q, at);
  }

  method AddNormalizationFinding(list: FindingList, q: Quote)
    modifies list
    ensures list.items == RaiseNormalization(old(list.items), q)
  {
    if q.normalization.InconclusiveNormalization? {
      list.AddIf(true, Inc(q.normalization.code));
    }
  }

  method AddObservationFindings(list: FindingList, m: Mandate, q: Quote, at: int)
    modifies list
    ensures list.items == RaiseObservations(old(list.items), m, q, at)
  {
    AddTimestampFindings(list, m, at, q.estimates.observedAt, m.maxEvidenceAgeSeconds, ESTIMATE_CODES);
    AddTimestampFindings(list, m, at, q.reputation.observedAt, m.maxEvidenceAgeSeconds, REPUTATION_CODES);
    AddNormalizationFinding(list, q);
    AddPreviewFindings(list, m, q, at);
  }

  method AddAnchorFindings(list: FindingList, m: Mandate, q: Quote, e: Evidence, p: RangePolicy, at: int)
    requires e.RebalancingEvidence?
    modifies list
    ensures list.items == RaiseAnchors(old(list.items), m, q, e, p, at)
  {
    AddTimestampFindings(list, m, at, e.observedAt, m.maxEvidenceAgeSeconds, EVIDENCE_CODES);
    list.AddIf(e.observedBlock != q.observedBlock || e.observedBlockHash != q.observedBlockHash, Ex("EVIDENCE_BLOCK_MISMATCH"));
    list.AddIf(e.position.poolAddress != p.position.poolAddress
               || e.position.positionManagerAddress != p.position.positionManagerAddress
               || e.position.tokenId != p.position.tokenId, Ex("POSITION_MISMATCH"));
    list.AddIf(e.protocol !in m.permissions.allowedProtocols, Ex("PROTOCOL_NOT_ALLOWED"));
  }

  method AddTriggerFindings(list: FindingList, e: Evidence, p: RangePolicy)
    requires e.RebalancingEvidence?
    modifies list
    ensures list.items == RaiseTrigger(old(list.items), e, p)
  {
    list.AddIf(!e.trigger.fired, Ex("REBALANCE_TRIGGER_NOT_FIRED"));
    var isOutside := e.currentTick < e.currentLowerTick || e.currentTick >= e.currentUpperTick;
    var boundaryDistance := if isOutside then 0 else Min(e.currentTick - e.currentLowerTick, e.currentUpperTick - e.currentTick);
    var valid :=
      && e.trigger.distanceToBoundaryTicks == boundaryDistance
      && e.trigger.reason == if isOutside then OutsideCurrentRange else NearRangeBoundary;
    list.AddIf(!valid, Ex("TRIGGER_EVIDENCE_INVALID"));
    list.AddIf(e.trigger.fired &&
               ((p.triggerMode.OutOfRange? && !isOutside) ||
                (p.triggerMode.BoundaryProximity? && !isOutside && boundaryDistance > p.triggerDistanceTicks)),
      Ex("TRIGGER_POLICY_MISMATCH"));
  }

  method AddRangeFindings(list: FindingList, e: Evidence, p: RangePolicy)
    requires e.RebalancingEvidence?
    modifies list
    ensures list.items == RaiseRange(old(list.items), e, p)
  {
    list.AddIf(!EndpointsAligned(e), Ex("TICK_ALIGNMENT_INVALID"));
    var targetWidthAligned := p.targetWidthTicks % e.tickSpacing == 0;
    list.AddIf(!targetWidthAligned, Ex("TARGET_WIDTH_NOT_TICK_ALIGNED"));
    var expectedLower, expectedUpper := 0, 0;
    if targetWidthAligned {
      expectedLower := (2 * e.currentTick - p.targetWidthTicks + e.tickSpacing) / (2 * e.tickSpacing) * e.tickSpacing;
      expectedUpper := expectedLower + p.targetWidthTicks;
    }
    list.AddIf(!WithinPolicy(e, p), Ex("RANGE_OUTSIDE_POLICY"));
    list.AddIf(targetWidthAligned &&
               (e.proposedUpperTick - e.proposedLowerTick != p.targetWidthTicks
                || e.proposedLowerTick != expectedLower || e.proposedUpperTick != expectedUpper),
      Ex("TARGET_WIDTH_MISMATCH"));
  }

  method AddCeilingFindings(list: FindingList, m: Mandate, q: Quote)
    modifies list
    ensures list.items == RaiseCeilings(old(list.items), m, q)
  {
    list.AddIf(q.estimates.gasUsdMicros > m.budgets.maxGasUsdMicros, Ex("GAS_BUDGET_EXCEEDED"));
    list.AddIf(q.estimates.slippageBps > m.budgets.maxSlippageBps, Ex("SLIPPAGE_BUDGET_EXCEEDED"));
    list.AddIf(q.estimates.exposureUsdMicros > m.budgets.maxExposureUsdMicros, Ex("EXPOSURE_BUDGET_EXCEEDED"));
    if q.pricing.NormalizedZero? {
      list.AddIf(q.pricing.agentFeeUsdMicros > m.budgets.maxAgentFeeUsdMicros, Ex("AGENT_FEE_BUDGET_EXCEEDED"));
    }
  }

  method AddPermissionFindings(list: FindingList, m: Mandate, q: Quote, at: int)
    modifies list
    ensures list.items == RaisePermissions(old(list.items), m, q, at)
  {
    list.AddIf(q.permissions.spendCapUsdMicros > m.permissions.maxSpendUsdMicros, Ex("PERMISSION_SPEND_CAP_EXCEEDED"));
    list.AddIf(q.permissions.expiresAt <= at, Ex("PERMISSION_EXPIRED"));
    list.AddIf(q.permissions.expiresAt > m.permissions.expiresAt, Ex("PERMISSION_OUTLIVES_MANDATE"));
    list.AddIf(exists i :: 0 <= i < |q.permissions.contracts| && q.permissions.contracts[i] !in m.permissions.allowedContracts,
      Ex("PERMISSION_CONTRACT_NOT_ALLOWED"));
    list.AddIf(exists i :: 0 <= i < |q.permissions.calls| && q.permissions.calls[i] !in m.permissions.allowedCalls,
      Ex("PERMISSION_CALL_NOT_ALLOWED"));
  }

  method AddPositionFindings(list: FindingList, m: Mandate, q: Quote, e: Evidence, p: RangePolicy, at: int)
    requires e.RebalancingEvidence?
    modifies list
    ensures list.items == RaiseForPosition(old(list.items), m, q, e, p, at)
  {
    AddAnchorFindings(list, m, q, e, p, at);
    AddTriggerFindings(list, e, p);
    AddRangeFindings(list, e, p);
    AddCeilingFindings(list, m, q);
    AddPermissionFindings(list, m, q, at);
  }

  method AddAllFindings(list: FindingList, m: Mandate, q: Quote, at: int)
    requires list.items == []
    modifies list
    ensures list.items == Raised(m, q, at)
  {
    AddGateFindings(list, q.verification);
    AddQuoteFindings(list, m, q, at);
    AddObservationFindings(list, m, q, at);
    if q.evidence.RebalancingEvidence? && m.rebalancing.Some? {
      AddPositionFindings(list, m, q, q.evidence, m.rebalancing.value, at);
    }
  }

  /** `rebalancingFindings`. */
  method RebalancingFindings(m: Mandate, q: Quote, at: int) returns (sorted: seq<Finding>)
    ensures sorted == Canonical(Raised(m, q, at))
  {
    var list := new FindingList();
    AddAllFindings(list, m, q, at);
    sorted := SortFindings(list.items);
  }
}
