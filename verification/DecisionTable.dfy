/**
 Why a quote is excluded or inconclusive (`evaluate.ts`), as one table from findings to conditions on the mandate, the
 quote and the time; nothing here pushes, sorts or looks a finding up.
 */
module DecisionTable {
  import opened Foundations
  import opened Marketplace
  import opened Findings
  import opened Eligibility
  import TickRange

  // ---- the table ----

  predicate DueGate(f: Finding, v: Verification) {
    || (f == Finding(Exclusion, "IDENTITY_UNAVAILABLE") && v.identity == Fail)
    || (f == Finding(Inconclusive, "IDENTITY_CHECK_INCONCLUSIVE") && v.identity == Unknown)
    || (f == Finding(Exclusion, "PUBLISHER_UNKNOWN") && v.publisher == Fail)
    || (f == Finding(Inconclusive, "PUBLISHER_CHECK_INCONCLUSIVE") && v.publisher == Unknown)
    || (f == Finding(Exclusion, "AGENT_UNREACHABLE") && v.endpoint == Fail)
    || (f == Finding(Inconclusive, "ENDPOINT_CHECK_INCONCLUSIVE") && v.endpoint == Unknown)
    || (f == Finding(Exclusion, "TASK_INTERFACE_UNSUPPORTED") && v.taskInterface == Fail)
    || (f == Finding(Inconclusive, "TASK_INTERFACE_CHECK_INCONCLUSIVE") && v.taskInterface == Unknown)
    || (f == Finding(Exclusion, "CATEGORY_UNVERIFIED") && v.category == Fail)
    || (f == Finding(Inconclusive, "CATEGORY_CHECK_INCONCLUSIVE") && v.category == Unknown)
    || (f == Finding(Exclusion, "QUOTE_INCOMPLETE") && v.quoteCompleteness == Fail)
    || (f == Finding(Inconclusive, "QUOTE_COMPLETENESS_INCONCLUSIVE") && v.quoteCompleteness == Unknown)
  }

  /** A dated observation, with the codes for too early, too old and ahead of the clock. */
  predicate DueTime(f: Finding, m: Mandate, at: int, observedAt: int, maxAge: int, early: string, stale: string, ahead: string) {
    || (f == Finding(Exclusion, early) && observedAt < m.createdAt)
    || (f == Finding(Exclusion, stale) && observedAt + maxAge < at)
    || (f == Finding(Inconclusive, ahead) && observedAt - m.maxClockSkewSeconds > at)
  }

  predicate DueQuote(f: Finding, m: Mandate, q: Quote, at: int) {
    || (f == Finding(Exclusion, "MANDATE_ID_MISMATCH") && q.mandateId != m.mandateId)
    || (f == Finding(Exclusion, "MANDATE_EXPIRED") && m.expiresAt <= at)
    || DueTime(f, m, at, q.observedAt, m.maxEvidenceAgeSeconds, "QUOTE_PRECEDES_MANDATE", "QUOTE_STALE", "QUOTE_TIMESTAMP_IN_FUTURE")
    || (f == Finding(Inconclusive, "CAPTURE_TIMESTAMP_IN_FUTURE") && q.capturedAt - m.maxClockSkewSeconds > at)
    || (f == Finding(Exclusion, "QUOTE_EXPIRED") && q.expiresAt <= at)
    || (f == Finding(Exclusion, "QUOTE_OUTLIVES_MANDATE") && m.expiresAt < q.expiresAt)
  }

  predicate DueObservation(f: Finding, m: Mandate, q: Quote, at: int) {
    || DueTime(f, m, at, q.estimates.observedAt, m.maxEvidenceAgeSeconds,
         "ESTIMATE_PRECEDES_MANDATE", "ESTIMATE_STALE", "ESTIMATE_TIMESTAMP_IN_FUTURE")
    || DueTime(f, m, at, q.reputation.observedAt, m.maxEvidenceAgeSeconds,
         "REPUTATION_PRECEDES_MANDATE", "REPUTATION_STALE", "REPUTATION_TIMESTAMP_IN_FUTURE")
    || (f == Finding(Inconclusive, "PRICING_USD_UNAVAILABLE") && q.pricing.UsdUnavailable?)
    || DuePreview(f, m, q, at)
  }

  predicate DuePreview(f: Finding, m: Mandate, q: Quote, at: int) {
    match q.preview
    case PreviewFailed(_) => f == Finding(Exclusion, "EXECUTION_PREVIEW_FAILED")
    case PreviewUnavailable => f == Finding(Inconclusive, "EXECUTION_PREVIEW_INCONCLUSIVE")
    case PreviewPassed(observedAt, block, hash) =>
      || DueTime(f, m, at, observedAt, m.maxPreviewAgeSeconds, "PREVIEW_PRECEDES_MANDATE", "PREVIEW_STALE", "PREVIEW_TIMESTAMP_IN_FUTURE")
      || (f == Finding(Exclusion, "PREVIEW_BLOCK_MISMATCH") && (block, hash) != (q.observedBlock, q.observedBlockHash))
  }

  predicate DueEvidence(f: Finding, m: Mandate, q: Quote, e: Evidence, p: RangePolicy, at: int)
    requires e.RebalancingEvidence?
  {
    || DueTime(f, m, at, e.observedAt, m.maxEvidenceAgeSeconds,
         "CATEGORY_EVIDENCE_PRECEDES_MANDATE", "CATEGORY_EVIDENCE_STALE", "CATEGORY_EVIDENCE_TIMESTAMP_IN_FUTURE")
    || (f == Finding(Exclusion, "EVIDENCE_BLOCK_MISMATCH")
        && (e.observedBlock, e.observedBlockHash) != (q.observedBlock, q.observedBlockHash))
    || (f == Finding(Exclusion, "POSITION_MISMATCH") && e.position != p.position)
    || (f == Finding(Exclusion, "PROTOCOL_NOT_ALLOWED") && e.protocol !in m.permissions.allowedProtocols)
  }

  /** The current tick lies in the position's range. */
  predicate InRange(e: Evidence)
    requires e.RebalancingEvidence?
  {
    e.currentLowerTick <= e.currentTick < e.currentUpperTick
  }

  /** The number of ticks to the nearer end of the range, none when outside it. */
  predicate IsDistance(e: Evidence, d: int)
    requires e.RebalancingEvidence?
  {
    if InRange(e)
    then
      && d <= e.currentTick - e.currentLowerTick && d <= e.currentUpperTick - e.currentTick
      && d in {e.currentTick - e.currentLowerTick, e.currentUpperTick - e.currentTick}
    else d == 0
  }

  predicate DueTrigger(f: Finding, e: Evidence, p: RangePolicy)
    requires e.RebalancingEvidence?
  {
    || (f == Finding(Exclusion, "REBALANCE_TRIGGER_NOT_FIRED") && !e.trigger.fired)
    || (f == Finding(Exclusion, "TRIGGER_EVIDENCE_INVALID")
        && !(IsDistance(e, e.trigger.distanceToBoundaryTicks) && (e.trigger.reason == NearRangeBoundary <==> InRange(e))))
    || (f == Finding(Exclusion, "TRIGGER_POLICY_MISMATCH") && e.trigger.fired && InRange(e)
        && (p.triggerMode == OutOfRange
            || (e.currentLowerTick + p.triggerDistanceTicks < e.currentTick
                && e.currentTick + p.triggerDistanceTicks < e.currentUpperTick)))
  }

  predicate Multiple(n: int, s: int)
    requires s > 0
  {
    n % s == 0
  }

  /** The proposed range is the one of the target width whose middle lies nearest the tick, the upper one at a tie. */
  predicate IsCentred(e: Evidence, p: RangePolicy)
    requires e.RebalancingEvidence?
  {
    && e.proposedUpperTick == e.proposedLowerTick + p.targetWidthTicks && Multiple(e.proposedLowerTick, e.tickSpacing)
    && 2 * e.currentTick - e.tickSpacing < e.proposedLowerTick + e.proposedUpperTick <= 2 * e.currentTick + e.tickSpacing
  }

  predicate DueRange(f: Finding, e: Evidence, p: RangePolicy)
    requires e.RebalancingEvidence?
  {
    || (f == Finding(Exclusion, "TICK_ALIGNMENT_INVALID")
        && !(Multiple(e.currentLowerTick, e.tickSpacing) && Multiple(e.currentUpperTick, e.tickSpacing)
             && Multiple(e.proposedLowerTick, e.tickSpacing) && Multiple(e.proposedUpperTick, e.tickSpacing)))
    || (f == Finding(Exclusion, "TARGET_WIDTH_NOT_TICK_ALIGNED") && !Multiple(p.targetWidthTicks, e.tickSpacing))
    || (f == Finding(Exclusion, "TARGET_WIDTH_MISMATCH") && Multiple(p.targetWidthTicks, e.tickSpacing) && !IsCentred(e, p))
    || (f == Finding(Exclusion, "RANGE_OUTSIDE_POLICY")
        && !(p.approvedLowerTick <= e.proposedLowerTick <= e.currentTick < e.proposedUpperTick <= p.approvedUpperTick))
  }

  predicate DueCeiling(f: Finding, m: Mandate, q: Quote) {
    || (f == Finding(Exclusion, "GAS_BUDGET_EXCEEDED") && q.estimates.gasUsdMicros > m.budgets.maxGasUsdMicros)
    || (f == Finding(Exclusion, "SLIPPAGE_BUDGET_EXCEEDED") && q.estimates.slippageBps > m.budgets.maxSlippageBps)
    || (f == Finding(Exclusion, "EXPOSURE_BUDGET_EXCEEDED") && q.estimates.exposureUsdMicros > m.budgets.maxExposureUsdMicros)
    || (f == Finding(Exclusion, "AGENT_FEE_BUDGET_EXCEEDED") && q.pricing.NormalizedZero?
        && q.pricing.agentFeeUsdMicros > m.budgets.maxAgentFeeUsdMicros)
  }

  predicate AllIn(asked: seq<string>, allowed: seq<string>) { forall x :: x in asked ==> x in allowed }

  predicate DuePermission(f: Finding, m: Mandate, q: Quote, at: int) {
    || (f == Finding(Exclusion, "PERMISSION_SPEND_CAP_EXCEEDED") && q.permissions.spendCapUsdMicros > m.permissions.maxSpendUsdMicros)
    || (f == Finding(Exclusion, "PERMISSION_EXPIRED") && q.permissions.expiresAt <= at)
    || (f == Finding(Exclusion, "PERMISSION_OUTLIVES_MANDATE") && q.permissions.expiresAt > m.permissions.expiresAt)
    || (f == Finding(Exclusion, "PERMISSION_CONTRACT_NOT_ALLOWED") && !AllIn(q.permissions.contracts, m.permissions.allowedContracts))
    || (f == Finding(Exclusion, "PERMISSION_CALL_NOT_ALLOWED") && !AllIn(q.permissions.calls, m.permissions.allowedCalls))
  }

  /** The finding is due: for another category the mismatch, for an unsupported one its code, otherwise by the table. */
  predicate Due(f: Finding, m: Mandate, q: Quote, at: int) {
    if q.category != m.category then f == Finding(Exclusion, "MANDATE_CATEGORY_MISMATCH")
    else
      match q.category
      case Grid => f == Finding(Unsupported, "CATEGORY_GRID_UNSUPPORTED")
      case Yield => f == Finding(Unsupported, "CATEGORY_YIELD_UNSUPPORTED")
      case Health => f == Finding(Unsupported, "CATEGORY_HEALTH_UNSUPPORTED")
      case Rebalancing =>
        || DueGate(f, q.verification) || DueQuote(f, m, q, at) || DueObservation(f, m, q, at)
        || DueCeiling(f, m, q) || DuePermission(f, m, q, at)
        || (q.evidence.RebalancingEvidence? && m.rebalancing.Some?
            && (DueEvidence(f, m, q, q.evidence, m.rebalancing.value, at) || DueTrigger(f, q.evidence, m.rebalancing.value)
                || DueRange(f, q.evidence, m.rebalancing.value)))
  }

  // ---- what is raised is what is due ----

  predicate DueOf(f: Finding, g: GateCheck) {
    (f == Finding(Exclusion, g.failed) && g.state == Fail) || (f == Finding(Inconclusive, g.unknown) && g.state == Unknown)
  }

  lemma {:induction false} GateRaised(gates: seq<GateCheck>, f: Finding)
    ensures f in RaiseGates(gates) <==> exists i :: 0 <= i < |gates| && DueOf(f, gates[i])
  {
    if gates != [] {
      var front, last := gates[..|gates| - 1], gates[|gates| - 1];
      assert gates == front + [last];
      GateRaised(front, f);
      if i :| 0 <= i < |gates| && DueOf(f, gates[i]) {
        if i < |front| {
          assert DueOf(f, front[i]);
        }
      }
    }
  }

  lemma SixGates(gates: seq<GateCheck>, f: Finding)
    requires |gates| == 6
    ensures (exists i :: 0 <= i < |gates| && DueOf(f, gates[i])) <==>
            || DueOf(f, gates[0]) || DueOf(f, gates[1]) || DueOf(f, gates[2]) || DueOf(f, gates[3])
            || DueOf(f, gates[4]) || DueOf(f, gates[5])
  {}

  lemma GatesDue(v: Verification, f: Finding)
    ensures f in RaiseGates(GateChecks(v)) <==> DueGate(f, v)
  {
    GateRaised(GateChecks(v), f);
    SixGates(GateChecks(v), f);
  }

  lemma TimeDue(
    acc: seq<Finding>, m: Mandate, at: int, observedAt: int, maxAge: int, codes: TimestampCodes, f: Finding)
    ensures f in RaiseTimestamp(acc, m, at, observedAt, maxAge, codes) <==>
            f in acc || DueTime(f, m, at, observedAt, maxAge, codes.precedesMandate, codes.stale, codes.future)
  {}

  lemma BindingDue(acc: seq<Finding>, m: Mandate, q: Quote, at: int, f: Finding)
    requires q.category == m.category == Rebalancing
    ensures f in RaiseBinding(acc, m, q, at) <==>
            || f in acc || (f == Finding(Exclusion, "MANDATE_ID_MISMATCH") && q.mandateId != m.mandateId)
            || (f == Finding(Exclusion, "MANDATE_EXPIRED") && m.expiresAt <= at)
  {}

  lemma LifetimeDue(acc: seq<Finding>, m: Mandate, q: Quote, at: int, f: Finding)
    ensures f in RaiseLifetime(acc, m, q, at) <==>
            || f in acc || (f == Finding(Inconclusive, "CAPTURE_TIMESTAMP_IN_FUTURE") && q.capturedAt - m.maxClockSkewSeconds > at)
            || (f == Finding(Exclusion, "QUOTE_EXPIRED") && q.expiresAt <= at)
            || (f == Finding(Exclusion, "QUOTE_OUTLIVES_MANDATE") && m.expiresAt < q.expiresAt)
  {}

  lemma QuoteDue(acc: seq<Finding>, m: Mandate, q: Quote, at: int, f: Finding)
    requires q.category == m.category == Rebalancing
    ensures f in RaiseQuote(acc, m, q, at) <==> f in acc || DueQuote(f, m, q, at)
  {
    var a := RaiseBinding(acc, m, q, at);
    BindingDue(acc, m, q, at, f);
    TimeDue(a, m, at, q.observedAt, m.maxEvidenceAgeSeconds, QUOTE_CODES, f);
    LifetimeDue(RaiseTimestamp(a, m, at, q.observedAt, m.maxEvidenceAgeSeconds, QUOTE_CODES), m, q, at, f);
  }

  lemma PreviewDue(acc: seq<Finding>, m: Mandate, q: Quote, at: int, f: Finding)
    ensures f in RaisePreview(acc, m, q, at) <==> f in acc || DuePreview(f, m, q, at)
  {
    if q.preview.PreviewPassed? {
      TimeDue(acc, m, at, q.preview.observedAt, m.maxPreviewAgeSeconds, PREVIEW_CODES, f);
    }
  }

  lemma PriceDue(acc: seq<Finding>, q: Quote, f: Finding)
    requires ValidQuote(q) && q.category.Rebalancing?
    ensures f in RaiseNormalization(acc, q) <==>
            f in acc || (f == Finding(Inconclusive, "PRICING_USD_UNAVAILABLE") && q.pricing.UsdUnavailable?)
  {}

  lemma ObservationsDue(acc: seq<Finding>, m: Mandate, q: Quote, at: int, f: Finding)
    requires ValidQuote(q) && q.category.Rebalancing?
    ensures f in RaiseObservations(acc, m, q, at) <==> f in acc || DueObservation(f, m, q, at)
  {
    var a := RaiseTimestamp(acc, m, at, q.estimates.observedAt, m.maxEvidenceAgeSeconds, ESTIMATE_CODES);
    var b := RaiseTimestamp(a, m, at, q.reputation.observedAt, m.maxEvidenceAgeSeconds, REPUTATION_CODES);
    TimeDue(acc, m, at, q.estimates.observedAt, m.maxEvidenceAgeSeconds, ESTIMATE_CODES, f);
    TimeDue(a, m, at, q.reputation.observedAt, m.maxEvidenceAgeSeconds, REPUTATION_CODES, f);
    PriceDue(b, q, f);
    PreviewDue(RaiseNormalization(b, q), m, q, at, f);
  }

  lemma EvidenceDue(acc: seq<Finding>, m: Mandate, q: Quote, e: Evidence, p: RangePolicy, at: int, f: Finding)
    requires e.RebalancingEvidence?
    ensures f in RaiseAnchors(acc, m, q, e, p, at) <==> f in acc || DueEvidence(f, m, q, e, p, at)
  {
    TimeDue(acc, m, at, e.observedAt, m.maxEvidenceAgeSeconds, EVIDENCE_CODES, f);
  }

  lemma DistanceIs(e: Evidence, d: int)
    requires e.RebalancingEvidence?
    ensures IsDistance(e, d) <==> d == BoundaryDistance(e)
    ensures InRange(e) <==> !IsOutside(e)
  {}

  lemma TriggerDue(acc: seq<Finding>, e: Evidence, p: RangePolicy, f: Finding)
    requires e.RebalancingEvidence?
    ensures f in RaiseTrigger(acc, e, p) <==> f in acc || DueTrigger(f, e, p)
  {
    DistanceIs(e, e.trigger.distanceToBoundaryTicks);
  }

  lemma CentredIs(e: Evidence, p: RangePolicy)
    requires e.RebalancingEvidence?
    ensures IsCentred(e, p) <==> AsExpected(e, p)
  {
    TickRange.ExpectedIffNearest(e.proposedLowerTick, e.currentTick, p.targetWidthTicks, e.tickSpacing);
  }

  lemma RangeDue(acc: seq<Finding>, e: Evidence, p: RangePolicy, f: Finding)
    requires e.RebalancingEvidence?
    ensures f in RaiseRange(acc, e, p) <==> f in acc || DueRange(f, e, p)
  {
    CentredIs(e, p);
  }

  lemma CeilingsDue(acc: seq<Finding>, m: Mandate, q: Quote, f: Finding)
    ensures f in RaiseCeilings(acc, m, q) <==> f in acc || DueCeiling(f, m, q)
  {}

  lemma AllInIff(asked: seq<string>, allowed: seq<string>)
    ensures AllIn(asked, allowed) <==> !(exists i :: 0 <= i < |asked| && asked[i] !in allowed)
  {}

  lemma PermissionsDue(acc: seq<Finding>, m: Mandate, q: Quote, at: int, f: Finding)
    ensures f in RaisePermissions(acc, m, q, at) <==> f in acc || DuePermission(f, m, q, at)
  {
    AllInIff(q.permissions.contracts, m.permissions.allowedContracts);
    AllInIff(q.permissions.calls, m.permissions.allowedCalls);
  }

  lemma PositionDue(acc: seq<Finding>, m: Mandate, q: Quote, e: Evidence, p: RangePolicy, at: int, f: Finding)
    requires e.RebalancingEvidence?
    ensures f in RaiseForPosition(acc, m, q, e, p, at) <==>
            || f in acc || DueEvidence(f, m, q, e, p, at) || DueTrigger(f, e, p) || DueRange(f, e, p)
            || DueCeiling(f, m, q) || DuePermission(f, m, q, at)
  {
    var anchored := RaiseAnchors(acc, m, q, e, p, at);
    var triggered := RaiseTrigger(anchored, e, p);
    var ranged := RaiseRange(triggered, e, p);
    EvidenceDue(acc, m, q, e, p, at, f);
    TriggerDue(anchored, e, p, f);
    RangeDue(triggered, e, p, f);
    CeilingsDue(ranged, m, q, f);
    PermissionsDue(RaiseCeilings(ranged, m, q), m, q, at, f);
  }

  lemma GeneralDue(m: Mandate, q: Quote, at: int, f: Finding)
    requires ValidQuote(q) && q.category == m.category == Rebalancing
    ensures f in RaiseGeneral(m, q, at) <==> DueGate(f, q.verification) || DueQuote(f, m, q, at) || DueObservation(f, m, q, at)
  {
    var gates := RaiseGates(GateChecks(q.verification));
    GatesDue(q.verification, f);
    QuoteDue(gates, m, q, at, f);
    ObservationsDue(RaiseQuote(gates, m, q, at), m, q, at, f);
  }

  lemma RaisedIsDue(m: Mandate, q: Quote, at: int, f: Finding)
    requires ValidMandate(m) && ValidQuote(q) && q.category == m.category == Rebalancing
    ensures f in Raised(m, q, at) <==> Due(f, m, q, at)
  {
    RebalancingHasPolicy(m, q);
    GeneralDue(m, q, at, f);
    PositionDue(RaiseGeneral(m, q, at), m, q, q.evidence, m.rebalancing.value, at, f);
  }

  /** The findings of a decision are exactly those due. */
  lemma FindingsAreDue(m: Mandate, q: Quote, at: int, f: Finding)
    requires ValidMandate(m) && ValidQuote(q)
    ensures f in Decide(m, q, at).findings <==> Due(f, m, q, at)
  {
    if q.category == m.category == Rebalancing {
      RaisedIsDue(m, q, at, f);
      CanonicalIsCanonical(Raised(m, q, at));
    } else if q.category == m.category {
      assert Decide(m, q, at).findings == [Finding(Unsupported, q.normalization.code)];
    }
  }

  // ---- the outcome ----

  predicate SomeGate(v: Verification, g: Gate) {
    || v.identity == g || v.publisher == g || v.endpoint == g || v.taskInterface == g || v.category == g
    || v.quoteCompleteness == g
  }

  /** Observed before the mandate was made, or too long ago. */
  predicate Outdated(m: Mandate, at: int, observedAt: int, maxAge: int) {
    observedAt < m.createdAt || observedAt + maxAge < at
  }

  predicate Ahead(m: Mandate, at: int, observedAt: int) { at + m.maxClockSkewSeconds < observedAt }

  predicate QuoteExcludes(m: Mandate, q: Quote, at: int) {
    || q.mandateId != m.mandateId || m.expiresAt <= at || q.expiresAt <= at || m.expiresAt < q.expiresAt
    || Outdated(m, at, q.observedAt, m.maxEvidenceAgeSeconds)
  }

  predicate PreviewWrong(m: Mandate, q: Quote, at: int) {
    || q.preview.PreviewFailed?
    || (q.preview.PreviewPassed?
        && (Outdated(m, at, q.preview.observedAt, m.maxPreviewAgeSeconds)
            || (q.preview.observedBlock, q.preview.observedBlockHash) != (q.observedBlock, q.observedBlockHash)))
  }

  predicate PreviewUnknown(m: Mandate, q: Quote, at: int) {
    q.preview.PreviewUnavailable? || (q.preview.PreviewPassed? && Ahead(m, at, q.preview.observedAt))
  }

  predicate ObservationExcludes(m: Mandate, q: Quote, at: int) {
    || Outdated(m, at, q.estimates.observedAt, m.maxEvidenceAgeSeconds)
    || Outdated(m, at, q.reputation.observedAt, m.maxEvidenceAgeSeconds)
    || PreviewWrong(m, q, at)
  }

  predicate AnchorsWrong(m: Mandate, q: Quote, e: Evidence, p: RangePolicy, at: int)
    requires e.RebalancingEvidence?
  {
    || Outdated(m, at, e.observedAt, m.maxEvidenceAgeSeconds)
    || (e.observedBlock, e.observedBlockHash) != (q.observedBlock, q.observedBlockHash)
    || e.position != p.position || e.protocol !in m.permissions.allowedProtocols
  }

  predicate EvidenceExcludes(m: Mandate, q: Quote, e: Evidence, p: RangePolicy, at: int)
    requires e.RebalancingEvidence?
  {
    AnchorsWrong(m, q, e, p, at) || !TriggerOk(e, p) || !RangeOk(e, p)
  }

  predicate BudgetExcludes(m: Mandate, q: Quote, at: int) {
    || q.estimates.gasUsdMicros > m.budgets.maxGasUsdMicros || q.estimates.slippageBps > m.budgets.maxSlippageBps
    || q.estimates.exposureUsdMicros > m.budgets.maxExposureUsdMicros
    || (q.pricing.NormalizedZero? && q.pricing.agentFeeUsdMicros > m.budgets.maxAgentFeeUsdMicros)
    || q.permissions.spendCapUsdMicros > m.permissions.maxSpendUsdMicros
    || !(at < q.permissions.expiresAt <= m.permissions.expiresAt)
    || !AllIn(q.permissions.contracts, m.permissions.allowedContracts) || !AllIn(q.permissions.calls, m.permissions.allowedCalls)
  }

  /** Something is wrong with a rebalancing quote, whatever else is unknown. */
  predicate SomethingWrong(m: Mandate, q: Quote, at: int)
    requires q.evidence.RebalancingEvidence? && m.rebalancing.Some?
  {
    || SomeGate(q.verification, Fail) || QuoteExcludes(m, q, at) || ObservationExcludes(m, q, at)
    || EvidenceExcludes(m, q, q.evidence, m.rebalancing.value, at) || BudgetExcludes(m, q, at)
  }

  /** Something about it cannot be told yet: a gate, a time ahead of the clock, the preview or the price. */
  predicate SomethingUnknown(m: Mandate, q: Quote, at: int)
    requires q.evidence.RebalancingEvidence?
  {
    || SomeGate(q.verification, Unknown)
    || Ahead(m, at, q.observedAt) || Ahead(m, at, q.capturedAt) || Ahead(m, at, q.estimates.observedAt)
    || Ahead(m, at, q.reputation.observedAt) || Ahead(m, at, q.evidence.observedAt)
    || PreviewUnknown(m, q, at) || q.pricing.UsdUnavailable?
  }

  /** Some finding of the list is of this kind. */
  predicate HasKind(fs: seq<Finding>, k: FindingKind) {
    fs != [] && (fs[|fs| - 1].kind == k || HasKind(fs[..|fs| - 1], k))
  }

  lemma {:induction false} HasKindIff(fs: seq<Finding>, k: FindingKind)
    ensures HasKind(fs, k) <==> exists i :: 0 <= i < |fs| && fs[i].kind == k
  {
    if fs != [] {
      HasKindIff(fs[..|fs| - 1], k);
    }
  }

  lemma {:induction false} SameKinds(fs: seq<Finding>, gs: seq<Finding>, k: FindingKind)
    requires forall f :: f in fs <==> f in gs
    ensures HasKind(fs, k) <==> HasKind(gs, k)
  {
    HasKindIff(fs, k);
    HasKindIff(gs, k);
    if HasKind(fs, k) {
      var i :| 0 <= i < |fs| && fs[i].kind == k;
      assert fs[i] in gs;
    }
    if HasKind(gs, k) {
      var i :| 0 <= i < |gs| && gs[i].kind == k;
      assert gs[i] in fs;
    }
  }

  lemma AddsKind(acc: seq<Finding>, condition: bool, f: Finding, k: FindingKind)
    ensures HasKind(acc + When(condition, f), k) <==> HasKind(acc, k) || (condition && f.kind == k)
  {
    if condition {
      assert (acc + [f])[..|acc|] == acc;
    } else {
      assert acc + [] == acc;
    }
  }

  lemma FailedGate(v: Verification) returns (f: Finding)
    requires SomeGate(v, Fail)
    ensures f.kind == Exclusion && DueGate(f, v)
  {
    f := Finding(Exclusion,
      if v.identity == Fail then "IDENTITY_UNAVAILABLE" else if v.publisher == Fail then "PUBLISHER_UNKNOWN"
      else if v.endpoint == Fail then "AGENT_UNREACHABLE" else if v.taskInterface == Fail then "TASK_INTERFACE_UNSUPPORTED"
      else if v.category == Fail then "CATEGORY_UNVERIFIED" else "QUOTE_INCOMPLETE");
  }

  lemma UnknownGate(v: Verification) returns (f: Finding)
    requires SomeGate(v, Unknown)
    ensures f.kind == Inconclusive && DueGate(f, v)
  {
    f := Finding(Inconclusive,
      if v.identity == Unknown then "IDENTITY_CHECK_INCONCLUSIVE"
      else if v.publisher == Unknown then "PUBLISHER_CHECK_INCONCLUSIVE"
      else if v.endpoint == Unknown then "ENDPOINT_CHECK_INCONCLUSIVE"
      else if v.taskInterface == Unknown then "TASK_INTERFACE_CHECK_INCONCLUSIVE"
      else if v.category == Unknown then "CATEGORY_CHECK_INCONCLUSIVE" else "QUOTE_COMPLETENESS_INCONCLUSIVE");
  }

  lemma HasIt(fs: seq<Finding>, f: Finding)
    requires f in fs
    ensures HasKind(fs, f.kind)
  {
    var i :| 0 <= i < |fs| && fs[i] == f;
    HasKindIff(fs, f.kind);
  }

  lemma GateKinds(v: Verification, k: FindingKind)
    ensures HasKind(RaiseGates(GateChecks(v)), k) <==>
            (k == Exclusion && SomeGate(v, Fail)) || (k == Inconclusive && SomeGate(v, Unknown))
  {
    var raised := RaiseGates(GateChecks(v));
    if HasKind(raised, k) {
      HasKindIff(raised, k);
      var i :| 0 <= i < |raised| && raised[i].kind == k;
      GatesDue(v, raised[i]);
    }
    if k == Exclusion && SomeGate(v, Fail) {
      var f := FailedGate(v);
      GatesDue(v, f);
      HasIt(raised, f);
    }
    if k == Inconclusive && SomeGate(v, Unknown) {
      var f := UnknownGate(v);
      GatesDue(v, f);
      HasIt(raised, f);
    }
  }

  lemma TimeKinds(acc: seq<Finding>, m: Mandate, at: int, observedAt: int, maxAge: int, codes: TimestampCodes, k: FindingKind)
    ensures HasKind(RaiseTimestamp(acc, m, at, observedAt, maxAge, codes), k) <==>
            || HasKind(acc, k) || (k == Exclusion && Outdated(m, at, observedAt, maxAge))
            || (k == Inconclusive && Ahead(m, at, observedAt))
  {
    var a := acc + When(observedAt < m.createdAt, Ex(codes.precedesMandate));
    var b := a + When(observedAt > at + m.maxClockSkewSeconds, Inc(codes.future));
    AddsKind(acc, observedAt < m.createdAt, Ex(codes.precedesMandate), k);
    AddsKind(a, observedAt > at + m.maxClockSkewSeconds, Inc(codes.future), k);
    AddsKind(b, at - observedAt > maxAge, Ex(codes.stale), k);
  }

  lemma BindingKinds(acc: seq<Finding>, m: Mandate, q: Quote, at: int, k: FindingKind)
    requires q.category == m.category == Rebalancing
    ensures HasKind(RaiseBinding(acc, m, q, at), k) <==>
            HasKind(acc, k) || (k == Exclusion && (q.mandateId != m.mandateId || m.expiresAt <= at))
  {
    var a := acc + When(!m.category.Rebalancing?, Ex("MANDATE_CATEGORY_MISMATCH"));
    var b := a + When(q.mandateId != m.mandateId, Ex("MANDATE_ID_MISMATCH"));
    var c := b + When(q.category != m.category, Ex("MANDATE_CATEGORY_MISMATCH"));
    AddsKind(acc, !m.category.Rebalancing?, Ex("MANDATE_CATEGORY_MISMATCH"), k);
    AddsKind(a, q.mandateId != m.mandateId, Ex("MANDATE_ID_MISMATCH"), k);
    AddsKind(b, q.category != m.category, Ex("MANDATE_CATEGORY_MISMATCH"), k);
    AddsKind(c, at >= m.expiresAt, Ex("MANDATE_EXPIRED"), k);
  }

  lemma LifetimeKinds(acc: seq<Finding>, m: Mandate, q: Quote, at: int, k: FindingKind)
    ensures HasKind(RaiseLifetime(acc, m, q, at), k) <==>
            || HasKind(acc, k) || (k == Inconclusive && Ahead(m, at, q.capturedAt))
            || (k == Exclusion && (q.expiresAt <= at || m.expiresAt < q.expiresAt))
  {
    var a := acc + When(q.capturedAt > at + m.maxClockSkewSeconds, Inc("CAPTURE_TIMESTAMP_IN_FUTURE"));
    var b := a + When(q.expiresAt <= at, Ex("QUOTE_EXPIRED"));
    AddsKind(acc, q.capturedAt > at + m.maxClockSkewSeconds, Inc("CAPTURE_TIMESTAMP_IN_FUTURE"), k);
    AddsKind(a, q.expiresAt <= at, Ex("QUOTE_EXPIRED"), k);
    AddsKind(b, q.expiresAt > m.expiresAt, Ex("QUOTE_OUTLIVES_MANDATE"), k);
  }

  lemma QuoteKinds(acc: seq<Finding>, m: Mandate, q: Quote, at: int, k: FindingKind)
    requires q.category == m.category == Rebalancing
    ensures HasKind(RaiseQuote(acc, m, q, at), k) <==>
            || HasKind(acc, k) || (k == Exclusion && QuoteExcludes(m, q, at))
            || (k == Inconclusive && (Ahead(m, at, q.observedAt) || Ahead(m, at, q.capturedAt)))
  {
    var a := RaiseBinding(acc, m, q, at);
    BindingKinds(acc, m, q, at, k);
    TimeKinds(a, m, at, q.observedAt, m.maxEvidenceAgeSeconds, QUOTE_CODES, k);
    LifetimeKinds(RaiseTimestamp(a, m, at, q.observedAt, m.maxEvidenceAgeSeconds, QUOTE_CODES), m, q, at, k);
  }

  lemma PreviewKinds(acc: seq<Finding>, m: Mandate, q: Quote, at: int, k: FindingKind)
    ensures HasKind(RaisePreview(acc, m, q, at), k) <==>
            HasKind(acc, k) || (k == Exclusion && PreviewWrong(m, q, at)) || (k == Inconclusive && PreviewUnknown(m, q, at))
  {
    match q.preview
    case PreviewFailed(_) => AddsKind(acc, true, Ex("EXECUTION_PREVIEW_FAILED"), k);
    case PreviewUnavailable => AddsKind(acc, true, Inc("EXECUTION_PREVIEW_INCONCLUSIVE"), k);
    case PreviewPassed(observedAt, block, hash) =>
      TimeKinds(acc, m, at, observedAt, m.maxPreviewAgeSeconds, PREVIEW_CODES, k);
      AddsKind(RaiseTimestamp(acc, m, at, observedAt, m.maxPreviewAgeSeconds, PREVIEW_CODES),
        block != q.observedBlock || hash != q.observedBlockHash, Ex("PREVIEW_BLOCK_MISMATCH"), k);
  }

  lemma ObservationKinds(acc: seq<Finding>, m: Mandate, q: Quote, at: int, k: FindingKind)
    requires ValidQuote(q) && q.category.Rebalancing?
    ensures HasKind(RaiseObservations(acc, m, q, at), k) <==>
            || HasKind(acc, k) || (k == Exclusion && ObservationExcludes(m, q, at))
            || (k == Inconclusive
                && (Ahead(m, at, q.estimates.observedAt) || Ahead(m, at, q.reputation.observedAt)
                    || q.pricing.UsdUnavailable? || PreviewUnknown(m, q, at)))
  {
    var a := RaiseTimestamp(acc, m, at, q.estimates.observedAt, m.maxEvidenceAgeSeconds, ESTIMATE_CODES);
    var b := RaiseTimestamp(a, m, at, q.reputation.observedAt, m.maxEvidenceAgeSeconds, REPUTATION_CODES);
    TimeKinds(acc, m, at, q.estimates.observedAt, m.maxEvidenceAgeSeconds, ESTIMATE_CODES, k);
    TimeKinds(a, m, at, q.reputation.observedAt, m.maxEvidenceAgeSeconds, REPUTATION_CODES, k);
    AddsKind(b, q.pricing.UsdUnavailable?, Inc("PRICING_USD_UNAVAILABLE"), k);
    assert RaiseNormalization(b, q) == b + When(q.pricing.UsdUnavailable?, Inc("PRICING_USD_UNAVAILABLE"));
    PreviewKinds(RaiseNormalization(b, q), m, q, at, k);
  }

  lemma AnchorKinds(acc: seq<Finding>, m: Mandate, q: Quote, e: Evidence, p: RangePolicy, at: int, k: FindingKind)
    requires e.RebalancingEvidence?
    ensures HasKind(RaiseAnchors(acc, m, q, e, p, at), k) <==>
            || HasKind(acc, k) || (k == Exclusion && AnchorsWrong(m, q, e, p, at))
            || (k == Inconclusive && Ahead(m, at, e.observedAt))
  {
    var block := e.observedBlock != q.observedBlock || e.observedBlockHash != q.observedBlockHash;
    var position := e.position.poolAddress != p.position.poolAddress
      || e.position.positionManagerAddress != p.position.positionManagerAddress || e.position.tokenId != p.position.tokenId;
    var a := RaiseTimestamp(acc, m, at, e.observedAt, m.maxEvidenceAgeSeconds, EVIDENCE_CODES);
    var b := a + When(block, Ex("EVIDENCE_BLOCK_MISMATCH"));
    var c := b + When(position, Ex("POSITION_MISMATCH"));
    TimeKinds(acc, m, at, e.observedAt, m.maxEvidenceAgeSeconds, EVIDENCE_CODES, k);
    AddsKind(a, block, Ex("EVIDENCE_BLOCK_MISMATCH"), k);
    AddsKind(b, position, Ex("POSITION_MISMATCH"), k);
    AddsKind(c, e.protocol !in m.permissions.allowedProtocols, Ex("PROTOCOL_NOT_ALLOWED"), k);
  }

  /** A group that only excludes adds an exclusion exactly when it adds anything. */
  lemma {:induction false} OnlyExclusions(acc: seq<Finding>, fs: seq<Finding>, k: FindingKind)
    requires forall f :: f in fs ==> f.kind == Exclusion
    ensures HasKind(acc + fs, k) <==> HasKind(acc, k) || (k == Exclusion && fs != [])
    decreases |fs|
  {
    if fs == [] {
      assert acc + fs == acc;
    } else {
      var front, last := fs[..|fs| - 1], fs[|fs| - 1];
      OnlyExclusions(acc, front, k);
      assert acc + fs == (acc + front) + [last] && (acc + fs)[..|acc + fs| - 1] == acc + front;
    }
  }

  lemma TriggerKinds(acc: seq<Finding>, e: Evidence, p: RangePolicy, k: FindingKind)
    requires e.RebalancingEvidence?
    ensures HasKind(RaiseTrigger(acc, e, p), k) <==> HasKind(acc, k) || (k == Exclusion && !TriggerOk(e, p))
  {
    var raised := RaiseTrigger([], e, p);
    TriggerRaises([], e, p);
    assert RaiseTrigger(acc, e, p) == acc + raised;
    OnlyExclusions(acc, raised, k);
  }

  lemma RangeConditions(e: Evidence, p: RangePolicy)
    requires e.RebalancingEvidence? && p.targetWidthTicks > 0
    ensures RangeOk(e, p) <==>
            EndpointsAligned(e) && p.targetWidthTicks % e.tickSpacing == 0 && WithinPolicy(e, p) && AsExpected(e, p)
  {
    RaiseRangeIff([], e, p);
  }

  lemma RangeKinds(acc: seq<Finding>, e: Evidence, p: RangePolicy, k: FindingKind)
    requires e.RebalancingEvidence? && p.targetWidthTicks > 0
    ensures HasKind(RaiseRange(acc, e, p), k) <==> HasKind(acc, k) || (k == Exclusion && !RangeOk(e, p))
  {
    var widthAligned := p.targetWidthTicks % e.tickSpacing == 0;
    var a := acc + When(!EndpointsAligned(e), Ex("TICK_ALIGNMENT_INVALID"));
    var b := a + When(!widthAligned, Ex("TARGET_WIDTH_NOT_TICK_ALIGNED"));
    var c := b + When(!WithinPolicy(e, p), Ex("RANGE_OUTSIDE_POLICY"));
    AddsKind(acc, !EndpointsAligned(e), Ex("TICK_ALIGNMENT_INVALID"), k);
    AddsKind(a, !widthAligned, Ex("TARGET_WIDTH_NOT_TICK_ALIGNED"), k);
    AddsKind(b, !WithinPolicy(e, p), Ex("RANGE_OUTSIDE_POLICY"), k);
    AddsKind(c, widthAligned && !AsExpected(e, p), Ex("TARGET_WIDTH_MISMATCH"), k);
    RangeConditions(e, p);
  }

  lemma CeilingKinds(acc: seq<Finding>, m: Mandate, q: Quote, k: FindingKind)
    ensures HasKind(RaiseCeilings(acc, m, q), k) <==> HasKind(acc, k) || (k == Exclusion && !WithinCeilings(m, q))
  {
    var fee := q.pricing.NormalizedZero? && q.pricing.agentFeeUsdMicros > m.budgets.maxAgentFeeUsdMicros;
    var a := acc + When(q.estimates.gasUsdMicros > m.budgets.maxGasUsdMicros, Ex("GAS_BUDGET_EXCEEDED"));
    var b := a + When(q.estimates.slippageBps > m.budgets.maxSlippageBps, Ex("SLIPPAGE_BUDGET_EXCEEDED"));
    var c := b + When(q.estimates.exposureUsdMicros > m.budgets.maxExposureUsdMicros, Ex("EXPOSURE_BUDGET_EXCEEDED"));
    AddsKind(acc, q.estimates.gasUsdMicros > m.budgets.maxGasUsdMicros, Ex("GAS_BUDGET_EXCEEDED"), k);
    AddsKind(a, q.estimates.slippageBps > m.budgets.maxSlippageBps, Ex("SLIPPAGE_BUDGET_EXCEEDED"), k);
    AddsKind(b, q.estimates.exposureUsdMicros > m.budgets.maxExposureUsdMicros, Ex("EXPOSURE_BUDGET_EXCEEDED"), k);
    AddsKind(c, fee, Ex("AGENT_FEE_BUDGET_EXCEEDED"), k);
  }

  lemma SpendKinds(acc: seq<Finding>, m: Mandate, q: Quote, at: int, k: FindingKind)
    ensures
      var raised := acc
        + When(q.permissions.spendCapUsdMicros > m.permissions.maxSpendUsdMicros, Ex("PERMISSION_SPEND_CAP_EXCEEDED"))
        + When(q.permissions.expiresAt <= at, Ex("PERMISSION_EXPIRED"))
        + When(q.permissions.expiresAt > m.permissions.expiresAt, Ex("PERMISSION_OUTLIVES_MANDATE"));
      HasKind(raised, k) <==>
        || HasKind(acc, k)
        || (k == Exclusion
            && (q.permissions.spendCapUsdMicros > m.permissions.maxSpendUsdMicros
                || !(at < q.permissions.expiresAt <= m.permissions.expiresAt)))
  {
    var a := acc + When(q.permissions.spendCapUsdMicros > m.permissions.maxSpendUsdMicros, Ex("PERMISSION_SPEND_CAP_EXCEEDED"));
    var b := a + When(q.permissions.expiresAt <= at, Ex("PERMISSION_EXPIRED"));
    AddsKind(acc, q.permissions.spendCapUsdMicros > m.permissions.maxSpendUsdMicros, Ex("PERMISSION_SPEND_CAP_EXCEEDED"), k);
    AddsKind(a, q.permissions.expiresAt <= at, Ex("PERMISSION_EXPIRED"), k);
    AddsKind(b, q.permissions.expiresAt > m.permissions.expiresAt, Ex("PERMISSION_OUTLIVES_MANDATE"), k);
  }

  lemma ListKinds(acc: seq<Finding>, asked: seq<string>, allowed: seq<string>, code: string, k: FindingKind)
    ensures HasKind(acc + When(exists i :: 0 <= i < |asked| && asked[i] !in allowed, Ex(code)), k) <==>
            HasKind(acc, k) || (k == Exclusion && !AllIn(asked, allowed))
  {
    AllInIff(asked, allowed);
    AddsKind(acc, exists i :: 0 <= i < |asked| && asked[i] !in allowed, Ex(code), k);
  }

  lemma PermissionKinds(acc: seq<Finding>, m: Mandate, q: Quote, at: int, k: FindingKind)
    ensures HasKind(RaisePermissions(acc, m, q, at), k) <==>
            || HasKind(acc, k)
            || (k == Exclusion
                && (q.permissions.spendCapUsdMicros > m.permissions.maxSpendUsdMicros
                    || !(at < q.permissions.expiresAt <= m.permissions.expiresAt)
                    || !AllIn(q.permissions.contracts, m.permissions.allowedContracts)
                    || !AllIn(q.permissions.calls, m.permissions.allowedCalls)))
  {
    var contracts, calls := q.permissions.contracts, q.permissions.calls;
    var spent := acc
      + When(q.permissions.spendCapUsdMicros > m.permissions.maxSpendUsdMicros, Ex("PERMISSION_SPEND_CAP_EXCEEDED"))
      + When(q.permissions.expiresAt <= at, Ex("PERMISSION_EXPIRED"))
      + When(q.permissions.expiresAt > m.permissions.expiresAt, Ex("PERMISSION_OUTLIVES_MANDATE"));
    var listed := spent
      + When(exists i :: 0 <= i < |contracts| && contracts[i] !in m.permissions.allowedContracts, Ex("PERMISSION_CONTRACT_NOT_ALLOWED"));
    SpendKinds(acc, m, q, at, k);
    ListKinds(spent, contracts, m.permissions.allowedContracts, "PERMISSION_CONTRACT_NOT_ALLOWED", k);
    ListKinds(listed, calls, m.permissions.allowedCalls, "PERMISSION_CALL_NOT_ALLOWED", k);
    assert RaisePermissions(acc, m, q, at) ==
           listed + When(exists i :: 0 <= i < |calls| && calls[i] !in m.permissions.allowedCalls, Ex("PERMISSION_CALL_NOT_ALLOWED"));
  }

  lemma PositionKinds(acc: seq<Finding>, m: Mandate, q: Quote, e: Evidence, p: RangePolicy, at: int, k: FindingKind)
    requires e.RebalancingEvidence? && p.targetWidthTicks > 0
    ensures HasKind(RaiseForPosition(acc, m, q, e, p, at), k) <==>
            || HasKind(acc, k) || (k == Exclusion && (EvidenceExcludes(m, q, e, p, at) || BudgetExcludes(m, q, at)))
            || (k == Inconclusive && Ahead(m, at, e.observedAt))
  {
    var anchored := RaiseAnchors(acc, m, q, e, p, at);
    var triggered := RaiseTrigger(anchored, e, p);
    var ranged := RaiseRange(triggered, e, p);
    AnchorKinds(acc, m, q, e, p, at, k);
    TriggerKinds(anchored, e, p, k);
    RangeKinds(triggered, e, p, k);
    CeilingKinds(ranged, m, q, k);
    PermissionKinds(RaiseCeilings(ranged, m, q), m, q, at, k);
  }

  lemma RaisedKinds(m: Mandate, q: Quote, at: int, k: FindingKind)
    requires ValidMandate(m) && ValidQuote(q) && q.category == m.category == Rebalancing
    ensures q.evidence.RebalancingEvidence? && m.rebalancing.Some?
    ensures HasKind(Raised(m, q, at), k) <==>
            (k == Exclusion && SomethingWrong(m, q, at)) || (k == Inconclusive && SomethingUnknown(m, q, at))
  {
    RebalancingHasPolicy(m, q);
    var gates := RaiseGates(GateChecks(q.verification));
    GateKinds(q.verification, k);
    QuoteKinds(gates, m, q, at, k);
    ObservationKinds(RaiseQuote(gates, m, q, at), m, q, at, k);
    PositionKinds(RaiseGeneral(m, q, at), m, q, q.evidence, m.rebalancing.value, at, k);
  }

  /**
   The outcome of every decision: another category is excluded, an unsupported one unsupported; a rebalancing quote is
   excluded exactly when something is wrong, else inconclusive exactly when something is unknown, else eligible.
   */
  lemma OutcomeIs(m: Mandate, q: Quote, at: int)
    requires ValidMandate(m) && ValidQuote(q)
    ensures q.category.Rebalancing? ==> q.evidence.RebalancingEvidence?
    ensures m.category.Rebalancing? ==> m.rebalancing.Some?
    ensures Decide(m, q, at).outcome ==
            if q.category != m.category then Excluded
            else if !q.category.Rebalancing? then UnsupportedOutcome
            else if SomethingWrong(m, q, at) then Excluded
            else if SomethingUnknown(m, q, at) then InconclusiveOutcome
            else Eligible
  {
    if q.category == m.category == Rebalancing {
      RebalancingOutcome(m, q, at);
    }
  }

  lemma RebalancingOutcome(m: Mandate, q: Quote, at: int)
    requires ValidMandate(m) && ValidQuote(q) && q.category == m.category == Rebalancing
    ensures q.evidence.RebalancingEvidence? && m.rebalancing.Some?
    ensures OutcomeOf(Canonical(Raised(m, q, at))) ==
            if SomethingWrong(m, q, at) then Excluded else if SomethingUnknown(m, q, at) then InconclusiveOutcome else Eligible
  {
    RaisedKinds(m, q, at, Exclusion);
    RaisedKinds(m, q, at, Inconclusive);
    OutcomeByKind(Raised(m, q, at));
  }

  lemma OutcomeByKind(fs: seq<Finding>)
    ensures OutcomeOf(Canonical(fs)) ==
            if HasKind(fs, Exclusion) then Excluded else if HasKind(fs, Inconclusive) then InconclusiveOutcome else Eligible
  {
    CanonicalIsCanonical(fs);
    SameKinds(fs, Canonical(fs), Exclusion);
    SameKinds(fs, Canonical(fs), Inconclusive);
    HasKindIff(Canonical(fs), Exclusion);
    HasKindIff(Canonical(fs), Inconclusive);
  }

  /** Whatever it decides, a decision is about this mandate, quote and time. */
  lemma DecisionIsAbout(m: Mandate, q: Quote, at: int)
    ensures
      var d := Decide(m, q, at);
      && d.mandateId == m.mandateId && d.evaluatedAt == at && d.quoteId == q.quoteId && d.candidate == q.candidate
      && d.quoteSha256.content == q && (d.score.Some? <==> d.outcome.Eligible?)
  {}

  // ---- an eligible quote that loses its preview ----

  lemma NothingIsDue(m: Mandate, q: Quote, at: int, f: Finding)
    requires ValidMandate(m) && ValidQuote(q) && Decide(m, q, at).outcome.Eligible? && Decide(m, q, at).findings == []
    ensures q.category == m.category == Rebalancing && !Due(f, m, q, at)
  {
    FindingsAreDue(m, q, at, f);
    OutcomeIs(m, q, at);
  }

  lemma OnlyPreviewIsDue(m: Mandate, q: Quote, at: int, f: Finding)
    requires q.category == m.category == Rebalancing && !Due(f, m, q, at)
    ensures Due(f, m, q.(preview := PreviewUnavailable), at) <==> f == Finding(Inconclusive, "EXECUTION_PREVIEW_INCONCLUSIVE")
  {}

  lemma OnlyInconclusive(d: Decision, f: Finding)
    requires d.outcome == ExpectedOutcome(d.findings) && f.kind.Inconclusive? && forall g :: g in d.findings <==> g == f
    ensures d.outcome.InconclusiveOutcome?
  {
    assert f in d.findings;
    assert forall j :: 0 <= j < |d.findings| ==> d.findings[j] in d.findings;
  }

  /** An eligible quote that loses its preview becomes inconclusive, for that reason and no other. */
  lemma LostPreviewIsInconclusive(m: Mandate, q: Quote, at: int)
    requires ValidMandate(m) && ValidQuote(q) && 0 < at <= MAX_SAFE_INTEGER && Decide(m, q, at).outcome.Eligible?
    ensures
      var d := Decide(m, q.(preview := PreviewUnavailable), at);
      d.outcome.InconclusiveOutcome?
      && forall f :: f in d.findings <==> f == Finding(Inconclusive, "EXECUTION_PREVIEW_INCONCLUSIVE")
  {
    DecisionIsValid(m, q, at);
    DecisionIsValid(m, q.(preview := PreviewUnavailable), at);
    forall f: Finding
      ensures f in Decide(m, q.(preview := PreviewUnavailable), at).findings <==>
              f == Finding(Inconclusive, "EXECUTION_PREVIEW_INCONCLUSIVE")
    {
      NothingIsDue(m, q, at, f);
      OnlyPreviewIsDue(m, q, at, f);
      FindingsAreDue(m, q.(preview := PreviewUnavailable), at, f);
    }
    OnlyInconclusive(Decide(m, q.(preview := PreviewUnavailable), at), Finding(Inconclusive, "EXECUTION_PREVIEW_INCONCLUSIVE"));
  }
}
