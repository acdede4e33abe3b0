/** Verifying a category attestation (`category-attestation.ts`): one long chain of checks, one half-open interval. */
module CategoryAttestation {
  import opened Foundations
  import opened Marketplace
  import opened Attestation
  import P = CategoryProduction

  datatype CategoryRequest = CategoryRequest(
    requestId: string, mandate: Mandate, candidate: Candidate, adapterId: P.AdapterId, category: Category,
    evidenceSchema: string, protocol: string, subject: P.Subject, policy: P.ConditionPolicy)

  datatype CategoryRequestSha256 = CategoryRequestSha256(content: CategoryRequest)
  datatype SubjectSha256 = SubjectSha256(content: P.Subject)
  datatype PolicySha256 = PolicySha256(content: P.ConditionPolicy)

  datatype CategoryPayload = CategoryPayload(
    requestId: string, mandateId: string, category: Category, candidate: P.Selector, adapterId: P.AdapterId,
    evidenceSchema: string, protocol: string, subjectSha256: SubjectSha256, policySha256: PolicySha256,
    deploymentSha256: string, evidence: string, observedAt: int)

  datatype CategoryEnvelope = CategoryEnvelope(
    keyId: string, issuedAt: int, expiresAt: int, mandateSha256: MandateSha256, requestSha256: CategoryRequestSha256,
    verifierPolicySha256: string, payload: CategoryPayload, signature: string)

  datatype CategoryTrust = CategoryTrust(
    keyId: string, verifierPolicySha256: string, categoryDeploymentSha256: string, signed: CategoryEnvelope -> bool)

  /** The request schema: the mandate's category is the adapter's, and the mandate is valid. */
  predicate ValidCategoryRequest(r: CategoryRequest) {
    ValidMandate(r.mandate) && ValidCandidate(r.candidate) && r.mandate.category == r.category && !r.category.Rebalancing?
  }

  /** What the wire schema fixes of an envelope's times. */
  predicate ValidTimes(e: CategoryEnvelope) {
    P.ValidUnixSeconds(e.issuedAt) && P.ValidUnixSeconds(e.expiresAt) && P.ValidUnixSeconds(e.payload.observedAt)
  }

  const CATEGORY_TTL := 300

  /** The checks in their order; success returns `validUntil`. */
  function VerifyCategory(e: CategoryEnvelope, r: CategoryRequest, at: int, skew: int, trust: CategoryTrust): Result<int, CoreError> {
    if !ValidCategoryRequest(r) then Err(CoreError("CATEGORY_REQUEST_INVALID"))
    else if e.keyId != trust.keyId then Err(CoreError("ATTESTATION_KEY_MISMATCH"))
    else if e.verifierPolicySha256 != trust.verifierPolicySha256 then Err(CoreError("ATTESTATION_POLICY_MISMATCH"))
    else if e.mandateSha256 != MandateSha256(r.mandate) then Err(CoreError("ATTESTATION_MANDATE_HASH_MISMATCH"))
    else if e.requestSha256 != CategoryRequestSha256(r) then Err(CoreError("CATEGORY_ATTESTATION_REQUEST_HASH_MISMATCH"))
    else if e.payload.category != r.category || e.payload.adapterId != r.adapterId
    then Err(CoreError("CATEGORY_ATTESTATION_ADAPTER_MISMATCH"))
    else if e.payload.evidenceSchema != r.evidenceSchema || e.payload.protocol != r.protocol
    then Err(CoreError("CATEGORY_ATTESTATION_ADAPTER_MISMATCH"))
    else if e.payload.mandateId != r.mandate.mandateId || e.payload.requestId != r.requestId
    then Err(CoreError("CATEGORY_ATTESTATION_REQUEST_MISMATCH"))
    else if e.payload.candidate.chainId != r.candidate.chainId || e.payload.candidate.tokenId != r.candidate.tokenId
    then Err(CoreError("CATEGORY_ATTESTATION_CANDIDATE_MISMATCH"))
    else if e.payload.subjectSha256 != SubjectSha256(r.subject) then Err(CoreError("CATEGORY_ATTESTATION_SUBJECT_MISMATCH"))
    else if e.payload.policySha256 != PolicySha256(r.policy)
    then Err(CoreError("CATEGORY_ATTESTATION_POLICY_BINDING_MISMATCH"))
    else if e.payload.deploymentSha256 != trust.categoryDeploymentSha256
    then Err(CoreError("CATEGORY_ATTESTATION_DEPLOYMENT_MISMATCH"))
    else if !(0 <= skew <= 300) then Err(CoreError("ATTESTATION_TRUST_INVALID"))
    else if !(0 < at <= MAX_SAFE_INTEGER) then Err(CoreError("EVALUATED_AT_INVALID"))
    else if e.issuedAt > at + skew then Err(CoreError("ATTESTATION_NOT_YET_VALID"))
    else if e.issuedAt >= r.mandate.expiresAt || e.expiresAt <= e.issuedAt || e.expiresAt > r.mandate.expiresAt
    then Err(CoreError("ATTESTATION_EXPIRY_INVALID"))
    else if e.expiresAt > e.issuedAt + CATEGORY_TTL then Err(CoreError("ATTESTATION_TTL_EXCEEDED"))
    else if e.expiresAt <= at then Err(CoreError("ATTESTATION_EXPIRED"))
    else if e.payload.observedAt > e.issuedAt then Err(CoreError("ATTESTATION_OBSERVATION_AFTER_ISSUANCE"))
    else if e.payload.observedAt < r.mandate.createdAt then Err(CoreError("CATEGORY_ATTESTATION_EVIDENCE_STALE"))
    else if e.payload.observedAt > at + r.mandate.maxClockSkewSeconds then Err(CoreError("ATTESTATION_NOT_YET_VALID"))
    else if at - e.payload.observedAt > r.mandate.maxEvidenceAgeSeconds
    then Err(CoreError("CATEGORY_ATTESTATION_EVIDENCE_STALE"))
    else if at < r.mandate.createdAt then Err(CoreError("EVALUATED_AT_INVALID"))
    else if !trust.signed(e) then Err(CoreError("ATTESTATION_SIGNATURE_INVALID"))
    else Ok(Min(e.expiresAt, e.payload.observedAt + r.mandate.maxEvidenceAgeSeconds + 1))
  }

  /** Everything that does not depend on the time of evaluation, said of contents rather than digests. */
  predicate SoundFor(e: CategoryEnvelope, r: CategoryRequest, skew: int, trust: CategoryTrust) {
    && ValidCategoryRequest(r) && 0 <= skew <= 300
    && e.keyId == trust.keyId && e.verifierPolicySha256 == trust.verifierPolicySha256 && trust.signed(e)
    && e.mandateSha256.content == r.mandate && e.requestSha256.content == r
    && e.payload.subjectSha256.content == r.subject && e.payload.policySha256.content == r.policy
    && e.payload.category == r.category && e.payload.adapterId == r.adapterId
    && e.payload.evidenceSchema == r.evidenceSchema && e.payload.protocol == r.protocol
    && e.payload.mandateId == r.mandate.mandateId && e.payload.requestId == r.requestId
    && e.payload.candidate == P.Selector(r.candidate.chainId, r.candidate.tokenId)
    && e.payload.deploymentSha256 == trust.categoryDeploymentSha256
    && r.mandate.createdAt <= e.payload.observedAt <= e.issuedAt < e.expiresAt <= r.mandate.expiresAt
    && e.expiresAt <= e.issuedAt + 300
  }

  /** The first accepting second: issuance and observation less their own skews, but not before the mandate. */
  function AcceptedFrom(e: CategoryEnvelope, r: CategoryRequest, skew: int): int {
    Max(Max(e.issuedAt - skew, e.payload.observedAt - r.mandate.maxClockSkewSeconds), r.mandate.createdAt)
  }

  function AcceptedUntil(e: CategoryEnvelope, r: CategoryRequest): int {
    Min(e.expiresAt, e.payload.observedAt + r.mandate.maxEvidenceAgeSeconds + 1)
  }

  /**
   For fixed attestation, request and trust the accepting times are exactly one half-open interval, whose upper end is
   the `validUntil` every acceptance returns.
   */
  lemma AcceptingTimesAreInterval(e: CategoryEnvelope, r: CategoryRequest, at: int, skew: int, trust: CategoryTrust)
    requires ValidTimes(e)
    ensures VerifyCategory(e, r, at, skew, trust).Ok? <==>
            SoundFor(e, r, skew, trust) && AcceptedFrom(e, r, skew) <= at < AcceptedUntil(e, r)
    ensures VerifyCategory(e, r, at, skew, trust).Ok? ==> VerifyCategory(e, r, at, skew, trust).value == AcceptedUntil(e, r)
  {
    if SoundFor(e, r, skew, trust) {
      assert e.mandateSha256 == MandateSha256(r.mandate) && e.requestSha256 == CategoryRequestSha256(r);
      assert e.payload.subjectSha256 == SubjectSha256(r.subject) && e.payload.policySha256 == PolicySha256(r.policy);
    }
  }

  /** Why a sound attestation is refused at a legal instant outside that interval, the first reason that applies. */
  lemma RefusedForTime(e: CategoryEnvelope, r: CategoryRequest, at: int, skew: int, trust: CategoryTrust)
    requires SoundFor(e, r, skew, trust) && r.mandate.createdAt <= at <= MAX_SAFE_INTEGER
    ensures VerifyCategory(e, r, at, skew, trust) ==
            if at < e.issuedAt - skew then Err(CoreError("ATTESTATION_NOT_YET_VALID"))
            else if e.expiresAt <= at then Err(CoreError("ATTESTATION_EXPIRED"))
            else if at < e.payload.observedAt - r.mandate.maxClockSkewSeconds then Err(CoreError("ATTESTATION_NOT_YET_VALID"))
            else if e.payload.observedAt + r.mandate.maxEvidenceAgeSeconds < at then Err(CoreError("CATEGORY_ATTESTATION_EVIDENCE_STALE"))
            else Ok(AcceptedUntil(e, r))
  {
    assert e.mandateSha256 == MandateSha256(r.mandate) && e.requestSha256 == CategoryRequestSha256(r);
    assert e.payload.subjectSha256 == SubjectSha256(r.subject) && e.payload.policySha256 == PolicySha256(r.policy);
  }

  /** What each code accuses an attestation of. */
  predicate Accuses(code: string, e: CategoryEnvelope, r: CategoryRequest, at: int, skew: int, trust: CategoryTrust) {
    var p := e.payload;
    || (code == "CATEGORY_REQUEST_INVALID" && !ValidCategoryRequest(r))
    || (code == "ATTESTATION_KEY_MISMATCH" && e.keyId != trust.keyId)
    || (code == "ATTESTATION_POLICY_MISMATCH" && e.verifierPolicySha256 != trust.verifierPolicySha256)
    || (code == "ATTESTATION_MANDATE_HASH_MISMATCH" && e.mandateSha256.content != r.mandate)
    || (code == "CATEGORY_ATTESTATION_REQUEST_HASH_MISMATCH" && e.requestSha256.content != r)
    || (code == "CATEGORY_ATTESTATION_ADAPTER_MISMATCH"
        && !(p.category == r.category && p.adapterId == r.adapterId && p.evidenceSchema == r.evidenceSchema && p.protocol == r.protocol))
    || (code == "CATEGORY_ATTESTATION_REQUEST_MISMATCH" && !(p.mandateId == r.mandate.mandateId && p.requestId == r.requestId))
    || (code == "CATEGORY_ATTESTATION_CANDIDATE_MISMATCH"
        && !(p.candidate.chainId == r.candidate.chainId && p.candidate.tokenId == r.candidate.tokenId))
    || (code == "CATEGORY_ATTESTATION_SUBJECT_MISMATCH" && p.subjectSha256.content != r.subject)
    || (code == "CATEGORY_ATTESTATION_POLICY_BINDING_MISMATCH" && p.policySha256.content != r.policy)
    || (code == "CATEGORY_ATTESTATION_DEPLOYMENT_MISMATCH" && p.deploymentSha256 != trust.categoryDeploymentSha256)
    || (code == "ATTESTATION_TRUST_INVALID" && !(0 <= skew <= 300))
    || (code == "EVALUATED_AT_INVALID" && !(1 <= at <= 9_007_199_254_740_991 && r.mandate.createdAt <= at))
    || (code == "ATTESTATION_NOT_YET_VALID"
        && (at < e.issuedAt - skew || at < p.observedAt - r.mandate.maxClockSkewSeconds))
    || (code == "ATTESTATION_EXPIRY_INVALID" && !(e.issuedAt < e.expiresAt <= r.mandate.expiresAt))
    || (code == "ATTESTATION_TTL_EXCEEDED" && e.issuedAt + 300 < e.expiresAt)
    || (code == "ATTESTATION_EXPIRED" && e.expiresAt <= at)
    || (code == "ATTESTATION_OBSERVATION_AFTER_ISSUANCE" && e.issuedAt < p.observedAt)
    || (code == "CATEGORY_ATTESTATION_EVIDENCE_STALE"
        && (p.observedAt < r.mandate.createdAt || p.observedAt + r.mandate.maxEvidenceAgeSeconds < at))
    || (code == "ATTESTATION_SIGNATURE_INVALID" && !trust.signed(e))
  }

  /** Every refusal is justified: what its code accuses the attestation of is so. */
  lemma RefusalIsJustified(e: CategoryEnvelope, r: CategoryRequest, at: int, skew: int, trust: CategoryTrust)
    requires VerifyCategory(e, r, at, skew, trust).Err?
    ensures Accuses(VerifyCategory(e, r, at, skew, trust).error.code, e, r, at, skew, trust)
  {
    assert e.mandateSha256.content == r.mandate ==> e.mandateSha256 == MandateSha256(r.mandate);
    assert e.requestSha256.content == r ==> e.requestSha256 == CategoryRequestSha256(r);
    assert e.payload.subjectSha256.content == r.subject ==> e.payload.subjectSha256 == SubjectSha256(r.subject);
    assert e.payload.policySha256.content == r.policy ==> e.payload.policySha256 == PolicySha256(r.policy);
  }

  /** An accepted attestation stays accepted until `validUntil` and never after. */
  lemma ValidUntilIsExact(e: CategoryEnvelope, r: CategoryRequest, at: int, later: int, skew: int, trust: CategoryTrust)
    requires ValidTimes(e) && VerifyCategory(e, r, at, skew, trust).Ok? && at <= later
    ensures VerifyCategory(e, r, later, skew, trust).Ok? <==> later < VerifyCategory(e, r, at, skew, trust).value
  {
    AcceptingTimesAreInterval(e, r, at, skew, trust);
    AcceptingTimesAreInterval(e, r, later, skew, trust);
  }
}
