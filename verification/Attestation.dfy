/** Verifying one evaluation attestation (`attestation.ts`), and exactly when it is accepted. */
module Attestation {
  import opened Foundations
  import opened Marketplace

  /** A Core error, by its code. */
  datatype CoreError = CoreError(code: string)

  datatype MandateSha256 = MandateSha256(content: Mandate)

  datatype PayloadSha256 = PayloadSha256(content: Payload)

  datatype Envelope = Envelope(
    keyId: string, verifierPolicySha256: string, issuedAt: int, expiresAt: int, mandateSha256: MandateSha256,
    payloadSha256: PayloadSha256, payload: Payload, signature: string)

  /**
   The pinned key: how a wire decodes into an envelope (UTF-8, canonical JSON and the fixed wire schema) or is refused,
   and which envelopes carry a valid Ed25519 signature of it.
   */
  datatype AttestationTrust = AttestationTrust(
    keyId: string, verifierPolicySha256: string, decode: Text -> Result<Envelope, CoreError>, signed: Envelope -> bool)

  const MAX_TTL := 300

  predicate ObservedBefore(p: Payload, issuedAt: int) {
    && p.observedAt <= issuedAt && p.estimates.observedAt <= issuedAt && p.reputation.observedAt <= issuedAt
    && p.evidence.observedAt <= issuedAt
    && (p.preview.PreviewPassed? ==> p.preview.observedAt <= issuedAt)
  }

  /** The checks after decoding, in the order they are made. */
  function VerifyEnvelope(e: Envelope, m: Mandate, at: int, skew: int, trust: AttestationTrust): Result<Envelope, CoreError> {
    if e.keyId != trust.keyId then Err(CoreError("ATTESTATION_KEY_MISMATCH"))
    else if e.verifierPolicySha256 != trust.verifierPolicySha256 then Err(CoreError("ATTESTATION_POLICY_MISMATCH"))
    else if !(0 <= skew <= 300) then Err(CoreError("ATTESTATION_TRUST_INVALID"))
    else if e.issuedAt > at + skew then Err(CoreError("ATTESTATION_NOT_YET_VALID"))
    else if e.expiresAt <= e.issuedAt then Err(CoreError("ATTESTATION_EXPIRY_INVALID"))
    else if e.expiresAt - e.issuedAt > MAX_TTL then Err(CoreError("ATTESTATION_TTL_EXCEEDED"))
    else if e.expiresAt > e.payload.expiresAt then Err(CoreError("ATTESTATION_EXPIRY_INVALID"))
    else if e.expiresAt <= at then Err(CoreError("ATTESTATION_EXPIRED"))
    else if e.mandateSha256 != MandateSha256(m) then Err(CoreError("ATTESTATION_MANDATE_HASH_MISMATCH"))
    else if e.payloadSha256 != PayloadSha256(e.payload) then Err(CoreError("ATTESTATION_PAYLOAD_HASH_MISMATCH"))
    else if !ObservedBefore(e.payload, e.issuedAt) then Err(CoreError("ATTESTATION_OBSERVATION_AFTER_ISSUANCE"))
    else if !trust.signed(e) then Err(CoreError("ATTESTATION_SIGNATURE_INVALID"))
    else Ok(e)
  }

  function VerifyAttestation(wire: Text, m: Mandate, at: int, skew: int, trust: AttestationTrust): Result<Envelope, CoreError> {
    match trust.decode(wire)
    case Err(e) => Err(e)
    case Ok(e) => VerifyEnvelope(e, m, at, skew, trust)
  }

  /** Everything about an envelope that does not depend on when it is looked at. */
  predicate Sound(e: Envelope, m: Mandate, skew: int, trust: AttestationTrust) {
    && e.keyId == trust.keyId && e.verifierPolicySha256 == trust.verifierPolicySha256 && 0 <= skew <= 300
    && e.issuedAt < e.expiresAt <= e.issuedAt + 300 && e.expiresAt <= e.payload.expiresAt
    && e.mandateSha256.content == m && e.payloadSha256.content == e.payload
    && ObservedBefore(e.payload, e.issuedAt) && trust.signed(e)
  }

  /** The times at which an envelope verifies are one half-open interval, empty unless the envelope is sound. */
  lemma AcceptedIff(e: Envelope, m: Mandate, at: int, skew: int, trust: AttestationTrust)
    ensures VerifyEnvelope(e, m, at, skew, trust).Ok? <==> Sound(e, m, skew, trust) && e.issuedAt - skew <= at < e.expiresAt
    ensures VerifyEnvelope(e, m, at, skew, trust).Ok? ==> VerifyEnvelope(e, m, at, skew, trust).value == e
  {
    assert (e.mandateSha256 == MandateSha256(m)) == (e.mandateSha256.content == m);
    assert (e.payloadSha256 == PayloadSha256(e.payload)) == (e.payloadSha256.content == e.payload);
  }

  /** A sound envelope is refused for the clock alone: before its issuance less skew as not yet valid, from its expiry as expired. */
  lemma RefusedForTime(e: Envelope, m: Mandate, at: int, skew: int, trust: AttestationTrust)
    requires Sound(e, m, skew, trust)
    ensures VerifyEnvelope(e, m, at, skew, trust) == Err(CoreError("ATTESTATION_NOT_YET_VALID")) <==> at < e.issuedAt - skew
    ensures VerifyEnvelope(e, m, at, skew, trust) == Err(CoreError("ATTESTATION_EXPIRED")) <==> e.expiresAt <= at
  {
    AcceptedIff(e, m, at, skew, trust);
  }

  /** What each code accuses an envelope of. */
  predicate Accuses(code: string, e: Envelope, m: Mandate, at: int, skew: int, trust: AttestationTrust) {
    || (code == "ATTESTATION_KEY_MISMATCH" && e.keyId != trust.keyId)
    || (code == "ATTESTATION_POLICY_MISMATCH" && e.verifierPolicySha256 != trust.verifierPolicySha256)
    || (code == "ATTESTATION_TRUST_INVALID" && !(0 <= skew <= 300))
    || (code == "ATTESTATION_NOT_YET_VALID" && at < e.issuedAt - skew)
    || (code == "ATTESTATION_EXPIRY_INVALID" && !(e.issuedAt < e.expiresAt <= e.payload.expiresAt))
    || (code == "ATTESTATION_TTL_EXCEEDED" && e.issuedAt + 300 < e.expiresAt)
    || (code == "ATTESTATION_EXPIRED" && e.expiresAt <= at)
    || (code == "ATTESTATION_MANDATE_HASH_MISMATCH" && e.mandateSha256.content != m)
    || (code == "ATTESTATION_PAYLOAD_HASH_MISMATCH" && e.payloadSha256.content != e.payload)
    || (code == "ATTESTATION_OBSERVATION_AFTER_ISSUANCE" && !ObservedBefore(e.payload, e.issuedAt))
    || (code == "ATTESTATION_SIGNATURE_INVALID" && !trust.signed(e))
  }

  /** Every refusal is justified: what its code accuses the envelope of is so. */
  lemma RefusalIsJustified(e: Envelope, m: Mandate, at: int, skew: int, trust: AttestationTrust)
    requires VerifyEnvelope(e, m, at, skew, trust).Err?
    ensures Accuses(VerifyEnvelope(e, m, at, skew, trust).error.code, e, m, at, skew, trust)
  {
    assert (e.mandateSha256 == MandateSha256(m)) == (e.mandateSha256.content == m);
    assert (e.payloadSha256 == PayloadSha256(e.payload)) == (e.payloadSha256.content == e.payload);
  }

  /** And an envelope that some signature would make acceptable is refused for the one it has. */
  lemma RefusedForSignature(e: Envelope, m: Mandate, at: int, skew: int, trust: AttestationTrust)
    requires !trust.signed(e) && VerifyEnvelope(e, m, at, skew, trust.(signed := _ => true)).Ok?
    ensures VerifyEnvelope(e, m, at, skew, trust) == Err(CoreError("ATTESTATION_SIGNATURE_INVALID"))
  {}

  /**
   A verified attestation of a well-formed payload always makes a valid projection captured at its issuance: the
   chronology rules of the projection schema follow from the attestation's own.
   */
  lemma VerifiedIsValidProjection(e: Envelope, m: Mandate, at: int, skew: int, trust: AttestationTrust)
    requires VerifyEnvelope(e, m, at, skew, trust).Ok?
    requires ValidCandidate(e.payload.candidate) && ValidMeasures(e.payload.estimates, e.payload.reputation)
    requires ValidEvidence(e.payload.evidence)
    ensures ValidProjection(Projection(e.issuedAt, e.payload)) <==> EvidenceCategory(e.payload.evidence) == e.payload.category
  {
    AcceptedIff(e, m, at, skew, trust);
  }
}
