/** Verifying a category quote attestation and deriving its active report (`category-successor.ts`). */
module CategorySuccessor {
  import opened Foundations
  import opened Ordering
  import opened CategoryProduction
  import opened CategoryReads
  import opened CategoryLinkage

  const QUOTE_TTL := 300
  const MINIMUM_REMAINING := 30

  // ---- signed artifacts ----

  datatype Preview =
    | NotApplicable
    | Passed(anchor: Anchor)
    | FailedPreview(code: string)
    | Unavailable

  datatype Coverage = Complete | NoActions | Incomplete

  datatype AssuranceSummary = All(assurance: Assurance) | Mixed

  datatype Service = Service(
    mode: ServiceMode, actionPermissionsSha256: ActionsSha256, coverage: Coverage, permissionExpiresAt: int,
    assurance: AssuranceSummary)

  datatype Sidecars = Sidecars(
    identity: Identity, targets: seq<Target>, readProfile: ReadProfile, actionProfile: Option<ActionProfile>,
    service: Service, observation: Observation)

  datatype Projection = Projection(linkage: Linkage, sidecars: Sidecars, preview: Preview)

  datatype ProjectionSha256 = ProjectionSha256(content: Projection)

  datatype Envelope = Envelope(
    keyId: string, releaseId: string, releaseDefinitionSha256: string, publicKeyFingerprintSha256: string,
    issuedAt: int, expiresAt: int, mandateSha256: MandateV2Sha256, requestSha256: RequestSha256,
    projectionSha256: ProjectionSha256, verifierPolicySha256: string, categoryDeploymentSha256: string,
    quoteVerifyingContract: string, projection: Projection, signature: string)

  /** The summary of the targets' assurances. */
  function Summary(ts: seq<Target>): AssuranceSummary
    requires ts != []
  {
    if forall i :: 0 <= i < |ts| ==> ts[i].assurance == ts[0].assurance then All(ts[0].assurance) else Mixed
  }

  /** `marketplaceCategoryQuoteProjectionSchema`. */
  predicate ValidProjection(p: Projection, table: ReadTable) {
    var mode := p.linkage.body.serviceMode;
    var s := p.sidecars;
    && ValidLinkage(p.linkage) && 1 <= |s.targets| <= 4 && ValidReadProfile(s.readProfile)
    && (s.actionProfile.Some? ==> ValidActionProfile(s.actionProfile.value))
    && (mode.ObserveOnly? <==> p.preview.NotApplicable?)
    && s.service.mode == mode && s.service.actionPermissionsSha256 == p.linkage.body.actionPermissionsSha256
    && s.service.assurance == Summary(s.targets)
    && (mode.ObserveOnly? ==> s.actionProfile.None? && s.service.coverage.NoActions?)
    && (s.actionProfile.Some? ==>
          s.actionProfile.value.adapterId == p.linkage.body.adapterId && s.actionProfile.value.serviceMode == mode)
    && s.identity.identitySha256 == p.linkage.body.identity.identitySha256
    && s.identity.facts.registryAddress == p.linkage.body.identity.facts.registryAddress
    && s.identity.facts.ownerAddress == p.linkage.body.identity.facts.ownerAddress
    && TargetsSha256(s.targets) == p.linkage.body.observation.targetsSha256
    && s.readProfile.profileId == p.linkage.body.observation.readProfileId
    && StaticProfileSha256(StaticProfileOf(table, s.readProfile)) == p.linkage.body.observation.readProfileSha256
    && ReadsSha256(s.readProfile.commitments) == p.linkage.body.observation.readCommitmentsSha256
    && s.observation == p.linkage.body.observation
    && (forall i :: 0 <= i < |s.targets| ==> s.targets[i].anchor == s.observation.anchor)
  }

  // ---- trust ----

  datatype AdapterMode = AdapterMode(
    readProfileId: string, readProfileSha256: StaticProfileSha256, actionProfileId: Option<string>,
    actionProfileSha256: Option<ActionProfileSha256>, minimumTargetAssurance: Assurance)

  /** A signed authorization edge resolved for one issuance time, adapter and mode. */
  datatype Tuple = Tuple(
    production: bool, authorizesThisWire: bool, releaseDefinitionSha256: string, publicKeyFingerprintSha256: string,
    verifierPolicySha256: string, categoryDeploymentSha256: string, adapterMode: AdapterMode, publicKey: string)

  /** A trust store made from a commitment: its bundle's expiry, its tuples, and which envelopes a key has signed. */
  datatype Trust = Trust(
    bundleExpiresAt: int, quoteVerifyingContract: string,
    resolve: (string, string, int, AdapterId, ServiceMode) -> Option<Tuple>,
    signed: (string, Envelope) -> bool)

  datatype SuccessorError = SuccessorError(code: string)

  // ---- actions ----

  datatype ActionState = ActionState(coverage: Coverage, approved: bool, covered: bool)

  /** `deriveActionState`; the profile is `null` or the untyped input parsed. */
  function DeriveActionState(profile: Option<ActionProfile>, m: MandateV2, r: Request, t: Tuple): Result<ActionState, SuccessorError> {
    if r.serviceMode.ObserveOnly? then
      if profile.Some? || t.adapterMode.actionProfileId.Some? || t.adapterMode.actionProfileSha256.Some?
      then Err(SuccessorError("ACTION_PROFILE_UNEXPECTED"))
      else if !Covered(r.adapterId, ObserveOnly, m.actionPermissions, r.actionPermissions, m.maxSpendUsdMicros,
                 r.maxSpendUsdMicros, None)
      then Err(SuccessorError("COVERAGE"))
      else Ok(ActionState(NoActions, true, true))
    else if profile.None? || !ValidActionProfile(profile.value) then Ok(ActionState(Incomplete, false, false))
    else if t.adapterMode.actionProfileId != Some(profile.value.profileId)
            || t.adapterMode.actionProfileSha256 != Some(ActionProfileSha256(profile.value))
    then Err(SuccessorError("ACTION_PROFILE_MISMATCH"))
    else
      var covered := Covered(r.adapterId, Transactional, m.actionPermissions, r.actionPermissions, m.maxSpendUsdMicros,
                       r.maxSpendUsdMicros, profile);
      var approved := profile.value.approval != DRAFT_APPROVAL;
      Ok(ActionState(if covered && approved then Complete else Incomplete, approved, covered))
  }

  // ---- verification ----

  /** Everything a verification call is given besides the wire's envelope and the clock. */
  datatype Inputs = Inputs(
    mandate: MandateV2, request: Request, identity: Identity, targets: seq<Target>, readProfile: ReadProfile,
    table: ReadTable, trust: Trust)

  function FactsOf(x: Inputs, t: Tuple): Facts {
    Facts(x.mandate, x.request, x.identity, x.targets, x.readProfile, x.table, x.trust.quoteVerifyingContract,
      t.categoryDeploymentSha256, t.verifierPolicySha256)
  }

  /** `assertTupleBindings`. */
  predicate TupleBound(e: Envelope, t: Tuple, x: Inputs) {
    && t.production && t.authorizesThisWire
    && e.releaseDefinitionSha256 == t.releaseDefinitionSha256
    && e.publicKeyFingerprintSha256 == t.publicKeyFingerprintSha256
    && e.verifierPolicySha256 == t.verifierPolicySha256
    && e.categoryDeploymentSha256 == t.categoryDeploymentSha256
    && t.adapterMode.readProfileId == x.readProfile.profileId
    && t.adapterMode.readProfileSha256 == StaticProfileSha256(StaticProfileOf(x.table, x.readProfile))
    && e.projection.linkage.body.observation.readCommitmentsSha256 == ReadsSha256(x.readProfile.commitments)
  }

  /** `assertEnvelopeBindings`, with the code it throws. */
  function EnvelopeError(e: Envelope, m: MandateV2, r: Request, at: int): Option<SuccessorError> {
    var l := e.projection.linkage.body;
    if e.mandateSha256 != MandateV2Sha256(m) then Some(SuccessorError("MANDATE_HASH_MISMATCH"))
    else if e.requestSha256 != RequestSha256(r) then Some(SuccessorError("REQUEST_HASH_MISMATCH"))
    else if l.requestId != r.requestId || l.mandateId != m.mandateId || l.adapterId != r.adapterId
            || l.serviceMode != r.serviceMode
    then Some(SuccessorError("PROJECTION_BINDING_MISMATCH"))
    else if e.issuedAt < r.issuedAt - m.maxClockSkewSeconds || e.issuedAt > at + m.maxClockSkewSeconds
    then Some(SuccessorError("ATTESTATION_NOT_YET_VALID"))
    else if e.expiresAt <= e.issuedAt || e.expiresAt > e.issuedAt + QUOTE_TTL || e.expiresAt > m.expiresAt
            || e.expiresAt > r.expiresAt
    then Some(SuccessorError("ATTESTATION_EXPIRY_INVALID"))
    else if e.expiresAt <= at then Some(SuccessorError("ATTESTATION_EXPIRED"))
    else if l.identity.facts.anchor.observedAt > e.issuedAt || l.observation.anchor.observedAt > e.issuedAt
    then Some(SuccessorError("OBSERVATION_AFTER_ISSUANCE"))
    else None
  }

  /** `validateSuccessorSidecars`, with the code it throws. */
  function SidecarError(s: Sidecars, l: Linkage, x: Inputs, t: Tuple): Option<SuccessorError> {
    if s.identity != x.identity then Some(SuccessorError("IDENTITY_SIDECAR_MISMATCH"))
    else if s.targets != x.targets then Some(SuccessorError("TARGET_SIDECAR_MISMATCH"))
    else if s.readProfile != x.readProfile then Some(SuccessorError("READ_PROFILE_SIDECAR_MISMATCH"))
    else if s.observation != l.body.observation then Some(SuccessorError("OBSERVATION_SIDECAR_MISMATCH"))
    else if s.service.mode != x.request.serviceMode
            || s.service.actionPermissionsSha256 != x.request.actionPermissionsSha256
            || s.service.permissionExpiresAt != x.request.permissionsExpiresAt
    then Some(SuccessorError("SERVICE_SIDECAR_MISMATCH"))
    else if s.targets == [] || s.service.assurance != Summary(s.targets) then Some(SuccessorError("ASSURANCE_SIDECAR_MISMATCH"))
    else
      match DeriveActionState(s.actionProfile, x.mandate, x.request, t)
      case Err(e) => Some(e)
      case Ok(action) => if s.service.coverage != action.coverage then Some(SuccessorError("ACTION_COVERAGE_MISMATCH")) else None
  }

  /** A verified attestation: what the call registers and returns. */
  datatype Verified = Verified(envelope: Envelope, inputs: Inputs, tuple: Tuple, evaluatedAt: int)

  /** `verifyMarketplaceCategoryQuoteAttestation` on a decoded envelope, at the time its clock returned. */
  function Verify(e: Envelope, x: Inputs, at: int): Result<Verified, SuccessorError> {
    if !ValidUnixSeconds(at) then Err(SuccessorError("CLOCK_INVALID"))
    else if at >= x.trust.bundleExpiresAt then Err(SuccessorError("TRUST_BUNDLE_EXPIRED"))
    else if BindRequest(x.request, x.mandate).Err? then Err(SuccessorError("REQUEST"))
    else if !IdentityFits(x.identity, x.request.candidate) then Err(SuccessorError("IDENTITY"))
    else if !TargetsFit(x.request.categoryScope, x.targets) then Err(SuccessorError("TARGETS"))
    else if !ReadProfileFits(x.table, x.request.categoryScope, x.readProfile) then Err(SuccessorError("READ_PROFILE"))
    else if !ValidProjection(e.projection, x.table) || !ValidUnixSeconds(e.issuedAt) || !ValidUnixSeconds(e.expiresAt)
    then Err(SuccessorError("ATTESTATION_SCHEMA_INVALID"))
    else if e.quoteVerifyingContract != x.trust.quoteVerifyingContract then Err(SuccessorError("QUOTE_DOMAIN_MISMATCH"))
    else
      match x.trust.resolve(e.keyId, e.releaseId, e.issuedAt, x.request.adapterId, x.request.serviceMode)
      case None => Err(SuccessorError("TRUST_BUNDLE_TUPLE_INVALID"))
      case Some(t) =>
        if !TupleBound(e, t, x) then Err(SuccessorError("TRUST_TUPLE_MISMATCH"))
        else if EnvelopeError(e, x.mandate, x.request, at).Some? then Err(EnvelopeError(e, x.mandate, x.request, at).value)
        else if !Accepts(e.projection.linkage, FactsOf(x, t), at) then Err(SuccessorError("LINKAGE"))
        else if SidecarError(e.projection.sidecars, e.projection.linkage, x, t).Some?
        then Err(SidecarError(e.projection.sidecars, e.projection.linkage, x, t).value)
        else if e.projectionSha256 != ProjectionSha256(e.projection) then Err(SuccessorError("PROJECTION_HASH_MISMATCH"))
        else if !x.trust.signed(t.publicKey, e) then Err(SuccessorError("ATTESTATION_SIGNATURE_INVALID"))
        else Ok(Verified(e, x, t, at))
  }

  // ---- exactly when an attestation verifies ----

  /** `validUntil` as the report computes it, without the safe-integer checks of the linkage. */
  function ReportValidUntil(e: Envelope, m: MandateV2, r: Request): int {
    var l := e.projection.linkage.body;
    Min(Min(Min(e.expiresAt, m.expiresAt), Min(r.expiresAt, r.permissionsExpiresAt)),
        Min(l.acceptance.quoteExpiresAt,
            Min(e.projection.sidecars.identity.facts.anchor.observedAt + IDENTITY_MAX_AGE + 1,
                e.projection.sidecars.observation.anchor.observedAt + m.maxEvidenceAgeSeconds + 1)))
  }

  function VerifiesFrom(e: Envelope, m: MandateV2): int {
    var l := e.projection.linkage.body;
    Max(Max(e.issuedAt, l.acceptance.negotiatedAt), l.observation.anchor.observedAt) - m.maxClockSkewSeconds
  }

  /** The envelope's own bindings at any time. */
  predicate EnvelopeFirm(e: Envelope, m: MandateV2, r: Request) {
    var l := e.projection.linkage.body;
    && e.mandateSha256 == MandateV2Sha256(m) && e.requestSha256 == RequestSha256(r)
    && l.requestId == r.requestId && l.mandateId == m.mandateId && l.adapterId == r.adapterId && l.serviceMode == r.serviceMode
    && e.issuedAt >= r.issuedAt - m.maxClockSkewSeconds
    && e.issuedAt < e.expiresAt <= e.issuedAt + QUOTE_TTL && e.expiresAt <= m.expiresAt && e.expiresAt <= r.expiresAt
    && l.identity.facts.anchor.observedAt <= e.issuedAt && l.observation.anchor.observedAt <= e.issuedAt
  }

  /** Everything about an attestation that does not look at the clock. */
  predicate Firm(e: Envelope, x: Inputs) {
    var t := x.trust.resolve(e.keyId, e.releaseId, e.issuedAt, x.request.adapterId, x.request.serviceMode);
    && ValidProjection(e.projection, x.table) && ValidUnixSeconds(e.issuedAt) && ValidUnixSeconds(e.expiresAt)
    && e.quoteVerifyingContract == x.trust.quoteVerifyingContract
    && t.Some? && TupleBound(e, t.value, x) && EnvelopeFirm(e, x.mandate, x.request)
    && Standing(e.projection.linkage, FactsOf(x, t.value))
    && SidecarError(e.projection.sidecars, e.projection.linkage, x, t.value).None?
    && e.projectionSha256 == ProjectionSha256(e.projection) && x.trust.signed(t.value.publicKey, e)
  }

  lemma EnvelopeErrorIff(e: Envelope, m: MandateV2, r: Request, at: int)
    ensures EnvelopeError(e, m, r, at).None? <==>
            EnvelopeFirm(e, m, r) && e.issuedAt - m.maxClockSkewSeconds <= at < e.expiresAt
  {}

  /** Verification is the conjunction of its parts. */
  predicate AllParts(e: Envelope, x: Inputs, at: int) {
    var t := x.trust.resolve(e.keyId, e.releaseId, e.issuedAt, x.request.adapterId, x.request.serviceMode);
    && ValidUnixSeconds(at) && at < x.trust.bundleExpiresAt
    && ValidProjection(e.projection, x.table) && ValidUnixSeconds(e.issuedAt) && ValidUnixSeconds(e.expiresAt)
    && e.quoteVerifyingContract == x.trust.quoteVerifyingContract
    && t.Some? && TupleBound(e, t.value, x)
    && EnvelopeError(e, x.mandate, x.request, at).None?
    && Accepts(e.projection.linkage, FactsOf(x, t.value), at)
    && SidecarError(e.projection.sidecars, e.projection.linkage, x, t.value).None?
    && e.projectionSha256 == ProjectionSha256(e.projection) && x.trust.signed(t.value.publicKey, e)
  }

  lemma VerifyHasAllParts(e: Envelope, x: Inputs, at: int)
    requires Verify(e, x, at).Ok?
    ensures AllParts(e, x, at)
  {}

  lemma AllPartsVerify(e: Envelope, x: Inputs, at: int)
    requires AllParts(e, x, at)
    ensures Verify(e, x, at).Ok?
  {
    var t := x.trust.resolve(e.keyId, e.releaseId, e.issuedAt, x.request.adapterId, x.request.serviceMode);
    assert FactsFit(FactsOf(x, t.value));
  }

  lemma VerifyIsAllParts(e: Envelope, x: Inputs, at: int)
    ensures Verify(e, x, at).Ok? <==> AllParts(e, x, at)
  {
    if Verify(e, x, at).Ok? {
      VerifyHasAllParts(e, x, at);
    }
    if AllParts(e, x, at) {
      AllPartsVerify(e, x, at);
    }
  }

  /** The sidecars repeat the observations the linkage was validated against, so both expiries are the same number. */
  lemma SameExpiry(e: Envelope, x: Inputs, t: Tuple)
    requires Standing(e.projection.linkage, FactsOf(x, t))
    requires SidecarError(e.projection.sidecars, e.projection.linkage, x, t).None?
    ensures ReportValidUntil(e, x.mandate, x.request) == Min(e.expiresAt, LinkageExpiry(e.projection.linkage, FactsOf(x, t)).value)
    ensures e.projection.linkage.body.identity.facts.anchor == e.projection.linkage.body.observation.anchor
  {}

  /**
   The times at which an attestation verifies are exactly one half-open interval. Its upper end is the report's
   `validUntil`, cut off by the trust bundle's expiry; the many expiry and freshness checks of both files come to no more.
   */
  lemma VerifyIff(e: Envelope, x: Inputs, at: int)
    ensures Verify(e, x, at).Ok? <==>
            && Firm(e, x) && 0 < at && VerifiesFrom(e, x.mandate) <= at
            && at < Min(ReportValidUntil(e, x.mandate, x.request), x.trust.bundleExpiresAt)
  {
    VerifyIsAllParts(e, x, at);
    EnvelopeErrorIff(e, x.mandate, x.request, at);
    var t := x.trust.resolve(e.keyId, e.releaseId, e.issuedAt, x.request.adapterId, x.request.serviceMode);
    if t.Some? {
      AcceptsIff(e.projection.linkage, FactsOf(x, t.value), at);
      if Standing(e.projection.linkage, FactsOf(x, t.value))
         && SidecarError(e.projection.sidecars, e.projection.linkage, x, t.value).None? {
        SameExpiry(e, x, t.value);
      }
    }
  }

  // ---- the derived report ----

  datatype Status = VerifiedHireable | Ineligible | InconclusiveStatus | UnavailableStatus

  datatype EnvelopeSha256 = EnvelopeSha256(content: Envelope)

  datatype Report = Report(
    status: Status, attestationSha256: EnvelopeSha256, requestId: string, mandateId: string, category: CategoryKind,
    adapterId: AdapterId, protocol: string, candidate: Selector, serviceMode: ServiceMode,
    minimumTargetAssurance: Assurance, linkage: Linkage, sidecars: Sidecars, actionCoverage: Coverage, preview: Preview,
    validUntil: int, evaluatedAt: int)

  predicate AllVerified(ts: seq<Target>) {
    forall i :: 0 <= i < |ts| ==> ts[i].assurance.InstanceVerified?
  }

  /** `marketplaceCategoryActiveReportSchema`. */
  predicate ValidReport(r: Report) {
    && ValidUnixSeconds(r.validUntil) && ValidUnixSeconds(r.evaluatedAt)
    && r.sidecars.service.mode == r.serviceMode && r.sidecars.service.coverage == r.actionCoverage
    && !(r.status.VerifiedHireable?
         && (r.validUntil - r.evaluatedAt < MINIMUM_REMAINING
             || (r.serviceMode.Transactional? && (!r.actionCoverage.Complete? || !r.preview.Passed?))
             || (r.minimumTargetAssurance.InstanceVerified? && !AllVerified(r.sidecars.targets))))
    && (r.serviceMode.ObserveOnly? ==> r.actionCoverage.NoActions? && r.preview.NotApplicable?)
    && (r.serviceMode.Transactional? ==> r.minimumTargetAssurance.InstanceVerified?)
  }

  /** The untyped action profile a caller may pass. */
  datatype ProfileInput = NullProfile | Given(profile: ActionProfile)

  /** `resolveReportActionProfile`. */
  function ResolveProfile(input: ProfileInput, signedProfile: Option<ActionProfile>): Result<Option<ActionProfile>, SuccessorError> {
    match input
    case NullProfile => Ok(signedProfile)
    case Given(p) =>
      if !ValidActionProfile(p) then Err(SuccessorError("ACTION_PROFILE_INVALID"))
      else if signedProfile != Some(p) then Err(SuccessorError("ACTION_PROFILE_SIDECAR_MISMATCH"))
      else Ok(Some(p))
  }

  /** `deriveStatus`; a signed observation's own status is always a pass. */
  function DeriveStatus(
    mode: ServiceMode, preview: Preview, observation: Observation, action: ActionState, enoughValidity: bool, at: int,
    skew: int, maxAge: int): Status
  {
    if !enoughValidity then UnavailableStatus
    else if mode.ObserveOnly? then VerifiedHireable
    else
      match preview
      case Unavailable => UnavailableStatus
      case FailedPreview(_) => Ineligible
      case NotApplicable => InconclusiveStatus
      case Passed(anchor) =>
        if anchor.observedAt > at + skew || at - anchor.observedAt > maxAge || anchor != observation.anchor then InconclusiveStatus
        else if !action.covered then Ineligible
        else if !action.approved || !action.coverage.Complete? then InconclusiveStatus
        else VerifiedHireable
  }

  function MinimumAssurance(v: Verified): Assurance {
    if v.inputs.request.serviceMode.Transactional? then InstanceVerified else v.tuple.adapterMode.minimumTargetAssurance
  }

  function ReportFor(v: Verified, action: ActionState, at: int): Report {
    var e, m, r := v.envelope, v.inputs.mandate, v.inputs.request;
    var sidecars := e.projection.sidecars;
    var validUntil := ReportValidUntil(e, m, r);
    var before := DeriveStatus(r.serviceMode, e.projection.preview, e.projection.linkage.body.observation, action,
                    validUntil - at >= MINIMUM_REMAINING, at, m.maxClockSkewSeconds, m.maxEvidenceAgeSeconds);
    var meets := MinimumAssurance(v).InterfaceOnly? || AllVerified(sidecars.targets);
    Report(if before.VerifiedHireable? && !meets then InconclusiveStatus else before, EnvelopeSha256(e), r.requestId,
      m.mandateId, r.category, r.adapterId, r.protocol, r.candidate, r.serviceMode, MinimumAssurance(v),
      e.projection.linkage, sidecars, action.coverage, e.projection.preview, validUntil, at)
  }

  /** `deriveMarketplaceCategoryActiveReport` for a registered attestation, at the time its clock returned. */
  function Derive(v: Verified, input: ProfileInput, at: int): Result<Report, SuccessorError> {
    if !ValidUnixSeconds(at) then Err(SuccessorError("CLOCK_INVALID"))
    else if at != v.evaluatedAt then Err(SuccessorError("ATTESTATION_REVERIFY_REQUIRED"))
    else
      match ResolveProfile(input, v.envelope.projection.sidecars.actionProfile)
      case Err(e) => Err(e)
      case Ok(profile) =>
        match DeriveActionState(profile, v.inputs.mandate, v.inputs.request, v.tuple)
        case Err(e) => Err(e)
        case Ok(action) =>
          if ValidReport(ReportFor(v, action, at)) then Ok(ReportFor(v, action, at)) else Err(SuccessorError("REPORT_SCHEMA"))
  }

  // ---- what reports guarantee ----

  /** What verification leaves true of the value it registers. */
  lemma VerifiedHolds(e: Envelope, x: Inputs, at: int)
    requires Verify(e, x, at).Ok?
    ensures
      var v := Verify(e, x, at).value;
      && v.envelope == e && v.inputs == x && v.evaluatedAt == at
      && ValidUnixSeconds(at) && at < ReportValidUntil(e, x.mandate, x.request) && ValidUnixSeconds(e.expiresAt)
      && ValidProjection(e.projection, x.table) && e.projection.linkage.body.serviceMode == x.request.serviceMode
      && SidecarError(e.projection.sidecars, e.projection.linkage, x, v.tuple).None?
  {
    VerifyIff(e, x, at);
    VerifyIsAllParts(e, x, at);
    EnvelopeErrorIff(e, x.mandate, x.request, at);
  }

  /** The action state the sidecars were checked against. */
  lemma SignedActionState(s: Sidecars, l: Linkage, x: Inputs, t: Tuple)
    requires SidecarError(s, l, x, t).None?
    ensures DeriveActionState(s.actionProfile, x.mandate, x.request, t).Ok?
    ensures DeriveActionState(s.actionProfile, x.mandate, x.request, t).value.coverage == s.service.coverage
    ensures s.service.mode == x.request.serviceMode
  {}

  /**
   At the tick of verification a report can always be derived with a null profile or the signed one, and with nothing
   else; the report's own schema never rejects it.
   */
  lemma DeriveSucceedsIff(e: Envelope, x: Inputs, at: int, input: ProfileInput, later: int)
    requires Verify(e, x, at).Ok?
    ensures
      var v := Verify(e, x, at).value;
      Derive(v, input, later).Ok? <==>
        later == at && (input.NullProfile? || e.projection.sidecars.actionProfile == Some(input.profile))
  {
    VerifiedHolds(e, x, at);
    var v := Verify(e, x, at).value;
    SignedActionState(e.projection.sidecars, e.projection.linkage, x, v.tuple);
    var action := DeriveActionState(e.projection.sidecars.actionProfile, x.mandate, x.request, v.tuple).value;
    ReportIsValid(v, action, at);
  }

  lemma ReportIsValid(v: Verified, action: ActionState, at: int)
    requires ValidUnixSeconds(at) && ValidUnixSeconds(v.envelope.expiresAt)
    requires at < ReportValidUntil(v.envelope, v.inputs.mandate, v.inputs.request)
    requires ValidProjection(v.envelope.projection, v.inputs.table)
    requires v.envelope.projection.linkage.body.serviceMode == v.inputs.request.serviceMode
    requires DeriveActionState(v.envelope.projection.sidecars.actionProfile, v.inputs.mandate, v.inputs.request, v.tuple) == Ok(action)
    requires v.envelope.projection.sidecars.service.coverage == action.coverage
    ensures ValidReport(ReportFor(v, action, at))
  {}

  /** A draft profile never counts as approved, so coverage of a transactional request is never complete. */
  lemma DraftsAreNeverComplete(profile: Option<ActionProfile>, m: MandateV2, r: Request, t: Tuple)
    requires r.serviceMode.Transactional? && DeriveActionState(profile, m, r, t).Ok?
    ensures DeriveActionState(profile, m, r, t).value.coverage.Incomplete?
    ensures !DeriveActionState(profile, m, r, t).value.approved
  {}

  /**
   A report derived at the tick of verification is VERIFIED_HIREABLE exactly for an observe-only request with at least
   thirty seconds left whose targets all meet the release's assurance; while profiles are drafts no transactional
   report is.
   */
  lemma HireableIff(e: Envelope, x: Inputs, at: int, input: ProfileInput)
    requires Verify(e, x, at).Ok? && Derive(Verify(e, x, at).value, input, at).Ok?
    ensures
      var v := Verify(e, x, at).value;
      var report := Derive(v, input, at).value;
      && (report.status.VerifiedHireable? <==>
            && x.request.serviceMode.ObserveOnly?
            && ReportValidUntil(e, x.mandate, x.request) - at >= MINIMUM_REMAINING
            && (v.tuple.adapterMode.minimumTargetAssurance.InterfaceOnly? || AllVerified(x.targets)))
      && report.validUntil == ReportValidUntil(e, x.mandate, x.request) && report.evaluatedAt == at
  {
    VerifiedHolds(e, x, at);
    var v := Verify(e, x, at).value;
    var profile := ResolveProfile(input, e.projection.sidecars.actionProfile).value;
    if x.request.serviceMode.Transactional? {
      DraftsAreNeverComplete(profile, x.mandate, x.request, v.tuple);
    }
  }

  /**
   `validUntil` is exact: before the trust bundle expires, verifying the same attestation again at any later second
   succeeds if and only if that second is before it.
   */
  lemma ValidUntilIsExact(e: Envelope, x: Inputs, at: int, later: int)
    requires Verify(e, x, at).Ok? && at <= later < x.trust.bundleExpiresAt
    ensures Verify(e, x, later).Ok? <==> later < ReportValidUntil(e, x.mandate, x.request)
  {
    VerifyIff(e, x, at);
    VerifyIff(e, x, later);
  }

  // ---- the process registries ----

  /** `verifiedTrustStores` and `verifiedAttestations`: handles stand for the identity of the registered objects. */
  class Registry {
    var stores: map<nat, Trust>
    var attestations: map<nat, Verified>

    /** Every registered attestation verified, at its recorded tick, under a registered trust store. */
    ghost predicate Valid()
      reads this
    {
      forall h :: h in attestations ==> RegisteredProperly(stores, attestations[h])
    }

    constructor ()
      ensures Valid() && stores == map[] && attestations == map[]
    {
      stores, attestations := map[], map[];
    }

    method CreateTrustStore(handle: nat, trust: Trust)
      requires Valid() && handle !in stores
      modifies this
      ensures Valid() && stores == old(stores)[handle := trust] && attestations == old(attestations)
    {
      stores := stores[handle := trust];
      forall h | h in attestations ensures RegisteredProperly(stores, attestations[h]) {
        StoresGrow(old(stores), handle, trust, attestations[h]);
      }
    }

    method VerifyAttestation(store: nat, handle: nat, e: Envelope, x: Inputs, at: int) returns (r: Result<Verified, SuccessorError>)
      requires Valid() && handle !in attestations
      modifies this
      ensures Valid() && stores == old(stores)
      ensures r == if store in stores then Verify(e, x.(trust := stores[store]), at) else Err(SuccessorError("TRUST_STORE_UNVERIFIED"))
      ensures attestations == if r.Ok? then old(attestations)[handle := r.value] else old(attestations)
    {
      if store !in stores {
        return Err(SuccessorError("TRUST_STORE_UNVERIFIED"));
      }
      r := Verify(e, x.(trust := stores[store]), at);
      if r.Ok? {
        VerifiedHolds(e, x.(trust := stores[store]), at);
        attestations := attestations[handle := r.value];
      }
    }

    method DeriveReport(handle: nat, input: ProfileInput, at: int) returns (r: Result<Report, SuccessorError>)
      requires Valid()
      ensures r == if handle in attestations then Derive(attestations[handle], input, at)
                   else Err(SuccessorError("ATTESTATION_PROVENANCE_INVALID"))
      ensures r.Ok? ==> r.value.validUntil > at && ReportIsVerified(attestations[handle], r.value)
    {
      if handle !in attestations {
        return Err(SuccessorError("ATTESTATION_PROVENANCE_INVALID"));
      }
      r := Derive(attestations[handle], input, at);
      var v := attestations[handle];
      assert RegisteredProperly(stores, v);
      VerifiedHolds(v.envelope, v.inputs, v.evaluatedAt);
    }
  }

  ghost predicate RegisteredProperly(stores: map<nat, Trust>, v: Verified) {
    && (exists s :: s in stores && stores[s] == v.inputs.trust)
    && Verify(v.envelope, v.inputs, v.evaluatedAt) == Ok(v)
  }

  lemma StoresGrow(stores: map<nat, Trust>, handle: nat, trust: Trust, v: Verified)
    requires RegisteredProperly(stores, v) && handle !in stores
    ensures RegisteredProperly(stores[handle := trust], v)
  {
    var s :| s in stores && stores[s] == v.inputs.trust;
    assert s in stores[handle := trust] && stores[handle := trust][s] == v.inputs.trust;
  }

  /** The report carries the registered attestation's own linkage, sidecars and preview. */
  predicate ReportIsVerified(v: Verified, r: Report) {
    && r.attestationSha256.content == v.envelope && r.linkage == v.envelope.projection.linkage
    && r.sidecars == v.envelope.projection.sidecars && r.preview == v.envelope.projection.preview
    && r.evaluatedAt == v.evaluatedAt
  }
}
