/**
 What an attested category quote is (`category-production.ts`, `category-linkage.ts`, `category-successor.ts`): nearly
 every field of its projection is one the verifier could have written down itself.
 */
module SuccessorForm {
  import opened Foundations
  import opened CategoryProduction
  import opened CategoryReads
  import opened CategoryLinkage
  import opened CategorySuccessor
  import opened ReportTable

  // ---- bound requests ----

  /** The request is for this mandate and asks for no more than it grants. */
  ghost predicate Attenuates(r: Request, m: MandateV2) {
    && r.mandateId == m.mandateId && r.mandateSha256.content == m
    && r.categoryScope == m.categoryScope && r.categoryScopeSha256.content == m.categoryScope
    && r.serviceMode == m.serviceMode && r.actionPermissionsSha256.content == r.actionPermissions
    && (forall i :: 0 <= i < |r.actionPermissions| ==> Allows(m.actionPermissions, r.actionPermissions[i]))
    && r.maxSpendUsdMicros <= m.maxSpendUsdMicros && r.permissionsExpiresAt <= m.permissionsExpiresAt
    && m.createdAt <= r.issuedAt && r.expiresAt <= m.expiresAt
  }

  /** Some granted action differs from the asked one in its value alone, and not downwards. */
  ghost predicate Allows(grants: seq<Action>, asked: Action) {
    exists i :: 0 <= i < |grants| && grants[i] == asked.(maxValueWei := grants[i].maxValueWei) && asked.maxValueWei <= grants[i].maxValueWei
  }

  lemma GrantedIff(grants: seq<Action>, asked: Action)
    requires DistinctIds(grants)
    ensures Granted(grants, asked) <==> Allows(grants, asked)
  {
    if Granted(grants, asked) {
      var g := FindAction(grants, asked.actionId).value;
      var k :| 0 <= k < |grants| && grants[k] == g;
    }
    if Allows(grants, asked) {
      var k :| 0 <= k < |grants| && grants[k] == asked.(maxValueWei := grants[k].maxValueWei) && asked.maxValueWei <= grants[k].maxValueWei;
      FindIsUnique(grants, k);
    }
  }

  lemma AllGrantedIff(grants: seq<Action>, asked: seq<Action>)
    requires UniqueSorted(grants)
    ensures AllGranted(grants, asked) <==> forall i :: 0 <= i < |asked| ==> Allows(grants, asked[i])
  {
    UniqueSortedDistinct(grants);
    forall i | 0 <= i < |asked| ensures Granted(grants, asked[i]) <==> Allows(grants, asked[i]) {
      GrantedIff(grants, asked[i]);
    }
  }

  /** A request is accepted exactly when both artifacts are valid and it attenuates its mandate. */
  lemma BindIff(r: Request, m: MandateV2)
    ensures BindRequest(r, m).Ok? <==> ValidMandateV2(m) && ValidRequest(r) && Attenuates(r, m)
  {
    if ValidMandateV2(m) {
      AllGrantedIff(m.actionPermissions, r.actionPermissions);
    }
  }

  /**
   Coverage by cases: an observer asks for nothing and was granted nothing; a trader asks, within the spend cap, only for
   calls that the mandate allows and a draft profile of the adapter admits.
   */
  lemma CoveredByCases(
    adapterId: AdapterId, mode: ServiceMode, mandate: seq<Action>, quoted: seq<Action>, mandateSpend: nat, quotedSpend: nat,
    profile: Option<ActionProfile>)
    requires DistinctIds(mandate) && |mandate| <= 64
    ensures Covered(adapterId, mode, mandate, quoted, mandateSpend, quotedSpend, profile) <==>
            if mode == ObserveOnly then mandate == [] && quoted == [] && quotedSpend == 0
            else
              && 1 <= |quoted| <= 64 && quotedSpend <= mandateSpend
              && profile.Some? && ValidActionProfile(profile.value) && profile.value.adapterId == adapterId
              && forall i :: 0 <= i < |quoted| ==> Allows(mandate, quoted[i]) && Admits(profile, quoted[i])
  {
    if profile.Some? && ValidActionProfile(profile.value) {
      forall i | 0 <= i < |quoted|
        ensures Granted(mandate, quoted[i]) <==> Allows(mandate, quoted[i])
        ensures Profiled(profile.value, quoted[i]) <==> Admits(profile, quoted[i])
      {
        GrantedIff(mandate, quoted[i]);
        ProfiledIff(profile.value, quoted[i]);
      }
    }
  }

  // ---- the linkage ----

  /** What the provider and the observer contribute to a linkage. */
  datatype Parts = Parts(
    contractAccount: bool, providerCodeSha256: string, transcript: string, negotiatedAt: int, quoteExpiresAt: int, evidence: string)

  function PartsOf(l: Linkage): Parts {
    var a := l.body.acceptance;
    Parts(a.contractAccount, a.providerCodeSha256, a.transcript, a.negotiatedAt, a.quoteExpiresAt, l.body.observation.evidence)
  }

  /** The observation of these targets and reads under the pinned release, on the block the identity was read. */
  function ExpectedObservation(f: Facts, p: Parts): Observation {
    Observation(f.categoryDeploymentSha256, f.verifierPolicySha256, TargetsSha256(f.targets), f.readProfile.profileId,
      StaticProfileSha256(StaticProfileOf(f.table, f.readProfile)), ReadsSha256(f.readProfile.commitments), p.evidence,
      f.identity.facts.anchor)
  }

  /** The owner accepts this request, for this candidate, before the expected contract. */
  function ExpectedAcceptance(f: Facts, p: Parts): ProviderAcceptance {
    var r, owner := f.request, f.identity.facts.ownerAddress;
    ProviderAcceptance(p.contractAccount, p.contractAccount, owner, owner, p.providerCodeSha256, 56, f.verifyingContract,
      f.identity.identitySha256, MandateV2Sha256(f.mandate), RequestSha256(r), SubjectSha256(r.categoryScope.subject),
      PolicySha256(r.categoryScope.conditionPolicy), ActionsSha256(r.actionPermissions), r.nonce, p.transcript, p.negotiatedAt,
      p.quoteExpiresAt)
  }

  /** The linkage body a verifier would write for these facts. */
  function ExpectedBody(f: Facts, p: Parts): LinkageBody {
    var r, owner := f.request, f.identity.facts.ownerAddress;
    LinkageBody(r.requestId, r.mandateId, MandateV2Sha256(f.mandate), RequestSha256(r), r.category, r.adapterId, r.protocol,
      r.candidate, f.identity, ProviderAuthority(owner, owner, p.providerCodeSha256, f.identity.identitySha256),
      ExpectedAcceptance(f, p), r.categoryScope, ScopeSha256(r.categoryScope), SubjectSha256(r.categoryScope.subject),
      PolicySha256(r.categoryScope.conditionPolicy), r.serviceMode, ActionsSha256(r.actionPermissions), ExpectedObservation(f, p))
  }

  /** The times a linkage fixes are in order, whatever the clock. */
  predicate TimesStand(f: Facts, p: Parts) {
    var observedAt := f.identity.facts.anchor.observedAt;
    && 0 < p.negotiatedAt < p.quoteExpiresAt <= f.request.expiresAt
    && f.request.issuedAt - f.mandate.maxClockSkewSeconds <= p.negotiatedAt
    && f.mandate.createdAt <= observedAt
    && IsSafe(observedAt + 301) && IsSafe(observedAt + f.mandate.maxEvidenceAgeSeconds + 1)
  }

  lemma ExpectedIsBound(l: Linkage, f: Facts)
    requires FactsFit(f) && ValidLinkage(l) && Bound(l, f)
    ensures l.body == ExpectedBody(f, PartsOf(l))
  {
    var b, p := l.body, PartsOf(l);
    assert b.identity == f.identity;
    assert b.acceptance == ExpectedAcceptance(f, p);
    assert b.observation == ExpectedObservation(f, p);
    var owner := f.identity.facts.ownerAddress;
    assert b.authority == ProviderAuthority(owner, owner, p.providerCodeSha256, f.identity.identitySha256);
  }

  lemma BoundIsExpected(l: Linkage, f: Facts)
    requires FactsFit(f) && l == Linkage(ExpectedBody(f, PartsOf(l)), LinkageSha256(l.body))
    requires TimesStand(f, PartsOf(l)) && forall i :: 0 <= i < |f.targets| ==> f.targets[i].anchor == f.identity.facts.anchor
    ensures ValidLinkage(l) && Bound(l, f)
  {
    BindIff(f.request, f.mandate);
  }

  /**
   A linkage stands exactly when it is the one the verifier would write, but for the provider's and the observer's own
   parts, with its digest, its targets seen on the identity's block and its times in order.
   */
  lemma StandingIff(l: Linkage, f: Facts)
    ensures Standing(l, f) <==>
            && FactsFit(f) && l == Linkage(ExpectedBody(f, PartsOf(l)), LinkageSha256(l.body)) && TimesStand(f, PartsOf(l))
            && forall i :: 0 <= i < |f.targets| ==> f.targets[i].anchor == f.identity.facts.anchor
  {
    if Standing(l, f) {
      ExpectedIsBound(l, f);
    }
    if FactsFit(f) && l == Linkage(ExpectedBody(f, PartsOf(l)), LinkageSha256(l.body)) && TimesStand(f, PartsOf(l))
       && forall i :: 0 <= i < |f.targets| ==> f.targets[i].anchor == f.identity.facts.anchor {
      BoundIsExpected(l, f);
    }
  }

  // ---- the attestation ----

  /** One assurance for all targets, or mixed. */
  predicate IsSummary(a: AssuranceSummary, ts: seq<Target>) {
    match a
    case All(assurance) => forall i :: 0 <= i < |ts| ==> ts[i].assurance == assurance
    case Mixed => !(forall i, j :: 0 <= i < j < |ts| ==> ts[i].assurance == ts[j].assurance)
  }

  /** The sidecars repeat what the verifier observed; coverage is what draft profiles leave of it. */
  ghost predicate SidecarsRepeat(s: Sidecars, x: Inputs, t: Tuple, p: Parts) {
    && s.identity == x.identity && s.targets == x.targets && s.readProfile == x.readProfile
    && s.observation == ExpectedObservation(FactsOf(x, t), p)
    && s.service.mode == x.request.serviceMode && s.service.actionPermissionsSha256.content == x.request.actionPermissions
    && s.service.permissionExpiresAt == x.request.permissionsExpiresAt && IsSummary(s.service.assurance, x.targets)
    && s.service.coverage == (if x.request.serviceMode == ObserveOnly then NoActions else Incomplete)
    && ProfilePinned(s.actionProfile, x.request, t)
  }

  /** Observers carry no profile; a transactional profile is a draft for this adapter, pinned by the release. */
  predicate ProfilePinned(profile: Option<ActionProfile>, r: Request, t: Tuple) {
    if r.serviceMode == ObserveOnly
    then profile == None && t.adapterMode.actionProfileId == None && t.adapterMode.actionProfileSha256 == None
    else
      profile.Some? ==>
        && ValidActionProfile(profile.value) && profile.value.adapterId == r.adapterId
        && t.adapterMode.actionProfileId == Some(profile.value.profileId)
        && t.adapterMode.actionProfileSha256.Some? && t.adapterMode.actionProfileSha256.value.content == profile.value
  }

  /** The envelope names its release's own pins, and the release the observed reads. */
  predicate PinsMatch(e: Envelope, x: Inputs, t: Tuple) {
    && t.production && t.authorizesThisWire
    && e.releaseDefinitionSha256 == t.releaseDefinitionSha256 && e.publicKeyFingerprintSha256 == t.publicKeyFingerprintSha256
    && e.verifierPolicySha256 == t.verifierPolicySha256 && e.categoryDeploymentSha256 == t.categoryDeploymentSha256
    && e.quoteVerifyingContract == x.trust.quoteVerifyingContract
    && t.adapterMode.readProfileId == x.readProfile.profileId
    && t.adapterMode.readProfileSha256.content == StaticProfileOf(x.table, x.readProfile)
  }

  /** Issued for this request, at most five minutes long, within mandate and request, after what it reports. */
  predicate LivesWithin(e: Envelope, x: Inputs) {
    && 0 < e.issuedAt && x.request.issuedAt - x.mandate.maxClockSkewSeconds <= e.issuedAt
    && e.issuedAt < e.expiresAt <= e.issuedAt + 300 && e.expiresAt <= x.mandate.expiresAt && e.expiresAt <= x.request.expiresAt
    && x.identity.facts.anchor.observedAt <= e.issuedAt
  }

  /** Everything verification asks of an attestation that does not look at the clock, said of contents. */
  ghost predicate Attested(e: Envelope, x: Inputs) {
    var resolved := x.trust.resolve(e.keyId, e.releaseId, e.issuedAt, x.request.adapterId, x.request.serviceMode);
    var l := e.projection.linkage;
    resolved.Some?
    && var t := resolved.value;
       var f, p := FactsOf(x, t), PartsOf(l);
       && PinsMatch(e, x, t) && x.trust.signed(t.publicKey, e)
       && e.mandateSha256.content == x.mandate && e.requestSha256.content == x.request && e.projectionSha256.content == e.projection
       && FactsFit(f) && l == Linkage(ExpectedBody(f, p), LinkageSha256(l.body)) && TimesStand(f, p)
       && (forall i :: 0 <= i < |x.targets| ==> x.targets[i].anchor == x.identity.facts.anchor)
       && SidecarsRepeat(e.projection.sidecars, x, t, p)
       && (x.request.serviceMode == ObserveOnly <==> e.projection.preview == NotApplicable)
       && LivesWithin(e, x)
  }

  lemma SummaryIff(a: AssuranceSummary, ts: seq<Target>)
    requires ts != []
    ensures IsSummary(a, ts) <==> a == Summary(ts)
  {
    if forall i :: 0 <= i < |ts| ==> ts[i].assurance == ts[0].assurance {
      assert forall i, j :: 0 <= i < j < |ts| ==> ts[i].assurance == ts[j].assurance;
    }
    if forall i, j :: 0 <= i < j < |ts| ==> ts[i].assurance == ts[j].assurance {
      assert forall i :: 0 < i < |ts| ==> ts[0].assurance == ts[i].assurance;
    }
  }

  lemma StateIff(profile: Option<ActionProfile>, coverage: Coverage, m: MandateV2, r: Request, t: Tuple)
    requires BindRequest(r, m).Ok?
    requires r.serviceMode.ObserveOnly? ==> profile.None?
    requires profile.Some? ==> ValidActionProfile(profile.value) && profile.value.adapterId == r.adapterId
    ensures
      var state := DeriveActionState(profile, m, r, t);
      state.Ok? && state.value.coverage == coverage <==>
        ProfilePinned(profile, r, t) && coverage == (if r.serviceMode == ObserveOnly then NoActions else Incomplete)
  {}

  lemma SidecarsIff(e: Envelope, x: Inputs, t: Tuple, p: Parts)
    requires FactsFit(FactsOf(x, t)) && e.projection.linkage.body == ExpectedBody(FactsOf(x, t), p)
    requires
      var s := e.projection.sidecars;
      && (x.request.serviceMode.ObserveOnly? ==> s.actionProfile.None?)
      && (s.actionProfile.Some? ==> ValidActionProfile(s.actionProfile.value) && s.actionProfile.value.adapterId == x.request.adapterId)
    ensures SidecarError(e.projection.sidecars, e.projection.linkage, x, t).None? <==> SidecarsRepeat(e.projection.sidecars, x, t, p)
  {
    var s := e.projection.sidecars;
    StateIff(s.actionProfile, s.service.coverage, x.mandate, x.request, t);
    if s.targets == x.targets {
      SummaryIff(s.service.assurance, s.targets);
    }
  }

  lemma FirmIsAttested(e: Envelope, x: Inputs)
    requires Firm(e, x)
    ensures Attested(e, x)
  {
    var t := x.trust.resolve(e.keyId, e.releaseId, e.issuedAt, x.request.adapterId, x.request.serviceMode).value;
    StandingIff(e.projection.linkage, FactsOf(x, t));
    SidecarsIff(e, x, t, PartsOf(e.projection.linkage));
  }

  lemma AttestedIsFirm(e: Envelope, x: Inputs)
    requires Attested(e, x)
    ensures Firm(e, x)
  {
    var t := x.trust.resolve(e.keyId, e.releaseId, e.issuedAt, x.request.adapterId, x.request.serviceMode).value;
    StandingIff(e.projection.linkage, FactsOf(x, t));
    SidecarsIff(e, x, t, PartsOf(e.projection.linkage));
    AttestedProjectionIsValid(e, x, t);
  }

  lemma AttestedProjectionIsValid(e: Envelope, x: Inputs, t: Tuple)
    requires Standing(e.projection.linkage, FactsOf(x, t))
    requires e.projection.linkage.body == ExpectedBody(FactsOf(x, t), PartsOf(e.projection.linkage))
    requires SidecarsRepeat(e.projection.sidecars, x, t, PartsOf(e.projection.linkage))
    requires forall i :: 0 <= i < |x.targets| ==> x.targets[i].anchor == x.identity.facts.anchor
    requires x.request.serviceMode == ObserveOnly <==> e.projection.preview == NotApplicable
    ensures ValidProjection(e.projection, x.table)
  {
    SummaryIff(e.projection.sidecars.service.assurance, x.targets);
  }

  /** The first seconds at which issuance, acceptance and observation are no longer ahead of the clock. */
  predicate Begun(e: Envelope, x: Inputs, at: int) {
    && 0 < at && e.issuedAt - x.mandate.maxClockSkewSeconds <= at
    && e.projection.linkage.body.acceptance.negotiatedAt - x.mandate.maxClockSkewSeconds <= at
    && x.identity.facts.anchor.observedAt - x.mandate.maxClockSkewSeconds <= at
  }

  /**
   An attested quote verifies exactly when it is what the verifier would have written, signed under a resolved release,
   and the clock stands after its beginnings and before each of its seven ends and the trust bundle's.
   */
  lemma VerifiesIff(e: Envelope, x: Inputs, at: int)
    ensures Verify(e, x, at).Ok? <==>
            && Attested(e, x) && Begun(e, x, at) && at < x.trust.bundleExpiresAt
            && forall i :: 0 <= i < |Ends(e, x.mandate, x.request)| ==> at < Ends(e, x.mandate, x.request)[i]
  {
    VerifyIff(e, x, at);
    ValidUntilIsLeast(e, x.mandate, x.request);
    if Firm(e, x) {
      FirmIsAttested(e, x);
    }
    if Attested(e, x) {
      AttestedIsFirm(e, x);
    }
  }

  lemma VerifiesWithin(e: Envelope, x: Inputs, at: int, first: int, end: int)
    requires Attested(e, x) && (Begun(e, x, at) <==> first <= at)
    requires IsLeast(end, Ends(e, x.mandate, x.request)) && end <= x.trust.bundleExpiresAt
    ensures Verify(e, x, at).Ok? <==> first <= at < end
  {
    VerifiesIff(e, x, at);
  }

  lemma FirmEnvelopeError(e: Envelope, x: Inputs, at: int)
    requires EnvelopeFirm(e, x.mandate, x.request)
    ensures EnvelopeError(e, x.mandate, x.request, at) ==
            if at < e.issuedAt - x.mandate.maxClockSkewSeconds then Some(SuccessorError("ATTESTATION_NOT_YET_VALID"))
            else if e.expiresAt <= at then Some(SuccessorError("ATTESTATION_EXPIRED"))
            else None
  {}

  lemma FirmPassesOrFails(e: Envelope, x: Inputs, at: int)
    requires Firm(e, x) && 0 < at <= MAX_SAFE_INTEGER && at < x.trust.bundleExpiresAt && Verify(e, x, at).Err?
    ensures
      var error := EnvelopeError(e, x.mandate, x.request, at);
      Verify(e, x, at).error.code == if error.Some? then error.value.code else "LINKAGE"
  {}

  /** An attested quote presented at a legal instant outside its interval is refused for the clock, by the first reason. */
  lemma RefusedForTime(e: Envelope, x: Inputs, at: int)
    requires Attested(e, x) && 0 < at <= MAX_SAFE_INTEGER && Verify(e, x, at).Err?
    ensures Verify(e, x, at).error.code ==
            if x.trust.bundleExpiresAt <= at then "TRUST_BUNDLE_EXPIRED"
            else if at < e.issuedAt - x.mandate.maxClockSkewSeconds then "ATTESTATION_NOT_YET_VALID"
            else if e.expiresAt <= at then "ATTESTATION_EXPIRED"
            else "LINKAGE"
  {
    AttestedIsFirm(e, x);
    FirmEnvelopeError(e, x, at);
    if at < x.trust.bundleExpiresAt {
      FirmPassesOrFails(e, x, at);
    }
  }

  /** What each code about the envelope accuses it of. */
  predicate Accuses(code: string, e: Envelope, m: MandateV2, r: Request, at: int) {
    var l := e.projection.linkage.body;
    || (code == "MANDATE_HASH_MISMATCH" && e.mandateSha256.content != m)
    || (code == "REQUEST_HASH_MISMATCH" && e.requestSha256.content != r)
    || (code == "PROJECTION_BINDING_MISMATCH"
        && (l.requestId, l.mandateId, l.adapterId, l.serviceMode) != (r.requestId, m.mandateId, r.adapterId, r.serviceMode))
    || (code == "ATTESTATION_NOT_YET_VALID"
        && !(r.issuedAt - m.maxClockSkewSeconds <= e.issuedAt <= at + m.maxClockSkewSeconds))
    || (code == "ATTESTATION_EXPIRY_INVALID"
        && !(e.issuedAt < e.expiresAt <= e.issuedAt + 300 && e.expiresAt <= m.expiresAt && e.expiresAt <= r.expiresAt))
    || (code == "ATTESTATION_EXPIRED" && e.expiresAt <= at)
    || (code == "OBSERVATION_AFTER_ISSUANCE"
        && (e.issuedAt < l.identity.facts.anchor.observedAt || e.issuedAt < l.observation.anchor.observedAt))
  }

  /** Every refusal of an envelope is justified: what its code accuses it of is so. */
  lemma RefusalIsJustified(e: Envelope, m: MandateV2, r: Request, at: int)
    requires EnvelopeError(e, m, r, at).Some?
    ensures Accuses(EnvelopeError(e, m, r, at).value.code, e, m, r, at)
  {
    assert e.mandateSha256.content == m ==> e.mandateSha256 == MandateV2Sha256(m);
    assert e.requestSha256.content == r ==> e.requestSha256 == RequestSha256(r);
  }

  function AnySignature(x: Inputs): Inputs { x.(trust := x.trust.(signed := (_, _) => true)) }

  lemma SignatureAside(e: Envelope, x: Inputs, t: Tuple)
    ensures FactsOf(AnySignature(x), t) == FactsOf(x, t) && (TupleBound(e, t, AnySignature(x)) <==> TupleBound(e, t, x))
    ensures SidecarError(e.projection.sidecars, e.projection.linkage, AnySignature(x), t) ==
            SidecarError(e.projection.sidecars, e.projection.linkage, x, t)
  {}

  lemma UnsignedIsRefused(e: Envelope, x: Inputs, at: int, t: Tuple)
    requires x.trust.resolve(e.keyId, e.releaseId, e.issuedAt, x.request.adapterId, x.request.serviceMode) == Some(t)
    requires ValidUnixSeconds(at) && at < x.trust.bundleExpiresAt
    requires ValidProjection(e.projection, x.table) && ValidUnixSeconds(e.issuedAt) && ValidUnixSeconds(e.expiresAt)
    requires e.quoteVerifyingContract == x.trust.quoteVerifyingContract && TupleBound(e, t, x)
    requires EnvelopeError(e, x.mandate, x.request, at).None? && Accepts(e.projection.linkage, FactsOf(x, t), at)
    requires SidecarError(e.projection.sidecars, e.projection.linkage, x, t).None?
    requires e.projectionSha256 == ProjectionSha256(e.projection) && !x.trust.signed(t.publicKey, e)
    ensures Verify(e, x, at) == Err(SuccessorError("ATTESTATION_SIGNATURE_INVALID"))
  {
    assert FactsFit(FactsOf(x, t));
  }

  /** An attestation that some signature would make acceptable is refused for the one it has. */
  lemma RefusedForSignature(e: Envelope, x: Inputs, at: int)
    requires Verify(e, AnySignature(x), at).Ok? && Verify(e, x, at).Err?
    ensures Verify(e, x, at) == Err(SuccessorError("ATTESTATION_SIGNATURE_INVALID"))
  {
    VerifyHasAllParts(e, AnySignature(x), at);
    var t := x.trust.resolve(e.keyId, e.releaseId, e.issuedAt, x.request.adapterId, x.request.serviceMode).value;
    SignatureAside(e, x, t);
    if x.trust.signed(t.publicKey, e) {
      AllPartsVerify(e, x, at);
    } else {
      UnsignedIsRefused(e, x, at, t);
    }
  }
}
