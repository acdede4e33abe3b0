/** The linkage projection binding a candidate's acceptance to one request (`category-linkage.ts`). */
module CategoryLinkage {
  import opened Foundations
  import opened CategoryProduction
  import opened CategoryReads

  const IDENTITY_MAX_AGE := 300

  // ---- candidate identity ----

  datatype IdentityFacts = IdentityFacts(
    chainId: nat, tokenId: Text, registryAddress: string, ownerAddress: string, confirmationDepth: nat,
    registryCodeSha256: string, anchor: Anchor)

  datatype IdentitySha256 = IdentitySha256(content: IdentityFacts)

  datatype Identity = Identity(facts: IdentityFacts, identitySha256: IdentitySha256)

  /** `validateCandidateIdentityForSelector` accepts. */
  predicate IdentityFits(i: Identity, candidate: Selector) {
    && i.identitySha256 == IdentitySha256(i.facts)
    && i.facts.chainId == candidate.chainId && i.facts.tokenId == candidate.tokenId
    && ValidUnixSeconds(i.facts.anchor.observedAt)
  }

  // ---- the projection ----

  datatype SubjectSha256 = SubjectSha256(content: Subject)
  datatype PolicySha256 = PolicySha256(content: ConditionPolicy)

  datatype ProviderAuthority = ProviderAuthority(
    providerAddress: string, validatedSigner: string, providerCodeSha256: string, candidateIdentitySha256: IdentitySha256)

  datatype ProviderAcceptance = ProviderAcceptance(
    contractAccount: bool, contractSignature: bool, validatedSigner: string, validatedProvider: string,
    providerCodeSha256: string, chainId: nat, verifyingContract: string, candidateIdentitySha256: IdentitySha256,
    mandateSha256: MandateV2Sha256, requestSha256: RequestSha256, subjectSha256: SubjectSha256,
    conditionPolicySha256: PolicySha256, actionPermissionsSha256: ActionsSha256, quoteNonce: string, transcript: string,
    negotiatedAt: int, quoteExpiresAt: int)

  predicate ValidAcceptance(a: ProviderAcceptance) {
    && a.validatedSigner == a.validatedProvider && a.contractAccount == a.contractSignature
    && ValidUnixSeconds(a.negotiatedAt) && ValidUnixSeconds(a.quoteExpiresAt) && a.negotiatedAt < a.quoteExpiresAt
  }

  datatype Observation = Observation(
    categoryDeploymentSha256: string, verifierPolicySha256: string, targetsSha256: TargetsSha256, readProfileId: string,
    readProfileSha256: StaticProfileSha256, readCommitmentsSha256: ReadsSha256, evidence: string, anchor: Anchor)

  datatype LinkageBody = LinkageBody(
    requestId: string, mandateId: string, mandateSha256: MandateV2Sha256, requestSha256: RequestSha256,
    category: CategoryKind, adapterId: AdapterId, protocol: string, candidate: Selector, identity: Identity,
    authority: ProviderAuthority, acceptance: ProviderAcceptance, categoryScope: CategoryScope,
    categoryScopeSha256: ScopeSha256, subjectSha256: SubjectSha256, conditionPolicySha256: PolicySha256,
    serviceMode: ServiceMode, actionPermissionsSha256: ActionsSha256, observation: Observation)

  datatype LinkageSha256 = LinkageSha256(content: LinkageBody)

  datatype Linkage = Linkage(body: LinkageBody, linkageSha256: LinkageSha256)

  /** `refineCategoryLinkageProjection` and the digest rule: what the projection schema accepts. */
  predicate ValidLinkage(l: Linkage) {
    var b := l.body;
    var owner := b.identity.facts.ownerAddress;
    && l.linkageSha256 == LinkageSha256(b)
    && ValidAcceptance(b.acceptance) && ValidScope(b.categoryScope)
    && ValidUnixSeconds(b.observation.anchor.observedAt) && ValidUnixSeconds(b.identity.facts.anchor.observedAt)
    && b.candidate == Selector(b.identity.facts.chainId, b.identity.facts.tokenId)
    && b.authority.providerAddress == owner && b.authority.validatedSigner == owner
    && b.acceptance.validatedProvider == owner && b.acceptance.validatedSigner == owner
    && b.authority.candidateIdentitySha256 == b.identity.identitySha256
    && b.acceptance.candidateIdentitySha256 == b.identity.identitySha256
    && b.authority.providerCodeSha256 == b.acceptance.providerCodeSha256
    && b.category == CategoryOf(b.categoryScope.adapterId) && b.adapterId == b.categoryScope.adapterId
    && b.protocol == ProtocolOf(b.categoryScope.adapterId)
    && b.categoryScopeSha256 == ScopeSha256(b.categoryScope)
    && b.subjectSha256 == SubjectSha256(b.categoryScope.subject)
    && b.conditionPolicySha256 == PolicySha256(b.categoryScope.conditionPolicy)
    && b.acceptance.mandateSha256 == b.mandateSha256 && b.acceptance.requestSha256 == b.requestSha256
    && b.acceptance.subjectSha256 == b.subjectSha256 && b.acceptance.conditionPolicySha256 == b.conditionPolicySha256
    && b.acceptance.actionPermissionsSha256 == b.actionPermissionsSha256
    && b.identity.facts.anchor == b.observation.anchor
  }

  // ---- validation against what the verifier observed ----

  /** What the verifier holds besides the projection. */
  datatype Facts = Facts(
    mandate: MandateV2, request: Request, identity: Identity, targets: seq<Target>, readProfile: ReadProfile,
    table: ReadTable, verifyingContract: string, categoryDeploymentSha256: string, verifierPolicySha256: string)

  /** The inputs validate on their own and against each other. */
  predicate FactsFit(f: Facts) {
    && BindRequest(f.request, f.mandate).Ok?
    && IdentityFits(f.identity, f.request.candidate)
    && TargetsFit(f.request.categoryScope, f.targets)
    && ReadProfileFits(f.table, f.request.categoryScope, f.readProfile)
  }

  /** Every equality the validation demands of the projection, in the words of the source's error messages. */
  predicate Bound(l: Linkage, f: Facts) {
    var b := l.body;
    var r := f.request;
    && b.mandateId == f.mandate.mandateId && b.mandateSha256 == MandateV2Sha256(f.mandate)
    && b.requestId == r.requestId && b.requestSha256 == RequestSha256(r)
    && b.category == r.category && b.adapterId == r.adapterId && b.protocol == r.protocol
    && b.candidate == r.candidate && b.serviceMode == r.serviceMode
    && b.categoryScope == r.categoryScope && b.categoryScopeSha256 == r.categoryScopeSha256
    && b.subjectSha256 == SubjectSha256(r.categoryScope.subject)
    && b.conditionPolicySha256 == PolicySha256(r.categoryScope.conditionPolicy)
    && b.actionPermissionsSha256 == r.actionPermissionsSha256
    && b.identity.identitySha256 == f.identity.identitySha256
    && b.identity.facts.(chainId := f.identity.facts.chainId, tokenId := f.identity.facts.tokenId) == f.identity.facts
    && b.acceptance.validatedSigner == f.identity.facts.ownerAddress
    && b.acceptance.validatedProvider == f.identity.facts.ownerAddress
    && b.authority.providerAddress == f.identity.facts.ownerAddress
    && b.authority.validatedSigner == f.identity.facts.ownerAddress
    && b.authority.providerCodeSha256 == b.acceptance.providerCodeSha256
    && b.acceptance.chainId == 56 && b.acceptance.verifyingContract == f.verifyingContract
    && b.acceptance.quoteNonce == r.nonce
    && b.acceptance.quoteExpiresAt <= r.expiresAt
    && b.observation.categoryDeploymentSha256 == f.categoryDeploymentSha256
    && b.observation.verifierPolicySha256 == f.verifierPolicySha256
    && b.observation.targetsSha256 == TargetsSha256(f.targets)
    && b.observation.readProfileId == f.readProfile.profileId
    && b.observation.readProfileSha256 == StaticProfileSha256(StaticProfileOf(f.table, f.readProfile))
    && b.observation.readCommitmentsSha256 == ReadsSha256(f.readProfile.commitments)
    && (forall i :: 0 <= i < |f.targets| ==> f.targets[i].anchor == b.observation.anchor)
  }

  /** `exclusiveExpiry`: the first second at which an observation is too old, unless that is not a safe integer. */
  function ExclusiveExpiry(observedAt: int, maxAgeSeconds: int): Option<int> {
    var expiry := observedAt + maxAgeSeconds + 1;
    if IsSafe(expiry) then Some(expiry) else None
  }

  function LinkageExpiry(l: Linkage, f: Facts): Option<int> {
    var identity := ExclusiveExpiry(f.identity.facts.anchor.observedAt, IDENTITY_MAX_AGE);
    var evidence := ExclusiveExpiry(l.body.observation.anchor.observedAt, f.mandate.maxEvidenceAgeSeconds);
    if identity.None? || evidence.None? then None
    else
      Some(Min(Min(Min(f.mandate.expiresAt, f.request.expiresAt), Min(f.request.permissionsExpiresAt, l.body.acceptance.quoteExpiresAt)),
               Min(identity.value, evidence.value)))
  }

  /** `validateCategoryLinkageProjection` returns rather than throws. */
  predicate Accepts(l: Linkage, f: Facts, at: int) {
    var skew := f.mandate.maxClockSkewSeconds;
    var observedAt := l.body.observation.anchor.observedAt;
    && FactsFit(f) && ValidUnixSeconds(at) && ValidLinkage(l) && Bound(l, f)
    && l.body.acceptance.negotiatedAt >= f.request.issuedAt - skew
    && l.body.acceptance.negotiatedAt <= at + skew
    && l.body.acceptance.quoteExpiresAt > at
    && f.identity.facts.anchor.observedAt >= f.mandate.createdAt && observedAt >= f.mandate.createdAt
    && f.identity.facts.anchor.observedAt <= at + skew && observedAt <= at + skew
    && LinkageExpiry(l, f).Some? && LinkageExpiry(l, f).value > at
  }

  /** The part of acceptance that does not look at the clock. */
  predicate Standing(l: Linkage, f: Facts) {
    && FactsFit(f) && ValidLinkage(l) && Bound(l, f)
    && l.body.acceptance.negotiatedAt >= f.request.issuedAt - f.mandate.maxClockSkewSeconds
    && l.body.observation.anchor.observedAt >= f.mandate.createdAt
    && LinkageExpiry(l, f).Some?
  }

  /** The accepting times of a projection are one half-open interval ending at its expiry. */
  lemma AcceptsIff(l: Linkage, f: Facts, at: int)
    ensures Accepts(l, f, at) <==>
            && Standing(l, f) && 0 < at
            && Max(l.body.acceptance.negotiatedAt, l.body.observation.anchor.observedAt) - f.mandate.maxClockSkewSeconds <= at
            && at < LinkageExpiry(l, f).value
  {
    if Bound(l, f) {
      assert f.identity.facts.anchor == l.body.identity.facts.anchor;
    }
  }
}
