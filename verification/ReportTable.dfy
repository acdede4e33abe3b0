/** The status of an active report (`category-successor.ts`) as a table over what was signed and when it is derived. */
module ReportTable {
  import opened Foundations
  import opened CategoryProduction
  import opened CategoryReads
  import opened CategoryLinkage
  import opened CategorySuccessor

  /** The seven ends of a report's validity. */
  function Ends(e: Envelope, m: MandateV2, r: Request): seq<int> {
    [ e.expiresAt, m.expiresAt, r.expiresAt, r.permissionsExpiresAt, e.projection.linkage.body.acceptance.quoteExpiresAt,
      e.projection.sidecars.identity.facts.anchor.observedAt + 301,
      e.projection.sidecars.observation.anchor.observedAt + m.maxEvidenceAgeSeconds + 1 ]
  }

  predicate IsLeast(n: int, ends: seq<int>) {
    n in ends && forall i :: 0 <= i < |ends| ==> n <= ends[i]
  }

  lemma ValidUntilIsLeast(e: Envelope, m: MandateV2, r: Request)
    ensures IsLeast(ReportValidUntil(e, m, r), Ends(e, m, r))
  {
    var ends := Ends(e, m, r);
    assert ReportValidUntil(e, m, r) ==
           Min(Min(Min(ends[0], ends[1]), Min(ends[2], ends[3])), Min(ends[4], Min(ends[5], ends[6])));
  }

  /** At least thirty seconds before each end. */
  predicate EnoughLeft(e: Envelope, m: MandateV2, r: Request, at: int) {
    forall i :: 0 <= i < |Ends(e, m, r)| ==> at + 30 <= Ends(e, m, r)[i]
  }

  /** The signed profile has an entry for this very call, with room for its value. */
  ghost predicate Admits(profile: Option<ActionProfile>, asked: Action) {
    profile.Some? && exists i :: 0 <= i < |profile.value.actions| && Entry(profile.value.actions[i], asked)
  }

  predicate Entry(p: ProfileEntry, asked: Action) {
    && p.actionId == asked.actionId && p.targetRole == asked.targetRole && p.callId == asked.callId
    && p.selector == asked.selector && asked.maxValueWei <= p.maxValueWei
  }

  ghost predicate AllAdmitted(profile: Option<ActionProfile>, asked: seq<Action>) {
    forall i :: 0 <= i < |asked| ==> Admits(profile, asked[i])
  }

  /** The preview was taken on the observed block, inside the mandate's evidence window. */
  predicate PreviewStands(p: Preview, observed: Anchor, m: MandateV2, at: int) {
    && p.Passed? && p.anchor == observed
    && p.anchor.observedAt - m.maxClockSkewSeconds <= at <= p.anchor.observedAt + m.maxEvidenceAgeSeconds
  }

  /** Every target meets the assurance the release asks of an observer. */
  predicate MeetsRelease(x: Inputs, t: Tuple) {
    t.adapterMode.minimumTargetAssurance == InterfaceOnly || forall i :: 0 <= i < |x.targets| ==> x.targets[i].assurance == InstanceVerified
  }

  ghost function StatusFor(e: Envelope, x: Inputs, t: Tuple, at: int): Status {
    var p := e.projection.preview;
    if !EnoughLeft(e, x.mandate, x.request, at) then UnavailableStatus
    else if x.request.serviceMode == ObserveOnly then (if MeetsRelease(x, t) then VerifiedHireable else InconclusiveStatus)
    else if p == Unavailable then UnavailableStatus
    else if p.FailedPreview? then Ineligible
    else if PreviewStands(p, e.projection.sidecars.observation.anchor, x.mandate, at)
            && !AllAdmitted(e.projection.sidecars.actionProfile, x.request.actionPermissions)
    then Ineligible
    else InconclusiveStatus
  }

  lemma {:induction false} FindEntryOfDistinct(entries: seq<ProfileEntry>, i: nat)
    requires i < |entries| && forall j, k :: 0 <= j < k < |entries| ==> entries[j].actionId != entries[k].actionId
    ensures FindEntry(entries, entries[i].actionId) == Some(entries[i])
  {
    if i > 0 {
      assert entries[0].actionId != entries[i].actionId;
      FindEntryOfDistinct(entries[1..], i - 1);
    }
  }

  lemma ProfiledIff(p: ActionProfile, asked: Action)
    requires ValidActionProfile(p)
    ensures Profiled(p, asked) <==> Admits(Some(p), asked)
  {
    if Profiled(p, asked) {
      var found := FindEntry(p.actions, asked.actionId).value;
      var i :| 0 <= i < |p.actions| && p.actions[i] == found;
      assert Entry(p.actions[i], asked);
    }
    if Admits(Some(p), asked) {
      var i :| 0 <= i < |p.actions| && Entry(p.actions[i], asked);
      FindEntryOfDistinct(p.actions, i);
    }
  }

  /** For a bound transactional request coverage is exactly a profile of its adapter that admits every action. */
  lemma CoveredIff(r: Request, m: MandateV2, profile: Option<ActionProfile>)
    requires BindRequest(r, m).Ok? && r.serviceMode.Transactional?
    requires profile.Some? ==> ValidActionProfile(profile.value) && profile.value.adapterId == r.adapterId
    ensures Covered(r.adapterId, Transactional, m.actionPermissions, r.actionPermissions, m.maxSpendUsdMicros, r.maxSpendUsdMicros, profile)
            <==> AllAdmitted(profile, r.actionPermissions)
  {
    CoverageAfterBinding(r, m, profile);
    if profile.Some? {
      forall i | 0 <= i < |r.actionPermissions|
        ensures Profiled(profile.value, r.actionPermissions[i]) <==> Admits(profile, r.actionPermissions[i])
      {
        ProfiledIff(profile.value, r.actionPermissions[i]);
      }
    } else {
      assert r.actionPermissions != [];
      assert !Admits(profile, r.actionPermissions[0]);
    }
  }

  lemma EnoughIff(e: Envelope, m: MandateV2, r: Request, at: int)
    ensures EnoughLeft(e, m, r, at) <==> ReportValidUntil(e, m, r) - at >= MINIMUM_REMAINING
  {
    ValidUntilIsLeast(e, m, r);
  }

  /** What verification leaves true of the parts the status looks at. */
  lemma VerifiedParts(e: Envelope, x: Inputs, at: int)
    requires Verify(e, x, at).Ok?
    ensures
      var s := e.projection.sidecars;
      && BindRequest(x.request, x.mandate).Ok? && s.targets == x.targets
      && s.observation == e.projection.linkage.body.observation
      && (x.request.serviceMode.ObserveOnly? <==> e.projection.preview.NotApplicable?)
      && (s.actionProfile.Some? ==> ValidActionProfile(s.actionProfile.value) && s.actionProfile.value.adapterId == x.request.adapterId)
  {
    VerifyHasAllParts(e, x, at);
    EnvelopeErrorIff(e, x.mandate, x.request, at);
  }

  /** The action state of a transactional request, by the signed profile. */
  lemma TransactionalState(e: Envelope, x: Inputs, t: Tuple)
    requires BindRequest(x.request, x.mandate).Ok? && x.request.serviceMode.Transactional?
    requires
      var profile := e.projection.sidecars.actionProfile;
      && (profile.Some? ==> ValidActionProfile(profile.value) && profile.value.adapterId == x.request.adapterId)
      && DeriveActionState(profile, x.mandate, x.request, t).Ok?
    ensures
      var profile := e.projection.sidecars.actionProfile;
      var action := DeriveActionState(profile, x.mandate, x.request, t).value;
      && (action.covered <==> AllAdmitted(profile, x.request.actionPermissions)) && !action.approved && action.coverage.Incomplete?
  {
    CoveredIff(x.request, x.mandate, e.projection.sidecars.actionProfile);
  }

  lemma ObserveState(profile: Option<ActionProfile>, m: MandateV2, r: Request, t: Tuple)
    requires r.serviceMode.ObserveOnly? && DeriveActionState(profile, m, r, t).Ok?
    ensures DeriveActionState(profile, m, r, t).value == ActionState(NoActions, true, true)
  {}

  lemma StatusOfReport(v: Verified, action: ActionState, at: int)
    requires v.inputs.request.serviceMode.ObserveOnly? <==> v.envelope.projection.preview.NotApplicable?
    requires v.envelope.projection.sidecars.targets == v.inputs.targets
    requires v.envelope.projection.sidecars.observation == v.envelope.projection.linkage.body.observation
    requires v.inputs.request.serviceMode.Transactional? ==>
               !action.approved
               && (action.covered <==> AllAdmitted(v.envelope.projection.sidecars.actionProfile, v.inputs.request.actionPermissions))
    ensures ReportFor(v, action, at).status == StatusFor(v.envelope, v.inputs, v.tuple, at)
  {
    EnoughIff(v.envelope, v.inputs.mandate, v.inputs.request, at);
  }

  /** The profile in force is the signed one, whichever way it is passed. */
  lemma ResolvedIsSigned(input: ProfileInput, signedProfile: Option<ActionProfile>)
    requires ResolveProfile(input, signedProfile).Ok?
    ensures ResolveProfile(input, signedProfile).value == signedProfile
  {}

  /** The status of every derived report, by cases. */
  lemma StatusIs(e: Envelope, x: Inputs, at: int, input: ProfileInput)
    requires Verify(e, x, at).Ok? && Derive(Verify(e, x, at).value, input, at).Ok?
    ensures
      var v := Verify(e, x, at).value;
      Derive(v, input, at).value.status == StatusFor(e, x, v.tuple, at)
  {
    VerifiedHolds(e, x, at);
    VerifiedParts(e, x, at);
    var v := Verify(e, x, at).value;
    var profile := e.projection.sidecars.actionProfile;
    ResolvedIsSigned(input, profile);
    SignedActionState(e.projection.sidecars, e.projection.linkage, x, v.tuple);
    var action := DeriveActionState(profile, x.mandate, x.request, v.tuple).value;
    if x.request.serviceMode.Transactional? {
      TransactionalState(e, x, v.tuple);
    }
    StatusOfReport(v, action, at);
  }

  /** Every other field of a derived report: the request's, the mandate's, the attestation's or the tuple's own. */
  lemma ReportIs(e: Envelope, x: Inputs, at: int, input: ProfileInput)
    requires Verify(e, x, at).Ok? && Derive(Verify(e, x, at).value, input, at).Ok?
    ensures
      var v := Verify(e, x, at).value;
      var report := Derive(v, input, at).value;
      && report.attestationSha256.content == e && report.linkage == e.projection.linkage && report.sidecars == e.projection.sidecars
      && report.preview == e.projection.preview && report.evaluatedAt == at && IsLeast(report.validUntil, Ends(e, x.mandate, x.request))
      && report.requestId == x.request.requestId && report.mandateId == x.mandate.mandateId && report.category == x.request.category
      && report.adapterId == x.request.adapterId && report.protocol == x.request.protocol && report.candidate == x.request.candidate
      && report.serviceMode == x.request.serviceMode
      && report.actionCoverage == (if x.request.serviceMode == ObserveOnly then NoActions else Incomplete)
      && report.minimumTargetAssurance ==
           (if x.request.serviceMode == Transactional then InstanceVerified else v.tuple.adapterMode.minimumTargetAssurance)
  {
    VerifiedHolds(e, x, at);
    var v := Verify(e, x, at).value;
    ValidUntilIsLeast(e, x.mandate, x.request);
    var profile := ResolveProfile(input, e.projection.sidecars.actionProfile).value;
    if x.request.serviceMode.Transactional? {
      DraftsAreNeverComplete(profile, x.mandate, x.request, v.tuple);
    } else {
      ObserveState(profile, x.mandate, x.request, v.tuple);
    }
  }
}
