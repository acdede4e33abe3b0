/**
 Mandates, quote requests and adapter profiles of the category contracts (`category-production.ts`), and the rule
 that authority only shrinks from a mandate to a request to a quoted action.
 */
module CategoryProduction {
  import opened Foundations
  import opened Ordering
  import Decimal

  datatype AdapterId = GridAdapter | YieldAdapter | AaveAdapter | VenusAdapter

  datatype CategoryKind = GridCategory | YieldCategory | HealthCategory

  function CategoryOf(a: AdapterId): CategoryKind {
    match a
    case GridAdapter => GridCategory
    case YieldAdapter => YieldCategory
    case AaveAdapter => HealthCategory
    case VenusAdapter => HealthCategory
  }

  function ProtocolOf(a: AdapterId): string {
    match a
    case GridAdapter => "pancakeswap-v3"
    case YieldAdapter => "erc4626"
    case AaveAdapter => "aave-v3"
    case VenusAdapter => "venus"
  }

  datatype ServiceMode = ObserveOnly | Transactional

  // ---- scopes ----

  datatype Subject =
    | PoolSubject(poolAddress: Text)
    | VaultSubject(vaultAddress: Text)
    | PoolAccount(poolAddress: Text, accountAddress: Text)
    | VenusAccount(comptrollerAddress: Text, accountAddress: Text, borrowMarketAddress: Text)

  datatype ConditionPolicy = TickRange(lowerTick: int, upperTick: int) | Threshold(minimum: nat)

  datatype CategoryScope = CategoryScope(adapterId: AdapterId, subject: Subject, conditionPolicy: ConditionPolicy)

  const ONE_E18: nat := 1_000_000_000_000_000_000

  predicate ValidScope(s: CategoryScope) {
    match s.adapterId
    case GridAdapter =>
      s.subject.PoolSubject? && s.conditionPolicy.TickRange? && s.conditionPolicy.lowerTick < s.conditionPolicy.upperTick
    case YieldAdapter =>
      s.subject.VaultSubject? && s.conditionPolicy.Threshold? && ONE_E18 <= s.conditionPolicy.minimum
    case AaveAdapter =>
      s.subject.PoolAccount? && s.conditionPolicy.Threshold? && ONE_E18 < s.conditionPolicy.minimum
    case VenusAdapter =>
      s.subject.VenusAccount? && s.conditionPolicy.Threshold? && 0 < s.conditionPolicy.minimum
  }

  datatype ScopeSha256 = ScopeSha256(content: CategoryScope)

  // ---- actions ----

  datatype Action = Action(
    actionId: Text, targetRole: Text, target: Text, callId: Text, selector: Text, maxValueWei: nat)

  datatype ActionsSha256 = ActionsSha256(content: seq<Action>)

  function Ids(actions: seq<Action>): seq<Text> {
    seq(|actions|, i requires 0 <= i < |actions| => actions[i].actionId)
  }

  /** `addUniqueSortedIssue`: no repeated id, and the ids equal their own sort. */
  predicate UniqueSorted(actions: seq<Action>) {
    NoDuplicates(Ids(actions)) && Ids(actions) == SortBy(TextLe, Ids(actions))
  }

  predicate TextLe(a: Text, b: Text) { LessEq(a, b) }

  lemma TextOrder()
    ensures Total(TextLe) && Transitive(TextLe)
    ensures forall a: Text, b: Text :: TextLe(a, b) && TextLe(b, a) ==> a == b
  {
    forall a: Text, b: Text ensures TextLe(a, b) || TextLe(b, a) { CompareIsTotalOrder(a, b, a); }
    forall a: Text, b: Text, c: Text | TextLe(a, b) && TextLe(b, c) ensures TextLe(a, c) { CompareIsTotalOrder(a, b, c); }
    forall a: Text, b: Text | TextLe(a, b) && TextLe(b, a) ensures a == b { CompareIsTotalOrder(a, b, a); }
  }

  /** The check accepts exactly the strictly ascending id lists. */
  lemma UniqueSortedIff(actions: seq<Action>)
    ensures UniqueSorted(actions) <==>
            forall i, j :: 0 <= i < j < |actions| ==> Less(actions[i].actionId, actions[j].actionId)
  {
    var ids := Ids(actions);
    TextOrder();
    if UniqueSorted(actions) {
      SortBySorted(TextLe, ids);
      forall i, j | 0 <= i < j < |actions| ensures Less(actions[i].actionId, actions[j].actionId) {
        assert ids[i] == actions[i].actionId && ids[j] == actions[j].actionId && ids[i] != ids[j];
        assert TextLe(ids[i], ids[j]);
        LessTrichotomy(ids[i], ids[j]);
      }
    }
    if forall i, j :: 0 <= i < j < |actions| ==> Less(actions[i].actionId, actions[j].actionId) {
      AscendingIsSorted(ids);
    }
  }

  lemma AscendingIsSorted(ids: seq<Text>)
    requires forall i, j :: 0 <= i < j < |ids| ==> Less(ids[i], ids[j])
    ensures NoDuplicates(ids) && SortBy(TextLe, ids) == ids
  {
    TextOrder();
    forall i, j | 0 <= i < j < |ids| ensures TextLe(ids[i], ids[j]) && ids[i] != ids[j] {
      LessIrreflexive(ids[i]);
    }
    SortFixesSorted(TextLe, ids);
  }

  // ---- mandates and requests ----

  datatype Selector = Selector(chainId: nat, tokenId: Text)

  datatype MandateV2 = MandateV2(
    mandateId: string, category: CategoryKind, adapterId: AdapterId, createdAt: int, expiresAt: int,
    maxClockSkewSeconds: int, maxEvidenceAgeSeconds: int, serviceMode: ServiceMode, categoryScope: CategoryScope,
    actionPermissions: seq<Action>, maxSpendUsdMicros: nat, permissionsExpiresAt: int)

  datatype MandateV2Sha256 = MandateV2Sha256(content: MandateV2)

  predicate ValidUnixSeconds(t: int) { 0 < t <= MAX_SAFE_INTEGER }

  predicate ValidMandateV2(m: MandateV2) {
    && ValidUnixSeconds(m.createdAt) && ValidUnixSeconds(m.expiresAt) && ValidUnixSeconds(m.permissionsExpiresAt)
    && 0 <= m.maxClockSkewSeconds <= 300 && 5 <= m.maxEvidenceAgeSeconds <= 3_600
    && m.createdAt < m.expiresAt && m.createdAt < m.permissionsExpiresAt <= m.expiresAt
    && ValidScope(m.categoryScope)
    && m.category == CategoryOf(m.categoryScope.adapterId) && m.adapterId == m.categoryScope.adapterId
    && |m.actionPermissions| <= 64 && UniqueSorted(m.actionPermissions)
    && (m.serviceMode.ObserveOnly? ==> m.actionPermissions == [] && m.maxSpendUsdMicros == 0)
    && (m.serviceMode.Transactional? ==> m.actionPermissions != [])
  }

  datatype Request = Request(
    requestId: string, mandateId: string, mandateSha256: MandateV2Sha256, category: CategoryKind, adapterId: AdapterId,
    protocol: string, categoryScope: CategoryScope, categoryScopeSha256: ScopeSha256, candidate: Selector,
    serviceMode: ServiceMode, actionPermissions: seq<Action>, actionPermissionsSha256: ActionsSha256,
    maxSpendUsdMicros: nat, permissionsExpiresAt: int, nonce: string, issuedAt: int, expiresAt: int)

  datatype RequestSha256 = RequestSha256(content: Request)

  predicate ValidRequest(r: Request) {
    && ValidScope(r.categoryScope)
    && r.category == CategoryOf(r.categoryScope.adapterId) && r.adapterId == r.categoryScope.adapterId
    && r.protocol == ProtocolOf(r.categoryScope.adapterId)
    && ValidUnixSeconds(r.issuedAt) && ValidUnixSeconds(r.expiresAt) && ValidUnixSeconds(r.permissionsExpiresAt)
    && r.issuedAt < r.permissionsExpiresAt <= r.expiresAt
    && |r.actionPermissions| <= 64 && UniqueSorted(r.actionPermissions)
    && r.candidate.chainId == 56 && Decimal.Canonical(r.candidate.tokenId)
    && (r.serviceMode.ObserveOnly? ==> r.actionPermissions == [] && r.maxSpendUsdMicros == 0)
    && (r.serviceMode.Transactional? ==> r.actionPermissions != [])
  }

  /** `Array.prototype.find` by action id. */
  function FindAction(actions: seq<Action>, id: Text): (r: Option<Action>)
    ensures r.Some? <==> exists i :: 0 <= i < |actions| && actions[i].actionId == id
    ensures r.Some? ==> r.value in actions && r.value.actionId == id
  {
    if actions == [] then None
    else if actions[0].actionId == id then Some(actions[0])
    else
      var rest := FindAction(actions[1..], id);
      assert forall i :: 0 < i < |actions| ==> actions[i] == actions[1..][i - 1];
      rest
  }

  /** The same call on the same target, for no more value. */
  predicate Within(asked: Action, granted: Action) {
    && granted.actionId == asked.actionId && granted.targetRole == asked.targetRole && granted.target == asked.target
    && granted.callId == asked.callId && granted.selector == asked.selector
    && asked.maxValueWei <= granted.maxValueWei
  }

  predicate Granted(grants: seq<Action>, asked: Action) {
    var g := FindAction(grants, asked.actionId);
    g.Some? && Within(asked, g.value)
  }

  predicate AllGranted(grants: seq<Action>, asked: seq<Action>) {
    forall i :: 0 <= i < |asked| ==> Granted(grants, asked[i])
  }

  datatype BindingError = BindingError(message: string)

  /** `validateCategoryQuoteRequestBinding`, on values of the two schemas. */
  function BindRequest(r: Request, m: MandateV2): Result<Request, BindingError> {
    if !ValidMandateV2(m) then Err(BindingError("mandate v2"))
    else if !ValidRequest(r) then Err(BindingError("category quote request"))
    else if r.mandateId != m.mandateId then Err(BindingError("mandate ID"))
    else if r.mandateSha256 != MandateV2Sha256(m) then Err(BindingError("mandate hash"))
    else if r.category != m.category || r.adapterId != m.adapterId then Err(BindingError("category identity"))
    else if r.protocol != ProtocolOf(m.categoryScope.adapterId) then Err(BindingError("protocol"))
    else if r.categoryScope != m.categoryScope then Err(BindingError("category scope"))
    else if r.categoryScopeSha256 != ScopeSha256(m.categoryScope) then Err(BindingError("category scope hash"))
    else if r.serviceMode != m.serviceMode then Err(BindingError("service mode"))
    else if r.actionPermissionsSha256 != ActionsSha256(r.actionPermissions) then Err(BindingError("action permission hash"))
    else if !AllGranted(m.actionPermissions, r.actionPermissions) then Err(BindingError("requested action"))
    else if r.maxSpendUsdMicros > m.maxSpendUsdMicros then Err(BindingError("spend cap"))
    else if r.permissionsExpiresAt > m.permissionsExpiresAt then Err(BindingError("permission expiry"))
    else if r.permissionsExpiresAt <= r.issuedAt then Err(BindingError("permission expiry before issuance"))
    else if r.issuedAt < m.createdAt || r.expiresAt > m.expiresAt then Err(BindingError("lifetime"))
    else Ok(r)
  }

  // ---- authority only shrinks ----

  function TotalValue(actions: seq<Action>): nat {
    if actions == [] then 0 else actions[0].maxValueWei + TotalValue(actions[1..])
  }

  predicate DistinctIds(actions: seq<Action>) {
    forall i, j :: 0 <= i < j < |actions| ==> actions[i].actionId != actions[j].actionId
  }

  lemma UniqueSortedDistinct(actions: seq<Action>)
    requires UniqueSorted(actions)
    ensures DistinctIds(actions)
  {
    forall i, j | 0 <= i < j < |actions| ensures actions[i].actionId != actions[j].actionId {
      assert Ids(actions)[i] != Ids(actions)[j];
    }
  }

  lemma FindIsUnique(grants: seq<Action>, k: nat)
    requires DistinctIds(grants) && k < |grants|
    ensures FindAction(grants, grants[k].actionId) == Some(grants[k])
  {
    var found := FindAction(grants, grants[k].actionId).value;
    var i :| 0 <= i < |grants| && grants[i] == found;
  }

  /** With distinct ids an asked action lies within exactly one granted action. */
  lemma GrantedByExactlyOne(grants: seq<Action>, asked: Action, k: nat)
    requires DistinctIds(grants) && k < |grants|
    ensures Granted(grants, asked) && grants[k].actionId == asked.actionId ==> Within(asked, grants[k])
    ensures Within(asked, grants[k]) ==>
              Granted(grants, asked) && forall j :: 0 <= j < |grants| && Within(asked, grants[j]) ==> j == k
  {
    FindIsUnique(grants, k);
  }

  lemma {:induction false} TotalWithout(actions: seq<Action>, k: nat)
    requires k < |actions|
    ensures TotalValue(actions) == actions[k].maxValueWei + TotalValue(actions[..k] + actions[k + 1..])
  {
    if k == 0 {
      assert actions[..0] + actions[1..] == actions[1..];
    } else {
      TotalWithout(actions[1..], k - 1);
      var rest := actions[..k] + actions[k + 1..];
      assert rest[0] == actions[0] && rest[1..] == actions[1..][..k - 1] + actions[1..][k..];
    }
  }

  /** Distinct asked actions all granted ask for no more value together than is granted together. */
  lemma {:induction false} GrantedTotal(grants: seq<Action>, asked: seq<Action>)
    requires DistinctIds(asked) && AllGranted(grants, asked)
    ensures TotalValue(asked) <= TotalValue(grants)
    decreases |asked|
  {
    if asked != [] {
      var first := asked[0];
      var g := FindAction(grants, first.actionId).value;
      var k :| 0 <= k < |grants| && grants[k] == g;
      var rest := grants[..k] + grants[k + 1..];
      forall i | 0 <= i < |asked[1..]| ensures Granted(rest, asked[1..][i]) {
        FindAfterRemoval(grants, k, asked[i + 1].actionId);
      }
      GrantedTotal(rest, asked[1..]);
      TotalWithout(grants, k);
    }
  }

  /** Removing an action leaves what is found under every other id. */
  lemma {:induction false} FindAfterRemoval(grants: seq<Action>, k: nat, id: Text)
    requires k < |grants| && grants[k].actionId != id
    ensures FindAction(grants[..k] + grants[k + 1..], id) == FindAction(grants, id)
  {
    var rest := grants[..k] + grants[k + 1..];
    if k == 0 {
      assert rest == grants[1..];
    } else {
      FindAfterRemoval(grants[1..], k - 1, id);
      assert rest[0] == grants[0] && rest[1..] == grants[1..][..k - 1] + grants[1..][k..];
    }
  }

  /**
   Every action of an accepted request is within exactly one mandate action, the requested values add up to no more
   than the granted ones, and spend cap, permission expiry and lifetime lie inside the mandate's.
   */
  lemma AcceptedRequestAttenuates(r: Request, m: MandateV2)
    requires BindRequest(r, m).Ok?
    ensures BindRequest(r, m).value == r
    ensures forall i :: 0 <= i < |r.actionPermissions| ==> WithinExactlyOne(r.actionPermissions[i], m.actionPermissions)
    ensures TotalValue(r.actionPermissions) <= TotalValue(m.actionPermissions)
    ensures r.maxSpendUsdMicros <= m.maxSpendUsdMicros && r.permissionsExpiresAt <= m.permissionsExpiresAt
    ensures m.createdAt <= r.issuedAt < r.expiresAt <= m.expiresAt
  {
    UniqueSortedDistinct(m.actionPermissions);
    UniqueSortedDistinct(r.actionPermissions);
    GrantedTotal(m.actionPermissions, r.actionPermissions);
    forall i | 0 <= i < |r.actionPermissions|
      ensures WithinExactlyOne(r.actionPermissions[i], m.actionPermissions)
    {
      var asked := r.actionPermissions[i];
      assert Granted(m.actionPermissions, asked);
      var g := FindAction(m.actionPermissions, asked.actionId).value;
      var k :| 0 <= k < |m.actionPermissions| && m.actionPermissions[k] == g;
      GrantedByExactlyOne(m.actionPermissions, asked, k);
      assert WithinOnly(asked, m.actionPermissions, k);
    }
  }

  predicate WithinOnly(asked: Action, grants: seq<Action>, k: nat)
    requires k < |grants|
  {
    Within(asked, grants[k]) && forall j :: 0 <= j < |grants| && Within(asked, grants[j]) ==> j == k
  }

  ghost predicate WithinExactlyOne(asked: Action, grants: seq<Action>) {
    exists k: nat :: k < |grants| && WithinOnly(asked, grants, k)
  }

  // ---- action profiles and coverage ----

  datatype ProfileEntry = ProfileEntry(actionId: Text, targetRole: Text, callId: Text, selector: Text, maxValueWei: nat)

  const DRAFT_APPROVAL := "draft_unapproved"

  datatype ActionProfile = ActionProfile(
    approval: string, profileId: string, adapterId: AdapterId, serviceMode: ServiceMode, actions: seq<ProfileEntry>)

  datatype ActionProfileSha256 = ActionProfileSha256(content: ActionProfile)

  /** `categoryActionProfileSchema`: drafts for transactional service only. */
  predicate ValidActionProfile(p: ActionProfile) {
    && p.approval == DRAFT_APPROVAL && p.serviceMode.Transactional?
    && 1 <= |p.actions| <= 64
    && forall i, j :: 0 <= i < j < |p.actions| ==> p.actions[i].actionId != p.actions[j].actionId
  }

  function FindEntry(entries: seq<ProfileEntry>, id: Text): (r: Option<ProfileEntry>)
    ensures r.Some? ==> r.value in entries && r.value.actionId == id
  {
    if entries == [] then None
    else if entries[0].actionId == id then Some(entries[0])
    else FindEntry(entries[1..], id)
  }

  predicate Profiled(p: ActionProfile, asked: Action) {
    var e := FindEntry(p.actions, asked.actionId);
    && e.Some? && e.value.targetRole == asked.targetRole && e.value.callId == asked.callId
    && e.value.selector == asked.selector && asked.maxValueWei <= e.value.maxValueWei
  }

  /** `validateActionCoverage`: true where it returns, false where it throws. */
  predicate Covered(
    adapterId: AdapterId, mode: ServiceMode, mandate: seq<Action>, quoted: seq<Action>, mandateSpend: nat, quotedSpend: nat,
    profile: Option<ActionProfile>)
  {
    && |mandate| <= 64 && |quoted| <= 64
    && match mode
       case ObserveOnly => mandate == [] && quoted == [] && quotedSpend == 0
       case Transactional =>
         && quoted != [] && profile.Some? && ValidActionProfile(profile.value) && profile.value.adapterId == adapterId
         && quotedSpend <= mandateSpend
         && forall i :: 0 <= i < |quoted| ==> Granted(mandate, quoted[i]) && Profiled(profile.value, quoted[i])
  }

  /** Attenuation composes: what a request grants within a mandate is within the mandate. */
  lemma GrantedTransitive(mandate: seq<Action>, request: seq<Action>, quoted: seq<Action>)
    requires AllGranted(mandate, request) && AllGranted(request, quoted)
    ensures AllGranted(mandate, quoted)
  {
    forall i | 0 <= i < |quoted| ensures Granted(mandate, quoted[i]) {
      assert Granted(request, quoted[i]);
      var g := FindAction(request, quoted[i].actionId).value;
      var k :| 0 <= k < |request| && request[k] == g;
      assert Granted(mandate, request[k]);
    }
  }

  /** Coverage with the profile as a further bound composes the same way. */
  lemma CoverageComposes(
    adapterId: AdapterId, mandate: seq<Action>, request: seq<Action>, quoted: seq<Action>,
    mandateSpend: nat, requestSpend: nat, quotedSpend: nat, profile: Option<ActionProfile>)
    requires AllGranted(mandate, request) && |mandate| <= 64 && requestSpend <= mandateSpend
    requires Covered(adapterId, Transactional, request, quoted, requestSpend, quotedSpend, profile)
    ensures Covered(adapterId, Transactional, mandate, quoted, mandateSpend, quotedSpend, profile)
  {
    GrantedTransitive(mandate, request, quoted);
  }

  /** For a bound request coverage adds exactly the profile: the mandate's own bounds hold already. */
  lemma CoverageAfterBinding(r: Request, m: MandateV2, profile: Option<ActionProfile>)
    requires BindRequest(r, m).Ok?
    ensures Covered(r.adapterId, r.serviceMode, m.actionPermissions, r.actionPermissions,
              m.maxSpendUsdMicros, r.maxSpendUsdMicros, profile) <==>
            r.serviceMode.ObserveOnly? ||
            (profile.Some? && ValidActionProfile(profile.value) && profile.value.adapterId == r.adapterId
             && forall i :: 0 <= i < |r.actionPermissions| ==> Profiled(profile.value, r.actionPermissions[i]))
  {}

  // ---- when coverage bounds the total ----

  /** No id is quoted twice with a positive value. */
  predicate NoRepeatedValue(quoted: seq<Action>) {
    forall i, j :: 0 <= i < j < |quoted| && quoted[i].actionId == quoted[j].actionId ==>
      quoted[i].maxValueWei == 0 || quoted[j].maxValueWei == 0
  }

  function Positive(actions: seq<Action>): (r: seq<Action>)
    ensures forall a :: a in r ==> a in actions && a.maxValueWei > 0
  {
    if actions == [] then []
    else
      var rest := Positive(actions[1..]);
      if actions[0].maxValueWei > 0 then [actions[0]] + rest else rest
  }

  lemma {:induction false} PositiveTotal(actions: seq<Action>)
    ensures TotalValue(Positive(actions)) == TotalValue(actions)
  {
    if actions != [] {
      PositiveTotal(actions[1..]);
      var rest := Positive(actions[1..]);
      assert ([actions[0]] + rest)[1..] == rest;
    }
  }

  lemma {:induction false} PositiveDistinct(actions: seq<Action>)
    requires NoRepeatedValue(actions)
    ensures DistinctIds(Positive(actions))
  {
    if actions != [] {
      PositiveDistinct(actions[1..]);
      var rest := Positive(actions[1..]);
      forall k | 0 <= k < |rest| ensures actions[0].maxValueWei > 0 ==> rest[k].actionId != actions[0].actionId {
        assert rest[k] in rest;
        assert rest[k] in actions[1..];
        var j :| 0 <= j < |actions[1..]| && actions[1..][j] == rest[k];
        assert actions[j + 1] == rest[k];
      }
    }
  }

  /** A zero-valued repetition costs nothing, so granted actions without a repeated value stay within the granted total. */
  lemma GrantedWithoutRepeatedValue(grants: seq<Action>, quoted: seq<Action>)
    requires AllGranted(grants, quoted) && NoRepeatedValue(quoted)
    ensures TotalValue(quoted) <= TotalValue(grants)
  {
    var positive := Positive(quoted);
    PositiveTotal(quoted);
    PositiveDistinct(quoted);
    forall i | 0 <= i < |positive| ensures Granted(grants, positive[i]) {
      assert positive[i] in positive;
      var k :| 0 <= k < |quoted| && quoted[k] == positive[i];
    }
    GrantedTotal(grants, positive);
  }

  /** The list with `a` taken in: once per id, at the largest value. */
  function Absorb(grants: seq<Action>, a: Action): seq<Action> {
    if grants == [] then [a]
    else if grants[0].actionId == a.actionId
    then [grants[0].(maxValueWei := Max(grants[0].maxValueWei, a.maxValueWei))] + grants[1..]
    else [grants[0]] + Absorb(grants[1..], a)
  }

  /** The tightest grants for a quoted list: each id once, at its largest quoted value. */
  function Tight(quoted: seq<Action>): seq<Action> {
    if quoted == [] then [] else Absorb(Tight(quoted[1..]), quoted[0])
  }

  function ValueUnder(grants: seq<Action>, id: Text): nat {
    var found := FindAction(grants, id);
    if found.None? then 0 else found.value.maxValueWei
  }

  lemma {:induction false} AbsorbTotal(grants: seq<Action>, a: Action)
    ensures TotalValue(Absorb(grants, a)) == TotalValue(grants) + a.maxValueWei - Min(a.maxValueWei, ValueUnder(grants, a.actionId))
    ensures |grants| <= |Absorb(grants, a)| <= |grants| + 1
  {
    if grants == [] {
    } else if grants[0].actionId == a.actionId {
      var head := grants[0].(maxValueWei := Max(grants[0].maxValueWei, a.maxValueWei));
      assert ([head] + grants[1..])[1..] == grants[1..];
    } else {
      AbsorbTotal(grants[1..], a);
      var rest := Absorb(grants[1..], a);
      assert ([grants[0]] + rest)[1..] == rest;
    }
  }

  lemma {:induction false} AbsorbFinds(grants: seq<Action>, a: Action, id: Text)
    ensures id != a.actionId ==> FindAction(Absorb(grants, a), id) == FindAction(grants, id)
    ensures FindAction(Absorb(grants, a), a.actionId) ==
            match FindAction(grants, a.actionId)
            case None => Some(a)
            case Some(g) => Some(g.(maxValueWei := Max(g.maxValueWei, a.maxValueWei)))
  {
    if grants == [] {
      assert FindAction([a], a.actionId) == Some(a);
      assert [a][1..] == [];
    } else if grants[0].actionId == a.actionId {
      var head := grants[0].(maxValueWei := Max(grants[0].maxValueWei, a.maxValueWei));
      assert ([head] + grants[1..])[1..] == grants[1..];
    } else {
      AbsorbFinds(grants[1..], a, id);
      var rest := Absorb(grants[1..], a);
      assert ([grants[0]] + rest)[1..] == rest;
    }
  }

  lemma {:induction false} AbsorbIds(grants: seq<Action>, a: Action)
    requires DistinctIds(grants)
    ensures DistinctIds(Absorb(grants, a))
    ensures forall x :: x in Absorb(grants, a) ==> x.actionId == a.actionId || exists g :: g in grants && g.actionId == x.actionId
  {
    if grants != [] && grants[0].actionId != a.actionId {
      AbsorbIds(grants[1..], a);
      var rest := Absorb(grants[1..], a);
      forall k | 0 <= k < |rest| ensures rest[k].actionId != grants[0].actionId {
        assert rest[k] in rest;
        if rest[k].actionId != a.actionId {
          var g :| g in grants[1..] && g.actionId == rest[k].actionId;
          var i :| 0 <= i < |grants[1..]| && grants[1..][i] == g;
          assert grants[i + 1] == g;
        }
      }
    }
  }

  /** What the tight grants hold under each quoted id: the same call on the same target, at no less than any quoted value. */
  predicate Fits(grants: seq<Action>, tight: seq<Action>, asked: Action) {
    var t := FindAction(tight, asked.actionId);
    t.Some? && Granted(grants, t.value) && asked.maxValueWei <= t.value.maxValueWei
  }

  lemma {:induction false} TightFits(grants: seq<Action>, quoted: seq<Action>)
    requires AllGranted(grants, quoted)
    ensures DistinctIds(Tight(quoted)) && |Tight(quoted)| <= |quoted|
    ensures forall i :: 0 <= i < |quoted| ==> Fits(grants, Tight(quoted), quoted[i])
    ensures forall id :: FindAction(Tight(quoted), id).Some? ==> Granted(grants, FindAction(Tight(quoted), id).value)
  {
    if quoted != [] {
      var a, rest := quoted[0], Tight(quoted[1..]);
      forall i | 0 <= i < |quoted[1..]| ensures Granted(grants, quoted[1..][i]) {
        assert quoted[1..][i] == quoted[i + 1];
      }
      TightFits(grants, quoted[1..]);
      AbsorbIds(rest, a);
      AbsorbTotal(rest, a);
      forall id | FindAction(Tight(quoted), id).Some? ensures Granted(grants, FindAction(Tight(quoted), id).value) {
        AbsorbFinds(rest, a, id);
      }
      forall i | 0 <= i < |quoted| ensures Fits(grants, Tight(quoted), quoted[i]) {
        AbsorbFinds(rest, a, quoted[i].actionId);
        if i > 0 {
          assert Fits(grants, rest, quoted[1..][i - 1]);
        }
      }
    }
  }

  /** The tight grants cover everything quoted. */
  lemma TightGrants(grants: seq<Action>, quoted: seq<Action>)
    requires AllGranted(grants, quoted)
    ensures AllGranted(Tight(quoted), quoted)
  {
    TightFits(grants, quoted);
    forall i | 0 <= i < |quoted| ensures Granted(Tight(quoted), quoted[i]) {
      assert Fits(grants, Tight(quoted), quoted[i]) && Granted(grants, quoted[i]);
    }
  }

  lemma {:induction false} TightTotal(grants: seq<Action>, quoted: seq<Action>)
    requires AllGranted(grants, quoted)
    ensures TotalValue(Tight(quoted)) <= TotalValue(quoted)
    ensures !NoRepeatedValue(quoted) ==> TotalValue(Tight(quoted)) < TotalValue(quoted)
  {
    if quoted != [] {
      var a, rest := quoted[0], Tight(quoted[1..]);
      forall i | 0 <= i < |quoted[1..]| ensures Granted(grants, quoted[1..][i]) {
        assert quoted[1..][i] == quoted[i + 1];
      }
      TightTotal(grants, quoted[1..]);
      AbsorbTotal(rest, a);
      if NoRepeatedValue(quoted[1..]) && !NoRepeatedValue(quoted) {
        RepeatedWithHead(quoted);
        var j :| 0 < j < |quoted| && quoted[j].actionId == a.actionId && quoted[j].maxValueWei > 0 && a.maxValueWei > 0;
        TightFits(grants, quoted[1..]);
        assert Fits(grants, rest, quoted[1..][j - 1]);
      }
    }
  }

  lemma RepeatedWithHead(quoted: seq<Action>)
    requires quoted != [] && NoRepeatedValue(quoted[1..]) && !NoRepeatedValue(quoted)
    ensures exists j :: 0 < j < |quoted| && quoted[j].actionId == quoted[0].actionId
                        && quoted[j].maxValueWei > 0 && quoted[0].maxValueWei > 0
  {
    var i, j :| 0 <= i < j < |quoted| && quoted[i].actionId == quoted[j].actionId
                && quoted[i].maxValueWei > 0 && quoted[j].maxValueWei > 0;
    assert forall k :: 0 < k < |quoted| ==> quoted[k] == quoted[1..][k - 1];
    assert i == 0;
  }

  /**
   Coverage alone does not ask for distinct ids. Exactly when it still bounds the total: for a list some mandate
   covers, every covering mandate grants at least the quoted total if and only if no id is quoted twice with a
   positive value. The request schema, by asking for distinct ids, rules the failing lists out.
   */
  lemma CoverageBoundsTotalIff(
    adapterId: AdapterId, mandate: seq<Action>, quoted: seq<Action>, mandateSpend: nat, quotedSpend: nat,
    profile: Option<ActionProfile>)
    requires Covered(adapterId, Transactional, mandate, quoted, mandateSpend, quotedSpend, profile)
    ensures (forall other :: Covered(adapterId, Transactional, other, quoted, mandateSpend, quotedSpend, profile) ==>
               TotalValue(quoted) <= TotalValue(other))
            <==> NoRepeatedValue(quoted)
  {
    if NoRepeatedValue(quoted) {
      forall other | Covered(adapterId, Transactional, other, quoted, mandateSpend, quotedSpend, profile)
        ensures TotalValue(quoted) <= TotalValue(other)
      {
        GrantedWithoutRepeatedValue(other, quoted);
      }
    } else {
      RepeatedValueExceeds(adapterId, mandate, quoted, mandateSpend, quotedSpend, profile);
    }
  }

  /** The failing half: a mandate with distinct ids that covers the list and grants less than it quotes. */
  lemma RepeatedValueExceeds(
    adapterId: AdapterId, mandate: seq<Action>, quoted: seq<Action>, mandateSpend: nat, quotedSpend: nat,
    profile: Option<ActionProfile>)
    requires Covered(adapterId, Transactional, mandate, quoted, mandateSpend, quotedSpend, profile)
    requires !NoRepeatedValue(quoted)
    ensures Covered(adapterId, Transactional, Tight(quoted), quoted, mandateSpend, quotedSpend, profile)
    ensures DistinctIds(Tight(quoted)) && TotalValue(Tight(quoted)) < TotalValue(quoted)
  {
    TightFits(mandate, quoted);
    TightGrants(mandate, quoted);
    TightTotal(mandate, quoted);
  }

  /** In particular covered actions with distinct ids ask for no more value together than the mandate grants together. */
  lemma CoveredTotal(
    adapterId: AdapterId, mode: ServiceMode, mandate: seq<Action>, quoted: seq<Action>, mandateSpend: nat, quotedSpend: nat,
    profile: Option<ActionProfile>)
    requires Covered(adapterId, mode, mandate, quoted, mandateSpend, quotedSpend, profile) && DistinctIds(quoted)
    ensures TotalValue(quoted) <= TotalValue(mandate)
  {
    if mode.Transactional? {
      CoverageBoundsTotalIff(adapterId, mandate, quoted, mandateSpend, quotedSpend, profile);
    }
  }

  // ---- validity ----

  /** `computeCategoryValidUntil` on positive safe times. */
  function ValidUntil(
    attestationExpiresAt: int, quoteExpiresAt: int, mandateExpiresAt: int, permissionExpiresAt: int, identityExpiresAt: int,
    evidenceObservedAt: int, maxEvidenceAgeSeconds: int): Option<int>
  {
    var evidenceExpiry := evidenceObservedAt + maxEvidenceAgeSeconds + 1;
    if !IsSafe(evidenceExpiry) then None
    else
      Some(Min(Min(Min(attestationExpiresAt, quoteExpiresAt), Min(mandateExpiresAt, permissionExpiresAt)),
               Min(identityExpiresAt, evidenceExpiry)))
  }

  /** A second lies before the result exactly when it lies before every expiry and the evidence is still fresh at it. */
  lemma ValidUntilExact(
    attestationExpiresAt: int, quoteExpiresAt: int, mandateExpiresAt: int, permissionExpiresAt: int, identityExpiresAt: int,
    evidenceObservedAt: int, maxEvidenceAgeSeconds: int, at: int)
    requires IsSafe(evidenceObservedAt + maxEvidenceAgeSeconds + 1)
    ensures
      var v := ValidUntil(attestationExpiresAt, quoteExpiresAt, mandateExpiresAt, permissionExpiresAt, identityExpiresAt,
                 evidenceObservedAt, maxEvidenceAgeSeconds);
      v.Some? && (at < v.value <==>
        && at < attestationExpiresAt && at < quoteExpiresAt && at < mandateExpiresAt && at < permissionExpiresAt
        && at < identityExpiresAt && at - evidenceObservedAt <= maxEvidenceAgeSeconds)
  {}
}
