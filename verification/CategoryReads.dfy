/** Target observations and read commitments of the category adapters (`category-production.ts`). */
module CategoryReads {
  import opened Foundations
  import opened Ordering
  import opened CategoryProduction

  // ---- targets ----

  datatype Assurance = InstanceVerified | InterfaceOnly

  datatype Anchor = Anchor(observedAt: int, observedBlock: nat, observedBlockHash: string)

  datatype Target = Target(
    adapterId: AdapterId, role: Text, targetAddress: Text, assurance: Assurance, provenanceVerified: bool,
    provenanceSource: string, runtime: string, anchor: Anchor)

  datatype TargetsSha256 = TargetsSha256(content: seq<Target>)

  function VerifiedSource(a: AdapterId): Option<string> {
    match a
    case GridAdapter => Some("pancakeswap-v3-factory-membership-v1")
    case YieldAdapter => None
    case AaveAdapter => Some("aave-v3-addresses-provider-v1")
    case VenusAdapter => Some("venus-market-membership-v1")
  }

  /** The refinements of the target observation schema. */
  predicate ValidTarget(t: Target) {
    && (t.provenanceVerified <==> t.assurance.InstanceVerified?)
    && (t.assurance.InstanceVerified? ==> VerifiedSource(t.adapterId) == Some(t.provenanceSource))
  }

  datatype TargetKey = TargetKey(role: Text, targetAddress: Text)

  const POOL: Text := [112, 111, 111, 108]
  const VAULT: Text := [118, 97, 117, 108, 116]
  const BORROW_MARKET: Text := [98, 111, 114, 114, 111, 119, 77, 97, 114, 107, 101, 116]
  const COMPTROLLER: Text := [99, 111, 109, 112, 116, 114, 111, 108, 108, 101, 114]

  function ExpectedTargets(s: CategoryScope): seq<TargetKey>
    requires ValidScope(s)
  {
    match s.adapterId
    case GridAdapter => [TargetKey(POOL, s.subject.poolAddress)]
    case YieldAdapter => [TargetKey(VAULT, s.subject.vaultAddress)]
    case AaveAdapter => [TargetKey(POOL, s.subject.poolAddress)]
    case VenusAdapter =>
      [TargetKey(BORROW_MARKET, s.subject.borrowMarketAddress), TargetKey(COMPTROLLER, s.subject.comptrollerAddress)]
  }

  function KeysOf(ts: seq<Target>): seq<TargetKey> {
    seq(|ts|, i requires 0 <= i < |ts| => TargetKey(ts[i].role, ts[i].targetAddress))
  }

  /** `validateTargetObservationsForScope` accepts. */
  predicate TargetsFit(s: CategoryScope, ts: seq<Target>)
    requires ValidScope(s)
  {
    && 1 <= |ts| <= 4 && (forall i :: 0 <= i < |ts| ==> ValidTarget(ts[i]) && ts[i].adapterId == s.adapterId)
    && NoDuplicates(KeysOf(ts)) && KeysOf(ts) == ExpectedTargets(s)
    && (forall i :: 0 <= i < |ts| ==>
          if ts[i].assurance.InterfaceOnly? then ts[i].provenanceSource == "interface-only-unendorsed-v1"
          else VerifiedSource(s.adapterId) == Some(ts[i].provenanceSource))
  }

  // ---- read commitments ----

  datatype Read = Read(
    role: Text, callId: Text, target: Text, selector: Text, argumentBindingSha256: Text, calldataSha256: Text,
    responseSha256: Text)

  const NUL: Unit := 0

  /** What the field schemas fix: a role is an identifier, and the last five fields have constant lengths. */
  predicate ValidRead(r: Read) {
    && (forall i :: 0 <= i < |r.role| ==> r.role[i] != NUL)
    && |r.target| == 42 && |r.selector| == 10
    && |r.argumentBindingSha256| == 64 && |r.calldataSha256| == 64 && |r.responseSha256| == 64
  }

  function Tail(r: Read): Text {
    [NUL] + r.target + [NUL] + r.selector + [NUL] + r.argumentBindingSha256 + [NUL] + r.calldataSha256 + [NUL] + r.responseSha256
  }

  /** `readCommitmentKey`: the fields joined by NUL. */
  function ReadKey(r: Read): Text {
    r.role + [NUL] + r.callId + Tail(r)
  }

  /** Where each field stands in the tail. */
  lemma TailFields(r: Read)
    requires ValidRead(r)
    ensures |Tail(r)| == 249
    ensures Tail(r)[1..43] == r.target
    ensures Tail(r)[44..54] == r.selector
    ensures Tail(r)[55..119] == r.argumentBindingSha256
    ensures Tail(r)[120..184] == r.calldataSha256
    ensures Tail(r)[185..249] == r.responseSha256
  {}

  lemma TailInjective(a: Read, b: Read)
    requires ValidRead(a) && ValidRead(b) && Tail(a) == Tail(b)
    ensures a.target == b.target && a.selector == b.selector && a.argumentBindingSha256 == b.argumentBindingSha256
    ensures a.calldataSha256 == b.calldataSha256 && a.responseSha256 == b.responseSha256
  {
    TailFields(a);
    TailFields(b);
  }

  lemma SplitSuffix<T>(x: seq<T>, s: seq<T>, y: seq<T>, t: seq<T>)
    requires x + s == y + t && |s| == |t|
    ensures x == y && s == t
  {
    assert |x| == |y|;
    assert x == (x + s)[..|x|] == (y + t)[..|y|] == y;
    assert s == (x + s)[|x|..] == (y + t)[|y|..] == t;
  }

  lemma SplitAtNul(a: Text, x: Text, b: Text, y: Text)
    requires a + [NUL] + x == b + [NUL] + y
    requires (forall i :: 0 <= i < |a| ==> a[i] != NUL) && (forall i :: 0 <= i < |b| ==> b[i] != NUL)
    ensures a == b && x == y
  {
    var l, r := a + [NUL] + x, b + [NUL] + y;
    assert l[|a|] == NUL && r[|b|] == NUL;
    assert forall i :: 0 <= i < |a| ==> l[i] == a[i];
    assert forall i :: 0 <= i < |b| ==> r[i] == b[i];
    assert |a| == |b|;
    assert a == l[..|a|] == r[..|b|] == b;
    assert x == l[|a| + 1..] == r[|b| + 1..] == y;
  }

  /** Different reads have different keys, even though a call id may itself contain the separator. */
  lemma ReadKeyInjective(a: Read, b: Read)
    requires ValidRead(a) && ValidRead(b) && ReadKey(a) == ReadKey(b)
    ensures a == b
  {
    TailFields(a);
    TailFields(b);
    SplitSuffix(a.role + [NUL] + a.callId, Tail(a), b.role + [NUL] + b.callId, Tail(b));
    TailInjective(a, b);
    SplitAtNul(a.role, a.callId, b.role, b.callId);
  }

  predicate ReadLe(a: Read, b: Read) { TextLe(ReadKey(a), ReadKey(b)) }

  lemma ReadOrder(rs: seq<Read>)
    requires AllValidReads(rs)
    ensures Total(ReadLe) && Transitive(ReadLe) && Distinguishes(ReadLe, rs)
  {
    TextOrder();
    forall a, b | a in rs && b in rs && ReadLe(a, b) && ReadLe(b, a) ensures a == b {
      ReadKeyInjective(a, b);
    }
  }

  predicate AllValidReads(rs: seq<Read>) {
    forall i :: 0 <= i < |rs| ==> ValidRead(rs[i])
  }

  function ReadKeys(rs: seq<Read>): seq<Text> {
    seq(|rs|, i requires 0 <= i < |rs| => ReadKey(rs[i]))
  }

  /** `canonicalReads`: between one and sixteen distinct reads, sorted by key. */
  function CanonicalReads(rs: seq<Read>): Option<seq<Read>> {
    if !(1 <= |rs| <= 16) || !AllValidReads(rs) || !NoDuplicates(ReadKeys(rs)) then None else Some(SortBy(ReadLe, rs))
  }

  /** `validateExactReadCommitments`. */
  predicate ExactReads(expected: seq<Read>, actual: seq<Read>) {
    CanonicalReads(expected).Some? && CanonicalReads(actual).Some? && CanonicalReads(expected) == CanonicalReads(actual)
  }

  lemma DistinctReads(rs: seq<Read>)
    requires AllValidReads(rs)
    ensures NoDuplicates(ReadKeys(rs)) <==> NoDuplicates(rs)
  {
    if NoDuplicates(rs) {
      forall i, j | 0 <= i < j < |rs| ensures ReadKeys(rs)[i] != ReadKeys(rs)[j] {
        if ReadKey(rs[i]) == ReadKey(rs[j]) {
          ReadKeyInjective(rs[i], rs[j]);
        }
      }
    }
    if NoDuplicates(ReadKeys(rs)) {
      forall i, j | 0 <= i < j < |rs| ensures rs[i] != rs[j] {
        assert ReadKeys(rs)[i] != ReadKeys(rs)[j];
      }
    }
  }

  /** The comparison is of the exact sets of reads: their order is irrelevant, and nothing else is. */
  lemma ExactReadsIff(expected: seq<Read>, actual: seq<Read>)
    requires CanonicalReads(expected).Some? && CanonicalReads(actual).Some?
    ensures ExactReads(expected, actual) <==> forall r :: r in expected <==> r in actual
  {
    ReadOrder(expected);
    ReadOrder(actual);
    if ExactReads(expected, actual) {
      forall r ensures r in expected <==> r in actual {
        assert r in expected <==> r in SortBy(ReadLe, expected);
        assert r in actual <==> r in SortBy(ReadLe, actual);
      }
    }
    if forall r :: r in expected <==> r in actual {
      DistinctReads(expected);
      DistinctReads(actual);
      SameMembersSameMultiset(expected, actual);
      SortForgetsOrder(ReadLe, expected, actual);
    }
  }

  lemma SameMembersSameMultiset(xs: seq<Read>, ys: seq<Read>)
    requires NoDuplicates(xs) && NoDuplicates(ys) && forall r :: r in xs <==> r in ys
    ensures multiset(xs) == multiset(ys)
  {
    NoDuplicatesByMultiset(xs);
    NoDuplicatesByMultiset(ys);
    forall r ensures multiset(xs)[r] == multiset(ys)[r] {
      assert r in xs <==> r in ys;
    }
  }

  // ---- read profiles ----

  datatype StaticRead = StaticRead(role: Text, callId: Text, selector: Text)

  datatype Descriptor = Descriptor(profileId: string, commitments: seq<StaticRead>)

  datatype StaticProfile = StaticProfile(profileId: string, adapterId: AdapterId, commitments: seq<StaticRead>, bindsAccount: bool)

  datatype StaticProfileSha256 = StaticProfileSha256(content: StaticProfile)

  datatype ReadsSha256 = ReadsSha256(content: seq<Read>)

  datatype ReadProfile = ReadProfile(profileId: string, adapterId: AdapterId, commitments: seq<Read>)

  /** How an adapter's reads are described and bound to an account; the selectors and calldata digests are a table. */
  datatype ReadTable = ReadTable(
    descriptor: AdapterId -> Descriptor, argumentBinding: Option<Text> -> Text, calldata: (Text, Option<Text>) -> Text)

  predicate ValidReadProfile(p: ReadProfile) {
    && 1 <= |p.commitments| <= 16 && AllValidReads(p.commitments)
    && NoDuplicates(ReadKeys(p.commitments)) && SortBy(TextLe, ReadKeys(p.commitments)) == ReadKeys(p.commitments)
  }

  function Account(s: CategoryScope): Option<Text> {
    if s.subject.PoolAccount? || s.subject.VenusAccount? then Some(s.subject.accountAddress) else None
  }

  predicate BindsAccount(a: AdapterId) { a.AaveAdapter? || a.VenusAdapter? }

  function FindTarget(keys: seq<TargetKey>, role: Text): Option<Text> {
    if keys == [] then None else if keys[0].role == role then Some(keys[0].targetAddress) else FindTarget(keys[1..], role)
  }

  /** An executed read is the described one on the scope's target with the scope's account. */
  predicate ReadFits(table: ReadTable, s: CategoryScope, described: StaticRead, r: Read)
    requires ValidScope(s)
  {
    && r.role == described.role && r.callId == described.callId && r.selector == described.selector
    && FindTarget(ExpectedTargets(s), described.role) == Some(r.target)
    && r.argumentBindingSha256 == table.argumentBinding(Account(s))
    && r.calldataSha256 == table.calldata(described.selector, Account(s))
  }

  /** `validateAdapterReadProfile` accepts. */
  predicate ReadProfileFits(table: ReadTable, s: CategoryScope, p: ReadProfile)
    requires ValidScope(s)
  {
    var d := table.descriptor(p.adapterId);
    && ValidReadProfile(p) && p.adapterId == s.adapterId && p.profileId == d.profileId
    && |p.commitments| == |d.commitments| && forall i :: 0 <= i < |p.commitments| ==> ReadFits(table, s, d.commitments[i], p.commitments[i])
  }

  function StaticProfileOf(table: ReadTable, p: ReadProfile): StaticProfile {
    StaticProfile(p.profileId, p.adapterId, table.descriptor(p.adapterId).commitments, BindsAccount(p.adapterId))
  }

  /** The static profile of an accepted one is what its reads share with every observation: no target, argument or response. */
  lemma StaticProfileIsProjection(table: ReadTable, s: CategoryScope, p: ReadProfile)
    requires ValidScope(s) && ReadProfileFits(table, s, p)
    ensures
      var fixed := StaticProfileOf(table, p);
      && fixed.profileId == p.profileId && fixed.adapterId == s.adapterId && |fixed.commitments| == |p.commitments|
      && (forall i :: 0 <= i < |p.commitments| ==>
            fixed.commitments[i] == StaticRead(p.commitments[i].role, p.commitments[i].callId, p.commitments[i].selector))
      && (fixed.bindsAccount <==> s.subject.PoolAccount? || s.subject.VenusAccount?)
  {
    var d := table.descriptor(p.adapterId);
    forall i | 0 <= i < |p.commitments|
      ensures d.commitments[i] == StaticRead(p.commitments[i].role, p.commitments[i].callId, p.commitments[i].selector)
    {
      assert ReadFits(table, s, d.commitments[i], p.commitments[i]);
    }
  }

  /** Two observations of one scope differ only in the responses: everything else an accepted profile reads is fixed. */
  lemma AcceptedProfilesDifferOnlyInResponses(table: ReadTable, s: CategoryScope, p: ReadProfile, q: ReadProfile, i: nat)
    requires ValidScope(s) && ReadProfileFits(table, s, p) && ReadProfileFits(table, s, q) && i < |p.commitments|
    ensures p.profileId == q.profileId && p.adapterId == q.adapterId && |p.commitments| == |q.commitments|
    ensures q.commitments[i] == p.commitments[i].(responseSha256 := q.commitments[i].responseSha256)
    ensures StaticProfileOf(table, p) == StaticProfileOf(table, q)
  {
    var d := table.descriptor(p.adapterId);
    assert ReadFits(table, s, d.commitments[i], p.commitments[i]) && ReadFits(table, s, d.commitments[i], q.commitments[i]);
  }

  // ---- exactly which targets and reads are accepted ----

  /** A target of this adapter whose provenance is what its assurance claims. */
  predicate WellSourced(t: Target, a: AdapterId) {
    && t.adapterId == a
    && if t.assurance == InterfaceOnly then !t.provenanceVerified && t.provenanceSource == "interface-only-unendorsed-v1"
       else
         && t.provenanceVerified
         && match a
            case GridAdapter => t.provenanceSource == "pancakeswap-v3-factory-membership-v1"
            case YieldAdapter => false
            case AaveAdapter => t.provenanceSource == "aave-v3-addresses-provider-v1"
            case VenusAdapter => t.provenanceSource == "venus-market-membership-v1"
  }

  predicate IsTarget(t: Target, role: Text, targetAddress: Text) { t.role == role && t.targetAddress == targetAddress }

  /** One target for each contract the subject names, market before comptroller, and no other. */
  predicate NamesSubject(ts: seq<Target>, subject: Subject) {
    match subject
    case PoolSubject(pool) => |ts| == 1 && IsTarget(ts[0], POOL, pool)
    case VaultSubject(vault) => |ts| == 1 && IsTarget(ts[0], VAULT, vault)
    case PoolAccount(pool, _) => |ts| == 1 && IsTarget(ts[0], POOL, pool)
    case VenusAccount(comptroller, _, market) =>
      |ts| == 2 && IsTarget(ts[0], BORROW_MARKET, market) && IsTarget(ts[1], COMPTROLLER, comptroller)
  }

  lemma KeysAreNames(s: CategoryScope, ts: seq<Target>)
    requires ValidScope(s)
    ensures KeysOf(ts) == ExpectedTargets(s) <==> NamesSubject(ts, s.subject)
  {
    var keys, expected := KeysOf(ts), ExpectedTargets(s);
    if keys == expected {
      assert |ts| == |expected|;
      assert keys[0] == TargetKey(ts[0].role, ts[0].targetAddress);
      if |ts| == 2 {
        assert keys[1] == TargetKey(ts[1].role, ts[1].targetAddress);
      }
    }
  }

  /** The roles of the observed contracts, by their names. */
  lemma RolesAreNamed()
    ensures POOL == Codes("pool") && VAULT == Codes("vault")
    ensures BORROW_MARKET == Codes("borrowMarket") && COMPTROLLER == Codes("comptroller")
  {}

  lemma RolesDiffer()
    ensures BORROW_MARKET != COMPTROLLER
  {
    assert |BORROW_MARKET| == 12 && |COMPTROLLER| == 11;
  }

  /** Targets are accepted exactly when they are the subject's contracts, each soundly sourced. */
  lemma TargetsFitIff(s: CategoryScope, ts: seq<Target>)
    requires ValidScope(s)
    ensures TargetsFit(s, ts) <==> NamesSubject(ts, s.subject) && forall i :: 0 <= i < |ts| ==> WellSourced(ts[i], s.adapterId)
  {
    KeysAreNames(s, ts);
    RolesDiffer();
    if NamesSubject(ts, s.subject) && |ts| == 2 {
      assert KeysOf(ts)[0].role != KeysOf(ts)[1].role;
    }
  }

  lemma {:induction false} FindTargetIff(keys: seq<TargetKey>, role: Text, target: Text)
    requires forall i, j :: 0 <= i < j < |keys| ==> keys[i].role != keys[j].role
    ensures FindTarget(keys, role) == Some(target) <==> TargetKey(role, target) in keys
  {
    if keys != [] && keys[0].role != role {
      FindTargetIff(keys[1..], role, target);
    }
    if keys != [] && keys[0].role == role && TargetKey(role, target) in keys {
      var i :| 0 <= i < |keys| && keys[i] == TargetKey(role, target);
    }
  }

  /** The read of this description on the scope's contract and account, with whatever response it had. */
  function ExpectedRead(table: ReadTable, s: CategoryScope, described: StaticRead, target: Text, response: Text): Read {
    Read(described.role, described.callId, target, described.selector, table.argumentBinding(Account(s)),
      table.calldata(described.selector, Account(s)), response)
  }

  predicate ReadAsDescribed(table: ReadTable, s: CategoryScope, described: StaticRead, r: Read)
    requires ValidScope(s)
  {
    TargetKey(r.role, r.target) in ExpectedTargets(s) && r == ExpectedRead(table, s, described, r.target, r.responseSha256)
  }

  /** A read profile is accepted exactly when each read is the described one, but for its response, in key order. */
  lemma ReadProfileFitsIff(table: ReadTable, s: CategoryScope, p: ReadProfile)
    requires ValidScope(s)
    ensures
      var d := table.descriptor(s.adapterId);
      ReadProfileFits(table, s, p) <==>
        && ValidReadProfile(p) && p.adapterId == s.adapterId && p.profileId == d.profileId && |p.commitments| == |d.commitments|
        && forall i :: 0 <= i < |p.commitments| ==> ReadAsDescribed(table, s, d.commitments[i], p.commitments[i])
  {
    var d := table.descriptor(s.adapterId);
    RolesDiffer();
    if p.adapterId == s.adapterId && |p.commitments| == |d.commitments| {
      forall i | 0 <= i < |p.commitments|
        ensures ReadFits(table, s, d.commitments[i], p.commitments[i]) <==> ReadAsDescribed(table, s, d.commitments[i], p.commitments[i])
      {
        FindTargetIff(ExpectedTargets(s), d.commitments[i].role, p.commitments[i].target);
      }
    }
  }
}
