/**
 Verifying a signed trust bundle against the durable state it would replace (`trust-bundle.ts`).
 Keys and releases follow the same lifecycle, so both are ledgers of records and tombstones.
 A record's binding is its public-key fingerprint, or its release-definition digest.
 */
module TrustBundle {
  import opened Foundations
  import opened Ordering

  datatype Lifecycle = Preactive | Active | Retiring | Retired | Revoked

  predicate Terminal(l: Lifecycle) { l == Retired || l == Revoked }

  function Rank(l: Lifecycle): nat {
    match l
    case Preactive => 0
    case Active => 1
    case Retiring => 2
    case Retired => 3
    case Revoked => 4
  }

  datatype Record = Record(
    id: string, binding: string, lifecycle: Lifecycle,
    lifecycleChangedAt: int, notBefore: int, notAfter: int,
    revokedAt: Option<int>, revocationEpoch: Option<nat>)

  datatype Tombstone = Tombstone(
    id: string, binding: string, reason: Lifecycle,
    tombstonedAtGeneration: nat, retainUntilGeneration: Option<nat>)

  datatype Ledger = Ledger(records: seq<Record>, tombstones: seq<Tombstone>)

  datatype Bundle = Bundle(
    rootKeyId: string, generation: nat, revocationEpoch: nat, issuedAt: int, expiresAt: int,
    keys: Ledger, releases: Ledger, authorizations: seq<string>, revokedKeyFingerprints: seq<string>)

  /** SHA-256 of a bundle's wire and of a durable state: collision-free, so the digest is its content. */
  datatype BundleSha256 = BundleSha256(content: Bundle)
  datatype StateSha256 = StateSha256(content: DurableState)

  datatype DurableState = DurableState(
    generation: nat, revocationEpoch: nat, bundleSha256: BundleSha256,
    keys: Ledger, releases: Ledger, authorizations: seq<string>, revokedKeyFingerprints: seq<string>)

  datatype RollbackFloor = RollbackFloor(generation: nat, revocationEpoch: nat, bundleSha256: Option<BundleSha256>)

  /**
   What one controller pins. `signed` is Ed25519 verification under the root key; `wellFormed` stands for
   the wire schema, the release definitions and the authorization edges of the bundle by itself, `edgesFollow`
   for the comparison of its authorization edges with those of the state it replaces.
   */
  datatype Root = Root(
    rootKeyId: string, floor: RollbackFloor,
    signed: Bundle -> bool, wellFormed: Bundle -> bool, edgesFollow: (Bundle, DurableState) -> bool)

  datatype TrustError =
    | RootKeyMismatch | SignatureInvalid | NotYetValid | FreshnessInvalid | Expired
    | RollbackDetected | RecordSetInvalid | LifecycleInvalid | TombstoneInvalid | TransitionInvalid
    | AuthorizationInvalid

  const MAX_CLOCK_SKEW_SECONDS := 30
  const MAX_BUNDLE_TTL_SECONDS := 604_800

  // ---- sorted unique sets of identifiers ----

  predicate IdBefore(a: string, b: string) { Less(Codes(a), Codes(b)) }

  predicate IdLe(a: string, b: string) { LessEq(Codes(a), Codes(b)) }

  /** `assertSortedUniqueIds`, `assertSortedUniqueStrings`: neighbours strictly increase. */
  predicate SortedUnique(ids: seq<string>) {
    forall i :: 0 < i < |ids| ==> IdBefore(ids[i - 1], ids[i])
  }

  function RecordIds(rs: seq<Record>): seq<string> {
    seq(|rs|, i requires 0 <= i < |rs| => rs[i].id)
  }

  function TombstoneIds(ts: seq<Tombstone>): seq<string> {
    seq(|ts|, i requires 0 <= i < |ts| => ts[i].id)
  }

  function FindRecord(rs: seq<Record>, id: string): (r: Option<Record>)
    ensures r.None? <==> forall x :: x in rs ==> x.id != id
    ensures r.Some? ==> r.value in rs && r.value.id == id
  {
    if rs == [] then None
    else if rs[0].id == id then Some(rs[0])
    else FindRecord(rs[1..], id)
  }

  function FindTombstone(ts: seq<Tombstone>, id: string): (r: Option<Tombstone>)
    ensures r.None? <==> forall x :: x in ts ==> x.id != id
    ensures r.Some? ==> r.value in ts && r.value.id == id
  {
    if ts == [] then None
    else if ts[0].id == id then Some(ts[0])
    else FindTombstone(ts[1..], id)
  }

  // ---- checks on the bundle alone ----

  predicate SortedLedger(l: Ledger) {
    SortedUnique(RecordIds(l.records)) && SortedUnique(TombstoneIds(l.tombstones))
  }

  predicate LifecycleBounds(r: Record, b: Bundle) {
    && r.notBefore < r.notAfter
    && r.notBefore <= r.lifecycleChangedAt < r.notAfter
    && r.lifecycleChangedAt <= b.expiresAt
    && (r.lifecycle != Preactive ==> r.lifecycleChangedAt <= b.issuedAt)
    && if r.lifecycle == Revoked then
         && r.revokedAt == Some(r.lifecycleChangedAt)
         && r.lifecycleChangedAt <= b.issuedAt
         && r.revocationEpoch.Some?
         && r.revocationEpoch.value <= b.revocationEpoch
       else r.revokedAt.None? && r.revocationEpoch.None?
  }

  predicate RevocationStateHolds(b: Bundle) {
    && (forall r :: r in b.keys.records + b.releases.records ==> LifecycleBounds(r, b))
    && (forall t :: t in b.keys.tombstones + b.releases.tombstones ==> t.tombstonedAtGeneration <= b.generation)
    && (forall r :: r in b.keys.records && r.lifecycle == Revoked ==> r.binding in b.revokedKeyFingerprints)
    && (forall t :: t in b.keys.tombstones && t.reason == Revoked ==> t.binding in b.revokedKeyFingerprints)
  }

  /** `assertTerminalTombstones` for one ledger. */
  predicate TerminalsTombstoned(l: Ledger) {
    forall r :: r in l.records && Terminal(r.lifecycle) ==>
      var t := FindTombstone(l.tombstones, r.id);
      t.Some? && t.value.reason == r.lifecycle && t.value.binding == r.binding
  }

  // ---- checks against the prior state ----

  predicate LifecycleMayStep(from: Lifecycle, to: Lifecycle) {
    match from
    case Preactive => to != Retired
    case Active => to == Active || to == Retiring || to == Revoked
    case Retiring => to == Retiring || to == Retired || to == Revoked
    case Retired => to == Retired || to == Revoked
    case Revoked => to == Revoked
  }

  predicate RecordMayStep(was: Record, next: Record) {
    && next.notBefore == was.notBefore && next.notAfter <= was.notAfter
    && LifecycleMayStep(was.lifecycle, next.lifecycle)
    && if next.lifecycle == was.lifecycle then next.lifecycleChangedAt == was.lifecycleChangedAt
       else next.lifecycleChangedAt > was.lifecycleChangedAt
  }

  /** `validatePriorBindings` for one ledger. */
  predicate BindingsFollow(prior: Ledger, next: Ledger, epochRose: bool) {
    && (forall was :: was in prior.records ==>
          var tombstone := FindTombstone(next.tombstones, was.id);
          match FindRecord(next.records, was.id)
          case None =>
            && tombstone.Some?
            && (Terminal(was.lifecycle) || (tombstone.value.reason == Revoked && epochRose))
          case Some(now) =>
            && (FindTombstone(prior.tombstones, was.id).Some? ==> Terminal(now.lifecycle))
            && now.binding == was.binding
            && RecordMayStep(was, now))
    && (forall r :: r in next.records ==> FindTombstone(prior.tombstones, r.id).None?)
  }

  predicate TombstoneMayBecome(was: Tombstone, next: Tombstone) {
    || next == was
    || (&& was.reason == Retired && next.reason == Revoked
        && next.binding == was.binding
        && next.tombstonedAtGeneration >= was.tombstonedAtGeneration)
  }

  /** `validateCurrentTombstones` for one ledger. */
  predicate TombstonesFollow(prior: Ledger, next: Ledger, generation: nat) {
    && (forall t :: t in next.tombstones ==>
          var current := FindRecord(next.records, t.id);
          var was := FindRecord(prior.records, t.id);
          var oldTombstone := FindTombstone(prior.tombstones, t.id);
          && (current.Some? || was.Some? || oldTombstone.Some?)
          && (current.Some? ==> current.value.lifecycle == t.reason && current.value.binding == t.binding)
          && (current.None? && was.Some? ==> was.value.binding == t.binding)
          && (oldTombstone.Some? ==> TombstoneMayBecome(oldTombstone.value, t))
          && (current.None? && was.Some? && was.value.lifecycle == Retired ==>
                t.reason == Retired && t.retainUntilGeneration.Some? && generation >= t.retainUntilGeneration.value)
          && (current.None? && was.Some? && was.value.lifecycle == Revoked ==> t.reason == Revoked))
    && (forall t :: t in prior.tombstones ==> FindTombstone(next.tombstones, t.id).Some?)
  }

  /** `assertDurableStateConsistency` for one ledger. */
  predicate LedgerConsistent(l: Ledger) {
    && SortedLedger(l)
    && (forall t :: t in l.tombstones ==>
          var r := FindRecord(l.records, t.id);
          r.Some? ==> r.value.lifecycle == t.reason && r.value.binding == t.binding)
    && (forall r :: r in l.records && Terminal(r.lifecycle) ==>
          var t := FindTombstone(l.tombstones, r.id);
          t.Some? && t.value.reason == r.lifecycle)
  }

  predicate DurableConsistent(s: DurableState) {
    && LedgerConsistent(s.keys) && LedgerConsistent(s.releases)
    && SortedUnique(s.revokedKeyFingerprints)
    && (forall r :: r in s.keys.records && r.lifecycle == Revoked ==> r.binding in s.revokedKeyFingerprints)
  }

  function StateOf(b: Bundle): DurableState {
    DurableState(b.generation, b.revocationEpoch, BundleSha256(b), b.keys, b.releases, b.authorizations, b.revokedKeyFingerprints)
  }

  function Unique(xs: seq<string>): (r: seq<string>)
    ensures forall x :: x in r <==> x in xs
    ensures NoDuplicates(r)
  {
    if xs == [] then []
    else
      var r := Unique(xs[..|xs| - 1]);
      var x := xs[|xs| - 1];
      assert forall y :: y in xs <==> y in xs[..|xs| - 1] || y == x;
      if x in r then r else r + [x]
  }

  function RevokedBindings(ts: seq<Tombstone>): (r: seq<string>)
    ensures forall x :: x in r <==> exists t :: t in ts && t.reason == Revoked && t.binding == x
  {
    if ts == [] then []
    else (if ts[0].reason == Revoked then [ts[0].binding] else []) + RevokedBindings(ts[1..])
  }

  /** The set union the source sorts into `nextState.revokedKeyFingerprints`. */
  function RevokedUnion(b: Bundle, prior: DurableState): seq<string> {
    SortBy(IdLe, Unique(prior.revokedKeyFingerprints + b.revokedKeyFingerprints + RevokedBindings(b.keys.tombstones)))
  }

  /** `validateDurableTransition`. */
  function DurableTransition(root: Root, b: Bundle, priorState: Option<DurableState>): Result<DurableState, TrustError> {
    match priorState
    case None => Ok(StateOf(b))
    case Some(prior) =>
      var epochRose := b.revocationEpoch > prior.revocationEpoch;
      if !DurableConsistent(prior) then Err(TransitionInvalid)
      else if b.generation < prior.generation || b.revocationEpoch < prior.revocationEpoch then Err(RollbackDetected)
      else if b.generation == prior.generation then
        if BundleSha256(b) != prior.bundleSha256 then Err(RollbackDetected) else Ok(StateOf(b))
      else if exists f :: f in prior.revokedKeyFingerprints && f !in b.revokedKeyFingerprints then Err(TransitionInvalid)
      else if !BindingsFollow(prior.keys, b.keys, epochRose) || !BindingsFollow(prior.releases, b.releases, epochRose) then
        Err(TransitionInvalid)
      else if exists r :: r in b.keys.records && r.binding in prior.revokedKeyFingerprints then Err(TransitionInvalid)
      else if !TombstonesFollow(prior.keys, b.keys, b.generation) || !TombstonesFollow(prior.releases, b.releases, b.generation) then
        Err(TombstoneInvalid)
      else if !root.edgesFollow(b, prior) then Err(AuthorizationInvalid)
      else
        var revoked := RevokedUnion(b, prior);
        if exists r :: r in b.keys.records && r.lifecycle != Revoked && r.binding in revoked then Err(TransitionInvalid)
        else Ok(StateOf(b).(revokedKeyFingerprints := revoked))
  }

  /** What is wrong with a bundle by itself, before any durable state is looked at. */
  function BundleError(root: Root, b: Bundle, now: int): Option<TrustError> {
    if b.rootKeyId != root.rootKeyId then Some(RootKeyMismatch)
    else if !root.signed(b) then Some(SignatureInvalid)
    else if b.issuedAt > now + MAX_CLOCK_SKEW_SECONDS then Some(NotYetValid)
    else if b.expiresAt <= b.issuedAt || b.expiresAt - b.issuedAt > MAX_BUNDLE_TTL_SECONDS then Some(FreshnessInvalid)
    else if b.expiresAt <= now then Some(Expired)
    else if b.generation < root.floor.generation || b.revocationEpoch < root.floor.revocationEpoch then Some(RollbackDetected)
    else if b.generation == root.floor.generation && root.floor.bundleSha256.Some? && root.floor.bundleSha256.value != BundleSha256(b) then
      Some(RollbackDetected)
    else if !SortedLedger(b.keys) || !SortedLedger(b.releases) || !SortedUnique(b.revokedKeyFingerprints) then Some(RecordSetInvalid)
    else if !RevocationStateHolds(b) then Some(LifecycleInvalid)
    else if !TerminalsTombstoned(b.keys) || !TerminalsTombstoned(b.releases) then Some(TombstoneInvalid)
    else if !root.wellFormed(b) then Some(AuthorizationInvalid)
    else None
  }

  /** `verifyMarketplaceTrustBundle`: the checks of the bundle by itself, then the transition from the durable state. */
  function VerifyBundle(root: Root, b: Bundle, now: int, prior: Option<DurableState>): Result<DurableState, TrustError> {
    match BundleError(root, b, now)
    case Some(error) => Err(error)
    case None => DurableTransition(root, b, prior)
  }

  // ---- the next state is a function of the bundle ----

  lemma IdOrderLaws()
    ensures Total(IdLe) && Transitive(IdLe)
    ensures forall a, b :: IdLe(a, b) && IdLe(b, a) ==> a == b
  {
    forall a, b ensures IdLe(a, b) || IdLe(b, a) { CompareIsTotalOrder(Codes(a), Codes(b), Codes(b)); }
    forall a, b, c | IdLe(a, b) && IdLe(b, c) ensures IdLe(a, c) { CompareIsTotalOrder(Codes(a), Codes(b), Codes(c)); }
    forall a, b | IdLe(a, b) && IdLe(b, a) ensures a == b {
      CompareIsTotalOrder(Codes(a), Codes(b), Codes(b));
      CodesInjective(a, b);
    }
  }

  lemma {:induction false} SortedUniqueOrders(ids: seq<string>, i: nat, j: nat)
    requires SortedUnique(ids) && i < j < |ids|
    ensures IdBefore(ids[i], ids[j]) && IdLe(ids[i], ids[j]) && ids[i] != ids[j]
    decreases j
  {
    if i + 1 < j {
      SortedUniqueOrders(ids, i, j - 1);
      assert IdBefore(ids[j - 1], ids[j]);
      LessTransitive(Codes(ids[i]), Codes(ids[j - 1]), Codes(ids[j]));
    } else {
      assert IdBefore(ids[j - 1], ids[j]);
    }
    LessIrreflexive(Codes(ids[i]));
    CompareIsTotalOrder(Codes(ids[i]), Codes(ids[j]), Codes(ids[j]));
  }

  lemma SameElementsSameCount(xs: seq<string>, ys: seq<string>)
    requires NoDuplicates(xs) && NoDuplicates(ys) && forall x :: x in xs <==> x in ys
    ensures multiset(xs) == multiset(ys)
  {
    NoDuplicatesByMultiset(xs);
    NoDuplicatesByMultiset(ys);
    forall x ensures multiset(xs)[x] == multiset(ys)[x] {
      if x !in xs { assert x !in ys && multiset(xs)[x] == 0 && multiset(ys)[x] == 0; }
    }
  }

  /** Sorting the union adds nothing: the bundle already lists every revoked fingerprint, in order. */
  lemma UnionIsBundleList(b: Bundle, prior: DurableState)
    requires SortedUnique(b.revokedKeyFingerprints) && RevocationStateHolds(b)
    requires forall f :: f in prior.revokedKeyFingerprints ==> f in b.revokedKeyFingerprints
    ensures RevokedUnion(b, prior) == b.revokedKeyFingerprints
  {
    var listed := b.revokedKeyFingerprints;
    var all := Unique(prior.revokedKeyFingerprints + listed + RevokedBindings(b.keys.tombstones));
    IdOrderLaws();
    forall i, j | 0 <= i < j < |listed| ensures listed[i] != listed[j] && IdLe(listed[i], listed[j]) {
      SortedUniqueOrders(listed, i, j);
    }
    assert NoDuplicates(listed);
    SameElementsSameCount(listed, all);
    assert Distinguishes(IdLe, listed);
    SortForgetsOrder(IdLe, listed, all);
    SortFixesSorted(IdLe, listed);
  }

  /** The checks a bundle passes or fails whatever state it meets. */
  predicate BundleAccepted(root: Root, b: Bundle, now: int) {
    VerifyBundle(root, b, now, None).Ok?
  }

  /** Whatever state it replaces, an accepted bundle leads to the state spelled out by the bundle itself. */
  lemma NextStateIsBundle(root: Root, b: Bundle, now: int, prior: Option<DurableState>)
    requires VerifyBundle(root, b, now, prior).Ok?
    ensures VerifyBundle(root, b, now, prior) == Ok(StateOf(b))
    ensures BundleAccepted(root, b, now)
  {
    if prior.Some? && b.generation > prior.value.generation {
      UnionIsBundleList(b, prior.value);
    }
  }

  /** A state some bundle spelled out. */
  predicate Committed(s: DurableState) {
    s == StateOf(s.bundleSha256.content)
  }

  /** No tombstone names a listed record with another lifecycle or another binding. */
  predicate TombstonesAgree(l: Ledger) {
    forall t, r :: t in l.tombstones && r in l.records && r.id == t.id ==> r.lifecycle == t.reason && r.binding == t.binding
  }

  lemma AgreementIsConsistency(l: Ledger)
    requires SortedLedger(l) && TerminalsTombstoned(l)
    ensures LedgerConsistent(l) <==> TombstonesAgree(l)
  {
    if LedgerConsistent(l) {
      forall t, r | t in l.tombstones && r in l.records && r.id == t.id ensures r.lifecycle == t.reason && r.binding == t.binding {
        RecordIsFirst(l.records, r);
      }
    }
    if TombstonesAgree(l) {
      forall t | t in l.tombstones
        ensures
          var r := FindRecord(l.records, t.id);
          r.Some? ==> r.value.lifecycle == t.reason && r.value.binding == t.binding
      {}
    }
  }

  /** For an accepted bundle the consistency of the state it leaves can be read off the bundle before it is published. */
  lemma ConsistentIffTombstonesAgree(root: Root, b: Bundle, now: int)
    requires BundleAccepted(root, b, now)
    ensures DurableConsistent(StateOf(b)) <==> TombstonesAgree(b.keys) && TombstonesAgree(b.releases)
  {
    ChecksPass(root, b, now);
    AgreementIsConsistency(b.keys);
    AgreementIsConsistency(b.releases);
  }

  /**
   Presenting again the bundle that is already committed succeeds with no change, exactly when none of its tombstones
   contradicts a record it lists; otherwise it is refused.
   */
  lemma RestartIsIdempotent(root: Root, b: Bundle, now: int)
    requires BundleAccepted(root, b, now)
    ensures VerifyBundle(root, b, now, Some(StateOf(b))) ==
            if TombstonesAgree(b.keys) && TombstonesAgree(b.releases) then Ok(StateOf(b)) else Err(TransitionInvalid)
  {
    ConsistentIffTombstonesAgree(root, b, now);
    AcceptedGoesOn(root, b, now, Some(StateOf(b)));
    SameAgain(root, b);
  }

  lemma AcceptedGoesOn(root: Root, b: Bundle, now: int, prior: Option<DurableState>)
    requires BundleAccepted(root, b, now)
    ensures VerifyBundle(root, b, now, prior) == DurableTransition(root, b, prior)
  {}

  lemma SameAgain(root: Root, b: Bundle)
    ensures DurableTransition(root, b, Some(StateOf(b))) ==
            if DurableConsistent(StateOf(b)) then Ok(StateOf(b)) else Err(TransitionInvalid)
  {}

  lemma ChecksPass(root: Root, b: Bundle, now: int)
    requires BundleError(root, b, now).None?
    ensures SortedLedger(b.keys) && SortedLedger(b.releases) && SortedUnique(b.revokedKeyFingerprints)
    ensures TerminalsTombstoned(b.keys) && TerminalsTombstoned(b.releases) && RevocationStateHolds(b)
  {}

  lemma TombstonesPass(root: Root, b: Bundle, prior: DurableState)
    requires DurableTransition(root, b, Some(prior)).Ok? && b.generation > prior.generation
    ensures TombstonesFollow(prior.keys, b.keys, b.generation) && TombstonesFollow(prior.releases, b.releases, b.generation)
  {}

  lemma FollowingIsConsistent(prior: Ledger, next: Ledger, generation: nat)
    requires SortedLedger(next) && TerminalsTombstoned(next) && TombstonesFollow(prior, next, generation)
    ensures LedgerConsistent(next)
  {}

  /** A bundle accepted over an older state always leaves a state that can be presented again. */
  lemma AcceptedOverPriorIsConsistent(root: Root, b: Bundle, now: int, prior: DurableState)
    requires VerifyBundle(root, b, now, Some(prior)).Ok? && b.generation > prior.generation
    ensures DurableConsistent(StateOf(b))
  {
    ChecksPass(root, b, now);
    TombstonesPass(root, b, prior);
    FollowingIsConsistent(prior.keys, b.keys, b.generation);
    FollowingIsConsistent(prior.releases, b.releases, b.generation);
  }

  /** A first bundle may tombstone a key it still lists as active; its state then accepts no bundle at all. */
  lemma InconsistentStateAcceptsNothing(root: Root, s: DurableState, b: Bundle, now: int)
    requires !DurableConsistent(s)
    ensures VerifyBundle(root, b, now, Some(s)).Err?
  {}

  function StuckBundle(): Bundle {
    var key := Record("k", "f", Active, 1, 1, 100, None, None);
    var release := Record("r", "d", Active, 1, 1, 100, None, None);
    Bundle("root", 1, 0, 1, 10, Ledger([key], [Tombstone("k", "f", Revoked, 1, None)]), Ledger([release], []), ["k/r"], ["f"])
  }

  /** Such a first bundle passes every check of the bundle by itself. */
  lemma FirstBundleCanGetStuck(root: Root)
    requires root.rootKeyId == "root" && root.signed(StuckBundle()) && root.wellFormed(StuckBundle())
    requires root.floor == RollbackFloor(0, 0, None)
    ensures VerifyBundle(root, StuckBundle(), 5, None) == Ok(StateOf(StuckBundle()))
    ensures !DurableConsistent(StateOf(StuckBundle()))
  {
    var b := StuckBundle();
    var t := b.keys.tombstones[0];
    assert t in b.keys.tombstones;
    assert FindRecord(b.keys.records, "k") == Some(b.keys.records[0]);
    assert t.binding == "f" && "f" in b.revokedKeyFingerprints;
  }

  // ---- what one step keeps ----

  /**
   How a later ledger continues an earlier one: no id is lost, an id tombstoned before never carries a record
   again, tombstones stay (retired may become revoked), and a surviving record keeps its binding and never goes
   back in its lifecycle.
   */
  ghost predicate Continues(a: Ledger, c: Ledger) {
    && (forall t :: t in a.tombstones ==> KeepsTombstone(t, c))
    && (forall t, r :: t in a.tombstones && r in c.records ==> r.id != t.id)
    && (forall r :: r in a.records ==> KeepsRecord(r, c))
  }

  ghost predicate KeepsTombstone(t: Tombstone, c: Ledger) {
    exists u :: u in c.tombstones && u.id == t.id && u.binding == t.binding && Rank(t.reason) <= Rank(u.reason)
  }

  ghost predicate KeepsRecord(r: Record, c: Ledger) {
    || (exists q :: q in c.records && q.id == r.id && q.binding == r.binding && Rank(r.lifecycle) <= Rank(q.lifecycle))
    || (exists u :: u in c.tombstones && u.id == r.id && u.binding == r.binding)
  }

  lemma TombstoneStepRanks(was: Tombstone, next: Tombstone)
    requires TombstoneMayBecome(was, next)
    ensures next.binding == was.binding && Rank(was.reason) <= Rank(next.reason)
  {}

  lemma StepContinues(prior: Ledger, next: Ledger, epochRose: bool, generation: nat)
    requires BindingsFollow(prior, next, epochRose) && TombstonesFollow(prior, next, generation)
    requires SortedLedger(prior) && SortedLedger(next)
    ensures Continues(prior, next)
  {
    forall t | t in prior.tombstones ensures KeepsTombstone(t, next) {
      var u := FindTombstone(next.tombstones, t.id);
      assert u.Some? && u.value in next.tombstones;
      var back := FindTombstone(prior.tombstones, u.value.id);
      assert back.Some?;
      TombstoneIsFirst(prior.tombstones, t);
      TombstoneStepRanks(t, u.value);
    }
    forall r | r in prior.records ensures KeepsRecord(r, next) {
      match FindRecord(next.records, r.id)
      case Some(q) =>
        assert q in next.records && RecordMayStep(r, q);
      case None =>
        var u := FindTombstone(next.tombstones, r.id);
        assert u.Some? && u.value in next.tombstones;
        RecordIsFirst(prior.records, r);
    }
    forall t, r | t in prior.tombstones && r in next.records ensures r.id != t.id {
      assert FindTombstone(prior.tombstones, r.id).None?;
    }
  }

  lemma {:induction false} TombstoneIsFirst(ts: seq<Tombstone>, t: Tombstone)
    requires SortedUnique(TombstoneIds(ts)) && t in ts
    ensures FindTombstone(ts, t.id) == Some(t)
  {
    var i :| 0 <= i < |ts| && ts[i] == t;
    var f := FindTombstone(ts, t.id);
    var j :| 0 <= j < |ts| && ts[j] == f.value;
    var ids := TombstoneIds(ts);
    if i < j { SortedUniqueOrders(ids, i, j); }
    if j < i { SortedUniqueOrders(ids, j, i); }
  }

  lemma RecordIsFirst(rs: seq<Record>, r: Record)
    requires SortedUnique(RecordIds(rs)) && r in rs
    ensures FindRecord(rs, r.id) == Some(r)
  {
    var i :| 0 <= i < |rs| && rs[i] == r;
    var f := FindRecord(rs, r.id);
    var j :| 0 <= j < |rs| && rs[j] == f.value;
    var ids := RecordIds(rs);
    if i < j { SortedUniqueOrders(ids, i, j); }
    if j < i { SortedUniqueOrders(ids, j, i); }
  }

  lemma ContinuesTransitive(a: Ledger, b: Ledger, c: Ledger)
    requires Continues(a, b) && Continues(b, c)
    ensures Continues(a, c)
  {
    forall t | t in a.tombstones ensures KeepsTombstone(t, c) {
      assert KeepsTombstone(t, b);
      var u :| u in b.tombstones && u.id == t.id && u.binding == t.binding && Rank(t.reason) <= Rank(u.reason);
      assert KeepsTombstone(u, c);
    }
    forall t, r | t in a.tombstones && r in c.records ensures r.id != t.id {
      assert KeepsTombstone(t, b);
      var u :| u in b.tombstones && u.id == t.id;
    }
    forall r | r in a.records ensures KeepsRecord(r, c) {
      assert KeepsRecord(r, b);
      if exists q :: q in b.records && q.id == r.id && q.binding == r.binding && Rank(r.lifecycle) <= Rank(q.lifecycle) {
        var q :| q in b.records && q.id == r.id && q.binding == r.binding && Rank(r.lifecycle) <= Rank(q.lifecycle);
        assert KeepsRecord(q, c);
      } else {
        var u :| u in b.tombstones && u.id == r.id && u.binding == r.binding;
        assert KeepsTombstone(u, c);
      }
    }
  }

  /** What every later durable state owes an earlier one. */
  ghost predicate Supersedes(a: DurableState, c: DurableState) {
    && a.generation < c.generation
    && a.revocationEpoch <= c.revocationEpoch
    && Continues(a.keys, c.keys)
    && Continues(a.releases, c.releases)
    && (forall f :: f in a.revokedKeyFingerprints ==>
          f in c.revokedKeyFingerprints && forall r :: r in c.keys.records ==> r.binding != f)
  }

  lemma SupersedesTransitive(a: DurableState, b: DurableState, c: DurableState)
    requires Supersedes(a, b) && Supersedes(b, c)
    ensures Supersedes(a, c)
  {
    ContinuesTransitive(a.keys, b.keys, c.keys);
    ContinuesTransitive(a.releases, b.releases, c.releases);
  }

  /**
   One verified replacement of a committed state either changes nothing or supersedes it: generation strictly up,
   epoch not down, bindings, tombstones and revoked fingerprints kept.
   */
  lemma VerifiedStepSupersedes(root: Root, b: Bundle, now: int, prior: DurableState)
    requires Committed(prior) && VerifyBundle(root, b, now, Some(prior)).Ok?
    ensures StateOf(b) == prior || Supersedes(prior, StateOf(b))
    ensures StateOf(b) == prior <==> b.generation == prior.generation
  {
    if b.generation != prior.generation {
      AcceptedReplacement(root, b, now, prior);
      var epochRose := b.revocationEpoch > prior.revocationEpoch;
      StepContinues(prior.keys, b.keys, epochRose, b.generation);
      StepContinues(prior.releases, b.releases, epochRose, b.generation);
    } else {
      assert prior.bundleSha256.content == b;
    }
  }

  /** What acceptance over an older generation has checked. */
  lemma AcceptedReplacement(root: Root, b: Bundle, now: int, prior: DurableState)
    requires VerifyBundle(root, b, now, Some(prior)).Ok? && b.generation != prior.generation
    ensures b.generation > prior.generation && b.revocationEpoch >= prior.revocationEpoch
    ensures SortedLedger(prior.keys) && SortedLedger(b.keys) && SortedLedger(prior.releases) && SortedLedger(b.releases)
    ensures
      var epochRose := b.revocationEpoch > prior.revocationEpoch;
      && BindingsFollow(prior.keys, b.keys, epochRose) && TombstonesFollow(prior.keys, b.keys, b.generation)
      && BindingsFollow(prior.releases, b.releases, epochRose) && TombstonesFollow(prior.releases, b.releases, b.generation)
    ensures forall f :: f in prior.revokedKeyFingerprints ==> f in b.revokedKeyFingerprints
    ensures forall r :: r in b.keys.records ==> r.binding !in prior.revokedKeyFingerprints
  {}
}
