/**
 What an accepted trust bundle is, said of its contents (`trust-bundle.ts`): nothing here follows the order of the
 checks, their lookups or their helpers.
 */
module TrustAcceptance {
  import opened Foundations
  import opened Ordering
  import opened TrustBundle

  // ---- a bundle by itself ----

  predicate Ascends(ids: seq<string>) {
    forall i, j :: 0 <= i < j < |ids| ==> Less(Codes(ids[i]), Codes(ids[j]))
  }

  /** Records and tombstones in strictly ascending order of their ids. */
  predicate InOrder(l: Ledger) {
    && (forall i, j :: 0 <= i < j < |l.records| ==> Less(Codes(l.records[i].id), Codes(l.records[j].id)))
    && (forall i, j :: 0 <= i < j < |l.tombstones| ==> Less(Codes(l.tombstones[i].id), Codes(l.tombstones[j].id)))
  }

  /** The last lifecycle change lies in the record's validity and not after issuance, or expiry while preactive. */
  predicate Dated(r: Record, b: Bundle) {
    && r.notBefore <= r.lifecycleChangedAt < r.notAfter
    && r.lifecycleChangedAt <= (if r.lifecycle == Preactive then b.expiresAt else b.issuedAt)
    && if r.lifecycle == Revoked
       then r.revokedAt == Some(r.lifecycleChangedAt) && r.revocationEpoch.Some? && r.revocationEpoch.value <= b.revocationEpoch
       else r.revokedAt == None && r.revocationEpoch == None
  }

  ghost predicate Buried(r: Record, l: Ledger) {
    exists t :: t in l.tombstones && t.id == r.id && t.reason == r.lifecycle && t.binding == r.binding
  }

  ghost predicate LedgerSound(l: Ledger, b: Bundle) {
    && InOrder(l)
    && (forall r :: r in l.records ==> Dated(r, b))
    && (forall r :: r in l.records && r.lifecycle in {Retired, Revoked} ==> Buried(r, l))
    && (forall t :: t in l.tombstones ==> t.tombstonedAtGeneration <= b.generation)
  }

  ghost predicate AboveFloor(floor: RollbackFloor, b: Bundle) {
    && b.generation >= floor.generation && b.revocationEpoch >= floor.revocationEpoch
    && (b.generation == floor.generation && floor.bundleSha256.Some? ==> floor.bundleSha256.value.content == b)
  }

  /** Issued under this root, alive for at most a week, above the floor, and consistent within itself. */
  ghost predicate BundleSound(root: Root, b: Bundle) {
    && b.rootKeyId == root.rootKeyId && root.signed(b) && root.wellFormed(b)
    && 0 < b.expiresAt - b.issuedAt <= 604_800
    && AboveFloor(root.floor, b)
    && LedgerSound(b.keys, b) && LedgerSound(b.releases, b) && Ascends(b.revokedKeyFingerprints)
    && (forall r :: r in b.keys.records && r.lifecycle == Revoked ==> r.binding in b.revokedKeyFingerprints)
    && (forall t :: t in b.keys.tombstones && t.reason == Revoked ==> t.binding in b.revokedKeyFingerprints)
  }

  // ---- a bundle over a prior state ----

  ghost predicate LedgerHolds(l: Ledger) {
    && InOrder(l) && TombstonesAgree(l)
    && (forall r :: r in l.records && r.lifecycle in {Retired, Revoked} ==>
          exists t :: t in l.tombstones && t.id == r.id && t.reason == r.lifecycle)
  }

  ghost predicate PriorHolds(s: DurableState) {
    && LedgerHolds(s.keys) && LedgerHolds(s.releases) && Ascends(s.revokedKeyFingerprints)
    && (forall r :: r in s.keys.records && r.lifecycle == Revoked ==> r.binding in s.revokedKeyFingerprints)
  }

  /** A listed record of the same id: one binding, a validity that only shrinks, a lifecycle that only advances. */
  predicate RecordFollows(was: Record, now: Record) {
    && now.binding == was.binding && now.notBefore == was.notBefore && now.notAfter <= was.notAfter
    && Rank(was.lifecycle) <= Rank(now.lifecycle)
    && (now.lifecycle == Retired ==> was.lifecycle in {Retiring, Retired})
    && if now.lifecycle == was.lifecycle then now.lifecycleChangedAt == was.lifecycleChangedAt
       else now.lifecycleChangedAt > was.lifecycleChangedAt
  }

  predicate TombstoneKept(was: Tombstone, now: Tombstone) {
    || now == was
    || (now.id == was.id && now.binding == was.binding && was.reason == Retired && now.reason == Revoked
        && now.tombstonedAtGeneration >= was.tombstonedAtGeneration)
  }

  /** A record that is no longer listed left a tombstone, after its retention or by an emergency revocation. */
  predicate MayLeave(was: Record, t: Tombstone, epochRose: bool, generation: nat) {
    && t.id == was.id && t.binding == was.binding
    && match was.lifecycle
       case Retired => t.reason == Retired && t.retainUntilGeneration.Some? && t.retainUntilGeneration.value <= generation
       case Revoked => t.reason == Revoked
       case _ => t.reason == Revoked && epochRose
  }

  ghost predicate Lists(l: Ledger, id: string) { exists r :: r in l.records && r.id == id }

  ghost predicate Buries(l: Ledger, id: string) { exists t :: t in l.tombstones && t.id == id }

  ghost predicate Follows(prior: Ledger, next: Ledger, epochRose: bool, generation: nat) {
    && (forall was, now :: was in prior.records && now in next.records && now.id == was.id ==> RecordFollows(was, now))
    && (forall was :: was in prior.records && !Lists(next, was.id) ==>
          exists t :: t in next.tombstones && MayLeave(was, t, epochRose, generation))
    && (forall t :: t in prior.tombstones ==> !Lists(next, t.id) && exists u :: u in next.tombstones && u.id == t.id && TombstoneKept(t, u))
    && TombstonesAgree(next)
    && (forall t :: t in next.tombstones ==> Lists(next, t.id) || Lists(prior, t.id) || Buries(prior, t.id))
  }

  /** A later generation over the state of an earlier one. */
  ghost predicate Advances(root: Root, b: Bundle, prior: DurableState) {
    var epochRose := b.revocationEpoch > prior.revocationEpoch;
    && b.generation > prior.generation && b.revocationEpoch >= prior.revocationEpoch
    && root.edgesFollow(b, prior)
    && Follows(prior.keys, b.keys, epochRose, b.generation) && Follows(prior.releases, b.releases, epochRose, b.generation)
    && (forall f :: f in prior.revokedKeyFingerprints ==> f in b.revokedKeyFingerprints)
    && (forall r :: r in b.keys.records ==> r.binding !in prior.revokedKeyFingerprints)
    && (forall r :: r in b.keys.records && r.lifecycle != Revoked ==> r.binding !in b.revokedKeyFingerprints)
  }

  /** The very bundle the state was committed from. */
  ghost predicate Repeats(b: Bundle, prior: DurableState) {
    b.generation == prior.generation && b.revocationEpoch >= prior.revocationEpoch && prior.bundleSha256.content == b
  }

  /** Everything acceptance asks that does not look at the clock. */
  ghost predicate Acceptable(root: Root, b: Bundle, prior: Option<DurableState>) {
    && BundleSound(root, b)
    && (prior.Some? ==> PriorHolds(prior.value) && (Repeats(b, prior.value) || Advances(root, b, prior.value)))
  }

  // ---- the checks say the same ----

  lemma AscendsIff(ids: seq<string>)
    ensures TrustBundle.SortedUnique(ids) <==> Ascends(ids)
  {
    if TrustBundle.SortedUnique(ids) {
      forall i, j | 0 <= i < j < |ids| ensures Less(Codes(ids[i]), Codes(ids[j])) {
        SortedUniqueOrders(ids, i, j);
      }
    }
  }

  lemma InOrderIff(l: Ledger)
    ensures SortedLedger(l) <==> InOrder(l)
  {
    var rs, ts := RecordIds(l.records), TombstoneIds(l.tombstones);
    AscendsIff(rs);
    AscendsIff(ts);
    assert forall i :: 0 <= i < |rs| ==> rs[i] == l.records[i].id;
    assert forall i :: 0 <= i < |ts| ==> ts[i] == l.tombstones[i].id;
    if Ascends(rs) && Ascends(ts) {
      forall i, j | 0 <= i < j < |l.records| ensures Less(Codes(l.records[i].id), Codes(l.records[j].id)) {
        assert Less(Codes(rs[i]), Codes(rs[j]));
      }
      forall i, j | 0 <= i < j < |l.tombstones| ensures Less(Codes(l.tombstones[i].id), Codes(l.tombstones[j].id)) {
        assert Less(Codes(ts[i]), Codes(ts[j]));
      }
    }
  }

  /** With ordered ids, looking one up is having it. */
  lemma FoundRecord(l: Ledger, r: Record)
    requires SortedLedger(l) && r in l.records
    ensures FindRecord(l.records, r.id) == Some(r)
  {
    RecordIsFirst(l.records, r);
  }

  lemma FoundTombstone(l: Ledger, t: Tombstone)
    requires SortedLedger(l) && t in l.tombstones
    ensures FindTombstone(l.tombstones, t.id) == Some(t)
  {
    TombstoneIsFirst(l.tombstones, t);
  }

  lemma BuriedIff(l: Ledger)
    requires SortedLedger(l)
    ensures TerminalsTombstoned(l) <==> forall r :: r in l.records && r.lifecycle in {Retired, Revoked} ==> Buried(r, l)
  {
    forall r | r in l.records && Terminal(r.lifecycle)
      ensures Buried(r, l) <==>
              var t := FindTombstone(l.tombstones, r.id);
              t.Some? && t.value.reason == r.lifecycle && t.value.binding == r.binding
    {
      if Buried(r, l) {
        var t :| t in l.tombstones && t.id == r.id && t.reason == r.lifecycle && t.binding == r.binding;
        FoundTombstone(l, t);
      }
    }
  }

  lemma DatedIff(r: Record, b: Bundle)
    requires b.issuedAt < b.expiresAt
    ensures LifecycleBounds(r, b) <==> Dated(r, b)
  {}

  lemma RevocationIff(b: Bundle)
    requires b.issuedAt < b.expiresAt
    ensures RevocationStateHolds(b) <==>
            && (forall r :: r in b.keys.records ==> Dated(r, b)) && (forall r :: r in b.releases.records ==> Dated(r, b))
            && (forall t :: t in b.keys.tombstones ==> t.tombstonedAtGeneration <= b.generation)
            && (forall t :: t in b.releases.tombstones ==> t.tombstonedAtGeneration <= b.generation)
            && (forall r :: r in b.keys.records && r.lifecycle == Revoked ==> r.binding in b.revokedKeyFingerprints)
            && (forall t :: t in b.keys.tombstones && t.reason == Revoked ==> t.binding in b.revokedKeyFingerprints)
  {
    forall r ensures LifecycleBounds(r, b) <==> Dated(r, b) { DatedIff(r, b); }
  }

  lemma LedgerHoldsIff(l: Ledger)
    ensures LedgerConsistent(l) <==> LedgerHolds(l)
  {
    InOrderIff(l);
    if SortedLedger(l) {
      AgreesIff(l);
      forall r | r in l.records && Terminal(r.lifecycle)
        ensures (exists t :: t in l.tombstones && t.id == r.id && t.reason == r.lifecycle) <==>
                var t := FindTombstone(l.tombstones, r.id);
                t.Some? && t.value.reason == r.lifecycle
      {
        if t :| t in l.tombstones && t.id == r.id && t.reason == r.lifecycle {
          FoundTombstone(l, t);
        }
      }
    }
  }

  lemma AgreesIff(l: Ledger)
    requires SortedLedger(l)
    ensures TombstonesAgree(l) <==>
            forall t :: t in l.tombstones ==>
              var r := FindRecord(l.records, t.id);
              r.Some? ==> r.value.lifecycle == t.reason && r.value.binding == t.binding
  {
    forall r | r in l.records ensures FindRecord(l.records, r.id) == Some(r) { FoundRecord(l, r); }
  }

  lemma StepIff(was: Record, now: Record)
    ensures now.binding == was.binding && RecordMayStep(was, now) <==> RecordFollows(was, now)
  {}

  /** `FindRecord` and `FindTombstone` of ordered ledgers, as far as the transition rules use them. */
  ghost predicate Looks(l: Ledger) {
    && (forall r :: r in l.records ==> FindRecord(l.records, r.id) == Some(r))
    && (forall t :: t in l.tombstones ==> FindTombstone(l.tombstones, t.id) == Some(t))
  }

  lemma OrderedLooks(l: Ledger)
    requires SortedLedger(l)
    ensures Looks(l)
  {
    forall r | r in l.records ensures FindRecord(l.records, r.id) == Some(r) { FoundRecord(l, r); }
    forall t | t in l.tombstones ensures FindTombstone(l.tombstones, t.id) == Some(t) { FoundTombstone(l, t); }
  }

  lemma FollowChecked(prior: Ledger, next: Ledger, epochRose: bool, generation: nat)
    requires Looks(prior) && Looks(next)
    requires BindingsFollow(prior, next, epochRose) && TombstonesFollow(prior, next, generation)
    ensures Follows(prior, next, epochRose, generation)
  {
    forall was, now | was in prior.records && now in next.records && now.id == was.id ensures RecordFollows(was, now) {
      assert FindRecord(next.records, was.id) == Some(now);
      StepIff(was, now);
    }
    forall was | was in prior.records && !Lists(next, was.id)
      ensures exists t :: t in next.tombstones && MayLeave(was, t, epochRose, generation)
    {
      assert FindRecord(next.records, was.id).None?;
      var t := FindTombstone(next.tombstones, was.id).value;
      assert t in next.tombstones && FindRecord(prior.records, t.id) == Some(was);
      assert MayLeave(was, t, epochRose, generation);
    }
    forall t | t in prior.tombstones
      ensures !Lists(next, t.id) && exists u :: u in next.tombstones && u.id == t.id && TombstoneKept(t, u)
    {
      assert FindTombstone(prior.tombstones, t.id) == Some(t);
      var u := FindTombstone(next.tombstones, t.id).value;
      assert TombstoneMayBecome(t, u);
      assert TombstoneKept(t, u);
    }
    forall t, r | t in next.tombstones && r in next.records && r.id == t.id ensures r.lifecycle == t.reason && r.binding == t.binding {
      assert FindRecord(next.records, t.id) == Some(r);
    }
    forall t | t in next.tombstones ensures Lists(next, t.id) || Lists(prior, t.id) || Buries(prior, t.id) {
      assert FindRecord(next.records, t.id).Some? || FindRecord(prior.records, t.id).Some? || FindTombstone(prior.tombstones, t.id).Some?;
    }
  }

  lemma BindingsChecked(prior: Ledger, next: Ledger, epochRose: bool, generation: nat)
    requires Looks(prior) && Looks(next) && Follows(prior, next, epochRose, generation)
    ensures BindingsFollow(prior, next, epochRose)
  {
    forall was | was in prior.records
      ensures
        var tombstone := FindTombstone(next.tombstones, was.id);
        match FindRecord(next.records, was.id)
        case None => tombstone.Some? && (Terminal(was.lifecycle) || (tombstone.value.reason == Revoked && epochRose))
        case Some(now) =>
          && (FindTombstone(prior.tombstones, was.id).Some? ==> Terminal(now.lifecycle))
          && now.binding == was.binding && RecordMayStep(was, now)
    {
      match FindRecord(next.records, was.id)
      case None =>
        assert !Lists(next, was.id);
        var t :| t in next.tombstones && MayLeave(was, t, epochRose, generation);
        assert FindTombstone(next.tombstones, t.id) == Some(t);
      case Some(now) =>
        StepIff(was, now);
        assert Lists(next, was.id);
    }
    forall r | r in next.records ensures FindTombstone(prior.tombstones, r.id).None? {
      assert Lists(next, r.id);
    }
  }

  lemma TombstonesChecked(prior: Ledger, next: Ledger, epochRose: bool, generation: nat)
    requires Looks(prior) && Looks(next) && Follows(prior, next, epochRose, generation)
    ensures TombstonesFollow(prior, next, generation)
  {
    forall t | t in next.tombstones
      ensures
        var current := FindRecord(next.records, t.id);
        var was := FindRecord(prior.records, t.id);
        var oldTombstone := FindTombstone(prior.tombstones, t.id);
        && (current.Some? || was.Some? || oldTombstone.Some?)
        && (current.Some? ==> current.value.lifecycle == t.reason && current.value.binding == t.binding)
        && (current.None? && was.Some? ==> was.value.binding == t.binding)
        && (oldTombstone.Some? ==> TombstoneMayBecome(oldTombstone.value, t))
        && (current.None? && was.Some? && was.value.lifecycle == Retired ==>
              t.reason == Retired && t.retainUntilGeneration.Some? && generation >= t.retainUntilGeneration.value)
        && (current.None? && was.Some? && was.value.lifecycle == Revoked ==> t.reason == Revoked)
    {
      KeptTombstone(prior, next, epochRose, generation, t);
      if FindRecord(next.records, t.id).None? && FindRecord(prior.records, t.id).Some? {
        LeavingTombstone(prior, next, epochRose, generation, t);
      }
      if FindRecord(next.records, t.id).None? && FindRecord(prior.records, t.id).None? {
        assert !Lists(next, t.id) && !Lists(prior, t.id);
      }
    }
    forall t | t in prior.tombstones ensures FindTombstone(next.tombstones, t.id).Some? {
      var u :| u in next.tombstones && u.id == t.id && TombstoneKept(t, u);
    }
  }

  lemma KeptTombstone(prior: Ledger, next: Ledger, epochRose: bool, generation: nat, t: Tombstone)
    requires Looks(next) && Follows(prior, next, epochRose, generation) && t in next.tombstones
    ensures
      var before := FindTombstone(prior.tombstones, t.id);
      before.Some? ==> TombstoneMayBecome(before.value, t)
  {
    var before := FindTombstone(prior.tombstones, t.id);
    if before.Some? {
      var u :| u in next.tombstones && u.id == before.value.id && TombstoneKept(before.value, u);
      assert FindTombstone(next.tombstones, t.id) == Some(u) == Some(t);
    }
  }

  lemma LeavingTombstone(prior: Ledger, next: Ledger, epochRose: bool, generation: nat, t: Tombstone)
    requires Looks(next) && Follows(prior, next, epochRose, generation) && t in next.tombstones
    requires FindRecord(next.records, t.id).None? && FindRecord(prior.records, t.id).Some?
    ensures MayLeave(FindRecord(prior.records, t.id).value, t, epochRose, generation)
  {
    var was := FindRecord(prior.records, t.id).value;
    assert !Lists(next, was.id);
    var u :| u in next.tombstones && MayLeave(was, u, epochRose, generation);
    assert FindTombstone(next.tombstones, t.id) == Some(u) == Some(t);
  }

  lemma FollowsIff(prior: Ledger, next: Ledger, epochRose: bool, generation: nat)
    requires SortedLedger(prior) && SortedLedger(next)
    ensures BindingsFollow(prior, next, epochRose) && TombstonesFollow(prior, next, generation) <==>
            Follows(prior, next, epochRose, generation)
  {
    OrderedLooks(prior);
    OrderedLooks(next);
    if BindingsFollow(prior, next, epochRose) && TombstonesFollow(prior, next, generation) {
      FollowChecked(prior, next, epochRose, generation);
    }
    if Follows(prior, next, epochRose, generation) {
      BindingsChecked(prior, next, epochRose, generation);
      TombstonesChecked(prior, next, epochRose, generation);
    }
  }

  lemma PriorHoldsIff(s: DurableState)
    ensures DurableConsistent(s) <==> PriorHolds(s)
  {
    LedgerHoldsIff(s.keys);
    LedgerHoldsIff(s.releases);
    AscendsIff(s.revokedKeyFingerprints);
  }

  /** The ordered sets, lifecycles and tombstones of a bundle by itself. */
  lemma ContentsIff(b: Bundle)
    requires b.issuedAt < b.expiresAt
    ensures
      (&& SortedLedger(b.keys) && SortedLedger(b.releases) && TrustBundle.SortedUnique(b.revokedKeyFingerprints)
       && RevocationStateHolds(b) && TerminalsTombstoned(b.keys) && TerminalsTombstoned(b.releases))
      <==>
      (&& LedgerSound(b.keys, b) && LedgerSound(b.releases, b) && Ascends(b.revokedKeyFingerprints)
       && (forall r :: r in b.keys.records && r.lifecycle == Revoked ==> r.binding in b.revokedKeyFingerprints)
       && (forall t :: t in b.keys.tombstones && t.reason == Revoked ==> t.binding in b.revokedKeyFingerprints))
  {
    InOrderIff(b.keys);
    InOrderIff(b.releases);
    AscendsIff(b.revokedKeyFingerprints);
    RevocationIff(b);
    if SortedLedger(b.keys) && SortedLedger(b.releases) {
      BuriedIff(b.keys);
      BuriedIff(b.releases);
    }
  }

  lemma AcceptedIff(root: Root, b: Bundle, now: int)
    ensures BundleAccepted(root, b, now) <==> BundleSound(root, b) && b.issuedAt - 30 <= now < b.expiresAt
  {
    if b.issuedAt < b.expiresAt {
      ContentsIff(b);
    }
  }

  /** The checks of a transition, as the source makes them. */
  predicate Checked(root: Root, b: Bundle, prior: DurableState, epochRose: bool) {
    && BindingsFollow(prior.keys, b.keys, epochRose) && BindingsFollow(prior.releases, b.releases, epochRose)
    && TombstonesFollow(prior.keys, b.keys, b.generation) && TombstonesFollow(prior.releases, b.releases, b.generation)
    && root.edgesFollow(b, prior)
  }

  lemma TransitionChecks(root: Root, b: Bundle, prior: DurableState)
    requires DurableConsistent(prior) && b.generation > prior.generation && b.revocationEpoch >= prior.revocationEpoch
    requires !(exists f :: f in prior.revokedKeyFingerprints && f !in b.revokedKeyFingerprints)
    requires !(exists r :: r in b.keys.records && r.binding in prior.revokedKeyFingerprints)
    ensures DurableTransition(root, b, Some(prior)).Ok? <==>
              Checked(root, b, prior, b.revocationEpoch > prior.revocationEpoch)
              && !(exists r :: r in b.keys.records && r.lifecycle != Revoked && r.binding in RevokedUnion(b, prior))
  {}

  lemma ReusedIsRefused(root: Root, b: Bundle, prior: DurableState)
    requires b.generation > prior.generation
    requires (exists f :: f in prior.revokedKeyFingerprints && f !in b.revokedKeyFingerprints)
             || (exists r :: r in b.keys.records && r.binding in prior.revokedKeyFingerprints)
    ensures DurableTransition(root, b, Some(prior)).Err?
  {}

  /** What acceptance over an earlier generation asks besides its prior state holding. */
  lemma AdvancesIff(root: Root, b: Bundle, prior: DurableState)
    requires DurableConsistent(prior) && SortedLedger(b.keys) && SortedLedger(b.releases)
    requires TrustBundle.SortedUnique(b.revokedKeyFingerprints) && RevocationStateHolds(b)
    requires b.generation > prior.generation && b.revocationEpoch >= prior.revocationEpoch
    ensures DurableTransition(root, b, Some(prior)).Ok? <==> Advances(root, b, prior)
  {
    var epochRose := b.revocationEpoch > prior.revocationEpoch;
    if (exists f :: f in prior.revokedKeyFingerprints && f !in b.revokedKeyFingerprints)
       || (exists r :: r in b.keys.records && r.binding in prior.revokedKeyFingerprints) {
      ReusedIsRefused(root, b, prior);
    } else {
      TransitionChecks(root, b, prior);
      UnionIsBundleList(b, prior);
    }
    FollowsIff(prior.keys, b.keys, epochRose, b.generation);
    FollowsIff(prior.releases, b.releases, epochRose, b.generation);
  }

  lemma TransitionIff(root: Root, b: Bundle, prior: DurableState)
    requires SortedLedger(b.keys) && SortedLedger(b.releases)
    requires TrustBundle.SortedUnique(b.revokedKeyFingerprints) && RevocationStateHolds(b)
    ensures DurableTransition(root, b, Some(prior)).Ok? <==> PriorHolds(prior) && (Repeats(b, prior) || Advances(root, b, prior))
  {
    PriorHoldsIff(prior);
    if DurableConsistent(prior) && b.generation > prior.generation && b.revocationEpoch >= prior.revocationEpoch {
      AdvancesIff(root, b, prior);
    }
  }

  /**
   A bundle is accepted exactly when it is acceptable for this root and prior state and the clock stands in one
   half-open interval, from issuance less thirty seconds to expiry; the durable state it leaves repeats its contents.
   */
  lemma VerifyBundleIff(root: Root, b: Bundle, now: int, prior: Option<DurableState>)
    ensures VerifyBundle(root, b, now, prior).Ok? <==> Acceptable(root, b, prior) && b.issuedAt - 30 <= now < b.expiresAt
    ensures VerifyBundle(root, b, now, prior).Ok? ==> Spells(VerifyBundle(root, b, now, prior).value, b)
  {
    AcceptedIff(root, b, now);
    if BundleAccepted(root, b, now) && prior.Some? {
      TransitionIff(root, b, prior.value);
    }
    if VerifyBundle(root, b, now, prior).Ok? {
      NextStateIsBundle(root, b, now, prior);
    }
  }

  /** The state repeats the bundle, entry by entry. */
  predicate Spells(s: DurableState, b: Bundle) {
    && s.generation == b.generation && s.revocationEpoch == b.revocationEpoch && s.bundleSha256.content == b
    && s.keys == b.keys && s.releases == b.releases && s.authorizations == b.authorizations
    && s.revokedKeyFingerprints == b.revokedKeyFingerprints
  }

  /** The code a bundle is refused with before its contents are looked at. */
  lemma RefusedOutright(root: Root, b: Bundle, now: int, prior: Option<DurableState>)
    ensures VerifyBundle(root, b, now, prior) == Err(RootKeyMismatch) <==> b.rootKeyId != root.rootKeyId
    ensures VerifyBundle(root, b, now, prior) == Err(SignatureInvalid) <==> b.rootKeyId == root.rootKeyId && !root.signed(b)
    ensures VerifyBundle(root, b, now, prior) == Err(NotYetValid) <==>
            b.rootKeyId == root.rootKeyId && root.signed(b) && now < b.issuedAt - 30
    ensures VerifyBundle(root, b, now, prior) == Err(FreshnessInvalid) <==>
            b.rootKeyId == root.rootKeyId && root.signed(b) && b.issuedAt - 30 <= now && !(0 < b.expiresAt - b.issuedAt <= 604_800)
    ensures VerifyBundle(root, b, now, prior) == Err(Expired) <==>
            b.rootKeyId == root.rootKeyId && root.signed(b) && 0 < b.expiresAt - b.issuedAt <= 604_800 && b.expiresAt <= now
  {}

  /** The bundle is older than the state, or another one of its generation. */
  predicate Older(b: Bundle, prior: DurableState) {
    || b.generation < prior.generation || b.revocationEpoch < prior.revocationEpoch
    || (b.generation == prior.generation && prior.bundleSha256.content != b)
  }

  lemma RolledBackOver(root: Root, b: Bundle, prior: DurableState)
    ensures DurableTransition(root, b, Some(prior)) == Err(RollbackDetected) <==> DurableConsistent(prior) && Older(b, prior)
  {}

  lemma BelowFloor(root: Root, b: Bundle, now: int, prior: Option<DurableState>)
    requires !BundleAccepted(root, b, now)
    ensures VerifyBundle(root, b, now, prior) == Err(RollbackDetected) <==>
            && b.rootKeyId == root.rootKeyId && root.signed(b) && 0 < b.expiresAt - b.issuedAt <= 604_800
            && b.issuedAt - 30 <= now < b.expiresAt && !AboveFloor(root.floor, b)
  {}

  lemma PastFloor(root: Root, b: Bundle, now: int, prior: Option<DurableState>)
    requires BundleAccepted(root, b, now)
    ensures VerifyBundle(root, b, now, prior) == DurableTransition(root, b, prior) && AboveFloor(root.floor, b)
  {}

  /**
   A rollback is reported exactly for a bundle of this root, in its window, that lies below the floor, or is sound but
   older than a prior state that holds.
   */
  lemma RollbackIff(root: Root, b: Bundle, now: int, prior: Option<DurableState>)
    ensures VerifyBundle(root, b, now, prior) == Err(RollbackDetected) <==>
            && b.rootKeyId == root.rootKeyId && root.signed(b) && 0 < b.expiresAt - b.issuedAt <= 604_800
            && b.issuedAt - 30 <= now < b.expiresAt
            && (!AboveFloor(root.floor, b)
                || (BundleSound(root, b) && prior.Some? && PriorHolds(prior.value) && Older(b, prior.value)))
  {
    AcceptedIff(root, b, now);
    if BundleAccepted(root, b, now) {
      PastFloor(root, b, now, prior);
      if prior.Some? {
        PriorHoldsIff(prior.value);
        RolledBackOver(root, b, prior.value);
      }
    } else {
      BelowFloor(root, b, now, prior);
    }
  }

  // ---- a newer generation is accepted ----

  function FirstBundle(): Bundle {
    Bundle("root", 1, 0, 100, 1_000, Ledger([Record("k", "f", Active, 1, 1, 5_000, None, None)], []),
      Ledger([Record("r", "d", Active, 1, 1, 5_000, None, None)], []), ["k/r"], [])
  }

  /** One key is revoked and buried, another takes its place. */
  function SecondBundle(): Bundle {
    Bundle("root", 2, 1, 200, 1_100,
      Ledger([Record("k", "f", Revoked, 150, 1, 5_000, Some(150), Some(1)), Record("l", "g", Active, 160, 1, 5_000, None, None)],
        [Tombstone("k", "f", Revoked, 2, None)]),
      Ledger([Record("r", "d", Active, 1, 1, 5_000, None, None)], []), ["l/r"], ["f"])
  }

  lemma CodesOrdered()
    ensures Less(Codes("k"), Codes("l"))
  {
    assert Codes("k")[0] < Codes("l")[0];
  }

  lemma SecondFollows()
    ensures Follows(FirstBundle().keys, SecondBundle().keys, true, 2) && Follows(FirstBundle().releases, SecondBundle().releases, true, 2)
  {
    var was, now := FirstBundle().keys, SecondBundle().keys;
    assert now.records[0] in now.records && Lists(now, "k");
  }

  lemma SecondIsSound(root: Root)
    requires root.rootKeyId == "root" && root.floor == RollbackFloor(0, 0, None)
    requires root.signed(SecondBundle()) && root.wellFormed(SecondBundle())
    ensures BundleSound(root, SecondBundle())
  {
    CodesOrdered();
    var b := SecondBundle();
    assert b.keys.tombstones[0] in b.keys.tombstones;
    assert Buried(b.keys.records[0], b.keys);
    assert b.revokedKeyFingerprints[0] == "f";
  }

  lemma FirstHolds()
    ensures PriorHolds(StateOf(FirstBundle()))
  {}

  lemma SecondAdvances(root: Root)
    requires root.edgesFollow(SecondBundle(), StateOf(FirstBundle()))
    ensures Advances(root, SecondBundle(), StateOf(FirstBundle()))
  {
    SecondFollows();
  }

  lemma SecondIsAcceptable(root: Root)
    requires root.rootKeyId == "root" && root.floor == RollbackFloor(0, 0, None)
    requires root.signed(SecondBundle()) && root.wellFormed(SecondBundle()) && root.edgesFollow(SecondBundle(), StateOf(FirstBundle()))
    ensures Acceptable(root, SecondBundle(), Some(StateOf(FirstBundle())))
  {
    SecondIsSound(root);
    FirstHolds();
    SecondAdvances(root);
  }

  lemma AcceptableWindow(root: Root, b: Bundle, now: int, prior: Option<DurableState>, issuedAt: int, expiresAt: int)
    requires Acceptable(root, b, prior) && b.issuedAt == issuedAt && b.expiresAt == expiresAt
    ensures VerifyBundle(root, b, now, prior).Ok? <==> issuedAt - 30 <= now < expiresAt
  {
    VerifyBundleIff(root, b, now, prior);
  }

  /** From second 170 to second 1099, and at no other time, the second bundle is accepted over the state of the first. */
  lemma NewerIsAccepted(root: Root, now: int)
    requires root.rootKeyId == "root" && root.floor == RollbackFloor(0, 0, None)
    requires root.signed(SecondBundle()) && root.wellFormed(SecondBundle()) && root.edgesFollow(SecondBundle(), StateOf(FirstBundle()))
    ensures VerifyBundle(root, SecondBundle(), now, Some(StateOf(FirstBundle()))).Ok? <==> 170 <= now < 1_100
  {
    SecondIsAcceptable(root);
    AcceptableWindow(root, SecondBundle(), now, Some(StateOf(FirstBundle())), 200, 1_100);
  }
}
