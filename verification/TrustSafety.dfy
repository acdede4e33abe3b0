/** What holds over whole runs of the trust protocol, in every interleaving. */
module TrustSafety {
  import opened Foundations
  import opened TrustBundle
  import opened TrustProtocol
  import opened Runs

  // ---- what every step leaves in place ----

  ghost predicate KeepsPermits(before: map<nat, Permit>, after: map<nat, Permit>) {
    forall p :: p in before ==> p in after && after[p] == before[p]
  }

  ghost predicate KeepsUses(before: map<nat, Use>, after: map<nat, Use>) {
    forall u :: u in before ==> u in after && KeepsUse(before[u], after[u])
  }

  predicate KeepsUse(before: Use, after: Use) {
    && after.permit == before.permit
    && (before.phase.Refused? ==> after.phase.Refused?)
  }

  /** Later worlds extend history and registries: nothing is forgotten, no consumption undone, no refusal lifted. */
  ghost predicate Extends(w: World, x: World) {
    && w.history <= x.history
    && x.controllers == w.controllers
    && KeepsPermits(w.permits, x.permits)
    && w.consumed <= x.consumed
    && KeepsUses(w.uses, x.uses)
  }

  lemma ExtendsTransitive(w: World, x: World, y: World)
    requires Extends(w, x) && Extends(x, y)
    ensures Extends(w, y)
  {}

  /** A step of a call leaves consumption and uses alone. */
  lemma CallChangeExtends(w: World, x: World)
    requires w.history <= x.history && x.controllers == w.controllers
    requires x.consumed == w.consumed && x.uses == w.uses && KeepsPermits(w.permits, x.permits)
    ensures Extends(w, x)
  {}

  lemma StartExtends(w: World, call: nat, controller: nat, bundle: Bundle, purpose: Purpose)
    ensures Extends(w, StartStep(w, call, controller, bundle, purpose))
  {
    CallChangeExtends(w, StartStep(w, call, controller, bundle, purpose));
  }

  lemma LoadAndVerifyExtends(w: World, call: nat, now: int)
    ensures Extends(w, LoadAndVerifyStep(w, call, now))
  {
    CallChangeExtends(w, LoadAndVerifyStep(w, call, now));
  }

  lemma ApplyExtends(w: World, input: CasInput)
    ensures Extends(w, ApplyStep(w, input))
  {
    CallChangeExtends(w, ApplyStep(w, input));
  }

  lemma ReplyExtends(w: World, call: nat, receipt: Option<CasReceipt>)
    ensures Extends(w, ReplyStep(w, call, receipt))
  {
    CallChangeExtends(w, ReplyStep(w, call, receipt));
  }

  lemma ReloadExtends(w: World, call: nat)
    ensures Extends(w, ReloadStep(w, call))
  {
    CallChangeExtends(w, ReloadStep(w, call));
  }

  lemma AbortExtends(w: World, call: nat)
    ensures Extends(w, AbortStep(w, call))
  {
    CallChangeExtends(w, AbortStep(w, call));
  }

  lemma ConfirmingHasNoPermit(w: World, call: nat)
    requires Inv(w) && call in w.calls && w.calls[call].phase.Confirming?
    ensures call !in w.permits
  {
    assert call in w.commitments ==> CommitmentInv(w.calls, call, w.commitments[call]);
  }

  lemma RegisteredFrame(w: World, call: nat, tuple: Option<string>)
    requires call in w.calls && w.calls[call].phase.Confirming?
    ensures
      var x := Registered(w, call, tuple);
      && x.history == w.history && x.controllers == w.controllers && x.consumed == w.consumed && x.uses == w.uses
      && (x.permits == w.permits || (call in x.permits && x.permits == w.permits[call := x.permits[call]]))
  {}

  lemma ConfirmFrame(w: World, call: nat, tuple: Option<string>)
    ensures
      var x := ConfirmStep(w, call, tuple);
      && x.history == w.history && x.controllers == w.controllers && x.consumed == w.consumed && x.uses == w.uses
      && (x.permits == w.permits ||
          (call in w.calls && w.calls[call].phase.Confirming? && call in x.permits
           && x.permits == w.permits[call := x.permits[call]]))
  {
    if call in w.calls && w.calls[call].phase.Confirming? {
      RegisteredFrame(w, call, tuple);
    }
  }

  lemma ConfirmExtends(w: World, call: nat, tuple: Option<string>)
    requires Inv(w)
    ensures Extends(w, ConfirmStep(w, call, tuple))
  {
    ConfirmFrame(w, call, tuple);
    if call in w.calls && w.calls[call].phase.Confirming? {
      ConfirmingHasNoPermit(w, call);
    }
    CallChangeExtends(w, ConfirmStep(w, call, tuple));
  }

  /** A step of a use changes that use alone, and leaves history and permits. */
  lemma UseChangeExtends(w: World, x: World, use: nat)
    requires x.history == w.history && x.controllers == w.controllers && x.permits == w.permits
    requires w.consumed <= x.consumed
    requires x.uses == w.uses || (use in x.uses && x.uses == w.uses[use := x.uses[use]])
    requires use in w.uses && use in x.uses ==> KeepsUse(w.uses[use], x.uses[use])
    ensures Extends(w, x)
  {}

  lemma UseStartExtends(w: World, use: nat, controller: nat, permit: nat)
    ensures Extends(w, UseStartStep(w, use, controller, permit))
  {
    UseChangeExtends(w, UseStartStep(w, use, controller, permit), use);
  }

  lemma UseEnterExtends(w: World, use: nat)
    ensures Extends(w, UseEnterStep(w, use))
  {
    UseChangeExtends(w, UseEnterStep(w, use), use);
  }

  lemma UseLoadExtends(w: World, use: nat)
    ensures Extends(w, UseLoadStep(w, use))
  {
    UseChangeExtends(w, UseLoadStep(w, use), use);
  }

  lemma UseEndExtends(w: World, use: nat, threw: bool)
    ensures Extends(w, UseEndStep(w, use, threw))
  {
    UseChangeExtends(w, UseEndStep(w, use, threw), use);
  }

  lemma UseAbortExtends(w: World, use: nat)
    ensures Extends(w, UseAbortStep(w, use))
  {
    UseChangeExtends(w, UseAbortStep(w, use), use);
  }

  lemma StepExtends(w: World, e: Event)
    requires Inv(w)
    ensures Extends(w, Step(w, e))
  {
    match e
    case Start(call, controller, bundle, purpose) => StartExtends(w, call, controller, bundle, purpose);
    case LoadAndVerify(call, now) => LoadAndVerifyExtends(w, call, now);
    case Apply(input) => ApplyExtends(w, input);
    case Reply(call, receipt) => ReplyExtends(w, call, receipt);
    case Reload(call) => ReloadExtends(w, call);
    case Confirm(call, tuple) => ConfirmExtends(w, call, tuple);
    case Abort(call) => AbortExtends(w, call);
    case UseStart(use, controller, permit) => UseStartExtends(w, use, controller, permit);
    case UseEnter(use) => UseEnterExtends(w, use);
    case UseLoad(use) => UseLoadExtends(w, use);
    case UseEnd(use, threw) => UseEndExtends(w, use, threw);
    case UseAbort(use) => UseAbortExtends(w, use);
  }

  lemma {:induction false} RunExtends(w: World, events: seq<Event>)
    requires Inv(w)
    ensures Extends(w, Run(w, events)) && Inv(Run(w, events))
    decreases |events|
  {
    if events == [] {
    } else {
      var x := Step(w, events[0]);
      StepKeepsInv(w, events[0]);
      StepExtends(w, events[0]);
      RunExtends(x, events[1..]);
      ExtendsTransitive(w, x, Run(x, events[1..]));
    }
  }

  // ---- durable state ----

  /**
   In every run from an initial store, each durable state is a verified successor of exactly the state it
   replaced, and the current content is the last of them.
   */
  lemma EveryChangeIsVerified(w: World, events: seq<Event>)
    requires Initial(w)
    ensures
      var x := Run(w, events);
      && |x.history| > 0 && x.history[0] == w.store.state && x.history[|x.history| - 1] == x.store.state
      && forall i :: 0 < i < |x.history| ==>
           x.history[i].Some? && VerifiedSuccessor(w.controllers, x.history[i - 1], x.history[i].value)
  {
    InitialHolds(w);
    RunExtends(w, events);
    HistoryIsVerified(Run(w, events));
  }

  lemma HistoryIsVerified(x: World)
    requires Inv(x)
    ensures |x.history| > 0 && x.history[|x.history| - 1] == x.store.state
    ensures forall i :: 0 < i < |x.history| ==>
              x.history[i].Some? && VerifiedSuccessor(x.controllers, x.history[i - 1], x.history[i].value)
  {
    forall i | 0 < i < |x.history|
      ensures x.history[i].Some? && VerifiedSuccessor(x.controllers, x.history[i - 1], x.history[i].value)
    {
      assert Link(x.controllers, x.history[i - 1], x.history[i]);
    }
  }

  ghost predicate Ascending(history: seq<Option<DurableState>>) {
    forall i :: 0 < i < |history| ==>
      history[i].Some? && (history[i - 1].Some? ==> Supersedes(history[i - 1].value, history[i].value))
  }

  lemma InvAscending(w: World)
    requires Inv(w)
    ensures Ascending(w.history)
  {
    forall i | 0 < i < |w.history|
      ensures w.history[i].Some? && (w.history[i - 1].Some? ==> Supersedes(w.history[i - 1].value, w.history[i].value))
    {
      assert Link(w.controllers, w.history[i - 1], w.history[i]);
    }
  }

  lemma {:induction false} AscendingSupersedes(history: seq<Option<DurableState>>, i: nat, j: nat)
    requires Ascending(history) && i < j < |history| && history[i].Some?
    ensures history[j].Some? && Supersedes(history[i].value, history[j].value)
    decreases j
  {
    if i + 1 < j {
      AscendingSupersedes(history, i, j - 1);
      SupersedesTransitive(history[i].value, history[j - 1].value, history[j].value);
    }
  }

  /** Along history generations strictly rise, epochs never fall, and ledgers and revocations only accumulate. */
  lemma LaterSupersedes(w: World, i: nat, j: nat)
    requires Inv(w) && i < j < |w.history| && w.history[i].Some?
    ensures w.history[j].Some? && Supersedes(w.history[i].value, w.history[j].value)
  {
    InvAscending(w);
    AscendingSupersedes(w.history, i, j);
  }

  /** Over any run from an initial store: a later durable state has a higher generation and no lower epoch. */
  lemma GenerationsRise(w: World, events: seq<Event>, i: nat, j: nat)
    requires Initial(w)
    requires i < j < |Run(w, events).history| && Run(w, events).history[i].Some?
    ensures
      var h := Run(w, events).history;
      && h[j].Some?
      && h[i].value.generation < h[j].value.generation
      && h[i].value.revocationEpoch <= h[j].value.revocationEpoch
  {
    InitialHolds(w);
    RunKeepsInv(w, events);
    LaterSupersedes(Run(w, events), i, j);
  }

  /** The store never holds the same content twice: once it leaves a state it does not come back. */
  lemma NeverReturns(w: World, i: nat, j: nat)
    requires Inv(w) && i < j < |w.history|
    ensures w.history[i] != w.history[j]
  {
    InvAscending(w);
    if w.history[i].Some? {
      AscendingSupersedes(w.history, i, j);
    }
  }

  /** A fingerprint revoked in some durable state belongs to no key of any later one, in any run. */
  lemma RevocationIsPermanent(w: World, events: seq<Event>, i: nat, fingerprint: string)
    requires Inv(w) && i < |w.history| && w.history[i].Some?
    requires fingerprint in w.history[i].value.revokedKeyFingerprints
    ensures
      var later := Run(w, events).store.state;
      later.Some? && (later != w.history[i] ==> forall r :: r in later.value.keys.records ==> r.binding != fingerprint)
  {
    RunExtends(w, events);
    var x := Run(w, events);
    RevokedInHistory(x, i, fingerprint);
  }

  lemma RevokedInHistory(x: World, i: nat, fingerprint: string)
    requires Inv(x) && i < |x.history| && x.history[i].Some?
    requires fingerprint in x.history[i].value.revokedKeyFingerprints
    ensures x.store.state.Some?
    ensures x.store.state != x.history[i] ==> forall r :: r in x.store.state.value.keys.records ==> r.binding != fingerprint
  {
    if i < |x.history| - 1 {
      LaterSupersedes(x, i, |x.history| - 1);
    }
  }

  lemma ChainLink(controllers: map<nat, Root>, history: seq<Option<DurableState>>, j: nat)
    requires Chain(controllers, history) && 0 < j < |history|
    ensures Link(controllers, history[j - 1], history[j])
  {}

  /** A state that replaced an earlier one is consistent: it was accepted over a prior state. */
  lemma LinkIsConsistent(controllers: map<nat, Root>, prior: Option<DurableState>, next: Option<DurableState>)
    requires prior.Some? && Link(controllers, prior, next)
    ensures next.Some? && LedgerConsistent(next.value.keys) && LedgerConsistent(next.value.releases)
  {
    SuccessorIsConsistent(controllers, prior.value, next.value);
  }

  lemma StillHeld(w: World, i: nat, j: nat)
    requires Inv(w) && i <= j < |w.history| && w.history[i].Some?
    ensures w.history[j].Some?
  {
    if i < j {
      LaterSupersedes(w, i, j);
    }
  }

  lemma LaterIsConsistent(controllers: map<nat, Root>, history: seq<Option<DurableState>>, j: nat)
    requires Chain(controllers, history) && 0 < j < |history| && history[j - 1].Some?
    ensures history[j].Some? && LedgerConsistent(history[j].value.keys) && LedgerConsistent(history[j].value.releases)
  {
    ChainLink(controllers, history, j);
    LinkIsConsistent(controllers, history[j - 1], history[j]);
  }

  lemma SuccessorIsConsistent(controllers: map<nat, Root>, prior: DurableState, next: DurableState)
    requires VerifiedSuccessor(controllers, Some(prior), next) && prior.generation < next.generation
    ensures DurableConsistent(next)
  {
    var c, b, now :| c in controllers && VerifyBundle(controllers[c], b, now, Some(prior)) == Ok(next);
    NextStateIsBundle(controllers[c], b, now, Some(prior));
    AcceptedOverPriorIsConsistent(controllers[c], b, now, prior);
  }

  /** An id keeps its binding from one ledger to a later one, and an id tombstoned in the first names no record of the second. */
  ghost predicate KeepsIdentities(before: Ledger, after: Ledger) {
    && (forall a, c :: a in before.records && c in after.records && a.id == c.id ==> a.binding == c.binding)
    && (forall t, c :: t in before.tombstones && c in after.records ==> t.id != c.id)
  }

  lemma ContinuesKeepsIdentities(before: Ledger, after: Ledger)
    requires Continues(before, after) && LedgerConsistent(after)
    ensures KeepsIdentities(before, after)
  {
    forall a, c | a in before.records && c in after.records && a.id == c.id ensures a.binding == c.binding {
      KeptRecordBinding(a, c, after);
    }
  }

  lemma SupersedesKeepsIdentities(before: DurableState, after: DurableState)
    requires Supersedes(before, after) && LedgerConsistent(after.keys) && LedgerConsistent(after.releases)
    ensures KeepsIdentities(before.keys, after.keys) && KeepsIdentities(before.releases, after.releases)
  {
    ContinuesKeepsIdentities(before.keys, after.keys);
    ContinuesKeepsIdentities(before.releases, after.releases);
  }

  /**
   From any durable state to any later one a key id keeps its public key, a release id its definition, and a
   tombstoned id of either kind never names a record again.
   */
  lemma IdentityIsPermanent(w: World, i: nat, j: nat)
    requires Inv(w) && i < j < |w.history| && w.history[i].Some?
    ensures w.history[j].Some?
    ensures KeepsIdentities(w.history[i].value.keys, w.history[j].value.keys)
    ensures KeepsIdentities(w.history[i].value.releases, w.history[j].value.releases)
  {
    StillHeld(w, i, j - 1);
    LaterIsConsistent(w.controllers, w.history, j);
    LaterSupersedes(w, i, j);
    SupersedesKeepsIdentities(w.history[i].value, w.history[j].value);
  }

  /** The same over every run from an initial store. */
  lemma IdentityIsPermanentOverRuns(w: World, events: seq<Event>, i: nat, j: nat)
    requires Initial(w)
    requires i < j < |Run(w, events).history| && Run(w, events).history[i].Some?
    ensures
      var h := Run(w, events).history;
      && h[j].Some?
      && KeepsIdentities(h[i].value.keys, h[j].value.keys)
      && KeepsIdentities(h[i].value.releases, h[j].value.releases)
  {
    InitialHolds(w);
    RunKeepsInv(w, events);
    IdentityIsPermanent(Run(w, events), i, j);
  }

  lemma KeptRecordBinding(a: Record, c: Record, next: Ledger)
    requires LedgerConsistent(next) && KeepsRecord(a, next) && c in next.records && c.id == a.id
    ensures c.binding == a.binding
  {
    RecordIsFirst(next.records, c);
    if q :| q in next.records && q.id == a.id && q.binding == a.binding {
      RecordIsFirst(next.records, q);
    }
  }

  /** A compare-and-swap request, however often it is delivered, changes the store at most once. */
  lemma RequestAppliesOnce(w: World, input: CasInput, events: seq<Event>)
    requires Inv(w) && ApplyStep(w, input) != w
    ensures
      var later := Run(ApplyStep(w, input), events);
      ApplyStep(later, input) == later
  {
    var x := ApplyStep(w, input);
    ApplyKeepsInv(w, input);
    RunExtends(x, events);
    ApplyIneffective(x, Run(x, events), input);
  }

  lemma ApplyIneffective(x: World, later: World, input: CasInput)
    requires Inv(later) && x.history <= later.history
    requires |x.history| > 0 && x.history[|x.history| - 1] == Some(input.nextState)
    ensures ApplyStep(later, input) == later
  {
    var again := ApplyStep(later, input);
    if again.history != later.history {
      ApplyKeepsInv(later, input);
      assert again.history[|x.history| - 1] == Some(input.nextState) == again.history[|again.history| - 1];
      NeverReturns(again, |x.history| - 1, |again.history| - 1);
    }
  }

  // ---- success ----

  /**
   A registered commitment names a state that was the durable state at some moment since its call began,
   whatever the replies were; a permit carries such a commitment.
   */
  lemma CommitmentWasDurable(w: World, call: nat)
    requires Inv(w) && call in w.commitments
    ensures call in w.calls && w.calls[call].phase.Succeeded?
    ensures w.commitments[call].stateSha256 == StateSha256(StateOf(w.calls[call].bundle))
    ensures InHistory(w.history, w.calls[call].startedAt, w.commitments[call].stateSha256.content)
    ensures call in w.permits ==> w.permits[call].commitment == w.commitments[call]
  {
    assert CommitmentInv(w.calls, call, w.commitments[call]);
    assert CallInv(w.controllers, w.history, w.calls[call]);
  }

  /** The registries after any run: every commitment and every permit names a state the store held. */
  lemma RegistriesNameDurableStates(w: World, events: seq<Event>)
    requires Initial(w)
    ensures
      var x := Run(w, events);
      && (forall c :: c in x.commitments ==> InHistory(x.history, 0, x.commitments[c].stateSha256.content))
      && (forall p :: p in x.permits ==> InHistory(x.history, 0, x.permits[p].commitment.stateSha256.content))
  {
    InitialHolds(w);
    RunExtends(w, events);
    var x := Run(w, events);
    forall c | c in x.commitments ensures InHistory(x.history, 0, x.commitments[c].stateSha256.content) {
      CommitmentWasDurable(x, c);
    }
    forall p | p in x.permits ensures InHistory(x.history, 0, x.permits[p].commitment.stateSha256.content) {
      CommitmentWasDurable(x, p);
    }
  }

  lemma ReplyMovesOn(w: World, call: nat, receipt: Option<CasReceipt>)
    requires Inv(w) && call in w.calls && w.calls[call].phase.AwaitingReply?
    requires w.store.state == Some(w.calls[call].phase.verified.nextState)
    ensures
      var x := ReloadStep(ReplyStep(w, call, receipt), call);
      x == w.(calls := w.calls[call := w.calls[call].(phase := Confirming(w.calls[call].phase.verified))])
  {
    var x := ReloadStep(ReplyStep(w, call, receipt), call);
    assert x.calls == w.calls[call := x.calls[call]];
  }

  /** At the last load a call succeeds exactly when its state is the durable state (and its tuple is granted). */
  lemma ConfirmSucceedsIff(w: World, call: nat, tuple: Option<string>)
    requires Inv(w) && call in w.calls && w.calls[call].phase.Confirming?
    ensures ConfirmStep(w, call, tuple).calls[call].phase ==
            if w.store.state != Some(w.calls[call].phase.verified.nextState) then Failed(NotCommittedExactly)
            else if w.calls[call].purpose.IssuePermit? && tuple.None? then Failed(TupleRefused)
            else Succeeded(w.calls[call].phase.verified)
  {
    assert CallInv(w.controllers, w.history, w.calls[call]);
  }

  /**
   Once the write of a waiting call is the durable state, the call succeeds whatever reply it gets, none included,
   provided no other write comes before its last load.
   */
  lemma LostReplyStillSucceeds(w: World, call: nat, receipt: Option<CasReceipt>, tuple: Option<string>)
    requires Inv(w) && call in w.calls && w.calls[call].phase.AwaitingReply?
    requires w.store.state == Some(w.calls[call].phase.verified.nextState)
    requires w.calls[call].purpose.IssuePermit? ==> tuple.Some?
    ensures
      var x := Run(w, [Reply(call, receipt), Reload(call), Confirm(call, tuple)]);
      call in x.calls && x.calls[call].phase == Succeeded(w.calls[call].phase.verified)
  {
    FoldThree(Step, w, Reply(call, receipt), Reload(call), Confirm(call, tuple));
    ReplyMovesOn(w, call, receipt);
    ReplyKeepsInv(w, call, receipt);
    var a := ReplyStep(w, call, receipt);
    ReloadKeepsInv(a, call);
    ConfirmSucceedsIff(ReloadStep(a, call), call, tuple);
  }

  // ---- permits ----

  predicate Ran(w: World, use: nat) {
    use in w.uses && (w.uses[use].phase == Operating || w.uses[use].phase.Finished?)
  }

  /** While a permit's operation runs, the durable state is the one the permit was issued for. */
  lemma OperationSeesItsState(w: World, use: nat)
    requires Inv(w) && use in w.uses && w.uses[use].phase == Operating
    ensures w.uses[use].permit in w.permits
    ensures w.store.state == Some(w.permits[w.uses[use].permit].commitment.stateSha256.content)
  {
    assert UseInv(w.store.stateSha256, w.permits, w.consumed, use in w.fence, w.uses[use]);
  }

  /** The store has moved past the permit's state. */
  ghost predicate Stale(w: World, permit: nat) {
    permit in w.permits && w.store.state != Some(w.permits[permit].commitment.stateSha256.content)
  }

  lemma StaleIsPast(w: World, permit: nat) returns (k: nat)
    requires Inv(w) && Stale(w, permit)
    ensures k < |w.history| - 1 && w.history[k] == Some(w.permits[permit].commitment.stateSha256.content)
  {
    CommitmentWasDurable(w, permit);
    k := HeldBefore(w.history, w.calls[permit].startedAt, w.permits[permit].commitment.stateSha256.content);
  }

  lemma HeldBefore(history: seq<Option<DurableState>>, from: nat, s: DurableState) returns (k: nat)
    requires InHistory(history, from, s) && history[|history| - 1] != Some(s)
    ensures k < |history| - 1 && history[k] == Some(s)
  {
    k :| from <= k < |history| && history[k] == Some(s);
  }

  lemma PastIsStale(x: World, permit: nat, k: nat)
    requires Inv(x) && permit in x.permits && k < |x.history| - 1
    requires x.history[k] == Some(x.permits[permit].commitment.stateSha256.content)
    ensures Stale(x, permit)
    ensures forall u :: u in x.uses && x.uses[u].permit == permit ==> x.uses[u].phase != Operating
  {
    NeverReturns(x, k, |x.history| - 1);
    forall u | u in x.uses && x.uses[u].permit == permit ensures x.uses[u].phase != Operating {
      assert UseInv(x.store.stateSha256, x.permits, x.consumed, u in x.fence, x.uses[u]);
    }
  }

  lemma StaleLater(w: World, x: World, permit: nat)
    requires Inv(w) && Inv(x) && Extends(w, x) && Stale(w, permit)
    ensures Stale(x, permit)
    ensures forall u :: u in x.uses && x.uses[u].permit == permit ==> x.uses[u].phase != Operating
  {
    var k := StaleIsPast(w, permit);
    PermitKept(w, x, permit, k);
    PastIsStale(x, permit, k);
  }

  lemma PermitKept(w: World, x: World, permit: nat, k: nat)
    requires Extends(w, x) && permit in w.permits && k < |w.history|
    ensures permit in x.permits && x.permits[permit] == w.permits[permit]
    ensures |w.history| <= |x.history| && x.history[k] == w.history[k]
  {}

  /** A stale permit stays stale in every continuation, and no operation of it runs again. */
  lemma StalePermitNeverRevived(w: World, permit: nat, events: seq<Event>)
    requires Inv(w) && Stale(w, permit)
    ensures
      var x := Run(w, events);
      Stale(x, permit) && forall u :: u in x.uses && x.uses[u].permit == permit ==> x.uses[u].phase != Operating
  {
    RunExtends(w, events);
    StaleLater(w, Run(w, events), permit);
  }

  lemma CallStepsKeepUses(w: World, e: Event)
    requires e.Start? || e.LoadAndVerify? || e.Apply? || e.Reply? || e.Reload? || e.Confirm? || e.Abort?
    ensures Step(w, e).uses == w.uses
  {
    if e.Confirm? {
      ConfirmFrame(w, e.call, e.tuple);
    }
  }

  lemma OnlyStartsAddUses(w: World, e: Event)
    requires !e.UseStart?
    ensures Step(w, e).uses.Keys == w.uses.Keys
  {
    if e.Start? || e.LoadAndVerify? || e.Apply? || e.Reply? || e.Reload? || e.Confirm? || e.Abort? {
      CallStepsKeepUses(w, e);
    }
  }

  /** Which uses a step can add: only one, and accepted only with a current permit. */
  lemma NewUse(w: World, e: Event, use: nat)
    requires use !in w.uses && use in Step(w, e).uses
    ensures e == UseStart(use, Step(w, e).uses[use].controller, Step(w, e).uses[use].permit)
    ensures Step(w, e).uses[use].phase ==
            if PermitIsCurrent(w, Step(w, e).uses[use].controller, Step(w, e).uses[use].permit) then Asserted else Refused
  {
    if !e.UseStart? {
      OnlyStartsAddUses(w, e);
    }
  }

  lemma NewUseOfConsumed(w: World, e: Event, use: nat)
    requires use !in w.uses && use in Step(w, e).uses && Step(w, e).uses[use].permit in w.consumed
    ensures Step(w, e).uses[use].phase == Refused
  {
    NewUse(w, e, use);
  }

  lemma RefusalKept(w: World, x: World, use: nat)
    requires Extends(w, x) && use in w.uses
    ensures use in x.uses && KeepsUse(w.uses[use], x.uses[use])
  {}

  lemma ConsumptionKept(w: World, x: World, permit: nat)
    requires Extends(w, x) && permit in w.consumed
    ensures permit in x.consumed
  {}

  /** Once consumed a permit is refused by every later check, whatever became of its operation. */
  lemma {:induction false} ConsumedPermitServesNoNewUse(w: World, permit: nat, events: seq<Event>, use: nat)
    requires Inv(w) && permit in w.consumed && use !in w.uses
    ensures
      var x := Run(w, events);
      use in x.uses && x.uses[use].permit == permit ==> x.uses[use].phase == Refused
    decreases |events|
  {
    if events == [] {
    } else {
      var y := Step(w, events[0]);
      StepKeepsInv(w, events[0]);
      if use in y.uses {
        RunExtends(y, events[1..]);
        RefusalKept(y, Run(y, events[1..]), use);
        if y.uses[use].permit == permit {
          NewUseOfConsumed(w, events[0], use);
        }
      } else {
        StepExtends(w, events[0]);
        ConsumptionKept(w, y, permit);
        ConsumedPermitServesNoNewUse(y, permit, events[1..], use);
      }
    }
  }

  // ---- single use ----

  predicate Pending(w: World, use: nat) {
    use in w.uses && (w.uses[use].phase == Asserted || w.uses[use].phase == Inside)
  }

  lemma RefusedNeverRuns(w: World, use: nat, events: seq<Event>)
    requires Inv(w) && use in w.uses && w.uses[use].phase == Refused
    ensures !Ran(Run(w, events), use)
  {
    RunExtends(w, events);
  }

  /** A use can only have finished by having operated. */
  lemma FinishesFromOperating(w: World, e: Event, use: nat)
    requires use in w.uses && !Ran(w, use) && Ran(Step(w, e), use)
    ensures Step(w, e).uses[use].phase == Operating
  {
    match e
    case UseStart(_, _, _) =>
    case UseEnter(_) =>
    case UseLoad(_) =>
    case UseEnd(_, _) =>
    case UseAbort(_) =>
    case _ => CallsLeaveUses(w, e);
  }

  lemma CallsLeaveUses(w: World, e: Event)
    requires !(e.UseStart? || e.UseEnter? || e.UseLoad? || e.UseEnd? || e.UseAbort?)
    ensures Step(w, e).uses == w.uses
  {
    match e
    case LoadAndVerify(call, now) => assert LoadAndVerifyStep(w, call, now).uses == w.uses;
    case Confirm(call, tuple) => assert ConfirmStep(w, call, tuple).uses == w.uses;
    case _ =>
  }

  lemma {:induction false} StaleNeverRuns(w: World, use: nat, events: seq<Event>)
    requires Inv(w) && use in w.uses && Stale(w, w.uses[use].permit) && !Ran(w, use)
    ensures !Ran(Run(w, events), use)
    decreases |events|
  {
    if events == [] {
    } else {
      var y := Step(w, events[0]);
      StepKeepsInv(w, events[0]);
      StepExtends(w, events[0]);
      StaleLater(w, y, w.uses[use].permit);
      if Ran(y, use) {
        FinishesFromOperating(w, events[0], use);
      }
      StaleNeverRuns(y, use, events[1..]);
    }
  }

  function ServeBoth(u1: nat, u2: nat): seq<Event> {
    [UseEnter(u1), UseLoad(u1), UseEnd(u1, false), UseEnter(u2), UseLoad(u2)]
  }

  /** Only this use differs, and it is in this phase; the store and the permits are the same. */
  ghost predicate OnlyUseMoved(w: World, x: World, use: nat, phase: UsePhase) {
    && use in w.uses
    && x.store == w.store && x.permits == w.permits
    && x.uses == w.uses[use := w.uses[use].(phase := phase)]
  }

  lemma EnterMoves(w: World, use: nat)
    requires Pending(w, use)
    ensures OnlyUseMoved(w, UseEnterStep(w, use), use, Inside)
  {}

  lemma LoadMoves(w: World, use: nat)
    requires use in w.uses && w.uses[use].phase == Inside && w.uses[use].permit in w.permits
    requires Holds(w.store, w.permits[w.uses[use].permit].commitment.stateSha256)
    ensures OnlyUseMoved(w, UseLoadStep(w, use), use, Operating)
  {}

  lemma EndMoves(w: World, use: nat, threw: bool)
    requires use in w.uses && w.uses[use].phase == Operating
    ensures OnlyUseMoved(w, UseEndStep(w, use, threw), use, Finished(threw))
  {}

  lemma MovedTwice(w: World, x: World, y: World, use: nat, first: UsePhase, second: UsePhase)
    requires OnlyUseMoved(w, x, use, first) && OnlyUseMoved(x, y, use, second)
    ensures OnlyUseMoved(w, y, use, second)
  {}

  lemma PendingHasPermit(w: World, use: nat)
    requires Inv(w) && Pending(w, use)
    ensures w.uses[use].permit in w.permits
    ensures !Stale(w, w.uses[use].permit) ==> Holds(w.store, w.permits[w.uses[use].permit].commitment.stateSha256)
  {
    assert UseInv(w.store.stateSha256, w.permits, w.consumed, use in w.fence, w.uses[use]);
  }

  /** A pending use whose permit is not stale is served by entering the fence and loading. */
  lemma PendingIsServed(w: World, use: nat)
    requires Inv(w) && Pending(w, use) && !Stale(w, w.uses[use].permit)
    ensures OnlyUseMoved(w, UseLoadStep(UseEnterStep(w, use), use), use, Operating)
  {
    PendingHasPermit(w, use);
    EnterMoves(w, use);
    LoadMoves(UseEnterStep(w, use), use);
    MovedTwice(w, UseEnterStep(w, use), UseLoadStep(UseEnterStep(w, use), use), use, Inside, Operating);
  }

  lemma ServingKeepsInv(w: World, use: nat)
    requires Inv(w)
    ensures Inv(UseEndStep(UseLoadStep(UseEnterStep(w, use), use), use, false))
  {
    UseEnterKeepsInv(w, use);
    UseLoadKeepsInv(UseEnterStep(w, use), use);
    UseEndKeepsInv(UseLoadStep(UseEnterStep(w, use), use), use, false);
  }

  /** Serving one pending use to its end leaves the store, the permits and every other use as they were. */
  lemma ServedToItsEnd(w: World, use: nat)
    requires Inv(w) && Pending(w, use) && !Stale(w, w.uses[use].permit)
    ensures OnlyUseMoved(w, UseEndStep(UseLoadStep(UseEnterStep(w, use), use), use, false), use, Finished(false))
  {
    var x := UseLoadStep(UseEnterStep(w, use), use);
    PendingIsServed(w, use);
    EndMoves(x, use, false);
    MovedTwice(w, x, UseEndStep(x, use, false), use, Operating, Finished(false));
  }

  lemma SecondIsServed(x: World, u1: nat, u2: nat)
    requires Inv(x) && u1 != u2 && u1 in x.uses && Ran(x, u1)
    requires Pending(x, u2) && !Stale(x, x.uses[u2].permit)
    ensures Ran(UseLoadStep(UseEnterStep(x, u2), u2), u1) && Ran(UseLoadStep(UseEnterStep(x, u2), u2), u2)
  {
    PendingIsServed(x, u2);
  }

  /** Two uses that both passed the check before either was served run one after the other. */
  lemma OverlappingUsesBothRun(w: World, u1: nat, u2: nat)
    requires Inv(w) && u1 != u2 && Pending(w, u1) && Pending(w, u2)
    requires w.uses[u1].permit == w.uses[u2].permit && !Stale(w, w.uses[u1].permit)
    ensures Ran(Run(w, ServeBoth(u1, u2)), u1) && Ran(Run(w, ServeBoth(u1, u2)), u2)
  {
    BothServed(w, u1, u2);
    ServeBothIs(w, u1, u2);
  }

  lemma BothServed(w: World, u1: nat, u2: nat)
    requires Inv(w) && u1 != u2 && Pending(w, u1) && Pending(w, u2)
    requires w.uses[u1].permit == w.uses[u2].permit && !Stale(w, w.uses[u1].permit)
    ensures
      var y := UseEndStep(UseLoadStep(UseEnterStep(w, u1), u1), u1, false);
      var z := UseLoadStep(UseEnterStep(y, u2), u2);
      Ran(z, u1) && Ran(z, u2)
  {
    ServedToItsEnd(w, u1);
    ServingKeepsInv(w, u1);
    SecondIsServed(UseEndStep(UseLoadStep(UseEnterStep(w, u1), u1), u1, false), u1, u2);
  }

  lemma ServeBothIs(w: World, u1: nat, u2: nat)
    ensures Run(w, ServeBoth(u1, u2)) ==
            UseLoadStep(UseEnterStep(UseEndStep(UseLoadStep(UseEnterStep(w, u1), u1), u1, false), u2), u2)
  {
    FoldFive(Step, w, UseEnter(u1), UseLoad(u1), UseEnd(u1, false), UseEnter(u2), UseLoad(u2));
  }

  /**
   Exactly when two not-yet-served uses of one permit can both still run: both have passed the permit check and
   the store still holds the permit's state. So a permit is single-use only for callers that do not overlap its uses.
   */
  lemma BothCanRunIff(w: World, u1: nat, u2: nat)
    requires Inv(w) && u1 != u2 && u1 in w.uses && u2 in w.uses
    requires w.uses[u1].permit == w.uses[u2].permit && w.uses[u1].permit in w.permits
    requires !Ran(w, u1) && !Ran(w, u2)
    ensures (exists events :: Ran(Run(w, events), u1) && Ran(Run(w, events), u2)) <==>
            Pending(w, u1) && Pending(w, u2) && !Stale(w, w.uses[u1].permit)
  {
    if Pending(w, u1) && Pending(w, u2) && !Stale(w, w.uses[u1].permit) {
      OverlappingUsesBothRun(w, u1, u2);
    } else {
      forall events ensures !(Ran(Run(w, events), u1) && Ran(Run(w, events), u2)) {
        if Stale(w, w.uses[u1].permit) {
          StaleNeverRuns(w, u1, events);
        } else if !Pending(w, u1) {
          RefusedNeverRuns(w, u1, events);
        } else {
          RefusedNeverRuns(w, u2, events);
        }
      }
    }
  }

  lemma ServeOneIs(w: World, use: nat)
    ensures Run(w, [UseEnter(use), UseLoad(use)]) == UseLoadStep(UseEnterStep(w, use), use)
  {
    FoldTwo(Step, w, UseEnter(use), UseLoad(use));
  }

  /**
   Exactly when an unserved use can still run, whatever has already run under its permit: it has passed the permit
   check and the store still holds the permit's state.
   */
  lemma CanStillRunIff(w: World, use: nat)
    requires Inv(w) && use in w.uses && w.uses[use].permit in w.permits && !Ran(w, use)
    ensures (exists events :: Ran(Run(w, events), use)) <==> Pending(w, use) && !Stale(w, w.uses[use].permit)
  {
    if Pending(w, use) && !Stale(w, w.uses[use].permit) {
      PendingIsServed(w, use);
      ServeOneIs(w, use);
      assert Ran(Run(w, [UseEnter(use), UseLoad(use)]), use);
    } else {
      forall events ensures !Ran(Run(w, events), use) {
        if Stale(w, w.uses[use].permit) {
          StaleNeverRuns(w, use, events);
        } else {
          RefusedNeverRuns(w, use, events);
        }
      }
    }
  }

  /** In particular for a second use of a permit whose first use has already run: consumption alone does not stop it. */
  lemma SecondCanRunIff(w: World, first: nat, second: nat)
    requires Inv(w) && Ran(w, first) && second in w.uses && !Ran(w, second)
    requires w.uses[second].permit == w.uses[first].permit && w.uses[first].permit in w.permits
    ensures (exists events :: Ran(Run(w, events), first) && Ran(Run(w, events), second)) <==>
            Pending(w, second) && !Stale(w, w.uses[first].permit)
  {
    CanStillRunIff(w, second);
    if Pending(w, second) && !Stale(w, w.uses[first].permit) {
      SecondIsServed(w, first, second);
      ServeOneIs(w, second);
      assert Ran(Run(w, [UseEnter(second), UseLoad(second)]), second);
    }
  }

  /** No use of the permit is between its check and its end. */
  ghost predicate Idle(w: World, permit: nat) {
    forall u :: u in w.uses && w.uses[u].permit == permit ==> w.uses[u].phase == Refused || w.uses[u].phase.Finished?
  }

  /** A run in which each use of the permit starts only while none is under way. */
  ghost predicate Disciplined(w: World, events: seq<Event>, permit: nat)
    decreases |events|
  {
    events == [] ||
    (&& (events[0].UseStart? && events[0].permit == permit ==> Idle(w, permit))
     && Disciplined(Step(w, events[0]), events[1..], permit))
  }

  predicate Accepted(w: World, use: nat, permit: nat) {
    use in w.uses && w.uses[use].permit == permit && w.uses[use].phase != Refused
  }

  ghost predicate AtMostOneAccepted(w: World, permit: nat) {
    forall u1, u2 :: Accepted(w, u1, permit) && Accepted(w, u2, permit) ==> u1 == u2
  }

  /** With non-overlapping uses a permit's operation runs at most once, even when it throws. */
  lemma {:induction false} DisciplinedPermitRunsOnce(w: World, events: seq<Event>, permit: nat)
    requires Inv(w) && AtMostOneAccepted(w, permit) && Disciplined(w, events, permit)
    ensures
      var x := Run(w, events);
      && AtMostOneAccepted(x, permit)
      && forall u1, u2 :: Ran(x, u1) && Ran(x, u2) && x.uses[u1].permit == x.uses[u2].permit == permit ==> u1 == u2
    decreases |events|
  {
    if events == [] {
      OnlyAcceptedRuns(w, permit);
    } else {
      DisciplinedStep(w, events[0], permit);
      StepKeepsInv(w, events[0]);
      DisciplinedPermitRunsOnce(Step(w, events[0]), events[1..], permit);
    }
  }

  lemma OnlyAcceptedRuns(x: World, permit: nat)
    requires AtMostOneAccepted(x, permit)
    ensures forall u1, u2 :: Ran(x, u1) && Ran(x, u2) && x.uses[u1].permit == x.uses[u2].permit == permit ==> u1 == u2
  {
    forall u1, u2 | Ran(x, u1) && Ran(x, u2) && x.uses[u1].permit == x.uses[u2].permit == permit ensures u1 == u2 {
      assert Accepted(x, u1, permit) && Accepted(x, u2, permit);
    }
  }

  lemma DisciplinedStep(w: World, e: Event, permit: nat)
    requires Inv(w) && AtMostOneAccepted(w, permit)
    requires e.UseStart? && e.permit == permit ==> Idle(w, permit)
    ensures AtMostOneAccepted(Step(w, e), permit)
  {
    StepExtends(w, e);
    var y := Step(w, e);
    forall u1, u2 | Accepted(y, u1, permit) && Accepted(y, u2, permit) ensures u1 == u2 {
      AcceptedUseIsNewOrKept(w, e, u1, permit);
      AcceptedUseIsNewOrKept(w, e, u2, permit);
    }
  }

  /** Under the discipline an accepted use is an earlier accepted one, or the one just started with none accepted. */
  lemma AcceptedUseIsNewOrKept(w: World, e: Event, use: nat, permit: nat)
    requires Inv(w) && Accepted(Step(w, e), use, permit)
    requires e.UseStart? && e.permit == permit ==> Idle(w, permit)
    ensures Accepted(w, use, permit) || (e.UseStart? && e.use == use && forall u :: !Accepted(w, u, permit))
  {
    StepExtends(w, e);
    if use !in w.uses {
      NewUse(w, e, use);
      forall u ensures !Accepted(w, u, permit) {
        assert u in w.uses ==> UseInv(w.store.stateSha256, w.permits, w.consumed, u in w.fence, w.uses[u]);
      }
    }
  }
}
