/**
 The trust controllers as the imperative program they are: one object holding the durable store and the process
 registries, one method per stretch between two awaits, each proved to be a step of the protocol, and the whole
 call for a caller with no other writer.
 */
module TrustRuntime {
  import opened Foundations
  import opened TrustBundle
  import opened TrustProtocol
  import opened TrustSafety
  import opened TrustAcceptance
  import opened TrustOrigins
  import opened TrustRegistration

  // ---- what a call alone on the store does ----

  /** The steps of one call in order, its write applied or not, its reply whatever it is. */
  function Alone(
    w: World, call: nat, controller: nat, bundle: Bundle, purpose: Purpose, now: int, applied: bool,
    receipt: Option<CasReceipt>, tuple: Option<string>): World
  {
    var loaded := LoadAndVerifyStep(StartStep(w, call, controller, bundle, purpose), call, now);
    ConfirmStep(ReloadStep(ReplyStep(Written(loaded, call, applied), call, receipt), call), call, tuple)
  }

  function Written(w: World, call: nat, applied: bool): World {
    if applied && call in w.calls && w.calls[call].phase.AwaitingReply?
    then ApplyStep(w, InputFor(w.calls[call].phase.verified))
    else w
  }

  /** How the call ends, from what it loaded, whether its write was applied, its reply and its tuple. */
  function Outcome(
    verdict: Result<DurableState, TrustError>, stored: Option<DurableState>, bundle: Bundle, purpose: Purpose,
    applied: bool, receipt: Option<CasReceipt>, tuple: Option<string>): Result<DurableState, CallError>
  {
    match verdict
    case Err(e) => Err(BundleRefused(e))
    case Ok(next) =>
      var v := Verified(bundle, next, if stored.None? then None else Some(StateSha256(stored.value)));
      if stored != Some(next) && !applied
      then Err(if ReceiptSettles(v, receipt) then NotCommittedExactly else CasConflict)
      else if purpose.IssuePermit? && tuple.None? then Err(TupleRefused)
      else Ok(next)
  }

  /** Only two receipts settle a call without another load: the two that name exactly the write it asked for. */
  lemma TwoReceiptsSettle(v: Verified, receipt: Option<CasReceipt>)
    ensures ReceiptSettles(v, receipt) <==>
            exists status :: status in {CommittedNow, AlreadyCommitted} && receipt ==
              Some(CasReceipt(status, v.expected, Some(StateSha256(v.nextState)), Some(BundleSha256(v.bundle)),
                     Some(v.bundle.generation), Some(v.bundle.revocationEpoch)))
  {}

  /** What the store holds afterwards: the verified state if its write was applied, otherwise what it held. */
  function StoredAfter(verdict: Result<DurableState, TrustError>, stored: Option<DurableState>, applied: bool): Option<DurableState> {
    if verdict.Ok? && applied then Some(verdict.value) else stored
  }

  function PhaseResult(p: Phase): Result<DurableState, CallError> {
    match p
    case Succeeded(v) => Ok(v.nextState)
    case Failed(e) => Err(e)
    case _ => Err(StoreFailed)
  }

  /** What a call knows and does after loading. */
  predicate Loaded(w: World, x: World, call: nat, now: int)
    requires call in w.calls && w.calls[call].controller in w.controllers
  {
    var c := w.calls[call];
    var verdict := VerifyBundle(w.controllers[c.controller], c.bundle, now, w.store.state);
    && x.store == w.store && x.fence == w.fence && x.commitments == w.commitments && x.permits == w.permits
    && call in x.calls && x.calls[call].purpose == c.purpose
    && match verdict
       case Err(e) => x.calls[call].phase == Failed(BundleRefused(e))
       case Ok(next) =>
         var v := Verified(c.bundle, next, w.store.stateSha256);
         if w.store.stateSha256 == Some(StateSha256(next)) then x.calls[call].phase == Confirming(v)
         else x.calls[call].phase == AwaitingReply(v) && InputFor(v) in x.requests
  }

  lemma LoadingLoads(w: World, call: nat, now: int)
    requires NormalizeSnapshot(w.store).Some?
    requires call in w.calls && w.calls[call].phase == Loading && w.calls[call].controller in w.controllers
    ensures Loaded(w, LoadAndVerifyStep(w, call, now), call, now)
  {}

  lemma Started(w: World, call: nat, controller: nat, bundle: Bundle, purpose: Purpose)
    requires |w.history| > 0 && call !in w.calls && controller in w.controllers
    ensures StartStep(w, call, controller, bundle, purpose) ==
            w.(calls := w.calls[call := Call(controller, bundle, purpose, |w.history| - 1, Loading)])
  {}

  lemma StartLoads(w: World, call: nat, controller: nat, bundle: Bundle, purpose: Purpose, now: int)
    requires Inv(w) && call !in w.calls && controller in w.controllers
    ensures
      var started := w.(calls := w.calls[call := Call(controller, bundle, purpose, |w.history| - 1, Loading)]);
      var x := LoadAndVerifyStep(StartStep(w, call, controller, bundle, purpose), call, now);
      Inv(x) && Loaded(started, x, call, now)
  {
    Started(w, call, controller, bundle, purpose);
    StartKeepsInv(w, call, controller, bundle, purpose);
    LoadAndVerifyKeepsInv(StartStep(w, call, controller, bundle, purpose), call, now);
    LoadingLoads(StartStep(w, call, controller, bundle, purpose), call, now);
  }

  /** The write of a waiting call that no other write preceded takes effect when applied. */
  lemma WriteTakesEffect(w: World, call: nat, applied: bool)
    requires Inv(w) && w.fence == {} && call in w.calls && w.calls[call].phase.AwaitingReply?
    requires w.calls[call].phase.verified.expected == w.store.stateSha256 && InputFor(w.calls[call].phase.verified) in w.requests
    ensures
      var x := Written(w, call, applied);
      Inv(x) && x.calls == w.calls && x.store.state == if applied then Some(w.calls[call].phase.verified.nextState) else w.store.state
  {
    ApplyKeepsInv(w, InputFor(w.calls[call].phase.verified));
  }

  lemma ReplyReloadConfirm(w: World, call: nat, receipt: Option<CasReceipt>, tuple: Option<string>)
    requires Inv(w) && call in w.calls && w.calls[call].phase.AwaitingReply?
    ensures
      var x := ConfirmStep(ReloadStep(ReplyStep(w, call, receipt), call), call, tuple);
      var v := w.calls[call].phase.verified;
      && Inv(x) && x.store == w.store && call in x.calls
      && PhaseResult(x.calls[call].phase) ==
           if w.store.state != Some(v.nextState) then Err(if ReceiptSettles(v, receipt) then NotCommittedExactly else CasConflict)
           else if w.calls[call].purpose.IssuePermit? && tuple.None? then Err(TupleRefused)
           else Ok(v.nextState)
  {
    var replied := ReplyStep(w, call, receipt);
    ReplyKeepsInv(w, call, receipt);
    ReloadKeepsInv(replied, call);
    ReplyReload(w, call, receipt);
    ConfirmEndsAs(ReloadStep(replied, call), call, tuple);
  }

  /** What the last step makes of a call that has settled. */
  lemma ConfirmEndsAs(x: World, call: nat, tuple: Option<string>)
    requires Inv(x) && call in x.calls && (x.calls[call].phase.Confirming? || x.calls[call].phase.Failed?)
    ensures
      var y := ConfirmStep(x, call, tuple);
      && Inv(y) && y.store == x.store && call in y.calls
      && PhaseResult(y.calls[call].phase) ==
           if x.calls[call].phase.Failed? then Err(x.calls[call].phase.error)
           else if x.store.state != Some(x.calls[call].phase.verified.nextState) then Err(NotCommittedExactly)
           else if x.calls[call].purpose.IssuePermit? && tuple.None? then Err(TupleRefused)
           else Ok(x.calls[call].phase.verified.nextState)
  {
    ConfirmKeepsInv(x, call, tuple);
    if x.calls[call].phase.Confirming? {
      ConfirmSucceedsIff(x, call, tuple);
    }
  }

  lemma ReplyReload(w: World, call: nat, receipt: Option<CasReceipt>)
    requires Inv(w) && call in w.calls && w.calls[call].phase.AwaitingReply?
    ensures
      var x := ReloadStep(ReplyStep(w, call, receipt), call);
      var v := w.calls[call].phase.verified;
      && x.store == w.store && call in x.calls && x.calls[call].purpose == w.calls[call].purpose
      && x.calls[call].phase ==
           if ReceiptSettles(v, receipt) || w.store.state == Some(v.nextState) then Confirming(v) else Failed(CasConflict)
  {}

  /** What the rest of the call makes of a loaded world. */
  lemma LoadedEndsAs(
    w: World, x: World, call: nat, now: int, applied: bool, receipt: Option<CasReceipt>, tuple: Option<string>)
    requires Inv(x) && x.fence == {} && NormalizeSnapshot(w.store).Some?
    requires call in w.calls && w.calls[call].controller in w.controllers && Loaded(w, x, call, now)
    ensures
      var y := ConfirmStep(ReloadStep(ReplyStep(Written(x, call, applied), call, receipt), call), call, tuple);
      var c := w.calls[call];
      var verdict := VerifyBundle(w.controllers[c.controller], c.bundle, now, w.store.state);
      && Inv(y) && call in y.calls
      && PhaseResult(y.calls[call].phase) == Outcome(verdict, w.store.state, c.bundle, c.purpose, applied, receipt, tuple)
      && y.store.state == StoredAfter(verdict, w.store.state, applied)
  {
    if x.calls[call].phase.AwaitingReply? {
      WriteTakesEffect(x, call, applied);
      ReplyReloadConfirm(Written(x, call, applied), call, receipt, tuple);
    } else {
      SettledEndsAs(x, call, applied, receipt, tuple);
    }
  }

  /** A call that is past its reply, or has failed, goes straight to its last load, if it gets there at all. */
  lemma SettledEndsAs(x: World, call: nat, applied: bool, receipt: Option<CasReceipt>, tuple: Option<string>)
    requires Inv(x) && call in x.calls && (x.calls[call].phase.Confirming? || x.calls[call].phase.Failed?)
    ensures ConfirmStep(ReloadStep(ReplyStep(Written(x, call, applied), call, receipt), call), call, tuple) == ConfirmStep(x, call, tuple)
    ensures
      var y := ConfirmStep(x, call, tuple);
      && Inv(y) && y.store == x.store && call in y.calls
      && PhaseResult(y.calls[call].phase) ==
           if x.calls[call].phase.Failed? then Err(x.calls[call].phase.error)
           else if x.store.state != Some(x.calls[call].phase.verified.nextState) then Err(NotCommittedExactly)
           else if x.calls[call].purpose.IssuePermit? && tuple.None? then Err(TupleRefused)
           else Ok(x.calls[call].phase.verified.nextState)
  {
    ConfirmEndsAs(x, call, tuple);
  }

  /**
   With no other writer a call ends exactly as its outcome says: in particular an applied write succeeds whatever
   the reply was, and a write that was not applied never does, even if the reply claims it was.
   */
  lemma AloneEndsAs(
    w: World, call: nat, controller: nat, bundle: Bundle, purpose: Purpose, now: int, applied: bool,
    receipt: Option<CasReceipt>, tuple: Option<string>)
    requires Inv(w) && w.fence == {} && call !in w.calls && controller in w.controllers
    ensures
      var x := Alone(w, call, controller, bundle, purpose, now, applied, receipt, tuple);
      var verdict := VerifyBundle(w.controllers[controller], bundle, now, w.store.state);
      && Inv(x) && call in x.calls
      && PhaseResult(x.calls[call].phase) == Outcome(verdict, w.store.state, bundle, purpose, applied, receipt, tuple)
      && x.store.state == StoredAfter(verdict, w.store.state, applied)
  {
    var started := w.(calls := w.calls[call := Call(controller, bundle, purpose, |w.history| - 1, Loading)]);
    var loaded := LoadAndVerifyStep(StartStep(w, call, controller, bundle, purpose), call, now);
    StartLoads(w, call, controller, bundle, purpose, now);
    LoadedEndsAs(started, loaded, call, now, applied, receipt, tuple);
  }

  /** Registries, uses and fence are those of before, and the call is still this one. */
  ghost predicate Unregistered(w: World, x: World, call: nat, controller: nat, bundle: Bundle, purpose: Purpose) {
    && SameRegistries(w, x) && SameUses(w, x) && x.fence == w.fence
    && call in x.calls && x.calls[call].controller == controller && x.calls[call].bundle == bundle
    && x.calls[call].purpose == purpose && !x.calls[call].phase.Succeeded?
  }

  lemma PhaseChangeUnregistered(
    w: World, x: World, y: World, call: nat, controller: nat, bundle: Bundle, purpose: Purpose)
    requires Unregistered(w, x, call, controller, bundle, purpose)
    requires SameRegistries(x, y) && SameUses(x, y) && y.fence == x.fence && PhaseOnly(x.calls, y.calls, call)
    requires y.calls != x.calls ==> !y.calls[call].phase.Succeeded?
    ensures Unregistered(w, y, call, controller, bundle, purpose)
  {}

  lemma LoadedUnregistered(w: World, call: nat, controller: nat, bundle: Bundle, purpose: Purpose, now: int)
    requires Inv(w) && call !in w.calls && controller in w.controllers
    ensures
      var x := LoadAndVerifyStep(StartStep(w, call, controller, bundle, purpose), call, now);
      Inv(x) && Unregistered(w, x, call, controller, bundle, purpose)
  {
    var started := StartStep(w, call, controller, bundle, purpose);
    Started(w, call, controller, bundle, purpose);
    StartRegisters(w, call, controller, bundle, purpose);
    StartKeepsInv(w, call, controller, bundle, purpose);
    LoadAndVerifyKeepsInv(started, call, now);
    LoadRegisters(started, call, now);
    LoadPhase(started, call, now);
    PhaseChangeUnregistered(w, started, LoadAndVerifyStep(started, call, now), call, controller, bundle, purpose);
  }

  lemma ReloadedUnregistered(
    w: World, x: World, call: nat, controller: nat, bundle: Bundle, purpose: Purpose, applied: bool, receipt: Option<CasReceipt>)
    requires Inv(x) && Unregistered(w, x, call, controller, bundle, purpose)
    ensures
      var y := ReloadStep(ReplyStep(Written(x, call, applied), call, receipt), call);
      Inv(y) && Unregistered(w, y, call, controller, bundle, purpose)
  {
    var written := Written(x, call, applied);
    if written != x {
      ApplyRegisters(x, InputFor(x.calls[call].phase.verified));
      ApplyKeepsInv(x, InputFor(x.calls[call].phase.verified));
    }
    PhaseChangeUnregistered(w, x, written, call, controller, bundle, purpose);
    var replied := ReplyStep(written, call, receipt);
    ReplyKeepsInv(written, call, receipt);
    ReplyRegisters(written, call, receipt);
    ReplyPhase(written, call, receipt);
    PhaseChangeUnregistered(w, written, replied, call, controller, bundle, purpose);
    ReloadKeepsInv(replied, call);
    ReloadRegisters(replied, call);
    ReloadPhase(replied, call);
    PhaseChangeUnregistered(w, replied, ReloadStep(replied, call), call, controller, bundle, purpose);
  }

  /** What the registries are after a call that ended this way. */
  ghost predicate RegisteredAs(
    w: World, x: World, call: nat, controller: nat, bundle: Bundle, purpose: Purpose, tuple: Option<string>, ok: bool)
  {
    if !ok then x.commitments == w.commitments && x.permits == w.permits
    else
      && call in x.commitments && x.commitments == w.commitments[call := x.commitments[call]]
      && Names(x.commitments[call], Call(controller, bundle, purpose, 0, Loading))
      && match purpose
         case Prepare => x.permits == w.permits
         case IssuePermit => tuple.Some? && x.permits == w.permits[call := Permit(x.commitments[call], tuple.value)]
  }

  lemma UnregisteredConfirms(
    w: World, y: World, call: nat, controller: nat, bundle: Bundle, purpose: Purpose, tuple: Option<string>)
    requires Inv(y) && Unregistered(w, y, call, controller, bundle, purpose)
    ensures
      var x := ConfirmStep(y, call, tuple);
      && call in x.calls && SameUses(w, x) && x.fence == w.fence
      && RegisteredAs(w, x, call, controller, bundle, purpose, tuple, x.calls[call].phase.Succeeded?)
  {
    ConfirmFence(y, call, tuple);
    ConfirmFrame(y, call, tuple);
    if y.calls[call].phase.Confirming? {
      ConfirmRegisters(y, call, tuple);
    } else {
      ConfirmIdle(y, call, tuple);
    }
  }

  lemma ConfirmFence(w: World, call: nat, tuple: Option<string>)
    ensures ConfirmStep(w, call, tuple).fence == w.fence
  {}

  /**
   A call alone registers exactly this: on success its commitment and, if it issues a permit, the permit with the tuple
   granted; on failure nothing. All other entries, the uses and the fence stay.
   */
  lemma AloneRegisters(
    w: World, call: nat, controller: nat, bundle: Bundle, purpose: Purpose, now: int, applied: bool,
    receipt: Option<CasReceipt>, tuple: Option<string>)
    requires Inv(w) && w.fence == {} && call !in w.calls && controller in w.controllers
    ensures
      var x := Alone(w, call, controller, bundle, purpose, now, applied, receipt, tuple);
      && call in x.calls && SameUses(w, x) && x.fence == {}
      && RegisteredAs(w, x, call, controller, bundle, purpose, tuple, x.calls[call].phase.Succeeded?)
  {
    var loaded := LoadAndVerifyStep(StartStep(w, call, controller, bundle, purpose), call, now);
    LoadedUnregistered(w, call, controller, bundle, purpose, now);
    ReloadedUnregistered(w, loaded, call, controller, bundle, purpose, applied, receipt);
    var reloaded := ReloadStep(ReplyStep(Written(loaded, call, applied), call, receipt), call);
    UnregisteredConfirms(w, reloaded, call, controller, bundle, purpose, tuple);
  }

  /** A use from its check to its end with nothing between. */
  function Served(w: World, use: nat, controller: nat, permit: nat, threw: bool): World {
    UseEndStep(UseLoadStep(UseEnterStep(UseStartStep(w, use, controller, permit), use), use), use, threw)
  }

  lemma ServedKeepsInv(w: World, use: nat, controller: nat, permit: nat, threw: bool)
    requires Inv(w)
    ensures Inv(Served(w, use, controller, permit, threw))
  {
    var started := UseStartStep(w, use, controller, permit);
    UseStartKeepsInv(w, use, controller, permit);
    UseEnterKeepsInv(started, use);
    UseLoadKeepsInv(UseEnterStep(started, use), use);
    UseEndKeepsInv(UseLoadStep(UseEnterStep(started, use), use), use, threw);
  }

  /** A permit's state, as far as serving a use is concerned. */
  predicate Serves(w: World, x: World, use: nat, phase: UsePhase, consumed: set<nat>) {
    && x.store == w.store && x.permits == w.permits
    && use in x.uses && x.uses[use].phase == phase
    && x.consumed == consumed
  }

  lemma EnterServes(w: World, use: nat)
    requires use in w.uses && w.fence == {}
    ensures
      var x := UseEnterStep(w, use);
      if w.uses[use].phase == Asserted
      then Serves(w, x, use, Inside, w.consumed) && x.uses[use].permit == w.uses[use].permit && x.fence == {use}
      else x == w
  {}

  lemma LoadServes(w: World, use: nat)
    requires use in w.uses && w.uses[use].phase == Inside && w.uses[use].permit in w.permits && w.fence == {use}
    ensures
      var x := UseLoadStep(w, use);
      if Holds(w.store, w.permits[w.uses[use].permit].commitment.stateSha256)
      then Serves(w, x, use, Operating, w.consumed + {w.uses[use].permit}) && x.fence == {use}
      else Serves(w, x, use, Refused, w.consumed) && x.fence == {}
  {}

  lemma EndServes(w: World, use: nat, threw: bool)
    requires use in w.uses && (w.uses[use].phase == Operating || w.uses[use].phase == Refused) && w.fence <= {use}
    ensures
      var x := UseEndStep(w, use, threw);
      Serves(w, x, use, if w.uses[use].phase == Operating then Finished(threw) else Refused, w.consumed)
      && (w.uses[use].phase == Operating ==> x.fence == {}) && (w.uses[use].phase == Refused ==> x == w)
  {}

  lemma CurrentHoldsIffFresh(w: World, controller: nat, permit: nat)
    requires Inv(w) && PermitIsCurrent(w, controller, permit)
    ensures Holds(w.store, w.permits[permit].commitment.stateSha256) <==> !Stale(w, permit)
  {}

  /** With nothing else running, an operation runs exactly for a current permit whose state the store holds. */
  lemma ServedRunsIff(w: World, use: nat, controller: nat, permit: nat, threw: bool)
    requires Inv(w) && w.fence == {} && use !in w.uses
    ensures
      var x := Served(w, use, controller, permit, threw);
      var runs := PermitIsCurrent(w, controller, permit) && !Stale(w, permit);
      Serves(w, x, use, if runs then Finished(threw) else Refused, if runs then w.consumed + {permit} else w.consumed)
      && x.fence == {}
  {
    var a := UseStartStep(w, use, controller, permit);
    var b := UseEnterStep(a, use);
    var c := UseLoadStep(b, use);
    EnterServes(a, use);
    if PermitIsCurrent(w, controller, permit) {
      CurrentHoldsIffFresh(w, controller, permit);
      LoadServes(b, use);
      EndServes(c, use, threw);
    }
  }

  // ---- the program ----

  class Runtime {
    const controllers: map<nat, Root>
    var store: Snapshot
    var history: seq<Option<DurableState>>
    var calls: map<nat, Call>
    var requests: set<CasInput>
    var fence: set<nat>
    var commitments: map<nat, Commitment>
    var permits: map<nat, Permit>
    var consumed: set<nat>
    var uses: map<nat, Use>

    ghost function World(): World
      reads this
    {
      TrustProtocol.World.World(controllers, store, history, calls, requests, fence, commitments, permits, consumed, uses)
    }

    constructor (controllers: map<nat, Root>, stored: Option<DurableState>)
      requires stored.Some? ==> Committed(stored.value)
      ensures Initial(World()) && World().controllers == controllers && World().store.state == stored
    {
      this.controllers := controllers;
      store := Snapshot(stored, if stored.None? then None else Some(StateSha256(stored.value)));
      history := [stored];
      calls, requests, fence := map[], {}, {};
      commitments, permits, consumed, uses := map[], map[], {}, map[];
    }

    method LoadAndVerify(call: nat, now: int)
      modifies this
      ensures World() == LoadAndVerifyStep(old(World()), call, now)
    {
      if call !in calls || calls[call].phase != Loading || calls[call].controller !in controllers {
        return;
      }
      var c := calls[call];
      var before := NormalizeSnapshot(store);
      if before.None? {
        calls := calls[call := c.(phase := Failed(StoreFailed))];
        return;
      }
      var verdict := VerifyBundle(controllers[c.controller], c.bundle, now, before.value.state);
      if verdict.Err? {
        calls := calls[call := c.(phase := Failed(BundleRefused(verdict.error)))];
        return;
      }
      var v := Verified(c.bundle, verdict.value, before.value.stateSha256);
      if before.value.stateSha256 == Some(StateSha256(verdict.value)) {
        calls := calls[call := c.(phase := Confirming(v))];
      } else {
        calls := calls[call := c.(phase := AwaitingReply(v))];
        requests := requests + {InputFor(v)};
      }
    }

    /** The store's side of `compareAndSwap`. */
    method Apply(input: CasInput)
      modifies this
      ensures World() == ApplyStep(old(World()), input)
    {
      if input !in requests || fence != {} || NormalizeCasInput(input).None? {
        return;
      }
      if store.stateSha256 == input.expectedStateSha256 {
        store := Snapshot(Some(input.nextState), Some(input.nextStateSha256));
        history := history + [Some(input.nextState)];
      }
    }

    method Reply(call: nat, receipt: Option<CasReceipt>)
      modifies this
      ensures World() == ReplyStep(old(World()), call, receipt)
    {
      if call in calls && calls[call].phase.AwaitingReply? {
        var v := calls[call].phase.verified;
        if ReceiptSettles(v, receipt) {
          calls := calls[call := calls[call].(phase := Confirming(v))];
        } else {
          calls := calls[call := calls[call].(phase := Reloading(v))];
        }
      }
    }

    method Reload(call: nat)
      modifies this
      ensures World() == ReloadStep(old(World()), call)
    {
      if call in calls && calls[call].phase.Reloading? {
        var v := calls[call].phase.verified;
        var after := NormalizeSnapshot(store);
        if after.None? {
          calls := calls[call := calls[call].(phase := Failed(StoreFailed))];
        } else if after.value.stateSha256 != Some(StateSha256(v.nextState)) {
          calls := calls[call := calls[call].(phase := Failed(CasConflict))];
        } else {
          calls := calls[call := calls[call].(phase := Confirming(v))];
        }
      }
    }

    method Confirm(call: nat, tuple: Option<string>)
      modifies this
      ensures World() == ConfirmStep(old(World()), call, tuple)
    {
      if call !in calls || !calls[call].phase.Confirming? {
        return;
      }
      var c := calls[call];
      var v := c.phase.verified;
      var after := NormalizeSnapshot(store);
      if after.None? {
        calls := calls[call := c.(phase := Failed(StoreFailed))];
      } else if !CommittedExactly(v, after.value) {
        calls := calls[call := c.(phase := Failed(NotCommittedExactly))];
      } else if c.purpose.IssuePermit? && tuple.None? {
        calls := calls[call := c.(phase := Failed(TupleRefused))];
      } else {
        var commitment := CommitmentFor(c.controller, v);
        commitments := commitments[call := commitment];
        if c.purpose.IssuePermit? {
          permits := permits[call := Permit(commitment, tuple.value)];
        }
        calls := calls[call := c.(phase := Succeeded(v))];
      }
    }

    /** The stretches of one call in order. */
    method RunCall(
      call: nat, controller: nat, bundle: Bundle, purpose: Purpose, now: int, applied: bool,
      receipt: Option<CasReceipt>, tuple: Option<string>)
      requires Inv(World()) && call !in calls && controller in controllers
      modifies this
      ensures World() == Alone(old(World()), call, controller, bundle, purpose, now, applied, receipt, tuple)
    {
      calls := calls[call := Call(controller, bundle, purpose, |history| - 1, Loading)];
      LoadAndVerify(call, now);
      if applied && call in calls && calls[call].phase.AwaitingReply? {
        Apply(InputFor(calls[call].phase.verified));
      }
      Reply(call, receipt);
      Reload(call);
      Confirm(call, tuple);
    }

    /**
     `prepare` or `issuePermit` while nothing else writes: the write may be applied or lost on its way, and the
     reply may be any receipt or none.
     */
    method VerifyAndCommit(
      call: nat, controller: nat, bundle: Bundle, purpose: Purpose, now: int, applied: bool,
      receipt: Option<CasReceipt>, tuple: Option<string>) returns (result: Result<DurableState, CallError>)
      requires Inv(World()) && fence == {} && call !in calls && controller in controllers
      modifies this
      ensures Inv(World())
      ensures
        var verdict := VerifyBundle(controllers[controller], bundle, now, old(store.state));
        && result == Outcome(verdict, old(store.state), bundle, purpose, applied, receipt, tuple)
        && store.state == StoredAfter(verdict, old(store.state), applied)
      ensures fence == {} && uses == old(uses) && consumed == old(consumed)
      ensures result.Err? ==> commitments == old(commitments) && permits == old(permits)
      ensures result.Ok? ==>
                && call in commitments && commitments == old(commitments)[call := commitments[call]]
                && commitments[call].controller == controller && commitments[call].bundleSha256.content == bundle
                && commitments[call].generation == bundle.generation
                && commitments[call].revocationEpoch == bundle.revocationEpoch
                && Spells(commitments[call].stateSha256.content, bundle)
      ensures result.Ok? && purpose.Prepare? ==> permits == old(permits)
      ensures result.Ok? && purpose.IssuePermit? ==>
                tuple.Some? && permits == old(permits)[call := Permit(commitments[call], tuple.value)]
    {
      AloneEndsAs(World(), call, controller, bundle, purpose, now, applied, receipt, tuple);
      AloneRegisters(World(), call, controller, bundle, purpose, now, applied, receipt, tuple);
      RunCall(call, controller, bundle, purpose, now, applied, receipt, tuple);
      result := PhaseResult(calls[call].phase);
    }

    method UseStart(use: nat, controller: nat, permit: nat)
      modifies this
      ensures World() == UseStartStep(old(World()), use, controller, permit)
    {
      if use !in uses {
        var current := permit in permits && permits[permit].commitment.controller == controller && permit !in consumed;
        uses := uses[use := Use(controller, permit, if current then Asserted else Refused)];
      }
    }

    method UseEnter(use: nat)
      modifies this
      ensures World() == UseEnterStep(old(World()), use)
    {
      if use in uses && uses[use].phase == Asserted {
        uses := uses[use := uses[use].(phase := Inside)];
        fence := fence + {use};
      }
    }

    method UseLoad(use: nat)
      modifies this
      ensures World() == UseLoadStep(old(World()), use)
    {
      if use !in uses || uses[use].phase != Inside || uses[use].permit !in permits {
        return;
      }
      var permit := uses[use].permit;
      if !Holds(store, permits[permit].commitment.stateSha256) {
        uses := uses[use := uses[use].(phase := Refused)];
        fence := fence - {use};
        return;
      }
      consumed := consumed + {permit};
      uses := uses[use := uses[use].(phase := Operating)];
    }

    method UseEnd(use: nat, threw: bool)
      modifies this
      ensures World() == UseEndStep(old(World()), use, threw)
    {
      if use in uses && uses[use].phase == Operating {
        uses := uses[use := uses[use].(phase := Finished(threw))];
        fence := fence - {use};
      }
    }

    /** `withPermit` from its check to its end, with nothing else running; `threw` is how the operation ends. */
    method WithPermit(use: nat, controller: nat, permit: nat, threw: bool) returns (ran: bool)
      requires Inv(World()) && fence == {} && use !in uses
      modifies this
      ensures Inv(World()) && fence == {} && store == old(store) && permits == old(permits)
      ensures ran <==> PermitIsCurrent(old(World()), controller, permit) && !Stale(old(World()), permit)
      ensures consumed == if ran then old(consumed) + {permit} else old(consumed)
    {
      ServedKeepsInv(World(), use, controller, permit, threw);
      ServedRunsIff(World(), use, controller, permit, threw);
      UseStart(use, controller, permit);
      UseEnter(use);
      UseLoad(use);
      UseEnd(use, threw);
      ran := use in uses && uses[use].phase.Finished?;
    }
  }
}
