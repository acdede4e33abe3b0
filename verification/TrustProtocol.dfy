/**
 Any number of trust controllers over one durable store (`category-trust-controller.ts`), as a system of atomic
 steps: everything a call does between two awaits is one step, and steps of different calls interleave freely.
 A compare-and-swap is sent, may be applied by the backend at any later moment, any number of times or never, and
 its reply is an arbitrary receipt or none. `withRevision` keeps compare-and-swap out while a callback runs.
 */
module TrustProtocol {
  import opened Foundations
  import opened Runs
  import opened TrustBundle

  // ---- the store boundary ----

  datatype Snapshot = Snapshot(state: Option<DurableState>, stateSha256: Option<StateSha256>)

  datatype CasInput = CasInput(
    expectedStateSha256: Option<StateSha256>, nextState: DurableState, nextStateSha256: StateSha256,
    bundleSha256: BundleSha256, generation: nat, revocationEpoch: nat)

  datatype CasStatus = CommittedNow | AlreadyCommitted | Conflict

  datatype CasReceipt = CasReceipt(
    status: CasStatus, expectedStateSha256: Option<StateSha256>, committedStateSha256: Option<StateSha256>,
    bundleSha256: Option<BundleSha256>, generation: Option<nat>, revocationEpoch: Option<nat>)

  /** `normalizeSnapshot`: state and digest come together and agree, or the load throws. */
  function NormalizeSnapshot(raw: Snapshot): Option<Snapshot> {
    if raw.state.None? != raw.stateSha256.None? then None
    else if raw.state.Some? && Some(StateSha256(raw.state.value)) != raw.stateSha256 then None
    else Some(raw)
  }

  /** `normalizeCasInput`: the digest sent is the digest of the state sent. */
  function NormalizeCasInput(input: CasInput): Option<CasInput> {
    if StateSha256(input.nextState) != input.nextStateSha256 then None else Some(input)
  }

  /** `normalizeCasReceipt`: a receipt for another expectation throws. */
  function NormalizeCasReceipt(receipt: CasReceipt, input: CasInput): Option<CasReceipt> {
    if receipt.expectedStateSha256 != input.expectedStateSha256 then None else Some(receipt)
  }

  // ---- calls, permits and their uses ----

  datatype CallError = StoreFailed | BundleRefused(error: TrustError) | CasConflict | NotCommittedExactly | TupleRefused

  /** What a call knows once its bundle is verified against the state it loaded. */
  datatype Verified = Verified(bundle: Bundle, nextState: DurableState, expected: Option<StateSha256>)

  datatype Phase =
    | Loading
    | AwaitingReply(verified: Verified)
    | Reloading(verified: Verified)
    | Confirming(verified: Verified)
    | Succeeded(verified: Verified)
    | Failed(error: CallError)

  datatype Purpose = Prepare | IssuePermit

  /** One activation of `verifyAndCommit` inside `prepare` or `issuePermit`; `startedAt` is where history stood. */
  datatype Call = Call(controller: nat, bundle: Bundle, purpose: Purpose, startedAt: nat, phase: Phase)

  datatype Commitment = Commitment(
    controller: nat, bundleSha256: BundleSha256, generation: nat, revocationEpoch: nat, stateSha256: StateSha256)

  datatype Permit = Permit(commitment: Commitment, tuple: string)

  datatype UsePhase = Asserted | Inside | Operating | Finished(threw: bool) | Refused

  datatype Use = Use(controller: nat, permit: nat, phase: UsePhase)

  /**
   The durable store with its past contents, the requests in flight, the callbacks inside the revision fence, and
   the process registries `commitments`, `permits` (by the call that registered them) and `consumedPermits`.
   */
  datatype World = World(
    controllers: map<nat, Root>,
    store: Snapshot,
    history: seq<Option<DurableState>>,
    calls: map<nat, Call>,
    requests: set<CasInput>,
    fence: set<nat>,
    commitments: map<nat, Commitment>,
    permits: map<nat, Permit>,
    consumed: set<nat>,
    uses: map<nat, Use>)

  datatype Event =
    | Start(call: nat, controller: nat, bundle: Bundle, purpose: Purpose)
    | LoadAndVerify(call: nat, now: int)
    | Apply(input: CasInput)
    | Reply(call: nat, receipt: Option<CasReceipt>)
    | Reload(call: nat)
    | Confirm(call: nat, tuple: Option<string>)
    | Abort(call: nat)
    | UseStart(use: nat, controller: nat, permit: nat)
    | UseEnter(use: nat)
    | UseLoad(use: nat)
    | UseEnd(use: nat, threw: bool)
    | UseAbort(use: nat)

  // ---- steps ----

  function SetPhase(w: World, call: nat, phase: Phase): World
    requires call in w.calls
  {
    w.(calls := w.calls[call := w.calls[call].(phase := phase)])
  }

  function SetUse(w: World, use: nat, phase: UsePhase): World
    requires use in w.uses
  {
    w.(uses := w.uses[use := w.uses[use].(phase := phase)])
  }

  function StartStep(w: World, call: nat, controller: nat, bundle: Bundle, purpose: Purpose): World {
    if call in w.calls || controller !in w.controllers || |w.history| == 0 then w
    else w.(calls := w.calls[call := Call(controller, bundle, purpose, |w.history| - 1, Loading)])
  }

  function InputFor(v: Verified): CasInput {
    CasInput(v.expected, v.nextState, StateSha256(v.nextState), BundleSha256(v.bundle), v.bundle.generation, v.bundle.revocationEpoch)
  }

  /** The first load, verification against it, and the decision whether to send a compare-and-swap. */
  function LoadAndVerifyStep(w: World, call: nat, now: int): World {
    if call !in w.calls || w.calls[call].phase != Loading || w.calls[call].controller !in w.controllers then w
    else
      var c := w.calls[call];
      match NormalizeSnapshot(w.store)
      case None => SetPhase(w, call, Failed(StoreFailed))
      case Some(before) =>
        match VerifyBundle(w.controllers[c.controller], c.bundle, now, before.state)
        case Err(e) => SetPhase(w, call, Failed(BundleRefused(e)))
        case Ok(next) =>
          var v := Verified(c.bundle, next, before.stateSha256);
          if before.stateSha256 == Some(StateSha256(next)) then SetPhase(w, call, Confirming(v))
          else SetPhase(w, call, AwaitingReply(v)).(requests := w.requests + {InputFor(v)})
  }

  /** The backend's atomic compare-and-swap, excluded while a revision callback runs. */
  function ApplyStep(w: World, input: CasInput): World {
    if input !in w.requests || w.fence != {} || NormalizeCasInput(input).None? then w
    else if w.store.stateSha256 != input.expectedStateSha256 then w
    else w.(store := Snapshot(Some(input.nextState), Some(input.nextStateSha256)), history := w.history + [Some(input.nextState)])
  }

  predicate ReceiptSettles(v: Verified, receipt: Option<CasReceipt>) {
    && receipt.Some?
    && NormalizeCasReceipt(receipt.value, InputFor(v)).Some?
    && receipt.value.status != Conflict
    && receipt.value.committedStateSha256 == Some(StateSha256(v.nextState))
    && receipt.value.bundleSha256 == Some(BundleSha256(v.bundle))
    && receipt.value.generation == Some(v.bundle.generation)
    && receipt.value.revocationEpoch == Some(v.bundle.revocationEpoch)
  }

  function ReplyStep(w: World, call: nat, receipt: Option<CasReceipt>): World {
    if call !in w.calls || !w.calls[call].phase.AwaitingReply? then w
    else
      var v := w.calls[call].phase.verified;
      SetPhase(w, call, if ReceiptSettles(v, receipt) then Confirming(v) else Reloading(v))
  }

  function ReloadStep(w: World, call: nat): World {
    if call !in w.calls || !w.calls[call].phase.Reloading? then w
    else
      var v := w.calls[call].phase.verified;
      match NormalizeSnapshot(w.store)
      case None => SetPhase(w, call, Failed(StoreFailed))
      case Some(after) =>
        SetPhase(w, call, if after.stateSha256 == Some(StateSha256(v.nextState)) then Confirming(v) else Failed(CasConflict))
  }

  predicate CommittedExactly(v: Verified, after: Snapshot) {
    && after.state.Some?
    && after.stateSha256 == Some(StateSha256(v.nextState))
    && StateSha256(after.state.value) == StateSha256(v.nextState)
    && after.state.value.bundleSha256 == BundleSha256(v.bundle)
    && after.state.value.generation == v.bundle.generation
    && after.state.value.revocationEpoch == v.bundle.revocationEpoch
  }

  function CommitmentFor(controller: nat, v: Verified): Commitment {
    Commitment(controller, BundleSha256(v.bundle), v.bundle.generation, v.bundle.revocationEpoch, StateSha256(v.nextState))
  }

  /** `commitmentFromVerified` and, for `issuePermit`, the permit. */
  function Registered(w: World, call: nat, tuple: Option<string>): World
    requires call in w.calls && w.calls[call].phase.Confirming?
  {
    var c := w.calls[call];
    var commitment := CommitmentFor(c.controller, c.phase.verified);
    World(w.controllers, w.store, w.history, w.calls[call := c.(phase := Succeeded(c.phase.verified))], w.requests, w.fence,
      w.commitments[call := commitment],
      if c.purpose.IssuePermit? && tuple.Some? then w.permits[call := Permit(commitment, tuple.value)] else w.permits,
      w.consumed, w.uses)
  }

  /** The authoritative last load, then registration of the commitment and, for a granted tuple, the permit. */
  function ConfirmStep(w: World, call: nat, tuple: Option<string>): World {
    if call !in w.calls || !w.calls[call].phase.Confirming? then w
    else
      var c := w.calls[call];
      var v := c.phase.verified;
      match NormalizeSnapshot(w.store)
      case None => SetPhase(w, call, Failed(StoreFailed))
      case Some(after) =>
        if !CommittedExactly(v, after) then SetPhase(w, call, Failed(NotCommittedExactly))
        else if c.purpose.IssuePermit? && tuple.None? then SetPhase(w, call, Failed(TupleRefused))
        else Registered(w, call, tuple)
  }

  predicate Ended(p: Phase) { p.Succeeded? || p.Failed? }

  function AbortStep(w: World, call: nat): World {
    if call !in w.calls || Ended(w.calls[call].phase) then w else SetPhase(w, call, Failed(StoreFailed))
  }

  /** `assertPermit`. */
  predicate PermitIsCurrent(w: World, controller: nat, permit: nat) {
    permit in w.permits && w.permits[permit].commitment.controller == controller && permit !in w.consumed
  }

  function UseStartStep(w: World, use: nat, controller: nat, permit: nat): World {
    if use in w.uses then w
    else w.(uses := w.uses[use := Use(controller, permit, if PermitIsCurrent(w, controller, permit) then Asserted else Refused)])
  }

  function UseEnterStep(w: World, use: nat): World {
    if use !in w.uses || w.uses[use].phase != Asserted then w
    else SetUse(w, use, Inside).(fence := w.fence + {use})
  }

  /** The snapshot loads and is the state of this digest. */
  predicate Holds(store: Snapshot, expected: StateSha256) {
    && NormalizeSnapshot(store).Some?
    && store.stateSha256 == Some(expected)
    && store.state.Some?
    && StateSha256(store.state.value) == expected
  }

  /** Inside the fence: load, compare with the permit, consume it, and begin the operation. */
  function UseLoadStep(w: World, use: nat): World {
    if use !in w.uses || w.uses[use].phase != Inside || w.uses[use].permit !in w.permits then w
    else
      var p := w.uses[use].permit;
      var expected := w.permits[p].commitment.stateSha256;
      if Holds(w.store, expected) then SetUse(w, use, Operating).(consumed := w.consumed + {p})
      else SetUse(w, use, Refused).(fence := w.fence - {use})
  }

  function UseEndStep(w: World, use: nat, threw: bool): World {
    if use !in w.uses || w.uses[use].phase != Operating then w
    else SetUse(w, use, Finished(threw)).(fence := w.fence - {use})
  }

  function UseAbortStep(w: World, use: nat): World {
    if use !in w.uses || (w.uses[use].phase != Asserted && w.uses[use].phase != Inside) then w
    else SetUse(w, use, Refused).(fence := w.fence - {use})
  }

  function Step(w: World, e: Event): World {
    match e
    case Start(call, controller, bundle, purpose) => StartStep(w, call, controller, bundle, purpose)
    case LoadAndVerify(call, now) => LoadAndVerifyStep(w, call, now)
    case Apply(input) => ApplyStep(w, input)
    case Reply(call, receipt) => ReplyStep(w, call, receipt)
    case Reload(call) => ReloadStep(w, call)
    case Confirm(call, tuple) => ConfirmStep(w, call, tuple)
    case Abort(call) => AbortStep(w, call)
    case UseStart(use, controller, permit) => UseStartStep(w, use, controller, permit)
    case UseEnter(use) => UseEnterStep(w, use)
    case UseLoad(use) => UseLoadStep(w, use)
    case UseEnd(use, threw) => UseEndStep(w, use, threw)
    case UseAbort(use) => UseAbortStep(w, use)
  }

  /** A run: any sequence of steps, that is, any interleaving. */
  function Run(w: World, events: seq<Event>): World {
    Fold(Step, w, events)
  }

  // ---- the invariant ----

  function Content(d: Option<StateSha256>): Option<DurableState> {
    if d.None? then None else Some(d.value.content)
  }

  ghost predicate VerifiedSuccessor(controllers: map<nat, Root>, prior: Option<DurableState>, next: DurableState) {
    exists c, b, now :: c in controllers && VerifyBundle(controllers[c], b, now, prior) == Ok(next)
  }

  ghost predicate StoreInv(store: Snapshot, history: seq<Option<DurableState>>) {
    && NormalizeSnapshot(store).Some?
    && |history| > 0 && history[|history| - 1] == store.state
    && (forall i :: 0 <= i < |history| && history[i].Some? ==> Committed(history[i].value))
  }

  /** Each content after the first is a verified successor of exactly the content it replaced. */
  ghost predicate Chain(controllers: map<nat, Root>, history: seq<Option<DurableState>>) {
    forall i :: 0 < i < |history| ==> Link(controllers, history[i - 1], history[i])
  }

  ghost predicate Link(controllers: map<nat, Root>, prior: Option<DurableState>, next: Option<DurableState>) {
    && next.Some?
    && VerifiedSuccessor(controllers, prior, next.value)
    && (prior.Some? ==> Supersedes(prior.value, next.value))
  }

  ghost predicate RequestInv(controllers: map<nat, Root>, r: CasInput) {
    && r.nextStateSha256 == StateSha256(r.nextState)
    && Committed(r.nextState)
    && r.expectedStateSha256 != Some(r.nextStateSha256)
    && VerifiedSuccessor(controllers, Content(r.expectedStateSha256), r.nextState)
  }

  ghost predicate RequestsInv(controllers: map<nat, Root>, requests: set<CasInput>) {
    forall r :: r in requests ==> RequestInv(controllers, r)
  }

  ghost predicate InHistory(history: seq<Option<DurableState>>, from: nat, s: DurableState) {
    exists k :: from <= k < |history| && history[k] == Some(s)
  }

  ghost predicate CallInv(controllers: map<nat, Root>, history: seq<Option<DurableState>>, c: Call) {
    && c.controller in controllers
    && c.startedAt < |history|
    && (c.phase.AwaitingReply? || c.phase.Reloading? || c.phase.Confirming? || c.phase.Succeeded? ==>
          c.phase.verified.bundle == c.bundle && c.phase.verified.nextState == StateOf(c.bundle))
    && (c.phase.Succeeded? ==> InHistory(history, c.startedAt, c.phase.verified.nextState))
  }

  ghost predicate CallsInv(controllers: map<nat, Root>, history: seq<Option<DurableState>>, calls: map<nat, Call>) {
    forall c :: c in calls ==> CallInv(controllers, history, calls[c])
  }

  /** A commitment is that of a call which succeeded. */
  ghost predicate CommitmentInv(calls: map<nat, Call>, call: nat, m: Commitment) {
    && call in calls
    && calls[call].phase.Succeeded?
    && m == CommitmentFor(calls[call].controller, calls[call].phase.verified)
  }

  ghost predicate CommitmentsInv(calls: map<nat, Call>, commitments: map<nat, Commitment>) {
    forall c :: c in commitments ==> CommitmentInv(calls, c, commitments[c])
  }

  ghost predicate PermitsInv(commitments: map<nat, Commitment>, permits: map<nat, Permit>) {
    forall p :: p in permits ==> p in commitments && permits[p].commitment == commitments[p]
  }

  ghost predicate UseInv(stored: Option<StateSha256>, permits: map<nat, Permit>, consumed: set<nat>, fenced: bool, u: Use) {
    && (u.phase == Inside || u.phase == Operating <==> fenced)
    && (u.phase != Refused ==> u.permit in permits && permits[u.permit].commitment.controller == u.controller)
    && (u.phase == Operating ==> stored == Some(permits[u.permit].commitment.stateSha256))
    && (u.phase == Operating || u.phase.Finished? ==> u.permit in consumed)
  }

  ghost predicate UsesInv(
    stored: Option<StateSha256>, permits: map<nat, Permit>, consumed: set<nat>, fence: set<nat>, uses: map<nat, Use>)
  {
    && fence <= uses.Keys
    && consumed <= permits.Keys
    && forall u :: u in uses ==> UseInv(stored, permits, consumed, u in fence, uses[u])
  }

  ghost predicate Inv(w: World) {
    && StoreInv(w.store, w.history)
    && Chain(w.controllers, w.history)
    && RequestsInv(w.controllers, w.requests)
    && CallsInv(w.controllers, w.history, w.calls)
    && CommitmentsInv(w.calls, w.commitments)
    && PermitsInv(w.commitments, w.permits)
    && UsesInv(w.store.stateSha256, w.permits, w.consumed, w.fence, w.uses)
  }

  /** A store that is empty or holds a state committed earlier, and no activity yet. */
  ghost predicate Initial(w: World) {
    && NormalizeSnapshot(w.store).Some?
    && (w.store.state.Some? ==> Committed(w.store.state.value))
    && w.history == [w.store.state]
    && w.calls == map[] && w.requests == {} && w.fence == {} && w.commitments == map[] && w.permits == map[]
    && w.consumed == {} && w.uses == map[]
  }

  lemma InitialHolds(w: World)
    requires Initial(w)
    ensures Inv(w)
  {}

  // ---- every step keeps the invariant ----

  lemma CommitmentsKeptByPhase(calls: map<nat, Call>, commitments: map<nat, Commitment>, call: nat, changed: Call)
    requires CommitmentsInv(calls, commitments) && (call in calls ==> !calls[call].phase.Succeeded?)
    ensures CommitmentsInv(calls[call := changed], commitments) && call !in commitments
  {
    assert call in commitments ==> CommitmentInv(calls, call, commitments[call]);
    forall c | c in commitments ensures CommitmentInv(calls[call := changed], c, commitments[c]) {
      assert CommitmentInv(calls, c, commitments[c]);
    }
  }

  lemma PhaseKeepsInv(w: World, call: nat, phase: Phase)
    requires Inv(w) && call in w.calls && !Ended(w.calls[call].phase)
    requires CallInv(w.controllers, w.history, w.calls[call].(phase := phase))
    ensures Inv(SetPhase(w, call, phase))
  {
    CommitmentsKeptByPhase(w.calls, w.commitments, call, w.calls[call].(phase := phase));
  }

  lemma StartKeepsInv(w: World, call: nat, controller: nat, bundle: Bundle, purpose: Purpose)
    requires Inv(w)
    ensures Inv(StartStep(w, call, controller, bundle, purpose))
  {
    if call !in w.calls && controller in w.controllers {
      CommitmentsKeptByPhase(w.calls, w.commitments, call, Call(controller, bundle, purpose, |w.history| - 1, Loading));
    }
  }

  lemma LoadAndVerifyKeepsInv(w: World, call: nat, now: int)
    requires Inv(w)
    ensures Inv(LoadAndVerifyStep(w, call, now))
  {
    if call in w.calls && w.calls[call].phase == Loading && w.calls[call].controller in w.controllers {
      var c := w.calls[call];
      assert CallInv(w.controllers, w.history, c);
      var before := NormalizeSnapshot(w.store).value;
      match VerifyBundle(w.controllers[c.controller], c.bundle, now, before.state)
      case Err(e) => PhaseKeepsInv(w, call, Failed(BundleRefused(e)));
      case Ok(next) =>
        var v := Verified(c.bundle, next, before.stateSha256);
        NextStateIsBundle(w.controllers[c.controller], c.bundle, now, before.state);
        if before.stateSha256 == Some(StateSha256(next)) {
          PhaseKeepsInv(w, call, Confirming(v));
        } else {
          PhaseKeepsInv(w, call, AwaitingReply(v));
          assert VerifiedSuccessor(w.controllers, Content(before.stateSha256), next);
          assert RequestInv(w.controllers, InputFor(v));
        }
    }
  }

  /** A request that takes effect replaces the state it was verified against. */
  lemma RequestLinks(w: World, r: CasInput)
    requires Inv(w) && r in w.requests && w.store.stateSha256 == r.expectedStateSha256
    ensures Link(w.controllers, w.store.state, Some(r.nextState))
  {
    assert RequestInv(w.controllers, r);
    assert Content(r.expectedStateSha256) == w.store.state;
    if w.store.state.Some? {
      var c, b, now :| c in w.controllers && VerifyBundle(w.controllers[c], b, now, w.store.state) == Ok(r.nextState);
      assert Committed(w.history[|w.history| - 1].value);
      NextStateIsBundle(w.controllers[c], b, now, w.store.state);
      VerifiedStepSupersedes(w.controllers[c], b, now, w.store.state.value);
    }
  }

  lemma ChainExtends(controllers: map<nat, Root>, history: seq<Option<DurableState>>, next: Option<DurableState>)
    requires Chain(controllers, history) && |history| > 0 && Link(controllers, history[|history| - 1], next)
    ensures Chain(controllers, history + [next])
  {
    var longer := history + [next];
    forall i | 0 < i < |longer| ensures Link(controllers, longer[i - 1], longer[i]) {
      if i < |history| {
        assert Link(controllers, history[i - 1], history[i]);
      }
    }
  }

  lemma CallsKeptByExtension(
    controllers: map<nat, Root>, history: seq<Option<DurableState>>, next: Option<DurableState>, calls: map<nat, Call>)
    requires CallsInv(controllers, history, calls)
    ensures CallsInv(controllers, history + [next], calls)
  {
    forall c | c in calls ensures CallInv(controllers, history + [next], calls[c]) {
      assert CallInv(controllers, history, calls[c]);
      if calls[c].phase.Succeeded? {
        InHistoryExtends(history, next, calls[c].startedAt, calls[c].phase.verified.nextState);
      }
    }
  }

  lemma InHistoryExtends(history: seq<Option<DurableState>>, added: Option<DurableState>, from: nat, s: DurableState)
    requires InHistory(history, from, s)
    ensures InHistory(history + [added], from, s)
  {
    var k :| from <= k < |history| && history[k] == Some(s);
    assert (history + [added])[k] == Some(s);
  }

  /** With nobody inside the revision fence no operation depends on what the store holds. */
  lemma UsesKeptByWrite(w: World, written: Option<StateSha256>)
    requires UsesInv(w.store.stateSha256, w.permits, w.consumed, w.fence, w.uses) && w.fence == {}
    ensures UsesInv(written, w.permits, w.consumed, w.fence, w.uses)
  {
    forall u | u in w.uses ensures UseInv(written, w.permits, w.consumed, u in w.fence, w.uses[u]) {
      assert UseInv(w.store.stateSha256, w.permits, w.consumed, u in w.fence, w.uses[u]);
    }
  }

  lemma ApplyKeepsInv(w: World, input: CasInput)
    requires Inv(w)
    ensures Inv(ApplyStep(w, input))
  {
    if ApplyStep(w, input) != w {
      RequestLinks(w, input);
      assert RequestInv(w.controllers, input);
      ChainExtends(w.controllers, w.history, Some(input.nextState));
      CallsKeptByExtension(w.controllers, w.history, Some(input.nextState), w.calls);
      UsesKeptByWrite(w, Some(input.nextStateSha256));
    }
  }

  lemma ReplyKeepsInv(w: World, call: nat, receipt: Option<CasReceipt>)
    requires Inv(w)
    ensures Inv(ReplyStep(w, call, receipt))
  {
    if call in w.calls && w.calls[call].phase.AwaitingReply? {
      assert CallInv(w.controllers, w.history, w.calls[call]);
      var v := w.calls[call].phase.verified;
      PhaseKeepsInv(w, call, if ReceiptSettles(v, receipt) then Confirming(v) else Reloading(v));
    }
  }

  lemma ReloadKeepsInv(w: World, call: nat)
    requires Inv(w)
    ensures Inv(ReloadStep(w, call))
  {
    if call in w.calls && w.calls[call].phase.Reloading? {
      assert CallInv(w.controllers, w.history, w.calls[call]);
      var v := w.calls[call].phase.verified;
      PhaseKeepsInv(w, call,
        if w.store.stateSha256 == Some(StateSha256(v.nextState)) then Confirming(v) else Failed(CasConflict));
    }
  }

  lemma ConfirmKeepsInv(w: World, call: nat, tuple: Option<string>)
    requires Inv(w)
    ensures Inv(ConfirmStep(w, call, tuple))
  {
    if call in w.calls && w.calls[call].phase.Confirming? {
      var c := w.calls[call];
      assert CallInv(w.controllers, w.history, c);
      var v := c.phase.verified;
      if !CommittedExactly(v, w.store) {
        PhaseKeepsInv(w, call, Failed(NotCommittedExactly));
      } else if c.purpose.IssuePermit? && tuple.None? {
        PhaseKeepsInv(w, call, Failed(TupleRefused));
      } else {
        RegistrationKeepsInv(w, call, tuple);
      }
    }
  }

  lemma ConfirmedIsDurable(w: World, call: nat)
    requires Inv(w) && call in w.calls && w.calls[call].phase.Confirming?
    requires CommittedExactly(w.calls[call].phase.verified, w.store)
    ensures CallInv(w.controllers, w.history, w.calls[call].(phase := Succeeded(w.calls[call].phase.verified)))
  {
    var c := w.calls[call];
    assert CallInv(w.controllers, w.history, c);
    assert w.history[|w.history| - 1] == Some(c.phase.verified.nextState);
  }

  lemma RegistrationKeepsCalls(w: World, call: nat, tuple: Option<string>)
    requires Inv(w) && call in w.calls && w.calls[call].phase.Confirming?
    requires CommittedExactly(w.calls[call].phase.verified, w.store)
    ensures CallsInv(w.controllers, w.history, Registered(w, call, tuple).calls)
  {
    ConfirmedIsDurable(w, call);
  }

  lemma RegistrationKeepsRegistries(w: World, call: nat, tuple: Option<string>)
    requires CommitmentsInv(w.calls, w.commitments) && PermitsInv(w.commitments, w.permits)
    requires call in w.calls && w.calls[call].phase.Confirming?
    ensures
      var x := Registered(w, call, tuple);
      && CommitmentsInv(x.calls, x.commitments) && PermitsInv(x.commitments, x.permits)
      && forall p :: p in w.permits ==> p in x.permits && x.permits[p] == w.permits[p]
  {
    CommitmentsKeptByPhase(w.calls, w.commitments, call, Registered(w, call, tuple).calls[call]);
  }

  lemma RegistrationKeepsInv(w: World, call: nat, tuple: Option<string>)
    requires Inv(w) && call in w.calls && w.calls[call].phase.Confirming?
    requires CommittedExactly(w.calls[call].phase.verified, w.store)
    ensures Inv(Registered(w, call, tuple))
  {
    RegistrationKeepsCalls(w, call, tuple);
    RegistrationKeepsRegistries(w, call, tuple);
    UsesKeptByPermit(w, Registered(w, call, tuple).permits);
  }

  lemma UsesKeptByPermit(w: World, permits: map<nat, Permit>)
    requires UsesInv(w.store.stateSha256, w.permits, w.consumed, w.fence, w.uses)
    requires forall p :: p in w.permits ==> p in permits && permits[p] == w.permits[p]
    ensures UsesInv(w.store.stateSha256, permits, w.consumed, w.fence, w.uses)
  {
    forall u | u in w.uses ensures UseInv(w.store.stateSha256, permits, w.consumed, u in w.fence, w.uses[u]) {
      assert UseInv(w.store.stateSha256, w.permits, w.consumed, u in w.fence, w.uses[u]);
    }
  }

  lemma AbortKeepsInv(w: World, call: nat)
    requires Inv(w)
    ensures Inv(AbortStep(w, call))
  {
    if call in w.calls && !Ended(w.calls[call].phase) {
      assert CallInv(w.controllers, w.history, w.calls[call]);
      PhaseKeepsInv(w, call, Failed(StoreFailed));
    }
  }

  lemma UsesKeptByUse(w: World, use: nat, u: Use, fence: set<nat>, consumed: set<nat>)
    requires UsesInv(w.store.stateSha256, w.permits, w.consumed, w.fence, w.uses)
    requires w.consumed <= consumed <= w.permits.Keys && fence <= w.uses.Keys + {use}
    requires forall v :: v != use ==> (v in fence <==> v in w.fence)
    requires UseInv(w.store.stateSha256, w.permits, consumed, use in fence, u)
    ensures UsesInv(w.store.stateSha256, w.permits, consumed, fence, w.uses[use := u])
  {
    forall v | v in w.uses && v != use ensures UseInv(w.store.stateSha256, w.permits, consumed, v in fence, w.uses[v]) {
      assert UseInv(w.store.stateSha256, w.permits, w.consumed, v in w.fence, w.uses[v]);
    }
  }

  /** Changing one use, its place in the fence and possibly consuming permits. */
  lemma UseKeepsInv(w: World, use: nat, u: Use, fence: set<nat>, consumed: set<nat>)
    requires Inv(w) && w.consumed <= consumed <= w.permits.Keys && fence <= w.uses.Keys + {use}
    requires forall v :: v != use ==> (v in fence <==> v in w.fence)
    requires UseInv(w.store.stateSha256, w.permits, consumed, use in fence, u)
    ensures Inv(w.(uses := w.uses[use := u], fence := fence, consumed := consumed))
  {
    UsesKeptByUse(w, use, u, fence, consumed);
  }

  lemma UseStartKeepsInv(w: World, use: nat, controller: nat, permit: nat)
    requires Inv(w)
    ensures Inv(UseStartStep(w, use, controller, permit))
  {
    if use !in w.uses {
      var u := Use(controller, permit, if PermitIsCurrent(w, controller, permit) then Asserted else Refused);
      UseKeepsInv(w, use, u, w.fence, w.consumed);
    }
  }

  lemma UseEnterKeepsInv(w: World, use: nat)
    requires Inv(w)
    ensures Inv(UseEnterStep(w, use))
  {
    if use in w.uses && w.uses[use].phase == Asserted {
      assert UseInv(w.store.stateSha256, w.permits, w.consumed, use in w.fence, w.uses[use]);
      UseKeepsInv(w, use, w.uses[use].(phase := Inside), w.fence + {use}, w.consumed);
    }
  }

  lemma UseRefusedKeepsInv(w: World, use: nat)
    requires Inv(w) && use in w.uses
    ensures Inv(SetUse(w, use, Refused).(fence := w.fence - {use}))
  {
    UseKeepsInv(w, use, w.uses[use].(phase := Refused), w.fence - {use}, w.consumed);
  }

  lemma UseOperatesKeepsInv(w: World, use: nat, p: nat)
    requires Inv(w) && use in w.uses && w.uses[use].phase == Inside && w.uses[use].permit == p
    requires p in w.permits && Holds(w.store, w.permits[p].commitment.stateSha256)
    ensures Inv(SetUse(w, use, Operating).(consumed := w.consumed + {p}))
  {
    assert UseInv(w.store.stateSha256, w.permits, w.consumed, use in w.fence, w.uses[use]);
    UseKeepsInv(w, use, w.uses[use].(phase := Operating), w.fence, w.consumed + {p});
  }

  lemma UseLoadKeepsInv(w: World, use: nat)
    requires Inv(w)
    ensures Inv(UseLoadStep(w, use))
  {
    if use in w.uses && w.uses[use].phase == Inside && w.uses[use].permit in w.permits {
      var p := w.uses[use].permit;
      if Holds(w.store, w.permits[p].commitment.stateSha256) {
        UseOperatesKeepsInv(w, use, p);
      } else {
        UseRefusedKeepsInv(w, use);
      }
    }
  }

  lemma UseEndKeepsInv(w: World, use: nat, threw: bool)
    requires Inv(w)
    ensures Inv(UseEndStep(w, use, threw))
  {
    if use in w.uses && w.uses[use].phase == Operating {
      assert UseInv(w.store.stateSha256, w.permits, w.consumed, use in w.fence, w.uses[use]);
      UseKeepsInv(w, use, w.uses[use].(phase := Finished(threw)), w.fence - {use}, w.consumed);
    }
  }

  lemma UseAbortKeepsInv(w: World, use: nat)
    requires Inv(w)
    ensures Inv(UseAbortStep(w, use))
  {
    if use in w.uses {
      UseRefusedKeepsInv(w, use);
    }
  }

  lemma StepKeepsInv(w: World, e: Event)
    requires Inv(w)
    ensures Inv(Step(w, e))
  {
    match e
    case Start(call, controller, bundle, purpose) => StartKeepsInv(w, call, controller, bundle, purpose);
    case LoadAndVerify(call, now) => LoadAndVerifyKeepsInv(w, call, now);
    case Apply(input) => ApplyKeepsInv(w, input);
    case Reply(call, receipt) => ReplyKeepsInv(w, call, receipt);
    case Reload(call) => ReloadKeepsInv(w, call);
    case Confirm(call, tuple) => ConfirmKeepsInv(w, call, tuple);
    case Abort(call) => AbortKeepsInv(w, call);
    case UseStart(use, controller, permit) => UseStartKeepsInv(w, use, controller, permit);
    case UseEnter(use) => UseEnterKeepsInv(w, use);
    case UseLoad(use) => UseLoadKeepsInv(w, use);
    case UseEnd(use, threw) => UseEndKeepsInv(w, use, threw);
    case UseAbort(use) => UseAbortKeepsInv(w, use);
  }

  lemma {:induction false} RunKeepsInv(w: World, events: seq<Event>)
    requires Inv(w)
    ensures Inv(Run(w, events))
    decreases |events|
  {
    if events == [] {
    } else {
      StepKeepsInv(w, events[0]);
      RunKeepsInv(Step(w, events[0]), events[1..]);
    }
  }
}
