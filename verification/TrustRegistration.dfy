/** Which commitments and permits come into being, what they name, and which uses they admit. */
module TrustRegistration {
  import opened Foundations
  import opened Runs
  import opened TrustBundle
  import opened TrustAcceptance
  import opened TrustProtocol
  import opened TrustSafety
  import opened TrustOrigins

  /** The commitment names the controller, the bundle and the state of its call, entry by entry. */
  predicate Names(m: Commitment, c: Call) {
    && m.controller == c.controller && m.bundleSha256.content == c.bundle
    && m.generation == c.bundle.generation && m.revocationEpoch == c.bundle.revocationEpoch
    && Spells(m.stateSha256.content, c.bundle)
  }

  predicate Issued(calls: map<nat, Call>, call: nat) {
    call in calls && calls[call].phase.Succeeded? && calls[call].purpose.IssuePermit?
  }

  // ---- one registration ----

  lemma NamesItsCall(controllers: map<nat, Root>, history: seq<Option<DurableState>>, c: Call)
    requires CallInv(controllers, history, c) && c.phase.Confirming?
    ensures Names(CommitmentFor(c.controller, c.phase.verified), c)
  {}

  lemma RegisteredAdds(w: World, call: nat, tuple: Option<string>)
    requires call in w.calls && w.calls[call].phase.Confirming? && (w.calls[call].purpose.IssuePermit? ==> tuple.Some?)
    ensures
      var x := Registered(w, call, tuple);
      var m := CommitmentFor(w.calls[call].controller, w.calls[call].phase.verified);
      && call in x.calls && SameCall(w.calls[call], x.calls[call]) && x.calls[call].phase.Succeeded?
      && x.commitments == w.commitments[call := m]
      && x.permits == if w.calls[call].purpose.IssuePermit? then w.permits[call := Permit(m, tuple.value)] else w.permits
  {}

  lemma FailedAdds(w: World, call: nat, error: CallError)
    requires call in w.calls
    ensures
      var x := SetPhase(w, call, Failed(error));
      && call in x.calls && SameCall(w.calls[call], x.calls[call]) && !x.calls[call].phase.Succeeded?
      && x.commitments == w.commitments && x.permits == w.permits
  {}

  lemma ConfirmEither(w: World, call: nat, tuple: Option<string>)
    requires call in w.calls && w.calls[call].phase.Confirming?
    ensures
      || (ConfirmStep(w, call, tuple) == Registered(w, call, tuple) && (w.calls[call].purpose.IssuePermit? ==> tuple.Some?))
      || (exists error :: ConfirmStep(w, call, tuple) == SetPhase(w, call, Failed(error)))
  {}

  /**
   The last step of a call: when it succeeds it adds the commitment of its bundle and, for a call that issues a permit,
   the permit with the tuple granted; every other entry stays, and an unsuccessful step registers nothing.
   */
  lemma ConfirmRegisters(w: World, call: nat, tuple: Option<string>)
    requires Inv(w) && call in w.calls && w.calls[call].phase.Confirming?
    ensures
      var x := ConfirmStep(w, call, tuple);
      var c := w.calls[call];
      && call in x.calls && SameCall(c, x.calls[call])
      && if x.calls[call].phase.Succeeded?
         then
           && call in x.commitments && Names(x.commitments[call], c)
           && x.commitments == w.commitments[call := x.commitments[call]]
           && (c.purpose.IssuePermit? ==>
                 tuple.Some? && x.permits == w.permits[call := Permit(x.commitments[call], tuple.value)])
           && (c.purpose.Prepare? ==> x.permits == w.permits)
         else x.commitments == w.commitments && x.permits == w.permits
  {
    NamesItsCall(w.controllers, w.history, w.calls[call]);
    ConfirmEither(w, call, tuple);
    if error :| ConfirmStep(w, call, tuple) == SetPhase(w, call, Failed(error)) {
      FailedAdds(w, call, error);
    } else {
      RegisteredAdds(w, call, tuple);
    }
  }

  /** A first use of the permit just issued passes its check exactly for the controller the call belonged to. */
  lemma IssuedPermitIsAsserted(w: World, call: nat, tuple: Option<string>, use: nat, controller: nat)
    requires Inv(w) && call in w.calls && w.calls[call].phase.Confirming? && w.calls[call].purpose.IssuePermit?
    requires Step(w, Confirm(call, tuple)).calls[call].phase.Succeeded? && use !in w.uses
    ensures
      var y := Step(Step(w, Confirm(call, tuple)), UseStart(use, controller, call));
      use in y.uses && y.uses[use] == Use(controller, call, if controller == w.calls[call].controller then Asserted else Refused)
  {
    ConfirmRegisters(w, call, tuple);
    ConfirmingHasNoPermit(w, call);
    ConfirmFrame(w, call, tuple);
  }

  // ---- the registries of a whole run ----

  /** Exactly the successful calls have a commitment, and exactly those that issue a permit have one. */
  ghost predicate RegistriesExact(w: World) {
    && (forall c :: c in w.commitments <==> c in w.calls && w.calls[c].phase.Succeeded?)
    && (forall c :: c in w.permits <==> Issued(w.calls, c))
  }

  /** A permit is consumed exactly when some use of it began its operation. */
  ghost predicate ConsumedExact(consumed: set<nat>, uses: map<nat, Use>) {
    forall p :: p in consumed ==> exists u :: u in uses && uses[u].permit == p && Began(uses[u].phase)
  }

  predicate Began(p: UsePhase) { p == Operating || p.Finished? }

  ghost predicate SameRegistries(w: World, x: World) {
    x.commitments == w.commitments && x.permits == w.permits
  }

  ghost predicate SameUses(w: World, x: World) {
    x.consumed == w.consumed && x.uses == w.uses
  }

  /** No call begins or ceases to be successful. */
  ghost predicate SameSuccess(before: map<nat, Call>, after: map<nat, Call>) {
    forall c :: (c in before && before[c].phase.Succeeded? <==> c in after && after[c].phase.Succeeded?)
                && (c in before && before[c].phase.Succeeded? ==> SameCall(before[c], after[c]))
  }

  lemma QuietKeepsRegistries(w: World, x: World)
    requires RegistriesExact(w) && SameRegistries(w, x) && SameSuccess(w.calls, x.calls)
    ensures RegistriesExact(x)
  {}

  lemma UnendedKeepsSuccess(before: map<nat, Call>, after: map<nat, Call>, call: nat)
    requires PhaseOnly(before, after, call)
    requires after != before ==> !before[call].phase.Succeeded? && !after[call].phase.Succeeded?
    ensures SameSuccess(before, after)
  {}

  lemma UnendedKeepsExact(w: World, x: World, call: nat)
    requires RegistriesExact(w) && SameRegistries(w, x) && PhaseOnly(w.calls, x.calls, call)
    requires x.calls != w.calls ==> !w.calls[call].phase.Succeeded? && !x.calls[call].phase.Succeeded?
    ensures RegistriesExact(x)
  {
    UnendedKeepsSuccess(w.calls, x.calls, call);
    QuietKeepsRegistries(w, x);
  }

  lemma StartRegisters(w: World, call: nat, controller: nat, bundle: Bundle, purpose: Purpose)
    ensures SameRegistries(w, StartStep(w, call, controller, bundle, purpose))
    ensures SameUses(w, StartStep(w, call, controller, bundle, purpose))
    ensures StartStep(w, call, controller, bundle, purpose).fence == w.fence
    ensures SameSuccess(w.calls, StartStep(w, call, controller, bundle, purpose).calls)
  {}

  lemma LoadRegisters(w: World, call: nat, now: int)
    ensures
      var x := LoadAndVerifyStep(w, call, now);
      && SameRegistries(w, x) && SameUses(w, x) && x.fence == w.fence
      && (x.calls != w.calls ==>
            call in w.calls && call in x.calls && !w.calls[call].phase.Succeeded? && !x.calls[call].phase.Succeeded?)
  {}

  lemma ApplyRegisters(w: World, input: CasInput)
    ensures
      var x := ApplyStep(w, input);
      SameRegistries(w, x) && SameUses(w, x) && x.fence == w.fence && x.calls == w.calls
  {}

  lemma ReplyRegisters(w: World, call: nat, receipt: Option<CasReceipt>)
    ensures
      var x := ReplyStep(w, call, receipt);
      && SameRegistries(w, x) && SameUses(w, x) && x.fence == w.fence
      && (x.calls != w.calls ==>
            call in w.calls && call in x.calls && !w.calls[call].phase.Succeeded? && !x.calls[call].phase.Succeeded?)
  {}

  lemma ReloadRegisters(w: World, call: nat)
    ensures
      var x := ReloadStep(w, call);
      && SameRegistries(w, x) && SameUses(w, x) && x.fence == w.fence
      && (x.calls != w.calls ==>
            call in w.calls && call in x.calls && !w.calls[call].phase.Succeeded? && !x.calls[call].phase.Succeeded?)
  {}

  lemma AbortRegisters(w: World, call: nat)
    ensures
      var x := AbortStep(w, call);
      && SameRegistries(w, x) && SameUses(w, x) && x.fence == w.fence
      && (x.calls != w.calls ==>
            call in w.calls && call in x.calls && !w.calls[call].phase.Succeeded? && !x.calls[call].phase.Succeeded?)
  {}

  lemma UsesRegister(w: World, e: Event)
    requires e.UseStart? || e.UseEnter? || e.UseLoad? || e.UseEnd? || e.UseAbort?
    ensures SameRegistries(w, Step(w, e)) && Step(w, e).calls == w.calls
  {}

  /** Success adds an entry of this call to the registries it belongs in; failure adds nothing. */
  ghost predicate AddsOne(w: World, x: World, call: nat)
    requires call in x.calls
  {
    if x.calls[call].phase.Succeeded?
    then
      && call in x.commitments && x.commitments == w.commitments[call := x.commitments[call]]
      && (if x.calls[call].purpose.IssuePermit? then call in x.permits && x.permits == w.permits[call := x.permits[call]]
          else x.permits == w.permits)
    else SameRegistries(w, x)
  }

  lemma ConfirmAddsOne(w: World, call: nat, tuple: Option<string>)
    requires call in w.calls && w.calls[call].phase.Confirming?
    ensures call in ConfirmStep(w, call, tuple).calls && AddsOne(w, ConfirmStep(w, call, tuple), call)
  {
    ConfirmEither(w, call, tuple);
    if error :| ConfirmStep(w, call, tuple) == SetPhase(w, call, Failed(error)) {
      FailedAdds(w, call, error);
    } else {
      RegisteredAdds(w, call, tuple);
    }
  }

  lemma ConfirmKeepsExact(w: World, call: nat, tuple: Option<string>)
    requires Inv(w) && RegistriesExact(w) && call in w.calls && w.calls[call].phase.Confirming?
    ensures RegistriesExact(ConfirmStep(w, call, tuple))
  {
    ConfirmAddsOne(w, call, tuple);
    ConfirmPhase(w, call, tuple);
    OneMore(w, ConfirmStep(w, call, tuple), call);
  }

  lemma OneMore(w: World, x: World, call: nat)
    requires RegistriesExact(w) && PhaseOnly(w.calls, x.calls, call)
    requires call in w.calls && !w.calls[call].phase.Succeeded? && call in x.calls && AddsOne(w, x, call)
    ensures RegistriesExact(x)
  {}

  lemma StartKeepsExact(w: World, call: nat, controller: nat, bundle: Bundle, purpose: Purpose)
    requires RegistriesExact(w)
    ensures RegistriesExact(StartStep(w, call, controller, bundle, purpose))
  {
    StartRegisters(w, call, controller, bundle, purpose);
    QuietKeepsRegistries(w, StartStep(w, call, controller, bundle, purpose));
  }

  lemma LoadKeepsExact(w: World, call: nat, now: int)
    requires RegistriesExact(w)
    ensures RegistriesExact(LoadAndVerifyStep(w, call, now))
  {
    LoadRegisters(w, call, now);
    LoadPhase(w, call, now);
    UnendedKeepsExact(w, LoadAndVerifyStep(w, call, now), call);
  }

  lemma ReplyKeepsExact(w: World, call: nat, receipt: Option<CasReceipt>)
    requires RegistriesExact(w)
    ensures RegistriesExact(ReplyStep(w, call, receipt))
  {
    ReplyRegisters(w, call, receipt);
    ReplyPhase(w, call, receipt);
    UnendedKeepsExact(w, ReplyStep(w, call, receipt), call);
  }

  lemma ReloadKeepsExact(w: World, call: nat)
    requires RegistriesExact(w)
    ensures RegistriesExact(ReloadStep(w, call))
  {
    ReloadRegisters(w, call);
    ReloadPhase(w, call);
    UnendedKeepsExact(w, ReloadStep(w, call), call);
  }

  lemma AbortKeepsExact(w: World, call: nat)
    requires RegistriesExact(w)
    ensures RegistriesExact(AbortStep(w, call))
  {
    AbortRegisters(w, call);
    AbortPhase(w, call);
    UnendedKeepsExact(w, AbortStep(w, call), call);
  }

  lemma SameCallsKeepExact(w: World, x: World)
    requires RegistriesExact(w) && SameRegistries(w, x) && x.calls == w.calls
    ensures RegistriesExact(x)
  {}

  lemma ConfirmIdle(w: World, call: nat, tuple: Option<string>)
    requires call !in w.calls || !w.calls[call].phase.Confirming?
    ensures ConfirmStep(w, call, tuple) == w
  {}

  lemma StepKeepsExact(w: World, e: Event)
    requires Inv(w) && RegistriesExact(w)
    ensures RegistriesExact(Step(w, e))
  {
    match e
    case Start(call, controller, bundle, purpose) => StartKeepsExact(w, call, controller, bundle, purpose);
    case LoadAndVerify(call, now) => LoadKeepsExact(w, call, now);
    case Apply(input) =>
      ApplyRegisters(w, input);
      SameCallsKeepExact(w, ApplyStep(w, input));
    case Reply(call, receipt) => ReplyKeepsExact(w, call, receipt);
    case Reload(call) => ReloadKeepsExact(w, call);
    case Confirm(call, tuple) =>
      if call in w.calls && w.calls[call].phase.Confirming? {
        ConfirmKeepsExact(w, call, tuple);
      } else {
        ConfirmIdle(w, call, tuple);
      }
    case Abort(call) => AbortKeepsExact(w, call);
    case _ =>
      UsesRegister(w, e);
      SameCallsKeepExact(w, Step(w, e));
  }

  lemma {:induction false} RunKeepsExact(w: World, events: seq<Event>)
    requires Inv(w) && RegistriesExact(w)
    ensures RegistriesExact(Run(w, events))
    decreases |events|
  {
    if events == [] {
    } else {
      StepKeepsExact(w, events[0]);
      StepKeepsInv(w, events[0]);
      RunKeepsExact(Step(w, events[0]), events[1..]);
    }
  }

  // ---- the tuple of a permit ----

  lemma ConfirmGrants(w: World, call: nat, tuple: Option<string>, p: nat)
    requires p in ConfirmStep(w, call, tuple).permits
    ensures
      || (p in w.permits && ConfirmStep(w, call, tuple).permits[p] == w.permits[p])
      || (p == call && tuple == Some(ConfirmStep(w, call, tuple).permits[p].tuple))
  {
    if call in w.calls && w.calls[call].phase.Confirming? {
      ConfirmEither(w, call, tuple);
      if error :| ConfirmStep(w, call, tuple) == SetPhase(w, call, Failed(error)) {
        FailedAdds(w, call, error);
      } else {
        RegisteredAdds(w, call, tuple);
      }
    } else {
      ConfirmIdle(w, call, tuple);
    }
  }

  lemma StepGrants(w: World, e: Event, p: nat)
    requires Inv(w) && p in Step(w, e).permits
    ensures
      || (p in w.permits && Step(w, e).permits[p] == w.permits[p])
      || e == Confirm(p, Some(Step(w, e).permits[p].tuple))
  {
    match e
    case Start(call, controller, bundle, purpose) => StartRegisters(w, call, controller, bundle, purpose);
    case LoadAndVerify(call, now) => LoadRegisters(w, call, now);
    case Apply(input) => ApplyRegisters(w, input);
    case Reply(call, receipt) => ReplyRegisters(w, call, receipt);
    case Reload(call) => ReloadRegisters(w, call);
    case Confirm(call, tuple) => ConfirmGrants(w, call, tuple, p);
    case Abort(call) => AbortRegisters(w, call);
    case _ => UsesRegister(w, e);
  }

  lemma {:induction false} TupleWasGranted(w: World, events: seq<Event>, p: nat)
    requires Inv(w) && p in Run(w, events).permits
    ensures
      || (p in w.permits && Run(w, events).permits[p] == w.permits[p])
      || Confirm(p, Some(Run(w, events).permits[p].tuple)) in events
    decreases |events|
  {
    if events == [] {
    } else {
      var x := Step(w, events[0]);
      StepKeepsInv(w, events[0]);
      TupleWasGranted(x, events[1..], p);
      if p in x.permits && Run(x, events[1..]).permits[p] == x.permits[p] {
        StepGrants(w, events[0], p);
      }
    }
  }

  lemma CommitmentNames(w: World, c: nat)
    requires Inv(w) && c in w.commitments
    ensures c in w.calls && Names(w.commitments[c], w.calls[c])
  {
    assert CommitmentInv(w.calls, c, w.commitments[c]);
    assert CallInv(w.controllers, w.history, w.calls[c]);
  }

  /**
   After any run from an initial store exactly the successful calls have a commitment and exactly those of them that
   issue a permit have a permit. Each names its call's controller, bundle and state, and the permit carries the tuple
   its confirmation granted.
   */
  lemma PermitsAreExactlyIssued(w: World, events: seq<Event>, p: nat)
    requires Initial(w)
    ensures
      var x := Run(w, events);
      && (p in x.commitments <==> p in x.calls && x.calls[p].phase.Succeeded?)
      && (p in x.permits <==> Issued(x.calls, p))
      && (p in x.commitments ==> Names(x.commitments[p], x.calls[p]))
      && (p in x.permits ==>
            x.permits[p].commitment == x.commitments[p] && Confirm(p, Some(x.permits[p].tuple)) in events)
  {
    InitialHolds(w);
    RunKeepsExact(w, events);
    RunKeepsInv(w, events);
    var x := Run(w, events);
    if p in x.permits {
      TupleWasGranted(w, events, p);
    }
    if p in x.commitments {
      CommitmentNames(x, p);
    }
  }

  // ---- consumption ----

  ghost predicate KeepsBegun(before: map<nat, Use>, after: map<nat, Use>) {
    forall u :: u in before && Began(before[u].phase) ==>
      u in after && after[u].permit == before[u].permit && Began(after[u].phase)
  }

  lemma CallsKeepUses(w: World, e: Event)
    requires Inv(w)
    requires e.Start? || e.LoadAndVerify? || e.Apply? || e.Reply? || e.Reload? || e.Confirm? || e.Abort?
    ensures SameUses(w, Step(w, e))
  {
    match e
    case Start(call, controller, bundle, purpose) => StartRegisters(w, call, controller, bundle, purpose);
    case LoadAndVerify(call, now) => LoadRegisters(w, call, now);
    case Apply(input) => ApplyRegisters(w, input);
    case Reply(call, receipt) => ReplyRegisters(w, call, receipt);
    case Reload(call) => ReloadRegisters(w, call);
    case Confirm(call, tuple) => ConfirmFrame(w, call, tuple);
    case Abort(call) => AbortRegisters(w, call);
  }

  lemma UseStartKeepsConsumed(w: World, use: nat, controller: nat, permit: nat)
    requires ConsumedExact(w.consumed, w.uses)
    ensures ConsumedExact(UseStartStep(w, use, controller, permit).consumed, UseStartStep(w, use, controller, permit).uses)
  {
    BegunStays(w, UseStartStep(w, use, controller, permit));
  }

  lemma BegunStays(w: World, x: World)
    requires ConsumedExact(w.consumed, w.uses) && KeepsBegun(w.uses, x.uses) && x.consumed == w.consumed
    ensures ConsumedExact(x.consumed, x.uses)
  {
    forall p | p in x.consumed ensures exists u :: u in x.uses && x.uses[u].permit == p && Began(x.uses[u].phase) {
      var u :| u in w.uses && w.uses[u].permit == p && Began(w.uses[u].phase);
      assert u in x.uses && x.uses[u].permit == p && Began(x.uses[u].phase);
    }
  }

  lemma UseEnterKeepsConsumed(w: World, use: nat)
    requires ConsumedExact(w.consumed, w.uses)
    ensures ConsumedExact(UseEnterStep(w, use).consumed, UseEnterStep(w, use).uses)
  {
    BegunStays(w, UseEnterStep(w, use));
  }

  lemma UseEndKeepsConsumed(w: World, use: nat, threw: bool)
    requires ConsumedExact(w.consumed, w.uses)
    ensures ConsumedExact(UseEndStep(w, use, threw).consumed, UseEndStep(w, use, threw).uses)
  {
    BegunStays(w, UseEndStep(w, use, threw));
  }

  lemma UseAbortKeepsConsumed(w: World, use: nat)
    requires ConsumedExact(w.consumed, w.uses)
    ensures ConsumedExact(UseAbortStep(w, use).consumed, UseAbortStep(w, use).uses)
  {
    BegunStays(w, UseAbortStep(w, use));
  }

  lemma UseLoadKeepsConsumed(w: World, use: nat)
    requires ConsumedExact(w.consumed, w.uses)
    ensures ConsumedExact(UseLoadStep(w, use).consumed, UseLoadStep(w, use).uses)
  {
    var x := UseLoadStep(w, use);
    if x.consumed == w.consumed {
      BegunStays(w, x);
    } else {
      forall p | p in x.consumed ensures exists u :: u in x.uses && x.uses[u].permit == p && Began(x.uses[u].phase) {
        if p in w.consumed {
          var u :| u in w.uses && w.uses[u].permit == p && Began(w.uses[u].phase);
          assert u in x.uses && x.uses[u].permit == p && Began(x.uses[u].phase);
        } else {
          assert use in x.uses && x.uses[use].permit == p && Began(x.uses[use].phase);
        }
      }
    }
  }

  lemma StepKeepsConsumed(w: World, e: Event)
    requires Inv(w) && ConsumedExact(w.consumed, w.uses)
    ensures ConsumedExact(Step(w, e).consumed, Step(w, e).uses)
  {
    match e
    case UseStart(use, controller, permit) => UseStartKeepsConsumed(w, use, controller, permit);
    case UseEnter(use) => UseEnterKeepsConsumed(w, use);
    case UseLoad(use) => UseLoadKeepsConsumed(w, use);
    case UseEnd(use, threw) => UseEndKeepsConsumed(w, use, threw);
    case UseAbort(use) => UseAbortKeepsConsumed(w, use);
    case _ => CallsKeepUses(w, e);
  }

  lemma {:induction false} RunKeepsConsumed(w: World, events: seq<Event>)
    requires Inv(w) && ConsumedExact(w.consumed, w.uses)
    ensures ConsumedExact(Run(w, events).consumed, Run(w, events).uses)
    decreases |events|
  {
    if events == [] {
    } else {
      StepKeepsConsumed(w, events[0]);
      StepKeepsInv(w, events[0]);
      RunKeepsConsumed(Step(w, events[0]), events[1..]);
    }
  }

  ghost predicate SomeUseBegan(uses: map<nat, Use>, permit: nat) {
    exists u :: u in uses && uses[u].permit == permit && Began(uses[u].phase)
  }

  /**
   After any run from an initial store a new use passes the permit check exactly when the permit is that of a successful
   issuing call of the same controller and no use of it has begun its operation.
   */
  lemma CheckedIff(w: World, events: seq<Event>, use: nat, controller: nat, permit: nat)
    requires Initial(w) && use !in Run(w, events).uses
    ensures
      var x := Run(w, events);
      var y := Step(x, UseStart(use, controller, permit));
      && use in y.uses && y.uses[use].controller == controller && y.uses[use].permit == permit
      && y.uses[use].phase ==
           if Issued(x.calls, permit) && x.calls[permit].controller == controller && !SomeUseBegan(x.uses, permit)
           then Asserted else Refused
  {
    InitialHolds(w);
    PermitsAreExactlyIssued(w, events, permit);
    RunKeepsConsumed(w, events);
    RunKeepsInv(w, events);
    var x := Run(w, events);
    ConsumedIff(x, permit);
    PermitIsCalls(x, permit);
  }

  lemma ConsumedIff(x: World, permit: nat)
    requires Inv(x) && ConsumedExact(x.consumed, x.uses)
    ensures permit in x.consumed <==> SomeUseBegan(x.uses, permit)
  {
    if SomeUseBegan(x.uses, permit) {
      var u :| u in x.uses && x.uses[u].permit == permit && Began(x.uses[u].phase);
      assert UseInv(x.store.stateSha256, x.permits, x.consumed, u in x.fence, x.uses[u]);
    }
  }

  lemma PermitIsCalls(x: World, permit: nat)
    requires Inv(x)
    ensures permit in x.permits ==> permit in x.calls && x.permits[permit].commitment.controller == x.calls[permit].controller
  {
    if permit in x.permits {
      assert CommitmentInv(x.calls, permit, x.commitments[permit]);
    }
  }

  // ---- since when a committed state was durable ----

  lemma PhaseOnlyStays(before: map<nat, Call>, after: map<nat, Call>, call: nat, c: nat)
    requires PhaseOnly(before, after, call) && c in before
    ensures c in after && SameCall(before[c], after[c])
  {}

  lemma StepKeepsCall(w: World, e: Event, c: nat)
    requires c in w.calls
    ensures c in Step(w, e).calls && SameCall(w.calls[c], Step(w, e).calls[c])
  {
    match e
    case Start(_, _, _, _) =>
    case LoadAndVerify(call, now) =>
      LoadPhase(w, call, now);
      PhaseOnlyStays(w.calls, LoadAndVerifyStep(w, call, now).calls, call, c);
    case Confirm(call, tuple) =>
      ConfirmPhase(w, call, tuple);
      PhaseOnlyStays(w.calls, ConfirmStep(w, call, tuple).calls, call, c);
    case Reply(call, receipt) =>
      ReplyPhase(w, call, receipt);
      PhaseOnlyStays(w.calls, ReplyStep(w, call, receipt).calls, call, c);
    case Reload(call) =>
      ReloadPhase(w, call);
      PhaseOnlyStays(w.calls, ReloadStep(w, call).calls, call, c);
    case Abort(call) =>
      AbortPhase(w, call);
      PhaseOnlyStays(w.calls, AbortStep(w, call).calls, call, c);
    case _ => UsesKeepCalls(w, e);
  }

  lemma {:induction false} RunKeepsCall(w: World, events: seq<Event>, c: nat)
    requires c in w.calls
    ensures c in Run(w, events).calls && SameCall(w.calls[c], Run(w, events).calls[c])
    decreases |events|
  {
    if events != [] {
      StepKeepsCall(w, events[0], c);
      RunKeepsCall(Step(w, events[0]), events[1..], c);
    }
  }

  /**
   From the moment a call starts, whatever else runs: if it ever registers a commitment, the state named was the durable
   state then or became it since.
   */
  lemma CommittedSinceStart(
    w: World, call: nat, controller: nat, bundle: Bundle, purpose: Purpose, events: seq<Event>)
    requires Inv(w) && call !in w.calls && controller in w.controllers
    ensures
      var x := Run(Step(w, Start(call, controller, bundle, purpose)), events);
      call in x.commitments ==>
        && x.commitments[call].bundleSha256.content == bundle && Spells(x.commitments[call].stateSha256.content, bundle)
        && exists k :: |w.history| - 1 <= k < |x.history| && x.history[k] == Some(x.commitments[call].stateSha256.content)
  {
    var started := Step(w, Start(call, controller, bundle, purpose));
    StartKeepsInv(w, call, controller, bundle, purpose);
    RunKeepsCall(started, events, call);
    RunKeepsInv(started, events);
    var x := Run(started, events);
    if call in x.commitments {
      CommitmentWasDurable(x, call);
      CommitmentNames(x, call);
    }
  }

  // ---- a call that failed ----

  predicate FailedCall(calls: map<nat, Call>, call: nat) { call in calls && calls[call].phase.Failed? }

  lemma LoadKeepsFailed(w: World, call: nat, now: int, c: nat)
    requires FailedCall(w.calls, c)
    ensures FailedCall(LoadAndVerifyStep(w, call, now).calls, c)
  {
    LoadPhase(w, call, now);
    if call == c {
      LoadIdle(w, call, now);
    }
  }

  lemma LoadIdle(w: World, call: nat, now: int)
    requires FailedCall(w.calls, call)
    ensures LoadAndVerifyStep(w, call, now) == w
  {}

  lemma ConfirmKeepsFailed(w: World, call: nat, tuple: Option<string>, c: nat)
    requires FailedCall(w.calls, c)
    ensures FailedCall(ConfirmStep(w, call, tuple).calls, c)
  {
    ConfirmPhase(w, call, tuple);
    if call == c {
      ConfirmIdle(w, call, tuple);
    }
  }

  lemma StepKeepsFailed(w: World, e: Event, c: nat)
    requires FailedCall(w.calls, c)
    ensures FailedCall(Step(w, e).calls, c)
  {
    match e
    case Start(_, _, _, _) =>
    case LoadAndVerify(call, now) => LoadKeepsFailed(w, call, now, c);
    case Confirm(call, tuple) => ConfirmKeepsFailed(w, call, tuple, c);
    case Reply(call, receipt) =>
    case Reload(call) =>
    case Abort(call) =>
    case _ => UsesKeepCalls(w, e);
  }

  lemma {:induction false} RunKeepsFailed(w: World, events: seq<Event>, c: nat)
    requires FailedCall(w.calls, c)
    ensures FailedCall(Run(w, events).calls, c)
    decreases |events|
  {
    if events != [] {
      StepKeepsFailed(w, events[0], c);
      RunKeepsFailed(Step(w, events[0]), events[1..], c);
    }
  }

  /** A call cut off before its end, whatever it awaited, never registers a commitment or a permit, in any continuation. */
  lemma AbortedNeverRegisters(w: World, call: nat, events: seq<Event>)
    requires Inv(w) && call in w.calls && !Ended(w.calls[call].phase)
    ensures
      var x := Run(Step(w, Abort(call)), events);
      call in x.calls && x.calls[call].phase.Failed? && call !in x.commitments && call !in x.permits
  {
    var aborted := Step(w, Abort(call));
    StepKeepsInv(w, Abort(call));
    RunKeepsFailed(aborted, events, call);
    RunKeepsInv(aborted, events);
    FailedHasNone(Run(aborted, events), call);
  }

  lemma FailedHasNone(x: World, call: nat)
    requires Inv(x) && FailedCall(x.calls, call)
    ensures call !in x.commitments && call !in x.permits
  {}
}
