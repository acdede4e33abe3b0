/** Where durable states come from: every change in every run goes back to a signed bundle read in its window. */
module TrustOrigins {
  import opened Foundations
  import opened Runs
  import opened TrustBundle
  import opened TrustAcceptance
  import opened TrustProtocol
  import opened TrustSafety

  /** One verification: the call, its controller, the bundle presented, and what the clock read. */
  datatype Reading = Reading(call: nat, controller: nat, bundle: Bundle, now: int)

  function ReadingOf(w: World, e: Event): set<Reading> {
    if e.LoadAndVerify? && e.call in w.calls && w.calls[e.call].phase == Loading
    then {Reading(e.call, w.calls[e.call].controller, w.calls[e.call].bundle, e.now)}
    else {}
  }

  function Readings(w: World, events: seq<Event>): set<Reading>
    decreases |events|
  {
    if events == [] then {} else ReadingOf(w, events[0]) + Readings(Step(w, events[0]), events[1..])
  }

  ghost predicate ReadFrom(
    controllers: map<nat, Root>, readings: set<Reading>, prior: Option<DurableState>, next: DurableState)
  {
    exists r :: r in readings && r.controller in controllers
                && VerifyBundle(controllers[r.controller], r.bundle, r.now, prior) == Ok(next)
  }

  ghost predicate RequestsRead(controllers: map<nat, Root>, readings: set<Reading>, requests: set<CasInput>) {
    forall q :: q in requests ==> ReadFrom(controllers, readings, Content(q.expectedStateSha256), q.nextState)
  }

  ghost predicate HistoryRead(controllers: map<nat, Root>, readings: set<Reading>, history: seq<Option<DurableState>>) {
    forall i :: 0 < i < |history| ==> history[i].Some? && ReadFrom(controllers, readings, history[i - 1], history[i].value)
  }

  /** Requests in flight and changes made all go back to these readings. */
  ghost predicate AllRead(w: World, readings: set<Reading>) {
    RequestsRead(w.controllers, readings, w.requests) && HistoryRead(w.controllers, readings, w.history)
  }

  lemma ReadMore(
    controllers: map<nat, Root>, few: set<Reading>, many: set<Reading>, prior: Option<DurableState>, next: DurableState)
    requires few <= many && ReadFrom(controllers, few, prior, next)
    ensures ReadFrom(controllers, many, prior, next)
  {
    var r :| r in few && r.controller in controllers && VerifyBundle(controllers[r.controller], r.bundle, r.now, prior) == Ok(next);
    assert r in many;
  }

  lemma AllReadMore(w: World, few: set<Reading>, many: set<Reading>)
    requires few <= many && AllRead(w, few)
    ensures AllRead(w, many)
  {
    forall q | q in w.requests ensures ReadFrom(w.controllers, many, Content(q.expectedStateSha256), q.nextState) {
      ReadMore(w.controllers, few, many, Content(q.expectedStateSha256), q.nextState);
    }
    forall i | 0 < i < |w.history|
      ensures w.history[i].Some? && ReadFrom(w.controllers, many, w.history[i - 1], w.history[i].value)
    {
      ReadMore(w.controllers, few, many, w.history[i - 1], w.history[i].value);
    }
  }

  /** What a verification may add to the requests in flight. */
  lemma LoadSends(w: World, call: nat, now: int, q: CasInput)
    requires NormalizeSnapshot(w.store).Some? && q in LoadAndVerifyStep(w, call, now).requests && q !in w.requests
    ensures call in w.calls && w.calls[call].phase == Loading && w.calls[call].controller in w.controllers
    ensures VerifyBundle(w.controllers[w.calls[call].controller], w.calls[call].bundle, now, w.store.state) == Ok(q.nextState)
    ensures q.expectedStateSha256 == w.store.stateSha256
  {}

  lemma LoadFrame(w: World, call: nat, now: int)
    ensures LoadAndVerifyStep(w, call, now).controllers == w.controllers && LoadAndVerifyStep(w, call, now).history == w.history
  {}

  /** A verification that sends a request is one of the readings. */
  lemma LoadIsRead(w: World, call: nat, now: int, readings: set<Reading>)
    requires NormalizeSnapshot(w.store).Some? && AllRead(w, readings) && ReadingOf(w, LoadAndVerify(call, now)) <= readings
    ensures AllRead(LoadAndVerifyStep(w, call, now), readings)
  {
    LoadFrame(w, call, now);
    forall q | q in LoadAndVerifyStep(w, call, now).requests
      ensures ReadFrom(w.controllers, readings, Content(q.expectedStateSha256), q.nextState)
    {
      if q !in w.requests {
        LoadSends(w, call, now, q);
        LoadedFrom(w, call, now, readings, q.nextState);
      }
    }
  }

  lemma LoadedFrom(w: World, call: nat, now: int, readings: set<Reading>, next: DurableState)
    requires NormalizeSnapshot(w.store).Some? && ReadingOf(w, LoadAndVerify(call, now)) <= readings
    requires call in w.calls && w.calls[call].phase == Loading && w.calls[call].controller in w.controllers
    requires VerifyBundle(w.controllers[w.calls[call].controller], w.calls[call].bundle, now, w.store.state) == Ok(next)
    ensures ReadFrom(w.controllers, readings, Content(w.store.stateSha256), next)
  {
    var r := Reading(call, w.calls[call].controller, w.calls[call].bundle, now);
    assert r in ReadingOf(w, LoadAndVerify(call, now));
    assert Content(w.store.stateSha256) == w.store.state;
  }

  /** One more change of the same kind. */
  lemma ChangesGrow(
    change: (Option<DurableState>, Option<DurableState>) -> bool, history: seq<Option<DurableState>>, next: Option<DurableState>)
    requires |history| > 0 && change(history[|history| - 1], next)
    requires forall i :: 0 < i < |history| ==> change(history[i - 1], history[i])
    ensures
      var longer := history + [next];
      forall i :: 0 < i < |longer| ==> change(longer[i - 1], longer[i])
  {
    var longer := history + [next];
    forall i | 0 < i < |longer| ensures change(longer[i - 1], longer[i]) {
      assert longer[i - 1] == history[i - 1];
      if i < |history| {
        assert longer[i] == history[i];
      }
    }
  }

  lemma HistoryGrows(
    controllers: map<nat, Root>, readings: set<Reading>, history: seq<Option<DurableState>>, next: DurableState)
    requires HistoryRead(controllers, readings, history) && |history| > 0
    requires ReadFrom(controllers, readings, history[|history| - 1], next)
    ensures HistoryRead(controllers, readings, history + [Some(next)])
  {
    ChangesGrow(
      (p: Option<DurableState>, n: Option<DurableState>) => n.Some? && ReadFrom(controllers, readings, p, n.value),
      history, Some(next));
  }

  lemma ApplyFrame(w: World, input: CasInput)
    ensures
      var x := ApplyStep(w, input);
      && x.controllers == w.controllers && x.requests == w.requests
      && (x.history == w.history
          || (x.history == w.history + [Some(input.nextState)] && input in w.requests
              && w.store.stateSha256 == input.expectedStateSha256))
  {}

  lemma ApplyIsRead(w: World, input: CasInput, readings: set<Reading>)
    requires StoreInv(w.store, w.history) && AllRead(w, readings)
    ensures AllRead(ApplyStep(w, input), readings)
  {
    ApplyFrame(w, input);
    if ApplyStep(w, input).history != w.history {
      assert Content(input.expectedStateSha256) == w.store.state;
      HistoryGrows(w.controllers, readings, w.history, input.nextState);
    }
  }

  ghost predicate Quiet(w: World, x: World) {
    x.controllers == w.controllers && x.requests == w.requests && x.history == w.history
  }

  lemma ConfirmIsQuiet(w: World, call: nat, tuple: Option<string>)
    ensures Quiet(w, ConfirmStep(w, call, tuple))
  {}

  lemma OthersAreQuiet(w: World, e: Event)
    requires !e.LoadAndVerify? && !e.Apply?
    ensures Quiet(w, Step(w, e))
  {
    match e
    case Confirm(call, tuple) => ConfirmIsQuiet(w, call, tuple);
    case _ =>
  }

  lemma StepIsRead(w: World, e: Event, readings: set<Reading>)
    requires Inv(w) && AllRead(w, readings) && ReadingOf(w, e) <= readings
    ensures AllRead(Step(w, e), readings)
  {
    match e
    case LoadAndVerify(call, now) => LoadIsRead(w, call, now, readings);
    case Apply(input) => ApplyIsRead(w, input, readings);
    case _ => OthersAreQuiet(w, e);
  }

  lemma {:induction false} RunIsRead(w: World, events: seq<Event>, readings: set<Reading>)
    requires Inv(w) && AllRead(w, readings) && Readings(w, events) <= readings
    ensures AllRead(Run(w, events), readings)
    decreases |events|
  {
    if events == [] {
    } else {
      StepIsRead(w, events[0], readings);
      StepKeepsInv(w, events[0]);
      RunIsRead(Step(w, events[0]), events[1..], readings);
    }
  }

  // ---- readings are events of the run ----

  predicate SameCall(a: Call, b: Call) {
    a.controller == b.controller && a.bundle == b.bundle && a.purpose == b.purpose && a.startedAt == b.startedAt
  }

  /** Every call after was there before. */
  ghost predicate KeepsCalls(before: map<nat, Call>, after: map<nat, Call>) {
    forall c :: c in after ==> c in before && SameCall(before[c], after[c])
  }

  /** At most the phase of one call differs. */
  ghost predicate PhaseOnly(before: map<nat, Call>, after: map<nat, Call>, call: nat) {
    || after == before
    || (call in before && call in after && after == before[call := before[call].(phase := after[call].phase)])
  }

  lemma PhaseOnlyKeepsCalls(before: map<nat, Call>, after: map<nat, Call>, call: nat)
    requires PhaseOnly(before, after, call)
    ensures KeepsCalls(before, after)
  {}

  lemma LoadPhase(w: World, call: nat, now: int)
    ensures PhaseOnly(w.calls, LoadAndVerifyStep(w, call, now).calls, call)
  {
    if call in w.calls && w.calls[call].phase == Loading && w.calls[call].controller in w.controllers {
      var x := LoadAndVerifyStep(w, call, now);
      assert call in x.calls && x.calls == w.calls[call := w.calls[call].(phase := x.calls[call].phase)];
    }
  }

  lemma RegisteredPhase(w: World, call: nat, tuple: Option<string>)
    requires call in w.calls && w.calls[call].phase.Confirming?
    ensures PhaseOnly(w.calls, Registered(w, call, tuple).calls, call)
  {}

  lemma SetPhaseOnly(w: World, call: nat, phase: Phase)
    requires call in w.calls
    ensures PhaseOnly(w.calls, SetPhase(w, call, phase).calls, call)
  {}

  lemma ConfirmPhase(w: World, call: nat, tuple: Option<string>)
    ensures PhaseOnly(w.calls, ConfirmStep(w, call, tuple).calls, call)
  {
    if call in w.calls && w.calls[call].phase.Confirming? {
      RegisteredPhase(w, call, tuple);
      SetPhaseOnly(w, call, Failed(StoreFailed));
      SetPhaseOnly(w, call, Failed(NotCommittedExactly));
      SetPhaseOnly(w, call, Failed(TupleRefused));
    }
  }

  lemma ReplyPhase(w: World, call: nat, receipt: Option<CasReceipt>)
    ensures PhaseOnly(w.calls, ReplyStep(w, call, receipt).calls, call)
  {}

  lemma ReloadPhase(w: World, call: nat)
    ensures PhaseOnly(w.calls, ReloadStep(w, call).calls, call)
  {}

  lemma AbortPhase(w: World, call: nat)
    ensures PhaseOnly(w.calls, AbortStep(w, call).calls, call)
  {}

  lemma UsesKeepCalls(w: World, e: Event)
    requires e.Apply? || e.UseStart? || e.UseEnter? || e.UseLoad? || e.UseEnd? || e.UseAbort?
    ensures Step(w, e).calls == w.calls
  {}

  lemma StepCalls(w: World, e: Event, c: nat)
    requires c in Step(w, e).calls
    ensures
      || (c in w.calls && SameCall(w.calls[c], Step(w, e).calls[c]))
      || (c !in w.calls
          && e == Start(c, Step(w, e).calls[c].controller, Step(w, e).calls[c].bundle, Step(w, e).calls[c].purpose))
  {
    match e
    case Start(_, _, _, _) =>
    case LoadAndVerify(call, now) =>
      LoadPhase(w, call, now);
      PhaseOnlyKeepsCalls(w.calls, LoadAndVerifyStep(w, call, now).calls, call);
    case Confirm(call, tuple) =>
      ConfirmPhase(w, call, tuple);
      PhaseOnlyKeepsCalls(w.calls, ConfirmStep(w, call, tuple).calls, call);
    case Reply(call, receipt) =>
      ReplyPhase(w, call, receipt);
      PhaseOnlyKeepsCalls(w.calls, ReplyStep(w, call, receipt).calls, call);
    case Reload(call) =>
      ReloadPhase(w, call);
      PhaseOnlyKeepsCalls(w.calls, ReloadStep(w, call).calls, call);
    case Abort(call) =>
      AbortPhase(w, call);
      PhaseOnlyKeepsCalls(w.calls, AbortStep(w, call).calls, call);
    case _ => UsesKeepCalls(w, e);
  }

  /** The call was there from the start, or is started within the run. */
  ghost predicate Begun(w: World, events: seq<Event>, r: Reading) {
    || (r.call in w.calls && w.calls[r.call].controller == r.controller && w.calls[r.call].bundle == r.bundle)
    || (exists purpose :: Start(r.call, r.controller, r.bundle, purpose) in events)
  }

  lemma {:induction false} ReadingHappened(w: World, events: seq<Event>, r: Reading)
    requires r in Readings(w, events)
    ensures LoadAndVerify(r.call, r.now) in events && Begun(w, events, r)
    decreases |events|
  {
    if r in ReadingOf(w, events[0]) {
    } else {
      var x := Step(w, events[0]);
      ReadingHappened(x, events[1..], r);
      if r.call in x.calls && x.calls[r.call].controller == r.controller && x.calls[r.call].bundle == r.bundle {
        StepCalls(w, events[0], r.call);
        if r.call !in w.calls {
          assert Start(r.call, r.controller, r.bundle, x.calls[r.call].purpose) in events;
        }
      } else {
        var purpose :| Start(r.call, r.controller, r.bundle, purpose) in events[1..];
        assert Start(r.call, r.controller, r.bundle, purpose) in events;
      }
    }
  }

  /** What stands behind one change: a call of the run, its bundle under its controller's root, its clock reading. */
  ghost predicate SignedChange(
    controllers: map<nat, Root>, events: seq<Event>, prior: Option<DurableState>, next: DurableState, r: Reading)
  {
    && r.controller in controllers
    && (exists purpose :: Start(r.call, r.controller, r.bundle, purpose) in events)
    && LoadAndVerify(r.call, r.now) in events
    && Acceptable(controllers[r.controller], r.bundle, prior)
    && r.bundle.issuedAt - 30 <= r.now < r.bundle.expiresAt
    && Spells(next, r.bundle)
  }

  ghost predicate WasSigned(controllers: map<nat, Root>, events: seq<Event>, prior: Option<DurableState>, next: DurableState) {
    exists r :: SignedChange(controllers, events, prior, next, r)
  }

  /**
   Every change of durable state in every run from an initial store was made by a call of that run, presenting a bundle
   signed and acceptable under its controller's root for exactly the state replaced, at a clock reading inside the
   bundle's window; the new state repeats the bundle.
   */
  lemma EveryChangeIsSigned(w: World, events: seq<Event>, i: nat)
    requires Initial(w) && 0 < i < |Run(w, events).history|
    ensures
      var h := Run(w, events).history;
      h[i].Some? && WasSigned(w.controllers, events, h[i - 1], h[i].value)
  {
    InitialHolds(w);
    RunIsRead(w, events, Readings(w, events));
    RunExtends(w, events);
    var h := Run(w, events).history;
    assert HistoryRead(w.controllers, Readings(w, events), h);
    ReadIsSigned(w, events, h[i - 1], h[i].value);
  }

  lemma ReadIsSigned(w: World, events: seq<Event>, prior: Option<DurableState>, next: DurableState)
    requires w.calls == map[] && ReadFrom(w.controllers, Readings(w, events), prior, next)
    ensures WasSigned(w.controllers, events, prior, next)
  {
    var r :| r in Readings(w, events) && r.controller in w.controllers
             && VerifyBundle(w.controllers[r.controller], r.bundle, r.now, prior) == Ok(next);
    ReadingHappened(w, events, r);
    VerifyBundleIff(w.controllers[r.controller], r.bundle, r.now, prior);
    assert SignedChange(w.controllers, events, prior, next, r);
  }
}
