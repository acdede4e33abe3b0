/** The API's evaluator (`core.ts`): classify each attestation alone, then rank the survivors together. */
module TwoPass {
  import opened Foundations
  import opened Ordering
  import opened Marketplace
  import opened Attestation
  import opened Eligibility
  import opened Evaluation

  datatype Failure = Failure(code: string, clientFault: bool)

  /** Core behind the API; `crash` says which calls die of an error that is not one of Core's own. */
  datatype Service = Service(core: Core, crash: (Mandate, seq<Text>, int) -> Option<string>)

  function Attempt(s: Service, m: Mandate, wires: seq<Text>, at: int): Result<EvaluationResult, Failure> {
    if s.crash(m, wires, at).Some? then Err(Failure(s.crash(m, wires, at).value, false))
    else
      match EvaluateV2(s.core, m, wires, at)
      case Err(e) => Err(Failure(e.code, true))
      case Ok(r) => Ok(r)
  }

  datatype Rejected = Rejected(index: nat, code: string)

  datatype Answer =
    | Answered(result: Option<EvaluationResult>, accepted: seq<nat>, rejected: seq<Rejected>)
    | Failed(failure: Failure)

  /** Core on each attestation alone; its k-th call reads the clock for the k-th time. */
  function Attempts(s: Service, m: Mandate, wires: seq<Text>, clock: nat -> int): seq<Result<EvaluationResult, Failure>> {
    seq(|wires|, i requires 0 <= i < |wires| => Attempt(s, m, [wires[i]], clock(i)))
  }

  /** What the first pass has after some attestations. */
  datatype Progress = Sorting(accepted: seq<nat>, rejected: seq<Rejected>) | Broken(failure: Failure)

  function Next(p: Progress, index: nat, alone: Result<EvaluationResult, Failure>): Progress {
    if p.Broken? then p
    else
      match alone
      case Ok(_) => Sorting(p.accepted + [index], p.rejected)
      case Err(f) => if f.clientFault then Sorting(p.accepted, p.rejected + [Rejected(index, f.code)]) else Broken(f)
  }

  function Classify(attempts: seq<Result<EvaluationResult, Failure>>, n: nat): (p: Progress)
    requires n <= |attempts|
    ensures p.Sorting? ==> forall k :: 0 <= k < |p.accepted| ==> p.accepted[k] < n
  {
    if n == 0 then Sorting([], []) else Next(Classify(attempts, n - 1), n - 1, attempts[n - 1])
  }

  function Survivors(wires: seq<Text>, accepted: seq<nat>): seq<Text>
    requires forall k :: 0 <= k < |accepted| ==> accepted[k] < |wires|
  {
    seq(|accepted|, k requires 0 <= k < |accepted| => wires[accepted[k]])
  }

  function AnswerFor(s: Service, m: Mandate, wires: seq<Text>, clock: nat -> int): Answer {
    if !ValidMandate(m) then Failed(Failure("MANDATE_INVALID", true))
    else
      match Classify(Attempts(s, m, wires, clock), |wires|)
      case Broken(f) => Failed(f)
      case Sorting(accepted, rejected) =>
        if accepted == [] then Answered(None, accepted, rejected)
        else
          match Attempt(s, m, Survivors(wires, accepted), clock(|wires|))
          case Ok(result) => Answered(Some(result), accepted, rejected)
          case Err(f) => Failed(f)
  }

  /** The loop of the first pass, leaving early at an error that is not Core's own. */
  method ClassifyEach(s: Service, m: Mandate, wires: seq<Text>, clock: nat -> int) returns (p: Progress)
    ensures p == Classify(Attempts(s, m, wires, clock), |wires|)
  {
    var accepted: seq<nat>, rejected: seq<Rejected> := [], [];
    ghost var attempts := Attempts(s, m, wires, clock);
    for index := 0 to |wires|
      invariant Classify(attempts, index) == Sorting(accepted, rejected)
    {
      BreakIsFinal(attempts, index + 1, |wires|);
      var alone := Attempt(s, m, [wires[index]], clock(index));
      assert attempts[index] == alone;
      if alone.Ok? {
        accepted := accepted + [index];
      } else if !alone.error.clientFault {
        return Broken(alone.error);
      } else {
        rejected := rejected + [Rejected(index, alone.error.code)];
      }
    }
    p := Sorting(accepted, rejected);
  }

  /** `MarketplaceEvaluator.evaluate`. */
  method Evaluate(s: Service, m: Mandate, wires: seq<Text>, clock: nat -> int) returns (answer: Answer)
    ensures answer == AnswerFor(s, m, wires, clock)
  {
    if !ValidMandate(m) {
      return Failed(Failure("MANDATE_INVALID", true));
    }
    var p := ClassifyEach(s, m, wires, clock);
    if p.Broken? {
      return Failed(p.failure);
    }
    if p.accepted == [] {
      return Answered(None, p.accepted, p.rejected);
    }
    var result := Attempt(s, m, Survivors(wires, p.accepted), clock(|wires|));
    answer := if result.Ok? then Answered(Some(result.value), p.accepted, p.rejected) else Failed(result.error);
  }

  lemma {:induction false} BreakIsFinal(attempts: seq<Result<EvaluationResult, Failure>>, i: nat, n: nat)
    requires i <= n <= |attempts|
    ensures Classify(attempts, i).Broken? ==> Classify(attempts, n) == Classify(attempts, i)
    decreases n
  {
    if i < n {
      BreakIsFinal(attempts, i, n - 1);
    }
  }

  // ---- what the two passes guarantee ----

  /** Every attestation read at one instant, and nothing but Core's own errors. */
  ghost predicate Steady(s: Service, clock: nat -> int, at: int) {
    && (forall k :: clock(k) == at)
    && (forall m, wires, t :: s.crash(m, wires, t).None?)
  }

  predicate Ascending(xs: seq<nat>) {
    forall i, j :: 0 <= i < j < |xs| ==> xs[i] < xs[j]
  }

  /** What each attestation gets alone: nothing, or the code it is refused with. */
  function Verdicts(core: Core, m: Mandate, wires: seq<Text>, at: int): seq<Option<string>> {
    seq(|wires|, i requires 0 <= i < |wires| =>
      var alone := EvaluateV2(core, m, [wires[i]], at);
      if alone.Ok? then None else Some(alone.error.code))
  }

  /** Both lists ascend, and together hold every index below `n` once, by its verdict. */
  predicate Partitioned(verdicts: seq<Option<string>>, accepted: seq<nat>, rejected: seq<Rejected>, n: nat)
    requires n <= |verdicts|
  {
    && |accepted| + |rejected| == n
    && Ascending(accepted) && Ascending(Indices(rejected))
    && (forall k :: 0 <= k < |accepted| ==> accepted[k] < n && verdicts[accepted[k]].None?)
    && (forall k :: 0 <= k < |rejected| ==> rejected[k].index < n && verdicts[rejected[k].index] == Some(rejected[k].code))
    && (forall i :: 0 <= i < n && verdicts[i].None? ==> i in accepted)
  }

  lemma AcceptKeepsPartition(verdicts: seq<Option<string>>, accepted: seq<nat>, rejected: seq<Rejected>, n: nat)
    requires n < |verdicts| && Partitioned(verdicts, accepted, rejected, n) && verdicts[n].None?
    ensures Partitioned(verdicts, accepted + [n], rejected, n + 1)
  {}

  lemma RejectKeepsPartition(verdicts: seq<Option<string>>, accepted: seq<nat>, rejected: seq<Rejected>, n: nat)
    requires n < |verdicts| && Partitioned(verdicts, accepted, rejected, n) && verdicts[n].Some?
    ensures Partitioned(verdicts, accepted, rejected + [Rejected(n, verdicts[n].value)], n + 1)
  {
    var after := rejected + [Rejected(n, verdicts[n].value)];
    assert Indices(after) == Indices(rejected) + [n];
    forall i, j | 0 <= i < j < |after| ensures Indices(after)[i] < Indices(after)[j] {
      assert Indices(rejected)[i] == rejected[i].index;
    }
  }

  /** What Core said of one attestation alone is its verdict. */
  predicate Says(alone: Result<EvaluationResult, Failure>, verdict: Option<string>) {
    if verdict.None? then alone.Ok? else alone == Err(Failure(verdict.value, true))
  }

  predicate AllSay(attempts: seq<Result<EvaluationResult, Failure>>, verdicts: seq<Option<string>>) {
    |attempts| == |verdicts| && forall i :: 0 <= i < |attempts| ==> Says(attempts[i], verdicts[i])
  }

  lemma AttemptsSay(s: Service, m: Mandate, wires: seq<Text>, clock: nat -> int, at: int)
    requires Steady(s, clock, at)
    ensures AllSay(Attempts(s, m, wires, clock), Verdicts(s.core, m, wires, at))
  {
    forall i | 0 <= i < |wires| ensures Says(Attempts(s, m, wires, clock)[i], Verdicts(s.core, m, wires, at)[i]) {
      assert clock(i) == at && s.crash(m, [wires[i]], at).None?;
    }
  }

  lemma NextKeepsPartition(verdicts: seq<Option<string>>, p: Progress, n: nat, alone: Result<EvaluationResult, Failure>)
    requires n < |verdicts| && p.Sorting? && Partitioned(verdicts, p.accepted, p.rejected, n) && Says(alone, verdicts[n])
    ensures Next(p, n, alone).Sorting?
    ensures Partitioned(verdicts, Next(p, n, alone).accepted, Next(p, n, alone).rejected, n + 1)
  {
    if verdicts[n].None? {
      AcceptKeepsPartition(verdicts, p.accepted, p.rejected, n);
    } else {
      RejectKeepsPartition(verdicts, p.accepted, p.rejected, n);
    }
  }

  /** The first pass sorts the indices into two ascending lists by whether each attestation evaluates alone. */
  lemma {:induction false} ClassifyPartitions(
    attempts: seq<Result<EvaluationResult, Failure>>, verdicts: seq<Option<string>>, n: nat)
    requires AllSay(attempts, verdicts) && n <= |attempts|
    ensures
      var p := Classify(attempts, n);
      p.Sorting? && Partitioned(verdicts, p.accepted, p.rejected, n)
  {
    if n > 0 {
      ClassifyPartitions(attempts, verdicts, n - 1);
      NextKeepsPartition(verdicts, Classify(attempts, n - 1), n - 1, attempts[n - 1]);
    }
  }

  function Indices(rs: seq<Rejected>): seq<nat> {
    seq(|rs|, k requires 0 <= k < |rs| => rs[k].index)
  }

  /** An attestation that evaluates alone is one that verifies into a valid projection. */
  lemma AloneIff(core: Core, m: Mandate, wire: Text, at: int)
    requires ValidMandate(m) && EvaluationTimeError(m, at).None?
    ensures EvaluateV2(core, m, [wire], at).Ok? <==> Project(core, m, at, wire).Ok?
    ensures Project(core, m, at, wire).Ok? ==>
              EvaluateV2(core, m, [wire], at).value.decisions ==
                [Decide(m, NormalizeProjection(Project(core, m, at, wire).value), at)]
  {
    assert [wire][1..] == [];
    if Project(core, m, at, wire).Ok? {
      var p := Project(core, m, at, wire).value;
      assert ProjectAll(core, m, at, [wire]) == Ok([p] + []);
      var ps := ProjectAll(core, m, at, [wire]).value;
      assert ps == [p];
      InspectIff(ProjectionReferences(ps));
      assert NormalizedQuotes(ps) == [NormalizeProjection(p)];
      assert SortBy(QuoteLe, NormalizedQuotes(ps)) == NormalizedQuotes(ps);
    }
  }

  /** Survivors all verify, so together they can only be too many or repeat an identity or a quote id. */
  lemma SurvivorsFailOnlyAsASet(core: Core, m: Mandate, wires: seq<Text>, at: int)
    requires ValidMandate(m) && EvaluationTimeError(m, at).None?
    requires forall i :: 0 <= i < |wires| ==> EvaluateV2(core, m, [wires[i]], at).Ok?
    ensures ProjectAll(core, m, at, wires).Ok?
    ensures
      var refs := ProjectionReferences(ProjectAll(core, m, at, wires).value);
      EvaluateV2(core, m, wires, at).Ok? <==> |wires| <= 8 && Unique(refs)
    ensures EvaluateV2(core, m, wires, at).Err? ==>
              EvaluateV2(core, m, wires, at).error.code in
                {"CANDIDATE_LIMIT_EXCEEDED", "DUPLICATE_CANDIDATE", "DUPLICATE_QUOTE_ID"}
  {
    forall i | 0 <= i < |wires| ensures Project(core, m, at, wires[i]).Ok? {
      AloneIff(core, m, wires[i], at);
    }
    ProjectAllIff(core, m, at, wires);
    var refs := ProjectionReferences(ProjectAll(core, m, at, wires).value);
    InspectIff(refs);
    RepetitionCodes(refs, 0);
  }

  lemma {:induction false} RepetitionCodes(refs: seq<Reference>, i: nat)
    requires i <= |refs|
    ensures FirstRepetition(refs, i).Some? ==>
              FirstRepetition(refs, i).value.code in {"DUPLICATE_CANDIDATE", "DUPLICATE_QUOTE_ID"}
    decreases |refs| - i
  {
    if i < |refs| {
      RepetitionCodes(refs, i + 1);
    }
  }

  /** Each survivor is decided in the ranked set exactly as it was decided alone, and nothing else is. */
  lemma SurvivorDecidedAsAlone(core: Core, m: Mandate, wires: seq<Text>, at: int, i: nat)
    requires EvaluateV2(core, m, wires, at).Ok? && i < |wires|
    ensures EvaluateV2(core, m, [wires[i]], at).Ok?
    ensures |EvaluateV2(core, m, [wires[i]], at).value.decisions| == 1
    ensures EvaluateV2(core, m, [wires[i]], at).value.decisions[0] in EvaluateV2(core, m, wires, at).value.decisions
    ensures |EvaluateV2(core, m, wires, at).value.decisions| == |wires|
  {
    ProjectAllIff(core, m, at, wires);
    AloneIff(core, m, wires[i], at);
    var ps := ProjectAll(core, m, at, wires).value;
    var qs := NormalizedQuotes(ps);
    var sorted := SortBy(QuoteLe, qs);
    assert qs[i] in sorted;
    var k :| 0 <= k < |sorted| && sorted[k] == qs[i];
    assert EvaluateV2(core, m, wires, at).value.decisions[k] == Decide(m, qs[i], at);
  }

  /**
   With a clock that stands still: the answer partitions the indices by whether each attestation evaluates alone, every
   survivor is decided in the result as it was alone, and the evaluator fails only where the set itself is at fault.
   */
  lemma TwoPassesAgree(s: Service, m: Mandate, wires: seq<Text>, clock: nat -> int, at: int)
    requires Steady(s, clock, at) && ValidMandate(m)
    ensures
      var answer := AnswerFor(s, m, wires, clock);
      match answer
      case Failed(f) => f.clientFault && f.code in {"CANDIDATE_LIMIT_EXCEEDED", "DUPLICATE_CANDIDATE", "DUPLICATE_QUOTE_ID"}
      case Answered(result, accepted, rejected) =>
        && Partitioned(Verdicts(s.core, m, wires, at), accepted, rejected, |wires|)
        && (result.None? <==> accepted == [])
        && (result.Some? ==>
              && |result.value.decisions| == |accepted|
              && forall k :: 0 <= k < |accepted| ==>
                   accepted[k] < |wires| && DecidedAlone(s.core, m, wires[accepted[k]], at, result.value))
  {
    var verdicts := Verdicts(s.core, m, wires, at);
    AttemptsSay(s, m, wires, clock, at);
    ClassifyPartitions(Attempts(s, m, wires, clock), verdicts, |wires|);
    var p := Classify(Attempts(s, m, wires, clock), |wires|);
    if p.accepted != [] {
      assert clock(|wires|) == at && s.crash(m, Survivors(wires, p.accepted), at).None?;
      SurvivorsAgree(s.core, m, wires, at, p.accepted, p.rejected);
    }
  }

  lemma SurvivorsAgree(core: Core, m: Mandate, wires: seq<Text>, at: int, accepted: seq<nat>, rejected: seq<Rejected>)
    requires Partitioned(Verdicts(core, m, wires, at), accepted, rejected, |wires|) && accepted != []
    ensures
      match EvaluateV2(core, m, Survivors(wires, accepted), at)
      case Err(e) => e.code in {"CANDIDATE_LIMIT_EXCEEDED", "DUPLICATE_CANDIDATE", "DUPLICATE_QUOTE_ID"}
      case Ok(r) =>
        && |r.decisions| == |accepted|
        && forall k :: 0 <= k < |accepted| ==> DecidedAlone(core, m, wires[accepted[k]], at, r)
  {
    var survivors := Survivors(wires, accepted);
    assert Verdicts(core, m, wires, at)[accepted[0]].None?;
    forall k | 0 <= k < |survivors| ensures EvaluateV2(core, m, [survivors[k]], at).Ok? {
      assert Verdicts(core, m, wires, at)[accepted[k]].None?;
    }
    AloneNeedsTime(core, m, survivors[0], at);
    SurvivorsFailOnlyAsASet(core, m, survivors, at);
    if EvaluateV2(core, m, survivors, at).Ok? {
      forall k | 0 <= k < |survivors| ensures DecidedAlone(core, m, wires[accepted[k]], at, EvaluateV2(core, m, survivors, at).value) {
        SurvivorDecidedAsAlone(core, m, survivors, at, k);
      }
      SurvivorDecidedAsAlone(core, m, survivors, at, 0);
    }
  }

  lemma AloneNeedsTime(core: Core, m: Mandate, wire: Text, at: int)
    requires EvaluateV2(core, m, [wire], at).Ok?
    ensures ValidMandate(m) && EvaluationTimeError(m, at).None?
  {}

  predicate DecidedAlone(core: Core, m: Mandate, wire: Text, at: int, r: EvaluationResult) {
    var alone := EvaluateV2(core, m, [wire], at);
    alone.Ok? && |alone.value.decisions| == 1 && alone.value.decisions[0] in r.decisions
  }

  // ---- any clock, in terms of the envelopes ----

  /** A safe second not before the mandate. */
  predicate LegalTime(m: Mandate, at: int) { m.createdAt <= at <= 9_007_199_254_740_991 }

  /** The wire decodes into an envelope that is sound for the mandate and projects validly; no time enters. */
  predicate Admissible(core: Core, m: Mandate, wire: Text) {
    var d := core.trust.decode(wire);
    && d.Ok? && Sound(d.value, m, core.maxClockSkewSeconds, core.trust)
    && ValidProjection(Projection(d.value.issuedAt, d.value.payload))
  }

  /** The instant lies in the envelope's interval. */
  predicate Current(core: Core, wire: Text, at: int) {
    var d := core.trust.decode(wire);
    d.Ok? && d.value.issuedAt - core.maxClockSkewSeconds <= at < d.value.expiresAt
  }

  predicate IsSetCode(code: string) {
    code in {"CANDIDATE_LIMIT_EXCEEDED", "DUPLICATE_CANDIDATE", "DUPLICATE_QUOTE_ID"}
  }

  lemma ProjectIff(core: Core, m: Mandate, wire: Text, at: int)
    ensures Project(core, m, at, wire).Ok? <==> Admissible(core, m, wire) && Current(core, wire, at)
    ensures Project(core, m, at, wire).Ok? ==>
              var e := core.trust.decode(wire).value;
              Project(core, m, at, wire).value == Projection(e.issuedAt, e.payload)
  {
    var d := core.trust.decode(wire);
    if d.Ok? {
      AcceptedIff(d.value, m, at, core.maxClockSkewSeconds, core.trust);
    }
  }

  /** Outside its interval an otherwise admissible attestation fails with one of the two codes about time. */
  lemma LateCode(core: Core, m: Mandate, wire: Text, at: int)
    requires Admissible(core, m, wire) && !Current(core, wire, at)
    ensures Project(core, m, at, wire).Err?
    ensures Project(core, m, at, wire).error.code in {"ATTESTATION_NOT_YET_VALID", "ATTESTATION_EXPIRED"}
  {
    ProjectIff(core, m, wire, at);
  }

  lemma {:induction false} ProjectAllError(core: Core, m: Mandate, at: int, wires: seq<Text>) returns (i: nat)
    requires ProjectAll(core, m, at, wires).Err?
    ensures i < |wires| && Project(core, m, at, wires[i]) == Err(ProjectAll(core, m, at, wires).error)
  {
    if Project(core, m, at, wires[0]).Err? {
      i := 0;
    } else {
      i := ProjectAllError(core, m, at, wires[1..]);
      i := i + 1;
    }
  }

  lemma {:induction false} FirstErrorWins(core: Core, m: Mandate, at: int, wires: seq<Text>, i: nat)
    requires i < |wires| && Project(core, m, at, wires[i]).Err? && forall j :: 0 <= j < i ==> Project(core, m, at, wires[j]).Ok?
    ensures ProjectAll(core, m, at, wires) == Err(Project(core, m, at, wires[i]).error)
  {
    if i > 0 {
      FirstErrorWins(core, m, at, wires[1..], i - 1);
    }
  }

  lemma AloneFailsWith(core: Core, m: Mandate, wire: Text, at: int)
    requires ValidMandate(m) && LegalTime(m, at) && Project(core, m, at, wire).Err?
    ensures EvaluateV2(core, m, [wire], at) == Err(Project(core, m, at, wire).error)
  {
    FirstErrorWins(core, m, at, [wire], 0);
  }

  /** Before any attestation is read: too many, a mandate that is none, an instant that is none or before the mandate. */
  lemma RefusedUnread(core: Core, m: Mandate, wires: seq<Text>, at: int)
    ensures |wires| > 8 ==> EvaluateV2(core, m, wires, at) == Err(CoreError("CANDIDATE_LIMIT_EXCEEDED"))
    ensures |wires| <= 8 && !ValidMandate(m) ==> EvaluateV2(core, m, wires, at) == Err(CoreError("MANDATE_INVALID"))
    ensures |wires| <= 8 && ValidMandate(m) && !(1 <= at <= 9_007_199_254_740_991) ==>
              EvaluateV2(core, m, wires, at) == Err(CoreError("EVALUATED_AT_INVALID"))
    ensures |wires| <= 8 && ValidMandate(m) && 1 <= at < m.createdAt && at <= 9_007_199_254_740_991 ==>
              EvaluateV2(core, m, wires, at) == Err(CoreError("EVALUATED_AT_BEFORE_MANDATE"))
  {}

  /** Otherwise a set with a refused attestation fails with the error that its first refused attestation has alone. */
  lemma FirstRefusalDecides(core: Core, m: Mandate, wires: seq<Text>, at: int, i: nat)
    requires |wires| <= 8 && ValidMandate(m) && LegalTime(m, at) && i < |wires|
    requires EvaluateV2(core, m, [wires[i]], at).Err? && forall j :: 0 <= j < i ==> EvaluateV2(core, m, [wires[j]], at).Ok?
    ensures EvaluateV2(core, m, wires, at) == EvaluateV2(core, m, [wires[i]], at)
  {
    AloneIff(core, m, wires[i], at);
    forall j | 0 <= j < i ensures Project(core, m, at, wires[j]).Ok? { AloneIff(core, m, wires[j], at); }
    FirstErrorWins(core, m, at, wires, i);
    AloneFailsWith(core, m, wires[i], at);
  }

  /** No two of the envelopes are about one candidate or share a quote id. */
  predicate DistinctPayloads(core: Core, wires: seq<Text>) {
    forall i, j :: 0 <= i < j < |wires| ==> DistinctPair(core, wires[i], wires[j])
  }

  predicate DistinctPair(core: Core, x: Text, y: Text) {
    var d, e := core.trust.decode(x), core.trust.decode(y);
    d.Ok? && e.Ok? ==>
      && CandidateId(d.value.payload.candidate) != CandidateId(e.value.payload.candidate)
      && d.value.payload.quoteId != e.value.payload.quoteId
  }

  lemma UniqueIffDistinct(core: Core, m: Mandate, at: int, wires: seq<Text>)
    requires ProjectAll(core, m, at, wires).Ok?
    ensures Unique(ProjectionReferences(ProjectAll(core, m, at, wires).value)) <==> DistinctPayloads(core, wires)
  {
    ProjectAllIff(core, m, at, wires);
    var ps := ProjectAll(core, m, at, wires).value;
    forall i | 0 <= i < |wires|
      ensures core.trust.decode(wires[i]).Ok? && ps[i].payload == core.trust.decode(wires[i]).value.payload
    {
      assert Project(core, m, at, wires[i]) == Ok(ps[i]);
      ProjectIff(core, m, wires[i], at);
    }
    SamePayloadsSameDistinctness(core, wires, ps);
  }

  lemma SamePayloadsSameDistinctness(core: Core, wires: seq<Text>, ps: seq<Projection>)
    requires |ps| == |wires|
    requires forall i :: 0 <= i < |wires| ==>
               core.trust.decode(wires[i]).Ok? && ps[i].payload == core.trust.decode(wires[i]).value.payload
    ensures Unique(ProjectionReferences(ps)) <==> DistinctPayloads(core, wires)
  {
    var refs := ProjectionReferences(ps);
    forall i, j | 0 <= i < j < |wires|
      ensures DistinctPair(core, wires[i], wires[j]) <==>
              CandidateId(refs[i].candidate) != CandidateId(refs[j].candidate) && refs[i].quoteId != refs[j].quoteId
    {}
  }

  predicate AllAdmissible(core: Core, m: Mandate, wires: seq<Text>) {
    forall i :: 0 <= i < |wires| ==> Admissible(core, m, wires[i])
  }

  predicate AllCurrent(core: Core, wires: seq<Text>, at: int) {
    forall i :: 0 <= i < |wires| ==> Current(core, wires[i], at)
  }

  lemma AllProjectIff(core: Core, m: Mandate, wires: seq<Text>, at: int)
    ensures ProjectAll(core, m, at, wires).Ok? <==> AllAdmissible(core, m, wires) && AllCurrent(core, wires, at)
  {
    ProjectAllIff(core, m, at, wires);
    forall i | 0 <= i < |wires|
      ensures Project(core, m, at, wires[i]).Ok? <==> Admissible(core, m, wires[i]) && Current(core, wires[i], at)
    {
      ProjectIff(core, m, wires[i], at);
    }
  }

  /**
   At any instant a set of attestations is ranked exactly when it is small enough, the mandate and the instant are
   legal, every envelope is admissible and current, and no candidate or quote id repeats.
   */
  lemma RankedIff(core: Core, m: Mandate, wires: seq<Text>, at: int)
    ensures EvaluateV2(core, m, wires, at).Ok? <==>
            && |wires| <= 8 && ValidMandate(m) && LegalTime(m, at)
            && AllAdmissible(core, m, wires) && AllCurrent(core, wires, at) && DistinctPayloads(core, wires)
  {
    AllProjectIff(core, m, wires, at);
    if ProjectAll(core, m, at, wires).Ok? {
      ProjectAllIff(core, m, at, wires);
      InspectIff(ProjectionReferences(ProjectAll(core, m, at, wires).value));
      UniqueIffDistinct(core, m, at, wires);
    }
  }

  /** When admissible attestations fail together for a reason that is not about the set: the instant, or an interval. */
  lemma FailsForTimeIff(core: Core, m: Mandate, wires: seq<Text>, at: int)
    requires ValidMandate(m) && AllAdmissible(core, m, wires)
    ensures
      var r := EvaluateV2(core, m, wires, at);
      r.Err? && !IsSetCode(r.error.code) <==>
        |wires| <= 8 && (!LegalTime(m, at) || !AllCurrent(core, wires, at))
  {
    if |wires| <= MAX_CANDIDATES && LegalTime(m, at) {
      AllProjectIff(core, m, wires, at);
      if AllCurrent(core, wires, at) {
        RepetitionCodes(ProjectionReferences(ProjectAll(core, m, at, wires).value), 0);
      } else {
        var i := ProjectAllError(core, m, at, wires);
        ProjectIff(core, m, wires[i], at);
        LateCode(core, m, wires[i], at);
      }
    }
  }

  /** What each attestation gets alone under a moving clock. */
  function VerdictsOf(attempts: seq<Result<EvaluationResult, Failure>>): seq<Option<string>> {
    seq(|attempts|, i requires 0 <= i < |attempts| => if attempts[i].Ok? then None else Some(attempts[i].error.code))
  }

  ghost predicate NeverCrashes(s: Service) {
    forall m, wires, t :: s.crash(m, wires, t).None?
  }

  /** Which attestations the first pass accepts, in terms of the envelopes and the reading each was judged at. */
  predicate AcceptedAt(core: Core, m: Mandate, wire: Text, at: int) {
    LegalTime(m, at) && Admissible(core, m, wire) && Current(core, wire, at)
  }

  lemma AloneAt(s: Service, m: Mandate, wires: seq<Text>, clock: nat -> int, i: nat)
    requires ValidMandate(m) && NeverCrashes(s) && i < |wires|
    ensures
      var alone := Attempts(s, m, wires, clock)[i];
      && (alone.Ok? <==> AcceptedAt(s.core, m, wires[i], clock(i)))
      && (alone.Err? ==> alone.error.clientFault)
  {
    var alone: seq<Text> := [wires[i]];
    var at := clock(i);
    AttemptIs(s, m, alone, at);
    RankedIff(s.core, m, alone, at);
    assert alone[0] == wires[i];
  }

  lemma AllAloneAt(s: Service, m: Mandate, wires: seq<Text>, clock: nat -> int)
    requires ValidMandate(m) && NeverCrashes(s)
    ensures AllSay(Attempts(s, m, wires, clock), VerdictsOf(Attempts(s, m, wires, clock)))
    ensures forall i :: 0 <= i < |wires| ==>
              (Attempts(s, m, wires, clock)[i].Ok? <==> AcceptedAt(s.core, m, wires[i], clock(i)))
  {
    var attempts := Attempts(s, m, wires, clock);
    forall i | 0 <= i < |wires|
      ensures attempts[i].Ok? <==> AcceptedAt(s.core, m, wires[i], clock(i))
      ensures Says(attempts[i], VerdictsOf(attempts)[i])
    {
      AloneAt(s, m, wires, clock, i);
    }
  }

  /** Under any clock the first pass accepts exactly the attestations accepted at their own reading. */
  lemma FirstPassUnderAnyClock(s: Service, m: Mandate, wires: seq<Text>, clock: nat -> int)
    requires ValidMandate(m) && NeverCrashes(s)
    ensures
      var p := Classify(Attempts(s, m, wires, clock), |wires|);
      && p.Sorting? && Partitioned(VerdictsOf(Attempts(s, m, wires, clock)), p.accepted, p.rejected, |wires|)
      && (forall i :: 0 <= i < |wires| ==> (i in p.accepted <==> AcceptedAt(s.core, m, wires[i], clock(i))))
      && AllAdmissible(s.core, m, Survivors(wires, p.accepted))
  {
    AllAloneAt(s, m, wires, clock);
    ClassifyPartitions(Attempts(s, m, wires, clock), VerdictsOf(Attempts(s, m, wires, clock)), |wires|);
    AcceptedByVerdict(s.core, m, wires, clock, Attempts(s, m, wires, clock));
  }

  lemma AcceptedByVerdict(
    core: Core, m: Mandate, wires: seq<Text>, clock: nat -> int, attempts: seq<Result<EvaluationResult, Failure>>)
    requires |attempts| == |wires|
    requires forall i :: 0 <= i < |wires| ==> (attempts[i].Ok? <==> AcceptedAt(core, m, wires[i], clock(i)))
    requires
      var p := Classify(attempts, |wires|);
      p.Sorting? && Partitioned(VerdictsOf(attempts), p.accepted, p.rejected, |wires|)
    ensures
      var accepted := Classify(attempts, |wires|).accepted;
      && (forall i :: 0 <= i < |wires| ==> (i in accepted <==> AcceptedAt(core, m, wires[i], clock(i))))
      && AllAdmissible(core, m, Survivors(wires, accepted))
  {
    var accepted := Classify(attempts, |wires|).accepted;
    var verdicts := VerdictsOf(attempts);
    forall i | 0 <= i < |wires| ensures i in accepted <==> AcceptedAt(core, m, wires[i], clock(i)) {
      assert verdicts[i].None? <==> attempts[i].Ok?;
    }
    forall k | 0 <= k < |accepted| ensures Admissible(core, m, Survivors(wires, accepted)[k]) {
      assert verdicts[accepted[k]].None? && attempts[accepted[k]].Ok?;
    }
  }

  /**
   Exactly when the two passes blame the whole request for something that is not about the set, for every clock: there
   are survivors, not too many, and the reading of the second pass is no legal time for the mandate or lies outside the
   interval of some survivor's envelope.
   */
  lemma BlamesTheSetWronglyIff(s: Service, m: Mandate, wires: seq<Text>, clock: nat -> int)
    requires ValidMandate(m) && NeverCrashes(s)
    ensures
      var p := Classify(Attempts(s, m, wires, clock), |wires|);
      var answer, at := AnswerFor(s, m, wires, clock), clock(|wires|);
      && p.Sorting?
      && (answer.Failed? && !IsSetCode(answer.failure.code) <==>
            && 0 < |p.accepted| <= 8
            && (!LegalTime(m, at)
                || exists k :: 0 <= k < |p.accepted| && !Current(s.core, wires[p.accepted[k]], at)))
  {
    FirstPassUnderAnyClock(s, m, wires, clock);
    var p := Classify(Attempts(s, m, wires, clock), |wires|);
    var survivors, at := Survivors(wires, p.accepted), clock(|wires|);
    if p.accepted != [] {
      SecondPassIs(s, m, wires, clock);
      AttemptIs(s, m, survivors, at);
      FailsForTimeIff(s.core, m, survivors, at);
      NotAllCurrent(s.core, wires, p.accepted, at);
    }
  }

  lemma NotAllCurrent(core: Core, wires: seq<Text>, accepted: seq<nat>, at: int)
    requires forall k :: 0 <= k < |accepted| ==> accepted[k] < |wires|
    ensures !AllCurrent(core, Survivors(wires, accepted), at) <==>
            exists k :: 0 <= k < |accepted| && !Current(core, wires[accepted[k]], at)
  {
    var survivors := Survivors(wires, accepted);
    assert forall k :: 0 <= k < |accepted| ==> survivors[k] == wires[accepted[k]];
    if exists k :: 0 <= k < |accepted| && !Current(core, wires[accepted[k]], at) {
      var k :| 0 <= k < |accepted| && !Current(core, wires[accepted[k]], at);
      assert !Current(core, survivors[k], at);
    }
  }

  /** And exactly when a ranking is returned: survivors that fit together and are all current at the second reading. */
  lemma RankingReturnedIff(s: Service, m: Mandate, wires: seq<Text>, clock: nat -> int)
    requires ValidMandate(m) && NeverCrashes(s)
    ensures
      var p := Classify(Attempts(s, m, wires, clock), |wires|);
      var answer, at := AnswerFor(s, m, wires, clock), clock(|wires|);
      && p.Sorting?
      && (answer.Answered? && answer.result.Some? <==>
            && 0 < |p.accepted| <= 8 && LegalTime(m, at)
            && AllCurrent(s.core, Survivors(wires, p.accepted), at)
            && DistinctPayloads(s.core, Survivors(wires, p.accepted)))
  {
    FirstPassUnderAnyClock(s, m, wires, clock);
    var p := Classify(Attempts(s, m, wires, clock), |wires|);
    if p.accepted != [] {
      SecondPassIs(s, m, wires, clock);
      AttemptIs(s, m, Survivors(wires, p.accepted), clock(|wires|));
      RankedIff(s.core, m, Survivors(wires, p.accepted), clock(|wires|));
    }
  }

  lemma SecondPassIs(s: Service, m: Mandate, wires: seq<Text>, clock: nat -> int)
    requires ValidMandate(m)
    requires Classify(Attempts(s, m, wires, clock), |wires|).Sorting?
    requires Classify(Attempts(s, m, wires, clock), |wires|).accepted != []
    ensures
      var p := Classify(Attempts(s, m, wires, clock), |wires|);
      var second := Attempt(s, m, Survivors(wires, p.accepted), clock(|wires|));
      AnswerFor(s, m, wires, clock) ==
        if second.Ok? then Answered(Some(second.value), p.accepted, p.rejected) else Failed(second.error)
  {}

  lemma AttemptIs(s: Service, m: Mandate, wires: seq<Text>, at: int)
    requires NeverCrashes(s)
    ensures
      var r := EvaluateV2(s.core, m, wires, at);
      Attempt(s, m, wires, at) == if r.Ok? then Ok(r.value) else Err(Failure(r.error.code, true))
  {
    assert s.crash(m, wires, at).None?;
  }

  /**
   The common case of it, with its code: an attestation accepted at the first reading and expired at the second fails
   the whole request.
   */
  lemma ExpiryBetweenPasses(s: Service, m: Mandate, wire: Text, e: Envelope, clock: nat -> int)
    requires NeverCrashes(s)
    requires s.core.trust.decode(wire) == Ok(e) && EvaluateV2(s.core, m, [wire], clock(0)).Ok?
    requires e.expiresAt <= clock(1) <= MAX_SAFE_INTEGER
    ensures AnswerFor(s, m, [wire], clock) == Failed(Failure("ATTESTATION_EXPIRED", true))
  {
    var wires := [wire];
    AloneNeedsTime(s.core, m, wire, clock(0));
    AloneIff(s.core, m, wire, clock(0));
    AcceptedIff(e, m, clock(0), s.core.maxClockSkewSeconds, s.core.trust);
    var attempts := Attempts(s, m, wires, clock);
    AttemptIs(s, m, wires, clock(0));
    AttemptIs(s, m, wires, clock(1));
    assert [wires[0]] == wires && attempts[0].Ok?;
    assert Classify(attempts, 0) == Sorting([], []);
    assert Classify(attempts, 1) == Sorting([0], []);
    assert Survivors(wires, [0]) == wires;
    ExpiredFails(s.core, m, wire, e, clock(1));
  }

  lemma ExpiredFails(core: Core, m: Mandate, wire: Text, e: Envelope, at: int)
    requires ValidMandate(m) && m.createdAt <= at <= MAX_SAFE_INTEGER && core.trust.decode(wire) == Ok(e)
    requires Sound(e, m, core.maxClockSkewSeconds, core.trust) && e.expiresAt <= at
    ensures EvaluateV2(core, m, [wire], at) == Err(CoreError("ATTESTATION_EXPIRED"))
  {
    assert [wire][0] == wire;
  }

  // ---- errors that are not Core's own ----

  /** The first pass reaches this attestation and dies of it. */
  ghost predicate DiesAt(s: Service, m: Mandate, wires: seq<Text>, clock: nat -> int, i: nat)
    requires i < |wires|
  {
    && s.crash(m, [wires[i]], clock(i)).Some?
    && forall j :: 0 <= j < i ==> s.crash(m, [wires[j]], clock(j)).None?
  }

  lemma {:induction false} NoCrashSorts(s: Service, m: Mandate, wires: seq<Text>, clock: nat -> int, n: nat)
    requires n <= |wires| && forall j :: 0 <= j < n ==> s.crash(m, [wires[j]], clock(j)).None?
    ensures Classify(Attempts(s, m, wires, clock), n).Sorting?
  {
    if n > 0 {
      NoCrashSorts(s, m, wires, clock, n - 1);
      assert s.crash(m, [wires[n - 1]], clock(n - 1)).None?;
    }
  }

  /**
   Exactly when the first pass gives up: at the first attestation whose evaluation dies of an error that is not Core's
   own, with that error and no fault of the client; the clock is not read again.
   */
  lemma FirstPassBreaksIff(s: Service, m: Mandate, wires: seq<Text>, clock: nat -> int)
    ensures Classify(Attempts(s, m, wires, clock), |wires|).Broken? <==>
            exists i :: 0 <= i < |wires| && s.crash(m, [wires[i]], clock(i)).Some?
  {
    if i :| 0 <= i < |wires| && s.crash(m, [wires[i]], clock(i)).Some? {
      var first := FirstCrash(s, m, wires, clock, i);
      CrashBreaks(s, m, wires, clock, first);
    } else {
      NoCrashSorts(s, m, wires, clock, |wires|);
    }
  }

  lemma {:induction false} FirstCrash(s: Service, m: Mandate, wires: seq<Text>, clock: nat -> int, i: nat) returns (first: nat)
    requires i < |wires| && s.crash(m, [wires[i]], clock(i)).Some?
    ensures first < |wires| && DiesAt(s, m, wires, clock, first)
  {
    if j :| 0 <= j < i && s.crash(m, [wires[j]], clock(j)).Some? {
      first := FirstCrash(s, m, wires, clock, j);
    } else {
      first := i;
    }
  }

  lemma CrashBreaks(s: Service, m: Mandate, wires: seq<Text>, clock: nat -> int, i: nat)
    requires i < |wires| && DiesAt(s, m, wires, clock, i)
    ensures Classify(Attempts(s, m, wires, clock), |wires|) == Broken(Failure(s.crash(m, [wires[i]], clock(i)).value, false))
  {
    NoCrashSorts(s, m, wires, clock, i);
    AttemptDies(s, m, [wires[i]], clock(i));
    BreaksThere(Attempts(s, m, wires, clock), i, Failure(s.crash(m, [wires[i]], clock(i)).value, false));
  }

  lemma BreaksThere(attempts: seq<Result<EvaluationResult, Failure>>, i: nat, f: Failure)
    requires i < |attempts| && Classify(attempts, i).Sorting? && attempts[i] == Err(f) && !f.clientFault
    ensures Classify(attempts, |attempts|) == Broken(f)
  {
    assert Classify(attempts, i + 1) == Next(Classify(attempts, i), i, attempts[i]);
    BreakIsFinal(attempts, i + 1, |attempts|);
  }

  lemma AttemptDies(s: Service, m: Mandate, wires: seq<Text>, at: int)
    requires s.crash(m, wires, at).Some?
    ensures Attempt(s, m, wires, at) == Err(Failure(s.crash(m, wires, at).value, false))
  {}

  lemma BrokenFails(s: Service, m: Mandate, wires: seq<Text>, clock: nat -> int)
    requires ValidMandate(m) && Classify(Attempts(s, m, wires, clock), |wires|).Broken?
    ensures AnswerFor(s, m, wires, clock) == Failed(Classify(Attempts(s, m, wires, clock), |wires|).failure)
  {}

  /** The request then fails with that error, as the server's fault. */
  lemma CrashAnswers(s: Service, m: Mandate, wires: seq<Text>, clock: nat -> int, i: nat)
    requires ValidMandate(m) && i < |wires| && DiesAt(s, m, wires, clock, i)
    ensures AnswerFor(s, m, wires, clock) == Failed(Failure(s.crash(m, [wires[i]], clock(i)).value, false))
  {
    CrashBreaks(s, m, wires, clock, i);
    BrokenFails(s, m, wires, clock);
  }

  /** And when the second pass dies so does the request, with no ranking and no partition. */
  lemma SecondCrashAnswers(s: Service, m: Mandate, wires: seq<Text>, clock: nat -> int)
    requires ValidMandate(m) && Classify(Attempts(s, m, wires, clock), |wires|).Sorting?
    requires Classify(Attempts(s, m, wires, clock), |wires|).accepted != []
    requires s.crash(m, Survivors(wires, Classify(Attempts(s, m, wires, clock), |wires|).accepted), clock(|wires|)).Some?
    ensures
      var survivors := Survivors(wires, Classify(Attempts(s, m, wires, clock), |wires|).accepted);
      AnswerFor(s, m, wires, clock) == Failed(Failure(s.crash(m, survivors, clock(|wires|)).value, false))
  {
    SecondPassIs(s, m, wires, clock);
    AttemptDies(s, m, Survivors(wires, Classify(Attempts(s, m, wires, clock), |wires|).accepted), clock(|wires|));
  }
}
