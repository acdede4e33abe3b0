/**
 Evaluating a set of attested quotes, the receipt, and the independent re-check (`evaluate.ts`).
 */
module Evaluation {
  import opened Foundations
  import opened Ordering
  import opened Marketplace
  import opened Attestation
  import opened Eligibility
  import Decimal

  // ---- candidate sets ----

  datatype Reference = Reference(quoteId: Text, candidate: Candidate)

  predicate SeenIdentity(refs: seq<Reference>, i: nat)
    requires i < |refs|
  {
    exists j :: 0 <= j < i && CandidateId(refs[j].candidate) == CandidateId(refs[i].candidate)
  }

  predicate SeenQuoteId(refs: seq<Reference>, i: nat)
    requires i < |refs|
  {
    exists j :: 0 <= j < i && refs[j].quoteId == refs[i].quoteId
  }

  /** The first repetition from position `i` on. */
  function FirstRepetition(refs: seq<Reference>, i: nat): Option<CoreError>
    requires i <= |refs|
    decreases |refs| - i
  {
    if i == |refs| then None
    else if SeenIdentity(refs, i) then Some(CoreError("DUPLICATE_CANDIDATE"))
    else if SeenQuoteId(refs, i) then Some(CoreError("DUPLICATE_QUOTE_ID"))
    else FirstRepetition(refs, i + 1)
  }

  function Inspect(refs: seq<Reference>): Option<CoreError> {
    if |refs| > MAX_CANDIDATES then Some(CoreError("CANDIDATE_LIMIT_EXCEEDED")) else FirstRepetition(refs, 0)
  }

  /** `inspectCandidateSet`: one pass with two growing sets. */
  method InspectCandidateSet(refs: seq<Reference>) returns (issue: Option<CoreError>)
    ensures issue == Inspect(refs)
  {
    if |refs| > MAX_CANDIDATES {
      return Some(CoreError("CANDIDATE_LIMIT_EXCEEDED"));
    }
    var identities: set<Text> := {};
    var quoteIds: set<Text> := {};
    for i := 0 to |refs|
      invariant forall x :: x in identities <==> exists j :: 0 <= j < i && CandidateId(refs[j].candidate) == x
      invariant forall x :: x in quoteIds <==> exists j :: 0 <= j < i && refs[j].quoteId == x
      invariant FirstRepetition(refs, 0) == FirstRepetition(refs, i)
    {
      var identity := CandidateId(refs[i].candidate);
      if identity in identities {
        return Some(CoreError("DUPLICATE_CANDIDATE"));
      }
      if refs[i].quoteId in quoteIds {
        return Some(CoreError("DUPLICATE_QUOTE_ID"));
      }
      identities := identities + {identity};
      quoteIds := quoteIds + {refs[i].quoteId};
    }
    return None;
  }

  /** No identity and no quote id occurs twice. */
  predicate Unique(refs: seq<Reference>) {
    forall i, j :: 0 <= i < j < |refs| ==>
      CandidateId(refs[i].candidate) != CandidateId(refs[j].candidate) && refs[i].quoteId != refs[j].quoteId
  }

  lemma {:induction false} NoRepetitionIff(refs: seq<Reference>, i: nat)
    requires i <= |refs|
    ensures FirstRepetition(refs, i).None? <==>
            forall k, j :: 0 <= j < k < |refs| && i <= k ==>
              CandidateId(refs[j].candidate) != CandidateId(refs[k].candidate) && refs[j].quoteId != refs[k].quoteId
    decreases |refs| - i
  {
    if i < |refs| {
      NoRepetitionIff(refs, i + 1);
    }
  }

  /** A candidate set is accepted exactly when it is small enough and every identity and quote id is its own. */
  lemma InspectIff(refs: seq<Reference>)
    ensures Inspect(refs).None? <==> |refs| <= 8 && Unique(refs)
  {
    NoRepetitionIff(refs, 0);
  }

  /** Every identity and quote id up to here is its own. */
  predicate DistinctUpTo(refs: seq<Reference>, n: nat)
    requires n <= |refs|
  {
    Unique(refs[..n])
  }

  lemma {:induction false} FirstRepetitionIs(refs: seq<Reference>, i: nat, n: nat)
    requires i <= n < |refs|
    requires forall k :: i <= k < n ==> !SeenIdentity(refs, k) && !SeenQuoteId(refs, k)
    ensures FirstRepetition(refs, i) == FirstRepetition(refs, n)
    decreases n - i
  {
    if i < n {
      FirstRepetitionIs(refs, i + 1, n);
    }
  }

  /** The code of a refused set is that of its first repetition, and a repeated identity takes precedence there. */
  lemma RefusalCode(refs: seq<Reference>, n: nat)
    requires |refs| <= MAX_CANDIDATES && n < |refs| && DistinctUpTo(refs, n)
    ensures (exists j :: 0 <= j < n && CandidateId(refs[j].candidate) == CandidateId(refs[n].candidate)) ==>
              Inspect(refs) == Some(CoreError("DUPLICATE_CANDIDATE"))
    ensures (&& (forall j :: 0 <= j < n ==> CandidateId(refs[j].candidate) != CandidateId(refs[n].candidate))
             && exists j :: 0 <= j < n && refs[j].quoteId == refs[n].quoteId) ==>
              Inspect(refs) == Some(CoreError("DUPLICATE_QUOTE_ID"))
  {
    forall k | 0 <= k < n ensures !SeenIdentity(refs, k) && !SeenQuoteId(refs, k) {
      forall j | 0 <= j < k
        ensures CandidateId(refs[j].candidate) != CandidateId(refs[k].candidate) && refs[j].quoteId != refs[k].quoteId
      {
        assert refs[..n][j] == refs[j] && refs[..n][k] == refs[k];
      }
    }
    FirstRepetitionIs(refs, 0, n);
  }

  function RefOf(q: Quote): Reference { Reference(q.quoteId, q.candidate) }

  function References(qs: seq<Quote>): seq<Reference> {
    seq(|qs|, i requires 0 <= i < |qs| => RefOf(qs[i]))
  }

  /** Whether a set is accepted does not depend on its order. */
  lemma UniquePermutes(xs: seq<Quote>, ys: seq<Quote>)
    requires multiset(xs) == multiset(ys) && Unique(References(xs))
    ensures |xs| == |ys| && Unique(References(ys))
  {
    assert |multiset(xs)| == |xs| && |multiset(ys)| == |ys|;
    var rs := References(ys);
    forall i, j | 0 <= i < j < |ys|
      ensures CandidateId(rs[i].candidate) != CandidateId(rs[j].candidate) && rs[i].quoteId != rs[j].quoteId
    {
      var k, l := Occurrences(xs, ys, i, j);
      assert References(xs)[k] == rs[i] && References(xs)[l] == rs[j];
    }
  }

  // ---- the two orders ----

  /** `compareQuotes`. */
  function CompareReferences(a: Reference, b: Reference): int {
    var byCandidate := CompareCandidates(a.candidate, b.candidate);
    if byCandidate != 0 then byCandidate else Compare(a.quoteId, b.quoteId)
  }

  lemma ReferenceOrder(a: Reference, b: Reference, c: Reference)
    ensures CompareReferences(a, b) <= 0 || CompareReferences(b, a) <= 0
    ensures CompareReferences(a, b) <= 0 && CompareReferences(b, c) <= 0 ==> CompareReferences(a, c) <= 0
    ensures CompareReferences(a, b) <= 0 && CompareReferences(b, a) <= 0 ==> CompareCandidates(a.candidate, b.candidate) == 0
  {
    CompareIsTotalOrder(a.quoteId, b.quoteId, c.quoteId);
    CompareIsTotalOrder(b.quoteId, a.quoteId, c.quoteId);
  }

  predicate QuoteLe(a: Quote, b: Quote) {
    CompareReferences(RefOf(a), RefOf(b)) <= 0
  }

  lemma QuoteOrder()
    ensures Total(QuoteLe) && Transitive(QuoteLe)
  {
    forall a, b ensures QuoteLe(a, b) || QuoteLe(b, a) { ReferenceOrder(RefOf(a), RefOf(b), RefOf(a)); }
    forall a, b, c | QuoteLe(a, b) && QuoteLe(b, c) ensures QuoteLe(a, c) { ReferenceOrder(RefOf(a), RefOf(b), RefOf(c)); }
  }

  predicate AllValid(qs: seq<Quote>) {
    forall i :: 0 <= i < |qs| ==> ValidQuote(qs[i])
  }

  lemma QuotesDistinguished(qs: seq<Quote>)
    requires AllValid(qs) && Unique(References(qs))
    ensures Distinguishes(QuoteLe, qs)
  {
    forall x, y | x in qs && y in qs && QuoteLe(x, y) && QuoteLe(y, x) ensures x == y {
      ReferenceOrder(RefOf(x), RefOf(y), RefOf(x));
      var i :| 0 <= i < |qs| && qs[i] == x;
      var j :| 0 <= j < |qs| && qs[j] == y;
      CompareEqualIsSameIdentity(x.candidate, y.candidate);
      assert References(qs)[i] == RefOf(x) && References(qs)[j] == RefOf(y);
    }
  }

  /** Sorted quotes do not remember the order the attestations came in. */
  lemma SortedQuotesAgree(xs: seq<Quote>, ys: seq<Quote>)
    requires multiset(xs) == multiset(ys) && AllValid(xs) && Unique(References(xs))
    ensures SortBy(QuoteLe, xs) == SortBy(QuoteLe, ys)
  {
    QuoteOrder();
    QuotesDistinguished(xs);
    SortForgetsOrder(QuoteLe, xs, ys);
  }

  // ---- receipts ----

  datatype QuotesSha256 = QuotesSha256(content: seq<Quote>)
  datatype DecisionSha256 = DecisionSha256(content: Decision)
  datatype DecisionsSha256 = DecisionsSha256(content: seq<Decision>)
  datatype RankingSha256 = RankingSha256(content: seq<Ranked>)
  datatype ReceiptSha256 = ReceiptSha256(content: ReceiptBody)

  datatype QuoteReference = QuoteReference(ref: Reference, sha256: QuoteSha256)
  datatype DecisionReference = DecisionReference(ref: Reference, sha256: DecisionSha256)

  datatype Ranked = Ranked(rank: nat, ref: Reference, score: Score)

  datatype Commitments = Commitments(
    mandateSha256: MandateSha256, quotesSha256: QuotesSha256, decisionsSha256: DecisionsSha256, rankingSha256: RankingSha256)

  datatype Summary = Summary(candidates: nat, eligible: nat, excluded: nat, inconclusive: nat, unsupported: nat)

  datatype ReceiptAdapter = SupportedAdapter | UnsupportedAdapter(code: string)

  datatype ReceiptBody = ReceiptBody(
    evaluatedAt: int, mandateId: string, category: Category, adapter: ReceiptAdapter, commitments: Commitments,
    quotes: seq<QuoteReference>, decisions: seq<DecisionReference>, ranking: seq<Ranked>, summary: Summary)

  datatype Receipt = Receipt(body: ReceiptBody, receiptId: ReceiptSha256)

  datatype EvaluationResult = EvaluationResult(
    mandate: Mandate, quotes: seq<Quote>, decisions: seq<Decision>, receipt: Receipt)

  function AdapterFor(c: Category): ReceiptAdapter {
    if c.Rebalancing? then SupportedAdapter else UnsupportedAdapter(UnsupportedCode(c))
  }

  function DecisionRef(d: Decision): Reference { Reference(d.quoteId, d.candidate) }

  predicate Rankable(d: Decision) { d.outcome.Eligible? && d.score.Some? }

  function KeepRankable(ds: seq<Decision>): (r: seq<Decision>)
    ensures forall d :: d in r <==> d in ds && Rankable(d)
  {
    if ds == [] then []
    else
      var rest := KeepRankable(ds[1..]);
      assert ds == [ds[0]] + ds[1..];
      if Rankable(ds[0]) then [ds[0]] + rest else rest
  }

  function CompareRanked(a: Decision, b: Decision): int
    requires a.score.Some? && b.score.Some?
  {
    var byScore := b.score.value.weightedTotal - a.score.value.weightedTotal;
    if byScore != 0 then byScore else CompareReferences(DecisionRef(a), DecisionRef(b))
  }

  predicate RankLe(a: Decision, b: Decision) {
    if a.score.None? then b.score.None? else b.score.None? || CompareRanked(a, b) <= 0
  }

  function RankOrder(ds: seq<Decision>): seq<Decision> {
    SortBy(RankLe, KeepRankable(ds))
  }

  function RankingOf(sorted: seq<Decision>): seq<Ranked>
    requires forall i :: 0 <= i < |sorted| ==> sorted[i].score.Some?
  {
    seq(|sorted|, i requires 0 <= i < |sorted| => Ranked(i + 1, DecisionRef(sorted[i]), sorted[i].score.value))
  }

  lemma RankOrderIsRankable(ds: seq<Decision>)
    ensures forall i :: 0 <= i < |RankOrder(ds)| ==> RankOrder(ds)[i] in ds && Rankable(RankOrder(ds)[i])
  {
    forall i | 0 <= i < |RankOrder(ds)| ensures RankOrder(ds)[i] in ds && Rankable(RankOrder(ds)[i]) {
      assert RankOrder(ds)[i] in RankOrder(ds);
    }
  }

  function Ranking(ds: seq<Decision>): seq<Ranked> {
    RankOrderIsRankable(ds);
    RankingOf(RankOrder(ds))
  }

  function CountOutcome(ds: seq<Decision>, o: Outcome): nat {
    if ds == [] then 0 else (if ds[0].outcome == o then 1 else 0) + CountOutcome(ds[1..], o)
  }

  function BodyOf(m: Mandate, qs: seq<Quote>, ds: seq<Decision>, at: int): ReceiptBody {
    ReceiptBody(at, m.mandateId, m.category, AdapterFor(m.category),
      Commitments(MandateSha256(m), QuotesSha256(qs), DecisionsSha256(ds), RankingSha256(Ranking(ds))),
      seq(|qs|, i requires 0 <= i < |qs| => QuoteReference(RefOf(qs[i]), QuoteSha256(qs[i]))),
      seq(|ds|, i requires 0 <= i < |ds| => DecisionReference(DecisionRef(ds[i]), DecisionSha256(ds[i]))),
      Ranking(ds),
      Summary(|ds|, CountOutcome(ds, Eligible), CountOutcome(ds, Excluded), CountOutcome(ds, InconclusiveOutcome),
        CountOutcome(ds, UnsupportedOutcome)))
  }

  function BuildReceipt(m: Mandate, qs: seq<Quote>, ds: seq<Decision>, at: int): Receipt {
    Receipt(BodyOf(m, qs, ds, at), ReceiptSha256(BodyOf(m, qs, ds, at)))
  }

  // ---- evaluation ----

  function Decisions(m: Mandate, qs: seq<Quote>, at: int): seq<Decision> {
    seq(|qs|, i requires 0 <= i < |qs| => Decide(m, qs[i], at))
  }

  function Assemble(m: Mandate, qs: seq<Quote>, at: int): EvaluationResult {
    EvaluationResult(m, qs, Decisions(m, qs, at), BuildReceipt(m, qs, Decisions(m, qs, at), at))
  }

  /** Evaluation once the quotes are there: refuse a bad set, sort, decide and issue the receipt. */
  function EvaluateQuotes(m: Mandate, qs: seq<Quote>, at: int): Result<EvaluationResult, CoreError> {
    match Inspect(References(qs))
    case Some(e) => Err(e)
    case None => Ok(Assemble(m, SortBy(QuoteLe, qs), at))
  }

  /** `validateEvaluationTime`. */
  function EvaluationTimeError(m: Mandate, at: int): Option<CoreError> {
    if !(0 < at <= MAX_SAFE_INTEGER) then Some(CoreError("EVALUATED_AT_INVALID"))
    else if at < m.createdAt then Some(CoreError("EVALUATED_AT_BEFORE_MANDATE"))
    else None
  }

  datatype Core = Core(trust: AttestationTrust, maxClockSkewSeconds: int)

  /** One wire: verified, then read as a projection captured when the attestation was issued. */
  function Project(core: Core, m: Mandate, at: int, wire: Text): Result<Projection, CoreError> {
    match VerifyAttestation(wire, m, at, core.maxClockSkewSeconds, core.trust)
    case Err(e) => Err(e)
    case Ok(e) =>
      var p := Projection(e.issuedAt, e.payload);
      if ValidProjection(p) then Ok(p) else Err(CoreError("ATTESTATION_SCHEMA_INVALID"))
  }

  /** All wires in order; the first failure is the failure. */
  function ProjectAll(core: Core, m: Mandate, at: int, wires: seq<Text>): Result<seq<Projection>, CoreError> {
    if wires == [] then Ok([])
    else
      match Project(core, m, at, wires[0])
      case Err(e) => Err(e)
      case Ok(p) =>
        match ProjectAll(core, m, at, wires[1..])
        case Err(e) => Err(e)
        case Ok(rest) => Ok([p] + rest)
  }

  function ProjectionReferences(ps: seq<Projection>): seq<Reference> {
    seq(|ps|, i requires 0 <= i < |ps| => Reference(ps[i].payload.quoteId, ps[i].payload.candidate))
  }

  function NormalizedQuotes(ps: seq<Projection>): seq<Quote> {
    seq(|ps|, i requires 0 <= i < |ps| => NormalizeProjection(ps[i]))
  }

  /** `evaluateMarketplaceV2`, with the time its clock returned. */
  function EvaluateV2(core: Core, m: Mandate, wires: seq<Text>, at: int): Result<EvaluationResult, CoreError> {
    if |wires| > MAX_CANDIDATES then Err(CoreError("CANDIDATE_LIMIT_EXCEEDED"))
    else if !ValidMandate(m) then Err(CoreError("MANDATE_INVALID"))
    else if EvaluationTimeError(m, at).Some? then Err(EvaluationTimeError(m, at).value)
    else
      match ProjectAll(core, m, at, wires)
      case Err(e) => Err(e)
      case Ok(ps) =>
        match Inspect(ProjectionReferences(ps))
        case Some(e) => Err(e)
        case None => Ok(Assemble(m, SortBy(QuoteLe, NormalizedQuotes(ps)), at))
  }

  lemma V2IsEvaluateQuotes(core: Core, m: Mandate, wires: seq<Text>, at: int)
    requires |wires| <= MAX_CANDIDATES && ValidMandate(m) && EvaluationTimeError(m, at).None?
    requires ProjectAll(core, m, at, wires).Ok?
    ensures EvaluateV2(core, m, wires, at) == EvaluateQuotes(m, NormalizedQuotes(ProjectAll(core, m, at, wires).value), at)
  {
    var ps := ProjectAll(core, m, at, wires).value;
    assert ProjectionReferences(ps) == References(NormalizedQuotes(ps));
  }

  /** The quotes behind a list of wires that all verify. */
  lemma {:induction false} ProjectAllIff(core: Core, m: Mandate, at: int, wires: seq<Text>)
    ensures ProjectAll(core, m, at, wires).Ok? <==> forall i :: 0 <= i < |wires| ==> Project(core, m, at, wires[i]).Ok?
    ensures ProjectAll(core, m, at, wires).Ok? ==>
              var ps := ProjectAll(core, m, at, wires).value;
              |ps| == |wires| && forall i :: 0 <= i < |ps| ==> Project(core, m, at, wires[i]) == Ok(ps[i])
  {
    if wires != [] {
      ProjectAllIff(core, m, at, wires[1..]);
      assert forall i :: 0 < i < |wires| ==> wires[i] == wires[1..][i - 1];
    }
  }

  lemma ProjectionsAreValid(core: Core, m: Mandate, at: int, wires: seq<Text>)
    requires ProjectAll(core, m, at, wires).Ok?
    ensures AllValid(NormalizedQuotes(ProjectAll(core, m, at, wires).value))
  {
    ProjectAllIff(core, m, at, wires);
    var ps := ProjectAll(core, m, at, wires).value;
    forall i | 0 <= i < |ps| ensures ValidQuote(NormalizedQuotes(ps)[i]) {
      assert Project(core, m, at, wires[i]) == Ok(ps[i]);
      NormalizeIsValid(ps[i]);
    }
  }

  // ---- the order of the attestations does not matter ----

  lemma RemoveMatching<T>(xs: seq<T>, ys: seq<T>) returns (k: nat)
    requires xs != [] && multiset(xs) == multiset(ys)
    ensures k < |ys| && ys[k] == xs[0] && multiset(ys[..k] + ys[k + 1..]) == multiset(xs[1..])
  {
    assert xs[0] in multiset(ys);
    k :| 0 <= k < |ys| && ys[k] == xs[0];
    TailMultiset(xs);
    assert ys == ys[..k] + [ys[k]] + ys[k + 1..];
  }

  lemma {:induction false} ProjectionsPermute(core: Core, m: Mandate, at: int, xs: seq<Text>, ys: seq<Text>)
    requires multiset(xs) == multiset(ys)
    requires ProjectAll(core, m, at, xs).Ok? && ProjectAll(core, m, at, ys).Ok?
    ensures multiset(NormalizedQuotes(ProjectAll(core, m, at, xs).value)) == multiset(NormalizedQuotes(ProjectAll(core, m, at, ys).value))
    decreases |xs|
  {
    if xs == [] {
      assert |multiset(ys)| == 0;
    } else {
      var k := RemoveMatching(xs, ys);
      DropOne(core, m, at, ys, k);
      DropFirst(core, m, at, xs);
      ProjectionsPermute(core, m, at, xs[1..], ys[..k] + ys[k + 1..]);
    }
  }

  lemma DropFirst(core: Core, m: Mandate, at: int, xs: seq<Text>)
    requires xs != [] && ProjectAll(core, m, at, xs).Ok?
    ensures ProjectAll(core, m, at, xs[1..]).Ok? && Project(core, m, at, xs[0]).Ok?
    ensures multiset(NormalizedQuotes(ProjectAll(core, m, at, xs).value))
            == multiset(NormalizedQuotes(ProjectAll(core, m, at, xs[1..]).value))
               + multiset{NormalizeProjection(Project(core, m, at, xs[0]).value)}
  {
    DropOne(core, m, at, xs, 0);
    assert xs[..0] + xs[1..] == xs[1..];
  }

  lemma DropOne(core: Core, m: Mandate, at: int, ys: seq<Text>, k: nat)
    requires k < |ys| && ProjectAll(core, m, at, ys).Ok?
    ensures
      var rest := ys[..k] + ys[k + 1..];
      && ProjectAll(core, m, at, rest).Ok? && Project(core, m, at, ys[k]).Ok?
      && multiset(NormalizedQuotes(ProjectAll(core, m, at, ys).value))
           == multiset(NormalizedQuotes(ProjectAll(core, m, at, rest).value))
              + multiset{NormalizeProjection(Project(core, m, at, ys[k]).value)}
  {
    var rest := ys[..k] + ys[k + 1..];
    ProjectAllIff(core, m, at, ys);
    ProjectAllIff(core, m, at, rest);
    var ps := ProjectAll(core, m, at, ys).value;
    var qs := NormalizedQuotes(ps);
    var rs := NormalizedQuotes(ProjectAll(core, m, at, rest).value);
    assert Project(core, m, at, ys[k]) == Ok(ps[k]);
    forall i | 0 <= i < |rest| ensures rs[i] == qs[if i < k then i else i + 1] {
      var j := if i < k then i else i + 1;
      assert rest[i] == ys[j];
      assert Project(core, m, at, rest[i]) == Ok(ps[j]);
    }
    WithoutOne(qs, rs, k);
  }

  /**
   Any permutation of the attestations gives the same evaluation: it succeeds for one exactly when it does for the
   other, and then quotes, decisions, ranking and receipt id are the same.
   */
  lemma EvaluationIgnoresOrder(core: Core, m: Mandate, xs: seq<Text>, ys: seq<Text>, at: int)
    requires multiset(xs) == multiset(ys)
    ensures EvaluateV2(core, m, xs, at).Ok? <==> EvaluateV2(core, m, ys, at).Ok?
    ensures EvaluateV2(core, m, xs, at).Ok? ==> EvaluateV2(core, m, xs, at) == EvaluateV2(core, m, ys, at)
  {
    if EvaluateV2(core, m, xs, at).Ok? {
      SuccessPermutes(core, m, xs, ys, at);
    }
    if EvaluateV2(core, m, ys, at).Ok? {
      SuccessPermutes(core, m, ys, xs, at);
    }
  }

  lemma SuccessPermutes(core: Core, m: Mandate, xs: seq<Text>, ys: seq<Text>, at: int)
    requires multiset(xs) == multiset(ys) && EvaluateV2(core, m, xs, at).Ok?
    ensures EvaluateV2(core, m, xs, at) == EvaluateV2(core, m, ys, at)
  {
    assert |multiset(xs)| == |xs| && |multiset(ys)| == |ys|;
    ProjectAllIff(core, m, at, xs);
    ProjectAllIff(core, m, at, ys);
    forall i | 0 <= i < |ys| ensures Project(core, m, at, ys[i]).Ok? {
      assert ys[i] in multiset(ys);
      assert ys[i] in xs;
    }
    ProjectionsPermute(core, m, at, xs, ys);
    ProjectionsAreValid(core, m, at, xs);
    V2IsEvaluateQuotes(core, m, xs, at);
    V2IsEvaluateQuotes(core, m, ys, at);
    QuotesPermute(m, NormalizedQuotes(ProjectAll(core, m, at, xs).value), NormalizedQuotes(ProjectAll(core, m, at, ys).value), at);
  }

  lemma QuotesPermute(m: Mandate, xs: seq<Quote>, ys: seq<Quote>, at: int)
    requires multiset(xs) == multiset(ys) && AllValid(xs) && EvaluateQuotes(m, xs, at).Ok?
    ensures EvaluateQuotes(m, ys, at) == EvaluateQuotes(m, xs, at)
  {
    InspectIff(References(xs));
    UniquePermutes(xs, ys);
    InspectIff(References(ys));
    SortedQuotesAgree(xs, ys);
  }

  // ---- the receipt schema ----

  predicate UniqueRanked(rs: seq<Ranked>) {
    forall i, j :: 0 <= i < j < |rs| ==>
      CandidateId(rs[i].ref.candidate) != CandidateId(rs[j].ref.candidate) && rs[i].ref.quoteId != rs[j].ref.quoteId
  }

  /** `referenceKey` as the tuple it spells: identity and quote id. */
  function ReferenceKey(r: Reference): (Text, Text) {
    (CandidateId(r.candidate), r.quoteId)
  }

  predicate Quoted(rs: seq<QuoteReference>, r: Reference) {
    exists i :: 0 <= i < |rs| && ReferenceKey(rs[i].ref) == ReferenceKey(r)
  }

  /** `marketplaceReceiptSchema`: bounds and cross-field rules. */
  predicate ValidReceipt(receipt: Receipt) {
    var r := receipt.body;
    && 0 < r.evaluatedAt <= MAX_SAFE_INTEGER
    && |r.quotes| <= 8 && |r.decisions| <= 8 && |r.ranking| <= 8
    && (forall i :: 0 <= i < |r.ranking| ==> ValidScore(r.ranking[i].score) && r.ranking[i].rank == i + 1)
    && Unique(seq(|r.quotes|, i requires 0 <= i < |r.quotes| => r.quotes[i].ref))
    && Unique(seq(|r.decisions|, i requires 0 <= i < |r.decisions| => r.decisions[i].ref))
    && UniqueRanked(r.ranking)
    && |r.quotes| == |r.decisions|
    && (forall i :: 0 <= i < |r.quotes| ==> ReferenceKey(r.quotes[i].ref) == ReferenceKey(r.decisions[i].ref))
    && (forall i :: 0 <= i < |r.ranking| ==> Quoted(r.quotes, r.ranking[i].ref))
    && r.summary.candidates == |r.quotes|
    && r.summary.eligible + r.summary.excluded + r.summary.inconclusive + r.summary.unsupported == r.summary.candidates
    && |r.ranking| == r.summary.eligible
    && r.adapter == AdapterFor(r.category)
  }

  lemma {:induction false} CountsAddUp(ds: seq<Decision>)
    ensures CountOutcome(ds, Eligible) + CountOutcome(ds, Excluded) + CountOutcome(ds, InconclusiveOutcome)
            + CountOutcome(ds, UnsupportedOutcome) == |ds|
  {
    if ds != [] {
      CountsAddUp(ds[1..]);
    }
  }

  lemma {:induction false} RankableCount(ds: seq<Decision>)
    requires forall i :: 0 <= i < |ds| ==> (ds[i].outcome.Eligible? <==> ds[i].score.Some?)
    ensures |KeepRankable(ds)| == CountOutcome(ds, Eligible)
  {
    if ds != [] {
      RankableCount(ds[1..]);
    }
  }

  /** Keeping some decisions keeps them in order, so kept decisions have distinct positions. */
  lemma {:induction false} KeptPositions(ds: seq<Decision>, i: nat, j: nat) returns (k: nat, l: nat)
    requires i < j < |KeepRankable(ds)|
    ensures k < l < |ds| && ds[k] == KeepRankable(ds)[i] && ds[l] == KeepRankable(ds)[j]
  {
    assert ds != [];
    var kept := KeepRankable(ds[1..]);
    if !Rankable(ds[0]) {
      k, l := KeptPositions(ds[1..], i, j);
      k, l := k + 1, l + 1;
    } else if i == 0 {
      assert kept[j - 1] in ds[1..];
      k := 0;
      l :| 1 <= l < |ds| && ds[l] == kept[j - 1];
    } else {
      k, l := KeptPositions(ds[1..], i - 1, j - 1);
      k, l := k + 1, l + 1;
    }
  }

  predicate UniqueDecisions(ds: seq<Decision>) {
    forall i, j :: 0 <= i < j < |ds| ==>
      CandidateId(ds[i].candidate) != CandidateId(ds[j].candidate) && ds[i].quoteId != ds[j].quoteId
  }

  lemma RankOrderUnique(ds: seq<Decision>)
    requires UniqueDecisions(ds)
    ensures UniqueDecisions(RankOrder(ds))
  {
    var kept := KeepRankable(ds);
    forall i, j | 0 <= i < j < |kept|
      ensures CandidateId(kept[i].candidate) != CandidateId(kept[j].candidate) && kept[i].quoteId != kept[j].quoteId
    {
      var k, l := KeptPositions(ds, i, j);
    }
    SortByPermutes(RankLe, kept);
    UniqueDecisionsPermute(kept, RankOrder(ds));
  }

  lemma UniqueDecisionsPermute(xs: seq<Decision>, ys: seq<Decision>)
    requires multiset(xs) == multiset(ys) && UniqueDecisions(xs)
    ensures UniqueDecisions(ys)
  {
    forall i: nat, j: nat | 0 <= i < j < |ys|
      ensures CandidateId(ys[i].candidate) != CandidateId(ys[j].candidate) && ys[i].quoteId != ys[j].quoteId
    {
      var k, l := Occurrences(xs, ys, i, j);
    }
  }

  /** The receipt of decided valid quotes with unique references always satisfies the receipt schema. */
  lemma ReceiptIsValid(m: Mandate, qs: seq<Quote>, at: int)
    requires ValidMandate(m) && AllValid(qs) && Unique(References(qs)) && |qs| <= 8 && 0 < at <= MAX_SAFE_INTEGER
    ensures ValidReceipt(BuildReceipt(m, qs, Decisions(m, qs, at), at))
  {
    var ds := Decisions(m, qs, at);
    var r := BodyOf(m, qs, ds, at);
    DecisionsValid(m, qs, at);
    CountsAddUp(ds);
    RankableCount(ds);
    ReferencesValid(m, qs, at);
    RankingValid(m, qs, at);
  }

  lemma DecisionsValid(m: Mandate, qs: seq<Quote>, at: int)
    requires ValidMandate(m) && AllValid(qs) && 0 < at <= MAX_SAFE_INTEGER
    ensures forall i :: 0 <= i < |qs| ==> ValidDecision(Decisions(m, qs, at)[i])
    ensures forall i :: 0 <= i < |qs| ==>
              (Decisions(m, qs, at)[i].outcome.Eligible? <==> Decisions(m, qs, at)[i].score.Some?)
  {
    forall i | 0 <= i < |qs| ensures ValidDecision(Decisions(m, qs, at)[i]) {
      DecisionIsValid(m, qs[i], at);
    }
  }

  lemma ReferencesValid(m: Mandate, qs: seq<Quote>, at: int)
    requires Unique(References(qs))
    ensures
      var r := BodyOf(m, qs, Decisions(m, qs, at), at);
      && Unique(seq(|r.quotes|, i requires 0 <= i < |r.quotes| => r.quotes[i].ref))
      && Unique(seq(|r.decisions|, i requires 0 <= i < |r.decisions| => r.decisions[i].ref))
      && (forall i :: 0 <= i < |r.quotes| ==> ReferenceKey(r.quotes[i].ref) == ReferenceKey(r.decisions[i].ref))
  {
    var r := BodyOf(m, qs, Decisions(m, qs, at), at);
    forall i | 0 <= i < |qs| ensures r.quotes[i].ref == References(qs)[i] == r.decisions[i].ref {
      DecideKeepsReference(m, qs[i], at);
    }
    assert seq(|r.quotes|, i requires 0 <= i < |r.quotes| => r.quotes[i].ref) == References(qs);
    assert seq(|r.decisions|, i requires 0 <= i < |r.decisions| => r.decisions[i].ref) == References(qs);
  }

  lemma DecideKeepsReference(m: Mandate, q: Quote, at: int)
    ensures DecisionRef(Decide(m, q, at)) == RefOf(q)
  {}

  lemma RankingValid(m: Mandate, qs: seq<Quote>, at: int)
    requires ValidMandate(m) && AllValid(qs) && Unique(References(qs)) && 0 < at <= MAX_SAFE_INTEGER
    ensures
      var r := BodyOf(m, qs, Decisions(m, qs, at), at);
      && (forall i :: 0 <= i < |r.ranking| ==> ValidScore(r.ranking[i].score) && r.ranking[i].rank == i + 1)
      && UniqueRanked(r.ranking)
      && (forall i :: 0 <= i < |r.ranking| ==> Quoted(r.quotes, r.ranking[i].ref))
      && |r.ranking| == |KeepRankable(Decisions(m, qs, at))|
  {
    var ds := Decisions(m, qs, at);
    var r := BodyOf(m, qs, ds, at);
    DecisionsValid(m, qs, at);
    RankOrderIsRankable(ds);
    DecisionsUnique(m, qs, at);
    RankOrderUnique(ds);
    forall i | 0 <= i < |r.ranking| ensures ValidScore(r.ranking[i].score) && Quoted(r.quotes, r.ranking[i].ref) {
      var d := RankOrder(ds)[i];
      var k :| 0 <= k < |ds| && ds[k] == d;
      assert ValidDecision(ds[k]);
      DecideKeepsReference(m, qs[k], at);
      assert ReferenceKey(r.quotes[k].ref) == ReferenceKey(r.ranking[i].ref);
    }
  }

  lemma DecisionsUnique(m: Mandate, qs: seq<Quote>, at: int)
    requires Unique(References(qs))
    ensures UniqueDecisions(Decisions(m, qs, at))
  {
    var ds := Decisions(m, qs, at);
    forall i, j | 0 <= i < j < |ds|
      ensures CandidateId(ds[i].candidate) != CandidateId(ds[j].candidate) && ds[i].quoteId != ds[j].quoteId
    {
      DecideKeepsReference(m, qs[i], at);
      DecideKeepsReference(m, qs[j], at);
      assert References(qs)[i] == DecisionRef(ds[i]) && References(qs)[j] == DecisionRef(ds[j]);
    }
  }

  // ---- the ranking ----

  lemma RankedOrder()
    ensures Total(RankLe) && Transitive(RankLe)
  {
    forall a, b ensures RankLe(a, b) || RankLe(b, a) {
      ReferenceOrder(DecisionRef(a), DecisionRef(b), DecisionRef(a));
    }
    forall a, b, c | RankLe(a, b) && RankLe(b, c) ensures RankLe(a, c) {
      ReferenceOrder(DecisionRef(a), DecisionRef(b), DecisionRef(c));
    }
  }

  /** The ranking holds exactly the eligible decisions, better scores first and equal scores in candidate order. */
  lemma RankingIsSorted(ds: seq<Decision>, i: nat, j: nat)
    requires i < j < |Ranking(ds)|
    ensures Ranking(ds)[i].score.weightedTotal > Ranking(ds)[j].score.weightedTotal
            || (Ranking(ds)[i].score.weightedTotal == Ranking(ds)[j].score.weightedTotal
                && CompareReferences(Ranking(ds)[i].ref, Ranking(ds)[j].ref) <= 0)
    ensures multiset(RankOrder(ds)) == multiset(KeepRankable(ds))
  {
    RankedOrder();
    SortBySorted(RankLe, KeepRankable(ds));
    SortByPermutes(RankLe, KeepRankable(ds));
    RankOrderIsRankable(ds);
    assert RankLe(RankOrder(ds)[i], RankOrder(ds)[j]);
  }

  // ---- the independent re-check ----

  predicate AllValidDecisions(ds: seq<Decision>) {
    forall i :: 0 <= i < |ds| ==> ValidDecision(ds[i])
  }

  function DecisionReferences(ds: seq<Decision>): seq<Reference> {
    seq(|ds|, i requires 0 <= i < |ds| => DecisionRef(ds[i]))
  }

  /**
   `verifyMarketplaceEvaluationConsistency` on a typed result; an artifact that is not already in normal form is
   refused, so accepted artifacts are values of their schemas.
   */
  function VerifyConsistency(r: EvaluationResult): Result<EvaluationResult, CoreError> {
    if !ValidMandate(r.mandate) then Err(CoreError("INTEGRITY_MANDATE_INVALID"))
    else if |r.quotes| > MAX_CANDIDATES || |r.decisions| > MAX_CANDIDATES then Err(CoreError("INTEGRITY_RESULT_TOO_LARGE"))
    else if |r.quotes| != |r.decisions| then Err(CoreError("INTEGRITY_RESULT_SHAPE_INVALID"))
    else if !AllValid(r.quotes) then Err(CoreError("INTEGRITY_QUOTES_INVALID"))
    else if !AllValidDecisions(r.decisions) then Err(CoreError("INTEGRITY_DECISIONS_INVALID"))
    else if !ValidReceipt(r.receipt) then Err(CoreError("INTEGRITY_RECEIPT_INVALID"))
    else if EvaluationTimeError(r.mandate, r.receipt.body.evaluatedAt).Some?
    then Err(EvaluationTimeError(r.mandate, r.receipt.body.evaluatedAt).value)
    else if Inspect(References(r.quotes)).Some? || Inspect(DecisionReferences(r.decisions)).Some?
    then Err(CoreError("INTEGRITY_UNIQUENESS_INVALID"))
    else if r.receipt.body.mandateId != r.mandate.mandateId then Err(CoreError("INTEGRITY_RECEIPT_INVALID"))
    else if r.quotes != SortBy(QuoteLe, r.quotes) then Err(CoreError("INTEGRITY_RESULT_UNORDERED"))
    else if r.decisions != Decisions(r.mandate, r.quotes, r.receipt.body.evaluatedAt)
    then Err(CoreError("INTEGRITY_DECISIONS_INVALID"))
    else if r.receipt != BuildReceipt(r.mandate, r.quotes, r.decisions, r.receipt.body.evaluatedAt)
    then Err(CoreError("INTEGRITY_RECEIPT_INVALID"))
    else Ok(r)
  }

  lemma SortedAgain(qs: seq<Quote>)
    requires AllValid(qs) && Unique(References(qs))
    ensures
      var s := SortBy(QuoteLe, qs);
      |s| == |qs| && AllValid(s) && Unique(References(s)) && SortBy(QuoteLe, s) == s && multiset(s) == multiset(qs)
  {
    var s := SortBy(QuoteLe, qs);
    QuoteOrder();
    SortByPermutes(QuoteLe, qs);
    SortBySorted(QuoteLe, qs);
    UniquePermutes(qs, s);
    forall i | 0 <= i < |s| ensures ValidQuote(s[i]) {
      assert s[i] in qs;
    }
    QuotesDistinguished(s);
    SortFixesSorted(QuoteLe, s);
  }

  /** Soundness: what the re-check accepts is the evaluation of its mandate, quotes and time, in whatever order. */
  lemma ConsistencyIsSound(r: EvaluationResult, qs: seq<Quote>)
    requires VerifyConsistency(r).Ok? && multiset(qs) == multiset(r.quotes)
    ensures VerifyConsistency(r).value == r
    ensures EvaluateQuotes(r.mandate, qs, r.receipt.body.evaluatedAt) == Ok(r)
  {
    AcceptedIsEvaluated(r);
    QuotesPermute(r.mandate, r.quotes, qs, r.receipt.body.evaluatedAt);
  }

  lemma AcceptedIsEvaluated(r: EvaluationResult)
    requires VerifyConsistency(r).Ok?
    ensures VerifyConsistency(r).value == r && AllValid(r.quotes)
    ensures EvaluateQuotes(r.mandate, r.quotes, r.receipt.body.evaluatedAt) == Ok(r)
  {}

  /** Completeness: the re-check accepts every evaluation of a valid mandate and valid quotes. */
  lemma ConsistencyIsComplete(m: Mandate, qs: seq<Quote>, at: int)
    requires ValidMandate(m) && AllValid(qs) && EvaluationTimeError(m, at).None? && EvaluateQuotes(m, qs, at).Ok?
    ensures
      var r := EvaluateQuotes(m, qs, at).value;
      VerifyConsistency(r) == Ok(r)
  {
    InspectIff(References(qs));
    SortedAgain(qs);
    var s := SortBy(QuoteLe, qs);
    ReceiptIsValid(m, s, at);
    DecisionsValid(m, s, at);
    InspectIff(References(s));
    DecisionsKeepReferences(m, s, at);
    AssembledIsConsistent(m, s, at);
  }

  lemma DecisionsKeepReferences(m: Mandate, qs: seq<Quote>, at: int)
    ensures DecisionReferences(Decisions(m, qs, at)) == References(qs)
  {
    forall i | 0 <= i < |qs| ensures DecisionReferences(Decisions(m, qs, at))[i] == References(qs)[i] {
      DecideKeepsReference(m, qs[i], at);
    }
  }

  lemma AssembledAt(m: Mandate, qs: seq<Quote>, at: int)
    ensures
      var r := Assemble(m, qs, at);
      && r.mandate == m && r.quotes == qs && r.decisions == Decisions(m, qs, at) && |r.decisions| == |qs|
      && r.receipt == BuildReceipt(m, qs, Decisions(m, qs, at), at)
      && r.receipt.body.evaluatedAt == at && r.receipt.body.mandateId == m.mandateId
  {}

  lemma PassesAll(r: EvaluationResult)
    requires ValidMandate(r.mandate) && |r.quotes| == |r.decisions| <= MAX_CANDIDATES
    requires AllValid(r.quotes) && AllValidDecisions(r.decisions) && ValidReceipt(r.receipt)
    requires EvaluationTimeError(r.mandate, r.receipt.body.evaluatedAt).None? && r.receipt.body.mandateId == r.mandate.mandateId
    requires Inspect(References(r.quotes)).None? && Inspect(DecisionReferences(r.decisions)).None?
    requires r.quotes == SortBy(QuoteLe, r.quotes) && r.decisions == Decisions(r.mandate, r.quotes, r.receipt.body.evaluatedAt)
    requires r.receipt == BuildReceipt(r.mandate, r.quotes, r.decisions, r.receipt.body.evaluatedAt)
    ensures VerifyConsistency(r) == Ok(r)
  {}

  lemma AssembledIsConsistent(m: Mandate, qs: seq<Quote>, at: int)
    requires ValidMandate(m) && AllValid(qs) && |qs| <= MAX_CANDIDATES && EvaluationTimeError(m, at).None?
    requires Inspect(References(qs)).None? && DecisionReferences(Decisions(m, qs, at)) == References(qs)
    requires SortBy(QuoteLe, qs) == qs
    requires AllValidDecisions(Decisions(m, qs, at)) && ValidReceipt(BuildReceipt(m, qs, Decisions(m, qs, at), at))
    ensures VerifyConsistency(Assemble(m, qs, at)) == Ok(Assemble(m, qs, at))
  {
    AssembledAt(m, qs, at);
    PassesAll(Assemble(m, qs, at));
  }

  /** Every evaluation of attestations passes the re-check. */
  lemma EvaluatedIsConsistent(core: Core, m: Mandate, wires: seq<Text>, at: int)
    requires EvaluateV2(core, m, wires, at).Ok?
    ensures VerifyConsistency(EvaluateV2(core, m, wires, at).value) == EvaluateV2(core, m, wires, at)
  {
    V2IsEvaluateQuotes(core, m, wires, at);
    ProjectionsAreValid(core, m, at, wires);
    ConsistencyIsComplete(m, NormalizedQuotes(ProjectAll(core, m, at, wires).value), at);
  }

  /** The receipt id commits to everything: two accepted results with one receipt id are the same result. */
  lemma ReceiptIdCommits(r: EvaluationResult, s: EvaluationResult)
    requires VerifyConsistency(r).Ok? && VerifyConsistency(s).Ok?
    requires r.receipt.receiptId == s.receipt.receiptId
    ensures r == s
  {
    var a, b := r.receipt.body.commitments, s.receipt.body.commitments;
    assert a.mandateSha256.content == r.mandate && b.mandateSha256.content == s.mandate;
    assert a.quotesSha256.content == r.quotes && b.quotesSha256.content == s.quotes;
  }

  // ---- what the re-check says of an accepted result that is tampered with ----

  /** Another receipt for the same instant is refused as such, whatever it claims. */
  lemma ForgedReceiptIsRefused(r: EvaluationResult, receipt: Receipt)
    requires VerifyConsistency(r).Ok? && receipt != r.receipt && receipt.body.evaluatedAt == r.receipt.body.evaluatedAt
    ensures VerifyConsistency(r.(receipt := receipt)) == Err(CoreError("INTEGRITY_RECEIPT_INVALID"))
  {}

  /** The same quotes in any other order are refused for their order. */
  lemma ReorderedQuotesAreRefused(r: EvaluationResult, qs: seq<Quote>)
    requires VerifyConsistency(r).Ok? && multiset(qs) == multiset(r.quotes) && qs != r.quotes
    ensures VerifyConsistency(r.(quotes := qs)) == Err(CoreError("INTEGRITY_RESULT_UNORDERED"))
  {
    AcceptedIsSorted(r);
    InspectIff(References(r.quotes));
    UniquePermutes(r.quotes, qs);
    InspectIff(References(qs));
    SortedQuotesAgree(r.quotes, qs);
    assert |multiset(qs)| == |qs| && |multiset(r.quotes)| == |r.quotes|;
    forall i | 0 <= i < |qs| ensures ValidQuote(qs[i]) {
      assert qs[i] in multiset(qs);
    }
    AcceptedPasses(r);
    UnorderedIsRefused(r.(quotes := qs));
  }

  lemma AcceptedPasses(r: EvaluationResult)
    requires VerifyConsistency(r).Ok?
    ensures ValidMandate(r.mandate) && |r.quotes| == |r.decisions| <= MAX_CANDIDATES && AllValidDecisions(r.decisions)
    ensures ValidReceipt(r.receipt) && EvaluationTimeError(r.mandate, r.receipt.body.evaluatedAt).None?
    ensures Inspect(DecisionReferences(r.decisions)).None? && r.receipt.body.mandateId == r.mandate.mandateId
  {}

  lemma AcceptedIsSorted(r: EvaluationResult)
    requires VerifyConsistency(r).Ok?
    ensures AllValid(r.quotes) && Inspect(References(r.quotes)).None? && SortBy(QuoteLe, r.quotes) == r.quotes
  {}

  lemma UnorderedIsRefused(r: EvaluationResult)
    requires ValidMandate(r.mandate) && |r.quotes| == |r.decisions| <= MAX_CANDIDATES && AllValidDecisions(r.decisions)
    requires ValidReceipt(r.receipt) && EvaluationTimeError(r.mandate, r.receipt.body.evaluatedAt).None?
    requires Inspect(DecisionReferences(r.decisions)).None? && r.receipt.body.mandateId == r.mandate.mandateId
    requires AllValid(r.quotes) && Inspect(References(r.quotes)).None? && SortBy(QuoteLe, r.quotes) != r.quotes
    ensures VerifyConsistency(r) == Err(CoreError("INTEGRITY_RESULT_UNORDERED"))
  {}

  /** As many other decisions are refused, for themselves or for naming one quote twice. */
  lemma ForgedDecisionsAreRefused(r: EvaluationResult, ds: seq<Decision>)
    requires VerifyConsistency(r).Ok? && ds != r.decisions && |ds| == |r.decisions|
    ensures VerifyConsistency(r.(decisions := ds)).Err?
    ensures VerifyConsistency(r.(decisions := ds)).error.code in {"INTEGRITY_DECISIONS_INVALID", "INTEGRITY_UNIQUENESS_INVALID"}
  {
    AcceptedPasses(r);
    AcceptedIsSorted(r);
    AcceptedIsDecided(r);
    OtherDecisionsAreRefused(r.(decisions := ds));
  }

  lemma AcceptedIsDecided(r: EvaluationResult)
    requires VerifyConsistency(r).Ok?
    ensures r.decisions == Decisions(r.mandate, r.quotes, r.receipt.body.evaluatedAt)
  {}

  lemma OtherDecisionsAreRefused(r: EvaluationResult)
    requires ValidMandate(r.mandate) && |r.quotes| == |r.decisions| <= MAX_CANDIDATES
    requires ValidReceipt(r.receipt) && EvaluationTimeError(r.mandate, r.receipt.body.evaluatedAt).None?
    requires r.receipt.body.mandateId == r.mandate.mandateId
    requires AllValid(r.quotes) && Inspect(References(r.quotes)).None? && SortBy(QuoteLe, r.quotes) == r.quotes
    requires r.decisions != Decisions(r.mandate, r.quotes, r.receipt.body.evaluatedAt)
    ensures VerifyConsistency(r).Err?
    ensures VerifyConsistency(r).error.code in {"INTEGRITY_DECISIONS_INVALID", "INTEGRITY_UNIQUENESS_INVALID"}
  {}
}
