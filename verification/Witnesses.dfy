/** Concrete artifacts that are accepted: the conditions proved exact elsewhere can be met. */
module Witnesses {
  import opened Foundations
  import M = Marketplace
  import A = Attestation
  import DecisionTable
  import Display
  import Eligibility
  import Evaluation
  import Ordering
  import Ranking
  import TickRange
  import TwoPass

  // ---- an eligible quote ----

  function SampleMandate(): M.Mandate {
    M.Mandate("m", M.Rebalancing, 1_000, 100_000, 30, 300, 300, M.Budgets(0, 100, 50, 1_000),
      M.MandatePermissions(["pancakeswap-v3"], ["0xa"], ["call"], 1_000, 90_000),
      Some(M.RangePolicy(M.Position("pool", "manager", [49]), -1_000, 1_000, 100, M.OutOfRange, 0)))
  }

  /** Tick 25 with spacing 10 and width 100: the middles 20 and 30 are equally near, and the range above is proposed. */
  function SampleEvidence(): M.Evidence {
    M.RebalancingEvidence("pancakeswap-v3", M.Position("pool", "manager", [49]), 2_000, 7, "hash", 25, 10, -200, -100, -20, 80,
      M.Trigger(true, M.OutsideCurrentRange, 0))
  }

  function SamplePayload(): M.Payload {
    M.Payload("sources", [113], "m", M.Rebalancing, M.Candidate(56, [49], "owner", "publisher", "mcp"), 2_000, 7, "hash", 3_000,
      "rebalance", M.Price(0, "currency"), M.Estimates(50, 10, 500, 2_000), M.QuotePermissions(["0xa"], ["call"], 500, 80_000),
      M.Verification(M.Pass, M.Pass, M.Pass, M.Pass, M.Pass, M.Pass), M.PreviewPassed(2_000, 7, "hash"),
      M.Reputation(9_000, 12, 8_000, 2_000), SampleEvidence())
  }

  function SampleQuote(): M.Quote { M.NormalizeProjection(M.Projection(2_000, SamplePayload())) }

  lemma SampleRange()
    ensures Eligibility.RangeOk(SampleEvidence(), SampleMandate().rebalancing.value)
    ensures TickRange.TwiceOffset(-20, 25, 100) == 10
  {}

  lemma SampleFits()
    ensures M.ValidMandate(SampleMandate()) && M.ValidQuote(SampleQuote())
    ensures Eligibility.Fits(SampleMandate(), SampleQuote())
  {
    SampleRange();
    var contracts, calls := ["0xa"], ["call"];
    assert contracts[0] in contracts && calls[0] in calls;
  }

  /** The sample is eligible from second 1970, thirty seconds before its capture, to second 2300, and at no other time. */
  lemma SampleIsEligible(at: int)
    ensures Eligibility.Decide(SampleMandate(), SampleQuote(), at).outcome.Eligible? <==> 1_970 <= at < 2_301
  {
    SampleFits();
    Eligibility.EligibleIff(SampleMandate(), SampleQuote(), at);
  }

  function Unpreviewed(): M.Quote { SampleQuote().(preview := M.PreviewUnavailable) }

  /** Without a preview the sample is inconclusive at its capture, for that reason and no other. */
  lemma UnavailablePreviewIsInconclusive()
    ensures Eligibility.Decide(SampleMandate(), Unpreviewed(), 2_000).outcome.InconclusiveOutcome?
    ensures forall f :: f in Eligibility.Decide(SampleMandate(), Unpreviewed(), 2_000).findings <==>
                        f == M.Finding(M.Inconclusive, "EXECUTION_PREVIEW_INCONCLUSIVE")
  {
    SampleFits();
    SampleIsEligible(2_000);
    DecisionTable.LostPreviewIsInconclusive(SampleMandate(), SampleQuote(), 2_000);
  }

  // ---- two eligible quotes the view and the receipt order oppositely ----

  function QuoteOf(quoteId: Text, tokenId: Text, reputationBps: nat): M.Quote {
    var p := SamplePayload();
    M.NormalizeProjection(M.Projection(2_000,
      p.(quoteId := quoteId, candidate := p.candidate.(tokenId := tokenId),
         reputation := p.reputation.(scoreBps := reputationBps))))
  }

  /** Two hundredths of a percent more reputation, and the later quote id. */
  function Better(): M.Quote { QuoteOf([98], [49], 9_002) }

  function Earlier(): M.Quote { QuoteOf([97], [50], 9_000) }

  lemma PairFits()
    ensures M.ValidMandate(SampleMandate()) && M.ValidQuote(Better()) && M.ValidQuote(Earlier())
    ensures Eligibility.Fits(SampleMandate(), Better()) && Eligibility.Fits(SampleMandate(), Earlier())
  {
    SampleRange();
    var contracts, calls := ["0xa"], ["call"];
    assert contracts[0] in contracts && calls[0] in calls;
  }

  lemma PairIsEligible()
    ensures Eligibility.Decide(SampleMandate(), Better(), 2_000).outcome.Eligible?
    ensures Eligibility.Decide(SampleMandate(), Earlier(), 2_000).outcome.Eligible?
  {
    PairFits();
    Eligibility.EligibleIff(SampleMandate(), Better(), 2_000);
    Eligibility.EligibleIff(SampleMandate(), Earlier(), 2_000);
  }

  lemma FreshAtCapture(q: M.Quote)
    requires q.observedAt == q.estimates.observedAt == q.evidence.observedAt == q.reputation.observedAt == 2_000
    requires q.preview.PreviewPassed? && q.preview.observedAt == 2_000
    ensures Ranking.EvidenceFreshness(SampleMandate(), q, 2_000) == 10_000
  {}

  lemma Ratios()
    ensures Ranking.RatioScore(79_000, 89_000) == 1_123 && Ranking.RatioScore(500, 1_000) == 5_000
    ensures Ranking.RatioScore(10, 50) == 8_000 && Ranking.RatioScore(50, 100) == 5_000 && Ranking.RatioScore(0, 0) == 10_000
  {}

  lemma MarginPoints(q: M.Quote)
    requires q.estimates == SamplePayload().estimates && q.permissions == SamplePayload().permissions
    requires Ranking.AgentFee(q) == 0
    ensures 15 * Ranking.RiskCompatibility(SampleMandate(), q) + 10 * Ranking.TotalCost(SampleMandate(), q) == 148_360
  {
    Ratios();
  }

  function TotalAt(reputationBps: nat): nat { 848_360 + 5 * ((50 * reputationBps + 440_000) / 100) }

  lemma TotalByReputation(quoteId: Text, tokenId: Text, reputationBps: nat)
    requires reputationBps <= 10_000
    ensures Display.TotalOf(SampleMandate(), QuoteOf(quoteId, tokenId, reputationBps), 2_000) == TotalAt(reputationBps)
  {
    var q := QuoteOf(quoteId, tokenId, reputationBps);
    FreshAtCapture(q);
    MarginPoints(q);
    Ranking.ScoreBounds(SampleMandate(), q, 2_000);
  }

  lemma PairTotals()
    ensures Display.TotalOf(SampleMandate(), Better(), 2_000) == TotalAt(9_002)
    ensures Display.TotalOf(SampleMandate(), Earlier(), 2_000) == TotalAt(9_000)
  {
    TotalByReputation([98], [49], 9_002);
    TotalByReputation([97], [50], 9_000);
  }

  lemma ShownAlike()
    ensures TotalAt(9_002) == 892_865 && TotalAt(9_000) == 892_860
    ensures Display.ShownOf(892_865) == Display.ShownOf(892_860) == 7_857
  {}

  /** Two eligible quotes whose totals tie on display, the one with the higher total having the later quote id. */
  predicate Opposed(m: M.Mandate, a: M.Quote, b: M.Quote, at: int) {
    && Eligibility.Decide(m, a, at).outcome.Eligible? && Eligibility.Decide(m, b, at).outcome.Eligible?
    && Display.TotalOf(m, a, at) > Display.TotalOf(m, b, at) >= 500_000
    && Display.ShownOf(Display.TotalOf(m, a, at)) == Display.ShownOf(Display.TotalOf(m, b, at))
    && Ordering.Less(b.quoteId, a.quoteId)
  }

  lemma PairIsOpposed()
    ensures Opposed(SampleMandate(), Better(), Earlier(), 2_000)
  {
    PairIsEligible();
    PairTotals();
    ShownAlike();
  }

  lemma PairIsUnique()
    ensures Evaluation.Unique(Evaluation.References([Better(), Earlier()]))
  {
    var refs := Evaluation.References([Better(), Earlier()]);
    if M.CandidateId(refs[0].candidate) == M.CandidateId(refs[1].candidate) {
      M.CandidateIdInjective(refs[0].candidate, refs[1].candidate);
    }
  }

  lemma OpposedPlaces(m: M.Mandate, qs: seq<M.Quote>, at: int, a: M.Quote, b: M.Quote) returns (i: nat, j: nat, k: nat, l: nat)
    requires M.ValidMandate(m) && Evaluation.AllValid(qs) && Evaluation.Unique(Evaluation.References(qs))
    requires a in qs && b in qs && a != b && Opposed(m, a, b, at)
    ensures Display.HasRank(m, qs, at, a, i) && Display.HasRank(m, qs, at, b, j) && i < j
    ensures Display.HasRow(m, qs, at, b, k) && Display.HasRow(m, qs, at, a, l) && k < l
  {
    i, l := Display.EligibleHasPlaces(m, qs, at, a);
    j, k := Display.EligibleHasPlaces(m, qs, at, b);
    Display.RankPlaces(m, qs, at, a, b, i, j);
    Display.RowPlaces(m, qs, at, b, a, k, l);
  }

  lemma PairOrders(m: M.Mandate, qs: seq<M.Quote>, at: int, a: M.Quote, b: M.Quote)
    requires M.ValidMandate(m) && Evaluation.AllValid(qs) && Evaluation.Unique(Evaluation.References(qs))
    requires 0 < at <= MAX_SAFE_INTEGER && |qs| == 2 && a in qs && b in qs && a != b && Opposed(m, a, b, at)
    ensures Display.HasRank(m, qs, at, a, 0) && Display.HasRank(m, qs, at, b, 1)
    ensures Display.HasRow(m, qs, at, b, 0) && Display.HasRow(m, qs, at, a, 1)
    ensures |Evaluation.Ranking(Evaluation.Decisions(m, qs, at))| == 2
    ensures |Display.View(qs, Evaluation.Decisions(m, qs, at))| == 2
  {
    AtMostAllRanked(m, qs, at);
    var i, j, k, l := OpposedPlaces(m, qs, at, a, b);
    FirstTwo(m, qs, at, a, b, i, j, k, l);
  }

  lemma FirstTwo(m: M.Mandate, qs: seq<M.Quote>, at: int, a: M.Quote, b: M.Quote, i: nat, j: nat, k: nat, l: nat)
    requires |Evaluation.Ranking(Evaluation.Decisions(m, qs, at))| <= |qs| == 2
    requires Display.HasRank(m, qs, at, a, i) && Display.HasRank(m, qs, at, b, j) && i < j
    requires Display.HasRow(m, qs, at, b, k) && Display.HasRow(m, qs, at, a, l) && k < l
    ensures i == 0 && j == 1 && k == 0 && l == 1
    ensures |Evaluation.Ranking(Evaluation.Decisions(m, qs, at))| == 2
    ensures |Display.View(qs, Evaluation.Decisions(m, qs, at))| == 2
  {
    assert |Display.View(qs, Evaluation.Decisions(m, qs, at))| == |qs|;
  }

  lemma AtMostAllRanked(m: M.Mandate, qs: seq<M.Quote>, at: int)
    requires M.ValidMandate(m) && Evaluation.AllValid(qs) && 0 < at <= MAX_SAFE_INTEGER
    ensures |Evaluation.Ranking(Evaluation.Decisions(m, qs, at))| <= |qs|
  {
    var ds := Evaluation.Decisions(m, qs, at);
    Evaluation.DecisionsValid(m, qs, at);
    Evaluation.CountsAddUp(ds);
    Evaluation.RankableCount(ds);
  }

  lemma EvaluatedPair(m: M.Mandate, a: M.Quote, b: M.Quote, at: int)
    requires M.ValidMandate(m) && M.ValidQuote(a) && M.ValidQuote(b) && 0 < at <= MAX_SAFE_INTEGER
    requires Evaluation.Unique(Evaluation.References([a, b])) && a != b && Opposed(m, a, b, at)
    ensures Evaluation.EvaluateQuotes(m, [a, b], at).Ok?
    ensures
      var r := Evaluation.EvaluateQuotes(m, [a, b], at).value;
      var ranking, rows := r.receipt.body.ranking, Display.View(r.quotes, r.decisions);
      && |ranking| == 2 && ranking[0].ref.quoteId == a.quoteId && ranking[1].ref.quoteId == b.quoteId
      && |rows| == 2 && rows[0].quoteId == b.quoteId && rows[1].quoteId == a.quoteId
  {
    var given := [a, b];
    Evaluation.InspectIff(Evaluation.References(given));
    Evaluation.SortedAgain(given);
    assert given[0] == a && given[1] == b;
    PairOrders(m, Ordering.SortBy(Evaluation.QuoteLe, given), at, a, b);
  }

  /** Both eligible and five points apart in Core's total: the receipt ranks the better one first, the view shows it second. */
  lemma TieShownTheOtherWay()
    ensures M.ValidMandate(SampleMandate()) && M.ValidQuote(Better()) && M.ValidQuote(Earlier())
    ensures Evaluation.EvaluateQuotes(SampleMandate(), [Better(), Earlier()], 2_000).Ok?
    ensures
      var r := Evaluation.EvaluateQuotes(SampleMandate(), [Better(), Earlier()], 2_000).value;
      var ranking, rows := r.receipt.body.ranking, Display.View(r.quotes, r.decisions);
      && |ranking| == 2 && ranking[0].ref.quoteId == Better().quoteId && ranking[1].ref.quoteId == Earlier().quoteId
      && |rows| == 2 && rows[0].quoteId == Earlier().quoteId && rows[1].quoteId == Better().quoteId
  {
    PairFits();
    PairIsUnique();
    PairIsOpposed();
    EvaluatedPair(SampleMandate(), Better(), Earlier(), 2_000);
  }

  // ---- an attestation that expires between the passes ----

  function SampleEnvelope(): A.Envelope {
    A.Envelope("key", "policy", 2_000, 2_200, A.MandateSha256(SampleMandate()), A.PayloadSha256(SamplePayload()),
      SamplePayload(), "signature")
  }

  function SampleService(): TwoPass.Service {
    TwoPass.Service(
      Evaluation.Core(A.AttestationTrust("key", "policy", _ => Ok(SampleEnvelope()), _ => true), 30),
      (_, _, _) => None)
  }

  function ExpiringClock(reading: nat): int { if reading == 0 then 2_100 else 2_200 }

  lemma SampleIsAdmissible()
    ensures TwoPass.Admissible(SampleService().core, SampleMandate(), [])
    ensures M.ValidMandate(SampleMandate())
  {
    SampleFits();
  }

  /** Accepted at second 2100 and expired at second 2200: the request fails, with a code that is not about the set. */
  lemma SampleExpiresBetweenPasses()
    ensures TwoPass.AcceptedAt(SampleService().core, SampleMandate(), [], ExpiringClock(0))
    ensures TwoPass.AnswerFor(SampleService(), SampleMandate(), [[]], ExpiringClock)
            == TwoPass.Failed(TwoPass.Failure("ATTESTATION_EXPIRED", true))
    ensures !TwoPass.IsSetCode("ATTESTATION_EXPIRED")
  {
    SampleIsAdmissible();
    var wires: seq<Text> := [[]];
    TwoPass.RankedIff(SampleService().core, SampleMandate(), wires, ExpiringClock(0));
    TwoPass.ExpiryBetweenPasses(SampleService(), SampleMandate(), [], SampleEnvelope(), ExpiringClock);
  }
}

/** A repeated action that coverage accepts although it asks for more than the mandate grants. */
module CoverageWitness {
  import opened Foundations
  import opened CategoryProduction

  const SWAP: Action := Action([97], [114], [116], [99], [115], 1)

  function SwapProfile(): ActionProfile {
    ActionProfile(DRAFT_APPROVAL, "profile", GridAdapter, Transactional, [ProfileEntry([97], [114], [99], [115], 1)])
  }

  lemma RepeatedSwapExceeds()
    ensures Covered(GridAdapter, Transactional, [SWAP], [SWAP, SWAP], 0, 0, Some(SwapProfile()))
    ensures TotalValue([SWAP]) == 1 && TotalValue([SWAP, SWAP]) == 2
  {
    assert [SWAP][1..] == [] && [SWAP, SWAP][1..] == [SWAP];
  }
}

/** Category quote attestations that verify, for observing and for trading, and their reports. */
module SuccessorWitness {
  import opened Foundations
  import opened Ordering
  import opened CategoryProduction
  import opened CategoryReads
  import opened CategoryLinkage
  import opened CategorySuccessor
  import opened ReportTable
  import opened SuccessorForm
  import Decimal

  function Filler(n: nat): Text { seq(n, _ => 97) }

  const ANCHOR := Anchor(1_000, 7, "hash")

  const SWAP: Action := Action([97], [114], [116], [99], [115], 1)

  /** Nothing to observe with, one action to trade with. */
  function Actions(mode: ServiceMode): seq<Action> { if mode == ObserveOnly then [] else [SWAP] }

  function Scope(): CategoryScope { CategoryScope(GridAdapter, PoolSubject(Filler(42)), TickRange(0, 10)) }

  function SampleMandate(mode: ServiceMode): MandateV2 {
    MandateV2("m", GridCategory, GridAdapter, 900, 5_000, 30, 300, mode, Scope(), Actions(mode), 0, 4_000)
  }

  function SampleRequest(mode: ServiceMode): Request {
    Request("r", "m", MandateV2Sha256(SampleMandate(mode)), GridCategory, GridAdapter, "pancakeswap-v3", Scope(), ScopeSha256(Scope()),
      Selector(56, [49]), mode, Actions(mode), ActionsSha256(Actions(mode)), 0, 2_000, "nonce", 950, 3_000)
  }

  function SampleIdentity(): Identity {
    var facts := IdentityFacts(56, [49], "registry", "owner", 12, "code", ANCHOR);
    Identity(facts, IdentitySha256(facts))
  }

  function SampleTargets(): seq<Target> {
    [Target(GridAdapter, POOL, Filler(42), InterfaceOnly, false, "interface-only-unendorsed-v1", "runtime", ANCHOR)]
  }

  const SLOT0: StaticRead := StaticRead(POOL, [115], [48, 120, 51, 56, 53, 48, 99, 55, 98, 100])

  function Table(): ReadTable {
    ReadTable(_ => Descriptor("grid-profile", [SLOT0]), _ => Filler(64), (_, _) => Filler(64))
  }

  function SampleReads(): ReadProfile {
    ReadProfile("grid-profile", GridAdapter, [Read(POOL, [115], Filler(42), SLOT0.selector, Filler(64), Filler(64), Filler(64))])
  }

  function SampleObservation(): Observation {
    Observation("deployment", "policy", TargetsSha256(SampleTargets()), "grid-profile",
      StaticProfileSha256(StaticProfileOf(Table(), SampleReads())), ReadsSha256(SampleReads().commitments), "evidence", ANCHOR)
  }

  function SampleAcceptance(mode: ServiceMode): ProviderAcceptance {
    ProviderAcceptance(false, false, "owner", "owner", "provider-code", 56, "contract", SampleIdentity().identitySha256,
      MandateV2Sha256(SampleMandate(mode)), RequestSha256(SampleRequest(mode)), SubjectSha256(Scope().subject),
      PolicySha256(Scope().conditionPolicy), ActionsSha256(Actions(mode)), "nonce", "transcript", 1_000, 1_800)
  }

  function SampleLinkage(mode: ServiceMode): Linkage {
    var body := LinkageBody("r", "m", MandateV2Sha256(SampleMandate(mode)), RequestSha256(SampleRequest(mode)), GridCategory, GridAdapter,
      "pancakeswap-v3", Selector(56, [49]), SampleIdentity(),
      ProviderAuthority("owner", "owner", "provider-code", SampleIdentity().identitySha256), SampleAcceptance(mode), Scope(),
      ScopeSha256(Scope()), SubjectSha256(Scope().subject), PolicySha256(Scope().conditionPolicy), mode,
      ActionsSha256(Actions(mode)), SampleObservation());
    Linkage(body, LinkageSha256(body))
  }

  function SampleSidecars(mode: ServiceMode): Sidecars {
    Sidecars(SampleIdentity(), SampleTargets(), SampleReads(), None,
      Service(mode, ActionsSha256(Actions(mode)), if mode == ObserveOnly then NoActions else Incomplete, 2_000, All(InterfaceOnly)),
      SampleObservation())
  }

  function SampleEnvelope(mode: ServiceMode): Envelope {
    var preview := if mode == ObserveOnly then NotApplicable else FailedPreview("REVERTED");
    var projection := Projection(SampleLinkage(mode), SampleSidecars(mode), preview);
    Envelope("key", "release", "definition", "fingerprint", 1_010, 1_300, MandateV2Sha256(SampleMandate(mode)),
      RequestSha256(SampleRequest(mode)), ProjectionSha256(projection), "policy", "deployment", "contract", projection, "signature")
  }

  function SampleTuple(): Tuple {
    Tuple(true, true, "definition", "fingerprint", "policy", "deployment",
      AdapterMode("grid-profile", StaticProfileSha256(StaticProfileOf(Table(), SampleReads())), None, None, InterfaceOnly), "pem")
  }

  function SampleInputs(mode: ServiceMode): Inputs {
    Inputs(SampleMandate(mode), SampleRequest(mode), SampleIdentity(), SampleTargets(), SampleReads(), Table(),
      Trust(10_000, "contract", (_, _, _, _, _) => Some(SampleTuple()), (_, _) => true))
  }

  lemma RequestBinds(mode: ServiceMode)
    ensures ValidMandateV2(SampleMandate(mode)) && ValidRequest(SampleRequest(mode)) && ValidScope(Scope())
    ensures BindRequest(SampleRequest(mode), SampleMandate(mode)).Ok?
  {
    ActionsAreSorted(mode);
    assert Decimal.Canonical([49]);
    if mode == Transactional {
      var granted := SampleMandate(mode).actionPermissions;
      assert granted[0] == SWAP && Allows(granted, SWAP);
    }
    BindIff(SampleRequest(mode), SampleMandate(mode));
  }

  lemma ActionsAreSorted(mode: ServiceMode)
    ensures UniqueSorted(Actions(mode))
  {
    UniqueSortedIff(Actions(mode));
  }

  lemma ReadsFit()
    ensures ValidScope(Scope()) && ReadProfileFits(Table(), Scope(), SampleReads())
  {
    var p := SampleReads();
    var keys := ReadKeys(p.commitments);
    assert ValidRead(p.commitments[0]);
    assert keys == [ReadKey(p.commitments[0])];
    assert keys[1..] == [] && SortBy(TextLe, keys) == keys;
    assert ReadFits(Table(), Scope(), SLOT0, p.commitments[0]);
  }

  lemma SampleIsAttested(mode: ServiceMode)
    ensures Attested(SampleEnvelope(mode), SampleInputs(mode))
  {
    RequestBinds(mode);
    ReadsFit();
    TargetsFitIff(Scope(), SampleTargets());
    SampleIsExpected(mode);
    SidecarsAreSample(mode);
  }

  lemma SampleIsExpected(mode: ServiceMode)
    ensures
      var f := FactsOf(SampleInputs(mode), SampleTuple());
      SampleLinkage(mode).body == ExpectedBody(f, PartsOf(SampleLinkage(mode))) && TimesStand(f, PartsOf(SampleLinkage(mode)))
  {}

  lemma SidecarsAreSample(mode: ServiceMode)
    ensures SidecarsRepeat(SampleSidecars(mode), SampleInputs(mode), SampleTuple(), PartsOf(SampleLinkage(mode)))
  {}

  /** The samples verify from second 980, thirty seconds before their issuance, to second 1299, and at no other time. */
  lemma SampleVerifies(mode: ServiceMode, at: int)
    ensures Verify(SampleEnvelope(mode), SampleInputs(mode), at).Ok? <==> 980 <= at < 1_300
  {
    SampleIsAttested(mode);
    SampleEnds(mode, at);
    VerifiesWithin(SampleEnvelope(mode), SampleInputs(mode), at, 980, 1_300);
  }

  lemma SampleEnds(mode: ServiceMode, at: int)
    ensures Begun(SampleEnvelope(mode), SampleInputs(mode), at) <==> 980 <= at
    ensures Ends(SampleEnvelope(mode), SampleMandate(mode), SampleRequest(mode)) == [1_300, 5_000, 3_000, 2_000, 1_800, 1_301, 1_301]
  {}

  lemma SampleDerives(mode: ServiceMode, at: int)
    requires 980 <= at < 1_300
    ensures Verify(SampleEnvelope(mode), SampleInputs(mode), at).Ok?
    ensures Derive(Verify(SampleEnvelope(mode), SampleInputs(mode), at).value, NullProfile, at).Ok?
    ensures Derive(Verify(SampleEnvelope(mode), SampleInputs(mode), at).value, NullProfile, at).value.status
            == StatusFor(SampleEnvelope(mode), SampleInputs(mode), SampleTuple(), at)
  {
    SampleVerifies(mode, at);
    DeriveSucceedsIff(SampleEnvelope(mode), SampleInputs(mode), at, NullProfile, at);
    VerifyHasAllParts(SampleEnvelope(mode), SampleInputs(mode), at);
    StatusIs(SampleEnvelope(mode), SampleInputs(mode), at, NullProfile);
  }

  lemma SampleStatus(mode: ServiceMode, at: int)
    requires 980 <= at <= 1_270
    ensures StatusFor(SampleEnvelope(mode), SampleInputs(mode), SampleTuple(), at)
            == if mode == ObserveOnly then VerifiedHireable else Ineligible
  {
    SampleEnds(mode, at);
    assert EnoughLeft(SampleEnvelope(mode), SampleMandate(mode), SampleRequest(mode), at);
  }

  /** Observing: at every such second with at least thirty left the report is hireable. */
  lemma SampleIsHireable(at: int)
    requires 980 <= at <= 1_270
    ensures Verify(SampleEnvelope(ObserveOnly), SampleInputs(ObserveOnly), at).Ok?
    ensures Derive(Verify(SampleEnvelope(ObserveOnly), SampleInputs(ObserveOnly), at).value, NullProfile, at).Ok?
    ensures Derive(Verify(SampleEnvelope(ObserveOnly), SampleInputs(ObserveOnly), at).value, NullProfile, at).value.status.VerifiedHireable?
  {
    SampleDerives(ObserveOnly, at);
    SampleStatus(ObserveOnly, at);
  }

  /** Trading with a failed preview: at the same seconds the report is ineligible. */
  lemma FailedPreviewIsIneligible(at: int)
    requires 980 <= at <= 1_270
    ensures Verify(SampleEnvelope(Transactional), SampleInputs(Transactional), at).Ok?
    ensures Derive(Verify(SampleEnvelope(Transactional), SampleInputs(Transactional), at).value, NullProfile, at).Ok?
    ensures Derive(Verify(SampleEnvelope(Transactional), SampleInputs(Transactional), at).value, NullProfile, at).value.status.Ineligible?
  {
    SampleDerives(Transactional, at);
    SampleStatus(Transactional, at);
  }
}
