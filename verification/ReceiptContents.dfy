/** What an evaluation returns, field by field (`evaluate.ts`), without the functions that assemble it. */
module ReceiptContents {
  import opened Foundations
  import opened Ordering
  import opened Marketplace
  import opened Attestation
  import opened Eligibility
  import opened Evaluation

  // ---- counting ----

  /** The positions of the decisions with this outcome. */
  function IndicesOf(ds: seq<Decision>, o: Outcome): set<nat> {
    set i: nat | i < |ds| && ds[i].outcome == o
  }

  lemma {:induction false} CountSnoc(ds: seq<Decision>, d: Decision, o: Outcome)
    ensures CountOutcome(ds + [d], o) == CountOutcome(ds, o) + if d.outcome == o then 1 else 0
  {
    if ds == [] {
      assert ds + [d] == [d] && [d][1..] == [];
    } else {
      CountSnoc(ds[1..], d, o);
      assert (ds + [d])[1..] == ds[1..] + [d];
    }
  }

  lemma {:induction false} CountIsIndices(ds: seq<Decision>, o: Outcome)
    ensures CountOutcome(ds, o) == |IndicesOf(ds, o)|
  {
    if ds == [] {
      assert IndicesOf(ds, o) == {};
    } else {
      var front, last := ds[..|ds| - 1], ds[|ds| - 1];
      CountIsIndices(front, o);
      CountSnoc(front, last, o);
      assert ds == front + [last];
      if last.outcome == o {
        assert IndicesOf(ds, o) == IndicesOf(front, o) + {|front|};
      } else {
        assert IndicesOf(ds, o) == IndicesOf(front, o);
      }
    }
  }

  // ---- the fields of a receipt ----

  /** The mandate's category is supported, or refused under its own code. */
  predicate AdapterOf(a: ReceiptAdapter, c: Category) {
    match c
    case Rebalancing => a == SupportedAdapter
    case Grid => a == UnsupportedAdapter("CATEGORY_GRID_UNSUPPORTED")
    case Yield => a == UnsupportedAdapter("CATEGORY_YIELD_UNSUPPORTED")
    case Health => a == UnsupportedAdapter("CATEGORY_HEALTH_UNSUPPORTED")
  }

  predicate Commits(c: Commitments, m: Mandate, qs: seq<Quote>, ds: seq<Decision>, ranking: seq<Ranked>) {
    && c.mandateSha256.content == m && c.quotesSha256.content == qs && c.decisionsSha256.content == ds
    && c.rankingSha256.content == ranking
  }

  predicate QuotesReferenced(rs: seq<QuoteReference>, qs: seq<Quote>) {
    |rs| == |qs| && forall i :: 0 <= i < |qs| ==> rs[i].ref == Reference(qs[i].quoteId, qs[i].candidate) && rs[i].sha256.content == qs[i]
  }

  predicate DecisionsReferenced(rs: seq<DecisionReference>, ds: seq<Decision>) {
    |rs| == |ds| && forall i :: 0 <= i < |ds| ==> rs[i].ref == Reference(ds[i].quoteId, ds[i].candidate) && rs[i].sha256.content == ds[i]
  }

  predicate Counts(s: Summary, ds: seq<Decision>) {
    && s.candidates == |ds|
    && s.eligible == |IndicesOf(ds, Eligible)| && s.excluded == |IndicesOf(ds, Excluded)|
    && s.inconclusive == |IndicesOf(ds, InconclusiveOutcome)| && s.unsupported == |IndicesOf(ds, UnsupportedOutcome)|
  }

  predicate RanksDecision(r: Ranked, i: nat, d: Decision) {
    d.outcome.Eligible? && d.score.Some? && r == Ranked(i + 1, Reference(d.quoteId, d.candidate), d.score.value)
  }

  ghost predicate FromDecision(r: Ranked, i: nat, ds: seq<Decision>) { exists k :: 0 <= k < |ds| && RanksDecision(r, i, ds[k]) }

  ghost predicate HasPlace(ranking: seq<Ranked>, d: Decision) { exists i :: 0 <= i < |ranking| && RanksDecision(ranking[i], i, d) }

  /** Every place is an eligible decision, every eligible decision has a place, and no quote id has two. */
  ghost predicate RanksAll(ranking: seq<Ranked>, ds: seq<Decision>) {
    && (forall i :: 0 <= i < |ranking| ==> FromDecision(ranking[i], i, ds))
    && (forall k :: 0 <= k < |ds| && ds[k].outcome.Eligible? ==> HasPlace(ranking, ds[k]))
    && (forall i, j :: 0 <= i < j < |ranking| ==> ranking[i].ref.quoteId != ranking[j].ref.quoteId)
    && |ranking| == |IndicesOf(ds, Eligible)|
  }

  predicate ByTotalThenCandidate(ranking: seq<Ranked>) {
    forall i, j :: 0 <= i < j < |ranking| ==>
      || ranking[i].score.weightedTotal > ranking[j].score.weightedTotal
      || (ranking[i].score.weightedTotal == ranking[j].score.weightedTotal
          && CompareCandidates(ranking[i].ref.candidate, ranking[j].ref.candidate) < 0)
  }

  predicate ByCandidate(qs: seq<Quote>) {
    forall i, j :: 0 <= i < j < |qs| ==> CompareCandidates(qs[i].candidate, qs[j].candidate) < 0
  }

  predicate Decided(m: Mandate, qs: seq<Quote>, at: int, ds: seq<Decision>) {
    |ds| == |qs| && forall i :: 0 <= i < |qs| ==> ds[i] == Decide(m, qs[i], at)
  }

  /** The result of evaluating these quotes at this time, entry by entry. */
  ghost predicate Spelled(r: EvaluationResult, m: Mandate, given: seq<Quote>, at: int) {
    var b := r.receipt.body;
    && r.mandate == m && multiset(r.quotes) == multiset(given) && ByCandidate(r.quotes)
    && Decided(m, r.quotes, at, r.decisions)
    && r.receipt.receiptId.content == b
    && b.evaluatedAt == at && b.mandateId == m.mandateId && b.category == m.category && AdapterOf(b.adapter, m.category)
    && Commits(b.commitments, m, r.quotes, r.decisions, b.ranking)
    && QuotesReferenced(b.quotes, r.quotes) && DecisionsReferenced(b.decisions, r.decisions)
    && RanksAll(b.ranking, r.decisions) && ByTotalThenCandidate(b.ranking)
    && Counts(b.summary, r.decisions)
  }

  // ---- evaluation returns exactly that ----

  lemma QuotesByCandidate(qs: seq<Quote>)
    requires AllValid(qs) && Unique(References(qs))
    ensures ByCandidate(SortBy(QuoteLe, qs))
  {
    var s := SortBy(QuoteLe, qs);
    QuoteOrder();
    SortBySorted(QuoteLe, qs);
    SortedAgain(qs);
    forall i, j | 0 <= i < j < |s| ensures CompareCandidates(s[i].candidate, s[j].candidate) < 0 {
      assert QuoteLe(s[i], s[j]);
      assert References(s)[i] == RefOf(s[i]) && References(s)[j] == RefOf(s[j]);
      CompareEqualIsSameIdentity(s[i].candidate, s[j].candidate);
    }
  }

  lemma SummaryCounts(m: Mandate, qs: seq<Quote>, ds: seq<Decision>, at: int)
    ensures Counts(BodyOf(m, qs, ds, at).summary, ds)
  {
    CountIsIndices(ds, Eligible);
    CountIsIndices(ds, Excluded);
    CountIsIndices(ds, InconclusiveOutcome);
    CountIsIndices(ds, UnsupportedOutcome);
  }

  lemma RankedPlaces(ds: seq<Decision>, i: nat)
    requires i < |Evaluation.Ranking(ds)|
    ensures FromDecision(Evaluation.Ranking(ds)[i], i, ds)
  {
    RankOrderIsRankable(ds);
    var k :| 0 <= k < |ds| && ds[k] == RankOrder(ds)[i];
    assert RanksDecision(Evaluation.Ranking(ds)[i], i, ds[k]);
  }

  lemma PlaceOf(ds: seq<Decision>, k: nat)
    requires k < |ds| && Rankable(ds[k])
    ensures HasPlace(Evaluation.Ranking(ds), ds[k])
  {
    RankOrderIsRankable(ds);
    assert ds[k] in KeepRankable(ds);
    assert ds[k] in RankOrder(ds);
    var i :| 0 <= i < |RankOrder(ds)| && RankOrder(ds)[i] == ds[k];
    assert RanksDecision(Evaluation.Ranking(ds)[i], i, ds[k]);
  }

  lemma AllPlaced(ds: seq<Decision>)
    requires UniqueDecisions(ds) && forall k :: 0 <= k < |ds| ==> (ds[k].outcome.Eligible? <==> ds[k].score.Some?)
    ensures RanksAll(Evaluation.Ranking(ds), ds)
  {
    forall i | 0 <= i < |Evaluation.Ranking(ds)| ensures FromDecision(Evaluation.Ranking(ds)[i], i, ds) {
      RankedPlaces(ds, i);
    }
    forall k | 0 <= k < |ds| && ds[k].outcome.Eligible?
      ensures HasPlace(Evaluation.Ranking(ds), ds[k])
    {
      PlaceOf(ds, k);
    }
    PlacesDiffer(ds);
    PlacesCount(ds);
  }

  lemma PlacesDiffer(ds: seq<Decision>)
    requires UniqueDecisions(ds)
    ensures
      var ranking := Evaluation.Ranking(ds);
      forall i, j :: 0 <= i < j < |ranking| ==>
        && ranking[i].ref.quoteId != ranking[j].ref.quoteId
        && CandidateId(ranking[i].ref.candidate) != CandidateId(ranking[j].ref.candidate)
  {
    RankOrderUnique(ds);
    RankOrderIsRankable(ds);
  }

  lemma PlacesCount(ds: seq<Decision>)
    requires forall k :: 0 <= k < |ds| ==> (ds[k].outcome.Eligible? <==> ds[k].score.Some?)
    ensures |Evaluation.Ranking(ds)| == |IndicesOf(ds, Eligible)|
  {
    RankableCount(ds);
    CountIsIndices(ds, Eligible);
  }

  lemma EligibleIsScored(m: Mandate, q: Quote, at: int)
    ensures Decide(m, q, at).outcome.Eligible? <==> Decide(m, q, at).score.Some?
  {}

  lemma RankingByTotal(m: Mandate, qs: seq<Quote>, at: int)
    requires AllValid(qs) && Unique(References(qs))
    ensures ByTotalThenCandidate(Evaluation.Ranking(Decisions(m, qs, at)))
  {
    DecisionsUnique(m, qs, at);
    var ranking := Evaluation.Ranking(Decisions(m, qs, at));
    forall i | 0 <= i < |ranking| ensures ValidCandidate(ranking[i].ref.candidate) {
      RankedCandidateIsCanonical(m, qs, at, i);
    }
    PairsByTotal(Decisions(m, qs, at));
  }

  lemma PairsByTotal(ds: seq<Decision>)
    requires UniqueDecisions(ds)
    requires forall i :: 0 <= i < |Evaluation.Ranking(ds)| ==> ValidCandidate(Evaluation.Ranking(ds)[i].ref.candidate)
    ensures ByTotalThenCandidate(Evaluation.Ranking(ds))
  {
    var ranking := Evaluation.Ranking(ds);
    PlacesDiffer(ds);
    forall i, j | 0 <= i < j < |ranking|
      ensures
        || ranking[i].score.weightedTotal > ranking[j].score.weightedTotal
        || (ranking[i].score.weightedTotal == ranking[j].score.weightedTotal
            && CompareCandidates(ranking[i].ref.candidate, ranking[j].ref.candidate) < 0)
    {
      RankingIsSorted(ds, i, j);
      CompareEqualIsSameIdentity(ranking[i].ref.candidate, ranking[j].ref.candidate);
      OnlyByCandidate(ranking[i].ref, ranking[j].ref);
    }
  }

  lemma OnlyByCandidate(a: Reference, b: Reference)
    requires CompareCandidates(a.candidate, b.candidate) != 0
    ensures CompareReferences(a, b) <= 0 ==> CompareCandidates(a.candidate, b.candidate) < 0
  {}

  lemma RankedCandidateIsCanonical(m: Mandate, qs: seq<Quote>, at: int, i: nat)
    requires AllValid(qs) && i < |Evaluation.Ranking(Decisions(m, qs, at))|
    ensures ValidCandidate(Evaluation.Ranking(Decisions(m, qs, at))[i].ref.candidate)
  {
    var ds := Decisions(m, qs, at);
    RankOrderIsRankable(ds);
    var k :| 0 <= k < |ds| && ds[k] == RankOrder(ds)[i];
    DecideKeepsReference(m, qs[k], at);
  }

  lemma AssembledIsSpelled(m: Mandate, given: seq<Quote>, at: int)
    requires AllValid(given) && Unique(References(given))
    ensures Spelled(Assemble(m, SortBy(QuoteLe, given), at), m, given, at)
  {
    var qs := SortBy(QuoteLe, given);
    var ds := Decisions(m, qs, at);
    SortedAgain(given);
    QuotesByCandidate(given);
    SummaryCounts(m, qs, ds, at);
    DecisionsUnique(m, qs, at);
    forall k | 0 <= k < |ds| ensures ds[k].outcome.Eligible? <==> ds[k].score.Some? { EligibleIsScored(m, qs[k], at); }
    AllPlaced(ds);
    RankingByTotal(m, qs, at);
  }

  /** The quotes the attestations carry, in the order given. */
  ghost predicate Carries(core: Core, m: Mandate, at: int, wires: seq<Text>, quotes: seq<Quote>) {
    |quotes| == |wires| && forall i :: 0 <= i < |wires| ==> CarriesQuote(core, m, at, wires[i], quotes[i])
  }

  ghost predicate CarriesQuote(core: Core, m: Mandate, at: int, wire: Text, q: Quote) {
    && VerifyAttestation(wire, m, at, core.maxClockSkewSeconds, core.trust).Ok?
    && var e := VerifyAttestation(wire, m, at, core.maxClockSkewSeconds, core.trust).value;
       q == NormalizeProjection(Projection(e.issuedAt, e.payload))
  }

  /**
   Every successful evaluation of attestations: the quotes they carry, in candidate order, each decided, and a receipt
   whose commitments, references, ranking and counts are those of exactly these quotes and decisions.
   */
  lemma EvaluationIsSpelled(core: Core, m: Mandate, wires: seq<Text>, at: int) returns (given: seq<Quote>)
    requires EvaluateV2(core, m, wires, at).Ok?
    ensures Carries(core, m, at, wires, given)
    ensures Spelled(EvaluateV2(core, m, wires, at).value, m, given, at)
  {
    ProjectAllIff(core, m, at, wires);
    var ps := ProjectAll(core, m, at, wires).value;
    given := NormalizedQuotes(ps);
    forall i | 0 <= i < |wires| ensures CarriesQuote(core, m, at, wires[i], given[i]) {
      assert Project(core, m, at, wires[i]) == Ok(ps[i]);
    }
    ProjectionsAreValid(core, m, at, wires);
    V2IsEvaluateQuotes(core, m, wires, at);
    InspectIff(References(given));
    AssembledIsSpelled(m, given, at);
  }

  /** What the independent re-check accepts is spelled the same way. */
  lemma AcceptedIsSpelled(r: EvaluationResult)
    requires VerifyConsistency(r).Ok?
    ensures Spelled(r, r.mandate, r.quotes, r.receipt.body.evaluatedAt)
  {
    ConsistencyIsSound(r, r.quotes);
    InspectIff(References(r.quotes));
    AssembledIsSpelled(r.mandate, r.quotes, r.receipt.body.evaluatedAt);
  }

  // ---- and nothing else is spelled that way ----

  predicate Ahead(a: Ranked, b: Ranked) {
    || a.score.weightedTotal > b.score.weightedTotal
    || (a.score.weightedTotal == b.score.weightedTotal && CompareCandidates(a.ref.candidate, b.ref.candidate) < 0)
  }

  lemma AheadIsOneWay(a: Ranked, b: Ranked)
    requires Ahead(a, b)
    ensures !Ahead(b, a)
  {}

  lemma RankIsPlace(a: seq<Ranked>, ds: seq<Decision>, i: nat)
    requires RanksAll(a, ds) && i < |a|
    ensures a[i].rank == i + 1
  {
    assert FromDecision(a[i], i, ds);
  }

  lemma EntriesDiffer(a: seq<Ranked>, ds: seq<Decision>, j: nat, i: nat)
    requires RanksAll(a, ds) && i < |a|
    ensures j < i ==> a[j].ref.quoteId != a[i].ref.quoteId
  {}

  /** Where the other ranking has the entry at this place: not among the places on which both agree. */
  lemma PlaceElsewhere(a: seq<Ranked>, b: seq<Ranked>, ds: seq<Decision>, i: nat) returns (j: nat)
    requires RanksAll(a, ds) && RanksAll(b, ds) && i < |a| && forall k :: 0 <= k < i ==> k < |b| && a[k] == b[k]
    ensures i <= j < |b| && b[j].ref == a[i].ref && b[j].score == a[i].score
  {
    assert FromDecision(a[i], i, ds);
    var k :| 0 <= k < |ds| && RanksDecision(a[i], i, ds[k]);
    assert HasPlace(b, ds[k]);
    j :| 0 <= j < |b| && RanksDecision(b[j], j, ds[k]);
    EntriesDiffer(a, ds, j, i);
  }

  /** With the same entries from this place on, each in its order, both have the same entry here. */
  lemma OrdersAgree(a: seq<Ranked>, b: seq<Ranked>, i: nat, j: nat, k: nat)
    requires ByTotalThenCandidate(a) && ByTotalThenCandidate(b) && i <= j < |b| && i <= k < |a|
    requires a[i].rank == b[i].rank && b[j].ref == a[i].ref && b[j].score == a[i].score
    requires a[k].ref == b[i].ref && a[k].score == b[i].score
    ensures a[i] == b[i]
  {
    if i < j && i < k {
      assert Ahead(b[i], b[j]) && Ahead(a[i], a[k]);
      AheadIsOneWay(a[i], b[i]);
    }
  }

  lemma PlaceAgrees(a: seq<Ranked>, b: seq<Ranked>, ds: seq<Decision>, i: nat)
    requires RanksAll(a, ds) && RanksAll(b, ds) && ByTotalThenCandidate(a) && ByTotalThenCandidate(b) && i < |a| == |b|
    requires forall k :: 0 <= k < i ==> a[k] == b[k]
    ensures a[i] == b[i]
  {
    var j := PlaceElsewhere(a, b, ds, i);
    var k := PlaceElsewhere(b, a, ds, i);
    RankIsPlace(a, ds, i);
    RankIsPlace(b, ds, i);
    OrdersAgree(a, b, i, j, k);
  }

  lemma {:induction false} FirstDifference(a: seq<Ranked>, b: seq<Ranked>) returns (i: nat)
    requires |a| == |b| && a != b
    ensures i < |a| && a[i] != b[i] && forall k :: 0 <= k < i ==> a[k] == b[k]
  {
    if a[0] != b[0] {
      i := 0;
    } else {
      assert a == [a[0]] + a[1..] && b == [b[0]] + b[1..];
      i := FirstDifference(a[1..], b[1..]);
      i := i + 1;
      assert forall k :: 0 < k < i ==> a[k] == a[1..][k - 1] && b[k] == b[1..][k - 1];
    }
  }

  /** The decisions have one ranking. */
  lemma RankingsAgree(a: seq<Ranked>, b: seq<Ranked>, ds: seq<Decision>)
    requires RanksAll(a, ds) && RanksAll(b, ds) && ByTotalThenCandidate(a) && ByTotalThenCandidate(b)
    ensures a == b
  {
    if a != b {
      var i := FirstDifference(a, b);
      PlaceAgrees(a, b, ds, i);
    }
  }

  lemma ByCandidateIsSorted(qs: seq<Quote>, given: seq<Quote>)
    requires AllValid(given) && Unique(References(given)) && multiset(qs) == multiset(given) && ByCandidate(qs)
    ensures qs == SortBy(QuoteLe, given)
  {
    UniquePermutes(given, qs);
    forall i | 0 <= i < |qs| ensures ValidQuote(qs[i]) {
      assert qs[i] in multiset(given);
    }
    QuoteOrder();
    QuotesDistinguished(qs);
    assert Ordering.Sorted(QuoteLe, qs);
    SortFixesSorted(QuoteLe, qs);
    SortedQuotesAgree(given, qs);
  }

  lemma BodiesAgree(a: ReceiptBody, b: ReceiptBody, qs: seq<Quote>, ds: seq<Decision>, m: Mandate)
    requires a.evaluatedAt == b.evaluatedAt && a.mandateId == b.mandateId && a.category == b.category == m.category
    requires AdapterOf(a.adapter, m.category) && AdapterOf(b.adapter, m.category) && a.ranking == b.ranking
    requires Commits(a.commitments, m, qs, ds, a.ranking) && Commits(b.commitments, m, qs, ds, b.ranking)
    requires QuotesReferenced(a.quotes, qs) && QuotesReferenced(b.quotes, qs)
    requires DecisionsReferenced(a.decisions, ds) && DecisionsReferenced(b.decisions, ds)
    requires Counts(a.summary, ds) && Counts(b.summary, ds)
    ensures a == b
  {
    assert a.commitments == b.commitments && a.summary == b.summary;
    assert forall i :: 0 <= i < |qs| ==> a.quotes[i] == b.quotes[i];
    assert forall i :: 0 <= i < |ds| ==> a.decisions[i] == b.decisions[i];
  }

  /** These quotes at this time have one result: whatever is spelled of them is the same, receipt id included. */
  lemma SpelledOnce(r: EvaluationResult, s: EvaluationResult, m: Mandate, given: seq<Quote>, at: int)
    requires AllValid(given) && Unique(References(given)) && Spelled(r, m, given, at) && Spelled(s, m, given, at)
    ensures r == s
  {
    ByCandidateIsSorted(r.quotes, given);
    ByCandidateIsSorted(s.quotes, given);
    assert r.decisions == s.decisions;
    RankingsAgree(r.receipt.body.ranking, s.receipt.body.ranking, r.decisions);
    BodiesAgree(r.receipt.body, s.receipt.body, r.quotes, r.decisions, m);
  }

  lemma Assembles(m: Mandate, qs: seq<Quote>, at: int)
    requires m.createdAt <= at <= 9_007_199_254_740_991 && 0 < m.createdAt && |qs| <= 8 && Unique(References(qs))
    ensures EvaluationTimeError(m, at).None? && EvaluateQuotes(m, qs, at) == Ok(Assemble(m, SortBy(QuoteLe, qs), at))
  {
    InspectIff(References(qs));
  }

  lemma AssembledIsAccepted(m: Mandate, qs: seq<Quote>, at: int)
    requires ValidMandate(m) && AllValid(qs) && EvaluationTimeError(m, at).None?
    requires EvaluateQuotes(m, qs, at) == Ok(Assemble(m, SortBy(QuoteLe, qs), at))
    ensures VerifyConsistency(Assemble(m, SortBy(QuoteLe, qs), at)) == Ok(Assemble(m, SortBy(QuoteLe, qs), at))
  {
    ConsistencyIsComplete(m, qs, at);
  }

  lemma SpelledIsAssembled(r: EvaluationResult, m: Mandate, qs: seq<Quote>, at: int)
    requires AllValid(qs) && Unique(References(qs)) && Spelled(r, m, qs, at)
    ensures r == Assemble(m, SortBy(QuoteLe, qs), at)
  {
    AssembledIsSpelled(m, qs, at);
    SpelledOnce(r, Assemble(m, SortBy(QuoteLe, qs), at), m, qs, at);
  }

  /** The re-check accepts a result exactly when it is spelled of a valid mandate, valid distinct quotes and a legal instant. */
  lemma AcceptedIffSpelled(r: EvaluationResult)
    ensures VerifyConsistency(r).Ok? <==>
            && ValidMandate(r.mandate) && r.mandate.createdAt <= r.receipt.body.evaluatedAt <= 9_007_199_254_740_991
            && |r.quotes| <= 8 && AllValid(r.quotes) && Unique(References(r.quotes))
            && Spelled(r, r.mandate, r.quotes, r.receipt.body.evaluatedAt)
  {
    var m, qs, at := r.mandate, r.quotes, r.receipt.body.evaluatedAt;
    InspectIff(References(qs));
    if VerifyConsistency(r).Ok? {
      AcceptedPasses(r);
      AcceptedIsSorted(r);
      AcceptedIsSpelled(r);
    } else if ValidMandate(m) && m.createdAt <= at <= 9_007_199_254_740_991 && |qs| <= 8 && AllValid(qs)
              && Unique(References(qs)) && Spelled(r, m, qs, at) {
      SpelledIsAssembled(r, m, qs, at);
      Assembles(m, qs, at);
      AssembledIsAccepted(m, qs, at);
    }
  }

  // ---- why a result is refused ----

  /** What each code accuses a result of, given whether it is spelled of its own mandate, quotes and time. */
  predicate Accuses(code: string, r: EvaluationResult, spelled: bool) {
    var m, at := r.mandate, r.receipt.body.evaluatedAt;
    || (code == "INTEGRITY_MANDATE_INVALID" && !ValidMandate(m))
    || (code == "INTEGRITY_RESULT_TOO_LARGE" && (|r.quotes| > 8 || |r.decisions| > 8))
    || (code == "INTEGRITY_RESULT_SHAPE_INVALID" && |r.quotes| != |r.decisions|)
    || (code == "INTEGRITY_QUOTES_INVALID" && !AllValid(r.quotes))
    || (code == "INTEGRITY_DECISIONS_INVALID" && (!AllValidDecisions(r.decisions) || !Decided(m, r.quotes, at, r.decisions)))
    || (code == "INTEGRITY_RECEIPT_INVALID"
        && (!ValidReceipt(r.receipt) || r.receipt.body.mandateId != m.mandateId || !spelled))
    || (code == "EVALUATED_AT_INVALID" && !(1 <= at <= 9_007_199_254_740_991))
    || (code == "EVALUATED_AT_BEFORE_MANDATE" && at < m.createdAt)
    || (code == "INTEGRITY_UNIQUENESS_INVALID" && !(Unique(References(r.quotes)) && Unique(DecisionReferences(r.decisions))))
    || (code == "INTEGRITY_RESULT_UNORDERED" && !ByCandidate(r.quotes))
  }

  predicate Distinct(r: EvaluationResult) {
    Unique(References(r.quotes)) && Unique(DecisionReferences(r.decisions))
  }

  lemma DistinctIff(r: EvaluationResult)
    requires |r.quotes| <= MAX_CANDIDATES && |r.decisions| <= MAX_CANDIDATES
    ensures Inspect(References(r.quotes)).None? && Inspect(DecisionReferences(r.decisions)).None? <==> Distinct(r)
  {
    InspectIff(References(r.quotes));
    InspectIff(DecisionReferences(r.decisions));
  }

  lemma RefusalByContents(r: EvaluationResult, spelled: bool)
    requires VerifyConsistency(r).Err?
    requires |r.quotes| <= MAX_CANDIDATES && |r.decisions| <= MAX_CANDIDATES ==>
               (Inspect(References(r.quotes)).None? && Inspect(DecisionReferences(r.decisions)).None? <==> Distinct(r))
    requires AllValid(r.quotes) && Distinct(r) && ByCandidate(r.quotes) ==> r.quotes == SortBy(QuoteLe, r.quotes)
    requires ValidMandate(r.mandate) && r.mandate.createdAt <= r.receipt.body.evaluatedAt <= 9_007_199_254_740_991
             && |r.quotes| <= 8 && AllValid(r.quotes) && Distinct(r)
             ==> !spelled
    ensures Accuses(VerifyConsistency(r).error.code, r, spelled)
  {}

  /** Every refusal is justified: what its code accuses the result of is so. */
  lemma RefusalIsJustified(r: EvaluationResult)
    requires VerifyConsistency(r).Err?
    ensures Accuses(VerifyConsistency(r).error.code, r, Spelled(r, r.mandate, r.quotes, r.receipt.body.evaluatedAt))
  {
    AcceptedIffSpelled(r);
    if |r.quotes| <= MAX_CANDIDATES && |r.decisions| <= MAX_CANDIDATES {
      DistinctIff(r);
    }
    if AllValid(r.quotes) && Distinct(r) && ByCandidate(r.quotes) {
      ByCandidateIsSorted(r.quotes, r.quotes);
    }
    RefusalByContents(r, Spelled(r, r.mandate, r.quotes, r.receipt.body.evaluatedAt));
  }
}
