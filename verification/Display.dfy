/** The comparison view of the API (`display.ts`): scores renormalized over what varies, eligible rows first. */
module Display {
  import opened Foundations
  import opened Ordering
  import opened Marketplace
  import opened Eligibility
  import opened Evaluation
  import Ranking

  datatype FactorKey =
    MandateFit | ExecutionReadiness | EvidenceFreshness | RiskCompatibility | TotalCost | ReputationConfidence

  const KEYS: seq<FactorKey> :=
    [MandateFit, ExecutionReadiness, EvidenceFreshness, RiskCompatibility, TotalCost, ReputationConfidence]

  predicate DeclaredPinned(k: FactorKey) { k == MandateFit || k == ExecutionReadiness }

  const PINNED_SCORE_BPS := 10_000

  datatype DisplayFactor = DisplayFactor(key: FactorKey, weight: nat, scoreBps: nat, weightedPoints: nat)

  datatype Warning = MissingFactor(key: FactorKey, quoteId: Text) | Unpinned(key: FactorKey, quoteId: Text) | NoQuote(quoteId: Text)

  datatype DisplayScore = DisplayScore(
    discriminatingScoreBps: nat, discriminatingWeightPoints: nat, factors: seq<DisplayFactor>,
    confirmations: seq<DisplayFactor>, coreScoreBps: nat, coreWeightedTotal: nat)

  /** Core's score as the untyped record the projection reads. */
  datatype CoreScore = CoreScore(factors: map<FactorKey, Factor>, weightedTotal: nat, scoreBps: nat)

  function Untyped(s: Score): CoreScore {
    CoreScore(
      map[MandateFit := s.factors.mandateFit, ExecutionReadiness := s.factors.executionReadiness,
          EvidenceFreshness := s.factors.evidenceFreshness, RiskCompatibility := s.factors.riskCompatibility,
          TotalCost := s.factors.totalCost, ReputationConfidence := s.factors.reputationConfidence],
      s.weightedTotal, s.scoreBps)
  }

  /** `Math.round` of a quotient of non-negative integers. */
  function RoundedQuotient(points: nat, weight: nat): nat
    requires weight > 0
  {
    (2 * points + weight) / (2 * weight)
  }

  predicate Confirmed(k: FactorKey, f: Factor) { DeclaredPinned(k) && f.scoreBps == PINNED_SCORE_BPS }

  function Shown(k: FactorKey, f: Factor): DisplayFactor { DisplayFactor(k, f.weight, f.scoreBps, f.weightedPoints) }

  /** The factors of these keys shown as scoring, in key order. */
  function ScoringFactors(s: CoreScore, keys: seq<FactorKey>): seq<DisplayFactor> {
    if keys == [] then []
    else
      var k := keys[|keys| - 1];
      ScoringFactors(s, keys[..|keys| - 1])
      + (if k in s.factors && !Confirmed(k, s.factors[k]) then [Shown(k, s.factors[k])] else [])
  }

  function Confirmations(s: CoreScore, keys: seq<FactorKey>): seq<DisplayFactor> {
    if keys == [] then []
    else
      var k := keys[|keys| - 1];
      Confirmations(s, keys[..|keys| - 1])
      + (if k in s.factors && Confirmed(k, s.factors[k]) then [Shown(k, s.factors[k])] else [])
  }

  function ScoreWarnings(s: CoreScore, keys: seq<FactorKey>, quoteId: Text): seq<Warning> {
    if keys == [] then []
    else
      var k := keys[|keys| - 1];
      ScoreWarnings(s, keys[..|keys| - 1], quoteId)
      + (if k !in s.factors then [MissingFactor(k, quoteId)]
         else if DeclaredPinned(k) && !Confirmed(k, s.factors[k]) then [Unpinned(k, quoteId)]
         else [])
  }

  function TotalWeight(fs: seq<DisplayFactor>): nat {
    if fs == [] then 0 else TotalWeight(fs[..|fs| - 1]) + fs[|fs| - 1].weight
  }

  function TotalPoints(fs: seq<DisplayFactor>): nat {
    if fs == [] then 0 else TotalPoints(fs[..|fs| - 1]) + fs[|fs| - 1].weightedPoints
  }

  function Projected(s: CoreScore): DisplayScore {
    var factors := ScoringFactors(s, KEYS);
    var weight := TotalWeight(factors);
    DisplayScore(if weight == 0 then 0 else RoundedQuotient(TotalPoints(factors), weight), weight, factors,
      Confirmations(s, KEYS), s.scoreBps, s.weightedTotal)
  }

  /** What the next key adds to each list. */
  lemma NextKey(s: CoreScore, keys: seq<FactorKey>, i: nat, quoteId: Text)
    requires i < |keys|
    ensures
      var k := keys[i];
      var present, confirmed := k in s.factors, k in s.factors && Confirmed(k, s.factors[k]);
      && ScoringFactors(s, keys[..i + 1]) == ScoringFactors(s, keys[..i])
           + (if present && !confirmed then [Shown(k, s.factors[k])] else [])
      && Confirmations(s, keys[..i + 1]) == Confirmations(s, keys[..i])
           + (if confirmed then [Shown(k, s.factors[k])] else [])
      && ScoreWarnings(s, keys[..i + 1], quoteId) == ScoreWarnings(s, keys[..i], quoteId)
           + (if !present then [MissingFactor(k, quoteId)]
              else if DeclaredPinned(k) && !confirmed then [Unpinned(k, quoteId)]
              else [])
  {
    assert keys[..i + 1][..i] == keys[..i];
  }

  method SumFactors(factors: seq<DisplayFactor>) returns (weight: nat, points: nat)
    ensures weight == TotalWeight(factors) && points == TotalPoints(factors)
  {
    weight, points := 0, 0;
    for i := 0 to |factors|
      invariant weight == TotalWeight(factors[..i]) && points == TotalPoints(factors[..i])
    {
      assert factors[..i + 1][..i] == factors[..i];
      weight := weight + factors[i].weight;
      points := points + factors[i].weightedPoints;
    }
    assert factors[..|factors|] == factors;
  }

  /** `projectScore`. */
  method ProjectScore(s: CoreScore, warnings: seq<Warning>, quoteId: Text) returns (d: DisplayScore, warned: seq<Warning>)
    ensures d == Projected(s)
    ensures warned == warnings + ScoreWarnings(s, KEYS, quoteId)
  {
    var factors, confirmations, raised := PushFactors(s, quoteId);
    var weight, points := SumFactors(factors);
    d := DisplayScore(if weight == 0 then 0 else RoundedQuotient(points, weight), weight, factors, confirmations,
      s.scoreBps, s.weightedTotal);
    warned := warnings + raised;
  }

  method PushFactors(s: CoreScore, quoteId: Text)
    returns (factors: seq<DisplayFactor>, confirmations: seq<DisplayFactor>, raised: seq<Warning>)
    ensures factors == ScoringFactors(s, KEYS) && confirmations == Confirmations(s, KEYS)
    ensures raised == ScoreWarnings(s, KEYS, quoteId)
  {
    var keys := KEYS;
    factors, confirmations, raised := [], [], [];
    for i := 0 to |keys|
      invariant factors == ScoringFactors(s, keys[..i])
      invariant confirmations == Confirmations(s, keys[..i])
      invariant raised == ScoreWarnings(s, keys[..i], quoteId)
    {
      NextKey(s, keys, i, quoteId);
      var key := keys[i];
      if key !in s.factors {
        raised := raised + [MissingFactor(key, quoteId)];
        continue;
      }
      var factor := s.factors[key];
      var declaredPinned := DeclaredPinned(key);
      var actuallyPinned := declaredPinned && factor.scoreBps == PINNED_SCORE_BPS;
      if declaredPinned && !actuallyPinned {
        raised := raised + [Unpinned(key, quoteId)];
      }
      if actuallyPinned {
        confirmations := confirmations + [Shown(key, factor)];
      } else {
        factors := factors + [Shown(key, factor)];
      }
    }
    assert keys[..|keys|] == keys;
  }

  // ---- what a projection shows, for any score ----

  /** `Math.round`: the nearest integer to the quotient, the upper one at a tie. */
  lemma RoundedIsNearest(points: nat, weight: nat)
    requires weight > 0
    ensures
      var r := RoundedQuotient(points, weight);
      2 * points - weight < 2 * (r * weight) <= 2 * points + weight
  {
    var n, d := 2 * points + weight, 2 * weight;
    assert n == n / d * d + n % d;
    assert n / d * d == 2 * (n / d * weight);
  }

  predicate IsPinned(k: FactorKey, scoreBps: nat) { k in {MandateFit, ExecutionReadiness} && scoreBps == 10_000 }

  predicate IsShown(d: DisplayFactor, s: CoreScore) {
    && d.key in s.factors && d.weight == s.factors[d.key].weight && d.scoreBps == s.factors[d.key].scoreBps
    && d.weightedPoints == s.factors[d.key].weightedPoints
  }

  /** Factors shown as scoring are exactly the present ones that are not fit or readiness at full; those are confirmed. */
  lemma {:induction false} FactorsShown(s: CoreScore, keys: seq<FactorKey>, d: DisplayFactor)
    ensures d in ScoringFactors(s, keys) <==> d.key in keys && IsShown(d, s) && !IsPinned(d.key, d.scoreBps)
    ensures d in Confirmations(s, keys) <==> d.key in keys && IsShown(d, s) && IsPinned(d.key, d.scoreBps)
  {
    if keys != [] {
      FactorsShown(s, keys[..|keys| - 1], d);
      assert keys == keys[..|keys| - 1] + [keys[|keys| - 1]];
    }
  }

  /** A warning is raised exactly for a missing factor, and for fit or readiness present below full. */
  lemma {:induction false} WarningsRaised(s: CoreScore, keys: seq<FactorKey>, quoteId: Text, w: Warning)
    ensures w in ScoreWarnings(s, keys, quoteId) <==>
            || (w.MissingFactor? && w.quoteId == quoteId && w.key in keys && w.key !in s.factors)
            || (w.Unpinned? && w.quoteId == quoteId && w.key in keys && w.key in s.factors
                && w.key in {MandateFit, ExecutionReadiness} && s.factors[w.key].scoreBps != 10_000)
  {
    if keys != [] {
      WarningsRaised(s, keys[..|keys| - 1], quoteId, w);
      assert keys == keys[..|keys| - 1] + [keys[|keys| - 1]];
    }
  }

  /** The projected score: the scoring factors' points over their weight, rounded to the nearest, and Core's own numbers. */
  lemma ProjectedIs(s: CoreScore)
    ensures
      var d := Projected(s);
      && (forall f :: f in d.factors <==> IsShown(f, s) && !IsPinned(f.key, f.scoreBps))
      && (forall f :: f in d.confirmations <==> IsShown(f, s) && IsPinned(f.key, f.scoreBps))
      && d.discriminatingWeightPoints == TotalWeight(d.factors)
      && (d.discriminatingWeightPoints == 0 ==> d.discriminatingScoreBps == 0)
      && (d.discriminatingWeightPoints > 0 ==>
            2 * TotalPoints(d.factors) - d.discriminatingWeightPoints
              < 2 * (d.discriminatingScoreBps * d.discriminatingWeightPoints)
              <= 2 * TotalPoints(d.factors) + d.discriminatingWeightPoints)
      && d.coreScoreBps == s.scoreBps && d.coreWeightedTotal == s.weightedTotal
  {
    var d := Projected(s);
    forall f
      ensures f in d.factors <==> IsShown(f, s) && !IsPinned(f.key, f.scoreBps)
      ensures f in d.confirmations <==> IsShown(f, s) && IsPinned(f.key, f.scoreBps)
    {
      EveryKey(f.key);
      FactorsShown(s, KEYS, f);
    }
    if d.discriminatingWeightPoints > 0 {
      RoundedIsNearest(TotalPoints(d.factors), d.discriminatingWeightPoints);
    }
  }

  lemma EveryKey(k: FactorKey)
    ensures k in KEYS
  {
    var keys := KEYS;
    assert keys[0] == MandateFit && keys[1] == ExecutionReadiness && keys[2] == EvidenceFreshness;
    assert keys[3] == RiskCompatibility && keys[4] == TotalCost && keys[5] == ReputationConfidence;
  }

  // ---- nothing is hidden ----

  function PresentWeight(s: CoreScore, keys: seq<FactorKey>): nat {
    if keys == [] then 0
    else
      var k := keys[|keys| - 1];
      PresentWeight(s, keys[..|keys| - 1]) + (if k in s.factors then s.factors[k].weight else 0)
  }

  function PresentPoints(s: CoreScore, keys: seq<FactorKey>): nat {
    if keys == [] then 0
    else
      var k := keys[|keys| - 1];
      PresentPoints(s, keys[..|keys| - 1]) + (if k in s.factors then s.factors[k].weightedPoints else 0)
  }

  /** Whatever the score, every present factor is shown once: weights and points of both lists add up to Core's. */
  lemma {:induction false} ProjectionConserves(s: CoreScore, keys: seq<FactorKey>)
    ensures TotalWeight(ScoringFactors(s, keys)) + TotalWeight(Confirmations(s, keys)) == PresentWeight(s, keys)
    ensures TotalPoints(ScoringFactors(s, keys)) + TotalPoints(Confirmations(s, keys)) == PresentPoints(s, keys)
    ensures |ScoringFactors(s, keys)| + |Confirmations(s, keys)| <= |keys|
  {
    if keys != [] {
      ProjectionConserves(s, keys[..|keys| - 1]);
      var k := keys[|keys| - 1];
      var scoring, confirmed := ScoringFactors(s, keys[..|keys| - 1]), Confirmations(s, keys[..|keys| - 1]);
      assert scoring + [] == scoring && confirmed + [] == confirmed;
      if k in s.factors {
        LastCounts(scoring, Shown(k, s.factors[k]));
        LastCounts(confirmed, Shown(k, s.factors[k]));
      }
    }
  }

  lemma LastCounts(fs: seq<DisplayFactor>, f: DisplayFactor)
    ensures TotalWeight(fs + [f]) == TotalWeight(fs) + f.weight
    ensures TotalPoints(fs + [f]) == TotalPoints(fs) + f.weightedPoints
  {
    assert (fs + [f])[..|fs|] == fs;
  }

  // ---- eligible scores ----

  /** The four factors that vary, as shown. */
  function Varying(s: Score): seq<DisplayFactor> {
    [ Shown(EvidenceFreshness, s.factors.evidenceFreshness), Shown(RiskCompatibility, s.factors.riskCompatibility),
      Shown(TotalCost, s.factors.totalCost), Shown(ReputationConfidence, s.factors.reputationConfidence) ]
  }

  predicate FitAndReadinessPinned(s: Score) {
    s.factors.mandateFit.scoreBps == PINNED_SCORE_BPS && s.factors.executionReadiness.scoreBps == PINNED_SCORE_BPS
  }

  lemma PinnedHead(s: Score, quoteId: Text)
    requires FitAndReadinessPinned(s)
    ensures ScoringFactors(Untyped(s), KEYS[..2]) == [] && ScoreWarnings(Untyped(s), KEYS[..2], quoteId) == []
    ensures Confirmations(Untyped(s), KEYS[..2]) ==
            [Shown(MandateFit, s.factors.mandateFit), Shown(ExecutionReadiness, s.factors.executionReadiness)]
  {
    var keys := KEYS;
    NextKey(Untyped(s), keys, 0, quoteId);
    NextKey(Untyped(s), keys, 1, quoteId);
    assert keys[..0] == [];
  }

  /** A key that is never confirmed adds its factor to the scoring list and nothing else. */
  lemma NextVarying(s: Score, i: nat, f: Factor, quoteId: Text)
    requires 2 <= i < 6 && f == Untyped(s).factors[KEYS[i]]
    ensures ScoringFactors(Untyped(s), KEYS[..i + 1]) == ScoringFactors(Untyped(s), KEYS[..i]) + [Shown(KEYS[i], f)]
    ensures Confirmations(Untyped(s), KEYS[..i + 1]) == Confirmations(Untyped(s), KEYS[..i])
    ensures ScoreWarnings(Untyped(s), KEYS[..i + 1], quoteId) == ScoreWarnings(Untyped(s), KEYS[..i], quoteId)
  {
    var keys := KEYS;
    NextKey(Untyped(s), keys, i, quoteId);
  }

  lemma PinnedLists(s: Score, quoteId: Text)
    requires FitAndReadinessPinned(s)
    ensures ScoringFactors(Untyped(s), KEYS) == Varying(s)
    ensures Confirmations(Untyped(s), KEYS) ==
            [Shown(MandateFit, s.factors.mandateFit), Shown(ExecutionReadiness, s.factors.executionReadiness)]
    ensures ScoreWarnings(Untyped(s), KEYS, quoteId) == []
  {
    PinnedHead(s, quoteId);
    NextVarying(s, 2, s.factors.evidenceFreshness, quoteId);
    NextVarying(s, 3, s.factors.riskCompatibility, quoteId);
    NextVarying(s, 4, s.factors.totalCost, quoteId);
    NextVarying(s, 5, s.factors.reputationConfidence, quoteId);
    assert KEYS[..6] == KEYS;
  }

  lemma VaryingTotals(s: Score)
    ensures TotalWeight(Varying(s)) == s.factors.evidenceFreshness.weight + s.factors.riskCompatibility.weight
                                       + s.factors.totalCost.weight + s.factors.reputationConfidence.weight
    ensures TotalPoints(Varying(s)) ==
            s.factors.evidenceFreshness.weightedPoints + s.factors.riskCompatibility.weightedPoints
            + s.factors.totalCost.weightedPoints + s.factors.reputationConfidence.weightedPoints
  {
    var a, b := Shown(EvidenceFreshness, s.factors.evidenceFreshness), Shown(RiskCompatibility, s.factors.riskCompatibility);
    var c, d := Shown(TotalCost, s.factors.totalCost), Shown(ReputationConfidence, s.factors.reputationConfidence);
    LastCounts([], a);
    LastCounts([a], b);
    LastCounts([a, b], c);
    LastCounts([a, b, c], d);
    assert [] + [a] == [a] && [a] + [b] == [a, b] && [a, b] + [c] == [a, b, c] && [a, b, c] + [d] == Varying(s);
  }

  /**
   For a score with fit and readiness pinned, as every eligible score is, the display drops exactly the 500000 points
   those two give, renormalizes over the 50 weight points left, and raises no warning.
   */
  lemma PinnedProjection(s: Score, quoteId: Text)
    requires ValidScore(s) && FitAndReadinessPinned(s)
    ensures
      var d := Projected(Untyped(s));
      && d.discriminatingWeightPoints == 50
      && s.weightedTotal >= 500_000
      && d.discriminatingScoreBps == RoundedQuotient(s.weightedTotal - 500_000, 50) <= 10_000
      && d.factors == Varying(s) && |d.confirmations| == 2
    ensures ScoreWarnings(Untyped(s), KEYS, quoteId) == []
  {
    PinnedLists(s, quoteId);
    VaryingTotals(s);
  }

  lemma EligibleIsPinned(m: Mandate, q: Quote, at: int)
    requires ValidMandate(m) && ValidQuote(q) && Decide(m, q, at).outcome.Eligible?
    ensures Decide(m, q, at).score.Some? && ValidScore(Decide(m, q, at).score.value)
    ensures FitAndReadinessPinned(Decide(m, q, at).score.value)
  {
    EligibleIff(m, q, at);
    EligibleScoreBounds(m, q, at);
    Ranking.ClampChangesNothing(m, q, at);
  }

  /** Displayed scores are a monotone rounding of Core's totals: ordered the same wherever they differ. */
  lemma DisplayedFollowsTotal(a: Score, b: Score)
    requires ValidScore(a) && ValidScore(b) && FitAndReadinessPinned(a) && FitAndReadinessPinned(b)
    ensures a.weightedTotal <= b.weightedTotal ==>
              Projected(Untyped(a)).discriminatingScoreBps <= Projected(Untyped(b)).discriminatingScoreBps
    ensures Projected(Untyped(a)).discriminatingScoreBps < Projected(Untyped(b)).discriminatingScoreBps ==>
              a.weightedTotal < b.weightedTotal
    ensures a.weightedTotal + 50 <= b.weightedTotal ==>
              Projected(Untyped(a)).discriminatingScoreBps < Projected(Untyped(b)).discriminatingScoreBps
  {
    PinnedProjection(a, []);
    PinnedProjection(b, []);
  }

  // ---- the view ----

  datatype DisplayCandidate = DisplayCandidate(
    quoteId: Text, candidate: Candidate, outcome: Outcome, score: Option<DisplayScore>, findings: seq<Finding>,
    quote: Option<Quote>)

  function FindQuote(qs: seq<Quote>, quoteId: Text): Option<Quote> {
    if qs == [] then None
    else if qs[|qs| - 1].quoteId == quoteId then Some(qs[|qs| - 1])
    else FindQuote(qs[..|qs| - 1], quoteId)
  }

  function ShowDecision(qs: seq<Quote>, d: Decision): DisplayCandidate {
    DisplayCandidate(d.quoteId, d.candidate, d.outcome,
      if d.score.None? then None else Some(Projected(Untyped(d.score.value))), d.findings, FindQuote(qs, d.quoteId))
  }

  function ShowAll(qs: seq<Quote>, ds: seq<Decision>): seq<DisplayCandidate> {
    seq(|ds|, i requires 0 <= i < |ds| => ShowDecision(qs, ds[i]))
  }

  function Grade(c: DisplayCandidate): int {
    if c.score.None? then -1 else c.score.value.discriminatingScoreBps
  }

  /** The comparator: eligible first, then the higher displayed score, then the quote id. */
  function CompareRows(a: DisplayCandidate, b: DisplayCandidate): int {
    var x, y := if a.outcome.Eligible? then 0 else 1, if b.outcome.Eligible? then 0 else 1;
    if x != y then x - y
    else if Grade(a) != Grade(b) then Grade(b) - Grade(a)
    else Compare(a.quoteId, b.quoteId)
  }

  predicate RowLe(a: DisplayCandidate, b: DisplayCandidate) { CompareRows(a, b) <= 0 }

  lemma RowOrder()
    ensures Total(RowLe) && Transitive(RowLe)
  {
    forall a, b ensures RowLe(a, b) || RowLe(b, a) { CompareIsTotalOrder(a.quoteId, b.quoteId, a.quoteId); }
    forall a, b, c | RowLe(a, b) && RowLe(b, c) ensures RowLe(a, c) {
      CompareIsTotalOrder(a.quoteId, b.quoteId, c.quoteId);
    }
  }

  function View(qs: seq<Quote>, ds: seq<Decision>): seq<DisplayCandidate> {
    SortBy(RowLe, ShowAll(qs, ds))
  }

  function RowWarnings(qs: seq<Quote>, d: Decision): seq<Warning> {
    (if FindQuote(qs, d.quoteId).None? then [NoQuote(d.quoteId)] else [])
    + (if d.score.None? then [] else ScoreWarnings(Untyped(d.score.value), KEYS, d.quoteId))
  }

  function ViewWarnings(qs: seq<Quote>, ds: seq<Decision>): seq<Warning> {
    if ds == [] then [] else ViewWarnings(qs, ds[..|ds| - 1]) + RowWarnings(qs, ds[|ds| - 1])
  }

  method IndexQuotes(qs: seq<Quote>) returns (byId: map<Text, Quote>)
    ensures forall id :: id in byId <==> FindQuote(qs, id).Some?
    ensures forall id :: id in byId ==> FindQuote(qs, id) == Some(byId[id])
  {
    byId := map[];
    for i := 0 to |qs|
      invariant forall id :: id in byId <==> FindQuote(qs[..i], id).Some?
      invariant forall id :: id in byId ==> FindQuote(qs[..i], id) == Some(byId[id])
    {
      assert qs[..i + 1][..i] == qs[..i];
      byId := byId[qs[i].quoteId := qs[i]];
    }
    assert qs[..|qs|] == qs;
  }

  /** What the next decision adds. */
  lemma NextRow(qs: seq<Quote>, ds: seq<Decision>, i: nat)
    requires i < |ds|
    ensures ShowAll(qs, ds[..i + 1]) == ShowAll(qs, ds[..i]) + [ShowDecision(qs, ds[i])]
    ensures ViewWarnings(qs, ds[..i + 1]) == ViewWarnings(qs, ds[..i]) + RowWarnings(qs, ds[i])
  {
    assert ds[..i + 1][..i] == ds[..i];
  }

  method ShowRow(qs: seq<Quote>, quote: Option<Quote>, d: Decision) returns (row: DisplayCandidate, warned: seq<Warning>)
    requires quote == FindQuote(qs, d.quoteId)
    ensures row == ShowDecision(qs, d) && warned == RowWarnings(qs, d)
  {
    warned := [];
    if quote.None? {
      warned := [NoQuote(d.quoteId)];
    }
    var score: Option<DisplayScore> := None;
    if d.score.Some? {
      var projected: DisplayScore;
      projected, warned := ProjectScore(Untyped(d.score.value), warned, d.quoteId);
      score := Some(projected);
    }
    row := DisplayCandidate(d.quoteId, d.candidate, d.outcome, score, d.findings, quote);
  }

  /** The rows of `buildComparisonView`: pushed one decision at a time, then sorted in place. */
  method BuildRows(qs: seq<Quote>, ds: seq<Decision>) returns (rows: seq<DisplayCandidate>, warnings: seq<Warning>)
    ensures rows == View(qs, ds) && warnings == ViewWarnings(qs, ds)
  {
    var byId := IndexQuotes(qs);
    var pushed: seq<DisplayCandidate> := [];
    warnings := [];
    for i := 0 to |ds|
      invariant pushed == ShowAll(qs, ds[..i]) && warnings == ViewWarnings(qs, ds[..i])
    {
      NextRow(qs, ds, i);
      var quote: Option<Quote> := if ds[i].quoteId in byId then Some(byId[ds[i].quoteId]) else None;
      var row, warned := ShowRow(qs, quote, ds[i]);
      pushed, warnings := pushed + [row], warnings + warned;
    }
    assert ds[..|ds|] == ds;
    rows := SortBy(RowLe, pushed);
  }

  /** The row of a decision: its own reference, outcome and findings, Core's own numbers, and the quote it was made of. */
  predicate RowFor(row: DisplayCandidate, d: Decision, qs: seq<Quote>) {
    && row.quoteId == d.quoteId && row.candidate == d.candidate && row.outcome == d.outcome && row.findings == d.findings
    && (row.score.Some? <==> d.score.Some?)
    && (d.score.Some? ==>
          row.score.value.coreWeightedTotal == d.score.value.weightedTotal && row.score.value.coreScoreBps == d.score.value.scoreBps)
    && (row.quote.Some? ==> row.quote.value in qs && row.quote.value.quoteId == d.quoteId)
    && (row.quote.None? ==> forall q :: q in qs ==> q.quoteId != d.quoteId)
  }

  lemma {:induction false} FoundIsPresent(qs: seq<Quote>, quoteId: Text)
    ensures FindQuote(qs, quoteId).Some? ==> FindQuote(qs, quoteId).value in qs && FindQuote(qs, quoteId).value.quoteId == quoteId
    ensures FindQuote(qs, quoteId).None? ==> forall q :: q in qs ==> q.quoteId != quoteId
  {
    if qs != [] {
      FoundIsPresent(qs[..|qs| - 1], quoteId);
      assert qs == qs[..|qs| - 1] + [qs[|qs| - 1]];
    }
  }

  lemma ShownIsRow(qs: seq<Quote>, d: Decision)
    ensures RowFor(ShowDecision(qs, d), d, qs)
  {
    FoundIsPresent(qs, d.quoteId);
  }

  /** The rows as shown before sorting: each decision's, in the order of the decisions. */
  ghost predicate RowsFor(rows: seq<DisplayCandidate>, ds: seq<Decision>, qs: seq<Quote>) {
    |rows| == |ds| && forall i :: 0 <= i < |ds| ==> RowFor(rows[i], ds[i], qs)
  }

  /** The view is a rearrangement of one row for each decision: none is dropped, doubled or changed. */
  lemma ViewShowsEachDecision(qs: seq<Quote>, ds: seq<Decision>)
    ensures multiset(View(qs, ds)) == multiset(ShowAll(qs, ds)) && RowsFor(ShowAll(qs, ds), ds, qs)
  {
    SortByPermutes(RowLe, ShowAll(qs, ds));
    forall i | 0 <= i < |ds| ensures RowFor(ShowAll(qs, ds)[i], ds[i], qs) { ShownIsRow(qs, ds[i]); }
  }

  lemma {:induction false} FoundIffQuoted(qs: seq<Quote>, quoteId: Text)
    ensures FindQuote(qs, quoteId).None? <==> forall q :: q in qs ==> q.quoteId != quoteId
  {
    if qs != [] {
      FoundIffQuoted(qs[..|qs| - 1], quoteId);
      assert qs == qs[..|qs| - 1] + [qs[|qs| - 1]];
    }
  }

  /** A decision raises a warning exactly for want of a quote, or for what its score lacks. */
  lemma RowWarned(qs: seq<Quote>, d: Decision, w: Warning)
    ensures w in RowWarnings(qs, d) <==>
            || (w == NoQuote(d.quoteId) && forall q :: q in qs ==> q.quoteId != d.quoteId)
            || (d.score.Some? && w.Unpinned? && w.quoteId == d.quoteId
                && ((w.key.MandateFit? && d.score.value.factors.mandateFit.scoreBps != 10_000)
                    || (w.key.ExecutionReadiness? && d.score.value.factors.executionReadiness.scoreBps != 10_000)))
  {
    FoundIffQuoted(qs, d.quoteId);
    if d.score.Some? {
      WarningsRaised(Untyped(d.score.value), KEYS, d.quoteId, w);
    }
  }

  /** The view warns of exactly what its decisions raise. */
  lemma {:induction false} ViewWarned(qs: seq<Quote>, ds: seq<Decision>, w: Warning)
    ensures w in ViewWarnings(qs, ds) <==> exists d :: d in ds && w in RowWarnings(qs, d)
  {
    if ds != [] {
      ViewWarned(qs, ds[..|ds| - 1], w);
      assert ds == ds[..|ds| - 1] + [ds[|ds| - 1]];
    }
  }

  /** Where one row stands before another: eligible first, then the higher grade, then the earlier quote id. */
  lemma RowsInOrder(qs: seq<Quote>, ds: seq<Decision>, i: nat, j: nat)
    requires i < j < |View(qs, ds)|
    ensures
      var a, b := View(qs, ds)[i], View(qs, ds)[j];
      || (a.outcome.Eligible? && !b.outcome.Eligible?)
      || ((a.outcome.Eligible? <==> b.outcome.Eligible?)
          && (Grade(a) > Grade(b) || (Grade(a) == Grade(b) && (a.quoteId == b.quoteId || Less(a.quoteId, b.quoteId)))))
  {
    RowOrder();
    SortBySorted(RowLe, ShowAll(qs, ds));
    var a, b := View(qs, ds)[i], View(qs, ds)[j];
    assert RowLe(a, b);
    LessTrichotomy(a.quoteId, b.quoteId);
  }

  /** No ineligible row ever stands before an eligible one. */
  lemma EligibleRowsFirst(qs: seq<Quote>, ds: seq<Decision>, i: nat, j: nat)
    requires i < j < |View(qs, ds)| && View(qs, ds)[j].outcome.Eligible?
    ensures View(qs, ds)[i].outcome.Eligible?
    ensures Grade(View(qs, ds)[i]) >= Grade(View(qs, ds)[j])
  {
    RowOrder();
    SortBySorted(RowLe, ShowAll(qs, ds));
    assert RowLe(View(qs, ds)[i], View(qs, ds)[j]);
  }

  // ---- rows and receipt ranking of one evaluation ----

  predicate HasRank(m: Mandate, qs: seq<Quote>, at: int, q: Quote, i: nat) {
    var ranking := Evaluation.Ranking(Decisions(m, qs, at));
    i < |ranking| && ranking[i].ref.quoteId == q.quoteId
  }

  predicate HasRow(m: Mandate, qs: seq<Quote>, at: int, q: Quote, k: nat) {
    var rows := View(qs, Decisions(m, qs, at));
    k < |rows| && rows[k].quoteId == q.quoteId
  }

  function TotalOf(m: Mandate, q: Quote, at: int): nat { Ranking.ScoreEligibleQuote(m, q, at).weightedTotal }

  /** What is shown of a total of which 500000 points are pinned. */
  function ShownOf(total: nat): nat
    requires total >= 500_000
  {
    RoundedQuotient(total - 500_000, 50)
  }

  /** The receipt's order of two different candidates. */
  predicate RanksAhead(m: Mandate, a: Quote, b: Quote, at: int) {
    TotalOf(m, a, at) > TotalOf(m, b, at)
    || (TotalOf(m, a, at) == TotalOf(m, b, at) && CompareCandidates(a.candidate, b.candidate) < 0)
  }

  lemma RankExists(ds: seq<Decision>, d: Decision) returns (i: nat)
    requires d in ds && Rankable(d)
    ensures i < |RankOrder(ds)| && RankOrder(ds)[i] == d
  {
    assert d in KeepRankable(ds);
    assert d in RankOrder(ds);
    i :| 0 <= i < |RankOrder(ds)| && RankOrder(ds)[i] == d;
  }

  lemma RowExists(qs: seq<Quote>, ds: seq<Decision>, d: Decision) returns (k: nat)
    requires d in ds
    ensures k < |View(qs, ds)| && View(qs, ds)[k] == ShowDecision(qs, d)
  {
    var p :| 0 <= p < |ds| && ds[p] == d;
    assert ShowAll(qs, ds)[p] in ShowAll(qs, ds);
    assert ShowAll(qs, ds)[p] in View(qs, ds);
    k :| 0 <= k < |View(qs, ds)| && View(qs, ds)[k] == ShowAll(qs, ds)[p];
  }

  lemma IsDecided(m: Mandate, qs: seq<Quote>, at: int, q: Quote)
    requires q in qs
    ensures Decide(m, q, at) in Decisions(m, qs, at)
  {
    var p :| 0 <= p < |qs| && qs[p] == q;
    assert Decisions(m, qs, at)[p] == Decide(m, q, at);
  }

  lemma DecideKeepsQuoteId(m: Mandate, q: Quote, at: int)
    ensures Decide(m, q, at).quoteId == q.quoteId
  {}

  /** Every eligible quote has a place in the ranking and a place in the view. */
  lemma EligibleHasPlaces(m: Mandate, qs: seq<Quote>, at: int, q: Quote) returns (i: nat, k: nat)
    requires ValidMandate(m) && AllValid(qs) && q in qs && Decide(m, q, at).outcome.Eligible?
    ensures HasRank(m, qs, at, q, i) && HasRow(m, qs, at, q, k)
  {
    IsDecided(m, qs, at, q);
    DecideKeepsQuoteId(m, q, at);
    EligibleScoreBounds(m, q, at);
    i, k := PlacesOf(qs, Decisions(m, qs, at), Decide(m, q, at));
  }

  lemma PlacesOf(qs: seq<Quote>, ds: seq<Decision>, d: Decision) returns (i: nat, k: nat)
    requires d in ds && Rankable(d)
    ensures i < |Evaluation.Ranking(ds)| && Evaluation.Ranking(ds)[i].ref.quoteId == d.quoteId
    ensures k < |View(qs, ds)| && View(qs, ds)[k].quoteId == d.quoteId
  {
    RankOrderIsRankable(ds);
    i := RankExists(ds, d);
    k := RowExists(qs, ds, d);
  }

  lemma SameIdSame(ds: seq<Decision>, d: Decision, f: Decision)
    requires UniqueDecisions(ds) && d in ds && f in ds && d.quoteId == f.quoteId
    ensures d == f
  {
    var p :| 0 <= p < |ds| && ds[p] == d;
    var r :| 0 <= r < |ds| && ds[r] == f;
  }

  lemma SameIdSameDecision(m: Mandate, qs: seq<Quote>, at: int, q: Quote, d: Decision)
    requires Unique(References(qs)) && q in qs && d in Decisions(m, qs, at) && d.quoteId == q.quoteId
    ensures d == Decide(m, q, at)
  {
    DecisionsUnique(m, qs, at);
    IsDecided(m, qs, at, q);
    DecideKeepsQuoteId(m, q, at);
    SameIdSame(Decisions(m, qs, at), d, Decide(m, q, at));
  }

  lemma RankHolds(m: Mandate, qs: seq<Quote>, at: int, q: Quote, i: nat)
    requires Unique(References(qs)) && q in qs && HasRank(m, qs, at, q, i)
    ensures i < |RankOrder(Decisions(m, qs, at))| && RankOrder(Decisions(m, qs, at))[i] == Decide(m, q, at)
    ensures Rankable(Decide(m, q, at))
  {
    RankOrderIsRankable(Decisions(m, qs, at));
    SameIdSameDecision(m, qs, at, q, RankOrder(Decisions(m, qs, at))[i]);
  }

  lemma RowHolds(m: Mandate, qs: seq<Quote>, at: int, q: Quote, k: nat)
    requires Unique(References(qs)) && q in qs && HasRow(m, qs, at, q, k)
    ensures View(qs, Decisions(m, qs, at))[k] == ShowDecision(qs, Decide(m, q, at))
  {
    var ds := Decisions(m, qs, at);
    assert View(qs, ds)[k] in View(qs, ds);
    assert View(qs, ds)[k] in ShowAll(qs, ds);
    var p :| 0 <= p < |ds| && ShowAll(qs, ds)[p] == View(qs, ds)[k];
    SameIdSameDecision(m, qs, at, q, ds[p]);
  }

  lemma DifferentQuotesDiffer(qs: seq<Quote>, a: Quote, b: Quote)
    requires AllValid(qs) && Unique(References(qs)) && a in qs && b in qs && a != b
    ensures a.quoteId != b.quoteId && CompareCandidates(a.candidate, b.candidate) != 0
  {
    var i :| 0 <= i < |qs| && qs[i] == a;
    var j :| 0 <= j < |qs| && qs[j] == b;
    assert References(qs)[i] == RefOf(a) && References(qs)[j] == RefOf(b);
    CompareEqualIsSameIdentity(a.candidate, b.candidate);
  }

  lemma RankOrderSorted(ds: seq<Decision>, i: nat, j: nat)
    requires i < j < |RankOrder(ds)|
    ensures RankLe(RankOrder(ds)[i], RankOrder(ds)[j])
  {
    RankedOrder();
    SortBySorted(RankLe, KeepRankable(ds));
  }

  lemma RankLeByTotals(d: Decision, f: Decision)
    requires d.score.Some? && f.score.Some? && CompareCandidates(d.candidate, f.candidate) != 0
    ensures
      var x, y := d.score.value.weightedTotal, f.score.value.weightedTotal;
      RankLe(d, f) <==> x > y || (x == y && CompareCandidates(d.candidate, f.candidate) < 0)
  {}

  lemma EligibleDecision(m: Mandate, q: Quote, at: int)
    requires ValidMandate(m) && ValidQuote(q) && Decide(m, q, at).outcome.Eligible?
    ensures Decide(m, q, at).candidate == q.candidate
    ensures Decide(m, q, at).score.Some? && Decide(m, q, at).score.value.weightedTotal == TotalOf(m, q, at) >= 500_000
  {
    EligibleScoreBounds(m, q, at);
  }

  lemma RankLeIsAhead(m: Mandate, a: Quote, b: Quote, at: int)
    requires ValidMandate(m) && ValidQuote(a) && ValidQuote(b) && CompareCandidates(a.candidate, b.candidate) != 0
    requires Decide(m, a, at).outcome.Eligible? && Decide(m, b, at).outcome.Eligible?
    ensures RankLe(Decide(m, a, at), Decide(m, b, at)) <==> RanksAhead(m, a, b, at)
  {
    EligibleDecision(m, a, at);
    EligibleDecision(m, b, at);
    RankLeByTotals(Decide(m, a, at), Decide(m, b, at));
  }

  lemma CandidatesOpposite(a: Candidate, b: Candidate)
    ensures CompareCandidates(a, b) < 0 <==> CompareCandidates(b, a) > 0
  {}

  lemma AheadIsOneWay(m: Mandate, a: Quote, b: Quote, at: int)
    requires CompareCandidates(a.candidate, b.candidate) != 0
    ensures RanksAhead(m, a, b, at) <==> !RanksAhead(m, b, a, at)
  {
    CandidatesOpposite(a.candidate, b.candidate);
  }

  lemma RankPlaces(m: Mandate, qs: seq<Quote>, at: int, a: Quote, b: Quote, i: nat, j: nat)
    requires ValidMandate(m) && AllValid(qs) && Unique(References(qs)) && a in qs && b in qs && a != b
    requires HasRank(m, qs, at, a, i) && HasRank(m, qs, at, b, j)
    ensures i < j <==> RanksAhead(m, a, b, at)
  {
    RankHolds(m, qs, at, a, i);
    RankHolds(m, qs, at, b, j);
    DifferentQuotesDiffer(qs, a, b);
    CandidatesOpposite(a.candidate, b.candidate);
    AheadIsOneWay(m, a, b, at);
    RankLeIsAhead(m, a, b, at);
    RankLeIsAhead(m, b, a, at);
    if i < j {
      RankOrderSorted(Decisions(m, qs, at), i, j);
    } else if j < i {
      RankOrderSorted(Decisions(m, qs, at), j, i);
    }
  }

  lemma EligibleGrade(m: Mandate, qs: seq<Quote>, at: int, q: Quote)
    requires ValidMandate(m) && ValidQuote(q) && Decide(m, q, at).outcome.Eligible?
    ensures TotalOf(m, q, at) >= 500_000
    ensures Grade(ShowDecision(qs, Decide(m, q, at))) == ShownOf(TotalOf(m, q, at))
  {
    EligibleIsPinned(m, q, at);
    EligibleDecision(m, q, at);
    GradeIsShown(qs, Decide(m, q, at));
  }

  lemma GradeIsShown(qs: seq<Quote>, d: Decision)
    requires d.score.Some? && ValidScore(d.score.value) && FitAndReadinessPinned(d.score.value)
    ensures d.score.value.weightedTotal >= 500_000
    ensures Grade(ShowDecision(qs, d)) == ShownOf(d.score.value.weightedTotal)
  {
    PinnedProjection(d.score.value, d.quoteId);
  }

  lemma RowOf(m: Mandate, qs: seq<Quote>, at: int, q: Quote, k: nat)
    requires ValidMandate(m) && AllValid(qs) && Unique(References(qs)) && q in qs
    requires Decide(m, q, at).outcome.Eligible? && HasRow(m, qs, at, q, k)
    ensures k < |View(qs, Decisions(m, qs, at))| && TotalOf(m, q, at) >= 500_000
    ensures
      var row := View(qs, Decisions(m, qs, at))[k];
      row.outcome.Eligible? && row.quoteId == q.quoteId && Grade(row) == ShownOf(TotalOf(m, q, at))
  {
    RowHolds(m, qs, at, q, k);
    EligibleGrade(m, qs, at, q);
  }

  lemma RowsStand(qs: seq<Quote>, ds: seq<Decision>, k: nat, l: nat)
    requires k < |View(qs, ds)| && l < |View(qs, ds)| && View(qs, ds)[k].quoteId != View(qs, ds)[l].quoteId
    requires View(qs, ds)[k].outcome.Eligible? && View(qs, ds)[l].outcome.Eligible?
    ensures
      var a, b := View(qs, ds)[k], View(qs, ds)[l];
      k < l <==> Grade(a) > Grade(b) || (Grade(a) == Grade(b) && Less(a.quoteId, b.quoteId))
  {
    LessTrichotomy(View(qs, ds)[k].quoteId, View(qs, ds)[l].quoteId);
    if k < l {
      RowsInOrder(qs, ds, k, l);
    } else if l < k {
      RowsInOrder(qs, ds, l, k);
    }
  }

  lemma RowPlaces(m: Mandate, qs: seq<Quote>, at: int, a: Quote, b: Quote, k: nat, l: nat)
    requires ValidMandate(m) && AllValid(qs) && Unique(References(qs)) && a in qs && b in qs && a != b
    requires Decide(m, a, at).outcome.Eligible? && Decide(m, b, at).outcome.Eligible?
    requires HasRow(m, qs, at, a, k) && HasRow(m, qs, at, b, l)
    ensures TotalOf(m, a, at) >= 500_000 && TotalOf(m, b, at) >= 500_000
    ensures
      var x, y := ShownOf(TotalOf(m, a, at)), ShownOf(TotalOf(m, b, at));
      k < l <==> x > y || (x == y && Less(a.quoteId, b.quoteId))
  {
    RowOf(m, qs, at, a, k);
    RowOf(m, qs, at, b, l);
    DifferentQuotesDiffer(qs, a, b);
    RowsStand(qs, Decisions(m, qs, at), k, l);
  }

  /**
   Two eligible quotes of one evaluation: where their displayed scores differ the view and the receipt put them in one
   order, that of the totals; where they tie the view goes by quote id.
   */
  lemma DisplayAgreesWithReceipt(m: Mandate, qs: seq<Quote>, at: int, a: Quote, b: Quote, i: nat, j: nat, k: nat, l: nat)
    requires ValidMandate(m) && AllValid(qs) && Unique(References(qs)) && a in qs && b in qs && a != b
    requires HasRank(m, qs, at, a, i) && HasRank(m, qs, at, b, j)
    requires HasRow(m, qs, at, a, k) && HasRow(m, qs, at, b, l)
    ensures TotalOf(m, a, at) >= 500_000 && TotalOf(m, b, at) >= 500_000
    ensures ShownOf(TotalOf(m, a, at)) != ShownOf(TotalOf(m, b, at)) ==>
              (k < l <==> i < j) && (k < l <==> TotalOf(m, a, at) > TotalOf(m, b, at))
    ensures ShownOf(TotalOf(m, a, at)) == ShownOf(TotalOf(m, b, at)) ==> (k < l <==> Less(a.quoteId, b.quoteId))
  {
    RankHolds(m, qs, at, a, i);
    RankHolds(m, qs, at, b, j);
    RankPlaces(m, qs, at, a, b, i, j);
    RowPlaces(m, qs, at, a, b, k, l);
  }

  /**
   Exactly when the view and the receipt put two eligible quotes of one evaluation in opposite orders: their totals
   round to one displayed score, and their quote ids are ordered against (higher total, then candidate).
   */
  lemma OrdersDisagreeIff(m: Mandate, qs: seq<Quote>, at: int, a: Quote, b: Quote, i: nat, j: nat, k: nat, l: nat)
    requires ValidMandate(m) && AllValid(qs) && Unique(References(qs)) && a in qs && b in qs && a != b
    requires HasRank(m, qs, at, a, i) && HasRank(m, qs, at, b, j)
    requires HasRow(m, qs, at, a, k) && HasRow(m, qs, at, b, l)
    ensures TotalOf(m, a, at) >= 500_000 && TotalOf(m, b, at) >= 500_000
    ensures (k < l) != (i < j) <==>
              ShownOf(TotalOf(m, a, at)) == ShownOf(TotalOf(m, b, at))
              && Less(a.quoteId, b.quoteId) != RanksAhead(m, a, b, at)
  {
    DisplayAgreesWithReceipt(m, qs, at, a, b, i, j, k, l);
    RankPlaces(m, qs, at, a, b, i, j);
  }

  lemma {:induction false} FindsPresent(qs: seq<Quote>, q: Quote)
    requires q in qs
    ensures FindQuote(qs, q.quoteId).Some?
  {
    assert qs == qs[..|qs| - 1] + [qs[|qs| - 1]];
    if qs[|qs| - 1].quoteId != q.quoteId {
      FindsPresent(qs[..|qs| - 1], q);
    }
  }

  lemma DecidedRowIsClean(m: Mandate, all: seq<Quote>, q: Quote, at: int)
    requires ValidMandate(m) && ValidQuote(q) && q in all
    ensures RowWarnings(all, Decide(m, q, at)) == []
  {
    FindsPresent(all, q);
    if Decide(m, q, at).outcome.Eligible? {
      EligibleIsPinned(m, q, at);
      PinnedProjection(Decide(m, q, at).score.value, q.quoteId);
    }
  }

  /** Rows built from Core's own quotes and decisions never carry a warning. */
  lemma {:induction false} NoWarnings(m: Mandate, all: seq<Quote>, qs: seq<Quote>, at: int)
    requires ValidMandate(m) && AllValid(qs) && forall q :: q in qs ==> q in all
    ensures ViewWarnings(all, Decisions(m, qs, at)) == []
    decreases |qs|
  {
    if qs != [] {
      NoWarnings(m, all, qs[..|qs| - 1], at);
      assert Decisions(m, qs, at)[..|qs| - 1] == Decisions(m, qs[..|qs| - 1], at);
      DecidedRowIsClean(m, all, qs[|qs| - 1], at);
    }
  }
}
