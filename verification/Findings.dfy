/** Collecting findings and putting them in canonical order (`codes.ts`). */
module Findings {
  import opened Foundations
  import opened Ordering
  import opened Marketplace

  function KindText(k: FindingKind): string {
    match k
    case Exclusion => "exclusion"
    case Inconclusive => "inconclusive"
    case Unsupported => "unsupported"
  }

  /** The key `${kind}:${code}` findings are identified and ordered by. */
  function FindingKey(f: Finding): seq<int> {
    Codes(KindText(f.kind) + ":" + f.code)
  }

  lemma FindingKeyInjective(f: Finding, g: Finding)
    requires FindingKey(f) == FindingKey(g)
    ensures f == g
  {
    var a, b := KindText(f.kind) + ":", KindText(g.kind) + ":";
    assert FindingKey(f)[0] == a[0] as int && FindingKey(g)[0] == b[0] as int;
    assert f.kind == g.kind;
    CodesInjective(a + f.code, b + g.code);
    assert f.code == (a + f.code)[|a|..] == (b + g.code)[|b|..] == g.code;
  }

  function KindRank(k: FindingKind): nat {
    match k
    case Exclusion => 0
    case Inconclusive => 1
    case Unsupported => 2
  }

  lemma {:induction false} LessPastPrefix(p: seq<int>, a: seq<int>, b: seq<int>)
    ensures Less(p + a, p + b) <==> Less(a, b)
  {
    if p == [] {
      assert p + a == a && p + b == b;
    } else {
      LessPastPrefix(p[1..], a, b);
      assert (p + a)[1..] == p[1..] + a && (p + b)[1..] == p[1..] + b;
    }
  }

  /** The key orders findings by kind, exclusions first and unsupported last, and then by code. */
  lemma FindingsByKindThenCode(f: Finding, g: Finding)
    ensures Less(FindingKey(f), FindingKey(g)) <==>
            || KindRank(f.kind) < KindRank(g.kind)
            || (f.kind == g.kind && Less(Codes(f.code), Codes(g.code)))
  {
    var a, b := KindText(f.kind) + ":", KindText(g.kind) + ":";
    assert FindingKey(f) == Codes(a) + Codes(f.code);
    assert FindingKey(g) == Codes(b) + Codes(g.code);
    if f.kind == g.kind {
      LessPastPrefix(Codes(a), Codes(f.code), Codes(g.code));
    } else {
      assert FindingKey(f)[0] == a[0] as int && FindingKey(g)[0] == b[0] as int;
    }
  }

  predicate FindingLe(f: Finding, g: Finding) {
    LessEq(FindingKey(f), FindingKey(g))
  }

  lemma FindingOrder()
    ensures Total(FindingLe) && Transitive(FindingLe)
    ensures forall f, g :: FindingLe(f, g) && FindingLe(g, f) ==> f == g
  {
    forall f, g ensures FindingLe(f, g) || FindingLe(g, f) {
      CompareIsTotalOrder(FindingKey(f), FindingKey(g), FindingKey(f));
    }
    forall f, g, h | FindingLe(f, g) && FindingLe(g, h) ensures FindingLe(f, h) {
      CompareIsTotalOrder(FindingKey(f), FindingKey(g), FindingKey(h));
    }
    forall f, g | FindingLe(f, g) && FindingLe(g, f) ensures f == g {
      CompareIsTotalOrder(FindingKey(f), FindingKey(g), FindingKey(f));
      FindingKeyInjective(f, g);
    }
  }

  /** Each finding once, where it first appeared: the values of a Map filled in order. */
  function Distinct(fs: seq<Finding>): (r: seq<Finding>)
    ensures forall f :: f in r <==> f in fs
    ensures NoDuplicates(r) && |r| <= |fs|
  {
    if fs == [] then []
    else
      var earlier := Distinct(fs[..|fs| - 1]);
      var last := fs[|fs| - 1];
      assert fs == fs[..|fs| - 1] + [last];
      if last in earlier then earlier else earlier + [last]
  }

  function Canonical(fs: seq<Finding>): seq<Finding> {
    SortBy(FindingLe, Distinct(fs))
  }

  /** What the decision schema asks of a list of findings: distinct keys, in key order. */
  predicate InCanonicalOrder(fs: seq<Finding>) {
    Sorted(FindingLe, fs) && NoDuplicates(fs)
  }

  lemma CanonicalIsCanonical(fs: seq<Finding>)
    ensures InCanonicalOrder(Canonical(fs)) && |Canonical(fs)| <= |fs|
    ensures forall f :: f in Canonical(fs) <==> f in fs
  {
    FindingOrder();
    SortBySorted(FindingLe, Distinct(fs));
    SortByPermutes(FindingLe, Distinct(fs));
    NoDuplicatesByMultiset(Distinct(fs));
    NoDuplicatesByMultiset(Canonical(fs));
    assert multiset(Canonical(fs)) == multiset(Distinct(fs));
  }

  /** Neither the order in which findings were raised nor raising one twice shows in the result. */
  lemma CanonicalDependsOnSet(fs: seq<Finding>, gs: seq<Finding>)
    requires forall f :: f in fs <==> f in gs
    ensures Canonical(fs) == Canonical(gs)
  {
    CanonicalUnique(Distinct(fs), Distinct(gs));
    FindingOrder();
    SortForgetsOrder(FindingLe, Distinct(fs), Distinct(gs));
  }

  lemma CanonicalUnique(fs: seq<Finding>, gs: seq<Finding>)
    requires NoDuplicates(fs) && NoDuplicates(gs) && forall f :: f in fs <==> f in gs
    ensures multiset(fs) == multiset(gs)
  {
    NoDuplicatesByMultiset(fs);
    NoDuplicatesByMultiset(gs);
    forall f ensures multiset(fs)[f] == multiset(gs)[f] {
      assert f in fs <==> f in gs;
    }
  }

  lemma DistinctStep(fs: seq<Finding>, i: nat)
    requires i < |fs|
    ensures Distinct(fs[..i + 1]) == if fs[i] in fs[..i] then Distinct(fs[..i]) else Distinct(fs[..i]) + [fs[i]]
  {
    assert fs[..i + 1][..i] == fs[..i];
  }

  /** The Map's insertion order: each key leads to the one value with that key. */
  predicate KeysIndex(keys: map<seq<int>, nat>, values: seq<Finding>) {
    && (forall k :: k in keys ==> keys[k] < |values| && FindingKey(values[keys[k]]) == k)
    && (forall j :: 0 <= j < |values| ==> FindingKey(values[j]) in keys)
  }

  lemma KeyIsIndexed(keys: map<seq<int>, nat>, values: seq<Finding>, f: Finding)
    requires KeysIndex(keys, values)
    ensures FindingKey(f) in keys <==> f in values
    ensures FindingKey(f) in keys ==> values[keys[FindingKey(f)] := f] == values
  {
    if FindingKey(f) in keys {
      FindingKeyInjective(values[keys[FindingKey(f)]], f);
    }
  }

  lemma KeysIndexGrows(keys: map<seq<int>, nat>, values: seq<Finding>, f: Finding)
    requires KeysIndex(keys, values) && FindingKey(f) !in keys
    ensures KeysIndex(keys[FindingKey(f) := |values|], values + [f])
  {}

  /** One turn of the Map loop: an old key overwrites its value with itself, a new one appends. */
  lemma NextFinding(keys: map<seq<int>, nat>, values: seq<Finding>, fs: seq<Finding>, i: nat)
    requires i < |fs| && KeysIndex(keys, values) && values == Distinct(fs[..i])
    ensures
      var f := fs[i];
      if FindingKey(f) in keys
      then keys[FindingKey(f)] < |values| && values[keys[FindingKey(f)] := f] == values == Distinct(fs[..i + 1])
      else values + [f] == Distinct(fs[..i + 1]) && KeysIndex(keys[FindingKey(f) := |values|], values + [f])
  {
    DistinctStep(fs, i);
    KeyIsIndexed(keys, values, fs[i]);
    if FindingKey(fs[i]) !in keys {
      KeysIndexGrows(keys, values, fs[i]);
    }
  }

  /** `sortFindings`: a Map keyed by kind and code, whose values are then sorted. */
  method SortFindings(findings: seq<Finding>) returns (sorted: seq<Finding>)
    ensures sorted == Canonical(findings)
  {
    var keys: map<seq<int>, nat> := map[];
    var values: seq<Finding> := [];
    for i := 0 to |findings|
      invariant values == Distinct(findings[..i])
      invariant KeysIndex(keys, values)
    {
      NextFinding(keys, values, findings, i);
      var key := FindingKey(findings[i]);
      if key in keys {
        values := values[keys[key] := findings[i]];
      } else {
        keys := keys[key := |values|];
        values := values + [findings[i]];
      }
    }
    assert findings[..|findings|] == findings;
    sorted := SortBy(FindingLe, values);
  }

  // ---- collecting ----

  function When(condition: bool, f: Finding): seq<Finding> {
    if condition then [f] else []
  }

  /** The array findings are pushed into. */
  class FindingList {
    var items: seq<Finding>

    constructor ()
      ensures items == []
    {
      items := [];
    }

    method AddIf(condition: bool, f: Finding)
      modifies this
      ensures items == old(items) + When(condition, f)
    {
      if condition {
        items := items + [f];
      }
    }
  }
}
