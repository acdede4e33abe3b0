/**
 What the rest of the core relies on: canonical text identifies a value up to key order, and a
 wire is accepted only when it is the canonical text of its value (`canonical.ts`, `attestation.ts`).
 */
module CanonicalArtifacts {
  import opened Foundations
  import opened Ordering
  import opened CanonicalJson
  import opened CanonicalWire
  import Decimal

  // ---- canonical text identifies values ----

  /** Parsing canonical text gives the normalized value. */
  lemma CanonicalTextParses(convert: Convert, v: Value)
    requires IsJs(v) && CanonicalText(v).Some?
    ensures ParseJson(convert, CanonicalText(v).value) == Normalize(v)
  {
    NormalizeIsNormal(v);
    PrintRoundTrips(convert, Normalize(v).value);
  }

  /** Two values have the same canonical text exactly when they differ only in key order. */
  lemma CanonicalTextIdentifies(v: Value, w: Value)
    requires IsJs(v) && IsJs(w) && CanonicalText(v).Some? && CanonicalText(w).Some?
    ensures CanonicalText(v) == CanonicalText(w) <==> Same(v, w)
  {
    var convert: Convert := _ => NonInteger;
    CanonicalTextParses(convert, v);
    CanonicalTextParses(convert, w);
    NormalFormDecidesSame(v, w);
  }

  /** No `__proto__` key anywhere. */
  predicate ProtoFree(v: Value) {
    match v
    case Arr(items) => forall i :: 0 <= i < |items| ==> ProtoFree(items[i])
    case Obj(fields) => forall i :: 0 <= i < |fields| ==> fields[i].key != PROTO && ProtoFree(fields[i].value)
    case _ => true
  }

  /** Every member of each object is found again, with the same value, in the other: plain map equality. */
  ghost predicate SameMap(v: Value, w: Value)
    decreases v, 1
  {
    match (v, w)
    case (Arr(a), Arr(b)) => |a| == |b| && forall i :: 0 <= i < |a| ==> SameMap(a[i], b[i])
    case (Obj(f), Obj(g)) => |f| == |g| && forall i :: 0 <= i < |f| ==> HasSameMap(f[i], g)
    case _ => v == w
  }

  ghost predicate HasSameMap(x: Field, g: seq<Field>)
    decreases x, 0
  {
    exists j :: 0 <= j < |g| && g[j].key == x.key && SameMap(x.value, g[j].value)
  }

  function Keys(fs: seq<Field>): set<Text> {
    set i | 0 <= i < |fs| :: fs[i].key
  }

  lemma {:induction false} KeyCount(fs: seq<Field>)
    requires DistinctKeys(fs)
    ensures |Keys(fs)| == |fs|
  {
    if fs == [] {
      assert Keys(fs) == {};
    } else {
      var front, last := fs[..|fs| - 1], fs[|fs| - 1];
      KeyCount(front);
      assert Keys(fs) == Keys(front) + {last.key} by {
        forall k ensures k in Keys(fs) <==> k in Keys(front) + {last.key} {
          if k in Keys(front) {
            var i :| 0 <= i < |front| && front[i].key == k;
            assert fs[i].key == k;
          }
          if k in Keys(fs) {
            var i :| 0 <= i < |fs| && fs[i].key == k;
            if i < |front| { assert front[i].key == k; }
          }
          assert fs[|fs| - 1].key == last.key;
        }
      }
      assert last.key !in Keys(front);
    }
  }

  /** Of two equally long objects where the first's keys all occur in the second, the keys agree. */
  lemma SameSizeSameKeys(f: seq<Field>, g: seq<Field>)
    requires DistinctKeys(f) && DistinctKeys(g)
    requires forall i :: 0 <= i < |f| ==> HasKey(g, f[i].key)
    ensures |f| <= |g|
    ensures |f| == |g| <==> forall j :: 0 <= j < |g| ==> HasKey(f, g[j].key)
  {
    KeyCount(f);
    KeyCount(g);
    assert Keys(f) <= Keys(g);
    SubsetSize(Keys(f), Keys(g));
    if |f| == |g| {
      forall j | 0 <= j < |g| ensures HasKey(f, g[j].key) {
        assert g[j].key in Keys(g);
      }
    }
    if forall j :: 0 <= j < |g| ==> HasKey(f, g[j].key) {
      assert Keys(g) <= Keys(f);
      assert Keys(f) == Keys(g);
    }
  }

  lemma SubsetSize<T>(a: set<T>, b: set<T>)
    requires a <= b
    ensures |a| <= |b|
    ensures |a| == |b| ==> a == b
  {
    assert b == a + (b - a);
    assert |b| == |a| + |b - a|;
  }

  /** Without `__proto__` keys, `Same` is equality as nested maps, so canonical text is injective. */
  lemma {:induction false} SameIsMapEquality(v: Value, w: Value)
    requires IsJs(v) && IsJs(w) && ProtoFree(v) && ProtoFree(w)
    ensures Same(v, w) <==> SameMap(v, w)
    decreases v, 1
  {
    match (v, w)
    case (Arr(a), Arr(b)) =>
      if |a| == |b| {
        forall i | 0 <= i < |a| ensures Same(a[i], b[i]) <==> SameMap(a[i], b[i]) {
          SameIsMapEquality(a[i], b[i]);
        }
      }
    case (Obj(f), Obj(g)) =>
      forall i | 0 <= i < |f| ensures HasSame(f[i], g) <==> HasSameMap(f[i], g) {
        SameFieldIsMapEquality(v, i, g, w);
      }
      if forall i :: 0 <= i < |f| ==> HasSame(f[i], g) {
        forall i | 0 <= i < |f| ensures HasKey(g, f[i].key) { assert HasSame(f[i], g); }
        SameSizeSameKeys(f, g);
      }
      assert Same(v, w) <==> (forall i :: 0 <= i < |f| ==> HasSame(f[i], g)) && (forall j :: 0 <= j < |g| ==> HasKey(f, g[j].key));
    case _ =>
  }

  lemma SameFieldIsMapEquality(v: Value, i: nat, g: seq<Field>, w: Value)
    requires IsJs(v) && IsJs(w) && ProtoFree(v) && ProtoFree(w)
    requires v.Obj? && i < |v.fields| && w.Obj? && g == w.fields
    ensures HasSame(v.fields[i], g) <==> HasSameMap(v.fields[i], g)
    decreases v, 0
  {
    var x := v.fields[i];
    forall j | 0 <= j < |g| ensures Same(x.value, g[j].value) <==> SameMap(x.value, g[j].value) {
      SameIsMapEquality(x.value, g[j].value);
    }
    if HasSame(x, g) {
      var j :| 0 <= j < |g| && g[j].key == x.key && Same(x.value, g[j].value);
      assert SameMap(x.value, g[j].value);
    }
    if HasSameMap(x, g) {
      var j :| 0 <= j < |g| && g[j].key == x.key && SameMap(x.value, g[j].value);
      assert Same(x.value, g[j].value);
    }
  }

  /** On data without `__proto__` keys, `canonicalJson` is injective up to key order. */
  lemma CanonicalTextInjective(v: Value, w: Value)
    requires IsJs(v) && IsJs(w) && ProtoFree(v) && ProtoFree(w)
    requires CanonicalText(v).Some? && CanonicalText(w).Some?
    ensures CanonicalText(v) == CanonicalText(w) <==> SameMap(v, w)
  {
    CanonicalTextIdentifies(v, w);
    SameIsMapEquality(v, w);
  }

  /** With a `__proto__` key it is not: `{"__proto__":1}` and `{}` share the text `{}`. */
  lemma ProtoKeyCollides()
    ensures
      var v, w := Obj([Field(PROTO, Num(Integer(1)))]), Obj([]);
      && IsJs(v) && IsJs(w) && !SameMap(v, w)
      && CanonicalText(v) == CanonicalText(w) == Some([123, 125])
  {
    var v, w := Obj([Field(PROTO, Num(Integer(1)))]), Obj([]);
    assert !Decimal.IsDigit(PROTO[0]);
    assert !Decimal.AllDigits(PROTO) && !IsArrayIndexName(v.fields[0].key);
    assert SortBy(KeyLe, v.fields) == v.fields;
    assert Normalize(v.fields[0].value) == Some(Num(Integer(1)));
    assert NormalizeFields(v, v.fields[1..]) == Some([]);
    var none: seq<Field> := [];
    assert none + none == none;
    assert NormalizeFields(v, v.fields) == Some([]);
    assert Normalize(v) == Some(Obj([]));
    assert Normalize(w) == Some(Obj([]));
    assert Print(Obj([])) == [123] + [] + [125] == [123, 125];
  }

  // ---- the shape bound ----

  ghost predicate Below(vs: seq<Value>, owner: Value) {
    forall i :: 0 <= i < |vs| ==> vs[i] < owner
  }

  function Children(v: Value): (r: seq<Value>)
    ensures Below(r, v)
  {
    match v
    case Arr(items) => items
    case Obj(fields) => seq(|fields|, i requires 0 <= i < |fields| => fields[i].value)
    case _ => []
  }

  function Nodes(v: Value): nat
    decreases v, 1, 0
  {
    1 + NodesOf(v, Children(v))
  }

  function NodesOf(ghost owner: Value, vs: seq<Value>): nat
    requires Below(vs, owner)
    decreases owner, 0, |vs|
  {
    if vs == [] then 0 else Nodes(vs[0]) + NodesOf(owner, vs[1..])
  }

  /** Edges on the longest path below `v`. */
  function Depth(v: Value): nat
    decreases v, 1, 0
  {
    if Children(v) == [] then 0 else 1 + DeepestOf(v, Children(v))
  }

  function DeepestOf(ghost owner: Value, vs: seq<Value>): nat
    requires Below(vs, owner)
    decreases owner, 0, |vs|
  {
    if vs == [] then 0
    else
      var d, rest := Depth(vs[0]), DeepestOf(owner, vs[1..]);
      if d >= rest then d else rest
  }

  const MAX_NODES := 4_096
  const MAX_DEPTH := 32

  predicate Bounded(v: Value) {
    Nodes(v) <= MAX_NODES && Depth(v) <= MAX_DEPTH
  }

  datatype Pending = Pending(value: Value, depth: nat)

  function Weight(p: seq<Pending>): nat {
    if p == [] then 0 else Weight(p[..|p| - 1]) + Nodes(p[|p| - 1].value)
  }

  predicate Reaches(p: seq<Pending>, limit: nat) {
    exists i :: 0 <= i < |p| && p[i].depth + Depth(p[i].value) > limit
  }

  lemma {:induction false} DeepestIsReached(owner: Value, vs: seq<Value>, limit: int)
    requires Below(vs, owner)
    ensures (exists i :: 0 <= i < |vs| && Depth(vs[i]) > limit) <==> vs != [] && DeepestOf(owner, vs) > limit
    decreases |vs|
  {
    if vs == [] {
    } else {
      DeepestIsReached(owner, vs[1..], limit);
      if exists i :: 0 <= i < |vs| && Depth(vs[i]) > limit {
        var i :| 0 <= i < |vs| && Depth(vs[i]) > limit;
        if i > 0 { assert vs[1..][i - 1] == vs[i]; }
      }
      if |vs| > 1 && DeepestOf(owner, vs[1..]) > limit {
        var i :| 0 <= i < |vs[1..]| && Depth(vs[1..][i]) > limit;
        assert vs[i + 1] == vs[1..][i];
      }
    }
  }

  lemma {:induction false} NodesOfGrows(owner: Value, vs: seq<Value>, i: nat)
    requires Below(vs, owner) && i < |vs|
    ensures NodesOf(owner, vs[..i + 1]) == NodesOf(owner, vs[..i]) + Nodes(vs[i])
    decreases |vs|
  {
    if i == 0 {
      assert vs[..1] == [vs[0]];
      assert vs[..1][1..] == [];
    } else {
      NodesOfGrows(owner, vs[1..], i - 1);
      assert vs[..i + 1][1..] == vs[1..][..i] && vs[..i][1..] == vs[1..][..i - 1];
    }
  }

  function Queued(values: seq<Value>, depth: nat): seq<Pending> {
    seq(|values|, k requires 0 <= k < |values| => Pending(values[k], depth))
  }

  /** `assertBoundedJsonShape`: the worklist accepts exactly the values within both bounds. */
  method AssertBoundedJsonShape(root: Value) returns (accepted: bool)
    ensures accepted <==> Bounded(root)
    ensures accepted <==> Nodes(root) <= 4_096 && Depth(root) <= 32
  {
    var pending := [Pending(root, 0)];
    var nodes := 0;
    StartOfWork(root);
    while |pending| > 0
      invariant nodes + Weight(pending) == Nodes(root)
      invariant nodes <= MAX_NODES
      invariant Depth(root) > MAX_DEPTH <==> Reaches(pending, MAX_DEPTH)
      decreases Weight(pending)
    {
      var current := pending[|pending| - 1];
      ghost var front := pending[..|pending| - 1];
      assert pending == front + [current];
      Expand(front, current);
      pending := pending[..|pending| - 1];
      nodes := nodes + 1;
      if nodes > MAX_NODES || current.depth > MAX_DEPTH {
        return false;
      }
      pending := PushChildren(pending, Children(current.value), current.depth + 1);
    }
    return true;
  }

  method PushChildren(pending: seq<Pending>, values: seq<Value>, depth: nat) returns (after: seq<Pending>)
    ensures after == pending + Queued(values, depth)
  {
    after := pending;
    for i := 0 to |values|
      invariant after == pending + Queued(values[..i], depth)
    {
      after := after + [Pending(values[i], depth)];
    }
    assert values[..|values|] == values;
  }

  lemma StartOfWork(root: Value)
    ensures Weight([Pending(root, 0)]) == Nodes(root)
    ensures Reaches([Pending(root, 0)], MAX_DEPTH) <==> Depth(root) > MAX_DEPTH
  {
    var p := [Pending(root, 0)];
    assert p[..0] == [];
    assert p[0].depth + Depth(p[0].value) == Depth(root);
  }

  /** Replacing an entry by its children removes one node of work and keeps what is too deep. */
  lemma Expand(front: seq<Pending>, current: Pending)
    ensures
      var before := front + [current];
      var after := front + Queued(Children(current.value), current.depth + 1);
      && Weight(before) == 1 + Weight(after)
      && (current.depth <= MAX_DEPTH ==> (Reaches(before, MAX_DEPTH) <==> Reaches(after, MAX_DEPTH)))
      && (current.depth > MAX_DEPTH ==> Reaches(before, MAX_DEPTH))
  {
    var values := Children(current.value);
    var before := front + [current];
    var after := front + Queued(values, current.depth + 1);
    assert before[..|before| - 1] == front;
    WeightOfQueued(front, current.value, values, |values|, current.depth + 1);
    assert values[..|values|] == values;
    if current.depth <= MAX_DEPTH {
      ReplaceByChildren(before, front, after, current);
    } else {
      assert before[|front|].depth + Depth(before[|front|].value) > MAX_DEPTH;
    }
  }

  lemma {:induction false} WeightOfQueued(front: seq<Pending>, owner: Value, values: seq<Value>, i: nat, depth: nat)
    requires Below(values, owner) && i <= |values|
    ensures Weight(front + Queued(values[..i], depth)) == Weight(front) + NodesOf(owner, values[..i])
  {
    if i == 0 {
      assert Queued(values[..0], depth) == [];
      assert front + [] == front;
    } else {
      WeightOfQueued(front, owner, values, i - 1, depth);
      NodesOfGrows(owner, values, i - 1);
      var p := front + Queued(values[..i - 1], depth);
      QueuedGrows(front, values, i, depth);
      WeightGrows(p, Pending(values[i - 1], depth));
    }
  }

  lemma QueuedGrows(front: seq<Pending>, values: seq<Value>, i: nat, depth: nat)
    requires 0 < i <= |values|
    ensures front + Queued(values[..i], depth) == front + Queued(values[..i - 1], depth) + [Pending(values[i - 1], depth)]
  {}

  lemma WeightGrows(p: seq<Pending>, x: Pending)
    ensures Weight(p + [x]) == Weight(p) + Nodes(x.value)
  {
    assert (p + [x])[..|p|] == p;
  }

  lemma ReplaceByChildren(before: seq<Pending>, front: seq<Pending>, after: seq<Pending>, current: Pending)
    requires before == front + [current] && current.depth <= MAX_DEPTH
    requires |after| == |front| + |Children(current.value)| && front == after[..|front|]
    requires forall k :: 0 <= k < |Children(current.value)| ==>
               after[|front| + k] == Pending(Children(current.value)[k], current.depth + 1)
    ensures Reaches(before, MAX_DEPTH) <==> Reaches(after, MAX_DEPTH)
  {
    var values := Children(current.value);
    DeepestIsReached(current.value, values, MAX_DEPTH - current.depth - 1);
    if Reaches(before, MAX_DEPTH) {
      var i :| 0 <= i < |before| && before[i].depth + Depth(before[i].value) > MAX_DEPTH;
      if i < |front| {
        assert after[i] == front[i] == before[i];
      } else {
        var k :| 0 <= k < |values| && Depth(values[k]) > MAX_DEPTH - current.depth - 1;
        assert after[|front| + k].depth + Depth(after[|front| + k].value) > MAX_DEPTH;
      }
    }
    if Reaches(after, MAX_DEPTH) {
      var i :| 0 <= i < |after| && after[i].depth + Depth(after[i].value) > MAX_DEPTH;
      if i < |front| {
        assert after[i] == front[i] == before[i];
      } else {
        assert after[|front| + (i - |front|)].value == values[i - |front|];
        assert Depth(values[i - |front|]) > MAX_DEPTH - current.depth - 1;
        assert before[|front|] == current;
      }
    }
  }

  // ---- accepting a wire ----

  datatype WireError = JsonInvalid | InputInvalid | Noncanonical

  /** `parseCanonicalJson`. */
  method ParseCanonicalJson(convert: Convert, wire: Text) returns (r: Result<Value, WireError>)
    ensures r == AcceptWire(convert, wire)
  {
    var raw := ParseJson(convert, wire);
    if raw.None? {
      return Err(JsonInvalid);
    }
    var bounded := AssertBoundedJsonShape(raw.value);
    if !bounded {
      return Err(InputInvalid);
    }
    var canonical := CanonicalText(raw.value);
    if canonical.None? || canonical.value != wire {
      return Err(Noncanonical);
    }
    return Ok(raw.value);
  }

  function AcceptWire(convert: Convert, wire: Text): Result<Value, WireError> {
    match ParseJson(convert, wire)
    case None => Err(JsonInvalid)
    case Some(raw) =>
      if !Bounded(raw) then Err(InputInvalid)
      else if CanonicalText(raw) != Some(wire) then Err(Noncanonical)
      else Ok(raw)
  }

  lemma ParsedIsJs(convert: Convert, wire: Text)
    requires ParseJson(convert, wire).Some?
    ensures IsJs(ParseJson(convert, wire).value)
  {
    ParseIsJs(convert, wire);
  }

  /**
   A wire is accepted exactly when it is the canonical text of some value whose normal form is
   within the shape bounds; the value returned is then that normal form, with no `__proto__` key.
   */
  lemma AcceptedIffCanonical(convert: Convert, wire: Text)
    ensures AcceptWire(convert, wire).Ok? <==>
            exists v :: IsJs(v) && CanonicalText(v) == Some(wire) && Bounded(Normalize(v).value)
    ensures AcceptWire(convert, wire).Ok? ==>
              var n := AcceptWire(convert, wire).value;
              Normal(n) && ProtoFree(n) && Print(n) == wire
  {
    if AcceptWire(convert, wire).Ok? {
      var raw := AcceptWire(convert, wire).value;
      ParsedIsJs(convert, wire);
      CanonicalTextParses(convert, raw);
      assert Normalize(raw) == Some(raw);
      NormalizeIsNormal(raw);
      NormalIsProtoFree(raw);
    }
    if exists v :: IsJs(v) && CanonicalText(v) == Some(wire) && Bounded(Normalize(v).value) {
      var v :| IsJs(v) && CanonicalText(v) == Some(wire) && Bounded(Normalize(v).value);
      CanonicalTextParses(convert, v);
      NormalizeIsNormal(v);
      NormalizeFixesNormal(Normalize(v).value);
    }
  }

  /** A canonical text with a space after it is refused: as out of shape when its value is, otherwise as not canonical. */
  lemma SpacedTextIsRefused(convert: Convert, v: Value)
    requires IsJs(v) && CanonicalText(v).Some?
    ensures AcceptWire(convert, CanonicalText(v).value + [32]) ==
            Err(if Nodes(Normalize(v).value) > 4_096 || Depth(Normalize(v).value) > 32 then InputInvalid else Noncanonical)
  {
    var n, wire := Normalize(v).value, CanonicalText(v).value;
    NormalizeIsNormal(v);
    ValueRoundTrip(convert, n, [32]);
    assert [32][1..] == [];
    NormalizeFixesNormal(n);
    assert wire + [32] != wire;
  }

  lemma {:induction false} NormalIsProtoFree(n: Value)
    requires Normal(n)
    ensures ProtoFree(n)
  {
    match n
    case Arr(items) =>
      forall i | 0 <= i < |items| ensures ProtoFree(items[i]) { NormalIsProtoFree(items[i]); }
    case Obj(fields) =>
      forall i | 0 <= i < |fields| ensures ProtoFree(fields[i].value) { NormalIsProtoFree(fields[i].value); }
    case _ =>
  }

  /** Values that share an accepted wire are the same data: the wire is the one text of its value. */
  lemma AcceptedWireIsUnique(convert: Convert, wire: Text, other: Text)
    requires AcceptWire(convert, wire).Ok? && AcceptWire(convert, other).Ok?
    ensures SameMap(AcceptWire(convert, wire).value, AcceptWire(convert, other).value) <==> wire == other
  {
    AcceptedIffCanonical(convert, wire);
    AcceptedIffCanonical(convert, other);
    var v, w := AcceptWire(convert, wire).value, AcceptWire(convert, other).value;
    NormalIsJs(v);
    NormalIsJs(w);
    CanonicalTextInjective(v, w);
  }

  // ---- the normalizer as the source runs it ----

  /** `normalizeCanonical`: recursion with a loop per container, stopping at the first refusal. */
  method NormalizeCanonical(v: Value) returns (r: Option<Value>)
    ensures r == Normalize(v)
    decreases v
  {
    match v
    case Null => return Some(v);
    case Bool(_) => return Some(v);
    case Str(_) => return Some(v);
    case Num(num) =>
      if !num.Integer? || !IsSafe(num.n) {
        return None;
      }
      return Some(v);
    case Arr(items) =>
      var output: seq<Value> := [];
      assert items[0..] == items;
      ItemsAfterNothing(NormalizeItems(items));
      for i := 0 to |items|
        invariant NormalizeItems(items) == ItemsAfter(output, NormalizeItems(items[i..]))
      {
        assert items[i..][1..] == items[i + 1..];
        ghost var rest := NormalizeItems(items[i + 1..]);
        var n := NormalizeCanonical(items[i]);
        if n.None? {
          return None;
        }
        ItemsAfterOne(output, n.value, rest);
        output := output + [n.value];
      }
      assert NormalizeItems(items[|items|..]) == Some([]);
      assert output + [] == output;
      return Some(Arr(output));
    case Obj(fields) =>
      var sorted := SortBy(KeyLe, fields);
      var output: seq<Field> := [];
      assert sorted[0..] == sorted;
      FieldsAfterNothing(NormalizeFields(v, sorted));
      for i := 0 to |sorted|
        invariant NormalizeFields(v, sorted) == FieldsAfter(output, NormalizeFields(v, sorted[i..]))
      {
        assert sorted[i..][1..] == sorted[i + 1..];
        ghost var rest := NormalizeFields(v, sorted[i + 1..]);
        assert sorted[i] in sorted;
        if IsArrayIndexName(sorted[i].key) {
          return None;
        }
        var entry := NormalizeCanonical(sorted[i].value);
        if entry.None? {
          return None;
        }
        FieldsAfterOne(output, if sorted[i].key == PROTO then [] else [Field(sorted[i].key, entry.value)], rest);
        assert output + [] == output;
        if sorted[i].key != PROTO {
          output := output + [Field(sorted[i].key, entry.value)];
        }
      }
      assert NormalizeFields(v, sorted[|sorted|..]) == Some([]);
      assert output + [] == output;
      return Some(Obj(output));
    case Foreign =>
      return None;
  }

  ghost function ItemsAfter(done: seq<Value>, rest: Option<seq<Value>>): Option<seq<Value>> {
    if rest.None? then None else Some(done + rest.value)
  }

  ghost function FieldsAfter(done: seq<Field>, rest: Option<seq<Field>>): Option<seq<Field>> {
    if rest.None? then None else Some(done + rest.value)
  }

  lemma ItemsAfterNothing(rest: Option<seq<Value>>)
    ensures ItemsAfter([], rest) == rest
  {
    if rest.Some? { assert [] + rest.value == rest.value; }
  }

  lemma ItemsAfterOne(done: seq<Value>, n: Value, rest: Option<seq<Value>>)
    ensures ItemsAfter(done, ItemsAfter([n], rest)) == ItemsAfter(done + [n], rest)
  {
    if rest.Some? { assert done + ([n] + rest.value) == done + [n] + rest.value; }
  }

  lemma FieldsAfterNothing(rest: Option<seq<Field>>)
    ensures FieldsAfter([], rest) == rest
  {
    if rest.Some? { assert [] + rest.value == rest.value; }
  }

  lemma FieldsAfterOne(done: seq<Field>, one: seq<Field>, rest: Option<seq<Field>>)
    ensures FieldsAfter(done, FieldsAfter(one, rest)) == FieldsAfter(done + one, rest)
  {
    if rest.Some? { assert done + (one + rest.value) == done + one + rest.value; }
  }
}
