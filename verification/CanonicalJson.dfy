/**
 Canonical JSON (`canonical.ts`): the normalizer that orders keys and refuses unsafe data,
 and the `JSON.stringify` text of its result. Strings are UTF-16 code units; escaping follows
 section 7 of RFC 8259 as ECMA-262 prints it, key order section 3.2.3 of RFC 8785.
 */
module CanonicalJson {
  import opened Foundations
  import opened Ordering
  import Decimal

  datatype Numeral = Integer(n: int) | NonInteger

  /** A JavaScript value: JSON data, or anything else (`Foreign`: undefined, functions, class instances). */
  datatype Value =
    | Null
    | Bool(b: bool)
    | Num(num: Numeral)
    | Str(text: Text)
    | Arr(items: seq<Value>)
    | Obj(fields: seq<Field>)
    | Foreign

  datatype Field = Field(key: Text, value: Value)

  const MAX_ARRAY_INDEX := 4_294_967_294

  /** `__proto__`: assigning it runs the prototype setter and creates no own property. */
  const PROTO: Text := [95, 95, 112, 114, 111, 116, 111, 95, 95]

  /** Names that ECMA-262 section 10.1.11.1 would enumerate before every other key. */
  predicate IsArrayIndexName(key: Text) {
    Decimal.Canonical(key) && Decimal.ValueOf(key) <= MAX_ARRAY_INDEX
  }

  predicate KeyLe(f: Field, g: Field) { LessEq(f.key, g.key) }

  predicate DistinctKeys(fs: seq<Field>) {
    forall i, j :: 0 <= i < j < |fs| ==> fs[i].key != fs[j].key
  }

  /** No object carries one key twice, as in every JavaScript object. */
  predicate IsJs(v: Value) {
    match v
    case Arr(items) => forall i :: 0 <= i < |items| ==> IsJs(items[i])
    case Obj(fields) => DistinctKeys(fields) && forall i :: 0 <= i < |fields| ==> IsJs(fields[i].value)
    case _ => true
  }

  // ---- normalizer ----

  function Normalize(v: Value): Option<Value>
    decreases v, 1, 0
  {
    match v
    case Null => Some(v)
    case Bool(_) => Some(v)
    case Str(_) => Some(v)
    case Num(num) => if num.Integer? && IsSafe(num.n) then Some(v) else None
    case Arr(items) =>
      (match NormalizeItems(items)
       case None => None
       case Some(ns) => Some(Arr(ns)))
    case Obj(fields) =>
      (match NormalizeFields(v, SortBy(KeyLe, fields))
       case None => None
       case Some(ns) => Some(Obj(ns)))
    case Foreign => None
  }

  function NormalizeItems(items: seq<Value>): Option<seq<Value>>
    decreases items, 0, 0
  {
    if items == [] then Some([])
    else
      match Normalize(items[0])
      case None => None
      case Some(n) =>
        match NormalizeItems(items[1..])
        case None => None
        case Some(ns) => Some([n] + ns)
  }

  function NormalizeFields(ghost owner: Value, fs: seq<Field>): Option<seq<Field>>
    requires owner.Obj? && forall f :: f in fs ==> f in owner.fields
    decreases owner, 0, |fs|
  {
    if fs == [] then Some([])
    else if IsArrayIndexName(fs[0].key) then None
    else
      assert fs[0] in owner.fields;
      match Normalize(fs[0].value)
      case None => None
      case Some(n) =>
        match NormalizeFields(owner, fs[1..])
        case None => None
        case Some(ns) => Some((if fs[0].key == PROTO then [] else [Field(fs[0].key, n)]) + ns)
  }

  // ---- printer ----

  function HexDigit(d: int): Unit
    requires 0 <= d < 16
  {
    if d < 10 then 48 + d else 87 + d
  }

  function Hex4(u: Unit): Text {
    [HexDigit(u / 256 / 16), HexDigit(u / 256 % 16), HexDigit(u % 256 / 16), HexDigit(u % 256 % 16)]
  }

  predicate HighSurrogate(u: Unit) { 0xD800 <= u <= 0xDBFF }
  predicate LowSurrogate(u: Unit) { 0xDC00 <= u <= 0xDFFF }

  function EscapeUnit(u: Unit): Text {
    if u == 34 then [92, 34]
    else if u == 92 then [92, 92]
    else if u == 8 then [92, 98]
    else if u == 12 then [92, 102]
    else if u == 10 then [92, 110]
    else if u == 13 then [92, 114]
    else if u == 9 then [92, 116]
    else if u < 32 || HighSurrogate(u) || LowSurrogate(u) then [92, 117] + Hex4(u)
    else [u]
  }

  function Escaped(s: Text): Text {
    if s == [] then []
    else if |s| >= 2 && HighSurrogate(s[0]) && LowSurrogate(s[1]) then s[..2] + Escaped(s[2..])
    else EscapeUnit(s[0]) + Escaped(s[1..])
  }

  function Quoted(s: Text): Text { [34] + Escaped(s) + [34] }

  function PrintInteger(n: int): Text {
    if n < 0 then [45] + Decimal.Digits(-n) else Decimal.Digits(n)
  }

  /** `JSON.stringify`. */
  function Print(v: Value): Text
    decreases v, 1
  {
    match v
    case Null => [110, 117, 108, 108]
    case Bool(b) => if b then [116, 114, 117, 101] else [102, 97, 108, 115, 101]
    case Num(num) => if num.Integer? then PrintInteger(num.n) else [110, 117, 108, 108]
    case Str(s) => Quoted(s)
    case Arr(items) => [91] + PrintItems(items) + [93]
    case Obj(fields) => [123] + PrintFields(fields) + [125]
    case Foreign => []
  }

  function PrintItems(items: seq<Value>): Text
    decreases items, 0
  {
    if items == [] then []
    else Print(items[0]) + if |items| == 1 then [] else [44] + PrintItems(items[1..])
  }

  function PrintField(f: Field): Text
    decreases f, 0
  {
    Quoted(f.key) + [58] + Print(f.value)
  }

  function PrintFields(fields: seq<Field>): Text
    decreases fields, 0
  {
    if fields == [] then []
    else PrintField(fields[0]) + if |fields| == 1 then [] else [44] + PrintFields(fields[1..])
  }

  /** `canonicalJson(value)`; None stands for the thrown TypeError. */
  function CanonicalText(v: Value): Option<Text> {
    match Normalize(v)
    case None => None
    case Some(n) => Some(Print(n))
  }

  // ---- what normalized values look like ----

  predicate StrictlyOrdered(fs: seq<Field>) {
    forall i, j :: 0 <= i < j < |fs| ==> Less(fs[i].key, fs[j].key)
  }

  predicate Normal(v: Value) {
    match v
    case Num(num) => num.Integer? && IsSafe(num.n)
    case Arr(items) => forall i :: 0 <= i < |items| ==> Normal(items[i])
    case Obj(fields) =>
      && StrictlyOrdered(fields)
      && forall i :: 0 <= i < |fields| ==>
           Normal(fields[i].value) && fields[i].key != PROTO && !IsArrayIndexName(fields[i].key)
    case Foreign => false
    case _ => true
  }

  lemma KeyOrderLaws()
    ensures Total(KeyLe) && Transitive(KeyLe)
  {
    forall f: Field, g: Field ensures KeyLe(f, g) || KeyLe(g, f) {
      CompareIsTotalOrder(f.key, g.key, g.key);
    }
    forall f: Field, g: Field, h: Field | KeyLe(f, g) && KeyLe(g, h) ensures KeyLe(f, h) {
      CompareIsTotalOrder(f.key, g.key, h.key);
    }
  }

  lemma DistinctKeysDistinguish(fs: seq<Field>)
    requires DistinctKeys(fs)
    ensures Distinguishes(KeyLe, fs)
  {
    forall f, g | f in fs && g in fs && KeyLe(f, g) && KeyLe(g, f) ensures f == g {
      CompareIsTotalOrder(f.key, g.key, g.key);
    }
  }

  lemma DistinctKeysByCount(fs: seq<Field>, gs: seq<Field>)
    requires DistinctKeys(fs) && multiset(fs) == multiset(gs)
    ensures DistinctKeys(gs)
  {
    NoDuplicatesByMultiset(fs);
    NoDuplicatesByMultiset(gs);
    forall i, j | 0 <= i < j < |gs| ensures gs[i].key != gs[j].key {
      assert gs[i] in multiset(fs) && gs[j] in multiset(fs);
      assert gs[i] in fs && gs[j] in fs;
      forall g | g in gs ensures multiset(gs)[g] == 1 {
        assert g in multiset(fs);
        assert g in fs;
      }
    }
  }

  /** Sorting a JavaScript object's fields gives strictly increasing keys. */
  lemma SortStrict(fs: seq<Field>)
    requires DistinctKeys(fs)
    ensures StrictlyOrdered(SortBy(KeyLe, fs)) && DistinctKeys(SortBy(KeyLe, fs))
  {
    KeyOrderLaws();
    SortBySorted(KeyLe, fs);
    SortByPermutes(KeyLe, fs);
    var gs := SortBy(KeyLe, fs);
    DistinctKeysByCount(fs, gs);
    forall i, j | 0 <= i < j < |gs| ensures Less(gs[i].key, gs[j].key) {
      assert KeyLe(gs[i], gs[j]);
      CompareIsTotalOrder(gs[i].key, gs[j].key, gs[j].key);
    }
  }

  /** What one object's normalization contains: exactly its entries with a creatable key, normalized. */
  ghost predicate FromField(fs: seq<Field>, n: Field) {
    exists i :: 0 <= i < |fs| && fs[i].key == n.key && n.key != PROTO && Normalize(fs[i].value) == Some(n.value)
  }

  lemma {:induction false} NormalizeFieldsContent(owner: Value, fs: seq<Field>)
    requires owner.Obj? && forall f :: f in fs ==> f in owner.fields
    requires NormalizeFields(owner, fs).Some?
    ensures forall n :: n in NormalizeFields(owner, fs).value <==> FromField(fs, n)
    ensures forall i :: 0 <= i < |fs| ==> !IsArrayIndexName(fs[i].key) && Normalize(fs[i].value).Some?
    ensures StrictlyOrdered(fs) ==> StrictlyOrdered(NormalizeFields(owner, fs).value)
    decreases |fs|
  {
    if fs == [] {
    } else {
      NormalizeFieldsContent(owner, fs[1..]);
      var ns := NormalizeFields(owner, fs[1..]).value;
      var all := NormalizeFields(owner, fs).value;
      forall n ensures n in all <==> FromField(fs, n) {
        if FromField(fs, n) {
          var i :| 0 <= i < |fs| && fs[i].key == n.key && n.key != PROTO && Normalize(fs[i].value) == Some(n.value);
          if i > 0 {
            assert fs[1..][i - 1] == fs[i];
            assert FromField(fs[1..], n);
          }
        }
        if n in all && n in ns {
          assert FromField(fs[1..], n);
          var i :| 0 <= i < |fs[1..]| && fs[1..][i].key == n.key && Normalize(fs[1..][i].value) == Some(n.value);
          assert fs[i + 1].key == n.key;
        }
      }
      forall i | 0 <= i < |fs| ensures !IsArrayIndexName(fs[i].key) && Normalize(fs[i].value).Some? {
        if i > 0 {
          assert fs[1..][i - 1] == fs[i];
        }
      }
      if StrictlyOrdered(fs) {
        forall j | 0 <= j < |ns| ensures Less(fs[0].key, ns[j].key) {
          assert FromField(fs[1..], ns[j]);
        }
      }
    }
  }

  lemma {:induction false} NormalizeFieldsFails(owner: Value, fs: seq<Field>)
    requires owner.Obj? && forall f :: f in fs ==> f in owner.fields
    requires forall i :: 0 <= i < |fs| ==> !IsArrayIndexName(fs[i].key) && Normalize(fs[i].value).Some?
    ensures NormalizeFields(owner, fs).Some?
    decreases |fs|
  {
    if fs == [] {
    } else {
      forall i | 0 <= i < |fs[1..]| ensures !IsArrayIndexName(fs[1..][i].key) && Normalize(fs[1..][i].value).Some? {
        assert fs[1..][i] == fs[i + 1];
      }
      NormalizeFieldsFails(owner, fs[1..]);
    }
  }

  lemma {:induction false} NormalizeItemsContent(items: seq<Value>)
    requires NormalizeItems(items).Some?
    ensures |NormalizeItems(items).value| == |items|
    ensures forall i :: 0 <= i < |items| ==> Normalize(items[i]) == Some(NormalizeItems(items).value[i])
  {
    if items == [] {
    } else {
      NormalizeItemsContent(items[1..]);
      forall i | 0 <= i < |items| ensures Normalize(items[i]) == Some(NormalizeItems(items).value[i]) {
        if i > 0 {
          assert items[1..][i - 1] == items[i];
        }
      }
    }
  }

  /** The normalizer's output is normal: strictly ordered keys, safe integers, no forbidden names. */
  lemma {:induction false} NormalizeIsNormal(v: Value)
    requires IsJs(v) && Normalize(v).Some?
    ensures Normal(Normalize(v).value)
  {
    match v
    case Arr(items) =>
      NormalizeItemsContent(items);
      var ns := NormalizeItems(items).value;
      forall i | 0 <= i < |ns| ensures Normal(ns[i]) {
        NormalizeIsNormal(items[i]);
      }
    case Obj(fields) =>
      var sorted := SortBy(KeyLe, fields);
      SortStrict(fields);
      NormalizeFieldsContent(v, sorted);
      var ns := NormalizeFields(v, sorted).value;
      forall i | 0 <= i < |ns|
        ensures Normal(ns[i].value) && ns[i].key != PROTO && !IsArrayIndexName(ns[i].key)
      {
        assert FromField(sorted, ns[i]);
        var j :| 0 <= j < |sorted| && sorted[j].key == ns[i].key && Normalize(sorted[j].value) == Some(ns[i].value);
        assert sorted[j] in sorted;
        NormalizeIsNormal(sorted[j].value);
      }
    case _ =>
  }

  lemma {:induction false} NormalIsJs(n: Value)
    requires Normal(n)
    ensures IsJs(n)
  {
    match n
    case Arr(items) =>
      forall i | 0 <= i < |items| ensures IsJs(items[i]) { NormalIsJs(items[i]); }
    case Obj(fields) =>
      forall i | 0 <= i < |fields| ensures IsJs(fields[i].value) { NormalIsJs(fields[i].value); }
      forall i, j | 0 <= i < j < |fields| ensures fields[i].key != fields[j].key {
        LessIrreflexive(fields[i].key);
      }
    case _ =>
  }

  lemma OrderedIsSorted(fs: seq<Field>)
    requires StrictlyOrdered(fs)
    ensures SortBy(KeyLe, fs) == fs && DistinctKeys(fs)
  {
    KeyOrderLaws();
    forall i, j | 0 <= i < j < |fs| ensures fs[i].key != fs[j].key && KeyLe(fs[i], fs[j]) {
      LessIrreflexive(fs[i].key);
      CompareIsTotalOrder(fs[i].key, fs[j].key, fs[j].key);
    }
    DistinctKeysDistinguish(fs);
    SortFixesSorted(KeyLe, fs);
  }

  lemma {:induction false} NormalItemsFixed(items: seq<Value>)
    requires forall i :: 0 <= i < |items| ==> Normalize(items[i]) == Some(items[i])
    ensures NormalizeItems(items) == Some(items)
  {
    if items == [] {
    } else {
      NormalItemsFixed(items[1..]);
      assert items == [items[0]] + items[1..];
    }
  }

  lemma {:induction false} NormalFieldsFixed(owner: Value, fs: seq<Field>)
    requires owner.Obj? && forall f :: f in fs ==> f in owner.fields
    requires forall i :: 0 <= i < |fs| ==>
               Normalize(fs[i].value) == Some(fs[i].value) && fs[i].key != PROTO && !IsArrayIndexName(fs[i].key)
    ensures NormalizeFields(owner, fs) == Some(fs)
    decreases |fs|
  {
    if fs == [] {
    } else {
      NormalFieldsFixed(owner, fs[1..]);
      assert fs == [fs[0]] + fs[1..];
    }
  }

  /** Normalizing twice changes nothing. */
  lemma {:induction false} NormalizeFixesNormal(n: Value)
    requires Normal(n)
    ensures Normalize(n) == Some(n)
  {
    match n
    case Arr(items) =>
      forall i | 0 <= i < |items| ensures Normalize(items[i]) == Some(items[i]) { NormalizeFixesNormal(items[i]); }
      NormalItemsFixed(items);
    case Obj(fields) =>
      OrderedIsSorted(fields);
      forall i | 0 <= i < |fields| ensures Normalize(fields[i].value) == Some(fields[i].value) {
        NormalizeFixesNormal(fields[i].value);
      }
      NormalFieldsFixed(n, fields);
    case _ =>
  }

  // ---- which values share a canonical text ----

  /**
   Equality of JSON data up to key order, reading an object as a map from its keys.
   A `__proto__` key is not readable back from a normalized object, so it does not count.
   */
  ghost predicate Same(v: Value, w: Value)
    decreases v, 1
  {
    match (v, w)
    case (Arr(a), Arr(b)) => |a| == |b| && forall i :: 0 <= i < |a| ==> Same(a[i], b[i])
    case (Obj(f), Obj(g)) =>
      && (forall i :: 0 <= i < |f| && f[i].key != PROTO ==> HasSame(f[i], g))
      && (forall j :: 0 <= j < |g| && g[j].key != PROTO ==> HasKey(f, g[j].key))
    case _ => v == w
  }

  ghost predicate HasSame(x: Field, g: seq<Field>)
    decreases x, 0
  {
    exists j :: 0 <= j < |g| && g[j].key == x.key && Same(x.value, g[j].value)
  }

  predicate HasKey(fs: seq<Field>, key: Text) {
    exists i :: 0 <= i < |fs| && fs[i].key == key
  }

  lemma {:induction false} StrictSameContent(a: seq<Field>, b: seq<Field>)
    requires StrictlyOrdered(a) && StrictlyOrdered(b)
    requires forall x :: x in a <==> x in b
    ensures a == b
  {
    assert a != [] ==> a[0] in b;
    assert b != [] ==> b[0] in a;
    if a == [] {
    } else {
      FirstIsLeast(a, b);
      FirstIsLeast(b, a);
      LessTrichotomy(a[0].key, b[0].key);
      assert a[0].key == b[0].key;
      SameKeySameField(b, a[0], b[0]);
      forall x ensures x in a[1..] <==> x in b[1..] {
        TailMembership(a, x);
        TailMembership(b, x);
      }
      StrictSameContent(a[1..], b[1..]);
    }
  }

  lemma FirstIsLeast(a: seq<Field>, b: seq<Field>)
    requires a != [] && b != [] && StrictlyOrdered(b) && a[0] in b
    ensures b[0].key == a[0].key || Less(b[0].key, a[0].key)
  {
    var j :| 0 <= j < |b| && b[j] == a[0];
  }

  lemma SameKeySameField(b: seq<Field>, x: Field, y: Field)
    requires StrictlyOrdered(b) && x in b && y in b && x.key == y.key
    ensures x == y
  {
    var i :| 0 <= i < |b| && b[i] == x;
    var j :| 0 <= j < |b| && b[j] == y;
    LessIrreflexive(x.key);
  }

  lemma TailMembership(a: seq<Field>, x: Field)
    requires a != [] && StrictlyOrdered(a)
    ensures x in a[1..] <==> x in a && x != a[0]
  {
    if x in a[1..] {
      var j :| 0 <= j < |a[1..]| && a[1..][j] == x;
      assert Less(a[0].key, a[j + 1].key);
      LessIrreflexive(a[0].key);
    }
  }

  lemma ObjNormalContent(v: Value)
    requires v.Obj? && IsJs(v) && Normalize(v).Some?
    ensures Normalize(v).value.Obj? && StrictlyOrdered(Normalize(v).value.fields)
    ensures forall n :: n in Normalize(v).value.fields <==> FromField(v.fields, n)
    ensures forall i :: 0 <= i < |v.fields| ==> Normalize(v.fields[i].value).Some?
  {
    var sorted := SortBy(KeyLe, v.fields);
    SortStrict(v.fields);
    NormalizeFieldsContent(v, sorted);
    forall n ensures FromField(sorted, n) <==> FromField(v.fields, n) {
      if FromField(sorted, n) {
        var i :| 0 <= i < |sorted| && sorted[i].key == n.key && Normalize(sorted[i].value) == Some(n.value);
        assert sorted[i] in v.fields;
      }
      if FromField(v.fields, n) {
        var i :| 0 <= i < |v.fields| && v.fields[i].key == n.key && Normalize(v.fields[i].value) == Some(n.value);
        assert v.fields[i] in sorted;
      }
    }
    forall i | 0 <= i < |v.fields| ensures Normalize(v.fields[i].value).Some? {
      assert v.fields[i] in sorted;
    }
  }

  /** Normal forms are equal exactly when the values differ only in key order. */
  lemma {:induction false} NormalFormDecidesSame(v: Value, w: Value)
    requires IsJs(v) && IsJs(w) && Normalize(v).Some? && Normalize(w).Some?
    ensures Normalize(v) == Normalize(w) <==> Same(v, w)
    decreases v, 1
  {
    match (v, w)
    case (Arr(a), Arr(b)) =>
      NormalizeItemsContent(a);
      NormalizeItemsContent(b);
      if |a| == |b| {
        forall i | 0 <= i < |a| ensures Normalize(a[i]) == Normalize(b[i]) <==> Same(a[i], b[i]) {
          NormalFormDecidesSame(a[i], b[i]);
        }
        var na, nb := NormalizeItems(a).value, NormalizeItems(b).value;
        if Same(v, w) {
          forall i | 0 <= i < |a| ensures na[i] == nb[i] { assert Same(a[i], b[i]); }
          assert na == nb;
        }
        if na == nb {
          forall i | 0 <= i < |a| ensures Same(a[i], b[i]) { assert na[i] == nb[i]; }
        }
      }
    case (Obj(f), Obj(g)) =>
      ObjNormalContent(v);
      ObjNormalContent(w);
      var nf, ng := Normalize(v).value.fields, Normalize(w).value.fields;
      if Same(v, w) {
        SameGivesSubset(v, w);
        KeysGiveSubset(v, w);
        StrictSameContent(nf, ng);
      }
      if nf == ng {
        SubsetGivesHasSame(v, w);
        forall j | 0 <= j < |g| && g[j].key != PROTO ensures HasKey(f, g[j].key) {
          var n := Field(g[j].key, Normalize(g[j].value).value);
          assert FromField(g, n);
          assert n in nf;
          assert FromField(f, n);
        }
      }
    case _ =>
  }

  lemma SameGivesSubset(v: Value, w: Value)
    requires v.Obj? && w.Obj? && IsJs(v) && IsJs(w) && Normalize(v).Some? && Normalize(w).Some? && Same(v, w)
    ensures forall n :: n in Normalize(v).value.fields ==> n in Normalize(w).value.fields
    decreases v, 0
  {
    var f, g := v.fields, w.fields;
    ObjNormalContent(v);
    ObjNormalContent(w);
    forall n | n in Normalize(v).value.fields ensures n in Normalize(w).value.fields {
      assert FromField(f, n);
      var i :| 0 <= i < |f| && f[i].key == n.key && n.key != PROTO && Normalize(f[i].value) == Some(n.value);
      assert HasSame(f[i], g);
      var j :| 0 <= j < |g| && g[j].key == f[i].key && Same(f[i].value, g[j].value);
      NormalFormDecidesSame(f[i].value, g[j].value);
      assert FromField(g, n);
    }
  }

  lemma KeysGiveSubset(v: Value, w: Value)
    requires v.Obj? && w.Obj? && IsJs(v) && IsJs(w) && Normalize(v).Some? && Normalize(w).Some? && Same(v, w)
    ensures forall n :: n in Normalize(w).value.fields ==> n in Normalize(v).value.fields
    decreases v, 0
  {
    var f, g := v.fields, w.fields;
    ObjNormalContent(v);
    ObjNormalContent(w);
    forall n | n in Normalize(w).value.fields ensures n in Normalize(v).value.fields {
      assert FromField(g, n);
      var j :| 0 <= j < |g| && g[j].key == n.key && n.key != PROTO && Normalize(g[j].value) == Some(n.value);
      assert HasKey(f, g[j].key);
      var i :| 0 <= i < |f| && f[i].key == g[j].key;
      assert HasSame(f[i], g);
      var k :| 0 <= k < |g| && g[k].key == f[i].key && Same(f[i].value, g[k].value);
      assert k == j;
      NormalFormDecidesSame(f[i].value, g[j].value);
      assert FromField(f, n);
    }
  }

  lemma SubsetGivesHasSame(v: Value, w: Value)
    requires v.Obj? && w.Obj? && IsJs(v) && IsJs(w) && Normalize(v).Some? && Normalize(w).Some?
    requires Normalize(v) == Normalize(w)
    ensures forall i :: 0 <= i < |v.fields| && v.fields[i].key != PROTO ==> HasSame(v.fields[i], w.fields)
    decreases v, 0
  {
    var f, g := v.fields, w.fields;
    ObjNormalContent(v);
    ObjNormalContent(w);
    forall i | 0 <= i < |f| && f[i].key != PROTO ensures HasSame(f[i], g) {
      var n := Field(f[i].key, Normalize(f[i].value).value);
      assert FromField(f, n);
      assert n in Normalize(w).value.fields;
      assert FromField(g, n);
      var j :| 0 <= j < |g| && g[j].key == n.key && Normalize(g[j].value) == Some(n.value);
      NormalFormDecidesSame(f[i].value, g[j].value);
    }
  }
}
