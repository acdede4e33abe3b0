/**
 Exactly which values have a canonical text, and why that text is the one there is (`canonical.ts`): nothing about
 success depends on key order, and nothing in the text is longer than it has to be.
 */
module CanonicalDomain {
  import opened Foundations
  import opened Ordering
  import opened CanonicalJson
  import opened CanonicalWire
  import opened CanonicalArtifacts
  import Decimal

  // ---- which values print ----

  /** The decimal of a number a property name would have to be to index an array. */
  ghost predicate NamesArrayIndex(key: Text) {
    exists n: nat :: n <= 4_294_967_294 && key == Decimal.Digits(n)
  }

  /** Plain data whose numbers are safe integers and whose keys, at every depth, do not index arrays. */
  ghost predicate Printable(v: Value) {
    match v
    case Num(num) => num.Integer? && -9_007_199_254_740_991 <= num.n <= 9_007_199_254_740_991
    case Arr(items) => forall i :: 0 <= i < |items| ==> Printable(items[i])
    case Obj(fields) => forall i :: 0 <= i < |fields| ==> !NamesArrayIndex(fields[i].key) && Printable(fields[i].value)
    case Foreign => false
    case _ => true
  }

  lemma ArrayIndexIff(key: Text)
    ensures IsArrayIndexName(key) <==> NamesArrayIndex(key)
  {
    if IsArrayIndexName(key) {
      Decimal.DigitsOfValue(key);
    }
    if NamesArrayIndex(key) {
      var n: nat :| n <= 4_294_967_294 && key == Decimal.Digits(n);
      Decimal.DigitsCanonical(n);
      Decimal.ValueOfDigits(n);
    }
  }

  lemma {:induction false} ItemsNormalize(items: seq<Value>)
    requires forall i :: 0 <= i < |items| ==> Normalize(items[i]).Some?
    ensures NormalizeItems(items).Some?
  {
    if items != [] {
      ItemsNormalize(items[1..]);
    }
  }

  lemma ArrayNormalizesIff(items: seq<Value>)
    ensures Normalize(Arr(items)).Some? <==> forall i :: 0 <= i < |items| ==> Normalize(items[i]).Some?
  {
    if NormalizeItems(items).Some? {
      NormalizeItemsContent(items);
    }
    if forall i :: 0 <= i < |items| ==> Normalize(items[i]).Some? {
      ItemsNormalize(items);
    }
  }

  lemma ObjectNormalizesIff(v: Value)
    requires v.Obj?
    ensures Normalize(v).Some? <==>
            forall i :: 0 <= i < |v.fields| ==> !IsArrayIndexName(v.fields[i].key) && Normalize(v.fields[i].value).Some?
  {
    var sorted := SortBy(KeyLe, v.fields);
    if Normalize(v).Some? {
      NormalizeFieldsContent(v, sorted);
      forall i | 0 <= i < |v.fields| ensures !IsArrayIndexName(v.fields[i].key) && Normalize(v.fields[i].value).Some? {
        assert v.fields[i] in sorted;
      }
    }
    if forall i :: 0 <= i < |v.fields| ==> !IsArrayIndexName(v.fields[i].key) && Normalize(v.fields[i].value).Some? {
      forall i | 0 <= i < |sorted| ensures !IsArrayIndexName(sorted[i].key) && Normalize(sorted[i].value).Some? {
        assert sorted[i] in v.fields;
      }
      NormalizeFieldsFails(v, sorted);
    }
  }

  lemma {:induction false} NormalizesIff(v: Value)
    ensures Normalize(v).Some? <==> Printable(v)
  {
    match v
    case Arr(items) =>
      ArrayNormalizesIff(items);
      forall i | 0 <= i < |items| ensures Normalize(items[i]).Some? <==> Printable(items[i]) { NormalizesIff(items[i]); }
    case Obj(fields) =>
      ObjectNormalizesIff(v);
      forall i | 0 <= i < |fields|
        ensures IsArrayIndexName(fields[i].key) <==> NamesArrayIndex(fields[i].key)
        ensures Normalize(fields[i].value).Some? <==> Printable(fields[i].value)
      {
        ArrayIndexIff(fields[i].key);
        NormalizesIff(fields[i].value);
      }
    case _ =>
  }

  /** A value has a canonical text exactly when it is printable, in whatever order its keys stand. */
  lemma CanonicalTextIff(v: Value)
    ensures CanonicalText(v).Some? <==> Printable(v)
  {
    NormalizesIff(v);
  }

  // ---- key order never matters ----

  /** Equal nested maps are the same up to key order, prototype keys included. */
  lemma {:induction false} SameMapIsSame(v: Value, w: Value)
    requires IsJs(v) && IsJs(w) && SameMap(v, w)
    ensures Same(v, w)
    decreases v
  {
    match (v, w)
    case (Arr(a), Arr(b)) =>
      forall i | 0 <= i < |a| ensures Same(a[i], b[i]) { SameMapIsSame(a[i], b[i]); }
    case (Obj(f), Obj(g)) =>
      forall i | 0 <= i < |f| ensures HasSame(f[i], g) && HasKey(g, f[i].key) {
        assert HasSameMap(f[i], g);
        var j :| 0 <= j < |g| && g[j].key == f[i].key && SameMap(f[i].value, g[j].value);
        SameMapIsSame(f[i].value, g[j].value);
      }
      SameSizeSameKeys(f, g);
    case _ =>
  }

  lemma MapsShareKeys(f: seq<Field>, g: seq<Field>)
    requires DistinctKeys(f) && DistinctKeys(g) && |f| == |g| && forall i :: 0 <= i < |f| ==> HasSameMap(f[i], g)
    ensures forall j :: 0 <= j < |g| ==> HasKey(f, g[j].key)
  {
    forall i | 0 <= i < |f| ensures HasKey(g, f[i].key) {
      assert HasSameMap(f[i], g);
    }
    SameSizeSameKeys(f, g);
  }

  lemma {:induction false} SecondPrints(v: Value, w: Value)
    requires IsJs(v) && IsJs(w) && SameMap(v, w) && Printable(w)
    ensures Printable(v)
    decreases v
  {
    match (v, w)
    case (Arr(a), Arr(b)) =>
      forall i | 0 <= i < |a| ensures Printable(a[i]) { SecondPrints(a[i], b[i]); }
    case (Obj(f), Obj(g)) =>
      forall i | 0 <= i < |f| ensures !NamesArrayIndex(f[i].key) && Printable(f[i].value) {
        assert HasSameMap(f[i], g);
        var j :| 0 <= j < |g| && g[j].key == f[i].key && SameMap(f[i].value, g[j].value);
        SecondPrints(f[i].value, g[j].value);
      }
    case _ =>
  }

  /** The entry of the other object under the key of this one. */
  lemma Partner(f: seq<Field>, g: seq<Field>, j: nat) returns (i: nat)
    requires DistinctKeys(f) && DistinctKeys(g) && |f| == |g| && forall i :: 0 <= i < |f| ==> HasSameMap(f[i], g)
    requires j < |g|
    ensures i < |f| && f[i].key == g[j].key && SameMap(f[i].value, g[j].value)
  {
    MapsShareKeys(f, g);
    assert HasKey(f, g[j].key);
    i :| 0 <= i < |f| && f[i].key == g[j].key;
    assert HasSameMap(f[i], g);
    var k :| 0 <= k < |g| && g[k].key == f[i].key && SameMap(f[i].value, g[k].value);
  }

  lemma {:induction false} FirstPrints(v: Value, w: Value)
    requires IsJs(v) && IsJs(w) && SameMap(v, w) && Printable(v)
    ensures Printable(w)
    decreases v
  {
    match (v, w)
    case (Arr(a), Arr(b)) =>
      forall i | 0 <= i < |a| ensures Printable(b[i]) { FirstPrints(a[i], b[i]); }
    case (Obj(f), Obj(g)) =>
      forall j | 0 <= j < |g| ensures !NamesArrayIndex(g[j].key) && Printable(g[j].value) {
        var i := Partner(f, g, j);
        FirstPrints(f[i].value, g[j].value);
      }
    case _ =>
  }

  /** Reordering keys, at any depth, keeps both success and text. */
  lemma KeyOrderIsIrrelevant(v: Value, w: Value)
    requires IsJs(v) && IsJs(w) && SameMap(v, w)
    ensures CanonicalText(v) == CanonicalText(w)
  {
    SameMapIsSame(v, w);
    if Printable(v) {
      FirstPrints(v, w);
    }
    if Printable(w) {
      SecondPrints(v, w);
    }
    CanonicalTextIff(v);
    CanonicalTextIff(w);
    if Printable(v) {
      CanonicalTextIdentifies(v, w);
    }
  }

  /** An object with its two keys out of order prints them in order: `{"b":1,"a":2}` prints `{"a":2,"b":1}`. */
  lemma OutOfOrderPrintsInOrder()
    ensures CanonicalText(Obj([Field([98], Num(Integer(1))), Field([97], Num(Integer(2)))]))
            == Some([123, 34, 97, 34, 58, 50, 44, 34, 98, 34, 58, 49, 125])
  {
    var b, a := Field([98], Num(Integer(1))), Field([97], Num(Integer(2)));
    var v, n := Obj([b, a]), Obj([a, b]);
    OrderedIsNormal(a, b);
    NormalizeFixesNormal(n);
    assert v.fields[0] == b && v.fields[1] == a && n.fields[0] == a && n.fields[1] == b;
    assert SameMap(b.value, b.value) && SameMap(a.value, a.value);
    assert HasSameMap(b, n.fields) && HasSameMap(a, n.fields);
    assert SameMap(v, n);
    KeyOrderIsIrrelevant(v, n);
    TwoFieldsPrint(a, b);
  }

  lemma OrderedIsNormal(a: Field, b: Field)
    requires a == Field([97], Num(Integer(2))) && b == Field([98], Num(Integer(1)))
    ensures Normal(Obj([a, b])) && IsJs(Obj([b, a])) && IsJs(Obj([a, b]))
  {
    assert Less(a.key, b.key);
    assert !Decimal.IsDigit(a.key[0]) && !Decimal.IsDigit(b.key[0]);
    assert !Decimal.AllDigits(a.key) && !Decimal.AllDigits(b.key);
    assert |PROTO| == 9;
    assert Normal(a.value) && Normal(b.value);
  }

  lemma TwoFieldsPrint(a: Field, b: Field)
    requires a == Field([97], Num(Integer(2))) && b == Field([98], Num(Integer(1)))
    ensures Print(Obj([a, b])) == [123, 34, 97, 34, 58, 50, 44, 34, 98, 34, 58, 49, 125]
  {
    assert Escaped([97]) == [97] && Escaped([98]) == [98] by {
      assert [97][1..] == [] && [98][1..] == [];
    }
    assert PrintField(a) == [34, 97, 34, 58, 50];
    assert PrintField(b) == [34, 98, 34, 58, 49];
    assert [a, b][1..] == [b];
    assert PrintFields([b]) == PrintField(b) + [];
    assert PrintFields([a, b]) == PrintField(a) + ([44] + PrintFields([b]));
  }

  // ---- nothing in the text is longer than it has to be ----

  /** How many units the canonical escape of a unit takes. */
  function EscapeSize(u: Unit): nat {
    if u in {8, 9, 10, 12, 13, 34, 92} then 2 else if u < 32 || 0xD800 <= u <= 0xDFFF then 6 else 1
  }

  lemma EscapeSizes(u: Unit)
    ensures |EscapeUnit(u)| == EscapeSize(u)
  {}

  /** Of all ways to write a character in a JSON string, a lone surrogate's aside, the canonical one is the shortest. */
  lemma EscapeIsShortest(u: Unit, e: Text)
    requires !(0xD800 <= u <= 0xDFFF) && ParseStringTail(e + [34]) == Some(([u], []))
    ensures |EscapeUnit(u)| <= |e|
  {
    EscapeSizes(u);
    EscapeNeeds(u, e);
  }

  /** What a written form that reads as this unit can be: an escape of either kind, or the unit itself. */
  predicate Writes(u: Unit, e: Text) {
    || |e| >= 6
    || (|e| >= 2 && SimpleEscape(e[1]) == Some(u))
    || (|e| >= 1 && e[0] == u && u >= 32 && u != 34 && u != 92)
  }

  lemma WrittenIsLongEnough(u: Unit, e: Text)
    requires !(0xD800 <= u <= 0xDFFF) && Writes(u, e)
    ensures EscapeSize(u) <= |e|
  {}

  lemma EscapeNeeds(u: Unit, e: Text)
    requires !(0xD800 <= u <= 0xDFFF) && ParseStringTail(e + [34]) == Some(([u], []))
    ensures EscapeSize(u) <= |e|
  {
    if e != [] && e[0] == 92 {
      EscapeReads(u, e);
    } else {
      RawReads(u, e);
    }
    WrittenIsLongEnough(u, e);
  }

  lemma RawReads(u: Unit, e: Text)
    requires (e == [] || e[0] != 92) && ParseStringTail(e + [34]) == Some(([u], []))
    ensures |e| >= 1 && e[0] == u && u >= 32 && u != 34 && u != 92
  {
    var s := e + [34];
    assert s[0] == if e == [] then 34 else e[0];
  }

  lemma EscapeReads(u: Unit, e: Text)
    requires e != [] && e[0] == 92 && ParseStringTail(e + [34]) == Some(([u], []))
    ensures |e| >= 6 || (|e| >= 2 && SimpleEscape(e[1]) == Some(u))
  {}

  /** Where an escape spells out a code unit, it does so in four lower-case hexadecimal digits. */
  lemma EscapesAreLowerCase(u: Unit)
    ensures |EscapeUnit(u)| in {1, 2, 6}
    ensures HighSurrogate(u) || LowSurrogate(u) ==> |EscapeUnit(u)| == 6
    ensures |EscapeUnit(u)| == 6 ==>
              EscapeUnit(u)[..2] == [92, 117]
              && forall i :: 2 <= i < 6 ==> 48 <= EscapeUnit(u)[i] <= 57 || 97 <= EscapeUnit(u)[i] <= 102
  {}

  ghost function TotalSize(items: seq<Value>): nat {
    if items == [] then 0 else |Print(items[0])| + TotalSize(items[1..])
  }

  ghost function TotalFieldSize(fields: seq<Field>): nat {
    if fields == [] then 0
    else |Escaped(fields[0].key)| + |Print(fields[0].value)| + TotalFieldSize(fields[1..])
  }

  lemma {:induction false} ItemsAreTight(items: seq<Value>)
    requires items != []
    ensures |PrintItems(items)| == TotalSize(items) + |items| - 1
  {
    if |items| > 1 {
      ItemsAreTight(items[1..]);
    } else {
      assert items[1..] == [];
    }
  }

  lemma {:induction false} FieldsAreTight(fields: seq<Field>)
    requires fields != []
    ensures |PrintFields(fields)| == TotalFieldSize(fields) + 4 * |fields| - 1
  {
    if |fields| > 1 {
      FieldsAreTight(fields[1..]);
    } else {
      assert fields[1..] == [];
    }
  }

  /** Containers add two brackets, a separator between neighbours, and two quotes and a colon to each key: no white space. */
  lemma TextIsTight(v: Value)
    ensures v.Arr? ==> |Print(v)| == TotalSize(v.items) + Max(2, |v.items| + 1)
    ensures v.Obj? ==> |Print(v)| == TotalFieldSize(v.fields) + Max(2, 4 * |v.fields| + 1)
    ensures v.Str? ==> |Print(v)| == |Escaped(v.text)| + 2
  {
    match v
    case Arr(items) => if items != [] { ItemsAreTight(items); }
    case Obj(fields) => if fields != [] { FieldsAreTight(fields); }
    case _ =>
  }

  /** A high surrogate is followed by a low one, and a low one preceded by a high one. */
  predicate Paired(s: Text, i: nat)
    requires i < |s|
  {
    && (HighSurrogate(s[i]) ==> i + 1 < |s| && LowSurrogate(s[i + 1]))
    && (LowSurrogate(s[i]) ==> i > 0 && HighSurrogate(s[i - 1]))
  }

  predicate WellFormed(s: Text) { forall i :: 0 <= i < |s| ==> Paired(s, i) }

  predicate NeedsNoEscape(u: Unit) { u >= 32 && u != 34 && u != 92 }

  lemma RestIsWellFormed(s: Text, n: nat)
    requires WellFormed(s) && n <= |s| && (n < |s| ==> !LowSurrogate(s[n]))
    ensures WellFormed(s[n..])
  {
    forall i | 0 <= i < |s[n..]| ensures Paired(s[n..], i) {
      assert Paired(s, n + i);
    }
  }

  /** Text with nothing to escape, surrogate pairs included, prints as it is. */
  lemma {:induction false} PlainTextPrintsAsIs(s: Text)
    requires WellFormed(s) && forall i :: 0 <= i < |s| ==> NeedsNoEscape(s[i])
    ensures Escaped(s) == s
  {
    if s != [] {
      assert Paired(s, 0);
      var n := if HighSurrogate(s[0]) then 2 else 1;
      if n < |s| {
        assert Paired(s, n);
      }
      RestIsWellFormed(s, n);
      PlainTextPrintsAsIs(s[n..]);
      assert s == s[..n] + s[n..];
      assert n == 1 ==> EscapeUnit(s[0]) == s[..1];
    }
  }

  // ---- the grammar of RFC 8259, section by section ----

  /** The three literal names (section 3) and the empty containers. */
  lemma LiteralsPrint()
    ensures Print(Null) == Codes("null") && Print(Bool(true)) == Codes("true") && Print(Bool(false)) == Codes("false")
    ensures Print(Arr([])) == Codes("[]") && Print(Obj([])) == Codes("{}") && Print(Str([])) == Codes("\"\"")
  {}

  /** The two-character escapes of section 7 that `JSON.stringify` uses. */
  lemma EscapesPrint()
    ensures EscapeUnit(34) == Codes("\\\"") && EscapeUnit(92) == Codes("\\\\") && EscapeUnit(8) == Codes("\\b")
    ensures EscapeUnit(12) == Codes("\\f") && EscapeUnit(10) == Codes("\\n") && EscapeUnit(13) == Codes("\\r")
    ensures EscapeUnit(9) == Codes("\\t")
  {}

  lemma HexadecimalsPrint(d: int)
    requires 0 <= d < 16
    ensures HexDigit(d) == Codes("0123456789abcdef")[d]
    ensures EscapeUnit(16 + d) == Codes("\\u001") + [HexDigit(d)]
  {}

  lemma SmallIntegersPrint()
    ensures PrintInteger(0) == Codes("0") && PrintInteger(7) == Codes("7") && PrintInteger(-105) == Codes("-105")
  {
    assert Decimal.Digits(105) == Decimal.Digits(10) + [53];
    assert Decimal.Digits(10) == Decimal.Digits(1) + [48];
  }

  lemma PrototypeKeyIsNamed()
    ensures PROTO == Codes("__proto__")
  {}

  lemma Punctuation()
    ensures Codes("[") == [91] && Codes("]") == [93] && Codes("{") == [123] && Codes("}") == [125]
    ensures Codes(",") == [44] && Codes(":") == [58] && Codes("\"") == [34]
  {}

  /** Arrays (section 5): brackets, and a comma between items. */
  lemma ArraysPrint(v: Value, w: Value)
    ensures Print(Arr([v])) == Codes("[") + Print(v) + Codes("]")
    ensures Print(Arr([v, w])) == Codes("[") + (Print(v) + Codes(",") + Print(w)) + Codes("]")
  {
    Punctuation();
    assert PrintItems([v]) == Print(v) + [] == Print(v);
    assert PrintItems([w]) == Print(w) + [] == Print(w);
    assert [v, w][1..] == [w];
    assert PrintItems([v, w]) == Print(v) + ([44] + Print(w)) == Print(v) + [44] + Print(w);
  }

  /** A member of an object: its quoted key, a colon and its value. */
  lemma MembersPrint(f: Field)
    ensures PrintField(f) == (Codes("\"") + Escaped(f.key) + Codes("\"")) + Codes(":") + Print(f.value)
  {
    Punctuation();
  }

  /** Objects (section 4): braces, and a comma between members. */
  lemma ObjectsPrint(f: Field, g: Field)
    ensures Print(Obj([f])) == Codes("{") + PrintField(f) + Codes("}")
    ensures Print(Obj([f, g])) == Codes("{") + (PrintField(f) + Codes(",") + PrintField(g)) + Codes("}")
  {
    Punctuation();
    assert PrintFields([f]) == PrintField(f) + [] == PrintField(f);
    assert PrintFields([g]) == PrintField(g) + [] == PrintField(g);
    assert [f, g][1..] == [g];
    assert PrintFields([f, g]) == PrintField(f) + ([44] + PrintField(g)) == PrintField(f) + [44] + PrintField(g);
  }
}
