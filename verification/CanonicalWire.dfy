/**
 Reading the wire back (`attestation.ts`): `JSON.parse` over code units, and the proof that it
 inverts the canonical printer. Tokens with a fraction or an exponent are converted by an
 arbitrary `convert`, so nothing here depends on binary floating point.
 */
module CanonicalWire {
  import opened Foundations
  import opened CanonicalJson
  import Decimal
  import Ordering

  type Convert = Text -> Numeral

  predicate IsSpace(u: Unit) { u == 32 || u == 9 || u == 10 || u == 13 }

  function SkipSpace(s: Text): (r: Text)
    ensures |r| <= |s|
    ensures r != [] ==> !IsSpace(r[0])
  {
    if s != [] && IsSpace(s[0]) then SkipSpace(s[1..]) else s
  }

  // ---- strings ----

  function HexValue(u: Unit): (r: Option<int>)
    ensures r.Some? ==> 0 <= r.value < 16
  {
    if 48 <= u <= 57 then Some(u - 48)
    else if 97 <= u <= 102 then Some(u - 87)
    else if 65 <= u <= 70 then Some(u - 55)
    else None
  }

  function Hex4Value(h: Text): (r: Option<Unit>)
    requires |h| == 4
  {
    match (HexValue(h[0]), HexValue(h[1]), HexValue(h[2]), HexValue(h[3]))
    case (Some(a), Some(b), Some(c), Some(d)) =>
      Some((a * 16 + b) * 256 + (c * 16 + d))
    case _ => None
  }

  /** One escape after the backslash: the unit it denotes and how many units it took. */
  function SimpleEscape(c: Unit): Option<Unit> {
    if c == 34 || c == 92 || c == 47 then Some(c)
    else if c == 98 then Some(8)
    else if c == 102 then Some(12)
    else if c == 110 then Some(10)
    else if c == 114 then Some(13)
    else if c == 116 then Some(9)
    else None
  }

  /** The rest of a string literal after its opening quote. */
  function ParseStringTail(s: Text): (r: Option<(Text, Text)>)
    ensures r.Some? ==> |r.value.1| < |s|
  {
    if s == [] then None
    else if s[0] == 34 then Some(([], s[1..]))
    else if s[0] < 32 then None
    else if s[0] != 92 then Prepend(s[0], ParseStringTail(s[1..]))
    else if |s| < 2 then None
    else if s[1] == 117 then
      if |s| < 6 then None
      else
        match Hex4Value(s[2..6])
        case None => None
        case Some(u) => Prepend(u, ParseStringTail(s[6..]))
    else
      match SimpleEscape(s[1])
      case None => None
      case Some(u) => Prepend(u, ParseStringTail(s[2..]))
  }

  function Prepend(u: Unit, r: Option<(Text, Text)>): Option<(Text, Text)> {
    match r
    case None => None
    case Some((t, rest)) => Some(([u] + t, rest))
  }

  // ---- numbers ----

  function DigitRun(s: Text): (n: nat)
    ensures n <= |s| && Decimal.AllDigits(s[..n])
    ensures n < |s| ==> !Decimal.IsDigit(s[n])
  {
    if s == [] || !Decimal.IsDigit(s[0]) then 0
    else
      var n := DigitRun(s[1..]);
      assert s[..n + 1] == [s[0]] + s[1..][..n];
      n + 1
  }

  function Fraction(s: Text): (r: Option<Text>)
    ensures r.Some? ==> |r.value| <= |s|
  {
    if s == [] || s[0] != 46 then Some(s)
    else
      var n := DigitRun(s[1..]);
      if n == 0 then None else Some(s[1 + n..])
  }

  function Exponent(s: Text): (r: Option<Text>)
    ensures r.Some? ==> |r.value| <= |s|
  {
    if s == [] || (s[0] != 101 && s[0] != 69) then Some(s)
    else
      var t := if |s| > 1 && (s[1] == 43 || s[1] == 45) then s[2..] else s[1..];
      var n := DigitRun(t);
      if n == 0 then None else Some(t[n..])
  }

  function ParseNumber(convert: Convert, s: Text): (r: Option<(Value, Text)>)
    ensures r.Some? ==> |r.value.1| < |s|
  {
    var negative := s != [] && s[0] == 45;
    var t := if negative then s[1..] else s;
    var run := DigitRun(t);
    if run == 0 then None
    else
      var n := if t[0] == Decimal.ZERO then 1 else run;
      assert Decimal.AllDigits(t[..n]);
      match Fraction(t[n..])
      case None => None
      case Some(u) =>
        match Exponent(u)
        case None => None
        case Some(rest) =>
          var value: int := Decimal.ValueOf(t[..n]);
          if |rest| == |t[n..]| then Some((Num(Integer(if negative then -value else value)), rest))
          else Some((Num(convert(s[..|s| - |rest|])), rest))
  }

  // ---- values ----

  function Literal(word: Text, v: Value, s: Text): (r: Option<(Value, Text)>)
    requires word != []
    ensures r.Some? ==> |r.value.1| < |s|
  {
    if word <= s then Some((v, s[|word|..])) else None
  }

  function ParseValue(convert: Convert, input: Text): (r: Option<(Value, Text)>)
    ensures r.Some? ==> |r.value.1| < |input|
    decreases |input|, 0
  {
    var s := SkipSpace(input);
    if s == [] then None
    else if s[0] == 45 || Decimal.IsDigit(s[0]) then ParseNumber(convert, s)
    else if s[0] == 34 then
      (match ParseStringTail(s[1..])
       case None => None
       case Some((t, rest)) => Some((Str(t), rest)))
    else if s[0] == 91 then
      var t := SkipSpace(s[1..]);
      if t != [] && t[0] == 93 then Some((Arr([]), t[1..]))
      else
        (match ParseItems(convert, t)
         case None => None
         case Some((items, rest)) => Some((Arr(items), rest)))
    else if s[0] == 123 then
      var t := SkipSpace(s[1..]);
      if t != [] && t[0] == 125 then Some((Obj([]), t[1..]))
      else
        (match ParseFields(convert, t)
         case None => None
         case Some((fields, rest)) => Some((Obj(LastWins(fields)), rest)))
    else if s[0] == 110 then Literal([110, 117, 108, 108], Null, s)
    else if s[0] == 116 then Literal([116, 114, 117, 101], Bool(true), s)
    else if s[0] == 102 then Literal([102, 97, 108, 115, 101], Bool(false), s)
    else None
  }

  /** One or more items and the closing bracket. */
  function ParseItems(convert: Convert, s: Text): (r: Option<(seq<Value>, Text)>)
    ensures r.Some? ==> |r.value.1| < |s|
    decreases |s|, 1
  {
    match ParseValue(convert, s)
    case None => None
    case Some((v, after)) =>
      var t := SkipSpace(after);
      if t == [] then None
      else if t[0] == 93 then Some(([v], t[1..]))
      else if t[0] != 44 then None
      else
        match ParseItems(convert, t[1..])
        case None => None
        case Some((vs, rest)) => Some(([v] + vs, rest))
  }

  function ParseField(convert: Convert, input: Text): (r: Option<(Field, Text)>)
    ensures r.Some? ==> |r.value.1| < |input|
    decreases |input|, 1
  {
    var s := SkipSpace(input);
    if s == [] || s[0] != 34 then None
    else
      match ParseStringTail(s[1..])
      case None => None
      case Some((key, after)) =>
        var t := SkipSpace(after);
        if t == [] || t[0] != 58 then None
        else
          match ParseValue(convert, t[1..])
          case None => None
          case Some((v, rest)) => Some((Field(key, v), rest))
  }

  /** One or more members and the closing brace. */
  function ParseFields(convert: Convert, s: Text): (r: Option<(seq<Field>, Text)>)
    ensures r.Some? ==> |r.value.1| < |s|
    decreases |s|, 2
  {
    match ParseField(convert, s)
    case None => None
    case Some((f, after)) =>
      var t := SkipSpace(after);
      if t == [] then None
      else if t[0] == 125 then Some(([f], t[1..]))
      else if t[0] != 44 then None
      else
        match ParseFields(convert, t[1..])
        case None => None
        case Some((fs, rest)) => Some(([f] + fs, rest))
  }

  /** A repeated member replaces the value it had, in place. */
  function Put(fs: seq<Field>, f: Field): (r: seq<Field>)
    ensures DistinctKeys(fs) ==> DistinctKeys(r)
    ensures forall x :: x in r ==> x == f || x in fs
    ensures forall i :: 0 <= i < |r| ==> r[i].key == f.key || exists j :: 0 <= j < |fs| && fs[j].key == r[i].key
  {
    if fs == [] then [f]
    else if fs[0].key == f.key then [f] + fs[1..]
    else
      var tail := Put(fs[1..], f);
      [fs[0]] + tail
  }

  function LastWins(fs: seq<Field>): (r: seq<Field>)
    ensures DistinctKeys(r)
    ensures forall x :: x in r ==> x in fs
  {
    if fs == [] then [] else Put(LastWins(fs[..|fs| - 1]), fs[|fs| - 1])
  }

  /** `JSON.parse`; None stands for the SyntaxError. */
  function ParseJson(convert: Convert, wire: Text): Option<Value> {
    match ParseValue(convert, wire)
    case None => None
    case Some((v, rest)) => if SkipSpace(rest) == [] then Some(v) else None
  }

  // ---- the parser inverts the printer ----

  lemma HexDigitValue(d: int)
    requires 0 <= d < 16
    ensures HexValue(HexDigit(d)) == Some(d)
  {}

  lemma HexRoundTrip(u: Unit)
    ensures Hex4Value(Hex4(u)) == Some(u)
  {
    HexDigitValue(u / 256 / 16);
    HexDigitValue(u / 256 % 16);
    HexDigitValue(u % 256 / 16);
    HexDigitValue(u % 256 % 16);
  }

  lemma RawUnitParses(u: Unit, rest: Text)
    requires u >= 32 && u != 34 && u != 92
    ensures ParseStringTail([u] + rest) == Prepend(u, ParseStringTail(rest))
  {
    assert ([u] + rest)[1..] == rest;
  }

  lemma EscapeUnitParses(u: Unit, rest: Text)
    ensures ParseStringTail(EscapeUnit(u) + rest) == Prepend(u, ParseStringTail(rest))
  {
    var e := EscapeUnit(u);
    var s := e + rest;
    assert s[|e|..] == rest;
    if |e| == 6 {
      HexRoundTrip(u);
      assert s[2..6] == Hex4(u);
    }
  }

  lemma Regroup<T>(a: seq<T>, b: seq<T>, c: seq<T>, d: seq<T>)
    ensures a + b + c + d == a + (b + c + d)
    ensures a + b + (c + d) == a + (b + c + d)
    ensures a + (b + c) + d == a + (b + (c + d))
    ensures a + b + c + d == a + (b + (c + d))
  {}

  lemma {:induction false} StringRoundTrip(t: Text, rest: Text)
    ensures ParseStringTail(Escaped(t) + [34] + rest) == Some((t, rest))
  {
    if t == [] {
      assert [] + [34] + rest == [34] + rest;
    } else if |t| >= 2 && HighSurrogate(t[0]) && LowSurrogate(t[1]) {
      StringRoundTrip(t[2..], rest);
      var tail := Escaped(t[2..]) + [34] + rest;
      Regroup(t[..2], Escaped(t[2..]), [34], rest);
      PairParses(t, tail);
    } else {
      StringRoundTrip(t[1..], rest);
      var tail := Escaped(t[1..]) + [34] + rest;
      Regroup(EscapeUnit(t[0]), Escaped(t[1..]), [34], rest);
      EscapeUnitParses(t[0], tail);
      assert t == [t[0]] + t[1..];
    }
  }

  lemma PairParses(t: Text, tail: Text)
    requires |t| >= 2 && HighSurrogate(t[0]) && LowSurrogate(t[1])
    ensures ParseStringTail(t[..2] + tail) == Prepend(t[0], Prepend(t[1], ParseStringTail(tail)))
    ensures t == [t[0]] + ([t[1]] + t[2..])
  {
    RawUnitParses(t[0], [t[1]] + tail);
    RawUnitParses(t[1], tail);
    assert t[..2] + tail == [t[0]] + ([t[1]] + tail);
  }

  /** Text that cannot continue a number token. */
  predicate Delimited(rest: Text) {
    rest == [] || !(Decimal.IsDigit(rest[0]) || rest[0] == 46 || rest[0] == 101 || rest[0] == 69)
  }

  lemma {:induction false} DigitRunStops(d: Text, rest: Text)
    requires Decimal.AllDigits(d) && (rest == [] || !Decimal.IsDigit(rest[0]))
    ensures DigitRun(d + rest) == |d|
  {
    if d == [] {
      assert d + rest == rest;
    } else {
      DigitRunStops(d[1..], rest);
      assert (d + rest)[1..] == d[1..] + rest;
    }
  }

  /** The digits of a canonical magnitude are read whole, up to text that cannot continue them. */
  lemma MagnitudeRead(d: Text, rest: Text)
    requires Decimal.Canonical(d) && Delimited(rest)
    ensures
      var t := d + rest;
      && DigitRun(t) == |d| && t[..|d|] == d && t[|d|..] == rest && (t[0] == Decimal.ZERO ==> |d| == 1)
      && t[0] != 45 && Fraction(rest) == Some(rest) && Exponent(rest) == Some(rest)
  {
    DigitRunStops(d, rest);
  }

  lemma NaturalParses(convert: Convert, d: Text, rest: Text)
    requires Decimal.Canonical(d) && Delimited(rest)
    ensures ParseNumber(convert, d + rest) == Some((Num(Integer(Decimal.ValueOf(d))), rest))
  {
    MagnitudeRead(d, rest);
  }

  lemma NegativeParses(convert: Convert, n: int, d: Text, rest: Text)
    requires Decimal.Canonical(d) && Delimited(rest) && Decimal.ValueOf(d) + n == 0
    ensures ParseNumber(convert, [45] + (d + rest)) == Some((Num(Integer(n)), rest))
  {
    MagnitudeRead(d, rest);
    assert ([45] + (d + rest))[1..] == d + rest;
  }

  lemma PrintedMagnitude(n: int) returns (d: Text)
    ensures Decimal.Canonical(d) && Decimal.ValueOf(d) == (if n < 0 then -n else n)
    ensures PrintInteger(n) == if n < 0 then [45] + d else d
  {
    var magnitude: nat := if n < 0 then -n else n;
    d := Decimal.Digits(magnitude);
    Decimal.DigitsCanonical(magnitude);
    Decimal.ValueOfDigits(magnitude);
  }

  lemma IntegerRoundTrip(convert: Convert, n: int, rest: Text)
    requires Delimited(rest)
    ensures ParseNumber(convert, PrintInteger(n) + rest) == Some((Num(Integer(n)), rest))
  {
    var d := PrintedMagnitude(n);
    if n < 0 {
      NegativeParses(convert, n, d, rest);
      assert [45] + d + rest == [45] + (d + rest);
    } else {
      NaturalParses(convert, d, rest);
    }
  }

  lemma PrintIntegerStart(n: int)
    ensures PrintInteger(n) != []
    ensures PrintInteger(n)[0] == 45 || Decimal.IsDigit(PrintInteger(n)[0])
  {
    Decimal.DigitsCanonical(if n < 0 then -n else n);
  }

  lemma PrintStart(v: Value)
    requires Normal(v)
    ensures Print(v) != [] && !IsSpace(Print(v)[0]) && Print(v)[0] != 93 && Print(v)[0] != 125 && Print(v)[0] != 44
  {
    if v.Num? {
      PrintIntegerStart(v.num.n);
    }
  }

  lemma NoSpaceToSkip(s: Text)
    requires s == [] || !IsSpace(s[0])
    ensures SkipSpace(s) == s
  {}

  lemma {:induction false} PrintItemsStart(items: seq<Value>)
    requires items != [] && Normal(items[0])
    ensures PrintItems(items) != [] && !IsSpace(PrintItems(items)[0]) && PrintItems(items)[0] != 93
  {
    PrintStart(items[0]);
  }

  lemma LiteralParses(convert: Convert, word: Text, rest: Text)
    requires word == [110, 117, 108, 108] || word == [116, 114, 117, 101] || word == [102, 97, 108, 115, 101]
    ensures ParseValue(convert, word + rest) ==
            Some((if word[0] == 110 then Null else Bool(word[0] == 116), rest))
  {
    var s := word + rest;
    NoSpaceToSkip(s);
    assert word <= s && s[|word|..] == rest;
  }

  lemma NumbersStartWithDigitOrMinus(convert: Convert, s: Text)
    requires s != [] && (s[0] == 45 || Decimal.IsDigit(s[0]))
    ensures ParseValue(convert, s) == ParseNumber(convert, s)
  {
    NoSpaceToSkip(s);
  }

  lemma NumberParses(convert: Convert, n: int, rest: Text)
    requires Delimited(rest)
    ensures ParseValue(convert, PrintInteger(n) + rest) == Some((Num(Integer(n)), rest))
  {
    PrintIntegerStart(n);
    NumbersStartWithDigitOrMinus(convert, PrintInteger(n) + rest);
    IntegerRoundTrip(convert, n, rest);
  }

  lemma StringParses(convert: Convert, t: Text, rest: Text)
    ensures ParseValue(convert, Quoted(t) + rest) == Some((Str(t), rest))
  {
    var s := Quoted(t) + rest;
    NoSpaceToSkip(s);
    StringRoundTrip(t, rest);
    assert s[1..] == Escaped(t) + [34] + rest;
  }

  lemma ArrayParses(convert: Convert, inner: Text, items: seq<Value>, rest: Text)
    requires inner != [] && !IsSpace(inner[0]) && inner[0] != 93
    requires ParseItems(convert, inner) == Some((items, rest))
    ensures ParseValue(convert, [91] + inner) == Some((Arr(items), rest))
  {
    NoSpaceToSkip([91] + inner);
    assert ([91] + inner)[1..] == inner;
    NoSpaceToSkip(inner);
  }

  lemma ObjectParses(convert: Convert, inner: Text, fields: seq<Field>, rest: Text)
    requires inner != [] && inner[0] == 34 && DistinctKeys(fields)
    requires ParseFields(convert, inner) == Some((fields, rest))
    ensures ParseValue(convert, [123] + inner) == Some((Obj(fields), rest))
  {
    NoSpaceToSkip([123] + inner);
    assert ([123] + inner)[1..] == inner;
    NoSpaceToSkip(inner);
    LastWinsKeepsDistinct(fields);
  }

  lemma EmptyParses(convert: Convert, rest: Text)
    ensures ParseValue(convert, [91, 93] + rest) == Some((Arr([]), rest))
    ensures ParseValue(convert, [123, 125] + rest) == Some((Obj([]), rest))
  {
    NoSpaceToSkip([91, 93] + rest);
    NoSpaceToSkip([123, 125] + rest);
    assert ([91, 93] + rest)[1..] == [93] + rest;
    assert ([123, 125] + rest)[1..] == [125] + rest;
    NoSpaceToSkip([93] + rest);
    NoSpaceToSkip([125] + rest);
    assert ([93] + rest)[1..] == rest && ([125] + rest)[1..] == rest;
  }

  /** Parsing the text of a normal value gives that value back and stops right after it. */
  lemma {:induction false} ValueRoundTrip(convert: Convert, v: Value, rest: Text)
    requires Normal(v) && Delimited(rest)
    ensures ParseValue(convert, Print(v) + rest) == Some((v, rest))
    decreases v, 1, 0
  {
    match v
    case Null => LiteralParses(convert, [110, 117, 108, 108], rest);
    case Bool(b) => LiteralParses(convert, if b then [116, 114, 117, 101] else [102, 97, 108, 115, 101], rest);
    case Num(num) => NumberParses(convert, num.n, rest);
    case Str(t) => StringParses(convert, t, rest);
    case Arr(items) =>
      if items == [] {
        EmptyParses(convert, rest);
        assert Print(v) == [91, 93];
      } else {
        ItemsRoundTrip(convert, v, items, rest);
        PrintItemsStart(items);
        ArrayParses(convert, PrintItems(items) + ([93] + rest), items, rest);
        Regroup([91], PrintItems(items), [93], rest);
      }
    case Obj(fields) =>
      if fields == [] {
        EmptyParses(convert, rest);
        assert Print(v) == [123, 125];
      } else {
        FieldsRoundTrip(convert, v, fields, rest);
        NormalIsJs(v);
        ObjectParses(convert, PrintFields(fields) + ([125] + rest), fields, rest);
        Regroup([123], PrintFields(fields), [125], rest);
      }
  }

  lemma ItemsStep(convert: Convert, s: Text, v: Value, tail: Text, vs: seq<Value>, rest: Text)
    requires ParseValue(convert, s) == Some((v, [44] + tail)) && ParseItems(convert, tail) == Some((vs, rest))
    ensures ParseItems(convert, s) == Some(([v] + vs, rest))
  {
    NoSpaceToSkip([44] + tail);
    assert ([44] + tail)[1..] == tail;
  }

  lemma ItemsEnd(convert: Convert, s: Text, v: Value, rest: Text)
    requires ParseValue(convert, s) == Some((v, [93] + rest))
    ensures ParseItems(convert, s) == Some(([v], rest))
  {
    NoSpaceToSkip([93] + rest);
    assert ([93] + rest)[1..] == rest;
  }

  lemma {:induction false} ItemsRoundTrip(convert: Convert, owner: Value, items: seq<Value>, rest: Text)
    requires owner.Arr? && items != [] && forall x :: x in items ==> x in owner.items && Normal(x)
    ensures ParseItems(convert, PrintItems(items) + ([93] + rest)) == Some((items, rest))
    decreases owner, 0, |items|
  {
    var v := items[0];
    var s := PrintItems(items) + ([93] + rest);
    assert v in owner.items;
    if |items| == 1 {
      ValueRoundTrip(convert, v, [93] + rest);
      assert PrintItems(items) == Print(v);
      ItemsEnd(convert, s, v, rest);
      assert items == [v];
    } else {
      var tail := PrintItems(items[1..]) + ([93] + rest);
      ValueRoundTrip(convert, v, [44] + tail);
      assert s == Print(v) + ([44] + tail) by {
        Regroup(Print(v), [44], PrintItems(items[1..]), [93] + rest);
      }
      ItemsRoundTrip(convert, owner, items[1..], rest);
      ItemsStep(convert, s, v, tail, items[1..], rest);
      assert items == [v] + items[1..];
    }
  }

  lemma QuotedColon(key: Text, value: Text, rest: Text)
    ensures [34] + key + [34] + [58] + value + rest == [34] + (key + [34] + ([58] + (value + rest)))
  {}

  lemma FieldParses(convert: Convert, key: Text, inner: Text, v: Value, rest: Text)
    requires ParseValue(convert, inner) == Some((v, rest))
    ensures ParseField(convert, [34] + (Escaped(key) + [34] + ([58] + inner))) == Some((Field(key, v), rest))
  {
    var after := Escaped(key) + [34] + ([58] + inner);
    NoSpaceToSkip([34] + after);
    assert ([34] + after)[1..] == after;
    StringRoundTrip(key, [58] + inner);
    NoSpaceToSkip([58] + inner);
    assert ([58] + inner)[1..] == inner;
  }

  lemma {:induction false} FieldRoundTrip(convert: Convert, owner: Value, f: Field, rest: Text)
    requires owner.Obj? && f in owner.fields && Normal(f.value) && Delimited(rest)
    ensures ParseField(convert, PrintField(f) + rest) == Some((f, rest))
    decreases owner, 0, 0
  {
    var inner := Print(f.value) + rest;
    ValueRoundTrip(convert, f.value, rest);
    FieldParses(convert, f.key, inner, f.value, rest);
    QuotedColon(Escaped(f.key), Print(f.value), rest);
  }

  lemma FieldsStep(convert: Convert, s: Text, f: Field, tail: Text, fs: seq<Field>, rest: Text)
    requires ParseField(convert, s) == Some((f, [44] + tail)) && ParseFields(convert, tail) == Some((fs, rest))
    ensures ParseFields(convert, s) == Some(([f] + fs, rest))
  {
    NoSpaceToSkip([44] + tail);
    assert ([44] + tail)[1..] == tail;
  }

  lemma FieldsEnd(convert: Convert, s: Text, f: Field, rest: Text)
    requires ParseField(convert, s) == Some((f, [125] + rest))
    ensures ParseFields(convert, s) == Some(([f], rest))
  {
    NoSpaceToSkip([125] + rest);
    assert ([125] + rest)[1..] == rest;
  }

  lemma {:induction false} FieldsRoundTrip(convert: Convert, owner: Value, fields: seq<Field>, rest: Text)
    requires owner.Obj? && fields != [] && forall x :: x in fields ==> x in owner.fields && Normal(x.value)
    ensures ParseFields(convert, PrintFields(fields) + ([125] + rest)) == Some((fields, rest))
    ensures PrintFields(fields) != [] && PrintFields(fields)[0] == 34
    decreases owner, 0, |fields|
  {
    var f := fields[0];
    var s := PrintFields(fields) + ([125] + rest);
    if |fields| == 1 {
      FieldRoundTrip(convert, owner, f, [125] + rest);
      assert PrintFields(fields) == PrintField(f);
      FieldsEnd(convert, s, f, rest);
      assert fields == [f];
    } else {
      var tail := PrintFields(fields[1..]) + ([125] + rest);
      FieldRoundTrip(convert, owner, f, [44] + tail);
      assert s == PrintField(f) + ([44] + tail) by {
        Regroup(PrintField(f), [44], PrintFields(fields[1..]), [125] + rest);
      }
      FieldsRoundTrip(convert, owner, fields[1..], rest);
      FieldsStep(convert, s, f, tail, fields[1..], rest);
      assert fields == [f] + fields[1..];
    }
  }

  lemma {:induction false} PutAppends(fs: seq<Field>, f: Field)
    requires forall i :: 0 <= i < |fs| ==> fs[i].key != f.key
    ensures Put(fs, f) == fs + [f]
  {
    if fs == [] {
    } else {
      PutAppends(fs[1..], f);
      assert fs + [f] == [fs[0]] + (fs[1..] + [f]);
    }
  }

  lemma FrontIsDistinct(fs: seq<Field>)
    requires fs != [] && DistinctKeys(fs)
    ensures DistinctKeys(fs[..|fs| - 1]) && fs == fs[..|fs| - 1] + [fs[|fs| - 1]]
    ensures forall i :: 0 <= i < |fs| - 1 ==> fs[i].key != fs[|fs| - 1].key
  {}

  lemma {:induction false} LastWinsKeepsDistinct(fs: seq<Field>)
    requires DistinctKeys(fs)
    ensures LastWins(fs) == fs
  {
    if fs == [] {
    } else {
      FrontIsDistinct(fs);
      LastWinsKeepsDistinct(fs[..|fs| - 1]);
      PutAppends(fs[..|fs| - 1], fs[|fs| - 1]);
    }
  }

  /** Round trip: the canonical text of a normal value parses to that value, for any number conversion. */
  lemma PrintRoundTrips(convert: Convert, n: Value)
    requires Normal(n)
    ensures ParseJson(convert, Print(n)) == Some(n)
  {
    ValueRoundTrip(convert, n, []);
    assert Print(n) + [] == Print(n);
  }

  // ---- what a parse can produce ----

  lemma {:induction false} ParseIsJs(convert: Convert, s: Text)
    requires ParseValue(convert, s).Some?
    ensures IsJs(ParseValue(convert, s).value.0)
    decreases |s|, 0
  {
    var u := SkipSpace(s);
    if u[0] == 91 {
      var t := SkipSpace(u[1..]);
      if t == [] || t[0] != 93 {
        ParseItemsAreJs(convert, t);
      }
    } else if u[0] == 123 {
      var t := SkipSpace(u[1..]);
      if t == [] || t[0] != 125 {
        ParseFieldsAreJs(convert, t);
        var fs := ParseFields(convert, t).value.0;
        forall i | 0 <= i < |LastWins(fs)| ensures IsJs(LastWins(fs)[i].value) {
          assert LastWins(fs)[i] in fs;
        }
      }
    }
  }

  lemma {:induction false} ParseItemsAreJs(convert: Convert, s: Text)
    requires ParseItems(convert, s).Some?
    ensures forall x :: x in ParseItems(convert, s).value.0 ==> IsJs(x)
    decreases |s|, 1
  {
    ParseIsJs(convert, s);
    var t := SkipSpace(ParseValue(convert, s).value.1);
    if t[0] == 44 {
      ParseItemsAreJs(convert, t[1..]);
    }
  }

  lemma {:induction false} ParseFieldsAreJs(convert: Convert, s: Text)
    requires ParseFields(convert, s).Some?
    ensures forall f :: f in ParseFields(convert, s).value.0 ==> IsJs(f.value)
    decreases |s|, 2
  {
    var u := SkipSpace(s);
    var t := SkipSpace(ParseStringTail(u[1..]).value.1);
    ParseIsJs(convert, t[1..]);
    var after := SkipSpace(ParseField(convert, s).value.1);
    if after[0] == 44 {
      ParseFieldsAreJs(convert, after[1..]);
    }
  }
}
