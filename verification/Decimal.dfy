/** Canonical decimal text: what `String(n)`, `BigInt(text)` and JSON integers agree on. */
module Decimal {
  import opened Foundations

  const ZERO: Unit := 48

  predicate IsDigit(u: Unit) { 48 <= u <= 57 }

  predicate AllDigits(t: Text) { forall i :: 0 <= i < |t| ==> IsDigit(t[i]) }

  /** `^(?:0|[1-9][0-9]*)$` */
  predicate Canonical(t: Text) {
    |t| > 0 && AllDigits(t) && (t[0] == ZERO ==> |t| == 1)
  }

  function Digits(n: nat): Text {
    if n < 10 then [ZERO + n] else Digits(n / 10) + [ZERO + n % 10]
  }

  function ValueOf(t: Text): nat
    requires AllDigits(t)
  {
    if t == [] then 0 else ValueOf(t[..|t| - 1]) * 10 + (t[|t| - 1] - ZERO)
  }

  lemma {:induction false} DigitsCanonical(n: nat)
    ensures Canonical(Digits(n))
    ensures Digits(n)[0] == ZERO ==> n == 0
  {
    if n >= 10 {
      DigitsCanonical(n / 10);
    }
  }

  lemma {:induction false} ValueOfDigits(n: nat)
    ensures AllDigits(Digits(n)) && ValueOf(Digits(n)) == n
  {
    DigitsCanonical(n);
    if n >= 10 {
      ValueOfDigits(n / 10);
      assert Digits(n)[..|Digits(n)| - 1] == Digits(n / 10);
    }
  }

  lemma {:induction false} DigitsOfValue(t: Text)
    requires Canonical(t)
    ensures Digits(ValueOf(t)) == t
    ensures t[0] != ZERO ==> ValueOf(t) > 0
  {
    if |t| == 1 {
      assert t[..0] == [];
      assert t == [t[0]];
    } else {
      var front := t[..|t| - 1];
      DigitsOfValue(front);
      assert t == front + [t[|t| - 1]];
    }
  }

  /** Two canonical decimals with the same value are the same text. */
  lemma ValueInjective(s: Text, t: Text)
    requires Canonical(s) && Canonical(t) && ValueOf(s) == ValueOf(t)
    ensures s == t
  {
    DigitsOfValue(s);
    DigitsOfValue(t);
  }
}
