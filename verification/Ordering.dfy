/**
 The orders and the sort every canonical artifact relies on: code-unit string order
 (`compareCanonicalStrings`) and a stable sort by a comparator (`Array.prototype.sort`).
 */
module Ordering {

  /** `left < right` on strings: lexicographic by UTF-16 code unit. */
  predicate Less(a: seq<int>, b: seq<int>) {
    |b| > 0 && (|a| == 0 || a[0] < b[0] || (a[0] == b[0] && Less(a[1..], b[1..])))
  }

  function Compare(a: seq<int>, b: seq<int>): int {
    if Less(a, b) then -1 else if Less(b, a) then 1 else 0
  }

  predicate LessEq(a: seq<int>, b: seq<int>) {
    Compare(a, b) <= 0
  }

  function Codes(s: string): seq<int> {
    seq(|s|, i requires 0 <= i < |s| => s[i] as int)
  }

  lemma CodesInjective(s: string, t: string)
    requires Codes(s) == Codes(t)
    ensures s == t
  {
    forall i | 0 <= i < |s| ensures s[i] == t[i] {
      assert Codes(s)[i] == Codes(t)[i];
    }
  }

  lemma {:induction false} LessIrreflexive(a: seq<int>)
    ensures !Less(a, a)
  {
    if |a| > 0 {
      LessIrreflexive(a[1..]);
    }
  }

  lemma {:induction false} LessTransitive(a: seq<int>, b: seq<int>, c: seq<int>)
    requires Less(a, b) && Less(b, c)
    ensures Less(a, c)
  {
    if |a| > 0 && a[0] == b[0] == c[0] {
      LessTransitive(a[1..], b[1..], c[1..]);
    }
  }

  lemma {:induction false} LessTrichotomy(a: seq<int>, b: seq<int>)
    ensures Less(a, b) || Less(b, a) || a == b
    ensures !(Less(a, b) && Less(b, a))
  {
    if |a| > 0 && |b| > 0 {
      LessTrichotomy(a[1..], b[1..]);
      if a[0] == b[0] && a[1..] == b[1..] {
        assert a == [a[0]] + a[1..];
        assert b == [b[0]] + b[1..];
      }
    } else if a == [] && b == [] {
    }
  }

  /** At this place the strings differ for the first time, and there the first is over or has the smaller unit. */
  predicate DiffersAt(a: seq<int>, b: seq<int>, n: nat) {
    n <= |a| && n < |b| && a[..n] == b[..n] && (n == |a| || a[n] < b[n])
  }

  lemma {:induction false} LessDiffers(a: seq<int>, b: seq<int>) returns (n: nat)
    requires Less(a, b)
    ensures DiffersAt(a, b, n)
  {
    n := 0;
    if |a| > 0 && a[0] == b[0] {
      var k := LessDiffers(a[1..], b[1..]);
      n := k + 1;
      assert a[..n] == [a[0]] + a[1..][..k] && b[..n] == [b[0]] + b[1..][..k];
    }
  }

  lemma {:induction false} DiffersIsLess(a: seq<int>, b: seq<int>, n: nat)
    requires DiffersAt(a, b, n)
    ensures Less(a, b)
  {
    if n > 0 {
      assert a[0] == a[..n][0] == b[..n][0] == b[0];
      assert a[1..][..n - 1] == a[..n][1..] && b[1..][..n - 1] == b[..n][1..];
      DiffersIsLess(a[1..], b[1..], n - 1);
    }
  }

  /** One string is less than another exactly when it is so at the first place where they differ. */
  lemma LessIff(a: seq<int>, b: seq<int>)
    ensures Less(a, b) <==> exists n: nat :: DiffersAt(a, b, n)
  {
    if Less(a, b) {
      var n := LessDiffers(a, b);
    }
    if n: nat :| DiffersAt(a, b, n) {
      DiffersIsLess(a, b, n);
    }
  }

  /** `compareCanonicalStrings` is a strict total order on strings: 0 only for equal strings. */
  lemma CompareIsTotalOrder(a: seq<int>, b: seq<int>, c: seq<int>)
    ensures Compare(a, b) == 0 <==> a == b
    ensures Compare(a, b) == -Compare(b, a)
    ensures Compare(a, b) <= 0 && Compare(b, c) <= 0 ==> Compare(a, c) <= 0
  {
    LessTrichotomy(a, b);
    LessTrichotomy(b, c);
    LessTrichotomy(a, c);
    LessIrreflexive(a);
    if Less(a, b) && Less(b, c) {
      LessTransitive(a, b, c);
    }
  }

  // ---- sorting ----

  ghost predicate Total<T(!new)>(le: (T, T) -> bool) {
    forall x, y :: le(x, y) || le(y, x)
  }

  ghost predicate Transitive<T(!new)>(le: (T, T) -> bool) {
    forall x, y, z :: le(x, y) && le(y, z) ==> le(x, z)
  }

  /** No two different elements of `xs` compare equal. */
  ghost predicate Distinguishes<T(!new)>(le: (T, T) -> bool, xs: seq<T>) {
    forall x, y :: x in xs && y in xs && le(x, y) && le(y, x) ==> x == y
  }

  predicate Sorted<T>(le: (T, T) -> bool, xs: seq<T>) {
    forall i, j :: 0 <= i < j < |xs| ==> le(xs[i], xs[j])
  }

  function Insert<T(!new)>(le: (T, T) -> bool, x: T, xs: seq<T>): (r: seq<T>)
    ensures |r| == |xs| + 1
    ensures forall y :: y in r <==> y == x || y in xs
  {
    if xs == [] || le(x, xs[0]) then [x] + xs else [xs[0]] + Insert(le, x, xs[1..])
  }

  function SortBy<T(!new)>(le: (T, T) -> bool, xs: seq<T>): (r: seq<T>)
    ensures |r| == |xs|
    ensures forall y :: y in r <==> y in xs
  {
    if xs == [] then [] else Insert(le, xs[0], SortBy(le, xs[1..]))
  }

  lemma {:induction false} InsertPermutes<T(!new)>(le: (T, T) -> bool, x: T, xs: seq<T>)
    ensures multiset(Insert(le, x, xs)) == multiset{x} + multiset(xs)
  {
    if xs == [] || le(x, xs[0]) {
    } else {
      InsertPermutes(le, x, xs[1..]);
      assert xs == [xs[0]] + xs[1..];
    }
  }

  lemma {:induction false} InsertSorted<T(!new)>(le: (T, T) -> bool, x: T, xs: seq<T>)
    requires Total(le) && Transitive(le) && Sorted(le, xs)
    ensures Sorted(le, Insert(le, x, xs))
  {
    if xs == [] || le(x, xs[0]) {
    } else {
      InsertSorted(le, x, xs[1..]);
      var tail := Insert(le, x, xs[1..]);
      forall j | 0 <= j < |tail| ensures le(xs[0], tail[j]) {
        assert tail[j] in tail;
      }
    }
  }

  lemma {:induction false} SortByPermutes<T(!new)>(le: (T, T) -> bool, xs: seq<T>)
    ensures multiset(SortBy(le, xs)) == multiset(xs)
  {
    if xs == [] {
    } else {
      SortByPermutes(le, xs[1..]);
      InsertPermutes(le, xs[0], SortBy(le, xs[1..]));
      assert xs == [xs[0]] + xs[1..];
    }
  }

  lemma {:induction false} SortBySorted<T(!new)>(le: (T, T) -> bool, xs: seq<T>)
    requires Total(le) && Transitive(le)
    ensures Sorted(le, SortBy(le, xs))
  {
    if xs == [] {
    } else {
      SortBySorted(le, xs[1..]);
      InsertSorted(le, xs[0], SortBy(le, xs[1..]));
    }
  }

  /** Two sorted arrangements of the same elements coincide when the comparator separates them. */
  lemma TailMultiset<T>(xs: seq<T>)
    requires xs != []
    ensures multiset(xs[1..]) == multiset(xs) - multiset{xs[0]}
  {
    assert xs == [xs[0]] + xs[1..];
  }

  lemma SortedHeadsAgree<T(!new)>(le: (T, T) -> bool, xs: seq<T>, ys: seq<T>)
    requires Total(le) && Sorted(le, xs) && Sorted(le, ys) && Distinguishes(le, xs)
    requires multiset(xs) == multiset(ys) && xs != []
    ensures ys != [] && xs[0] == ys[0]
  {
    assert |multiset(ys)| == |multiset(xs)| == |xs|;
    assert xs[0] in multiset(ys) && ys[0] in multiset(xs);
    assert xs[0] in ys && ys[0] in xs;
    assert le(xs[0], xs[0]) && le(ys[0], ys[0]);
    assert le(xs[0], ys[0]) && le(ys[0], xs[0]);
  }

  lemma TailSorted<T(!new)>(le: (T, T) -> bool, xs: seq<T>)
    requires xs != [] && Sorted(le, xs)
    ensures Sorted(le, xs[1..])
    ensures Distinguishes(le, xs) ==> Distinguishes(le, xs[1..])
  {}

  lemma {:induction false} SortedUnique<T(!new)>(le: (T, T) -> bool, xs: seq<T>, ys: seq<T>)
    requires Total(le) && Transitive(le)
    requires Sorted(le, xs) && Sorted(le, ys)
    requires multiset(xs) == multiset(ys)
    requires Distinguishes(le, xs)
    ensures xs == ys
  {
    if xs == [] {
      assert |multiset(ys)| == 0;
    } else {
      assert xs == [xs[0]] + xs[1..];
      SortedHeadsAgree(le, xs, ys);
      assert ys == [ys[0]] + ys[1..];
      TailMultiset(xs);
      TailMultiset(ys);
      TailSorted(le, xs);
      TailSorted(le, ys);
      SortedUnique(le, xs[1..], ys[1..]);
    }
  }

  /** Sorting forgets the order the elements arrived in. */
  lemma SortForgetsOrder<T(!new)>(le: (T, T) -> bool, xs: seq<T>, ys: seq<T>)
    requires Total(le) && Transitive(le) && Distinguishes(le, xs)
    requires multiset(xs) == multiset(ys)
    ensures SortBy(le, xs) == SortBy(le, ys)
  {
    SortByPermutes(le, xs);
    SortByPermutes(le, ys);
    SortBySorted(le, xs);
    SortBySorted(le, ys);
    SortedUnique(le, SortBy(le, xs), SortBy(le, ys));
  }

  /** A list that is already sorted is its own sort. */
  lemma SortFixesSorted<T(!new)>(le: (T, T) -> bool, xs: seq<T>)
    requires Total(le) && Transitive(le) && Distinguishes(le, xs) && Sorted(le, xs)
    ensures SortBy(le, xs) == xs
  {
    SortByPermutes(le, xs);
    SortBySorted(le, xs);
    SortedUnique(le, xs, SortBy(le, xs));
  }

  predicate NoDuplicates<T(==)>(xs: seq<T>) {
    forall i, j :: 0 <= i < j < |xs| ==> xs[i] != xs[j]
  }

  lemma NoDuplicatesByMultiset<T>(xs: seq<T>)
    ensures NoDuplicates(xs) <==> forall x :: x in xs ==> multiset(xs)[x] == 1
  {
    if NoDuplicates(xs) {
      forall x | x in xs ensures multiset(xs)[x] == 1 {
        var k :| 0 <= k < |xs| && xs[k] == x;
        assert xs == xs[..k] + [x] + xs[k+1..];
        assert x !in xs[..k] && x !in xs[k+1..];
      }
    }
    if forall x :: x in xs ==> multiset(xs)[x] == 1 {
      forall i, j | 0 <= i < j < |xs| ensures xs[i] != xs[j] {
        TwiceCounted(xs, i, j);
      }
    }
  }

  lemma TwiceCounted<T>(xs: seq<T>, i: nat, j: nat)
    requires i < j < |xs|
    ensures xs[i] == xs[j] ==> multiset(xs)[xs[i]] >= 2
  {
    assert xs == xs[..i] + [xs[i]] + xs[i+1..j] + [xs[j]] + xs[j+1..];
  }

  lemma WithoutOne<T>(xs: seq<T>, rest: seq<T>, k: nat)
    requires k < |xs| && |rest| == |xs| - 1
    requires forall i :: 0 <= i < |rest| ==> rest[i] == xs[if i < k then i else i + 1]
    ensures multiset(xs) == multiset(rest) + multiset{xs[k]}
  {
    assert rest == xs[..k] + xs[k + 1..];
    assert xs == xs[..k] + [xs[k]] + xs[k + 1..];
  }

  lemma AnotherOccurrence<T>(xs: seq<T>, k: nat) returns (l: nat)
    requires k < |xs| && multiset(xs)[xs[k]] >= 2
    ensures l < |xs| && l != k && xs[l] == xs[k]
  {
    var rest := xs[..k] + xs[k + 1..];
    assert xs == xs[..k] + [xs[k]] + xs[k + 1..];
    assert multiset(rest) == multiset(xs) - multiset{xs[k]};
    assert xs[k] in rest;
    var r :| 0 <= r < |rest| && rest[r] == xs[k];
    l := if r < k then r else r + 1;
  }

  /** Two positions of one list come from two positions of any other list with the same elements. */
  lemma Occurrences<T>(xs: seq<T>, ys: seq<T>, i: nat, j: nat) returns (k: nat, l: nat)
    requires multiset(xs) == multiset(ys) && i < j < |ys|
    ensures k < |xs| && l < |xs| && k != l && xs[k] == ys[i] && xs[l] == ys[j]
  {
    assert ys[i] in multiset(ys) && ys[j] in multiset(ys);
    k :| 0 <= k < |xs| && xs[k] == ys[i];
    if ys[i] == ys[j] {
      TwiceCounted(ys, i, j);
      l := AnotherOccurrence(xs, k);
    } else {
      l :| 0 <= l < |xs| && xs[l] == ys[j];
    }
  }
}
