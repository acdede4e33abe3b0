/**
 The tick arithmetic of an eligible rebalancing quote (`evaluate.ts`): the one aligned range of the target width
 centred on the current tick. `Math.floor` of a quotient by a positive divisor is Dafny's division.
 */
module TickRange {
  import opened Arithmetic

  /** The lower tick the evaluator expects. */
  function ExpectedLower(tick: int, width: int, spacing: int): int
    requires spacing > 0
  {
    (2 * tick - width + spacing) / (2 * spacing) * spacing
  }

  predicate Aligned(tick: int, spacing: int)
    requires spacing > 0
  {
    tick % spacing == 0
  }

  /** Twice the distance from the current tick up to the middle of the range starting at `lower`. */
  function TwiceOffset(lower: int, tick: int, width: int): int {
    2 * lower + width - 2 * tick
  }

  /** The middle of the range is within half a spacing of the current tick; a tie goes to the range above. */
  predicate Nearest(lower: int, tick: int, width: int, spacing: int) {
    -spacing < TwiceOffset(lower, tick, width) <= spacing
  }

  lemma MultipleIsAligned(k: int, spacing: int)
    requires spacing > 0
    ensures Aligned(k * spacing, spacing)
  {
    assert (k * spacing) % spacing == 0 by {
      EuclideanUnique(k * spacing, spacing, k, 0);
    }
  }

  /** For every tick, negative ones included, the expected lower tick is aligned and its range nearest. */
  lemma ExpectedIsNearest(tick: int, width: int, spacing: int)
    requires spacing > 0
    ensures Aligned(ExpectedLower(tick, width, spacing), spacing)
    ensures Nearest(ExpectedLower(tick, width, spacing), tick, width, spacing)
  {
    var n := 2 * tick - width + spacing;
    var q := n / (2 * spacing);
    assert n == q * (2 * spacing) + n % (2 * spacing);
    assert q * (2 * spacing) == 2 * (q * spacing);
    MultipleIsAligned(q, spacing);
  }

  /** Only one aligned lower tick is nearest. */
  lemma NearestIsUnique(a: int, b: int, tick: int, width: int, spacing: int)
    requires spacing > 0 && Aligned(a, spacing) && Aligned(b, spacing)
    requires Nearest(a, tick, width, spacing) && Nearest(b, tick, width, spacing)
    ensures a == b
  {
    var x, y := a / spacing, b / spacing;
    assert a == x * spacing && b == y * spacing;
    assert a - b == (x - y) * spacing;
    assert -spacing < a - b < spacing;
    MultipleBounds(x - y, spacing);
  }

  /** The expected lower tick is the nearest aligned one, and no other is. */
  lemma ExpectedIffNearest(lower: int, tick: int, width: int, spacing: int)
    requires spacing > 0
    ensures lower == ExpectedLower(tick, width, spacing) <==> Aligned(lower, spacing) && Nearest(lower, tick, width, spacing)
  {
    ExpectedIsNearest(tick, width, spacing);
    if Aligned(lower, spacing) && Nearest(lower, tick, width, spacing) {
      NearestIsUnique(lower, ExpectedLower(tick, width, spacing), tick, width, spacing);
    }
  }

  /** No aligned range of the width has its middle closer to the current tick. */
  lemma NearestIsClosest(lower: int, other: int, tick: int, width: int, spacing: int)
    requires spacing > 0 && Aligned(lower, spacing) && Aligned(other, spacing) && Nearest(lower, tick, width, spacing)
    ensures Distance(lower, tick, width) <= Distance(other, tick, width)
    ensures Distance(lower, tick, width) == Distance(other, tick, width) ==> other <= lower
  {
    var x, y := lower / spacing, other / spacing;
    assert lower == x * spacing && other == y * spacing;
    assert other - lower == (y - x) * spacing;
    MultipleBounds(y - x, spacing);
  }

  function Distance(lower: int, tick: int, width: int): nat {
    if TwiceOffset(lower, tick, width) < 0 then -TwiceOffset(lower, tick, width) else TwiceOffset(lower, tick, width)
  }

  /** A nearest range whose width is a positive multiple of the spacing always contains the current tick. */
  lemma NearestContainsTick(lower: int, tick: int, width: int, spacing: int)
    requires spacing > 0 && width > 0 && Aligned(width, spacing) && Nearest(lower, tick, width, spacing)
    ensures lower <= tick < lower + width
  {
    var k := width / spacing;
    assert width == k * spacing;
    MultipleBounds(k, spacing);
  }
}
