/** The shortfall arithmetic of an underpaid claim and the scan that picks the order. */
module Underpayment {
  import opened Domain

  /** Division keeps sixteen decimals. */
  const SCALE: int := 10_000_000_000_000_000

  /** Decimal division: quotient and remainder, then one more unit when twice the remainder reaches the divisor. */
  function DivRound(n: nat, d: nat): (q: nat)
    requires d > 0
  {
    var q := n / d;
    if 2 * (n % d) < d then q else q + 1
  }

  /** The result is the multiple of the last decimal nearest to the true quotient, halves going up. */
  lemma DivRoundNearest(n: nat, d: nat)
    requires d > 0
    ensures 2 * (d * DivRound(n, d)) - d <= 2 * n < 2 * (d * DivRound(n, d)) + d
  {
    var q, r := n / d, n % d;
    assert n == d * q + r;
  }

  /** (expected - amount) / expected * 100, in units of 1e-16 percent. */
  function GapPercent(expected: Money, amount: Money): (p: int)
    requires amount < expected && 0 < expected
  {
    DivRound((expected - amount) * SCALE, expected) * 100
  }

  /** The stored share counts whole multiples of 1e-14 percent and is the nearest one to the true share, halves up: with
      limits and shares in units of 1e-16 percent, share * expected is (expected - amount) * 1e18 up to half such a step. */
  lemma GapPercentMeans(expected: Money, amount: Money)
    requires amount < expected && 0 < expected
    ensures var gap := GapPercent(expected, amount);
      && gap % 100 == 0
      && -50 * expected < gap * expected - (expected - amount) * 1_000_000_000_000_000_000 <= 50 * expected
  {
    var n := (expected - amount) * SCALE;
    var q := DivRound(n, expected);
    DivRoundNearest(n, expected);
    assert q * 100 * expected == 100 * (expected * q);
    assert (expected - amount) * 1_000_000_000_000_000_000 == 100 * n;
  }

  lemma MulMonotone(a: int, b: int, k: nat)
    requires a <= b
    ensures a * k <= b * k
  {
  }

  lemma Distribute(a: int, b: int, k: int)
    ensures (a + b) * k == a * k + b * k
  {
  }

  lemma Expand(e: int, scale: int, q: int)
    ensures e * (2 * scale + 1 - 2 * q) == 2 * (e * scale) + e - 2 * (e * q)
  {
  }

  lemma FactorSign(e: int, k: int)
    requires e > 0
    ensures e * k >= 0 ==> k >= 0
    ensures e * k > 0 ==> k > 0
  {
  }

  /** If q1 and q2 are the nearest multiples for divisors e1 <= e2, then q1 <= q2. */
  lemma NearestMonotone(e1: int, e2: int, amount: nat, scale: int, q1: int, q2: int)
    requires 0 < e1 <= e2 && scale > 0
    requires 2 * (e1 * q1) <= 2 * (e1 * scale) - 2 * (amount * scale) + e1
    requires 2 * (e2 * scale) - 2 * (amount * scale) + e2 < 2 * (e2 * q2) + 2 * e2
    ensures q1 <= q2
  {
    var k := 2 * scale + 1 - 2 * q1;
    Expand(e1, scale, q1);
    Expand(e2, scale, q1);
    MulMonotone(0, scale, amount);
    FactorSign(e1, k);
    MulMonotone(e1, e2, k);
    assert e2 * (q2 + 1 - q1) == e2 * q2 + e2 - e2 * q1;
    FactorSign(e2, q2 + 1 - q1);
  }

  /** A larger order misses a larger share of itself, even after rounding. */
  lemma GapPercentMonotone(e1: Money, e2: Money, amount: nat)
    requires amount < e1 <= e2
    ensures GapPercent(e1, amount) <= GapPercent(e2, amount)
  {
    DivRoundNearest((e1 - amount) * SCALE, e1);
    DivRoundNearest((e2 - amount) * SCALE, e2);
    NearestMonotone(e1, e2, amount, SCALE, DivRound((e1 - amount) * SCALE, e1), DivRound((e2 - amount) * SCALE, e2));
  }

  /** A share within a limit, or beyond it, in terms of the amounts. */
  lemma LimitMeans(expected: Money, amount: Money, limit: int)
    requires amount < expected && 0 < expected
    ensures GapPercent(expected, amount) <= limit ==>
      (expected - amount) * 1_000_000_000_000_000_000 <= (limit + 50) * expected
    ensures GapPercent(expected, amount) > limit ==>
      (expected - amount) * 1_000_000_000_000_000_000 > (limit - 50) * expected
  {
    var gap := GapPercent(expected, amount);
    GapPercentMeans(expected, amount);
    if gap <= limit {
      MulMonotone(gap, limit, expected);
      Distribute(limit, 50, expected);
    } else {
      MulMonotone(limit + 1, gap, expected);
      Distribute(limit, 1, expected);
      Distribute(limit, -50, expected);
    }
  }

  predicate Ascending(expected: seq<Money>) {
    forall i, j :: 0 <= i < j < |expected| ==> expected[i] <= expected[j]
  }

  /** The scan over the candidates' amounts, smallest first: skip what is too far short, keep a strictly better one. */
  method BestCandidate(expected: seq<Money>, amount: Money, maxGapPercent: int) returns (best: Option<nat>)
    requires Ascending(expected)
    requires forall i :: 0 <= i < |expected| ==> amount < expected[i] && 0 < expected[i]
    // nothing acceptable is passed over
    ensures best.None? <==> forall i :: 0 <= i < |expected| ==> GapPercent(expected[i], amount) > maxGapPercent
    // no candidate has a smaller shortfall, and no smaller one has the same
    ensures best.Some? ==>
      && best.value < |expected| && GapPercent(expected[best.value], amount) <= maxGapPercent
      && (forall i :: 0 <= i < |expected| ==> GapPercent(expected[best.value], amount) <= GapPercent(expected[i], amount))
      && (forall i :: 0 <= i < best.value ==> GapPercent(expected[best.value], amount) < GapPercent(expected[i], amount))
    // unless the amount is negative: the candidate nearest above it, when even that one is close enough
    ensures amount >= 0 ==>
      best == if |expected| > 0 && GapPercent(expected[0], amount) <= maxGapPercent then Some(0) else None
  {
    best := None;
    var bestGapPercent := 0;
    for i := 0 to |expected|
      invariant best.None? ==> forall j :: 0 <= j < i ==> GapPercent(expected[j], amount) > maxGapPercent
      invariant best.Some? ==>
        && best.value < i && bestGapPercent == GapPercent(expected[best.value], amount) <= maxGapPercent
        && (forall j :: 0 <= j < i ==> bestGapPercent <= GapPercent(expected[j], amount))
        && (forall j :: 0 <= j < best.value ==> bestGapPercent < GapPercent(expected[j], amount))
    {
      var gapPercent := GapPercent(expected[i], amount);
      if gapPercent > maxGapPercent {
        continue;
      }
      if best.None? || gapPercent < bestGapPercent {
        best := Some(i);
        bestGapPercent := gapPercent;
      }
    }
    if amount >= 0 && |expected| > 0 {
      forall i | 0 <= i < |expected|
        ensures GapPercent(expected[0], amount) <= GapPercent(expected[i], amount)
      {
        GapPercentMonotone(expected[0], expected[i], amount);
      }
    }
  }
}
