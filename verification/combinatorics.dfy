/**
 * Exact binomial arithmetic behind the probability table.
 *
 * The table divides hypergeometric counts by C(24 - n, o). Every numerator
 * and denominator is a natural number, so they are modelled exactly here and
 * the bound "numerator <= denominator" is proved through Vandermonde's
 * identity.
 */
module Combinatorics {
  import opened Wrappers

  /** C(m, k): the number of k-element subsets of an m-element set; 0 when k lies outside 0..m. */
  function C(m: nat, k: int): nat
    decreases m
  {
    if k < 0 || k > m then 0
    else if k == 0 || k == m then 1
    else C(m - 1, k - 1) + C(m - 1, k)
  }

  /**
   * scipy's binom on integer arguments: undefined (NaN) when the upper
   * argument is negative, C(m, k) otherwise.
   */
  function Binom(m: int, k: int): (r: Option<nat>)
    ensures r.None? <==> m < 0
    ensures r.Some? ==> r.value == C(m, k)
  {
    if m < 0 then None else Some(C(m, k))
  }

  /** A defined count multiplied by a constant; NaN stays NaN. */
  function Scaled(factor: nat, x: Option<nat>): (r: Option<nat>)
    ensures r.None? <==> x.None?
    ensures r.Some? ==> r.value == factor * x.value
  {
    match x
    case None => None
    case Some(v) => Some(factor * v)
  }

  function Pow(x: nat, e: nat): nat
  {
    if e == 0 then 1 else x * Pow(x, e - 1)
  }

  /**
   * Sum over lo <= i < hi of C(a, i) * C(b, o - i): the draws of o cards out
   * of a matching and b non-matching cards that contain exactly i matching
   * cards, for i in the range.
   */
  function HyperSum(a: nat, b: nat, o: int, lo: int, hi: int): nat
    decreases hi - lo
  {
    if lo >= hi then 0 else C(a, lo) * C(b, o - lo) + HyperSum(a, b, o, lo + 1, hi)
  }

  /**
   * Sum over l1 <= c1 < h1 and l2 <= c2 < h2 of C(a1, c1) * C(a2, c2) * C(b, o - c1 - c2),
   * with c1 in the outer position as itertools.product enumerates it.
   */
  function DoubleSum(a1: nat, l1: int, h1: int, a2: nat, l2: int, h2: int, b: nat, o: int): nat
    decreases h1 - l1
  {
    if l1 >= h1 then 0
    else C(a1, l1) * HyperSum(a2, b, o - l1, l2, h2) + DoubleSum(a1, l1 + 1, h1, a2, l2, h2, b, o)
  }

  /** A single hypergeometric sum with scipy's NaN when the non-matching pool is negative. */
  function Hyper(a: nat, b: int, o: int, lo: int, hi: int): (r: Option<nat>)
    ensures r.None? <==> b < 0
  {
    if b < 0 then None else Some(HyperSum(a, b, o, lo, hi))
  }

  /** A double hypergeometric sum with scipy's NaN when the non-matching pool is negative. */
  function Double(a1: nat, l1: int, h1: int, a2: nat, l2: int, h2: int, b: int, o: int): (r: Option<nat>)
    ensures r.None? <==> b < 0
  {
    if b < 0 then None else Some(DoubleSum(a1, l1, h1, a2, l2, h2, b, o))
  }

  // ---------------------------------------------------------------------------
  // Pascal's rule and its consequences

  /** Pascal's rule holds for every integer k, including those outside 0..m. */
  lemma Pascal(m: nat, k: int)
    requires m >= 1
    ensures C(m, k) == C(m - 1, k - 1) + C(m - 1, k)
  {
  }

  /** Every in-range binomial coefficient is at least 1. */
  lemma {:induction false} CPositive(m: nat, k: int)
    requires 0 <= k <= m
    ensures C(m, k) >= 1
  {
    if k != 0 && k != m {
      CPositive(m - 1, k - 1);
    }
  }

  lemma FourChooseOne()
    ensures C(4, 1) == 4
  {
    assert C(1, 1) == 1;
    assert C(2, 1) == C(1, 0) + C(1, 1) == 2;
    assert C(3, 1) == C(2, 0) + C(2, 1) == 3;
    assert C(4, 1) == C(3, 0) + C(3, 1) == 4;
  }

  // ---------------------------------------------------------------------------
  // Vandermonde's identity

  lemma {:induction false} SumOverEmptyPool(a: nat, o: int, lo: int, hi: int)
    ensures HyperSum(a, 0, o, lo, hi) == if lo <= o < hi then C(a, o) else 0
    decreases hi - lo
  {
    if lo < hi {
      SumOverEmptyPool(a, o, lo + 1, hi);
    }
  }

  /** Pascal's rule applied to the non-matching pool, term by term. */
  lemma {:induction false} SumPascal(a: nat, b: nat, o: int, lo: int, hi: int)
    ensures HyperSum(a, b + 1, o, lo, hi) == HyperSum(a, b, o - 1, lo, hi) + HyperSum(a, b, o, lo, hi)
    decreases hi - lo
  {
    if lo < hi {
      SumPascal(a, b, o, lo + 1, hi);
      Pascal(b + 1, o - lo);
      assert (o - 1) - lo == o - lo - 1;
      calc {
        C(a, lo) * C(b + 1, o - lo);
        C(a, lo) * (C(b, o - lo - 1) + C(b, o - lo));
        C(a, lo) * C(b, (o - 1) - lo) + C(a, lo) * C(b, o - lo);
      }
    }
  }

  /** Vandermonde: choosing o cards out of a + b by the number i taken from the first a. */
  lemma {:induction false} Vandermonde(a: nat, b: nat, o: int)
    ensures HyperSum(a, b, o, 0, a + 1) == C(a + b, o)
    decreases b
  {
    if b == 0 {
      SumOverEmptyPool(a, o, 0, a + 1);
    } else {
      SumPascal(a, b - 1, o, 0, a + 1);
      Vandermonde(a, b - 1, o - 1);
      Vandermonde(a, b - 1, o);
      Pascal(a + b, o);
    }
  }

  lemma {:induction false} SumSplit(a: nat, b: nat, o: int, lo: int, mid: int, hi: int)
    requires lo <= mid <= hi
    ensures HyperSum(a, b, o, lo, hi) == HyperSum(a, b, o, lo, mid) + HyperSum(a, b, o, mid, hi)
    decreases mid - lo
  {
    if lo < mid {
      SumSplit(a, b, o, lo + 1, mid, hi);
    }
  }

  /** Any contiguous part of the Vandermonde sum is at most the whole. */
  lemma PartialBound(a: nat, b: nat, o: int, lo: int, hi: int)
    requires 0 <= lo && hi <= a + 1
    ensures HyperSum(a, b, o, lo, hi) <= C(a + b, o)
  {
    Vandermonde(a, b, o);
    if lo < hi {
      SumSplit(a, b, o, 0, lo, a + 1);
      SumSplit(a, b, o, lo, hi, a + 1);
    }
  }

  /** One term of the Vandermonde sum is at most the whole. */
  lemma TermBound(a: nat, b: nat, o: int, i: int)
    requires 0 <= i <= a
    ensures C(a, i) * C(b, o - i) <= C(a + b, o)
  {
    PartialBound(a, b, o, i, i + 1);
  }

  /** C(m - s, o - s) counts the draws containing s fixed cards, a subset of all draws. */
  lemma ShiftBound(m: nat, o: int, s: nat)
    requires s <= m
    ensures C(m - s, o - s) <= C(m, o)
  {
    TermBound(s, m - s, o, s);
  }

  lemma {:induction false} DoubleBoundByHyper(a1: nat, l1: int, h1: int, a2: nat, l2: int, h2: int, b: nat, o: int)
    requires 0 <= l2 && h2 <= a2 + 1
    ensures DoubleSum(a1, l1, h1, a2, l2, h2, b, o) <= HyperSum(a1, a2 + b, o, l1, h1)
    decreases h1 - l1
  {
    if l1 < h1 {
      DoubleBoundByHyper(a1, l1 + 1, h1, a2, l2, h2, b, o);
      PartialBound(a2, b, o - l1, l2, h2);
      MulMonotone(C(a1, l1), HyperSum(a2, b, o - l1, l2, h2), C(a2 + b, o - l1));
    }
  }

  lemma MulMonotone(c: nat, x: nat, y: nat)
    requires x <= y
    ensures c * x <= c * y
  {
  }

  /** The two-group sums of the table are bounded by the number of all draws. */
  lemma DoubleBound(a1: nat, l1: int, h1: int, a2: nat, l2: int, h2: int, b: nat, o: int)
    requires 0 <= l1 && h1 <= a1 + 1
    requires 0 <= l2 && h2 <= a2 + 1
    ensures DoubleSum(a1, l1, h1, a2, l2, h2, b, o) <= C(a1 + a2 + b, o)
  {
    DoubleBoundByHyper(a1, l1, h1, a2, l2, h2, b, o);
    PartialBound(a1, a2 + b, o, l1, h1);
  }

  /** Choosing one card of each of k fixed values (4 colours each) and the rest elsewhere. */
  lemma {:induction false} PowerBound(k: nat, b: nat, o: int)
    ensures Pow(4, k) * C(b, o - k) <= C(b + 4 * k, o)
  {
    if k > 0 {
      var p, x, b' := Pow(4, k - 1), C(b, o - k), b + 4 * (k - 1);
      PowerBound(k - 1, b, o - 1);
      assert (o - 1) - (k - 1) == o - k;
      FourChooseOne();
      MulMonotone(4, p * x, C(b', o - 1));
      TermBound(4, b', o, 1);
      MulAssociates(4, p, x);
    }
  }

  lemma MulAssociates(a: nat, b: nat, c: nat)
    ensures (a * b) * c == a * (b * c)
  {
  }
}
