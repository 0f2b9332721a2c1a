/** The conversion of a 64-bit integer to a double: round to nearest, ties to even, with 53
significant bits. It is monotone, exact up to 2^53 in magnitude, and merges neighbours above. */
module Rounding {

  const TWO53: int := 0x20_0000_0000_0000

  /** The multiple of `u` nearest to `n`, an even multiple on a tie. */
  function NearestMultiple(n: nat, u: nat): (r: nat)
    requires u > 0
    ensures r % u == 0 || u == 1
  {
    var q, rest := n / u, n % u;
    var up := 2 * rest > u || (2 * rest == u && q % 2 == 1);
    var r := if up then (q + 1) * u else q * u;
    MultipleOf(if up then q + 1 else q, u);
    r
  }

  lemma MultipleOf(q: nat, u: nat)
    requires u > 0
    ensures (q * u) % u == 0 && (q * u) / u == q
  {
    DivideUnique(q * u, u, q, 0);
  }

  lemma Scale(a: int, b: int, u: int)
    requires u > 0 && a <= b
    ensures a * u <= b * u && a * u + (b - a) * u == b * u
  {
  }

  lemma DivideUnique(n: int, u: int, q: int, r: int)
    requires u > 0 && n == q * u + r && 0 <= r < u
    ensures n / u == q && n % u == r
  {
    var d := n / u;
    assert n == d * u + n % u;
    if d > q {
      Scale(q + 1, d, u);
    } else if d < q {
      Scale(d + 1, q, u);
    }
  }

  /** The spacing of doubles around `n`, doubling from `u` on. */
  function Spacing(n: nat, u: nat): (s: nat)
    requires u > 0
    ensures s >= u && n < TWO53 * s
    decreases n - u
  {
    if n < TWO53 * u then u else Spacing(n, 2 * u)
  }

  function RoundMagnitude(n: nat): int
  {
    NearestMultiple(n, Spacing(n, 1))
  }

  /** `static_cast<double>` of an integer. */
  function RoundToDouble(i: int): int
  {
    if i >= 0 then RoundMagnitude(i) else -RoundMagnitude(-i)
  }

  // ---------------------------------------------------------------------------
  // Monotonicity
  // ---------------------------------------------------------------------------

  lemma NearestMonotone(m: nat, n: nat, u: nat)
    requires u > 0 && m <= n
    ensures NearestMultiple(m, u) <= NearestMultiple(n, u)
  {
    var a, b := m / u, n / u;
    QuotientMonotone(m, n, u);
    Scale(a, a + 1, u);
    if a < b {
      Scale(a + 1, b, u);
      Scale(b, b + 1, u);
    }
  }

  lemma QuotientMonotone(m: int, n: int, u: int)
    requires u > 0 && m <= n
    ensures m / u <= n / u && m == (m / u) * u + m % u && n == (n / u) * u + n % u
  {
    if m / u > n / u {
      Scale(n / u + 1, m / u, u);
    }
  }

  lemma NearestFixes(q: nat, u: nat)
    requires u > 0
    ensures NearestMultiple(q * u, u) == q * u
  {
    MultipleOf(q, u);
  }

  /** A wider spacing is one of the doublings of a narrower one. */
  lemma {:induction false} SpacingMonotone(m: nat, n: nat, u: nat)
    requires u > 0 && m <= n
    ensures Spacing(m, u) == Spacing(n, u) || 2 * Spacing(m, u) <= Spacing(n, u)
    decreases n - u
  {
    if n >= TWO53 * u {
      if m >= TWO53 * u {
        SpacingMonotone(m, n, 2 * u);
      }
    }
  }

  /** Beyond the first spacing, `n` uses at least half of its range. */
  lemma {:induction false} SpacingLower(n: nat, u: nat)
    requires u > 0 && Spacing(n, u) > u
    ensures TWO53 * Spacing(n, u) <= 2 * n
    decreases n - u
  {
    if Spacing(n, 2 * u) > 2 * u {
      SpacingLower(n, 2 * u);
    }
  }

  lemma MagnitudeMonotone(m: nat, n: nat)
    requires m <= n
    ensures RoundMagnitude(m) <= RoundMagnitude(n)
  {
    var u, v := Spacing(m, 1), Spacing(n, 1);
    SpacingMonotone(m, n, 1);
    if u == v {
      NearestMonotone(m, n, u);
    } else {
      SpacingLower(n, 1);
      NearestMonotone(m, TWO53 * u, u);
      NearestFixes(TWO53, u);
      NearestMonotone(TWO53 / 2 * v, n, v);
      NearestFixes(TWO53 / 2, v);
    }
  }

  lemma RoundMonotone(i: int, j: int)
    requires i <= j
    ensures RoundToDouble(i) <= RoundToDouble(j)
  {
    if i >= 0 {
      MagnitudeMonotone(i, j);
    } else if j < 0 {
      MagnitudeMonotone(-j, -i);
    }
  }

  lemma RoundExact(i: int)
    requires -TWO53 <= i <= TWO53
    ensures RoundToDouble(i) == i
  {
    if i == TWO53 || i == -TWO53 {
      assert Spacing(TWO53, 1) == Spacing(TWO53, 2) == 2;
      NearestFixes(TWO53 / 2, 2);
    } else {
      var n := if i >= 0 then i else -i;
      assert Spacing(n, 1) == 1;
      NearestFixes(n, 1);
    }
  }

  /** The first integer that is no double rounds onto its neighbour. */
  lemma RoundMerges()
    ensures RoundToDouble(TWO53 + 1) == TWO53
    ensures RoundToDouble(-TWO53 - 1) == -TWO53
  {
    assert Spacing(TWO53 + 1, 1) == Spacing(TWO53 + 1, 2) == 2;
    DivideUnique(TWO53 + 1, 2, TWO53 / 2, 1);
  }

  function Distance(a: int, b: int): nat { if a < b then b - a else a - b }

  /** Half a unit away at most, and on a tie at an even multiple. */
  predicate Nearest(r: int, n: int, u: nat)
    requires u > 0
  {
    r % u == 0 && 2 * Distance(r, n) <= u && (2 * Distance(r, n) == u ==> (r / u) % 2 == 0)
  }

  lemma NearestIsNear(n: nat, u: nat)
    requires u > 0
    ensures Nearest(NearestMultiple(n, u), n, u)
  {
    var q, rest := n / u, n % u;
    assert n == q * u + rest;
    assert (q + 1) * u == q * u + u;
    MultipleOf(q, u);
    MultipleOf(q + 1, u);
  }

  lemma NearestMirrored(r: int, n: int, u: nat)
    requires u > 0 && Nearest(r, n, u)
    ensures Nearest(-r, -n, u)
  {
    var q := r / u;
    assert r == q * u;
    DivideUnique(-r, u, -q, 0);
  }

  lemma {:induction false} SpacingFits(n: nat, u: nat)
    requires u > 0
    ensures n < TWO53 * Spacing(n, u) && (Spacing(n, u) > u ==> TWO53 * Spacing(n, u) <= 2 * n)
    ensures exists e: nat :: Spacing(n, u) == u * Power(e)
    decreases n - u
  {
    if n >= TWO53 * u {
      SpacingFits(n, 2 * u);
      var e: nat :| Spacing(n, 2 * u) == 2 * u * Power(e);
      assert Power(e + 1) == 2 * Power(e);
      assert 2 * u * Power(e) == u * Power(e + 1);
    } else {
      assert Power(0) == 1;
    }
  }

  function Power(e: nat): nat { if e == 0 then 1 else 2 * Power(e - 1) }

  /** Rounding picks the nearest multiple of a power of two that leaves at most 53 bits, and the even
      one of two that are equally near. */
  lemma RoundNearest(i: int) returns (unit: nat, e: nat)
    ensures unit == Power(e) && unit > 0 && Distance(i, 0) < TWO53 * unit && (unit > 1 ==> TWO53 * unit <= 2 * Distance(i, 0))
    ensures Nearest(RoundToDouble(i), i, unit)
  {
    hide Nearest;
    var n := Distance(i, 0);
    unit := Spacing(n, 1);
    SpacingFits(n, 1);
    NearestIsNear(n, unit);
    e :| unit == 1 * Power(e);
    if i < 0 {
      NearestMirrored(NearestMultiple(n, unit), n, unit);
    }
  }
}
