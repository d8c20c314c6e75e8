/**
 * Distances and the fare policy, in exact integer arithmetic.
 *
 * Positions are integer points. The trip distance is the square root of the
 * squared Euclidean distance; the fare is 250 plus 100 per unit of distance,
 * rounded to two decimals, and is kept here as a whole number of hundredths.
 */
module Fare {

  const BaseFare: nat := 250
  const PerUnitRate: nat := 100
  /** Fares are rounded to two decimals: one cent is 1/CentsPerUnit. */
  const CentsPerUnit: nat := 100

  /**
   * a * a, computed by the odd-number recurrence (a + 1)^2 = a^2 + 2a + 1.
   * Written without multiplication so that comparisons of distances stay
   * linear for the solver; SquareIsProduct connects it to a * a.
   */
  function Square(a: int): (sq: nat)
    decreases if a < 0 then 1 - a else a
  {
    if a < 0 then Square(-a)
    else if a == 0 then 0
    else Square(a - 1) + 2 * a - 1
  }

  lemma {:induction false} SquareIsProduct(a: int)
    ensures Square(a) == a * a
    decreases if a < 0 then 1 - a else a
  {
    if a < 0 {
      SquareIsProduct(-a);
    } else if a > 0 {
      SquareIsProduct(a - 1);
    }
  }

  /** Squared Euclidean distance between (x1, y1) and (x2, y2). */
  function SquaredDistance(x1: int, y1: int, x2: int, y2: int): (d: nat)
  {
    Square(x1 - x2) + Square(y1 - y2)
  }

  /** Squaring is monotone on non-negative numbers. */
  lemma SquareMonotone(a: nat, b: nat)
    requires a <= b
    ensures a * a <= b * b
  {
  }

  /** Twice the root of n / 4 brackets the root of n to within one. */
  lemma FloorSqrtStep(n: nat, s: nat)
    requires s * s <= n / 4 < (s + 1) * (s + 1)
    ensures (2 * s) * (2 * s) <= n < (2 * s + 2) * (2 * s + 2)
  {
  }

  /** The integer square root: the largest r with r * r <= n. */
  function FloorSqrt(n: nat): (r: nat)
    ensures r * r <= n < (r + 1) * (r + 1)
    decreases n
  {
    if n < 4 then
      (if n == 0 then 0 else 1)
    else
      var s := FloorSqrt(n / 4);
      FloorSqrtStep(n, s);
      var h := 2 * s;
      if (h + 1) * (h + 1) <= n then h + 1 else h
  }

  /** When rounding down to f, f is at least sqrt(n) - 1/2. */
  lemma RoundDown(n: nat, f: nat)
    requires f * f <= n
    ensures f > 0 ==> (2 * f - 1) * (2 * f - 1) <= 4 * n
  {
  }

  /** When rounding up to f + 1, sqrt(n) is below f + 3/2. */
  lemma RoundUp(n: nat, f: nat)
    requires n < (f + 1) * (f + 1)
    ensures 4 * n < (2 * f + 3) * (2 * f + 3)
  {
  }

  /**
   * The integer nearest to the square root of n: r - 1/2 <= sqrt(n) < r + 1/2,
   * written without reals by multiplying through by 2 and squaring.
   */
  function NearestSqrt(n: nat): (r: nat)
    ensures 4 * n < (2 * r + 1) * (2 * r + 1)
    ensures r > 0 ==> (2 * r - 1) * (2 * r - 1) <= 4 * n
  {
    var f := FloorSqrt(n);
    if 4 * n < (2 * f + 1) * (2 * f + 1) then
      RoundDown(n, f);
      f
    else
      RoundUp(n, f);
      f + 1
  }

  /** The two bounds of NearestSqrt pin down a single integer. */
  lemma NearestSqrtUnique(n: nat, r: nat)
    requires 4 * n < (2 * r + 1) * (2 * r + 1)
    requires r > 0 ==> (2 * r - 1) * (2 * r - 1) <= 4 * n
    ensures NearestSqrt(n) == r
  {
    var m := NearestSqrt(n);
    if r < m {
      SquareMonotone(2 * r + 1, 2 * m - 1);
    } else if m < r {
      SquareMonotone(2 * m + 1, 2 * r - 1);
    }
  }

  lemma NearestSqrtMonotone(a: nat, b: nat)
    requires a <= b
    ensures NearestSqrt(a) <= NearestSqrt(b)
  {
    var ra, rb := NearestSqrt(a), NearestSqrt(b);
    if rb < ra {
      SquareMonotone(2 * rb + 1, 2 * ra - 1);
    }
  }

  /** Hundredths per unit of trip distance. */
  const CentsPerDistance: nat := PerUnitRate * CentsPerUnit

  /**
   * The fare, in hundredths, of a trip whose squared length is tripSquared:
   * the base fare plus the distance charge rounded to the nearest hundredth.
   */
  function FareCents(tripSquared: nat): (fare: nat)
    ensures fare >= BaseFare * CentsPerUnit
    ensures var charge := fare - BaseFare * CentsPerUnit;
            var exact := CentsPerDistance * CentsPerDistance * tripSquared;
            4 * exact < (2 * charge + 1) * (2 * charge + 1)
            && (charge > 0 ==> (2 * charge - 1) * (2 * charge - 1) <= 4 * exact)
  {
    BaseFare * CentsPerUnit + NearestSqrt(CentsPerDistance * CentsPerDistance * tripSquared)
  }

  /** A trip of whole length k costs exactly 250 + 100 * k, with no rounding. */
  lemma FareOfWholeDistance(k: nat)
    ensures FareCents(k * k) == BaseFare * CentsPerUnit + CentsPerDistance * k
  {
    var r := CentsPerDistance * k;
    assert CentsPerDistance * CentsPerDistance * (k * k) == r * r;
    assert (2 * r + 1) * (2 * r + 1) == 4 * (r * r) + 4 * r + 1;
    assert r > 0 ==> (2 * r - 1) * (2 * r - 1) == 4 * (r * r) - 4 * r + 1;
    NearestSqrtUnique(r * r, r);
  }

  /** A longer trip never costs less. */
  lemma FareMonotone(a: nat, b: nat)
    requires a <= b
    ensures FareCents(a) <= FareCents(b)
  {
    var c := CentsPerDistance * CentsPerDistance;
    assert c * a <= c * b;
    NearestSqrtMonotone(c * a, c * b);
  }
}
