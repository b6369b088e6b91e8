/**
 * The per-value membership function of the BasicThreshold plugin: how
 * strongly one grid value lies above (or below) one threshold, as a number
 * in [0, 1].
 *
 * Hard mode (no fuzzy factor) is a step at `value >= t`. Fuzzy mode with
 * factor `f` ramps linearly from `lower = t * f` to `upper = t * (2 - f)`
 * and clips the ramp to [0, 1]. The "below" direction is `1 - above`, with
 * the same bounds. Values are exact reals: floating-point rounding is not
 * modelled.
 */
module Membership {
  import opened Wrappers

  function Abs(x: real): real {
    if x < 0.0 then -x else x
  }

  /** The distance between two reals. */
  function Dist(x: real, y: real): real {
    Abs(x - y)
  }

  /** `numpy.clip(x, 0, 1)`: the point of [0, 1] nearest to `x`. */
  function Clip(x: real): (r: real)
    ensures 0.0 <= r <= 1.0
    ensures 0.0 <= x <= 1.0 ==> r == x
    ensures forall y :: 0.0 <= y <= 1.0 ==> Dist(x, r) <= Dist(x, y)
  {
    if x < 0.0 then 0.0 else if x > 1.0 then 1.0 else x
  }

  /** The constructor accepts a fuzzy factor only in the open interval (0, 1). */
  predicate ValidFuzzyFactor(f: real) {
    0.0 < f < 1.0
  }

  /**
   * What the constructor guarantees of every threshold it keeps: with a
   * fuzzy factor, the factor is valid and the threshold is not zero.
   */
  predicate Admissible(t: real, fuzzy: Option<real>) {
    fuzzy.Some? ==> ValidFuzzyFactor(fuzzy.value) && t != 0.0
  }

  /** Start of the fuzzy ramp (membership 0 there). */
  function Lower(t: real, f: real): real {
    t * f
  }

  /** End of the fuzzy ramp (membership 1 there). */
  function Upper(t: real, f: real): real {
    t * (2.0 - f)
  }

  /**
   * The two bounds are `2 t (1 - f)` apart, so the ramp never divides by
   * zero; they straddle the threshold, in increasing order for a positive
   * threshold and in decreasing order for a negative one.
   */
  lemma BoundsWidth(t: real, f: real)
    requires ValidFuzzyFactor(f) && t != 0.0
    ensures Upper(t, f) - Lower(t, f) == 2.0 * t * (1.0 - f)
    ensures Upper(t, f) != Lower(t, f)
    ensures t > 0.0 ==> Lower(t, f) < t < Upper(t, f)
    ensures t < 0.0 ==> Upper(t, f) < t < Lower(t, f)
  {
    var g := 1.0 - f;
    assert Upper(t, f) == t + t * g;
    assert Lower(t, f) == t - t * g;
    assert t > 0.0 ==> t * g > 0.0;
    assert t < 0.0 ==> t * g < 0.0;
  }

  /** The bounds differ (the part of BoundsWidth the ramp needs). */
  lemma BoundsDistinct(t: real, f: real)
    requires ValidFuzzyFactor(f) && t != 0.0
    ensures Upper(t, f) != Lower(t, f)
  {
    BoundsWidth(t, f);
  }

  /** The quotient `n / d`. */
  function Fraction(n: real, d: real): real
    requires d != 0.0
  {
    n / d
  }

  /** The unclipped linear ramp `(v - lower) / (upper - lower)`. */
  function Ramp(t: real, f: real, v: real): real
    requires ValidFuzzyFactor(f) && t != 0.0
  {
    BoundsDistinct(t, f);
    Fraction(v - Lower(t, f), Upper(t, f) - Lower(t, f))
  }

  /** Hard-mode "above" membership: a step at `v >= t`. */
  function AboveHard(t: real, v: real): real {
    if v >= t then 1.0 else 0.0
  }

  /** Fuzzy-mode "above" membership: the ramp clipped to [0, 1]. */
  function AboveFuzzy(t: real, f: real, v: real): real
    requires ValidFuzzyFactor(f) && t != 0.0
  {
    Clip(Ramp(t, f, v))
  }

  /** "Above" membership in whichever mode the fuzzy factor selects. */
  function Above(t: real, fuzzy: Option<real>, v: real): real
    requires Admissible(t, fuzzy)
  {
    match fuzzy
    case None => AboveHard(t, v)
    case Some(f) => AboveFuzzy(t, f, v)
  }

  /**
   * The membership value reported for value `v` and threshold `t`: the
   * "above" membership, or its complement when `below` (the plugin's
   * `below_thresh_ok`) is set. It always lies in [0, 1].
   */
  function Value(t: real, fuzzy: Option<real>, below: bool, v: real): (r: real)
    requires Admissible(t, fuzzy)
    ensures 0.0 <= r <= 1.0
  {
    var above := Above(t, fuzzy, v);
    if below then 1.0 - above else above
  }

  /**
   * The two directions are complementary for every value, in both modes:
   * "below" is not a separate rule with its own bounds.
   */
  lemma BelowIsComplement(t: real, fuzzy: Option<real>, v: real)
    requires Admissible(t, fuzzy)
    ensures Value(t, fuzzy, true, v) + Value(t, fuzzy, false, v) == 1.0
  {
  }

  /** Hard mode reports exactly 1 where `v >= t` and exactly 0 elsewhere. */
  lemma HardStep(t: real, v: real)
    ensures Value(t, None, false, v) == 1.0 <==> v >= t
    ensures Value(t, None, false, v) == 0.0 <==> v < t
    ensures Value(t, None, true, v) == 1.0 - Value(t, None, false, v)
  {
  }

  /**
   * For a positive threshold the fuzzy membership is 0 at and below the
   * lower bound and 1 at and beyond the upper bound; for a negative
   * threshold the bounds are inverted and so are these regions.
   */
  lemma FuzzySaturates(t: real, f: real, v: real)
    requires ValidFuzzyFactor(f) && t != 0.0
    ensures t > 0.0 && v <= Lower(t, f) ==> AboveFuzzy(t, f, v) == 0.0
    ensures t > 0.0 && v >= Upper(t, f) ==> AboveFuzzy(t, f, v) == 1.0
    ensures t < 0.0 && v >= Lower(t, f) ==> AboveFuzzy(t, f, v) == 0.0
    ensures t < 0.0 && v <= Upper(t, f) ==> AboveFuzzy(t, f, v) == 1.0
  {
    BoundsWidth(t, f);
    var n, d := v - Lower(t, f), Upper(t, f) - Lower(t, f);
    FractionNonPositive(n, d);
    FractionAtLeastOne(n, d);
  }

  /**
   * Strictly between the two bounds (in whichever order they come) the
   * membership is the unclipped ramp and lies strictly inside (0, 1).
   */
  lemma FuzzyInsideRamp(t: real, f: real, v: real)
    requires ValidFuzzyFactor(f) && t != 0.0
    requires Lower(t, f) < v < Upper(t, f) || Upper(t, f) < v < Lower(t, f)
    ensures AboveFuzzy(t, f, v) == (v - Lower(t, f)) / (Upper(t, f) - Lower(t, f))
    ensures 0.0 < AboveFuzzy(t, f, v) < 1.0
  {
    BoundsWidth(t, f);
    FractionStrict(v - Lower(t, f), Upper(t, f) - Lower(t, f));
  }

  /**
   * Monotonicity: the membership never decreases as the value grows in hard
   * mode and in fuzzy mode with a positive threshold, and never increases in
   * fuzzy mode with a negative threshold (the inverted ramp).
   */
  lemma AboveMonotone(t: real, fuzzy: Option<real>, v1: real, v2: real)
    requires Admissible(t, fuzzy)
    requires v1 <= v2
    ensures fuzzy.None? || t > 0.0 ==> Above(t, fuzzy, v1) <= Above(t, fuzzy, v2)
    ensures fuzzy.Some? && t < 0.0 ==> Above(t, fuzzy, v1) >= Above(t, fuzzy, v2)
  {
    if fuzzy.Some? {
      var f := fuzzy.value;
      BoundsWidth(t, f);
      FractionMonotone(v1 - Lower(t, f), v2 - Lower(t, f), Upper(t, f) - Lower(t, f));
    }
  }

  /** Distance between the two bounds of the fuzzy ramp. */
  function Width(t: real, f: real): real {
    Abs(Upper(t, f) - Lower(t, f))
  }

  /**
   * Continuity of the fuzzy membership: clipping never moves two
   * memberships further apart than their unclipped ramps, and the ramp
   * scales distances by exactly `1 / |upper - lower|`; so two values `delta`
   * apart have memberships at most `delta / |upper - lower|` apart.
   */
  lemma FuzzyLipschitz(t: real, f: real, v1: real, v2: real)
    requires ValidFuzzyFactor(f) && t != 0.0
    ensures Dist(AboveFuzzy(t, f, v1), AboveFuzzy(t, f, v2)) <= Dist(Ramp(t, f, v1), Ramp(t, f, v2))
    ensures Dist(Ramp(t, f, v1), Ramp(t, f, v2)) * Width(t, f) == Dist(v1, v2)
  {
    ClipContracts(Ramp(t, f, v1), Ramp(t, f, v2));
    RampScalesDistance(t, f, v1, v2);
  }

  lemma RampScalesDistance(t: real, f: real, v1: real, v2: real)
    requires ValidFuzzyFactor(f) && t != 0.0
    ensures Dist(Ramp(t, f, v1), Ramp(t, f, v2)) * Width(t, f) == Dist(v1, v2)
  {
    BoundsDistinct(t, f);
    FractionDist(v1 - Lower(t, f), v2 - Lower(t, f), Upper(t, f) - Lower(t, f), Width(t, f), v1, v2);
  }

  /** Clipping never moves two points further apart. */
  lemma ClipContracts(a: real, b: real)
    ensures Dist(Clip(a), Clip(b)) <= Dist(a, b)
  {
  }

  /**
   * For a positive threshold the fuzzy ramp only softens the step: outside
   * (lower, upper) both modes report the same membership.
   */
  lemma FuzzyAgreesWithHardOutsideRamp(t: real, f: real, v: real)
    requires ValidFuzzyFactor(f) && t > 0.0
    requires v <= Lower(t, f) || v >= Upper(t, f)
    ensures AboveFuzzy(t, f, v) == AboveHard(t, v)
  {
    BoundsWidth(t, f);
    FuzzySaturates(t, f, v);
  }

  /**
   * For a negative threshold the single ramp formula inverts the sense of
   * "above": at and beyond the (larger) lower bound the hard step reports 1
   * while the fuzzy membership reports 0, and at and below the upper bound
   * the other way round.
   */
  lemma NegativeThresholdInvertsRamp(t: real, f: real, v: real)
    requires ValidFuzzyFactor(f) && t < 0.0
    ensures v >= Lower(t, f) ==> AboveHard(t, v) == 1.0 && AboveFuzzy(t, f, v) == 0.0
    ensures v <= Upper(t, f) ==> AboveHard(t, v) == 0.0 && AboveFuzzy(t, f, v) == 1.0
  {
    BoundsWidth(t, f);
    FuzzySaturates(t, f, v);
  }

  /**
   * Raising the threshold never raises the "above" membership of a value,
   * in hard mode and in fuzzy mode with positive thresholds.
   */
  lemma AboveAntitoneInThreshold(t1: real, t2: real, fuzzy: Option<real>, v: real)
    requires Admissible(t1, fuzzy) && Admissible(t2, fuzzy)
    requires fuzzy.None? || 0.0 < t1
    requires t1 <= t2
    ensures Above(t1, fuzzy, v) >= Above(t2, fuzzy, v)
  {
    if fuzzy.Some? {
      var f := fuzzy.value;
      if v <= 0.0 {
        PositiveProduct(t1, f);
        PositiveProduct(t2, f);
        FuzzySaturates(t1, f, v);
        FuzzySaturates(t2, f, v);
      } else {
        RampAntitone(t1, t2, f, v);
      }
    }
  }

  /** For a positive value the ramp falls as the (positive) threshold rises. */
  lemma RampAntitone(t1: real, t2: real, f: real, v: real)
    requires ValidFuzzyFactor(f) && 0.0 < t1 <= t2 && v > 0.0
    ensures Ramp(t1, f, v) >= Ramp(t2, f, v)
  {
    var g := 2.0 * (1.0 - f);
    BoundsWidth(t1, f);
    BoundsWidth(t2, f);
    FractionSplit(v, t1, f, g);
    FractionSplit(v, t2, f, g);
    assert t1 * g <= t2 * g by { ScaleBound(t1, t2, g); }
    PositiveProduct(t1, g);
    ReciprocalAntitone(v, t1 * g, t2 * g);
  }

  // Facts of real arithmetic used above, each over plain reals.

  lemma PositiveProduct(a: real, b: real)
    requires a > 0.0 && b > 0.0
    ensures a * b > 0.0
  {
  }

  lemma ScaleBound(a: real, b: real, k: real)
    requires a <= b && k >= 0.0
    ensures a * k <= b * k
  {
  }

  lemma FractionNonPositive(n: real, d: real)
    requires d != 0.0
    ensures (n <= 0.0 < d || d < 0.0 <= n) ==> Fraction(n, d) <= 0.0
  {
  }

  lemma FractionAtLeastOne(n: real, d: real)
    requires d != 0.0
    ensures (0.0 < d <= n || n <= d < 0.0) ==> Fraction(n, d) >= 1.0
  {
    var q := n / d;
    assert q * d == n;
    if 0.0 < d <= n {
      assert q * d >= 1.0 * d;
    } else if n <= d < 0.0 {
      assert q * (-d) >= 1.0 * (-d);
    }
  }

  lemma FractionStrict(n: real, d: real)
    requires 0.0 < n < d || d < n < 0.0
    ensures 0.0 < Fraction(n, d) < 1.0
  {
    if d > 0.0 {
      BelowOne(n, d);
    } else {
      BelowOne(-n, -d);
      assert n / d == (-n) / (-d);
    }
  }

  lemma BelowOne(n: real, k: real)
    requires 0.0 < n < k
    ensures 0.0 < n / k < 1.0
  {
    var q := n / k;
    assert q * k == n;
    if q >= 1.0 {
      ScaleBound(1.0, q, k);
      assert false;
    }
    if q <= 0.0 {
      ScaleBound(q, 0.0, k);
      assert false;
    }
  }

  lemma FractionMonotone(n1: real, n2: real, d: real)
    requires n1 <= n2 && d != 0.0
    ensures d > 0.0 ==> Fraction(n1, d) <= Fraction(n2, d)
    ensures d < 0.0 ==> Fraction(n1, d) >= Fraction(n2, d)
  {
    assert n2 / d - n1 / d == (n2 - n1) / d;
  }

  lemma FractionDist(n1: real, n2: real, d: real, w: real, x1: real, x2: real)
    requires d != 0.0 && w == Abs(d) && n1 - n2 == x1 - x2
    ensures Dist(Fraction(n1, d), Fraction(n2, d)) * w == Dist(x1, x2)
  {
    var q := n1 / d - n2 / d;
    assert q * d == n1 - n2 by {
      assert (n1 / d) * d == n1;
      assert (n2 / d) * d == n2;
    }
    AbsMul(q, d);
  }

  lemma AbsMul(x: real, y: real)
    ensures Abs(x) * Abs(y) == Abs(x * y)
  {
    if x < 0.0 && y < 0.0 {
      assert (-x) * (-y) == x * y;
    } else if x < 0.0 {
      assert (-x) * y == -(x * y);
    } else if y < 0.0 {
      assert x * (-y) == -(x * y);
    }
  }

  /** `(v - t f) / (t g)` splits as `v / (t g) - f / g`. */
  lemma FractionSplit(v: real, t: real, f: real, g: real)
    requires t != 0.0 && g != 0.0 && t * (2.0 - f) - t * f == t * g
    ensures Fraction(v - t * f, t * g) == v / (t * g) - f / g
  {
    assert (t * f) / (t * g) == f / g;
  }

  lemma ReciprocalAntitone(v: real, a: real, b: real)
    requires v > 0.0 && 0.0 < a <= b
    ensures v / a >= v / b
  {
    assert (v / a) * a == v;
    assert (v / b) * b == v;
    assert (v / b) * a <= (v / b) * b;
  }
}
