/** cosineSimilarity of internal/cache/semantic.go over real vectors. The square root is a
    parameter: any function that is one. */
module Similarity {
  type Vector = seq<real>

  ghost predicate IsSqrt(sqrt: real -> real) {
    forall x :: x >= 0.0 ==> sqrt(x) >= 0.0 && sqrt(x) * sqrt(x) == x
  }

  /** The sum of the products of the first n coordinates. */
  function Dot(a: Vector, b: Vector, n: nat): real
    requires n <= |a| && n <= |b|
  {
    if n == 0 then 0.0 else Dot(a, b, n - 1) + a[n - 1] * b[n - 1]
  }

  function Clamp(x: real): real { if x > 1.0 then 1.0 else if x < -1.0 then -1.0 else x }

  /** Zero for a vector without a direction. */
  function Angle(sqrt: real -> real, dot: real, magA: real, magB: real): real {
    if magA == 0.0 || magB == 0.0 || sqrt(magA * magB) == 0.0 then 0.0 else Clamp(dot / sqrt(magA * magB))
  }

  /** Zero for widths that differ. */
  function Cosine(sqrt: real -> real, a: Vector, b: Vector): real {
    if |a| != |b| || |a| == 0 then 0.0 else Angle(sqrt, Dot(a, b, |a|), Dot(a, a, |a|), Dot(b, b, |b|))
  }

  lemma DotStep(a: Vector, b: Vector, i: nat, x: real, y: real)
    requires i < |a| && i < |b| && x == a[i] && y == b[i]
    ensures Dot(a, b, i + 1) == Dot(a, b, i) + x * y
  {
  }

  /** One pass over both vectors. */
  method Accumulate(a: Vector, b: Vector) returns (dot: real, magA: real, magB: real)
    requires |a| == |b|
    ensures dot == Dot(a, b, |a|) && magA == Dot(a, a, |a|) && magB == Dot(b, b, |b|)
  {
    dot, magA, magB := 0.0, 0.0, 0.0;
    var i := 0;
    while i < |a|
      invariant i <= |a| && dot == Dot(a, b, i) && magA == Dot(a, a, i) && magB == Dot(b, b, i)
    {
      var x, y := a[i], b[i];
      DotStep(a, b, i, x, y);
      DotStep(a, a, i, x, x);
      DotStep(b, b, i, y, y);
      dot := dot + x * y;
      magA := magA + x * x;
      magB := magB + y * y;
      i := i + 1;
    }
  }

  method CosineSimilarity(sqrt: real -> real, a: Vector, b: Vector) returns (sim: real)
    ensures sim == Cosine(sqrt, a, b)
  {
    if |a| != |b| || |a| == 0 {
      return 0.0;
    }
    var dot, magA, magB := Accumulate(a, b);
    sim := AngleOf(sqrt, dot, magA, magB);
  }

  method AngleOf(sqrt: real -> real, dot: real, magA: real, magB: real) returns (sim: real)
    ensures sim == Angle(sqrt, dot, magA, magB)
  {
    if magA == 0.0 || magB == 0.0 || sqrt(magA * magB) == 0.0 {
      return 0.0;
    }
    sim := dot / sqrt(magA * magB);
    if sim > 1.0 {
      return 1.0;
    }
    if sim < -1.0 {
      return -1.0;
    }
  }

  // ----- Cauchy and Schwarz

  lemma SquareNotNegative(x: real)
    ensures x * x >= 0.0
  {
  }

  lemma {:induction false} MagnitudeNotNegative(a: Vector, n: nat)
    requires n <= |a|
    ensures Dot(a, a, n) >= 0.0
  {
    if n > 0 {
      MagnitudeNotNegative(a, n - 1);
      SquareNotNegative(a[n - 1]);
    }
  }

  lemma SquareGrows(q: real, e: real)
    requires q >= 0.0 && e > 0.0
    ensures (q + e) * (q + e) > q * q
  {
    TimesNotNegative(q, e);
    Product(e, e);
    assert (q + e) * (q + e) == q * q + 2.0 * (q * e) + e * e;
  }

  lemma SquareOrderAbove(p: real, q: real)
    requires p * p <= q * q && q >= 0.0
    ensures p <= q
  {
    assert p > q ==> q + (p - q) == p;
    if p > q { SquareGrows(q, p - q); }
  }

  lemma SquareOrder(p: real, q: real)
    requires p * p <= q * q && q >= 0.0
    ensures -q <= p <= q
  {
    SquareOrderAbove(p, q);
    assert (-p) * (-p) == p * p;
    SquareOrderAbove(-p, q);
  }

  lemma Product(x: real, y: real)
    requires x > 0.0
    ensures y > 0.0 ==> x * y > 0.0
    ensures y >= 0.0 ==> x * y >= 0.0
  {
  }

  /** The geometric mean is not above the arithmetic one. */
  lemma Means(u: real, v: real)
    ensures 4.0 * (u * v) <= (u + v) * (u + v)
  {
    SquareNotNegative(u - v);
    assert (u + v) * (u + v) - 4.0 * (u * v) == (u - v) * (u - v);
  }

  /** If d squared is at most a b, then 2 d x y is at most a y squared plus b x squared. */
  lemma CrossTerm(d: real, a: real, b: real, x: real, y: real)
    requires d * d <= a * b && a >= 0.0 && b >= 0.0
    ensures 2.0 * (d * (x * y)) <= a * (y * y) + b * (x * x)
  {
    var z, u, v := x * y, a * (y * y), b * (x * x);
    SquareNotNegative(x);
    SquareNotNegative(y);
    SquareNotNegative(z);
    TimesNotNegative(a, y * y);
    TimesNotNegative(b, x * x);
    Rearranged(a, b, x, y);
    TimesNotNegative(a * b - d * d, z * z);
    assert (a * b - d * d) * (z * z) == (a * b) * (z * z) - (d * d) * (z * z);
    assert (2.0 * (d * z)) * (2.0 * (d * z)) == 4.0 * ((d * d) * (z * z));
    Means(u, v);
    SquareOrder(2.0 * (d * z), u + v);
  }

  lemma TimesNotNegative(x: real, y: real)
    requires x >= 0.0 && y >= 0.0
    ensures x * y >= 0.0
  {
  }

  lemma Rearranged(a: real, b: real, x: real, y: real)
    ensures (a * b) * ((x * y) * (x * y)) == (a * (y * y)) * (b * (x * x))
  {
    var xx, yy := x * x, y * y;
    assert (x * y) * (x * y) == xx * yy;
    assert (a * b) * (xx * yy) == (a * yy) * (b * xx);
  }

  /** The square of the accumulated product is at most the product of the magnitudes, at every
      step of the loop. */
  lemma {:induction false} CauchySchwarz(a: Vector, b: Vector, n: nat)
    requires n <= |a| && n <= |b|
    ensures Dot(a, b, n) * Dot(a, b, n) <= Dot(a, a, n) * Dot(b, b, n)
  {
    if n > 0 {
      CauchySchwarz(a, b, n - 1);
      MagnitudeNotNegative(a, n - 1);
      MagnitudeNotNegative(b, n - 1);
      var d, p, q, x, y := Dot(a, b, n - 1), Dot(a, a, n - 1), Dot(b, b, n - 1), a[n - 1], b[n - 1];
      CrossTerm(d, p, q, x, y);
      OneMoreTerm(d, p, q, x, y);
    }
  }

  lemma OneMoreTerm(d: real, p: real, q: real, x: real, y: real)
    requires d * d <= p * q && 2.0 * (d * (x * y)) <= p * (y * y) + q * (x * x)
    ensures (d + x * y) * (d + x * y) <= (p + x * x) * (q + y * y)
  {
    var z, xx, yy := x * y, x * x, y * y;
    assert z * z == xx * yy;
    assert (d + z) * (d + z) == d * d + 2.0 * (d * z) + z * z;
    assert (p + xx) * (q + yy) == p * q + p * yy + q * xx + xx * yy;
  }

  // ----- what the cosine means

  lemma RootOfPositive(sqrt: real -> real, x: real)
    requires IsSqrt(sqrt) && x > 0.0
    ensures sqrt(x) > 0.0
  {
    assert sqrt(x) * sqrt(x) == x;
  }

  lemma QuotientAbove(d: real, s: real)
    requires s > 0.0 && d <= s
    ensures d / s <= 1.0
  {
    var t := d / s;
    assert t * s == d && (t - 1.0) * s == t * s - s;
    if t > 1.0 { Product(t - 1.0, s); }
  }

  lemma QuotientRange(d: real, s: real)
    requires s > 0.0 && -s <= d <= s
    ensures -1.0 <= d / s <= 1.0
  {
    QuotientAbove(d, s);
    QuotientAbove(-d, s);
    assert (-d) / s == -(d / s);
  }

  lemma AngleInRange(sqrt: real -> real, dot: real, magA: real, magB: real) returns (s: real)
    requires IsSqrt(sqrt) && magA > 0.0 && magB > 0.0 && dot * dot <= magA * magB
    ensures s > 0.0 && s * s == magA * magB
    ensures -1.0 <= dot / s <= 1.0 && Angle(sqrt, dot, magA, magB) == dot / s
  {
    Product(magA, magB);
    RootOfPositive(sqrt, magA * magB);
    s := sqrt(magA * magB);
    assert s * s == magA * magB;
    SquareOrder(dot, s);
    QuotientRange(dot, s);
  }

  /** In exact arithmetic the quotient is already in range: neither clamp acts, nor does the guard
      on the root. */
  lemma ClampsAreDead(sqrt: real -> real, a: Vector, b: Vector) returns (s: real)
    requires IsSqrt(sqrt) && |a| == |b| > 0 && Dot(a, a, |a|) != 0.0 && Dot(b, b, |b|) != 0.0
    ensures s > 0.0 && s * s == Dot(a, a, |a|) * Dot(b, b, |b|)
    ensures -1.0 <= Dot(a, b, |a|) / s <= 1.0 && Cosine(sqrt, a, b) == Dot(a, b, |a|) / s
  {
    MagnitudeNotNegative(a, |a|);
    MagnitudeNotNegative(b, |b|);
    CauchySchwarz(a, b, |a|);
    s := AngleInRange(sqrt, Dot(a, b, |a|), Dot(a, a, |a|), Dot(b, b, |b|));
  }

  lemma RootOfSquare(sqrt: real -> real, x: real, xx: real)
    requires IsSqrt(sqrt) && x >= 0.0 && xx == x * x
    ensures sqrt(xx) == x
  {
    SquareNotNegative(x);
    var r := sqrt(xx);
    assert r >= 0.0 && r * r == xx;
    SquareOrderAbove(r, x);
    SquareOrderAbove(x, r);
  }

  lemma OneOverItself(x: real)
    requires x != 0.0
    ensures x / x == 1.0
  {
  }

  lemma AngleToItself(sqrt: real -> real, m: real)
    requires IsSqrt(sqrt) && m > 0.0
    ensures Angle(sqrt, m, m, m) == 1.0
  {
    RootOfSquare(sqrt, m, m * m);
    OneOverItself(m);
  }

  /** A vector with a direction is exactly as similar as can be to itself. */
  lemma SelfSimilarity(sqrt: real -> real, a: Vector)
    requires IsSqrt(sqrt) && a != [] && Dot(a, a, |a|) != 0.0
    ensures Cosine(sqrt, a, a) == 1.0
  {
    MagnitudeNotNegative(a, |a|);
    AngleToItself(sqrt, Dot(a, a, |a|));
  }

  /** r is a made c times as long. */
  predicate IsScaled(c: real, a: Vector, r: Vector) {
    |r| == |a| && forall i :: 0 <= i < |a| ==> r[i] == c * a[i]
  }

  lemma {:induction false} DotScales(c: real, a: Vector, r: Vector, b: Vector, n: nat)
    requires IsScaled(c, a, r) && n <= |a| && n <= |b|
    ensures Dot(r, b, n) == c * Dot(a, b, n)
  {
    if n > 0 {
      DotScales(c, a, r, b, n - 1);
      assert c * a[n - 1] * b[n - 1] == c * (a[n - 1] * b[n - 1]);
    }
  }

  lemma {:induction false} DotSymmetric(a: Vector, b: Vector, n: nat)
    requires n <= |a| && n <= |b|
    ensures Dot(a, b, n) == Dot(b, a, n)
  {
    if n > 0 { DotSymmetric(a, b, n - 1); }
  }

  lemma TimesSame(c: real, x: real, y: real)
    requires x == y
    ensures c * x == c * y
  {
  }

  lemma ScaledTwice(c: real, rr: real, ar: real, aa: real)
    requires rr == c * ar && ar == c * aa
    ensures rr == c * (c * aa)
  {
    TimesSame(c, ar, c * aa);
  }

  lemma {:induction false} MagnitudeScales(c: real, a: Vector, r: Vector)
    requires IsScaled(c, a, r)
    ensures Dot(r, r, |a|) == c * (c * Dot(a, a, |a|))
  {
    var n := |a|;
    DotScales(c, a, r, r, n);
    DotSymmetric(a, r, n);
    DotScales(c, a, r, a, n);
    ScaledTwice(c, Dot(r, r, n), Dot(a, r, n), Dot(a, a, n));
  }

  lemma RootScales(sqrt: real -> real, c: real, x: real, ccx: real)
    requires IsSqrt(sqrt) && c > 0.0 && x >= 0.0 && ccx == c * (c * x)
    ensures sqrt(ccx) == c * sqrt(x)
  {
    var r := sqrt(x);
    assert r * r == x && r >= 0.0;
    assert (c * r) * (c * r) == c * (c * (r * r));
    TimesNotNegative(c, r);
    RootOfSquare(sqrt, c * r, ccx);
  }

  lemma QuotientIs(d: real, s: real, t: real)
    requires s != 0.0 && t * s == d
    ensures d / s == t
  {
  }

  lemma Cancels(c: real, d: real, s: real, d': real, s': real)
    requires s != 0.0 && d' == c * d && s' == c * s && s' != 0.0
    ensures d' / s' == d / s
  {
    var t := d / s;
    assert t * s == d;
    TimesSame(c, t * s, d);
    assert t * s' == c * (t * s);
    QuotientIs(d', s', t);
  }

  lemma ProductScales(c: real, x: real, y: real, x': real)
    requires x' == c * (c * x)
    ensures x' * y == c * (c * (x * y))
  {
  }

  lemma AngleScales(sqrt: real -> real, c: real, dot: real, magA: real, magB: real, dot': real, magA': real)
    requires IsSqrt(sqrt) && c > 0.0 && magA >= 0.0 && magB >= 0.0 && dot' == c * dot && magA' == c * (c * magA)
    ensures Angle(sqrt, dot', magA', magB) == Angle(sqrt, dot, magA, magB)
  {
    if magA > 0.0 && magB > 0.0 {
      Product(c, magA);
      Product(c, c * magA);
      Product(magA, magB);
      ProductScales(c, magA, magB, magA');
      SameQuotient(sqrt, c, dot, magA * magB, dot', magA' * magB);
      AnglesAgree(sqrt, dot, magA, magB, dot', magA', magA * magB, magA' * magB);
    }
  }

  lemma AnglesAgree(sqrt: real -> real, dot: real, magA: real, magB: real, dot': real, magA': real, ab: real, ab': real)
    requires magA > 0.0 && magA' > 0.0 && magB > 0.0 && ab == magA * magB && ab' == magA' * magB
    requires sqrt(ab) > 0.0 && sqrt(ab') > 0.0 && dot' / sqrt(ab') == dot / sqrt(ab)
    ensures Angle(sqrt, dot', magA', magB) == Angle(sqrt, dot, magA, magB)
  {
  }

  lemma SameQuotient(sqrt: real -> real, c: real, dot: real, ab: real, dot': real, ab': real)
    requires IsSqrt(sqrt) && c > 0.0 && ab > 0.0 && dot' == c * dot && ab' == c * (c * ab)
    ensures sqrt(ab) > 0.0 && sqrt(ab') > 0.0 && dot' / sqrt(ab') == dot / sqrt(ab)
  {
    RootOfPositive(sqrt, ab);
    RootScales(sqrt, c, ab, ab');
    Product(c, sqrt(ab));
    Cancels(c, dot, sqrt(ab), dot', sqrt(ab'));
  }

  /** Only direction counts: making a query longer changes no score. */
  lemma LengthDoesNotMatter(sqrt: real -> real, c: real, a: Vector, r: Vector, b: Vector)
    requires IsSqrt(sqrt) && c > 0.0 && IsScaled(c, a, r)
    ensures Cosine(sqrt, r, b) == Cosine(sqrt, a, b)
  {
    if |a| == |b| && |a| > 0 {
      MagnitudeNotNegative(a, |a|);
      MagnitudeNotNegative(b, |b|);
      MagnitudeScales(c, a, r);
      DotScales(c, a, r, b, |a|);
      AngleScales(sqrt, c, Dot(a, b, |a|), Dot(a, a, |a|), Dot(b, b, |b|), Dot(r, b, |a|), Dot(r, r, |a|));
    }
  }
}
