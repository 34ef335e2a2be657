/** The affine chord rule (section 2.2.1 of SEC 1) on y^2 = x^3 + 7, and the Jacobian addition that refines it. */
module Curve {
  import opened ModArith
  import opened Field

  /** Affine coordinates of a public key, both reduced modulo the field prime. */
  datatype Point = Point(x: int, y: int)

  predicate Reduced(a: Point, p: int) {
    0 <= a.x < p && 0 <= a.y < p
  }

  ghost predicate OnCurve(a: Point, p: int)
    requires p > 0
  {
    Cong(a.y * a.y, a.x * a.x * a.x + 7, p)
  }

  ghost function Slope(a: Point, b: Point, p: int): int
    requires IsPrime(p)
  {
    (b.y - a.y) * Inverse(b.x - a.x, p)
  }

  /** The sum of two points with distinct abscissas. */
  ghost function Chord(a: Point, b: Point, p: int): (c: Point)
    requires IsPrime(p)
    ensures Reduced(c, p)
  {
    var l := Slope(a, b, p);
    var x := (l * l - a.x - b.x) % p;
    Point(x, (l * (a.x - x) - a.y) % p)
  }

  lemma SlopeIsQuotient(a: Point, b: Point, p: int)
    requires IsPrime(p) && (b.x - a.x) % p != 0
    ensures Cong(Slope(a, b, p) * (b.x - a.x), b.y - a.y, p)
  {
    var i := Inverse(b.x - a.x, p);
    CongMul(b.y - a.y, b.y - a.y, i * (b.x - a.x), 1, p);
    assert Slope(a, b, p) * (b.x - a.x) == (b.y - a.y) * (i * (b.x - a.x));
  }

  /** A linear form that vanishes at two points of distinct residue vanishes everywhere. */
  lemma LinearForm(m: int, n: int, s: int, t: int, z: int, p: int)
    requires IsPrime(p) && (t - s) % p != 0
    requires Cong(m * s + n, 0, p) && Cong(m * t + n, 0, p)
    ensures Cong(m * z + n, 0, p)
  {
    CongAdd(m * t + n, 0, m * s + n, 0, p);
    assert (m * t + n) - (m * s + n) == (t - s) * m;
    Cancel(t - s, m, 0, p);
    CongMul(m, 0, z - s, z - s, p);
    CongAdd(m * (z - s), 0, m * s + n, 0, p);
    assert m * (z - s) + (m * s + n) == m * z + n;
  }

  /** Subtracting the cubic with the three given roots from the line's square leaves a linear form. */
  lemma CubicSplits(l: int, u: int, s: int, t: int, w: int, z: int)
    requires w == l * l - s - t
    ensures (l * z + u) * (l * z + u) - z * z * z - 7 + (z - s) * (z - t) * (z - w)
         == (2 * l * u + s * t + s * w + t * w) * z + (u * u - 7 - s * t * w)
  {
    var z2 := z * z;
    assert (l * z + u) * (l * z + u) == l * l * z2 + 2 * l * u * z + u * u;
    assert (z - s) * (z - t) == z2 - (s + t) * z + s * t;
    assert (z2 - (s + t) * z + s * t) * (z - w)
        == z2 * z - (s + t + w) * z2 + (s * t + (s + t) * w) * z - s * t * w;
    assert (s + t + w) * z2 == l * l * z2;
    assert (s + t) * w == s * w + t * w;
  }

  /** Where the line through a meets the curve, its own linear remainder vanishes. */
  lemma RemainderAtRoot(l: int, u: int, s: int, t: int, w: int, z: int, y: int, p: int)
    requires p > 0 && w == l * l - s - t && (z == s || z == t)
    requires Cong(l * z + u, y, p) && Cong(y * y, z * z * z + 7, p)
    ensures Cong((2 * l * u + s * t + s * w + t * w) * z + (u * u - 7 - s * t * w), 0, p)
  {
    CubicSplits(l, u, s, t, w, z);
    assert (z - s) * (z - t) * (z - w) == 0;
    CongMul(l * z + u, y, l * z + u, y, p);
    CongDiff((l * z + u) * (l * z + u), z * z * z + 7, p);
  }

  /** The chord rule stays on the curve. */
  lemma ChordOnCurve(a: Point, b: Point, p: int)
    requires IsPrime(p) && (b.x - a.x) % p != 0
    requires OnCurve(a, p) && OnCurve(b, p)
    ensures OnCurve(Chord(a, b, p), p)
  {
    var c := Chord(a, b, p);
    var l := Slope(a, b, p);
    var w := l * l - a.x - b.x;
    var u := a.y - l * a.x;
    SlopeIsQuotient(a, b, p);
    CongAdd(l * (b.x - a.x), b.y - a.y, a.y, a.y, p);
    assert l * b.x + u == l * (b.x - a.x) + a.y;
    RemainderAtRoot(l, u, a.x, b.x, w, a.x, a.y, p);
    RemainderAtRoot(l, u, a.x, b.x, w, b.x, b.y, p);
    LinearForm(2 * l * u + a.x * b.x + a.x * w + b.x * w, u * u - 7 - a.x * b.x * w, a.x, b.x, w, p);
    CubicSplits(l, u, a.x, b.x, w, w);
    assert (w - a.x) * (w - b.x) * (w - w) == 0;
    CongDiff((l * w + u) * (l * w + u), w * w * w + 7, p);
    ThirdPoint(c, a, l, u, w, p);
  }

  /** The chord's result is the reflection of the third intersection point, up to reduction. */
  lemma ThirdPoint(c: Point, a: Point, l: int, u: int, w: int, p: int)
    requires p > 0 && u == a.y - l * a.x
    requires c == Point(w % p, (l * (a.x - w % p) - a.y) % p)
    requires Cong((l * w + u) * (l * w + u), w * w * w + 7, p)
    ensures OnCurve(c, p)
  {
    CongMod(w, p);
    CongMod(l * (a.x - c.x) - a.y, p);
    CongMul(l, l, c.x, w, p);
    CongAdd(-u, -u, l * c.x, l * w, p);
    assert l * (a.x - c.x) - a.y == -u - l * c.x;
    assert Cong(c.y, -(l * w + u), p);
    CongMul(c.y, -(l * w + u), c.y, -(l * w + u), p);
    assert -(l * w + u) * -(l * w + u) == (l * w + u) * (l * w + u);
    CongMul(c.x, w, c.x, w, p);
    CongMul(c.x * c.x, w * w, c.x, w, p);
    CongAdd(c.x * c.x * c.x, w * w * w, 7, 7, p);
  }

  /** The chord rule is symmetric in its operands. */
  lemma ChordCommutes(a: Point, b: Point, p: int)
    requires IsPrime(p) && (b.x - a.x) % p != 0
    ensures Chord(a, b, p) == Chord(b, a, p)
  {
    var l, m := Slope(a, b, p), Slope(b, a, p);
    var d := b.x - a.x;
    ModUnique(0, p, 0, 0);
    CongDiff(d, 0, p);
    if (a.x - b.x) % p == 0 {
      CongAdd(0, 0, a.x - b.x, 0, p);
      assert false;
    }
    SlopeIsQuotient(a, b, p);
    SlopeIsQuotient(b, a, p);
    CongAdd(0, 0, m * (a.x - b.x), a.y - b.y, p);
    assert m * d == 0 - m * (a.x - b.x);
    assert l * d == d * l && m * d == d * m;
    Cancel(d, l, m, p);
    CongMul(l, m, l, m, p);
    CongAdd(l * l, m * m, a.x + b.x, a.x + b.x, p);
    var x := Chord(a, b, p).x;
    assert Chord(b, a, p).x == x;
    CongMul(l, m, b.x - x, b.x - x, p);
    CongAdd(l * d, b.y - a.y, -b.y, -b.y, p);
    assert l * (b.x - x) == l * d + l * (a.x - x);
    CongAdd(l * (b.x - x), m * (b.x - x), b.y, b.y, p);
    CongAdd(l * d, b.y - a.y, l * (a.x - x) - b.y, l * (a.x - x) - b.y, p);
  }

  // ---------------------------------------------------------------------------------------------
  // Jacobian coordinates: (X, Y, Z) with Z != 0 stands for (X / Z^2, Y / Z^3).

  ghost predicate Represents(X: int, Y: int, Z: int, a: Point, p: int)
    requires p > 0
  {
    Z % p != 0 && Cong(a.x * (Z * Z), X, p) && Cong(a.y * (Z * Z * Z), Y, p)
  }

  lemma CongSquareCube(a: int, b: int, p: int)
    requires p > 0 && Cong(a, b, p)
    ensures Cong(a * a, b * b, p) && Cong(a * a * a, b * b * b, p)
  {
    CongMul(a, b, a, b, p);
    CongMul(a * a, b * b, a, b, p);
  }

  lemma SixthPower(x: int, y: int, Z: int, w: int, c: int, k: int)
    requires w == Z * Z && c == Z * Z * Z && k == c * c
    ensures (y * c) * (y * c) == k * (y * y)
    ensures (x * w) * (x * w) * (x * w) == k * (x * x * x)
  {
    assert w * w * w == k by {
      assert (Z * Z) * (Z * Z) * (Z * Z) == (Z * Z * Z) * (Z * Z * Z);
    }
    assert (x * w) * (x * w) * (x * w) == (w * w * w) * (x * x * x);
  }

  /** Y^2 = X^3 + 7 Z^6 */
  ghost predicate OnJacobianCurve(X: int, Y: int, Z: int, p: int)
    requires p > 0
  {
    Cong(Y * Y, X * X * X + 7 * ((Z * Z * Z) * (Z * Z * Z)), p)
  }

  /** A triple satisfies the equation exactly when the point it stands for is on the curve. */
  lemma JacobianOnCurve(X: int, Y: int, Z: int, a: Point, p: int)
    requires IsPrime(p) && Represents(X, Y, Z, a, p)
    ensures OnJacobianCurve(X, Y, Z, p) <==> OnCurve(a, p)
  {
    var w, c := Z * Z, Z * Z * Z;
    var k := c * c;
    SixthPower(a.x, a.y, Z, w, c, k);
    CongSquareCube(a.y * c, Y, p);
    CongSquareCube(a.x * w, X, p);
    CongAdd(k * (a.x * a.x * a.x), X * X * X, 7 * k, 7 * k, p);
    assert k * (a.x * a.x * a.x) + 7 * k == k * (a.x * a.x * a.x + 7);
    ProductNonzero(Z, Z, p);
    ProductNonzero(w, Z, p);
    ProductNonzero(c, c, p);
    Cancel(k, a.y * a.y, a.x * a.x * a.x + 7, p);
  }

  /** Multiplying by the inverse of a scale factor undoes the scaling. */
  lemma Unscale(v: int, w: int, scaled: int, j: int, p: int)
    requires p > 0 && Cong(v * w, scaled, p) && Cong(w * j, 1, p)
    ensures Cong(scaled * j, v, p)
  {
    CongMul(v * w, scaled, j, j, p);
    CongMul(v, v, w * j, 1, p);
    assert v * w * j == v * (w * j);
  }

  lemma InverseOfProduct(a: int, i: int, b: int, j: int, p: int)
    requires p > 0 && Cong(a * i, 1, p) && Cong(b * j, 1, p)
    ensures Cong((a * b) * (i * j), 1, p)
  {
    CongMul(a * i, 1, b * j, 1, p);
    assert (a * i) * (b * j) == (a * b) * (i * j);
  }

  /** Every triple with Z != 0 stands for a point. */
  lemma StandsForPoint(X: int, Y: int, Z: int, p: int) returns (a: Point)
    requires IsPrime(p) && Z % p != 0
    ensures Reduced(a, p) && Represents(X, Y, Z, a, p)
  {
    InverseExists(Z, p);
    var i := Inverse(Z, p);
    a := Point((X * (i * i)) % p, (Y * (i * (i * i))) % p);
    assert i * Z == Z * i;
    InverseOfProduct(Z, i, Z, i, p);
    InverseOfProduct(Z, i, Z * Z, i * i, p);
    ScaledBack(X, Z * Z, i * i, p);
    assert Z * (Z * Z) == Z * Z * Z;
    ScaledBack(Y, Z * Z * Z, i * (i * i), p);
  }

  lemma ScaledBack(v: int, w: int, j: int, p: int)
    requires p > 0 && Cong(w * j, 1, p)
    ensures Cong(((v * j) % p) * w, v, p)
  {
    CongMod(v * j, p);
    CongMul((v * j) % p, v * j, w, w, p);
    CongMul(v, v, w * j, 1, p);
    assert v * j * w == v * (w * j);
  }

  /** Scaling back by any inverse of Z recovers the point. */
  lemma ToAffineRecovers(X: int, Y: int, Z: int, a: Point, i: int, p: int)
    requires IsPrime(p) && Represents(X, Y, Z, a, p) && IsInverse(i, Z, p)
    ensures Cong(X * (i * i), a.x, p) && Cong(Y * (i * (i * i)), a.y, p)
  {
    assert i * Z == Z * i;
    InverseOfProduct(Z, i, Z, i, p);
    InverseOfProduct(Z, i, Z * Z, i * i, p);
    Unscale(a.x, Z * Z, X, i * i, p);
    assert Z * (Z * Z) == Z * Z * Z;
    Unscale(a.y, Z * Z * Z, Y, i * (i * i), p);
  }
}
