/** aggregatePublicKeys: a Jacobian accumulator that adds one affine key after the other. */
module Aggregation {
  import opened ModArith
  import opened Field
  import opened Curve

  datatype Triple = Triple(X: int, Y: int, Z: int)

  /** The mixed addition as polynomials over the integers, reduced at the end. */
  function MixedSum(t: Triple, b: Point, p: int): Triple
    requires p > 0
  {
    var h := b.x * (t.Z * t.Z) - t.X;
    var r := 2 * (b.y * (t.Z * t.Z * t.Z) - t.Y);
    var i := 4 * (h * h);
    var v, j := t.X * i, h * i;
    var x := r * r - j - 2 * v;
    Triple(x % p, (r * (v - x) - 2 * (t.Y * j)) % p, (2 * t.Z * h) % p)
  }

  /** The differences of the mixed addition, expressed by the slope l of the chord and s == 2 Z^3 d. */
  lemma ScaledDifferences(X: int, Y: int, Z: int, a: Point, b: Point, l: int, h: int, r: int, p: int)
    requires p > 0 && Cong(a.x * (Z * Z), X, p) && Cong(a.y * (Z * Z * Z), Y, p)
    requires Cong(l * (b.x - a.x), b.y - a.y, p)
    requires Cong(h, b.x * (Z * Z) - X, p) && Cong(r, 2 * (b.y * (Z * Z * Z) - Y), p)
    ensures var d := b.x - a.x;
      && Cong(h, Z * Z * d, p)
      && Cong(2 * Z * h, 2 * (Z * Z * Z) * d, p)
      && Cong(r, 2 * (Z * Z * Z) * d * l, p)
  {
    var w, c := Z * Z, Z * Z * Z;
    var d := b.x - a.x;
    CongAdd(b.x * w, b.x * w, a.x * w, X, p);
    assert b.x * w - a.x * w == w * d;
    CongMul(2 * Z, 2 * Z, h, w * d, p);
    assert 2 * Z * (w * d) == 2 * c * d by {
      assert Z * w == c;
      assert 2 * Z * (w * d) == 2 * (Z * w) * d;
    }
    CongAdd(b.y * c, b.y * c, a.y * c, Y, p);
    assert b.y * c - a.y * c == c * (b.y - a.y);
    CongMul(2, 2, b.y * c - Y, c * (b.y - a.y), p);
    CongMul(2 * c, 2 * c, l * d, b.y - a.y, p);
    assert 2 * (c * (b.y - a.y)) == 2 * c * (b.y - a.y);
    assert 2 * c * (l * d) == 2 * c * d * l;
  }

  lemma ScaledProductsIdentity(Z: int, w: int, g: int, d: int, x: int, s: int)
    requires w == Z * Z && g == w * d && s == 2 * (Z * Z * Z) * d
    ensures x * w * (4 * (g * g)) == s * s * x
    ensures g * (4 * (g * g)) == s * s * d
  {
    var q := g * g;
    assert s == 2 * (Z * g) by {
      assert Z * Z * Z * d == Z * (w * d);
    }
    assert s * s == 4 * (w * q) by {
      assert (2 * (Z * g)) * (2 * (Z * g)) == 4 * ((Z * Z) * (g * g));
    }
    assert x * w * (4 * q) == 4 * (w * q) * x;
    assert w * d * (4 * q) == 4 * (w * q) * d;
  }

  /** v and j are the abscissa and the difference, each scaled by s^2. */
  lemma ScaledProducts(X: int, Z: int, a: Point, d: int, h: int, v: int, j: int, s: int, p: int)
    requires p > 0 && Cong(a.x * (Z * Z), X, p) && Cong(h, Z * Z * d, p) && s == 2 * (Z * Z * Z) * d
    requires v == X * (4 * (h * h)) && j == h * (4 * (h * h))
    ensures Cong(v, s * s * a.x, p) && Cong(j, s * s * d, p)
  {
    var w := Z * Z;
    var g := w * d;
    ScaledProductsIdentity(Z, w, g, d, a.x, s);
    CongMul(h, g, h, g, p);
    CongMul(4, 4, h * h, g * g, p);
    CongMul(X, a.x * w, 4 * (h * h), 4 * (g * g), p);
    CongMul(h, g, 4 * (h * h), 4 * (g * g), p);
  }

  lemma AbscissaIdentity(s: int, l: int, q: int, x: int, d: int)
    requires q == s * s
    ensures (s * l) * (s * l) - q * d - 2 * (q * x) == q * (l * l - d - 2 * x)
  {
    assert (s * l) * (s * l) == q * (l * l);
  }

  /** The new abscissa is the chord's, scaled by s^2. */
  lemma ScaledAbscissa(a: Point, b: Point, l: int, r: int, v: int, j: int, s: int, x: int, p: int)
    requires p > 0 && Cong(r, s * l, p)
    requires Cong(v, s * s * a.x, p) && Cong(j, s * s * (b.x - a.x), p)
    requires Cong(x, l * l - a.x - b.x, p)
    ensures Cong(r * r - j - 2 * v, s * s * x, p)
  {
    var d, q := b.x - a.x, s * s;
    CongMul(r, s * l, r, s * l, p);
    CongMul(2, 2, v, q * a.x, p);
    CongAdd(r * r, (s * l) * (s * l), j, q * d, p);
    CongAdd(r * r - j, (s * l) * (s * l) - q * d, 2 * v, 2 * (q * a.x), p);
    AbscissaIdentity(s, l, q, a.x, d);
    CongMul(q, q, l * l - a.x - b.x, x, p);
  }

  lemma OrdinateIdentity(s: int, l: int, q: int, x: int, m: int, y: int, c: int, d: int)
    requires q == s * s && s == 2 * c * d
    ensures s * l * (q * x - q * m) - 2 * (y * c * (q * d)) == s * s * s * (l * (x - m) - y)
  {
    var k := x - m;
    assert q * x - q * m == q * k;
    assert s * l * (q * k) == q * s * (l * k);
    assert 2 * (y * c * (q * d)) == q * (2 * c * d) * y;
    assert q * s * (l * k) - q * s * y == q * s * (l * k - y);
  }

  /** The new ordinate is the chord's, scaled by s^3. */
  lemma ScaledOrdinate(Y: int, Z: int, a: Point, d: int, l: int, r: int, v: int, j: int, s: int, X3: int, x: int,
                       p: int)
    requires p > 0 && s == 2 * (Z * Z * Z) * d
    requires Cong(a.y * (Z * Z * Z), Y, p) && Cong(r, s * l, p)
    requires Cong(v, s * s * a.x, p) && Cong(j, s * s * d, p) && Cong(X3, s * s * x, p)
    ensures Cong(r * (v - X3) - 2 * (Y * j), s * s * s * (l * (a.x - x) - a.y), p)
  {
    var c, q := Z * Z * Z, s * s;
    CongAdd(v, q * a.x, X3, q * x, p);
    CongMul(r, s * l, v - X3, q * a.x - q * x, p);
    CongMul(Y, a.y * c, j, q * d, p);
    CongMul(2, 2, Y * j, a.y * c * (q * d), p);
    CongAdd(r * (v - X3), s * l * (q * a.x - q * x), 2 * (Y * j), 2 * (a.y * c * (q * d)), p);
    OrdinateIdentity(s, l, q, a.x, x, a.y, c, d);
  }

  /** The mixed addition refines the chord rule whenever the abscissas differ. */
  lemma MixedSumIsChord(t: Triple, a: Point, b: Point, p: int)
    requires IsPrime(p) && p > 2 && Represents(t.X, t.Y, t.Z, a, p) && (b.x - a.x) % p != 0
    ensures var u := MixedSum(t, b, p); Represents(u.X, u.Y, u.Z, Chord(a, b, p), p)
  {
    var u := MixedSum(t, b, p);
    var h := b.x * (t.Z * t.Z) - t.X;
    var r := 2 * (b.y * (t.Z * t.Z * t.Z) - t.Y);
    var i := 4 * (h * h);
    var v, j := t.X * i, h * i;
    var x := r * r - j - 2 * v;
    var l, d := Slope(a, b, p), b.x - a.x;
    var s := 2 * (t.Z * t.Z * t.Z) * d;
    var c := Chord(a, b, p);
    SlopeIsQuotient(a, b, p);
    ScaledDifferences(t.X, t.Y, t.Z, a, b, l, h, r, p);
    ScaledProducts(t.X, t.Z, a, d, h, v, j, s, p);
    CongMod(l * l - a.x - b.x, p);
    ScaledAbscissa(a, b, l, r, v, j, s, c.x, p);
    ScaledOrdinate(t.Y, t.Z, a, d, l, r, v, j, s, x, c.x, p);
    var y := l * (a.x - c.x) - a.y;
    ScaleNonzero(t.Z, d, p);
    CongMod(y, p);
    CongMod(x, p);
    CongMod(2 * t.Z * h, p);
    CongMod(r * (v - x) - 2 * (t.Y * j), p);
    Rescale(s, u.Z, c, u.X, u.Y, y, p);
  }

  /** The key does not share the abscissa of what the triple stands for. */
  ghost predicate IsApart(t: Triple, b: Point, p: int)
    requires p > 0
  {
    t.Z % p != 0 && !Cong(b.x * (t.Z * t.Z), t.X, p)
  }

  /** The mixed addition keeps Y^2 = X^3 + 7 Z^6, for every triple and every key on the curve. */
  lemma MixedSumOnCurve(t: Triple, b: Point, p: int)
    requires IsPrime(p) && p > 2 && IsApart(t, b, p)
    requires OnJacobianCurve(t.X, t.Y, t.Z, p) && OnCurve(b, p)
    ensures var u := MixedSum(t, b, p); u.Z % p != 0 && OnJacobianCurve(u.X, u.Y, u.Z, p)
  {
    var a := StandsForPoint(t.X, t.Y, t.Z, p);
    var u := MixedSum(t, b, p);
    if (b.x - a.x) % p == 0 {
      ModUnique(0, p, 0, 0);
      CongDiff(b.x, a.x, p);
      CongMul(b.x, a.x, t.Z * t.Z, t.Z * t.Z, p);
    }
    JacobianOnCurve(t.X, t.Y, t.Z, a, p);
    MixedSumIsChord(t, a, b, p);
    ChordOnCurve(a, b, p);
    JacobianOnCurve(u.X, u.Y, u.Z, Chord(a, b, p), p);
  }

  lemma ScaleNonzero(Z: int, d: int, p: int)
    requires IsPrime(p) && p > 2 && Z % p != 0 && d % p != 0
    ensures (2 * (Z * Z * Z) * d) % p != 0
  {
    ModUnique(2, p, 0, 2);
    ProductNonzero(Z, Z, p);
    ProductNonzero(Z * Z, Z, p);
    ProductNonzero(2, Z * Z * Z, p);
    ProductNonzero(2 * (Z * Z * Z), d, p);
  }

  lemma Rescale(s: int, Z3: int, c: Point, X3: int, Y3: int, y: int, p: int)
    requires p > 0 && s % p != 0 && Cong(Z3, s, p) && Cong(c.y, y, p)
    requires Cong(X3, s * s * c.x, p) && Cong(Y3, s * s * s * y, p)
    ensures Represents(X3, Y3, Z3, c, p)
  {
    CongSquareCube(Z3, s, p);
    CongMul(c.x, c.x, Z3 * Z3, s * s, p);
    CongMul(c.y, y, Z3 * Z3 * Z3, s * s * s, p);
    assert c.x * (s * s) == s * s * c.x;
    assert y * (s * s * s) == s * s * s * y;
  }

  /** With equal abscissas, or from a triple with Z = 0, the mixed addition collapses to Z = 0. */
  lemma MixedSumCollapses(t: Triple, b: Point, p: int)
    requires p > 0
    requires t.Z % p == 0 || Cong(b.x * (t.Z * t.Z), t.X, p)
    ensures MixedSum(t, b, p).Z == 0
  {
    var h := b.x * (t.Z * t.Z) - t.X;
    ModUnique(0, p, 0, 0);
    if t.Z % p == 0 {
      CongMul(t.Z, 0, 2 * h, 2 * h, p);
      assert t.Z * (2 * h) == 2 * t.Z * h;
    } else {
      CongDiff(b.x * (t.Z * t.Z), t.X, p);
      CongMul(2 * t.Z, 2 * t.Z, h, 0, p);
    }
  }

  /** What the mixed addition keeps, and when it collapses. */
  lemma SumIsKept(t: Triple, b: Point, p: int)
    requires IsPrime(p) && p > 0
    ensures var u := MixedSum(t, b, p);
      && (p > 2 && IsApart(t, b, p) && OnJacobianCurve(t.X, t.Y, t.Z, p) && OnCurve(b, p) ==>
            u.Z != 0 && OnJacobianCurve(u.X, u.Y, u.Z, p))
      && (t.Z == 0 || Cong(b.x * (t.Z * t.Z), t.X, p) ==> u.Z == 0)
  {
    ModUnique(0, p, 0, 0);
    if p > 2 && IsApart(t, b, p) && OnJacobianCurve(t.X, t.Y, t.Z, p) && OnCurve(b, p) {
      MixedSumOnCurve(t, b, p);
    }
    if t.Z == 0 || Cong(b.x * (t.Z * t.Z), t.X, p) {
      MixedSumCollapses(t, b, p);
    }
  }

  /** Three field elements that AddAffinePoint overwrites in place. */
  class JacobianPoint {
    var X: int
    var Y: int
    var Z: int

    ghost predicate Valid(p: int)
      reads this
    {
      0 <= X < p && 0 <= Y < p && 0 <= Z < p
    }

    /** A key enters with Z = 1. */
    constructor (key: Point)
      ensures X == key.x && Y == key.y && Z == 1
    {
      X, Y, Z := key.x, key.y, 1;
    }

    ghost function Value(): Triple
      reads this
    {
      Triple(X, Y, Z)
    }

    method AddAffinePoint(key: Point, p: int)
      requires IsPrime(p) && Valid(p)
      modifies this
      ensures Valid(p)
      ensures Value() == MixedSum(old(Value()), key, p)
      ensures p > 2 && IsApart(old(Value()), key, p) && old(OnJacobianCurve(X, Y, Z, p)) && OnCurve(key, p) ==>
        Z != 0 && OnJacobianCurve(X, Y, Z, p)
      ensures old(Z) == 0 || Cong(key.x * (old(Z) * old(Z)), old(X), p) ==> Z == 0
    {
      var x1, y1, z1 := X, Y, Z;
      var z1_2 := Mulmod(z1, z1, p);
      var h := Addmod(Mulmod(key.x, z1_2, p), p - x1, p);
      var h_2 := Mulmod(h, h, p);
      var i := Mulmod(4, h_2, p);
      var left := Mulmod(Addmod(z1, h, p), Addmod(z1, h, p), p);
      var mid := p - z1_2;
      var right := p - h_2;
      var z := Addmod(left, Addmod(mid, right, p), p);
      var v := Mulmod(x1, i, p);
      var j := Mulmod(h, i, p);
      var r := Mulmod(2, Addmod(Mulmod(key.y, Mulmod(z1_2, z1, p), p), p - y1, p), p);
      var r_2 := Mulmod(r, r, p);
      mid := p - j;
      right := p - Mulmod(2, v, p);
      var x := Addmod(r_2, Addmod(mid, right, p), p);
      left := Mulmod(r, Addmod(v, p - x, p), p);
      right := p - Mulmod(2, Mulmod(y1, j, p), p);
      var y := Addmod(left, right, p);
      StepDifferences(Value(), key, h, r, p);
      StepProducts(x1, z1, h, key.x * (z1 * z1) - x1, v, j, z, p);
      StepSums(r, v, j, y1, x, y, p);
      StepsAgree(Value(), key, h, r, v, j, x, y, z, p);
      SumIsKept(Value(), key, p);
      X, Y, Z := x, y, z;
    }

    /** toAffine. Without an inverse of Z the result is the pair (0, 0). */
    method ToAffine(p: int) returns (a: Point)
      requires IsPrime(p) && Valid(p)
      ensures Reduced(a, p)
      ensures forall b | Reduced(b, p) && Represents(X, Y, Z, b, p) :: a == b
      ensures Z == 0 ==> a == Point(0, 0)
    {
      var z := new BigInt(Z);
      var zInv := InvMod(z, p);
      var zInv_2 := Mulmod(zInv, zInv, p);
      var zInv_3 := Mulmod(zInv, zInv_2, p);
      CongMul(zInv, zInv, zInv_2, zInv * zInv, p);
      CongMul(X, X, zInv_2, zInv * zInv, p);
      CongMul(Y, Y, zInv_3, zInv * (zInv * zInv), p);
      a := Point(Mulmod(X, zInv_2, p), Mulmod(Y, zInv_3, p));
      ModUnique(0, p, 0, 0);
      forall b | Reduced(b, p) && Represents(X, Y, Z, b, p) ensures a == b {
        ToAffineRecovers(X, Y, Z, b, zInv, p);
        ModUnique(b.x, p, 0, b.x);
        ModUnique(b.y, p, 0, b.y);
        ModUnique(a.x, p, 0, a.x);
        ModUnique(a.y, p, 0, a.y);
      }
    }
  }

  /** Adding p - b is subtracting b. */
  lemma SubStep(a: int, av: int, b: int, bv: int, p: int)
    requires p > 0 && Cong(a, av, p) && Cong(b, bv, p)
    ensures Cong(Addmod(a, p - b, p), av - bv, p)
  {
    CongAdd(a, av, b, bv, p);
    assert a + (p - b) == (a - b) + p * 1;
    ModShift(a - b, 1, p);
  }

  lemma TwoSubsStep(a: int, av: int, b: int, bv: int, c: int, cv: int, p: int)
    requires p > 0 && Cong(a, av, p) && Cong(b, bv, p) && Cong(c, cv, p)
    ensures Cong(Addmod(a, Addmod(p - b, p - c, p), p), av - bv - cv, p)
  {
    CongAdd(a, a, Addmod(p - b, p - c, p), (p - b) + (p - c), p);
    assert a + ((p - b) + (p - c)) == (a - b - c) + p * 2;
    ModShift(a - b - c, 2, p);
    CongAdd(a, av, b, bv, p);
    CongAdd(a - b, av - bv, c, cv, p);
  }

  /** The reduced h and r are the polynomial ones. */
  lemma StepDifferences(t: Triple, key: Point, h: int, r: int, p: int)
    requires p > 0
    requires h == Addmod(Mulmod(key.x, Mulmod(t.Z, t.Z, p), p), p - t.X, p)
    requires r == Mulmod(2, Addmod(Mulmod(key.y, Mulmod(Mulmod(t.Z, t.Z, p), t.Z, p), p), p - t.Y, p), p)
    ensures Cong(h, key.x * (t.Z * t.Z) - t.X, p)
    ensures Cong(r, 2 * (key.y * (t.Z * t.Z * t.Z) - t.Y), p)
  {
    var w := Mulmod(t.Z, t.Z, p);
    var c := Mulmod(w, t.Z, p);
    CongMul(w, t.Z * t.Z, t.Z, t.Z, p);
    CongMul(key.x, key.x, w, t.Z * t.Z, p);
    SubStep(Mulmod(key.x, w, p), key.x * (t.Z * t.Z), t.X, t.X, p);
    CongMul(key.y, key.y, c, t.Z * t.Z * t.Z, p);
    SubStep(Mulmod(key.y, c, p), key.y * (t.Z * t.Z * t.Z), t.Y, t.Y, p);
    CongMul(2, 2, Addmod(Mulmod(key.y, c, p), p - t.Y, p), key.y * (t.Z * t.Z * t.Z) - t.Y, p);
  }

  /** v, j and the new Z from any h congruent to hv; (z + h)^2 - z^2 - h^2 is the doubled product. */
  lemma StepProducts(x: int, z: int, h: int, hv: int, v: int, j: int, z3: int, p: int)
    requires p > 0 && Cong(h, hv, p)
    requires var i := Mulmod(4, Mulmod(h, h, p), p); v == Mulmod(x, i, p) && j == Mulmod(h, i, p)
    requires z3 == Addmod(Mulmod(Addmod(z, h, p), Addmod(z, h, p), p),
                          Addmod(p - Mulmod(z, z, p), p - Mulmod(h, h, p), p), p)
    ensures Cong(v, x * (4 * (hv * hv)), p) && Cong(j, hv * (4 * (hv * hv)), p) && Cong(z3, 2 * z * hv, p)
  {
    var q := Mulmod(h, h, p);
    var i := Mulmod(4, q, p);
    CongMul(h, hv, h, hv, p);
    CongMul(4, 4, q, hv * hv, p);
    CongMul(x, x, i, 4 * (hv * hv), p);
    CongMul(h, hv, i, 4 * (hv * hv), p);
    var m := Addmod(z, h, p);
    CongAdd(z, z, h, hv, p);
    CongMul(m, z + hv, m, z + hv, p);
    TwoSubsStep(Mulmod(m, m, p), (z + hv) * (z + hv), Mulmod(z, z, p), z * z, q, hv * hv, p);
    assert (z + hv) * (z + hv) - z * z - hv * hv == 2 * z * hv;
  }

  /** The new X and Y from r, v and j. */
  lemma StepSums(r: int, v: int, j: int, y1: int, x: int, y: int, p: int)
    requires p > 0
    requires x == Addmod(Mulmod(r, r, p), Addmod(p - j, p - Mulmod(2, v, p), p), p)
    requires y == Addmod(Mulmod(r, Addmod(v, p - x, p), p), p - Mulmod(2, Mulmod(y1, j, p), p), p)
    ensures Cong(x, r * r - j - 2 * v, p) && Cong(y, r * (v - x) - 2 * (y1 * j), p)
  {
    TwoSubsStep(Mulmod(r, r, p), r * r, j, j, Mulmod(2, v, p), 2 * v, p);
    SubStep(v, v, x, x, p);
    CongMul(r, r, Addmod(v, p - x, p), v - x, p);
    CongMul(2, 2, Mulmod(y1, j, p), y1 * j, p);
    SubStep(Mulmod(r, Addmod(v, p - x, p), p), r * (v - x), Mulmod(2, Mulmod(y1, j, p), p), 2 * (y1 * j), p);
  }

  /** Reducing after every step or once at the end is the same. */
  lemma StepsAgree(t: Triple, key: Point, h: int, r: int, v: int, j: int, x: int, y: int, z: int, p: int)
    requires p > 0 && 0 <= x < p && 0 <= y < p && 0 <= z < p
    requires var hv := key.x * (t.Z * t.Z) - t.X;
      && Cong(v, t.X * (4 * (hv * hv)), p) && Cong(j, hv * (4 * (hv * hv)), p) && Cong(z, 2 * t.Z * hv, p)
    requires Cong(r, 2 * (key.y * (t.Z * t.Z * t.Z) - t.Y), p)
    requires Cong(x, r * r - j - 2 * v, p) && Cong(y, r * (v - x) - 2 * (t.Y * j), p)
    ensures Triple(x, y, z) == MixedSum(t, key, p)
  {
    var hv := key.x * (t.Z * t.Z) - t.X;
    var rv := 2 * (key.y * (t.Z * t.Z * t.Z) - t.Y);
    var vv, jv := t.X * (4 * (hv * hv)), hv * (4 * (hv * hv));
    var xv := rv * rv - jv - 2 * vv;
    CongMul(r, rv, r, rv, p);
    CongMul(2, 2, v, vv, p);
    CongAdd(r * r, rv * rv, j, jv, p);
    CongAdd(r * r - j, rv * rv - jv, 2 * v, 2 * vv, p);
    CongAdd(v, vv, x, xv, p);
    CongMul(r, rv, v - x, vv - xv, p);
    CongMul(t.Y, t.Y, j, jv, p);
    CongMul(2, 2, t.Y * j, t.Y * jv, p);
    CongAdd(r * (v - x), rv * (vv - xv), 2 * (t.Y * j), 2 * (t.Y * jv), p);
    ModUnique(x, p, 0, x);
    ModUnique(y, p, 0, y);
    ModUnique(z, p, 0, z);
  }

  // ---------------------------------------------------------------------------------------------

  /** The left fold of the chord rule over the first n keys. */
  ghost function ChordFold(keys: seq<Point>, n: nat, p: int): Point
    requires IsPrime(p) && 0 < n <= |keys|
  {
    if n == 1 then keys[0] else Chord(ChordFold(keys, n - 1, p), keys[n - 1], p)
  }

  ghost predicate Distinct(a: Point, b: Point, p: int)
    requires p > 0
  {
    (b.x - a.x) % p != 0
  }

  /** Each of the first n keys has another abscissa than the running sum it is added to. */
  ghost predicate Generic(keys: seq<Point>, n: nat, p: int)
    requires IsPrime(p) && 0 < n <= |keys|
  {
    n == 1 || (Generic(keys, n - 1, p) && Distinct(ChordFold(keys, n - 1, p), keys[n - 1], p))
  }

  lemma {:induction false} ChordFoldReduced(keys: seq<Point>, n: nat, p: int)
    requires IsPrime(p) && 0 < n <= |keys| && forall k | k in keys :: Reduced(k, p)
    ensures Reduced(ChordFold(keys, n, p), p)
  {
    if n == 1 {
      assert keys[0] in keys;
    }
  }

  /** The sum of the keys while each addition has a chord; (0, 0), which is no point of the curve, otherwise. */
  ghost function Aggregate(keys: seq<Point>, p: int): Point
    requires IsPrime(p) && keys != []
  {
    if Generic(keys, |keys|, p) then ChordFold(keys, |keys|, p) else Point(0, 0)
  }

  /** Two equal keys at the start have no chord, and then the aggregate is (0, 0), whatever follows. */
  lemma EqualFirstKeysCollapse(keys: seq<Point>, p: int)
    requires IsPrime(p) && |keys| >= 2 && keys[0] == keys[1]
    ensures Aggregate(keys, p) == Point(0, 0)
  {
    ModUnique(0, p, 0, 0);
    assert !Generic(keys, 2, p);
    NeverGenericAgain(keys, 2, |keys|, p);
  }

  lemma {:induction false} NeverGenericAgain(keys: seq<Point>, m: nat, n: nat, p: int)
    requires IsPrime(p) && 0 < m <= n <= |keys| && !Generic(keys, m, p)
    ensures !Generic(keys, n, p)
  {
    if m < n {
      NeverGenericAgain(keys, m, n - 1, p);
    }
  }

  /** If every key lies on the curve, so does every generic sum. */
  lemma {:induction false} FoldOnCurve(keys: seq<Point>, n: nat, p: int)
    requires IsPrime(p) && 0 < n <= |keys| && Generic(keys, n, p)
    requires forall k | k in keys :: OnCurve(k, p)
    ensures OnCurve(ChordFold(keys, n, p), p)
  {
    if n == 1 {
      assert keys[0] in keys;
    } else {
      FoldOnCurve(keys, n - 1, p);
      assert keys[n - 1] in keys;
      ChordOnCurve(ChordFold(keys, n - 1, p), keys[n - 1], p);
    }
  }

  lemma OriginOffCurve(p: int)
    requires IsPrime(p) && p != 7
    ensures !OnCurve(Point(0, 0), p)
  {
    ModUnique(0, p, 0, 0);
    if p > 7 {
      ModUnique(7, p, 0, 7);
    } else {
      assert p == 2 || p == 3 || p == 4 || p == 5 || p == 6;
    }
  }

  /** For keys on the curve, the aggregate is on the curve exactly when every addition had a chord. */
  lemma AggregateOnCurve(keys: seq<Point>, p: int)
    requires IsPrime(p) && p != 7 && keys != [] && forall k | k in keys :: OnCurve(k, p)
    ensures OnCurve(Aggregate(keys, p), p) <==> Generic(keys, |keys|, p)
  {
    if Generic(keys, |keys|, p) {
      FoldOnCurve(keys, |keys|, p);
    } else {
      OriginOffCurve(p);
    }
  }

  /** The accumulator stands for the running sum, or has collapsed for good. */
  ghost predicate Accumulates(t: Triple, keys: seq<Point>, n: nat, p: int)
    requires IsPrime(p) && 0 < n <= |keys|
  {
    if Generic(keys, n, p) then Represents(t.X, t.Y, t.Z, ChordFold(keys, n, p), p) else t.Z == 0
  }

  lemma EqualAbscissaCollapses(t: Triple, a: Point, b: Point, p: int)
    requires p > 0 && Represents(t.X, t.Y, t.Z, a, p) && (b.x - a.x) % p == 0
    ensures MixedSum(t, b, p).Z == 0
  {
    ModUnique(0, p, 0, 0);
    CongDiff(b.x, a.x, p);
    CongMul(b.x, a.x, t.Z * t.Z, t.Z * t.Z, p);
    MixedSumCollapses(t, b, p);
  }

  lemma FoldStep(t: Triple, u: Triple, keys: seq<Point>, n: nat, p: int)
    requires IsPrime(p) && p > 2 && 0 < n < |keys| && Accumulates(t, keys, n, p)
    requires u == MixedSum(t, keys[n], p)
    ensures Accumulates(u, keys, n + 1, p)
  {
    var a := ChordFold(keys, n, p);
    if !Generic(keys, n, p) {
      ModUnique(0, p, 0, 0);
      MixedSumCollapses(t, keys[n], p);
    } else if Distinct(a, keys[n], p) {
      MixedSumIsChord(t, a, keys[n], p);
    } else {
      EqualAbscissaCollapses(t, a, keys[n], p);
    }
  }

  /** aggregatePublicKeys, nil on no keys. */
  method AggregatePublicKeys(keys: seq<Point>, p: int) returns (aggregate: Point, isNil: bool)
    requires IsPrime(p) && p > 2 && forall k | k in keys :: Reduced(k, p)
    ensures isNil <==> keys == []
    ensures keys != [] ==> aggregate == Aggregate(keys, p)
  {
    if |keys| == 0 {
      return Point(0, 0), true;
    }
    assert keys[0] in keys;
    ModUnique(1, p, 0, 1);
    var agg := new JacobianPoint(keys[0]);
    for i := 1 to |keys|
      invariant agg.Valid(p)
      invariant Accumulates(agg.Value(), keys, i, p)
    {
      ghost var t := agg.Value();
      agg.AddAffinePoint(keys[i], p);
      FoldStep(t, agg.Value(), keys, i, p);
    }
    aggregate := agg.ToAffine(p);
    isNil := false;
    ChordFoldReduced(keys, |keys|, p);
  }
}
