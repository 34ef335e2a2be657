/** The prime field under the curve: mulmod, addmod and the hand-written extended Euclid inverse. */
module Field {
  import opened ModArith

  ghost predicate IsPrime(p: int) {
    p > 1 && forall d :: 1 < d < p ==> p % d != 0
  }

  function Mulmod(a: int, b: int, modulus: int): (r: int)
    requires modulus > 0
    ensures 0 <= r < modulus && Cong(r, a * b, modulus)
  {
    CongMod(a * b, modulus);
    (a * b) % modulus
  }

  function Addmod(a: int, b: int, modulus: int): (r: int)
    requires modulus > 0
    ensures 0 <= r < modulus && Cong(r, a + b, modulus)
  {
    CongMod(a + b, modulus);
    (a + b) % modulus
  }

  ghost predicate IsInverse(t: int, x: int, p: int)
    requires p > 0
  {
    0 <= t < p && Cong(t * x, 1, p)
  }

  /** Below a prime every non-zero x has an inverse: p == q * x + r, so -q times an inverse of r is one of x. */
  lemma {:induction false} InverseExistsBelow(x: int, p: int) returns (t: int)
    requires IsPrime(p) && 0 < x < p
    ensures IsInverse(t, x, p)
    decreases x
  {
    if x == 1 {
      t := 1;
    } else {
      var q, r := p / x, p % x;
      assert r != 0;
      var u := InverseExistsBelow(r, p);
      t := (-q * u) % p;
      InverseStep(x, p, q, r, u, t);
    }
  }

  lemma InverseStep(x: int, p: int, q: int, r: int, u: int, t: int)
    requires p > 1 && p == q * x + r && Cong(u * r, 1, p) && t == (-q * u) % p
    ensures Cong(t * x, 1, p)
  {
    CongMod(-q * u, p);
    CongMul(t, -q * u, x, x, p);
    calc {
      -q * u * x;
      u * (-q * x);
      u * (r - p);
      u * r + p * -u;
    }
    ModShift(u * r, -u, p);
  }

  lemma InverseExists(x: int, p: int)
    requires IsPrime(p) && x % p != 0
    ensures exists t :: IsInverse(t, x, p)
  {
    var t := InverseExistsBelow(x % p, p);
    CongMod(x, p);
    CongMul(t, t, x % p, x, p);
    assert IsInverse(t, x, p);
  }

  /** The multiplicative inverse modulo a prime; zero where there is none. */
  ghost function Inverse(x: int, p: int): (t: int)
    requires IsPrime(p)
    ensures x % p != 0 ==> IsInverse(t, x, p)
    ensures x % p == 0 ==> t == 0
  {
    if x % p == 0 then 0 else
    InverseExists(x, p);
    var t :| IsInverse(t, x, p); t
  }

  /** x cancels on both sides of a congruence exactly when it is not zero modulo p. */
  lemma Cancel(x: int, a: int, b: int, p: int)
    requires IsPrime(p) && x % p != 0
    ensures Cong(x * a, x * b, p) <==> Cong(a, b, p)
  {
    if Cong(a, b, p) {
      CongMul(x, x, a, b, p);
    }
    if Cong(x * a, x * b, p) {
      var t := Inverse(x, p);
      CongMul(t, t, x * a, x * b, p);
      CongMul(t * x, 1, a, a, p);
      CongMul(t * x, 1, b, b, p);
      assert t * (x * a) == (t * x) * a && t * (x * b) == (t * x) * b;
    }
  }

  lemma ProductNonzero(a: int, b: int, p: int)
    requires IsPrime(p)
    ensures (a * b) % p != 0 <==> a % p != 0 && b % p != 0
  {
    ModUnique(0, p, 0, 0);
    if a % p != 0 {
      Cancel(a, b, 0, p);
    } else {
      CongMul(a, 0, b, b, p);
    }
  }

  lemma InverseUnique(t: int, x: int, p: int)
    requires IsPrime(p) && IsInverse(t, x, p)
    ensures t == Inverse(x, p)
  {
    ModUnique(0, p, 0, 0);
    ModUnique(1, p, 0, 1);
    if x % p == 0 {
      CongMul(t, t, x, 0, p);
      assert false;
    }
    var u := Inverse(x, p);
    Cancel(x, t, u, p);
    ModUnique(t, p, 0, t);
    ModUnique(u, p, 0, u);
  }

  /** A mutable big.Int. */
  class BigInt {
    var v: int

    constructor (v: int)
      ensures this.v == v
    {
      this.v := v;
    }
  }

  /** One division step keeps t * X congruent to the remainder it belongs to. */
  lemma BezoutStep(t: int, newT: int, r: int, x: int, q: int, next: int, input: int, p: int)
    requires p > 0 && Cong(t * input, r, p) && Cong(newT * input, x, p)
    requires next == Addmod(t, p - Mulmod(q, newT, p), p)
    ensures Cong(next * input, r - q * x, p)
  {
    var m := Mulmod(q, newT, p);
    CongAdd(t, t, m, q * newT, p);
    ModShift(t - m, 1, p);
    assert t + (p - m) == t - m + p * 1;
    CongMul(next, t - q * newT, input, input, p);
    CongMul(q, q, newT * input, x, p);
    CongAdd(t * input, r, q * (newT * input), q * x, p);
    assert (t - q * newT) * input == t * input - q * (newT * input);
  }

  lemma DivisionStep(r: int, x: int, q: int)
    requires r > 0 && x > 0 && q == r / x
    ensures 0 <= r - q * x < x
  {
    assert r - q * x == r % x;
  }

  lemma BasisStep(a: int, b: int, r: int, x: int, q: int)
    ensures a * r + b * x == (a * q + b) * x + a * (r - q * x)
  {
  }

  /** invMod. The argument is used as a work variable: the caller's big.Int is zero afterwards. */
  method InvMod(x: BigInt, p: int) returns (t: int)
    requires IsPrime(p) && x.v >= 0
    modifies x
    ensures x.v == 0
    ensures old(x.v) % p != 0 ==> t == Inverse(old(x.v), p)
    ensures old(x.v) == 0 ==> t == 0
    ensures 0 <= t < p
  {
    ghost var input := x.v;
    t := 0;
    var newT := 1;
    var r := p;
    // The remainders stay a basis for p and the input: p == a * r + b * x and input == c * r + d * x.
    ghost var a, b, c, d := 1, 0, 0, 1;
    ModUnique(p, p, 1, 0);
    ModUnique(0, p, 0, 0);
    while x.v != 0
      invariant x.v >= 0 && r > 0 && 0 <= t < p && 0 <= newT < p
      invariant Cong(t * input, r, p) && Cong(newT * input, x.v, p)
      invariant p == a * r + b * x.v && input == c * r + d * x.v
      invariant input == 0 ==> t == 0 && x.v == 0
      decreases x.v
    {
      var q := r / x.v;
      DivisionStep(r, x.v, q);
      BasisStep(a, b, r, x.v, q);
      BasisStep(c, d, r, x.v, q);
      var tmp := t;
      t := newT;
      BezoutStep(tmp, newT, r, x.v, q, Addmod(tmp, p - Mulmod(q, newT, p), p), input, p);
      newT := Addmod(tmp, p - Mulmod(q, newT, p), p);
      tmp := r;
      r := x.v;
      x.v := tmp - q * x.v;
      a, b, c, d := a * q + b, a, c * q + d, c;
    }
    if input % p != 0 {
      LastRemainderIsOne(r, a, c, input, p);
      InverseUnique(t, input, p);
    }
  }

  lemma LastRemainderIsOne(r: int, a: int, c: int, input: int, p: int)
    requires IsPrime(p) && r > 0 && p == a * r && input == c * r && input % p != 0
    ensures r == 1
  {
    assert a > 0;
    assert r <= p;
    if r == p {
      assert c * r == p * c + 0;
      ModUnique(input, p, c, 0);
    } else if r > 1 {
      ModUnique(p, r, a, 0);
    }
  }
}
