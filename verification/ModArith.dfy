/** Arithmetic modulo n, with the operators of big.Int: Mod is Euclidean, so it is Dafny's `%`. */
module ModArith {

  ghost predicate Cong(a: int, b: int, n: int)
    requires n > 0
  {
    a % n == b % n
  }

  lemma ModUnique(a: int, n: int, q: int, r: int)
    requires n > 0 && a == n * q + r && 0 <= r < n
    ensures a % n == r && a / n == q
  {
    var d := q - a / n;
    assert n * d == a % n - r;
    assert -n < n * d < n;
    assert d == 0;
  }

  lemma ModRemainder(q: int, n: int, r: int)
    requires n > 0 && 0 <= r < n
    ensures (q * n + r) % n == r
  {
    ModUnique(q * n + r, n, q, r);
  }

  lemma ModShift(a: int, k: int, n: int)
    requires n > 0
    ensures (a + n * k) % n == a % n
  {
    ModUnique(a + n * k, n, a / n + k, a % n);
  }

  lemma CongMod(a: int, n: int)
    requires n > 0
    ensures Cong(a % n, a, n)
  {
    ModUnique(a % n, n, 0, a % n);
  }

  /** Congruent numbers differ by a multiple of the modulus. */
  lemma CongQuotient(a: int, b: int, n: int) returns (k: int)
    requires n > 0 && Cong(a, b, n)
    ensures a == b + n * k
  {
    k := a / n - b / n;
    assert n * k == n * (a / n) - n * (b / n);
  }

  lemma CongBy(a: int, b: int, k: int, n: int)
    requires n > 0 && a == b + n * k
    ensures Cong(a, b, n)
  {
    ModShift(b, k, n);
  }

  lemma CongAdd(a: int, b: int, c: int, d: int, n: int)
    requires n > 0 && Cong(a, b, n) && Cong(c, d, n)
    ensures Cong(a + c, b + d, n) && Cong(a - c, b - d, n)
  {
    var k := CongQuotient(a, b, n);
    var m := CongQuotient(c, d, n);
    SumsOfMultiples(n, k, m);
    CongBy(a + c, b + d, k + m, n);
    CongBy(a - c, b - d, k - m, n);
  }

  lemma SumsOfMultiples(n: int, k: int, m: int)
    ensures n * k + n * m == n * (k + m) && n * k - n * m == n * (k - m)
  {
  }

  lemma CongMul(a: int, b: int, c: int, d: int, n: int)
    requires n > 0 && Cong(a, b, n) && Cong(c, d, n)
    ensures Cong(a * c, b * d, n)
  {
    var k := CongQuotient(a, b, n);
    var m := CongQuotient(c, d, n);
    ProductOfSums(b, k, d, m, n);
    CongBy(a * c, b * d, b * m + k * d + n * k * m, n);
  }

  lemma ProductOfSums(b: int, k: int, d: int, m: int, n: int)
    ensures (b + n * k) * (d + n * m) == b * d + n * (b * m + k * d + n * k * m)
  {
  }

  lemma CongDiff(a: int, b: int, n: int)
    requires n > 0
    ensures Cong(a, b, n) <==> Cong(a - b, 0, n)
  {
    if Cong(a, b, n) {
      CongAdd(a, b, b, b, n);
    }
    if Cong(a - b, 0, n) {
      CongAdd(a - b, 0, b, b, n);
    }
  }
}
