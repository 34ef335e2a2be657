/** Scalar multiples in an abstract abelian group. */
module Group {

  datatype Group<!T> = Group(zero: T, add: (T, T) -> T, neg: T -> T)

  // The laws are named so that a proof applies them where it says so.

  ghost predicate UnitAt<T>(g: Group<T>, a: T) {
    g.add(g.zero, a) == a
  }

  ghost predicate InverseAt<T>(g: Group<T>, a: T) {
    g.add(a, g.neg(a)) == g.zero
  }

  ghost predicate CommutesAt<T>(g: Group<T>, a: T, b: T) {
    g.add(a, b) == g.add(b, a)
  }

  ghost predicate AssociatesAt<T>(g: Group<T>, a: T, b: T, c: T) {
    g.add(g.add(a, b), c) == g.add(a, g.add(b, c))
  }

  ghost predicate IsAbelian<T(!new)>(g: Group<T>) {
    && (forall a :: UnitAt(g, a))
    && (forall a :: InverseAt(g, a))
    && (forall a, b :: CommutesAt(g, a, b))
    && (forall a, b, c :: AssociatesAt(g, a, b, c))
  }

  function Scale<T>(g: Group<T>, k: nat, a: T): T {
    if k == 0 then g.zero else g.add(a, Scale(g, k - 1, a))
  }

  function Sum<T>(g: Group<T>, s: seq<T>): T {
    if s == [] then g.zero else g.add(Sum(g, s[..|s| - 1]), s[|s| - 1])
  }

  lemma {:induction false} ScaleAdd<T(!new)>(g: Group<T>, j: nat, k: nat, a: T)
    requires IsAbelian(g)
    ensures Scale(g, j + k, a) == g.add(Scale(g, j, a), Scale(g, k, a))
  {
    if j == 0 {
      assert UnitAt(g, Scale(g, k, a));
    } else {
      ScaleAdd(g, j - 1, k, a);
      assert AssociatesAt(g, a, Scale(g, j - 1, a), Scale(g, k, a));
    }
  }

  lemma {:induction false} ScaleMul<T(!new)>(g: Group<T>, j: nat, k: nat, a: T)
    requires IsAbelian(g)
    ensures j * k >= 0 && Scale(g, j * k, a) == Scale(g, j, Scale(g, k, a))
  {
    if j != 0 {
      ScaleMul(g, j - 1, k, a);
      ScaleAdd(g, k, (j - 1) * k, a);
      assert j * k == k + (j - 1) * k;
    }
  }

  lemma {:induction false} ScaleZero<T(!new)>(g: Group<T>, k: nat)
    requires IsAbelian(g)
    ensures Scale(g, k, g.zero) == g.zero
  {
    if k != 0 {
      ScaleZero(g, k - 1);
      assert UnitAt(g, g.zero);
    }
  }

  lemma Interchange<T(!new)>(g: Group<T>, a: T, b: T, c: T, d: T)
    requires IsAbelian(g)
    ensures g.add(g.add(a, b), g.add(c, d)) == g.add(g.add(a, c), g.add(b, d))
  {
    assert AssociatesAt(g, a, b, g.add(c, d));
    assert AssociatesAt(g, b, c, d);
    assert CommutesAt(g, b, c);
    assert AssociatesAt(g, c, b, d);
    assert AssociatesAt(g, a, c, g.add(b, d));
  }

  lemma {:induction false} ScaleDistributes<T(!new)>(g: Group<T>, k: nat, a: T, b: T)
    requires IsAbelian(g)
    ensures Scale(g, k, g.add(a, b)) == g.add(Scale(g, k, a), Scale(g, k, b))
  {
    if k == 0 {
      assert UnitAt(g, g.zero);
    } else {
      ScaleDistributes(g, k - 1, a, b);
      Interchange(g, a, b, Scale(g, k - 1, a), Scale(g, k - 1, b));
    }
  }

  /** Scalars may be reduced modulo any n that annihilates the point. */
  lemma ScaleMod<T(!new)>(g: Group<T>, k: nat, n: nat, a: T)
    requires IsAbelian(g) && n > 0 && Scale(g, n, a) == g.zero
    ensures Scale(g, k % n, a) == Scale(g, k, a)
  {
    var q, r := k / n, k % n;
    ScaleMul(g, q, n, a);
    ScaleZero(g, q);
    assert k == q * n + r;
    ScaleAdd(g, q * n, r, a);
    assert UnitAt(g, Scale(g, r, a));
  }

  lemma Cancellation<T(!new)>(g: Group<T>, a: T, c: T)
    requires IsAbelian(g) && g.add(a, c) == c
    ensures a == g.zero
  {
    assert AssociatesAt(g, a, c, g.neg(c));
    assert InverseAt(g, c);
    assert CommutesAt(g, a, g.zero);
    assert UnitAt(g, a);
  }
}
