/** The hash chain over fixed-width rows that a reward batch commits to. */
module HashChain {
  import opened BigEndian

  /** Six bytes of the subnet id and a 32-byte cost. */
  const ROW_WIDTH := 38

  function Chain(hash: seq<byte> -> seq<byte>, rows: seq<seq<byte>>): seq<byte> {
    if rows == [] then [] else hash(Chain(hash, rows[..|rows| - 1]) + rows[|rows| - 1])
  }

  predicate AreRows(rows: seq<seq<byte>>) {
    forall i :: 0 <= i < |rows| ==> |rows[i]| == ROW_WIDTH
  }

  /** Two different inputs that the hash maps to the same value. */
  predicate IsCollision(hash: seq<byte> -> seq<byte>, a: seq<byte>, b: seq<byte>) {
    a != b && hash(a) == hash(b)
  }

  lemma ChainLength(hash: seq<byte> -> seq<byte>, rows: seq<seq<byte>>)
    requires IsHash(hash)
    ensures |Chain(hash, rows)| == if rows == [] then 0 else 32
  {
  }

  lemma EqualConcat(a: seq<byte>, x: seq<byte>, b: seq<byte>, y: seq<byte>)
    requires a + x == b + y && |x| == |y|
    ensures a == b && x == y
  {
    assert |a| == |b|;
    assert a == (a + x)[..|a|] && b == (b + y)[..|b|];
    assert x == (a + x)[|a|..] && y == (b + y)[|b|..];
  }

  /** Two different non-empty histories with the same chain value yield a collision of the hash. */
  lemma {:induction false} ChainBinds(hash: seq<byte> -> seq<byte>, rows: seq<seq<byte>>, other: seq<seq<byte>>)
    returns (a: seq<byte>, b: seq<byte>)
    requires IsHash(hash) && AreRows(rows) && AreRows(other) && rows != [] && other != []
    requires Chain(hash, rows) == Chain(hash, other) && rows != other
    ensures IsCollision(hash, a, b)
  {
    var i, j := |rows| - 1, |other| - 1;
    var p, q := Chain(hash, rows[..i]), Chain(hash, other[..j]);
    ChainLength(hash, rows[..i]);
    ChainLength(hash, other[..j]);
    a, b := p + rows[i], q + other[j];
    if a == b {
      EqualConcat(p, rows[i], q, other[j]);
      assert rows == rows[..i] + [rows[i]] && other == other[..j] + [other[j]];
      a, b := ChainBinds(hash, rows[..i], other[..j]);
    }
  }
}
