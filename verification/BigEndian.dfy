/** Unsigned big-endian byte strings, as math/big reads and writes them. */
module BigEndian {

  type byte = b: int | 0 <= b < 256

  function Power256(n: nat): (p: nat)
    ensures p > 0
  {
    if n == 0 then 1 else 256 * Power256(n - 1)
  }

  /** big.Int.SetBytes */
  function FromBytes(s: seq<byte>): nat {
    if s == [] then 0 else 256 * FromBytes(s[..|s| - 1]) + s[|s| - 1]
  }

  /** big.Int.Bytes: the shortest encoding; zero is the empty string. */
  function ToBytes(n: nat): seq<byte> {
    if n == 0 then [] else ToBytes(n / 256) + [n % 256]
  }

  /** big.Int.FillBytes into a buffer of the given width, for values that fit. */
  function Fixed(n: nat, width: nat): (s: seq<byte>)
    ensures |s| == width
  {
    if width == 0 then [] else Fixed(n / 256, width - 1) + [n % 256]
  }

  lemma {:induction false} RoundTrip(n: nat)
    ensures FromBytes(ToBytes(n)) == n
  {
    if n != 0 {
      RoundTrip(n / 256);
      assert (ToBytes(n / 256) + [n % 256])[..|ToBytes(n / 256)|] == ToBytes(n / 256);
    }
  }

  /** Bytes never writes a leading zero, and every string without one is what Bytes writes. */
  lemma {:induction false} Canonical(s: seq<byte>)
    ensures ToBytes(FromBytes(s)) == s <==> s == [] || s[0] != 0
  {
    if s != [] {
      var init := s[..|s| - 1];
      Canonical(init);
      if init == [] {
        assert s == [s[0]];
        assert FromBytes(s) == s[0];
      } else {
        if FromBytes(init) == 0 {
          assert ToBytes(FromBytes(init)) == [];
          assert s[0] == 0;
          if FromBytes(s) == 0 {
          } else {
            assert ToBytes(FromBytes(s)) == [s[|s| - 1]];
          }
        } else {
          assert ToBytes(FromBytes(s)) == ToBytes(FromBytes(init)) + [s[|s| - 1]];
          assert s == init + [s[|s| - 1]];
        }
      }
    }
  }

  lemma {:induction false} FromBytesBound(s: seq<byte>)
    ensures FromBytes(s) < Power256(|s|)
  {
    if s != [] {
      FromBytesBound(s[..|s| - 1]);
    }
  }

  /** A fixed-width buffer keeps the value exactly when the value fits in it. */
  lemma {:induction false} FixedRoundTrip(n: nat, width: nat)
    ensures FromBytes(Fixed(n, width)) == n <==> n < Power256(width)
  {
    if width != 0 {
      FixedRoundTrip(n / 256, width - 1);
      assert Fixed(n, width)[..width - 1] == Fixed(n / 256, width - 1);
      assert n == 256 * (n / 256) + n % 256;
    }
  }

  lemma {:induction false} FixedInjective(a: seq<byte>, b: seq<byte>)
    requires |a| == |b| && FromBytes(a) == FromBytes(b)
    ensures a == b
  {
    if a != [] {
      var k := |a| - 1;
      FixedInjective(a[..k], b[..k]);
      assert a == a[..k] + [a[k]];
      assert b == b[..k] + [b[k]];
    }
  }

  lemma {:induction false} FromBytesConcat(a: seq<byte>, b: seq<byte>)
    ensures FromBytes(a + b) == FromBytes(a) * Power256(|b|) + FromBytes(b)
  {
    if b == [] {
      assert a + b == a;
    } else {
      var k := |b| - 1;
      assert (a + b)[..|a + b| - 1] == a + b[..k];
      FromBytesConcat(a, b[..k]);
    }
  }

  lemma {:induction false} ToBytesLength(n: nat, k: nat)
    ensures |ToBytes(n)| <= k <==> n < Power256(k)
  {
    if n != 0 && k != 0 {
      ToBytesLength(n / 256, k - 1);
    }
  }

  lemma {:induction false} PowerSum(m: nat, n: nat)
    ensures Power256(m + n) == Power256(m) * Power256(n)
  {
    if m != 0 {
      PowerSum(m - 1, n);
    }
  }

  const WORD: nat := 0x1_0000000000000000_0000000000000000_0000000000000000_0000000000000000

  /** 32 bytes hold the numbers below 2^256. */
  lemma WordIsPower()
    ensures Power256(32) == WORD
  {
    assert Power256(2) == 0x1_0000;
    PowerSum(2, 2);
    PowerSum(4, 4);
    PowerSum(8, 8);
    PowerSum(16, 16);
  }

  /** Keccak-256 is any function to 32 bytes. */
  ghost predicate IsHash(hash: seq<byte> -> seq<byte>) {
    forall s :: |hash(s)| == 32
  }
}
