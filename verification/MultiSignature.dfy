/** Nonces, partial signatures, their aggregation, and the equation a verifier checks. */
module MultiSignature {
  import opened Wrappers
  import opened BigEndian
  import opened ModArith
  import opened Field
  import opened Curve
  import Aggregation
  import opened Group
  import opened HashChain

  /** The curve group as the signers use it: a base point annihilated by n, which fits in 32 bytes. */
  datatype Params<!T> = Params(group: Group<T>, base: T, n: nat, hash: seq<byte> -> seq<byte>)

  ghost predicate ValidParams<T(!new)>(c: Params<T>) {
    && IsAbelian(c.group) && IsHash(c.hash)
    && 0 < c.n <= Power256(32)
    && Scale(c.group, c.n, c.base) == c.group.zero
  }

  function PrivKeyFromBytes(b: seq<byte>, n: nat): nat
    requires n > 0
  {
    FromBytes(b) % n
  }

  function PublicKey<T>(c: Params<T>, privKey: nat): T {
    Scale(c.group, privKey, c.base)
  }

  /** deriveNonce: the reduction modulo n is computed and dropped. */
  function DeriveNonce<T>(c: Params<T>, privKey: nat, message: seq<byte>): nat {
    FromBytes(c.hash(Fixed(privKey, 32) + message))
  }

  function ComputeNoncePublicKey<T>(c: Params<T>, nonce: nat): T
    requires c.n > 0
  {
    PublicKey(c, PrivKeyFromBytes(ToBytes(nonce), c.n))
  }

  function ComputeSignature(privKey: nat, nonce: nat, challenge: seq<byte>, n: nat): seq<byte>
    requires n > 0
  {
    ToBytes(Addmod(nonce, Mulmod(FromBytes(challenge), FromBytes(Fixed(privKey, 32)), n), n))
  }

  lemma ReducedSum(nonce: nat, e: nat, k: nat, n: nat)
    requires n > 0
    ensures Addmod(nonce, Mulmod(e, k, n), n) == (nonce + e * k) % n
  {
    CongAdd(nonce, nonce, Mulmod(e, k, n), e * k, n);
  }

  lemma SignatureDecodes(privKey: nat, nonce: nat, challenge: seq<byte>, n: nat)
    requires n > 0 && privKey < Power256(32)
    ensures FromBytes(ComputeSignature(privKey, nonce, challenge, n)) ==
      Addmod(nonce, Mulmod(FromBytes(challenge), privKey, n), n)
  {
    FixedRoundTrip(privKey, 32);
    RoundTrip(Addmod(nonce, Mulmod(FromBytes(challenge), privKey, n), n));
  }

  /** The hash of key and message, plus the challenge times the key, modulo n. */
  predicate IsSignature<T>(c: Params<T>, privKey: nat, message: seq<byte>, challenge: seq<byte>, s: seq<byte>)
    requires c.n > 0
  {
    FromBytes(s) == (FromBytes(c.hash(Fixed(privKey, 32) + message)) + FromBytes(challenge) * privKey) % c.n
  }

  lemma SignatureIs<T>(c: Params<T>, privKey: nat, message: seq<byte>, challenge: seq<byte>)
    requires c.n > 0 && privKey < Power256(32)
    ensures IsSignature(c, privKey, message, challenge,
                        ComputeSignature(privKey, DeriveNonce(c, privKey, message), challenge, c.n))
  {
    SignatureDecodes(privKey, DeriveNonce(c, privKey, message), challenge, c.n);
    ReducedSum(DeriveNonce(c, privKey, message), FromBytes(challenge), privKey, c.n);
  }

  /** Equal nonces for different keys or 32-byte messages come from a collision of the hash. */
  lemma NonceBinds<T>(c: Params<T>, k: nat, message: seq<byte>, l: nat, other: seq<byte>)
    returns (a: seq<byte>, b: seq<byte>)
    requires IsHash(c.hash) && k < Power256(32) && l < Power256(32) && |message| == |other| == 32
    requires (k != l || message != other) && DeriveNonce(c, k, message) == DeriveNonce(c, l, other)
    ensures IsCollision(c.hash, a, b) && a == Fixed(k, 32) + message && b == Fixed(l, 32) + other
  {
    a, b := Fixed(k, 32) + message, Fixed(l, 32) + other;
    FixedInjective(c.hash(a), c.hash(b));
    FixedRoundTrip(k, 32);
    FixedRoundTrip(l, 32);
    if a == b {
      EqualConcat(Fixed(k, 32), message, Fixed(l, 32), other);
    }
  }

  function Signatures<T>(c: Params<T>, privKeys: seq<nat>, message: seq<byte>, challenge: seq<byte>): seq<seq<byte>>
    requires c.n > 0
  {
    seq(|privKeys|, i requires 0 <= i < |privKeys| =>
      ComputeSignature(privKeys[i], DeriveNonce(c, privKeys[i], message), challenge, c.n))
  }

  lemma SignaturesAre<T>(c: Params<T>, privKeys: seq<nat>, message: seq<byte>, challenge: seq<byte>)
    requires c.n > 0
    ensures forall i | 0 <= i < |privKeys| && privKeys[i] < Power256(32) ::
      IsSignature(c, privKeys[i], message, challenge, Signatures(c, privKeys, message, challenge)[i])
  {
    forall i | 0 <= i < |privKeys| && privKeys[i] < Power256(32)
      ensures IsSignature(c, privKeys[i], message, challenge, Signatures(c, privKeys, message, challenge)[i])
    {
      SignatureIs(c, privKeys[i], message, challenge);
    }
  }

  method ComputeSignatureMulti<T>(c: Params<T>, privKeys: seq<nat>, message: seq<byte>, challenge: seq<byte>)
    returns (signatures: seq<seq<byte>>)
    requires c.n > 0
    ensures signatures == Signatures(c, privKeys, message, challenge)
    ensures |signatures| == |privKeys| && forall i | 0 <= i < |privKeys| && privKeys[i] < Power256(32) ::
      IsSignature(c, privKeys[i], message, challenge, signatures[i])
  {
    SignaturesAre(c, privKeys, message, challenge);
    signatures := [];
    for i := 0 to |privKeys|
      invariant signatures == Signatures(c, privKeys, message, challenge)[..i]
    {
      var nonce := DeriveNonce(c, privKeys[i], message);
      var sig := ComputeSignature(privKeys[i], nonce, challenge, c.n);
      signatures := signatures + [sig];
    }
  }

  /** The scalar that the aggregate encodes. */
  function Total(signatures: seq<seq<byte>>, n: nat): nat
    requires n > 0
  {
    if signatures == [] then 0
    else Addmod(Total(signatures[..|signatures| - 1], n), FromBytes(signatures[|signatures| - 1]), n)
  }

  method AggregateSignatures(signatures: seq<seq<byte>>, n: nat) returns (aggSig: seq<byte>)
    requires n > 0
    ensures aggSig == ToBytes(Total(signatures, n))
    ensures FromBytes(aggSig) < n
    ensures aggSig == [] || aggSig[0] != 0
  {
    var aggSignature := 0;
    for i := 0 to |signatures|
      invariant 0 <= aggSignature < n && aggSignature == Total(signatures[..i], n)
    {
      assert signatures[..i + 1][..i] == signatures[..i];
      aggSignature := Addmod(aggSignature, FromBytes(signatures[i]), n);
    }
    assert signatures[..|signatures|] == signatures;
    aggSig := ToBytes(aggSignature);
    RoundTrip(aggSignature);
    Canonical(aggSig);
  }

  // ---------------------------------------------------------------------------------------------
  // What the aggregate satisfies.

  function PublicKeys<T>(c: Params<T>, privKeys: seq<nat>): seq<T> {
    seq(|privKeys|, i requires 0 <= i < |privKeys| => PublicKey(c, privKeys[i]))
  }

  function NoncePublicKeys<T>(c: Params<T>, privKeys: seq<nat>, message: seq<byte>): seq<T>
    requires c.n > 0
  {
    seq(|privKeys|, i requires 0 <= i < |privKeys| => ComputeNoncePublicKey(c, DeriveNonce(c, privKeys[i], message)))
  }

  /** [s]G == sum of nonce keys + [e] sum of keys. */
  ghost predicate Verifies<T(!new)>(c: Params<T>, s: nat, nonceKeys: seq<T>, keys: seq<T>, e: nat) {
    Scale(c.group, s, c.base) == c.group.add(Sum(c.group, nonceKeys), Scale(c.group, e, Sum(c.group, keys)))
  }

  /** The scalar inside one signature. */
  lemma SignatureScalar(privKey: nat, nonce: nat, challenge: seq<byte>, n: nat)
    requires 0 < n <= Power256(32) && privKey < n
    ensures FromBytes(ComputeSignature(privKey, nonce, challenge, n))
         == (nonce + (FromBytes(challenge) * privKey) % n) % n
  {
    SignatureDecodes(privKey, nonce, challenge, n);
  }

  lemma ScalarEquation<T(!new)>(g: Group<T>, base: T, n: nat, nonce: nat, e: nat, k: nat)
    requires IsAbelian(g) && n > 0 && Scale(g, n, base) == g.zero
    ensures Scale(g, (nonce + (e * k) % n) % n, base) ==
      g.add(Scale(g, nonce % n, base), Scale(g, e, Scale(g, k, base)))
  {
    ScaleMul(g, e, k, base);
    var m := (e * k) % n;
    ScaleMod(g, e * k, n, base);
    ScaleMod(g, nonce, n, base);
    ScaleAdd(g, nonce, m, base);
    ScaleMod(g, nonce + m, n, base);
  }

  /** One signature is the nonce plus the challenge times the key, in the exponent. */
  lemma SignatureEquation<T(!new)>(c: Params<T>, privKey: nat, nonce: nat, challenge: seq<byte>)
    requires ValidParams(c) && privKey < c.n
    ensures FromBytes(ComputeSignature(privKey, nonce, challenge, c.n)) < c.n
    ensures Scale(c.group, FromBytes(ComputeSignature(privKey, nonce, challenge, c.n)), c.base)
         == c.group.add(ComputeNoncePublicKey(c, nonce), Scale(c.group, FromBytes(challenge), PublicKey(c, privKey)))
  {
    SignatureScalar(privKey, nonce, challenge, c.n);
    NonceKeyIsReduced(c, nonce);
    ScalarEquation(c.group, c.base, c.n, nonce, FromBytes(challenge), privKey);
  }

  /** The key derived from a nonce is its reduced multiple: the bytes are read modulo n. */
  lemma NonceKeyIsReduced<T>(c: Params<T>, nonce: nat)
    requires c.n > 0
    ensures ComputeNoncePublicKey(c, nonce) == Scale(c.group, nonce % c.n, c.base)
  {
    RoundTrip(nonce);
  }

  /** The last signer's scalar and its keys, taken out of the total and of the two key sums. */
  lemma LastSigner<T(!new)>(c: Params<T>, privKeys: seq<nat>, message: seq<byte>, challenge: seq<byte>)
    returns (s: nat, r: T, q: T)
    requires ValidParams(c) && privKeys != [] && privKeys[|privKeys| - 1] < c.n
    ensures var init := privKeys[..|privKeys| - 1];
      && Total(Signatures(c, privKeys, message, challenge), c.n) ==
        Addmod(Total(Signatures(c, init, message, challenge), c.n), s, c.n)
      && Sum(c.group, NoncePublicKeys(c, privKeys, message)) ==
        c.group.add(Sum(c.group, NoncePublicKeys(c, init, message)), r)
      && Sum(c.group, PublicKeys(c, privKeys)) == c.group.add(Sum(c.group, PublicKeys(c, init)), q)
    ensures Scale(c.group, s, c.base) == c.group.add(r, Scale(c.group, FromBytes(challenge), q))
  {
    var k := |privKeys| - 1;
    assert Signatures(c, privKeys, message, challenge)[..k] == Signatures(c, privKeys[..k], message, challenge);
    assert NoncePublicKeys(c, privKeys, message)[..k] == NoncePublicKeys(c, privKeys[..k], message);
    assert PublicKeys(c, privKeys)[..k] == PublicKeys(c, privKeys[..k]);
    var nonce := DeriveNonce(c, privKeys[k], message);
    s := FromBytes(ComputeSignature(privKeys[k], nonce, challenge, c.n));
    r, q := ComputeNoncePublicKey(c, nonce), PublicKey(c, privKeys[k]);
    SignatureEquation(c, privKeys[k], nonce, challenge);
  }

  /** Adding one verified signature to a verified total. */
  lemma VerifiesStep<T(!new)>(c: Params<T>, t: nat, s: nat, e: nat, R: T, P: T, r: T, q: T)
    requires ValidParams(c)
    requires Scale(c.group, t, c.base) == c.group.add(R, Scale(c.group, e, P))
    requires Scale(c.group, s, c.base) == c.group.add(r, Scale(c.group, e, q))
    ensures Scale(c.group, Addmod(t, s, c.n), c.base) ==
      c.group.add(c.group.add(R, r), Scale(c.group, e, c.group.add(P, q)))
  {
    ScaleMod(c.group, t + s, c.n, c.base);
    ScaleAdd(c.group, t, s, c.base);
    Interchange(c.group, R, Scale(c.group, e, P), r, Scale(c.group, e, q));
    ScaleDistributes(c.group, e, P, q);
  }

  /** The aggregate of any list of signers verifies against the sums of their keys, for any challenge. */
  lemma {:induction false} AggregateVerifies<T(!new)>(
      c: Params<T>, privKeys: seq<nat>, message: seq<byte>, challenge: seq<byte>)
    requires ValidParams(c) && forall i :: 0 <= i < |privKeys| ==> privKeys[i] < c.n
    ensures Verifies(c, Total(Signatures(c, privKeys, message, challenge), c.n),
                     NoncePublicKeys(c, privKeys, message), PublicKeys(c, privKeys), FromBytes(challenge))
  {
    var g, e := c.group, FromBytes(challenge);
    if privKeys == [] {
      ScaleZero(g, e);
      assert UnitAt(g, g.zero);
    } else {
      AggregateVerifies(c, privKeys[..|privKeys| - 1], message, challenge);
      OneMoreSigner(c, privKeys, message, challenge);
    }
  }

  lemma OneMoreSigner<T(!new)>(c: Params<T>, privKeys: seq<nat>, message: seq<byte>, challenge: seq<byte>)
    requires ValidParams(c) && privKeys != [] && privKeys[|privKeys| - 1] < c.n
    requires var init := privKeys[..|privKeys| - 1];
      Verifies(c, Total(Signatures(c, init, message, challenge), c.n),
               NoncePublicKeys(c, init, message), PublicKeys(c, init), FromBytes(challenge))
    ensures Verifies(c, Total(Signatures(c, privKeys, message, challenge), c.n),
                     NoncePublicKeys(c, privKeys, message), PublicKeys(c, privKeys), FromBytes(challenge))
  {
    var init := privKeys[..|privKeys| - 1];
    var s, r, q := LastSigner(c, privKeys, message, challenge);
    VerifiesStep(c, Total(Signatures(c, init, message, challenge), c.n), s, FromBytes(challenge),
                 Sum(c.group, NoncePublicKeys(c, init, message)), Sum(c.group, PublicKeys(c, init)), r, q);
  }

  ghost predicate OrderAt<T>(c: Params<T>, k: nat)
    requires c.n > 0
  {
    Scale(c.group, k, c.base) == c.group.zero ==> k % c.n == 0
  }

  lemma {:induction false} TotalBound(signatures: seq<seq<byte>>, n: nat)
    requires n > 0
    ensures Total(signatures, n) < n
  {
  }

  lemma EqualMultiples<T(!new)>(c: Params<T>, lo: nat, hi: nat)
    requires ValidParams(c) && (forall k: nat :: OrderAt(c, k)) && lo <= hi < c.n
    requires Scale(c.group, lo, c.base) == Scale(c.group, hi, c.base)
    ensures lo == hi
  {
    ScaleAdd(c.group, hi - lo, lo, c.base);
    Cancellation(c.group, Scale(c.group, hi - lo, c.base), Scale(c.group, lo, c.base));
    assert OrderAt(c, hi - lo);
    ModUnique(hi - lo, c.n, 0, hi - lo);
  }

  /** When n is the order of the base point, no other reduced scalar verifies. */
  lemma AggregateIsUnique<T(!new)>(
      c: Params<T>, privKeys: seq<nat>, message: seq<byte>, challenge: seq<byte>, s: nat)
    requires ValidParams(c) && (forall k: nat :: OrderAt(c, k))
    requires s < c.n && forall i :: 0 <= i < |privKeys| ==> privKeys[i] < c.n
    ensures Verifies(c, s, NoncePublicKeys(c, privKeys, message), PublicKeys(c, privKeys), FromBytes(challenge))
       <==> s == Total(Signatures(c, privKeys, message, challenge), c.n)
  {
    AggregateVerifies(c, privKeys, message, challenge);
    var t := Total(Signatures(c, privKeys, message, challenge), c.n);
    TotalBound(Signatures(c, privKeys, message, challenge), c.n);
    if Scale(c.group, s, c.base) == Scale(c.group, t, c.base) {
      EqualMultiples(c, if s < t then s else t, if s < t then t else s);
    }
  }

  // ---------------------------------------------------------------------------------------------
  // Commitment, challenge and signing parameters.

  /** toAddress on the key's hash: the low 20 bytes. Slicing panics when the masked number is shorter. */
  function ToAddress(hashed: seq<byte>): Option<seq<byte>> {
    var address := ToBytes(FromBytes(hashed) % Power256(20));
    if |address| < 20 then None else Some(address[|address| - 20..])
  }

  lemma LowBytes(hi: seq<byte>, low: seq<byte>)
    ensures FromBytes(hi + low) % Power256(|low|) == FromBytes(low)
  {
    FromBytesConcat(hi, low);
    FromBytesBound(low);
    ModRemainder(FromBytes(hi), Power256(|low|), FromBytes(low));
  }

  /** A fixed-width number prints at its full width exactly when its first byte is not zero. */
  lemma FullWidth(s: seq<byte>)
    requires s != []
    ensures if s[0] != 0 then ToBytes(FromBytes(s)) == s else |ToBytes(FromBytes(s))| < |s|
  {
    Canonical(s);
    if s[0] == 0 {
      LeadingZero(s[1..]);
      assert s == [0] + s[1..];
    }
  }

  lemma LeadingZeroDecodes(s: seq<byte>)
    ensures FromBytes([0] + s) == FromBytes(s)
  {
    FromBytesConcat([0], s);
    assert FromBytes([0]) == 0;
  }

  lemma LeadingZero(s: seq<byte>)
    ensures |ToBytes(FromBytes([0] + s))| <= |s|
  {
    LeadingZeroDecodes(s);
    FromBytesBound(s);
    ToBytesLength(FromBytes(s), |s|);
  }

  /** toAddress returns the hash's last 20 bytes if the first of them is not zero; otherwise it panics. */
  lemma AddressIsHashSuffix(hashed: seq<byte>)
    requires |hashed| == 32
    ensures ToAddress(hashed) == if hashed[12] != 0 then Some(hashed[12..]) else None
  {
    assert hashed == hashed[..12] + hashed[12..];
    LowBytes(hashed[..12], hashed[12..]);
    FullWidth(hashed[12..]);
  }

  function Commitment(hash: seq<byte> -> seq<byte>, key: Point): Option<seq<byte>>
    requires key.x >= 0 && key.y >= 0
  {
    ToAddress(hash(ToBytes(key.x) + ToBytes(key.y)))
  }

  function ConstructChallenge(hash: seq<byte> -> seq<byte>, n: nat, key: Point, message: seq<byte>,
                              commitment: seq<byte>)
    : seq<byte>
    requires n > 0 && key.x >= 0 && key.y >= 0
  {
    ToBytes(FromBytes(hash(ToBytes(key.x) + [key.y % 2] + message + commitment)) % n)
  }

  datatype SigningParams = SigningParams(aggPubKey: Point, challenge: seq<byte>, commitment: seq<byte>)

  /** The aggregate of points over the field is one. */
  ghost function AggregatedKey(keys: seq<Point>, p: int): (key: Point)
    requires IsPrime(p) && keys != [] && forall k | k in keys :: Reduced(k, p)
    ensures Reduced(key, p) && key == Aggregation.Aggregate(keys, p)
  {
    Aggregation.ChordFoldReduced(keys, |keys|, p);
    Aggregation.Aggregate(keys, p)
  }

  ghost function ParamsFor(hash: seq<byte> -> seq<byte>, n: nat, keys: seq<Point>, nonceKeys: seq<Point>,
                           message: seq<byte>, p: int): Option<SigningParams>
    requires IsPrime(p) && n > 0 && forall k | k in keys + nonceKeys :: Reduced(k, p)
  {
    if keys == [] || nonceKeys == [] then None else
      var key := AggregatedKey(keys, p);
      match Commitment(hash, AggregatedKey(nonceKeys, p))
      case None => None
      case Some(c) => Some(SigningParams(key, ConstructChallenge(hash, n, key, message, c), c))
  }

  /**
   * The parameters are the aggregated key, the last 20 bytes of the hash of the aggregated nonce key's coordinates, and
   * the hash of the key, the message and the commitment modulo n.
   */
  ghost predicate AreParams(params: Option<SigningParams>, hash: seq<byte> -> seq<byte>, n: nat, key: Point,
                            nonceKey: Point, message: seq<byte>)
    requires n > 0 && key.x >= 0 && key.y >= 0 && nonceKey.x >= 0 && nonceKey.y >= 0
  {
    IsHash(hash) ==>
      var digest := hash(ToBytes(nonceKey.x) + ToBytes(nonceKey.y));
      if digest[12] == 0 then params == None
      else
        && params.Some? && params.value.aggPubKey == key && params.value.commitment == digest[12..]
        && params.value.challenge ==
             ToBytes(FromBytes(hash(ToBytes(key.x) + [key.y % 2] + message + digest[12..])) % n)
  }

  lemma ParamsAre(hash: seq<byte> -> seq<byte>, n: nat, keys: seq<Point>, nonceKeys: seq<Point>,
                  message: seq<byte>, p: int)
    requires IsPrime(p) && n > 0 && forall k | k in keys + nonceKeys :: Reduced(k, p)
    requires keys != [] && nonceKeys != []
    ensures (forall k | k in keys :: Reduced(k, p)) && (forall k | k in nonceKeys :: Reduced(k, p))
    ensures AreParams(ParamsFor(hash, n, keys, nonceKeys, message, p), hash, n,
                      AggregatedKey(keys, p), AggregatedKey(nonceKeys, p), message)
  {
    assert forall k | k in keys || k in nonceKeys :: k in keys + nonceKeys;
    if IsHash(hash) {
      var nonceKey := AggregatedKey(nonceKeys, p);
      AddressIsHashSuffix(hash(ToBytes(nonceKey.x) + ToBytes(nonceKey.y)));
    }
  }

  /** ComputeSigningParams; None where the source dereferences the nil key of an empty list or the slice panics. */
  method ComputeSigningParams(hash: seq<byte> -> seq<byte>, n: nat, keys: seq<Point>, nonceKeys: seq<Point>,
                              message: seq<byte>, p: int) returns (params: Option<SigningParams>)
    requires IsPrime(p) && p > 2 && n > 0 && forall k | k in keys + nonceKeys :: Reduced(k, p)
    ensures params == ParamsFor(hash, n, keys, nonceKeys, message, p)
    ensures keys == [] || nonceKeys == [] ==> params == None
    ensures keys != [] && nonceKeys != [] ==>
      && (forall k | k in keys :: Reduced(k, p)) && (forall k | k in nonceKeys :: Reduced(k, p))
      && AreParams(params, hash, n, AggregatedKey(keys, p), AggregatedKey(nonceKeys, p), message)
  {
    assert forall k | k in keys || k in nonceKeys :: k in keys + nonceKeys;
    if keys != [] && nonceKeys != [] {
      ParamsAre(hash, n, keys, nonceKeys, message, p);
      Aggregation.ChordFoldReduced(keys, |keys|, p);
      Aggregation.ChordFoldReduced(nonceKeys, |nonceKeys|, p);
    }
    var aggNonceKey, noNonce := Aggregation.AggregatePublicKeys(nonceKeys, p);
    if noNonce {
      return None;
    }
    var aggPubKey, noKey := Aggregation.AggregatePublicKeys(keys, p);
    if noKey {
      return None;
    }
    var commitment := Commitment(hash, aggNonceKey);
    if commitment.None? {
      return None;
    }
    var challenge := ConstructChallenge(hash, n, aggPubKey, message, commitment.value);
    return Some(SigningParams(aggPubKey, challenge, commitment.value));
  }

  // ---------------------------------------------------------------------------------------------
  // Points with coordinates.

  /** The bytes that a run's challenge is the hash of. */
  predicate IsHashed(params: SigningParams, message: seq<byte>, a: seq<byte>) {
    params.aggPubKey.x >= 0 &&
    a == ToBytes(params.aggPubKey.x) + [params.aggPubKey.y % 2] + message + params.commitment
  }

  lemma HashedApart(c: SigningParams, message: seq<byte>, d: SigningParams, other: seq<byte>, a: seq<byte>,
                    b: seq<byte>)
    requires IsHashed(c, message, a) && IsHashed(d, other, b)
    requires |ToBytes(c.aggPubKey.x)| == |ToBytes(d.aggPubKey.x)| && |message| == |other|
    requires |c.commitment| == |d.commitment| && a == b
    ensures c.aggPubKey.x == d.aggPubKey.x && c.aggPubKey.y % 2 == d.aggPubKey.y % 2
    ensures message == other && c.commitment == d.commitment
  {
    var x, y, u, v := ToBytes(c.aggPubKey.x), ToBytes(d.aggPubKey.x), [c.aggPubKey.y % 2], [d.aggPubKey.y % 2];
    EqualConcat(x + u + message, c.commitment, y + v + other, d.commitment);
    EqualConcat(x + u, message, y + v, other);
    EqualConcat(x, u, y, v);
    assert u[0] == v[0];
    RoundTrip(c.aggPubKey.x);
    RoundTrip(d.aggPubKey.x);
  }

  /** The challenge of a run is the hash of those bytes modulo n. */
  lemma ChallengeIs(hash: seq<byte> -> seq<byte>, n: nat, keys: seq<Point>, nonceKeys: seq<Point>,
                    message: seq<byte>, p: int) returns (a: seq<byte>)
    requires IsPrime(p) && n > 0 && IsHash(hash) && forall k | k in keys + nonceKeys :: Reduced(k, p)
    requires ParamsFor(hash, n, keys, nonceKeys, message, p).Some?
    ensures var params := ParamsFor(hash, n, keys, nonceKeys, message, p).value;
      IsHashed(params, message, a) && FromBytes(params.challenge) == FromBytes(hash(a)) % n && |params.commitment| == 20
  {
    ParamsAre(hash, n, keys, nonceKeys, message, p);
    var params := ParamsFor(hash, n, keys, nonceKeys, message, p).value;
    a := ToBytes(params.aggPubKey.x) + [params.aggPubKey.y % 2] + message + params.commitment;
    RoundTrip(FromBytes(hash(a)) % n);
  }

  /**
   * A challenge binds the message, the commitment and, among keys whose abscissas are equally long, the key: runs that
   * differ in one of them hash two different strings, so that either the hash values differ or these collide.
   */
  lemma ChallengeBinds(hash: seq<byte> -> seq<byte>, n: nat, keys: seq<Point>, nonceKeys: seq<Point>,
                       message: seq<byte>, keys': seq<Point>, nonceKeys': seq<Point>, message': seq<byte>, p: int)
    returns (a: seq<byte>, b: seq<byte>)
    requires IsPrime(p) && n > 0 && IsHash(hash) && |message| == |message'| == 32
    requires (forall k | k in keys + nonceKeys :: Reduced(k, p)) && forall k | k in keys' + nonceKeys' :: Reduced(k, p)
    requires ParamsFor(hash, n, keys, nonceKeys, message, p).Some?
    requires ParamsFor(hash, n, keys', nonceKeys', message', p).Some?
    requires var (c, d) := (ParamsFor(hash, n, keys, nonceKeys, message, p).value,
                            ParamsFor(hash, n, keys', nonceKeys', message', p).value);
      && c.aggPubKey.x >= 0 && d.aggPubKey.x >= 0 && |ToBytes(c.aggPubKey.x)| == |ToBytes(d.aggPubKey.x)|
      && (c.aggPubKey.x != d.aggPubKey.x || c.aggPubKey.y % 2 != d.aggPubKey.y % 2 ||
          message != message' || c.commitment != d.commitment)
    ensures a != b && (hash(a) != hash(b) || IsCollision(hash, a, b))
    ensures var (c, d) := (ParamsFor(hash, n, keys, nonceKeys, message, p).value,
                           ParamsFor(hash, n, keys', nonceKeys', message', p).value);
      && IsHashed(c, message, a) && FromBytes(c.challenge) == FromBytes(hash(a)) % n
      && IsHashed(d, message', b) && FromBytes(d.challenge) == FromBytes(hash(b)) % n
  {
    a := ChallengeIs(hash, n, keys, nonceKeys, message, p);
    b := ChallengeIs(hash, n, keys', nonceKeys', message', p);
    if a == b {
      HashedApart(ParamsFor(hash, n, keys, nonceKeys, message, p).value, message,
                  ParamsFor(hash, n, keys', nonceKeys', message', p).value, message', a, b);
    }
  }

  /** Adding two points with distinct abscissas, none of them the identity, is the chord rule. */
  ghost predicate ChordAt<T>(g: Group<T>, xy: T -> Point, a: T, b: T, p: int)
    requires IsPrime(p)
  {
    a != g.zero && b != g.zero && Aggregation.Distinct(xy(a), xy(b), p) ==>
      g.add(a, b) != g.zero && xy(g.add(a, b)) == Chord(xy(a), xy(b), p)
  }

  ghost predicate Coordinates<T(!new)>(c: Params<T>, xy: T -> Point, p: int)
    requires IsPrime(p)
  {
    && (forall a :: a != c.group.zero ==> Reduced(xy(a), p))
    && (forall a, b :: ChordAt(c.group, xy, a, b, p))
  }

  function Affine<T>(xy: T -> Point, points: seq<T>): seq<Point> {
    seq(|points|, i requires 0 <= i < |points| => xy(points[i]))
  }

  /** The chord fold over coordinates is the group sum. */
  lemma {:induction false} FoldIsSum<T(!new)>(c: Params<T>, xy: T -> Point, points: seq<T>, n: nat, p: int)
    requires IsPrime(p) && IsAbelian(c.group) && Coordinates(c, xy, p)
    requires 0 < n <= |points| && c.group.zero !in points && Aggregation.Generic(Affine(xy, points), n, p)
    ensures Sum(c.group, points[..n]) != c.group.zero
    ensures Aggregation.ChordFold(Affine(xy, points), n, p) == xy(Sum(c.group, points[..n]))
  {
    if n == 1 {
      assert points[..1] == [points[0]];
      assert points[..1][..0] == [];
      assert UnitAt(c.group, points[0]);
      assert points[0] in points;
    } else {
      FoldIsSum(c, xy, points, n - 1, p);
      assert points[..n][..n - 1] == points[..n - 1];
      assert points[n - 1] in points;
      assert ChordAt(c.group, xy, Sum(c.group, points[..n - 1]), points[n - 1], p);
    }
  }

  /** The aggregate verifies against the two keys that aggregatePublicKeys computes from coordinates. */
  lemma AggregateVerifiesOnCoordinates<T(!new)>(
      c: Params<T>, xy: T -> Point, privKeys: seq<nat>, message: seq<byte>, challenge: seq<byte>, p: int)
    returns (R: T, P: T)
    requires IsPrime(p) && ValidParams(c) && Coordinates(c, xy, p)
    requires privKeys != [] && forall i :: 0 <= i < |privKeys| ==> privKeys[i] < c.n
    requires var keys := PublicKeys(c, privKeys); var nonceKeys := NoncePublicKeys(c, privKeys, message);
      && c.group.zero !in keys && Aggregation.Generic(Affine(xy, keys), |keys|, p)
      && c.group.zero !in nonceKeys && Aggregation.Generic(Affine(xy, nonceKeys), |nonceKeys|, p)
    ensures xy(P) == Aggregation.Aggregate(Affine(xy, PublicKeys(c, privKeys)), p)
    ensures xy(R) == Aggregation.Aggregate(Affine(xy, NoncePublicKeys(c, privKeys, message)), p)
    ensures Scale(c.group, Total(Signatures(c, privKeys, message, challenge), c.n), c.base)
         == c.group.add(R, Scale(c.group, FromBytes(challenge), P))
  {
    var keys, nonceKeys := PublicKeys(c, privKeys), NoncePublicKeys(c, privKeys, message);
    P, R := Sum(c.group, keys), Sum(c.group, nonceKeys);
    FoldIsSum(c, xy, keys, |keys|, p);
    FoldIsSum(c, xy, nonceKeys, |nonceKeys|, p);
    assert keys[..|keys|] == keys && nonceKeys[..|nonceKeys|] == nonceKeys;
    AggregateVerifies(c, privKeys, message, challenge);
  }

  datatype Signed = Signed(signature: seq<byte>, commitment: seq<byte>, nonce: nat, challenge: seq<byte>)

  /** SignSingle; None where toAddress panics. */
  function SignSingle<T>(c: Params<T>, xy: T -> Point, privKeyBytes: seq<byte>, message: seq<byte>): Option<Signed>
    requires c.n > 0
    requires var k := PrivKeyFromBytes(privKeyBytes, c.n);
      var P, R := xy(PublicKey(c, k)), xy(ComputeNoncePublicKey(c, DeriveNonce(c, k, message)));
      P.x >= 0 && P.y >= 0 && R.x >= 0 && R.y >= 0
  {
    var privKey := PrivKeyFromBytes(privKeyBytes, c.n);
    var nonce := DeriveNonce(c, privKey, message);
    match Commitment(c.hash, xy(ComputeNoncePublicKey(c, nonce)))
    case None => None
    case Some(commitment) =>
      var challenge := ConstructChallenge(c.hash, c.n, xy(PublicKey(c, privKey)), message, commitment);
      Some(Signed(ComputeSignature(privKey, nonce, challenge, c.n), commitment, nonce, challenge))
  }

  /** SignSingle is the protocol with one signer: same parameters, and its signature is its own aggregate. */
  lemma SignSingleIsOneSigner<T(!new)>(c: Params<T>, xy: T -> Point, privKeyBytes: seq<byte>, message: seq<byte>,
                                p: int)
    requires IsPrime(p) && ValidParams(c) && Coordinates(c, xy, p)
    requires var k := PrivKeyFromBytes(privKeyBytes, c.n);
      PublicKey(c, k) != c.group.zero && ComputeNoncePublicKey(c, DeriveNonce(c, k, message)) != c.group.zero
    ensures var k := PrivKeyFromBytes(privKeyBytes, c.n);
      var P, R := xy(PublicKey(c, k)), xy(ComputeNoncePublicKey(c, DeriveNonce(c, k, message)));
      var params := ParamsFor(c.hash, c.n, [P], [R], message, p);
      match SignSingle(c, xy, privKeyBytes, message)
      case None => params == None
      case Some(r) =>
        && params == Some(SigningParams(P, r.challenge, r.commitment))
        && Signatures(c, [k], message, r.challenge) == [r.signature]
        && ToBytes(Total([r.signature], c.n)) == r.signature
        && Scale(c.group, FromBytes(r.signature), c.base)
        == c.group.add(ComputeNoncePublicKey(c, r.nonce), Scale(c.group, FromBytes(r.challenge), PublicKey(c, k)))
  {
    var k := PrivKeyFromBytes(privKeyBytes, c.n);
    var r := SignSingle(c, xy, privKeyBytes, message);
    if r.Some? {
      var sig := r.value.signature;
      SignatureEquation(c, k, r.value.nonce, r.value.challenge);
      assert Total([sig][..0], c.n) == 0;
      assert Total([sig], c.n) == Addmod(0, FromBytes(sig), c.n);
      ModUnique(FromBytes(sig), c.n, 0, FromBytes(sig));
      RoundTrip(Addmod(r.value.nonce, Mulmod(FromBytes(r.value.challenge), FromBytes(Fixed(k, 32)), c.n), c.n));
    }
  }
}
