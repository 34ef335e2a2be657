/** The sentry round of a closed batch: licences are probed, commitments collected, then signatures. */
module SentryRound {
  import opened Wrappers
  import opened BigEndian
  import opened Entities
  import opened ModArith
  import opened Field
  import opened Curve
  import Aggregation
  import RewardBatches
  import opened MultiSignature
  import Groups = Group

  const A := 1664525
  const A_INVERSE := 4276115653
  const C := 1013904223
  const M := 0x1_0000_0000

  /** utils.Lcg, whose product and sum wrap at 64 bits. */
  function Lcg(seed: uint64): nat {
    (((A * seed) % 0x1_0000_0000_0000_0000 + C) % 0x1_0000_0000_0000_0000) % M
  }

  lemma WrapIsHarmless(a: int, w: int, n: int, k: int)
    requires n > 0 && w == n * k && k > 0
    ensures (a % w) % n == a % n
  {
    var q := a / w;
    assert a == w * q + a % w;
    assert w * q == n * (k * q);
    ModShift(a % w, k * q, n);
  }

  /** The 64-bit wrap does not change the result. */
  lemma LcgIsExact(seed: uint64)
    ensures Lcg(seed) == (A * seed + C) % M
  {
    var w := 0x1_0000_0000_0000_0000;
    var p := (A * seed) % w;
    WrapIsHarmless(p + C, w, M, M);
    WrapIsHarmless(A * seed, w, M, M);
    CongAdd(p, A * seed, C, C, M);
  }

  /** Modulo 2^32 the generator is a permutation, with this inverse. */
  lemma LcgInverse(seed: uint64)
    ensures (A_INVERSE * (Lcg(seed) - C)) % M == seed % M
  {
    LcgIsExact(seed);
    CongMod(A * seed + C, M);
    CongAdd(Lcg(seed), A * seed + C, C, C, M);
    CongMul(A_INVERSE, A_INVERSE, Lcg(seed) - C, A * seed, M);
    assert A_INVERSE * A == 1 + M * 1657219;
    calc {
      A_INVERSE * (A * seed);
      seed + M * (1657219 * seed);
    }
    ModShift(seed, 1657219 * seed, M);
  }

  lemma LcgIsInjective(s: uint64, t: uint64)
    ensures Lcg(s) == Lcg(t) <==> s % M == t % M
  {
    if s % M == t % M {
      LcgIsExact(s);
      LcgIsExact(t);
      CongMul(A, A, s, t, M);
      CongAdd(A * s, A * t, C, C, M);
    } else {
      LcgInverse(s);
      LcgInverse(t);
    }
  }

  /** The start licence is always 1000: the sum is written over its receiver. */
  const START := 1000

  function Salt(hashNumber: nat): nat {
    hashNumber % 1000 + 1
  }

  /** The seed of probe i. */
  function Seed(i: nat, salt: nat): uint64
    requires i < 78 && salt <= 1000
  {
    START + i * salt
  }

  /** The licence of probe i among `total` active ones. */
  function Licence(i: nat, salt: nat, total: nat): (r: nat)
    requires i < 78 && salt <= 1000 && total > 0
    ensures 1000 <= r < 1000 + total
    ensures r == ((1664525 * (1000 + i * salt) + 1013904223) % 0x1_0000_0000) % total + 1000
  {
    LcgIsExact(Seed(i, salt));
    Lcg(Seed(i, salt)) % total + 1000
  }

  lemma ProductIsMonotone(i: nat, j: nat, salt: nat)
    requires i < j < 78 && 0 < salt <= 1000
    ensures 0 <= i * salt < j * salt <= 78000
  {
    assert j * salt == i * salt + (j - i) * salt;
    assert (j - i) * salt > 0;
    assert j * salt <= 78 * salt;
  }

  /** Different probes draw different numbers. */
  lemma ProbesAreDistinct(i: nat, j: nat, salt: nat)
    requires i < j < 78 && 0 < salt <= 1000
    ensures Lcg(Seed(i, salt)) != Lcg(Seed(j, salt))
  {
    ProductIsMonotone(i, j, salt);
    var s, t := Seed(i, salt), Seed(j, salt);
    LcgIsInjective(s, t);
    ModUnique(s, M, 0, s);
    ModUnique(t, M, 0, t);
  }

  /** Two probes ask for one licence if and only if the number of licences divides the difference of their draws. */
  lemma LicencesAgreeIff(i: nat, j: nat, salt: nat, total: nat)
    requires i < 78 && j < 78 && salt <= 1000 && total > 0
    ensures Licence(i, salt, total) == Licence(j, salt, total) <==>
      (Lcg(Seed(i, salt)) - Lcg(Seed(j, salt))) % total == 0
  {
    ModUnique(0, total, 0, 0);
    CongDiff(Lcg(Seed(i, salt)), Lcg(Seed(j, salt)), total);
  }

  /** With 2^32 licences or more, different probes ask for different licences. */
  lemma LicencesAreDistinct(i: nat, j: nat, salt: nat, total: nat)
    requires i < j < 78 && 0 < salt <= 1000 && total >= M
    ensures Licence(i, salt, total) != Licence(j, salt, total)
  {
    ProbesAreDistinct(i, j, salt);
    var s, t := Lcg(Seed(i, salt)), Lcg(Seed(j, salt));
    ModUnique(s, total, 0, s);
    ModUnique(t, total, 0, t);
  }

  /** With six licences, of which a round needs two, and salt 6 the first two probes both ask for licence 1003. */
  lemma LicencesMayRepeat()
    ensures Licence(0, 6, 6) == Licence(1, 6, 6) == 1003 && Needed(6) == 2
  {
    assert A * 1000 + C == 2678429223;
    assert A * 1006 + C == 2688416373;
  }

  /** How many commitments a round needs. */
  function Needed(total: nat): nat {
    if total < 3 then (if total == 0 then 0 else total - 1) else if total < 120 then total / 3 else 30
  }

  /**
   * What the chain and the sentries answer: the operator of a licence, the point that its key bytes parse to, its
   * nonce key, and its signature for a challenge.
   */
  datatype Network = Network(
    operator: nat -> Option<seq<byte>>, key: seq<byte> -> Option<Point>, commit: seq<byte> -> Option<Point>,
    sign: (seq<byte>, seq<byte>) -> Option<seq<byte>>)

  /** Parsed keys are points over the field. */
  ghost predicate ParsesPoints(net: Network, p: int) {
    forall o :: (net.key(o).Some? ==> Reduced(net.key(o).value, p)) &&
      (net.commit(o).Some? ==> Reduced(net.commit(o).value, p))
  }

  function Licences(n: nat, salt: nat, total: nat): seq<nat>
    requires n <= 78 && salt <= 1000 && total > 0
  {
    seq(n, i requires 0 <= i < n => Licence(i, salt, total))
  }

  /** An operator other than this node that commits with a nonce key, and whose own key parses. */
  predicate Commits(net: Network, self: seq<byte>, operator: seq<byte>) {
    operator != [] && operator != self && net.commit(operator).Some? && net.key(operator).Some?
  }

  /** The operators among the licences that commit, in probing order. */
  function Committed(net: Network, self: seq<byte>, licences: seq<nat>): (r: seq<seq<byte>>)
    ensures AllCommit(net, r)
  {
    if licences == [] then []
    else
      var rest := Committed(net, self, licences[..|licences| - 1]);
      match net.operator(licences[|licences| - 1])
      case None => rest
      case Some(operator) => if Commits(net, self, operator) then rest + [operator] else rest
  }

  predicate AllCommit(net: Network, operators: seq<seq<byte>>) {
    forall i :: 0 <= i < |operators| ==> net.commit(operators[i]).Some? && net.key(operators[i]).Some?
  }

  lemma {:induction false} CommittedGrows(net: Network, self: seq<byte>, licences: seq<nat>, n: nat)
    requires n <= |licences|
    ensures Committed(net, self, licences[..n]) <= Committed(net, self, licences)
    decreases |licences| - n
  {
    if n == |licences| {
      assert licences[..n] == licences;
    } else {
      CommittedGrows(net, self, licences, n + 1);
      assert licences[..n + 1][..n] == licences[..n];
    }
  }

  /** Exactly the operators of the licences that are others than this node, commit, and have a key that parses. */
  lemma {:induction false} CommittedIff(net: Network, self: seq<byte>, licences: seq<nat>)
    ensures forall o :: o in Committed(net, self, licences) <==>
      o != [] && o != self && net.commit(o).Some? && net.key(o).Some? &&
      exists l :: l in licences && net.operator(l) == Some(o)
  {
    if licences != [] {
      var init, last := licences[..|licences| - 1], licences[|licences| - 1];
      CommittedIff(net, self, init);
      assert licences == init + [last];
      forall o ensures (exists l :: l in licences && net.operator(l) == Some(o)) <==>
          net.operator(last) == Some(o) || exists l :: l in init && net.operator(l) == Some(o)
      {
        assert last in licences;
        if l :| l in init && net.operator(l) == Some(o) {
          assert l in licences;
        }
      }
    }
  }

  function Keys(net: Network, operators: seq<seq<byte>>): seq<Point>
    requires AllCommit(net, operators)
  {
    seq(|operators|, i requires 0 <= i < |operators| => net.key(operators[i]).value)
  }

  function NonceKeys(net: Network, operators: seq<seq<byte>>): seq<Point>
    requires AllCommit(net, operators)
  {
    seq(|operators|, i requires 0 <= i < |operators| => net.commit(operators[i]).value)
  }

  /** The signing parameters over the committed keys; None where computing them panics. */
  ghost function ParamsOf(net: Network, c: Curve256, operators: seq<seq<byte>>,
                          message: seq<byte>): Option<SigningParams>
    requires ValidCurve(c) && ParsesPoints(net, c.p) && AllCommit(net, operators)
  {
    ParamsFor(c.hash, c.n, Keys(net, operators), NonceKeys(net, operators), message, c.p)
  }

  /** The hash, the group order and the field prime. */
  datatype Curve256 = Curve256(hash: seq<byte> -> seq<byte>, n: nat, p: int)

  ghost predicate ValidCurve(c: Curve256) {
    IsPrime(c.p) && c.p > 2 && c.n > 0
  }

  ghost predicate AllSign(net: Network, operators: seq<seq<byte>>, challenge: seq<byte>) {
    forall i :: 0 <= i < |operators| ==> net.sign(operators[i], challenge).Some?
  }

  /** What the signing round puts into the proof: the signers' keys, the commitment and the aggregate. */
  datatype Proof = Proof(signers: seq<Point>, commitment: seq<byte>, signature: seq<byte>)

  /**
   * How a round ends. A claim stores the batch alone; the proof is assigned to a local variable and dropped, and the
   * claim is later sent with the empty proof of the stored batch.
   */
  datatype Round = Panicked | Unclaimed | Claimed(stored: RewardBatches.Batch, dropped: Proof)

  /** How the signing phase ends. */
  ghost function Signing(net: Network, c: Curve256, batch: RewardBatches.Batch, message: seq<byte>,
                         signers: seq<seq<byte>>): Round
    requires ValidCurve(c) && ParsesPoints(net, c.p) && AllCommit(net, signers)
  {
    match ParamsOf(net, c, signers, message)
    case None => Panicked
    case Some(params) =>
      if AllSign(net, signers, params.challenge) then
        Claimed(batch, Proof(Keys(net, signers), params.commitment,
                             ToBytes(Total(Signed(net, signers, params.challenge), c.n))))
      else Unclaimed
  }

  lemma SigningClaims(net: Network, c: Curve256, batch: RewardBatches.Batch, message: seq<byte>,
                      signers: seq<seq<byte>>)
    requires ValidCurve(c) && ParsesPoints(net, c.p) && AllCommit(net, signers)
    ensures var round := Signing(net, c, batch, message, signers);
      round.Claimed? ==> round.stored == batch && |round.dropped.signers| == |signers|
  {
  }

  /**
   * processSentryRewardBatch. Nothing is claimed unless the probes find the needed number of committing operators; then
   * the round ends as the signing phase of the first of them does, which panics before any signature is requested when
   * their commitment's hash has a zero thirteenth byte.
   */
  method ProcessSentryRewardBatch(net: Network, c: Curve256, self: seq<byte>, batch: RewardBatches.Batch,
                                  message: seq<byte>, total: nat) returns (round: Round, ghost probes: nat)
    requires ValidCurve(c) && ParsesPoints(net, c.p)
    ensures probes <= 2 * Needed(total)
    ensures total <= 1 ==> round == Unclaimed
    ensures round.Claimed? ==>
      && round.stored == batch && |round.dropped.signers| ==
        (if total >= 120 then 30 else if total >= 3 then total / 3 else total - 1)
    ensures total > 0 ==>
      var all := Committed(net, self, Licences(2 * Needed(total), FromBytes(batch.dataHash) % 1000 + 1, total));
      var max := Needed(total);
      round == if max == 0 || |all| < max then Unclaimed else Signing(net, c, batch, message, all[..max])
  {
    probes := 0;
    if total == 0 {
      return Unclaimed, 0;
    }
    var max := Needed(total);
    if max == 0 {
      return Unclaimed, 0;
    }
    round, probes := ProbeAndSign(net, c, self, batch, message,
                                  Licences(2 * max, Salt(FromBytes(batch.dataHash)), total), max);
  }

  /** Both phases over the licences to probe. */
  method ProbeAndSign(net: Network, c: Curve256, self: seq<byte>, batch: RewardBatches.Batch, message: seq<byte>,
                      licences: seq<nat>, max: nat) returns (round: Round, ghost probes: nat)
    requires ValidCurve(c) && ParsesPoints(net, c.p) && max > 0
    ensures probes <= |licences|
    ensures var all := Committed(net, self, licences);
      round == if |all| < max then Unclaimed else Signing(net, c, batch, message, all[..max])
    ensures round.Claimed? ==> round.stored == batch && |round.dropped.signers| == max
  {
    var operatorPubKeys, sentryPubKeys, noncePubKeys;
    operatorPubKeys, sentryPubKeys, noncePubKeys, probes := CollectCommitments(net, self, licences, max);
    round := Unclaimed;
    if |noncePubKeys| == max {
      SigningClaims(net, c, batch, message, operatorPubKeys);
      round := RequestSignatures(net, c, batch, message, operatorPubKeys, sentryPubKeys, noncePubKeys);
    }
  }

  /** The first phase: licences are probed until enough operators have committed. The three lists stay equally long. */
  method CollectCommitments(net: Network, self: seq<byte>, licences: seq<nat>, max: nat)
    returns (operatorPubKeys: seq<seq<byte>>, sentryPubKeys: seq<Point>, noncePubKeys: seq<Point>, ghost probes: nat)
    requires max > 0
    ensures probes <= |licences| && AllCommit(net, operatorPubKeys)
    ensures sentryPubKeys == Keys(net, operatorPubKeys) && noncePubKeys == NonceKeys(net, operatorPubKeys)
    ensures var all := Committed(net, self, licences);
      operatorPubKeys == if |all| < max then all else all[..max]
    ensures |sentryPubKeys| == |noncePubKeys| == |operatorPubKeys| <= max
    ensures forall i | 0 <= i < |operatorPubKeys| ::
      && operatorPubKeys[i] != self && operatorPubKeys[i] != []
      && net.key(operatorPubKeys[i]) == Some(sentryPubKeys[i])
      && net.commit(operatorPubKeys[i]) == Some(noncePubKeys[i])
  {
    operatorPubKeys, sentryPubKeys, noncePubKeys, probes := [], [], [], 0;
    var i := 0;
    while i < |licences|
      invariant 0 <= i <= |licences| && probes == i && AllCommit(net, operatorPubKeys)
      invariant operatorPubKeys == Committed(net, self, licences[..i]) && |operatorPubKeys| < max
      invariant sentryPubKeys == Keys(net, operatorPubKeys) && noncePubKeys == NonceKeys(net, operatorPubKeys)
      invariant forall k | 0 <= k < |operatorPubKeys| :: operatorPubKeys[k] != self && operatorPubKeys[k] != []
    {
      CommittedNext(net, self, licences, i);
      var operator := net.operator(licences[i]);
      i := i + 1;
      probes := probes + 1;
      if operator.None? || operator.value == [] || operator.value == self {
        continue;
      }
      var response := net.commit(operator.value);
      if response.None? {
        continue;
      }
      var pubKey := net.key(operator.value);
      if pubKey.None? {
        continue;
      }
      noncePubKeys := noncePubKeys + [response.value];
      sentryPubKeys := sentryPubKeys + [pubKey.value];
      operatorPubKeys := operatorPubKeys + [operator.value];
      if |noncePubKeys| == max {
        return;
      }
    }
    assert licences[..|licences|] == licences;
  }

  /** One more probe. */
  lemma CommittedNext(net: Network, self: seq<byte>, licences: seq<nat>, i: nat)
    requires i < |licences|
    ensures Committed(net, self, licences[..i + 1]) <= Committed(net, self, licences)
    ensures var operator := net.operator(licences[i]);
      Committed(net, self, licences[..i + 1]) == Committed(net, self, licences[..i]) +
        if operator.Some? && Commits(net, self, operator.value) then [operator.value] else []
  {
    CommittedGrows(net, self, licences, i + 1);
    assert licences[..i + 1][..i] == licences[..i];
  }

  /** A licence that is probed twice puts its operator into the list twice. */
  lemma RepeatedLicence(net: Network, self: seq<byte>, licences: seq<nat>, i: nat, j: nat) returns (k: nat, l: nat)
    requires i < j < |licences| && licences[i] == licences[j]
    requires net.operator(licences[i]).Some? && Commits(net, self, net.operator(licences[i]).value)
    ensures k == |Committed(net, self, licences[..i])| < l == |Committed(net, self, licences[..j])|
    ensures var all := Committed(net, self, licences);
      l < |all| && all[k] == all[l] == net.operator(licences[i]).value
  {
    k, l := |Committed(net, self, licences[..i])|, |Committed(net, self, licences[..j])|;
    CommittedNext(net, self, licences, i);
    CommittedNext(net, self, licences, j);
    CommittedGrows(net, self, licences[..j], i + 1);
    assert licences[..j][..i + 1] == licences[..i + 1];
  }

  /** Listed first and second, it makes the aggregates of the keys and of the nonce keys collapse to (0, 0). */
  lemma RepeatedOperatorCollapses(net: Network, operators: seq<seq<byte>>, p: int)
    requires IsPrime(p) && AllCommit(net, operators) && |operators| >= 2 && operators[0] == operators[1]
    ensures Aggregation.Aggregate(Keys(net, operators), p) == Point(0, 0)
    ensures Aggregation.Aggregate(NonceKeys(net, operators), p) == Point(0, 0)
  {
    Aggregation.EqualFirstKeysCollapse(Keys(net, operators), p);
    Aggregation.EqualFirstKeysCollapse(NonceKeys(net, operators), p);
  }

  /**
   * So when the number of licences divides the difference of the first two draws, and the operator of their licence
   * commits, every round that needs two operators or more signs for (0, 0), which is no point of the curve.
   */
  lemma RepeatedProbesCollapse(net: Network, self: seq<byte>, salt: nat, total: nat, p: int)
    requires IsPrime(p) && salt <= 1000 && Needed(total) >= 2
    requires (Lcg(Seed(0, salt)) - Lcg(Seed(1, salt))) % total == 0
    requires var operator := net.operator(Licence(0, salt, total));
      operator.Some? && Commits(net, self, operator.value)
    ensures var all, max := Committed(net, self, Licences(2 * Needed(total), salt, total)), Needed(total);
      |all| >= 2 &&
      (|all| >= max ==>
         Aggregation.Aggregate(Keys(net, all[..max]), p) == Point(0, 0) &&
         Aggregation.Aggregate(NonceKeys(net, all[..max]), p) == Point(0, 0))
  {
    LicencesAgreeIff(0, 1, salt, total);
    var licences, max := Licences(2 * Needed(total), salt, total), Needed(total);
    var k, l := RepeatedLicence(net, self, licences, 0, 1);
    assert licences[..0] == [] && k == 0;
    CommittedNext(net, self, licences, 0);
    assert licences[..1][..0] == [] && l == 1;
    var all := Committed(net, self, licences);
    if |all| >= max {
      RepeatedOperatorCollapses(net, all[..max], p);
    }
  }

  /** The aggregates of the committed keys and nonce keys. */
  ghost function AggregatedKeys(net: Network, c: Curve256, operators: seq<seq<byte>>): (r: (Point, Point))
    requires ValidCurve(c) && ParsesPoints(net, c.p) && AllCommit(net, operators) && operators != []
    ensures Reduced(r.0, c.p) && r.0 == Aggregation.Aggregate(Keys(net, operators), c.p)
    ensures Reduced(r.1, c.p) && r.1 == Aggregation.Aggregate(NonceKeys(net, operators), c.p)
  {
    (AggregatedKey(Keys(net, operators), c.p), AggregatedKey(NonceKeys(net, operators), c.p))
  }

  /**
   * A panic if the hash of the aggregated nonce key has a zero thirteenth byte; otherwise a claim if and only if every
   * operator signs the hash of key, message and commitment modulo n, with their keys and that commitment in the proof.
   */
  ghost predicate EndsAs(round: Round, net: Network, c: Curve256, batch: RewardBatches.Batch, message: seq<byte>,
                         operators: seq<seq<byte>>)
    requires ValidCurve(c) && ParsesPoints(net, c.p) && AllCommit(net, operators) && operators != []
  {
    var (key, nonceKey) := AggregatedKeys(net, c, operators);
    IsHash(c.hash) ==>
      var digest := c.hash(ToBytes(nonceKey.x) + ToBytes(nonceKey.y));
      var challenge := ToBytes(FromBytes(c.hash(ToBytes(key.x) + [key.y % 2] + message + digest[12..])) % c.n);
      if digest[12] == 0 then round == Panicked
      else if forall i :: 0 <= i < |operators| ==> net.sign(operators[i], challenge).Some? then
        && round.Claimed? && round.stored == batch && round.dropped.signers == Keys(net, operators)
        && round.dropped.commitment == digest[12..]
        && FromBytes(round.dropped.signature) == Total(Signed(net, operators, challenge), c.n)
      else round == Unclaimed
  }

  lemma SigningEndsAs(net: Network, c: Curve256, batch: RewardBatches.Batch, message: seq<byte>,
                      operators: seq<seq<byte>>)
    requires ValidCurve(c) && ParsesPoints(net, c.p) && AllCommit(net, operators) && operators != []
    ensures EndsAs(Signing(net, c, batch, message, operators), net, c, batch, message, operators)
  {
    ParamsAre(c.hash, c.n, Keys(net, operators), NonceKeys(net, operators), message, c.p);
    var params := ParamsOf(net, c, operators, message);
    if params.Some? {
      RoundTrip(Total(Signed(net, operators, params.value.challenge), c.n));
    }
  }

  /** The second phase: the signing parameters, one request to each signer, and a claim when all of them sign. */
  method RequestSignatures(net: Network, c: Curve256, batch: RewardBatches.Batch, message: seq<byte>,
                           operators: seq<seq<byte>>, keys: seq<Point>, nonceKeys: seq<Point>) returns (round: Round)
    requires ValidCurve(c) && ParsesPoints(net, c.p) && AllCommit(net, operators)
    requires keys == Keys(net, operators) && nonceKeys == NonceKeys(net, operators)
    ensures round == Signing(net, c, batch, message, operators)
    ensures operators == [] ==> round == Panicked
    ensures operators != [] ==> EndsAs(round, net, c, batch, message, operators)
  {
    if operators != [] {
      SigningEndsAs(net, c, batch, message, operators);
    }
    var params := ComputeSigningParams(c.hash, c.n, keys, nonceKeys, message, c.p);
    if params.None? {
      return Panicked;
    }
    var signatures := CollectSignatures(net, operators, params.value.challenge);
    if |signatures| == |operators| {
      var aggSig := AggregateSignatures(signatures, c.n);
      return Claimed(batch, Proof(keys, params.value.commitment, aggSig));
    }
    return Unclaimed;
  }

  /** The signatures of those operators that sign. */
  function Signed(net: Network, operators: seq<seq<byte>>, challenge: seq<byte>): seq<seq<byte>> {
    if operators == [] then []
    else
      var rest := Signed(net, operators[..|operators| - 1], challenge);
      match net.sign(operators[|operators| - 1], challenge)
      case None => rest
      case Some(s) => rest + [s]
  }

  lemma {:induction false} SignedAll(net: Network, operators: seq<seq<byte>>, challenge: seq<byte>)
    ensures |Signed(net, operators, challenge)| <= |operators|
    ensures |Signed(net, operators, challenge)| == |operators| <==> AllSign(net, operators, challenge)
  {
    if operators != [] {
      SignedAll(net, operators[..|operators| - 1], challenge);
      assert operators == operators[..|operators| - 1] + [operators[|operators| - 1]];
    }
  }

  method CollectSignatures(net: Network, operators: seq<seq<byte>>, challenge: seq<byte>)
    returns (signatures: seq<seq<byte>>)
    ensures signatures == Signed(net, operators, challenge)
    ensures |signatures| == |operators| <==> AllSign(net, operators, challenge)
  {
    signatures := [];
    for i := 0 to |operators|
      invariant signatures == Signed(net, operators[..i], challenge)
    {
      assert operators[..i + 1][..i] == operators[..i];
      var s := net.sign(operators[i], challenge);
      if s.Some? {
        signatures := signatures + [s.value];
      }
    }
    assert operators[..|operators|] == operators;
    SignedAll(net, operators, challenge);
  }

  // ---------------------------------------------------------------------------------------------
  // Honest signers.

  /** Operator i holds privKeys[i], commits with the nonce key for the message, and signs any challenge with both. */
  ghost predicate AreHonest<T>(net: Network, g: Params<T>, xy: T -> Point, operators: seq<seq<byte>>,
                               privKeys: seq<nat>,
                               message: seq<byte>)
    requires g.n > 0
  {
    |privKeys| == |operators| && forall i :: 0 <= i < |operators| ==>
      && privKeys[i] < g.n
      && net.key(operators[i]) == Some(xy(PublicKey(g, privKeys[i])))
      && net.commit(operators[i]) == Some(xy(ComputeNoncePublicKey(g, DeriveNonce(g, privKeys[i], message))))
      && forall challenge :: net.sign(operators[i], challenge)
           == Some(ComputeSignature(privKeys[i], DeriveNonce(g, privKeys[i], message), challenge, g.n))
  }

  lemma {:induction false} HonestSignatures<T>(net: Network, g: Params<T>, xy: T -> Point, operators: seq<seq<byte>>,
                                               privKeys: seq<nat>, message: seq<byte>, challenge: seq<byte>)
    requires g.n > 0 && AreHonest(net, g, xy, operators, privKeys, message)
    ensures Signed(net, operators, challenge) == Signatures(g, privKeys, message, challenge)
  {
    if operators != [] {
      var k := |operators| - 1;
      HonestSignatures(net, g, xy, operators[..k], privKeys[..k], message, challenge);
      assert Signatures(g, privKeys, message, challenge)[..k] == Signatures(g, privKeys[..k], message, challenge);
      assert net.sign(operators[k], challenge).Some?;
    }
  }

  lemma HonestKeys<T>(net: Network, g: Params<T>, xy: T -> Point, operators: seq<seq<byte>>, privKeys: seq<nat>,
                      message: seq<byte>)
    requires g.n > 0 && AreHonest(net, g, xy, operators, privKeys, message)
    ensures AllCommit(net, operators)
    ensures Keys(net, operators) == Affine(xy, PublicKeys(g, privKeys))
    ensures NonceKeys(net, operators) == Affine(xy, NoncePublicKeys(g, privKeys, message))
  {
  }

  /** Honest signers claim unless the signing parameters panic, and drop the aggregate of their signatures. */
  lemma HonestRoundClaims<T>(net: Network, g: Params<T>, xy: T -> Point, p: int, batch: RewardBatches.Batch,
                             operators: seq<seq<byte>>, privKeys: seq<nat>, message: seq<byte>)
    requires IsPrime(p) && p > 2 && g.n > 0 && ParsesPoints(net, p)
    requires AllCommit(net, operators) && AreHonest(net, g, xy, operators, privKeys, message)
    ensures var c := Curve256(g.hash, g.n, p);
      match ParamsOf(net, c, operators, message)
      case None => Signing(net, c, batch, message, operators) == Panicked
      case Some(params) =>
        Signing(net, c, batch, message, operators) == Claimed(batch, Proof(Keys(net, operators), params.commitment,
          ToBytes(Total(Signatures(g, privKeys, message, params.challenge), g.n))))
  {
    var params := ParamsOf(net, Curve256(g.hash, g.n, p), operators, message);
    if params.Some? {
      HonestSignatures(net, g, xy, operators, privKeys, message, params.value.challenge);
      SignedAll(net, operators, params.value.challenge);
    }
  }

  /** No two keys that are added share an abscissa, and none is the identity. */
  ghost predicate AreGeneric<T>(g: Params<T>, xy: T -> Point, points: seq<T>, p: int)
    requires IsPrime(p)
  {
    points != [] && g.group.zero !in points && Aggregation.Generic(Affine(xy, points), |points|, p)
  }

  /** And that aggregate verifies under the round's own challenge against the two aggregated keys. */
  lemma HonestRoundVerifies<T(!new)>(net: Network, g: Params<T>, xy: T -> Point, p: int, batch: RewardBatches.Batch,
                                     operators: seq<seq<byte>>, privKeys: seq<nat>, message: seq<byte>)
    returns (R: T, P: T)
    requires IsPrime(p) && p > 2 && ValidParams(g) && Coordinates(g, xy, p) && ParsesPoints(net, p)
    requires AllCommit(net, operators) && AreHonest(net, g, xy, operators, privKeys, message)
    requires AreGeneric(g, xy, PublicKeys(g, privKeys), p) &&
      AreGeneric(g, xy, NoncePublicKeys(g, privKeys, message), p)
    ensures xy(P) == Aggregation.Aggregate(Keys(net, operators), p)
    ensures xy(R) == Aggregation.Aggregate(NonceKeys(net, operators), p)
    ensures var c := Curve256(g.hash, g.n, p);
      var params, round := ParamsOf(net, c, operators, message), Signing(net, c, batch, message, operators);
      && (round.Claimed? <==> params.Some?)
      && (round.Claimed? ==>
            Groups.Scale(g.group, FromBytes(round.dropped.signature), g.base)
            == g.group.add(R, Groups.Scale(g.group, FromBytes(params.value.challenge), P)))
  {
    HonestKeys(net, g, xy, operators, privKeys, message);
    HonestRoundClaims(net, g, xy, p, batch, operators, privKeys, message);
    var params := ParamsOf(net, Curve256(g.hash, g.n, p), operators, message);
    var challenge := if params.Some? then params.value.challenge else [];
    R, P := AggregateVerifiesOnCoordinates(g, xy, privKeys, message, challenge, p);
    RoundTrip(Total(Signatures(g, privKeys, message, challenge), g.n));
  }
}
