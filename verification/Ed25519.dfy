/** The hand-written EdDSA of src/key_exchange/group/ed25519.rs, sections 5.1.5 to 5.1.7 of RFC 8032. */
module Ed25519 {
  import opened Arithmetic
  import opened Errors
  import opened Serialization
  import opened Curve25519
  import Primitives

  datatype Point = Point(id: nat)

  /** Arithmetic on the curve and SHA-512, as the code uses them; `ell` is the order of the base point. */
  datatype Curve = Curve(
    ell: nat,
    valid: Point -> bool,
    zero: Point,
    base: Point,
    add: (Point, Point) -> Point,
    neg: Point -> Point,
    compress: Point -> Bytes,
    decompress: Bytes -> Option<Point>,
    sha512: Bytes -> Bytes)
  {
    ghost predicate Associates(p: Point, q: Point, r: Point) {
      valid(p) && valid(q) && valid(r) ==> add(add(p, q), r) == add(p, add(q, r))
    }

    ghost predicate Commutes(p: Point, q: Point) {
      valid(p) && valid(q) ==> add(p, q) == add(q, p)
    }

    ghost predicate Inverts(p: Point) {
      valid(p) ==> valid(neg(p)) && add(neg(p), p) == zero
    }

    /** The points form an abelian group. */
    ghost predicate GroupLaws() {
      && valid(zero) && valid(base)
      && (forall p, q {:trigger add(p, q)} :: valid(p) && valid(q) ==> valid(add(p, q)))
      && (forall p {:trigger add(zero, p)} :: valid(p) ==> add(zero, p) == p)
      && (forall p, q, r :: Associates(p, q, r))
      && (forall p, q :: Commutes(p, q))
      && (forall p :: Inverts(p))
    }

    /** Scalar multiplication. */
    function Mul(n: nat, p: Point): Point {
      if n == 0 then zero else add(p, Mul(n - 1, p))
    }

    ghost predicate NotYetZero(n: nat) {
      0 < n < ell ==> Mul(n, base) != zero
    }

    /** The base point has order `ell`, an odd number of 253 bits. */
    ghost predicate BaseOrder() {
      && ell % 2 == 1 && Pow2(252) < ell < Pow2(253)
      && Mul(ell, base) == zero
      && (forall n :: NotYetZero(n))
    }

    ghost predicate Lawful() {
      && GroupLaws()
      && BaseOrder()
      && (forall p {:trigger compress(p)} :: valid(p) ==> |compress(p)| == 32 && decompress(compress(p)) == Some(p))
      && (forall b {:trigger decompress(b)} :: decompress(b).Some? ==> valid(decompress(b).value))
      && (forall m {:trigger sha512(m)} :: |sha512(m)| == 64)
    }
  }

  // ---------------------------------------------------------------------
  // Scalar multiplication
  // ---------------------------------------------------------------------

  lemma {:induction false} MulValid(c: Curve, n: nat, p: Point)
    requires c.GroupLaws() && c.valid(p)
    ensures c.valid(c.Mul(n, p))
  {
    if n > 0 {
      MulValid(c, n - 1, p);
    }
  }

  lemma {:induction false} MulAdd(c: Curve, m: nat, n: nat, p: Point)
    requires c.GroupLaws() && c.valid(p)
    ensures c.Mul(m + n, p) == c.add(c.Mul(m, p), c.Mul(n, p))
  {
    MulValid(c, n, p);
    if m > 0 {
      MulAdd(c, m - 1, n, p);
      MulValid(c, m - 1, p);
      assert c.Associates(p, c.Mul(m - 1, p), c.Mul(n, p));
      assert c.Mul(m + n, p) == c.add(p, c.Mul(m - 1 + n, p));
    }
  }

  lemma {:induction false} MulTimes(c: Curve, m: nat, n: nat, p: Point)
    requires c.GroupLaws() && c.valid(p)
    ensures c.Mul(m * n, p) == c.Mul(m, c.Mul(n, p))
  {
    if m > 0 {
      MulTimes(c, m - 1, n, p);
      assert m * n == n + (m - 1) * n;
      MulAdd(c, n, (m - 1) * n, p);
    }
  }

  lemma {:induction false} MulZero(c: Curve, n: nat)
    requires c.GroupLaws()
    ensures c.Mul(n, c.zero) == c.zero
  {
    if n > 0 {
      MulZero(c, n - 1);
    }
  }

  /** The exponent of the base point counts modulo its order. */
  lemma MulReduced(c: Curve, n: nat)
    requires c.GroupLaws() && c.ell > 0 && c.Mul(c.ell, c.base) == c.zero
    ensures c.Mul(n % c.ell, c.base) == c.Mul(n, c.base)
  {
    Parts(n, c.ell);
    MulDropsOrder(c, n / c.ell, n % c.ell);
  }

  lemma MulDropsOrder(c: Curve, q: nat, r: nat)
    requires c.GroupLaws() && c.Mul(c.ell, c.base) == c.zero
    ensures c.Mul(q * c.ell + r, c.base) == c.Mul(r, c.base)
  {
    MulTimes(c, q, c.ell, c.base);
    MulZero(c, q);
    MulAdd(c, q * c.ell, r, c.base);
    MulValid(c, r, c.base);
  }

  /** Equal multiples of the base point have equal reduced exponents. */
  lemma MulInjective(c: Curve, m: nat, n: nat)
    requires c.GroupLaws() && n <= m < c.ell && c.NotYetZero(m - n)
    requires c.Mul(m, c.base) == c.Mul(n, c.base)
    ensures m == n
  {
    MulDifference(c, m - n, n);
  }

  lemma MulDifference(c: Curve, d: nat, n: nat)
    requires c.GroupLaws() && c.Mul(d + n, c.base) == c.Mul(n, c.base)
    ensures c.Mul(d, c.base) == c.zero
  {
    var p, x := c.Mul(d, c.base), c.Mul(n, c.base);
    MulAdd(c, d, n, c.base);
    MulValid(c, d, c.base);
    MulValid(c, n, c.base);
    assert c.add(c.zero, x) == x;
    Cancel(c, p, c.zero, x);
  }

  lemma Cancel(c: Curve, p: Point, q: Point, r: Point)
    requires c.GroupLaws() && c.valid(p) && c.valid(q) && c.valid(r)
    requires c.add(p, r) == c.add(q, r)
    ensures p == q
  {
    assert c.Commutes(p, r) && c.Commutes(q, r) && c.Inverts(r);
    assert c.Associates(c.neg(r), r, p) && c.Associates(c.neg(r), r, q);
  }

  lemma {:induction false} MulNeg(c: Curve, n: nat, p: Point)
    requires c.GroupLaws() && c.valid(p)
    ensures c.valid(c.Mul(n, c.neg(p))) && c.add(c.Mul(n, c.neg(p)), c.Mul(n, p)) == c.zero
  {
    assert c.Inverts(p);
    MulValid(c, n, c.neg(p));
    if n > 0 {
      MulNeg(c, n - 1, p);
      var a, b := c.Mul(n - 1, c.neg(p)), c.Mul(n - 1, p);
      MulValid(c, n - 1, c.neg(p));
      MulValid(c, n - 1, p);
      // (-p + a) + (p + b) == (-p + p) + (a + b)
      assert c.Associates(c.neg(p), a, c.add(p, b)) && c.Associates(a, p, b) && c.Commutes(a, p)
             && c.Associates(p, a, b);
      assert c.Associates(c.neg(p), p, c.add(a, b));
    }
  }

  // ---------------------------------------------------------------------
  // Keys
  // ---------------------------------------------------------------------

  /** The encoding is kept as it was received. */
  datatype VerifyingKey = VerifyingKey(point: Point, compressed: Bytes)

  datatype SigningKey = SigningKey(sk: Bytes, verifyingKey: VerifyingKey, scalar: nat, hashPrefix: Bytes)

  function VerifyingKeyFromBytes(c: Curve, bytes: Bytes): Result<VerifyingKey> {
    match c.decompress(bytes)
    case Some(point) => if point != c.zero then Ok(VerifyingKey(point, bytes)) else Err(SerializationError)
    case None => Err(SerializationError)
  }

  /** `SigningKey::from_bytes`: the first half of the hash is clamped to the scalar, the second half is the prefix. */
  function SigningKeyFromBytes(c: Curve, sk: Bytes): SigningKey
    requires c.ell > 0 && |c.sha512(sk)| == 64
  {
    var h := c.sha512(sk);
    var scalar := LeValue(Clamp(h[..32])) % c.ell;
    var point := c.Mul(scalar, c.base);
    SigningKey(sk, VerifyingKey(point, c.compress(point)), scalar, h[32..])
  }

  /** A key is consistent when its public half is the secret multiple of the base point. */
  ghost predicate Consistent(c: Curve, sk: SigningKey) {
    sk.scalar < c.ell && sk.verifyingKey.point == c.Mul(sk.scalar, c.base)
  }

  /** A multiple of the odd order between four and eight times a smaller number is no multiple of eight. */
  lemma NotMultipleOfEight(ell: nat, q: nat, low: nat)
    requires ell % 2 == 1 && 0 < low < ell
    requires 4 * low <= ell * q < 8 * low
    ensures ell * q % 8 != 0
  {
    LargeMultiple(ell, q);
    SmallMultiple(ell, q);
  }

  lemma LargeMultiple(ell: nat, q: nat)
    ensures q >= 8 ==> ell * q >= 8 * ell
  {
    if q >= 8 {
      assert ell * q >= ell * 8;
    }
  }

  lemma SmallMultiple(ell: nat, q: nat)
    requires ell % 2 == 1
    ensures 0 < q < 8 ==> ell * q % 8 != 0
  {
  }

  lemma ScalarNotZero(a: nat, ell: nat, low: nat)
    requires ell % 2 == 1 && 0 < low < ell && a % 8 == 0 && 4 * low <= a < 8 * low
    ensures 0 < a % ell < ell
  {
    if a % ell == 0 {
      assert a == ell * (a / ell);
      NotMultipleOfEight(ell, a / ell, low);
    }
  }

  /**
    No seed gives the identity as public key: every public key parses back, although the parser refuses the
    identity.
  */
  lemma PublicKeyParses(c: Curve, sk: Bytes)
    requires c.Lawful() && |sk| == 32
    ensures Consistent(c, SigningKeyFromBytes(c, sk))
    ensures SigningKeyFromBytes(c, sk).verifyingKey.point != c.zero
    ensures VerifyingKeyFromBytes(c, SigningKeyFromBytes(c, sk).verifyingKey.compressed)
         == Ok(SigningKeyFromBytes(c, sk).verifyingKey)
  {
    var clamped := Clamp(c.sha512(sk)[..32]);
    var a := LeValue(clamped);
    ClampIsCanonical(c.sha512(sk)[..32]);
    assert Pow2(254) == 2 * Pow2(253) == 4 * Pow2(252) && Pow2(255) == 2 * Pow2(254);
    ScalarNotZero(a, c.ell, Pow2(252));
    assert c.NotYetZero(a % c.ell);
    MulValid(c, a % c.ell, c.base);
  }

  // ---------------------------------------------------------------------
  // Signatures
  // ---------------------------------------------------------------------

  const STR_DOM: Bytes := Primitives.Ascii("SigEd25519 no Ed25519 collisions") + [1] + [0]

  datatype Signature = Signature(R: Bytes, s: nat)

  /** The prefix that separates pre-hashed from pure signatures. */
  function Dom(preHash: bool): Bytes {
    if preHash then STR_DOM else []
  }

  /** `Scalar::from_hash`. */
  function FromHash(c: Curve, data: Bytes): (k: nat)
    requires c.ell > 0
    ensures k < c.ell
  {
    LeValue(c.sha512(data)) % c.ell
  }

  function Challenge(c: Curve, preHash: bool, R: Bytes, pk: Bytes, message: Bytes): (k: nat)
    requires c.ell > 0
    ensures k < c.ell
  {
    FromHash(c, Dom(preHash) + (R + (pk + message)))
  }

  /** Section 5.1.6 of RFC 8032 for the whole message. */
  function SignSpec(c: Curve, sk: SigningKey, preHash: bool, message: Bytes): Signature
    requires c.ell > 0
  {
    var r := FromHash(c, Dom(preHash) + (sk.hashPrefix + message));
    var R := c.compress(c.Mul(r, c.base));
    Signature(R, (Challenge(c, preHash, R, sk.verifyingKey.compressed, message) * sk.scalar + r) % c.ell)
  }

  /**
    The point the verifier compares with R: the base multiplied by s, less the public key multiplied by the
    challenge.
  */
  function ExpectedPoint(c: Curve, pk: VerifyingKey, preHash: bool, message: Bytes, sig: Signature): Point
    requires c.ell > 0
  {
    var k := Challenge(c, preHash, sig.R, pk.compressed, message);
    c.add(c.Mul(k, c.neg(pk.point)), c.Mul(sig.s, c.base))
  }

  predicate Accepts(c: Curve, pk: VerifyingKey, preHash: bool, message: Bytes, sig: Signature)
    requires c.ell > 0
  {
    c.compress(ExpectedPoint(c, pk, preHash, message, sig)) == sig.R
  }

  /** Scalar multiplication step by step, as the model's stand-in for the curve library. */
  method MulPoint(c: Curve, n: nat, p: Point) returns (r: Point)
    ensures r == c.Mul(n, p)
  {
    r := c.zero;
    for i := 0 to n
      invariant r == c.Mul(i, p)
    {
      r := c.add(p, r);
    }
  }

  /** The start of both hashes. */
  method NewHasher(preHash: bool) returns (h: Absorber)
    ensures fresh(h) && h.data == Dom(preHash)
  {
    h := new Absorber();
    if preHash {
      h.Update(Primitives.Ascii("SigEd25519 no Ed25519 collisions"));
      h.Update([1]);
      h.Update([0]);
      assert h.data == STR_DOM;
    }
  }

  /** `sign`: the message arrives in chunks and is absorbed twice. */
  method Sign(c: Curve, sk: SigningKey, preHash: bool, message: seq<Bytes>) returns (sig: Signature)
    requires c.ell > 0
    ensures sig == SignSpec(c, sk, preHash, Flatten(message)) && sig.s < c.ell
  {
    var h := NewHasher(preHash);
    h.Update(sk.hashPrefix);
    h.UpdateIter(message);
    CatAssoc(Dom(preHash), sk.hashPrefix, Flatten(message));
    var r := FromHash(c, h.data);
    var rPoint := MulPoint(c, r, c.base);
    var R := c.compress(rPoint);

    h := NewHasher(preHash);
    h.Update(R);
    h.Update(sk.verifyingKey.compressed);
    h.UpdateIter(message);
    ChallengeBytes(preHash, R, sk.verifyingKey.compressed, Flatten(message));
    var k := FromHash(c, h.data);
    sig := Signature(R, (k * sk.scalar + r) % c.ell);
  }

  lemma ChallengeBytes(preHash: bool, R: Bytes, pk: Bytes, message: Bytes)
    ensures ((Dom(preHash) + R) + pk) + message == Dom(preHash) + (R + (pk + message))
  {
    CatAssoc(Dom(preHash) + R, pk, message);
    CatAssoc(Dom(preHash), R, pk + message);
  }

  /** `verify`. */
  method Verify(c: Curve, pk: VerifyingKey, preHash: bool, message: seq<Bytes>, sig: Signature) returns (r: Result<()>)
    requires c.ell > 0
    ensures r == if Accepts(c, pk, preHash, Flatten(message), sig) then Ok(()) else Err(InvalidLoginError)
  {
    var h := NewHasher(preHash);
    h.Update(sig.R);
    h.Update(pk.compressed);
    h.UpdateIter(message);
    ChallengeBytes(preHash, sig.R, pk.compressed, Flatten(message));
    var k := FromHash(c, h.data);
    var minusA := c.neg(pk.point);
    var kA := MulPoint(c, k, minusA);
    var sB := MulPoint(c, sig.s, c.base);
    var expected := c.compress(c.add(kA, sB));
    r := if expected == sig.R then Ok(()) else Err(InvalidLoginError);
  }

  lemma NegCancels(c: Curve, n: Point, p: Point, q: Point)
    requires c.GroupLaws() && c.valid(n) && c.valid(p) && c.valid(q) && c.add(n, p) == c.zero
    ensures c.add(n, c.add(p, q)) == q
  {
    assert c.Associates(n, p, q);
  }

  /** A response is the challenge's share of the key plus the nonce. */
  lemma ResponseSplits(c: Curve, k: nat, a: nat, r: nat)
    requires c.GroupLaws() && c.ell > 0 && c.Mul(c.ell, c.base) == c.zero
    ensures c.Mul((k * a + r) % c.ell, c.base) == c.add(c.Mul(k, c.Mul(a, c.base)), c.Mul(r, c.base))
  {
    MulReduced(c, k * a + r);
    MulAdd(c, k * a, r, c.base);
    MulTimes(c, k, a, c.base);
  }

  /** The verifier computes the signer's nonce point: k(-A) + (ka + r)B is rB. */
  lemma ExpectedIsNonce(c: Curve, k: nat, a: nat, r: nat)
    requires c.GroupLaws() && c.ell > 0 && c.Mul(c.ell, c.base) == c.zero
    ensures c.add(c.Mul(k, c.neg(c.Mul(a, c.base))), c.Mul((k * a + r) % c.ell, c.base)) == c.Mul(r, c.base)
  {
    var A := c.Mul(a, c.base);
    MulValid(c, a, c.base);
    ResponseSplits(c, k, a, r);
    MulNeg(c, k, A);
    MulValid(c, k, A);
    MulValid(c, r, c.base);
    NegCancels(c, c.Mul(k, c.neg(A)), c.Mul(k, A), c.Mul(r, c.base));
  }

  lemma SignedAccepted(c: Curve, sk: SigningKey, preHash: bool, message: Bytes)
    requires c.GroupLaws() && c.ell > 0 && c.Mul(c.ell, c.base) == c.zero
    requires sk.verifyingKey.point == c.Mul(sk.scalar, c.base)
    ensures Accepts(c, sk.verifyingKey, preHash, message, SignSpec(c, sk, preHash, message))
  {
    var sig := SignSpec(c, sk, preHash, message);
    ExpectedIsNonce(c, Challenge(c, preHash, sig.R, sk.verifyingKey.compressed, message), sk.scalar,
                    FromHash(c, Dom(preHash) + (sk.hashPrefix + message)));
  }

  /**
   Signatures verify: for every key made from a seed, every message and every way of cutting it into chunks on either
   side, in pure and in pre-hash mode.
   */
  lemma VerifyAcceptsSign(c: Curve, seed: Bytes, preHash: bool, signed: seq<Bytes>, verified: seq<Bytes>)
    requires c.Lawful() && |seed| == 32 && Flatten(signed) == Flatten(verified)
    ensures c.ell > 0
    ensures var sk := SigningKeyFromBytes(c, seed);
            Accepts(c, sk.verifyingKey, preHash, Flatten(verified), SignSpec(c, sk, preHash, Flatten(signed)))
  {
    var sk := SigningKeyFromBytes(c, seed);
    PublicKeyParses(c, seed);
    SignedAccepted(c, sk, preHash, Flatten(signed));
  }

  // ---------------------------------------------------------------------
  // What a signature is about
  // ---------------------------------------------------------------------

  /** The prefix of section 5.1 of RFC 8032 for flag 1 and an empty context; none for pure signatures. */
  function Domain(preHash: bool): Bytes {
    if preHash then Primitives.Ascii("SigEd25519 no Ed25519 collisions") + [1, 0] else []
  }

  /** The hash input of the challenge: the nonce point, the public key and the message. */
  function ChallengeInput(preHash: bool, R: Bytes, pk: Bytes, message: Bytes): Bytes {
    Domain(preHash) + (R + (pk + message))
  }

  /** The hash input of the nonce: the second half of the hashed seed, and the message. */
  function NonceInput(preHash: bool, prefix: Bytes, message: Bytes): Bytes {
    Domain(preHash) + (prefix + message)
  }

  lemma DomainIs(preHash: bool)
    ensures Domain(preHash) == Dom(preHash)
  {
    assert [1 as byte, 0] == [1] + [0];
    CatAssoc(Primitives.Ascii("SigEd25519 no Ed25519 collisions"), [1], [0]);
  }

  /** The challenge is the reduced hash of that input. */
  lemma ChallengeIs(c: Curve, preHash: bool, R: Bytes, pk: Bytes, message: Bytes)
    requires c.ell > 0
    ensures Challenge(c, preHash, R, pk, message) == LeValue(c.sha512(ChallengeInput(preHash, R, pk, message))) % c.ell
  {
    DomainIs(preHash);
  }

  /**
   What is accepted: for an R that encodes a point, exactly the signatures with sB = R + kA, the equation of section
   5.1.7 of RFC 8032 without the cofactor, where k is the reduced hash of R, the public key and the message.
   */
  lemma AcceptsIsEquation(c: Curve, pk: VerifyingKey, preHash: bool, message: Bytes, sig: Signature, point: Point)
    requires c.Lawful() && c.valid(pk.point) && c.valid(point) && sig.R == c.compress(point)
    ensures c.ell > 0
    ensures var k := LeValue(c.sha512(ChallengeInput(preHash, sig.R, pk.compressed, message))) % c.ell;
            Accepts(c, pk, preHash, message, sig) <==>
            c.Mul(sig.s, c.base) == c.add(point, c.Mul(k, pk.point))
  {
    ChallengeIs(c, preHash, sig.R, pk.compressed, message);
    var k := Challenge(c, preHash, sig.R, pk.compressed, message);
    var kA, nkA, sB := c.Mul(k, pk.point), c.Mul(k, c.neg(pk.point)), c.Mul(sig.s, c.base);
    MulNeg(c, k, pk.point);
    MulValid(c, k, pk.point);
    MulValid(c, sig.s, c.base);
    MoveAcross(c, nkA, kA, sB, point);
    assert c.decompress(c.compress(c.add(nkA, sB))) == Some(c.add(nkA, sB)) && c.decompress(sig.R) == Some(point);
  }

  /** Two challenges that take one signature to one R take the key to one point. */
  lemma SameMultiple(c: Curve, k: nat, k': nat, A: Point, sB: Point)
    requires c.Lawful() && c.valid(A) && c.valid(sB)
    requires c.compress(c.add(c.Mul(k, c.neg(A)), sB)) == c.compress(c.add(c.Mul(k', c.neg(A)), sB))
    ensures c.Mul(k, A) == c.Mul(k', A)
  {
    var n, n' := c.Mul(k, c.neg(A)), c.Mul(k', c.neg(A));
    MulNeg(c, k, A);
    MulNeg(c, k', A);
    MulValid(c, k, A);
    MulValid(c, k', A);
    assert c.decompress(c.compress(c.add(n, sB))) == Some(c.add(n, sB));
    assert c.decompress(c.compress(c.add(n', sB))) == Some(c.add(n', sB));
    Cancel(c, n, n', sB);
    assert c.Commutes(n, c.Mul(k, A)) && c.Commutes(n, c.Mul(k', A));
    Cancel(c, c.Mul(k, A), c.Mul(k', A), n);
  }

  lemma MulInjectiveBoth(c: Curve, m: nat, n: nat)
    requires c.Lawful() && m < c.ell && n < c.ell && c.Mul(m, c.base) == c.Mul(n, c.base)
    ensures m == n
  {
    if m >= n {
      assert c.NotYetZero(m - n);
      MulInjective(c, m, n);
    } else {
      assert c.NotYetZero(n - m);
      MulInjective(c, n, m);
    }
  }

  /** Equal multiples of a multiple of the base have equal factors when the order is prime. */
  lemma FactorUnique(c: Curve, k: nat, k': nat, a: nat)
    requires c.Lawful() && IsPrime(c.ell) && k < c.ell && k' < c.ell && 0 < a < c.ell
    requires c.Mul(k, c.Mul(a, c.base)) == c.Mul(k', c.Mul(a, c.base))
    ensures k == k'
  {
    MulTimes(c, k, a, c.base);
    MulTimes(c, k', a, c.base);
    MulReduced(c, k * a);
    MulReduced(c, k' * a);
    MulInjectiveBoth(c, k * a % c.ell, k' * a % c.ell);
    assert k * a == a * k && k' * a == a * k';
    if k >= k' {
      Arithmetic.MulInjective(c.ell, a, k, k');
    } else {
      Arithmetic.MulInjective(c.ell, a, k', k);
    }
  }

  /**
   The message is signed: when one signature is accepted under a seed's key for two messages, the reduced hashes of both
   challenge inputs take the key to one point; the order of the base point being prime, the messages are equal or two
   different, named inputs have one reduced hash.
   */
  lemma AcceptedMessage(c: Curve, seed: Bytes, preHash: bool, message: Bytes, message': Bytes, sig: Signature)
    requires c.Lawful() && |seed| == 32
    requires var pk := SigningKeyFromBytes(c, seed).verifyingKey;
             Accepts(c, pk, preHash, message, sig) && Accepts(c, pk, preHash, message', sig)
    ensures c.ell > 0
    ensures var pk := SigningKeyFromBytes(c, seed).verifyingKey.compressed;
            var A := c.Mul(LeValue(Clamp(c.sha512(seed)[..32])) % c.ell, c.base);
            var x, y := ChallengeInput(preHash, sig.R, pk, message), ChallengeInput(preHash, sig.R, pk, message');
            var k, k' := LeValue(c.sha512(x)) % c.ell, LeValue(c.sha512(y)) % c.ell;
            && pk == c.compress(A)
            && c.Mul(k, A) == c.Mul(k', A)
            && (IsPrime(c.ell) ==> message == message' || (x != y && k == k'))
  {
    var sk := SigningKeyFromBytes(c, seed);
    var pk, A := sk.verifyingKey.compressed, sk.verifyingKey.point;
    ChallengeIs(c, preHash, sig.R, pk, message);
    ChallengeIs(c, preHash, sig.R, pk, message');
    var k, k' := Challenge(c, preHash, sig.R, pk, message), Challenge(c, preHash, sig.R, pk, message');
    MulValid(c, sk.scalar, c.base);
    MulValid(c, sig.s, c.base);
    SameMultiple(c, k, k', A, c.Mul(sig.s, c.base));
    if IsPrime(c.ell) {
      PublicKeyParses(c, seed);
      FactorUnique(c, k, k', sk.scalar);
      if ChallengeInput(preHash, sig.R, pk, message) == ChallengeInput(preHash, sig.R, pk, message') {
        InputsEqual(Domain(preHash), sig.R, pk, message, message');
      }
    }
  }

  lemma InputsEqual(domain: Bytes, R: Bytes, pk: Bytes, message: Bytes, message': Bytes)
    requires domain + (R + (pk + message)) == domain + (R + (pk + message'))
    ensures message == message'
  {
    Serialization.Cancel(domain, R + (pk + message), domain, R + (pk + message'));
    Serialization.Cancel(R, pk + message, R, pk + message');
    Serialization.Cancel(pk, message, pk, message');
  }

  /**
   Nonces are not reused: two signatures of one seed with one R are of one message, or two different, named inputs have
   one reduced hash.
   */
  lemma NonceMessage(c: Curve, seed: Bytes, preHash: bool, message: Bytes, message': Bytes)
    requires c.Lawful() && |seed| == 32
    ensures c.ell > 0
    ensures var sk := SigningKeyFromBytes(c, seed);
            var x := NonceInput(preHash, c.sha512(seed)[32..], message);
            var y := NonceInput(preHash, c.sha512(seed)[32..], message');
            && SignSpec(c, sk, preHash, message).R == c.compress(c.Mul(LeValue(c.sha512(x)) % c.ell, c.base))
            && (SignSpec(c, sk, preHash, message).R == SignSpec(c, sk, preHash, message').R ==>
                  message == message' || (x != y && LeValue(c.sha512(x)) % c.ell == LeValue(c.sha512(y)) % c.ell))
  {
    DomainIs(preHash);
    var prefix := c.sha512(seed)[32..];
    var x, y := NonceInput(preHash, prefix, message), NonceInput(preHash, prefix, message');
    var r, r' := LeValue(c.sha512(x)) % c.ell, LeValue(c.sha512(y)) % c.ell;
    MulValid(c, r, c.base);
    MulValid(c, r', c.base);
    if c.compress(c.Mul(r, c.base)) == c.compress(c.Mul(r', c.base)) {
      assert c.decompress(c.compress(c.Mul(r, c.base))) == c.decompress(c.compress(c.Mul(r', c.base)));
      MulInjectiveBoth(c, r, r');
      if x == y {
        InputsEqual([], Domain(preHash), prefix, message, message');
      }
    }
  }

  lemma MoveAcross(c: Curve, n: Point, p: Point, q: Point, r: Point)
    requires c.GroupLaws() && c.valid(n) && c.valid(p) && c.valid(q) && c.valid(r) && c.add(n, p) == c.zero
    ensures c.add(n, q) == r <==> q == c.add(r, p)
  {
    assert c.Commutes(n, p) && c.Commutes(n, q) && c.Commutes(r, p) && c.Commutes(q, n);
    assert c.Associates(p, n, q) && c.Associates(n, p, r) && c.Commutes(p, r);
  }

  /** Two accepted signatures with one R have one s times B. */
  lemma AcceptedPoints(c: Curve, pk: VerifyingKey, preHash: bool, message: Bytes, R: Bytes, s: nat, s': nat)
    requires c.Lawful() && c.valid(pk.point) && c.ell > 0
    requires Accepts(c, pk, preHash, message, Signature(R, s)) && Accepts(c, pk, preHash, message, Signature(R, s'))
    ensures c.Mul(s, c.base) == c.Mul(s', c.base)
  {
    var nkA := c.Mul(Challenge(c, preHash, R, pk.compressed, message), c.neg(pk.point));
    var x, y := c.Mul(s, c.base), c.Mul(s', c.base);
    assert c.Inverts(pk.point);
    MulValid(c, Challenge(c, preHash, R, pk.compressed, message), c.neg(pk.point));
    MulValid(c, s, c.base);
    MulValid(c, s', c.base);
    assert c.decompress(c.compress(c.add(nkA, x))) == Some(c.add(nkA, x));
    assert c.decompress(c.compress(c.add(nkA, y))) == Some(c.add(nkA, y));
    assert c.Commutes(nkA, x) && c.Commutes(nkA, y);
    Cancel(c, x, y, nkA);
  }

  /** At most one canonical s is accepted for a given R: a signature cannot be altered in its second half. */
  lemma SecondHalfUnique(c: Curve, pk: VerifyingKey, preHash: bool, message: Bytes, R: Bytes, s: nat, s': nat)
    requires c.Lawful() && c.valid(pk.point) && s < c.ell && s' < c.ell
    requires Accepts(c, pk, preHash, message, Signature(R, s)) && Accepts(c, pk, preHash, message, Signature(R, s'))
    ensures s == s'
  {
    AcceptedPoints(c, pk, preHash, message, R, s, s');
    MulInjectiveBoth(c, s, s');
  }
}
