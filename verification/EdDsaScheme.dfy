/** Ed25519 as the static group and the signature scheme of SIGMA-I. */
module EdDsaScheme {
  import opened Errors
  import opened Serialization
  import opened Curve25519
  import Ed = Ed25519
  import P = Primitives

  // ---------------------------------------------------------------------
  // The signature's encoding
  // ---------------------------------------------------------------------

  /** The first `len` base-256 digits of `n`, least significant first. */
  function LeDigits(n: nat, len: nat): (b: Bytes)
    ensures |b| == len
  {
    if len == 0 then [] else [(n % 256) as byte] + LeDigits(n / 256, len - 1)
  }

  lemma {:induction false} LeOfDigits(n: nat, len: nat)
    requires n < Pow256(len)
    ensures LeValue(LeDigits(n, len)) == n
  {
    if len > 0 {
      LeOfDigits(n / 256, len - 1);
      IntRoundTrip(n % 256);
      assert LeDigits(n, len)[1..] == LeDigits(n / 256, len - 1);
    }
  }

  lemma {:induction false} DigitsOfLe(b: Bytes)
    ensures LeDigits(LeValue(b), |b|) == b
  {
    if b != [] {
      DigitsOfLe(b[1..]);
      DivMod256(LeValue(b[1..]), b[0] as int);
      ByteRoundTrip(b[0]);
      assert b == [b[0]] + b[1..];
    }
  }

  function SerializeSignature(sig: Ed.Signature): Bytes {
    sig.R + LeDigits(sig.s, 32)
  }

  /** Only reduced scalars are accepted as the second half. */
  function TakeSignature(c: Ed.Curve, input: Bytes): Result<(Ed.Signature, Bytes)> {
    var (R, rest) :- TakeArray(input, 32, "signature R");
    var (s, rest) :- TakeArray(rest, 32, "signature s");
    var _ :- Need(LeValue(s) < c.ell, SerializationError);
    Ok((Ed.Signature(R, LeValue(s)), rest))
  }

  /** A signature with a reduced scalar comes back from its encoding, whatever follows. */
  lemma SignatureRoundTrip(c: Ed.Curve, sig: Ed.Signature, rest: Bytes)
    requires |sig.R| == 32 && sig.s < c.ell <= Pow256(32)
    ensures TakeSignature(c, SerializeSignature(sig) + rest) == Ok((sig, rest))
  {
    var s := LeDigits(sig.s, 32);
    LeOfDigits(sig.s, 32);
    CatAssoc(sig.R, s, rest);
    TakeCat(sig.R, s + rest, "signature R");
    TakeCat(s, rest, "signature s");
  }

  /** What is accepted has a reduced scalar and is its own encoding. */
  lemma SignatureCanonical(c: Ed.Curve, input: Bytes)
    requires TakeSignature(c, input).Ok?
    ensures var (t, r) := TakeSignature(c, input).value;
            |t.R| == 32 && t.s < c.ell && input == SerializeSignature(t) + r
  {
    var tail := input[32..];
    var s := tail[..32];
    DigitsOfLe(s);
    CatAssoc(input[..32], s, tail[32..]);
    assert input == input[..32] + tail && tail == s + tail[32..];
  }

  // ---------------------------------------------------------------------
  // The static key group
  // ---------------------------------------------------------------------

  /** Seeds and encoded points. There is no Diffie-Hellman on this group. */
  function KeyGroup(c: Ed.Curve): P.Group
    requires c.ell > 0 && (forall m :: |c.sha512(m)| == 64)
  {
    P.Group(
      32, 32,
      (pk: P.PublicKey) => |pk.id| == 32 && Ed.VerifyingKeyFromBytes(c, pk.id).Ok?,
      (sk: P.PrivateKey) => |sk.id| == 32,
      (pk: P.PublicKey) => pk.id,
      (b: Bytes) => if Ed.VerifyingKeyFromBytes(c, b).Ok? then Some(P.PublicKey(b)) else None,
      (sk: P.PrivateKey) => sk.id,
      (b: Bytes) => Some(P.PrivateKey(b)),
      (t: P.Tape, p: nat) => (P.PrivateKey(P.Fill(t, p, 32)), p + 32),
      (b: Bytes) => if |b| == 32 then Some(P.PrivateKey(b)) else None,
      (sk: P.PrivateKey) => P.PublicKey(if |sk.id| == 32 then SecretKey(c, sk).verifyingKey.compressed else []),
      (sk: P.PrivateKey, pk: P.PublicKey) => seq(32, _ => 0))
  }

  function SecretKey(c: Ed.Curve, sk: P.PrivateKey): Ed.SigningKey
    requires c.ell > 0 && |c.sha512(sk.id)| == 64
  {
    Ed.SigningKeyFromBytes(c, sk.id)
  }

  /** Every seed is a key whose public half parses; nothing else is needed of the static group. */
  lemma KeyGroupLawful(c: Ed.Curve)
    requires c.Lawful()
    ensures KeyGroup(c).Lawful() && KeyGroup(c).DerivesAlways()
  {
    var g := KeyGroup(c);
    forall sk | g.validSk(sk)
      ensures g.validPk(g.publicKey(sk))
    {
      Ed.PublicKeyParses(c, sk.id);
    }
    assert g.LawfulEncodings();
    assert g.LawfulKeys();
  }

  /** A private key is 32 drawn or given bytes; its public key encodes the clamped half of their hash times the base. */
  lemma KeyIs(c: Ed.Curve, tape: P.Tape, pos: nat, seed: Bytes)
    requires c.Lawful() && |seed| == 32
    ensures c.ell > 0
    ensures KeyGroup(c).randomSk(tape, pos) == (P.PrivateKey(P.Fill(tape, pos, 32)), pos + 32)
    ensures KeyGroup(c).deriveScalar(seed) == Some(P.PrivateKey(seed))
    ensures KeyGroup(c).publicKey(P.PrivateKey(seed)).id
         == c.compress(c.Mul(LeValue(Clamp(c.sha512(seed)[..32])) % c.ell, c.base))
  {
  }

  // ---------------------------------------------------------------------
  // The signature scheme
  // ---------------------------------------------------------------------

  function SignBytes(c: Ed.Curve, preHash: bool, sk: P.PrivateKey, message: Bytes): Bytes
    requires c.ell > 0 && |c.sha512(sk.id)| == 64
  {
    SerializeSignature(Ed.SignSpec(c, SecretKey(c, sk), preHash, message))
  }

  predicate VerifyBytes(c: Ed.Curve, preHash: bool, pk: Bytes, message: Bytes, s: Bytes)
    requires c.ell > 0
  {
    && Ed.VerifyingKeyFromBytes(c, pk).Ok?
    && TakeSignature(c, s).Ok?
    && Ed.Accepts(c, Ed.VerifyingKeyFromBytes(c, pk).value, preHash, message, TakeSignature(c, s).value.0)
  }

  /**
    PureEdDSA signs the message itself, HashEdDSA its SHA-512 hash under the pre-hash prefix; neither draws random
    bytes.
  */
  function Scheme(c: Ed.Curve, preHash: bool): P.SigScheme
    requires c.ell > 0 && (forall m :: |c.sha512(m)| == 64)
  {
    P.SigScheme(
      64, 0,
      if preHash then Some(P.HashFn(64, c.sha512, (k: Bytes, m: Bytes) => c.sha512(k + m))) else None,
      (s: P.Signature) => |s.id| == 64 && TakeSignature(c, s.id).Ok?,
      (s: P.Signature) => s.id,
      (b: Bytes) => if TakeSignature(c, b).Ok? then Some(P.Signature(b)) else None,
      (sk: P.PrivateKey, m: Bytes, r: Bytes) => P.Signature(SignBytes(c, preHash, sk, m)),
      (pk: P.PublicKey, m: Bytes, s: P.Signature) => VerifyBytes(c, preHash, pk.id, m, s.id))
  }

  /**
   What the scheme accepts, on bytes: for an R that encodes a point, exactly reduced second halves that meet the
   equation of section 5.1.7 of RFC 8032 for a key that encodes a point other than the identity.
   */
  lemma VerifyIsEquation(c: Ed.Curve, preHash: bool, pk: P.PublicKey, message: Bytes, signature: Bytes, point: Ed.Point)
    requires c.Lawful() && |signature| == 64 && c.valid(point) && signature[..32] == c.compress(point)
    ensures c.ell > 0
    ensures var k := LeValue(c.sha512(Ed.ChallengeInput(preHash, signature[..32], pk.id, message))) % c.ell;
            Scheme(c, preHash).verify(pk, message, P.Signature(signature))
            <==> && c.decompress(pk.id).Some? && c.decompress(pk.id).value != c.zero
                 && LeValue(signature[32..]) < c.ell
                 && c.Mul(LeValue(signature[32..]), c.base)
                    == c.add(point, c.Mul(k, c.decompress(pk.id).value))
  {
    assert signature[32..][..32] == signature[32..];
    if c.decompress(pk.id).Some? && c.decompress(pk.id).value != c.zero && LeValue(signature[32..]) < c.ell {
      var key := Ed.VerifyingKeyFromBytes(c, pk.id).value;
      var sig := Ed.Signature(signature[..32], LeValue(signature[32..]));
      assert TakeSignature(c, signature).value.0 == sig;
      Ed.AcceptsIsEquation(c, key, preHash, message, sig, point);
    }
  }

  /** The encoding of a signature parses, and verifies under the signer's encoded public key. */
  lemma SignedBytesVerify(c: Ed.Curve, preHash: bool, sk: P.PrivateKey, message: Bytes)
    requires c.Lawful() && c.ell <= Pow256(32) && |sk.id| == 32
    ensures |SignBytes(c, preHash, sk, message)| == 64 && TakeSignature(c, SignBytes(c, preHash, sk, message)).Ok?
    ensures VerifyBytes(c, preHash, SecretKey(c, sk).verifyingKey.compressed, message,
                        SignBytes(c, preHash, sk, message))
  {
    var key := SecretKey(c, sk);
    var sig := Ed.SignSpec(c, key, preHash, message);
    Ed.MulValid(c, Ed.FromHash(c, Ed.Dom(preHash) + (key.hashPrefix + message)), c.base);
    SignatureRoundTrip(c, sig, []);
    assert SerializeSignature(sig) + [] == SerializeSignature(sig);
    Ed.PublicKeyParses(c, sk.id);
    FlattenOne(message);
    Ed.VerifyAcceptsSign(c, sk.id, preHash, [message], [message]);
  }

  /** The hand-written scheme meets the laws SIGMA-I relies on, over every lawful curve and in both modes. */
  lemma SchemeLawful(c: Ed.Curve, preHash: bool)
    requires c.Lawful() && c.ell <= Pow256(32)
    ensures Scheme(c, preHash).Lawful(KeyGroup(c))
  {
    forall sk: P.PrivateKey, m | |sk.id| == 32
      ensures |SignBytes(c, preHash, sk, m)| == 64 && TakeSignature(c, SignBytes(c, preHash, sk, m)).Ok?
      ensures VerifyBytes(c, preHash, SecretKey(c, sk).verifyingKey.compressed, m, SignBytes(c, preHash, sk, m))
    {
      SignedBytesVerify(c, preHash, sk, m);
    }
  }
}
