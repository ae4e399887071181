/**
 Concrete cipher suites, exponents modulo a prime, that meet every law the theorems rely on; the oblivious function and
 Diffie-Hellman facts are derived from arithmetic, and registrations on them succeed.
 */
module Instance {
  import opened Arithmetic
  import opened Errors
  import opened Serialization
  import opened Primitives
  import opened Identifiers
  import opened Hkdf
  import opened Transcript
  import opened Messages
  import opened Opaque
  import opened EndToEnd
  import Env = Envelope
  import Ed = Ed25519
  import EdDsaScheme

  /** A nonzero exponent as one byte. */
  predicate Exponent(q: nat, b: Bytes) {
    |b| == 1 && 0 < b[0] as int < q
  }

  function Value(b: Bytes): nat
    requires |b| == 1
  {
    b[0] as int
  }

  function Code(n: nat): (b: Bytes)
    requires n < 256
    ensures |b| == 1
  {
    [n as byte]
  }

  /** Some nonzero exponent for any bytes. */
  function Pick(q: nat, b: Bytes): (c: Bytes)
    requires 2 < q < 256
    ensures Exponent(q, c)
  {
    var n := if b == [] then 1 else 1 + b[0] as int % (q - 1);
    IntRoundTrip(n);
    Code(n)
  }

  /** The product of exponents; other strings are left alone. */
  function Times(q: nat, a: Bytes, b: Bytes): Bytes
    requires 2 < q < 256
  {
    if Exponent(q, a) && Exponent(q, b) then Code((Value(a) * Value(b)) % q) else b
  }

  function InverseOf(q: nat, a: Bytes): Bytes
    requires 2 < q < 256 && IsPrime(q)
  {
    if Exponent(q, a) then
      InverseCorrect(q, Value(a));
      Code(Inverse(q, Value(a)))
    else a
  }

  lemma TimesExponent(q: nat, a: Bytes, b: Bytes)
    requires 2 < q < 256 && IsPrime(q) && Exponent(q, a) && Exponent(q, b)
    ensures Exponent(q, Times(q, a, b)) && Value(Times(q, a, b)) == (Value(a) * Value(b)) % q
  {
    var n := (Value(a) * Value(b)) % q;
    if n == 0 {
      Euclid(q, Value(a), Value(b));
      SmallMod(Value(b), q);
    }
    IntRoundTrip(n);
  }

  /** Multiplication commutes across a third factor. */
  lemma TimesCommutes(q: nat, a: Bytes, b: Bytes, e: Bytes)
    requires 2 < q < 256 && IsPrime(q) && Exponent(q, a) && Exponent(q, b) && Exponent(q, e)
    ensures Times(q, a, Times(q, b, e)) == Times(q, b, Times(q, a, e))
  {
    TimesExponent(q, b, e);
    TimesExponent(q, a, e);
    MulModCommutes(Value(a), Value(b), Value(e), q);
  }

  lemma InverseExponent(q: nat, a: Bytes)
    requires 2 < q < 256 && IsPrime(q) && Exponent(q, a)
    ensures Exponent(q, InverseOf(q, a)) && Value(InverseOf(q, a)) == Inverse(q, Value(a))
  {
    InverseCorrect(q, Value(a));
    IntRoundTrip(Inverse(q, Value(a)));
  }

  /** The inverse takes a factor away. */
  lemma InverseCancels(q: nat, a: Bytes, e: Bytes)
    requires 2 < q < 256 && IsPrime(q) && Exponent(q, a) && Exponent(q, e)
    ensures Times(q, InverseOf(q, a), Times(q, a, e)) == e
  {
    InverseExponent(q, a);
    TimesExponent(q, a, e);
    InverseCorrect(q, Value(a));
    MulModCancels(Inverse(q, Value(a)), Value(a), Value(e), q);
    ByteRoundTrip(e[0]);
    assert e == [e[0]];
  }

  // ---------------------------------------------------------------------
  // The suites
  // ---------------------------------------------------------------------

  /** A hash of 32 bytes: the start of the message, padded. */
  function Hash(): HashFn {
    HashFn(32, (m: Bytes) => seq(32, i => if 0 <= i < |m| then m[i] else 0),
           (k: Bytes, m: Bytes) => seq(32, i => if 0 <= i < |k + m| then (k + m)[i] else 1))
  }

  function Exponents(q: nat): Group
    requires 2 < q < 256
  {
    Group(
      1, 1,
      (pk: PublicKey) => Exponent(q, pk.id),
      (sk: PrivateKey) => Exponent(q, sk.id),
      (pk: PublicKey) => pk.id,
      (b: Bytes) => if Exponent(q, b) then Some(PublicKey(b)) else None,
      (sk: PrivateKey) => sk.id,
      (b: Bytes) => if Exponent(q, b) then Some(PrivateKey(b)) else None,
      (t: Tape, p: nat) => (PrivateKey(Pick(q, [t(p)])), p + 1),
      (seed: Bytes) => Some(PrivateKey(Pick(q, seed))),
      (sk: PrivateKey) => PublicKey(sk.id),
      (sk: PrivateKey, pk: PublicKey) => if |Times(q, sk.id, pk.id)| == 1 then Times(q, sk.id, pk.id) else [0])
  }

  /** The OPRF over the same exponents; the key is never one. */
  function ExponentOprf(q: nat): Oprf
    requires 2 < q < 256 && IsPrime(q)
  {
    Oprf(
      1, 1,
      (e: Elem) => Exponent(q, e.id),
      (k: Scalar) => Exponent(q, k.id),
      (e: Elem) => e.id,
      (b: Bytes) => if Exponent(q, b) then Some(Elem(b)) else None,
      (k: Scalar) => k.id,
      (b: Bytes) => if Exponent(q, b) then Some(Scalar(b)) else None,
      (m: Bytes) => Some(Elem(Pick(q, m))),
      (k: Scalar, e: Elem) => Elem(Times(q, k.id, e.id)),
      (k: Scalar) => Scalar(InverseOf(q, k.id)),
      (t: Tape, p: nat) => (Scalar(Pick(q, [t(p)])), p + 1),
      (s: Bytes, i: Bytes) => Some(Scalar([2])))
  }

  lemma ExponentsLawful(q: nat)
    requires 2 < q < 256 && IsPrime(q)
    ensures Exponents(q).Lawful() && Exponents(q).DerivesAlways()
  {
    var g := Exponents(q);
    forall a, b | g.validSk(a) && g.validSk(b)
      ensures g.dh(a, g.publicKey(b)) == g.dh(b, g.publicKey(a))
    {
      assert Value(a.id) * Value(b.id) == Value(b.id) * Value(a.id);
    }
    assert g.LawfulEncodings();
  }

  lemma OprfLawful(q: nat)
    requires 2 < q < 256 && IsPrime(q)
    ensures ExponentOprf(q).Lawful()
  {
    var o := ExponentOprf(q);
    forall k, e | o.validScalar(k) && o.validElem(e)
      ensures o.validElem(o.mul(k, e))
    {
      TimesExponent(q, k.id, e.id);
    }
    forall a, b, e
      ensures o.Commutes(a, b, e)
    {
      if o.validScalar(a) && o.validScalar(b) && o.validElem(e) {
        TimesCommutes(q, a.id, b.id, e.id);
      }
    }
    forall k | o.validScalar(k)
      ensures o.validScalar(o.inv(k))
    {
      InverseExponent(q, k.id);
    }
    forall k, e
      ensures o.Cancels(k, e)
    {
      if o.validScalar(k) && o.validElem(e) {
        InverseCancels(q, k.id, e.id);
      }
    }
    IntRoundTrip(2);
    assert o.LawfulEncodings();
  }

  /** A key encapsulation that sends its secret in the clear. */
  function OpenKem(): Kem {
    Kem(1, 1, 1,
        (t: Tape, p: nat) => (DecapKey([t(p)]), EncapKey([t(p)]), p + 1),
        (ek: EncapKey) => ek.id,
        (b: Bytes) => Some(EncapKey(b)),
        (dk: DecapKey) => |dk.id| == 1,
        (dk: DecapKey) => dk.id,
        (b: Bytes) => DecapKey(b),
        (ek: EncapKey, t: Tape, p: nat) => ([t(p)], ek.id + [t(p)], p + 1),
        (dk: DecapKey, ct: Bytes) => dk.id + ct)
  }

  /** A suite over these exponents; the static group and the exchange vary. */
  function SuiteOf(q: nat, group: Group, kx: KeyExchange): Suite
    requires 2 < q < 256 && IsPrime(q)
  {
    Suite(ExponentOprf(q), Hash(), group, kx, Ksf((b: Bytes) => Some(b)))
  }

  lemma SuiteLawful(q: nat, group: Group, kx: KeyExchange)
    requires 2 < q < 256 && IsPrime(q)
    requires group.Lawful() && group.npk <= 4096 && group.nsk <= 4096 && kx.keHash == Hash()
    requires kx.TripleDhKem? ==> kx.kem.Lawful()
    requires kx.SigmaI? ==> kx.sig.Lawful(group) && kx.ephGroup.Lawful()
    ensures SuiteOf(q, group, kx).Lawful()
  {
    OprfLawful(q);
  }

  /** Doubling moves every nonzero exponent, so the key is never seen as a reflection. */
  lemma DoublingMoves(q: nat, e: Bytes)
    requires 2 < q < 256 && IsPrime(q) && Exponent(q, e)
    ensures Times(q, [2], e) != e
  {
    IntRoundTrip(2);
    TimesExponent(q, [2], e);
    DoubleDiffers(Value(e), q);
  }

  lemma DoubleDiffers(v: nat, q: nat)
    requires 0 < v < q
    ensures (2 * v) % q != v
  {
    if 2 * v < q {
      SmallMod(2 * v, q);
    } else {
      ModMultiple(2 * v - q, 1, q);
      SmallMod(2 * v - q, q);
    }
  }

  /** The server of such a suite always evaluates, to another element. */
  lemma EvaluationMoves(q: nat, material: Bytes, blinded: Elem)
    requires 2 < q < 256 && IsPrime(q) && Exponent(q, blinded.id)
    ensures Evaluate(ExponentOprf(q), material, blinded).Ok?
            && Evaluate(ExponentOprf(q), material, blinded).value != blinded
  {
    IntRoundTrip(2);
    DoublingMoves(q, blinded.id);
  }

  /** Sealing succeeds for identifiers that fit their length fields. */
  lemma SealSucceeds(h: HashFn, g: Group, nonce: Bytes, prk: Bytes, serverPk: PublicKey, ids: Ids)
    requires h.Lawful() && g.Lawful() && g.DerivesAlways() && g.nsk <= 255 * h.nh && |prk| == h.nh
             && g.validPk(serverPk)
    requires |ids.client.GetOr([])| < 0x1_0000 && |ids.server.GetOr([])| < 0x1_0000
    ensures Env.Seal(h, g, nonce, prk, serverPk, ids).Ok?
  {
    var seed := Expand(h, prk, nonce + Env.STR_PRIVATE_KEY, g.nsk).value;
    assert g.deriveScalar(seed).Some?;
    Env.RecoveredKeysMatch(h, g, prk, nonce);
    var keys := Env.RecoverKeys(h, g, prk, nonce).value;
    assert |g.serializePk(keys.pk)| == g.npk && |g.serializePk(serverPk)| == g.npk;
  }

  /** Completeness is not vacuous: on these suites every registration with fitting inputs succeeds. */
  lemma RegistrationSucceeds(q: nat, group: Group, kx: KeyExchange, setup: ServerSetup, e: Enrolment)
    requires 2 < q < 256 && IsPrime(q) && group.Lawful() && group.DerivesAlways() && group.nsk <= 4096
    requires setup.WellFormed(SuiteOf(q, group, kx)) && SuiteOf(q, group, kx).oprfHash.Lawful()
    requires |e.password| < 0x1_0000 && e.ksf == None
    requires |e.ids.client.GetOr([])| < 0x1_0000 && |e.ids.server.GetOr([])| < 0x1_0000
    ensures Register(SuiteOf(q, group, kx), setup, e).Ok?
  {
    var cs := SuiteOf(q, group, kx);
    OprfLawful(q);
    var (request, state, _) := ClientRegistrationStart(cs, e.startTape, e.startPos, e.password).value;
    var material := OprfKeyMaterial(cs, setup.oprfSeed, e.credentialId).value;
    EvaluationMoves(q, material, request.blinded);
    var response := ServerRegistrationStart(cs, setup, request, e.credentialId).value;
    var prk := PasswordDerivedKey(cs, e.password, state.blind, response.evaluation, e.ksf).value;
    SealSucceeds(cs.oprfHash, group, Fill(e.finishTape, e.finishPos, NONCE_LEN), prk, response.serverSPk, e.ids);
  }

  // ---------------------------------------------------------------------
  // A curve for Ed25519
  // ---------------------------------------------------------------------

  /** The order of Ed25519's base point, section 5.1 of RFC 8032. */
  const ELL: nat := Pow2(252) + 27742317777372353535851937790883648493

  /** The subgroup of the base point, by exponents; points are encoded by their exponent. */
  function Subgroup(ell: nat): Ed.Curve
    requires ell > 1
  {
    Ed.Curve(
      ell,
      (p: Ed.Point) => p.id < ell,
      Ed.Point(0), Ed.Point(1),
      (p: Ed.Point, r: Ed.Point) => Ed.Point(if p.id + r.id < ell then p.id + r.id
                                             else if p.id + r.id - ell >= 0 then p.id + r.id - ell else 0),
      (p: Ed.Point) => Ed.Point(if 0 < p.id < ell then ell - p.id else 0),
      (p: Ed.Point) => BeDigits(p.id, 32),
      (b: Bytes) => if |b| == 32 && BeValue(b) < ell then Some(Ed.Point(BeValue(b))) else None,
      (m: Bytes) => seq(64, i => if 0 <= i < |m| then m[i] else 0))
  }

  lemma {:induction false} SubgroupMul(ell: nat, n: nat)
    requires ell > 1 && n <= ell
    ensures Subgroup(ell).Mul(n, Ed.Point(1)) == Ed.Point(if n == ell then 0 else n)
  {
    if n > 0 {
      SubgroupMul(ell, n - 1);
    }
  }

  lemma SubgroupEncodes(ell: nat, id: nat, len: nat)
    requires id < ell <= Pow256(len)
    ensures |BeDigits(id, len)| == len && BeValue(BeDigits(id, len)) == id
  {
    ValueOfDigits(id, len);
  }

  lemma SubgroupCodec(ell: nat, p: Ed.Point)
    requires 1 < ell <= Pow256(32) && p.id < ell
    ensures |Subgroup(ell).compress(p)| == 32 && Subgroup(ell).decompress(Subgroup(ell).compress(p)) == Some(p)
  {
    SubgroupEncodes(ell, p.id, 32);
  }

  lemma SubgroupLaws(ell: nat)
    requires ell > 1
    ensures Subgroup(ell).GroupLaws()
  {
    var c := Subgroup(ell);
    forall p, q, r
      ensures c.Associates(p, q, r)
    {
    }
    forall p, q
      ensures c.Commutes(p, q)
    {
    }
    forall p
      ensures c.Inverts(p)
    {
    }
  }

  lemma SubgroupOrder(ell: nat)
    requires ell % 2 == 1 && Pow2(252) < ell < Pow2(253)
    ensures Subgroup(ell).BaseOrder()
  {
    var c := Subgroup(ell);
    SubgroupMul(ell, ell);
    forall n: nat
      ensures c.NotYetZero(n)
    {
      if n < ell {
        SubgroupMul(ell, n);
      }
    }
  }

  /** The laws of the curve hold, for the order of Ed25519's base point in particular. */
  lemma SubgroupLawful(ell: nat)
    requires ell % 2 == 1 && Pow2(252) < ell < Pow2(253) && ell <= Pow256(32)
    ensures Subgroup(ell).Lawful()
  {
    var c := Subgroup(ell);
    SubgroupLaws(ell);
    SubgroupOrder(ell);
    forall p | c.valid(p)
      ensures |c.compress(p)| == 32 && c.decompress(c.compress(p)) == Some(p)
    {
      SubgroupCodec(ell, p);
    }
  }

  // ---------------------------------------------------------------------
  // The three exchanges
  // ---------------------------------------------------------------------

  lemma {:induction false} PowAdd(a: nat, b: nat)
    ensures Pow2(a + b) == Pow2(a) * Pow2(b)
  {
    if a > 0 {
      PowAdd(a - 1, b);
    }
  }

  lemma Power25(a: nat)
    requires a == 5
    ensures Pow2(5 * a) == 33554432
  {
    assert Pow2(a) == 2 * Pow2(4) == 4 * Pow2(3) == 8 * Pow2(2) == 16 * Pow2(1) == 32 * Pow2(0);
    PowAdd(a, a);
    PowAdd(2 * a, 2 * a);
    PowAdd(4 * a, a);
  }

  lemma Power125(a: nat, b: nat)
    requires a == 25 && b == 50
    ensures Pow2(a + 2 * b) == 42535295865117307932921825928971026432
  {
    Power25(5);
    PowAdd(a, a);
    assert Pow2(b) == 33554432 * 33554432;
    PowAdd(b, b);
    PowAdd(a, 2 * b);
  }

  /** A power of two plus this odd number is odd, and below the next power. */
  lemma OddAbovePower(n: nat, c: nat)
    requires n >= 125 && c == 27742317777372353535851937790883648493
    ensures (Pow2(n) + c) % 2 == 1 && Pow2(n) + c < Pow2(n + 1)
  {
    Power125(25, 50);
    Pow2Monotone(125, n);
    assert Pow2(n) == 2 * Pow2(n - 1);
  }

  lemma OrderFits()
    ensures ELL % 2 == 1 && Pow2(252) < ELL < Pow2(253) && ELL <= Pow256(32)
  {
    OddAbovePower(252, 27742317777372353535851937790883648493);
    Pow2Monotone(253, 256);
    PowBits(32);
  }

  /** All laws hold together, for each of the three exchanges; SIGMA-I runs on the hand-written EdDSA in both modes. */
  lemma SuitesLawful(q: nat, preHash: bool)
    requires 2 < q < 256 && IsPrime(q)
    ensures SuiteOf(q, Exponents(q), TripleDh(Hash())).Lawful()
    ensures SuiteOf(q, Exponents(q), TripleDhKem(Hash(), OpenKem())).Lawful()
    ensures Subgroup(ELL).Lawful()
    ensures var c := Subgroup(ELL);
            SuiteOf(q, EdDsaScheme.KeyGroup(c), SigmaI(Hash(), EdDsaScheme.Scheme(c, preHash), Exponents(q))).Lawful()
  {
    ExponentsLawful(q);
    SuiteLawful(q, Exponents(q), TripleDh(Hash()));
    assert OpenKem().Lawful();
    SuiteLawful(q, Exponents(q), TripleDhKem(Hash(), OpenKem()));
    OrderFits();
    SubgroupLawful(ELL);
    SigmaSuiteLawful(q, Subgroup(ELL), preHash);
  }

  lemma SigmaSuiteLawful(q: nat, c: Ed.Curve, preHash: bool)
    requires 2 < q < 256 && IsPrime(q) && c.Lawful() && c.ell <= Pow256(32)
    ensures SuiteOf(q, EdDsaScheme.KeyGroup(c), SigmaI(Hash(), EdDsaScheme.Scheme(c, preHash), Exponents(q))).Lawful()
  {
    ExponentsLawful(q);
    EdDsaScheme.KeyGroupLawful(c);
    EdDsaScheme.SchemeLawful(c, preHash);
    SuiteLawful(q, EdDsaScheme.KeyGroup(c), SigmaI(Hash(), EdDsaScheme.Scheme(c, preHash), Exponents(q)));
  }

  /**
   The whole protocol runs: on these suites every registration and every login with default identifiers and a fitting
   password succeed with equal session keys, so the premises of completeness and of agreement are met.
   */
  lemma LoginsSucceed(q: nat, group: Group, kx: KeyExchange, setup: ServerSetup, e: Enrolment, s: Session,
                      context: Option<Bytes>)
    requires 2 < q < 256 && IsPrime(q) && group.Lawful() && group.DerivesAlways() && group.nsk <= 4096
    requires SuiteOf(q, group, kx).Lawful() && setup.WellFormed(SuiteOf(q, group, kx))
    requires SuiteOf(q, group, kx).EphGroup().DerivesAlways()
    requires SuiteOf(q, group, kx).oprfHash.Lawful() && SuiteOf(q, group, kx).kx.keHash.Lawful()
    requires |e.password| < 0x1_0000 && |context.GetOr([])| < 0x1_0000
    requires e.ids == Ids(None, None) && e.ksf == None && s.ksf == None
    requires s.client == s.server == s.finish == LoginParameters(context, Ids(None, None))
    ensures var cs := SuiteOf(q, group, kx);
            && Register(cs, setup, e).Ok?
            && var login := Login(cs, setup, Register(cs, setup, e).value.upload, e.password, e.credentialId, s);
               login.Ok? && login.value.clientKey == login.value.serverKey
  {
    var cs := SuiteOf(q, group, kx);
    RegistrationSucceeds(q, group, kx, setup, e);
    EphemeralOk(cs.EphGroup(), s.clientTape, cs.oprf.sampleScalar(s.clientTape, s.clientPos).1);
    EphemeralOk(cs.EphGroup(), s.serverTape, LoginDraws(cs, s.serverTape, s.serverPos).2);
    LoginCompletes(cs, setup, e, s);
  }
}
