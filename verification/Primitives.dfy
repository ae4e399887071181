/**
 The cryptographic primitives the protocol is generic over, as records of total
 functions with the laws the protocol relies on. Keys, group elements, scalars
 and signatures are opaque handles; the `valid` predicates say which handles are
 values of the implementing type.
 */
module Primitives {
  import opened Errors
  import opened Serialization

  /** A random generator is an endless byte tape; a position says what was already drawn. */
  type Tape = nat -> byte

  function Fill(tape: Tape, pos: nat, n: nat): (b: Bytes)
    ensures |b| == n
  {
    seq(n, i requires 0 <= i => tape(pos + i))
  }

  class TapeRng {
    const tape: Tape
    var pos: nat

    constructor (tape: Tape, pos: nat)
      ensures this.tape == tape && this.pos == pos
    {
      this.tape, this.pos := tape, pos;
    }

    method FillBytes(n: nat) returns (b: Bytes)
      modifies this
      ensures b == Fill(tape, old(pos), n) && pos == old(pos) + n
    {
      b := Fill(tape, pos, n);
      pos := pos + n;
    }
  }

  const NONCE_LEN: nat := 32

  function Ascii(s: string): (b: Bytes)
    ensures |b| == |s|
  {
    seq(|s|, i requires 0 <= i < |s| => (s[i] as int % 256) as byte)
  }

  datatype PublicKey = PublicKey(id: Bytes)
  datatype PrivateKey = PrivateKey(id: Bytes)
  datatype Elem = Elem(id: Bytes)
  datatype Scalar = Scalar(id: Bytes)
  datatype Signature = Signature(id: Bytes)
  datatype DecapKey = DecapKey(id: Bytes)
  datatype EncapKey = EncapKey(id: Bytes)

  /** A pair of inputs that breaks collision resistance of a hash function or of HMAC over it. */
  datatype Collision =
    | OfHash(m1: Bytes, m2: Bytes)
    | OfHmac(k1: Bytes, m1: Bytes, k2: Bytes, m2: Bytes)
  {
    ghost predicate Breaks(h: HashFn) {
      match this
      case OfHash(m1, m2) => h.HashCollision(m1, m2)
      case OfHmac(k1, m1, k2, m2) => h.HmacCollision(k1, m1, k2, m2)
    }
  }

  /** A hash function together with HMAC over it. */
  datatype HashFn = HashFn(nh: nat, hash: Bytes -> Bytes, hmac: (Bytes, Bytes) -> Bytes) {
    ghost predicate Lawful() {
      && 0 < nh <= 255
      && (forall m :: |hash(m)| == nh)
      && (forall k, m :: |hmac(k, m)| == nh)
    }

    ghost predicate HashCollision(m1: Bytes, m2: Bytes) {
      m1 != m2 && hash(m1) == hash(m2)
    }

    /** Two different inputs, with HMAC keys of the output length, and one HMAC output. */
    ghost predicate HmacCollision(k1: Bytes, m1: Bytes, k2: Bytes, m2: Bytes) {
      |k1| == |k2| == nh && (k1, m1) != (k2, m2) && hmac(k1, m1) == hmac(k2, m2)
    }
  }

  /** A key-exchange group (src/key_exchange/group/mod.rs). */
  datatype Group = Group(
    npk: nat,
    nsk: nat,
    validPk: PublicKey -> bool,
    validSk: PrivateKey -> bool,
    serializePk: PublicKey -> Bytes,
    parsePk: Bytes -> Option<PublicKey>,
    serializeSk: PrivateKey -> Bytes,
    parseSk: Bytes -> Option<PrivateKey>,
    randomSk: (Tape, nat) -> (PrivateKey, nat),
    deriveScalar: Bytes -> Option<PrivateKey>,
    publicKey: PrivateKey -> PublicKey,
    dh: (PrivateKey, PublicKey) -> Bytes)
  {
    ghost predicate LawfulEncodings() {
      && (forall pk {:trigger serializePk(pk)} :: validPk(pk) ==>
            |serializePk(pk)| == npk && parsePk(serializePk(pk)) == Some(pk))
      && (forall b {:trigger parsePk(b)} :: |b| == npk && parsePk(b).Some? ==>
            validPk(parsePk(b).value) && serializePk(parsePk(b).value) == b)
      && (forall sk {:trigger serializeSk(sk)} :: validSk(sk) ==>
            |serializeSk(sk)| == nsk && parseSk(serializeSk(sk)) == Some(sk))
      && (forall b {:trigger parseSk(b)} :: |b| == nsk && parseSk(b).Some? ==>
            validSk(parseSk(b).value) && serializeSk(parseSk(b).value) == b)
    }

    ghost predicate LawfulKeys() {
      && (forall sk {:trigger publicKey(sk)} :: validSk(sk) ==> validPk(publicKey(sk)))
      && (forall seed {:trigger deriveScalar(seed)} :: deriveScalar(seed).Some? ==>
            validSk(deriveScalar(seed).value))
      && (forall t: Tape, p: nat {:trigger randomSk(t, p)} ::
            validSk(randomSk(t, p).0) && p <= randomSk(t, p).1)
      && (forall sk, pk {:trigger dh(sk, pk)} :: |dh(sk, pk)| == npk)
      && (forall a, b {:trigger dh(a, publicKey(b))} :: validSk(a) && validSk(b) ==>
            dh(a, publicKey(b)) == dh(b, publicKey(a)))
    }

    ghost predicate Lawful() {
      && 0 < npk < 0x1_0000 && 0 < nsk
      && LawfulEncodings()
      && LawfulKeys()
    }

    /** Deriving a key from a seed of the right length never fails. */
    ghost predicate DerivesAlways() {
      forall seed {:trigger deriveScalar(seed)} :: |seed| == nsk ==> deriveScalar(seed).Some?
    }
  }

  /** The group behind the oblivious pseudorandom function of RFC 9497. */
  datatype Oprf = Oprf(
    noe: nat,
    nok: nat,
    validElem: Elem -> bool,
    validScalar: Scalar -> bool,
    serializeElem: Elem -> Bytes,
    parseElem: Bytes -> Option<Elem>,
    serializeScalar: Scalar -> Bytes,
    parseScalar: Bytes -> Option<Scalar>,
    hashToGroup: Bytes -> Option<Elem>,
    mul: (Scalar, Elem) -> Elem,
    inv: Scalar -> Scalar,
    sampleScalar: (Tape, nat) -> (Scalar, nat),
    deriveKey: (Bytes, Bytes) -> Option<Scalar>)
  {
    ghost predicate LawfulEncodings() {
      && (forall e {:trigger serializeElem(e)} :: validElem(e) ==>
            |serializeElem(e)| == noe && parseElem(serializeElem(e)) == Some(e))
      && (forall b {:trigger parseElem(b)} :: |b| == noe && parseElem(b).Some? ==>
            validElem(parseElem(b).value) && serializeElem(parseElem(b).value) == b)
      && (forall k {:trigger serializeScalar(k)} :: validScalar(k) ==>
            |serializeScalar(k)| == nok && parseScalar(serializeScalar(k)) == Some(k))
      && (forall b {:trigger parseScalar(b)} :: |b| == nok && parseScalar(b).Some? ==>
            validScalar(parseScalar(b).value) && serializeScalar(parseScalar(b).value) == b)
    }

    /** The scalar action is commutative. */
    ghost predicate Commutes(a: Scalar, b: Scalar, e: Elem) {
      validScalar(a) && validScalar(b) && validElem(e) ==> mul(a, mul(b, e)) == mul(b, mul(a, e))
    }

    /** Unblinding cancels blinding. */
    ghost predicate Cancels(k: Scalar, e: Elem) {
      validScalar(k) && validElem(e) ==> mul(inv(k), mul(k, e)) == e
    }

    ghost predicate LawfulAction() {
      && (forall m {:trigger hashToGroup(m)} :: hashToGroup(m).Some? ==> validElem(hashToGroup(m).value))
      && (forall k, e {:trigger mul(k, e)} :: validScalar(k) && validElem(e) ==> validElem(mul(k, e)))
      && (forall a, b, e :: Commutes(a, b, e))
      && (forall k {:trigger inv(k)} :: validScalar(k) ==> validScalar(inv(k)))
      && (forall k, e :: Cancels(k, e))
      && (forall t: Tape, p: nat {:trigger sampleScalar(t, p)} ::
            validScalar(sampleScalar(t, p).0) && p <= sampleScalar(t, p).1)
      && (forall s, i {:trigger deriveKey(s, i)} :: deriveKey(s, i).Some? ==> validScalar(deriveKey(s, i).value))
    }

    ghost predicate Lawful() {
      && 0 < noe < 0x1_0000 && 0 < nok
      && LawfulEncodings()
      && LawfulAction()
    }
  }

  /** A key-encapsulation mechanism (src/key_exchange/tripledh_kem.rs, `KemCoreWrapper`). */
  datatype Kem = Kem(
    nek: nat,
    ndk: nat,
    nct: nat,
    generate: (Tape, nat) -> (DecapKey, EncapKey, nat),
    serializeEk: EncapKey -> Bytes,
    parseEk: Bytes -> Option<EncapKey>,
    validDk: DecapKey -> bool,
    serializeDk: DecapKey -> Bytes,
    parseDk: Bytes -> DecapKey,
    encapsulate: (EncapKey, Tape, nat) -> (Bytes, Bytes, nat),
    decapsulate: (DecapKey, Bytes) -> Bytes)
  {
    ghost predicate Lawful() {
      && 0 < nek && 0 < ndk && 0 < nct
      && (forall dk {:trigger serializeDk(dk)} :: validDk(dk) ==>
            |serializeDk(dk)| == ndk && parseDk(serializeDk(dk)) == dk)
      && (forall b {:trigger parseDk(b)} :: |b| == ndk ==>
            validDk(parseDk(b)) && serializeDk(parseDk(b)) == b)
      && (forall t: Tape, p: nat {:trigger generate(t, p)} ::
            var (dk, ek, q) := generate(t, p);
            validDk(dk) && |serializeEk(ek)| == nek && parseEk(serializeEk(ek)) == Some(ek) && p <= q)
      && (forall ek, t: Tape, p: nat {:trigger encapsulate(ek, t, p)} ::
            |encapsulate(ek, t, p).0| == nct && p <= encapsulate(ek, t, p).2)
      && (forall s: Tape, q: nat, t: Tape, p: nat {:trigger encapsulate(generate(s, q).1, t, p)} ::
            var (ct, ss, _) := encapsulate(generate(s, q).1, t, p);
            decapsulate(generate(s, q).0, ct) == ss)
    }
  }

  /**
   A signature protocol for SIGMA-I. With `preHash` the signer and the verifier work on a hash
   of the message (ECDSA, HashEdDSA), without it on the message itself (PureEdDSA).
   `nrand` bytes are drawn from the generator by each signature.
   */
  datatype SigScheme = SigScheme(
    nsig: nat,
    nrand: nat,
    preHash: Option<HashFn>,
    validSig: Signature -> bool,
    serializeSig: Signature -> Bytes,
    parseSig: Bytes -> Option<Signature>,
    sign: (PrivateKey, Bytes, Bytes) -> Signature,
    verify: (PublicKey, Bytes, Signature) -> bool)
  {
    ghost predicate Lawful(group: Group) {
      && 0 < nsig
      && (preHash.Some? ==> preHash.value.Lawful())
      && (forall s {:trigger serializeSig(s)} :: validSig(s) ==>
            |serializeSig(s)| == nsig && parseSig(serializeSig(s)) == Some(s))
      && (forall b {:trigger parseSig(b)} :: |b| == nsig && parseSig(b).Some? ==>
            validSig(parseSig(b).value) && serializeSig(parseSig(b).value) == b)
      && (forall sk, m, r {:trigger sign(sk, m, r)} :: group.validSk(sk) ==>
            validSig(sign(sk, m, r)) && verify(group.publicKey(sk), m, sign(sk, m, r)))
    }
  }

  /** A key-stretching function; it may fail. */
  datatype Ksf = Ksf(stretch: Bytes -> Option<Bytes>)

  datatype KeyExchange =
    | TripleDh(keHash: HashFn)
    | TripleDhKem(keHash: HashFn, kem: Kem)
    | SigmaI(keHash: HashFn, sig: SigScheme, ephGroup: Group)

  /** A cipher suite (src/ciphersuite.rs). `group` holds the static keys of both parties. */
  datatype Suite = Suite(oprf: Oprf, oprfHash: HashFn, group: Group, kx: KeyExchange, defaultKsf: Ksf) {
    /** The group of the ephemeral keys. */
    function EphGroup(): Group {
      if kx.SigmaI? then kx.ephGroup else group
    }

    function MaskedLen(): nat {
      oprfHash.nh + NONCE_LEN + group.npk
    }

    ghost predicate Lawful() {
      && oprf.Lawful()
      && oprfHash.Lawful()
      && group.Lawful()
      && kx.keHash.Lawful()
      && (kx.TripleDhKem? ==> kx.kem.Lawful())
      && (kx.SigmaI? ==> kx.sig.Lawful(group) && kx.ephGroup.Lawful())
      && MaskedLen() <= 255 * oprfHash.nh
      && group.nsk <= 255 * oprfHash.nh
      && oprf.nok <= 255 * oprfHash.nh
    }
  }
}
