/** Key pairs and the codecs of keys (src/keypair.rs). */
module Keypair {
  import opened Errors
  import opened Serialization
  import opened Primitives

  datatype KeyPair = KeyPair(pk: PublicKey, sk: PrivateKey) {
    /** Both halves belong together. */
    ghost predicate Matching(g: Group) {
      g.validSk(sk) && pk == g.publicKey(sk)
    }
  }

  function FromPrivate(g: Group, sk: PrivateKey): KeyPair {
    KeyPair(g.publicKey(sk), sk)
  }

  /** `KeyPair::random`: returns the key pair and the new tape position. */
  function RandomKeyPair(g: Group, tape: Tape, pos: nat): (KeyPair, nat) {
    var (sk, next) := g.randomSk(tape, pos);
    (FromPrivate(g, sk), next)
  }

  /** `KeyPair::derive_random`: a scalar derived from fresh bytes; a failed derivation panics. */
  function DeriveRandom(g: Group, tape: Tape, pos: nat): Result<KeyPair> {
    var sk :- OkOr(g.deriveScalar(Fill(tape, pos, g.nsk)), Panic);
    Ok(FromPrivate(g, sk))
  }

  function DeserializeTakePk(g: Group, input: Bytes): Result<(PublicKey, Bytes)> {
    var (bytes, rest) :- TakeArray(input, g.npk, "public key");
    var pk :- OkOr(g.parsePk(bytes), SerializationError);
    Ok((pk, rest))
  }

  function DeserializeTakeSk(g: Group, input: Bytes): Result<(PrivateKey, Bytes)> {
    var (bytes, rest) :- TakeArray(input, g.nsk, "secret key");
    var sk :- OkOr(g.parseSk(bytes), SerializationError);
    Ok((sk, rest))
  }

  /** A key pair is stored as its private half only. */
  function SerializeKeyPair(g: Group, kp: KeyPair): Bytes {
    g.serializeSk(kp.sk)
  }

  function DeserializeTakeKeyPair(g: Group, input: Bytes): Result<(KeyPair, Bytes)> {
    var (sk, rest) :- DeserializeTakeSk(g, input);
    Ok((FromPrivate(g, sk), rest))
  }

  lemma PkRoundTrip(g: Group, pk: PublicKey, rest: Bytes)
    requires g.Lawful() && g.validPk(pk)
    ensures DeserializeTakePk(g, g.serializePk(pk) + rest) == Ok((pk, rest))
  {
    TakeCat(g.serializePk(pk), rest, "public key");
  }

  lemma PkCanonical(g: Group, input: Bytes)
    requires g.Lawful() && DeserializeTakePk(g, input).Ok?
    ensures var (pk, rest) := DeserializeTakePk(g, input).value;
            g.validPk(pk) && input == g.serializePk(pk) + rest
  {
    assert |input[..g.npk]| == g.npk;
  }

  lemma SkRoundTrip(g: Group, sk: PrivateKey, rest: Bytes)
    requires g.Lawful() && g.validSk(sk)
    ensures DeserializeTakeSk(g, g.serializeSk(sk) + rest) == Ok((sk, rest))
  {
    TakeCat(g.serializeSk(sk), rest, "secret key");
  }

  lemma SkCanonical(g: Group, input: Bytes)
    requires g.Lawful() && DeserializeTakeSk(g, input).Ok?
    ensures var (sk, rest) := DeserializeTakeSk(g, input).value;
            g.validSk(sk) && input == g.serializeSk(sk) + rest
  {
    assert |input[..g.nsk]| == g.nsk;
  }

  /** The stored private half restores the pair exactly when the public half matched it. */
  lemma KeyPairRoundTrip(g: Group, kp: KeyPair, rest: Bytes)
    requires g.Lawful() && g.validSk(kp.sk)
    ensures DeserializeTakeKeyPair(g, SerializeKeyPair(g, kp) + rest) == Ok((kp, rest)) <==> kp.Matching(g)
  {
    SkRoundTrip(g, kp.sk, rest);
  }
}
