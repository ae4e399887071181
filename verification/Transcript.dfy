/**
 What the three key exchanges share (src/key_exchange/shared.rs, src/key_exchange/mod.rs):
 the first message, the transcript, the key confirmation MACs.
 */
module Transcript {
  import opened Errors
  import opened Serialization
  import opened Primitives
  import opened Identifiers
  import opened Keypair
  import opened Hkdf
  import opened Masking

  datatype Ke1State = Ke1State(clientESk: PrivateKey, clientNonce: Bytes)

  datatype Ke1Message = Ke1Message(clientNonce: Bytes, clientEPk: PublicKey) {
    ghost predicate WellFormed(g: Group) {
      |clientNonce| == NONCE_LEN && g.validPk(clientEPk)
    }

    function ToIter(g: Group): Ke1MessageIter {
      Ke1MessageIter(clientNonce, g.serializePk(clientEPk))
    }
  }

  datatype Ke1MessageIter = Ke1MessageIter(clientNonce: Bytes, clientEPk: Bytes) {
    function Iter(): seq<Bytes> {
      [clientNonce, clientEPk]
    }
  }

  /** The serialized blinded element. */
  datatype SerializedCredentialRequest = SerializedCredentialRequest(element: Bytes) {
    function Iter(): seq<Bytes> {
      [element]
    }
  }

  datatype SerializedCredentialResponse =
    SerializedCredentialResponse(evaluationElement: Bytes, maskingNonce: Bytes, masked: MaskedResponse)
  {
    function Iter(): seq<Bytes> {
      [evaluationElement, maskingNonce] + masked.Iter()
    }
  }

  /** An ephemeral key pair, then a nonce, from consecutive tape bytes; also the new tape position. */
  function Ephemeral(g: Group, tape: Tape, pos: nat): Result<(KeyPair, Bytes, nat)> {
    var kp :- DeriveRandom(g, tape, pos);
    Ok((kp, Fill(tape, pos + g.nsk, NONCE_LEN), pos + g.nsk + NONCE_LEN))
  }

  method DrawEphemeral(g: Group, rng: TapeRng) returns (r: Result<(KeyPair, Bytes)>)
    modifies rng
    ensures match Ephemeral(g, rng.tape, old(rng.pos))
            case Ok((kp, nonce, pos)) => r == Ok((kp, nonce)) && rng.pos == pos
            case Err(e) => r == Err(e)
  {
    var seed := rng.FillBytes(g.nsk);
    var sk :- OkOr(g.deriveScalar(seed), Panic);
    var nonce := rng.FillBytes(NONCE_LEN);
    r := Ok((FromPrivate(g, sk), nonce));
  }

  /** What an ephemeral draw yields, from which bytes of the tape; it fails only when key derivation does. */
  lemma EphemeralOk(g: Group, tape: Tape, pos: nat)
    requires g.LawfulKeys()
    ensures g.DerivesAlways() ==> Ephemeral(g, tape, pos).Ok?
    ensures match Ephemeral(g, tape, pos)
            case Ok((kp, nonce, next)) =>
              && g.deriveScalar(Fill(tape, pos, g.nsk)) == Some(kp.sk) && nonce == Fill(tape, pos + g.nsk, NONCE_LEN)
              && kp.Matching(g) && g.validPk(kp.pk) && |nonce| == NONCE_LEN && next == pos + g.nsk + NONCE_LEN
            case Err(e) => e == Panic && g.deriveScalar(Fill(tape, pos, g.nsk)) == None
  {
  }

  /** `generate_ke1`. */
  function GenerateKe1(g: Group, tape: Tape, pos: nat): Result<(Ke1State, Ke1Message, nat)> {
    var (kp, nonce, next) :- Ephemeral(g, tape, pos);
    Ok((Ke1State(kp.sk, nonce), Ke1Message(nonce, kp.pk), next))
  }

  // ---------------------------------------------------------------------
  // The transcript
  // ---------------------------------------------------------------------

  /** The fixed lengths: OPRF element, OPRF hash, static public key, ephemeral public key. */
  datatype Shape = Shape(noe: nat, nh: nat, npk: nat, nepk: nat)

  function ShapeOf(cs: Suite): Shape {
    Shape(cs.oprf.noe, cs.oprfHash.nh, cs.group.npk, cs.EphGroup().npk)
  }

  /** The components of a transcript. */
  datatype Parts = Parts(
    context: Bytes,
    clientId: Bytes,
    blinded: Bytes,
    clientNonce: Bytes,
    clientEPk: Bytes,
    serverId: Bytes,
    evaluation: Bytes,
    maskingNonce: Bytes,
    masked: MaskedResponse,
    serverNonce: Bytes,
    serverEPk: Bytes)
  {
    ghost predicate Fits(s: Shape) {
      && |context| < 0x1_0000 && |clientId| < 0x1_0000 && |serverId| < 0x1_0000
      && |blinded| == |evaluation| == s.noe
      && |clientNonce| == |serverNonce| == |maskingNonce| == NONCE_LEN
      && |clientEPk| == |serverEPk| == s.nepk
      && masked.Sized(s.nh, s.npk)
    }
  }

  function PartsOf(context: SerializedContext, ids: SerializedIdentifiers, request: SerializedCredentialRequest,
                   ke1: Ke1MessageIter, response: SerializedCredentialResponse, serverNonce: Bytes, serverEPk: Bytes)
    : Parts
  {
    Parts(context.context, ids.client.identifier.bytes, request.element, ke1.clientNonce, ke1.clientEPk,
          ids.server.identifier.bytes, response.evaluationElement, response.maskingNonce, response.masked,
          serverNonce, serverEPk)
  }

  /** The bytes a transcript hash has absorbed, followed by `suffix`. */
  function Encode(p: Parts, suffix: Bytes): Bytes {
    STR_CONTEXT + (Vec16(p.context) + (Vec16(p.clientId) + (p.blinded + (p.clientNonce + (p.clientEPk
    + (Vec16(p.serverId) + EncodeResponse(p, suffix)))))))
  }

  function EncodeResponse(p: Parts, suffix: Bytes): Bytes {
    p.evaluation + (p.maskingNonce + (p.masked.nonce + (p.masked.hash + (p.masked.pk
    + (p.serverNonce + (p.serverEPk + suffix))))))
  }

  /** Reads every component back, and what follows the transcript. */
  function Decode(s: Shape, input: Bytes): Result<(Parts, Bytes)> {
    var (prefix, r) :- TakeArray(input, |STR_CONTEXT|, "");
    var _ :- Need(prefix == Ascii("OPAQUEv1-"), SerializationError);
    var (context, r) :- TakeVec16(r);
    var (clientId, r) :- TakeVec16(r);
    var (blinded, r) :- TakeArray(r, s.noe, "");
    var (clientNonce, r) :- TakeArray(r, NONCE_LEN, "");
    var (clientEPk, r) :- TakeArray(r, s.nepk, "");
    var (serverId, r) :- TakeVec16(r);
    var (evaluation, r) :- TakeArray(r, s.noe, "");
    var (maskingNonce, r) :- TakeArray(r, NONCE_LEN, "");
    var (nonce, r) :- TakeArray(r, NONCE_LEN, "");
    var (hash, r) :- TakeArray(r, s.nh, "");
    var (pk, r) :- TakeArray(r, s.npk, "");
    var (serverNonce, r) :- TakeArray(r, NONCE_LEN, "");
    var (serverEPk, r) :- TakeArray(r, s.nepk, "");
    Ok((Parts(context, clientId, blinded, clientNonce, clientEPk, serverId, evaluation, maskingNonce,
              MaskedResponse(nonce, hash, pk), serverNonce, serverEPk), r))
  }

  /** Decoding inverts encoding, whatever follows the transcript. */
  lemma DecodeEncode(s: Shape, p: Parts, suffix: Bytes)
    requires p.Fits(s)
    ensures Decode(s, Encode(p, suffix)) == Ok((p, suffix))
  {
    var r7 := p.serverEPk + suffix;
    var r6 := p.serverNonce + r7;
    var r5 := p.masked.pk + r6;
    var r4 := p.masked.hash + r5;
    var r3 := p.masked.nonce + r4;
    var r2 := p.maskingNonce + r3;
    var r1 := EncodeResponse(p, suffix);
    var l5 := Vec16(p.serverId) + r1;
    var l4 := p.clientEPk + l5;
    var l3 := p.clientNonce + l4;
    var l2 := p.blinded + l3;
    var l1 := Vec16(p.clientId) + l2;
    var l0 := Vec16(p.context) + l1;
    TakeCat(STR_CONTEXT, l0, "");
    TakeVec16Cat(p.context, l1);
    TakeVec16Cat(p.clientId, l2);
    TakeCat(p.blinded, l3, "");
    TakeCat(p.clientNonce, l4, "");
    TakeCat(p.clientEPk, l5, "");
    TakeVec16Cat(p.serverId, r1);
    TakeCat(p.evaluation, r2, "");
    TakeCat(p.maskingNonce, r3, "");
    TakeCat(p.masked.nonce, r4, "");
    TakeCat(p.masked.hash, r5, "");
    TakeCat(p.masked.pk, r6, "");
    TakeCat(p.serverNonce, r7, "");
    TakeCat(p.serverEPk, suffix, "");
  }

  /** Equal transcript bytes have equal components and equal continuations. */
  lemma EncodeInjective(s: Shape, p: Parts, x: Bytes, q: Parts, y: Bytes)
    requires p.Fits(s) && q.Fits(s)
    requires Encode(p, x) == Encode(q, y)
    ensures p == q && x == y
  {
    DecodeEncode(s, p, x);
    DecodeEncode(s, q, y);
  }

  /** Absorbing more after the transcript. */
  lemma EncodeThen(p: Parts, x: Bytes, y: Bytes)
    ensures Encode(p, x) + y == Encode(p, x + y)
  {
    EncodeResponseThen(p, x, y);
    var r1 := EncodeResponse(p, x);
    var l5 := Vec16(p.serverId) + r1;
    var l4 := p.clientEPk + l5;
    var l3 := p.clientNonce + l4;
    var l2 := p.blinded + l3;
    var l1 := Vec16(p.clientId) + l2;
    var l0 := Vec16(p.context) + l1;
    CatAssoc(Vec16(p.serverId), r1, y);
    CatAssoc(p.clientEPk, l5, y);
    CatAssoc(p.clientNonce, l4, y);
    CatAssoc(p.blinded, l3, y);
    CatAssoc(Vec16(p.clientId), l2, y);
    CatAssoc(Vec16(p.context), l1, y);
    CatAssoc(STR_CONTEXT, l0, y);
  }

  lemma EncodeResponseThen(p: Parts, x: Bytes, y: Bytes)
    ensures EncodeResponse(p, x) + y == EncodeResponse(p, x + y)
  {
    var r7 := p.serverEPk + x;
    var r6 := p.serverNonce + r7;
    var r5 := p.masked.pk + r6;
    var r4 := p.masked.hash + r5;
    var r3 := p.masked.nonce + r4;
    var r2 := p.maskingNonce + r3;
    CatAssoc(p.serverEPk, x, y);
    CatAssoc(p.serverNonce, r7, y);
    CatAssoc(p.masked.pk, r6, y);
    CatAssoc(p.masked.hash, r5, y);
    CatAssoc(p.masked.nonce, r4, y);
    CatAssoc(p.maskingNonce, r3, y);
    CatAssoc(p.evaluation, r2, y);
  }

  lemma ContextFlat(context: SerializedContext)
    requires context.WellFormed()
    ensures Flatten(context.Iter()) == STR_CONTEXT + Vec16(context.context)
  {
    FlattenThree(STR_CONTEXT, context.length, context.context);
  }

  lemma ResponseFlat(r: SerializedCredentialResponse)
    ensures Flatten(r.Iter()) == r.evaluationElement
            + (r.maskingNonce + (r.masked.nonce + (r.masked.hash + r.masked.pk)))
  {
    FlattenCat([r.evaluationElement, r.maskingNonce], r.masked.Iter());
    FlattenTwo(r.evaluationElement, r.maskingNonce);
    FlattenThree(r.masked.nonce, r.masked.hash, r.masked.pk);
    CatAssoc(r.evaluationElement, r.maskingNonce, r.masked.nonce + (r.masked.hash + r.masked.pk));
  }

  /** What follows the context in a transcript, absorbed part by part after `sofar`. */
  lemma AbsorbParts(p: Parts, sofar: Bytes)
    ensures sofar + Encode(p, [])
         == ((((((((sofar + (STR_CONTEXT + Vec16(p.context))) + Vec16(p.clientId)) + p.blinded)
               + (p.clientNonce + p.clientEPk)) + Vec16(p.serverId))
             + (p.evaluation + (p.maskingNonce + (p.masked.nonce + (p.masked.hash + p.masked.pk)))))
            + p.serverNonce) + p.serverEPk)
  {
    var response := p.evaluation + (p.maskingNonce + (p.masked.nonce + (p.masked.hash + p.masked.pk)));
    assert p.serverEPk + [] == p.serverEPk;
    var tail := p.serverNonce + p.serverEPk;
    assert EncodeResponse(p, []) == response + tail by {
      CatAssoc(p.masked.hash, p.masked.pk, tail);
      CatAssoc(p.masked.nonce, p.masked.hash + p.masked.pk, tail);
      CatAssoc(p.maskingNonce, p.masked.nonce + (p.masked.hash + p.masked.pk), tail);
      CatAssoc(p.evaluation, p.maskingNonce + (p.masked.nonce + (p.masked.hash + p.masked.pk)), tail);
    }
    var head := sofar + (STR_CONTEXT + Vec16(p.context));
    var ids := head + Vec16(p.clientId);
    var req := ids + p.blinded;
    var ke1 := req + (p.clientNonce + p.clientEPk);
    var srv := ke1 + Vec16(p.serverId);
    CatAssoc(srv + response, p.serverNonce, p.serverEPk);
    CatAssoc(srv, response, tail);
    CatAssoc(ke1, Vec16(p.serverId), response + tail);
    var l5 := Vec16(p.serverId) + (response + tail);
    CatAssoc(p.clientNonce, p.clientEPk, l5);
    CatAssoc(req, p.clientNonce + p.clientEPk, l5);
    var l3 := p.clientNonce + (p.clientEPk + l5);
    CatAssoc(ids, p.blinded, l3);
    CatAssoc(head, Vec16(p.clientId), p.blinded + l3);
    var l1 := Vec16(p.clientId) + (p.blinded + l3);
    CatAssoc(STR_CONTEXT, Vec16(p.context), l1);
    CatAssoc(sofar, STR_CONTEXT + Vec16(p.context), l1);
  }

  /** `transcript`: a fresh hasher that has absorbed every component in order. */
  method TranscriptHasher(context: SerializedContext, ids: SerializedIdentifiers, request: SerializedCredentialRequest,
                          ke1: Ke1MessageIter, response: SerializedCredentialResponse,
                          serverNonce: Bytes, serverEPk: Bytes)
    returns (hasher: Absorber)
    requires context.WellFormed() && ids.WellFormed()
    ensures fresh(hasher)
    ensures hasher.data == Encode(PartsOf(context, ids, request, ke1, response, serverNonce, serverEPk), [])
  {
    hasher := new Absorber();
    hasher.UpdateIter(context.Iter());
    hasher.UpdateIter(ids.client.Iter());
    hasher.UpdateIter(request.Iter());
    hasher.UpdateIter(ke1.Iter());
    hasher.UpdateIter(ids.server.Iter());
    hasher.UpdateIter(response.Iter());
    hasher.Update(serverNonce);
    hasher.Update(serverEPk);
    ContextFlat(context);
    ids.client.Flat();
    ids.server.Flat();
    FlattenOne(request.element);
    FlattenTwo(ke1.clientNonce, ke1.clientEPk);
    ResponseFlat(response);
    var p := PartsOf(context, ids, request, ke1, response, serverNonce, serverEPk);
    AbsorbParts(p, []);
    assert [] + Encode(p, []) == Encode(p, []);
  }

  // ---------------------------------------------------------------------
  // Key confirmation
  // ---------------------------------------------------------------------

  /** The server's MAC over the transcript and the MAC it expects from the client. */
  function Ke2Macs(h: HashFn, transcript: Bytes, keys: DerivedKeys): (Bytes, Bytes) {
    var mac := h.hmac(keys.km2, h.hash(transcript));
    (mac, h.hmac(keys.km3, h.hash(transcript + mac)))
  }

  method ComputeKe2Macs(h: HashFn, hasher: Absorber, keys: DerivedKeys, transcriptDigest: Bytes)
    returns (mac: Bytes, expectedMac: Bytes)
    requires transcriptDigest == h.hash(hasher.data)
    modifies hasher
    ensures (mac, expectedMac) == Ke2Macs(h, old(hasher.data), keys)
    ensures hasher.data == old(hasher.data) + mac
  {
    mac := h.hmac(keys.km2, transcriptDigest);
    hasher.Update(mac);
    expectedMac := h.hmac(keys.km3, h.hash(hasher.data));
  }

  /** The client's side: keys, check of the server's MAC, and the client's own MAC. */
  function FinalizeKe3Spec(h: HashFn, transcript: Bytes, sharedSecrets: seq<Bytes>, serverMac: Bytes)
    : Result<(DerivedKeys, Bytes)>
    requires h.Lawful()
  {
    var digest := h.hash(transcript);
    var keys :- DeriveKeysSpec(h, sharedSecrets, digest);
    var _ :- Need(h.hmac(keys.km2, digest) == serverMac, InvalidLoginError);
    Ok((keys, h.hmac(keys.km3, h.hash(transcript + serverMac))))
  }

  method FinalizeKe3(h: HashFn, hasher: Absorber, sharedSecrets: seq<Bytes>, serverMac: Bytes)
    returns (r: Result<(DerivedKeys, Bytes)>)
    requires h.Lawful()
    modifies hasher
    ensures r == FinalizeKe3Spec(h, old(hasher.data), sharedSecrets, serverMac)
    ensures r.Ok? ==> hasher.data == old(hasher.data) + serverMac
  {
    var digest := h.hash(hasher.data);
    var keys :- DeriveKeys(h, sharedSecrets, digest);
    if h.hmac(keys.km2, digest) != serverMac {
      return Err(InvalidLoginError);
    }
    hasher.Update(serverMac);
    r := Ok((keys, h.hmac(keys.km3, h.hash(hasher.data))));
  }

  lemma DeriveKeysOk(h: HashFn, secrets: seq<Bytes>, transcript: Bytes)
    requires h.Lawful()
    ensures DeriveKeysSpec(h, secrets, h.hash(transcript)).Ok?
    ensures var k := DeriveKeysSpec(h, secrets, h.hash(transcript)).value;
            |k.sessionKey| == |k.km2| == |k.km3| == h.nh
  {
    KeysFromPrkOk(h, Extract(h, Flatten(secrets)), h.hash(transcript));
  }

  /** With equal transcripts and secrets the client accepts the server's MAC and answers as expected. */
  lemma ConfirmationCompletes(h: HashFn, transcript: Bytes, secrets: seq<Bytes>)
    requires h.Lawful()
    ensures var keys := DeriveKeysSpec(h, secrets, h.hash(transcript));
            && keys.Ok?
            && var (mac, expectedMac) := Ke2Macs(h, transcript, keys.value);
               FinalizeKe3Spec(h, transcript, secrets, mac) == Ok((keys.value, expectedMac))
  {
    DeriveKeysOk(h, secrets, transcript);
  }

  /** The client never fails for another reason than a wrong MAC. */
  lemma FinalizeErrors(h: HashFn, transcript: Bytes, secrets: seq<Bytes>, serverMac: Bytes)
    requires h.Lawful()
    ensures FinalizeKe3Spec(h, transcript, secrets, serverMac).Err? ==>
              FinalizeKe3Spec(h, transcript, secrets, serverMac).error == InvalidLoginError
  {
    DeriveKeysOk(h, secrets, transcript);
  }

  // ---------------------------------------------------------------------
  // What key confirmation binds
  // ---------------------------------------------------------------------

  /** The block an expansion under this label hashes; empty when a length does not fit its field. */
  function LabelBlock(h: HashFn, name: Bytes, context: Bytes): Bytes {
    match LabelInfo(h.nh, name, context)
    case Ok(info) => info + [1]
    case Err(_) => []
  }

  /**
    The transcript and the shared secrets of one side, and what it derives from them on the way to the client's MAC.
  */
  datatype Keyed = Keyed(transcript: Bytes, secrets: seq<Bytes>) {
    function Prk(h: HashFn): Bytes {
      Extract(h, Flatten(secrets))
    }

    function HandshakeBlock(h: HashFn): Bytes {
      LabelBlock(h, Ascii("HandshakeSecret"), h.hash(transcript))
    }

    function HandshakeSecret(h: HashFn): Bytes {
      h.hmac(Prk(h), HandshakeBlock(h))
    }

    function Km2(h: HashFn): Bytes {
      h.hmac(HandshakeSecret(h), LabelBlock(h, Ascii("ServerMAC"), []))
    }

    function Km3(h: HashFn): Bytes {
      h.hmac(HandshakeSecret(h), LabelBlock(h, Ascii("ClientMAC"), []))
    }

    function SessionKey(h: HashFn): Bytes {
      h.hmac(Prk(h), LabelBlock(h, Ascii("SessionKey"), h.hash(transcript)))
    }

    function Keys(h: HashFn): Result<DerivedKeys>
      requires h.Lawful()
    {
      DeriveKeysSpec(h, secrets, h.hash(transcript))
    }
  }

  /** The session key and the MAC keys are those of the key schedule, which never fails. */
  lemma KeyedKeys(h: HashFn, k: Keyed)
    requires h.Lawful()
    ensures k.Keys(h) == Ok(DerivedKeys(k.SessionKey(h), k.Km2(h), k.Km3(h)))
    ensures |k.Prk(h)| == |k.HandshakeSecret(h)| == |k.Km3(h)| == |k.SessionKey(h)| == h.nh
  {
    var hs := KeysAreHmacs(h, k.Prk(h), h.hash(k.transcript));
  }

  /** The handshake block determines the transcript hash. */
  lemma HandshakeBlockUnique(h: HashFn, k: Keyed, l: Keyed)
    requires h.Lawful() && k.HandshakeBlock(h) == l.HandshakeBlock(h)
    ensures h.hash(k.transcript) == h.hash(l.transcript)
  {
    var dk, dl := h.hash(k.transcript), h.hash(l.transcript);
    LabelInfoOk(h, STR_HANDSHAKE_SECRET, dk);
    LabelInfoOk(h, STR_HANDSHAKE_SECRET, dl);
    var ik, il := LabelInfo(h.nh, STR_HANDSHAKE_SECRET, dk).value, LabelInfo(h.nh, STR_HANDSHAKE_SECRET, dl).value;
    assert ik == (ik + [1])[..|ik + [1]| - 1] && il == (il + [1])[..|il + [1]| - 1];
    LabelInfoUnique(h.nh, STR_HANDSHAKE_SECRET, dk);
    LabelInfoUnique(h.nh, STR_HANDSHAKE_SECRET, dl);
  }

  /**
   The only pairs that can collide when both sides' third keys give one MAC for the messages x and y: that MAC's inputs,
   then up the key schedule the inputs of the MAC key, of the handshake secret, of the transcript hash and of the
   extraction.
   */
  function KeyCandidates(h: HashFn, server: Keyed, client: Keyed, x: Bytes, y: Bytes): seq<Collision> {
    var confirm := LabelBlock(h, STR_CLIENT_MAC, []);
    var zeros: Bytes := seq(h.nh, _ => 0);
    [OfHmac(server.Km3(h), x, client.Km3(h), y),
     OfHmac(server.HandshakeSecret(h), confirm, client.HandshakeSecret(h), confirm),
     OfHmac(server.Prk(h), server.HandshakeBlock(h), client.Prk(h), client.HandshakeBlock(h)),
     OfHash(server.transcript, client.transcript),
     OfHmac(zeros, Flatten(server.secrets), zeros, Flatten(client.secrets))]
  }

  /**
   Equal MACs under both sides' third keys: the messages, the transcripts, the secrets and all keys are equal, or one of
   the five candidate pairs is a collision.
   */
  lemma MacBinds(h: HashFn, server: Keyed, x: Bytes, client: Keyed, y: Bytes)
    returns (collision: Option<Collision>)
    requires h.Lawful() && h.hmac(server.Km3(h), x) == h.hmac(client.Km3(h), y)
    ensures collision.Some? ==> collision.value in KeyCandidates(h, server, client, x, y) && collision.value.Breaks(h)
    ensures collision.None? ==>
              && x == y && server.transcript == client.transcript
              && Flatten(server.secrets) == Flatten(client.secrets)
              && server.Keys(h) == client.Keys(h)
  {
    KeyedKeys(h, server);
    KeyedKeys(h, client);
    var candidates := KeyCandidates(h, server, client, x, y);
    if (server.Km3(h), x) != (client.Km3(h), y) {
      return Some(candidates[0]);
    }
    if server.HandshakeSecret(h) != client.HandshakeSecret(h) {
      return Some(candidates[1]);
    }
    if (server.Prk(h), server.HandshakeBlock(h)) != (client.Prk(h), client.HandshakeBlock(h)) {
      return Some(candidates[2]);
    }
    HandshakeBlockUnique(h, server, client);
    if server.transcript != client.transcript {
      return Some(candidates[3]);
    }
    if Flatten(server.secrets) != Flatten(client.secrets) {
      return Some(candidates[4]);
    }
    collision := None;
  }

  /** The server's MAC. */
  function ServerMac(h: HashFn, server: Keyed): Bytes {
    h.hmac(server.Km2(h), h.hash(server.transcript))
  }

  /** The client's MAC over the transcript and a server MAC. */
  function ClientMac(h: HashFn, client: Keyed, serverMac: Bytes): Bytes {
    h.hmac(client.Km3(h), h.hash(client.transcript + serverMac))
  }

  /** The client accepts exactly the server MAC of its own transcript and secrets. */
  lemma FinalizeIs(h: HashFn, client: Keyed, serverMac: Bytes)
    requires h.Lawful()
    ensures FinalizeKe3Spec(h, client.transcript, client.secrets, serverMac)
         == if serverMac == ServerMac(h, client) then
              Ok((DerivedKeys(client.SessionKey(h), client.Km2(h), client.Km3(h)), ClientMac(h, client, serverMac)))
            else Err(InvalidLoginError)
  {
    KeyedKeys(h, client);
  }

  /** The pairs that can collide in key confirmation: those of the key schedule, and the two confirmed transcripts. */
  function ConfirmationCandidates(h: HashFn, server: Keyed, client: Keyed, receivedMac: Bytes): seq<Collision> {
    var s, c := server.transcript + ServerMac(h, server), client.transcript + receivedMac;
    KeyCandidates(h, server, client, h.hash(s), h.hash(c)) + [OfHash(s, c)]
  }

  /**
   Key confirmation binds: if the client accepted some server MAC over its own transcript and its answer is
   the MAC the server expects, then both transcripts, the MAC, the shared secrets and all keys are equal,
   or one of the six candidate pairs, all computed from the two sides, is a collision.
   */
  lemma ConfirmationBinds(h: HashFn, server: Keyed, client: Keyed, receivedMac: Bytes)
    returns (collision: Option<Collision>)
    requires h.Lawful()
    requires server.Keys(h).Ok? && FinalizeKe3Spec(h, client.transcript, client.secrets, receivedMac).Ok?
    requires Ke2Macs(h, server.transcript, server.Keys(h).value).1
          == FinalizeKe3Spec(h, client.transcript, client.secrets, receivedMac).value.1
    ensures collision.Some? ==>
              collision.value in ConfirmationCandidates(h, server, client, receivedMac) && collision.value.Breaks(h)
    ensures collision.None? ==>
              && client.transcript == server.transcript
              && receivedMac == Ke2Macs(h, server.transcript, server.Keys(h).value).0
              && Flatten(client.secrets) == Flatten(server.secrets)
              && FinalizeKe3Spec(h, client.transcript, client.secrets, receivedMac).value.0 == server.Keys(h).value
  {
    KeyedKeys(h, server);
    KeyedKeys(h, client);
    var s, c := server.transcript + ServerMac(h, server), client.transcript + receivedMac;
    collision := MacBinds(h, server, h.hash(s), client, h.hash(c));
    if collision.None? {
      if s != c {
        return Some(OfHash(s, c));
      }
      Cancel(server.transcript, ServerMac(h, server), client.transcript, receivedMac);
    }
  }

  /** The same for two sides that accepted each other's MACs. */
  lemma SidesBind(h: HashFn, server: Keyed, client: Keyed, receivedMac: Bytes)
    returns (collision: Option<Collision>)
    requires h.Lawful() && receivedMac == ServerMac(h, client)
    requires ClientMac(h, client, receivedMac) == ClientMac(h, server, ServerMac(h, server))
    ensures collision.Some? ==>
              collision.value in ConfirmationCandidates(h, server, client, receivedMac) && collision.value.Breaks(h)
    ensures collision.None? ==>
              && client.transcript == server.transcript && Flatten(client.secrets) == Flatten(server.secrets)
              && receivedMac == ServerMac(h, server) && client.SessionKey(h) == server.SessionKey(h)
  {
    KeyedKeys(h, server);
    KeyedKeys(h, client);
    FinalizeIs(h, client, receivedMac);
    collision := ConfirmationBinds(h, server, client, receivedMac);
  }
}
