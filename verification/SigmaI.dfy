/** The SIGMA-I key exchange (src/key_exchange/sigma_i/mod.rs). */
module SigmaI {
  import opened Errors
  import opened Serialization
  import opened Primitives
  import opened Identifiers
  import opened Keypair
  import opened Hkdf
  import opened Transcript
  import opened SigmaMessage
  import Dh = TripleDh

  /** What is kept until the peer's signature arrives: the cached message, or its hash. */
  datatype VerifyState = Cached(message: CachedMessage) | PreHash(digest: Bytes)

  datatype Ke2Builder = Ke2Builder(
    message: Message,
    serverNonce: Bytes,
    clientSPk: PublicKey,
    serverEPk: PublicKey,
    expectedMac: Bytes,
    sessionKey: Bytes)

  datatype Ke2State = Ke2State(clientSPk: PublicKey, sessionKey: Bytes, verifyState: VerifyState, expectedMac: Bytes)

  datatype Ke2Message = Ke2Message(serverNonce: Bytes, serverEPk: PublicKey, signature: Signature, mac: Bytes) {
    ghost predicate WellFormed(h: HashFn, sig: SigScheme, e: Group) {
      |serverNonce| == NONCE_LEN && e.validPk(serverEPk) && sig.validSig(signature) && |mac| == h.nh
    }
  }

  datatype Ke3Message = Ke3Message(signature: Signature, mac: Bytes)

  /** `SignatureProtocol::sign`: a signature over the message to sign, and the state for the later verification. */
  function SignSpec(sig: SigScheme, sk: PrivateKey, message: Message, random: Bytes): (Signature, VerifyState) {
    match sig.preHash
    case None => (sig.sign(sk, Flatten(message.SignMessage()), random), Cached(message.cache))
    case Some(h) =>
      var hashes := HashBothSpec(h, message);
      (sig.sign(sk, hashes.sign, random), PreHash(hashes.verify))
  }

  method Sign(sig: SigScheme, sk: PrivateKey, rng: TapeRng, message: Message) returns (r: (Signature, VerifyState))
    modifies rng
    ensures r == SignSpec(sig, sk, message, Fill(rng.tape, old(rng.pos), sig.nrand))
    ensures rng.pos == old(rng.pos) + sig.nrand
  {
    var random := rng.FillBytes(sig.nrand);
    match sig.preHash
    case None =>
      r := (sig.sign(sk, Flatten(message.SignMessage()), random), Cached(message.cache));
    case Some(h) =>
      var hashes := HashBoth(h, message);
      r := (sig.sign(sk, hashes.sign, random), PreHash(hashes.verify));
  }

  /** `SignatureProtocol::verify`: a stored pre-hash is used as it is; a cached message is completed by the builder. */
  function Verify(sig: SigScheme, pk: PublicKey, builder: MessageBuilder, state: VerifyState, signature: Signature)
    : Result<()>
  {
    match state
    case PreHash(digest) => Need(sig.verify(pk, digest, signature), InvalidLoginError)
    case Cached(cache) => Need(sig.verify(pk, Flatten(builder.Build(cache).Chunks()), signature), InvalidLoginError)
  }

  /** The keys of one side: the session key, the server's MAC and the client's MAC over the identifiers. */
  function SessionKeys(h: HashFn, transcript: Bytes, sharedSecret: Bytes, ids: SerializedIdentifiers)
    : Result<(Bytes, Bytes, Bytes)>
    requires h.Lawful()
  {
    var keys :- DeriveKeysSpec(h, [sharedSecret], h.hash(transcript));
    Ok((keys.sessionKey, h.hmac(keys.km2, Flatten(ids.server.Iter())), h.hmac(keys.km3, Flatten(ids.client.Iter()))))
  }

  method ComputeSessionKeys(h: HashFn, hasher: Absorber, sharedSecret: Bytes, ids: SerializedIdentifiers)
    returns (r: Result<(Bytes, Bytes, Bytes)>)
    requires h.Lawful()
    ensures r == SessionKeys(h, hasher.data, sharedSecret, ids)
  {
    var keys :- DeriveKeys(h, [sharedSecret], h.hash(hasher.data));
    var serverMac := new Absorber();
    serverMac.UpdateIter(ids.server.Iter());
    var clientMac := new Absorber();
    clientMac.UpdateIter(ids.client.Iter());
    assert [] + Flatten(ids.server.Iter()) == Flatten(ids.server.Iter());
    assert [] + Flatten(ids.client.Iter()) == Flatten(ids.client.Iter());
    r := Ok((keys.sessionKey, h.hmac(keys.km2, serverMac.data), h.hmac(keys.km3, clientMac.data)));
  }

  function CacheOf(e: Group, view: Dh.View, serverNonce: Bytes, serverEPk: PublicKey, serverMac: Bytes): CachedMessage {
    CachedMessage(view.request, view.ke1.ToIter(e), view.response, serverNonce, e.serializePk(serverEPk), serverMac)
  }

  /** The builder for a given ephemeral key pair and nonce. */
  function BuilderFrom(h: HashFn, e: Group, view: Dh.View, ephemeral: KeyPair, serverNonce: Bytes, clientSPk: PublicKey)
    : Result<Ke2Builder>
    requires h.Lawful()
  {
    var transcript := Encode(view.Parts(e, serverNonce, ephemeral.pk), []);
    var (sessionKey, serverMac, clientMac) :-
      SessionKeys(h, transcript, e.dh(ephemeral.sk, view.ke1.clientEPk), view.identifiers);
    Ok(Ke2Builder(Message(Server, view.context, view.identifiers,
                          CacheOf(e, view, serverNonce, ephemeral.pk, serverMac)),
                  serverNonce, clientSPk, ephemeral.pk, clientMac, sessionKey))
  }

  method AssembleBuilder(h: HashFn, e: Group, view: Dh.View, ephemeral: KeyPair, serverNonce: Bytes,
                         clientSPk: PublicKey)
    returns (r: Result<Ke2Builder>)
    requires h.Lawful() && view.context.WellFormed() && view.identifiers.WellFormed()
    ensures r == BuilderFrom(h, e, view, ephemeral, serverNonce, clientSPk)
  {
    var hasher := TranscriptHasher(view.context, view.identifiers, view.request, view.ke1.ToIter(e), view.response,
                                   serverNonce, e.serializePk(ephemeral.pk));
    var keys :- ComputeSessionKeys(h, hasher, e.dh(ephemeral.sk, view.ke1.clientEPk), view.identifiers);
    var cache := CacheOf(e, view, serverNonce, ephemeral.pk, keys.1);
    r := Ok(Ke2Builder(Message(Server, view.context, view.identifiers, cache), serverNonce, clientSPk, ephemeral.pk,
                       keys.2, keys.0));
  }

  /** `ke2_builder`: an ephemeral key and a nonce are drawn first. */
  function Ke2BuilderSpec(h: HashFn, e: Group, tape: Tape, pos: nat, view: Dh.View, clientSPk: PublicKey)
    : Result<(Ke2Builder, nat)>
    requires h.Lawful()
  {
    var (ephemeral, serverNonce, next) :- Ephemeral(e, tape, pos);
    var builder :- BuilderFrom(h, e, view, ephemeral, serverNonce, clientSPk);
    Ok((builder, next))
  }

  method MakeKe2Builder(h: HashFn, e: Group, rng: TapeRng, view: Dh.View, clientSPk: PublicKey)
    returns (r: Result<Ke2Builder>)
    requires h.Lawful() && view.context.WellFormed() && view.identifiers.WellFormed()
    modifies rng
    ensures match Ke2BuilderSpec(h, e, rng.tape, old(rng.pos), view, clientSPk)
            case Ok((builder, pos)) => r == Ok(builder) && rng.pos == pos
            case Err(error) => r == Err(error)
  {
    var drawn :- DrawEphemeral(e, rng);
    r := AssembleBuilder(h, e, view, drawn.0, drawn.1, clientSPk);
  }

  /** The builder is completed with a signature and a verification state, computed locally or remotely. */
  function BuildKe2(b: Ke2Builder, input: (Signature, VerifyState)): (Ke2State, Ke2Message) {
    (Ke2State(b.clientSPk, b.sessionKey, input.1, b.expectedMac),
     Ke2Message(b.serverNonce, b.serverEPk, input.0, b.message.cache.serverMac))
  }

  function GenerateKe3Spec(h: HashFn, sig: SigScheme, e: Group, view: Dh.View, state: Ke1State, ke2: Ke2Message,
                           serverSPk: PublicKey, clientSSk: PrivateKey, random: Bytes): Result<(Bytes, Ke3Message)>
    requires h.Lawful()
  {
    var transcript := Encode(view.Parts(e, ke2.serverNonce, ke2.serverEPk), []);
    var (sessionKey, serverMac, clientMac) :-
      SessionKeys(h, transcript, e.dh(state.clientESk, ke2.serverEPk), view.identifiers);
    var _ :- Need(serverMac == ke2.mac, InvalidLoginError);
    var message := Message(Client, view.context, view.identifiers,
                           CacheOf(e, view, ke2.serverNonce, ke2.serverEPk, serverMac));
    var (signature, verifyState) := SignSpec(sig, clientSSk, message, random);
    var _ :- Verify(sig, serverSPk, MessageBuilder(Client, view.context, view.identifiers.server), verifyState,
                    ke2.signature);
    Ok((sessionKey, Ke3Message(signature, clientMac)))
  }

  method GenerateKe3(h: HashFn, sig: SigScheme, e: Group, rng: TapeRng, view: Dh.View, state: Ke1State, ke2: Ke2Message,
                     serverSPk: PublicKey, clientSSk: PrivateKey) returns (r: Result<(Bytes, Ke3Message)>)
    requires h.Lawful() && view.context.WellFormed() && view.identifiers.WellFormed()
    modifies rng
    ensures r == GenerateKe3Spec(h, sig, e, view, state, ke2, serverSPk, clientSSk,
                                 Fill(rng.tape, old(rng.pos), sig.nrand))
  {
    var hasher := TranscriptHasher(view.context, view.identifiers, view.request, view.ke1.ToIter(e), view.response,
                                   ke2.serverNonce, e.serializePk(ke2.serverEPk));
    var keys :- ComputeSessionKeys(h, hasher, e.dh(state.clientESk, ke2.serverEPk), view.identifiers);
    if keys.1 != ke2.mac {
      return Err(InvalidLoginError);
    }
    var message := Message(Client, view.context, view.identifiers,
                           CacheOf(e, view, ke2.serverNonce, ke2.serverEPk, keys.1));
    var signed := Sign(sig, clientSSk, rng, message);
    var _ :- Verify(sig, serverSPk, MessageBuilder(Client, view.context, view.identifiers.server), signed.1,
                    ke2.signature);
    r := Ok((keys.0, Ke3Message(signed.0, keys.2)));
  }

  /** The server verifies the client's signature for the identifiers and the context given now, then compares MACs. */
  function FinishKe(sig: SigScheme, group: Group, state: Ke2State, ke3: Ke3Message, ids: Ids,
                    context: SerializedContext)
    : Result<Bytes>
  {
    var identifier :- FromIdentifier(ids.client, group.serializePk(state.clientSPk));
    var _ :- Verify(sig, state.clientSPk, MessageBuilder(Server, context, identifier), state.verifyState,
                    ke3.signature);
    var _ :- Need(state.expectedMac == ke3.mac, InvalidLoginError);
    Ok(state.sessionKey)
  }

  // ---------------------------------------------------------------------
  // The two routes
  // ---------------------------------------------------------------------

  /** The scheme that signs the same way but keeps the message instead of its hash. */
  function CachedTwin(sig: SigScheme): SigScheme
    requires sig.preHash.Some?
  {
    var h := sig.preHash.value;
    sig.(preHash := None,
         sign := (sk: PrivateKey, m: Bytes, r: Bytes) => sig.sign(sk, h.hash(m), r),
         verify := (pk: PublicKey, m: Bytes, s: Signature) => sig.verify(pk, h.hash(m), s))
  }

  /**
   The optimised route refines the cached one: with the context and identifier of the start, signing and then
   verifying through the pre-hash gives the same signature and the same verdict as through the cached message.
   */
  lemma RoutesAgree(sig: SigScheme, sk: PrivateKey, message: Message, random: Bytes, pk: PublicKey,
                    builder: MessageBuilder, signature: Signature)
    requires sig.preHash.Some? && builder.role == message.role
    requires SameBytes(message.context, IdentifierOf(message.identifiers, Other(message.role)), builder.context,
                       builder.identifier)
    ensures SignSpec(sig, sk, message, random).0 == SignSpec(CachedTwin(sig), sk, message, random).0
    ensures Verify(sig, pk, builder, SignSpec(sig, sk, message, random).1, signature)
         == Verify(CachedTwin(sig), pk, builder, SignSpec(CachedTwin(sig), sk, message, random).1, signature)
  {
    PreHashRefinesCache(sig.preHash.value, message, builder);
  }

  /**
   At the server's last step the routes differ exactly in what they look at: a cached message is checked against the
   client identifier and context given at the end, a pre-hash against those given at the start.
   */
  lemma FinishRoutesAgree(sig: SigScheme, group: Group, b: Ke2Builder, sk: PrivateKey, random: Bytes,
                          signature: Signature, ke3: Ke3Message, ids: Ids, context: SerializedContext)
    requires sig.preHash.Some? && b.message.role == Server && b.message.identifiers.WellFormed()
    requires context == b.message.context
    requires ids.client.GetOr(group.serializePk(b.clientSPk)) == b.message.identifiers.client.identifier.bytes
    ensures var state := BuildKe2(b, SignSpec(sig, sk, b.message, random)).0;
            var state' := BuildKe2(b, SignSpec(CachedTwin(sig), sk, b.message, random)).0;
            FinishKe(sig, group, state, ke3, ids, context) ==
              FinishKe(CachedTwin(sig), group, state', ke3, ids, context)
  {
    var identifier := FromIdentifier(ids.client, group.serializePk(b.clientSPk)).value;
    RoutesAgree(sig, sk, b.message, random, b.clientSPk, MessageBuilder(Server, context, identifier), ke3.signature);
  }

  // ---------------------------------------------------------------------
  // Completeness
  // ---------------------------------------------------------------------

  lemma SessionKeysOk(h: HashFn, transcript: Bytes, secret: Bytes, ids: SerializedIdentifiers)
    requires h.Lawful()
    ensures SessionKeys(h, transcript, secret, ids).Ok?
    ensures var (sessionKey, serverMac, clientMac) := SessionKeys(h, transcript, secret, ids).value;
            |sessionKey| == |serverMac| == |clientMac| == h.nh
  {
    DeriveKeysOk(h, [secret], transcript);
  }

  lemma SessionKeysSame(h: HashFn, transcript: Bytes, secret: Bytes, ids: SerializedIdentifiers,
                        ids': SerializedIdentifiers)
    requires h.Lawful() && ids.WellFormed() && ids'.WellFormed()
    requires ids.client.identifier.bytes == ids'.client.identifier.bytes
    requires ids.server.identifier.bytes == ids'.server.identifier.bytes
    ensures SessionKeys(h, transcript, secret, ids) == SessionKeys(h, transcript, secret, ids')
  {
    ids.client.Flat();
    ids.server.Flat();
    ids'.client.Flat();
    ids'.server.Flat();
  }

  /** An honest signature verifies at the peer, whichever route either side takes. */
  lemma SignatureAccepted(sig: SigScheme, group: Group, kp: KeyPair, random: Bytes, signer: Message, verifier: Message,
                          random': Bytes, sk': PrivateKey, builder: MessageBuilder)
    requires sig.Lawful(group) && kp.Matching(group)
    requires verifier.role == Other(signer.role) && verifier.cache == signer.cache
    requires builder.role == verifier.role
    requires SameBytes(signer.context, IdentifierOf(signer.identifiers, signer.role), builder.context,
                       builder.identifier)
    requires SameBytes(verifier.context, IdentifierOf(verifier.identifiers, signer.role), builder.context,
                       builder.identifier)
    ensures Verify(sig, kp.pk, builder, SignSpec(sig, sk', verifier, random').1,
                   SignSpec(sig, kp.sk, signer, random).0).Ok?
  {
    Duality(signer, builder);
    if sig.preHash.Some? {
      var h := sig.preHash.value;
      PreHashRefinesCache(h, verifier, builder);
      FlattenCat(signer.context.Iter(), signer.PostMessage(Stage.Sign));
      assert HashBothSpec(h, signer).sign == h.hash(Flatten(signer.SignMessage()));
      assert HashBothSpec(h, verifier).verify == HashBothSpec(h, signer).sign;
    }
  }

  /** The server's builder never fails, and says what it was built from. */
  lemma BuilderOk(h: HashFn, e: Group, view: Dh.View, kp: KeyPair, nonce: Bytes, clientSPk: PublicKey)
    requires h.Lawful()
    ensures BuilderFrom(h, e, view, kp, nonce, clientSPk).Ok?
    ensures var b := BuilderFrom(h, e, view, kp, nonce, clientSPk).value;
            && b.serverEPk == kp.pk && b.clientSPk == clientSPk && b.serverNonce == nonce
            && |b.message.cache.serverMac| == h.nh
            && b.message == Message(Server, view.context, view.identifiers,
                                    CacheOf(e, view, nonce, kp.pk, b.message.cache.serverMac))
            && SessionKeys(h, Encode(view.Parts(e, nonce, kp.pk), []), e.dh(kp.sk, view.ke1.clientEPk),
                           view.identifiers)
               == Ok((b.sessionKey, b.message.cache.serverMac, b.expectedMac))
  {
    SessionKeysOk(h, Encode(view.Parts(e, nonce, kp.pk), []), e.dh(kp.sk, view.ke1.clientEPk), view.identifiers);
  }

  /** The client accepts what the builder and a server signature make, and answers with the expected MAC. */
  lemma ClientAccepts(h: HashFn, sig: SigScheme, group: Group, e: Group, server: Dh.View, client: Dh.View,
                      b: Ke2Builder,
                      kp: KeyPair, serverS: KeyPair, clientSSk: PrivateKey, state: Ke1State, serverRandom: Bytes,
                      clientRandom: Bytes)
    requires h.Lawful() && sig.Lawful(group) && serverS.Matching(group)
    requires e.dh(state.clientESk, kp.pk) == e.dh(kp.sk, server.ke1.clientEPk)
    requires Dh.ViewsAgree(server, client) && server.context == client.context
    requires server.identifiers.WellFormed() && client.identifiers.WellFormed()
    requires BuilderFrom(h, e, server, kp, b.serverNonce, b.clientSPk) == Ok(b)
    ensures var ke2 := BuildKe2(b, SignSpec(sig, serverS.sk, b.message, serverRandom)).1;
            GenerateKe3Spec(h, sig, e, client, state, ke2, serverS.pk, clientSSk, clientRandom)
            == Ok((b.sessionKey, Ke3Message(SignSpec(sig, clientSSk, ClientMessage(b.message, client), clientRandom).0,
                                            b.expectedMac)))
  {
    BuilderOk(h, e, server, kp, b.serverNonce, b.clientSPk);
    assert server.Parts(e, b.serverNonce, b.serverEPk) == client.Parts(e, b.serverNonce, b.serverEPk);
    SessionKeysSame(h, Encode(client.Parts(e, b.serverNonce, b.serverEPk), []),
                    e.dh(state.clientESk, b.serverEPk), server.identifiers, client.identifiers);
    SignatureAccepted(sig, group, serverS, serverRandom, b.message, ClientMessage(b.message, client), clientRandom,
                      clientSSk, MessageBuilder(Client, client.context, client.identifiers.server));
  }

  /** The client's message for the same exchange. */
  function ClientMessage(server: Message, client: Dh.View): Message {
    Message(Client, client.context, client.identifiers, server.cache)
  }

  /** The server accepts the client's signature and MAC for the identifiers and the context of the start. */
  lemma ServerAccepts(sig: SigScheme, group: Group, client: Dh.View, b: Ke2Builder, clientS: KeyPair,
                      serverSSk: PrivateKey, serverRandom: Bytes, clientRandom: Bytes, finishIds: Ids)
    requires sig.Lawful(group) && clientS.Matching(group) && b.clientSPk == clientS.pk
    requires b.message.role == Server && b.message.identifiers.WellFormed() && client.identifiers.WellFormed()
    requires b.message.context == client.context
    requires b.message.identifiers.client.identifier.bytes == client.identifiers.client.identifier.bytes
    requires finishIds.client.GetOr(group.serializePk(clientS.pk)) == client.identifiers.client.identifier.bytes
    ensures var state := BuildKe2(b, SignSpec(sig, serverSSk, b.message, serverRandom)).0;
            var signature := SignSpec(sig, clientS.sk, ClientMessage(b.message, client), clientRandom).0;
            FinishKe(sig, group, state, Ke3Message(signature, b.expectedMac), finishIds, client.context) ==
              Ok(b.sessionKey)
  {
    var identifier := FromIdentifier(finishIds.client, group.serializePk(clientS.pk)).value;
    SignatureAccepted(sig, group, clientS, clientRandom, ClientMessage(b.message, client), b.message, serverRandom,
                      serverSSk, MessageBuilder(Server, client.context, identifier));
  }

  /**
    The outcome of an exchange whose server draws its randomness from one tape: both sides finish, with one session
    key.
  */
  ghost predicate Completes(h: HashFn, sig: SigScheme, group: Group, e: Group, tape: Tape, pos: nat,
                            server: Dh.View, client: Dh.View, clientS: KeyPair, serverS: KeyPair, state: Ke1State,
                            clientRandom: Bytes, finishIds: Ids)
    requires h.Lawful()
  {
    && Ke2BuilderSpec(h, e, tape, pos, server, clientS.pk).Ok?
    && var (b, next) := Ke2BuilderSpec(h, e, tape, pos, server, clientS.pk).value;
       var (ke2State, ke2) := BuildKe2(b, SignSpec(sig, serverS.sk, b.message, Fill(tape, next, sig.nrand)));
       var answer := GenerateKe3Spec(h, sig, e, client, state, ke2, serverS.pk, clientS.sk, clientRandom);
       && answer.Ok?
       && ke2.WellFormed(h, sig, e)
       && FinishKe(sig, group, ke2State, answer.value.1, finishIds, server.context) == Ok(answer.value.0)
  }

  /** The client accepts the honest second message and the server accepts the answer, with one session key. */
  lemma Completeness(h: HashFn, sig: SigScheme, group: Group, e: Group, tape: Tape, pos: nat,
                     server: Dh.View, client: Dh.View, clientS: KeyPair, serverS: KeyPair, state: Ke1State,
                     clientRandom: Bytes, finishIds: Ids)
    requires h.Lawful() && e.Lawful() && Ephemeral(e, tape, pos).Ok? && sig.Lawful(group)
    requires clientS.Matching(group) && serverS.Matching(group)
    requires e.validSk(state.clientESk) && server.ke1.clientEPk == e.publicKey(state.clientESk)
    requires Dh.ViewsAgree(server, client) && server.context == client.context
    requires server.identifiers.WellFormed() && client.identifiers.WellFormed()
    requires finishIds.client.GetOr(group.serializePk(clientS.pk)) == server.identifiers.client.identifier.bytes
    ensures Completes(h, sig, group, e, tape, pos, server, client, clientS, serverS, state, clientRandom, finishIds)
  {
    EphemeralOk(e, tape, pos);
    var (kp, nonce, next) := Ephemeral(e, tape, pos).value;
    BuilderOk(h, e, server, kp, nonce, clientS.pk);
    var b := Ke2BuilderSpec(h, e, tape, pos, server, clientS.pk).value.0;
    var serverRandom := Fill(tape, next, sig.nrand);
    assert e.dh(state.clientESk, e.publicKey(kp.sk)) == e.dh(kp.sk, e.publicKey(state.clientESk));
    ClientAccepts(h, sig, group, e, server, client, b, kp, serverS, clientS.sk, state, serverRandom, clientRandom);
    ServerAccepts(sig, group, client, b, clientS, serverS.sk, serverRandom, clientRandom, finishIds);
  }

  lemma GenerateKe3Errors(h: HashFn, sig: SigScheme, e: Group, view: Dh.View, state: Ke1State, ke2: Ke2Message,
                          serverSPk: PublicKey, clientSSk: PrivateKey, random: Bytes)
    requires h.Lawful()
    ensures var r := GenerateKe3Spec(h, sig, e, view, state, ke2, serverSPk, clientSSk, random);
            r.Err? ==> r.error == InvalidLoginError
  {
    SessionKeysOk(h, Encode(view.Parts(e, ke2.serverNonce, ke2.serverEPk), []),
                  e.dh(state.clientESk, ke2.serverEPk), view.identifiers);
  }
}
