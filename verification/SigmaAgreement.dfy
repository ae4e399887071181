/** Agreement in SIGMA-I: the client's MAC binds the whole transcript, without any assumption on signatures. */
module SigmaAgreement {
  import opened Errors
  import opened Serialization
  import opened Primitives
  import opened Identifiers
  import opened Keypair
  import opened Transcript
  import opened SigmaMessage
  import opened SigmaI
  import opened SigmaVerdict
  import Dh = TripleDh

  /** The pairs that can collide in SIGMA-I: those behind the client's MAC over its identifier. */
  function Candidates(h: HashFn, e: Group, ephemeral: KeyPair, serverNonce: Bytes, server: Dh.View, client: Dh.View,
                      state: Ke1State, received: Ke2Message): seq<Collision>
  {
    KeyCandidates(h, ServerSide(e, server, ephemeral, serverNonce), ClientSide(e, client, state, received),
                  Vec16(server.identifiers.client.identifier.bytes), Vec16(client.identifiers.client.identifier.bytes))
  }

  /**
   Agreement for SIGMA-I, for any second message given to the client and any signatures: when the client accepts it and
   the server accepts the answer, both hold the same context, identifiers, messages, nonces, ephemeral keys, secret and
   session key, and nonce, key and MAC of the accepted message are those the server sent; otherwise one of the five
   candidate pairs computed from the two sides collides.
   */
  lemma Agreement(h: HashFn, sig: SigScheme, group: Group, e: Group, s: Shape, ephemeral: KeyPair, serverNonce: Bytes,
                  server: Dh.View, clientSPk: PublicKey, b: Ke2Builder, input: (Signature, VerifyState),
                  client: Dh.View,
                  state: Ke1State, received: Ke2Message, serverSPk: PublicKey, clientSSk: PrivateKey, random: Bytes,
                  ids: Ids, context: SerializedContext)
    returns (collision: Option<Collision>)
    requires h.Lawful() && e.LawfulEncodings() && s.nepk == e.npk
    requires e.validPk(ephemeral.pk) && |serverNonce| == NONCE_LEN
    requires server.WellFormed(s, e) && client.WellFormed(s, e) && received.WellFormed(h, sig, e)
    requires BuilderFrom(h, e, server, ephemeral, serverNonce, clientSPk) == Ok(b)
    requires var answer := GenerateKe3Spec(h, sig, e, client, state, received, serverSPk, clientSSk, random);
             answer.Ok? && FinishKe(sig, group, BuildKe2(b, input).0, answer.value.1, ids, context).Ok?
    ensures collision.Some? ==>
              && collision.value.Breaks(h)
              && collision.value in Candidates(h, e, ephemeral, serverNonce, server, client, state, received)
    ensures collision.None? ==>
              var (ke2State, sent) := BuildKe2(b, input);
              var (sessionKey, ke3) := GenerateKe3Spec(h, sig, e, client, state, received, serverSPk, clientSSk,
                                                       random).value;
              && Dh.ViewsAgree(server, client)
              && received.serverNonce == sent.serverNonce && received.serverEPk == sent.serverEPk
              && received.mac == sent.mac
              && FinishKe(sig, group, ke2State, ke3, ids, context) == Ok(sessionKey)
              && e.dh(state.clientESk, received.serverEPk) == e.dh(ephemeral.sk, server.ke1.clientEPk)
  {
    ServerComputes(h, e, server, ephemeral, serverNonce, clientSPk);
    ClientVerdict(h, sig, e, client, state, received, serverSPk, clientSSk, random);
    var ss, cs := ServerSide(e, server, ephemeral, serverNonce), ClientSide(e, client, state, received);
    KeyedKeys(h, ss);
    KeyedKeys(h, cs);
    collision := MacBinds(h, ss, Vec16(server.identifiers.client.identifier.bytes),
                          cs, Vec16(client.identifiers.client.identifier.bytes));
    if collision.None? {
      FlattenOne(ss.secrets[0]);
      FlattenOne(cs.secrets[0]);
      Dh.TranscriptsAgree(s, e, server, client, serverNonce, ephemeral.pk, received.serverNonce, received.serverEPk,
                          [], []);
    }
  }

  /** What the server signs, for the MAC it sends. */
  function ServerMessage(e: Group, server: Dh.View, serverNonce: Bytes, serverEPk: PublicKey, mac: Bytes): Message {
    Message(Server, server.context, server.identifiers,
            CachedMessage(server.request, server.ke1.ToIter(e), server.response, serverNonce,
                          e.serializePk(serverEPk), mac))
  }

  /** Sides that agree look at one server message. */
  lemma OneServerMessage(e: Group, server: Dh.View, client: Dh.View, received: Ke2Message)
    requires Dh.ViewsAgree(server, client) && server.context.WellFormed() && client.context.WellFormed()
    ensures ServerBytes(MessageOfClient(e, client, received))
         == ServerBytes(ServerMessage(e, server, received.serverNonce, received.serverEPk, received.mac))
  {
  }

  /**
   The signatures of two sides that accept and agree: the server's, as the client received it, verifies under the key
   the client recovered on the server's message, and the client's under its registered key on the client's message.
   */
  lemma SignaturesAgree(h: HashFn, sig: SigScheme, group: Group, e: Group, ephemeral: KeyPair, serverNonce: Bytes,
                        server: Dh.View, clientSPk: PublicKey, serverSSk: PrivateKey, serverRandom: Bytes,
                        client: Dh.View, state: Ke1State, received: Ke2Message, serverSPk: PublicKey,
                        clientSSk: PrivateKey, random: Bytes, ids: Ids, context: SerializedContext)
    requires h.Lawful() && server.context.WellFormed() && server.identifiers.WellFormed()
    requires client.context.WellFormed() && client.identifiers.WellFormed() && context.WellFormed()
    requires BuilderFrom(h, e, server, ephemeral, serverNonce, clientSPk).Ok?
    requires var b := BuilderFrom(h, e, server, ephemeral, serverNonce, clientSPk).value;
             var (ke2State, sent) := BuildKe2(b, SignSpec(sig, serverSSk, b.message, serverRandom));
             var answer := GenerateKe3Spec(h, sig, e, client, state, received, serverSPk, clientSSk, random);
             && answer.Ok? && FinishKe(sig, group, ke2State, answer.value.1, ids, context).Ok?
             && Dh.ViewsAgree(server, client)
             && received.serverNonce == sent.serverNonce && received.serverEPk == sent.serverEPk
             && received.mac == sent.mac
    ensures var m := ServerMessage(e, server, received.serverNonce, received.serverEPk, received.mac);
            var ke3 := GenerateKe3Spec(h, sig, e, client, state, received, serverSPk, clientSSk, random).value.1;
            var id := ids.client.GetOr(group.serializePk(clientSPk));
            && sig.verify(serverSPk, Signed(sig, ServerBytes(m)), received.signature)
            && sig.verify(clientSPk, Signed(sig, ClientBytes(sig, m, context.context, id)), ke3.signature)
  {
    var b := BuilderFrom(h, e, server, ephemeral, serverNonce, clientSPk).value;
    var ke3 := GenerateKe3Spec(h, sig, e, client, state, received, serverSPk, clientSSk, random).value.1;
    ServerComputes(h, e, server, ephemeral, serverNonce, clientSPk);
    ClientVerdict(h, sig, e, client, state, received, serverSPk, clientSSk, random);
    ServerVerdict(sig, group, b, serverSSk, serverRandom, ke3, ids, context);
    OneServerMessage(e, server, client, received);
  }
}
