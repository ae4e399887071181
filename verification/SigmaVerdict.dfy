/** What each side of SIGMA-I accepts and computes (src/key_exchange/sigma_i/mod.rs). */
module SigmaVerdict {
  import opened Errors
  import opened Serialization
  import opened Primitives
  import opened Identifiers
  import opened Keypair
  import opened Transcript
  import opened SigmaMessage
  import opened SigmaI
  import Dh = TripleDh

  /** What a scheme signs for a message: its hash, if it has a pre-hash. */
  function Signed(sig: SigScheme, bytes: Bytes): Bytes {
    match sig.preHash
    case None => bytes
    case Some(h) => h.hash(bytes)
  }

  /** The bytes a party signs over its view. */
  function BytesOf(m: Message): Bytes {
    MessageBytes(m.role, m.context.context, IdentifierOf(m.identifiers, m.role).identifier.bytes, m.cache)
  }

  /** A signature is the scheme's, over the bytes of the signer's role. */
  lemma SignatureIs(sig: SigScheme, sk: PrivateKey, m: Message, random: Bytes)
    requires m.context.WellFormed() && m.identifiers.WellFormed()
    ensures SignSpec(sig, sk, m, random).0 == sig.sign(sk, Signed(sig, BytesOf(m)), random)
  {
    MessageFlat(m.role, m.context, IdentifierOf(m.identifiers, m.role), m.cache);
    assert m.SignMessage() == m.context.Iter() + m.cache.PostMessage(m.role, IdentifierOf(m.identifiers, m.role));
    if sig.preHash.Some? {
      FlattenCat(m.context.Iter(), m.PostMessage(Stage.Sign));
    }
  }

  /**
   What a party verifies after it signed: the bytes of the other role, over its own cache. A scheme with a pre-hash has
   fixed context and identifier when it signed; without one they are those given with the signature.
   */
  lemma VerifyIs(sig: SigScheme, sk: PrivateKey, m: Message, random: Bytes, pk: PublicKey, context: SerializedContext,
                 id: SerializedIdentifier, signature: Signature)
    requires m.context.WellFormed() && m.identifiers.WellFormed() && context.WellFormed() && id.WellFormed()
    ensures var mine := IdentifierOf(m.identifiers, Other(m.role));
            var bytes := if sig.preHash.Some? then
                           MessageBytes(Other(m.role), m.context.context, mine.identifier.bytes, m.cache)
                         else MessageBytes(Other(m.role), context.context, id.identifier.bytes, m.cache);
            SigmaI.Verify(sig, pk, MessageBuilder(m.role, context, id), SignSpec(sig, sk, m, random).1, signature)
            == if sig.verify(pk, Signed(sig, bytes), signature) then Ok(()) else Err(InvalidLoginError)
  {
    var mine := IdentifierOf(m.identifiers, Other(m.role));
    if sig.preHash.Some? {
      MessageFlat(Other(m.role), m.context, mine, m.cache);
      FlattenCat(m.context.Iter(), m.PostMessage(Stage.Verify));
      assert m.PostMessage(Stage.Verify) == m.cache.PostMessage(Other(m.role), mine);
    } else {
      MessageFlat(Other(m.role), context, id, m.cache);
    }
  }

  // ---------------------------------------------------------------------
  // The server
  // ---------------------------------------------------------------------

  /** What the client's signature must cover, at the server's last step. */
  function ClientBytes(sig: SigScheme, m: Message, context: Bytes, id: Bytes): Bytes {
    if sig.preHash.Some? then
      MessageBytes(Client, m.context.context, m.identifiers.client.identifier.bytes, m.cache)
    else MessageBytes(Client, context, id, m.cache)
  }

  /**
   The server's last step accepts exactly when the identifier is in range, the client's signature verifies under its
   registered key on the client's message, and the MAC is the expected one.
   */
  lemma ServerVerdict(sig: SigScheme, group: Group, b: Ke2Builder, sk: PrivateKey, random: Bytes, ke3: Ke3Message,
                      ids: Ids, context: SerializedContext)
    requires b.message.role == Server && b.message.context.WellFormed() && b.message.identifiers.WellFormed()
    requires context.WellFormed()
    ensures var state := BuildKe2(b, SignSpec(sig, sk, b.message, random)).0;
            var id := ids.client.GetOr(group.serializePk(b.clientSPk));
            FinishKe(sig, group, state, ke3, ids, context)
            == if |id| >= 0x1_0000 then Err(SerializationError)
               else if && sig.verify(b.clientSPk, Signed(sig, ClientBytes(sig, b.message, context.context, id)),
                                     ke3.signature)
                       && ke3.mac == b.expectedMac then Ok(b.sessionKey)
               else Err(InvalidLoginError)
  {
    var identifier := FromIdentifier(ids.client, group.serializePk(b.clientSPk));
    if identifier.Ok? {
      VerifyIs(sig, sk, b.message, random, b.clientSPk, context, identifier.value, ke3.signature);
    }
  }

  /** What the server's keys are derived from. */
  function ServerSide(e: Group, server: Dh.View, ephemeral: KeyPair, serverNonce: Bytes): Keyed {
    Keyed(Encode(server.Parts(e, serverNonce, ephemeral.pk), []), [e.dh(ephemeral.sk, server.ke1.clientEPk)])
  }

  /** The server's side: its keys and MACs from the transcript and the ephemeral secret, and the message it signs. */
  lemma ServerComputes(h: HashFn, e: Group, server: Dh.View, ephemeral: KeyPair, serverNonce: Bytes,
                       clientSPk: PublicKey)
    requires h.Lawful() && server.identifiers.WellFormed()
    ensures var side := ServerSide(e, server, ephemeral, serverNonce);
            var mac := h.hmac(side.Km2(h), Vec16(server.identifiers.server.identifier.bytes));
            BuilderFrom(h, e, server, ephemeral, serverNonce, clientSPk)
            == Ok(Ke2Builder(Message(Server, server.context, server.identifiers,
                                     CachedMessage(server.request, server.ke1.ToIter(e), server.response, serverNonce,
                                                   e.serializePk(ephemeral.pk), mac)),
                             serverNonce, clientSPk, ephemeral.pk,
                             h.hmac(side.Km3(h), Vec16(server.identifiers.client.identifier.bytes)),
                             side.SessionKey(h)))
  {
    var side := ServerSide(e, server, ephemeral, serverNonce);
    KeyedKeys(h, side);
    server.identifiers.client.Flat();
    server.identifiers.server.Flat();
  }

  // ---------------------------------------------------------------------
  // The client
  // ---------------------------------------------------------------------

  /** What the client's keys are derived from. */
  function ClientSide(e: Group, client: Dh.View, state: Ke1State, received: Ke2Message): Keyed {
    Keyed(Encode(client.Parts(e, received.serverNonce, received.serverEPk), []),
          [e.dh(state.clientESk, received.serverEPk)])
  }

  /** The client's message, which holds the MAC it received. */
  function MessageOfClient(e: Group, client: Dh.View, received: Ke2Message): Message {
    Message(Client, client.context, client.identifiers,
            CachedMessage(client.request, client.ke1.ToIter(e), client.response, received.serverNonce,
                          e.serializePk(received.serverEPk), received.mac))
  }

  /** The bytes that the server's signature must cover. */
  function ServerBytes(m: Message): Bytes {
    MessageBytes(Server, m.context.context, m.identifiers.server.identifier.bytes, m.cache)
  }

  /** Both checks of the client: the server's MAC over its identifier, and its signature over its message. */
  ghost predicate ClientApproves(h: HashFn, sig: SigScheme, e: Group, client: Dh.View, state: Ke1State,
                                 received: Ke2Message, serverSPk: PublicKey)
  {
    && received.mac
       == h.hmac(ClientSide(e, client, state, received).Km2(h), Vec16(client.identifiers.server.identifier.bytes))
    && sig.verify(serverSPk, Signed(sig, ServerBytes(MessageOfClient(e, client, received))), received.signature)
  }

  /**
   The client accepts exactly when the server's MAC is right and its signature verifies; then its keys, its MAC and its
   signature are those of its transcript, ephemeral secret and message.
   */
  lemma ClientVerdict(h: HashFn, sig: SigScheme, e: Group, client: Dh.View, state: Ke1State, received: Ke2Message,
                      serverSPk: PublicKey, clientSSk: PrivateKey, random: Bytes)
    requires h.Lawful() && client.context.WellFormed() && client.identifiers.WellFormed()
    ensures var side, m := ClientSide(e, client, state, received), MessageOfClient(e, client, received);
            GenerateKe3Spec(h, sig, e, client, state, received, serverSPk, clientSSk, random)
            == if ClientApproves(h, sig, e, client, state, received, serverSPk) then
                 Ok((side.SessionKey(h),
                     Ke3Message(sig.sign(clientSSk, Signed(sig, BytesOf(m)), random),
                                h.hmac(side.Km3(h), Vec16(client.identifiers.client.identifier.bytes)))))
               else Err(InvalidLoginError)
  {
    var side, m := ClientSide(e, client, state, received), MessageOfClient(e, client, received);
    KeyedKeys(h, side);
    client.identifiers.client.Flat();
    client.identifiers.server.Flat();
    SignatureIs(sig, clientSSk, m, random);
    VerifyIs(sig, clientSSk, m, random, serverSPk, client.context, client.identifiers.server, received.signature);
  }
}
