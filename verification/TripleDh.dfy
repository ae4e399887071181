/** The triple Diffie-Hellman key exchange (src/key_exchange/tripledh.rs). */
module TripleDh {
  import opened Errors
  import opened Serialization
  import opened Primitives
  import opened Identifiers
  import opened Keypair
  import opened Hkdf
  import opened Transcript

  datatype Ke2State = Ke2State(sessionKey: Bytes, expectedMac: Bytes)

  /** The server's state between the two messages; the hasher is represented by what it has absorbed. */
  datatype Ke2Builder = Ke2Builder(
    serverNonce: Bytes,
    transcript: Bytes,
    clientEPk: PublicKey,
    serverEPk: PublicKey,
    sharedSecret1: Bytes,
    sharedSecret3: Bytes)

  datatype Ke2Message = Ke2Message(serverNonce: Bytes, serverEPk: PublicKey, mac: Bytes) {
    ghost predicate WellFormed(h: HashFn, g: Group) {
      |serverNonce| == NONCE_LEN && g.validPk(serverEPk) && |mac| == h.nh
    }
  }

  datatype Ke3Message = Ke3Message(mac: Bytes)

  /** Everything besides keys that enters one side's transcript. */
  datatype View = View(
    context: SerializedContext,
    identifiers: SerializedIdentifiers,
    request: SerializedCredentialRequest,
    ke1: Ke1Message,
    response: SerializedCredentialResponse)
  {
    function Parts(g: Group, serverNonce: Bytes, serverEPk: PublicKey): Parts {
      PartsOf(context, identifiers, request, ke1.ToIter(g), response, serverNonce, g.serializePk(serverEPk))
    }

    ghost predicate WellFormed(s: Shape, g: Group) {
      && context.WellFormed() && identifiers.WellFormed()
      && |request.element| == s.noe
      && ke1.WellFormed(g)
      && |response.evaluationElement| == s.noe && |response.maskingNonce| == NONCE_LEN
      && response.masked.Sized(s.nh, s.npk)
    }
  }

  /** The transcript and two of the three shared secrets, for a given ephemeral key pair and nonce. */
  function BuilderFrom(g: Group, view: View, ephemeral: KeyPair, serverNonce: Bytes, clientSPk: PublicKey): Ke2Builder {
    Ke2Builder(serverNonce, Encode(view.Parts(g, serverNonce, ephemeral.pk), []), view.ke1.clientEPk, ephemeral.pk,
               g.dh(ephemeral.sk, view.ke1.clientEPk), g.dh(ephemeral.sk, clientSPk))
  }

  method AssembleBuilder(g: Group, view: View, ephemeral: KeyPair, serverNonce: Bytes, clientSPk: PublicKey)
    returns (b: Ke2Builder)
    requires view.context.WellFormed() && view.identifiers.WellFormed()
    ensures b == BuilderFrom(g, view, ephemeral, serverNonce, clientSPk)
  {
    var hasher := TranscriptHasher(view.context, view.identifiers, view.request, view.ke1.ToIter(g), view.response,
                                   serverNonce, g.serializePk(ephemeral.pk));
    b := Ke2Builder(serverNonce, hasher.data, view.ke1.clientEPk, ephemeral.pk,
                    g.dh(ephemeral.sk, view.ke1.clientEPk), g.dh(ephemeral.sk, clientSPk));
  }

  /** `ke2_builder`: an ephemeral key and a nonce are drawn first. */
  function Ke2BuilderSpec(g: Group, tape: Tape, pos: nat, view: View, clientSPk: PublicKey): Result<(Ke2Builder, nat)> {
    var (ephemeral, serverNonce, next) :- Ephemeral(g, tape, pos);
    Ok((BuilderFrom(g, view, ephemeral, serverNonce, clientSPk), next))
  }

  method MakeKe2Builder(g: Group, rng: TapeRng, view: View, clientSPk: PublicKey) returns (r: Result<Ke2Builder>)
    requires view.context.WellFormed() && view.identifiers.WellFormed()
    modifies rng
    ensures match Ke2BuilderSpec(g, rng.tape, old(rng.pos), view, clientSPk)
            case Ok((builder, pos)) => r == Ok(builder) && rng.pos == pos
            case Err(e) => r == Err(e)
  {
    var drawn :- DrawEphemeral(g, rng);
    var builder := AssembleBuilder(g, view, drawn.0, drawn.1, clientSPk);
    r := Ok(builder);
  }

  /** Finishes the server's message; `secrets` are the shared secrets in order. */
  function FinishBuilder(h: HashFn, b: Ke2Builder, secrets: seq<Bytes>): Result<(Ke2State, Ke2Message)>
    requires h.Lawful()
  {
    var keys :- DeriveKeysSpec(h, secrets, h.hash(b.transcript));
    var (mac, expectedMac) := Ke2Macs(h, b.transcript, keys);
    Ok((Ke2State(keys.sessionKey, expectedMac), Ke2Message(b.serverNonce, b.serverEPk, mac)))
  }

  function BuildKe2Spec(h: HashFn, b: Ke2Builder, sharedSecret2: Bytes): Result<(Ke2State, Ke2Message)>
    requires h.Lawful()
  {
    FinishBuilder(h, b, [b.sharedSecret1, sharedSecret2, b.sharedSecret3])
  }

  method BuildKe2(h: HashFn, b: Ke2Builder, sharedSecret2: Bytes) returns (r: Result<(Ke2State, Ke2Message)>)
    requires h.Lawful()
    ensures r == BuildKe2Spec(h, b, sharedSecret2)
  {
    var hasher := new Absorber.FromState(b.transcript);
    var digest := h.hash(hasher.data);
    var keys :- DeriveKeys(h, [b.sharedSecret1, sharedSecret2, b.sharedSecret3], digest);
    var mac, expectedMac := ComputeKe2Macs(h, hasher, keys, digest);
    r := Ok((Ke2State(keys.sessionKey, expectedMac), Ke2Message(b.serverNonce, b.serverEPk, mac)));
  }

  /** The client's three shared secrets, in the server's order. */
  function ClientSecrets(g: Group, state: Ke1State, serverEPk: PublicKey, serverSPk: PublicKey, clientSSk: PrivateKey)
    : seq<Bytes>
  {
    [g.dh(state.clientESk, serverEPk), g.dh(state.clientESk, serverSPk), g.dh(clientSSk, serverEPk)]
  }

  function GenerateKe3Spec(h: HashFn, g: Group, view: View, state: Ke1State, ke2: Ke2Message,
                           serverSPk: PublicKey, clientSSk: PrivateKey): Result<(Bytes, Ke3Message)>
    requires h.Lawful()
  {
    var transcript := Encode(view.Parts(g, ke2.serverNonce, ke2.serverEPk), []);
    var secrets := ClientSecrets(g, state, ke2.serverEPk, serverSPk, clientSSk);
    var (keys, clientMac) :- FinalizeKe3Spec(h, transcript, secrets, ke2.mac);
    Ok((keys.sessionKey, Ke3Message(clientMac)))
  }

  method GenerateKe3(h: HashFn, g: Group, view: View, state: Ke1State, ke2: Ke2Message,
                     serverSPk: PublicKey, clientSSk: PrivateKey) returns (r: Result<(Bytes, Ke3Message)>)
    requires h.Lawful() && view.context.WellFormed() && view.identifiers.WellFormed()
    ensures r == GenerateKe3Spec(h, g, view, state, ke2, serverSPk, clientSSk)
  {
    var hasher := TranscriptHasher(view.context, view.identifiers, view.request, view.ke1.ToIter(g), view.response,
                                   ke2.serverNonce, g.serializePk(ke2.serverEPk));
    var secrets := ClientSecrets(g, state, ke2.serverEPk, serverSPk, clientSSk);
    var result :- FinalizeKe3(h, hasher, secrets, ke2.mac);
    r := Ok((result.0.sessionKey, Ke3Message(result.1)));
  }

  /** The server's last step compares MACs and nothing else. */
  function FinishKe(state: Ke2State, ke3: Ke3Message): Result<Bytes> {
    var _ :- Need(state.expectedMac == ke3.mac, InvalidLoginError);
    Ok(state.sessionKey)
  }

  lemma PartsFit(s: Shape, g: Group, view: View, serverNonce: Bytes, serverEPk: PublicKey)
    requires g.LawfulEncodings() && s.nepk == g.npk
    requires view.WellFormed(s, g) && |serverNonce| == NONCE_LEN && g.validPk(serverEPk)
    ensures view.Parts(g, serverNonce, serverEPk).Fits(s)
  {
  }

  lemma SecretsFlat(a: Bytes, b: Bytes, c: Bytes, tail: seq<Bytes>)
    ensures Flatten([a, b, c] + tail) == a + (b + (c + Flatten(tail)))
  {
    FlattenCat([a, b, c], tail);
    FlattenThree(a, b, c);
    CatAssoc(a, b + c, Flatten(tail));
    CatAssoc(b, c, Flatten(tail));
  }

  /** Equal concatenations of three fixed-length secrets and a tail are equal secret by secret. */
  lemma SecretsAgree(n: nat, x: seq<Bytes>, y: seq<Bytes>)
    requires |x| >= 3 && |y| >= 3 && Flatten(x) == Flatten(y)
    requires |x[0]| == |x[1]| == |x[2]| == n && |y[0]| == |y[1]| == |y[2]| == n
    ensures x[..3] == y[..3] && Flatten(x[3..]) == Flatten(y[3..])
  {
    assert x == [x[0], x[1], x[2]] + x[3..] && y == [y[0], y[1], y[2]] + y[3..];
    SecretsFlat(x[0], x[1], x[2], x[3..]);
    SecretsFlat(y[0], y[1], y[2], y[3..]);
    var x3, y3 := x[2] + Flatten(x[3..]), y[2] + Flatten(y[3..]);
    Cancel(x[0], x[1] + x3, y[0], y[1] + y3);
    Cancel(x[1], x3, y[1], y3);
    Cancel(x[2], Flatten(x[3..]), y[2], Flatten(y[3..]));
  }

  /** Both sides saw the same messages, identifiers and context. */
  ghost predicate ViewsAgree(server: View, client: View) {
    && client.context.context == server.context.context
    && client.identifiers.client.identifier.bytes == server.identifiers.client.identifier.bytes
    && client.identifiers.server.identifier.bytes == server.identifiers.server.identifier.bytes
    && client.request == server.request
    && client.ke1 == server.ke1
    && client.response == server.response
  }

  /** Equal transcripts mean equal views, nonces and ephemeral keys, and equal suffixes. */
  lemma TranscriptsAgree(s: Shape, g: Group, server: View, client: View, serverNonce: Bytes, serverEPk: PublicKey,
                         nonce: Bytes, ePk: PublicKey, x: Bytes, y: Bytes)
    requires g.LawfulEncodings() && s.nepk == g.npk
    requires server.WellFormed(s, g) && client.WellFormed(s, g)
    requires |serverNonce| == |nonce| == NONCE_LEN && g.validPk(serverEPk) && g.validPk(ePk)
    requires Encode(server.Parts(g, serverNonce, serverEPk), x) == Encode(client.Parts(g, nonce, ePk), y)
    ensures ViewsAgree(server, client) && nonce == serverNonce && ePk == serverEPk && x == y
  {
    PartsFit(s, g, server, serverNonce, serverEPk);
    PartsFit(s, g, client, nonce, ePk);
    EncodeInjective(s, server.Parts(g, serverNonce, serverEPk), x, client.Parts(g, nonce, ePk), y);
    assert g.parsePk(g.serializePk(ePk)) == g.parsePk(g.serializePk(serverEPk));
    assert g.parsePk(g.serializePk(client.ke1.clientEPk)) == g.parsePk(g.serializePk(server.ke1.clientEPk));
  }

  /** What the server's MACs are computed from. */
  function ServerSide(g: Group, server: View, ephemeral: KeyPair, serverNonce: Bytes, clientSPk: PublicKey,
                      serverSSk: PrivateKey): Keyed
  {
    Keyed(Encode(server.Parts(g, serverNonce, ephemeral.pk), []),
          [g.dh(ephemeral.sk, server.ke1.clientEPk), g.dh(serverSSk, server.ke1.clientEPk),
           g.dh(ephemeral.sk, clientSPk)])
  }

  /** What the client's MACs are computed from. */
  function ClientSide(g: Group, client: View, state: Ke1State, received: Ke2Message, serverSPk: PublicKey,
                      clientSSk: PrivateKey): Keyed
  {
    Keyed(Encode(client.Parts(g, received.serverNonce, received.serverEPk), []),
          [g.dh(state.clientESk, received.serverEPk), g.dh(state.clientESk, serverSPk),
           g.dh(clientSSk, received.serverEPk)])
  }

  /** The server sends the MAC of its side, keeps its session key, and expects the client's MAC over both. */
  lemma ServerComputes(h: HashFn, g: Group, server: View, ephemeral: KeyPair, serverNonce: Bytes, clientSPk: PublicKey,
                       serverSSk: PrivateKey)
    requires h.Lawful()
    ensures var b := BuilderFrom(g, server, ephemeral, serverNonce, clientSPk);
            var side := ServerSide(g, server, ephemeral, serverNonce, clientSPk, serverSSk);
            var mac := ServerMac(h, side);
            BuildKe2Spec(h, b, g.dh(serverSSk, server.ke1.clientEPk))
            == Ok((Ke2State(side.SessionKey(h), ClientMac(h, side, mac)), Ke2Message(serverNonce, ephemeral.pk, mac)))
  {
    KeyedKeys(h, ServerSide(g, server, ephemeral, serverNonce, clientSPk, serverSSk));
  }

  /** The client accepts exactly the MAC of its side; then it has its session key and answers with its MAC over both. */
  lemma ClientVerdict(h: HashFn, g: Group, client: View, state: Ke1State, received: Ke2Message, serverSPk: PublicKey,
                      clientSSk: PrivateKey)
    requires h.Lawful()
    ensures var side := ClientSide(g, client, state, received, serverSPk, clientSSk);
            GenerateKe3Spec(h, g, client, state, received, serverSPk, clientSSk)
            == if received.mac == ServerMac(h, side) then
                 Ok((side.SessionKey(h), Ke3Message(ClientMac(h, side, received.mac))))
               else Err(InvalidLoginError)
  {
    FinalizeIs(h, ClientSide(g, client, state, received, serverSPk, clientSSk), received.mac);
  }

  /**
   Agreement (section 6.4 of RFC 9807), for any second message given to the client: when the client accepts it and
   the server accepts the client's answer, both hold the same context, identifiers, first message, credential
   request and response, nonces, server ephemeral key, shared secrets and session key, and the accepted message is
   the one the server sent; otherwise one of the six candidate pairs computed from the two sides collides.
   */
  lemma Agreement(h: HashFn, g: Group, s: Shape, ephemeral: KeyPair, serverNonce: Bytes, server: View,
                  clientSPk: PublicKey, serverSSk: PrivateKey, client: View, state: Ke1State, received: Ke2Message,
                  serverSPk: PublicKey, clientSSk: PrivateKey)
    returns (collision: Option<Collision>)
    requires h.Lawful() && g.Lawful() && s.nepk == g.npk
    requires ephemeral.Matching(g) && |serverNonce| == NONCE_LEN
    requires server.WellFormed(s, g) && client.WellFormed(s, g) && received.WellFormed(h, g)
    requires var b := BuilderFrom(g, server, ephemeral, serverNonce, clientSPk);
             var built := BuildKe2Spec(h, b, g.dh(serverSSk, b.clientEPk));
             var answer := GenerateKe3Spec(h, g, client, state, received, serverSPk, clientSSk);
             built.Ok? && answer.Ok? && FinishKe(built.value.0, answer.value.1).Ok?
    ensures collision.Some? ==>
              && collision.value.Breaks(h)
              && collision.value in ConfirmationCandidates(
                   h, ServerSide(g, server, ephemeral, serverNonce, clientSPk, serverSSk),
                   ClientSide(g, client, state, received, serverSPk, clientSSk), received.mac)
    ensures collision.None? ==>
              var b := BuilderFrom(g, server, ephemeral, serverNonce, clientSPk);
              var (ke2State, sent) := BuildKe2Spec(h, b, g.dh(serverSSk, b.clientEPk)).value;
              var (sessionKey, ke3) := GenerateKe3Spec(h, g, client, state, received, serverSPk, clientSSk).value;
              && ViewsAgree(server, client)
              && received == sent
              && FinishKe(ke2State, ke3) == Ok(sessionKey)
              && ClientSide(g, client, state, received, serverSPk, clientSSk).secrets
                 == ServerSide(g, server, ephemeral, serverNonce, clientSPk, serverSSk).secrets
  {
    var ss := ServerSide(g, server, ephemeral, serverNonce, clientSPk, serverSSk);
    var cs := ClientSide(g, client, state, received, serverSPk, clientSSk);
    ServerComputes(h, g, server, ephemeral, serverNonce, clientSPk, serverSSk);
    ClientVerdict(h, g, client, state, received, serverSPk, clientSSk);
    collision := SidesBind(h, ss, cs, received.mac);
    if collision.None? {
      TranscriptsAgree(s, g, server, client, serverNonce, ephemeral.pk, received.serverNonce, received.serverEPk, [],
                       []);
      SecretsAgree(g.npk, cs.secrets, ss.secrets);
      assert cs.secrets == cs.secrets[..3] && ss.secrets == ss.secrets[..3];
    }
  }

  /** The two parties' secrets coincide when the keys they hold belong together. */
  lemma SecretsCommute(g: Group, tape: Tape, pos: nat, view: View, clientS: KeyPair, serverS: KeyPair, state: Ke1State)
    requires g.Lawful() && clientS.Matching(g) && serverS.Matching(g)
    requires g.validSk(state.clientESk) && view.ke1.clientEPk == g.publicKey(state.clientESk)
    requires Ke2BuilderSpec(g, tape, pos, view, clientS.pk).Ok?
    ensures var b := Ke2BuilderSpec(g, tape, pos, view, clientS.pk).value.0;
            ClientSecrets(g, state, b.serverEPk, serverS.pk, clientS.sk) ==
            [b.sharedSecret1, g.dh(serverS.sk, b.clientEPk), b.sharedSecret3]
  {
    EphemeralOk(g, tape, pos);
    var e := Ephemeral(g, tape, pos).value.0;
    assert g.dh(state.clientESk, g.publicKey(e.sk)) == g.dh(e.sk, g.publicKey(state.clientESk));
    assert g.dh(state.clientESk, g.publicKey(serverS.sk)) == g.dh(serverS.sk, g.publicKey(state.clientESk));
    assert g.dh(clientS.sk, g.publicKey(e.sk)) == g.dh(e.sk, g.publicKey(clientS.sk));
  }

  /** Honest parties with equal views finish with equal session keys. */
  lemma Completeness(h: HashFn, g: Group, tape: Tape, pos: nat, server: View, client: View,
                     clientS: KeyPair, serverS: KeyPair, state: Ke1State)
    requires h.Lawful() && g.Lawful() && Ephemeral(g, tape, pos).Ok? && clientS.Matching(g) && serverS.Matching(g)
    requires g.validSk(state.clientESk) && server.ke1.clientEPk == g.publicKey(state.clientESk)
    requires ViewsAgree(server, client)
    ensures Ke2BuilderSpec(g, tape, pos, server, clientS.pk).Ok?
    ensures var b := Ke2BuilderSpec(g, tape, pos, server, clientS.pk).value.0;
            var built := BuildKe2Spec(h, b, g.dh(serverS.sk, b.clientEPk));
            && built.Ok?
            && built.value.1.WellFormed(h, g)
            && var result := GenerateKe3Spec(h, g, client, state, built.value.1, serverS.pk, clientS.sk);
            && result.Ok?
            && FinishKe(built.value.0, result.value.1) == Ok(result.value.0)
  {
    EphemeralOk(g, tape, pos);
    var b := Ke2BuilderSpec(g, tape, pos, server, clientS.pk).value.0;
    SecretsCommute(g, tape, pos, server, clientS, serverS, state);
    assert server.Parts(g, b.serverNonce, b.serverEPk) == client.Parts(g, b.serverNonce, b.serverEPk);
    ConfirmationCompletes(h, b.transcript, [b.sharedSecret1, g.dh(serverS.sk, b.clientEPk), b.sharedSecret3]);
  }

  /** Besides success the client's step knows one outcome, an invalid login. */
  lemma GenerateKe3Errors(h: HashFn, g: Group, view: View, state: Ke1State, ke2: Ke2Message,
                          serverSPk: PublicKey, clientSSk: PrivateKey)
    requires h.Lawful()
    ensures var r := GenerateKe3Spec(h, g, view, state, ke2, serverSPk, clientSSk);
            r.Err? ==> r.error == InvalidLoginError
  {
    FinalizeErrors(h, Encode(view.Parts(g, ke2.serverNonce, ke2.serverEPk), []),
                   ClientSecrets(g, state, ke2.serverEPk, serverSPk, clientSSk), ke2.mac);
  }
}
