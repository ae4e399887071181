/** When both sides accept, they agree on everything they exchanged, whatever the client was sent. */
module LoginAgreement {
  import opened Errors
  import opened Serialization
  import opened Primitives
  import opened Identifiers
  import opened Masking
  import opened Transcript
  import opened SigmaMessage
  import opened KeyExchanges
  import opened Messages
  import opened Opaque
  import opened EndToEnd
  import opened Wellformedness
  import opened Wire
  import SigmaAgreement
  import Verdict = SigmaVerdict
  import Env = Envelope
  import Dh = TripleDh
  import DhKem = TripleDhKem
  import Sigma = SigmaI

  /** The received second message is the sent one; under SIGMA-I up to the signature, which is verified instead. */
  predicate Confirmed(sent: SecondMessage, received: SecondMessage) {
    if sent.SigmaSecond? && received.SigmaSecond? then
      received.sigma.serverNonce == sent.sigma.serverNonce && received.sigma.serverEPk == sent.sigma.serverEPk
      && received.sigma.mac == sent.sigma.mac
    else
      received == sent
  }

  /** Everything one exchange runs on; the client's inputs and what it received are arbitrary. */
  datatype Exchange = Exchange(
    tape: Tape, pos: nat, server: Inputs, clientSPk: PublicKey, serverSSk: PrivateKey,
    clientTape: Tape, clientPos: nat, client: Inputs, state: ClientState, received: SecondMessage, serverSPk: PublicKey,
    clientSSk: PrivateKey, ids: Ids, context: SerializedContext)
  {
    predicate Typed(cs: Suite) {
      && FirstTyped(cs.kx, server.ke1) && FirstTyped(cs.kx, client.ke1)
      && ClientTyped(cs.kx, state) && SecondTyped(cs.kx, received)
    }

    ghost predicate WellFormed(cs: Suite) {
      && RunInputs(cs, server, clientSPk, serverSSk)
      && FirstWellFormed(cs, client.ke1) && client.View().WellFormed(ShapeOf(cs), cs.EphGroup())
      && ClientTyped(cs.kx, state) && SecondWellFormed(cs, received)
      && context.WellFormed()
    }

    function Run(cs: Suite): Result<(ServerState, SecondMessage, nat)>
      requires cs.kx.keHash.Lawful() && Typed(cs)
    {
      RunKe2(cs, tape, pos, server, clientSPk, serverSSk)
    }

    function Answer(cs: Suite): Result<(Bytes, ThirdMessage)>
      requires cs.kx.keHash.Lawful() && Typed(cs)
    {
      GenerateKe3(cs, clientTape, clientPos, client, state, received, serverSPk, clientSSk)
    }

    /** The server answered, the client accepted what it received, and the server accepted the client's answer. */
    predicate Accepts(cs: Suite)
      requires cs.kx.keHash.Lawful() && Typed(cs)
    {
      Run(cs).Ok? && Answer(cs).Ok? && FinishKe(cs, Run(cs).value.0, Answer(cs).value.1, ids, context).Ok?
    }

    /** What the server's MACs are computed from, for the key it draws from its tape. */
    function ServerSide(cs: Suite): Keyed
      requires Typed(cs)
    {
      match Ephemeral(cs.EphGroup(), tape, pos)
      case Err(_) => Keyed([], [])
      case Ok((kp, nonce, next)) =>
        match cs.kx
        case TripleDh(_) => Dh.ServerSide(cs.group, server.View(), kp, nonce, clientSPk, serverSSk)
        case TripleDhKem(_, kem) =>
          (match DhKem.ParseEk(kem, server.ke1.kem.kemEk)
           case Err(_) => Keyed([], [])
           case Ok(ek) =>
             var (ct, secret, _) := kem.encapsulate(ek, tape, next);
             DhKem.ServerSide(cs.group, server.View(), kp, nonce, clientSPk, serverSSk, server.ke1.kem.kemEk, ct,
                              secret))
        case SigmaI(_, _, e) => Verdict.ServerSide(e, server.View(), kp, nonce)
    }

    /** What the client's MACs are computed from. */
    function ClientSide(cs: Suite): Keyed
      requires Typed(cs)
    {
      match cs.kx
      case TripleDh(_) => Dh.ClientSide(cs.group, client.View(), state.dh, received.dh, serverSPk, clientSSk)
      case TripleDhKem(_, kem) =>
        DhKem.ClientSide(cs.group, kem, client.View(), client.ke1.kem.kemEk, state.kem, received.kem, serverSPk,
                         clientSSk)
      case SigmaI(_, _, e) => Verdict.ClientSide(e, client.View(), state.dh, received.sigma)
    }

    /** The five or six pairs of inputs, all computed from the two sides, that can collide. */
    function Candidates(cs: Suite): seq<Collision>
      requires Typed(cs)
    {
      match received
      case DhSecond(m) => ConfirmationCandidates(cs.kx.keHash, ServerSide(cs), ClientSide(cs), m.mac)
      case KemSecond(m) => ConfirmationCandidates(cs.kx.keHash, ServerSide(cs), ClientSide(cs), m.dhMessage.mac)
      case SigmaSecond(_) =>
        KeyCandidates(cs.kx.keHash, ServerSide(cs), ClientSide(cs), Vec16(server.identifiers.client.identifier.bytes),
                      Vec16(client.identifiers.client.identifier.bytes))
    }

    /** A candidate pair that breaks the exchange's hash or HMAC. */
    ghost predicate Collides(cs: Suite, c: Collision)
      requires Typed(cs)
    {
      c in Candidates(cs) && c.Breaks(cs.kx.keHash)
    }

    /** Under SIGMA-I, both accepted signatures verify, on the messages of their roles over what the server sent. */
    ghost predicate SignaturesVerify(cs: Suite, sent: SecondMessage, answer: ThirdMessage) {
      cs.kx.SigmaI? && sent.SigmaSecond? && received.SigmaSecond? && answer.SigmaThird? ==>
        var sig, sent := cs.kx.sig, sent.sigma;
        var m := SigmaAgreement.ServerMessage(cs.EphGroup(), server.View(), sent.serverNonce, sent.serverEPk, sent.mac);
        && sig.verify(serverSPk, Verdict.Signed(sig, Verdict.ServerBytes(m)), received.sigma.signature)
        && var id := ids.client.GetOr(cs.group.serializePk(clientSPk));
           sig.verify(clientSPk, Verdict.Signed(sig, Verdict.ClientBytes(sig, m, context.context, id)),
                      answer.sigma.signature)
    }

    ghost predicate Agrees(cs: Suite)
      requires cs.kx.keHash.Lawful() && Typed(cs) && Accepts(cs)
    {
      && Dh.ViewsAgree(server.View(), client.View())
      && client.ke1 == server.ke1
      && Confirmed(Run(cs).value.1, received)
      && SignaturesVerify(cs, Run(cs).value.1, Answer(cs).value.1)
      && FinishKe(cs, Run(cs).value.0, Answer(cs).value.1, ids, context) == Ok(Answer(cs).value.0)
    }
  }

  lemma DhAgrees(cs: Suite, x: Exchange) returns (collision: Option<Collision>)
    requires cs.kx.TripleDh? && ExchangeLawful(cs) && x.Typed(cs) && x.WellFormed(cs) && x.Accepts(cs)
    ensures collision.Some? ==> x.Collides(cs, collision.value)
    ensures collision.None? ==> x.Agrees(cs)
  {
    EphemeralOk(cs.group, x.tape, x.pos);
    var (kp, nonce, _) := Ephemeral(cs.group, x.tape, x.pos).value;
    collision := Dh.Agreement(cs.kx.keHash, cs.group, ShapeOf(cs), kp, nonce, x.server.View(), x.clientSPk, x.serverSSk,
                              x.client.View(), x.state.dh, x.received.dh, x.serverSPk, x.clientSSk);
  }

  lemma KemAgrees(cs: Suite, x: Exchange) returns (collision: Option<Collision>)
    requires cs.kx.TripleDhKem? && ExchangeLawful(cs) && x.Typed(cs) && x.WellFormed(cs) && x.Accepts(cs)
    ensures collision.Some? ==> x.Collides(cs, collision.value)
    ensures collision.None? ==> x.Agrees(cs)
  {
    EphemeralOk(cs.group, x.tape, x.pos);
    var (kp, nonce, next) := Ephemeral(cs.group, x.tape, x.pos).value;
    var ek := DhKem.ParseEk(cs.kx.kem, x.server.ke1.kem.kemEk).value;
    var (ct, ss, _) := cs.kx.kem.encapsulate(ek, x.tape, next);
    collision := DhKem.Agreement(cs.kx.keHash, cs.group, cs.kx.kem, ShapeOf(cs), kp, nonce, x.server.View(),
                                 x.server.ke1.kem.kemEk, ct, ss, x.clientSPk, x.serverSSk, x.client.View(),
                                 x.client.ke1.kem.kemEk, x.state.kem, x.received.kem, x.serverSPk, x.clientSSk);
  }

  lemma SigmaAgrees(cs: Suite, x: Exchange) returns (collision: Option<Collision>)
    requires cs.kx.SigmaI? && ExchangeLawful(cs) && x.Typed(cs) && x.WellFormed(cs) && x.Accepts(cs)
    ensures collision.Some? ==> x.Collides(cs, collision.value)
    ensures collision.None? ==> x.Agrees(cs)
  {
    var h, e, sig := cs.kx.keHash, cs.kx.ephGroup, cs.kx.sig;
    EphemeralOk(e, x.tape, x.pos);
    var (kp, nonce, next) := Ephemeral(e, x.tape, x.pos).value;
    var b := Sigma.BuilderFrom(h, e, x.server.View(), kp, nonce, x.clientSPk).value;
    collision := SigmaAgreement.Agreement(
      h, sig, cs.group, e, ShapeOf(cs), kp, nonce, x.server.View(), x.clientSPk, b,
      Sigma.SignSpec(sig, x.serverSSk, b.message, Fill(x.tape, next, sig.nrand)), x.client.View(), x.state.dh,
      x.received.sigma, x.serverSPk, x.clientSSk, Fill(x.clientTape, x.clientPos, sig.nrand), x.ids, x.context);
    if collision.None? {
      SigmaAgreement.SignaturesAgree(
        h, sig, cs.group, e, kp, nonce, x.server.View(), x.clientSPk, x.serverSSk, Fill(x.tape, next, sig.nrand),
        x.client.View(), x.state.dh, x.received.sigma, x.serverSPk, x.clientSSk,
        Fill(x.clientTape, x.clientPos, sig.nrand), x.ids, x.context);
    }
  }

  /** Agreement for the selected exchange: two sides that accept agree, or a candidate pair collides. */
  lemma ExchangeAgreement(cs: Suite, x: Exchange) returns (collision: Option<Collision>)
    requires ExchangeLawful(cs) && x.Typed(cs) && x.WellFormed(cs) && x.Accepts(cs)
    ensures collision.Some? ==> x.Collides(cs, collision.value)
    ensures collision.None? ==> x.Agrees(cs)
  {
    match cs.kx
    case TripleDh(_) => collision := DhAgrees(cs, x);
    case TripleDhKem(_, _) => collision := KemAgrees(cs, x);
    case SigmaI(_, _, _) => collision := SigmaAgrees(cs, x);
  }

  // ---------------------------------------------------------------------
  // Whole logins
  // ---------------------------------------------------------------------

  /** A server's and a client's side of a login that share nothing but what the network chose to deliver. */
  datatype Sides = Sides(
    setup: ServerSetup, file: Option<RegistrationUpload>, request: CredentialRequest, credentialId: Bytes,
    server: LoginParameters, tape: Tape, pos: nat,
    state: ClientLogin, password: Bytes, received: CredentialResponse, client: LoginParameters, ksf: Option<Ksf>,
    clientTape: Tape, clientPos: nat, finish: LoginParameters)
  {
    predicate Typed(cs: Suite) {
      && FirstTyped(cs.kx, request.ke1) && FirstTyped(cs.kx, state.request.ke1)
      && ClientTyped(cs.kx, state.ke1State) && SecondTyped(cs.kx, received.ke2)
    }

    /** What typed values of the implementation always satisfy. */
    ghost predicate WellFormed(cs: Suite) {
      && setup.WellFormed(cs) && request.WellFormed(cs) && (file.Some? ==> file.value.WellFormed(cs))
      && state.WellFormed(cs) && received.WellFormed(cs)
    }

    function Start(cs: Suite): Result<ServerStart>
      requires cs.oprfHash.Lawful() && cs.kx.keHash.Lawful() && Typed(cs)
    {
      ServerLoginStart(cs, tape, pos, setup, file, request, credentialId, server)
    }

    function Finished(cs: Suite): Result<LoginResult>
      requires cs.oprfHash.Lawful() && cs.kx.keHash.Lawful() && Typed(cs)
    {
      ClientLoginFinish(cs, state, clientTape, clientPos, password, received, client, ksf)
    }

    predicate Accepts(cs: Suite)
      requires cs.oprfHash.Lawful() && cs.kx.keHash.Lawful() && Typed(cs)
    {
      Start(cs).Ok? && Finished(cs).Ok? && ServerLoginFinish(cs, Start(cs).value.state, Finished(cs).value.ke3,
                                                             finish).Ok?
    }

    /** The client's public key in the record in force, stored or fake. */
    function ClientSPk(): PublicKey {
      if file.Some? then file.value.clientSPk else setup.dummyPk
    }

    /** What the client recovers from the response. */
    function Recovered(cs: Suite): Result<(PublicKey, Env.OpenedEnvelope)>
      requires cs.oprfHash.Lawful()
    {
      var prk :- PasswordDerivedKey(cs, password, state.blind, received.evaluation, ksf);
      RecoverCredentials(cs, prk, received.maskingNonce, received.masked, client.ids)
    }

    /** The exchange inside the login. */
    function Inside(cs: Suite): Result<Exchange>
      requires cs.oprfHash.Lawful()
    {
      var material :- OprfKeyMaterial(cs, setup.oprfSeed, credentialId);
      var (dummyKey, nonce, next) := LoginDraws(cs, tape, pos);
      var p :- PrepareResponse(cs, setup, material, file.GetOr(DummyRecord(cs, setup, dummyKey)), nonce, request,
                               server);
      var (serverSPk, credentials) :- Recovered(cs);
      var context :- ContextFrom(client.context);
      var finishContext :- ContextFrom(finish.context);
      Ok(ExchangeOf(cs, this, next, p, ClientSPk(), serverSPk, credentials, context, finishContext))
    }

    /** A candidate pair of the exchange inside that breaks its hash or HMAC. */
    ghost predicate Collides(cs: Suite, c: Collision)
      requires cs.oprfHash.Lawful()
    {
      Inside(cs).Ok? && Inside(cs).value.Typed(cs) && Inside(cs).value.Collides(cs, c)
    }

    /**
     The request the server answered is the client's, the response is the server's; contexts, both identifiers in force
     and session keys are equal. With both client identifiers defaulted the client holds the key of the record.
     Under SIGMA-I both accepted signatures verify.
     */
    ghost predicate AgreeOn(cs: Suite, start: ServerStart, result: LoginResult, clientSPk: PublicKey)
      requires ServerTyped(cs.kx, start.state) && ThirdTyped(cs.kx, result.ke3)
    {
      var sent := start.response;
      && state.request == request
      && received.evaluation == sent.evaluation && received.maskingNonce == sent.maskingNonce
      && received.masked == sent.masked
      && Confirmed(sent.ke2, received.ke2)
      && client.context.GetOr([]) == server.context.GetOr([])
      && client.ids.server.GetOr(cs.group.serializePk(result.serverSPk))
         == server.ids.server.GetOr(cs.group.serializePk(setup.keypair.pk))
      && ServerLoginFinish(cs, start.state, result.ke3, finish) == Ok(result.sessionKey)
      && client.ids.client.GetOr(cs.group.serializePk(clientSPk))
         == server.ids.client.GetOr(cs.group.serializePk(ClientSPk()))
      && (client.ids.client.None? && server.ids.client.None? ==> clientSPk == ClientSPk())
      && (cs.kx.SigmaI? ==> SignaturesVerify(cs, start.response, result))
    }

    /** What both parties of SIGMA-I sign: the request, the response and the server's part of the exchange. */
    function SignedCache(cs: Suite, sent: CredentialResponse, ke2: Sigma.Ke2Message): CachedMessage {
      CachedMessage(request.ToParts(cs), request.ke1.DhPart().ToIter(cs.EphGroup()), sent.ToParts(cs), ke2.serverNonce,
                    cs.EphGroup().serializePk(ke2.serverEPk), ke2.mac)
    }

    /** The bytes the client's signature is verified on; a pre-hash fixed context and identifier at the start. */
    function ClientSigned(cs: Suite, cache: CachedMessage): Bytes {
      var params := if cs.kx.SigmaI? && cs.kx.sig.preHash.Some? then server else finish;
      MessageBytes(Role.Client, params.context.GetOr([]), params.ids.client.GetOr(cs.group.serializePk(ClientSPk())),
                   cache)
    }

    function ServerSigned(cs: Suite, cache: CachedMessage): Bytes {
      MessageBytes(Role.Server, server.context.GetOr([]),
                   server.ids.server.GetOr(cs.group.serializePk(setup.keypair.pk)), cache)
    }

    /**
     The server's signature, as received, verifies under the key the client recovered, and the client's under the key of
     the record, each on the message of its role.
     */
    predicate SignaturesVerify(cs: Suite, sent: CredentialResponse, result: LoginResult) {
      && cs.kx.SigmaI? && sent.ke2.SigmaSecond? && received.ke2.SigmaSecond? && result.ke3.SigmaThird?
      && var sig, cache := cs.kx.sig, SignedCache(cs, sent, sent.ke2.sigma);
         && sig.verify(result.serverSPk, Verdict.Signed(sig, ServerSigned(cs, cache)), received.ke2.sigma.signature)
         && sig.verify(ClientSPk(), Verdict.Signed(sig, ClientSigned(cs, cache)), result.ke3.sigma.signature)
    }

    /** The two accepted sides agree, with the static key that the client recovered. */

    ghost predicate Agree(cs: Suite)
      requires cs.oprfHash.Lawful() && cs.kx.keHash.Lawful() && Typed(cs) && Accepts(cs)
    {
      Recovered(cs).Ok? && AgreeOn(cs, Start(cs).value, Finished(cs).value, Recovered(cs).value.1.clientKeyPair.pk)
    }
  }

  /** The exchange inside the two sides of a login. */
  function ExchangeOf(cs: Suite, x: Sides, next: nat, p: Prepared, clientSPk: PublicKey, serverSPk: PublicKey,
                      credentials: Env.OpenedEnvelope, context: SerializedContext,
                      finishContext: SerializedContext): Exchange
  {
    Exchange(x.tape, next, p.inputs, clientSPk, x.setup.keypair.sk, x.clientTape, x.clientPos,
             ClientInputs(cs, context, credentials, x.state.request, x.received.ToParts(cs)), x.state.ke1State,
             x.received.ke2, serverSPk, credentials.clientKeyPair.sk, x.finish.ids, finishContext)
  }

  /** What opening yields holds the identifiers in force. */
  lemma RecoveredIdentifiers(cs: Suite, prk: Bytes, nonce: Bytes, masked: MaskedResponse, ids: Ids)
    requires cs.oprfHash.Lawful() && cs.group.LawfulKeys() && RecoverCredentials(cs, prk, nonce, masked, ids).Ok?
    ensures var (serverSPk, c) := RecoverCredentials(cs, prk, nonce, masked, ids).value;
            && c.identifiers.WellFormed()
            && c.identifiers.server.identifier.bytes == ids.server.GetOr(cs.group.serializePk(serverSPk))
            && c.identifiers.client.identifier.bytes == ids.client.GetOr(cs.group.serializePk(c.clientKeyPair.pk))
            && cs.group.validPk(c.clientKeyPair.pk)
  {
  }

  /** A prepared response names its evaluation and the request it answers. */
  lemma PreparedNames(cs: Suite, setup: ServerSetup, material: Bytes, record: RegistrationUpload, nonce: Bytes,
                      request: CredentialRequest, params: LoginParameters)
    requires cs.oprfHash.Lawful()
    requires PrepareResponse(cs, setup, material, record, nonce, request, params).Ok?
    ensures var p := PrepareResponse(cs, setup, material, record, nonce, request, params).value;
            && p.inputs.request == request.ToParts(cs) && p.inputs.ke1 == request.ke1
            && p.inputs.response == SerializedCredentialResponse(cs.oprf.serializeElem(p.evaluation), p.maskingNonce,
                                                                 p.masked)
            && p.inputs.context.context == params.context.GetOr([])
            && p.inputs.identifiers.server.identifier.bytes ==
               params.ids.server.GetOr(cs.group.serializePk(setup.keypair.pk))
            && p.inputs.identifiers.client.identifier.bytes ==
               params.ids.client.GetOr(cs.group.serializePk(record.clientSPk))
  {
  }

  lemma PkInjective(g: Group, a: PublicKey, b: PublicKey)
    requires g.LawfulEncodings() && g.validPk(a) && g.validPk(b)
    ensures g.serializePk(a) == g.serializePk(b) ==> a == b
  {
    assert g.serializePk(a) == g.serializePk(b) ==> g.parsePk(g.serializePk(a)) == g.parsePk(g.serializePk(b));
  }

  /** What the client recovered for its half. */
  ghost predicate ClientRecovered(cs: Suite, x: Sides, serverSPk: PublicKey, credentials: Env.OpenedEnvelope,
                                  context: SerializedContext)
    requires cs.oprfHash.Lawful()
  {
    && x.Recovered(cs) == Ok((serverSPk, credentials)) && ContextFrom(x.client.context) == Ok(context)
    && context.WellFormed() && context.context == x.client.context.GetOr([])
    && credentials.identifiers.WellFormed()
    && credentials.identifiers.server.identifier.bytes == x.client.ids.server.GetOr(cs.group.serializePk(serverSPk))
    && credentials.identifiers.client.identifier.bytes
       == x.client.ids.client.GetOr(cs.group.serializePk(credentials.clientKeyPair.pk))
    && cs.group.validPk(credentials.clientKeyPair.pk)
  }

  /** The client's result is the answer of the exchange. */
  ghost predicate ClientAnswered(cs: Suite, x: Sides, serverSPk: PublicKey, credentials: Env.OpenedEnvelope,
                                 context: SerializedContext, result: LoginResult)
    requires cs.kx.keHash.Lawful() && x.Typed(cs)
  {
    var inputs := ClientInputs(cs, context, credentials, x.state.request, x.received.ToParts(cs));
    var answer := GenerateKe3(cs, x.clientTape, x.clientPos, inputs, x.state.ke1State, x.received.ke2, serverSPk,
                              credentials.clientKeyPair.sk);
    && answer.Ok?
    && result == LoginResult(answer.value.1, answer.value.0, credentials.exportKey, serverSPk)
  }

  lemma ClientHalf(cs: Suite, x: Sides)
    returns (serverSPk: PublicKey, credentials: Env.OpenedEnvelope, context: SerializedContext)
    requires cs.oprfHash.Lawful() && cs.kx.keHash.Lawful() && cs.oprf.LawfulEncodings() && cs.group.LawfulKeys()
    requires x.Typed(cs) && x.WellFormed(cs) && x.Finished(cs).Ok?
    ensures ClientRecovered(cs, x, serverSPk, credentials, context)
    ensures ClientAnswered(cs, x, serverSPk, credentials, context, x.Finished(cs).value)
  {
    var prk := PasswordDerivedKey(cs, x.password, x.state.blind, x.received.evaluation, x.ksf).value;
    var recovered := RecoverCredentials(cs, prk, x.received.maskingNonce, x.received.masked, x.client.ids).value;
    serverSPk, credentials := recovered.0, recovered.1;
    context := ContextFrom(x.client.context).value;
    RecoveredIdentifiers(cs, prk, x.received.maskingNonce, x.received.masked, x.client.ids);
    ClientFinishIsKe3(cs, x.state, x.clientTape, x.clientPos, x.password, x.received, x.client, x.ksf, prk, serverSPk,
                      credentials, context);
  }

  /** What the server prepared for its half. */
  ghost predicate ServerPrepared(cs: Suite, x: Sides, p: Prepared) {
    && RunInputs(cs, p.inputs, x.ClientSPk(), x.setup.keypair.sk) && cs.oprf.validElem(p.evaluation)
    && p.inputs.request == x.request.ToParts(cs) && p.inputs.ke1 == x.request.ke1
    && p.inputs.response == SerializedCredentialResponse(cs.oprf.serializeElem(p.evaluation), p.maskingNonce, p.masked)
    && p.inputs.context.context == x.server.context.GetOr([])
    && p.inputs.identifiers.server.identifier.bytes ==
       x.server.ids.server.GetOr(cs.group.serializePk(x.setup.keypair.pk))
    && p.inputs.identifiers.client.identifier.bytes ==
       x.server.ids.client.GetOr(cs.group.serializePk(x.ClientSPk()))
  }

  /** The server's answer is one run of the exchange. */
  ghost predicate ServerRan(cs: Suite, x: Sides, p: Prepared, next: nat, start: ServerStart)
    requires cs.kx.keHash.Lawful() && FirstTyped(cs.kx, p.inputs.ke1)
  {
    var run := RunKe2(cs, x.tape, next, p.inputs, x.ClientSPk(), x.setup.keypair.sk);
    && run.Ok?
    && start == ServerStart(CredentialResponse(p.evaluation, p.maskingNonce, p.masked, run.value.1), run.value.0,
                            run.value.2)
  }

  /** What the server's draws and its key material make it prepare. */
  ghost predicate PreparedFrom(cs: Suite, x: Sides, p: Prepared, next: nat)
    requires cs.oprfHash.Lawful()
  {
    var (dummyKey, nonce, after) := LoginDraws(cs, x.tape, x.pos);
    var material := OprfKeyMaterial(cs, x.setup.oprfSeed, x.credentialId);
    && after == next && material.Ok?
    && PrepareResponse(cs, x.setup, material.value, x.file.GetOr(DummyRecord(cs, x.setup, dummyKey)), nonce, x.request,
                       x.server) == Ok(p)
  }

  lemma ServerHalf(cs: Suite, x: Sides) returns (p: Prepared, next: nat)
    requires cs.oprfHash.Lawful() && cs.kx.keHash.Lawful() && cs.oprf.Lawful() && x.Typed(cs) && x.WellFormed(cs)
    requires x.Start(cs).Ok?
    ensures PreparedFrom(cs, x, p, next) && ServerPrepared(cs, x, p)
    ensures ServerRan(cs, x, p, next, x.Start(cs).value)
  {
    var (dummyKey, nonce, after) := LoginDraws(cs, x.tape, x.pos);
    next := after;
    var material := OprfKeyMaterial(cs, x.setup.oprfSeed, x.credentialId).value;
    var record := x.file.GetOr(DummyRecord(cs, x.setup, dummyKey));
    ServerStartIs(cs, x.tape, x.pos, x.setup, x.file, record, dummyKey, nonce, next, material, x.request,
                  x.credentialId, x.server);
    PreparedWellFormed(cs, x.setup, material, record, nonce, x.request, x.server);
    PreparedNames(cs, x.setup, material, record, nonce, x.request, x.server);
    p := PrepareResponse(cs, x.setup, material, record, nonce, x.request, x.server).value;
    StartFromIsRun(cs, x.tape, next, p, x.ClientSPk(), x.setup.keypair.sk);
  }

  /** The client's inputs are well-formed. */
  lemma ClientInputsWellFormed(cs: Suite, x: Sides, credentials: Env.OpenedEnvelope, context: SerializedContext)
    requires cs.oprf.LawfulEncodings() && x.Typed(cs) && x.WellFormed(cs)
    requires context.WellFormed() && credentials.identifiers.WellFormed()
    ensures var inputs := ClientInputs(cs, context, credentials, x.state.request, x.received.ToParts(cs));
            FirstWellFormed(cs, inputs.ke1) && inputs.View().WellFormed(ShapeOf(cs), cs.EphGroup())
  {
  }

  /** The two halves and the exchange they make. */
  ghost predicate Halves(cs: Suite, x: Sides, next: nat, p: Prepared, serverSPk: PublicKey,
                         credentials: Env.OpenedEnvelope, context: SerializedContext, start: ServerStart,
                         result: LoginResult, e: Exchange)
    requires cs.oprfHash.Lawful() && cs.kx.keHash.Lawful() && x.Typed(cs)
  {
    && ServerPrepared(cs, x, p) && ServerRan(cs, x, p, next, start)
    && ClientRecovered(cs, x, serverSPk, credentials, context)
    && ClientAnswered(cs, x, serverSPk, credentials, context, result)
    && ContextFrom(x.finish.context).Ok?
    && e == ExchangeOf(cs, x, next, p, x.ClientSPk(), serverSPk, credentials, context,
                       ContextFrom(x.finish.context).value)
  }

  /** What the inputs of the exchange inside say about the login. */
  ghost predicate Names(cs: Suite, x: Sides, e: Exchange, start: ServerStart, result: LoginResult,
                        clientSPk: PublicKey) {
    var sent := start.response;
    && cs.oprf.validElem(sent.evaluation) && cs.group.validPk(x.ClientSPk()) && cs.group.validPk(clientSPk)
    && e.server.request == x.request.ToParts(cs) && e.server.ke1 == x.request.ke1
    && e.server.response
       == SerializedCredentialResponse(cs.oprf.serializeElem(sent.evaluation), sent.maskingNonce, sent.masked)
    && e.server.context.context == x.server.context.GetOr([])
    && e.server.identifiers.server.identifier.bytes
       == x.server.ids.server.GetOr(cs.group.serializePk(x.setup.keypair.pk))
    && e.server.identifiers.client.identifier.bytes == x.server.ids.client.GetOr(cs.group.serializePk(x.ClientSPk()))
    && e.client.request == x.state.request.ToParts(cs) && e.client.ke1 == x.state.request.ke1
    && e.client.response == x.received.ToParts(cs) && e.received == x.received.ke2
    && e.client.context.context == x.client.context.GetOr([])
    && e.client.identifiers.server.identifier.bytes
       == x.client.ids.server.GetOr(cs.group.serializePk(result.serverSPk))
    && e.client.identifiers.client.identifier.bytes == x.client.ids.client.GetOr(cs.group.serializePk(clientSPk))
    && e.clientSPk == x.ClientSPk() && e.serverSPk == result.serverSPk
    && e.ids == x.finish.ids && e.context.context == x.finish.context.GetOr([])
  }

  /** Both sides of the exchange accept, and their outcomes are those of the login. */
  ghost predicate Outcomes(cs: Suite, x: Sides, e: Exchange, start: ServerStart, result: LoginResult)
    requires cs.kx.keHash.Lawful() && e.Typed(cs)
  {
    && e.Run(cs) == Ok((start.state, start.response.ke2, start.pos))
    && e.Answer(cs) == Ok((result.sessionKey, result.ke3))
    && ContextFrom(x.finish.context) == Ok(e.context) && e.ids == x.finish.ids
    && FinishKe(cs, start.state, result.ke3, e.ids, e.context).Ok?
  }

  /** The exchange of the two halves is well-formed, and both its sides accept. */
  lemma HalvesAccept(cs: Suite, x: Sides, next: nat, p: Prepared, serverSPk: PublicKey, credentials: Env.OpenedEnvelope,
                     context: SerializedContext, start: ServerStart, result: LoginResult, e: Exchange)
    requires cs.oprfHash.Lawful() && cs.kx.keHash.Lawful() && cs.oprf.LawfulEncodings()
    requires x.Typed(cs) && x.WellFormed(cs) && ServerTyped(cs.kx, start.state) && ThirdTyped(cs.kx, result.ke3)
    requires Halves(cs, x, next, p, serverSPk, credentials, context, start, result, e)
    requires ServerLoginFinish(cs, start.state, result.ke3, x.finish).Ok?
    ensures e.Typed(cs) && e.WellFormed(cs)
    ensures Names(cs, x, e, start, result, credentials.clientKeyPair.pk) && Outcomes(cs, x, e, start, result)
  {
    ClientInputsWellFormed(cs, x, credentials, context);
  }

  /** What the exchange's agreement says about the login's messages and keys. */
  ghost predicate Settled(cs: Suite, x: Sides, e: Exchange, start: ServerStart, result: LoginResult)
    requires ServerTyped(cs.kx, start.state) && ThirdTyped(cs.kx, result.ke3)
  {
    && Dh.ViewsAgree(e.server.View(), e.client.View()) && e.client.ke1 == e.server.ke1
    && Confirmed(start.response.ke2, e.received)
    && e.SignaturesVerify(cs, start.response.ke2, result.ke3)
    && ServerLoginFinish(cs, start.state, result.ke3, x.finish) == Ok(result.sessionKey)
  }

  /** The exchange inside settles the login, or one of its candidate pairs collides. */
  lemma ExchangeSettles(cs: Suite, x: Sides, start: ServerStart, result: LoginResult, e: Exchange)
    returns (collision: Option<Collision>)
    requires ExchangeLawful(cs) && ServerTyped(cs.kx, start.state) && ThirdTyped(cs.kx, result.ke3)
    requires e.Typed(cs) && e.WellFormed(cs) && Outcomes(cs, x, e, start, result)
    ensures collision.Some? ==> e.Collides(cs, collision.value)
    ensures collision.None? ==> Settled(cs, x, e, start, result)
  {
    collision := ExchangeAgreement(cs, e);
  }

  /** The exchange's signatures are those of the login. */
  lemma LiftSignatures(cs: Suite, x: Sides, start: ServerStart, result: LoginResult, clientSPk: PublicKey, e: Exchange)
    requires cs.kx.SigmaI? && x.Typed(cs) && Names(cs, x, e, start, result, clientSPk)
    requires SecondTyped(cs.kx, start.response.ke2) && ThirdTyped(cs.kx, result.ke3)
    requires e.SignaturesVerify(cs, start.response.ke2, result.ke3)
    ensures x.SignaturesVerify(cs, start.response, result)
  {
  }

  /** From the exchange's agreement to the login's. */
  lemma LiftAgreement(cs: Suite, x: Sides, start: ServerStart, result: LoginResult, clientSPk: PublicKey, e: Exchange)
    requires cs.oprf.LawfulEncodings() && cs.group.LawfulEncodings()
    requires x.Typed(cs) && x.WellFormed(cs) && ServerTyped(cs.kx, start.state) && ThirdTyped(cs.kx, result.ke3)
    requires SecondTyped(cs.kx, start.response.ke2)
    requires Names(cs, x, e, start, result, clientSPk) && Settled(cs, x, e, start, result)
    ensures x.AgreeOn(cs, start, result, clientSPk)
  {
    var o := cs.oprf;
    assert o.parseElem(o.serializeElem(x.state.request.blinded)) == o.parseElem(o.serializeElem(x.request.blinded));
    assert o.parseElem(o.serializeElem(x.received.evaluation))
        == o.parseElem(o.serializeElem(start.response.evaluation));
    PkInjective(cs.group, clientSPk, x.ClientSPk());
    if cs.kx.SigmaI? {
      LiftSignatures(cs, x, start, result, clientSPk, e);
    }
  }

  /** The exchange inside agrees for the whole login, or one of its candidate pairs collides. */
  lemma InsideAgrees(cs: Suite, x: Sides, start: ServerStart, result: LoginResult, clientSPk: PublicKey, e: Exchange)
    returns (collision: Option<Collision>)
    requires cs.oprf.LawfulEncodings() && ExchangeLawful(cs)
    requires x.Typed(cs) && x.WellFormed(cs) && ServerTyped(cs.kx, start.state) && ThirdTyped(cs.kx, result.ke3)
    requires SecondTyped(cs.kx, start.response.ke2) && e.Typed(cs) && e.WellFormed(cs)
    requires Names(cs, x, e, start, result, clientSPk) && Outcomes(cs, x, e, start, result)
    ensures collision.Some? ==> e.Collides(cs, collision.value)
    ensures collision.None? ==> x.AgreeOn(cs, start, result, clientSPk)
  {
    collision := ExchangeSettles(cs, x, start, result, e);
    if collision.None? {
      LiftAgreement(cs, x, start, result, clientSPk, e);
    }
  }

  /** The exchange inside, from its parts. */
  lemma InsideIs(cs: Suite, x: Sides, next: nat, p: Prepared, serverSPk: PublicKey, credentials: Env.OpenedEnvelope,
                 context: SerializedContext)
    requires cs.oprfHash.Lawful() && PreparedFrom(cs, x, p, next)
    requires ClientRecovered(cs, x, serverSPk, credentials, context) && ContextFrom(x.finish.context).Ok?
    ensures x.Inside(cs)
         == Ok(ExchangeOf(cs, x, next, p, x.ClientSPk(), serverSPk, credentials, context,
                          ContextFrom(x.finish.context).value))
  {
  }

  /** An accepted login holds an exchange, made of the two halves. */
  lemma HoldsExchange(cs: Suite, x: Sides)
    requires cs.oprfHash.Lawful() && cs.kx.keHash.Lawful() && cs.oprf.Lawful() && cs.group.LawfulKeys()
    requires x.Typed(cs) && x.WellFormed(cs) && x.Accepts(cs)
    ensures x.Recovered(cs).Ok? && x.Inside(cs).Ok?
    ensures x.Inside(cs).value.Typed(cs) && x.Inside(cs).value.WellFormed(cs)
    ensures Names(cs, x, x.Inside(cs).value, x.Start(cs).value, x.Finished(cs).value,
                  x.Recovered(cs).value.1.clientKeyPair.pk)
    ensures Outcomes(cs, x, x.Inside(cs).value, x.Start(cs).value, x.Finished(cs).value)
  {
    var p, next := ServerHalf(cs, x);
    var serverSPk, credentials, context := ClientHalf(cs, x);
    InsideIs(cs, x, next, p, serverSPk, credentials, context);
    HalvesAccept(cs, x, next, p, serverSPk, credentials, context, x.Start(cs).value, x.Finished(cs).value,
                 x.Inside(cs).value);
  }

  lemma SidesAgree(cs: Suite, x: Sides) returns (collision: Option<Collision>)
    requires cs.oprfHash.Lawful() && cs.oprf.Lawful() && ExchangeLawful(cs)
    requires x.Typed(cs) && x.WellFormed(cs) && x.Accepts(cs)
    ensures collision.Some? ==> x.Collides(cs, collision.value)
    ensures collision.None? ==> x.Agree(cs)
  {
    HoldsExchange(cs, x);
    collision := InsideAgrees(cs, x, x.Start(cs).value, x.Finished(cs).value,
                              x.Recovered(cs).value.1.clientKeyPair.pk, x.Inside(cs).value);
  }

  /**
   Agreement of whole logins, for every exchange and any response the network delivers to the client: when the client
   accepts and the server accepts the client's last message, the server answered this client's request, the client holds
   the server's response, both have the same context, identifiers in force and session key; or one of the five or six
   candidate pairs, all computed from the two sides, collides under the exchange's hash or HMAC.
   */
  lemma LoginAgreement(cs: Suite, x: Sides) returns (collision: Option<Collision>)
    requires cs.Lawful() && cs.oprfHash.Lawful() && cs.kx.keHash.Lawful()
    requires x.Typed(cs) && x.WellFormed(cs) && x.Accepts(cs)
    ensures collision.Some? ==> x.Collides(cs, collision.value)
    ensures collision.None? ==> x.Agree(cs)
  {
    LoginLaws(cs);
    collision := SidesAgree(cs, x);
  }
}
