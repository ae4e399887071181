/** The key exchange a cipher suite selects (the `KeyExchange` trait of src/key_exchange/mod.rs). */
module KeyExchanges {
  import opened Errors
  import opened Serialization
  import opened Primitives
  import opened Identifiers
  import opened Keypair
  import opened Transcript
  import Dh = TripleDh
  import DhKem = TripleDhKem
  import Sigma = SigmaI

  datatype FirstMessage = DhFirst(dh: Ke1Message) | KemFirst(kem: DhKem.KemKe1Message) {
    /** The Diffie-Hellman part every first message has. */
    function DhPart(): Ke1Message {
      match this
      case DhFirst(m) => m
      case KemFirst(m) => m.dhMessage
    }
  }

  datatype ClientState = DhClient(dh: Ke1State) | KemClient(kem: DhKem.KemKe1State)

  datatype Builder =
    | DhBuilder(dh: Dh.Ke2Builder)
    | KemBuilder(kem: DhKem.KemKe2Builder)
    | SigmaBuilder(sigma: Sigma.Ke2Builder)

  /** What a remote or local private key contributes to the server's message. */
  datatype BuilderInput = SharedSecret(secret: Bytes) | Signed(signature: Signature, state: Sigma.VerifyState)

  datatype ServerState =
    | DhServer(dh: Dh.Ke2State)
    | KemServer(kem: DhKem.KemKe2State)
    | SigmaServer(sigma: Sigma.Ke2State)

  datatype SecondMessage =
    | DhSecond(dh: Dh.Ke2Message)
    | KemSecond(kem: DhKem.KemKe2Message)
    | SigmaSecond(sigma: Sigma.Ke2Message)

  datatype ThirdMessage = DhThird(dh: Dh.Ke3Message) | SigmaThird(sigma: Sigma.Ke3Message)

  // The associated types of the selected exchange.

  predicate FirstTyped(kx: KeyExchange, m: FirstMessage) {
    kx.TripleDhKem? <==> m.KemFirst?
  }

  predicate ClientTyped(kx: KeyExchange, s: ClientState) {
    kx.TripleDhKem? <==> s.KemClient?
  }

  predicate BuilderTyped(kx: KeyExchange, b: Builder) {
    (kx.TripleDh? <==> b.DhBuilder?) && (kx.TripleDhKem? <==> b.KemBuilder?)
  }

  predicate InputTyped(kx: KeyExchange, i: BuilderInput) {
    kx.SigmaI? <==> i.Signed?
  }

  predicate ServerTyped(kx: KeyExchange, s: ServerState) {
    (kx.TripleDh? <==> s.DhServer?) && (kx.TripleDhKem? <==> s.KemServer?)
  }

  predicate SecondTyped(kx: KeyExchange, m: SecondMessage) {
    (kx.TripleDh? <==> m.DhSecond?) && (kx.TripleDhKem? <==> m.KemSecond?)
  }

  predicate ThirdTyped(kx: KeyExchange, m: ThirdMessage) {
    kx.SigmaI? <==> m.SigmaThird?
  }

  /** The public inputs of one side; the first message may carry a KEM key. */
  datatype Inputs = Inputs(
    context: SerializedContext,
    identifiers: SerializedIdentifiers,
    request: SerializedCredentialRequest,
    ke1: FirstMessage,
    response: SerializedCredentialResponse)
  {
    function View(): Dh.View {
      Dh.View(context, identifiers, request, ke1.DhPart(), response)
    }
  }

  function GenerateKe1(cs: Suite, tape: Tape, pos: nat): (r: Result<(ClientState, FirstMessage, nat)>)
    ensures r.Ok? ==> ClientTyped(cs.kx, r.value.0) && FirstTyped(cs.kx, r.value.1)
  {
    match cs.kx
    case TripleDhKem(_, kem) =>
      var (state, message, next) :- DhKem.GenerateKe1Kem(cs.group, kem, tape, pos);
      Ok((KemClient(state), KemFirst(message), next))
    case _ =>
      var (state, message, next) :- Transcript.GenerateKe1(cs.EphGroup(), tape, pos);
      Ok((DhClient(state), DhFirst(message), next))
  }

  function Ke2Builder(cs: Suite, tape: Tape, pos: nat, inputs: Inputs, clientSPk: PublicKey)
    : (r: Result<(Builder, nat)>)
    requires cs.kx.keHash.Lawful() && FirstTyped(cs.kx, inputs.ke1)
    ensures r.Ok? ==> BuilderTyped(cs.kx, r.value.0)
  {
    match cs.kx
    case TripleDh(_) =>
      var (b, next) :- Dh.Ke2BuilderSpec(cs.group, tape, pos, inputs.View(), clientSPk);
      Ok((DhBuilder(b), next))
    case TripleDhKem(_, kem) =>
      var (b, next) :- DhKem.Ke2BuilderSpec(cs.group, kem, tape, pos, inputs.View(), inputs.ke1.kem.kemEk, clientSPk);
      Ok((KemBuilder(b), next))
    case SigmaI(h, _, e) =>
      var (b, next) :- Sigma.Ke2BuilderSpec(h, e, tape, pos, inputs.View(), clientSPk);
      Ok((SigmaBuilder(b), next))
  }

  /** `generate_ke2_input`: the contribution of a private key held locally; returns the new tape position. */
  function Ke2Input(cs: Suite, b: Builder, tape: Tape, pos: nat, serverSSk: PrivateKey): (r: (BuilderInput, nat))
    requires BuilderTyped(cs.kx, b)
    ensures InputTyped(cs.kx, r.0)
  {
    match b
    case DhBuilder(b) => (SharedSecret(cs.group.dh(serverSSk, b.clientEPk)), pos)
    case KemBuilder(b) => (SharedSecret(cs.group.dh(serverSSk, b.base.clientEPk)), pos)
    case SigmaBuilder(b) =>
      var sig := cs.kx.sig;
      var (signature, state) := Sigma.SignSpec(sig, serverSSk, b.message, Fill(tape, pos, sig.nrand));
      (Signed(signature, state), pos + sig.nrand)
  }

  function BuildKe2(cs: Suite, b: Builder, input: BuilderInput): (r: Result<(ServerState, SecondMessage)>)
    requires cs.kx.keHash.Lawful() && BuilderTyped(cs.kx, b) && InputTyped(cs.kx, input)
    ensures r.Ok? ==> ServerTyped(cs.kx, r.value.0) && SecondTyped(cs.kx, r.value.1)
  {
    match b
    case DhBuilder(b) =>
      var (state, message) :- Dh.BuildKe2Spec(cs.kx.keHash, b, input.secret);
      Ok((DhServer(state), DhSecond(message)))
    case KemBuilder(b) =>
      var (state, message) :- DhKem.BuildKe2Spec(cs.kx.keHash, b, input.secret);
      Ok((KemServer(state), KemSecond(message)))
    case SigmaBuilder(b) =>
      var (state, message) := Sigma.BuildKe2(b, (input.signature, input.state));
      Ok((SigmaServer(state), SigmaSecond(message)))
  }

  /** The server's second message with a private key held locally. */
  function RunKe2(cs: Suite, tape: Tape, pos: nat, inputs: Inputs, clientSPk: PublicKey, serverSSk: PrivateKey)
    : (r: Result<(ServerState, SecondMessage, nat)>)
    requires cs.kx.keHash.Lawful() && FirstTyped(cs.kx, inputs.ke1)
    ensures r.Ok? ==> ServerTyped(cs.kx, r.value.0) && SecondTyped(cs.kx, r.value.1)
  {
    var (b, pos) :- Ke2Builder(cs, tape, pos, inputs, clientSPk);
    var (input, pos) := Ke2Input(cs, b, tape, pos, serverSSk);
    var (state, message) :- BuildKe2(cs, b, input);
    Ok((state, message, pos))
  }

  function GenerateKe3(cs: Suite, tape: Tape, pos: nat, inputs: Inputs, state: ClientState, ke2: SecondMessage,
                       serverSPk: PublicKey, clientSSk: PrivateKey): (r: Result<(Bytes, ThirdMessage)>)
    requires cs.kx.keHash.Lawful()
    requires FirstTyped(cs.kx, inputs.ke1) && ClientTyped(cs.kx, state) && SecondTyped(cs.kx, ke2)
    ensures r.Ok? ==> ThirdTyped(cs.kx, r.value.1)
  {
    match cs.kx
    case TripleDh(h) =>
      var (key, message) :- Dh.GenerateKe3Spec(h, cs.group, inputs.View(), state.dh, ke2.dh, serverSPk, clientSSk);
      Ok((key, DhThird(message)))
    case TripleDhKem(h, kem) =>
      var (key, message) :- DhKem.GenerateKe3Spec(h, cs.group, kem, inputs.View(), inputs.ke1.kem.kemEk, state.kem,
                                                  ke2.kem,
                                                serverSPk, clientSSk);
      Ok((key, DhThird(message)))
    case SigmaI(h, sig, e) =>
      var (key, message) :- Sigma.GenerateKe3Spec(h, sig, e, inputs.View(), state.dh, ke2.sigma, serverSPk, clientSSk,
                                                  Fill(tape, pos, sig.nrand));
      Ok((key, SigmaThird(message)))
  }

  function FinishKe(cs: Suite, state: ServerState, ke3: ThirdMessage, ids: Ids, context: SerializedContext)
    : Result<Bytes>
    requires ServerTyped(cs.kx, state) && ThirdTyped(cs.kx, ke3)
  {
    match state
    case DhServer(s) => Dh.FinishKe(s, ke3.dh)
    case KemServer(s) => DhKem.FinishKe(s, ke3.dh)
    case SigmaServer(s) => Sigma.FinishKe(cs.kx.sig, cs.group, s, ke3.sigma, ids, context)
  }

  // ---------------------------------------------------------------------
  // Completeness
  // ---------------------------------------------------------------------

  /** Both sides feed the same bytes into the exchange, wherever identifiers came from. */
  ghost predicate InputsAgree(server: Inputs, client: Inputs) {
    && server.context == client.context
    && server.identifiers.WellFormed() && client.identifiers.WellFormed()
    && Dh.ViewsAgree(server.View(), client.View())
    && server.ke1 == client.ke1
  }

  /** The outcome of an honest exchange: both sides finish, with one session key. */
  ghost predicate Completes(cs: Suite, tape: Tape, pos: nat, server: Inputs, client: Inputs, clientS: KeyPair,
                            serverS: KeyPair, state: ClientState, clientTape: Tape, clientPos: nat, finishIds: Ids)
    requires cs.kx.keHash.Lawful()
    requires FirstTyped(cs.kx, server.ke1) && FirstTyped(cs.kx, client.ke1) && ClientTyped(cs.kx, state)
  {
    var ke2 := RunKe2(cs, tape, pos, server, clientS.pk, serverS.sk);
    && ke2.Ok?
    && var answer := GenerateKe3(cs, clientTape, clientPos, client, state, ke2.value.1, serverS.pk, clientS.sk);
       && answer.Ok?
       && FinishKe(cs, ke2.value.0, answer.value.1, finishIds, server.context) == Ok(answer.value.0)
  }

  /** The laws an exchange needs to complete. */
  ghost predicate ExchangeLawful(cs: Suite) {
    && cs.kx.keHash.Lawful()
    && cs.group.Lawful()
    && cs.EphGroup().Lawful()
    && (cs.kx.TripleDhKem? ==> cs.kx.kem.Lawful())
    && (cs.kx.SigmaI? ==> cs.kx.sig.Lawful(cs.group))
  }

  lemma DhCompletes(cs: Suite, tape: Tape, pos: nat, server: Inputs, client: Inputs,
                           clientS: KeyPair, serverS: KeyPair, ke1Tape: Tape, ke1Pos: nat,
                           clientTape: Tape, clientPos: nat, finishIds: Ids)
    requires ExchangeLawful(cs) && clientS.Matching(cs.group) && serverS.Matching(cs.group)
    requires Ephemeral(cs.EphGroup(), tape, pos).Ok?
    requires GenerateKe1(cs, ke1Tape, ke1Pos).Ok? && GenerateKe1(cs, ke1Tape, ke1Pos).value.1 == client.ke1
    requires InputsAgree(server, client)
    requires finishIds.client.GetOr(cs.group.serializePk(clientS.pk)) == server.identifiers.client.identifier.bytes
    requires cs.kx.TripleDh?
    ensures Completes(cs, tape, pos, server, client, clientS, serverS, GenerateKe1(cs, ke1Tape, ke1Pos).value.0,
                      clientTape, clientPos, finishIds)
  {
    EphemeralOk(cs.group, ke1Tape, ke1Pos);
    Dh.Completeness(cs.kx.keHash, cs.group, tape, pos, server.View(), client.View(), clientS, serverS,
                    Transcript.GenerateKe1(cs.group, ke1Tape, ke1Pos).value.0);
  }

  lemma KemCompletes(cs: Suite, tape: Tape, pos: nat, server: Inputs, client: Inputs,
                           clientS: KeyPair, serverS: KeyPair, ke1Tape: Tape, ke1Pos: nat,
                           clientTape: Tape, clientPos: nat, finishIds: Ids)
    requires ExchangeLawful(cs) && clientS.Matching(cs.group) && serverS.Matching(cs.group)
    requires Ephemeral(cs.EphGroup(), tape, pos).Ok?
    requires GenerateKe1(cs, ke1Tape, ke1Pos).Ok? && GenerateKe1(cs, ke1Tape, ke1Pos).value.1 == client.ke1
    requires InputsAgree(server, client)
    requires finishIds.client.GetOr(cs.group.serializePk(clientS.pk)) == server.identifiers.client.identifier.bytes
    requires cs.kx.TripleDhKem?
    ensures Completes(cs, tape, pos, server, client, clientS, serverS, GenerateKe1(cs, ke1Tape, ke1Pos).value.0,
                      clientTape, clientPos, finishIds)
  {
    EphemeralOk(cs.group, ke1Tape, ke1Pos);
    DhKem.Completeness(cs.kx.keHash, cs.group, cs.kx.kem, tape, pos, server.View(), client.View(), clientS, serverS,
                     DhKem.GenerateKe1Kem(cs.group, cs.kx.kem, ke1Tape, ke1Pos).value.0,
                     ke1Tape, Transcript.GenerateKe1(cs.group, ke1Tape, ke1Pos).value.2);
  }

  lemma SigmaCompletes(cs: Suite, tape: Tape, pos: nat, server: Inputs, client: Inputs,
                           clientS: KeyPair, serverS: KeyPair, ke1Tape: Tape, ke1Pos: nat,
                           clientTape: Tape, clientPos: nat, finishIds: Ids)
    requires ExchangeLawful(cs) && clientS.Matching(cs.group) && serverS.Matching(cs.group)
    requires Ephemeral(cs.EphGroup(), tape, pos).Ok?
    requires GenerateKe1(cs, ke1Tape, ke1Pos).Ok? && GenerateKe1(cs, ke1Tape, ke1Pos).value.1 == client.ke1
    requires InputsAgree(server, client)
    requires finishIds.client.GetOr(cs.group.serializePk(clientS.pk)) == server.identifiers.client.identifier.bytes
    requires cs.kx.SigmaI?
    ensures Completes(cs, tape, pos, server, client, clientS, serverS, GenerateKe1(cs, ke1Tape, ke1Pos).value.0,
                      clientTape, clientPos, finishIds)
  {
    Ke1KeysMatch(cs, ke1Tape, ke1Pos);
    SigmaCompletesFrom(cs, tape, pos, server, client, clientS, serverS, GenerateKe1(cs, ke1Tape, ke1Pos).value.0,
                       clientTape, clientPos, finishIds);
  }

  /** The client keeps the private half of the ephemeral key it sends; key and nonce are those of its tape. */
  lemma Ke1KeysMatch(cs: Suite, tape: Tape, pos: nat)
    requires cs.EphGroup().LawfulKeys() && GenerateKe1(cs, tape, pos).Ok?
    ensures var (state, message, _) := GenerateKe1(cs, tape, pos).value;
            var dh := if state.KemClient? then state.kem.dhState else state.dh;
            var sk, g := dh.clientESk, cs.EphGroup();
            && g.validSk(sk) && message.DhPart().clientEPk == g.publicKey(sk)
            && g.deriveScalar(Fill(tape, pos, g.nsk)) == Some(sk)
            && message.DhPart().clientNonce == dh.clientNonce == Fill(tape, pos + g.nsk, NONCE_LEN)
            && (cs.kx.TripleDhKem? ==>
                  var (dk, ek, _) := cs.kx.kem.generate(tape, pos + g.nsk + NONCE_LEN);
                  state.kem.kemDk == dk && message.kem.kemEk == cs.kx.kem.serializeEk(ek))
            && message.DhPart().WellFormed(cs.EphGroup())
  {
    EphemeralOk(cs.EphGroup(), tape, pos);
  }

  lemma SigmaCompletesFrom(cs: Suite, tape: Tape, pos: nat, server: Inputs, client: Inputs, clientS: KeyPair,
                           serverS: KeyPair, state: ClientState, clientTape: Tape, clientPos: nat, finishIds: Ids)
    requires cs.kx.SigmaI? && ExchangeLawful(cs) && clientS.Matching(cs.group) && serverS.Matching(cs.group)
    requires FirstTyped(cs.kx, server.ke1) && ClientTyped(cs.kx, state)
    requires cs.kx.ephGroup.validSk(state.dh.clientESk) && Ephemeral(cs.kx.ephGroup, tape, pos).Ok?
    requires server.ke1.dh.clientEPk == cs.kx.ephGroup.publicKey(state.dh.clientESk)
    requires InputsAgree(server, client)
    requires finishIds.client.GetOr(cs.group.serializePk(clientS.pk)) == server.identifiers.client.identifier.bytes
    ensures Completes(cs, tape, pos, server, client, clientS, serverS, state, clientTape, clientPos, finishIds)
  {
    var sig := cs.kx.sig;
    Sigma.Completeness(cs.kx.keHash, sig, cs.group, cs.kx.ephGroup, tape, pos, server.View(), client.View(), clientS,
                       serverS, state.dh, Fill(clientTape, clientPos, sig.nrand), finishIds);
    SigmaLift(cs, tape, pos, server, client, clientS, serverS, state, clientTape, clientPos, finishIds);
  }

  /** What SIGMA-I itself says about an exchange, restated for the selected exchange. */
  lemma SigmaLift(cs: Suite, tape: Tape, pos: nat, server: Inputs, client: Inputs, clientS: KeyPair, serverS: KeyPair,
                  state: ClientState, clientTape: Tape, clientPos: nat, finishIds: Ids)
    requires cs.kx.SigmaI? && cs.kx.keHash.Lawful()
    requires FirstTyped(cs.kx, server.ke1) && FirstTyped(cs.kx, client.ke1) && ClientTyped(cs.kx, state)
    requires Sigma.Completes(cs.kx.keHash, cs.kx.sig, cs.group, cs.kx.ephGroup, tape, pos, server.View(), client.View(),
                             clientS, serverS, state.dh, Fill(clientTape, clientPos, cs.kx.sig.nrand), finishIds)
    ensures Completes(cs, tape, pos, server, client, clientS, serverS, state, clientTape, clientPos, finishIds)
  {
  }

  /** An honest exchange completes, whichever exchange the cipher suite selects. */
  lemma ExchangeCompletes(cs: Suite, tape: Tape, pos: nat, server: Inputs, client: Inputs,
                           clientS: KeyPair, serverS: KeyPair, ke1Tape: Tape, ke1Pos: nat,
                           clientTape: Tape, clientPos: nat, finishIds: Ids)
    requires ExchangeLawful(cs) && clientS.Matching(cs.group) && serverS.Matching(cs.group)
    requires Ephemeral(cs.EphGroup(), tape, pos).Ok?
    requires GenerateKe1(cs, ke1Tape, ke1Pos).Ok? && GenerateKe1(cs, ke1Tape, ke1Pos).value.1 == client.ke1
    requires InputsAgree(server, client)
    requires finishIds.client.GetOr(cs.group.serializePk(clientS.pk)) == server.identifiers.client.identifier.bytes
    ensures Completes(cs, tape, pos, server, client, clientS, serverS, GenerateKe1(cs, ke1Tape, ke1Pos).value.0,
                      clientTape, clientPos, finishIds)
  {
    match cs.kx
    case TripleDh(_) =>
      DhCompletes(cs, tape, pos, server, client, clientS, serverS, ke1Tape, ke1Pos, clientTape, clientPos, finishIds);
    case TripleDhKem(_, _) =>
      KemCompletes(cs, tape, pos, server, client, clientS, serverS, ke1Tape, ke1Pos, clientTape, clientPos, finishIds);
    case SigmaI(_, _, _) =>
      SigmaCompletes(cs, tape, pos, server, client, clientS, serverS, ke1Tape, ke1Pos, clientTape, clientPos,
                     finishIds);
  }

  /** When the server's draw derives no key the run panics, before anything else can fail. */
  lemma RunPanics(cs: Suite, tape: Tape, pos: nat, inputs: Inputs, clientSPk: PublicKey, serverSSk: PrivateKey)
    requires cs.kx.keHash.Lawful() && FirstTyped(cs.kx, inputs.ke1) && Ephemeral(cs.EphGroup(), tape, pos).Err?
    ensures RunKe2(cs, tape, pos, inputs, clientSPk, serverSSk) == Err(Panic)
  {
    match cs.kx
    case TripleDh(_) =>
    case TripleDhKem(_, _) =>
    case SigmaI(_, _, _) =>
  }

  /** The server can read the KEM key of a first message. */
  predicate KemKeyParses(cs: Suite, ke1: FirstMessage)
    requires FirstTyped(cs.kx, ke1)
  {
    cs.kx.TripleDhKem? ==> DhKem.ParseEk(cs.kx.kem, ke1.kem.kemEk).Ok?
  }

  /** It can read a generated one. */
  lemma GeneratedKemKeyParses(cs: Suite, tape: Tape, pos: nat)
    requires cs.kx.TripleDhKem? ==> cs.kx.kem.Lawful()
    requires GenerateKe1(cs, tape, pos).Ok?
    ensures KemKeyParses(cs, GenerateKe1(cs, tape, pos).value.1)
  {
    if cs.kx.TripleDhKem? {
      var kemEk := GenerateKe1(cs, tape, pos).value.1.kem.kemEk;
      assert kemEk + [] == kemEk;
      TakeCat(kemEk, [], "kem encapsulation key");
    }
  }

  /** When the server's draw derives a key, its run fails only for a KEM key it cannot read. */
  lemma RunSucceeds(cs: Suite, tape: Tape, pos: nat, inputs: Inputs, clientSPk: PublicKey, serverSSk: PrivateKey)
    requires cs.kx.keHash.Lawful() && FirstTyped(cs.kx, inputs.ke1) && Ephemeral(cs.EphGroup(), tape, pos).Ok?
    requires KemKeyParses(cs, inputs.ke1)
    ensures RunKe2(cs, tape, pos, inputs, clientSPk, serverSSk).Ok?
  {
    var h, view := cs.kx.keHash, inputs.View();
    var (kp, nonce, next) := Ephemeral(cs.EphGroup(), tape, pos).value;
    match cs.kx
    case TripleDh(_) =>
      var b := Dh.BuilderFrom(cs.group, view, kp, nonce, clientSPk);
      DeriveKeysOk(h, [b.sharedSecret1, cs.group.dh(serverSSk, b.clientEPk), b.sharedSecret3], b.transcript);
    case TripleDhKem(_, kem) =>
      var ek := DhKem.ParseEk(kem, inputs.ke1.kem.kemEk).value;
      var (ct, secret, _) := kem.encapsulate(ek, tape, next);
      var base := Dh.BuilderFrom(cs.group, view, kp, nonce, clientSPk);
      var b := DhKem.BuilderFrom(base, inputs.ke1.kem.kemEk, ct, secret);
      DeriveKeysOk(h, DhKem.ServerSecrets(b, cs.group.dh(serverSSk, b.base.clientEPk)), b.base.transcript);
    case SigmaI(_, _, e) =>
      Sigma.BuilderOk(h, e, view, kp, nonce, clientSPk);
  }

  /** Besides success the client's step knows one outcome, an invalid login. */
  lemma Ke3Errors(cs: Suite, tape: Tape, pos: nat, inputs: Inputs, state: ClientState, ke2: SecondMessage,
                  serverSPk: PublicKey, clientSSk: PrivateKey)
    requires cs.kx.keHash.Lawful()
    requires FirstTyped(cs.kx, inputs.ke1) && ClientTyped(cs.kx, state) && SecondTyped(cs.kx, ke2)
    ensures var r := GenerateKe3(cs, tape, pos, inputs, state, ke2, serverSPk, clientSSk);
            r.Err? ==> r.error == InvalidLoginError
  {
    match cs.kx
    case TripleDh(h) => Dh.GenerateKe3Errors(h, cs.group, inputs.View(), state.dh, ke2.dh, serverSPk, clientSSk);
    case TripleDhKem(h, kem) =>
      DhKem.GenerateKe3Errors(h, cs.group, kem, inputs.View(), inputs.ke1.kem.kemEk, state.kem, ke2.kem, serverSPk,
                              clientSSk);
    case SigmaI(h, sig, e) =>
      Sigma.GenerateKe3Errors(h, sig, e, inputs.View(), state.dh, ke2.sigma, serverSPk, clientSSk,
                              Fill(tape, pos, sig.nrand));
  }
}
