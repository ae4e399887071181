/** A finished registration makes every honest login succeed. */
module EndToEnd {
  import opened Errors
  import opened Serialization
  import opened Primitives
  import opened Identifiers
  import opened Hkdf
  import opened Masking
  import opened Transcript
  import opened KeyExchanges
  import opened Messages
  import opened Opaque
  import opened KeyMaterial
  import Env = Envelope

  // ---------------------------------------------------------------------
  // The oblivious pseudorandom function
  // ---------------------------------------------------------------------

  /** Unblinding cancels blinding: the value does not depend on the blind. */
  lemma Unblind(o: Oprf, key: Scalar, blind: Scalar, element: Elem)
    requires o.Lawful() && o.validScalar(key) && o.validScalar(blind) && o.validElem(element)
    ensures o.mul(o.inv(blind), o.mul(key, o.mul(blind, element))) == o.mul(key, element)
  {
    assert o.Commutes(key, blind, element) && o.Cancels(blind, o.mul(key, element));
  }

  /** If one blinded element is reflected by a key, then so is every other: the key acts as one. */
  lemma ReflectionIsUniform(o: Oprf, key: Scalar, blind: Scalar, blind': Scalar, element: Elem)
    requires o.Lawful() && o.validScalar(key) && o.validElem(element)
    requires o.validScalar(blind) && o.validScalar(blind')
    requires o.mul(key, o.mul(blind', element)) == o.mul(blind', element)
    ensures o.mul(key, o.mul(blind, element)) == o.mul(blind, element)
  {
    Unblind(o, key, blind', element);
    assert o.Cancels(blind', element) && o.Commutes(key, blind, element);
  }

  /** The OPRF key a credential identifier stands for, when its derivation succeeds. */
  ghost predicate IsKey(cs: Suite, setup: ServerSetup, credentialId: Bytes, key: Scalar)
    requires cs.oprfHash.Lawful()
  {
    var material := Expand(cs.oprfHash, setup.oprfSeed, credentialId + Ascii("OprfKey"), cs.oprf.nok);
    && material.Ok?
    && cs.oprf.deriveKey(material.value, Ascii("OPAQUE-DeriveKeyPair")) == Some(key)
    && cs.oprf.validScalar(key)
  }

  lemma KeyIsDerived(cs: Suite, setup: ServerSetup, credentialId: Bytes, key: Scalar)
    requires cs.oprfHash.Lawful() && IsKey(cs, setup, credentialId, key)
    ensures DerivedKey(cs, setup.oprfSeed, credentialId, key)
  {
    var material := Expand(cs.oprfHash, setup.oprfSeed, credentialId + Ascii("OprfKey"), cs.oprf.nok).value;
    var blocks := ExpandIsChain(cs.oprfHash, setup.oprfSeed, credentialId + Ascii("OprfKey"), cs.oprf.nok);
    assert MaterialOf(cs, setup.oprfSeed, credentialId, blocks, material);
  }

  /** The server multiplies by the key, and by nothing else. */
  lemma EvaluateIsMul(cs: Suite, setup: ServerSetup, credentialId: Bytes, key: Scalar, blinded: Elem)
    requires cs.oprfHash.Lawful() && cs.oprf.Lawful() && IsKey(cs, setup, credentialId, key)
    ensures Evaluate(cs.oprf, OprfKeyMaterial(cs, setup.oprfSeed, credentialId).value, blinded) ==
            Ok(cs.oprf.mul(key, blinded))
  {
  }

  /** The randomized password is a function of password, key and stretching function; the blind drops out. */
  lemma PasswordKeyIgnoresBlind(cs: Suite, password: Bytes, key: Scalar, blind: Scalar, blind': Scalar, element: Elem,
                                ksf: Option<Ksf>, ksf': Option<Ksf>)
    requires cs.oprf.Lawful() && cs.oprf.validScalar(key) && cs.oprf.validElem(element)
    requires cs.oprf.validScalar(blind) && cs.oprf.validScalar(blind')
    requires ksf.GetOr(cs.defaultKsf) == ksf'.GetOr(cs.defaultKsf)
    ensures PasswordDerivedKey(cs, password, blind, cs.oprf.mul(key, cs.oprf.mul(blind, element)), ksf)
         == PasswordDerivedKey(cs, password, blind', cs.oprf.mul(key, cs.oprf.mul(blind', element)), ksf')
  {
    Unblind(cs.oprf, key, blind, element);
    Unblind(cs.oprf, key, blind', element);
  }

  // ---------------------------------------------------------------------
  // Registration
  // ---------------------------------------------------------------------

  /** All inputs of one registration. */
  datatype Enrolment = Enrolment(
    password: Bytes,
    credentialId: Bytes,
    ids: Ids,
    ksf: Option<Ksf>,
    startTape: Tape,
    startPos: nat,
    finishTape: Tape,
    finishPos: nat)

  /** The registration as the three messages run it. */
  function Register(cs: Suite, setup: ServerSetup, e: Enrolment): Result<RegistrationResult>
    requires cs.oprfHash.Lawful()
  {
    var (request, state, _) :- ClientRegistrationStart(cs, e.startTape, e.startPos, e.password);
    var response :- ServerRegistrationStart(cs, setup, request, e.credentialId);
    ClientRegistrationFinish(cs, state, e.finishTape, e.finishPos, e.password, response, e.ids, e.ksf)
  }

  /** What a finished registration says about the OPRF key, the randomized password and the uploaded record. */
  ghost predicate Enrolled(cs: Suite, setup: ServerSetup, e: Enrolment, result: RegistrationResult,
                           key: Scalar, element: Elem, blind: Scalar, prk: Bytes)
    requires cs.oprfHash.Lawful()
  {
    && IsKey(cs, setup, e.credentialId, key)
    && cs.oprf.hashToGroup(e.password) == Some(element)
    && cs.oprf.validElem(element) && cs.oprf.validScalar(blind)
    && cs.oprf.mul(key, cs.oprf.mul(blind, element)) != cs.oprf.mul(blind, element)
    && PasswordDerivedKey(cs, e.password, blind, cs.oprf.mul(key, cs.oprf.mul(blind, element)), e.ksf) == Ok(prk)
    && Expand(cs.oprfHash, prk, Ascii("MaskingKey"), cs.oprfHash.nh) == Ok(result.upload.maskingKey)
    && Env.Seal(cs.oprfHash, cs.group, Fill(e.finishTape, e.finishPos, NONCE_LEN), prk, setup.keypair.pk, e.ids)
       == Ok((result.upload.envelope, result.upload.clientSPk, result.exportKey))
    && result.serverSPk == setup.keypair.pk
  }

  lemma RegistrationFacts(cs: Suite, setup: ServerSetup, e: Enrolment)
    returns (key: Scalar, element: Elem, blind: Scalar, prk: Bytes)
    requires cs.oprfHash.Lawful() && cs.oprf.Lawful()
    requires Register(cs, setup, e).Ok?
    ensures Enrolled(cs, setup, e, Register(cs, setup, e).value, key, element, blind, prk)
    ensures blind == cs.oprf.sampleScalar(e.startTape, e.startPos).0
    ensures DerivedKey(cs, setup.oprfSeed, e.credentialId, key)
    ensures Randomized(cs, e.password, cs.oprf.mul(key, element), e.ksf, prk)
  {
    var (request, state, _) := ClientRegistrationStart(cs, e.startTape, e.startPos, e.password).value;
    var response := ServerRegistrationStart(cs, setup, request, e.credentialId).value;
    var material := OprfKeyMaterial(cs, setup.oprfSeed, e.credentialId).value;
    key := cs.oprf.deriveKey(material, STR_OPAQUE_DERIVE_KEY_PAIR).value;
    element := cs.oprf.hashToGroup(e.password).value;
    blind := state.blind;
    EvaluateIsMul(cs, setup, e.credentialId, key, request.blinded);
    prk := PasswordDerivedKey(cs, e.password, blind, response.evaluation, e.ksf).value;
    KeyIsDerived(cs, setup, e.credentialId, key);
    Unblind(cs.oprf, key, blind, element);
    PasswordKeyIs(cs, e.password, blind, response.evaluation, e.ksf, prk);
  }

  // ---------------------------------------------------------------------
  // Login
  // ---------------------------------------------------------------------

  /** All inputs of one login besides password and record. */
  datatype Session = Session(
    clientTape: Tape,
    clientPos: nat,
    serverTape: Tape,
    serverPos: nat,
    finishTape: Tape,
    finishPos: nat,
    ksf: Option<Ksf>,
    client: LoginParameters,
    server: LoginParameters,
    finish: LoginParameters)

  datatype Outcome = Outcome(clientKey: Bytes, serverKey: Bytes, exportKey: Bytes, serverSPk: PublicKey)

  /** The login as the messages run it. */
  function Login(cs: Suite, setup: ServerSetup, file: RegistrationUpload, password: Bytes, credentialId: Bytes,
                 s: Session)
    : Result<Outcome>
    requires cs.oprfHash.Lawful() && cs.kx.keHash.Lawful()
  {
    var (request, state, _) :- ClientLoginStart(cs, s.clientTape, s.clientPos, password);
    var start :- ServerLoginStart(cs, s.serverTape, s.serverPos, setup, Some(file), request, credentialId, s.server);
    var result :- ClientLoginFinish(cs, state, s.finishTape, s.finishPos, password, start.response, s.client, s.ksf);
    var serverKey :- ServerLoginFinish(cs, start.state, result.ke3, s.finish);
    Ok(Outcome(result.sessionKey, serverKey, result.exportKey, result.serverSPk))
  }

  /**
   The session's parameters match the enrolment: the same stretching function, contexts of equal bytes, and at every
   step the same identifiers in force, given explicitly or defaulted to the public keys.
   */
  ghost predicate Matches(cs: Suite, setup: ServerSetup, e: Enrolment, clientSPk: PublicKey, s: Session) {
    && s.ksf.GetOr(cs.defaultKsf) == e.ksf.GetOr(cs.defaultKsf)
    && s.client.context.GetOr([]) == s.server.context.GetOr([]) == s.finish.context.GetOr([])
    && |s.client.context.GetOr([])| < 0x1_0000
    && Env.SameIds(e.ids, s.client.ids, cs.group.serializePk(clientSPk), cs.group.serializePk(setup.keypair.pk))
    && Env.SameIds(e.ids, s.server.ids, cs.group.serializePk(clientSPk), cs.group.serializePk(setup.keypair.pk))
    && e.ids.client.GetOr(cs.group.serializePk(clientSPk)) == s.finish.ids.client.GetOr(cs.group.serializePk(clientSPk))
  }

  /** What the server's response carries: the evaluation by the key, the masked record, the identifiers in force. */
  ghost predicate PreparedFor(cs: Suite, setup: ServerSetup, e: Enrolment, result: RegistrationResult, key: Scalar,
                              request: CredentialRequest, nonce: Bytes, params: LoginParameters, p: Prepared)
    requires cs.oprfHash.Lawful()
  {
    && p.evaluation == cs.oprf.mul(key, request.blinded)
    && p.maskingNonce == nonce
    && MaskSpec(cs.oprfHash, cs.group, result.upload.maskingKey, nonce, setup.keypair.pk, result.upload.envelope) ==
       Ok(p.masked)
    && ContextFrom(params.context) == Ok(p.inputs.context)
    && p.inputs.identifiers.WellFormed()
    && p.inputs.identifiers.client.identifier.bytes == e.ids.client.GetOr(cs.group.serializePk(result.upload.clientSPk))
    && p.inputs.identifiers.server.identifier.bytes == e.ids.server.GetOr(cs.group.serializePk(setup.keypair.pk))
    && p.inputs.request == request.ToParts(cs) && p.inputs.ke1 == request.ke1
    && p.inputs.response == SerializedCredentialResponse(cs.oprf.serializeElem(p.evaluation), nonce, p.masked)
  }

  /** The server answers: its response carries the evaluation by the key and the masked record. */
  lemma ServerPrepares(cs: Suite, setup: ServerSetup, e: Enrolment, result: RegistrationResult, key: Scalar,
                       element: Elem,
                       blind: Scalar, prk: Bytes, request: CredentialRequest, nonce: Bytes, params: LoginParameters)
    requires cs.oprfHash.Lawful() && cs.group.Lawful() && cs.oprf.Lawful()
    requires MaskedLen(cs.oprfHash, cs.group) <= 255 * cs.oprfHash.nh
    requires Enrolled(cs, setup, e, result, key, element, blind, prk)
    requires |params.context.GetOr([])| < 0x1_0000
    requires Env.SameIds(e.ids, params.ids, cs.group.serializePk(result.upload.clientSPk),
                         cs.group.serializePk(setup.keypair.pk))
    ensures var p := PrepareResponse(cs, setup, OprfKeyMaterial(cs, setup.oprfSeed, e.credentialId).value,
                                     result.upload, nonce, request, params);
            p.Ok? && PreparedFor(cs, setup, e, result, key, request, nonce, params, p.value)
  {
    MaskOk(cs.oprfHash, cs.group, result.upload.maskingKey, nonce, setup.keypair.pk, result.upload.envelope);
    EvaluateIsMul(cs, setup, e.credentialId, key, request.blinded);
  }

  /** What the client must recover: the registered key pair, the export key and the identifiers in force. */
  ghost predicate Recovered(cs: Suite, setup: ServerSetup, e: Enrolment, result: RegistrationResult,
                            c: Env.OpenedEnvelope) {
    && c.exportKey == result.exportKey
    && c.clientKeyPair.pk == result.upload.clientSPk
    && c.clientKeyPair.Matching(cs.group)
    && c.identifiers.WellFormed()
    && c.identifiers.client.identifier.bytes == e.ids.client.GetOr(cs.group.serializePk(result.upload.clientSPk))
    && c.identifiers.server.identifier.bytes == e.ids.server.GetOr(cs.group.serializePk(setup.keypair.pk))
  }

  /** Recovery is unmasking followed by opening. */
  lemma RecoveryIs(cs: Suite, prk: Bytes, maskingKey: Bytes, maskingNonce: Bytes, masked: MaskedResponse, ids: Ids,
                   serverSPk: PublicKey, envelope: Env.Envelope, c: Env.OpenedEnvelope)
    requires cs.oprfHash.Lawful()
    requires Expand(cs.oprfHash, prk, STR_MASKING_KEY, cs.oprfHash.nh) == Ok(maskingKey)
    requires UnmaskSpec(cs.oprfHash, cs.group, maskingKey, maskingNonce, masked) == Ok((serverSPk, envelope))
    requires Env.Open(cs.oprfHash, cs.group, envelope, prk, serverSPk, ids) == Ok(c)
    ensures RecoverCredentials(cs, prk, maskingNonce, masked, ids) == Ok((serverSPk, c))
  {
  }

  /** The client recovers its key pair, the export key and the server's key from an honest response. */
  lemma ClientRecovers(cs: Suite, setup: ServerSetup, e: Enrolment, result: RegistrationResult, prk: Bytes,
                       sealNonce: Bytes, maskingNonce: Bytes, masked: MaskedResponse, ids: Ids)
    requires cs.oprfHash.Lawful() && cs.group.Lawful() && cs.group.validPk(setup.keypair.pk) && |sealNonce| == NONCE_LEN
    requires Expand(cs.oprfHash, prk, STR_MASKING_KEY, cs.oprfHash.nh) == Ok(result.upload.maskingKey)
    requires Env.Seal(cs.oprfHash, cs.group, sealNonce, prk, setup.keypair.pk, e.ids)
          == Ok((result.upload.envelope, result.upload.clientSPk, result.exportKey))
    requires MaskSpec(cs.oprfHash, cs.group, result.upload.maskingKey, maskingNonce, setup.keypair.pk,
                      result.upload.envelope) == Ok(masked)
    requires Env.SameIds(e.ids, ids, cs.group.serializePk(result.upload.clientSPk),
                         cs.group.serializePk(setup.keypair.pk))
    ensures var r := RecoverCredentials(cs, prk, maskingNonce, masked, ids);
            r.Ok? && r.value.0 == setup.keypair.pk && Recovered(cs, setup, e, result, r.value.1)
  {
    var h, g := cs.oprfHash, cs.group;
    Env.SealShape(h, g, sealNonce, prk, setup.keypair.pk, e.ids);
    UnmaskAfterMask(h, g, result.upload.maskingKey, maskingNonce, setup.keypair.pk, result.upload.envelope);
    Env.OpenAfterSeal(h, g, sealNonce, prk, setup.keypair.pk, e.ids, ids);
    RecoveryIs(cs, prk, result.upload.maskingKey, maskingNonce, masked, ids, setup.keypair.pk, result.upload.envelope,
               Env.Open(h, g, result.upload.envelope, prk, setup.keypair.pk, ids).value);
  }

  /** The client's draw derives an ephemeral key. */
  predicate ClientDraws(cs: Suite, s: Session) {
    Ephemeral(cs.EphGroup(), s.clientTape, cs.oprf.sampleScalar(s.clientTape, s.clientPos).1).Ok?
  }

  /** The server's draw derives an ephemeral key. */
  predicate ServerDraws(cs: Suite, s: Session) {
    Ephemeral(cs.EphGroup(), s.serverTape, LoginDraws(cs, s.serverTape, s.serverPos).2).Ok?
  }

  /** For a registered password the client's first step fails only as the panic of its draw. */
  lemma ClientStarts(cs: Suite, s: Session, password: Bytes, element: Elem)
    requires cs.oprf.LawfulAction() && cs.oprf.hashToGroup(password) == Some(element)
    requires cs.EphGroup().LawfulKeys()
    ensures !ClientDraws(cs, s) ==> ClientLoginStart(cs, s.clientTape, s.clientPos, password) == Err(Panic)
    ensures ClientDraws(cs, s) ==>
              && ClientLoginStart(cs, s.clientTape, s.clientPos, password).Ok?
              && var (request, state, _) := ClientLoginStart(cs, s.clientTape, s.clientPos, password).value;
                 var (blind, next) := cs.oprf.sampleScalar(s.clientTape, s.clientPos);
                 && cs.oprf.validScalar(blind) && state.blind == blind
                 && request.blinded == cs.oprf.mul(blind, element)
                 && KeyExchanges.GenerateKe1(cs, s.clientTape, next).Ok?
                 && KeyExchanges.GenerateKe1(cs, s.clientTape, next).value.0 == state.ke1State
                 && KeyExchanges.GenerateKe1(cs, s.clientTape, next).value.1 == request.ke1
  {
  }

  /** The server's local start from a prepared response. */
  function StartFrom(cs: Suite, tape: Tape, pos: nat, p: Prepared, clientSPk: PublicKey, serverSSk: PrivateKey)
    : Result<ServerStart>
    requires cs.kx.keHash.Lawful() && FirstTyped(cs.kx, p.inputs.ke1)
  {
    var (b, pos) :- Attach(cs, tape, pos, p, clientSPk);
    BuildLocally(cs, tape, pos, b, serverSSk)
  }

  /** Building on an attached builder is one run of the key exchange. */
  lemma StartFromIsRun(cs: Suite, tape: Tape, pos: nat, p: Prepared, clientSPk: PublicKey, serverSSk: PrivateKey)
    requires cs.kx.keHash.Lawful() && FirstTyped(cs.kx, p.inputs.ke1)
    ensures match RunKe2(cs, tape, pos, p.inputs, clientSPk, serverSSk)
            case Ok((state, message, next)) =>
              StartFrom(cs, tape, pos, p, clientSPk, serverSSk)
              == Ok(ServerStart(CredentialResponse(p.evaluation, p.maskingNonce, p.masked, message), state, next))
            case Err(error) => StartFrom(cs, tape, pos, p, clientSPk, serverSSk) == Err(error)
  {
  }

  /** The builder of a prepared response. */
  lemma BuilderForIsAttach(cs: Suite, tape: Tape, pos: nat, setup: ServerSetup, material: Bytes,
                           record: RegistrationUpload,
                           nonce: Bytes, request: CredentialRequest, params: LoginParameters)
    requires cs.oprfHash.Lawful() && cs.kx.keHash.Lawful() && FirstTyped(cs.kx, request.ke1)
    ensures match PrepareResponse(cs, setup, material, record, nonce, request, params)
            case Ok(p) =>
              BuilderFor(cs, tape, pos, setup, material, record, nonce, request, params)
              == Attach(cs, tape, pos, p, record.clientSPk)
            case Err(error) => BuilderFor(cs, tape, pos, setup, material, record, nonce, request, params) == Err(error)
  {
  }

  /** The whole of the server's start, from the record in force and the drawn nonce. */
  lemma ServerStartIs(cs: Suite, tape: Tape, pos: nat, setup: ServerSetup, file: Option<RegistrationUpload>,
                      record: RegistrationUpload, dummyKey: Bytes, nonce: Bytes, next: nat, material: Bytes,
                      request: CredentialRequest, credentialId: Bytes, params: LoginParameters)
    requires cs.oprfHash.Lawful() && cs.kx.keHash.Lawful() && FirstTyped(cs.kx, request.ke1)
    requires OprfKeyMaterial(cs, setup.oprfSeed, credentialId) == Ok(material)
    requires LoginDraws(cs, tape, pos) == (dummyKey, nonce, next)
    requires record == file.GetOr(DummyRecord(cs, setup, dummyKey))
    ensures match PrepareResponse(cs, setup, material, record, nonce, request, params)
            case Ok(p) =>
              ServerLoginStart(cs, tape, pos, setup, file, request, credentialId, params)
              == StartFrom(cs, tape, next, p, record.clientSPk, setup.keypair.sk)
            case Err(error) =>
              ServerLoginStart(cs, tape, pos, setup, file, request, credentialId, params) == Err(error)
  {
    BuilderForIsAttach(cs, tape, next, setup, material, record, nonce, request, params);
    assert LoginBuilderWithMaterial(cs, tape, pos, setup, material, file, request, params)
        == BuilderFor(cs, tape, next, setup, material, record, nonce, request, params);
  }

  /** The key and the envelope that are masked: the record's, or, for a fake record, drawn bytes and zeros. */
  function MaskedRecord(cs: Suite, tape: Tape, pos: nat, file: Option<RegistrationUpload>): (Bytes, Env.Envelope) {
    match file
    case Some(record) => (record.maskingKey, record.envelope)
    case None =>
      (Fill(tape, pos, cs.oprfHash.nh),
       Env.Envelope(Env.Zero, seq(NONCE_LEN, _ => 0), seq(cs.oprfHash.nh, _ => 0)))
  }

  lemma PreparedShows(cs: Suite, tape: Tape, pos: nat, setup: ServerSetup, file: Option<RegistrationUpload>,
                      request: CredentialRequest, credentialId: Bytes, params: LoginParameters)
    requires cs.oprfHash.Lawful() && cs.oprf.Lawful() && OprfKeyMaterial(cs, setup.oprfSeed, credentialId).Ok?
    ensures var (dummyKey, nonce, next) := LoginDraws(cs, tape, pos);
            var record := file.GetOr(DummyRecord(cs, setup, dummyKey));
            var material := OprfKeyMaterial(cs, setup.oprfSeed, credentialId).value;
            var p := PrepareResponse(cs, setup, material, record, nonce, request, params);
            && nonce == Fill(tape, pos + cs.oprfHash.nh, NONCE_LEN)
            && record.clientSPk == (if file.Some? then file.value.clientSPk else setup.dummyPk)
            && (p.Ok? ==>
                  && EvaluatedFor(cs, setup.oprfSeed, credentialId, request.blinded, p.value.evaluation)
                  && p.value.maskingNonce == nonce
                  && var (key, envelope) := MaskedRecord(cs, tape, pos, file);
                     MaskSpec(cs.oprfHash, cs.group, key, nonce, setup.keypair.pk, envelope) == Ok(p.value.masked))
  {
    var (dummyKey, nonce, next) := LoginDraws(cs, tape, pos);
    var record := file.GetOr(DummyRecord(cs, setup, dummyKey));
    var material := OprfKeyMaterial(cs, setup.oprfSeed, credentialId).value;
    if PrepareResponse(cs, setup, material, record, nonce, request, params).Ok? {
      EvaluationIs(cs, setup.oprfSeed, credentialId, request.blinded);
    }
  }

  /**
   What a server's answer shows, with or without a record: the evaluation for the credential identifier, the masking
   nonce drawn behind the first bytes of the tape, and the masked record; a fake record is masked under those first
   bytes.
   */
  lemma StartShows(cs: Suite, tape: Tape, pos: nat, setup: ServerSetup, file: Option<RegistrationUpload>,
                   request: CredentialRequest, credentialId: Bytes, params: LoginParameters)
    requires cs.oprfHash.Lawful() && cs.kx.keHash.Lawful() && cs.oprf.Lawful() && FirstTyped(cs.kx, request.ke1)
    requires ServerLoginStart(cs, tape, pos, setup, file, request, credentialId, params).Ok?
    ensures var response := ServerLoginStart(cs, tape, pos, setup, file, request, credentialId, params).value.response;
            var (key, envelope) := MaskedRecord(cs, tape, pos, file);
            && EvaluatedFor(cs, setup.oprfSeed, credentialId, request.blinded, response.evaluation)
            && response.maskingNonce == Fill(tape, pos + cs.oprfHash.nh, NONCE_LEN)
            && MaskSpec(cs.oprfHash, cs.group, key, response.maskingNonce, setup.keypair.pk, envelope)
               == Ok(response.masked)
  {
    var (dummyKey, nonce, next) := LoginDraws(cs, tape, pos);
    var record := file.GetOr(DummyRecord(cs, setup, dummyKey));
    var material := OprfKeyMaterial(cs, setup.oprfSeed, credentialId).value;
    ServerStartIs(cs, tape, pos, setup, file, record, dummyKey, nonce, next, material, request, credentialId, params);
    PreparedShows(cs, tape, pos, setup, file, request, credentialId, params);
    var p := PrepareResponse(cs, setup, material, record, nonce, request, params).value;
    StartFromIsRun(cs, tape, next, p, record.clientSPk, setup.keypair.sk);
  }

  /** With the credentials recovered, the client's finish is its step of the key exchange. */
  lemma ClientFinishIsKe3(cs: Suite, state: ClientLogin, tape: Tape, pos: nat, password: Bytes,
                          response: CredentialResponse,
                          params: LoginParameters, ksf: Option<Ksf>, prk: Bytes, serverSPk: PublicKey,
                          credentials: Env.OpenedEnvelope, context: SerializedContext)
    requires cs.oprfHash.Lawful() && cs.kx.keHash.Lawful()
    requires FirstTyped(cs.kx, state.request.ke1) && ClientTyped(cs.kx, state.ke1State)
             && SecondTyped(cs.kx, response.ke2)
    requires state.request.blinded != response.evaluation
    requires PasswordDerivedKey(cs, password, state.blind, response.evaluation, ksf) == Ok(prk)
    requires RecoverCredentials(cs, prk, response.maskingNonce, response.masked, params.ids) ==
             Ok((serverSPk, credentials))
    requires ContextFrom(params.context) == Ok(context)
    ensures var inputs := ClientInputs(cs, context, credentials, state.request, response.ToParts(cs));
            var finish := ClientLoginFinish(cs, state, tape, pos, password, response, params, ksf);
            match GenerateKe3(cs, tape, pos, inputs, state.ke1State, response.ke2, serverSPk,
                              credentials.clientKeyPair.sk)
            case Ok((sessionKey, ke3)) => finish == Ok(LoginResult(ke3, sessionKey, credentials.exportKey, serverSPk))
            case Err(error) => finish == Err(error)
  {
  }

  /** The client's inputs, which do not depend on the key exchange's second message. */
  function ClientInputs(cs: Suite, context: SerializedContext, credentials: Env.OpenedEnvelope,
                        request: CredentialRequest, response: SerializedCredentialResponse): Inputs
  {
    Inputs(context, credentials.identifiers, request.ToParts(cs), request.ke1, response)
  }

  lemma LoginLaws(cs: Suite)
    requires cs.Lawful()
    ensures cs.oprfHash.Lawful() && cs.kx.keHash.Lawful() && cs.oprf.Lawful() && cs.group.Lawful()
    ensures cs.EphGroup().Lawful()
    ensures MaskedLen(cs.oprfHash, cs.group) <= 255 * cs.oprfHash.nh
    ensures ExchangeLawful(cs)
  {
  }

  /** The client derives the enrolment's randomized password again, and never sees a reflected element. */
  lemma SamePassword(cs: Suite, setup: ServerSetup, e: Enrolment, result: RegistrationResult, key: Scalar,
                     element: Elem, blind: Scalar, prk: Bytes, blind': Scalar, ksf: Option<Ksf>)
    requires cs.oprfHash.Lawful() && cs.oprf.Lawful()
    requires Enrolled(cs, setup, e, result, key, element, blind, prk)
    requires cs.oprf.validScalar(blind') && ksf.GetOr(cs.defaultKsf) == e.ksf.GetOr(cs.defaultKsf)
    ensures cs.oprf.mul(blind', element) != cs.oprf.mul(key, cs.oprf.mul(blind', element))
    ensures PasswordDerivedKey(cs, e.password, blind', cs.oprf.mul(key, cs.oprf.mul(blind', element)), ksf) == Ok(prk)
  {
    PasswordKeyIgnoresBlind(cs, e.password, key, blind, blind', element, e.ksf, ksf);
    if cs.oprf.mul(blind', element) == cs.oprf.mul(key, cs.oprf.mul(blind', element)) {
      ReflectionIsUniform(cs.oprf, key, blind, blind', element);
    }
  }

  /** Both sides feed the same inputs into the key exchange. */
  lemma InputsMatch(cs: Suite, setup: ServerSetup, e: Enrolment, result: RegistrationResult, key: Scalar,
                    request: CredentialRequest, nonce: Bytes, server: LoginParameters, client: LoginParameters,
                    p: Prepared, credentials: Env.OpenedEnvelope)
    requires cs.oprfHash.Lawful()
    requires client.context.GetOr([]) == server.context.GetOr([])
    requires PreparedFor(cs, setup, e, result, key, request, nonce, server, p)
    requires Recovered(cs, setup, e, result, credentials)
    ensures ContextFrom(client.context).Ok? && ContextFrom(client.context) == ContextFrom(server.context)
    ensures InputsAgree(p.inputs, ClientInputs(cs, ContextFrom(client.context).value, credentials, request,
                                               p.inputs.response))
  {
  }

  /** The second half of an honest login: server's answer, client's finish, server's finish. */
  ghost predicate Finishes(cs: Suite, setup: ServerSetup, file: RegistrationUpload, request: CredentialRequest,
                           state: ClientLogin, password: Bytes, credentialId: Bytes, s: Session, exportKey: Bytes)
    requires cs.oprfHash.Lawful() && cs.kx.keHash.Lawful()
    requires FirstTyped(cs.kx, request.ke1) && FirstTyped(cs.kx, state.request.ke1)
             && ClientTyped(cs.kx, state.ke1State)
  {
    var start := ServerLoginStart(cs, s.serverTape, s.serverPos, setup, Some(file), request, credentialId, s.server);
    && start.Ok?
    && var finish := ClientLoginFinish(cs, state, s.finishTape, s.finishPos, password, start.value.response, s.client,
                                       s.ksf);
       && finish.Ok?
       && ServerLoginFinish(cs, start.value.state, finish.value.ke3, s.finish) == Ok(finish.value.sessionKey)
       && finish.value.exportKey == exportKey
       && finish.value.serverSPk == setup.keypair.pk
  }

  /** From one completed run of the key exchange to the end of the login. */
  lemma FinishesFromRun(cs: Suite, setup: ServerSetup, file: RegistrationUpload, request: CredentialRequest,
                        state: ClientLogin, password: Bytes, credentialId: Bytes, s: Session, next: nat, p: Prepared,
                        prk: Bytes, credentials: Env.OpenedEnvelope)
    requires cs.oprfHash.Lawful() && cs.kx.keHash.Lawful()
    requires FirstTyped(cs.kx, request.ke1) && ClientTyped(cs.kx, state.ke1State) && state.request == request
    requires p.inputs.ke1 == request.ke1
    requires ServerLoginStart(cs, s.serverTape, s.serverPos, setup, Some(file), request, credentialId, s.server)
          == StartFrom(cs, s.serverTape, next, p, file.clientSPk, setup.keypair.sk)
    requires request.blinded != p.evaluation
    requires PasswordDerivedKey(cs, password, state.blind, p.evaluation, s.ksf) == Ok(prk)
    requires RecoverCredentials(cs, prk, p.maskingNonce, p.masked, s.client.ids) == Ok((setup.keypair.pk, credentials))
    requires p.inputs.response
          == SerializedCredentialResponse(cs.oprf.serializeElem(p.evaluation), p.maskingNonce, p.masked)
    requires ContextFrom(s.client.context).Ok? && ContextFrom(s.client.context) == ContextFrom(s.server.context)
    requires ContextFrom(s.finish.context) == ContextFrom(s.server.context)
    requires p.inputs.context == ContextFrom(s.server.context).value
    requires credentials.clientKeyPair.pk == file.clientSPk
    requires var inputs := ClientInputs(cs, ContextFrom(s.client.context).value, credentials, request,
                                        p.inputs.response);
             Completes(cs, s.serverTape, next, p.inputs, inputs, credentials.clientKeyPair, setup.keypair,
                       state.ke1State, s.finishTape, s.finishPos, s.finish.ids)
    ensures Finishes(cs, setup, file, request, state, password, credentialId, s, credentials.exportKey)
  {
    var context := ContextFrom(s.client.context).value;
    StartFromIsRun(cs, s.serverTape, next, p, file.clientSPk, setup.keypair.sk);
    var (ke2State, ke2, _) := RunKe2(cs, s.serverTape, next, p.inputs, file.clientSPk, setup.keypair.sk).value;
    var response := CredentialResponse(p.evaluation, p.maskingNonce, p.masked, ke2);
    ClientFinishIsKe3(cs, state, s.finishTape, s.finishPos, password, response, s.client, s.ksf, prk, setup.keypair.pk,
                      credentials, context);
  }

  /** With both draws deriving keys, the login of a registered client finishes. */
  lemma HonestLogin(cs: Suite, setup: ServerSetup, e: Enrolment, s: Session)
    requires cs.Lawful() && cs.oprfHash.Lawful() && cs.kx.keHash.Lawful() && setup.WellFormed(cs)
    requires Register(cs, setup, e).Ok?
    requires Matches(cs, setup, e, Register(cs, setup, e).value.upload.clientSPk, s)
    requires ClientDraws(cs, s) && ServerDraws(cs, s)
    ensures Register(cs, setup, e).value.serverSPk == setup.keypair.pk
    ensures ClientLoginStart(cs, s.clientTape, s.clientPos, e.password).Ok?
    ensures var (request, state, _) := ClientLoginStart(cs, s.clientTape, s.clientPos, e.password).value;
            var result := Register(cs, setup, e).value;
            Finishes(cs, setup, result.upload, request, state, e.password, e.credentialId, s, result.exportKey)
  {
    LoginLaws(cs);
    var key, element, blind, prk := RegistrationFacts(cs, setup, e);
    ClientStarts(cs, s, e.password, element);
    var (request, state, _) := ClientLoginStart(cs, s.clientTape, s.clientPos, e.password).value;
    LoginFinishes(cs, setup, e, Register(cs, setup, e).value, key, element, blind, prk, s, request, state);
  }

  /** Without them it panics. */
  lemma UndrawnLogin(cs: Suite, setup: ServerSetup, e: Enrolment, s: Session)
    requires cs.Lawful() && cs.oprfHash.Lawful() && cs.kx.keHash.Lawful() && setup.WellFormed(cs)
    requires Register(cs, setup, e).Ok?
    requires Matches(cs, setup, e, Register(cs, setup, e).value.upload.clientSPk, s)
    requires !(ClientDraws(cs, s) && ServerDraws(cs, s))
    ensures Login(cs, setup, Register(cs, setup, e).value.upload, e.password, e.credentialId, s) == Err(Panic)
  {
    LoginLaws(cs);
    var key, element, blind, prk := RegistrationFacts(cs, setup, e);
    LoginStarts(cs, setup, e, s, e.password);
  }

  /**
   Completeness, for every key exchange and all tapes: once a registration finished, every login with the same
   password, stretching function, context and identifiers in force succeeds on both sides, with equal session keys,
   the export key of the registration and the server's public key, and is never rejected as reflected. It succeeds if
   and only if both sides' draws derive an ephemeral key; otherwise it is the panic of the draw that does not.
   */
  lemma LoginCompletes(cs: Suite, setup: ServerSetup, e: Enrolment, s: Session)
    requires cs.Lawful() && cs.oprfHash.Lawful() && cs.kx.keHash.Lawful() && setup.WellFormed(cs)
    requires Register(cs, setup, e).Ok?
    requires Matches(cs, setup, e, Register(cs, setup, e).value.upload.clientSPk, s)
    ensures var result := Register(cs, setup, e).value;
            var login := Login(cs, setup, result.upload, e.password, e.credentialId, s);
            if ClientDraws(cs, s) && ServerDraws(cs, s) then
              && login.Ok?
              && login.value.clientKey == login.value.serverKey
              && login.value.exportKey == result.exportKey
              && login.value.serverSPk == result.serverSPk == setup.keypair.pk
            else login == Err(Panic)
  {
    if ClientDraws(cs, s) && ServerDraws(cs, s) {
      HonestLogin(cs, setup, e, s);
    } else {
      UndrawnLogin(cs, setup, e, s);
    }
  }

  /** When the server's draw derives no key its start panics. */
  lemma ServerPanics(cs: Suite, setup: ServerSetup, e: Enrolment, result: RegistrationResult, key: Scalar,
                     element: Elem, blind: Scalar, prk: Bytes, s: Session, request: CredentialRequest)
    requires cs.oprfHash.Lawful() && cs.kx.keHash.Lawful() && cs.group.Lawful() && cs.oprf.Lawful()
    requires MaskedLen(cs.oprfHash, cs.group) <= 255 * cs.oprfHash.nh
    requires Enrolled(cs, setup, e, result, key, element, blind, prk)
    requires Matches(cs, setup, e, result.upload.clientSPk, s)
    requires FirstTyped(cs.kx, request.ke1) && !ServerDraws(cs, s)
    ensures ServerLoginStart(cs, s.serverTape, s.serverPos, setup, Some(result.upload), request, e.credentialId,
                             s.server)
         == Err(Panic)
  {
    var (dummyKey, nonce, next) := LoginDraws(cs, s.serverTape, s.serverPos);
    var material := OprfKeyMaterial(cs, setup.oprfSeed, e.credentialId).value;
    ServerPrepares(cs, setup, e, result, key, element, blind, prk, request, nonce, s.server);
    var p := PrepareResponse(cs, setup, material, result.upload, nonce, request, s.server).value;
    ServerStartIs(cs, s.serverTape, s.serverPos, setup, Some(result.upload), result.upload, dummyKey, nonce, next,
                  material, request, e.credentialId, s.server);
    StartFromIsRun(cs, s.serverTape, next, p, result.upload.clientSPk, setup.keypair.sk);
    RunPanics(cs, s.serverTape, next, p.inputs, result.upload.clientSPk, setup.keypair.sk);
  }

  /** When it derives one, the start succeeds for every request with a KEM key the server can read. */
  lemma ServerStarts(cs: Suite, setup: ServerSetup, e: Enrolment, result: RegistrationResult, key: Scalar,
                     element: Elem, blind: Scalar, prk: Bytes, s: Session, request: CredentialRequest)
    requires cs.oprfHash.Lawful() && cs.kx.keHash.Lawful() && cs.group.Lawful() && cs.oprf.Lawful()
    requires MaskedLen(cs.oprfHash, cs.group) <= 255 * cs.oprfHash.nh
    requires Enrolled(cs, setup, e, result, key, element, blind, prk)
    requires Matches(cs, setup, e, result.upload.clientSPk, s)
    requires FirstTyped(cs.kx, request.ke1) && KemKeyParses(cs, request.ke1) && ServerDraws(cs, s)
    ensures ServerLoginStart(cs, s.serverTape, s.serverPos, setup, Some(result.upload), request, e.credentialId,
                             s.server).Ok?
  {
    var (dummyKey, nonce, next) := LoginDraws(cs, s.serverTape, s.serverPos);
    var material := OprfKeyMaterial(cs, setup.oprfSeed, e.credentialId).value;
    ServerPrepares(cs, setup, e, result, key, element, blind, prk, request, nonce, s.server);
    var p := PrepareResponse(cs, setup, material, result.upload, nonce, request, s.server).value;
    ServerStartIs(cs, s.serverTape, s.serverPos, setup, Some(result.upload), result.upload, dummyKey, nonce, next,
                  material, request, e.credentialId, s.server);
    StartFromIsRun(cs, s.serverTape, next, p, result.upload.clientSPk, setup.keypair.sk);
    RunSucceeds(cs, s.serverTape, next, p.inputs, result.upload.clientSPk, setup.keypair.sk);
  }

  /** The first steps of both sides, under any password, for a registered client. */
  lemma LoginStarts(cs: Suite, setup: ServerSetup, e: Enrolment, s: Session, password: Bytes)
    requires cs.Lawful() && cs.oprfHash.Lawful() && cs.kx.keHash.Lawful()
    requires Register(cs, setup, e).Ok?
    requires Matches(cs, setup, e, Register(cs, setup, e).value.upload.clientSPk, s)
    requires cs.oprf.hashToGroup(password).Some?
    ensures var upload := Register(cs, setup, e).value.upload;
            var first := ClientLoginStart(cs, s.clientTape, s.clientPos, password);
            if !ClientDraws(cs, s) then first == Err(Panic)
            else
              && first.Ok?
              && var start := ServerLoginStart(cs, s.serverTape, s.serverPos, setup, Some(upload), first.value.0,
                                               e.credentialId, s.server);
                 if ServerDraws(cs, s) then start.Ok? else start == Err(Panic)
  {
    LoginLaws(cs);
    ClientStarts(cs, s, password, cs.oprf.hashToGroup(password).value);
    if ClientDraws(cs, s) {
      var key, element, blind, prk := RegistrationFacts(cs, setup, e);
      var request := ClientLoginStart(cs, s.clientTape, s.clientPos, password).value.0;
      var result := Register(cs, setup, e).value;
      GeneratedKemKeyParses(cs, s.clientTape, cs.oprf.sampleScalar(s.clientTape, s.clientPos).1);
      if ServerDraws(cs, s) {
        ServerStarts(cs, setup, e, result, key, element, blind, prk, s, request);
      } else {
        ServerPanics(cs, setup, e, result, key, element, blind, prk, s, request);
      }
    }
  }

  /** The key exchange inside the login completes. */
  lemma LoginExchange(cs: Suite, setup: ServerSetup, e: Enrolment, result: RegistrationResult, key: Scalar, s: Session,
                      request: CredentialRequest, state: ClientState, nonce: Bytes, next: nat, p: Prepared,
                      credentials: Env.OpenedEnvelope)
    requires cs.oprfHash.Lawful() && ExchangeLawful(cs) && setup.keypair.Matching(cs.group)
    requires Matches(cs, setup, e, result.upload.clientSPk, s) && Ephemeral(cs.EphGroup(), s.serverTape, next).Ok?
    requires FirstTyped(cs.kx, request.ke1) && ClientTyped(cs.kx, state)
    requires var start := KeyExchanges.GenerateKe1(cs, s.clientTape, cs.oprf.sampleScalar(s.clientTape, s.clientPos).1);
             start.Ok? && start.value.0 == state && start.value.1 == request.ke1
    requires PreparedFor(cs, setup, e, result, key, request, nonce, s.server, p)
    requires Recovered(cs, setup, e, result, credentials)
    ensures ContextFrom(s.client.context).Ok? && ContextFrom(s.client.context) == ContextFrom(s.server.context)
    ensures FirstTyped(cs.kx, p.inputs.ke1)
    ensures Completes(cs, s.serverTape, next, p.inputs,
                      ClientInputs(cs, ContextFrom(s.client.context).value, credentials, request, p.inputs.response),
                      credentials.clientKeyPair, setup.keypair, state, s.finishTape, s.finishPos, s.finish.ids)
  {
    InputsMatch(cs, setup, e, result, key, request, nonce, s.server, s.client, p, credentials);
    var inputs := ClientInputs(cs, ContextFrom(s.client.context).value, credentials, request, p.inputs.response);
    ExchangeCompletes(cs, s.serverTape, next, p.inputs, inputs, credentials.clientKeyPair, setup.keypair, s.clientTape,
                      cs.oprf.sampleScalar(s.clientTape, s.clientPos).1, s.finishTape, s.finishPos, s.finish.ids);
  }

  /** The response prepared for a registered client, and what the client derives and recovers from it. */
  ghost predicate Recovers(cs: Suite, setup: ServerSetup, e: Enrolment, result: RegistrationResult, key: Scalar,
                           s: Session, request: CredentialRequest, blind: Scalar, nonce: Bytes, p: Prepared, prk: Bytes,
                           credentials: Env.OpenedEnvelope)
    requires cs.oprfHash.Lawful()
  {
    && OprfKeyMaterial(cs, setup.oprfSeed, e.credentialId).Ok?
    && PrepareResponse(cs, setup, OprfKeyMaterial(cs, setup.oprfSeed, e.credentialId).value, result.upload, nonce,
                       request, s.server) == Ok(p)
    && PreparedFor(cs, setup, e, result, key, request, nonce, s.server, p)
    && request.blinded != p.evaluation
    && PasswordDerivedKey(cs, e.password, blind, p.evaluation, s.ksf) == Ok(prk)
    && RecoverCredentials(cs, prk, p.maskingNonce, p.masked, s.client.ids) == Ok((setup.keypair.pk, credentials))
    && Recovered(cs, setup, e, result, credentials)
  }

  /** From an honest response the client derives its password key again and recovers its credentials. */
  lemma LoginRecovers(cs: Suite, setup: ServerSetup, e: Enrolment, result: RegistrationResult, key: Scalar,
                      element: Elem, blind: Scalar, prk: Bytes, s: Session, request: CredentialRequest, blind': Scalar,
                      nonce: Bytes)
    returns (p: Prepared, credentials: Env.OpenedEnvelope)
    requires cs.oprfHash.Lawful() && cs.group.Lawful() && cs.oprf.Lawful()
    requires MaskedLen(cs.oprfHash, cs.group) <= 255 * cs.oprfHash.nh
    requires setup.WellFormed(cs) && Enrolled(cs, setup, e, result, key, element, blind, prk)
    requires Matches(cs, setup, e, result.upload.clientSPk, s)
    requires cs.oprf.validScalar(blind') && request.blinded == cs.oprf.mul(blind', element)
    ensures Recovers(cs, setup, e, result, key, s, request, blind', nonce, p, prk, credentials)
  {
    var material := OprfKeyMaterial(cs, setup.oprfSeed, e.credentialId).value;
    ServerPrepares(cs, setup, e, result, key, element, blind, prk, request, nonce, s.server);
    p := PrepareResponse(cs, setup, material, result.upload, nonce, request, s.server).value;
    SamePassword(cs, setup, e, result, key, element, blind, prk, blind', s.ksf);
    ClientRecovers(cs, setup, e, result, prk, Fill(e.finishTape, e.finishPos, NONCE_LEN), nonce, p.masked,
                   s.client.ids);
    credentials := RecoverCredentials(cs, prk, p.maskingNonce, p.masked, s.client.ids).value.1;
  }

  lemma LoginFinishes(cs: Suite, setup: ServerSetup, e: Enrolment, result: RegistrationResult, key: Scalar,
                      element: Elem,
                      blind: Scalar, prk: Bytes, s: Session, request: CredentialRequest, state: ClientLogin)
    requires cs.oprfHash.Lawful() && cs.oprf.Lawful() && ExchangeLawful(cs)
    requires MaskedLen(cs.oprfHash, cs.group) <= 255 * cs.oprfHash.nh
    requires setup.WellFormed(cs) && Enrolled(cs, setup, e, result, key, element, blind, prk)
    requires Matches(cs, setup, e, result.upload.clientSPk, s) && ServerDraws(cs, s)
    requires FirstTyped(cs.kx, request.ke1) && ClientTyped(cs.kx, state.ke1State) && state.request == request
    requires cs.oprf.validScalar(state.blind) && request.blinded == cs.oprf.mul(state.blind, element)
    requires var start := KeyExchanges.GenerateKe1(cs, s.clientTape, cs.oprf.sampleScalar(s.clientTape, s.clientPos).1);
             start.Ok? && start.value.0 == state.ke1State && start.value.1 == request.ke1
    ensures Finishes(cs, setup, result.upload, request, state, e.password, e.credentialId, s, result.exportKey)
  {
    var (dummyKey, nonce, next) := LoginDraws(cs, s.serverTape, s.serverPos);
    var p, credentials := LoginRecovers(cs, setup, e, result, key, element, blind, prk, s, request, state.blind, nonce);
    FinishesRecovered(cs, setup, e, result, key, s, request, state, dummyKey, nonce, next, p, prk, credentials);
  }

  /** With the credentials recovered, the exchange completes and so does the login. */
  lemma FinishesRecovered(cs: Suite, setup: ServerSetup, e: Enrolment, result: RegistrationResult, key: Scalar,
                          s: Session, request: CredentialRequest, state: ClientLogin, dummyKey: Bytes, nonce: Bytes,
                          next: nat, p: Prepared, prk: Bytes, credentials: Env.OpenedEnvelope)
    requires cs.oprfHash.Lawful() && ExchangeLawful(cs) && setup.keypair.Matching(cs.group)
    requires Matches(cs, setup, e, result.upload.clientSPk, s) && Ephemeral(cs.EphGroup(), s.serverTape, next).Ok?
    requires FirstTyped(cs.kx, request.ke1) && ClientTyped(cs.kx, state.ke1State) && state.request == request
    requires LoginDraws(cs, s.serverTape, s.serverPos) == (dummyKey, nonce, next)
    requires var start := KeyExchanges.GenerateKe1(cs, s.clientTape, cs.oprf.sampleScalar(s.clientTape, s.clientPos).1);
             start.Ok? && start.value.0 == state.ke1State && start.value.1 == request.ke1
    requires Recovers(cs, setup, e, result, key, s, request, state.blind, nonce, p, prk, credentials)
    ensures Finishes(cs, setup, result.upload, request, state, e.password, e.credentialId, s, result.exportKey)
  {
    LoginExchange(cs, setup, e, result, key, s, request, state.ke1State, nonce, next, p, credentials);
    AssembleLogin(cs, setup, e, result, key, s, request, state, dummyKey, nonce, next, p, prk, credentials);
  }

  /** From the parts of an honest login to its outcome. */
  lemma AssembleLogin(cs: Suite, setup: ServerSetup, e: Enrolment, result: RegistrationResult, key: Scalar, s: Session,
                      request: CredentialRequest, state: ClientLogin, dummyKey: Bytes, nonce: Bytes, next: nat,
                      p: Prepared, prk: Bytes, credentials: Env.OpenedEnvelope)
    requires cs.oprfHash.Lawful() && cs.kx.keHash.Lawful()
    requires FirstTyped(cs.kx, request.ke1) && ClientTyped(cs.kx, state.ke1State) && state.request == request
    requires LoginDraws(cs, s.serverTape, s.serverPos) == (dummyKey, nonce, next)
    requires Recovers(cs, setup, e, result, key, s, request, state.blind, nonce, p, prk, credentials)
    requires ContextFrom(s.client.context).Ok? && ContextFrom(s.client.context) == ContextFrom(s.server.context)
    requires s.finish.context.GetOr([]) == s.server.context.GetOr([])
    requires Completes(cs, s.serverTape, next, p.inputs,
                       ClientInputs(cs, ContextFrom(s.client.context).value, credentials, request, p.inputs.response),
                       credentials.clientKeyPair, setup.keypair, state.ke1State, s.finishTape, s.finishPos,
                       s.finish.ids)
    ensures Finishes(cs, setup, result.upload, request, state, e.password, e.credentialId, s, result.exportKey)
  {
    var material := OprfKeyMaterial(cs, setup.oprfSeed, e.credentialId).value;
    ServerStartIs(cs, s.serverTape, s.serverPos, setup, Some(result.upload), result.upload, dummyKey, nonce, next,
                  material, request, e.credentialId, s.server);
    FinishesFromRun(cs, setup, result.upload, request, state, e.password, e.credentialId, s, next, p, prk, credentials);
  }
}
