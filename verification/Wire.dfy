/** Registration and login with every message sent, and every state kept, as bytes. */
module Wire {
  import opened Errors
  import opened Serialization
  import opened Primitives
  import opened Identifiers
  import opened Masking
  import opened KeyExchanges
  import opened Messages
  import opened Opaque
  import opened EndToEnd
  import opened Wellformedness
  import Env = Envelope

  // ---------------------------------------------------------------------
  // Everything honest steps produce is well-formed
  // ---------------------------------------------------------------------

  /** The server prepares well-formed inputs for its key exchange. */
  lemma PreparedWellFormed(cs: Suite, setup: ServerSetup, material: Bytes, record: RegistrationUpload, nonce: Bytes,
                           request: CredentialRequest, params: LoginParameters)
    requires cs.oprfHash.Lawful() && cs.oprf.Lawful() && |nonce| == NONCE_LEN
    requires request.WellFormed(cs) && cs.group.validPk(record.clientSPk) && cs.group.validSk(setup.keypair.sk)
    requires PrepareResponse(cs, setup, material, record, nonce, request, params).Ok?
    ensures var p := PrepareResponse(cs, setup, material, record, nonce, request, params).value;
            && RunInputs(cs, p.inputs, record.clientSPk, setup.keypair.sk)
            && cs.oprf.validElem(p.evaluation) && p.maskingNonce == nonce
            && p.masked.Sized(cs.oprfHash.nh, cs.group.npk)
  {
    MaskOk(cs.oprfHash, cs.group, record.maskingKey, nonce, setup.keypair.pk, record.envelope);
    EvaluationValid(cs.oprf, material, request.blinded);
  }

  /** The server's response and state survive their encodings. */
  lemma StartedWellFormed(cs: Suite, tape: Tape, pos: nat, setup: ServerSetup, file: Option<RegistrationUpload>,
                          request: CredentialRequest, credentialId: Bytes, params: LoginParameters)
    requires cs.Lawful() && setup.WellFormed(cs) && request.WellFormed(cs)
    requires file.Some? ==> cs.group.validPk(file.value.clientSPk)
    requires cs.oprfHash.Lawful() && cs.kx.keHash.Lawful()
    requires ServerLoginStart(cs, tape, pos, setup, file, request, credentialId, params).Ok?
    ensures var start := ServerLoginStart(cs, tape, pos, setup, file, request, credentialId, params).value;
            start.response.WellFormed(cs) && ServerStateWellFormed(cs, start.state)
  {
    LoginLaws(cs);
    var (dummyKey, nonce, next) := LoginDraws(cs, tape, pos);
    var material := OprfKeyMaterial(cs, setup.oprfSeed, credentialId).value;
    var record := file.GetOr(DummyRecord(cs, setup, dummyKey));
    ServerStartIs(cs, tape, pos, setup, file, record, dummyKey, nonce, next, material, request, credentialId, params);
    PreparedWellFormed(cs, setup, material, record, nonce, request, params);
    var p := PrepareResponse(cs, setup, material, record, nonce, request, params).value;
    RunWellFormed(cs, tape, next, p.inputs, record.clientSPk, setup.keypair.sk);
    StartFromIsRun(cs, tape, next, p, record.clientSPk, setup.keypair.sk);
  }

  /** Recovered private keys are valid. */
  lemma RecoveredValid(cs: Suite, prk: Bytes, nonce: Bytes, masked: MaskedResponse, ids: Ids)
    requires cs.oprfHash.Lawful() && cs.group.LawfulKeys()
    requires RecoverCredentials(cs, prk, nonce, masked, ids).Ok?
    ensures cs.group.validSk(RecoverCredentials(cs, prk, nonce, masked, ids).value.1.clientKeyPair.sk)
  {
  }

  /** The client's last message survives its encoding. */
  lemma FinishedWellFormed(cs: Suite, state: ClientLogin, tape: Tape, pos: nat, password: Bytes,
                           response: CredentialResponse, params: LoginParameters, ksf: Option<Ksf>)
    requires cs.Lawful()
    requires cs.oprfHash.Lawful() && cs.kx.keHash.Lawful()
    requires FirstTyped(cs.kx, state.request.ke1) && ClientTyped(cs.kx, state.ke1State)
             && SecondTyped(cs.kx, response.ke2)
    requires ClientLoginFinish(cs, state, tape, pos, password, response, params, ksf).Ok?
    ensures var result := ClientLoginFinish(cs, state, tape, pos, password, response, params, ksf).value;
            ThirdWellFormed(cs, result.ke3) && |result.sessionKey| == cs.kx.keHash.nh
  {
    var prk := PasswordDerivedKey(cs, password, state.blind, response.evaluation, ksf).value;
    var (serverSPk, credentials) := RecoverCredentials(cs, prk, response.maskingNonce, response.masked,
                                                       params.ids).value;
    var context := ContextFrom(params.context).value;
    RecoveredValid(cs, prk, response.maskingNonce, response.masked, params.ids);
    ClientFinishIsKe3(cs, state, tape, pos, password, response, params, ksf, prk, serverSPk, credentials, context);
    Ke3WellFormed(cs, tape, pos, ClientInputs(cs, context, credentials, state.request, response.ToParts(cs)),
                  state.ke1State, response.ke2, serverSPk, credentials.clientKeyPair.sk);
  }

  // ---------------------------------------------------------------------
  // Registration
  // ---------------------------------------------------------------------

  /** The registration between two processes that keep only bytes; the stored record comes last. */
  function RegisterOverWire(cs: Suite, setupBytes: Bytes, e: Enrolment): Result<(RegistrationResult, Bytes)>
    requires cs.oprfHash.Lawful()
  {
    var (request, state, _) :- ClientRegistrationStart(cs, e.startTape, e.startPos, e.password);
    var (setup, _) :- DeserializeSetup(cs, setupBytes);
    var request :- DeserializeRegistrationRequest(cs, SerializeRegistrationRequest(cs, request));
    var response :- ServerRegistrationStart(cs, setup, request, e.credentialId);
    var state :- DeserializeClientRegistration(cs, SerializeClientRegistration(cs, state));
    var response :- DeserializeRegistrationResponse(cs, SerializeRegistrationResponse(cs, response));
    var result :- ClientRegistrationFinish(cs, state, e.finishTape, e.finishPos, e.password, response, e.ids, e.ksf);
    var upload :- DeserializeUpload(cs, SerializeUpload(cs, result.upload));
    Ok((result, SerializeUpload(cs, upload)))
  }

  /** A finished registration leaves a well-formed record in internal mode. */
  lemma UploadWellFormed(cs: Suite, state: ClientRegistration, tape: Tape, pos: nat, password: Bytes,
                         response: RegistrationResponse, ids: Ids, ksf: Option<Ksf>)
    requires cs.oprfHash.Lawful() && cs.group.LawfulKeys()
    requires ClientRegistrationFinish(cs, state, tape, pos, password, response, ids, ksf).Ok?
    ensures var upload := ClientRegistrationFinish(cs, state, tape, pos, password, response, ids, ksf).value.upload;
            upload.WellFormed(cs) && upload.envelope.mode == Env.Internal
  {
    var prk := PasswordDerivedKey(cs, password, state.blind, response.evaluation, ksf).value;
    Env.SealShape(cs.oprfHash, cs.group, Fill(tape, pos, NONCE_LEN), prk, response.serverSPk, ids);
  }

  /** A record in internal mode comes back from its bytes. */
  lemma UploadSurvives(cs: Suite, upload: RegistrationUpload)
    requires cs.group.Lawful() && upload.WellFormed(cs) && upload.envelope.mode == Env.Internal
    ensures DeserializeUpload(cs, SerializeUpload(cs, upload)) == Ok(upload)
  {
    UploadCodec(cs, upload, [], []);
    assert SerializeUpload(cs, upload) + [] == SerializeUpload(cs, upload);
  }

  /** What a finished registration uploads is well-formed and internal, and its export key has hash length. */
  lemma RegisteredUpload(cs: Suite, setup: ServerSetup, e: Enrolment)
    requires cs.oprfHash.Lawful() && cs.group.LawfulKeys() && Register(cs, setup, e).Ok?
    ensures var result := Register(cs, setup, e).value;
            && result.upload.WellFormed(cs) && result.upload.envelope.mode == Env.Internal
            && |result.exportKey| == cs.oprfHash.nh
  {
    var (request, state, _) := ClientRegistrationStart(cs, e.startTape, e.startPos, e.password).value;
    var response := ServerRegistrationStart(cs, setup, request, e.credentialId).value;
    UploadWellFormed(cs, state, e.finishTape, e.finishPos, e.password, response, e.ids, e.ksf);
    var prk := PasswordDerivedKey(cs, e.password, state.blind, response.evaluation, e.ksf).value;
    Env.SealShape(cs.oprfHash, cs.group, Fill(e.finishTape, e.finishPos, NONCE_LEN), prk, response.serverSPk, e.ids);
  }

  /** The registration messages survive their encodings. */
  lemma RegistrationWire(cs: Suite, setup: ServerSetup, e: Enrolment)
    requires cs.oprfHash.Lawful() && cs.oprf.Lawful() && cs.group.Lawful() && setup.WellFormed(cs)
    requires ClientRegistrationStart(cs, e.startTape, e.startPos, e.password).Ok?
    ensures var (request, state, _) := ClientRegistrationStart(cs, e.startTape, e.startPos, e.password).value;
            && DeserializeRegistrationRequest(cs, SerializeRegistrationRequest(cs, request)) == Ok(request)
            && DeserializeClientRegistration(cs, SerializeClientRegistration(cs, state)) == Ok(state)
            && var response := ServerRegistrationStart(cs, setup, request, e.credentialId);
               response.Ok? ==>
                 DeserializeRegistrationResponse(cs, SerializeRegistrationResponse(cs, response.value)) == response
  {
    var (request, state, _) := ClientRegistrationStart(cs, e.startTape, e.startPos, e.password).value;
    var response := ServerRegistrationStart(cs, setup, request, e.credentialId);
    RegistrationRequestCodec(cs, request, [], []);
    assert SerializeRegistrationRequest(cs, request) + [] == SerializeRegistrationRequest(cs, request);
    ClientRegistrationCodec(cs, state, [], []);
    assert SerializeClientRegistration(cs, state) + [] == SerializeClientRegistration(cs, state);
    if response.Ok? {
      EvaluationValid(cs.oprf, OprfKeyMaterial(cs, setup.oprfSeed, e.credentialId).value, request.blinded);
      RegistrationResponseCodec(cs, response.value, [], []);
      assert SerializeRegistrationResponse(cs, response.value) + [] ==
             SerializeRegistrationResponse(cs, response.value);
    }
  }

  /** Sending everything as bytes changes nothing about a registration, whether it succeeds or fails. */
  lemma RegistrationSurvivesWire(cs: Suite, setup: ServerSetup, e: Enrolment)
    requires cs.oprfHash.Lawful() && cs.oprf.Lawful() && cs.group.Lawful() && setup.WellFormed(cs)
    ensures match Register(cs, setup, e)
            case Ok(result) => RegisterOverWire(cs, SerializeSetup(cs, setup), e) ==
              Ok((result, SerializeUpload(cs, result.upload)))
            case Err(error) => RegisterOverWire(cs, SerializeSetup(cs, setup), e) == Err(error)
  {
    SetupCodec(cs, setup, [], []);
    assert SerializeSetup(cs, setup) + [] == SerializeSetup(cs, setup);
    if ClientRegistrationStart(cs, e.startTape, e.startPos, e.password).Ok? {
      RegistrationWire(cs, setup, e);
      var (request, state, _) := ClientRegistrationStart(cs, e.startTape, e.startPos, e.password).value;
      var response := ServerRegistrationStart(cs, setup, request, e.credentialId);
      if response.Ok? {
        var result := ClientRegistrationFinish(cs, state, e.finishTape, e.finishPos, e.password, response.value, e.ids,
                                               e.ksf);
        if result.Ok? {
          UploadWellFormed(cs, state, e.finishTape, e.finishPos, e.password, response.value, e.ids, e.ksf);
          UploadSurvives(cs, result.value.upload);
        }
      }
    }
  }

  // ---------------------------------------------------------------------
  // Login
  // ---------------------------------------------------------------------

  /** The rest of a login after the server's answer. */
  function FinishDirectly(cs: Suite, state: ClientLogin, start: ServerStart, password: Bytes, s: Session)
    : Result<Outcome>
    requires cs.oprfHash.Lawful() && cs.kx.keHash.Lawful()
    requires FirstTyped(cs.kx, state.request.ke1) && ClientTyped(cs.kx, state.ke1State)
    requires SecondTyped(cs.kx, start.response.ke2) && ServerTyped(cs.kx, start.state)
  {
    var result :- ClientLoginFinish(cs, state, s.finishTape, s.finishPos, password, start.response, s.client, s.ksf);
    var serverKey :- ServerLoginFinish(cs, start.state, result.ke3, s.finish);
    Ok(Outcome(result.sessionKey, serverKey, result.exportKey, result.serverSPk))
  }

  /** The same with both states stored and both messages sent as bytes. */
  function FinishOverWire(cs: Suite, state: ClientLogin, start: ServerStart, password: Bytes, s: Session)
    : Result<Outcome>
    requires cs.oprfHash.Lawful() && cs.kx.keHash.Lawful()
    requires ClientTyped(cs.kx, state.ke1State) && SecondTyped(cs.kx, start.response.ke2)
  {
    var (kept, _) :- DeserializeClientLogin(cs, SerializeClientLogin(cs, state));
    var (response, _) :- TakeCredentialResponse(cs, SerializeCredentialResponse(cs, start.response));
    var result :- ClientLoginFinish(cs, kept, s.finishTape, s.finishPos, password, response, s.client, s.ksf);
    var (stored, _) :- TakeServerState(cs, SerializeServerState(cs, start.state));
    var (ke3, _) :- TakeThird(cs, SerializeThird(cs, result.ke3));
    var serverKey :- ServerLoginFinish(cs, stored, ke3, s.finish);
    Ok(Outcome(result.sessionKey, serverKey, result.exportKey, result.serverSPk))
  }

  /** The login between two processes that keep only bytes. */
  function LoginOverWire(cs: Suite, setupBytes: Bytes, fileBytes: Bytes, password: Bytes, credentialId: Bytes,
                         s: Session)
    : Result<Outcome>
    requires cs.oprfHash.Lawful() && cs.kx.keHash.Lawful()
  {
    var (request, state, _) :- ClientLoginStart(cs, s.clientTape, s.clientPos, password);
    var (setup, _) :- DeserializeSetup(cs, setupBytes);
    var file :- DeserializeUpload(cs, fileBytes);
    var (received, _) :- TakeCredentialRequest(cs, SerializeCredentialRequest(cs, request));
    var start :- ServerLoginStart(cs, s.serverTape, s.serverPos, setup, Some(file), received, credentialId, s.server);
    FinishOverWire(cs, state, start, password, s)
  }

  /** The stored setup and record come back from their bytes. */
  lemma StoredSurvives(cs: Suite, setup: ServerSetup, file: RegistrationUpload)
    requires cs.group.Lawful() && setup.WellFormed(cs) && file.WellFormed(cs) && file.envelope.mode == Env.Internal
    ensures DeserializeSetup(cs, SerializeSetup(cs, setup)) == Ok((setup, []))
    ensures DeserializeUpload(cs, SerializeUpload(cs, file)) == Ok(file)
  {
    SetupCodec(cs, setup, [], []);
    assert SerializeSetup(cs, setup) + [] == SerializeSetup(cs, setup);
    UploadSurvives(cs, file);
  }

  /** The request and the client's state survive their encodings. */
  lemma RequestSurvives(cs: Suite, request: CredentialRequest, state: ClientLogin)
    requires cs.oprf.LawfulEncodings() && cs.EphGroup().Lawful() && (cs.kx.TripleDhKem? ==> cs.kx.kem.Lawful())
    requires request.WellFormed(cs) && state.WellFormed(cs)
    ensures TakeCredentialRequest(cs, SerializeCredentialRequest(cs, request)) == Ok((request, []))
    ensures DeserializeClientLogin(cs, SerializeClientLogin(cs, state)) == Ok((state, []))
  {
    CredentialRequestCodec(cs, request, [], []);
    assert SerializeCredentialRequest(cs, request) + [] == SerializeCredentialRequest(cs, request);
    ClientLoginCodec(cs, state, [], []);
    assert SerializeClientLogin(cs, state) + [] == SerializeClientLogin(cs, state);
  }

  /** The response, the server's state and the finalization survive their encodings. */
  lemma AnswerSurvives(cs: Suite, response: CredentialResponse, state: ServerState)
    requires cs.oprf.LawfulEncodings() && cs.group.Lawful() && cs.EphGroup().Lawful()
    requires cs.kx.SigmaI? ==> cs.kx.sig.Lawful(cs.group)
    requires response.WellFormed(cs) && ServerStateWellFormed(cs, state)
    ensures TakeCredentialResponse(cs, SerializeCredentialResponse(cs, response)) == Ok((response, []))
    ensures TakeServerState(cs, SerializeServerState(cs, state)) == Ok((state, []))
  {
    CredentialResponseCodec(cs, response, [], []);
    assert SerializeCredentialResponse(cs, response) + [] == SerializeCredentialResponse(cs, response);
    ServerStateCodec(cs, state, [], []);
    assert SerializeServerState(cs, state) + [] == SerializeServerState(cs, state);
  }

  lemma FinalizationSurvives(cs: Suite, ke3: ThirdMessage)
    requires cs.kx.SigmaI? ==> cs.kx.sig.Lawful(cs.group)
    requires ThirdWellFormed(cs, ke3)
    ensures TakeThird(cs, SerializeThird(cs, ke3)) == Ok((ke3, []))
  {
    ThirdCodec(cs, ke3, [], []);
    assert SerializeThird(cs, ke3) + [] == SerializeThird(cs, ke3);
  }

  /** When both states and both messages parse back, the two ways to finish are one. */
  lemma FinishWhenParsed(cs: Suite, state: ClientLogin, start: ServerStart, password: Bytes, s: Session)
    requires cs.oprfHash.Lawful() && cs.kx.keHash.Lawful()
    requires FirstTyped(cs.kx, state.request.ke1) && ClientTyped(cs.kx, state.ke1State)
    requires SecondTyped(cs.kx, start.response.ke2) && ServerTyped(cs.kx, start.state)
    requires DeserializeClientLogin(cs, SerializeClientLogin(cs, state)) == Ok((state, []))
    requires TakeCredentialResponse(cs, SerializeCredentialResponse(cs, start.response)) == Ok((start.response, []))
    requires TakeServerState(cs, SerializeServerState(cs, start.state)) == Ok((start.state, []))
    requires var finish := ClientLoginFinish(cs, state, s.finishTape, s.finishPos, password, start.response, s.client,
                                             s.ksf);
             finish.Ok? ==> TakeThird(cs, SerializeThird(cs, finish.value.ke3)) == Ok((finish.value.ke3, []))
    ensures FinishOverWire(cs, state, start, password, s) == FinishDirectly(cs, state, start, password, s)
  {
  }

  lemma FinishSurvives(cs: Suite, state: ClientLogin, start: ServerStart, password: Bytes, s: Session)
    requires cs.Lawful() && cs.oprfHash.Lawful() && cs.kx.keHash.Lawful()
    requires state.WellFormed(cs) && start.response.WellFormed(cs) && ServerStateWellFormed(cs, start.state)
    ensures FinishOverWire(cs, state, start, password, s) == FinishDirectly(cs, state, start, password, s)
  {
    LoginLaws(cs);
    var finish := ClientLoginFinish(cs, state, s.finishTape, s.finishPos, password, start.response, s.client, s.ksf);
    if finish.Ok? {
      FinishedWellFormed(cs, state, s.finishTape, s.finishPos, password, start.response, s.client, s.ksf);
      FinalizationSurvives(cs, finish.value.ke3);
    }
    RequestSurvives(cs, state.request, state);
    AnswerSurvives(cs, start.response, start.state);
    FinishWhenParsed(cs, state, start, password, s);
  }

  lemma LoginIsStaged(cs: Suite, setup: ServerSetup, file: RegistrationUpload, password: Bytes, credentialId: Bytes,
                      s: Session)
    requires cs.oprfHash.Lawful() && cs.kx.keHash.Lawful()
    requires ClientLoginStart(cs, s.clientTape, s.clientPos, password).Ok?
    ensures var (request, state, _) := ClientLoginStart(cs, s.clientTape, s.clientPos, password).value;
            match ServerLoginStart(cs, s.serverTape, s.serverPos, setup, Some(file), request, credentialId, s.server)
            case Ok(start) => Login(cs, setup, file, password, credentialId, s) ==
              FinishDirectly(cs, state, start, password, s)
            case Err(error) => Login(cs, setup, file, password, credentialId, s) == Err(error)
  {
  }

  lemma WireIsStaged(cs: Suite, setupBytes: Bytes, setup: ServerSetup, fileBytes: Bytes, file: RegistrationUpload,
                     password: Bytes, credentialId: Bytes, s: Session)
    requires cs.oprfHash.Lawful() && cs.kx.keHash.Lawful()
    requires DeserializeSetup(cs, setupBytes) == Ok((setup, [])) && DeserializeUpload(cs, fileBytes) == Ok(file)
    requires ClientLoginStart(cs, s.clientTape, s.clientPos, password).Ok?
    requires var request := ClientLoginStart(cs, s.clientTape, s.clientPos, password).value.0;
             TakeCredentialRequest(cs, SerializeCredentialRequest(cs, request)) == Ok((request, []))
    ensures var (request, state, _) := ClientLoginStart(cs, s.clientTape, s.clientPos, password).value;
            match ServerLoginStart(cs, s.serverTape, s.serverPos, setup, Some(file), request, credentialId, s.server)
            case Ok(start) =>
              LoginOverWire(cs, setupBytes, fileBytes, password, credentialId, s) ==
                FinishOverWire(cs, state, start, password, s)
            case Err(error) => LoginOverWire(cs, setupBytes, fileBytes, password, credentialId, s) == Err(error)
  {
  }

  /** Once the server has answered, the two ways to finish are one. */
  lemma StartedFinishSurvives(cs: Suite, setup: ServerSetup, file: RegistrationUpload, password: Bytes,
                              credentialId: Bytes, s: Session, request: CredentialRequest, state: ClientLogin,
                              next: nat, start: ServerStart)
    requires cs.Lawful() && cs.oprfHash.Lawful() && cs.kx.keHash.Lawful()
    requires setup.WellFormed(cs) && file.WellFormed(cs)
    requires ClientLoginStart(cs, s.clientTape, s.clientPos, password) == Ok((request, state, next))
    requires ServerLoginStart(cs, s.serverTape, s.serverPos, setup, Some(file), request, credentialId, s.server)
          == Ok(start)
    ensures FinishOverWire(cs, state, start, password, s) == FinishDirectly(cs, state, start, password, s)
  {
    LoginLaws(cs);
    StartWellFormed(cs, s.clientTape, s.clientPos, password);
    StartedWellFormed(cs, s.serverTape, s.serverPos, setup, Some(file), request, credentialId, s.server);
    FinishSurvives(cs, state, start, password, s);
  }

  /** Sending and storing everything as bytes changes nothing about a login, whether it succeeds or fails. */
  lemma LoginSurvivesWire(cs: Suite, setup: ServerSetup, file: RegistrationUpload, password: Bytes, credentialId: Bytes,
                          s: Session)
    requires cs.Lawful() && cs.oprfHash.Lawful() && cs.kx.keHash.Lawful()
    requires setup.WellFormed(cs) && file.WellFormed(cs) && file.envelope.mode == Env.Internal
    ensures LoginOverWire(cs, SerializeSetup(cs, setup), SerializeUpload(cs, file), password, credentialId, s)
         == Login(cs, setup, file, password, credentialId, s)
  {
    LoginLaws(cs);
    StoredSurvives(cs, setup, file);
    var first := ClientLoginStart(cs, s.clientTape, s.clientPos, password);
    if first.Ok? {
      var (request, state, next) := first.value;
      StartWellFormed(cs, s.clientTape, s.clientPos, password);
      RequestSurvives(cs, request, state);
      LoginIsStaged(cs, setup, file, password, credentialId, s);
      WireIsStaged(cs, SerializeSetup(cs, setup), setup, SerializeUpload(cs, file), file, password, credentialId, s);
      var start := ServerLoginStart(cs, s.serverTape, s.serverPos, setup, Some(file), request, credentialId, s.server);
      if start.Ok? {
        StartedFinishSurvives(cs, setup, file, password, credentialId, s, request, state, next, start.value);
      }
    }
  }

  /**
   Completeness over the wire: after a registration by bytes, every login by bytes from the stored setup and record
   succeeds with equal session keys, the registration's export key and the server's public key, exactly when both
   sides' draws derive an ephemeral key; otherwise it is the panic of the draw that does not.
   */
  lemma WireLoginCompletes(cs: Suite, setup: ServerSetup, e: Enrolment, s: Session)
    requires cs.Lawful() && cs.oprfHash.Lawful() && cs.kx.keHash.Lawful() && setup.WellFormed(cs)
    requires RegisterOverWire(cs, SerializeSetup(cs, setup), e).Ok?
    requires Matches(cs, setup, e, RegisterOverWire(cs, SerializeSetup(cs, setup), e).value.0.upload.clientSPk, s)
    ensures var (result, record) := RegisterOverWire(cs, SerializeSetup(cs, setup), e).value;
            var login := LoginOverWire(cs, SerializeSetup(cs, setup), record, e.password, e.credentialId, s);
            if ClientDraws(cs, s) && ServerDraws(cs, s) then
              && login.Ok?
              && login.value.clientKey == login.value.serverKey
              && login.value.exportKey == result.exportKey
              && login.value.serverSPk == result.serverSPk == setup.keypair.pk
            else login == Err(Panic)
  {
    LoginLaws(cs);
    RegistrationSurvivesWire(cs, setup, e);
    LoginCompletes(cs, setup, e, s);
    var result := Register(cs, setup, e).value;
    RegisteredUpload(cs, setup, e);
    LoginSurvivesWire(cs, setup, result.upload, e.password, e.credentialId, s);
  }
}
