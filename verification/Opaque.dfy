/** Registration and login (src/opaque.rs), as functions of the inputs and of the random tapes. */
module Opaque {
  import opened Errors
  import opened Serialization
  import opened Primitives
  import opened Identifiers
  import opened Keypair
  import opened Hkdf
  import opened Masking
  import opened Transcript
  import opened KeyExchanges
  import opened Messages
  import Env = Envelope

  const STR_MASKING_KEY: Bytes := Ascii("MaskingKey")
  const STR_OPRF_KEY: Bytes := Ascii("OprfKey")
  const STR_OPAQUE_DERIVE_KEY_PAIR: Bytes := Ascii("OPAQUE-DeriveKeyPair")
  const STR_FINALIZE: Bytes := Ascii("Finalize")

  // ---------------------------------------------------------------------
  // The oblivious pseudorandom function
  // ---------------------------------------------------------------------

  /** `blind`: the password hashed to the group, multiplied by a fresh scalar. */
  function Blind(o: Oprf, tape: Tape, pos: nat, password: Bytes): Result<(Scalar, Elem, nat)> {
    var (blind, next) := o.sampleScalar(tape, pos);
    var element :- OkOr(o.hashToGroup(password), LibraryError(OprfError(Input)));
    Ok((blind, o.mul(blind, element), next))
  }

  /** Finalize of section 3.3.1 of RFC 9497: unblind, then hash together with the input. */
  function Finalize(o: Oprf, h: HashFn, password: Bytes, blind: Scalar, evaluation: Elem): Result<Bytes> {
    var _ :- Need(|password| < 0x1_0000, LibraryError(OprfError(Input)));
    var unblinded := o.serializeElem(o.mul(o.inv(blind), evaluation));
    Ok(h.hash(Vec16(password) + (Vec16(unblinded) + STR_FINALIZE)))
  }

  /** The per-client key material, expanded from the server's seed. */
  function OprfKeyMaterial(cs: Suite, seed: Bytes, credentialId: Bytes): Result<Bytes>
    requires cs.oprfHash.Lawful()
  {
    Expand(cs.oprfHash, seed, credentialId + STR_OPRF_KEY, cs.oprf.nok)
  }

  function OprfKeyFromMaterial(o: Oprf, material: Bytes): Result<Bytes> {
    var key :- OkOr(o.deriveKey(material, STR_OPAQUE_DERIVE_KEY_PAIR), LibraryError(OprfError(DeriveKeyPair)));
    Ok(o.serializeScalar(key))
  }

  /** The server's evaluation of a blinded element with serialized key material. */
  function Evaluate(o: Oprf, material: Bytes, blinded: Elem): Result<Elem> {
    var keyBytes :- OprfKeyFromMaterial(o, material);
    var key :- OkOr(o.parseScalar(keyBytes), LibraryError(OprfError(Deserialization)));
    Ok(o.mul(key, blinded))
  }

  /** `get_password_derived_key`: the randomized password. */
  function PasswordDerivedKey(cs: Suite, password: Bytes, blind: Scalar, evaluation: Elem,
                              ksf: Option<Ksf>): Result<Bytes> {
    var output :- Finalize(cs.oprf, cs.oprfHash, password, blind, evaluation);
    var hardened :- OkOr(ksf.GetOr(cs.defaultKsf).stretch(output), LibraryError(KsfError));
    Ok(Extract(cs.oprfHash, output + hardened))
  }

  // ---------------------------------------------------------------------
  // Server setup
  // ---------------------------------------------------------------------

  /** `ServerSetup::new`: a key pair, then the seed, then a second key pair of which only the public half is kept. */
  function NewSetup(cs: Suite, tape: Tape, pos: nat): (ServerSetup, nat) {
    var (keypair, pos) := RandomKeyPair(cs.group, tape, pos);
    var (seed, pos) := (Fill(tape, pos, cs.oprfHash.nh), pos + cs.oprfHash.nh);
    var (dummy, pos) := RandomKeyPair(cs.group, tape, pos);
    (ServerSetup(seed, keypair, dummy.pk), pos)
  }

  // ---------------------------------------------------------------------
  // Registration
  // ---------------------------------------------------------------------

  function ClientRegistrationStart(cs: Suite, tape: Tape, pos: nat, password: Bytes)
    : Result<(RegistrationRequest, ClientRegistration, nat)>
  {
    var (blind, blinded, next) :- Blind(cs.oprf, tape, pos, password);
    Ok((RegistrationRequest(blinded), ClientRegistration(blind, blinded), next))
  }

  function ServerRegistrationWithMaterial(cs: Suite, setup: ServerSetup, material: Bytes, request: RegistrationRequest)
    : Result<RegistrationResponse>
  {
    var evaluation :- Evaluate(cs.oprf, material, request.blinded);
    Ok(RegistrationResponse(evaluation, setup.keypair.pk))
  }

  function ServerRegistrationStart(cs: Suite, setup: ServerSetup, request: RegistrationRequest, credentialId: Bytes)
    : Result<RegistrationResponse>
    requires cs.oprfHash.Lawful()
  {
    var material :- OprfKeyMaterial(cs, setup.oprfSeed, credentialId);
    ServerRegistrationWithMaterial(cs, setup, material, request)
  }

  datatype RegistrationResult = RegistrationResult(upload: RegistrationUpload, exportKey: Bytes, serverSPk: PublicKey)

  function ClientRegistrationFinish(cs: Suite, state: ClientRegistration, tape: Tape, pos: nat, password: Bytes,
                                    response: RegistrationResponse, ids: Ids, ksf: Option<Ksf>)
    : Result<RegistrationResult>
    requires cs.oprfHash.Lawful()
  {
    var _ :- Need(state.blinded != response.evaluation, ReflectedValueError);
    var prk :- PasswordDerivedKey(cs, password, state.blind, response.evaluation, ksf);
    var maskingKey :- Expand(cs.oprfHash, prk, STR_MASKING_KEY, cs.oprfHash.nh);
    var (envelope, clientSPk, exportKey) :-
      Env.Seal(cs.oprfHash, cs.group, Fill(tape, pos, NONCE_LEN), prk, response.serverSPk, ids);
    Ok(RegistrationResult(RegistrationUpload(envelope, maskingKey, clientSPk), exportKey, response.serverSPk))
  }

  // ---------------------------------------------------------------------
  // Login
  // ---------------------------------------------------------------------

  function ClientLoginStart(cs: Suite, tape: Tape, pos: nat, password: Bytes)
    : (r: Result<(CredentialRequest, ClientLogin, nat)>)
    ensures r.Ok? ==> FirstTyped(cs.kx, r.value.0.ke1) && ClientTyped(cs.kx, r.value.1.ke1State)
                      && r.value.1.request == r.value.0
  {
    var (blind, blinded, next) :- Blind(cs.oprf, tape, pos, password);
    var (ke1State, ke1Message, next) :- KeyExchanges.GenerateKe1(cs, tape, next);
    var request := CredentialRequest(blinded, ke1Message);
    Ok((request, ClientLogin(blind, ke1State, request), next))
  }

  /** `RegistrationUpload::dummy`: a fake record with a fresh masking key. */
  function DummyRecord(cs: Suite, setup: ServerSetup, maskingKey: Bytes): RegistrationUpload {
    RegistrationUpload(Env.Dummy(cs.oprfHash), maskingKey, setup.dummyPk)
  }

  /**
   What the server draws before the key exchange: the masking key of a fake record, whether or not it is needed,
   and the masking nonce; then the new tape position.
   */
  function LoginDraws(cs: Suite, tape: Tape, pos: nat): (Bytes, Bytes, nat) {
    (Fill(tape, pos, cs.oprfHash.nh), Fill(tape, pos + cs.oprfHash.nh, NONCE_LEN), pos + cs.oprfHash.nh + NONCE_LEN)
  }

  datatype LoginBuilder = LoginBuilder(evaluation: Elem, maskingNonce: Bytes, masked: MaskedResponse, ke2: Builder)

  datatype LoginParameters = LoginParameters(context: Option<Bytes>, ids: Ids)

  /** The server's inputs to the key exchange. */
  function ServerInputs(cs: Suite, context: SerializedContext, ids: SerializedIdentifiers, request: CredentialRequest,
                        evaluation: Elem, maskingNonce: Bytes, masked: MaskedResponse): Inputs
  {
    Inputs(context, ids, request.ToParts(cs), request.ke1,
           SerializedCredentialResponse(cs.oprf.serializeElem(evaluation), maskingNonce, masked))
  }

  /** Everything of the response that precedes the key exchange. */
  datatype Prepared = Prepared(inputs: Inputs, evaluation: Elem, maskingNonce: Bytes, masked: MaskedResponse)

  function PrepareResponse(cs: Suite, setup: ServerSetup, material: Bytes, record: RegistrationUpload,
                           maskingNonce: Bytes,
                           request: CredentialRequest, params: LoginParameters): (r: Result<Prepared>)
    requires cs.oprfHash.Lawful()
    ensures r.Ok? ==> r.value.inputs.ke1 == request.ke1
  {
    var context :- ContextFrom(params.context);
    var masked :- MaskSpec(cs.oprfHash, cs.group, record.maskingKey, maskingNonce, setup.keypair.pk, record.envelope);
    var ids :- FromIdentifiers(params.ids, cs.group.serializePk(record.clientSPk),
                               cs.group.serializePk(setup.keypair.pk));
    var evaluation :- Evaluate(cs.oprf, material, request.blinded);
    Ok(Prepared(ServerInputs(cs, context, ids, request, evaluation, maskingNonce, masked), evaluation, maskingNonce,
                masked))
  }

  /** The builder for a record and a masking nonce; the tape position is the one after the nonce. */
  function BuilderFor(cs: Suite, tape: Tape, pos: nat, setup: ServerSetup, material: Bytes, record: RegistrationUpload,
                      maskingNonce: Bytes, request: CredentialRequest, params: LoginParameters)
    : (r: Result<(LoginBuilder, nat)>)
    requires cs.oprfHash.Lawful() && cs.kx.keHash.Lawful() && FirstTyped(cs.kx, request.ke1)
    ensures r.Ok? ==> BuilderTyped(cs.kx, r.value.0.ke2)
  {
    var p :- PrepareResponse(cs, setup, material, record, maskingNonce, request, params);
    Attach(cs, tape, pos, p, record.clientSPk)
  }

  /** The key exchange's builder, attached to the prepared response. */
  function Attach(cs: Suite, tape: Tape, pos: nat, p: Prepared, clientSPk: PublicKey): (r: Result<(LoginBuilder, nat)>)
    requires cs.kx.keHash.Lawful() && FirstTyped(cs.kx, p.inputs.ke1)
    ensures r.Ok? ==> BuilderTyped(cs.kx, r.value.0.ke2)
  {
    var (b, next) :- Ke2Builder(cs, tape, pos, p.inputs, clientSPk);
    Ok((LoginBuilder(p.evaluation, p.maskingNonce, p.masked, b), next))
  }

  /** `ServerLogin::builder_with_key_material`; also returns the new tape position. */
  function LoginBuilderWithMaterial(cs: Suite, tape: Tape, pos: nat, setup: ServerSetup, material: Bytes,
                                    file: Option<RegistrationUpload>, request: CredentialRequest,
                                    params: LoginParameters)
    : (r: Result<(LoginBuilder, nat)>)
    requires cs.oprfHash.Lawful() && cs.kx.keHash.Lawful() && FirstTyped(cs.kx, request.ke1)
    ensures r.Ok? ==> BuilderTyped(cs.kx, r.value.0.ke2)
  {
    var (dummyKey, maskingNonce, next) := LoginDraws(cs, tape, pos);
    BuilderFor(cs, tape, next, setup, material, file.GetOr(DummyRecord(cs, setup, dummyKey)), maskingNonce, request,
               params)
  }

  /** `ServerLoginBuilder::build`, with an input computed locally or remotely. */
  function BuildLogin(cs: Suite, b: LoginBuilder, input: BuilderInput): (r: Result<(CredentialResponse, ServerState)>)
    requires cs.kx.keHash.Lawful() && BuilderTyped(cs.kx, b.ke2) && InputTyped(cs.kx, input)
    ensures r.Ok? ==> SecondTyped(cs.kx, r.value.0.ke2) && ServerTyped(cs.kx, r.value.1)
  {
    var (state, message) :- BuildKe2(cs, b.ke2, input);
    Ok((CredentialResponse(b.evaluation, b.maskingNonce, b.masked, message), state))
  }

  datatype ServerStart = ServerStart(response: CredentialResponse, state: ServerState, pos: nat)

  /** The builder's input from a private key held locally, and the response built from it. */
  function BuildLocally(cs: Suite, tape: Tape, pos: nat, b: LoginBuilder, serverSSk: PrivateKey)
    : (r: Result<ServerStart>)
    requires cs.kx.keHash.Lawful() && BuilderTyped(cs.kx, b.ke2)
    ensures r.Ok? ==> SecondTyped(cs.kx, r.value.response.ke2) && ServerTyped(cs.kx, r.value.state)
  {
    var (input, pos) := Ke2Input(cs, b.ke2, tape, pos, serverSSk);
    var (response, state) :- BuildLogin(cs, b, input);
    Ok(ServerStart(response, state, pos))
  }

  /** `ServerLogin::start`. */
  function ServerLoginStart(cs: Suite, tape: Tape, pos: nat, setup: ServerSetup, file: Option<RegistrationUpload>,
                            request: CredentialRequest, credentialId: Bytes, params: LoginParameters)
    : (r: Result<ServerStart>)
    requires cs.oprfHash.Lawful() && cs.kx.keHash.Lawful() && FirstTyped(cs.kx, request.ke1)
    ensures r.Ok? ==> SecondTyped(cs.kx, r.value.response.ke2) && ServerTyped(cs.kx, r.value.state)
  {
    var material :- OprfKeyMaterial(cs, setup.oprfSeed, credentialId);
    var (b, pos) :- LoginBuilderWithMaterial(cs, tape, pos, setup, material, file, request, params);
    BuildLocally(cs, tape, pos, b, setup.keypair.sk)
  }

  datatype LoginResult = LoginResult(ke3: ThirdMessage, sessionKey: Bytes, exportKey: Bytes, serverSPk: PublicKey)

  /** Unmask, then open: what the client recovers before the key exchange. */
  function RecoverCredentials(cs: Suite, prk: Bytes, maskingNonce: Bytes, masked: MaskedResponse, ids: Ids)
    : Result<(PublicKey, Env.OpenedEnvelope)>
    requires cs.oprfHash.Lawful()
  {
    var maskingKey :- Expand(cs.oprfHash, prk, STR_MASKING_KEY, cs.oprfHash.nh);
    var (serverSPk, envelope) :-
      MapError(UnmaskSpec(cs.oprfHash, cs.group, maskingKey, maskingNonce, masked),
               SerializationError, InvalidLoginError);
    var credentials :-
      MapError(Env.Open(cs.oprfHash, cs.group, envelope, prk, serverSPk, ids),
               LibraryError(SealOpenHmacError), InvalidLoginError);
    Ok((serverSPk, credentials))
  }

  /** `map_err` that turns one error into another. */
  function MapError<T>(r: Result<T>, from: ProtocolError, to: ProtocolError): Result<T> {
    if r.Err? && r.error == from then Err(to) else r
  }

  /** `ClientLogin::finish`. */
  function ClientLoginFinish(cs: Suite, state: ClientLogin, tape: Tape, pos: nat, password: Bytes,
                             response: CredentialResponse, params: LoginParameters, ksf: Option<Ksf>)
    : (r: Result<LoginResult>)
    requires cs.oprfHash.Lawful() && cs.kx.keHash.Lawful()
    requires FirstTyped(cs.kx, state.request.ke1) && ClientTyped(cs.kx, state.ke1State)
             && SecondTyped(cs.kx, response.ke2)
    ensures r.Ok? ==> ThirdTyped(cs.kx, r.value.ke3)
  {
    var _ :- Need(state.request.blinded != response.evaluation, ReflectedValueError);
    var prk :- PasswordDerivedKey(cs, password, state.blind, response.evaluation, ksf);
    var (serverSPk, credentials) :- RecoverCredentials(cs, prk, response.maskingNonce, response.masked, params.ids);
    var context :- ContextFrom(params.context);
    var inputs := Inputs(context, credentials.identifiers, state.request.ToParts(cs), state.request.ke1,
                         response.ToParts(cs));
    var (sessionKey, ke3) :-
      GenerateKe3(cs, tape, pos, inputs, state.ke1State, response.ke2, serverSPk, credentials.clientKeyPair.sk);
    Ok(LoginResult(ke3, sessionKey, credentials.exportKey, serverSPk))
  }

  /** `ServerLogin::finish`. */
  function ServerLoginFinish(cs: Suite, state: ServerState, ke3: ThirdMessage, params: LoginParameters): Result<Bytes>
    requires ServerTyped(cs.kx, state) && ThirdTyped(cs.kx, ke3)
  {
    var context :- ContextFrom(params.context);
    FinishKe(cs, state, ke3, params.ids, context)
  }
}
