/**
 The steps of client and server as they run: random bytes are drawn from a generator, hashers, MACs and pads are
 updated in place. Each step computes what the corresponding function of `Opaque` says.
 */
module Endpoints {
  import opened Errors
  import opened Serialization
  import opened Primitives
  import opened Identifiers
  import opened Hkdf
  import opened Masking
  import opened KeyExchanges
  import opened Messages
  import opened Opaque
  import Env = Envelope
  import Dh = TripleDh
  import DhKem = TripleDhKem
  import Sigma = SigmaI

  // ---------------------------------------------------------------------
  // The selected key exchange
  // ---------------------------------------------------------------------

  method MakeKe2Builder(cs: Suite, rng: TapeRng, inputs: Inputs, clientSPk: PublicKey) returns (r: Result<Builder>)
    requires cs.kx.keHash.Lawful() && FirstTyped(cs.kx, inputs.ke1) && (cs.kx.TripleDhKem? ==> cs.kx.kem.Lawful())
    requires inputs.context.WellFormed() && inputs.identifiers.WellFormed()
    modifies rng
    ensures match Ke2Builder(cs, rng.tape, old(rng.pos), inputs, clientSPk)
            case Ok((b, pos)) => r == Ok(b) && rng.pos == pos
            case Err(error) => r == Err(error)
  {
    match cs.kx
    case TripleDh(_) =>
      var b :- Dh.MakeKe2Builder(cs.group, rng, inputs.View(), clientSPk);
      r := Ok(DhBuilder(b));
    case TripleDhKem(_, kem) =>
      var b :- DhKem.MakeKe2Builder(cs.group, kem, rng, inputs.View(), inputs.ke1.kem.kemEk, clientSPk);
      r := Ok(KemBuilder(b));
    case SigmaI(h, _, e) =>
      var b :- Sigma.MakeKe2Builder(h, e, rng, inputs.View(), clientSPk);
      r := Ok(SigmaBuilder(b));
  }

  method MakeKe2Input(cs: Suite, b: Builder, rng: TapeRng, serverSSk: PrivateKey) returns (input: BuilderInput)
    requires BuilderTyped(cs.kx, b)
    modifies rng
    ensures (input, rng.pos) == Ke2Input(cs, b, rng.tape, old(rng.pos), serverSSk)
  {
    match b
    case DhBuilder(b) => input := SharedSecret(cs.group.dh(serverSSk, b.clientEPk));
    case KemBuilder(b) => input := SharedSecret(cs.group.dh(serverSSk, b.base.clientEPk));
    case SigmaBuilder(b) =>
      var signed := Sigma.Sign(cs.kx.sig, serverSSk, rng, b.message);
      input := Signed(signed.0, signed.1);
  }

  method FinishKe2(cs: Suite, b: Builder, input: BuilderInput) returns (r: Result<(ServerState, SecondMessage)>)
    requires cs.kx.keHash.Lawful() && BuilderTyped(cs.kx, b) && InputTyped(cs.kx, input)
    ensures r == BuildKe2(cs, b, input)
  {
    match b
    case DhBuilder(b) =>
      var built :- Dh.BuildKe2(cs.kx.keHash, b, input.secret);
      r := Ok((DhServer(built.0), DhSecond(built.1)));
    case KemBuilder(b) =>
      var built :- DhKem.BuildKe2(cs.kx.keHash, b, input.secret);
      r := Ok((KemServer(built.0), KemSecond(built.1)));
    case SigmaBuilder(b) =>
      var built := Sigma.BuildKe2(b, (input.signature, input.state));
      r := Ok((SigmaServer(built.0), SigmaSecond(built.1)));
  }

  method MakeKe3(cs: Suite, rng: TapeRng, inputs: Inputs, state: ClientState, ke2: SecondMessage, serverSPk: PublicKey,
                 clientSSk: PrivateKey) returns (r: Result<(Bytes, ThirdMessage)>)
    requires cs.kx.keHash.Lawful()
    requires FirstTyped(cs.kx, inputs.ke1) && ClientTyped(cs.kx, state) && SecondTyped(cs.kx, ke2)
    requires inputs.context.WellFormed() && inputs.identifiers.WellFormed()
    modifies rng
    ensures r == GenerateKe3(cs, rng.tape, old(rng.pos), inputs, state, ke2, serverSPk, clientSSk)
  {
    match cs.kx
    case TripleDh(h) =>
      var answer :- Dh.GenerateKe3(h, cs.group, inputs.View(), state.dh, ke2.dh, serverSPk, clientSSk);
      r := Ok((answer.0, DhThird(answer.1)));
    case TripleDhKem(h, kem) =>
      var answer :- DhKem.GenerateKe3(h, cs.group, kem, inputs.View(), inputs.ke1.kem.kemEk, state.kem, ke2.kem,
                                      serverSPk, clientSSk);
      r := Ok((answer.0, DhThird(answer.1)));
    case SigmaI(h, sig, e) =>
      var answer :- Sigma.GenerateKe3(h, sig, e, rng, inputs.View(), state.dh, ke2.sigma, serverSPk, clientSSk);
      r := Ok((answer.0, SigmaThird(answer.1)));
  }

  // ---------------------------------------------------------------------
  // The server
  // ---------------------------------------------------------------------

  /** The prepared response, with the mask applied in place. */
  method Prepare(cs: Suite, setup: ServerSetup, material: Bytes, record: RegistrationUpload, maskingNonce: Bytes,
                 request: CredentialRequest, params: LoginParameters) returns (r: Result<Prepared>)
    requires cs.oprfHash.Lawful()
    ensures r == PrepareResponse(cs, setup, material, record, maskingNonce, request, params)
    ensures r.Ok? ==> r.value.inputs.context.WellFormed() && r.value.inputs.identifiers.WellFormed()
  {
    var context :- ContextFrom(params.context);
    var masked :- MaskResponse(cs.oprfHash, cs.group, record.maskingKey, maskingNonce, setup.keypair.pk,
                               record.envelope);
    var ids :- FromIdentifiers(params.ids, cs.group.serializePk(record.clientSPk),
                               cs.group.serializePk(setup.keypair.pk));
    var evaluation :- Evaluate(cs.oprf, material, request.blinded);
    r := Ok(Prepared(ServerInputs(cs, context, ids, request, evaluation, maskingNonce, masked), evaluation,
                     maskingNonce, masked));
  }

  /** `ServerLogin::builder_with_key_material`: the fake record's masking key is drawn whether or not it is needed. */
  method MakeLoginBuilder(cs: Suite, rng: TapeRng, setup: ServerSetup, material: Bytes,
                          file: Option<RegistrationUpload>,
                          request: CredentialRequest, params: LoginParameters) returns (r: Result<LoginBuilder>)
    requires cs.oprfHash.Lawful() && cs.kx.keHash.Lawful() && FirstTyped(cs.kx, request.ke1)
    requires cs.kx.TripleDhKem? ==> cs.kx.kem.Lawful()
    modifies rng
    ensures match LoginBuilderWithMaterial(cs, rng.tape, old(rng.pos), setup, material, file, request, params)
            case Ok((b, pos)) => r == Ok(b) && rng.pos == pos
            case Err(error) => r == Err(error)
  {
    var dummyKey := rng.FillBytes(cs.oprfHash.nh);
    var record := file.GetOr(DummyRecord(cs, setup, dummyKey));
    var maskingNonce := rng.FillBytes(NONCE_LEN);
    assert LoginDraws(cs, rng.tape, old(rng.pos)) == (dummyKey, maskingNonce, rng.pos);
    var p :- Prepare(cs, setup, material, record, maskingNonce, request, params);
    var ke2 :- MakeKe2Builder(cs, rng, p.inputs, record.clientSPk);
    r := Ok(LoginBuilder(p.evaluation, p.maskingNonce, p.masked, ke2));
  }

  /** `ServerLogin::start`. */
  method StartLogin(cs: Suite, rng: TapeRng, setup: ServerSetup, file: Option<RegistrationUpload>,
                    request: CredentialRequest,
                    credentialId: Bytes, params: LoginParameters) returns (r: Result<(CredentialResponse, ServerState)>)
    requires cs.oprfHash.Lawful() && cs.kx.keHash.Lawful() && FirstTyped(cs.kx, request.ke1)
    requires cs.kx.TripleDhKem? ==> cs.kx.kem.Lawful()
    modifies rng
    ensures match ServerLoginStart(cs, rng.tape, old(rng.pos), setup, file, request, credentialId, params)
            case Ok(start) => r == Ok((start.response, start.state)) && rng.pos == start.pos
            case Err(error) => r == Err(error)
  {
    var material :- OprfKeyMaterial(cs, setup.oprfSeed, credentialId);
    var b :- MakeLoginBuilder(cs, rng, setup, material, file, request, params);
    var input := MakeKe2Input(cs, b.ke2, rng, setup.keypair.sk);
    var built :- FinishKe2(cs, b.ke2, input);
    r := Ok((CredentialResponse(b.evaluation, b.maskingNonce, b.masked, built.1), built.0));
  }

  // ---------------------------------------------------------------------
  // The client
  // ---------------------------------------------------------------------

  /** `Envelope::seal` after the nonce was drawn. */
  method SealEnvelope(h: HashFn, g: Group, rng: TapeRng, prk: Bytes, serverPk: PublicKey, ids: Ids)
    returns (r: Result<(Env.Envelope, PublicKey, Bytes)>)
    requires h.Lawful()
    modifies rng
    ensures r == Env.Seal(h, g, Fill(rng.tape, old(rng.pos), NONCE_LEN), prk, serverPk, ids)
  {
    var nonce := rng.FillBytes(NONCE_LEN);
    var keys :- Env.RecoverKeys(h, g, prk, nonce);
    var identifiers :- FromIdentifiers(ids, g.serializePk(keys.pk), g.serializePk(serverPk));
    var sealed :- Env.SealRaw(h, prk, nonce, Env.Aad(g, identifiers, serverPk), Env.Internal);
    r := Ok((sealed.0, keys.pk, sealed.1));
  }

  method OpenEnvelope(h: HashFn, g: Group, e: Env.Envelope, prk: Bytes, serverPk: PublicKey, ids: Ids)
    returns (r: Result<Env.OpenedEnvelope>)
    requires h.Lawful()
    ensures r == Env.Open(h, g, e, prk, serverPk, ids)
    ensures r.Ok? ==> r.value.identifiers.WellFormed()
  {
    if e.mode == Env.Zero {
      return Err(LibraryError(IncompatibleEnvelopeModeError));
    }
    var keys :- Env.RecoverKeys(h, g, prk, e.nonce);
    var identifiers :- FromIdentifiers(ids, g.serializePk(keys.pk), g.serializePk(serverPk));
    var exportKey :- Env.OpenRaw(e, h, prk, Env.Aad(g, identifiers, serverPk));
    r := Ok(Env.OpenedEnvelope(keys, exportKey, identifiers));
  }

  /** `ClientRegistration::finish`. */
  method FinishRegistration(cs: Suite, state: ClientRegistration, rng: TapeRng, password: Bytes,
                            response: RegistrationResponse,
                            ids: Ids, ksf: Option<Ksf>) returns (r: Result<RegistrationResult>)
    requires cs.oprfHash.Lawful()
    modifies rng
    ensures r == ClientRegistrationFinish(cs, state, rng.tape, old(rng.pos), password, response, ids, ksf)
  {
    if state.blinded == response.evaluation {
      return Err(ReflectedValueError);
    }
    var prk :- PasswordDerivedKey(cs, password, state.blind, response.evaluation, ksf);
    var maskingKey :- Expand(cs.oprfHash, prk, STR_MASKING_KEY, cs.oprfHash.nh);
    var sealed :- SealEnvelope(cs.oprfHash, cs.group, rng, prk, response.serverSPk, ids);
    r := Ok(RegistrationResult(RegistrationUpload(sealed.0, maskingKey, sealed.1), sealed.2, response.serverSPk));
  }

  /**
    Unmasks with the pad in place, then opens the envelope; both failures of the server's data become an invalid
    login.
  */
  method Recover(cs: Suite, prk: Bytes, maskingNonce: Bytes, masked: MaskedResponse, ids: Ids)
    returns (r: Result<(PublicKey, Env.OpenedEnvelope)>)
    requires cs.oprfHash.Lawful()
    ensures r == RecoverCredentials(cs, prk, maskingNonce, masked, ids)
    ensures r.Ok? ==> r.value.1.identifiers.WellFormed()
  {
    var maskingKey :- Expand(cs.oprfHash, prk, STR_MASKING_KEY, cs.oprfHash.nh);
    var unmasked := UnmaskResponse(cs.oprfHash, cs.group, maskingKey, maskingNonce, masked);
    var pair :- MapError(unmasked, SerializationError, InvalidLoginError);
    var result := OpenEnvelope(cs.oprfHash, cs.group, pair.1, prk, pair.0, ids);
    var credentials :- MapError(result, LibraryError(SealOpenHmacError), InvalidLoginError);
    r := Ok((pair.0, credentials));
  }

  /** `ClientLogin::finish`. */
  method FinishLogin(cs: Suite, state: ClientLogin, rng: TapeRng, password: Bytes, response: CredentialResponse,
                     params: LoginParameters, ksf: Option<Ksf>) returns (r: Result<LoginResult>)
    requires cs.oprfHash.Lawful() && cs.kx.keHash.Lawful()
    requires FirstTyped(cs.kx, state.request.ke1) && ClientTyped(cs.kx, state.ke1State)
             && SecondTyped(cs.kx, response.ke2)
    modifies rng
    ensures r == ClientLoginFinish(cs, state, rng.tape, old(rng.pos), password, response, params, ksf)
  {
    if state.request.blinded == response.evaluation {
      return Err(ReflectedValueError);
    }
    var prk :- PasswordDerivedKey(cs, password, state.blind, response.evaluation, ksf);
    var recovered :- Recover(cs, prk, response.maskingNonce, response.masked, params.ids);
    var context :- ContextFrom(params.context);
    var inputs := Inputs(context, recovered.1.identifiers, state.request.ToParts(cs), state.request.ke1,
                         response.ToParts(cs));
    var answer :- MakeKe3(cs, rng, inputs, state.ke1State, response.ke2, recovered.0, recovered.1.clientKeyPair.sk);
    r := Ok(LoginResult(answer.1, answer.0, recovered.1.exportKey, recovered.0));
  }
}
