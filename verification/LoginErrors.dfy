/** How the client's last step can fail (src/opaque.rs, `ClientLogin::finish`). */
module LoginErrors {
  import opened Errors
  import opened Serialization
  import opened Primitives
  import opened Identifiers
  import opened Hkdf
  import opened Masking
  import opened KeyExchanges
  import opened Messages
  import opened Opaque
  import opened EndToEnd
  import Env = Envelope

  /** The stretching of this call's OPRF output fails. */
  predicate StretchFails(cs: Suite, password: Bytes, blind: Scalar, evaluation: Elem, ksf: Option<Ksf>) {
    var output := Finalize(cs.oprf, cs.oprfHash, password, blind, evaluation);
    output.Ok? && ksf.GetOr(cs.defaultKsf).stretch(output.value) == None
  }

  /** The seed of this envelope derives no key. */
  predicate SeedFails(h: HashFn, g: Group, e: Env.Envelope, prk: Bytes)
    requires h.Lawful()
  {
    var seed := Expand(h, prk, e.nonce + Env.STR_PRIVATE_KEY, g.nsk);
    seed.Ok? && g.deriveScalar(seed.value).None?
  }

  /** The seed of the envelope that this password unmasks derives no key. */
  predicate DerivationFails(cs: Suite, prk: Bytes, nonce: Bytes, masked: MaskedResponse)
    requires cs.oprfHash.Lawful()
  {
    var maskingKey := Expand(cs.oprfHash, prk, STR_MASKING_KEY, cs.oprfHash.nh);
    && maskingKey.Ok?
    && var unmasked := UnmaskSpec(cs.oprfHash, cs.group, maskingKey.value, nonce, masked);
       unmasked.Ok? && SeedFails(cs.oprfHash, cs.group, unmasked.value.1, prk)
  }

  /** An identifier or the context is too long for its length prefix. */
  predicate IdsTooLong(ids: Ids) {
    |ids.client.GetOr([])| >= 0x1_0000 || |ids.server.GetOr([])| >= 0x1_0000
  }

  predicate TooLong(params: LoginParameters) {
    |params.context.GetOr([])| >= 0x1_0000 || IdsTooLong(params.ids)
  }

  lemma PasswordErrors(cs: Suite, password: Bytes, blind: Scalar, evaluation: Elem, ksf: Option<Ksf>)
    requires cs.oprfHash.Lawful()
    ensures match PasswordDerivedKey(cs, password, blind, evaluation, ksf)
            case Ok(prk) => |prk| == cs.oprfHash.nh && |password| < 0x1_0000
                            && !StretchFails(cs, password, blind, evaluation, ksf)
            case Err(error) =>
              if |password| >= 0x1_0000 then error == LibraryError(OprfError(Input))
              else error == LibraryError(KsfError) && StretchFails(cs, password, blind, evaluation, ksf)
  {
  }

  lemma OpenErrors(h: HashFn, g: Group, e: Env.Envelope, prk: Bytes, serverPk: PublicKey, ids: Ids)
    requires h.Lawful() && g.Lawful() && g.nsk <= 255 * h.nh && |prk| == h.nh
    requires e.mode == Env.Internal && g.validPk(serverPk)
    ensures var r := Env.Open(h, g, e, prk, serverPk, ids);
            if SeedFails(h, g, e, prk) then r == Err(LibraryError(OprfError(DeriveKeyPair)))
            else || (r.Ok? && !IdsTooLong(ids)) || r == Err(LibraryError(SealOpenHmacError))
                 || (r == Err(SerializationError) && IdsTooLong(ids))
  {
    var keys := Env.RecoverKeys(h, g, prk, e.nonce);
    if keys.Ok? {
      Env.RecoveredKeysMatch(h, g, prk, e.nonce);
      assert |g.serializePk(keys.value.pk)| == g.npk && |g.serializePk(serverPk)| == g.npk;
    }
  }

  /** Unmasking and opening fail as an invalid login, or for a cause outside. */
  lemma RecoverErrors(cs: Suite, prk: Bytes, nonce: Bytes, masked: MaskedResponse, ids: Ids)
    requires cs.oprfHash.Lawful() && cs.group.Lawful() && |prk| == cs.oprfHash.nh
    requires MaskedLen(cs.oprfHash, cs.group) <= 255 * cs.oprfHash.nh && cs.group.nsk <= 255 * cs.oprfHash.nh
    ensures var r := RecoverCredentials(cs, prk, nonce, masked, ids);
            if DerivationFails(cs, prk, nonce, masked) then r == Err(LibraryError(OprfError(DeriveKeyPair)))
            else || (r.Ok? && !IdsTooLong(ids)) || r == Err(InvalidLoginError)
                 || (r == Err(SerializationError) && IdsTooLong(ids))
  {
    var h, g := cs.oprfHash, cs.group;
    var maskingKey := Expand(h, prk, STR_MASKING_KEY, h.nh).value;
    UnmaskErrors(h, g, maskingKey, nonce, masked);
    var unmasked := UnmaskSpec(h, g, maskingKey, nonce, masked);
    if unmasked.Ok? {
      OpenErrors(h, g, unmasked.value.1, prk, unmasked.value.0, ids);
    }
  }

  /** The outcome of the last step when the element did not come back unchanged. */
  ghost predicate Classified(cs: Suite, state: ClientLogin, password: Bytes, response: CredentialResponse,
                             params: LoginParameters, ksf: Option<Ksf>, r: Result<LoginResult>)
    requires cs.oprfHash.Lawful()
  {
    var derived := PasswordDerivedKey(cs, password, state.blind, response.evaluation, ksf);
    if |password| >= 0x1_0000 then r == Err(LibraryError(OprfError(Input)))
    else if StretchFails(cs, password, state.blind, response.evaluation, ksf) then r == Err(LibraryError(KsfError))
    else
      && derived.Ok?
      && if DerivationFails(cs, derived.value, response.maskingNonce, response.masked) then
           r == Err(LibraryError(OprfError(DeriveKeyPair)))
         else || (r.Ok? && !TooLong(params)) || r == Err(InvalidLoginError)
              || (r == Err(SerializationError) && TooLong(params))
  }

  /**
   For every response and password, the client's last step reports reflection exactly when the element came back
   unchanged; otherwise a password that is too long, the failed stretching of this OPRF output and the failed derivation
   of this envelope's key each have their own error, in that order, and what remains is success, never with a context or
   identifier that is too long, an invalid login, or a serialization error for such a length.
   */
  lemma FinishErrors(cs: Suite, state: ClientLogin, tape: Tape, pos: nat, password: Bytes, response: CredentialResponse,
                     params: LoginParameters, ksf: Option<Ksf>)
    requires cs.Lawful() && cs.oprfHash.Lawful() && cs.kx.keHash.Lawful()
    requires FirstTyped(cs.kx, state.request.ke1) && ClientTyped(cs.kx, state.ke1State)
             && SecondTyped(cs.kx, response.ke2)
    ensures var r := ClientLoginFinish(cs, state, tape, pos, password, response, params, ksf);
            if state.request.blinded == response.evaluation then r == Err(ReflectedValueError)
            else Classified(cs, state, password, response, params, ksf, r)
  {
    if state.request.blinded != response.evaluation {
      PasswordErrors(cs, password, state.blind, response.evaluation, ksf);
      var derived := PasswordDerivedKey(cs, password, state.blind, response.evaluation, ksf);
      if derived.Ok? {
        FinishAfterPassword(cs, state, tape, pos, password, response, params, ksf, derived.value);
      }
    }
  }

  /** A failure to recover the credentials, or a context that is too long, is the failure of the whole step. */
  lemma FinishFailsEarly(cs: Suite, state: ClientLogin, tape: Tape, pos: nat, password: Bytes,
                         response: CredentialResponse, params: LoginParameters, ksf: Option<Ksf>, prk: Bytes)
    requires cs.oprfHash.Lawful() && cs.kx.keHash.Lawful()
    requires FirstTyped(cs.kx, state.request.ke1) && ClientTyped(cs.kx, state.ke1State)
             && SecondTyped(cs.kx, response.ke2)
    requires state.request.blinded != response.evaluation
    requires PasswordDerivedKey(cs, password, state.blind, response.evaluation, ksf) == Ok(prk)
    ensures var r := ClientLoginFinish(cs, state, tape, pos, password, response, params, ksf);
            match RecoverCredentials(cs, prk, response.maskingNonce, response.masked, params.ids)
            case Err(error) => r == Err(error)
            case Ok(_) => ContextFrom(params.context).Err? ==> r == Err(SerializationError)
  {
  }

  /** With the credentials recovered, only the key exchange can fail. */
  lemma FinishFailsLate(cs: Suite, state: ClientLogin, tape: Tape, pos: nat, password: Bytes,
                        response: CredentialResponse,
                        params: LoginParameters, ksf: Option<Ksf>, prk: Bytes, serverSPk: PublicKey,
                        credentials: Env.OpenedEnvelope, context: SerializedContext)
    requires cs.oprfHash.Lawful() && cs.kx.keHash.Lawful()
    requires FirstTyped(cs.kx, state.request.ke1) && ClientTyped(cs.kx, state.ke1State)
             && SecondTyped(cs.kx, response.ke2)
    requires state.request.blinded != response.evaluation
    requires PasswordDerivedKey(cs, password, state.blind, response.evaluation, ksf) == Ok(prk)
    requires RecoverCredentials(cs, prk, response.maskingNonce, response.masked, params.ids) ==
             Ok((serverSPk, credentials))
    requires ContextFrom(params.context) == Ok(context)
    ensures var r := ClientLoginFinish(cs, state, tape, pos, password, response, params, ksf);
            r.Err? ==> r.error == InvalidLoginError
  {
    ClientFinishIsKe3(cs, state, tape, pos, password, response, params, ksf, prk, serverSPk, credentials, context);
    Ke3Errors(cs, tape, pos, ClientInputs(cs, context, credentials, state.request, response.ToParts(cs)),
              state.ke1State, response.ke2, serverSPk, credentials.clientKeyPair.sk);
  }

  lemma FinishAfterPassword(cs: Suite, state: ClientLogin, tape: Tape, pos: nat, password: Bytes,
                            response: CredentialResponse, params: LoginParameters, ksf: Option<Ksf>, prk: Bytes)
    requires cs.oprfHash.Lawful() && cs.kx.keHash.Lawful() && cs.group.Lawful() && |prk| == cs.oprfHash.nh
    requires MaskedLen(cs.oprfHash, cs.group) <= 255 * cs.oprfHash.nh && cs.group.nsk <= 255 * cs.oprfHash.nh
    requires FirstTyped(cs.kx, state.request.ke1) && ClientTyped(cs.kx, state.ke1State)
             && SecondTyped(cs.kx, response.ke2)
    requires state.request.blinded != response.evaluation
    requires PasswordDerivedKey(cs, password, state.blind, response.evaluation, ksf) == Ok(prk)
    ensures var r := ClientLoginFinish(cs, state, tape, pos, password, response, params, ksf);
            if DerivationFails(cs, prk, response.maskingNonce, response.masked) then
              r == Err(LibraryError(OprfError(DeriveKeyPair)))
            else || (r.Ok? && !TooLong(params)) || r == Err(InvalidLoginError)
                 || (r == Err(SerializationError) && TooLong(params))
  {
    RecoverErrors(cs, prk, response.maskingNonce, response.masked, params.ids);
    FinishFailsEarly(cs, state, tape, pos, password, response, params, ksf, prk);
    var recovered := RecoverCredentials(cs, prk, response.maskingNonce, response.masked, params.ids);
    var context := ContextFrom(params.context);
    if recovered.Ok? && context.Ok? {
      FinishFailsLate(cs, state, tape, pos, password, response, params, ksf, prk, recovered.value.0, recovered.value.1,
                      context.value);
    }
  }

  /**
   With context and identifiers under 65536 bytes, the client learns nothing but success, reflection or an invalid login
   if and only if the OPRF accepts its password, the stretching succeeds and the envelope's seed derives a key; for a
   reflected element always.
   */
  lemma OnlyInvalidLogin(cs: Suite, state: ClientLogin, tape: Tape, pos: nat, password: Bytes,
                         response: CredentialResponse, params: LoginParameters, ksf: Option<Ksf>)
    requires cs.Lawful() && cs.oprfHash.Lawful() && cs.kx.keHash.Lawful()
    requires FirstTyped(cs.kx, state.request.ke1) && ClientTyped(cs.kx, state.ke1State)
             && SecondTyped(cs.kx, response.ke2)
    requires !TooLong(params)
    ensures var r := ClientLoginFinish(cs, state, tape, pos, password, response, params, ksf);
            var derived := PasswordDerivedKey(cs, password, state.blind, response.evaluation, ksf);
            r.Ok? || r.error == ReflectedValueError || r.error == InvalidLoginError
            <==> || state.request.blinded == response.evaluation
                 || (&& |password| < 0x1_0000
                     && !StretchFails(cs, password, state.blind, response.evaluation, ksf)
                     && !DerivationFails(cs, derived.value, response.maskingNonce, response.masked))
  {
    FinishErrors(cs, state, tape, pos, password, response, params, ksf);
  }

  /** A registration reports reflection exactly when the element came back unchanged. */
  lemma RegistrationReflects(cs: Suite, state: ClientRegistration, tape: Tape, pos: nat, password: Bytes,
                             response: RegistrationResponse, ids: Ids, ksf: Option<Ksf>)
    requires cs.oprfHash.Lawful()
    ensures ClientRegistrationFinish(cs, state, tape, pos, password, response, ids, ksf) == Err(ReflectedValueError)
       <==> state.blinded == response.evaluation
  {
    PasswordErrors(cs, password, state.blind, response.evaluation, ksf);
  }

  /**
   The zero mode of a fake record never reaches `open`: masked and unmasked it has become internal, and no input at
   all makes the client report the mode, although opening the fake envelope as it is would.
   */
  lemma ZeroModeUnreachable(cs: Suite, setup: ServerSetup, maskingKey: Bytes, nonce: Bytes, prk: Bytes,
                            serverSPk: PublicKey, ids: Ids)
    requires cs.Lawful() && cs.oprfHash.Lawful() && cs.group.validPk(setup.keypair.pk) && |maskingKey| == cs.oprfHash.nh
    ensures var fake := DummyRecord(cs, setup, maskingKey).envelope;
            && Env.Open(cs.oprfHash, cs.group, fake, prk, serverSPk, ids) ==
               Err(LibraryError(IncompatibleEnvelopeModeError))
            && var masked := MaskSpec(cs.oprfHash, cs.group, maskingKey, nonce, setup.keypair.pk, fake);
               && masked.Ok?
               && UnmaskSpec(cs.oprfHash, cs.group, maskingKey, nonce, masked.value)
                  == Ok((setup.keypair.pk, fake.(mode := Env.Internal)))
  {
    var fake := DummyRecord(cs, setup, maskingKey).envelope;
    MaskOk(cs.oprfHash, cs.group, maskingKey, nonce, setup.keypair.pk, fake);
    UnmaskAfterMask(cs.oprfHash, cs.group, maskingKey, nonce, setup.keypair.pk, fake);
  }
}
