/** A server whose OPRF seed and private key live in a hardware module (src/opaque.rs, tests/remote_key.rs). */
module Remote {
  import opened Errors
  import opened Serialization
  import opened Primitives
  import opened Hkdf
  import opened Transcript
  import opened KeyExchanges
  import opened SigmaMessage
  import opened Messages
  import opened Opaque
  import opened KeyMaterial
  import opened EndToEnd
  import opened Endpoints
  import Sigma = SigmaI

  /** What the module offers for a private key it never shows. */
  datatype RemoteKey = RemoteKey(dh: PublicKey -> Bytes, sign: Bytes -> Signature) {
    /** The module computes with this private key, and signs with these random bytes. */
    ghost predicate Holds(cs: Suite, sk: PrivateKey, random: Bytes) {
      && (forall pk {:trigger dh(pk)} :: dh(pk) == cs.group.dh(sk, pk))
      && (cs.kx.SigmaI? ==>
            && |random| == cs.kx.sig.nrand
            && forall m {:trigger sign(m)} :: sign(m) == cs.kx.sig.sign(sk, m, random))
    }
  }

  /** The random bytes a signature draws at this position. */
  function RandomAt(cs: Suite, tape: Tape, pos: nat): Bytes {
    if cs.kx.SigmaI? then Fill(tape, pos, cs.kx.sig.nrand) else []
  }

  /**
    The builder's input with the private key elsewhere: a raw shared secret, or a signature over what the builder
    hands out.
  */
  method RemoteInput(cs: Suite, b: Builder, remote: RemoteKey, ghost tape: Tape, ghost pos: nat, ghost sk: PrivateKey)
    returns (input: BuilderInput)
    requires BuilderTyped(cs.kx, b)
    requires remote.Holds(cs, sk, RandomAt(cs, tape, pos))
    ensures input == Ke2Input(cs, b, tape, pos, sk).0
  {
    match b
    case DhBuilder(b) => input := SharedSecret(remote.dh(b.clientEPk));
    case KemBuilder(b) => input := SharedSecret(remote.dh(b.base.clientEPk));
    case SigmaBuilder(b) =>
      match cs.kx.sig.preHash
      case None =>
        input := Signed(remote.sign(Flatten(b.message.SignMessage())), Sigma.Cached(b.message.cache));
      case Some(h) =>
        var hashes := HashBoth(h, b.message);
        input := Signed(remote.sign(hashes.sign), Sigma.PreHash(hashes.verify));
  }

  /** A setup as the server process sees it: neither the seed nor the private key matter to the builder. */
  lemma BuilderIgnoresSecrets(cs: Suite, tape: Tape, pos: nat, setup: ServerSetup, setup': ServerSetup, material: Bytes,
                              file: Option<RegistrationUpload>, request: CredentialRequest, params: LoginParameters)
    requires cs.oprfHash.Lawful() && cs.kx.keHash.Lawful() && FirstTyped(cs.kx, request.ke1)
    requires setup.keypair.pk == setup'.keypair.pk && setup.dummyPk == setup'.dummyPk
    ensures LoginBuilderWithMaterial(cs, tape, pos, setup, material, file, request, params)
         == LoginBuilderWithMaterial(cs, tape, pos, setup', material, file, request, params)
  {
    var (dummyKey, nonce, next) := LoginDraws(cs, tape, pos);
    var record := file.GetOr(DummyRecord(cs, setup, dummyKey));
    assert PrepareResponse(cs, setup, material, record, nonce, request, params)
        == PrepareResponse(cs, setup', material, record, nonce, request, params);
  }

  /** A server's answer at registration carries the evaluation for the credential identifier. */
  lemma RegistrationEvaluates(cs: Suite, setup: ServerSetup, request: RegistrationRequest, credentialId: Bytes)
    requires cs.oprfHash.Lawful() && cs.oprf.Lawful()
    ensures var r := ServerRegistrationStart(cs, setup, request, credentialId);
            r.Ok? ==> EvaluatedFor(cs, setup.oprfSeed, credentialId, request.blinded, r.value.evaluation)
  {
    if ServerRegistrationStart(cs, setup, request, credentialId).Ok? {
      EvaluationIs(cs, setup.oprfSeed, credentialId, request.blinded);
    }
  }

  /** Registration with the seed in the module: the server answers as `ServerRegistration::start` with the same seed. */
  method RemoteRegistration(cs: Suite, public: ServerSetup, seed: Bytes, request: RegistrationRequest,
                            credentialId: Bytes,
                            overflowChecks: bool, ghost local: ServerSetup) returns (r: Result<RegistrationResponse>)
    requires cs.oprfHash.Lawful()
    requires local.oprfSeed == seed && cs.oprfHash.nh <= |seed| && public.keypair.pk == local.keypair.pk
    ensures r == if Pkcs11Fits(overflowChecks, cs.oprf.nok, cs.oprfHash.nh)
                 then ServerRegistrationStart(cs, local, request, credentialId) else Err(Panic)
    ensures cs.oprf.Lawful() && r.Ok? ==>
              EvaluatedFor(cs, seed, credentialId, request.blinded, r.value.evaluation)
  {
    if cs.oprf.Lawful() {
      RegistrationEvaluates(cs, local, request, credentialId);
    }
    var material :- Pkcs11Hkdf(cs.oprfHash, seed, credentialId + STR_OPRF_KEY, cs.oprf.nok, overflowChecks);
    r := ServerRegistrationWithMaterial(cs, public, material, request);
  }

  /** `ServerLogin::start` from its key material. */
  lemma StartFromMaterial(cs: Suite, tape: Tape, pos: nat, setup: ServerSetup, file: Option<RegistrationUpload>,
                          request: CredentialRequest, credentialId: Bytes, params: LoginParameters, material: Bytes)
    requires cs.oprfHash.Lawful() && cs.kx.keHash.Lawful() && FirstTyped(cs.kx, request.ke1)
    requires OprfKeyMaterial(cs, setup.oprfSeed, credentialId) == Ok(material)
    ensures match LoginBuilderWithMaterial(cs, tape, pos, setup, material, file, request, params)
            case Ok((b, next)) =>
              ServerLoginStart(cs, tape, pos, setup, file, request, credentialId, params)
              == BuildLocally(cs, tape, next, b, setup.keypair.sk)
            case Err(error) => ServerLoginStart(cs, tape, pos, setup, file, request, credentialId, params) == Err(error)
  {
  }

  /** A response and a state are the outcome of a start. */
  ghost predicate Yields(start: Result<ServerStart>, r: Result<(CredentialResponse, ServerState)>) {
    match start
    case Ok(start) => r == Ok((start.response, start.state))
    case Err(error) => r == Err(error)
  }

  /** Whatever is the outcome of a start carries the evaluation for the credential identifier. */
  lemma YieldsEvaluation(cs: Suite, tape: Tape, pos: nat, setup: ServerSetup, file: Option<RegistrationUpload>,
                         request: CredentialRequest, credentialId: Bytes, params: LoginParameters)
    requires cs.oprfHash.Lawful() && cs.kx.keHash.Lawful() && FirstTyped(cs.kx, request.ke1)
    ensures forall r :: Yields(ServerLoginStart(cs, tape, pos, setup, file, request, credentialId, params), r) ==>
              cs.oprf.Lawful() && r.Ok? ==>
                EvaluatedFor(cs, setup.oprfSeed, credentialId, request.blinded, r.value.0.evaluation)
  {
    if cs.oprf.Lawful() && ServerLoginStart(cs, tape, pos, setup, file, request, credentialId, params).Ok? {
      StartShows(cs, tape, pos, setup, file, request, credentialId, params);
    }
  }

  /** The builder completed with the module's contribution. */
  method RemoteBuild(cs: Suite, b: LoginBuilder, remote: RemoteKey, ghost tape: Tape, ghost pos: nat,
                     ghost sk: PrivateKey)
    returns (r: Result<(CredentialResponse, ServerState)>)
    requires cs.kx.keHash.Lawful() && BuilderTyped(cs.kx, b.ke2)
    requires remote.Holds(cs, sk, RandomAt(cs, tape, pos))
    ensures Yields(BuildLocally(cs, tape, pos, b, sk), r)
  {
    var input := RemoteInput(cs, b.ke2, remote, tape, pos, sk);
    var built :- FinishKe2(cs, b.ke2, input);
    r := Ok((CredentialResponse(b.evaluation, b.maskingNonce, b.masked, built.1), built.0));
  }

  // ---------------------------------------------------------------------
  // The module's own randomness
  // ---------------------------------------------------------------------

  /** The tape with these bytes at this position. */
  function Spliced(tape: Tape, at: nat, bytes: Bytes): Tape {
    (n: nat) => if at <= n < at + |bytes| then bytes[n - at] else tape(n)
  }

  /** Bytes in front of the splice are as before, and the splice is drawn as one. */
  lemma SplicedFill(tape: Tape, at: nat, bytes: Bytes, pos: nat, n: nat)
    ensures pos + n <= at ==> Fill(Spliced(tape, at, bytes), pos, n) == Fill(tape, pos, n)
    ensures Fill(Spliced(tape, at, bytes), at, |bytes|) == bytes
  {
  }

  lemma SplicedEphemeral(g: Group, tape: Tape, at: nat, bytes: Bytes, pos: nat)
    requires pos + g.nsk + NONCE_LEN <= at
    ensures Ephemeral(g, Spliced(tape, at, bytes), pos) == Ephemeral(g, tape, pos)
  {
    SplicedFill(tape, at, bytes, pos, g.nsk);
    SplicedFill(tape, at, bytes, pos + g.nsk, NONCE_LEN);
  }

  lemma SplicedDraws(cs: Suite, tape: Tape, at: nat, bytes: Bytes, pos: nat)
    requires LoginDraws(cs, tape, pos).2 <= at
    ensures LoginDraws(cs, Spliced(tape, at, bytes), pos) == LoginDraws(cs, tape, pos)
  {
    SplicedFill(tape, at, bytes, pos, cs.oprfHash.nh);
    SplicedFill(tape, at, bytes, pos + cs.oprfHash.nh, NONCE_LEN);
  }

  lemma SplicedAttach(cs: Suite, tape: Tape, bytes: Bytes, pos: nat, p: Prepared, clientSPk: PublicKey)
    requires cs.kx.SigmaI? && cs.kx.keHash.Lawful() && FirstTyped(cs.kx, p.inputs.ke1)
    requires Attach(cs, tape, pos, p, clientSPk).Ok?
    ensures var after := Attach(cs, tape, pos, p, clientSPk).value.1;
            pos <= after && Attach(cs, Spliced(tape, after, bytes), pos, p, clientSPk)
                         == Attach(cs, tape, pos, p, clientSPk)
  {
    SplicedEphemeral(cs.EphGroup(), tape, Attach(cs, tape, pos, p, clientSPk).value.1, bytes, pos);
  }

  /** The builder reads nothing behind the position where it stops. */
  lemma SplicedBuilder(cs: Suite, tape: Tape, pos: nat, setup: ServerSetup, material: Bytes,
                       file: Option<RegistrationUpload>, request: CredentialRequest, params: LoginParameters,
                       bytes: Bytes)
    requires cs.kx.SigmaI? && cs.oprfHash.Lawful() && cs.kx.keHash.Lawful() && FirstTyped(cs.kx, request.ke1)
    requires LoginBuilderWithMaterial(cs, tape, pos, setup, material, file, request, params).Ok?
    ensures var made := LoginBuilderWithMaterial(cs, tape, pos, setup, material, file, request, params);
            LoginBuilderWithMaterial(cs, Spliced(tape, made.value.1, bytes), pos, setup, material, file, request,
                                     params) == made
  {
    var (dummyKey, nonce, next) := LoginDraws(cs, tape, pos);
    var record := file.GetOr(DummyRecord(cs, setup, dummyKey));
    var p := PrepareResponse(cs, setup, material, record, nonce, request, params).value;
    SplicedAttach(cs, tape, bytes, next, p, record.clientSPk);
    SplicedDraws(cs, tape, Attach(cs, tape, next, p, record.clientSPk).value.1, bytes, pos);
  }

  /** The server's tape, with the module's random bytes where the local route would draw those of its signature. */
  function SigningTape(cs: Suite, tape: Tape, made: Result<(LoginBuilder, nat)>, random: Bytes): Tape {
    if cs.kx.SigmaI? && made.Ok? then Spliced(tape, made.value.1, random) else tape
  }

  /** With the module's bytes as the signature's draw, the local start builds on the same builder. */
  lemma LocalStart(cs: Suite, tape: Tape, pos: nat, local: ServerSetup, material: Bytes,
                   file: Option<RegistrationUpload>, request: CredentialRequest, credentialId: Bytes,
                   params: LoginParameters, random: Bytes)
    requires cs.oprfHash.Lawful() && cs.kx.keHash.Lawful() && FirstTyped(cs.kx, request.ke1)
    requires OprfKeyMaterial(cs, local.oprfSeed, credentialId) == Ok(material)
    requires cs.kx.SigmaI? ==> |random| == cs.kx.sig.nrand
    ensures var made := LoginBuilderWithMaterial(cs, tape, pos, local, material, file, request, params);
            var signing := SigningTape(cs, tape, made, random);
            match made
            case Ok((b, next)) =>
              && ServerLoginStart(cs, signing, pos, local, file, request, credentialId, params)
                 == BuildLocally(cs, signing, next, b, local.keypair.sk)
              && (cs.kx.SigmaI? ==> RandomAt(cs, signing, next) == random)
            case Err(error) =>
              ServerLoginStart(cs, signing, pos, local, file, request, credentialId, params) == Err(error)
  {
    var made := LoginBuilderWithMaterial(cs, tape, pos, local, material, file, request, params);
    if cs.kx.SigmaI? && made.Ok? {
      SplicedBuilder(cs, tape, pos, local, material, file, request, params, random);
      SplicedFill(tape, made.value.1, random, 0, 0);
    }
    StartFromMaterial(cs, SigningTape(cs, tape, made, random), pos, local, file, request, credentialId, params,
                      material);
  }

  /**
   The remote route refines the local one: the key material expanded by hand over the module's HMAC, the builder made
   from it, and the module's Diffie-Hellman value or signature give the response and the state of `ServerLogin::start`
   with the same seed and key. Whatever random bytes the module signs with, they are those of the local start whose
   signature draws them, the rest of its tape being the server's. The server process itself holds neither seed nor
   private key.
   */
  method RemoteLogin(cs: Suite, rng: TapeRng, public: ServerSetup, remote: RemoteKey, seed: Bytes,
                     file: Option<RegistrationUpload>, request: CredentialRequest, credentialId: Bytes,
                     params: LoginParameters, overflowChecks: bool, ghost local: ServerSetup, ghost random: Bytes)
    returns (r: Result<(CredentialResponse, ServerState)>)
    requires cs.oprfHash.Lawful() && cs.kx.keHash.Lawful() && FirstTyped(cs.kx, request.ke1)
    requires cs.kx.TripleDhKem? ==> cs.kx.kem.Lawful()
    requires local.oprfSeed == seed && cs.oprfHash.nh <= |seed|
    requires public.keypair.pk == local.keypair.pk && public.dummyPk == local.dummyPk
    requires remote.Holds(cs, local.keypair.sk, random)
    modifies rng
    ensures var material := OprfKeyMaterial(cs, seed, credentialId);
            if !Pkcs11Fits(overflowChecks, cs.oprf.nok, cs.oprfHash.nh) then r == Err(Panic)
            else
              && material.Ok?
              && var made := LoginBuilderWithMaterial(cs, rng.tape, old(rng.pos), local, material.value, file, request,
                                                      params);
                 var signing := SigningTape(cs, rng.tape, made, random);
                 Yields(ServerLoginStart(cs, signing, old(rng.pos), local, file, request, credentialId, params), r)
    ensures cs.oprf.Lawful() && r.Ok? ==>
              EvaluatedFor(cs, seed, credentialId, request.blinded, r.value.0.evaluation)
  {
    var material :- Pkcs11Hkdf(cs.oprfHash, seed, credentialId + STR_OPRF_KEY, cs.oprf.nok, overflowChecks);
    assert OprfKeyMaterial(cs, seed, credentialId) == Ok(material);
    LocalStart(cs, rng.tape, rng.pos, local, material, file, request, credentialId, params, random);
    BuilderIgnoresSecrets(cs, rng.tape, rng.pos, public, local, material, file, request, params);
    ghost var made := LoginBuilderWithMaterial(cs, rng.tape, rng.pos, local, material, file, request, params);
    ghost var signing, pos := SigningTape(cs, rng.tape, made, random), rng.pos;
    YieldsEvaluation(cs, signing, pos, local, file, request, credentialId, params);
    var b :- MakeLoginBuilder(cs, rng, public, material, file, request, params);
    r := RemoteBuild(cs, b, remote, signing, rng.pos, local.keypair.sk);
  }
}
