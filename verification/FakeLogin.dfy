/** The login of an unregistered client runs like a real one. */
module FakeLogin {
  import opened Errors
  import opened Serialization
  import opened Primitives
  import opened Identifiers
  import opened Keypair
  import opened Masking
  import opened Transcript
  import opened KeyExchanges
  import opened Messages
  import opened Opaque
  import opened EndToEnd
  import opened Wellformedness
  import opened Wire
  import Dh = TripleDh
  import DhKem = TripleDhKem
  import Sigma = SigmaI

  /** What an observer sees in clear of the server's part of the key exchange. */
  datatype Visible = Visible(serverNonce: Bytes, serverEPk: PublicKey, kemCiphertext: Option<Bytes>)

  function VisibleOf(m: SecondMessage): Visible {
    match m
    case DhSecond(m) => Visible(m.serverNonce, m.serverEPk, None)
    case KemSecond(m) => Visible(m.dhMessage.serverNonce, m.dhMessage.serverEPk, Some(m.kemCiphertext))
    case SigmaSecond(m) => Visible(m.serverNonce, m.serverEPk, None)
  }

  /** The visible part as the tape and the client's first message alone determine it, and the tape position after it. */
  function VisibleFromTape(cs: Suite, tape: Tape, pos: nat, ke1: FirstMessage): Result<(Visible, nat)>
    requires FirstTyped(cs.kx, ke1)
  {
    var (kp, nonce, next) :- Ephemeral(cs.EphGroup(), tape, pos);
    match cs.kx
    case TripleDh(_) => Ok((Visible(nonce, kp.pk, None), next))
    case TripleDhKem(_, kem) =>
      var ek :- DhKem.ParseEk(kem, ke1.kem.kemEk);
      var (ct, _, next) := kem.encapsulate(ek, tape, next);
      Ok((Visible(nonce, kp.pk, Some(ct)), next))
    case SigmaI(_, sig, _) => Ok((Visible(nonce, kp.pk, None), next + sig.nrand))
  }

  /** The outcome of a run and the outcome of the tape alone show the same. */
  ghost predicate Shows(run: Result<(ServerState, SecondMessage, nat)>, tape: Result<(Visible, nat)>) {
    match run
    case Ok((_, message, next)) => tape == Ok((VisibleOf(message), next))
    case Err(error) => tape == Err(error)
  }

  lemma DhShows(cs: Suite, tape: Tape, pos: nat, inputs: Inputs, clientSPk: PublicKey, serverSSk: PrivateKey)
    requires cs.kx.TripleDh? && cs.kx.keHash.Lawful() && FirstTyped(cs.kx, inputs.ke1)
    ensures Shows(RunKe2(cs, tape, pos, inputs, clientSPk, serverSSk), VisibleFromTape(cs, tape, pos, inputs.ke1))
  {
    var built := Dh.Ke2BuilderSpec(cs.group, tape, pos, inputs.View(), clientSPk);
    if built.Ok? {
      var b := built.value.0;
      DhBuilt(cs.kx.keHash, b, [b.sharedSecret1, cs.group.dh(serverSSk, b.clientEPk), b.sharedSecret3]);
    }
  }

  lemma KemShows(cs: Suite, tape: Tape, pos: nat, inputs: Inputs, clientSPk: PublicKey, serverSSk: PrivateKey)
    requires cs.kx.TripleDhKem? && cs.kx.keHash.Lawful() && FirstTyped(cs.kx, inputs.ke1)
    ensures Shows(RunKe2(cs, tape, pos, inputs, clientSPk, serverSSk), VisibleFromTape(cs, tape, pos, inputs.ke1))
  {
    var built := DhKem.Ke2BuilderSpec(cs.group, cs.kx.kem, tape, pos, inputs.View(), inputs.ke1.kem.kemEk, clientSPk);
    if built.Ok? {
      var b := built.value.0;
      DhBuilt(cs.kx.keHash, b.base, DhKem.ServerSecrets(b, cs.group.dh(serverSSk, b.base.clientEPk)));
    }
  }

  /** What the builder of SIGMA-I makes of any signature shows the builder's nonce and key. */
  lemma SigmaMessageShows(cs: Suite, b: Sigma.Ke2Builder, tape: Tape, pos: nat, serverSSk: PrivateKey)
    requires cs.kx.SigmaI? && cs.kx.keHash.Lawful()
    ensures var (input, end) := Ke2Input(cs, SigmaBuilder(b), tape, pos, serverSSk);
            && end == pos + cs.kx.sig.nrand
            && BuildKe2(cs, SigmaBuilder(b), input).Ok?
            && VisibleOf(BuildKe2(cs, SigmaBuilder(b), input).value.1) == Visible(b.serverNonce, b.serverEPk, None)
  {
  }

  /** A run is a builder, the key's contribution to it, and the two put together. */
  lemma RunFromBuilder(cs: Suite, tape: Tape, pos: nat, inputs: Inputs, clientSPk: PublicKey, serverSSk: PrivateKey,
                       b: Builder, next: nat, v: Visible)
    requires cs.kx.keHash.Lawful() && FirstTyped(cs.kx, inputs.ke1) && BuilderTyped(cs.kx, b)
    requires Ke2Builder(cs, tape, pos, inputs, clientSPk) == Ok((b, next))
    requires var (input, end) := Ke2Input(cs, b, tape, next, serverSSk);
             BuildKe2(cs, b, input).Ok? && VisibleOf(BuildKe2(cs, b, input).value.1) == v
    ensures Shows(RunKe2(cs, tape, pos, inputs, clientSPk, serverSSk),
                  Ok((v, Ke2Input(cs, b, tape, next, serverSSk).1)))
  {
  }

  /** The builder for drawn key and nonce, and what its message will show. */
  lemma SigmaBuilderShows(cs: Suite, tape: Tape, pos: nat, inputs: Inputs, clientSPk: PublicKey, serverSSk: PrivateKey,
                          kp: KeyPair, nonce: Bytes, next: nat)
    returns (b: Builder)
    requires cs.kx.SigmaI? && cs.kx.keHash.Lawful() && FirstTyped(cs.kx, inputs.ke1)
    requires Ephemeral(cs.kx.ephGroup, tape, pos) == Ok((kp, nonce, next))
    ensures BuilderTyped(cs.kx, b) && Ke2Builder(cs, tape, pos, inputs, clientSPk) == Ok((b, next))
    ensures var (input, end) := Ke2Input(cs, b, tape, next, serverSSk);
            && end == next + cs.kx.sig.nrand
            && BuildKe2(cs, b, input).Ok?
            && VisibleOf(BuildKe2(cs, b, input).value.1) == Visible(nonce, kp.pk, None)
  {
    var h, e := cs.kx.keHash, cs.kx.ephGroup;
    Sigma.BuilderOk(h, e, inputs.View(), kp, nonce, clientSPk);
    var sigma := Sigma.BuilderFrom(h, e, inputs.View(), kp, nonce, clientSPk).value;
    SigmaMessageShows(cs, sigma, tape, next, serverSSk);
    b := SigmaBuilder(sigma);
  }

  lemma SigmaVisible(cs: Suite, tape: Tape, pos: nat, ke1: FirstMessage, kp: KeyPair, nonce: Bytes, next: nat, end: nat)
    requires cs.kx.SigmaI? && FirstTyped(cs.kx, ke1) && Ephemeral(cs.kx.ephGroup, tape, pos) == Ok((kp, nonce, next))
    requires end == next + cs.kx.sig.nrand
    ensures VisibleFromTape(cs, tape, pos, ke1) == Ok((Visible(nonce, kp.pk, None), end))
  {
  }

  lemma SigmaShows(cs: Suite, tape: Tape, pos: nat, inputs: Inputs, clientSPk: PublicKey, serverSSk: PrivateKey)
    requires cs.kx.SigmaI? && cs.kx.keHash.Lawful() && FirstTyped(cs.kx, inputs.ke1)
    ensures Shows(RunKe2(cs, tape, pos, inputs, clientSPk, serverSSk), VisibleFromTape(cs, tape, pos, inputs.ke1))
  {
    match Ephemeral(cs.kx.ephGroup, tape, pos)
    case Ok((kp, nonce, next)) =>
      var b := SigmaBuilderShows(cs, tape, pos, inputs, clientSPk, serverSSk, kp, nonce, next);
      SigmaVisible(cs, tape, pos, inputs.ke1, kp, nonce, next, Ke2Input(cs, b, tape, next, serverSSk).1);
      RunFromBuilder(cs, tape, pos, inputs, clientSPk, serverSSk, b, next, Visible(nonce, kp.pk, None));
    case Err(_) =>
  }

  /**
   Whether the server's part succeeds, how far it reads the tape and everything it shows in clear depend on the tape and
   the client's first message only: not on the record, the identifiers, the password or any long-term key.
   */
  lemma RunShowsTape(cs: Suite, tape: Tape, pos: nat, inputs: Inputs, clientSPk: PublicKey, serverSSk: PrivateKey)
    requires cs.kx.keHash.Lawful() && FirstTyped(cs.kx, inputs.ke1)
    ensures Shows(RunKe2(cs, tape, pos, inputs, clientSPk, serverSSk), VisibleFromTape(cs, tape, pos, inputs.ke1))
  {
    match cs.kx
    case TripleDh(_) => DhShows(cs, tape, pos, inputs, clientSPk, serverSSk);
    case TripleDhKem(_, _) => KemShows(cs, tape, pos, inputs, clientSPk, serverSSk);
    case SigmaI(_, _, _) => SigmaShows(cs, tape, pos, inputs, clientSPk, serverSSk);
  }

  // ---------------------------------------------------------------------
  // The whole response
  // ---------------------------------------------------------------------

  /** The length of a second message is fixed by the cipher suite. */
  function SecondLen(cs: Suite): nat {
    NONCE_LEN + cs.EphGroup().npk + cs.kx.keHash.nh
    + match cs.kx
      case TripleDh(_) => 0
      case TripleDhKem(_, kem) => kem.nct
      case SigmaI(_, sig, _) => sig.nsig
  }

  lemma SecondLength(cs: Suite, m: SecondMessage)
    requires cs.EphGroup().LawfulEncodings() && (cs.kx.SigmaI? ==> cs.kx.sig.Lawful(cs.group))
             && SecondWellFormed(cs, m)
    ensures |SerializeSecond(cs, m)| == SecondLen(cs)
  {
  }

  /** So is the length of a response. */
  lemma ResponseLength(cs: Suite, m: CredentialResponse)
    requires cs.oprf.LawfulEncodings() && cs.EphGroup().LawfulEncodings()
             && (cs.kx.SigmaI? ==> cs.kx.sig.Lawful(cs.group))
    requires m.WellFormed(cs)
    ensures |SerializeCredentialResponse(cs, m)| == cs.oprf.noe + NONCE_LEN + cs.MaskedLen() + SecondLen(cs)
  {
    SecondLength(cs, m.ke2);
  }

  /** Two records are prepared in the same cases, with the same evaluation and nonce. */
  ghost predicate SamePreparation(a: Result<Prepared>, b: Result<Prepared>) {
    match (a, b)
    case (Ok(p), Ok(q)) => p.evaluation == q.evaluation && p.maskingNonce == q.maskingNonce
      && p.inputs.ke1 == q.inputs.ke1
    case (Err(e), Err(f)) => e == f
    case _ => false
  }

  lemma IdentifiersAlike(g: Group, ids: Ids, a: PublicKey, b: PublicKey, serverPk: Bytes)
    requires g.Lawful() && g.validPk(a) && g.validPk(b)
    ensures match (FromIdentifiers(ids, g.serializePk(a), serverPk), FromIdentifiers(ids, g.serializePk(b), serverPk))
            case (Ok(_), Ok(_)) => true
            case (Err(e), Err(f)) => e == f
            case _ => false
  {
    assert |g.serializePk(a)| == |g.serializePk(b)|;
  }

  lemma PreparesAlike(cs: Suite, setup: ServerSetup, material: Bytes, a: RegistrationUpload, b: RegistrationUpload,
                      nonce: Bytes, request: CredentialRequest, params: LoginParameters)
    requires cs.oprfHash.Lawful() && cs.group.Lawful() && a.WellFormed(cs) && b.WellFormed(cs)
    ensures SamePreparation(PrepareResponse(cs, setup, material, a, nonce, request, params),
                            PrepareResponse(cs, setup, material, b, nonce, request, params))
  {
    MaskOk(cs.oprfHash, cs.group, a.maskingKey, nonce, setup.keypair.pk, a.envelope);
    MaskOk(cs.oprfHash, cs.group, b.maskingKey, nonce, setup.keypair.pk, b.envelope);
    IdentifiersAlike(cs.group, params.ids, a.clientSPk, b.clientSPk, cs.group.serializePk(setup.keypair.pk));
  }

  /** Two starts of the server that look alike from outside. */
  ghost predicate LookAlike(cs: Suite, a: Result<ServerStart>, b: Result<ServerStart>) {
    match (a, b)
    case (Ok(x), Ok(y)) =>
      && x.pos == y.pos
      && x.response.evaluation == y.response.evaluation
      && x.response.maskingNonce == y.response.maskingNonce
      && VisibleOf(x.response.ke2) == VisibleOf(y.response.ke2)
      && SecondTyped(cs.kx, x.response.ke2) && SecondTyped(cs.kx, y.response.ke2)
      && |SerializeCredentialResponse(cs, x.response)| == |SerializeCredentialResponse(cs, y.response)|
    case (Err(e), Err(f)) => e == f
    case _ => false
  }

  /** The parts of two starts that the preparation and the tape determine. */
  lemma StartsAlike(cs: Suite, tape: Tape, pos: nat, p: Prepared, q: Prepared, a: PublicKey, b: PublicKey,
                    sk: PrivateKey)
    requires cs.kx.keHash.Lawful() && FirstTyped(cs.kx, p.inputs.ke1)
    requires p.evaluation == q.evaluation && p.maskingNonce == q.maskingNonce && p.inputs.ke1 == q.inputs.ke1
    ensures match (StartFrom(cs, tape, pos, p, a, sk), StartFrom(cs, tape, pos, q, b, sk))
            case (Ok(x), Ok(y)) =>
              && x.pos == y.pos
              && x.response.evaluation == y.response.evaluation
              && x.response.maskingNonce == y.response.maskingNonce
              && VisibleOf(x.response.ke2) == VisibleOf(y.response.ke2)
            case (Err(e), Err(f)) => e == f
            case _ => false
  {
    RunShowsTape(cs, tape, pos, p.inputs, a, sk);
    RunShowsTape(cs, tape, pos, q.inputs, b, sk);
    StartFromIsRun(cs, tape, pos, p, a, sk);
    StartFromIsRun(cs, tape, pos, q, b, sk);
  }

  /** Two records in force give look-alike starts on the same tape. */
  lemma RecordsLookAlike(cs: Suite, tape: Tape, pos: nat, setup: ServerSetup, f: Option<RegistrationUpload>,
                         g: Option<RegistrationUpload>, a: RegistrationUpload, b: RegistrationUpload,
                         request: CredentialRequest, credentialId: Bytes, params: LoginParameters)
    requires cs.Lawful() && cs.oprfHash.Lawful() && cs.kx.keHash.Lawful()
    requires setup.WellFormed(cs) && request.WellFormed(cs)
    requires var dummy := DummyRecord(cs, setup, LoginDraws(cs, tape, pos).0);
             a == f.GetOr(dummy) && b == g.GetOr(dummy)
    requires a.WellFormed(cs) && b.WellFormed(cs)
    ensures LookAlike(cs, ServerLoginStart(cs, tape, pos, setup, f, request, credentialId, params),
                      ServerLoginStart(cs, tape, pos, setup, g, request, credentialId, params))
  {
    LoginLaws(cs);
    var (dummyKey, nonce, next) := LoginDraws(cs, tape, pos);
    var derived := OprfKeyMaterial(cs, setup.oprfSeed, credentialId);
    if derived.Ok? {
      var material := derived.value;
      PreparesAlike(cs, setup, material, a, b, nonce, request, params);
      ServerStartIs(cs, tape, pos, setup, f, a, dummyKey, nonce, next, material, request, credentialId, params);
      ServerStartIs(cs, tape, pos, setup, g, b, dummyKey, nonce, next, material, request, credentialId, params);
      var p := PrepareResponse(cs, setup, material, a, nonce, request, params);
      var q := PrepareResponse(cs, setup, material, b, nonce, request, params);
      if p.Ok? {
        StartsAlike(cs, tape, next, p.value, q.value, a.clientSPk, b.clientSPk, setup.keypair.sk);
        LengthsAlike(cs, tape, pos, setup, f, g, request, credentialId, params);
      }
    }
  }

  lemma LengthsAlike(cs: Suite, tape: Tape, pos: nat, setup: ServerSetup, f: Option<RegistrationUpload>,
                     g: Option<RegistrationUpload>, request: CredentialRequest, credentialId: Bytes,
                     params: LoginParameters)
    requires cs.Lawful() && cs.oprfHash.Lawful() && cs.kx.keHash.Lawful()
    requires setup.WellFormed(cs) && request.WellFormed(cs)
    requires (f.Some? ==> cs.group.validPk(f.value.clientSPk)) && (g.Some? ==> cs.group.validPk(g.value.clientSPk))
    ensures var x := ServerLoginStart(cs, tape, pos, setup, f, request, credentialId, params);
            var y := ServerLoginStart(cs, tape, pos, setup, g, request, credentialId, params);
            x.Ok? && y.Ok? ==>
              |SerializeCredentialResponse(cs, x.value.response)| == |SerializeCredentialResponse(cs, y.value.response)|
  {
    LoginLaws(cs);
    var x := ServerLoginStart(cs, tape, pos, setup, f, request, credentialId, params);
    var y := ServerLoginStart(cs, tape, pos, setup, g, request, credentialId, params);
    if x.Ok? && y.Ok? {
      StartedWellFormed(cs, tape, pos, setup, f, request, credentialId, params);
      StartedWellFormed(cs, tape, pos, setup, g, request, credentialId, params);
      ResponseLength(cs, x.value.response);
      ResponseLength(cs, y.value.response);
    }
  }

  /**
   A login with a stored record and one for an unregistered client, on the same tape: they succeed in the same cases
   and otherwise fail with the same error, the panic of a draw that derives no key included. When they succeed they have
   consumed the same tape bytes and give equal evaluation elements, masking nonces, server nonces, ephemeral keys and
   KEM ciphertexts in responses of equal length.
   */
  lemma FakeLooksReal(cs: Suite, tape: Tape, pos: nat, setup: ServerSetup, record: RegistrationUpload,
                      request: CredentialRequest, credentialId: Bytes, params: LoginParameters)
    requires cs.Lawful() && cs.oprfHash.Lawful() && cs.kx.keHash.Lawful()
    requires setup.WellFormed(cs) && request.WellFormed(cs) && record.WellFormed(cs)
    ensures LookAlike(cs, ServerLoginStart(cs, tape, pos, setup, Some(record), request, credentialId, params),
                      ServerLoginStart(cs, tape, pos, setup, None, request, credentialId, params))
  {
    var dummy := DummyRecord(cs, setup, LoginDraws(cs, tape, pos).0);
    RecordsLookAlike(cs, tape, pos, setup, Some(record), None, record, dummy, request, credentialId, params);
  }
}
