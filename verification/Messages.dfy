/** The messages and stored states of the protocol and their encodings (src/messages.rs, src/opaque.rs). */
module Messages {
  import opened Errors
  import opened Serialization
  import opened Primitives
  import opened Keypair
  import opened Masking
  import opened Transcript
  import opened KeCodecs
  import opened KeyExchanges
  import Env = Envelope

  // ---------------------------------------------------------------------
  // Key exchange parts, as the cipher suite selects them
  // ---------------------------------------------------------------------

  function SerializeFirst(cs: Suite, m: FirstMessage): Bytes {
    match m
    case DhFirst(m) => SerializeKe1Message(cs.EphGroup(), m)
    case KemFirst(m) => SerializeKemKe1Message(cs.EphGroup(), m)
  }

  function TakeFirst(cs: Suite, input: Bytes): (r: Result<(FirstMessage, Bytes)>)
    ensures r.Ok? ==> FirstTyped(cs.kx, r.value.0)
  {
    match cs.kx
    case TripleDhKem(_, kem) =>
      var (m, r) :- TakeKemKe1Message(cs.EphGroup(), kem, input);
      Ok((KemFirst(m), r))
    case _ =>
      var (m, r) :- TakeKe1Message(cs.EphGroup(), input);
      Ok((DhFirst(m), r))
  }

  ghost predicate FirstWellFormed(cs: Suite, m: FirstMessage) {
    FirstTyped(cs.kx, m) && m.DhPart().WellFormed(cs.EphGroup()) && (m.KemFirst? ==> |m.kem.kemEk| == cs.kx.kem.nek)
  }

  lemma FirstCodec(cs: Suite, m: FirstMessage, rest: Bytes, input: Bytes)
    requires cs.EphGroup().Lawful()
    ensures FirstWellFormed(cs, m) ==> TakeFirst(cs, SerializeFirst(cs, m) + rest) == Ok((m, rest))
    ensures TakeFirst(cs, input).Ok? ==>
              var (t, r) := TakeFirst(cs, input).value;
              FirstWellFormed(cs, t) && input == SerializeFirst(cs, t) + r
  {
    match m
    case DhFirst(dh) => Ke1MessageCodec(cs.EphGroup(), dh, rest, input);
    case KemFirst(kem) => Ke1MessageCodec(cs.EphGroup(), kem.dhMessage, rest, input);
    if cs.kx.TripleDhKem? {
      var any := DhKem.KemKe1Message(m.DhPart(), []);
      KemKe1MessageCodec(cs.EphGroup(), cs.kx.kem, if m.KemFirst? then m.kem else any, rest, input);
    }
  }

  function SerializeClientState(cs: Suite, s: ClientState): Bytes
    requires ClientTyped(cs.kx, s)
  {
    match s
    case DhClient(s) => SerializeKe1State(cs.EphGroup(), s)
    case KemClient(s) => SerializeKemKe1State(cs.EphGroup(), cs.kx.kem, s)
  }

  function TakeClientState(cs: Suite, input: Bytes): (r: Result<(ClientState, Bytes)>)
    ensures r.Ok? ==> ClientTyped(cs.kx, r.value.0)
  {
    match cs.kx
    case TripleDhKem(_, kem) =>
      var (s, r) :- TakeKemKe1State(cs.EphGroup(), kem, input);
      Ok((KemClient(s), r))
    case _ =>
      var (s, r) :- TakeKe1State(cs.EphGroup(), input);
      Ok((DhClient(s), r))
  }

  ghost predicate ClientStateWellFormed(cs: Suite, s: ClientState) {
    ClientTyped(cs.kx, s) && match s
      case DhClient(s) => cs.EphGroup().validSk(s.clientESk) && |s.clientNonce| == NONCE_LEN
      case KemClient(s) => cs.EphGroup().validSk(s.dhState.clientESk) && |s.dhState.clientNonce| == NONCE_LEN
                           && cs.kx.kem.validDk(s.kemDk)
  }

  lemma ClientStateCodec(cs: Suite, s: ClientState, rest: Bytes, input: Bytes)
    requires cs.EphGroup().Lawful() && (cs.kx.TripleDhKem? ==> cs.kx.kem.Lawful())
    ensures ClientStateWellFormed(cs, s) ==> TakeClientState(cs, SerializeClientState(cs, s) + rest) == Ok((s, rest))
    ensures TakeClientState(cs, input).Ok? ==>
              var (t, r) := TakeClientState(cs, input).value;
              ClientStateWellFormed(cs, t) && input == SerializeClientState(cs, t) + r
  {
    match cs.kx
    case TripleDhKem(_, kem) =>
      var any := DhKem.KemKe1State(Ke1State(PrivateKey([]), []), DecapKey([]));
      KemKe1StateCodec(cs.EphGroup(), kem, if s.KemClient? then s.kem else any, rest, input);
    case _ =>
      Ke1StateCodec(cs.EphGroup(), if s.DhClient? then s.dh else s.kem.dhState, rest, input);
  }

  function SerializeServerState(cs: Suite, s: ServerState): Bytes {
    match s
    case DhServer(s) => SerializeDhState(s)
    case KemServer(s) => SerializeKemState(s)
    case SigmaServer(s) => SerializeSigmaState(cs.group, s)
  }

  function TakeServerState(cs: Suite, input: Bytes): (r: Result<(ServerState, Bytes)>)
    ensures r.Ok? ==> ServerTyped(cs.kx, r.value.0)
  {
    match cs.kx
    case TripleDh(h) =>
      var (s, r) :- TakeDhState(h, input);
      Ok((DhServer(s), r))
    case TripleDhKem(h, kem) =>
      var (s, r) :- TakeKemState(h, kem, input);
      Ok((KemServer(s), r))
    case SigmaI(h, sig, _) =>
      var (s, r) :- TakeSigmaState(h, cs.group, sig, ShapeOf(cs), input);
      Ok((SigmaServer(s), r))
  }

  ghost predicate ServerStateWellFormed(cs: Suite, s: ServerState) {
    ServerTyped(cs.kx, s) && match s
      case DhServer(s) => |s.sessionKey| == |s.expectedMac| == cs.kx.keHash.nh
      case KemServer(s) => KemStateWellFormed(cs.kx.keHash, cs.kx.kem, s)
      case SigmaServer(s) => SigmaStateWellFormed(cs.kx.keHash, cs.group, cs.kx.sig, ShapeOf(cs), s)
  }

  /** `ServerLogin::serialize` stores exactly this state. */
  lemma ServerStateCodec(cs: Suite, s: ServerState, rest: Bytes, input: Bytes)
    requires cs.group.Lawful()
    ensures ServerStateWellFormed(cs, s) ==> TakeServerState(cs, SerializeServerState(cs, s) + rest) == Ok((s, rest))
    ensures TakeServerState(cs, input).Ok? ==>
              var (t, r) := TakeServerState(cs, input).value;
              ServerStateWellFormed(cs, t) && input == SerializeServerState(cs, t) + r
  {
    var anyDh := Dh.Ke2State([], []);
    match cs.kx
    case TripleDh(h) =>
      DhStateCodec(h, if s.DhServer? then s.dh else anyDh, rest, input);
    case TripleDhKem(h, kem) =>
      KemStateCodec(h, kem, if s.KemServer? then s.kem else DhKem.KemKe2State(anyDh, [], []), rest, input);
    case SigmaI(h, sig, _) =>
      var any := Sigma.Ke2State(PublicKey([]), [], Sigma.PreHash([]), []);
      SigmaStateCodec(h, cs.group, sig, ShapeOf(cs), if s.SigmaServer? then s.sigma else any, rest, input);
  }

  function SerializeSecond(cs: Suite, m: SecondMessage): Bytes
    requires SecondTyped(cs.kx, m)
  {
    match m
    case DhSecond(m) => SerializeDhMessage(cs.EphGroup(), m)
    case KemSecond(m) => SerializeKemMessage(cs.EphGroup(), m)
    case SigmaSecond(m) => SerializeSigmaMessage(cs.EphGroup(), cs.kx.sig, m)
  }

  function TakeSecond(cs: Suite, input: Bytes): (r: Result<(SecondMessage, Bytes)>)
    ensures r.Ok? ==> SecondTyped(cs.kx, r.value.0)
  {
    match cs.kx
    case TripleDh(h) =>
      var (m, r) :- TakeDhMessage(h, cs.EphGroup(), input);
      Ok((DhSecond(m), r))
    case TripleDhKem(h, kem) =>
      var (m, r) :- TakeKemMessage(h, cs.EphGroup(), kem, input);
      Ok((KemSecond(m), r))
    case SigmaI(h, sig, e) =>
      var (m, r) :- TakeSigmaMessage(h, e, sig, input);
      Ok((SigmaSecond(m), r))
  }

  ghost predicate SecondWellFormed(cs: Suite, m: SecondMessage) {
    SecondTyped(cs.kx, m) && match m
      case DhSecond(m) => m.WellFormed(cs.kx.keHash, cs.EphGroup())
      case KemSecond(m) => m.dhMessage.WellFormed(cs.kx.keHash, cs.EphGroup()) && |m.kemCiphertext| == cs.kx.kem.nct
      case SigmaSecond(m) => m.WellFormed(cs.kx.keHash, cs.kx.sig, cs.EphGroup())
  }

  lemma SecondCodec(cs: Suite, m: SecondMessage, rest: Bytes, input: Bytes)
    requires cs.EphGroup().Lawful() && (cs.kx.SigmaI? ==> cs.kx.sig.Lawful(cs.group))
    ensures SecondWellFormed(cs, m) ==> TakeSecond(cs, SerializeSecond(cs, m) + rest) == Ok((m, rest))
    ensures TakeSecond(cs, input).Ok? ==>
              var (t, r) := TakeSecond(cs, input).value;
              SecondWellFormed(cs, t) && input == SerializeSecond(cs, t) + r
  {
    var anyDh := Dh.Ke2Message([], PublicKey([]), []);
    match cs.kx
    case TripleDh(h) =>
      DhMessageCodec(h, cs.EphGroup(), if m.DhSecond? then m.dh else anyDh, rest, input);
    case TripleDhKem(h, kem) =>
      KemMessageCodec(h, cs.EphGroup(), kem, if m.KemSecond? then m.kem
                      else DhKem.KemKe2Message(anyDh, []), rest, input);
    case SigmaI(h, sig, e) =>
      var any := Sigma.Ke2Message([], PublicKey([]), Signature([]), []);
      SigmaMessageCodec(h, e, sig, cs.group, if m.SigmaSecond? then m.sigma else any, rest, input);
  }

  function SerializeThird(cs: Suite, m: ThirdMessage): Bytes
    requires ThirdTyped(cs.kx, m)
  {
    match m
    case DhThird(m) => m.mac
    case SigmaThird(m) => SerializeSigmaThird(cs.kx.sig, m)
  }

  function TakeThird(cs: Suite, input: Bytes): (r: Result<(ThirdMessage, Bytes)>)
    ensures r.Ok? ==> ThirdTyped(cs.kx, r.value.0)
  {
    match cs.kx
    case SigmaI(h, sig, _) =>
      var (m, r) :- TakeSigmaThird(h, sig, input);
      Ok((SigmaThird(m), r))
    case _ =>
      var (m, r) :- TakeDhThird(cs.kx.keHash, input);
      Ok((DhThird(m), r))
  }

  ghost predicate ThirdWellFormed(cs: Suite, m: ThirdMessage) {
    ThirdTyped(cs.kx, m) && match m
      case DhThird(m) => |m.mac| == cs.kx.keHash.nh
      case SigmaThird(m) => cs.kx.sig.validSig(m.signature) && |m.mac| == cs.kx.keHash.nh
  }

  /** The credential finalization is exactly this message. */
  lemma ThirdCodec(cs: Suite, m: ThirdMessage, rest: Bytes, input: Bytes)
    requires cs.kx.SigmaI? ==> cs.kx.sig.Lawful(cs.group)
    ensures ThirdWellFormed(cs, m) ==> TakeThird(cs, SerializeThird(cs, m) + rest) == Ok((m, rest))
    ensures TakeThird(cs, input).Ok? ==>
              var (t, r) := TakeThird(cs, input).value;
              ThirdWellFormed(cs, t) && input == SerializeThird(cs, t) + r
  {
    match cs.kx
    case SigmaI(h, sig, _) =>
      var any := Sigma.Ke3Message(Signature([]), []);
      SigmaThirdCodec(h, sig, cs.group, if m.SigmaThird? then m.sigma else any, rest, input);
    case _ =>
      DhThirdCodec(cs.kx.keHash, if m.DhThird? then m.dh else Dh.Ke3Message([]), rest, input);
  }

  // ---------------------------------------------------------------------
  // OPRF elements and scalars
  // ---------------------------------------------------------------------

  /** A slice that is too short is a serialization error, bytes that are no element are a library error. */
  function TakeElem(o: Oprf, input: Bytes): Result<(Elem, Bytes)> {
    if |input| < o.noe then Err(SerializationError)
    else
      var e :- OkOr(o.parseElem(input[..o.noe]), LibraryError(OprfError(Deserialization)));
      Ok((e, input[o.noe..]))
  }

  function TakeScalar(o: Oprf, input: Bytes): Result<(Scalar, Bytes)> {
    if |input| < o.nok then Err(SerializationError)
    else
      var k :- OkOr(o.parseScalar(input[..o.nok]), LibraryError(OprfError(Deserialization)));
      Ok((k, input[o.nok..]))
  }

  lemma ElemCodec(o: Oprf, e: Elem, rest: Bytes, input: Bytes)
    requires o.LawfulEncodings()
    ensures o.validElem(e) ==> TakeElem(o, o.serializeElem(e) + rest) == Ok((e, rest))
    ensures TakeElem(o, input).Ok? ==>
              var (t, r) := TakeElem(o, input).value;
              o.validElem(t) && input == o.serializeElem(t) + r
  {
    TakeCat(o.serializeElem(e), rest, "");
    if |input| >= o.noe {
      TakeSplit(input, o.noe, "");
    }
  }

  lemma ScalarCodec(o: Oprf, k: Scalar, rest: Bytes, input: Bytes)
    requires o.LawfulEncodings()
    ensures o.validScalar(k) ==> TakeScalar(o, o.serializeScalar(k) + rest) == Ok((k, rest))
    ensures TakeScalar(o, input).Ok? ==>
              var (t, r) := TakeScalar(o, input).value;
              o.validScalar(t) && input == o.serializeScalar(t) + r
  {
    TakeCat(o.serializeScalar(k), rest, "");
    if |input| >= o.nok {
      TakeSplit(input, o.nok, "");
    }
  }

  // ---------------------------------------------------------------------
  // Registration
  // ---------------------------------------------------------------------

  datatype RegistrationRequest = RegistrationRequest(blinded: Elem)

  datatype RegistrationResponse = RegistrationResponse(evaluation: Elem, serverSPk: PublicKey)

  datatype RegistrationUpload = RegistrationUpload(envelope: Env.Envelope, maskingKey: Bytes, clientSPk: PublicKey) {
    ghost predicate WellFormed(cs: Suite) {
      envelope.WellFormed(cs.oprfHash) && |maskingKey| == cs.oprfHash.nh && cs.group.validPk(clientSPk)
    }
  }

  datatype ClientRegistration = ClientRegistration(blind: Scalar, blinded: Elem)

  function SerializeRegistrationRequest(cs: Suite, m: RegistrationRequest): Bytes {
    cs.oprf.serializeElem(m.blinded)
  }

  /** Bytes after the element are ignored. */
  function DeserializeRegistrationRequest(cs: Suite, input: Bytes): Result<RegistrationRequest> {
    var (blinded, _) :- TakeElem(cs.oprf, input);
    Ok(RegistrationRequest(blinded))
  }

  lemma RegistrationRequestCodec(cs: Suite, m: RegistrationRequest, rest: Bytes, input: Bytes)
    requires cs.oprf.LawfulEncodings()
    ensures cs.oprf.validElem(m.blinded) ==>
              DeserializeRegistrationRequest(cs, SerializeRegistrationRequest(cs, m) + rest) == Ok(m)
    ensures |input| == cs.oprf.noe && DeserializeRegistrationRequest(cs, input).Ok? ==>
              SerializeRegistrationRequest(cs, DeserializeRegistrationRequest(cs, input).value) == input
  {
    ElemCodec(cs.oprf, m.blinded, rest, input);
    if |input| == cs.oprf.noe {
      assert input[..cs.oprf.noe] == input;
    }
  }

  function SerializeRegistrationResponse(cs: Suite, m: RegistrationResponse): Bytes {
    cs.oprf.serializeElem(m.evaluation) + cs.group.serializePk(m.serverSPk)
  }

  function DeserializeRegistrationResponse(cs: Suite, input: Bytes): Result<RegistrationResponse> {
    var (evaluation, r) :- TakeElem(cs.oprf, input);
    var (pk, _) :- DeserializeTakePk(cs.group, r);
    Ok(RegistrationResponse(evaluation, pk))
  }

  lemma RegistrationResponseCodec(cs: Suite, m: RegistrationResponse, rest: Bytes, input: Bytes)
    requires cs.oprf.LawfulEncodings() && cs.group.Lawful()
    ensures cs.oprf.validElem(m.evaluation) && cs.group.validPk(m.serverSPk) ==>
              DeserializeRegistrationResponse(cs, SerializeRegistrationResponse(cs, m) + rest) == Ok(m)
    ensures |input| == cs.oprf.noe + cs.group.npk && DeserializeRegistrationResponse(cs, input).Ok? ==>
              SerializeRegistrationResponse(cs, DeserializeRegistrationResponse(cs, input).value) == input
  {
    var e, pk := cs.oprf.serializeElem(m.evaluation), cs.group.serializePk(m.serverSPk);
    CatAssoc(e, pk, rest);
    ElemCodec(cs.oprf, m.evaluation, pk + rest, input);
    if cs.group.validPk(m.serverSPk) {
      PkRoundTrip(cs.group, m.serverSPk, rest);
    }
    if |input| == cs.oprf.noe + cs.group.npk && DeserializeRegistrationResponse(cs, input).Ok? {
      var (t, r) := TakeElem(cs.oprf, input).value;
      PkCanonical(cs.group, r);
      var end := DeserializeTakePk(cs.group, r).value.1;
      assert end == [];
    }
  }

  function SerializeUpload(cs: Suite, m: RegistrationUpload): Bytes {
    cs.group.serializePk(m.clientSPk) + (m.maskingKey + m.envelope.Serialize())
  }

  function DeserializeUpload(cs: Suite, input: Bytes): Result<RegistrationUpload> {
    var (pk, r) :- DeserializeTakePk(cs.group, input);
    var (maskingKey, r) :- TakeArray(r, cs.oprfHash.nh, "masking key");
    var (envelope, _) :- Env.DeserializeTake(cs.oprfHash, r);
    Ok(RegistrationUpload(envelope, maskingKey, pk))
  }

  /** A record travels and is stored unchanged except that the envelope's mode comes back as internal. */
  lemma UploadCodec(cs: Suite, m: RegistrationUpload, rest: Bytes, input: Bytes)
    requires cs.group.Lawful()
    ensures m.WellFormed(cs) ==>
              DeserializeUpload(cs, SerializeUpload(cs, m) + rest) ==
                Ok(m.(envelope := m.envelope.(mode := Env.Internal)))
    ensures |input| == cs.group.npk + cs.oprfHash.nh + NONCE_LEN + cs.oprfHash.nh
            && DeserializeUpload(cs, input).Ok? ==>
              && DeserializeUpload(cs, input).value.WellFormed(cs)
              && DeserializeUpload(cs, input).value.envelope.mode == Env.Internal
              && SerializeUpload(cs, DeserializeUpload(cs, input).value) == input
  {
    var h, g := cs.oprfHash, cs.group;
    if m.WellFormed(cs) {
      var pk, e := g.serializePk(m.clientSPk), m.envelope.Serialize();
      CatAssoc(pk, m.maskingKey + e, rest);
      CatAssoc(m.maskingKey, e, rest);
      PkRoundTrip(g, m.clientSPk, m.maskingKey + (e + rest));
      TakeCat(m.maskingKey, e + rest, "masking key");
      Env.EnvelopeRoundTrip(h, m.envelope, rest);
    }
    if |input| == g.npk + h.nh + NONCE_LEN + h.nh && DeserializeUpload(cs, input).Ok? {
      PkCanonical(g, input);
      var (pk, r) := DeserializeTakePk(g, input).value;
      TakeSplit(r, h.nh, "masking key");
      Env.EnvelopeCanonical(h, r[h.nh..]);
      var (e, end) := Env.DeserializeTake(h, r[h.nh..]).value;
      assert end == [];
      assert e.Serialize() + end == e.Serialize();
    }
  }

  function SerializeClientRegistration(cs: Suite, s: ClientRegistration): Bytes {
    cs.oprf.serializeScalar(s.blind) + cs.oprf.serializeElem(s.blinded)
  }

  function DeserializeClientRegistration(cs: Suite, input: Bytes): Result<ClientRegistration> {
    var (blind, r) :- TakeScalar(cs.oprf, input);
    var (blinded, _) :- TakeElem(cs.oprf, r);
    Ok(ClientRegistration(blind, blinded))
  }

  lemma ClientRegistrationCodec(cs: Suite, s: ClientRegistration, rest: Bytes, input: Bytes)
    requires cs.oprf.LawfulEncodings()
    ensures cs.oprf.validScalar(s.blind) && cs.oprf.validElem(s.blinded) ==>
              DeserializeClientRegistration(cs, SerializeClientRegistration(cs, s) + rest) == Ok(s)
    ensures |input| == cs.oprf.nok + cs.oprf.noe && DeserializeClientRegistration(cs, input).Ok? ==>
              SerializeClientRegistration(cs, DeserializeClientRegistration(cs, input).value) == input
  {
    var k, e := cs.oprf.serializeScalar(s.blind), cs.oprf.serializeElem(s.blinded);
    CatAssoc(k, e, rest);
    ScalarCodec(cs.oprf, s.blind, e + rest, input);
    ElemCodec(cs.oprf, s.blinded, rest, []);
    if |input| == cs.oprf.nok + cs.oprf.noe && DeserializeClientRegistration(cs, input).Ok? {
      var (k, r) := TakeScalar(cs.oprf, input).value;
      ElemCodec(cs.oprf, s.blinded, [], r);
      var (e, end) := TakeElem(cs.oprf, r).value;
      assert end == [];
      assert cs.oprf.serializeElem(e) + end == cs.oprf.serializeElem(e);
    }
  }

  // ---------------------------------------------------------------------
  // Login
  // ---------------------------------------------------------------------

  datatype CredentialRequest = CredentialRequest(blinded: Elem, ke1: FirstMessage) {
    function ToParts(cs: Suite): SerializedCredentialRequest {
      SerializedCredentialRequest(cs.oprf.serializeElem(blinded))
    }

    ghost predicate WellFormed(cs: Suite) {
      cs.oprf.validElem(blinded) && FirstWellFormed(cs, ke1)
    }
  }

  datatype CredentialResponse = CredentialResponse(evaluation: Elem, maskingNonce: Bytes, masked: MaskedResponse,
                                                   ke2: SecondMessage) {
    function ToParts(cs: Suite): SerializedCredentialResponse {
      SerializedCredentialResponse(cs.oprf.serializeElem(evaluation), maskingNonce, masked)
    }

    ghost predicate WellFormed(cs: Suite) {
      && cs.oprf.validElem(evaluation) && |maskingNonce| == NONCE_LEN
      && masked.Sized(cs.oprfHash.nh, cs.group.npk) && SecondWellFormed(cs, ke2)
    }
  }

  datatype ClientLogin = ClientLogin(blind: Scalar, ke1State: ClientState, request: CredentialRequest) {
    ghost predicate WellFormed(cs: Suite) {
      cs.oprf.validScalar(blind) && ClientStateWellFormed(cs, ke1State) && request.WellFormed(cs)
    }
  }

  function SerializeCredentialRequest(cs: Suite, m: CredentialRequest): Bytes {
    cs.oprf.serializeElem(m.blinded) + SerializeFirst(cs, m.ke1)
  }

  function TakeCredentialRequest(cs: Suite, input: Bytes): (r: Result<(CredentialRequest, Bytes)>)
    ensures r.Ok? ==> FirstTyped(cs.kx, r.value.0.ke1)
  {
    var (blinded, r) :- TakeElem(cs.oprf, input);
    var (ke1, r) :- TakeFirst(cs, r);
    Ok((CredentialRequest(blinded, ke1), r))
  }

  lemma CredentialRequestCodec(cs: Suite, m: CredentialRequest, rest: Bytes, input: Bytes)
    requires cs.oprf.LawfulEncodings() && cs.EphGroup().Lawful()
    ensures m.WellFormed(cs) ==> TakeCredentialRequest(cs, SerializeCredentialRequest(cs, m) + rest) == Ok((m, rest))
    ensures TakeCredentialRequest(cs, input).Ok? ==>
              var (t, r) := TakeCredentialRequest(cs, input).value;
              t.WellFormed(cs) && input == SerializeCredentialRequest(cs, t) + r
  {
    var e, first := cs.oprf.serializeElem(m.blinded), SerializeFirst(cs, m.ke1);
    CatAssoc(e, first, rest);
    ElemCodec(cs.oprf, m.blinded, first + rest, input);
    FirstCodec(cs, m.ke1, rest, []);
    if TakeCredentialRequest(cs, input).Ok? {
      var (t, r) := TakeElem(cs.oprf, input).value;
      FirstCodec(cs, m.ke1, [], r);
      var (ke1, end) := TakeFirst(cs, r).value;
      CatAssoc(cs.oprf.serializeElem(t), SerializeFirst(cs, ke1), end);
    }
  }

  function SerializeCredentialResponse(cs: Suite, m: CredentialResponse): Bytes
    requires SecondTyped(cs.kx, m.ke2)
  {
    cs.oprf.serializeElem(m.evaluation) + (m.maskingNonce + (m.masked.Serialize() + SerializeSecond(cs, m.ke2)))
  }

  function TakeCredentialResponse(cs: Suite, input: Bytes): (r: Result<(CredentialResponse, Bytes)>)
    ensures r.Ok? ==> SecondTyped(cs.kx, r.value.0.ke2)
  {
    var (evaluation, r) :- TakeElem(cs.oprf, input);
    var (nonce, r) :- TakeArray(r, NONCE_LEN, "masking nonce");
    var (masked, r) :- DeserializeTakeMasked(cs.oprfHash.nh, cs.group.npk, r);
    var (ke2, r) :- TakeSecond(cs, r);
    Ok((CredentialResponse(evaluation, nonce, masked, ke2), r))
  }

  lemma CredentialResponseCodec(cs: Suite, m: CredentialResponse, rest: Bytes, input: Bytes)
    requires cs.oprf.LawfulEncodings() && cs.EphGroup().Lawful() && (cs.kx.SigmaI? ==> cs.kx.sig.Lawful(cs.group))
    ensures m.WellFormed(cs) ==> TakeCredentialResponse(cs, SerializeCredentialResponse(cs, m) + rest) == Ok((m, rest))
    ensures TakeCredentialResponse(cs, input).Ok? ==>
              var (t, r) := TakeCredentialResponse(cs, input).value;
              t.WellFormed(cs) && input == SerializeCredentialResponse(cs, t) + r
  {
    if m.WellFormed(cs) {
      var e, masked, second := cs.oprf.serializeElem(m.evaluation), m.masked.Serialize(), SerializeSecond(cs, m.ke2);
      CatAssoc(e, m.maskingNonce + (masked + second), rest);
      CatAssoc(m.maskingNonce, masked + second, rest);
      CatAssoc(masked, second, rest);
      ElemCodec(cs.oprf, m.evaluation, m.maskingNonce + (masked + (second + rest)), []);
      TakeCat(m.maskingNonce, masked + (second + rest), "masking nonce");
      MaskedRoundTrip(cs.oprfHash.nh, cs.group.npk, m.masked, second + rest);
      SecondCodec(cs, m.ke2, rest, []);
    }
    if TakeCredentialResponse(cs, input).Ok? {
      CredentialResponseCanonical(cs, input);
    }
  }

  lemma CredentialResponseCanonical(cs: Suite, input: Bytes)
    requires cs.oprf.LawfulEncodings() && cs.EphGroup().Lawful() && (cs.kx.SigmaI? ==> cs.kx.sig.Lawful(cs.group))
    requires TakeCredentialResponse(cs, input).Ok?
    ensures var (t, r) := TakeCredentialResponse(cs, input).value;
            t.WellFormed(cs) && input == SerializeCredentialResponse(cs, t) + r
  {
    var (m, end) := TakeCredentialResponse(cs, input).value;
    ElemCodec(cs.oprf, m.evaluation, [], input);
    var r1 := TakeElem(cs.oprf, input).value.1;
    TakeSplit(r1, NONCE_LEN, "masking nonce");
    var r2 := r1[NONCE_LEN..];
    MaskedCanonical(cs.oprfHash.nh, cs.group.npk, r2);
    var r3 := DeserializeTakeMasked(cs.oprfHash.nh, cs.group.npk, r2).value.1;
    SecondCodec(cs, m.ke2, [], r3);
    var e, masked, second := cs.oprf.serializeElem(m.evaluation), m.masked.Serialize(), SerializeSecond(cs, m.ke2);
    CatAssoc(masked, second, end);
    CatAssoc(m.maskingNonce, masked + second, end);
    CatAssoc(e, m.maskingNonce + (masked + second), end);
  }

  function SerializeClientLogin(cs: Suite, s: ClientLogin): Bytes
    requires ClientTyped(cs.kx, s.ke1State)
  {
    cs.oprf.serializeScalar(s.blind) + (SerializeCredentialRequest(cs, s.request)
                                        + SerializeClientState(cs, s.ke1State))
  }

  function DeserializeClientLogin(cs: Suite, input: Bytes): (r: Result<(ClientLogin, Bytes)>)
    ensures r.Ok? ==> ClientTyped(cs.kx, r.value.0.ke1State) && FirstTyped(cs.kx, r.value.0.request.ke1)
  {
    var (blind, r) :- TakeScalar(cs.oprf, input);
    var (request, r) :- TakeCredentialRequest(cs, r);
    var (state, r) :- TakeClientState(cs, r);
    Ok((ClientLogin(blind, state, request), r))
  }

  lemma ClientLoginCodec(cs: Suite, s: ClientLogin, rest: Bytes, input: Bytes)
    requires cs.oprf.LawfulEncodings() && cs.EphGroup().Lawful() && (cs.kx.TripleDhKem? ==> cs.kx.kem.Lawful())
    ensures s.WellFormed(cs) ==> DeserializeClientLogin(cs, SerializeClientLogin(cs, s) + rest) == Ok((s, rest))
    ensures DeserializeClientLogin(cs, input).Ok? ==>
              var (t, r) := DeserializeClientLogin(cs, input).value;
              t.WellFormed(cs) && input == SerializeClientLogin(cs, t) + r
  {
    if s.WellFormed(cs) {
      var k, req, st := cs.oprf.serializeScalar(s.blind), SerializeCredentialRequest(cs, s.request),
        SerializeClientState(cs, s.ke1State);
      CatAssoc(k, req + st, rest);
      CatAssoc(req, st, rest);
      ScalarCodec(cs.oprf, s.blind, req + (st + rest), []);
      CredentialRequestCodec(cs, s.request, st + rest, []);
      ClientStateCodec(cs, s.ke1State, rest, []);
    }
    if DeserializeClientLogin(cs, input).Ok? {
      ScalarCodec(cs.oprf, s.blind, [], input);
      var (blind, r1) := TakeScalar(cs.oprf, input).value;
      CredentialRequestCodec(cs, s.request, [], r1);
      var (request, r2) := TakeCredentialRequest(cs, r1).value;
      ClientStateCodec(cs, s.ke1State, [], r2);
      var (state, end) := TakeClientState(cs, r2).value;
      CatAssoc(SerializeCredentialRequest(cs, request), SerializeClientState(cs, state), end);
      CatAssoc(cs.oprf.serializeScalar(blind),
               SerializeCredentialRequest(cs, request) + SerializeClientState(cs, state), end);
    }
  }

  // ---------------------------------------------------------------------
  // Server setup
  // ---------------------------------------------------------------------

  datatype ServerSetup = ServerSetup(oprfSeed: Bytes, keypair: KeyPair, dummyPk: PublicKey) {
    ghost predicate WellFormed(cs: Suite) {
      |oprfSeed| == cs.oprfHash.nh && keypair.Matching(cs.group) && cs.group.validPk(dummyPk)
    }
  }

  function SerializeSetup(cs: Suite, s: ServerSetup): Bytes {
    s.oprfSeed + (SerializeKeyPair(cs.group, s.keypair) + cs.group.serializePk(s.dummyPk))
  }

  function DeserializeSetup(cs: Suite, input: Bytes): Result<(ServerSetup, Bytes)> {
    var (seed, r) :- TakeArray(input, cs.oprfHash.nh, "OPRF seed");
    var (keypair, r) :- DeserializeTakeKeyPair(cs.group, r);
    var (dummy, r) :- DeserializeTakePk(cs.group, r);
    Ok((ServerSetup(seed, keypair, dummy), r))
  }

  lemma SetupCodec(cs: Suite, s: ServerSetup, rest: Bytes, input: Bytes)
    requires cs.group.Lawful()
    ensures s.WellFormed(cs) ==> DeserializeSetup(cs, SerializeSetup(cs, s) + rest) == Ok((s, rest))
    ensures DeserializeSetup(cs, input).Ok? ==>
              var (t, r) := DeserializeSetup(cs, input).value;
              t.WellFormed(cs) && input == SerializeSetup(cs, t) + r
  {
    var g := cs.group;
    if s.WellFormed(cs) {
      var sk, pk := SerializeKeyPair(g, s.keypair), g.serializePk(s.dummyPk);
      CatAssoc(s.oprfSeed, sk + pk, rest);
      CatAssoc(sk, pk, rest);
      TakeCat(s.oprfSeed, sk + (pk + rest), "OPRF seed");
      KeyPairRoundTrip(g, s.keypair, pk + rest);
      PkRoundTrip(g, s.dummyPk, rest);
    }
    if DeserializeSetup(cs, input).Ok? {
      var (t, end) := DeserializeSetup(cs, input).value;
      TakeSplit(input, cs.oprfHash.nh, "OPRF seed");
      var r1 := input[cs.oprfHash.nh..];
      SkCanonical(g, r1);
      PkCanonical(g, DeserializeTakeSk(g, r1).value.1);
      CatAssoc(SerializeKeyPair(g, t.keypair), g.serializePk(t.dummyPk), end);
      CatAssoc(t.oprfSeed, SerializeKeyPair(g, t.keypair) + g.serializePk(t.dummyPk), end);
    }
  }
}
