/** The consuming parsers as they run: a slice that advances in place, field by field. */
module Readers {
  import opened Errors
  import opened Serialization
  import opened Primitives
  import opened Keypair
  import opened Masking
  import opened Transcript
  import opened SigmaMessage
  import opened KeyExchanges
  import opened KeCodecs
  import opened Messages
  import Env = Envelope
  import Dh = TripleDh
  import DhKem = TripleDhKem
  import Sigma = SigmaI

  /** The slice gave what the parsing function says, and is left with what that function leaves. */
  ghost predicate Advances<T>(spec: Result<(T, Bytes)>, r: Result<T>, rest: Bytes) {
    match spec
    case Ok((value, left)) => r == Ok(value) && rest == left
    case Err(error) => r == Err(error)
  }

  // ---------------------------------------------------------------------
  // Keys
  // ---------------------------------------------------------------------

  method ReadPk(g: Group, bytes: Reader) returns (r: Result<PublicKey>)
    requires bytes.Valid()
    modifies bytes
    ensures bytes.Valid()
    ensures Advances(DeserializeTakePk(g, old(bytes.Rest())), r, bytes.Rest())
  {
    var key :- bytes.Take(g.npk, "public key");
    var pk :- OkOr(g.parsePk(key), SerializationError);
    r := Ok(pk);
  }

  method ReadSk(g: Group, bytes: Reader) returns (r: Result<PrivateKey>)
    requires bytes.Valid()
    modifies bytes
    ensures bytes.Valid()
    ensures Advances(DeserializeTakeSk(g, old(bytes.Rest())), r, bytes.Rest())
  {
    var key :- bytes.Take(g.nsk, "secret key");
    var sk :- OkOr(g.parseSk(key), SerializationError);
    r := Ok(sk);
  }

  method ReadKeyPair(g: Group, bytes: Reader) returns (r: Result<KeyPair>)
    requires bytes.Valid()
    modifies bytes
    ensures bytes.Valid()
    ensures Advances(DeserializeTakeKeyPair(g, old(bytes.Rest())), r, bytes.Rest())
  {
    var sk :- ReadSk(g, bytes);
    r := Ok(FromPrivate(g, sk));
  }

  // ---------------------------------------------------------------------
  // The key exchanges
  // ---------------------------------------------------------------------

  method ReadKe1State(g: Group, bytes: Reader) returns (r: Result<Ke1State>)
    requires bytes.Valid()
    modifies bytes
    ensures bytes.Valid()
    ensures Advances(TakeKe1State(g, old(bytes.Rest())), r, bytes.Rest())
  {
    var sk :- ReadSk(g, bytes);
    var nonce :- bytes.Take(NONCE_LEN, "client nonce");
    r := Ok(Ke1State(sk, nonce));
  }

  method ReadKe1Message(g: Group, bytes: Reader) returns (r: Result<Ke1Message>)
    requires bytes.Valid()
    modifies bytes
    ensures bytes.Valid()
    ensures Advances(TakeKe1Message(g, old(bytes.Rest())), r, bytes.Rest())
  {
    var nonce :- bytes.Take(NONCE_LEN, "client nonce");
    var pk :- ReadPk(g, bytes);
    r := Ok(Ke1Message(nonce, pk));
  }

  method ReadDhState(h: HashFn, bytes: Reader) returns (r: Result<Dh.Ke2State>)
    requires bytes.Valid()
    modifies bytes
    ensures bytes.Valid()
    ensures Advances(TakeDhState(h, old(bytes.Rest())), r, bytes.Rest())
  {
    var key :- bytes.Take(h.nh, "session key");
    var mac :- bytes.Take(h.nh, "expected mac");
    r := Ok(Dh.Ke2State(key, mac));
  }

  method ReadDhMessage(h: HashFn, g: Group, bytes: Reader) returns (r: Result<Dh.Ke2Message>)
    requires bytes.Valid()
    modifies bytes
    ensures bytes.Valid()
    ensures Advances(TakeDhMessage(h, g, old(bytes.Rest())), r, bytes.Rest())
  {
    var nonce :- bytes.Take(NONCE_LEN, "server nonce");
    var pk :- ReadPk(g, bytes);
    var mac :- bytes.Take(h.nh, "mac");
    r := Ok(Dh.Ke2Message(nonce, pk, mac));
  }

  method ReadDhThird(h: HashFn, bytes: Reader) returns (r: Result<Dh.Ke3Message>)
    requires bytes.Valid()
    modifies bytes
    ensures bytes.Valid()
    ensures Advances(TakeDhThird(h, old(bytes.Rest())), r, bytes.Rest())
  {
    var mac :- bytes.Take(h.nh, "mac");
    r := Ok(Dh.Ke3Message(mac));
  }

  method ReadKemKe1State(g: Group, kem: Kem, bytes: Reader) returns (r: Result<DhKem.KemKe1State>)
    requires bytes.Valid()
    modifies bytes
    ensures bytes.Valid()
    ensures Advances(TakeKemKe1State(g, kem, old(bytes.Rest())), r, bytes.Rest())
  {
    var dh :- ReadKe1State(g, bytes);
    var dk :- bytes.Take(kem.ndk, "kem decapsulation key");
    r := Ok(DhKem.KemKe1State(dh, kem.parseDk(dk)));
  }

  method ReadKemKe1Message(g: Group, kem: Kem, bytes: Reader) returns (r: Result<DhKem.KemKe1Message>)
    requires bytes.Valid()
    modifies bytes
    ensures bytes.Valid()
    ensures Advances(TakeKemKe1Message(g, kem, old(bytes.Rest())), r, bytes.Rest())
  {
    var dh :- ReadKe1Message(g, bytes);
    var ek :- bytes.Take(kem.nek, "kem encapsulation key");
    r := Ok(DhKem.KemKe1Message(dh, ek));
  }

  method ReadKemState(h: HashFn, kem: Kem, bytes: Reader) returns (r: Result<DhKem.KemKe2State>)
    requires bytes.Valid()
    modifies bytes
    ensures bytes.Valid()
    ensures Advances(TakeKemState(h, kem, old(bytes.Rest())), r, bytes.Rest())
  {
    var base :- ReadDhState(h, bytes);
    var ek :- bytes.Take(kem.nek, "kem encapsulation key");
    var ct :- bytes.Take(kem.nct, "kem ciphertext");
    r := Ok(DhKem.KemKe2State(base, ek, ct));
  }

  method ReadKemMessage(h: HashFn, g: Group, kem: Kem, bytes: Reader) returns (r: Result<DhKem.KemKe2Message>)
    requires bytes.Valid()
    modifies bytes
    ensures bytes.Valid()
    ensures Advances(TakeKemMessage(h, g, kem, old(bytes.Rest())), r, bytes.Rest())
  {
    var dh :- ReadDhMessage(h, g, bytes);
    var ct :- bytes.Take(kem.nct, "kem ciphertext");
    r := Ok(DhKem.KemKe2Message(dh, ct));
  }

  method ReadSignature(sig: SigScheme, bytes: Reader) returns (r: Result<Signature>)
    requires bytes.Valid()
    modifies bytes
    ensures bytes.Valid()
    ensures Advances(TakeSignature(sig, old(bytes.Rest())), r, bytes.Rest())
  {
    var encoded :- bytes.Take(sig.nsig, "signature");
    var s :- OkOr(sig.parseSig(encoded), SerializationError);
    r := Ok(s);
  }

  method ReadSigmaMessage(h: HashFn, e: Group, sig: SigScheme, bytes: Reader) returns (r: Result<Sigma.Ke2Message>)
    requires bytes.Valid()
    modifies bytes
    ensures bytes.Valid()
    ensures Advances(TakeSigmaMessage(h, e, sig, old(bytes.Rest())), r, bytes.Rest())
  {
    var nonce :- bytes.Take(NONCE_LEN, "server nonce");
    var pk :- ReadPk(e, bytes);
    var signature :- ReadSignature(sig, bytes);
    var mac :- bytes.Take(h.nh, "mac");
    r := Ok(Sigma.Ke2Message(nonce, pk, signature, mac));
  }

  method ReadSigmaThird(h: HashFn, sig: SigScheme, bytes: Reader) returns (r: Result<Sigma.Ke3Message>)
    requires bytes.Valid()
    modifies bytes
    ensures bytes.Valid()
    ensures Advances(TakeSigmaThird(h, sig, old(bytes.Rest())), r, bytes.Rest())
  {
    var signature :- ReadSignature(sig, bytes);
    var mac :- bytes.Take(h.nh, "mac");
    r := Ok(Sigma.Ke3Message(signature, mac));
  }

  method ReadParts(s: Shape, bytes: Reader) returns (r: Result<SerializedCredentialResponse>)
    requires bytes.Valid()
    modifies bytes
    ensures bytes.Valid()
    ensures Advances(TakeParts(s, old(bytes.Rest())), r, bytes.Rest())
  {
    var element :- bytes.Take(s.noe, "evaluation element");
    var nonce :- bytes.Take(NONCE_LEN, "masking nonce");
    var masked :- ReadMasked(s.nh, s.npk, bytes);
    r := Ok(SerializedCredentialResponse(element, nonce, masked));
  }

  method ReadCached(s: Shape, nh: nat, bytes: Reader) returns (r: Result<CachedMessage>)
    requires bytes.Valid()
    modifies bytes
    ensures bytes.Valid()
    ensures Advances(TakeCached(s, nh, old(bytes.Rest())), r, bytes.Rest())
  {
    var element :- bytes.Take(s.noe, "blinded element");
    var nonce :- bytes.Take(NONCE_LEN, "client nonce");
    var pk :- bytes.Take(s.nepk, "client ephemeral public key");
    var response :- ReadParts(s, bytes);
    var serverNonce :- bytes.Take(NONCE_LEN, "server nonce");
    var serverEPk :- bytes.Take(s.nepk, "serialized server ephemeral key");
    var serverMac :- bytes.Take(nh, "server mac");
    r := Ok(CachedMessage(SerializedCredentialRequest(element), Ke1MessageIter(nonce, pk), response, serverNonce,
                          serverEPk, serverMac));
  }

  method ReadVerifyState(sig: SigScheme, s: Shape, nh: nat, bytes: Reader) returns (r: Result<Sigma.VerifyState>)
    requires bytes.Valid()
    modifies bytes
    ensures bytes.Valid()
    ensures Advances(TakeVerifyState(sig, s, nh, old(bytes.Rest())), r, bytes.Rest())
  {
    match sig.preHash
    case None =>
      var c :- ReadCached(s, nh, bytes);
      r := Ok(Sigma.Cached(c));
    case Some(h) =>
      var digest :- bytes.Take(h.nh, "pre-hash");
      r := Ok(Sigma.PreHash(digest));
  }

  method ReadSigmaState(h: HashFn, group: Group, sig: SigScheme, s: Shape, bytes: Reader)
    returns (r: Result<Sigma.Ke2State>)
    requires bytes.Valid()
    modifies bytes
    ensures bytes.Valid()
    ensures Advances(TakeSigmaState(h, group, sig, s, old(bytes.Rest())), r, bytes.Rest())
  {
    var pk :- ReadPk(group, bytes);
    var key :- bytes.Take(h.nh, "session key");
    var v :- ReadVerifyState(sig, s, h.nh, bytes);
    var mac :- bytes.Take(h.nh, "expected mac");
    r := Ok(Sigma.Ke2State(pk, key, v, mac));
  }

  method ReadEnvelope(h: HashFn, bytes: Reader) returns (r: Result<Env.Envelope>)
    requires bytes.Valid()
    modifies bytes
    ensures bytes.Valid()
    ensures Advances(Env.DeserializeTake(h, old(bytes.Rest())), r, bytes.Rest())
  {
    var nonce :- bytes.Take(NONCE_LEN, "nonce");
    var hmac :- bytes.Take(h.nh, "hmac");
    r := Ok(Env.Envelope(Env.Internal, nonce, hmac));
  }

  // ---------------------------------------------------------------------
  // The selected exchange
  // ---------------------------------------------------------------------

  method ReadFirst(cs: Suite, bytes: Reader) returns (r: Result<FirstMessage>)
    requires bytes.Valid()
    modifies bytes
    ensures bytes.Valid()
    ensures Advances(TakeFirst(cs, old(bytes.Rest())), r, bytes.Rest())
  {
    match cs.kx
    case TripleDhKem(_, kem) =>
      var m :- ReadKemKe1Message(cs.EphGroup(), kem, bytes);
      r := Ok(KemFirst(m));
    case _ =>
      var m :- ReadKe1Message(cs.EphGroup(), bytes);
      r := Ok(DhFirst(m));
  }

  method ReadClientState(cs: Suite, bytes: Reader) returns (r: Result<ClientState>)
    requires bytes.Valid()
    modifies bytes
    ensures bytes.Valid()
    ensures Advances(TakeClientState(cs, old(bytes.Rest())), r, bytes.Rest())
  {
    match cs.kx
    case TripleDhKem(_, kem) =>
      var s :- ReadKemKe1State(cs.EphGroup(), kem, bytes);
      r := Ok(KemClient(s));
    case _ =>
      var s :- ReadKe1State(cs.EphGroup(), bytes);
      r := Ok(DhClient(s));
  }

  method ReadServerState(cs: Suite, bytes: Reader) returns (r: Result<ServerState>)
    requires bytes.Valid()
    modifies bytes
    ensures bytes.Valid()
    ensures Advances(TakeServerState(cs, old(bytes.Rest())), r, bytes.Rest())
    ensures cs.group.Lawful() ==>
              forall m: ServerState, rest ::
                ServerStateWellFormed(cs, m)
                && old(bytes.Rest()) == SerializeServerState(cs, m) + rest ==>
                  r == Ok(m) && bytes.Rest() == rest
  {
    forall m: ServerState, rest | cs.group.Lawful() && ServerStateWellFormed(cs, m)
      && bytes.Rest() == SerializeServerState(cs, m) + rest
      ensures TakeServerState(cs, bytes.Rest()) == Ok((m, rest))
    {
      ServerStateCodec(cs, m, rest, []);
    }
    match cs.kx
    case TripleDh(h) =>
      var s :- ReadDhState(h, bytes);
      r := Ok(DhServer(s));
    case TripleDhKem(h, kem) =>
      var s :- ReadKemState(h, kem, bytes);
      r := Ok(KemServer(s));
    case SigmaI(h, sig, _) =>
      var s :- ReadSigmaState(h, cs.group, sig, ShapeOf(cs), bytes);
      r := Ok(SigmaServer(s));
  }

  method ReadSecond(cs: Suite, bytes: Reader) returns (r: Result<SecondMessage>)
    requires bytes.Valid()
    modifies bytes
    ensures bytes.Valid()
    ensures Advances(TakeSecond(cs, old(bytes.Rest())), r, bytes.Rest())
  {
    match cs.kx
    case TripleDh(h) =>
      var m :- ReadDhMessage(h, cs.EphGroup(), bytes);
      r := Ok(DhSecond(m));
    case TripleDhKem(h, kem) =>
      var m :- ReadKemMessage(h, cs.EphGroup(), kem, bytes);
      r := Ok(KemSecond(m));
    case SigmaI(h, sig, e) =>
      var m :- ReadSigmaMessage(h, e, sig, bytes);
      r := Ok(SigmaSecond(m));
  }

  method ReadThird(cs: Suite, bytes: Reader) returns (r: Result<ThirdMessage>)
    requires bytes.Valid()
    modifies bytes
    ensures bytes.Valid()
    ensures Advances(TakeThird(cs, old(bytes.Rest())), r, bytes.Rest())
    ensures (cs.kx.SigmaI? ==> cs.kx.sig.Lawful(cs.group)) ==>
              forall m: ThirdMessage, rest ::
                ThirdWellFormed(cs, m)
                && old(bytes.Rest()) == SerializeThird(cs, m) + rest ==>
                  r == Ok(m) && bytes.Rest() == rest
  {
    forall m: ThirdMessage, rest | (cs.kx.SigmaI? ==> cs.kx.sig.Lawful(cs.group)) && ThirdWellFormed(cs, m)
      && bytes.Rest() == SerializeThird(cs, m) + rest
      ensures TakeThird(cs, bytes.Rest()) == Ok((m, rest))
    {
      ThirdCodec(cs, m, rest, []);
    }
    match cs.kx
    case SigmaI(h, sig, _) =>
      var m :- ReadSigmaThird(h, sig, bytes);
      r := Ok(SigmaThird(m));
    case _ =>
      var m :- ReadDhThird(cs.kx.keHash, bytes);
      r := Ok(DhThird(m));
  }

  // ---------------------------------------------------------------------
  // Messages and stored states
  // ---------------------------------------------------------------------

  method ReadElem(o: Oprf, bytes: Reader) returns (r: Result<Elem>)
    requires bytes.Valid()
    modifies bytes
    ensures bytes.Valid()
    ensures Advances(TakeElem(o, old(bytes.Rest())), r, bytes.Rest())
  {
    if bytes.Left() < o.noe {
      return Err(SerializationError);
    }
    var front := bytes.Take(o.noe, "");
    var e :- OkOr(o.parseElem(front.value), LibraryError(OprfError(Deserialization)));
    r := Ok(e);
  }

  method ReadScalar(o: Oprf, bytes: Reader) returns (r: Result<Scalar>)
    requires bytes.Valid()
    modifies bytes
    ensures bytes.Valid()
    ensures Advances(TakeScalar(o, old(bytes.Rest())), r, bytes.Rest())
  {
    if bytes.Left() < o.nok {
      return Err(SerializationError);
    }
    var front := bytes.Take(o.nok, "");
    var k :- OkOr(o.parseScalar(front.value), LibraryError(OprfError(Deserialization)));
    r := Ok(k);
  }

  method ReadCredentialRequest(cs: Suite, bytes: Reader) returns (r: Result<CredentialRequest>)
    requires bytes.Valid()
    modifies bytes
    ensures bytes.Valid()
    ensures Advances(TakeCredentialRequest(cs, old(bytes.Rest())), r, bytes.Rest())
    ensures cs.oprf.LawfulEncodings() && cs.EphGroup().Lawful() ==>
              forall m: CredentialRequest, rest ::
                m.WellFormed(cs) && old(bytes.Rest()) == SerializeCredentialRequest(cs, m) + rest ==>
                  r == Ok(m) && bytes.Rest() == rest
  {
    forall m: CredentialRequest, rest | cs.oprf.LawfulEncodings() && cs.EphGroup().Lawful() && m.WellFormed(cs)
      && bytes.Rest() == SerializeCredentialRequest(cs, m) + rest
      ensures TakeCredentialRequest(cs, bytes.Rest()) == Ok((m, rest))
    {
      CredentialRequestCodec(cs, m, rest, []);
    }
    var blinded :- ReadElem(cs.oprf, bytes);
    var ke1 :- ReadFirst(cs, bytes);
    r := Ok(CredentialRequest(blinded, ke1));
  }

  method ReadCredentialResponse(cs: Suite, bytes: Reader) returns (r: Result<CredentialResponse>)
    requires bytes.Valid()
    modifies bytes
    ensures bytes.Valid()
    ensures Advances(TakeCredentialResponse(cs, old(bytes.Rest())), r, bytes.Rest())
    ensures cs.oprf.LawfulEncodings() && cs.EphGroup().Lawful() && (cs.kx.SigmaI? ==> cs.kx.sig.Lawful(cs.group)) ==>
              forall m: CredentialResponse, rest ::
                m.WellFormed(cs) && old(bytes.Rest()) == SerializeCredentialResponse(cs, m) + rest ==>
                  r == Ok(m) && bytes.Rest() == rest
  {
    forall m: CredentialResponse, rest | cs.oprf.LawfulEncodings() && cs.EphGroup().Lawful()
      && (cs.kx.SigmaI? ==> cs.kx.sig.Lawful(cs.group)) && m.WellFormed(cs)
      && bytes.Rest() == SerializeCredentialResponse(cs, m) + rest
      ensures TakeCredentialResponse(cs, bytes.Rest()) == Ok((m, rest))
    {
      CredentialResponseCodec(cs, m, rest, []);
    }
    var evaluation :- ReadElem(cs.oprf, bytes);
    var nonce :- bytes.Take(NONCE_LEN, "masking nonce");
    var masked :- ReadMasked(cs.oprfHash.nh, cs.group.npk, bytes);
    var ke2 :- ReadSecond(cs, bytes);
    r := Ok(CredentialResponse(evaluation, nonce, masked, ke2));
  }

  method ReadClientLogin(cs: Suite, bytes: Reader) returns (r: Result<ClientLogin>)
    requires bytes.Valid()
    modifies bytes
    ensures bytes.Valid()
    ensures Advances(DeserializeClientLogin(cs, old(bytes.Rest())), r, bytes.Rest())
    ensures cs.oprf.LawfulEncodings() && cs.EphGroup().Lawful() && (cs.kx.TripleDhKem? ==> cs.kx.kem.Lawful()) ==>
              forall m: ClientLogin, rest ::
                m.WellFormed(cs)
                && old(bytes.Rest()) == SerializeClientLogin(cs, m) + rest ==>
                  r == Ok(m) && bytes.Rest() == rest
  {
    forall m: ClientLogin, rest | cs.oprf.LawfulEncodings() && cs.EphGroup().Lawful()
      && (cs.kx.TripleDhKem? ==> cs.kx.kem.Lawful()) && m.WellFormed(cs)
      && bytes.Rest() == SerializeClientLogin(cs, m) + rest
      ensures DeserializeClientLogin(cs, bytes.Rest()) == Ok((m, rest))
    {
      ClientLoginCodec(cs, m, rest, []);
    }
    var blind :- ReadScalar(cs.oprf, bytes);
    var request :- ReadCredentialRequest(cs, bytes);
    var state :- ReadClientState(cs, bytes);
    r := Ok(ClientLogin(blind, state, request));
  }

  method ReadSetup(cs: Suite, bytes: Reader) returns (r: Result<ServerSetup>)
    requires bytes.Valid()
    modifies bytes
    ensures bytes.Valid()
    ensures Advances(DeserializeSetup(cs, old(bytes.Rest())), r, bytes.Rest())
    ensures cs.group.Lawful() ==>
              forall m: ServerSetup, rest :: m.WellFormed(cs) && old(bytes.Rest()) == SerializeSetup(cs, m) + rest ==>
                  r == Ok(m) && bytes.Rest() == rest
  {
    forall m: ServerSetup, rest | cs.group.Lawful() && m.WellFormed(cs) && bytes.Rest() == SerializeSetup(cs, m) + rest
      ensures DeserializeSetup(cs, bytes.Rest()) == Ok((m, rest))
    {
      SetupCodec(cs, m, rest, []);
    }
    var seed :- bytes.Take(cs.oprfHash.nh, "OPRF seed");
    var keypair :- ReadKeyPair(cs.group, bytes);
    var dummy :- ReadPk(cs.group, bytes);
    r := Ok(ServerSetup(seed, keypair, dummy));
  }

  method ReadRegistrationRequest(cs: Suite, bytes: Reader) returns (r: Result<RegistrationRequest>)
    requires bytes.Valid()
    modifies bytes
    ensures bytes.Valid() && r == DeserializeRegistrationRequest(cs, old(bytes.Rest()))
    ensures cs.oprf.LawfulEncodings() ==>
              forall m: RegistrationRequest, rest ::
                cs.oprf.validElem(m.blinded) && old(bytes.Rest()) == SerializeRegistrationRequest(cs, m) + rest ==>
                  r == Ok(m)
  {
    forall m: RegistrationRequest, rest | cs.oprf.LawfulEncodings() && cs.oprf.validElem(m.blinded)
      && bytes.Rest() == SerializeRegistrationRequest(cs, m) + rest
      ensures DeserializeRegistrationRequest(cs, bytes.Rest()) == Ok(m)
    {
      RegistrationRequestCodec(cs, m, rest, []);
    }
    var blinded :- ReadElem(cs.oprf, bytes);
    r := Ok(RegistrationRequest(blinded));
  }

  method ReadRegistrationResponse(cs: Suite, bytes: Reader) returns (r: Result<RegistrationResponse>)
    requires bytes.Valid()
    modifies bytes
    ensures bytes.Valid() && r == DeserializeRegistrationResponse(cs, old(bytes.Rest()))
    ensures cs.oprf.LawfulEncodings() && cs.group.Lawful() ==>
              forall m: RegistrationResponse, rest ::
                cs.oprf.validElem(m.evaluation) && cs.group.validPk(m.serverSPk)
                && old(bytes.Rest()) == SerializeRegistrationResponse(cs, m) + rest ==>
                  r == Ok(m)
  {
    forall m: RegistrationResponse, rest | cs.oprf.LawfulEncodings() && cs.group.Lawful()
      && cs.oprf.validElem(m.evaluation) && cs.group.validPk(m.serverSPk)
      && bytes.Rest() == SerializeRegistrationResponse(cs, m) + rest
      ensures DeserializeRegistrationResponse(cs, bytes.Rest()) == Ok(m)
    {
      RegistrationResponseCodec(cs, m, rest, []);
    }
    var evaluation :- ReadElem(cs.oprf, bytes);
    var pk :- ReadPk(cs.group, bytes);
    r := Ok(RegistrationResponse(evaluation, pk));
  }

  method ReadUpload(cs: Suite, bytes: Reader) returns (r: Result<RegistrationUpload>)
    requires bytes.Valid()
    modifies bytes
    ensures bytes.Valid() && r == DeserializeUpload(cs, old(bytes.Rest()))
    ensures cs.group.Lawful() ==>
              forall m: RegistrationUpload, rest ::
                m.WellFormed(cs) && m.envelope.mode == Env.Internal
                && old(bytes.Rest()) == SerializeUpload(cs, m) + rest ==>
                  r == Ok(m)
  {
    forall m: RegistrationUpload, rest | cs.group.Lawful() && m.WellFormed(cs) && m.envelope.mode == Env.Internal
      && bytes.Rest() == SerializeUpload(cs, m) + rest
      ensures DeserializeUpload(cs, bytes.Rest()) == Ok(m)
    {
      UploadCodec(cs, m, rest, []);
    }
    var pk :- ReadPk(cs.group, bytes);
    var maskingKey :- bytes.Take(cs.oprfHash.nh, "masking key");
    var envelope :- ReadEnvelope(cs.oprfHash, bytes);
    r := Ok(RegistrationUpload(envelope, maskingKey, pk));
  }

  method ReadClientRegistration(cs: Suite, bytes: Reader) returns (r: Result<ClientRegistration>)
    requires bytes.Valid()
    modifies bytes
    ensures bytes.Valid() && r == DeserializeClientRegistration(cs, old(bytes.Rest()))
    ensures cs.oprf.LawfulEncodings() ==>
              forall m: ClientRegistration, rest ::
                cs.oprf.validScalar(m.blind) && cs.oprf.validElem(m.blinded)
                && old(bytes.Rest()) == SerializeClientRegistration(cs, m) + rest ==>
                  r == Ok(m)
  {
    forall m: ClientRegistration, rest | cs.oprf.LawfulEncodings() && cs.oprf.validScalar(m.blind)
      && cs.oprf.validElem(m.blinded) && bytes.Rest() == SerializeClientRegistration(cs, m) + rest
      ensures DeserializeClientRegistration(cs, bytes.Rest()) == Ok(m)
    {
      ClientRegistrationCodec(cs, m, rest, []);
    }
    var blind :- ReadScalar(cs.oprf, bytes);
    var blinded :- ReadElem(cs.oprf, bytes);
    r := Ok(ClientRegistration(blind, blinded));
  }
}
