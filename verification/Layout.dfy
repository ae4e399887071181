/** Where every field of the protocol's messages stands on the wire (src/messages.rs and the key exchanges). */
module Layout {
  import opened Serialization
  import opened Primitives
  import opened KeyExchanges
  import opened KeCodecs
  import opened Messages
  import Dh = TripleDh
  import DhKem = TripleDhKem
  import Sigma = SigmaI

  /** The bytes have this field at this offset. */
  predicate At(bytes: Bytes, offset: nat, field: Bytes) {
    offset + |field| <= |bytes| && bytes[offset..offset + |field|] == field
  }

  lemma AtFront(a: Bytes, rest: Bytes)
    ensures At(a + rest, 0, a)
  {
  }

  lemma AtBehind(a: Bytes, rest: Bytes, offset: nat, field: Bytes)
    requires At(rest, offset, field)
    ensures At(a + rest, |a| + offset, field)
  {
    assert (a + rest)[|a| + offset..|a| + offset + |field|] == rest[offset..offset + |field|];
  }

  lemma AtSecond(a: Bytes, b: Bytes, rest: Bytes)
    ensures At(a + (b + rest), |a|, b)
  {
    AtFront(b, rest);
    AtBehind(a, b + rest, 0, b);
  }

  /** Two fields make the whole. */
  lemma TwoFields(a: Bytes, b: Bytes)
    ensures At(a + b, 0, a) && At(a + b, |a|, b)
  {
    AtFront(a, b);
    assert b + [] == b;
    AtSecond(a, b, []);
  }

  // ---------------------------------------------------------------------
  // Registration
  // ---------------------------------------------------------------------

  /** The request is the blinded element; the response the evaluated element, then the server's public key. */
  lemma RegistrationLayout(cs: Suite, request: RegistrationRequest, response: RegistrationResponse)
    requires cs.oprf.LawfulEncodings() && cs.group.LawfulEncodings()
    requires cs.oprf.validElem(response.evaluation) && cs.group.validPk(response.serverSPk)
    ensures SerializeRegistrationRequest(cs, request) == cs.oprf.serializeElem(request.blinded)
    ensures var bytes := SerializeRegistrationResponse(cs, response);
            && |bytes| == cs.oprf.noe + cs.group.npk
            && At(bytes, 0, cs.oprf.serializeElem(response.evaluation))
            && At(bytes, cs.oprf.noe, cs.group.serializePk(response.serverSPk))
  {
    TwoFields(cs.oprf.serializeElem(response.evaluation), cs.group.serializePk(response.serverSPk));
  }

  /** A record is the client's public key, the masking key, the envelope's nonce and its MAC. */
  lemma UploadLayout(cs: Suite, m: RegistrationUpload)
    requires cs.group.LawfulEncodings() && m.WellFormed(cs)
    ensures var bytes := SerializeUpload(cs, m);
            var npk, nh := cs.group.npk, cs.oprfHash.nh;
            && |bytes| == npk + nh + NONCE_LEN + nh
            && At(bytes, 0, cs.group.serializePk(m.clientSPk)) && At(bytes, npk, m.maskingKey)
            && At(bytes, npk + nh, m.envelope.nonce) && At(bytes, npk + nh + NONCE_LEN, m.envelope.hmac)
  {
    var pk, e := cs.group.serializePk(m.clientSPk), m.envelope.Serialize();
    TwoFields(m.envelope.nonce, m.envelope.hmac);
    AtFront(pk, m.maskingKey + e);
    AtSecond(pk, m.maskingKey, e);
    AtBehind(m.maskingKey, e, 0, m.envelope.nonce);
    AtBehind(m.maskingKey, e, NONCE_LEN, m.envelope.hmac);
    AtBehind(pk, m.maskingKey + e, |m.maskingKey|, m.envelope.nonce);
    AtBehind(pk, m.maskingKey + e, |m.maskingKey| + NONCE_LEN, m.envelope.hmac);
  }

  // ---------------------------------------------------------------------
  // Login
  // ---------------------------------------------------------------------

  /** A first message is a nonce and a public key, then the KEM key if there is one. */
  lemma FirstLayout(cs: Suite, m: FirstMessage)
    requires cs.EphGroup().LawfulEncodings() && FirstWellFormed(cs, m)
    ensures var bytes := SerializeFirst(cs, m);
            && At(bytes, 0, m.DhPart().clientNonce)
            && At(bytes, NONCE_LEN, cs.EphGroup().serializePk(m.DhPart().clientEPk))
            && (m.KemFirst? ==> At(bytes, NONCE_LEN + cs.EphGroup().npk, m.kem.kemEk))
  {
    var nonce, pk := m.DhPart().clientNonce, cs.EphGroup().serializePk(m.DhPart().clientEPk);
    TwoFields(nonce, pk);
    if m.KemFirst? {
      CatAssoc(nonce, pk, m.kem.kemEk);
      TwoFields(nonce + pk, m.kem.kemEk);
      AtFront(nonce, pk + m.kem.kemEk);
      AtSecond(nonce, pk, m.kem.kemEk);
    }
  }

  /** A credential request is the blinded element, then the first message. */
  lemma CredentialRequestLayout(cs: Suite, m: CredentialRequest)
    requires cs.oprf.LawfulEncodings() && m.WellFormed(cs)
    ensures var bytes := SerializeCredentialRequest(cs, m);
            && At(bytes, 0, cs.oprf.serializeElem(m.blinded))
            && At(bytes, cs.oprf.noe, SerializeFirst(cs, m.ke1))
  {
    TwoFields(cs.oprf.serializeElem(m.blinded), SerializeFirst(cs, m.ke1));
  }

  /** A second message of triple Diffie-Hellman is a nonce, a public key and a MAC. */
  lemma DhLayout(h: HashFn, g: Group, m: Dh.Ke2Message)
    requires g.LawfulEncodings() && m.WellFormed(h, g)
    ensures var bytes := SerializeDhMessage(g, m);
            && At(bytes, 0, m.serverNonce) && At(bytes, NONCE_LEN, g.serializePk(m.serverEPk))
            && At(bytes, NONCE_LEN + g.npk, m.mac)
  {
    ThreeFields(m.serverNonce, g.serializePk(m.serverEPk), m.mac);
  }

  /** With a KEM the ciphertext follows. */
  lemma KemLayout(h: HashFn, g: Group, m: DhKem.KemKe2Message)
    requires g.LawfulEncodings() && m.dhMessage.WellFormed(h, g)
    ensures var bytes := SerializeKemMessage(g, m);
            && At(bytes, 0, m.dhMessage.serverNonce) && At(bytes, NONCE_LEN, g.serializePk(m.dhMessage.serverEPk))
            && At(bytes, NONCE_LEN + g.npk, m.dhMessage.mac) && At(bytes, NONCE_LEN + g.npk + h.nh, m.kemCiphertext)
  {
    ThreeThenOne(m.dhMessage.serverNonce, g.serializePk(m.dhMessage.serverEPk), m.dhMessage.mac, m.kemCiphertext);
  }

  /** In SIGMA-I the signature stands before the MAC. */
  lemma SigmaLayout(h: HashFn, e: Group, sig: SigScheme, group: Group, m: Sigma.Ke2Message)
    requires e.LawfulEncodings() && sig.Lawful(group) && m.WellFormed(h, sig, e)
    ensures var bytes := SerializeSigmaMessage(e, sig, m);
            && At(bytes, 0, m.serverNonce) && At(bytes, NONCE_LEN, e.serializePk(m.serverEPk))
            && At(bytes, NONCE_LEN + e.npk, sig.serializeSig(m.signature))
            && At(bytes, NONCE_LEN + e.npk + sig.nsig, m.mac)
  {
    FourFields(m.serverNonce, e.serializePk(m.serverEPk), sig.serializeSig(m.signature), m.mac);
  }

  lemma ThreeFields(a: Bytes, b: Bytes, c: Bytes)
    ensures At(a + (b + c), 0, a) && At(a + (b + c), |a|, b) && At(a + (b + c), |a| + |b|, c)
  {
    TwoFields(b, c);
    AtFront(a, b + c);
    AtBehind(a, b + c, 0, b);
    AtBehind(a, b + c, |b|, c);
  }

  lemma FourFields(a: Bytes, b: Bytes, c: Bytes, d: Bytes)
    ensures At(a + (b + (c + d)), 0, a) && At(a + (b + (c + d)), |a|, b)
    ensures At(a + (b + (c + d)), |a| + |b|, c) && At(a + (b + (c + d)), |a| + |b| + |c|, d)
  {
    ThreeFields(b, c, d);
    AtFront(a, b + (c + d));
    AtBehind(a, b + (c + d), 0, b);
    AtBehind(a, b + (c + d), |b|, c);
    AtBehind(a, b + (c + d), |b| + |c|, d);
  }

  lemma ThreeThenOne(a: Bytes, b: Bytes, c: Bytes, d: Bytes)
    ensures var whole := (a + (b + c)) + d;
            At(whole, 0, a) && At(whole, |a|, b) && At(whole, |a| + |b|, c) && At(whole, |a| + |b| + |c|, d)
  {
    CatAssoc(b, c, d);
    CatAssoc(a, b + c, d);
    FourFields(a, b, c, d);
  }

  lemma SixFields(a: Bytes, b: Bytes, w: Bytes, x: Bytes, y: Bytes, z: Bytes)
    ensures var whole := a + (b + ((w + (x + y)) + z));
            var behind := |a| + |b|;
            && At(whole, 0, a) && At(whole, |a|, b) && At(whole, behind, w) && At(whole, behind + |w|, x)
            && At(whole, behind + |w| + |x|, y) && At(whole, behind + |w| + |x| + |y|, z)
  {
    var rest := (w + (x + y)) + z;
    ThreeThenOne(w, x, y, z);
    ThreeFields(a, b, rest);
    AtBoth(a, b, rest, 0, w);
    AtBoth(a, b, rest, |w|, x);
    AtBoth(a, b, rest, |w| + |x|, y);
    AtBoth(a, b, rest, |w| + |x| + |y|, z);
  }

  /** A credential response is the evaluated element, the masking nonce, the masked record and the second message. */
  lemma CredentialResponseLayout(cs: Suite, m: CredentialResponse)
    requires cs.oprf.LawfulEncodings() && m.WellFormed(cs)
    ensures var bytes := SerializeCredentialResponse(cs, m);
            var noe, behind := cs.oprf.noe, cs.oprf.noe + NONCE_LEN;
            && At(bytes, 0, cs.oprf.serializeElem(m.evaluation)) && At(bytes, noe, m.maskingNonce)
            && At(bytes, behind, m.masked.nonce) && At(bytes, behind + NONCE_LEN, m.masked.hash)
            && At(bytes, behind + NONCE_LEN + cs.oprfHash.nh, m.masked.pk)
            && At(bytes, behind + NONCE_LEN + cs.oprfHash.nh + cs.group.npk, SerializeSecond(cs, m.ke2))
  {
    SixFields(cs.oprf.serializeElem(m.evaluation), m.maskingNonce, m.masked.nonce, m.masked.hash, m.masked.pk,
              SerializeSecond(cs, m.ke2));
  }

  lemma AtBoth(a: Bytes, b: Bytes, rest: Bytes, offset: nat, field: Bytes)
    requires At(rest, offset, field)
    ensures At(a + (b + rest), |a| + |b| + offset, field)
  {
    AtBehind(b, rest, offset, field);
    AtBehind(a, b + rest, |b| + offset, field);
  }

  /** A third message is a MAC; in SIGMA-I a signature, then a MAC. */
  lemma ThirdLayout(cs: Suite, m: ThirdMessage)
    requires (cs.kx.SigmaI? ==> cs.kx.sig.Lawful(cs.group)) && ThirdWellFormed(cs, m)
    ensures match m
            case DhThird(m) => SerializeThird(cs, DhThird(m)) == m.mac
            case SigmaThird(m) =>
              var bytes := SerializeThird(cs, SigmaThird(m));
              At(bytes, 0, cs.kx.sig.serializeSig(m.signature)) && At(bytes, cs.kx.sig.nsig, m.mac)
  {
    if m.SigmaThird? {
      TwoFields(cs.kx.sig.serializeSig(m.sigma.signature), m.sigma.mac);
    }
  }

  // ---------------------------------------------------------------------
  // What is stored
  // ---------------------------------------------------------------------

  /** A setup is the OPRF seed, the private key and the dummy public key. */
  lemma SetupLayout(cs: Suite, s: ServerSetup)
    requires cs.group.LawfulEncodings() && s.WellFormed(cs)
    ensures var bytes := SerializeSetup(cs, s);
            && At(bytes, 0, s.oprfSeed) && At(bytes, cs.oprfHash.nh, cs.group.serializeSk(s.keypair.sk))
            && At(bytes, cs.oprfHash.nh + cs.group.nsk, cs.group.serializePk(s.dummyPk))
  {
    ThreeFields(s.oprfSeed, cs.group.serializeSk(s.keypair.sk), cs.group.serializePk(s.dummyPk));
  }

  /** A client's registration is the blind and the blinded element; its login the blind, the request and a state. */
  lemma ClientLayout(cs: Suite, registration: ClientRegistration, login: ClientLogin)
    requires cs.oprf.LawfulEncodings() && cs.oprf.validScalar(registration.blind) && cs.oprf.validScalar(login.blind)
    requires ClientTyped(cs.kx, login.ke1State)
    ensures var bytes := SerializeClientRegistration(cs, registration);
            && At(bytes, 0, cs.oprf.serializeScalar(registration.blind))
            && At(bytes, cs.oprf.nok, cs.oprf.serializeElem(registration.blinded))
    ensures var bytes, request := SerializeClientLogin(cs, login), SerializeCredentialRequest(cs, login.request);
            && At(bytes, 0, cs.oprf.serializeScalar(login.blind)) && At(bytes, cs.oprf.nok, request)
            && At(bytes, cs.oprf.nok + |request|, SerializeClientState(cs, login.ke1State))
  {
    TwoFields(cs.oprf.serializeScalar(registration.blind), cs.oprf.serializeElem(registration.blinded));
    ThreeFields(cs.oprf.serializeScalar(login.blind), SerializeCredentialRequest(cs, login.request),
                SerializeClientState(cs, login.ke1State));
  }

  /** A server's state of SIGMA-I is the client's key, the session key, the verification state and the expected MAC. */
  lemma SigmaStateLayout(h: HashFn, group: Group, s: Sigma.Ke2State)
    requires group.LawfulEncodings() && group.validPk(s.clientSPk) && |s.sessionKey| == h.nh
    ensures var bytes, state := SerializeSigmaState(group, s), SerializeVerifyState(s.verifyState);
            && At(bytes, 0, group.serializePk(s.clientSPk)) && At(bytes, group.npk, s.sessionKey)
            && At(bytes, group.npk + h.nh, state) && At(bytes, group.npk + h.nh + |state|, s.expectedMac)
  {
    FourFields(group.serializePk(s.clientSPk), s.sessionKey, SerializeVerifyState(s.verifyState), s.expectedMac);
  }
}
