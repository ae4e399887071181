/**
 Wire and state encodings of the key exchanges. Each parser consumes a prefix of its input; each lemma states both
 directions: parsing what was serialized, followed by anything, gives the value and leaves the rest; and whatever a
 parser accepts is well-formed and is the serialization of the parsed value followed by the rest.
 */
module KeCodecs {
  import opened Errors
  import opened Serialization
  import opened Primitives
  import opened Keypair
  import opened Masking
  import opened Transcript
  import opened SigmaMessage
  import Dh = TripleDh
  import DhKem = TripleDhKem
  import Sigma = SigmaI

  lemma TakeSplit(input: Bytes, n: nat, name: string)
    requires TakeArray(input, n, name).Ok?
    ensures var (front, back) := TakeArray(input, n, name).value;
            |front| == n && input == front + back
  {
  }

  // Ke1State: private key, nonce (src/key_exchange/shared.rs)

  function SerializeKe1State(g: Group, s: Ke1State): Bytes {
    g.serializeSk(s.clientESk) + s.clientNonce
  }

  function TakeKe1State(g: Group, input: Bytes): Result<(Ke1State, Bytes)> {
    var (sk, r) :- DeserializeTakeSk(g, input);
    var (nonce, r) :- TakeArray(r, NONCE_LEN, "client nonce");
    Ok((Ke1State(sk, nonce), r))
  }

  lemma Ke1StateCodec(g: Group, s: Ke1State, rest: Bytes, input: Bytes)
    requires g.Lawful()
    ensures g.validSk(s.clientESk) && |s.clientNonce| == NONCE_LEN ==>
              TakeKe1State(g, SerializeKe1State(g, s) + rest) == Ok((s, rest))
    ensures TakeKe1State(g, input).Ok? ==>
              var (t, r) := TakeKe1State(g, input).value;
              g.validSk(t.clientESk) && |t.clientNonce| == NONCE_LEN && input == SerializeKe1State(g, t) + r
  {
    if g.validSk(s.clientESk) && |s.clientNonce| == NONCE_LEN {
      CatAssoc(g.serializeSk(s.clientESk), s.clientNonce, rest);
      SkRoundTrip(g, s.clientESk, s.clientNonce + rest);
      TakeCat(s.clientNonce, rest, "client nonce");
    }
    if TakeKe1State(g, input).Ok? {
      SkCanonical(g, input);
      var (sk, r) := DeserializeTakeSk(g, input).value;
      TakeSplit(r, NONCE_LEN, "client nonce");
      CatAssoc(g.serializeSk(sk), r[..NONCE_LEN], r[NONCE_LEN..]);
    }
  }

  // Ke1Message: nonce, public key

  function SerializeKe1Message(g: Group, m: Ke1Message): Bytes {
    m.clientNonce + g.serializePk(m.clientEPk)
  }

  function TakeKe1Message(g: Group, input: Bytes): Result<(Ke1Message, Bytes)> {
    var (nonce, r) :- TakeArray(input, NONCE_LEN, "client nonce");
    var (pk, r) :- DeserializeTakePk(g, r);
    Ok((Ke1Message(nonce, pk), r))
  }

  lemma Ke1MessageCodec(g: Group, m: Ke1Message, rest: Bytes, input: Bytes)
    requires g.Lawful()
    ensures m.WellFormed(g) ==> TakeKe1Message(g, SerializeKe1Message(g, m) + rest) == Ok((m, rest))
    ensures TakeKe1Message(g, input).Ok? ==>
              var (t, r) := TakeKe1Message(g, input).value;
              t.WellFormed(g) && input == SerializeKe1Message(g, t) + r
  {
    if m.WellFormed(g) {
      CatAssoc(m.clientNonce, g.serializePk(m.clientEPk), rest);
      TakeCat(m.clientNonce, g.serializePk(m.clientEPk) + rest, "client nonce");
      PkRoundTrip(g, m.clientEPk, rest);
    }
    if TakeKe1Message(g, input).Ok? {
      TakeSplit(input, NONCE_LEN, "client nonce");
      PkCanonical(g, input[NONCE_LEN..]);
      var (pk, r) := DeserializeTakePk(g, input[NONCE_LEN..]).value;
      CatAssoc(input[..NONCE_LEN], g.serializePk(pk), r);
    }
  }

  // Triple Diffie-Hellman (src/key_exchange/tripledh.rs)

  function SerializeDhState(s: Dh.Ke2State): Bytes {
    s.sessionKey + s.expectedMac
  }

  function TakeDhState(h: HashFn, input: Bytes): Result<(Dh.Ke2State, Bytes)> {
    var (key, r) :- TakeArray(input, h.nh, "session key");
    var (mac, r) :- TakeArray(r, h.nh, "expected mac");
    Ok((Dh.Ke2State(key, mac), r))
  }

  lemma DhStateCodec(h: HashFn, s: Dh.Ke2State, rest: Bytes, input: Bytes)
    ensures |s.sessionKey| == |s.expectedMac| == h.nh ==> TakeDhState(h, SerializeDhState(s) + rest) == Ok((s, rest))
    ensures TakeDhState(h, input).Ok? ==>
              var (t, r) := TakeDhState(h, input).value;
              |t.sessionKey| == |t.expectedMac| == h.nh && input == SerializeDhState(t) + r
  {
    if |s.sessionKey| == |s.expectedMac| == h.nh {
      CatAssoc(s.sessionKey, s.expectedMac, rest);
      TakeCat(s.sessionKey, s.expectedMac + rest, "session key");
      TakeCat(s.expectedMac, rest, "expected mac");
    }
    if TakeDhState(h, input).Ok? {
      TakeSplit(input, h.nh, "session key");
      TakeSplit(input[h.nh..], h.nh, "expected mac");
      CatAssoc(input[..h.nh], input[h.nh..][..h.nh], input[h.nh..][h.nh..]);
    }
  }

  function SerializeDhMessage(g: Group, m: Dh.Ke2Message): Bytes {
    m.serverNonce + (g.serializePk(m.serverEPk) + m.mac)
  }

  function TakeDhMessage(h: HashFn, g: Group, input: Bytes): Result<(Dh.Ke2Message, Bytes)> {
    var (nonce, r) :- TakeArray(input, NONCE_LEN, "server nonce");
    var (pk, r) :- DeserializeTakePk(g, r);
    var (mac, r) :- TakeArray(r, h.nh, "mac");
    Ok((Dh.Ke2Message(nonce, pk, mac), r))
  }

  lemma DhMessageCodec(h: HashFn, g: Group, m: Dh.Ke2Message, rest: Bytes, input: Bytes)
    requires g.Lawful()
    ensures m.WellFormed(h, g) ==> TakeDhMessage(h, g, SerializeDhMessage(g, m) + rest) == Ok((m, rest))
    ensures TakeDhMessage(h, g, input).Ok? ==>
              var (t, r) := TakeDhMessage(h, g, input).value;
              t.WellFormed(h, g) && input == SerializeDhMessage(g, t) + r
  {
    if m.WellFormed(h, g) {
      var pk := g.serializePk(m.serverEPk);
      CatAssoc(m.serverNonce, pk + m.mac, rest);
      CatAssoc(pk, m.mac, rest);
      TakeCat(m.serverNonce, pk + (m.mac + rest), "server nonce");
      PkRoundTrip(g, m.serverEPk, m.mac + rest);
      TakeCat(m.mac, rest, "mac");
    }
    if TakeDhMessage(h, g, input).Ok? {
      TakeSplit(input, NONCE_LEN, "server nonce");
      PkCanonical(g, input[NONCE_LEN..]);
      var (pk, r) := DeserializeTakePk(g, input[NONCE_LEN..]).value;
      TakeSplit(r, h.nh, "mac");
      CatAssoc(g.serializePk(pk), r[..h.nh], r[h.nh..]);
      CatAssoc(input[..NONCE_LEN], g.serializePk(pk) + r[..h.nh], r[h.nh..]);
    }
  }

  function TakeDhThird(h: HashFn, input: Bytes): Result<(Dh.Ke3Message, Bytes)> {
    var (mac, r) :- TakeArray(input, h.nh, "mac");
    Ok((Dh.Ke3Message(mac), r))
  }

  lemma DhThirdCodec(h: HashFn, m: Dh.Ke3Message, rest: Bytes, input: Bytes)
    ensures |m.mac| == h.nh ==> TakeDhThird(h, m.mac + rest) == Ok((m, rest))
    ensures TakeDhThird(h, input).Ok? ==>
              var (t, r) := TakeDhThird(h, input).value;
              |t.mac| == h.nh && input == t.mac + r
  {
    TakeCat(m.mac, rest, "mac");
  }

  // Triple Diffie-Hellman with a KEM (src/key_exchange/tripledh_kem.rs)

  function SerializeKemKe1State(g: Group, kem: Kem, s: DhKem.KemKe1State): Bytes {
    SerializeKe1State(g, s.dhState) + kem.serializeDk(s.kemDk)
  }

  function TakeKemKe1State(g: Group, kem: Kem, input: Bytes): Result<(DhKem.KemKe1State, Bytes)> {
    var (dh, r) :- TakeKe1State(g, input);
    var (dk, r) :- TakeArray(r, kem.ndk, "kem decapsulation key");
    Ok((DhKem.KemKe1State(dh, kem.parseDk(dk)), r))
  }

  lemma KemKe1StateCodec(g: Group, kem: Kem, s: DhKem.KemKe1State, rest: Bytes, input: Bytes)
    requires g.Lawful() && kem.Lawful()
    ensures g.validSk(s.dhState.clientESk) && |s.dhState.clientNonce| == NONCE_LEN && kem.validDk(s.kemDk) ==>
              TakeKemKe1State(g, kem, SerializeKemKe1State(g, kem, s) + rest) == Ok((s, rest))
    ensures TakeKemKe1State(g, kem, input).Ok? ==>
              var (t, r) := TakeKemKe1State(g, kem, input).value;
              && g.validSk(t.dhState.clientESk) && |t.dhState.clientNonce| == NONCE_LEN && kem.validDk(t.kemDk)
              && input == SerializeKemKe1State(g, kem, t) + r
  {
    var dk := kem.serializeDk(s.kemDk);
    Ke1StateCodec(g, s.dhState, dk + rest, input);
    CatAssoc(SerializeKe1State(g, s.dhState), dk, rest);
    if kem.validDk(s.kemDk) {
      TakeCat(dk, rest, "kem decapsulation key");
    }
    if TakeKemKe1State(g, kem, input).Ok? {
      var (dh, r) := TakeKe1State(g, input).value;
      TakeSplit(r, kem.ndk, "kem decapsulation key");
      CatAssoc(SerializeKe1State(g, dh), r[..kem.ndk], r[kem.ndk..]);
    }
  }

  function SerializeKemKe1Message(g: Group, m: DhKem.KemKe1Message): Bytes {
    SerializeKe1Message(g, m.dhMessage) + m.kemEk
  }

  function TakeKemKe1Message(g: Group, kem: Kem, input: Bytes): Result<(DhKem.KemKe1Message, Bytes)> {
    var (dh, r) :- TakeKe1Message(g, input);
    var (ek, r) :- TakeArray(r, kem.nek, "kem encapsulation key");
    Ok((DhKem.KemKe1Message(dh, ek), r))
  }

  lemma KemKe1MessageCodec(g: Group, kem: Kem, m: DhKem.KemKe1Message, rest: Bytes, input: Bytes)
    requires g.Lawful()
    ensures m.dhMessage.WellFormed(g) && |m.kemEk| == kem.nek ==>
              TakeKemKe1Message(g, kem, SerializeKemKe1Message(g, m) + rest) == Ok((m, rest))
    ensures TakeKemKe1Message(g, kem, input).Ok? ==>
              var (t, r) := TakeKemKe1Message(g, kem, input).value;
              t.dhMessage.WellFormed(g) && |t.kemEk| == kem.nek && input == SerializeKemKe1Message(g, t) + r
  {
    Ke1MessageCodec(g, m.dhMessage, m.kemEk + rest, input);
    CatAssoc(SerializeKe1Message(g, m.dhMessage), m.kemEk, rest);
    TakeCat(m.kemEk, rest, "kem encapsulation key");
    if TakeKemKe1Message(g, kem, input).Ok? {
      var (dh, r) := TakeKe1Message(g, input).value;
      TakeSplit(r, kem.nek, "kem encapsulation key");
      CatAssoc(SerializeKe1Message(g, dh), r[..kem.nek], r[kem.nek..]);
    }
  }

  function SerializeKemState(s: DhKem.KemKe2State): Bytes {
    SerializeDhState(s.base) + (s.kemEk + s.kemCiphertext)
  }

  function TakeKemState(h: HashFn, kem: Kem, input: Bytes): Result<(DhKem.KemKe2State, Bytes)> {
    var (base, r) :- TakeDhState(h, input);
    var (ek, r) :- TakeArray(r, kem.nek, "kem encapsulation key");
    var (ct, r) :- TakeArray(r, kem.nct, "kem ciphertext");
    Ok((DhKem.KemKe2State(base, ek, ct), r))
  }

  ghost predicate KemStateWellFormed(h: HashFn, kem: Kem, s: DhKem.KemKe2State) {
    |s.base.sessionKey| == |s.base.expectedMac| == h.nh && |s.kemEk| == kem.nek && |s.kemCiphertext| == kem.nct
  }

  lemma KemStateCodec(h: HashFn, kem: Kem, s: DhKem.KemKe2State, rest: Bytes, input: Bytes)
    ensures KemStateWellFormed(h, kem, s) ==> TakeKemState(h, kem, SerializeKemState(s) + rest) == Ok((s, rest))
    ensures TakeKemState(h, kem, input).Ok? ==>
              var (t, r) := TakeKemState(h, kem, input).value;
              KemStateWellFormed(h, kem, t) && input == SerializeKemState(t) + r
  {
    DhStateCodec(h, s.base, s.kemEk + (s.kemCiphertext + rest), input);
    CatAssoc(SerializeDhState(s.base), s.kemEk + s.kemCiphertext, rest);
    CatAssoc(s.kemEk, s.kemCiphertext, rest);
    TakeCat(s.kemEk, s.kemCiphertext + rest, "kem encapsulation key");
    TakeCat(s.kemCiphertext, rest, "kem ciphertext");
    if TakeKemState(h, kem, input).Ok? {
      var (base, r) := TakeDhState(h, input).value;
      TakeSplit(r, kem.nek, "kem encapsulation key");
      var r2 := r[kem.nek..];
      TakeSplit(r2, kem.nct, "kem ciphertext");
      CatAssoc(r[..kem.nek], r2[..kem.nct], r2[kem.nct..]);
      CatAssoc(SerializeDhState(base), r[..kem.nek] + r2[..kem.nct], r2[kem.nct..]);
    }
  }

  function SerializeKemMessage(g: Group, m: DhKem.KemKe2Message): Bytes {
    SerializeDhMessage(g, m.dhMessage) + m.kemCiphertext
  }

  function TakeKemMessage(h: HashFn, g: Group, kem: Kem, input: Bytes): Result<(DhKem.KemKe2Message, Bytes)> {
    var (dh, r) :- TakeDhMessage(h, g, input);
    var (ct, r) :- TakeArray(r, kem.nct, "kem ciphertext");
    Ok((DhKem.KemKe2Message(dh, ct), r))
  }

  lemma KemMessageCodec(h: HashFn, g: Group, kem: Kem, m: DhKem.KemKe2Message, rest: Bytes, input: Bytes)
    requires g.Lawful()
    ensures m.dhMessage.WellFormed(h, g) && |m.kemCiphertext| == kem.nct ==>
              TakeKemMessage(h, g, kem, SerializeKemMessage(g, m) + rest) == Ok((m, rest))
    ensures TakeKemMessage(h, g, kem, input).Ok? ==>
              var (t, r) := TakeKemMessage(h, g, kem, input).value;
              t.dhMessage.WellFormed(h, g) && |t.kemCiphertext| == kem.nct && input == SerializeKemMessage(g, t) + r
  {
    DhMessageCodec(h, g, m.dhMessage, m.kemCiphertext + rest, input);
    CatAssoc(SerializeDhMessage(g, m.dhMessage), m.kemCiphertext, rest);
    TakeCat(m.kemCiphertext, rest, "kem ciphertext");
    if TakeKemMessage(h, g, kem, input).Ok? {
      var (dh, r) := TakeDhMessage(h, g, input).value;
      TakeSplit(r, kem.nct, "kem ciphertext");
      CatAssoc(SerializeDhMessage(g, dh), r[..kem.nct], r[kem.nct..]);
    }
  }

  // SIGMA-I (src/key_exchange/sigma_i)

  function TakeSignature(sig: SigScheme, input: Bytes): Result<(Signature, Bytes)> {
    var (bytes, r) :- TakeArray(input, sig.nsig, "signature");
    var s :- OkOr(sig.parseSig(bytes), SerializationError);
    Ok((s, r))
  }

  lemma SignatureCodec(sig: SigScheme, group: Group, s: Signature, rest: Bytes, input: Bytes)
    requires sig.Lawful(group)
    ensures sig.validSig(s) ==> TakeSignature(sig, sig.serializeSig(s) + rest) == Ok((s, rest))
    ensures TakeSignature(sig, input).Ok? ==>
              var (t, r) := TakeSignature(sig, input).value;
              sig.validSig(t) && input == sig.serializeSig(t) + r
  {
    if sig.validSig(s) {
      TakeCat(sig.serializeSig(s), rest, "signature");
    }
    if TakeSignature(sig, input).Ok? {
      TakeSplit(input, sig.nsig, "signature");
    }
  }

  function SerializeSigmaMessage(e: Group, sig: SigScheme, m: Sigma.Ke2Message): Bytes {
    m.serverNonce + (e.serializePk(m.serverEPk) + (sig.serializeSig(m.signature) + m.mac))
  }

  function TakeSigmaMessage(h: HashFn, e: Group, sig: SigScheme, input: Bytes): Result<(Sigma.Ke2Message, Bytes)> {
    var (nonce, r) :- TakeArray(input, NONCE_LEN, "server nonce");
    var (pk, r) :- DeserializeTakePk(e, r);
    var (signature, r) :- TakeSignature(sig, r);
    var (mac, r) :- TakeArray(r, h.nh, "mac");
    Ok((Sigma.Ke2Message(nonce, pk, signature, mac), r))
  }

  lemma SigmaMessageCodec(h: HashFn, e: Group, sig: SigScheme, group: Group, m: Sigma.Ke2Message, rest: Bytes,
                          input: Bytes)
    requires e.Lawful() && sig.Lawful(group)
    ensures m.WellFormed(h, sig, e) ==>
              TakeSigmaMessage(h, e, sig, SerializeSigmaMessage(e, sig, m) + rest) == Ok((m, rest))
    ensures TakeSigmaMessage(h, e, sig, input).Ok? ==>
              var (t, r) := TakeSigmaMessage(h, e, sig, input).value;
              t.WellFormed(h, sig, e) && input == SerializeSigmaMessage(e, sig, t) + r
  {
    if m.WellFormed(h, sig, e) {
      var pk, s := e.serializePk(m.serverEPk), sig.serializeSig(m.signature);
      CatAssoc(m.serverNonce, pk + (s + m.mac), rest);
      CatAssoc(pk, s + m.mac, rest);
      CatAssoc(s, m.mac, rest);
      TakeCat(m.serverNonce, pk + (s + (m.mac + rest)), "server nonce");
      PkRoundTrip(e, m.serverEPk, s + (m.mac + rest));
      SignatureCodec(sig, group, m.signature, m.mac + rest, input);
      TakeCat(m.mac, rest, "mac");
    }
    if TakeSigmaMessage(h, e, sig, input).Ok? {
      TakeSplit(input, NONCE_LEN, "server nonce");
      PkCanonical(e, input[NONCE_LEN..]);
      var (pk, r) := DeserializeTakePk(e, input[NONCE_LEN..]).value;
      SignatureCodec(sig, group, m.signature, rest, r);
      var (s, r2) := TakeSignature(sig, r).value;
      TakeSplit(r2, h.nh, "mac");
      var mac, end := r2[..h.nh], r2[h.nh..];
      CatAssoc(sig.serializeSig(s), mac, end);
      CatAssoc(e.serializePk(pk), sig.serializeSig(s) + mac, end);
      CatAssoc(input[..NONCE_LEN], e.serializePk(pk) + (sig.serializeSig(s) + mac), end);
    }
  }

  function SerializeSigmaThird(sig: SigScheme, m: Sigma.Ke3Message): Bytes {
    sig.serializeSig(m.signature) + m.mac
  }

  function TakeSigmaThird(h: HashFn, sig: SigScheme, input: Bytes): Result<(Sigma.Ke3Message, Bytes)> {
    var (signature, r) :- TakeSignature(sig, input);
    var (mac, r) :- TakeArray(r, h.nh, "mac");
    Ok((Sigma.Ke3Message(signature, mac), r))
  }

  lemma SigmaThirdCodec(h: HashFn, sig: SigScheme, group: Group, m: Sigma.Ke3Message, rest: Bytes, input: Bytes)
    requires sig.Lawful(group)
    ensures sig.validSig(m.signature) && |m.mac| == h.nh ==>
              TakeSigmaThird(h, sig, SerializeSigmaThird(sig, m) + rest) == Ok((m, rest))
    ensures TakeSigmaThird(h, sig, input).Ok? ==>
              var (t, r) := TakeSigmaThird(h, sig, input).value;
              sig.validSig(t.signature) && |t.mac| == h.nh && input == SerializeSigmaThird(sig, t) + r
  {
    CatAssoc(sig.serializeSig(m.signature), m.mac, rest);
    SignatureCodec(sig, group, m.signature, m.mac + rest, input);
    TakeCat(m.mac, rest, "mac");
    if TakeSigmaThird(h, sig, input).Ok? {
      var (s, r) := TakeSignature(sig, input).value;
      TakeSplit(r, h.nh, "mac");
      CatAssoc(sig.serializeSig(s), r[..h.nh], r[h.nh..]);
    }
  }

  /** The serialized credential response: element, masking nonce, masked response. */
  function SerializeParts(p: SerializedCredentialResponse): Bytes {
    p.evaluationElement + (p.maskingNonce + p.masked.Serialize())
  }

  function TakeParts(s: Shape, input: Bytes): Result<(SerializedCredentialResponse, Bytes)> {
    var (element, r) :- TakeArray(input, s.noe, "evaluation element");
    var (nonce, r) :- TakeArray(r, NONCE_LEN, "masking nonce");
    var (masked, r) :- DeserializeTakeMasked(s.nh, s.npk, r);
    Ok((SerializedCredentialResponse(element, nonce, masked), r))
  }

  ghost predicate PartsWellFormed(s: Shape, p: SerializedCredentialResponse) {
    |p.evaluationElement| == s.noe && |p.maskingNonce| == NONCE_LEN && p.masked.Sized(s.nh, s.npk)
  }

  lemma PartsCodec(s: Shape, p: SerializedCredentialResponse, rest: Bytes, input: Bytes)
    ensures PartsWellFormed(s, p) ==> TakeParts(s, SerializeParts(p) + rest) == Ok((p, rest))
    ensures TakeParts(s, input).Ok? ==>
              var (t, r) := TakeParts(s, input).value;
              PartsWellFormed(s, t) && input == SerializeParts(t) + r
  {
    if PartsWellFormed(s, p) {
      CatAssoc(p.evaluationElement, p.maskingNonce + p.masked.Serialize(), rest);
      CatAssoc(p.maskingNonce, p.masked.Serialize(), rest);
      TakeCat(p.evaluationElement, p.maskingNonce + (p.masked.Serialize() + rest), "evaluation element");
      TakeCat(p.maskingNonce, p.masked.Serialize() + rest, "masking nonce");
      MaskedRoundTrip(s.nh, s.npk, p.masked, rest);
    }
    if TakeParts(s, input).Ok? {
      TakeSplit(input, s.noe, "evaluation element");
      var r1 := input[s.noe..];
      TakeSplit(r1, NONCE_LEN, "masking nonce");
      var r2 := r1[NONCE_LEN..];
      MaskedCanonical(s.nh, s.npk, r2);
      var (masked, end) := DeserializeTakeMasked(s.nh, s.npk, r2).value;
      CatAssoc(r1[..NONCE_LEN], masked.Serialize(), end);
      CatAssoc(input[..s.noe], r1[..NONCE_LEN] + masked.Serialize(), end);
    }
  }

  function SerializeCached(c: CachedMessage): Bytes {
    c.request.element + (c.ke1.clientNonce + (c.ke1.clientEPk
    + (SerializeParts(c.response) + (c.serverNonce + (c.serverEPk + c.serverMac)))))
  }

  function TakeCached(s: Shape, nh: nat, input: Bytes): Result<(CachedMessage, Bytes)> {
    var (element, r) :- TakeArray(input, s.noe, "blinded element");
    var (nonce, r) :- TakeArray(r, NONCE_LEN, "client nonce");
    var (pk, r) :- TakeArray(r, s.nepk, "client ephemeral public key");
    var (response, r) :- TakeParts(s, r);
    var (serverNonce, r) :- TakeArray(r, NONCE_LEN, "server nonce");
    var (serverEPk, r) :- TakeArray(r, s.nepk, "serialized server ephemeral key");
    var (serverMac, r) :- TakeArray(r, nh, "server mac");
    Ok((CachedMessage(SerializedCredentialRequest(element), Ke1MessageIter(nonce, pk), response, serverNonce, serverEPk,
                      serverMac), r))
  }

  lemma CachedCodec(s: Shape, nh: nat, c: CachedMessage, rest: Bytes, input: Bytes)
    ensures c.WellFormed(s, nh) ==> TakeCached(s, nh, SerializeCached(c) + rest) == Ok((c, rest))
    ensures TakeCached(s, nh, input).Ok? ==>
              var (t, r) := TakeCached(s, nh, input).value;
              t.WellFormed(s, nh) && input == SerializeCached(t) + r
  {
    if c.WellFormed(s, nh) {
      CachedAssoc(c, rest);
      var r6 := c.serverMac + rest;
      var r5 := c.serverEPk + r6;
      var r4 := c.serverNonce + r5;
      var r3 := SerializeParts(c.response) + r4;
      var r2 := c.ke1.clientEPk + r3;
      TakeCat(c.request.element, c.ke1.clientNonce + r2, "blinded element");
      TakeCat(c.ke1.clientNonce, r2, "client nonce");
      TakeCat(c.ke1.clientEPk, r3, "client ephemeral public key");
      PartsCodec(s, c.response, r4, []);
      TakeCat(c.serverNonce, r5, "server nonce");
      TakeCat(c.serverEPk, r6, "serialized server ephemeral key");
      TakeCat(c.serverMac, rest, "server mac");
    }
    if TakeCached(s, nh, input).Ok? {
      CachedCanonical(s, nh, input);
    }
  }

  lemma CachedAssoc(c: CachedMessage, rest: Bytes)
    ensures SerializeCached(c) + rest
         == c.request.element + (c.ke1.clientNonce + (c.ke1.clientEPk
            + (SerializeParts(c.response) + (c.serverNonce + (c.serverEPk + (c.serverMac + rest))))))
  {
    var s6 := c.serverEPk + c.serverMac;
    var s5 := c.serverNonce + s6;
    var s4 := SerializeParts(c.response) + s5;
    var s3 := c.ke1.clientEPk + s4;
    var s2 := c.ke1.clientNonce + s3;
    CatAssoc(c.serverEPk, c.serverMac, rest);
    CatAssoc(c.serverNonce, s6, rest);
    CatAssoc(SerializeParts(c.response), s5, rest);
    CatAssoc(c.ke1.clientEPk, s4, rest);
    CatAssoc(c.ke1.clientNonce, s3, rest);
    CatAssoc(c.request.element, s2, rest);
  }

  lemma CachedCanonical(s: Shape, nh: nat, input: Bytes)
    requires TakeCached(s, nh, input).Ok?
    ensures var (t, r) := TakeCached(s, nh, input).value;
            t.WellFormed(s, nh) && input == SerializeCached(t) + r
  {
    var (t, r) := TakeCached(s, nh, input).value;
    TakeSplit(input, s.noe, "blinded element");
    var r1 := input[s.noe..];
    TakeSplit(r1, NONCE_LEN, "client nonce");
    var r2 := r1[NONCE_LEN..];
    TakeSplit(r2, s.nepk, "client ephemeral public key");
    var r3 := r2[s.nepk..];
    PartsCodec(s, t.response, [], r3);
    var r4 := TakeParts(s, r3).value.1;
    TakeSplit(r4, NONCE_LEN, "server nonce");
    var r5 := r4[NONCE_LEN..];
    TakeSplit(r5, s.nepk, "serialized server ephemeral key");
    var r6 := r5[s.nepk..];
    TakeSplit(r6, nh, "server mac");
    CachedAssoc(t, r);
  }

  function SerializeVerifyState(v: Sigma.VerifyState): Bytes {
    match v
    case Cached(c) => SerializeCached(c)
    case PreHash(digest) => digest
  }

  /** The scheme decides which kind of state it stores. */
  function TakeVerifyState(sig: SigScheme, s: Shape, nh: nat, input: Bytes): Result<(Sigma.VerifyState, Bytes)> {
    match sig.preHash
    case None =>
      var (c, r) :- TakeCached(s, nh, input);
      Ok((Sigma.Cached(c), r))
    case Some(h) =>
      var (digest, r) :- TakeArray(input, h.nh, "pre-hash");
      Ok((Sigma.PreHash(digest), r))
  }

  ghost predicate VerifyStateWellFormed(sig: SigScheme, s: Shape, nh: nat, v: Sigma.VerifyState) {
    match sig.preHash
    case None => v.Cached? && v.message.WellFormed(s, nh)
    case Some(h) => v.PreHash? && |v.digest| == h.nh
  }

  lemma VerifyStateCodec(sig: SigScheme, s: Shape, nh: nat, v: Sigma.VerifyState, rest: Bytes, input: Bytes)
    ensures VerifyStateWellFormed(sig, s, nh, v) ==>
              TakeVerifyState(sig, s, nh, SerializeVerifyState(v) + rest) == Ok((v, rest))
    ensures TakeVerifyState(sig, s, nh, input).Ok? ==>
              var (t, r) := TakeVerifyState(sig, s, nh, input).value;
              VerifyStateWellFormed(sig, s, nh, t) && input == SerializeVerifyState(t) + r
  {
    match sig.preHash
    case None =>
      if v.Cached? {
        CachedCodec(s, nh, v.message, rest, input);
      }
      if TakeVerifyState(sig, s, nh, input).Ok? {
        CachedCanonical(s, nh, input);
      }
    case Some(h) =>
      if v.PreHash? {
        TakeCat(v.digest, rest, "pre-hash");
      }
      if TakeVerifyState(sig, s, nh, input).Ok? {
        TakeSplit(input, h.nh, "pre-hash");
      }
  }

  function SerializeSigmaState(group: Group, s: Sigma.Ke2State): Bytes {
    group.serializePk(s.clientSPk) + (s.sessionKey + (SerializeVerifyState(s.verifyState) + s.expectedMac))
  }

  function TakeSigmaState(h: HashFn, group: Group, sig: SigScheme, shape: Shape, input: Bytes)
    : Result<(Sigma.Ke2State, Bytes)>
  {
    var (pk, r) :- DeserializeTakePk(group, input);
    var (key, r) :- TakeArray(r, h.nh, "session key");
    var (v, r) :- TakeVerifyState(sig, shape, h.nh, r);
    var (mac, r) :- TakeArray(r, h.nh, "expected mac");
    Ok((Sigma.Ke2State(pk, key, v, mac), r))
  }

  ghost predicate SigmaStateWellFormed(h: HashFn, group: Group, sig: SigScheme, shape: Shape, s: Sigma.Ke2State) {
    && group.validPk(s.clientSPk) && |s.sessionKey| == |s.expectedMac| == h.nh
    && VerifyStateWellFormed(sig, shape, h.nh, s.verifyState)
  }

  lemma SigmaStateCodec(h: HashFn, group: Group, sig: SigScheme, shape: Shape, s: Sigma.Ke2State, rest: Bytes,
                        input: Bytes)
    requires group.Lawful()
    ensures SigmaStateWellFormed(h, group, sig, shape, s) ==>
              TakeSigmaState(h, group, sig, shape, SerializeSigmaState(group, s) + rest) == Ok((s, rest))
    ensures TakeSigmaState(h, group, sig, shape, input).Ok? ==>
              var (t, r) := TakeSigmaState(h, group, sig, shape, input).value;
              SigmaStateWellFormed(h, group, sig, shape, t) && input == SerializeSigmaState(group, t) + r
  {
    if SigmaStateWellFormed(h, group, sig, shape, s) {
      var pk, v := group.serializePk(s.clientSPk), SerializeVerifyState(s.verifyState);
      CatAssoc(pk, s.sessionKey + (v + s.expectedMac), rest);
      CatAssoc(s.sessionKey, v + s.expectedMac, rest);
      CatAssoc(v, s.expectedMac, rest);
      PkRoundTrip(group, s.clientSPk, s.sessionKey + (v + (s.expectedMac + rest)));
      TakeCat(s.sessionKey, v + (s.expectedMac + rest), "session key");
      VerifyStateCodec(sig, shape, h.nh, s.verifyState, s.expectedMac + rest, []);
      TakeCat(s.expectedMac, rest, "expected mac");
    }
    if TakeSigmaState(h, group, sig, shape, input).Ok? {
      SigmaStateCanonical(h, group, sig, shape, input);
    }
  }

  lemma SigmaStateCanonical(h: HashFn, group: Group, sig: SigScheme, shape: Shape, input: Bytes)
    requires group.Lawful() && TakeSigmaState(h, group, sig, shape, input).Ok?
    ensures var (t, r) := TakeSigmaState(h, group, sig, shape, input).value;
            SigmaStateWellFormed(h, group, sig, shape, t) && input == SerializeSigmaState(group, t) + r
  {
    var t := TakeSigmaState(h, group, sig, shape, input).value.0;
    PkCanonical(group, input);
    var r1 := DeserializeTakePk(group, input).value.1;
    TakeSplit(r1, h.nh, "session key");
    var r2 := r1[h.nh..];
    VerifyStateCodec(sig, shape, h.nh, t.verifyState, [], r2);
    var r3 := TakeVerifyState(sig, shape, h.nh, r2).value.1;
    TakeSplit(r3, h.nh, "expected mac");
    var end := r3[h.nh..];
    var pk, v := group.serializePk(t.clientSPk), SerializeVerifyState(t.verifyState);
    CatAssoc(v, t.expectedMac, end);
    CatAssoc(t.sessionKey, v + t.expectedMac, end);
    CatAssoc(pk, t.sessionKey + (v + t.expectedMac), end);
  }
}
