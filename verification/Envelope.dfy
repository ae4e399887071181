/** The envelope that authenticates the server key and the identifiers (src/envelope.rs). */
module Envelope {
  import opened Errors
  import opened Serialization
  import opened Primitives
  import opened Identifiers
  import opened Keypair
  import opened Hkdf

  const STR_AUTH_KEY: Bytes := Ascii("AuthKey")
  const STR_EXPORT_KEY: Bytes := Ascii("ExportKey")
  const STR_PRIVATE_KEY: Bytes := Ascii("PrivateKey")

  datatype Mode = Zero | Internal

  datatype Envelope = Envelope(mode: Mode, nonce: Bytes, hmac: Bytes) {
    ghost predicate WellFormed(h: HashFn) {
      |nonce| == NONCE_LEN && |hmac| == h.nh
    }

    function Serialize(): Bytes {
      nonce + hmac
    }
  }

  datatype OpenedEnvelope = OpenedEnvelope(clientKeyPair: KeyPair, exportKey: Bytes, identifiers: SerializedIdentifiers)

  /** The fake envelope of an unregistered client. */
  function Dummy(h: HashFn): Envelope {
    Envelope(Zero, seq(NONCE_LEN, _ => 0), seq(h.nh, _ => 0))
  }

  /** Parsing always restores the internal mode. */
  function DeserializeTake(h: HashFn, input: Bytes): Result<(Envelope, Bytes)> {
    var (nonce, rest) :- TakeArray(input, NONCE_LEN, "nonce");
    var (hmac, rest) :- TakeArray(rest, h.nh, "hmac");
    Ok((Envelope(Internal, nonce, hmac), rest))
  }

  /** The mode is not transmitted: what is parsed back is the envelope in internal mode. */
  lemma EnvelopeRoundTrip(h: HashFn, e: Envelope, rest: Bytes)
    requires e.WellFormed(h)
    ensures DeserializeTake(h, e.Serialize() + rest) == Ok((e.(mode := Internal), rest))
    ensures DeserializeTake(h, e.Serialize() + rest) == Ok((e, rest)) <==> e.mode == Internal
  {
    CatAssoc(e.nonce, e.hmac, rest);
    TakeCat(e.nonce, e.hmac + rest, "nonce");
    TakeCat(e.hmac, rest, "hmac");
  }

  lemma EnvelopeCanonical(h: HashFn, input: Bytes)
    ensures DeserializeTake(h, input).Ok? <==> NONCE_LEN + h.nh <= |input|
    ensures DeserializeTake(h, input).Ok? ==>
              var (e, rest) := DeserializeTake(h, input).value;
              e.mode == Internal && e.WellFormed(h) && input == e.Serialize() + rest
  {
  }

  // ---------------------------------------------------------------------
  // Additional authenticated data
  // ---------------------------------------------------------------------

  function ConstructAad(idU: seq<Bytes>, idS: seq<Bytes>, serverPk: Bytes): seq<Bytes> {
    [serverPk] + idS + idU
  }

  function AadBytes(serverPk: Bytes, idS: Bytes, idU: Bytes): Bytes {
    serverPk + (Vec16(idS) + Vec16(idU))
  }

  function DecodeAad(npk: nat, aad: Bytes): Result<(Bytes, Bytes, Bytes)> {
    var (serverPk, rest) :- TakeArray(aad, npk, "server public key");
    var (idS, rest) :- TakeVec16(rest);
    var (idU, rest) :- TakeVec16(rest);
    Ok((serverPk, idS, idU))
  }

  lemma AadFlat(ids: SerializedIdentifiers, serverPk: Bytes)
    requires ids.WellFormed()
    ensures Flatten(ConstructAad(ids.client.Iter(), ids.server.Iter(), serverPk))
         == AadBytes(serverPk, ids.server.identifier.bytes, ids.client.identifier.bytes)
  {
    var s, u := ids.server.Iter(), ids.client.Iter();
    FlattenCat([serverPk] + s, u);
    FlattenCat([serverPk], s);
    FlattenOne(serverPk);
    ids.server.Flat();
    ids.client.Flat();
    CatAssoc(serverPk, Flatten(s), Flatten(u));
  }

  /** The authenticated data determines the server key and both identifiers. */
  lemma AadUnique(serverPk: Bytes, idS: Bytes, idU: Bytes)
    requires |idS| < 0x1_0000 && |idU| < 0x1_0000
    ensures DecodeAad(|serverPk|, AadBytes(serverPk, idS, idU)) == Ok((serverPk, idS, idU))
  {
    TakeCat(serverPk, Vec16(idS) + Vec16(idU), "server public key");
    TakeVec16Cat(idS, Vec16(idU));
    assert Vec16(idU) + [] == Vec16(idU);
    TakeVec16Cat(idU, []);
  }

  // ---------------------------------------------------------------------
  // Seal and open
  // ---------------------------------------------------------------------

  /** The static key pair of the client is a function of the randomized password and the nonce. */
  function RecoverKeys(h: HashFn, g: Group, prk: Bytes, nonce: Bytes): Result<KeyPair>
    requires h.Lawful()
  {
    var seed :- Expand(h, prk, nonce + STR_PRIVATE_KEY, g.nsk);
    var sk :- OkOr(g.deriveScalar(seed), LibraryError(OprfError(DeriveKeyPair)));
    Ok(FromPrivate(g, sk))
  }

  /** The MAC key and the export key of the envelope with this nonce. */
  function EnvelopeKeys(h: HashFn, prk: Bytes, nonce: Bytes): Result<(Bytes, Bytes)>
    requires h.Lawful()
  {
    var hmacKey :- Expand(h, prk, nonce + STR_AUTH_KEY, h.nh);
    var exportKey :- Expand(h, prk, nonce + STR_EXPORT_KEY, h.nh);
    Ok((hmacKey, exportKey))
  }

  function SealRawSpec(h: HashFn, prk: Bytes, nonce: Bytes, aad: seq<Bytes>, mode: Mode): Result<(Envelope, Bytes)>
    requires h.Lawful()
  {
    var (hmacKey, exportKey) :- EnvelopeKeys(h, prk, nonce);
    Ok((Envelope(mode, nonce, h.hmac(hmacKey, nonce + Flatten(aad))), exportKey))
  }

  method SealRaw(h: HashFn, prk: Bytes, nonce: Bytes, aad: seq<Bytes>, mode: Mode)
    returns (r: Result<(Envelope, Bytes)>)
    requires h.Lawful()
    ensures r == SealRawSpec(h, prk, nonce, aad, mode)
  {
    var keys :- EnvelopeKeys(h, prk, nonce);
    var mac := new Absorber();
    mac.Update(nonce);
    mac.UpdateIter(aad);
    assert mac.data == nonce + Flatten(aad);
    r := Ok((Envelope(mode, nonce, h.hmac(keys.0, mac.data)), keys.1));
  }

  function OpenRawSpec(e: Envelope, h: HashFn, prk: Bytes, aad: seq<Bytes>): Result<Bytes>
    requires h.Lawful()
  {
    var (hmacKey, exportKey) :- EnvelopeKeys(h, prk, e.nonce);
    var _ :- Need(h.hmac(hmacKey, e.nonce + Flatten(aad)) == e.hmac, LibraryError(SealOpenHmacError));
    Ok(exportKey)
  }

  method OpenRaw(e: Envelope, h: HashFn, prk: Bytes, aad: seq<Bytes>) returns (r: Result<Bytes>)
    requires h.Lawful()
    ensures r == OpenRawSpec(e, h, prk, aad)
  {
    var keys :- EnvelopeKeys(h, prk, e.nonce);
    var mac := new Absorber();
    mac.Update(e.nonce);
    mac.UpdateIter(aad);
    assert mac.data == e.nonce + Flatten(aad);
    if h.hmac(keys.0, mac.data) != e.hmac {
      return Err(LibraryError(SealOpenHmacError));
    }
    r := Ok(keys.1);
  }

  function Aad(g: Group, ids: SerializedIdentifiers, serverPk: PublicKey): seq<Bytes> {
    ConstructAad(ids.client.Iter(), ids.server.Iter(), g.serializePk(serverPk))
  }

  /** Returns the envelope, the client's static public key and the export key. */
  function Seal(h: HashFn, g: Group, nonce: Bytes, prk: Bytes, serverPk: PublicKey, ids: Ids)
    : Result<(Envelope, PublicKey, Bytes)>
    requires h.Lawful()
  {
    var keys :- RecoverKeys(h, g, prk, nonce);
    var identifiers :- FromIdentifiers(ids, g.serializePk(keys.pk), g.serializePk(serverPk));
    var (envelope, exportKey) :- SealRawSpec(h, prk, nonce, Aad(g, identifiers, serverPk), Internal);
    Ok((envelope, keys.pk, exportKey))
  }

  function Open(h: HashFn, g: Group, e: Envelope, prk: Bytes, serverPk: PublicKey, ids: Ids): Result<OpenedEnvelope>
    requires h.Lawful()
  {
    var keys :- match e.mode
                case Zero => Err(LibraryError(IncompatibleEnvelopeModeError))
                case Internal => RecoverKeys(h, g, prk, e.nonce);
    var identifiers :- FromIdentifiers(ids, g.serializePk(keys.pk), g.serializePk(serverPk));
    var exportKey :- OpenRawSpec(e, h, prk, Aad(g, identifiers, serverPk));
    Ok(OpenedEnvelope(keys, exportKey, identifiers))
  }

  /** The same identifier is in force on both sides, whether given or defaulted to the public key. */
  predicate SameIds(ids1: Ids, ids2: Ids, clientPk: Bytes, serverPk: Bytes) {
    && ids1.client.GetOr(clientPk) == ids2.client.GetOr(clientPk)
    && ids1.server.GetOr(serverPk) == ids2.server.GetOr(serverPk)
  }

  lemma RecoveredKeysMatch(h: HashFn, g: Group, prk: Bytes, nonce: Bytes)
    requires h.Lawful() && g.LawfulKeys() && RecoverKeys(h, g, prk, nonce).Ok?
    ensures RecoverKeys(h, g, prk, nonce).value.Matching(g)
    ensures g.validPk(RecoverKeys(h, g, prk, nonce).value.pk)
  {
  }

  /** Sealing yields a well-formed internal envelope and a valid public key. */
  lemma SealShape(h: HashFn, g: Group, nonce: Bytes, prk: Bytes, serverPk: PublicKey, ids: Ids)
    requires h.Lawful() && g.LawfulKeys() && |nonce| == NONCE_LEN && Seal(h, g, nonce, prk, serverPk, ids).Ok?
    ensures var (e, clientPk, exportKey) := Seal(h, g, nonce, prk, serverPk, ids).value;
            e.WellFormed(h) && e.mode == Internal && g.validPk(clientPk)
            && |exportKey| == h.nh
  {
    RecoveredKeysMatch(h, g, prk, nonce);
  }

  /**
   What sealing computes, section 4.1.2 of RFC 9807: the MAC key and the export key are single HMACs of the randomized
   password under their labels, the MAC covers the nonce, the server's key and both identifiers in force, and the
   client's key is derived from a seed expanded under a third label.
   */
  lemma SealComputes(h: HashFn, g: Group, nonce: Bytes, prk: Bytes, serverPk: PublicKey, ids: Ids)
    requires h.Lawful() && |prk| == h.nh && Seal(h, g, nonce, prk, serverPk, ids).Ok?
    ensures var (e, clientPk, exportKey) := Seal(h, g, nonce, prk, serverPk, ids).value;
            var aad := AadBytes(g.serializePk(serverPk), ids.server.GetOr(g.serializePk(serverPk)),
                                ids.client.GetOr(g.serializePk(clientPk)));
            && e.nonce == nonce
            && exportKey == h.hmac(prk, nonce + Ascii("ExportKey") + [1])
            && e.hmac == h.hmac(h.hmac(prk, nonce + Ascii("AuthKey") + [1]), nonce + aad)
            && var seed := Expand(h, prk, nonce + Ascii("PrivateKey"), g.nsk);
               && seed.Ok? && g.deriveScalar(seed.value).Some?
               && clientPk == g.publicKey(g.deriveScalar(seed.value).value)
  {
    ExpandOneBlock(h, prk, nonce + STR_AUTH_KEY);
    ExpandOneBlock(h, prk, nonce + STR_EXPORT_KEY);
    var keys := RecoverKeys(h, g, prk, nonce).value;
    var spk := g.serializePk(serverPk);
    AadFlat(FromIdentifiers(ids, g.serializePk(keys.pk), spk).value, spk);
  }

  /**
   Opening inverts sealing: under the same randomized password, server key and identifiers in force,
   the same export key and the client's matching key pair come back.
   */
  lemma OpenAfterSeal(h: HashFn, g: Group, nonce: Bytes, prk: Bytes, serverPk: PublicKey, ids: Ids, ids': Ids)
    requires h.Lawful() && g.LawfulKeys() && Seal(h, g, nonce, prk, serverPk, ids).Ok?
    requires SameIds(ids, ids', g.serializePk(Seal(h, g, nonce, prk, serverPk, ids).value.1),
                     g.serializePk(serverPk))
    ensures var (e, clientPk, exportKey) := Seal(h, g, nonce, prk, serverPk, ids).value;
            var reopened := Open(h, g, e, prk, serverPk, ids');
            && reopened.Ok?
            && reopened.value.exportKey == exportKey
            && reopened.value.clientKeyPair.pk == clientPk
            && reopened.value.clientKeyPair.Matching(g)
            && reopened.value.identifiers.WellFormed()
            && reopened.value.identifiers.client.identifier.bytes == ids.client.GetOr(g.serializePk(clientPk))
            && reopened.value.identifiers.server.identifier.bytes == ids.server.GetOr(g.serializePk(serverPk))
  {
    var keys := RecoverKeys(h, g, prk, nonce).value;
    RecoveredKeysMatch(h, g, prk, nonce);
    var cpk, spk := g.serializePk(keys.pk), g.serializePk(serverPk);
    var sealed := FromIdentifiers(ids, cpk, spk).value;
    var reopened := FromIdentifiers(ids', cpk, spk).value;
    AadFlat(sealed, spk);
    AadFlat(reopened, spk);
  }

  /**
   An envelope opens only under the server key and the identifiers it was sealed with:
   if it opens under others, the two authenticated strings collide under the envelope's HMAC key.
   */
  lemma OpenAuthenticates(h: HashFn, g: Group, nonce: Bytes, prk: Bytes, serverPk: PublicKey, ids: Ids,
                          serverPk': PublicKey, ids': Ids)
    returns (key: Bytes, m1: Bytes, m2: Bytes)
    requires h.Lawful() && g.LawfulEncodings() && g.validPk(serverPk) && g.validPk(serverPk')
    requires Seal(h, g, nonce, prk, serverPk, ids).Ok?
    requires Open(h, g, Seal(h, g, nonce, prk, serverPk, ids).value.0, prk, serverPk', ids').Ok?
    ensures var clientPk := g.serializePk(Seal(h, g, nonce, prk, serverPk, ids).value.1);
            && m1 == nonce + AadBytes(g.serializePk(serverPk), ids.server.GetOr(g.serializePk(serverPk)),
                                      ids.client.GetOr(clientPk))
            && m2 == nonce + AadBytes(g.serializePk(serverPk'), ids'.server.GetOr(g.serializePk(serverPk')),
                                      ids'.client.GetOr(clientPk))
            && Expand(h, prk, nonce + STR_AUTH_KEY, h.nh) == Ok(key)
    ensures var clientPk := g.serializePk(Seal(h, g, nonce, prk, serverPk, ids).value.1);
            || h.HmacCollision(key, m1, key, m2)
            || (serverPk == serverPk' && SameIds(ids, ids', clientPk, g.serializePk(serverPk)))
  {
    var keys := RecoverKeys(h, g, prk, nonce).value;
    var cpk, spk, spk' := g.serializePk(keys.pk), g.serializePk(serverPk), g.serializePk(serverPk');
    var sealed := FromIdentifiers(ids, cpk, spk).value;
    var reopened := FromIdentifiers(ids', cpk, spk').value;
    AadFlat(sealed, spk);
    AadFlat(reopened, spk');
    var s, u := ids.server.GetOr(spk), ids.client.GetOr(cpk);
    var s', u' := ids'.server.GetOr(spk'), ids'.client.GetOr(cpk);
    key := Expand(h, prk, nonce + STR_AUTH_KEY, h.nh).value;
    m1 := nonce + AadBytes(spk, s, u);
    m2 := nonce + AadBytes(spk', s', u');
    if m1 == m2 {
      Cancel(nonce, AadBytes(spk, s, u), nonce, AadBytes(spk', s', u'));
      AadUnique(spk, s, u);
      AadUnique(spk', s', u');
    }
  }
}
