/** Triple Diffie-Hellman with an additional key encapsulation (src/key_exchange/tripledh_kem.rs). */
module TripleDhKem {
  import opened Errors
  import opened Serialization
  import opened Primitives
  import opened Keypair
  import opened Hkdf
  import opened Transcript
  import Dh = TripleDh

  datatype KemKe1State = KemKe1State(dhState: Ke1State, kemDk: DecapKey)

  datatype KemKe1Message = KemKe1Message(dhMessage: Ke1Message, kemEk: Bytes)

  datatype KemKe2Builder = KemKe2Builder(base: Dh.Ke2Builder, kemEk: Bytes, kemCiphertext: Bytes,
                                         kemSharedSecret: Bytes)

  datatype KemKe2State = KemKe2State(base: Dh.Ke2State, kemEk: Bytes, kemCiphertext: Bytes)

  datatype KemKe2Message = KemKe2Message(dhMessage: Dh.Ke2Message, kemCiphertext: Bytes)

  /** `generate_ke1`: the Diffie-Hellman part first, then a KEM key pair. */
  function GenerateKe1Kem(g: Group, kem: Kem, tape: Tape, pos: nat): Result<(KemKe1State, KemKe1Message, nat)> {
    var (state, message, pos) :- GenerateKe1(g, tape, pos);
    var (dk, ek, pos) := kem.generate(tape, pos);
    Ok((KemKe1State(state, dk), KemKe1Message(message, kem.serializeEk(ek)), pos))
  }

  function ParseEk(kem: Kem, input: Bytes): Result<EncapKey> {
    var (bytes, _) :- TakeArray(input, kem.nek, "kem encapsulation key");
    OkOr(kem.parseEk(bytes), SerializationError)
  }

  /** The Diffie-Hellman builder whose transcript also absorbs the client's KEM key and the ciphertext. */
  function BuilderFrom(base: Dh.Ke2Builder, kemEk: Bytes, ct: Bytes, ss: Bytes): KemKe2Builder {
    KemKe2Builder(base.(transcript := base.transcript + kemEk + ct), kemEk, ct, ss)
  }

  function Ke2BuilderSpec(g: Group, kem: Kem, tape: Tape, pos: nat, view: Dh.View, kemEk: Bytes, clientSPk: PublicKey)
    : Result<(KemKe2Builder, nat)>
  {
    var (base, pos) :- Dh.Ke2BuilderSpec(g, tape, pos, view, clientSPk);
    var ek :- ParseEk(kem, kemEk);
    var (ct, ss, pos) := kem.encapsulate(ek, tape, pos);
    Ok((BuilderFrom(base, kemEk, ct, ss), pos))
  }

  method MakeKe2Builder(g: Group, kem: Kem, rng: TapeRng, view: Dh.View, kemEk: Bytes, clientSPk: PublicKey)
    returns (r: Result<KemKe2Builder>)
    requires kem.Lawful() && view.context.WellFormed() && view.identifiers.WellFormed()
    modifies rng
    ensures match Ke2BuilderSpec(g, kem, rng.tape, old(rng.pos), view, kemEk, clientSPk)
            case Ok((builder, pos)) => r == Ok(builder) && rng.pos == pos
            case Err(e) => r == Err(e)
  {
    var base :- Dh.MakeKe2Builder(g, rng, view, clientSPk);
    var ek :- ParseEk(kem, kemEk);
    var (ct, ss, pos) := kem.encapsulate(ek, rng.tape, rng.pos);
    rng.pos := pos;
    var hasher := new Absorber.FromState(base.transcript);
    hasher.Update(kemEk);
    hasher.Update(ct);
    r := Ok(KemKe2Builder(base.(transcript := hasher.data), kemEk, ct, ss));
  }

  function ServerSecrets(b: KemKe2Builder, sharedSecret2: Bytes): seq<Bytes> {
    [b.base.sharedSecret1, sharedSecret2, b.base.sharedSecret3, b.kemSharedSecret]
  }

  function BuildKe2Spec(h: HashFn, b: KemKe2Builder, sharedSecret2: Bytes): Result<(KemKe2State, KemKe2Message)>
    requires h.Lawful()
  {
    var (state, message) :- Dh.FinishBuilder(h, b.base, ServerSecrets(b, sharedSecret2));
    Ok((KemKe2State(state, b.kemEk, b.kemCiphertext), KemKe2Message(message, b.kemCiphertext)))
  }

  method BuildKe2(h: HashFn, b: KemKe2Builder, sharedSecret2: Bytes) returns (r: Result<(KemKe2State, KemKe2Message)>)
    requires h.Lawful()
    ensures r == BuildKe2Spec(h, b, sharedSecret2)
  {
    var hasher := new Absorber.FromState(b.base.transcript);
    var digest := h.hash(hasher.data);
    var keys :- DeriveKeys(h, ServerSecrets(b, sharedSecret2), digest);
    var mac, expectedMac := ComputeKe2Macs(h, hasher, keys, digest);
    r := Ok((KemKe2State(Dh.Ke2State(keys.sessionKey, expectedMac), b.kemEk, b.kemCiphertext),
             KemKe2Message(Dh.Ke2Message(b.base.serverNonce, b.base.serverEPk, mac), b.kemCiphertext)));
  }

  function ClientSecrets(g: Group, kem: Kem, state: KemKe1State, ke2: KemKe2Message, serverSPk: PublicKey,
                         clientSSk: PrivateKey): seq<Bytes>
  {
    Dh.ClientSecrets(g, state.dhState, ke2.dhMessage.serverEPk, serverSPk, clientSSk)
    + [kem.decapsulate(state.kemDk, ke2.kemCiphertext)]
  }

  function GenerateKe3Spec(h: HashFn, g: Group, kem: Kem, view: Dh.View, kemEk: Bytes, state: KemKe1State,
                           ke2: KemKe2Message, serverSPk: PublicKey, clientSSk: PrivateKey)
    : Result<(Bytes, Dh.Ke3Message)>
    requires h.Lawful()
  {
    var transcript := Encode(view.Parts(g, ke2.dhMessage.serverNonce, ke2.dhMessage.serverEPk), [])
                      + kemEk + ke2.kemCiphertext;
    var (keys, clientMac) :-
      FinalizeKe3Spec(h, transcript, ClientSecrets(g, kem, state, ke2, serverSPk, clientSSk), ke2.dhMessage.mac);
    Ok((keys.sessionKey, Dh.Ke3Message(clientMac)))
  }

  method GenerateKe3(h: HashFn, g: Group, kem: Kem, view: Dh.View, kemEk: Bytes, state: KemKe1State,
                     ke2: KemKe2Message, serverSPk: PublicKey, clientSSk: PrivateKey)
    returns (r: Result<(Bytes, Dh.Ke3Message)>)
    requires h.Lawful() && view.context.WellFormed() && view.identifiers.WellFormed()
    ensures r == GenerateKe3Spec(h, g, kem, view, kemEk, state, ke2, serverSPk, clientSSk)
  {
    var hasher := TranscriptHasher(view.context, view.identifiers, view.request, view.ke1.ToIter(g), view.response,
                                   ke2.dhMessage.serverNonce, g.serializePk(ke2.dhMessage.serverEPk));
    hasher.Update(kemEk);
    hasher.Update(ke2.kemCiphertext);
    var secrets := ClientSecrets(g, kem, state, ke2, serverSPk, clientSSk);
    var result :- FinalizeKe3(h, hasher, secrets, ke2.dhMessage.mac);
    r := Ok((result.0.sessionKey, Dh.Ke3Message(result.1)));
  }

  function FinishKe(state: KemKe2State, ke3: Dh.Ke3Message): Result<Bytes> {
    Dh.FinishKe(state.base, ke3)
  }

  /** The KEM key and the ciphertext are a suffix of the transcript. */
  lemma KemSuffix(p: Parts, kemEk: Bytes, ct: Bytes)
    ensures Encode(p, []) + kemEk + ct == Encode(p, kemEk + ct)
  {
    assert [] + (kemEk + ct) == kemEk + ct;
    CatAssoc(Encode(p, []), kemEk, ct);
    EncodeThen(p, [], kemEk + ct);
  }

  /** What the server's MACs are computed from: with the KEM's key and ciphertext, and its secret as the fourth. */
  function ServerSide(g: Group, server: Dh.View, ephemeral: KeyPair, serverNonce: Bytes, clientSPk: PublicKey,
                      serverSSk: PrivateKey, kemEk: Bytes, ciphertext: Bytes, kemSecret: Bytes): Keyed
  {
    var base := Dh.ServerSide(g, server, ephemeral, serverNonce, clientSPk, serverSSk);
    Keyed(base.transcript + kemEk + ciphertext, base.secrets + [kemSecret])
  }

  /** What the client's MACs are computed from. */
  function ClientSide(g: Group, kem: Kem, client: Dh.View, clientEk: Bytes, state: KemKe1State, received: KemKe2Message,
                      serverSPk: PublicKey, clientSSk: PrivateKey): Keyed
  {
    var base := Dh.ClientSide(g, client, state.dhState, received.dhMessage, serverSPk, clientSSk);
    Keyed(base.transcript + clientEk + received.kemCiphertext,
          base.secrets + [kem.decapsulate(state.kemDk, received.kemCiphertext)])
  }

  /** The server sends the MAC of its side, keeps its session key, and expects the client's MAC over both. */
  lemma ServerComputes(h: HashFn, g: Group, server: Dh.View, ephemeral: KeyPair, serverNonce: Bytes,
                       clientSPk: PublicKey, serverSSk: PrivateKey, kemEk: Bytes, ciphertext: Bytes, kemSecret: Bytes)
    requires h.Lawful()
    ensures var b := BuilderFrom(Dh.BuilderFrom(g, server, ephemeral, serverNonce, clientSPk), kemEk, ciphertext,
                                 kemSecret);
            var side := ServerSide(g, server, ephemeral, serverNonce, clientSPk, serverSSk, kemEk, ciphertext,
                                   kemSecret);
            var mac := ServerMac(h, side);
            BuildKe2Spec(h, b, g.dh(serverSSk, server.ke1.clientEPk))
            == Ok((KemKe2State(Dh.Ke2State(side.SessionKey(h), ClientMac(h, side, mac)), kemEk, ciphertext),
                   KemKe2Message(Dh.Ke2Message(serverNonce, ephemeral.pk, mac), ciphertext)))
  {
    var side := ServerSide(g, server, ephemeral, serverNonce, clientSPk, serverSSk, kemEk, ciphertext, kemSecret);
    var b := BuilderFrom(Dh.BuilderFrom(g, server, ephemeral, serverNonce, clientSPk), kemEk, ciphertext, kemSecret);
    assert ServerSecrets(b, g.dh(serverSSk, server.ke1.clientEPk)) == side.secrets;
    KeyedKeys(h, side);
  }

  /** The client accepts exactly the MAC of its side; then it has its session key and answers with its MAC over both. */
  lemma ClientVerdict(h: HashFn, g: Group, kem: Kem, client: Dh.View, clientEk: Bytes, state: KemKe1State,
                      received: KemKe2Message, serverSPk: PublicKey, clientSSk: PrivateKey)
    requires h.Lawful()
    ensures var side := ClientSide(g, kem, client, clientEk, state, received, serverSPk, clientSSk);
            var mac := received.dhMessage.mac;
            GenerateKe3Spec(h, g, kem, client, clientEk, state, received, serverSPk, clientSSk)
            == if mac == ServerMac(h, side) then Ok((side.SessionKey(h), Dh.Ke3Message(ClientMac(h, side, mac))))
               else Err(InvalidLoginError)
  {
    var side := ClientSide(g, kem, client, clientEk, state, received, serverSPk, clientSSk);
    assert ClientSecrets(g, kem, state, received, serverSPk, clientSSk) == side.secrets;
    FinalizeIs(h, side, received.dhMessage.mac);
  }

  /**
   Agreement with the KEM: in addition to everything plain triple Diffie-Hellman binds, both sides hold the same
   KEM public key, ciphertext and encapsulated secret; otherwise one of the six candidate pairs computed from the two
   sides collides.
   */
  lemma Agreement(h: HashFn, g: Group, kem: Kem, s: Shape, ephemeral: KeyPair, serverNonce: Bytes, server: Dh.View,
                  serverEk: Bytes, ciphertext: Bytes, kemSecret: Bytes, clientSPk: PublicKey, serverSSk: PrivateKey,
                  client: Dh.View, clientEk: Bytes, state: KemKe1State, received: KemKe2Message,
                  serverSPk: PublicKey, clientSSk: PrivateKey)
    returns (collision: Option<Collision>)
    requires h.Lawful() && g.Lawful() && s.nepk == g.npk
    requires ephemeral.Matching(g) && |serverNonce| == NONCE_LEN
    requires server.WellFormed(s, g) && client.WellFormed(s, g) && received.dhMessage.WellFormed(h, g)
    requires |serverEk| == |clientEk| == kem.nek && |ciphertext| == |received.kemCiphertext| == kem.nct
    requires var b := BuilderFrom(Dh.BuilderFrom(g, server, ephemeral, serverNonce, clientSPk), serverEk, ciphertext,
                                  kemSecret);
             var built := BuildKe2Spec(h, b, g.dh(serverSSk, b.base.clientEPk));
             var answer := GenerateKe3Spec(h, g, kem, client, clientEk, state, received, serverSPk, clientSSk);
             built.Ok? && answer.Ok? && FinishKe(built.value.0, answer.value.1).Ok?
    ensures collision.Some? ==>
              && collision.value.Breaks(h)
              && collision.value in ConfirmationCandidates(
                   h, ServerSide(g, server, ephemeral, serverNonce, clientSPk, serverSSk, serverEk, ciphertext,
                                 kemSecret),
                   ClientSide(g, kem, client, clientEk, state, received, serverSPk, clientSSk), received.dhMessage.mac)
    ensures collision.None? ==>
              var b := BuilderFrom(Dh.BuilderFrom(g, server, ephemeral, serverNonce, clientSPk), serverEk, ciphertext,
                                   kemSecret);
              var (ke2State, sent) := BuildKe2Spec(h, b, g.dh(serverSSk, b.base.clientEPk)).value;
              var (sessionKey, ke3) :=
                GenerateKe3Spec(h, g, kem, client, clientEk, state, received, serverSPk, clientSSk).value;
              && Dh.ViewsAgree(server, client)
              && clientEk == serverEk
              && received == sent
              && FinishKe(ke2State, ke3) == Ok(sessionKey)
              && ClientSide(g, kem, client, clientEk, state, received, serverSPk, clientSSk).secrets
                 == ServerSide(g, server, ephemeral, serverNonce, clientSPk, serverSSk, serverEk, ciphertext,
                               kemSecret).secrets
  {
    var ss := ServerSide(g, server, ephemeral, serverNonce, clientSPk, serverSSk, serverEk, ciphertext, kemSecret);
    var cs := ClientSide(g, kem, client, clientEk, state, received, serverSPk, clientSSk);
    ServerComputes(h, g, server, ephemeral, serverNonce, clientSPk, serverSSk, serverEk, ciphertext, kemSecret);
    ClientVerdict(h, g, kem, client, clientEk, state, received, serverSPk, clientSSk);
    collision := SidesBind(h, ss, cs, received.dhMessage.mac);
    if collision.None? {
      SidesAgree(g, kem, s, ephemeral, serverNonce, server, serverEk, ciphertext, kemSecret, clientSPk, serverSSk,
                 client, clientEk, state, received, serverSPk, clientSSk);
    }
  }

  /** Sides with equal transcripts and secrets have one view, KEM key and ciphertext, and each secret in common. */
  lemma SidesAgree(g: Group, kem: Kem, s: Shape, ephemeral: KeyPair, serverNonce: Bytes, server: Dh.View,
                   serverEk: Bytes, ciphertext: Bytes, kemSecret: Bytes, clientSPk: PublicKey, serverSSk: PrivateKey,
                   client: Dh.View, clientEk: Bytes, state: KemKe1State, received: KemKe2Message,
                   serverSPk: PublicKey, clientSSk: PrivateKey)
    requires g.Lawful() && s.nepk == g.npk && server.WellFormed(s, g) && client.WellFormed(s, g)
    requires |serverNonce| == |received.dhMessage.serverNonce| == NONCE_LEN
    requires g.validPk(ephemeral.pk) && g.validPk(received.dhMessage.serverEPk) && |serverEk| == |clientEk|
    requires var ss := ServerSide(g, server, ephemeral, serverNonce, clientSPk, serverSSk, serverEk, ciphertext,
                                  kemSecret);
             var cs := ClientSide(g, kem, client, clientEk, state, received, serverSPk, clientSSk);
             cs.transcript == ss.transcript && Flatten(cs.secrets) == Flatten(ss.secrets)
    ensures Dh.ViewsAgree(server, client)
    ensures received.dhMessage.serverNonce == serverNonce && received.dhMessage.serverEPk == ephemeral.pk
    ensures clientEk == serverEk && received.kemCiphertext == ciphertext
    ensures ClientSide(g, kem, client, clientEk, state, received, serverSPk, clientSSk).secrets
         == ServerSide(g, server, ephemeral, serverNonce, clientSPk, serverSSk, serverEk, ciphertext, kemSecret).secrets
  {
    var m := received.dhMessage;
    KemSuffix(server.Parts(g, serverNonce, ephemeral.pk), serverEk, ciphertext);
    KemSuffix(client.Parts(g, m.serverNonce, m.serverEPk), clientEk, received.kemCiphertext);
    Dh.TranscriptsAgree(s, g, server, client, serverNonce, ephemeral.pk, m.serverNonce, m.serverEPk,
                        serverEk + ciphertext, clientEk + received.kemCiphertext);
    Cancel(serverEk, ciphertext, clientEk, received.kemCiphertext);
    SecretsEqual(g, ClientSide(g, kem, client, clientEk, state, received, serverSPk, clientSSk),
                 ServerSide(g, server, ephemeral, serverNonce, clientSPk, serverSSk, serverEk, ciphertext, kemSecret));
  }

  lemma SecretsEqual(g: Group, x: Keyed, y: Keyed)
    requires |x.secrets| == |y.secrets| == 4 && Flatten(x.secrets) == Flatten(y.secrets)
    requires |x.secrets[0]| == |x.secrets[1]| == |x.secrets[2]| == g.npk
    requires |y.secrets[0]| == |y.secrets[1]| == |y.secrets[2]| == g.npk
    ensures x.secrets == y.secrets
  {
    FourSecretsAgree(g.npk, x.secrets, y.secrets);
  }

  lemma FourSecretsAgree(n: nat, x: seq<Bytes>, y: seq<Bytes>)
    requires |x| == |y| == 4 && Flatten(x) == Flatten(y)
    requires |x[0]| == |x[1]| == |x[2]| == n && |y[0]| == |y[1]| == |y[2]| == n
    ensures x == y
  {
    Dh.SecretsAgree(n, x, y);
    assert x[3..] == [x[3]] && y[3..] == [y[3]];
    FlattenOne(x[3]);
    FlattenOne(y[3]);
    assert x == x[..3] + [x[3]] && y == y[..3] + [y[3]];
  }

  /** The server accepts a generated KEM key, and the client decapsulates what the server encapsulated. */
  lemma EncapsulationOk(g: Group, kem: Kem, tape: Tape, pos: nat, server: Dh.View, clientSPk: PublicKey,
                        kemTape: Tape, kemPos: nat)
    requires g.Lawful() && Ephemeral(g, tape, pos).Ok? && kem.Lawful()
    ensures Dh.Ke2BuilderSpec(g, tape, pos, server, clientSPk).Ok?
    ensures var (dk, ek, _) := kem.generate(kemTape, kemPos);
            var built := Ke2BuilderSpec(g, kem, tape, pos, server, kem.serializeEk(ek), clientSPk);
            && built.Ok?
            && var b := built.value.0;
               var base := Dh.Ke2BuilderSpec(g, tape, pos, server, clientSPk).value.0;
               && b.base == base.(transcript := base.transcript + kem.serializeEk(ek) + b.kemCiphertext)
               && g.validPk(b.base.serverEPk) && |b.base.serverNonce| == NONCE_LEN
               && |b.kemCiphertext| == kem.nct
               && kem.decapsulate(dk, b.kemCiphertext) == b.kemSharedSecret
  {
    var kemEk := kem.serializeEk(kem.generate(kemTape, kemPos).1);
    assert kemEk + [] == kemEk;
    TakeCat(kemEk, [], "kem encapsulation key");
    EphemeralOk(g, tape, pos);
  }

  /** With equal transcripts and secrets on both sides the exchange completes. */
  lemma FinishCompletes(h: HashFn, g: Group, kem: Kem, b: KemKe2Builder, server: Dh.View, client: Dh.View, kemEk: Bytes,
                        state: KemKe1State, sharedSecret2: Bytes, serverSPk: PublicKey, clientSSk: PrivateKey)
    requires h.Lawful() && Dh.ViewsAgree(server, client)
    requires b.base.transcript
          == Encode(server.Parts(g, b.base.serverNonce, b.base.serverEPk), []) + kemEk + b.kemCiphertext
    requires Dh.ClientSecrets(g, state.dhState, b.base.serverEPk, serverSPk, clientSSk)
             + [kem.decapsulate(state.kemDk, b.kemCiphertext)] == ServerSecrets(b, sharedSecret2)
    ensures var built := BuildKe2Spec(h, b, sharedSecret2);
            && built.Ok?
            && built.value.1.dhMessage.serverNonce == b.base.serverNonce
            && built.value.1.dhMessage.serverEPk == b.base.serverEPk
            && |built.value.1.dhMessage.mac| == h.nh
            && var answer := GenerateKe3Spec(h, g, kem, client, kemEk, state, built.value.1, serverSPk, clientSSk);
               && answer.Ok?
               && FinishKe(built.value.0, answer.value.1) == Ok(answer.value.0)
  {
    assert server.Parts(g, b.base.serverNonce, b.base.serverEPk) ==
           client.Parts(g, b.base.serverNonce, b.base.serverEPk);
    ConfirmationCompletes(h, b.base.transcript, ServerSecrets(b, sharedSecret2));
  }

  /** Honest parties with equal views finish with equal session keys when the client generated the KEM key. */
  lemma Completeness(h: HashFn, g: Group, kem: Kem, tape: Tape, pos: nat, server: Dh.View, client: Dh.View,
                     clientS: KeyPair, serverS: KeyPair, state: KemKe1State, kemTape: Tape, kemPos: nat)
    requires h.Lawful() && g.Lawful() && Ephemeral(g, tape, pos).Ok? && kem.Lawful()
    requires clientS.Matching(g) && serverS.Matching(g)
    requires g.validSk(state.dhState.clientESk) && server.ke1.clientEPk == g.publicKey(state.dhState.clientESk)
    requires state.kemDk == kem.generate(kemTape, kemPos).0
    requires Dh.ViewsAgree(server, client)
    ensures var kemEk := kem.serializeEk(kem.generate(kemTape, kemPos).1);
            && Ke2BuilderSpec(g, kem, tape, pos, server, kemEk, clientS.pk).Ok?
            && var b := Ke2BuilderSpec(g, kem, tape, pos, server, kemEk, clientS.pk).value.0;
               var built := BuildKe2Spec(h, b, g.dh(serverS.sk, b.base.clientEPk));
               && built.Ok?
               && built.value.1.dhMessage.WellFormed(h, g)
               && |built.value.1.kemCiphertext| == kem.nct
               && var answer := GenerateKe3Spec(h, g, kem, client, kemEk, state, built.value.1, serverS.pk, clientS.sk);
                  && answer.Ok?
                  && FinishKe(built.value.0, answer.value.1) == Ok(answer.value.0)
  {
    var kemEk := kem.serializeEk(kem.generate(kemTape, kemPos).1);
    EncapsulationOk(g, kem, tape, pos, server, clientS.pk, kemTape, kemPos);
    var b := Ke2BuilderSpec(g, kem, tape, pos, server, kemEk, clientS.pk).value.0;
    Dh.SecretsCommute(g, tape, pos, server, clientS, serverS, state.dhState);
    FinishCompletes(h, g, kem, b, server, client, kemEk, state, g.dh(serverS.sk, b.base.clientEPk), serverS.pk,
                    clientS.sk);
  }

  lemma GenerateKe3Errors(h: HashFn, g: Group, kem: Kem, view: Dh.View, kemEk: Bytes, state: KemKe1State,
                          ke2: KemKe2Message, serverSPk: PublicKey, clientSSk: PrivateKey)
    requires h.Lawful()
    ensures var r := GenerateKe3Spec(h, g, kem, view, kemEk, state, ke2, serverSPk, clientSSk);
            r.Err? ==> r.error == InvalidLoginError
  {
    FinalizeErrors(h, Encode(view.Parts(g, ke2.dhMessage.serverNonce, ke2.dhMessage.serverEPk), [])
                      + kemEk + ke2.kemCiphertext,
                   ClientSecrets(g, kem, state, ke2, serverSPk, clientSSk), ke2.dhMessage.mac);
  }
}
