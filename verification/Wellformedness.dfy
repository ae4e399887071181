/** Honest steps only ever produce values that survive their encodings. */
module Wellformedness {
  import opened Errors
  import opened Serialization
  import opened Primitives
  import opened Keypair
  import opened Transcript
  import opened SigmaMessage
  import opened KeCodecs
  import opened KeyExchanges
  import opened Messages
  import opened Opaque
  import Dh = TripleDh
  import DhKem = TripleDhKem
  import Sigma = SigmaI

  /**
   A new server setup has matching keys and a seed of hash length, and never reads the tape backwards: the key pair, the
   seed and the dummy key come from parts of the tape that follow each other.
   */
  lemma NewSetupWellFormed(cs: Suite, tape: Tape, pos: nat)
    requires cs.group.LawfulKeys()
    ensures NewSetup(cs, tape, pos).0.WellFormed(cs) && pos <= NewSetup(cs, tape, pos).1
    ensures var (sk, next) := cs.group.randomSk(tape, pos);
            var (dummySk, end) := cs.group.randomSk(tape, next + cs.oprfHash.nh);
            var (setup, stop) := NewSetup(cs, tape, pos);
            && setup.keypair.sk == sk && setup.oprfSeed == Fill(tape, next, cs.oprfHash.nh)
            && setup.dummyPk == cs.group.publicKey(dummySk) && pos <= next && next + cs.oprfHash.nh <= end == stop
  {
    var (keypair, next) := RandomKeyPair(cs.group, tape, pos);
    assert cs.group.validSk(keypair.sk) && pos <= next;
    assert cs.group.validSk(RandomKeyPair(cs.group, tape, next + cs.oprfHash.nh).0.sk);
  }

  lemma DhBuilt(h: HashFn, b: Dh.Ke2Builder, secrets: seq<Bytes>)
    requires h.Lawful()
    ensures Dh.FinishBuilder(h, b, secrets).Ok?
    ensures var (state, message) := Dh.FinishBuilder(h, b, secrets).value;
            && |state.sessionKey| == |state.expectedMac| == |message.mac| == h.nh
            && message.serverNonce == b.serverNonce && message.serverEPk == b.serverEPk
  {
    DeriveKeysOk(h, secrets, b.transcript);
  }

  /** The verification state of a signature over a well-formed view is well-formed. */
  lemma SignedState(h: HashFn, sig: SigScheme, group: Group, e: Group, s: Shape, sk: PrivateKey, message: Message,
                    random: Bytes)
    requires sig.Lawful(group) && group.validSk(sk) && message.cache.WellFormed(s, h.nh)
    ensures var (signature, state) := Sigma.SignSpec(sig, sk, message, random);
            sig.validSig(signature) && VerifyStateWellFormed(sig, s, h.nh, state)
  {
  }

  lemma SigmaCacheWellFormed(h: HashFn, e: Group, s: Shape, view: Dh.View, nonce: Bytes, pk: PublicKey, mac: Bytes)
    requires e.LawfulEncodings() && s.nepk == e.npk && view.WellFormed(s, e)
    requires |nonce| == NONCE_LEN && e.validPk(pk) && |mac| == h.nh
    ensures Sigma.CacheOf(e, view, nonce, pk, mac).WellFormed(s, h.nh)
  {
  }

  /** The server's second message and state are well-formed. */
  lemma DhRun(cs: Suite, tape: Tape, pos: nat, inputs: Inputs, clientSPk: PublicKey, serverSSk: PrivateKey)
    requires cs.kx.TripleDh? && cs.kx.keHash.Lawful() && cs.group.LawfulKeys() && FirstTyped(cs.kx, inputs.ke1)
    ensures match RunKe2(cs, tape, pos, inputs, clientSPk, serverSSk)
            case Ok((state, message, _)) => ServerStateWellFormed(cs, state) && SecondWellFormed(cs, message)
            case Err(error) => error == Panic
  {
    EphemeralOk(cs.group, tape, pos);
    var built := Dh.Ke2BuilderSpec(cs.group, tape, pos, inputs.View(), clientSPk);
    if built.Ok? {
      var b := built.value.0;
      DhBuilt(cs.kx.keHash, b, [b.sharedSecret1, cs.group.dh(serverSSk, b.clientEPk), b.sharedSecret3]);
    }
  }

  lemma KemRun(cs: Suite, tape: Tape, pos: nat, inputs: Inputs, clientSPk: PublicKey, serverSSk: PrivateKey)
    requires cs.kx.TripleDhKem? && cs.kx.keHash.Lawful() && cs.group.LawfulKeys() && cs.kx.kem.Lawful()
    requires FirstTyped(cs.kx, inputs.ke1) && |inputs.ke1.kem.kemEk| == cs.kx.kem.nek
    ensures match RunKe2(cs, tape, pos, inputs, clientSPk, serverSSk)
            case Ok((state, message, _)) => ServerStateWellFormed(cs, state) && SecondWellFormed(cs, message)
            case Err(error) => error == Panic || error == SerializationError
  {
    EphemeralOk(cs.group, tape, pos);
    var built := DhKem.Ke2BuilderSpec(cs.group, cs.kx.kem, tape, pos, inputs.View(), inputs.ke1.kem.kemEk, clientSPk);
    if built.Ok? {
      var b := built.value.0;
      DhBuilt(cs.kx.keHash, b.base, DhKem.ServerSecrets(b, cs.group.dh(serverSSk, b.base.clientEPk)));
    }
  }

  lemma SigmaRun(cs: Suite, tape: Tape, pos: nat, inputs: Inputs, clientSPk: PublicKey, serverSSk: PrivateKey)
    requires cs.kx.SigmaI? && cs.kx.keHash.Lawful() && cs.kx.ephGroup.Lawful() && cs.kx.sig.Lawful(cs.group)
    requires FirstTyped(cs.kx, inputs.ke1) && inputs.View().WellFormed(ShapeOf(cs), cs.kx.ephGroup)
    requires cs.group.validPk(clientSPk) && cs.group.validSk(serverSSk)
    ensures match RunKe2(cs, tape, pos, inputs, clientSPk, serverSSk)
            case Ok((state, message, _)) => ServerStateWellFormed(cs, state) && SecondWellFormed(cs, message)
            case Err(error) => error == Panic
  {
    var h, e, sig := cs.kx.keHash, cs.kx.ephGroup, cs.kx.sig;
    EphemeralOk(e, tape, pos);
    if Ephemeral(e, tape, pos).Ok? {
      var (kp, nonce, next) := Ephemeral(e, tape, pos).value;
      Sigma.BuilderOk(h, e, inputs.View(), kp, nonce, clientSPk);
      var b := Sigma.BuilderFrom(h, e, inputs.View(), kp, nonce, clientSPk).value;
      Sigma.SessionKeysOk(h, Encode(inputs.View().Parts(e, nonce, kp.pk), []), e.dh(kp.sk, inputs.View().ke1.clientEPk),
                          inputs.identifiers);
      SigmaCacheWellFormed(h, e, ShapeOf(cs), inputs.View(), nonce, kp.pk, b.message.cache.serverMac);
      SignedState(h, sig, cs.group, e, ShapeOf(cs), serverSSk, b.message, Fill(tape, next, sig.nrand));
    }
  }

  /** Everything a run of the server's side needs to be well-formed. */
  ghost predicate RunInputs(cs: Suite, inputs: Inputs, clientSPk: PublicKey, serverSSk: PrivateKey) {
    && FirstWellFormed(cs, inputs.ke1)
    && inputs.View().WellFormed(ShapeOf(cs), cs.EphGroup())
    && cs.group.validPk(clientSPk) && cs.group.validSk(serverSSk)
  }

  lemma RunWellFormed(cs: Suite, tape: Tape, pos: nat, inputs: Inputs, clientSPk: PublicKey, serverSSk: PrivateKey)
    requires ExchangeLawful(cs) && RunInputs(cs, inputs, clientSPk, serverSSk)
    ensures match RunKe2(cs, tape, pos, inputs, clientSPk, serverSSk)
            case Ok((state, message, _)) => ServerStateWellFormed(cs, state) && SecondWellFormed(cs, message)
            case Err(error) => error == Panic || error == SerializationError
  {
    match cs.kx
    case TripleDh(_) => DhRun(cs, tape, pos, inputs, clientSPk, serverSSk);
    case TripleDhKem(_, _) => KemRun(cs, tape, pos, inputs, clientSPk, serverSSk);
    case SigmaI(_, _, _) => SigmaRun(cs, tape, pos, inputs, clientSPk, serverSSk);
  }

  lemma SigmaAnswer(h: HashFn, sig: SigScheme, group: Group, e: Group, view: Dh.View, state: Ke1State,
                    ke2: Sigma.Ke2Message, serverSPk: PublicKey, clientSSk: PrivateKey, random: Bytes)
    requires h.Lawful() && sig.Lawful(group) && group.validSk(clientSSk)
    ensures var r := Sigma.GenerateKe3Spec(h, sig, e, view, state, ke2, serverSPk, clientSSk, random);
            r.Ok? ==> sig.validSig(r.value.1.signature) && |r.value.1.mac| == h.nh && |r.value.0| == h.nh
  {
    Sigma.SessionKeysOk(h, Encode(view.Parts(e, ke2.serverNonce, ke2.serverEPk), []),
                        e.dh(state.clientESk, ke2.serverEPk), view.identifiers);
  }

  lemma DhAnswer(h: HashFn, g: Group, view: Dh.View, state: Ke1State, ke2: Dh.Ke2Message, serverSPk: PublicKey,
                 clientSSk: PrivateKey)
    requires h.Lawful()
    ensures var r := Dh.GenerateKe3Spec(h, g, view, state, ke2, serverSPk, clientSSk);
            r.Ok? ==> |r.value.1.mac| == h.nh && |r.value.0| == h.nh
  {
  }

  lemma KemAnswer(h: HashFn, g: Group, kem: Kem, view: Dh.View, ek: Bytes, state: DhKem.KemKe1State,
                  ke2: DhKem.KemKe2Message, serverSPk: PublicKey, clientSSk: PrivateKey)
    requires h.Lawful()
    ensures var r := DhKem.GenerateKe3Spec(h, g, kem, view, ek, state, ke2, serverSPk, clientSSk);
            r.Ok? ==> |r.value.1.mac| == h.nh && |r.value.0| == h.nh
  {
  }

  /** The client's last message is well-formed, and its session key is as long as the hash. */
  lemma Ke3WellFormed(cs: Suite, tape: Tape, pos: nat, inputs: Inputs, state: ClientState, ke2: SecondMessage,
                      serverSPk: PublicKey, clientSSk: PrivateKey)
    requires cs.kx.keHash.Lawful() && (cs.kx.SigmaI? ==> cs.kx.sig.Lawful(cs.group))
    requires FirstTyped(cs.kx, inputs.ke1) && ClientTyped(cs.kx, state) && SecondTyped(cs.kx, ke2)
    requires cs.group.validSk(clientSSk)
    ensures var r := GenerateKe3(cs, tape, pos, inputs, state, ke2, serverSPk, clientSSk);
            r.Ok? ==> ThirdWellFormed(cs, r.value.1) && |r.value.0| == cs.kx.keHash.nh
  {
    var r := GenerateKe3(cs, tape, pos, inputs, state, ke2, serverSPk, clientSSk);
    match cs.kx
    case TripleDh(h) =>
      DhAnswer(h, cs.group, inputs.View(), state.dh, ke2.dh, serverSPk, clientSSk);
      assert r.Ok? ==> r.value.1.DhThird? && |r.value.1.dh.mac| == h.nh && |r.value.0| == h.nh;
    case TripleDhKem(h, kem) =>
      KemAnswer(h, cs.group, kem, inputs.View(), inputs.ke1.kem.kemEk, state.kem, ke2.kem, serverSPk, clientSSk);
      assert r.Ok? ==> r.value.1.DhThird? && |r.value.1.dh.mac| == h.nh && |r.value.0| == h.nh;
    case SigmaI(h, sig, e) =>
      SigmaAnswer(h, sig, cs.group, e, inputs.View(), state.dh, ke2.sigma, serverSPk, clientSSk,
                  Fill(tape, pos, sig.nrand));
  }

  /** The client's first message and state are well-formed. */
  lemma StartWellFormed(cs: Suite, tape: Tape, pos: nat, password: Bytes)
    requires cs.oprf.LawfulAction() && cs.EphGroup().LawfulKeys() && (cs.kx.TripleDhKem? ==> cs.kx.kem.Lawful())
    ensures var r := ClientLoginStart(cs, tape, pos, password);
            r.Ok? ==> r.value.0.WellFormed(cs) && r.value.1.WellFormed(cs)
  {
    var r := ClientLoginStart(cs, tape, pos, password);
    if r.Ok? {
      Ke1KeysMatch(cs, tape, cs.oprf.sampleScalar(tape, pos).1);
    }
  }

  /** The server evaluates to a valid element, and only key derivation can fail. */
  lemma EvaluationValid(o: Oprf, material: Bytes, blinded: Elem)
    requires o.Lawful() && o.validElem(blinded)
    ensures match Evaluate(o, material, blinded)
            case Ok(e) => o.validElem(e)
            case Err(error) => error == LibraryError(OprfError(DeriveKeyPair))
  {
  }
}
