/** The digital locker of examples/digital_locker.rs. */
module Locker {
  import opened Errors
  import opened Serialization
  import opened Primitives
  import opened Identifiers
  import opened KeyExchanges
  import opened Messages
  import opened Opaque
  import opened EndToEnd
  import opened Wellformedness
  import opened Wire
  import Env = Envelope

  const NO_IDS := Ids(None, None)
  const NO_PARAMETERS := LoginParameters(None, NO_IDS)

  /** Authenticated encryption with a 32-byte key and a 12-byte nonce. */
  datatype Aead = Aead(seal: (Bytes, Bytes, Bytes) -> Bytes, open: (Bytes, Bytes, Bytes) -> Option<Bytes>) {
    ghost predicate Lawful() {
      forall k, n, m {:trigger seal(k, n, m)} :: open(k, n, seal(k, n, m)) == Some(m)
    }
  }

  /** The ciphertext with its nonce in front; a key that is too short panics. */
  function Encrypt(a: Aead, key: Bytes, nonce: Bytes, plaintext: Bytes): Result<Bytes> {
    var _ :- Need(|key| >= 32, Panic);
    Ok(nonce + a.seal(key[..32], nonce, plaintext))
  }

  function Decrypt(a: Aead, key: Bytes, ciphertext: Bytes): Result<Bytes> {
    var _ :- Need(|key| >= 32 && |ciphertext| >= 12, Panic);
    OkOr(a.open(key[..32], ciphertext[..12], ciphertext[12..]), Panic)
  }

  /** A ciphertext is the nonce and what the cipher seals under the front of the key. */
  lemma EncryptIs(a: Aead, key: Bytes, nonce: Bytes, plaintext: Bytes, c: Bytes)
    ensures Encrypt(a, key, nonce, plaintext) == Ok(c)
       <==> |key| >= 32 && c == nonce + a.seal(key[..32], nonce, plaintext)
  {
  }

  lemma DecryptAfterEncrypt(a: Aead, key: Bytes, nonce: Bytes, plaintext: Bytes)
    requires a.Lawful() && |nonce| == 12 && |key| >= 32
    ensures Encrypt(a, key, nonce, plaintext).Ok?
    ensures Decrypt(a, key, Encrypt(a, key, nonce, plaintext).value) == Ok(plaintext)
  {
    TakeCat(nonce, a.seal(key[..32], nonce, plaintext), "");
  }

  datatype Locker = Locker(contents: Bytes, passwordFile: Bytes)

  /** What one command of the menu supplies: the user's input and the random bytes it will draw. */
  datatype Command =
    | Register(password: Bytes, message: Bytes, clientTape: Tape, clientPos: nat, nonce: Bytes)
    | Open(index: nat, password: Bytes, clientTape: Tape, clientPos: nat, serverTape: Tape, serverPos: nat,
           nonce: Bytes)

  datatype Output = Registered | NotFound | IncorrectPassword | Contents(message: Bytes)

  /** The server's fixed configuration; `word` is the number of bytes of a machine word. */
  datatype Server = Server(cs: Suite, setup: ServerSetup, aead: Aead, word: nat) {
    ghost predicate Valid() {
      && cs.Lawful() && cs.oprfHash.Lawful() && cs.kx.keHash.Lawful() && setup.WellFormed(cs)
      && cs.oprfHash.nh >= 32 && cs.kx.keHash.nh >= 32
      && aead.Lawful()
    }

    /** The credential identifier of a locker: its number in big-endian order. */
    function CredentialId(lockerId: nat): Bytes {
      BeDigits(lockerId, word)
    }
  }

  /** Lockers whose numbers fit a machine word have different credential identifiers, of word length. */
  lemma CredentialIdUnique(s: Server, i: nat, j: nat)
    requires i < Pow256(s.word) && j < Pow256(s.word)
    ensures |s.CredentialId(i)| == s.word && BeValue(s.CredentialId(i)) == i
    ensures s.CredentialId(i) == s.CredentialId(j) ==> i == j
  {
    ValueOfDigits(i, s.word);
    ValueOfDigits(j, s.word);
  }

  // ---------------------------------------------------------------------
  // Registering and opening
  // ---------------------------------------------------------------------

  /** `register_locker`; every failure is an unwrapped error. */
  function RegisterLocker(s: Server, lockerId: nat, c: Command): Result<Locker>
    requires c.Register? && s.cs.oprfHash.Lawful()
  {
    var cs := s.cs;
    var (request, state, next) :- ClientRegistrationStart(cs, c.clientTape, c.clientPos, c.password);
    var received :- DeserializeRegistrationRequest(cs, SerializeRegistrationRequest(cs, request));
    var response :- ServerRegistrationStart(cs, s.setup, received, s.CredentialId(lockerId));
    var answer :- DeserializeRegistrationResponse(cs, SerializeRegistrationResponse(cs, response));
    var result :- ClientRegistrationFinish(cs, state, c.clientTape, next, c.password, answer, NO_IDS, None);
    var contents :- Encrypt(s.aead, result.exportKey, c.nonce, c.message);
    var file :- DeserializeUpload(cs, SerializeUpload(cs, result.upload));
    Ok(Locker(contents, SerializeUpload(cs, file)))
  }

  /** The rest of `open_locker` once the server has answered. */
  function FinishOpening(s: Server, locker: Locker, c: Command, state: ClientLogin, next: nat, start: ServerStart)
    : (r: Result<Output>)
    requires c.Open? && s.cs.oprfHash.Lawful() && s.cs.kx.keHash.Lawful()
    requires FirstTyped(s.cs.kx, state.request.ke1) && ClientTyped(s.cs.kx, state.ke1State)
    requires SecondTyped(s.cs.kx, start.response.ke2) && ServerTyped(s.cs.kx, start.state)
    ensures r != Ok(NotFound)
  {
    var cs := s.cs;
    var (response, _) :- TakeCredentialResponse(cs, SerializeCredentialResponse(cs, start.response));
    var finish := ClientLoginFinish(cs, state, c.clientTape, next, c.password, response, NO_PARAMETERS, None);
    if finish.Err? then Ok(IncorrectPassword)
    else
      var (ke3, _) :- TakeThird(cs, SerializeThird(cs, finish.value.ke3));
      var serverKey :- ServerLoginFinish(cs, start.state, ke3, NO_PARAMETERS);
      ShowContents(s.aead, locker.contents, c.nonce, serverKey, finish.value.sessionKey, finish.value.exportKey)
  }

  /**
   What is shown was sealed under the server's session key, opened under the client's, and then opened under the export
   key: exactly when both openings succeed, and with their result.
   */
  lemma ShownIs(a: Aead, contents: Bytes, nonce: Bytes, serverKey: Bytes, sessionKey: Bytes, exportKey: Bytes,
                message: Bytes)
    requires |nonce| == 12 && |serverKey| >= 32 && |sessionKey| >= 32 && |exportKey| >= 32
    ensures ShowContents(a, contents, nonce, serverKey, sessionKey, exportKey) == Ok(Contents(message))
       <==> var inner := a.open(sessionKey[..32], nonce, a.seal(serverKey[..32], nonce, contents));
            && inner.Some? && |inner.value| >= 12
            && a.open(exportKey[..32], inner.value[..12], inner.value[12..]) == Some(message)
  {
    TakeCat(nonce, a.seal(serverKey[..32], nonce, contents), "");
  }

  /** The contents travel under the session key and are then opened with the export key. */
  function ShowContents(a: Aead, contents: Bytes, nonce: Bytes, serverKey: Bytes, sessionKey: Bytes, exportKey: Bytes)
    : (r: Result<Output>)
    ensures r != Ok(NotFound)
  {
    var sent :- Encrypt(a, serverKey, nonce, contents);
    var inner :- Decrypt(a, sessionKey, sent);
    var message :- Decrypt(a, exportKey, inner);
    Ok(Contents(message))
  }

  /** `open_locker`: only a failure that the client detects is reported, others are unwrapped. */
  function OpenLocker(s: Server, lockerId: nat, locker: Locker, c: Command): (r: Result<Output>)
    requires c.Open? && s.cs.oprfHash.Lawful() && s.cs.kx.keHash.Lawful()
    ensures r != Ok(NotFound)
  {
    var cs := s.cs;
    var (request, state, next) :- ClientLoginStart(cs, c.clientTape, c.clientPos, c.password);
    var file :- DeserializeUpload(cs, locker.passwordFile);
    var (received, _) :- TakeCredentialRequest(cs, SerializeCredentialRequest(cs, request));
    var start :- ServerLoginStart(cs, c.serverTape, c.serverPos, s.setup, Some(file), received,
                                  s.CredentialId(lockerId), NO_PARAMETERS);
    FinishOpening(s, locker, c, state, next, start)
  }

  // ---------------------------------------------------------------------
  // One locker
  // ---------------------------------------------------------------------

  /** The registration behind a command. */
  function EnrolmentOf(s: Server, lockerId: nat, c: Command): Enrolment
    requires c.Register?
  {
    Enrolment(c.password, s.CredentialId(lockerId), NO_IDS, None, c.clientTape, c.clientPos, c.clientTape,
              s.cs.oprf.sampleScalar(c.clientTape, c.clientPos).1)
  }

  /** The registration behind a command, over the messages themselves. */
  function RegistrationOf(s: Server, lockerId: nat, c: Command): Result<RegistrationResult>
    requires c.Register? && s.cs.oprfHash.Lawful()
  {
    EndToEnd.Register(s.cs, s.setup, EnrolmentOf(s, lockerId, c))
  }

  /** The record and the sealed message that a registration leaves. */
  function Stored(s: Server, lockerId: nat, c: Command): Result<(RegistrationUpload, Bytes)>
    requires c.Register? && s.cs.oprfHash.Lawful()
  {
    var result :- RegistrationOf(s, lockerId, c);
    var contents :- Encrypt(s.aead, result.exportKey, c.nonce, c.message);
    Ok((result.upload, contents))
  }

  /** The locker holds this registration's record and the message under its export key. */
  ghost predicate Stores(s: Server, c: Command, result: RegistrationResult, locker: Locker)
    requires c.Register?
  {
    && result.upload.WellFormed(s.cs) && result.upload.envelope.mode == Env.Internal
    && |result.exportKey| == s.cs.oprfHash.nh
    && locker.passwordFile == SerializeUpload(s.cs, result.upload)
    && Encrypt(s.aead, result.exportKey, c.nonce, c.message) == Ok(locker.contents)
  }

  /** This locker was registered by this command under this identifier. */
  ghost predicate RegisteredBy(s: Server, lockerId: nat, c: Command, locker: Locker)
    requires s.cs.oprfHash.Lawful()
  {
    c.Register? && RegistrationOf(s, lockerId, c).Ok? && Stores(s, c, RegistrationOf(s, lockerId, c).value, locker)
  }

  /** A registration whose messages parse back. */
  lemma RegisterWhenParsed(s: Server, lockerId: nat, c: Command)
    requires c.Register? && s.cs.oprfHash.Lawful()
    requires var first := ClientRegistrationStart(s.cs, c.clientTape, c.clientPos, c.password);
             first.Ok? ==>
               && var request := first.value.0;
               && DeserializeRegistrationRequest(s.cs, SerializeRegistrationRequest(s.cs, request)) == Ok(request)
               && var response := ServerRegistrationStart(s.cs, s.setup, request, s.CredentialId(lockerId));
                  response.Ok? ==>
                    DeserializeRegistrationResponse(s.cs, SerializeRegistrationResponse(s.cs, response.value))
                    == response
    requires var enrolled := RegistrationOf(s, lockerId, c);
             enrolled.Ok? ==>
               var upload := enrolled.value.upload;
               DeserializeUpload(s.cs, SerializeUpload(s.cs, upload)) == Ok(upload)
    ensures RegisterLocker(s, lockerId, c)
         == match RegistrationOf(s, lockerId, c)
            case Err(error) => Err(error)
            case Ok(result) =>
              match Encrypt(s.aead, result.exportKey, c.nonce, c.message)
              case Err(error) => Err(error)
              case Ok(contents) => Ok(Locker(contents, SerializeUpload(s.cs, result.upload)))
  {
  }

  /** A locker is registered exactly when the registration inside succeeds, and holds its record and the message. */
  lemma RegisterLockerStores(s: Server, lockerId: nat, c: Command)
    requires s.Valid() && s.cs.oprfHash.Lawful() && c.Register?
    ensures match RegistrationOf(s, lockerId, c)
            case Err(error) => RegisterLocker(s, lockerId, c) == Err(error)
            case Ok(result) =>
              RegisterLocker(s, lockerId, c).Ok? && Stores(s, c, result, RegisterLocker(s, lockerId, c).value)
  {
    LoginLaws(s.cs);
    if ClientRegistrationStart(s.cs, c.clientTape, c.clientPos, c.password).Ok? {
      RegistrationWire(s.cs, s.setup, EnrolmentOf(s, lockerId, c));
    }
    if RegistrationOf(s, lockerId, c).Ok? {
      RegisteredUpload(s.cs, s.setup, EnrolmentOf(s, lockerId, c));
      UploadSurvives(s.cs, RegistrationOf(s, lockerId, c).value.upload);
    }
    RegisterWhenParsed(s, lockerId, c);
  }

  /** The login behind an opening. */
  function SessionOf(c: Command, next: nat): Session
    requires c.Open?
  {
    Session(c.clientTape, c.clientPos, c.serverTape, c.serverPos, c.clientTape, next, None,
            NO_PARAMETERS, NO_PARAMETERS, NO_PARAMETERS)
  }

  /** The first steps of both sides over the messages themselves. */
  function Started(s: Server, lockerId: nat, upload: RegistrationUpload, c: Command)
    : (r: Result<(ClientLogin, nat, ServerStart)>)
    requires c.Open? && s.cs.oprfHash.Lawful() && s.cs.kx.keHash.Lawful()
    ensures r.Ok? ==>
              && FirstTyped(s.cs.kx, r.value.0.request.ke1) && ClientTyped(s.cs.kx, r.value.0.ke1State)
              && SecondTyped(s.cs.kx, r.value.2.response.ke2) && ServerTyped(s.cs.kx, r.value.2.state)
  {
    var (request, state, next) :- ClientLoginStart(s.cs, c.clientTape, c.clientPos, c.password);
    var start :- ServerLoginStart(s.cs, c.serverTape, c.serverPos, s.setup, Some(upload), request,
                                  s.CredentialId(lockerId), NO_PARAMETERS);
    Ok((state, next, start))
  }

  /** The client's verdict on the server's answer. */
  function Verdict(s: Server, c: Command, state: ClientLogin, next: nat, start: ServerStart): (r: Result<LoginResult>)
    requires c.Open? && s.cs.oprfHash.Lawful() && s.cs.kx.keHash.Lawful()
    requires FirstTyped(s.cs.kx, state.request.ke1) && ClientTyped(s.cs.kx, state.ke1State)
    requires SecondTyped(s.cs.kx, start.response.ke2)
    ensures r.Ok? ==> ThirdTyped(s.cs.kx, r.value.ke3)
  {
    ClientLoginFinish(s.cs, state, c.clientTape, next, c.password, start.response, NO_PARAMETERS, None)
  }

  /** What happens once the client has accepted. */
  function Unlock(s: Server, contents: Bytes, c: Command, start: ServerStart, result: LoginResult): (r: Result<Output>)
    requires c.Open? && ServerTyped(s.cs.kx, start.state) && ThirdTyped(s.cs.kx, result.ke3)
    ensures r.Ok? ==> r.value.Contents?
  {
    var serverKey :- ServerLoginFinish(s.cs, start.state, result.ke3, NO_PARAMETERS);
    ShowContents(s.aead, contents, c.nonce, serverKey, result.sessionKey, result.exportKey)
  }

  /** The second half of an opening whose messages parse back. */
  lemma FinishWhenParsed(s: Server, locker: Locker, c: Command, state: ClientLogin, next: nat, start: ServerStart)
    requires c.Open? && s.cs.oprfHash.Lawful() && s.cs.kx.keHash.Lawful()
    requires FirstTyped(s.cs.kx, state.request.ke1) && ClientTyped(s.cs.kx, state.ke1State)
    requires SecondTyped(s.cs.kx, start.response.ke2) && ServerTyped(s.cs.kx, start.state)
    requires TakeCredentialResponse(s.cs, SerializeCredentialResponse(s.cs, start.response)) == Ok((start.response, []))
    requires var finish := Verdict(s, c, state, next, start);
             finish.Ok? ==> TakeThird(s.cs, SerializeThird(s.cs, finish.value.ke3)) == Ok((finish.value.ke3, []))
    ensures FinishOpening(s, locker, c, state, next, start)
         == match Verdict(s, c, state, next, start)
            case Err(_) => Ok(IncorrectPassword)
            case Ok(result) => Unlock(s, locker.contents, c, start, result)
  {
  }

  /** Every message of an opening survives its encoding, so the second half is the verdict and what follows it. */
  lemma FinishOpeningIs(s: Server, locker: Locker, c: Command, state: ClientLogin, next: nat, start: ServerStart)
    requires s.Valid() && c.Open? && s.cs.oprfHash.Lawful() && s.cs.kx.keHash.Lawful()
    requires FirstTyped(s.cs.kx, state.request.ke1) && ClientTyped(s.cs.kx, state.ke1State)
    requires start.response.WellFormed(s.cs) && ServerStateWellFormed(s.cs, start.state)
    ensures match Verdict(s, c, state, next, start)
            case Err(_) => FinishOpening(s, locker, c, state, next, start) == Ok(IncorrectPassword)
            case Ok(result) =>
              && |result.sessionKey| == s.cs.kx.keHash.nh
              && FinishOpening(s, locker, c, state, next, start) == Unlock(s, locker.contents, c, start, result)
  {
    var cs := s.cs;
    LoginLaws(cs);
    AnswerSurvives(cs, start.response, start.state);
    var finish := Verdict(s, c, state, next, start);
    if finish.Ok? {
      FinishedWellFormed(cs, state, c.clientTape, next, c.password, start.response, NO_PARAMETERS, None);
      FinalizationSurvives(cs, finish.value.ke3);
    }
    FinishWhenParsed(s, locker, c, state, next, start);
  }

  /** Both layers of encryption come off when both sides hold one session key and the client the export key. */
  lemma LayersComeOff(a: Aead, key: Bytes, exportKey: Bytes, nonce: Bytes, nonce': Bytes, message: Bytes,
                      contents: Bytes)
    requires a.Lawful() && |nonce| == |nonce'| == 12 && |key| >= 32 && |exportKey| >= 32
    requires Encrypt(a, exportKey, nonce, message) == Ok(contents)
    ensures ShowContents(a, contents, nonce', key, key, exportKey) == Ok(Contents(message))
  {
    DecryptAfterEncrypt(a, key, nonce', contents);
    DecryptAfterEncrypt(a, exportKey, nonce, message);
  }

  lemma OpenWhenParsed(s: Server, lockerId: nat, locker: Locker, upload: RegistrationUpload, c: Command)
    requires c.Open? && s.cs.oprfHash.Lawful() && s.cs.kx.keHash.Lawful()
    requires DeserializeUpload(s.cs, locker.passwordFile) == Ok(upload)
    requires var first := ClientLoginStart(s.cs, c.clientTape, c.clientPos, c.password);
             first.Ok? ==>
               TakeCredentialRequest(s.cs, SerializeCredentialRequest(s.cs, first.value.0)) == Ok((first.value.0, []))
    ensures OpenLocker(s, lockerId, locker, c)
         == match Started(s, lockerId, upload, c)
            case Err(error) => Err(error)
            case Ok((state, next, start)) => FinishOpening(s, locker, c, state, next, start)
  {
  }

  /** The first half of an opening: the stored record and the request are parsed back. */
  lemma OpeningStarts(s: Server, lockerId: nat, locker: Locker, upload: RegistrationUpload, c: Command)
    requires s.Valid() && s.cs.oprfHash.Lawful() && s.cs.kx.keHash.Lawful() && c.Open?
    requires upload.WellFormed(s.cs) && upload.envelope.mode == Env.Internal
    requires locker.passwordFile == SerializeUpload(s.cs, upload)
    ensures match Started(s, lockerId, upload, c)
            case Err(error) => OpenLocker(s, lockerId, locker, c) == Err(error)
            case Ok((state, next, start)) =>
              OpenLocker(s, lockerId, locker, c) == FinishOpening(s, locker, c, state, next, start)
  {
    var cs := s.cs;
    LoginLaws(cs);
    UploadSurvives(cs, upload);
    StartWellFormed(cs, c.clientTape, c.clientPos, c.password);
    var first := ClientLoginStart(cs, c.clientTape, c.clientPos, c.password);
    if first.Ok? {
      RequestSurvives(cs, first.value.0, first.value.1);
    }
    OpenWhenParsed(s, lockerId, locker, upload, c);
  }

  lemma AnswerWellFormed(s: Server, lockerId: nat, upload: RegistrationUpload, c: Command)
    requires s.Valid() && s.cs.oprfHash.Lawful() && s.cs.kx.keHash.Lawful() && c.Open?
    requires upload.WellFormed(s.cs) && Started(s, lockerId, upload, c).Ok?
    ensures var start := Started(s, lockerId, upload, c).value.2;
            start.response.WellFormed(s.cs) && ServerStateWellFormed(s.cs, start.state)
  {
    LoginLaws(s.cs);
    StartWellFormed(s.cs, c.clientTape, c.clientPos, c.password);
    var request := ClientLoginStart(s.cs, c.clientTape, c.clientPos, c.password).value.0;
    StartedWellFormed(s.cs, c.serverTape, c.serverPos, s.setup, Some(upload), request, s.CredentialId(lockerId),
                      NO_PARAMETERS);
  }

  /** Under any password: the client detects a failure. */
  ghost predicate Rejected(s: Server, lockerId: nat, upload: RegistrationUpload, c: Command)
    requires s.cs.oprfHash.Lawful() && s.cs.kx.keHash.Lawful() && c.Open?
  {
    var started := Started(s, lockerId, upload, c);
    started.Ok? && Verdict(s, c, started.value.0, started.value.1, started.value.2).Err?
  }

  /** The client accepts, and what follows has this outcome. */
  ghost predicate AcceptedWith(s: Server, lockerId: nat, upload: RegistrationUpload, contents: Bytes, c: Command,
                               r: Result<Output>)
    requires s.cs.oprfHash.Lawful() && s.cs.kx.keHash.Lawful() && c.Open?
  {
    var started := Started(s, lockerId, upload, c);
    && started.Ok?
    && var verdict := Verdict(s, c, started.value.0, started.value.1, started.value.2);
       && verdict.Ok? && |verdict.value.sessionKey| == s.cs.kx.keHash.nh
       && Unlock(s, contents, c, started.value.2, verdict.value) == r
  }

  /** An opening, under any password, without its encodings: the first steps, the client's verdict, and what follows. */
  lemma OpeningIs(s: Server, lockerId: nat, locker: Locker, upload: RegistrationUpload, c: Command)
    requires s.Valid() && s.cs.oprfHash.Lawful() && s.cs.kx.keHash.Lawful() && c.Open?
    requires upload.WellFormed(s.cs) && upload.envelope.mode == Env.Internal
    requires locker.passwordFile == SerializeUpload(s.cs, upload)
    ensures var r := OpenLocker(s, lockerId, locker, c);
            match Started(s, lockerId, upload, c)
            case Err(error) => r == Err(error)
            case Ok(_) =>
              if Rejected(s, lockerId, upload, c) then r == Ok(IncorrectPassword)
              else AcceptedWith(s, lockerId, upload, locker.contents, c, r)
  {
    OpeningStarts(s, lockerId, locker, upload, c);
    if Started(s, lockerId, upload, c).Ok? {
      var (state, next, start) := Started(s, lockerId, upload, c).value;
      AnswerWellFormed(s, lockerId, upload, c);
      FinishOpeningIs(s, locker, c, state, next, start);
    }
  }

  /** Both sides' draws of an opening derive an ephemeral key. */
  predicate OpeningDraws(s: Server, c: Command)
    requires c.Open?
  {
    ClientDraws(s.cs, SessionOf(c, 0)) && ServerDraws(s.cs, SessionOf(c, 0))
  }

  /** The first steps fail exactly for a password that has no OPRF element, or for a draw that derives no key. */
  lemma StartsWhenDrawn(s: Server, lockerId: nat, reg: Command, c: Command)
    requires s.Valid() && s.cs.oprfHash.Lawful() && s.cs.kx.keHash.Lawful()
    requires reg.Register? && RegistrationOf(s, lockerId, reg).Ok? && c.Open?
    ensures var started := Started(s, lockerId, RegistrationOf(s, lockerId, reg).value.upload, c);
            && (started.Ok? <==> s.cs.oprf.hashToGroup(c.password).Some? && OpeningDraws(s, c))
            && (started.Err? && s.cs.oprf.hashToGroup(c.password).Some? ==> started == Err(Panic))
  {
    if s.cs.oprf.hashToGroup(c.password).Some? {
      LoginStarts(s.cs, s.setup, EnrolmentOf(s, lockerId, reg), SessionOf(c, 0), c.password);
    }
  }

  /** A password that was registered has an OPRF element. */
  lemma RegisteredHashes(s: Server, lockerId: nat, reg: Command)
    requires s.cs.oprfHash.Lawful() && s.cs.oprf.Lawful()
    requires reg.Register? && RegistrationOf(s, lockerId, reg).Ok?
    ensures s.cs.oprf.hashToGroup(reg.password).Some?
  {
    var key, element, blind, prk := RegistrationFacts(s.cs, s.setup, EnrolmentOf(s, lockerId, reg));
  }

  /** Under the registered password the client accepts, with the session key of the server and its own export key. */
  lemma RightPasswordAccepted(s: Server, lockerId: nat, reg: Command, c: Command)
    requires s.Valid() && s.cs.oprfHash.Lawful() && s.cs.kx.keHash.Lawful()
    requires reg.Register? && RegistrationOf(s, lockerId, reg).Ok? && c.Open? && c.password == reg.password
    requires Started(s, lockerId, RegistrationOf(s, lockerId, reg).value.upload, c).Ok? && OpeningDraws(s, c)
    ensures var enrolled := RegistrationOf(s, lockerId, reg).value;
            var (state, next, start) := Started(s, lockerId, enrolled.upload, c).value;
            var r := Verdict(s, c, state, next, start);
            && r.Ok? && r.value.exportKey == enrolled.exportKey
            && ServerLoginFinish(s.cs, start.state, r.value.ke3, NO_PARAMETERS) == Ok(r.value.sessionKey)
  {
    var cs, e, result := s.cs, EnrolmentOf(s, lockerId, reg), RegistrationOf(s, lockerId, reg).value;
    var session := SessionOf(c, ClientLoginStart(cs, c.clientTape, c.clientPos, c.password).value.2);
    HonestLogin(cs, s.setup, e, session);
  }

  /**
   Opening a locker with the password it was registered with shows exactly the stored message, whatever random bytes
   either side draws, unless a draw derives no ephemeral key: then, and only then, it panics.
   */
  lemma OpenReturnsMessage(s: Server, lockerId: nat, reg: Command, locker: Locker, c: Command)
    requires s.Valid() && s.cs.oprfHash.Lawful() && s.cs.kx.keHash.Lawful()
    requires RegisteredBy(s, lockerId, reg, locker)
    requires c.Open? && c.password == reg.password && |c.nonce| == |reg.nonce| == 12
    ensures OpenLocker(s, lockerId, locker, c) == if OpeningDraws(s, c) then Ok(Contents(reg.message)) else Err(Panic)
  {
    LoginLaws(s.cs);
    var enrolled := RegistrationOf(s, lockerId, reg).value;
    RegisteredHashes(s, lockerId, reg);
    StartsWhenDrawn(s, lockerId, reg, c);
    OpeningIs(s, lockerId, locker, enrolled.upload, c);
    if OpeningDraws(s, c) {
      var (state, next, start) := Started(s, lockerId, enrolled.upload, c).value;
      RightPasswordAccepted(s, lockerId, reg, c);
      LayersComeOff(s.aead, Verdict(s, c, state, next, start).value.sessionKey, enrolled.exportKey, reg.nonce, c.nonce,
                    reg.message, locker.contents);
    }
  }

  // ---------------------------------------------------------------------
  // The vault
  // ---------------------------------------------------------------------

  /** The registering commands of a history, in order. */
  function Registrations(commands: seq<Command>): (r: seq<Command>)
    ensures forall i :: 0 <= i < |r| ==> r[i].Register?
  {
    if commands == [] then []
    else
      var last := commands[|commands| - 1];
      Registrations(commands[..|commands| - 1]) + if last.Register? then [last] else []
  }

  lemma RegistrationsStep(commands: seq<Command>, i: nat)
    requires i < |commands|
    ensures Registrations(commands[..i + 1])
         == Registrations(commands[..i]) + if commands[i].Register? then [commands[i]] else []
  {
    assert commands[..i + 1][..i] == commands[..i];
  }

  /** The client accepts, and a later step fails. */
  ghost predicate FailsLate(s: Server, lockerId: nat, upload: RegistrationUpload, contents: Bytes, c: Command)
    requires s.cs.oprfHash.Lawful() && s.cs.kx.keHash.Lawful() && c.Open?
  {
    exists error :: AcceptedWith(s, lockerId, upload, contents, c, Err(error))
  }

  /** What an opening of the locker with this record and contents must show. */
  ghost predicate Shows(s: Server, lockerId: nat, reg: Command, upload: RegistrationUpload, contents: Bytes, c: Command,
                        output: Output)
    requires s.cs.oprfHash.Lawful() && s.cs.kx.keHash.Lawful() && reg.Register? && c.Open?
  {
    && (output == IncorrectPassword <==> Rejected(s, lockerId, upload, c))
    && (output != IncorrectPassword ==> AcceptedWith(s, lockerId, upload, contents, c, Ok(output)))
    && (c.password == reg.password ==> output == Contents(reg.message))
  }

  /**
   When an opening ends the process: a draw derives no ephemeral key; or, only under another password than the
   registered one, the password has no OPRF element, or the client accepts and a later step fails.
   */
  ghost predicate OpeningPanics(s: Server, lockerId: nat, reg: Command, upload: RegistrationUpload, contents: Bytes,
                                c: Command)
    requires s.cs.oprfHash.Lawful() && s.cs.kx.keHash.Lawful() && reg.Register? && c.Open?
  {
    || !OpeningDraws(s, c)
    || (&& c.password != reg.password
        && (s.cs.oprf.hashToGroup(c.password).None? || FailsLate(s, lockerId, upload, contents, c)))
  }

  /** An opening shows what it must or panics, never both. */
  lemma ShowsOrPanics(s: Server, lockerId: nat, reg: Command, upload: RegistrationUpload, contents: Bytes, c: Command,
                      r: Result<Output>)
    requires s.cs.oprfHash.Lawful() && s.cs.kx.keHash.Lawful() && reg.Register? && c.Open?
    requires Started(s, lockerId, upload, c).Ok?
        <==> s.cs.oprf.hashToGroup(c.password).Some? && OpeningDraws(s, c)
    requires if Started(s, lockerId, upload, c).Err? then r.Err?
             else if Rejected(s, lockerId, upload, c) then r == Ok(IncorrectPassword)
             else AcceptedWith(s, lockerId, upload, contents, c, r)
    requires c.password == reg.password ==>
               r == if OpeningDraws(s, c) then Ok(Contents(reg.message)) else Err(Panic)
    ensures match r
            case Ok(output) =>
              Shows(s, lockerId, reg, upload, contents, c, output)
              && !OpeningPanics(s, lockerId, reg, upload, contents, c)
            case Err(_) => OpeningPanics(s, lockerId, reg, upload, contents, c)
  {
  }

  /** What the user must see in answer to a command, from the registrations before it. */
  ghost predicate Expected(s: Server, earlier: seq<Command>, c: Command, output: Output)
    requires s.cs.oprfHash.Lawful() && s.cs.kx.keHash.Lawful()
    requires forall i :: 0 <= i < |earlier| ==> earlier[i].Register?
  {
    match c
    case Register(_, _, _, _, _) => output == Registered
    case Open(index, _, _, _, _, _, _) =>
      if index >= |earlier| then output == NotFound
      else
        && Stored(s, index, earlier[index]).Ok?
        && var (upload, contents) := Stored(s, index, earlier[index]).value;
           Shows(s, index, earlier[index], upload, contents, c, output)
  }

  /** The commands that end the process: a registration that fails, or an opening of a known locker that panics. */
  ghost predicate Panics(s: Server, earlier: seq<Command>, c: Command)
    requires s.cs.oprfHash.Lawful() && s.cs.kx.keHash.Lawful()
    requires forall i :: 0 <= i < |earlier| ==> earlier[i].Register?
  {
    match c
    case Register(_, _, _, _, _) => RegistrationOf(s, |earlier|, c).Err?
    case Open(index, _, _, _, _, _, _) =>
      && index < |earlier|
      && Stored(s, index, earlier[index]).Ok?
      && var (upload, contents) := Stored(s, index, earlier[index]).value;
         OpeningPanics(s, index, earlier[index], upload, contents, c)
  }

  /**
   Every opening of a registered locker, under any password: the user is told of an incorrect password exactly when the
   client rejects the server's answer; it panics exactly when it should; and otherwise the client accepted, and what its
   last step yields is shown, under the registered password the stored message.
   */
  lemma OpeningExpected(s: Server, lockerId: nat, reg: Command, locker: Locker, c: Command)
    requires s.Valid() && s.cs.oprfHash.Lawful() && s.cs.kx.keHash.Lawful()
    requires RegisteredBy(s, lockerId, reg, locker) && c.Open? && |c.nonce| == |reg.nonce| == 12
    ensures Stored(s, lockerId, reg).Ok?
    ensures var (upload, contents) := Stored(s, lockerId, reg).value;
            match OpenLocker(s, lockerId, locker, c)
            case Ok(output) =>
              Shows(s, lockerId, reg, upload, contents, c, output)
              && !OpeningPanics(s, lockerId, reg, upload, contents, c)
            case Err(_) => OpeningPanics(s, lockerId, reg, upload, contents, c)
  {
    StartsWhenDrawn(s, lockerId, reg, c);
    OpeningIs(s, lockerId, locker, RegistrationOf(s, lockerId, reg).value.upload, c);
    if c.password == reg.password {
      RegisteredHashes(s, lockerId, reg);
      OpenReturnsMessage(s, lockerId, reg, locker, c);
    }
    ShowsOrPanics(s, lockerId, reg, RegistrationOf(s, lockerId, reg).value.upload, locker.contents, c,
                  OpenLocker(s, lockerId, locker, c));
  }

  /** This output of the k-th command is the expected one, and the command does not panic. */
  ghost predicate RightAt(s: Server, commands: seq<Command>, k: nat, output: Output)
    requires s.cs.oprfHash.Lawful() && s.cs.kx.keHash.Lawful() && k < |commands|
  {
    && Expected(s, Registrations(commands[..k]), commands[k], output)
    && !PanicsAt(s, commands, k)
  }

  /** The k-th command ends the process. */
  ghost predicate PanicsAt(s: Server, commands: seq<Command>, k: nat)
    requires s.cs.oprfHash.Lawful() && s.cs.kx.keHash.Lawful() && k < |commands|
  {
    Panics(s, Registrations(commands[..k]), commands[k])
  }

  ghost predicate AllExpected(s: Server, commands: seq<Command>, outputs: seq<Output>)
    requires s.cs.oprfHash.Lawful() && s.cs.kx.keHash.Lawful() && |outputs| <= |commands|
  {
    forall k :: 0 <= k < |outputs| ==> RightAt(s, commands, k, outputs[k])
  }

  lemma ExpectedNext(s: Server, commands: seq<Command>, outputs: seq<Output>, output: Output)
    requires s.cs.oprfHash.Lawful() && s.cs.kx.keHash.Lawful()
    requires |outputs| < |commands| && AllExpected(s, commands, outputs)
    requires RightAt(s, commands, |outputs|, output)
    ensures AllExpected(s, commands, outputs + [output])
  {
  }

  /** Every locker was registered, under its number as identifier, by the command of that number. */
  ghost predicate AllRegistered(s: Server, history: seq<Command>, lockers: seq<Locker>)
    requires s.cs.oprfHash.Lawful()
  {
    && |history| == |lockers|
    && forall i :: 0 <= i < |lockers| ==> RegisteredBy(s, i, history[i], lockers[i]) && |history[i].nonce| == 12
  }

  lemma AppendLocker(s: Server, history: seq<Command>, lockers: seq<Locker>, c: Command, locker: Locker)
    requires s.cs.oprfHash.Lawful() && AllRegistered(s, history, lockers)
    requires RegisteredBy(s, |lockers|, c, locker) && |c.nonce| == 12
    ensures AllRegistered(s, history + [c], lockers + [locker])
  {
    var all, done := history + [c], lockers + [locker];
    forall i | 0 <= i < |done|
      ensures RegisteredBy(s, i, all[i], done[i]) && |all[i].nonce| == 12
    {
      if i < |lockers| {
        assert RegisteredBy(s, i, history[i], lockers[i]);
        assert all[i] == history[i] && done[i] == lockers[i];
      }
    }
  }

  class Vault {
    const server: Server
    var lockers: seq<Locker>
    ghost var history: seq<Command>

    /** Locker i was registered under credential identifier i by the i-th registering command. */
    ghost predicate Valid()
      reads this
    {
      server.Valid() && AllRegistered(server, history, lockers)
    }

    constructor (server: Server)
      requires server.Valid()
      ensures Valid() && this.server == server && lockers == [] && history == []
    {
      this.server, lockers, history := server, [], [];
    }

    /** Menu entry 1: the locker's number is the number of lockers so far; the other lockers stay as they are. */
    method Register(c: Command) returns (r: Result<Output>)
      requires Valid() && c.Register? && |c.nonce| == 12
      modifies this
      ensures Valid()
      ensures r.Ok? ==> r == Ok(Registered) && history == old(history) + [c] && old(lockers) <= lockers
      ensures r.Err? <==> RegistrationOf(server, |old(lockers)|, c).Err?
      ensures r.Err? ==> lockers == old(lockers) && history == old(history)
    {
      RegisterLockerStores(server, |lockers|, c);
      var locker :- RegisterLocker(server, |lockers|, c);
      AppendLocker(server, history, lockers, c, locker);
      lockers := lockers + [locker];
      history := history + [c];
      r := Ok(Registered);
    }

    /** Menu entry 2. */
    method Open(c: Command) returns (r: Result<Output>)
      requires Valid() && c.Open? && |c.nonce| == 12
      ensures c.index >= |lockers| ==> r == Ok(NotFound)
      ensures c.index < |lockers| ==> r == OpenLocker(server, c.index, lockers[c.index], c)
      ensures forall i :: 0 <= i < |history| ==> history[i].Register?
      ensures match r
              case Ok(output) => Expected(server, history, c, output) && !Panics(server, history, c)
              case Err(_) => Panics(server, history, c)
    {
      if c.index >= |lockers| {
        return Ok(NotFound);
      }
      OpeningExpected(server, c.index, history[c.index], lockers[c.index], c);
      r := OpenLocker(server, c.index, lockers[c.index], c);
    }

    /** One choice from the menu. */
    method Step(c: Command) returns (r: Result<Output>)
      requires Valid() && |c.nonce| == 12
      modifies this
      ensures Valid() && old(lockers) <= lockers
      ensures forall i :: 0 <= i < |old(history)| ==> old(history)[i].Register?
      ensures match r
              case Ok(output) => Expected(server, old(history), c, output) && !Panics(server, old(history), c)
              case Err(_) => Panics(server, old(history), c)
      ensures history == old(history) + if r.Ok? && c.Register? then [c] else []
    {
      match c
      case Register(_, _, _, _, _) => r := Register(c);
      case Open(_, _, _, _, _, _, _) => r := Open(c);
    }

    /** One turn of the loop, after the turns that gave these outputs. */
    method Turn(commands: seq<Command>, ghost outputs: seq<Output>, k: nat) returns (r: Result<Output>)
      requires Valid() && k == |outputs| < |commands| && |commands[k].nonce| == 12
      requires history == Registrations(commands[..k]) && AllExpected(server, commands, outputs)
      modifies this
      ensures Valid() && old(lockers) <= lockers
      ensures r.Ok? ==> history == Registrations(commands[..k + 1])
      ensures r.Ok? ==> AllExpected(server, commands, outputs + [r.value])
      ensures r.Err? ==> history == old(history) && PanicsAt(server, commands, k)
    {
      RegistrationsStep(commands, k);
      r := Step(commands[k]);
      if r.Ok? {
        ExpectedNext(server, commands, outputs, r.value);
      }
    }

    /**
     The menu loop, until the commands end or an unwrapped error ends the process. Over every history of registrations
     and openings: opening a locker with its password shows exactly its stored message, under any password the user is
     told that it is incorrect exactly when the client rejects the server's answer, a number that was not yet given out
     is not found, and registered lockers never change. The process ends early at the first command that panics, and
     only there.
     */
    method Serve(commands: seq<Command>) returns (outputs: seq<Output>, panicked: bool)
      requires Valid() && lockers == [] && forall k :: 0 <= k < |commands| ==> |commands[k].nonce| == 12
      modifies this
      ensures Valid()
      ensures |outputs| <= |commands| && (panicked <==> |outputs| < |commands|)
      ensures history == Registrations(commands[..|outputs|])
      ensures AllExpected(server, commands, outputs)
      ensures panicked ==> PanicsAt(server, commands, |outputs|)
    {
      outputs := [];
      for i := 0 to |commands|
        invariant Valid() && |outputs| == i
        invariant history == Registrations(commands[..i])
        invariant AllExpected(server, commands, outputs)
      {
        var r := Turn(commands, outputs, i);
        if r.Err? {
          return outputs, true;
        }
        outputs := outputs + [r.value];
      }
      panicked := false;
    }
  }
}
