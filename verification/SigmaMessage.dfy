/** What is signed and what is verified in SIGMA-I (src/key_exchange/sigma_i/message.rs). */
module SigmaMessage {
  import opened Errors
  import opened Serialization
  import opened Primitives
  import opened Identifiers
  import opened Masking
  import opened Transcript

  datatype Role = Server | Client

  datatype Stage = Sign | Verify

  /** The part of both messages that can be stored until the signature arrives. */
  datatype CachedMessage = CachedMessage(
    request: SerializedCredentialRequest,
    ke1: Ke1MessageIter,
    response: SerializedCredentialResponse,
    serverNonce: Bytes,
    serverEPk: Bytes,
    serverMac: Bytes)
  {
    function PostMessage(transcript: Role, identifier: SerializedIdentifier): seq<Bytes> {
      (if transcript.Client? then identifier.Iter() else [])
      + (request.Iter()
      + (ke1.Iter()
      + ((if transcript.Server? then identifier.Iter() else [])
      + (response.Iter()
      + ([serverNonce, serverEPk]
      + (if transcript.Client? then [serverMac] else []))))))
    }

    ghost predicate WellFormed(s: Shape, nh: nat) {
      && |request.element| == s.noe && |ke1.clientNonce| == NONCE_LEN && |ke1.clientEPk| == s.nepk
      && |response.evaluationElement| == s.noe && |response.maskingNonce| == NONCE_LEN
      && response.masked.Sized(s.nh, s.npk)
      && |serverNonce| == NONCE_LEN && |serverEPk| == s.nepk && |serverMac| == nh
    }
  }

  /** One party's view: what it signs and what it will verify. */
  datatype Message = Message(role: Role, context: SerializedContext, identifiers: SerializedIdentifiers,
                             cache: CachedMessage) {
    function PostMessage(stage: Stage): seq<Bytes> {
      var transcript := match (role, stage)
        case (Server, Sign) => Server
        case (Server, Verify) => Client
        case (Client, Sign) => Client
        case (Client, Verify) => Server;
      var identifier := match transcript
        case Server => identifiers.server
        case Client => identifiers.client;
      cache.PostMessage(transcript, identifier)
    }

    function SignMessage(): seq<Bytes> {
      context.Iter() + PostMessage(Sign)
    }
  }

  datatype HashOutput = HashOutput(sign: Bytes, verify: Bytes)

  /** `Message::hash`: the context is absorbed once and the hasher is cloned for both messages. */
  method HashBoth(h: HashFn, m: Message) returns (r: HashOutput)
    ensures r == HashBothSpec(h, m)
  {
    var context := new Absorber();
    context.UpdateIter(m.context.Iter());
    var sign := new Absorber.FromState(context.data);
    sign.UpdateIter(m.PostMessage(Sign));
    var verify := new Absorber.FromState(context.data);
    verify.UpdateIter(m.PostMessage(Verify));
    assert [] + Flatten(m.context.Iter()) == Flatten(m.context.Iter());
    r := HashOutput(h.hash(sign.data), h.hash(verify.data));
  }

  function HashBothSpec(h: HashFn, m: Message): HashOutput {
    var context := Flatten(m.context.Iter());
    HashOutput(h.hash(context + Flatten(m.PostMessage(Sign))), h.hash(context + Flatten(m.PostMessage(Verify))))
  }

  /** What the verifier knows when the signature arrives. */
  datatype MessageBuilder = MessageBuilder(role: Role, context: SerializedContext, identifier: SerializedIdentifier) {
    function Build(cache: CachedMessage): VerifyMessage {
      VerifyMessage(role, context, identifier, cache)
    }
  }

  datatype VerifyMessage = VerifyMessage(role: Role, context: SerializedContext, identifier: SerializedIdentifier,
                                         cache: CachedMessage) {
    function Chunks(): seq<Bytes> {
      context.Iter() + cache.PostMessage(Other(role), identifier)
    }
  }

  function Other(role: Role): Role {
    match role
    case Server => Client
    case Client => Server
  }

  /** The identifier of the party in this role. */
  function IdentifierOf(ids: SerializedIdentifiers, role: Role): SerializedIdentifier {
    match role
    case Server => ids.server
    case Client => ids.client
  }

  ghost predicate SameBytes(c1: SerializedContext, id1: SerializedIdentifier, c2: SerializedContext,
                            id2: SerializedIdentifier) {
    c1 == c2 && id1.length == id2.length && id1.identifier.bytes == id2.identifier.bytes
  }

  /**
   Duality: for matching context, identifier and cache, each party verifies exactly the bytes the other party signs,
   whichever role it plays, and whether the identifier was given or defaulted to the public key.
   */
  lemma Duality(signer: Message, builder: MessageBuilder)
    requires builder.role == Other(signer.role)
    requires SameBytes(signer.context, IdentifierOf(signer.identifiers, signer.role), builder.context,
                       builder.identifier)
    ensures Flatten(builder.Build(signer.cache).Chunks()) == Flatten(signer.SignMessage())
    ensures builder.Build(signer.cache).Chunks() == signer.SignMessage()
  {
  }

  /** The pre-hashes are the hashes of the message to sign and of the message rebuilt from the cache at the end. */
  lemma PreHashRefinesCache(h: HashFn, m: Message, builder: MessageBuilder)
    requires builder.role == m.role
    requires SameBytes(m.context, IdentifierOf(m.identifiers, Other(m.role)), builder.context, builder.identifier)
    ensures HashBothSpec(h, m).sign == h.hash(Flatten(m.SignMessage()))
    ensures HashBothSpec(h, m).verify == h.hash(Flatten(builder.Build(m.cache).Chunks()))
  {
    FlattenCat(m.context.Iter(), m.PostMessage(Sign));
    FlattenCat(m.context.Iter(), m.PostMessage(Verify));
    assert m.PostMessage(Verify) == m.cache.PostMessage(Other(m.role), builder.identifier);
  }

  // ---------------------------------------------------------------------
  // Unique decoding of the signed messages
  // ---------------------------------------------------------------------

  /** The bytes of one role's message. */
  function MessageBytes(role: Role, context: Bytes, id: Bytes, c: CachedMessage): Bytes {
    STR_CONTEXT + (Vec16(context) + match role
      case Client => Vec16(id) + (c.request.element + (c.ke1.clientNonce + (c.ke1.clientEPk + Tail(c, c.serverMac))))
      case Server => c.request.element + (c.ke1.clientNonce + (c.ke1.clientEPk + (Vec16(id) + Tail(c, [])))))
  }

  function Tail(c: CachedMessage, mac: Bytes): Bytes {
    c.response.evaluationElement + (c.response.maskingNonce + (c.response.masked.nonce + (c.response.masked.hash
    + (c.response.masked.pk + (c.serverNonce + (c.serverEPk + mac))))))
  }

  function DecodeTail(s: Shape, input: Bytes): Result<(SerializedCredentialResponse, Bytes, Bytes, Bytes)> {
    var (evaluation, r) :- TakeArray(input, s.noe, "");
    var (maskingNonce, r) :- TakeArray(r, NONCE_LEN, "");
    var (nonce, r) :- TakeArray(r, NONCE_LEN, "");
    var (hash, r) :- TakeArray(r, s.nh, "");
    var (pk, r) :- TakeArray(r, s.npk, "");
    var (serverNonce, r) :- TakeArray(r, NONCE_LEN, "");
    var (serverEPk, r) :- TakeArray(r, s.nepk, "");
    Ok((SerializedCredentialResponse(evaluation, maskingNonce, MaskedResponse(nonce, hash, pk)), serverNonce, serverEPk,
        r))
  }

  /** Reads context, identifier and cache back from a message of the given role; a server message has no MAC. */
  function DecodeMessage(s: Shape, role: Role, input: Bytes): Result<(Bytes, Bytes, CachedMessage)> {
    var (prefix, r) :- TakeArray(input, |STR_CONTEXT|, "");
    var _ :- Need(prefix == Ascii("OPAQUEv1-"), SerializationError);
    var (context, r) :- TakeVec16(r);
    match role
    case Client =>
      var (id, r) :- TakeVec16(r);
      var (blinded, r) :- TakeArray(r, s.noe, "");
      var (clientNonce, r) :- TakeArray(r, NONCE_LEN, "");
      var (clientEPk, r) :- TakeArray(r, s.nepk, "");
      var (response, serverNonce, serverEPk, mac) :- DecodeTail(s, r);
      Ok((context, id, CachedMessage(SerializedCredentialRequest(blinded), Ke1MessageIter(clientNonce, clientEPk),
                                     response, serverNonce, serverEPk, mac)))
    case Server =>
      var (blinded, r) :- TakeArray(r, s.noe, "");
      var (clientNonce, r) :- TakeArray(r, NONCE_LEN, "");
      var (clientEPk, r) :- TakeArray(r, s.nepk, "");
      var (id, r) :- TakeVec16(r);
      var (response, serverNonce, serverEPk, mac) :- DecodeTail(s, r);
      Ok((context, id, CachedMessage(SerializedCredentialRequest(blinded), Ke1MessageIter(clientNonce, clientEPk),
                                     response, serverNonce, serverEPk, mac)))
  }

  lemma DecodeTailOk(s: Shape, nh: nat, c: CachedMessage, mac: Bytes)
    requires c.WellFormed(s, nh)
    ensures DecodeTail(s, Tail(c, mac)) == Ok((c.response, c.serverNonce, c.serverEPk, mac))
  {
    var r7 := c.serverEPk + mac;
    var r6 := c.serverNonce + r7;
    var r5 := c.response.masked.pk + r6;
    var r4 := c.response.masked.hash + r5;
    var r3 := c.response.masked.nonce + r4;
    var r2 := c.response.maskingNonce + r3;
    TakeCat(c.response.evaluationElement, r2, "");
    TakeCat(c.response.maskingNonce, r3, "");
    TakeCat(c.response.masked.nonce, r4, "");
    TakeCat(c.response.masked.hash, r5, "");
    TakeCat(c.response.masked.pk, r6, "");
    TakeCat(c.serverNonce, r7, "");
    TakeCat(c.serverEPk, mac, "");
  }

  /** A signed message determines its context, its signer's identifier and the whole cache its role covers. */
  lemma MessageUnique(s: Shape, nh: nat, role: Role, context: Bytes, id: Bytes, c: CachedMessage)
    requires c.WellFormed(s, nh) && |context| < 0x1_0000 && |id| < 0x1_0000
    ensures DecodeMessage(s, role, MessageBytes(role, context, id, c))
         == Ok((context, id, if role.Client? then c else c.(serverMac := [])))
  {
    match role
    case Client =>
      var t := Tail(c, c.serverMac);
      var r3 := c.ke1.clientEPk + t;
      var r2 := c.ke1.clientNonce + r3;
      var r1 := c.request.element + r2;
      var r0 := Vec16(id) + r1;
      TakeCat(STR_CONTEXT, Vec16(context) + r0, "");
      TakeVec16Cat(context, r0);
      TakeVec16Cat(id, r1);
      TakeCat(c.request.element, r2, "");
      TakeCat(c.ke1.clientNonce, r3, "");
      TakeCat(c.ke1.clientEPk, t, "");
      DecodeTailOk(s, nh, c, c.serverMac);
    case Server =>
      var t := Tail(c, []);
      var r3 := Vec16(id) + t;
      var r2 := c.ke1.clientEPk + r3;
      var r1 := c.ke1.clientNonce + r2;
      var r0 := c.request.element + r1;
      TakeCat(STR_CONTEXT, Vec16(context) + r0, "");
      TakeVec16Cat(context, r0);
      TakeCat(c.request.element, r1, "");
      TakeCat(c.ke1.clientNonce, r2, "");
      TakeCat(c.ke1.clientEPk, r3, "");
      TakeVec16Cat(id, t);
      DecodeTailOk(s, nh, c, []);
  }

  lemma TailFlat(c: CachedMessage, mac: seq<Bytes>)
    ensures Flatten(c.response.Iter() + ([c.serverNonce, c.serverEPk] + mac)) == Tail(c, Flatten(mac))
  {
    FlattenCat(c.response.Iter(), [c.serverNonce, c.serverEPk] + mac);
    FlattenCat([c.serverNonce, c.serverEPk], mac);
    FlattenTwo(c.serverNonce, c.serverEPk);
    ResponseFlat(c.response);
    CatAssoc(c.serverNonce, c.serverEPk, Flatten(mac));
    var end := c.serverNonce + (c.serverEPk + Flatten(mac));
    var m := c.response.masked;
    CatAssoc(m.hash, m.pk, end);
    CatAssoc(m.nonce, m.hash + m.pk, end);
    CatAssoc(c.response.maskingNonce, m.nonce + (m.hash + m.pk), end);
    CatAssoc(c.response.evaluationElement, c.response.maskingNonce + (m.nonce + (m.hash + m.pk)), end);
  }

  lemma Ke1Flat(c: CachedMessage, rest: seq<Bytes>)
    ensures Flatten(c.request.Iter() + (c.ke1.Iter() + rest))
         == c.request.element + (c.ke1.clientNonce + (c.ke1.clientEPk + Flatten(rest)))
  {
    FlattenCat(c.request.Iter(), c.ke1.Iter() + rest);
    FlattenCat(c.ke1.Iter(), rest);
    FlattenOne(c.request.element);
    FlattenTwo(c.ke1.clientNonce, c.ke1.clientEPk);
    CatAssoc(c.ke1.clientNonce, c.ke1.clientEPk, Flatten(rest));
  }

  /** The iterator chain of a role's message feeds exactly these bytes. */
  lemma MessageFlat(role: Role, context: SerializedContext, id: SerializedIdentifier, c: CachedMessage)
    requires context.WellFormed() && id.WellFormed()
    ensures Flatten(context.Iter() + c.PostMessage(role, id))
         == MessageBytes(role, context.context, id.identifier.bytes, c)
  {
    var ident := id.Iter();
    id.Flat();
    ContextFlat(context);
    FlattenCat(context.Iter(), c.PostMessage(role, id));
    var nil: seq<Bytes> := [];
    match role
    case Client =>
      var tail := c.response.Iter() + ([c.serverNonce, c.serverEPk] + [c.serverMac]);
      assert c.PostMessage(role, id) == ident + (c.request.Iter() + (c.ke1.Iter() + (nil + tail)));
      assert nil + tail == tail;
      FlattenCat(ident, c.request.Iter() + (c.ke1.Iter() + tail));
      Ke1Flat(c, tail);
      FlattenOne(c.serverMac);
      TailFlat(c, [c.serverMac]);
      CatAssoc(STR_CONTEXT, Vec16(context.context), Flatten(c.PostMessage(role, id)));
    case Server =>
      var tail := c.response.Iter() + ([c.serverNonce, c.serverEPk] + nil);
      assert c.PostMessage(role, id) == c.request.Iter() + (c.ke1.Iter() + (ident + tail));
      FlattenCat(ident, tail);
      Ke1Flat(c, ident + tail);
      TailFlat(c, nil);
      CatAssoc(STR_CONTEXT, Vec16(context.context), Flatten(c.PostMessage(role, id)));
  }

  /** Two messages of one role that sign the same bytes agree in every component the role covers. */
  lemma SignedBytesInjective(s: Shape, nh: nat, m1: Message, m2: Message)
    requires m1.role == m2.role && m1.context.WellFormed() && m2.context.WellFormed()
    requires m1.identifiers.WellFormed() && m2.identifiers.WellFormed()
    requires m1.cache.WellFormed(s, nh) && m2.cache.WellFormed(s, nh)
    requires Flatten(m1.SignMessage()) == Flatten(m2.SignMessage())
    ensures m1.context.context == m2.context.context
    ensures IdentifierOf(m1.identifiers, m1.role).identifier.bytes ==
            IdentifierOf(m2.identifiers, m2.role).identifier.bytes
    ensures m1.cache.(serverMac := []) == m2.cache.(serverMac := [])
    ensures m1.role.Client? ==> m1.cache == m2.cache
  {
    var id1, id2 := IdentifierOf(m1.identifiers, m1.role), IdentifierOf(m2.identifiers, m2.role);
    MessageFlat(m1.role, m1.context, id1, m1.cache);
    MessageFlat(m2.role, m2.context, id2, m2.cache);
    MessageUnique(s, nh, m1.role, m1.context.context, id1.identifier.bytes, m1.cache);
    MessageUnique(s, nh, m2.role, m2.context.context, id2.identifier.bytes, m2.cache);
  }

  // ---------------------------------------------------------------------
  // Messages of different roles
  // ---------------------------------------------------------------------

  /** The length of what a server message has between the context and the identifier. */
  function HeadLen(s: Shape): nat {
    s.noe + NONCE_LEN + s.nepk
  }

  /** The length of what both messages have from the response on, without the MAC. */
  function TailLen(s: Shape): nat {
    s.noe + 2 * NONCE_LEN + s.nh + s.npk + NONCE_LEN + s.nepk
  }

  function Head(c: CachedMessage): Bytes {
    c.request.element + (c.ke1.clientNonce + c.ke1.clientEPk)
  }

  /** A message after the context. */
  function Body(role: Role, id: Bytes, c: CachedMessage): Bytes {
    match role
    case Client => Vec16(id) + (Head(c) + (Tail(c, []) + c.serverMac))
    case Server => Head(c) + (Vec16(id) + Tail(c, []))
  }

  lemma TailSplit(c: CachedMessage, mac: Bytes)
    ensures Tail(c, mac) == Tail(c, []) + mac
  {
    var m := c.response.masked;
    var r7 := c.serverEPk;
    var r6 := c.serverNonce + r7;
    var r5 := m.pk + r6;
    var r4 := m.hash + r5;
    var r3 := m.nonce + r4;
    var r2 := c.response.maskingNonce + r3;
    assert r7 + [] == r7;
    CatAssoc(c.serverNonce, r7, mac);
    CatAssoc(m.pk, r6, mac);
    CatAssoc(m.hash, r5, mac);
    CatAssoc(m.nonce, r4, mac);
    CatAssoc(c.response.maskingNonce, r3, mac);
    CatAssoc(c.response.evaluationElement, r2, mac);
  }

  lemma MessageIsBody(role: Role, context: Bytes, id: Bytes, c: CachedMessage)
    ensures MessageBytes(role, context, id, c) == STR_CONTEXT + (Vec16(context) + Body(role, id, c))
  {
    var tail := match role
      case Client => Tail(c, c.serverMac)
      case Server => Vec16(id) + Tail(c, []);
    TailSplit(c, c.serverMac);
    CatAssoc(c.ke1.clientNonce, c.ke1.clientEPk, tail);
    CatAssoc(c.request.element, c.ke1.clientNonce + c.ke1.clientEPk, tail);
  }

  lemma Lengths(s: Shape, nh: nat, c: CachedMessage)
    requires c.WellFormed(s, nh)
    ensures |Head(c)| == HeadLen(s) && |Tail(c, [])| == TailLen(s)
  {
  }

  lemma Cut(b: Bytes, n: nat) returns (front: Bytes, rest: Bytes)
    requires n <= |b|
    ensures front + rest == b && |front| == n && |rest| == |b| - n
  {
    front, rest := b[..n], b[n..];
  }

  /** Any bytes of the right lengths are the head, the tail and the MAC of some cache. */
  lemma CacheOfBytes(s: Shape, nh: nat, head: Bytes, tail: Bytes, mac: Bytes) returns (c: CachedMessage)
    requires |head| == HeadLen(s) && |tail| == TailLen(s) && |mac| == nh
    ensures c.WellFormed(s, nh) && Head(c) == head && Tail(c, []) == tail && c.serverMac == mac
  {
    var element, h1 := Cut(head, s.noe);
    var clientNonce, clientEPk := Cut(h1, NONCE_LEN);
    var evaluation, t1 := Cut(tail, s.noe);
    var maskingNonce, t2 := Cut(t1, NONCE_LEN);
    var nonce, t3 := Cut(t2, NONCE_LEN);
    var hash, t4 := Cut(t3, s.nh);
    var pk, t5 := Cut(t4, s.npk);
    var serverNonce, serverEPk := Cut(t5, NONCE_LEN);
    assert serverEPk + [] == serverEPk;
    c := CachedMessage(SerializedCredentialRequest(element), Ke1MessageIter(clientNonce, clientEPk),
                       SerializedCredentialResponse(evaluation, maskingNonce, MaskedResponse(nonce, hash, pk)),
                       serverNonce, serverEPk, mac);
  }

  /** The two messages are the same bytes. */
  ghost predicate Meet(s: Shape, nh: nat, serverContext: Bytes, serverId: Bytes, x: CachedMessage,
                       clientContext: Bytes, clientId: Bytes, y: CachedMessage) {
    && x.WellFormed(s, nh) && y.WellFormed(s, nh)
    && MessageBytes(Server, serverContext, serverId, x) == MessageBytes(Client, clientContext, clientId, y)
  }

  /**
   The server identifier is exactly one MAC longer than the client's, and what of the length-prefixed client identifier
   does not fit in front of the server identifier is a prefix of the length-prefixed server identifier.
   */
  predicate CanMeet(s: Shape, nh: nat, serverId: Bytes, clientId: Bytes) {
    && |serverId| == |clientId| + nh
    && (2 + |clientId| <= HeadLen(s) || Vec16(clientId)[HeadLen(s)..] <= Vec16(serverId))
  }

  lemma MeetOnlyIf(s: Shape, nh: nat, serverContext: Bytes, serverId: Bytes, x: CachedMessage, clientContext: Bytes,
                   clientId: Bytes, y: CachedMessage)
    requires |serverContext| < 0x1_0000 && |clientContext| < 0x1_0000
    requires Meet(s, nh, serverContext, serverId, x, clientContext, clientId, y)
    ensures serverContext == clientContext && CanMeet(s, nh, serverId, clientId)
  {
    var server, client := Body(Server, serverId, x), Body(Client, clientId, y);
    MessageIsBody(Server, serverContext, serverId, x);
    MessageIsBody(Client, clientContext, clientId, y);
    TakeCat(STR_CONTEXT, Vec16(serverContext) + server, "");
    TakeCat(STR_CONTEXT, Vec16(clientContext) + client, "");
    TakeVec16Cat(serverContext, server);
    TakeVec16Cat(clientContext, client);
    assert server == client;
    Lengths(s, nh, x);
    Lengths(s, nh, y);
    var v, w, off := Vec16(clientId), Vec16(serverId), HeadLen(s);
    if off < |v| {
      assert client[off..|v|] == v[off..];
      assert server[off..|v|] == w[..|v| - off];
    }
  }

  /** One byte string that starts with v and holds w behind its first bytes, cut both ways. */
  lemma CutBothWays(v: Bytes, w: Bytes, off: nat, tail: Bytes, end: nat)
    returns (head: Bytes, head': Bytes, tail': Bytes, mac: Bytes)
    requires |w| + |tail| == |v| + end && |tail| <= end
    requires |v| <= off || v[off..] <= w
    ensures |head| == |head'| == off && |tail'| == |tail| && |mac| == end - |tail|
    ensures head + (w + tail) == v + (head' + (tail' + mac))
  {
    head := if |v| <= off then v + seq(off - |v|, _ => 0) else v[..off];
    var all := head + (w + tail);
    assert v <= all by {
      if off < |v| {
        assert w[..|v| - off] == v[off..];
        assert all[..|v|] == v[..off] + v[off..];
      }
    }
    var rest := all[|v|..];
    var after := rest[off..];
    head', tail', mac := rest[..off], after[..|tail|], after[|tail|..];
    assert tail' + mac == after && head' + after == rest && v + rest == all;
  }

  lemma MeetIf(s: Shape, nh: nat, context: Bytes, serverId: Bytes, clientId: Bytes)
    returns (x: CachedMessage, y: CachedMessage)
    requires CanMeet(s, nh, serverId, clientId)
    ensures Meet(s, nh, context, serverId, x, context, clientId, y)
  {
    var tail: Bytes := seq(TailLen(s), _ => 0);
    var head, head', tail', mac := CutBothWays(Vec16(clientId), Vec16(serverId), HeadLen(s), tail, TailLen(s) + nh);
    x := CacheOfBytes(s, nh, head, tail, mac);
    y := CacheOfBytes(s, nh, head', tail', mac);
    MessageIsBody(Server, context, serverId, x);
    MessageIsBody(Client, context, clientId, y);
  }

  /** A server and a client sign the same bytes. */
  ghost predicate SignSame(s: Shape, nh: nat, server: Message, client: Message) {
    && server.role.Server? && client.role.Client? && server.cache.WellFormed(s, nh) && client.cache.WellFormed(s, nh)
    && Flatten(server.SignMessage()) == Flatten(client.SignMessage())
  }

  lemma SignSameIsMeet(s: Shape, nh: nat, server: Message, client: Message)
    requires server.context.WellFormed() && server.identifiers.WellFormed() && server.role.Server?
    requires client.context.WellFormed() && client.identifiers.WellFormed() && client.role.Client?
    ensures SignSame(s, nh, server, client)
       <==> Meet(s, nh, server.context.context, server.identifiers.server.identifier.bytes, server.cache,
                 client.context.context, client.identifiers.client.identifier.bytes, client.cache)
  {
    MessageFlat(Server, server.context, server.identifiers.server, server.cache);
    MessageFlat(Client, client.context, client.identifiers.client, client.cache);
  }

  /**
   The encoding has no role tag. Whether a server and a client can sign the same bytes is decided by their contexts and
   identifiers alone, before any exchange: exactly when the contexts are equal and the identifiers can meet.
   */
  lemma RolesMeet(s: Shape, nh: nat, serverContext: SerializedContext, serverIds: SerializedIdentifiers,
                  clientContext: SerializedContext, clientIds: SerializedIdentifiers)
    requires serverContext.WellFormed() && serverIds.WellFormed()
    requires clientContext.WellFormed() && clientIds.WellFormed()
    ensures (exists x, y :: SignSame(s, nh, Message(Server, serverContext, serverIds, x),
                                     Message(Client, clientContext, clientIds, y)))
       <==> serverContext.context == clientContext.context
            && CanMeet(s, nh, serverIds.server.identifier.bytes, clientIds.client.identifier.bytes)
  {
    var cx, cy := serverContext.context, clientContext.context;
    var sid, cid := serverIds.server.identifier.bytes, clientIds.client.identifier.bytes;
    forall x, y | SignSame(s, nh, Message(Server, serverContext, serverIds, x),
                           Message(Client, clientContext, clientIds, y))
      ensures cx == cy && CanMeet(s, nh, sid, cid)
    {
      SignSameIsMeet(s, nh, Message(Server, serverContext, serverIds, x), Message(Client, clientContext, clientIds, y));
      MeetOnlyIf(s, nh, cx, sid, x, cy, cid, y);
    }
    if cx == cy && CanMeet(s, nh, sid, cid) {
      var x, y := MeetIf(s, nh, cx, sid, cid);
      SignSameIsMeet(s, nh, Message(Server, serverContext, serverIds, x), Message(Client, clientContext, clientIds, y));
    }
  }

  /** The lengths of Ristretto255 and SHA-512 with Ed25519 signatures. */
  function RistrettoShape(): Shape {
    Shape(32, 64, 32, 32)
  }

  /**
   On that suite, with the client identified by its public key, the roles meet exactly for server identifiers of 96
   bytes; with both identifiers defaulted to public keys never.
   */
  lemma RolesOnRistretto(context: Bytes, serverId: Bytes, clientPk: Bytes)
    requires |context| < 0x1_0000 && |clientPk| == 32
    ensures (exists x, y :: Meet(RistrettoShape(), 64, context, serverId, x, context, clientPk, y))
       <==> |serverId| == 96
  {
    forall x, y | Meet(RistrettoShape(), 64, context, serverId, x, context, clientPk, y)
      ensures |serverId| == 96
    {
      MeetOnlyIf(RistrettoShape(), 64, context, serverId, x, context, clientPk, y);
    }
    if |serverId| == 96 {
      var x, y := MeetIf(RistrettoShape(), 64, context, serverId, clientPk);
    }
  }
}
