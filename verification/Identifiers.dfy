/** Length-prefixed contexts and identifiers (src/key_exchange/mod.rs). */
module Identifiers {
  import opened Errors
  import opened Serialization
  import opened Primitives

  const STR_CONTEXT: Bytes := Ascii("OPAQUEv1-")

  /** The optional identifiers an application supplies. */
  datatype Ids = Ids(client: Option<Bytes>, server: Option<Bytes>)

  datatype SerializedContext = SerializedContext(length: Bytes, context: Bytes) {
    function Iter(): seq<Bytes> {
      [STR_CONTEXT, length, context]
    }

    ghost predicate WellFormed() {
      length == BeDigits(|context|, 2) && |context| < 0x1_0000
    }
  }

  function ContextFrom(context: Option<Bytes>): (r: Result<SerializedContext>)
    ensures r.Ok? <==> |context.GetOr([])| < 0x1_0000
    ensures r.Ok? ==> r.value.WellFormed() && r.value.context == context.GetOr([])
    ensures r.Err? ==> r.error == SerializationError
  {
    var context := context.GetOr([]);
    I2ospTwo(|context|);
    var length :- I2osp(|context|, 2);
    Ok(SerializedContext(length, context))
  }

  datatype Identifier = Owned(bytes: Bytes) | Borrowed(bytes: Bytes)

  datatype SerializedIdentifier = SerializedIdentifier(length: Bytes, identifier: Identifier) {
    function Iter(): seq<Bytes> {
      [length, identifier.bytes]
    }

    ghost predicate WellFormed() {
      length == BeDigits(|identifier.bytes|, 2) && |identifier.bytes| < 0x1_0000
    }

    /** What is hashed depends on the identifier's bytes only, not on where they came from. */
    lemma Flat()
      requires WellFormed()
      ensures Flatten(Iter()) == Vec16(identifier.bytes)
    {
      FlattenTwo(length, identifier.bytes);
    }
  }

  /** The given identifier, or else the party's serialized static public key. */
  function FromIdentifier(id: Option<Bytes>, sPk: Bytes): (r: Result<SerializedIdentifier>)
    ensures r.Ok? <==> |id.GetOr(sPk)| < 0x1_0000
    ensures r.Ok? ==> r.value.WellFormed() && r.value.identifier.bytes == id.GetOr(sPk)
    ensures r.Err? ==> r.error == SerializationError
  {
    I2ospTwo(|id.GetOr(sPk)|);
    match id
    case Some(id) =>
      var length :- I2osp(|id|, 2);
      Ok(SerializedIdentifier(length, Borrowed(id)))
    case None =>
      var length :- I2osp(|sPk|, 2);
      Ok(SerializedIdentifier(length, Owned(sPk)))
  }

  datatype SerializedIdentifiers = SerializedIdentifiers(client: SerializedIdentifier, server: SerializedIdentifier) {
    ghost predicate WellFormed() {
      client.WellFormed() && server.WellFormed()
    }
  }

  function FromIdentifiers(ids: Ids, clientPk: Bytes, serverPk: Bytes): (r: Result<SerializedIdentifiers>)
    ensures r.Ok? <==> |ids.client.GetOr(clientPk)| < 0x1_0000 && |ids.server.GetOr(serverPk)| < 0x1_0000
    ensures r.Ok? ==>
              && r.value.WellFormed()
              && r.value.client.identifier.bytes == ids.client.GetOr(clientPk)
              && r.value.server.identifier.bytes == ids.server.GetOr(serverPk)
    ensures r.Err? ==> r.error == SerializationError
  {
    var client :- FromIdentifier(ids.client, clientPk);
    var server :- FromIdentifier(ids.server, serverPk);
    Ok(SerializedIdentifiers(client, server))
  }
}
