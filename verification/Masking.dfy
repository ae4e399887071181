/** The masked credential response (`MaskedResponse`, `mask_response`, `unmask_response` of src/opaque.rs). */
module Masking {
  import opened Errors
  import opened Serialization
  import opened Primitives
  import opened Keypair
  import opened Hkdf
  import Env = Envelope

  const STR_CREDENTIAL_RESPONSE_PAD: Bytes := Ascii("CredentialResponsePad")

  datatype MaskedResponse = MaskedResponse(nonce: Bytes, hash: Bytes, pk: Bytes) {
    ghost predicate Sized(nh: nat, npk: nat) {
      |nonce| == NONCE_LEN && |hash| == nh && |pk| == npk
    }

    function Serialize(): Bytes {
      nonce + (hash + pk)
    }

    function Iter(): seq<Bytes> {
      [nonce, hash, pk]
    }
  }

  function MaskedLen(h: HashFn, g: Group): nat {
    h.nh + NONCE_LEN + g.npk
  }

  function DeserializeTakeMasked(nh: nat, npk: nat, input: Bytes): Result<(MaskedResponse, Bytes)> {
    var (nonce, rest) :- TakeArray(input, NONCE_LEN, "masked nonce");
    var (hash, rest) :- TakeArray(rest, nh, "masked hash");
    var (pk, rest) :- TakeArray(rest, npk, "masked public key");
    Ok((MaskedResponse(nonce, hash, pk), rest))
  }

  /** The same parser on a slice that advances in place. */
  method ReadMasked(nh: nat, npk: nat, bytes: Reader) returns (r: Result<MaskedResponse>)
    requires bytes.Valid()
    modifies bytes
    ensures bytes.Valid()
    ensures match DeserializeTakeMasked(nh, npk, old(bytes.Rest()))
            case Ok((m, rest)) => r == Ok(m) && bytes.Rest() == rest
            case Err(e) => r == Err(e)
  {
    var nonce :- bytes.Take(NONCE_LEN, "masked nonce");
    var hash :- bytes.Take(nh, "masked hash");
    var pk :- bytes.Take(npk, "masked public key");
    r := Ok(MaskedResponse(nonce, hash, pk));
  }

  lemma MaskedRoundTrip(nh: nat, npk: nat, m: MaskedResponse, rest: Bytes)
    requires m.Sized(nh, npk)
    ensures DeserializeTakeMasked(nh, npk, m.Serialize() + rest) == Ok((m, rest))
  {
    CatAssoc(m.nonce, m.hash + m.pk, rest);
    CatAssoc(m.hash, m.pk, rest);
    TakeCat(m.nonce, m.hash + (m.pk + rest), "masked nonce");
    TakeCat(m.hash, m.pk + rest, "masked hash");
    TakeCat(m.pk, rest, "masked public key");
  }

  lemma MaskedCanonical(nh: nat, npk: nat, input: Bytes)
    ensures DeserializeTakeMasked(nh, npk, input).Ok? <==> nh + NONCE_LEN + npk <= |input|
    ensures DeserializeTakeMasked(nh, npk, input).Ok? ==>
              var (m, rest) := DeserializeTakeMasked(nh, npk, input).value;
              m.Sized(nh, npk) && input == m.Serialize() + rest
  {
    if nh + NONCE_LEN + npk <= |input| {
      var r1, r2 := input[NONCE_LEN..], input[NONCE_LEN..][nh..];
      assert input == input[..NONCE_LEN] + (r1[..nh] + (r2[..npk] + r2[npk..]));
      CatAssoc(r1[..nh], r2[..npk], r2[npk..]);
      CatAssoc(input[..NONCE_LEN], r1[..nh] + r2[..npk], r2[npk..]);
    }
  }

  /** The pad with the data XORed in from the front, as far as both reach. */
  function Xor(pad: Bytes, data: Bytes): (x: Bytes)
    ensures |x| == |pad|
  {
    seq(|pad|, i requires 0 <= i < |pad| => if i < |data| then pad[i] ^ data[i] else pad[i])
  }

  lemma XorTwice(pad: Bytes, data: Bytes)
    requires |data| == |pad|
    ensures Xor(pad, Xor(pad, data)) == data
  {
    forall i | 0 <= i < |pad|
      ensures Xor(pad, Xor(pad, data))[i] == data[i]
    {
      XorByte(pad[i], data[i]);
    }
  }

  lemma XorByte(p: byte, d: byte)
    ensures p ^ (p ^ d) == d
  {
  }

  /** `for (x1, x2) in pad.iter_mut().zip(data) { *x1 ^= x2 }`. */
  method XorInto(pad: array<byte>, data: Bytes)
    modifies pad
    ensures pad[..] == Xor(old(pad[..]), data)
  {
    var n := if pad.Length < |data| then pad.Length else |data|;
    for i := 0 to n
      invariant forall k :: 0 <= k < i ==> pad[k] == old(pad[k]) ^ data[k]
      invariant forall k :: i <= k < pad.Length ==> pad[k] == old(pad[k])
    {
      pad[i] := pad[i] ^ data[i];
    }
  }

  function Pad(h: HashFn, g: Group, maskingKey: Bytes, maskingNonce: Bytes): Result<Bytes>
    requires h.Lawful()
  {
    Expand(h, maskingKey, maskingNonce + STR_CREDENTIAL_RESPONSE_PAD, MaskedLen(h, g))
  }

  function MaskSpec(h: HashFn, g: Group, maskingKey: Bytes, maskingNonce: Bytes, serverPk: PublicKey,
                    envelope: Env.Envelope): Result<MaskedResponse>
    requires h.Lawful()
  {
    var pad :- Pad(h, g, maskingKey, maskingNonce);
    var (masked, _) :- DeserializeTakeMasked(h.nh, g.npk, Xor(pad, g.serializePk(serverPk) + envelope.Serialize()));
    Ok(masked)
  }

  method MaskResponse(h: HashFn, g: Group, maskingKey: Bytes, maskingNonce: Bytes, serverPk: PublicKey,
                      envelope: Env.Envelope)
    returns (r: Result<MaskedResponse>)
    requires h.Lawful()
    ensures r == MaskSpec(h, g, maskingKey, maskingNonce, serverPk, envelope)
  {
    var pad :- Pad(h, g, maskingKey, maskingNonce);
    var xorPad := new byte[|pad|](i requires 0 <= i < |pad| => pad[i]);
    assert xorPad[..] == pad;
    XorInto(xorPad, g.serializePk(serverPk) + envelope.Serialize());
    var slice := new Reader(xorPad[..]);
    r := ReadMasked(h.nh, g.npk, slice);
  }

  function UnmaskSpec(h: HashFn, g: Group, maskingKey: Bytes, maskingNonce: Bytes, masked: MaskedResponse)
    : Result<(PublicKey, Env.Envelope)>
    requires h.Lawful()
  {
    var pad :- Pad(h, g, maskingKey, maskingNonce);
    match DeserializeTakePk(g, Xor(pad, masked.Serialize()))
    case Err(_) => Err(SerializationError)
    case Ok((serverPk, rest)) =>
      var (envelope, _) :- Env.DeserializeTake(h, rest);
      Ok((serverPk, envelope))
  }

  method UnmaskResponse(h: HashFn, g: Group, maskingKey: Bytes, maskingNonce: Bytes, masked: MaskedResponse)
    returns (r: Result<(PublicKey, Env.Envelope)>)
    requires h.Lawful()
    ensures r == UnmaskSpec(h, g, maskingKey, maskingNonce, masked)
  {
    var pad :- Pad(h, g, maskingKey, maskingNonce);
    var xorPad := new byte[|pad|](i requires 0 <= i < |pad| => pad[i]);
    assert xorPad[..] == pad;
    FlattenThree(masked.nonce, masked.hash, masked.pk);
    XorInto(xorPad, Flatten(masked.Iter()));
    var key := DeserializeTakePk(g, xorPad[..]);
    if key.Err? {
      return Err(SerializationError);
    }
    var envelope :- Env.DeserializeTake(h, key.value.1);
    r := Ok((key.value.0, envelope.0));
  }

  /** Masking succeeds on well-formed inputs and its three chunks are well-formed. */
  lemma MaskOk(h: HashFn, g: Group, key: Bytes, nonce: Bytes, serverPk: PublicKey, e: Env.Envelope)
    requires h.Lawful()
    ensures MaskSpec(h, g, key, nonce, serverPk, e).Ok? <==> h.nh <= |key| && MaskedLen(h, g) <= 255 * h.nh
    ensures MaskSpec(h, g, key, nonce, serverPk, e).Ok? ==>
              MaskSpec(h, g, key, nonce, serverPk, e).value.Sized(h.nh, g.npk)
    ensures MaskSpec(h, g, key, nonce, serverPk, e).Err? ==>
              MaskSpec(h, g, key, nonce, serverPk, e).error == LibraryError(HkdfError)
  {
    var pad := Pad(h, g, key, nonce);
    if pad.Ok? {
      MaskedCanonical(h.nh, g.npk, Xor(pad.value, g.serializePk(serverPk) + e.Serialize()));
    }
  }

  /** The plaintext of a masked response: the server key, the envelope's nonce and its MAC. */
  function Plaintext(g: Group, serverPk: PublicKey, e: Env.Envelope): Bytes {
    g.serializePk(serverPk) + (e.nonce + e.hmac)
  }

  /**
    What masking computes: byte by byte the plaintext against a pad, and the pad is a chain of HMACs under the masking
    key, over the masking nonce and the label.
  */
  lemma MaskIsXor(h: HashFn, g: Group, key: Bytes, nonce: Bytes, serverPk: PublicKey, e: Env.Envelope)
    returns (blocks: seq<Bytes>, pad: Bytes)
    requires h.Lawful() && e.WellFormed(h) && |g.serializePk(serverPk)| == g.npk
    requires MaskSpec(h, g, key, nonce, serverPk, e).Ok?
    ensures OutputOf(h, key, nonce + Ascii("CredentialResponsePad"), g.npk + NONCE_LEN + h.nh, blocks, pad)
    ensures var m := MaskSpec(h, g, key, nonce, serverPk, e).value.Serialize();
            && |m| == |pad| == |Plaintext(g, serverPk, e)| == g.npk + NONCE_LEN + h.nh
            && forall i :: 0 <= i < |m| ==> m[i] == pad[i] ^ Plaintext(g, serverPk, e)[i]
  {
    blocks := ExpandIsChain(h, key, nonce + STR_CREDENTIAL_RESPONSE_PAD, MaskedLen(h, g));
    pad := Pad(h, g, key, nonce).value;
    var x := Xor(pad, g.serializePk(serverPk) + e.Serialize());
    MaskedCanonical(h.nh, g.npk, x);
    var (m, rest) := DeserializeTakeMasked(h.nh, g.npk, x).value;
    assert rest == [] && m.Serialize() + rest == m.Serialize();
  }

  lemma XorCancels(p: byte, q: byte, d: byte)
    requires p ^ d == q ^ d
    ensures p == q
  {
    XorByte(d, p);
    XorByte(d, q);
  }

  lemma PadsEqual(masked: Bytes, plain: Bytes, pad: Bytes, pad': Bytes)
    requires |masked| == |plain| == |pad| == |pad'|
    requires forall i :: 0 <= i < |masked| ==> masked[i] == pad[i] ^ plain[i]
    requires forall i :: 0 <= i < |masked| ==> masked[i] == pad'[i] ^ plain[i]
    ensures pad == pad'
  {
    forall i | 0 <= i < |pad|
      ensures pad[i] == pad'[i]
    {
      XorCancels(pad[i], pad'[i], plain[i]);
    }
  }

  /**
   One record masked twice to the same bytes was masked under one key and one nonce, or the inputs of the two first
   blocks of the pads collide: no pad is used again.
   */
  lemma MaskBinds(h: HashFn, g: Group, key: Bytes, nonce: Bytes, key': Bytes, nonce': Bytes, serverPk: PublicKey,
                  e: Env.Envelope)
    requires h.Lawful() && e.WellFormed(h) && |g.serializePk(serverPk)| == g.npk
    requires |key| == |key'| == h.nh
    requires MaskSpec(h, g, key, nonce, serverPk, e).Ok?
    requires MaskSpec(h, g, key, nonce, serverPk, e) == MaskSpec(h, g, key', nonce', serverPk, e)
    ensures || (key == key' && nonce == nonce')
            || h.HmacCollision(key, nonce + Ascii("CredentialResponsePad") + [1],
                               key', nonce' + Ascii("CredentialResponsePad") + [1])
  {
    var blocks, pad := MaskIsXor(h, g, key, nonce, serverPk, e);
    var blocks', pad' := MaskIsXor(h, g, key', nonce', serverPk, e);
    PadsEqual(MaskSpec(h, g, key, nonce, serverPk, e).value.Serialize(), Plaintext(g, serverPk, e), pad, pad');
    var suffix := Ascii("CredentialResponsePad");
    FirstBlock(h, key, nonce + suffix, |pad|, blocks, pad, h.nh);
    FirstBlock(h, key', nonce' + suffix, |pad|, blocks', pad', h.nh);
    if key == key' && nonce + suffix + [1] == nonce' + suffix + [1] {
      LabelledEqual(nonce, nonce', suffix);
    }
  }

  /**
   Unmasking returns the server key and the envelope that were masked, although the pad is cut into
   nonce, hash and key while the plaintext is a key, a nonce and a hash. The mode comes back as internal.
   */
  lemma UnmaskAfterMask(h: HashFn, g: Group, key: Bytes, nonce: Bytes, serverPk: PublicKey, e: Env.Envelope)
    requires h.Lawful() && g.Lawful() && g.validPk(serverPk) && e.WellFormed(h)
    requires MaskSpec(h, g, key, nonce, serverPk, e).Ok?
    ensures UnmaskSpec(h, g, key, nonce, MaskSpec(h, g, key, nonce, serverPk, e).value)
         == Ok((serverPk, e.(mode := Env.Internal)))
  {
    var pad := Pad(h, g, key, nonce).value;
    var plain := g.serializePk(serverPk) + e.Serialize();
    var masked := MaskSpec(h, g, key, nonce, serverPk, e).value;
    MaskedCanonical(h.nh, g.npk, Xor(pad, plain));
    assert masked.Serialize() + [] == masked.Serialize();
    assert Xor(pad, plain) == masked.Serialize();
    XorTwice(pad, plain);
    PkRoundTrip(g, serverPk, e.Serialize());
    assert e.Serialize() + [] == e.Serialize();
    Env.EnvelopeRoundTrip(h, e, []);
  }

  /** The round trip also holds for a response that travelled as bytes. */
  lemma UnmaskAfterWire(h: HashFn, g: Group, key: Bytes, nonce: Bytes, serverPk: PublicKey, e: Env.Envelope,
                        rest: Bytes)
    requires h.Lawful() && g.Lawful() && g.validPk(serverPk) && e.WellFormed(h)
    requires MaskSpec(h, g, key, nonce, serverPk, e).Ok?
    ensures var wire := MaskSpec(h, g, key, nonce, serverPk, e).value.Serialize() + rest;
            var parsed := DeserializeTakeMasked(h.nh, g.npk, wire);
            && parsed.Ok? && parsed.value.1 == rest
            && UnmaskSpec(h, g, key, nonce, parsed.value.0) == Ok((serverPk, e.(mode := Env.Internal)))
  {
    MaskOk(h, g, key, nonce, serverPk, e);
    MaskedRoundTrip(h.nh, g.npk, MaskSpec(h, g, key, nonce, serverPk, e).value, rest);
    UnmaskAfterMask(h, g, key, nonce, serverPk, e);
  }

  /** Whatever is unmasked, the only failure besides a key-schedule error is a public key that does not parse. */
  lemma UnmaskErrors(h: HashFn, g: Group, key: Bytes, nonce: Bytes, masked: MaskedResponse)
    requires h.Lawful() && g.Lawful() && h.nh <= |key| && MaskedLen(h, g) <= 255 * h.nh
    ensures var u := UnmaskSpec(h, g, key, nonce, masked);
            match u
            case Ok((pk, e)) => g.validPk(pk) && e.mode == Env.Internal && e.WellFormed(h)
            case Err(error) => error == SerializationError
  {
    var plain := Xor(Pad(h, g, key, nonce).value, masked.Serialize());
    var parsed := DeserializeTakePk(g, plain);
    if parsed.Ok? {
      PkCanonical(g, plain);
      Env.EnvelopeCanonical(h, parsed.value.1);
    }
  }
}
