/**
 HKDF (RFC 5869) on top of HMAC, the HSM-side expand loop of tests/remote_key.rs,
 and the labelled key schedule of src/key_exchange/shared.rs.
 */
module Hkdf {
  import opened Arithmetic
  import opened Errors
  import opened Serialization
  import opened Primitives

  /** T(i) of section 2.3 of RFC 5869. */
  function Block(h: HashFn, prk: Bytes, info: Bytes, i: nat): (t: Bytes)
    requires i <= 255
  {
    if i == 0 then [] else h.hmac(prk, Block(h, prk, info, i - 1) + info + [i as byte])
  }

  /** T(1) | T(2) | ... | T(n). */
  function Blocks(h: HashFn, prk: Bytes, info: Bytes, n: nat): (okm: Bytes)
    requires n <= 255 && h.Lawful()
    ensures |okm| == n * h.nh
  {
    if n == 0 then [] else Blocks(h, prk, info, n - 1) + Block(h, prk, info, n)
  }

  /** How many blocks cover `len` bytes. */
  function BlockCount(len: nat, nh: nat): nat
    requires nh > 0
  {
    (len + nh - 1) / nh
  }

  lemma BlockCountCovers(len: nat, nh: nat)
    requires nh > 0
    ensures len <= BlockCount(len, nh) * nh
    ensures len <= 255 * nh ==> BlockCount(len, nh) <= 255
  {
    Parts(len + nh - 1, nh);
    if BlockCount(len, nh) >= 256 {
      TimesMonotone(256, BlockCount(len, nh), nh);
    }
  }

  /** `Hkdf::from_prk(prk).expand(info, okm)`: the key must not be short, the output at most 255 blocks. */
  function Expand(h: HashFn, prk: Bytes, info: Bytes, len: nat): (r: Result<Bytes>)
    requires h.Lawful()
    ensures r.Ok? <==> h.nh <= |prk| && len <= 255 * h.nh
    ensures r.Ok? ==> |r.value| == len
    ensures r.Err? ==> r == Err(LibraryError(HkdfError))
  {
    if |prk| < h.nh || len > 255 * h.nh then Err(LibraryError(HkdfError))
    else
      BlockCountCovers(len, h.nh);
      Ok(Blocks(h, prk, info, BlockCount(len, h.nh))[..len])
  }

  /** Every block is the HMAC of the one before it, the info and its number counted from one. */
  ghost predicate Chain(h: HashFn, prk: Bytes, info: Bytes, blocks: seq<Bytes>) {
    && |blocks| <= 255
    && (|blocks| > 0 ==> blocks[0] == h.hmac(prk, info + [1]))
    && (forall i :: 1 <= i < |blocks| ==> blocks[i] == h.hmac(prk, blocks[i - 1] + info + [(i + 1) as byte]))
  }

  /** This is the output of that length: the front of the blocks, the last of which is needed. */
  ghost predicate OutputOf(h: HashFn, prk: Bytes, info: Bytes, len: nat, blocks: seq<Bytes>, okm: Bytes) {
    && Chain(h, prk, info, blocks)
    && len <= |blocks| * h.nh < len + h.nh
    && |Flatten(blocks)| == |blocks| * h.nh
    && okm == Flatten(blocks)[..len]
  }

  /** The first blocks of the output stream. */
  function BlockList(h: HashFn, prk: Bytes, info: Bytes, n: nat): (blocks: seq<Bytes>)
    requires n <= 255
    ensures |blocks| == n
    ensures forall i :: 0 <= i < n ==> blocks[i] == Block(h, prk, info, i + 1)
  {
    seq(n, i requires 0 <= i < n => Block(h, prk, info, i + 1))
  }

  lemma {:induction false} BlocksFlat(h: HashFn, prk: Bytes, info: Bytes, n: nat)
    requires n <= 255 && h.Lawful()
    ensures Flatten(BlockList(h, prk, info, n)) == Blocks(h, prk, info, n)
  {
    if n > 0 {
      var front := BlockList(h, prk, info, n - 1);
      BlocksFlat(h, prk, info, n - 1);
      var last := Block(h, prk, info, n);
      assert BlockList(h, prk, info, n) == front + [last];
      FlattenCat(front, [last]);
      FlattenOne(last);
    }
  }

  /** HKDF-Expand is section 2.3 of RFC 5869: chained HMAC blocks, cut to the length. */
  lemma ExpandIsChain(h: HashFn, prk: Bytes, info: Bytes, len: nat) returns (blocks: seq<Bytes>)
    requires h.Lawful() && Expand(h, prk, info, len).Ok?
    ensures OutputOf(h, prk, info, len, blocks, Expand(h, prk, info, len).value)
  {
    BlockCountCovers(len, h.nh);
    Parts(len + h.nh - 1, h.nh);
    blocks := BlockList(h, prk, info, BlockCount(len, h.nh));
    BlocksFlat(h, prk, info, BlockCount(len, h.nh));
    if |blocks| > 0 {
      assert Block(h, prk, info, 1) == h.hmac(prk, Block(h, prk, info, 0) + info + [1 as byte]);
      assert Block(h, prk, info, 0) + info == info;
    }
    forall i | 1 <= i < |blocks|
      ensures blocks[i] == h.hmac(prk, blocks[i - 1] + info + [(i + 1) as byte])
    {
      assert Block(h, prk, info, i + 1) == h.hmac(prk, Block(h, prk, info, i) + info + [(i + 1) as byte]);
    }
  }

  /** The output starts with the first block, the HMAC of the info and the byte 1. */
  lemma FirstBlock(h: HashFn, prk: Bytes, info: Bytes, len: nat, blocks: seq<Bytes>, okm: Bytes, n: nat)
    requires h.Lawful() && OutputOf(h, prk, info, len, blocks, okm) && n <= len && n <= h.nh
    ensures okm[..n] == h.hmac(prk, info + [1])[..n]
  {
    if |blocks| > 0 {
      var first, rest := blocks[0], Flatten(blocks[1..]);
      FlattenCat([first], blocks[1..]);
      FlattenOne(first);
      assert blocks == [first] + blocks[1..];
      assert okm[..n] == (first + rest)[..len][..n] == first[..n];
    }
  }

  /** Infos that differ in front of one label also differ with it. */
  lemma LabelledEqual(front: Bytes, front': Bytes, name: Bytes)
    requires front + name + [1] == front' + name + [1]
    ensures front == front'
  {
    assert |front| == |front'|;
    assert (front + name + [1])[..|front|] == front;
    assert (front' + name + [1])[..|front'|] == front';
  }

  /** One turn of the loop below: a full or a last, short chunk continues the output stream. */
  lemma ChunkStep(h: HashFn, prk: Bytes, info: Bytes, blockN: nat, filled: Bytes, chunkLen: nat)
    requires h.Lawful() && blockN < 255 && chunkLen <= h.nh
    requires filled == Blocks(h, prk, info, blockN)
    ensures |filled| == blockN * h.nh && |filled| + chunkLen <= (blockN + 1) * h.nh
    ensures filled + Block(h, prk, info, blockN + 1)[..chunkLen]
         == Blocks(h, prk, info, blockN + 1)[..|filled| + chunkLen]
  {
    assert (blockN + 1) * h.nh == blockN * h.nh + h.nh;
  }

  /** While less than `len` is filled by whole blocks, another block is due. */
  lemma AnotherBlock(len: nat, nh: nat, blockN: nat)
    requires nh > 0
    ensures blockN * nh < len <==> blockN < BlockCount(len, nh)
  {
    var c := BlockCount(len, nh);
    Parts(len + nh - 1, nh);
    Distribute(blockN, 1, nh);
    if blockN < c {
      TimesMonotone(blockN + 1, c, nh);
    } else {
      TimesMonotone(c, blockN, nh);
    }
  }

  /**
   When the loop below does not panic: at most 255 blocks, and not exactly 255 in a build with overflow checks, because
   the byte-sized range of block numbers is asked for one more number than there are blocks.
   */
  predicate Pkcs11Fits(overflowChecks: bool, len: nat, nh: nat)
    requires nh > 0
  {
    len <= 255 * nh && !(overflowChecks && BlockCount(len, nh) == 255)
  }

  /**
   HKDF-Expand by hand over an HSM's HMAC: chunks of the output buffer are filled from the front,
   each from the previous HMAC output, the info and a counter; the last chunk may be short.
   */
  method Pkcs11Hkdf(h: HashFn, key: Bytes, info: Bytes, len: nat, overflowChecks: bool) returns (r: Result<Bytes>)
    requires h.Lawful()
    ensures r.Ok? <==> Pkcs11Fits(overflowChecks, len, h.nh)
    ensures r.Ok? && h.nh <= |key| ==> r == Expand(h, key, info, len)
    ensures r.Err? ==> r == Err(Panic)
  {
    if len > h.nh * 255 {
      return Err(Panic);
    }
    BlockCountCovers(len, h.nh);
    ghost var count := BlockCount(len, h.nh);
    var okm := new byte[len];
    var prev: Option<Bytes> := None;
    var next: nat := 0;
    var at: nat := 0;
    AnotherBlock(len, h.nh, 0);
    while at < len
      invariant at <= len && next <= count
      invariant at < len ==> at == next * h.nh && next < count
      invariant at == len ==> next == count
      invariant prev == if next == 0 then None else Some(Block(h, key, info, next))
      invariant at <= next * h.nh && okm[..at] == Blocks(h, key, info, next)[..at]
      decreases len - at
    {
      var blockN := next;
      next := blockN + 1;
      var data := (if prev.Some? then prev.value else []) + info + [(blockN + 1) as byte];
      var output := h.hmac(key, data);
      assert output == Block(h, key, info, blockN + 1);
      var chunkLen := if len - at < h.nh then len - at else h.nh;
      ghost var filled := okm[..at];
      ChunkStep(h, key, info, blockN, filled, chunkLen);
      CopyFromSlice(okm, at, output[..chunkLen]);
      assert okm[..at + chunkLen] == filled + output[..chunkLen];
      prev := Some(output);
      at := at + chunkLen;
      AnotherBlock(len, h.nh, next);
    }
    // zip steps the range of block numbers once more before it finds no chunk
    if next == 255 && overflowChecks {
      return Err(Panic);
    }
    assert okm[..] == okm[..len];
    r := Ok(okm[..]);
  }

  /** HKDF-Extract without a salt: the salt is a block of zeros, section 2.2 of RFC 5869. */
  function Extract(h: HashFn, ikm: Bytes): Bytes {
    h.hmac(seq(h.nh, _ => 0), ikm)
  }

  // ---------------------------------------------------------------------
  // Labelled expansion
  // ---------------------------------------------------------------------

  const STR_OPAQUE: Bytes := Ascii("OPAQUE-")
  const STR_CLIENT_MAC: Bytes := Ascii("ClientMAC")
  const STR_SERVER_MAC: Bytes := Ascii("ServerMAC")
  const STR_HANDSHAKE_SECRET: Bytes := Ascii("HandshakeSecret")
  const STR_SESSION_KEY: Bytes := Ascii("SessionKey")

  /** The info string of a labelled expansion, or an error when a length does not fit its field. */
  function LabelInfo(nh: nat, name: Bytes, context: Bytes): Result<Bytes> {
    var length :- I2osp(nh, 2);
    var nameLength :- I2osp(|STR_OPAQUE| + |name|, 1);
    var contextLen :- I2osp(|context|, 1);
    Ok(length + (nameLength + (STR_OPAQUE + (name + (contextLen + context)))))
  }

  function ExpandLabel(h: HashFn, secret: Bytes, name: Bytes, context: Bytes): Result<Bytes>
    requires h.Lawful()
  {
    var info :- LabelInfo(h.nh, name, context);
    Expand(h, secret, info, h.nh)
  }

  /** Reads the output length, the label and the context back from an info string. */
  function DecodeLabelInfo(info: Bytes): Option<(nat, Bytes, Bytes)> {
    if |info| < 3 then None
    else
      var nh := BeValue(info[..2]);
      var nameLen := info[2..][0] as int;
      var rest := info[2..][1..];
      if nameLen < |STR_OPAQUE| || |rest| < nameLen + 1 then None
      else
        var name := rest[|STR_OPAQUE|..nameLen];
        var tail := rest[nameLen..];
        if rest[..|STR_OPAQUE|] != Ascii("OPAQUE-") || |tail[1..]| != tail[0] as int then None
        else Some((nh, name, tail[1..]))
  }

  lemma DecodeParts(length: Bytes, l: byte, name: Bytes, c: byte, context: Bytes)
    requires |length| == 2 && l as int == |STR_OPAQUE| + |name| && c as int == |context|
    ensures DecodeLabelInfo(length + ([l] + (STR_OPAQUE + (name + ([c] + context))))) ==
            Some((BeValue(length), name, context))
  {
    var tail := [c] + context;
    var rest := STR_OPAQUE + (name + tail);
    TakeCat(length, [l] + rest, "");
    TakeCat([l], rest, "");
    CatAssoc(STR_OPAQUE, name, tail);
    TakeCat(STR_OPAQUE + name, tail, "");
    TakeCat(STR_OPAQUE, name + tail, "");
    assert rest[|STR_OPAQUE|..|STR_OPAQUE| + |name|] == name;
    assert tail[1..] == context;
  }

  /** The info string determines the output length, the label and the context. */
  lemma LabelInfoUnique(nh: nat, name: Bytes, context: Bytes)
    requires LabelInfo(nh, name, context).Ok?
    ensures DecodeLabelInfo(LabelInfo(nh, name, context).value) == Some((nh, name, context))
  {
    I2ospTwo(nh);
    I2ospOne(|STR_OPAQUE| + |name|);
    I2ospOne(|context|);
    OctetConversionsInverse(nh, 2, []);
    IntRoundTrip(|STR_OPAQUE| + |name|);
    IntRoundTrip(|context|);
    DecodeParts(I2osp(nh, 2).value, (|STR_OPAQUE| + |name|) as byte, name, |context| as byte, context);
  }

  /** Expanding to one block is a single HMAC. */
  lemma ExpandOneBlock(h: HashFn, prk: Bytes, info: Bytes)
    requires h.Lawful() && h.nh <= |prk|
    ensures Expand(h, prk, info, h.nh) == Ok(h.hmac(prk, info + [1]))
  {
    assert Block(h, prk, info, 1) == h.hmac(prk, Block(h, prk, info, 0) + info + [1 as byte]);
    assert Block(h, prk, info, 0) + info == info;
    var one := h.hmac(prk, info + [1]);
    assert Blocks(h, prk, info, 1) == Blocks(h, prk, info, 0) + Block(h, prk, info, 1) == one;
    assert BlockCount(h.nh, h.nh) == 1;
    assert one[..h.nh] == one;
  }

  lemma LabelInfoOk(h: HashFn, name: Bytes, context: Bytes)
    requires h.Lawful()
    requires |name| <= 15 && |context| <= 255
    ensures LabelInfo(h.nh, name, context).Ok?
  {
    I2ospTwo(h.nh);
    I2ospOne(|STR_OPAQUE| + |name|);
    I2ospOne(|context|);
  }

  /** A labelled expansion to one block is a single HMAC, and it succeeds when the context fits one byte. */
  lemma ExpandLabelIsHmac(h: HashFn, secret: Bytes, name: Bytes, context: Bytes)
    requires h.Lawful() && h.nh <= |secret|
    requires |name| <= 15 && |context| <= 255
    ensures LabelInfo(h.nh, name, context).Ok?
    ensures ExpandLabel(h, secret, name, context)
         == Ok(h.hmac(secret, LabelInfo(h.nh, name, context).value + [1]))
  {
    LabelInfoOk(h, name, context);
    ExpandOneBlock(h, secret, LabelInfo(h.nh, name, context).value);
  }

  datatype DerivedKeys = DerivedKeys(sessionKey: Bytes, km2: Bytes, km3: Bytes)

  /** The key schedule after extraction: a handshake secret, the session key and two MAC keys. */
  function KeysFromPrk(h: HashFn, prk: Bytes, transcriptHash: Bytes): Result<DerivedKeys>
    requires h.Lawful()
  {
    var handshakeSecret :- ExpandLabel(h, prk, STR_HANDSHAKE_SECRET, transcriptHash);
    var sessionKey :- ExpandLabel(h, prk, STR_SESSION_KEY, transcriptHash);
    var km2 :- ExpandLabel(h, handshakeSecret, STR_SERVER_MAC, []);
    var km3 :- ExpandLabel(h, handshakeSecret, STR_CLIENT_MAC, []);
    Ok(DerivedKeys(sessionKey, km2, km3))
  }

  function DeriveKeysSpec(h: HashFn, ikms: seq<Bytes>, transcriptHash: Bytes): Result<DerivedKeys>
    requires h.Lawful()
  {
    KeysFromPrk(h, Extract(h, Flatten(ikms)), transcriptHash)
  }

  /** Feeds the shared secrets one by one to the extractor, then runs the key schedule. */
  method DeriveKeys(h: HashFn, ikms: seq<Bytes>, transcriptHash: Bytes) returns (r: Result<DerivedKeys>)
    requires h.Lawful()
    ensures r == DeriveKeysSpec(h, ikms, transcriptHash)
  {
    var extractor := new Absorber();
    for i := 0 to |ikms|
      invariant extractor.data == Flatten(ikms[..i])
    {
      assert ikms[..i + 1] == ikms[..i] + [ikms[i]];
      FlattenCat(ikms[..i], [ikms[i]]);
      FlattenOne(ikms[i]);
      extractor.Update(ikms[i]);
    }
    assert ikms[..|ikms|] == ikms;
    var prk := Extract(h, extractor.data);
    r := KeysFromPrk(h, prk, transcriptHash);
  }

  /** With a transcript hash of at most 255 bytes the key schedule never fails and gives block-sized keys. */
  lemma KeysFromPrkOk(h: HashFn, prk: Bytes, th: Bytes)
    requires h.Lawful() && |prk| == h.nh && |th| <= 255
    ensures KeysFromPrk(h, prk, th).Ok?
    ensures var k := KeysFromPrk(h, prk, th).value;
            |k.sessionKey| == |k.km2| == |k.km3| == h.nh
  {
    ExpandLabelIsHmac(h, prk, STR_HANDSHAKE_SECRET, th);
    ExpandLabelIsHmac(h, prk, STR_SESSION_KEY, th);
    var hs := ExpandLabel(h, prk, STR_HANDSHAKE_SECRET, th).value;
    ExpandLabelIsHmac(h, hs, STR_SERVER_MAC, []);
    ExpandLabelIsHmac(h, hs, STR_CLIENT_MAC, []);
  }

  /** Handshake secret, session key and MAC keys as single HMACs under fixed, labelled inputs. */
  lemma KeysAreHmacs(h: HashFn, prk: Bytes, th: Bytes) returns (handshakeSecret: Bytes)
    requires h.Lawful() && |prk| == h.nh && |th| == h.nh
    ensures KeysFromPrk(h, prk, th).Ok?
    ensures LabelInfo(h.nh, STR_HANDSHAKE_SECRET, th).Ok? && LabelInfo(h.nh, STR_SESSION_KEY, th).Ok?
    ensures LabelInfo(h.nh, STR_CLIENT_MAC, []).Ok? && LabelInfo(h.nh, STR_SERVER_MAC, []).Ok?
    ensures |handshakeSecret| == h.nh
    ensures handshakeSecret == h.hmac(prk, LabelInfo(h.nh, STR_HANDSHAKE_SECRET, th).value + [1])
    ensures KeysFromPrk(h, prk, th).value ==
            DerivedKeys(h.hmac(prk, LabelInfo(h.nh, STR_SESSION_KEY, th).value + [1]),
                        h.hmac(handshakeSecret, LabelInfo(h.nh, STR_SERVER_MAC, []).value + [1]),
                        h.hmac(handshakeSecret, LabelInfo(h.nh, STR_CLIENT_MAC, []).value + [1]))
  {
    ExpandLabelIsHmac(h, prk, STR_HANDSHAKE_SECRET, th);
    ExpandLabelIsHmac(h, prk, STR_SESSION_KEY, th);
    handshakeSecret := ExpandLabel(h, prk, STR_HANDSHAKE_SECRET, th).value;
    ExpandLabelIsHmac(h, handshakeSecret, STR_SERVER_MAC, []);
    ExpandLabelIsHmac(h, handshakeSecret, STR_CLIENT_MAC, []);
  }
}
