/** Byte strings, I2OSP / OS2IP and the consuming parsers (src/serialization/mod.rs). */
module Serialization {
  import opened Errors

  type byte = bv8
  type Bytes = seq<byte>

  // ---------------------------------------------------------------------
  // Numbers as big-endian byte strings
  // ---------------------------------------------------------------------

  function Pow256(n: nat): (p: nat)
    ensures p > 0
  {
    if n == 0 then 1 else 256 * Pow256(n - 1)
  }

  /** The big-endian value of a byte string, sections 4.1 and 4.2 of RFC 8017. */
  function BeValue(b: Bytes): nat {
    if b == [] then 0 else 256 * BeValue(b[..|b| - 1]) + b[|b| - 1] as int
  }

  /** The last `len` base-256 digits of `n`, most significant first. */
  function BeDigits(n: nat, len: nat): (b: Bytes)
    ensures |b| == len
  {
    if len == 0 then [] else BeDigits(n / 256, len - 1) + [(n % 256) as byte]
  }

  lemma {:induction false} BeValueBound(b: Bytes)
    ensures BeValue(b) < Pow256(|b|)
  {
    if b != [] {
      BeValueBound(b[..|b| - 1]);
    }
  }

  /** A byte string is the digits of its own value. */
  lemma {:induction false} DigitsOfValue(b: Bytes)
    ensures BeDigits(BeValue(b), |b|) == b
  {
    if b != [] {
      var front, last := b[..|b| - 1], b[|b| - 1];
      DigitsOfValue(front);
      AppendDigit(BeValue(front), last, |front|);
      assert b == front + [last];
    }
  }

  /** The value of the digits is the number, when the number fits. */
  lemma {:induction false} ValueOfDigits(n: nat, len: nat)
    requires n < Pow256(len)
    ensures BeValue(BeDigits(n, len)) == n
  {
    if len > 0 {
      var b := BeDigits(n, len);
      ValueOfDigits(n / 256, len - 1);
      assert b[..len - 1] == BeDigits(n / 256, len - 1);
      IntRoundTrip(n % 256);
    }
  }

  lemma DivMod256(q: nat, r: nat)
    requires r < 256
    ensures (256 * q + r) / 256 == q && (256 * q + r) % 256 == r
  {
  }

  lemma ByteRoundTrip(x: byte)
    ensures (x as int) as byte == x
  {
  }

  /** One more digit of one more byte. */
  lemma AppendDigit(n: nat, x: byte, len: nat)
    ensures BeDigits(256 * n + x as int, len + 1) == BeDigits(n, len) + [x]
  {
    DivMod256(n, x as int);
    ByteRoundTrip(x);
  }

  lemma Increment(x: byte)
    requires x as int < 255
    ensures (x + 1) as int == x as int + 1
  {
  }

  /** Every number below 256 is the value of a byte. */
  lemma {:induction false} ByteFor(n: nat) returns (x: byte)
    requires n < 256
    ensures x as int == n
  {
    if n == 0 {
      x := 0;
    } else {
      x := ByteFor(n - 1);
      Increment(x);
      x := x + 1;
    }
  }

  lemma IntRoundTrip(n: nat)
    requires n < 256
    ensures (n as byte) as int == n
  {
    var x := ByteFor(n);
    ByteRoundTrip(x);
  }

  /** I2OSP: the number as exactly `len` bytes, or an error when it does not fit. */
  function I2osp(n: nat, len: nat): Result<Bytes> {
    if n < Pow256(len) then Ok(BeDigits(n, len)) else Err(SerializationError)
  }

  function Pow2(n: nat): (p: nat)
    ensures p > 0
  {
    if n == 0 then 1 else 2 * Pow2(n - 1)
  }

  /** The number of leading zero bits of `n` in a word of `bits` bits. */
  function LeadingZeros(n: nat, bits: nat): (z: nat)
    ensures z <= bits
  {
    if bits == 0 || n >= Pow2(bits - 1) then 0 else 1 + LeadingZeros(n, bits - 1)
  }

  lemma {:induction false} Pow2Monotone(a: nat, b: nat)
    requires a <= b
    ensures Pow2(a) <= Pow2(b)
    decreases b
  {
    if a < b {
      Pow2Monotone(a, b - 1);
    }
  }

  lemma {:induction false} PowBits(k: nat)
    ensures Pow2(8 * k) == Pow256(k)
  {
    if k > 0 {
      PowBits(k - 1);
      var m := 8 * (k - 1);
      assert Pow2(m + 8) == 2 * Pow2(m + 7) == 4 * Pow2(m + 6) == 8 * Pow2(m + 5) == 16 * Pow2(m + 4);
      assert Pow2(m + 4) == 2 * Pow2(m + 3) == 4 * Pow2(m + 2) == 8 * Pow2(m + 1) == 16 * Pow2(m);
    }
  }

  /** A number needs exactly `bits - LeadingZeros` bits. */
  lemma {:induction false} LeadingZerosExact(n: nat, bits: nat)
    requires n < Pow2(bits)
    ensures n < Pow2(bits - LeadingZeros(n, bits))
    ensures LeadingZeros(n, bits) < bits ==> Pow2(bits - LeadingZeros(n, bits) - 1) <= n
  {
    if bits > 0 && n < Pow2(bits - 1) {
      LeadingZerosExact(n, bits - 1);
    }
  }

  /** The source's size test, on the leading zero bytes of a machine word, is the range test of the standard. */
  lemma {:induction false} SizeTestIsRangeTest(input: nat, wordBytes: nat, len: nat)
    requires input < Pow256(wordBytes)
    ensures LeadingZeros(input, 8 * wordBytes) / 8 <= wordBytes
    ensures wordBytes - LeadingZeros(input, 8 * wordBytes) / 8 <= len <==> input < Pow256(len)
  {
    PowBits(wordBytes);
    PowBits(len);
    LeadingZerosExact(input, 8 * wordBytes);
    var bits := 8 * wordBytes - LeadingZeros(input, 8 * wordBytes);
    if bits <= 8 * len {
      Pow2Monotone(bits, 8 * len);
    } else {
      Pow2Monotone(8 * len, bits - 1);
    }
  }

  /** `dst[at..at + |src|].copy_from_slice(src)`. */
  method CopyFromSlice(dst: array<byte>, at: nat, src: Bytes)
    requires at + |src| <= dst.Length
    modifies dst
    ensures dst[..] == old(dst[..])[..at] + src + old(dst[..])[at + |src|..]
  {
    for i := 0 to |src|
      invariant forall k :: 0 <= k < dst.Length && !(at <= k < at + i) ==> dst[k] == old(dst[k])
      invariant forall k :: 0 <= k < i ==> dst[at + k] == src[k]
    {
      dst[at + i] := src[i];
    }
  }

  function SaturatingSub(a: nat, b: nat): nat {
    if a < b then 0 else a - b
  }

  lemma {:induction false} LeadingDigitsZero(n: nat, short: nat, long: nat)
    requires short <= long && n < Pow256(short)
    ensures BeDigits(n, long) == seq(long - short, _ => 0) + BeDigits(n, short)
    decreases short, long
  {
    if short == 0 {
      if long > 0 {
        LeadingDigitsZero(0, 0, long - 1);
      }
    } else {
      LeadingDigitsZero(n / 256, short - 1, long - 1);
    }
  }

  /** I2OSP as the source computes it from a word of `wordBytes` bytes, for outputs shorter or longer than the word. */
  method I2ospBuffer(input: nat, wordBytes: nat, len: nat) returns (r: Result<Bytes>)
    requires input < Pow256(wordBytes)
    ensures r == I2osp(input, len)
    ensures r.Ok? ==> |r.value| == len && BeValue(r.value) == input
  {
    SizeTestIsRangeTest(input, wordBytes, len);
    if wordBytes - LeadingZeros(input, 8 * wordBytes) / 8 > len {
      return Err(SerializationError);
    }
    var output := new byte[len](_ => 0);
    var word := BeDigits(input, wordBytes);
    CopyFromSlice(output, SaturatingSub(len, wordBytes), word[SaturatingSub(wordBytes, len)..]);
    ValueOfDigits(input, len);
    if len < wordBytes {
      LeadingDigitsZero(input, len, wordBytes);
      assert word[wordBytes - len..] == BeDigits(input, len);
      assert output[..] == BeDigits(input, len);
    } else {
      LeadingDigitsZero(input, wordBytes, len);
      assert word[0..] == word;
      assert output[..] == BeDigits(input, len);
    }
    r := Ok(output[..]);
  }

  lemma {:induction false} LeadingZeroBytes(pad: nat, b: Bytes)
    ensures BeValue(seq(pad, _ => 0) + b) == BeValue(b)
    decreases pad + |b|
  {
    var zeros: Bytes := seq(pad, _ => 0);
    var whole := zeros + b;
    if b != [] {
      assert whole[..|whole| - 1] == zeros + b[..|b| - 1];
      LeadingZeroBytes(pad, b[..|b| - 1]);
    } else if pad > 0 {
      assert whole[..|whole| - 1] == seq(pad - 1, _ => 0) + b;
      LeadingZeroBytes(pad - 1, b);
    }
  }

  /** OS2IP through a zeroed word buffer; only inputs up to the word size are accepted. */
  method Os2ip(input: Bytes, wordBytes: nat) returns (r: Result<nat>)
    ensures r == if |input| <= wordBytes then Ok(BeValue(input)) else Err(SerializationError)
  {
    if |input| > wordBytes {
      return Err(SerializationError);
    }
    var word := new byte[wordBytes](_ => 0);
    CopyFromSlice(word, wordBytes - |input|, input);
    LeadingZeroBytes(wordBytes - |input|, input);
    assert word[..] == seq(wordBytes - |input|, _ => 0) + input;
    r := Ok(BeValue(word[..]));
  }

  /** OS2IP inverts I2OSP on everything I2OSP accepts, and I2OSP inverts OS2IP at the input's own length. */
  lemma {:induction false} OctetConversionsInverse(n: nat, len: nat, b: Bytes)
    ensures I2osp(n, len).Ok? <==> n < Pow256(len)
    ensures I2osp(n, len).Ok? ==> |I2osp(n, len).value| == len && BeValue(I2osp(n, len).value) == n
    ensures I2osp(BeValue(b), |b|) == Ok(b)
  {
    if n < Pow256(len) {
      ValueOfDigits(n, len);
    }
    BeValueBound(b);
    DigitsOfValue(b);
  }

  // ---------------------------------------------------------------------
  // Consuming parsers
  // ---------------------------------------------------------------------

  /** `take_array`: the first `len` bytes and what is left, or a size error. */
  function TakeArray(input: Bytes, len: nat, name: string): Result<(Bytes, Bytes)> {
    if len > |input| then Err(SizeError(name, len, |input|))
    else Ok((input[..len], input[len..]))
  }

  /** The slice a parser advances: a fixed buffer and an offset into it. */
  class Reader {
    const buf: Bytes
    var off: nat

    ghost predicate Valid()
      reads this
    {
      off <= |buf|
    }

    ghost function Rest(): Bytes
      requires Valid()
      reads this
    {
      buf[off..]
    }

    constructor (buf: Bytes)
      ensures Valid() && Rest() == buf && this.buf == buf
    {
      this.buf := buf;
      off := 0;
    }

    function Left(): (n: nat)
      requires Valid()
      reads this
      ensures n == |Rest()|
    {
      |buf| - off
    }

    method Take(len: nat, name: string) returns (r: Result<Bytes>)
      requires Valid()
      modifies this
      ensures Valid()
      ensures match TakeArray(old(Rest()), len, name)
              case Ok((front, back)) => r == Ok(front) && Rest() == back
              case Err(e) => r == Err(e) && Rest() == old(Rest())
    {
      if len > |buf| - off {
        return Err(SizeError(name, len, |buf| - off));
      }
      assert Rest()[..len] == buf[off..off + len] && Rest()[len..] == buf[off + len..];
      r := Ok(buf[off..off + len]);
      off := off + len;
    }
  }

  /** Taking what was put in front gives it back and leaves the suffix. */
  lemma TakeCat(a: Bytes, rest: Bytes, name: string)
    ensures TakeArray(a + rest, |a|, name) == Ok((a, rest))
  {
    assert (a + rest)[..|a|] == a;
    assert (a + rest)[|a|..] == rest;
  }

  /** Two strings with equally long heads are equal only part by part. */
  lemma Cancel(a: Bytes, x: Bytes, b: Bytes, y: Bytes)
    requires a + x == b + y && |a| == |b|
    ensures a == b && x == y
  {
    TakeCat(a, x, "");
    TakeCat(b, y, "");
  }

  /** A byte string preceded by its length in two bytes. */
  function Vec16(b: Bytes): (v: Bytes)
  {
    BeDigits(|b|, 2) + b
  }

  /** Reads back a two-byte length and that many bytes. */
  function TakeVec16(input: Bytes): Result<(Bytes, Bytes)> {
    var (length, rest) :- TakeArray(input, 2, "length");
    TakeArray(rest, BeValue(length), "value")
  }

  lemma {:induction false} TakeVec16Cat(b: Bytes, rest: Bytes)
    requires |b| < 0x1_0000
    ensures TakeVec16(Vec16(b) + rest) == Ok((b, rest))
  {
    assert Pow256(2) == 256 * Pow256(1) == 256 * (256 * Pow256(0));
    ValueOfDigits(|b|, 2);
    CatAssoc(BeDigits(|b|, 2), b, rest);
    TakeCat(BeDigits(|b|, 2), b + rest, "length");
    TakeCat(b, rest, "value");
  }

  lemma {:induction false} I2ospTwo(n: nat)
    ensures I2osp(n, 2) == if n < 0x1_0000 then Ok(BeDigits(n, 2)) else Err(SerializationError)
  {
    assert Pow256(2) == 256 * Pow256(1) == 256 * (256 * Pow256(0));
  }

  lemma {:induction false} I2ospOne(n: nat)
    ensures I2osp(n, 1) == if n < 256 then Ok([n as byte]) else Err(SerializationError)
  {
    assert Pow256(1) == 256 * Pow256(0);
    if n < 256 {
      assert BeDigits(n, 1) == BeDigits(n / 256, 0) + [(n % 256) as byte] == [n as byte];
    }
  }

  // ---------------------------------------------------------------------
  // Chunked input
  // ---------------------------------------------------------------------

  /** What an iterator of slices feeds to a hash or MAC, in order. */
  function Flatten(chunks: seq<Bytes>): Bytes {
    if chunks == [] then [] else chunks[0] + Flatten(chunks[1..])
  }

  lemma {:induction false} FlattenCat(a: seq<Bytes>, b: seq<Bytes>)
    ensures Flatten(a + b) == Flatten(a) + Flatten(b)
  {
    if a == [] {
      assert a + b == b;
    } else {
      assert (a + b)[0] == a[0] && (a + b)[1..] == a[1..] + b;
      FlattenCat(a[1..], b);
    }
  }

  lemma FlattenOne(a: Bytes)
    ensures Flatten([a]) == a
  {
    assert Flatten([a]) == a + Flatten([]);
  }

  lemma FlattenTwo(a: Bytes, b: Bytes)
    ensures Flatten([a, b]) == a + b
  {
    assert [a, b][1..] == [b];
    FlattenOne(b);
  }

  lemma FlattenThree(a: Bytes, b: Bytes, c: Bytes)
    ensures Flatten([a, b, c]) == a + (b + c)
  {
    assert [a, b, c][1..] == [b, c];
    FlattenTwo(b, c);
  }

  lemma CatAssoc(a: Bytes, b: Bytes, c: Bytes)
    ensures (a + b) + c == a + (b + c)
  {
  }

  /** The input side of a hash or MAC object: bytes accumulate until it is finalized. */
  class Absorber {
    var data: Bytes

    constructor ()
      ensures data == []
    {
      data := [];
    }

    constructor FromState(state: Bytes)
      ensures data == state
    {
      data := state;
    }

    method Update(bytes: Bytes)
      modifies this
      ensures data == old(data) + bytes
    {
      data := data + bytes;
    }

    /** `update_iter` and `chain_iter`: one update for each chunk, in order. */
    method UpdateIter(chunks: seq<Bytes>)
      modifies this
      ensures data == old(data) + Flatten(chunks)
    {
      for i := 0 to |chunks|
        invariant data == old(data) + Flatten(chunks[..i])
      {
        assert chunks[..i + 1] == chunks[..i] + [chunks[i]];
        FlattenCat(chunks[..i], [chunks[i]]);
        FlattenOne(chunks[i]);
        Update(chunks[i]);
      }
      assert chunks[..|chunks|] == chunks;
    }
  }
}
