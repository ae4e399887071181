/** Clamped Curve25519 scalars (src/key_exchange/group/curve25519.rs, section 5 of RFC 7748). */
module Curve25519 {
  import opened Errors
  import opened Serialization
  import opened Primitives

  /** The little-endian value of a byte string. */
  function LeValue(b: Bytes): nat {
    if b == [] then 0 else b[0] as int + 256 * LeValue(b[1..])
  }

  lemma {:induction false} LeCat(a: Bytes, b: Bytes)
    ensures LeValue(a + b) == LeValue(a) + Pow256(|a|) * LeValue(b)
  {
    if a == [] {
      assert a + b == b;
    } else {
      assert (a + b)[0] == a[0] && (a + b)[1..] == a[1..] + b;
      LeCat(a[1..], b);
      calc {
        LeValue(a + b);
        a[0] as int + 256 * (LeValue(a[1..]) + Pow256(|a| - 1) * LeValue(b));
        LeValue(a) + 256 * (Pow256(|a| - 1) * LeValue(b));
        { MulAssoc(256, Pow256(|a| - 1), LeValue(b)); }
        LeValue(a) + Pow256(|a|) * LeValue(b);
      }
    }
  }

  lemma MulAssoc(a: int, b: int, c: int)
    ensures a * (b * c) == a * b * c
  {
  }

  lemma {:induction false} LeBound(b: Bytes)
    ensures LeValue(b) < Pow256(|b|)
  {
    if b != [] {
      LeBound(b[1..]);
    }
  }

  /** `clamp_integer`: the three lowest bits and the highest bit cleared, the second highest set. */
  function Clamp(b: Bytes): (c: Bytes)
    requires |b| == 32
    ensures |c| == 32
  {
    [b[0] & 248] + b[1..31] + [(b[31] & 127) | 64]
  }

  lemma LowByte(x: byte)
    ensures (x & 248) as int % 8 == 0
    ensures x as int % 8 == 0 ==> x & 248 == x
  {
  }

  lemma HighByte(x: byte)
    ensures 64 <= ((x & 127) | 64) as int < 128
    ensures 64 <= x as int < 128 ==> (x & 127) | 64 == x
  {
  }

  lemma LastByte(b: Bytes, n: nat)
    requires |b| == n + 1
    ensures LeValue(b[..n]) < Pow256(n) && LeValue(b) == LeValue(b[..n]) + Pow256(n) * b[n] as int
  {
    LeCat(b[..n], [b[n]]);
    LeBound(b[..n]);
    assert b == b[..n] + [b[n]];
    assert LeValue([b[n]]) == b[n] as int + 256 * LeValue([]);
  }

  /** A value decides its lowest three bits and its highest byte. */
  lemma Ends(b: Bytes, n: nat)
    requires |b| == n + 1 && n > 0
    ensures LeValue(b) % 8 == b[0] as int % 8
    ensures 64 * Pow256(n) <= LeValue(b) < 128 * Pow256(n) <==> 64 <= b[n] as int < 128
  {
    LowDigit(b[0] as int, LeValue(b[1..]));
    LastByte(b, n);
    HighDigit(LeValue(b[..n]), Pow256(n), b[n] as int);
  }

  lemma LowDigit(low: nat, rest: nat)
    ensures (low + 256 * rest) % 8 == low % 8
  {
  }

  lemma HighDigit(low: nat, p: nat, high: nat)
    requires low < p
    ensures 64 * p <= low + p * high < 128 * p <==> 64 <= high < 128
  {
    if high < 64 {
      assert p * high <= p * 63;
    } else if high >= 128 {
      assert p * high >= p * 128;
    } else {
      assert p * 64 <= p * high <= p * 127;
    }
  }

  /** The values of section 5 of RFC 7748: multiples of 8 in [2^254, 2^255). */
  predicate Canonical(b: Bytes) {
    |b| == 32 && LeValue(b) % 8 == 0 && Pow2(254) <= LeValue(b) < Pow2(255)
  }

  lemma Powers()
    ensures Pow2(254) == 64 * Pow256(31) && Pow2(255) == 128 * Pow256(31)
  {
    PowBits(31);
    assert Pow2(254) == 2 * Pow2(253) == 4 * Pow2(252) == 8 * Pow2(251) == 16 * Pow2(250);
    assert Pow2(250) == 2 * Pow2(249) == 4 * Pow2(248);
    assert Pow2(255) == 2 * Pow2(254);
  }

  /** The values of section 5 of RFC 7748, by the first and the last byte. */
  lemma CanonicalEnds(b: Bytes)
    requires |b| == 32
    ensures Canonical(b) <==> b[0] as int % 8 == 0 && 64 <= b[31] as int < 128
  {
    Powers();
    Ends(b, 31);
  }

  lemma ClampFixes(b: Bytes)
    requires |b| == 32
    ensures Clamp(b) == b <==> b[0] & 248 == b[0] && (b[31] & 127) | 64 == b[31]
    ensures Clamp(b)[0] == b[0] & 248 && Clamp(b)[31] == (b[31] & 127) | 64
  {
    var low, high := b[0] & 248, (b[31] & 127) | 64;
    assert Clamp(b) == [low] + b[1..31] + [high];
    assert b == [b[0]] + b[1..31] + [b[31]];
  }

  /** Clamping always gives such a value, and changes exactly the strings that are not one already. */
  lemma ClampIsCanonical(b: Bytes)
    requires |b| == 32
    ensures Canonical(Clamp(b))
    ensures Clamp(b) == b <==> Canonical(b)
  {
    LowByte(b[0]);
    HighByte(b[31]);
    CanonicalEnds(b);
    CanonicalEnds(Clamp(b));
    ClampFixes(b);
  }

  datatype Sk = Sk(bytes: Bytes)

  /** `Scalar::from_bytes`: the bytes are accepted when clamping leaves them alone. */
  function FromBytes(bytes: Bytes): Result<Sk>
    requires |bytes| == 32
  {
    var scalar := Clamp(bytes);
    if scalar == bytes then Ok(Sk(scalar)) else Err(SerializationError)
  }

  function DeserializeTakeSk(input: Bytes): Result<(Sk, Bytes)> {
    var (bytes, rest) :- TakeArray(input, 32, "secret key");
    var sk :- FromBytes(bytes);
    Ok((sk, rest))
  }

  function SerializeSk(sk: Sk): Bytes {
    sk.bytes
  }

  function DeriveScalar(seed: Bytes): Result<Sk>
    requires |seed| == 32
  {
    Ok(Sk(Clamp(seed)))
  }

  method RandomSk(rng: TapeRng) returns (sk: Sk)
    modifies rng
    ensures rng.pos == old(rng.pos) + 32
    ensures DeriveScalar(Fill(rng.tape, old(rng.pos), 32)) == Ok(sk)
    ensures Canonical(sk.bytes)
  {
    var scalarBytes := rng.FillBytes(32);
    ClampIsCanonical(scalarBytes);
    sk := Sk(Clamp(scalarBytes));
  }

  /**
   The parser accepts exactly the image of clamping: 32 bytes parse if and only if some seed derives them, if and only
   if their value is a multiple of 8 in [2^254, 2^255).
   */
  lemma ParserAcceptsImage(bytes: Bytes)
    requires |bytes| == 32
    ensures FromBytes(bytes).Ok? <==> Canonical(bytes)
    ensures FromBytes(bytes).Ok? <==> exists seed :: |seed| == 32 && Clamp(seed) == bytes
    ensures FromBytes(bytes).Ok? ==> SerializeSk(FromBytes(bytes).value) == bytes
  {
    ClampIsCanonical(bytes);
    forall seed | |seed| == 32 && Clamp(seed) == bytes
      ensures FromBytes(bytes).Ok?
    {
      ClampIsCanonical(seed);
    }
  }

  /** Every derived or random key survives being stored, in front of any other bytes. */
  lemma DerivedRoundTrips(seed: Bytes, rest: Bytes)
    requires |seed| == 32
    ensures DeserializeTakeSk(SerializeSk(DeriveScalar(seed).value) + rest) == Ok((DeriveScalar(seed).value, rest))
    ensures Canonical(DeriveScalar(seed).value.bytes)
  {
    ClampIsCanonical(seed);
    ClampIsCanonical(Clamp(seed));
    TakeCat(Clamp(seed), rest, "secret key");
  }
}
