/** Compressed ECDH secrets from a module that returns x-coordinates only (tests/remote_key.rs). */
module YParity {
  import opened Arithmetic
  import opened Errors
  import opened Serialization

  /**
   A group of prime order `q`, its elements named by their discrete logarithm to the generator 1: zero is the identity.
   `x` and `odd` are the x-coordinate and the parity of y of the other elements.
   */
  datatype Curve = Curve(
    q: nat,
    x: nat -> Bytes,
    odd: nat -> bool,
    decompress: (Bytes, bool) -> Option<nat>,
    xOfIdentity: Bytes)
  {
    /** Negation keeps x and flips the parity of y; x and the parity determine the point. */
    ghost predicate PointLaws(p: nat) {
      0 < p < q ==> x(q - p) == x(p) && odd(q - p) != odd(p) && decompress(x(p), odd(p)) == Some(p)
    }

    ghost predicate Lawful() {
      q > 2 && IsPrime(q) && (forall p :: PointLaws(p))
    }

    function Add(p: nat, r: nat): (s: nat)
      requires p < q && r < q
      ensures s < q
    {
      if p + r < q then p + r else p + r - q
    }

    function Mul(k: nat, p: nat): (s: nat)
      requires q > 0
      ensures s < q
    {
      (k * p) % q
    }

    /** The affine x-coordinate, which the curve library also gives the identity. */
    function AffineX(p: nat): Bytes {
      if p == 0 then xOfIdentity else x(p)
    }

    function Compressed(p: nat): Bytes {
      [if odd(p) then 3 else 2] + x(p)
    }

    /** The module multiplies by its key and returns x; it refuses the identity, as input or as result. */
    function Derive(sk: nat, p: nat): Option<Bytes>
      requires q > 0
    {
      if p == 0 || Mul(sk, p) == 0 then None else Some(x(Mul(sk, p)))
    }
  }

  // ---------------------------------------------------------------------
  // The shared secret
  // ---------------------------------------------------------------------

  /** Two non-identity elements share their x-coordinate exactly when they are equal or opposite. */
  lemma SameX(c: Curve, p: nat, r: nat)
    requires c.Lawful() && 0 < p < c.q && 0 < r < c.q
    ensures c.x(p) == c.x(r) <==> r == p || r == c.q - p
  {
    assert c.PointLaws(p) && c.PointLaws(r) && c.PointLaws(c.q - p) && c.PointLaws(c.q - r);
  }

  /** The element the even encoding of an x-coordinate stands for. */
  function EvenOf(c: Curve, p: nat): nat
    requires p < c.q
  {
    if c.odd(p) then c.q - p else p
  }

  lemma DecompressEven(c: Curve, p: nat)
    requires c.Lawful() && 0 < p < c.q
    ensures c.decompress(c.x(p), false) == Some(EvenOf(c, p))
  {
    assert c.PointLaws(p) && c.PointLaws(c.q - p);
  }

  /** A nonzero scalar takes no element but the identity to the identity. */
  lemma SecretNotIdentity(c: Curve, sk: nat, p: nat)
    requires c.Lawful() && 0 < sk < c.q && 0 < p < c.q
    ensures c.Mul(sk, p) != 0
  {
    if c.Mul(sk, p) == 0 {
      SmallMod(0, c.q);
      MulInjective(c.q, sk, p, 0);
    }
  }

  /** What is compared with the module's answer for the shifted client key. */
  function Shifted(c: Curve, serverPk: nat, secret: nat): Bytes
    requires serverPk < c.q && 0 < secret < c.q
  {
    c.AffineX(c.Add(serverPk, EvenOf(c, secret)))
  }

  /** The tag that the comparison selects. */
  function Tag(c: Curve, sk: nat, serverPk: nat, clientPk: nat): byte
    requires clientPk < c.q && 1 < c.q && serverPk < c.q && c.Mul(sk, clientPk) != 0
  {
    if c.x(c.Mul(sk, c.Add(clientPk, 1))) != Shifted(c, serverPk, c.Mul(sk, clientPk)) then 3 else 2
  }

  /**
   `pkcs_11_ecdsa_derive_secret`: the module gives x of the secret and x of the secret for the client key shifted by the
   generator; comparing the latter with the server key shifted by the even candidate decides the parity.
   */
  method DeriveSecret(c: Curve, sk: nat, serverPk: nat, clientPk: nat) returns (r: Result<Bytes>)
    requires c.Lawful() && 0 < sk < c.q && serverPk < c.q && 0 < clientPk < c.q
    ensures c.Mul(sk, clientPk) != 0
    ensures r == if clientPk == c.q - 1 then Err(Panic)
                 else Ok([Tag(c, sk, serverPk, clientPk)] + c.x(c.Mul(sk, clientPk)))
  {
    SecretNotIdentity(c, sk, clientPk);
    var sharedX := c.Derive(sk, clientPk).value;
    DecompressEven(c, c.Mul(sk, clientPk));
    var sharedPoint := c.decompress(sharedX, false).value;
    var secret := new byte[1 + |sharedX|](_ => 0);
    CopyFromSlice(secret, 1, sharedX);

    var shiftedClientPk := c.Add(clientPk, 1);
    if clientPk != c.q - 1 {
      SecretNotIdentity(c, sk, shiftedClientPk);
    }
    var checkPoint :- OkOr(c.Derive(sk, shiftedClientPk), Panic);
    var shiftedServerPk := c.Add(serverPk, sharedPoint);
    secret[0] := if checkPoint != c.AffineX(shiftedServerPk) then 3 else 2;
    assert secret[..] == [Tag(c, sk, serverPk, clientPk)] + sharedX;
    r := Ok(secret[..]);
  }

  // ---------------------------------------------------------------------
  // The tag
  // ---------------------------------------------------------------------

  /** Multiplication distributes over the shift by the generator. */
  lemma ShiftedSecret(c: Curve, sk: nat, p: nat)
    requires c.Lawful() && 0 < sk < c.q && 0 < p < c.q
    ensures c.Mul(sk, c.Add(p, 1)) == c.Add(c.Mul(sk, p), c.Mul(sk, 1))
  {
    var a, b := c.Mul(sk, p), c.Mul(sk, 1);
    Parts(sk * p, c.q);
    Parts(sk * 1, c.q);
    var m := sk * p / c.q + sk * 1 / c.q;
    Distribute(sk * p / c.q, sk * 1 / c.q, c.q);
    assert sk * (p + 1) == sk * p + sk * 1;
    assert sk * (p + 1) == (a + b) + m * c.q;
    ModMultiple(a + b, m, c.q);
    ReduceOnce(a + b, c.q);
    if p + 1 == c.q {
      ModMultiple(0, sk, c.q);
      SmallMod(0, c.q);
    }
  }

  lemma ReduceOnce(n: nat, q: nat)
    requires q > 0 && n < 2 * q
    ensures n % q == if n < q then n else n - q
  {
  }

  /** Adding and subtracting an element give different x-coordinates unless one of the two is the identity. */
  lemma SumAndDifference(c: Curve, s: nat, t: nat)
    requires c.Lawful() && 0 < s < c.q && 0 < t < c.q && s != t && c.Add(s, t) != 0
    ensures c.Add(s, c.q - t) != 0 && c.x(c.Add(s, t)) != c.x(c.Add(s, c.q - t))
  {
    assert c.q % 2 != 0;
    SameX(c, c.Add(s, t), c.Add(s, c.q - t));
  }

  /**
   When the tag is right: for every nonzero server scalar and every client key but the negated generator, for which the
   module refuses, the output is the compressed secret, with one exception that can be told from the keys beforehand:
   the client key is the generator, the server's public key has an odd y, and its double has the x-coordinate which the
   curve library gives the identity.
   */
  lemma TagIsParity(c: Curve, sk: nat, clientPk: nat)
    requires c.Lawful() && 0 < sk < c.q && 0 < clientPk < c.q - 1
    ensures c.Mul(sk, clientPk) != 0
    ensures var serverPk := c.Mul(sk, 1);
            [Tag(c, sk, serverPk, clientPk)] + c.x(c.Mul(sk, clientPk)) == c.Compressed(c.Mul(sk, clientPk))
            <==> !(clientPk == 1 && c.odd(serverPk) && c.AffineX(c.Add(serverPk, serverPk)) == c.xOfIdentity)
  {
    var s, t := c.Mul(sk, 1), c.Mul(sk, clientPk);
    SecretNotIdentity(c, sk, clientPk);
    SecretNotIdentity(c, sk, 1);
    SecretNotIdentity(c, sk, clientPk + 1);
    ShiftedSecret(c, sk, clientPk);
    var tag := Tag(c, sk, s, clientPk);
    assert ([tag] + c.x(t))[0] == tag && c.Compressed(t)[0] == if c.odd(t) then 3 else 2;
    if s == t {
      MulInjective(c.q, sk, clientPk, 1);
    } else if c.odd(t) {
      SumAndDifference(c, s, t);
    }
  }

  /** For client keys other than the generator and its negation the remote Diffie-Hellman is always right. */
  lemma TagRightAwayFromGenerator(c: Curve, sk: nat, clientPk: nat)
    requires c.Lawful() && 0 < sk < c.q && 1 < clientPk < c.q - 1
    ensures c.Mul(sk, clientPk) != 0
    ensures [Tag(c, sk, c.Mul(sk, 1), clientPk)] + c.x(c.Mul(sk, clientPk)) == c.Compressed(c.Mul(sk, clientPk))
  {
    TagIsParity(c, sk, clientPk);
  }

  // ---------------------------------------------------------------------
  // The exception on a curve
  // ---------------------------------------------------------------------

  /** The affine multiples of the point (2, 5) on y^2 = x^3 + x + 1 over the integers modulo 7. */
  function Affine(p: nat): (nat, nat) {
    match p
    case 1 => (2, 5)
    case 2 => (0, 6)
    case 3 => (0, 1)
    case _ => (2, 2)
  }

  predicate OnCurve(x: int, y: int) {
    (y * y) % 7 == (x * x * x + x + 1) % 7
  }

  /** The chord or tangent of this slope through two points meets the curve in the negated third. */
  predicate ThirdPoint(slope: int, a: (int, int), b: (int, int), c: (int, int)) {
    && (if a == b then (slope * 2 * a.1) % 7 == (3 * a.0 * a.0 + 1) % 7
        else a.0 != b.0 && (slope * (b.0 - a.0)) % 7 == (b.1 - a.1) % 7)
    && c.0 % 7 == (slope * slope - a.0 - b.0) % 7
    && c.1 % 7 == (slope * (a.0 - c.0) - a.1) % 7
  }

  /** The points in the form the functions use: x as one byte, and whether y is odd. */
  function PointX(p: nat): Bytes {
    if p == 1 || p == 4 then [2] else [0]
  }

  predicate PointOdd(p: nat) {
    p == 1 || p == 3
  }

  /**
   The listed points are the group generated by (2, 5), of order five: each is the one before plus the generator, and
   the fourth is the generator's negation. The two functions above give their x and the parity of their y.
   */
  ghost predicate GeneratedPoints() {
    && (forall p :: 1 <= p <= 4 ==> OnCurve(Affine(p).0, Affine(p).1))
    && ThirdPoint(2, Affine(1), Affine(1), Affine(2))
    && ThirdPoint(3, Affine(2), Affine(1), Affine(3)) && ThirdPoint(2, Affine(3), Affine(1), Affine(4))
    && Affine(4).0 == Affine(1).0 && (Affine(4).1 + Affine(1).1) % 7 == 0
    && (forall p :: 1 <= p <= 4 ==> PointX(p) == (if Affine(p).0 == 2 then [2] else [0]) && Affine(p).0 in {0, 2})
    && (forall p :: 1 <= p <= 4 ==> (PointOdd(p) <==> Affine(p).1 % 2 == 1))
  }

  lemma AffinePoints()
    ensures OnCurve(2, 5) && OnCurve(0, 6) && OnCurve(0, 1) && OnCurve(2, 2)
  {
    assert 25 % 7 == 11 % 7 && 36 % 7 == 1 % 7 && 1 % 7 == 1 && 4 % 7 == 11 % 7;
  }

  lemma AffineSums()
    ensures ThirdPoint(2, (2, 5), (2, 5), (0, 6))
    ensures ThirdPoint(3, (0, 6), (2, 5), (0, 1)) && ThirdPoint(2, (0, 1), (2, 5), (2, 2))
  {
    assert 20 % 7 == 13 % 7 && 6 % 7 == (-1) % 7 && 4 % 7 == 4;
  }

  lemma AffineGroup()
    ensures GeneratedPoints()
  {
    AffinePoints();
    AffineSums();
    assert 5 % 2 == 1 && 6 % 2 == 0 && 1 % 2 == 1 && 2 % 2 == 0;
  }

  function PointOf(x: Bytes, odd: bool): Option<nat> {
    Some(if x == [2] then (if odd then 1 else 4) else if odd then 3 else 2)
  }

  /** This curve as the functions use it, with zero for the identity's x. */
  function FivePoints(): Curve {
    Curve(5, PointX, PointOdd, PointOf, [0])
  }

  lemma FivePointsLaws(p: nat)
    ensures FivePoints().PointLaws(p)
  {
    assert p == 1 || p == 2 || p == 3 || p == 4 || !(0 < p < 5);
  }

  lemma FivePointsLawful()
    ensures FivePoints().Lawful()
  {
    assert 5 % 2 != 0 && 5 % 3 != 0 && 5 % 4 != 0;
    forall p
      ensures FivePoints().PointLaws(p)
    {
      FivePointsLaws(p);
    }
  }

  /** The tag that the client key at the generator gives for the server scalar 1. */
  ghost predicate WrongTag(c: Curve)
    requires c.q > 2
  {
    && c.odd(c.Mul(1, 1)) && c.AffineX(c.Add(1, 1)) == c.xOfIdentity
    && [Tag(c, 1, c.Mul(1, 1), 1)] + c.x(c.Mul(1, 1)) != c.Compressed(c.Mul(1, 1))
  }

  lemma FivePointsTag()
    ensures WrongTag(FivePoints())
  {
    var c := FivePoints();
    assert c.Mul(1, 1) == 1 && c.Mul(1, 2) == 2;
    assert ([Tag(c, 1, 1, 1)] + c.x(1))[0] == 2 && c.Compressed(1)[0] == 3;
  }

  /**
   The exception is real: on this curve, whose points are a group of order five, for the generator as client key and the
   server scalar 1, the server key (2, 5) has odd y, its double (0, 6) has the x-coordinate zero, and the tag is wrong.
   */
  lemma TagWrongAtGenerator()
    ensures GeneratedPoints() && FivePoints().Lawful() && WrongTag(FivePoints())
  {
    AffineGroup();
    FivePointsLawful();
    FivePointsTag();
  }
}
