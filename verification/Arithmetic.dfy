/** Division with remainder and prime moduli. */
module Arithmetic {

  predicate IsPrime(q: nat) {
    q > 1 && forall d {:trigger q % d} :: 1 < d < q ==> q % d != 0
  }

  lemma Parts(n: nat, m: nat)
    requires m > 0
    ensures n == n / m * m + n % m
  {
  }

  lemma TimesMonotone(a: nat, b: nat, m: nat)
    requires a <= b
    ensures a * m <= b * m
  {
  }

  lemma PartsUnique(d: nat, r: nat, e: nat, s: nat, m: nat)
    requires r < m && s < m && d * m + r == e * m + s
    ensures d == e && r == s
  {
    Distribute(d, 1, m);
    Distribute(e, 1, m);
    if d < e {
      TimesMonotone(d + 1, e, m);
    } else if e < d {
      TimesMonotone(e + 1, d, m);
    }
  }

  lemma ModMultiple(a: nat, k: nat, m: nat)
    requires m > 0
    ensures (a + k * m) % m == a % m
  {
    Parts(a, m);
    Parts(a + k * m, m);
    Distribute(a / m, k, m);
    PartsUnique((a + k * m) / m, (a + k * m) % m, a / m + k, a % m, m);
  }

  lemma Distribute(a: nat, b: nat, m: nat)
    ensures (a + b) * m == a * m + b * m
  {
  }

  /** Euclid's lemma: a prime that divides a product of a smaller positive number divides the other factor. */
  lemma {:induction false} Euclid(q: nat, a: nat, b: nat)
    requires IsPrime(q) && 0 < a < q && (a * b) % q == 0
    ensures b % q == 0
    decreases a
  {
    if a > 1 {
      var k, r := q / a, q % a;
      assert q % a != 0;
      Remainder(q, a, b, k, r);
      Euclid(q, r, b);
    }
  }

  lemma Remainder(q: nat, a: nat, b: nat, k: nat, r: nat)
    requires q > 0 && q == k * a + r && (a * b) % q == 0
    ensures (r * b) % q == 0
  {
    var t := (a * b) / q;
    assert a * b == t * q;
    assert r * b + k * t * q == b * q by {
      assert k * t * q == k * (a * b);
      assert (k * a + r) * b == k * (a * b) + r * b;
    }
    ModMultiple(r * b, k * t, q);
    ModMultiple(0, b, q);
  }

  lemma Difference(d: nat, r: nat, m: nat)
    requires m > 0 && (d + r) % m == r % m
    ensures d % m == 0
  {
    Parts(d + r, m);
    Parts(r, m);
    Parts(d, m);
    var e, f := (d + r) / m, r / m;
    // d is a difference of two multiples
    if f <= e {
      Distribute(e - f, f, m);
      PartsUnique(d / m, d % m, e - f, 0, m);
    } else {
      TimesMonotone(e, f, m);
      PartsUnique(d / m, d % m, 0, 0, m);
    }
  }

  lemma SmallMultipleIsZero(d: nat, m: nat)
    requires d < m && d % m == 0
    ensures d == 0
  {
  }

  /** Multiplication by a nonzero scalar keeps elements apart. */
  lemma MulInjective(q: nat, k: nat, p: nat, r: nat)
    requires IsPrime(q) && 0 < k < q && r <= p < q && (k * p) % q == (k * r) % q
    ensures p == r
  {
    Distribute(p - r, r, k);
    assert k * p == k * (p - r) + k * r;
    Difference(k * (p - r), k * r, q);
    Euclid(q, k, p - r);
    SmallMultipleIsZero(p - r, q);
  }

  /** The inverse of `a` modulo a prime, by Euclid's algorithm. */
  function Inverse(q: nat, a: nat): (i: nat)
    requires IsPrime(q) && 0 < a < q
    decreases a
  {
    if a == 1 then 1
    else
      assert q % a != 0;
      (q - (Inverse(q, q % a) * (q / a)) % q) % q
  }

  lemma {:induction false} InverseCorrect(q: nat, a: nat)
    requires IsPrime(q) && 0 < a < q
    ensures 0 < Inverse(q, a) < q && (Inverse(q, a) * a) % q == 1
    decreases a
  {
    if a == 1 {
      SmallMod(1, q);
    } else {
      assert q % a != 0;
      InverseCorrect(q, q % a);
      Parts(q, a);
      InverseStep(q, a, q / a, q % a, Inverse(q, q % a));
    }
  }

  lemma SmallMod(n: nat, q: nat)
    requires n < q
    ensures n % q == n
  {
  }

  lemma ProductSplit(j: nat, k: nat, a: nat, r: nat, d: nat, q: nat, t: nat)
    requires j * k == d * q + t && q == k * a + r
    ensures t * a + (d * a) * q + j * r == j * q
  {
    calc {
      t * a + (d * a) * q + j * r;
      { assert (d * a) * q == (d * q) * a; }
      t * a + (d * q) * a + j * r;
      { Distribute(d * q, t, a); }
      (j * k) * a + j * r;
      { assert (j * k) * a == j * (k * a); }
      j * (k * a) + j * r;
      j * (k * a + r);
    }
  }

  /** If j inverts the remainder r = q - ka, then -jk inverts a. */
  lemma InverseStep(q: nat, a: nat, k: nat, r: nat, j: nat)
    requires q > 1 && q == k * a + r && (j * r) % q == 1
    ensures var i := (q - (j * k) % q) % q; 0 < i < q && (i * a) % q == 1
  {
    var t, d := (j * k) % q, (j * k) / q;
    var i := (q - t) % q;
    Parts(j * k, q);
    ProductSplit(j, k, a, r, d, q, t);
    NegatedInverse(q, a, t, i, j * r, d * a, j);
    if i == 0 {
      SmallMod(0, q);
    }
  }

  lemma NegatedInverse(q: nat, a: nat, t: nat, i: nat, s: nat, m: nat, n: nat)
    requires q > 1 && t < q && i == (q - t) % q && s % q == 1 && t * a + m * q + s == n * q
    ensures (i * a) % q == 1
  {
    Parts(q - t, q);
    var c := (q - t) / q;
    assert q - t == c * q + i;
    assert (c * q + i + t) * a == q * a;
    assert c * q * a + i * a + t * a == q * a;
    // i * a - s is a multiple of q
    Parts(s, q);
    var u := s / q;
    assert i * a + c * a * q + n * q == q * a + m * q + u * q + 1;
    Congruent(i * a, c * a + n, 1, a + m + u, q);
    SmallMod(1, q);
  }

  lemma Congruent(x: nat, m: nat, y: nat, n: nat, q: nat)
    requires q > 0 && x + m * q == y + n * q
    ensures x % q == y % q
  {
    ModMultiple(x, m, q);
    ModMultiple(y, n, q);
  }

  lemma ModTimes(a: nat, b: nat, q: nat)
    requires q > 0
    ensures (a * (b % q)) % q == (a * b) % q
  {
    Parts(b, q);
    var r, d := b % q, b / q;
    assert a * b == a * r + (a * d) * q by {
      assert a * (d * q) == (a * d) * q;
    }
    ModMultiple(a * r, a * d, q);
  }

  lemma Swap(x: nat, y: nat, z: nat)
    ensures x * (y * z) == y * (x * z)
  {
    assert x * (y * z) == (x * y) * z;
  }

  lemma MulModCommutes(x: nat, y: nat, z: nat, q: nat)
    requires q > 0
    ensures (x * ((y * z) % q)) % q == (y * ((x * z) % q)) % q
  {
    ModTimes(x, y * z, q);
    ModTimes(y, x * z, q);
    Swap(x, y, z);
  }

  lemma MulModCancels(i: nat, x: nat, z: nat, q: nat)
    requires q > 0 && (i * x) % q == 1 && z < q
    ensures (i * ((x * z) % q)) % q == z
  {
    ModTimes(i, x * z, q);
    ModTimes(z, i * x, q);
    Swap(i, x, z);
    Swap(z, i, x);
    assert i * (x * z) == z * (i * x) by {
      assert x * z == z * x;
    }
    SmallMod(z, q);
  }
}
