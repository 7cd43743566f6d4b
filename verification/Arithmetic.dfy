/** Facts of arithmetic and of finite sets that several modules need, and the bit operations of the code on naturals. */
module Arithmetic {
  lemma MulMono(a: nat, b: nat, w: nat)
    requires a <= b
    ensures a * w <= b * w
  {
  }

  /** The numbers below n. */
  function UpTo(n: nat): (s: set<nat>)
    ensures |s| == n && forall i: nat :: i in s <==> i < n
  {
    if n == 0 then {}
    else
      var s := UpTo(n - 1);
      assert n - 1 !in s;
      s + {n - 1}
  }

  // ---- powers of two ----

  function Pow2(n: nat): (p: nat)
    ensures p > 0
  {
    if n == 0 then 1 else 2 * Pow2(n - 1)
  }

  lemma {:induction false} Pow2Sum(m: nat, n: nat)
    ensures Pow2(m) * Pow2(n) == Pow2(m + n)
  {
    if m > 0 {
      Pow2Sum(m - 1, n);
      assert Pow2(m) * Pow2(n) == 2 * (Pow2(m - 1) * Pow2(n));
    }
  }

  lemma Pow2Values()
    ensures Pow2(7) == 128 && Pow2(32) == 0x1_0000_0000 && Pow2(64) == 0x1_0000_0000_0000_0000
  {
    assert Pow2(8) == 256;
    Pow2Sum(8, 8);
    Pow2Sum(16, 16);
    Pow2Sum(32, 32);
  }

  // ---- bits of naturals ----

  /** Bitwise OR. */
  function BitOr(a: nat, b: nat): nat
    decreases a + b
  {
    if a == 0 && b == 0 then 0
    else (if a % 2 == 1 || b % 2 == 1 then 1 else 0) + 2 * BitOr(a / 2, b / 2)
  }

  lemma {:induction false} OrZero(b: nat)
    ensures BitOr(0, b) == b
  {
    if b > 0 {
      OrZero(b / 2);
    }
  }

  lemma Halves(b: nat, n: nat)
    requires n > 0 && b % Pow2(n) == 0
    ensures b % 2 == 0 && (b / 2) % Pow2(n - 1) == 0
  {
    var q, p := b / Pow2(n), Pow2(n - 1);
    assert b == Pow2(n) * q == 2 * (p * q);
    Multiple(q, p);
  }

  lemma Factor(p: nat, q: int)
    requires p > 0 && p * q >= 0
    ensures q >= 0
  {
  }

  lemma SmallMultiple(p: nat, d: int)
    requires 0 <= p * d < p
    ensures d == 0
  {
  }

  lemma Multiple(q: nat, p: nat)
    requires p > 0
    ensures (p * q) % p == 0
  {
    var r := (p * q) % p;
    assert p * q == p * ((p * q) / p) + r;
    var d := q - (p * q) / p;
    assert p * d == r;
    SmallMultiple(p, d);
  }

  lemma ProductAssoc(p: int, m: int, c: int)
    ensures p * m * c == p * (m * c)
  {
  }

  lemma ProductMinus(p: int, g: int, d: int)
    ensures p * (g - d) == g * p - p * d
  {
  }

  /** A multiple of p, reduced modulo a multiple n of p, is a multiple of p. */
  lemma ReducedMultiple(g: nat, p: nat, m: nat, n: nat)
    requires p > 0 && n > 0 && n == p * m
    ensures (g * p) % n % p == 0
  {
    var c, r := (g * p) / n, (g * p) % n;
    ProductAssoc(p, m, c);
    ProductMinus(p, g, m * c);
    var q := g - m * c;
    assert r == p * q;
    Factor(p, q);
    Multiple(q, p);
  }

  /** Where the bits of a end before those of b begin, OR adds. */
  lemma {:induction false} OrIsSum(a: nat, b: nat, n: nat)
    requires a < Pow2(n) && b % Pow2(n) == 0
    ensures BitOr(a, b) == a + b
    decreases n
  {
    if n == 0 {
      OrZero(b);
    } else {
      Halves(b, n);
      OrIsSum(a / 2, b / 2, n - 1);
    }
  }
}
