/** Integer facts the bit-level proofs of the encoder rest on. */
module Arith {

  function Pow2(n: nat): (r: nat)
    ensures r >= 1
  {
    if n == 0 then 1 else 2 * Pow2(n - 1)
  }

  lemma {:induction false} Pow2Add(a: nat, b: nat)
    ensures Pow2(a) * Pow2(b) == Pow2(a + b)
    decreases a
  {
    if a > 0 {
      Pow2Add(a - 1, b);
    }
  }

  lemma Pow2Values()
    ensures Pow2(5) == 32 && Pow2(8) == 256 && Pow2(27) == 0x800_0000 && Pow2(32) == 0x1_0000_0000
  {
    assert Pow2(8) == 256;
    Pow2Add(8, 8);
    Pow2Add(16, 8);
    Pow2Add(24, 3);
    Pow2Add(16, 16);
  }

  lemma MulAtLeast(a: int, d: int)
    ensures a >= 1 && d > 0 ==> a * d >= d
  {
    assert a * d == (a - 1) * d + d;
  }

  /** Division with remainder is unique. */
  lemma DivModUnique(x: int, d: int, q: int, r: int)
    requires d > 0 && 0 <= r < d && x == q * d + r
    ensures x / d == q && x % d == r
  {
    var q0, r0 := x / d, x % d;
    assert (q0 - q) * d == r - r0;
    assert (q - q0) * d == r0 - r;
    MulAtLeast(q0 - q, d);
    MulAtLeast(q - q0, d);
  }

  lemma DivModSplit(x: int, d: int)
    requires d > 0
    ensures x == (x / d) * d + x % d && 0 <= x % d < d
  {
  }

  /** Reducing modulo a multiple of m does not change the residue modulo m. */
  lemma ModOfMod(x: nat, m: nat, k: nat)
    requires m > 0 && k > 0
    ensures (x % (m * k)) % m == x % m
  {
    var q, r := x / (m * k), x % (m * k);
    DivModSplit(x, m * k);
    DivModSplit(r, m);
    assert x == (q * k + r / m) * m + r % m;
    DivModUnique(x, m, q * k + r / m, r % m);
  }

  /** Halving then reducing modulo p, and putting the low bit back, is reducing modulo 2p. */
  lemma HalfMod(x: nat, p: nat)
    requires p > 0
    ensures 2 * ((x / 2) % p) + x % 2 == x % (2 * p)
  {
    var h := x / 2;
    DivModSplit(x, 2);
    DivModSplit(h, p);
    var q, r := h / p, h % p;
    assert x == q * (2 * p) + (2 * r + x % 2);
    DivModUnique(x, 2 * p, q, 2 * r + x % 2);
  }

  /**
   Shifting a value left by eight bits, adding a byte and reducing modulo u
   (a multiple of p * 256) keeps the value's low bits below the byte.
   */
  lemma ShiftArith(value: nat, b: nat, p: nat, k: nat, u: nat)
    requires p > 0 && k > 0 && b < 256 && u == (p * 256) * k
    ensures ((value * 256 + b) % u) % (p * 256) == (value % p) * 256 + b
  {
    var m := p * 256;
    var x := value * 256 + b;
    ModOfMod(x, m, k);
    DivModSplit(value, p);
    var q, r := value / p, value % p;
    assert x == q * m + (r * 256 + b);
    MulAtLeast(p - r, 256);
    DivModUnique(x, m, q, r * 256 + b);
  }

  /**
   When the low n bits of a value are h (five bits) followed by t (d bits),
   `(value >>> d) & 31` is h and the value modulo 2^d is t.
   */
  lemma EmitArith(value: nat, d: nat, vh: nat, vt: nat)
    requires d > 0 && vh < 32 && vt < d
    requires value % (32 * d) == vh * d + vt
    ensures (value / d) % 32 == vh
    ensures value % d == vt
  {
    var p := 32 * d;
    DivModSplit(value, p);
    var q := value / p;
    assert value == (q * 32 + vh) * d + vt;
    DivModUnique(value, d, q * 32 + vh, vt);
    assert value / d == q * 32 + vh;
    DivModUnique(value / d, 32, q, vh);
  }

  /** `(value << c) & 31`, when the value's low bits v fit in 5 - c bits, is v shifted left by c. */
  lemma FinalArith(value: nat, p: nat, c: nat, v: nat, k: nat, u: nat)
    requires p > 0 && c > 0 && p * c == 32 && k > 0 && u == 32 * k
    requires value % p == v
    ensures ((value * c) % u) % 32 == v * c
  {
    ModOfMod(value * c, 32, k);
    DivModSplit(value, p);
    var q := value / p;
    assert value == q * p + v;
    Distrib(q * p, v, c);
    Assoc(q, p, c);
    MulAtLeast(p - v, c);
    Distrib(p - v, v, c);
    DivModUnique(value * c, 32, q, v * c);
  }

  lemma Distrib(a: int, b: int, c: int)
    ensures (a + b) * c == a * c + b * c
  {
  }

  lemma Assoc(a: int, b: int, c: int)
    ensures (a * b) * c == a * (b * c)
  {
  }
}
