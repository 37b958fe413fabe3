/** Machine-word arithmetic on unbounded naturals: powers of two, the bitwise
    `&` with a mask, single-bit tests and sets, and rounding up to a power of two. */
module Bits {

  /** 2^64, the number of values of a uint64. */
  const WORD: nat := 0x1_0000_0000_0000_0000

  type Hash64 = n: nat | n < WORD

  function Pow2(n: nat): (r: nat)
    ensures r >= 1
  {
    if n == 0 then 1 else 2 * Pow2(n - 1)
  }

  /** Bitwise conjunction, least significant bit first. */
  function And(a: nat, b: nat): (r: nat)
    ensures r <= b
  {
    if a == 0 || b == 0 then 0
    else 2 * And(a / 2, b / 2) + (if a % 2 == 1 && b % 2 == 1 then 1 else 0)
  }

  /** Masking with 2^k - 1 is the remainder modulo 2^k. */
  lemma {:induction false} AndMaskIsMod(h: nat, k: nat)
    ensures And(h, Pow2(k) - 1) == h % Pow2(k)
    decreases k
  {
    if k == 0 {
    } else {
      var m := Pow2(k - 1);
      AndMaskIsMod(h / 2, k - 1);
      assert Pow2(k) - 1 == 2 * (m - 1) + 1;
      assert (Pow2(k) - 1) / 2 == m - 1;
      ModSplit(h, m);
      if h == 0 {
        assert 0 % Pow2(k) == 0;
      }
    }
  }

  /** Splitting off the lowest bit of a remainder. */
  lemma ModSplit(h: nat, m: nat)
    requires m >= 1
    ensures h % (2 * m) == 2 * ((h / 2) % m) + h % 2
  {
    var q, r := (h / 2) / m, (h / 2) % m;
    assert h / 2 == q * m + r;
    assert h == q * (2 * m) + (2 * r + h % 2) by {
      assert q * (2 * m) == 2 * (q * m);
    }
    DivModUnique(h, 2 * m, q, 2 * r + h % 2);
  }

  lemma DivModUnique(x: int, d: int, q: int, r: int)
    requires d > 0 && x == q * d + r && 0 <= r < d
    ensures x / d == q && x % d == r
  {
    var q', r' := x / d, x % d;
    assert (q' - q) * d == r - r';
    if q' > q {
      MulMono(q' - q, d);
    } else if q' < q {
      MulMono(q - q', d);
    }
  }

  /** Reducing modulo a multiple first does not change the remainder. */
  lemma {:induction false} ModMod(x: nat, word: nat, n: nat, m: nat)
    requires n >= 1 && m >= 1 && word == m * n
    ensures (x % word) % n == x % n
  {
    var q, r := x / word, x % word;
    var s, t := r / n, r % n;
    assert x == q * word + r && r == s * n + t;
    assert q * (m * n) == (q * m) * n;
    assert (q * m + s) * n == (q * m) * n + s * n;
    DivModUnique(x, n, q * m + s, t);
  }

  lemma MulMono(a: int, d: int)
    requires a >= 1 && d > 0
    ensures a * d >= d
  {
  }

  /** Bit b of a word. */
  predicate Bit(w: nat, b: nat)
    decreases b
  {
    if b == 0 then w % 2 == 1 else Bit(w / 2, b - 1)
  }

  /** The word with bit b set, that is `w | 1 << b`. */
  function SetBit(w: nat, b: nat): (r: nat)
    decreases b
  {
    if b == 0 then 2 * (w / 2) + 1 else 2 * SetBit(w / 2, b - 1) + w % 2
  }

  /** Setting one bit sets that bit and leaves every other bit alone. */
  lemma {:induction false} SetBitBits(w: nat, b: nat, c: nat)
    ensures Bit(SetBit(w, b), c) <==> (c == b || Bit(w, c))
    decreases b
  {
    var s := SetBit(w, b);
    assert s / 2 == (if b == 0 then w / 2 else SetBit(w / 2, b - 1));
    if b > 0 && c > 0 {
      SetBitBits(w / 2, b - 1, c - 1);
    }
  }

  lemma {:induction false} ZeroHasNoBits(c: nat)
    ensures !Bit(0, c)
  {
    if c > 0 { ZeroHasNoBits(c - 1); }
  }

  /** Number of bits needed to write v. */
  function Len(v: nat): (r: nat) {
    if v == 0 then 0 else 1 + Len(v / 2)
  }

  lemma {:induction false} LenBounds(v: nat)
    ensures v < Pow2(Len(v))
    ensures v >= 1 ==> Len(v) >= 1 && Pow2(Len(v) - 1) <= v
  {
    if v >= 1 { LenBounds(v / 2); }
  }

  lemma {:induction false} Pow2Monotone(a: nat, b: nat)
    requires a <= b
    ensures Pow2(a) <= Pow2(b)
  {
    if a < b { Pow2Monotone(a, b - 1); }
  }

  lemma {:induction false} Pow2Sum(a: nat, b: nat)
    ensures Pow2(a + b) == Pow2(a) * Pow2(b)
  {
    if b > 0 { Pow2Sum(a, b - 1); }
  }

  /** The powers that bound 32-bit and 64-bit words; the exponents are parameters so that they stay symbolic. */
  lemma {:induction false} WordPowers(n31: nat, n63: nat)
    requires n31 == 31 && n63 == 63
    ensures Pow2(n31) == 0x8000_0000 && Pow2(n63) == 0x8000_0000_0000_0000
  {
    var n8 := 8;
    assert Pow2(8) == 256;
    Pow2Sum(n8, n8);
    Pow2Sum(n8 + n8, n8);
    Pow2Sum(n8 + n8 + n8, 7);
    assert Pow2(7) == 128;
    Pow2Sum(n31, n31);
    Pow2Sum(n31 + n31, 1);
    assert Pow2(1) == 2;
  }

  ghost predicate IsPow2(n: nat) {
    exists k: nat :: n == Pow2(k)
  }

  /** The shift `1 << bits.Len64(v - 1)` on 64-bit words; a shift by 64 yields 0. */
  function NextPow2(v: nat): (r: nat) {
    if v == 0 then 1 else if Len(v - 1) >= 64 then 0 else Pow2(Len(v - 1))
  }

  /** Len(v - 1) is the least exponent whose power reaches v. */
  lemma LenIsLeast(v: nat, k: nat)
    requires v >= 1
    ensures v <= Pow2(Len(v - 1)) < 2 * v
    ensures v <= Pow2(k) <==> Len(v - 1) <= k
  {
    var n := Len(v - 1);
    LenBounds(v - 1);
    if k < n {
      Pow2Monotone(k, n - 1);
    } else {
      Pow2Monotone(n, k);
    }
  }

  /** NextPow2 rounds up to the least power of two not below v, for every v that has one in 64 bits. */
  lemma NextPow2RoundsUp(v: nat, top: nat)
    requires top == 63 && v <= Pow2(top)
    ensures IsPow2(NextPow2(v))
    ensures v <= NextPow2(v) <= Pow2(top)
    ensures v >= 1 ==> NextPow2(v) < 2 * v
    ensures forall k: nat :: v <= Pow2(k) ==> NextPow2(v) <= Pow2(k)
  {
    if v == 0 {
      assert NextPow2(v) == Pow2(0);
    } else {
      LenIsLeast(v, top);
      Pow2Monotone(Len(v - 1), top);
      forall k: nat | v <= Pow2(k)
        ensures NextPow2(v) <= Pow2(k)
      {
        LenIsLeast(v, k);
        Pow2Monotone(Len(v - 1), k);
      }
    }
  }
}
