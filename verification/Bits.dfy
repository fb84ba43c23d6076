/** Bit masks on naturals, as the layout and address code uses them. */
module Bits {
  import opened Base

  function Pow2(k: nat): (p: nat)
    ensures p >= 1
  {
    if k == 0 then 1 else 2 * Pow2(k - 1)
  }

  /** Bitwise and, one bit at a time. */
  function BitAnd(a: nat, b: nat): nat
    decreases a
  {
    if a == 0 || b == 0 then 0
    else 2 * BitAnd(a / 2, b / 2) + (if a % 2 == 1 && b % 2 == 1 then 1 else 0)
  }

  /** `is_power_of_two`: exactly one bit is set. */
  predicate IsPowerOfTwo(n: nat) {
    n == 1 || (n > 1 && n % 2 == 0 && IsPowerOfTwo(n / 2))
  }

  ghost function Log2(n: nat): (k: nat)
    requires IsPowerOfTwo(n)
    ensures n == Pow2(k)
  {
    if n == 1 then 0 else 1 + Log2(n / 2)
  }

  lemma {:induction false} Pow2IsPower(k: nat)
    ensures IsPowerOfTwo(Pow2(k))
    decreases k
  {
    if k > 0 { Pow2IsPower(k - 1); }
  }

  lemma {:induction false} Pow2Mono(a: nat, b: nat)
    requires a <= b
    ensures Pow2(a) <= Pow2(b)
    ensures a < b ==> Pow2(a) < Pow2(b)
    decreases b
  {
    if a < b { Pow2Mono(a, b - 1); }
  }

  /** Powers of two multiply by adding exponents. */
  lemma {:induction false} Pow2Add(a: nat, b: nat)
    ensures Pow2(a + b) == Pow2(a) * Pow2(b)
    decreases b
  {
    if b > 0 {
      Pow2Add(a, b - 1);
      assert Pow2(a + b) == 2 * Pow2(a + (b - 1));
      assert Pow2(a) * (2 * Pow2(b - 1)) == 2 * (Pow2(a) * Pow2(b - 1));
    }
  }

  lemma {:induction false} MulMono(a: nat, b: nat, d: nat)
    requires a <= b
    ensures a * d <= b * d
    decreases b
  {
    if a < b {
      MulMono(a, b - 1, d);
      assert b * d == (b - 1) * d + d;
    }
  }

  lemma QuotientUnique(d: nat, q: nat, r: nat, p: nat, s: nat)
    requires r < d && s < d && q * d + r == p * d + s
    ensures q == p && r == s
  {
    if q < p {
      assert (q + 1) * d == q * d + d;
      MulMono(q + 1, p, d);
    } else if p < q {
      assert (p + 1) * d == p * d + d;
      MulMono(p + 1, q, d);
    }
  }

  lemma DivMod(x: nat, d: nat)
    requires d > 0
    ensures x == (x / d) * d + x % d
  {
  }

  lemma DivModUnique(x: nat, d: nat, q: nat, r: nat)
    requires d > 0 && x == q * d + r && r < d
    ensures x / d == q && x % d == r
  {
    DivMod(x, d);
    QuotientUnique(d, q, r, x / d, x % d);
  }

  lemma ModOfDouble(x: nat, p: nat)
    requires p > 0
    ensures x % (2 * p) == 2 * ((x / 2) % p) + x % 2
  {
    var q, r := (x / 2) / p, (x / 2) % p;
    DivMod(x / 2, p);
    assert x == 2 * (q * p) + 2 * r + x % 2;
    assert q * (2 * p) == 2 * (q * p);
    DivModUnique(x, 2 * p, q, 2 * r + x % 2);
  }

  /** The number formed by the low `k` bits. */
  function Low(x: nat, k: nat): (r: nat)
    ensures r < Pow2(k) && r <= x
  {
    if k == 0 then 0 else 2 * Low(x / 2, k - 1) + x % 2
  }

  lemma {:induction false} LowIsMod(x: nat, k: nat)
    ensures Low(x, k) == x % Pow2(k)
    decreases k
  {
    if k > 0 {
      LowIsMod(x / 2, k - 1);
      ModOfDouble(x, Pow2(k - 1));
    }
  }

  lemma {:induction false} MaskIsLow(x: nat, k: nat)
    ensures BitAnd(x, Pow2(k) - 1) == Low(x, k)
    decreases k
  {
    hide BitAnd;
    if k > 0 {
      MaskIsLow(x / 2, k - 1);
      OddMask(x, Pow2(k - 1) - 1);
    } else {
      ZeroMask(x);
    }
  }

  lemma OddMask(x: nat, h: nat)
    ensures BitAnd(x, 2 * h + 1) == 2 * BitAnd(x / 2, h) + x % 2
  {
    assert (2 * h + 1) / 2 == h;
  }

  lemma ZeroMask(x: nat)
    ensures BitAnd(x, 0) == 0
  {
  }

  lemma EvenMask(x: nat, h: nat)
    ensures BitAnd(x, 2 * h) == 2 * BitAnd(x / 2, h)
  {
    assert (2 * h) / 2 == h;
  }

  lemma {:induction false} ClearIsRest(x: nat, k: nat, w: nat)
    requires k <= w && x < Pow2(w)
    ensures Pow2(k) <= Pow2(w)
    ensures BitAnd(x, Pow2(w) - Pow2(k)) == x - Low(x, k)
    decreases k
  {
    hide BitAnd;
    Pow2Mono(k, w);
    if k == 0 {
      MaskIsLow(x, w);
      LowOfSmall(x, w);
    } else {
      Pow2Mono(k - 1, w - 1);
      ClearIsRest(x / 2, k - 1, w - 1);
      EvenMask(x, Pow2(w - 1) - Pow2(k - 1));
    }
  }

  lemma {:induction false} LowOfSmall(x: nat, k: nat)
    requires x < Pow2(k)
    ensures Low(x, k) == x
    decreases k
  {
    if k > 0 { LowOfSmall(x / 2, k - 1); }
  }

  /** Masking with `2^k - 1` is the remainder modulo `2^k`. */
  lemma MaskIsMod(x: nat, n: nat)
    requires IsPowerOfTwo(n)
    ensures BitAnd(x, n - 1) == x % n
  {
    MaskIsLow(x, Log2(n));
    LowIsMod(x, Log2(n));
  }

  lemma Pow2Plus4(a: nat)
    ensures Pow2(a + 4) == 16 * Pow2(a)
  {
    assert Pow2(a + 4) == 2 * Pow2(a + 3);
    assert Pow2(a + 3) == 2 * Pow2(a + 2);
  }

  lemma Pow2Plus16(a: nat)
    ensures Pow2(a + 16) == TWO_16 * Pow2(a)
  {
    hide Pow2;
    Pow2Plus4(a);
    Pow2Plus4(a + 4);
    Pow2Plus4(a + 8);
    Pow2Plus4(a + 12);
  }

  lemma Pow2At64()
    ensures Pow2(64) == TWO_64
  {
    assert Pow2(0) == 1;
    hide Pow2;
    Pow2Plus16(0);
    Pow2Plus16(16);
    Pow2Plus16(32);
    Pow2Plus16(48);
  }

  /** `(value + n - 1) & !(n - 1)` on 64-bit words. */
  function RoundUp(value: nat, n: nat): nat
    requires 0 < n <= TWO_64
  {
    BitAnd(value + n - 1, TWO_64 - 1 - (n - 1))
  }

  lemma RoundUpMasks(value: nat, n: nat)
    requires IsPowerOfTwo(n) && value + n - 1 < TWO_64
    ensures RoundUp(value, n) == (value + n - 1) - (value + n - 1) % n
  {
    hide BitAnd, Low, Pow2, IsPowerOfTwo;
    var k := Log2(n);
    Pow2At64();
    if k > 64 { Pow2Mono(64, k); }
    ClearIsRest(value + n - 1, k, 64);
    LowIsMod(value + n - 1, k);
  }

  /** For a power of two the mask yields the least multiple of `n` that is not below `value`. */
  lemma RoundUpIsNextMultiple(value: nat, n: nat)
    requires IsPowerOfTwo(n) && value + n - 1 < TWO_64
    ensures RoundUp(value, n) % n == 0
    ensures value <= RoundUp(value, n) < value + n
  {
    hide RoundUp;
    RoundUpMasks(value, n);
    MultipleBelow(value + n - 1, n);
  }

  lemma MultipleBelow(x: nat, n: nat)
    requires n > 0
    ensures (x - x % n) % n == 0
    ensures 0 <= x % n < n
  {
    DivMod(x, n);
    DivModUnique(x - x % n, n, x / n, 0);
  }
}
