/** The five block sizes and the search for the class of a request. */
module SizeClasses {
  import opened Base
  import opened Bits

  const NUM_SIZE_CLASSES: nat := 5
  const SIZE_CLASSES: seq<nat> := [256, 512, 1024, 2048, 4096]

  const MIN_SIZE: nat := SIZE_CLASSES[0]
  const MAX_SIZE: nat := SIZE_CLASSES[NUM_SIZE_CLASSES - 1]
  const BASE_SHIFT: nat := 8

  function Size(index: nat): nat
    requires index < NUM_SIZE_CLASSES
  {
    SIZE_CLASSES[index]
  }

  function NextPowerOfTwo(n: nat): (p: nat)
    ensures p >= n && p > 0
  {
    if n <= 1 then 1 else 2 * NextPowerOfTwo((n + 1) / 2)
  }

  function TrailingZeros(n: nat): nat
    requires n > 0
  {
    if n % 2 == 1 then 0 else 1 + TrailingZeros(n / 2)
  }

  function SaturatingSub(a: nat, b: nat): nat {
    if a >= b then a - b else 0
  }

  function SizeClassIndex(size: nat): Option<nat> {
    if size > MAX_SIZE then None
    else Some(SaturatingSub(TrailingZeros(NextPowerOfTwo(size)), BASE_SHIFT))
  }

  lemma {:induction false} NextPowerOfTwoIsPower(n: nat) returns (k: nat)
    ensures NextPowerOfTwo(n) == Pow2(k) && n <= Pow2(k)
    ensures k > 0 ==> Pow2(k - 1) < n
    decreases n
  {
    if n <= 1 {
      k := 0;
    } else {
      var j := NextPowerOfTwoIsPower((n + 1) / 2);
      k := j + 1;
    }
  }

  lemma {:induction false} TrailingZerosOfPower(k: nat)
    ensures TrailingZeros(Pow2(k)) == k
    decreases k
  {
    if k > 0 { TrailingZerosOfPower(k - 1); }
  }

  lemma SizeIsPower(c: nat)
    requires c < NUM_SIZE_CLASSES
    ensures Size(c) == Pow2(BASE_SHIFT + c)
  {
    assert Pow2(8) == 256;
    assert Pow2(9) == 512;
    assert Pow2(10) == 1024;
    assert Pow2(11) == 2048;
    assert Pow2(12) == 4096;
  }

  lemma ClassFits(k: nat, size: nat)
    requires size <= Pow2(k) && k <= 12
    ensures SaturatingSub(k, BASE_SHIFT) < NUM_SIZE_CLASSES && size <= Size(SaturatingSub(k, BASE_SHIFT))
  {
    hide Pow2, Size;
    SizeIsPower(SaturatingSub(k, BASE_SHIFT));
    Pow2Mono(k, BASE_SHIFT + SaturatingSub(k, BASE_SHIFT));
  }

  lemma SmallerClass(k: nat, size: nat, d: nat)
    requires k > 0 && Pow2(k - 1) < size && d < SaturatingSub(k, BASE_SHIFT) && k <= 12
    ensures Size(d) < size
  {
    hide Pow2, Size;
    SizeIsPower(d);
    Pow2Mono(BASE_SHIFT + d, k - 1);
  }

  lemma ExponentBound(k: nat, size: nat)
    requires size <= MAX_SIZE && (k > 0 ==> Pow2(k - 1) < size)
    ensures k <= 12
  {
    SizeIsPower(4);
    if k > 12 { Pow2Mono(12, k - 1); }
  }

  /** Some class holds a request of this size. */
  predicate Covered(size: nat) {
    exists c: nat :: c < NUM_SIZE_CLASSES && size <= Size(c)
  }

  lemma CoveredIff(size: nat)
    ensures Covered(size) <==> size <= MAX_SIZE
  {
    if size <= MAX_SIZE { assert size <= Size(NUM_SIZE_CLASSES - 1); }
  }

  /** The class found is the least one not below the request, and a request has none only if no class covers it. */
  lemma LeastClass(size: nat)
    ensures SizeClassIndex(size) == None <==> size > MAX_SIZE
    ensures SizeClassIndex(size).Some? <==> Covered(size)
    ensures SizeClassIndex(size).Some? ==>
              var c := SizeClassIndex(size).value;
              && c < NUM_SIZE_CLASSES && size <= Size(c)
              && forall d: nat :: d < c ==> Size(d) < size
  {
    CoveredIff(size);
    hide Pow2, Size, Covered;
    if size <= MAX_SIZE {
      var k := NextPowerOfTwoIsPower(size);
      TrailingZerosOfPower(k);
      ExponentBound(k, size);
      ClassFits(k, size);
      forall d: nat | d < SaturatingSub(k, BASE_SHIFT) ensures Size(d) < size {
        SmallerClass(k, size, d);
      }
    }
  }
}
