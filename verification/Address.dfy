/** From block to offset and back: the arithmetic `allocate` and `find_allocation_indexes` share. */
module Address {
  import opened Base
  import opened Bits
  import opened SizeClasses

  datatype Config = Config(numSlabs: nat, numWorkers: nat, slabSize: nat, slabsOffset: nat)

  /** `verify_slab_size`. */
  predicate ValidSlabSize(slabSize: nat) {
    && IsPowerOfTwo(slabSize)
    && slabSize >= 4 * MAX_SIZE
    && slabSize / MIN_SIZE <= NULL_U16
  }

  /** What `create` and `join` guarantee about a mapped allocator. */
  predicate ValidConfig(cfg: Config) {
    && ValidSlabSize(cfg.slabSize)
    && 0 < cfg.numSlabs < NULL_U32
    && 0 < cfg.numWorkers < NULL_U32
    && cfg.slabsOffset + cfg.numSlabs * cfg.slabSize < TWO_64
  }

  /** The free-stack capacity of a slab of the class, `(slab_size / size) as u16`. */
  function Capacity(cfg: Config, c: nat): nat
    requires c < NUM_SIZE_CLASSES
  {
    (cfg.slabSize / Size(c)) % TWO_16
  }

  /** The offset `allocate` returns for slot `k` of slab `i`. */
  function BlockOffset(cfg: Config, i: nat, c: nat, k: nat): nat
    requires c < NUM_SIZE_CLASSES
  {
    cfg.slabsOffset + i * cfg.slabSize + k * Size(c)
  }

  /** The slab an offset falls in; None where the code asserts. */
  function FindSlab(cfg: Config, offset: nat): Option<nat>
    requires cfg.slabSize > 0
  {
    if offset < cfg.slabsOffset then None
    else
      var i := ((offset - cfg.slabsOffset) / cfg.slabSize) % TWO_32;
      if i < cfg.numSlabs then Some(i) else None
  }

  function OffsetWithinSlab(cfg: Config, fromStart: nat): nat
    requires cfg.slabSize > 0
  {
    BitAnd(fromStart, cfg.slabSize - 1) % TWO_32
  }

  /** The slot an offset falls in, given the size class read from the slab's metadata. */
  function FindSlot(cfg: Config, offset: nat, c: nat): nat
    requires cfg.slabSize > 0 && offset >= cfg.slabsOffset && c < NUM_SIZE_CLASSES
  {
    (OffsetWithinSlab(cfg, offset - cfg.slabsOffset) / Size(c)) % TWO_16
  }

  // ----- sizes

  lemma SlabSizeExponent(slabSize: nat) returns (m: nat)
    requires ValidSlabSize(slabSize)
    ensures 14 <= m <= 23 && slabSize == Pow2(m)
  {
    m := Log2(slabSize);
    hide Pow2, IsPowerOfTwo;
    Exponents();
    if m < 14 { Pow2Mono(m, 13); }
    if m > 23 { Pow2Mono(24, m); }
  }

  /** The sizes meant: the powers of two from 16 KiB to 8 MiB. */
  ghost predicate SlabSizeInRange(slabSize: nat) {
    exists m: nat :: 14 <= m <= 23 && slabSize == Pow2(m)
  }

  /** The three checks accept exactly those. */
  lemma ValidSlabSizeIff(slabSize: nat)
    ensures ValidSlabSize(slabSize) <==> SlabSizeInRange(slabSize)
  {
    if ValidSlabSize(slabSize) {
      var m := SlabSizeExponent(slabSize);
    }
    if SlabSizeInRange(slabSize) {
      var m: nat :| 14 <= m <= 23 && slabSize == Pow2(m);
      hide Pow2, IsPowerOfTwo;
      Pow2IsPower(m);
      Exponents();
      Pow2Mono(14, m);
      Pow2Mono(m, 23);
    }
  }

  lemma Exponents()
    ensures Pow2(13) == 0x2000 && Pow2(14) == 0x4000 && Pow2(23) == 0x80_0000 && Pow2(24) == 0x100_0000
  {
    assert Pow2(0) == 1;
    assert Pow2(1) == 2;
    hide Pow2;
    Pow2Plus4(1);
    Pow2Plus4(5);
    Pow2Plus4(9);
    Pow2Plus4(0);
    Pow2Plus4(4);
    Pow2Plus4(8);
    Pow2Plus4(12);
    Pow2Plus4(16);
    Pow2Plus4(20);
    OneMore();
  }

  lemma OneMore()
    ensures Pow2(14) == 2 * Pow2(13) && Pow2(24) == 2 * Pow2(23)
  {
  }

  /** A slab is cut into blocks of its class with nothing left over, and the capacity fits 16 bits. */
  lemma CapacityExact(cfg: Config, c: nat)
    requires ValidSlabSize(cfg.slabSize) && c < NUM_SIZE_CLASSES
    ensures Capacity(cfg, c) * Size(c) == cfg.slabSize
    ensures 4 <= Capacity(cfg, c) <= 0x8000
  {
    var m := SlabSizeExponent(cfg.slabSize);
    hide Pow2, IsPowerOfTwo, Size;
    SizeIsPower(c);
    Pow2Add(m - 8 - c, 8 + c);
    Exponents();
    Pow2Mono(2, m - 8 - c);
    Pow2Mono(m - 8 - c, 15);
    SmallPowers();
    DivModUnique(cfg.slabSize, Size(c), Pow2(m - 8 - c), 0);
  }

  lemma SmallPowers()
    ensures Pow2(2) == 4 && Pow2(15) == 0x8000
  {
    assert Pow2(2) == 4;
    Exponents();
  }

  // ----- the round trip

  lemma WithinSlab(cfg: Config, c: nat, k: nat, b: nat)
    requires ValidSlabSize(cfg.slabSize) && c < NUM_SIZE_CLASSES && k < Capacity(cfg, c) && b < Size(c)
    ensures k * Size(c) + b < cfg.slabSize
  {
    CapacityExact(cfg, c);
    MulMono(k + 1, Capacity(cfg, c), Size(c));
    assert (k + 1) * Size(c) == k * Size(c) + Size(c);
  }

  lemma WithinFile(cfg: Config, i: nat, r: nat)
    requires ValidConfig(cfg) && i < cfg.numSlabs && r < cfg.slabSize
    ensures cfg.slabsOffset + i * cfg.slabSize + r < cfg.slabsOffset + cfg.numSlabs * cfg.slabSize
  {
    MulMono(i + 1, cfg.numSlabs, cfg.slabSize);
    assert (i + 1) * cfg.slabSize == i * cfg.slabSize + cfg.slabSize;
  }

  /** Any offset inside a block leads back to the block's slab and slot, with no truncation on the way. */
  lemma RoundTrip(cfg: Config, i: nat, c: nat, k: nat, b: nat)
    requires ValidConfig(cfg) && i < cfg.numSlabs && c < NUM_SIZE_CLASSES && k < Capacity(cfg, c) && b < Size(c)
    ensures FindSlab(cfg, BlockOffset(cfg, i, c, k) + b) == Some(i)
    ensures FindSlot(cfg, BlockOffset(cfg, i, c, k) + b, c) == k
    ensures BlockOffset(cfg, i, c, k) + b < TWO_64
    ensures i < NULL_U32 && k < NULL_U16
  {
    hide BitAnd, IsPowerOfTwo, Size, Capacity;
    WithinSlab(cfg, c, k, b);
    WithinFile(cfg, i, k * Size(c) + b);
    CapacityExact(cfg, c);
    SlabPart(cfg, i, k * Size(c) + b);
    SlotPart(c, k, b);
  }

  lemma SlabPart(cfg: Config, i: nat, r: nat)
    requires ValidSlabSize(cfg.slabSize) && i < cfg.numSlabs < NULL_U32 && r < cfg.slabSize
    ensures FindSlab(cfg, cfg.slabsOffset + i * cfg.slabSize + r) == Some(i)
    ensures OffsetWithinSlab(cfg, i * cfg.slabSize + r) == r
  {
    hide BitAnd, IsPowerOfTwo;
    DivModUnique(i * cfg.slabSize + r, cfg.slabSize, i, r);
    MaskPart(cfg, i * cfg.slabSize + r);
  }

  lemma MaskPart(cfg: Config, x: nat)
    requires ValidSlabSize(cfg.slabSize)
    ensures OffsetWithinSlab(cfg, x) == x % cfg.slabSize
  {
    MaskIsMod(x, cfg.slabSize);
    hide BitAnd, IsPowerOfTwo, Pow2;
    SlabSizeBound(cfg.slabSize);
    SmallMod(x % cfg.slabSize, cfg.slabSize);
  }

  lemma SmallMod(r: nat, n: nat)
    requires r < n < TWO_32
    ensures r % TWO_32 == r
  {
  }

  lemma SlabSizeBound(slabSize: nat)
    requires ValidSlabSize(slabSize)
    ensures 0x4000 <= slabSize <= 0x80_0000
  {
    hide IsPowerOfTwo, Pow2;
    var m := SlabSizeExponent(slabSize);
    Pow2Mono(m, 23);
    Exponents();
  }

  lemma SlotPart(c: nat, k: nat, b: nat)
    requires c < NUM_SIZE_CLASSES && k < TWO_16 && b < Size(c)
    ensures ((k * Size(c) + b) / Size(c)) % TWO_16 == k
  {
    DivModUnique(k * Size(c) + b, Size(c), k, b);
  }

  /** Blocks of distinct slabs, or of distinct slots of one slab, share no byte. */
  lemma BlocksDisjoint(cfg: Config, i: nat, c: nat, k: nat, b: nat, j: nat, d: nat, l: nat, e: nat)
    requires ValidConfig(cfg)
    requires i < cfg.numSlabs && c < NUM_SIZE_CLASSES && k < Capacity(cfg, c) && b < Size(c)
    requires j < cfg.numSlabs && d < NUM_SIZE_CLASSES && l < Capacity(cfg, d) && e < Size(d)
    requires i != j || (c == d && k != l)
    ensures BlockOffset(cfg, i, c, k) + b != BlockOffset(cfg, j, d, l) + e
  {
    RoundTrip(cfg, i, c, k, b);
    RoundTrip(cfg, j, d, l, e);
  }

  lemma Factor(base: nat, i: nat, k: nat, n: nat, s: nat)
    ensures base * (n * s) + i * (n * s) + k * s == (base * n + i * n + k) * s
  {
    assert base * (n * s) == (base * n) * s;
    assert i * (n * s) == (i * n) * s;
    assert (base * n + i * n) * s == (base * n) * s + (i * n) * s;
  }

  /** Block offsets are multiples of the block size whenever the slabs start at a multiple of the slab size. */
  lemma BlockAligned(cfg: Config, i: nat, c: nat, k: nat, base: nat)
    requires ValidSlabSize(cfg.slabSize) && c < NUM_SIZE_CLASSES
    requires cfg.slabsOffset == base * cfg.slabSize
    ensures BlockOffset(cfg, i, c, k) % Size(c) == 0
  {
    hide IsPowerOfTwo, Size, Capacity;
    CapacityExact(cfg, c);
    var n := Capacity(cfg, c);
    var s := Size(c);
    Factor(base, i, k, n, s);
    DivModUnique(BlockOffset(cfg, i, c, k), s, base * n + i * n + k, 0);
  }
}
