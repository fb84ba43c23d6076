/** When the memory map is sound, and what the search for metadata slabs finds. */
module LayoutSound {
  import opened Base
  import opened Bits
  import opened SizeClasses
  import opened Address
  import opened Layout

  // ----- the map in closed form

  lemma SmallPowersOfTwo()
    ensures IsPowerOfTwo(4) && IsPowerOfTwo(8) && IsPowerOfTwo(64)
  {
    assert IsPowerOfTwo(2);
    assert IsPowerOfTwo(4);
    assert IsPowerOfTwo(8);
    assert IsPowerOfTwo(16);
    assert IsPowerOfTwo(32);
  }

  lemma StackBound(slabSize: nat, slabs: nat)
    requires slabs < TWO_32
    ensures FreeStacksSize(slabs, slabSize) <= 0x20002 * TWO_32
  {
    MulMono(SingleFreeStackSize(slabSize), 0x20002, slabs);
  }

  lemma AlignedKept(x: nat, slabs: nat)
    requires x % 64 == 0
    ensures (x + META_SIZE * slabs) % 64 == 0 && (x + META_SIZE * slabs) % 8 == 0
  {
    DivMod(x, 64);
    DivModUnique(x + META_SIZE * slabs, 64, x / 64 + 2 * slabs, 0);
    DivModUnique(x + META_SIZE * slabs, 8, 8 * (x / 64 + 2 * slabs), 0);
  }

  lemma RoundToMultiple(x: nat, n: nat)
    requires n > 0 && x % n == 0
    ensures RoundTo(x, n) == x
  {
    DivMod(x, n);
  }

  /** The map without masks: only the metadata region and the slabs ever need padding. */
  lemma LayoutValues(workers: nat, slabSize: nat, slabs: nat)
    requires ValidSlabSize(slabSize) && workers < TWO_32 && slabs < TWO_32 && 0 < slabSize < TWO_32
    ensures var l := TrueLayout(workers, slabSize, slabs);
      && l.freeListElements == HEADER_SIZE + WORKER_HEADS_SIZE * workers
      && l.slabSharedMeta == RoundTo(l.freeListElements + NODE_SIZE * slabs, META_ALIGNMENT)
      && l.slabFreeStacks == l.slabSharedMeta + META_SIZE * slabs
      && l.slabs == RoundTo(l.slabFreeStacks + FreeStacksSize(slabs, slabSize), slabSize)
      && l.slabSharedMeta % 64 == 0 && l.slabFreeStacks % 8 == 0
  {
    SlabSizeBound(slabSize);
    StackBound(slabSize, slabs);
    hide RoundUp, RoundTo, IsPowerOfTwo, FreeStacksSize, ValidSlabSize;
    var elements := HEADER_SIZE + WORKER_HEADS_SIZE * workers;
    var meta := RoundTo(elements + NODE_SIZE * slabs, 64);
    HeadRounds(workers, slabs);
    MetaRounds(elements + NODE_SIZE * slabs, slabs);
    LastRound(slabSize, meta + META_SIZE * slabs + FreeStacksSize(slabs, slabSize));
  }

  lemma HeadRounds(workers: nat, slabs: nat)
    requires workers < TWO_32 && slabs < TWO_32
    ensures RoundUp(HEADER_SIZE + WORKER_HEADS_SIZE * workers, NODE_ALIGNMENT) == HEADER_SIZE + WORKER_HEADS_SIZE * workers
  {
    var elements := HEADER_SIZE + WORKER_HEADS_SIZE * workers;
    SmallPowersOfTwo();
    hide RoundUp, RoundTo, IsPowerOfTwo;
    MaskRounds(elements, 4);
    DivModUnique(elements, 4, 32 + 16 * workers, 0);
    RoundToMultiple(elements, 4);
  }

  /** The metadata region is padded to a cache line; behind it the free stacks need no padding. */
  lemma MetaRounds(x: nat, slabs: nat)
    requires x < 0x1_0000_0000_0000 && slabs < TWO_32
    ensures RoundUp(x, META_ALIGNMENT) == RoundTo(x, META_ALIGNMENT) < x + 64 && RoundTo(x, META_ALIGNMENT) % 64 == 0
    ensures var stacks := RoundTo(x, META_ALIGNMENT) + META_SIZE * slabs; RoundUp(stacks, FREE_STACK_ALIGNMENT) == stacks && stacks % 8 == 0
  {
    SmallPowersOfTwo();
    hide RoundUp, RoundTo, IsPowerOfTwo;
    MaskRounds(x, 64);
    RoundToBounds(x, 64);
    var meta := RoundTo(x, 64);
    AlignedKept(meta, slabs);
    MaskRounds(meta + META_SIZE * slabs, 8);
    RoundToMultiple(meta + META_SIZE * slabs, 8);
  }

  lemma LastRound(slabSize: nat, x: nat)
    requires ValidSlabSize(slabSize) && x <= 0x100_0000_0000_0000
    ensures 0 < slabSize < TWO_32 && RoundUp(x, slabSize) == RoundTo(x, slabSize)
  {
    SlabSizeBound(slabSize);
    hide RoundUp, RoundTo;
    MaskRounds(x, slabSize);
  }

  /** End of the last metadata region. */
  function MetaEnd(workers: nat, slabSize: nat, slabs: nat): nat
    requires 0 < slabSize < TWO_32
  {
    TrueLayout(workers, slabSize, slabs).slabFreeStacks + FreeStacksSize(slabs, slabSize)
  }

  /** Each worker moves everything behind the heads by exactly one head. */
  lemma WorkersShift(workers: nat, slabSize: nat, slabs: nat)
    requires ValidSlabSize(slabSize) && workers < TWO_32 && slabs < TWO_32 && 0 < slabSize < TWO_32
    ensures MetaEnd(workers, slabSize, slabs) == MetaEnd(0, slabSize, slabs) + WORKER_HEADS_SIZE * workers
    ensures TrueLayout(workers, slabSize, slabs).slabs == RoundTo(MetaEnd(workers, slabSize, slabs), slabSize)
  {
    LayoutValues(workers, slabSize, slabs);
    LayoutValues(0, slabSize, slabs);
    hide TrueLayout, RoundTo, ValidSlabSize;
    RoundToShift(HEADER_SIZE + NODE_SIZE * slabs, 64, workers);
    assert HEADER_SIZE + WORKER_HEADS_SIZE * workers + NODE_SIZE * slabs == HEADER_SIZE + NODE_SIZE * slabs + workers * 64;
  }

  // ----- soundness

  /** The six regions are ordered, disjoint and aligned, and the last slab ends within the file. */
  ghost predicate Sound(l: AllocatorLayout, workers: nat, slabSize: nat, fileSize: nat)
    requires slabSize > 0
  {
    && HEADER_SIZE + WORKER_HEADS_SIZE * workers <= l.freeListElements && l.freeListElements % NODE_ALIGNMENT == 0
    && l.freeListElements + NODE_SIZE * l.numSlabs <= l.slabSharedMeta && l.slabSharedMeta % META_ALIGNMENT == 0
    && l.slabSharedMeta + META_SIZE * l.numSlabs <= l.slabFreeStacks && l.slabFreeStacks % FREE_STACK_ALIGNMENT == 0
    && l.slabFreeStacks + FreeStacksSize(l.numSlabs, slabSize) <= l.slabs && l.slabs % slabSize == 0
    && l.slabs + l.numSlabs * slabSize <= fileSize
  }

  /** The map `create` uses, with its offsets before the casts. */
  function FinalLayout(slabSize: nat, l: WorkerLimits): AllocatorLayout
    requires 0 < slabSize < TWO_32
  {
    TrueLayout(l.maxWorkers, slabSize, l.usableSlabs)
  }

  lemma WorkersFit(slabSize: nat, usable: nat, meta: nat)
    requires 0 < slabSize < TWO_32 && Needed(slabSize, usable) <= meta
    ensures BaseBytes(slabSize, usable) + WORKER_HEADS_SIZE * Workers(slabSize, usable, meta) <= meta * slabSize
  {
    hide BaseBytes, Needed;
    SlackFits(slabSize, usable, meta);
    WorkersInFit(meta * slabSize - BaseBytes(slabSize, usable));
  }

  lemma WorkersInFit(slack: nat)
    ensures WORKER_HEADS_SIZE * WorkersIn(slack) <= slack
  {
  }

  /** With the offset of the slabs below 2^32 the metadata fits in front of the slabs set aside for it. */
  lemma MetaFits(slabSize: nat, usable: nat, meta: nat)
    requires ValidSlabSize(slabSize) && usable < TWO_32
    requires 0 < slabSize < TWO_32 && Needed(slabSize, usable) <= meta
    requires Workers(slabSize, usable, meta) < TWO_32
    requires TrueLayout(Workers(slabSize, usable, meta), slabSize, usable).slabs < TWO_32
    ensures TrueLayout(Workers(slabSize, usable, meta), slabSize, usable).slabs <= meta * slabSize
  {
    var w := Workers(slabSize, usable, meta);
    WorkersShift(w, slabSize, usable);
    WorkersShift(0, slabSize, usable);
    WorkersFit(slabSize, usable, meta);
    var end0, end := MetaEnd(0, slabSize, usable), MetaEnd(w, slabSize, usable);
    RoundToMono(end0, end, slabSize);
    BaseIsTrue(slabSize, usable);
    hide TrueLayout, RoundTo, MetaEnd, Workers, Needed, BaseBytes, ValidSlabSize;
    RoundToBounds(end0, slabSize);
    RoundToLeast(end, slabSize, meta);
  }

  lemma BaseIsTrue(slabSize: nat, usable: nat)
    requires 0 < slabSize < TWO_32
    ensures TrueLayout(0, slabSize, usable).slabs < TWO_32 ==> BaseBytes(slabSize, usable) == TrueLayout(0, slabSize, usable).slabs
  {
    hide TrueLayout;
  }

  lemma NothingCut(l: AllocatorLayout)
    requires l.freeListElements <= l.slabSharedMeta <= l.slabFreeStacks <= l.slabs < TWO_32
    ensures Stored(l) == l
  {
  }

  lemma TrueOrdered(workers: nat, slabSize: nat, slabs: nat)
    requires ValidSlabSize(slabSize) && workers < TWO_32 && slabs < TWO_32 && 0 < slabSize < TWO_32
    ensures var l := TrueLayout(workers, slabSize, slabs);
      && l.numSlabs == slabs
      && l.freeListElements == HEADER_SIZE + WORKER_HEADS_SIZE * workers && l.freeListElements % 4 == 0
      && l.freeListElements + NODE_SIZE * slabs <= l.slabSharedMeta < l.freeListElements + NODE_SIZE * slabs + 64
      && l.slabFreeStacks == l.slabSharedMeta + META_SIZE * slabs
      && l.slabFreeStacks + FreeStacksSize(slabs, slabSize) <= l.slabs
      && l.slabs < l.slabFreeStacks + FreeStacksSize(slabs, slabSize) + slabSize
      && l.slabSharedMeta % 64 == 0 && l.slabFreeStacks % 8 == 0 && l.slabs % slabSize == 0
  {
    LayoutValues(workers, slabSize, slabs);
    var l := TrueLayout(workers, slabSize, slabs);
    assert l.numSlabs == slabs;
    hide TrueLayout, RoundTo, ValidSlabSize;
    DivModUnique(HEADER_SIZE + WORKER_HEADS_SIZE * workers, 4, 32 + 16 * workers, 0);
    RoundToBounds(l.freeListElements + NODE_SIZE * slabs, 64);
    StackBound(slabSize, slabs);
    RoundToBounds(l.slabFreeStacks + FreeStacksSize(slabs, slabSize), slabSize);
  }

  lemma SlabsFit(fileSize: nat, slabSize: nat, meta: nat, usable: nat)
    requires slabSize > 0 && meta + usable <= fileSize / slabSize
    ensures meta * slabSize + usable * slabSize <= fileSize
  {
    DivMod(fileSize, slabSize);
    MulMono(meta + usable, fileSize / slabSize, slabSize);
    assert (meta + usable) * slabSize == meta * slabSize + usable * slabSize;
  }

  /** What `create` and `join` require of a file's size and slab size. */
  predicate ValidSizes(fileSize: nat, slabSize: nat) {
    ValidSlabSize(slabSize) && fileSize < TWO_64 && slabSize > 0 && fileSize / slabSize < TWO_32
  }

  lemma LimitsFit(fileSize: nat, slabSize: nat, minWorkers: nat)
    requires ValidSizes(fileSize, slabSize)
    ensures 0 < slabSize < TWO_32
    ensures Limits(fileSize, slabSize, minWorkers).Some? ==>
      var l := Limits(fileSize, slabSize, minWorkers).value;
      && 1 <= l.metaSlabs && 1 <= l.usableSlabs && l.metaSlabs + l.usableSlabs == fileSize / slabSize
      && Needed(slabSize, l.usableSlabs) <= l.metaSlabs
      && minWorkers <= l.maxWorkers == Workers(slabSize, l.usableSlabs, l.metaSlabs) < TWO_32
  {
    SlabSizeBound(slabSize);
    TotalExact(fileSize, slabSize);
    hide Needed, Workers, Search, ValidSlabSize, TotalSlabs;
    if Limits(fileSize, slabSize, minWorkers).Some? {
      SearchFits(fileSize / slabSize, slabSize, minWorkers, 1);
      WorkersBelow(slabSize, Limits(fileSize, slabSize, minWorkers).value.usableSlabs, Limits(fileSize, slabSize, minWorkers).value.metaSlabs);
    }
  }

  lemma TotalExact(fileSize: nat, slabSize: nat)
    requires slabSize > 0 && fileSize / slabSize < TWO_32
    ensures TotalSlabs(fileSize, slabSize) == fileSize / slabSize
  {
  }

  lemma WorkersBelow(slabSize: nat, usable: nat, meta: nat)
    requires 0 < slabSize < TWO_32
    ensures Workers(slabSize, usable, meta) < TWO_32
  {
    hide BaseBytes;
  }

  /** Nothing cut by the casts: the map is sound, and starts the slabs within the metadata slabs. */
  lemma SoundIfFits(fileSize: nat, slabSize: nat, minWorkers: nat)
    requires ValidSizes(fileSize, slabSize) && 0 < slabSize < TWO_32 && Limits(fileSize, slabSize, minWorkers).Some?
    requires FinalLayout(slabSize, Limits(fileSize, slabSize, minWorkers).value).slabs < TWO_32
    ensures var l := Limits(fileSize, slabSize, minWorkers).value;
      && Stored(FinalLayout(slabSize, l)) == FinalLayout(slabSize, l)
      && Sound(Stored(FinalLayout(slabSize, l)), l.maxWorkers, slabSize, fileSize)
      && FinalLayout(slabSize, l).slabs <= l.metaSlabs * slabSize
  {
    LimitsFit(fileSize, slabSize, minWorkers);
    var l := Limits(fileSize, slabSize, minWorkers).value;
    TrueOrdered(l.maxWorkers, slabSize, l.usableSlabs);
    MetaFits(slabSize, l.usableSlabs, l.metaSlabs);
    SlabsFit(fileSize, slabSize, l.metaSlabs, l.usableSlabs);
    hide Limits, TrueLayout, Workers, Needed, ValidSlabSize, FreeStacksSize;
    NothingCut(FinalLayout(slabSize, l));
  }

  /**
   * Where the slabs start, exactly, when no offset is cut: right behind the metadata slabs if and only if the count of
   * workers was not cut to 32 bits.
   */
  lemma SlabsStartBehindMeta(fileSize: nat, slabSize: nat, minWorkers: nat)
    requires ValidSizes(fileSize, slabSize) && 0 < slabSize < TWO_32 && Limits(fileSize, slabSize, minWorkers).Some?
    requires FinalLayout(slabSize, Limits(fileSize, slabSize, minWorkers).value).slabs < TWO_32
    ensures var l := Limits(fileSize, slabSize, minWorkers).value;
      && BaseBytes(slabSize, l.usableSlabs) <= l.metaSlabs * slabSize
      && (FinalLayout(slabSize, l).slabs == l.metaSlabs * slabSize
          <==> (l.metaSlabs * slabSize - BaseBytes(slabSize, l.usableSlabs)) / WORKER_HEADS_SIZE < TWO_32)
  {
    LimitsFit(fileSize, slabSize, minWorkers);
    var l := Limits(fileSize, slabSize, minWorkers).value;
    hide Limits, TrueLayout, RoundTo, MetaEnd, Workers, WorkersIn, Needed, BaseBytes, ValidSlabSize;
    StartFacts(slabSize, l);
    StartOf(MetaEnd(0, slabSize, l.usableSlabs), BaseBytes(slabSize, l.usableSlabs), slabSize, l.metaSlabs, l.maxWorkers);
  }

  /** Where the metadata ends with no worker and with all of them, when no offset is cut. */
  lemma StartFacts(slabSize: nat, l: WorkerLimits)
    requires ValidSlabSize(slabSize) && 0 < slabSize < TWO_32 && l.usableSlabs < TWO_32 && Needed(slabSize, l.usableSlabs) <= l.metaSlabs
    requires l.maxWorkers == Workers(slabSize, l.usableSlabs, l.metaSlabs) < TWO_32 && FinalLayout(slabSize, l).slabs < TWO_32
    ensures 64 <= slabSize <= 0x80_0000 && slabSize % WORKER_HEADS_SIZE == 0
    ensures BaseBytes(slabSize, l.usableSlabs) == RoundTo(MetaEnd(0, slabSize, l.usableSlabs), slabSize) <= l.metaSlabs * slabSize
    ensures l.maxWorkers == WorkersIn(l.metaSlabs * slabSize - BaseBytes(slabSize, l.usableSlabs))
    ensures FinalLayout(slabSize, l).slabs
            == RoundTo(MetaEnd(0, slabSize, l.usableSlabs) + WORKER_HEADS_SIZE * l.maxWorkers, slabSize)
  {
    SlabSizeBound(slabSize);
    SlackFits(slabSize, l.usableSlabs, l.metaSlabs);
    WorkersShift(l.maxWorkers, slabSize, l.usableSlabs);
    WorkersShift(0, slabSize, l.usableSlabs);
    BaseIsTrue(slabSize, l.usableSlabs);
    BaseMultiple(slabSize, l.usableSlabs);
    hide TrueLayout, RoundTo, MetaEnd, Workers, WorkersIn, Needed, BaseBytes, ValidSlabSize;
    RoundToMono(MetaEnd(0, slabSize, l.usableSlabs), MetaEnd(l.maxWorkers, slabSize, l.usableSlabs), slabSize);
  }

  lemma BaseMultiple(slabSize: nat, usable: nat)
    requires ValidSlabSize(slabSize) && 0 < slabSize < TWO_32 && usable < TWO_32
    ensures slabSize % WORKER_HEADS_SIZE == 0
  {
    CapacityExact(Config(0, 0, slabSize, 0), 0);
    DivModUnique(slabSize, WORKER_HEADS_SIZE, 4 * Capacity(Config(0, 0, slabSize, 0), 0), 0);
  }

  /** Metadata up to `end` rounded to `base`, and the workers that fit in what `meta` slabs leave over. */
  lemma StartOf(end: nat, base: nat, n: nat, meta: nat, w: nat)
    requires 64 <= n <= 0x80_0000 && n % WORKER_HEADS_SIZE == 0 && base == RoundTo(end, n) <= meta * n
    requires w == WorkersIn(meta * n - base)
    ensures RoundTo(end + WORKER_HEADS_SIZE * w, n) == meta * n
            <==> (meta * n - base) / WORKER_HEADS_SIZE < TWO_32
  {
    var slack := meta * n - base;
    RoundToBounds(end, n);
    RoundToBounds(end + WORKER_HEADS_SIZE * w, n);
    WholeHeads(base, meta, n);
    if slack / WORKER_HEADS_SIZE < TWO_32 {
      assert w == slack / WORKER_HEADS_SIZE;
      DivMod(slack, WORKER_HEADS_SIZE);
      DivModUnique(meta * n, n, meta, 0);
      MultipleUnique(RoundTo(end + WORKER_HEADS_SIZE * w, n), meta * n, end + WORKER_HEADS_SIZE * w, n);
    } else {
      CutHeads(slack);
    }
  }

  lemma CutHeads(slack: nat)
    requires slack / WORKER_HEADS_SIZE >= TWO_32
    ensures WORKER_HEADS_SIZE * WorkersIn(slack) + WORKER_HEADS_SIZE * TWO_32 <= slack
  {
  }

  /** What whole slabs leave over is a whole number of worker heads. */
  lemma WholeHeads(base: nat, meta: nat, n: nat)
    requires n > 0 && n % WORKER_HEADS_SIZE == 0 && base % n == 0 && base <= meta * n
    ensures (meta * n - base) % WORKER_HEADS_SIZE == 0
  {
    DivMod(base, n);
    DivMod(n, WORKER_HEADS_SIZE);
    var q := n / WORKER_HEADS_SIZE;
    assert meta * n == (meta * q) * WORKER_HEADS_SIZE;
    assert base == (base / n * q) * WORKER_HEADS_SIZE;
    MultiplesApart(meta * q, base / n * q, WORKER_HEADS_SIZE);
    DivModUnique(meta * n - base, WORKER_HEADS_SIZE, meta * q - base / n * q, 0);
  }

  /** A cut offset cannot leave the map sound: the regions no longer fit below it. */
  lemma UnsoundIfCut(workers: nat, slabSize: nat, slabs: nat, fileSize: nat)
    requires ValidSlabSize(slabSize) && workers < TWO_32 && slabs < TWO_32 && 0 < slabSize < TWO_32
    requires TrueLayout(workers, slabSize, slabs).slabs >= TWO_32
    ensures !Sound(Stored(TrueLayout(workers, slabSize, slabs)), workers, slabSize, fileSize)
  {
    TrueOrdered(workers, slabSize, slabs);
    SlabSizeBound(slabSize);
    hide TrueLayout, ValidSlabSize, FreeStacksSize;
    var l := TrueLayout(workers, slabSize, slabs);
    var c := Stored(l);
    assert c.numSlabs == slabs;
    hide Stored;
    if Sound(c, workers, slabSize, fileSize) {
      NoRoom(WORKER_HEADS_SIZE * workers, NODE_SIZE * slabs, META_SIZE * slabs, FreeStacksSize(slabs, slabSize), slabSize,
             l.slabs, c);
    }
    CutBelow(l);
  }

  lemma CutBelow(l: AllocatorLayout)
    requires l.slabs >= TWO_32
    ensures Stored(l).slabs <= l.slabs - TWO_32
  {
  }

  lemma NoRoom(heads: nat, nodes: nat, metas: nat, stacks: nat, slabSize: nat, slabs: nat, c: AllocatorLayout)
    requires HEADER_SIZE + heads <= c.freeListElements && c.freeListElements + nodes <= c.slabSharedMeta
    requires c.slabSharedMeta + metas <= c.slabFreeStacks && c.slabFreeStacks + stacks <= c.slabs
    requires slabs < HEADER_SIZE + heads + nodes + 64 + metas + stacks + slabSize && slabSize <= 0x80_0000
    ensures c.slabs > slabs - TWO_32
  {
  }

  /**
   * Layout soundness, exactly: for every file and slab size the code accepts, the map `create` lays out is sound if
   * and only if the slabs' offset fits 32 bits.
   */
  lemma LayoutSoundIff(fileSize: nat, slabSize: nat, minWorkers: nat)
    requires ValidSizes(fileSize, slabSize) && 0 < slabSize < TWO_32 && Limits(fileSize, slabSize, minWorkers).Some?
    ensures var l := Limits(fileSize, slabSize, minWorkers).value;
      Sound(Stored(FinalLayout(slabSize, l)), l.maxWorkers, slabSize, fileSize) <==> FinalLayout(slabSize, l).slabs < TWO_32
  {
    var l := Limits(fileSize, slabSize, minWorkers).value;
    LimitsFit(fileSize, slabSize, minWorkers);
    hide Limits, TrueLayout, Sound, ValidSlabSize;
    if FinalLayout(slabSize, l).slabs < TWO_32 {
      SoundIfFits(fileSize, slabSize, minWorkers);
    } else {
      UnsoundIfCut(l.maxWorkers, slabSize, l.usableSlabs, fileSize);
    }
  }

  /**
   * The hypothesis is needed: one worker on 2^14-byte slabs in a file of 15790321 slabs. The metadata ends just below
   * 2^32, its 32-bit offset reads zero, and the slabs are laid over the header.
   */
  lemma UnsoundLayout()
    ensures var slabSize, fileSize := 16384, 15790321 * 16384;
      && ValidSizes(fileSize, slabSize)
      && Limits(fileSize, slabSize, 1) == Some(WorkerLimits(1, 15790320, 256))
      && !Sound(Stored(FinalLayout(slabSize, WorkerLimits(1, 15790320, 256))), 256, slabSize, fileSize)
  {
    hide BaseBytes, Needed, Workers, Search, ValidSlabSize, ValidSizes, Limits, Sound, FinalLayout, DivCeil;
    SmallSlabs();
    CutBase();
    TotalHere();
    NeededValue(16384, 15790320);
    SearchUnfolds(15790321, 16384, 1, 1);
    WorkersValue(16384, 15790320, 1, 256);
    UnsoundHere();
  }

  lemma TotalHere()
    requires ValidSlabSize(16384)
    ensures ValidSizes(15790321 * 16384, 16384)
    ensures forall w: nat :: Limits(15790321 * 16384, 16384, w) == Search(15790321, 16384, w, 1)
    ensures DivCeil(0, 16384) == 0
  {
    hide Search, ValidSlabSize;
    assert 15790321 * 16384 / 16384 == 15790321;
  }

  /** The metadata of 15790320 slabs rounds up to exactly 2^32. */
  lemma CutBase()
    requires ValidSlabSize(16384)
    ensures BaseBytes(16384, 15790320) == 0
  {
    hide TrueLayout, ValidSlabSize;
    BaseFrom(15790320, 189483968, 262144);
  }

  /** The metadata of `n` slabs of 2^14 bytes, from the two roundings. */
  lemma BaseFrom(n: nat, x: nat, q: nat)
    requires ValidSlabSize(16384) && n < TWO_32 && x % 64 == 0 && HEADER_SIZE + NODE_SIZE * n <= x < HEADER_SIZE + NODE_SIZE * n + 64
    requires x + 260 * n <= q * 16384 < x + 260 * n + 16384
    ensures TrueLayout(0, 16384, n).slabs == q * 16384
    ensures BaseBytes(16384, n) == q * 16384 % TWO_32
  {
    SmallStack();
    hide TrueLayout, ValidSlabSize, FreeStacksSize, RoundTo, MetaEnd;
    MetaEndValue(16384, n);
    RoundToBounds(HEADER_SIZE + NODE_SIZE * n, 64);
    MultipleUnique(RoundTo(HEADER_SIZE + NODE_SIZE * n, 64), x, HEADER_SIZE + NODE_SIZE * n, 64);
    RoundToBounds(x + 260 * n, 16384);
    DivModUnique(q * 16384, 16384, q, 0);
    MultipleUnique(RoundTo(x + 260 * n, 16384), q * 16384, x + 260 * n, 16384);
  }

  lemma SmallStack()
    ensures forall slabs: nat :: FreeStacksSize(slabs, 16384) == 132 * slabs
  {
    assert SingleFreeStackSize(16384) == 132;
  }

  lemma WorkersValue(slabSize: nat, usable: nat, meta: nat, w: nat)
    requires 0 < slabSize < TWO_32 && w < TWO_32
    requires meta * slabSize == BaseBytes(slabSize, usable) + WORKER_HEADS_SIZE * w
    ensures Workers(slabSize, usable, meta) == w
  {
    hide BaseBytes;
  }

  lemma UnsoundHere()
    requires ValidSlabSize(16384)
    ensures !Sound(Stored(FinalLayout(16384, WorkerLimits(1, 15790320, 256))), 256, 16384, 15790321 * 16384)
  {
    LayoutValues(256, 16384, 15790320);
    hide TrueLayout, ValidSlabSize;
    UnsoundIfCut(256, 16384, 15790320, 15790321 * 16384);
  }

  lemma SmallSlabs()
    ensures ValidSlabSize(16384)
  {
    assert IsPowerOfTwo(16);
    assert IsPowerOfTwo(256) by { assert IsPowerOfTwo(32); assert IsPowerOfTwo(64); assert IsPowerOfTwo(128); }
    assert IsPowerOfTwo(4096) by { assert IsPowerOfTwo(512); assert IsPowerOfTwo(1024); assert IsPowerOfTwo(2048); }
    assert IsPowerOfTwo(8192);
  }

  // ----- what the search finds

  /** `meta` slabs hold the metadata of the others and leave room for the workers asked for. */
  predicate Feasible(total: nat, slabSize: nat, minWorkers: nat, meta: nat)
    requires 0 < slabSize < TWO_32
  {
    && 1 <= meta < total
    && Needed(slabSize, total - meta) <= meta && Workers(slabSize, total - meta, meta) >= minWorkers
  }

  /** Where the search goes after its first look: at least what the metadata of all but one slab needs. */
  function First(total: nat, slabSize: nat): nat
    requires 0 < slabSize < TWO_32 && total > 0
  {
    if Needed(slabSize, total - 1) > 1 then Needed(slabSize, total - 1) else 1
  }

  lemma MetaEndValue(slabSize: nat, slabs: nat)
    requires ValidSlabSize(slabSize) && 0 < slabSize < TWO_32 && slabs < TWO_32
    ensures MetaEnd(0, slabSize, slabs)
            == RoundTo(HEADER_SIZE + NODE_SIZE * slabs, 64) + META_SIZE * slabs + FreeStacksSize(slabs, slabSize)
    ensures TrueLayout(0, slabSize, slabs).slabs == RoundTo(MetaEnd(0, slabSize, slabs), slabSize)
  {
    LayoutValues(0, slabSize, slabs);
    hide TrueLayout, RoundTo, ValidSlabSize, FreeStacksSize;
  }

  lemma StacksMono(slabSize: nat, a: nat, b: nat)
    requires a <= b
    ensures FreeStacksSize(a, slabSize) <= FreeStacksSize(b, slabSize)
  {
    MulMono(a, b, SingleFreeStackSize(slabSize));
    assert SingleFreeStackSize(slabSize) * a == a * SingleFreeStackSize(slabSize);
    assert SingleFreeStackSize(slabSize) * b == b * SingleFreeStackSize(slabSize);
  }

  lemma MetaEndMono(slabSize: nat, a: nat, b: nat)
    requires ValidSlabSize(slabSize) && 0 < slabSize < TWO_32 && a <= b < TWO_32
    ensures MetaEnd(0, slabSize, a) <= MetaEnd(0, slabSize, b)
  {
    hide *;
    MetaEndValue(slabSize, a);
    MetaEndValue(slabSize, b);
    RoundToMono(HEADER_SIZE + NODE_SIZE * a, HEADER_SIZE + NODE_SIZE * b, 64);
    StacksMono(slabSize, a, b);
  }

  lemma BaseMono(slabSize: nat, a: nat, b: nat)
    requires ValidSlabSize(slabSize) && 0 < slabSize < TWO_32 && a <= b < TWO_32
    requires TrueLayout(0, slabSize, b).slabs < TWO_32
    ensures BaseBytes(slabSize, a) <= BaseBytes(slabSize, b) < TWO_32
  {
    hide *;
    MetaEndValue(slabSize, a);
    MetaEndValue(slabSize, b);
    MetaEndMono(slabSize, a, b);
    RoundToMono(MetaEnd(0, slabSize, a), MetaEnd(0, slabSize, b), slabSize);
    BaseIsTrue(slabSize, a);
    BaseIsTrue(slabSize, b);
  }

  /** Fewer usable slabs never need more metadata, as long as nothing is cut. */
  lemma NeededMono(slabSize: nat, a: nat, b: nat)
    requires ValidSlabSize(slabSize) && 0 < slabSize < TWO_32 && a <= b < TWO_32
    requires TrueLayout(0, slabSize, b).slabs < TWO_32
    ensures Needed(slabSize, a) <= Needed(slabSize, b)
  {
    hide *;
    BaseMono(slabSize, a, b);
    DivCeilMono(BaseBytes(slabSize, a), BaseBytes(slabSize, b), slabSize);
    NeededValue(slabSize, a);
    NeededValue(slabSize, b);
  }

  lemma NeededValue(slabSize: nat, usable: nat)
    requires 0 < slabSize < TWO_32
    ensures Needed(slabSize, usable) == DivCeil(BaseBytes(slabSize, usable), slabSize)
  {
    hide TrueLayout, DivCeil;
    QuotientBelow(BaseBytes(slabSize, usable), slabSize);
  }

  lemma DivCeilMono(a: nat, b: nat, n: nat)
    requires n > 0 && a <= b
    ensures DivCeil(a, n) <= DivCeil(b, n)
  {
    RoundToMono(a, b, n);
    MultiplesApart(DivCeil(b, n), DivCeil(a, n), n);
  }

  lemma SettlesAfterFirst(total: nat, slabSize: nat, minWorkers: nat, meta: nat)
    requires ValidSlabSize(slabSize) && 0 < slabSize < TWO_32 && 0 < total < TWO_32
    requires TrueLayout(0, slabSize, total - 1).slabs < TWO_32 && First(total, slabSize) <= meta < total
    ensures Needed(slabSize, total - meta) <= meta
    ensures Feasible(total, slabSize, minWorkers, meta) <==> Workers(slabSize, total - meta, meta) >= minWorkers
  {
    hide Needed, Workers, TrueLayout, ValidSlabSize;
    NeededMono(slabSize, total - meta, total - 1);
  }

  lemma NoneFeasibleBeyond(total: nat, slabSize: nat, minWorkers: nat, m: nat)
    requires 0 < slabSize < TWO_32 && m >= total
    ensures !Feasible(total, slabSize, minWorkers, m)
  {
  }

  /** Once past its first jump the search looks at every count in turn, and stops at the first that serves. */
  lemma {:induction false} SearchFrom(total: nat, slabSize: nat, minWorkers: nat, meta: nat)
    requires ValidSlabSize(slabSize) && 0 < slabSize < TWO_32 && 0 < total < TWO_32
    requires TrueLayout(0, slabSize, total - 1).slabs < TWO_32 && First(total, slabSize) <= meta
    ensures var r := Search(total, slabSize, minWorkers, meta);
      && (r.None? ==> forall m: nat :: meta <= m ==> !Feasible(total, slabSize, minWorkers, m))
      && (r.Some? ==> Feasible(total, slabSize, minWorkers, r.value.metaSlabs) && meta <= r.value.metaSlabs
                      && forall m: nat :: meta <= m < r.value.metaSlabs ==> !Feasible(total, slabSize, minWorkers, m))
    decreases if meta < total then total - meta else 0
  {
    hide *;
    SearchUnfolds(total, slabSize, minWorkers, meta);
    if meta < total {
      SettlesAfterFirst(total, slabSize, minWorkers, meta);
      if Workers(slabSize, total - meta, meta) < minWorkers { SearchFrom(total, slabSize, minWorkers, meta + 1); }
    } else {
      forall m: nat | meta <= m ensures !Feasible(total, slabSize, minWorkers, m) {
        NoneFeasibleBeyond(total, slabSize, minWorkers, m);
      }
    }
  }

  /**
   * What the search finds, exactly, when nothing is cut: the least feasible count of metadata slabs that is not below
   * its first jump; it fails if and only if there is none.
   */
  lemma SearchFindsLeast(total: nat, slabSize: nat, minWorkers: nat)
    requires ValidSlabSize(slabSize) && 0 < slabSize < TWO_32 && 0 < total < TWO_32
    requires TrueLayout(0, slabSize, total - 1).slabs < TWO_32
    ensures var r := Search(total, slabSize, minWorkers, 1); var first := First(total, slabSize);
      && (r.None? <==> forall m: nat :: first <= m ==> !Feasible(total, slabSize, minWorkers, m))
      && (r.Some? ==> Feasible(total, slabSize, minWorkers, r.value.metaSlabs) && first <= r.value.metaSlabs
                      && forall m: nat :: first <= m < r.value.metaSlabs ==> !Feasible(total, slabSize, minWorkers, m))
  {
    SearchUnfolds(total, slabSize, minWorkers, 1);
    hide Needed, Workers, TrueLayout, ValidSlabSize, Search;
    SearchFrom(total, slabSize, minWorkers, First(total, slabSize));
  }

  /** Fewer usable slabs end their metadata no later, as the 32-bit field gives it. */
  lemma BytesBelowFirst(total: nat, slabSize: nat, m: nat)
    requires ValidSlabSize(slabSize) && 0 < slabSize < TWO_32 && 0 < total < TWO_32
    requires TrueLayout(0, slabSize, total - 1).slabs < TWO_32 && m < First(total, slabSize)
    ensures m * slabSize < TWO_32
  {
    SlabSizeBound(slabSize);
    NeededValue(slabSize, total - 1);
    hide Needed, TrueLayout, ValidSlabSize, BaseBytes, RoundTo;
    BaseMono(slabSize, total - 1, total - 1);
    BytesBelow(BaseBytes(slabSize, total - 1), slabSize, m);
  }

  lemma BytesBelow(bytes: nat, n: nat, m: nat)
    requires n > 0 && bytes < TWO_32 && n < TWO_32 && (m == 0 || m < DivCeil(bytes, n))
    ensures m * n < TWO_32
  {
    if m > 0 { CeilBelow(bytes, n, m); }
    hide DivCeil;
    DivMod(bytes, n);
    MultiplesApart(m, bytes / n, n);
  }

  lemma CeilBelow(bytes: nat, n: nat, m: nat)
    requires n > 0 && m < DivCeil(bytes, n)
    ensures m <= bytes / n
  {
  }

  /** Less room taken by metadata and more room for it leave room for at least as many workers, short of a wrap. */
  lemma WorkersMono(slabSize: nat, a: nat, m: nat, b: nat, n: nat)
    requires 0 < slabSize < TWO_32 && m <= n && n * slabSize < TWO_32
    requires Needed(slabSize, a) <= m && Needed(slabSize, b) <= n && BaseBytes(slabSize, b) <= BaseBytes(slabSize, a)
    ensures Workers(slabSize, a, m) <= Workers(slabSize, b, n)
  {
    hide BaseBytes, Needed;
    SlackFits(slabSize, a, m);
    SlackFits(slabSize, b, n);
    hide Workers;
    MulMono(m, n, slabSize);
    NoWrap(Slack(m, slabSize, BaseBytes(slabSize, a)), Slack(n, slabSize, BaseBytes(slabSize, b)));
  }

  lemma NoWrap(a: nat, b: nat)
    requires a <= b < TWO_32
    ensures WorkersIn(a) <= WorkersIn(b)
  {
  }

  /** Below the first jump a count that serves makes every larger one serve. */
  lemma FeasibleUpward(total: nat, slabSize: nat, minWorkers: nat, m: nat, n: nat)
    requires ValidSlabSize(slabSize) && 0 < slabSize < TWO_32 && 0 < total < TWO_32
    requires TrueLayout(0, slabSize, total - 1).slabs < TWO_32
    requires Feasible(total, slabSize, minWorkers, m) && m <= n < First(total, slabSize) && n < total
    ensures Feasible(total, slabSize, minWorkers, n)
  {
    hide Needed, Workers, TrueLayout, ValidSlabSize, First, BaseBytes, DivCeil;
    BytesBelowFirst(total, slabSize, n);
    BaseFits(slabSize, total - m, total - 1);
    NeededMono(slabSize, total - n, total - m);
    BaseMono(slabSize, total - n, total - m);
    WorkersMono(slabSize, total - m, m, total - n, n);
  }

  /** The metadata of fewer slabs is not cut either. */
  lemma BaseFits(slabSize: nat, a: nat, b: nat)
    requires ValidSlabSize(slabSize) && 0 < slabSize < TWO_32 && a <= b < TWO_32
    requires TrueLayout(0, slabSize, b).slabs < TWO_32
    ensures TrueLayout(0, slabSize, a).slabs < TWO_32
  {
    MetaEndValue(slabSize, a);
    MetaEndValue(slabSize, b);
    MetaEndMono(slabSize, a, b);
    hide TrueLayout, MetaEnd, RoundTo, ValidSlabSize;
    RoundToMono(MetaEnd(0, slabSize, a), MetaEnd(0, slabSize, b), slabSize);
  }

  /**
   * So it finds the smallest feasible count if and only if the count just below its first jump will not do: one
   * evaluation decides.
   */
  lemma SearchFindsSmallestIff(total: nat, slabSize: nat, minWorkers: nat)
    requires ValidSlabSize(slabSize) && 0 < slabSize < TWO_32 && 0 < total < TWO_32
    requires TrueLayout(0, slabSize, total - 1).slabs < TWO_32 && Search(total, slabSize, minWorkers, 1).Some?
    ensures (forall m: nat :: m < Search(total, slabSize, minWorkers, 1).value.metaSlabs ==> !Feasible(total, slabSize, minWorkers, m))
            <==> !Feasible(total, slabSize, minWorkers, First(total, slabSize) - 1)
  {
    hide Search, First, Feasible, TrueLayout, ValidSlabSize;
    SearchFindsLeast(total, slabSize, minWorkers);
    FirstInRange(total, slabSize, minWorkers);
    var first := First(total, slabSize);
    forall m: nat | m < first && Feasible(total, slabSize, minWorkers, m) ensures Feasible(total, slabSize, minWorkers, first - 1) {
      FeasibleUpward(total, slabSize, minWorkers, m, first - 1);
    }
  }

  lemma FirstInRange(total: nat, slabSize: nat, minWorkers: nat)
    requires ValidSlabSize(slabSize) && 0 < slabSize < TWO_32 && 0 < total < TWO_32
    requires TrueLayout(0, slabSize, total - 1).slabs < TWO_32 && Search(total, slabSize, minWorkers, 1).Some?
    ensures 1 <= First(total, slabSize) < total
  {
    hide Search, TrueLayout, ValidSlabSize, Needed, Workers;
    SearchFindsLeast(total, slabSize, minWorkers);
  }

  /** It can overshoot: for 3735 slabs of 2^14 bytes and one worker it takes 63 metadata slabs where 62 would do. */
  lemma SearchOvershoots()
    ensures Search(3735, 16384, 1, 1).Some? && Search(3735, 16384, 1, 1).value.metaSlabs == 63
    ensures Feasible(3735, 16384, 1, 62)
  {
    hide BaseBytes, Needed, Workers, Search, ValidSlabSize, Feasible, DivCeil;
    SmallSlabs();
    BaseFrom(3734, 44992, 63);
    BaseFrom(3673, 44224, 61);
    BaseFrom(3672, 44224, 61);
    NeededValue(16384, 3734);
    NeededValue(16384, 3673);
    NeededValue(16384, 3672);
    Quotients();
    SearchUnfolds(3735, 16384, 1, 1);
    SearchUnfolds(3735, 16384, 1, 63);
    WorkersValue(16384, 3672, 63, 512);
    WorkersValue(16384, 3673, 62, 256);
    FeasibleHere();
  }

  lemma Quotients()
    ensures DivCeil(63 * 16384, 16384) == 63 && DivCeil(61 * 16384, 16384) == 61
  {
  }

  lemma FeasibleHere()
    requires Needed(16384, 3673) == 61 && Workers(16384, 3673, 62) == 256
    ensures Feasible(3735, 16384, 1, 62)
  {
    hide Needed, Workers;
  }

  // ----- a search misled by a cut offset

  /** The metadata of every count of slabs in this range rounds up to exactly 2^32, and reads zero. */
  lemma CutRange(n: nat)
    requires ValidSlabSize(16384) && 15790261 <= n <= 15790320
    ensures BaseBytes(16384, n) == 0 && Needed(16384, n) == 0
  {
    SmallStack();
    hide TrueLayout, ValidSlabSize, FreeStacksSize, RoundTo, MetaEnd, Needed;
    MetaEndValue(16384, n);
    RoundToBounds(HEADER_SIZE + NODE_SIZE * n, 64);
    var end := RoundTo(HEADER_SIZE + NODE_SIZE * n, 64) + 260 * n;
    RoundToBounds(end, 16384);
    MultipleUnique(RoundTo(end, 16384), TWO_32, end, 16384);
    NeededValue(16384, n);
  }

  /** The first sixty looks see no metadata at all and offer too few workers. */
  lemma {:induction false} SixtyLooks(meta: nat)
    requires ValidSlabSize(16384) && 1 <= meta <= 61
    ensures Search(15790321, 16384, 15361, meta) == Search(15790321, 16384, 15361, 61)
    decreases 61 - meta
  {
    hide Search, Needed, Workers, BaseBytes, ValidSlabSize;
    if meta < 61 {
      CutRange(15790321 - meta);
      WorkersValue(16384, 15790321 - meta, meta, meta * 256);
      SearchUnfolds(15790321, 16384, 15361, meta);
      SixtyLooks(meta + 1);
    }
  }

  /**
   * Without the hypothesis that nothing is cut the search finds neither the least count nor the least from its first
   * jump on: asked for 15361 workers in 15790321 slabs of 2^14 bytes it first sees no metadata, then jumps, and takes
   * 262143 metadata slabs where 257924 would do.
   */
  lemma CutMisleadsSearch()
    ensures First(15790321, 16384) == 1
    ensures Search(15790321, 16384, 15361, 1).Some? && Search(15790321, 16384, 15361, 1).value.metaSlabs == 262143
    ensures Feasible(15790321, 16384, 15361, 257924)
  {
    SmallSlabs();
    CutRange(15790320);
    FirstHere();
    hide BaseBytes, Needed, Workers, Search, ValidSlabSize, Feasible, DivCeil, First;
    SixtyLooks(1);
    BaseFrom(15790260, 189483264, 262143);
    NeededValue(16384, 15790260);
    BaseFrom(15528178, 186338304, 257793);
    NeededValue(16384, 15528178);
    BaseFrom(15532397, 186388928, 257863);
    NeededValue(16384, 15532397);
    LateQuotients();
    SearchUnfolds(15790321, 16384, 15361, 61);
    SearchUnfolds(15790321, 16384, 15361, 262143);
    WorkersValue(16384, 15528178, 262143, 1113600);
    WorkersValue(16384, 15532397, 257924, 15616);
    LateFeasible();
  }

  lemma FirstHere()
    requires Needed(16384, 15790320) == 0
    ensures First(15790321, 16384) == 1
  {
    hide Needed;
  }

  lemma LateQuotients()
    ensures DivCeil(262143 * 16384, 16384) == 262143 && DivCeil(257793 * 16384, 16384) == 257793
    ensures DivCeil(257863 * 16384, 16384) == 257863
  {
  }

  lemma LateFeasible()
    requires Needed(16384, 15532397) == 257863 && Workers(16384, 15532397, 257924) == 15616
    ensures Feasible(15790321, 16384, 15361, 257924)
  {
    hide Needed, Workers;
  }
}
