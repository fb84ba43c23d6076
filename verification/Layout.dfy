/**
 * The memory map of an allocator file and the search for how many slabs its metadata takes (src/header.rs).
 * Offsets are computed in 64 bits and stored in 32; the casts are written out.
 */
module Layout {
  import opened Base
  import opened Bits
  import opened SizeClasses

  const HEADER_SIZE: nat := 128
  const WORKER_HEADS_SIZE: nat := 64
  const NODE_SIZE: nat := 12
  const NODE_ALIGNMENT: nat := 4
  const META_SIZE: nat := 128
  const META_ALIGNMENT: nat := 64
  const FREE_STACK_ALIGNMENT: nat := 8

  datatype AllocatorLayout = AllocatorLayout(numSlabs: nat, freeListElements: nat, slabSharedMeta: nat, slabFreeStacks: nat, slabs: nat)

  datatype WorkerLimits = WorkerLimits(metaSlabs: nat, usableSlabs: nat, maxWorkers: nat)

  /** Two counters and one 16-bit index per block of the smallest class. */
  function SingleFreeStackSize(slabSize: nat): nat {
    4 + 2 * ((slabSize / MIN_SIZE) % TWO_16)
  }

  function FreeStacksSize(slabs: nat, slabSize: nat): nat {
    SingleFreeStackSize(slabSize) * slabs
  }

  /** The five regions after the header, before any cast to 32 bits. */
  function TrueLayout(workers: nat, slabSize: nat, slabs: nat): AllocatorLayout
    requires 0 < slabSize < TWO_32
  {
    var elements := RoundUp(HEADER_SIZE + WORKER_HEADS_SIZE * workers, NODE_ALIGNMENT);
    var meta := RoundUp(elements + NODE_SIZE * slabs, META_ALIGNMENT);
    var stacks := RoundUp(meta + META_SIZE * slabs, FREE_STACK_ALIGNMENT);
    AllocatorLayout(slabs, elements, meta, stacks, RoundUp(stacks + FreeStacksSize(slabs, slabSize), slabSize))
  }

  /** `as u32` of every offset. */
  function Stored(l: AllocatorLayout): AllocatorLayout {
    AllocatorLayout(l.numSlabs, l.freeListElements % TWO_32, l.slabSharedMeta % TWO_32, l.slabFreeStacks % TWO_32, l.slabs % TWO_32)
  }

  method LayoutFor(workers: nat, slabSize: nat, slabs: nat) returns (l: AllocatorLayout)
    requires 0 < slabSize < TWO_32
    ensures l == Stored(TrueLayout(workers, slabSize, slabs))
  {
    var offset := HEADER_SIZE;
    offset := offset + WORKER_HEADS_SIZE * workers;
    offset := RoundUp(offset, NODE_ALIGNMENT);
    var elements := offset % TWO_32;
    offset := offset + NODE_SIZE * slabs;
    offset := RoundUp(offset, META_ALIGNMENT);
    var meta := offset % TWO_32;
    offset := offset + META_SIZE * slabs;
    offset := RoundUp(offset, FREE_STACK_ALIGNMENT);
    var stacks := offset % TWO_32;
    offset := offset + FreeStacksSize(slabs, slabSize);
    l := AllocatorLayout(slabs, elements, meta, stacks, RoundUp(offset, slabSize) % TWO_32);
  }

  // ----- the search

  function DivCeil(a: nat, b: nat): nat
    requires b > 0
  {
    if a % b == 0 then a / b else a / b + 1
  }

  /** Bytes of metadata without any worker, as the 32-bit field gives them. */
  function BaseBytes(slabSize: nat, usable: nat): nat
    requires 0 < slabSize < TWO_32
  {
    Stored(TrueLayout(0, slabSize, usable)).slabs
  }

  function Needed(slabSize: nat, usable: nat): nat
    requires 0 < slabSize < TWO_32
  {
    SlabsFor(BaseBytes(slabSize, usable), slabSize)
  }

  /** `div_ceil` cut to 32 bits: slabs that hold that many bytes. */
  function SlabsFor(bytes: nat, slabSize: nat): nat
    requires slabSize > 0
  {
    DivCeil(bytes, slabSize) % TWO_32
  }

  /** What `meta` slabs leave over behind the metadata. */
  function Slack(meta: nat, slabSize: nat, base: nat): nat
    requires base <= meta * slabSize
  {
    meta * slabSize - base
  }

  /** Workers that fit in what `meta` slabs leave over. */
  function Workers(slabSize: nat, usable: nat, meta: nat): nat
    requires 0 < slabSize < TWO_32
  {
    if meta * slabSize < BaseBytes(slabSize, usable) then 0
    else WorkersIn(Slack(meta, slabSize, BaseBytes(slabSize, usable)))
  }

  function WorkersIn(slack: nat): nat {
    (slack / WORKER_HEADS_SIZE) % TWO_32
  }

  /** The search from `meta` metadata slabs on. */
  function Search(total: nat, slabSize: nat, minWorkers: nat, meta: nat): Option<WorkerLimits>
    requires 0 < slabSize < TWO_32
    decreases if meta < total then total - meta else 0
  {
    if meta >= total then None
    else if Needed(slabSize, total - meta) > meta then Search(total, slabSize, minWorkers, Needed(slabSize, total - meta))
    else if Workers(slabSize, total - meta, meta) < minWorkers then Search(total, slabSize, minWorkers, meta + 1)
    else Some(WorkerLimits(meta, total - meta, Workers(slabSize, total - meta, meta)))
  }

  /** `(file_size / slab_size) as u32`. */
  function TotalSlabs(fileSize: nat, slabSize: nat): (r: nat)
    requires slabSize > 0
    ensures r < TWO_32
  {
    (fileSize / slabSize) % TWO_32
  }

  /** What `max_workers` answers. */
  function Limits(fileSize: nat, slabSize: nat, minWorkers: nat): Option<WorkerLimits>
    requires slabSize < TWO_32
  {
    if slabSize == 0 then None else Search(TotalSlabs(fileSize, slabSize), slabSize, minWorkers, 1)
  }

  function SaturatingAdd32(a: nat, b: nat): nat {
    if a + b < TWO_32 then a + b else TWO_32 - 1
  }

  lemma NeededCovers(slabSize: nat, usable: nat)
    requires 0 < slabSize < TWO_32
    ensures BaseBytes(slabSize, usable) <= Needed(slabSize, usable) * slabSize
  {
    hide TrueLayout;
    var b := BaseBytes(slabSize, usable);
    DivMod(b, slabSize);
    MulMono(b / slabSize, b, 1);
    QuotientBelow(b, slabSize);
    assert (b / slabSize + 1) * slabSize == (b / slabSize) * slabSize + slabSize;
  }

  lemma QuotientBelow(b: nat, d: nat)
    requires d > 0 && b < TWO_32
    ensures DivCeil(b, d) < TWO_32
  {
    DivMod(b, d);
    MulMono(1, d, b / d);
    assert d * (b / d) == (b / d) * d;
  }

  lemma SearchUnfolds(total: nat, slabSize: nat, minWorkers: nat, meta: nat)
    requires 0 < slabSize < TWO_32
    ensures Search(total, slabSize, minWorkers, meta) ==
      if meta >= total then None
      else if Needed(slabSize, total - meta) > meta then Search(total, slabSize, minWorkers, Needed(slabSize, total - meta))
      else if Workers(slabSize, total - meta, meta) < minWorkers then Search(total, slabSize, minWorkers, meta + 1)
      else Some(WorkerLimits(meta, total - meta, Workers(slabSize, total - meta, meta)))
  {
  }

  lemma BaseUnfolds(slabSize: nat, usable: nat)
    requires 0 < slabSize < TWO_32
    ensures Stored(TrueLayout(0, slabSize, usable)).slabs == BaseBytes(slabSize, usable)
    ensures SlabsFor(BaseBytes(slabSize, usable), slabSize) == Needed(slabSize, usable) < TWO_32
  {
  }

  lemma NoSaturation(meta: nat, total: nat)
    requires meta < total < TWO_32
    ensures SaturatingAdd32(meta, 1) == meta + 1
  {
  }

  lemma SlackFits(slabSize: nat, usable: nat, meta: nat)
    requires 0 < slabSize < TWO_32 && Needed(slabSize, usable) <= meta
    ensures BaseBytes(slabSize, usable) <= meta * slabSize
    ensures Workers(slabSize, usable, meta) == WorkersIn(Slack(meta, slabSize, BaseBytes(slabSize, usable)))
  {
    hide BaseBytes, Needed;
    NeededCovers(slabSize, usable);
    MulMono(Needed(slabSize, usable), meta, slabSize);
  }

  /** The search loop ends, because its counter only grows and stops below the number of slabs; it never saturates. */
  method MaxWorkers(fileSize: nat, slabSize: nat, minWorkers: nat) returns (r: Option<WorkerLimits>)
    requires fileSize < TWO_64 && slabSize < TWO_32
    ensures r == Limits(fileSize, slabSize, minWorkers)
  {
    if slabSize == 0 { return None; }
    var total := TotalSlabs(fileSize, slabSize);
    if total == 0 { return None; }
    var meta := 1;
    hide *;
    while true
      invariant 1 <= meta < TWO_32 && 0 < total < TWO_32
      invariant Search(total, slabSize, minWorkers, meta) == Limits(fileSize, slabSize, minWorkers)
      decreases if meta < total then total - meta else 0
    {
      SearchUnfolds(total, slabSize, minWorkers, meta);
      if meta > total { return None; }
      var usable := total - meta;
      if usable == 0 { return None; }
      BaseUnfolds(slabSize, usable);
      var base := LayoutFor(0, slabSize, usable);
      var needed := SlabsFor(base.slabs, slabSize);
      if needed > meta {
        meta := needed;
        continue;
      }
      SlackFits(slabSize, usable, meta);
      var slack := Slack(meta, slabSize, base.slabs);
      var workers := WorkersIn(slack);
      if workers < minWorkers {
        NoSaturation(meta, total);
        meta := SaturatingAdd32(meta, 1);
        continue;
      }
      return Some(WorkerLimits(meta, usable, workers));
    }
  }

  // ----- what the search returns

  /** A result leaves the rest of the file usable, its metadata fits, and it serves the workers asked for. */
  lemma {:induction false} SearchFits(total: nat, slabSize: nat, minWorkers: nat, meta: nat)
    requires 0 < slabSize < TWO_32 && Search(total, slabSize, minWorkers, meta).Some?
    ensures var l := Search(total, slabSize, minWorkers, meta).value;
      && meta <= l.metaSlabs < total && l.usableSlabs == total - l.metaSlabs
      && Needed(slabSize, l.usableSlabs) <= l.metaSlabs
      && l.maxWorkers == Workers(slabSize, l.usableSlabs, l.metaSlabs) >= minWorkers
    decreases if meta < total then total - meta else 0
  {
    hide Needed, Workers;
    if meta < total {
      if Needed(slabSize, total - meta) > meta {
        SearchFits(total, slabSize, minWorkers, Needed(slabSize, total - meta));
      } else if Workers(slabSize, total - meta, meta) < minWorkers {
        SearchFits(total, slabSize, minWorkers, meta + 1);
      }
    }
  }

  /** Asking again for as many workers as were found walks through the same steps and finds the same limits. */
  lemma {:induction false} SearchAgrees(total: nat, slabSize: nat, minWorkers: nat, meta: nat)
    requires 0 < slabSize < TWO_32 && Search(total, slabSize, minWorkers, meta).Some?
    ensures var r := Search(total, slabSize, minWorkers, meta); Search(total, slabSize, r.value.maxWorkers, meta) == r
    decreases if meta < total then total - meta else 0
  {
    SearchFits(total, slabSize, minWorkers, meta);
    hide Needed, Workers;
    if meta < total {
      if Needed(slabSize, total - meta) > meta {
        SearchAgrees(total, slabSize, minWorkers, Needed(slabSize, total - meta));
      } else if Workers(slabSize, total - meta, meta) < minWorkers {
        SearchAgrees(total, slabSize, minWorkers, meta + 1);
      }
    }
  }

  /** Create/join agreement: recomputing with the number of workers found gives the limits found. */
  lemma LimitsAgree(fileSize: nat, slabSize: nat, minWorkers: nat)
    requires slabSize < TWO_32 && Limits(fileSize, slabSize, minWorkers).Some?
    ensures Limits(fileSize, slabSize, Limits(fileSize, slabSize, minWorkers).value.maxWorkers)
            == Limits(fileSize, slabSize, minWorkers)
  {
    SearchAgrees(TotalSlabs(fileSize, slabSize), slabSize, minWorkers, 1);
  }

  // ----- rounding

  /** The least multiple of `n` not below `x`. */
  function RoundTo(x: nat, n: nat): nat
    requires n > 0
  {
    DivCeil(x, n) * n
  }

  lemma RoundToBounds(x: nat, n: nat)
    requires n > 0
    ensures x <= RoundTo(x, n) < x + n
    ensures RoundTo(x, n) % n == 0
  {
    DivMod(x, n);
    assert (x / n + 1) * n == (x / n) * n + n;
    DivModUnique(DivCeil(x, n) * n, n, DivCeil(x, n), 0);
  }

  /** Two multiples of `n` in the same window of length `n` are the same. */
  lemma MultipleUnique(a: nat, b: nat, x: nat, n: nat)
    requires n > 0 && a % n == 0 && b % n == 0 && x <= a < x + n && x <= b < x + n
    ensures a == b
  {
    DivMod(a, n);
    DivMod(b, n);
    MultiplesApart(a / n, b / n, n);
    MultiplesApart(b / n, a / n, n);
  }

  /** Multiples of `n` come in order, at least `n` apart. */
  lemma MultiplesApart(p: nat, q: nat, n: nat)
    ensures p < q ==> p * n + n <= q * n
    ensures p <= q ==> p * n <= q * n
  {
    if p < q {
      MulMono(p + 1, q, n);
      assert (p + 1) * n == p * n + n;
    }
  }

  /** The mask of the code rounds up, for powers of two. */
  lemma MaskRounds(x: nat, n: nat)
    requires IsPowerOfTwo(n) && x + n - 1 < TWO_64
    ensures RoundUp(x, n) == RoundTo(x, n)
  {
    hide RoundUp, RoundTo, IsPowerOfTwo;
    RoundUpIsNextMultiple(x, n);
    RoundToBounds(x, n);
    MultipleUnique(RoundUp(x, n), RoundTo(x, n), x, n);
  }

  lemma RoundToShift(x: nat, n: nat, j: nat)
    requires n > 0
    ensures RoundTo(x + j * n, n) == RoundTo(x, n) + j * n
  {
    hide RoundTo;
    RoundToBounds(x + j * n, n);
    RoundToBounds(x, n);
    var a := RoundTo(x, n);
    DivMod(a, n);
    assert (a / n + j) * n == (a / n) * n + j * n;
    DivModUnique(a + j * n, n, a / n + j, 0);
    MultipleUnique(RoundTo(x + j * n, n), a + j * n, x + j * n, n);
  }

  lemma RoundToMono(x: nat, y: nat, n: nat)
    requires n > 0 && x <= y
    ensures RoundTo(x, n) <= RoundTo(y, n)
  {
    hide RoundTo;
    RoundToBounds(x, n);
    RoundToBounds(y, n);
    var a, b := RoundTo(x, n), RoundTo(y, n);
    DivMod(a, n);
    DivMod(b, n);
    MultiplesApart(a / n, b / n, n);
    MultiplesApart(b / n, a / n, n);
  }

  /** A multiple that is not below `x` is not below its rounding. */
  lemma RoundToLeast(x: nat, n: nat, q: nat)
    requires n > 0 && x <= q * n
    ensures RoundTo(x, n) <= q * n
  {
    hide RoundTo;
    RoundToBounds(x, n);
    var a := RoundTo(x, n);
    DivMod(a, n);
    MultiplesApart(a / n, q, n);
    MultiplesApart(q, a / n, n);
  }
}
