/** The records in an allocator file: their sizes, and why no two of them share a byte of a sound map. */
module LayoutRecords {
  import opened Base
  import opened Bits
  import opened SizeClasses
  import opened Address
  import opened Layout
  import opened LayoutSound

  // ----- the size of a record

  datatype Field = Field(size: nat, alignment: nat)

  predicate Aligned(fields: seq<Field>) {
    forall f :: f in fields ==> f.alignment > 0
  }

  /** Where the last field ends when each is put at the next multiple of its alignment (`repr(C)`). */
  function FieldsEnd(offset: nat, fields: seq<Field>): nat
    requires Aligned(fields)
    decreases |fields|
  {
    if fields == [] then offset
    else FieldsEnd(RoundTo(offset, fields[0].alignment) + fields[0].size, fields[1..])
  }

  function RecordSize(fields: seq<Field>, alignment: nat): nat
    requires Aligned(fields) && alignment > 0
  {
    RoundTo(FieldsEnd(0, fields), alignment)
  }

  /** `n` words of four bytes. */
  function Words(n: nat): Field {
    Field(4 * n, 4)
  }

  const U8: Field := Field(1, 1)
  const U64: Field := Field(8, 8)
  const CACHE_ALIGNED: Field := Field(64, 64)

  /** Magic; version, workers, slabs, slab size and four offsets; the head of the global list on a cache line of its own. */
  const HEADER_FIELDS: seq<Field> := [U64, Words(8), CACHE_ALIGNED]

  /** Claimed flag, byte counter, and a partial and a full head a class. */
  const WORKER_HEADS_FIELDS: seq<Field> := [U8, U64, Words(2 * NUM_SIZE_CLASSES)]

  /** Global next, local previous and local next. */
  const NODE_FIELDS: seq<Field> := [Words(1), Words(1), Words(1)]

  /** Owner, class, and the remote head on a cache line of its own. */
  const META_FIELDS: seq<Field> := [Words(1), U64, CACHE_ALIGNED]

  lemma ThreeFields(a: Field, b: Field, c: Field)
    requires a.alignment > 0 && b.alignment > 0 && c.alignment > 0
    ensures FieldsEnd(0, [a, b, c]) ==
            RoundTo(RoundTo(RoundTo(0, a.alignment) + a.size, b.alignment) + b.size, c.alignment) + c.size
  {
    hide RoundTo;
    assert [a, b, c][1..] == [b, c] && [b, c][1..] == [c];
    assert forall x: nat :: FieldsEnd(x, [c]) == RoundTo(x, c.alignment) + c.size by { assert [c][1..] == []; }
    assert forall x: nat :: FieldsEnd(x, [b, c]) == FieldsEnd(RoundTo(x, b.alignment) + b.size, [c]);
  }

  /** The sizes the map is laid out with are those of the records. */
  lemma RecordSizes()
    ensures RecordSize(HEADER_FIELDS, 64) == HEADER_SIZE
    ensures RecordSize(WORKER_HEADS_FIELDS, 64) == WORKER_HEADS_SIZE
    ensures RecordSize(NODE_FIELDS, NODE_ALIGNMENT) == NODE_SIZE
    ensures RecordSize(META_FIELDS, META_ALIGNMENT) == META_SIZE
  {
    hide FieldsEnd;
    ThreeFields(U64, Words(8), CACHE_ALIGNED);
    ThreeFields(U8, U64, Words(2 * NUM_SIZE_CLASSES));
    ThreeFields(Words(1), Words(1), Words(1));
    ThreeFields(Words(1), U64, CACHE_ALIGNED);
  }

  // ----- the free stacks

  /** The bytes the free stack of a slab of the class uses: two counters and an index for each of its slots. */
  function StackBytes(slabSize: nat, c: nat): nat
    requires c < NUM_SIZE_CLASSES
  {
    4 + 2 * Capacity(Config(0, 0, slabSize, 0), c)
  }

  /** The room of one stack suffices for a slab of any class, and exactly for the smallest. */
  lemma StackHasRoom(slabSize: nat, c: nat)
    requires ValidSlabSize(slabSize) && c < NUM_SIZE_CLASSES
    ensures StackBytes(slabSize, c) <= SingleFreeStackSize(slabSize)
    ensures StackBytes(slabSize, c) == SingleFreeStackSize(slabSize) <==> c == 0
  {
    var cfg := Config(0, 0, slabSize, 0);
    CapacityExact(cfg, 0);
    CapacityExact(cfg, c);
    hide ValidSlabSize;
    assert SingleFreeStackSize(slabSize) == StackBytes(slabSize, 0);
    if c > 0 && Capacity(cfg, c) >= Capacity(cfg, 0) {
      MulMono(Capacity(cfg, 0), Capacity(cfg, c), Size(c));
    }
  }

  // ----- the records of a file

  datatype Record = Head | Heads(worker: nat) | Node(slab: nat) | Meta(slab: nat) | Stack(slab: nat, sizeClass: nat) | Blocks(slab: nat)

  /** The record belongs to a file with that many workers and slabs. */
  predicate Present(r: Record, workers: nat, slabs: nat) {
    match r
    case Head => true
    case Heads(w) => w < workers
    case Node(i) => i < slabs
    case Meta(i) => i < slabs
    case Stack(i, c) => i < slabs && c < NUM_SIZE_CLASSES
    case Blocks(i) => i < slabs
  }

  /** Where the code looks for the record. */
  function Start(l: AllocatorLayout, slabSize: nat, r: Record): nat {
    match r
    case Head => 0
    case Heads(w) => HEADER_SIZE + w * WORKER_HEADS_SIZE
    case Node(i) => l.freeListElements + i * NODE_SIZE
    case Meta(i) => l.slabSharedMeta + i * META_SIZE
    case Stack(i, _) => l.slabFreeStacks + i * SingleFreeStackSize(slabSize)
    case Blocks(i) => l.slabs + i * slabSize
  }

  function Length(slabSize: nat, r: Record): nat
    requires r.Stack? ==> r.sizeClass < NUM_SIZE_CLASSES
  {
    match r
    case Head => HEADER_SIZE
    case Heads(_) => WORKER_HEADS_SIZE
    case Node(_) => NODE_SIZE
    case Meta(_) => META_SIZE
    case Stack(_, c) => StackBytes(slabSize, c)
    case Blocks(_) => slabSize
  }

  function End(l: AllocatorLayout, slabSize: nat, r: Record): nat
    requires r.Stack? ==> r.sizeClass < NUM_SIZE_CLASSES
  {
    Start(l, slabSize, r) + Length(slabSize, r)
  }

  /** The region of the record: its number, where it starts and where the next one does. */
  function Region(r: Record): nat {
    match r
    case Head => 0
    case Heads(_) => 1
    case Node(_) => 2
    case Meta(_) => 3
    case Stack(_, _) => 4
    case Blocks(_) => 5
  }

  function RegionStart(l: AllocatorLayout, fileSize: nat, n: nat): nat {
    match n
    case 0 => 0
    case 1 => HEADER_SIZE
    case 2 => l.freeListElements
    case 3 => l.slabSharedMeta
    case 4 => l.slabFreeStacks
    case 5 => l.slabs
    case _ => fileSize
  }

  /** Elements of one size, laid one after another, are disjoint and end before what follows all of them. */
  lemma Element(i: nat, j: nat, n: nat, size: nat)
    requires i < n
    ensures i * size + size <= n * size
    ensures i < j ==> i * size + size <= j * size
  {
    assert (i + 1) * size == i * size + size;
    MulMono(i + 1, n, size);
    if i < j { MulMono(i + 1, j, size); }
  }

  lemma InRegion(l: AllocatorLayout, workers: nat, slabSize: nat, fileSize: nat, r: Record)
    requires ValidSlabSize(slabSize) && slabSize > 0 && Sound(l, workers, slabSize, fileSize) && Present(r, workers, l.numSlabs)
    ensures RegionStart(l, fileSize, Region(r)) <= Start(l, slabSize, r)
    ensures End(l, slabSize, r) <= RegionStart(l, fileSize, Region(r) + 1)
  {
    hide ValidSlabSize, StackBytes, SingleFreeStackSize;
    match r
    case Head =>
    case Heads(w) => Element(w, 0, workers, WORKER_HEADS_SIZE);
    case Node(i) => Element(i, 0, l.numSlabs, NODE_SIZE);
    case Meta(i) => Element(i, 0, l.numSlabs, META_SIZE);
    case Stack(i, c) =>
      StackHasRoom(slabSize, c);
      Element(i, 0, l.numSlabs, SingleFreeStackSize(slabSize));
    case Blocks(i) => Element(i, 0, l.numSlabs, slabSize);
  }

  lemma RegionsOrdered(l: AllocatorLayout, workers: nat, slabSize: nat, fileSize: nat, m: nat, n: nat)
    requires slabSize > 0 && Sound(l, workers, slabSize, fileSize) && m <= n <= 6
    ensures RegionStart(l, fileSize, m) <= RegionStart(l, fileSize, n)
  {
  }

  /** Two records, other than the free stack of one slab under two classes. */
  predicate Distinct(r: Record, q: Record) {
    r != q && !(r.Stack? && q.Stack? && r.slab == q.slab)
  }

  lemma SameRegion(l: AllocatorLayout, workers: nat, slabSize: nat, fileSize: nat, r: Record, q: Record)
    requires ValidSlabSize(slabSize) && Region(r) == Region(q) && Distinct(r, q)
    requires Present(r, workers, l.numSlabs) && Present(q, workers, l.numSlabs)
    ensures End(l, slabSize, r) <= Start(l, slabSize, q) || End(l, slabSize, q) <= Start(l, slabSize, r)
  {
    hide ValidSlabSize, StackBytes, SingleFreeStackSize;
    match r
    case Head =>
    case Heads(w) =>
      Element(w, q.worker, workers, WORKER_HEADS_SIZE);
      Element(q.worker, w, workers, WORKER_HEADS_SIZE);
    case Node(i) =>
      Element(i, q.slab, l.numSlabs, NODE_SIZE);
      Element(q.slab, i, l.numSlabs, NODE_SIZE);
    case Meta(i) =>
      Element(i, q.slab, l.numSlabs, META_SIZE);
      Element(q.slab, i, l.numSlabs, META_SIZE);
    case Stack(i, c) =>
      StackHasRoom(slabSize, c);
      StackHasRoom(slabSize, q.sizeClass);
      Element(i, q.slab, l.numSlabs, SingleFreeStackSize(slabSize));
      Element(q.slab, i, l.numSlabs, SingleFreeStackSize(slabSize));
    case Blocks(i) =>
      Element(i, q.slab, l.numSlabs, slabSize);
      Element(q.slab, i, l.numSlabs, slabSize);
  }

  /**
   * In a sound map no two records share a byte, whatever classes the slabs have been given: a full free stack ends
   * before the next one starts, and before the slabs.
   */
  lemma RecordsApart(l: AllocatorLayout, workers: nat, slabSize: nat, fileSize: nat, r: Record, q: Record)
    requires ValidSlabSize(slabSize) && slabSize > 0 && Sound(l, workers, slabSize, fileSize) && Distinct(r, q)
    requires Present(r, workers, l.numSlabs) && Present(q, workers, l.numSlabs)
    ensures End(l, slabSize, r) <= Start(l, slabSize, q) || End(l, slabSize, q) <= Start(l, slabSize, r)
    ensures End(l, slabSize, r) <= fileSize
  {
    hide ValidSlabSize, Start, End, Sound, RegionStart;
    if Region(r) == Region(q) { SameRegion(l, workers, slabSize, fileSize, r, q); }
    InRegion(l, workers, slabSize, fileSize, r);
    InRegion(l, workers, slabSize, fileSize, q);
    RegionsOrdered(l, workers, slabSize, fileSize, Region(r) + 1, 6);
    if Region(r) < Region(q) { RegionsOrdered(l, workers, slabSize, fileSize, Region(r) + 1, Region(q)); }
    if Region(q) < Region(r) { RegionsOrdered(l, workers, slabSize, fileSize, Region(q) + 1, Region(r)); }
    assert RegionStart(l, fileSize, 6) == fileSize by { LastRegion(l, fileSize); }
  }

  lemma LastRegion(l: AllocatorLayout, fileSize: nat)
    ensures RegionStart(l, fileSize, 6) == fileSize
  {
  }

  /** The alignment the record's fields need. */
  function AlignmentOf(slabSize: nat, r: Record): nat
    requires slabSize > 0
    ensures AlignmentOf(slabSize, r) > 0
  {
    match r
    case Head => 64
    case Heads(_) => 64
    case Node(_) => NODE_ALIGNMENT
    case Meta(_) => META_ALIGNMENT
    case Stack(_, _) => 2
    case Blocks(_) => slabSize
  }

  lemma MultiplePlus(base: nat, i: nat, size: nat, n: nat)
    requires n > 0 && base % n == 0 && size % n == 0
    ensures (base + i * size) % n == 0
  {
    DivMod(base, n);
    DivMod(size, n);
    var b, q := base / n, size / n;
    assert i * (q * n) == (i * q) * n;
    assert b * n + (i * q) * n == (b + i * q) * n;
    DivModUnique(base + i * size, n, b + i * q, 0);
  }

  lemma StackEven(slabSize: nat, base: nat)
    requires base % FREE_STACK_ALIGNMENT == 0
    ensures SingleFreeStackSize(slabSize) % 2 == 0 && base % 2 == 0
  {
    var n := (slabSize / MIN_SIZE) % TWO_16;
    assert SingleFreeStackSize(slabSize) == 4 + 2 * n;
    hide *;
    assert (4 + 2 * n) % 2 == 0;
  }

  /** And in a file mapped at a page every record is aligned. */
  lemma RecordsAligned(l: AllocatorLayout, workers: nat, slabSize: nat, fileSize: nat, r: Record)
    requires slabSize > 0 && Sound(l, workers, slabSize, fileSize)
    ensures Start(l, slabSize, r) % AlignmentOf(slabSize, r) == 0
  {
    hide SingleFreeStackSize;
    match r
    case Head =>
    case Heads(w) => MultiplePlus(HEADER_SIZE, w, WORKER_HEADS_SIZE, 64);
    case Node(i) => MultiplePlus(l.freeListElements, i, NODE_SIZE, NODE_ALIGNMENT);
    case Meta(i) => MultiplePlus(l.slabSharedMeta, i, META_SIZE, META_ALIGNMENT);
    case Stack(i, _) =>
      StackEven(slabSize, l.slabFreeStacks);
      MultiplePlus(l.slabFreeStacks, i, SingleFreeStackSize(slabSize), 2);
    case Blocks(i) => MultiplePlus(l.slabs, i, slabSize, slabSize);
  }
}
