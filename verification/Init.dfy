/** Creating and joining an allocator file: what is accepted, what is written, and why the two agree (src/init.rs). */
module Init {
  import opened Base
  import opened Bits
  import opened SizeClasses
  import opened Address
  import opened Layout
  import opened LayoutSound
  import Records = LayoutRecords

  const MAGIC: nat := 0x0072_7473_616C_6F63
  const VERSION: nat := 0x3_0000

  datatype Error =
    | InvalidNumWorkers
    | InvalidSlabSize
    | InvalidFileSize
    | AlreadyInitialized
    | InvalidHeader
    | InvalidMagic
    | InvalidVersion(expected: nat, actual: nat)
    | HeaderMismatch

  datatype Result<T> = Ok(value: T) | Err(error: Error)

  /** The header's plain fields. */
  datatype Header = Header(magic: nat, version: nat, numWorkers: nat, slabSize: nat, layout: AllocatorLayout)

  function VerifySlabSize(slabSize: nat): Option<Error> {
    if !IsPowerOfTwo(slabSize) then Some(InvalidSlabSize)
    else if slabSize < 4 * MAX_SIZE then Some(InvalidSlabSize)
    else if slabSize / MIN_SIZE > NULL_U16 then Some(InvalidSlabSize)
    else None
  }

  function VerifyTotalSlabs(fileSize: nat, slabSize: nat): Option<Error>
    requires slabSize > 0
  {
    if fileSize / slabSize > NULL_U32 then Some(InvalidFileSize) else None
  }

  /** The slab sizes accepted are the powers of two from 16 KiB to 8 MiB; any other is an invalid slab size. */
  lemma SlabSizesAccepted(slabSize: nat)
    ensures VerifySlabSize(slabSize) == None <==> SlabSizeInRange(slabSize)
    ensures VerifySlabSize(slabSize) in {None, Some(InvalidSlabSize)}
  {
    VerifiedSizes(slabSize);
    ValidSlabSizeIff(slabSize);
    hide ValidSlabSize;
  }

  lemma VerifiedSizes(slabSize: nat)
    ensures VerifySlabSize(slabSize) == None <==> ValidSlabSize(slabSize)
    ensures VerifySlabSize(slabSize) == None ==> 0 < slabSize < TWO_32
  {
    if ValidSlabSize(slabSize) { SlabSizeBound(slabSize); }
  }

  lemma StoredSlabs(slabSize: nat)
    ensures 0 < slabSize < TWO_32 ==>
      forall workers: nat, slabs: nat :: Stored(TrueLayout(workers, slabSize, slabs)).numSlabs == slabs
  {
    hide RoundUp;
  }

  // ----- create

  /** What `create` answers, given the length the file has and the one it is to have. */
  function Created(fileLength: nat, fileSize: nat, minWorkers: nat, slabSize: nat): Result<Header>
  {
    if minWorkers == 0 then Err(InvalidNumWorkers)
    else if VerifySlabSize(slabSize).Some? then Err(VerifySlabSize(slabSize).value)
    else
      VerifiedSizes(slabSize);
      if VerifyTotalSlabs(fileSize, slabSize).Some? then Err(VerifyTotalSlabs(fileSize, slabSize).value)
      else
        match Limits(fileSize, slabSize, minWorkers)
        case None => Err(InvalidFileSize)
        case Some(l) =>
          if l.usableSlabs == 0 then Err(InvalidFileSize)
          else if fileLength != 0 then Err(AlreadyInitialized)
          else Ok(Header(MAGIC, VERSION, l.maxWorkers, slabSize, Stored(TrueLayout(l.maxWorkers, slabSize, l.usableSlabs))))
  }

  method Create(fileLength: nat, fileSize: nat, minWorkers: nat, slabSize: nat) returns (r: Result<Header>)
    requires fileSize < TWO_64 && slabSize < TWO_32
    ensures r == Created(fileLength, fileSize, minWorkers, slabSize)
    ensures r.Ok? ==>
      && fileLength == 0 && 1 <= minWorkers <= r.value.numWorkers && ValidSizes(fileSize, slabSize)
      && Joined(r.value, fileSize) == Ok(())
    ensures r == Err(InvalidNumWorkers) <==> minWorkers == 0
    ensures r == Err(InvalidSlabSize) <==> minWorkers > 0 && !SlabSizeInRange(slabSize)
    ensures r == Err(InvalidFileSize) <==>
      minWorkers > 0 && SlabSizeInRange(slabSize) && (fileSize / slabSize >= TWO_32 || Limits(fileSize, slabSize, minWorkers) == None)
    ensures r.Err? && minWorkers > 0 && SlabSizeInRange(slabSize) && r != Err(InvalidFileSize) ==>
      r == Err(AlreadyInitialized) && fileLength > 0
  {
    r := Decide(fileLength, fileSize, minWorkers, slabSize);
    if r.Ok? {
      JoinAcceptsCreated(fileLength, fileSize, minWorkers, slabSize);
      CreatedSizes(fileLength, fileSize, minWorkers, slabSize);
    }
    Rejections(fileLength, fileSize, minWorkers, slabSize);
    hide IsPowerOfTwo, TrueLayout, Limits, ValidSlabSize, Joined, Created, SlabSizeInRange;
  }

  /** Every way to be rejected, and when. */
  lemma Rejections(fileLength: nat, fileSize: nat, minWorkers: nat, slabSize: nat)
    requires fileSize < TWO_64 && slabSize < TWO_32
    ensures SlabSizeInRange(slabSize) ==> slabSize > 0
    ensures var r := Created(fileLength, fileSize, minWorkers, slabSize);
      && (r == Err(InvalidNumWorkers) <==> minWorkers == 0)
      && (r == Err(InvalidSlabSize) <==> minWorkers > 0 && !SlabSizeInRange(slabSize))
      && (r == Err(InvalidFileSize) <==>
          minWorkers > 0 && SlabSizeInRange(slabSize) && (fileSize / slabSize >= TWO_32 || Limits(fileSize, slabSize, minWorkers) == None))
      && (r.Err? && minWorkers > 0 && SlabSizeInRange(slabSize) && r != Err(InvalidFileSize) ==>
          r == Err(AlreadyInitialized) && fileLength > 0)
  {
    VerifiedSizes(slabSize);
    SlabSizesAccepted(slabSize);
    ValidSlabSizeIff(slabSize);
    if ValidSlabSize(slabSize) && VerifyTotalSlabs(fileSize, slabSize) == None { UsableLeft(fileSize, slabSize, minWorkers); }
    hide IsPowerOfTwo, TrueLayout, Limits, ValidSlabSize, VerifySlabSize, SlabSizeInRange;
  }

  /** The checks of `create`, in order. */
  method Decide(fileLength: nat, fileSize: nat, minWorkers: nat, slabSize: nat) returns (r: Result<Header>)
    requires fileSize < TWO_64 && slabSize < TWO_32
    ensures r == Created(fileLength, fileSize, minWorkers, slabSize)
  {
    hide IsPowerOfTwo, TrueLayout, Limits, VerifySlabSize, VerifyTotalSlabs, ValidSlabSize, Stored;
    VerifiedSizes(slabSize);
    StoredSlabs(slabSize);
    if minWorkers == 0 { return Err(InvalidNumWorkers); }
    if VerifySlabSize(slabSize).Some? { return Err(VerifySlabSize(slabSize).value); }
    if VerifyTotalSlabs(fileSize, slabSize).Some? { return Err(VerifyTotalSlabs(fileSize, slabSize).value); }
    var limits := MaxWorkers(fileSize, slabSize, minWorkers);
    if limits.None? { return Err(InvalidFileSize); }
    var workers := limits.value.maxWorkers;
    var layout := LayoutFor(workers, slabSize, limits.value.usableSlabs);
    if layout.numSlabs == 0 { return Err(InvalidFileSize); }
    if fileLength != 0 { return Err(AlreadyInitialized); }
    return Ok(Header(MAGIC, VERSION, workers, slabSize, layout));
  }

  // ----- join

  /** What `join` answers for a file of this size that starts with these header fields. */
  function Joined(h: Header, fileSize: nat): Result<()>
  {
    if fileSize < HEADER_SIZE then Err(InvalidHeader)
    else if h.magic != MAGIC then Err(InvalidMagic)
    else if h.version != VERSION then Err(InvalidVersion(VERSION, h.version))
    else if h.numWorkers == 0 then Err(InvalidHeader)
    else if VerifySlabSize(h.slabSize).Some? then Err(VerifySlabSize(h.slabSize).value)
    else
      VerifiedSizes(h.slabSize);
      if VerifyTotalSlabs(fileSize, h.slabSize).Some? then Err(VerifyTotalSlabs(fileSize, h.slabSize).value)
      else
        match Limits(fileSize, h.slabSize, h.numWorkers)
        case None => Err(InvalidHeader)
        case Some(l) =>
          if l.maxWorkers != h.numWorkers then Err(HeaderMismatch)
          else if h.layout != Stored(TrueLayout(h.numWorkers, h.slabSize, l.usableSlabs)) then Err(HeaderMismatch)
          else Ok(())
  }

  method Join(h: Header, fileSize: nat) returns (r: Result<()>)
    requires fileSize < TWO_64 && h.slabSize < TWO_32
    ensures r == Joined(h, fileSize)
    ensures r == Ok(()) <==> Created(0, fileSize, h.numWorkers, h.slabSize) == Ok(h)
    ensures r == Err(InvalidSlabSize) <==>
      && fileSize >= HEADER_SIZE && h.magic == MAGIC && h.version == VERSION && h.numWorkers > 0
      && !SlabSizeInRange(h.slabSize)
    ensures r.Err? && fileSize >= HEADER_SIZE && Created(0, fileSize, h.numWorkers, h.slabSize).Ok? ==>
      r == if h.magic != MAGIC then Err(InvalidMagic)
           else if h.version != VERSION then Err(InvalidVersion(VERSION, h.version)) else Err(HeaderMismatch)
  {
    r := Inspect(h, fileSize);
    JoinAcceptsOnlyCreated(h, fileSize);
    JoinRejections(h, fileSize);
    hide Joined, Created, SlabSizeInRange;
  }

  /** A header `create` would not write is told apart by what is wrong with it. */
  lemma JoinRejections(h: Header, fileSize: nat)
    requires fileSize < TWO_64 && h.slabSize < TWO_32
    ensures var r := Joined(h, fileSize);
      && (r == Err(InvalidSlabSize) <==>
          && fileSize >= HEADER_SIZE && h.magic == MAGIC && h.version == VERSION && h.numWorkers > 0
          && !SlabSizeInRange(h.slabSize))
      && (r.Err? && fileSize >= HEADER_SIZE && Created(0, fileSize, h.numWorkers, h.slabSize).Ok? ==>
          r == if h.magic != MAGIC then Err(InvalidMagic)
               else if h.version != VERSION then Err(InvalidVersion(VERSION, h.version)) else Err(HeaderMismatch))
  {
    VerifiedSizes(h.slabSize);
    SlabSizesAccepted(h.slabSize);
    hide IsPowerOfTwo, TrueLayout, Limits, ValidSlabSize, VerifySlabSize, SlabSizeInRange;
  }

  /** The checks of `join`, in order. */
  method Inspect(h: Header, fileSize: nat) returns (r: Result<()>)
    requires fileSize < TWO_64 && h.slabSize < TWO_32
    ensures r == Joined(h, fileSize)
  {
    hide IsPowerOfTwo, TrueLayout, Limits, VerifySlabSize, VerifyTotalSlabs, ValidSlabSize, Stored;
    VerifiedSizes(h.slabSize);
    if fileSize < HEADER_SIZE { return Err(InvalidHeader); }
    if h.magic != MAGIC { return Err(InvalidMagic); }
    if h.version != VERSION { return Err(InvalidVersion(VERSION, h.version)); }
    if h.numWorkers == 0 { return Err(InvalidHeader); }
    if VerifySlabSize(h.slabSize).Some? { return Err(VerifySlabSize(h.slabSize).value); }
    if VerifyTotalSlabs(fileSize, h.slabSize).Some? { return Err(VerifyTotalSlabs(fileSize, h.slabSize).value); }
    var limits := MaxWorkers(fileSize, h.slabSize, h.numWorkers);
    if limits.None? { return Err(InvalidHeader); }
    if limits.value.maxWorkers != h.numWorkers { return Err(HeaderMismatch); }
    var expected := LayoutFor(h.numWorkers, h.slabSize, limits.value.usableSlabs);
    if h.layout != expected { return Err(HeaderMismatch); }
    return Ok(());
  }

  // ----- they agree

  lemma CreatedSizes(fileLength: nat, fileSize: nat, minWorkers: nat, slabSize: nat)
    requires Created(fileLength, fileSize, minWorkers, slabSize).Ok? && fileSize < TWO_64
    ensures ValidSizes(fileSize, slabSize) && 0 < slabSize < TWO_32 && slabSize <= fileSize
    ensures Limits(fileSize, slabSize, minWorkers).Some?
    ensures 1 <= Limits(fileSize, slabSize, minWorkers).value.usableSlabs
    ensures minWorkers <= Limits(fileSize, slabSize, minWorkers).value.maxWorkers
  {
    VerifiedSizes(slabSize);
    hide IsPowerOfTwo, TrueLayout, Limits;
    LimitsFit(fileSize, slabSize, minWorkers);
    DivMod(fileSize, slabSize);
    MulMono(1, fileSize / slabSize, slabSize);
  }

  /** `join` accepts every header `create` writes. */
  lemma JoinAcceptsCreated(fileLength: nat, fileSize: nat, minWorkers: nat, slabSize: nat)
    requires Created(fileLength, fileSize, minWorkers, slabSize).Ok? && fileSize < TWO_64
    ensures Joined(Created(fileLength, fileSize, minWorkers, slabSize).value, fileSize) == Ok(())
  {
    CreatedSizes(fileLength, fileSize, minWorkers, slabSize);
    SlabSizeBound(slabSize);
    LimitsAgree(fileSize, slabSize, minWorkers);
    hide IsPowerOfTwo, TrueLayout, Limits, ValidSlabSize;
  }

  /** And no others: an accepted header is what `create` would have written, asked for as many workers as it names. */
  lemma JoinAcceptsOnlyCreated(h: Header, fileSize: nat)
    requires fileSize < TWO_64
    ensures Joined(h, fileSize) == Ok(()) <==> Created(0, fileSize, h.numWorkers, h.slabSize) == Ok(h)
  {
    if Created(0, fileSize, h.numWorkers, h.slabSize) == Ok(h) {
      JoinAcceptsCreated(0, fileSize, h.numWorkers, h.slabSize);
    }
    if Joined(h, fileSize) == Ok(()) {
      VerifiedSizes(h.slabSize);
      UsableLeft(fileSize, h.slabSize, h.numWorkers);
      hide IsPowerOfTwo, TrueLayout, Limits;
    }
  }

  lemma UsableLeft(fileSize: nat, slabSize: nat, minWorkers: nat)
    requires ValidSlabSize(slabSize) && slabSize > 0 && fileSize < TWO_64 && VerifyTotalSlabs(fileSize, slabSize) == None
    ensures 0 < slabSize < TWO_32
    ensures Limits(fileSize, slabSize, minWorkers).Some? ==> Limits(fileSize, slabSize, minWorkers).value.usableSlabs > 0
  {
    SlabSizeBound(slabSize);
    LimitsFit(fileSize, slabSize, minWorkers);
  }

  // ----- what the accepted parameters guarantee

  function ConfigOf(h: Header): Config {
    Config(h.layout.numSlabs, h.numWorkers, h.slabSize, h.layout.slabs)
  }

  lemma FewWorkers(slabSize: nat, usable: nat, meta: nat)
    requires ValidSlabSize(slabSize) && usable < TWO_32 && 0 < slabSize < TWO_32
    requires Workers(slabSize, usable, meta) < TWO_32
    requires TrueLayout(Workers(slabSize, usable, meta), slabSize, usable).slabs < TWO_32
    ensures Workers(slabSize, usable, meta) < NULL_U32
  {
    TrueOrdered(Workers(slabSize, usable, meta), slabSize, usable);
    hide TrueLayout, Workers, ValidSlabSize, FreeStacksSize;
  }

  /**
   * A header `create` writes whose offsets were not cut describes a sound map, satisfies everything the allocator
   * relies on, and starts the slabs at a multiple of the slab size.
   */
  lemma CreatedIsValid(fileLength: nat, fileSize: nat, minWorkers: nat, slabSize: nat)
    requires Created(fileLength, fileSize, minWorkers, slabSize).Ok? && fileSize < TWO_64
    requires 0 < slabSize < TWO_32 && Limits(fileSize, slabSize, minWorkers).Some?
    requires FinalLayout(slabSize, Limits(fileSize, slabSize, minWorkers).value).slabs < TWO_32
    ensures var h := Created(fileLength, fileSize, minWorkers, slabSize).value;
      && Sound(h.layout, h.numWorkers, slabSize, fileSize)
      && ValidConfig(ConfigOf(h))
      && h.slabSize == slabSize && h.layout.slabs % slabSize == 0
  {
    CreatedSizes(fileLength, fileSize, minWorkers, slabSize);
    SoundIfFits(fileSize, slabSize, minWorkers);
    LimitsFit(fileSize, slabSize, minWorkers);
    var l := Limits(fileSize, slabSize, minWorkers).value;
    TrueOrdered(l.maxWorkers, slabSize, l.usableSlabs);
    FewWorkers(slabSize, l.usableSlabs, l.metaSlabs);
    var h := Created(fileLength, fileSize, minWorkers, slabSize).value;
    assert h.layout == FinalLayout(slabSize, l) && h.numWorkers == l.maxWorkers && h.slabSize == slabSize;
    hide IsPowerOfTwo, TrueLayout, Limits, ValidSlabSize, Created, Needed, Workers, FreeStacksSize;
  }

  /** So in a created allocator no two records share a byte, and all of them lie within the file. */
  lemma CreatedRecordsApart(fileLength: nat, fileSize: nat, minWorkers: nat, slabSize: nat, r: Records.Record, q: Records.Record)
    requires Created(fileLength, fileSize, minWorkers, slabSize).Ok? && fileSize < TWO_64
    requires 0 < slabSize < TWO_32 && Limits(fileSize, slabSize, minWorkers).Some?
    requires FinalLayout(slabSize, Limits(fileSize, slabSize, minWorkers).value).slabs < TWO_32
    requires var h := Created(fileLength, fileSize, minWorkers, slabSize).value;
      Records.Present(r, h.numWorkers, h.layout.numSlabs) && Records.Present(q, h.numWorkers, h.layout.numSlabs)
    requires Records.Distinct(r, q)
    ensures var l := Created(fileLength, fileSize, minWorkers, slabSize).value.layout;
      && Records.End(l, slabSize, r) <= fileSize && Records.End(l, slabSize, q) <= fileSize
      && (Records.End(l, slabSize, r) <= Records.Start(l, slabSize, q) || Records.End(l, slabSize, q) <= Records.Start(l, slabSize, r))
  {
    CreatedIsValid(fileLength, fileSize, minWorkers, slabSize);
    var h := Created(fileLength, fileSize, minWorkers, slabSize).value;
    hide Created, Limits, TrueLayout, Sound, ValidSlabSize, Records.Start, Records.End;
    Records.RecordsApart(h.layout, h.numWorkers, slabSize, fileSize, r, q);
    Records.RecordsApart(h.layout, h.numWorkers, slabSize, fileSize, q, r);
  }

  /** And the offset of every block is a multiple of its size class. */
  lemma CreatedBlocksAligned(h: Header, i: nat, c: nat, k: nat)
    requires ValidConfig(ConfigOf(h)) && h.slabSize > 0 && h.layout.slabs % h.slabSize == 0 && c < NUM_SIZE_CLASSES
    ensures BlockOffset(ConfigOf(h), i, c, k) % Size(c) == 0
  {
    hide ValidSlabSize, BlockOffset, Size;
    DivMod(h.layout.slabs, h.slabSize);
    BlockAligned(ConfigOf(h), i, c, k, h.layout.slabs / h.slabSize);
  }
}
