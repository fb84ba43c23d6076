/**
 * The whole allocator as a step system: any number of slabs, workers and handles, any interleaving.
 *
 * A handle is an `Allocator` (bound to a worker index) or a `FreeOnlyAllocator`; each runs one call at a
 * time. Every access to the two lock-free lists, to a claim flag, to a slab's metadata and to a link word is
 * a step of its own, interleaved sequentially consistently. Work that only the slab's owner does (free
 * stack, local lists, byte counter) is one step.
 *
 * `place`, `holder`, the walk of a cleaning call and the history variables of the parts are never read by
 * a step to decide what to do.
 */
module Allocator {
  import opened Base
  import opened SizeClasses
  import opened Address
  import Pool = GlobalFreeList
  import Lists = LocalLists
  import Slab

  datatype Handle = NoHandle | FreeOnly | Worker(index: nat)

  /** History of one cleaning call: the lists at entry, the slabs visited so far and those still ahead. */
  datatype Walk = Walk(entry: seq<seq<nat>>, seen: seq<nat>, todo: seq<nat>)

  /** The drain of one slab during a cleaning call. */
  datatype Drain = Drain(line: nat, next: nat, slab: nat, sizeIndex: nat, freed: nat, walk: Walk)

  /** What a handle does once its push on the global list is done. */
  datatype After = Return | Resume(drain: Drain)

  datatype Pc =
    | Idle
    | Claiming(next: nat)
    | Taking(c: nat)
    | StoreOwner(c: nat, slab: nat)
    | StoreClass(c: nat, slab: nat)
    | ClearRemote(c: nat, slab: nat)
    | ResetStack(c: nat, slab: nat)
    | AllocSlot(c: nat, slab: nat)
    | FindBlock(offset: nat, slab: nat, slot: nat)
    | Route(slab: nat, slot: nat)
    | FreeLocal(slab: nat, slot: nat)
    | FreeRemote(slab: nat, slot: nat)
    | RemotePush(slab: nat, c: nat)
    | Giving(slab: nat, after: After)
    | CleanLine(line: nat, walk: Walk)
    | CleanIter(line: nat, cursor: nat, walk: Walk)
    | CleanSwap(line: nat, next: nat, slab: nat, c: nat, walk: Walk)
    | CleanDrain(drain: Drain)
    | CleanFree(drain: Drain)
    | Panicked

  datatype Agent = Agent(handle: Handle, pc: Pc)

  /** Where a slab is. */
  datatype Place = InPool | Transit(tid: nat) | Listed(key: Lists.Key)

  datatype State = State(
    pool: Pool.State,
    local: Lists.State,
    slabs: seq<Slab.State>,
    claimed: seq<bool>,
    bytes: seq<nat>,
    agents: seq<Agent>,
    place: seq<Place>,
    holder: seq<Option<nat>>)
  {
    function Pc(t: nat, pc: Pc): State
      requires t < |agents|
    {
      this.(agents := agents[t := agents[t].(pc := pc)])
    }

    function Put(i: nat, x: Slab.State): State
      requires i < |slabs|
    {
      this.(slabs := slabs[i := x])
    }

    function Op(t: nat, op: Pool.Op): State
      requires t < |pool.ops|
    {
      this.(pool := pool.At(t, op))
    }

    function Move(i: nat, p: Place): State
      requires i < |place|
    {
      this.(place := place[i := p])
    }
  }

  // ----- arithmetic of the counter

  function Add64(a: nat, b: nat): nat {
    (a + b) % TWO_64
  }

  /** `fetch_sub` on a 64-bit word wraps. */
  function Sub64(a: nat, b: nat): nat {
    (a - b) % TWO_64
  }

  // ----- lists of one worker, in the order cleaning visits them

  const LINES: nat := 2 * NUM_SIZE_CLASSES

  function LineKey(w: nat, line: nat): Lists.Key {
    Lists.Key(w, line / 2, line % 2 == 1)
  }

  ghost predicate Sized(cfg: Config, s: State) {
    && |s.slabs| == |s.place| == |s.pool.links| == |s.local.nodes| == cfg.numSlabs
    && |s.claimed| == |s.bytes| == |s.holder| == cfg.numWorkers
    && |s.agents| == |s.pool.ops|
    && (forall i: nat {:trigger s.slabs[i]} :: i < |s.slabs| ==> |s.slabs[i].ops| == |s.agents|)
    && s.local.heads.Keys == s.local.lists.Keys
    && (forall k: Lists.Key :: k in s.local.lists <==> k.worker < cfg.numWorkers && k.sizeIndex < NUM_SIZE_CLASSES)
  }

  // ----- join and leave

  ghost function Claim(cfg: Config, s: State, t: nat, n: nat): State
    requires Sized(cfg, s) && t < |s.agents|
  {
    if n >= cfg.numWorkers then s.Pc(t, Idle)
    else if s.claimed[n] then s.Pc(t, Claiming(n + 1))
    else s.(claimed := s.claimed[n := true],
            holder := s.holder[n := Some(t)],
            agents := s.agents[t := Agent(Worker(n), Idle)])
  }

  ghost function Leave(cfg: Config, s: State, t: nat): State
    requires Sized(cfg, s) && t < |s.agents|
  {
    match s.agents[t].handle
    case Worker(w) =>
      if w < cfg.numWorkers
      then s.(claimed := s.claimed[w := false],
              holder := s.holder[w := None],
              agents := s.agents[t := Agent(NoHandle, Idle)])
      else s.Pc(t, Panicked)
    case _ => s.(agents := s.agents[t := Agent(NoHandle, Idle)])
  }

  // ----- allocate

  /** Reject, use the first slab of the partial list, or go to the global list. */
  ghost function Allocate(cfg: Config, s: State, t: nat, w: nat, size: nat): State
    requires Sized(cfg, s) && t < |s.agents| && w < cfg.numWorkers
  {
    if size == 0 || SizeClassIndex(size) == None then s
    else
      LeastClass(size);
      var c := SizeClassIndex(size).value;
      var head := s.local.heads[Lists.Key(w, c, false)];
      if head == NULL_U32 then s.Op(t, Pool.PopStart).Pc(t, Taking(c)) else s.Pc(t, AllocSlot(c, head))
  }

  /** The place of a slab follows a successful compare-and-exchange on the global head. */
  ghost function AfterEffect(s: State, t: nat, e: Pool.Effect): seq<Place> {
    match e
    case Nothing => s.place
    case Pushed(i) => if i < |s.place| then s.place[i := InPool] else s.place
    case Took(i) => if i < |s.place| then s.place[i := Transit(t)] else s.place
  }

  /** One step of a handle's own `push` or `pop` on the global list. */
  ghost function PoolStep(cfg: Config, s: State, t: nat): State
    requires Sized(cfg, s) && t < |s.agents|
  {
    s.(pool := Pool.Advance(s.pool, t), place := AfterEffect(s, t, Pool.EffectOf(s.pool, t, Pool.Continue)))
  }

  ghost function Take(cfg: Config, s: State, t: nat, c: nat): State
    requires Sized(cfg, s) && t < |s.agents|
  {
    match s.pool.ops[t]
    case Popped(i) => s.Op(t, Pool.Idle).Pc(t, StoreOwner(c, i))
    case PopFailed => s.Op(t, Pool.Idle).Pc(t, Idle)
    case Panicked => s.Pc(t, Panicked)
    case _ => PoolStep(cfg, s, t)
  }

  /** The new owner re-cuts the slab, fills its free stack and puts it on its partial list. */
  ghost function Refill(cfg: Config, s: State, t: nat, w: nat, c: nat, i: nat, words: seq<nat>): State
    requires Sized(cfg, s) && t < |s.agents| && w < cfg.numWorkers && c < NUM_SIZE_CLASSES && i < cfg.numSlabs
  {
    var k := Lists.Key(w, c, false);
    if !Lists.CanPush(s.local, k, i) then s.Pc(t, Panicked)
    else s.(local := Lists.PushTo(s.local, k, i))
          .Put(i, Slab.Reset(s.slabs[i], Capacity(cfg, c), words))
          .Move(i, Listed(k))
          .Pc(t, AllocSlot(c, i))
  }

  /** Moving a slab from one of its owner's lists to the other. */
  ghost predicate CanSwitch(l: Lists.State, from: Lists.Key, to: Lists.Key, i: nat) {
    Lists.CanRemove(l, from, i) && Lists.CanPush(Lists.RemoveFrom(l, from, i), to, i)
  }

  ghost function Switch(l: Lists.State, from: Lists.Key, to: Lists.Key, i: nat): Lists.State
    requires CanSwitch(l, from, to, i)
  {
    Lists.PushTo(Lists.RemoveFrom(l, from, i), to, i)
  }

  /** Pop a slot; a slab left without free slots moves to the full list; count the block. */
  ghost function TakeSlot(cfg: Config, s: State, t: nat, w: nat, c: nat, i: nat): State
    requires Sized(cfg, s) && t < |s.agents| && w < cfg.numWorkers && c < NUM_SIZE_CLASSES && i < cfg.numSlabs
  {
    var x := s.slabs[i];
    var part, full := Lists.Key(w, c, false), Lists.Key(w, c, true);
    if x.free == [] then
      if !CanSwitch(s.local, part, full, i) then s.Pc(t, Panicked)
      else s.(local := Switch(s.local, part, full, i)).Move(i, Listed(full)).Pc(t, Idle)
    else if x.free[|x.free| - 1] >= |x.loc| then s.Pc(t, Panicked)
    else
      var y := Slab.Take(x, BlockOffset(cfg, i, c, x.free[|x.free| - 1]));
      var counted := s.Put(i, y).(bytes := s.bytes[w := Add64(s.bytes[w], Size(c))]).Pc(t, Idle);
      if y.free != [] then counted
      else if !CanSwitch(s.local, part, full, i) then s.Pc(t, Panicked)
      else counted.(local := Switch(s.local, part, full, i)).Move(i, Listed(full))
  }

  // ----- free

  ghost function BeginFree(cfg: Config, s: State, t: nat, i: nat, k: nat): State
    requires Sized(cfg, s) && t < |s.agents| && i < cfg.numSlabs && k < |s.slabs[i].loc| && s.slabs[i].loc[k].Live?
  {
    s.Put(i, Slab.BeginFree(s.slabs[i], t, k)).Pc(t, FindBlock(s.slabs[i].loc[k].offset, i, k))
  }

  /** Offset to slab and slot, through the size class stored for that slab. */
  ghost function Find(cfg: Config, s: State, t: nat, offset: nat): State
    requires Sized(cfg, s) && t < |s.agents| && cfg.slabSize > 0
  {
    match FindSlab(cfg, offset)
    case None => s.Pc(t, Panicked)
    case Some(i) =>
      if s.slabs[i].sizeIndex >= NUM_SIZE_CLASSES then s.Pc(t, Panicked)
      else
        var k := FindSlot(cfg, offset, s.slabs[i].sizeIndex);
        s.Pc(t, if s.agents[t].handle.Worker? then Route(i, k) else FreeRemote(i, k))
  }

  ghost function ChooseRoute(cfg: Config, s: State, t: nat, w: nat, i: nat, k: nat): State
    requires Sized(cfg, s) && t < |s.agents| && i < cfg.numSlabs
  {
    s.Pc(t, if s.slabs[i].owner == w then FreeLocal(i, k) else FreeRemote(i, k))
  }

  /** Where a slab goes after one of its slots was pushed on its free stack. */
  datatype Outcome = Stays | ToPartial | ToPool | Unreachable

  function OutcomeOf(x: Slab.State, y: Slab.State): Outcome {
    if x.free == [] && |y.free| == y.capacity then Unreachable
    else if x.free == [] then ToPartial
    else if |y.free| == y.capacity then ToPool
    else Stays
  }

  /** `local_free_with_size_index`, up to the first step of the push on the global list. */
  ghost function PushFree(cfg: Config, s: State, t: nat, w: nat, c: nat, i: nat, pc: Pc, after: After): State
    requires Sized(cfg, s) && t < |s.agents| && i < cfg.numSlabs
    requires s.slabs[i].ops[t].Holding? || s.slabs[i].ops[t].DrainHold?
    requires s.slabs[i].ops[t].slot < |s.slabs[i].loc|
  {
    var x := s.slabs[i];
    var y := Slab.LocalPush(x, t);
    var part, full := Lists.Key(w, c, false), Lists.Key(w, c, true);
    match OutcomeOf(x, y)
    case Unreachable => s.Pc(t, Panicked)
    case Stays => s.Put(i, y).Pc(t, pc)
    case ToPartial =>
      if !CanSwitch(s.local, full, part, i) then s.Pc(t, Panicked)
      else s.Put(i, y).(local := Switch(s.local, full, part, i)).Move(i, Listed(part)).Pc(t, pc)
    case ToPool =>
      if !Lists.CanRemove(s.local, part, i) then s.Pc(t, Panicked)
      else s.Put(i, y).(local := Lists.RemoveFrom(s.local, part, i)).Move(i, Transit(t))
            .Op(t, Pool.PushStart(i)).Pc(t, Giving(i, after))
  }

  ghost function LocalFree(cfg: Config, s: State, t: nat, w: nat, i: nat, k: nat): State
    requires Sized(cfg, s) && t < |s.agents| && w < cfg.numWorkers && i < cfg.numSlabs
  {
    var x := s.slabs[i];
    if x.sizeIndex >= NUM_SIZE_CLASSES || x.ops[t] != Slab.Holding(k) || k >= |x.loc| then s.Pc(t, Panicked)
    else
      PushFree(cfg, s.(bytes := s.bytes[w := Sub64(s.bytes[w], Size(x.sizeIndex))]), t, w, x.sizeIndex, i, Idle, Return)
  }

  ghost function BeginRemote(cfg: Config, s: State, t: nat, i: nat, k: nat): State
    requires Sized(cfg, s) && t < |s.agents| && i < cfg.numSlabs
  {
    var x := s.slabs[i];
    if x.sizeIndex >= NUM_SIZE_CLASSES || x.ops[t] != Slab.Holding(k) then s.Pc(t, Panicked)
    else s.Put(i, Slab.GoRemote(x, t)).Pc(t, RemotePush(i, x.sizeIndex))
  }

  /** One access of a remote push; the link word is addressed with the size class read before. */
  ghost function RemoteStep(cfg: Config, s: State, t: nat, i: nat, c: nat): State
    requires Sized(cfg, s) && t < |s.agents| && i < cfg.numSlabs
  {
    var x := s.slabs[i];
    if !Slab.Pushing(x.ops[t]) || x.ops[t].slot >= |x.words| || |x.words| != |x.loc| || x.sizeIndex != c
    then s.Pc(t, Panicked)
    else
      var y := Slab.AdvancePush(x, t);
      s.Put(i, y).Pc(t, if y.ops[t] == Slab.Idle then Idle else RemotePush(i, c))
  }

  /** One step of giving a wholly free slab back. */
  ghost function Give(cfg: Config, s: State, t: nat, i: nat, after: After): State
    requires Sized(cfg, s) && t < |s.agents|
  {
    var n := PoolStep(cfg, s, t);
    if n.pool.ops[t] == Pool.Idle then n.Pc(t, if after.Return? then Idle else CleanDrain(after.drain))
    else if n.pool.ops[t] == Pool.Panicked then n.Pc(t, Panicked)
    else n
  }

  // ----- clean

  ghost function EntryLists(cfg: Config, s: State, w: nat): seq<seq<nat>>
    requires Sized(cfg, s) && w < cfg.numWorkers
  {
    seq(LINES, (l: nat) requires l < LINES => s.local.lists[LineKey(w, l)])
  }

  ghost function BeginClean(cfg: Config, s: State, t: nat, w: nat): State
    requires Sized(cfg, s) && t < |s.agents| && w < cfg.numWorkers
  {
    s.Pc(t, CleanLine(0, Walk(EntryLists(cfg, s, w), [], [])))
  }

  ghost function StartLine(cfg: Config, s: State, t: nat, w: nat, line: nat, walk: Walk): State
    requires Sized(cfg, s) && t < |s.agents| && w < cfg.numWorkers
  {
    if line >= LINES then s.Pc(t, Idle)
    else
      var k := LineKey(w, line);
      s.Pc(t, CleanIter(line, s.local.heads[k], walk.(todo := s.local.lists[k])))
  }

  /** The iterator reads the next link of the slab it is about to yield. */
  ghost function IterStep(cfg: Config, s: State, t: nat, line: nat, cursor: nat, walk: Walk): State
    requires Sized(cfg, s) && t < |s.agents|
  {
    if cursor == NULL_U32 then s.Pc(t, CleanLine(line + 1, walk))
    else if cursor >= cfg.numSlabs || s.slabs[cursor].sizeIndex >= NUM_SIZE_CLASSES then s.Pc(t, Panicked)
    else
      var ahead := walk.(seen := walk.seen + [cursor], todo := if walk.todo == [] then [] else walk.todo[1..]);
      s.Pc(t, CleanSwap(line, s.local.nodes[cursor].next, cursor, s.slabs[cursor].sizeIndex, ahead))
  }

  ghost function SwapStep(cfg: Config, s: State, t: nat, line: nat, next: nat, i: nat, c: nat, walk: Walk): State
    requires Sized(cfg, s) && t < |s.agents| && i < cfg.numSlabs
  {
    s.Put(i, Slab.Drain(s.slabs[i], t)).Pc(t, CleanDrain(Drain(line, next, i, c, 0, walk)))
  }

  /** Yield the next drained slot, or finish the slab and settle the counter. */
  ghost function DrainStep(cfg: Config, s: State, t: nat, w: nat, d: Drain): State
    requires Sized(cfg, s) && t < |s.agents| && w < cfg.numWorkers && d.slab < cfg.numSlabs
  {
    var x := s.slabs[d.slab];
    if !x.ops[t].Draining? || d.sizeIndex >= NUM_SIZE_CLASSES then s.Pc(t, Panicked)
    else if x.ops[t].cursor == NULL_U16 then
      s.Put(d.slab, Slab.DrainEnd(x, t))
       .(bytes := s.bytes[w := if d.freed == 0 then s.bytes[w] else Sub64(s.bytes[w], d.freed * Size(d.sizeIndex))])
       .Pc(t, CleanIter(d.line, d.next, d.walk))
    else if x.ops[t].cursor >= |x.words| || |x.words| != |x.loc| then s.Pc(t, Panicked)
    else s.Put(d.slab, Slab.DrainNext(x, t)).Pc(t, CleanFree(d))
  }

  ghost function DrainFree(cfg: Config, s: State, t: nat, w: nat, d: Drain): State
    requires Sized(cfg, s) && t < |s.agents| && d.slab < cfg.numSlabs
  {
    var x := s.slabs[d.slab];
    if !x.ops[t].DrainHold? || x.ops[t].slot >= |x.loc| then s.Pc(t, Panicked)
    else
      var e := d.(freed := d.freed + 1);
      PushFree(cfg, s, t, w, d.sizeIndex, d.slab, CleanDrain(e), Resume(e))
  }

  // ----- the step system

  datatype Action =
    | Join
    | JoinFreeOnly
    | Drop
    | CallAllocate(size: nat)
    | CallFree(slab: nat, slot: nat)
    | CallClean
    | Write(slab: nat, slot: nat, v: nat)
    | Continue(words: seq<nat>)

  /** The slab a program counter is about to touch. */
  function Target(pc: Pc): Option<nat> {
    match pc
    case StoreOwner(_, i) => Some(i)
    case StoreClass(_, i) => Some(i)
    case ClearRemote(_, i) => Some(i)
    case ResetStack(_, i) => Some(i)
    case AllocSlot(_, i) => Some(i)
    case Route(i, _) => Some(i)
    case FreeLocal(i, _) => Some(i)
    case FreeRemote(i, _) => Some(i)
    case RemotePush(i, _) => Some(i)
    case CleanSwap(_, _, i, _, _) => Some(i)
    case CleanDrain(d) => Some(d.slab)
    case CleanFree(d) => Some(d.slab)
    case _ => None
  }

  function NeedsWorker(pc: Pc): bool {
    !(pc.Idle? || pc.Claiming? || pc.FindBlock? || pc.FreeRemote? || pc.RemotePush? || pc.Panicked?)
  }

  /** The size class a program counter is working on. */
  function ClassOf(pc: Pc): Option<nat> {
    match pc
    case ResetStack(c, _) => Some(c)
    case AllocSlot(c, _) => Some(c)
    case _ => None
  }

  /** The indices a program counter holds are in bounds; otherwise the code would panic. */
  predicate PcInBounds(cfg: Config, a: Agent) {
    && (NeedsWorker(a.pc) ==> a.handle.Worker? && a.handle.index < cfg.numWorkers)
    && (Target(a.pc).Some? ==> Target(a.pc).value < cfg.numSlabs)
    && (ClassOf(a.pc).Some? ==> ClassOf(a.pc).value < NUM_SIZE_CLASSES)
  }

  /** The next step of a handle inside a call. */
  ghost function Step(cfg: Config, s: State, t: nat, words: seq<nat>): State
    requires Sized(cfg, s) && t < |s.agents| && cfg.slabSize > 0
  {
    if !PcInBounds(cfg, s.agents[t]) then s.Pc(t, Panicked)
    else
      var pc := s.agents[t].pc;
      var w := if s.agents[t].handle.Worker? then s.agents[t].handle.index else 0;
      match pc
      case Idle => s
      case Panicked => s
      case Claiming(n) => Claim(cfg, s, t, n)
      case Taking(c) => Take(cfg, s, t, c)
      case StoreOwner(c, i) => s.Put(i, Slab.SetOwner(s.slabs[i], w)).Pc(t, StoreClass(c, i))
      case StoreClass(c, i) => s.Put(i, Slab.SetClass(s.slabs[i], c)).Pc(t, ClearRemote(c, i))
      case ClearRemote(c, i) => s.Put(i, Slab.ClearHead(s.slabs[i])).Pc(t, ResetStack(c, i))
      case ResetStack(c, i) => Refill(cfg, s, t, w, c, i, words)
      case AllocSlot(c, i) => TakeSlot(cfg, s, t, w, c, i)
      case FindBlock(offset, _, _) => Find(cfg, s, t, offset)
      case Route(i, k) => ChooseRoute(cfg, s, t, w, i, k)
      case FreeLocal(i, k) => LocalFree(cfg, s, t, w, i, k)
      case FreeRemote(i, k) => BeginRemote(cfg, s, t, i, k)
      case RemotePush(i, c) => RemoteStep(cfg, s, t, i, c)
      case Giving(i, after) => Give(cfg, s, t, i, after)
      case CleanLine(line, walk) => StartLine(cfg, s, t, w, line, walk)
      case CleanIter(line, cursor, walk) => IterStep(cfg, s, t, line, cursor, walk)
      case CleanSwap(line, next, i, c, walk) => SwapStep(cfg, s, t, line, next, i, c, walk)
      case CleanDrain(d) => DrainStep(cfg, s, t, w, d)
      case CleanFree(d) => DrainFree(cfg, s, t, w, d)
  }

  /**
   * When a step may be taken. Beyond the shape of the calls this holds only what the unsafe contracts demand:
   * a freed block is live, and a client writes only into a live block.
   */
  ghost predicate Enabled(cfg: Config, s: State, t: nat, a: Action) {
    && Sized(cfg, s) && t < |s.agents|
    && match a
       case Join => s.agents[t] == Agent(NoHandle, Idle)
       case JoinFreeOnly => s.agents[t] == Agent(NoHandle, Idle)
       case Drop => s.agents[t].pc == Idle && s.agents[t].handle != NoHandle
       case CallAllocate(size) =>
         s.agents[t].pc == Idle && s.agents[t].handle.Worker? && s.agents[t].handle.index < cfg.numWorkers
       case CallFree(i, k) =>
         && s.agents[t].pc == Idle && s.agents[t].handle != NoHandle
         && i < cfg.numSlabs && k < |s.slabs[i].loc| && s.slabs[i].loc[k].Live?
       case CallClean =>
         s.agents[t].pc == Idle && s.agents[t].handle.Worker? && s.agents[t].handle.index < cfg.numWorkers
       case Write(i, k, _) =>
         i < cfg.numSlabs && k < |s.slabs[i].loc| && k < |s.slabs[i].words| && s.slabs[i].loc[k].Live?
       case Continue(words) =>
         && s.agents[t].pc != Idle && s.agents[t].pc != Panicked
         && (s.agents[t].pc.ResetStack? && s.agents[t].pc.c < NUM_SIZE_CLASSES ==>
               |words| == Capacity(cfg, s.agents[t].pc.c))
  }

  ghost function Apply(cfg: Config, s: State, t: nat, a: Action): State
    requires ValidConfig(cfg) && Enabled(cfg, s, t, a)
  {
    match a
    case Join => s.Pc(t, Claiming(0))
    case JoinFreeOnly => s.(agents := s.agents[t := Agent(FreeOnly, Idle)])
    case Drop => Leave(cfg, s, t)
    case CallAllocate(size) => Allocate(cfg, s, t, s.agents[t].handle.index, size)
    case CallFree(i, k) => BeginFree(cfg, s, t, i, k)
    case CallClean => BeginClean(cfg, s, t, s.agents[t].handle.index)
    case Write(i, k, v) => s.Put(i, Slab.Scribble(s.slabs[i], k, v))
    case Continue(words) => Step(cfg, s, t, words)
  }

  /** The hypothesis on the 32-bit generation, for the one step that needs it. */
  predicate Fresh(s: State, t: nat) {
    Pool.Fresh(s.pool, t)
  }

  // ----- the initial state

  function FreshSlab(threads: nat): Slab.State {
    Slab.State(NULL_U32, 0, NULL_U16, 0, [], [], seq(threads, _ => Slab.Idle), 0, [], [])
  }

  ghost function Keys(cfg: Config): set<Lists.Key> {
    set w: nat, c: nat, f: bool | w in Below(cfg.numWorkers) && c in Below(NUM_SIZE_CLASSES) && f in {false, true}
      :: Lists.Key(w, c, f)
  }

  /** What `initialize` writes, before any handle exists. */
  ghost function Initial(cfg: Config, threads: nat): State
    requires ValidConfig(cfg)
  {
    State(
      Pool.Initial(cfg.numSlabs, threads),
      Lists.State(seq(cfg.numSlabs, _ => Lists.NULL_LINK), map k | k in Keys(cfg) :: NULL_U32, map k | k in Keys(cfg) :: []),
      seq(cfg.numSlabs, _ => FreshSlab(threads)),
      seq(cfg.numWorkers, _ => false),
      seq(cfg.numWorkers, _ => 0),
      seq(threads, _ => Agent(NoHandle, Idle)),
      seq(cfg.numSlabs, _ => InPool),
      seq(cfg.numWorkers, _ => None))
  }
}
