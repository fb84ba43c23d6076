/** The invariant of the whole allocator, and what a step of one handle leaves untouched. */
module AllocatorInv {
  import opened Base
  import opened SizeClasses
  import opened Address
  import opened Allocator
  import Pool = GlobalFreeList
  import Lists = LocalLists
  import Slab

  // ----- slabs

  /** The slab a handle has in its hands: on its way into or out of the global list, or being assigned. */
  function Carries(s: State, t: nat): Option<nat>
    requires t < |s.agents| && t < |s.pool.ops|
  {
    match s.agents[t].pc
    case StoreOwner(_, i) => Some(i)
    case StoreClass(_, i) => Some(i)
    case ClearRemote(_, i) => Some(i)
    case ResetStack(_, i) => Some(i)
    case _ => Pool.Carried(s.pool.ops[t])
  }

  /** A slab is in the place the lists and the handles say, and in no other. */
  ghost predicate PlaceOk(s: State, i: nat)
    requires i < |s.place| && |s.agents| == |s.pool.ops|
  {
    && (s.place[i] == InPool <==> i in s.pool.stack)
    && (forall k {:trigger s.local.lists[k]} :: k in s.local.lists ==> (i in s.local.lists[k] <==> s.place[i] == Listed(k)))
    && (s.place[i].Listed? ==> s.place[i].key in s.local.lists)
    && (s.place[i].Transit? ==> s.place[i].tid < |s.agents| && Carries(s, s.place[i].tid) == Some(i))
  }

  /** The one moment a listed slab may be wholly free: its owner has just taken it and is about to use it. */
  ghost predicate Filling(s: State, i: nat, k: Lists.Key) {
    && k.worker < |s.holder| && s.holder[k.worker].Some? && s.holder[k.worker].value < |s.agents|
    && s.agents[s.holder[k.worker].value].pc == AllocSlot(k.sizeIndex, i)
  }

  /** A slab outside every worker's lists has nothing outstanding; a listed one is where its free stack says. */
  ghost predicate Standing(cfg: Config, s: State, i: nat)
    requires i < |s.place| && i < |s.slabs|
  {
    var x := s.slabs[i];
    match s.place[i]
    case InPool => Slab.Quiet(x)
    case Transit(_) => Slab.Quiet(x)
    case Listed(k) =>
      && k.sizeIndex < NUM_SIZE_CLASSES
      && x.owner == k.worker && x.sizeIndex == k.sizeIndex && x.capacity == Capacity(cfg, k.sizeIndex)
      && (k.full <==> x.free == [])
      && (|x.free| == x.capacity ==> Filling(s, i, k))
  }

  /** Every live block was handed out under the offset its slab and slot still have. */
  ghost predicate OffsetsOk(cfg: Config, x: Slab.State, i: nat) {
    && x.sizeIndex < NUM_SIZE_CLASSES
    && forall k: nat {:trigger x.loc[k]} :: k < |x.loc| && x.loc[k].Live? ==>
         x.loc[k].offset == BlockOffset(cfg, i, x.sizeIndex, k)
  }

  ghost predicate SlabOk(cfg: Config, s: State, i: nat)
    requires Sized(cfg, s) && i < cfg.numSlabs
  {
    Slab.Inv(s.slabs[i]) && OffsetsOk(cfg, s.slabs[i], i) && PlaceOk(s, i) && Standing(cfg, s, i)
  }

  // ----- handles

  predicate Taken(op: Pool.Op) {
    op.PopStart? || op.PopNext? || op.PopSwap? || op.PopClear? || op.Popped? || op.PopFailed?
  }

  predicate PoolOpFits(pc: Pc, op: Pool.Op) {
    match pc
    case Taking(_) => Taken(op)
    case Giving(i, _) => (op.PushStart? || op.PushLink? || op.PushSwap?) && op.slab == i
    case _ => op == Pool.Idle
  }

  /** What a handle is doing with slab `j`, given where it is. */
  ghost predicate SlabOpFits(pc: Pc, j: nat, op: Slab.Op) {
    match pc
    case FindBlock(_, i, k) => op == if j == i then Slab.Holding(k) else Slab.Idle
    case Route(i, k) => op == if j == i then Slab.Holding(k) else Slab.Idle
    case FreeLocal(i, k) => op == if j == i then Slab.Holding(k) else Slab.Idle
    case FreeRemote(i, k) => op == if j == i then Slab.Holding(k) else Slab.Idle
    case RemotePush(i, _) => if j == i then Slab.Pushing(op) else op == Slab.Idle
    case CleanDrain(d) => if j == d.slab then op.Draining? else op == Slab.Idle
    case CleanFree(d) => if j == d.slab then op.DrainHold? else op == Slab.Idle
    case Giving(_, after) =>
      if after.Resume? && j == after.drain.slab then op.Draining? else op == Slab.Idle
    case _ => op == Slab.Idle
  }

  /** The concatenation of the first `n` lists. */
  ghost function Flat(entry: seq<seq<nat>>, n: nat): seq<nat>
    requires n <= |entry|
  {
    if n == 0 then [] else Flat(entry, n - 1) + entry[n - 1]
  }

  ghost predicate Suffix(todo: seq<nat>, xs: seq<nat>) {
    |todo| <= |xs| && xs[|xs| - |todo|..] == todo
  }

  /** The lists of worker `w` from `line` on are still as they were at entry. */
  ghost predicate Ahead(l: Lists.State, w: nat, line: nat, walk: Walk) {
    && |walk.entry| == LINES
    && forall n: nat {:trigger LineKey(w, n)} :: line <= n < LINES ==>
         LineKey(w, n) in l.lists && l.lists[LineKey(w, n)] == walk.entry[n]
  }

  /** Midway through list `line`: what was seen and what is ahead make up the lists at entry up to here. */
  ghost predicate Midway(l: Lists.State, w: nat, line: nat, cursor: nat, walk: Walk) {
    && line < LINES && Ahead(l, w, line + 1, walk)
    && walk.seen + walk.todo == Flat(walk.entry, line + 1)
    && cursor == At(walk.todo, 0, NULL_U32)
    && LineKey(w, line) in l.lists && Suffix(walk.todo, l.lists[LineKey(w, line)])
  }

  /** A drain's slab belongs to the drainer as long as it has a slot of it in hand or ahead. */
  ghost predicate DrainOk(s: State, t: nat, w: nat, d: Drain) {
    && Midway(s.local, w, d.line, d.next, d.walk)
    && d.slab < |s.slabs| && d.slab !in d.walk.todo
    && d.sizeIndex == d.line / 2
    && t < |s.slabs[d.slab].ops|
    && (Slab.Held(s.slabs[d.slab].ops[t]).Some? || Slab.Rest(s.slabs[d.slab].ops[t]) != [] ==>
          && s.slabs[d.slab].owner == w && s.slabs[d.slab].sizeIndex == d.sizeIndex
          && (d.line % 2 == 0 ==> s.slabs[d.slab].free != []))
  }

  ghost predicate WorkerPc(cfg: Config, s: State, t: nat, w: nat, pc: Pc)
    requires Sized(cfg, s) && t < |s.agents|
  {
    match pc
    case Taking(c) => c < NUM_SIZE_CLASSES
    case StoreOwner(c, i) => c < NUM_SIZE_CLASSES && i < cfg.numSlabs
    case StoreClass(c, i) => c < NUM_SIZE_CLASSES && i < cfg.numSlabs && s.slabs[i].owner == w
    case ClearRemote(c, i) =>
      c < NUM_SIZE_CLASSES && i < cfg.numSlabs && s.slabs[i].owner == w && s.slabs[i].sizeIndex == c
    case ResetStack(c, i) =>
      c < NUM_SIZE_CLASSES && i < cfg.numSlabs && s.slabs[i].owner == w && s.slabs[i].sizeIndex == c
    case AllocSlot(c, i) => c < NUM_SIZE_CLASSES && i < cfg.numSlabs && s.place[i] == Listed(Lists.Key(w, c, false))
    case Route(i, _) => i < cfg.numSlabs
    case FreeLocal(i, _) => i < cfg.numSlabs && s.slabs[i].owner == w
    case Giving(i, after) => after.Resume? ==> after.drain.slab == i && DrainOk(s, t, w, after.drain)
    case CleanLine(line, walk) => line <= LINES && Ahead(s.local, w, line, walk) && walk.seen == Flat(walk.entry, line)
    case CleanIter(line, cursor, walk) => Midway(s.local, w, line, cursor, walk)
    case CleanSwap(line, next, i, c, walk) =>
      && Midway(s.local, w, line, next, walk)
      && i < cfg.numSlabs && i !in walk.todo && s.place[i] == Listed(LineKey(w, line)) && c == line / 2
    case CleanDrain(d) => DrainOk(s, t, w, d)
    case CleanFree(d) => DrainOk(s, t, w, d)
    case _ => true
  }

  ghost predicate AnyPc(cfg: Config, s: State, t: nat, pc: Pc)
    requires Sized(cfg, s) && t < |s.agents|
  {
    match pc
    case Claiming(_) => s.agents[t].handle == NoHandle
    case FindBlock(offset, i, k) =>
      && i < cfg.numSlabs && s.agents[t].handle != NoHandle
      && s.slabs[i].sizeIndex < NUM_SIZE_CLASSES && offset == BlockOffset(cfg, i, s.slabs[i].sizeIndex, k)
    case FreeRemote(i, _) => i < cfg.numSlabs && s.agents[t].handle != NoHandle
    case RemotePush(i, c) => i < cfg.numSlabs && s.agents[t].handle != NoHandle && s.slabs[i].sizeIndex == c
    case Panicked => false
    case _ => true
  }

  ghost predicate AgentOk(cfg: Config, s: State, t: nat)
    requires Sized(cfg, s) && t < |s.agents|
  {
    var a := s.agents[t];
    && (a.handle.Worker? ==> a.handle.index < cfg.numWorkers && s.holder[a.handle.index] == Some(t))
    && (NeedsWorker(a.pc) ==> a.handle.Worker? && WorkerPc(cfg, s, t, a.handle.index, a.pc))
    && AnyPc(cfg, s, t, a.pc)
    && PoolOpFits(a.pc, s.pool.ops[t])
    && (forall j: nat {:trigger s.slabs[j]} :: j < cfg.numSlabs ==> SlabOpFits(a.pc, j, s.slabs[j].ops[t]))
    && (Carries(s, t).Some? ==> Carries(s, t).value < cfg.numSlabs && s.place[Carries(s, t).value] == Transit(t))
  }

  // ----- workers

  /** Bytes of a slab that count against worker `w`: everything not in the free stack. */
  function UsedBy(x: Slab.State, w: nat): nat {
    if x.owner == w && x.sizeIndex < NUM_SIZE_CLASSES && |x.free| <= x.capacity
    then (x.capacity - |x.free|) * Size(x.sizeIndex) else 0
  }

  function Used(slabs: seq<Slab.State>, w: nat): nat {
    if slabs == [] then 0 else Used(slabs[..|slabs| - 1], w) + UsedBy(slabs[|slabs| - 1], w)
  }

  /** Bytes already pushed on a free stack by a drain under way but not yet taken off the counter. */
  function OwedBy(pc: Pc): nat {
    match pc
    case CleanDrain(d) => if d.sizeIndex < NUM_SIZE_CLASSES then d.freed * Size(d.sizeIndex) else 0
    case CleanFree(d) => if d.sizeIndex < NUM_SIZE_CLASSES then d.freed * Size(d.sizeIndex) else 0
    case Giving(_, after) =>
      if after.Resume? && after.drain.sizeIndex < NUM_SIZE_CLASSES
      then after.drain.freed * Size(after.drain.sizeIndex) else 0
    case _ => 0
  }

  ghost function Owed(s: State, w: nat): nat
    requires w < |s.holder|
  {
    if s.holder[w].Some? && s.holder[w].value < |s.agents| then OwedBy(s.agents[s.holder[w].value].pc) else 0
  }

  ghost predicate WorkerOk(cfg: Config, s: State, w: nat)
    requires Sized(cfg, s) && w < cfg.numWorkers
  {
    && (s.claimed[w] <==> s.holder[w].Some?)
    && (s.holder[w].Some? ==> s.holder[w].value < |s.agents| && s.agents[s.holder[w].value].handle == Worker(w))
    && s.bytes[w] == Used(s.slabs, w) + Owed(s, w)
    && s.bytes[w] < TWO_64
  }

  // ----- the invariant

  ghost predicate Inv(cfg: Config, s: State) {
    && ValidConfig(cfg) && Sized(cfg, s)
    && Pool.Inv(s.pool) && Lists.Inv(s.local)
    && (forall i: nat {:trigger SlabOk(cfg, s, i)} :: i < cfg.numSlabs ==> SlabOk(cfg, s, i))
    && (forall t: nat {:trigger AgentOk(cfg, s, t)} :: t < |s.agents| ==> AgentOk(cfg, s, t))
    && (forall w: nat {:trigger WorkerOk(cfg, s, w)} :: w < cfg.numWorkers ==> WorkerOk(cfg, s, w))
  }

  // ----- frames

  /** Handle `t` owns the key's worker. */
  predicate OwnKey(s: State, t: nat, k: Lists.Key)
    requires t < |s.agents|
  {
    s.agents[t].handle == Worker(k.worker)
  }

  /** Only handle `t` moved in the agents, the pool operations and the claims. */
  ghost predicate OnlyAgent(cfg: Config, s: State, s': State, t: nat)
    requires Sized(cfg, s) && Sized(cfg, s')
  {
    && t < |s.agents| == |s'.agents|
    && (forall u: nat {:trigger s'.agents[u]} :: u < |s.agents| && u != t ==>
          s'.agents[u] == s.agents[u] && s'.pool.ops[u] == s.pool.ops[u])
    && (forall v: nat {:trigger s'.holder[v]} :: v < cfg.numWorkers ==>
          s'.holder[v] == s.holder[v] || (s.holder[v] in {None, Some(t)} && s'.holder[v] in {None, Some(t)}))
  }

  /** Of slab `i`, only what handle `t` may change has changed. */
  ghost predicate OwnChange(s: State, s': State, t: nat, i: nat)
    requires i < |s.slabs| == |s'.slabs| == |s.place| == |s'.place|
    requires |s.slabs[i].ops| == |s'.slabs[i].ops| == |s.agents| && t < |s.agents|
  {
    && (forall u: nat {:trigger s'.slabs[i].ops[u]} :: u < |s.agents| && u != t ==> s'.slabs[i].ops[u] == s.slabs[i].ops[u])
    && (s.place[i] != Transit(t) ==>
          && s'.slabs[i].owner == s.slabs[i].owner && s'.slabs[i].sizeIndex == s.slabs[i].sizeIndex)
    && (s.place[i].Listed? && !OwnKey(s, t, s.place[i].key) ==> s'.slabs[i].free == s.slabs[i].free)
    && (s'.place[i] != s.place[i] ==>
          s.place[i] == InPool || s.place[i] == Transit(t) || (s.place[i].Listed? && OwnKey(s, t, s.place[i].key)))
  }

  /** No slab but `i` changed, and that one only as handle `t` may; `i` out of range means none did. */
  ghost predicate OnlySlab(cfg: Config, s: State, s': State, t: nat, i: nat)
    requires Sized(cfg, s) && Sized(cfg, s') && t < |s.agents| == |s'.agents|
  {
    && (forall j: nat {:trigger s'.slabs[j]} :: j < cfg.numSlabs && j != i ==>
          s'.slabs[j] == s.slabs[j] && s'.place[j] == s.place[j]
          && (j in s'.pool.stack <==> j in s.pool.stack))
    && (i < cfg.numSlabs ==> OwnChange(s, s', t, i))
  }

  /** Only lists of handle `t`'s worker changed, and only by slab `i`. */
  ghost predicate OnlyLists(cfg: Config, s: State, s': State, t: nat, i: nat)
    requires Sized(cfg, s) && Sized(cfg, s') && t < |s.agents|
  {
    && (forall k {:trigger s'.local.lists[k]} :: k in s.local.lists && !OwnKey(s, t, k) ==>
          s'.local.lists[k] == s.local.lists[k])
    && (forall k, j: nat {:trigger j in s'.local.lists[k]} :: k in s.local.lists && j != i ==>
          (j in s'.local.lists[k] <==> j in s.local.lists[k]))
  }

  /** What handle `t` carries and fills concerns slab `i` only, before and after. */
  ghost predicate OnlyCarries(cfg: Config, s: State, s': State, t: nat, i: nat)
    requires Sized(cfg, s) && Sized(cfg, s') && t < |s.agents| == |s'.agents|
  {
    && (Carries(s', t) == Carries(s, t) || (Carries(s, t) in {None, Some(i)} && Carries(s', t) in {None, Some(i)}))
    && (s.agents[t].pc.AllocSlot? ==> 
          s.agents[t].pc.slab == i || (s'.agents[t] == s.agents[t] && s'.holder == s.holder))
  }

  ghost predicate Shape(cfg: Config, s: State, s': State, t: nat, i: nat) {
    && Sized(cfg, s) && Sized(cfg, s') && t < |s.agents| == |s'.agents|
    && OnlyAgent(cfg, s, s', t) && OnlySlab(cfg, s, s', t, i)
    && OnlyLists(cfg, s, s', t, i) && OnlyCarries(cfg, s, s', t, i)
  }

  lemma OtherSlab(cfg: Config, s: State, s': State, t: nat, i: nat, j: nat)
    requires Inv(cfg, s) && Shape(cfg, s, s', t, i) && j < cfg.numSlabs && j != i
    ensures SlabOk(cfg, s', j)
  {
    assert SlabOk(cfg, s, j);
    OtherPlace(cfg, s, s', t, i, j);
    OtherStanding(cfg, s, s', t, i, j);
  }

  lemma OtherPlace(cfg: Config, s: State, s': State, t: nat, i: nat, j: nat)
    requires Inv(cfg, s) && Shape(cfg, s, s', t, i) && j < cfg.numSlabs && j != i
    ensures PlaceOk(s', j)
  {
    assert SlabOk(cfg, s, j);
    assert s'.slabs[j] == s.slabs[j];
    forall k | k in s'.local.lists ensures j in s'.local.lists[k] <==> s'.place[j] == Listed(k) {
      assert k in s.local.lists;
      assert j in s.local.lists[k] <==> s.place[j] == Listed(k);
    }
    if s.place[j].Transit? {
      var u := s.place[j].tid;
      if u != t { assert s'.agents[u] == s.agents[u]; }
    }
  }

  lemma OtherStanding(cfg: Config, s: State, s': State, t: nat, i: nat, j: nat)
    requires Inv(cfg, s) && Shape(cfg, s, s', t, i) && j < cfg.numSlabs && j != i
    ensures Standing(cfg, s', j)
  {
    assert SlabOk(cfg, s, j);
    assert s'.slabs[j] == s.slabs[j];
    if s.place[j].Listed? && |s.slabs[j].free| == s.slabs[j].capacity {
      var k := s.place[j].key;
      var u := s.holder[k.worker].value;
      assert s'.holder[k.worker] == s.holder[k.worker] || u == t;
      if u != t { assert s'.agents[u] == s.agents[u]; }
    }
  }

  /** Another handle's drained or held slots pin its slab: it is neither pooled nor in transit. */
  lemma EngagedIsListed(cfg: Config, s: State, i: nat, u: nat)
    requires Inv(cfg, s) && i < cfg.numSlabs && u < |s.agents|
    requires Slab.Held(s.slabs[i].ops[u]).Some? || Slab.Rest(s.slabs[i].ops[u]) != []
    ensures s.place[i].Listed?
  {
    assert SlabOk(cfg, s, i);
    if !s.place[i].Listed? {
      Slab.QuietMeansNothingPending(s.slabs[i]);
    }
  }

  /** All lists of worker `v` are as before. */
  ghost predicate SameLists(s: State, s': State, v: nat) {
    && s'.local.lists.Keys == s.local.lists.Keys
    && forall k {:trigger s'.local.lists[k]} :: k in s.local.lists && k.worker == v ==> s'.local.lists[k] == s.local.lists[k]
  }

  lemma SameWalk(s: State, s': State, v: nat, line: nat, cursor: nat, walk: Walk)
    requires SameLists(s, s', v)
    ensures Ahead(s.local, v, line, walk) ==> Ahead(s'.local, v, line, walk)
    ensures Midway(s.local, v, line, cursor, walk) ==> Midway(s'.local, v, line, cursor, walk)
  {
  }

  /** Two handles never share a worker. */
  lemma Exclusive(cfg: Config, s: State, t: nat, u: nat)
    requires Inv(cfg, s) && t < |s.agents| && u < |s.agents| && t != u
    ensures s.agents[t].handle.Worker? ==> s.agents[u].handle != s.agents[t].handle
  {
    assert AgentOk(cfg, s, t) && AgentOk(cfg, s, u);
  }

  lemma OtherLists(cfg: Config, s: State, s': State, t: nat, i: nat, u: nat)
    requires Inv(cfg, s) && Shape(cfg, s, s', t, i) && u < |s.agents| && u != t && s.agents[u].handle.Worker?
    ensures SameLists(s, s', s.agents[u].handle.index)
  {
    Exclusive(cfg, s, t, u);
    assert forall k :: k in s'.local.lists <==> k in s.local.lists;
  }

  /** A slab some other handle is draining or freeing in keeps its free stack unless it belongs to this handle. */
  lemma OtherFree(cfg: Config, s: State, s': State, t: nat, i: nat, u: nat, j: nat)
    requires Inv(cfg, s) && Shape(cfg, s, s', t, i) && u < |s.agents| && u != t && j < cfg.numSlabs
    requires Slab.Held(s.slabs[j].ops[u]).Some? || Slab.Rest(s.slabs[j].ops[u]) != []
    requires s.agents[u].handle == Worker(s.slabs[j].owner)
    ensures s'.slabs[j].free == s.slabs[j].free
  {
    EngagedIsListed(cfg, s, j, u);
    assert SlabOk(cfg, s, j);
    Exclusive(cfg, s, u, t);
    if j != i { assert s'.slabs[j] == s.slabs[j]; }
  }

  /** A slab some other handle holds on to keeps its owner and size class. */
  lemma OtherMeta(cfg: Config, s: State, s': State, t: nat, i: nat, u: nat, j: nat)
    requires Inv(cfg, s) && Shape(cfg, s, s', t, i) && u < |s.agents| && u != t && j < cfg.numSlabs
    requires Slab.Held(s.slabs[j].ops[u]).Some? || Slab.Rest(s.slabs[j].ops[u]) != [] || Carries(s, u) == Some(j)
    ensures s'.slabs[j].owner == s.slabs[j].owner && s'.slabs[j].sizeIndex == s.slabs[j].sizeIndex
    ensures s'.slabs[j].ops[u] == s.slabs[j].ops[u]
  {
    assert AgentOk(cfg, s, u);
    if j == i {
      if Carries(s, u) != Some(j) { EngagedIsListed(cfg, s, j, u); }
      assert s.place[i] != Transit(t);
      OwnChangeOps(cfg, s, s', t, i, u);
    } else {
      assert s'.slabs[j] == s.slabs[j];
    }
  }

  lemma OwnChangeOps(cfg: Config, s: State, s': State, t: nat, i: nat, u: nat)
    requires Shape(cfg, s, s', t, i) && u < |s.agents| && u != t && i < cfg.numSlabs
    ensures OwnChange(s, s', t, i) && u < |s.slabs[i].ops| && u < |s'.slabs[i].ops|
    ensures s'.slabs[i].ops[u] == s.slabs[i].ops[u]
  {
    assert OwnChange(s, s', t, i);
  }

  lemma OtherOps(cfg: Config, s: State, s': State, t: nat, i: nat, u: nat)
    requires Inv(cfg, s) && Shape(cfg, s, s', t, i) && u < |s.agents| && u != t
    ensures s'.agents[u] == s.agents[u] && s'.pool.ops[u] == s.pool.ops[u]
    ensures forall j: nat {:trigger s'.slabs[j]} :: j < cfg.numSlabs ==> s'.slabs[j].ops[u] == s.slabs[j].ops[u]
  {
    forall j: nat | j < cfg.numSlabs ensures s'.slabs[j].ops[u] == s.slabs[j].ops[u] {
      if j == i {
        assert OwnChange(s, s', t, i);
        assert s'.slabs[i].ops[u] == s.slabs[i].ops[u];
      } else {
        assert s'.slabs[j] == s.slabs[j];
      }
    }
    assert s'.agents[u] == s.agents[u];
  }

  /** The slab another handle carries stays in its hands; the slab it works on stays on its list. */
  lemma OtherHolds(cfg: Config, s: State, s': State, t: nat, i: nat, u: nat, j: nat)
    requires Inv(cfg, s) && Shape(cfg, s, s', t, i) && u < |s.agents| && u != t && j < cfg.numSlabs
    ensures s.place[j] == Transit(u) ==> s'.place[j] == s.place[j]
    ensures s.place[j].Listed? && OwnKey(s, u, s.place[j].key) ==> s'.place[j] == s.place[j]
  {
    Exclusive(cfg, s, u, t);
    if j != i { assert s'.slabs[j] == s.slabs[j]; } else { assert OwnChange(s, s', t, i); }
  }

  lemma OtherDrain(cfg: Config, s: State, s': State, t: nat, i: nat, u: nat, v: nat, d: Drain)
    requires Inv(cfg, s) && Shape(cfg, s, s', t, i) && u < |s.agents| && u != t
    requires s.agents[u].handle == Worker(v) && DrainOk(s, u, v, d)
    ensures DrainOk(s', u, v, d)
  {
    OtherLists(cfg, s, s', t, i, u);
    SameWalk(s, s', v, d.line, d.next, d.walk);
    OtherOps(cfg, s, s', t, i, u);
    assert s'.slabs[d.slab].ops[u] == s.slabs[d.slab].ops[u];
    if Slab.Held(s.slabs[d.slab].ops[u]).Some? || Slab.Rest(s.slabs[d.slab].ops[u]) != [] {
      OtherMeta(cfg, s, s', t, i, u, d.slab);
      OtherFree(cfg, s, s', t, i, u, d.slab);
    }
  }

  predicate CleaningPc(pc: Pc) {
    pc.Giving? || pc.CleanLine? || pc.CleanIter? || pc.CleanSwap? || pc.CleanDrain? || pc.CleanFree?
  }

  lemma OtherCleaningPc(cfg: Config, s: State, s': State, t: nat, i: nat, u: nat)
    requires Inv(cfg, s) && Shape(cfg, s, s', t, i) && u < |s.agents| && u != t
    requires s.agents[u].handle.Worker? && CleaningPc(s.agents[u].pc)
    requires WorkerPc(cfg, s, u, s.agents[u].handle.index, s.agents[u].pc)
    ensures WorkerPc(cfg, s', u, s.agents[u].handle.index, s.agents[u].pc)
  {
    var v := s.agents[u].handle.index;
    OtherLists(cfg, s, s', t, i, u);
    assert Sized(cfg, s) && Sized(cfg, s');
    hide Inv, Shape, Midway, Ahead, SameLists;
    match s.agents[u].pc
    case CleanLine(line, walk) => SameWalk(s, s', v, line, 0, walk);
    case CleanIter(line, cursor, walk) => SameWalk(s, s', v, line, cursor, walk);
    case CleanSwap(line, next, j, c, walk) =>
      SameWalk(s, s', v, line, next, walk);
      OtherHolds(cfg, s, s', t, i, u, j);
    case _ => OtherDrainPc(cfg, s, s', t, i, u);
  }

  lemma OtherDrainPc(cfg: Config, s: State, s': State, t: nat, i: nat, u: nat)
    requires Inv(cfg, s) && Shape(cfg, s, s', t, i) && u < |s.agents| && u != t && s.agents[u].handle.Worker?
    requires s.agents[u].pc.Giving? || s.agents[u].pc.CleanDrain? || s.agents[u].pc.CleanFree?
    requires WorkerPc(cfg, s, u, s.agents[u].handle.index, s.agents[u].pc)
    ensures WorkerPc(cfg, s', u, s.agents[u].handle.index, s.agents[u].pc)
  {
    var v := s.agents[u].handle.index;
    hide Inv, Shape, DrainOk;
    match s.agents[u].pc
    case Giving(j, after) => if after.Resume? { OtherDrain(cfg, s, s', t, i, u, v, after.drain); }
    case CleanDrain(d) => OtherDrain(cfg, s, s', t, i, u, v, d);
    case CleanFree(d) => OtherDrain(cfg, s, s', t, i, u, v, d);
  }

  lemma OtherWorkerPc(cfg: Config, s: State, s': State, t: nat, i: nat, u: nat)
    requires Inv(cfg, s) && Shape(cfg, s, s', t, i) && u < |s.agents| && u != t
    requires NeedsWorker(s.agents[u].pc)
    ensures s.agents[u].handle.Worker? && WorkerPc(cfg, s', u, s.agents[u].handle.index, s.agents[u].pc)
  {
    assert AgentOk(cfg, s, u);
    if CleaningPc(s.agents[u].pc) {
      hide Inv, Shape, AgentOk, WorkerPc;
      OtherCleaningPc(cfg, s, s', t, i, u);
    } else {
      match s.agents[u].pc
      case StoreClass(c, j) => OtherMeta(cfg, s, s', t, i, u, j);
      case ClearRemote(c, j) => OtherMeta(cfg, s, s', t, i, u, j);
      case ResetStack(c, j) => OtherMeta(cfg, s, s', t, i, u, j);
      case AllocSlot(c, j) => OtherHolds(cfg, s, s', t, i, u, j);
      case FreeLocal(j, k) =>
        assert SlabOpFits(s.agents[u].pc, j, s.slabs[j].ops[u]);
        OtherMeta(cfg, s, s', t, i, u, j);
      case _ =>
    }
  }

  lemma OtherAnyPc(cfg: Config, s: State, s': State, t: nat, i: nat, u: nat)
    requires Inv(cfg, s) && Shape(cfg, s, s', t, i) && u < |s.agents| && u != t
    ensures AnyPc(cfg, s', u, s.agents[u].pc)
  {
    assert AgentOk(cfg, s, u);
    OtherOps(cfg, s, s', t, i, u);
    match s.agents[u].pc
    case FindBlock(offset, j, k) =>
      assert SlabOpFits(s.agents[u].pc, j, s.slabs[j].ops[u]);
      OtherMeta(cfg, s, s', t, i, u, j);
    case RemotePush(j, c) =>
      assert SlabOpFits(s.agents[u].pc, j, s.slabs[j].ops[u]);
      OtherMeta(cfg, s, s', t, i, u, j);
    case _ =>
  }

  lemma OtherAgent(cfg: Config, s: State, s': State, t: nat, i: nat, u: nat)
    requires Inv(cfg, s) && Shape(cfg, s, s', t, i) && u < |s.agents| && u != t
    ensures AgentOk(cfg, s', u)
  {
    assert AgentOk(cfg, s, u);
    OtherOps(cfg, s, s', t, i, u);
    OtherAnyPc(cfg, s, s', t, i, u);
    if NeedsWorker(s.agents[u].pc) { OtherWorkerPc(cfg, s, s', t, i, u); }
    if s.agents[u].handle.Worker? {
      var v := s.agents[u].handle.index;
      assert s'.holder[v] == s.holder[v];
    }
    if Carries(s, u).Some? { OtherHolds(cfg, s, s', t, i, u, Carries(s, u).value); }
  }

  lemma {:induction false} UsedUpdate(slabs: seq<Slab.State>, i: nat, x: Slab.State, w: nat)
    requires i < |slabs|
    ensures Used(slabs[i := x], w) + UsedBy(slabs[i], w) == Used(slabs, w) + UsedBy(x, w)
    decreases |slabs|
  {
    var n := |slabs| - 1;
    var slabs' := slabs[i := x];
    if i == n {
      assert slabs'[..n] == slabs[..n];
    } else {
      UsedUpdate(slabs[..n], i, x, w);
      assert slabs'[..n] == slabs[..n][i := x];
    }
  }

  /** The other workers' accounts, when nobody joins or leaves. */
  lemma OtherWorker(cfg: Config, s: State, s': State, t: nat, i: nat, v: nat)
    requires Inv(cfg, s) && Shape(cfg, s, s', t, i) && v < cfg.numWorkers
    requires s'.claimed[v] == s.claimed[v] && s'.holder[v] == s.holder[v] && s'.bytes[v] == s.bytes[v]
    requires i < cfg.numSlabs ==> UsedBy(s'.slabs[i], v) == UsedBy(s.slabs[i], v)
    requires s.holder[v] == Some(t) ==>
      s'.agents[t].handle == s.agents[t].handle && OwedBy(s'.agents[t].pc) == OwedBy(s.agents[t].pc)
    ensures WorkerOk(cfg, s', v)
  {
    assert WorkerOk(cfg, s, v);
    if i < cfg.numSlabs {
      assert s'.slabs == s.slabs[i := s'.slabs[i]];
      UsedUpdate(s.slabs, i, s'.slabs[i], v);
    } else {
      assert s'.slabs == s.slabs;
    }
    if s.holder[v].Some? && s.holder[v].value != t { assert s'.agents[s.holder[v].value] == s.agents[s.holder[v].value]; }
  }

  lemma Assemble(cfg: Config, s: State, s': State, t: nat, i: nat)
    requires Inv(cfg, s) && Shape(cfg, s, s', t, i)
    requires Pool.Inv(s'.pool) && Lists.Inv(s'.local)
    requires i < cfg.numSlabs ==> SlabOk(cfg, s', i)
    requires AgentOk(cfg, s', t)
    requires forall v: nat {:trigger WorkerOk(cfg, s', v)} :: v < cfg.numWorkers ==> WorkerOk(cfg, s', v)
    ensures Inv(cfg, s')
  {
    forall j: nat | j < cfg.numSlabs ensures SlabOk(cfg, s', j) {
      if j != i { OtherSlab(cfg, s, s', t, i, j); }
    }
    forall u: nat | u < |s'.agents| ensures AgentOk(cfg, s', u) {
      if u != t { OtherAgent(cfg, s, s', t, i, u); }
    }
  }

  /** Nobody's account moves. */
  predicate SameAccounts(s: State, s': State, t: nat)
    requires t < |s.agents| == |s'.agents|
  {
    && s'.claimed == s.claimed && s'.holder == s.holder && s'.bytes == s.bytes
    && s'.agents[t].handle == s.agents[t].handle && OwedBy(s'.agents[t].pc) == OwedBy(s.agents[t].pc)
  }

  lemma AssembleSame(cfg: Config, s: State, s': State, t: nat, i: nat)
    requires Inv(cfg, s) && Shape(cfg, s, s', t, i) && SameAccounts(s, s', t)
    requires Pool.Inv(s'.pool) && Lists.Inv(s'.local)
    requires i < cfg.numSlabs ==> SlabOk(cfg, s', i) && forall v: nat :: UsedBy(s'.slabs[i], v) == UsedBy(s.slabs[i], v)
    requires AgentOk(cfg, s', t)
    ensures Inv(cfg, s')
  {
    forall v: nat | v < cfg.numWorkers ensures WorkerOk(cfg, s', v) {
      OtherWorker(cfg, s, s', t, i, v);
    }
    Assemble(cfg, s, s', t, i);
  }

  /** Index standing for no slab. */
  function NoSlab(cfg: Config): nat { cfg.numSlabs }

  /** A step that moves only the program counter. */
  lemma PcStep(cfg: Config, s: State, t: nat, pc: Pc)
    requires Inv(cfg, s) && t < |s.agents| && !s.agents[t].pc.AllocSlot?
    requires Carries(s.Pc(t, pc), t) == Carries(s, t) && OwedBy(pc) == OwedBy(s.agents[t].pc)
    requires AgentOk(cfg, s.Pc(t, pc), t)
    ensures Inv(cfg, s.Pc(t, pc))
  {
    var s' := s.Pc(t, pc);
    assert OnlyAgent(cfg, s, s', t);
    assert OnlySlab(cfg, s, s', t, NoSlab(cfg));
    assert Shape(cfg, s, s', t, NoSlab(cfg));
    AssembleSame(cfg, s, s', t, NoSlab(cfg));
  }
}
