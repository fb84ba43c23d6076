/**
 * An allocation that is left alone returns: with a block that was free if the partial list or the global list has a
 * slab, and without one, changing nothing, if neither has.
 */
module AllocatingAlone {
  import opened Base
  import opened SizeClasses
  import opened Address
  import opened Allocator
  import opened AllocatorInv
  import opened AllocatorRuns
  import opened AllocatorProjection
  import opened AllocatorOwners
  import opened AllocatorAccounts
  import opened Cleaning
  import CleaningAlone
  import Late = CleaningLate
  import Theorems = AllocatorTheorems
  import AllocatorAssign
  import Pool = GlobalFreeList
  import PoolRuns = GlobalFreeListRuns
  import Lists = LocalLists
  import Slab
  import SlabRuns

  // ----- runs of one handle

  /** A fresh run leads from `s` to `r`. */
  ghost predicate RunTo(cfg: Config, s: State, es: seq<Event>, r: State)
    requires ValidConfig(cfg)
  {
    Valid(cfg, s, es) && FreshRun(cfg, s, es) && Exec(cfg, s, es) == r
  }

  /** Every event is handle `t`'s. */
  predicate Own(es: seq<Event>, t: nat) {
    forall e :: e in es ==> e.tid == t
  }

  /** A run of handle `t` by itself leads from `s` to `r`. */
  ghost predicate OwnRun(cfg: Config, s: State, r: State, t: nat)
    requires ValidConfig(cfg)
  {
    exists es: seq<Event> :: Own(es, t) && RunTo(cfg, s, es, r)
  }

  /** The same blocks are live under the same offsets, and no counter has changed. */
  ghost predicate SameBlocks(s: State, r: State) {
    && r.bytes == s.bytes && |r.slabs| == |s.slabs|
    && forall j: nat, l: nat {:trigger Theorems.LiveBlock(r, j, l)} {:trigger Theorems.LiveBlock(s, j, l)} ::
         (Theorems.LiveBlock(r, j, l) <==> Theorems.LiveBlock(s, j, l))
         && (Theorems.LiveBlock(s, j, l) ==> r.slabs[j].loc[l] == s.slabs[j].loc[l])
  }

  ghost predicate OthersStay(s: State, r: State, t: nat) {
    && t < |s.agents| == |r.agents| && r.agents[t].handle == s.agents[t].handle
    && forall u: nat {:trigger r.agents[u]} :: u < |s.agents| && u != t ==> r.agents[u] == s.agents[u]
  }

  /** Where handle `t` gets by itself, with the live blocks as they were. */
  ghost predicate Onward(cfg: Config, s: State, r: State, t: nat)
    requires ValidConfig(cfg)
  {
    OwnRun(cfg, s, r, t) && Inv(cfg, r) && OthersStay(s, r, t) && SameBlocks(s, r)
  }

  lemma OwnTrans(cfg: Config, s: State, m: State, r: State, t: nat)
    requires ValidConfig(cfg) && OwnRun(cfg, s, m, t) && OwnRun(cfg, m, r, t)
    ensures OwnRun(cfg, s, r, t)
  {
    var a: seq<Event> :| Own(a, t) && RunTo(cfg, s, a, m);
    var b: seq<Event> :| Own(b, t) && RunTo(cfg, m, b, r);
    hide Valid, FreshRun, Exec;
    Late.AppendRun(cfg, s, a, b);
    assert Own(a + b, t) && RunTo(cfg, s, a + b, r);
  }

  lemma OnwardTrans(cfg: Config, s: State, m: State, r: State, t: nat)
    requires ValidConfig(cfg) && Onward(cfg, s, m, t) && Onward(cfg, m, r, t)
    ensures Onward(cfg, s, r, t)
  {
    hide Inv, OwnRun, Theorems.LiveBlock;
    OwnTrans(cfg, s, m, r, t);
  }

  lemma OneStep(cfg: Config, s: State, t: nat, a: Action)
    requires ValidConfig(cfg) && Enabled(cfg, s, t, a) && FreshStep(s, t, a)
    ensures OwnRun(cfg, s, Apply(cfg, s, t, a), t) && RunTo(cfg, s, [Event(t, a)], Apply(cfg, s, t, a))
  {
    var es, r := [Event(t, a)], Apply(cfg, s, t, a);
    hide Apply, Enabled, FreshStep;
    assert es[1..] == [];
    assert Valid(cfg, r, []) && FreshRun(cfg, r, []) && Exec(cfg, r, []) == r;
    assert Own(es, t) && RunTo(cfg, s, es, r);
  }

  /** One step of handle `t`, which leaves the others where they are. */
  lemma Go(cfg: Config, s: State, t: nat, a: Action)
    requires Inv(cfg, s) && Enabled(cfg, s, t, a) && FreshStep(s, t, a)
    ensures Inv(cfg, Apply(cfg, s, t, a)) && OwnRun(cfg, s, Apply(cfg, s, t, a), t)
    ensures t < |s.agents| == |Apply(cfg, s, t, a).agents|
    ensures forall u: nat {:trigger Apply(cfg, s, t, a).agents[u]} :: u < |s.agents| && u != t ==>
              Apply(cfg, s, t, a).agents[u] == s.agents[u]
  {
    var r := Apply(cfg, s, t, a);
    InRange(cfg, s, t, a);
    StepKeepsInv(cfg, s, t, a);
    SameCount(cfg, s, t, a);
    OneStep(cfg, s, t, a);
    hide Inv, Apply, Enabled, FreshStep, OwnRun;
    forall u: nat | u < |s.agents| && u != t ensures r.agents[u] == s.agents[u] { OthersKeepPc(cfg, s, t, a, u); }
  }

  lemma SameCount(cfg: Config, s: State, t: nat, a: Action)
    requires Inv(cfg, s) && Enabled(cfg, s, t, a)
    ensures |Apply(cfg, s, t, a).agents| == |s.agents|
  {
    PoolProjection(cfg, s, t, a);
    var pa := PoolAction(cfg, s, t, a);
    SizedStep(cfg, s, t, a);
    hide Inv, Enabled, PoolAction, Pool.Inv, Pool.Enabled;
  }

  lemma SizedStep(cfg: Config, s: State, t: nat, a: Action)
    requires Inv(cfg, s) && Enabled(cfg, s, t, a)
    ensures |Apply(cfg, s, t, a).agents| == |s.agents|
  {
    SlabSizeBound(cfg.slabSize);
    hide Inv, Step, ValidConfig;
    if a.Continue? { StepKeepsOthers(cfg, s, t, a.words); }
  }

  // ----- the live blocks stay

  /** A slab whose owner, class or head is stored, or which is re-cut, has no live slot before or after. */
  lemma QuietSlabStep(x: Slab.State, t: nat, sa: SlabRuns.Action)
    requires Slab.Inv(x) && SlabRuns.Enabled(x, t, sa) && (sa.Assign? || sa.Clear? || sa.Recut?)
    ensures var y := SlabRuns.Apply(x, t, sa);
      && (forall k: nat {:trigger x.loc[k]} :: k < |x.loc| ==> !x.loc[k].Live?)
      && (forall k: nat {:trigger y.loc[k]} :: k < |y.loc| ==> !y.loc[k].Live?)
  {
    hide Slab.Inv;
  }

  /** The steps of an allocation up to the one that takes the slot. */
  predicate BeforeSlot(s: State, t: nat, a: Action) {
    t < |s.agents| && match a
      case CallAllocate(_) => true
      case Continue(_) =>
        var pc := s.agents[t].pc;
        pc.Taking? || pc.StoreOwner? || pc.StoreClass? || pc.ClearRemote? || pc.ResetStack?
      case _ => false
  }

  lemma StepSameBlocks(cfg: Config, s: State, t: nat, a: Action)
    requires Inv(cfg, s) && Enabled(cfg, s, t, a) && FreshStep(s, t, a) && BeforeSlot(s, t, a)
    ensures SameBlocks(s, Apply(cfg, s, t, a))
    ensures t < |Apply(cfg, s, t, a).agents| && Apply(cfg, s, t, a).agents[t].handle == s.agents[t].handle
  {
    var r := Apply(cfg, s, t, a);
    BytesStay(cfg, s, t, a);
    SlabCounts(cfg, s, t, a);
    forall j: nat, l: nat
      ensures (Theorems.LiveBlock(r, j, l) <==> Theorems.LiveBlock(s, j, l))
              && (Theorems.LiveBlock(s, j, l) ==> r.slabs[j].loc[l] == s.slabs[j].loc[l])
    {
      if j < cfg.numSlabs { SlabStays(cfg, s, t, a, j); }
      hide Inv, Apply, Enabled, FreshStep, BeforeSlot;
    }
  }

  lemma SlabCounts(cfg: Config, s: State, t: nat, a: Action)
    requires Inv(cfg, s) && Enabled(cfg, s, t, a) && FreshStep(s, t, a)
    ensures |s.slabs| == |Apply(cfg, s, t, a).slabs| == cfg.numSlabs
  {
    StepKeepsInv(cfg, s, t, a);
    hide Apply, Pool.Inv, Lists.Inv, SlabOk, AgentOk, WorkerOk, ValidConfig, Enabled;
  }

  lemma SlabStays(cfg: Config, s: State, t: nat, a: Action, j: nat)
    requires Inv(cfg, s) && Enabled(cfg, s, t, a) && BeforeSlot(s, t, a) && j < cfg.numSlabs
    ensures var r := Apply(cfg, s, t, a);
      && j < |s.slabs| && j < |r.slabs|
      && (r.slabs[j] == s.slabs[j]
          || ((forall k: nat {:trigger s.slabs[j].loc[k]} :: k < |s.slabs[j].loc| ==> !s.slabs[j].loc[k].Live?)
              && (forall k: nat {:trigger r.slabs[j].loc[k]} :: k < |r.slabs[j].loc| ==> !r.slabs[j].loc[k].Live?)))
  {
    SlabProjection(cfg, s, t, a, j);
    var sa := SlabAction(cfg, s, t, a, j);
    hide Inv, Apply, Slab.Inv, SlabRuns.Apply, SlabRuns.Enabled, Size, Capacity;
    assert sa.Some? ==> sa.value.Assign? || sa.value.Clear? || sa.value.Recut? by { hide Enabled, Projects; }
    if sa.Some? { QuietSlabStep(s.slabs[j], t, sa.value); }
  }

  lemma BytesStay(cfg: Config, s: State, t: nat, a: Action)
    requires Inv(cfg, s) && Enabled(cfg, s, t, a) && BeforeSlot(s, t, a)
    ensures Apply(cfg, s, t, a).bytes == s.bytes
    ensures t < |Apply(cfg, s, t, a).agents| && Apply(cfg, s, t, a).agents[t].handle == s.agents[t].handle
  {
    InBounds(cfg, s, t);
    if a.CallAllocate? { LeastClass(a.size); }
    if s.agents[t].pc.ResetStack? { CutEffects(cfg, s, t, a); }
    hide Inv, Refill, TakeSlot, LocalFree, DrainFree, Claim, Find, ChooseRoute, BeginRemote, RemoteStep, Give, Size, Capacity,
      Pool.Advance, DrainStep, ValidConfig, SwapStep, IterStep, StartLine, AfterEffect, SizeClassIndex;
  }

  lemma CutEffects(cfg: Config, s: State, t: nat, a: Action)
    requires Inv(cfg, s) && t < |s.agents| && s.agents[t].pc.ResetStack? && Enabled(cfg, s, t, a) && a.Continue?
    ensures Sized(cfg, s) && s.agents[t].handle.Worker?
    ensures var pc, w := s.agents[t].pc, s.agents[t].handle.index;
      && w < cfg.numWorkers && pc.c < NUM_SIZE_CLASSES && pc.slab < cfg.numSlabs
      && var r := Refill(cfg, s, t, w, pc.c, pc.slab, a.words);
         r.bytes == s.bytes && r.agents == s.agents[t := Agent(Worker(w), AllocSlot(pc.c, pc.slab))]
  {
    StoresInPool(cfg, s, t);
    hide Inv, Refill;
    var pc, w := s.agents[t].pc, s.agents[t].handle.index;
    assert pc.c < NUM_SIZE_CLASSES;
    AllocatorAssign.RefillEffects(cfg, s, t, w, pc.c, pc.slab, a.words);
  }

  /** One more step of an allocation before the slot. */
  lemma Forth(cfg: Config, s: State, t: nat, a: Action) returns (r: State)
    requires Inv(cfg, s) && Enabled(cfg, s, t, a) && FreshStep(s, t, a) && BeforeSlot(s, t, a)
    ensures ValidConfig(cfg) && r == Apply(cfg, s, t, a) && Onward(cfg, s, r, t)
  {
    r := Apply(cfg, s, t, a);
    Go(cfg, s, t, a);
    StepSameBlocks(cfg, s, t, a);
    hide Inv, Apply, Enabled, OwnRun, SameBlocks, BeforeSlot;
  }

  // ----- taking a slab

  /** Handle `t`, with the worker's lists empty, is taking a slab from a pool that has one. */
  ghost predicate TakingFrom(cfg: Config, s: State, t: nat, w: nat, c: nat) {
    && Inv(cfg, s) && t < |s.agents| && s.agents[t] == Agent(Worker(w), Taking(c)) && t < |s.pool.ops|
  }

  /** One access of the pop, in the allocator and in the list. */
  lemma TakeGo(cfg: Config, s: State, t: nat, w: nat, c: nat)
    requires TakingFrom(cfg, s, t, w, c) && Fresh(s, t) && !s.pool.ops[t].Popped? && !s.pool.ops[t].PopFailed?
    ensures Enabled(cfg, s, t, Continue([])) && FreshStep(s, t, Continue([]))
    ensures var r := Apply(cfg, s, t, Continue([]));
      t < |r.agents| && r.agents[t] == Agent(Worker(w), Taking(c)) && r.pool == Pool.Advance(s.pool, t)
  {
    InBounds(cfg, s, t);
    NotPanicked(s.pool, t);
    hide Inv, Refill, TakeSlot, LocalFree, DrainFree, Claim, Find, ChooseRoute, BeginRemote, RemoteStep, Give, Size, Capacity,
      Pool.Advance, DrainStep, ValidConfig, SwapStep, IterStep, StartLine, AfterEffect;
  }

  lemma PopMoves(p: Pool.State, t: nat)
    requires Pool.Inv(p) && t < |p.ops|
    ensures p.ops[t] == Pool.PopStart && p.stack != [] ==> Pool.Advance(p, t) == p.At(t, Pool.PopNext(p.head, p.version))
    ensures forall next: nat :: p.ops[t] == Pool.PopSwap(p.head, next, p.version) ==>
              t < |Pool.Advance(p, t).ops| && Pool.Advance(p, t).ops[t] == Pool.PopClear(Pool.Index(p.head))
  {
    if p.ops[t] == Pool.PopStart { PoolRuns.PopFailsIffEmpty(p, t, p.stack); }
  }

  lemma ReadMoves(p: Pool.State, t: nat)
    requires Pool.Inv(p) && t < |p.ops| && p.ops[t] == Pool.PopNext(p.head, p.version)
    ensures Pool.Advance(p, t).ops[t].PopSwap? && Pool.Advance(p, t).head == p.head && Pool.Advance(p, t).version == p.version
    ensures Pool.Advance(p, t).ops[t].seen == p.head && Pool.Advance(p, t).ops[t].ver == p.version
  {
    assert Pool.OpOk(p, p.ops[t]);
  }

  lemma ClearMoves(p: Pool.State, t: nat, i: nat)
    requires Pool.Inv(p) && t < |p.ops| && p.ops[t] == Pool.PopClear(i)
    ensures Pool.Advance(p, t).ops[t] == Pool.Popped(i)
  {
    assert Pool.OpOk(p, p.ops[t]);
  }

  lemma ReturnGo(cfg: Config, s: State, t: nat, w: nat, c: nat)
    requires TakingFrom(cfg, s, t, w, c) && s.pool.ops[t].Popped?
    ensures Enabled(cfg, s, t, Continue([])) && FreshStep(s, t, Continue([]))
    ensures var r := Apply(cfg, s, t, Continue([]));
      t < |r.agents| && r.agents[t].handle == Worker(w) && r.agents[t].pc.StoreOwner? && r.agents[t].pc.c == c
  {
    InBounds(cfg, s, t);
    hide Inv, Refill, TakeSlot, LocalFree, DrainFree, Claim, Find, ChooseRoute, BeginRemote, RemoteStep, Give, Size, Capacity,
      Pool.Advance, DrainStep, ValidConfig, SwapStep, IterStep, StartLine, AfterEffect;
  }

  lemma PoolSizes(cfg: Config, s: State, t: nat)
    requires Inv(cfg, s) && t < |s.agents|
    ensures t < |s.pool.ops| && Pool.Inv(s.pool)
  {
  }

  /** The pop, undisturbed, from a pool that has a slab. */
  lemma PopAlone(cfg: Config, s: State, t: nat, w: nat, c: nat) returns (r: State)
    requires TakingFrom(cfg, s, t, w, c) && s.pool.ops[t] == Pool.PopStart && s.pool.stack != []
    ensures ValidConfig(cfg) && Onward(cfg, s, r, t)
    ensures t < |r.agents| && r.agents[t].handle == Worker(w) && r.agents[t].pc.StoreOwner? && r.agents[t].pc.c == c
  {
    PoolSizes(cfg, s, t);
    hide Inv, Apply, Enabled, Onward, Pool.Inv, Pool.Advance;
    TakeGo(cfg, s, t, w, c);
    PopMoves(s.pool, t);
    var s1 := PopGo(cfg, s, t, w, c);
    ReadMoves(s1.pool, t);
    var s2 := PopGo(cfg, s1, t, w, c);
    OnwardTrans(cfg, s, s1, s2, t);
    PopMoves(s2.pool, t);
    assert s2.pool.ops[t] == Pool.PopSwap(s2.pool.head, s2.pool.ops[t].next, s2.pool.version);
    var s3 := PopGo(cfg, s2, t, w, c);
    OnwardTrans(cfg, s, s2, s3, t);
    ClearMoves(s3.pool, t, s3.pool.ops[t].slab);
    var s4 := PopGo(cfg, s3, t, w, c);
    OnwardTrans(cfg, s, s3, s4, t);
    ReturnGo(cfg, s4, t, w, c);
    r := Forth(cfg, s4, t, Continue([]));
    OnwardTrans(cfg, s, s4, r, t);
  }

  lemma PopGo(cfg: Config, s: State, t: nat, w: nat, c: nat) returns (r: State)
    requires TakingFrom(cfg, s, t, w, c) && Fresh(s, t) && !s.pool.ops[t].Popped? && !s.pool.ops[t].PopFailed?
    ensures ValidConfig(cfg) && Onward(cfg, s, r, t) && TakingFrom(cfg, r, t, w, c) && Pool.Inv(r.pool)
    ensures r.pool == Pool.Advance(s.pool, t)
  {
    TakeGo(cfg, s, t, w, c);
    r := Forth(cfg, s, t, Continue([]));
    PoolSizes(cfg, r, t);
    hide Inv, Apply, Enabled, OwnRun, SameBlocks, Pool.Inv, Pool.Advance;
  }

  /** The pop, undisturbed, from an empty pool: the call is over. */
  lemma FailAlone(cfg: Config, s: State, t: nat, w: nat, c: nat) returns (r: State)
    requires TakingFrom(cfg, s, t, w, c) && s.pool.ops[t] == Pool.PopStart && s.pool.stack == []
    ensures ValidConfig(cfg) && Onward(cfg, s, r, t) && t < |r.agents| && r.agents[t] == Agent(Worker(w), Idle)
  {
    PoolSizes(cfg, s, t);
    EmptyMoves(s.pool, t);
    hide Inv, Apply, Enabled, Onward, Pool.Inv, Pool.Advance;
    var s1 := PopGo(cfg, s, t, w, c);
    FailGo(cfg, s1, t, w, c);
    r := Forth(cfg, s1, t, Continue([]));
    OnwardTrans(cfg, s, s1, r, t);
  }

  lemma EmptyMoves(p: Pool.State, t: nat)
    requires Pool.Inv(p) && t < |p.ops| && p.ops[t] == Pool.PopStart && p.stack == []
    ensures t < |Pool.Advance(p, t).ops| && Pool.Advance(p, t).ops[t] == Pool.PopFailed
  {
    PoolRuns.PopFailsIffEmpty(p, t, p.stack);
  }

  lemma FailGo(cfg: Config, s: State, t: nat, w: nat, c: nat)
    requires TakingFrom(cfg, s, t, w, c) && s.pool.ops[t] == Pool.PopFailed
    ensures Enabled(cfg, s, t, Continue([])) && FreshStep(s, t, Continue([]))
    ensures var r := Apply(cfg, s, t, Continue([])); t < |r.agents| && r.agents[t] == Agent(Worker(w), Idle)
  {
    InBounds(cfg, s, t);
    hide Inv, Refill, TakeSlot, LocalFree, DrainFree, Claim, Find, ChooseRoute, BeginRemote, RemoteStep, Give, Size, Capacity,
      Pool.Advance, DrainStep, ValidConfig, SwapStep, IterStep, StartLine, AfterEffect;
  }

  // ----- making it one's own

  /** The three metadata stores. */
  lemma StoreGo(cfg: Config, s: State, t: nat, w: nat)
    requires Inv(cfg, s) && t < |s.agents| && s.agents[t].handle == Worker(w)
    requires s.agents[t].pc.StoreOwner? || s.agents[t].pc.StoreClass? || s.agents[t].pc.ClearRemote?
    ensures Enabled(cfg, s, t, Continue([])) && FreshStep(s, t, Continue([])) && s.agents[t].pc.c < NUM_SIZE_CLASSES
    ensures var r := Apply(cfg, s, t, Continue([])); var pc := s.agents[t].pc;
      && t < |r.agents|
      && r.agents[t] == Agent(Worker(w), if pc.StoreOwner? then StoreClass(pc.c, pc.slab)
                                         else if pc.StoreClass? then ClearRemote(pc.c, pc.slab) else ResetStack(pc.c, pc.slab))
  {
    InBounds(cfg, s, t);
    StoresInPool(cfg, s, t);
    hide Inv, Refill, TakeSlot, LocalFree, DrainFree, Claim, Take, Find, ChooseRoute, BeginRemote, RemoteStep, Give, Size, Capacity,
      DrainStep, ValidConfig, SwapStep, IterStep, StartLine;
  }

  lemma StoresInPool(cfg: Config, s: State, t: nat)
    requires Inv(cfg, s) && t < |s.agents|
    requires s.agents[t].pc.StoreOwner? || s.agents[t].pc.StoreClass? || s.agents[t].pc.ClearRemote? || s.agents[t].pc.ResetStack?
             || s.agents[t].pc.AllocSlot?
    ensures t < |s.pool.ops| && s.pool.ops[t] == Pool.Idle && s.agents[t].pc.c < NUM_SIZE_CLASSES && s.agents[t].handle.Worker?
    ensures s.agents[t].handle.index < cfg.numWorkers && s.agents[t].pc.slab < cfg.numSlabs
  {
    hide Pool.Inv, Lists.Inv, Slab.Inv, SlabOk, WorkerOk, ValidConfig;
    assert AgentOk(cfg, s, t);
  }

  lemma CutGo(cfg: Config, s: State, t: nat, w: nat, c: nat, i: nat, words: seq<nat>)
    requires Inv(cfg, s) && t < |s.agents| && s.agents[t] == Agent(Worker(w), ResetStack(c, i)) && c < NUM_SIZE_CLASSES
    requires |words| == Capacity(cfg, c)
    ensures Enabled(cfg, s, t, Continue(words)) && FreshStep(s, t, Continue(words))
    ensures var r := Apply(cfg, s, t, Continue(words)); t < |r.agents| && r.agents[t] == Agent(Worker(w), AllocSlot(c, i))
  {
    InBounds(cfg, s, t);
    StoresInPool(cfg, s, t);
    AllocatorAssign.RefillEffects(cfg, s, t, w, c, i, words);
    hide Inv, Refill, TakeSlot, LocalFree, DrainFree, Claim, Take, Find, ChooseRoute, BeginRemote, RemoteStep, Give, Size, Capacity,
      DrainStep, ValidConfig, SwapStep, IterStep, StartLine;
  }

  /** From the popped slab to the moment a slot is taken from it. */
  lemma CutAlone(cfg: Config, s: State, t: nat, w: nat, c: nat, i: nat) returns (r: State)
    requires Inv(cfg, s) && t < |s.agents| && s.agents[t] == Agent(Worker(w), StoreOwner(c, i))
    ensures ValidConfig(cfg) && Onward(cfg, s, r, t) && t < |r.agents| && r.agents[t] == Agent(Worker(w), AllocSlot(c, i))
  {
    hide Inv, Apply, Enabled, OwnRun, SameBlocks;
    StoreGo(cfg, s, t, w);
    var s1 := Forth(cfg, s, t, Continue([]));
    StoreGo(cfg, s1, t, w);
    var s2 := Forth(cfg, s1, t, Continue([]));
    OnwardTrans(cfg, s, s1, s2, t);
    StoreGo(cfg, s2, t, w);
    var s3 := Forth(cfg, s2, t, Continue([]));
    OnwardTrans(cfg, s, s2, s3, t);
    StoresInPool(cfg, s3, t);
    var words := seq(Capacity(cfg, c), _ => 0);
    CutGo(cfg, s3, t, w, c, i, words);
    r := Forth(cfg, s3, t, Continue(words));
    OnwardTrans(cfg, s, s3, r, t);
  }

  // ----- the slot

  /** Block (i, k) is new, under the offset of its slot in class `c`, and counted; the others are as they were. */
  ghost predicate NewBlock(cfg: Config, s: State, r: State, w: nat, c: nat, i: nat, k: nat) {
    && c < NUM_SIZE_CLASSES && w < |s.bytes| && HeldBy(r, w, i)
    && !Theorems.LiveBlock(s, i, k) && Theorems.LiveBlock(r, i, k)
    && r.slabs[i].loc[k] == Slab.Live(BlockOffset(cfg, i, c, k))
    && r.bytes == s.bytes[w := s.bytes[w] + Size(c)]
    && forall j: nat, l: nat {:trigger Theorems.LiveBlock(r, j, l)} {:trigger Theorems.LiveBlock(s, j, l)} :: (j, l) != (i, k) ==>
         (Theorems.LiveBlock(r, j, l) <==> Theorems.LiveBlock(s, j, l))
         && (Theorems.LiveBlock(s, j, l) ==> j < |r.slabs| && l < |r.slabs[j].loc| && r.slabs[j].loc[l] == s.slabs[j].loc[l])
  }

  lemma SlotGo(cfg: Config, s: State, t: nat, w: nat, c: nat, i: nat) returns (r: State, k: nat)
    requires Inv(cfg, s) && t < |s.agents| && s.agents[t] == Agent(Worker(w), AllocSlot(c, i))
    ensures ValidConfig(cfg) && OwnRun(cfg, s, r, t) && Inv(cfg, r) && OthersStay(s, r, t)
    ensures r.agents[t] == Agent(Worker(w), Idle) && NewBlock(cfg, s, r, w, c, i, k)
  {
    StoresInPool(cfg, s, t);
    assert Enabled(cfg, s, t, Continue([])) by { Counts(cfg, s); hide Inv; }
    Theorems.StepKeepsInvHere(cfg, s, t, []);
    Theorems.StepTakesSlot(cfg, s, t, c, i, []);
    r := Apply(cfg, s, t, Continue([]));
    Go(cfg, s, t, Continue([]));
    Theorems.TakeSlotHandsOut(cfg, s, t, w, c, i);
    HandleStays(cfg, s, t, w, c, i);
    hide Inv, Apply, Enabled, TakeSlot, OwnRun;
    k :| Theorems.HandsOut(cfg, s, r, w, c, i, k);
    HandsOutNew(cfg, s, r, w, c, i, k);
  }

  lemma HandsOutNew(cfg: Config, s: State, r: State, w: nat, c: nat, i: nat, k: nat)
    requires Inv(cfg, r) && Theorems.HandsOut(cfg, s, r, w, c, i, k) && i < cfg.numSlabs
    ensures NewBlock(cfg, s, r, w, c, i, k)
  {
    CleaningAlone.ListedMeansHeld(cfg, r, w, i);
    hide Inv, HeldBy, Size, BlockOffset;
  }

  lemma NewAfterSame(cfg: Config, s: State, m: State, r: State, w: nat, c: nat, i: nat, k: nat)
    requires SameBlocks(s, m) && NewBlock(cfg, m, r, w, c, i, k)
    ensures NewBlock(cfg, s, r, w, c, i, k)
  {
    hide HeldBy, Size, BlockOffset, Theorems.LiveBlock;
  }

  lemma Counts(cfg: Config, s: State)
    requires Inv(cfg, s)
    ensures Sized(cfg, s)
  {
  }

  lemma HandleStays(cfg: Config, s: State, t: nat, w: nat, c: nat, i: nat)
    requires Inv(cfg, s) && t < |s.agents| && s.agents[t] == Agent(Worker(w), AllocSlot(c, i))
    requires w < cfg.numWorkers && c < NUM_SIZE_CLASSES && i < cfg.numSlabs
    ensures var r := TakeSlot(cfg, s, t, w, c, i); t < |r.agents| && r.agents[t].handle == Worker(w)
  {
    hide Inv, CanSwitch, Switch, BlockOffset, Slab.Take, Size;
  }

  // ----- the whole call

  /** The partial list of worker `w` for class `c` is empty. */
  ghost predicate NonePartial(s: State, w: nat, c: nat) {
    Lists.Key(w, c, false) in s.local.lists && s.local.lists[Lists.Key(w, c, false)] == []
  }

  /** The rest of the call, from its first step on. */
  lemma RestAlone(cfg: Config, s: State, t: nat, w: nat, c: nat) returns (r: State, got: Option<(nat, nat)>)
    requires Inv(cfg, s) && t < |s.agents| && t < |s.pool.ops| && s.agents[t].handle == Worker(w)
    requires (s.agents[t].pc == Taking(c) && s.pool.ops[t] == Pool.PopStart) || (s.agents[t].pc.AllocSlot? && s.agents[t].pc.c == c)
    ensures ValidConfig(cfg) && OwnRun(cfg, s, r, t) && Inv(cfg, r) && OthersStay(s, r, t) && r.agents[t] == Agent(Worker(w), Idle)
    ensures got.None? <==> s.agents[t].pc.Taking? && s.pool.stack == []
    ensures got.None? ==> SameBlocks(s, r)
    ensures got.Some? ==> NewBlock(cfg, s, r, w, c, got.value.0, got.value.1)
  {
    hide Inv, OwnRun, SameBlocks, NewBlock;
    if s.agents[t].pc.Taking? && s.pool.stack == [] {
      r := FailAlone(cfg, s, t, w, c);
      got := None;
    } else {
      var m := s;
      if s.agents[t].pc.Taking? {
        var s1 := PopAlone(cfg, s, t, w, c);
        m := CutAlone(cfg, s1, t, w, c, s1.agents[t].pc.slab);
        OnwardTrans(cfg, s, s1, m, t);
      }
      var k;
      r, k := SlotGo(cfg, m, t, w, c, m.agents[t].pc.slab);
      got := Some((m.agents[t].pc.slab, k));
      if s.agents[t].pc.Taking? {
        OwnTrans(cfg, s, m, r, t);
        NewAfterSame(cfg, s, m, r, w, c, m.agents[t].pc.slab, k);
      }
    }
  }

  /**
   * From any reachable state an allocation left alone returns, and leaves every other handle as it was. It hands out a
   * block that was not live, in the least class that fits, unless the partial list for that class and the global list
   * are both empty; if and only if they are, it comes back without one. All other blocks stay live where they are.
   */
  lemma AllocateAlone(cfg: Config, s: State, t: nat, w: nat, size: nat) returns (es: seq<Event>, r: State, got: Option<(nat, nat)>)
    requires ValidConfig(cfg) && Reachable(cfg, s) && Enabled(cfg, s, t, CallAllocate(size)) && s.agents[t].handle == Worker(w)
    requires 0 < size && Covered(size)
    ensures es != [] && es[0] == Event(t, CallAllocate(size)) && Own(es, t) && RunTo(cfg, s, es, r)
    ensures r.agents == s.agents && SizeClassIndex(size).Some?
    ensures got.None? <==> NonePartial(s, w, SizeClassIndex(size).value) && s.pool.stack == []
    ensures got.None? ==> SameBlocks(s, r)
    ensures got.Some? ==> NewBlock(cfg, s, r, w, SizeClassIndex(size).value, got.value.0, got.value.1)
  {
    ReachableInv(cfg, s);
    LeastClass(size);
    var call, c := Event(t, CallAllocate(size)), SizeClassIndex(size).value;
    AllocateStarts(cfg, s, t, w, size, c);
    hide Reachable, Inv, Apply, Enabled, OwnRun, SameBlocks, NewBlock, NonePartial, Covered, SizeClassIndex;
    var s1 := Forth(cfg, s, t, CallAllocate(size));
    r, got := RestAlone(cfg, s1, t, w, c);
    if got.Some? {
      NewAfterSame(cfg, s, s1, r, w, c, got.value.0, got.value.1);
    } else {
      SameTrans(s, s1, r);
    }
    es := FirstThenOwn(cfg, s, t, CallAllocate(size), r);
    assert r.agents == s.agents by { Back(cfg, s, s1, r, t, w, size); }
  }

  lemma SameTrans(s: State, m: State, r: State)
    requires SameBlocks(s, m) && SameBlocks(m, r)
    ensures SameBlocks(s, r)
  {
    hide Theorems.LiveBlock;
  }

  lemma Back(cfg: Config, s: State, m: State, r: State, t: nat, w: nat, size: nat)
    requires Enabled(cfg, s, t, CallAllocate(size)) && s.agents[t].handle == Worker(w)
    requires OthersStay(s, m, t) && OthersStay(m, r, t) && r.agents[t] == Agent(Worker(w), Idle)
    ensures r.agents == s.agents
  {
    assert r.agents[t] == s.agents[t];
    forall u: nat | u < |s.agents| && u != t ensures r.agents[u] == s.agents[u] { assert m.agents[u] == s.agents[u]; }
  }

  lemma FirstThenOwn(cfg: Config, s: State, t: nat, a: Action, r: State) returns (es: seq<Event>)
    requires ValidConfig(cfg) && Enabled(cfg, s, t, a) && FreshStep(s, t, a) && OwnRun(cfg, Apply(cfg, s, t, a), r, t)
    ensures es != [] && es[0] == Event(t, a) && Own(es, t) && RunTo(cfg, s, es, r)
  {
    var b: seq<Event> :| Own(b, t) && RunTo(cfg, Apply(cfg, s, t, a), b, r);
    es := [Event(t, a)] + b;
    hide Apply, Enabled, FreshStep;
    assert es[1..] == b;
  }

  /** The call looks at its partial list, and begins a pop if that is empty. */
  lemma AllocateStarts(cfg: Config, s: State, t: nat, w: nat, size: nat, c: nat)
    requires Inv(cfg, s) && Enabled(cfg, s, t, CallAllocate(size)) && s.agents[t].handle == Worker(w)
    requires 0 < size && SizeClassIndex(size) == Some(c)
    ensures FreshStep(s, t, CallAllocate(size)) && BeforeSlot(s, t, CallAllocate(size))
    ensures var s1 := Apply(cfg, s, t, CallAllocate(size));
      && t < |s1.agents| && t < |s1.pool.ops| && s1.agents[t].handle == Worker(w) && s1.pool.stack == s.pool.stack
      && (if NonePartial(s, w, c) then s1.agents[t].pc == Taking(c) && s1.pool.ops[t] == Pool.PopStart
          else s1.agents[t].pc.AllocSlot? && s1.agents[t].pc.c == c)
  {
    Theorems.ChoosesClass(cfg, s, t, size, c);
    LeastClass(size);
    hide Pool.Inv, Lists.Inv, SlabOk, AgentOk, WorkerOk, SizeClassIndex, Size;
    Lists.ReadHead(s.local, Lists.Key(w, c, false));
  }
}
