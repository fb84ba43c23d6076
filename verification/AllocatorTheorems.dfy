/** What holds in every reachable state of the allocator: any number of handles, slabs and calls, any schedule. */
module AllocatorTheorems {
  import opened Base
  import opened SizeClasses
  import opened Address
  import opened Allocator
  import opened AllocatorInv
  import opened AllocatorRuns
  import AllocatorAssign
  import AllocatorProjection
  import Pool = GlobalFreeList
  import PoolRuns = GlobalFreeListRuns
  import Lists = LocalLists
  import Local = WorkerLocalList
  import Slab
  import SlabRuns

  // ----- no call ever panics

  /** No handle ever panics, and every slab, worker and class index it holds is in bounds. */
  lemma NothingPanics(cfg: Config, s: State, t: nat)
    requires ValidConfig(cfg) && Reachable(cfg, s) && t < |s.agents|
    ensures s.agents[t].pc != Panicked && PcInBounds(cfg, s.agents[t])
    ensures t < |s.pool.ops| && s.pool.ops[t] != Pool.Panicked
  {
    ReachableInv(cfg, s);
    InBounds(cfg, s, t);
    hide Reachable, Lists.Inv, SlabOk, AgentOk, WorkerOk;
    assert Pool.OpOk(s.pool, s.pool.ops[t]);
  }

  // ----- slots

  /**
   * Slot conservation across all threads: the slots of a slab are split without overlap or loss among its free
   * stack, live blocks, slots in some handle's hands, the remote chain and drained chains. The free stack and
   * whatever the shared words spell from the remote head hold exactly their share, once each.
   */
  lemma SlotConservation(cfg: Config, s: State, i: nat) returns (xs: seq<nat>)
    requires ValidConfig(cfg) && Reachable(cfg, s) && i < |s.slabs|
    ensures Linked(s.slabs[i].words, s.slabs[i].head, xs, NULL_U16)
    ensures var x := s.slabs[i];
      && SlabRuns.FreeSlots(x) + SlabRuns.LiveSlots(x) + SlabRuns.HeldSlots(x) + SlabRuns.RemoteSlots(x)
         + SlabRuns.DrainedSlots(x) == Below(x.capacity)
      && |SlabRuns.FreeSlots(x)| + |SlabRuns.LiveSlots(x)| + |SlabRuns.HeldSlots(x)| + |SlabRuns.RemoteSlots(x)|
         + |SlabRuns.DrainedSlots(x)| == x.capacity
      && Elems(x.free) == SlabRuns.FreeSlots(x) && |x.free| == |SlabRuns.FreeSlots(x)|
      && Elems(xs) == SlabRuns.RemoteSlots(x) && |xs| == |SlabRuns.RemoteSlots(x)|
    ensures forall k: nat :: k in SlabRuns.HeldSlots(s.slabs[i]) <==> exists t: nat :: HoldsSlot(s, t, i, k)
    ensures forall k: nat :: k in SlabRuns.DrainedSlots(s.slabs[i]) <==> exists t: nat :: HasDrained(s, t, i, k)
  {
    ReachableInv(cfg, s);
    SlabHere(cfg, s, i);
    hide *;
    xs := s.slabs[i].chain;
    SlabRuns.SpellsOnly(s.slabs[i]);
    SpelledIsLinked(s.slabs[i], xs);
    SlabRuns.Conservation(s.slabs[i]);
    HandlesHold(s, i);
  }

  lemma SlabHere(cfg: Config, s: State, i: nat)
    requires Inv(cfg, s) && i < |s.slabs|
    ensures Slab.Inv(s.slabs[i]) && |s.slabs[i].ops| == |s.agents|
  {
    assert SlabOk(cfg, s, i);
  }

  lemma SpelledIsLinked(x: Slab.State, xs: seq<nat>)
    requires SlabRuns.Spells(x, x.head, xs)
    ensures Linked(x.words, x.head, xs, NULL_U16)
  {
  }

  /** The carried and the drained slots of a slab are those in the handles' hands and chains. */
  lemma HandlesHold(s: State, i: nat)
    requires i < |s.slabs| && Slab.Inv(s.slabs[i]) && |s.slabs[i].ops| == |s.agents|
    ensures forall k: nat :: k in SlabRuns.HeldSlots(s.slabs[i]) <==> exists t: nat :: HoldsSlot(s, t, i, k)
    ensures forall k: nat :: k in SlabRuns.DrainedSlots(s.slabs[i]) <==> exists t: nat :: HasDrained(s, t, i, k)
  {
    var x := s.slabs[i];
    SlabRuns.HandsHold(x);
    hide Slab.Inv, SlabRuns.HeldSlots, SlabRuns.DrainedSlots, Slab.Held, Slab.Rest;
    forall k: nat
      ensures k in SlabRuns.HeldSlots(x) <==> exists t: nat :: HoldsSlot(s, t, i, k)
      ensures k in SlabRuns.DrainedSlots(x) <==> exists t: nat :: HasDrained(s, t, i, k)
    {
      if t: nat :| t < |x.ops| && Slab.Held(x.ops[t]) == Some(k) { assert HoldsSlot(s, t, i, k); }
      if t: nat :| t < |x.ops| && k in Slab.Rest(x.ops[t]) { assert HasDrained(s, t, i, k); }
    }
  }

  /** Handle `t` carries slot `k` of slab `i` towards the free stack or the remote list. */
  ghost predicate HoldsSlot(s: State, t: nat, i: nat, k: nat) {
    i < |s.slabs| && t < |s.agents| && t < |s.slabs[i].ops| && Slab.Held(s.slabs[i].ops[t]) == Some(k)
  }

  /** Slot `k` of slab `i` is in the chain handle `t` swapped out and has not walked yet. */
  ghost predicate HasDrained(s: State, t: nat, i: nat, k: nat) {
    i < |s.slabs| && t < |s.agents| && t < |s.slabs[i].ops| && k in Slab.Rest(s.slabs[i].ops[t])
  }

  /**
   * Of all handles, the ones with something of slab `i` in hand: a held slot is held by one handle only, and a
   * drained slot lies in the chain of one handle only.
   */
  lemma OneHand(cfg: Config, s: State, i: nat, t: nat, u: nat, k: nat)
    requires ValidConfig(cfg) && Reachable(cfg, s)
    requires i < |s.slabs| && t < |s.slabs[i].ops| && u < |s.slabs[i].ops| && t != u
    requires Slab.Held(s.slabs[i].ops[t]) == Some(k) || k in Slab.Rest(s.slabs[i].ops[t])
    ensures Slab.Held(s.slabs[i].ops[u]) != Some(k) && k !in Slab.Rest(s.slabs[i].ops[u])
    ensures k !in s.slabs[i].free && k !in s.slabs[i].chain
  {
    ReachableInv(cfg, s);
    assert SlabOk(cfg, s, i);
    hide Inv;
    assert Slab.ThreadOk(s.slabs[i], t, s.slabs[i].ops[t]) && Slab.ThreadOk(s.slabs[i], u, s.slabs[i].ops[u]);
  }

  // ----- slabs

  ghost predicate OnList(s: State, k: Lists.Key, i: nat) {
    k in s.local.lists && i in s.local.lists[k]
  }

  ghost predicate InHands(s: State, t: nat, i: nat) {
    t < |s.agents| && t < |s.pool.ops| && Carries(s, t) == Some(i)
  }

  /** A slab is in exactly one place: the global list, one list of one worker, or one handle's hands. */
  lemma SlabPartition(cfg: Config, s: State, i: nat)
    requires ValidConfig(cfg) && Reachable(cfg, s) && i < cfg.numSlabs
    ensures i < |s.place|
    ensures i in s.pool.stack <==> s.place[i] == InPool
    ensures forall k :: OnList(s, k, i) <==> s.place[i] == Listed(k)
    ensures forall t: nat :: InHands(s, t, i) <==> s.place[i] == Transit(t)
  {
    ReachableInv(cfg, s);
    hide Reachable, Lists.Inv, Slab.Inv, Pool.Inv, WorkerOk, Standing, ValidConfig;
    assert SlabOk(cfg, s, i);
    forall t: nat ensures InHands(s, t, i) <==> s.place[i] == Transit(t) {
      if t < |s.agents| { assert AgentOk(cfg, s, t); }
    }
  }

  /**
   * The places are the ones shared memory spells: the links of the global list from its head give the pooled
   * slabs, and the nodes from a worker's head give, in both directions, exactly one sequence.
   */
  lemma PlacesAreSpelled(cfg: Config, s: State, k: Lists.Key)
    requires ValidConfig(cfg) && Reachable(cfg, s) && k in s.local.lists
    ensures Linked(s.pool.links, Pool.Index(s.pool.head), s.pool.stack, NULL_U32)
    ensures forall xs: seq<nat> :: Linked(s.pool.links, Pool.Index(s.pool.head), xs, NULL_U32) ==> xs == s.pool.stack
    ensures k in s.local.heads && Local.Spells(s.local.nodes, s.local.heads[k], s.local.lists[k])
    ensures forall ys: seq<nat> :: Local.Spells(s.local.nodes, s.local.heads[k], ys) ==> ys == s.local.lists[k]
  {
    ReachableInv(cfg, s);
    hide SlabOk, AgentOk, WorkerOk, Reachable;
    assert Lists.ListOk(s.local, k);
    forall xs: seq<nat> | Linked(s.pool.links, Pool.Index(s.pool.head), xs, NULL_U32) ensures xs == s.pool.stack {
      LinkedUnique(s.pool.links, Pool.Index(s.pool.head), xs, s.pool.stack, NULL_U32);
    }
    forall ys: seq<nat> | Local.Spells(s.local.nodes, s.local.heads[k], ys) ensures ys == s.local.lists[k] {
      Local.SpellsUnique(s.local.nodes, s.local.heads[k], ys, s.local.lists[k]);
    }
  }

  // ----- retirement

  /**
   * Safe retirement: a slab on its way to the global list, in it, or on its way to a new owner has every slot in
   * its free stack; no handle is pushing to it, holds a slot of it or has a drained slot ahead, a drain still
   * open on it has nothing left to read, and its remote head is null.
   */
  lemma RetiredIsQuiet(cfg: Config, s: State, i: nat, t: nat)
    requires ValidConfig(cfg) && Reachable(cfg, s) && i < cfg.numSlabs && i < |s.slabs| && t < |s.slabs[i].ops|
    requires i in s.pool.stack || exists u: nat :: InHands(s, u, i)
    ensures Slab.Quiet(s.slabs[i]) && s.slabs[i].head == NULL_U16
    ensures Slab.Held(s.slabs[i].ops[t]) == None && Slab.Rest(s.slabs[i].ops[t]) == []
    ensures Slab.Cursor(s.slabs[i].ops[t]) == NULL_U16
  {
    SlabPartition(cfg, s, i);
    ReachableInv(cfg, s);
    hide Reachable, Pool.Inv, Lists.Inv, AgentOk, WorkerOk;
    assert SlabOk(cfg, s, i);
    Slab.QuietMeansNothingPending(s.slabs[i]);
  }

  /** The new owner's store of null into the remote head changes nothing: no freed slot is dropped. */
  lemma AssignDropsNothing(cfg: Config, s: State, t: nat, c: nat, i: nat)
    requires ValidConfig(cfg) && Reachable(cfg, s) && t < |s.agents| && s.agents[t].pc == ClearRemote(c, i)
    ensures i < |s.slabs| && s.slabs[i].head == NULL_U16 && s.slabs[i].chain == []
    ensures s.Put(i, Slab.ClearHead(s.slabs[i])) == s
  {
    ReachableInv(cfg, s);
    AllocatorProjection.CarriedIsQuiet(cfg, s, t, i);
    assert SlabOk(cfg, s, i);
    hide Reachable, Inv, SlabOk;
    Slab.QuietMeansNothingPending(s.slabs[i]);
    Slab.ClearHeadDropsNothing(s.slabs[i]);
    hide Slab.Inv, Slab.Quiet;
    assert s.slabs[i := s.slabs[i]] == s.slabs;
  }

  // ----- blocks

  ghost predicate LiveBlock(s: State, i: nat, k: nat) {
    i < |s.slabs| && k < |s.slabs[i].loc| && s.slabs[i].loc[k].Live?
  }

  /** A live block was handed out under the offset its slab, its slab's class and its slot determine. */
  lemma LiveBlockAt(cfg: Config, s: State, i: nat, k: nat)
    requires ValidConfig(cfg) && Reachable(cfg, s) && LiveBlock(s, i, k)
    ensures i < cfg.numSlabs && s.slabs[i].sizeIndex < NUM_SIZE_CLASSES
    ensures k < Capacity(cfg, s.slabs[i].sizeIndex) == s.slabs[i].capacity
    ensures s.slabs[i].loc[k].offset == BlockOffset(cfg, i, s.slabs[i].sizeIndex, k)
  {
    ReachableInv(cfg, s);
    hide Reachable, Pool.Inv, Lists.Inv, AgentOk, WorkerOk, Capacity;
    assert SlabOk(cfg, s, i);
  }

  /** Blocks live at the same time share no byte, whichever handles allocated them. */
  lemma LiveBlocksDisjoint(cfg: Config, s: State, i: nat, k: nat, b: nat, j: nat, l: nat, e: nat)
    requires ValidConfig(cfg) && Reachable(cfg, s) && LiveBlock(s, i, k) && LiveBlock(s, j, l) && (i, k) != (j, l)
    requires s.slabs[i].sizeIndex < NUM_SIZE_CLASSES && b < Size(s.slabs[i].sizeIndex)
    requires s.slabs[j].sizeIndex < NUM_SIZE_CLASSES && e < Size(s.slabs[j].sizeIndex)
    ensures s.slabs[i].loc[k].offset + b != s.slabs[j].loc[l].offset + e
    ensures cfg.slabsOffset <= s.slabs[i].loc[k].offset + b < cfg.slabsOffset + cfg.numSlabs * cfg.slabSize
  {
    LiveBlockAt(cfg, s, i, k);
    LiveBlockAt(cfg, s, j, l);
    hide Reachable, Size, Capacity, ValidSlabSize;
    BlocksDisjoint(cfg, i, s.slabs[i].sizeIndex, k, b, j, s.slabs[j].sizeIndex, l, e);
    WithinSlab(cfg, s.slabs[i].sizeIndex, k, b);
    WithinFile(cfg, i, k * Size(s.slabs[i].sizeIndex) + b);
  }

  // ----- allocation

  /** The worker of a handle; only meaningful for an `Allocator`. */
  function WorkerOf(s: State, t: nat): nat
    requires t < |s.agents|
  {
    if s.agents[t].handle.Worker? then s.agents[t].handle.index else 0
  }

  /**
   * `allocate` turns a request down at once, changing nothing, if and only if its size is zero or no class covers it;
   * otherwise it works in the least class that fits, and goes to the global list exactly when its partial list for
   * that class is empty.
   */
  lemma AllocateChooses(cfg: Config, s: State, t: nat, size: nat)
    requires ValidConfig(cfg) && Reachable(cfg, s) && Enabled(cfg, s, t, CallAllocate(size))
    ensures size == 0 || !Covered(size) <==> Apply(cfg, s, t, CallAllocate(size)) == s
    ensures 0 < size && Covered(size) ==> exists c: nat :: GoesTo(s, Apply(cfg, s, t, CallAllocate(size)), t, size, c)
  {
    ReachableInv(cfg, s);
    LeastClass(size);
    hide Covered;
    if 0 < size && Covered(size) {
      var c := SizeClassIndex(size).value;
      ChoosesClass(cfg, s, t, size, c);
      hide Reachable, Inv, Apply;
    } else {
      hide Reachable, Inv, SizeClassIndex;
    }
  }

  lemma ChoosesClass(cfg: Config, s: State, t: nat, size: nat, c: nat)
    requires Inv(cfg, s) && Enabled(cfg, s, t, CallAllocate(size)) && 0 < size && SizeClassIndex(size) == Some(c)
    ensures GoesTo(s, Apply(cfg, s, t, CallAllocate(size)), t, size, c)
  {
    LeastClass(size);
    hide Pool.Inv, Lists.Inv, SlabOk, AgentOk, WorkerOk, SizeClassIndex, Size;
    Lists.ReadHead(s.local, Lists.Key(s.agents[t].handle.index, c, false));
  }

  /** The call works in class `c`, the least that fits: on the first partial slab, or on the global list if there is none. */
  ghost predicate GoesTo(s: State, s': State, t: nat, size: nat, c: nat) {
    && t < |s.agents| && t < |s'.agents|
    && c < NUM_SIZE_CLASSES && size <= Size(c) && (forall d: nat {:trigger Size(d)} :: d < c ==> Size(d) < size)
    && var k := Lists.Key(WorkerOf(s, t), c, false);
    && k in s.local.lists
    && s'.agents[t].pc == if s.local.lists[k] == [] then Taking(c) else AllocSlot(c, s.local.lists[k][0])
  }

  /** The pop reports an empty list exactly when the global list is empty at the step that reads its head. */
  lemma TakeFailsIffPoolEmpty(cfg: Config, s: State, t: nat, c: nat)
    requires ValidConfig(cfg) && Reachable(cfg, s) && t < |s.agents| && t < |s.pool.ops| && s.agents[t].pc == Taking(c)
    requires Sized(cfg, s)
    ensures s.pool.ops[t] == Pool.PopStart ==>
              (Take(cfg, s, t, c).pool.ops[t] == Pool.PopFailed <==> s.pool.stack == [])
    ensures !s.pool.ops[t].PopStart? && !s.pool.ops[t].PopFailed? ==> Take(cfg, s, t, c).pool.ops[t] != Pool.PopFailed
    ensures s.pool.ops[t] == Pool.PopFailed ==> Take(cfg, s, t, c).agents[t].pc == Idle && Take(cfg, s, t, c).slabs == s.slabs
    ensures s.pool.ops[t].Popped? ==>
              Take(cfg, s, t, c).agents[t].pc == StoreOwner(c, s.pool.ops[t].slab) && s.pool.ops[t].slab < cfg.numSlabs
  {
    ReachableInv(cfg, s);
    hide Reachable, Lists.Inv, SlabOk, AgentOk, WorkerOk;
    if s.pool.ops[t] == Pool.PopStart { PoolRuns.PopFailsIffEmpty(s.pool, t, s.pool.stack); }
    assert Pool.OpOk(s.pool, s.pool.ops[t]);
  }

  /** Slot `k`, free in slab `i`, becomes a live block of worker `w`; nothing else in any slab changes. */
  ghost predicate HandsOut(cfg: Config, s: State, s': State, w: nat, c: nat, i: nat, k: nat) {
    && c < NUM_SIZE_CLASSES && i < |s.slabs| && i < |s'.slabs| && i < |s'.place| && w < |s.bytes|
    && k < |s.slabs[i].loc| && s.slabs[i].loc[k] == Slab.Free
    && s'.slabs == s.slabs[i := s'.slabs[i]]
    && s'.slabs[i].loc == s.slabs[i].loc[k := Slab.Live(BlockOffset(cfg, i, c, k))]
    && s.slabs[i].free == s'.slabs[i].free + [k]
    && s'.bytes == s.bytes[w := s.bytes[w] + Size(c)]
    && s'.place[i] == Listed(Lists.Key(w, c, s'.slabs[i].free == []))
  }

  /**
   * A slab from either source always yields a slot: one that was free is now live under its block's offset, the
   * caller's counter grows by the block's size, and the slab stands on the list its free stack asks for.
   */
  lemma SlotIsHandedOut(cfg: Config, s: State, t: nat, c: nat, i: nat, words: seq<nat>)
    requires ValidConfig(cfg) && Reachable(cfg, s) && t < |s.agents| && s.agents[t].pc == AllocSlot(c, i)
    requires Enabled(cfg, s, t, Continue(words))
    ensures exists k: nat :: HandsOut(cfg, s, Apply(cfg, s, t, Continue(words)), WorkerOf(s, t), c, i, k)
    ensures t < |Apply(cfg, s, t, Continue(words)).agents| && Apply(cfg, s, t, Continue(words)).agents[t].pc == Idle
  {
    ReachableInv(cfg, s);
    hide Reachable, Inv, Apply, HandsOut;
    StepKeepsInvHere(cfg, s, t, words);
    StepTakesSlot(cfg, s, t, c, i, words);
    TakeSlotHandsOut(cfg, s, t, WorkerOf(s, t), c, i);
  }

  lemma StepTakesSlot(cfg: Config, s: State, t: nat, c: nat, i: nat, words: seq<nat>)
    requires Inv(cfg, s) && t < |s.agents| && s.agents[t].pc == AllocSlot(c, i) && Enabled(cfg, s, t, Continue(words))
    ensures s.agents[t].handle == Worker(WorkerOf(s, t)) && WorkerOf(s, t) < cfg.numWorkers
    ensures c < NUM_SIZE_CLASSES && i < cfg.numSlabs
    ensures Apply(cfg, s, t, Continue(words)) == TakeSlot(cfg, s, t, WorkerOf(s, t), c, i)
  {
    InBounds(cfg, s, t);
    hide Inv, TakeSlot, Slab.Inv, Claim, Take, Refill, Find, ChooseRoute, LocalFree, BeginRemote, RemoteStep, Give,
      StartLine, IterStep, SwapStep, DrainStep, DrainFree, ValidConfig;
  }

  lemma TakeSlotHandsOut(cfg: Config, s: State, t: nat, w: nat, c: nat, i: nat)
    requires Inv(cfg, s) && t < |s.agents| && s.agents[t] == Agent(Worker(w), AllocSlot(c, i))
    requires w < cfg.numWorkers && c < NUM_SIZE_CLASSES && i < cfg.numSlabs
    requires Inv(cfg, TakeSlot(cfg, s, t, w, c, i))
    ensures var s' := TakeSlot(cfg, s, t, w, c, i);
            (exists k: nat :: HandsOut(cfg, s, s', w, c, i, k)) && t < |s'.agents| && s'.agents[t].pc == Idle
  {
    hide Pool.Inv, Lists.Inv, WorkerOk, Size, Capacity;
    AllocatorAssign.PartialYields(cfg, s, t, c, i);
    assert SlabOk(cfg, s, i);
    Slab.TakeKeeps(s.slabs[i], 0);
    AllocatorAssign.TakeSlotEffects(cfg, s, t, w, c, i);
    var s' := TakeSlot(cfg, s, t, w, c, i);
    hide TakeSlot, Slab.Inv, SlabOk, AgentOk;
    CounterGrows(cfg, s, s', t, w, c, i);
    hide Inv;
    assert HandsOut(cfg, s, s', w, c, i, s.slabs[i].free[|s.slabs[i].free| - 1]);
  }

  lemma StepKeepsInvHere(cfg: Config, s: State, t: nat, words: seq<nat>)
    requires Inv(cfg, s) && Enabled(cfg, s, t, Continue(words)) && s.agents[t].pc.AllocSlot?
    ensures Inv(cfg, Apply(cfg, s, t, Continue(words)))
  {
    assert AgentOk(cfg, s, t);
    hide Inv, Apply;
    StepKeepsInv(cfg, s, t, Continue(words));
  }

  /** The counter cannot wrap: what it must hold afterwards still fits 64 bits. */
  lemma CounterGrows(cfg: Config, s: State, s': State, t: nat, w: nat, c: nat, i: nat)
    requires Inv(cfg, s) && Inv(cfg, s') && w < cfg.numWorkers && i < cfg.numSlabs && c < NUM_SIZE_CLASSES && t < |s.agents|
    requires s.agents[t].handle == Worker(w) && s.agents[t].pc == AllocSlot(c, i) && s.slabs[i].owner == w && s.slabs[i].sizeIndex == c
    requires s.slabs[i].free != [] && s.slabs[i].free[|s.slabs[i].free| - 1] < |s.slabs[i].loc|
    requires s'.slabs == s.slabs[i := s'.slabs[i]] && s'.holder == s.holder
    requires s'.slabs[i] == Slab.Take(s.slabs[i], BlockOffset(cfg, i, c, s.slabs[i].free[|s.slabs[i].free| - 1]))
    requires s'.agents == s.agents[t := Agent(Worker(w), Idle)]
    ensures s'.bytes[w] == s.bytes[w] + Size(c)
  {
    hide Pool.Inv, Lists.Inv, Size, UsedBy;
    assert WorkerOk(cfg, s, w) && WorkerOk(cfg, s', w) && AgentOk(cfg, s, t) && SlabOk(cfg, s, i);
    hide Slab.Inv;
    UsedUpdate(s.slabs, i, s'.slabs[i], w);
    AllocatorAssign.TakeUsesAll(s.slabs[i], BlockOffset(cfg, i, c, s.slabs[i].free[|s.slabs[i].free| - 1]));
  }
}
