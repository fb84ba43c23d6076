/**
 * Exclusivity and stability: which handle may change what, for how long a slab keeps its owner and size class,
 * and what a worker index carries over from one claimant to the next.
 */
module AllocatorOwners {
  import opened Base
  import opened SizeClasses
  import opened Address
  import opened Allocator
  import opened AllocatorInv
  import opened AllocatorRuns
  import AllocatorFree
  import AllocatorProjection
  import Pool = GlobalFreeList
  import Lists = LocalLists
  import Slab
  import SlabRuns

  /** At most one live handle holds each worker index. */
  lemma OneHandlePerWorker(cfg: Config, s: State, t: nat, u: nat)
    requires ValidConfig(cfg) && Reachable(cfg, s) && t < |s.agents| && u < |s.agents|
    requires s.agents[t].handle.Worker? && s.agents[t].handle == s.agents[u].handle
    ensures t == u
  {
    ReachableInv(cfg, s);
    hide Reachable;
    if t != u { Exclusive(cfg, s, t, u); }
  }

  // ----- local lists and counters

  /** The lists, the heads and the counter of worker `v` are untouched. */
  ghost predicate Untouched(s: State, s': State, v: nat) {
    && s'.local.lists.Keys == s.local.lists.Keys && s'.local.heads.Keys == s.local.heads.Keys
    && (forall k {:trigger s'.local.lists[k]} :: k in s.local.lists && k.worker == v ==> s'.local.lists[k] == s.local.lists[k])
    && (forall k {:trigger s'.local.heads[k]} :: k in s.local.heads && k.worker == v ==> s'.local.heads[k] == s.local.heads[k])
    && |s'.bytes| == |s.bytes| && (v < |s.bytes| ==> s'.bytes[v] == s.bytes[v])
  }

  ghost predicate UntouchedLists(l: Lists.State, m: Lists.State, v: nat) {
    && m.lists.Keys == l.lists.Keys && m.heads.Keys == l.heads.Keys
    && (forall k {:trigger m.lists[k]} :: k in l.lists && k.worker == v ==> m.lists[k] == l.lists[k])
    && (forall k {:trigger m.heads[k]} :: k in l.heads && k.worker == v ==> m.heads[k] == l.heads[k])
  }

  lemma SwitchUntouched(l: Lists.State, a: Lists.Key, b: Lists.Key, i: nat, v: nat)
    requires CanSwitch(l, a, b, i) && a.worker != v && b.worker != v && l.lists.Keys == l.heads.Keys
    ensures UntouchedLists(l, Switch(l, a, b, i), v)
  {
    hide Lists.WorkerLocalList.PushNodes, Lists.WorkerLocalList.RemoveNodes, Lists.WorkerLocalList.RemoveHead;
  }

  lemma MoveUntouched(l: Lists.State, k: Lists.Key, i: nat, v: nat)
    requires k.worker != v && l.lists.Keys == l.heads.Keys
    ensures Lists.CanPush(l, k, i) ==> UntouchedLists(l, Lists.PushTo(l, k, i), v)
    ensures Lists.CanRemove(l, k, i) ==> UntouchedLists(l, Lists.RemoveFrom(l, k, i), v)
  {
    hide Lists.WorkerLocalList.PushNodes, Lists.WorkerLocalList.RemoveNodes, Lists.WorkerLocalList.RemoveHead;
  }

  lemma RefillUntouched(cfg: Config, s: State, t: nat, w: nat, c: nat, i: nat, words: seq<nat>, v: nat)
    requires Sized(cfg, s) && t < |s.agents| && w < cfg.numWorkers && c < NUM_SIZE_CLASSES && i < cfg.numSlabs && v != w
    ensures Untouched(s, Refill(cfg, s, t, w, c, i, words), v)
  {
    hide Lists.PushTo, Lists.CanPush;
    MoveUntouched(s.local, Lists.Key(w, c, false), i, v);
  }

  lemma TakeSlotUntouched(cfg: Config, s: State, t: nat, w: nat, c: nat, i: nat, v: nat)
    requires Sized(cfg, s) && t < |s.agents| && w < cfg.numWorkers && c < NUM_SIZE_CLASSES && i < cfg.numSlabs && v != w
    ensures Untouched(s, TakeSlot(cfg, s, t, w, c, i), v)
  {
    hide Switch, CanSwitch;
    if CanSwitch(s.local, Lists.Key(w, c, false), Lists.Key(w, c, true), i) {
      SwitchUntouched(s.local, Lists.Key(w, c, false), Lists.Key(w, c, true), i, v);
    }
  }

  lemma PushFreeUntouched(cfg: Config, s: State, t: nat, w: nat, c: nat, i: nat, pc: Pc, after: After, v: nat)
    requires Sized(cfg, s) && t < |s.agents| && i < cfg.numSlabs && v != w
    requires s.slabs[i].ops[t].Holding? || s.slabs[i].ops[t].DrainHold?
    requires s.slabs[i].ops[t].slot < |s.slabs[i].loc|
    ensures Untouched(s, PushFree(cfg, s, t, w, c, i, pc, after), v)
  {
    hide Switch, CanSwitch, Lists.RemoveFrom, Lists.CanRemove, Slab.LocalPush, OutcomeOf, UntouchedLists;
    MoveUntouched(s.local, Lists.Key(w, c, false), i, v);
    if CanSwitch(s.local, Lists.Key(w, c, true), Lists.Key(w, c, false), i) {
      SwitchUntouched(s.local, Lists.Key(w, c, true), Lists.Key(w, c, false), i, v);
    }
    var s' := PushFree(cfg, s, t, w, c, i, pc, after);
    assert s'.bytes == s.bytes;
    assert s'.local == s.local || UntouchedLists(s.local, s'.local, v);
    hide PushFree;
    FromLists(s, s', v);
  }

  lemma FromLists(s: State, s': State, v: nat)
    requires s'.bytes == s.bytes && s.local.lists.Keys == s.local.heads.Keys
    requires s'.local == s.local || UntouchedLists(s.local, s'.local, v)
    ensures Untouched(s, s', v)
  {
  }

  lemma FreeUntouched(cfg: Config, s: State, t: nat, w: nat, v: nat)
    requires Sized(cfg, s) && t < |s.agents| && w < cfg.numWorkers && v != w
    ensures s.agents[t].pc.FreeLocal? && s.agents[t].pc.slab < cfg.numSlabs ==>
              Untouched(s, LocalFree(cfg, s, t, w, s.agents[t].pc.slab, s.agents[t].pc.slot), v)
    ensures s.agents[t].pc.CleanFree? && s.agents[t].pc.drain.slab < cfg.numSlabs ==>
              Untouched(s, DrainFree(cfg, s, t, w, s.agents[t].pc.drain), v)
  {
    hide PushFree;
    match s.agents[t].pc
    case FreeLocal(i, k) =>
      if i < cfg.numSlabs {
        var x := s.slabs[i];
        if x.sizeIndex < NUM_SIZE_CLASSES && x.ops[t] == Slab.Holding(k) && k < |x.loc| {
          var b := s.bytes[w := Sub64(s.bytes[w], Size(x.sizeIndex))];
          PushFreeUntouched(cfg, s.(bytes := b), t, w, x.sizeIndex, i, Idle, Return, v);
        }
      }
    case CleanFree(d) =>
      if d.slab < cfg.numSlabs && s.slabs[d.slab].ops[t].DrainHold? && s.slabs[d.slab].ops[t].slot < |s.slabs[d.slab].loc| {
        var e := d.(freed := d.freed + 1);
        PushFreeUntouched(cfg, s, t, w, d.sizeIndex, d.slab, CleanDrain(e), Resume(e), v);
      }
    case _ =>
  }

  lemma DrainUntouched(cfg: Config, s: State, t: nat, w: nat, d: Drain, v: nat)
    requires Sized(cfg, s) && t < |s.agents| && w < cfg.numWorkers && d.slab < cfg.numSlabs && v != w
    ensures Untouched(s, DrainStep(cfg, s, t, w, d), v)
  {
  }

  lemma StepUntouched(cfg: Config, s: State, t: nat, words: seq<nat>, v: nat)
    requires Sized(cfg, s) && t < |s.agents| && cfg.slabSize > 0 && s.agents[t].handle != Worker(v)
    ensures Untouched(s, Step(cfg, s, t, words), v)
  {
    hide Refill, TakeSlot, LocalFree, DrainStep, DrainFree, Size, Capacity, FindSlab, FindSlot, Pool.Advance;
    if PcInBounds(cfg, s.agents[t]) && NeedsWorker(s.agents[t].pc) {
      var w := s.agents[t].handle.index;
      match s.agents[t].pc
      case ResetStack(c, i) => RefillUntouched(cfg, s, t, w, c, i, words, v);
      case AllocSlot(c, i) => TakeSlotUntouched(cfg, s, t, w, c, i, v);
      case FreeLocal(i, k) => FreeUntouched(cfg, s, t, w, v);
      case CleanDrain(d) => DrainUntouched(cfg, s, t, w, d, v);
      case CleanFree(d) => FreeUntouched(cfg, s, t, w, v);
      case _ =>
    }
  }

  /** No handle but the holder of a worker index ever touches that worker's lists or counter. */
  lemma OnlyOwnerTouchesLists(cfg: Config, s: State, t: nat, a: Action, v: nat)
    requires ValidConfig(cfg) && Enabled(cfg, s, t, a) && s.agents[t].handle != Worker(v)
    ensures Untouched(s, Apply(cfg, s, t, a), v)
  {
    SlabSizeBound(cfg.slabSize);
    hide ValidConfig, Step, SizeClassIndex;
    if a.Continue? { StepUntouched(cfg, s, t, a.words, v); }
    if a.CallAllocate? { LeastClass(a.size); }
  }

  // ----- free stacks and drains

  /** What a handle that does not own slab `i` may do to it. */
  predicate ForeignAction(a: SlabRuns.Action) {
    a.Free? || a.Route? || a.Push? || a.Write? || a.Finish?
  }

  /** A drain of a slab that now belongs to another worker has nothing left to read. */
  lemma ForeignDrainIsOver(cfg: Config, s: State, t: nat, i: nat, w: nat)
    requires Inv(cfg, s) && t < |s.agents| && i < cfg.numSlabs && s.agents[t].pc.CleanDrain? && s.agents[t].pc.drain.slab == i
    requires s.agents[t].handle == Worker(w) && s.slabs[i].owner != w
    ensures s.slabs[i].ops[t].Draining? && s.slabs[i].ops[t].cursor == NULL_U16
  {
    hide Pool.Inv, Lists.Inv, WorkerOk, ValidConfig, Midway, Ahead, Size, Capacity;
    assert SlabOk(cfg, s, i) && AgentOk(cfg, s, t);
    assert SlabOpFits(s.agents[t].pc, i, s.slabs[i].ops[t]);
    assert Slab.ThreadOk(s.slabs[i], t, s.slabs[i].ops[t]);
  }

  /**
   * While a slab stands on a worker's list, handles other than that worker's only begin frees, push on the
   * remote list, write into live blocks and close a drain of their own that has nothing left to read: they
   * never touch its free stack, drain it or reassign it.
   */
  lemma OnlyOwnerTouchesSlab(cfg: Config, s: State, t: nat, a: Action, i: nat, k: Lists.Key)
    requires Inv(cfg, s) && Enabled(cfg, s, t, a) && i < cfg.numSlabs && s.place[i] == Listed(k)
    requires s.agents[t].handle != Worker(k.worker)
    ensures var sa := AllocatorProjection.SlabAction(cfg, s, t, a, i); sa.Some? ==> ForeignAction(sa.value)
  {
    hide Pool.Inv, Lists.Inv, Slab.Inv, WorkerOk, ValidConfig, Midway, Ahead, Size, Capacity;
    assert SlabOk(cfg, s, i) && AgentOk(cfg, s, t);
    assert SlabOpFits(s.agents[t].pc, i, s.slabs[i].ops[t]);
    if a.Continue? && s.agents[t].pc.CleanDrain? && s.agents[t].pc.drain.slab == i {
      ForeignDrainIsOver(cfg, s, t, i, s.agents[t].handle.index);
    }
  }

  // ----- an index without a holder

  /** Before every step of the run, worker index `v` is free to be claimed. */
  ghost predicate OrphanRun(cfg: Config, s: State, es: seq<Event>, v: nat)
    requires ValidConfig(cfg) && Valid(cfg, s, es)
    decreases |es|
  {
    es == [] || (v < |s.claimed| && !s.claimed[v] && OrphanRun(cfg, Apply(cfg, s, es[0].tid, es[0].act), es[1..], v))
  }

  lemma NobodyHolds(cfg: Config, s: State, t: nat, v: nat)
    requires Inv(cfg, s) && v < |s.claimed| && !s.claimed[v] && t < |s.agents|
    ensures s.agents[t].handle != Worker(v)
  {
    assert WorkerOk(cfg, s, v) && AgentOk(cfg, s, t);
  }

  /**
   * A released worker index keeps its lists, and so its slabs, and its byte counter, whatever all other handles
   * do, up to and including the step that claims it again.
   */
  lemma {:induction false} ReleasedIndexKept(cfg: Config, s: State, es: seq<Event>, v: nat)
    requires ValidConfig(cfg) && Inv(cfg, s) && Valid(cfg, s, es) && FreshRun(cfg, s, es) && OrphanRun(cfg, s, es, v)
    ensures Untouched(s, Exec(cfg, s, es), v)
    decreases |es|
  {
    hide Inv, Apply, Enabled;
    if es != [] {
      InRange(cfg, s, es[0].tid, es[0].act);
      NobodyHolds(cfg, s, es[0].tid, v);
      OnlyOwnerTouchesLists(cfg, s, es[0].tid, es[0].act, v);
      StepKeepsInv(cfg, s, es[0].tid, es[0].act);
      ReleasedIndexKept(cfg, Apply(cfg, s, es[0].tid, es[0].act), es[1..], v);
    }
  }

  lemma InRange(cfg: Config, s: State, t: nat, a: Action)
    requires Enabled(cfg, s, t, a)
    ensures t < |s.agents|
  {
  }

  // ----- stable routing

  /** In every state of the run, slot `k` of slab `i` is out of the free stack. */
  ghost predicate Outstanding(cfg: Config, s: State, es: seq<Event>, i: nat, k: nat)
    requires ValidConfig(cfg) && Valid(cfg, s, es)
    decreases |es|
  {
    && i < |s.slabs| && k < |s.slabs[i].loc| && s.slabs[i].loc[k] != Slab.Free
    && (es == [] || Outstanding(cfg, Apply(cfg, s, es[0].tid, es[0].act), es[1..], i, k))
  }

  predicate SameMeta(x: Slab.State, y: Slab.State) {
    y.owner == x.owner && y.sizeIndex == x.sizeIndex && y.capacity == x.capacity
  }

  /** Only a wholly free slab changes owner, size class or capacity. */
  lemma MetaStep(x: Slab.State, t: nat, a: SlabRuns.Action)
    requires Slab.Inv(x) && SlabRuns.Enabled(x, t, a) && !Slab.Quiet(x)
    ensures SameMeta(x, SlabRuns.Apply(x, t, a))
  {
  }

  lemma OutstandingStep(cfg: Config, s: State, t: nat, a: Action, i: nat)
    requires Inv(cfg, s) && Enabled(cfg, s, t, a) && i < cfg.numSlabs && !Slab.Quiet(s.slabs[i])
    ensures i < |Apply(cfg, s, t, a).slabs| && SameMeta(s.slabs[i], Apply(cfg, s, t, a).slabs[i])
  {
    AllocatorProjection.SlabProjection(cfg, s, t, a, i);
    var sa := AllocatorProjection.SlabAction(cfg, s, t, a, i);
    hide Inv, Enabled, Apply, Slab.Inv, SlabRuns.Enabled, SlabRuns.Apply;
    if sa.Some? { MetaStep(s.slabs[i], t, sa.value); }
  }

  /**
   * Stable routing: from the step that hands a block out until its free takes effect, whatever every other handle
   * does, its slab keeps its owner, size class and capacity.
   */
  lemma {:induction false} OutstandingKeepsMeta(cfg: Config, s: State, es: seq<Event>, i: nat, k: nat)
    requires ValidConfig(cfg) && Inv(cfg, s) && Valid(cfg, s, es) && FreshRun(cfg, s, es) && Outstanding(cfg, s, es, i, k)
    ensures i < |Exec(cfg, s, es).slabs| && SameMeta(s.slabs[i], Exec(cfg, s, es).slabs[i])
    decreases |es|
  {
    if es != [] {
      assert i < cfg.numSlabs;
      assert !Slab.Quiet(s.slabs[i]);
      hide Inv, Apply, Enabled, Slab.Quiet;
      OutstandingStep(cfg, s, es[0].tid, es[0].act, i);
      StepKeepsInv(cfg, s, es[0].tid, es[0].act);
      OutstandingKeepsMeta(cfg, Apply(cfg, s, es[0].tid, es[0].act), es[1..], i, k);
    }
  }

  /**
   * So a block's offset, converted back through the size class read at any later moment before its free takes
   * effect, gives the slab and the slot that were allocated.
   */
  lemma OffsetStaysGood(cfg: Config, s: State, es: seq<Event>, i: nat, k: nat)
    requires ValidConfig(cfg) && Inv(cfg, s) && Valid(cfg, s, es) && FreshRun(cfg, s, es) && Outstanding(cfg, s, es, i, k)
    requires i < |s.slabs| && k < |s.slabs[i].loc| && s.slabs[i].loc[k].Live?
    ensures i < |Exec(cfg, s, es).slabs| && Exec(cfg, s, es).slabs[i].sizeIndex < NUM_SIZE_CLASSES && cfg.slabSize > 0
    ensures s.slabs[i].loc[k].offset >= cfg.slabsOffset
    ensures FindSlab(cfg, s.slabs[i].loc[k].offset) == Some(i)
    ensures FindSlot(cfg, s.slabs[i].loc[k].offset, Exec(cfg, s, es).slabs[i].sizeIndex) == k
    ensures Exec(cfg, s, es).slabs[i].owner == s.slabs[i].owner
  {
    OutstandingKeepsMeta(cfg, s, es, i, k);
    LiveLeadsBack(cfg, s, i, k);
    hide Inv, Valid, FreshRun, Exec, Outstanding, FindSlab, FindSlot, ValidConfig;
  }

  lemma LiveLeadsBack(cfg: Config, s: State, i: nat, k: nat)
    requires Inv(cfg, s) && i < |s.slabs| && k < |s.slabs[i].loc| && s.slabs[i].loc[k].Live?
    ensures s.slabs[i].sizeIndex < NUM_SIZE_CLASSES && cfg.slabSize > 0 && s.slabs[i].loc[k].offset >= cfg.slabsOffset
    ensures FindSlab(cfg, s.slabs[i].loc[k].offset) == Some(i)
    ensures FindSlot(cfg, s.slabs[i].loc[k].offset, s.slabs[i].sizeIndex) == k
  {
    hide Pool.Inv, Lists.Inv, AgentOk, WorkerOk, Capacity, Size;
    assert SlabOk(cfg, s, i);
    SlabSizeBound(cfg.slabSize);
    SizeIsPower(s.slabs[i].sizeIndex);
    RoundTrip(cfg, i, s.slabs[i].sizeIndex, k, 0);
  }

  /** A free computes exactly the slab and slot its caller was given, and goes on with them. */
  lemma FreeFindsItsBlock(cfg: Config, s: State, t: nat, offset: nat, i: nat, k: nat, words: seq<nat>)
    requires Inv(cfg, s) && Enabled(cfg, s, t, Continue(words)) && s.agents[t].pc == FindBlock(offset, i, k)
    ensures Apply(cfg, s, t, Continue(words)) == s.Pc(t, if s.agents[t].handle.Worker? then Route(i, k) else FreeRemote(i, k))
  {
    InBounds(cfg, s, t);
    AllocatorFree.FindExact(cfg, s, t, offset, i, k);
    hide Inv, FindSlab, FindSlot;
  }

  /** A free is done locally exactly when the slab stands on a list of the caller's own worker. */
  lemma RoutesByOwner(cfg: Config, s: State, t: nat, w: nat, i: nat, k: nat, words: seq<nat>)
    requires Inv(cfg, s) && Enabled(cfg, s, t, Continue(words)) && s.agents[t] == Agent(Worker(w), Route(i, k))
    ensures i < |s.place| && s.place[i].Listed?
    ensures Apply(cfg, s, t, Continue(words))
            == s.Pc(t, if s.place[i].key.worker == w then FreeLocal(i, k) else FreeRemote(i, k))
  {
    InBounds(cfg, s, t);
    hide Pool.Inv, Lists.Inv, Slab.Inv, WorkerOk, ValidConfig, Capacity;
    assert AgentOk(cfg, s, t);
    assert SlabOpFits(s.agents[t].pc, i, s.slabs[i].ops[t]);
    AllocatorFree.HeldSlot(cfg, s, t, i);
    hide AgentOk, SlabOk, Standing, LocalFree, BeginRemote, RemoteStep;
  }
}
