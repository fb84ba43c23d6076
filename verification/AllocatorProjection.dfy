/**
 * The allocator is built from its parts: seen through one slab, or through the global list, every step of
 * the whole system is a step of that part's own machine or leaves it alone. What is proved of the parts
 * over all their runs therefore holds inside the allocator.
 */
module AllocatorProjection {
  import opened Base
  import opened SizeClasses
  import opened Address
  import opened Allocator
  import opened AllocatorInv
  import opened AllocatorRuns
  import AllocatorAssign
  import AllocatorFree
  import AllocatorClean
  import AllocatorRetire
  import Pool = GlobalFreeList
  import PoolRuns = GlobalFreeListRuns
  import Lists = LocalLists
  import Slab
  import SlabRuns

  // ----- one slab

  /** What a step of the allocator does to slab `i`. */
  ghost function SlabAction(cfg: Config, s: State, t: nat, a: Action, i: nat): Option<SlabRuns.Action>
    requires Sized(cfg, s) && t < |s.agents| && i < cfg.numSlabs
  {
    var x := s.slabs[i];
    match a
    case CallFree(j, k) => if j == i then Some(SlabRuns.Free(k)) else None
    case Write(j, k, v) => if j == i then Some(SlabRuns.Write(k, v)) else None
    case Continue(words) =>
      if Target(s.agents[t].pc) != Some(i) then None
      else
        (match s.agents[t].pc
         case StoreOwner(_, _) =>
           if s.agents[t].handle.Worker? then Some(SlabRuns.Assign(s.agents[t].handle.index, x.sizeIndex)) else None
         case StoreClass(c, _) => Some(SlabRuns.Assign(x.owner, c))
         case ClearRemote(_, _) => Some(SlabRuns.Clear)
         case ResetStack(c, _) =>
           if c < NUM_SIZE_CLASSES then Some(SlabRuns.Recut(Capacity(cfg, c), words)) else None
         case AllocSlot(c, _) =>
           if c < NUM_SIZE_CLASSES && x.free != []
           then Some(SlabRuns.Allocate(BlockOffset(cfg, i, c, x.free[|x.free| - 1]))) else None
         case FreeLocal(_, _) => Some(SlabRuns.PushLocal)
         case FreeRemote(_, _) => Some(SlabRuns.Route)
         case RemotePush(_, _) => Some(SlabRuns.Push)
         case CleanSwap(_, _, _, _, _) => Some(SlabRuns.Swap)
         case CleanDrain(_) =>
           if x.ops[t].Draining? && x.ops[t].cursor == NULL_U16 then Some(SlabRuns.Finish) else Some(SlabRuns.Yield)
         case CleanFree(_) => Some(SlabRuns.PushLocal)
         case _ => None)
    case _ => None
  }

  /** The step is the slab's own step `sa`, or does not touch the slab. */
  ghost predicate Projects(cfg: Config, s: State, t: nat, s': State, i: nat, sa: Option<SlabRuns.Action>) {
    && i < |s.slabs| == |s'.slabs| && Slab.Inv(s.slabs[i])
    && (sa.None? ==> s'.slabs[i] == s.slabs[i])
    && (sa.Some? ==> SlabRuns.Enabled(s.slabs[i], t, sa.value) && SlabRuns.Apply(s.slabs[i], t, sa.value) == s'.slabs[i])
  }

  lemma CallProjects(cfg: Config, s: State, t: nat, a: Action, i: nat)
    requires Inv(cfg, s) && Enabled(cfg, s, t, a) && !a.Continue? && i < cfg.numSlabs
    ensures Projects(cfg, s, t, Apply(cfg, s, t, a), i, SlabAction(cfg, s, t, a, i))
  {
    hide Pool.Inv, Lists.Inv, Slab.Inv, WorkerOk, ValidConfig, SizeClassIndex;
    assert AgentOk(cfg, s, t) && SlabOk(cfg, s, i);
    assert SlabOpFits(s.agents[t].pc, i, s.slabs[i].ops[t]);
  }

  lemma AllocProjects(cfg: Config, s: State, t: nat, words: seq<nat>, i: nat)
    requires Inv(cfg, s) && Enabled(cfg, s, t, Continue(words)) && i < cfg.numSlabs && AllocPc(s.agents[t].pc)
    ensures Projects(cfg, s, t, Apply(cfg, s, t, Continue(words)), i, SlabAction(cfg, s, t, Continue(words), i))
  {
    if s.agents[t].pc.StoreOwner? || s.agents[t].pc.StoreClass? || s.agents[t].pc.ClearRemote? {
      AssignProjects(cfg, s, t, words, i);
    } else {
      InBounds(cfg, s, t);
      assert SlabOk(cfg, s, i);
      hide Inv, Slab.Inv, SlabOk, ValidConfig, Size, Capacity, Claim, Take, Refill, TakeSlot;
      match s.agents[t].pc
      case ResetStack(c, j) => RefillProjects(cfg, s, t, s.agents[t].handle.index, c, j, words, i);
      case AllocSlot(c, j) => TakeSlotProjects(cfg, s, t, s.agents[t].handle.index, c, j, i);
      case Claiming(n) => SameSlabs(cfg, s, t, n);
      case Taking(c) => SameSlabs(cfg, s, t, c);
    }
  }

  /** The three metadata stores of `assign`. */
  lemma AssignProjects(cfg: Config, s: State, t: nat, words: seq<nat>, i: nat)
    requires Inv(cfg, s) && Enabled(cfg, s, t, Continue(words)) && i < cfg.numSlabs
    requires s.agents[t].pc.StoreOwner? || s.agents[t].pc.StoreClass? || s.agents[t].pc.ClearRemote?
    ensures Projects(cfg, s, t, Apply(cfg, s, t, Continue(words)), i, SlabAction(cfg, s, t, Continue(words), i))
  {
    InBounds(cfg, s, t);
    CarriedIsQuiet(cfg, s, t, s.agents[t].pc.slab);
    assert SlabOk(cfg, s, i);
    hide Inv, Slab.Inv, SlabOk, ValidConfig, Size, Capacity, Claim, Take, Refill, TakeSlot, Find, ChooseRoute, LocalFree,
      BeginRemote, RemoteStep, Give, StartLine, IterStep, SwapStep, DrainStep, DrainFree;
  }

  lemma SameSlabs(cfg: Config, s: State, t: nat, n: nat)
    requires Sized(cfg, s) && t < |s.agents|
    ensures Claim(cfg, s, t, n).slabs == s.slabs && Take(cfg, s, t, n).slabs == s.slabs
  {
  }

  /** A slab in a handle's hands has nothing outstanding. */
  lemma CarriedIsQuiet(cfg: Config, s: State, t: nat, i: nat)
    requires Inv(cfg, s) && t < |s.agents| && Carries(s, t) == Some(i)
    ensures i < cfg.numSlabs && Slab.Quiet(s.slabs[i]) && s.place[i] == Transit(t)
  {
    hide Pool.Inv, Lists.Inv, Slab.Inv, WorkerOk, ValidConfig;
    assert AgentOk(cfg, s, t);
    assert SlabOk(cfg, s, i);
  }

  lemma RefillProjects(cfg: Config, s: State, t: nat, w: nat, c: nat, j: nat, words: seq<nat>, i: nat)
    requires Inv(cfg, s) && t < |s.agents| && s.agents[t] == Agent(Worker(w), ResetStack(c, j)) && i < cfg.numSlabs
    requires c < NUM_SIZE_CLASSES && j < cfg.numSlabs && w < cfg.numWorkers && |words| == Capacity(cfg, c)
    ensures Projects(cfg, s, t, Refill(cfg, s, t, w, c, j, words), i,
                     if j == i then Some(SlabRuns.Recut(Capacity(cfg, c), words)) else None)
  {
    CarriedIsQuiet(cfg, s, t, j);
    AllocatorAssign.NotListed(cfg, s, j);
    Lists.PushToKeeps(s.local, Lists.Key(w, c, false), j);
    CapacityExact(cfg, c);
    assert SlabOk(cfg, s, i);
    hide Inv, Slab.Inv, Capacity;
  }

  lemma TakeSlotProjects(cfg: Config, s: State, t: nat, w: nat, c: nat, j: nat, i: nat)
    requires Inv(cfg, s) && t < |s.agents| && s.agents[t] == Agent(Worker(w), AllocSlot(c, j)) && i < cfg.numSlabs
    ensures c < NUM_SIZE_CLASSES && w < cfg.numWorkers && j < cfg.numSlabs && s.slabs[j].free != []
    ensures Projects(cfg, s, t, TakeSlot(cfg, s, t, w, c, j), i,
                     if j == i then Some(SlabRuns.Allocate(BlockOffset(cfg, i, c, s.slabs[i].free[|s.slabs[i].free| - 1]))) else None)
  {
    AllocatorAssign.PartialYields(cfg, s, t, c, j);
    assert AgentOk(cfg, s, t) && SlabOk(cfg, s, j);
    Slab.TakeKeeps(s.slabs[j], 0);
    AllocatorAssign.TakeSlotEffects(cfg, s, t, w, c, j);
    hide Inv, Slab.Inv, Capacity, Size, SlabOk, AgentOk, TakeSlot;
    TakenProjects(cfg, s, TakeSlot(cfg, s, t, w, c, j), t, c, j, i);
  }

  lemma TakenProjects(cfg: Config, s: State, s': State, t: nat, c: nat, j: nat, i: nat)
    requires Inv(cfg, s) && |s'.slabs| == |s.slabs| && j < cfg.numSlabs && i < cfg.numSlabs && t < |s.agents| && c < NUM_SIZE_CLASSES
    requires s.slabs[j].free != [] && s.slabs[j].free[|s.slabs[j].free| - 1] < |s.slabs[j].loc|
    requires s'.slabs == s.slabs[j := Slab.Take(s.slabs[j], BlockOffset(cfg, j, c, s.slabs[j].free[|s.slabs[j].free| - 1]))]
    ensures Projects(cfg, s, t, s', i,
                     if j == i then Some(SlabRuns.Allocate(BlockOffset(cfg, i, c, s.slabs[i].free[|s.slabs[i].free| - 1]))) else None)
  {
    assert SlabOk(cfg, s, i);
    hide Inv, Slab.Inv, SlabOk, Size, Slab.Take;
  }

  lemma FreeProjects(cfg: Config, s: State, t: nat, words: seq<nat>, i: nat)
    requires Inv(cfg, s) && Enabled(cfg, s, t, Continue(words)) && i < cfg.numSlabs && FreePc(s.agents[t].pc)
    ensures Projects(cfg, s, t, Apply(cfg, s, t, Continue(words)), i, SlabAction(cfg, s, t, Continue(words), i))
  {
    InBounds(cfg, s, t);
    assert SlabOk(cfg, s, i);
    hide Inv, Slab.Inv, SlabOk, ValidConfig, Size, Capacity, LocalFree, RemoteStep, BeginRemote, Find;
    match s.agents[t].pc
    case FindBlock(offset, j, k) => FindSame(cfg, s, t, offset);
    case Route(j, k) =>
    case FreeLocal(j, k) => LocalFreeProjects(cfg, s, t, s.agents[t].handle.index, j, k, i);
    case FreeRemote(j, k) => RemoteProjects(cfg, s, t, j, i);
    case RemotePush(j, c) => RemoteProjects(cfg, s, t, j, i);
  }

  lemma FindSame(cfg: Config, s: State, t: nat, offset: nat)
    requires Sized(cfg, s) && t < |s.agents| && cfg.slabSize > 0
    ensures Find(cfg, s, t, offset).slabs == s.slabs
  {
  }

  lemma RemoteProjects(cfg: Config, s: State, t: nat, j: nat, i: nat)
    requires Inv(cfg, s) && t < |s.agents| && i < cfg.numSlabs && j < cfg.numSlabs
    requires s.agents[t].pc.FreeRemote? || s.agents[t].pc.RemotePush?
    requires s.agents[t].pc.slab == j
    ensures s.agents[t].pc.FreeRemote? ==>
              Projects(cfg, s, t, BeginRemote(cfg, s, t, j, s.agents[t].pc.slot), i, if j == i then Some(SlabRuns.Route) else None)
    ensures s.agents[t].pc.RemotePush? ==>
              Projects(cfg, s, t, RemoteStep(cfg, s, t, j, s.agents[t].pc.c), i, if j == i then Some(SlabRuns.Push) else None)
  {
    hide Pool.Inv, Lists.Inv, Slab.Inv, WorkerOk, ValidConfig, Size, Capacity, Standing;
    assert AgentOk(cfg, s, t) && SlabOk(cfg, s, i) && SlabOk(cfg, s, j);
    assert SlabOpFits(s.agents[t].pc, j, s.slabs[j].ops[t]);
    if s.agents[t].pc.RemotePush? { AllocatorFree.PushInterior(s.slabs[j], t); }
  }

  lemma PushFreeProjects(cfg: Config, s: State, s': State, t: nat, j: nat, i: nat)
    requires Inv(cfg, s) && Sized(cfg, s') && j < cfg.numSlabs && i < cfg.numSlabs && t < |s.slabs[j].ops|
    requires s.slabs[j].ops[t].Holding? || s.slabs[j].ops[t].DrainHold?
    requires s.slabs[j].ops[t].slot < |s.slabs[j].loc|
    requires s'.slabs == s.slabs[j := Slab.LocalPush(s.slabs[j], t)]
    ensures Projects(cfg, s, t, s', i, if j == i then Some(SlabRuns.PushLocal) else None)
  {
    assert SlabOk(cfg, s, i);
    hide Inv, Slab.Inv, SlabOk, Slab.LocalPush;
  }

  lemma LocalFreeProjects(cfg: Config, s: State, t: nat, w: nat, j: nat, k: nat, i: nat)
    requires Inv(cfg, s) && t < |s.agents| && s.agents[t] == Agent(Worker(w), FreeLocal(j, k)) && i < cfg.numSlabs
    ensures j < cfg.numSlabs && w < cfg.numWorkers
    ensures Projects(cfg, s, t, LocalFree(cfg, s, t, w, j, k), i, if j == i then Some(SlabRuns.PushLocal) else None)
  {
    AllocatorRetire.LocalFreeEffects(cfg, s, t, w, j, k);
    hide Inv, LocalFree, SlabOk, AgentOk, WorkerOk, Shape;
    PushFreeProjects(cfg, s, LocalFree(cfg, s, t, w, j, k), t, j, i);
  }

  lemma DrainFreeProjects(cfg: Config, s: State, t: nat, w: nat, d: Drain, i: nat)
    requires Inv(cfg, s) && t < |s.agents| && s.agents[t] == Agent(Worker(w), CleanFree(d)) && i < cfg.numSlabs
    ensures d.slab < cfg.numSlabs && w < cfg.numWorkers
    ensures Projects(cfg, s, t, DrainFree(cfg, s, t, w, d), i, if d.slab == i then Some(SlabRuns.PushLocal) else None)
  {
    AllocatorClean.DrainFreeEffects(cfg, s, t, w, d);
    hide Inv, DrainFree, SlabOk, AgentOk, WorkerOk, Shape, AllocatorRetire.WalkKept;
    PushFreeProjects(cfg, s, DrainFree(cfg, s, t, w, d), t, d.slab, i);
  }

  lemma DrainProjects(cfg: Config, s: State, t: nat, w: nat, d: Drain, i: nat)
    requires Inv(cfg, s) && t < |s.agents| && s.agents[t] == Agent(Worker(w), CleanDrain(d)) && i < cfg.numSlabs
    ensures d.slab < cfg.numSlabs && w < cfg.numWorkers
    ensures Projects(cfg, s, t, DrainStep(cfg, s, t, w, d), i, SlabAction(cfg, s, t, Continue([]), i))
  {
    hide Pool.Inv, Lists.Inv, Slab.Inv, WorkerOk, Size, Capacity, ValidConfig, Midway, Ahead, Standing;
    assert AgentOk(cfg, s, t) && SlabOk(cfg, s, i) && SlabOk(cfg, s, d.slab);
    AllocatorClean.LineInRange(s.local, w, d.line, d.next, d.walk);
    var x := s.slabs[d.slab];
    assert SlabOpFits(s.agents[t].pc, d.slab, x.ops[t]);
    if x.ops[t].cursor != NULL_U16 { AllocatorClean.YieldInterior(x, t); }
  }

  /** The steps of a cleaning call that only walk the lists, and the swap. */
  lemma WalkProjects(cfg: Config, s: State, t: nat, words: seq<nat>, i: nat)
    requires Inv(cfg, s) && Enabled(cfg, s, t, Continue(words)) && i < cfg.numSlabs
    requires s.agents[t].pc.CleanLine? || s.agents[t].pc.CleanIter? || s.agents[t].pc.CleanSwap?
    ensures Projects(cfg, s, t, Apply(cfg, s, t, Continue(words)), i, SlabAction(cfg, s, t, Continue(words), i))
  {
    InBounds(cfg, s, t);
    IdleHere(cfg, s, t, i);
    hide Inv, Slab.Inv, Size, Capacity, Claim, Take, Refill, TakeSlot, Find, ChooseRoute, LocalFree, BeginRemote,
      RemoteStep, Give, DrainStep, DrainFree, ValidConfig;
  }

  lemma IdleHere(cfg: Config, s: State, t: nat, i: nat)
    requires Inv(cfg, s) && t < |s.agents| && i < cfg.numSlabs
    requires s.agents[t].pc.CleanLine? || s.agents[t].pc.CleanIter? || s.agents[t].pc.CleanSwap?
    ensures Slab.Inv(s.slabs[i]) && s.slabs[i].ops[t] == Slab.Idle
  {
    hide Pool.Inv, Lists.Inv, Slab.Inv, WorkerOk, ValidConfig, Midway, Ahead, Standing;
    assert AgentOk(cfg, s, t) && SlabOk(cfg, s, i);
    assert SlabOpFits(s.agents[t].pc, i, s.slabs[i].ops[t]);
  }

  lemma GivingProjects(cfg: Config, s: State, t: nat, words: seq<nat>, i: nat)
    requires Inv(cfg, s) && Enabled(cfg, s, t, Continue(words)) && i < cfg.numSlabs && s.agents[t].pc.Giving?
    ensures Projects(cfg, s, t, Apply(cfg, s, t, Continue(words)), i, SlabAction(cfg, s, t, Continue(words), i))
  {
    InBounds(cfg, s, t);
    assert SlabOk(cfg, s, i);
    hide Inv, Slab.Inv, Size, Capacity, Claim, Take, Refill, TakeSlot, Find, ChooseRoute, LocalFree, BeginRemote,
      RemoteStep, Give, DrainStep, DrainFree, StartLine, IterStep, SwapStep, ValidConfig;
    GiveSame(cfg, s, t, s.agents[t].pc.slab, s.agents[t].pc.after);
  }

  lemma DrainingProjects(cfg: Config, s: State, t: nat, words: seq<nat>, i: nat)
    requires Inv(cfg, s) && Enabled(cfg, s, t, Continue(words)) && i < cfg.numSlabs
    requires s.agents[t].pc.CleanDrain? || s.agents[t].pc.CleanFree?
    ensures Projects(cfg, s, t, Apply(cfg, s, t, Continue(words)), i, SlabAction(cfg, s, t, Continue(words), i))
  {
    InBounds(cfg, s, t);
    var w := s.agents[t].handle.index;
    hide Inv, Slab.Inv, Size, Capacity, Claim, Take, Refill, TakeSlot, Find, ChooseRoute, LocalFree, BeginRemote,
      RemoteStep, Give, DrainStep, DrainFree, StartLine, IterStep, SwapStep, ValidConfig, Projects;
    match s.agents[t].pc
    case CleanDrain(d) => DrainProjects(cfg, s, t, w, d, i);
    case CleanFree(d) => DrainFreeProjects(cfg, s, t, w, d, i);
  }

  lemma CleanProjects(cfg: Config, s: State, t: nat, words: seq<nat>, i: nat)
    requires Inv(cfg, s) && Enabled(cfg, s, t, Continue(words)) && i < cfg.numSlabs && CleanPc(s.agents[t].pc)
    ensures Projects(cfg, s, t, Apply(cfg, s, t, Continue(words)), i, SlabAction(cfg, s, t, Continue(words), i))
  {
    hide Inv, Apply, SlabAction, Projects;
    match s.agents[t].pc
    case Giving(_, _) => GivingProjects(cfg, s, t, words, i);
    case CleanDrain(_) => DrainingProjects(cfg, s, t, words, i);
    case CleanFree(_) => DrainingProjects(cfg, s, t, words, i);
    case _ => WalkProjects(cfg, s, t, words, i);
  }

  lemma GiveSame(cfg: Config, s: State, t: nat, j: nat, after: After)
    requires Sized(cfg, s) && t < |s.agents|
    ensures Give(cfg, s, t, j, after).slabs == s.slabs
  {
  }

  /** Through any one slab, every step of the allocator is a step of that slab's machine, or none. */
  lemma SlabProjection(cfg: Config, s: State, t: nat, a: Action, i: nat)
    requires Inv(cfg, s) && Enabled(cfg, s, t, a) && i < cfg.numSlabs
    ensures Projects(cfg, s, t, Apply(cfg, s, t, a), i, SlabAction(cfg, s, t, a, i))
  {
    hide Inv, Apply, SlabAction, Projects;
    match a
    case Continue(words) =>
      if AllocPc(s.agents[t].pc) {
        AllocProjects(cfg, s, t, words, i);
      } else if FreePc(s.agents[t].pc) {
        FreeProjects(cfg, s, t, words, i);
      } else {
        CleanProjects(cfg, s, t, words, i);
      }
    case _ => CallProjects(cfg, s, t, a, i);
  }

  // ----- the global list

  /** What a step of the allocator does to the global list. */
  ghost function PoolAction(cfg: Config, s: State, t: nat, a: Action): Option<Pool.Action>
    requires Inv(cfg, s) && Enabled(cfg, s, t, a)
  {
    match a
    case CallAllocate(size) =>
      if Apply(cfg, s, t, a).agents[t].pc.Taking? then Some(Pool.CallPop) else None
    case Continue(words) =>
      (match s.agents[t].pc
       case Taking(_) => Some(if s.pool.ops[t].Popped? || s.pool.ops[t].PopFailed? then Pool.Return else Pool.Continue)
       case Giving(_, _) => Some(Pool.Continue)
       case FreeLocal(i, _) => if Apply(cfg, s, t, a).agents[t].pc.Giving? then Some(Pool.CallPush(i)) else None
       case CleanFree(d) => if Apply(cfg, s, t, a).agents[t].pc.Giving? then Some(Pool.CallPush(d.slab)) else None
       case _ => None)
    case _ => None
  }

  ghost predicate PoolProjects(s: State, t: nat, s': State, pa: Option<Pool.Action>) {
    && t < |s.pool.ops| && Pool.Inv(s.pool)
    && (pa.None? ==> s'.pool == s.pool)
    && (pa.Some? ==> Pool.Enabled(s.pool, t, pa.value) && Pool.Apply(s.pool, t, pa.value) == s'.pool)
  }

  lemma PushCallProjects(cfg: Config, s: State, s': State, t: nat, w: nat, c: nat, j: nat, pc: Pc, after: After)
    requires Inv(cfg, s) && Sized(cfg, s') && AllocatorRetire.OwnSlot(cfg, s, t, w, c, j)
    requires s.slabs[j].ops[t].slot < |s.slabs[j].loc| && !pc.Giving?
    requires AllocatorRetire.PushFreeEffect(cfg, s, s', t, w, c, j, pc, after)
    ensures PoolProjects(s, t, s', if s'.agents[t].pc.Giving? then Some(Pool.CallPush(j)) else None)
  {
    AllocatorRetire.NeverUnreachable(cfg, s, t, w, c, j);
    AllocatorRetire.ListedIsOutside(cfg, s, j);
    hide Inv, Pool.Inv, Pool.Outside;
  }

  lemma LocalFreePool(cfg: Config, s: State, t: nat, w: nat, j: nat, k: nat)
    requires Inv(cfg, s) && t < |s.agents| && s.agents[t] == Agent(Worker(w), FreeLocal(j, k))
    ensures j < cfg.numSlabs && w < cfg.numWorkers && t < |LocalFree(cfg, s, t, w, j, k).agents|
    ensures PoolProjects(s, t, LocalFree(cfg, s, t, w, j, k),
                         if LocalFree(cfg, s, t, w, j, k).agents[t].pc.Giving? then Some(Pool.CallPush(j)) else None)
  {
    AllocatorRetire.LocalFreeEffects(cfg, s, t, w, j, k);
    hide Inv, LocalFree, SlabOk, AgentOk, WorkerOk, Shape, PoolProjects;
    PushCallProjects(cfg, s, LocalFree(cfg, s, t, w, j, k), t, w, s.slabs[j].sizeIndex, j, Idle, Return);
  }

  lemma DrainFreePool(cfg: Config, s: State, t: nat, w: nat, d: Drain)
    requires Inv(cfg, s) && t < |s.agents| && s.agents[t] == Agent(Worker(w), CleanFree(d))
    ensures d.slab < cfg.numSlabs && w < cfg.numWorkers && t < |DrainFree(cfg, s, t, w, d).agents|
    ensures PoolProjects(s, t, DrainFree(cfg, s, t, w, d),
                         if DrainFree(cfg, s, t, w, d).agents[t].pc.Giving? then Some(Pool.CallPush(d.slab)) else None)
  {
    AllocatorClean.DrainFreeEffects(cfg, s, t, w, d);
    hide Inv, DrainFree, SlabOk, AgentOk, WorkerOk, Shape, PoolProjects, AllocatorRetire.WalkKept;
    var e := d.(freed := d.freed + 1);
    PushCallProjects(cfg, s, DrainFree(cfg, s, t, w, d), t, w, d.sizeIndex, d.slab, CleanDrain(e), Resume(e));
  }

  lemma CallPool(cfg: Config, s: State, t: nat, a: Action)
    requires Inv(cfg, s) && Enabled(cfg, s, t, a) && !a.Continue?
    ensures PoolProjects(s, t, Apply(cfg, s, t, a), PoolAction(cfg, s, t, a))
  {
    hide Pool.Inv, Lists.Inv, Slab.Inv, WorkerOk, ValidConfig, SizeClassIndex, SlabOk;
    assert AgentOk(cfg, s, t);
  }

  /** A handle's own operation on the global list is running whenever its program counter says so. */
  lemma TakingPool(cfg: Config, s: State, t: nat, words: seq<nat>)
    requires Inv(cfg, s) && Enabled(cfg, s, t, Continue(words))
    requires s.agents[t].pc.Taking? || s.agents[t].pc.Giving?
    ensures PoolProjects(s, t, Apply(cfg, s, t, Continue(words)), PoolAction(cfg, s, t, Continue(words)))
  {
    InBounds(cfg, s, t);
    assert AgentOk(cfg, s, t);
    NotPanicked(s.pool, t);
    hide Inv, Pool.Inv, AgentOk, ValidConfig, Size, Capacity, Claim, Refill, TakeSlot, Find, ChooseRoute, LocalFree,
      BeginRemote, RemoteStep, StartLine, IterStep, SwapStep, DrainStep, DrainFree, Pool.Advance;
  }

  lemma NotPanicked(p: Pool.State, t: nat)
    requires Pool.Inv(p) && t < |p.ops|
    ensures p.ops[t] != Pool.Panicked
  {
    assert Pool.OpOk(p, p.ops[t]);
  }

  lemma FreeingPool(cfg: Config, s: State, t: nat, words: seq<nat>)
    requires Inv(cfg, s) && Enabled(cfg, s, t, Continue(words))
    requires s.agents[t].pc.FreeLocal? || s.agents[t].pc.CleanFree?
    ensures PoolProjects(s, t, Apply(cfg, s, t, Continue(words)), PoolAction(cfg, s, t, Continue(words)))
  {
    InBounds(cfg, s, t);
    var w := s.agents[t].handle.index;
    hide Inv, Pool.Inv, ValidConfig, Size, Capacity, Claim, Take, Refill, TakeSlot, Find, ChooseRoute, LocalFree,
      BeginRemote, RemoteStep, Give, StartLine, IterStep, SwapStep, DrainStep, DrainFree, PoolProjects;
    match s.agents[t].pc
    case FreeLocal(i, k) => LocalFreePool(cfg, s, t, w, i, k);
    case CleanFree(d) => DrainFreePool(cfg, s, t, w, d);
  }

  lemma OtherPool(cfg: Config, s: State, t: nat, words: seq<nat>)
    requires Inv(cfg, s) && Enabled(cfg, s, t, Continue(words))
    requires !s.agents[t].pc.Taking? && !s.agents[t].pc.Giving? && !s.agents[t].pc.FreeLocal? && !s.agents[t].pc.CleanFree?
    ensures PoolProjects(s, t, Apply(cfg, s, t, Continue(words)), PoolAction(cfg, s, t, Continue(words)))
  {
    InBounds(cfg, s, t);
    hide Pool.Inv, Lists.Inv, Slab.Inv, WorkerOk, SlabOk, AgentOk, ValidConfig, Size, Capacity;
  }

  /** Through the global list, every step of the allocator is a step of that list's machine, or none. */
  lemma PoolProjection(cfg: Config, s: State, t: nat, a: Action)
    requires Inv(cfg, s) && Enabled(cfg, s, t, a)
    ensures PoolProjects(s, t, Apply(cfg, s, t, a), PoolAction(cfg, s, t, a))
  {
    hide Inv, Apply, PoolAction, PoolProjects;
    match a
    case Continue(words) =>
      if s.agents[t].pc.Taking? || s.agents[t].pc.Giving? {
        TakingPool(cfg, s, t, words);
      } else if s.agents[t].pc.FreeLocal? || s.agents[t].pc.CleanFree? {
        FreeingPool(cfg, s, t, words);
      } else {
        OtherPool(cfg, s, t, words);
      }
    case _ => CallPool(cfg, s, t, a);
  }

  // ----- whole runs

  /** What a run of the allocator does to slab `i`, event by event. */
  ghost function SlabHistory(cfg: Config, s: State, es: seq<Event>, i: nat): seq<SlabRuns.Event>
    requires ValidConfig(cfg) && Valid(cfg, s, es) && i < cfg.numSlabs
    decreases |es|
  {
    if es == [] then []
    else
      var rest := SlabHistory(cfg, Apply(cfg, s, es[0].tid, es[0].act), es[1..], i);
      match SlabAction(cfg, s, es[0].tid, es[0].act, i)
      case None => rest
      case Some(a) => [SlabRuns.Event(es[0].tid, a)] + rest
  }

  /** Any run of the allocator, seen through one slab, is a run of that slab's machine. */
  lemma {:induction false} SlabRun(cfg: Config, s: State, es: seq<Event>, i: nat)
    requires ValidConfig(cfg) && Inv(cfg, s) && Valid(cfg, s, es) && FreshRun(cfg, s, es) && i < cfg.numSlabs
    ensures i < |s.slabs| && i < |Exec(cfg, s, es).slabs|
    ensures Slab.Inv(s.slabs[i]) && SlabRuns.Valid(s.slabs[i], SlabHistory(cfg, s, es, i))
    ensures SlabRuns.Exec(s.slabs[i], SlabHistory(cfg, s, es, i)) == Exec(cfg, s, es).slabs[i]
    decreases |es|
  {
    assert SlabOk(cfg, s, i);
    hide Inv, Apply, Enabled, SlabAction, Slab.Inv, SlabRuns.Enabled, SlabRuns.Apply;
    if es != [] {
      var t, a := es[0].tid, es[0].act;
      var s1 := Apply(cfg, s, t, a);
      StepKeepsInv(cfg, s, t, a);
      SlabProjection(cfg, s, t, a, i);
      SlabRun(cfg, s1, es[1..], i);
      if SlabAction(cfg, s, t, a, i).Some? {
        var e := SlabRuns.Event(t, SlabAction(cfg, s, t, a, i).value);
        assert ([e] + SlabHistory(cfg, s1, es[1..], i))[1..] == SlabHistory(cfg, s1, es[1..], i);
      }
    }
  }

  /** What a run of the allocator does to the global list, event by event. */
  ghost function PoolHistory(cfg: Config, s: State, es: seq<Event>): seq<PoolRuns.Event>
    requires ValidConfig(cfg) && Inv(cfg, s) && Valid(cfg, s, es) && FreshRun(cfg, s, es)
    decreases |es|
  {
    if es == [] then []
    else
      StepKeepsInv(cfg, s, es[0].tid, es[0].act);
      var rest := PoolHistory(cfg, Apply(cfg, s, es[0].tid, es[0].act), es[1..]);
      match PoolAction(cfg, s, es[0].tid, es[0].act)
      case None => rest
      case Some(a) => [PoolRuns.Event(es[0].tid, a)] + rest
  }

  /** Any run of the allocator, seen through the global list, is a run of that list's machine. */
  lemma {:induction false} PoolRun(cfg: Config, s: State, es: seq<Event>)
    requires ValidConfig(cfg) && Inv(cfg, s) && Valid(cfg, s, es) && FreshRun(cfg, s, es)
    ensures Pool.Inv(s.pool) && PoolRuns.Valid(s.pool, PoolHistory(cfg, s, es))
    ensures forall e :: e in PoolHistory(cfg, s, es) ==> e.tid < |s.pool.ops|
    ensures PoolRuns.Exec(s.pool, PoolHistory(cfg, s, es)) == Exec(cfg, s, es).pool
    decreases |es|
  {
    InvParts(cfg, s);
    hide Inv, Apply, Enabled, PoolAction, Pool.Inv, Pool.Enabled, Pool.Apply;
    if es != [] {
      var t, a := es[0].tid, es[0].act;
      var s1 := Apply(cfg, s, t, a);
      StepKeepsInv(cfg, s, t, a);
      PoolProjection(cfg, s, t, a);
      PoolRun(cfg, s1, es[1..]);
      if PoolAction(cfg, s, t, a).Some? {
        var e := PoolRuns.Event(t, PoolAction(cfg, s, t, a).value);
        assert ([e] + PoolHistory(cfg, s1, es[1..]))[1..] == PoolHistory(cfg, s1, es[1..]);
      }
    }
    PoolRuns.ValidTids(s.pool, PoolHistory(cfg, s, es));
  }

  lemma InvParts(cfg: Config, s: State)
    requires Inv(cfg, s)
    ensures Pool.Inv(s.pool)
  {
  }
}
