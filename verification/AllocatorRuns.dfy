/** Every step of every interleaving keeps the invariant; so every reachable state satisfies it. */
module AllocatorRuns {
  import opened Base
  import opened SizeClasses
  import opened Address
  import opened Allocator
  import opened AllocatorInv
  import AllocatorTake
  import AllocatorAssign
  import AllocatorFree
  import AllocatorRetire
  import AllocatorClean
  import Pool = GlobalFreeList
  import PoolRuns = GlobalFreeListRuns
  import Lists = LocalLists
  import Slab

  // ----- the initial state

  lemma InitialSized(cfg: Config, threads: nat)
    requires ValidConfig(cfg)
    ensures Sized(cfg, Initial(cfg, threads))
  {
    hide ValidConfig, FreshSlab;
    var s := Initial(cfg, threads);
    forall k: Lists.Key
      ensures k in s.local.lists <==> k.worker < cfg.numWorkers && k.sizeIndex < NUM_SIZE_CLASSES
    {
      KeyInRange(cfg, k);
    }
    forall i: nat | i < |s.slabs| ensures |s.slabs[i].ops| == |s.agents| {
      assert s.slabs[i] == FreshSlab(threads);
      FreshSlabOps(threads);
    }
  }

  lemma FreshSlabOps(threads: nat)
    ensures |FreshSlab(threads).ops| == threads
  {
  }

  lemma KeyInRange(cfg: Config, k: Lists.Key)
    ensures k in Keys(cfg) <==> k.worker < cfg.numWorkers && k.sizeIndex < NUM_SIZE_CLASSES
  {
    if k.worker < cfg.numWorkers && k.sizeIndex < NUM_SIZE_CLASSES {
      assert k.worker in Below(cfg.numWorkers) && k.sizeIndex in Below(NUM_SIZE_CLASSES) && k.full in {false, true};
      assert k == Lists.Key(k.worker, k.sizeIndex, k.full);
    }
  }

  lemma FreshSlabOk(threads: nat)
    ensures Slab.Inv(FreshSlab(threads)) && Slab.Quiet(FreshSlab(threads))
  {
    var x := FreshSlab(threads);
    forall t: nat | t < |x.ops| ensures Slab.ThreadOk(x, t, x.ops[t]) {
      assert x.ops[t] == Slab.Idle;
    }
  }

  lemma {:induction false} NothingUsed(slabs: seq<Slab.State>, w: nat)
    requires forall i: nat {:trigger slabs[i]} :: i < |slabs| ==> UsedBy(slabs[i], w) == 0
    ensures Used(slabs, w) == 0
    decreases |slabs|
  {
    hide UsedBy;
    if slabs != [] {
      var n := |slabs| - 1;
      assert forall i: nat :: i < n ==> slabs[..n][i] == slabs[i];
      NothingUsed(slabs[..n], w);
    }
  }

  lemma InitialSlab(cfg: Config, threads: nat, i: nat)
    requires ValidConfig(cfg) && i < cfg.numSlabs
    ensures Sized(cfg, Initial(cfg, threads)) && SlabOk(cfg, Initial(cfg, threads), i)
  {
    var s := Initial(cfg, threads);
    InitialSized(cfg, threads);
    FreshSlabOk(threads);
    hide ValidConfig, Slab.Inv, Pool.Inv, Sized;
    assert s.slabs[i] == FreshSlab(threads) && s.place[i] == InPool;
    assert s.pool.stack[i] == i;
    assert FreshSlab(threads).loc == [];
  }

  lemma InitialAgent(cfg: Config, threads: nat, t: nat)
    requires ValidConfig(cfg) && t < threads
    ensures Sized(cfg, Initial(cfg, threads)) && AgentOk(cfg, Initial(cfg, threads), t)
  {
    var s := Initial(cfg, threads);
    InitialSized(cfg, threads);
    hide ValidConfig;
    assert s.agents[t] == Agent(NoHandle, Idle);
    assert s.pool.ops[t] == Pool.Idle;
    forall j: nat | j < cfg.numSlabs ensures SlabOpFits(Idle, j, s.slabs[j].ops[t]) {
      assert s.slabs[j] == FreshSlab(threads);
    }
  }

  lemma InitialWorker(cfg: Config, threads: nat, w: nat)
    requires ValidConfig(cfg) && w < cfg.numWorkers
    ensures Sized(cfg, Initial(cfg, threads)) && WorkerOk(cfg, Initial(cfg, threads), w)
  {
    var s := Initial(cfg, threads);
    InitialSized(cfg, threads);
    forall i: nat | i < cfg.numSlabs ensures UsedBy(s.slabs[i], w) == 0 {
      assert s.slabs[i] == FreshSlab(threads);
    }
    NothingUsed(s.slabs, w);
  }

  /** All slabs are in the pool, all lists are empty, nobody holds a worker: the invariant holds. */
  lemma InitialInv(cfg: Config, threads: nat)
    requires ValidConfig(cfg)
    ensures Inv(cfg, Initial(cfg, threads))
  {
    var s := Initial(cfg, threads);
    InitialSized(cfg, threads);
    InitialLists(cfg, threads);
    hide Slab.Inv, Pool.Inv, Lists.Inv, SlabOk, AgentOk, WorkerOk, Initial;
    forall i: nat | i < cfg.numSlabs ensures SlabOk(cfg, s, i) { InitialSlab(cfg, threads, i); }
    forall t: nat | t < |s.agents| ensures AgentOk(cfg, s, t) { InitialAgent(cfg, threads, t); }
    forall w: nat | w < cfg.numWorkers ensures WorkerOk(cfg, s, w) { InitialWorker(cfg, threads, w); }
  }

  lemma InitialLists(cfg: Config, threads: nat)
    requires ValidConfig(cfg)
    ensures Pool.Inv(Initial(cfg, threads).pool) && Lists.Inv(Initial(cfg, threads).local)
    ensures |Initial(cfg, threads).agents| == threads
  {
    PoolRuns.InitialInv(cfg.numSlabs, threads);
    hide Pool.Inv;
  }

  // ----- one step

  /** A handle inside a call never holds an index out of bounds. */
  lemma InBounds(cfg: Config, s: State, t: nat)
    requires Inv(cfg, s) && t < |s.agents|
    ensures PcInBounds(cfg, s.agents[t]) && s.agents[t].pc != Panicked && cfg.slabSize > 0
  {
    hide Pool.Inv, Lists.Inv, Slab.Inv, SlabOk, WorkerOk;
    assert AgentOk(cfg, s, t);
    SlabSizeBound(cfg.slabSize);
    LinesFit(cfg, s, t);
  }

  lemma LinesFit(cfg: Config, s: State, t: nat)
    requires Inv(cfg, s) && t < |s.agents|
    ensures s.agents[t].pc.CleanDrain? ==> s.agents[t].pc.drain.slab < cfg.numSlabs
    ensures s.agents[t].pc.CleanFree? ==> s.agents[t].pc.drain.slab < cfg.numSlabs
  {
    hide Pool.Inv, Lists.Inv, Slab.Inv, SlabOk, WorkerOk, Midway;
    assert AgentOk(cfg, s, t);
  }

  predicate AllocPc(pc: Pc) {
    pc.Claiming? || pc.Taking? || pc.StoreOwner? || pc.StoreClass? || pc.ClearRemote? || pc.ResetStack? || pc.AllocSlot?
  }

  predicate FreePc(pc: Pc) {
    pc.FindBlock? || pc.Route? || pc.FreeLocal? || pc.FreeRemote? || pc.RemotePush?
  }

  predicate CleanPc(pc: Pc) {
    pc.Giving? || pc.CleanLine? || pc.CleanIter? || pc.CleanSwap? || pc.CleanDrain? || pc.CleanFree?
  }

  lemma AllocContinueKeeps(cfg: Config, s: State, t: nat, words: seq<nat>)
    requires Inv(cfg, s) && Fresh(s, t) && Enabled(cfg, s, t, Continue(words))
    requires AllocPc(s.agents[t].pc)
    ensures Inv(cfg, Apply(cfg, s, t, Continue(words)))
  {
    InBounds(cfg, s, t);
    var w := if s.agents[t].handle.Worker? then s.agents[t].handle.index else 0;
    hide Inv, Claim, Take, Refill, TakeSlot, Find, ChooseRoute, LocalFree, BeginRemote, RemoteStep, Give,
      StartLine, IterStep, SwapStep, DrainStep, DrainFree, ValidConfig;
    match s.agents[t].pc
    case Claiming(n) => AllocatorTake.ClaimKeeps(cfg, s, t, n);
    case Taking(c) => AllocatorTake.TakeKeeps(cfg, s, t, c);
    case StoreOwner(c, i) => AllocatorAssign.StoreOwnerKeeps(cfg, s, t, c, i, w);
    case StoreClass(c, i) => AllocatorAssign.StoreClassKeeps(cfg, s, t, c, i);
    case ClearRemote(c, i) => AllocatorAssign.ClearRemoteKeeps(cfg, s, t, c, i);
    case ResetStack(c, i) => AllocatorAssign.RefillKeeps(cfg, s, t, w, c, i, words);
    case AllocSlot(c, i) => AllocatorAssign.TakeSlotKeeps(cfg, s, t, w, c, i);
  }

  lemma RemoteContinueKeeps(cfg: Config, s: State, t: nat, words: seq<nat>)
    requires Inv(cfg, s) && Fresh(s, t) && Enabled(cfg, s, t, Continue(words))
    requires s.agents[t].pc.FreeRemote? || s.agents[t].pc.RemotePush?
    ensures Inv(cfg, Apply(cfg, s, t, Continue(words)))
  {
    InBounds(cfg, s, t);
    hide Inv, Claim, Take, Refill, TakeSlot, Find, ChooseRoute, LocalFree, BeginRemote, RemoteStep, Give,
      StartLine, IterStep, SwapStep, DrainStep, DrainFree, ValidConfig;
    match s.agents[t].pc
    case FreeRemote(i, k) => AllocatorFree.BeginRemoteKeeps(cfg, s, t, i, k);
    case RemotePush(i, c) => AllocatorFree.RemoteStepKeeps(cfg, s, t, i, c);
  }

  lemma FreeContinueKeeps(cfg: Config, s: State, t: nat, words: seq<nat>)
    requires Inv(cfg, s) && Fresh(s, t) && Enabled(cfg, s, t, Continue(words))
    requires s.agents[t].pc.FindBlock? || s.agents[t].pc.Route? || s.agents[t].pc.FreeLocal?
    ensures Inv(cfg, Apply(cfg, s, t, Continue(words)))
  {
    InBounds(cfg, s, t);
    var w := if s.agents[t].handle.Worker? then s.agents[t].handle.index else 0;
    hide Inv, Claim, Take, Refill, TakeSlot, Find, ChooseRoute, LocalFree, BeginRemote, RemoteStep, Give,
      StartLine, IterStep, SwapStep, DrainStep, DrainFree, ValidConfig;
    match s.agents[t].pc
    case FindBlock(offset, i, k) => AllocatorFree.FindKeeps(cfg, s, t, offset, i, k);
    case Route(i, k) => AllocatorFree.ChooseRouteKeeps(cfg, s, t, w, i, k);
    case FreeLocal(i, k) => AllocatorRetire.LocalFreeKeeps(cfg, s, t, w, i, k);
  }

  lemma WalkContinueKeeps(cfg: Config, s: State, t: nat, words: seq<nat>)
    requires Inv(cfg, s) && Fresh(s, t) && Enabled(cfg, s, t, Continue(words))
    requires s.agents[t].pc.CleanLine? || s.agents[t].pc.CleanIter?
    ensures Inv(cfg, Apply(cfg, s, t, Continue(words)))
  {
    InBounds(cfg, s, t);
    var w := if s.agents[t].handle.Worker? then s.agents[t].handle.index else 0;
    hide Inv, Claim, Take, Refill, TakeSlot, Find, ChooseRoute, LocalFree, BeginRemote, RemoteStep, Give,
      StartLine, IterStep, SwapStep, DrainStep, DrainFree, ValidConfig;
    match s.agents[t].pc
    case CleanLine(line, walk) => AllocatorClean.StartLineKeeps(cfg, s, t, w, line, walk);
    case CleanIter(line, cursor, walk) => AllocatorClean.IterKeeps(cfg, s, t, w, line, cursor, walk);
  }

  lemma SwapContinueKeeps(cfg: Config, s: State, t: nat, words: seq<nat>)
    requires Inv(cfg, s) && Fresh(s, t) && Enabled(cfg, s, t, Continue(words)) && s.agents[t].pc.CleanSwap?
    ensures Inv(cfg, Apply(cfg, s, t, Continue(words)))
  {
    InBounds(cfg, s, t);
    hide Inv, Claim, Take, Refill, TakeSlot, Find, ChooseRoute, LocalFree, BeginRemote, RemoteStep, Give,
      StartLine, IterStep, SwapStep, DrainStep, DrainFree, ValidConfig;
    var pc := s.agents[t].pc;
    AllocatorClean.SwapKeeps(cfg, s, t, s.agents[t].handle.index, pc.line, pc.next, pc.slab, pc.c, pc.walk);
  }

  lemma GivingContinueKeeps(cfg: Config, s: State, t: nat, words: seq<nat>)
    requires Inv(cfg, s) && Fresh(s, t) && Enabled(cfg, s, t, Continue(words)) && s.agents[t].pc.Giving?
    ensures Inv(cfg, Apply(cfg, s, t, Continue(words)))
  {
    InBounds(cfg, s, t);
    hide Inv, Claim, Take, Refill, TakeSlot, Find, ChooseRoute, LocalFree, BeginRemote, RemoteStep, Give,
      StartLine, IterStep, SwapStep, DrainStep, DrainFree, ValidConfig;
    AllocatorClean.GiveKeeps(cfg, s, t, s.agents[t].pc.slab, s.agents[t].pc.after);
  }

  lemma DrainStepContinueKeeps(cfg: Config, s: State, t: nat, words: seq<nat>)
    requires Inv(cfg, s) && Fresh(s, t) && Enabled(cfg, s, t, Continue(words)) && s.agents[t].pc.CleanDrain?
    ensures Inv(cfg, Apply(cfg, s, t, Continue(words)))
  {
    InBounds(cfg, s, t);
    hide Inv, Claim, Take, Refill, TakeSlot, Find, ChooseRoute, LocalFree, BeginRemote, RemoteStep, Give,
      StartLine, IterStep, SwapStep, DrainStep, DrainFree, ValidConfig;
    AllocatorClean.DrainStepKeeps(cfg, s, t, s.agents[t].handle.index, s.agents[t].pc.drain);
  }

  lemma DrainFreeContinueKeeps(cfg: Config, s: State, t: nat, words: seq<nat>)
    requires Inv(cfg, s) && Fresh(s, t) && Enabled(cfg, s, t, Continue(words)) && s.agents[t].pc.CleanFree?
    ensures Inv(cfg, Apply(cfg, s, t, Continue(words)))
  {
    InBounds(cfg, s, t);
    hide Inv, Claim, Take, Refill, TakeSlot, Find, ChooseRoute, LocalFree, BeginRemote, RemoteStep, Give,
      StartLine, IterStep, SwapStep, DrainStep, DrainFree, ValidConfig;
    AllocatorClean.DrainFreeKeeps(cfg, s, t, s.agents[t].handle.index, s.agents[t].pc.drain);
  }

  lemma ContinueKeeps(cfg: Config, s: State, t: nat, words: seq<nat>)
    requires Inv(cfg, s) && Fresh(s, t) && Enabled(cfg, s, t, Continue(words))
    ensures Inv(cfg, Apply(cfg, s, t, Continue(words)))
  {
    hide Inv, Apply;
    if AllocPc(s.agents[t].pc) {
      AllocContinueKeeps(cfg, s, t, words);
    } else if s.agents[t].pc.FreeRemote? || s.agents[t].pc.RemotePush? {
      RemoteContinueKeeps(cfg, s, t, words);
    } else if FreePc(s.agents[t].pc) {
      FreeContinueKeeps(cfg, s, t, words);
    } else if s.agents[t].pc.CleanLine? || s.agents[t].pc.CleanIter? {
      WalkContinueKeeps(cfg, s, t, words);
    } else if s.agents[t].pc.CleanSwap? {
      SwapContinueKeeps(cfg, s, t, words);
    } else if s.agents[t].pc.Giving? {
      GivingContinueKeeps(cfg, s, t, words);
    } else if s.agents[t].pc.CleanDrain? {
      DrainStepContinueKeeps(cfg, s, t, words);
    } else {
      DrainFreeContinueKeeps(cfg, s, t, words);
    }
  }

  /** The freshness hypothesis concerns only the exchange that ends a pop. */
  predicate FreshStep(s: State, t: nat, a: Action) {
    a.Continue? ==> Fresh(s, t)
  }

  /** One step of any handle keeps the invariant of the whole allocator. */
  lemma StepKeepsInv(cfg: Config, s: State, t: nat, a: Action)
    requires Inv(cfg, s) && FreshStep(s, t, a) && Enabled(cfg, s, t, a)
    ensures Inv(cfg, Apply(cfg, s, t, a))
  {
    hide Inv, Apply;
    match a
    case Join => AllocatorTake.JoinKeeps(cfg, s, t);
    case JoinFreeOnly => AllocatorTake.JoinFreeOnlyKeeps(cfg, s, t);
    case Drop => AllocatorTake.DropKeeps(cfg, s, t);
    case CallAllocate(size) => AllocatorTake.AllocateKeeps(cfg, s, t, size);
    case CallFree(i, k) => AllocatorFree.BeginFreeKeeps(cfg, s, t, i, k);
    case CallClean => AllocatorClean.BeginCleanKeeps(cfg, s, t);
    case Write(i, k, v) => AllocatorFree.WriteKeeps(cfg, s, t, i, k, v);
    case Continue(words) => ContinueKeeps(cfg, s, t, words);
  }

  // ----- runs

  datatype Event = Event(tid: nat, act: Action)

  ghost predicate Valid(cfg: Config, s: State, es: seq<Event>)
    requires ValidConfig(cfg)
    decreases |es|
  {
    es == [] || (Enabled(cfg, s, es[0].tid, es[0].act) && Valid(cfg, Apply(cfg, s, es[0].tid, es[0].act), es[1..]))
  }

  ghost function Exec(cfg: Config, s: State, es: seq<Event>): State
    requires ValidConfig(cfg) && Valid(cfg, s, es)
    decreases |es|
  {
    if es == [] then s else Exec(cfg, Apply(cfg, s, es[0].tid, es[0].act), es[1..])
  }

  ghost predicate FreshRun(cfg: Config, s: State, es: seq<Event>)
    requires ValidConfig(cfg) && Valid(cfg, s, es)
    decreases |es|
  {
    es == [] || (FreshStep(s, es[0].tid, es[0].act) && FreshRun(cfg, Apply(cfg, s, es[0].tid, es[0].act), es[1..]))
  }

  lemma {:induction false} RunKeepsInv(cfg: Config, s: State, es: seq<Event>)
    requires ValidConfig(cfg) && Inv(cfg, s) && Valid(cfg, s, es) && FreshRun(cfg, s, es)
    ensures Inv(cfg, Exec(cfg, s, es))
    decreases |es|
  {
    hide Inv, Apply, Enabled;
    if es != [] {
      StepKeepsInv(cfg, s, es[0].tid, es[0].act);
      RunKeepsInv(cfg, Apply(cfg, s, es[0].tid, es[0].act), es[1..]);
    }
  }

  /** Reached from the initial state by some interleaving whose pops are fresh. */
  ghost predicate Reachable(cfg: Config, s: State)
    requires ValidConfig(cfg)
  {
    exists threads: nat, es: seq<Event> :: ReachedBy(cfg, s, threads, es)
  }

  ghost predicate ReachedBy(cfg: Config, s: State, threads: nat, es: seq<Event>)
    requires ValidConfig(cfg)
  {
    && Valid(cfg, Initial(cfg, threads), es) && FreshRun(cfg, Initial(cfg, threads), es)
    && Exec(cfg, Initial(cfg, threads), es) == s
  }

  /** The invariant holds in every reachable state, for any number of handles and any schedule. */
  lemma ReachableInv(cfg: Config, s: State)
    requires ValidConfig(cfg) && Reachable(cfg, s)
    ensures Inv(cfg, s)
  {
    hide Inv, Initial;
    var threads: nat, es: seq<Event> :| ReachedBy(cfg, s, threads, es);
    InitialInv(cfg, threads);
    RunKeepsInv(cfg, Initial(cfg, threads), es);
  }
}
