/** Steps that join and leave, and that move slabs between the global list and the workers. */
module AllocatorTake {
  import opened Base
  import opened SizeClasses
  import opened Address
  import opened Allocator
  import opened AllocatorInv
  import Pool = GlobalFreeList
  import Lists = LocalLists
  import Slab

  // ----- join and leave

  lemma JoinKeeps(cfg: Config, s: State, t: nat)
    requires Inv(cfg, s) && Enabled(cfg, s, t, Join)
    ensures Inv(cfg, Apply(cfg, s, t, Join))
  {
    assert AgentOk(cfg, s, t);
    PcStep(cfg, s, t, Claiming(0));
  }

  lemma JoinFreeOnlyKeeps(cfg: Config, s: State, t: nat)
    requires Inv(cfg, s) && Enabled(cfg, s, t, JoinFreeOnly)
    ensures Inv(cfg, Apply(cfg, s, t, JoinFreeOnly))
  {
    hide Pool.Inv, Lists.Inv, Slab.Inv, SlabOk, ValidConfig;
    var s' := Apply(cfg, s, t, JoinFreeOnly);
    assert AgentOk(cfg, s, t);
    assert OnlyAgent(cfg, s, s', t);
    assert Shape(cfg, s, s', t, NoSlab(cfg));
    forall v: nat | v < cfg.numWorkers ensures WorkerOk(cfg, s', v) {
      assert WorkerOk(cfg, s, v);
      OtherWorker(cfg, s, s', t, NoSlab(cfg), v);
    }
    Assemble(cfg, s, s', t, NoSlab(cfg));
  }

  lemma DropFreeOnlyKeeps(cfg: Config, s: State, t: nat)
    requires Inv(cfg, s) && Enabled(cfg, s, t, Drop) && s.agents[t].handle == FreeOnly
    ensures Inv(cfg, Apply(cfg, s, t, Drop))
  {
    hide Pool.Inv, Lists.Inv, Slab.Inv, SlabOk, ValidConfig;
    var s' := Apply(cfg, s, t, Drop);
    assert AgentOk(cfg, s, t);
    assert Shape(cfg, s, s', t, NoSlab(cfg));
    forall v: nat | v < cfg.numWorkers ensures WorkerOk(cfg, s', v) {
      assert WorkerOk(cfg, s, v);
      OtherWorker(cfg, s, s', t, NoSlab(cfg), v);
    }
    Assemble(cfg, s, s', t, NoSlab(cfg));
  }

  /** The claim flag is cleared; the worker's lists, slabs and counter stay for the next claimant. */
  lemma DropWorkerKeeps(cfg: Config, s: State, t: nat)
    requires Inv(cfg, s) && Enabled(cfg, s, t, Drop) && s.agents[t].handle.Worker?
    ensures Inv(cfg, Apply(cfg, s, t, Drop))
  {
    hide Pool.Inv, Lists.Inv, Slab.Inv, SlabOk, ValidConfig;
    var s' := Apply(cfg, s, t, Drop);
    assert AgentOk(cfg, s, t);
    assert Shape(cfg, s, s', t, NoSlab(cfg));
    forall v: nat | v < cfg.numWorkers ensures WorkerOk(cfg, s', v) {
      assert WorkerOk(cfg, s, v);
      if s.agents[t].handle != Worker(v) { OtherWorker(cfg, s, s', t, NoSlab(cfg), v); }
    }
    Assemble(cfg, s, s', t, NoSlab(cfg));
  }

  lemma DropKeeps(cfg: Config, s: State, t: nat)
    requires Inv(cfg, s) && Enabled(cfg, s, t, Drop)
    ensures Inv(cfg, Apply(cfg, s, t, Drop))
  {
    hide Inv;
    if s.agents[t].handle.Worker? { DropWorkerKeeps(cfg, s, t); } else { DropFreeOnlyKeeps(cfg, s, t); }
  }

  lemma ClaimKeeps(cfg: Config, s: State, t: nat, n: nat)
    requires Inv(cfg, s) && t < |s.agents| && s.agents[t].pc == Claiming(n)
    ensures Inv(cfg, Claim(cfg, s, t, n))
  {
    hide Pool.Inv, Lists.Inv, Slab.Inv, SlabOk, ValidConfig;
    assert AgentOk(cfg, s, t);
    if n >= cfg.numWorkers {
      PcStep(cfg, s, t, Idle);
    } else if s.claimed[n] {
      PcStep(cfg, s, t, Claiming(n + 1));
    } else {
      var s' := Claim(cfg, s, t, n);
      assert WorkerOk(cfg, s, n);
      assert OnlyAgent(cfg, s, s', t);
      assert Shape(cfg, s, s', t, NoSlab(cfg));
      forall v: nat | v < cfg.numWorkers ensures WorkerOk(cfg, s', v) {
        assert WorkerOk(cfg, s, v);
        if v != n { OtherWorker(cfg, s, s', t, NoSlab(cfg), v); }
      }
      Assemble(cfg, s, s', t, NoSlab(cfg));
    }
  }

  // ----- the pool, seen from the allocator

  /** A step of the thread's own operation on the global list that changes no slab's place. */
  lemma PoolOnly(cfg: Config, s: State, s': State, t: nat)
    requires Inv(cfg, s) && t < |s.agents| == |s'.agents|
    requires s' == s.(pool := s'.pool, agents := s.agents[t := Agent(s.agents[t].handle, s'.agents[t].pc)])
    requires Pool.Inv(s'.pool) && s'.pool.stack == s.pool.stack && |s'.pool.links| == |s.pool.links|
    requires |s'.pool.ops| == |s.pool.ops| && s'.pool.ops == s.pool.ops[t := s'.pool.ops[t]]
    requires !s.agents[t].pc.AllocSlot? && Carries(s', t) == Carries(s, t)
    requires OwedBy(s'.agents[t].pc) == OwedBy(s.agents[t].pc)
    requires AgentOk(cfg, s', t)
    ensures Inv(cfg, s')
  {
    hide Pool.Inv, Lists.Inv, Slab.Inv, SlabOk, ValidConfig, WorkerOk, AgentOk;
    assert OnlyAgent(cfg, s, s', t);
    assert OnlySlab(cfg, s, s', t, NoSlab(cfg));
    assert Shape(cfg, s, s', t, NoSlab(cfg));
    AssembleSame(cfg, s, s', t, NoSlab(cfg));
  }

  /** `allocate` up to its first shared access. */
  lemma AllocateKeeps(cfg: Config, s: State, t: nat, size: nat)
    requires Inv(cfg, s) && Enabled(cfg, s, t, CallAllocate(size))
    ensures Inv(cfg, Apply(cfg, s, t, CallAllocate(size)))
  {
    assert AgentOk(cfg, s, t);
    LeastClass(size);
    if size > 0 && SizeClassIndex(size).Some? {
      var w, c := s.agents[t].handle.index, SizeClassIndex(size).value;
      var k := Lists.Key(w, c, false);
      Lists.ReadHead(s.local, k);
      if s.local.lists[k] == [] {
        CallPopKeeps(cfg, s, t, c);
      } else {
        var i := s.local.heads[k];
        assert i == s.local.lists[k][0] && i in s.local.lists[k];
        assert SlabOk(cfg, s, i);
        PcStep(cfg, s, t, AllocSlot(c, i));
      }
    }
  }

  lemma CallPopKeeps(cfg: Config, s: State, t: nat, c: nat)
    requires Inv(cfg, s) && t < |s.agents| && s.agents[t].pc == Idle && s.agents[t].handle.Worker?
    requires c < NUM_SIZE_CLASSES
    ensures Inv(cfg, s.Op(t, Pool.PopStart).Pc(t, Taking(c)))
  {
    assert AgentOk(cfg, s, t);
    Pool.KeepOnCall(s.pool, t, Pool.CallPop);
    PoolOnly(cfg, s, s.Op(t, Pool.PopStart).Pc(t, Taking(c)), t);
  }

  /** What `Advance` does to a pop in progress. */
  lemma PopAdvances(p: Pool.State, t: nat)
    requires Pool.Inv(p) && Pool.Fresh(p, t) && t < |p.ops| && Taken(p.ops[t])
    requires !p.ops[t].Popped? && !p.ops[t].PopFailed?
    ensures var p' := Pool.Advance(p, t);
            && Pool.Inv(p') && Taken(p'.ops[t]) && |p'.links| == |p.links|
            && |p'.ops| == |p.ops| && p'.ops == p.ops[t := p'.ops[t]]
            && match Pool.EffectOf(p, t, Pool.Continue)
               case Nothing => p'.stack == p.stack && Pool.Carried(p'.ops[t]) == Pool.Carried(p.ops[t])
               case Took(i) => p.stack != [] && i == p.stack[0] && p'.stack == p.stack[1..]
                               && Pool.Carried(p.ops[t]) == None && Pool.Carried(p'.ops[t]) == Some(i)
               case Pushed(_) => false
  {
    Pool.StepKeepsInv(p, t, Pool.Continue);
    assert Pool.OpOk(p, p.ops[t]);
    if p.ops[t].PopSwap? && p.head == p.ops[t].seen { Pool.PopTakesTop(p, t); }
    assert Pool.OpOk(Pool.Advance(p, t), Pool.Advance(p, t).ops[t]);
  }

  /** A slab popped from the global list goes, quiet, into the hands of the handle that popped it. */
  lemma TookKeeps(cfg: Config, s: State, t: nat, c: nat, i: nat)
    requires Inv(cfg, s) && Fresh(s, t) && t < |s.agents| && s.agents[t].pc == Taking(c)
    requires !s.pool.ops[t].Popped? && !s.pool.ops[t].PopFailed?
    requires Pool.EffectOf(s.pool, t, Pool.Continue) == Pool.Took(i)
    ensures Inv(cfg, PoolStep(cfg, s, t))
  {
    assert AgentOk(cfg, s, t);
    PopAdvances(s.pool, t);
    var s' := PoolStep(cfg, s, t);
    assert i in s.pool.stack;
    Pool.StackTop(s.pool);
    LinkedFirst(s.pool.links, Pool.Index(s.pool.head), s.pool.stack, NULL_U32);
    assert SlabOk(cfg, s, i);
    TopLeaves(s.pool.stack);
    assert OnlyAgent(cfg, s, s', t);
    assert OwnChange(s, s', t, i);
    assert OnlySlab(cfg, s, s', t, i);
    assert Shape(cfg, s, s', t, i);
    assert PlaceOk(s', i);
    assert SlabOk(cfg, s', i);
    assert AgentOk(cfg, s', t);
    AssembleSame(cfg, s, s', t, i);
  }

  lemma TopLeaves(xs: seq<nat>)
    requires NoDup(xs) && xs != []
    ensures forall j: nat :: j in xs[1..] <==> j in xs && j != xs[0]
  {
    assert xs == [xs[0]] + xs[1..];
  }

  /** The pop returned: the operation ends and the slab, if any, is the handle's to assign. */
  lemma ReturnKeeps(cfg: Config, s: State, t: nat, c: nat)
    requires Inv(cfg, s) && t < |s.agents| && s.agents[t].pc == Taking(c)
    requires s.pool.ops[t].Popped? || s.pool.ops[t].PopFailed?
    ensures Inv(cfg, Take(cfg, s, t, c))
  {
    hide Pool.Inv, Lists.Inv, Slab.Inv, SlabOk, ValidConfig, WorkerOk;
    assert AgentOk(cfg, s, t);
    KeepOnReturn(s.pool, t);
    PoolOnly(cfg, s, Take(cfg, s, t, c), t);
  }

  lemma KeepOnReturn(p: Pool.State, t: nat)
    requires Pool.Inv(p) && t < |p.ops| && (p.ops[t].Popped? || p.ops[t].PopFailed?)
    ensures Pool.Inv(p.At(t, Pool.Idle))
  {
    Pool.KeepOnCall(p, t, Pool.Return);
  }

  lemma PopStutterKeeps(cfg: Config, s: State, t: nat, c: nat)
    requires Inv(cfg, s) && Fresh(s, t) && t < |s.agents| && s.agents[t].pc == Taking(c)
    requires !s.pool.ops[t].Popped? && !s.pool.ops[t].PopFailed?
    requires Pool.EffectOf(s.pool, t, Pool.Continue) == Pool.Nothing
    ensures Inv(cfg, PoolStep(cfg, s, t))
  {
    hide Pool.Inv, Lists.Inv, Slab.Inv, SlabOk, ValidConfig, WorkerOk;
    assert AgentOk(cfg, s, t);
    PopAdvances(s.pool, t);
    var s' := PoolStep(cfg, s, t);
    assert s'.agents == s.agents[t := s.agents[t]];
    PoolOnly(cfg, s, s', t);
  }

  lemma TakeKeeps(cfg: Config, s: State, t: nat, c: nat)
    requires Inv(cfg, s) && Fresh(s, t) && t < |s.agents| && s.agents[t].pc == Taking(c)
    ensures Inv(cfg, Take(cfg, s, t, c))
  {
    assert AgentOk(cfg, s, t);
    hide Inv, AgentOk;
    if s.pool.ops[t].Popped? || s.pool.ops[t].PopFailed? {
      ReturnKeeps(cfg, s, t, c);
    } else {
      InvParts(cfg, s);
      PopAdvances(s.pool, t);
      match Pool.EffectOf(s.pool, t, Pool.Continue)
      case Took(i) => TookKeeps(cfg, s, t, c, i);
      case Nothing => PopStutterKeeps(cfg, s, t, c);
    }
  }

  lemma InvParts(cfg: Config, s: State)
    requires Inv(cfg, s)
    ensures ValidConfig(cfg) && Sized(cfg, s) && Pool.Inv(s.pool) && Lists.Inv(s.local)
  {
  }
}
