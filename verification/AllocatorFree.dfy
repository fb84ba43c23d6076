/** Steps that give blocks back, locally and remotely. */
module AllocatorFree {
  import opened Base
  import opened SizeClasses
  import opened Address
  import opened Allocator
  import opened AllocatorInv
  import opened AllocatorAssign
  import Pool = GlobalFreeList
  import Lists = LocalLists
  import Slab

  /** A step inside one slab that leaves its free stack and its metadata alone. */
  ghost predicate Interior(x: Slab.State, y: Slab.State, t: nat)
    requires t < |x.ops|
  {
    && y.free == x.free && y.capacity == x.capacity && y.owner == x.owner && y.sizeIndex == x.sizeIndex
    && |y.ops| == |x.ops| && y.ops == x.ops[t := y.ops[t]]
    && |y.loc| == |x.loc|
    && forall k: nat {:trigger y.loc[k]} :: k < |y.loc| && y.loc[k].Live? ==> y.loc[k] == x.loc[k]
  }

  lemma InteriorSlab(cfg: Config, s: State, s': State, t: nat, i: nat)
    requires Inv(cfg, s) && Sized(cfg, s') && t < |s.agents| == |s'.agents| && i < cfg.numSlabs
    requires Interior(s.slabs[i], s'.slabs[i], t) && Slab.Inv(s'.slabs[i])
    requires s'.place == s.place && s'.pool == s.pool && s'.local == s.local && s'.holder == s.holder
    requires s'.agents == s.agents[t := s'.agents[t]]
    requires Carries(s', t) == Carries(s, t)
    requires s.agents[t].pc.AllocSlot? ==> s'.agents[t].pc == s.agents[t].pc
    ensures SlabOk(cfg, s', i)
  {
    hide Pool.Inv, Lists.Inv, ValidConfig, WorkerOk, AgentOk;
    assert SlabOk(cfg, s, i);
    Slab.FullIffQuiet(s.slabs[i]);
    Slab.FullIffQuiet(s'.slabs[i]);
    assert PlaceOk(s', i);
  }

  lemma InteriorStep(cfg: Config, s: State, t: nat, i: nat, y: Slab.State, pc: Pc)
    requires Inv(cfg, s) && t < |s.agents| && i < cfg.numSlabs
    requires Interior(s.slabs[i], y, t) && Slab.Inv(y)
    requires Carries(s.Pc(t, pc), t) == Carries(s, t) && OwedBy(pc) == OwedBy(s.agents[t].pc)
    requires s.agents[t].pc.AllocSlot? ==> pc == s.agents[t].pc
    requires AgentOk(cfg, s.Put(i, y).Pc(t, pc), t)
    ensures Inv(cfg, s.Put(i, y).Pc(t, pc))
  {
    hide Pool.Inv, Lists.Inv, Slab.Inv, ValidConfig, WorkerOk, AgentOk, SlabOk, Shape;
    var s' := s.Put(i, y).Pc(t, pc);
    InteriorSlab(cfg, s, s', t, i);
    InteriorShape(cfg, s, s', t, i);
    AssembleSame(cfg, s, s', t, i);
  }

  /** Such a step touches nothing but slab `i` and handle `t`'s own progress. */
  lemma InteriorShape(cfg: Config, s: State, s': State, t: nat, i: nat)
    requires Sized(cfg, s) && Sized(cfg, s') && t < |s.agents| == |s'.agents| && i < cfg.numSlabs
    requires Interior(s.slabs[i], s'.slabs[i], t) && s'.slabs == s.slabs[i := s'.slabs[i]]
    requires s'.place == s.place && s'.pool == s.pool && s'.local == s.local && s'.holder == s.holder
    requires s'.agents == s.agents[t := s'.agents[t]] && Carries(s', t) == Carries(s, t)
    requires s.agents[t].pc.AllocSlot? ==> s'.agents[t] == s.agents[t]
    ensures Shape(cfg, s, s', t, i)
  {
    assert OnlyAgent(cfg, s, s', t);
    assert OwnChange(s, s', t, i);
    assert OnlySlab(cfg, s, s', t, i);
  }

  // ----- the client side

  /** The holder of a live block may write anything into it. */
  lemma WriteKeeps(cfg: Config, s: State, t: nat, i: nat, k: nat, v: nat)
    requires Inv(cfg, s) && Enabled(cfg, s, t, Write(i, k, v))
    ensures Inv(cfg, Apply(cfg, s, t, Write(i, k, v)))
  {
    hide Pool.Inv, Lists.Inv, Slab.Inv, ValidConfig, WorkerOk;
    assert SlabOk(cfg, s, i) && AgentOk(cfg, s, t);
    var x := s.slabs[i];
    var y := Slab.Scribble(x, k, v);
    Slab.ScribbleKeeps(x, k, v);
    assert y.ops == x.ops[t := x.ops[t]];
    var s' := s.Put(i, y).Pc(t, s.agents[t].pc);
    assert s.agents == s.agents[t := s.agents[t]];
    assert s' == Apply(cfg, s, t, Write(i, k, v));
    WriteAgent(cfg, s, s', t, i);
    InteriorStep(cfg, s, t, i, y, s.agents[t].pc);
  }

  lemma WriteAgent(cfg: Config, s: State, s': State, t: nat, i: nat)
    requires Sized(cfg, s) && Sized(cfg, s') && t < |s.agents| && AgentOk(cfg, s, t) && i < cfg.numSlabs
    requires s' == s.(slabs := s'.slabs) && s'.slabs == s.slabs[i := s'.slabs[i]]
    requires s'.slabs[i].ops == s.slabs[i].ops && s'.slabs[i].free == s.slabs[i].free
    requires s'.slabs[i].owner == s.slabs[i].owner && s'.slabs[i].sizeIndex == s.slabs[i].sizeIndex
    ensures AgentOk(cfg, s', t)
  {
    hide Midway, Ahead, Size;
    assert forall j: nat {:trigger s'.slabs[j]} :: j < cfg.numSlabs ==>
      s'.slabs[j].ops == s.slabs[j].ops && s'.slabs[j].free == s.slabs[j].free
      && s'.slabs[j].owner == s.slabs[j].owner && s'.slabs[j].sizeIndex == s.slabs[j].sizeIndex;
  }

  lemma BeginFreeKeeps(cfg: Config, s: State, t: nat, i: nat, k: nat)
    requires Inv(cfg, s) && Enabled(cfg, s, t, CallFree(i, k))
    ensures Inv(cfg, Apply(cfg, s, t, CallFree(i, k)))
  {
    hide Pool.Inv, Lists.Inv, Slab.Inv, ValidConfig, WorkerOk;
    assert SlabOk(cfg, s, i) && AgentOk(cfg, s, t);
    assert SlabOpFits(Idle, i, s.slabs[i].ops[t]);
    var x := s.slabs[i];
    var y := Slab.BeginFree(x, t, k);
    Slab.BeginFreeKeeps(x, t, k);
    InteriorStep(cfg, s, t, i, y, FindBlock(x.loc[k].offset, i, k));
  }

  // ----- routing

  /** The slot a handle holds is below its slab's capacity, and the slab is cut for its class. */
  lemma HeldSlot(cfg: Config, s: State, t: nat, i: nat)
    requires Inv(cfg, s) && t < |s.agents| && i < cfg.numSlabs && Slab.Held(s.slabs[i].ops[t]).Some?
    ensures s.slabs[i].sizeIndex < NUM_SIZE_CLASSES
    ensures s.slabs[i].capacity == Capacity(cfg, s.slabs[i].sizeIndex) == |s.slabs[i].loc| == |s.slabs[i].words|
    ensures Slab.Held(s.slabs[i].ops[t]).value < s.slabs[i].capacity
    ensures s.place[i] == Listed(Lists.Key(s.slabs[i].owner, s.slabs[i].sizeIndex, s.slabs[i].free == []))
    ensures |s.slabs[i].free| < s.slabs[i].capacity
  {
    EngagedIsListed(cfg, s, i, t);
    assert SlabOk(cfg, s, i);
    assert Slab.ThreadOk(s.slabs[i], t, s.slabs[i].ops[t]);
    Slab.RoomForHeld(s.slabs[i], t);
  }

  /** The slab and slot computed from the offset, through the class read now, are the ones allocated. */
  lemma FindExact(cfg: Config, s: State, t: nat, offset: nat, i: nat, k: nat)
    requires Inv(cfg, s) && t < |s.agents| && s.agents[t].pc == FindBlock(offset, i, k)
    ensures i < cfg.numSlabs && s.slabs[i].sizeIndex < NUM_SIZE_CLASSES && cfg.slabSize > 0
    ensures offset >= cfg.slabsOffset && FindSlab(cfg, offset) == Some(i)
    ensures FindSlot(cfg, offset, s.slabs[i].sizeIndex) == k
  {
    hide Pool.Inv, Lists.Inv, Slab.Inv, WorkerOk, Size, Capacity;
    assert AgentOk(cfg, s, t);
    assert SlabOpFits(s.agents[t].pc, i, s.slabs[i].ops[t]);
    HeldSlot(cfg, s, t, i);
    SlabSizeBound(cfg.slabSize);
    CapacityExact(cfg, s.slabs[i].sizeIndex);
    RoundTrip(cfg, i, s.slabs[i].sizeIndex, k, 0);
  }

  lemma FindKeeps(cfg: Config, s: State, t: nat, offset: nat, i: nat, k: nat)
    requires Inv(cfg, s) && t < |s.agents| && s.agents[t].pc == FindBlock(offset, i, k) && cfg.slabSize > 0
    ensures Inv(cfg, Find(cfg, s, t, offset))
  {
    hide Pool.Inv, Lists.Inv, Slab.Inv, WorkerOk, SlabOk, ValidConfig;
    FindExact(cfg, s, t, offset, i, k);
    assert AgentOk(cfg, s, t);
    PcStep(cfg, s, t, if s.agents[t].handle.Worker? then Route(i, k) else FreeRemote(i, k));
  }

  lemma ChooseRouteKeeps(cfg: Config, s: State, t: nat, w: nat, i: nat, k: nat)
    requires Inv(cfg, s) && t < |s.agents| && s.agents[t].pc == Route(i, k) && s.agents[t].handle == Worker(w)
    ensures i < cfg.numSlabs && Inv(cfg, ChooseRoute(cfg, s, t, w, i, k))
  {
    hide Pool.Inv, Lists.Inv, Slab.Inv, WorkerOk, SlabOk, ValidConfig;
    assert AgentOk(cfg, s, t);
    PcStep(cfg, s, t, if s.slabs[i].owner == w then FreeLocal(i, k) else FreeRemote(i, k));
  }

  // ----- remote

  lemma BeginRemoteKeeps(cfg: Config, s: State, t: nat, i: nat, k: nat)
    requires Inv(cfg, s) && t < |s.agents| && s.agents[t].pc == FreeRemote(i, k)
    ensures i < cfg.numSlabs && Inv(cfg, BeginRemote(cfg, s, t, i, k))
  {
    hide Pool.Inv, Lists.Inv, Slab.Inv, WorkerOk, ValidConfig;
    assert AgentOk(cfg, s, t) && SlabOk(cfg, s, i);
    assert SlabOpFits(s.agents[t].pc, i, s.slabs[i].ops[t]);
    var x := s.slabs[i];
    Slab.GoRemoteKeeps(x, t);
    InteriorStep(cfg, s, t, i, Slab.GoRemote(x, t), RemotePush(i, x.sizeIndex));
  }

  lemma PushInterior(x: Slab.State, t: nat)
    requires Slab.Inv(x) && t < |x.ops| && Slab.Pushing(x.ops[t])
    ensures x.ops[t].slot < |x.words| == |x.loc|
    ensures Slab.Inv(Slab.AdvancePush(x, t)) && Interior(x, Slab.AdvancePush(x, t), t)
    ensures Slab.Pushing(Slab.AdvancePush(x, t).ops[t]) || Slab.AdvancePush(x, t).ops[t] == Slab.Idle
  {
    Slab.AdvancePushKeeps(x, t);
  }

  lemma RemoteStepKeeps(cfg: Config, s: State, t: nat, i: nat, c: nat)
    requires Inv(cfg, s) && t < |s.agents| && s.agents[t].pc == RemotePush(i, c)
    ensures i < cfg.numSlabs && Inv(cfg, RemoteStep(cfg, s, t, i, c))
  {
    hide Pool.Inv, Lists.Inv, Slab.Inv, WorkerOk, ValidConfig;
    assert AgentOk(cfg, s, t) && SlabOk(cfg, s, i);
    assert SlabOpFits(s.agents[t].pc, i, s.slabs[i].ops[t]);
    var x := s.slabs[i];
    PushInterior(x, t);
    var y := Slab.AdvancePush(x, t);
    InteriorStep(cfg, s, t, i, y, if y.ops[t] == Slab.Idle then Idle else RemotePush(i, c));
  }
}
