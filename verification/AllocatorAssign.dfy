/** Steps by which a slab taken from the pool becomes its new owner's, and blocks are handed out of it. */
module AllocatorAssign {
  import opened Base
  import opened SizeClasses
  import opened Address
  import opened Allocator
  import opened AllocatorInv
  import Pool = GlobalFreeList
  import Lists = LocalLists
  import Slab

  // ----- quiet slabs

  lemma QuietUsesNothing(x: Slab.State, w: nat)
    requires Slab.Inv(x) && Slab.Quiet(x)
    ensures UsedBy(x, w) == 0
  {
    Slab.FullIffQuiet(x);
  }

  /** A change to a quiet slab in the handle's hands that leaves it quiet. */
  lemma QuietChange(cfg: Config, s: State, t: nat, i: nat, y: Slab.State, pc: Pc)
    requires Inv(cfg, s) && t < |s.agents| && Carries(s, t) == Some(i) && i < cfg.numSlabs
    requires NeedsWorker(s.agents[t].pc) && s.pool.ops[t] == Pool.Idle && !s.agents[t].pc.Giving?
    requires Slab.Inv(y) && Slab.Quiet(y) && y.ops == s.slabs[i].ops && y.sizeIndex < NUM_SIZE_CLASSES
    requires Carries(s.Pc(t, pc), t) == Some(i) && OwedBy(pc) == OwedBy(s.agents[t].pc)
    requires AgentOk(cfg, s.Put(i, y).Pc(t, pc), t)
    ensures Inv(cfg, s.Put(i, y).Pc(t, pc))
  {
    hide Pool.Inv, Lists.Inv, Slab.Inv, ValidConfig, WorkerOk;
    var s' := s.Put(i, y).Pc(t, pc);
    assert AgentOk(cfg, s, t) && SlabOk(cfg, s, i);
    assert s.place[i] == Transit(t);
    assert OnlyAgent(cfg, s, s', t);
    assert OwnChange(s, s', t, i);
    assert OnlySlab(cfg, s, s', t, i);
    assert Shape(cfg, s, s', t, i);
    assert PlaceOk(s', i);
    assert SlabOk(cfg, s', i);
    forall v: nat ensures UsedBy(y, v) == UsedBy(s.slabs[i], v) {
      QuietUsesNothing(y, v);
      QuietUsesNothing(s.slabs[i], v);
    }
    AssembleSame(cfg, s, s', t, i);
  }

  lemma StoreOwnerKeeps(cfg: Config, s: State, t: nat, c: nat, i: nat, w: nat)
    requires Inv(cfg, s) && t < |s.agents| && s.agents[t].pc == StoreOwner(c, i) && s.agents[t].handle == Worker(w)
    ensures i < cfg.numSlabs && Inv(cfg, s.Put(i, Slab.SetOwner(s.slabs[i], w)).Pc(t, StoreClass(c, i)))
  {
    hide Pool.Inv, Lists.Inv, Slab.Inv, ValidConfig, WorkerOk;
    assert AgentOk(cfg, s, t) && SlabOk(cfg, s, i);
    var y := Slab.SetOwner(s.slabs[i], w);
    Slab.MetaKeeps(s.slabs[i], w, c);
    assert AgentOk(cfg, s.Put(i, y).Pc(t, StoreClass(c, i)), t);
    QuietChange(cfg, s, t, i, y, StoreClass(c, i));
  }

  lemma StoreClassKeeps(cfg: Config, s: State, t: nat, c: nat, i: nat)
    requires Inv(cfg, s) && t < |s.agents| && s.agents[t].pc == StoreClass(c, i)
    ensures i < cfg.numSlabs && Inv(cfg, s.Put(i, Slab.SetClass(s.slabs[i], c)).Pc(t, ClearRemote(c, i)))
  {
    hide Pool.Inv, Lists.Inv, Slab.Inv, ValidConfig, WorkerOk;
    assert AgentOk(cfg, s, t) && SlabOk(cfg, s, i);
    var y := Slab.SetClass(s.slabs[i], c);
    Slab.MetaKeeps(s.slabs[i], 0, c);
    assert AgentOk(cfg, s.Put(i, y).Pc(t, ClearRemote(c, i)), t);
    QuietChange(cfg, s, t, i, y, ClearRemote(c, i));
  }

  lemma ClearRemoteKeeps(cfg: Config, s: State, t: nat, c: nat, i: nat)
    requires Inv(cfg, s) && t < |s.agents| && s.agents[t].pc == ClearRemote(c, i)
    ensures i < cfg.numSlabs && Slab.ClearHead(s.slabs[i]) == s.slabs[i]
    ensures Inv(cfg, s.Put(i, Slab.ClearHead(s.slabs[i])).Pc(t, ResetStack(c, i)))
  {
    hide Pool.Inv, Lists.Inv, Slab.Inv, ValidConfig, WorkerOk;
    assert AgentOk(cfg, s, t) && SlabOk(cfg, s, i);
    var y := Slab.ClearHead(s.slabs[i]);
    Slab.ClearHeadDropsNothing(s.slabs[i]);
    assert AgentOk(cfg, s.Put(i, y).Pc(t, ResetStack(c, i)), t);
    QuietChange(cfg, s, t, i, y, ResetStack(c, i));
  }

  // ----- the lists

  /** A slab in the handle's hands is on no worker's list. */
  lemma NotListed(cfg: Config, s: State, i: nat)
    requires Inv(cfg, s) && i < cfg.numSlabs && !s.place[i].Listed?
    ensures Lists.InNone(s.local, i)
  {
    assert SlabOk(cfg, s, i);
  }

  /** Pushing slab `i` on a list changes no other slab's membership. */
  lemma PushedMembers(l: Lists.State, k: Lists.Key, i: nat)
    requires Lists.Inv(l) && k in l.lists && i < |l.nodes| && Lists.InNone(l, i)
    ensures Lists.CanPush(l, k, i) && Lists.Inv(Lists.PushTo(l, k, i))
    ensures |Lists.PushTo(l, k, i).nodes| == |l.nodes|
    ensures Lists.PushTo(l, k, i).lists == l.lists[k := [i] + l.lists[k]]
    ensures forall q, j: nat {:trigger j in Lists.PushTo(l, k, i).lists[q]} :: q in l.lists ==>
              (j in Lists.PushTo(l, k, i).lists[q] <==> (if j == i then q == k else j in l.lists[q]))
  {
    Lists.PushToKeeps(l, k, i);
    assert forall j: nat :: j in [i] + l.lists[k] <==> j == i || j in l.lists[k];
  }

  /** Removing slab `i` from its list changes no other slab's membership. */
  lemma RemovedMembers(l: Lists.State, k: Lists.Key, i: nat)
    requires Lists.Inv(l) && k in l.lists && i in l.lists[k]
    ensures Lists.CanRemove(l, k, i) && Lists.Inv(Lists.RemoveFrom(l, k, i))
    ensures i < |l.nodes| == |Lists.RemoveFrom(l, k, i).nodes|
    ensures Lists.InNone(Lists.RemoveFrom(l, k, i), i)
    ensures Lists.RemoveFrom(l, k, i).lists == l.lists[k := Lists.WorkerLocalList.Without(l.lists[k], i)]
    ensures forall q, j: nat {:trigger j in Lists.RemoveFrom(l, k, i).lists[q]} :: q in l.lists ==>
              (j in Lists.RemoveFrom(l, k, i).lists[q] <==> j != i && j in l.lists[q])
  {
    Lists.RemoveFromKeeps(l, k, i);
    Lists.ListedInBounds(l, k, i);
    Lists.ReadHead(l, k);
    Lists.WorkerLocalList.WithoutElems(l.lists[k], i);
  }

  /** Switching slab `i` between two lists moves it and nothing else. */
  lemma SwitchedMembers(l: Lists.State, a: Lists.Key, b: Lists.Key, i: nat)
    requires Lists.Inv(l) && a in l.lists && b in l.lists && a != b && i in l.lists[a]
    ensures CanSwitch(l, a, b, i) && Lists.Inv(Switch(l, a, b, i))
    ensures |Switch(l, a, b, i).nodes| == |l.nodes|
    ensures Switch(l, a, b, i).lists.Keys == l.lists.Keys && Switch(l, a, b, i).heads.Keys == l.heads.Keys
    ensures Switch(l, a, b, i).lists
            == l.lists[a := Lists.WorkerLocalList.Without(l.lists[a], i)][b := [i] + l.lists[b]]
    ensures forall q, j: nat {:trigger j in Switch(l, a, b, i).lists[q]} :: q in l.lists ==>
              (j in Switch(l, a, b, i).lists[q] <==> (if j == i then q == b else j in l.lists[q]))
  {
    RemovedMembers(l, a, i);
    PushedMembers(Lists.RemoveFrom(l, a, i), b, i);
  }

  // ----- refill

  /** What `Refill` does. */
  lemma RefillEffects(cfg: Config, s: State, t: nat, w: nat, c: nat, i: nat, words: seq<nat>)
    requires Inv(cfg, s) && t < |s.agents| && s.agents[t] == Agent(Worker(w), ResetStack(c, i))
    requires c < NUM_SIZE_CLASSES ==> |words| == Capacity(cfg, c)
    ensures c < NUM_SIZE_CLASSES && w < cfg.numWorkers && i < cfg.numSlabs && s.place[i] == Transit(t)
    ensures Slab.Inv(s.slabs[i]) && Slab.Quiet(s.slabs[i]) && s.slabs[i].owner == w && s.slabs[i].sizeIndex == c
    ensures var s' := Refill(cfg, s, t, w, c, i, words); var k := Lists.Key(w, c, false);
      && Sized(cfg, s') && Lists.Inv(s'.local)
      && s' == s.(local := s'.local, slabs := s.slabs[i := Slab.Reset(s.slabs[i], Capacity(cfg, c), words)],
                  place := s.place[i := Listed(k)], agents := s.agents[t := Agent(Worker(w), AllocSlot(c, i))])
      && (forall q {:trigger s'.local.lists[q]} :: q in s.local.lists && q != k ==> s'.local.lists[q] == s.local.lists[q])
      && (forall q, j: nat {:trigger j in s'.local.lists[q]} :: q in s.local.lists && j != i ==>
            (j in s'.local.lists[q] <==> j in s.local.lists[q]))
      && (forall q {:trigger s'.local.lists[q]} :: q in s.local.lists ==> (i in s'.local.lists[q] <==> q == k))
  {
    hide Pool.Inv, Lists.Inv, Slab.Inv, Capacity, Size;
    assert AgentOk(cfg, s, t) && SlabOk(cfg, s, i);
    NotListed(cfg, s, i);
    PushedMembers(s.local, Lists.Key(w, c, false), i);
  }

  lemma RefillKeeps(cfg: Config, s: State, t: nat, w: nat, c: nat, i: nat, words: seq<nat>)
    requires Inv(cfg, s) && t < |s.agents| && s.agents[t].pc == ResetStack(c, i) && s.agents[t].handle == Worker(w)
    requires c < NUM_SIZE_CLASSES ==> |words| == Capacity(cfg, c)
    ensures c < NUM_SIZE_CLASSES && w < cfg.numWorkers && i < cfg.numSlabs
    ensures Inv(cfg, Refill(cfg, s, t, w, c, i, words))
  {
    RefillEffects(cfg, s, t, w, c, i, words);
    assert SlabOk(cfg, s, i) && AgentOk(cfg, s, t);
    hide Pool.Inv, Lists.Inv, Slab.Inv, Capacity, Size, Refill;
    CapacityExact(cfg, c);
    var x := s.slabs[i];
    var y := Slab.Reset(x, Capacity(cfg, c), words);
    Slab.ResetKeeps(x, Capacity(cfg, c), words);
    var s' := Refill(cfg, s, t, w, c, i, words);
    forall v: nat ensures UsedBy(y, v) == UsedBy(x, v) {
      QuietUsesNothing(y, v);
      QuietUsesNothing(x, v);
    }
    RefillSlab(cfg, s, s', t, w, c, i, y);
    hide SlabOk, AgentOk, WorkerOk, UsedBy, Shape;
    RefillShape(cfg, s, s', t, w, c, i);
    AssembleSame(cfg, s, s', t, i);
  }

  lemma RefillShape(cfg: Config, s: State, s': State, t: nat, w: nat, c: nat, i: nat)
    requires Inv(cfg, s) && Sized(cfg, s') && t < |s.agents| && i < cfg.numSlabs
    requires s.agents[t].pc == ResetStack(c, i) && s.agents[t].handle == Worker(w)
    requires s'.pool == s.pool && s'.holder == s.holder && s'.claimed == s.claimed && s'.bytes == s.bytes
    requires s'.agents == s.agents[t := Agent(Worker(w), AllocSlot(c, i))]
    requires s'.slabs == s.slabs[i := s'.slabs[i]] && s'.slabs[i].ops == s.slabs[i].ops
    requires s'.place == s.place[i := Listed(Lists.Key(w, c, false))]
    requires forall q {:trigger s'.local.lists[q]} :: q in s.local.lists && q != Lists.Key(w, c, false) ==> s'.local.lists[q] == s.local.lists[q]
    requires forall q, j: nat {:trigger j in s'.local.lists[q]} :: q in s.local.lists && j != i ==>
               (j in s'.local.lists[q] <==> j in s.local.lists[q])
    ensures Shape(cfg, s, s', t, i) && AgentOk(cfg, s', t)
  {
    hide Pool.Inv, Lists.Inv, Slab.Inv, ValidConfig, WorkerOk;
    assert AgentOk(cfg, s, t);
    assert OnlyAgent(cfg, s, s', t);
    assert OwnChange(s, s', t, i);
    assert OnlySlab(cfg, s, s', t, i);
    assert OnlyLists(cfg, s, s', t, i);
  }

  lemma RefillSlab(cfg: Config, s: State, s': State, t: nat, w: nat, c: nat, i: nat, y: Slab.State)
    requires Sized(cfg, s) && Sized(cfg, s') && i < cfg.numSlabs && t < |s.agents| == |s'.agents|
    requires SlabOk(cfg, s, i) && s.place[i] == Transit(t) && ValidConfig(cfg)
    requires c < NUM_SIZE_CLASSES && w < cfg.numWorkers
    requires Slab.Inv(y) && Slab.Quiet(y) && y.owner == w && y.sizeIndex == c && y.capacity == Capacity(cfg, c)
    requires y.free == Slab.Descending(Capacity(cfg, c))
    requires s'.slabs[i] == y && s'.place[i] == Listed(Lists.Key(w, c, false)) && s'.pool == s.pool
    requires forall q :: q in s.local.lists ==> q in s'.local.lists && (i in s'.local.lists[q] <==> q == Lists.Key(w, c, false))
    requires s'.holder[w] == Some(t) && s'.agents[t].pc == AllocSlot(c, i)
    ensures SlabOk(cfg, s', i)
  {
    hide Slab.Inv, Capacity;
    CapacityExact(cfg, c);
    assert PlaceOk(s', i);
  }

  // ----- hand out a slot

  lemma UsedByBound(cfg: Config, s: State, j: nat, w: nat)
    requires Sized(cfg, s) && ValidConfig(cfg) && j < cfg.numSlabs && SlabOk(cfg, s, j)
    ensures UsedBy(s.slabs[j], w) <= cfg.slabSize
  {
    var x := s.slabs[j];
    if s.place[j].Listed? {
      CapacityExact(cfg, x.sizeIndex);
      if |x.free| <= x.capacity { Bits.MulMono(x.capacity - |x.free|, x.capacity, Size(x.sizeIndex)); }
    } else {
      QuietUsesNothing(x, w);
    }
  }

  lemma OneMoreTime(n: nat, b: nat)
    ensures (n + 1) * b == n * b + b
  {
  }

  lemma {:induction false} UsedBound(slabs: seq<Slab.State>, w: nat, b: nat)
    requires forall j: nat {:trigger slabs[j]} :: j < |slabs| ==> UsedBy(slabs[j], w) <= b
    ensures Used(slabs, w) <= |slabs| * b
    decreases |slabs|
  {
    hide UsedBy;
    if slabs != [] {
      var n := |slabs| - 1;
      assert forall j: nat :: j < n ==> slabs[..n][j] == slabs[j];
      UsedBound(slabs[..n], w, b);
      OneMoreTime(n, b);
    }
  }

  /** No worker's outstanding bytes can reach 2^64. */
  lemma UsedFits(cfg: Config, s: State, w: nat)
    requires Sized(cfg, s) && ValidConfig(cfg)
    requires forall j: nat {:trigger SlabOk(cfg, s, j)} :: j < cfg.numSlabs ==> SlabOk(cfg, s, j)
    ensures Used(s.slabs, w) < TWO_64
  {
    forall j: nat | j < cfg.numSlabs ensures UsedBy(s.slabs[j], w) <= cfg.slabSize {
      assert SlabOk(cfg, s, j);
      UsedByBound(cfg, s, j, w);
    }
    UsedBound(s.slabs, w, cfg.slabSize);
  }

  /** A slab on the partial list always yields a slot. */
  lemma PartialYields(cfg: Config, s: State, t: nat, c: nat, i: nat)
    requires Inv(cfg, s) && t < |s.agents| && s.agents[t].pc == AllocSlot(c, i)
    ensures i < cfg.numSlabs && c < NUM_SIZE_CLASSES && s.slabs[i].free != []
    ensures s.agents[t].handle.Worker? && s.slabs[i].owner == s.agents[t].handle.index && s.slabs[i].sizeIndex == c
    ensures s.slabs[i].capacity == Capacity(cfg, c)
    ensures s.place[i] == Listed(Lists.Key(s.agents[t].handle.index, c, false))
  {
    assert AgentOk(cfg, s, t) && SlabOk(cfg, s, i);
  }

  lemma TakeUses(x: Slab.State, offset: nat, w: nat)
    requires Slab.Inv(x) && x.free != [] && x.sizeIndex < NUM_SIZE_CLASSES
    ensures x.free[|x.free| - 1] < |x.loc|
    ensures UsedBy(Slab.Take(x, offset), w) == UsedBy(x, w) + (if x.owner == w then Size(x.sizeIndex) else 0)
    ensures |Slab.Take(x, offset).free| < x.capacity
  {
    hide Size;
    Slab.TakeKeeps(x, offset);
    Slab.FullIffQuiet(x);
    OneMoreTime(x.capacity - |x.free|, Size(x.sizeIndex));
  }

  lemma TakeUsesAll(x: Slab.State, offset: nat)
    requires Slab.Inv(x) && x.free != [] && x.sizeIndex < NUM_SIZE_CLASSES
    ensures x.free[|x.free| - 1] < |x.loc|
    ensures forall v: nat :: UsedBy(Slab.Take(x, offset), v) == UsedBy(x, v) + (if x.owner == v then Size(x.sizeIndex) else 0)
  {
    hide Slab.Inv, Size, UsedBy;
    TakeUses(x, offset, x.owner);
    forall v: nat
      ensures UsedBy(Slab.Take(x, offset), v) == UsedBy(x, v) + (if x.owner == v then Size(x.sizeIndex) else 0)
    {
      TakeUses(x, offset, v);
    }
  }

  /** The slab after one slot was handed out, on the list its free stack asks for. */
  lemma TakenSlab(cfg: Config, s: State, s': State, c: nat, w: nat, i: nat)
    requires Sized(cfg, s) && Sized(cfg, s') && ValidConfig(cfg) && i < cfg.numSlabs && c < NUM_SIZE_CLASSES
    requires SlabOk(cfg, s, i) && s.place[i] == Listed(Lists.Key(w, c, false)) && w < cfg.numWorkers
    requires s.slabs[i].free != []
    requires var x := s.slabs[i];
             && x.free[|x.free| - 1] < |x.loc|
             && s'.slabs[i] == Slab.Take(x, BlockOffset(cfg, i, c, x.free[|x.free| - 1]))
    requires s'.place[i] == Listed(Lists.Key(w, c, s'.slabs[i].free == []))
    requires s'.pool == s.pool
    requires forall q :: q in s.local.lists ==> q in s'.local.lists && (i in s'.local.lists[q] <==> s'.place[i] == Listed(q))
    ensures SlabOk(cfg, s', i)
  {
    hide Slab.Inv, Capacity, Size;
    var x := s.slabs[i];
    var k := x.free[|x.free| - 1];
    Slab.TakeKeeps(x, BlockOffset(cfg, i, c, k));
    TakeUses(x, BlockOffset(cfg, i, c, k), w);
    assert PlaceOk(s', i);
    assert OffsetsOk(cfg, s'.slabs[i], i);
  }

  ghost predicate TakeSlotEffect(cfg: Config, s: State, s': State, t: nat, w: nat, c: nat, i: nat)
    requires Sized(cfg, s) && Sized(cfg, s') && t < |s.agents| && i < cfg.numSlabs && w < cfg.numWorkers
    requires c < NUM_SIZE_CLASSES
  {
    && s'.pool == s.pool && s'.holder == s.holder && s'.claimed == s.claimed
    && s'.bytes == s.bytes[w := Add64(s.bytes[w], Size(c))]
    && s'.agents == s.agents[t := Agent(Worker(w), Idle)]
    && s'.slabs == s.slabs[i := s'.slabs[i]] && s'.slabs[i].ops == s.slabs[i].ops
    && s'.slabs[i].owner == s.slabs[i].owner && s'.slabs[i].sizeIndex == s.slabs[i].sizeIndex
    && s'.place == s.place[i := s'.place[i]]
    && (forall q {:trigger s'.local.lists[q]} :: q in s.local.lists && q.worker != w ==> s'.local.lists[q] == s.local.lists[q])
    && (forall q, j: nat {:trigger j in s'.local.lists[q]} :: q in s.local.lists && j != i ==>
          (j in s'.local.lists[q] <==> j in s.local.lists[q]))
  }

  lemma TakeSlotFrame(cfg: Config, s: State, s': State, t: nat, w: nat, c: nat, i: nat)
    requires Inv(cfg, s) && Sized(cfg, s') && t < |s.agents| && i < cfg.numSlabs
    requires s.agents[t].pc == AllocSlot(c, i) && s.agents[t].handle == Worker(w) && w < cfg.numWorkers
    requires c < NUM_SIZE_CLASSES && TakeSlotEffect(cfg, s, s', t, w, c, i)
    ensures Shape(cfg, s, s', t, i) && AgentOk(cfg, s', t)
  {
    hide Pool.Inv, Lists.Inv, Slab.Inv, ValidConfig, WorkerOk, Size;
    assert AgentOk(cfg, s, t);
    assert OnlyAgent(cfg, s, s', t);
    assert OwnChange(s, s', t, i);
    assert OnlySlab(cfg, s, s', t, i);
    assert OnlyLists(cfg, s, s', t, i);
  }

  lemma AllSlabs(cfg: Config, s: State, s': State, t: nat, i: nat)
    requires Inv(cfg, s) && Shape(cfg, s, s', t, i) && i < cfg.numSlabs && SlabOk(cfg, s', i)
    ensures forall j: nat {:trigger SlabOk(cfg, s', j)} :: j < cfg.numSlabs ==> SlabOk(cfg, s', j)
  {
    hide SlabOk;
    forall j: nat | j < cfg.numSlabs ensures SlabOk(cfg, s', j) {
      if j != i { OtherSlab(cfg, s, s', t, i, j); }
    }
  }

  lemma TakeSlotAccounts(cfg: Config, s: State, s': State, t: nat, w: nat, c: nat, i: nat)
    requires Inv(cfg, s) && Sized(cfg, s') && t < |s.agents| && i < cfg.numSlabs
    requires s.agents[t].pc == AllocSlot(c, i) && s.agents[t].handle == Worker(w) && w < cfg.numWorkers
    requires c < NUM_SIZE_CLASSES && TakeSlotEffect(cfg, s, s', t, w, c, i)
    requires Shape(cfg, s, s', t, i) && SlabOk(cfg, s', i)
    requires forall v: nat :: UsedBy(s'.slabs[i], v) == UsedBy(s.slabs[i], v) + (if v == w then Size(c) else 0)
    ensures forall v: nat {:trigger WorkerOk(cfg, s', v)} :: v < cfg.numWorkers ==> WorkerOk(cfg, s', v)
  {
    hide Pool.Inv, Lists.Inv, Slab.Inv, Size, SlabOk, Shape, UsedBy, Used;
    assert AgentOk(cfg, s, t) && WorkerOk(cfg, s, w);
    UsedUpdate(s.slabs, i, s'.slabs[i], w);
    AllSlabs(cfg, s, s', t, i);
    UsedFits(cfg, s', w);
    forall v: nat | v < cfg.numWorkers ensures WorkerOk(cfg, s', v) {
      if v != w {
        assert WorkerOk(cfg, s, v);
        OtherWorker(cfg, s, s', t, i, v);
      }
    }
  }

  /** `allocate_within_slab`: the popped slot was free, and the slab ends on the list its free stack asks for. */
  lemma TakeSlotKeeps(cfg: Config, s: State, t: nat, w: nat, c: nat, i: nat)
    requires Inv(cfg, s) && t < |s.agents| && s.agents[t].pc == AllocSlot(c, i) && s.agents[t].handle == Worker(w)
    ensures c < NUM_SIZE_CLASSES && w < cfg.numWorkers && i < cfg.numSlabs
    ensures Inv(cfg, TakeSlot(cfg, s, t, w, c, i))
  {
    hide Pool.Inv, Lists.Inv, Slab.Inv, Size, WorkerOk, UsedBy;
    PartialYields(cfg, s, t, c, i);
    assert AgentOk(cfg, s, t) && SlabOk(cfg, s, i);
    var x := s.slabs[i];
    TakeUsesAll(x, BlockOffset(cfg, i, c, x.free[|x.free| - 1]));
    TakeSlotEffects(cfg, s, t, w, c, i);
    var s' := TakeSlot(cfg, s, t, w, c, i);
    TakenSlab(cfg, s, s', c, w, i);
    TakeSlotFrame(cfg, s, s', t, w, c, i);
    TakeSlotAccounts(cfg, s, s', t, w, c, i);
    Assemble(cfg, s, s', t, i);
  }

  lemma TakeSlotEffects(cfg: Config, s: State, t: nat, w: nat, c: nat, i: nat)
    requires Sized(cfg, s) && t < |s.agents| && w < cfg.numWorkers && c < NUM_SIZE_CLASSES && i < cfg.numSlabs
    requires s.slabs[i].free != [] && s.slabs[i].free[|s.slabs[i].free| - 1] < |s.slabs[i].loc|
    requires s.agents[t].handle == Worker(w) && Lists.Inv(s.local)
    requires s.place[i] == Listed(Lists.Key(w, c, false)) && PlaceOk(s, i)
    ensures var s' := TakeSlot(cfg, s, t, w, c, i);
            && Sized(cfg, s') && Lists.Inv(s'.local) && TakeSlotEffect(cfg, s, s', t, w, c, i)
            && s'.slabs[i] == Slab.Take(s.slabs[i], BlockOffset(cfg, i, c, s.slabs[i].free[|s.slabs[i].free| - 1]))
            && s'.place[i] == Listed(Lists.Key(w, c, s'.slabs[i].free == []))
            && forall q :: q in s.local.lists ==> q in s'.local.lists && (i in s'.local.lists[q] <==> s'.place[i] == Listed(q))
  {
    hide Lists.Inv, Size, CanSwitch, Switch;
    SwitchedMembers(s.local, Lists.Key(w, c, false), Lists.Key(w, c, true), i);
  }
}
