/** Pushing a freed slot on its slab's free stack, and retiring the slab when that makes it wholly free. */
module AllocatorRetire {
  import opened Base
  import opened SizeClasses
  import opened Address
  import opened Allocator
  import opened AllocatorInv
  import opened AllocatorAssign
  import opened AllocatorFree
  import Pool = GlobalFreeList
  import Lists = LocalLists
  import Slab

  /** The handle holds a slot of slab `i`, which belongs to its worker. */
  ghost predicate OwnSlot(cfg: Config, s: State, t: nat, w: nat, c: nat, i: nat)
    requires Sized(cfg, s)
  {
    && t < |s.agents| && i < cfg.numSlabs && w < cfg.numWorkers && c < NUM_SIZE_CLASSES
    && s.agents[t].handle == Worker(w)
    && (s.slabs[i].ops[t].Holding? || s.slabs[i].ops[t].DrainHold?)
    && s.slabs[i].owner == w && s.slabs[i].sizeIndex == c
    && s.pool.ops[t] == Pool.Idle && Carries(s, t) == None && !s.agents[t].pc.AllocSlot?
  }

  /** The list a listed slab is on, told by its free stack alone. */
  function ListOf(x: Slab.State): Lists.Key {
    Lists.Key(x.owner, x.sizeIndex, x.free == [])
  }

  /** The place of the slab after the push. */
  function PlaceAfter(t: nat, x: Slab.State, y: Slab.State): Place {
    if |y.free| == y.capacity then Transit(t) else Listed(ListOf(y))
  }

  /** Everything `PushFree` does. */
  ghost predicate PushFreeEffect(cfg: Config, s: State, s': State, t: nat, w: nat, c: nat, i: nat, pc: Pc, after: After)
    requires Sized(cfg, s) && Sized(cfg, s') && OwnSlot(cfg, s, t, w, c, i)
    requires s.slabs[i].ops[t].slot < |s.slabs[i].loc|
  {
    var y := Slab.LocalPush(s.slabs[i], t);
    && s'.slabs == s.slabs[i := y]
    && s'.place == s.place[i := PlaceAfter(t, s.slabs[i], y)]
    && s'.holder == s.holder && s'.claimed == s.claimed
    && s'.pool == (if |y.free| == y.capacity then s.pool.At(t, Pool.PushStart(i)) else s.pool)
    && s'.agents == s.agents[t := Agent(Worker(w), if |y.free| == y.capacity then Giving(i, after) else pc)]
    && Lists.Inv(s'.local)
    && (forall q {:trigger s'.local.lists[q]} :: q in s.local.lists && q.worker != w ==> s'.local.lists[q] == s.local.lists[q])
    && (forall q, j: nat {:trigger j in s'.local.lists[q]} :: q in s.local.lists && j != i ==>
          (j in s'.local.lists[q] <==> j in s.local.lists[q]))
    && (forall q {:trigger s'.local.lists[q]} :: q in s.local.lists ==> (i in s'.local.lists[q] <==> s'.place[i] == Listed(q)))
  }

  /** Every slab holds at least four blocks, so one push cannot take it from full to wholly free. */
  lemma NeverUnreachable(cfg: Config, s: State, t: nat, w: nat, c: nat, i: nat)
    requires Inv(cfg, s) && OwnSlot(cfg, s, t, w, c, i)
    ensures s.slabs[i].ops[t].slot < |s.slabs[i].loc|
    ensures s.place[i] == Listed(ListOf(s.slabs[i]))
    ensures OutcomeOf(s.slabs[i], Slab.LocalPush(s.slabs[i], t)) != Unreachable
    ensures |s.slabs[i].free| < s.slabs[i].capacity
  {
    hide Pool.Inv, Lists.Inv, WorkerOk, Size, Capacity;
    HeldSlot(cfg, s, t, i);
    CapacityExact(cfg, c);
  }

  lemma PushFreeStays(cfg: Config, s: State, b: seq<nat>, t: nat, w: nat, c: nat, i: nat, pc: Pc, after: After)
    requires Sized(cfg, s) && OwnSlot(cfg, s, t, w, c, i) && |b| == cfg.numWorkers
    requires s.slabs[i].ops[t].slot < |s.slabs[i].loc| && s.place[i] == Listed(ListOf(s.slabs[i])) && PlaceOk(s, i)
    requires Lists.Inv(s.local)
    requires OutcomeOf(s.slabs[i], Slab.LocalPush(s.slabs[i], t)) == Stays
    ensures Sized(cfg, PushFree(cfg, s.(bytes := b), t, w, c, i, pc, after))
    ensures PushFree(cfg, s.(bytes := b), t, w, c, i, pc, after).bytes == b
    ensures PushFreeEffect(cfg, s, PushFree(cfg, s.(bytes := b), t, w, c, i, pc, after), t, w, c, i, pc, after)
    ensures WalkKept(s.local, PushFree(cfg, s.(bytes := b), t, w, c, i, pc, after).local, w, c, i, s.slabs[i].free == [])
  {
    hide Lists.Inv, CanSwitch, Switch;
    assert s.place[i := s.place[i]] == s.place;
  }

  lemma PushFreeToPartial(cfg: Config, s: State, b: seq<nat>, t: nat, w: nat, c: nat, i: nat, pc: Pc, after: After)
    requires Sized(cfg, s) && OwnSlot(cfg, s, t, w, c, i) && |b| == cfg.numWorkers
    requires s.slabs[i].ops[t].slot < |s.slabs[i].loc| && s.place[i] == Listed(ListOf(s.slabs[i])) && PlaceOk(s, i)
    requires Lists.Inv(s.local)
    requires OutcomeOf(s.slabs[i], Slab.LocalPush(s.slabs[i], t)) == ToPartial
    ensures Sized(cfg, PushFree(cfg, s.(bytes := b), t, w, c, i, pc, after))
    ensures PushFree(cfg, s.(bytes := b), t, w, c, i, pc, after).bytes == b
    ensures PushFreeEffect(cfg, s, PushFree(cfg, s.(bytes := b), t, w, c, i, pc, after), t, w, c, i, pc, after)
    ensures WalkKept(s.local, PushFree(cfg, s.(bytes := b), t, w, c, i, pc, after).local, w, c, i, s.slabs[i].free == [])
  {
    hide Lists.Inv, CanSwitch, Switch;
    SwitchedMembers(s.local, Lists.Key(w, c, true), Lists.Key(w, c, false), i);
  }

  lemma PushFreeToPool(cfg: Config, s: State, b: seq<nat>, t: nat, w: nat, c: nat, i: nat, pc: Pc, after: After)
    requires Sized(cfg, s) && OwnSlot(cfg, s, t, w, c, i) && |b| == cfg.numWorkers
    requires s.slabs[i].ops[t].slot < |s.slabs[i].loc| && s.place[i] == Listed(ListOf(s.slabs[i])) && PlaceOk(s, i)
    requires Lists.Inv(s.local)
    requires OutcomeOf(s.slabs[i], Slab.LocalPush(s.slabs[i], t)) == ToPool
    ensures Sized(cfg, PushFree(cfg, s.(bytes := b), t, w, c, i, pc, after))
    ensures PushFree(cfg, s.(bytes := b), t, w, c, i, pc, after).bytes == b
    ensures PushFreeEffect(cfg, s, PushFree(cfg, s.(bytes := b), t, w, c, i, pc, after), t, w, c, i, pc, after)
    ensures WalkKept(s.local, PushFree(cfg, s.(bytes := b), t, w, c, i, pc, after).local, w, c, i, s.slabs[i].free == [])
  {
    hide Lists.Inv, CanSwitch, Switch;
    RemovedMembers(s.local, Lists.Key(w, c, false), i);
  }

  lemma PushFreeEffects(cfg: Config, s: State, b: seq<nat>, t: nat, w: nat, c: nat, i: nat, pc: Pc, after: After)
    requires Inv(cfg, s) && OwnSlot(cfg, s, t, w, c, i) && |b| == cfg.numWorkers
    ensures s.slabs[i].ops[t].slot < |s.slabs[i].loc|
    ensures Sized(cfg, PushFree(cfg, s.(bytes := b), t, w, c, i, pc, after))
    ensures PushFree(cfg, s.(bytes := b), t, w, c, i, pc, after).bytes == b
    ensures PushFreeEffect(cfg, s, PushFree(cfg, s.(bytes := b), t, w, c, i, pc, after), t, w, c, i, pc, after)
    ensures WalkKept(s.local, PushFree(cfg, s.(bytes := b), t, w, c, i, pc, after).local, w, c, i, s.slabs[i].free == [])
  {
    NeverUnreachable(cfg, s, t, w, c, i);
    assert SlabOk(cfg, s, i);
    var o := OutcomeOf(s.slabs[i], Slab.LocalPush(s.slabs[i], t));
    hide PushFree, PushFreeEffect, WalkKept, OutcomeOf, Slab.Inv, Pool.Inv, AgentOk, WorkerOk;
    match o
    case Stays => PushFreeStays(cfg, s, b, t, w, c, i, pc, after);
    case ToPartial => PushFreeToPartial(cfg, s, b, t, w, c, i, pc, after);
    case ToPool => PushFreeToPool(cfg, s, b, t, w, c, i, pc, after);
  }

  /** What the push may do to the lists of its worker: drop the slab from one, or move it to the partial list. */
  ghost predicate WalkKept(l: Lists.State, m: Lists.State, w: nat, c: nat, i: nat, wasFull: bool) {
    && m.lists.Keys == l.lists.Keys
    && forall q {:trigger m.lists[q]} :: q in l.lists ==>
         || m.lists[q] == l.lists[q]
         || (q == Lists.Key(w, c, wasFull) && i in l.lists[q] && m.lists[q] == Lists.WorkerLocalList.Without(l.lists[q], i))
         || (q == Lists.Key(w, c, false) && wasFull)
  }

  /** The slab after the push stands where its free stack says. */
  lemma PushedSlab(cfg: Config, s: State, s': State, t: nat, w: nat, c: nat, i: nat, pc: Pc, after: After)
    requires Inv(cfg, s) && Sized(cfg, s') && OwnSlot(cfg, s, t, w, c, i)
    requires s.slabs[i].ops[t].slot < |s.slabs[i].loc| && PushFreeEffect(cfg, s, s', t, w, c, i, pc, after)
    ensures SlabOk(cfg, s', i)
  {
    hide Pool.Inv, Lists.Inv, WorkerOk, Size, Capacity, AgentOk, ValidConfig;
    assert SlabOk(cfg, s, i);
    HeldSlot(cfg, s, t, i);
    var x := s.slabs[i];
    var y := Slab.LocalPush(x, t);
    Slab.LocalPushKeeps(x, t);
    Slab.FullIffQuiet(y);
    hide Slab.Inv;
    assert OffsetsOk(cfg, y, i);
    assert PlaceOk(s', i);
    assert Standing(cfg, s', i);
  }

  lemma PushFreeShape(cfg: Config, s: State, s': State, t: nat, w: nat, c: nat, i: nat, pc: Pc, after: After)
    requires Inv(cfg, s) && Sized(cfg, s') && OwnSlot(cfg, s, t, w, c, i)
    requires s.slabs[i].ops[t].slot < |s.slabs[i].loc| && PushFreeEffect(cfg, s, s', t, w, c, i, pc, after)
    requires pc.Idle? || pc.CleanDrain?
    ensures Shape(cfg, s, s', t, i)
  {
    hide Pool.Inv, Lists.Inv, Slab.Inv, WorkerOk, Size, Capacity, AgentOk, ValidConfig, SlabOk;
    NeverUnreachable(cfg, s, t, w, c, i);
    assert OnlyAgent(cfg, s, s', t);
    assert OwnChange(s, s', t, i);
    assert OnlySlab(cfg, s, s', t, i);
    assert OnlyLists(cfg, s, s', t, i);
  }

  /** A wholly free slab is handed to the global list by the one handle that had it listed. */
  lemma PushFreePool(cfg: Config, s: State, s': State, t: nat, w: nat, c: nat, i: nat, pc: Pc, after: After)
    requires Inv(cfg, s) && Sized(cfg, s') && OwnSlot(cfg, s, t, w, c, i)
    requires s.slabs[i].ops[t].slot < |s.slabs[i].loc| && PushFreeEffect(cfg, s, s', t, w, c, i, pc, after)
    ensures Pool.Inv(s'.pool)
  {
    NeverUnreachable(cfg, s, t, w, c, i);
    if s'.pool != s.pool {
      ListedIsOutside(cfg, s, i);
      hide Inv;
      StartPush(s.pool, t, i);
    }
  }

  lemma StartPush(p: Pool.State, t: nat, i: nat)
    requires Pool.Inv(p) && t < |p.ops| && p.ops[t] == Pool.Idle && Pool.Outside(p, i)
    ensures Pool.Inv(p.At(t, Pool.PushStart(i)))
  {
    Pool.KeepOnCall(p, t, Pool.CallPush(i));
  }

  /** A listed slab is neither on the global list nor carried by any thread. */
  lemma ListedIsOutside(cfg: Config, s: State, i: nat)
    requires Inv(cfg, s) && i < cfg.numSlabs && s.place[i].Listed?
    ensures Pool.Inv(s.pool) && Pool.Outside(s.pool, i)
  {
    hide Lists.Inv, Slab.Inv, WorkerOk, Size, Capacity, ValidConfig;
    assert SlabOk(cfg, s, i);
    forall u: nat | u < |s.pool.ops| ensures Pool.Carried(s.pool.ops[u]) != Some(i) {
      assert AgentOk(cfg, s, u);
    }
  }

  lemma PushUses(x: Slab.State, t: nat)
    requires Slab.Inv(x) && t < |x.ops| && (x.ops[t].Holding? || x.ops[t].DrainHold?)
    requires x.sizeIndex < NUM_SIZE_CLASSES
    ensures x.ops[t].slot < |x.loc|
    ensures forall v: nat ::
              UsedBy(x, v) == UsedBy(Slab.LocalPush(x, t), v) + (if x.owner == v then Size(x.sizeIndex) else 0)
  {
    hide Size;
    Slab.LocalPushKeeps(x, t);
    Slab.RoomForHeld(x, t);
    OneMoreTime(x.capacity - |x.free| - 1, Size(x.sizeIndex));
  }

  /** All parts of a push at once. */
  lemma PushFreeParts(cfg: Config, s: State, s': State, b: seq<nat>, t: nat, w: nat, c: nat, i: nat, pc: Pc, after: After)
    requires Inv(cfg, s) && OwnSlot(cfg, s, t, w, c, i) && |b| == cfg.numWorkers && (pc.Idle? || pc.CleanDrain?)
    requires s.slabs[i].ops[t].slot < |s.slabs[i].loc|
    requires s' == PushFree(cfg, s.(bytes := b), t, w, c, i, pc, after)
    ensures Sized(cfg, s') && s'.bytes == b && PushFreeEffect(cfg, s, s', t, w, c, i, pc, after)
    ensures Shape(cfg, s, s', t, i) && SlabOk(cfg, s', i) && Pool.Inv(s'.pool) && Lists.Inv(s'.local)
    ensures WalkKept(s.local, s'.local, w, c, i, s.slabs[i].free == [])
  {
    PushFreeEffects(cfg, s, b, t, w, c, i, pc, after);
    hide Inv, PushFree, Shape, SlabOk, Pool.Inv, WalkKept;
    PushFreeShape(cfg, s, s', t, w, c, i, pc, after);
    PushedSlab(cfg, s, s', t, w, c, i, pc, after);
    PushFreePool(cfg, s, s', t, w, c, i, pc, after);
  }

  // ----- a block freed by its owner

  /** What `LocalFree` does. */
  lemma LocalFreeEffects(cfg: Config, s: State, t: nat, w: nat, i: nat, k: nat)
    requires Inv(cfg, s) && t < |s.agents| && s.agents[t] == Agent(Worker(w), FreeLocal(i, k))
    ensures i < cfg.numSlabs && w < cfg.numWorkers && s.slabs[i].sizeIndex < NUM_SIZE_CLASSES
    ensures OwnSlot(cfg, s, t, w, s.slabs[i].sizeIndex, i) && s.slabs[i].ops[t] == Slab.Holding(k) && k < |s.slabs[i].loc|
    ensures var s' := LocalFree(cfg, s, t, w, i, k); var c := s.slabs[i].sizeIndex;
      && Sized(cfg, s') && PushFreeEffect(cfg, s, s', t, w, c, i, Idle, Return)
      && s'.bytes == s.bytes[w := Sub64(s.bytes[w], Size(c))]
      && Shape(cfg, s, s', t, i) && SlabOk(cfg, s', i) && Pool.Inv(s'.pool) && Lists.Inv(s'.local)
  {
    hide Pool.Inv, Lists.Inv, Slab.Inv, WorkerOk, Size, Capacity, ValidConfig;
    assert AgentOk(cfg, s, t) && SlabOk(cfg, s, i);
    assert SlabOpFits(s.agents[t].pc, i, s.slabs[i].ops[t]);
    HeldSlot(cfg, s, t, i);
    var c := s.slabs[i].sizeIndex;
    var b := s.bytes[w := Sub64(s.bytes[w], Size(c))];
    assert OwnSlot(cfg, s, t, w, c, i);
    var s' := LocalFree(cfg, s, t, w, i, k);
    hide AgentOk, SlabOk, OwnSlot, PushFree, PushFreeEffect, Shape, WalkKept;
    PushFreeParts(cfg, s, s', b, t, w, c, i, Idle, Return);
  }

  lemma LocalFreeKeeps(cfg: Config, s: State, t: nat, w: nat, i: nat, k: nat)
    requires Inv(cfg, s) && t < |s.agents| && s.agents[t].pc == FreeLocal(i, k) && s.agents[t].handle == Worker(w)
    ensures i < cfg.numSlabs && w < cfg.numWorkers && Inv(cfg, LocalFree(cfg, s, t, w, i, k))
  {
    LocalFreeEffects(cfg, s, t, w, i, k);
    hide Inv, LocalFree, Shape, SlabOk, AgentOk, PushFreeEffect, WorkerOk, Pool.Inv, Lists.Inv, Size;
    var s' := LocalFree(cfg, s, t, w, i, k);
    LocalFreeAgent(cfg, s, s', t, w, s.slabs[i].sizeIndex, i, k);
    LocalFreeAccounts(cfg, s, s', t, w, s.slabs[i].sizeIndex, i);
    Assemble(cfg, s, s', t, i);
  }

  lemma LocalFreeAgent(cfg: Config, s: State, s': State, t: nat, w: nat, c: nat, i: nat, k: nat)
    requires Inv(cfg, s) && Sized(cfg, s') && OwnSlot(cfg, s, t, w, c, i) && s.agents[t].pc == FreeLocal(i, k)
    requires s.slabs[i].ops[t].slot < |s.slabs[i].loc| && PushFreeEffect(cfg, s, s', t, w, c, i, Idle, Return)
    ensures AgentOk(cfg, s', t)
  {
    hide Pool.Inv, Lists.Inv, Slab.Inv, WorkerOk, Size, Capacity, ValidConfig, SlabOk;
    assert AgentOk(cfg, s, t);
    assert SlabOpFits(s.agents[t].pc, i, s.slabs[i].ops[t]);
    forall j: nat | j < cfg.numSlabs ensures SlabOpFits(s'.agents[t].pc, j, s'.slabs[j].ops[t]) {
      assert SlabOpFits(s.agents[t].pc, j, s.slabs[j].ops[t]);
    }
  }

  /** A worker's account after one of its slots went back on a free stack. */
  lemma PushedAccount(cfg: Config, s: State, s': State, t: nat, w: nat, c: nat, i: nat, pc: Pc, after: After)
    requires Inv(cfg, s) && Sized(cfg, s') && OwnSlot(cfg, s, t, w, c, i)
    requires s.slabs[i].ops[t].slot < |s.slabs[i].loc| && PushFreeEffect(cfg, s, s', t, w, c, i, pc, after)
    ensures Used(s.slabs, w) == Used(s'.slabs, w) + Size(c)
    ensures forall v: nat :: v != w ==> UsedBy(s'.slabs[i], v) == UsedBy(s.slabs[i], v)
  {
    assert SlabOk(cfg, s, i);
    hide Pool.Inv, Lists.Inv, Slab.Inv, WorkerOk, Size, Capacity, AgentOk, ValidConfig, SlabOk, Inv, UsedBy;
    PushUses(s.slabs[i], t);
    UsedUpdate(s.slabs, i, s'.slabs[i], w);
  }

  lemma LocalFreeAccounts(cfg: Config, s: State, s': State, t: nat, w: nat, c: nat, i: nat)
    requires Inv(cfg, s) && Sized(cfg, s') && OwnSlot(cfg, s, t, w, c, i) && s.agents[t].pc.FreeLocal?
    requires s.slabs[i].ops[t].slot < |s.slabs[i].loc| && PushFreeEffect(cfg, s, s', t, w, c, i, Idle, Return)
    requires Shape(cfg, s, s', t, i) && s'.bytes == s.bytes[w := Sub64(s.bytes[w], Size(c))]
    ensures forall v: nat {:trigger WorkerOk(cfg, s', v)} :: v < cfg.numWorkers ==> WorkerOk(cfg, s', v)
  {
    hide Pool.Inv, Lists.Inv, Slab.Inv, Size, Capacity, ValidConfig, SlabOk, Shape, Used, UsedBy;
    assert AgentOk(cfg, s, t) && WorkerOk(cfg, s, w);
    PushedAccount(cfg, s, s', t, w, c, i, Idle, Return);
    forall v: nat | v < cfg.numWorkers ensures WorkerOk(cfg, s', v) {
      if v != w {
        assert WorkerOk(cfg, s, v);
        OtherWorker(cfg, s, s', t, i, v);
      }
    }
  }
}
