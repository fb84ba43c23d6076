/** Where slabs stand and what the byte counters say, in every reachable state and between calls. */
module AllocatorAccounts {
  import opened Base
  import opened SizeClasses
  import opened Address
  import opened Allocator
  import opened AllocatorInv
  import opened AllocatorRuns
  import AllocatorAssign
  import AllocatorFree
  import AllocatorRetire
  import AllocatorClean
  import Pool = GlobalFreeList
  import Lists = LocalLists
  import Slab

  /** Worker `w` is between calls: nobody holds it, or its handle is not inside a call. */
  ghost predicate Between(s: State, w: nat) {
    && w < |s.holder|
    && (s.holder[w].Some? ==> s.holder[w].value < |s.agents| && s.agents[s.holder[w].value].pc == Idle)
  }

  /**
   * List placement matches fullness whenever a worker is between calls: on a full list the free stack is empty,
   * on a partial list at least one slot is free and at least one is not, and both carry the list's worker and class.
   */
  lemma PlacementMatchesFullness(cfg: Config, s: State, k: Lists.Key, i: nat)
    requires ValidConfig(cfg) && Reachable(cfg, s) && Between(s, k.worker)
    requires k in s.local.lists && i in s.local.lists[k]
    ensures i < |s.slabs| && k.sizeIndex < NUM_SIZE_CLASSES
    ensures s.slabs[i].owner == k.worker && s.slabs[i].sizeIndex == k.sizeIndex
    ensures s.slabs[i].capacity == Capacity(cfg, k.sizeIndex) >= 4
    ensures if k.full then |s.slabs[i].free| == 0 else 1 <= |s.slabs[i].free| <= s.slabs[i].capacity - 1
  {
    ReachableInv(cfg, s);
    Lists.ListedInBounds(s.local, k, i);
    hide Reachable, Pool.Inv, Lists.Inv, AgentOk, WorkerOk, Capacity;
    assert SlabOk(cfg, s, i);
    Slab.FullIffQuiet(s.slabs[i]);
    CapacityExact(cfg, k.sizeIndex);
  }

  // ----- the byte counter

  /** Slab `i` stands on one of worker `w`'s lists. */
  ghost predicate HeldBy(s: State, w: nat, i: nat) {
    exists k :: k in s.local.lists && k.worker == w && i in s.local.lists[k]
  }

  /** Bytes of slab `i` that are not in its free stack. */
  function BytesOut(x: Slab.State): int {
    if x.sizeIndex < NUM_SIZE_CLASSES then (x.capacity - |x.free|) * Size(x.sizeIndex) else 0
  }

  /** The sum over worker `w`'s listed slabs below `n` of the bytes not in their free stacks. */
  ghost function ListedBytes(s: State, w: nat, n: nat): int
    requires n <= |s.slabs|
  {
    if n == 0 then 0 else ListedBytes(s, w, n - 1) + (if HeldBy(s, w, n - 1) then BytesOut(s.slabs[n - 1]) else 0)
  }

  lemma UsedIfListed(cfg: Config, s: State, w: nat, i: nat)
    requires Inv(cfg, s) && i < cfg.numSlabs
    ensures UsedBy(s.slabs[i], w) == if HeldBy(s, w, i) then BytesOut(s.slabs[i]) else 0
  {
    hide Pool.Inv, Lists.Inv, AgentOk, WorkerOk, Capacity, Size;
    assert SlabOk(cfg, s, i);
    Slab.FullIffQuiet(s.slabs[i]);
    hide Slab.Inv;
    assert HeldBy(s, w, i) <==> s.place[i].Listed? && s.place[i].key.worker == w;
    if !s.place[i].Listed? { AllocatorAssign.QuietUsesNothing(s.slabs[i], w); }
  }

  lemma {:induction false} UsedIsListed(cfg: Config, s: State, w: nat, n: nat)
    requires Inv(cfg, s) && n <= cfg.numSlabs
    ensures Used(s.slabs[..n], w) == ListedBytes(s, w, n)
  {
    hide Inv, UsedBy, BytesOut, HeldBy;
    Sizes(cfg, s);
    if n > 0 {
      UsedIsListed(cfg, s, w, n - 1);
      UsedIfListed(cfg, s, w, n - 1);
      assert s.slabs[..n][..n - 1] == s.slabs[..n - 1];
    }
  }

  lemma Sizes(cfg: Config, s: State)
    requires Inv(cfg, s)
    ensures Sized(cfg, s)
  {
  }

  /**
   * Exact byte accounting, at every moment: a worker's counter is the bytes its listed slabs have out, plus what
   * the drain its handle is in the middle of has already pushed back. It never wraps.
   */
  lemma ExactBytes(cfg: Config, s: State, w: nat)
    requires ValidConfig(cfg) && Reachable(cfg, s) && w < cfg.numWorkers && |s.slabs| == cfg.numSlabs
    requires w < |s.bytes| == |s.holder|
    ensures s.bytes[w] == ListedBytes(s, w, cfg.numSlabs) + Owed(s, w) < TWO_64
    ensures Between(s, w) ==> s.bytes[w] == ListedBytes(s, w, cfg.numSlabs)
  {
    ReachableInv(cfg, s);
    assert WorkerOk(cfg, s, w);
    UsedIsListed(cfg, s, w, cfg.numSlabs);
    hide Reachable, Inv;
    assert s.slabs[..cfg.numSlabs] == s.slabs;
  }

  lemma {:induction false} ListedBytesZero(cfg: Config, s: State, w: nat, n: nat)
    requires ValidConfig(cfg) && Reachable(cfg, s) && Between(s, w) && n <= |s.slabs|
    ensures ListedBytes(s, w, n) >= 0
    ensures ListedBytes(s, w, n) == 0 <==> forall i: nat :: i < n ==> !HeldBy(s, w, i)
  {
    hide Reachable, BytesOut, HeldBy;
    if n > 0 {
      ListedBytesZero(cfg, s, w, n - 1);
      if HeldBy(s, w, n - 1) { ListedHasBytes(cfg, s, w, n - 1); }
    }
  }

  lemma ListedHasBytes(cfg: Config, s: State, w: nat, i: nat)
    requires ValidConfig(cfg) && Reachable(cfg, s) && Between(s, w) && HeldBy(s, w, i)
    ensures i < |s.slabs| && BytesOut(s.slabs[i]) > 0
  {
    var k :| k in s.local.lists && k.worker == w && i in s.local.lists[k];
    PlacementMatchesFullness(cfg, s, k, i);
    hide Reachable, Capacity, Size;
    SizeIsPower(k.sizeIndex);
    Bits.MulMono(1, s.slabs[i].capacity - |s.slabs[i].free|, Size(k.sizeIndex));
  }

  /** Between calls a worker's counter is zero exactly when it holds no slab. */
  lemma ZeroIffNoSlab(cfg: Config, s: State, w: nat)
    requires ValidConfig(cfg) && Reachable(cfg, s) && w < cfg.numWorkers && Between(s, w)
    requires |s.slabs| == cfg.numSlabs && w < |s.bytes|
    ensures s.bytes[w] == 0 <==> forall k :: k in s.local.lists && k.worker == w ==> s.local.lists[k] == []
  {
    ReachableInv(cfg, s);
    Sizes(cfg, s);
    ExactBytes(cfg, s, w);
    ListedBytesZero(cfg, s, w, cfg.numSlabs);
    forall k | k in s.local.lists && k.worker == w && s.local.lists[k] != [] ensures HeldBy(s, w, s.local.lists[k][0]) {
      assert s.local.lists[k][0] in s.local.lists[k];
      Lists.ListedInBounds(s.local, k, s.local.lists[k][0]);
    }
    hide Reachable, Inv;
    if s.bytes[w] == 0 {
      forall k | k in s.local.lists && k.worker == w ensures s.local.lists[k] == [] {
        if s.local.lists[k] != [] { HeadBelow(cfg, s, k); }
      }
    }
  }

  lemma HeadBelow(cfg: Config, s: State, k: Lists.Key)
    requires ValidConfig(cfg) && Reachable(cfg, s) && k in s.local.lists && s.local.lists[k] != []
    ensures s.local.lists[k][0] < cfg.numSlabs && HeldBy(s, k.worker, s.local.lists[k][0])
  {
    ReachableInv(cfg, s);
    Lists.ListedInBounds(s.local, k, s.local.lists[k][0]);
  }

  // ----- a block given back by its owner

  /**
   * Slot `k` of slab `i` goes back to the free stack, where there was room for it. A slab that is wholly free
   * afterwards leaves its list for the global list, any other stands on the partial list.
   */
  ghost predicate FreesLocally(s: State, s': State, t: nat, w: nat, c: nat, i: nat, k: nat) {
    && i < |s.slabs| && i < |s'.slabs| && k < |s.slabs[i].loc| && s.slabs[i].loc[k] == Slab.Freeing(t)
    && i < |s'.place| && t < |s'.agents|
    && |s.slabs[i].free| < s.slabs[i].capacity
    && s'.slabs == s.slabs[i := s'.slabs[i]]
    && s'.slabs[i].loc == s.slabs[i].loc[k := Slab.Free]
    && s'.slabs[i].free == s.slabs[i].free + [k]
    && (Slab.Quiet(s'.slabs[i]) ==> s'.place[i] == Transit(t) && s'.agents[t].pc.Giving?)
    && (!Slab.Quiet(s'.slabs[i]) ==> s'.place[i] == Listed(Lists.Key(w, c, false)) && !s'.agents[t].pc.Giving?)
  }

  lemma PushFrees(cfg: Config, s: State, s': State, t: nat, w: nat, c: nat, i: nat, pc: Pc, after: After)
    requires Inv(cfg, s) && Sized(cfg, s') && AllocatorRetire.OwnSlot(cfg, s, t, w, c, i) && !pc.Giving?
    requires s.slabs[i].ops[t].slot < |s.slabs[i].loc| && AllocatorRetire.PushFreeEffect(cfg, s, s', t, w, c, i, pc, after)
    ensures FreesLocally(s, s', t, w, c, i, s.slabs[i].ops[t].slot)
  {
    assert SlabOk(cfg, s, i);
    AllocatorRetire.NeverUnreachable(cfg, s, t, w, c, i);
    hide Inv, Lists.Inv, SlabOk;
    HeldFreeing(s.slabs[i], t);
    hide Slab.Inv, Slab.Quiet;
  }

  /** A slot in hand is being freed by the handle that holds it, and the slab is wholly free after its push or not. */
  lemma HeldFreeing(x: Slab.State, t: nat)
    requires Slab.Inv(x) && t < |x.ops| && (x.ops[t].Holding? || x.ops[t].DrainHold?)
    ensures x.ops[t].slot < |x.loc| && x.loc[x.ops[t].slot] == Slab.Freeing(t)
    ensures var y := Slab.LocalPush(x, t); |y.free| == y.capacity <==> Slab.Quiet(y)
  {
    assert Slab.ThreadOk(x, t, x.ops[t]);
    Slab.LocalPushKeeps(x, t);
    Slab.FullIffQuiet(Slab.LocalPush(x, t));
  }

  lemma LocalFreeFrees(cfg: Config, s: State, t: nat, w: nat, i: nat, k: nat)
    requires Inv(cfg, s) && t < |s.agents| && s.agents[t] == Agent(Worker(w), FreeLocal(i, k))
    ensures i < cfg.numSlabs && w < cfg.numWorkers && s.slabs[i].sizeIndex < NUM_SIZE_CLASSES
    ensures FreesLocally(s, LocalFree(cfg, s, t, w, i, k), t, w, s.slabs[i].sizeIndex, i, k)
    ensures LocalFree(cfg, s, t, w, i, k).bytes == s.bytes[w := Sub64(s.bytes[w], Size(s.slabs[i].sizeIndex))]
  {
    AllocatorRetire.LocalFreeEffects(cfg, s, t, w, i, k);
    hide Inv, LocalFree, SlabOk, AgentOk, WorkerOk, Shape, FreesLocally, Size;
    PushFrees(cfg, s, LocalFree(cfg, s, t, w, i, k), t, w, s.slabs[i].sizeIndex, i, Idle, Return);
  }

  lemma OwnBytes(cfg: Config, s: State, i: nat, w: nat)
    requires Inv(cfg, s) && i < cfg.numSlabs && w < cfg.numWorkers
    ensures UsedBy(s.slabs[i], w) <= s.bytes[w]
  {
    assert WorkerOk(cfg, s, w);
    hide UsedBy;
    PartOfUsed(s.slabs, i, w);
  }

  lemma {:induction false} PartOfUsed(slabs: seq<Slab.State>, i: nat, w: nat)
    requires i < |slabs|
    ensures UsedBy(slabs[i], w) <= Used(slabs, w)
    decreases |slabs|
  {
    hide UsedBy;
    if i < |slabs| - 1 {
      PartOfUsed(slabs[..|slabs| - 1], i, w);
    }
  }

  lemma RoomInCounter(cfg: Config, s: State, t: nat, w: nat, i: nat)
    requires Inv(cfg, s) && t < |s.agents| && i < cfg.numSlabs && w < cfg.numWorkers
    requires Slab.Held(s.slabs[i].ops[t]).Some? && s.slabs[i].owner == w && s.slabs[i].sizeIndex < NUM_SIZE_CLASSES
    ensures Size(s.slabs[i].sizeIndex) <= s.bytes[w]
  {
    OwnBytes(cfg, s, i, w);
    AllocatorFree.HeldSlot(cfg, s, t, i);
    hide Inv, Size, Capacity;
    Bits.MulMono(1, s.slabs[i].capacity - |s.slabs[i].free|, Size(s.slabs[i].sizeIndex));
  }

  /**
   * `local_free`: the block's slot is free again and the counter drops by exactly the block's size, without
   * wrapping; the slab goes back to the global list exactly when nothing of it is left outstanding.
   */
  lemma LocalFreeTakesEffect(cfg: Config, s: State, t: nat, w: nat, i: nat, k: nat, words: seq<nat>)
    requires ValidConfig(cfg) && Reachable(cfg, s) && Enabled(cfg, s, t, Continue(words))
    requires s.agents[t] == Agent(Worker(w), FreeLocal(i, k))
    ensures i < |s.slabs| && w < |s.bytes| && s.slabs[i].sizeIndex < NUM_SIZE_CLASSES
    ensures FreesLocally(s, Apply(cfg, s, t, Continue(words)), t, w, s.slabs[i].sizeIndex, i, k)
    ensures CounterDrops(s, Apply(cfg, s, t, Continue(words)), w, Size(s.slabs[i].sizeIndex))
  {
    ReachableInv(cfg, s);
    hide Reachable, Inv, Apply, FreesLocally, Size, LocalFree, Enabled, Sub64, CounterDrops;
    LocalFreeFrees(cfg, s, t, w, i, k);
    StepFreesLocally(cfg, s, t, w, i, k, words);
    OwnedHere(cfg, s, t, w, i, k);
    RoomInCounter(cfg, s, t, w, i);
    SubIsMinus(s, Apply(cfg, s, t, Continue(words)), w, Size(s.slabs[i].sizeIndex));
  }

  /** The counter of worker `w` drops by `n`, with nothing to wrap. */
  ghost predicate CounterDrops(s: State, s': State, w: nat, n: nat) {
    w < |s.bytes| && n <= s.bytes[w] && s'.bytes == s.bytes[w := s.bytes[w] - n]
  }

  lemma SubIsMinus(s: State, s': State, w: nat, n: nat)
    requires w < |s.bytes| && n <= s.bytes[w] < TWO_64 && s'.bytes == s.bytes[w := Sub64(s.bytes[w], n)]
    ensures CounterDrops(s, s', w, n)
  {
  }

  lemma StepFreesLocally(cfg: Config, s: State, t: nat, w: nat, i: nat, k: nat, words: seq<nat>)
    requires Inv(cfg, s) && Enabled(cfg, s, t, Continue(words)) && s.agents[t] == Agent(Worker(w), FreeLocal(i, k))
    ensures i < cfg.numSlabs && w < cfg.numWorkers
    ensures Apply(cfg, s, t, Continue(words)) == LocalFree(cfg, s, t, w, i, k)
  {
    InBounds(cfg, s, t);
    hide Inv, LocalFree, Size, Claim, Take, Refill, TakeSlot, Find, ChooseRoute, BeginRemote,
      RemoteStep, Give, StartLine, IterStep, SwapStep, DrainStep, DrainFree, ValidConfig;
  }

  lemma OwnedHere(cfg: Config, s: State, t: nat, w: nat, i: nat, k: nat)
    requires Inv(cfg, s) && t < |s.agents| && s.agents[t] == Agent(Worker(w), FreeLocal(i, k))
    ensures i < cfg.numSlabs && s.slabs[i].owner == w && Slab.Held(s.slabs[i].ops[t]) == Some(k)
    ensures w < cfg.numWorkers && s.bytes[w] < TWO_64
  {
    hide Pool.Inv, Lists.Inv, Slab.Inv, SlabOk, Size, Capacity, ValidConfig;
    assert AgentOk(cfg, s, t) && WorkerOk(cfg, s, w);
    assert SlabOpFits(s.agents[t].pc, i, s.slabs[i].ops[t]);
  }

  /** At the end of a slab's drain, and only then, the counter drops by exactly the bytes the drain freed. */
  lemma DrainSettles(cfg: Config, s: State, t: nat, w: nat, d: Drain, words: seq<nat>)
    requires ValidConfig(cfg) && Reachable(cfg, s) && Enabled(cfg, s, t, Continue(words))
    requires s.agents[t] == Agent(Worker(w), CleanDrain(d))
    ensures d.slab < |s.slabs| && t < |s.slabs[d.slab].ops| && s.slabs[d.slab].ops[t].Draining? && d.sizeIndex < NUM_SIZE_CLASSES
    ensures s.slabs[d.slab].ops[t].cursor == NULL_U16 ==>
              CounterDrops(s, Apply(cfg, s, t, Continue(words)), w, d.freed * Size(d.sizeIndex))
    ensures s.slabs[d.slab].ops[t].cursor != NULL_U16 ==> Apply(cfg, s, t, Continue(words)).bytes == s.bytes
  {
    ReachableInv(cfg, s);
    hide Reachable, Inv, Apply, CounterDrops, Size, DrainStep, Enabled;
    StepDrains(cfg, s, t, w, d, words);
    DrainStepBytes(cfg, s, t, w, d);
  }

  lemma StepDrains(cfg: Config, s: State, t: nat, w: nat, d: Drain, words: seq<nat>)
    requires Inv(cfg, s) && Enabled(cfg, s, t, Continue(words)) && s.agents[t] == Agent(Worker(w), CleanDrain(d))
    ensures d.slab < cfg.numSlabs && w < cfg.numWorkers
    ensures Apply(cfg, s, t, Continue(words)) == DrainStep(cfg, s, t, w, d)
  {
    InBounds(cfg, s, t);
    hide Inv, LocalFree, Size, Claim, Take, Refill, TakeSlot, Find, ChooseRoute, BeginRemote,
      RemoteStep, Give, StartLine, IterStep, SwapStep, DrainStep, DrainFree, ValidConfig;
  }

  lemma DrainStepBytes(cfg: Config, s: State, t: nat, w: nat, d: Drain)
    requires Inv(cfg, s) && t < |s.agents| && s.agents[t] == Agent(Worker(w), CleanDrain(d))
    requires d.slab < cfg.numSlabs && w < cfg.numWorkers
    ensures s.slabs[d.slab].ops[t].Draining? && d.sizeIndex < NUM_SIZE_CLASSES
    ensures s.slabs[d.slab].ops[t].cursor == NULL_U16 ==> CounterDrops(s, DrainStep(cfg, s, t, w, d), w, d.freed * Size(d.sizeIndex))
    ensures s.slabs[d.slab].ops[t].cursor != NULL_U16 ==> DrainStep(cfg, s, t, w, d).bytes == s.bytes
  {
    hide Pool.Inv, Lists.Inv, Slab.Inv, SlabOk, Size, Capacity, ValidConfig, Midway, Ahead, CounterDrops;
    assert AgentOk(cfg, s, t) && WorkerOk(cfg, s, w);
    assert SlabOpFits(s.agents[t].pc, d.slab, s.slabs[d.slab].ops[t]);
    AllocatorClean.LineInRange(s.local, w, d.line, d.next, d.walk);
    var n := d.freed * Size(d.sizeIndex);
    assert n <= s.bytes[w] < TWO_64;
    hide Inv, AgentOk, WorkerOk;
    assert d.freed == 0 ==> n == 0;
    assert s.bytes[w := s.bytes[w]] == s.bytes;
    SubZero(s.bytes[w]);
    if s.slabs[d.slab].ops[t].cursor == NULL_U16 { SubIsMinus(s, DrainStep(cfg, s, t, w, d), w, n); }
  }

  lemma SubZero(a: nat)
    requires a < TWO_64
    ensures Sub64(a, 0) == a
  {
  }
}
