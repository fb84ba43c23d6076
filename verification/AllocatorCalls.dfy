/** When an allocation may fail. */
module AllocatorCalls {
  import opened Base
  import opened SizeClasses
  import opened Address
  import opened Allocator
  import opened AllocatorInv
  import opened AllocatorRuns
  import opened AllocatorProjection
  import opened AllocatorOwners
  import Cleaning
  import Pool = GlobalFreeList
  import PoolRuns = GlobalFreeListRuns
  import Lists = LocalLists

  // ----- a failed allocation

  /** Handle `t` is taking a slab of class `c` from the global list in every state of the run. */
  ghost predicate TakingRun(cfg: Config, s: State, es: seq<Event>, t: nat, c: nat)
    requires ValidConfig(cfg) && Valid(cfg, s, es)
    decreases |es|
  {
    && t < |s.agents| && s.agents[t].pc == Taking(c)
    && (es == [] || TakingRun(cfg, Apply(cfg, s, es[0].tid, es[0].act), es[1..], t, c))
  }

  /** The event reads the head of the global list, and both that list and the caller's partial list are empty. */
  ghost predicate SawEmpty(s: State, e: Event, t: nat, k: Lists.Key) {
    && e.tid == t < |s.pool.ops| && e.act.Continue? && s.pool.ops[t] == Pool.PopStart
    && s.pool.stack == [] && k in s.local.lists && s.local.lists[k] == []
  }

  ghost predicate SawEmptyIn(cfg: Config, s: State, es: seq<Event>, t: nat, k: Lists.Key)
    requires ValidConfig(cfg) && Valid(cfg, s, es)
    decreases |es|
  {
    es != [] && (SawEmpty(s, es[0], t, k) || SawEmptyIn(cfg, Apply(cfg, s, es[0].tid, es[0].act), es[1..], t, k))
  }

  lemma OthersKeepPoolOp(cfg: Config, s: State, u: nat, a: Action, t: nat)
    requires Inv(cfg, s) && Enabled(cfg, s, u, a) && t < |s.pool.ops| && u != t
    ensures t < |Apply(cfg, s, u, a).pool.ops| && Apply(cfg, s, u, a).pool.ops[t] == s.pool.ops[t]
  {
    PoolProjection(cfg, s, u, a);
    var pa := PoolAction(cfg, s, u, a);
    hide Inv, Enabled, Apply, PoolAction, Pool.Inv, Pool.Apply, Pool.Enabled;
    if pa.Some? { OneOp(s.pool, u, pa.value, t); }
  }

  lemma OneOp(p: Pool.State, u: nat, a: Pool.Action, t: nat)
    requires u < |p.ops| && t < |p.ops| && u != t
    ensures t < |Pool.Apply(p, u, a).ops| && Pool.Apply(p, u, a).ops[t] == p.ops[t]
  {
  }

  /** What one step does while handle `t` takes: the list stays empty, and failure means the pool was empty. */
  lemma TakingStep(cfg: Config, s: State, e: Event, t: nat, c: nat, k: Lists.Key)
    requires Inv(cfg, s) && FreshStep(s, e.tid, e.act) && Enabled(cfg, s, e.tid, e.act)
    requires t < |s.agents| && s.agents[t].pc == Taking(c) && s.agents[t].handle == Worker(k.worker)
    requires k in s.local.lists && s.local.lists[k] == [] && t < |s.pool.ops| && s.pool.ops[t] != Pool.PopFailed
    requires var s' := Apply(cfg, s, e.tid, e.act); t < |s'.agents| && s'.agents[t].pc == Taking(c)
    ensures var s' := Apply(cfg, s, e.tid, e.act);
      && s'.agents[t].handle == s.agents[t].handle && k in s'.local.lists && s'.local.lists[k] == []
      && t < |s'.pool.ops| && (s'.pool.ops[t] == Pool.PopFailed ==> SawEmpty(s, e, t, k))
  {
    if e.tid != t {
      InRange(cfg, s, e.tid, e.act);
      Exclusive(cfg, s, t, e.tid);
      OnlyOwnerTouchesLists(cfg, s, e.tid, e.act, k.worker);
      OthersKeepPoolOp(cfg, s, e.tid, e.act, t);
      hide Inv, Enabled, Apply;
      Cleaning.OthersKeepPc(cfg, s, e.tid, e.act, t);
    } else if e.act.Continue? {
      OwnTakingStep(cfg, s, t, c, e.act.words);
      hide Inv, Enabled, Apply;
    } else {
      assert e.act.Write?;
      hide Inv;
    }
  }

  lemma OwnTakingStep(cfg: Config, s: State, t: nat, c: nat, words: seq<nat>)
    requires Inv(cfg, s) && Enabled(cfg, s, t, Continue(words)) && s.agents[t].pc == Taking(c)
    requires t < |s.pool.ops| && s.pool.ops[t] != Pool.PopFailed
    requires var s' := Apply(cfg, s, t, Continue(words)); t < |s'.agents| && s'.agents[t].pc == Taking(c)
    ensures var s' := Apply(cfg, s, t, Continue(words));
      && s'.agents[t].handle == s.agents[t].handle && s'.local == s.local && t < |s'.pool.ops|
      && (s'.pool.ops[t] == Pool.PopFailed ==> s.pool.ops[t] == Pool.PopStart && s.pool.stack == [])
  {
    InBounds(cfg, s, t);
    PoolProjection(cfg, s, t, Continue(words));
    PopFailsHere(s.pool, t);
    assert PoolAction(cfg, s, t, Continue(words)).value in {Pool.Return, Pool.Continue};
    hide Inv, Refill, TakeSlot, LocalFree, DrainFree, Claim, Find, ChooseRoute, BeginRemote, RemoteStep, Give, Size, Capacity,
      Pool.Advance, DrainStep, ValidConfig, SwapStep, IterStep, StartLine, PoolAction;
  }

  lemma PopFailsHere(p: Pool.State, t: nat)
    requires Pool.Inv(p) && t < |p.ops| && p.ops[t] != Pool.PopFailed
    ensures t < |Pool.Advance(p, t).ops|
    ensures Pool.Advance(p, t).ops[t] == Pool.PopFailed ==> p.ops[t] == Pool.PopStart && p.stack == []
    ensures t < |Pool.Apply(p, t, Pool.Return).ops| && Pool.Apply(p, t, Pool.Return).ops[t] != Pool.PopFailed
  {
    if p.ops[t] == Pool.PopStart { PoolRuns.PopFailsIffEmpty(p, t, p.stack); }
  }

  lemma {:induction false} FailureSawEmpty(cfg: Config, s: State, es: seq<Event>, t: nat, c: nat, k: Lists.Key)
    requires ValidConfig(cfg) && Inv(cfg, s) && Valid(cfg, s, es) && FreshRun(cfg, s, es) && TakingRun(cfg, s, es, t, c)
    requires s.agents[t].handle == Worker(k.worker) && k in s.local.lists && s.local.lists[k] == []
    requires t < |s.pool.ops| && s.pool.ops[t] != Pool.PopFailed
    requires t < |Exec(cfg, s, es).pool.ops| && Exec(cfg, s, es).pool.ops[t] == Pool.PopFailed
    ensures SawEmptyIn(cfg, s, es, t, k)
    decreases |es|
  {
    hide Inv, Apply, Enabled, SawEmpty;
    if es != [] {
      var s1 := Apply(cfg, s, es[0].tid, es[0].act);
      assert TakingRun(cfg, s1, es[1..], t, c);
      TakingStep(cfg, s, es[0], t, c, k);
      StepKeepsInv(cfg, s, es[0].tid, es[0].act);
      if s1.pool.ops[t] != Pool.PopFailed { FailureSawEmpty(cfg, s1, es[1..], t, c, k); }
    }
  }

  /**
   * Allocation completeness: a request of valid size comes back empty-handed only if, at the step where its pop
   * read the head of the global list, that list was empty and so was the worker's partial list for the class.
   */
  lemma AllocateFailsOnlyWhenEmpty(cfg: Config, s: State, t: nat, size: nat, es: seq<Event>, c: nat)
    requires ValidConfig(cfg) && Reachable(cfg, s) && Enabled(cfg, s, t, CallAllocate(size)) && 0 < size
    requires SizeClassIndex(size) == Some(c)
    requires var s1 := Apply(cfg, s, t, CallAllocate(size));
      && Valid(cfg, s1, es) && FreshRun(cfg, s1, es) && TakingRun(cfg, s1, es, t, c)
      && t < |Exec(cfg, s1, es).pool.ops| && Exec(cfg, s1, es).pool.ops[t] == Pool.PopFailed
    ensures SawEmptyIn(cfg, Apply(cfg, s, t, CallAllocate(size)), es, t, Lists.Key(s.agents[t].handle.index, c, false))
  {
    ReachableInv(cfg, s);
    var k := Lists.Key(s.agents[t].handle.index, c, false);
    StepKeepsInv(cfg, s, t, CallAllocate(size));
    PartialWasEmpty(cfg, s, t, size, c);
    hide Reachable, Inv, Apply, Enabled;
    FailureSawEmpty(cfg, Apply(cfg, s, t, CallAllocate(size)), es, t, c, k);
  }

  lemma PartialWasEmpty(cfg: Config, s: State, t: nat, size: nat, c: nat)
    requires Inv(cfg, s) && Enabled(cfg, s, t, CallAllocate(size)) && 0 < size && SizeClassIndex(size) == Some(c)
    requires t < |Apply(cfg, s, t, CallAllocate(size)).agents| && Apply(cfg, s, t, CallAllocate(size)).agents[t].pc == Taking(c)
    ensures var s1 := Apply(cfg, s, t, CallAllocate(size));
            var k := Lists.Key(s.agents[t].handle.index, c, false);
      && s1.agents[t].handle == Worker(k.worker) && k in s1.local.lists && s1.local.lists[k] == []
      && t < |s1.pool.ops| && s1.pool.ops[t] == Pool.PopStart
  {
    LeastClass(size);
    hide Pool.Inv, SlabOk, AgentOk, WorkerOk, SizeClassIndex, Size;
    Lists.ReadHead(s.local, Lists.Key(s.agents[t].handle.index, c, false));
  }
}
