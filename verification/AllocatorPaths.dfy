/** A reachable state, step by step from a fresh file: one handle has allocated a block, another may only free. */
module AllocatorPaths {
  import opened SizeClasses
  import opened Address
  import opened Allocator
  import opened AllocatorInv
  import opened AllocatorRuns
  import opened AllocatorAccounts
  import opened AllocatingAlone
  import opened Cleaning
  import Late = CleaningLate
  import Theorems = AllocatorTheorems
  import Pool = GlobalFreeList
  import Lists = LocalLists
  import Slab

  /** A fresh run leads from `s` to `r`. */
  ghost predicate Leads(cfg: Config, s: State, r: State)
    requires ValidConfig(cfg)
  {
    exists es: seq<Event> :: RunTo(cfg, s, es, r)
  }

  lemma LeadsTrans(cfg: Config, s: State, m: State, r: State)
    requires ValidConfig(cfg) && Leads(cfg, s, m) && Leads(cfg, m, r)
    ensures Leads(cfg, s, r)
  {
    var a: seq<Event> :| RunTo(cfg, s, a, m);
    var b: seq<Event> :| RunTo(cfg, m, b, r);
    hide Valid, FreshRun, Exec;
    Late.AppendRun(cfg, s, a, b);
    assert RunTo(cfg, s, a + b, r);
  }

  lemma GoLeads(cfg: Config, s: State, t: nat, a: Action)
    requires Inv(cfg, s) && Enabled(cfg, s, t, a) && FreshStep(s, t, a)
    ensures Inv(cfg, Apply(cfg, s, t, a)) && Leads(cfg, s, Apply(cfg, s, t, a))
    ensures |Apply(cfg, s, t, a).agents| == |s.agents|
    ensures forall u: nat {:trigger Apply(cfg, s, t, a).agents[u]} :: u < |s.agents| && u != t ==>
              Apply(cfg, s, t, a).agents[u] == s.agents[u]
  {
    Go(cfg, s, t, a);
    hide Inv, Apply, Enabled, RunTo;
  }

  // ----- from a fresh file

  /** Handle 0 has joined as worker 0 and handle 1 as free-only; all slabs are in the pool. */
  lemma Joined(cfg: Config) returns (r: State)
    requires ValidConfig(cfg)
    ensures Leads(cfg, Initial(cfg, 2), r) && Inv(cfg, r) && |r.agents| == 2
    ensures r.agents[0] == Agent(Worker(0), Idle) && r.agents[1] == Agent(FreeOnly, Idle)
    ensures r.pool == Initial(cfg, 2).pool && r.local == Initial(cfg, 2).local
  {
    var s := Initial(cfg, 2);
    InitialInv(cfg, 2);
    FreshFile(cfg);
    hide Initial;
    FreeOnlyJoins(cfg, s);
    var s1 := Apply(cfg, s, 1, JoinFreeOnly);
    GoLeads(cfg, s, 1, JoinFreeOnly);
    JoinBegins(cfg, s1);
    var s2 := Apply(cfg, s1, 0, Join);
    GoLeads(cfg, s1, 0, Join);
    JoinClaims(cfg, s2);
    r := Apply(cfg, s2, 0, Continue([]));
    GoLeads(cfg, s2, 0, Continue([]));
    hide Inv, Apply, Enabled, Leads;
    assert r.agents[1] == s2.agents[1] == s1.agents[1];
    LeadsTrans(cfg, s, s1, s2);
    LeadsTrans(cfg, s, s2, r);
  }

  lemma FreshFile(cfg: Config)
    requires ValidConfig(cfg)
    ensures var s := Initial(cfg, 2);
      && |s.agents| == 2 && s.agents[0] == Agent(NoHandle, Idle) && s.agents[1] == Agent(NoHandle, Idle)
      && |s.claimed| == cfg.numWorkers > 0 && !s.claimed[0] && s.pool.stack != []
      && forall c: nat, f: bool {:trigger Lists.Key(0, c, f)} :: c < NUM_SIZE_CLASSES ==>
           Lists.Key(0, c, f) in s.local.lists && s.local.lists[Lists.Key(0, c, f)] == []
  {
    InitialSized(cfg, 2);
    assert Initial(cfg, 2).pool.stack[0] == 0;
  }

  lemma FreeOnlyJoins(cfg: Config, s: State)
    requires Inv(cfg, s) && |s.agents| == 2 && s.agents[1] == Agent(NoHandle, Idle)
    ensures Enabled(cfg, s, 1, JoinFreeOnly) && FreshStep(s, 1, JoinFreeOnly)
    ensures var r := Apply(cfg, s, 1, JoinFreeOnly);
      |r.agents| == 2 && r.agents[1] == Agent(FreeOnly, Idle) && r.pool == s.pool && r.local == s.local && r.claimed == s.claimed
  {
    Counts(cfg, s);
    hide Inv;
  }

  lemma JoinBegins(cfg: Config, s: State)
    requires Inv(cfg, s) && |s.agents| == 2 && s.agents[0] == Agent(NoHandle, Idle)
    ensures Enabled(cfg, s, 0, Join) && FreshStep(s, 0, Join)
    ensures var r := Apply(cfg, s, 0, Join);
      |r.agents| == 2 && r.agents[0] == Agent(NoHandle, Claiming(0)) && r.pool == s.pool && r.local == s.local && r.claimed == s.claimed
  {
    Counts(cfg, s);
    hide Inv;
  }

  lemma JoinClaims(cfg: Config, s: State)
    requires Inv(cfg, s) && |s.agents| == 2 && s.agents[0] == Agent(NoHandle, Claiming(0)) && |s.claimed| > 0 && !s.claimed[0]
    ensures Enabled(cfg, s, 0, Continue([])) && FreshStep(s, 0, Continue([]))
    ensures var r := Apply(cfg, s, 0, Continue([]));
      |r.agents| == 2 && r.agents[0] == Agent(Worker(0), Idle) && r.pool == s.pool && r.local == s.local
  {
    ClaimsInPool(cfg, s);
    Counts(cfg, s);
    InBounds(cfg, s, 0);
    hide Inv, Refill, TakeSlot, LocalFree, DrainFree, Take, Find, ChooseRoute, BeginRemote, RemoteStep, Give, Size, Capacity,
      DrainStep, ValidConfig, SwapStep, IterStep, StartLine;
  }

  lemma ClaimsInPool(cfg: Config, s: State)
    requires Inv(cfg, s) && |s.agents| == 2 && s.agents[0] == Agent(NoHandle, Claiming(0))
    ensures |s.pool.ops| == 2 && s.pool.ops[0] == Pool.Idle
  {
    hide Pool.Inv, Lists.Inv, Slab.Inv, SlabOk, WorkerOk, ValidConfig;
    assert AgentOk(cfg, s, 0);
  }

  /** A reachable state in which a block of a slab of worker 0 is live and another, free-only handle is idle. */
  lemma LiveBlockReachable(cfg: Config) returns (r: State, i: nat, k: nat)
    requires ValidConfig(cfg)
    ensures Reachable(cfg, r) && Late.MayFreeLate(cfg, r, 0, 1, i, k) && r.agents[0].handle == Worker(0)
  {
    var s := Joined(cfg);
    FreshFile(cfg);
    ReachesHere(cfg, s);
    CanAllocate(cfg, s);
    hide Initial, Inv, Apply, Enabled, Reachable, RunTo, NewBlock;
    var es, got;
    es, r, got := AllocateAlone(cfg, s, 0, 0, 256);
    i, k := got.value.0, got.value.1;
    LeadsTrans(cfg, Initial(cfg, 2), s, r);
    KeepsInv(cfg, s, es, r);
    BlockThere(cfg, s, r, SizeClassIndex(256).value, i, k);
    Arrived(cfg, r, i, k);
  }

  lemma CanAllocate(cfg: Config, s: State)
    requires Inv(cfg, s) && 0 < |s.agents| && s.agents[0] == Agent(Worker(0), Idle)
    ensures Enabled(cfg, s, 0, CallAllocate(256)) && Covered(256) && 0 < cfg.numWorkers
  {
    assert 256 <= Size(0);
    hide Pool.Inv, Lists.Inv, Slab.Inv, SlabOk, WorkerOk;
    assert AgentOk(cfg, s, 0);
  }

  lemma KeepsInv(cfg: Config, s: State, es: seq<Event>, r: State)
    requires ValidConfig(cfg) && Inv(cfg, s) && RunTo(cfg, s, es, r)
    ensures Inv(cfg, r)
  {
    hide Inv, Valid, FreshRun, Exec;
    RunKeepsInv(cfg, s, es);
  }

  lemma BlockThere(cfg: Config, s: State, r: State, c: nat, i: nat, k: nat)
    requires Inv(cfg, r) && NewBlock(cfg, s, r, 0, c, i, k)
    ensures i < cfg.numSlabs && HeldBy(r, 0, i) && Theorems.LiveBlock(r, i, k)
  {
    Counts(cfg, r);
    hide Inv, HeldBy;
  }

  lemma Arrived(cfg: Config, r: State, i: nat, k: nat)
    requires ValidConfig(cfg) && Inv(cfg, r) && Leads(cfg, Initial(cfg, 2), r) && 1 < |r.agents|
    requires r.agents[0] == Agent(Worker(0), Idle) && r.agents[1] == Agent(FreeOnly, Idle)
    requires 0 < cfg.numWorkers && i < cfg.numSlabs && HeldBy(r, 0, i) && Theorems.LiveBlock(r, i, k)
    ensures Reachable(cfg, r) && Late.MayFreeLate(cfg, r, 0, 1, i, k) && r.agents[0].handle == Worker(0)
  {
    hide *;
    ReachesHere(cfg, r);
    ReadyToFree(cfg, r, i, k);
  }

  lemma ReadyToFree(cfg: Config, r: State, i: nat, k: nat)
    requires Inv(cfg, r) && 1 < |r.agents|
    requires r.agents[0] == Agent(Worker(0), Idle) && r.agents[1] == Agent(FreeOnly, Idle)
    requires 0 < cfg.numWorkers && i < cfg.numSlabs && HeldBy(r, 0, i) && Theorems.LiveBlock(r, i, k)
    ensures Late.MayFreeLate(cfg, r, 0, 1, i, k) && r.agents[0].handle == Worker(0)
  {
    Counts(cfg, r);
    hide Inv, HeldBy, Theorems.LiveBlock;
  }

  lemma ReachesHere(cfg: Config, r: State)
    requires ValidConfig(cfg) && Leads(cfg, Initial(cfg, 2), r)
    ensures Reachable(cfg, r)
  {
    hide Valid, FreshRun, Exec, Initial;
    var es: seq<Event> :| RunTo(cfg, Initial(cfg, 2), es, r);
    assert ReachedBy(cfg, r, 2, es);
  }

  /**
   * In every file there is a reachable state from which a cleaning call, whose worker another handle frees to late,
   * leaves a slot on the remote list of a slab it has visited.
   */
  lemma RemoteListMayStayFull(cfg: Config) returns (s: State, es: seq<Event>, i: nat, k: nat)
    requires ValidConfig(cfg)
    ensures Reachable(cfg, s) && Enabled(cfg, s, 0, CallClean)
    ensures var s1 := Apply(cfg, s, 0, CallClean);
      && Valid(cfg, s1, es) && FreshRun(cfg, s1, es) && InCall(cfg, s1, es, 0) && AtEnd(Exec(cfg, s1, es), 0)
      && HeldBy(s1, 0, i) && i < |Exec(cfg, s1, es).slabs| && Exec(cfg, s1, es).slabs[i].chain == [k]
  {
    s, i, k := LiveBlockReachable(cfg);
    es := Late.LatePushStays(cfg, s, 0, 1, i, k);
    HeldAtCall(cfg, s, i, k);
    hide Reachable, Inv, Apply, HeldBy;
  }

  lemma HeldAtCall(cfg: Config, s: State, i: nat, k: nat)
    requires Late.MayFreeLate(cfg, s, 0, 1, i, k) && s.agents[0].handle == Worker(0)
    ensures ValidConfig(cfg) && Enabled(cfg, s, 0, CallClean) && HeldBy(Apply(cfg, s, 0, CallClean), 0, i)
  {
    Late.SameHeld(s, Apply(cfg, s, 0, CallClean), 0, i);
  }
}
