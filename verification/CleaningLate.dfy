/**
 * Why a remote list need not be empty after a cleaning call: from a reachable state, a run in which another handle
 * frees a block once its slab has been visited, and the block's slot is still on the list when the call ends.
 */
module CleaningLate {
  import opened Base
  import opened SizeClasses
  import opened Address
  import opened Allocator
  import opened AllocatorInv
  import opened AllocatorRuns
  import opened AllocatorProjection
  import opened AllocatorOwners
  import opened AllocatorAccounts
  import opened Cleaning
  import opened CleaningDrains
  import opened CleaningPushes
  import opened CleaningAlone
  import AllocatorFree
  import Theorems = AllocatorTheorems
  import Pool = GlobalFreeList
  import Lists = LocalLists
  import Slab
  import SlabRuns

  // ----- runs, put together

  lemma {:induction false} AppendRun(cfg: Config, s: State, a: seq<Event>, b: seq<Event>)
    requires ValidConfig(cfg) && Valid(cfg, s, a) && FreshRun(cfg, s, a)
    requires Valid(cfg, Exec(cfg, s, a), b) && FreshRun(cfg, Exec(cfg, s, a), b)
    ensures Valid(cfg, s, a + b) && FreshRun(cfg, s, a + b)
    ensures Exec(cfg, s, a + b) == Exec(cfg, Exec(cfg, s, a), b)
    decreases |a|
  {
    hide Apply, Enabled, FreshStep;
    if a == [] {
      assert a + b == b;
    } else {
      assert (a + b)[0] == a[0] && (a + b)[1..] == a[1..] + b;
      AppendRun(cfg, Apply(cfg, s, a[0].tid, a[0].act), a[1..], b);
    }
  }

  lemma {:induction false} AppendInCall(cfg: Config, s: State, a: seq<Event>, b: seq<Event>, t: nat)
    requires ValidConfig(cfg) && Valid(cfg, s, a) && Valid(cfg, s, a + b) && Valid(cfg, Exec(cfg, s, a), b)
    requires InCall(cfg, s, a, t) && InCall(cfg, Exec(cfg, s, a), b, t)
    ensures InCall(cfg, s, a + b, t)
    decreases |a|
  {
    hide Apply, Enabled;
    if a == [] {
      assert a + b == b;
    } else {
      assert (a + b)[0] == a[0] && (a + b)[1..] == a[1..] + b;
      AppendInCall(cfg, Apply(cfg, s, a[0].tid, a[0].act), a[1..], b, t);
    }
  }

  /** A fresh run leads from `s` to `r`, and handle `t` is in one cleaning call all along. */
  ghost predicate LedInCall(cfg: Config, s: State, r: State, t: nat)
    requires ValidConfig(cfg)
  {
    exists es: seq<Event> :: RunInCall(cfg, s, es, r, t)
  }

  ghost predicate RunInCall(cfg: Config, s: State, es: seq<Event>, r: State, t: nat)
    requires ValidConfig(cfg)
  {
    Valid(cfg, s, es) && FreshRun(cfg, s, es) && Exec(cfg, s, es) == r && InCall(cfg, s, es, t)
  }

  lemma LedTrans(cfg: Config, s: State, m: State, r: State, t: nat)
    requires ValidConfig(cfg) && LedInCall(cfg, s, m, t) && LedInCall(cfg, m, r, t)
    ensures LedInCall(cfg, s, r, t)
  {
    var a: seq<Event> :| RunInCall(cfg, s, a, m, t);
    var b: seq<Event> :| RunInCall(cfg, m, b, r, t);
    hide Valid, FreshRun, Exec, InCall;
    AppendRun(cfg, s, a, b);
    AppendInCall(cfg, s, a, b, t);
    assert RunInCall(cfg, s, a + b, r, t);
  }

  // ----- a block freed while a call is at its end

  /** Handle `t` is at the end of its call, and slab `i` has nothing on its remote list; handle `u` only frees. */
  ghost predicate Scene(cfg: Config, s: State, t: nat, u: nat, w: nat, i: nat) {
    && Inv(cfg, s) && AtEnd(s, t) && u != t && u < |s.agents| && s.agents[u].handle == FreeOnly
    && HeldBy(s, w, i) && i < cfg.numSlabs
  }

  lemma SceneStep(cfg: Config, s: State, t: nat, u: nat, w: nat, i: nat, a: Action)
    requires Scene(cfg, s, t, u, w, i) && Enabled(cfg, s, u, a) && FreshStep(s, u, a)
    requires u < |Apply(cfg, s, u, a).agents| && Apply(cfg, s, u, a).agents[u].handle == FreeOnly
    ensures Scene(cfg, Apply(cfg, s, u, a), t, u, w, i) && LedInCall(cfg, s, Apply(cfg, s, u, a), t)
  {
    var r := Apply(cfg, s, u, a);
    StepKeepsInv(cfg, s, u, a);
    hide Inv, Apply, Enabled, FreshStep;
    OthersKeepPc(cfg, s, u, a, t);
    OnlyOwnerTouchesLists(cfg, s, u, a, w);
    hide HeldBy, Untouched;
    HeldStays(s, r, w, i);
    OneEvent(cfg, s, Event(u, a), t);
  }

  lemma OneEvent(cfg: Config, s: State, e: Event, t: nat)
    requires ValidConfig(cfg) && Enabled(cfg, s, e.tid, e.act) && FreshStep(s, e.tid, e.act)
    requires t < |s.agents| && WalkOf(s.agents[t].pc).Some?
    requires var r := Apply(cfg, s, e.tid, e.act); t < |r.agents| && WalkOf(r.agents[t].pc).Some?
    ensures LedInCall(cfg, s, Apply(cfg, s, e.tid, e.act), t)
  {
    hide Apply, Enabled, FreshStep;
    var r := Apply(cfg, s, e.tid, e.act);
    var es := [e];
    assert es[1..] == [];
    assert Valid(cfg, r, []) && FreshRun(cfg, r, []) && Exec(cfg, r, []) == r && InCall(cfg, r, [], t);
    assert Valid(cfg, s, es);
    assert FreshRun(cfg, s, es) && Exec(cfg, s, es) == r && InCall(cfg, s, es, t);
    assert RunInCall(cfg, s, es, r, t);
  }

  lemma HeldStays(s: State, r: State, w: nat, i: nat)
    requires HeldBy(s, w, i) && Untouched(s, r, w)
    ensures HeldBy(r, w, i)
  {
    var k :| k in s.local.lists && k.worker == w && i in s.local.lists[k];
    assert k in r.local.lists && i in r.local.lists[k];
  }

  /** The steps of a remote free, told by the program counter of handle `u` and its operation on the slab. */
  lemma BeginFreeStep(cfg: Config, s: State, u: nat, i: nat, k: nat)
    requires Inv(cfg, s) && Enabled(cfg, s, u, CallFree(i, k)) && s.agents[u].handle == FreeOnly
    ensures var r := Apply(cfg, s, u, CallFree(i, k));
      && u < |r.agents| && r.agents[u].handle == FreeOnly && r.agents[u].pc.FindBlock?
      && r.agents[u].pc.slab == i && r.agents[u].pc.slot == k
      && i < |r.slabs| && r.slabs[i].chain == s.slabs[i].chain
  {
    hide Inv, ValidConfig;
  }

  lemma FindStep(cfg: Config, s: State, u: nat, i: nat, k: nat)
    requires Inv(cfg, s) && u < |s.agents| && s.agents[u].handle == FreeOnly
    requires s.agents[u].pc.FindBlock? && s.agents[u].pc.slab == i && s.agents[u].pc.slot == k
    ensures Enabled(cfg, s, u, Continue([]))
    ensures var r := Apply(cfg, s, u, Continue([]));
      u < |r.agents| && r.agents[u] == Agent(FreeOnly, FreeRemote(i, k)) && r.slabs == s.slabs
  {
    CanContinue(cfg, s, u);
    FreeFindsItsBlock(cfg, s, u, s.agents[u].pc.offset, i, k, []);
    hide Inv, Apply, Enabled;
  }

  lemma CanContinue(cfg: Config, s: State, u: nat)
    requires Inv(cfg, s) && u < |s.agents|
    requires s.agents[u].pc.FindBlock? || s.agents[u].pc.FreeRemote? || s.agents[u].pc.RemotePush?
    ensures Enabled(cfg, s, u, Continue([])) && Fresh(s, u)
  {
    hide Pool.Inv, Lists.Inv, Slab.Inv, SlabOk, WorkerOk, ValidConfig;
    assert AgentOk(cfg, s, u);
  }

  /** The slab's side of a step of a remote free, and where the handle goes. */
  lemma RemoteMove(cfg: Config, s: State, u: nat, i: nat)
    requires Inv(cfg, s) && u < |s.agents| && s.agents[u].handle == FreeOnly && i < cfg.numSlabs
    requires (s.agents[u].pc.FreeRemote? || s.agents[u].pc.RemotePush?) && s.agents[u].pc.slab == i
    ensures Enabled(cfg, s, u, Continue([])) && Fresh(s, u) && Slab.Inv(s.slabs[i]) && u < |s.slabs[i].ops|
    ensures var r := Apply(cfg, s, u, Continue([])); var a := if s.agents[u].pc.FreeRemote? then SlabRuns.Route else SlabRuns.Push;
      && u < |r.agents| && r.agents[u].handle == FreeOnly && i < |r.slabs|
      && SlabRuns.Enabled(s.slabs[i], u, a) && SlabRuns.Apply(s.slabs[i], u, a) == r.slabs[i]
      && (r.agents[u].pc == Idle || (r.agents[u].pc.RemotePush? && r.agents[u].pc.slab == i))
      && (r.agents[u].pc == Idle <==> r.slabs[i].ops[u] == Slab.Idle)
  {
    CanContinue(cfg, s, u);
    SlabProjection(cfg, s, u, Continue([]), i);
    InBounds(cfg, s, u);
    FreeSpot(cfg, s, u, i);
    hide Inv, ValidConfig, SlabRuns.Apply, SlabRuns.Enabled, Slab.Inv, Size, Capacity, LocalFree, Find, Claim, Take, Refill, TakeSlot, Give,
      StartLine, IterStep, SwapStep, DrainStep, DrainFree;
  }

  /** A handle in a remote free holds a slot of that slab. */
  lemma FreeSpot(cfg: Config, s: State, u: nat, i: nat)
    requires Inv(cfg, s) && u < |s.agents| && i < cfg.numSlabs
    requires (s.agents[u].pc.FreeRemote? || s.agents[u].pc.RemotePush?) && s.agents[u].pc.slab == i
    ensures u < |s.slabs[i].ops| && s.slabs[i].sizeIndex < NUM_SIZE_CLASSES && |s.slabs[i].words| == |s.slabs[i].loc|
    ensures s.agents[u].pc.FreeRemote? ==> s.slabs[i].ops[u] == Slab.Holding(s.agents[u].pc.slot)
    ensures s.agents[u].pc.RemotePush? ==>
              Slab.Pushing(s.slabs[i].ops[u]) && s.slabs[i].ops[u].slot < |s.slabs[i].words| && s.slabs[i].sizeIndex == s.agents[u].pc.c
  {
    hide Pool.Inv, Lists.Inv, Slab.Inv, SlabOk, WorkerOk, ValidConfig, Capacity;
    assert AgentOk(cfg, s, u);
    assert SlabOpFits(s.agents[u].pc, i, s.slabs[i].ops[u]);
    AllocatorFree.HeldSlot(cfg, s, u, i);
  }

  // ----- the slab's machine, alone with one push

  lemma RouteMove(x: Slab.State, u: nat, k: nat)
    requires Slab.Inv(x) && SlabRuns.Enabled(x, u, SlabRuns.Route) && x.ops[u] == Slab.Holding(k)
    ensures var y := SlabRuns.Apply(x, u, SlabRuns.Route); u < |y.ops| && y.ops[u] == Slab.PushStart(k) && y.chain == x.chain
  {
  }

  lemma LoadMove(x: Slab.State, u: nat, k: nat)
    requires Slab.Inv(x) && SlabRuns.Enabled(x, u, SlabRuns.Push) && x.ops[u] == Slab.PushStart(k)
    ensures var y := SlabRuns.Apply(x, u, SlabRuns.Push);
      u < |y.ops| && y.ops[u] == Slab.PushLink(k, y.head, y.updates) && y.chain == x.chain
  {
  }

  lemma StoreMove(x: Slab.State, u: nat, k: nat)
    requires Slab.Inv(x) && SlabRuns.Enabled(x, u, SlabRuns.Push) && x.ops[u] == Slab.PushLink(k, x.head, x.updates)
    ensures var y := SlabRuns.Apply(x, u, SlabRuns.Push);
      u < |y.ops| && y.ops[u] == Slab.PushSwap(k, y.head, y.updates) && y.chain == x.chain
  {
  }

  lemma ExchangeMove(x: Slab.State, u: nat, k: nat)
    requires Slab.Inv(x) && SlabRuns.Enabled(x, u, SlabRuns.Push) && x.ops[u] == Slab.PushSwap(k, x.head, x.updates)
    ensures var y := SlabRuns.Apply(x, u, SlabRuns.Push); u < |y.ops| && y.ops[u] == Slab.Idle && y.chain == [k] + x.chain
  {
  }

  /** The call of handle `t` being at its end, handle `u` frees block `k` of slab `i`: the slot lands on the list. */
  lemma FreeLands(cfg: Config, s: State, t: nat, u: nat, w: nat, i: nat, k: nat) returns (r: State)
    requires Scene(cfg, s, t, u, w, i) && s.agents[u].pc == Idle && k < |s.slabs[i].loc| && s.slabs[i].loc[k].Live?
    ensures ValidConfig(cfg) && Scene(cfg, r, t, u, w, i) && LedInCall(cfg, s, r, t)
    ensures r.slabs[i].chain == [k] + s.slabs[i].chain
  {
    SceneSizes(cfg, s, t, u, w, i);
    BeginFreeStep(cfg, s, u, i, k);
    SceneStep(cfg, s, t, u, w, i, CallFree(i, k));
    var s1 := Apply(cfg, s, u, CallFree(i, k));
    hide Scene, LedInCall, Apply, Enabled;
    var s2 := FindAgain(cfg, s1, t, u, w, i, k);
    LedTrans(cfg, s, s1, s2, t);
    var s3 := RouteAgain(cfg, s2, t, u, w, i, k);
    LedTrans(cfg, s, s2, s3, t);
    var s4 := PushAgain(cfg, s3, t, u, w, i, k);
    LedTrans(cfg, s, s3, s4, t);
    LoadMove(s3.slabs[i], u, k);
    var s5 := PushAgain(cfg, s4, t, u, w, i, k);
    LedTrans(cfg, s, s4, s5, t);
    StoreMove(s4.slabs[i], u, k);
    r := PushAgain(cfg, s5, t, u, w, i, k);
    LedTrans(cfg, s, s5, r, t);
    ExchangeMove(s5.slabs[i], u, k);
  }

  lemma SceneSizes(cfg: Config, s: State, t: nat, u: nat, w: nat, i: nat)
    requires Scene(cfg, s, t, u, w, i)
    ensures ValidConfig(cfg) && Sized(cfg, s) && u < |s.agents| && i < |s.slabs| && Slab.Inv(s.slabs[i])
  {
    assert SlabOk(cfg, s, i);
  }

  lemma FindAgain(cfg: Config, s: State, t: nat, u: nat, w: nat, i: nat, k: nat) returns (r: State)
    requires Scene(cfg, s, t, u, w, i) && u < |s.agents| && i < |s.slabs|
    requires s.agents[u].pc.FindBlock? && s.agents[u].pc.slab == i && s.agents[u].pc.slot == k
    ensures ValidConfig(cfg) && Scene(cfg, r, t, u, w, i) && LedInCall(cfg, s, r, t)
    ensures u < |r.agents| && r.agents[u] == Agent(FreeOnly, FreeRemote(i, k)) && i < |r.slabs| && r.slabs[i].chain == s.slabs[i].chain
  {
    FindStep(cfg, s, u, i, k);
    CanContinue(cfg, s, u);
    SceneStep(cfg, s, t, u, w, i, Continue([]));
    r := Apply(cfg, s, u, Continue([]));
    hide Inv, Apply;
  }

  lemma RouteAgain(cfg: Config, s: State, t: nat, u: nat, w: nat, i: nat, k: nat) returns (r: State)
    requires Scene(cfg, s, t, u, w, i) && u < |s.agents| && i < |s.slabs| && s.agents[u] == Agent(FreeOnly, FreeRemote(i, k))
    ensures ValidConfig(cfg) && Scene(cfg, r, t, u, w, i) && LedInCall(cfg, s, r, t)
    ensures u < |r.agents| && i < |r.slabs| && r.agents[u].pc.RemotePush? && r.agents[u].pc.slab == i
    ensures u < |r.slabs[i].ops| && r.slabs[i].ops[u] == Slab.PushStart(k) && r.slabs[i].chain == s.slabs[i].chain
    ensures Slab.Inv(r.slabs[i])
  {
    FreeSpot(cfg, s, u, i);
    RemoteMove(cfg, s, u, i);
    RouteMove(s.slabs[i], u, k);
    SceneStep(cfg, s, t, u, w, i, Continue([]));
    r := Apply(cfg, s, u, Continue([]));
    SceneSizes(cfg, r, t, u, w, i);
    hide Inv, Apply, Slab.Inv, SlabRuns.Apply, SlabRuns.Enabled;
  }

  lemma PushAgain(cfg: Config, s: State, t: nat, u: nat, w: nat, i: nat, k: nat) returns (r: State)
    requires Scene(cfg, s, t, u, w, i) && u < |s.agents| && i < |s.slabs|
    requires s.agents[u].pc.RemotePush? && s.agents[u].pc.slab == i
    ensures ValidConfig(cfg) && Scene(cfg, r, t, u, w, i) && LedInCall(cfg, s, r, t)
    ensures u < |r.agents| && i < |r.slabs| && Slab.Inv(r.slabs[i]) && Slab.Inv(s.slabs[i])
    ensures SlabRuns.Enabled(s.slabs[i], u, SlabRuns.Push) && r.slabs[i] == SlabRuns.Apply(s.slabs[i], u, SlabRuns.Push)
    ensures u < |r.slabs[i].ops| && (r.slabs[i].ops[u] == Slab.Idle || (r.agents[u].pc.RemotePush? && r.agents[u].pc.slab == i))
  {
    RemoteMove(cfg, s, u, i);
    SceneStep(cfg, s, t, u, w, i, Continue([]));
    r := Apply(cfg, s, u, Continue([]));
    SceneSizes(cfg, r, t, u, w, i);
    hide Inv, Apply, Slab.Inv, SlabRuns.Apply, SlabRuns.Enabled;
  }

  // ----- a late push stays

  /** A call that runs alone leaves every other handle where it was. */
  lemma {:induction false} AloneKeepsOthers(cfg: Config, s: State, es: seq<Event>, t: nat, u: nat)
    requires ValidConfig(cfg) && Valid(cfg, s, es) && Alone(es, t) && u < |s.agents| && u != t
    ensures u < |Exec(cfg, s, es).agents| && Exec(cfg, s, es).agents[u] == s.agents[u]
    decreases |es|
  {
    hide Apply, Enabled;
    if es != [] {
      assert es[0] == Event(t, Continue([]));
      OthersKeepPc(cfg, s, t, es[0].act, u);
      AloneKeepsOthers(cfg, Apply(cfg, s, t, es[0].act), es[1..], t, u);
    }
  }

  /** Where handle `u` may free late: the worker of handle `t` holds slab `i`, and block `k` of it is live. */
  ghost predicate MayFreeLate(cfg: Config, s: State, t: nat, u: nat, i: nat, k: nat) {
    && Inv(cfg, s) && Enabled(cfg, s, t, CallClean) && u != t && u < |s.agents| && s.agents[u] == Agent(FreeOnly, Idle)
    && i < cfg.numSlabs && HeldBy(s, s.agents[t].handle.index, i) && Theorems.LiveBlock(s, i, k)
  }

  /** Everything from the call up to its end, alone: block `k` is still live and nothing is on the list. */
  lemma CallAlone(cfg: Config, s: State, t: nat, u: nat, i: nat, k: nat) returns (m: State)
    requires MayFreeLate(cfg, s, t, u, i, k)
    ensures ValidConfig(cfg) && Enabled(cfg, s, t, CallClean) && t < |s.agents| && s.agents[t].handle.Worker?
    ensures LedInCall(cfg, Apply(cfg, s, t, CallClean), m, t)
    ensures Scene(cfg, m, t, u, s.agents[t].handle.index, i) && m.agents[u].pc == Idle
    ensures i < |m.slabs| && k < |m.slabs[i].loc| && m.slabs[i].loc[k].Live? && m.slabs[i].chain == []
  {
    var w := s.agents[t].handle.index;
    var s1 := Apply(cfg, s, t, CallClean);
    CallStarts(cfg, s, t);
    SizesHere(cfg, s1, t);
    OthersKeepPc(cfg, s, t, CallClean, u);
    SameHeld(s, s1, w, i);
    hide Inv, Apply, Enabled, HeldBy;
    var es := AloneEnds(cfg, s1, t);
    m := Exec(cfg, s1, es);
    assert RunInCall(cfg, s1, es, m, t);
    AloneKeepsOthers(cfg, s1, es, t, u);
    CleanAloneIsExact(cfg, s1, es, t, w, i);
    RunKeepsInv(cfg, s1, es);
    StillLive(cfg, s1, m, w, i, k);
  }

  lemma SameHeld(s: State, r: State, w: nat, i: nat)
    requires HeldBy(s, w, i) && r.local == s.local
    ensures HeldBy(r, w, i)
  {
    var k :| k in s.local.lists && k.worker == w && i in s.local.lists[k];
    assert k in r.local.lists && i in r.local.lists[k];
  }

  lemma StillLive(cfg: Config, s: State, m: State, w: nat, i: nat, k: nat)
    requires CleanedExactly(s, m, w, i) && HeldBy(s, w, i) && Theorems.LiveBlock(s, i, k)
    ensures HeldBy(m, w, i) && i < |m.slabs| && m.slabs[i].chain == []
    ensures k < |m.slabs[i].loc| && m.slabs[i].loc[k].Live?
  {
    assert m.slabs[i].loc[k] == s.slabs[i].loc[k];
    hide HeldBy;
  }

  /**
   * From any state in which some handle that only frees is idle and block `k` of a slab the worker holds is live, there
   * is a run of a cleaning call in which that block is freed after its slab's visit. At the end of the call the slab is
   * still the worker's and the block's slot is on its remote list: the list need not be empty.
   */
  lemma LatePushStays(cfg: Config, s: State, t: nat, u: nat, i: nat, k: nat) returns (es: seq<Event>)
    requires MayFreeLate(cfg, s, t, u, i, k)
    ensures ValidConfig(cfg) && Enabled(cfg, s, t, CallClean) && t < |s.agents| && s.agents[t].handle.Worker?
    ensures var s1 := Apply(cfg, s, t, CallClean); var w := s.agents[t].handle.index;
      && Started(cfg, s1, t, w) && Valid(cfg, s1, es) && FreshRun(cfg, s1, es) && InCall(cfg, s1, es, t)
      && AtEnd(Exec(cfg, s1, es), t) && HeldBy(Exec(cfg, s1, es), w, i)
      && i < |Exec(cfg, s1, es).slabs| && Exec(cfg, s1, es).slabs[i].chain == [k]
      && LandedAfter(cfg, s1, es, t, i) == [k]
  {
    var s1 := Apply(cfg, s, t, CallClean);
    var w := s.agents[t].handle.index;
    CallStarts(cfg, s, t);
    var m := CallAlone(cfg, s, t, u, i, k);
    var r := FreeLands(cfg, m, t, u, w, i, k);
    LedTrans(cfg, s1, m, r, t);
    es :| RunInCall(cfg, s1, es, r, t);
    hide Inv, Apply, Enabled, HeldBy, LandedAfter;
    ChainAtEnd(cfg, s1, es, t, w, i, k);
  }
}
