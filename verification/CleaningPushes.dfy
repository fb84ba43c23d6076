/**
 * A cleaning call while others go on freeing: every slot that waits on a listed slab's remote list when the call
 * begins is yielded, and what is on the list when it ends is exactly what landed after the slab's visit.
 */
module CleaningPushes {
  import opened Base
  import opened SizeClasses
  import opened Address
  import opened Allocator
  import opened AllocatorInv
  import opened AllocatorRuns
  import opened AllocatorProjection
  import opened AllocatorOwners
  import opened AllocatorAccounts
  import opened Cleaning
  import opened CleaningDrains
  import AllocatorClean
  import Pool = GlobalFreeList
  import Lists = LocalLists
  import Slab
  import SlabRuns

  // ----- every waiting slot is yielded

  /** The call has not swapped out the list of slab `i` yet. */
  ghost predicate Unvisited(pc: Pc, i: nat) {
    && WalkOf(pc).Some? && Working(pc) != Some(i)
    && (i !in WalkOf(pc).value.seen || (pc.CleanSwap? && pc.slab == i))
  }

  /** Slot `k` of slab `i` waits for the call of handle `t`: on the remote list, or in the chain being walked. */
  ghost predicate Waits(s: State, t: nat, w: nat, i: nat, k: nat) {
    && t < |s.agents| && s.agents[t].handle == Worker(w) && WalkOf(s.agents[t].pc).Some?
    && i < |s.slabs| && k < |s.slabs[i].loc| && s.slabs[i].owner == w
    && if Working(s.agents[t].pc) == Some(i) then s.slabs[i].loc[k] == Slab.Drained(t)
       else Unvisited(s.agents[t].pc, i) && s.slabs[i].loc[k] == Slab.Remote
  }

  lemma MoveUnvisited(pc: Pc, pc': Pc, i: nat)
    requires Unvisited(pc, i) && Moves(pc, pc') && WalkOf(pc').Some? && !(pc.CleanSwap? && pc.slab == i)
    ensures Unvisited(pc', i)
  {
  }

  /** A slot with nobody but its drainer does not move under other handles' steps. */
  lemma WaitForeign(x: Slab.State, u: nat, a: SlabRuns.Action, t: nat, k: nat)
    requires Slab.Inv(x) && SlabRuns.Enabled(x, u, a) && ForeignAction(a) && u != t && k < |x.loc|
    requires x.loc[k] == Slab.Remote || x.loc[k] == Slab.Drained(t)
    ensures var y := SlabRuns.Apply(x, u, a); |y.loc| == |x.loc| && y.loc[k] == x.loc[k] && y.owner == x.owner
  {
    SlabRuns.StepDefined(x, u, a);
    assert Slab.ThreadOk(x, u, x.ops[u]);
    hide Slab.Inv;
  }

  lemma WaitSwap(x: Slab.State, t: nat, k: nat)
    requires Slab.Inv(x) && SlabRuns.Enabled(x, t, SlabRuns.Swap) && k < |x.loc| && x.loc[k] == Slab.Remote
    ensures var y := SlabRuns.Apply(x, t, SlabRuns.Swap); |y.loc| == |x.loc| && y.loc[k] == Slab.Drained(t) && y.owner == x.owner
  {
    hide Slab.Inv;
  }

  /** The drainer's own step yields the slot or leaves it where it is, and does not end the drain. */
  lemma WaitDrain(x: Slab.State, t: nat, a: SlabRuns.Action, k: nat)
    requires Slab.Inv(x) && SlabRuns.Enabled(x, t, a) && (a.Yield? || a.PushLocal? || a.Finish?)
    requires k < |x.loc| && x.loc[k] == Slab.Drained(t)
    ensures !a.Finish?
    ensures var y := SlabRuns.Apply(x, t, a);
      |y.loc| == |x.loc| && y.owner == x.owner && (y.loc[k] == x.loc[k] || SlabRuns.Yields(x, SlabRuns.Event(t, a), k))
  {
    assert Slab.ThreadOk(x, t, x.ops[t]);
    assert k in Slab.Rest(x.ops[t]);
    SlabRuns.StepDefined(x, t, a);
    if a.Finish? { Slab.DrainEndKeeps(x, t); }
  }

  /** A slab with a slot out of its free stack stands on a list of its owner. */
  lemma OwnerHolds(cfg: Config, s: State, i: nat, k: nat)
    requires Inv(cfg, s) && i < |s.slabs| && k < |s.slabs[i].loc| && s.slabs[i].loc[k] != Slab.Free
    ensures i < cfg.numSlabs && s.place[i].Listed? && s.place[i].key.worker == s.slabs[i].owner
    ensures HeldBy(s, s.slabs[i].owner, i)
  {
    hide Pool.Inv, Lists.Inv, Slab.Inv, AgentOk, WorkerOk;
    assert SlabOk(cfg, s, i);
    assert i in s.local.lists[s.place[i].key];
  }

  /** The event yields slot `k` of slab `i`. */
  ghost predicate YieldsHere(cfg: Config, s: State, e: Event, i: nat, k: nat)
    requires Sized(cfg, s) && e.tid < |s.agents| && i < cfg.numSlabs
  {
    && SlabAction(cfg, s, e.tid, e.act, i).Some?
    && SlabRuns.Yields(s.slabs[i], SlabRuns.Event(e.tid, SlabAction(cfg, s, e.tid, e.act, i).value), k)
  }

  lemma WaitsForeign(cfg: Config, s: State, e: Event, t: nat, w: nat, i: nat, k: nat)
    requires Inv(cfg, s) && FreshStep(s, e.tid, e.act) && Enabled(cfg, s, e.tid, e.act) && Waits(s, t, w, i, k)
    requires e.tid != t || !e.act.Continue?
    ensures Waits(Apply(cfg, s, e.tid, e.act), t, w, i, k)
  {
    OwnerHolds(cfg, s, i, k);
    OnlyWrites(cfg, s, e, t);
    SlabProjection(cfg, s, e.tid, e.act, i);
    var sa := SlabAction(cfg, s, e.tid, e.act, i);
    if e.tid != t {
      InRange(cfg, s, e.tid, e.act);
      Exclusive(cfg, s, t, e.tid);
      OnlyOwnerTouchesSlab(cfg, s, e.tid, e.act, i, s.place[i].key);
    } else {
      WriteOnly(cfg, s, e, i);
    }
    hide Inv, Enabled, Apply, SlabAction, SlabRuns.Apply, SlabRuns.Enabled, Slab.Inv;
    OthersKeepPc(cfg, s, e.tid, e.act, t);
    if sa.Some? {
      if e.tid != t { WaitForeign(s.slabs[i], e.tid, sa.value, t, k); } else { WaitWrite(s.slabs[i], t, sa.value); }
    }
  }

  lemma WriteOnly(cfg: Config, s: State, e: Event, i: nat)
    requires Inv(cfg, s) && Enabled(cfg, s, e.tid, e.act) && e.act.Write? && i < cfg.numSlabs
    ensures SlabAction(cfg, s, e.tid, e.act, i).Some? ==> SlabAction(cfg, s, e.tid, e.act, i).value.Write?
  {
    hide Inv;
  }

  lemma WaitWrite(x: Slab.State, t: nat, a: SlabRuns.Action)
    requires Slab.Inv(x) && SlabRuns.Enabled(x, t, a) && a.Write?
    ensures var y := SlabRuns.Apply(x, t, a); y.loc == x.loc && y.owner == x.owner && y.chain == x.chain
  {
    hide Slab.Inv;
  }

  /** The cleaner's own step at a slab it has not come to, or between the accesses of its drain. */
  lemma WaitsAside(cfg: Config, s: State, t: nat, words: seq<nat>, w: nat, i: nat, k: nat)
    requires Inv(cfg, s) && Fresh(s, t) && Enabled(cfg, s, t, Continue(words)) && Waits(s, t, w, i, k)
    requires i < cfg.numSlabs && SlabAction(cfg, s, t, Continue(words), i) == None
    requires t < |Apply(cfg, s, t, Continue(words)).agents| && WalkOf(Apply(cfg, s, t, Continue(words)).agents[t].pc).Some?
    ensures Waits(Apply(cfg, s, t, Continue(words)), t, w, i, k)
  {
    SlabProjection(cfg, s, t, Continue(words), i);
    CleanerMoves(cfg, s, t, words);
    SameHandle(cfg, s, Event(t, Continue(words)), t);
    StaysAtWork(cfg, s, t, words, i);
    hide Inv, Enabled, Apply, SlabAction, Moves;
    if Working(s.agents[t].pc) != Some(i) { MoveUnvisited(s.agents[t].pc, Apply(cfg, s, t, Continue(words)).agents[t].pc, i); }
  }

  /** What the cleaner may do to slab `i`, by where it is. */
  lemma StaysAtWork(cfg: Config, s: State, t: nat, words: seq<nat>, i: nat)
    requires Inv(cfg, s) && Fresh(s, t) && Enabled(cfg, s, t, Continue(words)) && WalkOf(s.agents[t].pc).Some? && i < cfg.numSlabs
    requires SlabAction(cfg, s, t, Continue(words), i) == None
    requires t < |Apply(cfg, s, t, Continue(words)).agents| && WalkOf(Apply(cfg, s, t, Continue(words)).agents[t].pc).Some?
    ensures !(s.agents[t].pc.CleanSwap? && s.agents[t].pc.slab == i)
    ensures Working(s.agents[t].pc) == Some(i) ==> Working(Apply(cfg, s, t, Continue(words)).agents[t].pc) == Some(i)
  {
    CleanerMoves(cfg, s, t, words);
    hide Inv, Apply;
  }

  /** The cleaner's own step on slab `i`: the swap, a yield, or the free of a yielded slot. */
  lemma WaitsAtWork(cfg: Config, s: State, t: nat, words: seq<nat>, w: nat, i: nat, k: nat)
    requires Inv(cfg, s) && Fresh(s, t) && Enabled(cfg, s, t, Continue(words)) && Waits(s, t, w, i, k)
    requires i < cfg.numSlabs && SlabAction(cfg, s, t, Continue(words), i).Some?
    requires t < |Apply(cfg, s, t, Continue(words)).agents| && WalkOf(Apply(cfg, s, t, Continue(words)).agents[t].pc).Some?
    ensures Waits(Apply(cfg, s, t, Continue(words)), t, w, i, k) || YieldsHere(cfg, s, Event(t, Continue(words)), i, k)
  {
    var s' := Apply(cfg, s, t, Continue(words));
    SlabProjection(cfg, s, t, Continue(words), i);
    CleanerMoves(cfg, s, t, words);
    SameHandle(cfg, s, Event(t, Continue(words)), t);
    WorkActs(cfg, s, t, words, i);
    var a := SlabAction(cfg, s, t, Continue(words), i).value;
    hide Inv, Enabled, Apply, SlabAction, SlabRuns.Apply, SlabRuns.Enabled, Slab.Inv;
    if a.Swap? {
      WaitSwap(s.slabs[i], t, k);
    } else {
      WaitDrain(s.slabs[i], t, a, k);
    }
  }

  lemma WorkActs(cfg: Config, s: State, t: nat, words: seq<nat>, i: nat)
    requires Inv(cfg, s) && Fresh(s, t) && Enabled(cfg, s, t, Continue(words)) && WalkOf(s.agents[t].pc).Some? && i < cfg.numSlabs
    requires SlabAction(cfg, s, t, Continue(words), i).Some?
    requires t < |Apply(cfg, s, t, Continue(words)).agents| && WalkOf(Apply(cfg, s, t, Continue(words)).agents[t].pc).Some?
    ensures var a := SlabAction(cfg, s, t, Continue(words), i).value; var pc := s.agents[t].pc;
      && (a.Swap? <==> pc.CleanSwap? && pc.slab == i)
      && (!a.Swap? ==> (a.Yield? || a.PushLocal? || a.Finish?) && Working(pc) == Some(i))
      && (!a.Finish? ==> Working(Apply(cfg, s, t, Continue(words)).agents[t].pc) == Some(i))
  {
    CleanerMoves(cfg, s, t, words);
    var s' := Apply(cfg, s, t, Continue(words));
    if s'.agents[t].pc.CleanIter? && s.agents[t].pc.CleanDrain? {
      SlabProjection(cfg, s, t, Continue(words), i);
      StepKeepsInv(cfg, s, t, Continue(words));
      IterIsIdle(cfg, s', t, i);
      hide Inv, Apply;
      if SlabAction(cfg, s, t, Continue(words), i) == Some(SlabRuns.Yield) { YieldLeavesHeld(s.slabs[i], t); }
    }
    hide Inv, Apply;
  }

  lemma WaitsStep(cfg: Config, s: State, e: Event, t: nat, w: nat, i: nat, k: nat)
    requires Inv(cfg, s) && FreshStep(s, e.tid, e.act) && Enabled(cfg, s, e.tid, e.act) && Waits(s, t, w, i, k) && i < cfg.numSlabs
    requires t < |Apply(cfg, s, e.tid, e.act).agents| && WalkOf(Apply(cfg, s, e.tid, e.act).agents[t].pc).Some?
    ensures Waits(Apply(cfg, s, e.tid, e.act), t, w, i, k) || YieldsHere(cfg, s, e, i, k)
  {
    hide Inv, Apply, Waits, SlabAction;
    if e.tid != t || !e.act.Continue? {
      WaitsForeign(cfg, s, e, t, w, i, k);
    } else if SlabAction(cfg, s, t, e.act, i).None? {
      WaitsAside(cfg, s, t, e.act.words, w, i, k);
    } else {
      WaitsAtWork(cfg, s, t, e.act.words, w, i, k);
    }
  }

  /** Over a run of the call the slot is yielded, or it still waits. */
  lemma {:induction false} WaitsRun(cfg: Config, s: State, es: seq<Event>, t: nat, w: nat, i: nat, k: nat)
    requires ValidConfig(cfg) && Inv(cfg, s) && Valid(cfg, s, es) && FreshRun(cfg, s, es) && InCall(cfg, s, es, t)
    requires i < cfg.numSlabs && Waits(s, t, w, i, k)
    ensures i < |s.slabs| && Slab.Inv(s.slabs[i]) && SlabRuns.Valid(s.slabs[i], SlabHistory(cfg, s, es, i))
    ensures SlabRuns.YieldCount(s.slabs[i], SlabHistory(cfg, s, es, i), k) >= 1 || Waits(Exec(cfg, s, es), t, w, i, k)
    decreases |es|
  {
    SlabRun(cfg, s, es, i);
    if es != [] {
      var u, a := es[0].tid, es[0].act;
      var s1 := Apply(cfg, s, u, a);
      var sa := SlabAction(cfg, s, u, a, i);
      SlabProjection(cfg, s, u, a, i);
      assert InCall(cfg, s1, es[1..], t);
      hide Inv, Apply, Enabled, SlabAction, Slab.Inv, SlabRuns.Enabled, SlabRuns.Apply, Waits, SlabRuns.Yields;
      StepKeepsInv(cfg, s, u, a);
      WaitsStep(cfg, s, es[0], t, w, i, k);
      if Waits(s1, t, w, i, k) { WaitsRun(cfg, s1, es[1..], t, w, i, k); }
      SlabRun(cfg, s1, es[1..], i);
      if sa.Some? {
        var e := SlabRuns.Event(u, sa.value);
        assert ([e] + SlabHistory(cfg, s1, es[1..], i))[1..] == SlabHistory(cfg, s1, es[1..], i);
      }
    }
  }

  /** At the start of the call a slot in transit is on the remote list: nobody is draining a slab of its worker. */
  lemma WaitsAtStart(cfg: Config, s: State, t: nat, w: nat, i: nat, k: nat)
    requires Started(cfg, s, t, w) && HeldBy(s, w, i) && i < |s.slabs| && SlabRuns.InTransit(s.slabs[i], k)
    ensures i < cfg.numSlabs && Waits(s, t, w, i, k)
  {
    HeldMeansListed(cfg, s, w, i);
    AllocatorClean.ListedStands(cfg, s, i);
    if s.slabs[i].loc[k].Drained? { NobodyDrains(cfg, s, t, w, i, k); }
    hide Inv;
  }

  /** While a handle is between drains, no slot of its worker's slabs is in a drained chain. */
  lemma NobodyDrains(cfg: Config, s: State, t: nat, w: nat, i: nat, k: nat)
    requires Inv(cfg, s) && t < |s.agents| && s.agents[t].handle == Worker(w) && s.agents[t].pc.CleanLine?
    requires i < cfg.numSlabs && s.slabs[i].owner == w && k < |s.slabs[i].loc|
    ensures !s.slabs[i].loc[k].Drained?
  {
    var x := s.slabs[i];
    if x.loc[k].Drained? {
      var u := x.loc[k].tid;
      IterIsIdle(cfg, s, t, i);
      hide Pool.Inv, Lists.Inv, WorkerOk, AgentOk;
      assert SlabOk(cfg, s, i);
      assert Slab.ThreadOk(x, u, x.ops[u]);
      assert k in Slab.Rest(x.ops[u]);
      DrainerOwns(cfg, s, u, i);
      if u != t { Exclusive(cfg, s, u, t); }
    }
  }

  /**
   * With no hypothesis on what the others free meanwhile: every slot that waits on the remote list of a slab of the
   * worker when the call begins is yielded, to be freed, during the call.
   */
  lemma EveryWaitingSlotYielded(cfg: Config, s: State, es: seq<Event>, t: nat, w: nat, i: nat, k: nat)
    requires ValidConfig(cfg) && Started(cfg, s, t, w) && Valid(cfg, s, es) && FreshRun(cfg, s, es) && InCall(cfg, s, es, t)
    requires AtEnd(Exec(cfg, s, es), t) && HeldBy(s, w, i) && i < |s.slabs| && SlabRuns.InTransit(s.slabs[i], k)
    ensures Slab.Inv(s.slabs[i]) && i < cfg.numSlabs && SlabRuns.Valid(s.slabs[i], SlabHistory(cfg, s, es, i))
    ensures SlabRuns.YieldCount(s.slabs[i], SlabHistory(cfg, s, es, i), k) >= 1
  {
    WaitsAtStart(cfg, s, t, w, i, k);
    SeenHeld(cfg, s, es, t, w, i);
    WaitsRun(cfg, s, es, t, w, i, k);
    hide Inv, Valid, Exec, FreshRun, InCall, HeldBy;
  }

  // ----- what is on the list at the end

  /** The slots whose push lands on the remote list of slab `i` during the run, the latest first. */
  ghost function Landings(cfg: Config, s: State, es: seq<Event>, i: nat): seq<nat>
    requires ValidConfig(cfg) && Valid(cfg, s, es)
    decreases |es|
  {
    if es == [] then []
    else
      Landings(cfg, Apply(cfg, s, es[0].tid, es[0].act), es[1..], i)
      + (if Lands(s, es[0], i) then [s.slabs[i].ops[es[0].tid].slot] else [])
  }

  /** The slots whose push lands there after handle `t` has swapped the list out. */
  ghost function LandedAfter(cfg: Config, s: State, es: seq<Event>, t: nat, i: nat): seq<nat>
    requires ValidConfig(cfg) && Valid(cfg, s, es)
    decreases |es|
  {
    if es == [] then []
    else if Visits(s, es[0], t, i) then Landings(cfg, Apply(cfg, s, es[0].tid, es[0].act), es[1..], i)
    else LandedAfter(cfg, Apply(cfg, s, es[0].tid, es[0].act), es[1..], t, i)
  }

  lemma {:induction false} NoLandings(cfg: Config, s: State, es: seq<Event>, i: nat)
    requires ValidConfig(cfg) && Valid(cfg, s, es)
    ensures Landings(cfg, s, es, i) == [] <==> NoneLands(cfg, s, es, i)
    decreases |es|
  {
    if es != [] {
      hide Apply, Enabled, Lands;
      NoLandings(cfg, Apply(cfg, s, es[0].tid, es[0].act), es[1..], i);
    }
  }

  /** A worker that holds the slab at the end of the run held it at the beginning. */
  lemma {:induction false} HeldAllAlong(cfg: Config, s: State, es: seq<Event>, t: nat, w: nat, i: nat)
    requires ValidConfig(cfg) && Inv(cfg, s) && Valid(cfg, s, es) && FreshRun(cfg, s, es) && InCall(cfg, s, es, t)
    requires s.agents[t].handle == Worker(w) && HeldBy(Exec(cfg, s, es), w, i)
    ensures HeldBy(s, w, i)
    decreases |es|
  {
    hide Inv, Apply, Enabled, HeldBy;
    if es != [] {
      var s1 := Apply(cfg, s, es[0].tid, es[0].act);
      assert InCall(cfg, s1, es[1..], t);
      StepKeepsInv(cfg, s, es[0].tid, es[0].act);
      SameHandle(cfg, s, es[0], t);
      HeldAllAlong(cfg, s1, es[1..], t, w, i);
      GainsNothing(cfg, s, es[0], t, w, i);
    }
  }

  /** Of the actions on a slab between its swaps only a push that lands changes the chain. */
  lemma ChainStep(x: Slab.State, u: nat, a: SlabRuns.Action)
    requires Slab.Inv(x) && SlabRuns.Enabled(x, u, a) && (ForeignAction(a) || (DrainingAction(a) && !a.Swap?))
    ensures SlabRuns.Apply(x, u, a).chain == if PushLands(x, u, a) then [x.ops[u].slot] + x.chain else x.chain
  {
    SlabRuns.StepDefined(x, u, a);
    hide Slab.Inv;
  }

  lemma SwapEmpties(x: Slab.State, t: nat)
    requires Slab.Inv(x) && SlabRuns.Enabled(x, t, SlabRuns.Swap)
    ensures SlabRuns.Apply(x, t, SlabRuns.Swap).chain == []
  {
    hide Slab.Inv;
  }

  /** One event, other than the visit, while the slab is the worker's. */
  lemma HeldChainStep(cfg: Config, s: State, e: Event, t: nat, w: nat, i: nat)
    requires Inv(cfg, s) && FreshStep(s, e.tid, e.act) && Enabled(cfg, s, e.tid, e.act) && HeldBy(s, w, i) && !Visits(s, e, t, i)
    requires t < |s.agents| && s.agents[t].handle == Worker(w) && WalkOf(s.agents[t].pc).Some?
    ensures i < |s.slabs| && i < |Apply(cfg, s, e.tid, e.act).slabs|
    ensures Lands(s, e, i) ==> e.tid < |s.slabs[i].ops| && s.slabs[i].ops[e.tid].PushSwap?
    ensures Apply(cfg, s, e.tid, e.act).slabs[i].chain
            == (if Lands(s, e, i) then [s.slabs[i].ops[e.tid].slot] else []) + s.slabs[i].chain
  {
    HeldMeansListed(cfg, s, w, i);
    SlabProjection(cfg, s, e.tid, e.act, i);
    var sa := SlabAction(cfg, s, e.tid, e.act, i);
    if Lands(s, e, i) { LandsIsPush(cfg, s, e, i); }
    if sa.Some? && PushLands(s.slabs[i], e.tid, sa.value) { PushMeansLands(cfg, s, e, i); }
    if e.tid != t {
      InRange(cfg, s, e.tid, e.act);
      Exclusive(cfg, s, t, e.tid);
      OnlyOwnerTouchesSlab(cfg, s, e.tid, e.act, i, s.place[i].key);
    } else if e.act.Continue? {
      NotVisiting(cfg, s, t, e.act.words, i);
    } else {
      OnlyWrites(cfg, s, e, t);
      WriteOnly(cfg, s, e, i);
    }
    hide Inv, Enabled, Apply, SlabAction, SlabRuns.Apply, SlabRuns.Enabled, Slab.Inv, HeldBy;
    if sa.Some? { ChainStep(s.slabs[i], e.tid, sa.value); }
  }

  lemma NotVisiting(cfg: Config, s: State, t: nat, words: seq<nat>, i: nat)
    requires Inv(cfg, s) && Enabled(cfg, s, t, Continue(words)) && i < cfg.numSlabs && WalkOf(s.agents[t].pc).Some?
    requires !(s.agents[t].pc.CleanSwap? && s.agents[t].pc.slab == i)
    ensures var sa := SlabAction(cfg, s, t, Continue(words), i); sa.Some? ==> DrainingAction(sa.value) && !sa.value.Swap?
  {
    hide Inv;
  }

  /** After the visit the chain grows by exactly what lands. */
  lemma {:induction false} GrowsByLandings(cfg: Config, s: State, es: seq<Event>, t: nat, w: nat, i: nat)
    requires ValidConfig(cfg) && Inv(cfg, s) && Valid(cfg, s, es) && FreshRun(cfg, s, es) && InCall(cfg, s, es, t)
    requires s.agents[t].handle == Worker(w) && HeldBy(Exec(cfg, s, es), w, i) && VisitCount(cfg, s, es, t, i) == 0
    ensures i < |s.slabs| && i < |Exec(cfg, s, es).slabs|
    ensures Exec(cfg, s, es).slabs[i].chain == Landings(cfg, s, es, i) + s.slabs[i].chain
    decreases |es|
  {
    HeldAllAlong(cfg, s, es, t, w, i);
    HeldInRange(cfg, s, w, i);
    hide Inv, Apply, Enabled, HeldBy, Visits, Lands;
    if es != [] {
      var s1 := Apply(cfg, s, es[0].tid, es[0].act);
      assert InCall(cfg, s1, es[1..], t);
      StepKeepsInv(cfg, s, es[0].tid, es[0].act);
      SameHandle(cfg, s, es[0], t);
      HeldChainStep(cfg, s, es[0], t, w, i);
      GrowsByLandings(cfg, s1, es[1..], t, w, i);
    }
  }

  lemma HeldInRange(cfg: Config, s: State, w: nat, i: nat)
    requires Inv(cfg, s) && HeldBy(s, w, i)
    ensures i < |s.slabs| == cfg.numSlabs
  {
    HeldMeansListed(cfg, s, w, i);
  }

  lemma VisitEmpties(cfg: Config, s: State, e: Event, t: nat, i: nat)
    requires Inv(cfg, s) && Enabled(cfg, s, e.tid, e.act) && Visits(s, e, t, i) && i < cfg.numSlabs
    ensures i < |Apply(cfg, s, e.tid, e.act).slabs| && Apply(cfg, s, e.tid, e.act).slabs[i].chain == []
  {
    SlabProjection(cfg, s, e.tid, e.act, i);
    assert SlabAction(cfg, s, e.tid, e.act, i) == Some(SlabRuns.Swap);
    hide Inv, Enabled, Apply, SlabAction, SlabRuns.Apply, SlabRuns.Enabled, Slab.Inv;
    SwapEmpties(s.slabs[i], t);
  }

  lemma {:induction false} ChainIsLandedAfter(cfg: Config, s: State, es: seq<Event>, t: nat, w: nat, i: nat)
    requires ValidConfig(cfg) && Inv(cfg, s) && Valid(cfg, s, es) && FreshRun(cfg, s, es) && InCall(cfg, s, es, t)
    requires s.agents[t].handle == Worker(w) && HeldBy(Exec(cfg, s, es), w, i) && VisitCount(cfg, s, es, t, i) == 1
    ensures i < |Exec(cfg, s, es).slabs| && Exec(cfg, s, es).slabs[i].chain == LandedAfter(cfg, s, es, t, i)
    decreases |es|
  {
    HeldAllAlong(cfg, s, es, t, w, i);
    HeldInRange(cfg, s, w, i);
    hide Inv, Apply, Enabled, HeldBy, Visits;
    var s1 := Apply(cfg, s, es[0].tid, es[0].act);
    assert InCall(cfg, s1, es[1..], t);
    StepKeepsInv(cfg, s, es[0].tid, es[0].act);
    SameHandle(cfg, s, es[0], t);
    if Visits(s, es[0], t, i) {
      VisitEmpties(cfg, s, es[0], t, i);
      GrowsByLandings(cfg, s1, es[1..], t, w, i);
    } else {
      ChainIsLandedAfter(cfg, s1, es[1..], t, w, i);
    }
  }

  /**
   * A slab still its worker's at the end of the call: its remote list is then exactly the slots whose push landed after
   * the slab's visit, the latest first, so it is empty if and only if none did; and slot by slot what the call yielded
   * is what waited when it began and what was pushed meanwhile, less those.
   */
  lemma ChainAtEnd(cfg: Config, s: State, es: seq<Event>, t: nat, w: nat, i: nat, k: nat)
    requires ValidConfig(cfg) && Started(cfg, s, t, w) && Valid(cfg, s, es) && FreshRun(cfg, s, es) && InCall(cfg, s, es, t)
    requires AtEnd(Exec(cfg, s, es), t) && HeldBy(Exec(cfg, s, es), w, i)
    ensures i < cfg.numSlabs == |s.slabs| && i < |Exec(cfg, s, es).slabs| && HeldBy(s, w, i)
    ensures Exec(cfg, s, es).slabs[i].chain == LandedAfter(cfg, s, es, t, i)
    ensures Exec(cfg, s, es).slabs[i].head == NULL_U16 <==> LandedAfter(cfg, s, es, t, i) == []
    ensures Slab.Inv(s.slabs[i]) && SlabRuns.Valid(s.slabs[i], SlabHistory(cfg, s, es, i))
    ensures SlabRuns.YieldCount(s.slabs[i], SlabHistory(cfg, s, es, i), k) + (if k in LandedAfter(cfg, s, es, t, i) then 1 else 0)
            == (if SlabRuns.InTransit(s.slabs[i], k) then 1 else 0)
               + SlabRuns.PushCount(s.slabs[i], SlabHistory(cfg, s, es, i), k)
  {
    var s' := Exec(cfg, s, es);
    EntryAhead(cfg, s, t, w);
    HeldAllAlong(cfg, s, es, t, w, i);
    HeldInRange(cfg, s, w, i);
    VisitsEachOnce(cfg, s, es, t, w, i);
    ChainIsLandedAfter(cfg, s, es, t, w, i);
    SlabRun(cfg, s, es, i);
    SlabRuns.EachPushYieldedOnce(s.slabs[i], SlabHistory(cfg, s, es, i), k);
    RunKeepsInv(cfg, s, es);
    KeepsHandle(cfg, s, es, t, w);
    hide Inv, Valid, FreshRun, InCall, HeldBy, Exec, LandedAfter;
    TransitAtEnd(cfg, s', t, w, i, k);
  }

  lemma {:induction false} KeepsHandle(cfg: Config, s: State, es: seq<Event>, t: nat, w: nat)
    requires ValidConfig(cfg) && Inv(cfg, s) && Valid(cfg, s, es) && FreshRun(cfg, s, es) && InCall(cfg, s, es, t)
    requires s.agents[t].handle == Worker(w)
    ensures t < |Exec(cfg, s, es).agents| && Exec(cfg, s, es).agents[t].handle == Worker(w)
    decreases |es|
  {
    hide Inv, Apply, Enabled;
    if es != [] {
      var s1 := Apply(cfg, s, es[0].tid, es[0].act);
      assert InCall(cfg, s1, es[1..], t);
      StepKeepsInv(cfg, s, es[0].tid, es[0].act);
      SameHandle(cfg, s, es[0], t);
      KeepsHandle(cfg, s1, es[1..], t, w);
    }
  }

  /** At the end of the call a slot in transit is on the remote list, and the head is null if and only if that is empty. */
  lemma TransitAtEnd(cfg: Config, s: State, t: nat, w: nat, i: nat, k: nat)
    requires Inv(cfg, s) && AtEnd(s, t) && s.agents[t].handle == Worker(w) && HeldBy(s, w, i) && i < |s.slabs|
    ensures SlabRuns.InTransit(s.slabs[i], k) <==> k in s.slabs[i].chain
    ensures s.slabs[i].head == NULL_U16 <==> s.slabs[i].chain == []
  {
    HeldMeansListed(cfg, s, w, i);
    AllocatorClean.ListedStands(cfg, s, i);
    if k < |s.slabs[i].loc| { NobodyDrains(cfg, s, t, w, i, k); }
    assert SlabOk(cfg, s, i);
    hide Inv, SlabOk;
    LinkedFirst(s.slabs[i].words, s.slabs[i].head, s.slabs[i].chain, NULL_U16);
  }
}
