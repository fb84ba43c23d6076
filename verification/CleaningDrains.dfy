/**
 * What a whole cleaning call achieves under any interleaving: the remote lists of the slabs it visits are taken
 * and freed, and the slabs this leaves wholly free are given back.
 */
module CleaningDrains {
  import opened Base
  import opened SizeClasses
  import opened Address
  import opened Allocator
  import opened AllocatorInv
  import opened AllocatorRuns
  import opened AllocatorProjection
  import opened AllocatorOwners
  import opened AllocatorAccounts
  import opened Cleaning
  import AllocatorFree
  import AllocatorClean
  import AllocatorRetire
  import Pool = GlobalFreeList
  import Lists = LocalLists
  import Slab
  import SlabRuns

  // ----- one slab

  /** No slot waits on the remote list, and none is in a drained chain but that of handle `who`. */
  ghost predicate Cleared(x: Slab.State, who: Option<nat>) {
    forall k: nat {:trigger x.loc[k]} :: k < |x.loc| ==>
      x.loc[k] != Slab.Remote && (x.loc[k].Drained? ==> who == Some(x.loc[k].tid))
  }

  ghost predicate PushLands(x: Slab.State, u: nat, a: SlabRuns.Action) {
    u < |x.ops| && a == SlabRuns.Push && x.ops[u].PushSwap? && x.ops[u].seen == x.head
  }

  lemma ClearedStep(x: Slab.State, u: nat, a: SlabRuns.Action, who: Option<nat>)
    requires Slab.Inv(x) && SlabRuns.Enabled(x, u, a) && Cleared(x, who) && !PushLands(x, u, a)
    ensures Cleared(SlabRuns.Apply(x, u, a), who)
  {
    SlabRuns.StepDefined(x, u, a);
    hide Slab.Inv;
  }

  lemma SwapClears(x: Slab.State, t: nat)
    requires Slab.Inv(x) && SlabRuns.Enabled(x, t, SlabRuns.Swap)
    requires forall k: nat {:trigger x.loc[k]} :: k < |x.loc| && x.loc[k].Drained? ==> x.loc[k].tid == t
    ensures Cleared(SlabRuns.Apply(x, t, SlabRuns.Swap), Some(t))
  {
    hide Slab.Inv;
  }

  lemma FinishClears(x: Slab.State, t: nat)
    requires Slab.Inv(x) && SlabRuns.Enabled(x, t, SlabRuns.Finish) && Cleared(x, Some(t))
    ensures Cleared(SlabRuns.Apply(x, t, SlabRuns.Finish), None)
  {
    assert Slab.ThreadOk(x, t, x.ops[t]);
    Slab.NullCursorMeansDone(x, t, x.ops[t]);
  }

  /** A cleared slab has an empty remote list, and none of its slots is on the way to its owner. */
  lemma ClearedIsEmpty(x: Slab.State, k: nat)
    requires Slab.Inv(x) && Cleared(x, None)
    ensures x.chain == [] && x.head == NULL_U16 && !SlabRuns.InTransit(x, k)
  {
    Slab.ListsEmpty(x.chain, x.loc, Slab.Remote);
  }

  // ----- the slab being visited

  /** The slab whose drained chain a cleaning call is working through. */
  function Working(pc: Pc): Option<nat> {
    match pc
    case CleanDrain(d) => Some(d.slab)
    case CleanFree(d) => Some(d.slab)
    case Giving(_, after) => if after.Resume? then Some(after.drain.slab) else None
    case _ => None
  }

  /** Slab `i`, once visited, is cleared, up to the chain the call is working through. */
  ghost predicate VisitDone(s: State, t: nat, i: nat)
    requires t < |s.agents| && WalkOf(s.agents[t].pc).Some?
  {
    var pc := s.agents[t].pc;
    && i < |s.slabs|
    && (Working(pc) == Some(i) ==> Cleared(s.slabs[i], Some(t)))
    && (Working(pc) != Some(i) && !(pc.CleanSwap? && pc.slab == i) && i in WalkOf(pc).value.seen ==> Cleared(s.slabs[i], None))
  }

  /** Another handle's drained chain can only be one of its own worker's slabs. */
  lemma NoOtherDrains(cfg: Config, s: State, t: nat, i: nat)
    requires Inv(cfg, s) && t < |s.agents| && s.agents[t].pc.CleanSwap? && s.agents[t].pc.slab == i
    ensures i < |s.slabs|
    ensures forall k: nat {:trigger s.slabs[i].loc[k]} :: k < |s.slabs[i].loc| && s.slabs[i].loc[k].Drained? ==>
              s.slabs[i].loc[k].tid == t
  {
    hide Pool.Inv, Lists.Inv, WorkerOk, ValidConfig, Midway, Ahead, Size, Capacity;
    assert AgentOk(cfg, s, t) && SlabOk(cfg, s, i);
    var x := s.slabs[i];
    forall k: nat | k < |x.loc| && x.loc[k].Drained? ensures x.loc[k].tid == t {
      var u := x.loc[k].tid;
      assert Slab.ThreadOk(x, u, x.ops[u]);
      assert k in Slab.Rest(x.ops[u]);
      DrainerOwns(cfg, s, u, i);
      if u != t { Exclusive(cfg, s, u, t); }
    }
  }

  lemma DrainerOwns(cfg: Config, s: State, u: nat, i: nat)
    requires Inv(cfg, s) && u < |s.agents| && i < cfg.numSlabs && Slab.Rest(s.slabs[i].ops[u]) != []
    ensures s.agents[u].handle == Worker(s.slabs[i].owner)
  {
    hide Pool.Inv, Lists.Inv, Slab.Inv, SlabOk, WorkerOk, ValidConfig, Midway, Ahead, Size, Capacity;
    assert AgentOk(cfg, s, u);
    assert SlabOpFits(s.agents[u].pc, i, s.slabs[i].ops[u]);
  }

  /** The event makes a push on the remote list of slab `i` succeed. */
  ghost predicate Lands(s: State, e: Event, i: nat) {
    && e.tid < |s.agents| && e.act.Continue? && s.agents[e.tid].pc.RemotePush? && s.agents[e.tid].pc.slab == i
    && i < |s.slabs| && e.tid < |s.slabs[i].ops|
    && s.slabs[i].ops[e.tid].PushSwap? && s.slabs[i].ops[e.tid].seen == s.slabs[i].head
  }

  lemma PushMeansLands(cfg: Config, s: State, e: Event, i: nat)
    requires Inv(cfg, s) && Enabled(cfg, s, e.tid, e.act) && i < cfg.numSlabs
    requires SlabAction(cfg, s, e.tid, e.act, i).Some? && PushLands(s.slabs[i], e.tid, SlabAction(cfg, s, e.tid, e.act, i).value)
    ensures Lands(s, e, i)
  {
    hide Pool.Inv, Lists.Inv, Slab.Inv, SlabOk, AgentOk, WorkerOk, ValidConfig, Capacity, BlockOffset;
  }

  /** A step that is not the end of a push keeps the slab cleared. */
  lemma KeepsCleared(cfg: Config, s: State, e: Event, i: nat, who: Option<nat>)
    requires Inv(cfg, s) && Enabled(cfg, s, e.tid, e.act) && i < cfg.numSlabs && !Lands(s, e, i)
    requires Cleared(s.slabs[i], who)
    ensures i < |Apply(cfg, s, e.tid, e.act).slabs| && Cleared(Apply(cfg, s, e.tid, e.act).slabs[i], who)
  {
    SlabProjection(cfg, s, e.tid, e.act, i);
    var sa := SlabAction(cfg, s, e.tid, e.act, i);
    if sa.Some? && PushLands(s.slabs[i], e.tid, sa.value) { PushMeansLands(cfg, s, e, i); }
    hide Inv, Enabled, Apply, SlabAction, Cleared, Lands, SlabRuns.Apply, SlabRuns.Enabled;
    if sa.Some? { ClearedStep(s.slabs[i], e.tid, sa.value, who); }
  }

  lemma SwapStepClears(cfg: Config, s: State, t: nat, words: seq<nat>, i: nat)
    requires Inv(cfg, s) && Enabled(cfg, s, t, Continue(words)) && i < cfg.numSlabs
    requires s.agents[t].pc.CleanSwap? && s.agents[t].pc.slab == i
    ensures i < |Apply(cfg, s, t, Continue(words)).slabs| && Cleared(Apply(cfg, s, t, Continue(words)).slabs[i], Some(t))
  {
    SlabProjection(cfg, s, t, Continue(words), i);
    NoOtherDrains(cfg, s, t, i);
    assert SlabAction(cfg, s, t, Continue(words), i) == Some(SlabRuns.Swap);
    hide Inv, Enabled, Apply, SlabAction, Cleared, SlabRuns.Apply, SlabRuns.Enabled;
    SwapClears(s.slabs[i], t);
  }

  lemma DrainStepClears(cfg: Config, s: State, t: nat, words: seq<nat>, i: nat)
    requires Inv(cfg, s) && Fresh(s, t) && Enabled(cfg, s, t, Continue(words)) && i < cfg.numSlabs
    requires s.agents[t].pc.CleanDrain? && s.agents[t].pc.drain.slab == i && Cleared(s.slabs[i], Some(t))
    requires t < |Apply(cfg, s, t, Continue(words)).agents| && Apply(cfg, s, t, Continue(words)).agents[t].pc.CleanIter?
    ensures i < |Apply(cfg, s, t, Continue(words)).slabs| && Cleared(Apply(cfg, s, t, Continue(words)).slabs[i], None)
  {
    SlabProjection(cfg, s, t, Continue(words), i);
    StepKeepsInv(cfg, s, t, Continue(words));
    IterIsIdle(cfg, Apply(cfg, s, t, Continue(words)), t, i);
    var sa := SlabAction(cfg, s, t, Continue(words), i);
    assert sa == Some(SlabRuns.Finish) || sa == Some(SlabRuns.Yield);
    hide Inv, Enabled, Apply, SlabAction, Cleared;
    if sa == Some(SlabRuns.Yield) {
      YieldLeavesHeld(s.slabs[i], t);
      assert false;
    }
    FinishClears(s.slabs[i], t);
  }

  lemma YieldLeavesHeld(x: Slab.State, t: nat)
    requires Slab.Inv(x) && SlabRuns.Enabled(x, t, SlabRuns.Yield)
    ensures SlabRuns.Apply(x, t, SlabRuns.Yield).ops[t].DrainHold?
  {
  }

  lemma IterIsIdle(cfg: Config, s: State, t: nat, i: nat)
    requires Inv(cfg, s) && t < |s.agents| && i < cfg.numSlabs && (s.agents[t].pc.CleanIter? || s.agents[t].pc.CleanLine?)
    ensures s.slabs[i].ops[t] == Slab.Idle
  {
    hide Pool.Inv, Lists.Inv, Slab.Inv, SlabOk, WorkerOk, ValidConfig, Midway, Ahead;
    assert AgentOk(cfg, s, t);
    assert SlabOpFits(s.agents[t].pc, i, s.slabs[i].ops[t]);
  }

  /** The same, with the program counter before and after and the slab before and after spelled out. */
  lemma DoneMoves(s: State, s': State, t: nat, i: nat)
    requires t < |s.agents| && WalkOf(s.agents[t].pc).Some? && VisitDone(s, t, i)
    requires t < |s'.agents| && WalkOf(s'.agents[t].pc).Some? && i < |s'.slabs|
    requires Moves(s.agents[t].pc, s'.agents[t].pc)
    requires Cleared(s.slabs[i], Some(t)) ==> Cleared(s'.slabs[i], Some(t))
    requires Cleared(s.slabs[i], None) ==> Cleared(s'.slabs[i], None)
    requires s.agents[t].pc.CleanSwap? && s.agents[t].pc.slab == i ==> Cleared(s'.slabs[i], Some(t))
    requires s.agents[t].pc.CleanDrain? && s.agents[t].pc.drain.slab == i && s'.agents[t].pc.CleanIter?
             ==> (Cleared(s.slabs[i], Some(t)) ==> Cleared(s'.slabs[i], None))
    ensures VisitDone(s', t, i)
  {
    hide Cleared;
  }

  /** One step of anything, short of a push landing on slab `i`, keeps what the call has achieved for it. */
  lemma VisitDoneStep(cfg: Config, s: State, e: Event, t: nat, i: nat)
    requires Inv(cfg, s) && FreshStep(s, e.tid, e.act) && Enabled(cfg, s, e.tid, e.act) && !Lands(s, e, i)
    requires t < |s.agents| && WalkOf(s.agents[t].pc).Some? && VisitDone(s, t, i) && i < cfg.numSlabs
    requires t < |Apply(cfg, s, e.tid, e.act).agents| && WalkOf(Apply(cfg, s, e.tid, e.act).agents[t].pc).Some?
    ensures VisitDone(Apply(cfg, s, e.tid, e.act), t, i)
  {
    var s' := Apply(cfg, s, e.tid, e.act);
    SlabProjection(cfg, s, e.tid, e.act, i);
    assert i < |s'.slabs| && i < |s.slabs|;
    if !(e.tid == t && e.act.Continue?) { OnlyWrites(cfg, s, e, t); }
    hide Inv, Enabled, Apply, Cleared, Lands, Moves, SlabAction, Projects;
    if Cleared(s.slabs[i], Some(t)) { KeepsCleared(cfg, s, e, i, Some(t)); }
    if Cleared(s.slabs[i], None) { KeepsCleared(cfg, s, e, i, None); }
    if e.tid == t && e.act.Continue? {
      CleanerMoves(cfg, s, t, e.act.words);
      var pc, pc' := s.agents[t].pc, s'.agents[t].pc;
      if pc.CleanSwap? && pc.slab == i { SwapStepClears(cfg, s, t, e.act.words, i); }
      if pc.CleanDrain? && pc.drain.slab == i && Cleared(s.slabs[i], Some(t)) && pc'.CleanIter? {
        DrainStepClears(cfg, s, t, e.act.words, i);
      }
      hide VisitDone;
      DoneMoves(s, s', t, i);
    } else {
      OthersKeepPc(cfg, s, e.tid, e.act, t);
    }
  }

  /** During the run no push on the remote list of slab `i` succeeds. */
  ghost predicate NoneLands(cfg: Config, s: State, es: seq<Event>, i: nat)
    requires ValidConfig(cfg) && Valid(cfg, s, es)
    decreases |es|
  {
    es == [] || (!Lands(s, es[0], i) && NoneLands(cfg, Apply(cfg, s, es[0].tid, es[0].act), es[1..], i))
  }

  lemma {:induction false} VisitsDone(cfg: Config, s: State, es: seq<Event>, t: nat, i: nat)
    requires ValidConfig(cfg) && Inv(cfg, s) && Valid(cfg, s, es) && FreshRun(cfg, s, es) && InCall(cfg, s, es, t)
    requires NoneLands(cfg, s, es, i) && i < cfg.numSlabs && VisitDone(s, t, i)
    ensures t < |Exec(cfg, s, es).agents| && WalkOf(Exec(cfg, s, es).agents[t].pc).Some? && VisitDone(Exec(cfg, s, es), t, i)
    decreases |es|
  {
    hide Inv, Apply, Enabled, VisitDone, Lands;
    if es != [] {
      var s1 := Apply(cfg, s, es[0].tid, es[0].act);
      assert InCall(cfg, s1, es[1..], t);
      VisitDoneStep(cfg, s, es[0], t, i);
      StepKeepsInv(cfg, s, es[0].tid, es[0].act);
      VisitsDone(cfg, s1, es[1..], t, i);
    }
  }

  lemma {:induction false} NoPushesInHistory(cfg: Config, s: State, es: seq<Event>, i: nat, k: nat)
    requires ValidConfig(cfg) && Inv(cfg, s) && Valid(cfg, s, es) && FreshRun(cfg, s, es)
    requires NoneLands(cfg, s, es, i) && i < cfg.numSlabs
    ensures i < |s.slabs| && Slab.Inv(s.slabs[i]) && SlabRuns.Valid(s.slabs[i], SlabHistory(cfg, s, es, i))
    ensures SlabRuns.PushCount(s.slabs[i], SlabHistory(cfg, s, es, i), k) == 0
    decreases |es|
  {
    SlabRun(cfg, s, es, i);
    if es != [] {
      var t, a := es[0].tid, es[0].act;
      var s1 := Apply(cfg, s, t, a);
      var sa := SlabAction(cfg, s, t, a, i);
      SlabProjection(cfg, s, t, a, i);
      if sa.Some? && PushLands(s.slabs[i], t, sa.value) { PushMeansLands(cfg, s, es[0], i); }
      hide Inv, Apply, Enabled, SlabAction, Slab.Inv, SlabRuns.Enabled, SlabRuns.Apply, Lands;
      StepKeepsInv(cfg, s, t, a);
      NoPushesInHistory(cfg, s1, es[1..], i, k);
      if sa.Some? {
        var e := SlabRuns.Event(t, sa.value);
        assert ([e] + SlabHistory(cfg, s1, es[1..], i))[1..] == SlabHistory(cfg, s1, es[1..], i);
      }
    }
  }

  /**
   * If no push lands on a visited slab during the call, its remote list is empty at the end, and exactly the slots
   * that were on it when the call began have been yielded to be freed, once each; whatever else goes on meanwhile.
   */
  lemma CleanEmptiesRemoteList(cfg: Config, s: State, es: seq<Event>, t: nat, w: nat, i: nat, k: nat)
    requires ValidConfig(cfg) && Started(cfg, s, t, w) && Valid(cfg, s, es) && FreshRun(cfg, s, es) && InCall(cfg, s, es, t)
    requires AtEnd(Exec(cfg, s, es), t) && i < cfg.numSlabs && HeldBy(s, w, i) && NoneLands(cfg, s, es, i)
    ensures i < |Exec(cfg, s, es).slabs|
    ensures Exec(cfg, s, es).slabs[i].chain == [] && Exec(cfg, s, es).slabs[i].head == NULL_U16
    ensures i < |s.slabs| && Slab.Inv(s.slabs[i]) && SlabRuns.Valid(s.slabs[i], SlabHistory(cfg, s, es, i))
    ensures SlabRuns.YieldCount(s.slabs[i], SlabHistory(cfg, s, es, i), k) == if SlabRuns.InTransit(s.slabs[i], k) then 1 else 0
  {
    EntryAhead(cfg, s, t, w);
    VisitsDone(cfg, s, es, t, i);
    SeenHeld(cfg, s, es, t, w, i);
    SlabRun(cfg, s, es, i);
    NoPushesInHistory(cfg, s, es, i, k);
    SlabRuns.EachPushYieldedOnce(s.slabs[i], SlabHistory(cfg, s, es, i), k);
    hide Inv, Valid, FreshRun, InCall, NoneLands;
    ClearedIsEmpty(Exec(cfg, s, es).slabs[i], k);
  }

  /** At the end of the call every slab its worker listed at entry has been seen. */
  lemma SeenHeld(cfg: Config, s: State, es: seq<Event>, t: nat, w: nat, i: nat)
    requires ValidConfig(cfg) && Started(cfg, s, t, w) && Valid(cfg, s, es) && FreshRun(cfg, s, es) && InCall(cfg, s, es, t)
    requires AtEnd(Exec(cfg, s, es), t) && HeldBy(s, w, i)
    ensures i in Exec(cfg, s, es).agents[t].pc.walk.seen
  {
    var walk := s.agents[t].pc.walk;
    EntryAhead(cfg, s, t, w);
    VisitsTotal(cfg, s, es, t, i);
    RunKeepsInv(cfg, s, es);
    SeenAtEnd(cfg, Exec(cfg, s, es), t);
    FlatCount(s.local, w, walk, LINES, i);
    KeyOfLine(cfg, s, w, walk, i);
    hide Inv, Valid, Exec, FreshRun, InCall;
  }

  // ----- giving slabs back

  lemma HeldMeansListed(cfg: Config, s: State, w: nat, i: nat)
    requires Inv(cfg, s) && HeldBy(s, w, i)
    ensures i < cfg.numSlabs && s.place[i].Listed? && s.place[i].key.worker == w
    ensures s.place[i].key in s.local.lists && i in s.local.lists[s.place[i].key]
  {
    hide Pool.Inv, Slab.Inv, AgentOk, WorkerOk;
    var k :| k in s.local.lists && k.worker == w && i in s.local.lists[k];
    Lists.ListedInBounds(s.local, k, i);
    assert SlabOk(cfg, s, i);
  }

  lemma FreeStaysHeld(cfg: Config, s: State, t: nat, w: nat, d: Drain, i: nat)
    requires Inv(cfg, s) && t < |s.agents| && s.agents[t] == Agent(Worker(w), CleanFree(d))
    ensures d.slab < cfg.numSlabs && w < cfg.numWorkers
    ensures HeldBy(DrainFree(cfg, s, t, w, d), w, i) ==> HeldBy(s, w, i)
  {
    AllocatorClean.DrainFreeEffects(cfg, s, t, w, d);
    var s' := DrainFree(cfg, s, t, w, d);
    SlabOnOwnList(cfg, s, t, w, d);
    hide Inv, DrainFree, SlabOk, AgentOk, WorkerOk, Shape, AllocatorRetire.WalkKept;
    if HeldBy(s', w, i) {
      var k :| k in s'.local.lists && k.worker == w && i in s'.local.lists[k];
      assert k in s.local.lists;
      if i != d.slab { assert i in s.local.lists[k]; }
    }
  }

  lemma SlabOnOwnList(cfg: Config, s: State, t: nat, w: nat, d: Drain)
    requires Inv(cfg, s) && d.slab < cfg.numSlabs && AllocatorRetire.OwnSlot(cfg, s, t, w, d.sizeIndex, d.slab)
    ensures HeldBy(s, w, d.slab)
  {
    AllocatorFree.HeldSlot(cfg, s, t, d.slab);
    hide Pool.Inv, Lists.Inv, Slab.Inv, AgentOk, WorkerOk;
    assert SlabOk(cfg, s, d.slab);
    assert d.slab in s.local.lists[s.place[d.slab].key];
  }

  lemma WalkKeepsLists(cfg: Config, s: State, t: nat, words: seq<nat>)
    requires Inv(cfg, s) && Enabled(cfg, s, t, Continue(words)) && WalkOf(s.agents[t].pc).Some? && !s.agents[t].pc.CleanFree?
    ensures Apply(cfg, s, t, Continue(words)).local == s.local
  {
    InBounds(cfg, s, t);
    hide Inv, Refill, TakeSlot, LocalFree, DrainFree, Take, Claim, Find, ChooseRoute, BeginRemote, RemoteStep, Size, Capacity,
      Pool.Advance, ValidConfig;
  }

  /** While the call runs, its worker gains no slab. */
  lemma GainsNothing(cfg: Config, s: State, e: Event, t: nat, w: nat, i: nat)
    requires Inv(cfg, s) && FreshStep(s, e.tid, e.act) && Enabled(cfg, s, e.tid, e.act)
    requires t < |s.agents| && WalkOf(s.agents[t].pc).Some? && s.agents[t].handle == Worker(w)
    ensures HeldBy(Apply(cfg, s, e.tid, e.act), w, i) ==> HeldBy(s, w, i)
  {
    if e.tid != t {
      ForeignGain(cfg, s, e, t, w, i);
    } else if e.act.Continue? {
      InBounds(cfg, s, t);
      if s.agents[t].pc.CleanFree? {
        FreeStaysHeld(cfg, s, t, w, s.agents[t].pc.drain, i);
        StepIsDrainFree(cfg, s, t, e.act.words);
      } else {
        WalkKeepsLists(cfg, s, t, e.act.words);
      }
      hide Inv, Enabled, Apply, DrainFree;
    } else {
      OnlyWrites(cfg, s, e, t);
      hide Inv;
    }
  }

  lemma StepIsDrainFree(cfg: Config, s: State, t: nat, words: seq<nat>)
    requires Inv(cfg, s) && Enabled(cfg, s, t, Continue(words)) && s.agents[t].pc.CleanFree?
    ensures s.agents[t].handle.Worker? && s.agents[t].pc.drain.slab < cfg.numSlabs
    ensures Apply(cfg, s, t, Continue(words)) == DrainFree(cfg, s, t, s.agents[t].handle.index, s.agents[t].pc.drain)
  {
    InBounds(cfg, s, t);
    hide Inv, LocalFree, Size, Claim, Take, Refill, TakeSlot, Find, ChooseRoute, BeginRemote,
      RemoteStep, Give, StartLine, IterStep, SwapStep, DrainStep, DrainFree, ValidConfig;
  }

  lemma ForeignGain(cfg: Config, s: State, e: Event, t: nat, w: nat, i: nat)
    requires Inv(cfg, s) && Enabled(cfg, s, e.tid, e.act) && t < |s.agents| && s.agents[t].handle == Worker(w) && e.tid != t
    ensures HeldBy(Apply(cfg, s, e.tid, e.act), w, i) ==> HeldBy(s, w, i)
  {
    InRange(cfg, s, e.tid, e.act);
    Exclusive(cfg, s, t, e.tid);
    OnlyOwnerTouchesLists(cfg, s, e.tid, e.act, w);
    hide Inv, Apply, Enabled;
    var s' := Apply(cfg, s, e.tid, e.act);
    if HeldBy(s', w, i) {
      var k :| k in s'.local.lists && k.worker == w && i in s'.local.lists[k];
      assert k in s.local.lists && i in s.local.lists[k];
    }
  }

  /** Nothing of the slab is outstanding but what waits for, or is in the hands of, handle `t`. */
  ghost predicate OnlyReturning(x: Slab.State, t: nat) {
    forall k: nat {:trigger x.loc[k]} :: k < |x.loc| ==>
      x.loc[k] in {Slab.Free, Slab.Remote, Slab.Drained(t), Slab.Freeing(t)}
  }

  predicate DrainingAction(a: SlabRuns.Action) {
    a.Swap? || a.Yield? || a.PushLocal? || a.Finish?
  }

  /** No other handle has a slot of such a slab, and the drainer's own steps keep it so. */
  lemma ReturningStep(x: Slab.State, u: nat, a: SlabRuns.Action, t: nat)
    requires Slab.Inv(x) && SlabRuns.Enabled(x, u, a) && OnlyReturning(x, t)
    requires if u == t then DrainingAction(a) else ForeignAction(a)
    ensures OnlyReturning(SlabRuns.Apply(x, u, a), t) && !PushLands(x, u, a)
  {
    SlabRuns.StepDefined(x, u, a);
    if u != t {
      assert Slab.ThreadOk(x, u, x.ops[u]);
      assert Slab.Held(x.ops[u]) == None;
    }
    hide Slab.Inv;
  }

  lemma CleanerActs(cfg: Config, s: State, t: nat, words: seq<nat>, i: nat)
    requires Inv(cfg, s) && Enabled(cfg, s, t, Continue(words)) && i < cfg.numSlabs && WalkOf(s.agents[t].pc).Some?
    ensures SlabAction(cfg, s, t, Continue(words), i).Some? ==> DrainingAction(SlabAction(cfg, s, t, Continue(words), i).value)
  {
    hide Inv;
  }

  lemma KeepsReturning(cfg: Config, s: State, e: Event, t: nat, w: nat, i: nat)
    requires Inv(cfg, s) && FreshStep(s, e.tid, e.act) && Enabled(cfg, s, e.tid, e.act)
    requires t < |s.agents| && WalkOf(s.agents[t].pc).Some? && s.agents[t].handle == Worker(w) && HeldBy(s, w, i)
    requires i < |s.slabs| && OnlyReturning(s.slabs[i], t)
    ensures i < |Apply(cfg, s, e.tid, e.act).slabs| && OnlyReturning(Apply(cfg, s, e.tid, e.act).slabs[i], t)
    ensures !Lands(s, e, i)
  {
    HeldMeansListed(cfg, s, w, i);
    SlabProjection(cfg, s, e.tid, e.act, i);
    var sa := SlabAction(cfg, s, e.tid, e.act, i);
    if Lands(s, e, i) { LandsIsPush(cfg, s, e, i); }
    if e.tid != t {
      InRange(cfg, s, e.tid, e.act);
      Exclusive(cfg, s, t, e.tid);
      OnlyOwnerTouchesSlab(cfg, s, e.tid, e.act, i, s.place[i].key);
    } else if e.act.Continue? {
      CleanerActs(cfg, s, t, e.act.words, i);
    } else {
      OnlyWrites(cfg, s, e, t);
      assert sa.None? by { NothingLive(cfg, s, e, i, t); }
    }
    hide Inv, Enabled, Apply, SlabAction, OnlyReturning, Lands, SlabRuns.Apply, SlabRuns.Enabled, HeldBy;
    if sa.Some? { ReturningStep(s.slabs[i], e.tid, sa.value, t); }
  }

  lemma LandsIsPush(cfg: Config, s: State, e: Event, i: nat)
    requires Inv(cfg, s) && Enabled(cfg, s, e.tid, e.act) && i < cfg.numSlabs && Lands(s, e, i)
    ensures SlabAction(cfg, s, e.tid, e.act, i) == Some(SlabRuns.Push) && PushLands(s.slabs[i], e.tid, SlabRuns.Push)
  {
    hide Inv;
  }

  lemma NothingLive(cfg: Config, s: State, e: Event, i: nat, t: nat)
    requires Inv(cfg, s) && Enabled(cfg, s, e.tid, e.act) && e.act.Write? && i < cfg.numSlabs && OnlyReturning(s.slabs[i], t)
    ensures SlabAction(cfg, s, e.tid, e.act, i) == None
  {
    hide Inv;
  }

  /** While slab `i` stays with worker `w`, only its return is under way and the visit does its part. */
  ghost predicate Returning(s: State, t: nat, w: nat, i: nat)
    requires t < |s.agents| && WalkOf(s.agents[t].pc).Some?
  {
    HeldBy(s, w, i) ==> i < |s.slabs| && OnlyReturning(s.slabs[i], t) && VisitDone(s, t, i)
  }

  lemma SameHandle(cfg: Config, s: State, e: Event, t: nat)
    requires Inv(cfg, s) && FreshStep(s, e.tid, e.act) && Enabled(cfg, s, e.tid, e.act)
    requires t < |s.agents| && WalkOf(s.agents[t].pc).Some?
    requires t < |Apply(cfg, s, e.tid, e.act).agents| && WalkOf(Apply(cfg, s, e.tid, e.act).agents[t].pc).Some?
    ensures Apply(cfg, s, e.tid, e.act).agents[t].handle == s.agents[t].handle
  {
    if e.tid == t && e.act.Continue? {
      InBounds(cfg, s, t);
      if s.agents[t].pc.CleanFree? {
        StepIsDrainFree(cfg, s, t, e.act.words);
        hide Inv;
        DrainFreeHandle(cfg, s, t, s.agents[t].pc.drain);
      } else {
        WalkKeepsHandle(cfg, s, t, e.act.words);
      }
    } else {
      OnlyWrites(cfg, s, e, t);
      hide Inv, Apply;
      OthersKeepPc(cfg, s, e.tid, e.act, t);
    }
  }

  lemma DrainFreeHandle(cfg: Config, s: State, t: nat, d: Drain)
    requires Sized(cfg, s) && t < |s.agents| && s.agents[t].pc == CleanFree(d) && d.slab < cfg.numSlabs && s.agents[t].handle.Worker?
    ensures var n := DrainFree(cfg, s, t, s.agents[t].handle.index, d); t < |n.agents| && n.agents[t].handle == s.agents[t].handle
  {
    hide CanSwitch, Switch, Lists.CanRemove, Lists.RemoveFrom, Slab.LocalPush, OutcomeOf;
  }

  lemma WalkKeepsHandle(cfg: Config, s: State, t: nat, words: seq<nat>)
    requires Inv(cfg, s) && Enabled(cfg, s, t, Continue(words)) && WalkOf(s.agents[t].pc).Some? && !s.agents[t].pc.CleanFree?
    ensures t < |Apply(cfg, s, t, Continue(words)).agents|
    ensures Apply(cfg, s, t, Continue(words)).agents[t].handle == s.agents[t].handle
  {
    InBounds(cfg, s, t);
    hide Inv, Refill, TakeSlot, LocalFree, DrainFree, Take, Claim, Find, ChooseRoute, BeginRemote, RemoteStep, Size, Capacity,
      Pool.Advance, ValidConfig;
  }

  lemma ReturningKept(cfg: Config, s: State, e: Event, t: nat, w: nat, i: nat)
    requires Inv(cfg, s) && FreshStep(s, e.tid, e.act) && Enabled(cfg, s, e.tid, e.act)
    requires t < |s.agents| && WalkOf(s.agents[t].pc).Some? && s.agents[t].handle == Worker(w) && Returning(s, t, w, i)
    requires t < |Apply(cfg, s, e.tid, e.act).agents| && WalkOf(Apply(cfg, s, e.tid, e.act).agents[t].pc).Some?
    ensures Returning(Apply(cfg, s, e.tid, e.act), t, w, i)
    ensures Apply(cfg, s, e.tid, e.act).agents[t].handle == Worker(w)
  {
    GainsNothing(cfg, s, e, t, w, i);
    SameHandle(cfg, s, e, t);
    hide Enabled, Apply, OnlyReturning, VisitDone, Lands, HeldBy;
    if HeldBy(s, w, i) {
      HeldMeansListed(cfg, s, w, i);
      KeepsReturning(cfg, s, e, t, w, i);
      hide Inv;
      VisitDoneStep(cfg, s, e, t, i);
    }
  }

  lemma {:induction false} ReturningRun(cfg: Config, s: State, es: seq<Event>, t: nat, w: nat, i: nat)
    requires ValidConfig(cfg) && Inv(cfg, s) && Valid(cfg, s, es) && FreshRun(cfg, s, es) && InCall(cfg, s, es, t)
    requires s.agents[t].handle == Worker(w) && Returning(s, t, w, i)
    ensures t < |Exec(cfg, s, es).agents| && WalkOf(Exec(cfg, s, es).agents[t].pc).Some?
    ensures Exec(cfg, s, es).agents[t].handle == Worker(w) && Returning(Exec(cfg, s, es), t, w, i)
    decreases |es|
  {
    hide Inv, Apply, Enabled, Returning;
    if es != [] {
      var s1 := Apply(cfg, s, es[0].tid, es[0].act);
      assert InCall(cfg, s1, es[1..], t);
      ReturningKept(cfg, s, es[0], t, w, i);
      StepKeepsInv(cfg, s, es[0].tid, es[0].act);
      ReturningRun(cfg, s1, es[1..], t, w, i);
    }
  }

  /** A slab that is only being returned and has been visited is wholly free at the end, so it cannot be listed. */
  lemma NotHeldAtEnd(cfg: Config, s: State, t: nat, w: nat, i: nat)
    requires Inv(cfg, s) && AtEnd(s, t) && s.agents[t].handle == Worker(w) && Returning(s, t, w, i)
    requires i in s.agents[t].pc.walk.seen
    ensures !HeldBy(s, w, i)
  {
    if HeldBy(s, w, i) {
      HeldMeansListed(cfg, s, w, i);
      IterIsIdle(cfg, s, t, i);
      hide Pool.Inv, Lists.Inv, WorkerOk, ValidConfig;
      assert SlabOk(cfg, s, i) && AgentOk(cfg, s, t);
      var x := s.slabs[i];
      assert Slab.ThreadOk(x, t, x.ops[t]);
      assert Slab.Quiet(x);
      Slab.FullIffQuiet(x);
    }
  }

  /**
   * A slab that had nothing but free and remotely freed slots when the call began is no longer its worker's when
   * the call ends: it has been given back to the global list, whatever the other handles do meanwhile.
   */
  lemma CleanGivesBack(cfg: Config, s: State, es: seq<Event>, t: nat, w: nat, i: nat)
    requires ValidConfig(cfg) && Started(cfg, s, t, w) && Valid(cfg, s, es) && FreshRun(cfg, s, es) && InCall(cfg, s, es, t)
    requires AtEnd(Exec(cfg, s, es), t) && HeldBy(s, w, i)
    requires i < |s.slabs| && forall k: nat :: k < |s.slabs[i].loc| ==> s.slabs[i].loc[k] in {Slab.Free, Slab.Remote}
    ensures !HeldBy(Exec(cfg, s, es), w, i)
  {
    EntryAhead(cfg, s, t, w);
    SeenHeld(cfg, s, es, t, w, i);
    RunKeepsInv(cfg, s, es);
    assert OnlyReturning(s.slabs[i], t) && VisitDone(s, t, i);
    hide Inv, Valid, FreshRun, InCall, OnlyReturning, VisitDone, HeldBy, Exec;
    ReturningRun(cfg, s, es, t, w, i);
    NotHeldAtEnd(cfg, Exec(cfg, s, es), t, w, i);
  }
}
