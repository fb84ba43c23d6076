/** A cleaning call that runs alone ends, and does exactly what it is for. */
module CleaningAlone {
  import opened Base
  import opened SizeClasses
  import opened Address
  import opened Allocator
  import opened AllocatorInv
  import opened AllocatorRuns
  import opened AllocatorProjection
  import opened AllocatorOwners
  import opened AllocatorAccounts
  import opened Cleaning
  import opened CleaningDrains
  import AllocatorRetire
  import AllocatorClean
  import Pool = GlobalFreeList
  import Lists = LocalLists
  import Slab
  import SlabRuns

  // ----- the call ends

  function Line(pc: Pc): nat
    requires WalkOf(pc).Some?
  {
    match pc
    case CleanLine(line, _) => line
    case CleanIter(line, _, _) => line
    case CleanSwap(line, _, _, _, _) => line
    case CleanDrain(d) => d.line
    case CleanFree(d) => d.line
    case Giving(_, after) => after.drain.line
  }

  /** What is left of the lists: each takes its turn to be started, then to be walked. */
  function LinesLeft(pc: Pc): nat
    requires WalkOf(pc).Some?
  {
    if Line(pc) >= LINES then 0 else 2 * (LINES - Line(pc)) + (if pc.CleanLine? then 1 else 0)
  }

  function Phase(pc: Pc): nat {
    match pc
    case CleanSwap(_, _, _, _, _) => 2
    case CleanIter(_, _, _) => 0
    case CleanLine(_, _) => 0
    case _ => 1
  }

  /** Slots of the chain still to be freed, the one in hand counting half a step more. */
  function ChainLeft(s: State, t: nat): nat
    requires t < |s.agents|
  {
    var pc := s.agents[t].pc;
    match Working(pc)
    case None => 0
    case Some(i) =>
      if i < |s.slabs| && t < |s.slabs[i].ops|
      then 2 * |Slab.Rest(s.slabs[i].ops[t])| + (if pc.CleanFree? then 1 else 0) else 0
  }

  /** Steps left of a push on the global list; a stale head costs one more round. */
  function PushLeft(p: Pool.State, t: nat): nat
    requires t < |p.ops|
  {
    match p.ops[t]
    case PushStart(_) => 3
    case PushLink(_, seen, _) => if seen == p.head then 2 else 5
    case PushSwap(_, seen, _) => if seen == p.head then 1 else 4
    case _ => 0
  }

  /** The handle's own next step brings the call closer to its end. */
  ghost predicate Closer(s: State, s': State, t: nat)
    requires t < |s.agents| && t < |s.pool.ops| && WalkOf(s.agents[t].pc).Some?
    requires t < |s'.agents| && t < |s'.pool.ops| && WalkOf(s'.agents[t].pc).Some?
  {
    var pc, pc' := s.agents[t].pc, s'.agents[t].pc;
    var a, a' := LinesLeft(pc), LinesLeft(pc');
    var b, b' := |WalkOf(pc).value.todo|, |WalkOf(pc').value.todo|;
    || a' < a
    || (a' == a && b' < b)
    || (a' == a && b' == b && Phase(pc') < Phase(pc))
    || (a' == a && b' == b && Phase(pc') == Phase(pc) && ChainLeft(s', t) < ChainLeft(s, t))
    || (a' == a && b' == b && Phase(pc') == Phase(pc) && ChainLeft(s', t) == ChainLeft(s, t)
        && PushLeft(s'.pool, t) < PushLeft(s.pool, t))
  }

  /** Where the call is in its lists, from the invariant. */
  lemma InLines(cfg: Config, s: State, t: nat)
    requires Inv(cfg, s) && t < |s.agents| && WalkOf(s.agents[t].pc).Some? && !s.agents[t].pc.CleanLine?
    ensures Line(s.agents[t].pc) < LINES
    ensures s.agents[t].pc.CleanIter? && s.agents[t].pc.cursor != NULL_U32 ==> s.agents[t].pc.walk.todo != []
  {
    hide Pool.Inv, Lists.Inv, SlabOk, WorkerOk, ValidConfig;
    assert AgentOk(cfg, s, t);
  }

  lemma WalkCloser(s: State, s': State, t: nat)
    requires t < |s.agents| && t < |s.pool.ops| && WalkOf(s.agents[t].pc).Some?
    requires t < |s'.agents| && t < |s'.pool.ops| && WalkOf(s'.agents[t].pc).Some?
    requires s.agents[t].pc.CleanLine? || s.agents[t].pc.CleanIter? || s.agents[t].pc.CleanSwap?
    requires s.agents[t].pc.CleanLine? || Line(s.agents[t].pc) < LINES
    requires s.agents[t].pc.CleanIter? && s.agents[t].pc.cursor != NULL_U32 ==> s.agents[t].pc.walk.todo != []
    requires Moves(s.agents[t].pc, s'.agents[t].pc)
    ensures Closer(s, s', t)
  {
  }

  lemma DrainCloser(cfg: Config, s: State, t: nat, words: seq<nat>)
    requires Inv(cfg, s) && Fresh(s, t) && Enabled(cfg, s, t, Continue(words)) && s.agents[t].pc.CleanDrain?
    requires var s' := Apply(cfg, s, t, Continue(words));
             t < |s'.agents| && t < |s'.pool.ops| && WalkOf(s'.agents[t].pc).Some? && Moves(s.agents[t].pc, s'.agents[t].pc)
    ensures t < |s.pool.ops| && Closer(s, Apply(cfg, s, t, Continue(words)), t)
  {
    var s' := Apply(cfg, s, t, Continue(words));
    var i := s.agents[t].pc.drain.slab;
    SizesHere(cfg, s, t);
    InBounds(cfg, s, t);
    var sa := SlabAction(cfg, s, t, Continue(words), i);
    assert sa == Some(SlabRuns.Finish) || sa == Some(SlabRuns.Yield);
    hide Inv, Enabled, Apply, SlabAction, Closer;
    if s'.agents[t].pc.CleanFree? {
      SlabProjection(cfg, s, t, Continue(words), i);
      StepKeepsInv(cfg, s, t, Continue(words));
      FreeHolds(cfg, s', t, i);
      hide Projects, SlabRuns.Apply, SlabRuns.Enabled, Slab.Inv;
      ProjectedRest(cfg, s, t, s', i, sa.value);
    }
    NextSlotCloser(s, s', t);
  }

  lemma ProjectedRest(cfg: Config, s: State, t: nat, s': State, i: nat, a: SlabRuns.Action)
    requires Projects(cfg, s, t, s', i, Some(a)) && (a.Yield? || a.Finish?)
    requires t < |s'.slabs[i].ops| && s'.slabs[i].ops[t].DrainHold?
    ensures t < |s.slabs[i].ops| && |Slab.Rest(s'.slabs[i].ops[t])| < |Slab.Rest(s.slabs[i].ops[t])|
  {
    RestShrinks(s.slabs[i], t, a);
  }

  /** From a drain: either its chain is done, or it is one slot shorter. */
  lemma NextSlotCloser(s: State, s': State, t: nat)
    requires t < |s.agents| && t < |s.pool.ops| && s.agents[t].pc.CleanDrain?
    requires t < |s'.agents| && t < |s'.pool.ops| && WalkOf(s'.agents[t].pc).Some? && Moves(s.agents[t].pc, s'.agents[t].pc)
    requires s'.agents[t].pc.CleanFree? ==>
      var i := s.agents[t].pc.drain.slab;
      && i < |s.slabs| && i < |s'.slabs| && t < |s.slabs[i].ops| && t < |s'.slabs[i].ops|
      && |Slab.Rest(s'.slabs[i].ops[t])| < |Slab.Rest(s.slabs[i].ops[t])|
    ensures Closer(s, s', t)
  {
  }

  lemma FreeHolds(cfg: Config, s: State, t: nat, i: nat)
    requires Inv(cfg, s) && t < |s.agents| && i < cfg.numSlabs && s.agents[t].pc.CleanFree? && s.agents[t].pc.drain.slab == i
    ensures t < |s.slabs[i].ops| && s.slabs[i].ops[t].DrainHold?
  {
    hide Pool.Inv, Lists.Inv, Slab.Inv, SlabOk, WorkerOk, ValidConfig, Midway, Ahead;
    assert AgentOk(cfg, s, t);
    assert SlabOpFits(s.agents[t].pc, i, s.slabs[i].ops[t]);
  }

  lemma RestShrinks(x: Slab.State, t: nat, a: SlabRuns.Action)
    requires Slab.Inv(x) && SlabRuns.Enabled(x, t, a) && (a.Yield? || a.Finish?)
    requires SlabRuns.Apply(x, t, a).ops[t].DrainHold?
    ensures |Slab.Rest(SlabRuns.Apply(x, t, a).ops[t])| < |Slab.Rest(x.ops[t])|
  {
    if a.Yield? { Slab.DrainNextKeeps(x, t); }
  }

  lemma FreeCloser(cfg: Config, s: State, t: nat, words: seq<nat>)
    requires Inv(cfg, s) && Fresh(s, t) && Enabled(cfg, s, t, Continue(words)) && s.agents[t].pc.CleanFree?
    requires var s' := Apply(cfg, s, t, Continue(words));
             t < |s'.agents| && t < |s'.pool.ops| && WalkOf(s'.agents[t].pc).Some? && Moves(s.agents[t].pc, s'.agents[t].pc)
    ensures t < |s.pool.ops| && Closer(s, Apply(cfg, s, t, Continue(words)), t)
  {
    var i := s.agents[t].pc.drain.slab;
    InBounds(cfg, s, t);
    SlabProjection(cfg, s, t, Continue(words), i);
    assert SlabAction(cfg, s, t, Continue(words), i) == Some(SlabRuns.PushLocal);
    FreeHolds(cfg, s, t, i);
    hide Inv, Enabled, Apply, SlabAction;
    RestStays(s.slabs[i], t);
  }

  lemma RestStays(x: Slab.State, t: nat)
    requires Slab.Inv(x) && SlabRuns.Enabled(x, t, SlabRuns.PushLocal)
    ensures Slab.Rest(SlabRuns.Apply(x, t, SlabRuns.PushLocal).ops[t]) == Slab.Rest(x.ops[t])
  {
  }

  lemma GiveCloser(cfg: Config, s: State, t: nat, words: seq<nat>)
    requires Inv(cfg, s) && Fresh(s, t) && Enabled(cfg, s, t, Continue(words)) && s.agents[t].pc.Giving?
    requires WalkOf(s.agents[t].pc).Some?
    requires var s' := Apply(cfg, s, t, Continue(words));
             t < |s'.agents| && t < |s'.pool.ops| && WalkOf(s'.agents[t].pc).Some? && Moves(s.agents[t].pc, s'.agents[t].pc)
    ensures t < |s.pool.ops| && Closer(s, Apply(cfg, s, t, Continue(words)), t)
  {
    var s' := Apply(cfg, s, t, Continue(words));
    var i := s.agents[t].pc.after.drain.slab;
    GiveOps(cfg, s, t);
    SlabProjection(cfg, s, t, Continue(words), i);
    PoolProjection(cfg, s, t, Continue(words));
    assert SlabAction(cfg, s, t, Continue(words), i) == None;
    assert PoolAction(cfg, s, t, Continue(words)) == Some(Pool.Continue);
    hide Inv, Enabled, Apply, SlabAction, PoolAction;
    PushCloser(s.pool, t);
  }

  lemma GiveOps(cfg: Config, s: State, t: nat)
    requires Inv(cfg, s) && t < |s.agents| && s.agents[t].pc.Giving? && WalkOf(s.agents[t].pc).Some?
    ensures s.agents[t].pc.after.drain.slab < cfg.numSlabs
    ensures t < |s.pool.ops| && AllocatorClean.GiveOp(s.pool.ops[t], s.agents[t].pc.slab)
  {
    hide Pool.Inv, Lists.Inv, Slab.Inv, SlabOk, WorkerOk, ValidConfig, Midway, Ahead;
    assert AgentOk(cfg, s, t);
  }

  lemma PushCloser(p: Pool.State, t: nat)
    requires Pool.Inv(p) && t < |p.ops| && (p.ops[t].PushStart? || p.ops[t].PushLink? || p.ops[t].PushSwap?)
    ensures t < |Pool.Advance(p, t).ops| && PushLeft(Pool.Advance(p, t), t) < PushLeft(p, t)
  {
    assert Pool.OpOk(p, p.ops[t]);
  }

  /** Every step the call takes on its own, short of its end, is possible and brings it closer to its end. */
  lemma AloneStep(cfg: Config, s: State, t: nat)
    requires Inv(cfg, s) && t < |s.agents| && WalkOf(s.agents[t].pc).Some? && !AtEnd(s, t)
    ensures Enabled(cfg, s, t, Continue([])) && Fresh(s, t)
    ensures var s' := Apply(cfg, s, t, Continue([]));
            && Inv(cfg, s') && t < |s.pool.ops| && t < |s'.agents| && t < |s'.pool.ops|
            && WalkOf(s'.agents[t].pc).Some? && Closer(s, s', t)
  {
    CanGoOn(cfg, s, t);
    CleanerMoves(cfg, s, t, []);
    StepKeepsInv(cfg, s, t, Continue([]));
    var s' := Apply(cfg, s, t, Continue([]));
    SizesHere(cfg, s, t);
    SizesHere(cfg, s', t);
    hide Inv, Apply, Enabled, Closer;
    match s.agents[t].pc
    case CleanDrain(_) => InLines(cfg, s, t); DrainCloser(cfg, s, t, []);
    case CleanFree(_) => FreeCloser(cfg, s, t, []);
    case Giving(_, _) => GiveCloser(cfg, s, t, []);
    case CleanLine(_, _) => WalkCloser(s, s', t);
    case _ => InLines(cfg, s, t); WalkCloser(s, s', t);
  }

  lemma SizesHere(cfg: Config, s: State, t: nat)
    requires Inv(cfg, s) && t < |s.agents|
    ensures t < |s.pool.ops|
  {
  }

  lemma CanGoOn(cfg: Config, s: State, t: nat)
    requires Inv(cfg, s) && t < |s.agents| && WalkOf(s.agents[t].pc).Some?
    ensures Enabled(cfg, s, t, Continue([])) && Fresh(s, t)
  {
    hide Pool.Inv, Lists.Inv, Slab.Inv, SlabOk, WorkerOk, ValidConfig, Midway, Ahead, Size, Capacity;
    assert AgentOk(cfg, s, t);
  }

  /** Every event is the handle's own next step. */
  ghost predicate Alone(es: seq<Event>, t: nat) {
    forall n :: 0 <= n < |es| ==> es[n] == Event(t, Continue([]))
  }

  /** A cleaning call left alone, from whatever point it has reached, ends. */
  lemma {:induction false} AloneEnds(cfg: Config, s: State, t: nat) returns (es: seq<Event>)
    requires ValidConfig(cfg) && Inv(cfg, s) && t < |s.agents| && t < |s.pool.ops| && WalkOf(s.agents[t].pc).Some?
    ensures Alone(es, t) && Valid(cfg, s, es) && FreshRun(cfg, s, es) && InCall(cfg, s, es, t)
    ensures AtEnd(Exec(cfg, s, es), t)
    decreases LinesLeft(s.agents[t].pc), |WalkOf(s.agents[t].pc).value.todo|, Phase(s.agents[t].pc), ChainLeft(s, t),
              PushLeft(s.pool, t)
  {
    hide Inv, Apply, Enabled, Fresh;
    if AtEnd(s, t) {
      es := [];
    } else {
      AloneStep(cfg, s, t);
      var s1 := Apply(cfg, s, t, Continue([]));
      var rest := AloneEnds(cfg, s1, t);
      es := [Event(t, Continue([]))] + rest;
      assert es[1..] == rest;
    }
  }

  // ----- what it does to the slots

  /** Slots of `x0` have moved, if at all, from the remote list on to the drainer's hands and its free stack. */
  ghost predicate Returned(x0: Slab.State, x: Slab.State, t: nat) {
    && |x.loc| == |x0.loc|
    && forall k: nat {:trigger x.loc[k]} :: k < |x.loc| ==>
         || x.loc[k] == x0.loc[k]
         || (x0.loc[k] == Slab.Remote && x.loc[k] in {Slab.Drained(t), Slab.Freeing(t), Slab.Free})
  }

  /** Nothing of the slab is in the hands of handle `t`. */
  ghost predicate HandsOff(x: Slab.State, t: nat) {
    forall k: nat {:trigger x.loc[k]} :: k < |x.loc| ==> x.loc[k] != Slab.Drained(t) && x.loc[k] != Slab.Freeing(t)
  }

  lemma IdleHandsOff(x: Slab.State, t: nat)
    requires Slab.Inv(x) && t < |x.ops| && x.ops[t] == Slab.Idle
    ensures HandsOff(x, t)
  {
    assert Slab.ThreadOk(x, t, x.ops[t]);
    forall k: nat | k < |x.loc| ensures x.loc[k] != Slab.Drained(t) {
      assert k !in Slab.Rest(x.ops[t]);
    }
  }

  lemma ReturnedStep(x0: Slab.State, x: Slab.State, t: nat, a: SlabRuns.Action)
    requires Slab.Inv(x) && SlabRuns.Enabled(x, t, a) && DrainingAction(a) && Returned(x0, x, t) && HandsOff(x0, t)
    ensures Returned(x0, SlabRuns.Apply(x, t, a), t)
  {
    assert Slab.ThreadOk(x, t, x.ops[t]);
    SlabRuns.StepDefined(x, t, a);
    if a.Yield? {
      Slab.DrainNextKeeps(x, t);
      assert x.ops[t].rest[0] in x.ops[t].rest;
    }
    hide Slab.Inv;
  }

  lemma ReturnedAtEnd(x0: Slab.State, x: Slab.State, t: nat, k: nat)
    requires Slab.Inv(x) && Returned(x0, x, t) && HandsOff(x0, t) && HandsOff(x, t) && Cleared(x, None) && k < |x.loc|
    ensures k < |x0.loc| && x.loc[k] == if x0.loc[k] == Slab.Remote then Slab.Free else x0.loc[k]
  {
  }

  lemma AloneReturned(cfg: Config, s: State, t: nat, i: nat, x0: Slab.State)
    requires Inv(cfg, s) && t < |s.agents| && WalkOf(s.agents[t].pc).Some? && Enabled(cfg, s, t, Continue([])) && i < cfg.numSlabs
    requires HandsOff(x0, t) && Returned(x0, s.slabs[i], t)
    ensures i < |Apply(cfg, s, t, Continue([])).slabs| && Returned(x0, Apply(cfg, s, t, Continue([])).slabs[i], t)
  {
    SlabProjection(cfg, s, t, Continue([]), i);
    CleanerActs(cfg, s, t, [], i);
    var sa := SlabAction(cfg, s, t, Continue([]), i);
    hide Inv, Enabled, Apply, SlabAction, Returned, HandsOff, SlabRuns.Apply, SlabRuns.Enabled;
    if sa.Some? { ReturnedStep(x0, s.slabs[i], t, sa.value); }
  }

  /** The slab the call is at has been seen. */
  ghost predicate AtSeen(pc: Pc) {
    && WalkOf(pc).Some?
    && (pc.CleanSwap? ==> pc.slab in pc.walk.seen)
    && (Working(pc).Some? ==> Working(pc).value in WalkOf(pc).value.seen)
  }

  lemma SeenGrows(pc: Pc, pc': Pc)
    requires AtSeen(pc) && WalkOf(pc').Some? && Moves(pc, pc')
    ensures AtSeen(pc') && forall i: nat :: i in WalkOf(pc).value.seen ==> i in WalkOf(pc').value.seen
  {
  }

  lemma UnseenUntouched(cfg: Config, s: State, t: nat, i: nat)
    requires Inv(cfg, s) && t < |s.agents| && AtSeen(s.agents[t].pc) && Enabled(cfg, s, t, Continue([])) && i < cfg.numSlabs
    requires i !in WalkOf(s.agents[t].pc).value.seen
    ensures Apply(cfg, s, t, Continue([])).slabs[i] == s.slabs[i]
  {
    SlabProjection(cfg, s, t, Continue([]), i);
    assert SlabAction(cfg, s, t, Continue([]), i) == None;
    hide Inv, Enabled, Apply, SlabAction;
  }

  // ----- what it does to the slabs' places

  /** Slab `i` is still its worker's, or given back, or on its way back. */
  ghost predicate KeptOrGiven(s: State, t: nat, w: nat, i: nat) {
    HeldBy(s, w, i) || (i < |s.place| && s.place[i] in {InPool, Transit(t)})
  }

  lemma FreePlaces(cfg: Config, s: State, t: nat, w: nat, d: Drain, i: nat)
    requires Inv(cfg, s) && t < |s.agents| && s.agents[t] == Agent(Worker(w), CleanFree(d)) && i < cfg.numSlabs
    ensures d.slab < cfg.numSlabs && w < cfg.numWorkers && |DrainFree(cfg, s, t, w, d).place| == cfg.numSlabs
    ensures var p := DrainFree(cfg, s, t, w, d).place[i];
            p == s.place[i] || (i == d.slab && (p == Transit(t) || (p.Listed? && p.key.worker == w)))
  {
    AllocatorClean.DrainFreeEffects(cfg, s, t, w, d);
    hide Inv, DrainFree, SlabOk, AgentOk, WorkerOk, Shape, AllocatorRetire.WalkKept;
  }

  lemma WalkPlaces(cfg: Config, s: State, t: nat, i: nat)
    requires Inv(cfg, s) && Enabled(cfg, s, t, Continue([])) && WalkOf(s.agents[t].pc).Some? && i < cfg.numSlabs
    requires !s.agents[t].pc.CleanFree? && !s.agents[t].pc.Giving?
    ensures Apply(cfg, s, t, Continue([])).place == s.place
  {
    InBounds(cfg, s, t);
    hide Inv, Refill, TakeSlot, LocalFree, DrainFree, Take, Claim, Find, ChooseRoute, BeginRemote, RemoteStep, Give, Size, Capacity,
      ValidConfig;
  }

  lemma GivePlaces(cfg: Config, s: State, t: nat, i: nat)
    requires Inv(cfg, s) && Enabled(cfg, s, t, Continue([])) && s.agents[t].pc.Giving? && WalkOf(s.agents[t].pc).Some? && i < cfg.numSlabs
    ensures var p := Apply(cfg, s, t, Continue([])).place; i < |p| && (p[i] == s.place[i] || p[i] == InPool)
  {
    InBounds(cfg, s, t);
    GiveOps(cfg, s, t);
    hide Inv, Refill, TakeSlot, LocalFree, DrainFree, Take, Claim, Find, ChooseRoute, BeginRemote, RemoteStep, Size, Capacity,
      Pool.Advance, DrainStep, ValidConfig;
  }

  lemma AlonePlaces(cfg: Config, s: State, t: nat, w: nat, i: nat)
    requires Inv(cfg, s) && Enabled(cfg, s, t, Continue([])) && Inv(cfg, Apply(cfg, s, t, Continue([]))) && i < cfg.numSlabs
    requires WalkOf(s.agents[t].pc).Some? && s.agents[t].handle == Worker(w) && KeptOrGiven(s, t, w, i)
    ensures KeptOrGiven(Apply(cfg, s, t, Continue([])), t, w, i)
  {
    var s' := Apply(cfg, s, t, Continue([]));
    if HeldBy(s, w, i) { HeldMeansListed(cfg, s, w, i); }
    if s.agents[t].pc.CleanFree? {
      InBounds(cfg, s, t);
      StepIsDrainFree(cfg, s, t, []);
      FreePlaces(cfg, s, t, w, s.agents[t].pc.drain, i);
    } else if s.agents[t].pc.Giving? {
      GivePlaces(cfg, s, t, i);
    } else {
      WalkPlaces(cfg, s, t, i);
    }
    PlaceSizes(cfg, s');
    hide Inv, Apply, Enabled, DrainFree;
    if s'.place[i].Listed? && s'.place[i].key.worker == w { ListedMeansHeld(cfg, s', w, i); }
  }

  lemma PlaceSizes(cfg: Config, s: State)
    requires Inv(cfg, s)
    ensures |s.place| == |s.slabs| == cfg.numSlabs
  {
  }

  lemma ListedMeansHeld(cfg: Config, s: State, w: nat, i: nat)
    requires Inv(cfg, s) && i < cfg.numSlabs && s.place[i].Listed? && s.place[i].key.worker == w
    ensures HeldBy(s, w, i)
  {
    hide Pool.Inv, Lists.Inv, Slab.Inv, AgentOk, WorkerOk;
    assert SlabOk(cfg, s, i);
    assert i in s.local.lists[s.place[i].key];
  }

  // ----- the whole call

  /** What a call alone has done to slab `i` so far. */
  ghost predicate SoFar(s: State, t: nat, w: nat, i: nat, x0: Slab.State) {
    && t < |s.agents| && AtSeen(s.agents[t].pc) && s.agents[t].handle == Worker(w) && i < |s.slabs|
    && Returned(x0, s.slabs[i], t) && KeptOrGiven(s, t, w, i) && VisitDone(s, t, i)
  }

  lemma NothingLands(cfg: Config, s: State, t: nat, i: nat)
    requires t < |s.agents| && WalkOf(s.agents[t].pc).Some?
    ensures !Lands(s, Event(t, Continue([])), i)
  {
  }

  lemma SoFarStep(cfg: Config, s: State, t: nat, w: nat, i: nat, x0: Slab.State)
    requires Inv(cfg, s) && Enabled(cfg, s, t, Continue([])) && Fresh(s, t) && i < cfg.numSlabs
    requires SoFar(s, t, w, i, x0) && HandsOff(x0, t)
    requires t < |Apply(cfg, s, t, Continue([])).agents| && WalkOf(Apply(cfg, s, t, Continue([])).agents[t].pc).Some?
    ensures SoFar(Apply(cfg, s, t, Continue([])), t, w, i, x0)
  {
    var s' := Apply(cfg, s, t, Continue([]));
    StepKeepsInv(cfg, s, t, Continue([]));
    PlaceSizes(cfg, s');
    hide Inv, Apply, Enabled, Fresh, Returned, HandsOff, KeptOrGiven, VisitDone;
    CleanerMoves(cfg, s, t, []);
    SeenGrows(s.agents[t].pc, s'.agents[t].pc);
    SameHandle(cfg, s, Event(t, Continue([])), t);
    AloneReturned(cfg, s, t, i, x0);
    AlonePlaces(cfg, s, t, w, i);
    NothingLands(cfg, s, t, i);
    VisitDoneStep(cfg, s, Event(t, Continue([])), t, i);
  }

  lemma {:induction false} SoFarRun(cfg: Config, s: State, es: seq<Event>, t: nat, w: nat, i: nat, x0: Slab.State)
    requires ValidConfig(cfg) && Inv(cfg, s) && Alone(es, t) && Valid(cfg, s, es) && FreshRun(cfg, s, es) && InCall(cfg, s, es, t)
    requires i < cfg.numSlabs && SoFar(s, t, w, i, x0) && HandsOff(x0, t)
    ensures SoFar(Exec(cfg, s, es), t, w, i, x0)
    decreases |es|
  {
    hide Inv, Apply, Enabled, Fresh, SoFar, HandsOff;
    if es != [] {
      var s1 := Apply(cfg, s, t, Continue([]));
      assert es[0] == Event(t, Continue([]));
      assert InCall(cfg, s1, es[1..], t);
      SoFarStep(cfg, s, t, w, i, x0);
      StepKeepsInv(cfg, s, t, Continue([]));
      SoFarRun(cfg, s1, es[1..], t, w, i, x0);
    }
  }

  /** Slabs the call never sees are left as they are. */
  lemma {:induction false} UnseenRun(cfg: Config, s: State, es: seq<Event>, t: nat, i: nat)
    requires ValidConfig(cfg) && Inv(cfg, s) && Alone(es, t) && Valid(cfg, s, es) && FreshRun(cfg, s, es) && InCall(cfg, s, es, t)
    requires i < cfg.numSlabs && AtSeen(s.agents[t].pc)
    requires t < |Exec(cfg, s, es).agents| && WalkOf(Exec(cfg, s, es).agents[t].pc).Some?
    requires i !in WalkOf(Exec(cfg, s, es).agents[t].pc).value.seen
    ensures i !in WalkOf(s.agents[t].pc).value.seen
    ensures i < |s.slabs| && i < |Exec(cfg, s, es).slabs| && Exec(cfg, s, es).slabs[i] == s.slabs[i]
    decreases |es|
  {
    PlaceSizes(cfg, s);
    hide Inv, Apply, Enabled, Fresh, AtSeen, Moves;
    if es != [] {
      var s1 := Apply(cfg, s, t, Continue([]));
      assert es[0] == Event(t, Continue([]));
      assert InCall(cfg, s1, es[1..], t);
      StepKeepsInv(cfg, s, t, Continue([]));
      CleanerMoves(cfg, s, t, []);
      SeenGrows(s.agents[t].pc, s1.agents[t].pc);
      UnseenRun(cfg, s1, es[1..], t, i);
      UnseenUntouched(cfg, s, t, i);
    }
  }

  /** At the end a slab is in the pool or still its worker's, and then it is not wholly free. */
  lemma PlaceAtEnd(cfg: Config, s: State, t: nat, w: nat, i: nat)
    requires Inv(cfg, s) && AtEnd(s, t) && s.agents[t].handle == Worker(w) && KeptOrGiven(s, t, w, i) && i < cfg.numSlabs
    ensures Slab.Quiet(s.slabs[i]) <==> s.place[i] == InPool
    ensures !Slab.Quiet(s.slabs[i]) <==> HeldBy(s, w, i)
  {
    if HeldBy(s, w, i) { HeldMeansListed(cfg, s, w, i); }
    hide Pool.Inv, Lists.Inv, WorkerOk, ValidConfig, Ahead;
    assert SlabOk(cfg, s, i) && AgentOk(cfg, s, t);
    Slab.FullIffQuiet(s.slabs[i]);
  }

  /**
   * Slab `i` after a call that ran alone: if it was not on a list of the worker it is as it was. If it was, its
   * remote list is empty, its remotely freed slots and no others have become free, and it is in the pool if that
   * left it wholly free, and otherwise still the worker's.
   */
  ghost predicate CleanedExactly(s: State, s': State, w: nat, i: nat) {
    && i < |s.slabs| && i < |s'.slabs| && i < |s'.place|
    && (!HeldBy(s, w, i) ==> s'.slabs[i] == s.slabs[i])
    && (HeldBy(s, w, i) ==>
          && s'.slabs[i].chain == [] && s'.slabs[i].head == NULL_U16
          && |s'.slabs[i].loc| == |s.slabs[i].loc|
          && (forall k: nat {:trigger s'.slabs[i].loc[k]} :: k < |s.slabs[i].loc| ==>
                s'.slabs[i].loc[k] == if s.slabs[i].loc[k] == Slab.Remote then Slab.Free else s.slabs[i].loc[k])
          && (Slab.Quiet(s'.slabs[i]) <==> s'.place[i] == InPool)
          && (!Slab.Quiet(s'.slabs[i]) <==> HeldBy(s', w, i)))
  }

  /** A cleaning call during which no other handle moves frees exactly the remotely freed slots of its worker. */
  lemma CleanAloneIsExact(cfg: Config, s: State, es: seq<Event>, t: nat, w: nat, i: nat)
    requires ValidConfig(cfg) && Started(cfg, s, t, w) && Alone(es, t)
    requires Valid(cfg, s, es) && FreshRun(cfg, s, es) && InCall(cfg, s, es, t) && AtEnd(Exec(cfg, s, es), t) && i < cfg.numSlabs
    ensures CleanedExactly(s, Exec(cfg, s, es), w, i)
  {
    var s' := Exec(cfg, s, es);
    EntryAhead(cfg, s, t, w);
    PlaceSizes(cfg, s);
    RunKeepsInv(cfg, s, es);
    PlaceSizes(cfg, s');
    if HeldBy(s, w, i) {
      HeldCase(cfg, s, es, t, w, i);
    } else {
      NeverSeen(cfg, s, es, t, w, i);
      hide Inv, Exec, Valid, FreshRun, InCall, HeldBy;
      UnseenRun(cfg, s, es, t, i);
    }
  }

  lemma NeverSeen(cfg: Config, s: State, es: seq<Event>, t: nat, w: nat, i: nat)
    requires ValidConfig(cfg) && Started(cfg, s, t, w) && Valid(cfg, s, es) && FreshRun(cfg, s, es) && InCall(cfg, s, es, t)
    requires AtEnd(Exec(cfg, s, es), t) && !HeldBy(s, w, i)
    ensures i !in Exec(cfg, s, es).agents[t].pc.walk.seen
  {
    VisitsEachOnce(cfg, s, es, t, w, i);
    VisitsTotal(cfg, s, es, t, i);
    hide Inv, Valid, Exec, FreshRun, InCall, HeldBy;
  }

  lemma HeldCase(cfg: Config, s: State, es: seq<Event>, t: nat, w: nat, i: nat)
    requires ValidConfig(cfg) && Started(cfg, s, t, w) && Alone(es, t)
    requires Valid(cfg, s, es) && FreshRun(cfg, s, es) && InCall(cfg, s, es, t) && AtEnd(Exec(cfg, s, es), t) && i < cfg.numSlabs
    requires HeldBy(s, w, i)
    ensures CleanedExactly(s, Exec(cfg, s, es), w, i)
  {
    var s' := Exec(cfg, s, es);
    PlaceSizes(cfg, s);
    HandsOffHere(cfg, s, t, i);
    RunKeepsInv(cfg, s, es);
    PlaceSizes(cfg, s');
    HandsOffHere(cfg, s', t, i);
    SeenHeld(cfg, s, es, t, w, i);
    assert SoFar(s, t, w, i, s.slabs[i]);
    hide Inv, Exec, Valid, FreshRun, InCall, HeldBy, Alone, HandsOff;
    SoFarRun(cfg, s, es, t, w, i, s.slabs[i]);
    PlaceAtEnd(cfg, s', t, w, i);
    ClearedIsEmpty(s'.slabs[i], 0);
    forall k: nat | k < |s.slabs[i].loc|
      ensures s'.slabs[i].loc[k] == if s.slabs[i].loc[k] == Slab.Remote then Slab.Free else s.slabs[i].loc[k]
    {
      ReturnedAtEnd(s.slabs[i], s'.slabs[i], t, k);
    }
  }

  lemma HandsOffHere(cfg: Config, s: State, t: nat, i: nat)
    requires Inv(cfg, s) && t < |s.agents| && s.agents[t].pc.CleanLine? && i < cfg.numSlabs
    ensures HandsOff(s.slabs[i], t) && Slab.Inv(s.slabs[i])
  {
    IterIsIdle(cfg, s, t, i);
    assert SlabOk(cfg, s, i);
    IdleHandsOff(s.slabs[i], t);
  }

  /** From any reachable state, a cleaning call that is left alone returns, having done exactly its work. */
  lemma CleanAlone(cfg: Config, s: State, t: nat) returns (es: seq<Event>)
    requires ValidConfig(cfg) && Reachable(cfg, s) && Enabled(cfg, s, t, CallClean)
    ensures var s1 := Apply(cfg, s, t, CallClean);
      && Alone(es, t) && Valid(cfg, s1, es) && AtEnd(Exec(cfg, s1, es), t)
      && (forall i: nat {:trigger CleanedExactly(s, Exec(cfg, s1, es), s.agents[t].handle.index, i)} :: i < cfg.numSlabs ==>
            CleanedExactly(s, Exec(cfg, s1, es), s.agents[t].handle.index, i))
  {
    ReachableInv(cfg, s);
    CallStarts(cfg, s, t);
    var w := s.agents[t].handle.index;
    var s1 := Apply(cfg, s, t, CallClean);
    SizesHere(cfg, s1, t);
    hide Reachable, Inv, Apply, CleanedExactly;
    es := AloneEnds(cfg, s1, t);
    forall i: nat | i < cfg.numSlabs ensures CleanedExactly(s, Exec(cfg, s1, es), w, i) {
      CleanAloneIsExact(cfg, s1, es, t, w, i);
      SameStart(s, s1, Exec(cfg, s1, es), w, i);
    }
  }

  lemma SameStart(s: State, s1: State, s': State, w: nat, i: nat)
    requires s1.local == s.local && s1.slabs == s.slabs && CleanedExactly(s1, s', w, i)
    ensures CleanedExactly(s, s', w, i)
  {
  }
}
