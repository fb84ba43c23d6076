/**
 * Lock-free progress inside the allocator, over any run and with no hypothesis on it: a handle's failed exchanges on
 * the global head, or on a slab's remote head, are bounded by the other handles' changes of that head.
 */
module AllocatorRetries {
  import opened Base
  import opened SizeClasses
  import opened Address
  import opened Allocator
  import opened AllocatorRuns
  import Cleaning
  import Pool = GlobalFreeList
  import PoolRuns = GlobalFreeListRuns
  import Lists = LocalLists
  import Slab

  ghost function Ind(b: bool): nat { if b then 1 else 0 }

  // ----- the global head

  /** What one step of handle `u` does to the global list, whatever state it is in. */
  ghost predicate PoolMove(p: Pool.State, p': Pool.State, u: nat) {
    && u < |p.ops|
    && (p' == p || p' == Pool.Advance(p, u)
        || (|p'.ops| == |p.ops| && p' == p.At(u, p'.ops[u]) && !PoolRuns.Loaded(p'.ops[u])))
  }

  lemma PushFreeMoves(cfg: Config, s: State, t: nat, w: nat, c: nat, i: nat, pc: Pc, after: After)
    requires Sized(cfg, s) && t < |s.agents| && i < cfg.numSlabs
    requires s.slabs[i].ops[t].Holding? || s.slabs[i].ops[t].DrainHold?
    requires s.slabs[i].ops[t].slot < |s.slabs[i].loc|
    ensures PoolMove(s.pool, PushFree(cfg, s, t, w, c, i, pc, after).pool, t)
  {
    hide CanSwitch, Switch, Lists.CanRemove, Lists.RemoveFrom, Slab.LocalPush, OutcomeOf, Pool.Advance;
  }

  lemma FreeMoves(cfg: Config, s: State, t: nat, w: nat)
    requires Sized(cfg, s) && t < |s.agents| && w < cfg.numWorkers
    ensures s.agents[t].pc.FreeLocal? && s.agents[t].pc.slab < cfg.numSlabs ==>
              PoolMove(s.pool, LocalFree(cfg, s, t, w, s.agents[t].pc.slab, s.agents[t].pc.slot).pool, t)
    ensures s.agents[t].pc.CleanFree? && s.agents[t].pc.drain.slab < cfg.numSlabs ==>
              PoolMove(s.pool, DrainFree(cfg, s, t, w, s.agents[t].pc.drain).pool, t)
  {
    hide PushFree, Size, PoolMove;
    SamePool(s.pool, t);
    match s.agents[t].pc
    case FreeLocal(i, k) =>
      if i < cfg.numSlabs {
        var x := s.slabs[i];
        if x.sizeIndex < NUM_SIZE_CLASSES && x.ops[t] == Slab.Holding(k) && k < |x.loc| {
          var b := s.bytes[w := Sub64(s.bytes[w], Size(x.sizeIndex))];
          PushFreeMoves(cfg, s.(bytes := b), t, w, x.sizeIndex, i, Idle, Return);
        }
      }
    case CleanFree(d) =>
      if d.slab < cfg.numSlabs && s.slabs[d.slab].ops[t].DrainHold? && s.slabs[d.slab].ops[t].slot < |s.slabs[d.slab].loc| {
        var e := d.(freed := d.freed + 1);
        PushFreeMoves(cfg, s, t, w, d.sizeIndex, d.slab, CleanDrain(e), Resume(e));
      }
    case _ =>
  }

  lemma SamePool(p: Pool.State, t: nat)
    requires t < |p.ops|
    ensures PoolMove(p, p, t)
  {
  }

  lemma StepMoves(cfg: Config, s: State, t: nat, words: seq<nat>)
    requires Sized(cfg, s) && t < |s.agents| && cfg.slabSize > 0
    ensures PoolMove(s.pool, Step(cfg, s, t, words).pool, t)
  {
    hide LocalFree, DrainFree, Size, Capacity, FindSlab, FindSlot, Pool.Advance, AfterEffect, CanSwitch, Switch, BlockOffset,
      Lists.CanPush, Lists.PushTo, Slab.Take, Slab.Reset;
    SamePool(s.pool, t);
    if PcInBounds(cfg, s.agents[t]) && (s.agents[t].pc.FreeLocal? || s.agents[t].pc.CleanFree?) {
      FreeMoves(cfg, s, t, s.agents[t].handle.index);
    }
  }

  lemma ApplyMoves(cfg: Config, s: State, t: nat, a: Action)
    requires ValidConfig(cfg) && Enabled(cfg, s, t, a)
    ensures PoolMove(s.pool, Apply(cfg, s, t, a).pool, t)
  {
    SlabSizeBound(cfg.slabSize);
    hide ValidConfig, Step, SizeClassIndex, Pool.Advance;
    SamePool(s.pool, t);
    if a.Continue? { StepMoves(cfg, s, t, a.words); }
    if a.CallAllocate? { LeastClass(a.size); }
  }

  /** The event is a failing exchange of handle `t` on the global head. */
  ghost predicate FailsGlobally(cfg: Config, s: State, e: Event, t: nat)
    requires ValidConfig(cfg) && Enabled(cfg, s, e.tid, e.act)
  {
    && e.tid == t && t < |s.pool.ops| && PoolRuns.AtSwap(s.pool.ops[t]) && s.pool.ops[t].seen != s.pool.head
    && Apply(cfg, s, t, e.act).pool == Pool.Advance(s.pool, t)
  }

  /** The event is another handle's change of the global head. */
  ghost predicate OtherMovesGlobal(cfg: Config, s: State, e: Event, t: nat)
    requires ValidConfig(cfg) && Enabled(cfg, s, e.tid, e.act)
  {
    e.tid != t && Apply(cfg, s, e.tid, e.act).pool.head != s.pool.head
  }

  /** The head has moved since handle `t` loaded it. */
  ghost predicate StaleGlobal(p: Pool.State, t: nat) {
    t < |p.ops| && PoolRuns.Loaded(p.ops[t]) && p.ops[t].seen != p.head
  }

  /** A change of the head is a successful exchange of the handle that makes it. */
  lemma OnlyExchangesMove(cfg: Config, s: State, e: Event)
    requires ValidConfig(cfg) && Enabled(cfg, s, e.tid, e.act) && Apply(cfg, s, e.tid, e.act).pool.head != s.pool.head
    ensures e.tid < |s.pool.ops| && PoolRuns.AtSwap(s.pool.ops[e.tid]) && s.pool.ops[e.tid].seen == s.pool.head
  {
    ApplyMoves(cfg, s, e.tid, e.act);
    hide Apply, Enabled;
  }

  lemma StaleStep(p: Pool.State, p': Pool.State, u: nat, t: nat, fails: bool)
    requires PoolMove(p, p', u) && t < |p.ops|
    requires fails ==> u == t && PoolRuns.AtSwap(p.ops[t]) && p.ops[t].seen != p.head && p' == Pool.Advance(p, t)
    ensures |p'.ops| == |p.ops|
    ensures Ind(fails) + Ind(StaleGlobal(p', t)) <= Ind(u != t && p'.head != p.head) + Ind(StaleGlobal(p, t))
  {
  }

  ghost function GlobalFailures(cfg: Config, s: State, es: seq<Event>, t: nat): nat
    requires ValidConfig(cfg) && Valid(cfg, s, es)
    decreases |es|
  {
    if es == [] then 0
    else Ind(FailsGlobally(cfg, s, es[0], t)) + GlobalFailures(cfg, Apply(cfg, s, es[0].tid, es[0].act), es[1..], t)
  }

  ghost function OthersGlobalMoves(cfg: Config, s: State, es: seq<Event>, t: nat): nat
    requires ValidConfig(cfg) && Valid(cfg, s, es)
    decreases |es|
  {
    if es == [] then 0
    else Ind(OtherMovesGlobal(cfg, s, es[0], t)) + OthersGlobalMoves(cfg, Apply(cfg, s, es[0].tid, es[0].act), es[1..], t)
  }

  lemma {:induction false} GlobalFailuresBounded(cfg: Config, s: State, es: seq<Event>, t: nat)
    requires ValidConfig(cfg) && Valid(cfg, s, es) && t < |s.pool.ops|
    ensures GlobalFailures(cfg, s, es, t) <= OthersGlobalMoves(cfg, s, es, t) + Ind(StaleGlobal(s.pool, t))
    decreases |es|
  {
    if es != [] {
      ApplyMoves(cfg, s, es[0].tid, es[0].act);
      hide Apply, Enabled, StaleGlobal, PoolMove;
      var s1 := Apply(cfg, s, es[0].tid, es[0].act);
      StaleStep(s.pool, s1.pool, es[0].tid, t, FailsGlobally(cfg, s, es[0], t));
      GlobalFailuresBounded(cfg, s1, es[1..], t);
    }
  }

  /**
   * A `push` or `pop` on the global list that has not begun its current attempt fails, over any run whatsoever, at most
   * as often as the other handles' exchanges on the head succeed meanwhile.
   */
  lemma GlobalRetriesBounded(cfg: Config, s: State, es: seq<Event>, t: nat)
    requires ValidConfig(cfg) && Valid(cfg, s, es) && t < |s.pool.ops| && !PoolRuns.Loaded(s.pool.ops[t])
    ensures GlobalFailures(cfg, s, es, t) <= OthersGlobalMoves(cfg, s, es, t)
  {
    GlobalFailuresBounded(cfg, s, es, t);
  }

  // ----- a slab's remote head

  /** No slab's record of handle `t` moves. */
  ghost predicate SameOps(s: State, s': State, t: nat)  {
    && |s'.slabs| == |s.slabs|
    && forall i: nat {:trigger s'.slabs[i]} :: i < |s.slabs| ==>
         |s'.slabs[i].ops| == |s.slabs[i].ops| && (t < |s.slabs[i].ops| ==> s'.slabs[i].ops[t] == s.slabs[i].ops[t])
  }

  lemma PushFreeOps(cfg: Config, s: State, u: nat, w: nat, c: nat, i: nat, pc: Pc, after: After, t: nat)
    requires Sized(cfg, s) && u < |s.agents| && i < cfg.numSlabs && t != u
    requires s.slabs[i].ops[u].Holding? || s.slabs[i].ops[u].DrainHold?
    requires s.slabs[i].ops[u].slot < |s.slabs[i].loc|
    ensures SameOps(s, PushFree(cfg, s, u, w, c, i, pc, after), t)
  {
    hide CanSwitch, Switch, Lists.CanRemove, Lists.RemoveFrom, OutcomeOf;
  }

  lemma FreeOps(cfg: Config, s: State, u: nat, w: nat, t: nat)
    requires Sized(cfg, s) && u < |s.agents| && w < cfg.numWorkers && t != u
    ensures s.agents[u].pc.FreeLocal? && s.agents[u].pc.slab < cfg.numSlabs ==>
              SameOps(s, LocalFree(cfg, s, u, w, s.agents[u].pc.slab, s.agents[u].pc.slot), t)
    ensures s.agents[u].pc.CleanFree? && s.agents[u].pc.drain.slab < cfg.numSlabs ==>
              SameOps(s, DrainFree(cfg, s, u, w, s.agents[u].pc.drain), t)
  {
    hide PushFree, Size;
    match s.agents[u].pc
    case FreeLocal(i, k) =>
      if i < cfg.numSlabs {
        var x := s.slabs[i];
        if x.sizeIndex < NUM_SIZE_CLASSES && x.ops[u] == Slab.Holding(k) && k < |x.loc| {
          var b := s.bytes[w := Sub64(s.bytes[w], Size(x.sizeIndex))];
          PushFreeOps(cfg, s.(bytes := b), u, w, x.sizeIndex, i, Idle, Return, t);
        }
      }
    case CleanFree(d) =>
      if d.slab < cfg.numSlabs && s.slabs[d.slab].ops[u].DrainHold? && s.slabs[d.slab].ops[u].slot < |s.slabs[d.slab].loc| {
        var e := d.(freed := d.freed + 1);
        PushFreeOps(cfg, s, u, w, d.sizeIndex, d.slab, CleanDrain(e), Resume(e), t);
      }
    case _ =>
  }

  lemma SlotOps(cfg: Config, s: State, u: nat, w: nat, c: nat, i: nat, words: seq<nat>, t: nat)
    requires Sized(cfg, s) && u < |s.agents| && w < cfg.numWorkers && c < NUM_SIZE_CLASSES && i < cfg.numSlabs
    ensures SameOps(s, Refill(cfg, s, u, w, c, i, words), t)
    ensures SameOps(s, TakeSlot(cfg, s, u, w, c, i), t)
  {
    hide CanSwitch, Switch, Lists.CanPush, Lists.PushTo, Size, Capacity, BlockOffset;
  }

  lemma StepOps(cfg: Config, s: State, u: nat, words: seq<nat>, t: nat)
    requires Sized(cfg, s) && u < |s.agents| && cfg.slabSize > 0 && t != u
    ensures SameOps(s, Step(cfg, s, u, words), t)
  {
    hide Refill, TakeSlot, LocalFree, DrainFree, Size, Capacity, FindSlab, FindSlot, Pool.Advance, AfterEffect;
    if PcInBounds(cfg, s.agents[u]) && NeedsWorker(s.agents[u].pc) {
      var w := s.agents[u].handle.index;
      match s.agents[u].pc
      case ResetStack(c, i) => SlotOps(cfg, s, u, w, c, i, words, t);
      case AllocSlot(c, i) => SlotOps(cfg, s, u, w, c, i, words, t);
      case FreeLocal(i, k) => FreeOps(cfg, s, u, w, t);
      case CleanFree(d) => FreeOps(cfg, s, u, w, t);
      case _ =>
    }
  }

  lemma ApplyOps(cfg: Config, s: State, u: nat, a: Action, t: nat)
    requires ValidConfig(cfg) && Enabled(cfg, s, u, a) && t != u
    ensures SameOps(s, Apply(cfg, s, u, a), t)
  {
    SlabSizeBound(cfg.slabSize);
    hide ValidConfig, Step, SizeClassIndex;
    if a.Continue? { StepOps(cfg, s, u, a.words, t); }
    if a.CallAllocate? { LeastClass(a.size); }
  }

  /** Handle `t` is in a remote push on slab `i`. */
  predicate AtRemote(s: State, t: nat, i: nat) {
    && t < |s.agents| && s.agents[t].pc.RemotePush? && s.agents[t].pc.slab == i
    && i < |s.slabs| && t < |s.slabs[i].ops|
  }

  /** The event is a failing exchange of handle `t` on the remote head of slab `i`. */
  ghost predicate FailsRemotely(cfg: Config, s: State, e: Event, t: nat, i: nat)
    requires ValidConfig(cfg) && Enabled(cfg, s, e.tid, e.act)
  {
    && e.tid == t && e.act.Continue? && AtRemote(s, t, i) && s.slabs[i].ops[t].PushSwap? && s.slabs[i].ops[t].seen != s.slabs[i].head
    && AtRemote(Apply(cfg, s, t, e.act), t, i)
  }

  /** The event is another handle's change of that head. */
  ghost predicate OtherMovesRemote(cfg: Config, s: State, e: Event, t: nat, i: nat)
    requires ValidConfig(cfg) && Enabled(cfg, s, e.tid, e.act)
  {
    && e.tid != t && i < |s.slabs| && i < |Apply(cfg, s, e.tid, e.act).slabs|
    && Apply(cfg, s, e.tid, e.act).slabs[i].head != s.slabs[i].head
  }

  /** The head has moved since handle `t` loaded it. */
  ghost predicate StaleRemote(s: State, t: nat, i: nat) {
    && AtRemote(s, t, i) && (s.slabs[i].ops[t].PushLink? || s.slabs[i].ops[t].PushSwap?)
    && s.slabs[i].ops[t].seen != s.slabs[i].head
  }

  lemma OtherRemoteStep(cfg: Config, s: State, e: Event, t: nat, i: nat)
    requires ValidConfig(cfg) && Enabled(cfg, s, e.tid, e.act) && e.tid != t
    ensures Ind(StaleRemote(Apply(cfg, s, e.tid, e.act), t, i)) <= Ind(OtherMovesRemote(cfg, s, e, t, i)) + Ind(StaleRemote(s, t, i))
  {
    var r := Apply(cfg, s, e.tid, e.act);
    ApplyOps(cfg, s, e.tid, e.act, t);
    if t < |s.agents| { Cleaning.OthersKeepPc(cfg, s, e.tid, e.act, t); } else { NoMoreHandles(cfg, s, e.tid, e.act); }
    hide Apply, Enabled, ValidConfig;
    if StaleRemote(r, t, i) { assert r.slabs[i].ops[t] == s.slabs[i].ops[t]; }
  }

  lemma NoMoreHandles(cfg: Config, s: State, u: nat, a: Action)
    requires ValidConfig(cfg) && Enabled(cfg, s, u, a)
    ensures |Apply(cfg, s, u, a).agents| == |s.agents|
  {
    SlabSizeBound(cfg.slabSize);
    hide ValidConfig, Step, SizeClassIndex;
    if a.Continue? { Cleaning.StepKeepsOthers(cfg, s, u, a.words); }
    if a.CallAllocate? { LeastClass(a.size); }
  }

  lemma OwnRemoteStep(cfg: Config, s: State, t: nat, a: Action, i: nat)
    requires ValidConfig(cfg) && Enabled(cfg, s, t, a)
    ensures Ind(FailsRemotely(cfg, s, Event(t, a), t, i)) + Ind(StaleRemote(Apply(cfg, s, t, a), t, i)) <= Ind(StaleRemote(s, t, i))
  {
    SlabSizeBound(cfg.slabSize);
    if a.Continue? {
      OwnStep(cfg, s, t, a.words, i);
    } else {
      hide ValidConfig, Step, SizeClassIndex;
      if a.CallAllocate? { LeastClass(a.size); }
    }
  }

  lemma OwnStep(cfg: Config, s: State, t: nat, words: seq<nat>, i: nat)
    requires ValidConfig(cfg) && Enabled(cfg, s, t, Continue(words)) && cfg.slabSize > 0
    ensures Ind(FailsRemotely(cfg, s, Event(t, Continue(words)), t, i)) + Ind(StaleRemote(Apply(cfg, s, t, Continue(words)), t, i))
            <= Ind(StaleRemote(s, t, i))
  {
    hide ValidConfig, Size, Capacity, FindSlab, FindSlot, Pool.Advance, AfterEffect, Refill, TakeSlot, DrainStep, LocalFree, DrainFree;
    var r := Step(cfg, s, t, words);
    PcAfter(cfg, s, t, words);
  }

  /** A handle is in a remote push only after a load still to come, or because it was in it before. */
  lemma PcAfter(cfg: Config, s: State, t: nat, words: seq<nat>)
    requires Sized(cfg, s) && t < |s.agents| && cfg.slabSize > 0
    ensures var r := Step(cfg, s, t, words);
      t < |r.agents| && (r.agents[t].pc.RemotePush? ==> s.agents[t].pc.FreeRemote? || s.agents[t].pc.RemotePush?)
  {
    hide Size, Capacity, FindSlab, FindSlot, Pool.Advance, AfterEffect, CanSwitch, Switch, BlockOffset, Lists.CanPush, Lists.PushTo,
      Slab.Take, Slab.Reset, PushFree;
    if PcInBounds(cfg, s.agents[t]) && (s.agents[t].pc.FreeLocal? || s.agents[t].pc.CleanFree?) { FreePc(cfg, s, t, s.agents[t].handle.index); }
  }

  lemma FreePc(cfg: Config, s: State, t: nat, w: nat)
    requires Sized(cfg, s) && t < |s.agents| && w < cfg.numWorkers
    ensures s.agents[t].pc.FreeLocal? && s.agents[t].pc.slab < cfg.numSlabs ==>
              var r := LocalFree(cfg, s, t, w, s.agents[t].pc.slab, s.agents[t].pc.slot); t < |r.agents| && !r.agents[t].pc.RemotePush?
    ensures s.agents[t].pc.CleanFree? && s.agents[t].pc.drain.slab < cfg.numSlabs ==>
              var r := DrainFree(cfg, s, t, w, s.agents[t].pc.drain); t < |r.agents| && !r.agents[t].pc.RemotePush?
  {
    hide CanSwitch, Switch, Lists.CanRemove, Lists.RemoveFrom, Slab.LocalPush, OutcomeOf, Size;
  }

  ghost function RemoteFailures(cfg: Config, s: State, es: seq<Event>, t: nat, i: nat): nat
    requires ValidConfig(cfg) && Valid(cfg, s, es)
    decreases |es|
  {
    if es == [] then 0
    else Ind(FailsRemotely(cfg, s, es[0], t, i)) + RemoteFailures(cfg, Apply(cfg, s, es[0].tid, es[0].act), es[1..], t, i)
  }

  ghost function OthersRemoteMoves(cfg: Config, s: State, es: seq<Event>, t: nat, i: nat): nat
    requires ValidConfig(cfg) && Valid(cfg, s, es)
    decreases |es|
  {
    if es == [] then 0
    else Ind(OtherMovesRemote(cfg, s, es[0], t, i)) + OthersRemoteMoves(cfg, Apply(cfg, s, es[0].tid, es[0].act), es[1..], t, i)
  }

  lemma {:induction false} RemoteFailuresBounded(cfg: Config, s: State, es: seq<Event>, t: nat, i: nat)
    requires ValidConfig(cfg) && Valid(cfg, s, es)
    ensures RemoteFailures(cfg, s, es, t, i) <= OthersRemoteMoves(cfg, s, es, t, i) + Ind(StaleRemote(s, t, i))
    decreases |es|
  {
    hide Apply, Enabled, StaleRemote, FailsRemotely, OtherMovesRemote;
    if es != [] {
      RemoteStaleStep(cfg, s, es[0], t, i);
      RemoteFailuresBounded(cfg, Apply(cfg, s, es[0].tid, es[0].act), es[1..], t, i);
    }
  }

  lemma RemoteStaleStep(cfg: Config, s: State, e: Event, t: nat, i: nat)
    requires ValidConfig(cfg) && Enabled(cfg, s, e.tid, e.act)
    ensures Ind(FailsRemotely(cfg, s, e, t, i)) + Ind(StaleRemote(Apply(cfg, s, e.tid, e.act), t, i))
            <= Ind(OtherMovesRemote(cfg, s, e, t, i)) + Ind(StaleRemote(s, t, i))
  {
    hide Apply, Enabled, StaleRemote;
    if e.tid == t { OwnRemoteStep(cfg, s, t, e.act, i); } else { OtherRemoteStep(cfg, s, e, t, i); }
  }

  /**
   * A push on a slab's remote list that has not begun its current attempt fails, over any run whatsoever, at most as
   * often as other handles change that slab's remote head meanwhile.
   */
  lemma RemoteRetriesBounded(cfg: Config, s: State, es: seq<Event>, t: nat, i: nat)
    requires ValidConfig(cfg) && Valid(cfg, s, es) && !StaleRemote(s, t, i)
    ensures RemoteFailures(cfg, s, es, t, i) <= OthersRemoteMoves(cfg, s, es, t, i)
  {
    RemoteFailuresBounded(cfg, s, es, t, i);
  }
}
