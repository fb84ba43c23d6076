/**
 * One whole call of `clean_remote_free_lists`, under any interleaving with all other handles: it visits each slab
 * its worker listed at entry exactly once, although the visit may move or give away the slab, and what it finds
 * on their remote lists is freed.
 */
module Cleaning {
  import opened Base
  import opened SizeClasses
  import opened Address
  import opened Allocator
  import opened AllocatorInv
  import opened AllocatorRuns
  import opened AllocatorProjection
  import opened AllocatorOwners
  import opened AllocatorAccounts
  import Pool = GlobalFreeList
  import Lists = LocalLists
  import Slab

  // ----- the moves of a cleaning call

  /** The walk of a handle that is inside a cleaning call. */
  function WalkOf(pc: Pc): Option<Walk> {
    match pc
    case CleanLine(_, walk) => Some(walk)
    case CleanIter(_, _, walk) => Some(walk)
    case CleanSwap(_, _, _, _, walk) => Some(walk)
    case CleanDrain(d) => Some(d.walk)
    case CleanFree(d) => Some(d.walk)
    case Giving(_, after) => if after.Resume? then Some(after.drain.walk) else None
    case _ => None
  }

  /** One step of a cleaning call, seen in the program counter. */
  ghost predicate Moves(pc: Pc, pc': Pc) {
    match pc
    case CleanLine(line, walk) =>
      if line >= LINES then pc' == Idle
      else pc'.CleanIter? && pc'.line == line && pc'.walk.entry == walk.entry && pc'.walk.seen == walk.seen
    case CleanIter(line, cursor, walk) =>
      if cursor == NULL_U32 then pc' == CleanLine(line + 1, walk)
      else pc'.CleanSwap? && pc'.line == line && pc'.slab == cursor
           && pc'.walk.entry == walk.entry && pc'.walk.seen == walk.seen + [cursor]
           && pc'.walk.todo == (if walk.todo == [] then [] else walk.todo[1..])
    case CleanSwap(line, next, i, c, walk) => pc' == CleanDrain(Drain(line, next, i, c, 0, walk))
    case CleanDrain(d) => pc' == CleanIter(d.line, d.next, d.walk) || pc' == CleanFree(d)
    case CleanFree(d) =>
      var e := d.(freed := d.freed + 1);
      pc' == CleanDrain(e) || pc' == Giving(d.slab, Resume(e))
    case Giving(i, after) => pc' == pc || (after.Resume? && pc' == CleanDrain(after.drain))
    case _ => true
  }

  lemma FreeMoves(cfg: Config, s: State, t: nat, d: Drain)
    requires Sized(cfg, s) && t < |s.agents| && s.agents[t].pc == CleanFree(d) && d.slab < cfg.numSlabs && s.agents[t].handle.Worker?
    ensures var n := DrainFree(cfg, s, t, s.agents[t].handle.index, d);
            t < |n.agents| && (n.agents[t].pc == Panicked || Moves(CleanFree(d), n.agents[t].pc))
  {
    hide CanSwitch, Switch, Lists.CanRemove, Lists.RemoveFrom, Slab.LocalPush, OutcomeOf;
  }

  lemma GiveMoves(cfg: Config, s: State, t: nat, i: nat, after: After)
    requires Sized(cfg, s) && t < |s.agents| && s.agents[t].pc == Giving(i, after) && after.Resume?
    ensures var n := Give(cfg, s, t, i, after);
            t < |n.agents| && (n.agents[t].pc == Panicked || Moves(Giving(i, after), n.agents[t].pc))
  {
    hide Pool.Advance, AfterEffect;
  }

  lemma WalkMoves(cfg: Config, s: State, t: nat, words: seq<nat>)
    requires Sized(cfg, s) && t < |s.agents| && cfg.slabSize > 0 && WalkOf(s.agents[t].pc).Some?
    ensures var n := Step(cfg, s, t, words);
            t < |n.agents| && (n.agents[t].pc == Panicked || Moves(s.agents[t].pc, n.agents[t].pc))
  {
    hide Refill, TakeSlot, LocalFree, DrainFree, Give, Take, Claim, Find, ChooseRoute, BeginRemote, RemoteStep, Size, Capacity;
    if PcInBounds(cfg, s.agents[t]) {
      match s.agents[t].pc
      case CleanFree(d) => FreeMoves(cfg, s, t, d);
      case Giving(i, after) => GiveMoves(cfg, s, t, i, after);
      case _ =>
    }
  }

  /** Every step of the cleaning handle is one of the call's moves. */
  lemma CleanerMoves(cfg: Config, s: State, t: nat, words: seq<nat>)
    requires Inv(cfg, s) && Fresh(s, t) && Enabled(cfg, s, t, Continue(words)) && WalkOf(s.agents[t].pc).Some?
    ensures t < |Apply(cfg, s, t, Continue(words)).agents|
    ensures Moves(s.agents[t].pc, Apply(cfg, s, t, Continue(words)).agents[t].pc)
  {
    InBounds(cfg, s, t);
    WalkMoves(cfg, s, t, words);
    hide Inv, Step, Moves, ValidConfig;
    StepKeepsInv(cfg, s, t, Continue(words));
    InBounds(cfg, Apply(cfg, s, t, Continue(words)), t);
  }

  /** A step of another handle, or a client's write, leaves a handle's program counter alone. */
  lemma OthersKeepPc(cfg: Config, s: State, u: nat, a: Action, t: nat)
    requires ValidConfig(cfg) && Enabled(cfg, s, u, a) && t < |s.agents| && (u != t || a.Write?)
    ensures t < |Apply(cfg, s, u, a).agents| && Apply(cfg, s, u, a).agents[t] == s.agents[t]
  {
    SlabSizeBound(cfg.slabSize);
    hide ValidConfig, Step, SizeClassIndex;
    if a.Continue? { StepKeepsOthers(cfg, s, u, a.words); }
    if a.CallAllocate? { LeastClass(a.size); }
  }

  ghost predicate OthersSame(s: State, s': State, u: nat) {
    && |s'.agents| == |s.agents|
    && forall t: nat {:trigger s'.agents[t]} :: t < |s.agents| && t != u ==> s'.agents[t] == s.agents[t]
  }

  lemma AllocKeepsOthers(cfg: Config, s: State, u: nat, w: nat, c: nat, i: nat, words: seq<nat>)
    requires Sized(cfg, s) && u < |s.agents| && w < cfg.numWorkers && c < NUM_SIZE_CLASSES && i < cfg.numSlabs
    ensures OthersSame(s, Refill(cfg, s, u, w, c, i, words), u)
    ensures OthersSame(s, TakeSlot(cfg, s, u, w, c, i), u)
  {
    hide CanSwitch, Switch, Lists.CanPush, Lists.PushTo, Size, Capacity, BlockOffset, Slab.Take, Slab.Reset;
  }

  lemma PushKeepsOthers(cfg: Config, s: State, u: nat, w: nat, c: nat, i: nat, pc: Pc, after: After)
    requires Sized(cfg, s) && u < |s.agents| && i < cfg.numSlabs
    requires s.slabs[i].ops[u].Holding? || s.slabs[i].ops[u].DrainHold?
    requires s.slabs[i].ops[u].slot < |s.slabs[i].loc|
    ensures OthersSame(s, PushFree(cfg, s, u, w, c, i, pc, after), u)
  {
    hide CanSwitch, Switch, Lists.CanRemove, Lists.RemoveFrom, Slab.LocalPush, OutcomeOf;
  }

  lemma FreeKeepsOthers(cfg: Config, s: State, u: nat, w: nat)
    requires Sized(cfg, s) && u < |s.agents| && w < cfg.numWorkers
    ensures s.agents[u].pc.FreeLocal? && s.agents[u].pc.slab < cfg.numSlabs ==>
              OthersSame(s, LocalFree(cfg, s, u, w, s.agents[u].pc.slab, s.agents[u].pc.slot), u)
    ensures s.agents[u].pc.CleanFree? && s.agents[u].pc.drain.slab < cfg.numSlabs ==>
              OthersSame(s, DrainFree(cfg, s, u, w, s.agents[u].pc.drain), u)
  {
    hide PushFree, Size;
    match s.agents[u].pc
    case FreeLocal(i, k) =>
      if i < cfg.numSlabs {
        var x := s.slabs[i];
        if x.sizeIndex < NUM_SIZE_CLASSES && x.ops[u] == Slab.Holding(k) && k < |x.loc| {
          var b := s.bytes[w := Sub64(s.bytes[w], Size(x.sizeIndex))];
          PushKeepsOthers(cfg, s.(bytes := b), u, w, x.sizeIndex, i, Idle, Return);
        }
      }
    case CleanFree(d) =>
      if d.slab < cfg.numSlabs && s.slabs[d.slab].ops[u].DrainHold? && s.slabs[d.slab].ops[u].slot < |s.slabs[d.slab].loc| {
        var e := d.(freed := d.freed + 1);
        PushKeepsOthers(cfg, s, u, w, d.sizeIndex, d.slab, CleanDrain(e), Resume(e));
      }
    case _ =>
  }

  lemma StepKeepsOthers(cfg: Config, s: State, u: nat, words: seq<nat>)
    requires Sized(cfg, s) && u < |s.agents| && cfg.slabSize > 0
    ensures OthersSame(s, Step(cfg, s, u, words), u)
  {
    hide Refill, TakeSlot, LocalFree, DrainFree, Size, Capacity, FindSlab, FindSlot, Pool.Advance, AfterEffect;
    if PcInBounds(cfg, s.agents[u]) && NeedsWorker(s.agents[u].pc) {
      var w := s.agents[u].handle.index;
      match s.agents[u].pc
      case ResetStack(c, i) => AllocKeepsOthers(cfg, s, u, w, c, i, words);
      case AllocSlot(c, i) => AllocKeepsOthers(cfg, s, u, w, c, i, words);
      case FreeLocal(i, k) => FreeKeepsOthers(cfg, s, u, w);
      case CleanFree(d) => FreeKeepsOthers(cfg, s, u, w);
      case _ =>
    }
  }

  // ----- every listed slab is visited once

  /** Handle `t` is inside one and the same cleaning call in every state of the run. */
  ghost predicate InCall(cfg: Config, s: State, es: seq<Event>, t: nat)
    requires ValidConfig(cfg) && Valid(cfg, s, es)
    decreases |es|
  {
    && t < |s.agents| && WalkOf(s.agents[t].pc).Some?
    && (es == [] || InCall(cfg, Apply(cfg, s, es[0].tid, es[0].act), es[1..], t))
  }

  /** The event swaps out the remote list of slab `i`: the call's visit to that slab. */
  ghost predicate Visits(s: State, e: Event, t: nat, i: nat) {
    e.tid == t < |s.agents| && e.act.Continue? && s.agents[t].pc.CleanSwap? && s.agents[t].pc.slab == i
  }

  ghost function VisitCount(cfg: Config, s: State, es: seq<Event>, t: nat, i: nat): nat
    requires ValidConfig(cfg) && Valid(cfg, s, es)
    decreases |es|
  {
    if es == [] then 0
    else (if Visits(s, es[0], t, i) then 1 else 0) + VisitCount(cfg, Apply(cfg, s, es[0].tid, es[0].act), es[1..], t, i)
  }

  /** How often slab `i` was swapped so far: each slab seen, but for one the call is just about to swap. */
  function Swapped(pc: Pc, i: nat): int
    requires WalkOf(pc).Some?
  {
    var seen: int := multiset(WalkOf(pc).value.seen)[i];
    if pc.CleanSwap? && pc.slab == i then seen - 1 else seen
  }

  lemma MoveVisits(pc: Pc, pc': Pc, i: nat)
    requires WalkOf(pc).Some? && WalkOf(pc').Some? && Moves(pc, pc')
    ensures Swapped(pc', i) == Swapped(pc, i) + (if pc.CleanSwap? && pc.slab == i then 1 else 0)
    ensures WalkOf(pc').value.entry == WalkOf(pc).value.entry
  {
  }

  lemma VisitStep(cfg: Config, s: State, e: Event, t: nat, i: nat)
    requires Inv(cfg, s) && FreshStep(s, e.tid, e.act) && Enabled(cfg, s, e.tid, e.act)
    requires t < |s.agents| && WalkOf(s.agents[t].pc).Some?
    requires t < |Apply(cfg, s, e.tid, e.act).agents| && WalkOf(Apply(cfg, s, e.tid, e.act).agents[t].pc).Some?
    ensures var pc' := Apply(cfg, s, e.tid, e.act).agents[t].pc;
      && WalkOf(pc').value.entry == WalkOf(s.agents[t].pc).value.entry
      && Swapped(pc', i) == Swapped(s.agents[t].pc, i) + (if Visits(s, e, t, i) then 1 else 0)
  {
    if e.tid == t && e.act.Continue? {
      hide Inv, Apply, Enabled;
      CleanerMoves(cfg, s, t, e.act.words);
      MoveVisits(s.agents[t].pc, Apply(cfg, s, e.tid, e.act).agents[t].pc, i);
    } else {
      OnlyWrites(cfg, s, e, t);
      hide Inv, Apply, Enabled;
      OthersKeepPc(cfg, s, e.tid, e.act, t);
    }
  }

  /** Inside a call the only other event of the same handle is its client's write. */
  lemma OnlyWrites(cfg: Config, s: State, e: Event, t: nat)
    requires Enabled(cfg, s, e.tid, e.act) && t < |s.agents| && WalkOf(s.agents[t].pc).Some? && (e.tid != t || !e.act.Continue?)
    ensures e.tid != t || e.act.Write?
  {
  }

  lemma {:induction false} VisitsTotal(cfg: Config, s: State, es: seq<Event>, t: nat, i: nat)
    requires ValidConfig(cfg) && Inv(cfg, s) && Valid(cfg, s, es) && FreshRun(cfg, s, es) && InCall(cfg, s, es, t)
    ensures t < |Exec(cfg, s, es).agents| && WalkOf(Exec(cfg, s, es).agents[t].pc).Some?
    ensures WalkOf(Exec(cfg, s, es).agents[t].pc).value.entry == WalkOf(s.agents[t].pc).value.entry
    ensures Swapped(Exec(cfg, s, es).agents[t].pc, i) == Swapped(s.agents[t].pc, i) + VisitCount(cfg, s, es, t, i)
    decreases |es|
  {
    hide Inv, Apply, Enabled, Swapped, Visits;
    if es != [] {
      var s1 := Apply(cfg, s, es[0].tid, es[0].act);
      assert InCall(cfg, s1, es[1..], t);
      VisitStep(cfg, s, es[0], t, i);
      StepKeepsInv(cfg, s, es[0].tid, es[0].act);
      VisitsTotal(cfg, s1, es[1..], t, i);
    }
  }

  lemma CountNoDup(xs: seq<nat>, i: nat)
    requires NoDup(xs)
    ensures multiset(xs)[i] == if i in xs then 1 else 0
  {
    if i in xs {
      var p :| 0 <= p < |xs| && xs[p] == i;
      assert xs == xs[..p] + [xs[p]] + xs[p + 1..];
      assert i !in xs[..p] && i !in xs[p + 1..];
      assert multiset(xs) == multiset(xs[..p]) + multiset{i} + multiset(xs[p + 1..]);
    }
  }

  /** Slab `i` is on one of the first `n` lists. */
  ghost predicate InFirst(entry: seq<seq<nat>>, n: nat, i: nat)
    requires n <= |entry|
  {
    exists m: nat :: m < n && i in entry[m]
  }

  /** The lists of one worker share no slab, so their concatenation holds each listed slab once. */
  lemma {:induction false} FlatCount(l: Lists.State, w: nat, walk: Walk, n: nat, i: nat)
    requires Lists.Inv(l) && Ahead(l, w, 0, walk) && n <= LINES
    ensures multiset(Flat(walk.entry, n))[i] == if InFirst(walk.entry, n, i) then 1 else 0
  {
    if n > 0 {
      FlatCount(l, w, walk, n - 1, i);
      var k := LineKey(w, n - 1);
      assert walk.entry[n - 1] == l.lists[k];
      Lists.ReadHead(l, k);
      CountNoDup(l.lists[k], i);
      assert multiset(Flat(walk.entry, n)) == multiset(Flat(walk.entry, n - 1)) + multiset(walk.entry[n - 1]);
      forall m: nat | m < n - 1 && i in walk.entry[m] ensures i !in l.lists[k] {
        assert walk.entry[m] == l.lists[LineKey(w, m)];
        assert LineKey(w, m) != k;
      }
      assert InFirst(walk.entry, n, i) <==> InFirst(walk.entry, n - 1, i) || i in walk.entry[n - 1];
    }
  }

  /** The call of handle `t` has gone through all its lists and is about to return. */
  ghost predicate AtEnd(s: State, t: nat) {
    t < |s.agents| && s.agents[t].pc.CleanLine? && s.agents[t].pc.line >= LINES
  }

  lemma SeenAtEnd(cfg: Config, s: State, t: nat)
    requires Inv(cfg, s) && AtEnd(s, t)
    ensures |s.agents[t].pc.walk.entry| == LINES && s.agents[t].pc.walk.seen == Flat(s.agents[t].pc.walk.entry, LINES)
  {
    hide Pool.Inv, Lists.Inv, SlabOk, WorkerOk;
    assert AgentOk(cfg, s, t);
  }

  lemma KeyOfLine(cfg: Config, s: State, w: nat, walk: Walk, i: nat)
    requires Sized(cfg, s) && Ahead(s.local, w, 0, walk)
    ensures InFirst(walk.entry, LINES, i) <==> HeldBy(s, w, i)
  {
    if InFirst(walk.entry, LINES, i) {
      var m: nat :| m < LINES && i in walk.entry[m];
      assert i in s.local.lists[LineKey(w, m)];
    }
    if HeldBy(s, w, i) {
      var k :| k in s.local.lists && k.worker == w && i in s.local.lists[k];
      var m := 2 * k.sizeIndex + (if k.full then 1 else 0);
      assert LineKey(w, m) == k;
      assert i in walk.entry[m];
    }
  }

  /** The state in which a cleaning call starts. */
  ghost predicate Started(cfg: Config, s: State, t: nat, w: nat) {
    && Inv(cfg, s) && t < |s.agents|
    && w < cfg.numWorkers && s.agents[t] == Agent(Worker(w), CleanLine(0, Walk(EntryLists(cfg, s, w), [], [])))
  }

  lemma CallStarts(cfg: Config, s: State, t: nat)
    requires Inv(cfg, s) && Enabled(cfg, s, t, CallClean)
    ensures Started(cfg, Apply(cfg, s, t, CallClean), t, s.agents[t].handle.index)
    ensures Apply(cfg, s, t, CallClean).local == s.local && Apply(cfg, s, t, CallClean).slabs == s.slabs
  {
    StepKeepsInv(cfg, s, t, CallClean);
    hide Inv;
  }

  /**
   * Over a whole cleaning call, interleaved with anything, the handle swaps out the remote list of each slab its
   * worker listed at entry exactly once, and of no other slab.
   */
  lemma VisitsEachOnce(cfg: Config, s: State, es: seq<Event>, t: nat, w: nat, i: nat)
    requires ValidConfig(cfg) && Started(cfg, s, t, w) && Valid(cfg, s, es) && FreshRun(cfg, s, es) && InCall(cfg, s, es, t)
    requires AtEnd(Exec(cfg, s, es), t)
    ensures VisitCount(cfg, s, es, t, i) == if HeldBy(s, w, i) then 1 else 0
  {
    var walk := s.agents[t].pc.walk;
    EntryAhead(cfg, s, t, w);
    VisitsTotal(cfg, s, es, t, i);
    RunKeepsInv(cfg, s, es);
    SeenAtEnd(cfg, Exec(cfg, s, es), t);
    FlatCount(s.local, w, walk, LINES, i);
    KeyOfLine(cfg, s, w, walk, i);
    hide Inv, Valid, Exec, FreshRun, InCall;
  }

  lemma EntryAhead(cfg: Config, s: State, t: nat, w: nat)
    requires Started(cfg, s, t, w)
    ensures Sized(cfg, s) && Lists.Inv(s.local) && s.agents[t].pc.CleanLine? && Ahead(s.local, w, 0, s.agents[t].pc.walk)
  {
    hide Pool.Inv, Lists.Inv, SlabOk, WorkerOk;
    assert AgentOk(cfg, s, t);
  }
}
