/**
 * Whole runs of one slab under any interleaving: slot conservation, linearizability of the untagged
 * remote free list, and the bound on its retries.
 */
module SlabRuns {
  import opened Base
  import opened Slab

  datatype Action =
    | Allocate(offset: nat)
    | Free(slot: nat)
    | Route
    | Push
    | PushLocal
    | Swap
    | Yield
    | Finish
    | Write(slot: nat, v: nat)
    | Assign(worker: nat, sizeIndex: nat)
    | Clear
    | Recut(capacity: nat, words: seq<nat>)

  datatype Event = Event(tid: nat, act: Action)

  ghost predicate Enabled(s: State, t: nat, a: Action) {
    && t < |s.ops|
    && match a
       case Allocate(_) => s.free != []
       case Free(k) => s.ops[t] == Idle && k < |s.loc| && s.loc[k].Live?
       case Route => s.ops[t].Holding?
       case Push => Pushing(s.ops[t])
       case PushLocal => s.ops[t].Holding? || s.ops[t].DrainHold?
       case Swap => s.ops[t] == Idle
       case Yield => s.ops[t].Draining? && s.ops[t].cursor != NULL_U16
       case Finish => s.ops[t].Draining? && s.ops[t].cursor == NULL_U16
       case Write(k, _) => k < |s.loc| && s.loc[k].Live?
       case Assign(_, _) => Quiet(s)
       case Clear => Quiet(s)
       case Recut(c, ws) => Quiet(s) && |ws| == c <= NULL_U16
  }

  function Apply(s: State, t: nat, a: Action): (r: State)
    requires Inv(s) && Enabled(s, t, a)
    ensures Inv(r) && |r.ops| == |s.ops|
  {
    StepDefined(s, t, a);
    match a
    case Allocate(offset) => Take(s, offset)
    case Free(k) => BeginFree(s, t, k)
    case Route => GoRemote(s, t)
    case Push => AdvancePush(s, t)
    case PushLocal => LocalPush(s, t)
    case Swap => Drain(s, t)
    case Yield => DrainNext(s, t)
    case Finish => DrainEnd(s, t)
    case Write(k, v) => Scribble(s, k, v)
    case Assign(w, c) => SetClass(SetOwner(s, w), c)
    case Clear => ClearHead(s)
    case Recut(c, ws) => Reset(s, c, ws)
  }

  /** Each step is defined, stays in bounds and keeps the slab well formed. */
  lemma StepDefined(s: State, t: nat, a: Action)
    requires Inv(s) && Enabled(s, t, a)
    ensures match a
            case Allocate(offset) => s.free[|s.free| - 1] < |s.loc| && Inv(Take(s, offset))
            case Free(k) => Inv(BeginFree(s, t, k))
            case Route => Inv(GoRemote(s, t))
            case Push => s.ops[t].slot < |s.words| && Inv(AdvancePush(s, t))
            case PushLocal => s.ops[t].slot < |s.loc| && Inv(LocalPush(s, t))
            case Swap => Inv(Drain(s, t))
            case Yield => s.ops[t].cursor < |s.words| && Inv(DrainNext(s, t))
            case Finish => Inv(DrainEnd(s, t))
            case Write(k, v) => k < |s.words| && Inv(Scribble(s, k, v))
            case Assign(w, c) => Inv(SetClass(SetOwner(s, w), c))
            case Clear => Inv(ClearHead(s))
            case Recut(c, ws) => Inv(Reset(s, c, ws))
  {
    hide Inv;
    match a
    case Allocate(offset) => TakeKeeps(s, offset);
    case Free(k) => BeginFreeKeeps(s, t, k);
    case Route => GoRemoteKeeps(s, t);
    case Push => AdvancePushKeeps(s, t);
    case PushLocal => LocalPushKeeps(s, t);
    case Swap => DrainKeeps(s, t);
    case Yield => DrainNextKeeps(s, t);
    case Finish => DrainEndKeeps(s, t);
    case Write(k, v) => ScribbleKeeps(s, k, v); WordsCover(s);
    case Assign(w, c) => MetaKeeps(s, w, c); MetaKeeps(SetOwner(s, w), w, c);
    case Clear => ClearHeadDropsNothing(s);
    case Recut(c, ws) => ResetKeeps(s, c, ws);
  }

  lemma WordsCover(s: State)
    requires Inv(s)
    ensures |s.words| == |s.loc|
  {
  }

  ghost predicate Valid(s: State, es: seq<Event>)
    requires Inv(s)
    decreases |es|
  {
    es == [] || (Enabled(s, es[0].tid, es[0].act) && Valid(Apply(s, es[0].tid, es[0].act), es[1..]))
  }

  function Exec(s: State, es: seq<Event>): (r: State)
    requires Inv(s) && Valid(s, es)
    ensures Inv(r) && |r.ops| == |s.ops|
    decreases |es|
  {
    if es == [] then s else Exec(Apply(s, es[0].tid, es[0].act), es[1..])
  }

  // ----- slot conservation

  ghost function FreeSlots(s: State): (r: set<nat>)
    ensures forall i: nat :: i in r <==> i < |s.loc| && s.loc[i].Free?
  {
    set i: nat | i in Below(|s.loc|) && s.loc[i].Free?
  }

  ghost function LiveSlots(s: State): (r: set<nat>)
    ensures forall i: nat :: i in r <==> i < |s.loc| && s.loc[i].Live?
  {
    set i: nat | i in Below(|s.loc|) && s.loc[i].Live?
  }

  ghost function HeldSlots(s: State): (r: set<nat>)
    ensures forall i: nat :: i in r <==> i < |s.loc| && s.loc[i].Freeing?
  {
    set i: nat | i in Below(|s.loc|) && s.loc[i].Freeing?
  }

  ghost function RemoteSlots(s: State): (r: set<nat>)
    ensures forall i: nat :: i in r <==> i < |s.loc| && s.loc[i].Remote?
  {
    set i: nat | i in Below(|s.loc|) && s.loc[i].Remote?
  }

  ghost function DrainedSlots(s: State): (r: set<nat>)
    ensures forall i: nat :: i in r <==> i < |s.loc| && s.loc[i].Drained?
  {
    set i: nat | i in Below(|s.loc|) && s.loc[i].Drained?
  }

  /**
   * In every reachable state the slots are split without overlap or loss among the free stack, the live
   * blocks, the slots threads carry, the remote list and the drained chains; each list holds exactly its
   * share, once each.
   */
  lemma Conservation(s: State)
    requires Inv(s)
    ensures FreeSlots(s) + LiveSlots(s) + HeldSlots(s) + RemoteSlots(s) + DrainedSlots(s) == Below(s.capacity)
    ensures |FreeSlots(s)| + |LiveSlots(s)| + |HeldSlots(s)| + |RemoteSlots(s)| + |DrainedSlots(s)| == s.capacity
    ensures Elems(s.free) == FreeSlots(s) && |s.free| == |FreeSlots(s)|
    ensures Elems(s.chain) == RemoteSlots(s) && |s.chain| == |RemoteSlots(s)|
  {
    SetsPartition(s);
    ListedSet(s.free, s.loc, Loc.Free, FreeSlots(s));
    ListedSet(s.chain, s.loc, Remote, RemoteSlots(s));
  }

  lemma ListedSet(xs: seq<nat>, loc: seq<Loc>, l: Loc, r: set<nat>)
    requires Lists(xs, loc, l) && forall i: nat :: i in r <==> i < |loc| && loc[i] == l
    ensures Elems(xs) == r && |xs| == |r|
  {
    NoDupSetSize(xs);
    assert Elems(xs) == r;
  }

  /** The carried slots are exactly those in some thread's hands, the drained ones those in some thread's chain. */
  lemma HandsHold(s: State)
    requires Inv(s)
    ensures forall i: nat :: i in HeldSlots(s) <==> exists t: nat :: t < |s.ops| && Held(s.ops[t]) == Some(i)
    ensures forall i: nat :: i in DrainedSlots(s) <==> exists t: nat :: t < |s.ops| && i in Rest(s.ops[t])
  {
    forall i: nat
      ensures i in HeldSlots(s) <==> exists t: nat :: t < |s.ops| && Held(s.ops[t]) == Some(i)
      ensures i in DrainedSlots(s) <==> exists t: nat :: t < |s.ops| && i in Rest(s.ops[t])
    {
      if i < |s.loc| && (s.loc[i].Freeing? || s.loc[i].Drained?) {
        assert ThreadOk(s, s.loc[i].tid, s.ops[s.loc[i].tid]);
      }
      forall t: nat | t < |s.ops|
        ensures Held(s.ops[t]) == Some(i) ==> i in HeldSlots(s)
        ensures i in Rest(s.ops[t]) ==> i in DrainedSlots(s)
      {
        assert ThreadOk(s, t, s.ops[t]);
      }
    }
  }

  lemma SetsPartition(s: State)
    requires Sized(s)
    ensures FreeSlots(s) + LiveSlots(s) + HeldSlots(s) + RemoteSlots(s) + DrainedSlots(s) == Below(s.capacity)
    ensures |FreeSlots(s)| + |LiveSlots(s)| + |HeldSlots(s)| + |RemoteSlots(s)| + |DrainedSlots(s)| == s.capacity
  {
    FiveParts(FreeSlots(s), LiveSlots(s), HeldSlots(s), RemoteSlots(s), DrainedSlots(s), Below(s.capacity));
  }

  lemma FiveParts(a: set<nat>, b: set<nat>, c: set<nat>, d: set<nat>, e: set<nat>, u: set<nat>)
    requires a !! b && a !! c && a !! d && a !! e && b !! c && b !! d && b !! e && c !! d && c !! e && d !! e
    requires forall i: nat :: i in u <==> i in a || i in b || i in c || i in d || i in e
    ensures a + b + c + d + e == u
    ensures |a| + |b| + |c| + |d| + |e| == |u|
  {
    assert a + b + c + d + e == u;
    TwoParts(a + b + c + d, e);
    TwoParts(a + b + c, d);
    TwoParts(a + b, c);
    TwoParts(a, b);
  }

  lemma TwoParts(a: set<nat>, b: set<nat>)
    requires a !! b
    ensures |a + b| == |a| + |b|
  {
  }

  // ----- the remote list, read from shared memory alone, is an atomic list

  /** The shared head and the slots' own words spell the remote list `xs`. */
  ghost predicate Spells(s: State, first: nat, xs: seq<nat>) {
    Linked(s.words, first, xs, NULL_U16)
  }

  /**
   * Whatever the interleaving, a successful exchange conses one slot onto the list spelled in shared memory,
   * a swap empties it and leaves the drainer's cursor spelling all of it, and every other step, client writes
   * to live blocks included, leaves it as it was.
   */
  lemma RemoteListAtomic(s: State, t: nat, a: Action) returns (xs: seq<nat>, ys: seq<nat>)
    requires Inv(s) && Enabled(s, t, a)
    ensures Spells(s, s.head, xs) && forall zs: seq<nat> :: Spells(s, s.head, zs) ==> zs == xs
    ensures Spells(Apply(s, t, a), Apply(s, t, a).head, ys)
    ensures forall zs: seq<nat> :: Spells(Apply(s, t, a), Apply(s, t, a).head, zs) ==> zs == ys
    ensures if a == Push && s.ops[t].PushSwap? && s.head == s.ops[t].seen then ys == [s.ops[t].slot] + xs
            else if a == Swap then
              ys == [] && Apply(s, t, a).ops[t].Draining? && Spells(Apply(s, t, a), Cursor(Apply(s, t, a).ops[t]), xs)
            else ys == xs
  {
    var s' := Apply(s, t, a);
    xs, ys := s.chain, s'.chain;
    SpellsOnly(s);
    SpellsOnly(s');
    if a.Recut? || a.Clear? {
      QuietMeansNothingPending(s);
      QuietMeansNothingPending(s');
    }
    if a == Swap {
      assert s'.ops[t] == Draining(s.head, s.chain);
      assert ThreadOk(s', t, s'.ops[t]);
    }
  }

  /** From the remote head the words of a well-formed slab spell one sequence, the chain, and no other. */
  lemma SpellsOnly(s: State)
    requires Inv(s)
    ensures Spells(s, s.head, s.chain) && forall zs: seq<nat> :: Spells(s, s.head, zs) ==> zs == s.chain
  {
    forall zs: seq<nat> | Spells(s, s.head, zs) ensures zs == s.chain {
      LinkedUnique(s.words, s.head, zs, s.chain, NULL_U16);
    }
  }

  /**
   * A chain that has been swapped out is private: no step of another thread changes what its cursor spells,
   * and the owner's own step yields its first slot after reading the link stored there.
   */
  lemma DrainedChainFixed(s: State, t: nat, a: Action, u: nat, xs: seq<nat>)
    requires Inv(s) && Enabled(s, t, a) && u < |s.ops|
    requires Spells(s, Cursor(s.ops[u]), xs)
    ensures u != t ==> Apply(s, t, a).ops[u] == s.ops[u] && Spells(Apply(s, t, a), Cursor(s.ops[u]), xs)
    ensures u == t && a == Yield ==>
              xs != [] && Apply(s, t, a).ops[t].DrainHold? && Apply(s, t, a).ops[t].slot == xs[0]
              && Spells(Apply(s, t, a), Cursor(Apply(s, t, a).ops[t]), xs[1..])
    ensures u == t && a == PushLocal && s.ops[t].DrainHold? ==>
              Spells(Apply(s, t, a), Cursor(Apply(s, t, a).ops[t]), xs)
  {
    var s' := Apply(s, t, a);
    assert ThreadOk(s, u, s.ops[u]);
    LinkedUnique(s.words, Cursor(s.ops[u]), xs, Rest(s.ops[u]), NULL_U16);
    assert ThreadOk(s', u, s'.ops[u]);
  }

  /** Slot `k` is on the remote list or in some drained chain. */
  ghost predicate InTransit(s: State, k: nat) {
    k < |s.loc| && (s.loc[k] == Remote || s.loc[k].Drained?)
  }

  ghost predicate Pushes(s: State, e: Event, k: nat) {
    && e.tid < |s.ops| && e.act == Push && s.ops[e.tid].PushSwap?
    && s.ops[e.tid].slot == k && s.ops[e.tid].seen == s.head
  }

  ghost predicate Yields(s: State, e: Event, k: nat) {
    e.tid < |s.ops| && e.act == Yield && s.ops[e.tid].Draining? && s.ops[e.tid].cursor == k
  }

  ghost function PushCount(s: State, es: seq<Event>, k: nat): nat
    requires Inv(s) && Valid(s, es)
    decreases |es|
  {
    if es == [] then 0
    else (if Pushes(s, es[0], k) then 1 else 0) + PushCount(Apply(s, es[0].tid, es[0].act), es[1..], k)
  }

  ghost function YieldCount(s: State, es: seq<Event>, k: nat): nat
    requires Inv(s) && Valid(s, es)
    decreases |es|
  {
    if es == [] then 0
    else (if Yields(s, es[0], k) then 1 else 0) + YieldCount(Apply(s, es[0].tid, es[0].act), es[1..], k)
  }

  ghost function Ind(b: bool): nat { if b then 1 else 0 }

  lemma YieldStep(s: State, e: Event, k: nat)
    requires Inv(s) && Enabled(s, e.tid, e.act) && e.act == Yield
    ensures Ind(InTransit(s, k)) == Ind(InTransit(Apply(s, e.tid, e.act), k)) + Ind(Yields(s, e, k))
  {
    var t := e.tid;
    assert ThreadOk(s, t, s.ops[t]);
    DrainNextKeeps(s, t);
    assert s.ops[t].rest[0] in s.ops[t].rest;
    assert Apply(s, t, Yield).loc == s.loc[s.ops[t].cursor := Freeing(t)];
  }

  lemma PushStep(s: State, e: Event, k: nat)
    requires Inv(s) && Enabled(s, e.tid, e.act) && e.act == Push
    ensures Ind(InTransit(s, k)) + Ind(Pushes(s, e, k)) == Ind(InTransit(Apply(s, e.tid, e.act), k))
  {
    assert ThreadOk(s, e.tid, s.ops[e.tid]);
  }

  lemma OwnerStep(s: State, e: Event, k: nat)
    requires Inv(s) && Enabled(s, e.tid, e.act) && (e.act.Allocate? || e.act.PushLocal? || e.act.Free?)
    ensures InTransit(s, k) == InTransit(Apply(s, e.tid, e.act), k)
  {
    match e.act
    case Allocate(offset) => TakeKeeps(s, offset);
    case PushLocal => assert ThreadOk(s, e.tid, s.ops[e.tid]);
    case Free(_) =>
  }

  lemma PushOrYieldStep(s: State, e: Event, k: nat)
    requires Inv(s) && Enabled(s, e.tid, e.act)
    ensures Ind(InTransit(s, k)) + Ind(Pushes(s, e, k))
            == Ind(InTransit(Apply(s, e.tid, e.act), k)) + Ind(Yields(s, e, k))
  {
    match e.act
    case Yield => YieldStep(s, e, k);
    case Push => PushStep(s, e, k);
    case Allocate(_) => OwnerStep(s, e, k);
    case PushLocal => OwnerStep(s, e, k);
    case Free(_) => OwnerStep(s, e, k);
    case _ =>
  }

  /**
   * Each pushed slot is returned by exactly one drain: over any run, its pushes and its yields differ by
   * exactly whether it was in transit at the start and whether it is at the end.
   */
  lemma {:induction false} EachPushYieldedOnce(s: State, es: seq<Event>, k: nat)
    requires Inv(s) && Valid(s, es)
    ensures Ind(InTransit(s, k)) + PushCount(s, es, k) == Ind(InTransit(Exec(s, es), k)) + YieldCount(s, es, k)
    decreases |es|
  {
    if es != [] {
      PushOrYieldStep(s, es[0], k);
      EachPushYieldedOnce(Apply(s, es[0].tid, es[0].act), es[1..], k);
    }
  }

  // ----- retries

  ghost predicate Fails(s: State, e: Event, t: nat) {
    e.tid == t < |s.ops| && e.act == Push && s.ops[t].PushSwap? && s.ops[t].seen != s.head
  }

  /** Another thread changes the shared head. */
  ghost predicate Overtakes(s: State, e: Event, t: nat) {
    && e.tid != t && e.tid < |s.ops|
    && ((e.act == Push && s.ops[e.tid].PushSwap? && s.ops[e.tid].seen == s.head)
        || (e.act == Swap && s.head != NULL_U16))
  }

  ghost function FailCount(s: State, es: seq<Event>, t: nat): nat
    requires Inv(s) && Valid(s, es)
    decreases |es|
  {
    if es == [] then 0
    else Ind(Fails(s, es[0], t)) + FailCount(Apply(s, es[0].tid, es[0].act), es[1..], t)
  }

  ghost function OvertakeCount(s: State, es: seq<Event>, t: nat): nat
    requires Inv(s) && Valid(s, es)
    decreases |es|
  {
    if es == [] then 0
    else Ind(Overtakes(s, es[0], t)) + OvertakeCount(Apply(s, es[0].tid, es[0].act), es[1..], t)
  }

  ghost function Lag(s: State, t: nat): nat
    requires Inv(s) && t < |s.ops|
  {
    assert ThreadOk(s, t, s.ops[t]);
    if s.ops[t].PushLink? || s.ops[t].PushSwap? then s.updates - s.ops[t].ver else 0
  }

  lemma LagStep(s: State, e: Event, t: nat)
    requires Inv(s) && t < |s.ops| && Enabled(s, e.tid, e.act)
    ensures Ind(Fails(s, e, t)) + Lag(Apply(s, e.tid, e.act), t) <= Ind(Overtakes(s, e, t)) + Lag(s, t)
  {
    assert ThreadOk(s, t, s.ops[t]);
  }

  /** Lock freedom of the remote push: its failed exchanges are bounded by other threads' head changes. */
  lemma {:induction false} RetriesBounded(s: State, es: seq<Event>, t: nat)
    requires Inv(s) && t < |s.ops| && Valid(s, es)
    ensures FailCount(s, es, t) <= OvertakeCount(s, es, t) + Lag(s, t)
    decreases |es|
  {
    if es != [] {
      LagStep(s, es[0], t);
      RetriesBounded(Apply(s, es[0].tid, es[0].act), es[1..], t);
    }
  }
}
