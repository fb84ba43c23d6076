/**
 * One slab: its metadata, free stack, slots and remote free list.
 *
 * The remote free list is intrusive: the first 16-bit word of a freed slot is its link, and while a
 * slot is live its holder may write anything there. Any thread pushes freed slots with load, link store
 * and compare-and-exchange; a drain swaps the whole list out and walks it. Each function below is one
 * atomic access, or one owner-only operation on the free stack.
 *
 * `updates`, `loc`, `chain` and the chains inside `Draining`/`DrainHold` are history variables.
 */
module Slab {
  import opened Base

  /** Where a slot is. */
  datatype Loc =
    | Free                      // in the free stack
    | Live(offset: nat)         // handed out by an allocation that returned `offset`
    | Freeing(tid: nat)         // given back to thread `tid`, not yet in any list
    | Remote                    // in the remote free list
    | Drained(tid: nat)         // in the chain thread `tid` swapped out and has not yet walked

  /** What a thread is doing with this slab. */
  datatype Op =
    | Idle
    | Holding(slot: nat)
    | PushStart(slot: nat)
    | PushLink(slot: nat, seen: nat, ver: nat)
    | PushSwap(slot: nat, seen: nat, ver: nat)
    | Draining(cursor: nat, rest: seq<nat>)
    | DrainHold(slot: nat, cursor: nat, rest: seq<nat>)

  datatype State = State(
    owner: nat,
    sizeIndex: nat,
    head: nat,
    capacity: nat,
    free: seq<nat>,
    words: seq<nat>,
    ops: seq<Op>,
    updates: nat,
    loc: seq<Loc>,
    chain: seq<nat>)
  {
    function At(t: nat, op: Op): State
      requires t < |ops|
    {
      this.(ops := ops[t := op])
    }

    function Moved(slot: nat, l: Loc): State
      requires slot < |loc|
    {
      this.(loc := loc[slot := l])
    }
  }

  /** The slot a thread is carrying towards the free stack or the remote list. */
  function Held(op: Op): Option<nat> {
    match op
    case Holding(k) => Some(k)
    case PushStart(k) => Some(k)
    case PushLink(k, _, _) => Some(k)
    case PushSwap(k, _, _) => Some(k)
    case DrainHold(k, _, _) => Some(k)
    case _ => None
  }

  function Rest(op: Op): seq<nat> {
    match op
    case Draining(_, rest) => rest
    case DrainHold(_, _, rest) => rest
    case _ => []
  }

  function Cursor(op: Op): nat {
    match op
    case Draining(c, _) => c
    case DrainHold(_, c, _) => c
    case _ => NULL_U16
  }

  // ----- invariant

  /** `xs` lists, without repetition, exactly the slots that are at `l`. */
  ghost predicate Lists(xs: seq<nat>, loc: seq<Loc>, l: Loc) {
    && NoDup(xs)
    && forall i: nat {:trigger i in xs} {:trigger loc[i]} :: i in xs <==> i < |loc| && loc[i] == l
  }

  /** A thread holds exactly the slot being freed by it, and nobody has overwritten what it relies on. */
  ghost predicate HeldOk(s: State, t: nat, op: Op) {
    && (Held(op).Some? ==> Held(op).value < |s.loc| && s.loc[Held(op).value] == Freeing(t))
    && (forall i: nat {:trigger s.loc[i]} :: i < |s.loc| && s.loc[i] == Freeing(t) ==> Held(op) == Some(i))
    && (op.PushSwap? ==> op.slot < |s.words| && s.words[op.slot] == op.seen)
  }

  ghost predicate SeenOk(s: State, op: Op) {
    op.PushLink? || op.PushSwap? ==> op.ver <= s.updates && (op.ver == s.updates ==> op.seen == s.head)
  }

  /** The chain a thread swapped out is still spelled by the words of its slots. */
  ghost predicate RestOk(s: State, t: nat, op: Op) {
    && Lists(Rest(op), s.loc, Drained(t))
    && Linked(s.words, Cursor(op), Rest(op), NULL_U16)
  }

  ghost predicate ThreadOk(s: State, t: nat, op: Op) {
    HeldOk(s, t, op) && SeenOk(s, op) && RestOk(s, t, op)
  }

  ghost predicate ThreadsOk(s: State) {
    forall t: nat {:trigger s.ops[t]} :: t < |s.ops| ==> ThreadOk(s, t, s.ops[t])
  }

  ghost predicate TidsOk(s: State) {
    forall i: nat {:trigger s.loc[i]} :: i < |s.loc| ==>
      (s.loc[i].Freeing? ==> s.loc[i].tid < |s.ops|) && (s.loc[i].Drained? ==> s.loc[i].tid < |s.ops|)
  }

  ghost predicate ListsOk(s: State) {
    && Lists(s.free, s.loc, Free)
    && Lists(s.chain, s.loc, Remote)
    && Linked(s.words, s.head, s.chain, NULL_U16)
  }

  ghost predicate Sized(s: State) {
    |s.loc| == |s.words| == s.capacity <= NULL_U16
  }

  ghost predicate Inv(s: State) {
    Sized(s) && ListsOk(s) && TidsOk(s) && ThreadsOk(s)
  }

  /** Nothing outstanding: every slot is in the free stack. */
  ghost predicate Quiet(s: State) {
    forall i: nat {:trigger s.loc[i]} :: i < |s.loc| ==> s.loc[i] == Free
  }

  // ----- steps on slots

  /** The owner pops the free stack and hands the slot out. */
  function Take(s: State, offset: nat): State
    requires s.free != [] && s.free[|s.free| - 1] < |s.loc|
  {
    s.(free := s.free[..|s.free| - 1]).Moved(s.free[|s.free| - 1], Live(offset))
  }

  /** A client gives a live slot to thread `t` to free. */
  function BeginFree(s: State, t: nat, slot: nat): State
    requires t < |s.ops| && slot < |s.loc|
  {
    s.At(t, Holding(slot)).Moved(slot, Freeing(t))
  }

  function GoRemote(s: State, t: nat): State
    requires t < |s.ops| && s.ops[t].Holding?
  {
    s.At(t, PushStart(s.ops[t].slot))
  }

  /** The next access of a remote push: load the head, store the link, compare-and-exchange. */
  function AdvancePush(s: State, t: nat): State
    requires t < |s.ops| && (s.ops[t].PushStart? || s.ops[t].PushLink? || s.ops[t].PushSwap?)
    requires s.ops[t].slot < |s.words| == |s.loc|
  {
    match s.ops[t]
    case PushStart(k) => s.At(t, PushLink(k, s.head, s.updates))
    case PushLink(k, seen, ver) => s.(words := s.words[k := seen]).At(t, PushSwap(k, seen, ver))
    case PushSwap(k, seen, ver) =>
      if s.head == seen
      then s.(head := k, updates := s.updates + 1, chain := [k] + s.chain).Moved(k, Remote).At(t, Idle)
      else s.At(t, PushStart(k))
  }

  /** The owner pushes the slot it holds on the free stack. */
  function LocalPush(s: State, t: nat): State
    requires t < |s.ops| && (s.ops[t].Holding? || s.ops[t].DrainHold?) && s.ops[t].slot < |s.loc|
  {
    s.(free := s.free + [s.ops[t].slot])
     .Moved(s.ops[t].slot, Free)
     .At(t, if s.ops[t].Holding? then Idle else Draining(s.ops[t].cursor, s.ops[t].rest))
  }

  /** Swap the remote list out. */
  function Drain(s: State, t: nat): State
    requires t < |s.ops|
  {
    s.(head := NULL_U16,
       updates := if s.head == NULL_U16 then s.updates else s.updates + 1,
       loc := seq(|s.loc|, (i: nat) requires i < |s.loc| => if s.loc[i] == Remote then Drained(t) else s.loc[i]),
       chain := []).At(t, Draining(s.head, s.chain))
  }

  /** The drain iterator yields its cursor after reading the link stored there. */
  function DrainNext(s: State, t: nat): State
    requires t < |s.ops| && s.ops[t].Draining? && s.ops[t].cursor < |s.words| == |s.loc|
  {
    s.Moved(s.ops[t].cursor, Freeing(t))
     .At(t, DrainHold(s.ops[t].cursor, s.words[s.ops[t].cursor], if s.ops[t].rest == [] then [] else s.ops[t].rest[1..]))
  }

  function DrainEnd(s: State, t: nat): State
    requires t < |s.ops|
  {
    s.At(t, Idle)
  }

  /** The holder of a live slot writes into it. */
  function Scribble(s: State, slot: nat, v: nat): State
    requires slot < |s.words|
  {
    s.(words := s.words[slot := v])
  }

  // ----- steps of a new owner

  function SetOwner(s: State, w: nat): State {
    s.(owner := w)
  }

  function SetClass(s: State, c: nat): State {
    s.(sizeIndex := c)
  }

  function ClearHead(s: State): State {
    s.(head := NULL_U16)
  }

  /** The free stack of `capacity` slots in reverse order, so that slot 0 is popped first. */
  function Descending(capacity: nat): seq<nat> {
    seq(capacity, (i: nat) requires i < capacity => capacity - i - 1)
  }

  /** All slots free again; the words of the re-cut slots hold whatever bytes were there. */
  function Reset(s: State, capacity: nat, words: seq<nat>): State {
    s.(capacity := capacity, free := Descending(capacity), words := words, loc := seq(capacity, _ => Free))
  }

  // ----- preservation

  /** A list of slots after one slot has changed place. */
  lemma ListsFrame(xs: seq<nat>, loc: seq<Loc>, l: Loc, k: nat, to: Loc)
    requires Lists(xs, loc, l) && k < |loc| && loc[k] != l && to != l
    ensures Lists(xs, loc[k := to], l)
  {
  }

  lemma ListsAdd(xs: seq<nat>, loc: seq<Loc>, l: Loc, k: nat)
    requires Lists(xs, loc, l) && k < |loc| && loc[k] != l
    ensures Lists(xs + [k], loc[k := l], l)
    ensures Lists([k] + xs, loc[k := l], l)
  {
    assert k !in xs;
    assert forall i: nat :: i in xs + [k] <==> i in xs || i == k;
    assert forall i: nat :: i in [k] + xs <==> i in xs || i == k;
  }

  lemma ListsDropLast(xs: seq<nat>, loc: seq<Loc>, l: Loc, to: Loc)
    requires Lists(xs, loc, l) && xs != [] && to != l
    ensures xs[|xs| - 1] < |loc| && loc[xs[|xs| - 1]] == l
    ensures Lists(xs[..|xs| - 1], loc[xs[|xs| - 1] := to], l)
  {
    var k := xs[|xs| - 1];
    var ys := xs[..|xs| - 1];
    assert k in xs;
    assert xs == ys + [k];
    assert forall i: nat :: i in xs <==> i in ys || i == k;
    assert k !in ys;
  }

  lemma ListsDropFirst(xs: seq<nat>, loc: seq<Loc>, l: Loc, to: Loc)
    requires Lists(xs, loc, l) && xs != [] && to != l
    ensures xs[0] < |loc| && loc[xs[0]] == l
    ensures Lists(xs[1..], loc[xs[0] := to], l)
  {
    var k := xs[0];
    var ys := xs[1..];
    assert k in xs;
    assert xs == [k] + ys;
    assert forall i: nat :: i in xs <==> i in ys || i == k;
    assert k !in ys;
  }

  /** Slot `k` moves to `l` and its word becomes `v`; the head changes only along with the update count. */
  ghost predicate OneSlot(s: State, s': State, k: nat, l: Loc, v: nat) {
    && k < |s.loc| == |s.words|
    && s'.loc == s.loc[k := l]
    && s'.words == s.words[k := v]
    && s'.updates >= s.updates
    && (s'.updates == s.updates ==> s'.head == s.head)
  }

  /** A place that concerns no thread but `t`. */
  predicate Private(l: Loc, t: nat) {
    (l.Freeing? ==> l.tid == t) && (l.Drained? ==> l.tid == t)
  }

  predicate Shared(l: Loc) {
    !l.Freeing? && !l.Drained?
  }

  lemma OtherThread(s: State, s': State, k: nat, l: Loc, v: nat, u: nat, op: Op)
    requires ThreadOk(s, u, op) && OneSlot(s, s', k, l, v)
    requires s.loc[k] != Freeing(u) && s.loc[k] != Drained(u) && l != Freeing(u) && l != Drained(u)
    ensures ThreadOk(s', u, op)
  {
    ListsFrame(Rest(op), s.loc, Drained(u), k, l);
    assert k !in Rest(op);
    LinkedFrame(s.words, Cursor(op), Rest(op), NULL_U16, k, v);
    assert HeldOk(s', u, op);
  }

  /** A step of thread `t` on a slot of its own leaves every other thread's view intact. */
  lemma OtherThreads(s: State, s': State, k: nat, l: Loc, v: nat, t: nat)
    requires ThreadsOk(s) && t < |s.ops| == |s'.ops| && OneSlot(s, s', k, l, v)
    requires Private(s.loc[k], t) && Private(l, t)
    requires s'.ops == s.ops[t := s'.ops[t]] && ThreadOk(s', t, s'.ops[t])
    ensures ThreadsOk(s')
  {
    forall u: nat | u < |s'.ops| ensures ThreadOk(s', u, s'.ops[u]) {
      if u != t { OtherThread(s, s', k, l, v, u, s.ops[u]); }
    }
  }

  /** A step on a slot in no thread's hands leaves every thread's view intact. */
  lemma AllThreads(s: State, s': State, k: nat, l: Loc, v: nat)
    requires ThreadsOk(s) && s'.ops == s.ops && OneSlot(s, s', k, l, v)
    requires Shared(s.loc[k]) && Shared(l)
    ensures ThreadsOk(s')
  {
    forall u: nat | u < |s'.ops| ensures ThreadOk(s', u, s'.ops[u]) {
      OtherThread(s, s', k, l, v, u, s.ops[u]);
    }
  }

  lemma TakeKeeps(s: State, offset: nat)
    requires Inv(s) && s.free != []
    ensures s.free[|s.free| - 1] < |s.loc| && s.loc[s.free[|s.free| - 1]] == Free
    ensures Inv(Take(s, offset))
  {
    var k := s.free[|s.free| - 1];
    ListsDropLast(s.free, s.loc, Free, Live(offset));
    ListsFrame(s.chain, s.loc, Remote, k, Live(offset));
    assert s.words == s.words[k := s.words[k]];
    AllThreads(s, Take(s, offset), k, Live(offset), s.words[k]);
  }

  lemma BeginFreeKeeps(s: State, t: nat, slot: nat)
    requires Inv(s) && t < |s.ops| && s.ops[t] == Idle
    requires slot < |s.loc| && s.loc[slot].Live?
    ensures Inv(BeginFree(s, t, slot))
  {
    var s' := BeginFree(s, t, slot);
    ListsFrame(s.free, s.loc, Free, slot, Freeing(t));
    ListsFrame(s.chain, s.loc, Remote, slot, Freeing(t));
    assert ThreadOk(s, t, s.ops[t]);
    ListsFrame(Rest(s.ops[t]), s.loc, Drained(t), slot, Freeing(t));
    assert s.words == s.words[slot := s.words[slot]];
    assert ThreadOk(s', t, s'.ops[t]);
    OtherThreads(s, s', slot, Freeing(t), s.words[slot], t);
  }

  lemma GoRemoteKeeps(s: State, t: nat)
    requires Inv(s) && t < |s.ops| && s.ops[t].Holding?
    ensures Inv(GoRemote(s, t))
  {
    var s' := GoRemote(s, t);
    assert ThreadOk(s, t, s.ops[t]);
    assert s'.loc == s.loc && s'.words == s.words;
    assert ThreadOk(s', t, s'.ops[t]);
    forall u: nat | u < |s'.ops| ensures ThreadOk(s', u, s'.ops[u]) {
      assert ThreadOk(s, u, s.ops[u]);
    }
  }

  ghost predicate Pushing(op: Op) {
    op.PushStart? || op.PushLink? || op.PushSwap?
  }

  lemma PushLoadKeeps(s: State, t: nat)
    requires Inv(s) && t < |s.ops| && s.ops[t].PushStart?
    ensures s.ops[t].slot < |s.words| && Inv(AdvancePush(s, t))
  {
    assert ThreadOk(s, t, s.ops[t]);
    var s' := AdvancePush(s, t);
    forall u: nat | u < |s'.ops| ensures ThreadOk(s', u, s'.ops[u]) {
      assert ThreadOk(s, u, s.ops[u]);
    }
  }

  /** The link store goes to a word that no chain and no other push depends on. */
  lemma PushStoreKeeps(s: State, t: nat)
    requires Inv(s) && t < |s.ops| && s.ops[t].PushLink?
    ensures s.ops[t].slot < |s.words| && Inv(AdvancePush(s, t))
  {
    var k := s.ops[t].slot;
    assert ThreadOk(s, t, s.ops[t]);
    var s' := AdvancePush(s, t);
    assert k !in s.chain && k !in Rest(s.ops[t]);
    LinkedFrame(s.words, s.head, s.chain, NULL_U16, k, s.ops[t].seen);
    assert s.loc == s.loc[k := Freeing(t)];
    assert ThreadOk(s', t, s'.ops[t]);
    OtherThreads(s, s', k, Freeing(t), s.ops[t].seen, t);
  }

  /** The exchange succeeds only if the slot's link is the current head, whatever happened in between. */
  lemma PushWinKeeps(s: State, t: nat)
    requires Inv(s) && t < |s.ops| && s.ops[t].PushSwap? && s.head == s.ops[t].seen
    ensures s.ops[t].slot < |s.words| && Inv(AdvancePush(s, t))
  {
    var k := s.ops[t].slot;
    assert ThreadOk(s, t, s.ops[t]);
    var s' := AdvancePush(s, t);
    LinkedCons(s.words, s.head, s.chain, NULL_U16, k);
    ListsAdd(s.chain, s.loc, Remote, k);
    ListsFrame(s.free, s.loc, Free, k, Remote);
    ListsFrame([], s.loc, Drained(t), k, Remote);
    assert s.words == s.words[k := s.words[k]];
    assert ThreadOk(s', t, s'.ops[t]);
    OtherThreads(s, s', k, Remote, s.words[k], t);
  }

  lemma PushLoseKeeps(s: State, t: nat)
    requires Inv(s) && t < |s.ops| && s.ops[t].PushSwap? && s.head != s.ops[t].seen
    ensures s.ops[t].slot < |s.words| && Inv(AdvancePush(s, t))
  {
    assert ThreadOk(s, t, s.ops[t]);
    var s' := AdvancePush(s, t);
    forall u: nat | u < |s'.ops| ensures ThreadOk(s', u, s'.ops[u]) {
      assert ThreadOk(s, u, s.ops[u]);
    }
  }

  lemma AdvancePushKeeps(s: State, t: nat)
    requires Inv(s) && t < |s.ops| && Pushing(s.ops[t])
    ensures s.ops[t].slot < |s.words| && Inv(AdvancePush(s, t))
  {
    match s.ops[t]
    case PushStart(_) => PushLoadKeeps(s, t);
    case PushLink(_, _, _) => PushStoreKeeps(s, t);
    case PushSwap(_, seen, _) => if s.head == seen { PushWinKeeps(s, t); } else { PushLoseKeeps(s, t); }
  }

  lemma LocalPushKeeps(s: State, t: nat)
    requires Inv(s) && t < |s.ops| && (s.ops[t].Holding? || s.ops[t].DrainHold?)
    ensures s.ops[t].slot < |s.loc| && Inv(LocalPush(s, t))
  {
    var k := s.ops[t].slot;
    assert ThreadOk(s, t, s.ops[t]);
    var s' := LocalPush(s, t);
    ListsAdd(s.free, s.loc, Free, k);
    ListsFrame(s.chain, s.loc, Remote, k, Free);
    ListsFrame(Rest(s.ops[t]), s.loc, Drained(t), k, Free);
    assert s.words == s.words[k := s.words[k]];
    assert ThreadOk(s', t, s'.ops[t]);
    OtherThreads(s, s', k, Free, s.words[k], t);
  }

  lemma DrainKeeps(s: State, t: nat)
    requires Inv(s) && t < |s.ops| && s.ops[t] == Idle
    ensures Inv(Drain(s, t))
  {
    var s' := Drain(s, t);
    assert forall i: nat {:trigger s'.loc[i]} :: i < |s.loc| ==>
      s'.loc[i] == if s.loc[i] == Remote then Drained(t) else s.loc[i];
    assert ThreadOk(s, t, s.ops[t]);
    assert forall i: nat :: i < |s.loc| ==> s.loc[i] != Drained(t) by {
      assert forall i: nat :: i !in Rest(s.ops[t]);
    }
    assert Lists(s'.free, s'.loc, Free);
    assert Lists(s'.chain, s'.loc, Remote);
    assert Lists(s.chain, s'.loc, Drained(t));
    DrainKeepsThreads(s, t);
  }

  lemma DrainKeepsThreads(s: State, t: nat)
    requires Inv(s) && t < |s.ops| && s.ops[t] == Idle
    requires Lists(s.chain, Drain(s, t).loc, Drained(t))
    ensures ThreadsOk(Drain(s, t))
  {
    var s' := Drain(s, t);
    assert forall i: nat {:trigger s'.loc[i]} {:trigger s.loc[i]} :: i < |s.loc| ==>
      s'.loc[i] == if s.loc[i] == Remote then Drained(t) else s.loc[i];
    forall u: nat | u < |s'.ops| ensures ThreadOk(s', u, s'.ops[u]) {
      assert ThreadOk(s, u, s.ops[u]);
      if u != t {
        assert Lists(Rest(s.ops[u]), s'.loc, Drained(u));
        assert HeldOk(s', u, s.ops[u]);
      }
    }
  }

  lemma DrainNextKeeps(s: State, t: nat)
    requires Inv(s) && t < |s.ops| && s.ops[t].Draining? && s.ops[t].cursor != NULL_U16
    ensures s.ops[t].cursor < |s.words| && Inv(DrainNext(s, t))
    ensures s.ops[t].rest != [] && s.ops[t].cursor == s.ops[t].rest[0]
  {
    var rest := s.ops[t].rest;
    assert ThreadOk(s, t, s.ops[t]);
    var k := rest[0];
    ListsDropFirst(rest, s.loc, Drained(t), Freeing(t));
    LinkedTail(s.words, s.ops[t].cursor, rest, NULL_U16);
    var s' := DrainNext(s, t);
    ListsFrame(s.free, s.loc, Free, k, Freeing(t));
    ListsFrame(s.chain, s.loc, Remote, k, Freeing(t));
    assert s.words == s.words[k := s.words[k]];
    assert ThreadOk(s', t, s'.ops[t]);
    OtherThreads(s, s', k, Freeing(t), s.words[k], t);
  }

  lemma NullCursorMeansDone(s: State, t: nat, op: Op)
    requires Sized(s) && RestOk(s, t, op) && Cursor(op) == NULL_U16
    ensures Rest(op) == []
  {
    LinkedFirst(s.words, Cursor(op), Rest(op), NULL_U16);
  }

  lemma DrainEndKeeps(s: State, t: nat)
    requires Inv(s) && t < |s.ops| && s.ops[t].Draining? && s.ops[t].cursor == NULL_U16
    ensures Inv(DrainEnd(s, t)) && s.ops[t].rest == []
  {
    assert ThreadOk(s, t, s.ops[t]);
    NullCursorMeansDone(s, t, s.ops[t]);
    var s' := DrainEnd(s, t);
    assert ThreadOk(s', t, s'.ops[t]);
    forall u: nat | u < |s'.ops| ensures ThreadOk(s', u, s'.ops[u]) {
      assert ThreadOk(s, u, s.ops[u]);
    }
  }

  lemma ScribbleKeeps(s: State, slot: nat, v: nat)
    requires Inv(s) && slot < |s.loc| && s.loc[slot].Live?
    ensures Inv(Scribble(s, slot, v))
  {
    var s' := Scribble(s, slot, v);
    assert slot !in s.chain;
    LinkedFrame(s.words, s.head, s.chain, NULL_U16, slot, v);
    assert s.loc == s.loc[slot := s.loc[slot]];
    AllThreads(s, s', slot, s.loc[slot], v);
  }

  lemma MetaKeeps(s: State, w: nat, c: nat)
    requires Inv(s)
    ensures Inv(SetOwner(s, w)) && Inv(SetClass(s, c))
  {
    forall t: nat | t < |s.ops|
      ensures ThreadOk(SetOwner(s, w), t, s.ops[t]) && ThreadOk(SetClass(s, c), t, s.ops[t])
    {
      assert ThreadOk(s, t, s.ops[t]);
    }
  }

  lemma FirstListed(xs: seq<nat>, loc: seq<Loc>, l: Loc)
    requires Lists(xs, loc, l) && xs != []
    ensures xs[0] < |loc| && loc[xs[0]] == l
  {
    assert xs[0] in xs;
  }

  lemma ListsEmpty(xs: seq<nat>, loc: seq<Loc>, l: Loc)
    requires Lists(xs, loc, l) && forall i: nat {:trigger loc[i]} :: i < |loc| ==> loc[i] != l
    ensures xs == []
  {
    if xs != [] { FirstListed(xs, loc, l); }
  }

  /** In a quiet slab the remote list is empty, no thread is pushing and no drain has anything left. */
  lemma QuietMeansNothingPending(s: State)
    requires Inv(s) && Quiet(s)
    ensures s.chain == [] && s.head == NULL_U16
    ensures forall t: nat {:trigger s.ops[t]} :: t < |s.ops| ==> Held(s.ops[t]) == None && Rest(s.ops[t]) == []
                                                                 && Cursor(s.ops[t]) == NULL_U16
  {
    ListsEmpty(s.chain, s.loc, Remote);
    forall t: nat | t < |s.ops|
      ensures Held(s.ops[t]) == None && Rest(s.ops[t]) == [] && Cursor(s.ops[t]) == NULL_U16
    {
      assert ThreadOk(s, t, s.ops[t]);
      ListsEmpty(Rest(s.ops[t]), s.loc, Drained(t));
    }
  }

  /** A new owner's reset of the remote head drops no freed slot: the head is null already. */
  lemma ClearHeadDropsNothing(s: State)
    requires Inv(s) && Quiet(s)
    ensures ClearHead(s) == s
  {
    QuietMeansNothingPending(s);
  }

  lemma DescendingLists(capacity: nat)
    ensures Lists(Descending(capacity), seq(capacity, _ => Free), Free)
  {
    var xs := Descending(capacity);
    forall i: nat ensures i in xs <==> i < capacity {
      if i < capacity { assert xs[capacity - i - 1] == i; }
    }
  }

  lemma ResetKeeps(s: State, capacity: nat, words: seq<nat>)
    requires Inv(s) && Quiet(s) && |words| == capacity <= NULL_U16
    ensures Inv(Reset(s, capacity, words)) && Quiet(Reset(s, capacity, words))
  {
    QuietMeansNothingPending(s);
    var s' := Reset(s, capacity, words);
    DescendingLists(capacity);
    assert Lists([], s'.loc, Remote);
    forall t: nat | t < |s'.ops| ensures ThreadOk(s', t, s'.ops[t]) {
      assert Held(s.ops[t]) == None && Rest(s.ops[t]) == [];
      assert ThreadOk(s, t, s.ops[t]);
      assert Lists([], s'.loc, Drained(t));
    }
  }

  /** The free stack is full exactly when nothing is outstanding: the test that retires a slab is exact. */
  lemma FullIffQuiet(s: State)
    requires Sized(s) && ListsOk(s)
    ensures |s.free| <= s.capacity
    ensures |s.free| == s.capacity <==> Quiet(s)
  {
    Pigeonhole(s.free, s.capacity);
  }

  /** A slot in a thread's hands leaves room for it in the free stack. */
  lemma RoomForHeld(s: State, t: nat)
    requires Inv(s) && t < |s.ops| && Held(s.ops[t]).Some?
    ensures |s.free| < s.capacity
  {
    assert ThreadOk(s, t, s.ops[t]);
    FullIffQuiet(s);
  }
}
