/**
 * The global free list: a stack of slab indices shared by all workers, whose head is one tagged
 * 64-bit word [generation | index] updated by compare-and-exchange.
 *
 * Every thread runs `push` and `pop` one atomic access at a time; `Advance` performs the next access
 * of one thread, so any interleaving is a sequence of `Advance` steps of various threads.
 * `version` and `stack` are history variables: no step branches on them.
 */
module GlobalFreeList {
  import opened Base

  // ----- the tagged head

  function PackIndex(gen: nat, index: nat): nat {
    gen * TWO_32 + index
  }

  function Generation(tagged: nat): nat {
    tagged / TWO_32
  }

  function Index(tagged: nat): nat {
    tagged % TWO_32
  }

  lemma PackUnpack(gen: nat, index: nat)
    requires gen < TWO_32 && index < TWO_32
    ensures Generation(PackIndex(gen, index)) == gen
    ensures Index(PackIndex(gen, index)) == index
    ensures PackIndex(gen, index) < TWO_64
  {
  }

  lemma UnpackPack(tagged: nat)
    ensures PackIndex(Generation(tagged), Index(tagged)) == tagged
  {
  }

  // ----- state

  /** Where a thread is inside `push` or `pop`. `seen` is the head word it loaded, `ver` the version then. */
  datatype Op =
    | Idle
    | PushStart(slab: nat)
    | PushLink(slab: nat, seen: nat, ver: nat)
    | PushSwap(slab: nat, seen: nat, ver: nat)
    | PopStart
    | PopNext(seen: nat, ver: nat)
    | PopSwap(seen: nat, next: nat, ver: nat)
    | PopClear(slab: nat)
    | Popped(slab: nat)
    | PopFailed
    | Panicked

  datatype State = State(
    head: nat,
    links: seq<nat>,
    ops: seq<Op>,
    version: nat,
    stack: seq<nat>)
  {
    /** The thread's operation becomes `op`. */
    function At(t: nat, op: Op): State
      requires t < |ops|
    {
      this.(ops := ops[t := op])
    }
  }

  /** The slab a thread holds because it is on its way into or out of the list. */
  function Carried(op: Op): Option<nat> {
    match op
    case PushStart(i) => Some(i)
    case PushLink(i, _, _) => Some(i)
    case PushSwap(i, _, _) => Some(i)
    case PopClear(i) => Some(i)
    case Popped(i) => Some(i)
    case _ => None
  }

  // ----- steps

  /** The next atomic access of thread `t`. */
  function Advance(s: State, t: nat): State
    requires t < |s.ops|
  {
    match s.ops[t]
    case PushStart(i) =>
      if i < |s.links| then s.At(t, PushLink(i, s.head, s.version)) else s.At(t, Panicked)
    case PushLink(i, seen, ver) =>
      if i < |s.links|
      then s.(links := s.links[i := Index(seen)]).At(t, PushSwap(i, seen, ver))
      else s.At(t, Panicked)
    case PushSwap(i, seen, ver) =>
      if s.head == seen
      then s.(head := PackIndex((Generation(seen) + 1) % TWO_32, i),
              version := s.version + 1,
              stack := [i] + s.stack).At(t, Idle)
      else s.At(t, PushStart(i))
    case PopStart =>
      if Index(s.head) == NULL_U32 then s.At(t, PopFailed) else s.At(t, PopNext(s.head, s.version))
    case PopNext(seen, ver) =>
      if Index(seen) < |s.links| then s.At(t, PopSwap(seen, s.links[Index(seen)], ver)) else s.At(t, Panicked)
    case PopSwap(seen, next, ver) =>
      if s.head == seen
      then s.(head := PackIndex((Generation(seen) + 1) % TWO_32, next),
              version := s.version + 1,
              stack := if s.stack == [] then [] else s.stack[1..]).At(t, PopClear(Index(seen)))
      else s.At(t, PopStart)
    case PopClear(i) =>
      if i < |s.links|
      then s.(links := s.links[i := NULL_U32]).At(t, Popped(i))
      else s.At(t, Panicked)
    case _ => s
  }

  /** What a thread may do next: call `push` or `pop`, take the returned value, or go on inside a call. */
  datatype Action = CallPush(slab: nat) | CallPop | Return | Continue

  ghost predicate Outside(s: State, i: nat) {
    && i < |s.links|
    && i !in s.stack
    && forall t: nat {:trigger s.ops[t]} :: t < |s.ops| ==> Carried(s.ops[t]) != Some(i)
  }

  ghost predicate Enabled(s: State, t: nat, a: Action) {
    && t < |s.ops|
    && match a
       case CallPush(i) => s.ops[t] == Idle && Outside(s, i)
       case CallPop => s.ops[t] == Idle
       case Return => s.ops[t].Popped? || s.ops[t] == PopFailed
       case Continue => s.ops[t] != Idle && !s.ops[t].Popped? && s.ops[t] != PopFailed
  }

  function Apply(s: State, t: nat, a: Action): State
    requires t < |s.ops|
  {
    match a
    case CallPush(i) => s.At(t, PushStart(i))
    case CallPop => s.At(t, PopStart)
    case Return => s.At(t, Idle)
    case Continue => Advance(s, t)
  }

  datatype Effect = Nothing | Pushed(slab: nat) | Took(slab: nat)

  /** What one step does to the abstract stack: only a successful compare-and-exchange changes it. */
  function EffectOf(s: State, t: nat, a: Action): Effect
    requires t < |s.ops|
  {
    if a == Continue && s.ops[t].PushSwap? && s.head == s.ops[t].seen then Pushed(s.ops[t].slab)
    else if a == Continue && s.ops[t].PopSwap? && s.head == s.ops[t].seen then Took(Index(s.ops[t].seen))
    else Nothing
  }

  // ----- the initial state

  /** The state `initialize` builds: slab 0 at the head, each node linked to the next, generation 0. */
  function Initial(slabs: nat, threads: nat): State
    requires 0 < slabs < NULL_U32
  {
    State(
      PackIndex(0, 0),
      seq(slabs, (i: nat) => if i == slabs - 1 then NULL_U32 else i + 1),
      seq(threads, _ => Idle),
      0,
      seq(slabs, (i: nat) => i))
  }

  // ----- invariant

  ghost predicate Ref(n: nat, i: nat) {
    i < n || i == NULL_U32
  }

  /** A loaded head word is as old as its version says, and is the current head if nothing changed since. */
  ghost predicate SeenOk(s: State, seen: nat, ver: nat) {
    && ver <= s.version
    && Generation(seen) == ver % TWO_32
    && (ver == s.version ==> seen == s.head)
  }

  ghost predicate OpOk(s: State, op: Op) {
    match op
    case PushStart(i) => i < |s.links|
    case PushLink(i, seen, ver) => i < |s.links| && SeenOk(s, seen, ver) && Ref(|s.links|, Index(seen))
    case PushSwap(i, seen, ver) =>
      i < |s.links| && SeenOk(s, seen, ver) && Ref(|s.links|, Index(seen)) && s.links[i] == Index(seen)
    case PopNext(seen, ver) => SeenOk(s, seen, ver) && Index(seen) < |s.links|
    case PopSwap(seen, next, ver) =>
      && SeenOk(s, seen, ver) && Index(seen) < |s.links| && Ref(|s.links|, next)
      && (ver == s.version ==> next == s.links[Index(seen)])
    case PopClear(i) => i < |s.links|
    case Popped(i) => i < |s.links|
    case Panicked => false
    case _ => true
  }

  ghost predicate StackOk(s: State) {
    && |s.links| <= NULL_U32
    && s.head == PackIndex(s.version % TWO_32, Base.At(s.stack, 0, NULL_U32))
    && NoDup(s.stack)
    && Linked(s.links, Index(s.head), s.stack, NULL_U32)
    && forall i: nat :: i < |s.links| ==> Ref(|s.links|, s.links[i])
  }

  ghost predicate OpsOk(s: State) {
    forall t: nat :: t < |s.ops| ==> OpOk(s, s.ops[t])
  }

  /** A slab in transit is with one thread only, and not on the list. */
  ghost predicate CarriedOk(s: State) {
    && (forall t: nat :: t < |s.ops| && Carried(s.ops[t]).Some? ==> Carried(s.ops[t]).value !in s.stack)
    && (forall t: nat, u: nat :: t < u < |s.ops| && Carried(s.ops[t]).Some? ==> Carried(s.ops[t]) != Carried(s.ops[u]))
  }

  ghost predicate Inv(s: State) {
    StackOk(s) && OpsOk(s) && CarriedOk(s)
  }

  /**
   * The only hypothesis: when a pop reaches its compare-and-exchange, fewer than 2^32 successful
   * updates have happened since it loaded the head, so the 32-bit generation has not come round.
   */
  predicate Fresh(s: State, t: nat) {
    t < |s.ops| && s.ops[t].PopSwap? ==> s.version - s.ops[t].ver < TWO_32
  }

  // ----- preservation

  lemma GenerationsAgree(v: nat, ver: nat)
    requires ver <= v < ver + TWO_32 && v % TWO_32 == ver % TWO_32
    ensures v == ver
  {
  }

  lemma StackTop(s: State)
    requires StackOk(s)
    ensures Index(s.head) == Base.At(s.stack, 0, NULL_U32)
    ensures Generation(s.head) == s.version % TWO_32
    ensures Ref(|s.links|, Index(s.head))
  {
    LinkedFirst(s.links, Index(s.head), s.stack, NULL_U32);
    PackUnpack(s.version % TWO_32, Base.At(s.stack, 0, NULL_U32));
  }

  lemma KeepOnLoad(s: State, t: nat)
    requires Inv(s) && t < |s.ops|
    requires s.ops[t].PushStart? || s.ops[t].PopStart? || s.ops[t].PopNext?
    ensures Inv(Advance(s, t))
  {
    StackTop(s);
    var s' := Advance(s, t);
    forall u: nat | u < |s'.ops| ensures OpOk(s', s'.ops[u]) {
      assert OpOk(s, s.ops[u]);
    }
  }

  /** A link store by the slab's carrier touches no node of the list and no node another push has linked. */
  lemma KeepOnStore(s: State, t: nat)
    requires Inv(s) && t < |s.ops|
    requires s.ops[t].PushLink? || s.ops[t].PopClear?
    ensures Inv(Advance(s, t))
  {
    var s' := Advance(s, t);
    var i := s.ops[t].slab;
    assert OpOk(s, s.ops[t]);
    assert Carried(s.ops[t]) == Some(i);
    LinkedFrame(s.links, Index(s.head), s.stack, NULL_U32, i, s'.links[i]);
    StackTop(s);
    forall u: nat | u < |s'.ops| ensures OpOk(s', s'.ops[u]) {
      assert OpOk(s, s.ops[u]);
      if u != t && s.ops[u].PopSwap? && s.ops[u].ver == s.version {
        assert s.stack != [] && Index(s.ops[u].seen) == s.stack[0];
      }
    }
  }

  lemma KeepOnPushSwap(s: State, t: nat)
    requires Inv(s) && t < |s.ops| && s.ops[t].PushSwap?
    ensures Inv(Advance(s, t))
  {
    var s' := Advance(s, t);
    var i := s.ops[t].slab;
    assert OpOk(s, s.ops[t]);
    assert Carried(s.ops[t]) == Some(i);
    StackTop(s);
    if s.head == s.ops[t].seen {
      LinkedCons(s.links, Index(s.head), s.stack, NULL_U32, i);
      NextGeneration(s.version);
      PackUnpack(s'.version % TWO_32, i);
    }
    forall u: nat | u < |s'.ops| ensures OpOk(s', s'.ops[u]) {
      assert OpOk(s, s.ops[u]);
    }
  }

  lemma NextGeneration(v: nat)
    ensures (v % TWO_32 + 1) % TWO_32 == (v + 1) % TWO_32
  {
  }

  /** A pop whose compare-and-exchange succeeds in time installs the true successor. */
  lemma PopTakesTop(s: State, t: nat)
    requires Inv(s) && Fresh(s, t) && t < |s.ops| && s.ops[t].PopSwap? && s.head == s.ops[t].seen
    ensures s.stack != [] && Index(s.ops[t].seen) == s.stack[0]
    ensures s.ops[t].next == Base.At(s.stack, 1, NULL_U32)
  {
    assert OpOk(s, s.ops[t]);
    StackTop(s);
    GenerationsAgree(s.version, s.ops[t].ver);
    LinkedFirst(s.links, Index(s.head), s.stack, NULL_U32);
  }

  lemma KeepOnFailedPop(s: State, t: nat)
    requires Inv(s) && t < |s.ops| && s.ops[t].PopSwap? && s.head != s.ops[t].seen
    ensures Inv(Advance(s, t))
  {
    var s' := Advance(s, t);
    forall u: nat | u < |s'.ops| ensures OpOk(s', s'.ops[u]) {
      assert OpOk(s, s.ops[u]);
    }
  }

  lemma PopKeepsStack(s: State, t: nat)
    requires Inv(s) && Fresh(s, t) && t < |s.ops| && s.ops[t].PopSwap? && s.head == s.ops[t].seen
    ensures StackOk(Advance(s, t))
  {
    var s' := Advance(s, t);
    PopTakesTop(s, t);
    LinkedTail(s.links, Index(s.head), s.stack, NULL_U32);
    NextGeneration(s.version);
    StackTop(s);
    assert s'.version % TWO_32 < TWO_32;
    assert Ref(|s.links|, s.ops[t].next) by { assert OpOk(s, s.ops[t]); }
    PackUnpack(s'.version % TWO_32, s.ops[t].next);
  }

  lemma PopKeepsCarried(s: State, t: nat)
    requires Inv(s) && Fresh(s, t) && t < |s.ops| && s.ops[t].PopSwap? && s.head == s.ops[t].seen
    ensures CarriedOk(Advance(s, t))
  {
    var s' := Advance(s, t);
    PopTakesTop(s, t);
    assert forall x :: x in s'.stack ==> x in s.stack;
    assert s.stack[0] in s.stack && s.stack[0] !in s'.stack;
    forall u: nat | u < |s.ops| && u != t && Carried(s.ops[u]).Some?
      ensures Carried(s.ops[u]).value !in s'.stack && Carried(s.ops[u]).value != s.stack[0]
    {
    }
  }

  lemma PopKeepsOps(s: State, t: nat)
    requires Inv(s) && t < |s.ops| && s.ops[t].PopSwap? && s.head == s.ops[t].seen
    ensures OpsOk(Advance(s, t))
  {
    var s' := Advance(s, t);
    forall u: nat | u < |s'.ops| ensures OpOk(s', s'.ops[u]) {
      assert OpOk(s, s.ops[u]);
    }
  }

  lemma KeepOnPopSwap(s: State, t: nat)
    requires Inv(s) && Fresh(s, t) && t < |s.ops| && s.ops[t].PopSwap?
    ensures Inv(Advance(s, t))
  {
    if s.head == s.ops[t].seen {
      PopKeepsStack(s, t);
      PopKeepsCarried(s, t);
      PopKeepsOps(s, t);
    } else {
      KeepOnFailedPop(s, t);
    }
  }

  lemma KeepOnCall(s: State, t: nat, a: Action)
    requires Inv(s) && Enabled(s, t, a) && a != Continue
    ensures Inv(Apply(s, t, a))
  {
    var s' := Apply(s, t, a);
    forall u: nat | u < |s'.ops| ensures OpOk(s', s'.ops[u]) {
      assert OpOk(s, s.ops[u]);
    }
  }

  /** One step of any thread keeps the list well formed. */
  lemma StepKeepsInv(s: State, t: nat, a: Action)
    requires Inv(s) && Enabled(s, t, a) && Fresh(s, t)
    ensures Inv(Apply(s, t, a))
  {
    if a != Continue {
      KeepOnCall(s, t, a);
    } else {
      assert OpOk(s, s.ops[t]);
      match s.ops[t]
      case PushStart(_) => KeepOnLoad(s, t);
      case PopStart => KeepOnLoad(s, t);
      case PopNext(_, _) => KeepOnLoad(s, t);
      case PushLink(_, _, _) => KeepOnStore(s, t);
      case PopClear(_) => KeepOnStore(s, t);
      case PushSwap(_, _, _) => KeepOnPushSwap(s, t);
      case PopSwap(_, _, _) => KeepOnPopSwap(s, t);
    }
  }
}
