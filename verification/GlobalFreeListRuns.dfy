/** Whole runs of the global free list: safety, refinement of an abstract stack, and lock-free progress. */
module GlobalFreeListRuns {
  import opened Base
  import opened GlobalFreeList

  datatype Event = Event(tid: nat, act: Action)

  lemma InitialInv(slabs: nat, threads: nat)
    requires 0 < slabs < NULL_U32
    ensures Inv(Initial(slabs, threads))
  {
    var s := Initial(slabs, threads);
    PackUnpack(0, 0);
    assert forall k: nat :: k < |s.stack| ==> LinkAt(s.links, s.stack, k, NULL_U32);
  }

  ghost predicate Valid(s: State, es: seq<Event>)
    decreases |es|
  {
    es == [] || (Enabled(s, es[0].tid, es[0].act) && Valid(Apply(s, es[0].tid, es[0].act), es[1..]))
  }

  function Exec(s: State, es: seq<Event>): (r: State)
    requires forall e :: e in es ==> e.tid < |s.ops|
    ensures |r.ops| == |s.ops| && |r.links| == |s.links|
    decreases |es|
  {
    if es == [] then s
    else
      assert es[0] in es;
      Exec(Apply(s, es[0].tid, es[0].act), es[1..])
  }

  ghost predicate FreshRun(s: State, es: seq<Event>)
    decreases |es|
  {
    es == [] ||
    (es[0].tid < |s.ops| && Fresh(s, es[0].tid) && FreshRun(Apply(s, es[0].tid, es[0].act), es[1..]))
  }

  lemma {:induction false} ValidTids(s: State, es: seq<Event>)
    requires Valid(s, es)
    ensures forall e :: e in es ==> e.tid < |s.ops|
    decreases |es|
  {
    if es != [] {
      ValidTids(Apply(s, es[0].tid, es[0].act), es[1..]);
      assert es == [es[0]] + es[1..];
    }
  }

  /** Every interleaving whose pops are fresh stays well formed; no list access is ever out of bounds. */
  lemma {:induction false} RunKeepsInv(s: State, es: seq<Event>)
    requires Inv(s) && Valid(s, es) && FreshRun(s, es)
    ensures forall e :: e in es ==> e.tid < |s.ops|
    ensures Inv(Exec(s, es))
    ensures forall t: nat :: t < |s.ops| ==> Exec(s, es).ops[t] != Panicked
    decreases |es|
  {
    ValidTids(s, es);
    if es == [] {
      assert forall t: nat :: t < |s.ops| ==> OpOk(s, s.ops[t]);
    } else {
      StepKeepsInv(s, es[0].tid, es[0].act);
      RunKeepsInv(Apply(s, es[0].tid, es[0].act), es[1..]);
    }
  }

  // ----- refinement, stated on the shared words alone

  /** The head word and the links, read from shared memory, spell the list `xs`. */
  ghost predicate Spells(s: State, xs: seq<nat>) {
    NoDup(xs) && Linked(s.links, Index(s.head), xs, NULL_U32)
  }

  /**
   * Each step of a fresh interleaving is a push, a pop or a stutter of the list spelled in shared memory:
   * a pop removes the slab it returns from the top and installs the true successor. The words spell exactly one
   * list before the step and exactly one after it.
   */
  lemma StepRefinesStack(s: State, t: nat, a: Action) returns (xs: seq<nat>, ys: seq<nat>)
    requires Inv(s) && Enabled(s, t, a) && Fresh(s, t)
    ensures Spells(s, xs) && forall zs: seq<nat> :: Spells(s, zs) ==> zs == xs
    ensures Spells(Apply(s, t, a), ys) && forall zs: seq<nat> :: Spells(Apply(s, t, a), zs) ==> zs == ys
    ensures match EffectOf(s, t, a)
            case Nothing => ys == xs
            case Pushed(i) => ys == [i] + xs && i !in xs
            case Took(i) => xs == [i] + ys && i !in ys
  {
    StepKeepsInv(s, t, a);
    var s' := Apply(s, t, a);
    xs, ys := s.stack, s'.stack;
    SpellsOnly(s);
    SpellsOnly(s');
    if a == Continue && s.ops[t].PopSwap? && s.head == s.ops[t].seen {
      PopTakesTop(s, t);
      assert s.stack == [s.stack[0]] + s.stack[1..];
    }
    if a == Continue && s.ops[t].PushSwap? {
      assert Carried(s.ops[t]).Some?;
    }
  }

  /** The words of a well-formed list spell one sequence, the stack, and no other. */
  lemma SpellsOnly(s: State)
    requires Inv(s)
    ensures Spells(s, s.stack) && forall zs: seq<nat> :: Spells(s, zs) ==> zs == s.stack
  {
    forall zs: seq<nat> | Spells(s, zs) ensures zs == s.stack {
      LinkedUnique(s.links, Index(s.head), zs, s.stack, NULL_U32);
    }
  }

  /** `pop` answers None exactly when the list is empty at the step that reads the head. */
  lemma PopFailsIffEmpty(s: State, t: nat, xs: seq<nat>)
    requires Inv(s) && t < |s.ops| && s.ops[t] == PopStart && Spells(s, xs)
    ensures Advance(s, t).ops[t] == PopFailed <==> xs == []
    ensures Advance(s, t).ops[t] != PopFailed ==> Advance(s, t).ops[t] == PopNext(s.head, s.version)
  {
    StackTop(s);
    LinkedUnique(s.links, Index(s.head), xs, s.stack, NULL_U32);
    LinkedFirst(s.links, Index(s.head), s.stack, NULL_U32);
  }

  ghost predicate SoleCarrier(s: State, t: nat, i: nat) {
    && t < |s.ops| && Carried(s.ops[t]) == Some(i)
    && forall u: nat :: u < |s.ops| && u != t ==> Carried(s.ops[u]) != Some(i)
  }

  /** In every well-formed state a slab is on the list, carried by exactly one thread, or outside: never two. */
  lemma OnePlace(s: State, i: nat)
    requires Inv(s) && i < |s.links|
    ensures i in s.stack ==> !Outside(s, i) && forall t: nat :: t < |s.ops| ==> Carried(s.ops[t]) != Some(i)
    ensures i !in s.stack && !Outside(s, i) ==> exists t: nat :: SoleCarrier(s, t, i)
  {
    if i !in s.stack && !Outside(s, i) {
      var t: nat :| t < |s.ops| && Carried(s.ops[t]) == Some(i);
      forall u: nat | u < |s.ops| && u != t ensures Carried(s.ops[u]) != Some(i) {
        if u < t { assert Carried(s.ops[u]).Some? ==> Carried(s.ops[u]) != Carried(s.ops[t]); }
      }
      assert SoleCarrier(s, t, i);
    }
  }

  // ----- lock-free progress, with no freshness hypothesis

  predicate Loaded(op: Op) {
    op.PushLink? || op.PushSwap? || op.PopNext? || op.PopSwap?
  }

  /** The unconditional half of the invariant: nothing changed since the load means the head is the one seen. */
  ghost predicate Seen(s: State) {
    forall t: nat :: t < |s.ops| && Loaded(s.ops[t]) ==>
      s.ops[t].ver <= s.version && (s.ops[t].ver == s.version ==> s.ops[t].seen == s.head)
  }

  lemma StepKeepsSeen(s: State, t: nat, a: Action)
    requires Seen(s) && Enabled(s, t, a)
    ensures Seen(Apply(s, t, a))
  {
  }

  predicate AtSwap(op: Op) {
    op.PushSwap? || op.PopSwap?
  }

  predicate Fails(s: State, t: nat, a: Action) {
    t < |s.ops| && a == Continue && AtSwap(s.ops[t]) && s.head != s.ops[t].seen
  }

  predicate Wins(s: State, t: nat, a: Action) {
    t < |s.ops| && a == Continue && AtSwap(s.ops[t]) && s.head == s.ops[t].seen
  }

  /** How many compare-and-exchanges of thread `t` fail during a run. */
  ghost function Failures(s: State, es: seq<Event>, t: nat): nat
    requires Valid(s, es)
    decreases |es|
  {
    if es == [] then 0
    else (if es[0].tid == t && Fails(s, t, es[0].act) then 1 else 0)
         + Failures(Apply(s, es[0].tid, es[0].act), es[1..], t)
  }

  /** How many successful head updates the other threads make during a run. */
  ghost function OthersWins(s: State, es: seq<Event>, t: nat): nat
    requires Valid(s, es)
    decreases |es|
  {
    if es == [] then 0
    else (if es[0].tid != t && Wins(s, es[0].tid, es[0].act) then 1 else 0)
         + OthersWins(Apply(s, es[0].tid, es[0].act), es[1..], t)
  }

  /** Updates that have overtaken the thread's current attempt. */
  ghost function Overtaken(s: State, t: nat): nat
    requires Seen(s) && t < |s.ops|
  {
    if Loaded(s.ops[t]) then s.version - s.ops[t].ver else 0
  }

  lemma OvertakenStep(s: State, e: Event, t: nat)
    requires Seen(s) && t < |s.ops| && Enabled(s, e.tid, e.act)
    ensures Seen(Apply(s, e.tid, e.act))
    ensures (if e.tid == t && Fails(s, t, e.act) then 1 else 0) + Overtaken(Apply(s, e.tid, e.act), t)
            <= (if e.tid != t && Wins(s, e.tid, e.act) then 1 else 0) + Overtaken(s, t)
  {
    StepKeepsSeen(s, e.tid, e.act);
  }

  /**
   * Lock freedom as a count: over any run and any schedule, a thread's failed attempts are bounded by the
   * other threads' successful updates, plus those that had already overtaken its attempt at the start.
   */
  lemma {:induction false} FailuresBounded(s: State, es: seq<Event>, t: nat)
    requires Seen(s) && t < |s.ops| && Valid(s, es)
    ensures Failures(s, es, t) <= OthersWins(s, es, t) + Overtaken(s, t)
    decreases |es|
  {
    if es != [] {
      OvertakenStep(s, es[0], t);
      FailuresBounded(Apply(s, es[0].tid, es[0].act), es[1..], t);
    }
  }

  /** Over a run, the updates that overtake an attempt are the other threads'. */
  lemma {:induction false} OvertakenByOthers(s: State, es: seq<Event>, t: nat)
    requires Seen(s) && t < |s.ops| && Valid(s, es)
    ensures forall e :: e in es ==> e.tid < |s.ops|
    ensures Seen(Exec(s, es)) && Overtaken(Exec(s, es), t) <= OthersWins(s, es, t) + Overtaken(s, t)
    decreases |es|
  {
    ValidTids(s, es);
    if es != [] {
      OvertakenStep(s, es[0], t);
      OvertakenByOthers(Apply(s, es[0].tid, es[0].act), es[1..], t);
    }
  }

  /**
   * A failed exchange means another thread updated the head since this attempt's load: of any run that begins
   * before that load and ends at the failure, at least one event is another thread's successful exchange.
   */
  lemma FailureMeansOvertaken(s: State, es: seq<Event>, t: nat)
    requires Seen(s) && t < |s.ops| && !Loaded(s.ops[t]) && Valid(s, es)
    requires (forall e :: e in es ==> e.tid < |s.ops|) && Fails(Exec(s, es), t, Continue)
    ensures OthersWins(s, es, t) >= 1
  {
    OvertakenByOthers(s, es, t);
  }

  /** An operation that starts now retries at most once per update the other threads make meanwhile. */
  lemma RetriesBounded(s: State, es: seq<Event>, t: nat)
    requires Seen(s) && t < |s.ops| && s.ops[t] == Idle && Valid(s, es)
    ensures Failures(s, es, t) <= OthersWins(s, es, t)
  {
    FailuresBounded(s, es, t);
  }

  // ----- what a call's answer says about its run

  /** At some event of the run thread `t` takes slab `i`, which is then the top of the list. */
  ghost predicate TakesTop(s: State, es: seq<Event>, t: nat, i: nat)
    requires Valid(s, es)
    decreases |es|
  {
    es != [] &&
    ((es[0].tid == t && EffectOf(s, t, es[0].act) == Took(i) && s.stack != [] && s.stack[0] == i)
     || TakesTop(Apply(s, es[0].tid, es[0].act), es[1..], t, i))
  }

  /** At some event of the run thread `t` puts slab `i`, which is on no list, on top. */
  ghost predicate PutsOnTop(s: State, es: seq<Event>, t: nat, i: nat)
    requires Valid(s, es)
    decreases |es|
  {
    es != [] &&
    ((es[0].tid == t && EffectOf(s, t, es[0].act) == Pushed(i) && i !in s.stack)
     || PutsOnTop(Apply(s, es[0].tid, es[0].act), es[1..], t, i))
  }

  /** At some event of the run thread `t` reads the head of an empty list. */
  ghost predicate ReadsEmpty(s: State, es: seq<Event>, t: nat)
    requires Valid(s, es)
    decreases |es|
  {
    es != [] &&
    ((es[0].tid == t && es[0].act == Continue && s.ops[t] == PopStart && s.stack == [])
     || ReadsEmpty(Apply(s, es[0].tid, es[0].act), es[1..], t))
  }

  /** A slab that a pop returns in a fresh run was the top of the list when the pop took it. */
  lemma {:induction false} PoppedWasTop(s: State, es: seq<Event>, t: nat, i: nat)
    requires Inv(s) && Valid(s, es) && FreshRun(s, es) && t < |s.ops| && s.ops[t] != PopClear(i) && s.ops[t] != Popped(i)
    requires (forall e :: e in es ==> e.tid < |s.ops|) && Exec(s, es).ops[t] == Popped(i)
    ensures TakesTop(s, es, t, i)
    decreases |es|
  {
    var s1 := Apply(s, es[0].tid, es[0].act);
    StepKeepsInv(s, es[0].tid, es[0].act);
    if s1.ops[t] == PopClear(i) {
      PopTakesTop(s, t);
    } else {
      PoppedWasTop(s1, es[1..], t, i);
    }
  }

  /** A pop answers None in a fresh run only if the list was empty when it read the head. */
  lemma {:induction false} FailedSawEmpty(s: State, es: seq<Event>, t: nat)
    requires Inv(s) && Valid(s, es) && FreshRun(s, es) && t < |s.ops| && s.ops[t] != PopFailed
    requires (forall e :: e in es ==> e.tid < |s.ops|) && Exec(s, es).ops[t] == PopFailed
    ensures ReadsEmpty(s, es, t)
    decreases |es|
  {
    var s1 := Apply(s, es[0].tid, es[0].act);
    StepKeepsInv(s, es[0].tid, es[0].act);
    if s1.ops[t] == PopFailed {
      PopFailsIffEmpty(s, t, s.stack);
    } else {
      FailedSawEmpty(s1, es[1..], t);
    }
  }

  predicate Pushes(op: Op, i: nat) {
    (op.PushStart? || op.PushLink? || op.PushSwap?) && op.slab == i
  }

  /** A push that has returned in a fresh run put its slab on top of a list that did not hold it. */
  lemma {:induction false} PushedOnTop(s: State, es: seq<Event>, t: nat, i: nat)
    requires Inv(s) && Valid(s, es) && FreshRun(s, es) && t < |s.ops| && Pushes(s.ops[t], i)
    requires (forall e :: e in es ==> e.tid < |s.ops|) && Exec(s, es).ops[t] == Idle
    ensures PutsOnTop(s, es, t, i)
    decreases |es|
  {
    var s1 := Apply(s, es[0].tid, es[0].act);
    StepKeepsInv(s, es[0].tid, es[0].act);
    assert Carried(s.ops[t]) == Some(i);
    assert OpOk(s, s.ops[t]);
    if Pushes(s1.ops[t], i) {
      PushedOnTop(s1, es[1..], t, i);
    }
  }
}
