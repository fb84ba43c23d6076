/**
 * The freshness hypothesis is tight: a run in which exactly 2^32 head updates overtake one pop brings the
 * 32-bit generation round, the stale compare-and-exchange succeeds, and a slab ends up in two places.
 */
module GlobalFreeListAba {
  import opened Base
  import opened GlobalFreeList
  import opened GlobalFreeListRuns

  /** A valid run, whose own pops are all fresh, leads from `s` to `r`. */
  ghost predicate Reaches(s: State, r: State) {
    exists es: seq<Event> :: RunFromTo(s, es, r)
  }

  ghost predicate RunFromTo(s: State, es: seq<Event>, r: State) {
    Valid(s, es) && FreshRun(s, es) && (forall e :: e in es ==> e.tid < |s.ops|) && Exec(s, es) == r
  }

  lemma Stay(s: State)
    ensures Reaches(s, s)
  {
    assert RunFromTo(s, [], s);
  }

  /** One more step in front of a run. */
  lemma Cons(s: State, t: nat, a: Action, r: State)
    requires Enabled(s, t, a) && Fresh(s, t) && Reaches(Apply(s, t, a), r)
    ensures Reaches(s, r)
  {
    var m := Apply(s, t, a);
    var es :| RunFromTo(m, es, r);
    var fs := [Event(t, a)] + es;
    assert fs[1..] == es;
    assert RunFromTo(s, fs, r);
  }

  lemma {:induction false} Chain(s: State, es: seq<Event>, m: State, r: State)
    requires RunFromTo(s, es, m) && Reaches(m, r)
    ensures Reaches(s, r)
    decreases |es|
  {
    if es != [] {
      var n := Apply(s, es[0].tid, es[0].act);
      assert RunFromTo(n, es[1..], m);
      Chain(n, es[1..], m, r);
      Cons(s, es[0].tid, es[0].act, r);
    }
  }

  lemma Trans(s: State, m: State, r: State)
    requires Reaches(s, m) && Reaches(m, r)
    ensures Reaches(s, r)
  {
    var es :| RunFromTo(s, es, m);
    Chain(s, es, m, r);
  }

  /** The state after an undisturbed pop by thread `t`. */
  function AfterPop(s: State): State
    requires s.stack != [] && s.stack[0] < |s.links|
  {
    s.(head := PackIndex((s.version + 1) % TWO_32, Base.At(s.stack, 1, NULL_U32)),
       links := s.links[s.stack[0] := NULL_U32],
       version := s.version + 1,
       stack := s.stack[1..])
  }

  /** The state after an undisturbed push of slab `i`. */
  function AfterPush(s: State, i: nat): State
    requires i < |s.links|
  {
    s.(head := PackIndex((s.version + 1) % TWO_32, i),
       links := s.links[i := Index(s.head)],
       version := s.version + 1,
       stack := [i] + s.stack)
  }

  /** One step, kept well formed. */
  lemma Step(s: State, t: nat, a: Action)
    requires Inv(s) && Enabled(s, t, a) && Fresh(s, t)
    ensures Inv(Apply(s, t, a)) && Reaches(s, Apply(s, t, a))
  {
    StepKeepsInv(s, t, a);
    Stay(Apply(s, t, a));
    Cons(s, t, a, Apply(s, t, a));
  }

  /** The first half of a pop, up to its compare-and-exchange. */
  lemma SoloPopLoads(s: State, t: nat)
    requires Inv(s) && t < |s.ops| && s.ops[t] == Idle && s.stack != []
    ensures s.stack[0] < |s.links|
    ensures var m := s.At(t, PopSwap(s.head, s.links[s.stack[0]], s.version)); Reaches(s, m) && Inv(m)
  {
    hide Reaches;
    StackTop(s);
    LinkedFirst(s.links, Index(s.head), s.stack, NULL_U32);
    var s1 := Apply(s, t, CallPop);
    Step(s, t, CallPop);
    var s2 := Apply(s1, t, Continue);
    assert s2 == s.At(t, PopNext(s.head, s.version)) by { assert s2.ops == s.ops[t := PopNext(s.head, s.version)]; }
    Step(s1, t, Continue);
    var s3 := Apply(s2, t, Continue);
    Step(s2, t, Continue);
    Trans(s1, s2, s3);
    Trans(s, s1, s3);
    assert s3.ops == s.ops[t := PopSwap(s.head, s.links[s.stack[0]], s.version)];
  }

  lemma SoloPop(s: State, t: nat)
    requires Inv(s) && t < |s.ops| && s.ops[t] == Idle && s.stack != []
    ensures s.stack[0] < |s.links|
    ensures Reaches(s, AfterPop(s)) && Inv(AfterPop(s))
  {
    hide Reaches;
    SoloPopLoads(s, t);
    var s3 := s.At(t, PopSwap(s.head, s.links[s.stack[0]], s.version));
    SoloPopSwaps(s, t, s3);
    Trans(s, s3, AfterPop(s));
  }

  lemma SoloPopSwaps(s: State, t: nat, s3: State)
    requires Inv(s) && t < |s.ops| && s.ops[t] == Idle && s.stack != [] && s.stack[0] < |s.links|
    requires s3 == s.At(t, PopSwap(s.head, s.links[s.stack[0]], s.version)) && Inv(s3)
    ensures Reaches(s3, AfterPop(s)) && Inv(AfterPop(s))
  {
    hide Reaches;
    StackTop(s);
    NextGeneration(s.version);
    var s4 := AfterPop(s).(links := s.links).At(t, PopClear(s.stack[0]));
    assert Apply(s3, t, Continue) == s4 by {
      assert s3.ops[t := PopClear(s.stack[0])] == s.ops[t := PopClear(s.stack[0])];
      LinkedFirst(s.links, Index(s.head), s.stack, NULL_U32);
    }
    Step(s3, t, Continue);
    SoloPopClears(s, t, s4);
    Trans(s3, s4, AfterPop(s));
  }

  lemma SoloPopClears(s: State, t: nat, s4: State)
    requires t < |s.ops| && s.ops[t] == Idle && s.stack != [] && s.stack[0] < |s.links|
    requires s4 == AfterPop(s).(links := s.links).At(t, PopClear(s.stack[0])) && Inv(s4)
    ensures Reaches(s4, AfterPop(s)) && Inv(AfterPop(s))
  {
    hide Reaches;
    var s5 := AfterPop(s).At(t, Popped(s.stack[0]));
    assert Apply(s4, t, Continue) == s5 by {
      assert s4.ops[t := Popped(s.stack[0])] == s5.ops;
    }
    Step(s4, t, Continue);
    var s6 := AfterPop(s);
    assert Apply(s5, t, Return) == s6 by {
      assert s5.ops[t := Idle] == s.ops;
    }
    Step(s5, t, Return);
    Trans(s4, s5, s6);
  }

  lemma SoloPush(s: State, t: nat, i: nat)
    requires Inv(s) && t < |s.ops| && s.ops[t] == Idle && Outside(s, i)
    ensures Reaches(s, AfterPush(s, i)) && Inv(AfterPush(s, i))
  {
    hide Reaches;
    var s1 := Apply(s, t, CallPush(i));
    Step(s, t, CallPush(i));
    var s2 := Apply(s1, t, Continue);
    Step(s1, t, Continue);
    var s3 := Apply(s2, t, Continue);
    Step(s2, t, Continue);
    StackTop(s);
    NextGeneration(s.version);
    var s4 := Apply(s3, t, Continue);
    Step(s3, t, Continue);
    assert s4 == AfterPush(s, i) by { assert s4.ops == s.ops; }
    Trans(s2, s3, s4);
    Trans(s1, s2, s4);
    Trans(s, s1, s4);
  }

  /** Thread 0 is stalled before the compare-and-exchange of a pop of slab 0 that saw slab 1 below it. */
  const STALLED: Op := PopSwap(0, 1, 0)

  /** Thread 0 stalled, slab 0 alone on the list, slabs 1 and 2 outside, `v` updates so far. */
  ghost predicate Alone(s: State, v: nat) {
    && Inv(s) && s.ops == [STALLED, Idle] && |s.links| == 3
    && s.stack == [0] && s.version == v
  }

  /** Thread 1 takes slab 0 and puts it back: two more updates, the same list. */
  lemma Bounce(s: State, v: nat)
    requires Alone(s, v)
    ensures exists r: State :: Reaches(s, r) && Alone(r, v + 2)
  {
    hide Reaches;
    SoloPop(s, 1);
    var m := AfterPop(s);
    assert Outside(m, 0);
    SoloPush(m, 1, 0);
    var r := AfterPush(m, 0);
    Trans(s, m, r);
    assert r.stack == [0];
    assert Alone(r, v + 2);
  }

  lemma {:induction false} BounceMany(s: State, v: nat, k: nat)
    requires Alone(s, v)
    ensures exists r: State :: Reaches(s, r) && Alone(r, v + 2 * k)
    decreases k
  {
    hide Reaches;
    if k == 0 {
      Stay(s);
    } else {
      Bounce(s, v);
      var m :| Reaches(s, m) && Alone(m, v + 2);
      BounceMany(m, v + 2, k - 1);
      var r :| Reaches(m, r) && Alone(r, v + 2 + 2 * (k - 1));
      Trans(s, m, r);
    }
  }

  /** Thread 0 begins a pop of slab 0 and stalls with its successor, slab 1, in hand. */
  lemma Stall()
    ensures var s0 := Initial(3, 2);
            exists s: State :: Reaches(s0, s) && Inv(s) && s.ops == [STALLED, Idle]
                               && |s.links| == 3 && s.stack == [0, 1, 2] && s.version == 0
  {
    hide Reaches;
    var s0 := Initial(3, 2);
    InitialInv(3, 2);
    PackUnpack(0, 0);
    var s1 := Apply(s0, 0, CallPop);
    Step(s0, 0, CallPop);
    var s2 := Apply(s1, 0, Continue);
    Step(s1, 0, Continue);
    var s3 := Apply(s2, 0, Continue);
    Step(s2, 0, Continue);
    Trans(s1, s2, s3);
    Trans(s0, s1, s3);
    assert s3.ops == [STALLED, Idle];
    assert s3.stack == [0, 1, 2];
  }

  /** Thread 1 takes slabs 0 and 1, returns 0, takes 0 and 2, returns 0: six updates. */
  lemma Shuffle(s: State)
    requires Inv(s) && s.ops == [STALLED, Idle] && |s.links| == 3 && s.stack == [0, 1, 2] && s.version == 0
    ensures exists r: State :: Reaches(s, r) && Alone(r, 6)
  {
    hide Reaches;
    SoloPop(s, 1);
    var s1 := AfterPop(s);
    assert s1.stack == [1, 2];
    SoloPop(s1, 1);
    var s2 := AfterPop(s1);
    assert s2.stack == [2];
    assert Outside(s2, 0);
    SoloPush(s2, 1, 0);
    var s3 := AfterPush(s2, 0);
    assert s3.stack == [0, 2];
    SoloPop(s3, 1);
    var s4 := AfterPop(s3);
    assert s4.stack == [2];
    SoloPop(s4, 1);
    var s5 := AfterPop(s4);
    assert s5.stack == [];
    assert Outside(s5, 0);
    SoloPush(s5, 1, 0);
    var s6 := AfterPush(s5, 0);
    assert s6.stack == [0];
    Trans(s4, s5, s6);
    Trans(s3, s4, s6);
    Trans(s2, s3, s6);
    Trans(s1, s2, s6);
    Trans(s, s1, s6);
    assert Alone(s6, 6);
  }

  /** Once 2^32 updates have gone by, the head word is again the one thread 0 saw. */
  lemma StaleSwapSucceeds(s: State)
    requires Alone(s, TWO_32)
    ensures s.head == 0
    ensures Outside(s, 1)
    ensures Index(Apply(s, 0, Continue).head) == 1
    ensures !Inv(Apply(s, 0, Continue))
  {
    StackTop(s);
    UnpackPack(s.head);
    PackUnpack(1, 1);
    var s' := Apply(s, 0, Continue);
    assert s'.stack == [];
  }

  /**
   * From the initial state of three slabs and two threads, a valid run reaches a state in which thread 0's
   * pending pop is exactly 2^32 updates old and its compare-and-exchange nevertheless succeeds, putting
   * slab 1 at the head of the list while thread 1 still holds it.
   */
  lemma WrappedGenerationBreaksPop()
    ensures exists s: State :: Reaches(Initial(3, 2), s) && BreaksNext(s)
  {
    hide Reaches;
    Stall();
    var a :| Reaches(Initial(3, 2), a) && Inv(a) && a.ops == [STALLED, Idle]
             && |a.links| == 3 && a.stack == [0, 1, 2] && a.version == 0;
    Shuffle(a);
    var b :| Reaches(a, b) && Alone(b, 6);
    var k: nat := 0x7FFF_FFFD;
    BounceMany(b, 6, k);
    var s :| Reaches(b, s) && Alone(s, 6 + 2 * k);
    Trans(a, b, s);
    Trans(Initial(3, 2), a, s);
    StaleSwapSucceeds(s);
    assert BreaksNext(s);
  }

  /** Thread 0's next access succeeds 2^32 updates late and leaves slab 1 both on the list and outside it. */
  ghost predicate BreaksNext(s: State) {
    && Inv(s) && |s.ops| == 2
    && s.ops[0] == STALLED && s.version - s.ops[0].ver == TWO_32
    && EffectOf(s, 0, Continue) == Took(0)
    && Outside(s, 1)
    && Index(Apply(s, 0, Continue).head) == 1
    && !Inv(Apply(s, 0, Continue))
  }

  // ----- the bound, exactly

  /** When a pop of the run reaches its exchange, fewer than `b` updates have happened since its load. */
  ghost predicate WithinRun(s: State, es: seq<Event>, b: nat)
    decreases |es|
  {
    es == [] ||
    (es[0].tid < |s.ops|
     && (s.ops[es[0].tid].PopSwap? ==> s.version - s.ops[es[0].tid].ver < b)
     && WithinRun(Apply(s, es[0].tid, es[0].act), es[1..], b))
  }

  /** Every run within the bound, of any number of slabs and threads, keeps the list well formed. */
  ghost predicate SafeBound(b: nat) {
    forall slabs: nat, threads: nat, es: seq<Event> {:trigger RunWithin(slabs, threads, es, b)} ::
      RunWithin(slabs, threads, es, b) ==> Inv(Exec(Initial(slabs, threads), es))
  }

  ghost predicate RunWithin(slabs: nat, threads: nat, es: seq<Event>, b: nat) {
    && 0 < slabs < NULL_U32
    && (forall e :: e in es ==> e.tid < threads)
    && Valid(Initial(slabs, threads), es) && WithinRun(Initial(slabs, threads), es, b)
  }

  lemma {:induction false} WithinMeansFresh(s: State, es: seq<Event>, b: nat)
    requires WithinRun(s, es, b) && b <= TWO_32
    ensures FreshRun(s, es)
    decreases |es|
  {
    if es != [] { WithinMeansFresh(Apply(s, es[0].tid, es[0].act), es[1..], b); }
  }

  /** A fresh run with one more event that comes 2^32 updates late is within any larger bound. */
  lemma {:induction false} OneLateEvent(s: State, es: seq<Event>, r: State, t: nat, b: nat)
    requires RunFromTo(s, es, r) && Enabled(r, t, Continue) && b > TWO_32
    requires r.ops[t].PopSwap? ==> r.version - r.ops[t].ver <= TWO_32
    ensures var fs := es + [Event(t, Continue)];
      && Valid(s, fs) && WithinRun(s, fs, b) && (forall e :: e in fs ==> e.tid < |s.ops|)
      && Exec(s, fs) == Apply(r, t, Continue)
    decreases |es|
  {
    var fs := es + [Event(t, Continue)];
    if es != [] {
      var m := Apply(s, es[0].tid, es[0].act);
      assert es[0] in es;
      assert RunFromTo(m, es[1..], r);
      OneLateEvent(m, es[1..], r, t, b);
      assert fs[1..] == es[1..] + [Event(t, Continue)];
    } else {
      assert fs == [Event(t, Continue)];
      assert fs[1..] == [];
    }
  }

  /** 2^32 is the exact bound: with at most that the list is safe in every run, with any more in not all of them. */
  lemma BoundIsSafeIff(b: nat)
    ensures SafeBound(b) <==> b <= TWO_32
  {
    if b <= TWO_32 {
      forall slabs: nat, threads: nat, es: seq<Event> | RunWithin(slabs, threads, es, b)
        ensures Inv(Exec(Initial(slabs, threads), es))
      {
        InitialInv(slabs, threads);
        WithinMeansFresh(Initial(slabs, threads), es, b);
        RunKeepsInv(Initial(slabs, threads), es);
      }
    } else {
      LateRun(b);
    }
  }

  lemma LateRun(b: nat)
    requires b > TWO_32
    ensures !SafeBound(b)
  {
    WrappedGenerationBreaksPop();
    var s :| Reaches(Initial(3, 2), s) && BreaksNext(s);
    var es :| RunFromTo(Initial(3, 2), es, s);
    OneLateEvent(Initial(3, 2), es, s, 0, b);
    assert RunWithin(3, 2, es + [Event(0, Continue)], b);
  }
}
