/**
 * Joining and leaving: a join claims the first worker index it finds free, and comes back without one only if it
 * found every index claimed; a drop releases exactly the index held.
 */
module AllocatorJoins {
  import opened Base
  import opened Address
  import opened Allocator
  import opened AllocatorInv
  import opened AllocatorRuns
  import Cleaning
  import Solo = CleaningAlone
  import Pool = GlobalFreeList
  import Lists = LocalLists
  import Slab

  // ----- one step of the claiming loop

  /** The next access of a handle looking at index `n` is one turn of the loop, and always possible. */
  lemma ClaimStep(cfg: Config, s: State, t: nat, n: nat, words: seq<nat>)
    requires Inv(cfg, s) && t < |s.agents| && s.agents[t] == Agent(NoHandle, Claiming(n))
    ensures Enabled(cfg, s, t, Continue(words)) && FreshStep(s, t, Continue(words))
    ensures Sized(cfg, s) && Apply(cfg, s, t, Continue(words)) == Claim(cfg, s, t, n)
  {
    OutsidePool(cfg, s, t, n);
    hide Pool.Inv, Lists.Inv, Slab.Inv, SlabOk, WorkerOk, AgentOk, ValidConfig, Claim;
    SlabSizeBound(cfg.slabSize);
  }

  lemma OutsidePool(cfg: Config, s: State, t: nat, n: nat)
    requires Inv(cfg, s) && t < |s.agents| && s.agents[t] == Agent(NoHandle, Claiming(n))
    ensures Sized(cfg, s) && s.pool.ops[t] == Pool.Idle
  {
    hide Pool.Inv, Lists.Inv, Slab.Inv, SlabOk, WorkerOk, ValidConfig;
    assert AgentOk(cfg, s, t);
  }

  // ----- a join among others

  /** Before every step of the run handle `t` is in the claiming loop. */
  ghost predicate Joining(cfg: Config, s: State, es: seq<Event>, t: nat)
    requires ValidConfig(cfg) && Valid(cfg, s, es)
    decreases |es|
  {
    es == [] || (t < |s.agents| && s.agents[t].pc.Claiming? && Joining(cfg, Apply(cfg, s, es[0].tid, es[0].act), es[1..], t))
  }

  /** The event tries to claim index `w` and finds its flag to be `flag`. */
  ghost predicate Tries(s: State, e: Event, t: nat, w: nat, flag: bool) {
    e.tid == t < |s.agents| && e.act.Continue? && s.agents[t].pc == Claiming(w) && w < |s.claimed| && s.claimed[w] == flag
  }

  /** Some event of the run does. */
  ghost predicate Tried(cfg: Config, s: State, es: seq<Event>, t: nat, w: nat, flag: bool)
    requires ValidConfig(cfg) && Valid(cfg, s, es)
    decreases |es|
  {
    es != [] && (Tries(s, es[0], t, w, flag) || Tried(cfg, Apply(cfg, s, es[0].tid, es[0].act), es[1..], t, w, flag))
  }

  /** How a join that stood at index `n` comes out, told by what it found at each index. */
  ghost predicate Outcome(cfg: Config, s: State, es: seq<Event>, t: nat, n: nat, h: Handle)
    requires ValidConfig(cfg) && Valid(cfg, s, es)
  {
    match h
    case NoHandle => forall w: nat :: n <= w < cfg.numWorkers ==> Tried(cfg, s, es, t, w, true)
    case Worker(v) =>
      && n <= v < cfg.numWorkers && Tried(cfg, s, es, t, v, false) && !Tried(cfg, s, es, t, v, true)
      && forall w: nat :: n <= w < v ==> Tried(cfg, s, es, t, w, true)
    case FreeOnly => false
  }

  lemma {:induction false} JoinTries(cfg: Config, s: State, es: seq<Event>, t: nat, n: nat)
    requires ValidConfig(cfg) && Inv(cfg, s) && Valid(cfg, s, es) && FreshRun(cfg, s, es) && Joining(cfg, s, es, t)
    requires t < |s.agents| && s.agents[t] == Agent(NoHandle, Claiming(n))
    requires t < |Exec(cfg, s, es).agents| && Exec(cfg, s, es).agents[t].pc == Idle
    ensures Outcome(cfg, s, es, t, n, Exec(cfg, s, es).agents[t].handle)
    decreases |es|
  {
    hide Inv, Apply, Enabled, FreshStep, Outcome;
    var e := es[0];
    var s1 := Apply(cfg, s, e.tid, e.act);
    StepKeepsInv(cfg, s, e.tid, e.act);
    if e.tid == t && e.act.Continue? {
      ClaimStep(cfg, s, t, n, e.act.words);
      TurnOf(cfg, s, t, n);
      if s1.agents[t].pc == Idle {
        assert es[1..] == [];
        LastTry(cfg, s, es, t, n);
      } else {
        JoinTries(cfg, s1, es[1..], t, n + 1);
        OwnTry(cfg, s, es, t, n);
      }
    } else {
      NotOwn(cfg, s, e, t);
      Cleaning.OthersKeepPc(cfg, s, e.tid, e.act, t);
      JoinTries(cfg, s1, es[1..], t, n);
      OthersTry(cfg, s, es, t, n);
    }
  }

  lemma NotOwn(cfg: Config, s: State, e: Event, t: nat)
    requires Enabled(cfg, s, e.tid, e.act) && t < |s.agents| && s.agents[t].pc.Claiming? && !(e.tid == t && e.act.Continue?)
    ensures e.tid != t || e.act.Write?
  {
  }

  /** What one turn of the loop does to the handle. */
  lemma TurnOf(cfg: Config, s: State, t: nat, n: nat)
    requires Sized(cfg, s) && t < |s.agents| && s.agents[t] == Agent(NoHandle, Claiming(n))
    ensures t < |Claim(cfg, s, t, n).agents|
    ensures Claim(cfg, s, t, n).agents[t] ==
      if n >= cfg.numWorkers then Agent(NoHandle, Idle)
      else if s.claimed[n] then Agent(NoHandle, Claiming(n + 1)) else Agent(Worker(n), Idle)
  {
  }

  lemma LastTry(cfg: Config, s: State, es: seq<Event>, t: nat, n: nat)
    requires ValidConfig(cfg) && Sized(cfg, s) && Valid(cfg, s, es) && |es| == 1 && es[0].tid == t && es[0].act.Continue?
    requires t < |s.agents| && s.agents[t] == Agent(NoHandle, Claiming(n)) && (n < cfg.numWorkers ==> !s.claimed[n])
    ensures Outcome(cfg, s, es, t, n, if n < cfg.numWorkers then Worker(n) else NoHandle)
  {
    hide Apply, Enabled;
    assert es[1..] == [];
    if n < cfg.numWorkers { FlagInRange(cfg, s, n); }
    hide Sized;
    if n < cfg.numWorkers {
      assert Tries(s, es[0], t, n, false) && !Tries(s, es[0], t, n, true);
      assert !Tried(cfg, Apply(cfg, s, t, es[0].act), es[1..], t, n, true);
      assert Tried(cfg, s, es, t, n, false) && !Tried(cfg, s, es, t, n, true);
    }
  }

  lemma OwnTry(cfg: Config, s: State, es: seq<Event>, t: nat, n: nat)
    requires ValidConfig(cfg) && Sized(cfg, s) && Valid(cfg, s, es) && es != [] && es[0].tid == t && es[0].act.Continue?
    requires t < |s.agents| && s.agents[t] == Agent(NoHandle, Claiming(n)) && n < cfg.numWorkers && s.claimed[n]
    ensures forall h :: Outcome(cfg, Apply(cfg, s, t, es[0].act), es[1..], t, n + 1, h) ==> Outcome(cfg, s, es, t, n, h)
  {
    hide Apply, Enabled, Sized;
    assert Tries(s, es[0], t, n, true) by { FlagInRange(cfg, s, n); }
    var s1 := Apply(cfg, s, t, es[0].act);
    assert forall w: nat, f: bool :: w != n ==> (Tried(cfg, s, es, t, w, f) <==> Tried(cfg, s1, es[1..], t, w, f));
  }

  lemma FlagInRange(cfg: Config, s: State, n: nat)
    requires Sized(cfg, s) && n < cfg.numWorkers
    ensures n < |s.claimed|
  {
  }

  lemma OthersTry(cfg: Config, s: State, es: seq<Event>, t: nat, n: nat)
    requires ValidConfig(cfg) && Valid(cfg, s, es) && es != [] && !(es[0].tid == t && es[0].act.Continue?)
    ensures forall h :: Outcome(cfg, Apply(cfg, s, es[0].tid, es[0].act), es[1..], t, n, h) ==> Outcome(cfg, s, es, t, n, h)
  {
    hide Apply, Enabled;
    var s1 := Apply(cfg, s, es[0].tid, es[0].act);
    assert forall w: nat, f: bool :: Tried(cfg, s, es, t, w, f) <==> Tried(cfg, s1, es[1..], t, w, f);
  }

  /**
   * Whatever the other handles do meanwhile, a join comes back without an index if and only if it found every one
   * claimed at the step that tried it; otherwise it claims the first index it found free, having found every smaller
   * one claimed.
   */
  lemma JoinFailsIffAllClaimed(cfg: Config, s: State, es: seq<Event>, t: nat)
    requires ValidConfig(cfg) && Reachable(cfg, s) && Enabled(cfg, s, t, Join)
    requires var s1 := Apply(cfg, s, t, Join);
      && Valid(cfg, s1, es) && FreshRun(cfg, s1, es) && Joining(cfg, s1, es, t)
      && t < |Exec(cfg, s1, es).agents| && Exec(cfg, s1, es).agents[t].pc == Idle
    ensures var s1 := Apply(cfg, s, t, Join);
      var h := Exec(cfg, s1, es).agents[t].handle;
      && (h == NoHandle || (h.Worker? && h.index < cfg.numWorkers))
      && (h == NoHandle <==> forall w: nat :: w < cfg.numWorkers ==> Tried(cfg, s1, es, t, w, true))
      && forall v: nat :: h == Worker(v) ==>
           Tried(cfg, s1, es, t, v, false) && forall w: nat :: w < v ==> Tried(cfg, s1, es, t, w, true)
  {
    ReachableInv(cfg, s);
    StepKeepsInv(cfg, s, t, Join);
    JoinStarts(cfg, s, t);
    hide Reachable, Inv, Apply, Enabled, Valid, FreshRun, Joining, Exec, Tried, Outcome;
    JoinTries(cfg, Apply(cfg, s, t, Join), es, t, 0);
    OutcomeDecides(cfg, Apply(cfg, s, t, Join), es, t, Exec(cfg, Apply(cfg, s, t, Join), es).agents[t].handle);
  }

  lemma OutcomeDecides(cfg: Config, s: State, es: seq<Event>, t: nat, h: Handle)
    requires ValidConfig(cfg) && Valid(cfg, s, es) && Outcome(cfg, s, es, t, 0, h)
    ensures h == NoHandle || (h.Worker? && h.index < cfg.numWorkers)
    ensures h == NoHandle <==> forall w: nat :: w < cfg.numWorkers ==> Tried(cfg, s, es, t, w, true)
    ensures forall v: nat :: h == Worker(v) ==>
              Tried(cfg, s, es, t, v, false) && forall w: nat :: w < v ==> Tried(cfg, s, es, t, w, true)
  {
    hide Tried, Valid, ValidConfig;
    if h.Worker? { assert !Tried(cfg, s, es, t, h.index, true); }
  }

  lemma JoinStarts(cfg: Config, s: State, t: nat)
    requires ValidConfig(cfg) && Enabled(cfg, s, t, Join)
    ensures Apply(cfg, s, t, Join) == s.Pc(t, Claiming(0)) && t < |s.agents|
    ensures Apply(cfg, s, t, Join).agents == s.agents[t := Agent(NoHandle, Claiming(0))]
  {
  }

  // ----- a join left alone

  /** Index `v` is the first from `n` on that is not claimed. */
  ghost predicate FirstFree(claimed: seq<bool>, n: nat, v: nat) {
    n <= v < |claimed| && !claimed[v] && forall w: nat :: n <= w < v ==> claimed[w]
  }

  /** Handle `t` has claimed index `v`, and nothing else has changed. */
  ghost function Holding(s: State, t: nat, v: nat): State
    requires t < |s.agents| && v < |s.claimed| && v < |s.holder|
  {
    s.(claimed := s.claimed[v := true], holder := s.holder[v := Some(t)], agents := s.agents[t := Agent(Worker(v), Idle)])
  }

  /** Handle `t` has none, and nothing else has changed. */
  ghost function Without(s: State, t: nat): State
    requires t < |s.agents|
  {
    s.(agents := s.agents[t := Agent(NoHandle, Idle)])
  }

  lemma {:induction false} LoopAlone(cfg: Config, s: State, t: nat, n: nat) returns (es: seq<Event>, v: Option<nat>)
    requires Inv(cfg, s) && t < |s.agents| && s.agents[t] == Agent(NoHandle, Claiming(n))
    ensures Sized(cfg, s) && Solo.Alone(es, t) && Valid(cfg, s, es) && FreshRun(cfg, s, es)
    ensures v == None ==> (forall w: nat :: n <= w < cfg.numWorkers ==> s.claimed[w]) && Exec(cfg, s, es) == Without(s, t)
    ensures v.Some? ==> FirstFree(s.claimed, n, v.value) && Exec(cfg, s, es) == Holding(s, t, v.value)
    decreases if n < cfg.numWorkers then cfg.numWorkers - n else 0
  {
    var turn := Event(t, Continue([]));
    ClaimStep(cfg, s, t, n, []);
    StepKeepsInv(cfg, s, t, Continue([]));
    var s1 := Apply(cfg, s, t, Continue([]));
    hide Inv, Apply, Enabled, FreshStep;
    if n < cfg.numWorkers && s.claimed[n] {
      assert s1 == s.Pc(t, Claiming(n + 1));
      var rest;
      rest, v := LoopAlone(cfg, s1, t, n + 1);
      es := [turn] + rest;
      assert es[1..] == rest;
      assert Without(s1, t) == Without(s, t);
      if v.Some? { assert Holding(s1, t, v.value) == Holding(s, t, v.value); }
    } else {
      es, v := [turn], if n < cfg.numWorkers then Some(n) else None;
      assert es[1..] == [];
      assert Exec(cfg, s, es) == s1;
    }
  }

  /**
   * From any reachable state a join left alone claims the first free index and changes nothing else; it comes back
   * without one, leaving the state as it was, if and only if there is none.
   */
  lemma JoinAlone(cfg: Config, s: State, t: nat) returns (es: seq<Event>, v: Option<nat>)
    requires ValidConfig(cfg) && Reachable(cfg, s) && Enabled(cfg, s, t, Join)
    ensures Sized(cfg, s) && Valid(cfg, s, es) && FreshRun(cfg, s, es)
    ensures es != [] && es[0] == Event(t, Join) && Solo.Alone(es[1..], t)
    ensures v == None <==> forall w: nat :: w < cfg.numWorkers ==> s.claimed[w]
    ensures v == None ==> Exec(cfg, s, es) == s
    ensures v.Some? ==> FirstFree(s.claimed, 0, v.value) && Exec(cfg, s, es) == Holding(s, t, v.value)
  {
    ReachableInv(cfg, s);
    StepKeepsInv(cfg, s, t, Join);
    JoinStarts(cfg, s, t);
    var s1 := Apply(cfg, s, t, Join);
    var rest;
    rest, v := LoopAlone(cfg, s1, t, 0);
    Nothing(cfg, s, t);
    hide Reachable, Inv, Apply, FreshStep;
    es := [Event(t, Join)] + rest;
    assert es[1..] == rest;
    if v.Some? { assert Holding(s1, t, v.value) == Holding(s, t, v.value); }
  }

  lemma Nothing(cfg: Config, s: State, t: nat)
    requires ValidConfig(cfg) && Enabled(cfg, s, t, Join)
    ensures t < |Apply(cfg, s, t, Join).agents| && Without(Apply(cfg, s, t, Join), t) == s
  {
    JoinStarts(cfg, s, t);
    assert s.agents[t := Agent(NoHandle, Idle)] == s.agents;
  }

  // ----- leaving

  /** The holder of an index releases it and nothing else; a free-only handle changes no shared word. */
  lemma DropReleases(cfg: Config, s: State, t: nat)
    requires ValidConfig(cfg) && Reachable(cfg, s) && Enabled(cfg, s, t, Drop)
    ensures Sized(cfg, s)
    ensures forall w: nat :: s.agents[t].handle == Worker(w) ==>
      && w < cfg.numWorkers && s.claimed[w] && s.holder[w] == Some(t)
      && Apply(cfg, s, t, Drop) == Without(s, t).(claimed := s.claimed[w := false], holder := s.holder[w := None])
    ensures s.agents[t].handle == FreeOnly ==> Apply(cfg, s, t, Drop) == Without(s, t)
  {
    ReachableInv(cfg, s);
    HeldIndex(cfg, s, t);
    hide Reachable, Inv;
  }

  lemma HeldIndex(cfg: Config, s: State, t: nat)
    requires Inv(cfg, s) && t < |s.agents|
    ensures Sized(cfg, s)
    ensures forall w: nat :: s.agents[t].handle == Worker(w) ==> w < cfg.numWorkers && s.claimed[w] && s.holder[w] == Some(t)
  {
    assert AgentOk(cfg, s, t);
    if s.agents[t].handle.Worker? { assert WorkerOk(cfg, s, s.agents[t].handle.index); }
  }

  /** An index is claimed exactly when a handle is bound to it, so a join left alone fails only when all are in use. */
  lemma ClaimedMeansHeld(cfg: Config, s: State, w: nat)
    requires ValidConfig(cfg) && Reachable(cfg, s) && w < cfg.numWorkers
    ensures Sized(cfg, s)
    ensures s.claimed[w] <==> exists t: nat :: t < |s.agents| && s.agents[t].handle == Worker(w)
  {
    ReachableInv(cfg, s);
    hide Reachable;
    assert WorkerOk(cfg, s, w);
    forall t: nat | t < |s.agents| && s.agents[t].handle == Worker(w) ensures s.claimed[w] { HeldIndex(cfg, s, t); }
    if s.claimed[w] { assert s.agents[s.holder[w].value].handle == Worker(w); }
  }

  /** Claiming an index and dropping it right away restores the state. */
  lemma JoinThenDrop(cfg: Config, s: State, t: nat) returns (es: seq<Event>)
    requires ValidConfig(cfg) && Reachable(cfg, s) && Enabled(cfg, s, t, Join) && !(forall w: nat :: w < |s.claimed| ==> s.claimed[w])
    ensures Valid(cfg, s, es) && FreshRun(cfg, s, es) && Enabled(cfg, Exec(cfg, s, es), t, Drop)
    ensures exists v: nat :: FirstFree(s.claimed, 0, v) && Exec(cfg, s, es).agents[t].handle == Worker(v)
    ensures Apply(cfg, Exec(cfg, s, es), t, Drop) == s
  {
    var v;
    es, v := JoinAlone(cfg, s, t);
    ReachableInv(cfg, s);
    FreeHasNoHolder(cfg, s, v.value);
    hide Reachable, Inv, Valid, FreshRun, Exec;
    var r := Holding(s, t, v.value);
    assert Enabled(cfg, r, t, Drop) by { StillSized(cfg, s, t, v.value); }
    assert s.claimed[v.value := true][v.value := false] == s.claimed;
    assert s.holder[v.value := Some(t)][v.value := None] == s.holder;
    assert r.agents[t := Agent(NoHandle, Idle)] == s.agents;
  }

  lemma FreeHasNoHolder(cfg: Config, s: State, v: nat)
    requires Inv(cfg, s) && v < |s.claimed| && !s.claimed[v]
    ensures v < |s.holder| && s.holder[v] == None && |s.claimed| == |s.holder| == cfg.numWorkers
  {
    assert WorkerOk(cfg, s, v);
  }

  lemma StillSized(cfg: Config, s: State, t: nat, v: nat)
    requires Sized(cfg, s) && t < |s.agents| && v < cfg.numWorkers
    ensures Sized(cfg, Holding(s, t, v))
  {
  }
}
