/**
 * `push` and `pop` of the global free list as loops over the shared head and links, updated in place, with other
 * threads acting between any two accesses. Whatever they do, the loops perform a run of the step system.
 */
module GlobalFreeListCode {
  import opened Base
  import opened GlobalFreeList
  import opened GlobalFreeListRuns

  // ----- runs, put together at the end

  predicate Tids(es: seq<Event>, n: nat) {
    forall e :: e in es ==> e.tid < n
  }

  lemma {:induction false} ExecAppend(s: State, a: seq<Event>, b: seq<Event>)
    requires Tids(a, |s.ops|) && Tids(b, |s.ops|)
    ensures Tids(a + b, |s.ops|) && Exec(s, a + b) == Exec(Exec(s, a), b)
    decreases |a|
  {
    if a == [] {
      assert a + b == b;
    } else {
      assert a[0] in a && (a + b)[1..] == a[1..] + b;
      ExecAppend(Apply(s, a[0].tid, a[0].act), a[1..], b);
    }
  }

  /** Events of other threads only. */
  predicate Others(es: seq<Event>, t: nat, n: nat) {
    forall e :: e in es ==> e.tid < n && e.tid != t
  }

  predicate Schedule(env: seq<seq<Event>>, t: nat, n: nat) {
    forall es :: es in env ==> Others(es, t, n)
  }

  lemma {:induction false} OthersDoNothing(s: State, es: seq<Event>, t: nat)
    requires t < |s.ops| && Others(es, t, |s.ops|)
    ensures Exec(s, es).ops[t] == s.ops[t]
    decreases |es|
  {
    if es != [] {
      assert es[0] in es;
      OthersDoNothing(Apply(s, es[0].tid, es[0].act), es[1..], t);
    }
  }

  /** A valid run is valid in both its parts, and the failures of a thread add up. */
  lemma {:induction false} FailuresAppend(s: State, a: seq<Event>, b: seq<Event>, t: nat)
    requires Tids(a, |s.ops|) && Valid(s, a + b)
    ensures Valid(s, a) && Valid(Exec(s, a), b)
    ensures Failures(s, a + b, t) == Failures(s, a, t) + Failures(Exec(s, a), b, t)
    decreases |a|
  {
    if a == [] {
      assert a + b == b;
    } else {
      assert a[0] in a && (a + b)[0] == a[0] && (a + b)[1..] == a[1..] + b;
      FailuresAppend(Apply(s, a[0].tid, a[0].act), a[1..], b, t);
    }
  }

  lemma {:induction false} OthersFailElsewhere(s: State, es: seq<Event>, t: nat)
    requires Valid(s, es) && Others(es, t, |s.ops|)
    ensures Failures(s, es, t) == 0
    decreases |es|
  {
    if es != [] {
      assert es[0] in es;
      OthersFailElsewhere(Apply(s, es[0].tid, es[0].act), es[1..], t);
    }
  }

  // ----- one call under a schedule

  /** `n` accesses of thread `t`, before each of which the others do what `env` says. */
  function Woven(t: nat, env: seq<seq<Event>>, n: nat): seq<Event>
    requires n <= |env|
  {
    if n == 0 then [] else Woven(t, env, n - 1) + env[n - 1] + [Event(t, Continue)]
  }

  /** The run that consists of the call and those accesses. */
  function Script(t: nat, call: Action, env: seq<seq<Event>>, n: nat): seq<Event>
    requires n <= |env|
  {
    [Event(t, call)] + Woven(t, env, n)
  }

  /** The next access of the thread is an exchange, and another thread has overtaken it. */
  predicate Loses(s: State, t: nat) {
    t < |s.ops| && AtSwap(s.ops[t]) && s.head != s.ops[t].seen
  }

  /** The first `n` accesses of the call lead from `s0` to `s`, and if they are allowed, `m` exchanges were lost. */
  ghost predicate Ran(s0: State, s: State, t: nat, call: Action, env: seq<seq<Event>>, n: nat, m: nat) {
    && n <= |env| && t < |s0.ops| == |s.ops| && Tids(Script(t, call, env, n), |s0.ops|)
    && Exec(s0, Script(t, call, env, n)) == s
    && (Valid(s0, Script(t, call, env, n)) ==> Failures(s0, Script(t, call, env, n), t) == m)
  }

  lemma RanBegin(s0: State, t: nat, call: Action, env: seq<seq<Event>>)
    requires t < |s0.ops| && call != Continue
    ensures Ran(s0, Apply(s0, t, call), t, call, env, 0, 0)
  {
    var run := Script(t, call, env, 0);
    assert run == [Event(t, call)] && run[1..] == [];
    assert Exec(s0, run) == Apply(s0, t, call);
  }

  /** One turn more: the others act, and the thread makes its next access. */
  lemma RanTurn(s0: State, s: State, t: nat, call: Action, env: seq<seq<Event>>, n: nat, m: nat)
    requires Ran(s0, s, t, call, env, n, m) && n < |env| && Others(env[n], t, |s0.ops|)
    ensures Exec(s, env[n]).ops[t] == s.ops[t]
    ensures var s1 := Exec(s, env[n]);
      Ran(s0, Advance(s1, t), t, call, env, n + 1, if Loses(s1, t) then m + 1 else m)
  {
    var run, own := Script(t, call, env, n), [Event(t, Continue)];
    var s1 := Exec(s, env[n]);
    OthersDoNothing(s, env[n], t);
    assert Script(t, call, env, n + 1) == run + (env[n] + own);
    ExecAppend(s, env[n], own);
    ExecAppend(s0, run, env[n] + own);
    assert own[1..] == [] && Exec(s1, own) == Advance(s1, t);
    if Valid(s0, run + (env[n] + own)) {
      FailuresAppend(s0, run, env[n] + own, t);
      FailuresAppend(s, env[n], own, t);
      OthersFailElsewhere(s, env[n], t);
      OwnFailure(s1, t);
    }
  }

  lemma OwnFailure(s: State, t: nat)
    requires Valid(s, [Event(t, Continue)])
    ensures Failures(s, [Event(t, Continue)], t) == if Loses(s, t) then 1 else 0
  {
    var own := [Event(t, Continue)];
    assert own[1..] == [];
  }

  /** The list was well formed, and everything the run does is allowed and fresh when it happens. */
  ghost predicate Safe(s0: State, run: seq<Event>) {
    Inv(s0) && Valid(s0, run) && FreshRun(s0, run)
  }

  /** A slab that `pop` returns under such a schedule was the top of the list when the call took it. */
  lemma PopAnswer(s0: State, s: State, t: nat, env: seq<seq<Event>>, n: nat, m: nat)
    requires Ran(s0, s, t, CallPop, env, n, m) && Safe(s0, Script(t, CallPop, env, n)) && s0.ops[t] == Idle
    ensures forall i: nat :: s.ops[t] == Popped(i) ==> TakesTop(s0, Script(t, CallPop, env, n), t, i)
    ensures s.ops[t] == PopFailed ==> ReadsEmpty(s0, Script(t, CallPop, env, n), t)
    ensures s.ops[t] != Panicked
  {
    var run := Script(t, CallPop, env, n);
    RunKeepsInv(s0, run);
    forall i: nat | s.ops[t] == Popped(i) ensures TakesTop(s0, run, t, i) { PoppedWasTop(s0, run, t, i); }
    if s.ops[t] == PopFailed { FailedSawEmpty(s0, run, t); }
  }

  /** A slab that `push` has pushed under such a schedule was put on top of a list that did not hold it. */
  lemma PushAnswer(s0: State, s: State, t: nat, slab: nat, env: seq<seq<Event>>, n: nat, m: nat)
    requires Ran(s0, s, t, CallPush(slab), env, n, m) && Safe(s0, Script(t, CallPush(slab), env, n)) && s0.ops[t] == Idle
    ensures s.ops[t] == Idle ==> PutsOnTop(s0, Script(t, CallPush(slab), env, n), t, slab)
  {
    var run := Script(t, CallPush(slab), env, n);
    var s1 := Apply(s0, t, CallPush(slab));
    StepKeepsInv(s0, t, CallPush(slab));
    assert run[1..] == Woven(t, env, n);
    if s.ops[t] == Idle { PushedOnTop(s1, run[1..], t, slab); }
  }

  /** The lost exchanges of a call that began idle are at most the exchanges the others won meanwhile. */
  lemma LossesBounded(s0: State, s: State, t: nat, call: Action, env: seq<seq<Event>>, n: nat, m: nat)
    requires Ran(s0, s, t, call, env, n, m) && Valid(s0, Script(t, call, env, n)) && Seen(s0) && s0.ops[t] == Idle
    ensures m <= OthersWins(s0, Script(t, call, env, n), t)
  {
    RetriesBounded(s0, Script(t, call, env, n), t);
  }

  lemma RanParts(s0: State, s: State, t: nat, call: Action, env: seq<seq<Event>>, n: nat, m: nat)
    requires Ran(s0, s, t, call, env, n, m)
    ensures n <= |env| && Tids(Script(t, call, env, n), |s0.ops|) && Exec(s0, Script(t, call, env, n)) == s
    ensures Valid(s0, Script(t, call, env, n)) ==> Failures(s0, Script(t, call, env, n), t) == m
  {
  }

  /** How far a call got before the other threads' events ran out. */
  datatype Outcome<T> = Returned(value: T) | Crashed | Running

  function PopAnswered(op: Op): Outcome<Option<nat>> {
    match op
    case PopFailed => Returned(None)
    case Popped(i) => Returned(Some(i))
    case Panicked => Crashed
    case _ => Running
  }

  // ----- the shared words

  /** The list; `ops`, `version` and `stack` record where threads are and what the list holds. */
  class SharedList {
    var head: nat
    const links: array<nat>
    const ops: array<Op>
    var version: nat
    var stack: seq<nat>

    constructor (head: nat, links: array<nat>, ops: array<Op>, version: nat, stack: seq<nat>)
      ensures this.head == head && this.links == links && this.ops == ops && this.version == version && this.stack == stack
    {
      this.head, this.links, this.ops, this.version, this.stack := head, links, ops, version, stack;
    }

    ghost function View(): (s: State)
      reads this, links, ops
      ensures |s.ops| == ops.Length
    {
      State(head, links[..], ops[..], version, stack)
    }

    /** One event of one thread. */
    method Perform(t: nat, a: Action)
      requires t < ops.Length
      modifies this, links, ops
      ensures View() == Apply(old(View()), t, a)
    {
      match a
      case CallPush(i) => ops[t] := PushStart(i);
      case CallPop => ops[t] := PopStart;
      case Return => ops[t] := Idle;
      case Continue => Access(t);
    }

    // The accesses of `push` and `pop`, one atomic operation each; `ops` records where the thread is afterwards.

    method PushLoad(t: nat, slab: nat) returns (currentHead: nat)
      requires t < ops.Length && slab < links.Length && ops[t] == PushStart(slab)
      modifies ops
      ensures View() == Advance(old(View()), t) && ops[t].PushLink? && ops[t].slab == slab && ops[t].seen == currentHead
    {
      currentHead := head;
      ops[t] := PushLink(slab, currentHead, version);
    }

    method PushStore(t: nat, slab: nat, currentHead: nat)
      requires t < ops.Length && slab < links.Length && ops[t].PushLink? && ops[t].slab == slab && ops[t].seen == currentHead
      modifies links, ops
      ensures View() == Advance(old(View()), t) && ops[t].PushSwap? && ops[t].slab == slab && ops[t].seen == currentHead
    {
      links[slab] := Index(currentHead);
      ops[t] := PushSwap(slab, currentHead, ops[t].ver);
    }

    method PushExchange(t: nat, slab: nat, currentHead: nat) returns (won: bool)
      requires t < ops.Length && ops[t].PushSwap? && ops[t].slab == slab && ops[t].seen == currentHead
      modifies this, ops
      ensures View() == Advance(old(View()), t) && ops[t] == (if won then Idle else PushStart(slab))
      ensures won <==> !Loses(old(View()), t)
    {
      won := head == currentHead;
      if won {
        head := PackIndex((Generation(currentHead) + 1) % TWO_32, slab);
        version, stack := version + 1, [slab] + stack;
      }
      ops[t] := if won then Idle else PushStart(slab);
    }

    method PopLoad(t: nat) returns (currentHead: nat)
      requires t < ops.Length && ops[t] == PopStart
      modifies ops
      ensures View() == Advance(old(View()), t)
      ensures if Index(currentHead) == NULL_U32 then ops[t] == PopFailed else ops[t].PopNext? && ops[t].seen == currentHead
    {
      currentHead := head;
      ops[t] := if Index(currentHead) == NULL_U32 then PopFailed else PopNext(currentHead, version);
    }

    method PopRead(t: nat, currentHead: nat) returns (next: nat)
      requires t < ops.Length && Index(currentHead) < links.Length && ops[t].PopNext? && ops[t].seen == currentHead
      modifies ops
      ensures View() == Advance(old(View()), t) && ops[t].PopSwap? && ops[t].seen == currentHead && ops[t].next == next
    {
      next := links[Index(currentHead)];
      ops[t] := PopSwap(currentHead, next, ops[t].ver);
    }

    method PopExchange(t: nat, currentHead: nat, next: nat) returns (won: bool)
      requires t < ops.Length && ops[t].PopSwap? && ops[t].seen == currentHead && ops[t].next == next
      modifies this, ops
      ensures View() == Advance(old(View()), t) && ops[t] == (if won then PopClear(Index(currentHead)) else PopStart)
      ensures won <==> !Loses(old(View()), t)
    {
      won := head == currentHead;
      if won {
        head := PackIndex((Generation(currentHead) + 1) % TWO_32, next);
        version, stack := version + 1, if stack == [] then [] else stack[1..];
      }
      ops[t] := if won then PopClear(Index(currentHead)) else PopStart;
    }

    method PopStore(t: nat, slab: nat)
      requires t < ops.Length && slab < links.Length && ops[t] == PopClear(slab)
      modifies links, ops
      ensures View() == Advance(old(View()), t) && ops[t] == Popped(slab)
    {
      links[slab] := NULL_U32;
      ops[t] := Popped(slab);
    }

    /** A failed bounds check. */
    method Crash(t: nat)
      requires t < ops.Length
      modifies ops
      ensures View() == old(View()).At(t, Panicked) && ops[t] == Panicked
      ensures old(ops[t].PopNext? && Index(ops[t].seen) >= links.Length) ==> View() == Advance(old(View()), t)
    {
      ops[t] := Panicked;
    }

    /** The next access of one thread, wherever it is. */
    method Access(t: nat)
      requires t < ops.Length
      modifies this, links, ops
      ensures View() == Advance(old(View()), t)
    {
      match ops[t]
      case PushStart(i) => if i < links.Length { var _ := PushLoad(t, i); } else { Crash(t); }
      case PushLink(i, seen, _) => if i < links.Length { PushStore(t, i, seen); } else { Crash(t); }
      case PushSwap(i, seen, _) => var _ := PushExchange(t, i, seen);
      case PopStart => var _ := PopLoad(t);
      case PopNext(seen, _) => if Index(seen) < links.Length { var _ := PopRead(t, seen); } else { Crash(t); }
      case PopSwap(seen, next, _) => var _ := PopExchange(t, seen, next);
      case PopClear(i) => if i < links.Length { PopStore(t, i); } else { Crash(t); }
      case _ =>
    }

    /** Other threads act. */
    method Interfere(es: seq<Event>, ghost t: nat)
      requires t < ops.Length && Others(es, t, ops.Length)
      modifies this, links, ops
      ensures View() == Exec(old(View()), es) && ops[t] == old(ops[t])
    {
      ghost var s := View();
      OthersDoNothing(s, es, t);
      var k := 0;
      while k < |es|
        invariant k <= |es| && Tids(es[..k], ops.Length) && View() == Exec(s, es[..k])
      {
        assert es[k] in es;
        ghost var before := View();
        Perform(es[k].tid, es[k].act);
        ExecAppend(s, es[..k], [es[k]]);
        assert es[..k + 1] == es[..k] + [es[k]];
        assert Exec(before, [es[k]]) == Apply(before, es[k].tid, es[k].act);
        k := k + 1;
      }
      assert es[..k] == es;
    }

    // The same accesses inside a call under a schedule: the others act first, as `env[n]` says.

    /** The call has made `n` accesses and lost `m` exchanges. */
    ghost predicate Under(s0: State, t: nat, call: Action, env: seq<seq<Event>>, n: nat, m: nat)
      reads this, links, ops
    {
      t < ops.Length && Schedule(env, t, ops.Length) && Ran(s0, View(), t, call, env, n, m)
    }

    method Turn(ghost s0: State, ghost t: nat, ghost call: Action, env: seq<seq<Event>>, n: nat, ghost m: nat)
      requires Under(s0, t, call, env, n, m) && n < |env|
      modifies this, links, ops
      ensures t < |s0.ops| && ops[t] == old(ops[t]) && Schedule(env, t, ops.Length)
      ensures Ran(s0, Advance(View(), t), t, call, env, n + 1, if Loses(View(), t) then m + 1 else m)
    {
      RanTurn(s0, View(), t, call, env, n, m);
      Interfere(env[n], t);
    }

    method PushLoadNext(t: nat, slab: nat, env: seq<seq<Event>>, n: nat, ghost s0: State, ghost m: nat)
      returns (currentHead: nat)
      requires Under(s0, t, CallPush(slab), env, n, m) && n < |env| && slab < links.Length && ops[t] == PushStart(slab)
      modifies this, links, ops
      ensures Under(s0, t, CallPush(slab), env, n + 1, m)
      ensures ops[t].PushLink? && ops[t].slab == slab && ops[t].seen == currentHead
    {
      Turn(s0, t, CallPush(slab), env, n, m);
      currentHead := PushLoad(t, slab);
    }

    method PushStoreNext(t: nat, slab: nat, currentHead: nat, env: seq<seq<Event>>, n: nat, ghost s0: State, ghost m: nat)
      requires Under(s0, t, CallPush(slab), env, n, m) && n < |env| && slab < links.Length
      requires ops[t].PushLink? && ops[t].slab == slab && ops[t].seen == currentHead
      modifies this, links, ops
      ensures Under(s0, t, CallPush(slab), env, n + 1, m)
      ensures ops[t].PushSwap? && ops[t].slab == slab && ops[t].seen == currentHead
    {
      Turn(s0, t, CallPush(slab), env, n, m);
      PushStore(t, slab, currentHead);
    }

    method PushExchangeNext(t: nat, slab: nat, currentHead: nat, env: seq<seq<Event>>, n: nat, ghost s0: State, ghost m: nat)
      returns (won: bool)
      requires Under(s0, t, CallPush(slab), env, n, m) && n < |env|
      requires ops[t].PushSwap? && ops[t].slab == slab && ops[t].seen == currentHead
      modifies this, links, ops
      ensures Under(s0, t, CallPush(slab), env, n + 1, if won then m else m + 1)
      ensures ops[t] == if won then Idle else PushStart(slab)
    {
      Turn(s0, t, CallPush(slab), env, n, m);
      won := PushExchange(t, slab, currentHead);
    }

    method PopLoadNext(t: nat, env: seq<seq<Event>>, n: nat, ghost s0: State, ghost m: nat) returns (currentHead: nat)
      requires Under(s0, t, CallPop, env, n, m) && n < |env| && ops[t] == PopStart
      modifies this, links, ops
      ensures Under(s0, t, CallPop, env, n + 1, m)
      ensures if Index(currentHead) == NULL_U32 then ops[t] == PopFailed else ops[t].PopNext? && ops[t].seen == currentHead
    {
      Turn(s0, t, CallPop, env, n, m);
      currentHead := PopLoad(t);
    }

    method PopReadNext(t: nat, currentHead: nat, env: seq<seq<Event>>, n: nat, ghost s0: State, ghost m: nat)
      returns (next: Option<nat>)
      requires Under(s0, t, CallPop, env, n, m) && n < |env| && ops[t].PopNext? && ops[t].seen == currentHead
      modifies this, links, ops
      ensures Under(s0, t, CallPop, env, n + 1, m) && (next.Some? <==> Index(currentHead) < links.Length)
      ensures if next.Some? then ops[t].PopSwap? && ops[t].seen == currentHead && ops[t].next == next.value else ops[t] == Panicked
    {
      Turn(s0, t, CallPop, env, n, m);
      if Index(currentHead) < links.Length {
        var link := PopRead(t, currentHead);
        next := Some(link);
      } else {
        Crash(t);
        next := None;
      }
    }

    method PopExchangeNext(t: nat, currentHead: nat, next: nat, env: seq<seq<Event>>, n: nat, ghost s0: State, ghost m: nat)
      returns (won: bool)
      requires Under(s0, t, CallPop, env, n, m) && n < |env|
      requires ops[t].PopSwap? && ops[t].seen == currentHead && ops[t].next == next
      modifies this, links, ops
      ensures Under(s0, t, CallPop, env, n + 1, if won then m else m + 1)
      ensures ops[t] == if won then PopClear(Index(currentHead)) else PopStart
    {
      Turn(s0, t, CallPop, env, n, m);
      won := PopExchange(t, currentHead, next);
    }

    method PopStoreNext(t: nat, slab: nat, env: seq<seq<Event>>, n: nat, ghost s0: State, ghost m: nat)
      requires Under(s0, t, CallPop, env, n, m) && n < |env| && slab < links.Length && ops[t] == PopClear(slab)
      modifies this, links, ops
      ensures Under(s0, t, CallPop, env, n + 1, m) && ops[t] == Popped(slab)
    {
      Turn(s0, t, CallPop, env, n, m);
      PopStore(t, slab);
    }

    /** The retry loop of `push`. */
    method PushLoop(t: nat, slab: nat, env: seq<seq<Event>>) returns (r: Outcome<()>, used: nat, ghost lost: nat)
      requires t < ops.Length && slab < links.Length && Schedule(env, t, ops.Length)
      modifies this, links, ops
      ensures Ran(old(View()), View(), t, CallPush(slab), env, used, lost)
      ensures r != Crashed && (r.Returned? ==> ops[t] == Idle)
      ensures r == Running ==> ops[t] == PushStart(slab) && used == 3 * lost && used + 3 > |env|
    {
      ghost var s0 := View();
      ops[t] := PushStart(slab);
      RanBegin(s0, t, CallPush(slab), env);
      used, lost := 0, 0;
      assert Under(s0, t, CallPush(slab), env, used, lost);
      hide *;
      while used + 3 <= |env|
        invariant ops[t] == PushStart(slab) && used == 3 * lost && Under(s0, t, CallPush(slab), env, used, lost)
        decreases |env| - used
      {
        var currentHead := PushLoadNext(t, slab, env, used, s0, lost);
        PushStoreNext(t, slab, currentHead, env, used + 1, s0, lost);
        var won := PushExchangeNext(t, slab, currentHead, env, used + 2, s0, lost);
        used := used + 3;
        if won { return Returned(()), used, lost; }
        lost := lost + 1;
      }
      r := Running;
    }

    /**
     * `push`: before its n-th access the events `env[n]` of other threads happen. Every access is the step the step
     * system takes, and the call returns exactly when its exchange has succeeded; it is still running only if it has
     * lost every exchange the schedule had room for, so the others must have won as many. If the other threads' events
     * are allowed and fresh, the slab was put on top of a list that did not hold it.
     */
    method Push(t: nat, slab: nat, env: seq<seq<Event>>) returns (r: Outcome<()>, used: nat)
      requires t < ops.Length && slab < links.Length
      requires Schedule(env, t, ops.Length)
      modifies this, links, ops
      ensures used <= |env| && Tids(Script(t, CallPush(slab), env, used), ops.Length)
      ensures View() == Exec(old(View()), Script(t, CallPush(slab), env, used))
      ensures r != Crashed && (r.Returned? ==> ops[t] == Idle) && (r == Running ==> ops[t] == PushStart(slab))
      ensures Valid(old(View()), Script(t, CallPush(slab), env, used)) && r == Running ==>
                Failures(old(View()), Script(t, CallPush(slab), env, used), t) == |env| / 3
      ensures Valid(old(View()), Script(t, CallPush(slab), env, used)) && Seen(old(View())) && old(ops[t]) == Idle ==>
                OthersWins(old(View()), Script(t, CallPush(slab), env, used), t) < |env| / 3 ==> r.Returned?
      ensures Safe(old(View()), Script(t, CallPush(slab), env, used)) && old(ops[t]) == Idle && r.Returned? ==>
                PutsOnTop(old(View()), Script(t, CallPush(slab), env, used), t, slab)
    {
      ghost var s0, call := View(), CallPush(slab);
      ghost var lost;
      r, used, lost := PushLoop(t, slab, env);
      ghost var run := Script(t, call, env, used);
      RanParts(s0, View(), t, call, env, used, lost);
      hide Ran, Safe, PutsOnTop, Valid, Exec, Failures, OthersWins, Seen, Script;
      if Valid(s0, run) && Seen(s0) && s0.ops[t] == Idle { LossesBounded(s0, View(), t, call, env, used, lost); }
      if Safe(s0, run) && s0.ops[t] == Idle { PushAnswer(s0, View(), t, slab, env, used, lost); }
    }

    /** One attempt of `pop`: three accesses, and a fourth if its exchange wins. */
    method PopAttempt(t: nat, env: seq<seq<Event>>, n: nat, ghost s0: State, ghost m: nat)
      returns (r: Outcome<Option<nat>>, used: nat)
      requires Under(s0, t, CallPop, env, n, m) && n + 4 <= |env| && ops[t] == PopStart
      modifies this, links, ops
      ensures Under(s0, t, CallPop, env, used, if r == Running then m + 1 else m) && r == PopAnswered(ops[t])
      ensures r == Running ==> ops[t] == PopStart && used == n + 3
    {
      hide Under;
      var currentHead := PopLoadNext(t, env, n, s0, m);
      if Index(currentHead) == NULL_U32 { return Returned(None), n + 1; }
      var next := PopReadNext(t, currentHead, env, n + 1, s0, m);
      if next.None? { return Crashed, n + 2; }
      var won := PopExchangeNext(t, currentHead, next.value, env, n + 2, s0, m);
      if !won { return Running, n + 3; }
      PopStoreNext(t, Index(currentHead), env, n + 3, s0, m);
      r, used := Returned(Some(Index(currentHead))), n + 4;
    }

    /** The retry loop of `pop`. */
    method PopLoop(t: nat, env: seq<seq<Event>>) returns (r: Outcome<Option<nat>>, used: nat, ghost lost: nat)
      requires t < ops.Length && Schedule(env, t, ops.Length)
      modifies this, links, ops
      ensures Ran(old(View()), View(), t, CallPop, env, used, lost)
      ensures r == PopAnswered(ops[t])
      ensures r == Running ==> used == 3 * lost && used + 4 > |env| && (lost == 0 || used < |env|)
    {
      ghost var s0 := View();
      ops[t] := PopStart;
      RanBegin(s0, t, CallPop, env);
      r, used, lost := Running, 0, 0;
      while used + 4 <= |env|
        invariant r == Running && used == 3 * lost && (lost == 0 || used < |env|)
        invariant ops[t] == PopStart && Under(s0, t, CallPop, env, used, lost)
        decreases |env| - used
      {
        r, used := PopAttempt(t, env, used, s0, lost);
        if r != Running { return; }
        lost := lost + 1;
      }
    }

    /**
     * `pop`, in the same setting: it answers None exactly when the list was empty where it read the head, a slab
     * exactly when its exchange succeeded and the slab's link has been cleared, and crashes on an index out of bounds;
     * it is still running only if it has lost every exchange the schedule had room for. If the other threads' events
     * are allowed and fresh, it never crashes, None means the list was empty when the head was read, and the slab
     * returned was the top of the list when it was taken.
     */
    method Pop(t: nat, env: seq<seq<Event>>) returns (r: Outcome<Option<nat>>, used: nat)
      requires t < ops.Length
      requires Schedule(env, t, ops.Length)
      modifies this, links, ops
      ensures used <= |env| && Tids(Script(t, CallPop, env, used), ops.Length)
      ensures View() == Exec(old(View()), Script(t, CallPop, env, used))
      ensures r == PopAnswered(ops[t])
      ensures Valid(old(View()), Script(t, CallPop, env, used)) && r == Running ==>
                Failures(old(View()), Script(t, CallPop, env, used), t) == PopAttempts(|env|)
      ensures Valid(old(View()), Script(t, CallPop, env, used)) && Seen(old(View())) && old(ops[t]) == Idle ==>
                OthersWins(old(View()), Script(t, CallPop, env, used), t) < PopAttempts(|env|) ==> r != Running
      ensures Safe(old(View()), Script(t, CallPop, env, used)) && old(ops[t]) == Idle ==>
                && r != Crashed
                && (r == Returned(None) ==> ReadsEmpty(old(View()), Script(t, CallPop, env, used), t))
                && forall i: nat :: r == Returned(Some(i)) ==> TakesTop(old(View()), Script(t, CallPop, env, used), t, i)
    {
      ghost var s0, call := View(), CallPop;
      ghost var lost;
      r, used, lost := PopLoop(t, env);
      ghost var run := Script(t, call, env, used);
      RanParts(s0, View(), t, call, env, used, lost);
      hide Ran, Safe, TakesTop, ReadsEmpty, Valid, Exec, Failures, OthersWins, Seen, Script;
      if Valid(s0, run) && Seen(s0) && s0.ops[t] == Idle { LossesBounded(s0, View(), t, call, env, used, lost); }
      if Safe(s0, run) && s0.ops[t] == Idle { PopAnswer(s0, View(), t, env, used, lost); }
    }
  }

  /** The attempts of a pop that a schedule of `n` accesses has room for, each complete even if it wins. */
  function PopAttempts(n: nat): nat {
    if n == 0 then 0 else (n - 1) / 3
  }
}
