/**
 * `push` and `drain` of a slab's remote free list as code that updates the slab in place, with other threads acting
 * between any two accesses. Whatever they do, the code performs a run of the slab's machine, and a drain yields
 * exactly the list it swapped out.
 */
module RemoteFreeListCode {
  import opened Base
  import Slab
  import SlabRuns

  /** What a thread inside `push`, or inside a drain whose slots it frees one by one, does next. */
  function Next(op: Slab.Op): SlabRuns.Action {
    match op
    case Idle => SlabRuns.Swap
    case Draining(cursor, _) => if cursor == NULL_U16 then SlabRuns.Finish else SlabRuns.Yield
    case DrainHold(_, _, _) => SlabRuns.PushLocal
    case Holding(_) => SlabRuns.Route
    case _ => SlabRuns.Push
  }

  predicate Others(es: seq<SlabRuns.Event>, t: nat) {
    forall e :: e in es ==> e.tid != t
  }

  /** Before each access of thread `t` the others do what `env` says, and all of it is allowed when it happens. */
  ghost predicate Scheduled(s: Slab.State, t: nat, env: seq<seq<SlabRuns.Event>>)
    requires Slab.Inv(s)
    decreases |env|
  {
    env == [] ||
    (&& Others(env[0], t) && SlabRuns.Valid(s, env[0])
     && var s1 := SlabRuns.Exec(s, env[0]);
     t < |s1.ops| && SlabRuns.Enabled(s1, t, Next(s1.ops[t]))
     && Scheduled(SlabRuns.Apply(s1, t, Next(s1.ops[t])), t, env[1..]))
  }

  lemma {:induction false} OthersKeepOp(s: Slab.State, t: nat, es: seq<SlabRuns.Event>)
    requires Slab.Inv(s) && t < |s.ops| && SlabRuns.Valid(s, es) && Others(es, t)
    ensures SlabRuns.Exec(s, es).ops[t] == s.ops[t]
    decreases |es|
  {
    if es != [] {
      assert es[0] in es;
      OneKeepsOp(s, t, es[0]);
      OthersKeepOp(SlabRuns.Apply(s, es[0].tid, es[0].act), t, es[1..]);
    }
  }

  lemma OneKeepsOp(s: Slab.State, t: nat, e: SlabRuns.Event)
    requires Slab.Inv(s) && t < |s.ops| && SlabRuns.Enabled(s, e.tid, e.act) && e.tid != t
    ensures SlabRuns.Apply(s, e.tid, e.act).ops[t] == s.ops[t]
  {
    SlabRuns.StepDefined(s, e.tid, e.act);
    hide Slab.Inv;
  }

  /** Where a schedule leads. */
  ghost function End(s: Slab.State, t: nat, env: seq<seq<SlabRuns.Event>>): (r: Slab.State)
    requires Slab.Inv(s) && Scheduled(s, t, env)
    ensures Slab.Inv(r) && |r.ops| == |s.ops|
    decreases |env|
  {
    if env == [] then s
    else
      var s1 := SlabRuns.Exec(s, env[0]);
      End(SlabRuns.Apply(s1, t, Next(s1.ops[t])), t, env[1..])
  }

  /** The schedule's next turn, after its first `n`: the others act, then thread `t` makes one access. */
  ghost predicate NextTurn(s: Slab.State, t: nat, env: seq<seq<SlabRuns.Event>>, n: nat)
    requires Slab.Inv(s) && n < |env|
  {
    && Scheduled(s, t, env[..n]) && Scheduled(s, t, env[..n + 1])
    && var m := End(s, t, env[..n]);
    Others(env[n], t) && SlabRuns.Valid(m, env[n])
    && var m1 := SlabRuns.Exec(m, env[n]);
    t < |m1.ops| && SlabRuns.Enabled(m1, t, Next(m1.ops[t]))
    && End(s, t, env[..n + 1]) == SlabRuns.Apply(m1, t, Next(m1.ops[t]))
  }

  lemma {:induction false} Turn(s: Slab.State, t: nat, env: seq<seq<SlabRuns.Event>>, n: nat)
    requires Slab.Inv(s) && Scheduled(s, t, env) && n < |env|
    ensures NextTurn(s, t, env, n)
    decreases |env|
  {
    hide Slab.Inv, SlabRuns.Enabled, SlabRuns.Apply, SlabRuns.Valid, SlabRuns.Exec, Next;
    var s1 := SlabRuns.Exec(s, env[0]);
    var s2 := SlabRuns.Apply(s1, t, Next(s1.ops[t]));
    assert env[..n + 1][0] == env[0] && env[..n + 1][1..] == env[1..][..n];
    if n > 0 {
      assert env[..n][0] == env[0] && env[..n][1..] == env[1..][..n - 1];
      Turn(s2, t, env[1..], n - 1);
    } else {
      assert env[..n] == [] && env[..n + 1][1..] == [];
      assert Scheduled(s2, t, []);
      assert Scheduled(s, t, env[..n]);
      assert Scheduled(s, t, env[..n + 1]);
      assert End(s, t, env[..n]) == s;
      assert End(s, t, env[..n + 1]) == s2;
    }
  }

  // ----- what the machine does at each access

  /** What `SlabRuns.Apply` does for a thread inside a push. */
  lemma PushApplies(x: Slab.State, t: nat)
    requires Slab.Inv(x) && t < |x.ops| && Slab.Pushing(x.ops[t])
    ensures x.ops[t].slot < |x.words| == |x.loc| && SlabRuns.Enabled(x, t, SlabRuns.Push) && Next(x.ops[t]) == SlabRuns.Push
    ensures SlabRuns.Apply(x, t, SlabRuns.Push) == Slab.AdvancePush(x, t)
  {
    SlabRuns.StepDefined(x, t, SlabRuns.Push);
  }

  /** Swapping takes all of the chain. */
  lemma SwapApplies(x: Slab.State, t: nat)
    requires Slab.Inv(x) && t < |x.ops| && x.ops[t] == Slab.Idle && SlabRuns.Enabled(x, t, SlabRuns.Swap)
    ensures SlabRuns.Apply(x, t, SlabRuns.Swap) == Slab.Drain(x, t) && Next(x.ops[t]) == SlabRuns.Swap
    ensures Slab.Drain(x, t).ops[t] == Slab.Draining(x.head, x.chain)
  {
  }

  /** A yield takes the first slot of the chain and moves on to what the words say comes next. */
  lemma YieldApplies(x: Slab.State, t: nat)
    requires Slab.Inv(x) && t < |x.ops| && x.ops[t].Draining? && x.ops[t].cursor != NULL_U16
    ensures x.ops[t].cursor < |x.words| == |x.loc| && Next(x.ops[t]) == SlabRuns.Yield
    ensures SlabRuns.Enabled(x, t, SlabRuns.Yield) && SlabRuns.Apply(x, t, SlabRuns.Yield) == Slab.DrainNext(x, t)
    ensures x.ops[t].rest != [] && x.ops[t].rest == [x.ops[t].cursor] + x.ops[t].rest[1..]
    ensures Slab.DrainNext(x, t).ops[t] == Slab.DrainHold(x.ops[t].cursor, x.words[x.ops[t].cursor], x.ops[t].rest[1..])
  {
    SlabRuns.StepDefined(x, t, SlabRuns.Yield);
    Slab.DrainNextKeeps(x, t);
  }

  lemma FreeApplies(x: Slab.State, t: nat)
    requires Slab.Inv(x) && t < |x.ops| && x.ops[t].DrainHold?
    ensures x.ops[t].slot < |x.loc| && Next(x.ops[t]) == SlabRuns.PushLocal
    ensures SlabRuns.Enabled(x, t, SlabRuns.PushLocal) && SlabRuns.Apply(x, t, SlabRuns.PushLocal) == Slab.LocalPush(x, t)
    ensures Slab.LocalPush(x, t).ops[t] == Slab.Draining(x.ops[t].cursor, x.ops[t].rest)
  {
    SlabRuns.StepDefined(x, t, SlabRuns.PushLocal);
  }

  lemma NothingLeft(x: Slab.State, t: nat)
    requires Slab.Inv(x) && t < |x.ops| && x.ops[t].Draining? && x.ops[t].cursor == NULL_U16
    ensures x.ops[t].rest == []
  {
    Slab.DrainEndKeeps(x, t);
  }

  /** A drain has yielded `items` of `list` and its cursor, `current`, spells the rest. */
  ghost predicate Yielded(x: Slab.State, t: nat, items: seq<nat>, current: nat, list: seq<nat>) {
    t < |x.ops| && x.ops[t].Draining? && x.ops[t].cursor == current && items + x.ops[t].rest == list
  }

  lemma YieldedAll(x: Slab.State, t: nat, items: seq<nat>, current: nat, list: seq<nat>)
    requires Slab.Inv(x) && Yielded(x, t, items, current, list)
    ensures items <= list && (current == NULL_U16 ==> items == list)
  {
    if current == NULL_U16 { NothingLeft(x, t); }
  }

  // ----- the code

  /** One slab in shared memory; `ops`, `updates`, `loc` and `chain` record where its threads and slots are. */
  class SharedSlab {
    var owner: nat
    var sizeIndex: nat
    var capacity: nat
    var head: nat
    var words: array<nat>
    var free: seq<nat>
    var ops: seq<Slab.Op>
    var updates: nat
    var loc: seq<Slab.Loc>
    var chain: seq<nat>

    constructor (s: Slab.State)
      ensures View() == s && fresh(words)
    {
      owner, sizeIndex, capacity, head, free := s.owner, s.sizeIndex, s.capacity, s.head, s.free;
      ops, updates, loc, chain := s.ops, s.updates, s.loc, s.chain;
      var w := new nat[|s.words|](i requires 0 <= i < |s.words| => s.words[i]);
      words := w;
      assert w[..] == s.words;
    }

    function View(): (s: Slab.State)
      reads this, words
      ensures |s.words| == words.Length
    {
      Slab.State(owner, sizeIndex, head, capacity, free, words[..], ops, updates, loc, chain)
    }

    /** The words become `ws`; only a slab cut anew has another number of them. */
    method StoreWords(ws: seq<nat>)
      modifies this`words, words
      ensures words[..] == ws && (words == old(words) || fresh(words))
    {
      if words.Length != |ws| { words := new nat[|ws|]; }
      for k := 0 to |ws|
        invariant words.Length == |ws| && (words == old(words) || fresh(words)) && words[..k] == ws[..k]
      {
        words[k] := ws[k];
      }
      assert words[..] == words[..|ws|] && ws[..|ws|] == ws;
    }

    /** Other threads act. */
    method Interfere(es: seq<SlabRuns.Event>, ghost t: nat)
      requires Slab.Inv(View()) && t < |ops| && SlabRuns.Valid(View(), es) && Others(es, t)
      modifies this, words
      ensures Slab.Inv(View()) && View() == SlabRuns.Exec(old(View()), es)
      ensures |ops| == |old(ops)| && ops[t] == old(ops[t]) && (words == old(words) || fresh(words))
    {
      OthersKeepOp(View(), t, es);
      hide Slab.Inv, SlabRuns.Valid, SlabRuns.Exec, Others;
      var s := SlabRuns.Exec(View(), es);
      owner, sizeIndex, capacity, head, free := s.owner, s.sizeIndex, s.capacity, s.head, s.free;
      ops, updates, loc, chain := s.ops, s.updates, s.loc, s.chain;
      StoreWords(s.words);
    }

    // The accesses of `push`.

    method Load(t: nat, index: nat) returns (currentHead: nat)
      requires t < |ops| && ops[t] == Slab.PushStart(index) && index < words.Length == |loc|
      modifies this`ops
      ensures View() == Slab.AdvancePush(old(View()), t)
      ensures t < |ops| && ops[t].PushLink? && ops[t].slot == index && ops[t].seen == currentHead
    {
      currentHead := head;
      ops := ops[t := Slab.PushLink(index, currentHead, updates)];
    }

    method Store(t: nat, index: nat, currentHead: nat)
      requires t < |ops| && ops[t].PushLink? && ops[t].slot == index && ops[t].seen == currentHead && index < words.Length == |loc|
      modifies this`ops, words
      ensures View() == Slab.AdvancePush(old(View()), t)
      ensures t < |ops| && ops[t].PushSwap? && ops[t].slot == index && ops[t].seen == currentHead
    {
      words[index] := currentHead;
      ops := ops[t := Slab.PushSwap(index, currentHead, ops[t].ver)];
    }

    method Exchange(t: nat, index: nat, currentHead: nat) returns (won: bool)
      requires t < |ops| && ops[t].PushSwap? && ops[t].slot == index && ops[t].seen == currentHead && index < words.Length == |loc|
      modifies this`head, this`ops, this`updates, this`loc, this`chain
      ensures View() == Slab.AdvancePush(old(View()), t)
      ensures t < |ops| && ops[t] == (if won then Slab.Idle else Slab.PushStart(index))
      ensures won ==> head == index && chain == [index] + old(chain)
    {
      won := head == currentHead;
      if won {
        head := index;
        updates, chain, loc := updates + 1, [index] + chain, loc[index := Slab.Remote];
      }
      ops := ops[t := if won then Slab.Idle else Slab.PushStart(index)];
    }

    // The accesses of `drain`, and the push on the free stack of the slot it yields.

    /** `swap` of the head. */
    method Swap(t: nat) returns (current: nat)
      requires t < |ops|
      modifies this`head, this`ops, this`updates, this`loc, this`chain
      ensures View() == Slab.Drain(old(View()), t) && current == old(head)
    {
      current := head;
      head := NULL_U16;
      updates := if current == NULL_U16 then updates else updates + 1;
      loc := seq(|loc|, (i: nat) requires i < |loc| reads this => if loc[i] == Slab.Remote then Slab.Drained(t) else loc[i]);
      ops := ops[t := Slab.Draining(current, chain)];
      chain := [];
    }

    /** The iterator's step: the link is read before the slot is yielded. */
    method ReadLink(t: nat, current: nat) returns (next: nat)
      requires t < |ops| && ops[t].Draining? && ops[t].cursor == current < words.Length == |loc|
      modifies this`ops, this`loc
      ensures View() == Slab.DrainNext(old(View()), t) && next == old(words[current])
    {
      next := words[current];
      loc := loc[current := Slab.Freeing(t)];
      ops := ops[t := Slab.DrainHold(current, next, if ops[t].rest == [] then [] else ops[t].rest[1..])];
    }

    method FreeSlot(t: nat, slot: nat)
      requires t < |ops| && ops[t].DrainHold? && ops[t].slot == slot < |loc|
      modifies this`free, this`ops, this`loc
      ensures View() == Slab.LocalPush(old(View()), t)
    {
      free := free + [slot];
      loc := loc[slot := Slab.Free];
      ops := ops[t := Slab.Draining(ops[t].cursor, ops[t].rest)];
    }

    /** The slab is where the schedule's first `used` turns lead. */
    ghost predicate OnSchedule(s0: Slab.State, t: nat, env: seq<seq<SlabRuns.Event>>, used: nat)
      reads this, words
      requires Slab.Inv(s0)
    {
      && used <= |env| && Scheduled(s0, t, env[..used]) && View() == End(s0, t, env[..used])
      && Slab.Inv(View()) && t < |ops|
    }

    // ----- push

    /** The others act, and the head is loaded. */
    method LoadTurn(t: nat, index: nat, env: seq<seq<SlabRuns.Event>>, used: nat, ghost s0: Slab.State) returns (currentHead: nat)
      requires Slab.Inv(s0) && Scheduled(s0, t, env) && used < |env| && OnSchedule(s0, t, env, used)
      requires ops[t] == Slab.PushStart(index)
      modifies this, words
      ensures OnSchedule(s0, t, env, used + 1) && (words == old(words) || fresh(words))
      ensures ops[t].PushLink? && ops[t].slot == index && ops[t].seen == currentHead
    {
      Turn(s0, t, env, used);
      hide Slab.Inv, Slab.AdvancePush, SlabRuns.Apply, SlabRuns.Enabled, SlabRuns.Valid, SlabRuns.Exec, Scheduled, End;
      Interfere(env[used], t);
      PushApplies(View(), t);
      currentHead := Load(t, index);
    }

    /** The others act, and the link is stored. */
    method StoreTurn(t: nat, index: nat, currentHead: nat, env: seq<seq<SlabRuns.Event>>, used: nat, ghost s0: Slab.State)
      requires Slab.Inv(s0) && Scheduled(s0, t, env) && used < |env| && OnSchedule(s0, t, env, used)
      requires ops[t].PushLink? && ops[t].slot == index && ops[t].seen == currentHead
      modifies this, words
      ensures OnSchedule(s0, t, env, used + 1) && (words == old(words) || fresh(words))
      ensures ops[t].PushSwap? && ops[t].slot == index && ops[t].seen == currentHead
    {
      Turn(s0, t, env, used);
      hide Slab.Inv, Slab.AdvancePush, SlabRuns.Apply, SlabRuns.Enabled, SlabRuns.Valid, SlabRuns.Exec, Scheduled, End;
      Interfere(env[used], t);
      PushApplies(View(), t);
      Store(t, index, currentHead);
    }

    /** The others act, and the head is exchanged. */
    method ExchangeTurn(t: nat, index: nat, currentHead: nat, env: seq<seq<SlabRuns.Event>>, used: nat, ghost s0: Slab.State)
      returns (won: bool)
      requires Slab.Inv(s0) && Scheduled(s0, t, env) && used < |env| && OnSchedule(s0, t, env, used)
      requires ops[t].PushSwap? && ops[t].slot == index && ops[t].seen == currentHead
      modifies this, words
      ensures OnSchedule(s0, t, env, used + 1) && (words == old(words) || fresh(words))
      ensures ops[t] == if won then Slab.Idle else Slab.PushStart(index)
      ensures won ==> head == index && chain != [] && chain[0] == index
    {
      Turn(s0, t, env, used);
      hide Slab.Inv, Slab.AdvancePush, SlabRuns.Apply, SlabRuns.Enabled, SlabRuns.Valid, SlabRuns.Exec, Scheduled, End;
      Interfere(env[used], t);
      PushApplies(View(), t);
      won := Exchange(t, index, currentHead);
    }

    /**
     * `push` of the slot the thread holds, under a schedule of the other threads: the code performs exactly the
     * schedule's accesses, and returns exactly when its exchange has put the slot in front of the list.
     */
    method Push(t: nat, index: nat, env: seq<seq<SlabRuns.Event>>) returns (pushed: bool, used: nat)
      requires Slab.Inv(View()) && t < |ops| && ops[t] == Slab.PushStart(index) && Scheduled(View(), t, env)
      modifies this, words
      ensures OnSchedule(old(View()), t, env, used)
      ensures pushed <==> ops[t] == Slab.Idle
      ensures pushed ==> head == index && chain != [] && chain[0] == index
      ensures !pushed ==> used == |env|
    {
      ghost var s0 := View();
      Starts(s0, t, env);
      used, pushed := 0, false;
      hide Slab.Inv, Scheduled, OnSchedule;
      while used < |env|
        invariant used <= |env| && OnSchedule(s0, t, env, used) && t < |ops| && ops[t] == Slab.PushStart(index)
        invariant words == old(words) || fresh(words)
        decreases |env| - used
      {
        InBounds(s0, t, env, used);
        var currentHead := LoadTurn(t, index, env, used, s0);
        used := used + 1;
        InBounds(s0, t, env, used);
        if used == |env| { return; }
        StoreTurn(t, index, currentHead, env, used, s0);
        used := used + 1;
        InBounds(s0, t, env, used);
        if used == |env| { return; }
        var won := ExchangeTurn(t, index, currentHead, env, used, s0);
        used := used + 1;
        InBounds(s0, t, env, used);
        if won { return true, used; }
      }
    }

    /** Before its first turn a schedule leads nowhere. */
    lemma Starts(s0: Slab.State, t: nat, env: seq<seq<SlabRuns.Event>>)
      requires View() == s0 && Slab.Inv(s0) && t < |ops| && Scheduled(s0, t, env)
      ensures OnSchedule(s0, t, env, 0)
    {
      assert env[..0] == [];
    }

    lemma InBounds(s0: Slab.State, t: nat, env: seq<seq<SlabRuns.Event>>, used: nat)
      requires Slab.Inv(s0) && OnSchedule(s0, t, env, used)
      ensures t < |ops| && Slab.Inv(View()) && used <= |env|
    {
    }

    // ----- drain

    /** The others act, and the head is swapped. */
    method SwapTurn(t: nat, env: seq<seq<SlabRuns.Event>>) returns (current: nat)
      requires Slab.Inv(View()) && t < |ops| && ops[t] == Slab.Idle && Scheduled(View(), t, env) && env != []
      modifies this, words
      ensures SlabRuns.Valid(old(View()), env[0]) && OnSchedule(old(View()), t, env, 1)
      ensures Yielded(View(), t, [], current, SlabRuns.Exec(old(View()), env[0]).chain)
      ensures words == old(words) || fresh(words)
    {
      Turn(View(), t, env, 0);
      assert env[..0] == [] && End(View(), t, []) == View();
      hide Slab.Inv, SlabRuns.Apply, SlabRuns.Enabled, SlabRuns.Valid, SlabRuns.Exec, Scheduled, End;
      Interfere(env[0], t);
      SwapApplies(View(), t);
      hide Slab.Drain;
      current := Swap(t);
    }

    /** The others act, and the iterator reads the link of the slot it yields. */
    method YieldTurn(t: nat, env: seq<seq<SlabRuns.Event>>, used: nat, current: nat, ghost s0: Slab.State) returns (next: nat)
      requires Slab.Inv(s0) && Scheduled(s0, t, env) && used < |env| && OnSchedule(s0, t, env, used)
      requires ops[t].Draining? && ops[t].cursor == current != NULL_U16
      modifies this, words
      ensures OnSchedule(s0, t, env, used + 1) && ops[t].DrainHold? && ops[t].cursor == next && ops[t].slot == current
      ensures old(ops[t]).rest == [current] + ops[t].rest && (words == old(words) || fresh(words))
    {
      Turn(s0, t, env, used);
      hide Slab.Inv, SlabRuns.Apply, SlabRuns.Enabled, SlabRuns.Valid, SlabRuns.Exec, Scheduled, End, Slab.DrainNext, Next;
      Interfere(env[used], t);
      YieldApplies(View(), t);
      next := ReadLink(t, current);
    }

    /** The others act, and the yielded slot goes on the free stack. */
    method FreeTurn(t: nat, env: seq<seq<SlabRuns.Event>>, used: nat, slot: nat, ghost s0: Slab.State)
      requires Slab.Inv(s0) && Scheduled(s0, t, env) && used < |env| && OnSchedule(s0, t, env, used)
      requires ops[t].DrainHold? && ops[t].slot == slot
      modifies this, words
      ensures OnSchedule(s0, t, env, used + 1) && (words == old(words) || fresh(words))
      ensures ops[t] == Slab.Draining(old(ops[t]).cursor, old(ops[t]).rest)
    {
      Turn(s0, t, env, used);
      hide Slab.Inv, SlabRuns.Apply, SlabRuns.Enabled, SlabRuns.Valid, SlabRuns.Exec, Scheduled, End, Slab.LocalPush, Next;
      Interfere(env[used], t);
      FreeApplies(View(), t);
      FreeSlot(t, slot);
    }

    /** One turn of the drain loop. */
    method DrainOne(t: nat, env: seq<seq<SlabRuns.Event>>, used: nat, items: seq<nat>, current: nat,
                    ghost s0: Slab.State, ghost list: seq<nat>) returns (next: nat)
      requires Slab.Inv(s0) && Scheduled(s0, t, env) && used + 2 <= |env| && OnSchedule(s0, t, env, used)
      requires Yielded(View(), t, items, current, list) && current != NULL_U16
      modifies this, words
      ensures OnSchedule(s0, t, env, used + 2) && Yielded(View(), t, items + [current], next, list)
      ensures words == old(words) || fresh(words)
    {
      hide Slab.Inv, Scheduled, End, SlabRuns.Exec;
      ghost var rest := ops[t].rest;
      next := YieldTurn(t, env, used, current, s0);
      assert rest == [current] + ops[t].rest;
      FreeTurn(t, env, used + 1, current, s0);
      assert items + rest == items + [current] + ops[t].rest;
    }

    /**
     * A drain whose slots are pushed on the free stack as they are yielded, under a schedule of the other threads: it
     * yields, in order, the list it swapped out, and if the schedule is long enough all of it.
     */
    method Drain(t: nat, env: seq<seq<SlabRuns.Event>>) returns (items: seq<nat>, exhausted: bool, used: nat)
      requires Slab.Inv(View()) && t < |ops| && ops[t] == Slab.Idle && Scheduled(View(), t, env) && env != []
      modifies this, words
      ensures OnSchedule(old(View()), t, env, used) && SlabRuns.Valid(old(View()), env[0])
      ensures var list := SlabRuns.Exec(old(View()), env[0]).chain;
              items <= list && (exhausted ==> items == list)
      ensures !exhausted ==> used + 1 >= |env|
    {
      ghost var s0 := View();
      hide Slab.Inv, SlabRuns.Valid, SlabRuns.Exec, Scheduled, End, OnSchedule, Yielded;
      var current := SwapTurn(t, env);
      ghost var list := SlabRuns.Exec(s0, env[0]).chain;
      used, items := 1, [];
      while current != NULL_U16 && used + 2 <= |env|
        invariant OnSchedule(s0, t, env, used) && Yielded(View(), t, items, current, list)
        invariant words == old(words) || fresh(words)
        decreases |env| - used
      {
        var next := DrainOne(t, env, used, items, current, s0, list);
        items, current, used := items + [current], next, used + 2;
      }
      exhausted := current == NULL_U16;
      InBounds(s0, t, env, used);
      YieldedAll(View(), t, items, current, list);
    }
  }
}
