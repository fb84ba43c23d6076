/** Steps of a cleaning call, and of giving a slab back to the global list. */
module AllocatorClean {
  import opened Base
  import opened SizeClasses
  import opened Address
  import opened Allocator
  import opened AllocatorInv
  import opened AllocatorAssign
  import opened AllocatorFree
  import opened AllocatorRetire
  import AllocatorTake
  import Pool = GlobalFreeList
  import Lists = LocalLists
  import Slab

  // ----- giving back

  ghost predicate GiveOp(op: Pool.Op, i: nat) {
    (op.PushStart? || op.PushLink? || op.PushSwap?) && op.slab == i
  }

  /** What `Advance` does to a push in progress. */
  lemma PushAdvances(p: Pool.State, t: nat, i: nat)
    requires Pool.Inv(p) && t < |p.ops| && GiveOp(p.ops[t], i)
    ensures var p' := Pool.Advance(p, t);
            && Pool.Inv(p') && |p'.links| == |p.links| && i < |p.links|
            && |p'.ops| == |p.ops| && p'.ops == p.ops[t := p'.ops[t]]
            && match Pool.EffectOf(p, t, Pool.Continue)
               case Nothing => p'.stack == p.stack && GiveOp(p'.ops[t], i)
               case Pushed(j) => j == i && p'.stack == [i] + p.stack && p'.ops[t] == Pool.Idle
               case Took(_) => false
  {
    Pool.StepKeepsInv(p, t, Pool.Continue);
    assert Pool.OpOk(p, p.ops[t]);
    assert Pool.OpOk(Pool.Advance(p, t), Pool.Advance(p, t).ops[t]);
  }

  lemma GiveStutterKeeps(cfg: Config, s: State, t: nat, i: nat, after: After)
    requires Inv(cfg, s) && t < |s.agents| && s.agents[t].pc == Giving(i, after)
    requires Pool.EffectOf(s.pool, t, Pool.Continue) == Pool.Nothing
    ensures Inv(cfg, Give(cfg, s, t, i, after))
  {
    hide Pool.Inv, Lists.Inv, Slab.Inv, SlabOk, ValidConfig, WorkerOk;
    assert AgentOk(cfg, s, t);
    PushAdvances(s.pool, t, i);
    var s' := PoolStep(cfg, s, t);
    assert s'.agents == s.agents[t := s.agents[t]];
    AllocatorTake.PoolOnly(cfg, s, s', t);
  }

  /** The push succeeded: the slab, with nothing outstanding, is in the pool and the handle goes on. */
  lemma GivenKeeps(cfg: Config, s: State, t: nat, i: nat, after: After)
    requires Inv(cfg, s) && t < |s.agents| && s.agents[t].pc == Giving(i, after)
    requires Pool.EffectOf(s.pool, t, Pool.Continue) == Pool.Pushed(i)
    ensures Inv(cfg, Give(cfg, s, t, i, after))
  {
    hide Pool.Inv, Lists.Inv, Slab.Inv, ValidConfig, WorkerOk;
    assert AgentOk(cfg, s, t);
    PushAdvances(s.pool, t, i);
    var s' := Give(cfg, s, t, i, after);
    GivenAgent(cfg, s, s', t, i, after);
    hide AgentOk, SlabOk, Shape;
    GivenShape(cfg, s, s', t, i);
    GivenSlab(cfg, s, s', t, i);
    hide Give;
    AssembleSame(cfg, s, s', t, i);
  }

  lemma GivenAgent(cfg: Config, s: State, s': State, t: nat, i: nat, after: After)
    requires Inv(cfg, s) && t < |s.agents| && s.agents[t].pc == Giving(i, after) && Sized(cfg, s') && i < cfg.numSlabs
    requires s'.slabs == s.slabs && s'.place == s.place[i := InPool] && s'.local == s.local && s'.holder == s.holder
    requires s'.pool.ops == s.pool.ops[t := Pool.Idle]
    requires s'.agents == s.agents[t := s.agents[t].(pc := if after.Return? then Idle else CleanDrain(after.drain))]
    ensures AgentOk(cfg, s', t)
  {
    hide Pool.Inv, Lists.Inv, Slab.Inv, ValidConfig, WorkerOk, SlabOk, Midway, Ahead;
    assert AgentOk(cfg, s, t);
    forall j: nat | j < cfg.numSlabs ensures SlabOpFits(s'.agents[t].pc, j, s'.slabs[j].ops[t]) {
      assert SlabOpFits(s.agents[t].pc, j, s.slabs[j].ops[t]);
    }
  }

  lemma GivenSlab(cfg: Config, s: State, s': State, t: nat, i: nat)
    requires Inv(cfg, s) && t < |s.agents| && Sized(cfg, s') && i < cfg.numSlabs && s.place[i] == Transit(t)
    requires s'.slabs == s.slabs && s'.place == s.place[i := InPool] && s'.local == s.local
    requires s'.pool.stack == [i] + s.pool.stack && |s'.agents| == |s.agents|
    ensures SlabOk(cfg, s', i)
  {
    hide Pool.Inv, Lists.Inv, Slab.Inv, ValidConfig, WorkerOk, AgentOk;
    assert SlabOk(cfg, s, i);
    assert PlaceOk(s', i);
  }

  lemma GivenShape(cfg: Config, s: State, s': State, t: nat, i: nat)
    requires Sized(cfg, s) && Sized(cfg, s') && t < |s.agents| == |s'.agents| && i < cfg.numSlabs && s.place[i] == Transit(t)
    requires s'.slabs == s.slabs && s'.place == s.place[i := InPool] && s'.local == s.local && s'.holder == s.holder
    requires s'.pool.stack == [i] + s.pool.stack && s'.pool.ops == s.pool.ops[t := s'.pool.ops[t]]
    requires s'.agents == s.agents[t := s'.agents[t]] && !s.agents[t].pc.AllocSlot?
    requires Carries(s, t) == Some(i) && Carries(s', t) == None
    ensures Shape(cfg, s, s', t, i)
  {
    assert OnlyAgent(cfg, s, s', t);
    assert OwnChange(s, s', t, i);
    assert OnlySlab(cfg, s, s', t, i);
  }

  lemma GiveKeeps(cfg: Config, s: State, t: nat, i: nat, after: After)
    requires Inv(cfg, s) && t < |s.agents| && s.agents[t].pc == Giving(i, after)
    ensures Inv(cfg, Give(cfg, s, t, i, after))
  {
    assert AgentOk(cfg, s, t);
    PushAdvances(s.pool, t, i);
    hide Inv, Give;
    match Pool.EffectOf(s.pool, t, Pool.Continue)
    case Nothing => GiveStutterKeeps(cfg, s, t, i, after);
    case Pushed(_) => GivenKeeps(cfg, s, t, i, after);
  }

  // ----- walking the lists

  lemma BeginCleanKeeps(cfg: Config, s: State, t: nat)
    requires Inv(cfg, s) && Enabled(cfg, s, t, CallClean)
    ensures Inv(cfg, Apply(cfg, s, t, CallClean))
  {
    hide Pool.Inv, Lists.Inv, Slab.Inv, SlabOk, ValidConfig, WorkerOk;
    assert AgentOk(cfg, s, t);
    var w := s.agents[t].handle.index;
    var walk := Walk(EntryLists(cfg, s, w), [], []);
    forall n: nat | n < LINES ensures LineKey(w, n) in s.local.lists && s.local.lists[LineKey(w, n)] == walk.entry[n] {
      assert LineKey(w, n).sizeIndex < NUM_SIZE_CLASSES;
    }
    PcStep(cfg, s, t, CleanLine(0, walk));
  }

  lemma StartLineKeeps(cfg: Config, s: State, t: nat, w: nat, line: nat, walk: Walk)
    requires Inv(cfg, s) && t < |s.agents| && s.agents[t] == Agent(Worker(w), CleanLine(line, walk))
    ensures w < cfg.numWorkers && Inv(cfg, StartLine(cfg, s, t, w, line, walk))
  {
    hide Pool.Inv, Lists.Inv, Slab.Inv, SlabOk, ValidConfig, WorkerOk;
    assert AgentOk(cfg, s, t);
    if line >= LINES {
      PcStep(cfg, s, t, Idle);
    } else {
      var k := LineKey(w, line);
      assert k in s.local.lists;
      Lists.ReadHead(s.local, k);
      var ahead := walk.(todo := s.local.lists[k]);
      assert Midway(s.local, w, line, s.local.heads[k], ahead) by {
        assert walk.entry[line] == s.local.lists[k];
      }
      PcStep(cfg, s, t, CleanIter(line, s.local.heads[k], ahead));
    }
  }

  /** The cursor is the first slab ahead, it is on the list, and its next link is the slab after it. */
  lemma CursorListed(cfg: Config, s: State, w: nat, line: nat, cursor: nat, walk: Walk)
    requires Inv(cfg, s) && Midway(s.local, w, line, cursor, walk)
    ensures cursor == NULL_U32 <==> walk.todo == []
    ensures walk.todo != [] ==>
              && cursor == walk.todo[0] && cursor < cfg.numSlabs
              && s.place[cursor] == Listed(LineKey(w, line))
              && s.local.nodes[cursor].next == At(walk.todo, 1, NULL_U32)
              && cursor !in walk.todo[1..]
              && Suffix(walk.todo[1..], s.local.lists[LineKey(w, line)])
  {
    hide Pool.Inv, Slab.Inv, WorkerOk, AgentOk, Lists.Inv;
    var k := LineKey(w, line);
    var xs := s.local.lists[k];
    if walk.todo != [] {
      var n := |xs| - |walk.todo|;
      SuffixAt(walk.todo, xs);
      Lists.ReadNext(s.local, k, n);
      Lists.ReadHead(s.local, k);
      assert cursor == xs[n] && cursor in xs;
      Lists.ListedInBounds(s.local, k, cursor);
      assert SlabOk(cfg, s, cursor);
    }
  }

  lemma SuffixAt(todo: seq<nat>, xs: seq<nat>)
    requires Suffix(todo, xs) && todo != []
    ensures xs[|xs| - |todo|] == todo[0]
    ensures At(xs, |xs| - |todo| + 1, NULL_U32) == At(todo, 1, NULL_U32)
    ensures Suffix(todo[1..], xs)
    ensures NoDup(xs) ==> todo[0] !in todo[1..]
  {
    var n := |xs| - |todo|;
    assert xs[n..][0] == todo[0];
    assert |todo| > 1 ==> xs[n..][1] == todo[1];
    assert xs[n + 1..] == todo[1..];
    if NoDup(xs) {
      forall j | 0 <= j < |todo[1..]| ensures todo[1..][j] != todo[0] {
        assert xs[n + 1..][j] == todo[1..][j];
      }
    }
  }

  /** Moving the first slab ahead to those seen leaves the walk midway. */
  lemma IterMidway(l: Lists.State, w: nat, line: nat, cursor: nat, next: nat, walk: Walk)
    requires Midway(l, w, line, cursor, walk) && walk.todo != [] && cursor == walk.todo[0]
    requires Suffix(walk.todo[1..], l.lists[LineKey(w, line)]) && next == At(walk.todo, 1, NULL_U32)
    ensures Midway(l, w, line, next, walk.(seen := walk.seen + [cursor], todo := walk.todo[1..]))
  {
    var ahead := walk.(seen := walk.seen + [cursor], todo := walk.todo[1..]);
    assert ahead.seen + ahead.todo == walk.seen + walk.todo;
  }

  /** A handle between slabs of its walk takes up its next position. */
  lemma WalkAgent(cfg: Config, s: State, t: nat, w: nat, pc: Pc)
    requires Inv(cfg, s) && t < |s.agents| && s.agents[t].handle == Worker(w) && s.agents[t].pc.CleanIter?
    requires (pc.CleanLine? || pc.CleanSwap?) && WorkerPc(cfg, s, t, w, pc)
    ensures AgentOk(cfg, s.Pc(t, pc), t)
  {
    hide Pool.Inv, Lists.Inv, Slab.Inv, ValidConfig, WorkerOk, SlabOk, Midway, Ahead;
    assert AgentOk(cfg, s, t);
    forall j: nat | j < cfg.numSlabs ensures SlabOpFits(pc, j, s.slabs[j].ops[t]) {
      assert SlabOpFits(s.agents[t].pc, j, s.slabs[j].ops[t]);
    }
  }

  lemma IterKeeps(cfg: Config, s: State, t: nat, w: nat, line: nat, cursor: nat, walk: Walk)
    requires Inv(cfg, s) && t < |s.agents| && s.agents[t] == Agent(Worker(w), CleanIter(line, cursor, walk))
    ensures Inv(cfg, IterStep(cfg, s, t, line, cursor, walk))
  {
    hide Pool.Inv, Lists.Inv, Slab.Inv, ValidConfig, WorkerOk, SlabOk;
    assert AgentOk(cfg, s, t);
    CursorListed(cfg, s, w, line, cursor, walk);
    if cursor == NULL_U32 {
      assert walk.seen + [] == walk.seen;
      WalkAgent(cfg, s, t, w, CleanLine(line + 1, walk));
      hide AgentOk;
      PcStep(cfg, s, t, CleanLine(line + 1, walk));
    } else {
      ListedStands(cfg, s, cursor);
      LineInRange(s.local, w, line, cursor, walk);
      var next := s.local.nodes[cursor].next;
      IterMidway(s.local, w, line, cursor, next, walk);
      var pc := CleanSwap(line, next, cursor, s.slabs[cursor].sizeIndex, walk.(seen := walk.seen + [cursor], todo := walk.todo[1..]));
      hide AgentOk, Midway, Ahead;
      WalkAgent(cfg, s, t, w, pc);
      PcStep(cfg, s, t, pc);
    }
  }

  // ----- draining one slab

  lemma DrainInterior(x: Slab.State, t: nat)
    requires Slab.Inv(x) && t < |x.ops| && x.ops[t] == Slab.Idle
    ensures Slab.Inv(Slab.Drain(x, t)) && Interior(x, Slab.Drain(x, t), t)
  {
    Slab.DrainKeeps(x, t);
  }

  lemma SwapKeeps(cfg: Config, s: State, t: nat, w: nat, line: nat, next: nat, i: nat, c: nat, walk: Walk)
    requires Inv(cfg, s) && t < |s.agents| && s.agents[t] == Agent(Worker(w), CleanSwap(line, next, i, c, walk))
    ensures i < cfg.numSlabs && Inv(cfg, SwapStep(cfg, s, t, line, next, i, c, walk))
  {
    hide Pool.Inv, Lists.Inv, Slab.Inv, ValidConfig, WorkerOk, Midway, Ahead, Size;
    assert AgentOk(cfg, s, t) && SlabOk(cfg, s, i);
    assert SlabOpFits(s.agents[t].pc, i, s.slabs[i].ops[t]);
    var x := s.slabs[i];
    DrainInterior(x, t);
    var d := Drain(line, next, i, c, 0, walk);
    var y := Slab.Drain(x, t);
    assert y.ops[t].Draining?;
    SwapAgent(cfg, s, t, w, d, y);
    hide AgentOk, SlabOk, Slab.Drain;
    InteriorStep(cfg, s, t, i, y, CleanDrain(d));
  }

  /** A listed slab carries its list's worker and class, and is where its free stack says. */
  lemma ListedStands(cfg: Config, s: State, i: nat)
    requires Inv(cfg, s) && i < cfg.numSlabs && s.place[i].Listed?
    ensures s.slabs[i].owner == s.place[i].key.worker && s.slabs[i].sizeIndex == s.place[i].key.sizeIndex
    ensures s.place[i].key.full <==> s.slabs[i].free == []
  {
    hide Pool.Inv, Lists.Inv, Slab.Inv, AgentOk, WorkerOk;
    assert SlabOk(cfg, s, i);
  }

  lemma SwapAgent(cfg: Config, s: State, t: nat, w: nat, d: Drain, y: Slab.State)
    requires Inv(cfg, s) && t < |s.agents| && d.slab < cfg.numSlabs && d.freed == 0
    requires s.agents[t] == Agent(Worker(w), CleanSwap(d.line, d.next, d.slab, d.sizeIndex, d.walk))
    requires Interior(s.slabs[d.slab], y, t) && y.ops[t].Draining?
    ensures AgentOk(cfg, s.Put(d.slab, y).Pc(t, CleanDrain(d)), t)
  {
    hide Pool.Inv, Lists.Inv, Slab.Inv, ValidConfig, WorkerOk, Midway, Ahead, Size, SlabOk;
    assert AgentOk(cfg, s, t);
    LineInRange(s.local, w, d.line, d.next, d.walk);
    ListedStands(cfg, s, d.slab);
    var s' := s.Put(d.slab, y).Pc(t, CleanDrain(d));
    assert DrainOk(s', t, w, d);
    forall j: nat | j < cfg.numSlabs ensures SlabOpFits(CleanDrain(d), j, s'.slabs[j].ops[t]) {
      assert SlabOpFits(s.agents[t].pc, j, s.slabs[j].ops[t]);
    }
  }

  lemma LineInRange(l: Lists.State, w: nat, line: nat, next: nat, walk: Walk)
    requires Midway(l, w, line, next, walk)
    ensures line < LINES
  {
  }

  lemma YieldInterior(x: Slab.State, t: nat)
    requires Slab.Inv(x) && t < |x.ops| && x.ops[t].Draining? && x.ops[t].cursor != NULL_U16
    ensures x.ops[t].cursor < |x.words| == |x.loc| && x.ops[t].rest != []
    ensures Slab.Inv(Slab.DrainNext(x, t)) && Interior(x, Slab.DrainNext(x, t), t)
  {
    Slab.DrainNextKeeps(x, t);
  }

  lemma YieldKeeps(cfg: Config, s: State, t: nat, w: nat, d: Drain)
    requires Inv(cfg, s) && t < |s.agents| && s.agents[t] == Agent(Worker(w), CleanDrain(d))
    requires d.slab < cfg.numSlabs && s.slabs[d.slab].ops[t].Draining? && s.slabs[d.slab].ops[t].cursor != NULL_U16
    ensures w < cfg.numWorkers && d.sizeIndex < NUM_SIZE_CLASSES && Inv(cfg, DrainStep(cfg, s, t, w, d))
  {
    hide Pool.Inv, Lists.Inv, Slab.Inv, ValidConfig, WorkerOk, Midway, Ahead, Size;
    assert AgentOk(cfg, s, t) && SlabOk(cfg, s, d.slab);
    LineInRange(s.local, w, d.line, d.next, d.walk);
    var x := s.slabs[d.slab];
    YieldInterior(x, t);
    var y := Slab.DrainNext(x, t);
    YieldAgent(cfg, s, t, w, d, y);
    hide AgentOk, SlabOk, Slab.DrainNext;
    InteriorStep(cfg, s, t, d.slab, y, CleanFree(d));
  }

  lemma YieldAgent(cfg: Config, s: State, t: nat, w: nat, d: Drain, y: Slab.State)
    requires Inv(cfg, s) && t < |s.agents| && s.agents[t] == Agent(Worker(w), CleanDrain(d)) && d.slab < cfg.numSlabs
    requires Interior(s.slabs[d.slab], y, t) && y.ops[t].DrainHold? && Slab.Rest(s.slabs[d.slab].ops[t]) != []
    ensures AgentOk(cfg, s.Put(d.slab, y).Pc(t, CleanFree(d)), t)
  {
    hide Pool.Inv, Lists.Inv, Slab.Inv, ValidConfig, Midway, Ahead, Size, SlabOk, WorkerOk;
    assert AgentOk(cfg, s, t);
    var s' := s.Put(d.slab, y).Pc(t, CleanFree(d));
    assert DrainOk(s', t, w, d);
    forall j: nat | j < cfg.numSlabs ensures SlabOpFits(CleanFree(d), j, s'.slabs[j].ops[t]) {
      assert SlabOpFits(s.agents[t].pc, j, s.slabs[j].ops[t]);
    }
  }

  lemma EndInterior(x: Slab.State, t: nat)
    requires Slab.Inv(x) && t < |x.ops| && x.ops[t].Draining? && x.ops[t].cursor == NULL_U16
    ensures Slab.Inv(Slab.DrainEnd(x, t)) && Interior(x, Slab.DrainEnd(x, t), t)
  {
    Slab.DrainEndKeeps(x, t);
  }

  /** The drain is over: only now does the counter drop, by exactly the bytes it freed. */
  lemma EndKeeps(cfg: Config, s: State, t: nat, w: nat, d: Drain)
    requires Inv(cfg, s) && t < |s.agents| && s.agents[t] == Agent(Worker(w), CleanDrain(d))
    requires d.slab < cfg.numSlabs && s.slabs[d.slab].ops[t].Draining? && s.slabs[d.slab].ops[t].cursor == NULL_U16
    ensures w < cfg.numWorkers && d.sizeIndex < NUM_SIZE_CLASSES && Inv(cfg, DrainStep(cfg, s, t, w, d))
  {
    hide Pool.Inv, Lists.Inv, Slab.Inv, ValidConfig, Midway, Ahead, Size;
    assert AgentOk(cfg, s, t) && SlabOk(cfg, s, d.slab) && WorkerOk(cfg, s, w);
    LineInRange(s.local, w, d.line, d.next, d.walk);
    var i := d.slab;
    EndInterior(s.slabs[i], t);
    var s' := DrainStep(cfg, s, t, w, d);
    EndAgent(cfg, s, s', t, w, d);
    hide SlabOk, AgentOk, WorkerOk, DrainStep, Shape;
    InteriorSlab(cfg, s, s', t, i);
    InteriorShape(cfg, s, s', t, i);
    EndAccounts(cfg, s, s', t, w, d);
    hide Inv;
    Assemble(cfg, s, s', t, i);
  }

  lemma EndAgent(cfg: Config, s: State, s': State, t: nat, w: nat, d: Drain)
    requires Inv(cfg, s) && t < |s.agents| && s.agents[t] == Agent(Worker(w), CleanDrain(d)) && d.slab < cfg.numSlabs && w < cfg.numWorkers
    requires Sized(cfg, s') && s'.agents == s.agents[t := Agent(Worker(w), CleanIter(d.line, d.next, d.walk))]
    requires s'.slabs == s.slabs[d.slab := s'.slabs[d.slab]] && s'.slabs[d.slab].ops[t] == Slab.Idle
    requires s'.local == s.local && s'.holder == s.holder && s'.pool == s.pool && s'.place == s.place
    ensures AgentOk(cfg, s', t)
  {
    hide Pool.Inv, Lists.Inv, Slab.Inv, ValidConfig, Midway, Ahead, Size, SlabOk, WorkerOk;
    assert AgentOk(cfg, s, t);
    forall j: nat | j < cfg.numSlabs ensures SlabOpFits(s'.agents[t].pc, j, s'.slabs[j].ops[t]) {
      assert SlabOpFits(s.agents[t].pc, j, s.slabs[j].ops[t]);
    }
  }

  lemma EndAccounts(cfg: Config, s: State, s': State, t: nat, w: nat, d: Drain)
    requires Inv(cfg, s) && Sized(cfg, s') && t < |s.agents| == |s'.agents| && w < cfg.numWorkers && d.slab < cfg.numSlabs
    requires Shape(cfg, s, s', t, d.slab)
    requires s.agents[t] == Agent(Worker(w), CleanDrain(d)) && d.sizeIndex < NUM_SIZE_CLASSES
    requires Interior(s.slabs[d.slab], s'.slabs[d.slab], t) && s'.slabs == s.slabs[d.slab := s'.slabs[d.slab]]
    requires s'.holder == s.holder && s'.claimed == s.claimed
    requires s'.agents[t] == Agent(Worker(w), CleanIter(d.line, d.next, d.walk))
    requires s'.bytes == s.bytes[w := if d.freed == 0 then s.bytes[w] else Sub64(s.bytes[w], d.freed * Size(d.sizeIndex))]
    ensures forall v: nat {:trigger WorkerOk(cfg, s', v)} :: v < cfg.numWorkers ==> WorkerOk(cfg, s', v)
  {
    hide Pool.Inv, Lists.Inv, Slab.Inv, ValidConfig, Size, Shape, Used, SlabOk;
    assert AgentOk(cfg, s, t) && WorkerOk(cfg, s, w);
    UsedUpdate(s.slabs, d.slab, s'.slabs[d.slab], w);
    assert d.freed == 0 ==> d.freed * Size(d.sizeIndex) == 0;
    forall v: nat | v < cfg.numWorkers ensures WorkerOk(cfg, s', v) {
      if v != w {
        assert WorkerOk(cfg, s, v);
        OtherWorker(cfg, s, s', t, d.slab, v);
      }
    }
  }

  lemma DrainStepKeeps(cfg: Config, s: State, t: nat, w: nat, d: Drain)
    requires Inv(cfg, s) && t < |s.agents| && s.agents[t] == Agent(Worker(w), CleanDrain(d))
    ensures w < cfg.numWorkers && d.slab < cfg.numSlabs && Inv(cfg, DrainStep(cfg, s, t, w, d))
  {
    assert AgentOk(cfg, s, t);
    assert SlabOpFits(CleanDrain(d), d.slab, s.slabs[d.slab].ops[t]);
    hide Inv, DrainStep;
    if s.slabs[d.slab].ops[t].cursor == NULL_U16 { EndKeeps(cfg, s, t, w, d); } else { YieldKeeps(cfg, s, t, w, d); }
  }

  // ----- freeing a drained slot

  lemma SuffixWithout(todo: seq<nat>, xs: seq<nat>, i: nat)
    requires Suffix(todo, xs) && i in xs && i !in todo
    ensures Suffix(todo, Lists.WorkerLocalList.Without(xs, i))
  {
    var p := Lists.WorkerLocalList.Pos(xs, i);
    var n := |xs| - |todo|;
    forall q | n <= q < |xs| ensures xs[q] in todo { assert xs[n..][q - n] == xs[q]; }
    var ys := Lists.WorkerLocalList.Without(xs, i);
    assert ys[|ys| - |todo|..] == todo;
  }

  /** Freeing a drained slot leaves the walk's remaining slabs where they were. */
  lemma WalkGoesOn(l: Lists.State, m: Lists.State, w: nat, d: Drain, wasFull: bool)
    requires Midway(l, w, d.line, d.next, d.walk) && WalkKept(l, m, w, d.line / 2, d.slab, wasFull)
    requires d.slab !in d.walk.todo && (d.line % 2 == 0 ==> !wasFull)
    ensures Midway(m, w, d.line, d.next, d.walk)
  {
    forall n: nat | d.line + 1 <= n < LINES
      ensures LineKey(w, n) in m.lists && m.lists[LineKey(w, n)] == d.walk.entry[n]
    {
      assert LineKey(w, n) in l.lists;
    }
    var k := LineKey(w, d.line);
    if m.lists[k] != l.lists[k] {
      SuffixWithout(d.walk.todo, l.lists[k], d.slab);
    }
  }

  /** The drain goes on as long as it has slots ahead, and then the slab has stayed its worker's. */
  lemma DrainFreeStill(cfg: Config, s: State, s': State, t: nat, w: nat, d: Drain, e: Drain)
    requires Inv(cfg, s) && Sized(cfg, s') && OwnSlot(cfg, s, t, w, d.sizeIndex, d.slab)
    requires DrainOk(s, t, w, d) && e == d.(freed := d.freed + 1)
    requires s.slabs[d.slab].ops[t].DrainHold? && s.slabs[d.slab].ops[t].slot < |s.slabs[d.slab].loc|
    requires s'.slabs == s.slabs[d.slab := Slab.LocalPush(s.slabs[d.slab], t)]
    requires WalkKept(s.local, s'.local, w, d.sizeIndex, d.slab, s.slabs[d.slab].free == [])
    ensures DrainOk(s', t, w, e) && s'.slabs[d.slab].ops[t].Draining?
  {
    hide Inv, WalkKept, Midway, Ahead;
    WalkGoesOn(s.local, s'.local, w, d, s.slabs[d.slab].free == []);
  }

  lemma DrainFreeAgent(cfg: Config, s: State, s': State, t: nat, w: nat, d: Drain, e: Drain)
    requires Inv(cfg, s) && Sized(cfg, s') && OwnSlot(cfg, s, t, w, d.sizeIndex, d.slab)
    requires s.agents[t] == Agent(Worker(w), CleanFree(d)) && e == d.(freed := d.freed + 1)
    requires s.slabs[d.slab].ops[t].slot < |s.slabs[d.slab].loc|
    requires PushFreeEffect(cfg, s, s', t, w, d.sizeIndex, d.slab, CleanDrain(e), Resume(e))
    requires WalkKept(s.local, s'.local, w, d.sizeIndex, d.slab, s.slabs[d.slab].free == [])
    ensures AgentOk(cfg, s', t)
  {
    hide Pool.Inv, Lists.Inv, Slab.Inv, WorkerOk, Size, Capacity, ValidConfig, SlabOk, WalkKept, DrainOk;
    assert AgentOk(cfg, s, t);
    assert SlabOpFits(s.agents[t].pc, d.slab, s.slabs[d.slab].ops[t]);
    DrainFreeStill(cfg, s, s', t, w, d, e);
    forall j: nat | j < cfg.numSlabs ensures SlabOpFits(s'.agents[t].pc, j, s'.slabs[j].ops[t]) {
      assert SlabOpFits(s.agents[t].pc, j, s.slabs[j].ops[t]);
    }
  }

  lemma DrainFreeAccounts(cfg: Config, s: State, s': State, t: nat, w: nat, d: Drain, e: Drain)
    requires Inv(cfg, s) && Sized(cfg, s') && OwnSlot(cfg, s, t, w, d.sizeIndex, d.slab)
    requires s.agents[t] == Agent(Worker(w), CleanFree(d)) && e == d.(freed := d.freed + 1)
    requires s.slabs[d.slab].ops[t].slot < |s.slabs[d.slab].loc|
    requires PushFreeEffect(cfg, s, s', t, w, d.sizeIndex, d.slab, CleanDrain(e), Resume(e))
    requires Shape(cfg, s, s', t, d.slab) && s'.bytes == s.bytes
    ensures forall v: nat {:trigger WorkerOk(cfg, s', v)} :: v < cfg.numWorkers ==> WorkerOk(cfg, s', v)
  {
    hide Pool.Inv, Lists.Inv, Slab.Inv, Size, Capacity, ValidConfig, SlabOk, Shape, Used, UsedBy;
    assert AgentOk(cfg, s, t) && WorkerOk(cfg, s, w);
    PushedAccount(cfg, s, s', t, w, d.sizeIndex, d.slab, CleanDrain(e), Resume(e));
    OneMoreTime(d.freed, Size(d.sizeIndex));
    forall v: nat | v < cfg.numWorkers ensures WorkerOk(cfg, s', v) {
      if v != w {
        assert WorkerOk(cfg, s, v);
        OtherWorker(cfg, s, s', t, d.slab, v);
      }
    }
  }

  /** What `DrainFree` does. */
  lemma DrainFreeEffects(cfg: Config, s: State, t: nat, w: nat, d: Drain)
    requires Inv(cfg, s) && t < |s.agents| && s.agents[t] == Agent(Worker(w), CleanFree(d))
    ensures d.slab < cfg.numSlabs && w < cfg.numWorkers && d.sizeIndex < NUM_SIZE_CLASSES
    ensures OwnSlot(cfg, s, t, w, d.sizeIndex, d.slab) && s.slabs[d.slab].ops[t].DrainHold?
    ensures s.slabs[d.slab].ops[t].slot < |s.slabs[d.slab].loc|
    ensures var s' := DrainFree(cfg, s, t, w, d); var e := d.(freed := d.freed + 1);
      && Sized(cfg, s') && PushFreeEffect(cfg, s, s', t, w, d.sizeIndex, d.slab, CleanDrain(e), Resume(e))
      && s'.bytes == s.bytes
      && Shape(cfg, s, s', t, d.slab) && SlabOk(cfg, s', d.slab) && Pool.Inv(s'.pool) && Lists.Inv(s'.local)
      && WalkKept(s.local, s'.local, w, d.sizeIndex, d.slab, s.slabs[d.slab].free == [])
  {
    hide Pool.Inv, Lists.Inv, Slab.Inv, WorkerOk, Size, Capacity, ValidConfig, Midway, Ahead;
    assert AgentOk(cfg, s, t);
    assert SlabOpFits(s.agents[t].pc, d.slab, s.slabs[d.slab].ops[t]);
    HeldSlot(cfg, s, t, d.slab);
    var e := d.(freed := d.freed + 1);
    assert OwnSlot(cfg, s, t, w, d.sizeIndex, d.slab);
    var s' := DrainFree(cfg, s, t, w, d);
    assert s.(bytes := s.bytes) == s;
    hide AgentOk, SlabOk, OwnSlot, PushFree, PushFreeEffect, Shape, WalkKept, DrainOk;
    PushFreeParts(cfg, s, s', s.bytes, t, w, d.sizeIndex, d.slab, CleanDrain(e), Resume(e));
  }

  lemma DrainFreeKeeps(cfg: Config, s: State, t: nat, w: nat, d: Drain)
    requires Inv(cfg, s) && t < |s.agents| && s.agents[t] == Agent(Worker(w), CleanFree(d))
    ensures d.slab < cfg.numSlabs && w < cfg.numWorkers && Inv(cfg, DrainFree(cfg, s, t, w, d))
  {
    DrainFreeEffects(cfg, s, t, w, d);
    hide Inv, DrainFree, Shape, SlabOk, AgentOk, PushFreeEffect, WalkKept, WorkerOk, Pool.Inv, Lists.Inv;
    var s' := DrainFree(cfg, s, t, w, d);
    var e := d.(freed := d.freed + 1);
    DrainFreeAgent(cfg, s, s', t, w, d, e);
    DrainFreeAccounts(cfg, s, s', t, w, d, e);
    Assemble(cfg, s, s', t, d.slab);
  }
}
