/**
 * What a slab's owner does without synchronization, as code on shared arrays: cutting a slab, handing out a slot and
 * taking one back, with the moves between lists they entail. Each method performs one step of the step system.
 */
module OwnerCode {
  import opened Base
  import opened SizeClasses
  import opened Address
  import opened AllocatorInv
  import Allocator
  import AllocatorAssign
  import AllocatorFree
  import Pool = GlobalFreeList
  import Lists = LocalLists
  import Local = WorkerLocalList
  import FreeStack
  import Slab

  /** The lists and byte counters of all workers, over one node array. */
  class WorkerLists {
    const cfg: Config
    const nodes: array<Local.Node>
    const lists: map<Lists.Key, Local.LocalList>
    const bytes: array<nat>
    ghost var spelled: map<Lists.Key, seq<nat>>

    constructor (cfg: Config, nodes: array<Local.Node>, lists: map<Lists.Key, Local.LocalList>, bytes: array<nat>,
                 ghost spelled: map<Lists.Key, seq<nat>>)
      ensures this.cfg == cfg && this.nodes == nodes && this.lists == lists && this.bytes == bytes && this.spelled == spelled
    {
      this.cfg, this.nodes, this.lists, this.bytes, this.spelled := cfg, nodes, lists, bytes, spelled;
    }

    /** All lists are threaded through the one node array, from heads of their own. */
    ghost predicate Apart() {
      && (forall k :: k in lists ==> lists[k].list == nodes)
      && (forall k, l :: k in lists && l in lists && k != l ==> lists[k] != lists[l])
    }

    ghost function Heads(): (h: map<Lists.Key, nat>)
      reads lists.Values
    {
      map k | k in lists :: lists[k].head
    }

    ghost function LocalState(): Lists.State
      reads this, nodes, lists.Values
    {
      Lists.State(Local.Locals(nodes[..]), Heads(), spelled)
    }

    /** The words are those of the system state `s`. */
    ghost predicate Shows(s: Allocator.State)
      reads this, nodes, lists.Values, bytes
    {
      Apart() && LocalState() == s.local && bytes[..] == s.bytes
    }

    lemma OneHead(before: map<Lists.Key, nat>, k: Lists.Key)
      requires k in lists && before.Keys == lists.Keys
      requires forall l :: l in lists && l != k ==> lists[l].head == before[l]
      ensures Heads() == before[k := lists[k].head]
    {
    }

    /** One slab changes lists. */
    method Switch(from: Lists.Key, to: Lists.Key, i: nat)
      requires Apart() && Lists.Inv(LocalState()) && from in lists && to in lists && from != to
      requires from in spelled && i in spelled[from]
      modifies this`spelled, nodes, lists[from], lists[to]
      ensures Allocator.CanSwitch(old(LocalState()), from, to, i)
      ensures LocalState() == Allocator.Switch(old(LocalState()), from, to, i)
    {
      ghost var l := LocalState();
      AllocatorAssign.SwitchedMembers(l, from, to, i);
      Take(from, i);
      Lists.RemoveFromKeeps(l, from, i);
      Put(to, i);
    }

    /** `remove` on the list of the key. */
    method Take(k: Lists.Key, i: nat)
      requires Apart() && Lists.Inv(LocalState()) && k in lists && k in spelled && i in spelled[k]
      modifies this`spelled, nodes, lists[k]
      ensures Lists.CanRemove(old(LocalState()), k, i)
      ensures LocalState() == Lists.RemoveFrom(old(LocalState()), k, i)
    {
      ghost var l := LocalState();
      Lists.RemoveFromKeeps(l, k, i);
      Lists.ListedInBounds(l, k, i);
      assert Lists.ListOk(l, k);
      hide Local.Spells, Lists.Inv, Local.RemoveNodes, Local.Without;
      lists[k].Remove(i, spelled[k]);
      spelled := spelled[k := Local.Without(spelled[k], i)];
      OneHead(l.heads, k);
    }

    /** `push` on the list of the key. */
    method Put(k: Lists.Key, i: nat)
      requires Apart() && Lists.Inv(LocalState()) && k in lists && k in spelled && i < nodes.Length && Lists.InNone(LocalState(), i)
      modifies this`spelled, nodes, lists[k]
      ensures Lists.CanPush(old(LocalState()), k, i)
      ensures LocalState() == Lists.PushTo(old(LocalState()), k, i)
    {
      ghost var l := LocalState();
      Lists.PushToKeeps(l, k, i);
      assert Lists.ListOk(l, k);
      hide Local.Spells, Lists.Inv, Local.PushNodes;
      lists[k].Push(i, spelled[k]);
      spelled := spelled[k := [i] + spelled[k]];
      OneHead(l.heads, k);
    }

    lemma Keys(s: Allocator.State, k: Lists.Key, i: nat)
      requires Shows(s) && k in s.local.lists && i in s.local.lists[k] && Allocator.Sized(cfg, s)
      ensures k in lists && k in spelled && i in spelled[k]
    {
      assert k in Heads();
    }

    // ----- the owner's operations

    /** Store the byte counter of worker `w`. */
    method Count(w: nat, n: nat)
      requires w < bytes.Length
      modifies bytes
      ensures bytes[..] == old(bytes[..])[w := n] && LocalState() == old(LocalState())
    {
      bytes[w] := n;
    }

    /** Pop a slot; a slab left without free slots moves to the full list. */
    method PopAndMove(stack: FreeStack.FreeStack, part: Lists.Key, full: Lists.Key, i: nat) returns (slot: Option<nat>)
      requires Apart() && Lists.Inv(LocalState()) && part in lists && full in lists && part != full
      requires part in spelled && i in spelled[part] && stack.Valid() && stack.Contents() != []
      modifies this`spelled, nodes, lists[part], lists[full], stack
      ensures stack.Valid() && slot.Some? && old(stack.Contents()) == stack.Contents() + [slot.value]
      ensures if stack.Contents() == []
              then Allocator.CanSwitch(old(LocalState()), part, full, i)
                   && LocalState() == Allocator.Switch(old(LocalState()), part, full, i)
              else LocalState() == old(LocalState())
    {
      hide Lists.Inv, Allocator.Switch, Allocator.CanSwitch;
      slot := stack.Pop();
      var isEmpty := stack.IsEmpty();
      if isEmpty { Switch(part, full, i); }
    }

    /**
     * `allocate_within_slab`: the pop, the move to the full list of a slab left without free slots, the count and
     * the block's offset are one step of the step system, and the slot popped was free.
     */
    method AllocateWithinSlab(stack: FreeStack.FreeStack, ghost s: Allocator.State, ghost t: nat, w: nat, c: nat, i: nat)
      returns (offset: Option<nat>)
      requires Inv(cfg, s) && Shows(s) && t < |s.agents| && i < |s.slabs|
      requires s.agents[t] == Allocator.Agent(Allocator.Worker(w), Allocator.AllocSlot(c, i))
      requires stack.Valid() && stack.Contents() == s.slabs[i].free && stack.stack != bytes
      requires Lists.Key(w, c, false) in lists && Lists.Key(w, c, true) in lists
      modifies this`spelled, nodes, lists[Lists.Key(w, c, false)], lists[Lists.Key(w, c, true)], stack, bytes
      ensures c < NUM_SIZE_CLASSES && w < cfg.numWorkers && i < cfg.numSlabs && Allocator.Sized(cfg, s)
      ensures Shows(Allocator.TakeSlot(cfg, s, t, w, c, i))
      ensures i < |Allocator.TakeSlot(cfg, s, t, w, c, i).slabs|
      ensures stack.Valid() && stack.Contents() == Allocator.TakeSlot(cfg, s, t, w, c, i).slabs[i].free
      ensures s.slabs[i].free != []
      ensures offset == Some(BlockOffset(cfg, i, c, s.slabs[i].free[|s.slabs[i].free| - 1]))
    {
      InBounds(cfg, s, t, w, c, i);
      Keys(s, Lists.Key(w, c, false), i);
      hide Inv, Lists.Inv, Allocator.Switch, Allocator.CanSwitch, Slab.Inv, Size, Allocator.TakeSlot, BlockOffset, LocalState;
      var part, full := Lists.Key(w, c, false), Lists.Key(w, c, true);
      var slot := PopAndMove(stack, part, full, i);
      Count(w, Allocator.Add64(bytes[w], Size(c)));
      offset := Some(BlockOffset(cfg, i, c, slot.value));
      TakenShows(s, t, w, c, i);
    }

    /** The words after `allocate_within_slab` are those of the state after the step. */
    lemma TakenShows(s: Allocator.State, t: nat, w: nat, c: nat, i: nat)
      requires Allocator.Sized(cfg, s) && t < |s.agents| && w < cfg.numWorkers && c < NUM_SIZE_CLASSES && i < cfg.numSlabs
      requires s.slabs[i].free != [] && s.slabs[i].free[|s.slabs[i].free| - 1] < |s.slabs[i].loc|
      requires Apart() && bytes[..] == s.bytes[w := Allocator.Add64(s.bytes[w], Size(c))]
      requires if |s.slabs[i].free| == 1
               then Allocator.CanSwitch(s.local, Lists.Key(w, c, false), Lists.Key(w, c, true), i)
                    && LocalState() == Allocator.Switch(s.local, Lists.Key(w, c, false), Lists.Key(w, c, true), i)
               else LocalState() == s.local
      ensures Shows(Allocator.TakeSlot(cfg, s, t, w, c, i))
      ensures i < |Allocator.TakeSlot(cfg, s, t, w, c, i).slabs|
      ensures Allocator.TakeSlot(cfg, s, t, w, c, i).slabs[i].free == s.slabs[i].free[..|s.slabs[i].free| - 1]
    {
      hide Allocator.Switch, Allocator.CanSwitch, Size, BlockOffset, Apart, LocalState;
    }

    /**
     * `local_free_with_size_index` up to the push on the global list: true if the slab is wholly free and was taken
     * off its list for that push. Its first arm is unreachable because a slab has room for more than one block.
     */
    method FreeAndMove(stack: FreeStack.FreeStack, part: Lists.Key, full: Lists.Key, i: nat, k: nat) returns (given: bool)
      requires Apart() && Lists.Inv(LocalState()) && part in lists && full in lists && part != full
      requires stack.Valid() && |stack.Contents()| < stack.capacity && stack.capacity >= 2
      requires var from := if stack.Contents() == [] then full else part; from in spelled && i in spelled[from]
      requires part in spelled && full in spelled
      modifies this`spelled, nodes, lists[part], lists[full], stack, stack.stack
      ensures stack.Valid() && stack.capacity == old(stack.capacity) && stack.Contents() == old(stack.Contents()) + [k]
      ensures given <==> |stack.Contents()| == stack.capacity
      ensures old(stack.Contents()) == [] ==>
                Allocator.CanSwitch(old(LocalState()), full, part, i) && LocalState() == Allocator.Switch(old(LocalState()), full, part, i)
      ensures old(stack.Contents()) != [] ==>
                if given then Lists.CanRemove(old(LocalState()), part, i) && LocalState() == Lists.RemoveFrom(old(LocalState()), part, i)
                else LocalState() == old(LocalState())
    {
      hide Lists.Inv, Allocator.Switch, Allocator.CanSwitch, Lists.CanRemove, Lists.RemoveFrom;
      var wasFull := stack.IsEmpty();
      stack.Push(k);
      var isEmpty := stack.IsFull();
      given := false;
      if wasFull && isEmpty {
        assert false;
      } else if wasFull {
        Switch(full, part, i);
      } else if isEmpty {
        Take(part, i);
        given := true;
      }
    }

    /** The local half of `free_offset`: the count and the free are one step of the step system. */
    method LocalFree(stack: FreeStack.FreeStack, ghost s: Allocator.State, ghost t: nat, w: nat, c: nat, i: nat, k: nat)
      returns (given: bool)
      requires Inv(cfg, s) && Shows(s) && t < |s.agents| && i < |s.slabs| && c == s.slabs[i].sizeIndex
      requires s.agents[t] == Allocator.Agent(Allocator.Worker(w), Allocator.FreeLocal(i, k))
      requires stack.Valid() && stack.Contents() == s.slabs[i].free && stack.capacity == s.slabs[i].capacity && stack.stack != bytes
      requires Lists.Key(w, c, false) in lists && Lists.Key(w, c, true) in lists
      modifies this`spelled, nodes, lists[Lists.Key(w, c, false)], lists[Lists.Key(w, c, true)], stack, stack.stack, bytes
      ensures w < cfg.numWorkers && i < cfg.numSlabs && Allocator.Sized(cfg, s)
      ensures Shows(Allocator.LocalFree(cfg, s, t, w, i, k))
      ensures var s' := Allocator.LocalFree(cfg, s, t, w, i, k);
        && i < |s'.slabs| && stack.Valid() && stack.Contents() == s'.slabs[i].free
        && t < |s'.agents| && (given <==> s'.agents[t].pc == Allocator.Giving(i, Allocator.Return))
    {
      FreeInBounds(cfg, s, t, w, i, k);
      OwnKeys(s, w, c, i);
      hide Inv, Lists.Inv, Allocator.Switch, Allocator.CanSwitch, Slab.Inv, Size, Allocator.LocalFree, LocalState;
      Count(w, Allocator.Sub64(bytes[w], Size(c)));
      given := FreeAndMove(stack, Lists.Key(w, c, false), Lists.Key(w, c, true), i, k);
      FreedShows(s, t, w, c, i, k, given);
    }

    lemma OwnKeys(s: Allocator.State, w: nat, c: nat, i: nat)
      requires Shows(s) && Allocator.Sized(cfg, s) && w < cfg.numWorkers && c < NUM_SIZE_CLASSES && i < |s.slabs|
      requires var from := Lists.Key(w, c, s.slabs[i].free == []); from in s.local.lists && i in s.local.lists[from]
      ensures Lists.Key(w, c, false) in spelled && Lists.Key(w, c, true) in spelled
      ensures var from := Lists.Key(w, c, s.slabs[i].free == []); i in spelled[from]
    {
    }

    /** What the words must be after a slot went back to slab `i`, on the lists as the outcome says. */
    ghost predicate Moved(s: Allocator.State, w: nat, c: nat, i: nat, given: bool)
      reads this, nodes, lists.Values, bytes
      requires i < |s.slabs|
    {
      var part, full := Lists.Key(w, c, false), Lists.Key(w, c, true);
      && Apart()
      && (s.slabs[i].free == [] ==>
            !given && Allocator.CanSwitch(s.local, full, part, i) && LocalState() == Allocator.Switch(s.local, full, part, i))
      && (s.slabs[i].free != [] ==>
            if given then Lists.CanRemove(s.local, part, i) && LocalState() == Lists.RemoveFrom(s.local, part, i)
            else LocalState() == s.local)
    }

    lemma PushedShows(s: Allocator.State, t: nat, w: nat, c: nat, i: nat, pc: Allocator.Pc, after: Allocator.After, given: bool)
      requires Allocator.Sized(cfg, s) && t < |s.agents| && i < cfg.numSlabs && !pc.Giving?
      requires s.slabs[i].ops[t].Holding? || s.slabs[i].ops[t].DrainHold?
      requires s.slabs[i].ops[t].slot < |s.slabs[i].loc|
      requires Moved(s, w, c, i, given) && bytes[..] == s.bytes
      requires given <==> |s.slabs[i].free| + 1 == s.slabs[i].capacity
      ensures var s' := Allocator.PushFree(cfg, s, t, w, c, i, pc, after);
        && Shows(s') && i < |s'.slabs| && s'.slabs[i].free == s.slabs[i].free + [s.slabs[i].ops[t].slot]
        && t < |s'.agents| && (given <==> s'.agents[t].pc == Allocator.Giving(i, after))
    {
      hide Allocator.Switch, Allocator.CanSwitch, Lists.CanRemove, Lists.RemoveFrom, Apart, LocalState;
    }

    lemma FreedShows(s: Allocator.State, t: nat, w: nat, c: nat, i: nat, k: nat, given: bool)
      requires Allocator.Sized(cfg, s) && t < |s.agents| && i < cfg.numSlabs && w < cfg.numWorkers && c < NUM_SIZE_CLASSES
      requires s.slabs[i].ops[t] == Slab.Holding(k) && k < |s.slabs[i].loc| && s.slabs[i].sizeIndex == c
      requires Moved(s, w, c, i, given) && bytes[..] == s.bytes[w := Allocator.Sub64(s.bytes[w], Size(c))]
      requires given <==> |s.slabs[i].free| + 1 == s.slabs[i].capacity
      ensures var s' := Allocator.LocalFree(cfg, s, t, w, i, k);
        && Shows(s') && i < |s'.slabs| && s'.slabs[i].free == s.slabs[i].free + [k]
        && t < |s'.agents| && (given <==> s'.agents[t].pc == Allocator.Giving(i, Allocator.Return))
    {
      var counted := s.(bytes := s.bytes[w := Allocator.Sub64(s.bytes[w], Size(c))]);
      hide Allocator.PushFree, Shows, Apart, LocalState, Allocator.Switch, Allocator.CanSwitch, Lists.CanRemove, Lists.RemoveFrom, Size;
      PushedShows(counted, t, w, c, i, Allocator.Idle, Allocator.Return, given);
    }

    /** One turn of the drain loop, `local_free_with_size_index` on the slot just yielded, is one step of the step system. */
    method DrainFree(stack: FreeStack.FreeStack, ghost s: Allocator.State, ghost t: nat, w: nat, ghost d: Allocator.Drain, i: nat, c: nat, k: nat)
      returns (given: bool)
      requires Inv(cfg, s) && Shows(s) && t < |s.agents| && i < |s.slabs| && i == d.slab && c == d.sizeIndex
      requires s.agents[t] == Allocator.Agent(Allocator.Worker(w), Allocator.CleanFree(d))
      requires t < |s.slabs[i].ops| && Slab.Held(s.slabs[i].ops[t]) == Some(k)
      requires stack.Valid() && stack.Contents() == s.slabs[i].free && stack.capacity == s.slabs[i].capacity && stack.stack != bytes
      requires Lists.Key(w, c, false) in lists && Lists.Key(w, c, true) in lists
      modifies this`spelled, nodes, lists[Lists.Key(w, c, false)], lists[Lists.Key(w, c, true)], stack, stack.stack
      ensures i < cfg.numSlabs && Allocator.Sized(cfg, s)
      ensures Shows(Allocator.DrainFree(cfg, s, t, w, d))
      ensures var s' := Allocator.DrainFree(cfg, s, t, w, d);
        && i < |s'.slabs| && stack.Valid() && stack.Contents() == s'.slabs[i].free
        && t < |s'.agents| && (given <==> s'.agents[t].pc.Giving?)
    {
      DrainInBounds(cfg, s, t, w, d);
      OwnKeys(s, w, c, i);
      hide Inv, Lists.Inv, Allocator.Switch, Allocator.CanSwitch, Slab.Inv, Allocator.DrainFree, LocalState;
      given := FreeAndMove(stack, Lists.Key(w, c, false), Lists.Key(w, c, true), i, k);
      DrainedShows(s, t, w, d, given);
    }

    lemma DrainedShows(s: Allocator.State, t: nat, w: nat, d: Allocator.Drain, given: bool)
      requires Allocator.Sized(cfg, s) && t < |s.agents| && d.slab < cfg.numSlabs
      requires s.slabs[d.slab].ops[t].DrainHold? && s.slabs[d.slab].ops[t].slot < |s.slabs[d.slab].loc|
      requires Moved(s, w, d.sizeIndex, d.slab, given) && bytes[..] == s.bytes
      requires given <==> |s.slabs[d.slab].free| + 1 == s.slabs[d.slab].capacity
      ensures var s' := Allocator.DrainFree(cfg, s, t, w, d);
        && Shows(s') && d.slab < |s'.slabs| && s'.slabs[d.slab].free == s.slabs[d.slab].free + [s.slabs[d.slab].ops[t].slot]
        && t < |s'.agents| && (given <==> s'.agents[t].pc.Giving?)
    {
      var e := d.(freed := d.freed + 1);
      hide Shows, Moved, Apart, LocalState, Allocator.Switch, Allocator.CanSwitch, Lists.CanRemove, Lists.RemoveFrom;
      PushedShows(s, t, w, d.sizeIndex, d.slab, Allocator.CleanDrain(e), Allocator.Resume(e), given);
    }

    /** The end of `take_slab`: filling the free stack and the push on the partial list are one step of the step system. */
    method CutSlab(stack: FreeStack.FreeStack, ghost s: Allocator.State, ghost t: nat, w: nat, c: nat, i: nat, ghost words: seq<nat>)
      requires Inv(cfg, s) && Shows(s) && t < |s.agents| && i < |s.slabs| && c < NUM_SIZE_CLASSES
      requires s.agents[t] == Allocator.Agent(Allocator.Worker(w), Allocator.ResetStack(c, i))
      requires Capacity(cfg, c) <= stack.stack.Length && stack.stack != bytes && |words| == Capacity(cfg, c)
      requires Lists.Key(w, c, false) in lists
      modifies this`spelled, nodes, lists[Lists.Key(w, c, false)], stack, stack.stack
      ensures w < cfg.numWorkers && i < cfg.numSlabs && Allocator.Sized(cfg, s)
      ensures Shows(Allocator.Refill(cfg, s, t, w, c, i, words))
      ensures var s' := Allocator.Refill(cfg, s, t, w, c, i, words);
        i < |s'.slabs| && stack.Valid() && stack.Contents() == s'.slabs[i].free && stack.capacity == s'.slabs[i].capacity
    {
      CutInBounds(cfg, s, t, w, c, i);
      PartKey(s, Lists.Key(w, c, false));
      hide Inv, Lists.Inv, Slab.Inv, Allocator.Refill, Capacity, Slab.Descending;
      stack.Reset(Capacity(cfg, c));
      Put(Lists.Key(w, c, false), i);
      CutShows(s, t, w, c, i, words);
    }

    lemma PartKey(s: Allocator.State, k: Lists.Key)
      requires Shows(s) && k in s.local.lists
      ensures k in spelled && nodes.Length == |s.local.nodes|
    {
    }

    lemma CutShows(s: Allocator.State, t: nat, w: nat, c: nat, i: nat, words: seq<nat>)
      requires Allocator.Sized(cfg, s) && t < |s.agents| && w < cfg.numWorkers && c < NUM_SIZE_CLASSES && i < cfg.numSlabs
      requires Apart() && bytes[..] == s.bytes && Lists.CanPush(s.local, Lists.Key(w, c, false), i)
      requires LocalState() == Lists.PushTo(s.local, Lists.Key(w, c, false), i)
      ensures var s' := Allocator.Refill(cfg, s, t, w, c, i, words);
        && Shows(s') && i < |s'.slabs|
        && s'.slabs[i].free == Slab.Descending(Capacity(cfg, c)) && s'.slabs[i].capacity == Capacity(cfg, c)
    {
      hide Lists.PushTo, Lists.CanPush, Apart, LocalState, Capacity, Slab.Descending;
    }
  }

  lemma FreeInBounds(cfg: Config, s: Allocator.State, t: nat, w: nat, i: nat, k: nat)
    requires Inv(cfg, s) && t < |s.agents| && s.agents[t] == Allocator.Agent(Allocator.Worker(w), Allocator.FreeLocal(i, k))
    ensures w < cfg.numWorkers && i < cfg.numSlabs && Allocator.Sized(cfg, s) && Lists.Inv(s.local)
    ensures var x := s.slabs[i];
      && x.sizeIndex < NUM_SIZE_CLASSES && x.ops[t] == Slab.Holding(k) && k < |x.loc| && |x.free| < x.capacity && x.capacity >= 4
      && Lists.Key(w, x.sizeIndex, x.free == []) in s.local.lists && i in s.local.lists[Lists.Key(w, x.sizeIndex, x.free == [])]
  {
    hide Pool.Inv, Lists.Inv, Slab.Inv, WorkerOk, Size, Capacity, ValidSlabSize;
    assert AgentOk(cfg, s, t) && SlabOk(cfg, s, i);
    assert SlabOpFits(s.agents[t].pc, i, s.slabs[i].ops[t]);
    AllocatorFree.HeldSlot(cfg, s, t, i);
    CapacityExact(cfg, s.slabs[i].sizeIndex);
  }

  lemma DrainInBounds(cfg: Config, s: Allocator.State, t: nat, w: nat, d: Allocator.Drain)
    requires Inv(cfg, s) && t < |s.agents| && s.agents[t] == Allocator.Agent(Allocator.Worker(w), Allocator.CleanFree(d))
    ensures w < cfg.numWorkers && d.slab < cfg.numSlabs && Allocator.Sized(cfg, s) && Lists.Inv(s.local) && d.sizeIndex < NUM_SIZE_CLASSES
    ensures var x := s.slabs[d.slab];
      && x.ops[t].DrainHold? && x.ops[t].slot < |x.loc| && |x.free| < x.capacity && x.capacity >= 4
      && Lists.Key(w, d.sizeIndex, x.free == []) in s.local.lists && d.slab in s.local.lists[Lists.Key(w, d.sizeIndex, x.free == [])]
  {
    hide Pool.Inv, Lists.Inv, Slab.Inv, WorkerOk, Size, Capacity, ValidSlabSize, Midway, Ahead;
    assert AgentOk(cfg, s, t) && SlabOk(cfg, s, d.slab);
    assert SlabOpFits(s.agents[t].pc, d.slab, s.slabs[d.slab].ops[t]);
    AllocatorFree.HeldSlot(cfg, s, t, d.slab);
    CapacityExact(cfg, s.slabs[d.slab].sizeIndex);
  }

  lemma CutInBounds(cfg: Config, s: Allocator.State, t: nat, w: nat, c: nat, i: nat)
    requires Inv(cfg, s) && t < |s.agents| && s.agents[t] == Allocator.Agent(Allocator.Worker(w), Allocator.ResetStack(c, i))
    requires c < NUM_SIZE_CLASSES
    ensures w < cfg.numWorkers && i < cfg.numSlabs && Allocator.Sized(cfg, s) && Lists.Inv(s.local) && Lists.InNone(s.local, i)
    ensures Lists.Key(w, c, false) in s.local.lists && Capacity(cfg, c) <= NULL_U16
  {
    hide Pool.Inv, Lists.Inv, Slab.Inv, WorkerOk, Size, Capacity, ValidSlabSize;
    assert AgentOk(cfg, s, t) && SlabOk(cfg, s, i);
    AllocatorAssign.NotListed(cfg, s, i);
    CapacityExact(cfg, c);
  }

  lemma InBounds(cfg: Config, s: Allocator.State, t: nat, w: nat, c: nat, i: nat)
    requires Inv(cfg, s) && t < |s.agents| && s.agents[t] == Allocator.Agent(Allocator.Worker(w), Allocator.AllocSlot(c, i))
    ensures c < NUM_SIZE_CLASSES && w < cfg.numWorkers && i < cfg.numSlabs && Allocator.Sized(cfg, s)
    ensures Lists.Inv(s.local) && Lists.Key(w, c, false) in s.local.lists && i in s.local.lists[Lists.Key(w, c, false)]
    ensures s.slabs[i].free != [] && s.slabs[i].free[|s.slabs[i].free| - 1] < |s.slabs[i].loc|
  {
    AllocatorAssign.PartialYields(cfg, s, t, c, i);
    hide Pool.Inv, Lists.Inv, WorkerOk;
    assert AgentOk(cfg, s, t) && SlabOk(cfg, s, i);
    Slab.TakeKeeps(s.slabs[i], 0);
  }
}
