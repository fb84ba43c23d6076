/**
 * The stack of free slots of one slab: two counters and a trailing array, used by the slab's owner only.
 * Its contents are the `free` of a slab, so what is proved there of that sequence is proved of this code.
 */
module FreeStack {
  import opened Base
  import Slab

  class FreeStack {
    var top: nat
    var capacity: nat
    const stack: array<nat>

    /** The trailing array has room for the capacity, and the counters are 16-bit words. */
    ghost predicate Valid()
      reads this
    {
      top <= capacity <= stack.Length && capacity <= NULL_U16
    }

    ghost function Contents(): (s: seq<nat>)
      reads this, stack
      requires Valid()
    {
      stack[..top]
    }

    /** Wraps the counters and the array; what they hold is whatever the file held, here nothing. */
    constructor (stack: array<nat>)
      ensures Valid() && this.stack == stack && Contents() == []
    {
      this.stack := stack;
      top, capacity := 0, 0;
    }

    /** All slots free, in descending order: slot 0 is the first to be popped. */
    method Reset(newCapacity: nat)
      requires newCapacity <= stack.Length && newCapacity <= NULL_U16
      modifies this, stack
      ensures Valid() && capacity == newCapacity
      ensures Contents() == Slab.Descending(newCapacity)
    {
      top := newCapacity;
      capacity := newCapacity;
      for index := 0 to newCapacity
        invariant top == capacity == newCapacity
        invariant forall k: nat :: k < index ==> stack[k] == newCapacity - k - 1
      {
        stack[index] := newCapacity - index - 1;
      }
      assert stack[..newCapacity] == Slab.Descending(newCapacity);
    }

    method Pop() returns (slot: Option<nat>)
      requires Valid()
      modifies this`top
      ensures Valid()
      ensures slot == None <==> old(Contents()) == []
      ensures slot.Some? ==> old(Contents()) == Contents() + [slot.value]
      ensures slot.None? ==> Contents() == old(Contents())
    {
      if top == 0 { return None; }
      var newTop := top - 1;
      var popped := stack[newTop];
      top := newTop;
      return Some(popped);
    }

    /** The caller promises that the stack is not full. */
    method Push(item: nat)
      requires Valid() && top < capacity
      modifies this`top, stack
      ensures Valid() && Contents() == old(Contents()) + [item]
    {
      stack[top] := item;
      top := top + 1;
    }

    method Len() returns (n: nat)
      requires Valid()
      ensures n == |Contents()|
    {
      n := top;
    }

    method IsEmpty() returns (b: bool)
      requires Valid()
      ensures b <==> Contents() == []
    {
      b := top == 0;
    }

    method IsFull() returns (b: bool)
      requires Valid()
      ensures b <==> |Contents()| == capacity
    {
      b := top == capacity;
    }
  }

  /** `pops` pops in a row, the last popped slot last. */
  function Popped(contents: seq<nat>, pops: nat): (r: seq<nat>)
    requires pops <= |contents|
    ensures |r| == pops
  {
    if pops == 0 then [] else [contents[|contents| - 1]] + Popped(contents[..|contents| - 1], pops - 1)
  }

  lemma {:induction false} PoppedAt(contents: seq<nat>, pops: nat, k: nat)
    requires k < pops <= |contents|
    ensures Popped(contents, pops)[k] == contents[|contents| - 1 - k]
  {
    if k > 0 { PoppedAt(contents[..|contents| - 1], pops - 1, k - 1); }
  }

  /** A freshly cut slab hands its slots out in ascending order, each once, until none is left. */
  lemma FreshSlabAscends(capacity: nat, k: nat)
    requires k < capacity
    ensures Popped(Slab.Descending(capacity), capacity)[k] == k
  {
    PoppedAt(Slab.Descending(capacity), capacity, k);
  }

  /** Slots pushed back in ascending order come out in descending order. */
  lemma PushedBackReverses(contents: seq<nat>, items: seq<nat>, k: nat)
    requires k < |items|
    ensures Popped(contents + items, |items|)[k] == items[|items| - 1 - k]
  {
    PoppedAt(contents + items, |items|, k);
  }
}
