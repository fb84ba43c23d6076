/**
 * The worker-local doubly linked lists of slabs. All lists of all workers, and the global free list,
 * are threaded through one array of nodes indexed by slab; a list is a head word in the worker's header.
 *
 * The functions say what `push` and `remove` store; the lemmas say what that means for the sequences the
 * lists represent; the class is the code, word by word, over the shared array.
 */
module WorkerLocalList {
  import opened Base

  /** The local half of a node. */
  datatype Link = Link(prev: nat, next: nat)

  /** The node at position `k` of `xs` points at its neighbours. */
  ghost predicate NodeOk(nodes: seq<Link>, xs: seq<nat>, k: nat)
    requires k < |xs|
  {
    && xs[k] < |nodes|
    && nodes[xs[k]].next == At(xs, k + 1, NULL_U32)
    && nodes[xs[k]].prev == (if k == 0 then NULL_U32 else xs[k - 1])
  }

  /** The head word and the nodes spell exactly the list `xs`, forwards and backwards. */
  ghost predicate Spells(nodes: seq<Link>, head: nat, xs: seq<nat>) {
    && NoDup(xs)
    && |nodes| <= NULL_U32
    && head == At(xs, 0, NULL_U32)
    && forall k: nat {:trigger NodeOk(nodes, xs, k)} :: k < |xs| ==> NodeOk(nodes, xs, k)
  }

  // ----- what the code stores

  function PushNodes(nodes: seq<Link>, head: nat, i: nat): seq<Link>
    requires i < |nodes| && (head == NULL_U32 || head < |nodes|)
  {
    var linked := nodes[i := Link(NULL_U32, head)];
    if head == NULL_U32 then linked else linked[head := linked[head].(prev := i)]
  }

  function RemoveNodes(nodes: seq<Link>, i: nat): seq<Link>
    requires i < |nodes|
    requires nodes[i].prev == NULL_U32 || nodes[i].prev < |nodes|
    requires nodes[i].next == NULL_U32 || nodes[i].next < |nodes|
    ensures |RemoveNodes(nodes, i)| == |nodes|
  {
    var prev, next := nodes[i].prev, nodes[i].next;
    var a := nodes[i := Link(NULL_U32, NULL_U32)];
    var b := if prev == NULL_U32 then a else a[prev := a[prev].(next := next)];
    if next == NULL_U32 then b else b[next := b[next].(prev := prev)]
  }

  function RemoveHead(nodes: seq<Link>, head: nat, i: nat): nat
    requires i < |nodes|
  {
    if nodes[i].prev == NULL_U32 then nodes[i].next else head
  }

  /** The position of an element. */
  ghost function Pos(xs: seq<nat>, i: nat): (k: nat)
    requires i in xs
    ensures k < |xs| && xs[k] == i
  {
    var k: nat :| k < |xs| && xs[k] == i; k
  }

  /** The sequence without `i`. */
  ghost function Without(xs: seq<nat>, i: nat): seq<nat>
    requires i in xs
  {
    xs[..Pos(xs, i)] + xs[Pos(xs, i) + 1..]
  }

  lemma WithoutElems(xs: seq<nat>, i: nat)
    requires i in xs && NoDup(xs)
    ensures NoDup(Without(xs, i)) && |Without(xs, i)| == |xs| - 1
    ensures forall j: nat :: j in Without(xs, i) <==> j in xs && j != i
  {
    var p := Pos(xs, i);
    var ys := Without(xs, i);
    forall j: nat ensures j in ys <==> j in xs && j != i {
      if j in xs && j != i {
        var q := Pos(xs, j);
        assert ys[if q < p then q else q - 1] == j;
      }
      if j in ys {
        var q := Pos(ys, j);
        assert xs[if q < p then q else q + 1] == j;
      }
    }
  }

  // ----- meaning

  lemma PushSpells(nodes: seq<Link>, head: nat, xs: seq<nat>, i: nat)
    requires Spells(nodes, head, xs) && i < |nodes| && i !in xs
    ensures head == NULL_U32 || head < |nodes|
    ensures Spells(PushNodes(nodes, head, i), i, [i] + xs)
  {
    if xs != [] { NodeAt(nodes, head, xs, 0); }
    var nodes' := PushNodes(nodes, head, i);
    var ys := [i] + xs;
    forall k: nat | k < |ys| ensures NodeOk(nodes', ys, k) {
      if k > 0 { PushAt(nodes, head, xs, i, k - 1); }
    }
  }

  lemma PushAt(nodes: seq<Link>, head: nat, xs: seq<nat>, i: nat, k: nat)
    requires Spells(nodes, head, xs) && i < |nodes| && i !in xs && k < |xs|
    ensures head < |nodes| && xs[k] < |nodes|
    ensures PushNodes(nodes, head, i)[xs[k]]
            == Link(if k == 0 then i else xs[k - 1], At(xs, k + 1, NULL_U32))
  {
    NodeAt(nodes, head, xs, 0);
    NodeAt(nodes, head, xs, k);
    assert k > 0 ==> xs[k] != xs[0];
  }

  /** Pushing on one list leaves every list of other slabs as it was. */
  lemma PushFrame(nodes: seq<Link>, head: nat, xs: seq<nat>, i: nat, other: nat, ys: seq<nat>)
    requires Spells(nodes, head, xs) && i < |nodes| && i !in xs
    requires Spells(nodes, other, ys) && i !in ys && forall j: nat :: j in xs ==> j !in ys
    ensures head == NULL_U32 || head < |nodes|
    ensures Spells(PushNodes(nodes, head, i), other, ys)
  {
    if xs != [] { NodeAt(nodes, head, xs, 0); assert xs[0] in xs; }
    UnchangedSpells(nodes, PushNodes(nodes, head, i), other, ys);
  }

  lemma RemoveInRange(nodes: seq<Link>, head: nat, xs: seq<nat>, i: nat)
    requires Spells(nodes, head, xs) && i in xs
    ensures i < |nodes|
    ensures nodes[i].prev == NULL_U32 || (nodes[i].prev < |nodes| && nodes[i].prev in xs)
    ensures nodes[i].next == NULL_U32 || (nodes[i].next < |nodes| && nodes[i].next in xs)
  {
    var p := Pos(xs, i);
    NodeAt(nodes, head, xs, p);
    if p > 0 { NodeAt(nodes, head, xs, p - 1); }
    if p + 1 < |xs| { NodeAt(nodes, head, xs, p + 1); }
  }

  /** `remove` deletes exactly the given slab, at whatever position it is. */
  lemma RemoveSpells(nodes: seq<Link>, head: nat, xs: seq<nat>, i: nat)
    requires Spells(nodes, head, xs) && i in xs
    ensures i < |nodes|
    ensures nodes[i].prev == NULL_U32 || nodes[i].prev < |nodes|
    ensures nodes[i].next == NULL_U32 || nodes[i].next < |nodes|
    ensures Spells(RemoveNodes(nodes, i), RemoveHead(nodes, head, i), Without(xs, i))
  {
    hide RemoveNodes, Without;
    RemoveInRange(nodes, head, xs, i);
    WithoutElems(xs, i);
    var ys := Without(xs, i);
    var nodes' := RemoveNodes(nodes, i);
    forall k: nat | k < |ys| ensures NodeOk(nodes', ys, k) {
      RemoveAt(nodes, head, xs, i, k);
    }
    WithoutAt(xs, i, 0);
    NodeAt(nodes, head, xs, Pos(xs, i));
    if Pos(xs, i) > 0 { NodeAt(nodes, head, xs, Pos(xs, i) - 1); }
  }

  /** What each node holds after a removal. */
  lemma RemoveNodesAt(nodes: seq<Link>, i: nat, j: nat)
    requires i < |nodes| && j < |nodes|
    requires nodes[i].prev == NULL_U32 || nodes[i].prev < |nodes|
    requires nodes[i].next == NULL_U32 || nodes[i].next < |nodes|
    requires |nodes| <= NULL_U32 && nodes[i].prev != i && nodes[i].next != i
    ensures RemoveNodes(nodes, i)[j] ==
            if j == i then Link(NULL_U32, NULL_U32)
            else Link(if j == nodes[i].next then nodes[i].prev else nodes[j].prev,
                      if j == nodes[i].prev then nodes[i].next else nodes[j].next)
  {
  }

  lemma RemoveAt(nodes: seq<Link>, head: nat, xs: seq<nat>, i: nat, k: nat)
    requires Spells(nodes, head, xs) && i in xs && i < |nodes|
    requires nodes[i].prev == NULL_U32 || nodes[i].prev < |nodes|
    requires nodes[i].next == NULL_U32 || nodes[i].next < |nodes|
    requires k < |Without(xs, i)|
    ensures NodeOk(RemoveNodes(nodes, i), Without(xs, i), k)
  {
    hide Spells, RemoveNodes, Without;
    var p := Pos(xs, i);
    var q := if k < p then k else k + 1;
    WithoutAt(xs, i, k);
    WithoutAt(xs, i, k + 1);
    if k > 0 { WithoutAt(xs, i, k - 1); }
    NodeAt(nodes, head, xs, p);
    NodeAt(nodes, head, xs, q);
    NotOwnNeighbour(nodes, head, xs, i);
    RemoveNodesAt(nodes, i, xs[q]);
    Neighbours(nodes, head, xs, p, q);
  }

  /** The sequence without `i`, position by position. */
  lemma WithoutAt(xs: seq<nat>, i: nat, k: nat)
    requires i in xs
    ensures |Without(xs, i)| == |xs| - 1
    ensures At(Without(xs, i), k, NULL_U32) == At(xs, if k < Pos(xs, i) then k else k + 1, NULL_U32)
  {
  }

  lemma NodeAt(nodes: seq<Link>, head: nat, xs: seq<nat>, k: nat)
    requires Spells(nodes, head, xs) && k < |xs|
    ensures |nodes| <= NULL_U32 && xs[k] < |nodes|
    ensures nodes[xs[k]].next == At(xs, k + 1, NULL_U32)
    ensures nodes[xs[k]].prev == (if k == 0 then NULL_U32 else xs[k - 1])
  {
    assert NodeOk(nodes, xs, k);
  }

  /** The neighbours of position `p` are the nodes at `p - 1` and `p + 1`, and no others. */
  lemma Neighbours(nodes: seq<Link>, head: nat, xs: seq<nat>, p: nat, q: nat)
    requires Spells(nodes, head, xs) && p < |xs| && q < |xs| && p != q
    ensures xs[p] < |nodes| && xs[q] < |nodes| && xs[p] != xs[q]
    ensures xs[q] == nodes[xs[p]].prev <==> q + 1 == p
    ensures xs[q] == nodes[xs[p]].next <==> q == p + 1
  {
    NodeAt(nodes, head, xs, q);
    NodeAt(nodes, head, xs, p);
    if p > 0 { NodeAt(nodes, head, xs, p - 1); }
    if p + 1 < |xs| { NodeAt(nodes, head, xs, p + 1); }
  }

  lemma RemoveFrame(nodes: seq<Link>, head: nat, xs: seq<nat>, i: nat, other: nat, ys: seq<nat>)
    requires Spells(nodes, head, xs) && i in xs
    requires Spells(nodes, other, ys) && forall j: nat :: j in xs ==> j !in ys
    ensures i < |nodes|
    ensures nodes[i].prev == NULL_U32 || nodes[i].prev < |nodes|
    ensures nodes[i].next == NULL_U32 || nodes[i].next < |nodes|
    ensures Spells(RemoveNodes(nodes, i), other, ys)
  {
    hide RemoveNodes;
    RemoveInRange(nodes, head, xs, i);
    NotOwnNeighbour(nodes, head, xs, i);
    forall j: nat | j in ys && j < |nodes| ensures RemoveNodes(nodes, i)[j] == nodes[j] {
      RemoveNodesAt(nodes, i, j);
    }
    UnchangedSpells(nodes, RemoveNodes(nodes, i), other, ys);
  }

  lemma UnchangedSpells(nodes: seq<Link>, nodes': seq<Link>, head: nat, ys: seq<nat>)
    requires Spells(nodes, head, ys) && |nodes'| == |nodes|
    requires forall j: nat :: j in ys && j < |nodes| ==> nodes'[j] == nodes[j]
    ensures Spells(nodes', head, ys)
  {
    forall k: nat | k < |ys| ensures NodeOk(nodes', ys, k) {
      NodeAt(nodes, head, ys, k);
      assert ys[k] in ys;
    }
  }

  /** Two sequences spelled by the same words are equal, so a list means one sequence only. */
  lemma {:induction false} SpellsUnique(nodes: seq<Link>, head: nat, xs: seq<nat>, ys: seq<nat>)
    requires Spells(nodes, head, xs) && Spells(nodes, head, ys)
    ensures xs == ys
  {
    SamePrefix(nodes, head, xs, ys, |xs|);
    SamePrefix(nodes, head, ys, xs, |ys|);
    assert |xs| == |ys|;
  }

  lemma {:induction false} SamePrefix(nodes: seq<Link>, head: nat, xs: seq<nat>, ys: seq<nat>, n: nat)
    requires Spells(nodes, head, xs) && Spells(nodes, head, ys) && n <= |xs|
    ensures n <= |ys| && forall k: nat :: k < n ==> xs[k] == ys[k]
    decreases n
  {
    if n > 0 {
      SamePrefix(nodes, head, xs, ys, n - 1);
      NodeAt(nodes, head, xs, n - 1);
      if n > 1 {
        NodeAt(nodes, head, xs, n - 2);
        NodeAt(nodes, head, ys, n - 2);
      }
    }
  }

  // ----- the code

  /** A node of the shared array. */
  datatype Node = Node(globalNext: nat, local: Link)

  function Locals(nodes: seq<Node>): seq<Link> {
    seq(|nodes|, (i: nat) requires i < |nodes| => nodes[i].local)
  }

  function Globals(nodes: seq<Node>): seq<nat> {
    seq(|nodes|, (i: nat) requires i < |nodes| => nodes[i].globalNext)
  }

  /** Rewriting the local half of one node. */
  lemma LocalStore(nodes: seq<Node>, i: nat, l: Link)
    requires i < |nodes|
    ensures Locals(nodes[i := nodes[i].(local := l)]) == Locals(nodes)[i := l]
    ensures Globals(nodes[i := nodes[i].(local := l)]) == Globals(nodes)
  {
  }

  /** Every list that shares no slab with `xs` and does not hold `i` survives a push of `i` on `xs`. */
  lemma PushFrames(nodes: seq<Link>, head: nat, xs: seq<nat>, i: nat)
    requires Spells(nodes, head, xs) && i < |nodes| && i !in xs
    ensures head == NULL_U32 || head < |nodes|
    ensures forall other: nat, ys: seq<nat> ::
              Spells(nodes, other, ys) && i !in ys && (forall j: nat :: j in xs ==> j !in ys)
              ==> Spells(PushNodes(nodes, head, i), other, ys)
  {
    if xs != [] { NodeAt(nodes, head, xs, 0); }
    forall other: nat, ys: seq<nat>
      | Spells(nodes, other, ys) && i !in ys && (forall j: nat :: j in xs ==> j !in ys)
      ensures Spells(PushNodes(nodes, head, i), other, ys)
    {
      PushFrame(nodes, head, xs, i, other, ys);
    }
  }

  lemma RemoveFrames(nodes: seq<Link>, head: nat, xs: seq<nat>, i: nat)
    requires Spells(nodes, head, xs) && i in xs
    ensures i < |nodes|
    ensures nodes[i].prev == NULL_U32 || nodes[i].prev < |nodes|
    ensures nodes[i].next == NULL_U32 || nodes[i].next < |nodes|
    ensures forall other: nat, ys: seq<nat> ::
              Spells(nodes, other, ys) && (forall j: nat :: j in xs ==> j !in ys)
              ==> Spells(RemoveNodes(nodes, i), other, ys)
  {
    RemoveInRange(nodes, head, xs, i);
    forall other: nat, ys: seq<nat>
      | Spells(nodes, other, ys) && (forall j: nat :: j in xs ==> j !in ys)
      ensures Spells(RemoveNodes(nodes, i), other, ys)
    {
      RemoveFrame(nodes, head, xs, i, other, ys);
    }
  }

  lemma WalkStep(nodes: seq<Link>, head: nat, xs: seq<nat>, n: nat)
    requires Spells(nodes, head, xs) && n <= |xs|
    ensures At(xs, n, NULL_U32) == NULL_U32 <==> n == |xs|
    ensures n < |xs| ==> xs[n] < |nodes| && nodes[xs[n]].next == At(xs, n + 1, NULL_U32)
  {
    if n < |xs| { NodeAt(nodes, head, xs, n); }
  }

  class LocalList {
    var head: nat
    const list: array<Node>

    constructor (list: array<Node>)
      requires list.Length <= NULL_U32
      ensures this.list == list && head == NULL_U32
      ensures Spells(Locals(list[..]), head, [])
    {
      this.list := list;
      head := NULL_U32;
    }

    method Head() returns (first: Option<nat>)
      ensures first == if head == NULL_U32 then None else Some(head)
    {
      if head != NULL_U32 {
        first := Some(head);
      } else {
        first := None;
      }
    }

    /** The pushed slab becomes the first; no other list threaded through the array changes. */
    method Push(slab: nat, ghost xs: seq<nat>)
      requires Spells(Locals(list[..]), head, xs)
      requires slab < list.Length && slab !in xs
      modifies this`head, list
      ensures Spells(Locals(list[..]), head, [slab] + xs)
      ensures head == slab && (old(head) == NULL_U32 || old(head) < list.Length)
      ensures Locals(list[..]) == PushNodes(old(Locals(list[..])), old(head), slab)
      ensures Globals(list[..]) == old(Globals(list[..]))
      ensures forall other: nat, ys: seq<nat> ::
                old(Spells(Locals(list[..]), other, ys)) && slab !in ys && (forall j: nat :: j in xs ==> j !in ys)
                ==> Spells(Locals(list[..]), other, ys)
    {
      hide Spells;
      ghost var before := list[..];
      PushSpells(Locals(before), head, xs, slab);
      PushFrames(Locals(before), head, xs, slab);

      var currentHead := head;
      list[slab] := list[slab].(local := Link(NULL_U32, currentHead));
      ghost var mid := list[..];
      assert mid == before[slab := before[slab].(local := Link(NULL_U32, currentHead))];
      LocalStore(before, slab, Link(NULL_U32, currentHead));
      if currentHead != NULL_U32 {
        list[currentHead] := list[currentHead].(local := list[currentHead].local.(prev := slab));
        LocalStore(mid, currentHead, mid[currentHead].local.(prev := slab));
        assert list[..] == mid[currentHead := mid[currentHead].(local := mid[currentHead].local.(prev := slab))];
      }
      head := slab;
      assert Locals(list[..]) == PushNodes(Locals(before), currentHead, slab);
    }

    /** The slab leaves the list from any position; no other list threaded through the array changes. */
    method Remove(slab: nat, ghost xs: seq<nat>)
      requires Spells(Locals(list[..]), head, xs)
      requires slab < list.Length && slab in xs
      modifies this`head, list
      ensures Spells(Locals(list[..]), head, Without(xs, slab))
      ensures var before := old(Locals(list[..]));
              && (before[slab].prev == NULL_U32 || before[slab].prev < |before|)
              && (before[slab].next == NULL_U32 || before[slab].next < |before|)
              && Locals(list[..]) == RemoveNodes(before, slab) && head == RemoveHead(before, old(head), slab)
      ensures list[slab].local == Link(NULL_U32, NULL_U32)
      ensures Globals(list[..]) == old(Globals(list[..]))
      ensures forall other: nat, ys: seq<nat> ::
                old(Spells(Locals(list[..]), other, ys)) && (forall j: nat :: j in xs ==> j !in ys)
                ==> Spells(Locals(list[..]), other, ys)
    {
      hide Spells;
      ghost var before := list[..];
      RemoveSpells(Locals(before), head, xs, slab);
      RemoveFrames(Locals(before), head, xs, slab);
      NotOwnNeighbour(Locals(before), head, xs, slab);

      var prev, next := list[slab].local.prev, list[slab].local.next;
      list[slab] := list[slab].(local := Link(NULL_U32, NULL_U32));
      ghost var a := list[..];
      assert a == before[slab := before[slab].(local := Link(NULL_U32, NULL_U32))];
      LocalStore(before, slab, Link(NULL_U32, NULL_U32));
      if prev != NULL_U32 {
        list[prev] := list[prev].(local := list[prev].local.(next := next));
        LocalStore(a, prev, a[prev].local.(next := next));
        assert list[..] == a[prev := a[prev].(local := a[prev].local.(next := next))];
      } else {
        head := next;
      }
      ghost var b := list[..];
      if next != NULL_U32 {
        list[next] := list[next].(local := list[next].local.(prev := prev));
        LocalStore(b, next, b[next].local.(prev := prev));
        assert list[..] == b[next := b[next].(local := b[next].local.(prev := prev))];
      }
      assert Locals(list[..]) == RemoveNodes(Locals(before), slab);
    }

    /** Walking the next links from the head yields the list in order. */
    method Iterate(ghost xs: seq<nat>) returns (items: seq<nat>)
      requires Spells(Locals(list[..]), head, xs)
      ensures items == xs
    {
      items := [];
      var current := head;
      WalkStep(Locals(list[..]), head, xs, 0);
      while current != NULL_U32
        invariant |items| <= |xs| && items == xs[..|items|]
        invariant current == At(xs, |items|, NULL_U32)
        decreases |xs| - |items|
      {
        WalkStep(Locals(list[..]), head, xs, |items|);
        assert Locals(list[..])[current] == list[current].local;
        assert items + [current] == xs[..|items| + 1];
        items := items + [current];
        current := list[current].local.next;
      }
      WalkStep(Locals(list[..]), head, xs, |items|);
    }
  }

  lemma NotOwnNeighbour(nodes: seq<Link>, head: nat, xs: seq<nat>, i: nat)
    requires Spells(nodes, head, xs) && i in xs && i < |nodes|
    ensures nodes[i].prev != i && nodes[i].next != i
    ensures nodes[i].prev == nodes[i].next ==> nodes[i].prev == NULL_U32
  {
    var p := Pos(xs, i);
    NodeAt(nodes, head, xs, p);
    if p > 0 { NodeAt(nodes, head, xs, p - 1); }
    if p + 1 < |xs| { NodeAt(nodes, head, xs, p + 1); }
  }
}
