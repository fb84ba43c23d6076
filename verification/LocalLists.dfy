/** The whole family of worker-local lists, two per worker and size class, over one node array. */
module LocalLists {
  import opened Base
  import opened WorkerLocalList

  /** The partial or the full list of a worker for one size class. */
  datatype Key = Key(worker: nat, sizeIndex: nat, full: bool)

  /** `lists` is a history variable: the sequences the heads and nodes spell. */
  datatype State = State(nodes: seq<Link>, heads: map<Key, nat>, lists: map<Key, seq<nat>>)

  /** An unlinked node. */
  const NULL_LINK: Link := Link(NULL_U32, NULL_U32)

  ghost predicate ListOk(s: State, k: Key)
    requires k in s.lists && k in s.heads
  {
    Spells(s.nodes, s.heads[k], s.lists[k])
  }

  ghost predicate Inv(s: State) {
    && s.heads.Keys == s.lists.Keys
    && |s.nodes| <= NULL_U32
    && (forall k :: k in s.lists ==> ListOk(s, k))
    && (forall k, l, i: nat :: k in s.lists && l in s.lists && i in s.lists[k] && i in s.lists[l] ==> k == l)
  }

  ghost predicate InNone(s: State, i: nat) {
    forall k {:trigger s.lists[k]} :: k in s.lists ==> i !in s.lists[k]
  }

  predicate Ref(n: nat, i: nat) {
    i < n || i == NULL_U32
  }

  /** The bounds checks `push` makes. */
  predicate CanPush(s: State, k: Key, i: nat) {
    k in s.heads && i < |s.nodes| && Ref(|s.nodes|, s.heads[k])
  }

  /** The bounds checks `remove` makes. */
  predicate CanRemove(s: State, k: Key, i: nat) {
    k in s.heads && i < |s.nodes| && Ref(|s.nodes|, s.nodes[i].prev) && Ref(|s.nodes|, s.nodes[i].next)
  }

  ghost function PushTo(s: State, k: Key, i: nat): State
    requires CanPush(s, k, i)
  {
    State(PushNodes(s.nodes, s.heads[k], i), s.heads[k := i],
          if k in s.lists then s.lists[k := [i] + s.lists[k]] else s.lists)
  }

  ghost function RemoveFrom(s: State, k: Key, i: nat): State
    requires CanRemove(s, k, i)
  {
    State(RemoveNodes(s.nodes, i), s.heads[k := RemoveHead(s.nodes, s.heads[k], i)],
          if k in s.lists && i in s.lists[k] then s.lists[k := Without(s.lists[k], i)] else s.lists)
  }

  lemma PushToKeeps(s: State, k: Key, i: nat)
    requires Inv(s) && k in s.lists && i < |s.nodes| && InNone(s, i)
    ensures CanPush(s, k, i)
    ensures Inv(PushTo(s, k, i))
    ensures |PushTo(s, k, i).nodes| == |s.nodes|
  {
    hide Spells, PushNodes;
    assert ListOk(s, k);
    PushSpells(s.nodes, s.heads[k], s.lists[k], i);
    PushLength(s.nodes, s.heads[k], i);
    var s' := PushTo(s, k, i);
    forall l | l in s'.lists ensures ListOk(s', l) {
      if l != k {
        assert ListOk(s, l);
        assert forall j: nat :: j in s.lists[k] ==> j !in s.lists[l];
        PushFrame(s.nodes, s.heads[k], s.lists[k], i, s.heads[l], s.lists[l]);
      }
    }
    assert forall j: nat :: j in s'.lists[k] <==> j == i || j in s.lists[k];
  }

  lemma PushLength(nodes: seq<Link>, head: nat, i: nat)
    requires i < |nodes| && (head == NULL_U32 || head < |nodes|)
    ensures |PushNodes(nodes, head, i)| == |nodes|
  {
  }

  lemma RemoveFromKeeps(s: State, k: Key, i: nat)
    requires Inv(s) && k in s.lists && i in s.lists[k]
    ensures CanRemove(s, k, i)
    ensures Inv(RemoveFrom(s, k, i))
    ensures InNone(RemoveFrom(s, k, i), i)
    ensures |RemoveFrom(s, k, i).nodes| == |s.nodes|
  {
    hide Spells, RemoveNodes, Without;
    assert ListOk(s, k);
    RemoveInRange(s.nodes, s.heads[k], s.lists[k], i);
    RemoveSpells(s.nodes, s.heads[k], s.lists[k], i);
    SpellsNoDup(s.nodes, s.heads[k], s.lists[k]);
    WithoutElems(s.lists[k], i);
    var s' := RemoveFrom(s, k, i);
    forall l | l in s'.lists ensures ListOk(s', l) {
      if l != k {
        assert ListOk(s, l);
        assert forall j: nat :: j in s.lists[k] ==> j !in s.lists[l];
        RemoveFrame(s.nodes, s.heads[k], s.lists[k], i, s.heads[l], s.lists[l]);
      }
    }
    assert forall l, j: nat {:trigger j in s'.lists[l]} :: l in s'.lists && j in s'.lists[l] ==> j in s.lists[l];
  }

  lemma SpellsNoDup(nodes: seq<Link>, head: nat, xs: seq<nat>)
    requires Spells(nodes, head, xs)
    ensures NoDup(xs)
  {
  }

  /** The head of a list and the link after a listed slab are what the sequences say. */
  lemma ReadHead(s: State, k: Key)
    requires Inv(s) && k in s.lists
    ensures s.heads[k] == At(s.lists[k], 0, NULL_U32)
    ensures s.lists[k] != [] ==> s.heads[k] < |s.nodes|
    ensures s.heads[k] == NULL_U32 <==> s.lists[k] == []
    ensures NoDup(s.lists[k])
  {
    assert ListOk(s, k);
    if s.lists[k] != [] { NodeAt(s.nodes, s.heads[k], s.lists[k], 0); }
  }

  lemma ReadNext(s: State, k: Key, n: nat)
    requires Inv(s) && k in s.lists && n < |s.lists[k]|
    ensures s.lists[k][n] < |s.nodes|
    ensures s.nodes[s.lists[k][n]].next == At(s.lists[k], n + 1, NULL_U32)
    ensures n + 1 < |s.lists[k]| ==> s.lists[k][n + 1] < |s.nodes|
  {
    assert ListOk(s, k);
    NodeAt(s.nodes, s.heads[k], s.lists[k], n);
    if n + 1 < |s.lists[k]| { NodeAt(s.nodes, s.heads[k], s.lists[k], n + 1); }
  }

  lemma ListedInBounds(s: State, k: Key, i: nat)
    requires Inv(s) && k in s.lists && i in s.lists[k]
    ensures i < |s.nodes|
  {
    assert ListOk(s, k);
    NodeAt(s.nodes, s.heads[k], s.lists[k], Pos(s.lists[k], i));
  }
}
