/** Null markers, optional values and the chain vocabulary shared by every list of the allocator. */
module Base {

  /** Null marker of every 32-bit slab index. */
  const NULL_U32: nat := 0xFFFF_FFFF

  /** Null marker of every 16-bit slot index. */
  const NULL_U16: nat := 0xFFFF

  const TWO_16: nat := 0x1_0000
  const TWO_32: nat := 0x1_0000_0000
  const TWO_64: nat := 0x1_0000_0000_0000_0000

  datatype Option<+T> = None | Some(value: T)

  ghost predicate NoDup<T>(xs: seq<T>) {
    forall i, j :: 0 <= i < j < |xs| ==> xs[i] != xs[j]
  }

  /** The k-th element of `xs`, or the null marker one past its end. */
  function At(xs: seq<nat>, k: nat, nil: nat): nat {
    if k < |xs| then xs[k] else nil
  }

  /** The node at position `k` of `xs` stores the position's successor. */
  ghost predicate LinkAt(links: seq<nat>, xs: seq<nat>, k: nat, nil: nat)
    requires k < |xs|
  {
    xs[k] < |links| && links[xs[k]] == At(xs, k + 1, nil)
  }

  /** `first` and the stored links spell exactly the sequence `xs`, ended by the null marker. */
  ghost predicate Linked(links: seq<nat>, first: nat, xs: seq<nat>, nil: nat) {
    && first == At(xs, 0, nil)
    && forall k: nat {:trigger LinkAt(links, xs, k, nil)} :: k < |xs| ==> LinkAt(links, xs, k, nil)
  }

  /** What the first link of a non-empty chain says. */
  lemma LinkedFirst(links: seq<nat>, first: nat, xs: seq<nat>, nil: nat)
    requires Linked(links, first, xs, nil)
    ensures first == At(xs, 0, nil)
    ensures xs != [] ==> first == xs[0] < |links| && links[first] == At(xs, 1, nil)
  {
    if xs != [] { assert LinkAt(links, xs, 0, nil); }
  }

  lemma LinkedCons(links: seq<nat>, first: nat, xs: seq<nat>, nil: nat, x: nat)
    requires Linked(links, first, xs, nil)
    requires x < |links| && links[x] == first
    ensures Linked(links, x, [x] + xs, nil)
  {
    var ys := [x] + xs;
    forall k: nat | k < |ys| ensures LinkAt(links, ys, k, nil) {
      if k > 0 { assert LinkAt(links, xs, k - 1, nil); }
    }
  }

  lemma LinkedTail(links: seq<nat>, first: nat, xs: seq<nat>, nil: nat)
    requires Linked(links, first, xs, nil) && xs != []
    ensures first == xs[0] < |links|
    ensures Linked(links, links[xs[0]], xs[1..], nil)
  {
    var ys := xs[1..];
    assert LinkAt(links, xs, 0, nil);
    forall k: nat | k < |ys| ensures LinkAt(links, ys, k, nil) {
      assert LinkAt(links, xs, k + 1, nil);
    }
  }

  lemma LinkedFrame(links: seq<nat>, first: nat, xs: seq<nat>, nil: nat, j: nat, v: nat)
    requires Linked(links, first, xs, nil)
    requires j < |links| && j !in xs
    ensures Linked(links[j := v], first, xs, nil)
  {
    var links' := links[j := v];
    forall k: nat | k < |xs| ensures LinkAt(links', xs, k, nil) {
      assert LinkAt(links, xs, k, nil);
      assert xs[k] in xs;
    }
  }

  /** A sequence spelled by the same links from the same start is the same sequence. */
  lemma {:induction false} LinkedUnique(links: seq<nat>, first: nat, xs: seq<nat>, ys: seq<nat>, nil: nat)
    requires Linked(links, first, xs, nil) && Linked(links, first, ys, nil)
    requires nil >= |links|
    ensures xs == ys
    decreases |xs|
  {
    LinkedFirst(links, first, xs, nil);
    LinkedFirst(links, first, ys, nil);
    if xs != [] {
      LinkedTail(links, first, xs, nil);
      LinkedTail(links, first, ys, nil);
      LinkedUnique(links, links[xs[0]], xs[1..], ys[1..], nil);
      assert xs == [xs[0]] + xs[1..] == ys;
    }
  }

  /** The elements of a sequence. */
  ghost function Elems<T(!new)>(xs: seq<T>): (r: set<T>)
    ensures forall x :: x in r <==> x in xs
  {
    set x | x in xs
  }

  lemma {:induction false} NoDupSetSize<T(!new)>(xs: seq<T>)
    requires NoDup(xs)
    ensures |Elems(xs)| == |xs|
  {
    if xs != [] {
      NoDupSetSize(xs[1..]);
      assert Elems(xs) == Elems(xs[1..]) + {xs[0]};
    } else {
      assert Elems(xs) == {};
    }
  }

  /** The set of all indices below `n`. */
  ghost function Below(n: nat): (r: set<nat>)
    ensures |r| == n
    ensures forall i: nat :: i in r <==> i < n
  {
    if n == 0 then {} else Below(n - 1) + {n - 1}
  }

  lemma SubsetSize<T>(a: set<T>, b: set<T>)
    requires a <= b
    ensures |a| <= |b|
    ensures |a| == |b| ==> a == b
  {
    assert b == a + (b - a);
    assert |b| == |a| + |b - a|;
    if |a| == |b| { assert b - a == {}; }
  }

  /** Distinct indices below `n` number at most `n`, and exactly `n` only when all of them occur. */
  lemma Pigeonhole(xs: seq<nat>, n: nat)
    requires NoDup(xs) && forall x :: x in xs ==> x < n
    ensures |xs| <= n
    ensures |xs| == n <==> forall i: nat :: i < n ==> i in xs
  {
    NoDupSetSize(xs);
    var a := Elems(xs);
    var b := Below(n);
    SubsetSize(a, b);
    if |xs| == n {
      forall i: nat | i < n ensures i in xs { assert i in b; }
    }
    if forall i: nat :: i < n ==> i in xs {
      assert a == b;
    }
  }
}
