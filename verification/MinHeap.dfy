/** The binary heap of netlen/graph.go. The grid router keeps its open list in the standard
    library's heap, whose contract is the same, so the router uses this one too. */
module MinHeap {

  /** An entry: what is queued, and how far away it is. */
  datatype Item<T> = Item(n: T, d: real)

  function Parent(i: int): int { (i - 1) / 2 }

  ghost predicate Ordered<T>(a: seq<Item<T>>) {
    forall i :: 0 < i < |a| ==> a[Parent(i)].d <= a[i].d
  }

  /** Ordered except above `i`, where the entry may still be too small for its parent. */
  ghost predicate OrderedExceptAbove<T>(a: seq<Item<T>>, i: nat) {
    && (forall k :: 0 < k < |a| && k != i ==> a[Parent(k)].d <= a[k].d)
    && (forall k :: 0 < i && 0 < k < |a| && Parent(k) == i ==> a[Parent(i)].d <= a[k].d)
  }

  /** Ordered except below `i`, where the entry may still be too large for its children. */
  ghost predicate OrderedExceptBelow<T>(a: seq<Item<T>>, i: nat) {
    && (forall k :: 0 < k < |a| && Parent(k) != i ==> a[Parent(k)].d <= a[k].d)
    && (forall k :: 0 < i && 0 < k < |a| && Parent(k) == i ==> a[Parent(i)].d <= a[k].d)
  }

  function Swapped<T>(a: seq<T>, i: nat, j: nat): (r: seq<T>)
    requires i < |a| && j < |a|
    ensures |r| == |a| && multiset(r) == multiset(a)
  {
    a[i := a[j]][j := a[i]]
  }

  lemma {:induction false} RootIsLeast<T>(a: seq<Item<T>>, i: nat)
    requires Ordered(a) && i < |a|
    ensures a[0].d <= a[i].d
  {
    if i > 0 { RootIsLeast(a, Parent(i)); }
  }

  lemma RootIsLeastOfAll<T>(a: seq<Item<T>>)
    requires Ordered(a) && a != []
    ensures forall y :: y in a ==> a[0].d <= y.d
  {
    forall y | y in a ensures a[0].d <= y.d {
      var k :| 0 <= k < |a| && a[k] == y;
      RootIsLeast(a, k);
    }
  }

  /** Taking the root out by moving the last entry into its place. */
  lemma RemoveRoot<T>(a: seq<Item<T>>)
    requires Ordered(a) && a != []
    ensures var b := a[0 := a[|a| - 1]][..|a| - 1];
      multiset(b) + multiset{a[0]} == multiset(a) && OrderedExceptBelow(b, 0)
  {
    var last := |a| - 1;
    var b := a[0 := a[last]][..last];
    if last > 0 {
      assert a == [a[0]] + a[1..last] + [a[last]];
      assert b == [a[last]] + a[1..last];
    } else {
      assert a == [a[0]] && b == [];
    }
    forall k | 0 < k < |b| && Parent(k) != 0 ensures b[Parent(k)].d <= b[k].d {
      assert a[Parent(k)].d <= a[k].d;
    }
  }

  lemma SiftUpStep<T>(a: seq<Item<T>>, i: nat)
    requires 0 < i < |a| && OrderedExceptAbove(a, i) && a[i].d < a[Parent(i)].d
    ensures OrderedExceptAbove(Swapped(a, Parent(i), i), Parent(i))
  {
    var p := Parent(i);
    var b := Swapped(a, p, i);
    forall k | 0 < k < |b| && k != p ensures b[Parent(k)].d <= b[k].d {
      assert Parent(k) < k;
    }
    forall k | 0 < p && 0 < k < |b| && Parent(k) == p ensures b[Parent(p)].d <= b[k].d {
      assert a[Parent(p)].d <= a[p].d <= a[k].d || k == i;
    }
  }

  lemma SiftDownStep<T>(a: seq<Item<T>>, i: nat, s: nat)
    requires i < |a| && OrderedExceptBelow(a, i)
    requires s < |a| && (s == 2 * i + 1 || s == 2 * i + 2) && a[s].d < a[i].d
    requires forall k :: 0 < k < |a| && Parent(k) == i ==> a[s].d <= a[k].d
    ensures OrderedExceptBelow(Swapped(a, i, s), s)
  {
    var b := Swapped(a, i, s);
    assert Parent(s) == i;
    forall k | 0 < k < |b| && Parent(k) != s ensures b[Parent(k)].d <= b[k].d {
      if k == i { assert a[Parent(i)].d <= a[s].d; }
    }
    forall k | 0 < k < |b| && Parent(k) == s ensures b[Parent(s)].d <= b[k].d {
      assert a[Parent(k)].d <= a[k].d;
    }
  }

  /** The choice `Pop` makes among an entry and its two children. */
  lemma LeastChild<T>(a: seq<Item<T>>, i: nat, s: nat)
    requires (i < |a| || a == []) && OrderedExceptBelow(a, i)
    requires var l, r := 2 * i + 1, 2 * i + 2;
      var t := if l < |a| && a[l].d < a[i].d then l else i;
      s == if r < |a| && a[r].d < a[t].d then r else t
    ensures if s == i then Ordered(a) else i < s < |a| && OrderedExceptBelow(Swapped(a, i, s), s)
  {
    forall k | 0 < k < |a| && Parent(k) == i ensures (k == 2 * i + 1 || k == 2 * i + 2) && a[s].d <= a[k].d {}
    if s != i { SiftDownStep(a, i, s); }
  }

  class HeapQ<T(==)> {
    var a: seq<Item<T>>

    ghost predicate Valid()
      reads this
    {
      Ordered(a)
    }

    constructor ()
      ensures Valid() && a == []
    {
      a := [];
    }

    method Push(x: Item<T>)
      requires Valid()
      modifies this
      ensures Valid()
      ensures multiset(a) == multiset(old(a)) + multiset{x}
      ensures forall y :: y in a <==> y == x || y in old(a)
    {
      a := a + [x];
      assert multiset(a) == multiset(old(a)) + multiset{x};
      var i := |a| - 1;
      while i > 0
        invariant 0 <= i < |a|
        invariant multiset(a) == multiset(old(a)) + multiset{x}
        invariant OrderedExceptAbove(a, i)
      {
        var p := (i - 1) / 2;
        if a[p].d <= a[i].d { break; }
        SiftUpStep(a, i);
        a := Swapped(a, p, i);
        i := p;
      }
      SameMembers(a, old(a), x);
    }

    method Pop() returns (top: Item<T>)
      requires Valid() && a != []
      modifies this
      ensures Valid()
      ensures multiset(a) + multiset{top} == multiset(old(a))
      ensures forall y :: y in old(a) <==> y == top || y in a
      ensures forall y :: y in old(a) ==> top.d <= y.d
    {
      hide Ordered, OrderedExceptBelow, Swapped;
      top := a[0];
      RootIsLeastOfAll(a);
      RemoveRoot(a);
      ghost var b := a;
      var last := |a| - 1;
      a := a[0 := a[last]][..last];
      var i := 0;
      while true
        invariant 0 <= i && (i < |a| || a == [])
        invariant multiset(a) + multiset{top} == multiset(b)
        invariant OrderedExceptBelow(a, i)
        decreases |a| - i
      {
        var l, r := 2 * i + 1, 2 * i + 2;
        var s := if l < |a| && a[l].d < a[i].d then l else i;
        s := if r < |a| && a[r].d < a[s].d then r else s;
        LeastChild(a, i, s);
        if s == i { break; }
        a := Swapped(a, i, s);
        i := s;
      }
      SameMembers(b, a, top);
    }
  }

  lemma SameMembers<T>(a: seq<T>, b: seq<T>, x: T)
    requires multiset(a) == multiset(b) + multiset{x}
    ensures forall y :: y in a <==> y == x || y in b
  {
    forall y ensures y in a <==> y == x || y in b {
      assert y in a <==> y in multiset(a);
      assert y in b <==> y in multiset(b);
    }
  }
}
