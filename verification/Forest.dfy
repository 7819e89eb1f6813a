/** Union-find with path halving (netlen/graph.go). Both kinds of joining in the length graph,
    the plain one and the one that minds owners, keep their parents this way. */
module Forest {

  /** `rep` names the root each element hangs under; heights grow along every parent link. */
  ghost predicate Rooted(parent: seq<nat>, rep: seq<nat>, height: seq<int>) {
    |parent| == |rep| == |height| && forall i :: 0 <= i < |parent| ==> RootedAt(parent, rep, height, i)
  }

  ghost predicate RootedAt(parent: seq<nat>, rep: seq<nat>, height: seq<int>, i: nat)
    requires |parent| == |rep| == |height| && i < |parent|
  {
    && parent[i] < |parent| && rep[i] < |parent|
    && rep[parent[i]] == rep[i] && rep[rep[i]] == rep[i] && parent[rep[i]] == rep[i]
    && (parent[i] == i ==> rep[i] == i)
    && (parent[i] != i ==> height[i] < height[parent[i]])
    && height[i] <= height[rep[i]]
  }

  /** Skipping a parent changes nobody's root. */
  lemma HalvingKeeps(parent: seq<nat>, rep: seq<nat>, height: seq<int>, i: nat)
    requires Rooted(parent, rep, height) && i < |parent| && parent[i] != i
    ensures parent[i] < |parent| && parent[parent[i]] < |parent|
    ensures Rooted(parent[i := parent[parent[i]]], rep, height)
    ensures rep[i] < |rep| && rep[parent[parent[i]]] == rep[i]
    ensures height[i] < height[parent[parent[i]]] <= height[rep[i]]
  {
    assert RootedAt(parent, rep, height, i);
    assert RootedAt(parent, rep, height, parent[i]);
    assert RootedAt(parent, rep, height, parent[parent[i]]);
    var p := parent[i := parent[parent[i]]];
    forall k | 0 <= k < |p| ensures RootedAt(p, rep, height, k) {
      assert RootedAt(parent, rep, height, k);
    }
  }

  lemma LinkKeeps(parent: seq<nat>, rep: seq<nat>, height: seq<int>, small: nat, large: nat)
    requires Rooted(parent, rep, height) && small < |parent| && large < |parent|
    requires rep[small] == small && rep[large] == large && small != large
    ensures Rooted(parent[small := large], Relinked(rep, small, large), Raised(height, small, large))
  {
    assert RootedAt(parent, rep, height, small) && RootedAt(parent, rep, height, large);
    var p, r, h := parent[small := large], Relinked(rep, small, large), Raised(height, small, large);
    forall k | 0 <= k < |p| ensures RootedAt(p, r, h, k) {
      assert RootedAt(parent, rep, height, k);
    }
  }

  ghost function Raised(height: seq<int>, small: nat, large: nat): seq<int>
    requires small < |height| && large < |height|
  {
    height[large := if height[large] > height[small] then height[large] else height[small] + 1]
  }

  /** The roots after everything under `small` has gone under `large`. */
  ghost function Relinked(rep: seq<nat>, small: nat, large: nat): (r: seq<nat>)
    ensures |r| == |rep|
    ensures forall i {:trigger r[i]} :: 0 <= i < |rep| ==> r[i] == if rep[i] == small then large else rep[i]
  {
    seq(|rep|, i requires 0 <= i < |rep| => if rep[i] == small then large else rep[i])
  }

  class Forest {
    const parent: array<nat>
    ghost var rep: seq<nat>
    ghost var height: seq<int>

    ghost predicate Valid()
      reads this, parent
    {
      Rooted(parent[..], rep, height)
    }

    constructor (n: nat)
      ensures Valid() && fresh(parent) && parent.Length == n
      ensures rep == seq(n, i => i)
    {
      parent := new nat[n](i => i);
      rep := seq(n, i => i);
      height := seq(n, _ => 0);
    }

    /** The root of an element. Halving the path on the way up changes no root. */
    method Find(at: nat) returns (root: nat)
      requires Valid() && at < parent.Length
      modifies parent
      ensures Valid()
      ensures root == rep[at] && root < parent.Length && rep[root] == root
    {
      var i: nat := at;
      assert RootedAt(parent[..], rep, height, i);
      while parent[i] != i
        invariant i < parent.Length && Valid() && |rep| == |height| == parent.Length && rep[at] < |rep|
        invariant rep[i] == rep[at]
        decreases height[rep[at]] - height[i]
      {
        HalvingKeeps(parent[..], rep, height, i);
        ghost var before := parent[..];
        parent[i] := parent[parent[i]];
        assert parent[..] == before[i := before[before[i]]];
        i := parent[i];
      }
      assert RootedAt(parent[..], rep, height, i);
      root := i;
    }

    /** Hangs one root under another. */
    method Link(small: nat, large: nat)
      requires Valid() && small < parent.Length && large < parent.Length
      requires rep[small] == small && rep[large] == large && small != large
      modifies this, parent
      ensures Valid()
      ensures rep == Relinked(old(rep), small, large)
    {
      LinkKeeps(parent[..], rep, height, small, large);
      ghost var before := parent[..];
      parent[small] := large;
      assert parent[..] == before[small := large];
      height := Raised(height, small, large);
      rep := Relinked(rep, small, large);
    }

    /** Joins two elements' trees. */
    method Union(a: nat, b: nat)
      requires Valid() && a < parent.Length && b < parent.Length
      modifies this, parent
      ensures Valid()
      ensures rep == Relinked(old(rep), old(rep)[a], old(rep)[b])
    {
      var ra := Find(a);
      var rb := Find(b);
      if ra != rb {
        Link(ra, rb);
      } else {
        assert rep == Relinked(rep, ra, rb);
      }
    }
  }

  /** Two groups have become one, and no other two. */
  ghost predicate Merged(rep: seq<nat>, rep': seq<nat>, a: nat, b: nat)
    requires a < |rep| && b < |rep|
  {
    |rep| == |rep'| && forall i, j :: 0 <= i < |rep| && 0 <= j < |rep| ==>
      (rep'[i] == rep'[j] <==> rep[i] == rep[j] || (rep[i] in {rep[a], rep[b]} && rep[j] in {rep[a], rep[b]}))
  }

  /** Joining merges exactly the two groups concerned. */
  lemma RelinkedMerges(rep: seq<nat>, a: nat, b: nat)
    requires a < |rep| && b < |rep|
    ensures Merged(rep, Relinked(rep, rep[a], rep[b]), a, b)
  {
  }
}
