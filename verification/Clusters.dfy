/** Junctions (netlen/graph.go): ends of copper that touch become one node, closest pair first,
    but never the two ends of one piece of copper. */
module Clusters {
  import opened Forest
  import opened Sorting

  /** One end of one piece of copper, on a layer. */
  datatype Terminal = Terminal(owner: nat, layer: string)

  /** The owners with a terminal under a root. */
  ghost function OwnersUnder(terms: seq<Terminal>, rep: seq<nat>, root: nat): set<nat>
    requires |rep| == |terms|
  {
    set i | 0 <= i < |terms| && rep[i] == root :: terms[i].owner
  }

  /** No cluster holds two terminals of one owner, and none spans two layers. */
  ghost predicate Proper(terms: seq<Terminal>, rep: seq<nat>) {
    |rep| == |terms|
    && forall i, j :: 0 <= i < |terms| && 0 <= j < |terms| && i != j && rep[i] == rep[j] ==>
         terms[i].owner != terms[j].owner && terms[i].layer == terms[j].layer
  }

  /** Two clusters that may not be merged: some owner is in both. */
  ghost predicate Conflict(terms: seq<Terminal>, rep: seq<nat>, a: nat, b: nat)
    requires |rep| == |terms| && a < |terms| && b < |terms|
  {
    OwnersUnder(terms, rep, rep[a]) * OwnersUnder(terms, rep, rep[b]) != {}
  }

  /** What has become of a pair that was in reach. */
  ghost predicate MergedOrBlocked(terms: seq<Terminal>, rep: seq<nat>, a: nat, b: nat) {
    |rep| == |terms| && a < |terms| && b < |terms| && (rep[a] == rep[b] || Conflict(terms, rep, a, b))
  }

  /** `rep'` comes from `rep` by merging clusters. */
  ghost predicate Coarser(rep: seq<nat>, rep': seq<nat>) {
    |rep| == |rep'| && forall i, j :: 0 <= i < |rep| && 0 <= j < |rep| && rep[i] == rep[j] ==> rep'[i] == rep'[j]
  }

  /** What trying one pair does: the clusters of its ends are merged, and nothing else, unless they are one or may not
      be. */
  ghost predicate Tried(terms: seq<Terminal>, rep: seq<nat>, rep': seq<nat>, a: nat, b: nat) {
    |rep| == |terms| && a < |terms| && b < |terms| &&
    if rep[a] == rep[b] || Conflict(terms, rep, a, b) then rep' == rep else Merged(rep, rep', a, b)
  }

  /** A blocked pair stays blocked: owners only gather. */
  lemma CoarserKeeps(terms: seq<Terminal>, rep: seq<nat>, rep': seq<nat>, a: nat, b: nat)
    requires Coarser(rep, rep') && MergedOrBlocked(terms, rep, a, b)
    ensures MergedOrBlocked(terms, rep', a, b)
  {
    if rep[a] != rep[b] {
      var o :| o in OwnersUnder(terms, rep, rep[a]) * OwnersUnder(terms, rep, rep[b]);
      assert o in OwnersUnder(terms, rep', rep'[a]);
      assert o in OwnersUnder(terms, rep', rep'[b]);
      assert o in OwnersUnder(terms, rep', rep'[a]) * OwnersUnder(terms, rep', rep'[b]);
    }
  }

  /** Merging two clusters with no owner in common, on one layer, keeps every cluster proper. */
  lemma MergeKeepsProper(terms: seq<Terminal>, rep: seq<nat>, a: nat, b: nat)
    requires Proper(terms, rep) && a < |terms| && b < |terms| && rep[a] != rep[b]
    requires !Conflict(terms, rep, a, b) && terms[a].layer == terms[b].layer
    ensures Proper(terms, Relinked(rep, rep[a], rep[b]))
  {
    var rep' := Relinked(rep, rep[a], rep[b]);
    forall i, j | 0 <= i < |terms| && 0 <= j < |terms| && i != j && rep'[i] == rep'[j]
      ensures terms[i].owner != terms[j].owner && terms[i].layer == terms[j].layer
    {
      if rep[i] != rep[j] {
        var x, y := if rep[i] == rep[a] then i else j, if rep[i] == rep[a] then j else i;
        assert rep[x] == rep[a] && rep[y] == rep[b];
        assert terms[x].owner in OwnersUnder(terms, rep, rep[a]);
        assert terms[y].owner in OwnersUnder(terms, rep, rep[b]);
        assert terms[x].owner !in OwnersUnder(terms, rep, rep[a]) * OwnersUnder(terms, rep, rep[b]);
        assert x == a || terms[x].layer == terms[a].layer;
        assert y == b || terms[y].layer == terms[b].layer;
      }
    }
  }

  lemma MergedOwners(terms: seq<Terminal>, rep: seq<nat>, small: nat, large: nat, root: nat)
    requires |rep| == |terms| && small != large
    requires root != small
    ensures OwnersUnder(terms, Relinked(rep, small, large), root)
         == OwnersUnder(terms, rep, root) + if root == large then OwnersUnder(terms, rep, small) else {}
  {
    var rep' := Relinked(rep, small, large);
    forall o ensures o in OwnersUnder(terms, rep', root) <==>
      o in OwnersUnder(terms, rep, root) || (root == large && o in OwnersUnder(terms, rep, small))
    {
      if o in OwnersUnder(terms, rep', root) {
        var i :| 0 <= i < |terms| && rep'[i] == root && terms[i].owner == o;
      }
      if o in OwnersUnder(terms, rep, root) {
        var i :| 0 <= i < |terms| && rep[i] == root && terms[i].owner == o;
        assert rep'[i] == root;
      }
      if root == large && o in OwnersUnder(terms, rep, small) {
        var i :| 0 <= i < |terms| && rep[i] == small && terms[i].owner == o;
        assert rep'[i] == root;
      }
    }
  }

  /** The owner sets are right for every root. */
  ghost predicate OwnersKept(terms: seq<Terminal>, rep: seq<nat>, owners: seq<set<nat>>) {
    |rep| == |terms| == |owners|
    && forall r :: 0 <= r < |terms| && rep[r] == r ==> owners[r] == OwnersUnder(terms, rep, r)
  }

  lemma MergeKeepsOwners(terms: seq<Terminal>, rep: seq<nat>, owners: seq<set<nat>>, small: nat, large: nat)
    requires OwnersKept(terms, rep, owners) && small < |terms| && large < |terms| && small != large
    requires rep[small] == small && rep[large] == large
    ensures OwnersKept(terms, Relinked(rep, small, large),
                       owners[large := owners[large] + owners[small]][small := {}])
  {
    hide OwnersUnder;
    var rep' := Relinked(rep, small, large);
    var owners' := owners[large := owners[large] + owners[small]][small := {}];
    forall r | 0 <= r < |terms| && rep'[r] == r ensures owners'[r] == OwnersUnder(terms, rep', r) {
      MergedOwners(terms, rep, small, large, r);
    }
  }

  class Clusters {
    const terms: seq<Terminal>
    const f: Forest

    /** owners[root] is the set of owners with a terminal in that cluster. */
    const owners: array<set<nat>>

    ghost predicate Valid()
      reads this, f, f.parent, owners
    {
      && f.Valid() && f.parent.Length == |terms| == owners.Length
      && Proper(terms, f.rep) && OwnersKept(terms, f.rep, owners[..])
    }

    ghost function Repr(): set<object> { {this, f, f.parent, owners} }

    constructor (t: seq<Terminal>)
      ensures Valid() && fresh(Repr()) && terms == t
      ensures f.rep == seq(|t|, i => i)
    {
      terms := t;
      f := new Forest(|t|);
      owners := new set<nat>[|t|](i requires 0 <= i < |t| => {t[i].owner});
    }

    method Find(i: nat) returns (root: nat)
      requires Valid() && i < |terms|
      modifies f.parent
      ensures Valid()
      ensures root == f.rep[i] && root < |terms| && f.rep[root] == root
    {
      root := f.Find(i);
    }

    /** Merges two clusters, unless that would put two ends of one owner together. */
    method Union(a: nat, b: nat) returns (merged: bool)
      requires Valid() && a < |terms| && b < |terms| && terms[a].layer == terms[b].layer
      modifies f, f.parent, owners
      ensures Valid()
      ensures merged <==> old(f.rep)[a] != old(f.rep)[b] && !Conflict(terms, old(f.rep), a, b)
      ensures !merged ==> f.rep == old(f.rep)
      ensures merged ==> f.rep == Relinked(old(f.rep), old(f.rep)[a], old(f.rep)[b])
                         || f.rep == Relinked(old(f.rep), old(f.rep)[b], old(f.rep)[a])
      ensures Tried(terms, old(f.rep), f.rep, a, b)
      ensures Coarser(old(f.rep), f.rep) && MergedOrBlocked(terms, f.rep, a, b)
    {
      hide Proper, OwnersUnder;
      var ra := Find(a);
      var rb := Find(b);
      if ra == rb { return false; }
      ghost var rep := f.rep;
      var small, large := ra, rb;
      if |owners[small]| > |owners[large]| { small, large := large, small; }
      assert owners[small] * owners[large] == {} <==> !Conflict(terms, rep, a, b);
      if exists o :: o in owners[small] && o in owners[large] {
        ghost var o :| o in owners[small] && o in owners[large];
        assert o in owners[small] * owners[large];
        return false;
      }
      if small == ra { MergeKeepsProper(terms, rep, a, b); } else { MergeKeepsProper(terms, rep, b, a); }
      RelinkedMerges(rep, a, b);
      RelinkedMerges(rep, b, a);
      MergeKeepsOwners(terms, rep, owners[..], small, large);
      f.Link(small, large);
      owners[large] := owners[large] + owners[small];
      owners[small] := {};
      return true;
    }
  }

  /** Two terminals that touch, and how far apart they are. */
  datatype Pair = Pair(i: nat, j: nat, d: real)

  ghost predicate InReach(terms: seq<Terminal>, gap: (nat, nat) -> real, reach: (nat, nat) -> real, i: nat, j: nat) {
    i < j < |terms| && terms[i].layer == terms[j].layer && gap(i, j) <= reach(i, j)
  }

  /** Every pair of terminals on one layer that are in reach of each other. */
  method Candidates(terms: seq<Terminal>, gap: (nat, nat) -> real, reach: (nat, nat) -> real) returns (cands: seq<Pair>)
    ensures forall p :: p in cands <==> InReach(terms, gap, reach, p.i, p.j) && p.d == gap(p.i, p.j)
  {
    cands := [];
    for i := 0 to |terms|
      invariant forall p :: p in cands <==> p.i < i && InReach(terms, gap, reach, p.i, p.j) && p.d == gap(p.i, p.j)
    {
      for j := i + 1 to |terms|
        invariant forall p :: p in cands <==>
          (p.i < i || (p.i == i && p.j < j)) && InReach(terms, gap, reach, p.i, p.j) && p.d == gap(p.i, p.j)
      {
        if terms[i].layer == terms[j].layer {
          var d := gap(i, j);
          if d <= reach(i, j) { cands := cands + [Pair(i, j, d)]; }
        }
      }
    }
  }

  /** The pairs in reach, closest first. */
  ghost predicate ClosestPairs(terms: seq<Terminal>, gap: (nat, nat) -> real, reach: (nat, nat) -> real,
                               order: seq<Pair>) {
    && (forall p :: p in order <==> InReach(terms, gap, reach, p.i, p.j) && p.d == gap(p.i, p.j))
    && (forall i, j :: 0 <= i < j < |order| ==> order[i].d <= order[j].d)
  }

  /** Trying the pairs in this order takes the clusters from every terminal alone through these. */
  ghost predicate TriedInOrder(terms: seq<Terminal>, order: seq<Pair>, reps: seq<seq<nat>>) {
    && |reps| == |order| + 1 && |reps[0]| == |terms| && (forall i, j :: 0 <= i < j < |terms| ==> reps[0][i] != reps[0][j])
    && (forall k :: 0 <= k < |order| ==> Tried(terms, reps[k], reps[k + 1], order[k].i, order[k].j))
  }

  lemma OneMoreTried(terms: seq<Terminal>, order: seq<Pair>, reps: seq<seq<nat>>, k: nat, rep: seq<nat>)
    requires k < |order| && TriedInOrder(terms, order[..k], reps) && Tried(terms, reps[k], rep, order[k].i, order[k].j)
    ensures TriedInOrder(terms, order[..k + 1], reps + [rep])
  {
    hide Tried;
    var more := reps + [rep];
    forall q | 0 <= q < k + 1 ensures Tried(terms, more[q], more[q + 1], order[..k + 1][q].i, order[..k + 1][q].j) {
      if q < k { assert Tried(terms, reps[q], reps[q + 1], order[..k][q].i, order[..k][q].j); }
    }
  }

  /** The same terminals are together in both. */
  ghost predicate SameClusters(rep: seq<nat>, rep': seq<nat>) {
    |rep| == |rep'| && forall i, j :: 0 <= i < |rep| && 0 <= j < |rep| ==> (rep[i] == rep[j] <==> rep'[i] == rep'[j])
  }

  /** Whether two clusters have an owner in common depends on what is in them, not on their roots. */
  lemma ConflictOfSame(terms: seq<Terminal>, rep: seq<nat>, rep': seq<nat>, a: nat, b: nat)
    requires |rep| == |terms| && SameClusters(rep, rep') && a < |terms| && b < |terms|
    ensures Conflict(terms, rep, a, b) <==> Conflict(terms, rep', a, b)
  {
    OwnersOfSame(terms, rep, rep', a);
    OwnersOfSame(terms, rep, rep', b);
  }

  lemma OwnersOfSame(terms: seq<Terminal>, rep: seq<nat>, rep': seq<nat>, a: nat)
    requires |rep| == |terms| && SameClusters(rep, rep') && a < |terms|
    ensures OwnersUnder(terms, rep, rep[a]) == OwnersUnder(terms, rep', rep'[a])
  {
    forall o ensures o in OwnersUnder(terms, rep, rep[a]) <==> o in OwnersUnder(terms, rep', rep'[a]) {
      if o in OwnersUnder(terms, rep, rep[a]) {
        var i :| 0 <= i < |terms| && rep[i] == rep[a] && terms[i].owner == o;
        assert rep'[i] == rep'[a];
      }
      if o in OwnersUnder(terms, rep', rep'[a]) {
        var i :| 0 <= i < |terms| && rep'[i] == rep'[a] && terms[i].owner == o;
        assert rep[i] == rep[a];
      }
    }
  }

  /** The order of the pairs decides the junctions, however the merging goes about it. */
  lemma {:induction false} OrderDecides(terms: seq<Terminal>, order: seq<Pair>, reps: seq<seq<nat>>,
                                        reps': seq<seq<nat>>, k: nat)
    requires TriedInOrder(terms, order, reps) && TriedInOrder(terms, order, reps') && k <= |order|
    ensures |reps[k]| == |terms| && SameClusters(reps[k], reps'[k])
  {
    if k > 0 {
      OrderDecides(terms, order, reps, reps', k - 1);
      var p := order[k - 1];
      assert Tried(terms, reps[k - 1], reps[k], p.i, p.j) && Tried(terms, reps'[k - 1], reps'[k], p.i, p.j);
      ConflictOfSame(terms, reps[k - 1], reps'[k - 1], p.i, p.j);
      hide Conflict;
    }
  }

  /** Merges the terminals that are the same junction, closest pair first. Afterwards no piece of copper has both ends
      in one cluster, and every pair in reach is merged or could not be. */
  method MergeJunctions(terms: seq<Terminal>, gap: (nat, nat) -> real, reach: (nat, nat) -> real)
    returns (cl: Clusters, ghost order: seq<Pair>, ghost reps: seq<seq<nat>>)
    ensures fresh(cl.Repr()) && cl.Valid() && cl.terms == terms
    ensures forall i, j :: InReach(terms, gap, reach, i, j) ==> MergedOrBlocked(terms, cl.f.rep, i, j)
    ensures ClosestPairs(terms, gap, reach, order) && TriedInOrder(terms, order, reps) && cl.f.rep == reps[|order|]
  {
    cl := new Clusters(terms);
    var cands := Candidates(terms, gap, reach);
    var pairs := Sort(cands, (p: Pair) => p.d);
    order, reps := pairs, [cl.f.rep];
    hide Tried, TriedInOrder;
    assert TriedInOrder(terms, order[..0], reps) by { NoneTried(terms, order, cl.f.rep); }
    for k := 0 to |pairs|
      invariant fresh(cl.Repr()) && cl.Valid() && cl.terms == terms
      invariant forall q :: 0 <= q < k ==> MergedOrBlocked(terms, cl.f.rep, order[q].i, order[q].j)
      invariant |reps| == k + 1 && TriedInOrder(terms, order[..k], reps) && cl.f.rep == reps[k]
    {
      assert pairs[k] in cands;
      ghost var rep := cl.f.rep;
      var _ := cl.Union(pairs[k].i, pairs[k].j);
      OneMoreTried(terms, order, reps, k, cl.f.rep);
      reps := reps + [cl.f.rep];
      forall q | 0 <= q < k ensures MergedOrBlocked(terms, cl.f.rep, order[q].i, order[q].j) {
        CoarserKeeps(terms, rep, cl.f.rep, order[q].i, order[q].j);
      }
    }
    forall i, j | InReach(terms, gap, reach, i, j) ensures MergedOrBlocked(terms, cl.f.rep, i, j) {
      assert Pair(i, j, gap(i, j)) in cands;
    }
    assert order[..|order|] == order;
  }

  lemma NoneTried(terms: seq<Terminal>, order: seq<Pair>, rep: seq<nat>)
    requires rep == seq(|terms|, i => i)
    ensures TriedInOrder(terms, order[..0], [rep])
  {
  }
}
