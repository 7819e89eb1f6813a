/** Grouping a net's pads into islands (netlen/netlen.go): a union-find over names, kept in a map, whose parents every
    search on the way shortens to the root. */
module Islands {
  import opened NetGraph
  import opened Sorting
  import Dijkstra

  /** A measured path between two pads, as far as islands are concerned. */
  datatype Link = Link(from: string, to: string, found: bool)

  ghost predicate Direct(ps: seq<Link>, a: string, b: string) {
    exists k :: 0 <= k < |ps| && ps[k].found && ((ps[k].from == a && ps[k].to == b) || (ps[k].from == b && ps[k].to == a))
  }

  ghost predicate Chain(ps: seq<Link>, c: seq<string>) {
    c != [] && forall i :: 0 <= i < |c| - 1 ==> Direct(ps, c[i], c[i + 1])
  }

  /** Found paths lead from one pad to the other. */
  ghost predicate Joined(ps: seq<Link>, a: string, b: string) {
    exists c :: Chain(ps, c) && c[0] == a && c[|c| - 1] == b
  }

  lemma JoinedToItself(ps: seq<Link>, a: string)
    ensures Joined(ps, a, a)
  {
    assert Chain(ps, [a]);
  }

  lemma JoinedDirectly(ps: seq<Link>, a: string, b: string)
    requires Direct(ps, a, b)
    ensures Joined(ps, a, b)
  {
    assert Chain(ps, [a, b]);
  }

  lemma JoinedOn(ps: seq<Link>, a: string, b: string, c: string)
    requires Joined(ps, a, b) && Joined(ps, b, c)
    ensures Joined(ps, a, c)
  {
    var x :| Chain(ps, x) && x[0] == a && x[|x| - 1] == b;
    var y :| Chain(ps, y) && y[0] == b && y[|y| - 1] == c;
    var z := x + y[1..];
    assert Chain(ps, z) && z[0] == a && z[|z| - 1] == c by {
      hide Direct;
      forall i | 0 <= i < |z| - 1 ensures Direct(ps, z[i], z[i + 1]) {
        if i >= |x| - 1 { assert z[i] == y[i - |x| + 1] && z[i + 1] == y[i - |x| + 2]; }
      }
    }
  }

  lemma JoinedWithMore(ps: seq<Link>, more: seq<Link>, a: string, b: string)
    requires ps <= more && Joined(ps, a, b)
    ensures Joined(more, a, b)
  {
    var x :| Chain(ps, x) && x[0] == a && x[|x| - 1] == b;
    forall i | 0 <= i < |x| - 1 ensures Direct(more, x[i], x[i + 1]) {
      var k :| 0 <= k < |ps| && ps[k].found
               && ((ps[k].from == x[i] && ps[k].to == x[i + 1]) || (ps[k].from == x[i + 1] && ps[k].to == x[i]));
      assert more[k] == ps[k];
    }
    assert Chain(more, x);
  }

  // ---- the roots ----

  /** `rep` names the root each pad hangs under; heights grow along every parent link. */
  ghost predicate Rooted(parent: map<string, string>, rep: map<string, string>, height: map<string, int>) {
    && parent.Keys == rep.Keys == height.Keys && "" !in parent
    && forall x {:trigger RootedAt(parent, rep, height, x)} :: x in parent ==> RootedAt(parent, rep, height, x)
  }

  ghost predicate RootedAt(parent: map<string, string>, rep: map<string, string>, height: map<string, int>, x: string)
    requires parent.Keys == rep.Keys == height.Keys && x in parent
  {
    && parent[x] in parent && rep[x] in parent
    && rep[parent[x]] == rep[x] && rep[rep[x]] == rep[x] && parent[rep[x]] == rep[x]
    && (parent[x] == x ==> rep[x] == x)
    && (parent[x] != x ==> height[x] < height[parent[x]])
    && height[x] <= height[rep[x]]
  }

  /** Hanging a pad straight under its root changes nobody's root. */
  lemma ShorteningKeeps(parent: map<string, string>, rep: map<string, string>, height: map<string, int>, x: string)
    requires Rooted(parent, rep, height) && x in parent
    ensures Rooted(parent[x := rep[x]], rep, height)
  {
    assert RootedAt(parent, rep, height, x);
    var p := parent[x := rep[x]];
    forall y | y in p ensures RootedAt(p, rep, height, y) {
      assert RootedAt(parent, rep, height, y);
      assert RootedAt(parent, rep, height, parent[y]);
    }
  }

  /** The roots after everything under `a` has gone under `b`. */
  ghost function Moved(rep: map<string, string>, a: string, b: string): map<string, string> {
    map x | x in rep :: if rep[x] == a then b else rep[x]
  }

  ghost function Raised(height: map<string, int>, a: string, b: string): map<string, int>
    requires a in height && b in height
  {
    height[b := if height[b] > height[a] then height[b] else height[a] + 1]
  }

  lemma LinkingKeeps(parent: map<string, string>, rep: map<string, string>, height: map<string, int>, a: string,
                     b: string)
    requires Rooted(parent, rep, height) && a in parent && b in parent && rep[a] == a && rep[b] == b && a != b
    ensures Rooted(parent[a := b], Moved(rep, a, b), Raised(height, a, b))
  {
    assert RootedAt(parent, rep, height, a) && RootedAt(parent, rep, height, b);
    var p, r, h := parent[a := b], Moved(rep, a, b), Raised(height, a, b);
    forall x | x in p ensures RootedAt(p, r, h, x) {
      assert RootedAt(parent, rep, height, x);
      assert RootedAt(parent, rep, height, parent[x]);
    }
  }

  /** How far below its root a pad hangs, at most. */
  ghost function Climb(rep: map<string, string>, height: map<string, int>, x: string): int {
    if x in rep && x in height && rep[x] in height then height[rep[x]] - height[x] else 0
  }

  class PadSets {
    var parent: map<string, string>
    ghost var rep: map<string, string>
    ghost var height: map<string, int>

    ghost predicate Valid()
      reads this
    {
      Rooted(parent, rep, height)
    }

    /** Every pad by itself. */
    constructor (ids: seq<string>)
      requires "" !in ids
      ensures Valid() && rep == map x | x in ids :: x
    {
      parent := map x | x in ids :: x;
      rep := map x | x in ids :: x;
      height := map x | x in ids :: 0;
    }

    method Find(x: string) returns (root: string)
      requires Valid() && x in parent
      modifies this`parent
      ensures Valid() && root == rep[x] && root in parent && rep[root] == root
      decreases Climb(rep, height, x)
    {
      assert RootedAt(parent, rep, height, x);
      if parent[x] == "" || parent[x] == x {
        ShorteningKeeps(parent, rep, height, x);
        parent := parent[x := x];
        return x;
      }
      assert RootedAt(parent, rep, height, parent[x]);
      root := Find(parent[x]);
      ShorteningKeeps(parent, rep, height, x);
      parent := parent[x := root];
    }

    /** Puts two pads' sets together. */
    method Unite(a: string, b: string)
      requires Valid() && a in parent && b in parent
      modifies this
      ensures Valid() && rep == Moved(old(rep), old(rep)[a], old(rep)[b])
    {
      var ra := Find(a);
      var rb := Find(b);
      if ra != rb {
        LinkingKeeps(parent, rep, height, ra, rb);
        rep, height := Moved(rep, ra, rb), Raised(height, ra, rb);
      } else {
        ShorteningKeeps(parent, rep, height, ra);
        assert rep == Moved(rep, ra, rb);
      }
      parent := parent[ra := rb];
    }
  }

  /** Pads are in one set exactly if found paths join them. */
  ghost predicate SetsAre(rep: map<string, string>, ps: seq<Link>) {
    forall a, b :: a in rep && b in rep ==> (rep[a] == rep[b] <==> Joined(ps, a, b))
  }

  lemma NoneJoined(rep: map<string, string>)
    requires forall x :: x in rep ==> rep[x] == x
    ensures SetsAre(rep, [])
  {
    forall a, b | a in rep && b in rep ensures rep[a] == rep[b] <==> Joined([], a, b) {
      JoinedToItself([], a);
      if Joined([], a, b) {
        var c :| Chain([], c) && c[0] == a && c[|c| - 1] == b;
        assert |c| > 1 ==> Direct([], c[0], c[1]);
      }
    }
  }

  lemma {:induction false} ChainInOneSet(rep: map<string, string>, ps: seq<Link>, c: seq<string>)
    requires Chain(ps, c)
    requires forall k :: 0 <= k < |ps| && ps[k].found ==> ps[k].from in rep && ps[k].to in rep && rep[ps[k].from] == rep[ps[k].to]
    ensures c[0] == c[|c| - 1] || (c[0] in rep && c[|c| - 1] in rep && rep[c[0]] == rep[c[|c| - 1]])
    decreases |c|
  {
    if |c| > 1 {
      var init := c[..|c| - 1];
      assert forall i :: 0 <= i < |init| - 1 ==> Direct(ps, c[i], c[i + 1]);
      ChainInOneSet(rep, ps, init);
      assert Direct(ps, c[|c| - 2], c[|c| - 1]);
    }
  }

  lemma OneMoreLink(rep: map<string, string>, rep': map<string, string>, ps: seq<Link>, p: Link)
    requires SetsAre(rep, ps) && Known(ps, rep) && (p.found ==> p.from in rep && p.to in rep)
    requires rep' == if p.found then Moved(rep, rep[p.from], rep[p.to]) else rep
    ensures SetsAre(rep', ps + [p])
  {
    var more := ps + [p];
    forall k | 0 <= k < |more| && more[k].found
      ensures more[k].from in rep' && more[k].to in rep' && rep'[more[k].from] == rep'[more[k].to]
    {
      if k < |ps| {
        assert more[k] == ps[k];
        assert Direct(ps, ps[k].from, ps[k].to);
        JoinedDirectly(ps, ps[k].from, ps[k].to);
      }
    }
    forall a, b | a in rep' && b in rep' ensures rep'[a] == rep'[b] <==> Joined(more, a, b) {
      if Joined(more, a, b) {
        var c :| Chain(more, c) && c[0] == a && c[|c| - 1] == b;
        ChainInOneSet(rep', more, c);
      }
      if rep'[a] == rep'[b] { TogetherIsJoined(rep, rep', ps, p, a, b); }
    }
  }

  /** Every found path's pads are among those grouped. */
  ghost predicate Known(ps: seq<Link>, rep: map<string, string>) {
    forall k :: 0 <= k < |ps| && ps[k].found ==> ps[k].from in rep && ps[k].to in rep
  }

  lemma TogetherIsJoined(rep: map<string, string>, rep': map<string, string>, ps: seq<Link>, p: Link, a: string,
                         b: string)
    requires SetsAre(rep, ps) && (p.found ==> p.from in rep && p.to in rep)
    requires rep' == if p.found then Moved(rep, rep[p.from], rep[p.to]) else rep
    requires a in rep && b in rep && rep'[a] == rep'[b]
    ensures Joined(ps + [p], a, b)
  {
    hide Joined;
    var more := ps + [p];
    if rep[a] == rep[b] {
      JoinedWithMore(ps, more, a, b);
    } else {
      var near, far := if rep[a] == rep[p.from] then p.from else p.to, if rep[a] == rep[p.from] then p.to else p.from;
      assert more[|ps|] == p;
      assert Direct(more, near, far);
      JoinedDirectly(more, near, far);
      JoinedWithMore(ps, more, a, near);
      JoinedWithMore(ps, more, far, b);
      JoinedOn(more, a, near, far);
      JoinedOn(more, a, far, b);
    }
  }

  // ---- the islands ----

  /** The pads joined to `a`, in the order they come. */
  ghost function IslandOf(ids: seq<string>, ps: seq<Link>, a: string): seq<string> {
    if ids == [] then []
    else
      var x := ids[|ids| - 1];
      IslandOf(ids[..|ids| - 1], ps, a) + if Joined(ps, a, x) then [x] else []
  }

  ghost function Under(ids: seq<string>, rep: map<string, string>, r: string): seq<string>
    requires forall x :: x in ids ==> x in rep
  {
    if ids == [] then []
    else
      var x := ids[|ids| - 1];
      Under(ids[..|ids| - 1], rep, r) + if rep[x] == r then [x] else []
  }

  lemma {:induction false} UnderIsIsland(ids: seq<string>, rep: map<string, string>, ps: seq<Link>, a: string)
    requires (forall x :: x in ids ==> x in rep) && a in rep && SetsAre(rep, ps)
    ensures Under(ids, rep, rep[a]) == IslandOf(ids, ps, a)
    decreases |ids|
  {
    hide Joined;
    if ids != [] { UnderIsIsland(ids[..|ids| - 1], rep, ps, a); }
  }

  lemma {:induction false} InUnder(ids: seq<string>, rep: map<string, string>, r: string, x: string)
    requires forall y :: y in ids ==> y in rep
    ensures x in Under(ids, rep, r) <==> x in ids && rep[x] == r
    decreases |ids|
  {
    if ids != [] {
      InUnder(ids[..|ids| - 1], rep, r, x);
      assert x in ids <==> x in ids[..|ids| - 1] || x == ids[|ids| - 1];
    }
  }

  /** The islands: each is all the pads joined to any pad of it, every pad is in one, and no two are joined. */
  ghost predicate AreIslands(ids: seq<string>, ps: seq<Link>, out: seq<seq<string>>) {
    && (forall i :: 0 <= i < |out| ==> out[i] != [])
    && (forall i, a :: 0 <= i < |out| && a in out[i] ==> a in ids && out[i] == IslandOf(ids, ps, a))
    && (forall a :: a in ids ==> exists i :: 0 <= i < |out| && a in out[i])
    && (forall i, j, a, b :: 0 <= i < j < |out| && a in out[i] && b in out[j] ==> !Joined(ps, a, b))
  }

  /** Groups of pads by their root. */
  ghost predicate Grouped(ids: seq<string>, rep: map<string, string>, groups: map<string, seq<string>>) {
    && (forall x :: x in ids ==> x in rep && rep[x] in groups)
    && (forall r :: r in groups ==> groups[r] == Under(ids, rep, r) && groups[r] != [])
  }

  lemma OneMoreGrouped(ids: seq<string>, n: nat, rep: map<string, string>, groups: map<string, seq<string>>)
    requires n < |ids| && Grouped(ids[..n], rep, groups) && ids[n] in rep
    ensures var x, r := ids[n], rep[ids[n]];
      Grouped(ids[..n + 1], rep, groups[r := (if r in groups then groups[r] else []) + [x]])
  {
    var x, r := ids[n], rep[ids[n]];
    assert ids[..n + 1][..n] == ids[..n];
    if r !in groups {
      if Under(ids[..n], rep, r) != [] {
        var y := Under(ids[..n], rep, r)[0];
        InUnder(ids[..n], rep, r, y);
        assert false;
      }
    }
  }

  /** Groups a net's pads into copper-connected sets. The order the paths come in, and the order the islands are listed
      in, are left open. */
  method GroupPads(ids: seq<string>, ps: seq<Link>) returns (out: seq<seq<string>>)
    requires "" !in ids && forall k :: 0 <= k < |ps| && ps[k].found ==> ps[k].from in ids && ps[k].to in ids
    ensures AreIslands(ids, ps, out)
  {
    var sets := new PadSets(ids);
    NoneJoined(sets.rep);
    UniteAll(sets, ids, ps);
    var groups := ByRoot(sets, ids);
    out := ListGroups(groups);
    hide SetsAre, Joined, Rooted, Direct, Grouped, Listed, AreIslands;
    ListedAreIslands(ids, ps, sets.rep, groups, out);
  }

  method UniteAll(sets: PadSets, ghost ids: seq<string>, ps: seq<Link>)
    requires sets.Valid() && sets.rep.Keys == (set x | x in ids) && SetsAre(sets.rep, [])
    requires forall k :: 0 <= k < |ps| && ps[k].found ==> ps[k].from in ids && ps[k].to in ids
    modifies sets
    ensures sets.Valid() && sets.rep.Keys == (set x | x in ids) && SetsAre(sets.rep, ps)
  {
    hide SetsAre, Joined, RootedAt, Direct;
    assert ps[..0] == [];
    for k := 0 to |ps|
      invariant sets.Valid() && sets.rep.Keys == (set x | x in ids) && SetsAre(sets.rep, ps[..k])
    {
      ghost var was := sets.rep;
      if ps[k].found { sets.Unite(ps[k].from, ps[k].to); }
      assert ps[..k + 1] == ps[..k] + [ps[k]];
      OneMoreLink(was, sets.rep, ps[..k], ps[k]);
    }
    assert ps[..|ps|] == ps;
  }

  method ByRoot(sets: PadSets, ids: seq<string>) returns (groups: map<string, seq<string>>)
    requires sets.Valid() && sets.rep.Keys == (set x | x in ids)
    modifies sets`parent
    ensures sets.Valid() && Grouped(ids, sets.rep, groups)
  {
    hide RootedAt, Grouped;
    groups := map[];
    assert Grouped(ids[..0], sets.rep, groups) by { NoGroups(ids[..0], sets.rep); }
    for i := 0 to |ids|
      invariant sets.Valid() && Grouped(ids[..i], sets.rep, groups)
    {
      var r := sets.Find(ids[i]);
      OneMoreGrouped(ids, i, sets.rep, groups);
      groups := groups[r := (if r in groups then groups[r] else []) + [ids[i]]];
    }
    assert ids[..|ids|] == ids;
  }

  lemma NoGroups(ids: seq<string>, rep: map<string, string>)
    requires ids == []
    ensures Grouped(ids, rep, map[])
  {
  }

  ghost predicate Listed(groups: map<string, seq<string>>, rs: seq<string>, out: seq<seq<string>>) {
    && |out| == |rs| && (forall i :: 0 <= i < |rs| ==> rs[i] in groups && out[i] == groups[rs[i]])
    && (forall i, j :: 0 <= i < j < |rs| ==> rs[i] != rs[j])
  }

  method ListGroups(groups: map<string, seq<string>>) returns (out: seq<seq<string>>)
    ensures exists rs :: Listed(groups, rs, out) && forall r :: r in groups ==> r in rs
  {
    out := [];
    ghost var rs: seq<string> := [];
    var left := groups.Keys;
    while left != {}
      invariant Listed(groups, rs, out) && left <= groups.Keys && forall r :: r in groups <==> (r in left || r in rs)
      invariant forall r :: r in left ==> r !in rs
      decreases |left|
    {
      var r :| r in left;
      out, rs, left := out + [groups[r]], rs + [r], left - {r};
    }
  }

  lemma ListedAreIslands(ids: seq<string>, ps: seq<Link>, rep: map<string, string>, groups: map<string, seq<string>>,
                         out: seq<seq<string>>)
    requires Grouped(ids, rep, groups) && SetsAre(rep, ps)
    requires exists rs :: Listed(groups, rs, out) && forall r :: r in groups ==> r in rs
    ensures AreIslands(ids, ps, out)
  {
    hide Joined, SetsAre, Under, IslandOf, Grouped, Listed;
    var rs :| Listed(groups, rs, out) && forall r :: r in groups ==> r in rs;
    forall i | 0 <= i < |out| ensures out[i] != [] { ListedAt(ids, ps, rep, groups, rs, out, i, ""); }
    forall i, a | 0 <= i < |out| && a in out[i] ensures a in ids && out[i] == IslandOf(ids, ps, a) {
      ListedAt(ids, ps, rep, groups, rs, out, i, a);
    }
    forall a | a in ids ensures exists i :: 0 <= i < |out| && a in out[i] {
      var i := PlaceOf(ids, rep, groups, rs, out, a);
      assert a in out[i];
    }
    forall i, j, a, b | 0 <= i < j < |out| && a in out[i] && b in out[j] ensures !Joined(ps, a, b) {
      ListedAt(ids, ps, rep, groups, rs, out, i, a);
      ListedAt(ids, ps, rep, groups, rs, out, j, b);
      assert rs[i] != rs[j] by { DifferentRoots(groups, rs, out, i, j); }
      NotTogether(rep, ps, a, b);
    }
  }

  lemma ListedAt(ids: seq<string>, ps: seq<Link>, rep: map<string, string>, groups: map<string, seq<string>>,
                 rs: seq<string>,
                 out: seq<seq<string>>, i: nat, a: string)
    requires Grouped(ids, rep, groups) && SetsAre(rep, ps) && Listed(groups, rs, out) && i < |out|
    ensures |rs| == |out| && out[i] != []
    ensures a in out[i] ==> a in ids && a in rep && rep[a] == rs[i] && out[i] == IslandOf(ids, ps, a)
  {
    hide Joined, SetsAre;
    InUnder(ids, rep, rs[i], a);
    if a in out[i] { UnderIsIsland(ids, rep, ps, a); }
  }

  lemma PlaceOf(ids: seq<string>, rep: map<string, string>, groups: map<string, seq<string>>, rs: seq<string>,
                out: seq<seq<string>>,
                a: string) returns (i: nat)
    requires Grouped(ids, rep, groups) && Listed(groups, rs, out) && (forall r :: r in groups ==> r in rs) && a in ids
    ensures i < |out| && a in out[i]
  {
    i :| 0 <= i < |rs| && rs[i] == rep[a];
    InUnder(ids, rep, rep[a], a);
  }

  lemma DifferentRoots(groups: map<string, seq<string>>, rs: seq<string>, out: seq<seq<string>>, i: nat, j: nat)
    requires Listed(groups, rs, out) && i < j < |out|
    ensures rs[i] != rs[j]
  {
  }

  lemma NotTogether(rep: map<string, string>, ps: seq<Link>, a: string, b: string)
    requires SetsAre(rep, ps) && a in rep && b in rep && rep[a] != rep[b]
    ensures !Joined(ps, a, b)
  {
  }

  // ---- what the islands of measured paths mean ----

  ghost predicate CopperJoins(adj: Adjacency, a: nat, b: nat) {
    exists w :: Walk(adj, a, w, b)
  }

  lemma {:induction false} WalkOn(adj: Adjacency, a: nat, u: seq<Step>, b: nat, v: seq<Step>, c: nat)
    requires Walk(adj, a, u, b) && Walk(adj, b, v, c)
    ensures Walk(adj, a, u + v, c)
    decreases |v|
  {
    if v == [] {
      assert u + v == u;
    } else {
      WalkOn(adj, a, u, b, v[..|v| - 1], v[|v| - 1].from);
      assert (u + v)[..|u + v| - 1] == u + v[..|v| - 1];
    }
  }

  /** The measured paths of a net, `ids[i]` being the pad at `nodes[i]`. */
  ghost predicate Measured(adj: Adjacency, ids: seq<string>, nodes: seq<nat>, paths: map<(nat, nat), Dijkstra.Path>) {
    && WellFormed(adj) && Symmetric(adj) && |ids| == |nodes| && NoDups(ids) && (forall i :: 0 <= i < |nodes| ==> nodes[i] < |adj|)
    && (forall i, j :: 0 <= i < j < |nodes| ==> (i, j) in paths && Dijkstra.Describes(adj, nodes[i], nodes[j], paths[(i, j)]))
  }

  ghost predicate IsLink(ids: seq<string>, paths: map<(nat, nat), Dijkstra.Path>, p: Link, i: nat, j: nat) {
    i < j < |ids| && (i, j) in paths && p == Link(ids[i], ids[j], paths[(i, j)].found)
  }

  /** The links are those paths, in any order. */
  ghost predicate AreLinks(ids: seq<string>, paths: map<(nat, nat), Dijkstra.Path>, ps: seq<Link>) {
    && (forall p :: p in ps ==> exists i, j :: IsLink(ids, paths, p, i, j))
    && (forall i, j, p :: IsLink(ids, paths, p, i, j) ==> p in ps)
  }

  lemma MeansCopper(adj: Adjacency, ids: seq<string>, nodes: seq<nat>, paths: map<(nat, nat), Dijkstra.Path>, i: nat,
                    j: nat)
    requires Measured(adj, ids, nodes, paths) && i < j < |ids|
    ensures (i, j) in paths && (paths[(i, j)].found <==> CopperJoins(adj, nodes[i], nodes[j]))
    ensures CopperJoins(adj, nodes[i], nodes[j]) <==> CopperJoins(adj, nodes[j], nodes[i])
  {
    assert Dijkstra.Describes(adj, nodes[i], nodes[j], paths[(i, j)]);
    if w: seq<Step> :| Walk(adj, nodes[i], w, nodes[j]) { ReversedIsWalk(adj, nodes[i], w, nodes[j]); }
    if w: seq<Step> :| Walk(adj, nodes[j], w, nodes[i]) { ReversedIsWalk(adj, nodes[j], w, nodes[i]); }
  }

  /** A found path leads over copper from one of its pads to the other. */
  lemma DirectIsCopper(adj: Adjacency, ids: seq<string>, nodes: seq<nat>, paths: map<(nat, nat), Dijkstra.Path>,
                       ps: seq<Link>,
                       i: nat, b: string) returns (j: nat)
    requires Measured(adj, ids, nodes, paths) && AreLinks(ids, paths, ps) && i < |ids| && Direct(ps, ids[i], b)
    ensures j < |ids| && ids[j] == b && CopperJoins(adj, nodes[i], nodes[j])
  {
    hide Walk, WellFormed, Symmetric, Dijkstra.Describes, CopperJoins;
    var k :| 0 <= k < |ps| && ps[k].found && ((ps[k].from == ids[i] && ps[k].to == b) || (ps[k].from == b && ps[k].to == ids[i]));
    assert ps[k] in ps;
    var x: nat, y: nat :| IsLink(ids, paths, ps[k], x, y);
    MeansCopper(adj, ids, nodes, paths, x, y);
    j := if x == i then y else x;
  }

  lemma {:induction false} ChainIsCopper(adj: Adjacency, ids: seq<string>, nodes: seq<nat>,
                                         paths: map<(nat, nat), Dijkstra.Path>,
                                         ps: seq<Link>, i: nat, c: seq<string>) returns (j: nat)
    requires Measured(adj, ids, nodes, paths) && AreLinks(ids, paths, ps) && i < |ids| && Chain(ps, c) && c[0] == ids[i]
    ensures j < |ids| && ids[j] == c[|c| - 1] && CopperJoins(adj, nodes[i], nodes[j])
    decreases |c|
  {
    if |c| == 1 {
      j := i;
      assert Walk(adj, nodes[i], [], nodes[i]);
    } else {
      var init := c[..|c| - 1];
      assert Chain(ps, init) by { ShorterChain(ps, c); }
      var m := ChainIsCopper(adj, ids, nodes, paths, ps, i, init);
      assert Direct(ps, c[|c| - 2], c[|c| - 1]);
      j := DirectIsCopper(adj, ids, nodes, paths, ps, m, c[|c| - 1]);
      var u :| Walk(adj, nodes[i], u, nodes[m]);
      var v :| Walk(adj, nodes[m], v, nodes[j]);
      WalkOn(adj, nodes[i], u, nodes[m], v, nodes[j]);
    }
  }

  lemma ShorterChain(ps: seq<Link>, c: seq<string>)
    requires Chain(ps, c) && |c| > 1
    ensures Chain(ps, c[..|c| - 1])
  {
    hide Direct;
    var init := c[..|c| - 1];
    forall i | 0 <= i < |init| - 1 ensures Direct(ps, init[i], init[i + 1]) { assert Direct(ps, c[i], c[i + 1]); }
  }

  /** Main result: two pads are put in one island exactly if copper joins them. */
  lemma IslandsAreCopper(adj: Adjacency, ids: seq<string>, nodes: seq<nat>, paths: map<(nat, nat), Dijkstra.Path>,
                         ps: seq<Link>,
                         out: seq<seq<string>>, i: nat, j: nat)
    requires Measured(adj, ids, nodes, paths) && AreLinks(ids, paths, ps) && AreIslands(ids, ps, out) && i < |ids|
    requires j < |ids|
    ensures (exists k :: 0 <= k < |out| && ids[i] in out[k] && ids[j] in out[k]) <==> CopperJoins(adj, nodes[i], nodes[j])
  {
    hide *;
    JoinedIsCopper(adj, ids, nodes, paths, ps, i, j);
    OneIsland(ids, ps, out, ids[i], ids[j]);
  }

  lemma OneIsland(ids: seq<string>, ps: seq<Link>, out: seq<seq<string>>, a: string, b: string)
    requires AreIslands(ids, ps, out) && a in ids && b in ids
    ensures (exists k :: 0 <= k < |out| && a in out[k] && b in out[k]) <==> Joined(ps, a, b)
  {
    hide Joined, IslandOf;
    InIslandOf(ids, ps, a, b);
    var k :| 0 <= k < |out| && a in out[k];
    assert out[k] == IslandOf(ids, ps, a);
    if m: nat :| m < |out| && a in out[m] && b in out[m] {
      assert out[m] == IslandOf(ids, ps, a);
    }
  }

  lemma {:induction false} InIslandOf(ids: seq<string>, ps: seq<Link>, a: string, x: string)
    ensures x in IslandOf(ids, ps, a) <==> x in ids && Joined(ps, a, x)
    decreases |ids|
  {
    hide Joined;
    if ids != [] {
      InIslandOf(ids[..|ids| - 1], ps, a, x);
      assert x in ids <==> x in ids[..|ids| - 1] || x == ids[|ids| - 1];
    }
  }

  lemma JoinedIsCopper(adj: Adjacency, ids: seq<string>, nodes: seq<nat>, paths: map<(nat, nat), Dijkstra.Path>,
                       ps: seq<Link>, i: nat, j: nat)
    requires Measured(adj, ids, nodes, paths) && AreLinks(ids, paths, ps) && i < |ids| && j < |ids|
    ensures Joined(ps, ids[i], ids[j]) <==> CopperJoins(adj, nodes[i], nodes[j])
  {
    hide Walk, WellFormed, Symmetric, Dijkstra.Describes, CopperJoins;
    if Joined(ps, ids[i], ids[j]) {
      var c :| Chain(ps, c) && c[0] == ids[i] && c[|c| - 1] == ids[j];
      var m := ChainIsCopper(adj, ids, nodes, paths, ps, i, c);
    }
    if CopperJoins(adj, nodes[i], nodes[j]) {
      if i == j {
        JoinedToItself(ps, ids[i]);
      } else {
        var x, y := if i < j then i else j, if i < j then j else i;
        MeansCopper(adj, ids, nodes, paths, x, y);
        var p := Link(ids[x], ids[y], true);
        assert IsLink(ids, paths, p, x, y);
        var k :| 0 <= k < |ps| && ps[k] == p;
        assert Direct(ps, ids[i], ids[j]);
        JoinedDirectly(ps, ids[i], ids[j]);
      }
    }
  }
}
