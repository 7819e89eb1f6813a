/** A net's copper as a weighted graph (netlen/graph.go), and the routes through it. */
module NetGraph {

  /** What a length is made of. */
  datatype Parts = Parts(track: real, via: real, pad: real, package: real) {
    function Plus(q: Parts): Parts {
      Parts(track + q.track, via + q.via, pad + q.pad, package + q.package)
    }
    function Sum(): real { track + via + pad + package }
  }

  const NO_PARTS := Parts(0.0, 0.0, 0.0, 0.0)

  /** One piece of copper leaving a node. `track` is the uuid of the copper it is a piece of,
      empty for a pad link or copper without one. */
  datatype Edge = Edge(to: nat, length: real, delay: real, via: bool, parts: Parts, track: string)

  type Adjacency = seq<seq<Edge>>

  ghost predicate WellFormed(adj: Adjacency) {
    forall a, k :: 0 <= a < |adj| && 0 <= k < |adj[a]| ==>
      adj[a][k].to < |adj| && adj[a][k].length >= 0.0 && adj[a][k].parts.Sum() == adj[a][k].length
  }

  /** Every edge can be taken the other way, at the same price. */
  ghost predicate Symmetric(adj: Adjacency) {
    forall a, k :: 0 <= a < |adj| && 0 <= k < |adj[a]| ==>
      adj[a][k].to < |adj| && adj[a][k].(to := a) in adj[adj[a][k].to]
  }

  /** The graph under construction. Nodes are numbered in the order they are made. */
  class Graph {
    var adj: Adjacency

    ghost predicate Valid()
      reads this
    {
      WellFormed(adj) && Symmetric(adj)
    }

    constructor ()
      ensures Valid() && adj == []
    {
      adj := [];
    }

    method Node() returns (id: nat)
      requires Valid()
      modifies this
      ensures Valid()
      ensures id == |old(adj)| && adj == old(adj) + [[]]
    {
      id := |adj|;
      adj := adj + [[]];
    }

    /** Joins two nodes both ways; a piece from a node to itself is dropped. */
    method Add(a: int, b: int, e: Edge)
      requires Valid() && a < |adj| && b < |adj|
      requires e.length >= 0.0 && e.parts.Sum() == e.length
      modifies this
      ensures Valid()
      ensures adj == Joined(old(adj), a, b, e)
    {
      if a == b || a < 0 || b < 0 { return; }
      adj := adj[a := adj[a] + [e.(to := b)]];
      adj := adj[b := adj[b] + [e.(to := a)]];
      JoinedIsValid(old(adj), a, b, e);
    }

    method LinkTrack(a: int, b: int, length: real, delay: real, via: bool, track: string)
      requires Valid() && a < |adj| && b < |adj|
      requires length >= 0.0
      modifies this
      ensures Valid()
      ensures adj == Joined(old(adj), a, b, Edge(0, length, delay, via,
        if via then Parts(0.0, length, 0.0, 0.0) else Parts(length, 0.0, 0.0, 0.0), track))
    {
      var parts := Parts(length, 0.0, 0.0, 0.0);
      if via { parts := Parts(0.0, length, 0.0, 0.0); }
      Add(a, b, Edge(0, length, delay, via, parts, track));
    }
  }

  function Joined(adj: Adjacency, a: int, b: int, e: Edge): Adjacency
    requires a < |adj| && b < |adj|
  {
    if a == b || a < 0 || b < 0 then adj
    else adj[a := adj[a] + [e.(to := b)]][b := adj[b] + [e.(to := a)]]
  }

  lemma JoinedIsValid(adj: Adjacency, a: int, b: int, e: Edge)
    requires a < |adj| && b < |adj| && WellFormed(adj) && Symmetric(adj)
    requires e.length >= 0.0 && e.parts.Sum() == e.length
    ensures WellFormed(Joined(adj, a, b, e)) && Symmetric(Joined(adj, a, b, e))
  {
    if a != b && a >= 0 && b >= 0 {
      var g: Adjacency := Joined(adj, a, b, e);
      forall x: int, k: int | 0 <= x < |g| && 0 <= k < |g[x]|
        ensures g[x][k].to < |g| && g[x][k].length >= 0.0 && g[x][k].parts.Sum() == g[x][k].length
        ensures g[x][k].(to := x) in g[g[x][k].to]
      {
        if k < |adj[x]| {
          assert g[x][k] == adj[x][k];
          var y := adj[x][k].to;
          assert adj[x][k].(to := x) in adj[y];
          assert forall z :: z in adj[y] ==> z in g[y];
        } else if x == a {
          assert g[b][|adj[b]|] == e.(to := a);
        } else {
          assert g[a][|adj[a]|] == e.(to := b);
        }
      }
    }
  }

  // ---- routes ----

  datatype Step = Step(from: nat, e: Edge)

  /** `w` is a route from `a` to `b`, one edge after another. */
  ghost predicate Walk(adj: Adjacency, a: nat, w: seq<Step>, b: nat) {
    if w == [] then a == b && a < |adj|
    else
      var s := w[|w| - 1];
      s.from < |adj| && s.e in adj[s.from] && s.e.to == b && Walk(adj, a, w[..|w| - 1], s.from)
  }

  ghost function Length(w: seq<Step>): real {
    if w == [] then 0.0 else Length(w[..|w| - 1]) + w[|w| - 1].e.length
  }

  ghost function Delay(w: seq<Step>): real {
    if w == [] then 0.0 else Delay(w[..|w| - 1]) + w[|w| - 1].e.delay
  }

  /** Half-barrels crossed. */
  ghost function HalfVias(w: seq<Step>): nat {
    if w == [] then 0 else HalfVias(w[..|w| - 1]) + if w[|w| - 1].e.via then 1 else 0
  }

  ghost function PartsOf(w: seq<Step>): Parts {
    if w == [] then NO_PARTS else PartsOf(w[..|w| - 1]).Plus(w[|w| - 1].e.parts)
  }

  /** The uuids of the copper a route runs over. */
  ghost function TracksOf(w: seq<Step>): set<string> {
    if w == [] then {}
    else TracksOf(w[..|w| - 1]) + if w[|w| - 1].e.track != "" then {w[|w| - 1].e.track} else {}
  }

  datatype Dist = Inf | Fin(mm: real)

  /** `d` is the length of the shortest route, or infinite because there is none. */
  ghost predicate IsShortest(adj: Adjacency, a: nat, b: nat, d: Dist) {
    match d
    case Inf => forall w :: !Walk(adj, a, w, b)
    case Fin(mm) => (exists w :: Walk(adj, a, w, b) && Length(w) == mm)
                    && forall w :: Walk(adj, a, w, b) ==> mm <= Length(w)
  }

  /** What a route's parts add up to is its length. */
  lemma {:induction false} PartsSumToLength(adj: Adjacency, a: nat, w: seq<Step>, b: nat)
    requires WellFormed(adj) && Walk(adj, a, w, b)
    ensures PartsOf(w).Sum() == Length(w)
    ensures PartsOf(w).track + PartsOf(w).via + PartsOf(w).pad + PartsOf(w).package == Length(w)
  {
    if w != [] {
      var s := w[|w| - 1];
      PartsSumToLength(adj, a, w[..|w| - 1], s.from);
      var k :| 0 <= k < |adj[s.from]| && adj[s.from][k] == s.e;
    }
  }

  // ---- walking the other way ----

  ghost function Reversed(w: seq<Step>): seq<Step> {
    if w == [] then []
    else
      var s := w[|w| - 1];
      [Step(s.e.to, s.e.(to := s.from))] + Reversed(w[..|w| - 1])
  }

  /** A step in front of a route. */
  lemma {:induction false} PrependStep(adj: Adjacency, s: Step, w: seq<Step>, b: nat)
    requires s.from < |adj| && s.e in adj[s.from] && s.e.to < |adj|
    requires Walk(adj, s.e.to, w, b)
    ensures Walk(adj, s.from, [s] + w, b)
    ensures Length([s] + w) == s.e.length + Length(w)
  {
    var v := [s] + w;
    if w == [] {
      assert v[..|v| - 1] == [];
      assert v == [s];
    } else {
      var t := w[|w| - 1];
      PrependStep(adj, s, w[..|w| - 1], t.from);
      assert v[..|v| - 1] == [s] + w[..|w| - 1];
    }
  }

  lemma {:induction false} ReversedIsWalk(adj: Adjacency, a: nat, w: seq<Step>, b: nat)
    requires WellFormed(adj) && Symmetric(adj) && Walk(adj, a, w, b)
    ensures Walk(adj, b, Reversed(w), a) && Length(Reversed(w)) == Length(w)
  {
    if w != [] {
      var s := w[|w| - 1];
      ReversedIsWalk(adj, a, w[..|w| - 1], s.from);
      var k :| 0 <= k < |adj[s.from]| && adj[s.from][k] == s.e;
      PrependStep(adj, Step(b, s.e.(to := s.from)), Reversed(w[..|w| - 1]), a);
    }
  }

  /** Distances do not depend on which end they are asked from, which is why a measured path
      may be looked up with its pads in either order. */
  lemma ShortestIsSymmetric(adj: Adjacency, a: nat, b: nat, d: Dist)
    requires WellFormed(adj) && Symmetric(adj) && IsShortest(adj, a, b, d)
    ensures IsShortest(adj, b, a, d)
  {
    forall w | Walk(adj, b, w, a) ensures Walk(adj, a, Reversed(w), b) && Length(Reversed(w)) == Length(w) {
      ReversedIsWalk(adj, b, w, a);
    }
    if d.Fin? {
      var w :| Walk(adj, a, w, b) && Length(w) == d.mm;
      ReversedIsWalk(adj, a, w, b);
    }
  }

  /** There is only one shortest distance. */
  lemma ShortestIsUnique(adj: Adjacency, a: nat, b: nat, d: Dist, d': Dist)
    requires IsShortest(adj, a, b, d) && IsShortest(adj, a, b, d')
    ensures d == d'
  {
    if d.Fin? && d'.Fin? {
      var w :| Walk(adj, a, w, b) && Length(w) == d.mm;
      var w' :| Walk(adj, a, w', b) && Length(w') == d'.mm;
    }
  }
}
