/** Building a net's length graph from its copper (netlen/graph.go): junctions, divisions, tracks, vias.
    A node is named by its cluster's root; a via's hub by its place after the terminals. */
module LengthGraph {
  import opened NetGraph
  import opened Divisions
  import opened Clusters
  import opened Sorting
  import opened Connections
  import Forest

  /** What the graph is built from. Track `i` has terminals `2i` and `2i + 1`; the vias' come after. */
  datatype Track = Track(length: real, delayPerMM: real, uuid: string)
  datatype Via = Via(terms: seq<nat>, length: real, delayPerMM: real, uuid: string)
  datatype Net = Net(terms: seq<Terminal>, tracks: seq<Track>, vias: seq<Via>) {
    ghost predicate WellFormed() {
      && 2 * |tracks| <= |terms|
      && (forall i :: 0 <= i < |tracks| ==>
            tracks[i].length >= 0.0 && terms[2 * i].owner == i && terms[2 * i + 1].owner == i)
      && (forall i :: 0 <= i < |vias| ==>
            vias[i].length >= 0.0 && forall k :: 0 <= k < |vias[i].terms| ==> vias[i].terms[k] < |terms|)
    }
    function Nodes(): nat { |terms| + |vias| }
  }

  /** A terminal landing partway along another track. */
  datatype Candidate = Candidate(track: nat, term: nat, at: real, off: real)

  ghost predicate GoodCandidate(net: Net, c: Candidate) {
    c.track < |net.tracks| && c.term < |net.terms| && 0.0 < c.at < 1.0
  }

  /** The copper before any division, on the nodes the clusters make. */
  ghost function Base(net: Net, rep: seq<nat>): Copper
    requires net.WellFormed() && |rep| == |net.terms|
  {
    Copper(seq(|net.tracks|, t requires 0 <= t < |net.tracks| => net.tracks[t].length),
           seq(|net.tracks|, t requires 0 <= t < |net.tracks| => [Stop(0.0, rep[2 * t]), Stop(1.0, rep[2 * t + 1])]),
           seq(|net.vias|, i requires 0 <= i < |net.vias| => HubOf(net, rep, i)))
  }

  ghost function HubOf(net: Net, rep: seq<nat>, i: nat): Hub
    requires net.WellFormed() && |rep| == |net.terms| && i < |net.vias|
  {
    var v := net.vias[i];
    Hub(|net.terms| + i,
        if |v.terms| < 2 then []
        else seq(|v.terms|, k requires 0 <= k < |v.terms| => rep[v.terms[k]]),
        v.length / 2.0)
  }

  /** The copper with every via's spokes, even where it has one only. */
  ghost function Wired(net: Net, rep: seq<nat>): Copper
    requires net.WellFormed() && |rep| == |net.terms|
  {
    Base(net, rep).(hubs := seq(|net.vias|, i requires 0 <= i < |net.vias| =>
      Hub(|net.terms| + i, seq(|net.vias[i].terms|, k requires 0 <= k < |net.vias[i].terms| => rep[net.vias[i].terms[k]]),
          net.vias[i].length / 2.0)))
  }

  /** A via with one spoke leads nowhere: two terminals are connected without it if they are with it. */
  lemma {:induction false} DeadEnds(net: Net, rep: seq<nat>, a: nat, p: seq<Leg>, b: nat)
    requires net.WellFormed() && |rep| == |net.terms| && forall i :: 0 <= i < |rep| ==> rep[i] < |rep|
    requires a < |net.terms| && Trip(Wired(net, rep), a, p, b)
    ensures b < net.Nodes()
    ensures Connected(Base(net, rep), a, Landing(net, rep, b))
    decreases |p|
  {
    hide Connected, Hop, Wired, Base, Landing;
    if p == [] {
      StayPut(Base(net, rep), a);
      assert Landing(net, rep, a) == a by { AtTerminal(net, rep, a); }
    } else {
      var s, f := p[|p| - 1], EndOf(a, p[..|p| - 1]);
      DeadEnds(net, rep, a, p[..|p| - 1], f);
      OneHopOn(net, rep, a, f, b, s.l);
    }
  }

  lemma AtTerminal(net: Net, rep: seq<nat>, a: nat)
    requires net.WellFormed() && |rep| == |net.terms|
    ensures a < |net.terms| ==> Landing(net, rep, a) == a
  {
  }

  lemma OneHopOn(net: Net, rep: seq<nat>, a: nat, f: nat, b: nat, l: real)
    requires net.WellFormed() && |rep| == |net.terms| && (forall i :: 0 <= i < |rep| ==> rep[i] < |rep|)
    requires f < net.Nodes() && Connected(Base(net, rep), a, Landing(net, rep, f)) && Hop(Wired(net, rep), f, b, l)
    ensures b < net.Nodes() && Connected(Base(net, rep), a, Landing(net, rep, b))
  {
    hide Connected, Base, Wired, Landing, Piece, Spoke;
    if t: nat, k: nat :| Piece(Wired(net, rep), t, k, f, b, l) {
      PieceStays(net, rep, t, k, f, b, l);
    } else {
      var h: nat, k: nat :| Spoke(Wired(net, rep), h, k, f, b, l);
      SpokeLands(net, rep, h, k, f, b, l);
    }
    if Landing(net, rep, f) != Landing(net, rep, b) {
      HopConnects(Base(net, rep), f, b, l);
      GoOn(Base(net, rep), a, f, b);
    }
  }

  lemma PieceStays(net: Net, rep: seq<nat>, t: nat, k: nat, f: nat, b: nat, l: real)
    requires net.WellFormed() && |rep| == |net.terms| && (forall i :: 0 <= i < |rep| ==> rep[i] < |rep|)
    requires Piece(Wired(net, rep), t, k, f, b, l)
    ensures f < |net.terms| && b < |net.terms| && Hop(Base(net, rep), f, b, l)
    ensures Landing(net, rep, f) == f && Landing(net, rep, b) == b
  {
    hide Stretch;
    assert Piece(Base(net, rep), t, k, f, b, l);
  }

  lemma SpokeLands(net: Net, rep: seq<nat>, h: nat, k: nat, f: nat, b: nat, l: real)
    requires net.WellFormed() && |rep| == |net.terms| && (forall i :: 0 <= i < |rep| ==> rep[i] < |rep|)
    requires Spoke(Wired(net, rep), h, k, f, b, l)
    ensures f < net.Nodes() && b < net.Nodes()
    ensures
      || Landing(net, rep, f) == Landing(net, rep, b)
      || (Hop(Base(net, rep), f, b, l) && Landing(net, rep, f) == f && Landing(net, rep, b) == b)
  {
    if |net.vias[h].terms| >= 2 { assert Spoke(Base(net, rep), h, k, f, b, l); }
  }

  /** A node, or for a via with one spoke the node that reaches. */
  ghost function Landing(net: Net, rep: seq<nat>, b: nat): nat
    requires net.WellFormed() && |rep| == |net.terms| && b < net.Nodes()
  {
    if b >= |net.terms| && |net.vias[b - |net.terms|].terms| == 1 then rep[net.vias[b - |net.terms|].terms[0]] else b
  }

  lemma WiredMeans(net: Net, rep: seq<nat>, lab: seq<nat>)
    requires net.WellFormed() && |rep| == |net.terms| && (forall i :: 0 <= i < |rep| ==> rep[i] < |rep|)
    requires Means(Wired(net, rep), lab, net.Nodes())
    ensures Means(Base(net, rep), lab, |net.terms|)
  {
    forall a, b | 0 <= a < |net.terms| && 0 <= b < |net.terms| && lab[a] == lab[b] ensures Connected(Base(net, rep), a, b) {
      var w :| Trip(Wired(net, rep), a, w, b);
      DeadEnds(net, rep, a, w, b);
    }
  }

  lemma TrackIsWired(net: Net, rep: seq<nat>, i: nat)
    requires net.WellFormed() && |rep| == |net.terms| && i < |net.tracks|
    ensures Connected(Wired(net, rep), rep[2 * i], rep[2 * i + 1])
  {
    var m := Wired(net, rep);
    var l := Stretch(m.total[i], m.chains[i][0], m.chains[i][1]);
    PieceOf(m, i, 0, l);
    HopConnects(m, rep[2 * i], rep[2 * i + 1], l);
  }

  lemma SpokeIsWired(net: Net, rep: seq<nat>, i: nat, q: nat)
    requires net.WellFormed() && |rep| == |net.terms| && i < |net.vias| && q < |net.vias[i].terms|
    ensures Connected(Wired(net, rep), rep[net.vias[i].terms[q]], |net.terms| + i)
  {
    var m := Wired(net, rep);
    assert Spoke(m, i, q, rep[net.vias[i].terms[q]], |net.terms| + i, m.hubs[i].half);
    HopConnects(m, rep[net.vias[i].terms[q]], |net.terms| + i, m.hubs[i].half);
  }

  lemma NothingJoined(net: Net, rep: seq<nat>, lab: seq<nat>)
    requires InRange(net, rep, lab) && forall i :: 0 <= i < |lab| ==> lab[i] == i
    ensures Joining(net, rep, lab, 0, 0, 0)
  {
    forall a | 0 <= a < net.Nodes() ensures Connected(Wired(net, rep), a, a) { StayPut(Wired(net, rep), a); }
  }

  // ---- edges of the built graph ----

  ghost predicate HasEdge(adj: Adjacency, x: nat, y: nat, l: real) {
    x < |adj| && exists k :: 0 <= k < |adj[x]| && adj[x][k].to == y && adj[x][k].length == l
  }

  /** The graph has exactly the copper's edges. */
  ghost predicate Represents(adj: Adjacency, m: Copper) {
    forall x: nat, y: nat, l: real :: Hop(m, x, y, l) <==> HasEdge(adj, x, y, l)
  }

  /** The edge for a piece of a track: its share of the delay, and the track's uuid. */
  function TrackEdge(tr: Track, to: nat, l: real): Edge {
    Edge(to, l, l * tr.delayPerMM, false, Parts(l, 0.0, 0.0, 0.0), tr.uuid)
  }

  /** The edge for a spoke of a via: half the barrel, and its delay. */
  function ViaEdge(v: Via, to: nat): Edge {
    Edge(to, v.length / 2.0, v.length / 2.0 * v.delayPerMM, true, Parts(0.0, v.length / 2.0, 0.0, 0.0), v.uuid)
  }

  ghost predicate OfTrack(net: Net, m: Copper, t: nat, k: nat, x: nat, e: Edge) {
    t < |net.tracks| && Piece(m, t, k, x, e.to, e.length) && e == TrackEdge(net.tracks[t], e.to, e.length)
  }

  ghost predicate OfVia(net: Net, m: Copper, h: nat, k: nat, x: nat, e: Edge) {
    h < |net.vias| && Spoke(m, h, k, x, e.to, e.length) && e == ViaEdge(net.vias[h], e.to)
  }

  /** The edge stands for some piece of a track or spoke of a via, in its length, delay, parts and name. */
  ghost predicate StandsFor(net: Net, m: Copper, x: nat, e: Edge) {
    (exists t, k :: OfTrack(net, m, t, k, x, e)) || (exists h, k :: OfVia(net, m, h, k, x, e))
  }

  ghost predicate IsEdge(adj: Adjacency, x: nat, e: Edge) { x < |adj| && e in adj[x] }

  /** The graph has exactly the copper's edges, each with all it carries. */
  ghost predicate Carries(net: Net, adj: Adjacency, m: Copper) {
    forall x: nat, e: Edge :: StandsFor(net, m, x, e) <==> IsEdge(adj, x, e)
  }

  /** So it has their lengths. */
  lemma CarriesLengths(net: Net, adj: Adjacency, m: Copper)
    requires Carries(net, adj, m) && |m.chains| <= |net.tracks| && |m.hubs| <= |net.vias|
    requires forall h :: 0 <= h < |m.hubs| ==> m.hubs[h].half == net.vias[h].length / 2.0
    ensures Represents(adj, m)
  {
    hide Stretch;
    forall x: nat, y: nat, l: real ensures Hop(m, x, y, l) <==> HasEdge(adj, x, y, l) {
      if HasEdge(adj, x, y, l) {
        var k :| 0 <= k < |adj[x]| && adj[x][k].to == y && adj[x][k].length == l;
        assert IsEdge(adj, x, adj[x][k]);
      }
      if t: nat, k: nat :| Piece(m, t, k, x, y, l) {
        assert OfTrack(net, m, t, k, x, TrackEdge(net.tracks[t], y, l));
        assert IsEdge(adj, x, TrackEdge(net.tracks[t], y, l));
      }
      if h: nat, k: nat :| Spoke(m, h, k, x, y, l) {
        assert OfVia(net, m, h, k, x, ViaEdge(net.vias[h], y));
        assert IsEdge(adj, x, ViaEdge(net.vias[h], y));
      }
    }
  }

  /** This edge, either way round. */
  ghost predicate IsNew(a: nat, b: nat, e: Edge, x: nat, d: Edge) { (x == a && d == e.(to := b)) || (x == b && d == e.(to := a)) }

  lemma JoinedEdges(adj: Adjacency, a: nat, b: nat, e: Edge, x: nat, d: Edge)
    requires a < |adj| && b < |adj| && a != b
    ensures IsEdge(Joined(adj, a, b, e), x, d) <==> IsEdge(adj, x, d) || IsNew(a, b, e, x, d)
  {
  }

  /** Copper one piece or one spoke further on. */
  ghost predicate OneEdgeMore(net: Net, m: Copper, m': Copper, a: nat, b: nat, e: Edge) {
    forall x: nat, d: Edge :: StandsFor(net, m', x, d) <==> StandsFor(net, m, x, d) || IsNew(a, b, e, x, d)
  }

  lemma JoinCarries(net: Net, adj: Adjacency, m: Copper, m': Copper, a: nat, b: nat, e: Edge)
    requires Carries(net, adj, m) && OneEdgeMore(net, m, m', a, b, e)
    requires a < |adj| && b < |adj| && a != b
    ensures Carries(net, Joined(adj, a, b, e), m')
  {
    hide StandsFor, IsEdge, Joined, IsNew;
    forall x: nat, d: Edge ensures StandsFor(net, m', x, d) <==> IsEdge(Joined(adj, a, b, e), x, d) {
      JoinedEdges(adj, a, b, e, x, d);
    }
  }

  /** The copper with its first tracks laid, the last of them only as far as `c`. */
  ghost function Partly(total: seq<real>, chains: seq<seq<Stop>>, c: seq<Stop>): Copper
    requires |chains| < |total|
  {
    Copper(total[..|chains| + 1], chains + [c], [])
  }

  lemma NextPiece(net: Net, total: seq<real>, chains: seq<seq<Stop>>, c: seq<Stop>, k: nat)
    requires |chains| < |total| && 0 < k < |c| && |chains| < |net.tracks|
    ensures OneEdgeMore(net, Partly(total, chains, c[..k]), Partly(total, chains, c[..k + 1]), c[k - 1].node, c[k].node,
                        TrackEdge(net.tracks[|chains|], 0, Stretch(total[|chains|], c[k - 1], c[k])))
  {
    hide Stretch;
    var m, m' := Partly(total, chains, c[..k]), Partly(total, chains, c[..k + 1]);
    var last := |chains|;
    var e := TrackEdge(net.tracks[last], 0, Stretch(total[last], c[k - 1], c[k]));
    forall x: nat, d: Edge
      ensures StandsFor(net, m', x, d) <==> StandsFor(net, m, x, d) || IsNew(c[k - 1].node, c[k].node, e, x, d)
    {
      if i: nat, q: nat :| OfTrack(net, m, i, q, x, d) { assert OfTrack(net, m', i, q, x, d); }
      if i: nat, q: nat :| OfTrack(net, m', i, q, x, d) {
        if i < last || q + 1 < k { assert OfTrack(net, m, i, q, x, d); }
      }
      if IsNew(c[k - 1].node, c[k].node, e, x, d) { assert OfTrack(net, m', last, k - 1, x, d); }
    }
  }

  /** A track with only its first stop laid adds no edge. */
  lemma FirstStop(net: Net, total: seq<real>, chains: seq<seq<Stop>>, s: Stop, adj: Adjacency)
    requires |chains| < |total| && Carries(net, adj, Copper(total[..|chains|], chains, []))
    ensures Carries(net, adj, Partly(total, chains, [s]))
  {
    hide IsEdge, Stretch, TrackEdge;
    var m, m' := Copper(total[..|chains|], chains, []), Partly(total, chains, [s]);
    forall x: nat, e: Edge ensures StandsFor(net, m', x, e) <==> StandsFor(net, m, x, e) {
      if i: nat, q: nat :| OfTrack(net, m, i, q, x, e) { assert OfTrack(net, m', i, q, x, e); }
      if i: nat, q: nat :| OfTrack(net, m', i, q, x, e) { assert OfTrack(net, m, i, q, x, e); }
    }
  }

  lemma NextSpoke(net: Net, total: seq<real>, chains: seq<seq<Stop>>, hubs: seq<Hub>, h: Hub, k: nat)
    requires k < |h.spokes| && |total| == |chains| && |hubs| < |net.vias| && h.half == net.vias[|hubs|].length / 2.0
    ensures OneEdgeMore(net, Copper(total, chains, hubs + [h.(spokes := h.spokes[..k])]),
                        Copper(total, chains, hubs + [h.(spokes := h.spokes[..k + 1])]), h.node, h.spokes[k], ViaEdge(net.vias[|hubs|], 0))
  {
    hide Stretch;
    var m, m' := Copper(total, chains, hubs + [h.(spokes := h.spokes[..k])]),
                 Copper(total, chains, hubs + [h.(spokes := h.spokes[..k + 1])]);
    var last := |hubs|;
    var e := ViaEdge(net.vias[last], 0);
    forall x: nat, d: Edge
      ensures StandsFor(net, m', x, d) <==> StandsFor(net, m, x, d) || IsNew(h.node, h.spokes[k], e, x, d)
    {
      if i: nat, q: nat :| OfTrack(net, m, i, q, x, d) { assert OfTrack(net, m', i, q, x, d); }
      if i: nat, q: nat :| OfTrack(net, m', i, q, x, d) { assert OfTrack(net, m, i, q, x, d); }
      if i: nat, q: nat :| OfVia(net, m, i, q, x, d) { assert OfVia(net, m', i, q, x, d); }
      if i: nat, q: nat :| OfVia(net, m', i, q, x, d) {
        if i < last || q < k { assert OfVia(net, m, i, q, x, d); }
      }
      if IsNew(h.node, h.spokes[k], e, x, d) { assert OfVia(net, m', last, k, x, d); }
    }
  }

  lemma NoSpokes(net: Net, total: seq<real>, chains: seq<seq<Stop>>, hubs: seq<Hub>, h: Hub, adj: Adjacency)
    requires Carries(net, adj, Copper(total, chains, hubs)) && h.spokes == [] && |total| == |chains|
    ensures Carries(net, adj, Copper(total, chains, hubs + [h]))
  {
    hide IsEdge, Stretch, TrackEdge, ViaEdge;
    var m, m' := Copper(total, chains, hubs), Copper(total, chains, hubs + [h]);
    forall x: nat, e: Edge ensures StandsFor(net, m', x, e) <==> StandsFor(net, m, x, e) {
      if i: nat, q: nat :| OfTrack(net, m, i, q, x, e) { assert OfTrack(net, m', i, q, x, e); }
      if i: nat, q: nat :| OfTrack(net, m', i, q, x, e) { assert OfTrack(net, m, i, q, x, e); }
      if i: nat, q: nat :| OfVia(net, m, i, q, x, e) { assert OfVia(net, m', i, q, x, e); }
      if i: nat, q: nat :| OfVia(net, m', i, q, x, e) { assert OfVia(net, m, i, q, x, e); }
    }
  }

  // ---- routes and trips are the same thing ----

  lemma {:induction false} WalkIsTrip(adj: Adjacency, m: Copper, a: nat, w: seq<Step>, b: nat) returns (p: seq<Leg>)
    requires Represents(adj, m) && Walk(adj, a, w, b)
    ensures Trip(m, a, p, b) && TripLength(p) == Length(w)
    decreases |w|
  {
    p := [];
    if w != [] {
      var s := w[|w| - 1];
      p := WalkIsTrip(adj, m, a, w[..|w| - 1], s.from);
      assert HasEdge(adj, s.from, b, s.e.length);
      TripGrows(m, a, p, s.from, b, s.e.length);
      p := p + [Leg(b, s.e.length)];
    }
  }

  lemma {:induction false} TripIsWalk(adj: Adjacency, m: Copper, a: nat, p: seq<Leg>, b: nat) returns (w: seq<Step>)
    requires Represents(adj, m) && WellFormed(adj) && Trip(m, a, p, b) && a < |adj|
    ensures Walk(adj, a, w, b) && Length(w) == TripLength(p) && b < |adj|
    decreases |p|
  {
    w := [];
    if p != [] {
      var s, f := p[|p| - 1], EndOf(a, p[..|p| - 1]);
      w := TripIsWalk(adj, m, a, p[..|p| - 1], f);
      assert HasEdge(adj, f, b, s.l);
      var k :| 0 <= k < |adj[f]| && adj[f][k].to == b && adj[f][k].length == s.l;
      var v := w + [Step(f, adj[f][k])];
      assert v[..|v| - 1] == w;
      w := v;
    }
  }

  // ---- building it ----

  ghost predicate InRange(net: Net, rep: seq<nat>, lab: seq<nat>) {
    net.WellFormed() && |rep| == |net.terms| && |lab| == net.Nodes() && forall i :: 0 <= i < |rep| ==> rep[i] < |rep|
  }

  /** The first `n` tracks join the nodes at their ends. */
  ghost predicate TracksJoin(net: Net, rep: seq<nat>, lab: seq<nat>, n: nat)
    requires InRange(net, rep, lab) && n <= |net.tracks|
  {
    forall t :: 0 <= t < n ==> lab[rep[2 * t]] == lab[rep[2 * t + 1]]
  }

  /** The first `q` terminals of via `i` are joined to its hub. */
  ghost predicate ViaJoins(net: Net, rep: seq<nat>, lab: seq<nat>, i: nat, q: nat)
    requires InRange(net, rep, lab) && i < |net.vias| && q <= |net.vias[i].terms|
  {
    forall k :: 0 <= k < q ==> lab[rep[net.vias[i].terms[k]]] == lab[|net.terms| + i]
  }

  ghost predicate ViasJoin(net: Net, rep: seq<nat>, lab: seq<nat>, n: nat)
    requires InRange(net, rep, lab) && n <= |net.vias|
  {
    forall i :: 0 <= i < n ==> ViaJoins(net, rep, lab, i, |net.vias[i].terms|)
  }

  /** Which nodes the undivided copper joins. */
  ghost predicate Labelled(net: Net, rep: seq<nat>, lab: seq<nat>) {
    InRange(net, rep, lab) && TracksJoin(net, rep, lab, |net.tracks|) && ViasJoin(net, rep, lab, |net.vias|)
  }

  lemma LabelledFits(net: Net, rep: seq<nat>, lab: seq<nat>)
    requires Labelled(net, rep, lab)
    ensures LabelsFit(Base(net, rep), lab)
  {
    var m := Base(net, rep);
    assert forall i :: 0 <= i < |net.vias| ==> ViaJoins(net, rep, lab, i, |net.vias[i].terms|);
    forall x: nat, y: nat, l: real | Hop(m, x, y, l) ensures x < |lab| && y < |lab| && lab[x] == lab[y] && l >= 0.0 {
      if t: nat, k: nat :| Piece(m, t, k, x, y, l) {
      } else {
        var h: nat, k: nat :| Spoke(m, h, k, x, y, l);
      }
    }
  }

  /** The first `n` tracks, the first `i` vias and `q` terminals of the next have been joined up, and nothing that is
      not connected. */
  ghost predicate Joining(net: Net, rep: seq<nat>, lab: seq<nat>, n: nat, i: nat, q: nat) {
    && InRange(net, rep, lab) && n <= |net.tracks| && i <= |net.vias| && TracksJoin(net, rep, lab, n) && ViasJoin(net, rep, lab, i)
    && (i < |net.vias| ==> q <= |net.vias[i].terms| && ViaJoins(net, rep, lab, i, q))
    && Means(Wired(net, rep), lab, net.Nodes())
  }

  lemma StillJoining(net: Net, rep: seq<nat>, lab: seq<nat>, a: nat, b: nat, n: nat, i: nat, q: nat)
    requires Joining(net, rep, lab, n, i, q) && a < net.Nodes() && b < net.Nodes() && Connected(Wired(net, rep), a, b)
    ensures |lab| == net.Nodes() && Joining(net, rep, Forest.Relinked(lab, lab[a], lab[b]), n, i, q)
  {
    hide Wired, Connected, Means, Forest.Merged;
    Forest.RelinkedMerges(lab, a, b);
    JoiningMeans(Wired(net, rep), lab, Forest.Relinked(lab, lab[a], lab[b]), a, b, net.Nodes());
  }

  /** Joins two nodes that are connected, keeping everything joined so far. */
  method JoinNodes(net: Net, comp: Forest.Forest, a: nat, b: nat, ghost rep: seq<nat>, ghost n: nat, ghost i: nat,
                   ghost q: nat)
    requires comp.Valid() && comp.parent.Length == net.Nodes() && a < net.Nodes() && b < net.Nodes()
    requires Joining(net, rep, comp.rep, n, i, q) && Connected(Wired(net, rep), a, b)
    modifies comp, comp.parent
    ensures comp.Valid() && Joining(net, rep, comp.rep, n, i, q) && comp.rep[a] == comp.rep[b]
  {
    hide Joining, Forest.Rooted, Wired, Connected;
    StillJoining(net, rep, comp.rep, a, b, n, i, q);
    comp.Union(a, b);
  }

  /** The node of every terminal: the root of its cluster. */
  method TermNodes(cl: Clusters) returns (rep: seq<nat>)
    requires cl.Valid()
    modifies cl.f.parent
    ensures cl.Valid() && rep == cl.f.rep && |rep| == |cl.terms|
    ensures Proper(cl.terms, rep) && forall i :: 0 <= i < |rep| ==> rep[i] < |rep|
  {
    RootsInRange(cl.f.parent[..], cl.f.rep, cl.f.height);
    rep := [];
    for i := 0 to |cl.terms|
      invariant cl.Valid() && |rep| == i && forall k :: 0 <= k < i ==> rep[k] == cl.f.rep[k]
    {
      var r := cl.Find(i);
      rep := rep + [r];
    }
    assert rep == cl.f.rep;
  }

  /** Joins up what every track and every via connects. */
  method Components(net: Net, rep: seq<nat>) returns (comp: Forest.Forest)
    requires net.WellFormed() && |rep| == |net.terms| && forall i :: 0 <= i < |rep| ==> rep[i] < |rep|
    ensures fresh(comp) && fresh(comp.parent) && comp.Valid() && comp.parent.Length == net.Nodes()
    ensures Labelled(net, rep, comp.rep) && Means(Base(net, rep), comp.rep, |net.terms|)
  {
    comp := new Forest.Forest(net.Nodes());
    NothingJoined(net, rep, comp.rep);
    hide Forest.Rooted, Joining, Labelled, Means;
    JoinTracks(net, comp, rep);
    JoinVias(net, comp, rep);
    AllJoined(net, rep, comp.rep);
  }

  method JoinTracks(net: Net, comp: Forest.Forest, rep: seq<nat>)
    requires comp.Valid() && comp.parent.Length == net.Nodes() && Joining(net, rep, comp.rep, 0, 0, 0)
    modifies comp, comp.parent
    ensures comp.Valid() && Joining(net, rep, comp.rep, |net.tracks|, 0, 0)
  {
    RepsFit(net, rep, comp.rep);
    hide Forest.Rooted, Joining, Connected, Wired, Net.WellFormed;
    for i := 0 to |net.tracks|
      invariant comp.Valid() && Joining(net, rep, comp.rep, i, 0, 0)
    {
      TrackIsWired(net, rep, i);
      JoinNodes(net, comp, rep[2 * i], rep[2 * i + 1], rep, i, 0, 0);
      NextTrack(net, rep, comp.rep, i);
    }
  }

  method JoinVias(net: Net, comp: Forest.Forest, rep: seq<nat>)
    requires comp.Valid() && comp.parent.Length == net.Nodes() && Joining(net, rep, comp.rep, |net.tracks|, 0, 0)
    modifies comp, comp.parent
    ensures comp.Valid() && Joining(net, rep, comp.rep, |net.tracks|, |net.vias|, 0)
  {
    hide Forest.Rooted, Joining;
    for i := 0 to |net.vias|
      invariant comp.Valid() && Joining(net, rep, comp.rep, |net.tracks|, i, 0)
    {
      JoinVia(net, comp, rep, i);
    }
  }

  method JoinVia(net: Net, comp: Forest.Forest, rep: seq<nat>, i: nat)
    requires comp.Valid() && comp.parent.Length == net.Nodes() && i < |net.vias|
    requires Joining(net, rep, comp.rep, |net.tracks|, i, 0)
    modifies comp, comp.parent
    ensures comp.Valid() && Joining(net, rep, comp.rep, |net.tracks|, i + 1, 0)
  {
    hide Forest.Rooted, Joining, Connected, Wired, Net.WellFormed, InRange;
    JoiningFits(net, rep, comp.rep, |net.tracks|, i, 0);
    for q := 0 to |net.vias[i].terms|
      invariant comp.Valid() && Joining(net, rep, comp.rep, |net.tracks|, i, q)
    {
      SpokeIsWired(net, rep, i, q);
      JoinNodes(net, comp, rep[net.vias[i].terms[q]], |net.terms| + i, rep, |net.tracks|, i, q);
      NextOnVia(net, rep, comp.rep, |net.tracks|, i, q);
    }
    NextVia(net, rep, comp.rep, |net.tracks|, i);
  }

  lemma JoiningFits(net: Net, rep: seq<nat>, lab: seq<nat>, n: nat, i: nat, q: nat)
    requires Joining(net, rep, lab, n, i, q)
    ensures net.WellFormed() && |rep| == |net.terms| && forall k :: 0 <= k < |rep| ==> rep[k] < net.Nodes()
    ensures 2 * |net.tracks| <= |rep|
    ensures forall i, q :: 0 <= i < |net.vias| && 0 <= q < |net.vias[i].terms| ==> net.vias[i].terms[q] < |rep|
  {
    hide Net.WellFormed, Means, TracksJoin, ViasJoin;
    RepsFit(net, rep, lab);
  }

  lemma RepsFit(net: Net, rep: seq<nat>, lab: seq<nat>)
    requires InRange(net, rep, lab)
    ensures net.WellFormed() && |rep| == |net.terms| && forall k :: 0 <= k < |rep| ==> rep[k] < net.Nodes()
    ensures 2 * |net.tracks| <= |rep|
    ensures forall i, q :: 0 <= i < |net.vias| && 0 <= q < |net.vias[i].terms| ==> net.vias[i].terms[q] < |rep|
  {
  }

  lemma NextTrack(net: Net, rep: seq<nat>, lab: seq<nat>, n: nat)
    requires Joining(net, rep, lab, n, 0, 0) && n < |net.tracks| && lab[rep[2 * n]] == lab[rep[2 * n + 1]]
    ensures Joining(net, rep, lab, n + 1, 0, 0)
  {
    hide Means;
  }

  lemma NextOnVia(net: Net, rep: seq<nat>, lab: seq<nat>, n: nat, i: nat, q: nat)
    requires Joining(net, rep, lab, n, i, q) && i < |net.vias| && q < |net.vias[i].terms|
    requires lab[rep[net.vias[i].terms[q]]] == lab[|net.terms| + i]
    ensures Joining(net, rep, lab, n, i, q + 1)
  {
    hide Means, TracksJoin, ViasJoin;
  }

  lemma NextVia(net: Net, rep: seq<nat>, lab: seq<nat>, n: nat, i: nat)
    requires i < |net.vias| && Joining(net, rep, lab, n, i, |net.vias[i].terms|)
    ensures Joining(net, rep, lab, n, i + 1, 0)
  {
    hide Means, TracksJoin;
  }

  lemma AllJoined(net: Net, rep: seq<nat>, lab: seq<nat>)
    requires Joining(net, rep, lab, |net.tracks|, |net.vias|, 0)
    ensures Labelled(net, rep, lab) && Means(Base(net, rep), lab, |net.terms|)
  {
    hide Means, TracksJoin, ViasJoin;
    WiredMeans(net, rep, lab);
  }

  lemma RootsInRange(parent: seq<nat>, rep: seq<nat>, height: seq<int>)
    requires Forest.Rooted(parent, rep, height)
    ensures forall i :: 0 <= i < |rep| ==> rep[i] < |rep|
  {
    forall i | 0 <= i < |rep| ensures rep[i] < |rep| { assert Forest.RootedAt(parent, rep, height, i); }
  }

  /** Whether a candidate's terminal and track are already joined. */
  ghost predicate JoinedBy(net: Net, rep: seq<nat>, lab: seq<nat>, c: Candidate)
    requires InRange(net, rep, lab) && GoodCandidate(net, c)
  {
    lab[rep[c.term]] == lab[rep[2 * c.track]]
  }

  /** The divisions made are those of these candidates, the closest first. */
  ghost predicate ClosestFirst(net: Net, rep: seq<nat>, picks: seq<Candidate>, acc: seq<Division>)
    requires |rep| == |net.terms|
  {
    && |picks| == |acc| && (forall i, j :: 0 <= i < j < |picks| ==> picks[i].off <= picks[j].off)
    && forall k :: 0 <= k < |picks| ==>
      GoodCandidate(net, picks[k]) && acc[k] == Division(picks[k].track, picks[k].at, rep[picks[k].term])
  }

  /** Divisions no farther off than this candidate, its own perhaps among them, join its terminal to its track. */
  ghost predicate SeenTo(net: Net, rep: seq<nat>, c: Candidate, picks: seq<Candidate>, labs: seq<seq<nat>>)
    requires GoodCandidate(net, c) && |labs| == |picks| + 1
    requires forall k :: 0 <= k < |labs| ==> InRange(net, rep, labs[k])
  {
    exists k :: 0 <= k <= |picks| && (k > 0 ==> picks[k - 1].off <= c.off) && JoinedBy(net, rep, labs[k], c)
  }

  /** The candidates are those of a net's copper; every one has been seen to, and those picked are among them. */
  ghost predicate AllSeenTo(net: Net, rep: seq<nat>, cands: seq<Candidate>, picks: seq<Candidate>,
                            labs: seq<seq<nat>>) {
    && |labs| == |picks| + 1 && (forall k :: 0 <= k < |labs| ==> InRange(net, rep, labs[k]))
    && (forall c :: c in picks ==> c in cands)
    && (forall c :: c in cands ==> GoodCandidate(net, c) && SeenTo(net, rep, c, picks, labs) && JoinedBy(net, rep, labs[|picks|], c))
  }

  lemma OneMoreSeenTo(net: Net, rep: seq<nat>, cands: seq<Candidate>, c: Candidate, picks: seq<Candidate>,
                      labs: seq<seq<nat>>)
    requires AllSeenTo(net, rep, cands, picks, labs) && GoodCandidate(net, c) && JoinedBy(net, rep, labs[|picks|], c)
    requires forall p :: p in picks ==> p.off <= c.off
    ensures AllSeenTo(net, rep, cands + [c], picks, labs)
  {
    assert picks != [] ==> picks[|picks| - 1] in picks;
    assert SeenTo(net, rep, c, picks, labs);
    hide JoinedBy, SeenTo, InRange;
  }

  lemma OneMorePicked(net: Net, rep: seq<nat>, cands: seq<Candidate>, c: Candidate, picks: seq<Candidate>,
                      labs: seq<seq<nat>>,
                      lab': seq<nat>)
    requires AllSeenTo(net, rep, cands, picks, labs) && GoodCandidate(net, c) && InRange(net, rep, lab')
    requires Coarser(labs[|picks|], lab') && JoinedBy(net, rep, lab', c)
    ensures AllSeenTo(net, rep, cands + [c], picks + [c], labs + [lab'])
  {
    var picks', labs' := picks + [c], labs + [lab'];
    forall d | d in cands + [c]
      ensures GoodCandidate(net, d) && SeenTo(net, rep, d, picks', labs') && JoinedBy(net, rep, labs'[|picks'|], d)
    {
      if d in cands {
        var k :| 0 <= k <= |picks| && (k > 0 ==> picks[k - 1].off <= d.off) && JoinedBy(net, rep, labs[k], d);
        assert labs'[k] == labs[k] && (k > 0 ==> picks'[k - 1] == picks[k - 1]);
        assert JoinedBy(net, rep, labs'[k], d);
      } else {
        assert labs'[|picks'|] == lab' && picks'[|picks'| - 1] == c;
        assert JoinedBy(net, rep, labs'[|picks'|], d);
      }
    }
  }

  lemma NoneSeenTo(net: Net, rep: seq<nat>, lab: seq<nat>)
    requires InRange(net, rep, lab)
    ensures AllSeenTo(net, rep, [], [], [lab]) && ClosestFirst(net, rep, [], [])
  {
  }

  /** The state of the choice once the candidates `seen`, closest first, have been considered. */
  ghost predicate Dividing(net: Net, rep: seq<nat>, seen: seq<Candidate>, lab: seq<nat>, splits: seq<seq<Stop>>,
                           acc: seq<Division>, labs: seq<seq<nat>>, picks: seq<Candidate>) {
    && InRange(net, rep, lab) && Chosen(Base(net, rep), acc, labs) && |labs| == |acc| + 1 && labs[|acc|] == lab
    && |splits| == |net.tracks| && (forall t :: 0 <= t < |splits| ==> multiset(splits[t]) == StopsOn(acc, t))
    && ClosestFirst(net, rep, picks, acc) && AllSeenTo(net, rep, seen, picks, labs)
  }

  lemma NoneConsidered(net: Net, rep: seq<nat>, lab: seq<nat>)
    requires Labelled(net, rep, lab) && Proper(net.terms, rep)
    ensures Dividing(net, rep, [], lab, seq(|net.tracks|, _ => []), [], [lab], [])
  {
    LabelledFits(net, rep, lab);
    EndsApart(net, rep);
    NoneSeenTo(net, rep, lab);
  }

  lemma OneLeft(net: Net, rep: seq<nat>, seen: seq<Candidate>, c: Candidate, lab: seq<nat>, splits: seq<seq<Stop>>,
                acc: seq<Division>, labs: seq<seq<nat>>, picks: seq<Candidate>)
    requires Dividing(net, rep, seen, lab, splits, acc, labs, picks) && GoodCandidate(net, c)
    requires (forall d :: d in seen ==> d.off <= c.off) && lab[rep[c.term]] == lab[rep[2 * c.track]]
    ensures Dividing(net, rep, seen + [c], lab, splits, acc, labs, picks)
  {
    hide Chosen, StopsOn, Base, SeenTo;
    OneMoreSeenTo(net, rep, seen, c, picks, labs);
  }

  lemma OneTaken(net: Net, rep: seq<nat>, seen: seq<Candidate>, c: Candidate, lab: seq<nat>, lab': seq<nat>,
                 splits: seq<seq<Stop>>,
                 acc: seq<Division>, labs: seq<seq<nat>>, picks: seq<Candidate>)
    requires Dividing(net, rep, seen, lab, splits, acc, labs, picks) && GoodCandidate(net, c)
    requires (forall d :: d in seen ==> d.off <= c.off) && lab[rep[c.term]] != lab[rep[2 * c.track]]
    requires lab' == Forest.Relinked(lab, lab[rep[c.term]], lab[rep[2 * c.track]])
    ensures
      var d := Division(c.track, c.at, rep[c.term]);
      Dividing(net, rep, seen + [c], lab', splits[c.track := splits[c.track] + [Stop(d.at, d.node)]], acc + [d], labs + [lab'], picks + [c])
  {
    hide StopsOn, SeenTo, Forest.Merged;
    var d := Division(c.track, c.at, rep[c.term]);
    UnionMerges(net, rep, lab, lab', c);
    hide Base;
    OneMoreChosen(Base(net, rep), acc, labs, d, lab');
    OneMorePicked(net, rep, seen, c, picks, labs, lab');
    OneMoreInOrder(net, rep, picks, acc, c);
  }

  /** Each division connects what was apart until then, the closest candidates have the first say, and none that would
      connect anything is passed over. */
  method Divide(net: Net, rep: seq<nat>, comp: Forest.Forest, cands: seq<Candidate>, noSplits: bool)
    returns (splits: seq<seq<Stop>>, ghost acc: seq<Division>, ghost labs: seq<seq<nat>>, ghost picks: seq<Candidate>)
    requires comp.Valid() && Labelled(net, rep, comp.rep) && Proper(net.terms, rep)
    requires forall c :: c in cands ==> GoodCandidate(net, c)
    modifies comp, comp.parent
    ensures Dividing(net, rep, if noSplits then [] else cands, comp.rep, splits, acc, labs, picks)
    ensures labs[0] == old(comp.rep)
    ensures noSplits ==> acc == []
  {
    splits := seq(|net.tracks|, _ => []);
    acc, labs, picks := [], [comp.rep], [];
    NoneConsidered(net, rep, comp.rep);
    if noSplits { return; }
    hide Forest.Rooted, Proper, Chosen, Labelled, ClosestFirst, AllSeenTo, Base, StopsOn;
    var order := Sort(cands, (c: Candidate) => c.off);
    assert order[..0] == [];
    for k := 0 to |order|
      invariant comp.Valid() && Dividing(net, rep, order[..k], comp.rep, splits, acc, labs, picks)
      invariant labs[0] == old(comp.rep)
    {
      var c := order[k];
      assert order[..k + 1] == order[..k] + [c];
      assert forall d :: d in order[..k] ==> d.off <= c.off;
      assert GoodCandidate(net, c);
      var at := rep[c.term];
      var a := comp.Find(at);
      var b := comp.Find(rep[2 * c.track]);
      if a == b {
        OneLeft(net, rep, order[..k], c, comp.rep, splits, acc, labs, picks);
        continue;
      }
      ghost var was := comp.rep;
      comp.Union(a, b);
      OneTaken(net, rep, order[..k], c, was, comp.rep, splits, acc, labs, picks);
      splits := splits[c.track := splits[c.track] + [Stop(c.at, at)]];
      acc, labs, picks := acc + [Division(c.track, c.at, at)], labs + [comp.rep], picks + [c];
    }
    assert order[..|order|] == order;
    SameCandidates(net, rep, order, cands, picks, labs);
  }

  lemma UnionMerges(net: Net, rep: seq<nat>, lab: seq<nat>, lab': seq<nat>, c: Candidate)
    requires InRange(net, rep, lab) && GoodCandidate(net, c) && lab[rep[c.term]] != lab[rep[2 * c.track]]
    requires lab' == Forest.Relinked(lab, lab[rep[c.term]], lab[rep[2 * c.track]]) && Undivided(Base(net, rep))
    ensures InRange(net, rep, lab') && Coarser(lab, lab') && JoinedBy(net, rep, lab', c)
    ensures ChosenAt(Base(net, rep), Division(c.track, c.at, rep[c.term]), lab, lab')
  {
    Forest.RelinkedMerges(lab, rep[c.term], rep[2 * c.track]);
  }

  lemma OneMoreInOrder(net: Net, rep: seq<nat>, picks: seq<Candidate>, acc: seq<Division>, c: Candidate)
    requires |rep| == |net.terms| && ClosestFirst(net, rep, picks, acc) && GoodCandidate(net, c)
    requires forall p :: p in picks ==> p.off <= c.off
    ensures ClosestFirst(net, rep, picks + [c], acc + [Division(c.track, c.at, rep[c.term])])
  {
  }

  lemma SameCandidates(net: Net, rep: seq<nat>, order: seq<Candidate>, cands: seq<Candidate>, picks: seq<Candidate>,
                       labs: seq<seq<nat>>)
    requires AllSeenTo(net, rep, order, picks, labs) && forall c :: c in order <==> c in cands
    ensures AllSeenTo(net, rep, cands, picks, labs)
  {
  }

  /** A track's two ends are different nodes, because one owner is never twice in a cluster. */
  lemma EndsApart(net: Net, rep: seq<nat>)
    requires net.WellFormed() && Proper(net.terms, rep)
    ensures Undivided(Base(net, rep))
  {
    var m := Base(net, rep);
    forall t | 0 <= t < |m.chains| ensures m.chains[t][0].node != m.chains[t][1].node {
      assert net.terms[2 * t].owner == net.terms[2 * t + 1].owner;
    }
  }

  ghost function AddedTo(d: Division, t: nat): multiset<Stop> {
    if d.track == t then multiset{Stop(d.at, d.node)} else multiset{}
  }

  lemma OneMoreChosen(base: Copper, acc: seq<Division>, labs: seq<seq<nat>>, d: Division, lab': seq<nat>)
    requires Chosen(base, acc, labs) && ChosenAt(base, d, labs[|acc|], lab')
    ensures Chosen(base, acc + [d], labs + [lab'])
    ensures forall t :: StopsOn(acc + [d], t) == StopsOn(acc, t) + AddedTo(d, t)
  {
    var acc', labs' := acc + [d], labs + [lab'];
    assert acc'[..|acc'| - 1] == acc;
    forall k | 0 <= k < |acc'| ensures ChosenAt(base, acc'[k], labs'[k], labs'[k + 1]) {
      if k < |acc| { assert ChosenAt(base, acc[k], labs[k], labs[k + 1]); }
    }
  }

  /** Every track's stops in order: its ends, and whatever divides it between them. */
  method ArrangeStops(net: Net, rep: seq<nat>, splits: seq<seq<Stop>>,
                      ghost acc: seq<Division>) returns (chains: seq<seq<Stop>>)
    requires net.WellFormed() && |rep| == |net.terms| && |splits| == |net.tracks|
    requires forall t :: 0 <= t < |splits| ==> multiset(splits[t]) == StopsOn(acc, t)
    ensures Arranged(Base(net, rep), acc, chains)
  {
    hide ArrangedAt, Arranged, InOrder, StopsOn;
    chains := [];
    ghost var base := Base(net, rep);
    for t := 0 to |net.tracks|
      invariant |chains| == t && forall i :: 0 <= i < t ==> ArrangedAt(base, acc, i, chains[i])
    {
      var sorted := SortStops(Stop(0.0, rep[2 * t]), splits[t], Stop(1.0, rep[2 * t + 1]));
      SortedIsArranged(net, rep, acc, t, splits[t], sorted);
      chains := chains + [sorted];
    }
    AllArranged(base, acc, chains);
  }

  lemma AllArranged(base: Copper, acc: seq<Division>, chains: seq<seq<Stop>>)
    requires |chains| == |base.chains| && forall i :: 0 <= i < |chains| ==> ArrangedAt(base, acc, i, chains[i])
    ensures Arranged(base, acc, chains)
  {
    hide InOrder, StopsOn;
  }

  lemma SortedIsArranged(net: Net, rep: seq<nat>, acc: seq<Division>, t: nat, between: seq<Stop>, sorted: seq<Stop>)
    requires net.WellFormed() && |rep| == |net.terms| && t < |net.tracks| && multiset(between) == StopsOn(acc, t)
    requires InOrder(sorted)
    requires multiset(sorted) == multiset([Stop(0.0, rep[2 * t]), Stop(1.0, rep[2 * t + 1])]) + multiset(between)
    ensures ArrangedAt(Base(net, rep), acc, t, sorted)
  {
    hide InOrder, StopsOn;
  }

  ghost predicate ArrangedAt(base: Copper, acc: seq<Division>, t: nat, c: seq<Stop>)
    requires t < |base.chains|
  {
    InOrder(c) && multiset(c) == multiset(base.chains[t]) + StopsOn(acc, t)
  }

  method SortStops(first: Stop, between: seq<Stop>, last: Stop) returns (c: seq<Stop>)
    ensures InOrder(c) && multiset(c) == multiset([first, last]) + multiset(between)
  {
    var pieces := [first] + between + [last];
    assert multiset(pieces) == multiset([first, last]) + multiset(between);
    c := Sort(pieces, (s: Stop) => s.at);
    SortedIsInOrder(c);
  }

  lemma SortedIsInOrder(c: seq<Stop>)
    requires SortedBy(c, (s: Stop) => s.at)
    ensures InOrder(c)
  {
    var key := (s: Stop) => s.at;
    forall i, j | 0 <= i < j < |c| ensures c[i].at <= c[j].at { assert key(c[i]) <= key(c[j]); }
  }

  /** One edge per piece of a track. */
  method LinkPieces(net: Net, g: Graph, ghost total: seq<real>, ghost chains: seq<seq<Stop>>, c: seq<Stop>, t: nat)
    requires t == |chains| < |total| && t < |net.tracks| && total[t] == net.tracks[t].length >= 0.0 && InOrder(c)
    requires c != []
    requires forall i :: 0 <= i < |c| ==> c[i].node < |g.adj|
    requires forall i, j :: 0 <= i < j < |c| ==> c[i].node != c[j].node
    requires g.Valid() && Carries(net, g.adj, Copper(total[..|chains|], chains, []))
    modifies g
    ensures g.Valid() && |g.adj| == |old(g.adj)| && Carries(net, g.adj, Partly(total, chains, c))
  {
    hide Carries, WellFormed, Symmetric, OneEdgeMore, Partly;
    var tr := net.tracks[t];
    FirstStop(net, total, chains, c[0], g.adj);
    assert c[..1] == [c[0]];
    var k := 0;
    while k + 1 < |c|
      invariant 0 <= k < |c| && g.Valid() && |g.adj| == |old(g.adj)|
      invariant Carries(net, g.adj, Partly(total, chains, c[..k + 1]))
    {
      var l := Stretch(tr.length, c[k], c[k + 1]);
      Share(tr.length, c[k], c[k], c[k + 1]);
      if l < 0.0 { l := 0.0; }
      NextPiece(net, total, chains, c, k + 1);
      JoinCarries(net, g.adj, Partly(total, chains, c[..k + 1]), Partly(total, chains, c[..k + 2]), c[k].node, c[k + 1].node,
                  TrackEdge(tr, 0, l));
      assert TrackEdge(tr, 0, l) == Edge(0, l, l * tr.delayPerMM, false, Parts(l, 0.0, 0.0, 0.0), tr.uuid);
      g.LinkTrack(c[k].node, c[k + 1].node, l, l * tr.delayPerMM, false, tr.uuid);
      k := k + 1;
    }
    assert c[..|c|] == c;
  }

  /** A via's hub, with half the barrel to each layer it reaches. */
  method LinkHub(net: Net, g: Graph, ghost total: seq<real>, ghost chains: seq<seq<Stop>>, ghost hubs: seq<Hub>,
                 h: Hub, i: nat)
    requires |total| == |chains| && i == |hubs| < |net.vias| && h.half == net.vias[i].length / 2.0 >= 0.0
    requires h.node < |g.adj|
    requires forall k :: 0 <= k < |h.spokes| ==> h.spokes[k] < |g.adj| && h.spokes[k] != h.node
    requires g.Valid() && Carries(net, g.adj, Copper(total, chains, hubs))
    modifies g
    ensures g.Valid() && |g.adj| == |old(g.adj)| && Carries(net, g.adj, Copper(total, chains, hubs + [h]))
  {
    hide Carries, WellFormed, Symmetric, OneEdgeMore;
    var v := net.vias[i];
    ghost var none := h.(spokes := []);
    NoSpokes(net, total, chains, hubs, none, g.adj);
    assert h.spokes[..0] == [];
    for k := 0 to |h.spokes|
      invariant g.Valid() && |g.adj| == |old(g.adj)|
      invariant Carries(net, g.adj, Copper(total, chains, hubs + [h.(spokes := h.spokes[..k])]))
    {
      NextSpoke(net, total, chains, hubs, h, k);
      JoinCarries(net, g.adj, Copper(total, chains, hubs + [h.(spokes := h.spokes[..k])]),
                  Copper(total, chains, hubs + [h.(spokes := h.spokes[..k + 1])]), h.node, h.spokes[k], ViaEdge(v, 0));
      assert ViaEdge(v, 0) == Edge(0, h.half, h.half * v.delayPerMM, true, Parts(0.0, h.half, 0.0, 0.0), v.uuid);
      g.LinkTrack(h.node, h.spokes[k], h.half, h.half * v.delayPerMM, true, v.uuid);
    }
    assert h.spokes[..|h.spokes|] == h.spokes;
    assert h.(spokes := h.spokes) == h;
  }

  /** What the links need of the stops: real nodes, no node twice on a track. */
  ghost predicate Linkable(chains: seq<seq<Stop>>, n: nat) {
    forall t :: 0 <= t < |chains| ==> LinkableChain(chains[t], n)
  }

  ghost predicate LinkableChain(c: seq<Stop>, n: nat) {
    && c != [] && InOrder(c)
    && (forall i :: 0 <= i < |c| ==> c[i].node < n)
    && (forall i, j :: 0 <= i < j < |c| ==> c[i].node != c[j].node)
  }

  lemma ArrangedIsLinkable(base: Copper, acc: seq<Division>, labs: seq<seq<nat>>, chains: seq<seq<Stop>>)
    requires Chosen(base, acc, labs) && Arranged(base, acc, chains) && |labs| == |acc| + 1
    ensures Linkable(chains, |labs[|acc|]|)
  {
    hide Hop, SameDistance, LabelsFit, Chosen;
    DivisionsKeepDistances(base, acc, labs, chains);
    forall t | 0 <= t < |chains| ensures LinkableChain(chains[t], |labs[|acc|]|) {
      EndsAreThere(base, acc, labs, chains, t);
      forall j | 0 <= j < |chains[t]| ensures chains[t][j].node < |labs[|acc|]| {
        StopHasStartsLabel(base, acc, chains, labs[|acc|], t, j);
      }
    }
  }

  lemma EndsAreThere(base: Copper, acc: seq<Division>, labs: seq<seq<nat>>, chains: seq<seq<Stop>>, t: nat)
    requires Chosen(base, acc, labs) && Arranged(base, acc, chains) && t < |chains|
    ensures Undivided(base) && |chains[t]| > 1
  {
    assert |multiset(chains[t])| == |multiset(base.chains[t])| + |StopsOn(acc, t)|;
  }

  method LayTracks(net: Net, g: Graph, chains: seq<seq<Stop>>, ghost total: seq<real>)
    requires net.WellFormed() && |chains| == |net.tracks| == |total|
    requires forall t :: 0 <= t < |total| ==> total[t] == net.tracks[t].length
    requires g.Valid() && |g.adj| == net.Nodes() && Linkable(chains, net.Nodes())
    requires Carries(net, g.adj, Copper([], [], []))
    modifies g
    ensures g.Valid() && |g.adj| == net.Nodes() && Carries(net, g.adj, Copper(total, chains, []))
  {
    hide Carries, WellFormed, Symmetric;
    assert total[..0] == [] && chains[..0] == [];
    for t := 0 to |net.tracks|
      invariant g.Valid() && |g.adj| == net.Nodes()
      invariant Carries(net, g.adj, Copper(total[..t], chains[..t], []))
    {
      assert LinkableChain(chains[t], net.Nodes());
      LinkPieces(net, g, total, chains[..t], chains[t], t);
      assert chains[..t + 1] == chains[..t] + [chains[t]];
    }
    assert total[..|net.tracks|] == total && chains[..|net.tracks|] == chains;
  }

  method LayVias(net: Net, g: Graph, rep: seq<nat>, ghost total: seq<real>, ghost chains: seq<seq<Stop>>)
    requires net.WellFormed() && |rep| == |net.terms| && |total| == |chains|
    requires forall i :: 0 <= i < |rep| ==> rep[i] < |rep|
    requires g.Valid() && |g.adj| == net.Nodes() && Carries(net, g.adj, Copper(total, chains, []))
    modifies g
    ensures g.Valid() && |g.adj| == net.Nodes() && Carries(net, g.adj, Copper(total, chains, Base(net, rep).hubs))
  {
    hide Carries, WellFormed, Symmetric;
    ghost var hubs := Base(net, rep).hubs;
    assert hubs[..0] == [];
    for i := 0 to |net.vias|
      invariant g.Valid() && |g.adj| == net.Nodes()
      invariant Carries(net, g.adj, Copper(total, chains, hubs[..i]))
    {
      var v := net.vias[i];
      var spokes := [];
      if |v.terms| >= 2 {
        for k := 0 to |v.terms|
          invariant |spokes| == k && forall q :: 0 <= q < k ==> spokes[q] == rep[v.terms[q]]
        {
          spokes := spokes + [rep[v.terms[k]]];
        }
      }
      var h := Hub(|net.terms| + i, spokes, v.length / 2.0);
      assert h == HubOf(net, rep, i);
      LinkHub(net, g, total, chains, hubs[..i], h, i);
      assert hubs[..i + 1] == hubs[..i] + [h];
    }
    assert hubs[..|net.vias|] == hubs;
  }

  /** The graph of a net, with the divisions made on the way: `noSplits` leaves them out. */
  method BuildGraph(net: Net, rep: seq<nat>, cands: seq<Candidate>, noSplits: bool)
    returns (g: Graph, ghost acc: seq<Division>, ghost labs: seq<seq<nat>>, ghost chains: seq<seq<Stop>>, ghost picks: seq<Candidate>)
    requires net.WellFormed() && Proper(net.terms, rep) && forall i :: 0 <= i < |rep| ==> rep[i] < |rep|
    requires forall c :: c in cands ==> GoodCandidate(net, c)
    ensures WellFormed(g.adj) && Symmetric(g.adj) && |g.adj| == net.Nodes()
    ensures Chosen(Base(net, rep), acc, labs) && Arranged(Base(net, rep), acc, chains) && |labs[0]| == net.Nodes()
    ensures Carries(net, g.adj, Laid(Base(net, rep), chains)) && Represents(g.adj, Laid(Base(net, rep), chains))
    ensures noSplits ==> acc == [] && Represents(g.adj, Base(net, rep))
    ensures Means(Base(net, rep), labs[0], |net.terms|) && ClosestFirst(net, rep, picks, acc)
    ensures !noSplits ==> AllSeenTo(net, rep, cands, picks, labs)
  {
    var comp := Components(net, rep);
    var splits: seq<seq<Stop>>;
    splits, acc, labs, picks := Divide(net, rep, comp, cands, noSplits);
    var laid := ArrangeStops(net, rep, splits, acc);
    ghost var base := Base(net, rep);
    chains := laid;
    ArrangedIsLinkable(base, acc, labs, laid);
    g := new Graph();
    for i := 0 to net.Nodes()
      invariant fresh(g) && g.Valid() && |g.adj| == i && forall x :: 0 <= x < i ==> g.adj[x] == []
    {
      var _ := g.Node();
    }
    assert Carries(net, g.adj, Copper([], [], []));
    hide Carries, Represents, WellFormed, Symmetric, Chosen, Arranged, Linkable;
    LayTracks(net, g, laid, base.total);
    LayVias(net, g, rep, base.total, laid);
    CarriesLengths(net, g.adj, Laid(base, laid));
    if noSplits { NothingArranged(base, labs, laid); }
  }

  // ---- the claim about dividing ----

  lemma SameLabelIfJoined(m: Copper, lab: seq<nat>, a: nat, p: seq<Leg>, b: nat)
    requires LabelsFit(m, lab) && Trip(m, a, p, b) && a < |lab|
    ensures b < |lab| && lab[a] == lab[b]
    decreases |p|
  {
    if p != [] { SameLabelIfJoined(m, lab, a, p[..|p| - 1], EndOf(a, p[..|p| - 1])); }
  }

  /** Main result: between nodes that are joined when no track is divided, dividing changes no distance.
      The two graphs are the ones `BuildGraph` makes of the same junctions with and without `noSplits`. */
  lemma DividingChangesNoDistance(base: Copper, acc: seq<Division>, labs: seq<seq<nat>>, chains: seq<seq<Stop>>,
                                  plain: Adjacency, divided: Adjacency, a: nat, b: nat, d: Dist)
    requires Chosen(base, acc, labs) && Arranged(base, acc, chains)
    requires WellFormed(plain) && Represents(plain, base)
    requires WellFormed(divided) && Represents(divided, Laid(base, chains))
    requires |plain| == |divided| == |labs[0]|
    requires exists w :: Walk(plain, a, w, b)
    ensures IsShortest(plain, a, b, d) <==> IsShortest(divided, a, b, d)
  {
    hide Represents, Hop, Stretch, Arranged;
    var w :| Walk(plain, a, w, b);
    WalkStartsInside(plain, a, w, b);
    var p := WalkIsTrip(plain, base, a, w, b);
    SameLabelIfJoined(base, labs[0], a, p, b);
    DivisionsKeepDistances(base, acc, labs, chains);
    var m := Laid(base, chains);
    assert SameDistance(base, m, a, b);
    ShorterCarriesOver(plain, base, divided, m, a, b);
    ShorterCarriesOver(divided, m, plain, base, a, b);
    if IsShortest(plain, a, b, d) { ShortestCarriesOver(plain, divided, a, b, d); }
    if IsShortest(divided, a, b, d) { ShortestCarriesOver(divided, plain, a, b, d); }
  }

  lemma WalkStartsInside(adj: Adjacency, a: nat, w: seq<Step>, b: nat)
    requires Walk(adj, a, w, b)
    ensures a < |adj|
    decreases |w|
  {
    if w != [] { WalkStartsInside(adj, a, w[..|w| - 1], w[|w| - 1].from); }
  }

  ghost predicate NoLongerWalk(adj: Adjacency, adj': Adjacency, a: nat, b: nat) {
    forall w :: Walk(adj, a, w, b) ==> exists v :: Walk(adj', a, v, b) && Length(v) <= Length(w)
  }

  lemma ShorterCarriesOver(adj: Adjacency, m: Copper, adj': Adjacency, m': Copper, a: nat, b: nat)
    requires WellFormed(adj) && WellFormed(adj') && Represents(adj, m) && Represents(adj', m')
    requires NoLonger(m, m', a, b) && a < |adj'|
    ensures NoLongerWalk(adj, adj', a, b)
  {
    hide Represents, Hop;
    forall w | Walk(adj, a, w, b) ensures exists v :: Walk(adj', a, v, b) && Length(v) <= Length(w) {
      var p := WalkIsTrip(adj, m, a, w, b);
      var q :| Trip(m', a, q, b) && TripLength(q) <= TripLength(p);
      var v := TripIsWalk(adj', m', a, q, b);
    }
  }

  lemma ShortestCarriesOver(adj: Adjacency, adj': Adjacency, a: nat, b: nat, d: Dist)
    requires NoLongerWalk(adj, adj', a, b) && NoLongerWalk(adj', adj, a, b) && IsShortest(adj, a, b, d)
    ensures IsShortest(adj', a, b, d)
  {
    hide NoLongerWalk, Walk, Length;
    if d.Fin? {
      var w :| Walk(adj, a, w, b) && Length(w) == d.mm;
      var v := NoLongerThan(adj, adj', a, b, w);
      var u := NoLongerThan(adj', adj, a, b, v);
    }
    forall x | Walk(adj', a, x, b) ensures d.Fin? && d.mm <= Length(x) {
      var y := NoLongerThan(adj', adj, a, b, x);
    }
  }

  lemma NoLongerThan(adj: Adjacency, adj': Adjacency, a: nat, b: nat, w: seq<Step>) returns (v: seq<Step>)
    requires NoLongerWalk(adj, adj', a, b) && Walk(adj, a, w, b)
    ensures Walk(adj', a, v, b) && Length(v) <= Length(w)
  {
    v :| Walk(adj', a, v, b) && Length(v) <= Length(w);
  }

  // ---- the claims about which divisions are made ----

  /** Main result: copper that lands on a track is joined to it in the graph, by a division or some other way. */
  lemma LandingsAreJoined(net: Net, rep: seq<nat>, cands: seq<Candidate>, acc: seq<Division>, labs: seq<seq<nat>>,
                          picks: seq<Candidate>,
                          chains: seq<seq<Stop>>, adj: Adjacency, c: Candidate)
    requires net.WellFormed() && |rep| == |net.terms| && forall i :: 0 <= i < |rep| ==> rep[i] < |rep|
    requires Chosen(Base(net, rep), acc, labs) && Arranged(Base(net, rep), acc, chains)
    requires Means(Base(net, rep), labs[0], |net.terms|) && ClosestFirst(net, rep, picks, acc)
    requires AllSeenTo(net, rep, cands, picks, labs) && c in cands
    requires WellFormed(adj) && Represents(adj, Laid(Base(net, rep), chains)) && |adj| == net.Nodes()
    ensures GoodCandidate(net, c) && exists w :: Walk(adj, rep[c.term], w, rep[2 * c.track])
  {
    hide Represents, Chosen, Arranged, SeenTo;
    var m := Laid(Base(net, rep), chains);
    assert Undivided(Base(net, rep)) by { OnlyUndivided(Base(net, rep), acc, labs); }
    assert forall d :: d in acc ==> d.node < |net.terms|;
    DivisionsConnect(Base(net, rep), acc, labs, chains, |net.terms|);
    assert Connected(m, rep[c.term], rep[2 * c.track]);
    var p :| Trip(m, rep[c.term], p, rep[2 * c.track]);
    var w := TripIsWalk(adj, m, rep[c.term], p, rep[2 * c.track]);
  }

  lemma OnlyUndivided(base: Copper, acc: seq<Division>, labs: seq<seq<nat>>)
    requires Chosen(base, acc, labs)
    ensures Undivided(base)
  {
  }

  /** No division is made for nothing: with those made before it, its terminal and its track are not connected. */
  lemma EveryDivisionJoins(base: Copper, acc: seq<Division>, labs: seq<seq<nat>>, k: nat, chains: seq<seq<Stop>>)
    requires Chosen(base, acc, labs) && k < |acc| && Arranged(base, acc[..k], chains)
    ensures acc[k].track < |base.chains| && base.chains[acc[k].track] != []
    ensures !Connected(Laid(base, chains), acc[k].node, base.chains[acc[k].track][0].node)
  {
    hide Arranged;
    ChosenBefore(base, acc, labs, k);
    assert ChosenAt(base, acc[k], labs[k], labs[k + 1]);
    DivisionsKeepDistances(base, acc[..k], labs[..k + 1], chains);
    var m, a, b := Laid(base, chains), acc[k].node, base.chains[acc[k].track][0].node;
    if Connected(m, a, b) {
      var p :| Trip(m, a, p, b);
      SameLabelIfJoined(m, labs[k], a, p, b);
      assert false;
    }
  }

  lemma ChosenBefore(base: Copper, acc: seq<Division>, labs: seq<seq<nat>>, k: nat)
    requires Chosen(base, acc, labs) && k <= |acc|
    ensures Chosen(base, acc[..k], labs[..k + 1])
  {
    forall i | 0 <= i < k ensures ChosenAt(base, acc[..k][i], labs[..k + 1][i], labs[..k + 1][i + 1]) {
      assert ChosenAt(base, acc[i], labs[i], labs[i + 1]);
    }
  }
}
