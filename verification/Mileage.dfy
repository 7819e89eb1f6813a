/** What a route through a net's graph comes to (netlen/graph.go), told from the tracks and vias it runs in. */
module Mileage {
  import Dijkstra
  import opened Divisions
  import E = Euclid
  import opened LengthGraph
  import opened NetGraph

  /** What one step of a route runs in: a track, from one part of the way along it to another, or a via, whose barrel
      lies half to each side of its hub. */
  datatype Stint = OnTrack(t: nat, track: Track, from: real, to: real) | InVia(h: nat, via: Via) {
    function Miles(): real {
      match this
      case OnTrack(_, tr, u, v) => tr.length * (if u <= v then v - u else u - v)
      case InVia(_, v) => v.length / 2.0
    }

    function Rate(): real { if OnTrack? then track.delayPerMM else via.delayPerMM }

    function Time(): real { E.Times(Miles(), Rate()) }

    function Uuid(): string { if OnTrack? then track.uuid else via.uuid }
  }

  /** The copper of a stint leads from the one node to the other. */
  ghost predicate Leads(net: Net, rep: seq<nat>, chains: seq<seq<Stop>>, s: Stint, x: nat, y: nat)
    requires net.WellFormed() && |rep| == |net.terms| && |chains| == |net.tracks|
  {
    match s
    case OnTrack(t, tr, u, v) =>
      t < |net.tracks| && tr == net.tracks[t] && Stop(u, x) in chains[t] && Stop(v, y) in chains[t]
    case InVia(h, v) =>
      h < |net.vias| && v == net.vias[h]
      && ((x == |net.terms| + h && Reached(net, rep, h, y)) || (y == |net.terms| + h && Reached(net, rep, h, x)))
  }

  ghost predicate Reached(net: Net, rep: seq<nat>, h: nat, x: nat)
    requires net.WellFormed() && |rep| == |net.terms| && h < |net.vias|
  {
    exists k :: 0 <= k < |net.vias[h].terms| && rep[net.vias[h].terms[k]] == x
  }

  /** Each step of the route runs in the stint beside it. */
  ghost predicate RunsIn(net: Net, rep: seq<nat>, chains: seq<seq<Stop>>, w: seq<Step>, rs: seq<Stint>)
    requires net.WellFormed() && |rep| == |net.terms| && |chains| == |net.tracks|
  {
    |rs| == |w| && forall i :: 0 <= i < |w| ==> Leads(net, rep, chains, rs[i], w[i].from, w[i].e.to)
  }

  /** What stints add up to: millimetres in tracks and in vias, time, halves of barrels, and the copper's names. */
  datatype Total = Total(tracks: real, vias: real, time: real, halves: nat, names: set<string>) {
    function And(e: Edge): Total {
      Total(tracks + e.parts.track, vias + e.parts.via, time + e.delay, halves + if e.via then 1 else 0, names + Named(e.track))
    }
  }

  /** Copper without a uuid goes unnamed. */
  function Named(uuid: string): set<string> { if uuid == "" then {} else {uuid} }

  ghost function TotalOf(rs: seq<Stint>): Total {
    if rs == [] then Total(0.0, 0.0, 0.0, 0, {})
    else
      var n, s := TotalOf(rs[..|rs| - 1]), rs[|rs| - 1];
      var named := n.names + Named(s.Uuid());
      match s
      case OnTrack(_, _, _, _) => Total(n.tracks + s.Miles(), n.vias, n.time + s.Time(), n.halves, named)
      case InVia(_, _) => Total(n.tracks, n.vias + s.Miles(), n.time + s.Time(), n.halves + 1, named)
  }

  /** What is reported of a route is what the copper it runs in adds up to. */
  ghost predicate Comes(w: seq<Step>, n: Total) {
    && Length(w) == n.tracks + n.vias && Delay(w) == n.time && HalfVias(w) == n.halves
    && PartsOf(w) == Parts(n.tracks, n.vias, 0.0, 0.0) && TracksOf(w) == n.names
  }

  // ---- any route ----

  ghost predicate AllInOrder(chains: seq<seq<Stop>>) { forall t :: 0 <= t < |chains| ==> InOrder(chains[t]) }

  /** Every route through the graph of a net runs in its copper, and is as long, takes as long, crosses as many barrels
      and is named as the stretches of copper it runs in. */
  lemma {:induction false} RouteComesTo(net: Net, rep: seq<nat>, chains: seq<seq<Stop>>, adj: Adjacency, a: nat,
                                        w: seq<Step>,
                                        b: nat) returns (rs: seq<Stint>)
    requires net.WellFormed() && |rep| == |net.terms| && |chains| == |net.tracks| && AllInOrder(chains)
    requires Carries(net, adj, Laid(Base(net, rep), chains)) && Walk(adj, a, w, b)
    ensures RunsIn(net, rep, chains, w, rs) && Comes(w, TotalOf(rs))
    decreases |w|
  {
    hide Carries, AllInOrder, Leads, Comes, TotalOf, IsEdgeOf, Net.WellFormed, Base;
    rs := [];
    if w == [] { NowhereComes(); }
    if w != [] {
      var s := w[|w| - 1];
      var before := RouteComesTo(net, rep, chains, adj, a, w[..|w| - 1], s.from);
      var r := StepRunsIn(net, rep, chains, adj, s.from, s.e);
      rs := before + [r];
      StepComes(w, before, r);
    }
  }

  lemma NowhereComes()
    ensures Comes([], TotalOf([]))
  {
  }

  lemma StepComes(w: seq<Step>, rs: seq<Stint>, r: Stint)
    requires w != [] && Comes(w[..|w| - 1], TotalOf(rs)) && IsEdgeOf(r, w[|w| - 1].e)
    ensures Comes(w, TotalOf(rs + [r]))
  {
    hide Stint.Miles, Stint.Rate, Stint.Time, Stint.Uuid;
    assert (rs + [r])[..|rs|] == rs;
  }

  /** The edge a stint makes. */
  ghost predicate IsEdgeOf(s: Stint, e: Edge) {
    && e.length == s.Miles() && e.delay == s.Time() && e.via == s.InVia? && e.track == s.Uuid()
    && e.parts == (if s.OnTrack? then Parts(s.Miles(), 0.0, 0.0, 0.0) else Parts(0.0, s.Miles(), 0.0, 0.0))
  }

  /** Each edge of the graph is the stretch of copper it leads along. */
  lemma StepRunsIn(net: Net, rep: seq<nat>, chains: seq<seq<Stop>>, adj: Adjacency, x: nat, e: Edge) returns (s: Stint)
    requires net.WellFormed() && |rep| == |net.terms| && |chains| == |net.tracks| && AllInOrder(chains)
    requires Carries(net, adj, Laid(Base(net, rep), chains)) && x < |adj| && e in adj[x]
    ensures Leads(net, rep, chains, s, x, e.to) && IsEdgeOf(s, e)
  {
    hide OfTrack, OfVia, Net.WellFormed, Base, Leads, IsEdgeOf, InOrder;
    var m := Laid(Base(net, rep), chains);
    assert IsEdge(adj, x, e) && StandsFor(net, m, x, e);
    if t: nat, k: nat :| OfTrack(net, m, t, k, x, e) {
      s := PieceRunsIn(net, rep, chains, t, k, x, e);
    } else {
      var h: nat, k: nat :| OfVia(net, m, h, k, x, e);
      s := SpokeRunsIn(net, rep, chains, h, k, x, e);
    }
  }

  lemma PieceRunsIn(net: Net, rep: seq<nat>, chains: seq<seq<Stop>>, t: nat, k: nat, x: nat, e: Edge) returns (s: Stint)
    requires net.WellFormed() && |rep| == |net.terms| && |chains| == |net.tracks| && AllInOrder(chains)
    requires OfTrack(net, Laid(Base(net, rep), chains), t, k, x, e)
    ensures Leads(net, rep, chains, s, x, e.to) && IsEdgeOf(s, e)
  {
    var m, c, tr := Laid(Base(net, rep), chains), chains[t], net.tracks[t];
    assert m.total[t] == tr.length;
    assert InOrder(c) && c[k].at <= c[k + 1].at;
    s := if x == c[k].node && e.to == c[k + 1].node then OnTrack(t, tr, c[k].at, c[k + 1].at)
         else OnTrack(t, tr, c[k + 1].at, c[k].at);
    assert s.Miles() == Stretch(tr.length, c[k], c[k + 1]) == e.length;
    hide Stint.Miles, Stretch;
  }

  lemma SpokeRunsIn(net: Net, rep: seq<nat>, chains: seq<seq<Stop>>, h: nat, k: nat, x: nat, e: Edge) returns (s: Stint)
    requires net.WellFormed() && |rep| == |net.terms| && |chains| == |net.tracks|
    requires OfVia(net, Laid(Base(net, rep), chains), h, k, x, e)
    ensures Leads(net, rep, chains, s, x, e.to) && IsEdgeOf(s, e)
  {
    s := InVia(h, net.vias[h]);
    assert Reached(net, rep, h, rep[net.vias[h].terms[k]]);
  }

  /** With one rate everywhere, a route takes its length times that rate. */
  lemma {:induction false} AtOneRate(net: Net, rep: seq<nat>, chains: seq<seq<Stop>>, w: seq<Step>, rs: seq<Stint>,
                                     rate: real)
    requires net.WellFormed() && |rep| == |net.terms| && |chains| == |net.tracks| && RunsIn(net, rep, chains, w, rs)
    requires forall t :: 0 <= t < |net.tracks| ==> net.tracks[t].delayPerMM == rate
    requires forall h :: 0 <= h < |net.vias| ==> net.vias[h].delayPerMM == rate
    ensures TotalOf(rs).time == E.Times(TotalOf(rs).tracks + TotalOf(rs).vias, rate)
  {
    hide Net.WellFormed, Stint.Miles, Stint.Uuid;
    E.Distribute(0.0, 0.0, rate);
    if rs != [] {
      AtOneRate(net, rep, chains, w[..|w| - 1], rs[..|rs| - 1], rate);
      var n, s := TotalOf(rs[..|rs| - 1]), rs[|rs| - 1];
      assert Leads(net, rep, chains, s, w[|w| - 1].from, w[|w| - 1].e.to) && s.Rate() == rate;
      E.Distribute(n.tracks + n.vias, s.Miles(), rate);
      hide E.Times, Leads;
    }
  }

  // ---- a whole track, and across a via ----

  /** The pieces of a track, however it was divided, lead from its one end to its other; together they are as long as
      the track and take its whole length at its rate. */
  lemma TrackEndToEnd(net: Net, rep: seq<nat>, acc: seq<Division>, labs: seq<seq<nat>>, chains: seq<seq<Stop>>,
                      adj: Adjacency, t: nat) returns (w: seq<Step>)
    requires net.WellFormed() && |rep| == |net.terms| && t < |net.tracks|
    requires Chosen(Base(net, rep), acc, labs) && Arranged(Base(net, rep), acc, chains)
    requires Carries(net, adj, Laid(Base(net, rep), chains))
    ensures Walk(adj, rep[2 * t], w, rep[2 * t + 1]) && |w| == |chains[t]| - 1
    ensures
      var tr := net.tracks[t];
      Comes(w, Total(tr.length, 0.0, E.Times(tr.length, tr.delayPerMM), 0, Named(tr.uuid)))
  {
    EndsOfChain(net, rep, acc, labs, chains, t);
    var c := chains[t];
    StopsInGraph(net, rep, chains, adj, t);
    w := TrackSoFar(net, rep, chains, adj, t, |c| - 1);
  }

  lemma EndsOfChain(net: Net, rep: seq<nat>, acc: seq<Division>, labs: seq<seq<nat>>, chains: seq<seq<Stop>>, t: nat)
    requires net.WellFormed() && |rep| == |net.terms| && t < |net.tracks|
    requires Chosen(Base(net, rep), acc, labs) && Arranged(Base(net, rep), acc, chains)
    ensures |chains| == |net.tracks| && |chains[t]| >= 2
    ensures chains[t][0] == Stop(0.0, rep[2 * t]) && chains[t][|chains[t]| - 1] == Stop(1.0, rep[2 * t + 1])
  {
    var c, ends := chains[t], Base(net, rep).chains[t];
    StopsAreBetween(Base(net, rep), acc, labs, t);
    EndsAreThere(Base(net, rep), acc, labs, chains, t);
    OutermostAreEnds(c, ends, StopsOn(acc, t));
  }

  lemma OutermostAreEnds(c: seq<Stop>, ends: seq<Stop>, between: multiset<Stop>)
    requires InOrder(c) && |ends| == 2 && |c| >= 2 && multiset(c) == multiset(ends) + between
    requires ends[0].at < ends[1].at && forall s :: s in between ==> ends[0].at < s.at < ends[1].at
    ensures c[0] == ends[0] && c[|c| - 1] == ends[1]
  {
    var i := PlaceOf(c, ends[0]);
    var j := PlaceOf(c, ends[1]);
    assert c[0] in multiset(c) && c[|c| - 1] in multiset(c);
    assert ends == [ends[0], ends[1]];
  }

  lemma {:induction false} StopsAreBetween(base: Copper, acc: seq<Division>, labs: seq<seq<nat>>, t: nat)
    requires Chosen(base, acc, labs)
    ensures forall s :: s in StopsOn(acc, t) ==> 0.0 < s.at < 1.0
  {
    if acc != [] {
      var n := |acc| - 1;
      assert ChosenAt(base, acc[n], labs[n], labs[n + 1]);
      forall k | 0 <= k < n ensures ChosenAt(base, acc[..n][k], labs[..n + 1][k], labs[..n + 1][k + 1]) {
        assert ChosenAt(base, acc[k], labs[k], labs[k + 1]);
      }
      StopsAreBetween(base, acc[..n], labs[..n + 1], t);
    }
  }

  lemma StopsInGraph(net: Net, rep: seq<nat>, chains: seq<seq<Stop>>, adj: Adjacency, t: nat)
    requires net.WellFormed() && |rep| == |net.terms| && t < |net.tracks| == |chains| && |chains[t]| >= 2
    requires Carries(net, adj, Laid(Base(net, rep), chains))
    ensures forall i :: 0 <= i < |chains[t]| ==> chains[t][i].node < |adj|
  {
    var tr, c, m := net.tracks[t], chains[t], Laid(Base(net, rep), chains);
    assert m.total[t] == tr.length;
    forall i | 0 <= i < |c| ensures c[i].node < |adj| {
      var k, y := if i == 0 then 0 else i - 1, if i == 0 then 1 else i - 1;
      var e := TrackEdge(tr, c[y].node, Stretch(tr.length, c[k], c[k + 1]));
      hide Stretch;
      assert OfTrack(net, m, t, k, c[i].node, e);
      assert IsEdge(adj, c[i].node, e);
    }
  }

  /** A track as far as its k-th stop. */
  lemma {:induction false} TrackSoFar(net: Net, rep: seq<nat>, chains: seq<seq<Stop>>, adj: Adjacency, t: nat, k: nat)
    returns (w: seq<Step>)
    requires net.WellFormed() && |rep| == |net.terms| && t < |net.tracks| == |chains|
    requires Carries(net, adj, Laid(Base(net, rep), chains)) && k < |chains[t]|
    requires forall i :: 0 <= i < |chains[t]| ==> chains[t][i].node < |adj|
    ensures |w| == k && Walk(adj, chains[t][0].node, w, chains[t][k].node)
    ensures Comes(w, UpTo(net.tracks[t], chains[t], k))
  {
    var tr, c, m := net.tracks[t], chains[t], Laid(Base(net, rep), chains);
    w := [];
    if k == 0 {
      E.Distribute(0.0, 0.0, tr.delayPerMM);
    } else {
      var before := TrackSoFar(net, rep, chains, adj, t, k - 1);
      var l := Stretch(tr.length, c[k - 1], c[k]);
      var e := TrackEdge(tr, c[k].node, l);
      assert m.total[t] == tr.length;
      assert OfTrack(net, m, t, k - 1, c[k - 1].node, e);
      assert IsEdge(adj, c[k - 1].node, e);
      w := before + [Step(c[k - 1].node, e)];
      assert w[..|w| - 1] == before;
      StepAdds(before, UpTo(tr, c, k - 1), c[k - 1].node, e);
      OnePieceMore(tr, c, k);
      hide UpTo, Stretch, Comes, Carries, Net.WellFormed;
    }
  }

  /** What a track comes to as far as a stop. */
  ghost function UpTo(tr: Track, c: seq<Stop>, k: nat): Total
    requires k < |c|
  {
    var l := tr.length * (c[k].at - c[0].at);
    Total(l, 0.0, E.Times(l, tr.delayPerMM), 0, if k == 0 then {} else Named(tr.uuid))
  }

  lemma OnePieceMore(tr: Track, c: seq<Stop>, k: nat)
    requires 0 < k < |c|
    ensures UpTo(tr, c, k) == UpTo(tr, c, k - 1).And(TrackEdge(tr, c[k].node, Stretch(tr.length, c[k - 1], c[k])))
  {
    E.Distribute(tr.length * (c[k - 1].at - c[0].at), Stretch(tr.length, c[k - 1], c[k]), tr.delayPerMM);
  }

  /** What a step adds. */
  lemma StepAdds(w: seq<Step>, n: Total, x: nat, e: Edge)
    requires Comes(w, n) && e.parts == Parts(e.parts.track, e.parts.via, 0.0, 0.0) && e.length == e.parts.Sum()
    ensures Comes(w + [Step(x, e)], n.And(e))
  {
    assert (w + [Step(x, e)])[..|w|] == w;
  }

  /** Across a via, from one copper layer to another, a route goes the length of its barrel once. */
  lemma AcrossVia(net: Net, rep: seq<nat>, chains: seq<seq<Stop>>, adj: Adjacency, h: nat, k: nat, q: nat)
    returns (w: seq<Step>)
    requires net.WellFormed() && |rep| == |net.terms| && |adj| == net.Nodes() && h < |net.vias|
    requires forall i :: 0 <= i < |rep| ==> rep[i] < |rep|
    requires k < |net.vias[h].terms| && q < |net.vias[h].terms| && k != q
    requires Carries(net, adj, Laid(Base(net, rep), chains))
    ensures Walk(adj, rep[net.vias[h].terms[k]], w, rep[net.vias[h].terms[q]])
    ensures
      var v := net.vias[h];
      Comes(w, Total(0.0, v.length, E.Times(v.length, v.delayPerMM), 2, Named(v.uuid)))
  {
    var v, hub := net.vias[h], |net.terms| + h;
    var x, y := rep[v.terms[k]], rep[v.terms[q]];
    var up, down := ViaEdge(v, hub), ViaEdge(v, y);
    SpokeBothWays(net, rep, chains, adj, h, k);
    SpokeBothWays(net, rep, chains, adj, h, q);
    BothHalves(v, hub);
    assert up.to == hub && down == up.(to := y);
    hide Carries, Base, Comes, E.Times, ViaEdge;
    w := [Step(x, up)] + [Step(hub, down)];
    TwiceHalf(up, x, hub, y);
    TwoSteps(adj, x, up, down);
  }

  lemma SpokeBothWays(net: Net, rep: seq<nat>, chains: seq<seq<Stop>>, adj: Adjacency, h: nat, k: nat)
    requires net.WellFormed() && |rep| == |net.terms| && h < |net.vias| && |net.vias[h].terms| > 1
    requires k < |net.vias[h].terms|
    requires Carries(net, adj, Laid(Base(net, rep), chains))
    ensures
      var v, hub, x := net.vias[h], |net.terms| + h, rep[net.vias[h].terms[k]];
      x < |adj| && hub < |adj| && ViaEdge(v, hub) in adj[x] && ViaEdge(v, x) in adj[hub]
  {
    hide Carries, ViaEdge, OfVia;
    var v, m, hub, x := net.vias[h], Laid(Base(net, rep), chains), |net.terms| + h, rep[net.vias[h].terms[k]];
    SpokeOfVia(net, rep, chains, h, k, x, hub);
    SpokeOfVia(net, rep, chains, h, k, hub, x);
    hide Base;
    CarriesVia(net, adj, m, h, k, x, ViaEdge(v, hub));
    CarriesVia(net, adj, m, h, k, hub, ViaEdge(v, x));
  }

  lemma CarriesVia(net: Net, adj: Adjacency, m: Copper, h: nat, k: nat, x: nat, e: Edge)
    requires Carries(net, adj, m) && OfVia(net, m, h, k, x, e)
    ensures x < |adj| && e in adj[x]
  {
    hide OfVia, OfTrack;
    assert StandsFor(net, m, x, e) && IsEdge(adj, x, e);
  }

  lemma SpokeOfVia(net: Net, rep: seq<nat>, chains: seq<seq<Stop>>, h: nat, k: nat, x: nat, y: nat)
    requires net.WellFormed() && |rep| == |net.terms| && h < |net.vias| && |net.vias[h].terms| > 1
    requires k < |net.vias[h].terms|
    requires
      var hub, at := |net.terms| + h, rep[net.vias[h].terms[k]];
      (x == hub && y == at) || (x == at && y == hub)
    ensures OfVia(net, Laid(Base(net, rep), chains), h, k, x, ViaEdge(net.vias[h], y))
  {
    ViaEdgeIs(net.vias[h], y);
    hide ViaEdge;
  }

  lemma ViaEdgeIs(v: Via, to: nat)
    ensures ViaEdge(v, to).to == to && ViaEdge(v, to).length == v.length / 2.0
  {
  }

  /** Half a barrel, twice. */
  lemma TwiceHalf(e: Edge, x: nat, hub: nat, y: nat)
    requires e.parts == Parts(0.0, e.length, 0.0, 0.0) && e.via
    ensures Comes([Step(x, e)] + [Step(hub, e.(to := y))], Total(0.0, e.length + e.length, e.delay + e.delay, 2, Named(e.track)))
  {
    hide Comes, Total.And, Named;
    NowhereComes();
    var none := TotalOf([]);
    StepAdds([], none, x, e);
    assert [] + [Step(x, e)] == [Step(x, e)];
    StepAdds([Step(x, e)], none.And(e), hub, e.(to := y));
    AndTwice(e, y);
  }

  lemma AndTwice(e: Edge, y: nat)
    requires e.parts == Parts(0.0, e.length, 0.0, 0.0) && e.via
    ensures TotalOf([]).And(e).And(e.(to := y)) == Total(0.0, e.length + e.length, e.delay + e.delay, 2, Named(e.track))
  {
    hide Named;
    assert Named(e.track) + Named(e.track) == Named(e.track);
  }

  lemma BothHalves(v: Via, to: nat)
    ensures
      var e := ViaEdge(v, to);
      e.length + e.length == v.length && e.delay + e.delay == E.Times(v.length, v.delayPerMM)
      && e.parts == Parts(0.0, e.length, 0.0, 0.0) && e.via && e.track == v.uuid
  {
    E.Distribute(v.length / 2.0, v.length / 2.0, v.delayPerMM);
  }

  lemma TwoSteps(adj: Adjacency, x: nat, e: Edge, d: Edge)
    requires x < |adj| && e in adj[x] && e.to < |adj| && d in adj[e.to] && d.to < |adj|
    ensures Walk(adj, x, [Step(x, e)] + [Step(e.to, d)], d.to)
  {
    var first := [Step(x, e)];
    var w := first + [Step(e.to, d)];
    assert first[..0] == [] && w[..1] == first && Walk(adj, x, [], x);
    assert Walk(adj, x, first, e.to);
  }

  // ---- what is reported between two pads ----

  ghost predicate IsHub(net: Net, x: nat) { x >= |net.terms| }

  /** How often a route leaves a via's hub. */
  ghost function ViasPassed(net: Net, w: seq<Step>): nat {
    if w == [] then 0 else ViasPassed(net, w[..|w| - 1]) + if IsHub(net, w[|w| - 1].from) then 1 else 0
  }

  /** A route between terminals crosses two half barrels for each via it passes through. */
  lemma {:induction false} TwoHalvesEach(net: Net, rep: seq<nat>, chains: seq<seq<Stop>>, adj: Adjacency, a: nat,
                                         w: seq<Step>, b: nat)
    requires net.WellFormed() && |rep| == |net.terms| && (forall i :: 0 <= i < |rep| ==> rep[i] < |rep|)
    requires |chains| == |net.tracks| && AllInOrder(chains) && StopsAreTerminals(net, chains)
    requires Carries(net, adj, Laid(Base(net, rep), chains)) && Walk(adj, a, w, b) && !IsHub(net, a)
    ensures HalfVias(w) == 2 * ViasPassed(net, w) + if IsHub(net, b) then 1 else 0
    decreases |w|
  {
    hide Carries, AllInOrder, Leads, Net.WellFormed, Base, StopsAreTerminals, IsEdgeOf;
    if w != [] {
      var s := w[|w| - 1];
      TwoHalvesEach(net, rep, chains, adj, a, w[..|w| - 1], s.from);
      StepAtHub(net, rep, chains, adj, s.from, s.e);
    }
  }

  ghost predicate StopsAreTerminals(net: Net, chains: seq<seq<Stop>>) {
    forall t, i :: 0 <= t < |chains| && 0 <= i < |chains[t]| ==> !IsHub(net, chains[t][i].node)
  }

  lemma StepAtHub(net: Net, rep: seq<nat>, chains: seq<seq<Stop>>, adj: Adjacency, x: nat, e: Edge)
    requires net.WellFormed() && |rep| == |net.terms| && (forall i :: 0 <= i < |rep| ==> rep[i] < |rep|)
    requires |chains| == |net.tracks| && AllInOrder(chains) && StopsAreTerminals(net, chains)
    requires Carries(net, adj, Laid(Base(net, rep), chains)) && x < |adj| && e in adj[x]
    ensures if e.via then IsHub(net, x) != IsHub(net, e.to) else !IsHub(net, x) && !IsHub(net, e.to)
  {
    hide Carries, AllInOrder, Base, Stint.Miles;
    var s := StepRunsIn(net, rep, chains, adj, x, e);
    if s.OnTrack? {
      var i :| 0 <= i < |chains[s.t]| && chains[s.t][i] == Stop(s.from, x);
      var j :| 0 <= j < |chains[s.t]| && chains[s.t][j] == Stop(s.to, e.to);
    }
  }

  /** A path reported between two terminals is some route's through the copper: as long and as slow as the stretches
      it runs in, with as many vias as it passes through, made of as much track and via as they are, and named as
      they are. */
  lemma ReportIsOfCopper(net: Net, rep: seq<nat>, chains: seq<seq<Stop>>, adj: Adjacency, a: nat, b: nat,
                         p: Dijkstra.Path)
    returns (w: seq<Step>, rs: seq<Stint>)
    requires net.WellFormed() && |rep| == |net.terms| && (forall i :: 0 <= i < |rep| ==> rep[i] < |rep|)
    requires |chains| == |net.tracks| && AllInOrder(chains) && StopsAreTerminals(net, chains)
    requires Carries(net, adj, Laid(Base(net, rep), chains)) && a < |net.terms| && b < |net.terms|
    requires Dijkstra.Describes(adj, a, b, p) && p.found
    ensures Walk(adj, a, w, b) && RunsIn(net, rep, chains, w, rs)
    ensures
      var n := TotalOf(rs);
      && p.length == n.tracks + n.vias && p.delay == n.time && p.vias == ViasPassed(net, w) && n.halves == 2 * p.vias
      && p.parts == Parts(n.tracks, n.vias, 0.0, 0.0) && p.tracks == n.names
  {
    hide Carries, AllInOrder, Net.WellFormed, Base, Laid, StopsAreTerminals, RunsIn, TotalOf, Walk, Dijkstra.Describes, Length,
         Delay, HalfVias, PartsOf, TracksOf, ViasPassed;
    w := ReportedRoute(adj, a, b, p);
    rs := RouteComesTo(net, rep, chains, adj, a, w, b);
    TwoHalvesEach(net, rep, chains, adj, a, w, b);
  }

  lemma ReportedRoute(adj: Adjacency, a: nat, b: nat, p: Dijkstra.Path) returns (w: seq<Step>)
    requires Dijkstra.Describes(adj, a, b, p) && p.found
    ensures Walk(adj, a, w, b) && Length(w) == p.length && Delay(w) == p.delay
    ensures HalfVias(w) / 2 == p.vias && PartsOf(w) == p.parts && TracksOf(w) == p.tracks
  {
    hide IsShortest, Walk, Length, Delay, HalfVias, PartsOf, TracksOf;
    w :| Walk(adj, a, w, b) && Length(w) == p.length && Delay(w) == p.delay
         && HalfVias(w) / 2 == p.vias && PartsOf(w) == p.parts && TracksOf(w) == p.tracks;
  }

  /** The stops of a graph as it is built are in order, and each is at a terminal. */
  lemma BuiltStops(net: Net, rep: seq<nat>, picks: seq<Candidate>, acc: seq<Division>, chains: seq<seq<Stop>>)
    requires net.WellFormed() && |rep| == |net.terms| && (forall i :: 0 <= i < |rep| ==> rep[i] < |rep|)
    requires Arranged(Base(net, rep), acc, chains) && ClosestFirst(net, rep, picks, acc)
    ensures |chains| == |net.tracks| && AllInOrder(chains) && StopsAreTerminals(net, chains)
  {
    var base := Base(net, rep);
    forall t, i | 0 <= t < |chains| && 0 <= i < |chains[t]| ensures !IsHub(net, chains[t][i].node) {
      var s := chains[t][i];
      assert s in multiset(chains[t]) && base.chains[t] == [Stop(0.0, rep[2 * t]), Stop(1.0, rep[2 * t + 1])];
      if s in StopsOn(acc, t) {
        var k := DivisionAt(acc, t, s);
      }
    }
  }

  lemma {:induction false} DivisionAt(acc: seq<Division>, t: nat, s: Stop) returns (k: nat)
    requires s in StopsOn(acc, t)
    ensures k < |acc| && acc[k].node == s.node
  {
    k := |acc| - 1;
    if !(acc[k].track == t && s == Stop(acc[k].at, acc[k].node)) { k := DivisionAt(acc[..k], t, s); }
  }
}
