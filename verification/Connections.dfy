/** What copper connects (netlen/graph.go): the labels by which divisions are chosen are alike exactly where copper
    leads from one node to the other, before any division and after. */
module Connections {
  import opened Divisions
  import Forest

  ghost predicate Connected(m: Copper, a: nat, b: nat) {
    exists w :: Trip(m, a, w, b)
  }

  lemma StayPut(m: Copper, a: nat)
    ensures Connected(m, a, a)
  {
    assert Trip(m, a, [], a);
  }

  lemma HopBack(m: Copper, a: nat, b: nat, l: real)
    requires Hop(m, a, b, l)
    ensures Hop(m, b, a, l)
  {
    if t: nat, k: nat :| Piece(m, t, k, a, b, l) {
      assert Piece(m, t, k, b, a, l);
    } else {
      var h: nat, k: nat :| Spoke(m, h, k, a, b, l);
      assert Spoke(m, h, k, b, a, l);
    }
  }

  lemma HopConnects(m: Copper, a: nat, b: nat, l: real)
    requires Hop(m, a, b, l)
    ensures Connected(m, a, b)
  {
    TripGrows(m, a, [], a, b, l);
  }

  lemma {:induction false} TripOn(m: Copper, a: nat, u: seq<Leg>, b: nat, v: seq<Leg>, c: nat)
    requires Trip(m, a, u, b) && Trip(m, b, v, c)
    ensures Trip(m, a, u + v, c)
    decreases |v|
  {
    hide Hop;
    if v == [] {
      assert u + v == u;
    } else {
      var init, s, f := v[..|v| - 1], v[|v| - 1], EndOf(b, v[..|v| - 1]);
      TripOn(m, a, u, b, init, f);
      TripGrows(m, a, u + init, f, c, s.l);
      assert u + init + [Leg(c, s.l)] == u + v;
    }
  }

  lemma GoOn(m: Copper, a: nat, b: nat, c: nat)
    requires Connected(m, a, b) && Connected(m, b, c)
    ensures Connected(m, a, c)
  {
    var u :| Trip(m, a, u, b);
    var v :| Trip(m, b, v, c);
    TripOn(m, a, u, b, v, c);
  }

  lemma {:induction false} TripBack(m: Copper, a: nat, w: seq<Leg>, b: nat)
    requires Trip(m, a, w, b)
    ensures Connected(m, b, a)
    decreases |w|
  {
    hide Hop;
    if w == [] {
      StayPut(m, a);
    } else {
      var s, f := w[|w| - 1], EndOf(a, w[..|w| - 1]);
      TripBack(m, a, w[..|w| - 1], f);
      HopBack(m, f, b, s.l);
      HopConnects(m, b, f, s.l);
      GoOn(m, b, f, a);
    }
  }

  lemma GoBack(m: Copper, a: nat, b: nat)
    requires Connected(m, a, b)
    ensures Connected(m, b, a)
  {
    var w :| Trip(m, a, w, b);
    TripBack(m, a, w, b);
  }

  // ---- labels ----

  /** Among the first `n` nodes, those with one label are connected. */
  ghost predicate Means(m: Copper, lab: seq<nat>, n: nat) {
    n <= |lab| && forall a, b :: 0 <= a < n && 0 <= b < n && lab[a] == lab[b] ==> Connected(m, a, b)
  }

  /** The labels after two pieces have been joined, and nothing else. */
  lemma JoiningMeans(m: Copper, lab: seq<nat>, lab': seq<nat>, a: nat, b: nat, n: nat)
    requires Means(m, lab, n) && a < n && b < n && Connected(m, a, b) && Forest.Merged(lab, lab', a, b)
    ensures Means(m, lab', n)
  {
    hide Connected;
    GoBack(m, a, b);
    forall x, y | 0 <= x < n && 0 <= y < n && lab'[x] == lab'[y] ensures Connected(m, x, y) {
      if lab[x] != lab[y] {
        var near, far := if lab[x] == lab[a] then a else b, if lab[x] == lab[a] then b else a;
        assert lab[x] == lab[near] && lab[y] == lab[far];
        GoOn(m, x, near, far);
        GoOn(m, x, far, y);
      }
    }
  }

  // ---- divisions ----

  lemma {:induction false} ChainConnects(m: Copper, t: nat, i: nat, j: nat)
    requires t < |m.chains| && |m.total| == |m.chains| && i <= j < |m.chains[t]|
    ensures Connected(m, m.chains[t][i].node, m.chains[t][j].node)
    decreases j - i
  {
    hide Hop, Stretch, Connected;
    var c := m.chains[t];
    if i == j {
      StayPut(m, c[i].node);
    } else {
      ChainConnects(m, t, i, j - 1);
      PieceOf(m, t, j - 1, Stretch(m.total[t], c[j - 1], c[j]));
      HopConnects(m, c[j - 1].node, c[j].node, Stretch(m.total[t], c[j - 1], c[j]));
      GoOn(m, c[i].node, c[j - 1].node, c[j].node);
    }
  }

  /** A division puts its node on the track, and so connects it to the track's start. */
  lemma DivisionConnects(base: Copper, acc: seq<Division>, chains: seq<seq<Stop>>, d: Division)
    requires Undivided(base) && Arranged(base, acc, chains) && d in acc && d.track < |chains|
    ensures Connected(Laid(base, chains), d.node, base.chains[d.track][0].node)
  {
    hide Connected;
    var m, t := Laid(base, chains), d.track;
    StopIsThere(acc, d);
    var i := PlaceOf(chains[t], Stop(d.at, d.node));
    assert base.chains[t][0] in multiset(base.chains[t]);
    var j := PlaceOf(chains[t], base.chains[t][0]);
    if i <= j {
      ChainConnects(m, t, i, j);
    } else {
      ChainConnects(m, t, j, i);
      GoBack(m, base.chains[t][0].node, d.node);
    }
  }

  lemma {:induction false} StopIsThere(acc: seq<Division>, d: Division)
    requires d in acc
    ensures StopsOn(acc, d.track)[Stop(d.at, d.node)] > 0
  {
    if d != acc[|acc| - 1] { StopIsThere(acc[..|acc| - 1], d); }
  }

  /** Main result: after the divisions, nodes with one label are still connected, the divided track's own among them. */
  lemma {:induction false} DivisionsConnect(base: Copper, acc: seq<Division>, labs: seq<seq<nat>>,
                                            chains: seq<seq<Stop>>, n: nat)
    requires Chosen(base, acc, labs) && Arranged(base, acc, chains) && Means(base, labs[0], n)
    requires forall d :: d in acc ==> d.node < n
    requires forall t :: 0 <= t < |base.chains| ==> base.chains[t][0].node < n
    ensures Means(Laid(base, chains), labs[|acc|], n)
    decreases |acc|
  {
    if acc == [] {
      NothingArranged(base, labs, chains);
    } else {
      var p, before := WithoutLast(base, acc, labs, chains);
      var init, d := acc[..|acc| - 1], acc[|acc| - 1];
      DivisionsConnect(base, init, labs[..|acc|], before, n);
      DivisionsKeepDistances(base, init, labs[..|acc|], before);
      OneMoreConnects(base, acc, labs, before, p, chains, n);
    }
  }

  lemma OneMoreConnects(base: Copper, acc: seq<Division>, labs: seq<seq<nat>>, before: seq<seq<Stop>>, p: nat,
                        chains: seq<seq<Stop>>,
                        n: nat)
    requires OneMoreOf(base, acc, labs, before, p, chains)
    requires Arranged(base, acc, chains) && Means(Laid(base, before), labs[|acc| - 1], n)
    requires acc[|acc| - 1].node < n && base.chains[acc[|acc| - 1].track][0].node < n
    ensures Means(Laid(base, chains), labs[|acc|], n)
  {
    hide Hop, Stretch, Arranged, LabelsFit, Trip, Forest.Merged, WithStop, InOrder, StopsOn;
    var d, lab := acc[|acc| - 1], labs[|acc| - 1];
    var m, m' := Laid(base, before), Laid(base, chains);
    var start := base.chains[d.track][0].node;
    LastDivides(base, acc, labs, before, p, chains);
    DivisionConnects(base, acc, chains, d);
    var c, s := before[d.track], Stop(d.at, d.node);
    forall a, b | 0 <= a < n && 0 <= b < n && lab[a] == lab[b] ensures Connected(m', a, b) {
      var w :| Trip(m, a, w, b);
      var v := DivisionLosesNothing(m, m', c[p - 1].node, s.node, c[p].node, Stretch(m.total[d.track], c[p - 1], s),
                                    Stretch(m.total[d.track], s, c[p]), lab, a, w, b);
    }
    assert ChosenAt(base, acc[|acc| - 1], lab, labs[|acc|]);
    JoiningMeans(m', lab, labs[|acc|], d.node, start, n);
  }
}
