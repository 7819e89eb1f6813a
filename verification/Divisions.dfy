/** T-junctions (netlen/graph.go): a landing in the middle of a track divides it, but only where
    that is what joins two otherwise separate pieces of the net. Dividing never changes a distance. */
module Divisions {
  import Forest

  /** A place along a track: how far along, as a fraction, and the node that is there. */
  datatype Stop = Stop(at: real, node: nat)

  /** A via: its hub, the nodes it reaches, and half its barrel. */
  datatype Hub = Hub(node: nat, spokes: seq<nat>, half: real)

  /** A net's copper: each track's whole length and the stops along it, and the vias. */
  datatype Copper = Copper(total: seq<real>, chains: seq<seq<Stop>>, hubs: seq<Hub>)

  /** The length of the stretch between two stops of a track of this length. */
  function Stretch(total: real, a: Stop, b: Stop): real { total * (b.at - a.at) }

  ghost predicate Piece(m: Copper, t: nat, k: nat, x: nat, y: nat, l: real) {
    t < |m.chains| && |m.total| == |m.chains| && k + 1 < |m.chains[t]|
    && l == Stretch(m.total[t], m.chains[t][k], m.chains[t][k + 1])
    && ((x == m.chains[t][k].node && y == m.chains[t][k + 1].node)
        || (y == m.chains[t][k].node && x == m.chains[t][k + 1].node))
  }

  ghost predicate Spoke(m: Copper, h: nat, k: nat, x: nat, y: nat, l: real) {
    h < |m.hubs| && k < |m.hubs[h].spokes| && l == m.hubs[h].half
    && ((x == m.hubs[h].node && y == m.hubs[h].spokes[k]) || (y == m.hubs[h].node && x == m.hubs[h].spokes[k]))
  }

  /** One edge of the graph the copper stands for. */
  ghost predicate Hop(m: Copper, x: nat, y: nat, l: real) {
    (exists t, k :: Piece(m, t, k, x, y, l)) || (exists h, k :: Spoke(m, h, k, x, y, l))
  }

  datatype Leg = Leg(to: nat, l: real)

  ghost function EndOf(a: nat, w: seq<Leg>): nat { if w == [] then a else w[|w| - 1].to }

  ghost predicate Trip(m: Copper, a: nat, w: seq<Leg>, b: nat) {
    if w == [] then a == b
    else
      var s := w[|w| - 1];
      var f := EndOf(a, w[..|w| - 1]);
      s.to == b && Hop(m, f, b, s.l) && Trip(m, a, w[..|w| - 1], f)
  }

  ghost function TripLength(w: seq<Leg>): real {
    if w == [] then 0.0 else TripLength(w[..|w| - 1]) + w[|w| - 1].l
  }

  /** Whatever `m` can do from `a` to `b`, `m'` can do at least as shortly. */
  ghost predicate NoLonger(m: Copper, m': Copper, a: nat, b: nat) {
    forall w :: Trip(m, a, w, b) ==> exists v :: Trip(m', a, v, b) && TripLength(v) <= TripLength(w)
  }

  ghost predicate SameDistance(m: Copper, m': Copper, a: nat, b: nat) {
    NoLonger(m, m', a, b) && NoLonger(m', m, a, b)
  }

  lemma SameDistanceChains(m: Copper, m': Copper, m'': Copper, a: nat, b: nat)
    requires SameDistance(m, m', a, b) && SameDistance(m', m'', a, b)
    ensures SameDistance(m, m'', a, b)
  {
  }

  lemma TripGrows(m: Copper, a: nat, w: seq<Leg>, f: nat, b: nat, l: real)
    requires Trip(m, a, w, f) && Hop(m, f, b, l)
    ensures Trip(m, a, w + [Leg(b, l)], b)
    ensures TripLength(w + [Leg(b, l)]) == TripLength(w) + l
  {
    var v := w + [Leg(b, l)];
    assert v[..|v| - 1] == w;
  }

  // ---- one division ----

  /** `m'` is `m` with the piece between `x` and `y` divided at `w`, which was in another part of the net. */
  ghost predicate Divided(m: Copper, m': Copper, x: nat, w: nat, y: nat, l1: real, l2: real, lab: seq<nat>) {
    && x < |lab| && w < |lab| && y < |lab| && lab[x] == lab[y] != lab[w] && l1 >= 0.0 && l2 >= 0.0
    && (forall u: nat, v: nat, l: real :: Hop(m, u, v, l) ==> u < |lab| && v < |lab| && lab[u] == lab[v] && l >= 0.0)
    && (forall u: nat, v: nat, l: real :: Hop(m', u, v, l) ==>
          Hop(m, u, v, l) || (l == l1 && ((u == x && v == w) || (u == w && v == x)))
                          || (l == l2 && ((u == w && v == y) || (u == y && v == w))))
    && (forall u: nat, v: nat, l: real :: Hop(m, u, v, l) ==>
          Hop(m', u, v, l) || (l == l1 + l2 && ((u == x && v == y) || (u == y && v == x))))
    && Hop(m, x, y, l1 + l2) && Hop(m, y, x, l1 + l2)
    && Hop(m', x, w, l1) && Hop(m', w, x, l1) && Hop(m', w, y, l2) && Hop(m', y, w, l2)
  }

  /** Dividing loses no route: the divided piece is still there, in two. */
  lemma {:induction false} DivisionLosesNothing(m: Copper, m': Copper, x: nat, w: nat, y: nat, l1: real, l2: real,
                                                lab: seq<nat>, a: nat, p: seq<Leg>, b: nat) returns (q: seq<Leg>)
    requires Divided(m, m', x, w, y, l1, l2, lab) && Trip(m, a, p, b)
    ensures Trip(m', a, q, b) && TripLength(q) == TripLength(p)
    decreases |p|
  {
    q := [];
    if p != [] {
      var s, f := p[|p| - 1], EndOf(a, p[..|p| - 1]);
      q := DivisionLosesNothing(m, m', x, w, y, l1, l2, lab, a, p[..|p| - 1], f);
      if Hop(m', f, b, s.l) {
        TripGrows(m', a, q, f, b, s.l);
        q := q + [Leg(b, s.l)];
      } else {
        var lf, lb := if f == x then l1 else l2, if f == x then l2 else l1;
        TripGrows(m', a, q, f, w, lf);
        q := q + [Leg(w, lf)];
        TripGrows(m', a, q, w, b, lb);
        q := q + [Leg(b, lb)];
      }
    }
  }

  /** Dividing makes no shortcut. A trip that leaves its own part of the net does so through `w`
      and has to come back through it, so it can be replaced by one that stays. While it is away,
      `q` leads to where it left. */
  lemma {:induction false} DivisionMakesNoShortcut(m: Copper, m': Copper, x: nat, w: nat, y: nat, l1: real, l2: real,
                                                   lab: seq<nat>, a: nat, p: seq<Leg>, z: nat)
    returns (q: seq<Leg>, end: nat)
    requires Divided(m, m', x, w, y, l1, l2, lab) && Trip(m', a, p, z) && a < |lab|
    ensures z < |lab| && Trip(m, a, q, end)
    ensures lab[z] == lab[a] ==> end == z && TripLength(q) <= TripLength(p)
    ensures lab[z] != lab[a] ==>
      if lab[a] == lab[w] then lab[z] == lab[x] && end == w && TripLength(q) <= TripLength(p)
      else lab[a] == lab[x] && lab[z] == lab[w]
           && ((end == x && TripLength(q) + l1 <= TripLength(p)) || (end == y && TripLength(q) + l2 <= TripLength(p)))
    decreases |p|
  {
    if p == [] {
      q, end := [], a;
    } else {
      var s, f := p[|p| - 1], EndOf(a, p[..|p| - 1]);
      q, end := DivisionMakesNoShortcut(m, m', x, w, y, l1, l2, lab, a, p[..|p| - 1], f);
      if Hop(m, f, z, s.l) {
        if lab[z] == lab[a] {
          TripGrows(m, a, q, f, z, s.l);
          q, end := q + [Leg(z, s.l)], z;
        }
      } else if lab[a] == lab[x] && f == w && end != z {
        // away from one side of the piece and back on the other: as long as the whole piece
        TripGrows(m, a, q, end, z, l1 + l2);
        q, end := q + [Leg(z, l1 + l2)], z;
      }
    }
  }

  lemma DivisionKeepsDistance(m: Copper, m': Copper, x: nat, w: nat, y: nat, l1: real, l2: real, lab: seq<nat>, a: nat,
                              b: nat)
    requires Divided(m, m', x, w, y, l1, l2, lab) && a < |lab| && b < |lab| && lab[a] == lab[b]
    ensures SameDistance(m, m', a, b)
  {
    forall p | Trip(m, a, p, b) ensures exists v :: Trip(m', a, v, b) && TripLength(v) <= TripLength(p) {
      var q := DivisionLosesNothing(m, m', x, w, y, l1, l2, lab, a, p, b);
    }
    forall p | Trip(m', a, p, b) ensures exists v :: Trip(m, a, v, b) && TripLength(v) <= TripLength(p) {
      var q, end := DivisionMakesNoShortcut(m, m', x, w, y, l1, l2, lab, a, p, b);
    }
  }

  // ---- dividing a track at one more stop ----

  function WithStop(c: seq<Stop>, p: nat, s: Stop): seq<Stop>
    requires p <= |c|
  {
    c[..p] + [s] + c[p..]
  }

  ghost predicate LabelsFit(m: Copper, lab: seq<nat>) {
    forall u: nat, v: nat, l: real :: Hop(m, u, v, l) ==> u < |lab| && v < |lab| && lab[u] == lab[v] && l >= 0.0
  }

  lemma PieceOf(m: Copper, t: nat, k: nat, l: real)
    requires t < |m.chains| && |m.total| == |m.chains| && k + 1 < |m.chains[t]|
    requires l == Stretch(m.total[t], m.chains[t][k], m.chains[t][k + 1])
    ensures Hop(m, m.chains[t][k].node, m.chains[t][k + 1].node, l)
    ensures Hop(m, m.chains[t][k + 1].node, m.chains[t][k].node, l)
  {
    var c := m.chains[t];
    assert Piece(m, t, k, c[k].node, c[k + 1].node, l) && Piece(m, t, k, c[k + 1].node, c[k].node, l);
  }

  lemma Share(total: real, a: Stop, s: Stop, b: Stop)
    requires total >= 0.0 && a.at <= s.at <= b.at
    ensures Stretch(total, a, s) >= 0.0 && Stretch(total, s, b) >= 0.0
    ensures Stretch(total, a, s) + Stretch(total, s, b) == Stretch(total, a, b)
  {
  }

  /** Hops of the divided copper, in terms of the undivided. */
  lemma HopsAfter(m: Copper, t: nat, p: nat, s: Stop, u: nat, v: nat, l: real)
    requires |m.total| == |m.chains| && t < |m.chains| && 0 < p < |m.chains[t]|
    requires Hop(m.(chains := m.chains[t := WithStop(m.chains[t], p, s)]), u, v, l)
    ensures var c := m.chains[t];
      || Hop(m, u, v, l)
      || (l == Stretch(m.total[t], c[p - 1], s) && (u, v) in {(c[p - 1].node, s.node), (s.node, c[p - 1].node)})
      || (l == Stretch(m.total[t], s, c[p]) && (u, v) in {(s.node, c[p].node), (c[p].node, s.node)})
  {
    var m' := m.(chains := m.chains[t := WithStop(m.chains[t], p, s)]);
    if i: nat, k: nat :| Piece(m', i, k, u, v, l) {
      if i != t || k + 1 < p {
        assert Piece(m, i, k, u, v, l);
      } else if k > p {
        assert Piece(m, i, k - 1, u, v, l);
      }
    } else {
      var h: nat, k: nat :| Spoke(m', h, k, u, v, l);
      assert Spoke(m, h, k, u, v, l);
    }
  }

  /** ... and the other way round. */
  lemma HopsBefore(m: Copper, t: nat, p: nat, s: Stop, u: nat, v: nat, l: real)
    requires |m.total| == |m.chains| && t < |m.chains| && 0 < p < |m.chains[t]|
    requires Hop(m, u, v, l)
    ensures var c := m.chains[t];
      || Hop(m.(chains := m.chains[t := WithStop(m.chains[t], p, s)]), u, v, l)
      || (l == Stretch(m.total[t], c[p - 1], c[p]) && (u, v) in {(c[p - 1].node, c[p].node), (c[p].node, c[p - 1].node)})
  {
    var m' := m.(chains := m.chains[t := WithStop(m.chains[t], p, s)]);
    if i: nat, k: nat :| Piece(m, i, k, u, v, l) {
      if i != t || k + 1 < p {
        assert Piece(m', i, k, u, v, l);
      } else if k >= p {
        assert Piece(m', i, k + 1, u, v, l);
      }
    } else {
      var h: nat, k: nat :| Spoke(m, h, k, u, v, l);
      assert Spoke(m', h, k, u, v, l);
    }
  }

  lemma StopDivides(m: Copper, t: nat, p: nat, s: Stop, lab: seq<nat>)
    requires |m.total| == |m.chains| && t < |m.chains| && 0 < p < |m.chains[t]| && m.total[t] >= 0.0
    requires m.chains[t][p - 1].at <= s.at <= m.chains[t][p].at
    requires LabelsFit(m, lab) && s.node < |lab|
    requires m.chains[t][p].node < |lab| && lab[s.node] != lab[m.chains[t][p].node]
    ensures var c := m.chains[t];
      Divided(m, m.(chains := m.chains[t := WithStop(c, p, s)]), c[p - 1].node, s.node, c[p].node,
              Stretch(m.total[t], c[p - 1], s), Stretch(m.total[t], s, c[p]), lab)
  {
    hide Hop, Stretch;
    var c := m.chains[t];
    var c' := WithStop(c, p, s);
    var m' := m.(chains := m.chains[t := c']);
    var l1, l2 := Stretch(m.total[t], c[p - 1], s), Stretch(m.total[t], s, c[p]);
    Share(m.total[t], c[p - 1], s, c[p]);
    assert c'[p - 1] == c[p - 1] && c'[p] == s && c'[p + 1] == c[p];
    PieceOf(m, t, p - 1, l1 + l2);
    PieceOf(m', t, p - 1, l1);
    PieceOf(m', t, p, l2);
    forall u: nat, v: nat, l: real | Hop(m', u, v, l)
      ensures Hop(m, u, v, l) || (l == l1 && ((u == c[p - 1].node && v == s.node) || (u == s.node && v == c[p - 1].node)))
                              || (l == l2 && ((u == s.node && v == c[p].node) || (u == c[p].node && v == s.node)))
    {
      HopsAfter(m, t, p, s, u, v, l);
    }
    forall u: nat, v: nat, l: real | Hop(m, u, v, l)
      ensures Hop(m', u, v, l)
        || (l == l1 + l2 && ((u == c[p - 1].node && v == c[p].node) || (u == c[p].node && v == c[p - 1].node)))
    {
      HopsBefore(m, t, p, s, u, v, l);
    }
  }

  // ---- every division, in the order they were accepted ----

  /** A division that was made: which track, where, and the node it shares. */
  datatype Division = Division(track: nat, at: real, node: nat)

  /** The undivided copper: every track runs from its first end to its last. */
  ghost predicate Undivided(m: Copper) {
    |m.total| == |m.chains|
    && forall t :: 0 <= t < |m.chains| ==>
         m.total[t] >= 0.0 && |m.chains[t]| == 2 && m.chains[t][0].at == 0.0 && m.chains[t][1].at == 1.0
         && m.chains[t][0].node != m.chains[t][1].node
  }

  ghost predicate InOrder(c: seq<Stop>) {
    forall i, j :: 0 <= i < j < |c| ==> c[i].at <= c[j].at
  }

  ghost function StopsOn(acc: seq<Division>, t: nat): multiset<Stop> {
    if acc == [] then multiset{}
    else
      var d := acc[|acc| - 1];
      StopsOn(acc[..|acc| - 1], t) + if d.track == t then multiset{Stop(d.at, d.node)} else multiset{}
  }

  /** `chains` are the tracks with all their divisions, each sorted along the track. */
  ghost predicate Arranged(base: Copper, acc: seq<Division>, chains: seq<seq<Stop>>) {
    |chains| == |base.chains|
    && forall t :: 0 <= t < |chains| ==>
         InOrder(chains[t]) && multiset(chains[t]) == multiset(base.chains[t]) + StopsOn(acc, t)
  }

  /** How the divisions were chosen: `labs[k]` tells the connected pieces apart before the k-th,
      which joins two that were separate. */
  ghost predicate Chosen(base: Copper, acc: seq<Division>, labs: seq<seq<nat>>) {
    && Undivided(base) && |labs| == |acc| + 1 && LabelsFit(base, labs[0])
    && (forall t, i :: 0 <= t < |base.chains| && 0 <= i < 2 ==> base.chains[t][i].node < |labs[0]|)
    && forall k :: 0 <= k < |acc| ==> ChosenAt(base, acc[k], labs[k], labs[k + 1])
  }

  ghost predicate ChosenAt(base: Copper, d: Division, lab: seq<nat>, lab': seq<nat>)
    requires Undivided(base)
  {
    && d.track < |base.chains| && 0.0 < d.at < 1.0 && |lab| == |lab'| && d.node < |lab|
    && base.chains[d.track][0].node < |lab|
    && lab[d.node] != lab[base.chains[d.track][0].node]
    && Forest.Merged(lab, lab', d.node, base.chains[d.track][0].node)
  }

  lemma PlaceOf(c: seq<Stop>, s: Stop) returns (i: nat)
    requires multiset(c)[s] > 0
    ensures i < |c| && c[i] == s
  {
    assert s in multiset(c) && s in c;
    i :| 0 <= i < |c| && c[i] == s;
  }

  /** Somewhere strictly between the ends of a track, a stop can be taken out. */
  lemma TakeOut(c: seq<Stop>, ends: seq<Stop>, rest: multiset<Stop>, s: Stop) returns (p: nat)
    requires InOrder(c) && |ends| == 2 && multiset(c) == multiset(ends) + (rest + multiset{s})
    requires ends[0].at < s.at < ends[1].at
    ensures 0 < p < |c| - 1
    ensures c[p] == s && WithStop(c[..p] + c[p + 1..], p, s) == c
    ensures InOrder(c[..p] + c[p + 1..]) && multiset(c[..p] + c[p + 1..]) == multiset(ends) + rest
    ensures (c[..p] + c[p + 1..])[p - 1].at <= s.at <= (c[..p] + c[p + 1..])[p].at
  {
    p := StopBetween(c, ends, s);
    DropStop(c, p);
    var left := multiset(c[..p] + c[p + 1..]);
    assert left == left + multiset{s} - multiset{s};
    assert multiset(ends) + rest == multiset(ends) + (rest + multiset{s}) - multiset{s};
  }

  lemma StopBetween(c: seq<Stop>, ends: seq<Stop>, s: Stop) returns (p: nat)
    requires InOrder(c) && |ends| == 2 && multiset(ends) <= multiset(c) && multiset(c)[s] > 0
    requires ends[0].at < s.at < ends[1].at
    ensures 0 < p < |c| - 1 && c[p] == s
  {
    assert multiset(ends)[ends[0]] > 0 && multiset(ends)[ends[1]] > 0;
    p := PlaceOf(c, s);
    var i0 := PlaceOf(c, ends[0]);
    var i1 := PlaceOf(c, ends[1]);
    assert i0 < p < i1;
  }

  lemma DropStop(c: seq<Stop>, p: nat)
    requires InOrder(c) && 0 < p < |c| - 1
    ensures var c0 := c[..p] + c[p + 1..];
      WithStop(c0, p, c[p]) == c && InOrder(c0) && multiset(c0) + multiset{c[p]} == multiset(c)
      && c0[p - 1].at <= c[p].at <= c0[p].at
  {
    var c0 := c[..p] + c[p + 1..];
    assert c == c[..p] + [c[p]] + c[p + 1..];
    assert c0[..p] == c[..p] && c0[p..] == c[p + 1..];
    forall i, j | 0 <= i < j < |c0| ensures c0[i].at <= c0[j].at {
      assert c0[i] == c[if i < p then i else i + 1] && c0[j] == c[if j < p then j else j + 1];
    }
  }

  /** Taking the last division out of an arrangement again. */
  lemma WithoutLast(base: Copper, acc: seq<Division>, labs: seq<seq<nat>>, chains: seq<seq<Stop>>)
    returns (p: nat, before: seq<seq<Stop>>)
    requires acc != [] && Chosen(base, acc, labs) && Arranged(base, acc, chains)
    ensures Chosen(base, acc[..|acc| - 1], labs[..|acc|])
    ensures Arranged(base, acc[..|acc| - 1], before)
    ensures var d := acc[|acc| - 1];
      d.track < |chains| && 0 < p < |before[d.track]|
      && chains == before[d.track := WithStop(before[d.track], p, Stop(d.at, d.node))]
      && before[d.track][p - 1].at <= d.at <= before[d.track][p].at
  {
    var d := acc[|acc| - 1];
    var init := acc[..|acc| - 1];
    assert ChosenAt(base, acc[|acc| - 1], labs[|acc| - 1], labs[|acc|]);
    forall k | 0 <= k < |init| ensures ChosenAt(base, init[k], labs[..|acc|][k], labs[..|acc|][k + 1]) {
      assert ChosenAt(base, acc[k], labs[k], labs[k + 1]);
    }
    var c, s := chains[d.track], Stop(d.at, d.node);
    p := TakeOut(c, base.chains[d.track], StopsOn(init, d.track), s);
    before := chains[d.track := c[..p] + c[p + 1..]];
    assert chains == before[d.track := c];
  }

  ghost function Laid(base: Copper, chains: seq<seq<Stop>>): Copper { base.(chains := chains) }

  /** Nodes told apart by one labelling and joined by a later one stay joined. */
  lemma {:induction false} JoinedStay(base: Copper, acc: seq<Division>, labs: seq<seq<nat>>, a: nat, b: nat)
    requires Chosen(base, acc, labs) && a < |labs[0]| && b < |labs[0]| && labs[0][a] == labs[0][b]
    ensures |labs[|acc|]| == |labs[0]| && labs[|acc|][a] == labs[|acc|][b]
    decreases |acc|
  {
    if acc != [] {
      ChosenInit(base, acc, labs);
      JoinedStay(base, acc[..|acc| - 1], labs[..|acc|], a, b);
      assert ChosenAt(base, acc[|acc| - 1], labs[|acc| - 1], labs[|acc|]);
    }
  }

  lemma ChosenInit(base: Copper, acc: seq<Division>, labs: seq<seq<nat>>)
    requires Chosen(base, acc, labs) && acc != []
    ensures Chosen(base, acc[..|acc| - 1], labs[..|acc|])
  {
    var init := acc[..|acc| - 1];
    forall k | 0 <= k < |init| ensures ChosenAt(base, init[k], labs[..|acc|][k], labs[..|acc|][k + 1]) {
      assert ChosenAt(base, acc[k], labs[k], labs[k + 1]);
    }
  }

  /** Undivided tracks, arranged, are just their two ends. */
  lemma NothingArranged(base: Copper, labs: seq<seq<nat>>, chains: seq<seq<Stop>>)
    requires Chosen(base, [], labs) && Arranged(base, [], chains)
    ensures chains == base.chains
  {
    forall t | 0 <= t < |chains| ensures chains[t] == base.chains[t] {
      var c, e := chains[t], base.chains[t];
      assert |multiset(c)| == |multiset(e)|;
      assert e[0] in multiset(e) && e[1] in multiset(e);
      assert c[0] in multiset(c) && c[1] in multiset(c);
      assert c == [c[0], c[1]] && e == [e[0], e[1]];
    }
  }

  /** The start of a track is always on it, so every stop on it has the start's label. */
  lemma StopHasStartsLabel(base: Copper, acc: seq<Division>, chains: seq<seq<Stop>>, lab: seq<nat>, t: nat, j: nat)
    requires Undivided(base) && Arranged(base, acc, chains) && LabelsFit(Laid(base, chains), lab)
    requires t < |chains| && j < |chains[t]| && 1 < |chains[t]|
    ensures base.chains[t][0].node < |lab| && chains[t][j].node < |lab|
    ensures lab[chains[t][j].node] == lab[base.chains[t][0].node]
  {
    var start := base.chains[t][0];
    assert start in multiset(base.chains[t]);
    assert start in multiset(chains[t]);
    var i :| 0 <= i < |chains[t]| && chains[t][i] == start;
    var m := Laid(base, chains);
    if i < j { ChainIsOneLabel(m, lab, t, i, j); }
    else if j < i { ChainIsOneLabel(m, lab, t, j, i); }
    else if i == 0 { ChainIsOneLabel(m, lab, t, 0, 1); }
    else { ChainIsOneLabel(m, lab, t, 0, i); }
  }

  /** Putting the last division's stop in turns one arrangement into the next. */
  ghost predicate OneMoreOf(base: Copper, acc: seq<Division>, labs: seq<seq<nat>>, before: seq<seq<Stop>>, p: nat,
                            chains: seq<seq<Stop>>) {
    && Chosen(base, acc, labs) && acc != [] && Chosen(base, acc[..|acc| - 1], labs[..|acc|])
    && Arranged(base, acc[..|acc| - 1], before) && |before| == |base.chains|
    && (var d := acc[|acc| - 1];
        d.track < |before| && 0 < p < |before[d.track]|
        && chains == before[d.track := WithStop(before[d.track], p, Stop(d.at, d.node))]
        && before[d.track][p - 1].at <= d.at <= before[d.track][p].at)
    && LabelsFit(Laid(base, before), labs[|acc| - 1])
  }

  /** All of one label, that of the stop the other chain starts with. */
  ghost predicate LabelledAs(c: seq<Stop>, lab: seq<nat>, ends: seq<Stop>) {
    && ends != [] && ends[0].node < |lab|
    && forall j :: 0 <= j < |c| ==> c[j].node < |lab| && lab[c[j].node] == lab[ends[0].node]
  }

  lemma LastDivides(base: Copper, acc: seq<Division>, labs: seq<seq<nat>>, before: seq<seq<Stop>>, p: nat,
                    chains: seq<seq<Stop>>)
    requires OneMoreOf(base, acc, labs, before, p, chains)
    ensures var d := acc[|acc| - 1];
      var m, c, s := Laid(base, before), before[d.track], Stop(d.at, d.node);
      && d.track < |m.total|
      && Divided(m, Laid(base, chains), c[p - 1].node, s.node, c[p].node, Stretch(m.total[d.track], c[p - 1], s),
                 Stretch(m.total[d.track], s, c[p]), labs[|acc| - 1])
    ensures LabelledAs(before[acc[|acc| - 1].track], labs[|acc| - 1], base.chains[acc[|acc| - 1].track])
  {
    hide Hop, Stretch, Arranged, Divided, LabelsFit, Forest.Merged, WithStop;
    var init, d := acc[..|acc| - 1], acc[|acc| - 1];
    var lab := labs[|acc| - 1];
    var t, c, s := d.track, before[d.track], Stop(d.at, d.node);
    var m := Laid(base, before);
    assert ChosenAt(base, acc[|acc| - 1], lab, labs[|acc|]);
    forall j | 0 <= j < |c| ensures c[j].node < |lab| && lab[c[j].node] == lab[base.chains[t][0].node] {
      StopHasStartsLabel(base, init, before, lab, t, j);
    }
    StopDivides(m, t, p, s, lab);
    assert Laid(base, chains) == m.(chains := m.chains[t := WithStop(c, p, s)]);
  }

  lemma OneMore(base: Copper, acc: seq<Division>, labs: seq<seq<nat>>, before: seq<seq<Stop>>, p: nat,
                chains: seq<seq<Stop>>)
    requires OneMoreOf(base, acc, labs, before, p, chains)
    requires forall a, b :: 0 <= a < |labs[0]| && 0 <= b < |labs[0]| && labs[0][a] == labs[0][b] ==>
      SameDistance(base, Laid(base, before), a, b)
    requires forall t, i, j :: 0 <= t < |before| && 0 <= i < j < |before[t]| ==> before[t][i].node != before[t][j].node
    ensures LabelsFit(Laid(base, chains), labs[|acc|])
    ensures forall a, b :: 0 <= a < |labs[0]| && 0 <= b < |labs[0]| && labs[0][a] == labs[0][b] ==>
      SameDistance(base, Laid(base, chains), a, b)
    ensures forall t, i, j :: 0 <= t < |chains| && 0 <= i < j < |chains[t]| ==> chains[t][i].node != chains[t][j].node
  {
    hide Hop, Stretch, NoLonger, Arranged, Divided, LabelsFit;
    var init, d := acc[..|acc| - 1], acc[|acc| - 1];
    var lab, lab' := labs[|acc| - 1], labs[|acc|];
    var t, c, s := d.track, before[d.track], Stop(d.at, d.node);
    var m, m' := Laid(base, before), Laid(base, chains);
    assert ChosenAt(base, acc[|acc| - 1], lab, lab');
    LastDivides(base, acc, labs, before, p, chains);
    var l1, l2 := Stretch(m.total[t], c[p - 1], s), Stretch(m.total[t], s, c[p]);
    LabelsFitAfter(m, m', c[p - 1].node, s.node, c[p].node, l1, l2, lab, lab');
    forall a, b | 0 <= a < |labs[0]| && 0 <= b < |labs[0]| && labs[0][a] == labs[0][b]
      ensures SameDistance(base, m', a, b)
    {
      JoinedStay(base, init, labs[..|acc|], a, b);
      DivisionKeepsDistance(m, m', c[p - 1].node, s.node, c[p].node, l1, l2, lab, a, b);
      SameDistanceChains(base, m, m', a, b);
    }
  }

  lemma LabelsFitAfter(m: Copper, m': Copper, x: nat, w: nat, y: nat, l1: real, l2: real, lab: seq<nat>, lab': seq<nat>)
    requires Divided(m, m', x, w, y, l1, l2, lab) && |lab'| == |lab| && lab'[w] == lab'[x]
    requires forall i, j :: 0 <= i < |lab| && 0 <= j < |lab| && lab[i] == lab[j] ==> lab'[i] == lab'[j]
    ensures LabelsFit(m', lab')
  {
    hide Hop, Stretch;
  }

  /** Main result: dividing tracks where the net was otherwise apart changes no distance between nodes
      that were joined before, however the divisions that share a place are ordered along the track.
      Besides, every edge still joins nodes of one label, and no track passes a node twice. */
  lemma {:induction false} DivisionsKeepDistances(base: Copper, acc: seq<Division>, labs: seq<seq<nat>>,
                                                  chains: seq<seq<Stop>>)
    requires Chosen(base, acc, labs) && Arranged(base, acc, chains)
    ensures LabelsFit(Laid(base, chains), labs[|acc|])
    ensures forall a, b :: 0 <= a < |labs[0]| && 0 <= b < |labs[0]| && labs[0][a] == labs[0][b] ==>
      SameDistance(base, Laid(base, chains), a, b)
    ensures forall t, i, j :: 0 <= t < |chains| && 0 <= i < j < |chains[t]| ==> chains[t][i].node != chains[t][j].node
    decreases |acc|
  {
    if acc == [] {
      NothingArranged(base, labs, chains);
    } else {
      var p, before := WithoutLast(base, acc, labs, chains);
      var init, d := acc[..|acc| - 1], acc[|acc| - 1];
      DivisionsKeepDistances(base, init, labs[..|acc|], before);
      OneMore(base, acc, labs, before, p, chains);
    }
  }

  lemma ChainIsOneLabel(m: Copper, lab: seq<nat>, t: nat, i: nat, j: nat)
    requires LabelsFit(m, lab) && t < |m.chains| && |m.total| == |m.chains| && i < j < |m.chains[t]|
    ensures m.chains[t][i].node < |lab| && m.chains[t][j].node < |lab|
    ensures lab[m.chains[t][i].node] == lab[m.chains[t][j].node]
    decreases j - i
  {
    hide Hop, Stretch;
    PieceOf(m, t, j - 1, Stretch(m.total[t], m.chains[t][j - 1], m.chains[t][j]));
    if i < j - 1 { ChainIsOneLabel(m, lab, t, i, j - 1); }
  }
}
