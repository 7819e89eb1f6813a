/** What holds at every point of a routing run (route/route.go, route/lay.go): the board, the clearance index and
    the results agree, and copper on different nets was accepted by the rules when it was laid. */
module RouteState {
  import opened Board
  import opened Geometry
  import opened Routes
  import opened Sorting
  import C = Clearance

  /** The board and the live obstacles before the run, and how many names had been used. */
  datatype Start = Start(tracks: seq<Track>, live: seq<C.Obstacle>, count: nat)

  function ShapesOf(w: Wire): seq<C.Shape> {
    match w
    case Segment(_, _, a, b, width, _) => [C.RoundPoly([a, b], width / 2.0)]
    case Arc(_, _, shapes, _) => shapes
    case Via(_, _, at, size, _, _) => [C.RoundPoly([at], size / 2.0)]
  }

  /** A piece of copper as the clearance index takes it. */
  function CopperOf(f: Fixed, w: Wire): C.Copper {
    C.Copper(ShapesOf(w), if w.Via? then f.reach(w.top, w.bottom) else [w.layer], w.net, if w.Via? then "via" else "track", w.uuid)
  }

  function ObstaclesOf(f: Fixed, w: Wire): seq<C.Obstacle> {
    C.ObstaclesOf(CopperOf(f, w), |ShapesOf(w)|)
  }

  function Obstacles(f: Fixed, ts: seq<Track>): seq<C.Obstacle> {
    if ts == [] then [] else Obstacles(f, ts[..|ts| - 1]) + ObstaclesOf(f, ts[|ts| - 1].wire)
  }

  /** The copper of the results that stand, in the order they were laid. */
  function Laid(order: seq<string>, results: map<string, Result>): seq<Track> {
    if order == [] then []
    else
      var k := order[|order| - 1];
      Laid(order[..|order| - 1], results) + if k in results then results[k].tracks else []
  }

  /** What a route on `net` may touch: its own copper and pads. */
  ghost function ExemptOf(f: Fixed, tracks: seq<Track>, net: string): set<string> {
    (set t | t in tracks && t.wire.net == net && t.wire.uuid != "" :: t.wire.uuid)
    + (set p | p in PadsOf(f.pads, net) :: p.id)
  }

  /** A segment takes up what is within half its width of some place between its ends, on each axis, and a via what is
      within half its size of its centre: that is the box of its one shape. */
  lemma TakesUp(w: Wire, p: Pt)
    requires !w.Arc?
    ensures |ShapesOf(w)| == 1
    ensures
      var half, x, y := if w.Via? then w.size / 2.0 else w.width / 2.0, if w.Via? then w.at else w.start, if w.Via? then w.at else w.end;
      C.Box(ShapesOf(w)[0]).Contains(p) <==> exists z :: Between(x, y, z) && CloseTo(p, z, half)
  {
    var half, x, y := if w.Via? then w.size / 2.0 else w.width / 2.0, if w.Via? then w.at else w.start, if w.Via? then w.at else w.end;
    var pts := ShapesOf(w)[0].pts;
    if w.Segment? { assert pts[..1] == [x] && C.Bounds([x]) == Rect(x.x, x.y, x.x, x.y); }
    GrownSpan(x, y, half, p);
    assert C.Box(ShapesOf(w)[0]) == Rect(Min(x.x, y.x), Min(x.y, y.y), Max(x.x, y.x), Max(x.y, y.y)).Grow(half);
  }

  /** On the board it is an obstacle in that shape, on its layer or, for a via, on those its via reaches. */
  lemma StandsOnBoard(f: Fixed, w: Wire, o: C.Obstacle)
    ensures o in ObstaclesOf(f, w) <==>
      && o.shape in ShapesOf(w) && (if w.Via? then o.layer in f.reach(w.top, w.bottom) else o.layer == w.layer)
      && o.net == w.net && o.ref == w.uuid && o.kind == (if w.Via? then "via" else "track") && !o.edge && !o.dead
  {
    hide ShapesOf;
    var c := CopperOf(f, w);
    C.EveryShapeEveryLayer(c, |c.shapes|, o);
    assert c.shapes[..|c.shapes|] == c.shapes;
  }

  // ---- accepted by the rules ----

  /** A track is checked on its layer, a via on every copper layer. */
  function CheckLayers(f: Fixed, w: Wire): seq<string> { if w.Via? then f.copperLayers else [w.layer] }

  function Offer(w: Wire, layer: string, exempt: set<string>): C.Candidate {
    C.Candidate(ShapesOf(w), layer, w.net, exempt, 0.0)
  }

  /** A route asks of its copper just its net's class clearance. */
  lemma OfferAsksClass(f: Fixed, w: Wire, layer: string, exempt: set<string>)
    requires f.rules.Sane()
    ensures C.NetClear(f.rules, Offer(w, layer, exempt)) == f.rules.clearanceOf(w.net)
    ensures forall o :: C.HasToClear(Offer(w, layer, exempt), o) <==> !o.dead && (o.edge || o.layer == layer) && (o.ref == "" || o.ref !in exempt)
  {
  }

  /** What a route may touch is just that: its net's copper by its uuid, where it has one, and its pads. */
  lemma ExemptIs(f: Fixed, tracks: seq<Track>, net: string, x: string)
    ensures x in ExemptOf(f, tracks, net) <==>
      (x != "" && exists i :: 0 <= i < |tracks| && tracks[i].wire.net == net && tracks[i].wire.uuid == x)
      || exists k :: 0 <= k < |PadsOf(f.pads, net)| && PadsOf(f.pads, net)[k].id == x
  {
    if i :| 0 <= i < |tracks| && tracks[i].wire.net == net && tracks[i].wire.uuid == x && x != "" { assert tracks[i] in tracks; }
    if k :| 0 <= k < |PadsOf(f.pads, net)| && PadsOf(f.pads, net)[k].id == x { assert PadsOf(f.pads, net)[k] in PadsOf(f.pads, net); }
  }

  /** The checker has nothing against this copper beside this obstacle, whatever it might have been let off. */
  ghost predicate Accepted(f: Fixed, w: Wire, o: C.Obstacle) {
    forall l, sh :: l in CheckLayers(f, w) && sh in ShapesOf(w) ==> !C.Hits(f.rules, Offer(w, l, {}), sh, o)
  }

  /** Accepted beside everything of other nets. */
  ghost predicate AcceptedAmong(f: Fixed, w: Wire, os: seq<C.Obstacle>) {
    forall o :: o in os && o.net != w.net ==> Accepted(f, w, o)
  }

  /** Each track was accepted beside the obstacles there before, and all copper laid before it. */
  ghost predicate AllAccepted(f: Fixed, base: seq<C.Obstacle>, laid: seq<Track>) {
    laid != [] ==>
      var n := |laid| - 1;
      AllAccepted(f, base, laid[..n]) && AcceptedAmong(f, laid[n].wire, base + Obstacles(f, laid[..n]))
  }

  // ---- names ----

  /** Laid copper carries new names, each once. */
  ghost predicate Named(f: Fixed, laid: seq<Track>, from: nat, count: nat) {
    && (forall t :: t in laid ==> IsNew(f, t.wire.uuid, from, count))
    && (forall i, j :: 0 <= i < j < |laid| ==> laid[i].wire.uuid != laid[j].wire.uuid)
  }

  ghost predicate IsNew(f: Fixed, uuid: string, from: nat, count: nat) {
    exists n: nat :: from <= n < count && f.uuid(n) == uuid
  }

  /** Names still to be given out are not in use, and an obstacle that shares a name with a net's copper or pads
      is that net's. */
  ghost predicate Fresh(f: Fixed, s: Start) {
    && (forall n: nat :: n >= s.count ==> Unused(f, s, f.uuid(n)))
    && NamesDiffer(f, s.count)
    && (forall o, net :: o in s.live && o.ref != "" && o.ref in ExemptOf(f, s.tracks, net) ==> o.net == net)
  }

  ghost predicate NamesDiffer(f: Fixed, from: nat) {
    forall n: nat, m: nat :: from <= n < m ==> f.uuid(n) != f.uuid(m)
  }

  ghost predicate Unused(f: Fixed, s: Start, name: string) {
    && name != "" && (forall t :: t in s.tracks ==> t.wire.uuid != name) && (forall o :: o in s.live ==> o.ref != name)
    && (forall net, p :: p in PadsOf(f.pads, net) ==> p.id != name)
  }

  // ---- the invariant ----

  /** A result that stands has copper on its net that joins its pads; one that does not has none. */
  ghost predicate ResultOk(f: Fixed, k: string, r: Result) {
    if r.routed then Made(f, k, r) && forall t :: t in r.tracks ==> t.wire.net == r.net else r.tracks == []
  }

  /** The board holds what it began with and exactly the copper of the routed results; the live obstacles match; and all
      that was laid was accepted. */
  ghost predicate Sound(f: Fixed, s: Start, tracks: seq<Track>, live: seq<C.Obstacle>, order: seq<string>,
                        results: map<string, Result>, count: nat)
  {
    && tracks == s.tracks + Laid(order, results) && live == s.live + Obstacles(f, Laid(order, results))
    && NoDups(order) && (forall k :: k in order <==> k in results && results[k].routed)
    && (forall k :: k in results ==> ResultOk(f, k, results[k]))
    && s.count <= count && Named(f, Laid(order, results), s.count, count)
    && AllAccepted(f, s.live, Laid(order, results))
  }

  // ---- obstacles of a list of tracks ----

  lemma {:induction false} ObstaclesConcat(f: Fixed, a: seq<Track>, b: seq<Track>)
    ensures Obstacles(f, a + b) == Obstacles(f, a) + Obstacles(f, b)
  {
    hide ObstaclesOf;
    if b == [] {
      assert a + b == a;
    } else {
      assert (a + b)[..|a + b| - 1] == a + b[..|b| - 1];
      ObstaclesConcat(f, a, b[..|b| - 1]);
    }
  }

  lemma {:induction false} LayersOfCopper(c: C.Copper, sh: C.Shape, n: nat, o: C.Obstacle)
    requires n <= |c.layers| && o in C.OnLayers(c, sh, n)
    ensures o.ref == c.ref && o.net == c.net && !o.dead
  {
    if n > 0 && o in C.OnLayers(c, sh, n - 1) { LayersOfCopper(c, sh, n - 1, o); }
  }

  lemma {:induction false} ObstacleOfCopper(c: C.Copper, n: nat, o: C.Obstacle)
    requires n <= |c.shapes| && o in C.ObstaclesOf(c, n)
    ensures o.ref == c.ref && o.net == c.net && !o.dead
  {
    hide C.OnLayers;
    if n > 0 {
      if o in C.ObstaclesOf(c, n - 1) { ObstacleOfCopper(c, n - 1, o); } else { LayersOfCopper(c, c.shapes[n - 1], |c.layers|, o); }
    }
  }

  lemma {:induction false} ObstacleOfTrack(f: Fixed, ts: seq<Track>, o: C.Obstacle) returns (t: Track)
    requires o in Obstacles(f, ts)
    ensures t in ts && o in ObstaclesOf(f, t.wire) && o.ref == t.wire.uuid && o.net == t.wire.net && !o.dead
  {
    var n := |ts| - 1;
    assert ts == ts[..n] + [ts[n]];
    if o in Obstacles(f, ts[..n]) {
      t := ObstacleOfTrack(f, ts[..n], o);
    } else {
      t := ts[n];
      ObstacleOfCopper(CopperOf(f, t.wire), |ShapesOf(t.wire)|, o);
    }
  }

  lemma {:induction false} TrackObstacle(f: Fixed, ts: seq<Track>, t: Track, o: C.Obstacle)
    requires t in ts && o in ObstaclesOf(f, t.wire)
    ensures o in Obstacles(f, ts)
  {
    hide ObstaclesOf;
    var n := |ts| - 1;
    assert ts == ts[..n] + [ts[n]];
    if t != ts[n] { TrackObstacle(f, ts[..n], t, o); }
  }

  /** Taking a name off the obstacles takes its one track off. */
  lemma {:induction false} WithoutOne(f: Fixed, ts: seq<Track>, t: Track)
    requires forall u :: u in ts && u.wire.uuid == t.wire.uuid ==> u == t
    ensures C.WithoutRef(Obstacles(f, ts), t.wire.uuid) == Obstacles(f, Kept(ts, {t}))
  {
    if ts != [] {
      var n := |ts| - 1;
      var init, last := ts[..n], ts[n];
      assert ts == init + [last];
      WithoutOne(f, init, t);
      var ref := t.wire.uuid;
      C.CopperNamed(CopperOf(f, last.wire), |ShapesOf(last.wire)|, ref);
      C.WithoutConcat(Obstacles(f, init), ObstaclesOf(f, last.wire), ref);
      if last != t {
        var k := Kept(ts, {t});
        assert k[..|k| - 1] == Kept(init, {t});
      }
    }
  }

  lemma {:induction false} ObstaclesOfKept(f: Fixed, ts: seq<Track>, gone: set<Track>, o: C.Obstacle)
    requires o in Obstacles(f, Kept(ts, gone))
    ensures o in Obstacles(f, ts)
  {
    hide ObstaclesOf;
    var t := ObstacleOfTrack(f, Kept(ts, gone), o);
    KeptHolds(ts, gone, t);
    TrackObstacle(f, ts, t, o);
  }

  // ---- laid copper ----

  lemma {:induction false} LaidConcat(a: seq<string>, b: seq<string>, results: map<string, Result>)
    ensures Laid(a + b, results) == Laid(a, results) + Laid(b, results)
  {
    if b == [] {
      assert a + b == a;
    } else {
      assert (a + b)[..|a + b| - 1] == a + b[..|b| - 1];
      LaidConcat(a, b[..|b| - 1], results);
    }
  }

  /** Only the tracks of the results listed matter. */
  lemma {:induction false} LaidSame(order: seq<string>, a: map<string, Result>, b: map<string, Result>)
    requires forall k :: k in order ==> k in a && k in b && a[k].tracks == b[k].tracks
    ensures Laid(order, a) == Laid(order, b)
  {
    if order != [] {
      assert order == order[..|order| - 1] + [order[|order| - 1]];
      LaidSame(order[..|order| - 1], a, b);
    }
  }

  lemma {:induction false} LaidHolds(order: seq<string>, results: map<string, Result>, k: string, t: Track)
    requires k in order && k in results && t in results[k].tracks
    ensures t in Laid(order, results)
  {
    var n := |order| - 1;
    assert order == order[..n] + [order[n]];
    if k != order[n] { LaidHolds(order[..n], results, k, t); }
  }

  lemma {:induction false} AcceptedConcat(f: Fixed, base: seq<C.Obstacle>, laid: seq<Track>, more: seq<Track>,
                                          net: string)
    requires AllAccepted(f, base, laid)
    requires forall t :: t in more ==> t.wire.net == net && AcceptedAmong(f, t.wire, base + Obstacles(f, laid))
    ensures AllAccepted(f, base, laid + more)
    decreases |more|
  {
    hide Accepted, ObstaclesOf;
    if more == [] {
      assert laid + more == laid;
    } else {
      var n := |more| - 1;
      var all, t := laid + more, more[n];
      assert more == more[..n] + [t];
      AcceptedConcat(f, base, laid, more[..n], net);
      assert all[..|all| - 1] == laid + more[..n] && all[|all| - 1] == t;
      forall o | o in base + Obstacles(f, laid + more[..n]) && o.net != t.wire.net ensures Accepted(f, t.wire, o) {
        ObstaclesConcat(f, laid, more[..n]);
        if o in Obstacles(f, more[..n]) { var u := ObstacleOfTrack(f, more[..n], o); }
      }
    }
  }

  lemma {:induction false} AcceptedKept(f: Fixed, base: seq<C.Obstacle>, laid: seq<Track>, gone: set<Track>)
    requires AllAccepted(f, base, laid)
    ensures AllAccepted(f, base, Kept(laid, gone))
  {
    hide Accepted, Obstacles;
    if laid != [] {
      var init, t := laid[..|laid| - 1], laid[|laid| - 1];
      AcceptedKept(f, base, init, gone);
      if t !in gone {
        var k := Kept(laid, gone);
        assert k[..|k| - 1] == Kept(init, gone);
        forall o | o in base + Obstacles(f, Kept(init, gone)) && o.net != t.wire.net ensures Accepted(f, t.wire, o) {
          if o in Obstacles(f, Kept(init, gone)) { ObstaclesOfKept(f, init, gone, o); }
        }
      }
    }
  }

  lemma {:induction false} NamedKept(f: Fixed, laid: seq<Track>, from: nat, count: nat, gone: set<Track>)
    requires Named(f, laid, from, count)
    ensures Named(f, Kept(laid, gone), from, count)
  {
    if laid != [] {
      var init, t := laid[..|laid| - 1], laid[|laid| - 1];
      assert laid == init + [t];
      NamedKept(f, init, from, count, gone);
      forall u | u in Kept(init, gone) ensures u in init && u.wire.uuid != t.wire.uuid { KeptHolds(init, gone, u); }
    }
  }

  lemma NamedConcat(f: Fixed, laid: seq<Track>, more: seq<Track>, from: nat, count: nat)
    requires Named(f, laid, from, count) && from <= count && NamesDiffer(f, from)
    requires forall i :: 0 <= i < |more| ==> more[i].wire.uuid == f.uuid(count + i)
    ensures Named(f, laid + more, from, count + |more|)
  {
    var all := laid + more;
    forall t | t in all ensures IsNew(f, t.wire.uuid, from, count + |more|) {
      if t in more {
        var i :| 0 <= i < |more| && more[i] == t;
      } else {
        assert IsNew(f, t.wire.uuid, from, count);
      }
    }
    forall i, j | 0 <= i < j < |all| ensures all[i].wire.uuid != all[j].wire.uuid {
      if j >= |laid| && i < |laid| {
        assert IsNew(f, laid[i].wire.uuid, from, count);
      }
    }
  }

  /** Copper newly drawn, checked beside everything live, joins the rest. */
  lemma CommitKeeps(f: Fixed, s: Start, tracks: seq<Track>, live: seq<C.Obstacle>, order: seq<string>,
                    results: map<string, Result>, count: nat, k: string, r: Result)
    requires Fresh(f, s) && Sound(f, s, tracks, live, order, results, count) && k in results && !results[k].routed
    requires r.routed && Made(f, k, r) && forall t :: t in r.tracks ==> t.wire.net == r.net
    requires forall i :: 0 <= i < |r.tracks| ==> r.tracks[i].wire.uuid == f.uuid(count + i)
    requires forall t :: t in r.tracks ==> AcceptedAmong(f, t.wire, live)
    ensures Sound(f, s, tracks + r.tracks, live + Obstacles(f, r.tracks), order + [k], results[k := r], count + |r.tracks|)
  {
    hide AcceptedAmong, AllAccepted, Named, Obstacles, Unused, NamesDiffer, Laid;
    LaidOneMore(order, results, k, r);
    var laid := Laid(order, results);
    ObstaclesConcat(f, laid, r.tracks);
    NamedConcat(f, laid, r.tracks, s.count, count);
    AcceptedConcat(f, s.live, laid, r.tracks, r.net);
  }

  lemma LaidOneMore(order: seq<string>, results: map<string, Result>, k: string, r: Result)
    requires k !in order && forall j :: j in order ==> j in results
    ensures Laid(order + [k], results[k := r]) == Laid(order, results) + r.tracks
  {
    var after := results[k := r];
    LaidConcat(order, [k], after);
    LaidSame(order, results, after);
    assert [k][..0] == [];
  }

  // ---- ripping up ----

  /** The live obstacles once the first `n` of these tracks' names are retired. */
  ghost function Retired(live: seq<C.Obstacle>, ts: seq<Track>, n: nat): seq<C.Obstacle>
    requires n <= |ts|
  {
    if n == 0 then live else C.WithoutRef(Retired(live, ts, n - 1), ts[n - 1].wire.uuid)
  }

  lemma {:induction false} KeptTwice(ts: seq<Track>, a: set<Track>, b: set<Track>)
    ensures Kept(Kept(ts, a), b) == Kept(ts, a + b)
  {
    if ts != [] {
      var init, t := ts[..|ts| - 1], ts[|ts| - 1];
      KeptTwice(init, a, b);
      if t !in a {
        var k := Kept(ts, a);
        assert k[..|k| - 1] == Kept(init, a);
      }
    }
  }

  lemma NameNotBefore(f: Fixed, s: Start, laid: seq<Track>, count: nat, t: Track)
    requires Fresh(f, s) && Named(f, laid, s.count, count) && t in laid
    ensures Unused(f, s, t.wire.uuid)
    ensures forall u :: u in laid && u.wire.uuid == t.wire.uuid ==> u == t
  {
    hide Unused;
    assert IsNew(f, t.wire.uuid, s.count, count);
    forall u | u in laid && u.wire.uuid == t.wire.uuid ensures u == t {
      var i :| 0 <= i < |laid| && laid[i] == t;
      var j :| 0 <= j < |laid| && laid[j] == u;
    }
  }

  lemma {:induction false} RetiredIs(f: Fixed, s: Start, laid: seq<Track>, count: nat, ts: seq<Track>, n: nat)
    requires Fresh(f, s) && Named(f, laid, s.count, count) && n <= |ts| && forall t :: t in ts ==> t in laid
    ensures Retired(s.live + Obstacles(f, laid), ts, n) == s.live + Obstacles(f, Kept(laid, Among(ts[..n])))
  {
    hide Fresh, Named, Obstacles;
    if n == 0 {
      KeptAll(laid, Among(ts[..0]));
    } else {
      RetiredIs(f, s, laid, count, ts, n - 1);
      var t, gone := ts[n - 1], Among(ts[..n - 1]);
      assert t in laid && ts[..n] == ts[..n - 1] + [t];
      var left := Kept(laid, gone);
      NameNotBefore(f, s, laid, count, t);
      forall u | u in left && u.wire.uuid == t.wire.uuid ensures u == t { KeptHolds(laid, gone, u); }
      WithoutOne(f, left, t);
      C.NothingTaken(s.live, t.wire.uuid);
      C.WithoutConcat(s.live, Obstacles(f, left), t.wire.uuid);
      KeptTwice(laid, gone, {t});
      assert gone + {t} == Among(ts[..n]);
    }
  }

  lemma DistinctApart(a: seq<Track>, b: seq<Track>, c: seq<Track>)
    requires Distinct(a + b + c)
    ensures forall t :: t in a || t in c ==> t !in b
  {
    var all := a + b + c;
    forall i, j | 0 <= i < |a| && 0 <= j < |b| ensures a[i] != b[j] {
      assert all[i] == a[i] && all[|a| + j] == b[j];
    }
    forall i, j | 0 <= i < |c| && 0 <= j < |b| ensures c[i] != b[j] {
      assert all[|a| + |b| + i] == c[i] && all[|a| + j] == b[j];
    }
  }

  /** Taking one result's copper out of the board leaves what was there before and every other result's. */
  lemma KeptOthers(before: seq<Track>, a: seq<Track>, ts: seq<Track>, b: seq<Track>)
    requires Distinct(before + (a + ts + b))
    ensures Kept(before + (a + ts + b), Among(ts)) == before + (a + b) && Kept(a + ts + b, Among(ts)) == a + b
  {
    hide Kept, Distinct;
    var gone := Among(ts);
    assert before + (a + ts + b) == (before + a) + ts + b;
    DistinctApart(before + a, ts, b);
    KeptConcat(before, a + ts + b, gone);
    KeptConcat(a + ts, b, gone);
    KeptConcat(a, ts, gone);
    KeptAll(before, gone);
    KeptAll(a, gone);
    KeptAll(b, gone);
    KeptNone(ts, gone);
  }

  lemma OrderWithout(a: seq<string>, k: string, b: seq<string>)
    requires NoDups(a + [k] + b)
    ensures NoDups(a + b) && forall j :: j in a + b <==> j in a + [k] + b && j != k
  {
    var all := a + [k] + b;
    assert all[|a|] == k;
    forall i | 0 <= i < |a| ensures a[i] != k { assert all[i] == a[i]; }
    forall i | 0 <= i < |b| ensures b[i] != k { assert all[|a| + 1 + i] == b[i]; }
    forall i, j | 0 <= i < j < |a + b| ensures (a + b)[i] != (a + b)[j] {
      var x, y := if i < |a| then i else i + 1, if j < |a| then j else j + 1;
      assert all[x] == (a + b)[i] && all[y] == (a + b)[j];
    }
  }

  /** A route taken off leaves everything as if it had not been laid; the rest stands as it was accepted. */
  lemma RipUpKeeps(f: Fixed, s: Start, tracks: seq<Track>, live: seq<C.Obstacle>, a: seq<string>, k: string,
                   b: seq<string>,
                   results: map<string, Result>, count: nat, r: Result)
    requires Fresh(f, s) && Sound(f, s, tracks, live, a + [k] + b, results, count) && Distinct(tracks)
    requires !r.routed && r.tracks == []
    ensures k in results
    ensures
      var ts := results[k].tracks;
      Sound(f, s, Kept(tracks, Among(ts)), Retired(live, ts, |ts|), a + b, results[k := r], count)
  {
    hide AllAccepted, Named, Obstacles, Unused, Fresh, Laid, Kept;
    assert (a + [k] + b)[|a|] == k;
    var ts, after, laid := results[k].tracks, results[k := r], Laid(a + [k] + b, results);
    OrderWithout(a, k, b);
    LaidAround(a, k, b, results, after);
    KeptOthers(s.tracks, Laid(a, results), ts, Laid(b, results));
    assert forall t :: t in ts ==> t in laid;
    RetiredIs(f, s, laid, count, ts, |ts|);
    assert ts[..|ts|] == ts;
    NamedKept(f, laid, s.count, count, Among(ts));
    AcceptedKept(f, s.live, laid, Among(ts));
  }

  lemma LaidAround(a: seq<string>, k: string, b: seq<string>, results: map<string, Result>, after: map<string, Result>)
    requires k in results && k in after && after[k].tracks == [] && k !in a + b
    requires forall j :: j in a + b ==> j in results && j in after && after[j].tracks == results[j].tracks
    ensures Laid(a + [k] + b, results) == Laid(a, results) + results[k].tracks + Laid(b, results)
    ensures Laid(a + b, after) == Laid(a, results) + Laid(b, results)
  {
    LaidConcat(a + [k], b, results);
    LaidConcat(a, [k], results);
    assert [k][..0] == [];
    LaidConcat(a, b, after);
    LaidSame(a, after, results);
    LaidSame(b, after, results);
  }

  /** Counting attempts, or rip-ups, changes nothing that matters. */
  lemma NotingKeeps(f: Fixed, s: Start, tracks: seq<Track>, live: seq<C.Obstacle>, order: seq<string>,
                    results: map<string, Result>, count: nat, count': nat, k: string, r: Result)
    requires Sound(f, s, tracks, live, order, results, count) && k in results && count <= count'
    requires r.net == results[k].net && r.routed == results[k].routed && r.tracks == results[k].tracks
    ensures Sound(f, s, tracks, live, order, results[k := r], count')
  {
    hide AllAccepted, Obstacles, Laid;
    LaidSame(order, results, results[k := r]);
    forall t | t in Laid(order, results) ensures IsNew(f, t.wire.uuid, s.count, count') {
      assert IsNew(f, t.wire.uuid, s.count, count);
    }
  }

  // ---- checking ----

  /** No exemption reaches another net's copper. */
  lemma ExemptIsOwn(f: Fixed, s: Start, laid: seq<Track>, count: nat, net: string, o: C.Obstacle)
    requires Fresh(f, s) && Named(f, laid, s.count, count)
    requires o in s.live + Obstacles(f, laid) && o.ref != "" && o.ref in ExemptOf(f, s.tracks + laid, net)
    ensures o.net == net
  {
    hide ObstaclesOf, Obstacles, Named;
    if o in Obstacles(f, laid) {
      var t := ObstacleOfTrack(f, laid, o);
      NameNotBefore(f, s, laid, count, t);
    } else if o.ref !in ExemptOf(f, s.tracks, net) {
      var t :| t in laid && t.wire.net == net && t.wire.uuid == o.ref;
      NameNotBefore(f, s, laid, count, t);
    }
  }

  /** A clean check, on each layer, of a piece of copper excused its own net's, accepts it. */
  lemma ClearIsAccepted(f: Fixed, s: Start, tracks: seq<Track>, live: seq<C.Obstacle>, order: seq<string>,
                        results: map<string, Result>, count: nat, w: Wire, obs: seq<C.Obstacle>)
    requires Fresh(f, s) && Sound(f, s, tracks, live, order, results, count) && C.Live(obs) == live
    requires forall l :: l in CheckLayers(f, w) ==> C.IsClear(f.rules, Offer(w, l, ExemptOf(f, tracks, w.net)), obs)
    ensures AcceptedAmong(f, w, live)
  {
    hide Fresh, Named, Obstacles, AllAccepted, Laid, ExemptOf, C.Required, C.InReach, ShapesOf;
    var exempt := ExemptOf(f, tracks, w.net);
    forall o, l, sh | o in live && o.net != w.net && l in CheckLayers(f, w) && sh in ShapesOf(w)
      ensures !C.Hits(f.rules, Offer(w, l, {}), sh, o)
    {
      C.LiveHolds(obs, o);
      if o.ref != "" && o.ref in exempt { ExemptIsOwn(f, s, Laid(order, results), count, w.net, o); }
      assert !C.Hits(f.rules, Offer(w, l, exempt), sh, o);
      SameReach(f, w, l, exempt, sh, o);
    }
  }

  lemma SameReach(f: Fixed, w: Wire, l: string, exempt: set<string>, sh: C.Shape, o: C.Obstacle)
    ensures C.InReach(f.rules, Offer(w, l, {}), sh, o) <==> C.InReach(f.rules, Offer(w, l, exempt), sh, o)
  {
  }

  // ---- what it means ----

  lemma {:induction false} AcceptedAt(f: Fixed, base: seq<C.Obstacle>, laid: seq<Track>, j: nat)
    requires AllAccepted(f, base, laid) && j < |laid|
    ensures AcceptedAmong(f, laid[j].wire, base + Obstacles(f, laid[..j]))
    decreases |laid|
  {
    hide AcceptedAmong, Obstacles;
    var n := |laid| - 1;
    if j < n {
      AcceptedAt(f, base, laid[..n], j);
      assert laid[..n][..j] == laid[..j];
    }
  }

  /** Any two tracks of different nets on a routed board keep the clearance the rules ask for, wherever the checker
      looks far enough to see the earlier one from the later. */
  lemma LaidCopperKeepsClear(f: Fixed, s: Start, tracks: seq<Track>, live: seq<C.Obstacle>, order: seq<string>,
                             results: map<string, Result>, count: nat, i: nat, j: nat, l: string, sh: C.Shape, o: C.Obstacle)
    requires Sound(f, s, tracks, live, order, results, count) && f.rules.Sane() && C.Lawful(f.rules.dist)
    requires var laid := Laid(order, results);
      i < j < |laid| && laid[i].wire.net != laid[j].wire.net
      && (if laid[j].wire.Via? then l in f.copperLayers else l == laid[j].wire.layer)
      && sh in ShapesOf(laid[j].wire) && o in ObstaclesOf(f, laid[i].wire)
      && C.MarginCovers(f.rules, Offer(laid[j].wire, l, {}), o)
    ensures C.KeepsOff(f.rules, Offer(Laid(order, results)[j].wire, l, {}), sh, o)
  {
    hide Laid, Obstacles, AllAccepted, Named, ShapesOf, C.Clashes, C.Hits, C.MarginCovers, C.Lawful, C.KeepsOff;
    var laid := Laid(order, results);
    AcceptedAt(f, s.live, laid, j);
    assert laid[..j][i] == laid[i];
    TrackObstacle(f, laid[..j], laid[i], o);
    ObstacleOfCopper(CopperOf(f, laid[i].wire), |ShapesOf(laid[i].wire)|, o);
    C.WithinMarginIsSeen(f.rules, Offer(laid[j].wire, l, {}), sh, o);
    C.ClashMeans(f.rules, Offer(laid[j].wire, l, {}), sh, o);
  }

  /** If the index held the board's copper and `others` to begin with, it still holds exactly the copper now on the
      board, and them: it answers as one built afresh. */
  lemma IndexIsAsFresh(f: Fixed, s: Start, tracks: seq<Track>, live: seq<C.Obstacle>, order: seq<string>,
                       results: map<string, Result>, count: nat, others: seq<C.Obstacle>, obs: seq<C.Obstacle>,
                       built: seq<C.Obstacle>, cand: C.Candidate)
    requires Sound(f, s, tracks, live, order, results, count) && C.Live(obs) == live
    requires C.SameElements(s.live, Obstacles(f, s.tracks) + others)
    requires C.SameElements(C.Live(built), Obstacles(f, tracks) + others)
    ensures C.IsClear(f.rules, cand, obs) <==> C.IsClear(f.rules, cand, built)
    ensures forall key :: C.HitByKey(f.rules, cand, obs, key) <==> C.HitByKey(f.rules, cand, built, key)
  {
    hide Obstacles, Laid, AllAccepted, Named, C.Live, C.IsClear, C.HitByKey;
    ObstaclesConcat(f, s.tracks, Laid(order, results));
    C.SameLiveSameAnswers(f.rules, cand, obs, built);
  }
}
