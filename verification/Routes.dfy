/** What is asked of the router, and what a route it makes is (route/route.go, route/lay.go). */
module Routes {
  import opened Common
  import opened Geometry
  import opened Board
  import C = Clearance
  import E = Euclid
  import Grid
  import Lay

  datatype Pad = Pad(id: string, net: string, centre: Pt, layers: seq<string>)

  datatype Request = Request(net: string, from: string, to: string)

  function Key(q: Request): string { q.net + "|" + q.from + "|" + q.to }

  datatype Result = Result(net: string, from: string, to: string, routed: bool, tracks: seq<Track>, attempts: nat, rippedUp: nat)

  /** What stays the same throughout a run: the rules, the layers a via reaches, the board's copper layers, each net's
      pads, what new copper is drawn with and named, the extent of the grid, what a via and a bend cost, and what the
      answer is whenever it is asked whether to stop: at each look, after so much of a search. */
  datatype Fixed = Fixed(rules: C.Settings, reach: (string, string) -> seq<string>, copperLayers: seq<string>,
                         pads: map<string, seq<Pad>>, st: Lay.Style, e: Grid.Extent, via: real, bend: real, root2: real, stop: (nat, nat) -> bool)
  {
    function uuid(n: nat): string { st.uuid(n) }

    ghost predicate Ok() { st.pitch > 0.0 && e.layers == |st.layers| }
  }

  // ---- pads ----

  function PadsOf(pads: map<string, seq<Pad>>, net: string): seq<Pad> { if net in pads then pads[net] else [] }

  function FirstPad(ps: seq<Pad>, id: string): (r: Option<Pad>)
    ensures r.None? ==> forall p :: p in ps ==> p.id != id
    ensures r.Some? ==> exists k :: 0 <= k < |ps| && r.value == ps[k] && ps[k].id == id && forall j :: 0 <= j < k ==> ps[j].id != id
  {
    if ps == [] then None else if ps[0].id == id then Some(ps[0]) else FirstPad(ps[1..], id)
  }

  /** The first pad of that name on a net, if there is one. */
  function PadOf(pads: map<string, seq<Pad>>, net: string, id: string): Option<Pad> { FirstPad(PadsOf(pads, net), id) }

  /** Rounding to the nearest, halves away from zero. */
  function Rounded(v: real): int { if v >= 0.0 then (v + 0.5).Floor else -((0.5 - v).Floor) }

  /** What is halfway goes to the whole number farther from nothing. */
  lemma HalvesGoOut(n: nat)
    ensures Rounded(n as real + 0.5) == n + 1 && Rounded(-(n as real + 0.5)) == -(n + 1)
  {
  }

  function Clamp(v: int, lo: int, hi: int): int { if v < lo then lo else if v > hi then hi else v }

  function Nearest(st: Lay.Style, e: Grid.Extent, p: Pt, layer: int): (c: Grid.Cell)
    requires st.pitch > 0.0
  {
    Grid.Cell(Clamp(Rounded((p.x - st.origin.x) / st.pitch), 0, e.nx - 1),
              Clamp(Rounded((p.y - st.origin.y) / st.pitch), 0, e.ny - 1), layer)
  }

  /** A whole number nearest to another, among the first `n`. */
  lemma NearestOfRange(t: real, n: nat, c: int)
    requires 0 <= c < n
    ensures
      var k := Clamp(Rounded(t), 0, n - 1);
      0 <= k < n && AbsR(k as real - t) <= AbsR(c as real - t) && (-0.5 <= t <= n as real - 0.5 ==> AbsR(k as real - t) <= 0.5)
  {
    var r := Rounded(t);
    assert AbsR(r as real - t) <= 0.5;
    if c < r { assert c as real <= r as real - 1.0; }
    if c > r { assert c as real >= r as real + 1.0; }
  }

  /** On one axis, the place of the nearest of `n` evenly spaced ones. */
  lemma NearestOnAxis(o: real, pitch: real, n: nat, v: real, c: int)
    requires pitch > 0.0 && 0 <= c < n
    ensures
      var k := Clamp(Rounded((v - o) / pitch), 0, n - 1);
      0 <= k < n && AbsR(o + E.Times(k as real, pitch) - v) <= AbsR(o + E.Times(c as real, pitch) - v)
      && (o - E.Times(0.5, pitch) <= v <= o + E.Times(n as real - 0.5, pitch) ==>
            AbsR(o + E.Times(k as real, pitch) - v) <= E.Times(0.5, pitch))
  {
    var t := (v - o) / pitch;
    var k := Clamp(Rounded(t), 0, n - 1);
    NearestOfRange(t, n, c);
    hide Clamp, Rounded, E.Times;
    InSteps(o, pitch, v, t, k as real);
    InSteps(o, pitch, v, t, c as real);
    InSteps(o, pitch, v, t, -0.5);
    InSteps(o, pitch, v, t, n as real - 0.5);
    Farther(AbsR(k as real - t), AbsR(c as real - t), pitch);
    E.Distribute(0.5, 0.0, pitch);
    if -0.5 <= t <= n as real - 0.5 { Farther(AbsR(k as real - t), 0.5, pitch); }
  }

  /** Distances along an axis, in steps of the pitch. */
  lemma InSteps(o: real, pitch: real, v: real, t: real, k: real)
    requires pitch > 0.0 && t == (v - o) / pitch
    ensures AbsR(o + E.Times(k, pitch) - v) == E.Times(AbsR(k - t), pitch)
    ensures (k <= t <==> o + E.Times(k, pitch) <= v) && (t <= k <==> v <= o + E.Times(k, pitch))
  {
    assert E.Times(t, pitch) == v - o;
    hide E.Times;
    E.Distribute(k, t, pitch);
    E.Distribute(t, k, pitch);
    E.Distribute(k - t, 0.0, pitch);
    E.Distribute(t - k, 0.0, pitch);
    Farther(t, k, pitch);
    Farther(k, t, pitch);
  }

  lemma Farther(a: real, b: real, pitch: real)
    requires pitch > 0.0
    ensures (a <= b ==> E.Times(a, pitch) <= E.Times(b, pitch)) && (a < b ==> E.Times(a, pitch) < E.Times(b, pitch))
  {
    E.Distribute(b, a, pitch);
    if a < b { E.PositiveTimes(b - a, pitch); }
  }

  /** A place the grid reaches, half a cell beyond the outermost centres included. */
  predicate OnGrid(st: Lay.Style, e: Grid.Extent, p: Pt) {
    && st.origin.x - st.pitch / 2.0 <= p.x <= st.origin.x + E.Times(e.nx as real - 0.5, st.pitch)
    && st.origin.y - st.pitch / 2.0 <= p.y <= st.origin.y + E.Times(e.ny as real - 0.5, st.pitch)
  }

  lemma CentreIs(st: Lay.Style, c: Grid.Cell)
    ensures st.At(c) == Pt(st.origin.x + E.Times(c.x as real, st.pitch), st.origin.y + E.Times(c.y as real, st.pitch))
    ensures E.Times(0.5, st.pitch) == st.pitch / 2.0
  {
    HalfOf(st.pitch);
  }

  lemma HalfOf(v: real)
    ensures E.Times(0.5, v) == v / 2.0
  {
  }

  /** Cells' centres are a pitch apart along an axis for each cell between them, and the first cell's is at the
      origin. */
  lemma CentresApart(st: Lay.Style, a: Grid.Cell, b: Grid.Cell)
    ensures st.At(b).x - st.At(a).x == E.Times((b.x - a.x) as real, st.pitch)
    ensures st.At(b).y - st.At(a).y == E.Times((b.y - a.y) as real, st.pitch)
    ensures a.x == 0 && a.y == 0 ==> st.At(a) == st.origin
  {
    CentreIs(st, a);
    CentreIs(st, b);
    hide E.Times, Lay.Style.At;
    assert (b.x - a.x) as real == b.x as real - a.x as real && (b.y - a.y) as real == b.y as real - a.y as real;
    E.Distribute(b.x as real, a.x as real, st.pitch);
    E.Distribute(b.y as real, a.y as real, st.pitch);
  }

  /** The nearest cell is one of the grid, and on neither axis is the centre of any other nearer; it is within half a
      pitch of what is on the grid. */
  lemma NearestIsNearest(st: Lay.Style, e: Grid.Extent, p: Pt, layer: int, c: Grid.Cell)
    requires st.pitch > 0.0 && 0 <= layer < e.layers && e.Inside(c)
    ensures
      var n := Nearest(st, e, p, layer);
      && e.Inside(n) && n.layer == layer
      && AbsR(st.At(n).x - p.x) <= AbsR(st.At(c).x - p.x) && AbsR(st.At(n).y - p.y) <= AbsR(st.At(c).y - p.y)
      && (OnGrid(st, e, p) ==> AbsR(st.At(n).x - p.x) <= st.pitch / 2.0 && AbsR(st.At(n).y - p.y) <= st.pitch / 2.0)
  {
    CentreIs(st, c);
    CentreIs(st, Nearest(st, e, p, layer));
    hide Clamp, Rounded, AbsR, E.Times, Lay.Style.At;
    NearestOnAxis(st.origin.x, st.pitch, e.nx, p.x, c.x);
    NearestOnAxis(st.origin.y, st.pitch, e.ny, p.y, c.y);
  }

  /** Whether a pad is on a layer; one with every layer is on the board's own. */
  predicate OnLayer(copperLayers: seq<string>, p: Pad, l: string) {
    exists k :: 0 <= k < |p.layers| && (if p.layers[k] == "*.Cu" then l in copperLayers else p.layers[k] == l)
  }

  /** It is on the layers it names, and with `*.Cu` among those on every copper layer of the board. */
  lemma OnLayerMeans(copperLayers: seq<string>, p: Pad, l: string)
    ensures OnLayer(copperLayers, p, l) <==> (l in p.layers && l != "*.Cu") || ("*.Cu" in p.layers && l in copperLayers)
  {
    if l in p.layers && l != "*.Cu" { var k :| 0 <= k < |p.layers| && p.layers[k] == l; }
    if "*.Cu" in p.layers && l in copperLayers { var k :| 0 <= k < |p.layers| && p.layers[k] == "*.Cu"; }
  }

  /** A cell at a pad or next to it, on one of its layers. */
  predicate AtPad(f: Fixed, p: Pad, c: Grid.Cell)
    requires f.Ok()
  {
    0 <= c.layer < |f.st.layers| && OnLayer(f.copperLayers, p, f.st.layers[c.layer])
    && var at := Nearest(f.st, f.e, p.centre, c.layer); -1 <= c.x - at.x <= 1 && -1 <= c.y - at.y <= 1
  }

  // ---- a route ----

  function WiresOf(ts: seq<Track>): (ws: seq<Wire>)
    ensures |ws| == |ts|
  {
    seq(|ts|, i requires 0 <= i < |ts| => ts[i].wire)
  }

  /** All the copper of one walk through the grid, from a cell at one pad to a cell at another, with a stub to each. */
  ghost predicate LaidAlong(f: Fixed, net: string, a: Pad, b: Pad, path: seq<Grid.Cell>, n: nat, cuts: seq<nat>,
                            body: seq<Wire>, ws: seq<Wire>) {
    && f.Ok() && path != [] && Lay.Walkable(f.st, path) && AtPad(f, a, path[0]) && AtPad(f, b, path[|path| - 1])
    && Lay.IsCopper(f.st, path, net, a.centre, b.centre, n, cuts, body, ws)
  }

  ghost predicate JoinsPads(f: Fixed, net: string, a: Pad, b: Pad, ws: seq<Wire>) {
    exists path, n, cuts, body :: LaidAlong(f, net, a, b, path, n, cuts, body, ws)
  }

  /** A request's copper joins the pads it names. */
  ghost predicate MadeFor(f: Fixed, q: Request, ws: seq<Wire>) {
    var a, b := PadOf(f.pads, q.net, q.from), PadOf(f.pads, q.net, q.to);
    a.Some? && b.Some? && JoinsPads(f, q.net, a.value, b.value, ws)
  }

  /** A result's copper joins the pads of a request of its key, on its net. */
  ghost predicate Made(f: Fixed, k: string, r: Result) {
    exists q: Request :: Key(q) == k && q.net == r.net && MadeFor(f, q, WiresOf(r.tracks))
  }

  /** On one net a key tells the pads too, unless their names have bars in them. */
  lemma KeyTellsPads(a: Request, b: Request)
    requires a.net == b.net && Key(a) == Key(b) && '|' !in a.from && '|' !in a.to
    ensures a == b
  {
    var n := |a.net| + 1;
    var x, y := Key(a)[n..], Key(b)[n..];
    assert x == a.from + "|" + a.to && y == b.from + "|" + b.to;
    var i, j := |a.from|, |b.from|;
    assert y[j] == '|';
    forall m | 0 <= m < |x| && m != i ensures x[m] != '|' {
      assert x[m] == if m < i then a.from[m] else a.to[m - i - 1];
    }
    assert x[..i] == a.from && y[..j] == b.from && x[i + 1..] == a.to && y[j + 1..] == b.to;
  }

  /** No farther apart on either axis than one and a half times the pitch. */
  predicate Close(pitch: real, a: Pt, b: Pt) { CloseTo(a, b, 1.5 * pitch) }

  /** A cell at a pad that is on the grid is close to its centre. */
  lemma AtPadIsClose(f: Fixed, a: Pad, c: Grid.Cell)
    requires f.Ok() && AtPad(f, a, c) && OnGrid(f.st, f.e, a.centre) && f.e.nx > 0 && f.e.ny > 0
    ensures Close(f.st.pitch, a.centre, f.st.At(c)) && Close(f.st.pitch, f.st.At(c), a.centre)
  {
    var at := Nearest(f.st, f.e, a.centre, c.layer);
    NearestIsNearest(f.st, f.e, a.centre, c.layer, Grid.Cell(0, 0, c.layer));
    CentresApart(f.st, at, c);
    hide Nearest, Lay.Style.At, OnLayer, E.Times;
    OneStepAtMost(c.x - at.x, f.st.pitch);
    OneStepAtMost(c.y - at.y, f.st.pitch);
  }

  /** A route may leave a pad from any cell of the grid whose centre is within a pitch of the pad's, on a layer the pad
      has. */
  lemma AtPadReaches(f: Fixed, a: Pad, c: Grid.Cell)
    requires f.Ok() && OnGrid(f.st, f.e, a.centre) && f.e.Inside(c) && OnLayer(f.copperLayers, a, f.st.layers[c.layer])
    requires CloseTo(f.st.At(c), a.centre, f.st.pitch)
    ensures AtPad(f, a, c)
  {
    var at := Nearest(f.st, f.e, a.centre, c.layer);
    NearestIsNearest(f.st, f.e, a.centre, c.layer, c);
    CentresApart(f.st, at, c);
    hide Nearest, Lay.Style.At, OnLayer, E.Times, OnGrid;
    UnderTwoSteps(c.x - at.x, f.st.pitch);
    UnderTwoSteps(c.y - at.y, f.st.pitch);
  }

  lemma UnderTwoSteps(k: int, pitch: real)
    requires pitch > 0.0 && -1.5 * pitch <= E.Times(k as real, pitch) <= 1.5 * pitch
    ensures -1 <= k <= 1
  {
    Farther(2.0, k as real, pitch);
    Farther(k as real, -2.0, pitch);
  }

  lemma OneStepAtMost(k: int, pitch: real)
    requires -1 <= k <= 1 && pitch > 0.0
    ensures -pitch <= E.Times(k as real, pitch) <= pitch
  {
  }

  /** A route's copper is the runs and vias of a path through the grid, and besides them at most one stub at either end,
      each from a pad's centre to a cell close by. */
  lemma StubsAreShort(f: Fixed, q: Request, ws: seq<Wire>) returns (path: seq<Grid.Cell>, n: nat, cuts: seq<nat>,
                      body: seq<Wire>)
    requires MadeFor(f, q, ws) && f.e.nx > 0 && f.e.ny > 0
    ensures
      var a, b := PadOf(f.pads, q.net, q.from).value, PadOf(f.pads, q.net, q.to).value;
      && LaidAlong(f, q.net, a, b, path, n, cuts, body, ws) && body <= ws && |ws| <= |body| + 2
      && (OnGrid(f.st, f.e, a.centre) && OnGrid(f.st, f.e, b.centre) ==>
            forall i :: |body| <= i < |ws| ==> ws[i].Segment? && Close(f.st.pitch, ws[i].start, ws[i].end))
  {
    hide Nearest, OnLayer, Lay.StandsFor, Lay.Walkable, FirstPad, Lay.Style.At, OnGrid, Close;
    var a, b := PadOf(f.pads, q.net, q.from).value, PadOf(f.pads, q.net, q.to).value;
    path, n, cuts, body :| LaidAlong(f, q.net, a, b, path, n, cuts, body, ws);
    if OnGrid(f.st, f.e, a.centre) && OnGrid(f.st, f.e, b.centre) {
      AtPadIsClose(f, a, path[0]);
      AtPadIsClose(f, b, path[|path| - 1]);
    }
  }

  /** Main result on what a route is: in some order its pieces run unbroken from the centre of one pad to the centre of
      the other, changing layer only at vias, and leave and reach the pads on layers they have. */
  lemma RouteJoinsPads(f: Fixed, q: Request, ws: seq<Wire>) returns (chain: seq<Wire>, la: string, lb: string)
    requires MadeFor(f, q, ws)
    ensures multiset(chain) == multiset(ws)
    ensures
      var a, b := PadOf(f.pads, q.net, q.from).value, PadOf(f.pads, q.net, q.to).value;
      Lay.Links(chain, a.centre, la, b.centre, lb) && OnLayer(f.copperLayers, a, la) && OnLayer(f.copperLayers, b, lb)
  {
    hide Nearest, OnLayer, Lay.Links, Lay.IsCopper, FirstPad;
    var a, b := PadOf(f.pads, q.net, q.from).value, PadOf(f.pads, q.net, q.to).value;
    var path: seq<Grid.Cell>, n, cuts, body :| LaidAlong(f, q.net, a, b, path, n, cuts, body, ws);
    chain := Lay.PadsAreJoined(f.st, path, q.net, a.centre, b.centre, n, cuts, body, ws);
    la, lb := f.st.layers[path[0].layer], f.st.layers[path[|path| - 1].layer];
  }
}
