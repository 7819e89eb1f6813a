/** Trying to make one connection (route/lay.go): what each path tried must be, why it was refused, and how it may
    end. */
module Tries {
  import opened Routes
  import opened RouteState
  import AStar
  import Board
  import C = Clearance
  import E = Euclid
  import opened Geometry
  import Grid
  import Lay
  import RouteSpace

  /** How many paths are tried for one connection. */
  const MAX_TRIES := 12

  /** The board and the clearance index, as a search and a check see them. */
  datatype View = View(tracks: seq<Board.Track>, obs: seq<C.Obstacle>)

  /** Everything a run changes: what is seen, who holds each cell, the routes in the order they were laid, the results,
      how many names have been used, and how often it has been looked whether to stop. */
  datatype World = World(view: View, own: seq<string>, order: seq<string>, results: map<string, Result>, count: nat, looks: nat)

  // ---- cells about a path ----

  /** Next to a cell or on it, in the rows before `dy`, or that row's columns before `dx`. */
  predicate Beside(c: Grid.Cell, at: Grid.Cell, dy: int, dx: int) {
    && -1 <= c.x - at.x <= 1 && -1 <= c.y - at.y <= 1
    && (c.y - at.y < dy || (c.y - at.y == dy && c.x - at.x < dx))
  }

  predicate NearCell(k: Grid.Cell, c: Grid.Cell) { k.layer == c.layer && -1 <= k.x - c.x <= 1 && -1 <= k.y - c.y <= 1 }

  ghost predicate NearPath(k: Grid.Cell, path: seq<Grid.Cell>) { exists i :: 0 <= i < |path| && NearCell(k, path[i]) }

  /** Near is no farther than a pitch from centre to centre, on each axis, on one layer. */
  lemma NearIsAPitch(st: Lay.Style, k: Grid.Cell, c: Grid.Cell)
    requires st.pitch > 0.0
    ensures NearCell(k, c) <==> k.layer == c.layer && CloseTo(st.At(k), st.At(c), st.pitch)
  {
    CentresApart(st, c, k);
    hide Lay.Style.At;
    OneStepIs(k.x - c.x, st.pitch);
    OneStepIs(k.y - c.y, st.pitch);
    hide E.Times;
  }

  lemma OneStepIs(k: int, pitch: real)
    requires pitch > 0.0
    ensures -1 <= k <= 1 <==> -pitch <= E.Times(k as real, pitch) <= pitch
  {
    Farther(1.0, k as real, pitch);
    Farther(k as real, -1.0, pitch);
    Farther(k as real, 1.0, pitch);
    Farther(-1.0, k as real, pitch);
    E.Distribute(1.0, 0.0, pitch);
    hide E.Times;
  }

  /** Near a cell, in the rows and columns gone over so far. */
  predicate Visited(k: Grid.Cell, c: Grid.Cell, dy: int, dx: int) { k.layer == c.layer && Beside(k, c, dy, dx) }

  function AfterClaim(owner: string, near: bool, net: string): string { if near && owner == "" then net else owner }

  /** Free cells near the path are the net's; every other is as it was. */
  ghost predicate Claimed(e: Grid.Extent, before: seq<string>, after: seq<string>, path: seq<Grid.Cell>, net: string) {
    |before| == |after| == e.Size()
    && forall k :: e.Inside(k) ==> Grid.OwnerIn(e, after, k) == AfterClaim(Grid.OwnerIn(e, before, k), NearPath(k, path), net)
  }

  /** Laying a route takes the free cells near it from every other net, and no others; its own net may use what it
      could. */
  lemma ClaimMeans(e: Grid.Extent, before: seq<string>, after: seq<string>, path: seq<Grid.Cell>, net: string,
                   k: Grid.Cell,
                   other: string)
    requires Claimed(e, before, after, path, net) && net != "" && other != net
    ensures Grid.Usable(e, after, other, k) <==>
      Grid.Usable(e, before, other, k) && !(NearPath(k, path) && Grid.OwnerIn(e, before, k) == "")
    ensures Grid.Usable(e, after, net, k) <==> Grid.Usable(e, before, net, k)
  {
    hide Grid.OwnerIn, NearPath;
  }

  /** Cells near the path are nobody's to use; every other is as it was. */
  ghost predicate Blocked(e: Grid.Extent, before: seq<string>, after: seq<string>, path: seq<Grid.Cell>) {
    |before| == |after| == e.Size()
    && forall k :: e.Inside(k) ==> Grid.OwnerIn(e, after, k) == if NearPath(k, path) then Grid.BLOCKED else Grid.OwnerIn(e, before, k)
  }

  lemma BlockedNone(e: Grid.Extent, own: seq<string>)
    requires |own| == e.Size()
    ensures Blocked(e, own, own, [])
  {
  }

  lemma BlockedMore(e: Grid.Extent, own: seq<string>, mid: seq<string>, after: seq<string>, path: seq<Grid.Cell>,
                    c: Grid.Cell)
    requires Blocked(e, own, mid, path) && |after| == e.Size()
    requires forall k :: e.Inside(k) ==> Grid.OwnerIn(e, after, k) == if NearCell(k, c) then Grid.BLOCKED else Grid.OwnerIn(e, mid, k)
    ensures Blocked(e, own, after, path + [c])
  {
    hide Grid.OwnerIn, NearCell;
    forall k | e.Inside(k) ensures NearPath(k, path + [c]) <==> NearPath(k, path) || NearCell(k, c) { NearMore(k, path, c); }
  }

  lemma NearMore(k: Grid.Cell, path: seq<Grid.Cell>, c: Grid.Cell)
    ensures NearPath(k, path + [c]) <==> NearPath(k, path) || NearCell(k, c)
  {
    hide NearCell;
    var more := path + [c];
    if NearCell(k, c) { assert NearCell(k, more[|path|]); }
    if NearPath(k, path) {
      var i :| 0 <= i < |path| && NearCell(k, path[i]);
      assert NearCell(k, more[i]);
    }
  }

  /** The net's cells are free again; every other is as it was. */
  ghost predicate Released(e: Grid.Extent, before: seq<string>, after: seq<string>, net: string) {
    |before| == |after| == e.Size()
    && forall k :: e.Inside(k) ==> Grid.OwnerIn(e, after, k) == if Grid.OwnerIn(e, before, k) == net then "" else Grid.OwnerIn(e, before, k)
  }

  // ---- checking and searching ----

  /** About where along a path its `at`-th piece is. */
  function RefusedAt(n: nat, at: nat): (i: int)
    requires n > 0
    ensures 0 <= i < n
  {
    Clamp(at * n / (at + 1), 0, n - 1)
  }

  /** A piece of copper the checker has nothing against, on any layer it is checked on, its own net's copper excused. */
  ghost predicate Clean(f: Fixed, tracks: seq<Board.Track>, obs: seq<C.Obstacle>, w: Board.Wire) {
    forall l :: l in CheckLayers(f, w) ==> C.IsClear(f.rules, Offer(w, l, ExemptOf(f, tracks, w.net)), obs)
  }

  /** The cells of a path about a refused piece: two either side of where it must be. */
  function Span(path: seq<Grid.Cell>, at: nat): seq<Grid.Cell>
    requires path != []
  {
    var i := RefusedAt(|path|, at);
    path[Clamp(i - 2, 0, |path|)..Clamp(i + 3, 0, |path|)]
  }

  /** A via is in nothing's way, on whichever layer. */
  predicate ViaFits(rules: C.Settings, obs: seq<C.Obstacle>, layers: seq<string>, net: string, exempt: set<string>,
                    via: C.Shape) {
    forall l :: l in layers ==> C.IsClear(rules, C.Candidate([via], l, net, exempt, 0.0), obs)
  }

  /** Exactly the cells at a pad and next to it, on its layers, that the net may use. */
  ghost predicate LeadsFrom(f: Fixed, own: seq<string>, p: Pad, net: string, cells: seq<Grid.Cell>) {
    f.Ok() && |own| == f.e.Size() && forall c :: c in cells <==> AtPad(f, p, c) && Grid.Usable(f.e, own, net, c)
  }

  /** What a search takes as given: the grid, and a via wherever one clears everything on every layer. */
  ghost predicate IsSpace(f: Fixed, v: View, own: seq<string>, net: string, sp: RouteSpace.Space) {
    && |own| == f.e.Size() && sp.own == own && sp.e == f.e && sp.net == net
    && sp.pitch == f.st.pitch && sp.via == f.via && sp.bend == f.bend && sp.root2 == f.root2
    && forall c :: sp.viaOK(c) <==>
         ViaFits(f.rules, v.obs, f.copperLayers, net, ExemptOf(f, v.tracks, net), C.RoundPoly([f.st.At(c)], f.st.viaD / 2.0))
  }

  /** No legal path costs less. */
  ghost predicate Cheapest(f: Fixed, v: View, own: seq<string>, net: string, starts: seq<Grid.Cell>,
                           goals: seq<Grid.Cell>, path: seq<Grid.Cell>) {
    exists sp :: IsSpace(f, v, own, net, sp) && AStar.IsBest(sp, starts, goals, path)
  }

  /** No path is legal. */
  ghost predicate NoWay(f: Fixed, v: View, own: seq<string>, net: string, starts: seq<Grid.Cell>,
                        goals: seq<Grid.Cell>) {
    exists sp :: IsSpace(f, v, own, net, sp) && forall p :: !AStar.IsRoute(sp, starts, goals, p)
  }

  lemma LegalIsWalkable(st: Lay.Style, sp: RouteSpace.Space, starts: seq<Grid.Cell>, goals: seq<Grid.Cell>,
                        p: seq<Grid.Cell>)
    requires |sp.own| == sp.e.Size() && AStar.IsBest(sp, starts, goals, p) && st.pitch > 0.0
    requires sp.e.layers == |st.layers|
    ensures p != [] && Lay.Walkable(st, p)
  {
    assert AStar.IsRoute(sp, starts, goals, p);
    forall i | 0 <= i < |p| ensures 0 <= p[i].layer < |st.layers| {
      if i > 0 { assert sp.LegalStep(p[i - 1], p[i]); }
    }
    forall i | 0 <= i < |p| - 1 ensures Lay.Move(p[i], p[i + 1]) {
      assert sp.LegalStep(p[i], p[i + 1]);
    }
  }

  lemma CheapestIs(f: Fixed, v: View, own: seq<string>, net: string, starts: seq<Grid.Cell>, goals: seq<Grid.Cell>,
                   path: seq<Grid.Cell>)
    requires f.Ok() && Cheapest(f, v, own, net, starts, goals, path)
    ensures path != [] && Lay.Walkable(f.st, path) && path[0] in starts && path[|path| - 1] in goals
  {
    hide ViaFits, ExemptOf;
    var sp :| IsSpace(f, v, own, net, sp) && AStar.IsBest(sp, starts, goals, path);
    LegalIsWalkable(f.st, sp, starts, goals, path);
  }

  /** The cells about a refused piece are those up to two places either side of the one as far along the path, rounded
      down, as that piece is in the count of pieces up to it. */
  lemma SpanIs(path: seq<Grid.Cell>, at: nat, i: nat, c: Grid.Cell)
    requires path != [] && i * (at + 1) <= at * |path| < (i + 1) * (at + 1)
    ensures RefusedAt(|path|, at) == i
    ensures (c in Span(path, at) <==> exists j :: 0 <= j < |path| && i - 2 <= j <= i + 2 && path[j] == c)
  {
    RoundedDown(at * |path|, at + 1, i);
    RoundedDown(at * |path|, at + 1, at * |path| / (at + 1));
    assert i < |path| by { if i >= |path| { MoreParts(i, |path|, at); } }
    var lo, hi := Clamp(i - 2, 0, |path|), Clamp(i + 3, 0, |path|);
    if c in Span(path, at) {
      var k :| 0 <= k < hi - lo && path[lo..hi][k] == c;
      assert path[lo + k] == c;
    }
    if j :| 0 <= j < |path| && i - 2 <= j <= i + 2 && path[j] == c { assert path[lo..hi][j - lo] == c; }
  }

  lemma RoundedDown(n: nat, d: nat, i: nat)
    requires d > 0
    ensures (i * d <= n < (i + 1) * d <==> n / d == i) && (n / d) * d <= n
  {
    var q := n / d;
    assert q * d + n % d == n && 0 <= n % d < d;
    assert (q + 1) * d == q * d + d;
    if i < q { MoreRows(i + 1, q, d); }
    if i > q { MoreRows(q + 1, i, d); }
  }

  lemma MoreRows(a: int, b: int, d: nat)
    requires a <= b
    ensures a * d <= b * d
  {
  }

  lemma MoreParts(i: nat, n: nat, at: nat)
    requires i >= n > 0
    ensures i * (at + 1) > at * n
  {
    assert i * (at + 1) >= n * (at + 1) == n * at + n;
  }

  // ---- one connection ----

  /** A path that was refused: its copper, the first piece the rules would not have, and the grid once the cells about
      that piece are blocked. */
  datatype Try = Try(path: seq<Grid.Cell>, n: nat, ws: seq<Board.Wire>, bad: nat, after: seq<string>)

  /** All of a path's copper, from pad to pad. */
  ghost predicate CopperOfPath(f: Fixed, net: string, a: Pad, b: Pad, path: seq<Grid.Cell>, n: nat,
                               ws: seq<Board.Wire>) {
    path != [] && Lay.Walkable(f.st, path) && exists cuts, body :: Lay.IsCopper(f.st, path, net, a.centre, b.centre, n, cuts, body, ws)
  }

  ghost predicate Refused(f: Fixed, v: View, net: string, a: Pad, b: Pad, starts: seq<Grid.Cell>, goals: seq<Grid.Cell>,
                          own: seq<string>, t: Try)
  {
    && Cheapest(f, v, own, net, starts, goals, t.path) && CopperOfPath(f, net, a, b, t.path, t.n, t.ws)
    && t.bad < |t.ws| && !Clean(f, v.tracks, v.obs, t.ws[t.bad]) && (forall i :: 0 <= i < t.bad ==> Clean(f, v.tracks, v.obs, t.ws[i]))
    && Blocked(f.e, own, t.after, Span(t.path, t.bad))
  }

  /** The grid the refusals so far leave. */
  function GridAfter(own: seq<string>, log: seq<Try>): seq<string> { if log == [] then own else log[|log| - 1].after }

  /** Each path tried was a cheapest one through the grid the refusals before it left. */
  ghost predicate IsLog(f: Fixed, v: View, net: string, a: Pad, b: Pad, starts: seq<Grid.Cell>, goals: seq<Grid.Cell>,
                        own: seq<string>, log: seq<Try>) {
    forall i :: 0 <= i < |log| ==> Refused(f, v, net, a, b, starts, goals, GridAfter(own, log[..i]), log[i])
  }

  lemma LogMore(f: Fixed, v: View, net: string, a: Pad, b: Pad, starts: seq<Grid.Cell>, goals: seq<Grid.Cell>,
                own: seq<string>, log: seq<Try>, t: Try)
    requires IsLog(f, v, net, a, b, starts, goals, own, log)
    requires Refused(f, v, net, a, b, starts, goals, GridAfter(own, log), t)
    ensures IsLog(f, v, net, a, b, starts, goals, own, log + [t]) && GridAfter(own, log + [t]) == t.after
  {
    hide Refused, GridAfter;
    var more := log + [t];
    forall i | 0 <= i < |more| ensures Refused(f, v, net, a, b, starts, goals, GridAfter(own, more[..i]), more[i]) {
      assert more[..i] == log[..i];
      assert log[..|log|] == log;
    }
    LastGrid(own, log, t);
  }

  lemma LastGrid(own: seq<string>, log: seq<Try>, t: Try)
    ensures GridAfter(own, log + [t]) == t.after
  {
  }

  /** The cell where a path was refused, which is then nobody's. */
  function RefusedCell(t: Try): Grid.Cell
    requires t.path != []
  {
    t.path[RefusedAt(|t.path|, t.bad)]
  }

  lemma RefusedIsBlocked(f: Fixed, v: View, net: string, a: Pad, b: Pad, starts: seq<Grid.Cell>, goals: seq<Grid.Cell>,
                         own: seq<string>, t: Try)
    requires Refused(f, v, net, a, b, starts, goals, own, t)
    ensures t.path != [] && |t.after| == f.e.Size() && f.e.Inside(RefusedCell(t))
    ensures Grid.OwnerIn(f.e, t.after, RefusedCell(t)) == Grid.BLOCKED
  {
    hide Clean, CopperOfPath, ViaFits, ExemptOf, Grid.OwnerIn;
    var sp :| IsSpace(f, v, own, net, sp) && AStar.IsBest(sp, starts, goals, t.path);
    var i := RefusedAt(|t.path|, t.bad);
    if i > 0 { assert sp.LegalStep(t.path[i - 1], t.path[i]); }
    var lo := Clamp(i - 2, 0, |t.path|);
    assert Span(t.path, t.bad)[i - lo] == t.path[i];
    assert NearCell(t.path[i], Span(t.path, t.bad)[i - lo]);
  }

  /** Blocked cells stay blocked from one try to the next. */
  lemma {:induction false} StaysBlocked(f: Fixed, v: View, net: string, a: Pad, b: Pad, starts: seq<Grid.Cell>,
                                        goals: seq<Grid.Cell>, own: seq<string>, log: seq<Try>, i: nat, j: nat)
    requires IsLog(f, v, net, a, b, starts, goals, own, log) && i < j <= |log|
    ensures log[i].path != [] && |GridAfter(own, log[..j])| == f.e.Size() && f.e.Inside(RefusedCell(log[i]))
    ensures Grid.OwnerIn(f.e, GridAfter(own, log[..j]), RefusedCell(log[i])) == Grid.BLOCKED
    decreases j
  {
    hide RefusedCell, Cheapest, CopperOfPath, Clean, Grid.OwnerIn;
    RefusedIsBlocked(f, v, net, a, b, starts, goals, GridAfter(own, log[..j - 1]), log[j - 1]);
    assert log[..j][|log[..j]| - 1] == log[j - 1];
    if i < j - 1 { StaysBlocked(f, v, net, a, b, starts, goals, own, log, i, j - 1); }
  }

  lemma CheapestIsFree(f: Fixed, v: View, own: seq<string>, net: string, starts: seq<Grid.Cell>, goals: seq<Grid.Cell>,
                       path: seq<Grid.Cell>, k: nat)
    requires Cheapest(f, v, own, net, starts, goals, path) && k < |path|
    ensures |own| == f.e.Size() && Grid.Usable(f.e, own, net, path[k])
  {
    hide ViaFits, ExemptOf;
    var sp :| IsSpace(f, v, own, net, sp) && AStar.IsBest(sp, starts, goals, path);
    if k > 0 { assert sp.LegalStep(path[k - 1], path[k]); }
  }

  /** No path is tried twice for a connection: each refusal takes a cell of its path out of all the later ones. */
  lemma NoPathTwice(f: Fixed, v: View, net: string, a: Pad, b: Pad, starts: seq<Grid.Cell>, goals: seq<Grid.Cell>,
                    own: seq<string>, log: seq<Try>, i: nat, j: nat)
    requires IsLog(f, v, net, a, b, starts, goals, own, log) && i < j < |log| && net != Grid.BLOCKED
    ensures log[i].path != [] && RefusedCell(log[i]) in log[i].path && RefusedCell(log[i]) !in log[j].path
  {
    hide Cheapest, GridAfter, IsLog, Refused, Clean, CopperOfPath, Blocked, Grid.OwnerIn;
    StaysBlocked(f, v, net, a, b, starts, goals, own, log, i, j);
    var c := RefusedCell(log[i]);
    if c in log[j].path {
      var k :| 0 <= k < |log[j].path| && log[j].path[k] == c;
      TriedIsCheapest(f, v, net, a, b, starts, goals, own, log, j);
      CheapestIsFree(f, v, GridAfter(own, log[..j]), net, starts, goals, log[j].path, k);
    }
  }

  lemma TriedIsCheapest(f: Fixed, v: View, net: string, a: Pad, b: Pad, starts: seq<Grid.Cell>, goals: seq<Grid.Cell>,
                        own: seq<string>, log: seq<Try>, j: nat)
    requires IsLog(f, v, net, a, b, starts, goals, own, log) && j < |log|
    ensures Cheapest(f, v, GridAfter(own, log[..j]), net, starts, goals, log[j].path)
  {
  }

  /** A cheapest path whose copper the rules accept, laid: free cells about it are the net's. */
  ghost predicate LaidOn(f: Fixed, v: View, net: string, a: Pad, b: Pad, starts: seq<Grid.Cell>, goals: seq<Grid.Cell>,
                         own: seq<string>,
                         now: seq<string>, ws: seq<Board.Wire>, path: seq<Grid.Cell>, n: nat)
  {
    && Cheapest(f, v, own, net, starts, goals, path) && CopperOfPath(f, net, a, b, path, n, ws)
    && (forall w :: w in ws ==> Clean(f, v.tracks, v.obs, w)) && Claimed(f.e, own, now, path, net)
  }

  ghost predicate Accepts(f: Fixed, v: View, net: string, a: Pad, b: Pad, starts: seq<Grid.Cell>,
                          goals: seq<Grid.Cell>, own: seq<string>,
                          now: seq<string>, ws: seq<Board.Wire>)
  {
    exists path, n :: LaidOn(f, v, net, a, b, starts, goals, own, now, ws, path, n)
  }

  lemma CopperJoins(f: Fixed, net: string, a: Pad, b: Pad, path: seq<Grid.Cell>, n: nat, ws: seq<Board.Wire>)
    requires f.Ok() && CopperOfPath(f, net, a, b, path, n, ws) && AtPad(f, a, path[0]) && AtPad(f, b, path[|path| - 1])
    ensures JoinsPads(f, net, a, b, ws)
  {
    hide AtPad, Lay.IsCopper, Lay.Walkable;
    var cuts, body :| Lay.IsCopper(f.st, path, net, a.centre, b.centre, n, cuts, body, ws);
    assert LaidAlong(f, net, a, b, path, n, cuts, body, ws);
  }

  /** The board with this result's copper added, or as it was if the result does not stand; nothing else is different
      but the grid. */
  ghost predicate OnlyLaid(f: Fixed, k: string, w: World, w': World) {
    && k in w.results && k in w'.results
    && var r, r' := w.results[k], w'.results[k];
    && w'.results == w.results[k := r'] && r' == r.(routed := r'.routed, tracks := r'.tracks, attempts := r'.attempts)
    && if !r'.routed then r'.tracks == [] && w'.view == w.view && w'.order == w.order
       else
         && w'.view.tracks == w.view.tracks + r'.tracks && w'.order == w.order + [k]
         && C.Live(w'.view.obs) == C.Live(w.view.obs) + Obstacles(f, r'.tracks)
  }

  /** How trying to make a connection may end: a pad is missing; or after some refusals, each of a cheapest path through
      what the refusals before it left, a cheapest path is accepted and laid, or there are no cells to begin or end at,
      or there is no way left, or as many as are tried were refused. A search proves nothing if it was halted, which is
      only on being told to stop. */
  ghost predicate Ended(f: Fixed, q: Request, w: World, w': World, starts: seq<Grid.Cell>, goals: seq<Grid.Cell>,
                        log: seq<Try>, halted: bool) {
    var k, from, to := Key(q), PadOf(f.pads, q.net, q.from), PadOf(f.pads, q.net, q.to);
    && OnlyLaid(f, k, w, w')
    && var r, tries := w'.results[k], w'.results[k].attempts - w.results[k].attempts;
    && w'.looks == w.looks + tries && (halted ==> w'.looks > 0 && Told(f, w'.looks - 1))
    && if from.None? || to.None? then !r.routed && !halted && w'.own == w.own && log == [] && tries == 0
    else
      && LeadsFrom(f, w.own, from.value, q.net, starts) && LeadsFrom(f, w.own, to.value, q.net, goals)
      && IsLog(f, w.view, q.net, from.value, to.value, starts, goals, w.own, log)
      && var left := GridAfter(w.own, log);
      if r.routed then
        && |log| < MAX_TRIES && tries == |log| + 1 && !halted
        && Accepts(f, w.view, q.net, from.value, to.value, starts, goals, left, w'.own, WiresOf(r.tracks))
      else
        && w'.own == left
        && if starts == [] || goals == [] then log == [] && tries == 0 && !halted
           else if |log| == MAX_TRIES then tries == MAX_TRIES && !halted
           else |log| < MAX_TRIES && tries == |log| + 1 && (halted || NoWay(f, w.view, left, q.net, starts, goals))
  }

  /** Somewhere in the search begun at this look the answer was to stop. */
  ghost predicate Told(f: Fixed, look: nat) { exists pops: nat :: f.stop(look, pops) }

  /** Trying a request: nothing, if it is made already. */
  ghost predicate OneStep(f: Fixed, q: Request, w: World, w': World, halted: bool) {
    if Key(q) in w.results && w.results[Key(q)].routed then w' == w && !halted
    else exists starts, goals, log :: Ended(f, q, w, w', starts, goals, log, halted)
  }

  /** A request's turn, if it is not to stop before it. */
  ghost predicate TryStep(f: Fixed, q: Request, w: World, w': World, halted: bool) {
    !f.stop(w.looks, 0) && OneStep(f, q, w.(looks := w.looks + 1), w', halted)
  }

  // ---- turn after turn ----

  /** At this point of a run everything agrees. */
  ghost predicate WorldOk(f: Fixed, s: Start, w: World) { Sound(f, s, w.view.tracks, C.Live(w.view.obs), w.order, w.results, w.count) }

  /** Requests have had their turns, one after another; so many as were halted or not. */
  ghost predicate Turns(f: Fixed, s: Start, queue: seq<Request>, worlds: seq<World>, halts: seq<bool>) {
    && |worlds| == |halts| + 1 && |halts| <= |queue| && (forall w :: w in worlds ==> WorldOk(f, s, w))
    && forall i :: 0 <= i < |halts| ==> TryStep(f, queue[i], worlds[i], worlds[i + 1], halts[i])
  }

  lemma TurnsMore(f: Fixed, s: Start, queue: seq<Request>, worlds: seq<World>, halts: seq<bool>, w: World, halted: bool)
    requires Turns(f, s, queue, worlds, halts) && |halts| < |queue| && WorldOk(f, s, w)
    requires TryStep(f, queue[|halts|], worlds[|halts|], w, halted)
    ensures Turns(f, s, queue, worlds + [w], halts + [halted])
  {
    hide TryStep, WorldOk;
  }

  predicate IsMade(q: Request, w: World) { Key(q) in w.results && w.results[Key(q)].routed }

  /** The requests that were not made in their turn. */
  function Failures(queue: seq<Request>, worlds: seq<World>, n: nat): seq<Request>
    requires n <= |queue| && n < |worlds|
  {
    if n == 0 then [] else Failures(queue, worlds, n - 1) + if IsMade(queue[n - 1], worlds[n]) then [] else [queue[n - 1]]
  }

  lemma {:induction false} FailuresSame(queue: seq<Request>, worlds: seq<World>, w: World, n: nat)
    requires n <= |queue| && n < |worlds|
    ensures Failures(queue, worlds + [w], n) == Failures(queue, worlds, n)
  {
    hide IsMade;
    if n > 0 { FailuresSame(queue, worlds, w, n - 1); }
  }

  /** The cells of these nets are free again; every other is as it was. */
  ghost predicate AllReleased(e: Grid.Extent, before: seq<string>, after: seq<string>, nets: set<string>) {
    |before| == |after| == e.Size()
    && forall k :: e.Inside(k) ==> Grid.OwnerIn(e, after, k) == if Grid.OwnerIn(e, before, k) in nets then "" else Grid.OwnerIn(e, before, k)
  }

  lemma ReleasedToo(e: Grid.Extent, own: seq<string>, mid: seq<string>, after: seq<string>, nets: set<string>,
                    more: set<string>)
    requires AllReleased(e, own, mid, nets) && AllReleased(e, mid, after, more)
    ensures AllReleased(e, own, after, nets + more)
  {
    hide Grid.OwnerIn;
  }

  lemma NoneReleased(e: Grid.Extent, own: seq<string>)
    requires |own| == e.Size()
    ensures AllReleased(e, own, own, {})
  {
  }

  lemma OneReleased(e: Grid.Extent, own: seq<string>, after: seq<string>, net: string)
    requires Released(e, own, after, net)
    ensures AllReleased(e, own, after, {net})
  {
  }

  /** A list with some entries left out. */
  function Dropped(order: seq<string>, gone: set<string>): seq<string> {
    if order == [] then []
    else
      var rest := Dropped(order[..|order| - 1], gone);
      if order[|order| - 1] in gone then rest else rest + [order[|order| - 1]]
  }

  lemma {:induction false} DroppedTwice(order: seq<string>, a: set<string>, b: set<string>)
    ensures Dropped(Dropped(order, a), b) == Dropped(order, a + b)
  {
    if order != [] {
      var n := |order| - 1;
      DroppedTwice(order[..n], a, b);
      if order[n] !in a { assert (Dropped(order[..n], a) + [order[n]])[..|Dropped(order[..n], a)|] == Dropped(order[..n], a); }
    }
  }

  lemma {:induction false} DroppedNone(order: seq<string>, gone: set<string>)
    requires forall k :: k in order ==> k !in gone
    ensures Dropped(order, gone) == order
  {
    if order != [] {
      assert order == order[..|order| - 1] + [order[|order| - 1]];
      DroppedNone(order[..|order| - 1], gone);
    }
  }

  lemma {:induction false} DroppedConcat(a: seq<string>, b: seq<string>, gone: set<string>)
    ensures Dropped(a + b, gone) == Dropped(a, gone) + Dropped(b, gone)
  {
    if b == [] {
      assert a + b == a;
    } else {
      assert (a + b)[..|a + b| - 1] == a + b[..|b| - 1];
      DroppedConcat(a, b[..|b| - 1], gone);
    }
  }

  lemma DroppedOne(a: seq<string>, k: string, b: seq<string>)
    requires k !in a && k !in b
    ensures Dropped(a + [k] + b, {k}) == a + b
  {
    DroppedConcat(a + [k], b, {k});
    DroppedConcat(a, [k], {k});
    DroppedNone(a, {k});
    DroppedNone(b, {k});
    assert Dropped([k], {k}) == [];
  }

  function KeysOf(vs: seq<Request>): set<string> { set v | v in vs :: Key(v) }

  /** The nets of the routes taken up for these requests. */
  ghost function NetsOf(vs: seq<Request>, rs: map<string, Result>): set<string> {
    set v | v in vs && Key(v) in rs && rs[Key(v)].routed :: rs[Key(v)].net
  }
}
