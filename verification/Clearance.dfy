/** Clearance checking (drc/drc.go): what copper has to keep away from, found through a coarse grid
    index that is edited as the board is. */
module Clearance {
  import opened Common
  import opened Geometry
  import opened Sorting

  // ---- shapes ----

  /** The points within `r` of an outline. */
  datatype RoundPoly = RoundPoly(pts: seq<Pt>, r: real)

  type Shape = s: RoundPoly | s.pts != [] && s.r >= 0.0 witness RoundPoly([Pt(0.0, 0.0)], 0.0)

  function Bounds(pts: seq<Pt>): (b: Rect)
    requires pts != []
    ensures b.Proper()
  {
    var p := pts[|pts| - 1];
    var one := Rect(p.x, p.y, p.x, p.y);
    if |pts| == 1 then one else Bounds(pts[..|pts| - 1]).Union(one)
  }

  function Box(s: Shape): (b: Rect)
    ensures b.Proper()
  {
    Bounds(s.pts).Grow(s.r)
  }

  /** A shape's box is within just what all that is close to its points is within. */
  lemma {:induction false} BoxIsLeast(s: Shape, b: Rect)
    ensures Box(s).Within(b) <==> forall p, q :: p in s.pts && CloseTo(p, q, s.r) ==> b.Contains(q)
    decreases |s.pts|
  {
    var p := s.pts[|s.pts| - 1];
    assert s.pts == s.pts[..|s.pts| - 1] + [p];
    OnePointsBox(p, s.r, b);
    if |s.pts| > 1 {
      var rest: Shape := RoundPoly(s.pts[..|s.pts| - 1], s.r);
      BoxIsLeast(rest, b);
      assert Box(s) == Box(rest).Union(Rect(p.x, p.y, p.x, p.y).Grow(s.r));
      UnionIsLeast(Box(rest), Rect(p.x, p.y, p.x, p.y).Grow(s.r), b);
    }
    hide Box, Bounds, CloseTo;
  }

  lemma OnePointsBox(p: Pt, r: real, b: Rect)
    requires r >= 0.0
    ensures Rect(p.x, p.y, p.x, p.y).Grow(r).Within(b) <==> forall q :: CloseTo(p, q, r) ==> b.Contains(q)
  {
    assert CloseTo(p, Pt(p.x - r, p.y - r), r) && CloseTo(p, Pt(p.x + r, p.y + r), r);
  }

  /** The one thing asked of a distance between shapes: closer than `m` means the boxes are too. */
  ghost predicate Lawful(dist: (Shape, Shape) -> real) {
    forall a: Shape, b: Shape, m: real :: dist(a, b) < m ==> Box(b).Overlaps(Box(a).Grow(m))
  }

  // ---- what is on the board, and the rules ----

  datatype Obstacle = Obstacle(shape: Shape, layer: string, net: string, kind: string, ref: string,
                               edge: bool, dead: bool)

  datatype Candidate = Candidate(shapes: seq<Shape>, layer: string, net: string, exempt: set<string>,
                                 minClearance: real)

  datatype ClearanceZone = ClearanceZone(area: Rect, minClearance: real)

  datatype Violation = Violation(kind: string, ref: string, net: string, layer: string,
                                 required: real, actual: real, at: Pt)

  /** Everything a clearance depends on besides the copper. `rule` is the board's custom rules, where it has
      any; `comp` are the areas the open-field clearance does not reach. */
  datatype Settings = Settings(
    dist: (Shape, Shape) -> real, clearanceOf: string -> real, edgeClearance: real, sameNetGap: real,
    rule: Option<(string, Rect, Obstacle) -> Option<real>>, relax: bool, zones: seq<ClearanceZone>,
    open: real, coupled: map<string, string>, comp: seq<Rect>)
  {
    ghost predicate Sane() {
      edgeClearance >= 0.0 && sameNetGap >= 0.0 && open >= 0.0 && forall n :: clearanceOf(n) >= 0.0
    }
  }

  /** The net a net is coupled to; none is no name at all. */
  function MateOf(s: Settings, net: string): string { if net in s.coupled then s.coupled[net] else "" }

  /** Whether two nets are taken for the halves of one differential pair. */
  predicate PairOf(s: Settings, a: string, b: string) { MateOf(s, a) == b || MateOf(s, b) == a }

  /** The widest spacing any zone around both boxes asks for, none being zero. */
  function ZoneClearance(zones: seq<ClearanceZone>, a: Rect, b: Rect): real {
    if zones == [] then 0.0
    else
      var z := zones[|zones| - 1];
      var rest := ZoneClearance(zones[..|zones| - 1], a, b);
      if z.area.Overlaps(a) && z.area.Overlaps(b) then Max(rest, z.minClearance) else rest
  }

  predicate Around(comp: seq<Rect>, r: Rect) {
    exists k :: 0 <= k < |comp| && comp[k].Overlaps(r)
  }

  /** What two boxes have in common; the second of them, if they are apart. */
  function Shared(a: Rect, b: Rect): Rect {
    var r := Rect(Max(a.minX, b.minX), Max(a.minY, b.minY), Min(a.maxX, b.maxX), Min(a.maxY, b.maxY));
    if r.minX > r.maxX || r.minY > r.maxY then b else r
  }

  function ByRules(s: Settings, net: string, o: Obstacle, box: Rect, req: real): real {
    if s.rule.None? then req
    else
      match s.rule.value(net, box, o)
      case None => req
      case Some(v) => if s.relax || v > req then v else req
  }

  /** The clearance one obstacle asks of a candidate on `net` whose extent is `box`. */
  function Required(s: Settings, net: string, o: Obstacle, netClear: real, box: Rect): real {
    if o.edge then s.edgeClearance
    else if o.net == net then if o.kind == "zone" || o.kind == "pad" then 0.0 else s.sameNetGap
    else
      var req := ByRules(s, net, o, box, Max(netClear, s.clearanceOf(o.net)));
      if PairOf(s, net, o.net) then req
      else
        var zoned := Max(req, ZoneClearance(s.zones, box, Box(o.shape)));
        if s.open > zoned && !Around(s.comp, Shared(box.Grow(s.open), Box(o.shape).Grow(s.open))) then s.open
        else zoned
  }

  // ---- where more space is asked for ----

  /** Two nets that are coupled. */
  predicate Coupled(s: Settings, a: string, b: string) {
    (a in s.coupled && s.coupled[a] == b) || (b in s.coupled && s.coupled[b] == a)
  }

  /** Copper with no net beside a net that is coupled to none. */
  predicate NoNetBeside(s: Settings, a: string, b: string) { (b == "" && a !in s.coupled) || (a == "" && b !in s.coupled) }

  /** The settings with this spacing asked for and no other. */
  ghost function WithSpacing(s: Settings, zones: seq<ClearanceZone>, open: real): Settings {
    s.(zones := zones, open := open, comp := [])
  }

  ghost predicate AsksMore(s: Settings, zones: seq<ClearanceZone>, open: real, net: string, o: Obstacle,
                           netClear: real, box: Rect) {
    Required(WithSpacing(s, zones, open), net, o, netClear, box) > Required(WithSpacing(s, [], 0.0), net, o, netClear, box)
  }

  /** A zone can ask more of copper on these two nets than the other rules do. */
  ghost predicate ZonesReach(s: Settings, net: string, other: string) {
    exists zones: seq<ClearanceZone>, o: Obstacle, netClear: real, box: Rect ::
      o.net == other && !o.edge && AsksMore(s, zones, 0.0, net, o, netClear, box)
  }

  /** So can the open-field clearance. */
  ghost predicate OpenReaches(s: Settings, net: string, other: string) {
    exists open: real, o: Obstacle, netClear: real, box: Rect ::
      o.net == other && !o.edge && AsksMore(s, [], open, net, o, netClear, box)
  }

  /** Zone and open-field clearances reach copper of two nets unless the nets are coupled, or one piece has no net and
      the other's net is coupled to none: a net looked up in vain reads as coupled to no name. */
  lemma SpacingReachesIff(s: Settings, net: string, other: string)
    requires net != other
    ensures ZonesReach(s, net, other) <==> !Coupled(s, net, other) && !NoNetBeside(s, net, other)
    ensures OpenReaches(s, net, other) <==> !Coupled(s, net, other) && !NoNetBeside(s, net, other)
  {
    hide Around;
    if !PairOf(s, net, other) {
      var sh: Shape := RoundPoly([Pt(0.0, 0.0)], 0.0);
      var o := Obstacle(sh, "", other, "", "", false, false);
      var box := Box(sh);
      var req := Required(WithSpacing(s, [], 0.0), net, o, 0.0, box);
      ZoneOfOne(box, AbsR(req) + 1.0, box);
      assert AsksMore(s, [ClearanceZone(box, AbsR(req) + 1.0)], 0.0, net, o, 0.0, box);
      NothingAround();
      SameByRules(s, [], AbsR(req) + 1.0, net, o, box, Max(0.0, s.clearanceOf(other)));
      assert AsksMore(s, [], AbsR(req) + 1.0, net, o, 0.0, box);
    } else {
      hide ByRules;
      forall zones: seq<ClearanceZone>, open: real, o: Obstacle, netClear: real, box: Rect | o.net == other && !o.edge
        ensures !AsksMore(s, zones, open, net, o, netClear, box)
      {
        SameByRules(s, zones, open, net, o, box, Max(netClear, s.clearanceOf(other)));
      }
    }
  }

  lemma SameByRules(s: Settings, zones: seq<ClearanceZone>, open: real, net: string, o: Obstacle, box: Rect, req: real)
    ensures ByRules(WithSpacing(s, zones, open), net, o, box, req) == ByRules(WithSpacing(s, [], 0.0), net, o, box, req)
  {
  }

  lemma NothingAround()
    ensures forall r :: !Around([], r)
  {
  }

  lemma ZoneOfOne(area: Rect, clearance: real, box: Rect)
    requires area == box && box.Proper()
    ensures ZoneClearance([ClearanceZone(area, clearance)], box, box) == Max(0.0, clearance)
  {
    assert [ClearanceZone(area, clearance)][..0] == [];
  }

  /** The floor is not kept from a pad without a net, though nothing couples the two: half a millimetre is wanted in the
      open, and three tenths are let pass. */
  lemma PadWithoutNet(dist: (Shape, Shape) -> real, sh: Shape, pad: Shape)
    requires dist(sh, pad) == 0.3
    ensures
      var s := Settings(dist, (net: string) => 0.1, 0.0, 0.0, None, false, [], 0.5, map[], []);
      var o := Obstacle(pad, "F.Cu", "", "pad", "U1.1", false, false);
      var cand := Candidate([sh], "F.Cu", "A", {}, 0.0);
      Required(s, "A", o, NetClear(s, cand), Box(sh)) == 0.1 && IsClear(s, cand, [o])
      && Required(s, "A", o.(net := "B"), NetClear(s, cand), Box(sh)) == 0.5
  {
    hide Box;
  }

  function NetClear(s: Settings, cand: Candidate): real { Max(s.clearanceOf(cand.net), cand.minClearance) }

  function WidestZone(zones: seq<ClearanceZone>, widest: real): (w: real)
    ensures w >= widest
    ensures forall z :: z in zones ==> z.minClearance <= w
  {
    if zones == [] then widest
    else WidestZone(zones[1..], Max(widest, zones[0].minClearance))
  }

  /** How far out obstacles are looked for. */
  function SearchMargin(s: Settings, netClear: real): real {
    WidestZone(s.zones, Max(Max(netClear, s.edgeClearance), s.open)) + s.sameNetGap
  }

  // ---- what counts as a clash ----

  /** Too close, among the obstacles this candidate has to clear at all. */
  predicate Clashes(s: Settings, cand: Candidate, sh: Shape, o: Obstacle) {
    && !o.dead && (o.edge || o.layer == cand.layer) && !(o.ref != "" && o.ref in cand.exempt)
    && Required(s, cand.net, o, NetClear(s, cand), Box(sh)) > 0.0
    && s.dist(sh, o.shape) < Required(s, cand.net, o, NetClear(s, cand), Box(sh))
  }

  predicate InReach(s: Settings, cand: Candidate, sh: Shape, o: Obstacle) {
    Box(o.shape).Overlaps(Box(sh).Grow(SearchMargin(s, NetClear(s, cand))))
  }

  /** A clash the checker looks far enough to see. */
  predicate Hits(s: Settings, cand: Candidate, sh: Shape, o: Obstacle) {
    InReach(s, cand, sh, o) && Clashes(s, cand, sh, o)
  }

  /** The checker's answer, as a statement about a list of obstacles and no index. */
  predicate IsClear(s: Settings, cand: Candidate, obs: seq<Obstacle>) {
    forall sh, o :: sh in cand.shapes && o in obs ==> !Hits(s, cand, sh, o)
  }

  /** What the rules ask, looking at every obstacle. */
  ghost predicate ScanClear(s: Settings, cand: Candidate, obs: seq<Obstacle>) {
    forall sh, o :: sh in cand.shapes && o in obs ==> !Clashes(s, cand, sh, o)
  }

  function Key(kind: string, ref: string, net: string): string { kind + "|" + ref + "|" + net }

  function KeyOf(o: Obstacle): string { Key(o.kind, o.ref, o.net) }

  ghost predicate HitByKey(s: Settings, cand: Candidate, obs: seq<Obstacle>, key: string) {
    exists sh, o :: sh in cand.shapes && o in obs && Hits(s, cand, sh, o) && KeyOf(o) == key
  }

  // ---- the index ----

  datatype Cell = Cell(x: int, y: int)

  /** Which row or column of cells, two millimetres wide, a coordinate falls in. */
  function CellOf(v: real): int { (v / 2.0).Floor }

  lemma CellOfIsMonotone(a: real, b: real)
    requires a <= b
    ensures CellOf(a) <= CellOf(b)
  {
  }

  predicate Covers(b: Rect, c: Cell) {
    CellOf(b.minX) <= c.x <= CellOf(b.maxX) && CellOf(b.minY) <= c.y <= CellOf(b.maxY)
  }

  predicate Listed(index: map<Cell, seq<nat>>, c: Cell, i: nat) { c in index && i in index[c] }

  /** Every box is listed in exactly the cells it covers. */
  ghost predicate Indexes(index: map<Cell, seq<nat>>, boxes: seq<Rect>) {
    forall c: Cell, i: nat :: Listed(index, c, i) <==> i < |boxes| && Covers(boxes[i], c)
  }

  function BoxesOf(obs: seq<Obstacle>): seq<Rect> {
    seq(|obs|, i requires 0 <= i < |obs| => Box(obs[i].shape))
  }

  /** Boxes that meet are found in a common cell: nothing near is missed. */
  lemma MeetingBoxesShareACell(a: Rect, b: Rect) returns (c: Cell)
    requires a.Proper() && b.Proper() && a.Overlaps(b)
    ensures Covers(a, c) && Covers(b, c)
  {
    hide CellOf;
    var x, y := Max(a.minX, b.minX), Max(a.minY, b.minY);
    c := Cell(CellOf(x), CellOf(y));
    CellOfIsMonotone(a.minX, x);
    CellOfIsMonotone(b.minX, x);
    CellOfIsMonotone(x, a.maxX);
    CellOfIsMonotone(x, b.maxX);
    CellOfIsMonotone(a.minY, y);
    CellOfIsMonotone(b.minY, y);
    CellOfIsMonotone(y, a.maxY);
    CellOfIsMonotone(y, b.maxY);
  }

  lemma MeetingIsListed(index: map<Cell, seq<nat>>, boxes: seq<Rect>, i: nat, r: Rect) returns (c: Cell)
    requires Indexes(index, boxes) && i < |boxes| && boxes[i].Proper() && r.Proper() && boxes[i].Overlaps(r)
    ensures Covers(r, c) && Listed(index, c, i)
  {
    c := MeetingBoxesShareACell(boxes[i], r);
  }

  predicate InRows(b: Rect, x: int, c: Cell) { Covers(b, c) && c.x < x }

  predicate InRun(b: Rect, x: int, y: int, c: Cell) { Covers(b, c) && (c.x < x || (c.x == x && c.y < y)) }

  /** Lists box `i` in every cell it covers. */
  method IndexBox(index: map<Cell, seq<nat>>, box: Rect, i: nat) returns (out: map<Cell, seq<nat>>)
    ensures forall c: Cell, j: nat :: Listed(out, c, j) <==> Listed(index, c, j) || (j == i && Covers(box, c))
  {
    hide CellOf;
    out := index;
    var x := CellOf(box.minX);
    while x <= CellOf(box.maxX)
      invariant CellOf(box.minX) <= x
      invariant forall c: Cell, j: nat :: Listed(out, c, j) <==> Listed(index, c, j) || (j == i && InRows(box, x, c))
    {
      var y := CellOf(box.minY);
      while y <= CellOf(box.maxY)
        invariant CellOf(box.minY) <= y
        invariant forall c: Cell, j: nat :: Listed(out, c, j) <==> Listed(index, c, j) || (j == i && InRun(box, x, y, c))
      {
        var c := Cell(x, y);
        ghost var before := out;
        out := out[c := (if c in out then out[c] else []) + [i]];
        assert forall e: Cell, j: nat :: Listed(out, e, j) <==> Listed(before, e, j) || (j == i && e == c);
        y := y + 1;
      }
      x := x + 1;
    }
  }

  // ---- editing, on the list alone ----

  /** The obstacles still on the board, in order. */
  function Live(obs: seq<Obstacle>): seq<Obstacle> {
    if obs == [] then []
    else
      var o := obs[|obs| - 1];
      if o.dead then Live(obs[..|obs| - 1]) else Live(obs[..|obs| - 1]) + [o]
  }

  function WithoutRef(obs: seq<Obstacle>, ref: string): seq<Obstacle> {
    if obs == [] then []
    else
      var o := obs[|obs| - 1];
      if o.ref == ref then WithoutRef(obs[..|obs| - 1], ref) else WithoutRef(obs[..|obs| - 1], ref) + [o]
  }

  lemma {:induction false} LiveConcat(a: seq<Obstacle>, b: seq<Obstacle>)
    ensures Live(a + b) == Live(a) + Live(b)
  {
    if b == [] {
      assert a + b == a;
    } else {
      assert (a + b)[..|a + b| - 1] == a + b[..|b| - 1];
      LiveConcat(a, b[..|b| - 1]);
    }
  }

  lemma {:induction false} LiveHolds(obs: seq<Obstacle>, o: Obstacle)
    ensures o in Live(obs) <==> o in obs && !o.dead
  {
    if obs != [] {
      LiveHolds(obs[..|obs| - 1], o);
      assert obs == obs[..|obs| - 1] + [obs[|obs| - 1]];
    }
  }

  lemma {:induction false} WithoutConcat(a: seq<Obstacle>, b: seq<Obstacle>, ref: string)
    ensures WithoutRef(a + b, ref) == WithoutRef(a, ref) + WithoutRef(b, ref)
  {
    if b == [] {
      assert a + b == a;
    } else {
      assert (a + b)[..|a + b| - 1] == a + b[..|b| - 1];
      WithoutConcat(a, b[..|b| - 1], ref);
    }
  }

  /** Marking every obstacle with a reference as dead takes exactly those out of the live list. */
  lemma {:induction false} MarkingIsRemoving(before: seq<Obstacle>, after: seq<Obstacle>, ref: string)
    requires |after| == |before|
    requires forall i :: 0 <= i < |before| ==> after[i] == if before[i].ref == ref then before[i].(dead := true) else before[i]
    ensures Live(after) == WithoutRef(Live(before), ref)
  {
    if before != [] {
      var n := |before| - 1;
      MarkingIsRemoving(before[..n], after[..n], ref);
      if !before[n].dead {
        var l := Live(before[..n]) + [before[n]];
        assert l[..|l| - 1] == Live(before[..n]);
      }
    }
  }

  /** The same obstacles, in whatever order and however often listed. */
  ghost predicate SameElements(a: seq<Obstacle>, b: seq<Obstacle>) { forall o :: o in a <==> o in b }

  lemma DeadNeverHit(s: Settings, cand: Candidate, obs: seq<Obstacle>)
    ensures IsClear(s, cand, obs) <==> IsClear(s, cand, Live(obs))
    ensures forall key :: HitByKey(s, cand, obs, key) <==> HitByKey(s, cand, Live(obs), key)
  {
    hide InReach, Required, Live;
    forall o ensures o in Live(obs) <==> o in obs && !o.dead { LiveHolds(obs, o); }
    forall key ensures HitByKey(s, cand, obs, key) <==> HitByKey(s, cand, Live(obs), key) {}
  }

  /** Two lists with the same live obstacles give the same answers: the same verdict from Clear, and the same
      clashes named by Check. An edited checker therefore answers as one built afresh. */
  lemma SameLiveSameAnswers(s: Settings, cand: Candidate, a: seq<Obstacle>, b: seq<Obstacle>)
    requires SameElements(Live(a), Live(b))
    ensures IsClear(s, cand, a) <==> IsClear(s, cand, b)
    ensures forall key :: HitByKey(s, cand, a, key) <==> HitByKey(s, cand, b, key)
  {
    hide Hits, Live;
    DeadNeverHit(s, cand, a);
    DeadNeverHit(s, cand, b);
  }

  /** A checker's board being edited: copper laid, or taken off by its reference. */
  datatype Edit = Laid(t: Copper) | Taken(ref: string)

  function ObstaclesOfAll(ts: seq<Copper>): seq<Obstacle> {
    if ts == [] then []
    else
      var t := ts[|ts| - 1];
      ObstaclesOfAll(ts[..|ts| - 1]) + ObstaclesOf(t, |t.shapes|)
  }

  function Kept(ts: seq<Copper>, ref: string): seq<Copper> {
    if ts == [] then []
    else
      var t := ts[|ts| - 1];
      if t.ref == ref then Kept(ts[..|ts| - 1], ref) else Kept(ts[..|ts| - 1], ref) + [t]
  }

  /** The board's copper after some edits. */
  function CopperAfter(ts: seq<Copper>, edits: seq<Edit>): seq<Copper> {
    if edits == [] then ts
    else
      var before := CopperAfter(ts, edits[..|edits| - 1]);
      match edits[|edits| - 1]
      case Laid(t) => before + [t]
      case Taken(ref) => Kept(before, ref)
  }

  /** A checker's live obstacles after AddTrack and RemoveRef are called accordingly. */
  function LiveAfter(live: seq<Obstacle>, edits: seq<Edit>): seq<Obstacle> {
    if edits == [] then live
    else
      var before := LiveAfter(live, edits[..|edits| - 1]);
      match edits[|edits| - 1]
      case Laid(t) => before + ObstaclesOf(t, |t.shapes|)
      case Taken(ref) => if ref == "" then before else WithoutRef(before, ref)
  }

  lemma {:induction false} LayersNamed(c: Copper, sh: Shape, n: nat, ref: string)
    requires n <= |c.layers|
    ensures WithoutRef(OnLayers(c, sh, n), ref) == if c.ref == ref then [] else OnLayers(c, sh, n)
  {
    if n > 0 {
      LayersNamed(c, sh, n - 1, ref);
      var l := OnLayers(c, sh, n);
      assert l[..|l| - 1] == OnLayers(c, sh, n - 1);
    }
  }

  lemma {:induction false} CopperNamed(c: Copper, n: nat, ref: string)
    requires n <= |c.shapes|
    ensures WithoutRef(ObstaclesOf(c, n), ref) == if c.ref == ref then [] else ObstaclesOf(c, n)
  {
    if n > 0 {
      var a, b := ObstaclesOf(c, n - 1), OnLayers(c, c.shapes[n - 1], |c.layers|);
      assert ObstaclesOf(c, n) == a + b;
      hide *;
      CopperNamed(c, n - 1, ref);
      LayersNamed(c, c.shapes[n - 1], |c.layers|, ref);
      WithoutConcat(a, b, ref);
    }
  }

  /** Taking a reference off the obstacles is taking its copper off the board. */
  lemma {:induction false} TakenEverywhere(ts: seq<Copper>, ref: string)
    ensures WithoutRef(ObstaclesOfAll(ts), ref) == ObstaclesOfAll(Kept(ts, ref))
  {
    if ts != [] {
      var init, t := ts[..|ts| - 1], ts[|ts| - 1];
      TakenEverywhere(init, ref);
      CopperNamed(t, |t.shapes|, ref);
      WithoutConcat(ObstaclesOfAll(init), ObstaclesOf(t, |t.shapes|), ref);
      if t.ref != ref {
        var k := Kept(ts, ref);
        assert k[..|k| - 1] == Kept(init, ref);
      }
    }
  }

  lemma {:induction false} NothingTaken(base: seq<Obstacle>, ref: string)
    requires forall o :: o in base ==> o.ref != ref
    ensures WithoutRef(base, ref) == base
  {
    if base != [] {
      assert base == base[..|base| - 1] + [base[|base| - 1]];
      NothingTaken(base[..|base| - 1], ref);
    }
  }

  /** References taken off the board are copper's, not a pad's, and not empty. */
  ghost predicate OnlyCopperTaken(base: seq<Obstacle>, edits: seq<Edit>) {
    forall e :: e in edits && e.Taken? ==> e.ref != "" && forall o :: o in base ==> o.ref != e.ref
  }

  /** After any interleaving of edits, what is live is what was never copper, and the copper now on the board. */
  lemma {:induction false} EditsFollowTheBoard(base: seq<Obstacle>, ts: seq<Copper>, edits: seq<Edit>)
    requires OnlyCopperTaken(base, edits)
    ensures LiveAfter(base + ObstaclesOfAll(ts), edits) == base + ObstaclesOfAll(CopperAfter(ts, edits))
  {
    hide ObstaclesOf;
    if edits != [] {
      var n := |edits| - 1;
      assert edits == edits[..n] + [edits[n]];
      EditsFollowTheBoard(base, ts, edits[..n]);
      var before := CopperAfter(ts, edits[..n]);
      match edits[n]
      case Laid(t) =>
        assert (before + [t])[..|before|] == before;
      case Taken(ref) =>
        NothingTaken(base, ref);
        TakenEverywhere(before, ref);
        WithoutConcat(base, ObstaclesOfAll(before), ref);
    }
  }

  /** A checker that followed the edits answers exactly as one built afresh over the edited board, whatever
      order the fresh one was built in. */
  lemma EditedAnswersAsFresh(s: Settings, cand: Candidate, base: seq<Obstacle>, ts: seq<Copper>, edits: seq<Edit>,
                             edited: seq<Obstacle>, fresh': seq<Obstacle>)
    requires OnlyCopperTaken(base, edits) && Live(edited) == LiveAfter(base + ObstaclesOfAll(ts), edits)
    requires SameElements(Live(fresh'), base + ObstaclesOfAll(CopperAfter(ts, edits)))
    ensures IsClear(s, cand, edited) <==> IsClear(s, cand, fresh')
    ensures forall key :: HitByKey(s, cand, edited, key) <==> HitByKey(s, cand, fresh', key)
  {
    hide IsClear, HitByKey, Live;
    EditsFollowTheBoard(base, ts, edits);
    SameLiveSameAnswers(s, cand, edited, fresh');
  }

  // ---- looking far enough ----

  lemma {:induction false} ZonesWithin(zones: seq<ClearanceZone>, a: Rect, b: Rect, w: real)
    requires w >= 0.0 && forall z :: z in zones ==> z.minClearance <= w
    ensures 0.0 <= ZoneClearance(zones, a, b) <= w
  {
    if zones != [] { ZonesWithin(zones[..|zones| - 1], a, b, w); }
  }

  /** The search margin allows for this obstacle: only another net's class, or a custom rule, can ask for more. */
  ghost predicate MarginCovers(s: Settings, cand: Candidate, o: Obstacle) {
    var m := SearchMargin(s, NetClear(s, cand));
    o.edge || o.net == cand.net
    || (s.clearanceOf(o.net) <= m
        && (s.rule.Some? ==> forall box :: s.rule.value(cand.net, box, o).Some? ==> s.rule.value(cand.net, box, o).value <= m))
  }

  lemma RequiredWithinMargin(s: Settings, cand: Candidate, o: Obstacle, box: Rect)
    requires s.Sane() && MarginCovers(s, cand, o)
    ensures Required(s, cand.net, o, NetClear(s, cand), box) <= SearchMargin(s, NetClear(s, cand))
  {
    var w := WidestZone(s.zones, Max(Max(NetClear(s, cand), s.edgeClearance), s.open));
    ZonesWithin(s.zones, box, Box(o.shape), w);
  }

  lemma WithinMarginIsSeen(s: Settings, cand: Candidate, sh: Shape, o: Obstacle)
    requires s.Sane() && Lawful(s.dist) && MarginCovers(s, cand, o)
    ensures Hits(s, cand, sh, o) <==> Clashes(s, cand, sh, o)
  {
    hide Required, SearchMargin, MarginCovers, Box;
    RequiredWithinMargin(s, cand, o, Box(sh));
  }

  /** With the margin wide enough, the index answers as a scan of every obstacle would. */
  lemma IndexAnswersAsScan(s: Settings, cand: Candidate, obs: seq<Obstacle>)
    requires s.Sane() && Lawful(s.dist) && forall o :: o in obs ==> MarginCovers(s, cand, o)
    ensures IsClear(s, cand, obs) <==> ScanClear(s, cand, obs)
  {
    hide Hits, Clashes, MarginCovers;
    forall sh, o | sh in cand.shapes && o in obs ensures Hits(s, cand, sh, o) <==> Clashes(s, cand, sh, o) {
      WithinMarginIsSeen(s, cand, sh, o);
    }
  }

  /** Every clash with copper of another net is seen, whatever the shapes and however distance is measured. */
  ghost predicate SeesAll(s: Settings, cand: Candidate, other: string) {
    forall dist: (Shape, Shape) -> real, sh: Shape, o: Obstacle :: Lawful(dist) && !o.edge && o.net == other && Clashes(s.(dist := dist), cand, sh, o)
                          ==> Hits(s.(dist := dist), cand, sh, o)
  }

  function Gap(a: Shape, b: Shape): real {
    Max(Max(Box(b).minX - Box(a).maxX, Box(a).minX - Box(b).maxX), Max(Box(b).minY - Box(a).maxY, Box(a).minY - Box(b).maxY))
  }

  lemma GapIsLawful()
    ensures Lawful(Gap)
  {
    hide Box;
    forall a: Shape, b: Shape, m: real | Gap(a, b) < m ensures Box(b).Overlaps(Box(a).Grow(m)) {}
  }

  lemma BoxOfPoint(x: real)
    ensures Box(RoundPoly([Pt(x, 0.0)], 0.0)) == Rect(x, 0.0, x, 0.0)
  {
  }

  /** What class and custom rule together ask between the candidate and an obstacle of another net. */
  function Asked(s: Settings, cand: Candidate, o: Obstacle, box: Rect): real {
    ByRules(s, cand.net, o, box, Max(NetClear(s, cand), s.clearanceOf(o.net)))
  }

  /** Copper of that net that the candidate has to clear. */
  predicate Counts(cand: Candidate, other: string, o: Obstacle) {
    o.net == other && !o.edge && !o.dead && o.layer == cand.layer && !(o.ref != "" && o.ref in cand.exempt)
  }

  /** Farther apart than the margin, no two shapes are closer than class and rule ask. */
  ghost predicate NoneAsksBeyond(s: Settings, cand: Candidate, other: string) {
    forall sh, o :: Counts(cand, other, o) && SearchMargin(s, NetClear(s, cand)) < Gap(sh, o.shape) ==> Asked(s, cand, o, Box(sh)) <= Gap(sh, o.shape)
  }

  /** What the custom rules ask does not depend on where things are, but for the copper's other properties. */
  ghost predicate PlaceFree(s: Settings) {
    s.rule.Some? ==>
      forall net, box: Rect, box': Rect, o: Obstacle, sh :: s.rule.value(net, box, o) == s.rule.value(net, box', o.(shape := sh))
  }

  /** The checker looks far enough for another net exactly when, farther apart than the margin, nothing is closer than
      class and rule ask. Where rules do not look at places, that is when what they ask of each piece is within the
      margin; without rules, when that net's own class clearance is: the margin is worked out from the candidate's net
      alone. */
  lemma MarginIsEnoughIff(s: Settings, cand: Candidate, other: string)
    requires s.Sane() && other != cand.net
    ensures SeesAll(s, cand, other) <==> NoneAsksBeyond(s, cand, other)
    ensures PlaceFree(s) ==>
      (SeesAll(s, cand, other) <==> forall o, box :: Counts(cand, other, o) ==> Asked(s, cand, o, box) <= SearchMargin(s, NetClear(s, cand)))
    ensures s.rule.None? ==> (SeesAll(s, cand, other) <==> s.clearanceOf(other) <= SearchMargin(s, NetClear(s, cand)))
  {
    hide Gap, Asked, NoneAsksBeyond, SeesAll, SearchMargin, NetClear, PlaceFree;
    if NoneAsksBeyond(s, cand, other) { AllSeen(s, cand, other); } else { OneMissed(s, cand, other); }
    if PlaceFree(s) { WithoutPlaces(s, cand, other); }
    if s.rule.None? { WithoutRules(s, cand, other); }
  }

  lemma AllSeen(s: Settings, cand: Candidate, other: string)
    requires s.Sane() && other != cand.net && NoneAsksBeyond(s, cand, other)
    ensures SeesAll(s, cand, other)
  {
    hide Box, SearchMargin, Asked, Required, NetClear, Gap, Lawful;
    forall dist: (Shape, Shape) -> real, sh: Shape, o: Obstacle
      | Lawful(dist) && !o.edge && o.net == other && Clashes(s.(dist := dist), cand, sh, o)
      ensures Hits(s.(dist := dist), cand, sh, o)
    {
      var m, req := SearchMargin(s, NetClear(s, cand)), Required(s, cand.net, o, NetClear(s, cand), Box(sh));
      SameMargin(s, dist, cand);
      SameRequired(s, dist, cand, o, Box(sh));
      GapBelow(dist, sh, o.shape, req);
      RequiredIs(s, cand, o, Box(sh));
      GapMeans(sh, o.shape, m);
      assert Counts(cand, other, o);
    }
  }

  lemma SameRequired(s: Settings, dist: (Shape, Shape) -> real, cand: Candidate, o: Obstacle, box: Rect)
    ensures var t := s.(dist := dist); Required(t, cand.net, o, NetClear(t, cand), box) == Required(s, cand.net, o, NetClear(s, cand), box)
  {
    hide Around, ZoneClearance, Box;
  }

  /** Boxes are no farther apart than shapes. */
  lemma GapBelow(dist: (Shape, Shape) -> real, a: Shape, b: Shape, m: real)
    requires Lawful(dist) && dist(a, b) < m
    ensures Gap(a, b) < m
  {
    var between := (dist(a, b) + m) / 2.0;
    assert dist(a, b) < between < m;
    hide Box;
    GapMeans(a, b, between);
  }

  lemma GapMeans(a: Shape, b: Shape, m: real)
    ensures Box(b).Overlaps(Box(a).Grow(m)) <==> Gap(a, b) <= m
  {
    hide Box;
  }

  /** Only class and rule can ask for more than the margin. */
  lemma RequiredIs(s: Settings, cand: Candidate, o: Obstacle, box: Rect)
    requires s.Sane() && !o.edge && o.net != cand.net
    ensures
      var req, m := Required(s, cand.net, o, NetClear(s, cand), box), SearchMargin(s, NetClear(s, cand));
      req >= Asked(s, cand, o, box) && (req > m ==> req == Asked(s, cand, o, box))
  {
    var w := WidestZone(s.zones, Max(Max(NetClear(s, cand), s.edgeClearance), s.open));
    ZonesWithin(s.zones, box, Box(o.shape), w);
    hide Around, ZoneClearance, Box, ByRules;
  }

  lemma OneMissed(s: Settings, cand: Candidate, other: string)
    requires s.Sane() && other != cand.net && !NoneAsksBeyond(s, cand, other)
    ensures !SeesAll(s, cand, other)
  {
    hide Box, SearchMargin, Required, Asked, NetClear, Gap, Lawful;
    var m := SearchMargin(s, NetClear(s, cand));
    var sh, o :| Counts(cand, other, o) && m < Gap(sh, o.shape) && Asked(s, cand, o, Box(sh)) > Gap(sh, o.shape);
    var t := s.(dist := Gap);
    GapIsLawful();
    MarginIsNotNegative(s, cand);
    SameMargin(s, Gap, cand);
    SameRequired(s, Gap, cand, o, Box(sh));
    RequiredIs(s, cand, o, Box(sh));
    GapMeans(sh, o.shape, m);
    assert Clashes(t, cand, sh, o) && !Hits(t, cand, sh, o);
  }

  /** Where rules do not look at places, any piece that may be asked more of than the margin may stand where it is
      missed. */
  lemma WithoutPlaces(s: Settings, cand: Candidate, other: string)
    requires PlaceFree(s) && s.Sane()
    ensures NoneAsksBeyond(s, cand, other) <==>
      forall o, box :: Counts(cand, other, o) ==> Asked(s, cand, o, box) <= SearchMargin(s, NetClear(s, cand))
  {
    hide Box, SearchMargin, NetClear, Gap, Asked;
    var m := SearchMargin(s, NetClear(s, cand));
    if o, box :| Counts(cand, other, o) && Asked(s, cand, o, box) > m {
      MarginIsNotNegative(s, cand);
      var sh, at := PointsApart((m + Asked(s, cand, o, box)) / 2.0);
      SameAsked(s, cand, o, box, Box(sh), at);
      assert Counts(cand, other, o.(shape := at));
    }
  }

  lemma SameAsked(s: Settings, cand: Candidate, o: Obstacle, box: Rect, box': Rect, sh: Shape)
    requires PlaceFree(s)
    ensures Asked(s, cand, o.(shape := sh), box') == Asked(s, cand, o, box)
  {
  }

  lemma PointsApart(d: real) returns (a: Shape, b: Shape)
    requires d >= 0.0
    ensures Gap(a, b) == d
  {
    a, b := RoundPoly([Pt(0.0, 0.0)], 0.0), RoundPoly([Pt(d, 0.0)], 0.0);
    BoxOfPoint(0.0);
    BoxOfPoint(d);
    hide Box;
  }

  lemma WithoutRules(s: Settings, cand: Candidate, other: string)
    requires s.rule.None? && s.Sane()
    ensures NoneAsksBeyond(s, cand, other) <==> s.clearanceOf(other) <= SearchMargin(s, NetClear(s, cand))
  {
    WithoutPlaces(s, cand, other);
    hide NoneAsksBeyond, SearchMargin, WidestZone;
    var sh: Shape := RoundPoly([Pt(0.0, 0.0)], 0.0);
    var o := Obstacle(sh, cand.layer, other, "track", "", false, false);
    assert Counts(cand, other, o);
    NetWithinMargin(s, cand);
    if s.clearanceOf(other) > SearchMargin(s, NetClear(s, cand)) {
      assert Asked(s, cand, o, Rect(0.0, 0.0, 0.0, 0.0)) > SearchMargin(s, NetClear(s, cand));
    }
  }

  lemma NetWithinMargin(s: Settings, cand: Candidate)
    requires s.Sane()
    ensures NetClear(s, cand) <= SearchMargin(s, NetClear(s, cand))
  {
  }

  lemma SameMargin(s: Settings, dist: (Shape, Shape) -> real, cand: Candidate)
    ensures SearchMargin(s.(dist := dist), NetClear(s.(dist := dist), cand)) == SearchMargin(s, NetClear(s, cand))
  {
  }

  lemma MarginIsNotNegative(s: Settings, cand: Candidate)
    requires s.Sane()
    ensures SearchMargin(s, NetClear(s, cand)) >= 0.0
  {
  }

  // ---- what it comes to, in distances ----

  /** An obstacle the candidate has to clear at all. */
  predicate HasToClear(cand: Candidate, o: Obstacle) {
    !o.dead && (o.edge || o.layer == cand.layer) && (o.ref == "" || o.ref !in cand.exempt)
  }

  /** What the custom rules answer, if anything. */
  function RuleSays(s: Settings, cand: Candidate, o: Obstacle, box: Rect): Option<real> {
    if s.rule.None? then None else s.rule.value(cand.net, box, o)
  }

  /** Neither piece is about a component, within the clearance wanted in the open. */
  ghost predicate InTheOpen(s: Settings, a: Rect, b: Rect) {
    forall r :: r in s.comp ==> !r.Overlaps(Shared(a.Grow(s.open), b.Grow(s.open)))
  }

  lemma OpenIsNotAround(s: Settings, a: Rect, b: Rect)
    ensures InTheOpen(s, a, b) <==> !Around(s.comp, Shared(a.Grow(s.open), b.Grow(s.open)))
  {
    hide Shared;
  }

  ghost predicate WantedInZone(s: Settings, a: Rect, b: Rect, m: real) {
    exists z :: z in s.zones && z.area.Overlaps(a) && z.area.Overlaps(b) && z.minClearance == m
  }

  /** Each of the clearances wanted of another net's copper: both nets' own and the candidate's, unless a rule that may
      relax them answers; what a rule answers; and between nets that are no pair, that of each zone around both, and the
      one for the open. */
  ghost predicate WantsOfOther(s: Settings, cand: Candidate, o: Obstacle, box: Rect, m: real) {
    || (!(s.relax && RuleSays(s, cand, o, box).Some?) && m in {s.clearanceOf(cand.net), s.clearanceOf(o.net), cand.minClearance})
    || RuleSays(s, cand, o, box) == Some(m)
    || (!PairOf(s, cand.net, o.net)
        && (WantedInZone(s, box, Box(o.shape), m) || (m == s.open && InTheOpen(s, box, Box(o.shape)))))
  }

  /** What is wanted of an edge; of the net's own copper, but for its zones and pads; and of any other. */
  ghost predicate Wants(s: Settings, cand: Candidate, o: Obstacle, box: Rect, m: real) {
    if o.edge then m == s.edgeClearance
    else if o.net == cand.net then o.kind != "zone" && o.kind != "pad" && m == s.sameNetGap
    else WantsOfOther(s, cand, o, box, m)
  }

  /** As far off as everything asks, if it is to be cleared at all. */
  ghost predicate KeepsOff(s: Settings, cand: Candidate, sh: Shape, o: Obstacle) {
    HasToClear(cand, o) ==> forall m :: Wants(s, cand, o, Box(sh), m) ==> m <= 0.0 || s.dist(sh, o.shape) >= m
  }

  lemma {:induction false} ZoneIsMost(zones: seq<ClearanceZone>, a: Rect, b: Rect)
    ensures
      var w := ZoneClearance(zones, a, b);
      && w >= 0.0 && (forall z :: z in zones && z.area.Overlaps(a) && z.area.Overlaps(b) ==> z.minClearance <= w)
      && (w > 0.0 ==> exists z :: z in zones && z.area.Overlaps(a) && z.area.Overlaps(b) && z.minClearance == w)
  {
    if zones != [] {
      var n := |zones| - 1;
      ZoneIsMost(zones[..n], a, b);
      assert zones == zones[..n] + [zones[n]];
    }
  }

  /** The clearance required is the most of what is wanted; none, where nothing more is. */
  lemma RequiredIsMost(s: Settings, cand: Candidate, o: Obstacle, box: Rect)
    requires s.Sane()
    ensures
      var req := Required(s, cand.net, o, NetClear(s, cand), box);
      (forall m :: Wants(s, cand, o, box, m) ==> m <= req) && (req == 0.0 || Wants(s, cand, o, box, req))
  {
    OpenIsNotAround(s, box, Box(o.shape));
    hide Around, Box, Shared, InTheOpen;
    ZoneIsMost(s.zones, box, Box(o.shape));
    hide ZoneClearance;
  }

  /** A clash is with something to be cleared that is nearer than some clearance wanted. */
  lemma ClashMeans(s: Settings, cand: Candidate, sh: Shape, o: Obstacle)
    requires s.Sane()
    ensures Clashes(s, cand, sh, o) <==> !KeepsOff(s, cand, sh, o)
  {
    hide Required, Wants, Box;
    RequiredIsMost(s, cand, o, Box(sh));
  }

  /** Main result on what the checker's verdict means: where its margin covers them, everything is as far off as it
      should be. */
  lemma ClearMeans(s: Settings, cand: Candidate, obs: seq<Obstacle>)
    requires s.Sane() && Lawful(s.dist) && forall o :: o in obs ==> MarginCovers(s, cand, o)
    ensures IsClear(s, cand, obs) <==> forall sh, o :: sh in cand.shapes && o in obs ==> KeepsOff(s, cand, sh, o)
  {
    hide Clashes, KeepsOff, MarginCovers, Hits, Lawful;
    IndexAnswersAsScan(s, cand, obs);
    forall sh, o | sh in cand.shapes && o in obs ensures Clashes(s, cand, sh, o) <==> !KeepsOff(s, cand, sh, o) {
      ClashMeans(s, cand, sh, o);
    }
  }

  /** What a verdict means, where the margin covers everything. */
  ghost predicate MeansKeptOff(s: Settings, cand: Candidate, obs: seq<Obstacle>, ok: bool) {
    Lawful(s.dist) && (forall o :: o in obs ==> MarginCovers(s, cand, o)) ==>
      (ok <==> forall sh, o :: sh in cand.shapes && o in obs ==> KeepsOff(s, cand, sh, o))
  }

  lemma VerdictMeans(s: Settings, cand: Candidate, obs: seq<Obstacle>, ok: bool)
    requires s.Sane() && (ok <==> IsClear(s, cand, obs))
    ensures MeansKeptOff(s, cand, obs, ok)
  {
    hide IsClear, KeepsOff, MarginCovers, Lawful;
    if Lawful(s.dist) && (forall o :: o in obs ==> MarginCovers(s, cand, o)) { ClearMeans(s, cand, obs); }
  }

  /** The net's own tracks and vias are kept off by the gap for them; its zones and pads may be touched. */
  lemma OwnNetMeans(s: Settings, cand: Candidate, sh: Shape, o: Obstacle)
    requires s.Sane() && Lawful(s.dist) && HasToClear(cand, o) && !o.edge && o.net == cand.net
    ensures
      if o.kind == "zone" || o.kind == "pad" then !Hits(s, cand, sh, o)
      else Hits(s, cand, sh, o) <==> 0.0 < s.sameNetGap && s.dist(sh, o.shape) < s.sameNetGap
  {
    hide Required, Box, Hits, Clashes, SearchMargin, Lawful;
    WithinMarginIsSeen(s, cand, sh, o);
    ClashMeans(s, cand, sh, o);
    assert o.kind != "zone" && o.kind != "pad" ==> Wants(s, cand, o, Box(sh), s.sameNetGap);
  }

  /** The board's edge is kept off by the clearance for it, on every layer. */
  lemma EdgeMeans(s: Settings, cand: Candidate, sh: Shape, o: Obstacle)
    requires s.Sane() && Lawful(s.dist) && HasToClear(cand, o) && o.edge
    ensures Hits(s, cand, sh, o) <==> 0.0 < s.edgeClearance && s.dist(sh, o.shape) < s.edgeClearance
  {
    hide Required, Box, Hits, Clashes, SearchMargin, Lawful;
    WithinMarginIsSeen(s, cand, sh, o);
    ClashMeans(s, cand, sh, o);
    assert Wants(s, cand, o, Box(sh), s.edgeClearance);
  }

  /** At least so far apart, if that is anything. */
  predicate Off(s: Settings, sh: Shape, o: Obstacle, m: real) { m <= 0.0 || s.dist(sh, o.shape) >= m }

  /** Another net's copper found clear is as far off as both nets' classes ask, unless a relaxing rule answers, and as
      far off as each zone around both pieces asks, unless the nets are a pair. */
  lemma OtherNetMeans(s: Settings, cand: Candidate, sh: Shape, o: Obstacle)
    requires s.Sane() && Lawful(s.dist) && HasToClear(cand, o) && !o.edge && o.net != cand.net
    requires MarginCovers(s, cand, o)
    requires !Hits(s, cand, sh, o)
    ensures !(s.relax && RuleSays(s, cand, o, Box(sh)).Some?) ==>
      Off(s, sh, o, s.clearanceOf(cand.net)) && Off(s, sh, o, s.clearanceOf(o.net)) && Off(s, sh, o, cand.minClearance)
    ensures RuleSays(s, cand, o, Box(sh)).Some? ==> Off(s, sh, o, RuleSays(s, cand, o, Box(sh)).value)
    ensures !PairOf(s, cand.net, o.net) ==>
      && (forall z :: z in s.zones && z.area.Overlaps(Box(sh)) && z.area.Overlaps(Box(o.shape)) ==> Off(s, sh, o, z.minClearance))
      && (InTheOpen(s, Box(sh), Box(o.shape)) ==> Off(s, sh, o, s.open))
  {
    hide Required, Box, Hits, Clashes, SearchMargin, Lawful, MarginCovers, InTheOpen, PairOf, RuleSays, WantedInZone, Wants;
    WithinMarginIsSeen(s, cand, sh, o);
    ClashMeans(s, cand, sh, o);
    var box := Box(sh);
    forall m | WantsOfOther(s, cand, o, box, m) ensures Off(s, sh, o, m) { IsWanted(s, cand, o, box, m); }
    if !(s.relax && RuleSays(s, cand, o, box).Some?) {
      assert WantsOfOther(s, cand, o, box, s.clearanceOf(cand.net)) && WantsOfOther(s, cand, o, box, s.clearanceOf(o.net));
      assert WantsOfOther(s, cand, o, box, cand.minClearance);
    }
    if RuleSays(s, cand, o, box).Some? { assert WantsOfOther(s, cand, o, box, RuleSays(s, cand, o, box).value); }
    if !PairOf(s, cand.net, o.net) {
      forall z | z in s.zones && z.area.Overlaps(box) && z.area.Overlaps(Box(o.shape)) ensures Off(s, sh, o, z.minClearance) {
        ZoneWants(s, box, Box(o.shape), z);
        assert WantsOfOther(s, cand, o, box, z.minClearance);
      }
      if InTheOpen(s, box, Box(o.shape)) { assert WantsOfOther(s, cand, o, box, s.open); }
    }
  }

  lemma IsWanted(s: Settings, cand: Candidate, o: Obstacle, box: Rect, m: real)
    requires !o.edge && o.net != cand.net && WantsOfOther(s, cand, o, box, m)
    ensures Wants(s, cand, o, box, m)
  {
  }

  lemma ZoneWants(s: Settings, a: Rect, b: Rect, z: ClearanceZone)
    requires z in s.zones && z.area.Overlaps(a) && z.area.Overlaps(b)
    ensures WantedInZone(s, a, b, z.minClearance)
  {
  }

  /** What two boxes have in common is the places in both. */
  lemma SharedIsBoth(a: Rect, b: Rect, p: Pt)
    requires a.Proper() && b.Proper()
    ensures a.Overlaps(b) ==> (Shared(a, b).Contains(p) <==> a.Contains(p) && b.Contains(p))
    ensures !a.Overlaps(b) ==> Shared(a, b) == b
  {
  }

  // ---- components ----

  /** How much space is wanted in the open, how far about a component is not in the open, and which nets are coupled. */
  datatype OpenSpacing = OpenSpacing(clearance: real, margin: real, coupled: map<string, string>)

  /** The least box around these pads. */
  function Extent(pads: seq<Shape>): (r: Rect)
    requires pads != []
    ensures r.Proper() && forall p :: p in pads ==> Box(p).Within(r)
  {
    var last := pads[|pads| - 1];
    if |pads| == 1 then Box(last)
    else
      var rest := Extent(pads[..|pads| - 1]);
      assert pads == pads[..|pads| - 1] + [last];
      rest.Union(Box(last))
  }

  lemma {:induction false} ExtentIsLeast(pads: seq<Shape>, b: Rect)
    requires pads != [] && forall p :: p in pads ==> Box(p).Within(b)
    ensures Extent(pads).Within(b)
  {
    hide Box;
    assert pads[|pads| - 1] in pads;
    if |pads| > 1 { ExtentIsLeast(pads[..|pads| - 1], b); }
  }

  /** What each component covers: its pads' extent and the margin. One without pads covers nothing. */
  function Components(footprints: seq<seq<Shape>>, margin: real): (rs: seq<Rect>)
    requires margin >= 0.0
    ensures forall r :: r in rs ==> r.Proper()
    ensures forall r :: r in rs <==> exists k :: 0 <= k < |footprints| && footprints[k] != [] && r == Extent(footprints[k]).Grow(margin)
  {
    if footprints == [] then []
    else
      var init, last := footprints[..|footprints| - 1], footprints[|footprints| - 1];
      assert footprints == init + [last];
      Components(init, margin) + if last == [] then [] else [Extent(last).Grow(margin)]
  }

  // ---- the checker ----

  /** One piece of copper, as the checker takes it: its shapes, on each of its layers. */
  datatype Copper = Copper(shapes: seq<Shape>, layers: seq<string>, net: string, kind: string, ref: string)

  function OnLayers(c: Copper, sh: Shape, n: nat): (os: seq<Obstacle>)
    requires n <= |c.layers|
  {
    if n == 0 then [] else OnLayers(c, sh, n - 1) + [Obstacle(sh, c.layers[n - 1], c.net, c.kind, c.ref, false, false)]
  }

  /** The obstacles a piece of copper makes: every shape on every layer. */
  function ObstaclesOf(c: Copper, n: nat): (os: seq<Obstacle>)
    requires n <= |c.shapes|
  {
    if n == 0 then [] else ObstaclesOf(c, n - 1) + OnLayers(c, c.shapes[n - 1], |c.layers|)
  }

  lemma {:induction false} OnEachLayer(c: Copper, sh: Shape, n: nat, o: Obstacle)
    requires n <= |c.layers|
    ensures o in OnLayers(c, sh, n) <==> o.layer in c.layers[..n] && o == Obstacle(sh, o.layer, c.net, c.kind, c.ref, false, false)
  {
    if n > 0 {
      OnEachLayer(c, sh, n - 1, o);
      assert c.layers[..n] == c.layers[..n - 1] + [c.layers[n - 1]];
    }
  }

  /** A piece of copper is an obstacle with each of its shapes on each of its layers, by its name and on its net, and in
      no other way. */
  lemma {:induction false} EveryShapeEveryLayer(c: Copper, n: nat, o: Obstacle)
    requires n <= |c.shapes|
    ensures o in ObstaclesOf(c, n) <==>
      o.shape in c.shapes[..n] && o.layer in c.layers && o == Obstacle(o.shape, o.layer, c.net, c.kind, c.ref, false, false)
  {
    hide OnLayers;
    if n > 0 {
      EveryShapeEveryLayer(c, n - 1, o);
      OnEachLayer(c, c.shapes[n - 1], |c.layers|, o);
      assert c.shapes[..n] == c.shapes[..n - 1] + [c.shapes[n - 1]] && c.layers[..|c.layers|] == c.layers;
    }
  }

  lemma {:induction false} NewLayersAreLive(c: Copper, sh: Shape, n: nat)
    requires n <= |c.layers|
    ensures Live(OnLayers(c, sh, n)) == OnLayers(c, sh, n)
  {
    if n > 0 {
      NewLayersAreLive(c, sh, n - 1);
      var l := OnLayers(c, sh, n);
      assert l[..|l| - 1] == OnLayers(c, sh, n - 1);
    }
  }

  lemma {:induction false} NewCopperIsLive(c: Copper, n: nat)
    requires n <= |c.shapes|
    ensures Live(ObstaclesOf(c, n)) == ObstaclesOf(c, n)
  {
    if n > 0 {
      NewCopperIsLive(c, n - 1);
      NewLayersAreLive(c, c.shapes[n - 1], |c.layers|);
      LiveConcat(ObstaclesOf(c, n - 1), OnLayers(c, c.shapes[n - 1], |c.layers|));
    }
  }

  // ---- what a check reports ----

  /** As far from the one side of a box as from the other, on both axes. */
  lemma CentreIsMiddle(b: Rect)
    ensures Centre(b).x - b.minX == b.maxX - Centre(b).x && Centre(b).y - b.minY == b.maxY - Centre(b).y
  {
  }

  function Centre(b: Rect): Pt { Pt((b.minX + b.maxX) / 2.0, (b.minY + b.maxY) / 2.0) }

  function ByActual(v: Violation): real { v.actual }

  /** `v` tells of this shape hitting this obstacle. */
  ghost predicate IsReport(s: Settings, cand: Candidate, sh: Shape, o: Obstacle, v: Violation) {
    && Hits(s, cand, sh, o) && v.kind == o.kind && v.ref == o.ref && v.net == o.net && v.layer == o.layer
    && v.required == Required(s, cand.net, o, NetClear(s, cand), Box(sh)) && v.actual == s.dist(sh, o.shape)
    && v.at == Centre(Box(sh))
  }

  ghost predicate Reported(s: Settings, cand: Candidate, obs: seq<Obstacle>, v: Violation) {
    exists sh, o :: sh in cand.shapes && o in obs && IsReport(s, cand, sh, o, v)
  }

  lemma ReportedBy(s: Settings, cand: Candidate, obs: seq<Obstacle>, sh: Shape, o: Obstacle, v: Violation)
    requires sh in cand.shapes && o in obs && IsReport(s, cand, sh, o, v)
    ensures Reported(s, cand, obs, v)
  {
    hide IsReport;
  }

  ghost predicate Named(out: seq<Violation>, key: string) {
    exists i :: 0 <= i < |out| && Key(out[i].kind, out[i].ref, out[i].net) == key
  }

  ghost predicate OncePerKey(out: seq<Violation>) {
    forall i, j :: 0 <= i < |out| && 0 <= j < |out| && i != j ==>
      Key(out[i].kind, out[i].ref, out[i].net) != Key(out[j].kind, out[j].ref, out[j].net)
  }

  lemma OnceForNone()
    ensures OncePerKey([])
  {
  }

  lemma MoreNamed(out: seq<Violation>, v: Violation)
    ensures forall key :: Named(out + [v], key) <==> Named(out, key) || key == Key(v.kind, v.ref, v.net)
  {
    hide Key;
    var more := out + [v];
    assert more[|out|] == v && forall i :: 0 <= i < |out| ==> more[i] == out[i];
  }

  lemma OneMoreKey(out: seq<Violation>, v: Violation)
    requires OncePerKey(out) && !Named(out, Key(v.kind, v.ref, v.net))
    ensures OncePerKey(out + [v])
  {
    hide Key;
  }

  /** Rearranging keeps one report per key. */
  lemma StillOncePerKey(a: seq<Violation>, b: seq<Violation>)
    requires OncePerKey(a) && multiset(b) == multiset(a)
    ensures OncePerKey(b)
  {
    hide Key;
    assert NoDups(a);
    forall i, j | 0 <= i < j < |b| ensures Key(b[i].kind, b[i].ref, b[i].net) != Key(b[j].kind, b[j].ref, b[j].net) {
      assert b[i] in multiset(a) && b[j] in multiset(a);
      if b[i] == b[j] {
        TwiceCountsTwo(b, i, j);
        OnceEach(a, b[i]);
      }
    }
  }

  /** What has been found once the shapes `done` have been checked. */
  ghost predicate Found(s: Settings, cand: Candidate, obs: seq<Obstacle>, done: seq<Shape>, found: seq<Violation>) {
    && OncePerKey(found) && (forall v :: v in found ==> Reported(s, cand, obs, v))
    && forall sh, o :: sh in done && o in obs && Hits(s, cand, sh, o) ==> Named(found, KeyOf(o))
  }

  lemma FoundIsAnswer(s: Settings, cand: Candidate, obs: seq<Obstacle>, found: seq<Violation>, out: seq<Violation>)
    requires Found(s, cand, obs, cand.shapes, found) && forall v :: v in out <==> v in found
    ensures forall key :: HitByKey(s, cand, obs, key) <==> Named(out, key)
    ensures out == [] <==> IsClear(s, cand, obs)
  {
    hide Hits, OncePerKey, Required, Box, Centre;
    forall key ensures HitByKey(s, cand, obs, key) <==> Named(out, key) {
      if HitByKey(s, cand, obs, key) {
        var i :| 0 <= i < |found| && Key(found[i].kind, found[i].ref, found[i].net) == key;
        assert found[i] in out;
        var j :| 0 <= j < |out| && out[j] == found[i];
      }
      if Named(out, key) {
        var i :| 0 <= i < |out| && Key(out[i].kind, out[i].ref, out[i].net) == key;
        assert out[i] in found;
      }
    }
    if out != [] { assert out[0] in found; }
    if !IsClear(s, cand, obs) {
      var sh, o :| sh in cand.shapes && o in obs && Hits(s, cand, sh, o);
      assert HitByKey(s, cand, obs, KeyOf(o));
    }
  }

  method IsNamed(out: seq<Violation>, key: string) returns (named: bool)
    ensures named <==> Named(out, key)
  {
    named := exists i :: 0 <= i < |out| && Key(out[i].kind, out[i].ref, out[i].net) == key;
  }

  class Checker {
    var rules: Settings
    var compIndex: map<Cell, seq<nat>>
    var obs: seq<Obstacle>
    var index: map<Cell, seq<nat>>

    ghost predicate Valid()
      reads this
    {
      && Indexes(index, BoxesOf(obs)) && Indexes(compIndex, rules.comp) && rules.Sane()
      && forall r :: r in rules.comp ==> r.Proper()
    }

    /** A checker with nothing in it yet. */
    constructor (s: Settings)
      requires s.Sane() && s.comp == []
      ensures Valid() && rules == s && obs == []
    {
      rules, compIndex, obs, index := s, map[], [], map[];
    }

    /** Applies an open-field clearance, everywhere but around the components. */
    method SetOpenSpacing(o: OpenSpacing, footprints: seq<seq<Shape>>)
      requires Valid() && o.clearance >= 0.0 && o.margin >= 0.0
      modifies this
      ensures Valid() && obs == old(obs) && index == old(index)
      ensures rules == old(rules).(open := o.clearance, coupled := o.coupled,
                                   comp := if o.clearance <= 0.0 then [] else Components(footprints, o.margin))
    {
      hide Covers, Box, Extent;
      var was := rules.(open := o.clearance, coupled := o.coupled, comp := []);
      rules, compIndex := was, map[];
      if o.clearance <= 0.0 { return; }
      var comp: seq<Rect> := [];
      for k := 0 to |footprints|
        invariant Indexes(compIndex, comp) && comp == Components(footprints[..k], o.margin)
        invariant rules == was && obs == old(obs) && index == old(index)
      {
        assert footprints[..k + 1][..k] == footprints[..k];
        if footprints[k] != [] {
          var r := PadsExtent(footprints[k]);
          r := r.Grow(o.margin);
          ghost var before, had := compIndex, comp;
          compIndex := IndexBox(compIndex, r, |comp|);
          comp := comp + [r];
          GrownIndex(before, compIndex, had, r, comp);
        }
      }
      assert footprints[..|footprints|] == footprints;
      rules := rules.(comp := comp);
    }

    method PadsExtent(pads: seq<Shape>) returns (r: Rect)
      requires pads != []
      ensures r == Extent(pads)
    {
      r := Box(pads[0]);
      for k := 1 to |pads|
        invariant r == Extent(pads[..k])
      {
        assert pads[..k + 1][..k] == pads[..k];
        r := r.Union(Box(pads[k]));
      }
      assert pads[..|pads|] == pads;
    }

    /** Whether a box meets an area kept for a component. */
    method AroundComponent(r: Rect) returns (found: bool)
      requires Valid() && r.Proper()
      ensures found <==> Around(rules.comp, r)
    {
      hide CellOf;
      var x := CellOf(r.minX);
      while x <= CellOf(r.maxX)
        invariant CellOf(r.minX) <= x
        invariant forall c: Cell, k: nat :: InRows(r, x, c) && Listed(compIndex, c, k) ==> k < |rules.comp| && !rules.comp[k].Overlaps(r)
      {
        var y := CellOf(r.minY);
        while y <= CellOf(r.maxY)
          invariant CellOf(r.minY) <= y
          invariant forall c: Cell, k: nat :: InRun(r, x, y, c) && Listed(compIndex, c, k) ==> k < |rules.comp| && !rules.comp[k].Overlaps(r)
        {
          var c := Cell(x, y);
          var list := if c in compIndex then compIndex[c] else [];
          for n := 0 to |list|
            invariant forall k: nat :: k in list[..n] ==> k < |rules.comp| && !rules.comp[k].Overlaps(r)
          {
            assert Listed(compIndex, c, list[n]);
            if rules.comp[list[n]].Overlaps(r) { return true; }
            assert list[..n + 1] == list[..n] + [list[n]];
          }
          assert list[..|list|] == list;
          y := y + 1;
        }
        x := x + 1;
      }
      found := false;
      if Around(rules.comp, r) {
        var k :| 0 <= k < |rules.comp| && rules.comp[k].Overlaps(r);
        var _ := MeetingIsListed(compIndex, rules.comp, k, r);
      }
    }

    /** The obstacles whose boxes come within `margin` of a box: exactly those, each once. */
    method Near(box: Rect, margin: real) returns (out: seq<nat>)
      requires Valid() && box.Grow(margin).Proper()
      ensures NoDups(out)
      ensures forall i: nat :: i in out <==> i < |obs| && Box(obs[i].shape).Overlaps(box.Grow(margin))
    {
      hide CellOf, Box;
      var g := box.Grow(margin);
      out := [];
      var x := CellOf(g.minX);
      while x <= CellOf(g.maxX)
        invariant CellOf(g.minX) <= x
        invariant NoDups(out) && forall i: nat :: i in out ==> i < |obs| && Box(obs[i].shape).Overlaps(g)
        invariant forall c: Cell, i: nat :: InRows(g, x, c) && Listed(index, c, i) && i < |obs| && Box(obs[i].shape).Overlaps(g) ==> i in out
      {
        var y := CellOf(g.minY);
        while y <= CellOf(g.maxY)
          invariant CellOf(g.minY) <= y
          invariant NoDups(out) && forall i: nat :: i in out ==> i < |obs| && Box(obs[i].shape).Overlaps(g)
          invariant forall c: Cell, i: nat :: InRun(g, x, y, c) && Listed(index, c, i) && i < |obs| && Box(obs[i].shape).Overlaps(g) ==> i in out
        {
          out := NearInCell(Cell(x, y), g, out);
          y := y + 1;
        }
        x := x + 1;
      }
      forall i: nat | i < |obs| && Box(obs[i].shape).Overlaps(g) ensures i in out {
        var c := MeetingIsListed(index, BoxesOf(obs), i, g);
      }
    }

    /** Adds what one cell lists to the obstacles found so far. */
    method NearInCell(c: Cell, g: Rect, found: seq<nat>) returns (out: seq<nat>)
      requires Valid() && NoDups(found)
      ensures NoDups(out)
      ensures forall i: nat :: i in out <==> i in found || (Listed(index, c, i) && i < |obs| && Box(obs[i].shape).Overlaps(g))
    {
      hide Box;
      out := found;
      var list := if c in index then index[c] else [];
      for n := 0 to |list|
        invariant NoDups(out)
        invariant forall i: nat :: i in out <==> i in found || (i in list[..n] && i < |obs| && Box(obs[i].shape).Overlaps(g))
      {
        var i := list[n];
        assert Listed(index, c, i);
        assert list[..n + 1] == list[..n] + [i];
        if i !in out && Box(obs[i].shape).Overlaps(g) { out := out + [i]; }
      }
      assert list[..|list|] == list;
    }

    method WidestSpacing(a: Rect, b: Rect) returns (out: real)
      ensures out == ZoneClearance(rules.zones, a, b)
    {
      var zones := rules.zones;
      out := 0.0;
      for k := 0 to |zones|
        invariant out == ZoneClearance(zones[..k], a, b)
      {
        var z := zones[k];
        assert zones[..k + 1][..k] == zones[..k];
        if z.minClearance > out && z.area.Overlaps(a) && z.area.Overlaps(b) { out := z.minClearance; }
      }
      assert zones[..|zones|] == zones;
    }

    /** The clearance one obstacle asks of a candidate. */
    method RequiredOf(net: string, o: Obstacle, netClear: real, box: Rect) returns (req: real)
      requires Valid() && box.Proper()
      ensures req == Required(rules, net, o, netClear, box)
    {
      hide Around, ZoneClearance, ByRules, Valid;
      if o.edge { return rules.edgeClearance; }
      if o.net == net {
        return if o.kind == "zone" || o.kind == "pad" then 0.0 else rules.sameNetGap;
      }
      req := ByRules(rules, net, o, box, Max(netClear, rules.clearanceOf(o.net)));
      if PairOf(rules, net, o.net) { return; }
      var z := WidestSpacing(box, Box(o.shape));
      if z > req { req := z; }
      if rules.open > req {
        SaneIsOpen();
        var found := AroundComponent(Shared(box.Grow(rules.open), Box(o.shape).Grow(rules.open)));
        if !found { req := rules.open; }
      }
    }

    lemma SaneRules()
      requires Valid()
      ensures rules.Sane()
    {
    }

    lemma SaneIsOpen()
      requires Valid()
      ensures rules.open >= 0.0
    {
    }

    /** Whether a shape of the candidate is too close to one obstacle. */
    method ClashesWith(cand: Candidate, sh: Shape, o: Obstacle) returns (clash: bool, req: real)
      requires Valid()
      ensures clash <==> Clashes(rules, cand, sh, o)
      ensures req == Required(rules, cand.net, o, NetClear(rules, cand), Box(sh))
    {
      hide Required, Valid;
      req := RequiredOf(cand.net, o, NetClear(rules, cand), Box(sh));
      clash := !o.dead && (o.edge || o.layer == cand.layer) && !(o.ref != "" && o.ref in cand.exempt)
        && req > 0.0 && rules.dist(sh, o.shape) < req;
    }

    /** Whether the candidate has no clashes, stopping at the first. */
    method Clear(cand: Candidate) returns (ok: bool)
      requires Valid()
      ensures ok <==> IsClear(rules, cand, obs)
      ensures MeansKeptOff(rules, cand, obs, ok)
    {
      SaneRules();
      hide Clashes, Valid, Box, Settings.Sane, MeansKeptOff;
      for k := 0 to |cand.shapes|
        invariant forall sh, o :: sh in cand.shapes[..k] && o in obs ==> !Hits(rules, cand, sh, o)
      {
        var sh := cand.shapes[k];
        var near := NearShape(cand, sh);
        for n := 0 to |near|
          invariant forall o :: o in near[..n] ==> !Clashes(rules, cand, sh, o)
        {
          var o := near[n];
          assert near[..n + 1] == near[..n] + [o];
          var clash, _ := ClashesWith(cand, sh, o);
          if clash {
            assert Hits(rules, cand, sh, o);
            VerdictMeans(rules, cand, obs, false);
            return false;
          }
        }
        assert near[..|near|] == near;
        assert cand.shapes[..k + 1] == cand.shapes[..k] + [sh];
      }
      assert cand.shapes[..|cand.shapes|] == cand.shapes;
      ok := true;
      VerdictMeans(rules, cand, obs, ok);
    }

    /** The obstacles looked at for one shape of a candidate. */
    method NearShape(cand: Candidate, sh: Shape) returns (out: seq<Obstacle>)
      requires Valid()
      ensures forall o :: o in out <==> o in obs && InReach(rules, cand, sh, o)
    {
      hide Box;
      var near := Near(Box(sh), SearchMargin(rules, NetClear(rules, cand)));
      out := [];
      for n := 0 to |near|
        invariant |out| == n && forall m :: 0 <= m < n ==> near[m] in near && near[m] < |obs| && out[m] == obs[near[m]]
      {
        assert near[n] in near;
        out := out + [obs[near[n]]];
      }
      forall o ensures o in out <==> o in obs && InReach(rules, cand, sh, o) {
        if o in obs && InReach(rules, cand, sh, o) {
          var i: nat :| i < |obs| && obs[i] == o;
          assert i in near;
          var m :| 0 <= m < |near| && near[m] == i;
          assert out[m] == o;
        }
      }
    }

    /** Every clash, one for each thing clashed with, tightest first: nothing is named that the candidate does
        not hit, everything it hits is named, with what was asked and what there is. */
    method Check(cand: Candidate) returns (out: seq<Violation>)
      requires Valid()
      ensures forall v :: v in out ==> Reported(rules, cand, obs, v)
      ensures forall key :: HitByKey(rules, cand, obs, key) <==> Named(out, key)
      ensures OncePerKey(out) && SortedBy(out, ByActual)
      ensures out == [] <==> IsClear(rules, cand, obs)
    {
      hide Hits, Valid, Box, OncePerKey, Reported;
      var found: seq<Violation> := [];
      OnceForNone();
      for k := 0 to |cand.shapes|
        invariant Found(rules, cand, obs, cand.shapes[..k], found)
      {
        var sh := cand.shapes[k];
        found := CheckShape(cand, sh, cand.shapes[..k], found);
        assert cand.shapes[..k + 1] == cand.shapes[..k] + [sh];
      }
      assert cand.shapes[..|cand.shapes|] == cand.shapes;
      out := Sort(found, ByActual);
      StillOncePerKey(found, out);
      FoundIsAnswer(rules, cand, obs, found, out);
    }

    /** Checks one more shape of a candidate. */
    method CheckShape(cand: Candidate, sh: Shape, ghost before: seq<Shape>,
                      found: seq<Violation>) returns (out: seq<Violation>)
      requires Valid() && sh in cand.shapes && Found(rules, cand, obs, before, found)
      ensures Found(rules, cand, obs, before + [sh], out)
    {
      hide Valid, Box, Clashes, OncePerKey, Reported, Named, Key;
      out := found;
      var near := NearShape(cand, sh);
      for n := 0 to |near|
        invariant OncePerKey(out) && forall v :: v in out ==> Reported(rules, cand, obs, v)
        invariant forall key :: Named(found, key) ==> Named(out, key)
        invariant forall o :: o in near[..n] && Clashes(rules, cand, sh, o) ==> Named(out, KeyOf(o))
      {
        var o := near[n];
        assert near[..n + 1] == near[..n] + [o];
        var clash, req := ClashesWith(cand, sh, o);
        if clash {
          var named := IsNamed(out, KeyOf(o));
          if !named {
            var v := Violation(o.kind, o.ref, o.net, o.layer, req, rules.dist(sh, o.shape), Centre(Box(sh)));
            assert IsReport(rules, cand, sh, o, v);
            ReportedBy(rules, cand, obs, sh, o, v);
            OneMoreKey(out, v);
            MoreNamed(out, v);
            out := out + [v];
          }
        }
      }
      assert near[..|near|] == near;
      forall s, o | s in before + [sh] && o in obs && Hits(rules, cand, s, o) ensures Named(out, KeyOf(o)) {
        if s in before { assert Named(found, KeyOf(o)); }
      }
    }

    /** Indexes one more piece of copper. */
    method AddTrack(t: Copper)
      requires Valid()
      modifies this
      ensures Valid() && rules == old(rules) && compIndex == old(compIndex)
      ensures obs == old(obs) + ObstaclesOf(t, |t.shapes|)
      ensures Live(obs) == Live(old(obs)) + ObstaclesOf(t, |t.shapes|)
    {
      hide Valid;
      for k := 0 to |t.shapes|
        invariant Valid() && rules == old(rules) && compIndex == old(compIndex)
        invariant obs == old(obs) + ObstaclesOf(t, k)
      {
        for n := 0 to |t.layers|
          invariant Valid() && rules == old(rules) && compIndex == old(compIndex)
          invariant obs == old(obs) + ObstaclesOf(t, k) + OnLayers(t, t.shapes[k], n)
        {
          Add(Obstacle(t.shapes[k], t.layers[n], t.net, t.kind, t.ref, false, false));
        }
      }
      LiveConcat(old(obs), ObstaclesOf(t, |t.shapes|));
      NewCopperIsLive(t, |t.shapes|);
    }

    method Add(o: Obstacle)
      requires Valid()
      modifies this
      ensures Valid() && rules == old(rules) && compIndex == old(compIndex) && obs == old(obs) + [o]
    {
      hide Covers;
      var i := |obs|;
      ghost var before := obs;
      obs := obs + [o];
      index := IndexBox(index, Box(o.shape), i);
      GrownIndex(old(index), index, BoxesOf(before), Box(o.shape), BoxesOf(obs));
    }

    /** Retires every obstacle with this reference; nothing has an empty one. */
    method RemoveRef(ref: string)
      requires Valid()
      modifies this
      ensures Valid() && rules == old(rules) && compIndex == old(compIndex) && |obs| == |old(obs)|
      ensures Live(obs) == if ref == "" then Live(old(obs)) else WithoutRef(Live(old(obs)), ref)
    {
      if ref == "" { return; }
      ghost var was := obs;
      for i := 0 to |obs|
        invariant |obs| == |was| && rules == old(rules) && compIndex == old(compIndex) && index == old(index)
        invariant forall k :: 0 <= k < i ==> obs[k] == if was[k].ref == ref then was[k].(dead := true) else was[k]
        invariant forall k :: i <= k < |was| ==> obs[k] == was[k]
      {
        if obs[i].ref == ref { obs := obs[i := obs[i].(dead := true)]; }
      }
      assert BoxesOf(obs) == BoxesOf(was);
      MarkingIsRemoving(was, obs, ref);
    }
  }

  lemma GrownIndex(before: map<Cell, seq<nat>>, after: map<Cell, seq<nat>>, boxes: seq<Rect>, box: Rect,
                   grown: seq<Rect>)
    requires Indexes(before, boxes) && grown == boxes + [box]
    requires forall c: Cell, j: nat :: Listed(after, c, j) <==> Listed(before, c, j) || (j == |boxes| && Covers(box, c))
    ensures Indexes(after, grown)
  {
    hide Covers, Listed;
  }
}
