/** From a path of cells to copper (route/lay.go): a segment to each stretch that keeps its course, a via to
    each change of layer, and a stub at either end. */
module Lay {
  import opened Geometry
  import opened Grid
  import opened Board

  /** What copper is drawn with; `uuid` names new copper, a number at a time. */
  datatype Style = Style(origin: Pt, pitch: real, layers: seq<string>, width: Width,
                         viaD: Width, top: string, bottom: string, uuid: nat -> string)
  {
    /** The board position of a cell's centre. */
    function At(c: Cell): Pt { Pt(origin.x + c.x as real * pitch, origin.y + c.y as real * pitch) }
  }

  /** To another cell of the layer, or straight up or down. */
  predicate Move(a: Cell, b: Cell) { a != b && (a.layer != b.layer ==> a.x == b.x && a.y == b.y) }

  /** Moves from cell to cell, on layers that have a name. */
  ghost predicate Walkable(st: Style, path: seq<Cell>) {
    && st.pitch > 0.0
    && (forall i :: 0 <= i < |path| ==> 0 <= path[i].layer < |st.layers|)
    && forall i :: 0 <= i < |path| - 1 ==> Move(path[i], path[i + 1])
  }

  /** From `i` to `k` the path keeps its layer and takes the same step throughout. */
  ghost predicate Straight(path: seq<Cell>, i: nat, k: nat) {
    && i < k < |path|
    && forall j :: i <= j < k ==>
         path[j + 1].layer == path[j].layer
         && path[j + 1].x - path[j].x == path[i + 1].x - path[i].x && path[j + 1].y - path[j].y == path[i + 1].y - path[i].y
  }

  ghost predicate Hop(path: seq<Cell>, i: nat, k: nat) {
    i < k < |path| && k == i + 1 && path[k].layer != path[i].layer
  }

  /** A run that cannot be made longer. */
  ghost predicate LongestRun(path: seq<Cell>, i: nat, k: nat) { Straight(path, i, k) && !Straight(path, i, k + 1) }

  ghost function WireOf(st: Style, path: seq<Cell>, i: nat, k: nat, net: string, n: nat): Wire
    requires i < k < |path| && forall j :: 0 <= j < |path| ==> 0 <= path[j].layer < |st.layers|
  {
    if path[i + 1].layer != path[i].layer then Via(net, st.uuid(n), st.At(path[i]), st.viaD, st.top, st.bottom)
    else Segment(net, st.uuid(n), st.At(path[i]), st.At(path[k]), st.width, st.layers[path[i].layer])
  }

  /** Stretch `r` is a via or a longest straight run, and has its wire. */
  ghost predicate RunAt(st: Style, path: seq<Cell>, net: string, n: nat, cuts: seq<nat>, ws: seq<Wire>, r: nat)
    requires r < |ws| && r + 1 < |cuts| && forall j :: 0 <= j < |path| ==> 0 <= path[j].layer < |st.layers|
  {
    && cuts[r] < cuts[r + 1] < |path|
    && (Hop(path, cuts[r], cuts[r + 1]) || LongestRun(path, cuts[r], cuts[r + 1]))
    && ws[r] == WireOf(st, path, cuts[r], cuts[r + 1], net, n + r)
  }

  /** The wires stand for the path as cut at these places: each stretch between two cuts is a via or a longest
      straight run, and has its one wire. */
  ghost predicate StandsFor(st: Style, path: seq<Cell>, net: string, n: nat, cuts: seq<nat>, ws: seq<Wire>) {
    && |cuts| == |ws| + 1 && cuts[0] == 0 && (forall r :: 0 <= r < |cuts| ==> cuts[r] < |path|)
    && (forall j :: 0 <= j < |path| ==> 0 <= path[j].layer < |st.layers|)
    && forall r :: 0 <= r < |ws| ==> RunAt(st, path, net, n, cuts, ws, r)
  }

  // ---- what that means on the board ----

  /** Every cell a straight run passes lies on its segment, evenly spaced from end to end: the copper goes
      where the path does. */
  lemma {:induction false} CellsOnSegment(st: Style, path: seq<Cell>, i: nat, k: nat, j: nat)
    requires Straight(path, i, k) && i <= j <= k
    ensures st.At(path[j]) == st.At(path[i]).Add(st.At(path[i + 1]).Sub(st.At(path[i])).Mul((j - i) as real))
  {
    if j > i {
      CellsOnSegment(st, path, i, k, j - 1);
      var dx, dy := (path[i + 1].x - path[i].x) as real, (path[i + 1].y - path[i].y) as real;
      var m := (j - i) as real;
      assert path[j].x as real == path[j - 1].x as real + dx && path[j].y as real == path[j - 1].y as real + dy;
      OneStepOn(path[j - 1].x as real, dx, st.pitch, m);
      OneStepOn(path[j - 1].y as real, dy, st.pitch, m);
      OneStepOn(path[i].x as real, dx, st.pitch, 1.0);
      OneStepOn(path[i].y as real, dy, st.pitch, 1.0);
    }
  }

  lemma OneStepOn(a: real, d: real, p: real, m: real)
    ensures (a + d) * p == a * p + d * p && (d * p) * m == (d * p) * (m - 1.0) + d * p
  {
  }

  function StartOf(w: Wire): Pt
    requires !w.Arc?
  {
    if w.Via? then w.at else w.start
  }

  function EndOf(w: Wire): Pt
    requires !w.Arc?
  {
    if w.Via? then w.at else w.end
  }

  /** Each wire ends where the next begins, and the layer changes only at a via. */
  ghost predicate Joined(ws: seq<Wire>) {
    && (forall r :: 0 <= r < |ws| ==> !ws[r].Arc?)
    && (forall r :: 0 <= r < |ws| - 1 ==> EndOf(ws[r]) == StartOf(ws[r + 1]))
    && (forall r :: 0 <= r < |ws| - 1 && ws[r].Segment? && ws[r + 1].Segment? ==> ws[r].layer == ws[r + 1].layer)
  }

  /** The copper is one unbroken run from the first cell of the path to the last, bending only where the path does. */
  lemma CopperIsUnbroken(st: Style, path: seq<Cell>, net: string, n: nat, cuts: seq<nat>, ws: seq<Wire>)
    requires Walkable(st, path) && StandsFor(st, path, net, n, cuts, ws) && ws != [] && cuts[|cuts| - 1] == |path| - 1
    ensures Joined(ws) && StartOf(ws[0]) == st.At(path[0]) && EndOf(ws[|ws| - 1]) == st.At(path[|path| - 1])
    ensures forall r :: 0 <= r < |ws| - 1 && ws[r].Segment? && ws[r + 1].Segment? ==> !Straight(path, cuts[r], cuts[r + 2])
  {
    hide LongestRun, Style.At;
    forall r | 0 <= r < |ws|
      ensures !ws[r].Arc? && StartOf(ws[r]) == st.At(path[cuts[r]]) && EndOf(ws[r]) == st.At(path[cuts[r + 1]])
      ensures ws[r].Segment? ==> ws[r].layer == st.layers[path[cuts[r]].layer] && path[cuts[r]].layer == path[cuts[r + 1]].layer
    {
      RunEnds(st, path, net, n, cuts, ws, r);
    }
    forall r | 0 <= r < |ws| - 1 && ws[r].Segment? && ws[r + 1].Segment? ensures !Straight(path, cuts[r], cuts[r + 2]) {
      RunIsLongest(st, path, net, n, cuts, ws, r);
    }
  }

  lemma RunEnds(st: Style, path: seq<Cell>, net: string, n: nat, cuts: seq<nat>, ws: seq<Wire>, r: nat)
    requires Walkable(st, path) && StandsFor(st, path, net, n, cuts, ws) && r < |ws|
    ensures !ws[r].Arc? && StartOf(ws[r]) == st.At(path[cuts[r]]) && EndOf(ws[r]) == st.At(path[cuts[r + 1]])
    ensures ws[r].Segment? ==> ws[r].layer == st.layers[path[cuts[r]].layer] && path[cuts[r]].layer == path[cuts[r + 1]].layer
  {
    var i, k := cuts[r], cuts[r + 1];
    assert RunAt(st, path, net, n, cuts, ws, r);
    if path[i + 1].layer != path[i].layer {
      HopStaysPut(st, path, i);
    } else {
      SameLayerThroughout(path, i, k);
    }
  }

  lemma HopStaysPut(st: Style, path: seq<Cell>, i: nat)
    requires Walkable(st, path) && i + 1 < |path| && path[i + 1].layer != path[i].layer
    ensures st.At(path[i + 1]) == st.At(path[i])
  {
    var a, b := path[i], path[i + 1];
    assert Move(a, b);
    SamePlace(st, a, b);
  }

  lemma SamePlace(st: Style, a: Cell, b: Cell)
    requires a.x == b.x && a.y == b.y
    ensures st.At(a) == st.At(b)
  {
    var x, y := a.x, a.y;
    assert st.At(a) == Pt(st.origin.x + x as real * st.pitch, st.origin.y + y as real * st.pitch) == st.At(b);
  }

  lemma {:induction false} SameLayerThroughout(path: seq<Cell>, i: nat, k: nat)
    requires Straight(path, i, k)
    ensures path[k].layer == path[i].layer
    decreases k
  {
    if k > i + 1 { SameLayerThroughout(path, i, k - 1); }
  }

  lemma RunIsLongest(st: Style, path: seq<Cell>, net: string, n: nat, cuts: seq<nat>, ws: seq<Wire>, r: nat)
    requires StandsFor(st, path, net, n, cuts, ws) && r + 1 < |ws| && ws[r].Segment?
    ensures !Straight(path, cuts[r], cuts[r + 2])
  {
    var i, k, l := cuts[r], cuts[r + 1], cuts[r + 2];
    assert RunAt(st, path, net, n, cuts, ws, r) && RunAt(st, path, net, n, cuts, ws, r + 1);
    var longer: nat := k + 1;
    hide Straight;
    if Straight(path, i, l) { ShorterRun(path, i, longer, l); }
  }

  lemma ShorterRun(path: seq<Cell>, i: nat, k: nat, l: nat)
    requires Straight(path, i, l) && i < k <= l
    ensures Straight(path, i, k)
  {
  }

  /** A segment, unless it would have no length. */
  function Stub(st: Style, a: Pt, b: Pt, layer: string, net: string, n: nat): seq<Wire> {
    if a == b then [] else [Segment(net, st.uuid(n), a, b, st.width, layer)]
  }

  // ---- from pad to pad ----

  /** All the copper of a path: what stands for it, then a stub from the first pad to its first cell and one from its
      last cell to the other pad, named in turn. */
  ghost predicate IsCopper(st: Style, path: seq<Cell>, net: string, from: Pt, to: Pt, n: nat, cuts: seq<nat>,
                           body: seq<Wire>, out: seq<Wire>)
    requires path != [] && Walkable(st, path)
  {
    var first, last := path[0], path[|path| - 1];
    var head := Stub(st, from, st.At(first), st.layers[first.layer], net, n + |body|);
    && StandsFor(st, path, net, n, cuts, body) && cuts[|cuts| - 1] == |path| - 1
    && out == body + head + Stub(st, st.At(last), to, st.layers[last.layer], net, n + |body| + |head|)
  }

  /** All of it is drawn as asked: segments of the track's width on layers of the grid, vias of their size through the
      board. */
  lemma DrawnAsAsked(st: Style, path: seq<Cell>, net: string, from: Pt, to: Pt, n: nat, cuts: seq<nat>, body: seq<Wire>,
                     out: seq<Wire>, w: Wire)
    requires path != [] && Walkable(st, path) && IsCopper(st, path, net, from, to, n, cuts, body, out) && w in out
    ensures w.net == net && (w.Segment? || w.Via?)
    ensures w.Segment? ==> w.width == st.width && exists j :: 0 <= j < |path| && w.layer == st.layers[path[j].layer]
    ensures w.Via? ==> w.size == st.viaD && w.top == st.top && w.bottom == st.bottom && exists j :: 0 <= j < |path| && w.at == st.At(path[j])
  {
    hide Hop, LongestRun, Style.At;
    var i :| 0 <= i < |out| && out[i] == w;
    if i < |body| {
      assert RunAt(st, path, net, n, cuts, body, i);
      assert path[cuts[i]].layer == path[cuts[i]].layer;
    } else {
      assert w.Segment? && (w.layer == st.layers[path[0].layer] || w.layer == st.layers[path[|path| - 1].layer]);
    }
  }

  /** Wires end to end, from a place on one layer to a place on another. */
  ghost predicate Links(ws: seq<Wire>, a: Pt, la: string, b: Pt, lb: string) {
    if ws == [] then a == b && la == lb
    else
      && Joined(ws) && StartOf(ws[0]) == a && EndOf(ws[|ws| - 1]) == b
      && (ws[0].Segment? ==> ws[0].layer == la) && (ws[|ws| - 1].Segment? ==> ws[|ws| - 1].layer == lb)
  }

  lemma LinksTogether(x: seq<Wire>, y: seq<Wire>, a: Pt, la: string, b: Pt, lb: string, c: Pt, lc: string)
    requires Links(x, a, la, b, lb) && Links(y, b, lb, c, lc)
    ensures Links(x + y, a, la, c, lc)
  {
    hide StartOf, EndOf;
    if x == [] {
      assert x + y == y;
    } else if y == [] {
      assert x + y == x;
    }
  }

  lemma StubLinks(st: Style, a: Pt, b: Pt, layer: string, net: string, n: nat)
    ensures Links(Stub(st, a, b, layer, net, n), a, layer, b, layer)
  {
  }

  lemma BodyLinks(st: Style, path: seq<Cell>, net: string, n: nat, cuts: seq<nat>, ws: seq<Wire>)
    requires Walkable(st, path) && path != [] && StandsFor(st, path, net, n, cuts, ws) && cuts[|cuts| - 1] == |path| - 1
    ensures
      var first, last := path[0], path[|path| - 1];
      Links(ws, st.At(first), st.layers[first.layer], st.At(last), st.layers[last.layer])
  {
    hide Style.At, StartOf, EndOf, RunAt, Joined;
    if ws != [] {
      CopperIsUnbroken(st, path, net, n, cuts, ws);
      RunEnds(st, path, net, n, cuts, ws, 0);
      RunEnds(st, path, net, n, cuts, ws, |ws| - 1);
    }
  }

  /** Put in order, the copper of a path is one unbroken run from one pad's centre to the other's, leaving the first pad
      on the layer of the path's first cell and reaching the other on that of its last. */
  lemma PadsAreJoined(st: Style, path: seq<Cell>, net: string, from: Pt, to: Pt, n: nat, cuts: seq<nat>,
                      body: seq<Wire>, out: seq<Wire>)
    returns (chain: seq<Wire>)
    requires path != [] && Walkable(st, path) && IsCopper(st, path, net, from, to, n, cuts, body, out)
    ensures multiset(chain) == multiset(out)
    ensures Links(chain, from, st.layers[path[0].layer], to, st.layers[path[|path| - 1].layer])
  {
    hide Style.At, StandsFor, Links, Stub;
    var first, last := path[0], path[|path| - 1];
    var la, lb := st.layers[first.layer], st.layers[last.layer];
    var head := Stub(st, from, st.At(first), la, net, n + |body|);
    var tail := Stub(st, st.At(last), to, lb, net, n + |body| + |head|);
    StubLinks(st, from, st.At(first), la, net, n + |body|);
    StubLinks(st, st.At(last), to, lb, net, n + |body| + |head|);
    BodyLinks(st, path, net, n, cuts, body);
    LinksTogether(head, body, from, la, st.At(first), la, st.At(last), lb);
    LinksTogether(head + body, tail, from, la, st.At(last), lb, to, lb);
    chain := head + body + tail;
    assert multiset(chain) == multiset(head) + multiset(body) + multiset(tail);
  }

  /** Different cells of a layer are in different places. */
  lemma CellsApart(st: Style, a: Cell, b: Cell)
    requires st.pitch > 0.0 && (a.x != b.x || a.y != b.y)
    ensures st.At(a) != st.At(b)
  {
    if st.At(a) == st.At(b) {
      SameProduct(a.x as real, b.x as real, st.pitch);
      SameProduct(a.y as real, b.y as real, st.pitch);
    }
  }

  lemma SameProduct(a: real, b: real, p: real)
    requires p > 0.0 && a * p == b * p
    ensures a == b
  {
    assert (a - b) * p == 0.0;
  }

  /** A straight run never comes back to where it began, so its segment has a length. */
  lemma EndsApart(st: Style, path: seq<Cell>, i: nat, k: nat)
    requires Walkable(st, path) && Straight(path, i, k)
    ensures st.At(path[i]) != st.At(path[k])
  {
    hide Style.At;
    StepsAddUp(path, i, k);
    var dx, dy := path[i + 1].x - path[i].x, path[i + 1].y - path[i].y;
    assert Move(path[i], path[i + 1]);
    NoReturn(dx, k - i);
    NoReturn(dy, k - i);
    CellsApart(st, path[i], path[k]);
  }

  lemma NoReturn(d: int, m: int)
    requires m > 0
    ensures d * m == 0 ==> d == 0
  {
  }

  lemma {:induction false} StepsAddUp(path: seq<Cell>, i: nat, k: nat)
    requires Straight(path, i, k)
    ensures path[k].x - path[i].x == (path[i + 1].x - path[i].x) * (k - i)
    ensures path[k].y - path[i].y == (path[i + 1].y - path[i].y) * (k - i)
    decreases k
  {
    if k > i + 1 {
      StepsAddUp(path, i, k - 1);
      assert path[k].x - path[k - 1].x == path[i + 1].x - path[i].x;
      assert path[k].y - path[k - 1].y == path[i + 1].y - path[i].y;
      OneMore(path[i + 1].x - path[i].x, k - i);
      OneMore(path[i + 1].y - path[i].y, k - i);
    }
  }

  lemma OneMore(d: int, m: int)
    ensures d * m == d * (m - 1) + d
  {
  }

  lemma OneStepLonger(path: seq<Cell>, i: nat, k: nat)
    requires Straight(path, i, k) && k + 1 < |path| && path[k + 1].layer == path[k].layer
    requires path[k + 1].x - path[k].x == path[i + 1].x - path[i].x
    requires path[k + 1].y - path[k].y == path[i + 1].y - path[i].y
    ensures Straight(path, i, k + 1)
  {
  }

  lemma OneRunMore(st: Style, path: seq<Cell>, net: string, n: nat, cuts: seq<nat>, ws: seq<Wire>, k: nat, w: Wire)
    requires StandsFor(st, path, net, n, cuts, ws)
    requires Hop(path, cuts[|ws|], k) || LongestRun(path, cuts[|ws|], k)
    requires cuts[|ws|] < k < |path| && w == WireOf(st, path, cuts[|ws|], k, net, n + |ws|)
    ensures StandsFor(st, path, net, n, cuts + [k], ws + [w])
  {
    hide Hop, LongestRun, WireOf;
    var cs, vs := cuts + [k], ws + [w];
    forall r: nat | r < |vs| ensures RunAt(st, path, net, n, cs, vs, r) {
      if r < |ws| { assert RunAt(st, path, net, n, cuts, ws, r); }
    }
  }

  /** New copper: each piece on the net, and named in turn. */
  ghost predicate NewOn(st: Style, ws: seq<Wire>, net: string, n: nat) {
    forall i :: 0 <= i < |ws| ==> ws[i].net == net && ws[i].uuid == st.uuid(n + i) && !ws[i].Arc?
  }

  /** How far the step from one cell to the next stays the same. */
  method RunEnd(path: seq<Cell>, i: nat) returns (k: nat)
    requires i + 1 < |path| && path[i + 1].layer == path[i].layer
    ensures LongestRun(path, i, k) && Straight(path, i, k) && i < k < |path|
  {
    var dx, dy := path[i + 1].x - path[i].x, path[i + 1].y - path[i].y;
    k := i + 1;
    while k + 1 < |path| && path[k + 1].layer == path[i].layer && path[k + 1].x - path[k].x == dx && path[k + 1].y - path[k].y == dy
      invariant Straight(path, i, k)
    {
      SameLayerThroughout(path, i, k);
      OneStepLonger(path, i, k);
      k := k + 1;
    }
    NoLonger(path, i, k);
  }

  lemma NoLonger(path: seq<Cell>, i: nat, k: nat)
    requires Straight(path, i, k)
    requires k + 1 < |path| && path[k + 1].layer == path[i].layer ==>
      path[k + 1].x - path[k].x != path[i + 1].x - path[i].x || path[k + 1].y - path[k].y != path[i + 1].y - path[i].y
    ensures !Straight(path, i, k + 1)
  {
    var l := k + 1;
    if Straight(path, i, l) { SameLayerThroughout(path, i, l); }
  }

  /** The tracks and vias a path stands for. The ends reach the pads: each stub starts or ends at the pad's centre,
      and is left out where the pad is on the cell. */
  method Copper(st: Style, path: seq<Cell>, net: string, from: Pt, to: Pt, n: nat)
    returns (out: seq<Wire>, ghost cuts: seq<nat>, ghost body: seq<Wire>)
    requires path != [] && Walkable(st, path)
    ensures IsCopper(st, path, net, from, to, n, cuts, body, out)
    ensures NewOn(st, out, net, n)
  {
    hide LongestRun, Style.At, Straight;
    out := [];
    cuts := [0];
    var i := 0;
    while i + 1 < |path|
      invariant StandsFor(st, path, net, n, cuts, out) && i == cuts[|out|]
      invariant NewOn(st, out, net, n)
    {
      var k: nat, w: Wire;
      if path[i + 1].layer != path[i].layer {
        k, w := i + 1, Via(net, st.uuid(n + |out|), st.At(path[i]), st.viaD, st.top, st.bottom);
      } else {
        k := RunEnd(path, i);
        w := Segment(net, st.uuid(n + |out|), st.At(path[i]), st.At(path[k]), st.width, st.layers[path[i].layer]);
        EndsApart(st, path, i, k);
      }
      OneRunMore(st, path, net, n, cuts, out, k, w);
      out, cuts, i := out + [w], cuts + [k], k;
    }
    body := out;
    var first, last := path[0], path[|path| - 1];
    out := out + Stub(st, from, st.At(first), st.layers[first.layer], net, n + |out|);
    out := out + Stub(st, st.At(last), to, st.layers[last.layer], net, n + |out|);
  }
}
