/** Where copper may be added (tune/areas.go): in these areas, or anywhere if there are none. */
module Areas {
  import opened Common
  import opened Geometry
  import opened Euclid

  predicate Allows(areas: seq<Rect>, p: Pt) { areas == [] || exists k :: 0 <= k < |areas| && areas[k].Contains(p) }

  function Middle(a: Pt, b: Pt): Pt { Pt((a.x + b.x) / 2.0, (a.y + b.y) / 2.0) }

  /** A whole stretch, ends and middle, within one area. */
  predicate AllowsSpan(areas: seq<Rect>, a: Pt, b: Pt) {
    areas == [] || exists k :: 0 <= k < |areas| && areas[k].Contains(a) && areas[k].Contains(b) && areas[k].Contains(Middle(a, b))
  }

  /** Boxes being what they are, that is all of it: every place in the box that the ends span. */
  lemma SpanIsWhole(areas: seq<Rect>, a: Pt, b: Pt)
    ensures AllowsSpan(areas, a, b) <==>
      areas == [] || exists k :: 0 <= k < |areas| && HoldsBetween(areas[k], a, b)
  {
    forall k | 0 <= k < |areas|
      ensures areas[k].Contains(a) && areas[k].Contains(b) && areas[k].Contains(Middle(a, b)) <==> HoldsBetween(areas[k], a, b)
    {
      assert Between(a, b, a) && Between(a, b, b) && Between(a, b, Middle(a, b));
    }
    hide Middle, HoldsBetween;
  }

  ghost predicate HoldsBetween(r: Rect, a: Pt, b: Pt) { forall z :: Between(a, b, z) ==> r.Contains(z) }

  function LeastOf(lim: Option<real>, v: real): Option<real> {
    match lim
    case None => Some(v)
    case Some(w) => Some(Min(w, v))
  }

  /** How far along a direction a coordinate may go. */
  function AxisLimit(lim: Option<real>, lo: real, hi: real, at: real, d: real): Option<real> {
    if d > 0.0 then LeastOf(lim, Over(hi - at, d)) else if d < 0.0 then LeastOf(lim, Over(lo - at, d)) else lim
  }

  /** How far a point may travel before leaving a box. */
  function EdgeDistance(r: Rect, p: Pt, d: Pt): real {
    match AxisLimit(AxisLimit(None, r.minX, r.maxX, p.x, d.x), r.minY, r.maxY, p.y, d.y)
    case None => 0.0
    case Some(lim) => if lim < 0.0 then 0.0 else lim
  }

  lemma OverBound(t: real, m: real, d: real)
    requires d != 0.0
    ensures d > 0.0 ==> (t <= Over(m, d) <==> Times(d, t) <= m)
    ensures d < 0.0 ==> (t <= Over(m, d) <==> Times(d, t) >= m)
  {
    var q := Over(m, d);
    OverTimes(m, d);
    Distribute(q, t, d);
    Distribute(t, q, d);
    Distribute(d, 0.0, t);
    if d > 0.0 {
      if q < t { PositiveTimes(t - q, d); }
      if t < q { PositiveTimes(q - t, d); }
    } else {
      NegativeTimes(t - q, d);
      NegativeTimes(q - t, d);
    }
  }

  lemma NegativeTimes(a: real, d: real)
    requires d < 0.0
    ensures a > 0.0 ==> Times(a, d) < 0.0
  {
    if a > 0.0 {
      PositiveTimes(a, -d);
      Distribute(0.0, d, a);
      Distribute(a, 0.0, d);
      Distribute(-d, 0.0, a);
      Distribute(d, 0.0, a);
    }
  }

  lemma OverNotNegative(m: real, d: real)
    requires d != 0.0 && (d > 0.0 ==> m >= 0.0) && (d < 0.0 ==> m <= 0.0)
    ensures Over(m, d) >= 0.0
  {
    OverBound(0.0, m, d);
    Distribute(0.0, 0.0, d);
    assert Times(d, 0.0) == 0.0;
  }

  /** Exactly how far: a point inside stays inside just that long. */
  lemma EdgeDistanceExact(r: Rect, p: Pt, d: Pt, t: real)
    requires r.Contains(p) && t >= 0.0
    ensures d.x != 0.0 || d.y != 0.0 ==> (r.Contains(p.Add(Scale(d, t))) <==> t <= EdgeDistance(r, p, d))
    ensures d.x == 0.0 && d.y == 0.0 ==> EdgeDistance(r, p, d) == 0.0
  {
    AxisExact(r.minX, r.maxX, p.x, d.x, t);
    AxisExact(r.minY, r.maxY, p.y, d.y, t);
    hide Times, Over;
  }

  lemma AxisExact(lo: real, hi: real, at: real, d: real, t: real)
    requires lo <= at <= hi && t >= 0.0
    ensures d > 0.0 ==> Over(hi - at, d) >= 0.0 && (lo <= at + Times(d, t) <= hi <==> t <= Over(hi - at, d))
    ensures d < 0.0 ==> Over(lo - at, d) >= 0.0 && (lo <= at + Times(d, t) <= hi <==> t <= Over(lo - at, d))
    ensures d == 0.0 ==> Times(d, t) == 0.0
  {
    Distribute(d, 0.0, t);
    if d > 0.0 {
      OverBound(t, hi - at, d);
      OverNotNegative(hi - at, d);
      if t > 0.0 { PositiveTimes(d, t); }
    } else if d < 0.0 {
      OverBound(t, lo - at, d);
      OverNotNegative(lo - at, d);
      NegativeTimes(t, d);
    }
  }

  /** How far a stretch may go to one side and stay in an area; nothing, where it may go anywhere. */
  method RoomToward(areas: seq<Rect>, a: Pt, b: Pt, side: Pt) returns (room: Option<real>)
    requires side.x != 0.0 || side.y != 0.0
    ensures room.None? <==> areas == []
    ensures room.Some? ==> room.value >= 0.0
    ensures room.Some? ==> forall t :: 0.0 <= t <= room.value && (room.value > 0.0 || AllowsSpan(areas, a, b)) ==> HasRoom(areas, a, b, side, t)
    ensures room.Some? ==> forall t :: t >= 0.0 && HasRoom(areas, a, b, side, t) ==> t <= room.value
  {
    if areas == [] { return None; }
    var best := 0.0;
    for k := 0 to |areas|
      invariant best >= 0.0 && (best > 0.0 ==> HasRoom(areas, a, b, side, best))
      invariant forall t, i :: 0 <= i < k && t >= 0.0 && RoomIn(areas[i], a, b, side, t) ==> t <= best
    {
      var r := areas[k];
      if r.Contains(a) && r.Contains(b) {
        var d := Min(EdgeDistance(r, a, side), EdgeDistance(r, b, side));
        RoomInIs(r, a, b, side);
        if d > best {
          best := d;
          assert RoomIn(areas[k], a, b, side, best);
        }
      }
    }
    forall t | 0.0 <= t <= best && (best > 0.0 || AllowsSpan(areas, a, b)) ensures HasRoom(areas, a, b, side, t) {
      LessRoom(areas, a, b, side, best, t);
    }
    room := Some(best);
  }

  /** The stretch, and the stretch moved aside by `t`, are both in the area. */
  ghost predicate RoomIn(r: Rect, a: Pt, b: Pt, side: Pt, t: real) {
    r.Contains(a) && r.Contains(b) && r.Contains(a.Add(Scale(side, t))) && r.Contains(b.Add(Scale(side, t)))
  }

  ghost predicate HasRoom(areas: seq<Rect>, a: Pt, b: Pt, side: Pt, t: real) {
    exists k :: 0 <= k < |areas| && RoomIn(areas[k], a, b, side, t)
  }

  lemma RoomInIs(r: Rect, a: Pt, b: Pt, side: Pt)
    requires r.Contains(a) && r.Contains(b) && (side.x != 0.0 || side.y != 0.0)
    ensures EdgeDistance(r, a, side) >= 0.0 && EdgeDistance(r, b, side) >= 0.0
    ensures forall t :: t >= 0.0 ==> (RoomIn(r, a, b, side, t) <==> t <= Min(EdgeDistance(r, a, side), EdgeDistance(r, b, side)))
  {
    forall t | t >= 0.0 ensures RoomIn(r, a, b, side, t) <==> t <= Min(EdgeDistance(r, a, side), EdgeDistance(r, b, side)) {
      EdgeDistanceExact(r, a, side, t);
      EdgeDistanceExact(r, b, side, t);
    }
  }

  lemma LessRoom(areas: seq<Rect>, a: Pt, b: Pt, side: Pt, best: real, t: real)
    requires 0.0 <= t <= best && (side.x != 0.0 || side.y != 0.0)
    requires if best > 0.0 then HasRoom(areas, a, b, side, best) else areas != [] && AllowsSpan(areas, a, b)
    ensures HasRoom(areas, a, b, side, t)
  {
    if best > 0.0 {
      var k :| 0 <= k < |areas| && RoomIn(areas[k], a, b, side, best);
      RoomInIs(areas[k], a, b, side);
      assert RoomIn(areas[k], a, b, side, t);
    } else {
      var k :| 0 <= k < |areas| && areas[k].Contains(a) && areas[k].Contains(b);
      Distribute(0.0, 0.0, side.x);
      Distribute(0.0, 0.0, side.y);
      assert RoomIn(areas[k], a, b, side, t);
    }
  }

  // ---- a strip beside a stretch ----

  lemma TimesBetween(u: real, lo: real, at: real, hi: real)
    requires lo <= at <= hi
    ensures Min(Times(u, lo), Times(u, hi)) <= Times(u, at) <= Max(Times(u, lo), Times(u, hi))
  {
    Distribute(at, lo, u);
    Distribute(hi, at, u);
    SignOf(u, at - lo);
    SignOf(u, hi - at);
  }

  lemma SignOf(u: real, d: real)
    requires d >= 0.0
    ensures (u >= 0.0 ==> Times(d, u) >= 0.0) && (u <= 0.0 ==> Times(d, u) <= 0.0)
  {
  }

  /** A value that varies along and across is bounded by its values at the corners. */
  lemma CornersBound(c: real, u: real, v: real, lo: real, at: real, hi: real, p: real, h: real, least: real, most: real)
    requires lo <= at <= hi && 0.0 <= p <= h
    requires least <= c + Times(u, lo) + Times(v, 0.0) <= most && least <= c + Times(u, hi) + Times(v, 0.0) <= most
    requires least <= c + Times(u, lo) + Times(v, h) <= most && least <= c + Times(u, hi) + Times(v, h) <= most
    ensures least <= c + Times(u, at) + Times(v, p) <= most
  {
    TimesBetween(u, lo, at, hi);
    TimesBetween(v, 0.0, p, h);
    hide Times;
  }

  /** An area that holds the four corners of a strip holds all of it. */
  lemma StripInside(r: Rect, x: Axes, lo: real, hi: real, h: real, at: real, p: real)
    requires lo <= at <= hi && 0.0 <= p <= h
    requires r.Contains(x.At(lo, 0.0)) && r.Contains(x.At(hi, 0.0)) && r.Contains(x.At(lo, h))
    requires r.Contains(x.At(hi, h))
    ensures r.Contains(x.At(at, p))
  {
    hide Times;
    CornersBound(x.from.x, x.u.x, x.v.x, lo, at, hi, p, h, r.minX, r.maxX);
    CornersBound(x.from.y, x.u.y, x.v.y, lo, at, hi, p, h, r.minY, r.maxY);
  }
}
