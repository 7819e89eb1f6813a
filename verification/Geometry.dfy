/** Points and boxes on the board (geom/geom.go), in exact arithmetic. */
module Geometry {

  function Min(a: real, b: real): real { if b < a then b else a }

  function Max(a: real, b: real): real { if b > a then b else a }

  function AbsR(a: real): real { if a < 0.0 then -a else a }

  datatype Pt = Pt(x: real, y: real) {
    function Add(q: Pt): Pt { Pt(x + q.x, y + q.y) }
    function Sub(q: Pt): Pt { Pt(x - q.x, y - q.y) }
    function Mul(s: real): Pt { Pt(x * s, y * s) }
    function Perp(): Pt { Pt(-y, x) }
  }

  /** An axis-aligned box. */
  datatype Rect = Rect(minX: real, minY: real, maxX: real, maxY: real) {
    function Union(o: Rect): Rect {
      Rect(Min(minX, o.minX), Min(minY, o.minY), Max(maxX, o.maxX), Max(maxY, o.maxY))
    }

    function Grow(d: real): Rect { Rect(minX - d, minY - d, maxX + d, maxY + d) }

    predicate Overlaps(o: Rect) {
      minX <= o.maxX && o.minX <= maxX && minY <= o.maxY && o.minY <= maxY
    }

    predicate Contains(p: Pt) { minX <= p.x <= maxX && minY <= p.y <= maxY }

    /** A box that has something in it. */
    predicate Proper() { minX <= maxX && minY <= maxY }

    predicate Within(o: Rect) { o.minX <= minX && maxX <= o.maxX && o.minY <= minY && maxY <= o.maxY }
  }

  /** Somewhere in the box that two points span. */
  predicate Between(x: Pt, y: Pt, z: Pt) {
    && (x.x <= z.x <= y.x || y.x <= z.x <= x.x) && (x.y <= z.y <= y.y || y.y <= z.y <= x.y)
  }

  /** No farther apart than that on either axis. */
  predicate CloseTo(p: Pt, q: Pt, d: real) { AbsR(p.x - q.x) <= d && AbsR(p.y - q.y) <= d }

  /** The box that two points span, grown, is what is close to some place between them. */
  lemma GrownSpan(x: Pt, y: Pt, d: real, p: Pt)
    requires d >= 0.0
    ensures
      Rect(Min(x.x, y.x), Min(x.y, y.y), Max(x.x, y.x), Max(x.y, y.y)).Grow(d).Contains(p) <==>
      exists z :: Between(x, y, z) && CloseTo(p, z, d)
  {
    var z := Pt(Max(Min(x.x, y.x), Min(p.x, Max(x.x, y.x))), Max(Min(x.y, y.y), Min(p.y, Max(x.y, y.y))));
    assert Between(x, y, z);
  }

  /** Boxes overlap where they have a place in common. */
  lemma OverlapIsCommon(a: Rect, b: Rect)
    requires a.Proper() && b.Proper()
    ensures a.Overlaps(b) <==> exists p :: a.Contains(p) && b.Contains(p)
  {
    var p := Pt(Max(a.minX, b.minX), Max(a.minY, b.minY));
    if a.Overlaps(b) { assert a.Contains(p) && b.Contains(p); }
  }

  /** A box grown overlaps another where some places of the two are that close. */
  lemma GrownOverlap(a: Rect, b: Rect, d: real)
    requires a.Proper() && b.Proper() && d >= 0.0
    ensures a.Grow(d).Overlaps(b) <==> exists p, q :: a.Contains(p) && b.Contains(q) && CloseTo(p, q, d)
  {
    var p := Pt(Max(a.minX, Min(b.minX, a.maxX)), Max(a.minY, Min(b.minY, a.maxY)));
    var q := Pt(Max(b.minX, Min(p.x, b.maxX)), Max(b.minY, Min(p.y, b.maxY)));
    if a.Grow(d).Overlaps(b) { assert a.Contains(p) && b.Contains(q) && CloseTo(p, q, d); }
  }

  /** The union of two boxes is within just what both are within. */
  lemma UnionIsLeast(a: Rect, b: Rect, c: Rect)
    ensures a.Union(b).Within(c) <==> a.Within(c) && b.Within(c)
  {
  }
}
