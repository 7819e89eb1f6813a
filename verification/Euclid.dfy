/** Distances in the plane (geom/geom.go), known only by their squares. */
module Euclid {
  import opened Geometry

  type Distance = (Pt, Pt) -> real

  function Times(a: real, b: real): real { a * b }

  function Sqr(a: real): real { a * a }

  function Sq(p: Pt): real { Sqr(p.x) + Sqr(p.y) }

  /** The distance between two points: not negative, and its square is what it should be. */
  ghost predicate Euclidean(dist: Distance) {
    forall a: Pt, b: Pt :: dist(a, b) >= 0.0 && Sqr(dist(a, b)) == Sq(b.Sub(a))
  }

  // ---- squares and products ----

  lemma PositiveTimes(a: real, b: real)
    requires a > 0.0 && b > 0.0
    ensures Times(a, b) > 0.0
  {
  }

  lemma SqrFacts(a: real)
    ensures Sqr(a) >= 0.0 && (Sqr(a) == 0.0 ==> a == 0.0) && Sqr(-a) == Sqr(a) && Times(a, a) == Sqr(a)
  {
    if a > 0.0 { PositiveTimes(a, a); }
    if a < 0.0 { PositiveTimes(-a, -a); }
  }

  lemma Distribute(a: real, b: real, c: real)
    ensures Times(a + b, c) == Times(a, c) + Times(b, c) && Times(a - b, c) == Times(a, c) - Times(b, c)
    ensures Times(c, a) == Times(a, c) && Times(1.0, c) == c && Times(0.0, c) == 0.0 && Times(-a, c) == -Times(a, c)
  {
  }

  lemma SqrOfProduct(a: real, b: real)
    ensures Sqr(Times(a, b)) == Times(Sqr(a), Sqr(b))
  {
  }

  lemma SqrOfSum(a: real, b: real)
    ensures Sqr(a + b) == Sqr(a) + 2.0 * Times(a, b) + Sqr(b)
  {
  }

  lemma SameSquare(a: real, b: real)
    requires a >= 0.0 && b >= 0.0 && Sqr(a) == Sqr(b)
    ensures a == b
  {
    if a != b {
      if a < b { Grows(a, b); } else { Grows(b, a); }
    }
  }

  lemma Grows(a: real, b: real)
    requires 0.0 <= a < b
    ensures Sqr(a) < Sqr(b)
  {
    PositiveTimes(b - a, b + a);
    assert Times(b - a, b + a) == Sqr(b) - Sqr(a);
  }

  lemma BothZero(x: real, y: real)
    requires Sqr(x) + Sqr(y) == 0.0
    ensures x == 0.0 && y == 0.0
  {
    SqrFacts(x);
    SqrFacts(y);
    hide Sqr;
  }

  lemma CancelFactor(a: real, l: real)
    requires l > 0.0 && Times(a, l) == l
    ensures a == 1.0
  {
    Distribute(a, 1.0, l);
    Distribute(1.0, a, l);
    if a > 1.0 { PositiveTimes(a - 1.0, l); }
    if a < 1.0 { PositiveTimes(1.0 - a, l); }
  }

  // ---- distances ----

  lemma DistanceIs(dist: Distance, a: Pt, b: Pt, d: real)
    requires Euclidean(dist) && d >= 0.0 && Sqr(d) == Sq(b.Sub(a))
    ensures dist(a, b) == d
  {
    hide Sqr, Sq;
    SameSquare(dist(a, b), d);
  }

  function Over(x: real, l: real): real
    requires l != 0.0
  {
    x / l
  }

  lemma OverTimes(x: real, l: real)
    requires l != 0.0
    ensures Times(Over(x, l), l) == x
  {
  }

  function Scale(p: Pt, s: real): Pt { Pt(Times(p.x, s), Times(p.y, s)) }

  function Inner(p: Pt, q: Pt): real { Times(p.x, q.x) + Times(p.y, q.y) }

  /** A direction, or nothing to go by. */
  function Norm(dist: Distance, p: Pt): Pt {
    var l := dist(Pt(0.0, 0.0), p);
    if l == 0.0 then Pt(0.0, 0.0) else Pt(Over(p.x, l), Over(p.y, l))
  }

  lemma NormIsUnit(dist: Distance, a: Pt, b: Pt)
    requires Euclidean(dist) && a != b
    ensures dist(a, b) > 0.0
    ensures
      var u := Norm(dist, b.Sub(a));
      Sq(u) == 1.0 && a.Add(Scale(u, dist(a, b))) == b
  {
    Apart(dist, a, b);
    FromOrigin(dist, a, b);
    hide Times, Over, Sqr, Euclidean;
    var p, l := b.Sub(a), dist(a, b);
    OverTimes(p.x, l);
    OverTimes(p.y, l);
    UnitSquare(p.x, p.y, l);
  }

  lemma Apart(dist: Distance, a: Pt, b: Pt)
    requires Euclidean(dist)
    ensures dist(a, b) == 0.0 <==> a == b
  {
    hide Sqr;
    if a == b { NoDistance(dist, a); }
    if dist(a, b) == 0.0 { SamePlace(dist, a, b); }
  }

  lemma NoDistance(dist: Distance, a: Pt)
    requires Euclidean(dist)
    ensures dist(a, a) == 0.0
  {
    assert Sqr(0.0) == Sq(a.Sub(a));
    DistanceIs(dist, a, a, 0.0);
  }

  lemma SamePlace(dist: Distance, a: Pt, b: Pt)
    requires Euclidean(dist) && dist(a, b) == 0.0
    ensures a == b
  {
    hide Sqr, Euclidean;
    Squared(dist, a, b);
    SqrOfZero();
    var d, p := dist(a, b), b.Sub(a);
    assert Sqr(d) == 0.0;
    BothZero(p.x, p.y);
    NoStep(a, b);
  }

  lemma NoStep(a: Pt, b: Pt)
    requires b.Sub(a).x == 0.0 && b.Sub(a).y == 0.0
    ensures a == b
  {
    assert a.x == b.x && a.y == b.y;
    assert a == Pt(a.x, a.y) && b == Pt(b.x, b.y);
  }

  lemma Squared(dist: Distance, a: Pt, b: Pt)
    requires Euclidean(dist)
    ensures dist(a, b) >= 0.0 && Sqr(dist(a, b)) == Sq(b.Sub(a))
  {
    hide Sqr, Sq;
  }

  lemma FromOrigin(dist: Distance, a: Pt, b: Pt)
    requires Euclidean(dist)
    ensures dist(Pt(0.0, 0.0), b.Sub(a)) == dist(a, b)
  {
    hide Sqr;
    assert b.Sub(a).Sub(Pt(0.0, 0.0)) == b.Sub(a);
    DistanceIs(dist, Pt(0.0, 0.0), b.Sub(a), dist(a, b));
  }

  lemma SqrOfZero()
    ensures Sqr(0.0) == 0.0 && Sqr(1.0) == 1.0
  {
  }

  lemma UnitSquare(x: real, y: real, l: real)
    requires l > 0.0 && Sqr(l) == Sqr(x) + Sqr(y)
    ensures Sqr(Over(x, l)) + Sqr(Over(y, l)) == 1.0
  {
    hide *;
    var a, b := Over(x, l), Over(y, l);
    OverTimes(x, l);
    OverTimes(y, l);
    SqrOfProduct(a, l);
    SqrOfProduct(b, l);
    Distribute(Sqr(a), Sqr(b), Sqr(l));
    SqrFacts(l);
    CancelFactor(Sqr(a) + Sqr(b), Sqr(l));
  }

  // ---- along and across ----

  /** Axes along a track and to one side of it. */
  datatype Axes = Axes(from: Pt, u: Pt, v: Pt) {
    function At(a: real, p: real): Pt { from.Add(Scale(u, a)).Add(Scale(v, p)) }

    ghost predicate Square() { Sq(u) == 1.0 && Sq(v) == 1.0 && Inner(u, v) == 0.0 }
  }

  lemma QuarterTurn(u: Pt)
    requires Sq(u) == 1.0
    ensures Sq(u.Perp()) == 1.0 && Inner(u, u.Perp()) == 0.0
    ensures Sq(u.Perp().Mul(-1.0)) == 1.0 && Inner(u, u.Perp().Mul(-1.0)) == 0.0
  {
    SqrFacts(u.x);
    SqrFacts(u.y);
  }

  /** The distance between two places, from how far apart they are along and across. */
  lemma AxesDistance(dist: Distance, x: Axes, a: real, p: real, b: real, q: real, d: real)
    requires Euclidean(dist) && x.Square() && d >= 0.0 && Sqr(d) == Sqr(b - a) + Sqr(q - p)
    ensures dist(x.At(a, p), x.At(b, q)) == d
  {
    var da, dp := b - a, q - p;
    Distribute(b, a, x.u.x);
    Distribute(b, a, x.u.y);
    Distribute(q, p, x.v.x);
    Distribute(q, p, x.v.y);
    hide Sqr, Times;
    AxesStep(x, a, p, b, q);
    SquareOfStep(x.u, x.v, da, dp);
    DistanceIs(dist, x.At(a, p), x.At(b, q), d);
  }

  lemma AxesStep(x: Axes, a: real, p: real, b: real, q: real)
    ensures x.At(b, q).Sub(x.At(a, p)) ==
      Pt(Times(x.u.x, b - a) + Times(x.v.x, q - p), Times(x.u.y, b - a) + Times(x.v.y, q - p))
  {
    Distribute(b, a, x.u.x);
    Distribute(b, a, x.u.y);
    Distribute(q, p, x.v.x);
    Distribute(q, p, x.v.y);
  }

  lemma SquareOfStep(u: Pt, v: Pt, a: real, p: real)
    requires Sq(u) == 1.0 && Sq(v) == 1.0 && Inner(u, v) == 0.0
    ensures Sq(Pt(Times(u.x, a) + Times(v.x, p), Times(u.y, a) + Times(v.y, p))) == Sqr(a) + Sqr(p)
  {
    hide Sqr, Times;
    SquareOfOne(u.x, v.x, a, p);
    SquareOfOne(u.y, v.y, a, p);
    Distribute(Sqr(u.x), Sqr(u.y), Sqr(a));
    Distribute(Sqr(v.x), Sqr(v.y), Sqr(p));
    Distribute(Times(u.x, v.x), Times(u.y, v.y), Times(a, p));
    Distribute(0.0, 0.0, Sqr(a));
    Distribute(0.0, 0.0, Sqr(p));
    Distribute(0.0, 0.0, Times(a, p));
  }

  lemma SquareOfOne(u: real, v: real, a: real, p: real)
    ensures Sqr(Times(u, a) + Times(v, p)) == Times(Sqr(u), Sqr(a)) + 2.0 * Times(Times(u, v), Times(a, p)) + Times(Sqr(v), Sqr(p))
  {
    SqrOfSum(Times(u, a), Times(v, p));
    SqrOfProduct(u, a);
    SqrOfProduct(v, p);
    CrossTerms(u, v, a, p);
  }

  lemma CrossTerms(u: real, v: real, a: real, p: real)
    ensures Times(Times(u, a), Times(v, p)) == Times(Times(u, v), Times(a, p))
  {
  }

  lemma LengthAlong(u: Pt, s: real)
    requires Sq(u) == 1.0
    ensures Sq(Scale(u, s)) == Sqr(s)
  {
    SqrOfProduct(u.x, s);
    SqrOfProduct(u.y, s);
    Distribute(Sqr(u.x), Sqr(u.y), Sqr(s));
    hide Sqr, Times;
    Distribute(1.0, 0.0, Sqr(s));
  }

  lemma ZeroAcross(side: Pt)
    ensures Scale(side, 0.0) == Pt(0.0, 0.0)
  {
  }
}
