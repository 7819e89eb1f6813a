/** Places along a straight track (tune/shape.go, tune/meander.go), by how far along it they are. */
module Along {
  import opened Geometry
  import opened Euclid
  import Board

  function Direction(dist: Distance, w: Board.Wire): Pt
    requires w.Segment?
  {
    Norm(dist, w.end.Sub(w.start))
  }

  /** How far along a track a point is. */
  function AlongOf(dist: Distance, w: Board.Wire, p: Pt): real
    requires w.Segment?
  {
    Inner(p.Sub(w.start), Direction(dist, w))
  }

  function AlongAt(dist: Distance, w: Board.Wire, s: real): Pt
    requires w.Segment?
  {
    w.start.Add(Scale(Direction(dist, w), s))
  }

  function Length(dist: Distance, w: Board.Wire): real
    requires w.Segment?
  {
    dist(w.start, w.end)
  }

  /** From one place on the track to another farther along. */
  ghost predicate OnTrack(dist: Distance, w: Board.Wire, from: Pt, to: Pt) {
    && w.Segment? && 0.0 <= AlongOf(dist, w, from) < AlongOf(dist, w, to) <= Length(dist, w)
    && from == AlongAt(dist, w, AlongOf(dist, w, from)) && to == AlongAt(dist, w, AlongOf(dist, w, to))
  }

  /** Stretches of one track with no track in common. */
  ghost predicate Disjoint(dist: Distance, w: Board.Wire, a: Pt, b: Pt, c: Pt, d: Pt)
    requires w.Segment?
  {
    AlongOf(dist, w, b) <= AlongOf(dist, w, c) || AlongOf(dist, w, d) <= AlongOf(dist, w, a)
  }

  lemma AlongBack(dist: Distance, w: Board.Wire, s: real)
    requires w.Segment? && Euclidean(dist) && w.start != w.end
    ensures AlongOf(dist, w, AlongAt(dist, w, s)) == s
  {
    var u := Direction(dist, w);
    NormIsUnit(dist, w.start, w.end);
    assert AlongAt(dist, w, s).Sub(w.start) == Scale(u, s);
    InnerAlong(u, s);
  }

  lemma InnerAlong(u: Pt, s: real)
    requires Sq(u) == 1.0
    ensures Inner(Scale(u, s), u) == s
  {
    TimesThrough(u.x, s);
    TimesThrough(u.y, s);
    Distribute(Sqr(u.x), Sqr(u.y), s);
    hide Times, Sqr;
    Distribute(0.0, 1.0, s);
  }

  lemma TimesThrough(x: real, s: real)
    ensures Times(Times(x, s), x) == Times(Sqr(x), s)
  {
  }

  lemma StartAlong(dist: Distance, w: Board.Wire)
    requires w.Segment?
    ensures AlongAt(dist, w, 0.0) == w.start
  {
    ZeroAcross(Direction(dist, w));
  }

  lemma EndAlong(dist: Distance, w: Board.Wire)
    requires w.Segment? && Euclidean(dist) && w.start != w.end
    ensures AlongAt(dist, w, Length(dist, w)) == w.end
  {
    NormIsUnit(dist, w.start, w.end);
  }

  lemma LengthNotNegative(dist: Distance, w: Board.Wire)
    requires w.Segment? && Euclidean(dist)
    ensures Length(dist, w) >= 0.0
  {
  }

  /** Places on a track are as far apart as their places along it. */
  lemma AlongDistance(dist: Distance, w: Board.Wire, a: real, b: real)
    requires w.Segment? && Euclidean(dist) && w.start != w.end && a <= b
    ensures dist(AlongAt(dist, w, a), AlongAt(dist, w, b)) == b - a
  {
    var u := Direction(dist, w);
    NormIsUnit(dist, w.start, w.end);
    Distribute(b, a, u.x);
    Distribute(b, a, u.y);
    StepAlong(u, a, b);
    LengthAlong(u, b - a);
    hide Times, Sqr;
    assert AlongAt(dist, w, b).Sub(AlongAt(dist, w, a)) == Scale(u, b - a);
    DistanceIs(dist, AlongAt(dist, w, a), AlongAt(dist, w, b), b - a);
  }

  lemma StepAlong(u: Pt, a: real, b: real)
    ensures Scale(u, b).Sub(Scale(u, a)) == Scale(u, b - a)
  {
    Distribute(b, a, u.x);
    Distribute(b, a, u.y);
    Distribute(b - a, 0.0, u.x);
    Distribute(b - a, 0.0, u.y);
    Distribute(b, 0.0, u.x);
    Distribute(b, 0.0, u.y);
    Distribute(a, 0.0, u.x);
    Distribute(a, 0.0, u.y);
  }
}
