/** A meander folded into a straight run (tune/shape.go): its corners, its length, and choosing one. */
module Meander {
  import opened Geometry
  import opened Euclid

  /** `count` excursions of height `amp` and width `flat`, `space` apart, their corners cut back by `chamfer`. */
  datatype Shape = Shape(from: Pt, to: Pt, dir: Pt, side: Pt, amp: real, flat: real, space: real, chamfer: real, count: nat) {
    function Frame(): Axes { Axes(from, dir, side) }

    /** What one excursion adds over going straight. */
    function GainPerExcursion(root2: real): real { 2.0 * amp - 4.0 * Times(chamfer, 2.0 - root2) }

    function Gain(root2: real): real { Times(count as real, GainPerExcursion(root2)) }

    /** How much of the run the meander takes up. */
    function Axial(): real { Times(count as real, flat) + Times(count as real - 1.0, space) }

    predicate Valid(dist: Distance) {
      count >= 1 && amp >= 2.0 * chamfer && flat >= 4.0 * chamfer && space >= 0.0 && chamfer >= 0.0 && Axial() <= dist(from, to)
    }

    function Lead(dist: Distance): real { (dist(from, to) - Axial()) / 2.0 }

    /** Where the first `i` excursions end, along the run. */
    function Reach(dist: Distance, i: nat): real
      decreases i, 0
    {
      if i == 0 then Lead(dist) else StartOf(dist, i - 1) + flat
    }

    /** Where excursion `i` starts. */
    function StartOf(dist: Distance, i: nat): real
      decreases i, 1
    {
      Reach(dist, i) + if i > 0 then space else 0.0
    }

    /** The run is along the axes, and they are square. */
    ghost predicate Placed(dist: Distance) {
      Euclidean(dist) && Frame().Square() && to == Frame().At(dist(from, to), 0.0)
    }
  }

  ghost predicate IsRoot2(root2: real) { Times(root2, root2) == 2.0 && 1.0 < root2 < 2.0 }

  // ---- corners, along and across ----

  type Corner = (real, real)

  function Excursion(m: Shape, x: real): seq<Corner> {
    var c := m.chamfer;
    [(x + c, c), (x + c, m.amp - c), (x + 2.0 * c, m.amp), (x + m.flat - 2.0 * c, m.amp),
     (x + m.flat - c, m.amp - c), (x + m.flat - c, c), (x + m.flat, 0.0)]
  }

  /** The corners up to the end of the first `i` excursions. */
  function Corners(m: Shape, dist: Distance, i: nat): (cs: seq<Corner>)
    ensures |cs| >= 2 && (i > 0 ==> |cs| >= 9)
  {
    if i == 0 then [(0.0, 0.0), (m.Lead(dist), 0.0)]
    else
      Corners(m, dist, i - 1) + (if i > 1 then [(m.StartOf(dist, i - 1), 0.0)] else []) + Excursion(m, m.StartOf(dist, i - 1))
  }

  function AllCorners(m: Shape, dist: Distance): seq<Corner> { Corners(m, dist, m.count) + [(dist(m.from, m.to), 0.0)] }

  function Drawn(x: Axes, cs: seq<Corner>): seq<Pt> { seq(|cs|, i requires 0 <= i < |cs| => x.At(cs[i].0, cs[i].1)) }

  // ---- length ----

  function PathLength(dist: Distance, pts: seq<Pt>): real {
    if |pts| < 2 then 0.0 else PathLength(dist, pts[..|pts| - 1]) + dist(pts[|pts| - 2], pts[|pts| - 1])
  }

  lemma LengthOfMore(dist: Distance, pts: seq<Pt>, q: Pt)
    requires pts != []
    ensures PathLength(dist, pts + [q]) == PathLength(dist, pts) + dist(pts[|pts| - 1], q)
  {
    assert (pts + [q])[..|pts|] == pts;
  }

  /** One more corner adds the distance to it. */
  lemma CornerAdds(dist: Distance, x: Axes, cs: seq<Corner>, c: Corner, d: real)
    requires Euclidean(dist) && x.Square() && cs != [] && d >= 0.0
    requires var last := cs[|cs| - 1]; Sqr(d) == Sqr(c.0 - last.0) + Sqr(c.1 - last.1)
    ensures PathLength(dist, Drawn(x, cs + [c])) == PathLength(dist, Drawn(x, cs)) + d
  {
    var last := cs[|cs| - 1];
    hide Sqr, Euclidean, PathLength;
    AxesDistance(dist, x, last.0, last.1, c.0, c.1, d);
    assert Drawn(x, cs + [c]) == Drawn(x, cs) + [x.At(c.0, c.1)];
    LengthOfMore(dist, Drawn(x, cs), x.At(c.0, c.1));
  }

  lemma StraightStep(d: real)
    ensures Sqr(d) == Sqr(d) + Sqr(0.0) && Sqr(d) == Sqr(0.0) + Sqr(d) && Sqr(d) == Sqr(0.0) + Sqr(-d)
  {
  }

  lemma DiagonalStep(c: real, root2: real)
    requires IsRoot2(root2) && c >= 0.0
    ensures Times(root2, c) >= 0.0
    ensures Sqr(Times(root2, c)) == Sqr(c) + Sqr(c) && Sqr(Times(root2, c)) == Sqr(c) + Sqr(-c)
  {
    SqrOfProduct(root2, c);
    if c > 0.0 { PositiveTimes(root2, c); }
    Twice(root2, c);
    SqrFacts(c);
  }

  lemma Twice(root2: real, c: real)
    requires Times(root2, root2) == 2.0
    ensures Times(Sqr(root2), Sqr(c)) == Sqr(c) + Sqr(c)
  {
    assert Sqr(root2) == 2.0;
  }

  ghost predicate EndsAt(cs: seq<Corner>, c: Corner) { cs != [] && cs[|cs| - 1] == c }

  /** The drawn length of some corners. */
  ghost function LengthOf(dist: Distance, x: Axes, cs: seq<Corner>): real { PathLength(dist, Drawn(x, cs)) }

  lemma Diagonal(dist: Distance, x: Axes, root2: real, cs: seq<Corner>, a: real, p: real, c: real, up: bool)
    requires Euclidean(dist) && x.Square() && IsRoot2(root2) && c >= 0.0 && EndsAt(cs, (a, p))
    ensures
      var q := (a + c, if up then p + c else p - c);
      LengthOf(dist, x, cs + [q]) == LengthOf(dist, x, cs) + Times(root2, c) && EndsAt(cs + [q], q)
  {
    DiagonalStep(c, root2);
    hide Sqr, Times;
    var q := (a + c, if up then p + c else p - c);
    CornerAdds(dist, x, cs, q, Times(root2, c));
  }

  lemma Leg(dist: Distance, x: Axes, cs: seq<Corner>, a: real, p: real, q: real)
    requires Euclidean(dist) && x.Square() && EndsAt(cs, (a, p))
    ensures LengthOf(dist, x, cs + [(a, q)]) == LengthOf(dist, x, cs) + AbsR(q - p) && EndsAt(cs + [(a, q)], (a, q))
  {
    StraightStep(AbsR(q - p));
    SqrFacts(q - p);
    hide Sqr;
    CornerAdds(dist, x, cs, (a, q), AbsR(q - p));
  }

  lemma Along(dist: Distance, x: Axes, cs: seq<Corner>, a: real, b: real, p: real)
    requires Euclidean(dist) && x.Square() && EndsAt(cs, (a, p)) && a <= b
    ensures LengthOf(dist, x, cs + [(b, p)]) == LengthOf(dist, x, cs) + (b - a) && EndsAt(cs + [(b, p)], (b, p))
  {
    StraightStep(b - a);
    hide Sqr;
    CornerAdds(dist, x, cs, (b, p), b - a);
  }

  /** An excursion is longer than the stretch under it by exactly its gain. */
  lemma ExcursionLength(m: Shape, dist: Distance, root2: real, cs: seq<Corner>, x: real)
    requires Euclidean(dist) && m.Frame().Square() && m.Valid(dist) && IsRoot2(root2) && EndsAt(cs, (x, 0.0))
    ensures EndsAt(cs + Excursion(m, x), (x + m.flat, 0.0))
    ensures LengthOf(dist, m.Frame(), cs + Excursion(m, x)) ==
      LengthOf(dist, m.Frame(), cs) + m.flat + m.GainPerExcursion(root2)
  {
    var f, c, h := m.Frame(), m.chamfer, m.amp;
    var e := Excursion(m, x);
    Distribute(2.0, root2, c);
    Distribute(2.0 - root2, 0.0, c);
    Double(c);
    hide LengthOf, Euclidean, Axes.Square, EndsAt, IsRoot2, Times;
    Diagonal(dist, f, root2, cs, x, 0.0, c, true);
    var c1 := cs + [e[0]];
    Leg(dist, f, c1, x + c, c, h - c);
    var c2 := c1 + [e[1]];
    Diagonal(dist, f, root2, c2, x + c, h - c, c, true);
    var c3 := c2 + [e[2]];
    assert e[2] == (x + c + c, h - c + c);
    Along(dist, f, c3, x + 2.0 * c, x + m.flat - 2.0 * c, h);
    var c4 := c3 + [e[3]];
    Diagonal(dist, f, root2, c4, x + m.flat - 2.0 * c, h, c, false);
    var c5 := c4 + [e[4]];
    assert e[4] == (x + m.flat - 2.0 * c + c, h - c);
    Leg(dist, f, c5, x + m.flat - c, h - c, c);
    var c6 := c5 + [e[5]];
    Diagonal(dist, f, root2, c6, x + m.flat - c, c, c, false);
    assert e[6] == (x + m.flat - c + c, c - c);
    assert cs + e == c6 + [e[6]];
  }

  lemma Double(c: real)
    ensures Times(2.0, c) == 2.0 * c
  {
  }

  // ---- the whole meander ----

  lemma OneMoreTime(i: nat, g: real)
    ensures Times((i + 1) as real, g) == Times(i as real, g) + g
  {
    Distribute(i as real, 1.0, g);
    assert (i + 1) as real == i as real + 1.0;
  }

  lemma {:induction false} ReachIs(m: Shape, dist: Distance, i: nat)
    requires i >= 1
    ensures m.Reach(dist, i) == m.Lead(dist) + Times(i as real, m.flat) + Times(i as real - 1.0, m.space)
  {
    if i == 1 {
      Distribute(1.0, 1.0, m.flat);
      Distribute(1.0, 1.0, m.space);
    } else {
      ReachIs(m, dist, i - 1);
      OneMoreTime(i - 1, m.flat);
      OneMoreTime(i - 2, m.space);
      hide Times;
      assert (i - 1) as real == i as real - 1.0 && (i - 2) as real == (i - 1) as real - 1.0;
    }
  }

  lemma {:induction false} CornersLength(m: Shape, dist: Distance, root2: real, i: nat)
    requires m.Placed(dist) && m.Valid(dist) && IsRoot2(root2)
    ensures EndsAt(Corners(m, dist, i), (m.Reach(dist, i), 0.0))
    ensures LengthOf(dist, m.Frame(), Corners(m, dist, i)) == m.Reach(dist, i) + Times(i as real, m.GainPerExcursion(root2))
  {
    hide LengthOf, IsRoot2, Times;
    var f := m.Frame();
    if i == 0 {
      OneCorner(dist, f);
      Along(dist, f, [(0.0, 0.0)], 0.0, m.Lead(dist), 0.0);
      assert Corners(m, dist, 0) == [(0.0, 0.0)] + [(m.Lead(dist), 0.0)];
      Distribute(0.0, 0.0, m.GainPerExcursion(root2));
    } else {
      CornersLength(m, dist, root2, i - 1);
      var cs, x := Corners(m, dist, i - 1), m.StartOf(dist, i - 1);
      if i > 1 {
        Along(dist, f, cs, m.Reach(dist, i - 1), x, 0.0);
        ExcursionLength(m, dist, root2, cs + [(x, 0.0)], x);
      } else {
        ExcursionLength(m, dist, root2, cs, x);
        assert cs + [] == cs;
      }
      OneMoreTime(i - 1, m.GainPerExcursion(root2));
    }
  }

  lemma OneCorner(dist: Distance, x: Axes)
    ensures LengthOf(dist, x, [(0.0, 0.0)]) == 0.0
  {
  }

  /** Main result on the arithmetic: the meander is longer than the straight run by exactly its gain. */
  lemma MeanderLength(m: Shape, dist: Distance, root2: real)
    requires m.Placed(dist) && m.Valid(dist) && IsRoot2(root2)
    ensures LengthOf(dist, m.Frame(), AllCorners(m, dist)) == dist(m.from, m.to) + m.Gain(root2)
  {
    CornersLength(m, dist, root2, m.count);
    ReachIs(m, dist, m.count);
    hide LengthOf, IsRoot2, Times, Corners;
    Along(dist, m.Frame(), Corners(m, dist, m.count), m.Reach(dist, m.count), dist(m.from, m.to), 0.0);
  }

  // ---- where it goes ----

  /** Never back along the run. */
  ghost predicate Onward(cs: seq<Corner>) { forall i, j :: 0 <= i < j < |cs| ==> cs[i].0 <= cs[j].0 }

  /** Between the ends of the run, and between the run and the height of the meander. */
  ghost predicate Inside(cs: seq<Corner>, total: real, amp: real) {
    forall i :: 0 <= i < |cs| ==> 0.0 <= cs[i].0 <= total && 0.0 <= cs[i].1 <= amp
  }

  ghost predicate Upto(cs: seq<Corner>, x: real) { forall i :: 0 <= i < |cs| ==> cs[i].0 <= x }

  lemma ReachesStay(m: Shape, dist: Distance, i: nat)
    requires m.Valid(dist) && dist(m.from, m.to) >= 0.0 && i <= m.count
    ensures 0.0 <= m.Lead(dist) <= m.Reach(dist, i) <= dist(m.from, m.to)
    ensures i < m.count ==> m.Reach(dist, i) <= m.StartOf(dist, i) <= m.StartOf(dist, i) + m.flat <= dist(m.from, m.to)
  {
    ReachIs(m, dist, m.count);
    ReachGrows(m, dist, 0, i);
    ReachGrows(m, dist, i, m.count);
    if i < m.count { ReachGrows(m, dist, i + 1, m.count); }
    hide Times;
  }

  lemma {:induction false} ReachGrows(m: Shape, dist: Distance, i: nat, j: nat)
    requires m.Valid(dist) && i <= j
    ensures m.Reach(dist, i) <= m.Reach(dist, j)
    decreases j
  {
    if i < j { ReachGrows(m, dist, i, j - 1); }
  }

  lemma {:induction false} CornersGoOnward(m: Shape, dist: Distance, i: nat)
    requires m.Valid(dist) && dist(m.from, m.to) >= 0.0 && i <= m.count
    ensures Onward(Corners(m, dist, i)) && Inside(Corners(m, dist, i), dist(m.from, m.to), m.amp)
    ensures Upto(Corners(m, dist, i), m.Reach(dist, i))
  {
    hide Times, Excursion, Onward, Inside, Upto;
    ReachesStay(m, dist, i);
    if i == 0 {
      FirstCorners(m.Lead(dist), dist(m.from, m.to), m.amp);
    } else {
      CornersGoOnward(m, dist, i - 1);
      ReachesStay(m, dist, i - 1);
      var cs, x := Corners(m, dist, i - 1), m.StartOf(dist, i - 1);
      var gap := if i > 1 then [(x, 0.0)] else [];
      ExcursionGoesOnward(m, dist, x);
      GapGoesOnward(gap, x, m.amp, dist(m.from, m.to));
      Together(cs, gap, m.Reach(dist, i - 1), x, dist(m.from, m.to), m.amp);
      Together(cs + gap, Excursion(m, x), x, x + m.flat, dist(m.from, m.to), m.amp);
    }
  }

  lemma FirstCorners(lead: real, total: real, amp: real)
    requires 0.0 <= lead <= total && amp >= 0.0
    ensures var cs := [(0.0, 0.0), (lead, 0.0)]; Onward(cs) && Inside(cs, total, amp) && Upto(cs, lead)
  {
  }

  ghost predicate From(cs: seq<Corner>, x: real) { forall i :: 0 <= i < |cs| ==> x <= cs[i].0 }

  lemma GapGoesOnward(gap: seq<Corner>, x: real, amp: real, total: real)
    requires (gap == [] || gap == [(x, 0.0)]) && 0.0 <= x <= total && amp >= 0.0
    ensures Onward(gap) && From(gap, x) && Upto(gap, x) && Inside(gap, total, amp)
  {
  }

  lemma ExcursionGoesOnward(m: Shape, dist: Distance, x: real)
    requires m.Valid(dist) && 0.0 <= x && x + m.flat <= dist(m.from, m.to)
    ensures var e := Excursion(m, x); Onward(e) && From(e, x) && Upto(e, x + m.flat) && Inside(e, dist(m.from, m.to), m.amp)
  {
    hide Times;
  }

  lemma Together(a: seq<Corner>, b: seq<Corner>, x: real, y: real, total: real, amp: real)
    requires Onward(a) && Onward(b) && Upto(a, x) && Upto(b, y) && x <= y && From(b, x)
    requires Inside(a, total, amp) && Inside(b, total, amp)
    ensures Onward(a + b) && Upto(a + b, y) && Inside(a + b, total, amp)
  {
  }

  /** The path never turns back along the run, and stays between the run and the amplitude. */
  lemma MeanderGoesOnward(m: Shape, dist: Distance)
    requires m.Valid(dist) && dist(m.from, m.to) >= 0.0
    ensures Onward(AllCorners(m, dist)) && Inside(AllCorners(m, dist), dist(m.from, m.to), m.amp)
  {
    CornersGoOnward(m, dist, m.count);
    ReachesStay(m, dist, m.count);
    hide Onward, Inside, Upto, Corners;
    var total := dist(m.from, m.to);
    GapGoesOnward([(total, 0.0)], total, m.amp, total);
    StillFrom([(total, 0.0)], m.Reach(dist, m.count));
    Together(Corners(m, dist, m.count), [(total, 0.0)], m.Reach(dist, m.count), total, total, m.amp);
  }

  lemma StillFrom(cs: seq<Corner>, x: real)
    requires |cs| == 1 && x <= cs[0].0
    ensures From(cs, x)
  {
  }

  /** Where the legs stand along the run: two to an excursion, a chamfer in from its edges. */
  function LegAt(m: Shape, dist: Distance, k: nat): real {
    m.StartOf(dist, k / 2) + if k % 2 == 0 then m.chamfer else m.flat - m.chamfer
  }

  /** The excursions stand in the middle of the run: as much of it is left after the last as before the first. */
  lemma Centred(m: Shape, dist: Distance)
    requires m.count >= 1
    ensures m.StartOf(dist, 0) == dist(m.from, m.to) - m.Reach(dist, m.count)
  {
    ReachIs(m, dist, m.count);
    hide Times;
  }

  /** Any two legs stand at least the spacing apart, if an excursion's two do. */
  lemma {:induction false} LegsApart(m: Shape, dist: Distance, j: nat, k: nat)
    requires m.Valid(dist) && j < k && m.flat >= m.space + 2.0 * m.chamfer
    ensures LegAt(m, dist, k) - LegAt(m, dist, j) >= m.space
    decreases k
  {
    hide Times;
    LegAfterLeg(m, dist, k - 1);
    if j < k - 1 { LegsApart(m, dist, j, k - 1); }
  }

  lemma LegAfterLeg(m: Shape, dist: Distance, k: nat)
    requires m.Valid(dist) && m.flat >= m.space + 2.0 * m.chamfer
    ensures LegAt(m, dist, k + 1) - LegAt(m, dist, k) >= m.space
  {
    hide Times;
    if k % 2 == 0 {
      assert (k + 1) / 2 == k / 2;
    } else {
      var i := k / 2;
      assert (k + 1) / 2 == i + 1 && (k + 1) % 2 == 0;
      assert m.StartOf(dist, i + 1) == m.Reach(dist, i + 1) + m.space == m.StartOf(dist, i) + m.flat + m.space;
    }
  }

  /** The excursions' legs are where they are said to be. */
  lemma LegsOfExcursion(m: Shape, dist: Distance, i: nat)
    requires i < m.count
    ensures
      var e := Excursion(m, m.StartOf(dist, i));
      e[0].0 == e[1].0 == LegAt(m, dist, 2 * i) && e[4].0 == e[5].0 == LegAt(m, dist, 2 * i + 1)
  {
    assert 2 * i / 2 == i && (2 * i + 1) / 2 == i;
  }

  /** Every excursion is drawn. */
  lemma ExcursionDrawn(m: Shape, dist: Distance, i: nat)
    requires i < m.count
    ensures
      var cs, n := AllCorners(m, dist), |Corners(m, dist, i + 1)|;
      7 <= n <= |cs| && cs[n - 7..n] == Excursion(m, m.StartOf(dist, i))
  {
    hide Excursion;
    CornersPrefix(m, dist, i + 1, m.count);
    var cs := Corners(m, dist, i + 1);
    var n := |cs|;
    ExcursionIsLast(m, dist, i);
    assert AllCorners(m, dist)[..n] == cs;
    assert AllCorners(m, dist)[n - 7..n] == AllCorners(m, dist)[..n][n - 7..];
  }

  lemma ExcursionIsLast(m: Shape, dist: Distance, i: nat)
    ensures
      var cs := Corners(m, dist, i + 1);
      cs[|cs| - 7..] == Excursion(m, m.StartOf(dist, i))
  {
    var x := m.StartOf(dist, i);
    var before := Corners(m, dist, i) + (if i + 1 > 1 then [(x, 0.0)] else []);
    assert Corners(m, dist, i + 1) == before + Excursion(m, x);
  }

  lemma {:induction false} CornersPrefix(m: Shape, dist: Distance, i: nat, j: nat)
    requires i <= j
    ensures |Corners(m, dist, i)| <= |Corners(m, dist, j)|
    ensures Corners(m, dist, j)[..|Corners(m, dist, i)|] == Corners(m, dist, i)
    decreases j
  {
    if i < j {
      CornersPrefix(m, dist, i, j - 1);
      var n := |Corners(m, dist, i)|;
      assert Corners(m, dist, j)[..n] == Corners(m, dist, j - 1)[..n];
    }
  }

  // ---- drawing it ----

  /** Points with repeats in a row left out. */
  function Deduped(pts: seq<Pt>): (r: seq<Pt>)
    ensures pts != [] ==> r != [] && r[|r| - 1] == pts[|pts| - 1] && r[0] == pts[0]
    ensures pts == [] ==> r == []
  {
    if |pts| < 2 then pts
    else
      var r := Deduped(pts[..|pts| - 1]);
      if pts[|pts| - 1] == r[|r| - 1] then r else r + [pts[|pts| - 1]]
  }

  lemma {:induction false} DedupedLength(dist: Distance, pts: seq<Pt>)
    requires Euclidean(dist)
    ensures PathLength(dist, Deduped(pts)) == PathLength(dist, pts)
  {
    hide *;
    if |pts| < 2 {
      DedupedShort(pts);
    } else {
      var n := |pts| - 1;
      DedupedLength(dist, pts[..n]);
      NoDistance(dist, pts[n]);
      assert pts == pts[..n] + [pts[n]];
      DedupedStep(dist, pts[..n], pts[n]);
    }
  }

  lemma DedupedShort(pts: seq<Pt>)
    requires |pts| < 2
    ensures Deduped(pts) == pts
  {
  }

  lemma DedupedStep(dist: Distance, init: seq<Pt>, p: Pt)
    requires init != [] && PathLength(dist, Deduped(init)) == PathLength(dist, init) && dist(p, p) == 0.0
    ensures PathLength(dist, Deduped(init + [p])) == PathLength(dist, init + [p])
  {
    hide PathLength;
    LengthOfMore(dist, init, p);
    assert (init + [p])[..|init|] == init;
    var r := Deduped(init);
    if p != r[|r| - 1] { LengthOfMore(dist, r, p); }
  }

  /** What is left is in the same order, at the same places. */
  lemma {:induction false} DedupedPlaces(x: Axes, cs: seq<Corner>) returns (left: seq<Corner>)
    requires cs != [] && Onward(cs)
    ensures Deduped(Drawn(x, cs)) == Drawn(x, left) && Onward(left) && left != [] && (forall c :: c in left ==> c in cs)
  {
    hide Axes.At;
    var n := |cs| - 1;
    if n == 0 {
      left := cs;
    } else {
      var before := DedupedPlaces(x, cs[..n]);
      var pts := Drawn(x, cs);
      assert pts[..n] == Drawn(x, cs[..n]);
      if pts[n] == Drawn(x, before)[|before| - 1] {
        left := before;
      } else {
        left := before + [cs[n]];
        assert Drawn(x, left) == Drawn(x, before) + [pts[n]];
        PlacesOnward(cs, before);
      }
    }
  }

  lemma PlacesOnward(cs: seq<Corner>, before: seq<Corner>)
    requires cs != [] && Onward(cs) && Onward(before) && forall c :: c in before ==> c in cs[..|cs| - 1]
    ensures Onward(before + [cs[|cs| - 1]])
  {
    var n := |cs| - 1;
    forall c | c in before ensures c.0 <= cs[n].0 {
      var k :| 0 <= k < n && cs[..n][k] == c;
    }
  }

  /** Draws the line down the middle of the meander's copper, end to end. */
  method Polyline(m: Shape, dist: Distance) returns (pts: seq<Pt>)
    requires m.Placed(dist) && m.Valid(dist)
    ensures pts == Deduped(Drawn(m.Frame(), AllCorners(m, dist))) && pts != []
    ensures pts[0] == m.from && pts[|pts| - 1] == m.to
  {
    hide Euclidean, Axes.Square;
    var f := m.Frame();
    Origin(f);
    pts := [m.from];
    var x := m.Lead(dist);
    pts := pts + [f.At(x, 0.0)];
    assert pts == Drawn(f, Corners(m, dist, 0));
    hide Axes.At, Drawn, Corners;
    for i := 0 to m.count
      invariant pts == Drawn(f, Corners(m, dist, i)) && x == m.Reach(dist, i)
    {
      if i > 0 {
        x := x + m.space;
        pts := pts + [f.At(x, 0.0)];
      }
      pts := DrawExcursion(m, x, pts);
      ExcursionPoints(m, dist, i);
      x := x + m.flat;
    }
    DrawnMore(f, Corners(m, dist, m.count), (dist(m.from, m.to), 0.0));
    pts := pts + [m.to];
    FirstPoint(m, dist);
    pts := Dedupe(pts);
  }

  /** Out, along and back. */
  method DrawExcursion(m: Shape, x: real, pts: seq<Pt>) returns (out: seq<Pt>)
    ensures out == pts + Drawn(m.Frame(), Excursion(m, x))
  {
    hide Axes.At;
    var f, c := m.Frame(), m.chamfer;
    out := pts + [f.At(x + c, c)];
    out := out + [f.At(x + c, m.amp - c)];
    out := out + [f.At(x + 2.0 * c, m.amp)];
    out := out + [f.At(x + m.flat - 2.0 * c, m.amp)];
    out := out + [f.At(x + m.flat - c, m.amp - c)];
    out := out + [f.At(x + m.flat - c, c)];
    out := out + [f.At(x + m.flat, 0.0)];
  }

  lemma FirstPoint(m: Shape, dist: Distance)
    ensures Drawn(m.Frame(), AllCorners(m, dist))[0] == m.from
  {
    hide Axes.At;
    Origin(m.Frame());
    CornersPrefix(m, dist, 0, m.count);
    var cs := Corners(m, dist, m.count);
    assert cs[0] == cs[..2][0] == (0.0, 0.0);
  }

  lemma Origin(x: Axes)
    ensures x.At(0.0, 0.0) == x.from
  {
  }

  lemma DrawnMore(x: Axes, cs: seq<Corner>, c: Corner)
    ensures Drawn(x, cs + [c]) == Drawn(x, cs) + [x.At(c.0, c.1)]
  {
  }

  lemma ExcursionPoints(m: Shape, dist: Distance, i: nat)
    ensures
      var f, x := m.Frame(), m.StartOf(dist, i);
      Drawn(f, Corners(m, dist, i + 1)) ==
        Drawn(f, Corners(m, dist, i)) + (if i > 0 then [f.At(x, 0.0)] else []) + Drawn(f, Excursion(m, x))
  {
    hide Axes.At, Times, Excursion;
    var x := m.StartOf(dist, i);
    var gap := if i > 0 then [(x, 0.0)] else [];
    assert Corners(m, dist, i + 1) == Corners(m, dist, i) + gap + Excursion(m, x);
  }

  method Dedupe(pts: seq<Pt>) returns (out: seq<Pt>)
    ensures out == Deduped(pts)
  {
    out := [];
    for i := 0 to |pts|
      invariant out == Deduped(pts[..i])
    {
      assert pts[..i + 1][..i] == pts[..i];
      if i == 0 || pts[i] != out[|out| - 1] { out := out + [pts[i]]; }
    }
    assert pts[..|pts|] == pts;
  }

  method Measure(dist: Distance, pts: seq<Pt>) returns (l: real)
    ensures l == PathLength(dist, pts)
  {
    l := 0.0;
    var i := 0;
    while i + 1 < |pts|
      invariant pts == [] ==> l == 0.0
      invariant pts != [] ==> i < |pts| && l == PathLength(dist, pts[..i + 1])
    {
      assert pts[..i + 2][..i + 1] == pts[..i + 1];
      l := l + dist(pts[i], pts[i + 1]);
      i := i + 1;
    }
    if pts != [] { assert pts[..i + 1] == pts; }
  }

  /** The centreline's true length: exact, whatever is left out as repeated. */
  lemma PolylineLength(m: Shape, dist: Distance, root2: real)
    requires m.Placed(dist) && m.Valid(dist) && IsRoot2(root2)
    ensures PathLength(dist, Deduped(Drawn(m.Frame(), AllCorners(m, dist)))) == dist(m.from, m.to) + m.Gain(root2)
  {
    hide Shape.Valid, IsRoot2, PathLength;
    DedupedLength(dist, Drawn(m.Frame(), AllCorners(m, dist)));
    MeanderLength(m, dist, root2);
  }

  /** Every point drawn is between the run's ends, no farther to the side than the amplitude, and none is behind the one
      before. */
  lemma PolylineStays(m: Shape, dist: Distance) returns (cs: seq<Corner>)
    requires m.Placed(dist) && m.Valid(dist)
    ensures Deduped(Drawn(m.Frame(), AllCorners(m, dist))) == Drawn(m.Frame(), cs)
    ensures Onward(cs) && Inside(cs, dist(m.from, m.to), m.amp) && cs != []
  {
    hide Axes.Square, Axes.At;
    MeanderGoesOnward(m, dist);
    cs := DedupedPlaces(m.Frame(), AllCorners(m, dist));
    forall i | 0 <= i < |cs| ensures 0.0 <= cs[i].0 <= dist(m.from, m.to) && 0.0 <= cs[i].1 <= m.amp {
      assert cs[i] in AllCorners(m, dist);
    }
  }
}
