/** The path that replaces a track (tune/shape.go): its untouched stretches, with every meander folded in where it
    belongs. */
module Replacement {
  import opened Geometry
  import opened Euclid
  import opened Along
  import opened Stretches
  import opened RoomBeside
  import opened Runs
  import opened Sorting
  import A = Areas
  import M = Meander
  import Board

  // ---- meanders on one track ----

  /** What a set of meanders adds. */
  function SumGain(root2: real, ms: seq<M.Shape>): real {
    if ms == [] then 0.0 else SumGain(root2, ms[..|ms| - 1]) + ms[|ms| - 1].Gain(root2)
  }

  ghost predicate ShapeOn(pr: Probe, w: Board.Wire, m: M.Shape) {
    m.Valid(pr.dist) && m.Placed(pr.dist) && OnTrack(pr.dist, w, m.from, m.to)
  }

  ghost predicate ShapesApart(pr: Probe, w: Board.Wire, a: M.Shape, b: M.Shape) {
    w.Segment? && Disjoint(pr.dist, w, a.from, a.to, b.from, b.to)
  }

  /** Meanders for one track: each on it, none twice, and no two with track in common. */
  ghost predicate GoodShapes(pr: Probe, w: Board.Wire, ms: seq<M.Shape>) {
    && NoDups(ms) && (forall m :: m in ms ==> ShapeOn(pr, w, m))
    && (forall a, b :: a in ms && b in ms && a != b ==> ShapesApart(pr, w, a, b))
  }

  ghost predicate PlannedFor(pr: Probe, r: Run, want: real, m: M.Shape, got: real) {
    Planned(pr.st, pr.dist, pr.root2, r, pr.width, want, m, got) && m.amp <= r.amp
  }

  /** A meander drawn with room around it: no higher than the room beside its stretch, which stays within the areas. */
  ghost predicate DrawnWell(pr: Probe, m: M.Shape) {
    exists r, want, got :: GoodRun(pr, r) && PlannedFor(pr, r, want, m, got)
  }

  // ---- the path ----

  function Centreline(dist: Distance, m: M.Shape): seq<Pt> { M.Deduped(M.Drawn(m.Frame(), M.AllCorners(m, dist))) }

  /** From the track's start through each meander in turn. */
  function Through(dist: Distance, start: Pt, ms: seq<M.Shape>): (pts: seq<Pt>)
    ensures pts != [] && pts[0] == start
  {
    if ms == [] then [start] else Through(dist, start, ms[..|ms| - 1]) + Centreline(dist, ms[|ms| - 1])
  }

  /** Each meander begins no sooner than the one before it ends. */
  ghost predicate InOrder(pr: Probe, w: Board.Wire, ms: seq<M.Shape>) {
    && (forall m :: m in ms ==> ShapeOn(pr, w, m)) && w.Segment?
    && (forall k :: 0 < k < |ms| ==> AlongOf(pr.dist, w, ms[k - 1].to) <= AlongOf(pr.dist, w, ms[k].from))
  }

  /** From the track's start, through the meanders in order, to its end. */
  function PathThrough(pr: Probe, w: Board.Wire, ms: seq<M.Shape>): seq<Pt>
    requires w.Segment?
  {
    M.Deduped(Through(pr.dist, w.start, ms) + [w.end])
  }

  /** A track's line with these meanders folded into it, each in its place. */
  ghost predicate PathOf(pr: Probe, w: Board.Wire, ms: seq<M.Shape>, pts: seq<Pt>)
    requires w.Segment?
  {
    exists sorted :: multiset(sorted) == multiset(ms) && InOrder(pr, w, sorted) && pts == PathThrough(pr, w, sorted)
  }

  lemma SortedInOrder(pr: Probe, w: Board.Wire, ms: seq<M.Shape>)
    requires w.Segment? && GoodShapes(pr, w, ms) && SortedBy(ms, (m: M.Shape) => AlongOf(pr.dist, w, m.from))
    ensures InOrder(pr, w, ms)
  {
    hide AlongOf, AlongAt, M.Shape.Valid, M.Shape.Placed;
    var key := (m: M.Shape) => AlongOf(pr.dist, w, m.from);
    forall k | 0 < k < |ms| ensures AlongOf(pr.dist, w, ms[k - 1].to) <= AlongOf(pr.dist, w, ms[k].from) {
      assert ms[k - 1] in ms && ms[k] in ms && ms[k - 1] != ms[k];
      assert key(ms[k - 1]) <= key(ms[k]);
      assert ShapesApart(pr, w, ms[k - 1], ms[k]);
      assert ShapeOn(pr, w, ms[k - 1]) && ShapeOn(pr, w, ms[k]);
    }
  }

  lemma {:induction false} PathTogether(dist: Distance, a: seq<Pt>, b: seq<Pt>)
    requires a != [] && b != []
    ensures M.PathLength(dist, a + b) == M.PathLength(dist, a) + dist(a[|a| - 1], b[0]) + M.PathLength(dist, b)
    decreases |b|
  {
    var n := |b| - 1;
    if n == 0 {
      assert a + b == a + [b[0]];
      M.LengthOfMore(dist, a, b[0]);
    } else {
      PathTogether(dist, a, b[..n]);
      assert a + b == (a + b[..n]) + [b[n]];
      M.LengthOfMore(dist, a + b[..n], b[n]);
    }
  }

  lemma CentrelineIs(pr: Probe, w: Board.Wire, m: M.Shape)
    requires ShapeOn(pr, w, m) && M.IsRoot2(pr.root2)
    ensures
      var line := Centreline(pr.dist, m);
      line != [] && line[0] == m.from && line[|line| - 1] == m.to
      && M.PathLength(pr.dist, line) == pr.dist(m.from, m.to) + m.Gain(pr.root2)
  {
    M.PolylineLength(m, pr.dist, pr.root2);
    CentrelineEnds(m, pr.dist);
  }

  lemma CentrelineEnds(m: M.Shape, dist: Distance)
    requires m.Placed(dist)
    ensures var line := Centreline(dist, m); line != [] && line[0] == m.from && line[|line| - 1] == m.to
  {
    M.FirstPoint(m, dist);
    hide Euclidean, Axes.Square, M.Corners;
    var cs := M.AllCorners(m, dist);
    M.DrawnMore(m.Frame(), M.Corners(m, dist, m.count), (dist(m.from, m.to), 0.0));
    assert M.Drawn(m.Frame(), cs)[|cs| - 1] == m.to;
  }

  /** How far along the track the meanders so far reach. */
  function ReachOf(dist: Distance, w: Board.Wire, ms: seq<M.Shape>): real
    requires w.Segment?
  {
    if ms == [] then 0.0 else AlongOf(dist, w, ms[|ms| - 1].to)
  }

  lemma {:induction false} ThroughLength(pr: Probe, w: Board.Wire, ms: seq<M.Shape>)
    requires Euclidean(pr.dist) && M.IsRoot2(pr.root2) && w.Segment? && w.start != w.end && InOrder(pr, w, ms)
    ensures 0.0 <= ReachOf(pr.dist, w, ms) <= Length(pr.dist, w)
    ensures
      var pts := Through(pr.dist, w.start, ms);
      pts[|pts| - 1] == AlongAt(pr.dist, w, ReachOf(pr.dist, w, ms))
      && M.PathLength(pr.dist, pts) == ReachOf(pr.dist, w, ms) + SumGain(pr.root2, ms)
  {
    hide Euclidean, AlongOf, M.Shape.Valid, M.Shape.Placed, M.Shape.Gain, Centreline, M.IsRoot2, M.PathLength;
    if ms == [] {
      StartAlong(pr.dist, w);
      NoPath(pr.dist, w.start);
      assert Length(pr.dist, w) >= 0.0 by { LengthNotNegative(pr.dist, w); }
    } else {
      hide AlongAt, Through;
      var n := |ms| - 1;
      var init, m := ms[..n], ms[n];
      assert m in ms;
      InitInOrder(pr, w, ms);
      ThroughLength(pr, w, init);
      CentrelineIs(pr, w, m);
      var so, line := Through(pr.dist, w.start, init), Centreline(pr.dist, m);
      var lo, hi, reach := AlongOf(pr.dist, w, m.from), AlongOf(pr.dist, w, m.to), ReachOf(pr.dist, w, init);
      assert reach <= lo by { if n > 0 { assert init[n - 1] == ms[n - 1]; } }
      AlongDistance(pr.dist, w, reach, lo);
      AlongDistance(pr.dist, w, lo, hi);
      PathTogether(pr.dist, so, line);
      ThroughMore(pr.dist, w.start, ms);
    }
  }

  lemma ThroughMore(dist: Distance, start: Pt, ms: seq<M.Shape>)
    requires ms != []
    ensures Through(dist, start, ms) == Through(dist, start, ms[..|ms| - 1]) + Centreline(dist, ms[|ms| - 1])
  {
    hide Centreline;
  }

  lemma InitInOrder(pr: Probe, w: Board.Wire, ms: seq<M.Shape>)
    requires ms != [] && InOrder(pr, w, ms)
    ensures InOrder(pr, w, ms[..|ms| - 1])
  {
    hide ShapeOn, AlongOf;
  }

  lemma NoPath(dist: Distance, p: Pt)
    ensures M.PathLength(dist, [p]) == 0.0
  {
  }

  lemma {:induction false} SumTogether(root2: real, a: seq<M.Shape>, b: seq<M.Shape>)
    ensures SumGain(root2, a + b) == SumGain(root2, a) + SumGain(root2, b)
  {
    hide M.Shape.Gain;
    if b == [] {
      assert a + b == a;
    } else {
      assert (a + b)[..|a + b| - 1] == a + b[..|b| - 1];
      SumTogether(root2, a, b[..|b| - 1]);
    }
  }

  /** The order does not matter to the sum. */
  lemma {:induction false} SumRearranged(root2: real, a: seq<M.Shape>, b: seq<M.Shape>)
    requires multiset(a) == multiset(b)
    ensures SumGain(root2, a) == SumGain(root2, b)
    decreases |a|
  {
    hide M.Shape.Gain, SumGain;
    if a == [] {
      NothingLeft(b);
    } else {
      var n := |a| - 1;
      var p := SameElsewhere(a, b);
      SumRearranged(root2, a[..n], b[..p] + b[p + 1..]);
      SumOfOneLess(root2, b, p);
      assert a == a[..n] + [a[n]];
      SumTogether(root2, a[..n], [a[n]]);
    }
  }

  lemma NothingLeft<T>(b: seq<T>)
    requires multiset(b) == multiset([])
    ensures b == []
  {
    assert |multiset(b)| == |b|;
  }

  lemma SameElsewhere<T>(a: seq<T>, b: seq<T>) returns (p: nat)
    requires a != [] && multiset(a) == multiset(b)
    ensures p < |b| && b[p] == a[|a| - 1] && multiset(a[..|a| - 1]) == multiset(b[..p] + b[p + 1..])
  {
    var n := |a| - 1;
    assert a == a[..n] + [a[n]];
    assert a[n] in multiset(b);
    p :| 0 <= p < |b| && b[p] == a[n];
    var c, d, x := b[..p], b[p + 1..], b[p];
    assert b == c + [x] + d;
    assert multiset(b) == multiset(c) + multiset{x} + multiset(d);
    assert multiset(c + d) == multiset(c) + multiset(d);
    assert multiset(a) == multiset(a[..n]) + multiset{x};
    assert multiset(a[..n]) == multiset(a) - multiset{x};
    assert multiset(c + d) == multiset(b) - multiset{x};
  }

  lemma SumOfOneLess(root2: real, b: seq<M.Shape>, p: nat)
    requires p < |b|
    ensures SumGain(root2, b) == SumGain(root2, b[..p] + b[p + 1..]) + SumGain(root2, [b[p]])
  {
    hide M.Shape.Gain, SumGain;
    var c, d := b[..p], b[p + 1..];
    assert b == c + [b[p]] + d;
    SumTogether(root2, c + [b[p]], d);
    SumTogether(root2, c, [b[p]]);
    SumTogether(root2, c, d);
  }

  lemma {:induction false} DedupedTwice(pts: seq<Pt>)
    ensures M.Deduped(M.Deduped(pts)) == M.Deduped(pts)
  {
    if |pts| >= 2 {
      var n := |pts| - 1;
      DedupedTwice(pts[..n]);
      var r := M.Deduped(pts[..n]);
      if pts[n] != r[|r| - 1] { assert (r + [pts[n]])[..|r|] == r; }
    }
  }

  lemma DedupedMore(pts: seq<Pt>, p: Pt)
    requires pts != []
    ensures M.Deduped(pts + [p]) == if p == pts[|pts| - 1] then M.Deduped(pts) else M.Deduped(pts) + [p]
  {
    assert (pts + [p])[..|pts|] == pts;
  }

  /** Follows a path, leaving out points already reached. */
  method FollowOn(out: seq<Pt>, pts: seq<Pt>, ghost before: seq<Pt>) returns (more: seq<Pt>)
    requires before != [] && out == M.Deduped(before)
    ensures more == M.Deduped(before + pts)
  {
    more := out;
    assert before + pts[..0] == before;
    for i := 0 to |pts|
      invariant more == M.Deduped(before + pts[..i])
    {
      var was := before + pts[..i];
      assert before + pts[..i + 1] == was + [pts[i]];
      DedupedMore(was, pts[i]);
      if pts[i] != more[|more| - 1] { more := more + [pts[i]]; }
    }
    assert pts[..|pts|] == pts;
  }

  /** The path that replaces a track: its untouched stretches, with every meander folded in where it belongs. It joins
      the same ends and is longer by exactly what the meanders gain. */
  method ReplacementPolyline(pr: Probe, w: Board.Wire, ms: seq<M.Shape>) returns (pts: seq<Pt>)
    requires w.Segment? && Euclidean(pr.dist) && M.IsRoot2(pr.root2) && w.start != w.end && GoodShapes(pr, w, ms)
    ensures PathOf(pr, w, ms, pts) && pts != [] && pts[0] == w.start && pts[|pts| - 1] == w.end
    ensures M.PathLength(pr.dist, pts) == Length(pr.dist, w) + SumGain(pr.root2, ms)
  {
    hide Euclidean, AlongOf, M.IsRoot2, SortedBy, Centreline, M.PathLength, SumGain, ShapeOn, M.Shape.Gain, GoodShapes, InOrder;
    var sorted := InTheirOrder(pr, w, ms);
    pts := [w.start];
    for k := 0 to |sorted|
      invariant pts == M.Deduped(Through(pr.dist, w.start, sorted[..k]))
    {
      hide M.Deduped;
      OnItsTrack(pr, w, sorted, k);
      var line := DrawCentreline(pr, w, sorted[k]);
      pts := FollowOn(pts, line, Through(pr.dist, w.start, sorted[..k]));
      assert sorted[..k + 1][..k] == sorted[..k];
    }
    assert sorted[..|sorted|] == sorted;
    ghost var through := Through(pr.dist, w.start, sorted);
    DedupedMore(through, w.end);
    if w.end != pts[|pts| - 1] { pts := pts + [w.end]; }
    DedupedTwice(through + [w.end]);
    pts := M.Dedupe(pts);
    ToTheEnd(pr, w, sorted);
    SumRearranged(pr.root2, ms, sorted);
  }

  lemma OnItsTrack(pr: Probe, w: Board.Wire, ms: seq<M.Shape>, k: nat)
    requires InOrder(pr, w, ms) && k < |ms|
    ensures ShapeOn(pr, w, ms[k])
  {
    hide ShapeOn, AlongOf;
    assert ms[k] in ms;
  }

  /** Sorts meanders by where they begin. */
  method InTheirOrder(pr: Probe, w: Board.Wire, ms: seq<M.Shape>) returns (sorted: seq<M.Shape>)
    requires w.Segment? && GoodShapes(pr, w, ms)
    ensures multiset(sorted) == multiset(ms) && InOrder(pr, w, sorted)
  {
    hide AlongOf, SortedBy, ShapeOn;
    sorted := Sort(ms, (m: M.Shape) => AlongOf(pr.dist, w, m.from));
    StillNoDups(ms, sorted);
    SortedInOrder(pr, w, sorted);
  }

  method DrawCentreline(pr: Probe, w: Board.Wire, m: M.Shape) returns (line: seq<Pt>)
    requires ShapeOn(pr, w, m)
    ensures line == Centreline(pr.dist, m)
  {
    line := M.Polyline(m, pr.dist);
  }

  lemma ToTheEnd(pr: Probe, w: Board.Wire, ms: seq<M.Shape>)
    requires w.Segment? && Euclidean(pr.dist) && M.IsRoot2(pr.root2) && w.start != w.end && InOrder(pr, w, ms)
    ensures
      var pts := Through(pr.dist, w.start, ms) + [w.end];
      M.PathLength(pr.dist, M.Deduped(pts)) == Length(pr.dist, w) + SumGain(pr.root2, ms)
  {
    ThroughLength(pr, w, ms);
    EndAlong(pr.dist, w);
    hide Euclidean, AlongAt, ReachOf, Through, SumGain, M.PathLength, InOrder, M.IsRoot2;
    var through, reach := Through(pr.dist, w.start, ms), ReachOf(pr.dist, w, ms);
    AlongDistance(pr.dist, w, reach, Length(pr.dist, w));
    M.LengthOfMore(pr.dist, through, w.end);
    M.DedupedLength(pr.dist, through + [w.end]);
  }

  // ---- there is one such path ----

  lemma {:induction false} FartherOn(pr: Probe, w: Board.Wire, ms: seq<M.Shape>, j: nat, k: nat)
    requires InOrder(pr, w, ms) && j < k < |ms|
    ensures AlongOf(pr.dist, w, ms[j].from) < AlongOf(pr.dist, w, ms[k].from)
    decreases k
  {
    hide AlongOf, AlongAt, M.Shape.Valid, M.Shape.Placed;
    assert ms[k - 1] in ms && ShapeOn(pr, w, ms[k - 1]);
    if j < k - 1 { FartherOn(pr, w, ms, j, k - 1); }
  }

  /** Meanders can be put in order in one way only. */
  lemma {:induction false} OrderIsOne(pr: Probe, w: Board.Wire, a: seq<M.Shape>, b: seq<M.Shape>)
    requires InOrder(pr, w, a) && InOrder(pr, w, b) && multiset(a) == multiset(b)
    ensures a == b
    decreases |a|
  {
    hide ShapeOn, AlongOf, InOrder;
    if a == [] {
      NothingLeft(b);
    } else {
      var n := |a| - 1;
      var p := SameElsewhere(a, b);
      assert |multiset(a)| == |a| && |multiset(b)| == |b|;
      if p < n {
        assert b[n] in multiset(a);
        var q :| 0 <= q < |a| && a[q] == b[n];
        FartherOn(pr, w, b, p, n);
        if q < n { FartherOn(pr, w, a, q, n); }
        assert false;
      }
      assert b[..p] + b[p + 1..] == b[..n];
      InitInOrder(pr, w, a);
      InitInOrder(pr, w, b);
      OrderIsOne(pr, w, a[..n], b[..n]);
      assert a == a[..n] + [a[n]] && b == b[..n] + [b[n]];
    }
  }

  /** So the meanders alone decide the path. */
  lemma PathIsOne(pr: Probe, w: Board.Wire, ms: seq<M.Shape>, p: seq<Pt>, q: seq<Pt>)
    requires w.Segment? && PathOf(pr, w, ms, p) && PathOf(pr, w, ms, q)
    ensures p == q
  {
    hide InOrder, PathThrough;
    var a :| multiset(a) == multiset(ms) && InOrder(pr, w, a) && p == PathThrough(pr, w, a);
    var b :| multiset(b) == multiset(ms) && InOrder(pr, w, b) && q == PathThrough(pr, w, b);
    OrderIsOne(pr, w, a, b);
  }

  // ---- where the path goes ----

  /** A place partway from one point to another. */
  function Between(a: Pt, b: Pt, t: real): Pt { Pt(Mix(a.x, b.x, t), Mix(a.y, b.y, t)) }

  function Mix(a: real, b: real, t: real): real { a + Times(b - a, t) }

  /** On the track's line, between its ends. */
  ghost predicate OnLine(dist: Distance, w: Board.Wire, p: Pt) {
    w.Segment? && exists s :: 0.0 <= s <= Length(dist, w) && p == AlongAt(dist, w, s)
  }

  /** All of a step is on the track's line. */
  ghost predicate OnTheLine(dist: Distance, w: Board.Wire, a: Pt, b: Pt) {
    forall t :: 0.0 <= t <= 1.0 ==> OnLine(dist, w, Between(a, b, t))
  }

  /** A step seen from axes along the track and to one side of it: the whole band from the track's line out to half a
      width beyond the step is somewhere copper is allowed. */
  ghost predicate BandInside(pr: Probe, x: Axes, a: M.Corner, b: M.Corner) {
    forall t, q :: 0.0 <= t <= 1.0 && 0.0 <= q <= Mix(a.1, b.1, t) + pr.width / 2.0 ==> A.Allows(pr.areas, x.At(Mix(a.0, b.0, t), q))
  }

  ghost predicate Beside(pr: Probe, w: Board.Wire, x: Axes) {
    OnLine(pr.dist, w, x.from) && x.Square() && x.u == Direction(pr.dist, w)
  }

  ghost predicate BandFrom(pr: Probe, w: Board.Wire, x: Axes, c: M.Corner, d: M.Corner, a: Pt, b: Pt) {
    Beside(pr, w, x) && a == x.At(c.0, c.1) && b == x.At(d.0, d.1) && c.1 >= 0.0 && d.1 >= 0.0 && BandInside(pr, x, c, d)
  }

  /** All of a step is beside the track, within the areas along with its copper. */
  ghost predicate InsideAreas(pr: Probe, w: Board.Wire, a: Pt, b: Pt) { exists x, c, d :: BandFrom(pr, w, x, c, d, a, b) }

  /** Where a step of a new path may go: along the old track, or beside it within the areas. */
  ghost predicate StepStays(pr: Probe, w: Board.Wire, a: Pt, b: Pt) { OnTheLine(pr.dist, w, a, b) || InsideAreas(pr, w, a, b) }

  ghost predicate AllStay(pr: Probe, w: Board.Wire, pts: seq<Pt>) {
    forall i :: 0 < i < |pts| ==> StepStays(pr, w, pts[i - 1], pts[i])
  }

  lemma MixBetween(a: real, b: real, lo: real, hi: real, t: real)
    requires lo <= a <= hi && lo <= b <= hi && 0.0 <= t <= 1.0
    ensures lo <= Mix(a, b, t) <= hi
  {
    Distribute(1.0, t, b - a);
    Distribute(0.0, t, b - a);
    A.SignOf(b - a, t);
    A.SignOf(b - a, 1.0 - t);
    Distribute(t, 0.0, b - a);
    hide Times;
  }

  /** Partway between two places on the axes is partway along and across. */
  lemma MixAt(x: Axes, c: M.Corner, d: M.Corner, t: real)
    ensures Between(x.At(c.0, c.1), x.At(d.0, d.1), t) == x.At(Mix(c.0, d.0, t), Mix(c.1, d.1, t))
  {
    MixOne(x.from.x, x.u.x, x.v.x, c, d, t);
    MixOne(x.from.y, x.u.y, x.v.y, c, d, t);
    hide Times;
  }

  lemma MixOne(o: real, u: real, v: real, c: M.Corner, d: M.Corner, t: real)
    ensures Mix(o + Times(u, c.0) + Times(v, c.1), o + Times(u, d.0) + Times(v, d.1), t) ==
            o + Times(u, Mix(c.0, d.0, t)) + Times(v, Mix(c.1, d.1, t))
  {
    MixTimes(u, c.0, d.0, t);
    MixTimes(v, c.1, d.1, t);
    var du, dv := Times(u, d.0) - Times(u, c.0), Times(v, d.1) - Times(v, c.1);
    Distribute(du, dv, t);
    hide Times;
  }

  lemma MixTimes(u: real, a: real, b: real, t: real)
    ensures Times(u, Mix(a, b, t)) == Times(u, a) + Times(Times(u, b) - Times(u, a), t)
  {
  }

  /** Of a step that stays, every point is on the old track's line or allowed. */
  lemma PointsStay(pr: Probe, w: Board.Wire, a: Pt, b: Pt, t: real)
    requires StepStays(pr, w, a, b) && 0.0 <= t <= 1.0 && pr.width > 0.0
    ensures OnLine(pr.dist, w, Between(a, b, t)) || A.Allows(pr.areas, Between(a, b, t))
  {
    hide OnLine, A.Allows, Axes.At;
    if !OnTheLine(pr.dist, w, a, b) {
      var x, c, d :| BandFrom(pr, w, x, c, d, a, b);
      MixAt(x, c, d, t);
      MixBetween(c.1, d.1, 0.0, Max(c.1, d.1), t);
    }
  }

  lemma AlongTheLine(dist: Distance, w: Board.Wire, s: real, e: real)
    requires w.Segment? && 0.0 <= s <= Length(dist, w) && 0.0 <= e <= Length(dist, w)
    ensures OnTheLine(dist, w, AlongAt(dist, w, s), AlongAt(dist, w, e))
  {
    hide Times, Scale, Direction, Length, Mix, Between, Axes.At;
    var x := Axes(w.start, Direction(dist, w), Pt(0.0, 0.0));
    forall t | 0.0 <= t <= 1.0 ensures OnLine(dist, w, Between(AlongAt(dist, w, s), AlongAt(dist, w, e), t)) {
      MixAt(x, (s, 0.0), (e, 0.0), t);
      MixBetween(s, e, 0.0, Length(dist, w), t);
      OnNoSide(x, s, 0.0);
      OnNoSide(x, e, 0.0);
      var at := Mix(s, e, t);
      OnNoSide(x, at, Mix(0.0, 0.0, t));
      assert Between(AlongAt(dist, w, s), AlongAt(dist, w, e), t) == AlongAt(dist, w, at);
    }
  }

  lemma OnNoSide(x: Axes, a: real, p: real)
    requires x.v == Pt(0.0, 0.0)
    ensures x.At(a, p) == x.from.Add(Scale(x.u, a))
  {
  }

  /** A stretch of a track runs the way the track does. */
  lemma SameDirection(dist: Distance, w: Board.Wire, from: Pt, to: Pt)
    requires Euclidean(dist) && OnTrack(dist, w, from, to) && w.start != w.end
    ensures Norm(dist, to.Sub(from)) == Direction(dist, w)
  {
    var u := Direction(dist, w);
    var lo, hi := AlongOf(dist, w, from), AlongOf(dist, w, to);
    NormIsUnit(dist, w.start, w.end);
    StepAlong(u, lo, hi);
    NormAlong(dist, u, hi - lo);
    hide Times, Sqr, Euclidean, AlongOf;
    assert to.Sub(from) == Scale(u, hi - lo);
  }

  /** A meander's axes are those of its stretch, which run along the track. */
  lemma FrameIs(pr: Probe, w: Board.Wire, m: M.Shape, r: Run, want: real, got: real)
    requires w.Segment? && Euclidean(pr.dist) && w.start != w.end && ShapeOn(pr, w, m)
    requires PlannedFor(pr, r, want, m, got)
    ensures Beside(pr, w, m.Frame()) && m.Frame() == r.Frame(pr.dist) && r.from == m.from && r.to == m.to
  {
    hide Euclidean, AlongOf, AlongAt, M.Shape.Valid, Norm, Sqr, Direction;
    SameDirection(pr.dist, w, m.from, m.to);
    assert OnLine(pr.dist, w, m.from);
  }

  /** A meander drawn with room around it stays beside the track, within the areas. */
  lemma CentrelineStays(pr: Probe, w: Board.Wire, m: M.Shape)
    requires w.Segment? && Euclidean(pr.dist) && w.start != w.end && ShapeOn(pr, w, m) && DrawnWell(pr, m)
    ensures AllStay(pr, w, Centreline(pr.dist, m))
  {
    hide Euclidean, AlongOf, AlongAt, Capacity, M.Shape.Valid, M.Shape.Placed, Norm, Sqr, Beside, Axes.At, StaysInside, OnTrack, StepStays, Direction;
    var r, want, got :| GoodRun(pr, r) && PlannedFor(pr, r, want, m, got);
    FrameIs(pr, w, m, r, want, got);
    var x, line := m.Frame(), Centreline(pr.dist, m);
    var cs := M.PolylineStays(m, pr.dist);
    forall i | 0 < i < |line| ensures StepStays(pr, w, line[i - 1], line[i]) {
      BandStays(pr, r, x, cs[i - 1], cs[i]);
      ThisStays(pr, w, x, cs[i - 1], cs[i], line[i - 1], line[i]);
    }
  }

  lemma ThisStays(pr: Probe, w: Board.Wire, x: Axes, c: M.Corner, d: M.Corner, a: Pt, b: Pt)
    requires BandFrom(pr, w, x, c, d, a, b)
    ensures StepStays(pr, w, a, b)
  {
  }

  lemma BandStays(pr: Probe, r: Run, x: Axes, a: M.Corner, b: M.Corner)
    requires StaysInside(pr, r) && x == r.Frame(pr.dist)
    requires 0.0 <= a.0 <= r.length && 0.0 <= b.0 <= r.length && 0.0 <= a.1 <= r.amp && 0.0 <= b.1 <= r.amp
    ensures BandInside(pr, x, a, b)
  {
    forall t, q | 0.0 <= t <= 1.0 && 0.0 <= q <= Mix(a.1, b.1, t) + pr.width / 2.0 ensures A.Allows(pr.areas, x.At(Mix(a.0, b.0, t), q)) {
      MixBetween(a.0, b.0, 0.0, r.length, t);
      MixBetween(a.1, b.1, 0.0, r.amp, t);
    }
  }

  lemma {:induction false} ThroughStays(pr: Probe, w: Board.Wire, ms: seq<M.Shape>)
    requires w.Segment? && Euclidean(pr.dist) && pr.Sane() && M.IsRoot2(pr.root2) && w.start != w.end
    requires InOrder(pr, w, ms)
    requires forall m :: m in ms ==> DrawnWell(pr, m)
    ensures AllStay(pr, w, Through(pr.dist, w.start, ms))
  {
    hide Euclidean, AlongOf, ShapeOn, DrawnWell, Centreline, M.IsRoot2, M.PathLength, StepStays, SumGain;
    if ms != [] {
      hide AlongAt, Through;
      var n := |ms| - 1;
      var init, m := ms[..n], ms[n];
      assert m in ms;
      InitInOrder(pr, w, ms);
      ThroughStays(pr, w, init);
      ThroughLength(pr, w, init);
      CentrelineStays(pr, w, m);
      ThroughMore(pr.dist, w.start, ms);
      JoinStays(pr, w, init, m);
      StayTogether(pr, w, Through(pr.dist, w.start, init), Centreline(pr.dist, m));
    }
  }

  /** From one meander to the next the path follows the track. */
  lemma JoinStays(pr: Probe, w: Board.Wire, ms: seq<M.Shape>, m: M.Shape)
    requires w.Segment? && Euclidean(pr.dist) && M.IsRoot2(pr.root2) && w.start != w.end && InOrder(pr, w, ms)
    requires InOrder(pr, w, ms + [m])
    ensures
      var so, line := Through(pr.dist, w.start, ms), Centreline(pr.dist, m);
      line != [] && StepStays(pr, w, so[|so| - 1], line[0])
  {
    hide Euclidean, AlongOf, Centreline, M.PathLength, AlongAt, Through, M.IsRoot2, M.Shape.Valid, M.Shape.Placed, OnTheLine, InsideAreas;
    ThroughLength(pr, w, ms);
    assert m in ms + [m];
    CentrelineIs(pr, w, m);
    var lo, reach := AlongOf(pr.dist, w, m.from), ReachOf(pr.dist, w, ms);
    AlongTheLine(pr.dist, w, reach, lo);
  }

  lemma StayTogether(pr: Probe, w: Board.Wire, a: seq<Pt>, b: seq<Pt>)
    requires a != [] && b != [] && AllStay(pr, w, a) && AllStay(pr, w, b) && StepStays(pr, w, a[|a| - 1], b[0])
    ensures AllStay(pr, w, a + b)
  {
    hide StepStays;
  }

  lemma {:induction false} DedupedStays(pr: Probe, w: Board.Wire, pts: seq<Pt>)
    requires AllStay(pr, w, pts)
    ensures AllStay(pr, w, M.Deduped(pts))
  {
    hide StepStays;
    if |pts| >= 2 {
      var n := |pts| - 1;
      DedupedStays(pr, w, pts[..n]);
      var r := M.Deduped(pts[..n]);
      if pts[n] != r[|r| - 1] {
        assert StepStays(pr, w, pts[n - 1], pts[n]);
        StayTogether(pr, w, r, [pts[n]]);
      }
    }
  }

  /** Main result on where new copper goes: along the old track, or beside it with the whole band out to half a width
      beyond it within the areas. */
  lemma PathStays(pr: Probe, w: Board.Wire, ms: seq<M.Shape>, pts: seq<Pt>)
    requires w.Segment? && Euclidean(pr.dist) && pr.Sane() && M.IsRoot2(pr.root2) && w.start != w.end
    requires PathOf(pr, w, ms, pts) && forall m :: m in ms ==> DrawnWell(pr, m)
    ensures AllStay(pr, w, pts)
  {
    hide Euclidean, AlongOf, AlongAt, ShapeOn, DrawnWell, InOrder, Through, StepStays, M.IsRoot2;
    var sorted :| multiset(sorted) == multiset(ms) && InOrder(pr, w, sorted) && pts == PathThrough(pr, w, sorted);
    forall m | m in sorted ensures DrawnWell(pr, m) { assert m in multiset(sorted); }
    ThroughStays(pr, w, sorted);
    ToItsEnd(pr, w, sorted);
    StayTogether(pr, w, Through(pr.dist, w.start, sorted), [w.end]);
    DedupedStays(pr, w, Through(pr.dist, w.start, sorted) + [w.end]);
  }

  lemma ToItsEnd(pr: Probe, w: Board.Wire, ms: seq<M.Shape>)
    requires w.Segment? && Euclidean(pr.dist) && M.IsRoot2(pr.root2) && w.start != w.end && InOrder(pr, w, ms)
    ensures var so := Through(pr.dist, w.start, ms); StepStays(pr, w, so[|so| - 1], w.end)
  {
    hide Euclidean, AlongOf, Centreline, M.PathLength, AlongAt, Through, M.IsRoot2, InOrder, OnTheLine, InsideAreas;
    ThroughLength(pr, w, ms);
    EndAlong(pr.dist, w);
    LengthNotNegative(pr.dist, w);
    AlongTheLine(pr.dist, w, ReachOf(pr.dist, w, ms), Length(pr.dist, w));
  }
}
