/** Finding where on a net meanders may go (tune/meander.go): the best stretches of every track, gathered by track. */
module Runs {
  import opened Geometry
  import opened Euclid
  import opened Along
  import opened Stretches
  import opened RoomBeside
  import opened Sorting
  import A = Areas
  import Board

  /** A stretch found, and the track it is on. */
  datatype Found = Found(track: Board.Track, run: Run)

  // ---- finding the stretches of one track ----

  /** What every stretch found is: room to draw in, nowhere outside the areas. */
  ghost predicate GoodRun(pr: Probe, r: Run) {
    && r.Ok(pr.dist) && Capacity(pr.st, pr.root2, r.length, r.amp, pr.width) > 0.0 && StaysInside(pr, r)
  }

  ghost predicate AllGood(pr: Probe, l: Line, pieces: seq<Piece>, runs: seq<Run>, total: real) {
    && |runs| == |pieces|
    && (forall k :: 0 <= k < |runs| ==> pieces[k].i < pieces[k].j && runs[k] == RunOf(pr.dist, l, pieces[k])
                                        && GoodRun(pr, runs[k]) && l.At(pieces[k].j) <= total)
    && (forall a, b :: 0 <= a < b < |pieces| ==> !Overlap(pieces[a], pieces[b]))
  }

  /** The runs of the best pieces between two points: each as good as a run must be, no two overlapping. */
  ghost predicate BestRuns(pr: Probe, from: Pt, to: Pt, pieces: seq<Piece>, runs: seq<Run>) {
    && AllGood(pr, LineOf(pr, from, to), pieces, runs, pr.dist(from, to))
    && BestOf(pr, LineOf(pr, from, to), StepsOf(pr, from, to), pieces)
  }

  /** Measures the room step by step on both sides of a stretch, and chooses disjoint pieces that hold most. */
  method SubRuns(pr: Probe, from: Pt, to: Pt) returns (runs: seq<Run>)
    requires pr.Sane() && Euclidean(pr.dist)
    ensures exists pieces :: BestRuns(pr, from, to, pieces, runs)
    ensures runs != [] ==> LineOf(pr, from, to).Ok()
  {
    hide Euclidean, IsPiece, IsProfile, Capacity, StaysInside, Best;
    var usable := pr.dist(from, to);
    var u := Norm(pr.dist, to.Sub(from));
    var step := Max(pr.st.minRunLength / 2.0, 0.2);
    var line := Line(from, u, step);
    var n := Over(usable, step).Floor;
    if n < 1 {
      assert BestRuns(pr, from, to, [], []);
      return [];
    }
    StepsFit(usable, step, n);
    Apart(pr.dist, from, to);
    NormIsUnit(pr.dist, from, to);
    var left, right := u.Perp(), u.Perp().Mul(-1.0);
    QuarterTurn(u);
    UnitIsSomething(left);
    UnitIsSomething(right);
    var profL := Profile(pr, line, n, left);
    var profR := Profile(pr, line, n, right);
    var onLeft := Pieces(pr, step, profL, left);
    var onRight := Pieces(pr, step, profR, right);
    var cands := onLeft + onRight;
    forall c: Piece | c in cands ensures c.i < c.j <= n {
      if c in onLeft { PieceBounds(pr, step, profL, left, c); } else { PieceBounds(pr, step, profR, right, c); }
    }
    var best := TakeBest(cands, n);
    BestFacts(cands, best);
    assert FromProfiles(pr, line, n, profL, profR, cands, best);
    runs := MakeRuns(pr, line, n, left, right, profL, profR, onLeft, onRight, best, usable);
    assert BestRuns(pr, from, to, best, runs);
  }

  function LineOf(pr: Probe, from: Pt, to: Pt): Line {
    Line(from, Norm(pr.dist, to.Sub(from)), Max(pr.st.minRunLength / 2.0, 0.2))
  }

  function StepsOf(pr: Probe, from: Pt, to: Pt): int { Over(pr.dist(from, to), Max(pr.st.minRunLength / 2.0, 0.2)).Floor }

  /** The best of every stretch worth having, on either side. */
  ghost predicate BestOf(pr: Probe, l: Line, n: int, pieces: seq<Piece>) {
    if n < 1 then pieces == [] else exists profL, profR, cands :: FromProfiles(pr, l, n, profL, profR, cands, pieces)
  }

  ghost predicate FromProfiles(pr: Probe, l: Line, n: int, profL: seq<real>, profR: seq<real>, cands: seq<Piece>,
                               pieces: seq<Piece>) {
    var left, right := l.u.Perp(), l.u.Perp().Mul(-1.0);
    && |profL| == n == |profR| && IsProfile(pr, l, left, profL) && IsProfile(pr, l, right, profR)
    && (forall c :: c in cands <==> IsPiece(pr, l.step, profL, left, c) || IsPiece(pr, l.step, profR, right, c))
    && Best(cands, pieces)
  }

  lemma BestFacts(cands: seq<Piece>, out: seq<Piece>)
    requires Best(cands, out)
    ensures (forall c :: c in out ==> c in cands) && forall a, b :: 0 <= a < b < |out| ==> !Overlap(out[a], out[b])
  {
  }

  method MakeRuns(pr: Probe, l: Line, n: nat, left: Pt, right: Pt, ghost profL: seq<real>, ghost profR: seq<real>,
                  ghost onLeft: seq<Piece>, ghost onRight: seq<Piece>, best: seq<Piece>, ghost usable: real)
    returns (runs: seq<Run>)
    requires pr.Sane() && Euclidean(pr.dist) && l.Ok() && l.At(n) <= usable
    requires Sq(left) == 1.0 && Inner(l.u, left) == 0.0 && Sq(right) == 1.0 && Inner(l.u, right) == 0.0
    requires |profL| == n == |profR| && IsProfile(pr, l, left, profL) && IsProfile(pr, l, right, profR)
    requires forall c :: c in onLeft <==> IsPiece(pr, l.step, profL, left, c)
    requires forall c :: c in onRight <==> IsPiece(pr, l.step, profR, right, c)
    requires forall c :: c in best ==> c in onLeft + onRight
    requires forall a, b :: 0 <= a < b < |best| ==> !Overlap(best[a], best[b])
    ensures AllGood(pr, l, best, runs, usable)
  {
    hide Euclidean, IsPiece, IsProfile, Capacity, StaysInside, Overlap, GoodRun, RunOf;
    runs := [];
    for k := 0 to |best|
      invariant |runs| == k
      invariant forall q :: 0 <= q < k ==>
        best[q].i < best[q].j && runs[q] == RunOf(pr.dist, l, best[q]) && GoodRun(pr, runs[q]) && l.At(best[q].j) <= usable
    {
      var c := best[k];
      assert c in onLeft || c in onRight by { assert c in onLeft + onRight; }
      if c in onLeft { GoodPiece(pr, l, profL, left, c); } else { GoodPiece(pr, l, profR, right, c); }
      StepsInOrder(l, c.j, n);
      runs := runs + [RunOf(pr.dist, l, c)];
    }
  }

  lemma GoodPiece(pr: Probe, l: Line, prof: seq<real>, side: Pt, c: Piece)
    requires pr.Sane() && Euclidean(pr.dist) && l.Ok() && Sq(side) == 1.0 && Inner(l.u, side) == 0.0
    requires IsProfile(pr, l, side, prof) && IsPiece(pr, l.step, prof, side, c)
    ensures c.i < c.j <= |prof| && GoodRun(pr, RunOf(pr.dist, l, c))
  {
    PieceIs(pr, l.step, prof, side, c);
    hide Euclidean, IsPiece, IsProfile, Capacity, StaysInside;
    RunOfIsOk(pr.dist, l, c);
    PieceStaysInside(pr, l, prof, c);
  }

  lemma PieceIs(pr: Probe, step: real, prof: seq<real>, side: Pt, c: Piece)
    requires IsPiece(pr, step, prof, side, c)
    ensures c.i < c.j <= |prof| && c.side == side
    ensures Capacity(pr.st, pr.root2, Span(step, c.i, c.j), c.amp, pr.width) > 0.0
  {
    hide Capacity;
  }

  lemma StepsInOrder(l: Line, i: nat, j: nat)
    requires l.step > 0.0 && i <= j
    ensures l.At(i) <= l.At(j)
  {
    StepsApart(l, i, j);
    if i < j { SpanIsPositive(l, i, j); }
    Distribute(0.0, 0.0, l.step);
    assert i == j ==> Span(l.step, i, j) == 0.0;
  }

  lemma StepsFit(usable: real, step: real, n: int)
    requires step > 0.0 && n == Over(usable, step).Floor && n >= 1
    ensures Times(n as real, step) <= usable && usable > 0.0
  {
    A.OverBound(n as real, usable, step);
    PositiveTimes(n as real, step);
    Distribute(n as real, 0.0, step);
    Distribute(step, 0.0, n as real);
  }

  lemma UnitIsSomething(p: Pt)
    requires Sq(p) == 1.0
    ensures p.x != 0.0 || p.y != 0.0
  {
    SqrOfZero();
  }

  /** A place on the line of steps is a place on the track, `keep` farther along. */
  lemma PlaceOnTrack(dist: Distance, w: Board.Wire, l: Line, keep: real, k: nat)
    requires w.Segment? && l.u == Direction(dist, w) && l.from == AlongAt(dist, w, keep)
    ensures l.Place(k) == AlongAt(dist, w, keep + l.At(k))
  {
    Distribute(keep, l.At(k), l.u.x);
    Distribute(keep, l.At(k), l.u.y);
    Distribute(keep + l.At(k), 0.0, l.u.x);
    Distribute(keep + l.At(k), 0.0, l.u.y);
    Distribute(keep, 0.0, l.u.x);
    Distribute(keep, 0.0, l.u.y);
    Distribute(l.At(k), 0.0, l.u.x);
    Distribute(l.At(k), 0.0, l.u.y);
    hide Times;
  }

  ghost predicate RunOn(dist: Distance, w: Board.Wire, r: Run) { OnTrack(dist, w, r.from, r.to) }

  ghost predicate RunsApart(dist: Distance, w: Board.Wire, a: Run, b: Run) {
    w.Segment? && Disjoint(dist, w, a.from, a.to, b.from, b.to)
  }

  lemma PieceOnTrack(pr: Probe, w: Board.Wire, l: Line, keep: real, c: Piece)
    requires w.Segment? && Euclidean(pr.dist) && w.start != w.end && l.Ok() && l.u == Direction(pr.dist, w)
    requires l.from == AlongAt(pr.dist, w, keep) && keep >= 0.0 && c.i < c.j && keep + l.At(c.j) <= Length(pr.dist, w)
    ensures
      var r := RunOf(pr.dist, l, c);
      RunOn(pr.dist, w, r) && AlongOf(pr.dist, w, r.from) == keep + l.At(c.i) && AlongOf(pr.dist, w, r.to) == keep + l.At(c.j)
  {
    PlaceOnTrack(pr.dist, w, l, keep, c.i);
    PlaceOnTrack(pr.dist, w, l, keep, c.j);
    AlongBack(pr.dist, w, keep + l.At(c.i));
    AlongBack(pr.dist, w, keep + l.At(c.j));
    StepsApart(l, c.i, c.j);
    SpanIsPositive(l, c.i, c.j);
    StepsInOrder(l, 0, c.i);
    assert l.At(0) == 0.0 by { Distribute(0.0, 0.0, l.step); }
    hide Euclidean, Times, AlongAt, AlongOf;
  }

  /** Runs of one track: on it, and no two with track in common. */
  ghost predicate GoodRuns(pr: Probe, w: Board.Wire, runs: seq<Run>) {
    && (forall k :: 0 <= k < |runs| ==> GoodRun(pr, runs[k]) && RunOn(pr.dist, w, runs[k]))
    && (forall a, b :: 0 <= a < b < |runs| ==> RunsApart(pr.dist, w, runs[a], runs[b]))
  }

  lemma PiecesAreGood(pr: Probe, w: Board.Wire, l: Line, keep: real, pieces: seq<Piece>, runs: seq<Run>, total: real)
    requires w.Segment? && Euclidean(pr.dist) && w.start != w.end && l.Ok() && l.u == Direction(pr.dist, w)
    requires l.from == AlongAt(pr.dist, w, keep) && keep >= 0.0 && keep + total <= Length(pr.dist, w)
    requires AllGood(pr, l, pieces, runs, total)
    ensures GoodRuns(pr, w, runs)
  {
    hide Euclidean, GoodRun, AlongOf, AlongAt, RunOf, RunOn, Line.At, Direction;
    forall k | 0 <= k < |runs|
      ensures RunOn(pr.dist, w, runs[k])
      ensures AlongOf(pr.dist, w, runs[k].from) == keep + l.At(pieces[k].i)
      ensures AlongOf(pr.dist, w, runs[k].to) == keep + l.At(pieces[k].j)
    {
      PieceOnTrack(pr, w, l, keep, pieces[k]);
    }
    forall a, b | 0 <= a < b < |runs| ensures RunsApart(pr.dist, w, runs[a], runs[b]) {
      assert !Overlap(pieces[a], pieces[b]);
      if pieces[a].j <= pieces[b].i { StepsInOrder(l, pieces[a].j, pieces[b].i); } else { StepsInOrder(l, pieces[b].j, pieces[a].i); }
    }
  }

  /** The stretches of one track, clear of its ends; none, if it is too short, too thin, or nowhere allowed. */
  method RunsOfTrack(pr: Probe, w: Board.Wire) returns (runs: seq<Run>)
    requires pr.Sane() && Euclidean(pr.dist) && w.Segment?
    ensures GoodRuns(pr, w, runs) && RunsFor(pr, w, runs)
  {
    hide Euclidean, GoodRun, AllGood, Over, RunsApart, RunOn, BestOf, LineOf, StepsOf;
    runs := [];
    var len := Length(pr.dist, w);
    if w.width <= 0.0 || len < pr.st.minRunLength || !Touches(pr.areas, w.start, w.end) { return; }
    var keep := Keep(pr);
    if len - 2.0 * keep < pr.st.minRunLength { return; }
    var u := Direction(pr.dist, w);
    var from := w.start.Add(Scale(u, keep));
    var to := w.end.Sub(Scale(u, keep));
    TrackInside(pr.dist, w, keep);
    runs := SubRuns(pr, from, to);
    ghost var l := LineOf(pr, from, to);
    ghost var pieces :| BestRuns(pr, from, to, pieces, runs);
    assert from == Inner0(pr, w) && to == Inner1(pr, w);
    if runs != [] {
      LineIs(pr, from, to);
      PiecesAreGood(pr, w, l, keep, pieces, runs, len - 2.0 * keep);
    }
  }

  lemma LineIs(pr: Probe, from: Pt, to: Pt)
    ensures var l := LineOf(pr, from, to); l.from == from && l.u == Norm(pr.dist, to.Sub(from))
  {
  }

  /** How far a meander keeps from a track's ends. */
  function Keep(pr: Probe): real { Max(Times(pr.st.gap, pr.width), pr.st.keepClear) }

  /** A track long enough, thick enough, and somewhere copper is allowed. */
  predicate Eligible(pr: Probe, w: Board.Wire)
    requires w.Segment?
  {
    && w.width > 0.0 && Length(pr.dist, w) >= pr.st.minRunLength && Touches(pr.areas, w.start, w.end)
    && Length(pr.dist, w) - 2.0 * Keep(pr) >= pr.st.minRunLength
  }

  function Inner0(pr: Probe, w: Board.Wire): Pt
    requires w.Segment?
  {
    w.start.Add(Scale(Direction(pr.dist, w), Keep(pr)))
  }

  function Inner1(pr: Probe, w: Board.Wire): Pt
    requires w.Segment?
  {
    w.end.Sub(Scale(Direction(pr.dist, w), Keep(pr)))
  }

  /** Exactly the best stretches of a track, clear of its ends. */
  ghost predicate RunsFor(pr: Probe, w: Board.Wire, runs: seq<Run>)
    requires w.Segment?
  {
    if !Eligible(pr, w) then runs == [] else exists pieces :: BestRuns(pr, Inner0(pr, w), Inner1(pr, w), pieces, runs)
  }

  predicate Touches(areas: seq<Rect>, a: Pt, b: Pt) {
    areas == [] || exists k :: 0 <= k < |areas| && areas[k].Overlaps(Rect(Min(a.x, b.x), Min(a.y, b.y), Max(a.x, b.x), Max(a.y, b.y)))
  }

  /** What is left of a track clear of its ends lies along it. */
  lemma TrackInside(dist: Distance, w: Board.Wire, keep: real)
    requires w.Segment? && Euclidean(dist) && Length(dist, w) - 2.0 * keep > 0.0 && keep >= 0.0
    ensures w.start != w.end
    ensures
      var u := Direction(dist, w);
      var from, to := w.start.Add(Scale(u, keep)), w.end.Sub(Scale(u, keep));
      Norm(dist, to.Sub(from)) == u && dist(from, to) == Length(dist, w) - 2.0 * keep && from == AlongAt(dist, w, keep)
  {
    Apart(dist, w.start, w.end);
    NormIsUnit(dist, w.start, w.end);
    var u, len := Direction(dist, w), Length(dist, w);
    var from, to := w.start.Add(Scale(u, keep)), w.end.Sub(Scale(u, keep));
    InsideStep(u, len, keep);
    assert to.Sub(from) == Scale(u, len - 2.0 * keep);
    NormAlong(dist, u, len - 2.0 * keep);
    FromOrigin(dist, from, to);
  }

  /** The tracks that may carry a meander: there is copper, an area, if there are any, has a place in the box of its
      ends, and clear of its ends by the gap and by the room for pads there is still length enough for the shortest
      run. */
  lemma EligibleMeans(pr: Probe, w: Board.Wire)
    requires pr.Sane() && w.Segment? && forall k :: 0 <= k < |pr.areas| ==> pr.areas[k].Proper()
    ensures Eligible(pr, w) <==>
      && w.width > 0.0 && (pr.areas == [] || exists k :: 0 <= k < |pr.areas| && MeetsSpan(pr.areas[k], w.start, w.end))
      && pr.dist(w.start, w.end) >= pr.st.minRunLength + 2.0 * Times(pr.st.gap, pr.width)
      && pr.dist(w.start, w.end) >= pr.st.minRunLength + 2.0 * pr.st.keepClear
  {
    var a, b := w.start, w.end;
    var box := Rect(Min(a.x, b.x), Min(a.y, b.y), Max(a.x, b.x), Max(a.y, b.y));
    forall k | 0 <= k < |pr.areas| ensures pr.areas[k].Overlaps(box) <==> MeetsSpan(pr.areas[k], a, b) {
      OverlapIsCommon(pr.areas[k], box);
      assert forall p :: box.Contains(p) <==> Between(a, b, p);
    }
    hide MeetsSpan, Times;
  }

  ghost predicate MeetsSpan(r: Rect, a: Pt, b: Pt) { exists p :: r.Contains(p) && Between(a, b, p) }

  /** The room is measured in steps of half the shortest run, but never less than 0.2, as many as go into the
      stretch. */
  lemma StepsAre(pr: Probe, from: Pt, to: Pt)
    requires pr.Sane()
    ensures
      var step, n := LineOf(pr, from, to).step, StepsOf(pr, from, to);
      && step + step >= pr.st.minRunLength && step >= 0.2 && (step + step == pr.st.minRunLength || step == 0.2)
      && Times(n as real, step) <= pr.dist(from, to) < Times(n as real, step) + step
  {
    var step, n, d := LineOf(pr, from, to).step, StepsOf(pr, from, to), pr.dist(from, to);
    A.OverBound(n as real, d, step);
    A.OverBound(n as real + 1.0, d, step);
    Distribute(n as real, 1.0, step);
    Distribute(n as real + 1.0, 0.0, step);
    Distribute(n as real, 0.0, step);
    hide Times;
  }

  /** What is left of a track for its stretches begins and ends as far from the track's ends as the wider of the gap and
      the room its pads are to have. */
  lemma LeftOfTrack(pr: Probe, w: Board.Wire)
    requires pr.Sane() && Euclidean(pr.dist) && w.Segment? && Eligible(pr, w)
    ensures
      var d, gap := pr.dist(w.start, Inner0(pr, w)), Times(pr.st.gap, pr.width);
      d == pr.dist(Inner1(pr, w), w.end) && d >= gap && d >= pr.st.keepClear && (d == gap || d == pr.st.keepClear)
      && pr.dist(Inner0(pr, w), Inner1(pr, w)) == Length(pr.dist, w) - 2.0 * d
  {
    var keep, len := Keep(pr), Length(pr.dist, w);
    TrackInside(pr.dist, w, keep);
    AlongDistance(pr.dist, w, 0.0, keep);
    AlongDistance(pr.dist, w, len - keep, len);
    StartAlong(pr.dist, w);
    EndAlong(pr.dist, w);
    InnerAt(pr, w);
  }

  lemma InnerAt(pr: Probe, w: Board.Wire)
    requires w.Segment? && Euclidean(pr.dist) && w.start != w.end
    ensures Inner0(pr, w) == AlongAt(pr.dist, w, Keep(pr))
    ensures Inner1(pr, w) == AlongAt(pr.dist, w, Length(pr.dist, w) - Keep(pr))
  {
    hide Euclidean, Keep, Direction;
    EndAlong(pr.dist, w);
    StepAlong(Direction(pr.dist, w), Keep(pr), Length(pr.dist, w));
    StepAlong(Direction(pr.dist, w), Length(pr.dist, w) - Keep(pr), Length(pr.dist, w));
    hide Times;
  }

  /** No place on a stretch found is nearer to either end of its track than the gap, or than the pads there are to
      have. */
  lemma StretchKeepsOff(pr: Probe, w: Board.Wire, runs: seq<Run>, r: Run, s: real)
    requires pr.Sane() && Euclidean(pr.dist) && w.Segment? && RunsFor(pr, w, runs) && r in runs
    requires AlongOf(pr.dist, w, r.from) <= s <= AlongOf(pr.dist, w, r.to)
    ensures
      var p := AlongAt(pr.dist, w, s);
      && pr.dist(w.start, p) >= Times(pr.st.gap, pr.width) && pr.dist(w.start, p) >= pr.st.keepClear
      && pr.dist(p, w.end) >= Times(pr.st.gap, pr.width) && pr.dist(p, w.end) >= pr.st.keepClear
  {
    StretchWithin(pr, w, runs, r);
    LeftOfTrack(pr, w);
    hide Euclidean, RunsFor, AlongAt, AlongOf, Times, Eligible, Probe.Sane;
    StartAlong(pr.dist, w);
    EndAlong(pr.dist, w);
    AlongDistance(pr.dist, w, 0.0, s);
    AlongDistance(pr.dist, w, s, Length(pr.dist, w));
  }

  lemma StretchWithin(pr: Probe, w: Board.Wire, runs: seq<Run>, r: Run)
    requires pr.Sane() && Euclidean(pr.dist) && w.Segment? && RunsFor(pr, w, runs) && r in runs
    ensures Eligible(pr, w) && w.start != w.end
    ensures AlongOf(pr.dist, w, r.from) >= Keep(pr) && AlongOf(pr.dist, w, r.to) <= Length(pr.dist, w) - Keep(pr)
  {
    LeftIsLine(pr, w);
    var l := LineOf(pr, Inner0(pr, w), Inner1(pr, w));
    var c := PieceFor(pr, Inner0(pr, w), Inner1(pr, w), runs, r);
    hide Euclidean, AlongOf, AlongAt, RunOf, RunOn, Inner0, Inner1, Eligible, RunsFor, Norm;
    PieceOnTrack(pr, w, l, Keep(pr), c);
    assert l.At(0) == 0.0 by { Distribute(0.0, 0.0, l.step); }
    StepsInOrder(l, 0, c.i);
    hide Keep, Line.At;
  }

  /** The steps along what is left of a track. */
  lemma LeftIsLine(pr: Probe, w: Board.Wire)
    requires pr.Sane() && Euclidean(pr.dist) && w.Segment? && Eligible(pr, w)
    ensures Keep(pr) >= 0.0 && w.start != w.end
    ensures pr.dist(Inner0(pr, w), Inner1(pr, w)) == Length(pr.dist, w) - 2.0 * Keep(pr)
    ensures
      var l := LineOf(pr, Inner0(pr, w), Inner1(pr, w));
      l.Ok() && l.u == Direction(pr.dist, w) && l.from == AlongAt(pr.dist, w, Keep(pr))
  {
    TrackInside(pr.dist, w, Keep(pr));
    NormIsUnit(pr.dist, w.start, w.end);
  }

  lemma PieceFor(pr: Probe, from: Pt, to: Pt, runs: seq<Run>, r: Run) returns (c: Piece)
    requires (exists pieces :: BestRuns(pr, from, to, pieces, runs)) && r in runs
    ensures
      var l := LineOf(pr, from, to);
      c.i < c.j && r == RunOf(pr.dist, l, c) && l.At(c.j) <= pr.dist(from, to)
  {
    hide BestOf, GoodRun, RunOf, LineOf;
    var pieces: seq<Piece> :| BestRuns(pr, from, to, pieces, runs);
    var k :| 0 <= k < |runs| && runs[k] == r;
    c := pieces[k];
  }

  lemma InsideStep(u: Pt, len: real, keep: real)
    ensures Scale(u, len - 2.0 * keep) == Scale(u, len).Sub(Scale(u, keep)).Sub(Scale(u, keep))
  {
    TwoLess(u.x, len, keep);
    TwoLess(u.y, len, keep);
  }

  lemma TwoLess(u: real, len: real, keep: real)
    ensures Times(u, len - 2.0 * keep) == Times(u, len) - Times(u, keep) - Times(u, keep)
  {
  }

  /** A stretch that may be used: on a straight track of the net that may carry a meander, with room beside it. */
  ghost predicate GoodFound(pr: Probe, tracks: seq<Board.Track>, on: set<string>, f: Found) {
    && f.track in tracks && f.track.wire.Segment? && (on == {} || f.track.wire.uuid in on)
    && GoodRun(pr, f.run) && RunOn(pr.dist, f.track.wire, f.run)
  }

  ghost predicate FoundsApart(pr: Probe, f: Found, g: Found) {
    f.track == g.track ==> RunsApart(pr.dist, f.track.wire, f.run, g.run)
  }

  /** Stretches found: each may be used, none is listed twice, and none shares track with another. */
  ghost predicate GoodFounds(pr: Probe, tracks: seq<Board.Track>, on: set<string>, fs: seq<Found>) {
    && NoDups(fs) && (forall f :: f in fs ==> GoodFound(pr, tracks, on, f))
    && (forall f, g :: f in fs && g in fs && f != g ==> FoundsApart(pr, f, g))
  }

  lemma ApartIsDifferent(dist: Distance, w: Board.Wire, a: Run, b: Run)
    requires RunOn(dist, w, a) && RunOn(dist, w, b) && RunsApart(dist, w, a, b)
    ensures a != b && RunsApart(dist, w, b, a)
  {
  }

  function AsFounds(t: Board.Track, runs: seq<Run>): seq<Found> {
    seq(|runs|, k requires 0 <= k < |runs| => Found(t, runs[k]))
  }

  lemma MoreFounds(pr: Probe, tracks: seq<Board.Track>, on: set<string>, fs: seq<Found>, t: Board.Track, runs: seq<Run>)
    requires GoodFounds(pr, tracks, on, fs) && (forall f :: f in fs ==> f.track != t)
    requires t in tracks && t.wire.Segment? && (on == {} || t.wire.uuid in on) && GoodRuns(pr, t.wire, runs)
    ensures GoodFounds(pr, tracks, on, fs + AsFounds(t, runs))
  {
    hide GoodRun, RunOn, RunsApart;
    var more := AsFounds(t, runs);
    forall a, b | 0 <= a < b < |runs| ensures more[a] != more[b] && FoundsApart(pr, more[a], more[b]) && FoundsApart(pr, more[b], more[a]) {
      ApartIsDifferent(pr.dist, t.wire, runs[a], runs[b]);
    }
    forall f, g | f in fs + more && g in fs + more && f != g ensures FoundsApart(pr, f, g) {
      if f in more && g in more {
        var a :| 0 <= a < |more| && more[a] == f;
        var b :| 0 <= b < |more| && more[b] == g;
      }
    }
    forall i, j | 0 <= i < j < |fs + more| ensures (fs + more)[i] != (fs + more)[j] {
      if i < |fs| <= j { assert fs[i] in fs; }
    }
  }

  /** Whether copper from one point to another, on the layer of a track and touching what it may, would clear
      everything. */
  type Beside = Board.Track -> ((Pt, Pt) -> bool)

  function On(pr: Probe, beside: Beside, t: Board.Track): Probe { pr.(clears := beside(t)) }

  /** Runs found with the answers for one track are as good whatever the answers for another. */
  lemma StillGood(pr: Probe, clears: (Pt, Pt) -> bool, w: Board.Wire, runs: seq<Run>)
    requires GoodRuns(pr.(clears := clears), w, runs)
    ensures GoodRuns(pr, w, runs)
  {
    hide Capacity, A.Allows, RunOn, RunsApart;
  }

  function ByRoom(pr: Probe, f: Found): real { -Capacity(pr.st, pr.root2, f.run.length, f.run.amp, pr.width) }

  /** The stretches of a net's track that may be used, the one that can hold most first. */
  method FindRuns(pr: Probe, beside: Beside, tracks: seq<Board.Track>, on: set<string>) returns (out: seq<Found>)
    requires pr.Sane() && Euclidean(pr.dist) && Board.Distinct(tracks)
    ensures GoodFounds(pr, tracks, on, out) && SortedBy(out, f => ByRoom(pr, f))
    ensures FoundAll(pr, beside, tracks, on, out)
  {
    hide Euclidean, GoodRun, RunOn, RunsApart, GoodRuns, SortedBy, ByRoom, RunsFor;
    var found: seq<Found> := [];
    for k := 0 to |tracks|
      invariant GoodFounds(pr, tracks, on, found) && forall f :: f in found ==> f.track in tracks[..k]
      invariant FoundAll(pr, beside, tracks[..k], on, found)
    {
      var t := tracks[k];
      assert tracks[..k + 1] == tracks[..k] + [t];
      if t.wire.Segment? && (on == {} || t.wire.uuid in on) {
        NotBefore(tracks, k);
        var runs := RunsOfTrack(On(pr, beside, t), t.wire);
        StillGood(pr, beside(t), t.wire, runs);
        MoreFounds(pr, tracks, on, found, t, runs);
        AllFoundOn(pr, beside, t, runs, found);
        StillFound(pr, beside, tracks[..k], on, found, t, runs);
        found := found + AsFounds(t, runs);
      }
    }
    assert tracks[..|tracks|] == tracks;
    out := Sort(found, f => ByRoom(pr, f));
    StillNoDups(found, out);
    SameFound(pr, beside, tracks, on, found, out);
  }

  /** Of every track that may carry a meander, exactly the best stretches have been found. */
  ghost predicate FoundAll(pr: Probe, beside: Beside, tracks: seq<Board.Track>, on: set<string>, fs: seq<Found>) {
    forall t :: t in tracks && t.wire.Segment? && (on == {} || t.wire.uuid in on) ==> FoundOn(pr, beside, t, fs)
  }

  ghost predicate FoundOn(pr: Probe, beside: Beside, t: Board.Track, fs: seq<Found>)
    requires t.wire.Segment?
  {
    exists runs :: RunsFor(On(pr, beside, t), t.wire, runs) && ExactlyIn(t, runs, fs)
  }

  ghost predicate ExactlyIn(t: Board.Track, runs: seq<Run>, fs: seq<Found>) { forall r :: r in runs <==> Found(t, r) in fs }

  lemma AllFoundOn(pr: Probe, beside: Beside, t: Board.Track, runs: seq<Run>, fs: seq<Found>)
    requires t.wire.Segment? && RunsFor(On(pr, beside, t), t.wire, runs) && forall f :: f in fs ==> f.track != t
    ensures FoundOn(pr, beside, t, fs + AsFounds(t, runs))
  {
    hide RunsFor;
    var more := AsFounds(t, runs);
    forall r ensures r in runs <==> Found(t, r) in fs + more {
      if r in runs {
        var k :| 0 <= k < |runs| && runs[k] == r;
        assert more[k] == Found(t, r);
      }
    }
    assert ExactlyIn(t, runs, fs + more);
  }

  lemma StillFound(pr: Probe, beside: Beside, tracks: seq<Board.Track>, on: set<string>, fs: seq<Found>,
                   t: Board.Track, runs: seq<Run>)
    requires FoundAll(pr, beside, tracks, on, fs) && t !in tracks
    ensures FoundAll(pr, beside, tracks, on, fs + AsFounds(t, runs))
  {
    SameFound(pr, beside, tracks, on, fs, fs + AsFounds(t, runs));
  }

  /** Only what is found on these tracks matters, in whatever order. */
  lemma SameFound(pr: Probe, beside: Beside, tracks: seq<Board.Track>, on: set<string>, fs: seq<Found>, out: seq<Found>)
    requires FoundAll(pr, beside, tracks, on, fs) && forall f: Found :: f.track in tracks ==> (f in fs <==> f in out)
    ensures FoundAll(pr, beside, tracks, on, out)
  {
    hide RunsFor;
    forall t | t in tracks && t.wire.Segment? && (on == {} || t.wire.uuid in on) ensures FoundOn(pr, beside, t, out) {
      var runs :| RunsFor(On(pr, beside, t), t.wire, runs) && ExactlyIn(t, runs, fs);
      assert ExactlyIn(t, runs, out);
    }
  }

  lemma NotBefore(tracks: seq<Board.Track>, k: nat)
    requires Board.Distinct(tracks) && k < |tracks|
    ensures tracks[k] !in tracks[..k]
  {
  }

  // ---- by track ----

  datatype Group = Group(track: Board.Track, runs: seq<Run>)

  ghost predicate Grouped(fs: seq<Found>, groups: seq<Group>) {
    && (forall a, b :: 0 <= a < b < |groups| ==> groups[a].track != groups[b].track)
    && (forall a :: 0 <= a < |groups| ==>
          groups[a].runs != [] && NoDups(groups[a].runs) && forall r :: r in groups[a].runs ==> Found(groups[a].track, r) in fs)
    && (forall f :: f in fs ==> InGroup(groups, f))
  }

  ghost predicate InGroup(groups: seq<Group>, f: Found) { exists a :: 0 <= a < |groups| && groups[a].track == f.track && f.run in groups[a].runs }

  /** The tracks of some stretches, in the order they first come. */
  function TracksFound(fs: seq<Found>): seq<Board.Track> {
    if fs == [] then []
    else
      var before, t := TracksFound(fs[..|fs| - 1]), fs[|fs| - 1].track;
      if t in before then before else before + [t]
  }

  /** The stretches of one track, in the order they come. */
  function RunsOn(fs: seq<Found>, t: Board.Track): seq<Run> {
    if fs == [] then [] else RunsOn(fs[..|fs| - 1], t) + if fs[|fs| - 1].track == t then [fs[|fs| - 1].run] else []
  }

  ghost predicate InOrderFound(fs: seq<Found>, groups: seq<Group>) {
    |groups| == |TracksFound(fs)| && forall a :: 0 <= a < |groups| ==> groups[a] == Group(TracksFound(fs)[a], RunsOn(fs, TracksFound(fs)[a]))
  }

  lemma OneMoreInOrder(fs: seq<Found>, f: Found, groups: seq<Group>, a: nat)
    requires InOrderFound(fs, groups) && forall x, y :: 0 <= x < y < |groups| ==> groups[x].track != groups[y].track
    requires a <= |groups|
    requires if a < |groups| then groups[a].track == f.track else forall x :: 0 <= x < |groups| ==> groups[x].track != f.track
    ensures InOrderFound(fs + [f], if a < |groups| then groups[a := Group(f.track, groups[a].runs + [f.run])] else groups + [Group(f.track, [f.run])])
  {
    var ts := TracksFound(fs);
    assert (fs + [f])[..|fs|] == fs;
    if a == |groups| {
      assert f.track !in ts by { assert forall x :: 0 <= x < |ts| ==> ts[x] == groups[x].track; }
      NoneOn(fs, f.track);
    } else {
      assert ts[a] == f.track;
    }
  }

  lemma {:induction false} NoneOn(fs: seq<Found>, t: Board.Track)
    requires t !in TracksFound(fs)
    ensures RunsOn(fs, t) == []
  {
    if fs != [] { NoneOn(fs[..|fs| - 1], t); }
  }

  /** Gathers the stretches by the track they are on: the tracks in the order they first come, and the stretches of each
      in the order they do. */
  method GroupByTrack(fs: seq<Found>) returns (groups: seq<Group>)
    requires NoDups(fs)
    ensures Grouped(fs, groups) && InOrderFound(fs, groups)
  {
    groups := [];
    var index: map<Board.Track, nat> := map[];
    for k := 0 to |fs|
      invariant Grouped(fs[..k], groups) && InOrderFound(fs[..k], groups)
      invariant forall t :: t in index ==> index[t] < |groups| && groups[index[t]].track == t
      invariant forall a :: 0 <= a < |groups| ==> groups[a].track in index
    {
      hide Grouped, InOrderFound;
      var f := fs[k];
      assert fs[..k + 1] == fs[..k] + [f];
      ghost var at := if f.track in index then index[f.track] else |groups|;
      GroupsDiffer(fs[..k], groups);
      OneMoreInOrder(fs[..k], f, groups, at);
      if f.track in index {
        var a := index[f.track];
        IntoGroup(fs, k, groups, a);
        groups := groups[a := Group(f.track, groups[a].runs + [f.run])];
      } else {
        NewGroup(fs, k, groups);
        index := index[f.track := |groups|];
        groups := groups + [Group(f.track, [f.run])];
      }
    }
    assert fs[..|fs|] == fs;
  }

  lemma GroupsDiffer(fs: seq<Found>, groups: seq<Group>)
    requires Grouped(fs, groups)
    ensures forall a, b :: 0 <= a < b < |groups| ==> groups[a].track != groups[b].track
  {
  }

  lemma NotYet(fs: seq<Found>, k: nat)
    requires NoDups(fs) && k < |fs|
    ensures fs[k] !in fs[..k]
  {
  }

  lemma IntoGroup(fs: seq<Found>, k: nat, groups: seq<Group>, a: nat)
    requires NoDups(fs) && k < |fs| && Grouped(fs[..k], groups) && a < |groups| && groups[a].track == fs[k].track
    ensures Grouped(fs[..k + 1], groups[a := Group(fs[k].track, groups[a].runs + [fs[k].run])])
  {
    var f := fs[k];
    var after := groups[a := Group(f.track, groups[a].runs + [f.run])];
    assert fs[..k + 1] == fs[..k] + [f];
    NotYet(fs, k);
    forall g | g in fs[..k + 1] ensures InGroup(after, g) {
      if g in fs[..k] {
        assert InGroup(groups, g);
        var b :| 0 <= b < |groups| && groups[b].track == g.track && g.run in groups[b].runs;
        assert after[b].track == g.track && g.run in after[b].runs;
      } else {
        assert after[a].track == g.track && g.run in after[a].runs;
      }
    }
  }

  lemma NewGroup(fs: seq<Found>, k: nat, groups: seq<Group>)
    requires k < |fs| && Grouped(fs[..k], groups) && forall a :: 0 <= a < |groups| ==> groups[a].track != fs[k].track
    ensures Grouped(fs[..k + 1], groups + [Group(fs[k].track, [fs[k].run])])
  {
    var f := fs[k];
    var after := groups + [Group(f.track, [f.run])];
    assert fs[..k + 1] == fs[..k] + [f];
    forall g | g in fs[..k + 1] ensures InGroup(after, g) {
      if g in fs[..k] {
        assert InGroup(groups, g);
        var b :| 0 <= b < |groups| && groups[b].track == g.track && g.run in groups[b].runs;
        assert after[b].track == g.track;
      } else {
        assert after[|groups|].track == g.track;
      }
    }
  }

  ghost predicate GoodGroup(pr: Probe, g: Group) {
    && g.track.wire.Segment? && NoDups(g.runs) && (forall r :: r in g.runs ==> GoodRun(pr, r) && RunOn(pr.dist, g.track.wire, r))
    && (forall a, b :: a in g.runs && b in g.runs && a != b ==> RunsApart(pr.dist, g.track.wire, a, b))
  }

  lemma GroupIsGood(pr: Probe, tracks: seq<Board.Track>, on: set<string>, fs: seq<Found>, groups: seq<Group>, a: nat)
    requires GoodFounds(pr, tracks, on, fs) && Grouped(fs, groups) && a < |groups|
    ensures GoodGroup(pr, groups[a]) && groups[a].runs != []
    ensures groups[a].track in tracks && groups[a].track.wire.Segment? && (on == {} || groups[a].track.wire.uuid in on)
  {
    hide GoodRun, RunOn, RunsApart, InGroup;
    var g := groups[a];
    assert Found(g.track, g.runs[0]) in fs;
    forall r | r in g.runs ensures GoodRun(pr, r) && RunOn(pr.dist, g.track.wire, r) { assert Found(g.track, r) in fs; }
    forall x, y | x in g.runs && y in g.runs && x != y ensures RunsApart(pr.dist, g.track.wire, x, y) {
      assert FoundsApart(pr, Found(g.track, x), Found(g.track, y));
    }
  }

  /** A track with room on it has two ends. */
  lemma GroupHasEnds(pr: Probe, g: Group)
    requires GoodGroup(pr, g) && g.runs != [] && Euclidean(pr.dist)
    ensures g.track.wire.start != g.track.wire.end
  {
    hide GoodRun, AlongOf, AlongAt;
    assert RunOn(pr.dist, g.track.wire, g.runs[0]) by { assert g.runs[0] in g.runs; }
    Apart(pr.dist, g.track.wire.start, g.track.wire.end);
  }

  lemma FoundOnce(pr: Probe, tracks: seq<Board.Track>, on: set<string>, fs: seq<Found>)
    requires GoodFounds(pr, tracks, on, fs)
    ensures NoDups(fs)
  {
  }
}
