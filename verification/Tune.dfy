/** Lengthening a net (tune/meander.go, tune/shape.go): meanders are planned track by track, and each track is replaced
    once with all it carries. */
module Tune {
  import opened Common
  import opened Geometry
  import opened Euclid
  import opened Along
  import opened Stretches
  import opened RoomBeside
  import opened Runs
  import opened Replacement
  import opened Sorting
  import M = Meander
  import Board

  /** A meander planned for one of these runs, no higher than the room beside it. */
  ghost predicate FromRun(pr: Probe, runs: seq<Run>, m: M.Shape) {
    exists r, want, got :: r in runs && PlannedFor(pr, r, want, m, got)
  }

  /** Meanders so far, each for its own one of the first `k` runs. */
  ghost predicate Chosen(pr: Probe, g: Group, k: nat, ms: seq<M.Shape>)
    requires k <= |g.runs|
  {
    GoodShapes(pr, g.track.wire, ms) && forall m :: m in ms ==> FromRun(pr, g.runs[..k], m)
  }

  lemma OneMoreChosen(pr: Probe, g: Group, k: nat, ms: seq<M.Shape>, want: real, m: M.Shape, got: real)
    requires GoodGroup(pr, g) && k < |g.runs| && Chosen(pr, g, k, ms) && PlannedFor(pr, g.runs[k], want, m, got)
    ensures Chosen(pr, g, k + 1, ms + [m])
  {
    hide GoodRun, Planned, NoDups, Disjoint, OnTrack;
    var r, w := g.runs[k], g.track.wire;
    assert g.runs[..k + 1] == g.runs[..k] + [r];
    PlannedEnds(pr, r, want, m, got);
    assert r in g.runs;
    assert ShapeOn(pr, w, m);
    forall n | n in ms ensures n != m && ShapesApart(pr, w, n, m) && ShapesApart(pr, w, m, n) {
      var q, qw, qg :| q in g.runs[..k] && PlannedFor(pr, q, qw, n, qg);
      PlannedEnds(pr, q, qw, n, qg);
      DifferentRun(g.runs, k, q);
      ApartIsDifferent(pr.dist, w, q, r);
      EndsDiffer(pr.dist, w, q, r);
    }
    NoDupsMore(ms, m);
    forall n | n in ms + [m] ensures FromRun(pr, g.runs[..k + 1], n) {
      if n in ms {
        var q, qw, qg :| q in g.runs[..k] && PlannedFor(pr, q, qw, n, qg);
        assert q in g.runs[..k + 1];
      } else {
        assert r in g.runs[..k + 1];
      }
    }
  }

  lemma NoDupsMore(ms: seq<M.Shape>, m: M.Shape)
    requires NoDups(ms) && m !in ms
    ensures NoDups(ms + [m])
  {
  }

  lemma DifferentRun(runs: seq<Run>, k: nat, q: Run)
    requires NoDups(runs) && k < |runs| && q in runs[..k]
    ensures q in runs && runs[k] in runs && q != runs[k]
  {
  }

  lemma EndsDiffer(dist: Distance, w: Board.Wire, a: Run, b: Run)
    requires RunOn(dist, w, a) && RunOn(dist, w, b) && RunsApart(dist, w, a, b)
    ensures a.from != b.from
  {
  }

  lemma PlannedEnds(pr: Probe, r: Run, want: real, m: M.Shape, got: real)
    requires PlannedFor(pr, r, want, m, got)
    ensures m.from == r.from && m.to == r.to && m.Valid(pr.dist) && m.Placed(pr.dist) && 0.0 < m.Gain(pr.root2) <= want
  {
  }

  ghost predicate NothingFits(pr: Probe, r: Run, want: real, clear: M.Shape -> bool) {
    NoneFits(pr.st, pr.dist, pr.root2, r, pr.width, want, clear, 0)
  }

  /** This meander fits, and none with more excursions does. */
  ghost predicate MostThatFits(pr: Probe, r: Run, want: real, clear: M.Shape -> bool, m: M.Shape) {
    && m.count >= 1 && Some(m) == ShapeWith(pr.st, pr.dist, pr.root2, r, pr.width, want, m.count)
    && Fits(pr.st, pr.dist, pr.root2, r, pr.width, want, clear, m.count)
    && NoneFits(pr.st, pr.dist, pr.root2, r, pr.width, want, clear, m.count)
  }

  /** What a stretch is given when so much is still wanted. */
  ghost predicate BestFor(pr: Probe, r: Run, want: real, clear: M.Shape -> bool, given: Option<M.Shape>) {
    match given
    case None => want <= 0.0 || NothingFits(pr, r, want, clear)
    case Some(m) => want > 0.0 && MostThatFits(pr, r, want, clear, m)
  }

  /** What is still wanted when the stretches before have been given theirs. */
  function StillWanted(pr: Probe, want: real, given: seq<Option<M.Shape>>): real { want - SumGain(pr.root2, Somes(given)) }

  /** The first stretches of a track, each given the best for what the ones before it left wanting. */
  ghost predicate Planning(pr: Probe, runs: seq<Run>, want: real, clear: M.Shape -> bool, given: seq<Option<M.Shape>>) {
    && |given| <= |runs|
    && forall k :: 0 <= k < |given| ==> BestFor(pr, runs[k], StillWanted(pr, want, given[..k]), clear, given[k])
  }

  lemma NonePlanned(pr: Probe, runs: seq<Run>, want: real, clear: M.Shape -> bool)
    ensures Planning(pr, runs, want, clear, []) && Somes<M.Shape>([]) == [] && SumGain(pr.root2, []) == 0.0
  {
  }

  lemma PlanningMore(pr: Probe, runs: seq<Run>, want: real, clear: M.Shape -> bool, given: seq<Option<M.Shape>>,
                     m: Option<M.Shape>)
    requires Planning(pr, runs, want, clear, given) && |given| < |runs|
    requires BestFor(pr, runs[|given|], StillWanted(pr, want, given), clear, m)
    ensures Planning(pr, runs, want, clear, given + [m])
  {
    hide BestFor, StillWanted;
    var more := given + [m];
    forall k | 0 <= k < |more| ensures BestFor(pr, runs[k], StillWanted(pr, want, more[..k]), clear, more[k]) {
      assert more[..k] == given[..k];
      assert given[..|given|] == given;
    }
  }

  /** Once nothing is wanted any more, no stretch is given anything. */
  lemma {:induction false} NothingMore(pr: Probe, runs: seq<Run>, want: real, clear: M.Shape -> bool,
                                       given: seq<Option<M.Shape>>)
    returns (all: seq<Option<M.Shape>>)
    requires Planning(pr, runs, want, clear, given) && StillWanted(pr, want, given) <= 0.0
    ensures |all| == |runs| && Planning(pr, runs, want, clear, all) && Somes(all) == Somes(given)
    decreases |runs| - |given|
  {
    if |given| == |runs| {
      all := given;
    } else {
      SomesMore(given, None);
      hide NothingFits, MostThatFits;
      PlanningMore(pr, runs, want, clear, given, None);
      all := NothingMore(pr, runs, want, clear, given + [None]);
    }
  }

  /** Plans a track's meanders: each stretch is asked for what is still wanted, until nothing is. */
  method PlanTrack(pr: Probe, g: Group, need: real, clear: M.Shape -> bool)
    returns (ms: seq<M.Shape>, claimed: real, ghost given: seq<Option<M.Shape>>)
    requires pr.Sane() && Euclidean(pr.dist) && M.IsRoot2(pr.root2) && GoodGroup(pr, g) && need >= 0.0
    ensures |given| == |g.runs| && Planning(pr, g.runs, need, clear, given) && ms == Somes(given)
    ensures Chosen(pr, g, |g.runs|, ms) && claimed == SumGain(pr.root2, ms) && 0.0 <= claimed <= need
    ensures if ms == [] then claimed == 0.0 else claimed > 0.0
  {
    hide Euclidean, GoodRun, Planned, Capacity, M.IsRoot2, BestFor, GoodGroup, SumGain, Chosen, Planning, Somes;
    ms, claimed, given := [], 0.0, [];
    NoneChosen(pr, g);
    NonePlanned(pr, g.runs, need, clear);
    for k := 0 to |g.runs|
      invariant |given| == k && Planning(pr, g.runs, need, clear, given) && ms == Somes(given)
      invariant Chosen(pr, g, k, ms) && claimed == SumGain(pr.root2, ms) && 0.0 <= claimed <= need
      invariant if ms == [] then claimed == 0.0 else claimed > 0.0
    {
      if need - claimed <= 0.0 {
        StillChosen(pr, g, k, ms);
        given := NothingMore(pr, g.runs, need, clear, given);
        return;
      }
      var m, got := PlanRun(pr, g, k, need - claimed, ms, clear);
      PlanningMore(pr, g.runs, need, clear, given, m);
      SomesMore(given, m);
      given := given + [m];
      if m.Some? {
        ms, claimed := ms + [m.value], claimed + got;
      }
    }
  }

  /** Plans one more stretch. */
  method PlanRun(pr: Probe, g: Group, k: nat, want: real, ghost before: seq<M.Shape>, clear: M.Shape -> bool)
    returns (m: Option<M.Shape>, got: real)
    requires pr.Sane() && Euclidean(pr.dist) && M.IsRoot2(pr.root2) && GoodGroup(pr, g) && k < |g.runs| && want > 0.0
    requires Chosen(pr, g, k, before)
    ensures BestFor(pr, g.runs[k], want, clear, m)
    ensures m.None? ==> Chosen(pr, g, k + 1, before)
    ensures m.Some? ==> 0.0 < got <= want && Chosen(pr, g, k + 1, before + [m.value])
                        && SumGain(pr.root2, before + [m.value]) == SumGain(pr.root2, before) + got
  {
    hide Euclidean, GoodRun, Planned, Capacity, M.IsRoot2, NoneFits, Chosen, GoodGroup, FromRun;
    var r := g.runs[k];
    GoodRunIs(pr, g, k);
    m, got := PlanMeander(pr.st, pr.dist, pr.root2, r, pr.width, want, clear);
    if m.Some? {
      OneMoreChosen(pr, g, k, before, want, m.value, got);
      PlannedFits(pr, r, want, m.value, got, clear);
      assert (before + [m.value])[..|before|] == before;
    } else {
      OneMoreLeft(pr, g, k, before);
    }
  }

  lemma PlannedFits(pr: Probe, r: Run, want: real, m: M.Shape, got: real, clear: M.Shape -> bool)
    requires PlannedFor(pr, r, want, m, got) && clear(m) && m.count >= 1
    requires Some(m) == ShapeWith(pr.st, pr.dist, pr.root2, r, pr.width, want, m.count)
    ensures Fits(pr.st, pr.dist, pr.root2, r, pr.width, want, clear, m.count) && 0.0 < got <= want
    ensures got == m.Gain(pr.root2)
  {
    hide ShapeWith, M.Shape.Valid, M.Shape.Placed, M.Shape.Gain;
  }

  lemma GoodRunIs(pr: Probe, g: Group, k: nat)
    requires GoodGroup(pr, g) && k < |g.runs|
    ensures var r := g.runs[k]; r.Ok(pr.dist) && Capacity(pr.st, pr.root2, r.length, r.amp, pr.width) > 0.0
  {
    hide Capacity, StaysInside, Run.Ok, RunOn;
    assert g.runs[k] in g.runs;
  }

  lemma NoneChosen(pr: Probe, g: Group)
    ensures Chosen(pr, g, 0, [])
  {
  }

  lemma OneMoreLeft(pr: Probe, g: Group, k: nat, ms: seq<M.Shape>)
    requires k < |g.runs| && Chosen(pr, g, k, ms)
    ensures Chosen(pr, g, k + 1, ms)
  {
    hide GoodShapes, PlannedFor;
    assert g.runs[..k + 1] == g.runs[..k] + [g.runs[k]];
    forall m | m in ms ensures FromRun(pr, g.runs[..k + 1], m) {
      var r, want, got :| r in g.runs[..k] && PlannedFor(pr, r, want, m, got);
      assert r in g.runs[..k + 1];
    }
  }

  lemma {:induction false} StillChosen(pr: Probe, g: Group, k: nat, ms: seq<M.Shape>)
    requires k <= |g.runs| && Chosen(pr, g, k, ms)
    ensures Chosen(pr, g, |g.runs|, ms)
    decreases |g.runs| - k
  {
    if k < |g.runs| {
      OneMoreLeft(pr, g, k, ms);
      StillChosen(pr, g, k + 1, ms);
    }
  }

  // ---- replacing a track ----

  /** The length of copper; what is not a straight track is measured by `other`. */
  function CopperLength(dist: Distance, other: Board.Wire -> real, w: Board.Wire): real {
    if w.Segment? then Length(dist, w) else other(w)
  }

  function Total(dist: Distance, other: Board.Wire -> real, ts: seq<Board.Track>): real {
    if ts == [] then 0.0 else Total(dist, other, ts[..|ts| - 1]) + CopperLength(dist, other, ts[|ts| - 1].wire)
  }

  lemma {:induction false} TotalTogether(dist: Distance, other: Board.Wire -> real, a: seq<Board.Track>,
                                         b: seq<Board.Track>)
    ensures Total(dist, other, a + b) == Total(dist, other, a) + Total(dist, other, b)
  {
    hide CopperLength;
    if b == [] {
      assert a + b == a;
    } else {
      assert (a + b)[..|a + b| - 1] == a + b[..|b| - 1];
      TotalTogether(dist, other, a, b[..|b| - 1]);
    }
  }

  lemma TotalReplaced(dist: Distance, other: Board.Wire -> real, ts: seq<Board.Track>, o: Board.Track,
                      with: seq<Board.Track>)
    requires Board.Distinct(ts) && o in ts
    ensures Total(dist, other, Board.Replaced(ts, o, with)) ==
      Total(dist, other, ts) - CopperLength(dist, other, o.wire) + Total(dist, other, with)
  {
    hide CopperLength, Board.Replaced, Total;
    var i :| 0 <= i < |ts| && ts[i] == o;
    var a, b := ts[..i], ts[i + 1..];
    assert ts == a + [o] + b;
    Board.ReplacedInMiddle(a, o, b, with);
    TotalTogether(dist, other, a + [o], b);
    TotalTogether(dist, other, a, [o]);
    TotalTogether(dist, other, a + with, b);
    TotalTogether(dist, other, a, with);
    TotalOfOne(dist, other, o);
  }

  lemma TotalOfOne(dist: Distance, other: Board.Wire -> real, o: Board.Track)
    ensures Total(dist, other, [o]) == CopperLength(dist, other, o.wire)
  {
    assert [o][..0] == [];
  }

  function WireAlong(pts: seq<Pt>, w: Board.Wire, width: Board.Width, uuid: nat -> string, next: nat,
                     i: nat): Board.Wire
    requires w.Segment? && i + 1 < |pts|
  {
    Board.Segment(w.net, uuid(next + i), pts[i], pts[i + 1], width, w.layer)
  }

  /** Straight tracks along a path, one for each step of it, on the net and the layer of the old one. */
  function TracksAlong(pts: seq<Pt>, w: Board.Wire, width: Board.Width, uuid: nat -> string, next: nat,
                       node: nat): seq<Board.Track>
    requires w.Segment? && pts != []
  {
    seq(|pts| - 1, i requires 0 <= i < |pts| - 1 => Board.Track(node + i, WireAlong(pts, w, width, uuid, next, i)))
  }

  lemma {:induction false} TotalAlong(dist: Distance, other: Board.Wire -> real, pts: seq<Pt>, w: Board.Wire,
                                      width: Board.Width,
                                      uuid: nat -> string, next: nat, node: nat)
    requires w.Segment? && pts != []
    ensures Total(dist, other, TracksAlong(pts, w, width, uuid, next, node)) == M.PathLength(dist, pts)
    decreases |pts|
  {
    if |pts| > 1 {
      var n := |pts| - 1;
      TotalAlong(dist, other, pts[..n], w, width, uuid, next, node);
      var ts := TracksAlong(pts, w, width, uuid, next, node);
      assert ts[..n - 1] == TracksAlong(pts[..n], w, width, uuid, next, node);
    }
  }

  method Segments(pts: seq<Pt>, w: Board.Wire, width: Board.Width, uuid: nat -> string,
                  next: nat) returns (ws: seq<Board.Wire>)
    requires w.Segment? && pts != []
    ensures |ws| == |pts| - 1 && forall i :: 0 <= i < |ws| ==> ws[i] == WireAlong(pts, w, width, uuid, next, i)
  {
    ws := [];
    var i := 0;
    while i + 1 < |pts|
      invariant i < |pts| && |ws| == i
      invariant forall k :: 0 <= k < i ==> ws[k] == WireAlong(pts, w, width, uuid, next, k)
    {
      ws := ws + [Board.Segment(w.net, uuid(next + i), pts[i], pts[i + 1], width, w.layer)];
      i := i + 1;
    }
  }

  /** What is drawn of some meanders: nothing, if there are none or the clearance check would not have the path through
      them; else that path, as tracks. */
  ghost predicate Applied(pr: Probe, t: Board.Track, ms: seq<M.Shape>, noWorse: seq<Pt> -> bool, uuid: nat -> string,
                          next: nat, node: nat,
                          path: seq<Pt>, added: seq<Board.Track>)
    requires pr.Sane() && t.wire.Segment?
  {
    if ms == [] then path == [] && added == []
    else
      && PathOf(pr, t.wire, ms, path) && |path| >= 2
      && added == if noWorse(path) then TracksAlong(path, t.wire, pr.width, uuid, next, node) else []
  }

  /** A list of tracks with one given up for others, if there are any. */
  function Instead(ts: seq<Board.Track>, t: Board.Track, added: seq<Board.Track>): seq<Board.Track> {
    if added == [] then ts else Board.Replaced(ts, t, added)
  }

  /** Replaces one track with a chain carrying all its meanders, unless the rules would be kept less well than before;
      and says how much length that added. */
  method ApplyTrack(b: Board.Board, pr: Probe, other: Board.Wire -> real, t: Board.Track, ms: seq<M.Shape>,
                    noWorse: seq<Pt> -> bool,
                    uuid: nat -> string, next: nat)
    returns (got: real, created: nat, ghost path: seq<Pt>, ghost added: seq<Board.Track>)
    requires b.Valid() && t in b.tracks && t.wire.Segment? && Euclidean(pr.dist) && M.IsRoot2(pr.root2) && pr.Sane()
    requires GoodShapes(pr, t.wire, ms) && t.wire.start != t.wire.end
    modifies b
    ensures b.Valid() && b.tracks == Instead(old(b.tracks), t, added) && b.nextNode == old(b.nextNode) + |added|
    ensures Applied(pr, t, ms, noWorse, uuid, next, old(b.nextNode), path, added)
    ensures created == |added| && got == if added == [] then 0.0 else SumGain(pr.root2, ms)
    ensures Total(pr.dist, other, b.tracks) == Total(pr.dist, other, old(b.tracks)) + got
  {
    hide Euclidean, GoodShapes, M.IsRoot2, Total, SumGain, M.PathLength, Board.InStep, PathOf, Board.Replaced;
    if ms == [] { return 0.0, 0, [], []; }
    var pts := ReplacementPolyline(pr, t.wire, ms);
    path := pts;
    if !noWorse(pts) { return 0.0, 0, path, []; }
    var ws := Segments(pts, t.wire, pr.width, uuid, next);
    ghost var before := b.tracks;
    DistinctTracks(b);
    ghost var along := TracksAlong(pts, t.wire, pr.width, uuid, next, b.nextNode);
    var ok, news := b.ReplaceTrack(t, ws);
    added := news;
    assert added == along;
    var after := M.Measure(pr.dist, pts);
    got := after - Length(pr.dist, t.wire);
    created := |ws|;
    TotalReplaced(pr.dist, other, before, t, added);
    TotalAlong(pr.dist, other, pts, t.wire, pr.width, uuid, next, old(b.nextNode));
  }

  lemma DistinctTracks(b: Board.Board)
    requires b.Valid()
    ensures Board.Distinct(b.tracks) && forall t :: t in b.tracks ==> t.node < b.nextNode
  {
  }

  // ---- lengthening a net ----

  datatype Outcome = Outcome(added: real, shortfall: real, meanders: nat, replaced: nat, created: nat)

  /** One track's turn: what it was asked for, what each of its stretches was given, the path through that, and what was
      drawn. */
  datatype Turn = Turn(group: Group, asked: real, given: seq<Option<M.Shape>>, path: seq<Pt>, added: seq<Board.Track>) {
    function Drawn(): seq<M.Shape> { if added == [] then [] else Somes(given) }
  }

  function AllDrawn(log: seq<Turn>): seq<M.Shape> { if log == [] then [] else AllDrawn(log[..|log| - 1]) + log[|log| - 1].Drawn() }

  function AllAdded(log: seq<Turn>): seq<Board.Track> { if log == [] then [] else AllAdded(log[..|log| - 1]) + log[|log| - 1].added }

  function TracksReplaced(log: seq<Turn>): nat {
    if log == [] then 0 else TracksReplaced(log[..|log| - 1]) + if log[|log| - 1].added == [] then 0 else 1
  }

  /** What the turns so far leave to be added. */
  function LeftOver(pr: Probe, need: real, log: seq<Turn>): real { need - SumGain(pr.root2, AllDrawn(log)) }

  /** The board's tracks once each track that had something drawn on it has given way. */
  function TracksAfter(before: seq<Board.Track>, log: seq<Turn>): seq<Board.Track> {
    if log == [] then before
    else Instead(TracksAfter(before, log[..|log| - 1]), log[|log| - 1].group.track, log[|log| - 1].added)
  }

  function ClearOf(clear: (nat, M.Shape) -> bool, a: nat): M.Shape -> bool { s => clear(a, s) }

  function NoWorseOf(noWorse: (nat, seq<Pt>) -> bool, a: nat): seq<Pt> -> bool { p => noWorse(a, p) }

  /** What is asked of the clearance check and for names, while a net is lengthened. */
  datatype Answers = Answers(clear: (nat, M.Shape) -> bool, noWorse: (nat, seq<Pt>) -> bool, uuid: nat -> string, next: nat, node: nat)

  /** A turn that went as it must: planned for all that is asked of it, and drawn unless refused. */
  ghost predicate TurnOk(pr: Probe, l: Turn, asked: real, x: Answers, a: nat, created: nat)
    requires pr.Sane()
  {
    && l.asked == asked > 0.0 && l.group.track.wire.Segment? && |l.given| == |l.group.runs|
    && Planning(pr, l.group.runs, asked, ClearOf(x.clear, a), l.given)
    && Applied(pr, l.group.track, Somes(l.given), NoWorseOf(x.noWorse, a), x.uuid, x.next + created, x.node + created, l.path, l.added)
  }

  /** Every track in turn, asked for exactly what the ones before it left. */
  ghost predicate IsLog(pr: Probe, log: seq<Turn>, groups: seq<Group>, need: real, x: Answers)
    requires pr.Sane()
  {
    && |log| <= |groups|
    && forall a :: 0 <= a < |log| ==>
         log[a].group == groups[a] && TurnOk(pr, log[a], LeftOver(pr, need, log[..a]), x, a, |AllAdded(log[..a])|)
  }

  lemma LogMore(pr: Probe, log: seq<Turn>, groups: seq<Group>, need: real, x: Answers, l: Turn)
    requires pr.Sane() && IsLog(pr, log, groups, need, x) && |log| < |groups| && l.group == groups[|log|]
    requires TurnOk(pr, l, LeftOver(pr, need, log), x, |log|, |AllAdded(log)|)
    ensures IsLog(pr, log + [l], groups, need, x)
  {
    hide TurnOk, LeftOver;
    var more := log + [l];
    forall a | 0 <= a < |more| ensures more[a].group == groups[a] && TurnOk(pr, more[a], LeftOver(pr, need, more[..a]), x, a, |AllAdded(more[..a])|) {
      assert more[..a] == log[..a];
      assert log[..|log|] == log;
    }
  }

  /** One more turn's worth of each. */
  lemma OneMoreTurn(pr: Probe, before: seq<Board.Track>, log: seq<Turn>, l: Turn)
    ensures AllDrawn(log + [l]) == AllDrawn(log) + l.Drawn() && AllAdded(log + [l]) == AllAdded(log) + l.added
    ensures TracksReplaced(log + [l]) == TracksReplaced(log) + if l.added == [] then 0 else 1
    ensures TracksAfter(before, log + [l]) == Instead(TracksAfter(before, log), l.group.track, l.added)
    ensures SumGain(pr.root2, AllDrawn(log + [l])) == SumGain(pr.root2, AllDrawn(log)) + SumGain(pr.root2, l.Drawn())
  {
    assert (log + [l])[..|log|] == log;
    hide SumGain, Instead, Turn.Drawn;
    SumTogether(pr.root2, AllDrawn(log), l.Drawn());
  }

  // ---- what has changed ----

  /** A track whose turn did not come, or came to nothing, is still there. */
  lemma {:induction false} StillThere(before: seq<Board.Track>, log: seq<Turn>, t: Board.Track)
    requires t in before && forall a :: 0 <= a < |log| ==> log[a].group.track != t || log[a].added == []
    ensures t in TracksAfter(before, log)
  {
    hide Board.Replaced;
    if log != [] {
      var n := |log| - 1;
      StillThere(before, log[..n], t);
      Board.ReplacedHolds(TracksAfter(before, log[..n]), log[n].group.track, log[n].added, t);
    }
  }

  /** What is new was drawn in some track's turn. */
  lemma {:induction false} NewIsDrawn(before: seq<Board.Track>, log: seq<Turn>, u: Board.Track)
    requires u in TracksAfter(before, log) && u !in before
    ensures exists a :: 0 <= a < |log| && u in log[a].added
  {
    hide Board.Replaced;
    if log != [] {
      var n := |log| - 1;
      Board.ReplacedHolds(TracksAfter(before, log[..n]), log[n].group.track, log[n].added, u);
      if u !in log[n].added {
        NewIsDrawn(before, log[..n], u);
        var a :| 0 <= a < n && u in log[..n][a].added;
        assert u in log[a].added;
      }
    }
  }

  /** Tracks a net may be lengthened on. */
  predicate MayCarry(t: Board.Track, net: string, on: set<string>) {
    t.wire.Segment? && t.wire.net == net && (on == {} || t.wire.uuid in on)
  }

  /** The track may carry meanders, and the path drawn keeps to its line or, beside it, to the areas. */
  ghost predicate TurnStays(pr: Probe, l: Turn, net: string, on: set<string>) {
    MayCarry(l.group.track, net, on) && AllStay(pr, l.group.track.wire, l.path)
  }

  /** A track drawn in some turn: as wide as the net's, on the layer of the track it stands in for, and along that
      track's line or within the areas. */
  ghost predicate WellDrawn(pr: Probe, log: seq<Turn>, net: string, on: set<string>, u: Board.Track) {
    exists a :: 0 <= a < |log| && u in log[a].added && DrawnFor(pr, log[a].group.track, net, on, u)
  }

  ghost predicate DrawnFor(pr: Probe, t: Board.Track, net: string, on: set<string>, u: Board.Track) {
    && MayCarry(t, net, on) && u.wire.Segment? && u.wire.net == net && u.wire.layer == t.wire.layer && u.wire.width == pr.width
    && StepStays(pr, t.wire, u.wire.start, u.wire.end)
  }

  lemma TurnDraws(pr: Probe, l: Turn, asked: real, x: Answers, a: nat, created: nat, net: string, on: set<string>,
                  u: Board.Track)
    requires pr.Sane() && TurnOk(pr, l, asked, x, a, created) && TurnStays(pr, l, net, on) && u in l.added
    ensures DrawnFor(pr, l.group.track, net, on, u)
  {
    hide StepStays, Planning, PathOf;
    var i :| 0 <= i < |l.added| && l.added[i] == u;
    assert l.path[i] == l.path[i + 1 - 1];
    assert StepStays(pr, l.group.track.wire, l.path[i + 1 - 1], l.path[i + 1]);
  }

  lemma NewIsWellDrawn(pr: Probe, before: seq<Board.Track>, log: seq<Turn>, groups: seq<Group>, need: real, x: Answers,
                       net: string, on: set<string>)
    requires pr.Sane() && IsLog(pr, log, groups, need, x)
    requires forall a :: 0 <= a < |log| ==> TurnStays(pr, log[a], net, on)
    ensures forall u :: u in TracksAfter(before, log) && u !in before ==> WellDrawn(pr, log, net, on, u)
  {
    hide TurnOk, TurnStays, LeftOver, DrawnFor, TracksAfter;
    forall u | u in TracksAfter(before, log) && u !in before ensures WellDrawn(pr, log, net, on, u) {
      NewIsDrawn(before, log, u);
      var a :| 0 <= a < |log| && u in log[a].added;
      TurnDraws(pr, log[a], LeftOver(pr, need, log[..a]), x, a, |AllAdded(log[..a])|, net, on, u);
    }
  }

  /** A track that is gone gave way, in its own turn, to tracks that are there now. */
  ghost predicate GaveWay(log: seq<Turn>, net: string, on: set<string>, t: Board.Track, now: seq<Board.Track>) {
    MayCarry(t, net, on) && exists a :: 0 <= a < |log| && log[a].group.track == t && log[a].added != [] && forall u :: u in log[a].added ==> u in now
  }

  /** The turns are of tracks that were there to begin with, each its own. */
  ghost predicate OfOld(log: seq<Turn>, before: seq<Board.Track>, node: nat) {
    && (forall a :: 0 <= a < |log| ==> log[a].group.track in before && log[a].group.track.node < node)
    && (forall a, c :: 0 <= a < c < |log| ==> log[a].group.track != log[c].group.track)
    && (forall a, u :: 0 <= a < |log| && u in log[a].added ==> u.node >= node)
  }

  lemma {:induction false} DrawnIsThere(before: seq<Board.Track>, log: seq<Turn>, node: nat, a: nat, u: Board.Track)
    requires OfOld(log, before, node) && a < |log| && u in log[a].added
    ensures u in TracksAfter(before, log)
    decreases |log|
  {
    hide Board.Replaced;
    var n := |log| - 1;
    var t := log[n].group.track;
    Board.ReplacedHolds(TracksAfter(before, log[..n]), t, log[n].added, u);
    if a == n {
      StillThere(before, log[..n], t);
    } else {
      assert log[..n][a] == log[a];
      DrawnIsThere(before, log[..n], node, a, u);
    }
  }

  lemma GoneGaveWay(pr: Probe, before: seq<Board.Track>, log: seq<Turn>, node: nat, net: string, on: set<string>)
    requires OfOld(log, before, node) && forall a :: 0 <= a < |log| ==> TurnStays(pr, log[a], net, on)
    ensures var now := TracksAfter(before, log); forall t :: t in before && t !in now ==> GaveWay(log, net, on, t, now)
  {
    hide AllStay, TracksAfter, OfOld;
    var now := TracksAfter(before, log);
    forall t | t in before && t !in now ensures GaveWay(log, net, on, t, now) {
      if forall a :: 0 <= a < |log| ==> log[a].group.track != t || log[a].added == [] { StillThere(before, log, t); }
      var a :| 0 <= a < |log| && log[a].group.track == t && log[a].added != [];
      assert TurnStays(pr, log[a], net, on);
      forall u | u in log[a].added ensures u in now { DrawnIsThere(before, log, node, a, u); }
    }
  }

  // ---- what a shortfall means ----

  /** What became of a stretch in its track's turn, when at least so much was wanted of the track: with something drawn,
      it has its meander, or nothing fitted it for what was still wanted; with nothing drawn, the path through what was
      given was refused, or nothing fitted. */
  ghost predicate Accounted(pr: Probe, l: Turn, k: nat, least: real, x: Answers, a: nat)
    requires k < |l.given| == |l.group.runs|
  {
    && l.asked >= least
    && if l.added == [] && Somes(l.given) != [] then !x.noWorse(a, l.path)
       else
         || (l.added != [] && l.given[k].Some?)
         || (var want := StillWanted(pr, l.asked, l.given[..k]); want >= least && NothingFits(pr, l.group.runs[k], want, ClearOf(x.clear, a)))
  }

  ghost predicate Explained(pr: Probe, log: seq<Turn>, f: Found, least: real, x: Answers) {
    exists a, k :: 0 <= a < |log| && 0 <= k < |log[a].given| == |log[a].group.runs| && log[a].group.track == f.track
                   && log[a].group.runs[k] == f.run && Accounted(pr, log[a], k, least, x, a)
  }

  lemma NothingDrawn(root2: real)
    ensures SumGain(root2, []) == 0.0
  {
  }

  lemma {:induction false} GainsAddUp(pr: Probe, runs: seq<Run>, want: real, clear: M.Shape -> bool,
                                      given: seq<Option<M.Shape>>, i: nat, j: nat)
    requires Planning(pr, runs, want, clear, given) && i <= j <= |given|
    ensures StillWanted(pr, want, given[..i]) >= StillWanted(pr, want, given[..j])
    decreases j
  {
    hide BestFor, Somes, SumGain, M.Shape.Gain;
    if i < j {
      GainsAddUp(pr, runs, want, clear, given, i, j - 1);
      var before, m := given[..j - 1], given[j - 1];
      assert BestFor(pr, runs[j - 1], StillWanted(pr, want, before), clear, m);
      assert given[..j] == before + [m];
      SomesMore(before, m);
      if m.Some? {
        BestGains(pr, runs[j - 1], StillWanted(pr, want, before), clear, m.value);
        SumMore(pr.root2, Somes(before), m.value);
      } else {
        assert Somes(given[..j]) == Somes(before);
      }
    }
  }

  lemma BestGains(pr: Probe, r: Run, want: real, clear: M.Shape -> bool, m: M.Shape)
    requires BestFor(pr, r, want, clear, Some(m))
    ensures m.Gain(pr.root2) > 0.0
  {
    hide ShapeWith, M.Shape.Valid, M.Shape.Gain, NoneFits;
  }

  lemma SumMore(root2: real, ms: seq<M.Shape>, m: M.Shape)
    ensures SumGain(root2, ms + [m]) == SumGain(root2, ms) + m.Gain(root2)
  {
    assert (ms + [m])[..|ms|] == ms;
  }

  /** A turn adds what it draws, and that is never less than nothing. */
  lemma TurnLeaves(pr: Probe, log: seq<Turn>, groups: seq<Group>, need: real, x: Answers, a: nat)
    requires pr.Sane() && IsLog(pr, log, groups, need, x) && a < |log|
    ensures
      var l := log[a];
      LeftOver(pr, need, log[..a + 1]) == l.asked - SumGain(pr.root2, l.Drawn()) <= l.asked == LeftOver(pr, need, log[..a])
  {
    hide Planning, Applied, AllDrawn, AllAdded, TracksReplaced, TracksAfter, SumGain, NothingFits, MostThatFits;
    var l := log[a];
    assert log[..a + 1] == log[..a] + [l];
    OneMoreTurn(pr, [], log[..a], l);
    NothingDrawn(pr.root2);
    GainsAddUp(pr, l.group.runs, l.asked, ClearOf(x.clear, a), l.given, 0, |l.given|);
    assert l.given[..|l.given|] == l.given && l.given[..0] == [];
  }

  lemma {:induction false} LessIsLeft(pr: Probe, log: seq<Turn>, groups: seq<Group>, need: real, x: Answers, i: nat,
                                      j: nat)
    requires pr.Sane() && IsLog(pr, log, groups, need, x) && i <= j <= |log|
    ensures LeftOver(pr, need, log[..i]) >= LeftOver(pr, need, log[..j])
    decreases j
  {
    hide IsLog, LeftOver;
    if i < j {
      LessIsLeft(pr, log, groups, need, x, i, j - 1);
      TurnLeaves(pr, log, groups, need, x, j - 1);
    }
  }

  lemma TurnAccounts(pr: Probe, log: seq<Turn>, groups: seq<Group>, need: real, x: Answers, a: nat, k: nat, least: real)
    requires pr.Sane() && IsLog(pr, log, groups, need, x) && a < |log| && k < |log[a].given|
    requires 0.0 < least == LeftOver(pr, need, log)
    ensures |log[a].given| == |log[a].group.runs| && Accounted(pr, log[a], k, least, x, a)
  {
    TurnLeaves(pr, log, groups, need, x, a);
    LessIsLeft(pr, log, groups, need, x, a + 1, |log|);
    assert log[..|log|] == log;
    hide LeftOver, AllDrawn, AllAdded, SumGain, Planning, PathOf, Accounted, Turn.Drawn;
    AccountedFor(pr, log[a], x, a, |AllAdded(log[..a])|, k, least);
  }

  lemma AccountedFor(pr: Probe, l: Turn, x: Answers, a: nat, created: nat, k: nat, least: real)
    requires pr.Sane() && TurnOk(pr, l, l.asked, x, a, created) && k < |l.given|
    requires l.asked >= least && 0.0 < least <= l.asked - SumGain(pr.root2, l.Drawn())
    ensures Accounted(pr, l, k, least, x, a)
  {
    hide NothingFits, MostThatFits, SumGain, PathOf, Somes;
    var clear := ClearOf(x.clear, a);
    GainsAddUp(pr, l.group.runs, l.asked, clear, l.given, k, |l.given|);
    NothingDrawn(pr.root2);
    assert l.given[..|l.given|] == l.given;
    if l.given[k].Some? { GivenIsThere(l.given, k); }
    assert BestFor(pr, l.group.runs[k], StillWanted(pr, l.asked, l.given[..k]), clear, l.given[k]);
  }

  lemma {:induction false} GivenIsThere<T>(s: seq<Option<T>>, k: nat)
    requires k < |s| && s[k].Some?
    ensures Somes(s) != []
  {
    if k < |s| - 1 { GivenIsThere(s[..|s| - 1], k); }
  }

  /** Main result on what was left undone: every stretch found had its turn, and there is a reason for each. */
  lemma AllExplained(pr: Probe, log: seq<Turn>, groups: seq<Group>, fs: seq<Found>, need: real, x: Answers, least: real)
    requires pr.Sane() && IsLog(pr, log, groups, need, x) && |log| == |groups| && Grouped(fs, groups)
    requires 0.0 < least == LeftOver(pr, need, log)
    ensures forall f :: f in fs ==> Explained(pr, log, f, least, x)
  {
    hide TurnOk, LeftOver, Accounted;
    forall f | f in fs ensures Explained(pr, log, f, least, x) {
      assert InGroup(groups, f);
      var a :| 0 <= a < |groups| && groups[a].track == f.track && f.run in groups[a].runs;
      var k :| 0 <= k < |groups[a].runs| && groups[a].runs[k] == f.run;
      AllGiven(pr, log, groups, need, x, a);
      TurnAccounts(pr, log, groups, need, x, a, k, least);
    }
  }

  lemma AllGiven(pr: Probe, log: seq<Turn>, groups: seq<Group>, need: real, x: Answers, a: nat)
    requires pr.Sane() && IsLog(pr, log, groups, need, x) && a < |log|
    ensures |log[a].given| == |groups[a].runs|
  {
    hide Planning, Applied;
  }

  // ---- the whole of it ----

  /** The meanders chosen for a track have room around them. */
  lemma ChosenWell(pr: Probe, g: Group, ms: seq<M.Shape>)
    requires GoodGroup(pr, g) && Chosen(pr, g, |g.runs|, ms)
    ensures forall m :: m in ms ==> DrawnWell(pr, m)
  {
    hide GoodRun, PlannedFor, RunOn, RunsApart, GoodShapes;
    assert g.runs[..|g.runs|] == g.runs;
    forall m | m in ms ensures DrawnWell(pr, m) {
      var r, want, got :| r in g.runs && PlannedFor(pr, r, want, m, got);
      assert GoodRun(pr, r);
    }
  }

  /** Plans one track's meanders and draws them. */
  method TuneTrack(b: Board.Board, pr: Probe, other: Board.Wire -> real, g: Group, need: real, clear: M.Shape -> bool,
                   noWorse: seq<Pt> -> bool, uuid: nat -> string, next: nat)
    returns (got: real, meanders: nat, created: nat, ghost l: Turn)
    requires b.Valid() && pr.Sane() && Euclidean(pr.dist) && M.IsRoot2(pr.root2) && GoodGroup(pr, g) && need > 0.0
    requires g.track in b.tracks && g.track.wire.Segment? && g.track.wire.start != g.track.wire.end
    modifies b
    ensures b.Valid() && b.tracks == Instead(old(b.tracks), g.track, l.added)
    ensures b.nextNode == old(b.nextNode) + |l.added|
    ensures l.group == g && l.asked == need && |l.given| == |g.runs| && Planning(pr, g.runs, need, clear, l.given)
    ensures Applied(pr, g.track, Somes(l.given), noWorse, uuid, next, old(b.nextNode), l.path, l.added)
    ensures AllStay(pr, g.track.wire, l.path)
    ensures created == |l.added| && got == SumGain(pr.root2, l.Drawn()) && 0.0 <= got <= need
    ensures (created > 0 ==> meanders == |l.Drawn()|)
    ensures created == 0 ==> got == 0.0 && l.Drawn() == []
    ensures Total(pr.dist, other, b.tracks) == Total(pr.dist, other, old(b.tracks)) + got
  {
    hide Euclidean, M.IsRoot2, Total, SumGain, GoodGroup, DrawnWell, Board.InStep, GoodShapes, Planning, PathOf, StepStays;
    var ms, claimed;
    ghost var given, path, added;
    ms, claimed, given := PlanTrack(pr, g, need, clear);
    ChosenWell(pr, g, ms);
    got, created, path, added := ApplyTrack(b, pr, other, g.track, ms, noWorse, uuid, next);
    if ms != [] { PathStays(pr, g.track.wire, ms, path); }
    NothingDrawn(pr.root2);
    meanders := |ms|;
    l := Turn(g, need, given, path, added);
  }

  lemma NetDistinct(b: Board.Board, net: string)
    requires b.Valid()
    ensures Board.Distinct(b.TracksOfNet(net))
  {
    Board.OnNetDistinct(b.tracks, net);
  }

  /** The turns taken so far, and what they have made of the board. */
  ghost predicate Lengthening(pr: Probe, other: Board.Wire -> real, before: seq<Board.Track>, tracks: seq<Board.Track>,
                              nextNode: nat,
                              log: seq<Turn>, groups: seq<Group>, need: real, x: Answers, net: string, on: set<string>)
    requires pr.Sane()
  {
    && IsLog(pr, log, groups, need, x) && tracks == TracksAfter(before, log) && nextNode == x.node + |AllAdded(log)|
    && Total(pr.dist, other, tracks) == Total(pr.dist, other, before) + SumGain(pr.root2, AllDrawn(log))
    && OfOld(log, before, x.node) && forall a :: 0 <= a < |log| ==> TurnStays(pr, log[a], net, on)
  }

  lemma LeftIs(pr: Probe, need: real, log: seq<Turn>)
    ensures LeftOver(pr, need, log) == need - SumGain(pr.root2, AllDrawn(log))
  {
  }

  lemma NoTurns(pr: Probe, other: Board.Wire -> real, before: seq<Board.Track>, groups: seq<Group>, need: real,
                x: Answers,
                net: string, on: set<string>)
    requires pr.Sane()
    ensures Lengthening(pr, other, before, before, x.node, [], groups, need, x, net, on)
    ensures LeftOver(pr, need, []) == need && AllDrawn([]) == [] && AllAdded([]) == [] && TracksReplaced([]) == 0
  {
    NothingDrawn(pr.root2);
  }

  /** The next track may carry meanders, has room for some, and is still on the board. */
  lemma TurnComes(pr: Probe, other: Board.Wire -> real, before: seq<Board.Track>, now: seq<Board.Track>, nextNode: nat,
                  log: seq<Turn>,
                  groups: seq<Group>, need: real, x: Answers, net: string, on: set<string>, fs: seq<Found>, tracks: seq<Board.Track>)
    requires pr.Sane() && Lengthening(pr, other, before, now, nextNode, log, groups, need, x, net, on)
    requires |log| < |groups|
    requires Grouped(fs, groups) && GoodFounds(pr, tracks, on, fs) && Euclidean(pr.dist)
    requires (forall t :: t in tracks ==> t in before && t.wire.net == net)
    requires forall t :: t in before ==> t.node < x.node
    ensures
      var g := groups[|log|];
      GoodGroup(pr, g) && MayCarry(g.track, net, on) && g.track.wire.start != g.track.wire.end
      && g.track in before && g.track in now && forall a :: 0 <= a < |log| ==> log[a].group.track != g.track
    ensures nextNode == x.node + |AllAdded(log)|
  {
    hide GoodFounds, Euclidean, GoodGroup, TurnOk, TurnStays, LeftOver, Total, SumGain, AllDrawn, AllAdded, TracksAfter, InGroup, NoDups;
    var k := |log|;
    GroupIsGood(pr, tracks, on, fs, groups, k);
    GroupHasEnds(pr, groups[k]);
    forall a | 0 <= a < k ensures log[a].group.track != groups[k].track { assert log[a].group == groups[a]; }
    StillThere(before, log, groups[k].track);
  }

  lemma TurnTaken(pr: Probe, other: Board.Wire -> real, before: seq<Board.Track>, was: seq<Board.Track>, nextNode: nat,
                  log: seq<Turn>,
                  groups: seq<Group>, need: real, x: Answers, net: string, on: set<string>, l: Turn, now: seq<Board.Track>)
    requires pr.Sane() && Lengthening(pr, other, before, was, nextNode, log, groups, need, x, net, on)
    requires |log| < |groups|
    requires l.group == groups[|log|] && TurnOk(pr, l, LeftOver(pr, need, log), x, |log|, |AllAdded(log)|)
    requires TurnStays(pr, l, net, on)
    requires now == Instead(was, l.group.track, l.added)
    requires Total(pr.dist, other, now) == Total(pr.dist, other, was) + SumGain(pr.root2, l.Drawn())
    requires l.group.track in before && l.group.track.node < x.node
    requires forall a :: 0 <= a < |log| ==> log[a].group.track != l.group.track
    ensures Lengthening(pr, other, before, now, nextNode + |l.added|, log + [l], groups, need, x, net, on)
    ensures LeftOver(pr, need, log + [l]) == LeftOver(pr, need, log) - SumGain(pr.root2, l.Drawn())
    ensures AllDrawn(log + [l]) == AllDrawn(log) + l.Drawn() && AllAdded(log + [l]) == AllAdded(log) + l.added
    ensures TracksReplaced(log + [l]) == TracksReplaced(log) + if l.added == [] then 0 else 1
  {
    hide TurnOk, TurnStays, IsLog, Total, SumGain, AllDrawn, AllAdded, TracksReplaced, TracksAfter, Instead, Turn.Drawn, OfOld;
    TurnAdds(pr, l, LeftOver(pr, need, log), x, |log|, |AllAdded(log)|);
    LogMore(pr, log, groups, need, x, l);
    OneMoreTurn(pr, before, log, l);
    OfOldMore(log, before, x.node, l);
  }

  lemma OfOldMore(log: seq<Turn>, before: seq<Board.Track>, node: nat, l: Turn)
    requires OfOld(log, before, node) && l.group.track in before && l.group.track.node < node
    requires (forall a :: 0 <= a < |log| ==> log[a].group.track != l.group.track)
    requires forall u :: u in l.added ==> u.node >= node
    ensures OfOld(log + [l], before, node)
  {
  }

  lemma TurnAdds(pr: Probe, l: Turn, asked: real, x: Answers, a: nat, created: nat)
    requires pr.Sane() && TurnOk(pr, l, asked, x, a, created)
    ensures forall u :: u in l.added ==> u.node >= x.node
  {
    hide Planning, PathOf;
  }

  lemma Concluded(pr: Probe, other: Board.Wire -> real, before: seq<Board.Track>, now: seq<Board.Track>, nextNode: nat,
                  log: seq<Turn>,
                  groups: seq<Group>, need: real, x: Answers, net: string, on: set<string>)
    requires pr.Sane() && Lengthening(pr, other, before, now, nextNode, log, groups, need, x, net, on)
    ensures IsLog(pr, log, groups, need, x) && now == TracksAfter(before, log)
    ensures Total(pr.dist, other, now) == Total(pr.dist, other, before) + SumGain(pr.root2, AllDrawn(log))
    ensures forall t :: t in before && t !in now ==> GaveWay(log, net, on, t, now)
    ensures forall u :: u in now && u !in before ==> WellDrawn(pr, log, net, on, u)
  {
    hide IsLog, TurnStays, OfOld, TracksAfter, Total, SumGain, GaveWay, WellDrawn;
    GoneGaveWay(pr, before, log, x.node, net, on);
    NewIsWellDrawn(pr, before, log, groups, need, x, net, on);
  }

  /** Adds length to a net, and says what it managed: never more than was asked, and all that was asked but for the
      shortfall. The board's copper is longer by exactly that; only tracks that may carry a meander have given way, each
      to the path through the meanders chosen for it; and what is new is along them or within the areas. */
  method Tune(b: Board.Board, pr: Probe, other: Board.Wire -> real, net: string, need: real, on: set<string>,
              beside: Beside,
              clear: (nat, M.Shape) -> bool, noWorse: (nat, seq<Pt>) -> bool, uuid: nat -> string, next: nat)
    returns (res: Outcome, ghost log: seq<Turn>, ghost groups: seq<Group>, ghost fs: seq<Found>)
    requires b.Valid() && pr.Sane() && Euclidean(pr.dist) && M.IsRoot2(pr.root2)
    modifies b
    ensures b.Valid()
    ensures var x := Answers(clear, noWorse, uuid, next, old(b.nextNode)); IsLog(pr, log, groups, need, x)
    ensures b.tracks == TracksAfter(old(b.tracks), log)
    ensures var added := SumGain(pr.root2, AllDrawn(log));
      res == Outcome(added, Max(0.0, need) - added, |AllDrawn(log)|, TracksReplaced(log), |AllAdded(log)|)
    ensures res.added >= 0.0 && res.shortfall >= 0.0
    ensures Total(pr.dist, other, b.tracks) == Total(pr.dist, other, old(b.tracks)) + res.added
    ensures forall t :: t in old(b.tracks) && t !in b.tracks ==> GaveWay(log, net, on, t, b.tracks)
    ensures forall u :: u in b.tracks && u !in old(b.tracks) ==> WellDrawn(pr, log, net, on, u)
    ensures if need > 0.0 then
              && FoundAll(pr, beside, old(b.TracksOfNet(net)), on, fs) && GoodFounds(pr, old(b.TracksOfNet(net)), on, fs)
              && SortedBy(fs, f => ByRoom(pr, f)) && Grouped(fs, groups) && InOrderFound(fs, groups)
            else groups == []
    ensures res.shortfall > 0.0 ==> |log| == |groups|
    ensures var x := Answers(clear, noWorse, uuid, next, old(b.nextNode));
      res.shortfall > 0.0 ==> forall f :: f in fs ==> Explained(pr, log, f, res.shortfall, x)
  {
    hide Euclidean, M.IsRoot2, GoodFounds, Grouped, InOrderFound, GoodGroup, Board.InStep, FoundAll, Lengthening,
         Explained, WellDrawn, GaveWay, SortedBy, IsLog, Total, SumGain, AllDrawn, AllAdded, TracksReplaced, TracksAfter,
         Planning, Applied, AllStay, Instead, Turn.Drawn, LeftOver;
    res, log, groups, fs := Outcome(0.0, 0.0, 0, 0, 0), [], [], [];
    ghost var x, before := Answers(clear, noWorse, uuid, next, b.nextNode), b.tracks;
    NoTurns(pr, other, before, groups, need, x, net, on);
    if need <= 0.0 {
      Concluded(pr, other, before, b.tracks, b.nextNode, log, groups, need, x, net, on);
      return;
    }
    DistinctTracks(b);
    var tracks := b.TracksOfNet(net);
    NetDistinct(b, net);
    var found := FindRuns(pr, beside, tracks, on);
    fs := found;
    FoundOnce(pr, tracks, on, fs);
    var gs := GroupByTrack(found);
    groups := gs;
    NoTurns(pr, other, before, groups, need, x, net, on);
    var remaining, used := need, next;
    for k := 0 to |gs|
      invariant b.Valid() && |log| == k
      invariant Lengthening(pr, other, before, b.tracks, b.nextNode, log, groups, need, x, net, on)
      invariant remaining == LeftOver(pr, need, log) >= 0.0 && used == next + |AllAdded(log)|
      invariant res == Outcome(need - remaining, 0.0, |AllDrawn(log)|, TracksReplaced(log), |AllAdded(log)|)
      invariant res.added >= 0.0
    {
      if remaining <= 0.0 { break; }
      var g := gs[k];
      TurnComes(pr, other, before, b.tracks, b.nextNode, log, groups, need, x, net, on, fs, tracks);
      ghost var was, wasNext := b.tracks, b.nextNode;
      var got, meanders, created;
      ghost var l;
      got, meanders, created, l := TuneTrack(b, pr, other, g, remaining, ClearOf(clear, k), NoWorseOf(noWorse, k), uuid, used);
      TurnTaken(pr, other, before, was, wasNext, log, groups, need, x, net, on, l, b.tracks);
      log := log + [l];
      used := used + created;
      if created > 0 {
        res := Outcome(res.added + got, 0.0, res.meanders + meanders, res.replaced + 1, res.created + created);
        remaining := remaining - got;
      }
    }
    res := res.(shortfall := remaining);
    assert remaining == need - SumGain(pr.root2, AllDrawn(log)) by { LeftIs(pr, need, log); }
    Concluded(pr, other, before, b.tracks, b.nextNode, log, groups, need, x, net, on);
    if remaining > 0.0 { AllExplained(pr, log, groups, fs, need, x, remaining); }
  }
}
