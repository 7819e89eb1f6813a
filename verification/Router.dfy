/** Making connections (route/route.go, route/lay.go): propose a path, check it as real copper, lay it or block it and
    ask again; and where a net cannot get through, take up what is in its way and lay that again after it. */
module Router {
  import opened Common
  import opened Geometry
  import opened Routes
  import opened RouteState
  import opened Sorting
  import opened Tries
  import Board
  import C = Clearance
  import E = Euclid
  import Grid
  import Lay
  import RouteSpace
  import AStar

  function Blank(q: Request): Result { Result(q.net, q.from, q.to, false, [], 0, 0) }

  /** Requests on these two nets can share a key only if the nets are one, or one is the other with a bar and more after
      it. */
  lemma KeyTellsNet(x: string, y: string)
    ensures (exists a: Request, b: Request :: a.net == x && b.net == y && Key(a) == Key(b)) <==> x == y || x + "|" <= y || y + "|" <= x
  {
    if a: Request, b: Request :| a.net == x && b.net == y && Key(a) == Key(b) {
      if |x| <= |y| { BarAfter(a, b); } else { BarAfter(b, a); }
    }
    if x == y {
      assert Key(Request(x, "", "")) == Key(Request(y, "", ""));
    } else if x + "|" <= y {
      var a, b := Colliding(x, y);
    } else if y + "|" <= x {
      var a, b := Colliding(y, x);
      assert Key(b) == Key(a);
    }
  }

  lemma BarAfter(a: Request, b: Request)
    requires Key(a) == Key(b) && |a.net| <= |b.net|
    ensures a.net == b.net || a.net + "|" <= b.net
  {
    var x, y := Key(a), Key(b);
    assert x[|a.net|] == '|' && y[|b.net|] == '|';
    assert x[..|a.net|] == a.net && y[..|b.net|] == b.net;
    if |a.net| < |b.net| { assert b.net[..|a.net| + 1] == y[..|a.net| + 1] == a.net + "|"; }
  }

  /** Two requests that share a key though their nets differ. */
  lemma Colliding(x: string, y: string) returns (a: Request, b: Request)
    requires x + "|" <= y
    ensures a.net == x && b.net == y && Key(a) == Key(b)
  {
    var rest := y[|x| + 1..];
    a, b := Request(x, rest, "|"), Request(y, "", "");
    assert y == x + "|" + rest;
    assert Key(a) == x + "|" + rest + "|" + "|" == Key(b);
  }

  /** Requests that share a key are on one net. */
  predicate KeysTellNets(qs: seq<Request>) { forall a, b :: a in qs && b in qs && Key(a) == Key(b) ==> a.net == b.net }

  /** One round: its queue, how often routes had been taken up for each request, the world before and after each turn,
      whether each turn's search was halted, what was taken up, how often then, and the world before and after that is
      counted. */
  datatype Round = Round(queue: seq<Request>, ripped: map<string, nat>, worlds: seq<World>, halts: seq<bool>, again: seq<Request>,
                         ripped': map<string, nat>, room: World, after: World)

  class Router {
    const b: Board.Board
    const chk: C.Checker
    const g: Grid.CellGrid
    const st: Lay.Style
    const viaCost: real
    const bendCost: real
    const root2: real
    const maxRipUp: nat
    const reach: (string, string) -> seq<string>
    const copperLayers: seq<string>
    const pads: map<string, seq<Pad>>
    const dist: (Pt, Pt) -> real
    const stop: (nat, nat) -> bool
    var exemptions: map<string, set<string>>
    var results: map<string, Result>
    var count: nat
    var looks: nat
    /** The routed results' keys, in the order they were laid. */
    ghost var order: seq<string>

    function Fixed(): Fixed
      reads this, chk
    {
      Routes.Fixed(chk.rules, reach, copperLayers, pads, st, g.e, viaCost, bendCost, root2, stop)
    }

    ghost predicate Valid()
      reads this, b, chk, g, g.owner
    {
      && b.Valid() && chk.Valid() && g.Valid() && st.pitch > 0.0 && viaCost >= 0.0 && bendCost >= 0.0
      && root2 * root2 == 2.0 && 1.0 < root2 < 2.0 && g.e.layers == |st.layers| && g.e.nx > 0 && g.e.ny > 0
      && ExemptionsRight(Fixed(), b.tracks, exemptions)
    }

    /** The board, the clearance index and the results agree. */
    ghost predicate InStep(s: Start)
      reads this, b, chk, g, g.owner
    {
      Valid() && Fresh(Fixed(), s) && Sound(Fixed(), s, b.tracks, C.Live(chk.obs), order, results, count)
    }

    /** What the board, the index and the grid have in them. */
    ghost function Seen(): View
      reads b, chk
    {
      View(b.tracks, chk.obs)
    }

    ghost function Now(): World
      reads this, b, chk, g, g.owner
    {
      World(Seen(), g.owner[..], order, results, count, looks)
    }

    constructor (b: Board.Board, chk: C.Checker, g: Grid.CellGrid, st: Lay.Style, viaCost: real, bendCost: real, root2: real,
                 maxRipUp: nat, reach: (string, string) -> seq<string>, copperLayers: seq<string>, pads: map<string, seq<Pad>>,
                 dist: (Pt, Pt) -> real, stop: (nat, nat) -> bool)
      requires b.Valid() && chk.Valid() && g.Valid() && st.pitch > 0.0 && viaCost >= 0.0 && bendCost >= 0.0
      requires root2 * root2 == 2.0 && 1.0 < root2 < 2.0 && g.e.layers == |st.layers| && g.e.nx > 0 && g.e.ny > 0
      ensures Valid() && this.b == b && this.chk == chk && this.g == g && this.st == st && this.pads == pads
      ensures this.reach == reach && this.copperLayers == copperLayers && this.maxRipUp == maxRipUp
      ensures count == 0
    {
      this.b, this.chk, this.g, this.st, this.viaCost, this.bendCost, this.root2 := b, chk, g, st, viaCost, bendCost, root2;
      this.maxRipUp, this.reach, this.copperLayers, this.pads, this.dist := maxRipUp, reach, copperLayers, pads, dist;
      this.stop := stop;
      exemptions, results, count, looks, order := map[], map[], 0, 0, [];
    }

    /** What a route on a net may touch, built once and kept until the net's copper changes. */
    method Exempt(net: string) returns (out: set<string>)
      requires Valid()
      modifies this`exemptions
      ensures Valid() && out == ExemptOf(Fixed(), b.tracks, net)
    {
      hide Board.Board.Valid, C.Checker.Valid;
      if net in exemptions { return exemptions[net]; }
      out := {};
      var ts := b.TracksOfNet(net);
      for k := 0 to |ts|
        invariant out == set t | t in ts[..k] && t.wire.uuid != "" :: t.wire.uuid
      {
        assert ts[..k + 1] == ts[..k] + [ts[k]];
        if ts[k].wire.uuid != "" { out := out + {ts[k].wire.uuid}; }
      }
      assert ts[..|ts|] == ts;
      ghost var own := out;
      var ps := PadsOf(pads, net);
      for k := 0 to |ps|
        invariant out == own + set p | p in ps[..k] :: p.id
      {
        assert ps[..k + 1] == ps[..k] + [ps[k]];
        out := out + {ps[k].id};
      }
      assert ps[..|ps|] == ps;
      exemptions := exemptions[net := out];
    }

    // ---- proposing ----

    method PadNamed(net: string, id: string) returns (p: Option<Pad>)
      ensures p == PadOf(pads, net, id)
    {
      var ps := PadsOf(pads, net);
      for k := 0 to |ps|
        invariant PadOf(pads, net, id) == FirstPad(ps[k..], id)
      {
        if ps[k].id == id { return Some(ps[k]); }
      }
      p := None;
    }

    /** Where a search may begin or end: beside a pad, wherever the net may go. */
    method AccessCells(p: Pad, net: string) returns (out: seq<Grid.Cell>)
      requires Valid()
      ensures LeadsFrom(Fixed(), g.owner[..], p, net, out)
    {
      hide Rounded, Clamp;
      out := [];
      for li := 0 to |st.layers|
        invariant forall c :: c in out <==>
          0 <= c.layer < li && OnLayer(copperLayers, p, st.layers[c.layer]) && g.UsableBy(c, net)
          && Beside(c, Nearest(st, g.e, p.centre, c.layer), 2, -1)
      {
        if OnLayer(copperLayers, p, st.layers[li]) {
          var at := Nearest(st, g.e, p.centre, li);
          ghost var before := out;
          for dy := -1 to 2
            invariant forall c :: c in out <==> c in before || (c.layer == li && g.UsableBy(c, net) && Beside(c, at, dy, -1))
          {
            for dx := -1 to 2
              invariant forall c :: c in out <==> c in before || (c.layer == li && g.UsableBy(c, net) && Beside(c, at, dy, dx))
            {
              var n := Grid.Cell(at.x + dx, at.y + dy, li);
              if g.UsableBy(n, net) { out := out + [n]; }
            }
          }
        }
      }
    }

    /** The cheapest path the grid allows just now, a via wherever one clears everything. */
    method Propose(net: string, starts: seq<Grid.Cell>, goals: seq<Grid.Cell>)
      returns (path: Option<seq<Grid.Cell>>, halted: bool)
      requires Valid()
      modifies this`exemptions, this`looks
      ensures Valid() && looks == old(looks) + 1 && (halted ==> Told(Fixed(), looks - 1))
      ensures path.Some? ==> Cheapest(Fixed(), Seen(), g.owner[..], net, starts, goals, path.value) && !halted
      ensures path.None? && !halted ==> NoWay(Fixed(), Seen(), g.owner[..], net, starts, goals)
    {
      hide AStar.IsBest, ExemptionsRight, AStar.IsRoute, Board.Board.Valid, C.Checker.Valid, ViaFits, ExemptOf;
      var exempt := Exempt(net);
      var rules, obs, layers, style := chk.rules, chk.obs, copperLayers, st;
      var viaOK := (c: Grid.Cell) => ViaFits(rules, obs, layers, net, exempt, C.RoundPoly([style.At(c)], style.viaD / 2.0));
      var space := RouteSpace.Space(g.e, g.owner[..], net, viaOK, st.pitch, viaCost, bendCost, root2);
      assert IsSpace(Fixed(), Seen(), g.owner[..], net, space);
      var found;
      var look, ask := looks, stop;
      looks := looks + 1;
      found, halted := AStar.Search(g, starts, goals, net, space, (pops: nat) => ask(look, pops));
      if found.None? { return None, halted; }
      path, halted := Some(found.value), false;
    }

    // ---- checking ----

    /** Checks new copper as the real thing. Returns the first piece the rules refuse, or a negative number when none
        is. */
    method Reject(ws: seq<Board.Wire>, net: string) returns (bad: int)
      requires Valid() && forall w :: w in ws ==> w.net == net
      modifies this`exemptions
      ensures Valid() && bad < |ws|
      ensures bad < 0 ==> forall w :: w in ws ==> Clean(Fixed(), b.tracks, chk.obs, w)
      ensures bad >= 0 ==> !Clean(Fixed(), b.tracks, chk.obs, ws[bad]) && forall i :: 0 <= i < bad ==> Clean(Fixed(), b.tracks, chk.obs, ws[i])
    {
      hide ExemptOf, C.IsClear, ExemptionsRight, ShapesOf, CheckLayers, Board.Board.Valid, C.Checker.Valid;
      var exempt := Exempt(net);
      for i := 0 to |ws|
        invariant Valid()
        invariant forall k :: 0 <= k < i ==> Clean(Fixed(), b.tracks, chk.obs, ws[k])
      {
        var clean := AcceptOne(ws[i], exempt);
        if !clean { return i; }
      }
      bad := -1;
    }

    /** Checks one piece of new copper on each layer it has to clear. */
    method AcceptOne(w: Board.Wire, exempt: set<string>) returns (clean: bool)
      requires chk.Valid()
      ensures clean <==> forall l :: l in CheckLayers(Fixed(), w) ==> C.IsClear(chk.rules, Offer(w, l, exempt), chk.obs)
    {
      hide C.IsClear, ShapesOf;
      var layers := CheckLayers(Fixed(), w);
      for n := 0 to |layers|
        invariant forall l :: l in layers[..n] ==> C.IsClear(chk.rules, Offer(w, l, exempt), chk.obs)
      {
        assert layers[..n + 1] == layers[..n] + [layers[n]];
        var vs := chk.Check(Offer(w, layers[n], exempt));
        if vs != [] { return false; }
      }
      assert layers[..|layers|] == layers;
      clean := true;
    }

    /** Makes the cells about a refused piece unusable: those near the path, two cells either side of where the piece
        must be. */
    method BlockAround(path: seq<Grid.Cell>, at: nat)
      requires Valid() && path != []
      modifies g.owner
      ensures Valid()
      ensures Blocked(g.e, old(g.owner[..]), g.owner[..], Span(path, at))
    {
      hide ExemptionsRight, Board.Board.Valid, C.Checker.Valid, Blocked, RefusedAt, NearCell, NearPath, Grid.OwnerIn;
      var i := RefusedAt(|path|, at);
      ghost var lo := Clamp(i - 2, 0, |path|);
      ghost var own := g.owner[..];
      BlockedNone(g.e, own);
      assert path[lo..lo] == [];
      for d := -2 to 3
        invariant Valid() && Blocked(g.e, own, g.owner[..], path[lo..Clamp(i + d, lo, |path|)])
      {
        var j := i + d;
        if 0 <= j < |path| {
          ghost var was := g.owner[..];
          BlockAbout(path[j]);
          BlockedMore(g.e, own, was, g.owner[..], path[lo..j], path[j]);
          assert path[lo..j + 1] == path[lo..j] + [path[j]];
        }
      }
    }

    method BlockAbout(c: Grid.Cell)
      requires g.Valid()
      modifies g.owner
      ensures g.Valid() && forall k :: g.e.Inside(k) ==>
        Grid.OwnerIn(g.e, g.owner[..], k) == if NearCell(k, c) then Grid.BLOCKED else old(Grid.OwnerIn(g.e, g.owner[..], k))
    {
      ghost var own := g.owner[..];
      for dy := -1 to 2
        invariant g.Valid() && forall k :: g.e.Inside(k) ==>
          Grid.OwnerIn(g.e, g.owner[..], k) == if Visited(k, c, dy, -1) then Grid.BLOCKED else Grid.OwnerIn(g.e, own, k)
      {
        for dx := -1 to 2
          invariant g.Valid() && forall k :: g.e.Inside(k) ==>
            Grid.OwnerIn(g.e, g.owner[..], k) == if Visited(k, c, dy, dx) then Grid.BLOCKED else Grid.OwnerIn(g.e, own, k)
        {
          g.Block(Grid.Cell(c.x + dx, c.y + dy, c.layer));
        }
      }
    }

    // ---- laying and taking up ----

    /** Puts accepted copper on the board, takes its space out of the grid, and indexes it. */
    method Commit(path: seq<Grid.Cell>, ws: seq<Board.Wire>, k: string, ghost q: Request, ghost s: Start)
      requires InStep(s) && k in results && !results[k].routed
      requires Lay.NewOn(st, ws, results[k].net, count) && forall w :: w in ws ==> Clean(Fixed(), b.tracks, chk.obs, w)
      requires Key(q) == k && q.net == results[k].net && MadeFor(Fixed(), q, ws)
      modifies this`results, this`count, this`order, this`exemptions, b, chk, g.owner
      ensures InStep(s) && chk.rules == old(chk.rules) && count == old(count) + |ws|
      ensures OnlyLaid(Fixed(), k, old(Now()), Now()) && results[k].routed && WiresOf(results[k].tracks) == ws
      ensures results[k].attempts == old(results)[k].attempts
      ensures Claimed(g.e, old(g.owner[..]), g.owner[..], path, results[k].net)
    {
      hide Lay.NewOn, Clean, Sound, Fresh, ExemptionsRight, ObstaclesOf, Obstacles, C.Live, Board.Board.Valid, C.Checker.Valid, MadeFor, Claimed;
      var net := results[k].net;
      var tracks := AddAll(ws);
      assert C.Live(chk.obs) == old(C.Live(chk.obs)) && Fixed() == old(Fixed());
      ClaimPath(path, net);
      IndexAll(Fixed(), tracks);
      TracksOnNet(st, ws, tracks, net, count);
      OthersExempt(Fixed(), old(b.tracks), tracks, net, exemptions, old(exemptions));
      var r := results[k].(tracks := tracks, routed := true);
      assert WiresOf(tracks) == ws;
      assert Made(Fixed(), k, r);
      CommittedIsSound(Fixed(), s, old(b.tracks), old(C.Live(chk.obs)), old(chk.obs), order, results, st, ws, tracks, count, k, r);
      results := results[k := r];
      order := order + [k];
      count := count + |ws|;
      exemptions := exemptions - {net};
    }

    method AddAll(ws: seq<Board.Wire>) returns (tracks: seq<Board.Track>)
      requires b.Valid()
      modifies b
      ensures b.Valid() && b.tracks == old(b.tracks) + tracks
      ensures |tracks| == |ws| && forall i :: 0 <= i < |ws| ==> tracks[i].wire == ws[i]
    {
      hide Board.InStep;
      tracks := [];
      for i := 0 to |ws|
        invariant b.Valid() && b.tracks == old(b.tracks) + tracks
        invariant |tracks| == i && forall n :: 0 <= n < i ==> tracks[n].wire == ws[n]
      {
        var t := b.AddTrack(ws[i]);
        tracks := tracks + [t];
      }
    }

    method IndexAll(f: Fixed, tracks: seq<Board.Track>)
      requires chk.Valid()
      modifies chk
      ensures chk.Valid() && chk.rules == old(chk.rules)
      ensures C.Live(chk.obs) == old(C.Live(chk.obs)) + Obstacles(f, tracks)
    {
      hide *;
      ObstaclesOfNone(f);
      assert tracks[..0] == [];
      for i := 0 to |tracks|
        invariant chk.Valid() && chk.rules == old(chk.rules)
        invariant C.Live(chk.obs) == old(C.Live(chk.obs)) + Obstacles(f, tracks[..i])
      {
        var t := CopperOf(f, tracks[i].wire);
        CopperShapes(f, tracks[i].wire);
        chk.AddTrack(t);
        OneMoreTrack(f, tracks, i);
      }
      assert tracks[..|tracks|] == tracks;
    }

    /** Claims the path's cells, and those beside them: a track is wider than a line. */
    method ClaimPath(path: seq<Grid.Cell>, net: string)
      requires g.Valid()
      modifies g.owner
      ensures g.Valid() && Claimed(g.e, old(g.owner[..]), g.owner[..], path, net)
    {
      ghost var own := g.owner[..];
      for i := 0 to |path|
        invariant g.Valid() && forall k :: g.e.Inside(k) ==>
          Grid.OwnerIn(g.e, g.owner[..], k) == AfterClaim(Grid.OwnerIn(g.e, own, k), NearPath(k, path[..i]), net)
      {
        ghost var was := g.owner[..];
        ClaimAbout(path[i], net);
        assert path[..i + 1] == path[..i] + [path[i]];
      }
      assert path[..|path|] == path;
    }

    method ClaimAbout(c: Grid.Cell, net: string)
      requires g.Valid()
      modifies g.owner
      ensures g.Valid() && forall k :: g.e.Inside(k) ==>
        Grid.OwnerIn(g.e, g.owner[..], k) == AfterClaim(old(Grid.OwnerIn(g.e, g.owner[..], k)), NearCell(k, c), net)
    {
      ghost var own := g.owner[..];
      g.Claim(c, net);
      for dy := -1 to 2
        invariant g.Valid() && forall k :: g.e.Inside(k) ==>
          Grid.OwnerIn(g.e, g.owner[..], k) == AfterClaim(Grid.OwnerIn(g.e, own, k), k == c || Visited(k, c, dy, -1), net)
      {
        for dx := -1 to 2
          invariant g.Valid() && forall k :: g.e.Inside(k) ==>
            Grid.OwnerIn(g.e, g.owner[..], k) == AfterClaim(Grid.OwnerIn(g.e, own, k), k == c || Visited(k, c, dy, dx), net)
        {
          g.Claim(Grid.Cell(c.x + dx, c.y + dy, c.layer), net);
        }
      }
    }

    /** Undoes a commit: the copper is gone from the board and the index, and the net's cells are free. */
    method RipUp(k: string, ghost s: Start)
      requires InStep(s) && k in results
      modifies this`results, this`count, this`order, this`exemptions, b, chk, g.owner
      ensures InStep(s) && chk.rules == old(chk.rules) && count == old(count)
      ensures OnlyChanged(old(results), results, k) && !results[k].routed
      ensures order == Dropped(old(order), {k})
      ensures old(results)[k].routed ==> Released(g.e, old(g.owner[..]), g.owner[..], old(results)[k].net)
      ensures !old(results)[k].routed ==> results == old(results) && b.tracks == old(b.tracks) && g.owner[..] == old(g.owner[..])
    {
      hide Sound, Fresh, ExemptionsRight, Board.Board.Valid, C.Checker.Valid, Board.Kept, C.Live, Retired;
      var res := results[k];
      NotRouted(Fixed(), s, b.tracks, C.Live(chk.obs), order, results, count, k);
      if !res.routed { return; }
      TracksDistinct();
      ghost var left := RippedUp(Fixed(), s, b.tracks, C.Live(chk.obs), order, results, count, k);
      TakeOff(res);
      results, order := results[k := Unlaid(res)], left;
    }

    /** Takes a result's copper off the index, the board and the grid. */
    method TakeOff(res: Result)
      requires Valid() && forall t :: t in res.tracks ==> t.wire.uuid != "" && t.wire.net == res.net
      modifies this`exemptions, b, chk, g.owner
      ensures Valid() && chk.rules == old(chk.rules)
      ensures b.tracks == Board.Kept(old(b.tracks), Board.Among(res.tracks))
      ensures C.Live(chk.obs) == Retired(old(C.Live(chk.obs)), res.tracks, |res.tracks|)
      ensures Released(g.e, old(g.owner[..]), g.owner[..], res.net)
    {
      hide ExemptionsRight, Board.Board.Valid, C.Checker.Valid, Board.Kept, C.Live, Retired;
      RetireAll(res.tracks);
      exemptions := exemptions - {res.net};
      var _ := b.RemoveTracks(res.tracks);
      OthersExemptWithout(Fixed(), old(b.tracks), res.tracks, res.net, old(exemptions));
      g.Release(res.net);
    }

    lemma TracksDistinct()
      requires b.Valid()
      ensures Board.Distinct(b.tracks)
    {
    }

    method RetireAll(tracks: seq<Board.Track>)
      requires chk.Valid() && forall t :: t in tracks ==> t.wire.uuid != ""
      modifies chk
      ensures chk.Valid() && chk.rules == old(chk.rules)
      ensures C.Live(chk.obs) == Retired(old(C.Live(chk.obs)), tracks, |tracks|)
    {
      hide C.Live;
      for i := 0 to |tracks|
        invariant chk.Valid() && chk.rules == old(chk.rules)
        invariant C.Live(chk.obs) == Retired(old(C.Live(chk.obs)), tracks, i)
      {
        chk.RemoveRef(tracks[i].wire.uuid);
      }
    }

    // ---- the run ----

    /** Makes one connection if it can: propose, check, feed the failure back, and try again. */
    method One(q: Request, ghost s: Start) returns (halted: bool)
      requires InStep(s) && Key(q) in results && results[Key(q)].net == q.net
      modifies this, b, chk, g.owner
      ensures InStep(s) && chk.rules == old(chk.rules) && OneStep(Fixed(), q, old(Now()), Now(), halted)
      ensures OnlyChanged(old(results), results, Key(q))
      ensures results[Key(q)].routed && !old(results)[Key(q)].routed ==> MadeFor(Fixed(), q, WiresOf(results[Key(q)].tracks))
    {
      hide Sound, Fresh, ExemptionsRight, Board.Board.Valid, C.Checker.Valid, C.Live, Key, PadOf, Nearest, OnLayer, LeadsFrom, IsLog, Refused,
           NoWay, Accepts, MadeFor, GridAfter;
      var k := Key(q);
      halted := false;
      ghost var w, f, log: seq<Try> := Now(), Fixed(), [];
      var from := PadNamed(q.net, q.from);
      var to := PadNamed(q.net, q.to);
      if results[k].routed { return; }
      NothingLaid(f, s, k, w);
      if from.None? || to.None? {
        assert Ended(f, q, w, Now(), [], [], log, false);
        return;
      }
      var starts := AccessCells(from.value, q.net);
      var goals := AccessCells(to.value, q.net);
      ghost var a, c := from.value, to.value;
      NoneRefused(f, w.view, q.net, a, c, starts, goals, w.own);
      if starts == [] || goals == [] {
        assert Ended(f, q, w, Now(), starts, goals, log, false);
        return;
      }
      for try := 0 to MAX_TRIES
        invariant InStep(s) && Fixed() == f && OnlyLaid(f, k, w, Now()) && !results[k].routed && !halted
        invariant |log| == try && results[k].attempts == w.results[k].attempts + try && looks == w.looks + try
        invariant IsLog(f, w.view, q.net, a, c, starts, goals, w.own, log) && g.owner[..] == GridAfter(w.own, log)
      {
        ghost var was := Now();
        var done;
        ghost var t;
        done, halted, t := TryOnce(q, from.value, to.value, starts, goals, w.own, s);
        OnlyLaidTwice(f, k, w, was, Now());
        if done {
          assert Ended(f, q, w, Now(), starts, goals, log, halted);
          return;
        }
        LogMore(f, w.view, q.net, a, c, starts, goals, w.own, log, t);
        log := log + [t];
      }
      assert Ended(f, q, w, Now(), starts, goals, log, false);
    }

    /** One path, tried: laid if the rules accept its copper, otherwise blocked so that the next is another. Without
        one, there is none. */
    method TryOnce(q: Request, from: Pad, to: Pad, starts: seq<Grid.Cell>, goals: seq<Grid.Cell>,
                   ghost own: seq<string>, ghost s: Start)
      returns (done: bool, halted: bool, ghost t: Try)
      requires InStep(s) && Key(q) in results && results[Key(q)].net == q.net && !results[Key(q)].routed
      requires PadOf(pads, q.net, q.from) == Some(from) && PadOf(pads, q.net, q.to) == Some(to)
      requires LeadsFrom(Fixed(), own, from, q.net, starts) && LeadsFrom(Fixed(), own, to, q.net, goals)
      modifies this`results, this`count, this`order, this`exemptions, this`looks, b, chk, g.owner
      ensures InStep(s) && Fixed() == old(Fixed()) && OnlyLaid(Fixed(), Key(q), old(Now()), Now())
      ensures results[Key(q)].attempts == old(results)[Key(q)].attempts + 1 && looks == old(looks) + 1
      ensures (halted ==> Told(Fixed(), looks - 1))
      ensures !done ==>
        !results[Key(q)].routed && !halted && t.after == g.owner[..]
        && Refused(Fixed(), Seen(), q.net, from, to, starts, goals, old(g.owner[..]), t)
      ensures done && results[Key(q)].routed ==>
        !halted && MadeFor(Fixed(), q, WiresOf(results[Key(q)].tracks))
        && Accepts(Fixed(), old(Seen()), q.net, from, to, starts, goals, old(g.owner[..]), g.owner[..], WiresOf(results[Key(q)].tracks))
      ensures done && !results[Key(q)].routed ==>
        g.owner[..] == old(g.owner[..]) && (halted || NoWay(Fixed(), Seen(), g.owner[..], q.net, starts, goals))
    {
      hide Sound, Fresh, ExemptionsRight, Board.Board.Valid, C.Checker.Valid, C.Live, Lay.Walkable, Lay.IsCopper, Key, PadOf, LeadsFrom,
           ViaFits, Clean, ExemptOf, Lay.NewOn, Cheapest, NoWay, Claimed, Blocked, Span, RefusedAt, C.IsClear, AtPad, MadeFor;
      var k := Key(q);
      ghost var f, v, was := Fixed(), Seen(), g.owner[..];
      t := Try([], 0, [], 0, []);
      NothingLaid(f, s, k, Now());
      ghost var w := Now();
      Note(k, results[k].(attempts := results[k].attempts + 1), 0, s);
      var path;
      path, halted := Propose(q.net, starts, goals);
      if path.None? { return true, halted, t; }
      CheapestIs(f, v, was, q.net, starts, goals, path.value);
      var n := count;
      var ws, cuts, body := Lay.Copper(st, path.value, q.net, from.centre, to.centre, n);
      PathJoins(f, q, own, from, to, starts, goals, path.value, n, cuts, body, ws);
      WiresOnNet(st, ws, q.net, n);
      var bad := Reject(ws, q.net);
      done := bad < 0;
      if done {
        ghost var mid := Now();
        Commit(path.value, ws, k, q, s);
        assert LaidOn(f, v, q.net, from, to, starts, goals, was, g.owner[..], ws, path.value, n);
      } else {
        Note(k, results[k], |ws|, s);
        BlockAround(path.value, bad);
        t := Try(path.value, n, ws, bad, g.owner[..]);
      }
    }

    /** Records something about a result that does not matter to the board, and that more names were used. */
    method Note(k: string, r: Result, used: nat, ghost s: Start)
      requires InStep(s) && k in results
      requires r.net == results[k].net && r.routed == results[k].routed && r.tracks == results[k].tracks
      modifies this`results, this`count
      ensures InStep(s) && results == old(results)[k := r] && count == old(count) + used
    {
      hide Sound, Fresh, ExemptionsRight, Board.Board.Valid, C.Checker.Valid, C.Live;
      NotingKeeps(Fixed(), s, b.tracks, C.Live(chk.obs), order, results, count, count + used, k, r);
      results := results[k := r];
      count := count + used;
    }

    /** The box between two pads, and a little more. */
    function Corridor(a: Pad, c: Pad): Rect {
      var x, y := a.centre, c.centre;
      Rect(Min(x.x, y.x), Min(x.y, y.y), Max(x.x, y.x), Max(x.y, y.y)).Grow(st.pitch * 2.0)
    }

    /** The routed requests whose copper ends between a failed request's pads. */
    predicate IsInTheWay(q: Request, v: Request, rs: map<string, Result>)
      requires Key(v) in rs
    {
      var a, c := PadOf(pads, q.net, q.from), PadOf(pads, q.net, q.to);
      && Key(v) != Key(q) && rs[Key(v)].routed
      && a.Some? && c.Some? && EndsIn(Corridor(a.value, c.value), rs[Key(v)].tracks)
    }

    /** What is in the way of a request: another one's route, where a segment or via of it has an end within two
        pitches, on each axis, of some place between the pads. */
    lemma WhatIsInTheWay(q: Request, v: Request, rs: map<string, Result>)
      requires Key(v) in rs && st.pitch > 0.0
      ensures
        var a, c := PadOf(pads, q.net, q.from), PadOf(pads, q.net, q.to);
        IsInTheWay(q, v, rs) <==>
        Key(v) != Key(q) && rs[Key(v)].routed && a.Some? && c.Some?
        && EndsNear(a.value.centre, c.value.centre, 2.0 * st.pitch, rs[Key(v)].tracks)
    {
      hide Key, PadOf;
      var a, c, ts := PadOf(pads, q.net, q.from), PadOf(pads, q.net, q.to), rs[Key(v)].tracks;
      if a.Some? && c.Some? {
        var x, y, d := a.value.centre, c.value.centre, 2.0 * st.pitch;
        if EndsIn(Corridor(a.value, c.value), ts) {
          var i, p := EndInside(Corridor(a.value, c.value), ts);
          GrownSpan(x, y, d, p);
          var z :| Between(x, y, z) && CloseTo(p, z, d);
          assert EndsNearAt(x, y, d, ts, i, p, z);
        }
        if EndsNear(x, y, d, ts) {
          var i, p, z :| EndsNearAt(x, y, d, ts, i, p, z);
          GrownSpan(x, y, d, p);
          assert Corridor(a.value, c.value).Contains(p);
        }
      }
    }

    ghost predicate NothingInTheWay(q: Request, all: seq<Request>, rs: map<string, Result>)
      requires forall v :: v in all ==> Key(v) in rs
    {
      forall v :: v in all ==> !IsInTheWay(q, v, rs)
    }

    method InTheWay(q: Request, all: seq<Request>) returns (out: seq<Request>)
      requires forall v :: v in all ==> Key(v) in results
      ensures forall v :: v in out <==> v in all && IsInTheWay(q, v, results)
    {
      hide EndsIn, Key, PadOf, Corridor;
      out := [];
      var from := PadNamed(q.net, q.from);
      var to := PadNamed(q.net, q.to);
      if from.None? || to.None? { return; }
      for i := 0 to |all|
        invariant forall v :: v in out <==> v in all[..i] && IsInTheWay(q, v, results)
      {
        var v := all[i];
        assert all[..i + 1] == all[..i] + [v];
        if Key(v) != Key(q) && results[Key(v)].routed && EndsIn(Corridor(from.value, to.value), results[Key(v)].tracks) { out := out + [v]; }
      }
      assert all[..|all|] == all;
    }

    /** The distance to be covered, as a guess at the difficulty; nothing, if a pad is missing. */
    function Straightness(q: Request): real
    {
      var a, c := PadOf(pads, q.net, q.from), PadOf(pads, q.net, q.to);
      if a.None? || c.None? then 0.0 else dist(a.value.centre, c.value.centre)
    }

    predicate HardestFirst(qs: seq<Request>) {
      forall i, j :: 0 <= i < j < |qs| ==> Straightness(qs[i]) >= Straightness(qs[j])
    }

    /** The square of how far apart two named pads are; nothing, if either is missing. */
    ghost function ApartSquared(q: Request): real {
      var a, c := PadOf(pads, q.net, q.from), PadOf(pads, q.net, q.to);
      match (a, c)
      case (Some(x), Some(y)) => E.Sqr(y.centre.x - x.centre.x) + E.Sqr(y.centre.y - x.centre.y)
      case _ => 0.0
    }

    /** Hardest first is farthest apart first, with requests of missing pads last. */
    lemma HardestIsFarthest(qs: seq<Request>)
      requires E.Euclidean(dist)
      ensures HardestFirst(qs) <==> forall i, j :: 0 <= i < j < |qs| ==> ApartSquared(qs[i]) >= ApartSquared(qs[j])
    {
      forall q ensures Straightness(q) >= 0.0 && ApartSquared(q) == E.Sqr(Straightness(q)) { StraightnessIs(q); }
      hide Straightness, ApartSquared;
      forall i, j | 0 <= i < j < |qs|
        ensures Straightness(qs[i]) >= Straightness(qs[j]) <==> ApartSquared(qs[i]) >= ApartSquared(qs[j])
      {
        SquaresOrder(Straightness(qs[i]), Straightness(qs[j]));
      }
    }

    lemma StraightnessIs(q: Request)
      requires E.Euclidean(dist)
      ensures Straightness(q) >= 0.0 && ApartSquared(q) == E.Sqr(Straightness(q))
    {
      hide PadOf;
      var a, c := PadOf(pads, q.net, q.from), PadOf(pads, q.net, q.to);
      if a.Some? && c.Some? {
        var x, y := a.value.centre, c.value.centre;
        assert E.Sqr(dist(x, y)) == E.Sq(y.Sub(x));
      }
    }

    /** Enters every request as not yet made. */
    method Enter(reqs: seq<Request>, ghost s: Start)
      requires Valid() && Fresh(Fixed(), s) && s == Start(b.tracks, C.Live(chk.obs), count)
      requires KeysTellNets(reqs)
      modifies this`results, this`order
      ensures InStep(s) && Known(reqs, results) && results.Keys == (set q | q in reqs :: Key(q))
      ensures AllBlank(reqs, results) && Now() == old(Now()).(results := results, order := [])
      ensures Fixed() == old(Fixed())
    {
      hide Fresh, Sound, ExemptionsRight, Board.Board.Valid, C.Checker.Valid, C.Live, Known;
      var blank := Blanks(reqs);
      BlankIsSound(Fixed(), s, reqs, blank);
      results, order := blank, [];
    }

    /** Tries every request in the queue, unless stopped. */
    method TryAll(queue: seq<Request>, ghost s: Start)
      returns (failed: seq<Request>, stopped: bool, ghost worlds: seq<World>, ghost halts: seq<bool>)
      requires InStep(s) && Known(queue, results)
      modifies this, b, chk, g.owner
      ensures InStep(s) && Fixed() == old(Fixed()) && SameRequests(old(results), results) && Known(failed, results)
      ensures Turns(Fixed(), s, queue, worlds, halts) && |worlds| == |halts| + 1 && worlds[0] == old(Now())
      ensures worlds[|halts|] == Now()
      ensures failed == Failures(queue, worlds, |halts|)
      ensures (if stopped then |halts| < |queue| && stop(looks, 0) else |halts| == |queue|)
      ensures StayRouted(old(results), results) && StillToMake(failed, old(results))
      ensures forall q :: q in failed ==> q in queue
      ensures !stopped ==> Settled(queue, |queue|, failed, results)
    {
      hide Sound, Fresh, ExemptionsRight, Board.Board.Valid, C.Checker.Valid, C.Live, Key, OnlyChanged, SameRequests, Settled, Known,
           TryStep, Turns, Failures, WorldOk;
      failed, stopped, worlds, halts := [], false, [Now()], [];
      NoneSettled(queue, results);
      NoTurnsYet(Fixed(), s, queue, Now());
      ghost var f := Fixed();
      for i := 0 to |queue|
        invariant InStep(s) && Fixed() == f && SameRequests(old(results), results)
        invariant Known(queue, results) && (forall q :: q in failed ==> q in queue)
        invariant Settled(queue, i, failed, results) && StayRouted(old(results), results)
        invariant StillToMake(failed, old(results))
        invariant |halts| == i && |worlds| == i + 1 && Turns(f, s, queue, worlds, halts) && worlds[0] == old(Now())
        invariant worlds[i] == Now()
        invariant failed == Failures(queue, worlds, i)
      {
        stopped := stop(looks, 0);
        if stopped { break; }
        ghost var halted;
        failed, halted := TryNext(queue, i, failed, old(results), s);
        InStepNow(s);
        TurnsMore(f, s, queue, worlds, halts, Now(), halted);
        FailuresMore(queue, worlds, Now(), i);
        worlds, halts := worlds + [Now()], halts + [halted];
      }
      KnownStays(queue, failed, old(results), results);
    }

    lemma InStepNow(s: Start)
      requires InStep(s)
      ensures WorldOk(Fixed(), s, Now())
    {
    }

    method TryNext(queue: seq<Request>, i: nat, failed: seq<Request>, ghost first: map<string, Result>, ghost s: Start)
      returns (failed': seq<Request>, ghost halted: bool)
      requires i < |queue| && InStep(s) && Known(queue, results) && SameRequests(first, results)
      requires Settled(queue, i, failed, results)
      requires !stop(looks, 0)
      requires StayRouted(first, results) && StillToMake(failed, first) && forall q :: q in failed ==> q in queue
      modifies this, b, chk, g.owner
      ensures InStep(s) && Fixed() == old(Fixed()) && SameRequests(first, results) && Known(queue, results)
      ensures StayRouted(first, results) && StillToMake(failed', first)
      ensures Settled(queue, i + 1, failed', results) && forall q :: q in failed' ==> q in queue
      ensures TryStep(Fixed(), queue[i], old(Now()), Now(), halted)
      ensures failed' == failed + if IsMade(queue[i], Now()) then [] else [queue[i]]
    {
      hide Sound, Fresh, ExemptionsRight, Board.Board.Valid, C.Checker.Valid, C.Live, Key, OnlyChanged, SameRequests, Settled, Known,
           OneStep, MadeFor;
      ghost var w := Now();
      var q := queue[i];
      KnownAt(queue, i, results);
      looks := looks + 1;
      var told := One(q, s);
      halted := told;
      assert TryStep(Fixed(), q, w, Now(), halted);
      StepKeepsMade(Fixed(), q, w, Now(), halted);
      failed' := if results[Key(q)].routed then failed else failed + [q];
      OneMoreSettled(queue, i, failed, failed', first, old(results), results);
      OneMoreKnown(queue, i, old(results), results);
    }

    /** How often routes have been taken up for a request once the first `n` failures have been seen to. */
    ghost function Rips(ripped: map<string, nat>, failed: seq<Request>, n: nat, k: string): nat
      requires n <= |failed|
    {
      if n == 0 then Times(ripped, k)
      else
        var had := Rips(ripped, failed, n - 1, k);
        if Key(failed[n - 1]) == k && had < maxRipUp then had + 1 else had
    }

    /** Whether the `i`-th failure has not had its share of rip-ups. */
    ghost predicate Entitled(ripped: map<string, nat>, failed: seq<Request>, i: nat)
      requires i < |failed|
    {
      Rips(ripped, failed, i, Key(failed[i])) < maxRipUp
    }

    /** The first `n` failures have been seen to: nothing is in the way of any that was entitled, and only what was in
        the way of one has been taken up. */
    ghost predicate RoomMade(failed: seq<Request>, n: nat, all: seq<Request>, ripped: map<string, nat>,
                             ripped': map<string, nat>,
                             before: map<string, Result>, after: map<string, Result>, again: seq<Request>)
      requires n <= |failed| && Known(all, before)
    {
      && OnlyTaken(before, after, again) && (forall k :: Times(ripped', k) == Rips(ripped, failed, n, k))
      && (forall i :: 0 <= i < n && Entitled(ripped, failed, i) ==> NothingInTheWay(failed[i], all, after))
      && (forall v :: v in again ==> v in all && TakenFor(failed, n, ripped, before, v))
      && (forall u, v :: u in again && v in all && Key(u) == Key(v) ==> v in again)
    }

    ghost predicate TakenFor(failed: seq<Request>, n: nat, ripped: map<string, nat>, before: map<string, Result>,
                             v: Request)
      requires n <= |failed| && Key(v) in before
    {
      exists i :: 0 <= i < n && Entitled(ripped, failed, i) && IsInTheWay(failed[i], v, before)
    }

    lemma NoRoomYet(failed: seq<Request>, all: seq<Request>, ripped: map<string, nat>, before: map<string, Result>)
      requires Known(all, before)
      ensures RoomMade(failed, 0, all, ripped, ripped, before, before, [])
    {
      NoneTaken(before);
    }

    /** It is the routes that are in the way, whichever request of its key they are listed for. */
    lemma SameWay(q: Request, u: Request, v: Request, rs: map<string, Result>)
      requires Key(u) == Key(v) && Key(u) in rs && IsInTheWay(q, u, rs)
      ensures IsInTheWay(q, v, rs)
    {
      hide Key, PadOf, Corridor, EndsIn;
    }

    /** Taking more up puts nothing in the way. */
    lemma StillOutOfTheWay(q: Request, v: Request, before: map<string, Result>, after: map<string, Result>,
                           vs: seq<Request>)
      requires OnlyTaken(before, after, vs) && Key(v) in before && IsInTheWay(q, v, after)
      ensures IsInTheWay(q, v, before) && v !in vs
    {
      hide Key, PadOf, Corridor, EndsIn;
      assert forall u :: u in vs ==> Key(u) != Key(v);
    }

    lemma AllOutOfTheWay(q: Request, all: seq<Request>, before: map<string, Result>, after: map<string, Result>,
                         vs: seq<Request>)
      requires (forall v :: v in all ==> Key(v) in before) && OnlyTaken(before, after, vs)
      requires forall v :: v in all && IsInTheWay(q, v, before) ==> v in vs
      ensures (forall v :: v in all ==> Key(v) in after) && NothingInTheWay(q, all, after)
    {
      hide Key, PadOf, Corridor, EndsIn, IsInTheWay, OnlyTaken;
      KnownKeys(all, before, after, vs);
      forall v | v in all ensures !IsInTheWay(q, v, after) {
        if IsInTheWay(q, v, after) { StillOutOfTheWay(q, v, before, after, vs); assert false; }
      }
    }

    lemma MoreRoom(failed: seq<Request>, n: nat, all: seq<Request>, ripped: map<string, nat>, had: map<string, nat>,
                   before: map<string, Result>, now: map<string, Result>, after: map<string, Result>,
                   again: seq<Request>, vs: seq<Request>)
      requires n < |failed| && Known(all, before) && RoomMade(failed, n, all, ripped, had, before, now, again)
      requires Entitled(ripped, failed, n) && OnlyTaken(now, after, vs)
      requires forall v :: v in vs <==> v in all && IsInTheWay(failed[n], v, now)
      ensures
        var k := Key(failed[n]);
        RoomMade(failed, n + 1, all, ripped, had[k := Times(had, k) + 1], before, after, again + vs)
    {
      hide Key, PadOf, Corridor, EndsIn, IsInTheWay, OnlyTaken;
      KnownKeys(all, before, now, again);
      KnownKeys(all, now, after, vs);
      TakenTogether(before, now, after, again, vs);
      forall i | 0 <= i < n + 1 && Entitled(ripped, failed, i) ensures NothingInTheWay(failed[i], all, after) {
        assert i < n ==> NothingInTheWay(failed[i], all, now);
        AllOutOfTheWay(failed[i], all, now, after, vs);
      }
      forall u, v | u in again + vs && v in all && Key(u) == Key(v) ensures v in again + vs {
        if u in vs { SameWay(failed[n], u, v, now); }
      }
      forall v | v in again + vs ensures v in all && TakenFor(failed, n + 1, ripped, before, v) {
        if v in again {
          assert TakenFor(failed, n, ripped, before, v);
        } else {
          StillOutOfTheWay(failed[n], v, before, now, again);
        }
      }
      assert OnlyTaken(before, after, again + vs);
      ghost var had' := had[Key(failed[n]) := Times(had, Key(failed[n])) + 1];
      assert forall k :: Times(had', k) == Rips(ripped, failed, n + 1, k);
    }

    lemma NoMoreRoom(failed: seq<Request>, n: nat, all: seq<Request>, ripped: map<string, nat>, had: map<string, nat>,
                     before: map<string, Result>, now: map<string, Result>, again: seq<Request>)
      requires n < |failed| && Known(all, before) && RoomMade(failed, n, all, ripped, had, before, now, again)
      requires !Entitled(ripped, failed, n)
      ensures RoomMade(failed, n + 1, all, ripped, had, before, now, again)
    {
      hide Key, PadOf, Corridor, EndsIn, IsInTheWay, OnlyTaken;
      forall v | v in again ensures TakenFor(failed, n + 1, ripped, before, v) {
        assert TakenFor(failed, n, ripped, before, v);
      }
    }

    /** The routes of these requests are taken up: their cells are free, they are no longer among those laid, and no
        name was used. */
    ghost predicate TakenUp(w: World, w': World, vs: seq<Request>) {
      && AllReleased(g.e, w.own, w'.own, NetsOf(vs, w.results)) && w'.order == Dropped(w.order, KeysOf(vs))
      && w'.count == w.count && w'.looks == w.looks
    }

    /** Takes up what is in the way of each failure that has not had its share of rip-ups. */
    method MakeRoom(failed: seq<Request>, all: seq<Request>, ripped: map<string, nat>, ghost s: Start)
      returns (again: seq<Request>, ripped': map<string, nat>)
      requires InStep(s) && Known(all, results)
      modifies this`results, this`count, this`order, this`exemptions, b, chk, g.owner
      ensures InStep(s) && Fixed() == old(Fixed()) && SameRequests(old(results), results)
      ensures RoomMade(failed, |failed|, all, ripped, ripped', old(results), results, again)
      ensures TakenUp(old(Now()), Now(), again)
    {
      hide Sound, Fresh, ExemptionsRight, Board.Board.Valid, C.Checker.Valid, C.Live, Key, OnlyChanged, OnlyTaken, RoomMade, Rips, PadOf, TakenUp;
      again, ripped' := [], ripped;
      ghost var f, w := Fixed(), Now();
      NoRoomYet(failed, all, ripped, results);
      NoneTakenUp(w);
      for i := 0 to |failed|
        invariant InStep(s) && Fixed() == f && SameRequests(old(results), results)
        invariant RoomMade(failed, i, all, ripped, ripped', w.results, results, again) && TakenUp(w, Now(), again)
      {
        var q := failed[i];
        var times := Times(ripped', Key(q));
        RipsSoFar(failed, i, all, ripped, ripped', old(results), results, again);
        if times < maxRipUp {
          KnownStays(all, [], old(results), results);
          var vs := InTheWay(q, all);
          ghost var mid := Now();
          RipUpAll(vs, s);
          MoreRoom(failed, i, all, ripped, ripped', old(results), mid.results, results, again, vs);
          RoomTakes(failed, i, all, ripped, ripped', w.results, mid.results, again);
          MoreTakenUp(w, mid, Now(), again, vs);
          ripped' := ripped'[Key(q) := times + 1];
          again := again + vs;
        } else {
          NoMoreRoom(failed, i, all, ripped, ripped', old(results), results, again);
        }
      }
    }

    lemma RoomTakes(failed: seq<Request>, n: nat, all: seq<Request>, ripped: map<string, nat>, had: map<string, nat>,
                    before: map<string, Result>, now: map<string, Result>, again: seq<Request>)
      requires n <= |failed| && Known(all, before) && RoomMade(failed, n, all, ripped, had, before, now, again)
      ensures OnlyTaken(before, now, again)
    {
    }

    lemma NoneTakenUp(w: World)
      requires |w.own| == g.e.Size()
      ensures TakenUp(w, w, [])
    {
      hide Grid.OwnerIn;
      assert NetsOf([], w.results) == {} && KeysOf([]) == {};
      NoneReleased(g.e, w.own);
      DroppedNone(w.order, {});
    }

    lemma MoreTakenUp(w: World, mid: World, w': World, vs: seq<Request>, more: seq<Request>)
      requires TakenUp(w, mid, vs) && TakenUp(mid, w', more) && OnlyTaken(w.results, mid.results, vs)
      ensures TakenUp(w, w', vs + more)
    {
      hide AllReleased, Key, Dropped;
      NetsTogether(w.results, mid.results, vs, more);
      ReleasedToo(g.e, w.own, mid.own, w'.own, NetsOf(vs, w.results), NetsOf(more, mid.results));
      DroppedTwice(w.order, KeysOf(vs), KeysOf(more));
      assert KeysOf(vs + more) == KeysOf(vs) + KeysOf(more);
    }

    lemma RipsSoFar(failed: seq<Request>, n: nat, all: seq<Request>, ripped: map<string, nat>, had: map<string, nat>,
                    before: map<string, Result>, now: map<string, Result>, again: seq<Request>)
      requires n < |failed| && Known(all, before) && RoomMade(failed, n, all, ripped, had, before, now, again)
      ensures Entitled(ripped, failed, n) <==> Times(had, Key(failed[n])) < maxRipUp
    {
    }

    method RipUpAll(vs: seq<Request>, ghost s: Start)
      requires InStep(s) && forall v :: v in vs ==> Key(v) in results
      modifies this`results, this`count, this`order, this`exemptions, b, chk, g.owner
      ensures InStep(s) && Fixed() == old(Fixed()) && SameRequests(old(results), results)
      ensures OnlyTaken(old(results), results, vs) && TakenUp(old(Now()), Now(), vs)
    {
      hide Sound, Fresh, ExemptionsRight, Board.Board.Valid, C.Checker.Valid, C.Live, Key, OnlyTaken, Released, TakenUp, Dropped;
      ghost var f, w := Fixed(), Now();
      NoneTaken(results);
      NoneTakenUp(w);
      assert vs[..0] == [];
      for i := 0 to |vs|
        invariant InStep(s) && Fixed() == f && SameRequests(old(results), results)
        invariant OnlyTaken(w.results, results, vs[..i]) && TakenUp(w, Now(), vs[..i])
      {
        ghost var mid := Now();
        RipUp(Key(vs[i]), s);
        OneMoreTaken(w.results, mid.results, results, vs[..i], vs[i]);
        OneTakenUp(mid, Now(), vs[i]);
        MoreTakenUp(w, mid, Now(), vs[..i], [vs[i]]);
        assert vs[..i + 1] == vs[..i] + [vs[i]];
      }
      assert vs[..|vs|] == vs;
    }

    lemma OneTakenUp(w: World, w': World, v: Request)
      requires Key(v) in w.results && w'.count == w.count && w'.looks == w.looks
      requires w'.order == Dropped(w.order, {Key(v)})
      requires |w.own| == g.e.Size()
      requires if w.results[Key(v)].routed then Released(g.e, w.own, w'.own, w.results[Key(v)].net) else w'.own == w.own
      ensures TakenUp(w, w', [v])
    {
      hide Released, AllReleased, Dropped, Key;
      assert KeysOf([v]) == {Key(v)};
      if w.results[Key(v)].routed {
        assert NetsOf([v], w.results) == {w.results[Key(v)].net};
        OneReleased(g.e, w.own, w'.own, w.results[Key(v)].net);
      } else {
        assert NetsOf([v], w.results) == {};
        NoneReleased(g.e, w.own);
      }
    }

    /** What `n` routes taken up add to a request's count, for the first `i` failures. */
    ghost function Counted(failed: seq<Request>, i: nat, n: nat, k: string): nat
      requires i <= |failed|
    {
      if i == 0 then 0 else Counted(failed, i - 1, n, k) + if Key(failed[i - 1]) == k then n else 0
    }

    ghost predicate RipUpsCounted(failed: seq<Request>, i: nat, n: nat, before: map<string, Result>,
                                  after: map<string, Result>)
      requires i <= |failed|
    {
      && before.Keys == after.Keys
      && forall k :: k in before ==> after[k] == before[k].(rippedUp := before[k].rippedUp + Counted(failed, i, n, k))
    }

    /** Counts the routes taken up for each failure, and changes nothing else. */
    method CountRipUps(failed: seq<Request>, n: nat, ghost s: Start)
      requires InStep(s) && Known(failed, results)
      modifies this`results, this`count
      ensures InStep(s) && RipUpsCounted(failed, |failed|, n, old(results), results)
      ensures Now() == old(Now()).(results := results)
    {
      hide Sound, Fresh, ExemptionsRight, Board.Board.Valid, C.Checker.Valid, C.Live, Key, RipUpsCounted;
      NoneCounted(failed, n, results);
      for i := 0 to |failed|
        invariant InStep(s) && count == old(count) && RipUpsCounted(failed, i, n, old(results), results)
      {
        var k := Key(failed[i]);
        OneMoreCounted(failed, i, n, old(results), results);
        Note(k, results[k].(rippedUp := results[k].rippedUp + n), 0, s);
      }
    }

    lemma NoneCounted(failed: seq<Request>, n: nat, rs: map<string, Result>)
      ensures RipUpsCounted(failed, 0, n, rs, rs)
    {
    }

    lemma OneMoreCounted(failed: seq<Request>, i: nat, n: nat, before: map<string, Result>, now: map<string, Result>)
      requires i < |failed| && Known(failed, before) && RipUpsCounted(failed, i, n, before, now)
      ensures var k := Key(failed[i]);
        k in now && RipUpsCounted(failed, i + 1, n, before, now[k := now[k].(rippedUp := now[k].rippedUp + n)])
    {
      hide Key;
      assert failed[i] in failed;
    }

    lemma CountingOnly(failed: seq<Request>, n: nat, all: seq<Request>, queue: seq<Request>,
                       before: map<string, Result>, after: map<string, Result>)
      requires RipUpsCounted(failed, |failed|, n, before, after)
      ensures SameRequests(before, after) && (Pending(all, queue, before) ==> Pending(all, queue, after))
    {
    }

    /** Every request not made is waiting in the queue. */
    ghost predicate Pending(all: seq<Request>, queue: seq<Request>, rs: map<string, Result>) {
      forall q :: q in all && Key(q) in rs && !rs[Key(q)].routed ==> q in queue
    }

    /** Made, or with nothing in its way that could be taken up, or with its share of rip-ups used. */
    ghost predicate NoMoreToDo(q: Request, all: seq<Request>, ripped: map<string, nat>, rs: map<string, Result>) {
      && Key(q) in rs && (forall v :: v in all ==> Key(v) in rs)
      && (rs[Key(q)].routed || NothingInTheWay(q, all, rs) || Times(ripped, Key(q)) >= maxRipUp)
    }

    /** There is no more to do for any request, and those not made have just failed. */
    ghost predicate NothingLeft(all: seq<Request>, failed: seq<Request>, ripped: map<string, nat>,
                                rs: map<string, Result>) {
      forall q :: q in all ==> NoMoreToDo(q, all, ripped, rs) && (rs[Key(q)].routed || q in failed)
    }

    lemma {:induction false} RipsGrow(ripped: map<string, nat>, failed: seq<Request>, i: nat, n: nat, k: string)
      requires i <= n <= |failed|
      ensures Rips(ripped, failed, i, k) <= Rips(ripped, failed, n, k)
    {
      if i < n { RipsGrow(ripped, failed, i, n - 1, k); }
    }

    lemma NothingToTakeUp(queue: seq<Request>, failed: seq<Request>, all: seq<Request>, ripped: map<string, nat>,
                          ripped': map<string, nat>,
                          first: map<string, Result>, before: map<string, Result>, after: map<string, Result>)
      requires Known(all, before) && (forall q :: q in queue ==> q in all)
      requires Pending(all, queue, first) && SameRequests(first, before) && StayRouted(first, before)
      requires Settled(queue, |queue|, failed, before)
      requires RoomMade(failed, |failed|, all, ripped, ripped', before, after, [])
      ensures NothingLeft(all, failed, ripped', after)
    {
      hide Key, PadOf, Corridor, EndsIn, IsInTheWay;
      KnownKeys(all, before, after, []);
      forall q | q in all ensures NoMoreToDo(q, all, ripped', after) && (after[Key(q)].routed || q in failed) {
        assert after[Key(q)] == before[Key(q)];
        if !after[Key(q)].routed {
          assert q in queue;
          assert q in failed;
          var i :| 0 <= i < |failed| && failed[i] == q;
          if !Entitled(ripped, failed, i) { RipsGrow(ripped, failed, i, |failed|, Key(q)); }
        }
      }
    }

    lemma StillPending(queue: seq<Request>, failed: seq<Request>, all: seq<Request>, ripped: map<string, nat>,
                       ripped': map<string, nat>,
                       again: seq<Request>, first: map<string, Result>, before: map<string, Result>, after: map<string, Result>)
      requires Pending(all, queue, first) && SameRequests(first, before) && StayRouted(first, before)
      requires Known(all, before)
      requires Settled(queue, |queue|, failed, before)
      requires RoomMade(failed, |failed|, all, ripped, ripped', before, after, again)
      ensures Pending(all, failed + again, after)
    {
      hide Key, PadOf, Corridor, EndsIn, IsInTheWay, Rips, TakenFor;
      forall q | q in all && Key(q) in after && !after[Key(q)].routed ensures q in failed + again {
        if v: Request :| v in again && Key(v) == Key(q) {
          assert q in again;
        } else {
          assert after[Key(q)] == before[Key(q)];
          assert q in queue;
          assert q in failed;
        }
      }
    }

    // ---- a run, round by round ----

    /** A round in full: each in the queue has had its turn; what was in the way of the failures has been taken up, and
        counted. */
    ghost predicate RoundOk(f: Fixed, s: Start, all: seq<Request>, r: Round) {
      && Turns(f, s, r.queue, r.worlds, r.halts) && |r.halts| == |r.queue|
      && var failed, done := Failures(r.queue, r.worlds, |r.queue|), r.worlds[|r.queue|];
      if failed == [] then r.again == [] && r.ripped' == r.ripped && r.room == r.after == done
      else
        && Known(all, done.results) && RoomMade(failed, |failed|, all, r.ripped, r.ripped', done.results, r.room.results, r.again)
        && TakenUp(done, r.room, r.again) && WorldOk(f, s, r.room) && WorldOk(f, s, r.after)
        && if r.again == [] then r.after == r.room
           else r.after == r.room.(results := r.after.results) && RipUpsCounted(failed, |failed|, |r.again|, r.room.results, r.after.results)
    }

    /** A round that is not the last is followed by one that tries its failures, and then what it took up. */
    ghost predicate Next(r: Round, r': Round) {
      && |r.queue| < |r.worlds| && r'.queue == Failures(r.queue, r.worlds, |r.queue|) + r.again && r'.ripped == r.ripped'
      && r'.worlds != [] && r'.worlds[0] == r.after
    }

    /** Rounds in full, one after another, with something taken up in each but perhaps the last. */
    ghost predicate Rounds(f: Fixed, s: Start, begin: World, all: seq<Request>, log: seq<Round>) {
      && (forall i :: 0 <= i < |log| ==> RoundOk(f, s, all, log[i])) && Chained(begin, all, log)
    }

    ghost predicate Chained(begin: World, all: seq<Request>, log: seq<Round>) {
      && (log != [] ==> log[0].queue == all && log[0].ripped == map[] && log[0].worlds != [] && log[0].worlds[0] == begin)
      && forall i :: 0 <= i < |log| - 1 ==> log[i].again != [] && Next(log[i], log[i + 1])
    }

    /** A whole run: rounds until nothing is left to take up or there have been as many as there may be, or until
        stopped in one. */
    ghost predicate IsRun(f: Fixed, s: Start, begin: World, all: seq<Request>, log: seq<Round>, now: World,
                          stopped: bool) {
      && |log| <= maxRipUp + 1
      && if log == [] then all == [] && now == begin && !stopped
         else
           var n := |log| - 1;
           var last := log[n];
           && Rounds(f, s, begin, all, log[..n]) && Chained(begin, all, log)
           && if stopped then
                && Turns(f, s, last.queue, last.worlds, last.halts) && |last.halts| < |last.queue| && now == last.worlds[|last.halts|]
                && f.stop(now.looks, 0)
              else RoundOk(f, s, all, last) && now == last.after && (last.again == [] || |log| == maxRipUp + 1)
    }

    /** What the next round starts with. */
    ghost predicate Comes(begin: World, all: seq<Request>, log: seq<Round>, queue: seq<Request>,
                          ripped: map<string, nat>, now: World) {
      if log == [] then queue == all && ripped == map[] && now == begin
      else
        var r := log[|log| - 1];
        && |r.queue| < |r.worlds| && r.again != [] && queue == Failures(r.queue, r.worlds, |r.queue|) + r.again
        && ripped == r.ripped' && now == r.after
    }

    lemma ChainMore(begin: World, all: seq<Request>, log: seq<Round>, queue: seq<Request>, ripped: map<string, nat>,
                    now: World, r: Round)
      requires Chained(begin, all, log) && Comes(begin, all, log, queue, ripped, now)
      requires r.queue == queue && r.ripped == ripped && r.worlds != [] && r.worlds[0] == now
      ensures Chained(begin, all, log + [r])
    {
      hide Failures;
    }

    lemma RoundsMore(f: Fixed, s: Start, begin: World, all: seq<Request>, log: seq<Round>, r: Round)
      requires Rounds(f, s, begin, all, log) && RoundOk(f, s, all, r) && Chained(begin, all, log + [r])
      ensures Rounds(f, s, begin, all, log + [r])
    {
      hide RoundOk, Chained;
    }

    lemma RunEnds(f: Fixed, s: Start, begin: World, all: seq<Request>, log: seq<Round>, r: Round, now: World,
                  stopped: bool)
      requires |log| <= maxRipUp && Rounds(f, s, begin, all, log) && Chained(begin, all, log + [r])
      requires if stopped then Turns(f, s, r.queue, r.worlds, r.halts) && |r.halts| < |r.queue| && now == r.worlds[|r.halts|] && f.stop(now.looks, 0)
               else RoundOk(f, s, all, r) && now == r.after && (r.again == [] || |log| == maxRipUp)
      ensures IsRun(f, s, begin, all, log + [r], now, stopped)
    {
      hide RoundOk, Chained, Turns;
      assert (log + [r])[..|log|] == log;
    }

    /** In the last round a request had its turn and was not made, and there is nothing more to do for it. */
    ghost predicate GivenUp(f: Fixed, q: Request, all: seq<Request>, r: Round, now: World) {
      NoMoreToDo(q, all, r.ripped', now.results) && exists i :: TriedInVain(f, r, i, q)
    }

    ghost predicate TriedInVain(f: Fixed, r: Round, i: int, q: Request) {
      && 0 <= i < |r.queue| && |r.queue| == |r.halts| == |r.worlds| - 1 && r.queue[i] == q
      && !IsMade(q, r.worlds[i + 1]) && TryStep(f, q, r.worlds[i], r.worlds[i + 1], r.halts[i])
    }

    lemma {:induction false} FailedTurn(queue: seq<Request>, worlds: seq<World>, n: nat, q: Request) returns (i: nat)
      requires n <= |queue| && n < |worlds| && q in Failures(queue, worlds, n)
      ensures i < n && queue[i] == q && !IsMade(q, worlds[i + 1])
    {
      hide IsMade;
      if q in Failures(queue, worlds, n - 1) { i := FailedTurn(queue, worlds, n - 1, q); } else { i := n - 1; }
    }

    /** Main result on what is left unmade: each request is made or given up for a reason. */
    lemma AllGivenUp(f: Fixed, s: Start, all: seq<Request>, r: Round, now: World)
      requires RoundOk(f, s, all, r) && now == r.after
      requires NothingLeft(all, Failures(r.queue, r.worlds, |r.queue|), r.ripped', now.results)
      ensures forall q :: q in all ==> IsMade(q, now) || GivenUp(f, q, all, r, now)
    {
      hide TryStep, RoomMade, TakenUp, RipUpsCounted, WorldOk, Known, NothingInTheWay;
      forall q | q in all && !IsMade(q, now) ensures GivenUp(f, q, all, r, now) {
        var i := FailedTurn(r.queue, r.worlds, |r.queue|, q);
        assert TriedInVain(f, r, i, q);
      }
    }

    /** Makes what connections it can, beginning with the hardest, in rounds in which failures get room made for them.
        However it goes, and wherever it is stopped, the board holds what it began with and exactly the copper of the
        routed results, the clearance index matches it, what was laid was accepted and joins its pads, and it has come
        about by turns and rounds as described. */
    method Route(reqs: seq<Request>)
      returns (out: seq<Result>, stopped: bool, ghost s: Start, ghost begin: World, ghost all: seq<Request>, ghost log: seq<Round>)
      requires Valid() && KeysTellNets(reqs)
      requires Fresh(Fixed(), Start(b.tracks, C.Live(chk.obs), count))
      modifies this, b, chk, g.owner
      ensures s == Start(old(b.tracks), C.Live(old(chk.obs)), old(count)) && Fixed() == old(Fixed())
      ensures InStep(s)
      ensures results.Keys == (set q | q in reqs :: Key(q))
      ensures multiset(all) == multiset(reqs) && HardestFirst(all) && out == Outcomes(all, results)
      ensures begin == World(old(Seen()), old(g.owner[..]), [], begin.results, old(count), old(looks))
      ensures AllBlank(all, begin.results)
      ensures IsRun(Fixed(), s, begin, all, log, Now(), stopped)
      ensures forall k :: k in results && results[k].routed ==> Made(Fixed(), k, results[k])
      ensures !stopped && |log| <= maxRipUp ==>
        forall q :: q in reqs ==> IsMade(q, Now()) || (log != [] && GivenUp(Fixed(), q, all, log[|log| - 1], Now()))
    {
      hide Sound, Fresh, ExemptionsRight, Board.Board.Valid, C.Checker.Valid, C.Live, Key, Outcomes, Straightness, Pending, IsMade, GivenUp,
           RoundOk, Chained, Rounds, Comes, IsRun, AllBlank, Turns, Made;
      s := Start(b.tracks, C.Live(chk.obs), count);
      var sorted := Sort(reqs, q => -Straightness(q));
      all := sorted;
      assert HardestFirst(all);
      Enter(sorted, s);
      begin, log, stopped := Now(), [], false;
      ghost var first, f := results, Fixed();
      var queue, ripped := sorted, map[];
      NoRounds(f, s, begin, all);
      AllPending(all, results);
      for round := 0 to maxRipUp + 1
        invariant InStep(s) && Fixed() == f && SameRequests(first, results) && !stopped && |log| == round
        invariant (forall q :: q in queue ==> q in all) && Pending(all, queue, results)
        invariant Rounds(f, s, begin, all, log) && Chained(begin, all, log)
        invariant Comes(begin, all, log, queue, ripped, Now())
        invariant round == maxRipUp + 1 ==> IsRun(f, s, begin, all, log, Now(), false)
      {
        NotEmpty(begin, all, log, queue, ripped, Now());
        if queue == [] { break; }
        var ended;
        ghost var r;
        ghost var had := Now();
        queue, ripped, ended, stopped, r := OneRound(queue, sorted, ripped, first, s);
        ChainMore(begin, all, log, r.queue, r.ripped, had, r);
        if ended {
          if !stopped { AllGivenUp(f, s, all, r, Now()); }
          RunEnds(f, s, begin, all, log, r, Now(), stopped);
          log := log + [r];
          break;
        }
        RoundsMore(f, s, begin, all, log, r);
        if round == maxRipUp { RunEnds(f, s, begin, all, log, r, Now(), stopped); }
        NextComes(begin, all, log, r, queue, Now());
        log := log + [r];
      }
      AllMade(s);
      out := Outcomes(sorted, results);
    }

    lemma NoRounds(f: Fixed, s: Start, begin: World, all: seq<Request>)
      ensures Rounds(f, s, begin, all, []) && Chained(begin, all, []) && Comes(begin, all, [], all, map[], begin)
      ensures all == [] ==> IsRun(f, s, begin, all, [], begin, false)
    {
    }

    lemma AllPending(all: seq<Request>, rs: map<string, Result>)
      ensures Pending(all, all, rs)
    {
    }

    lemma NotEmpty(begin: World, all: seq<Request>, log: seq<Round>, queue: seq<Request>, ripped: map<string, nat>,
                   now: World)
      requires Comes(begin, all, log, queue, ripped, now)
      ensures queue == [] ==> log == [] && all == [] && now == begin
    {
      hide Failures;
    }

    lemma NextComes(begin: World, all: seq<Request>, log: seq<Round>, r: Round, queue: seq<Request>, now: World)
      requires |r.queue| < |r.worlds| && r.again != [] && queue == Failures(r.queue, r.worlds, |r.queue|) + r.again
      requires now == r.after
      ensures Comes(begin, all, log + [r], queue, r.ripped', now)
    {
      hide Failures;
    }

    lemma AllMade(s: Start)
      requires InStep(s)
      ensures forall k :: k in results && results[k].routed ==> Made(Fixed(), k, results[k])
    {
      hide Made, AllAccepted, Named, Obstacles, Laid, Fresh;
      assert forall k :: k in results ==> ResultOk(Fixed(), k, results[k]);
    }

    /** One round: everybody in the queue has a turn, and those who failed get room, if some can be made. */
    method OneRound(queue: seq<Request>, all: seq<Request>, ripped: map<string, nat>, ghost first: map<string, Result>,
                    ghost s: Start)
      returns (next: seq<Request>, ripped': map<string, nat>, over: bool, stopped: bool, ghost r: Round)
      requires InStep(s) && Known(all, first) && SameRequests(first, results) && forall q :: q in queue ==> q in all
      requires Pending(all, queue, results)
      modifies this, b, chk, g.owner
      ensures InStep(s) && Fixed() == old(Fixed()) && SameRequests(first, results)
      ensures r.queue == queue && r.ripped == ripped && r.worlds != [] && r.worlds[0] == old(Now())
      ensures stopped ==>
        over && Turns(Fixed(), s, queue, r.worlds, r.halts) && |r.halts| < |queue| && Now() == r.worlds[|r.halts|] && stop(looks, 0)
      ensures !stopped ==>
        RoundOk(Fixed(), s, all, r) && Now() == r.after && ripped' == r.ripped' && (over <==> r.again == []) && |r.queue| < |r.worlds|
      ensures !over ==>
        next == Failures(r.queue, r.worlds, |r.queue|) + r.again && Pending(all, next, results) && forall q :: q in next ==> q in all
      ensures over && !stopped ==> NothingLeft(all, Failures(r.queue, r.worlds, |r.queue|), ripped', results)
    {
      hide Sound, Fresh, ExemptionsRight, Board.Board.Valid, C.Checker.Valid, C.Live, Key, OnlyTaken, StayRouted, StillToMake, RoomMade,
           Pending, NothingLeft, RipUpsCounted, TakenUp, Turns, Failures, WorldOk, Settled, SameRequests, Known, RoundOk;
      ghost var f := Fixed();
      next, ripped', over := [], ripped, true;
      KnownStays(all, queue, first, results);
      ghost var was, worlds, halts := results, [], [];
      var failed;
      failed, stopped, worlds, halts := TryAll(queue, s);
      ghost var laid := Now();
      r := Round(queue, ripped, worlds, halts, [], ripped, laid, laid);
      RequestsStay(first, was, results);
      if stopped { return; }
      KnownStays(all, failed, first, results);
      NoneFailed(queue, failed, all, ripped, was, laid.results);
      if failed == [] {
        RoundWithout(f, s, all, r);
        return;
      }
      var again;
      again, ripped' := MakeRoom(failed, all, ripped, s);
      ghost var made := Now();
      RequestsStay(first, laid.results, results);
      InStepNow(s);
      r := Round(queue, ripped, worlds, halts, again, ripped', made, made);
      if again == [] {
        NothingToTakeUp(queue, failed, all, ripped, ripped', was, laid.results, made.results);
        RoundWith(f, s, all, r);
        return;
      }
      KnownStays(all, failed, first, results);
      RoomFacts(failed, all, ripped, ripped', laid.results, made.results, again);
      StillPending(queue, failed, all, ripped, ripped', again, was, laid.results, made.results);
      CountRipUps(failed, |again|, s);
      InStepNow(s);
      CountingOnly(failed, |again|, all, failed + again, made.results, results);
      RequestsStay(first, made.results, results);
      r := Round(queue, ripped, worlds, halts, again, ripped', made, Now());
      RoundWith(f, s, all, r);
      next, over := failed + again, false;
    }

    lemma RoundWithout(f: Fixed, s: Start, all: seq<Request>, r: Round)
      requires Turns(f, s, r.queue, r.worlds, r.halts) && |r.halts| == |r.queue| && |r.worlds| == |r.halts| + 1
      requires Failures(r.queue, r.worlds, |r.queue|) == [] && r.again == [] && r.ripped' == r.ripped
      requires r.room == r.after == r.worlds[|r.queue|]
      ensures RoundOk(f, s, all, r)
    {
      hide Turns, Failures;
    }

    lemma RoundWith(f: Fixed, s: Start, all: seq<Request>, r: Round)
      requires Turns(f, s, r.queue, r.worlds, r.halts) && |r.halts| == |r.queue| && |r.worlds| == |r.halts| + 1
      requires
        var failed, done := Failures(r.queue, r.worlds, |r.queue|), r.worlds[|r.queue|];
        failed != [] && Known(all, done.results)
        && RoomMade(failed, |failed|, all, r.ripped, r.ripped', done.results, r.room.results, r.again)
        && TakenUp(done, r.room, r.again) && WorldOk(f, s, r.room) && WorldOk(f, s, r.after)
        && if r.again == [] then r.after == r.room
           else r.after == r.room.(results := r.after.results) && RipUpsCounted(failed, |failed|, |r.again|, r.room.results, r.after.results)
      ensures RoundOk(f, s, all, r)
    {
      hide Turns, Failures, RoomMade, TakenUp, RipUpsCounted, WorldOk, Known;
    }

    lemma RoomFacts(failed: seq<Request>, all: seq<Request>, ripped: map<string, nat>, ripped': map<string, nat>,
                    before: map<string, Result>, after: map<string, Result>, again: seq<Request>)
      requires Known(all, before) && RoomMade(failed, |failed|, all, ripped, ripped', before, after, again)
      ensures forall v :: v in again ==> v in all
    {
    }

    lemma NoneFailed(queue: seq<Request>, failed: seq<Request>, all: seq<Request>, ripped: map<string, nat>,
                     first: map<string, Result>,
                     rs: map<string, Result>)
      requires Known(all, rs) && Settled(queue, |queue|, failed, rs) && Pending(all, queue, first)
      requires SameRequests(first, rs) && StayRouted(first, rs)
      ensures failed == [] ==> NothingLeft(all, failed, ripped, rs)
    {
      hide Key, PadOf, Corridor, EndsIn, IsInTheWay;
    }
  }

  lemma RequestsStay(a: map<string, Result>, b: map<string, Result>, c: map<string, Result>)
    requires SameRequests(a, b) && SameRequests(b, c)
    ensures SameRequests(a, c)
  {
  }

  lemma NoneRefused(f: Fixed, v: View, net: string, a: Pad, b: Pad, starts: seq<Grid.Cell>, goals: seq<Grid.Cell>,
                    own: seq<string>)
    ensures IsLog(f, v, net, a, b, starts, goals, own, []) && GridAfter(own, []) == own
  {
  }

  lemma NothingLaid(f: Fixed, s: Start, k: string, w: World)
    requires WorldOk(f, s, w) && k in w.results && !w.results[k].routed
    ensures OnlyLaid(f, k, w, w) && w.results[k].tracks == []
  {
    hide C.Live, Obstacles, Laid, AllAccepted, Named;
    assert w.results == w.results[k := w.results[k]];
  }

  lemma NoTurnsYet(f: Fixed, s: Start, queue: seq<Request>, w: World)
    requires WorldOk(f, s, w)
    ensures Turns(f, s, queue, [w], []) && Failures(queue, [w], 0) == []
  {
  }

  lemma FailuresMore(queue: seq<Request>, worlds: seq<World>, w: World, i: nat)
    requires i < |queue| && |worlds| == i + 1
    ensures Failures(queue, worlds + [w], i + 1) == Failures(queue, worlds, i) + if IsMade(queue[i], w) then [] else [queue[i]]
  {
    FailuresSame(queue, worlds, w, i);
  }

  lemma StepKeepsMade(f: Fixed, q: Request, w: World, w': World, halted: bool)
    requires TryStep(f, q, w, w', halted) && Key(q) in w.results
    ensures Key(q) in w'.results && (w.results[Key(q)].routed ==> w'.results == w.results)
  {
    hide IsLog, LeadsFrom, Accepts, NoWay, C.Live, Obstacles;
    if !w.results[Key(q)].routed {
      var starts, goals, log :| Ended(f, q, w.(looks := w.looks + 1), w', starts, goals, log, halted);
    }
  }

  /** What is tried twice on one request is still all that is different. */
  lemma OnlyLaidTwice(f: Fixed, k: string, w: World, mid: World, w': World)
    requires OnlyLaid(f, k, w, mid) && !mid.results[k].routed && OnlyLaid(f, k, mid, w')
    ensures OnlyLaid(f, k, w, w')
  {
    hide C.Live, Obstacles;
  }

  /** The copper of a path from a cell at one pad to a cell at the other joins them. */
  lemma PathJoins(f: Fixed, q: Request, own: seq<string>, a: Pad, b: Pad, starts: seq<Grid.Cell>,
                  goals: seq<Grid.Cell>, path: seq<Grid.Cell>,
                  n: nat, cuts: seq<nat>, body: seq<Board.Wire>, ws: seq<Board.Wire>)
    requires f.Ok() && PadOf(f.pads, q.net, q.from) == Some(a) && PadOf(f.pads, q.net, q.to) == Some(b)
    requires LeadsFrom(f, own, a, q.net, starts) && LeadsFrom(f, own, b, q.net, goals)
    requires path != [] && Lay.Walkable(f.st, path) && path[0] in starts && path[|path| - 1] in goals
    requires Lay.IsCopper(f.st, path, q.net, a.centre, b.centre, n, cuts, body, ws)
    ensures MadeFor(f, q, ws) && CopperOfPath(f, q.net, a, b, path, n, ws)
  {
    hide AtPad, Lay.IsCopper, Lay.Walkable, PadOf, Grid.Usable;
    CopperJoins(f, q.net, a, b, path, n, ws);
  }

  /** The first `i` in the queue are made, or among the failures. */
  ghost predicate Settled(queue: seq<Request>, i: nat, failed: seq<Request>, results: map<string, Result>)
    requires i <= |queue|
  {
    forall n :: 0 <= n < i ==> queue[n] in failed || (Key(queue[n]) in results && results[Key(queue[n])].routed)
  }

  /** What is made stays made. */
  ghost predicate StayRouted(before: map<string, Result>, after: map<string, Result>) {
    forall k :: k in before && before[k].routed ==> k in after && after[k].routed
  }

  /** None of these was made yet. */
  ghost predicate StillToMake(qs: seq<Request>, results: map<string, Result>) {
    forall q :: q in qs ==> Key(q) in results && !results[Key(q)].routed
  }

  lemma NoneSettled(queue: seq<Request>, results: map<string, Result>)
    ensures Settled(queue, 0, [], results) && SameRequests(results, results)
  {
  }

  lemma KnownAt(qs: seq<Request>, i: nat, results: map<string, Result>)
    requires Known(qs, results) && i < |qs|
    ensures Key(qs[i]) in results && results[Key(qs[i])].net == qs[i].net
  {
    hide Key;
    assert qs[i] in qs;
  }

  lemma OneMoreKnown(queue: seq<Request>, i: nat, before: map<string, Result>, after: map<string, Result>)
    requires i < |queue| && Known(queue, before) && OnlyChanged(before, after, Key(queue[i]))
    ensures Known(queue, after)
  {
    hide Key;
  }

  lemma OneMoreSettled(queue: seq<Request>, i: nat, were: seq<Request>, failed: seq<Request>,
                       first: map<string, Result>,
                       before: map<string, Result>, after: map<string, Result>)
    requires i < |queue| && Settled(queue, i, were, before) && Key(queue[i]) in before
    requires OnlyChanged(before, after, Key(queue[i])) && SameRequests(first, before)
    requires before[Key(queue[i])].routed ==> after == before
    requires failed == if after[Key(queue[i])].routed then were else were + [queue[i]]
    requires StayRouted(first, before) && StillToMake(were, first)
    ensures Settled(queue, i + 1, failed, after) && SameRequests(first, after)
    ensures StayRouted(first, after) && StillToMake(failed, first)
  {
    hide Key;
  }

  lemma KnownStays(qs: seq<Request>, some: seq<Request>, before: map<string, Result>, after: map<string, Result>)
    requires Known(qs, before) && SameRequests(before, after) && forall q :: q in some ==> q in qs
    ensures Known(qs, after) && Known(some, after)
  {
    hide Key;
  }

  /** Results just entered. */
  ghost predicate AllBlank(qs: seq<Request>, results: map<string, Result>) {
    (forall k :: k in results ==> IsBlank(qs, k, results[k])) && Known(qs, results)
  }

  ghost predicate IsBlank(qs: seq<Request>, k: string, r: Result) { exists q :: q in qs && Key(q) == k && r == Blank(q) }

  method Blanks(reqs: seq<Request>) returns (results: map<string, Result>)
    requires KeysTellNets(reqs)
    ensures AllBlank(reqs, results) && Known(reqs, results) && results.Keys == (set q | q in reqs :: Key(q))
  {
    hide Key;
    results := map[];
    for i := 0 to |reqs|
      invariant results.Keys == (set q | q in reqs[..i] :: Key(q)) && AllBlank(reqs[..i], results)
    {
      EnterOne(reqs, i, results);
      results := results[Key(reqs[i]) := Blank(reqs[i])];
    }
    assert reqs[..|reqs|] == reqs;
  }

  lemma EnterOne(reqs: seq<Request>, i: nat, results: map<string, Result>)
    requires i < |reqs| && AllBlank(reqs[..i], results) && KeysTellNets(reqs)
    requires results.Keys == (set q | q in reqs[..i] :: Key(q))
    ensures AllBlank(reqs[..i + 1], results[Key(reqs[i]) := Blank(reqs[i])])
    ensures results[Key(reqs[i]) := Blank(reqs[i])].Keys == (set q | q in reqs[..i + 1] :: Key(q))
  {
    hide Key;
    assert reqs[..i + 1] == reqs[..i] + [reqs[i]];
    forall q | q in reqs[..i] && Key(q) == Key(reqs[i]) ensures q.net == reqs[i].net { assert q in reqs; }
  }

  lemma BlankIsSound(f: Fixed, s: Start, reqs: seq<Request>, results: map<string, Result>)
    requires AllBlank(reqs, results)
    ensures Sound(f, s, s.tracks, s.live, [], results, s.count)
  {
    assert s.tracks + [] == s.tracks && s.live + [] == s.live;
  }

  /** Each request's answer. Where one is made twice, the later has the answer and the earlier is never tried. */
  function Outcomes(qs: seq<Request>, results: map<string, Result>): seq<Result> {
    seq(|qs|, i requires 0 <= i < |qs| =>
      if Key(qs[i]) !in results || exists j :: i < j < |qs| && Key(qs[j]) == Key(qs[i]) then Blank(qs[i]) else results[Key(qs[i])])
  }

  /** The last request of its key has that key's answer; one made again after it has none, and no copper. */
  lemma OutcomeIs(qs: seq<Request>, results: map<string, Result>, i: nat)
    requires i < |qs| && Key(qs[i]) in results
    ensures (forall j :: i < j < |qs| ==> Key(qs[j]) != Key(qs[i])) ==> Outcomes(qs, results)[i] == results[Key(qs[i])]
    ensures (exists j :: i < j < |qs| && Key(qs[j]) == Key(qs[i])) ==>
      var r := Outcomes(qs, results)[i];
      !r.routed && r.tracks == [] && r.attempts == 0 && Request(r.net, r.from, r.to) == qs[i]
  {
    hide Key;
  }

  lemma SquaresOrder(a: real, b: real)
    requires a >= 0.0 && b >= 0.0
    ensures a >= b <==> E.Sqr(a) >= E.Sqr(b)
  {
    if a > b { E.Grows(b, a); }
    if a < b { E.Grows(a, b); }
  }

  /** Where a piece of copper ends, as far as it is asked: arcs are passed over. */
  predicate IsEnd(w: Board.Wire, p: Pt) {
    (w.Segment? && (p == w.start || p == w.end)) || (w.Via? && p == w.at)
  }

  predicate EndsNearAt(x: Pt, y: Pt, d: real, ts: seq<Board.Track>, i: nat, p: Pt, z: Pt) {
    i < |ts| && IsEnd(ts[i].wire, p) && Between(x, y, z) && CloseTo(p, z, d)
  }

  ghost predicate EndsNear(x: Pt, y: Pt, d: real, ts: seq<Board.Track>) { exists i, p, z :: EndsNearAt(x, y, d, ts, i, p, z) }

  lemma EndInside(box: Rect, ts: seq<Board.Track>) returns (i: nat, p: Pt)
    requires EndsIn(box, ts)
    ensures i < |ts| && IsEnd(ts[i].wire, p) && box.Contains(p)
  {
    i :| 0 <= i < |ts| && WireEndsIn(box, ts[i].wire);
    var w := ts[i].wire;
    p := if w.Via? then w.at else if w.Segment? && box.Contains(w.start) then w.start else w.end;
  }

  /** Whether any of this copper ends in a box. */
  predicate EndsIn(box: Rect, ts: seq<Board.Track>) { exists i :: 0 <= i < |ts| && WireEndsIn(box, ts[i].wire) }

  predicate WireEndsIn(box: Rect, w: Board.Wire) {
    match w
    case Segment(_, _, a, b, _, _) => box.Contains(a) || box.Contains(b)
    case Via(_, _, at, _, _, _) => box.Contains(at)
    case Arc(_, _, _, _) => false
  }

  lemma WiresOnNet(st: Lay.Style, ws: seq<Board.Wire>, net: string, count: nat)
    requires Lay.NewOn(st, ws, net, count)
    ensures forall w :: w in ws ==> w.net == net
  {
  }

  function Unlaid(r: Result): Result { r.(routed := false, tracks := []) }

  /** These requests' routes are off the board, and no other answer has changed. */
  ghost predicate OnlyTaken(before: map<string, Result>, after: map<string, Result>, vs: seq<Request>) {
    && before.Keys == after.Keys
    && (forall v :: v in vs ==> Key(v) in after && !after[Key(v)].routed)
    && (forall k :: k in before && (forall v :: v in vs ==> Key(v) != k) ==> after[k] == before[k])
  }

  function Times(ripped: map<string, nat>, k: string): nat { if k in ripped then ripped[k] else 0 }

  lemma KnownKeys(qs: seq<Request>, before: map<string, Result>, after: map<string, Result>, vs: seq<Request>)
    requires OnlyTaken(before, after, vs)
    ensures (forall q :: q in qs ==> Key(q) in before) <==> (forall q :: q in qs ==> Key(q) in after)
  {
  }

  lemma NetsTogether(first: map<string, Result>, mid: map<string, Result>, vs: seq<Request>, more: seq<Request>)
    requires OnlyTaken(first, mid, vs)
    ensures NetsOf(vs + more, first) == NetsOf(vs, first) + NetsOf(more, mid)
  {
    hide Key;
    forall v | v in more && Key(v) in first && first[Key(v)].routed
      ensures first[Key(v)].net in NetsOf(vs, first) + NetsOf(more, mid)
    {
      if u: Request :| u in vs && Key(u) == Key(v) { assert first[Key(u)].net in NetsOf(vs, first); }
    }
    forall v | v in more && Key(v) in mid && mid[Key(v)].routed ensures mid[Key(v)].net in NetsOf(vs + more, first) {
      assert forall u :: u in vs ==> Key(u) != Key(v);
      assert v in vs + more;
    }
    forall v | v in vs && Key(v) in first && first[Key(v)].routed ensures first[Key(v)].net in NetsOf(vs + more, first) {
      assert v in vs + more;
    }
  }

  lemma NoneTaken(results: map<string, Result>)
    ensures OnlyTaken(results, results, [])
  {
  }

  lemma OneMoreTaken(first: map<string, Result>, before: map<string, Result>, after: map<string, Result>,
                     vs: seq<Request>, v: Request)
    requires OnlyTaken(first, before, vs) && Key(v) in before && OnlyChanged(before, after, Key(v))
    requires !after[Key(v)].routed
    ensures OnlyTaken(first, after, vs + [v])
  {
    hide Key;
  }

  lemma TakenTogether(first: map<string, Result>, before: map<string, Result>, after: map<string, Result>,
                      vs: seq<Request>, more: seq<Request>)
    requires OnlyTaken(first, before, vs) && OnlyTaken(before, after, more)
    ensures OnlyTaken(first, after, vs + more)
  {
    hide Key;
    forall v | v in vs + more ensures Key(v) in after && !after[Key(v)].routed {
      if v in vs && forall u :: u in more ==> Key(u) != Key(v) {
        assert after[Key(v)] == before[Key(v)];
      } else if v in vs {
        var u :| u in more && Key(u) == Key(v);
      }
    }
  }

  /** Every request has an answer, on its own net. */
  ghost predicate Known(qs: seq<Request>, results: map<string, Result>) {
    forall q :: q in qs ==> Key(q) in results && results[Key(q)].net == q.net
  }

  ghost predicate SameRequests(a: map<string, Result>, b: map<string, Result>) {
    a.Keys == b.Keys && forall k :: k in a ==> a[k].net == b[k].net
  }

  /** The same requests are answered, on the same nets, and no answer but one has changed. */
  ghost predicate OnlyChanged(a: map<string, Result>, b: map<string, Result>, k: string) {
    a.Keys == b.Keys && forall j :: j in a ==> (if j == k then a[j].net == b[j].net else a[j] == b[j])
  }

  lemma ObstaclesOfNone(f: Fixed)
    ensures Obstacles(f, []) == []
  {
  }

  lemma CopperShapes(f: Fixed, w: Board.Wire)
    ensures var t := CopperOf(f, w); C.ObstaclesOf(t, |t.shapes|) == ObstaclesOf(f, w)
  {
  }

  lemma OneMoreTrack(f: Fixed, tracks: seq<Board.Track>, i: nat)
    requires i < |tracks|
    ensures Obstacles(f, tracks[..i + 1]) == Obstacles(f, tracks[..i]) + ObstaclesOf(f, tracks[i].wire)
  {
    assert tracks[..i + 1][..i] == tracks[..i];
  }

  lemma TracksOnNet(st: Lay.Style, ws: seq<Board.Wire>, tracks: seq<Board.Track>, net: string, count: nat)
    requires Lay.NewOn(st, ws, net, count) && |tracks| == |ws| && forall i :: 0 <= i < |ws| ==> tracks[i].wire == ws[i]
    ensures forall t :: t in tracks ==> t.wire.net == net
  {
  }

  /** New copper on one net leaves what every other may touch. */
  lemma OthersExempt(f: Fixed, tracks: seq<Board.Track>, more: seq<Board.Track>, net: string,
                     exemptions: map<string, set<string>>, before: map<string, set<string>>)
    requires ExemptionsRight(f, tracks, before) && exemptions == before && forall t :: t in more ==> t.wire.net == net
    ensures ExemptionsRight(f, tracks + more, exemptions - {net})
  {
    forall other | other in exemptions && other != net ensures ExemptOf(f, tracks + more, other) == ExemptOf(f, tracks, other) {}
  }

  lemma OthersExemptWithout(f: Fixed, tracks: seq<Board.Track>, gone: seq<Board.Track>, net: string,
                            before: map<string, set<string>>)
    requires ExemptionsRight(f, tracks, before) && forall t :: t in gone ==> t.wire.net == net
    ensures ExemptionsRight(f, Board.Kept(tracks, Board.Among(gone)), before - {net})
  {
    hide Board.Kept;
    var left := Board.Kept(tracks, Board.Among(gone));
    forall t ensures t in left <==> t in tracks && t !in gone { Board.KeptHolds(tracks, Board.Among(gone), t); }
    forall other | other in before && other != net ensures ExemptOf(f, left, other) == ExemptOf(f, tracks, other) {}
  }

  lemma CommittedIsSound(f: Fixed, s: Start, tracks: seq<Board.Track>, live: seq<C.Obstacle>, obs: seq<C.Obstacle>,
                         order: seq<string>,
                         results: map<string, Result>, st: Lay.Style, ws: seq<Board.Wire>, laid: seq<Board.Track>, count: nat,
                         k: string, r: Result)
    requires Fresh(f, s) && Sound(f, s, tracks, live, order, results, count) && C.Live(obs) == live && f.st == st
    requires k in results && !results[k].routed && r == results[k].(tracks := laid, routed := true)
    requires Lay.NewOn(st, ws, r.net, count) && forall w :: w in ws ==> Clean(f, tracks, obs, w)
    requires WiresOf(laid) == ws && Made(f, k, r)
    ensures Sound(f, s, tracks + laid, live + Obstacles(f, laid), order + [k], results[k := r], count + |ws|)
  {
    hide Fresh, Sound, Obstacles, AcceptedAmong, Made;
    assert forall i :: 0 <= i < |laid| ==> laid[i].wire == ws[i];
    forall t | t in laid ensures AcceptedAmong(f, t.wire, live) {
      var i :| 0 <= i < |laid| && laid[i] == t;
      assert Clean(f, tracks, obs, ws[i]);
      ClearIsAccepted(f, s, tracks, live, order, results, count, t.wire, obs);
    }
    CommitKeeps(f, s, tracks, live, order, results, count, k, r);
  }

  /** What taking a routed result off leaves, and that its copper can be named to be taken off. */
  lemma RippedUp(f: Fixed, s: Start, tracks: seq<Board.Track>, live: seq<C.Obstacle>, order: seq<string>,
                 results: map<string, Result>, count: nat, k: string) returns (left: seq<string>)
    requires Fresh(f, s) && Sound(f, s, tracks, live, order, results, count) && Board.Distinct(tracks)
    requires k in results && results[k].routed
    ensures
      var r := results[k];
      Sound(f, s, Board.Kept(tracks, Board.Among(r.tracks)), Retired(live, r.tracks, |r.tracks|), left, results[k := Unlaid(r)], count)
    ensures left == Dropped(order, {k})
    ensures forall t :: t in results[k].tracks ==> t.wire.uuid != "" && t.wire.net == results[k].net
  {
    hide AllAccepted, Named, Obstacles, Fresh, Board.Distinct, Board.Kept, Retired, Made;
    assert k in order;
    var i :| 0 <= i < |order| && order[i] == k;
    var a, c := order[..i], order[i + 1..];
    assert order == a + [k] + c;
    OrderWithout(a, k, c);
    DroppedOne(a, k, c);
    hide Sound;
    RipUpKeeps(f, s, tracks, live, a, k, c, results, count, Unlaid(results[k]));
    ResultNamed(f, s, tracks, live, order, results, count, k);
    left := a + c;
  }

  lemma NotRouted(f: Fixed, s: Start, tracks: seq<Board.Track>, live: seq<C.Obstacle>, order: seq<string>,
                  results: map<string, Result>, count: nat, k: string)
    requires Sound(f, s, tracks, live, order, results, count) && k in results
    ensures !results[k].routed ==> Dropped(order, {k}) == order
  {
    hide AllAccepted, Named, Obstacles, Laid, ResultOk, NoDups;
    if !results[k].routed { DroppedNone(order, {k}); }
  }

  /** A routed result's copper is on its net, and named. */
  lemma ResultNamed(f: Fixed, s: Start, tracks: seq<Board.Track>, live: seq<C.Obstacle>, order: seq<string>,
                    results: map<string, Result>, count: nat, k: string)
    requires Fresh(f, s) && Sound(f, s, tracks, live, order, results, count) && k in results && results[k].routed
    ensures forall t :: t in results[k].tracks ==> t.wire.uuid != "" && t.wire.net == results[k].net
  {
    hide AllAccepted, Obstacles, Laid, Fresh, Named;
    forall t | t in results[k].tracks ensures t.wire.uuid != "" {
      LaidHolds(order, results, k, t);
      NameNotBefore(f, s, Laid(order, results), count, t);
    }
  }

  ghost predicate ExemptionsRight(f: Fixed, tracks: seq<Board.Track>, exemptions: map<string, set<string>>) {
    forall net :: net in exemptions ==> exemptions[net] == ExemptOf(f, tracks, net)
  }
}
