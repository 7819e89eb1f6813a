/** The router's path search (route/astar.go): A* over (cell, direction) states. */
module AStar {
  import opened Common
  import opened Grid
  import opened RouteSpace
  import opened PathCost
  import opened MinHeap

  /** A way out of a state, and what it costs. */
  datatype Move = Move(to: Node, cost: real)

  /** The moves in the order they are tried: eight ways sideways, then down, then up. */
  const MOVES := 10

  function Way(k: nat): (int, int)
    requires k < 8
  {
    STEPS[k]
  }

  /** The k-th move out of a state, if it is open to the net. */
  function MoveOut(sp: Space, n: Node, k: int): Option<Move>
    requires |sp.own| == sp.e.Size() && 0 <= k < MOVES
  {
    if k < 8 then
      var s := Way(k);
      var next := Cell(n.c.x + s.0, n.c.y + s.1, n.c.layer);
      var diagonal := s.0 != 0 && s.1 != 0;
      if !sp.Free(next) then None
      else if diagonal && (!sp.Free(Cell(n.c.x + s.0, n.c.y, n.c.layer)) || !sp.Free(Cell(n.c.x, n.c.y + s.1, n.c.layer)))
      then None
      else Some(Move(Node(next, k), (if diagonal then sp.pitch * sp.root2 else sp.pitch)
                                    + if n.d != NO_DIR && n.d != k then sp.bend else 0.0))
    else
      var next := Cell(n.c.x, n.c.y, n.c.layer + (if k == 8 then -1 else 1));
      if sp.viaOK(n.c) && sp.Free(next) then Some(Move(Node(next, NO_DIR), sp.via)) else None
  }

  /** Every move is a legal step of the same cost that ends in the state the move leads to ... */
  lemma MoveIsStep(sp: Space, n: Node, k: nat)
    requires sp.Sane() && k < MOVES && MoveOut(sp, n, k).Some?
    ensures var m := MoveOut(sp, n, k).value;
      sp.LegalStep(n.c, m.to.c) && m.cost == sp.StepCost(n.d, n.c, m.to.c) && m.to.d == Heading(n.c, m.to.c)
      && m.cost >= 0.0
  {
    StepCostIsNonNegative(sp, n.d, n.c, MoveOut(sp, n, k).value.to.c);
  }

  /** ... and every legal step is a move. */
  lemma StepIsMove(sp: Space, n: Node, c: Cell) returns (k: nat)
    requires sp.Sane() && sp.LegalStep(n.c, c)
    ensures k < MOVES
    ensures MoveOut(sp, n, k) == Some(Move(Node(c, Heading(n.c, c)), sp.StepCost(n.d, n.c, c)))
  {
    k := if n.c.layer != c.layer then (if c.layer < n.c.layer then 8 else 9) else Heading(n.c, c);
    if k < 8 { assert c == Cell(n.c.x + STEPS[k].0, n.c.y + STEPS[k].1, n.c.layer); }
  }

  // ---- the search's state ----

  type Dists = map<Node, real>
  type Prevs = map<Node, Node>
  type Paths = map<Node, seq<Cell>>

  /** Every distance is the cost of a legal path from a start, and `prev` is that path's last step. */
  ghost predicate Traced(sp: Space, starts: seq<Cell>, dist: Dists, prev: Prevs, ps: Paths)
    requires |sp.own| == sp.e.Size()
  {
    ps.Keys == dist.Keys && prev.Keys <= dist.Keys
    && forall n :: n in dist ==> TracedAt(sp, starts, dist, prev, ps, n)
  }

  ghost predicate TracedAt(sp: Space, starts: seq<Cell>, dist: Dists, prev: Prevs, ps: Paths, n: Node)
    requires |sp.own| == sp.e.Size() && n in dist && ps.Keys == dist.Keys
  {
    var p := ps[n];
    && sp.LegalPath(p) && EndNode(p) == n && sp.Cost(p) == dist[n] && p[0] in starts
    && (if n in prev then prev[n] in dist && p == ps[prev[n]] + [n.c] else |p| == 1)
  }

  ghost predicate Relaxed(sp: Space, dist: Dists, n: Node, k: nat)
    requires |sp.own| == sp.e.Size() && k <= MOVES
  {
    n in dist && forall i :: 0 <= i < k && MoveOut(sp, n, i).Some? ==>
      var m := MoveOut(sp, n, i).value;
      m.to in dist && dist[m.to] <= dist[n] + m.cost
  }

  ghost predicate AllRelaxed(sp: Space, dist: Dists, done: set<Node>)
    requires |sp.own| == sp.e.Size()
  {
    forall n :: n in done ==> Relaxed(sp, dist, n, MOVES)
  }

  ghost function F(sp: Space, goals: seq<Cell>, dist: Dists, n: Node): real
    requires n in dist
  {
    dist[n] + Estimate(sp, goals, n.c)
  }

  /** Every state reached is expanded or open under its current distance. */
  ghost predicate Waiting(sp: Space, goals: seq<Cell>, dist: Dists, done: set<Node>, h: seq<Item<Node>>) {
    forall n :: n in dist && n !in done ==> Item(n, F(sp, goals, dist, n)) in h
  }

  ghost predicate Queued(sp: Space, goals: seq<Cell>, dist: Dists, h: seq<Item<Node>>) {
    forall x :: x in h ==> x.n in dist && F(sp, goals, dist, x.n) <= x.d
  }

  ghost predicate Begun(sp: Space, starts: seq<Cell>, dist: Dists)
    requires |sp.own| == sp.e.Size()
  {
    forall s :: s in starts && sp.Free(s) ==> Node(s, NO_DIR) in dist && dist[Node(s, NO_DIR)] <= 0.0
  }

  /** What is true throughout: `done` are the states expanded so far, none of them at a goal. */
  ghost predicate Exploring(sp: Space, starts: seq<Cell>, goals: seq<Cell>, dist: Dists, prev: Prevs, ps: Paths,
                            done: set<Node>, h: seq<Item<Node>>)
  {
    && sp.Sane() && Traced(sp, starts, dist, prev, ps) && Begun(sp, starts, dist)
    && (forall n :: n in prev ==> prev[n] in done)
    && (forall n :: n in done ==> n in dist && n.c !in goals)
    && Queued(sp, goals, dist, h) && Waiting(sp, goals, dist, done, h)
  }

  /** The outer loop's invariant: nothing open can still improve on an expanded state. */
  ghost predicate Stage(sp: Space, starts: seq<Cell>, goals: seq<Cell>, dist: Dists, prev: Prevs, ps: Paths,
                        done: set<Node>, h: seq<Item<Node>>)
  {
    && Exploring(sp, starts, goals, dist, prev, ps, done, h) && AllRelaxed(sp, dist, done)
    && (forall n, x :: n in done && x in h ==> F(sp, goals, dist, n) <= x.d)
  }

  /** The invariant while state `u`, popped at `d`, tries its moves; the first `k` are tried. */
  ghost predicate Expanding(sp: Space, starts: seq<Cell>, goals: seq<Cell>, dist: Dists, prev: Prevs, ps: Paths,
                            done: set<Node>, h: seq<Item<Node>>, u: Node, k: nat, d: real, again: bool)
  {
    && Exploring(sp, starts, goals, dist, prev, ps, done, h) && AllRelaxed(sp, dist, done - {u})
    && u in done && F(sp, goals, dist, u) == d && k <= MOVES
    && (forall x :: x in h ==> d <= x.d)
    && (forall n :: n in done ==> F(sp, goals, dist, n) <= d)
    && Relaxed(sp, dist, u, k) && (again ==> Relaxed(sp, dist, u, MOVES))
  }

  // ---- one better way found ----

  /** A better way to a state leads to one that is not expanded yet, because the estimate is consistent. */
  lemma BetterIsNew(sp: Space, starts: seq<Cell>, goals: seq<Cell>, dist: Dists, prev: Prevs, ps: Paths,
                    done: set<Node>, h: seq<Item<Node>>, u: Node, k: nat, d: real, again: bool)
    requires Expanding(sp, starts, goals, dist, prev, ps, done, h, u, k, d, again)
    requires k < MOVES && MoveOut(sp, u, k).Some?
    ensures var m := MoveOut(sp, u, k).value;
      d <= dist[u] + m.cost + Estimate(sp, goals, m.to.c)
      && (m.to in dist && dist[u] + m.cost < dist[m.to] ==> m.to !in done && !again)
  {
    hide Estimate, RouteSpace.Space.StepCost, RouteSpace.Space.LegalStep, MoveOut, Traced, Begun;
    var m := MoveOut(sp, u, k).value;
    MoveIsStep(sp, u, k);
    EstimateIsConsistent(sp, goals, u.d, u.c, m.to.c);
  }

  lemma TracedAfter(sp: Space, starts: seq<Cell>, goals: seq<Cell>, dist: Dists, prev: Prevs, ps: Paths,
                    done: set<Node>, u: Node, k: nat, cost: real)
    requires sp.Sane() && Traced(sp, starts, dist, prev, ps) && Begun(sp, starts, dist)
    requires u in done && u in dist && k < MOVES && MoveOut(sp, u, k).Some?
    requires forall n :: n in prev ==> prev[n] in done
    requires MoveOut(sp, u, k).value.to !in done && cost == dist[u] + MoveOut(sp, u, k).value.cost
    requires MoveOut(sp, u, k).value.to in dist ==> cost < dist[MoveOut(sp, u, k).value.to]
    ensures u in ps
    ensures var to := MoveOut(sp, u, k).value.to;
      Traced(sp, starts, dist[to := cost], prev[to := u], ps[to := ps[u] + [to.c]])
      && Begun(sp, starts, dist[to := cost])
  {
    hide Estimate, RouteSpace.Space.StepCost, RouteSpace.Space.Cost, RouteSpace.Space.LegalPath, MoveOut;
    var m := MoveOut(sp, u, k).value;
    var to := m.to;
    var dist', prev', ps' := dist[to := cost], prev[to := u], ps[to := ps[u] + [to.c]];
    MoveIsStep(sp, u, k);
    assert TracedAt(sp, starts, dist, prev, ps, u);
    PathIsNotEmpty(sp, ps[u]);
    Extend(sp, ps[u], to.c);
    forall n | n in dist' ensures TracedAt(sp, starts, dist', prev', ps', n) {
      if n != to {
        assert TracedAt(sp, starts, dist, prev, ps, n);
        if n in prev { assert prev[n] in done; }
      }
    }
    CostIsNonNegative(sp, ps[u]);
    assert cost >= 0.0;
  }

  lemma PathIsNotEmpty(sp: Space, p: seq<Cell>)
    requires |sp.own| == sp.e.Size() && sp.LegalPath(p)
    ensures p != []
  {
  }

  lemma RelaxKeeps(sp: Space, starts: seq<Cell>, goals: seq<Cell>, dist: Dists, prev: Prevs, ps: Paths,
                   done: set<Node>, h: seq<Item<Node>>, h': seq<Item<Node>>, u: Node, k: nat, d: real, again: bool)
    requires Expanding(sp, starts, goals, dist, prev, ps, done, h, u, k, d, again)
    requires k < MOVES && MoveOut(sp, u, k).Some?
    requires var m := MoveOut(sp, u, k).value;
      && (m.to in dist ==> dist[u] + m.cost < dist[m.to])
      && forall y :: y in h' <==> y == Item(m.to, dist[u] + m.cost + Estimate(sp, goals, m.to.c)) || y in h
    ensures !again && u in ps
    ensures var m := MoveOut(sp, u, k).value;
      Expanding(sp, starts, goals, dist[m.to := dist[u] + m.cost], prev[m.to := u], ps[m.to := ps[u] + [m.to.c]],
                done, h', u, k + 1, d, again)
  {
    hide Estimate, MoveOut, Traced, Begun;
    var m := MoveOut(sp, u, k).value;
    var cost := dist[u] + m.cost;
    BetterIsNew(sp, starts, goals, dist, prev, ps, done, h, u, k, d, again);
    TracedAfter(sp, starts, goals, dist, prev, ps, done, u, k, cost);
    var dist' := dist[m.to := cost];
    assert forall n :: n in done ==> dist'[n] == dist[n];
    forall n | n in dist' && n !in done ensures Item(n, F(sp, goals, dist', n)) in h' {
      if n != m.to { assert Item(n, F(sp, goals, dist, n)) in h; }
    }
    RelaxedAfter(sp, dist, done - {u}, u, k);
  }

  lemma RelaxedAfter(sp: Space, dist: Dists, others: set<Node>, u: Node, k: nat)
    requires |sp.own| == sp.e.Size() && k < MOVES && MoveOut(sp, u, k).Some?
    requires AllRelaxed(sp, dist, others) && Relaxed(sp, dist, u, k)
    requires MoveOut(sp, u, k).value.to !in others && MoveOut(sp, u, k).value.to != u
    requires MoveOut(sp, u, k).value.to in dist ==>
      dist[u] + MoveOut(sp, u, k).value.cost < dist[MoveOut(sp, u, k).value.to]
    ensures var m := MoveOut(sp, u, k).value;
      AllRelaxed(sp, dist[m.to := dist[u] + m.cost], others)
      && Relaxed(sp, dist[m.to := dist[u] + m.cost], u, k + 1)
  {
    hide MoveOut;
    var m := MoveOut(sp, u, k).value;
    var dist' := dist[m.to := dist[u] + m.cost];
    forall n | n in others ensures Relaxed(sp, dist', n, MOVES) {
      assert Relaxed(sp, dist, n, MOVES);
    }
  }

  // ---- what the search may conclude ----

  /** A path the router would accept. */
  ghost predicate IsRoute(sp: Space, starts: seq<Cell>, goals: seq<Cell>, p: seq<Cell>)
    requires |sp.own| == sp.e.Size()
  {
    p != [] && sp.LegalPath(p) && p[0] in starts && p[|p| - 1] in goals
  }

  ghost predicate IsBest(sp: Space, starts: seq<Cell>, goals: seq<Cell>, p: seq<Cell>)
    requires |sp.own| == sp.e.Size()
  {
    IsRoute(sp, starts, goals, p)
    && forall w :: IsRoute(sp, starts, goals, w) ==> sp.Cost(p) <= sp.Cost(w)
  }

  /** Following a legal path through expanded states: the search has been along at least as cheaply
      up to some point, and that point is open or the end. */
  lemma {:induction false} Along(sp: Space, starts: seq<Cell>, goals: seq<Cell>, dist: Dists, prev: Prevs, ps: Paths,
                                 done: set<Node>, h: seq<Item<Node>>, w: seq<Cell>, i: nat) returns (j: nat)
    requires Stage(sp, starts, goals, dist, prev, ps, done, h)
    requires sp.LegalPath(w) && 0 < i <= |w|
    requires EndNode(w[..i]) in dist && dist[EndNode(w[..i])] <= sp.Cost(w[..i])
    ensures 0 < j <= |w| && EndNode(w[..j]) in dist && dist[EndNode(w[..j])] <= sp.Cost(w[..j])
    ensures EndNode(w[..j]) !in done || j == |w|
    decreases |w| - i
  {
    hide MoveOut, Traced, Begun, RouteSpace.Space.StepCost, RouteSpace.Space.LegalStep;
    var n := EndNode(w[..i]);
    if n !in done || i == |w| {
      j := i;
    } else {
      assert sp.LegalStep(w[i - 1], w[i]);
      assert w[..i + 1] == w[..i] + [w[i]];
      Extend(sp, w[..i], w[i]);
      var k := StepIsMove(sp, n, w[i]);
      assert Relaxed(sp, dist, n, MOVES);
      j := Along(sp, starts, goals, dist, prev, ps, done, h, w, i + 1);
    }
  }

  lemma AlongFromStart(sp: Space, starts: seq<Cell>, goals: seq<Cell>, dist: Dists, prev: Prevs, ps: Paths,
                       done: set<Node>, h: seq<Item<Node>>, w: seq<Cell>) returns (j: nat)
    requires Stage(sp, starts, goals, dist, prev, ps, done, h)
    requires IsRoute(sp, starts, goals, w)
    ensures 0 < j <= |w| && EndNode(w[..j]) in dist && dist[EndNode(w[..j])] <= sp.Cost(w[..j])
    ensures EndNode(w[..j]) !in done
  {
    hide MoveOut, Traced, AllRelaxed;
    assert w[..1] == [w[0]];
    assert EndNode(w[..1]) == Node(w[0], NO_DIR);
    j := Along(sp, starts, goals, dist, prev, ps, done, h, w, 1);
    if j == |w| {
      assert w[..j] == w;
      assert EndNode(w).c in goals;
    }
  }

  /** When a state at a goal comes up, no route is cheaper than its path. */
  lemma GoalIsBest(sp: Space, starts: seq<Cell>, goals: seq<Cell>, dist: Dists, prev: Prevs, ps: Paths,
                   done: set<Node>, h: seq<Item<Node>>, it: Item<Node>)
    requires Stage(sp, starts, goals, dist, prev, ps, done, h)
    requires it in h && (forall x :: x in h ==> it.d <= x.d)
    requires it.n in dist && it.d == F(sp, goals, dist, it.n) && it.n.c in goals
    ensures it.n in ps && IsBest(sp, starts, goals, ps[it.n])
  {
    hide MoveOut, AllRelaxed, Begun, Estimate, RouteSpace.Space.LegalPath;
    assert TracedAt(sp, starts, dist, prev, ps, it.n);
    PathIsNotEmpty(sp, ps[it.n]);
    EstimateAtGoal(sp, goals, it.n.c);
    forall w | IsRoute(sp, starts, goals, w) ensures sp.Cost(ps[it.n]) <= sp.Cost(w) {
      var j := AlongFromStart(sp, starts, goals, dist, prev, ps, done, h, w);
      var n := EndNode(w[..j]);
      assert Item(n, F(sp, goals, dist, n)) in h;
      EstimateAlong(sp, goals, w, j);
      EstimateAtGoal(sp, goals, w[|w| - 1]);
    }
  }

  lemma EstimateAtGoal(sp: Space, goals: seq<Cell>, c: Cell)
    requires sp.Sane() && c in goals
    ensures Estimate(sp, goals, c) == 0.0
  {
    NearestAtGoal(sp.root2, c, goals);
  }

  /** When nothing is left open, there is no route. */
  lemma NoneLeft(sp: Space, starts: seq<Cell>, goals: seq<Cell>, dist: Dists, prev: Prevs, ps: Paths, done: set<Node>)
    requires Stage(sp, starts, goals, dist, prev, ps, done, [])
    ensures forall w :: !IsRoute(sp, starts, goals, w)
  {
    hide MoveOut, AllRelaxed, Begun, Traced;
    forall w | IsRoute(sp, starts, goals, w) ensures false {
      var j := AlongFromStart(sp, starts, goals, dist, prev, ps, done, [], w);
    }
  }

  // ---- the search itself ----

  /** Every state there is, which is why the search ends. */
  ghost function AllNodes(e: Extent): set<Node> {
    set x, y, l, d | 0 <= x < e.nx && 0 <= y < e.ny && 0 <= l < e.layers && -1 <= d < 8 :: Node(Cell(x, y, l), d)
  }

  lemma ReachedIsNode(sp: Space, starts: seq<Cell>, dist: Dists, prev: Prevs, ps: Paths, n: Node)
    requires sp.Sane() && Traced(sp, starts, dist, prev, ps) && n in dist
    ensures n in AllNodes(sp.e)
  {
    assert TracedAt(sp, starts, dist, prev, ps, n);
    var p := ps[n];
    if |p| > 1 { assert sp.LegalStep(p[|p| - 2], p[|p| - 1]); }
  }

  method Relax(open: HeapQ<Node>, dist: Dists, prev: Prevs, from: Node, to: Node, cost: real, h: real)
    returns (dist': Dists, prev': Prevs)
    requires open.Valid()
    modifies open
    ensures open.Valid()
    ensures to in dist && dist[to] <= cost ==> dist' == dist && prev' == prev && open.a == old(open.a)
    ensures !(to in dist && dist[to] <= cost) ==>
      dist' == dist[to := cost] && prev' == prev[to := from]
      && forall y :: y in open.a <==> y == Item(to, cost + h) || y in old(open.a)
  {
    if to in dist && dist[to] <= cost { return dist, prev; }
    dist', prev' := dist[to := cost], prev[to := from];
    open.Push(Item(to, cost + h));
  }

  /** Tries one move; a move that is not open changes nothing. */
  method TryMove(open: HeapQ<Node>, dist: Dists, prev: Prevs, u: Node, ghost k: nat, to: Node, cost: real, est: real,
                 ghost sp: Space, ghost starts: seq<Cell>, ghost goals: seq<Cell>, ghost ps: Paths,
                 ghost done: set<Node>, ghost d: real, ghost again: bool)
    returns (dist': Dists, prev': Prevs, ghost ps': Paths)
    requires open.Valid() && Expanding(sp, starts, goals, dist, prev, ps, done, open.a, u, k, d, again)
    requires k < MOVES && MoveOut(sp, u, k).Some? && est == Estimate(sp, goals, to.c)
    requires to == MoveOut(sp, u, k).value.to && cost == dist[u] + MoveOut(sp, u, k).value.cost
    modifies open
    ensures open.Valid() && Expanding(sp, starts, goals, dist', prev', ps', done, open.a, u, k + 1, d, again)
    ensures u in dist' && dist'[u] == dist[u]
    ensures again ==> open.a == old(open.a)
  {
    hide MoveOut, Exploring, AllRelaxed;
    dist', prev' := Relax(open, dist, prev, u, to, cost, est);
    ps' := ps;
    if !(to in dist && dist[to] <= cost) {
      RelaxKeeps(sp, starts, goals, dist, prev, ps, done, old(open.a), open.a, u, k, d, again);
      ps' := ps[to := ps[u] + [to.c]];
    }
  }

  /** By via to the layer above or below. */
  method ExpandVias(g: CellGrid, net: string, open: HeapQ<Node>, dist: Dists, prev: Prevs, u: Node, base: real,
                    sp: Space, goals: seq<Cell>,
                    ghost starts: seq<Cell>, ghost ps: Paths, ghost done: set<Node>, ghost d: real, ghost again: bool)
    returns (dist': Dists, prev': Prevs, ghost ps': Paths)
    requires g.Valid() && sp.e == g.e && sp.own == g.owner[..] && sp.net == net
    requires open.Valid() && Expanding(sp, starts, goals, dist, prev, ps, done, open.a, u, 8, d, again)
    requires u in dist && dist[u] == base
    modifies open
    ensures open.Valid() && Expanding(sp, starts, goals, dist', prev', ps', done, open.a, u, MOVES, d, again)
    ensures again ==> open.a == old(open.a)
  {
    hide Exploring, AllRelaxed, Relaxed, Estimate, Expanding, F;
    hide CellGrid.UsableBy, Usable, Extent.Size, Extent.Index;
    dist', prev', ps' := dist, prev, ps;
    if sp.viaOK(u.c) {
      for q := 0 to 2
        invariant open.Valid() && Expanding(sp, starts, goals, dist', prev', ps', done, open.a, u, 8 + q, d, again)
        invariant u in dist' && dist'[u] == base
        invariant again ==> open.a == old(open.a)
      {
        var dl := if q == 0 then -1 else 1;
        var next := Cell(u.c.x, u.c.y, u.c.layer + dl);
        if !g.UsableBy(next, net) {
          NothingToTry(sp, starts, goals, dist', prev', ps', done, open.a, u, 8 + q, d, again);
          continue;
        }
        dist', prev', ps' := TryMove(open, dist', prev', u, 8 + q, Node(next, NO_DIR), base + sp.via,
                                     Estimate(sp, goals, next), sp, starts, goals, ps', done, d, again);
      }
    } else {
      NothingToTry(sp, starts, goals, dist', prev', ps', done, open.a, u, 8, d, again);
      NothingToTry(sp, starts, goals, dist', prev', ps', done, open.a, u, 9, d, again);
    }
  }

  /** One of the eight ways within the layer. */
  method ExpandSideways(g: CellGrid, net: string, open: HeapQ<Node>, dist: Dists, prev: Prevs, u: Node, i: nat,
                        base: real,
                        sp: Space, goals: seq<Cell>,
                        ghost starts: seq<Cell>, ghost ps: Paths, ghost done: set<Node>, ghost d: real, ghost again: bool)
    returns (dist': Dists, prev': Prevs, ghost ps': Paths)
    requires g.Valid() && sp.e == g.e && sp.own == g.owner[..] && sp.net == net && i < 8
    requires open.Valid() && Expanding(sp, starts, goals, dist, prev, ps, done, open.a, u, i, d, again)
    requires u in dist && dist[u] == base
    modifies open
    ensures open.Valid() && Expanding(sp, starts, goals, dist', prev', ps', done, open.a, u, i + 1, d, again)
    ensures u in dist' && dist'[u] == base
    ensures again ==> open.a == old(open.a)
  {
    hide Exploring, AllRelaxed, Relaxed, Estimate, Expanding, F, Way;
    hide CellGrid.UsableBy, Usable, Extent.Size, Extent.Index;
    dist', prev', ps' := dist, prev, ps;
    var s := Way(i);
    var next := Cell(u.c.x + s.0, u.c.y + s.1, u.c.layer);
    if !g.UsableBy(next, net) {
      NothingToTry(sp, starts, goals, dist, prev, ps, done, open.a, u, i, d, again);
      return;
    }
    var step := sp.pitch;
    if s.0 != 0 && s.1 != 0 {
      if !g.UsableBy(Cell(u.c.x + s.0, u.c.y, u.c.layer), net)
         || !g.UsableBy(Cell(u.c.x, u.c.y + s.1, u.c.layer), net) {
        NothingToTry(sp, starts, goals, dist, prev, ps, done, open.a, u, i, d, again);
        return;
      }
      step := sp.pitch * sp.root2;
    }
    var cost := base + step;
    if u.d != NO_DIR && u.d != i { cost := cost + sp.bend; }
    dist', prev', ps' := TryMove(open, dist, prev, u, i, Node(next, i), cost, Estimate(sp, goals, next),
                                 sp, starts, goals, ps, done, d, again);
  }

  method ExpandState(g: CellGrid, net: string, open: HeapQ<Node>, dist: Dists, prev: Prevs, u: Node,
                     sp: Space, goals: seq<Cell>,
                     ghost starts: seq<Cell>, ghost ps: Paths, ghost done: set<Node>, ghost d: real, ghost again: bool)
    returns (dist': Dists, prev': Prevs, ghost ps': Paths)
    requires g.Valid() && sp.e == g.e && sp.own == g.owner[..] && sp.net == net
    requires open.Valid() && Expanding(sp, starts, goals, dist, prev, ps, done, open.a, u, 0, d, again)
    modifies open
    ensures open.Valid() && Stage(sp, starts, goals, dist', prev', ps', done, open.a)
    ensures again ==> open.a == old(open.a)
  {
    hide Exploring, AllRelaxed, Relaxed, Stage, Expanding;
    dist', prev', ps' := dist, prev, ps;
    ReachedUnderExpanding(sp, starts, goals, dist, prev, ps, done, open.a, u, 0, d, again);
    var base := dist[u];
    for i := 0 to 8
      invariant open.Valid() && Expanding(sp, starts, goals, dist', prev', ps', done, open.a, u, i, d, again)
      invariant u in dist' && dist'[u] == base
      invariant again ==> open.a == old(open.a)
    {
      dist', prev', ps' := ExpandSideways(g, net, open, dist', prev', u, i, base, sp, goals, starts, ps', done, d, again);
    }
    dist', prev', ps' := ExpandVias(g, net, open, dist', prev', u, base, sp, goals, starts, ps', done, d, again);
    EndsExpanding(sp, starts, goals, dist', prev', ps', done, open.a, u, d, again);
  }

  lemma ReachedUnderExpanding(sp: Space, starts: seq<Cell>, goals: seq<Cell>, dist: Dists, prev: Prevs, ps: Paths,
                              done: set<Node>, h: seq<Item<Node>>, u: Node, k: nat, d: real, again: bool)
    requires Expanding(sp, starts, goals, dist, prev, ps, done, h, u, k, d, again)
    ensures u in dist && |sp.own| == sp.e.Size()
  {
  }

  lemma NothingToTry(sp: Space, starts: seq<Cell>, goals: seq<Cell>, dist: Dists, prev: Prevs, ps: Paths,
                     done: set<Node>, h: seq<Item<Node>>, u: Node, k: nat, d: real, again: bool)
    requires Expanding(sp, starts, goals, dist, prev, ps, done, h, u, k, d, again)
    requires k < MOVES && MoveOut(sp, u, k).None?
    ensures Expanding(sp, starts, goals, dist, prev, ps, done, h, u, k + 1, d, again)
  {
    hide MoveOut, Exploring, AllRelaxed;
  }

  lemma EndsExpanding(sp: Space, starts: seq<Cell>, goals: seq<Cell>, dist: Dists, prev: Prevs, ps: Paths,
                      done: set<Node>, h: seq<Item<Node>>, u: Node, d: real, again: bool)
    requires Expanding(sp, starts, goals, dist, prev, ps, done, h, u, MOVES, d, again)
    ensures Stage(sp, starts, goals, dist, prev, ps, done, h)
  {
    hide MoveOut, Exploring, Relaxed, F;
    ReachedUnderExpanding(sp, starts, goals, dist, prev, ps, done, h, u, MOVES, d, again);
    forall n | n in done ensures Relaxed(sp, dist, n, MOVES) {
      if n != u { assert n in done - {u}; }
    }
  }

  lemma StartsExpanding(sp: Space, starts: seq<Cell>, goals: seq<Cell>, dist: Dists, prev: Prevs, ps: Paths,
                        done: set<Node>, h: seq<Item<Node>>, h': seq<Item<Node>>, it: Item<Node>)
    requires Stage(sp, starts, goals, dist, prev, ps, done, h)
    requires forall y :: y in h <==> y == it || y in h'
    requires forall y :: y in h ==> it.d <= y.d
    ensures it.n in dist && it.n in ps && it.n in AllNodes(sp.e) && F(sp, goals, dist, it.n) <= it.d
    ensures F(sp, goals, dist, it.n) == it.d && it.n.c !in goals ==>
      Expanding(sp, starts, goals, dist, prev, ps, done + {it.n}, h', it.n, 0, it.d, it.n in done)
    ensures F(sp, goals, dist, it.n) < it.d ==> Stage(sp, starts, goals, dist, prev, ps, done, h')
  {
    hide MoveOut, Estimate, AllNodes, RouteSpace.Space.LegalPath;
    assert it in h;
    ReachedIsNode(sp, starts, dist, prev, ps, it.n);
  }

  /** Opens every start the net may use. */
  method OpenStarts(g: CellGrid, starts: seq<Cell>, goals: seq<Cell>, net: string, sp: Space)
    returns (open: HeapQ<Node>, dist: Dists, ghost ps: Paths)
    requires g.Valid() && sp.Sane() && sp.e == g.e && sp.own == g.owner[..] && sp.net == net
    ensures fresh(open) && open.Valid()
    ensures Stage(sp, starts, goals, dist, map[], ps, {}, open.a)
  {
    hide MoveOut, Estimate;
    open := new HeapQ<Node>();
    dist, ps := map[], map[];
    for i := 0 to |starts|
      invariant open.Valid() && fresh(open)
      invariant Exploring(sp, starts[..i], goals, dist, map[], ps, {}, open.a)
    {
      var s := starts[i];
      assert starts[..i + 1] == starts[..i] + [s];
      if !g.UsableBy(s, net) { continue; }
      var n := Node(s, NO_DIR);
      ghost var dist0, ps0, h0 := dist, ps, open.a;
      dist := dist[n := 0.0];
      open.Push(Item(n, Estimate(sp, goals, s)));
      ps := ps[n := [s]];
      StartOpened(sp, starts[..i], goals, dist0, ps0, h0, open.a, s);
    }
    assert starts[..|starts|] == starts;
  }

  lemma StartOpened(sp: Space, starts: seq<Cell>, goals: seq<Cell>, dist: Dists, ps: Paths,
                    h: seq<Item<Node>>, h': seq<Item<Node>>, s: Cell)
    requires Exploring(sp, starts, goals, dist, map[], ps, {}, h)
    requires sp.Free(s) && forall y :: y in h' <==> y == Item(Node(s, NO_DIR), Estimate(sp, goals, s)) || y in h
    ensures Exploring(sp, starts + [s], goals, dist[Node(s, NO_DIR) := 0.0], map[], ps[Node(s, NO_DIR) := [s]], {}, h')
  {
    hide MoveOut, Estimate;
    var n := Node(s, NO_DIR);
    var dist', ps', starts' := dist[n := 0.0], ps[n := [s]], starts + [s];
    forall m | m in dist' ensures TracedAt(sp, starts', dist', map[], ps', m) {
      if m != n { assert TracedAt(sp, starts, dist, map[], ps, m); }
    }
    forall m | m in dist' ensures Item(m, F(sp, goals, dist', m)) in h' {
      if m != n { assert Item(m, F(sp, goals, dist, m)) in h; }
    }
    forall x | x in h' ensures x.n in dist' && F(sp, goals, dist', x.n) <= x.d {
      if x in h {
        assert F(sp, goals, dist, x.n) <= x.d;
        if x.n == n { StartIsCheapest(sp, starts, dist, ps, n); }
      }
    }
  }

  lemma StartIsCheapest(sp: Space, starts: seq<Cell>, dist: Dists, ps: Paths, n: Node)
    requires sp.Sane() && Traced(sp, starts, dist, map[], ps) && n in dist
    ensures dist[n] >= 0.0
  {
    assert TracedAt(sp, starts, dist, map[], ps, n);
    CostIsNonNegative(sp, ps[n]);
  }

  /** Finds a path no legal one is cheaper than, between the starts and the goals; without one, there is none,
      or it was told to stop. */
  method Search(g: CellGrid, starts: seq<Cell>, goals: seq<Cell>, net: string, sp: Space, stop: nat -> bool)
    returns (path: Option<seq<Cell>>, stopped: bool)
    requires g.Valid() && sp.Sane() && sp.e == g.e && sp.own == g.owner[..] && sp.net == net
    ensures path.Some? ==> IsBest(sp, starts, goals, path.value)
    ensures path.Some? ==> forall w :: IsRoute(sp, starts, goals, w) ==> Price(sp, path.value) <= Price(sp, w)
    ensures path.None? && !stopped ==> forall w :: !IsRoute(sp, starts, goals, w)
    ensures stopped ==> exists k :: stop(k)
  {
    hide MoveOut, Exploring, AllRelaxed, Expanding, Stage, Estimate, IsBest, IsRoute, AllNodes, Price;
    var prev: Prevs := map[];
    var open, dist, ps := OpenStarts(g, starts, goals, net, sp);
    ghost var done: set<Node> := {};
    var pops := 0;
    while open.a != []
      invariant fresh(open) && open.Valid()
      invariant Stage(sp, starts, goals, dist, prev, ps, done, open.a)
      decreases AllNodes(sp.e) - done, |open.a|
    {
      if pops % 1024 == 0 && stop(pops) { return None, true; }
      pops := pops + 1;
      ghost var before := open.a;
      var cur := open.Pop();
      assert |open.a| < |before| by { assert |multiset(open.a) + multiset{cur}| == |multiset(before)|; }
      StartsExpanding(sp, starts, goals, dist, prev, ps, done, before, open.a, cur);
      if cur.d - Estimate(sp, goals, cur.n.c) > dist[cur.n] { continue; }
      if cur.n.c in goals {
        GoalIsBest(sp, starts, goals, dist, prev, ps, done, before, cur);
        var p := Unwind(sp, prev, cur.n, starts, goals, dist, ps, done, before);
        BestByPrice(sp, starts, goals, p);
        return Some(p), false;
      }
      ghost var again := cur.n in done;
      done := done + {cur.n};
      dist, prev, ps := ExpandState(g, net, open, dist, prev, cur.n, sp, goals, starts, ps, done, cur.d, again);
    }
    NoneLeft(sp, starts, goals, dist, prev, ps, done);
    return None, false;
  }

  /** What costs least has the least price. */
  lemma BestByPrice(sp: Space, starts: seq<Cell>, goals: seq<Cell>, p: seq<Cell>)
    requires sp.Sane() && IsBest(sp, starts, goals, p)
    ensures forall w :: IsRoute(sp, starts, goals, w) ==> Price(sp, p) <= Price(sp, w)
  {
    hide Space.LegalPath, Space.Cost, Price;
    CostIsPrice(sp, p);
    forall w | IsRoute(sp, starts, goals, w) ensures Price(sp, p) <= Price(sp, w) { CostIsPrice(sp, w); }
  }

  ghost function Backwards<T>(s: seq<T>): (r: seq<T>)
    ensures |r| == |s| && forall i :: 0 <= i < |s| ==> r[i] == s[|s| - 1 - i]
  {
    seq(|s|, i requires 0 <= i < |s| => s[|s| - 1 - i])
  }

  lemma LastStep(sp: Space, starts: seq<Cell>, goals: seq<Cell>, dist: Dists, prev: Prevs, ps: Paths,
                 done: set<Node>, h: seq<Item<Node>>, n: Node)
    requires Stage(sp, starts, goals, dist, prev, ps, done, h) && n in dist && n in ps
    ensures ps[n] != [] && ps[n][|ps[n]| - 1] == n.c
    ensures n in prev ==> prev[n] in dist && prev[n] in ps && ps[n] == ps[prev[n]] + [n.c]
    ensures n !in prev ==> |ps[n]| == 1
  {
    hide MoveOut, Estimate, AllRelaxed, Begun, Queued, Waiting;
    assert TracedAt(sp, starts, dist, prev, ps, n);
    PathIsNotEmpty(sp, ps[n]);
  }

  /** Follows `prev` back to a start and turns the cells round. The guard against a cycle never fires. */
  method Unwind(ghost sp: Space, prev: Prevs, end: Node, ghost starts: seq<Cell>, ghost goals: seq<Cell>,
                ghost dist: Dists, ghost ps: Paths, ghost done: set<Node>, ghost h: seq<Item<Node>>)
    returns (out: seq<Cell>)
    requires Stage(sp, starts, goals, dist, prev, ps, done, h) && end in dist && end in ps
    ensures out == ps[end]
  {
    hide Stage;
    out := [];
    var at := end;
    var seen: set<Node> := {};
    ghost var whole := ps[end];
    while true
      invariant at in dist && at in ps && |ps[at]| + |out| == |whole|
      invariant whole[..|ps[at]|] == ps[at]
      invariant forall i :: 0 <= i < |out| ==> out[i] == whole[|whole| - 1 - i]
      invariant forall n :: n in seen ==> n in ps && |ps[n]| > |ps[at]|
      decreases |ps[at]|
    {
      LastStep(sp, starts, goals, dist, prev, ps, done, h, at);
      if at in seen { assert false; }
      seen := seen + {at};
      out := out + [at.c];
      if at !in prev { break; }
      at := prev[at];
    }
    assert Backwards(out) == whole;
    out := TurnedRound(out);
  }

  /** Swaps the ends inwards. */
  method TurnedRound(s: seq<Cell>) returns (out: seq<Cell>)
    ensures out == Backwards(s)
  {
    out := s;
    var i, j := 0, |out| - 1;
    while i < j
      invariant 0 <= i && i + j == |out| - 1 && |out| == |s| && j >= -1
      invariant forall k :: 0 <= k < i || j < k < |out| ==> out[k] == s[|out| - 1 - k]
      invariant forall k :: i <= k <= j ==> out[k] == s[k]
    {
      out := out[i := out[j]][j := out[i]];
      i, j := i + 1, j - 1;
    }
    assert out == Backwards(s);
  }
}
