/** What the router is looking for (route/astar.go): legal paths through the grid, and their cost.
    Nothing here mentions how the search goes about it. */
module RouteSpace {
  import opened Grid

  /** Everything a search takes as given. `root2` stands for the square root of two. */
  datatype Space = Space(e: Extent, own: seq<string>, net: string, viaOK: Cell -> bool,
                         pitch: real, via: real, bend: real, root2: real)
  {
    ghost predicate Sane() {
      |own| == e.Size() && pitch >= 0.0 && via >= 0.0 && bend >= 0.0
      && root2 * root2 == 2.0 && 1.0 < root2 < 2.0
    }

    predicate Free(c: Cell)
      requires |own| == e.Size()
    {
      Usable(e, own, net, c)
    }

    /** From `a` to `b` in one move: to any of the eight neighbours, cutting no occupied corner,
        or one layer up or down where a via fits. */
    ghost predicate LegalStep(a: Cell, b: Cell)
      requires |own| == e.Size()
    {
      Free(b) &&
      if a.layer == b.layer then
        && -1 <= b.x - a.x <= 1 && -1 <= b.y - a.y <= 1 && a != b
        && (a.x != b.x && a.y != b.y ==> Free(Cell(b.x, a.y, a.layer)) && Free(Cell(a.x, b.y, a.layer)))
      else
        a.x == b.x && a.y == b.y && -1 <= b.layer - a.layer <= 1 && viaOK(a)
    }

    ghost predicate LegalPath(p: seq<Cell>)
      requires |own| == e.Size()
    {
      p != [] && Free(p[0]) && forall i :: 0 < i < |p| ==> LegalStep(p[i - 1], p[i])
    }

    /** What a move costs, given the way the path was heading. */
    ghost function StepCost(d: int, a: Cell, b: Cell): real {
      if a.layer != b.layer then via
      else (if a.x != b.x && a.y != b.y then pitch * root2 else pitch)
           + (if d != NO_DIR && d != Heading(a, b) then bend else 0.0)
    }

    /** Length, plus a price for every bend and every via. */
    ghost function Cost(p: seq<Cell>): real
      requires p != []
    {
      if |p| == 1 then 0.0
      else Cost(p[..|p| - 1]) + StepCost(EndHeading(p[..|p| - 1]), p[|p| - 2], p[|p| - 1])
    }
  }

  /** No heading yet: at the start, and just after a via. */
  const NO_DIR := -1

  /** The eight ways of travel, clockwise from east. */
  const STEPS: seq<(int, int)> := [(1, 0), (1, 1), (0, 1), (-1, 1), (-1, 0), (-1, -1), (0, -1), (1, -1)]

  /** Which of the eight ways a move goes. */
  function Heading(a: Cell, b: Cell): int {
    var dx, dy := b.x - a.x, b.y - a.y;
    if a.layer != b.layer then NO_DIR
    else if dx > 0 then if dy > 0 then 1 else if dy == 0 then 0 else 7
    else if dx == 0 then if dy > 0 then 2 else 6
    else if dy > 0 then 3 else if dy == 0 then 4 else 5
  }

  function EndHeading(p: seq<Cell>): int
    requires p != []
  {
    if |p| == 1 then NO_DIR else Heading(p[|p| - 2], p[|p| - 1])
  }

  /** Search state: where the path stands and how it is heading. */
  datatype Node = Node(c: Cell, d: int)

  function EndNode(p: seq<Cell>): Node
    requires p != []
  {
    Node(p[|p| - 1], EndHeading(p))
  }

  lemma Extend(sp: Space, p: seq<Cell>, c: Cell)
    requires sp.Sane() && p != []
    ensures sp.LegalPath(p + [c]) <==> sp.LegalPath(p) && sp.LegalStep(p[|p| - 1], c)
    ensures EndNode(p + [c]) == Node(c, Heading(p[|p| - 1], c))
    ensures sp.Cost(p + [c]) == sp.Cost(p) + sp.StepCost(EndHeading(p), p[|p| - 1], c)
  {
    var q := p + [c];
    assert q[..|q| - 1] == p;
    if sp.LegalPath(q) {
      assert sp.LegalStep(q[|q| - 2], q[|q| - 1]);
      forall i | 0 < i < |p| ensures sp.LegalStep(p[i - 1], p[i]) { assert sp.LegalStep(q[i - 1], q[i]); }
    }
  }

  lemma {:induction false} CostIsNonNegative(sp: Space, p: seq<Cell>)
    requires sp.Sane() && p != []
    ensures sp.Cost(p) >= 0.0
  {
    if |p| > 1 {
      CostIsNonNegative(sp, p[..|p| - 1]);
      StepCostIsNonNegative(sp, EndHeading(p[..|p| - 1]), p[|p| - 2], p[|p| - 1]);
    }
  }

  lemma StepCostIsNonNegative(sp: Space, d: int, a: Cell, b: Cell)
    requires sp.Sane()
    ensures sp.StepCost(d, a, b) >= 0.0
  {
    assert sp.pitch * sp.root2 >= 0.0;
  }

  // ---- the estimate ----

  function Abs(n: int): nat { if n < 0 then -n else n }

  function Lesser(a: nat, b: nat): nat { if a < b then a else b }

  /** Octile distance between two cells, in cells: diagonals are cheaper per cell crossed. */
  function Octile(root2: real, a: Cell, b: Cell): real {
    Octants(root2, Abs(a.x - b.x), Abs(a.y - b.y))
  }

  function Octants(root2: real, dx: nat, dy: nat): real {
    (dx + dy) as real + Saving(root2, Lesser(dx, dy))
  }

  /** What `m` diagonals take off going along both axes: a negative number. */
  function Saving(root2: real, m: int): real {
    (root2 - 2.0) * (m as real)
  }

  /** Distance in cells to the nearest goal; layers and bends are ignored. */
  function Nearest(root2: real, x: Cell, goals: seq<Cell>): real {
    if goals == [] then 0.0
    else if |goals| == 1 then Octile(root2, x, goals[0])
    else
      var rest := Nearest(root2, x, goals[..|goals| - 1]);
      var d := Octile(root2, x, goals[|goals| - 1]);
      if d < rest then d else rest
  }

  function Estimate(sp: Space, goals: seq<Cell>, x: Cell): real {
    Nearest(sp.root2, x, goals) * sp.pitch
  }

  /** The length of a move, in cells. */
  function Stride(root2: real, a: Cell, b: Cell): real {
    if a.layer != b.layer then 0.0 else if a.x != b.x && a.y != b.y then root2 else 1.0
  }

  lemma SavingChange(root2: real, m: int)
    ensures Saving(root2, m + 1) == Saving(root2, m) + root2 - 2.0
  {
    var k, x := root2 - 2.0, m as real;
    assert (m + 1) as real == x + 1.0;
    assert k * (x + 1.0) == k * x + k;
  }

  /** Moving one cell along one axis changes the distance by at most one, along both by at most root2. */
  lemma OctantsChange(root2: real, dx: nat, dy: nat, dx': nat, dy': nat)
    requires 1.0 < root2 < 2.0
    requires -1 <= dx' - dx <= 1 && -1 <= dy' - dy <= 1
    ensures Octants(root2, dx, dy) <= root2 + Octants(root2, dx', dy')
    ensures dx == dx' || dy == dy' ==> Octants(root2, dx, dy) <= 1.0 + Octants(root2, dx', dy')
  {
    hide Saving;
    var m: int := Lesser(dx, dy);
    SavingChange(root2, m);
    SavingChange(root2, m - 1);
    assert -1 <= Lesser(dx', dy') - m <= 1;
  }

  /** One move brings the octile distance down by no more than its own length. */
  lemma OctileIsConsistent(root2: real, a: Cell, b: Cell, g: Cell)
    requires 1.0 < root2 < 2.0
    requires -1 <= b.x - a.x <= 1 && -1 <= b.y - a.y <= 1
    requires a.layer != b.layer ==> a.x == b.x && a.y == b.y
    requires a.layer == b.layer ==> a != b
    ensures Octile(root2, a, g) <= Stride(root2, a, b) + Octile(root2, b, g)
  {
    hide Octants;
    OctantsChange(root2, Abs(a.x - g.x), Abs(a.y - g.y), Abs(b.x - g.x), Abs(b.y - g.y));
  }

  lemma {:induction false} NearestIsConsistent(root2: real, a: Cell, b: Cell, goals: seq<Cell>)
    requires 1.0 < root2 < 2.0
    requires -1 <= b.x - a.x <= 1 && -1 <= b.y - a.y <= 1
    requires a.layer != b.layer ==> a.x == b.x && a.y == b.y
    requires a.layer == b.layer ==> a != b
    ensures Nearest(root2, a, goals) <= Stride(root2, a, b) + Nearest(root2, b, goals)
  {
    if goals != [] {
      OctileIsConsistent(root2, a, b, goals[|goals| - 1]);
      if |goals| > 1 { NearestIsConsistent(root2, a, b, goals[..|goals| - 1]); }
    }
  }

  /** The estimate is consistent: no move is cheaper than the estimate it works off. */
  lemma EstimateIsConsistent(sp: Space, goals: seq<Cell>, d: int, a: Cell, b: Cell)
    requires sp.Sane() && sp.LegalStep(a, b)
    ensures Estimate(sp, goals, a) <= sp.StepCost(d, a, b) + Estimate(sp, goals, b)
  {
    hide Nearest, Stride, Space.StepCost, Space.LegalStep;
    StepMovesOne(sp, a, b);
    NearestIsConsistent(sp.root2, a, b, goals);
    ScaleSum(Nearest(sp.root2, a, goals), Stride(sp.root2, a, b), Nearest(sp.root2, b, goals), sp.pitch);
    StrideIsPaidFor(sp, d, a, b);
  }

  lemma StepMovesOne(sp: Space, a: Cell, b: Cell)
    requires |sp.own| == sp.e.Size() && sp.LegalStep(a, b)
    ensures -1 <= b.x - a.x <= 1 && -1 <= b.y - a.y <= 1
    ensures a.layer != b.layer ==> a.x == b.x && a.y == b.y
    ensures a.layer == b.layer ==> a != b
  {
    hide Usable;
  }

  /** A move costs at least its length. */
  lemma StrideIsPaidFor(sp: Space, d: int, a: Cell, b: Cell)
    requires sp.Sane()
    ensures Stride(sp.root2, a, b) * sp.pitch <= sp.StepCost(d, a, b)
  {
    assert sp.root2 * sp.pitch == sp.pitch * sp.root2;
  }

  lemma ScaleSum(n: real, s: real, m: real, k: real)
    requires n <= s + m && k >= 0.0
    ensures n * k <= s * k + m * k
  {
    assert (s + m - n) * k >= 0.0;
    assert (s + m - n) * k == s * k + m * k - n * k;
  }

  lemma OctileIsNonNegative(root2: real, a: Cell, b: Cell)
    requires 1.0 < root2 < 2.0
    ensures Octile(root2, a, b) >= 0.0 && Octile(root2, a, a) == 0.0
  {
    var m := Lesser(Abs(a.x - b.x), Abs(a.y - b.y)) as real;
    assert (root2 - 2.0) * m >= -1.0 * m;
    assert (root2 - 2.0) * 0.0 == 0.0;
  }

  lemma {:induction false} NearestAtGoal(root2: real, x: Cell, goals: seq<Cell>)
    requires 1.0 < root2 < 2.0
    ensures Nearest(root2, x, goals) >= 0.0
    ensures x in goals ==> Nearest(root2, x, goals) == 0.0
  {
    if goals != [] {
      OctileIsNonNegative(root2, x, goals[|goals| - 1]);
      if |goals| > 1 {
        NearestAtGoal(root2, x, goals[..|goals| - 1]);
        assert x in goals ==> x in goals[..|goals| - 1] || x == goals[|goals| - 1];
      }
    }
  }

  /** Along a legal path the cost still to come is at least what the estimate drops by. */
  lemma {:induction false} EstimateAlong(sp: Space, goals: seq<Cell>, p: seq<Cell>, j: nat)
    requires sp.Sane() && 0 < j <= |p| && sp.LegalPath(p)
    ensures sp.Cost(p[..j]) + Estimate(sp, goals, p[j - 1]) <= sp.Cost(p) + Estimate(sp, goals, p[|p| - 1])
    decreases |p| - j
  {
    hide Space.StepCost, Estimate, Space.LegalStep, Space.Cost, EndHeading;
    if j < |p| {
      EstimateAlong(sp, goals, p, j + 1);
      assert p[..j + 1] == p[..j] + [p[j]];
      assert sp.LegalStep(p[j - 1], p[j]);
      Extend(sp, p[..j], p[j]);
      EstimateIsConsistent(sp, goals, EndHeading(p[..j]), p[j - 1], p[j]);
    } else {
      assert p[..j] == p;
    }
  }
}
