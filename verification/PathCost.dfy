/** What a path costs (route/astar.go), counted on its cells: so many steps along the grid, so many across it, so many
    changes of layer and so many turns. */
module PathCost {
  import opened Grid
  import opened RouteSpace

  /** The step from cell `i` to the next keeps the layer and changes one coordinate. */
  predicate Straightforward(p: seq<Cell>, i: nat)
    requires i + 1 < |p|
  {
    p[i].layer == p[i + 1].layer && (p[i].x == p[i + 1].x || p[i].y == p[i + 1].y)
  }

  /** The step from cell `i` to the next keeps the layer and changes both coordinates. */
  predicate Diagonal(p: seq<Cell>, i: nat)
    requires i + 1 < |p|
  {
    p[i].layer == p[i + 1].layer && p[i].x != p[i + 1].x && p[i].y != p[i + 1].y
  }

  predicate ChangesLayer(p: seq<Cell>, i: nat)
    requires i + 1 < |p|
  {
    p[i].layer != p[i + 1].layer
  }

  /** The path comes to cell `i` one way and leaves it another, all on one layer. */
  predicate TurnsAt(p: seq<Cell>, i: nat)
    requires i + 1 < |p|
  {
    && i > 0 && p[i - 1].layer == p[i].layer == p[i + 1].layer
    && (p[i + 1].x - p[i].x != p[i].x - p[i - 1].x || p[i + 1].y - p[i].y != p[i].y - p[i - 1].y)
  }

  datatype Kind = Straights | Diagonals | Layers | Turns

  predicate Is(p: seq<Cell>, kind: Kind, i: nat)
    requires i + 1 < |p|
  {
    match kind
    case Straights => Straightforward(p, i)
    case Diagonals => Diagonal(p, i)
    case Layers => ChangesLayer(p, i)
    case Turns => TurnsAt(p, i)
  }

  /** How many of a path's first `n` steps are of a kind, or turn where they begin. */
  function HowMany(p: seq<Cell>, kind: Kind, n: nat): nat
    requires n < |p|
  {
    if n == 0 then 0 else HowMany(p, kind, n - 1) + if Is(p, kind, n - 1) then 1 else 0
  }

  function Part(price: real, count: nat): real { price * count as real }

  /** What a diagonal step costs. */
  function Across(sp: Space): real { sp.pitch * sp.root2 }

  /** The sum over a path's first `n` steps: a price for each kind, times how many there are. */
  ghost function PriceOf(sp: Space, p: seq<Cell>, n: nat): real
    requires n < |p|
  {
    Part(sp.pitch, HowMany(p, Straights, n)) + Part(Across(sp), HowMany(p, Diagonals, n))
    + Part(sp.via, HowMany(p, Layers, n)) + Part(sp.bend, HowMany(p, Turns, n))
  }

  ghost function Price(sp: Space, p: seq<Cell>): real
    requires p != []
  {
    PriceOf(sp, p, |p| - 1)
  }

  lemma OneMorePart(price: real, count: nat)
    ensures Part(price, count + 1) == Part(price, count) + price && Part(price, 0) == 0.0
  {
  }

  /** Two legal steps on one layer head the same way exactly when they are the same step. */
  lemma SameHeading(sp: Space, a: Cell, b: Cell, c: Cell)
    requires |sp.own| == sp.e.Size() && sp.LegalStep(a, b) && sp.LegalStep(b, c) && a.layer == b.layer == c.layer
    ensures Heading(a, b) != NO_DIR
    ensures Heading(a, b) == Heading(b, c) <==> c.x - b.x == b.x - a.x && c.y - b.y == b.y - a.y
  {
    hide Usable;
  }

  /** What one step costs is the price of its kind, and of a turn if it makes one. */
  lemma StepIsPriced(sp: Space, p: seq<Cell>, i: nat)
    requires sp.Sane() && sp.LegalPath(p) && i + 1 < |p|
    ensures sp.StepCost(EndHeading(p[..i + 1]), p[i], p[i + 1]) ==
      (if ChangesLayer(p, i) then sp.via else if Diagonal(p, i) then Across(sp) else sp.pitch)
      + if TurnsAt(p, i) then sp.bend else 0.0
  {
    hide Usable;
    assert sp.LegalStep(p[i], p[i + 1 - 0]) by { assert sp.LegalStep(p[i + 1 - 1], p[i + 1]); }
    if i > 0 {
      assert sp.LegalStep(p[i - 1], p[i]);
      assert p[..i + 1][i - 1] == p[i - 1] && p[..i + 1][i] == p[i];
      if p[i - 1].layer == p[i].layer == p[i + 1].layer { SameHeading(sp, p[i - 1], p[i], p[i + 1]); }
    }
  }

  lemma NothingPriced(sp: Space, p: seq<Cell>)
    requires p != []
    ensures PriceOf(sp, p, 0) == 0.0
  {
    hide Part, Across;
    OneMorePart(sp.pitch, 0);
    OneMorePart(Across(sp), 0);
    OneMorePart(sp.via, 0);
    OneMorePart(sp.bend, 0);
  }

  lemma OneMorePriced(sp: Space, p: seq<Cell>, n: nat)
    requires 0 < n < |p|
    ensures PriceOf(sp, p, n) == PriceOf(sp, p, n - 1)
      + (if ChangesLayer(p, n - 1) then sp.via else if Diagonal(p, n - 1) then Across(sp) else sp.pitch)
      + if TurnsAt(p, n - 1) then sp.bend else 0.0
  {
    hide Part, TurnsAt, Across;
    OneMorePart(sp.pitch, HowMany(p, Straights, n - 1));
    OneMorePart(Across(sp), HowMany(p, Diagonals, n - 1));
    OneMorePart(sp.via, HowMany(p, Layers, n - 1));
    OneMorePart(sp.bend, HowMany(p, Turns, n - 1));
  }

  lemma {:induction false} CostUpTo(sp: Space, p: seq<Cell>, n: nat)
    requires sp.Sane() && sp.LegalPath(p) && n < |p|
    ensures sp.Cost(p[..n + 1]) == PriceOf(sp, p, n)
  {
    hide Space.StepCost, EndHeading, PriceOf, Diagonal, ChangesLayer, TurnsAt, Across;
    if n == 0 {
      NothingPriced(sp, p);
    } else {
      CostUpTo(sp, p, n - 1);
      assert p[..n + 1] == p[..n] + [p[n]];
      Extend(sp, p[..n], p[n]);
      StepIsPriced(sp, p, n - 1);
      OneMorePriced(sp, p, n);
    }
  }

  /** Main result on cost: what a legal path costs is what its steps, its changes of layer and its turns come to,
      counted on the cells. */
  lemma CostIsPrice(sp: Space, p: seq<Cell>)
    requires sp.Sane() && sp.LegalPath(p)
    ensures sp.Cost(p) == Price(sp, p)
  {
    hide Space.Cost, PriceOf;
    CostUpTo(sp, p, |p| - 1);
    assert p[..|p|] == p;
  }

  /** A cell of the grid without an owner, or with this net for one. */
  ghost predicate MayBeOn(sp: Space, c: Cell)
    requires |sp.own| == sp.e.Size()
  {
    sp.e.Inside(c) && OwnerIn(sp.e, sp.own, c) in {"", sp.net}
  }

  /** The next cell is one of the eight around this, with both beside a diagonal step for the net to be on too; or the
      one straight above or below, where a via may stand. */
  ghost predicate GoesOn(sp: Space, p: seq<Cell>, i: nat)
    requires |sp.own| == sp.e.Size() && i + 1 < |p|
  {
    var a, b := p[i], p[i + 1];
    && a != b && -1 <= b.x - a.x <= 1 && -1 <= b.y - a.y <= 1 && -1 <= b.layer - a.layer <= 1
    && (ChangesLayer(p, i) ==> a.x == b.x && a.y == b.y && sp.viaOK(a))
    && (Diagonal(p, i) ==> MayBeOn(sp, Cell(b.x, a.y, a.layer)) && MayBeOn(sp, Cell(a.x, b.y, a.layer)))
  }

  /** What makes a path legal: only cells the net may be on, each going on to the next. */
  lemma LegalPathMeans(sp: Space, p: seq<Cell>)
    requires |sp.own| == sp.e.Size() && p != []
    ensures sp.LegalPath(p) <==>
      (forall i :: 0 <= i < |p| ==> MayBeOn(sp, p[i])) && forall i :: 0 <= i < |p| - 1 ==> GoesOn(sp, p, i)
  {
    hide OwnerIn;
    if sp.LegalPath(p) {
      forall i | 0 <= i < |p| ensures MayBeOn(sp, p[i]) { if i > 0 { assert sp.LegalStep(p[i - 1], p[i]); } }
      forall i | 0 <= i < |p| - 1 ensures GoesOn(sp, p, i) { assert sp.LegalStep(p[i + 1 - 1], p[i + 1]); }
    }
    if (forall i :: 0 <= i < |p| ==> MayBeOn(sp, p[i])) && (forall i :: 0 <= i < |p| - 1 ==> GoesOn(sp, p, i)) {
      forall i | 0 < i < |p| ensures sp.LegalStep(p[i - 1], p[i]) { assert GoesOn(sp, p, i - 1); }
    }
  }
}
