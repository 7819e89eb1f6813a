/** The router's search space (route/grid.go): who occupies each cell, per layer, at one pitch. */
module Grid {

  datatype Cell = Cell(x: int, y: int, layer: int)

  /** Marks a cell nothing may route through; no net is named so. */
  const BLOCKED := "\0blocked"

  /** The extent of a grid, and where in the owner slice a cell is kept. */
  datatype Extent = Extent(nx: nat, ny: nat, layers: nat) {
    function Size(): nat { layers * ny * nx }

    predicate Inside(c: Cell) {
      0 <= c.x < nx && 0 <= c.y < ny && 0 <= c.layer < layers
    }

    function Index(c: Cell): int { (c.layer * ny + c.y) * nx + c.x }

    lemma IndexInRange(c: Cell)
      requires Inside(c)
      ensures 0 <= Index(c) < Size()
    {
      RowInRange(c.layer, c.y, layers, ny);
      RowInRange(c.layer * ny + c.y, c.x, layers * ny, nx);
    }

    /** Different cells are kept in different places. */
    lemma IndexIsInjective(c: Cell, e: Cell)
      requires Inside(c) && Inside(e) && Index(c) == Index(e)
      ensures c == e
    {
      RowIsInjective(c.layer * ny + c.y, c.x, e.layer * ny + e.y, e.x, nx);
      RowIsInjective(c.layer, c.y, e.layer, e.y, ny);
    }
  }

  /** A place in a row comes before every later row. */
  lemma RowsInOrder(row: int, at: int, next: int, n: int)
    requires row < next && 0 <= at < n
    ensures row * n + at < next * n
  {
    assert row * n + n == (row + 1) * n <= next * n;
  }

  lemma RowInRange(row: int, at: int, rows: int, n: int)
    requires 0 <= row < rows && 0 <= at < n
    ensures 0 <= row * n + at < rows * n
  {
    RowsInOrder(row, at, rows, n);
  }

  lemma RowIsInjective(row: int, at: int, row': int, at': int, n: int)
    requires 0 <= at < n && 0 <= at' < n && row * n + at == row' * n + at'
    ensures row == row' && at == at'
  {
    if row < row' { RowsInOrder(row, at, row', n); }
    if row' < row { RowsInOrder(row', at', row, n); }
  }

  /** Who occupies a cell, and whether a net may: it is clear, or already that net's. */
  function OwnerIn(e: Extent, own: seq<string>, c: Cell): string
    requires |own| == e.Size() && e.Inside(c)
  {
    e.IndexInRange(c);
    own[e.Index(c)]
  }

  predicate Usable(e: Extent, own: seq<string>, net: string, c: Cell)
    requires |own| == e.Size()
  {
    e.Inside(c) && (OwnerIn(e, own, c) == "" || OwnerIn(e, own, c) == net)
  }

  /** A cell two nets may use, all may; one that has an owner is that owner's alone, and a blocked one no net's. */
  lemma WhoMayUse(e: Extent, own: seq<string>, c: Cell, a: string, b: string)
    requires |own| == e.Size() && e.Inside(c) && a != b && "" !in {a, b} && BLOCKED !in {a, b}
    ensures Usable(e, own, a, c) && Usable(e, own, b, c) <==> OwnerIn(e, own, c) == ""
    ensures OwnerIn(e, own, c) == a ==> Usable(e, own, a, c) && !Usable(e, own, b, c)
    ensures OwnerIn(e, own, c) == BLOCKED ==> !Usable(e, own, a, c) && !Usable(e, own, b, c)
  {
  }

  class CellGrid {
    const e: Extent
    const owner: array<string>

    ghost predicate Valid()
      reads this
    {
      owner.Length == e.Size()
    }

    constructor (nx: nat, ny: nat, layers: nat)
      ensures Valid() && e == Extent(nx, ny, layers) && fresh(owner)
      ensures forall c :: e.Inside(c) ==> OwnerIn(e, owner[..], c) == ""
    {
      hide Extent.Size, Extent.Index;
      e := Extent(nx, ny, layers);
      owner := new string[Extent(nx, ny, layers).Size()](_ => "");
      new;
      forall c | e.Inside(c) ensures OwnerIn(e, owner[..], c) == "" { e.IndexInRange(c); }
    }

    predicate UsableBy(c: Cell, net: string)
      requires Valid()
      reads this, owner
      ensures UsableBy(c, net) <==> Usable(e, owner[..], net, c)
    {
      if !e.Inside(c) then false
      else
        e.IndexInRange(c);
        owner[e.Index(c)] == "" || owner[e.Index(c)] == net
    }

    lemma WriteOne(before: seq<string>, after: seq<string>, c: Cell, o: string)
      requires e.Inside(c) && |before| == e.Size() && 0 <= e.Index(c) < |before|
      requires after == before[e.Index(c) := o]
      ensures forall k :: e.Inside(k) ==> OwnerIn(e, after, k) == if k == c then o else OwnerIn(e, before, k)
    {
      hide Extent.Size, Extent.Index;
      forall k | e.Inside(k) ensures OwnerIn(e, after, k) == if k == c then o else OwnerIn(e, before, k) {
        e.IndexInRange(k);
        if e.Index(k) == e.Index(c) { e.IndexIsInjective(k, c); }
      }
    }

    /** Makes one cell unusable by anyone, so a refused path is not found again. */
    method Block(c: Cell)
      requires Valid()
      modifies owner
      ensures forall k :: e.Inside(k) ==>
        OwnerIn(e, owner[..], k) == if k == c then BLOCKED else old(OwnerIn(e, owner[..], k))
    {
      if e.Inside(c) {
        e.IndexInRange(c);
        ghost var before := owner[..];
        owner[e.Index(c)] := BLOCKED;
        WriteOne(before, owner[..], c, BLOCKED);
      }
    }

    /** Records new copper; a cell somebody else holds, or that is blocked, stays as it is. */
    method Claim(c: Cell, net: string)
      requires Valid()
      modifies owner
      ensures forall k :: e.Inside(k) ==>
        OwnerIn(e, owner[..], k) ==
          if k == c && old(OwnerIn(e, owner[..], k)) == "" then net else old(OwnerIn(e, owner[..], k))
    {
      if !e.Inside(c) { return; }
      e.IndexInRange(c);
      var i := e.Index(c);
      ghost var before := owner[..];
      if owner[i] == "" || owner[i] == net {
        owner[i] := net;
        WriteOne(before, owner[..], c, net);
      }
    }

    /** Gives every cell of a net back. */
    method Release(net: string)
      requires Valid()
      modifies owner
      ensures forall k :: e.Inside(k) ==>
        OwnerIn(e, owner[..], k) == if old(OwnerIn(e, owner[..], k)) == net then "" else old(OwnerIn(e, owner[..], k))
    {
      for i := 0 to owner.Length
        invariant forall q :: 0 <= q < i ==> owner[q] == if old(owner[q]) == net then "" else old(owner[q])
        invariant forall q :: i <= q < owner.Length ==> owner[q] == old(owner[q])
      {
        if owner[i] == net { owner[i] := ""; }
      }
      forall k | e.Inside(k)
        ensures OwnerIn(e, owner[..], k) == if old(OwnerIn(e, owner[..], k)) == net then "" else old(OwnerIn(e, owner[..], k))
      {
        e.IndexInRange(k);
      }
    }
  }
}
