/** Where along a track there is room (tune/meander.go): the room is profiled in steps, every contiguous stretch is
    scored by what it could hold, and the best that do not overlap are taken. */
module RoomBeside {
  import opened Geometry
  import opened Euclid
  import Meander
  import A = Areas
  import opened Sorting
  import opened Stretches

  /** What is asked about: the areas allowed, the style, and whether copper of this width from one point to another
      would clear everything. */
  datatype Probe = Probe(areas: seq<Rect>, st: Style, dist: Distance, root2: real, width: real, clears: (Pt, Pt) -> bool) {
    predicate Sane() { st.Sane() && width > 0.0 }
  }

  /** A line of steps along a track. */
  datatype Line = Line(from: Pt, u: Pt, step: real) {
    function At(k: nat): real { Times(k as real, step) }

    function Place(k: nat): Pt { from.Add(Scale(u, At(k))) }

    ghost predicate Ok() { Sq(u) == 1.0 && step > 0.0 }
  }

  // ---- how far out copper fits ----

  /** How many steps a width apart, and one more, it takes to go so far out. */
  function Steps(amp: real, width: real): int { if width == 0.0 then 0 else 1 - Over(-amp, width).Floor }

  function Offset(amp: real, i: nat, n: int): real { if n == 0 then 0.0 else Times(i as real, Over(amp, n as real)) }

  predicate ClearAt(pr: Probe, a: Pt, c: Pt, side: Pt, off: real) { pr.clears(a.Add(Scale(side, off)), c.Add(Scale(side, off))) }

  /** A stretch moved aside by one step after another, so far out, clears everything each time. */
  predicate FitsOut(pr: Probe, a: Pt, c: Pt, side: Pt, amp: real) {
    var n := Steps(amp, pr.width);
    forall i :: 0 <= i <= n ==> ClearAt(pr, a, c, side, Offset(amp, i, n))
  }

  method FitsTo(pr: Probe, a: Pt, c: Pt, side: Pt, amp: real) returns (ok: bool)
    ensures ok == FitsOut(pr, a, c, side, amp)
  {
    hide Steps, Offset, ClearAt;
    var n := Steps(amp, pr.width);
    ok := true;
    var i := 0;
    while i <= n
      invariant 0 <= i && ok == forall k :: 0 <= k < i && k <= n ==> ClearAt(pr, a, c, side, Offset(amp, k, n))
      decreases n - i
    {
      ok := ok && ClearAt(pr, a, c, side, Offset(amp, i, n));
      i := i + 1;
    }
  }

  /** Halves the range so many times, keeping an end that fits and one that does not; the end that fits. */
  function Bisected(pr: Probe, a: Pt, c: Pt, side: Pt, lo: real, hi: real, n: nat): real
    decreases n
  {
    if n == 0 then lo
    else
      var mid := (lo + hi) / 2.0;
      if FitsOut(pr, a, c, side, mid) then Bisected(pr, a, c, side, mid, hi, n - 1) else Bisected(pr, a, c, side, lo, mid, n - 1)
  }

  /** The room the clearance check leaves beside a stretch, as the bisection finds it. */
  function ClearRoom(pr: Probe, a: Pt, c: Pt, side: Pt): real {
    if !FitsOut(pr, a, c, side, pr.st.minAmplitude) then 0.0
    else if FitsOut(pr, a, c, side, pr.st.maxAmplitude) then pr.st.maxAmplitude
    else Bisected(pr, a, c, side, pr.st.minAmplitude, pr.st.maxAmplitude, 8)
  }

  method MeasureRoom(pr: Probe, a: Pt, c: Pt, side: Pt) returns (room: real)
    ensures room == ClearRoom(pr, a, c, side)
  {
    hide FitsOut;
    var lo, hi := pr.st.minAmplitude, pr.st.maxAmplitude;
    var fits := FitsTo(pr, a, c, side, lo);
    if !fits { return 0.0; }
    fits := FitsTo(pr, a, c, side, hi);
    if fits { return hi; }
    for k := 0 to 8
      invariant Bisected(pr, a, c, side, lo, hi, 8 - k) == ClearRoom(pr, a, c, side)
    {
      var mid := (lo + hi) / 2.0;
      fits := FitsTo(pr, a, c, side, mid);
      if fits { lo := mid; } else { hi := mid; }
    }
    room := lo;
  }

  function TwoTo(n: nat): real { if n == 0 then 1.0 else 2.0 * TwoTo(n - 1) }

  lemma {:induction false} BisectedIs(pr: Probe, a: Pt, c: Pt, side: Pt, lo: real, hi: real,
                                      n: nat) returns (above: real)
    requires FitsOut(pr, a, c, side, lo) && !FitsOut(pr, a, c, side, hi)
    ensures
      var r := Bisected(pr, a, c, side, lo, hi, n);
      FitsOut(pr, a, c, side, r) && !FitsOut(pr, a, c, side, above) && Times(TwoTo(n), above - r) == hi - lo
      && (lo <= hi ==> lo <= r <= above <= hi)
    decreases n
  {
    hide FitsOut, Times;
    if n == 0 {
      above := hi;
      Distribute(0.0, 0.0, hi - lo);
    } else {
      var mid := (lo + hi) / 2.0;
      if FitsOut(pr, a, c, side, mid) {
        above := BisectedIs(pr, a, c, side, mid, hi, n - 1);
      } else {
        above := BisectedIs(pr, a, c, side, lo, mid, n - 1);
      }
      var r := Bisected(pr, a, c, side, lo, hi, n);
      Distribute(TwoTo(n - 1), TwoTo(n - 1), above - r);
    }
  }

  /** What the room measured is: so far out copper fits, and a 256th of the range farther there is a place where it does
      not, unless it fits as far out as is ever tried; none, exactly if not even the least excursion fits. */
  lemma ClearRoomIs(pr: Probe, a: Pt, c: Pt, side: Pt)
    ensures
      var r, least, most := ClearRoom(pr, a, c, side), pr.st.minAmplitude, pr.st.maxAmplitude;
      if !FitsOut(pr, a, c, side, least) then r == 0.0
      else
        FitsOut(pr, a, c, side, r) && (least <= most ==> least <= r <= most)
        && (r == most || exists above :: !FitsOut(pr, a, c, side, above) && 256.0 * (above - r) == most - least)
  {
    hide FitsOut, Bisected, TwoTo, Times;
    var least, most := pr.st.minAmplitude, pr.st.maxAmplitude;
    if FitsOut(pr, a, c, side, least) && !FitsOut(pr, a, c, side, most) {
      var above := BisectedIs(pr, a, c, side, least, most, 8);
      PowerOfEight();
      TimesIs(256.0, above - ClearRoom(pr, a, c, side));
    }
  }

  lemma PowerOfEight()
    ensures TwoTo(8) == 256.0
  {
    assert TwoTo(4) == 16.0;
  }

  lemma TimesIs(x: real, y: real)
    ensures Times(x, y) == x * y
  {
  }

  // ---- the whole swept area is looked at ----

  lemma StepsEnough(amp: real, width: real)
    requires width > 0.0 && amp >= 0.0
    ensures var n := Steps(amp, width); n >= 1 && Over(amp, n as real) <= width
  {
    var q := Over(-amp, width);
    var f, n := q.Floor as real, Steps(amp, width);
    OverTimes(-amp, width);
    if q > 0.0 { PositiveTimes(q, width); }
    A.SignOf(width, q - f);
    Distribute(q, f, width);
    Distribute(1.0, f, width);
    var e := Over(amp, n as real);
    OverTimes(amp, n as real);
    if e > width { PositiveTimes(e - width, n as real); }
    Distribute(e, width, n as real);
    Distribute(n as real, 0.0, width);
    hide Times, Over;
    assert n as real == 1.0 - f;
  }

  lemma OffsetMore(amp: real, i: nat, n: nat)
    requires n >= 1
    ensures Offset(amp, i + 1, n) == Offset(amp, i, n) + Over(amp, n as real)
    ensures Offset(amp, 0, n) == 0.0 && Offset(amp, n, n) == amp
  {
    var e := Over(amp, n as real);
    Distribute(i as real, 1.0, e);
    Distribute(0.0, 0.0, e);
    OverTimes(amp, n as real);
    Distribute(n as real, 0.0, e);
    Distribute(e, 0.0, n as real);
    assert (i + 1) as real == i as real + 1.0;
  }

  /** Between which two steps out something lies. */
  lemma {:induction false} StepOut(amp: real, n: nat, off: real, k: nat) returns (i: nat)
    requires 1 <= k && n >= 1 && 0.0 <= off <= Offset(amp, k, n)
    ensures i < k && Offset(amp, i, n) <= off <= Offset(amp, i + 1, n)
    decreases k
  {
    OffsetMore(amp, k, n);
    hide Offset;
    if k == 1 || off >= Offset(amp, k - 1, n) { i := k - 1; } else { i := StepOut(amp, n, off, k - 1); }
  }

  /** The steps are close enough together: whatever lies within so far out is within half a width of a line found
      clear. */
  lemma SweepIsWhole(pr: Probe, a: Pt, c: Pt, side: Pt, amp: real, off: real) returns (near: real)
    requires pr.Sane() && FitsOut(pr, a, c, side, amp) && 0.0 <= off <= amp
    ensures ClearAt(pr, a, c, side, near) && -pr.width / 2.0 <= off - near <= pr.width / 2.0
  {
    hide ClearAt;
    var n := Steps(amp, pr.width);
    StepsEnough(amp, pr.width);
    hide Steps;
    OffsetMore(amp, 0, n);
    var i := StepOut(amp, n, off, n);
    OffsetMore(amp, i, n);
    hide Offset;
    var lo, hi := Offset(amp, i, n), Offset(amp, i + 1, n);
    near := if off - lo <= hi - off then lo else hi;
  }

  // ---- the profile ----

  /** As much room as the clearance check leaves, and no more than keeps copper of this width within an area. */
  ghost predicate IsRoom(pr: Probe, a: Pt, c: Pt, side: Pt, p: real) {
    var room := ClearRoom(pr, a, c, side);
    if !A.AllowsSpan(pr.areas, a, c) then p == 0.0
    else if pr.areas == [] then p == room
    else
      && (p > 0.0 ==> p <= room && A.HasRoom(pr.areas, a, c, side, p + pr.width / 2.0))
      && (p == room || (p >= 0.0 && forall t :: t > p + pr.width / 2.0 ==> !A.HasRoom(pr.areas, a, c, side, t)))
  }

  method RoomOfStep(pr: Probe, a: Pt, c: Pt, side: Pt) returns (p: real)
    requires pr.Sane() && (side.x != 0.0 || side.y != 0.0)
    ensures IsRoom(pr, a, c, side, p)
  {
    if !A.AllowsSpan(pr.areas, a, c) { return 0.0; }
    p := MeasureRoom(pr, a, c, side);
    var toward := A.RoomToward(pr.areas, a, c, side);
    if toward.Some? {
      var lim := toward.value - pr.width / 2.0;
      if lim < p { p := Max(0.0, lim); }
    }
  }

  ghost predicate IsProfile(pr: Probe, l: Line, side: Pt, prof: seq<real>) {
    forall k :: 0 <= k < |prof| ==> IsRoom(pr, l.Place(k), l.Place(k + 1), side, prof[k])
  }

  method Profile(pr: Probe, l: Line, n: nat, side: Pt) returns (prof: seq<real>)
    requires pr.Sane() && (side.x != 0.0 || side.y != 0.0)
    ensures |prof| == n && IsProfile(pr, l, side, prof)
  {
    hide IsRoom, Line.Place;
    prof := [];
    for k := 0 to n
      invariant |prof| == k && IsProfile(pr, l, side, prof)
    {
      var p := RoomOfStep(pr, l.Place(k), l.Place(k + 1), side);
      prof := prof + [p];
    }
  }

  // ---- stretches ----

  /** Steps `i` up to `j`, on one side. */
  datatype Piece = Piece(i: nat, j: nat, side: Pt, amp: real, cap: real)

  /** The tightest step of a stretch. */
  function Least(prof: seq<real>, i: nat, j: nat): real
    requires i < j <= |prof|
  {
    if j == i + 1 then prof[i] else Min(Least(prof, i, j - 1), prof[j - 1])
  }

  function Span(step: real, i: nat, j: nat): real
    requires i <= j
  {
    Times((j - i) as real, step)
  }

  /** A stretch worth having: long enough, with room for the smallest excursion throughout, and able to hold
      something. */
  predicate Usable(pr: Probe, step: real, prof: seq<real>, i: nat, j: nat)
    requires i < j <= |prof|
  {
    && Least(prof, i, j) >= pr.st.minAmplitude && Span(step, i, j) >= pr.st.minRunLength
    && Capacity(pr.st, pr.root2, Span(step, i, j), Least(prof, i, j), pr.width) > 0.0
  }

  function PieceOf(pr: Probe, step: real, prof: seq<real>, side: Pt, i: nat, j: nat): Piece
    requires i < j <= |prof|
  {
    Piece(i, j, side, Least(prof, i, j), Capacity(pr.st, pr.root2, Span(step, i, j), Least(prof, i, j), pr.width))
  }

  predicate IsPiece(pr: Probe, step: real, prof: seq<real>, side: Pt, c: Piece) {
    c.i < c.j <= |prof| && Usable(pr, step, prof, c.i, c.j) && c == PieceOf(pr, step, prof, side, c.i, c.j)
  }

  /** A stretch is worth having if there is room for the least excursion beside each of its steps, they come to a long
      enough run, and so much of it with so little room beside can hold something. */
  lemma UsableMeans(pr: Probe, step: real, prof: seq<real>, i: nat, j: nat, amp: real)
    requires i < j <= |prof| && (forall k :: i <= k < j ==> amp <= prof[k]) && exists k :: i <= k < j && prof[k] == amp
    ensures Usable(pr, step, prof, i, j) <==>
      && (forall k :: i <= k < j ==> prof[k] >= pr.st.minAmplitude) && Times((j - i) as real, step) >= pr.st.minRunLength
      && Capacity(pr.st, pr.root2, Times((j - i) as real, step), amp, pr.width) > 0.0
  {
    hide Capacity, Times;
    var k := LeastIsSome(prof, i, j);
    var m :| i <= m < j && prof[m] == amp;
    LeastIsLeast(prof, i, j, m);
    assert Least(prof, i, j) == amp;
  }

  lemma {:induction false} LeastShrinks(prof: seq<real>, i: nat, j: nat, k: nat)
    requires i < j <= k <= |prof|
    ensures Least(prof, i, k) <= Least(prof, i, j)
    decreases k
  {
    if j < k { LeastShrinks(prof, i, j, k - 1); }
  }

  /** It is some step's. */
  lemma {:induction false} LeastIsSome(prof: seq<real>, i: nat, j: nat) returns (k: nat)
    requires i < j <= |prof|
    ensures i <= k < j && prof[k] == Least(prof, i, j)
    decreases j
  {
    k := j - 1;
    if j > i + 1 && Least(prof, i, j - 1) <= prof[j - 1] { k := LeastIsSome(prof, i, j - 1); }
  }

  lemma {:induction false} LeastIsLeast(prof: seq<real>, i: nat, j: nat, k: nat)
    requires i <= k < j <= |prof|
    ensures Least(prof, i, j) <= prof[k]
    decreases j
  {
    if k < j - 1 { LeastIsLeast(prof, i, j - 1, k); }
  }

  /** Every stretch beginning at `i` that is worth having. */
  method PiecesFrom(pr: Probe, step: real, prof: seq<real>, side: Pt, i: nat) returns (out: seq<Piece>)
    requires i < |prof|
    ensures forall c :: c in out <==> IsPiece(pr, step, prof, side, c) && c.i == i
  {
    hide Capacity, Span;
    out := [];
    var lo := prof[i];
    var j := i + 1;
    while j <= |prof|
      invariant i < j <= |prof| + 1
      invariant lo == Least(prof, i, if j == i + 1 then j else j - 1)
      invariant forall c :: c in out <==> IsPiece(pr, step, prof, side, c) && c.i == i && c.j < j
    {
      if prof[j - 1] < lo { lo := prof[j - 1]; }
      if lo < pr.st.minAmplitude {
        forall c | IsPiece(pr, step, prof, side, c) && c.i == i ensures c.j < j {
          if c.j >= j { LeastShrinks(prof, i, j, c.j); }
        }
        return;
      }
      var span := Span(step, i, j);
      if span >= pr.st.minRunLength {
        var cap := Capacity(pr.st, pr.root2, span, lo, pr.width);
        if cap > 0.0 { out := out + [Piece(i, j, side, lo, cap)]; }
      }
      j := j + 1;
    }
  }

  method Pieces(pr: Probe, step: real, prof: seq<real>, side: Pt) returns (out: seq<Piece>)
    ensures forall c :: c in out <==> IsPiece(pr, step, prof, side, c)
  {
    hide IsPiece;
    out := [];
    for i := 0 to |prof|
      invariant forall c :: c in out <==> IsPiece(pr, step, prof, side, c) && c.i < i
    {
      var more := PiecesFrom(pr, step, prof, side, i);
      out := out + more;
    }
    forall c | IsPiece(pr, step, prof, side, c) ensures c.i < |prof| { PieceBounds(pr, step, prof, side, c); }
  }

  lemma PieceBounds(pr: Probe, step: real, prof: seq<real>, side: Pt, c: Piece)
    requires IsPiece(pr, step, prof, side, c)
    ensures c.i < c.j <= |prof| && c.cap > 0.0
  {
  }

  // ---- taking the best ----

  predicate Overlap(a: Piece, b: Piece) { a.i < b.j && b.i < a.j }

  /** Taken stretches do not overlap, and whatever was not taken overlaps one that holds at least as much. */
  ghost predicate Best(cands: seq<Piece>, out: seq<Piece>) {
    && (forall c :: c in out ==> c in cands)
    && (forall a, b :: 0 <= a < b < |out| ==> !Overlap(out[a], out[b]))
    && (forall c :: c in cands ==> Beaten(c, out))
  }

  ghost predicate Beaten(c: Piece, out: seq<Piece>) { exists o :: o in out && Overlap(c, o) && o.cap >= c.cap }

  function ByCapacity(c: Piece): real { -c.cap }

  method TakeBest(cands: seq<Piece>, n: nat) returns (out: seq<Piece>)
    requires forall c :: c in cands ==> c.i < c.j <= n
    ensures Best(cands, out)
  {
    hide Taking, Best;
    var sorted := Sort(cands, ByCapacity);
    var taken: seq<bool> := seq(n, _ => false);
    out := [];
    NothingTaken(sorted, n);
    for k := 0 to |sorted|
      invariant |taken| == n && Taking(sorted, k, taken, out)
    {
      assert sorted[k] in sorted;
      var clash := IsTaken(taken, sorted[k]);
      if clash {
        LeaveOne(sorted, k, taken, out);
      } else {
        var before := taken;
        taken := Take(taken, sorted[k]);
        TakeOne(sorted, k, before, taken, out);
        out := out + [sorted[k]];
      }
    }
    AllTried(cands, sorted, taken, out);
  }

  /** The first `k` have been tried: what is taken is marked, does not overlap, and beats whatever was left. */
  ghost predicate Taking(sorted: seq<Piece>, k: nat, taken: seq<bool>, out: seq<Piece>)
    requires k <= |sorted|
  {
    && (forall c :: c in out ==> c in sorted[..k])
    && (forall a, b :: 0 <= a < b < |out| ==> !Overlap(out[a], out[b]))
    && (forall q :: 0 <= q < |taken| ==> (taken[q] <==> Covered(out, q)))
    && (forall c :: c in sorted[..k] ==> Beaten(c, out))
  }

  lemma NothingTaken(sorted: seq<Piece>, n: nat)
    ensures Taking(sorted, 0, seq(n, _ => false), [])
  {
  }

  lemma LeaveOne(sorted: seq<Piece>, k: nat, taken: seq<bool>, out: seq<Piece>)
    requires k < |sorted| && SortedBy(sorted, ByCapacity) && Taking(sorted, k, taken, out)
    requires sorted[k].j <= |taken| && exists q :: sorted[k].i <= q < sorted[k].j && taken[q]
    ensures Taking(sorted, k + 1, taken, out)
  {
    hide Beaten, SortedBy, Covered, Overlap;
    BeatenBy(sorted, k, out, taken);
    var before, after, c := sorted[..k], sorted[..k + 1], sorted[k];
    assert after == before + [c];
    assert forall x :: x in after ==> x in before || x == c;
  }

  lemma TakeOne(sorted: seq<Piece>, k: nat, before: seq<bool>, taken: seq<bool>, out: seq<Piece>)
    requires k < |sorted| && Taking(sorted, k, before, out) && forall c :: c in sorted ==> c.i < c.j <= |before|
    requires !(exists q :: sorted[k].i <= q < sorted[k].j <= |before| && before[q])
    requires |taken| == |before|
    requires forall q :: 0 <= q < |taken| ==> taken[q] == (before[q] || sorted[k].i <= q < sorted[k].j)
    ensures Taking(sorted, k + 1, taken, out + [sorted[k]])
  {
    var c := sorted[k];
    assert c in sorted;
    NoOverlap(out, c, before);
    assert sorted[..k + 1] == sorted[..k] + [c];
    hide Beaten, Covered, Overlap;
    forall q | 0 <= q < |taken| ensures taken[q] <==> Covered(out + [c], q) { OneMoreCovers(out, c, q); }
    forall d | d in sorted[..k + 1] ensures Beaten(d, out + [c]) { StillBeaten(d, out, c); }
  }

  lemma AllTried(cands: seq<Piece>, sorted: seq<Piece>, taken: seq<bool>, out: seq<Piece>)
    requires Taking(sorted, |sorted|, taken, out) && forall c :: c in sorted <==> c in cands
    ensures Best(cands, out)
  {
    hide Beaten, Covered, Overlap;
    assert sorted[..|sorted|] == sorted;
  }

  ghost predicate Covered(out: seq<Piece>, q: nat) { exists o :: o in out && o.i <= q < o.j }

  method IsTaken(taken: seq<bool>, c: Piece) returns (clash: bool)
    requires c.i < c.j <= |taken|
    ensures clash <==> exists q :: c.i <= q < c.j && taken[q]
  {
    for q := c.i to c.j
      invariant forall p :: c.i <= p < q ==> !taken[p]
    {
      if taken[q] { return true; }
    }
    clash := false;
  }

  method Take(taken: seq<bool>, c: Piece) returns (out: seq<bool>)
    requires c.i < c.j <= |taken|
    ensures |out| == |taken| && forall q :: 0 <= q < |out| ==> out[q] == (taken[q] || c.i <= q < c.j)
  {
    out := taken;
    for q := c.i to c.j
      invariant |out| == |taken| && forall p :: 0 <= p < |out| ==> out[p] == (taken[p] || c.i <= p < q)
    {
      out := out[q := true];
    }
  }

  lemma BeatenBy(sorted: seq<Piece>, k: nat, out: seq<Piece>, taken: seq<bool>)
    requires SortedBy(sorted, ByCapacity) && k < |sorted| && (forall c :: c in out ==> c in sorted[..k])
    requires sorted[k].j <= |taken| && exists q :: sorted[k].i <= q < sorted[k].j && taken[q]
    requires forall q :: 0 <= q < |taken| ==> (taken[q] <==> Covered(out, q))
    ensures Beaten(sorted[k], out)
  {
    var c := sorted[k];
    var q :| c.i <= q < c.j && taken[q];
    assert Covered(out, q);
    var o :| o in out && o.i <= q < o.j;
    var p :| 0 <= p < k && sorted[..k][p] == o;
    assert ByCapacity(sorted[p]) <= ByCapacity(sorted[k]);
  }

  lemma NoOverlap(out: seq<Piece>, c: Piece, taken: seq<bool>)
    requires c.i < c.j <= |taken| && !(exists q :: c.i <= q < c.j && taken[q])
    requires forall q :: 0 <= q < |taken| ==> (taken[q] <==> Covered(out, q))
    requires forall o :: o in out ==> o.i < o.j
    ensures forall o :: o in out ==> !Overlap(o, c)
  {
    forall o | o in out ensures !Overlap(o, c) {
      if Overlap(o, c) {
        var q := if o.i < c.i then c.i else o.i;
        CoveredBy(out, o, q);
      }
    }
  }

  lemma CoveredBy(out: seq<Piece>, o: Piece, q: nat)
    requires o in out && o.i <= q < o.j
    ensures Covered(out, q)
  {
  }

  lemma OneMoreCovers(out: seq<Piece>, c: Piece, q: nat)
    ensures Covered(out + [c], q) <==> Covered(out, q) || c.i <= q < c.j
  {
    var more := out + [c];
    if c.i <= q < c.j { assert c in more; }
    if Covered(out, q) {
      var o :| o in out && o.i <= q < o.j;
      assert o in more;
    }
  }

  lemma StillBeaten(d: Piece, out: seq<Piece>, c: Piece)
    requires Beaten(d, out) || (d == c && c.i < c.j)
    ensures Beaten(d, out + [c])
  {
    var more := out + [c];
    if !Beaten(d, out) {
      assert c in more && Overlap(c, c);
    } else {
      var o :| o in out && Overlap(d, o) && o.cap >= d.cap;
      assert o in more;
    }
  }

  // ---- the runs ----

  function RunOf(dist: Distance, l: Line, c: Piece): Run {
    Run(l.Place(c.i), l.Place(c.j), dist(l.Place(c.i), l.Place(c.j)), c.amp, c.side)
  }

  lemma StepsApart(l: Line, i: nat, j: nat)
    requires i <= j
    ensures l.At(j) - l.At(i) == Span(l.step, i, j)
    ensures l.Place(j) == l.Place(i).Add(Scale(l.u, Span(l.step, i, j)))
    ensures l.Place(j).Sub(l.Place(i)) == Scale(l.u, Span(l.step, i, j))
  {
    Distribute(j as real, i as real, l.step);
    assert (j - i) as real == j as real - i as real;
    Distribute(l.At(j), l.At(i), l.u.x);
    Distribute(l.At(j), l.At(i), l.u.y);
    Distribute(Span(l.step, i, j), 0.0, l.u.x);
    Distribute(Span(l.step, i, j), 0.0, l.u.y);
    Distribute(l.At(j), 0.0, l.u.x);
    Distribute(l.At(j), 0.0, l.u.y);
    Distribute(l.At(i), 0.0, l.u.x);
    Distribute(l.At(i), 0.0, l.u.y);
    hide Times;
  }

  lemma SpanIsPositive(l: Line, i: nat, j: nat)
    requires l.step > 0.0 && i < j
    ensures Span(l.step, i, j) > 0.0
  {
    PositiveTimes((j - i) as real, l.step);
  }

  lemma NormAlong(dist: Distance, u: Pt, s: real)
    requires Euclidean(dist) && Sq(u) == 1.0 && s > 0.0
    ensures Norm(dist, Scale(u, s)) == u && dist(Pt(0.0, 0.0), Scale(u, s)) == s
  {
    var o, p := Pt(0.0, 0.0), Scale(u, s);
    assert p.Sub(o) == p;
    LengthAlong(u, s);
    hide Sqr, Times, Euclidean;
    DistanceIs(dist, o, p, s);
    OverOfTimes(u.x, s);
    OverOfTimes(u.y, s);
  }

  lemma OverOfTimes(x: real, s: real)
    requires s > 0.0
    ensures Over(Times(x, s), s) == x
  {
  }

  /** A piece is a run: along the line, as long as its steps, and to a side square to it. */
  lemma RunOfIsOk(dist: Distance, l: Line, c: Piece)
    requires Euclidean(dist) && l.Ok() && c.i < c.j && Sq(c.side) == 1.0 && Inner(l.u, c.side) == 0.0
    ensures RunOf(dist, l, c).Ok(dist) && RunOf(dist, l, c).length == Span(l.step, c.i, c.j) > 0.0
    ensures RunOf(dist, l, c).Frame(dist) == Axes(l.Place(c.i), l.u, c.side)
  {
    var s := Span(l.step, c.i, c.j);
    StepsApart(l, c.i, c.j);
    SpanIsPositive(l, c.i, c.j);
    NormAlong(dist, l.u, s);
    hide Sqr, Times, Span;
    var a, b := l.Place(c.i), l.Place(c.j);
    FromOrigin(dist, a, b);
    Apart(dist, a, b);
  }

  // ---- never outside the areas ----

  /** Every point beside the run, as far out as half a width beyond its amplitude, is somewhere copper is allowed. */
  ghost predicate StaysInside(pr: Probe, r: Run) {
    forall at: real, p: real :: 0.0 <= at <= r.length && 0.0 <= p <= r.amp + pr.width / 2.0 ==>
      A.Allows(pr.areas, r.Frame(pr.dist).At(at, p))
  }

  /** Which step of a stretch a place is in. */
  lemma {:induction false} StepAt(l: Line, i: nat, j: nat, at: real) returns (k: nat)
    requires i < j && l.step > 0.0 && l.At(i) <= at <= l.At(j)
    ensures i <= k < j && l.At(k) <= at <= l.At(k + 1)
    decreases j
  {
    hide Line.At;
    if i + 1 == j || at >= l.At(j - 1) {
      k := j - 1;
    } else {
      k := StepAt(l, i, j - 1, at);
    }
  }

  lemma PieceStaysInside(pr: Probe, l: Line, prof: seq<real>, c: Piece)
    requires Euclidean(pr.dist) && l.Ok() && pr.Sane() && Sq(c.side) == 1.0 && Inner(l.u, c.side) == 0.0
    requires IsProfile(pr, l, c.side, prof) && IsPiece(pr, l.step, prof, c.side, c)
    ensures StaysInside(pr, RunOf(pr.dist, l, c))
  {
    hide IsProfile, IsPiece, Capacity, Euclidean, A.Allows;
    PieceBounds(pr, l.step, prof, c.side, c);
    RunOfIsOk(pr.dist, l, c);
    var r := RunOf(pr.dist, l, c);
    forall at: real, p: real | 0.0 <= at <= r.length && 0.0 <= p <= r.amp + pr.width / 2.0
      ensures A.Allows(pr.areas, r.Frame(pr.dist).At(at, p))
    {
      StepsApart(l, c.i, c.j);
      PlaceInside(pr, l, prof, c, at, p);
    }
  }

  lemma PlaceInside(pr: Probe, l: Line, prof: seq<real>, c: Piece, at: real, p: real)
    requires l.Ok() && pr.Sane()
    requires IsProfile(pr, l, c.side, prof) && IsPiece(pr, l.step, prof, c.side, c)
    requires 0.0 <= at && l.At(c.i) + at <= l.At(c.j) && 0.0 <= p <= c.amp + pr.width / 2.0
    ensures A.Allows(pr.areas, Axes(l.Place(c.i), l.u, c.side).At(at, p))
  {
    hide Capacity, Line.At, IsPiece, ClearRoom, A.AllowsSpan, A.HasRoom, IsRoom, Line.Place;
    if pr.areas != [] {
      PieceBounds(pr, l.step, prof, c.side, c);
      var k := StepAt(l, c.i, c.j, l.At(c.i) + at);
      LeastIsLeast(prof, c.i, c.j, k);
      RoomOfPiece(pr, l.step, prof, c.side, c);
      var x := Axes(l.from, l.u, c.side);
      assert IsRoom(pr, l.Place(k), l.Place(k + 1), c.side, prof[k]);
      var h := prof[k] + pr.width / 2.0;
      var m := AreaAround(pr, l.Place(k), l.Place(k + 1), c.side, prof[k]);
      OnAxes(l, k, c.side, h);
      OnAxes(l, k + 1, c.side, h);
      A.StripInside(pr.areas[m], x, l.At(k), l.At(k + 1), h, l.At(c.i) + at, p);
      Shifted(l, c.i, c.side, at, p);
    }
  }

  /** Where there is room, one area holds the stretch and the stretch moved so far aside. */
  lemma AreaAround(pr: Probe, a: Pt, c: Pt, side: Pt, p: real) returns (m: nat)
    requires IsRoom(pr, a, c, side, p) && p > 0.0 && pr.areas != []
    ensures m < |pr.areas| && A.RoomIn(pr.areas[m], a, c, side, p + pr.width / 2.0)
  {
    hide A.AllowsSpan, ClearRoom;
    m :| 0 <= m < |pr.areas| && A.RoomIn(pr.areas[m], a, c, side, p + pr.width / 2.0);
  }

  lemma RoomOfPiece(pr: Probe, step: real, prof: seq<real>, side: Pt, c: Piece)
    requires IsPiece(pr, step, prof, side, c)
    ensures c.i < c.j <= |prof| && c.amp == Least(prof, c.i, c.j) >= pr.st.minAmplitude
  {
    hide Capacity;
  }

  lemma OnAxes(l: Line, k: nat, side: Pt, h: real)
    ensures
      var x := Axes(l.from, l.u, side);
      l.Place(k) == x.At(l.At(k), 0.0) && l.Place(k).Add(Scale(side, h)) == x.At(l.At(k), h)
  {
    ZeroAcross(side);
    hide Times;
  }

  lemma Shifted(l: Line, i: nat, side: Pt, at: real, p: real)
    ensures Axes(l.Place(i), l.u, side).At(at, p) == Axes(l.from, l.u, side).At(l.At(i) + at, p)
  {
    Distribute(l.At(i), at, l.u.x);
    Distribute(l.At(i), at, l.u.y);
    Distribute(l.At(i) + at, 0.0, l.u.x);
    Distribute(l.At(i) + at, 0.0, l.u.y);
    Distribute(l.At(i), 0.0, l.u.x);
    Distribute(l.At(i), 0.0, l.u.y);
    Distribute(at, 0.0, l.u.x);
    Distribute(at, 0.0, l.u.y);
    hide Times;
  }

  /** Main result on where copper goes: a meander planned for a run stays inside the areas, half a width beyond its
      centreline included, all the way along. */
  lemma MeanderStaysInside(pr: Probe, r: Run, want: real, m: Meander.Shape, got: real, at: real, p: real, q: real)
    requires r.Ok(pr.dist) && StaysInside(pr, r) && pr.Sane()
    requires Planned(pr.st, pr.dist, pr.root2, r, pr.width, want, m, got)
    requires m.amp <= r.amp && 0.0 <= at <= r.length && 0.0 <= p <= m.amp && 0.0 <= q <= pr.width / 2.0
    ensures A.Allows(pr.areas, m.Frame().At(at, p + q))
  {
    assert m.Frame() == r.Frame(pr.dist);
    hide A.Allows, Planned, Meander.Shape.Frame, Run.Frame;
  }
}
