/** Ear clipping of one ring (preview/tess.go), in exact arithmetic. Areas are kept doubled. */
module EarClip {
  import opened Common
  import opened Geometry
  import E = Euclid

  datatype Tri = Tri(a: Pt, b: Pt, c: Pt)

  function Det(a: Pt, b: Pt): real { a.x * b.y - b.x * a.y }

  /** Twice the area of a triangle, positive when counter-clockwise. */
  function Cross(a: Pt, b: Pt, c: Pt): real { (b.x - a.x) * (c.y - a.y) - (b.y - a.y) * (c.x - a.x) }

  predicate InTriangle(p: Pt, a: Pt, b: Pt, c: Pt) {
    Cross(a, b, p) >= 0.0 && Cross(b, c, p) >= 0.0 && Cross(c, a, p) >= 0.0
  }

  lemma CrossIsDets(a: Pt, b: Pt, c: Pt)
    ensures Cross(a, b, c) == Det(a, b) + Det(b, c) + Det(c, a)
  {
  }

  lemma DetFlips(a: Pt, b: Pt)
    ensures Det(a, b) == -Det(b, a) && Det(a, a) == 0.0
  {
  }

  // ---- what these are ----

  /** Twice the area of a triangle is its base times its height, which counts as positive to the left of the base. */
  lemma CrossIsBaseTimesHeight(a: Pt, u: Pt, base: real, along: real, height: real)
    requires E.Sq(u) == 1.0
    ensures Cross(a, a.Add(u.Mul(base)), a.Add(u.Mul(along)).Add(u.Perp().Mul(height))) == E.Times(base, height)
  {
    var b, c := a.Add(u.Mul(base)), a.Add(u.Mul(along)).Add(u.Perp().Mul(height));
    CrossOfSteps(a, b, c);
    assert c.x - a.x == u.x * along + -u.y * height && c.y - a.y == u.y * along + u.x * height;
    SquareOn(u.x, u.y, base, along, height);
  }

  lemma SquareOn(x: real, y: real, base: real, along: real, height: real)
    requires E.Sqr(x) + E.Sqr(y) == 1.0
    ensures E.Times(x * base, y * along + x * height) - E.Times(y * base, x * along + -y * height) == E.Times(base, height)
  {
    assert (x * base) * (y * along) == (y * base) * (x * along);
    assert (x * base) * (x * height) + (y * base) * (y * height) == (x * x + y * y) * (base * height);
  }

  lemma CrossOfSteps(a: Pt, b: Pt, c: Pt)
    ensures Cross(a, b, c) == E.Times(b.x - a.x, c.y - a.y) - E.Times(b.y - a.y, c.x - a.x)
  {
  }

  /** So far towards `b` and so far towards `c` from `a`. */
  function Mix(a: Pt, b: Pt, c: Pt, s: real, t: real): Pt {
    Pt(a.x + E.Times(s, b.x - a.x) + E.Times(t, c.x - a.x), a.y + E.Times(s, b.y - a.y) + E.Times(t, c.y - a.y))
  }

  /** A point is in a counter-clockwise triangle, its edges included, if it is so far towards two corners from the third
      as makes no more than the whole way. */
  lemma InTriangleIff(p: Pt, a: Pt, b: Pt, c: Pt)
    requires Cross(a, b, c) > 0.0
    ensures InTriangle(p, a, b, c) <==> exists s, t :: s >= 0.0 && t >= 0.0 && s + t <= 1.0 && p == Mix(a, b, c, s, t)
  {
    var d := Cross(a, b, c);
    ThreeParts(p, a, b, c);
    if InTriangle(p, a, b, c) {
      var s, t := E.Over(Cross(c, a, p), d), E.Over(Cross(a, b, p), d);
      ByParts(p, a, b, c);
      Shares(Cross(c, a, p), Cross(a, b, p), d);
      assert p == Mix(a, b, c, s, t);
    }
    hide Cross, Mix;
    forall s, t | s >= 0.0 && t >= 0.0 && s + t <= 1.0 && p == Mix(a, b, c, s, t) ensures InTriangle(p, a, b, c) {
      PartsOfMix(a, b, c, s, t);
      hide InTriangle;
      SharesOfWhole(s, t, d);
    }
  }

  /** The three triangles a point makes with the edges come to the whole. */
  lemma ThreeParts(p: Pt, a: Pt, b: Pt, c: Pt)
    ensures Cross(a, b, p) + Cross(b, c, p) + Cross(c, a, p) == Cross(a, b, c)
  {
    CrossIsDets(a, b, p);
    CrossIsDets(b, c, p);
    CrossIsDets(c, a, p);
    CrossIsDets(a, b, c);
    DetFlips(a, p);
    DetFlips(b, p);
    DetFlips(c, p);
  }

  lemma Shares(u: real, v: real, d: real)
    requires u >= 0.0 && v >= 0.0 && u + v <= d && d > 0.0
    ensures E.Over(u, d) >= 0.0 && E.Over(v, d) >= 0.0 && E.Over(u, d) + E.Over(v, d) <= 1.0
  {
  }

  /** A point is as far towards each corner as the triangle on the other side of it is part of the whole. */
  lemma ByParts(p: Pt, a: Pt, b: Pt, c: Pt)
    requires Cross(a, b, c) != 0.0
    ensures p == Mix(a, b, c, E.Over(Cross(c, a, p), Cross(a, b, c)), E.Over(Cross(a, b, p), Cross(a, b, c)))
  {
    var d, u, v := Cross(a, b, c), Cross(c, a, p), Cross(a, b, p);
    Cramer(b.x - a.x, b.y - a.y, c.x - a.x, c.y - a.y, p.x - a.x, p.y - a.y);
    assert E.Times(u, b.x - a.x) + E.Times(v, c.x - a.x) == E.Times(d, p.x - a.x);
    assert E.Times(u, b.y - a.y) + E.Times(v, c.y - a.y) == E.Times(d, p.y - a.y);
    ShareOut(u, v, d, b.x - a.x, c.x - a.x, p.x - a.x);
    ShareOut(u, v, d, b.y - a.y, c.y - a.y, p.y - a.y);
  }

  lemma Cramer(bx: real, by': real, cx: real, cy: real, px: real, py: real)
    ensures (px * cy - py * cx) * bx + (bx * py - by' * px) * cx == (bx * cy - by' * cx) * px
    ensures (px * cy - py * cx) * by' + (bx * py - by' * px) * cy == (bx * cy - by' * cx) * py
  {
  }

  lemma ShareOut(u: real, v: real, d: real, b: real, c: real, p: real)
    requires d != 0.0 && E.Times(u, b) + E.Times(v, c) == E.Times(d, p)
    ensures E.Times(E.Over(u, d), b) + E.Times(E.Over(v, d), c) == p
  {
  }

  lemma PartsOfMix(a: Pt, b: Pt, c: Pt, s: real, t: real)
    ensures Cross(c, a, Mix(a, b, c, s, t)) == E.Times(s, Cross(a, b, c))
    ensures Cross(a, b, Mix(a, b, c, s, t)) == E.Times(t, Cross(a, b, c))
  {
  }

  lemma SharesOfWhole(s: real, t: real, d: real)
    requires s >= 0.0 && t >= 0.0 && s + t <= 1.0 && d > 0.0
    ensures E.Times(s, d) >= 0.0 && E.Times(t, d) >= 0.0 && E.Times(s, d) + E.Times(t, d) <= d
  {
  }

  // ---- the shoelace area ----

  /** The shoelace sum along an open run of points. */
  function Run(r: seq<Pt>): real {
    if |r| < 2 then 0.0 else Run(r[..|r| - 1]) + Det(r[|r| - 2], r[|r| - 1])
  }

  /** Twice the signed area of a ring. */
  function Area2(r: seq<Pt>): real {
    if r == [] then 0.0 else Run(r) + Det(r[|r| - 1], r[0])
  }

  lemma {:induction false} RunConcat(a: seq<Pt>, b: seq<Pt>)
    requires a != [] && b != []
    ensures Run(a + b) == Run(a) + Det(a[|a| - 1], b[0]) + Run(b)
    decreases |b|
  {
    hide Det;
    var r := a + b;
    assert r[..|r| - 1] == a + b[..|b| - 1];
    if |b| > 1 {
      RunConcat(a, b[..|b| - 1]);
    } else {
      assert b[..0] == [] && a + [] == a;
    }
  }

  lemma RunOfOne(p: Pt)
    ensures Run([p]) == 0.0
  {
  }

  /** Where a ring starts does not matter. */
  lemma AreaRotates(r: seq<Pt>)
    requires |r| > 1
    ensures Area2(r[1..] + [r[0]]) == Area2(r)
  {
    hide Det;
    assert r == [r[0]] + r[1..];
    RunConcat([r[0]], r[1..]);
    RunConcat(r[1..], [r[0]]);
  }

  function Prev(n: nat, k: nat): nat
    requires k < n
  {
    (k + n - 1) % n
  }

  function Next(n: nat, k: nat): nat
    requires k < n
  {
    (k + 1) % n
  }

  lemma Around(n: nat, k: nat)
    requires k < n
    ensures Prev(n, k) == if k == 0 then n - 1 else k - 1
    ensures Next(n, k) == if k == n - 1 then 0 else k + 1
  {
    if k > 0 { OnceRound(k - 1, n); }
    if k < n - 1 { SmallMod(k + 1, n); } else { OnceRound(0, n); }
    if k == 0 { SmallMod(n - 1, n); }
  }

  lemma SmallMod(a: nat, n: nat)
    requires a < n
    ensures a % n == a
  {
  }

  lemma OnceRound(a: nat, n: nat)
    requires a < n
    ensures (a + n) % n == a
  {
    var q, m := (a + n) / n, (a + n) % n;
    assert q * n + m == a + n;
    MulOrder(q, n);
  }

  lemma MulOrder(q: int, n: nat)
    ensures q >= 2 ==> q * n >= 2 * n
    ensures q <= 0 ==> q * n <= 0
  {
  }

  /** Cutting a vertex off takes exactly its triangle out of the area. */
  lemma CuttingTakesTheTriangle(r: seq<Pt>, k: nat)
    requires |r| >= 3 && k < |r|
    ensures Area2(r) == Area2(Without(r, k)) + Cross(r[Prev(|r|, k)], r[k], r[Next(|r|, k)])
  {
    Around(|r|, k);
    var i, j, l := r[Prev(|r|, k)], r[k], r[Next(|r|, k)];
    CrossIsDets(i, j, l);
    DetFlips(i, l);
    hide Det, Cross, Prev, Next;
    var a, b := r[..k], r[k + 1..];
    assert r == a + ([j] + b);
    if k == 0 {
      assert a == [] && r == [j] + b && Without(r, k) == b;
      RunConcat([j], b);
    } else if k == |r| - 1 {
      assert b == [] && r == a + [j] && Without(r, k) == a;
      RunConcat(a, [j]);
    } else {
      RunConcat(a, [j] + b);
      RunConcat([j], b);
      RunConcat(a, b);
    }
  }

  lemma AreaOfThree(r: seq<Pt>)
    requires |r| == 3
    ensures Area2(r) == Cross(r[0], r[1], r[2])
  {
    CrossIsDets(r[0], r[1], r[2]);
    hide Det, Cross;
    assert r == [r[0], r[1]] + [r[2]] && [r[0], r[1]] == [r[0]] + [r[1]];
    RunConcat([r[0], r[1]], [r[2]]);
    RunConcat([r[0]], [r[1]]);
  }

  // ---- repeated points and winding ----

  lemma ClosingPointAddsNothing(r: seq<Pt>)
    requires |r| >= 2 && r[|r| - 1] == r[0]
    ensures Area2(r) == Area2(r[..|r| - 1])
  {
    DetFlips(r[0], r[0]);
  }

  function Reversed(r: seq<Pt>): (s: seq<Pt>)
    ensures |s| == |r|
    ensures forall i {:trigger s[i]} :: 0 <= i < |r| ==> s[i] == r[|r| - 1 - i]
  {
    seq(|r|, i requires 0 <= i < |r| => r[|r| - 1 - i])
  }

  lemma {:induction false} RunReversed(r: seq<Pt>)
    requires r != []
    ensures Run(Reversed(r)) == -Run(r)
    decreases |r|
  {
    hide Det;
    if |r| > 1 {
      var init, p := r[..|r| - 1], r[|r| - 1];
      RunReversed(init);
      assert Reversed(r) == [p] + Reversed(init);
      RunConcat([p], Reversed(init));
      RunOfOne(p);
      DetFlips(p, r[|r| - 2]);
    }
  }

  /** Going round the other way changes the sign. */
  lemma AreaReversed(r: seq<Pt>)
    ensures Area2(Reversed(r)) == -Area2(r)
  {
    if r != [] {
      RunReversed(r);
      DetFlips(r[|r| - 1], r[0]);
    }
  }

  lemma ShoelaceStep(pts: seq<Pt>, i: nat, j: nat)
    requires i < |pts| && j == if i == |pts| - 1 then 0 else i + 1
    ensures Det(pts[i], pts[j]) == pts[i].x * pts[j].y - pts[j].x * pts[i].y
    ensures Run(pts[..i + 1]) + Det(pts[i], pts[j]) == if i + 1 < |pts| then Run(pts[..i + 2]) else Area2(pts)
  {
    if i + 1 < |pts| { assert pts[..i + 2][..i + 1] == pts[..i + 1]; } else { assert pts[..i + 1] == pts; }
  }

  method SignedArea(pts: seq<Pt>) returns (a: real)
    ensures a == Area2(pts) / 2.0
  {
    a := 0.0;
    for i := 0 to |pts|
      invariant a == if i < |pts| then Run(pts[..i + 1]) else Area2(pts)
    {
      var j := (i + 1) % |pts|;
      Around(|pts|, i);
      a := a + (pts[i].x * pts[j].y - pts[j].x * pts[i].y);
      ShoelaceStep(pts, i, j);
    }
    a := a / 2.0;
  }

  /** A run of points, each different from the one before. */
  function NoRepeats(r: seq<Pt>): seq<Pt> {
    if |r| < 2 then r
    else if r[|r| - 1] == r[|r| - 2] then NoRepeats(r[..|r| - 1])
    else NoRepeats(r[..|r| - 1]) + [r[|r| - 1]]
  }

  /** How many points before this one, or it, differ from the one before them. */
  function Changes(r: seq<Pt>, k: nat): nat
    requires k < |r|
  {
    if k == 0 then 0 else Changes(r, k - 1) + if r[k] != r[k - 1] then 1 else 0
  }

  lemma {:induction false} ChangesOfFront(r: seq<Pt>, n: nat, k: nat)
    requires k < n <= |r|
    ensures Changes(r[..n], k) == Changes(r, k)
  {
    if k > 0 { ChangesOfFront(r, n, k - 1); }
  }

  /** Every point is still there, where so many changes before it put it, and there are no others. */
  lemma {:induction false} NoRepeatsAt(r: seq<Pt>, k: nat)
    requires k < |r|
    ensures |NoRepeats(r)| == Changes(r, |r| - 1) + 1
    ensures Changes(r, k) < |NoRepeats(r)| && NoRepeats(r)[Changes(r, k)] == r[k]
    decreases |r|
  {
    var n := |r| - 1;
    if n > 0 {
      NoRepeatsAt(r[..n], if k < n then k else n - 1);
      ChangesOfFront(r, n, n - 1);
      if k < n { ChangesOfFront(r, n, k); }
    }
  }

  /** All that is taken off the end of a ring is the point it begins with, and that is not left there. */
  lemma {:induction false} UnclosedIs(r: seq<Pt>)
    ensures Unclosed(r) <= r && (forall i :: |Unclosed(r)| <= i < |r| ==> r[i] == r[0])
    ensures r != [] ==> Unclosed(r) != [] && (|Unclosed(r)| > 1 ==> Unclosed(r)[|Unclosed(r)| - 1] != r[0])
  {
    if |r| > 1 && r[0] == r[|r| - 1] { UnclosedIs(r[..|r| - 1]); }
  }

  /** A ring that does not repeat its first point at the end. */
  function Unclosed(r: seq<Pt>): seq<Pt> {
    if |r| > 1 && r[0] == r[|r| - 1] then Unclosed(r[..|r| - 1]) else r
  }

  function Corners(ring: seq<Pt>): seq<Pt> { Unclosed(NoRepeats(ring)) }

  /** Drops repeated neighbours, and the closing point of a ring that repeats its first. */
  method Dedupe(ring: seq<Pt>) returns (out: seq<Pt>)
    ensures out == Corners(ring)
    ensures Area2(out) == Area2(ring)
    ensures forall i :: 0 <= i < |out| - 1 ==> out[i] != out[i + 1]
    ensures |out| > 1 ==> out[0] != out[|out| - 1]
  {
    out := [];
    hide Det, Area2;
    for k := 0 to |ring|
      invariant k > 0 ==> out != [] && out[|out| - 1] == ring[k - 1] && out[0] == ring[0]
      invariant k == 0 ==> out == []
      invariant forall i :: 0 <= i < |out| - 1 ==> out[i] != out[i + 1]
      invariant Run(out) == Run(ring[..k]) && out == NoRepeats(ring[..k])
    {
      assert ring[..k + 1][..k] == ring[..k];
      DedupeStep(out, ring, k);
      var p := ring[k];
      if |out| > 0 && out[|out| - 1] == p { continue; }
      out := out + [p];
    }
    assert ring[..|ring|] == ring;
    assert Area2(out) == Area2(ring) by { SameRunSameArea(out, ring); }
    while |out| > 1 && out[0] == out[|out| - 1]
      invariant Area2(out) == Area2(ring) && Unclosed(out) == Corners(ring)
      invariant forall i :: 0 <= i < |out| - 1 ==> out[i] != out[i + 1]
    {
      ClosingPointAddsNothing(out);
      out := out[..|out| - 1];
    }
  }

  lemma DedupeStep(out: seq<Pt>, ring: seq<Pt>, k: nat)
    requires k < |ring| && Run(out) == Run(ring[..k])
    requires k > 0 ==> out != [] && out[|out| - 1] == ring[k - 1]
    requires k == 0 ==> out == []
    ensures Run(ring[..k + 1]) == Run(if out != [] && out[|out| - 1] == ring[k] then out else out + [ring[k]])
  {
    var r := ring[..k + 1];
    assert r[..k] == ring[..k];
    DetFlips(ring[k], ring[k]);
    assert (out + [ring[k]])[..|out|] == out;
  }

  lemma SameRunSameArea(out: seq<Pt>, ring: seq<Pt>)
    requires Run(out) == Run(ring) && (ring == [] <==> out == [])
    requires ring != [] ==> out[0] == ring[0] && out[|out| - 1] == ring[|ring| - 1]
    ensures Area2(out) == Area2(ring)
  {
  }

  /** The same ring, wound counter-clockwise. */
  ghost predicate IsCcw(pts: seq<Pt>, out: seq<Pt>) {
    (out == pts || out == Reversed(pts)) && Area2(out) == AbsR(Area2(pts))
  }

  method Ccw(pts: seq<Pt>) returns (out: seq<Pt>)
    ensures IsCcw(pts, out)
  {
    var a := SignedArea(pts);
    if a >= 0.0 { return pts; }
    AreaReversed(pts);
    out := Reversed(pts);
  }

  // ---- clipping ----

  predicate Within(pts: seq<Pt>, idx: seq<nat>) { forall i :: 0 <= i < |idx| ==> idx[i] < |pts| }

  /** The ring an index list stands for. */
  function Ring(pts: seq<Pt>, idx: seq<nat>): (r: seq<Pt>)
    requires Within(pts, idx)
    ensures |r| == |idx|
    ensures forall i {:trigger r[i]} :: 0 <= i < |idx| ==> r[i] == pts[idx[i]]
  {
    seq(|idx|, i requires 0 <= i < |idx| => pts[idx[i]])
  }

  /** The k-th vertex can be cut off: it turns the ring's way, and no other vertex is in its triangle. */
  ghost predicate IsEar(pts: seq<Pt>, idx: seq<nat>, k: nat)
    requires k < |idx| && forall i :: 0 <= i < |idx| ==> idx[i] < |pts|
  {
    var i, j, l := idx[Prev(|idx|, k)], idx[k], idx[Next(|idx|, k)];
    Cross(pts[i], pts[j], pts[l]) > 0.0
    && forall q :: 0 <= q < |idx| ==> idx[q] == i || idx[q] == j || idx[q] == l || !InTriangle(pts[idx[q]], pts[i], pts[j], pts[l])
  }

  method TestEar(pts: seq<Pt>, idx: seq<nat>, k: nat) returns (ear: bool)
    requires k < |idx| && forall i :: 0 <= i < |idx| ==> idx[i] < |pts|
    ensures ear <==> IsEar(pts, idx, k)
  {
    hide Cross, InTriangle, Prev, Next;
    Around(|idx|, k);
    var i, j, l := idx[Prev(|idx|, k)], idx[k], idx[Next(|idx|, k)];
    var a, b, c := pts[i], pts[j], pts[l];
    if Cross(a, b, c) <= 0.0 { return false; }
    for q := 0 to |idx|
      invariant forall p :: 0 <= p < q ==> idx[p] == i || idx[p] == j || idx[p] == l || !InTriangle(pts[idx[p]], a, b, c)
    {
      var m := idx[q];
      if m == i || m == j || m == l { continue; }
      if InTriangle(pts[m], a, b, c) { return false; }
    }
    return true;
  }

  /** Twice the area of triangles, whichever way they turn. */
  function TriArea2(ts: seq<Tri>): real {
    if ts == [] then 0.0
    else TriArea2(ts[..|ts| - 1]) + AbsR(Cross(ts[|ts| - 1].a, ts[|ts| - 1].b, ts[|ts| - 1].c))
  }

  lemma TriAreaGrows(ts: seq<Tri>, t: Tri)
    ensures TriArea2(ts + [t]) == TriArea2(ts) + AbsR(Cross(t.a, t.b, t.c))
  {
    assert (ts + [t])[..|ts|] == ts;
  }

  ghost predicate AllEars(ts: seq<Tri>) {
    forall i :: 0 <= i < |ts| ==> Cross(ts[i].a, ts[i].b, ts[i].c) > 0.0
  }

  ghost predicate Earless(pts: seq<Pt>, idx: seq<nat>)
    requires Within(pts, idx)
  {
    forall k :: 0 <= k < |idx| ==> !IsEar(pts, idx, k)
  }

  function Corner(pts: seq<Pt>, idx: seq<nat>, k: nat): Tri
    requires Within(pts, idx) && k < |idx|
  {
    Around(|idx|, k);
    Tri(pts[idx[Prev(|idx|, k)]], pts[idx[k]], pts[idx[Next(|idx|, k)]])
  }

  /** Cutting the k-th vertex, an ear, off one list leaves the other. */
  ghost predicate CutOff(pts: seq<Pt>, from: seq<nat>, k: nat, ear: Tri, to: seq<nat>) {
    Within(pts, from) && k < |from| && IsEar(pts, from, k) && ear == Corner(pts, from, k) && to == Without(from, k)
  }

  function Front<T>(s: seq<T>): seq<T>
    requires s != []
  {
    s[..|s| - 1]
  }

  function Last<T>(s: seq<T>): T
    requires s != []
  {
    s[|s| - 1]
  }

  /** Cutting these triangles off, one after another, each an ear of what the ones before left. */
  ghost predicate CutsTo(pts: seq<Pt>, from: seq<nat>, ears: seq<Tri>, to: seq<nat>)
    decreases |ears|
  {
    if ears == [] then to == from
    else exists mid, k :: CutsTo(pts, from, Front(ears), mid) && CutOff(pts, mid, k, Last(ears), to)
  }

  function Turned<T>(s: seq<T>, m: nat): seq<T>
    requires m <= |s|
  {
    s[m..] + s[..m]
  }

  ghost predicate IsTurned(s: seq<nat>, r: seq<nat>) { exists m: nat :: m <= |s| && r == Turned(s, m) }

  function All(n: nat): seq<nat> { seq(n, i => i) }

  /** Clipping a ring comes to this: the ears cut off, and what they left, which holds no ear or is a triangle. Together
      they make up the ring's area. */
  ghost predicate Clipped(pts: seq<Pt>, idx: seq<nat>, ears: seq<Tri>) {
    && Within(pts, idx) && |idx| >= 3 && |ears| + |idx| == |pts| && (|idx| > 3 ==> Earless(pts, idx))
    && (exists left :: CutsTo(pts, All(|pts|), ears, left) && IsTurned(left, idx))
    && AllEars(ears) && Area2(Ring(pts, idx)) + TriArea2(ears) == Area2(pts)
  }

  /** Cuts ears off until three vertices are left or nothing more is an ear. */
  method Clip(pts: seq<Pt>) returns (idx: seq<nat>, ears: seq<Tri>)
    requires |pts| >= 3
    ensures Clipped(pts, idx, ears)
  {
    hide Cross, Area2, TriArea2, IsEar, Prev, Next, CutsTo, IsTurned, Ring;
    idx := seq(|pts|, i => i);
    ears := [];
    AllIsRing(pts);
    NoTriangles();
    NothingCut(pts, idx);
    ghost var left := idx;
    var fails := 0;
    while |idx| > 3 && fails <= |idx|
      invariant |idx| >= 3 && 0 <= fails <= |idx| + 1 && Within(pts, idx)
      invariant AllEars(ears) && |ears| + |idx| == |pts|
      invariant Area2(Ring(pts, idx)) + TriArea2(ears) == Area2(pts)
      invariant CutsTo(pts, All(|pts|), ears, left) && IsTurned(left, idx) && (fails == 0 ==> left == idx)
      invariant fails > 0 ==> Earless(pts, idx)
      decreases |idx|, |idx| + 1 - fails
    {
      var k := 0;
      var found := false;
      while k < |idx|
        invariant 0 <= k <= |idx| && !found
        invariant forall p :: 0 <= p < k ==> !IsEar(pts, idx, p)
      {
        var ear := TestEar(pts, idx, k);
        if ear { found := true; break; }
        k := k + 1;
      }
      if found {
        Around(|idx|, k);
        var i, j, l := idx[Prev(|idx|, k)], idx[k], idx[Next(|idx|, k)];
        EarTakesTheTriangle(pts, idx, k);
        TriAreaGrows(ears, Tri(pts[i], pts[j], pts[l]));
        OneMoreCut(pts, All(|pts|), ears, idx, k);
        ears := ears + [Tri(pts[i], pts[j], pts[l])];
        idx := idx[..k] + idx[k + 1..];
        fails := 0;
        left := idx;
        NotTurned(idx);
      } else {
        fails := fails + 1;
        RotatedKeeps(pts, idx);
        TurnedOn(left, idx);
        idx := idx[1..] + [idx[0]];
      }
    }
  }

  lemma AllIsRing(pts: seq<Pt>)
    ensures Within(pts, All(|pts|)) && Ring(pts, All(|pts|)) == pts
  {
  }

  lemma NothingCut(pts: seq<Pt>, idx: seq<nat>)
    ensures CutsTo(pts, idx, [], idx) && IsTurned(idx, idx)
  {
    NotTurned(idx);
  }

  lemma OneMoreCut(pts: seq<Pt>, from: seq<nat>, ears: seq<Tri>, idx: seq<nat>, k: nat)
    requires CutsTo(pts, from, ears, idx) && Within(pts, idx) && k < |idx| && IsEar(pts, idx, k)
    ensures CutsTo(pts, from, ears + [Corner(pts, idx, k)], Without(idx, k))
  {
    hide IsEar;
    var more := ears + [Corner(pts, idx, k)];
    assert Front(more) == ears;
    assert CutOff(pts, idx, k, Last(more), Without(idx, k));
  }

  lemma NotTurned(s: seq<nat>)
    ensures IsTurned(s, s)
  {
    assert s == Turned(s, 0);
  }

  lemma TurnedOn(s: seq<nat>, r: seq<nat>)
    requires IsTurned(s, r) && r != []
    ensures IsTurned(s, r[1..] + [r[0]])
  {
    var m: nat :| m <= |s| && r == Turned(s, m);
    var n := if m == |s| then 0 else m;
    assert r == Turned(s, n);
    assert r[1..] + [r[0]] == Turned(s, n + 1);
  }

  lemma NoTriangles()
    ensures TriArea2([]) == 0.0
  {
  }

  lemma EarTakesTheTriangle(pts: seq<Pt>, idx: seq<nat>, k: nat)
    requires |idx| >= 3 && k < |idx| && (forall i :: 0 <= i < |idx| ==> idx[i] < |pts|) && IsEar(pts, idx, k)
    ensures Prev(|idx|, k) < |idx| && Next(|idx|, k) < |idx|
    ensures var a, b, c := pts[idx[Prev(|idx|, k)]], pts[idx[k]], pts[idx[Next(|idx|, k)]];
      Cross(a, b, c) > 0.0
      && (forall i :: 0 <= i < |Without(idx, k)| ==> Without(idx, k)[i] < |pts|)
      && Area2(Ring(pts, idx)) == Area2(Ring(pts, Without(idx, k))) + AbsR(Cross(a, b, c))
  {
    hide Cross, Area2, InTriangle;
    CuttingTakesTheTriangle(Ring(pts, idx), k);
    assert Ring(pts, Without(idx, k)) == Without(Ring(pts, idx), k);
  }

  /** Turning the list round keeps the area, and makes no vertex an ear that was not one. */
  lemma RotatedKeeps(pts: seq<Pt>, idx: seq<nat>)
    requires |idx| >= 3 && forall i :: 0 <= i < |idx| ==> idx[i] < |pts|
    requires forall k :: 0 <= k < |idx| ==> !IsEar(pts, idx, k)
    ensures var r := idx[1..] + [idx[0]];
      (forall i :: 0 <= i < |r| ==> r[i] < |pts|) && Area2(Ring(pts, r)) == Area2(Ring(pts, idx))
      && forall k :: 0 <= k < |r| ==> !IsEar(pts, r, k)
  {
    hide Cross, Area2, InTriangle, Prev, Next;
    var r := idx[1..] + [idx[0]];
    AreaRotates(Ring(pts, idx));
    assert Ring(pts, r) == Ring(pts, idx)[1..] + [Ring(pts, idx)[0]];
    var n := |idx|;
    forall k | 0 <= k < n ensures !IsEar(pts, r, k) {
      var h := if k == n - 1 then 0 else k + 1;
      Around(n, k);
      Around(n, h);
      assert r[k] == idx[h] && r[Prev(n, k)] == idx[Prev(n, h)] && r[Next(n, k)] == idx[Next(n, h)];
      assert !IsEar(pts, idx, h);
      forall q | 0 <= q < n ensures idx[q] == r[if q == 0 then n - 1 else q - 1] {}
    }
  }

  method TriangleArea(ts: seq<Tri>) returns (total: real)
    ensures total == TriArea2(ts) / 2.0
  {
    total := 0.0;
    for i := 0 to |ts|
      invariant total == TriArea2(ts[..i]) / 2.0
    {
      assert ts[..i + 1] == ts[..i] + [ts[i]];
      TriAreaGrows(ts[..i], ts[i]);
      total := total + AbsR(Cross(ts[i].a, ts[i].b, ts[i].c)) / 2.0;
    }
    assert ts[..|ts|] == ts;
  }

  /** Nothing is left over, or a single triangle that turns the right way. */
  ghost predicate UsedUp(left: seq<Pt>) { Area2(left) == 0.0 || (|left| == 3 && Area2(left) > 0.0) }

  /** A ring's triangles are the ears clipped from it and the triangle they leave; it is done if they use it up. */
  ghost predicate Triangulates(pts: seq<Pt>, tris: seq<Tri>, ok: bool, idx: seq<nat>, ears: seq<Tri>) {
    Clipped(pts, idx, ears) && tris == ears + LastTriangle(Ring(pts, idx)) && (ok <==> UsedUp(Ring(pts, idx)))
  }

  ghost predicate TriangulatesCcw(ring: seq<Pt>, tris: seq<Tri>, ok: bool) {
    exists pts, idx, ears :: IsCcw(ring, pts) && Triangulates(pts, tris, ok, idx, ears)
  }

  /** Triangulates one ring. The verdict is about area alone: the ring is reported as done exactly when the triangles
      come to its area, which is when nothing is left over but a triangle that turns the right way. */
  method Triangulate(dst: seq<Tri>, ring: seq<Pt>) returns (out: seq<Tri>, ok: bool)
    ensures dst <= out && (ok <==> TriArea2(out[|dst|..]) == AbsR(Area2(ring)))
    ensures |Corners(ring)| < 3 ==> out == dst
    ensures |Corners(ring)| >= 3 ==> TriangulatesCcw(Corners(ring), out[|dst|..], ok)
  {
    hide Cross, Area2, TriArea2, IsEar, Corners, CutsTo, IsTurned;
    var pts := Dedupe(ring);
    if |pts| < 3 {
      SmallRing(pts);
      assert dst[|dst|..] == [];
      return dst, true;
    }
    pts := Ccw(pts);
    var want := SignedArea(pts);
    var idx, tris := Clip(pts);
    ghost var ears, left := tris, Ring(pts, idx);
    if |idx| == 3 {
      var a, b, c := pts[idx[0]], pts[idx[1]], pts[idx[2]];
      AreaOfThree(left);
      TriAreaGrows(tris, Tri(a, b, c));
      if AbsR(Cross(a, b, c)) > 0.0 { tris := tris + [Tri(a, b, c)]; }
    }
    assert tris == ears + LastTriangle(left);
    out := dst + tris;
    var got := TriangleArea(tris);
    ok := !(AbsR(got - want) > 0.0);
    assert out[|dst|..] == tris;
    assert Triangulates(pts, tris, ok, idx, ears);
  }

  /** Fewer than three points enclose nothing. */
  lemma SmallRing(r: seq<Pt>)
    requires |r| < 3
    ensures Area2(r) == 0.0 && TriArea2([]) == 0.0
  {
    if |r| == 2 {
      assert r[..1] == [r[0]];
      RunOfOne(r[0]);
      assert Run(r) == Det(r[0], r[1]);
      DetFlips(r[0], r[1]);
    } else if |r| == 1 {
      DetFlips(r[0], r[0]);
    }
  }

  /** The triangle the last three vertices make, unless it is flat. */
  ghost function LastTriangle(left: seq<Pt>): seq<Tri> {
    if |left| == 3 && Cross(left[0], left[1], left[2]) != 0.0 then [Tri(left[0], left[1], left[2])] else []
  }
}
