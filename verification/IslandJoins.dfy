/** Connecting the islands of a net with as few connections as will do (server/interfaces.go). */
module IslandJoins {
  import opened Common
  import opened Geometry

  /** A distance: never negative, the same both ways. */
  ghost predicate IsHypot(hypot: (real, real) -> real) {
    forall x, y :: hypot(x, y) >= 0.0 && hypot(-x, -y) == hypot(x, y)
  }

  /** A net's islands, where its pads are, and how far apart that is. */
  datatype Net = Net(islands: seq<seq<string>>, pos: map<string, Pt>, hypot: (real, real) -> real) {
    ghost predicate Valid() {
      IsHypot(hypot)
      && forall i, j, p :: 0 <= i < |islands| && 0 <= j < |islands| && p in islands[i] && p in islands[j] ==> i == j
    }

    function Between(a: string, c: string): real
      requires a in pos && c in pos
    {
      hypot(pos[a].x - pos[c].x, pos[a].y - pos[c].y)
    }

    /** Where lengths are measured as they are, that is how far apart the pads are. */
    lemma BetweenIsDistance(a: string, c: string)
      requires a in pos && c in pos && forall x, y :: hypot(x, y) >= 0.0 && hypot(x, y) * hypot(x, y) == x * x + y * y
      ensures
        var p, q, d := pos[a], pos[c], Between(a, c);
        d >= 0.0 && d * d == (q.x - p.x) * (q.x - p.x) + (q.y - p.y) * (q.y - p.y)
    {
    }

    lemma ValidIsHypot()
      requires Valid()
      ensures IsHypot(hypot)
    {
    }

    lemma BetweenIsSymmetric(a: string, c: string)
      requires IsHypot(hypot) && a in pos && c in pos
      ensures Between(a, c) == Between(c, a) >= 0.0
    {
      var x, y := pos[a].x - pos[c].x, pos[a].y - pos[c].y;
      assert hypot(-x, -y) == hypot(x, y) >= 0.0;
      assert pos[c].x - pos[a].x == -x && pos[c].y - pos[a].y == -y;
    }
  }

  type Join = (string, string)

  /** The connection joins these two islands, one way round or the other. */
  ghost predicate Joins(n: Net, e: Join, i: nat, j: nat) {
    i < |n.islands| && j < |n.islands|
    && ((e.0 in n.islands[i] && e.1 in n.islands[j]) || (e.1 in n.islands[i] && e.0 in n.islands[j]))
  }

  /** Connections that could be made: between pads whose position is known, on islands of the net. */
  ghost predicate Makeable(n: Net, ts: seq<Join>) {
    forall k :: 0 <= k < |ts| ==> ts[k].0 in n.pos && ts[k].1 in n.pos
  }

  ghost predicate Linked(n: Net, ts: seq<Join>, i: nat, j: nat) {
    exists k :: 0 <= k < |ts| && Joins(n, ts[k], i, j)
  }

  /** A way from island to island over these connections. */
  ghost predicate Chain(n: Net, ts: seq<Join>, p: seq<nat>) {
    p != [] && (forall i :: 0 <= i < |p| ==> p[i] < |n.islands|)
    && forall i :: 0 <= i < |p| - 1 ==> Linked(n, ts, p[i], p[i + 1])
  }

  ghost predicate Reaches(n: Net, ts: seq<Join>, s: set<nat>, v: nat) {
    exists p :: Chain(n, ts, p) && p[0] == v && p[|p| - 1] in s
  }

  /** Every island is connected to one in `s`. */
  ghost predicate ConnectsTo(n: Net, ts: seq<Join>, s: set<nat>) {
    forall v: nat :: v < |n.islands| ==> Reaches(n, ts, s, v)
  }

  /** Every island is connected to every other. */
  ghost predicate ConnectsAll(n: Net, ts: seq<Join>) {
    forall u: nat, v: nat :: u < |n.islands| && v < |n.islands| ==> Reaches(n, ts, {u}, v)
  }

  ghost function Total(n: Net, ts: seq<Join>): real
    requires Makeable(n, ts)
  {
    if ts == [] then 0.0 else Total(n, ts[..|ts| - 1]) + n.Between(ts[|ts| - 1].0, ts[|ts| - 1].1)
  }

  // ---- taking one connection out ----

  lemma {:induction false} TotalWithout(n: Net, ts: seq<Join>, k: nat)
    requires Makeable(n, ts) && k < |ts|
    ensures Makeable(n, Without(ts, k))
    ensures Total(n, ts) == Total(n, Without(ts, k)) + n.Between(ts[k].0, ts[k].1)
    decreases |ts|
  {
    var w := Without(ts, k);
    forall i | 0 <= i < |w| ensures w[i].0 in n.pos && w[i].1 in n.pos {
      assert w[i] == ts[if i < k then i else i + 1];
    }
    if k == |ts| - 1 {
      assert w == ts[..|ts| - 1];
    } else {
      TotalWithout(n, ts[..|ts| - 1], k);
      assert w[..|w| - 1] == Without(ts[..|ts| - 1], k);
    }
  }

  lemma {:induction false} TotalIsNonNegative(n: Net, ts: seq<Join>)
    requires n.Valid() && Makeable(n, ts)
    ensures Total(n, ts) >= 0.0
  {
    if ts != [] {
      TotalIsNonNegative(n, ts[..|ts| - 1]);
      n.BetweenIsSymmetric(ts[|ts| - 1].0, ts[|ts| - 1].1);
    }
  }

  /** A link that the connection taken out does not make is still there. */
  lemma LinkRemains(n: Net, ts: seq<Join>, k: nat, q: nat, i: nat, j: nat)
    requires k < |ts| && q < |ts| && q != k && Joins(n, ts[q], i, j)
    ensures Linked(n, Without(ts, k), i, j)
  {
    var w := Without(ts, k);
    assert w[if q < k then q else q - 1] == ts[q];
  }

  /** The part of a way before it first comes into `s`. */
  lemma FirstHit(n: Net, ts: seq<Join>, s: set<nat>, p: seq<nat>) returns (e: nat)
    requires Chain(n, ts, p) && p[|p| - 1] in s
    ensures e < |p| && p[e] in s && forall i :: 0 <= i < e ==> p[i] !in s
  {
    e := 0;
    while p[e] !in s
      invariant e < |p| && forall i :: 0 <= i < e ==> p[i] !in s
      decreases |p| - e
    {
      e := e + 1;
    }
  }

  /** Ways that stay outside `s` do not use a connection with an end in `s`. */
  lemma OutsideRemains(n: Net, ts: seq<Join>, k: nat, s: set<nat>, x: nat, y: nat, i: nat, j: nat)
    requires n.Valid() && k < |ts| && Joins(n, ts[k], x, y) && y in s
    requires Linked(n, ts, i, j) && i !in s && j !in s
    ensures Linked(n, Without(ts, k), i, j)
  {
    var q :| 0 <= q < |ts| && Joins(n, ts[q], i, j);
    if q == k { assert false; }
    LinkRemains(n, ts, k, q, i, j);
  }

  /** The exchange: to bring island `v` in, some connection crossing into `s` can be given up. */
  lemma GiveUpOne(n: Net, ts: seq<Join>, s: set<nat>, v: nat) returns (k: nat, x: nat, y: nat)
    requires n.Valid() && ConnectsTo(n, ts, s) && v < |n.islands| && v !in s
    ensures k < |ts| && x !in s && y in s && Joins(n, ts[k], x, y)
    ensures ConnectsTo(n, Without(ts, k), s + {v})
  {
    assert Reaches(n, ts, s, v);
    var p :| Chain(n, ts, p) && p[0] == v && p[|p| - 1] in s;
    var e := FirstHit(n, ts, s, p);
    x, y := p[e - 1], p[e];
    assert Linked(n, ts, p[e - 1], p[e]);
    k :| 0 <= k < |ts| && Joins(n, ts[k], x, y);
    forall z: nat | z < |n.islands| ensures Reaches(n, Without(ts, k), s + {v}, z) {
      Rerouted(n, ts, s, p, e, k, z);
    }
  }

  lemma Rerouted(n: Net, ts: seq<Join>, s: set<nat>, p: seq<nat>, e: nat, k: nat, z: nat)
    requires n.Valid() && ConnectsTo(n, ts, s) && z < |n.islands|
    requires Chain(n, ts, p) && 0 < e < |p| && p[e] in s && forall i :: 0 <= i < e ==> p[i] !in s
    requires k < |ts| && Joins(n, ts[k], p[e - 1], p[e])
    ensures Reaches(n, Without(ts, k), s + {p[0]}, z)
  {
    var w := Without(ts, k);
    assert Reaches(n, ts, s, z);
    var q :| Chain(n, ts, q) && q[0] == z && q[|q| - 1] in s;
    var f: int := FirstHit(n, ts, s, q);
    forall i | 0 <= i < f - 1 ensures Linked(n, w, q[i], q[i + 1]) {
      OutsideRemains(n, ts, k, s, p[e - 1], p[e], q[i], q[i + 1]);
    }
    if f == 0 {
      assert Chain(n, w, [z]);
    } else if Linked(n, w, q[f - 1], q[f]) {
      assert Chain(n, w, q[..f + 1]);
    } else {
      // the last step used the connection given up: turn back along p instead
      assert Linked(n, ts, q[f - 1], q[f]);
      var h :| 0 <= h < |ts| && Joins(n, ts[h], q[f - 1], q[f]);
      if h != k { LinkRemains(n, ts, k, h, q[f - 1], q[f]); }
      assert q[f - 1] == p[e - 1];
      TurnBack(n, ts, s, p, e, k, q[..f]);
    }
  }

  /** A way up to the outer end of the connection given up goes on, backwards, along `p`. */
  lemma TurnBack(n: Net, ts: seq<Join>, s: set<nat>, p: seq<nat>, e: nat, k: nat, q: seq<nat>)
    requires n.Valid() && Chain(n, ts, p) && 0 < e < |p| && p[e] in s && forall i :: 0 <= i < e ==> p[i] !in s
    requires k < |ts| && Joins(n, ts[k], p[e - 1], p[e])
    requires Chain(n, Without(ts, k), q) && q[|q| - 1] == p[e - 1]
    ensures Reaches(n, Without(ts, k), s + {p[0]}, q[0])
    decreases e
  {
    hide Joins, Linked;
    var w := Without(ts, k);
    var i, r := e - 1, q;
    while i > 0
      invariant 0 <= i < e && Chain(n, w, r) && r[|r| - 1] == p[i] && r[0] == q[0]
    {
      assert Linked(n, ts, p[i - 1], p[i]);
      OutsideRemains(n, ts, k, s, p[e - 1], p[e], p[i - 1], p[i]);
      LinkIsSymmetric(n, w, p[i - 1], p[i]);
      i, r := i - 1, r + [p[i - 1]];
    }
    assert Reaches(n, w, s + {p[0]}, q[0]);
  }

  lemma LinkIsSymmetric(n: Net, ts: seq<Join>, i: nat, j: nat)
    requires Linked(n, ts, i, j)
    ensures Linked(n, ts, j, i)
  {
    var k :| 0 <= k < |ts| && Joins(n, ts[k], i, j);
    assert Joins(n, ts[k], j, i);
  }

  // ---- building ways up ----

  lemma ChainGrows(n: Net, ts: seq<Join>, e: Join, p: seq<nat>)
    requires Chain(n, ts, p)
    ensures Chain(n, ts + [e], p)
  {
    var us := ts + [e];
    forall i | 0 <= i < |p| - 1 ensures Linked(n, us, p[i], p[i + 1]) {
      assert Linked(n, ts, p[i], p[i + 1]);
      var k :| 0 <= k < |ts| && Joins(n, ts[k], p[i], p[i + 1]);
      assert us[k] == ts[k];
    }
  }

  lemma {:induction false} ChainBack(n: Net, ts: seq<Join>, p: seq<nat>) returns (r: seq<nat>)
    requires Chain(n, ts, p)
    ensures Chain(n, ts, r) && r[0] == p[|p| - 1] && r[|r| - 1] == p[0]
    decreases |p|
  {
    hide Linked;
    if |p| == 1 {
      r := p;
    } else {
      var s := ChainBack(n, ts, p[1..]);
      assert Linked(n, ts, p[0], p[1]);
      LinkIsSymmetric(n, ts, p[0], p[1]);
      r := s + [p[0]];
    }
  }

  /** If everything is connected to island 0, everything is connected to everything. */
  lemma ThroughTheFirst(n: Net, ts: seq<Join>)
    requires ConnectsTo(n, ts, {0})
    ensures ConnectsAll(n, ts)
  {
    hide Linked;
    forall u: nat, v: nat | u < |n.islands| && v < |n.islands| ensures Reaches(n, ts, {u}, v) {
      assert Reaches(n, ts, {0}, u) && Reaches(n, ts, {0}, v);
      var p :| Chain(n, ts, p) && p[0] == v && p[|p| - 1] in {0};
      var q :| Chain(n, ts, q) && q[0] == u && q[|q| - 1] in {0};
      var r := ChainBack(n, ts, q);
      var w := p + r[1..];
      forall i | 0 <= i < |w| - 1 ensures Linked(n, ts, w[i], w[i + 1]) {
        if i < |p| - 1 {
          assert Linked(n, ts, p[i], p[i + 1]);
        } else {
          assert w[i] == r[i - |p| + 1] && w[i + 1] == r[i - |p| + 2];
        }
      }
      assert Chain(n, ts, w) && w[|w| - 1] == u;
    }
  }

  lemma NewlyReached(n: Net, ts: seq<Join>, e: Join, i: nat, j: nat)
    requires Reaches(n, ts, {0}, i) && Joins(n, e, i, j)
    ensures Reaches(n, ts + [e], {0}, j)
  {
    var p :| Chain(n, ts, p) && p[0] == i && p[|p| - 1] in {0};
    ChainGrows(n, ts, e, p);
    assert (ts + [e])[|ts|] == e && Joins(n, e, j, i);
    assert Linked(n, ts + [e], j, i);
    var q := [j] + p;
    forall k | 0 <= k < |q| - 1 ensures Linked(n, ts + [e], q[k], q[k + 1]) {
      if k > 0 { assert q[k] == p[k - 1] && q[k + 1] == p[k]; }
    }
    assert Chain(n, ts + [e], q) && q[0] == j;
  }

  lemma StillReached(n: Net, ts: seq<Join>, e: Join, s: set<nat>, j: nat)
    requires Reaches(n, ts, s, j)
    ensures Reaches(n, ts + [e], s, j)
  {
    var p :| Chain(n, ts, p) && p[0] == j && p[|p| - 1] in s;
    ChainGrows(n, ts, e, p);
  }

  // ---- what makes the result the cheapest ----

  /** Any set that connects everything costs at least what is spent already plus what it takes
      to bring in the rest. */
  ghost predicate Cheapest(n: Net, done: seq<Join>, s: set<nat>)
    requires Makeable(n, done)
  {
    forall ts :: Makeable(n, ts) && ConnectsTo(n, ts, {0}) ==> CanFinish(n, done, s, ts)
  }

  ghost predicate CanFinish(n: Net, done: seq<Join>, s: set<nat>, ts: seq<Join>)
    requires Makeable(n, done) && Makeable(n, ts)
  {
    exists rest :: Makeable(n, rest) && ConnectsTo(n, rest, s) && Total(n, done) + Total(n, rest) <= Total(n, ts)
  }

  /** A pad of island `c.0`, inside `s`, and a pad of island `c.1`, outside it; both where they can be found. */
  ghost predicate Crossing(n: Net, s: set<nat>, c: Pads) {
    c.0 in s && c.1 !in s && Known(n, c)
  }

  type Pads = (nat, nat, string, string)

  ghost predicate Known(n: Net, c: Pads) {
    c.0 < |n.islands| && c.1 < |n.islands| && c.2 in n.islands[c.0] && c.3 in n.islands[c.1] && c.2 in n.pos && c.3 in n.pos
  }

  /** The shortest connection from inside to outside. */
  ghost predicate NearestOut(n: Net, s: set<nat>, e: Join, i: nat, j: nat)
    requires IsHypot(n.hypot)
  {
    Crossing(n, s, (i, j, e.0, e.1))
    && forall c: Pads :: Crossing(n, s, c) ==> n.Between(e.0, e.1) <= n.Between(c.2, c.3)
  }

  lemma NearestKeepsCheapest(n: Net, done: seq<Join>, s: set<nat>, e: Join, i: nat, j: nat)
    requires n.Valid() && Makeable(n, done) && Cheapest(n, done, s) && NearestOut(n, s, e, i, j)
    ensures Makeable(n, done + [e]) && Cheapest(n, done + [e], s + {j})
  {
    hide ConnectsTo, Total, NearestOut;
    assert Makeable(n, done + [e]) by { PositionsOf(n, s, e, i, j); }
    forall ts | Makeable(n, ts) && ConnectsTo(n, ts, {0}) ensures CanFinish(n, done + [e], s + {j}, ts) {
      assert CanFinish(n, done, s, ts);
      var rest :| Makeable(n, rest) && ConnectsTo(n, rest, s) && Total(n, done) + Total(n, rest) <= Total(n, ts);
      PositionsOf(n, s, e, i, j);
      var k, x, y := GiveUpOne(n, rest, s, j);
      TotalWithout(n, rest, k);
      NearestIsCheaper(n, s, e, i, j, rest[k], x, y);
      TotalWith(n, done, e);
    }
  }

  lemma PositionsOf(n: Net, s: set<nat>, e: Join, i: nat, j: nat)
    requires IsHypot(n.hypot) && NearestOut(n, s, e, i, j)
    ensures e.0 in n.pos && e.1 in n.pos && j < |n.islands| && j !in s
  {
  }

  lemma TotalWith(n: Net, ts: seq<Join>, e: Join)
    requires Makeable(n, ts) && Makeable(n, ts + [e]) && e.0 in n.pos && e.1 in n.pos
    ensures Total(n, ts + [e]) == Total(n, ts) + n.Between(e.0, e.1)
  {
    assert (ts + [e])[..|ts|] == ts;
  }

  lemma NearestIsCheaper(n: Net, s: set<nat>, e: Join, i: nat, j: nat, f: Join, x: nat, y: nat)
    requires n.Valid() && NearestOut(n, s, e, i, j) && Joins(n, f, x, y) && x !in s && y in s
    requires f.0 in n.pos && f.1 in n.pos
    ensures n.Between(e.0, e.1) <= n.Between(f.0, f.1)
  {
    n.BetweenIsSymmetric(f.0, f.1);
    assert Crossing(n, s, (y, x, f.0, f.1)) || Crossing(n, s, (y, x, f.1, f.0));
  }

  // ---- the search for the nearest island not yet reached ----

  /** The best connection seen so far; a negative length says none has been. */
  datatype Best = Best(d: real, to: int, from: string, pad: string)

  ghost predicate IsBest(n: Net, b: Best, seen: set<Pads>)
    requires IsHypot(n.hypot)
  {
    if b.d < 0.0 then b.to < 0 && seen == {}
    else
      && b.to >= 0 && b.from in n.pos && b.pad in n.pos && b.d == n.Between(b.from, b.pad)
      && (exists i: nat :: (i, b.to, b.from, b.pad) in seen)
      && forall c: Pads :: c in seen ==> c.2 in n.pos && c.3 in n.pos && b.d <= n.Between(c.2, c.3)
  }

  /** Looks at every pair of a pad and the pads of an island. */
  method LookFrom(n: Net, i: nat, j: nat, a: string, b: Best, ghost seen: set<Pads>)
    returns (b': Best, ghost seen': set<Pads>)
    requires n.Valid() && i < |n.islands| && j < |n.islands| && a in n.islands[i] && a in n.pos && IsBest(n, b, seen)
    ensures IsBest(n, b', seen')
    ensures forall c: Pads :: c in seen' <==> c in seen || (c.0 == i && c.1 == j && c.2 == a && Known(n, c))
  {
    b', seen' := b, seen;
    for q := 0 to |n.islands[j]|
      invariant IsBest(n, b', seen')
      invariant forall c: Pads :: c in seen' <==>
        c in seen || (c.0 == i && c.1 == j && c.2 == a && Known(n, c) && c.3 in n.islands[j][..q])
    {
      var c := n.islands[j][q];
      if c !in n.pos { continue; }
      var d := n.Between(a, c);
      n.BetweenIsSymmetric(a, c);
      SeenOneMore(n, b', seen', (i, j, a, c));
      if b'.d < 0.0 || d < b'.d { b' := Best(d, j, a, c); }
      seen' := seen' + {(i, j, a, c)};
    }
    assert n.islands[j][..|n.islands[j]|] == n.islands[j];
  }

  lemma SeenOneMore(n: Net, b: Best, seen: set<Pads>, c: Pads)
    requires IsHypot(n.hypot) && IsBest(n, b, seen) && Known(n, c)
    ensures var d := n.Between(c.2, c.3);
      IsBest(n, if b.d < 0.0 || d < b.d then Best(d, c.1, c.2, c.3) else b, seen + {c})
  {
    n.BetweenIsSymmetric(c.2, c.3);
    assert (c.0, c.1, c.2, c.3) in seen + {c};
  }

  /** Looks at every pair of pads of two islands. */
  method LookBetween(n: Net, i: nat, j: nat, b: Best, ghost seen: set<Pads>)
    returns (b': Best, ghost seen': set<Pads>)
    requires n.Valid() && i < |n.islands| && j < |n.islands| && IsBest(n, b, seen)
    ensures IsBest(n, b', seen')
    ensures forall c: Pads :: c in seen' <==> c in seen || (c.0 == i && c.1 == j && Known(n, c))
  {
    b', seen' := b, seen;
    for p := 0 to |n.islands[i]|
      invariant IsBest(n, b', seen')
      invariant forall c: Pads :: c in seen' <==>
        c in seen || (c.0 == i && c.1 == j && Known(n, c) && c.2 in n.islands[i][..p])
    {
      var a := n.islands[i][p];
      if a !in n.pos { continue; }
      b', seen' := LookFrom(n, i, j, a, b', seen');
    }
    assert n.islands[i][..|n.islands[i]|] == n.islands[i];
  }

  /** The nearest connection out of the islands reached so far. */
  method Nearest(n: Net, s: set<nat>) returns (b: Best)
    requires n.Valid()
    ensures b.d < 0.0 ==> b.to < 0 && forall c: Pads :: !Crossing(n, s, c)
    ensures b.d >= 0.0 ==> b.to >= 0 && exists i: nat :: NearestOut(n, s, (b.from, b.pad), i, b.to)
  {
    b := Best(-1.0, -1, "", "");
    ghost var seen: set<Pads> := {};
    for i := 0 to |n.islands|
      invariant IsBest(n, b, seen)
      invariant forall c: Pads :: c in seen <==> Crossing(n, s, c) && c.0 < i
    {
      if i !in s { continue; }
      for j := 0 to |n.islands|
        invariant IsBest(n, b, seen)
        invariant forall c: Pads :: c in seen <==> Crossing(n, s, c) && (c.0 < i || (c.0 == i && c.1 < j))
      {
        if j in s { continue; }
        b, seen := LookBetween(n, i, j, b, seen);
      }
    }
    if b.d >= 0.0 {
      ghost var i: nat :| (i, b.to, b.from, b.pad) in seen;
      assert NearestOut(n, s, (b.from, b.pad), i, b.to);
    }
  }

  // ---- the tree ----

  ghost predicate Positioned(n: Net, i: nat) {
    i < |n.islands| && exists p :: p in n.islands[i] && p in n.pos
  }

  /** What holds after every connection: `s` are the islands reached. */
  ghost predicate Growing(n: Net, out: seq<Join>, s: set<nat>) {
    && Makeable(n, out) && 0 in s && |s| == |out| + 1
    && (forall v :: v in s ==> v < |n.islands| && Reaches(n, out, {0}, v))
    && (|s| > 1 ==> forall v :: v in s ==> Positioned(n, v))
    && Cheapest(n, out, s)
  }

  lemma StartsGrowing(n: Net)
    requires n.islands != []
    ensures Growing(n, [], {0})
  {
    assert Chain(n, [], [0]);
    forall ts | Makeable(n, ts) && ConnectsTo(n, ts, {0}) ensures CanFinish(n, [], {0}, ts) {
      assert Total(n, []) + Total(n, ts) <= Total(n, ts);
    }
  }

  lemma Grows(n: Net, out: seq<Join>, s: set<nat>, e: Join, i: nat, j: nat)
    requires n.Valid() && Growing(n, out, s) && NearestOut(n, s, e, i, j)
    ensures Makeable(n, out + [e]) && Growing(n, out + [e], s + {j})
    ensures |s| < |s + {j}| <= |n.islands|
  {
    n.ValidIsHypot();
    hide Net.Valid, IsHypot, Cheapest, Reaches, Positioned, Joins, NearestOut, Makeable;
    EndsArePositioned(n, s, e, i, j);
    AtMost(|n.islands|, s + {j});
    NearestKeepsCheapest(n, out, s, e, i, j);
    if |s| == 1 { OnlyElement(s, i); }
    AllReached(n, out, s, e, i, j);
  }

  lemma AllReached(n: Net, out: seq<Join>, s: set<nat>, e: Join, i: nat, j: nat)
    requires (forall v :: v in s ==> v < |n.islands| && Reaches(n, out, {0}, v)) && i in s && Joins(n, e, i, j)
    ensures forall v :: v in s + {j} ==> v < |n.islands| && Reaches(n, out + [e], {0}, v)
  {
    hide Reaches;
    NewlyReached(n, out, e, i, j);
    forall v | v in s + {j} ensures Reaches(n, out + [e], {0}, v) {
      if v != j { StillReached(n, out, e, {0}, v); }
    }
  }

  lemma EndsArePositioned(n: Net, s: set<nat>, e: Join, i: nat, j: nat)
    requires IsHypot(n.hypot) && NearestOut(n, s, e, i, j)
    ensures Positioned(n, i) && Positioned(n, j) && Joins(n, e, i, j) && i in s && j !in s
    ensures i < |n.islands| && j < |n.islands|
  {
  }

  lemma OnlyElement(s: set<nat>, i: nat)
    requires |s| == 1 && i in s
    ensures forall v :: v in s ==> v == i
  {
    var others := s - {i};
    assert |others| == 0;
    forall v | v in s ensures v == i { assert v in others || v == i; }
  }

  lemma {:induction false} NotAll(n: nat, s: set<nat>) returns (j: nat)
    requires |s| < n
    ensures j < n && j !in s
  {
    if n - 1 in s {
      j := NotAll(n - 1, s - {n - 1});
    } else {
      j := n - 1;
    }
  }

  lemma {:induction false} AllOfThem(n: nat, s: set<nat>)
    requires |s| == n && forall v :: v in s ==> v < n
    ensures forall v: nat :: v < n ==> v in s
  {
    if n > 0 {
      if n - 1 !in s { AtMost(n - 1, s); }
      AllOfThem(n - 1, s - {n - 1});
      forall v: nat | v < n ensures v in s { assert v < n - 1 ==> v in s - {n - 1}; }
    }
  }

  lemma {:induction false} AtMost(n: nat, s: set<nat>)
    requires forall v :: v in s ==> v < n
    ensures |s| <= n
  {
    if n > 0 { AtMost(n - 1, s - {n - 1}); }
  }

  /** Joins the nearest island not yet reached, until all are or none can be. */
  method JoinNearest(n: Net) returns (out: seq<Join>, ghost s: set<nat>)
    requires n.Valid() && n.islands != []
    ensures Growing(n, out, s)
    ensures |s| == |n.islands| || (|s| < |n.islands| && forall c: Pads :: !Crossing(n, s, c))
  {
    n.ValidIsHypot();
    hide Net.Valid, IsHypot, Growing, NearestOut, Crossing;
    out := [];
    var reached: set<nat> := {0};
    StartsGrowing(n);
    while |reached| < |n.islands|
      invariant Growing(n, out, reached) && |reached| <= |n.islands|
    {
      var b := Nearest(n, reached);
      if b.d < 0.0 { break; }
      var to: nat, e := b.to, (b.from, b.pad);
      ghost var i: nat :| NearestOut(n, reached, e, i, to);
      Grows(n, out, reached, e, i, to);
      reached, out := reached + {to}, out + [e];
    }
    s := reached;
  }

  /** The connections to make. There is one fewer than there are islands, and they connect them all as cheaply
      as any set of connections could, exactly when every island has a pad whose position is known
      (or there is nothing to join). */
  method Joining(n: Net) returns (out: seq<Join>)
    requires n.Valid()
    ensures Makeable(n, out)
    ensures n.islands != [] ==>
      (|out| == |n.islands| - 1 <==> |n.islands| == 1 || forall i :: 0 <= i < |n.islands| ==> Positioned(n, i))
    ensures n.islands != [] && |out| == |n.islands| - 1 ==>
      ConnectsAll(n, out)
      && forall ts :: Makeable(n, ts) && ConnectsAll(n, ts) ==> Total(n, out) <= Total(n, ts)
    ensures n.islands == [] || !Positioned(n, 0) ==> out == []
    ensures Positioned(n, 0) ==> |out| + 1 == |PositionedOnes(n)| && forall v :: v in PositionedOnes(n) ==> Reaches(n, out, {0}, v)
  {
    if n.islands == [] { return []; }
    hide Net.Valid, ConnectsAll, Total, Positioned, Crossing, Reaches;
    ghost var s;
    out, s := JoinNearest(n);
    ReachesPositioned(n, out, s);
    if |s| == |n.islands| { Finished(n, out, s); } else { Stuck(n, out, s); }
  }

  ghost function PositionedOnes(n: Net): set<nat> { set i: nat | i < |n.islands| && Positioned(n, i) }

  /** Where not every island has a positioned pad, those that have are joined, if the first is one of them. */
  lemma ReachesPositioned(n: Net, out: seq<Join>, s: set<nat>)
    requires n.Valid() && n.islands != [] && Growing(n, out, s)
    requires |s| == |n.islands| || forall c: Pads :: !Crossing(n, s, c)
    ensures !Positioned(n, 0) ==> out == []
    ensures Positioned(n, 0) ==> s == PositionedOnes(n)
  {
    hide Cheapest, Reaches;
    if Positioned(n, 0) {
      if |s| == 1 { OnlyElement(s, 0); }
      forall j: nat | j < |n.islands| && Positioned(n, j) ensures j in s {
        if |s| == |n.islands| {
          AllOfThem(|n.islands|, s);
        } else if j !in s {
          var p :| p in n.islands[0] && p in n.pos;
          var q :| q in n.islands[j] && q in n.pos;
          PadsCross(n, s, 0, j, p, q);
          assert false;
        }
      }
    }
  }

  lemma PadsCross(n: Net, s: set<nat>, i: nat, j: nat, a: string, c: string)
    requires i in s && j !in s && Known(n, (i, j, a, c))
    ensures Crossing(n, s, (i, j, a, c))
  {
  }

  lemma Stuck(n: Net, out: seq<Join>, s: set<nat>)
    requires n.Valid() && n.islands != [] && Growing(n, out, s) && |s| < |n.islands|
    requires forall c: Pads :: !Crossing(n, s, c)
    ensures |out| < |n.islands| - 1 && exists i :: 0 <= i < |n.islands| && !Positioned(n, i)
    ensures |n.islands| > 1
  {
    hide Cheapest, Reaches;
    var j := NotAll(|n.islands|, s);
    if Positioned(n, 0) && Positioned(n, j) {
      var p :| p in n.islands[0] && p in n.pos;
      var q :| q in n.islands[j] && q in n.pos;
      PadsCross(n, s, 0, j, p, q);
    }
  }

  lemma Finished(n: Net, out: seq<Join>, s: set<nat>)
    requires n.Valid() && n.islands != [] && Growing(n, out, s) && |s| == |n.islands|
    ensures |out| == |n.islands| - 1 && ConnectsAll(n, out)
    ensures |n.islands| == 1 || forall i :: 0 <= i < |n.islands| ==> Positioned(n, i)
    ensures forall ts :: Makeable(n, ts) && ConnectsAll(n, ts) ==> Total(n, out) <= Total(n, ts)
  {
    hide Reaches, Total;
    AllOfThem(|n.islands|, s);
    ThroughTheFirst(n, out);
    forall ts | Makeable(n, ts) && ConnectsAll(n, ts) ensures Total(n, out) <= Total(n, ts) {
      assert ConnectsTo(n, ts, {0});
      assert CanFinish(n, out, s, ts);
      var rest :| Makeable(n, rest) && ConnectsTo(n, rest, s) && Total(n, out) + Total(n, rest) <= Total(n, ts);
      TotalIsNonNegative(n, rest);
    }
  }
}
