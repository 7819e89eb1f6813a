/** Proposing areas for meanders (tune/suggest.go): stretches of track with room beside them are
    gathered into areas, any two that touch or nearly do becoming one. */
module Suggest {
  import opened Common
  import opened Geometry

  datatype Spot = Spot(net: string, box: Rect, gain: real)

  datatype Cluster = Cluster(box: Rect, gain: real, nets: set<string>)

  /** Boxes that touch, or nearly. */
  predicate Near(a: Rect, b: Rect, margin: real) { a.Grow(margin).Overlaps(b) }

  lemma NearIsSymmetric(a: Rect, b: Rect, margin: real)
    ensures Near(a, b, margin) <==> Near(b, a, margin)
  {
  }

  lemma NearGrows(a: Rect, b: Rect, a': Rect, b': Rect, margin: real)
    requires Near(a, b, margin) && a.Within(a') && b.Within(b')
    ensures Near(a', b', margin)
  {
  }

  // ---- what a cluster stands for ----

  /** `box` is exactly as large as the members need. */
  ghost predicate IsHull(spots: seq<Spot>, m: set<nat>, box: Rect) {
    && (forall k :: k in m ==> k < |spots| && spots[k].box.Within(box))
    && (forall r: Rect :: (forall k :: k in m && k < |spots| ==> spots[k].box.Within(r)) ==> box.Within(r))
  }

  ghost function GainOf(spots: seq<Spot>, m: set<nat>): real {
    if spots == [] then 0.0
    else GainOf(spots[..|spots| - 1], m) + if |spots| - 1 in m then spots[|spots| - 1].gain else 0.0
  }

  ghost function NetsOf(spots: seq<Spot>, m: set<nat>): set<string> {
    set k | k in m && k < |spots| :: spots[k].net
  }

  /** The cluster describes exactly these members. */
  ghost predicate Describes(spots: seq<Spot>, c: Cluster, m: set<nat>) {
    m != {} && IsHull(spots, m, c.box) && c.gain == GainOf(spots, m) && c.nets == NetsOf(spots, m)
  }

  /** Blocks without members in common that together are the first `n` spots. */
  ghost predicate Partitions(ms: seq<set<nat>>, n: nat) {
    && (forall i :: 0 <= i < |ms| ==> ms[i] != {})
    && (forall i, k :: 0 <= i < |ms| && k in ms[i] ==> k < n)
    && (forall k: nat :: k < n ==> Together(ms, k, k))
    && (forall i, j, k :: 0 <= i < |ms| && 0 <= j < |ms| && k in ms[i] && k in ms[j] ==> i == j)
  }

  ghost predicate Together(ms: seq<set<nat>>, k: nat, l: nat) {
    exists i :: 0 <= i < |ms| && k in ms[i] && l in ms[i]
  }

  /** A partition of the spots into groups farther apart than the margin. */
  ghost predicate Separated(spots: seq<Spot>, margin: real, ms: seq<set<nat>>, boxes: seq<Rect>) {
    && |ms| == |boxes| && Partitions(ms, |spots|)
    && (forall i :: 0 <= i < |ms| ==> IsHull(spots, ms[i], boxes[i]))
    && (forall i, j :: 0 <= i < |ms| && 0 <= j < |ms| && i != j ==> !Near(boxes[i], boxes[j], margin))
  }

  ghost predicate Inside(m: set<nat>, qs: seq<set<nat>>) {
    exists j :: 0 <= j < |qs| && m <= qs[j]
  }

  /** Every group lies within one group of every separated partition. */
  ghost predicate Unsplittable(spots: seq<Spot>, margin: real, ms: seq<set<nat>>) {
    forall qs, boxes, i :: Separated(spots, margin, qs, boxes) && 0 <= i < |ms| ==> Inside(ms[i], qs)
  }

  lemma HullOfUnion(spots: seq<Spot>, a: set<nat>, b: set<nat>, x: Rect, y: Rect)
    requires IsHull(spots, a, x) && IsHull(spots, b, y)
    ensures IsHull(spots, a + b, x.Union(y))
  {
    forall r: Rect | forall k :: k in a + b && k < |spots| ==> spots[k].box.Within(r)
      ensures x.Union(y).Within(r)
    {
      assert x.Within(r) by { forall k | k in a && k < |spots| ensures spots[k].box.Within(r) { assert k in a + b; } }
      assert y.Within(r) by { forall k | k in b && k < |spots| ensures spots[k].box.Within(r) { assert k in a + b; } }
    }
  }

  lemma {:induction false} GainOfUnion(spots: seq<Spot>, a: set<nat>, b: set<nat>)
    requires a !! b
    ensures GainOf(spots, a + b) == GainOf(spots, a) + GainOf(spots, b)
  {
    if spots != [] { GainOfUnion(spots[..|spots| - 1], a, b); }
  }

  /** Joining two clusters describes both groups together. */
  lemma JoinDescribes(spots: seq<Spot>, c: Cluster, a: set<nat>, d: Cluster, b: set<nat>)
    requires Describes(spots, c, a) && Describes(spots, d, b) && a !! b
    ensures Describes(spots, Cluster(c.box.Union(d.box), c.gain + d.gain, c.nets + d.nets), a + b)
  {
    HullOfUnion(spots, a, b, c.box, d.box);
    GainOfUnion(spots, a, b);
    assert NetsOf(spots, a + b) == NetsOf(spots, a) + NetsOf(spots, b);
  }

  lemma SingleDescribes(spots: seq<Spot>, k: nat)
    requires k < |spots|
    ensures Describes(spots, Cluster(spots[k].box, spots[k].gain, {spots[k].net}), {k})
  {
    assert forall r: Rect :: spots[k].box.Within(r) ==> spots[k].box.Within(r);
    GainOfOne(spots, k);
  }

  lemma {:induction false} GainOfOne(spots: seq<Spot>, k: nat)
    ensures GainOf(spots, {k}) == if k < |spots| then spots[k].gain else 0.0
  {
    if spots != [] { GainOfOne(spots[..|spots| - 1], k); }
  }

  /** Groups that are near are in the same group of every separated partition. */
  lemma NearStaysTogether(spots: seq<Spot>, margin: real, a: set<nat>, x: Rect, b: set<nat>, y: Rect,
                          qs: seq<set<nat>>, boxes: seq<Rect>)
    requires IsHull(spots, a, x) && IsHull(spots, b, y) && Near(x, y, margin)
    requires Separated(spots, margin, qs, boxes) && Inside(a, qs) && Inside(b, qs)
    ensures Inside(a + b, qs)
  {
    var i :| 0 <= i < |qs| && a <= qs[i];
    var j :| 0 <= j < |qs| && b <= qs[j];
    assert x.Within(boxes[i]) by { forall k | k in a && k < |spots| ensures spots[k].box.Within(boxes[i]) { assert k in qs[i]; } }
    assert y.Within(boxes[j]) by { forall k | k in b && k < |spots| ensures spots[k].box.Within(boxes[j]) { assert k in qs[j]; } }
    NearGrows(x, y, boxes[i], boxes[j], margin);
    assert i == j;
  }

  // ---- the clustering ----

  /** The state of the clustering with the first `n` spots in. */
  ghost predicate Gathered(spots: seq<Spot>, margin: real, cs: seq<Cluster>, ms: seq<set<nat>>, n: nat) {
    && n <= |spots| && |cs| == |ms| && Partitions(ms, n)
    && (forall i :: 0 <= i < |cs| ==> Describes(spots, cs[i], ms[i]))
    && Unsplittable(spots, margin, ms)
    && TotalGain(cs) == GainUpTo(spots, n)
  }

  ghost function TotalGain(cs: seq<Cluster>): real {
    if cs == [] then 0.0 else TotalGain(cs[..|cs| - 1]) + cs[|cs| - 1].gain
  }

  ghost function GainUpTo(spots: seq<Spot>, n: nat): real
    requires n <= |spots|
  {
    if n == 0 then 0.0 else GainUpTo(spots, n - 1) + spots[n - 1].gain
  }

  lemma {:induction false} TotalGainUpdate(cs: seq<Cluster>, i: nat, c: Cluster)
    requires i < |cs|
    ensures TotalGain(cs[i := c]) == TotalGain(cs) - cs[i].gain + c.gain
  {
    var ds := cs[i := c];
    if i == |cs| - 1 {
      assert ds[..|ds| - 1] == cs[..|cs| - 1];
    } else {
      TotalGainUpdate(cs[..|cs| - 1], i, c);
      assert ds[..|ds| - 1] == cs[..|cs| - 1][i := c];
    }
  }

  lemma {:induction false} TotalGainDrop(cs: seq<Cluster>, j: nat)
    requires j < |cs|
    ensures TotalGain(Without(cs, j)) == TotalGain(cs) - cs[j].gain
  {
    var ds := Without(cs, j);
    if j == |cs| - 1 {
      assert ds == cs[..|cs| - 1];
    } else {
      TotalGainDrop(cs[..|cs| - 1], j);
      assert ds[..|ds| - 1] == Without(cs[..|cs| - 1], j);
    }
  }

  lemma NewCluster(spots: seq<Spot>, margin: real, cs: seq<Cluster>, ms: seq<set<nat>>, n: nat)
    requires Gathered(spots, margin, cs, ms, n) && n < |spots|
    ensures var s := spots[n];
      Gathered(spots, margin, cs + [Cluster(s.box, s.gain, {s.net})], ms + [{n}], n + 1)
  {
    var c := Cluster(spots[n].box, spots[n].gain, {spots[n].net});
    var cs', ms' := cs + [c], ms + [{n}];
    SingleDescribes(spots, n);
    assert cs'[..|cs'| - 1] == cs;
    forall k: nat | k < n + 1 ensures Together(ms', k, k) {
      if k < n {
        assert Together(ms, k, k);
        var i :| 0 <= i < |ms| && k in ms[i];
        assert k in ms'[i];
      } else {
        assert n in ms'[|ms|];
      }
    }
    forall qs, boxes, i | Separated(spots, margin, qs, boxes) && 0 <= i < |ms'| ensures Inside(ms'[i], qs) {
      if i == |ms| { OneIsInside(spots, margin, qs, boxes, n); }
    }
  }

  lemma OneIsInside(spots: seq<Spot>, margin: real, qs: seq<set<nat>>, boxes: seq<Rect>, k: nat)
    requires Separated(spots, margin, qs, boxes) && k < |spots|
    ensures Inside({k}, qs)
  {
    assert Together(qs, k, k);
    var j :| 0 <= j < |qs| && k in qs[j];
    assert {k} <= qs[j];
  }

  lemma AddToCluster(spots: seq<Spot>, margin: real, cs: seq<Cluster>, ms: seq<set<nat>>, n: nat, h: nat)
    requires Gathered(spots, margin, cs, ms, n) && n < |spots| && h < |cs| && Near(spots[n].box, cs[h].box, margin)
    ensures var s, c := spots[n], cs[h];
      Gathered(spots, margin, cs[h := Cluster(c.box.Union(s.box), c.gain + s.gain, c.nets + {s.net})],
               ms[h := ms[h] + {n}], n + 1)
  {
    hide IsHull, GainOf, NetsOf;
    var s, c := spots[n], cs[h];
    var c' := Cluster(c.box.Union(s.box), c.gain + s.gain, c.nets + {s.net});
    var ms' := ms[h := ms[h] + {n}];
    SingleDescribes(spots, n);
    JoinDescribes(spots, c, ms[h], Cluster(s.box, s.gain, {s.net}), {n});
    TotalGainUpdate(cs, h, c');
    forall k: nat | k < n + 1 ensures Together(ms', k, k) {
      if k < n {
        assert Together(ms, k, k);
        var i :| 0 <= i < |ms| && k in ms[i];
        assert k in ms'[i];
      } else {
        assert n in ms'[h];
      }
    }
    forall qs, boxes, i | Separated(spots, margin, qs, boxes) && 0 <= i < |ms'| ensures Inside(ms'[i], qs) {
      assert Inside(ms[i], qs);
      if i == h {
        OneIsInside(spots, margin, qs, boxes, n);
        NearIsSymmetric(s.box, c.box, margin);
        NearStaysTogether(spots, margin, ms[h], c.box, {n}, s.box, qs, boxes);
      }
    }
  }

  lemma JoinClusters(spots: seq<Spot>, margin: real, cs: seq<Cluster>, ms: seq<set<nat>>, n: nat, i: nat, j: nat)
    requires Gathered(spots, margin, cs, ms, n) && i < j < |cs| && Near(cs[i].box, cs[j].box, margin)
    ensures var c, d := cs[i], cs[j];
      Gathered(spots, margin, Without(cs[i := Cluster(c.box.Union(d.box), c.gain + d.gain, c.nets + d.nets)], j),
               Without(ms[i := ms[i] + ms[j]], j), n)
  {
    hide IsHull, GainOf, NetsOf, Partitions;
    var c, d := cs[i], cs[j];
    var c' := Cluster(c.box.Union(d.box), c.gain + d.gain, c.nets + d.nets);
    var ms' := Without(ms[i := ms[i] + ms[j]], j);
    JoinPartitions(ms, n, i, j);
    JoinDescribes(spots, c, ms[i], d, ms[j]);
    TotalGainUpdate(cs, i, c');
    TotalGainDrop(cs[i := c'], j);
    forall qs, boxes, x | Separated(spots, margin, qs, boxes) && 0 <= x < |ms'| ensures Inside(ms'[x], qs) {
      assert Inside(ms[i], qs) && Inside(ms[j], qs);
      assert Inside(ms[if x < j then x else x + 1], qs);
      if x == i { NearStaysTogether(spots, margin, ms[i], c.box, ms[j], d.box, qs, boxes); }
    }
  }

  lemma JoinPartitions(ms: seq<set<nat>>, n: nat, i: nat, j: nat)
    requires Partitions(ms, n) && i < j < |ms|
    ensures Partitions(Without(ms[i := ms[i] + ms[j]], j), n) && ms[i] !! ms[j]
  {
    var ms' := Without(ms[i := ms[i] + ms[j]], j);
    assert forall x :: 0 <= x < |ms'| ==> ms'[x] == if x == i then ms[i] + ms[j] else if x < j then ms[x] else ms[x + 1];
    forall k: nat | k < n ensures Together(ms', k, k) {
      assert Together(ms, k, k);
      var x :| 0 <= x < |ms| && k in ms[x];
      assert k in ms'[if x == j then i else if x < j then x else x - 1];
    }
    forall x, y, k | 0 <= x < |ms'| && 0 <= y < |ms'| && k in ms'[x] && k in ms'[y] ensures x == y {
      var x' := if x == i then (if k in ms[i] then i else j) else if x < j then x else x + 1;
      var y' := if y == i then (if k in ms[i] then i else j) else if y < j then y else y + 1;
      assert k in ms[x'] && k in ms[y'];
    }
  }

  /** Clusters spots into areas. What comes back is the one finest way of dividing the spots into groups
      farther apart than the margin, each described exactly. */
  method Gather(spots: seq<Spot>, margin: real) returns (cs: seq<Cluster>, ghost ms: seq<set<nat>>)
    ensures |cs| == |ms| && forall i :: 0 <= i < |cs| ==> Describes(spots, cs[i], ms[i])
    ensures Separated(spots, margin, ms, Boxes(cs)) && Unsplittable(spots, margin, ms)
    ensures TotalGain(cs) == GainUpTo(spots, |spots|)
  {
    hide Describes, Unsplittable, Partitions, TotalGain, GainUpTo;
    cs, ms := [], [];
    assert Gathered(spots, margin, cs, ms, 0) by { Nothing(spots, margin); }
    for n := 0 to |spots|
      invariant Gathered(spots, margin, cs, ms, n)
    {
      var s := spots[n];
      var grown := s.box.Grow(margin);
      var h := 0;
      while h < |cs| && !cs[h].box.Overlaps(grown)
        invariant 0 <= h <= |cs|
      {
        h := h + 1;
      }
      if h == |cs| {
        NewCluster(spots, margin, cs, ms, n);
        cs, ms := cs + [Cluster(s.box, s.gain, {s.net})], ms + [{n}];
      } else {
        AddToCluster(spots, margin, cs, ms, n, h);
        var c := cs[h];
        cs := cs[h := Cluster(c.box.Union(s.box), c.gain + s.gain, c.nets + {s.net})];
        ms := ms[h := ms[h] + {n}];
      }
    }
    var merged := true;
    while merged
      invariant Gathered(spots, margin, cs, ms, |spots|)
      invariant !merged ==> forall x, y :: 0 <= x < y < |cs| ==> !Near(cs[x].box, cs[y].box, margin)
      decreases |cs|, merged
    {
      merged := false;
      ghost var before := cs;
      var i := 0;
      while i < |cs| && !merged
        invariant 0 <= i <= |cs| && Gathered(spots, margin, cs, ms, |spots|)
        invariant if merged then |cs| < |before| else
          cs == before && forall x, y :: 0 <= x < i && x < y < |cs| ==> !Near(cs[x].box, cs[y].box, margin)
        decreases |before| - i + (if merged then 0 else 1)
      {
        var j := i + 1;
        while j < |cs| && !cs[i].box.Grow(margin).Overlaps(cs[j].box)
          invariant i < j <= |cs| && forall y :: i < y < j ==> !Near(cs[i].box, cs[y].box, margin)
        {
          j := j + 1;
        }
        if j < |cs| {
          JoinClusters(spots, margin, cs, ms, |spots|, i, j);
          var c, d := cs[i], cs[j];
          cs := cs[i := Cluster(c.box.Union(d.box), c.gain + d.gain, c.nets + d.nets)];
          cs := cs[..j] + cs[j + 1..];
          ms := Without(ms[i := ms[i] + ms[j]], j);
          merged := true;
        } else {
          i := i + 1;
        }
      }
    }
    Gathers(spots, margin, cs, ms);
  }

  ghost function Boxes(cs: seq<Cluster>): seq<Rect> {
    seq(|cs|, i requires 0 <= i < |cs| => cs[i].box)
  }

  lemma Nothing(spots: seq<Spot>, margin: real)
    ensures Gathered(spots, margin, [], [], 0)
  {
  }

  lemma Gathers(spots: seq<Spot>, margin: real, cs: seq<Cluster>, ms: seq<set<nat>>)
    requires Gathered(spots, margin, cs, ms, |spots|)
    requires forall x, y :: 0 <= x < y < |cs| ==> !Near(cs[x].box, cs[y].box, margin)
    ensures Separated(spots, margin, ms, Boxes(cs))
  {
    hide IsHull, Partitions;
    forall i, j | 0 <= i < |ms| && 0 <= j < |ms| && i != j ensures !Near(Boxes(cs)[i], Boxes(cs)[j], margin) {
      NearIsSymmetric(cs[i].box, cs[j].box, margin);
    }
  }

  // ---- the order the spots arrive in does not matter ----

  /** Renumbering: spot `k` of one list is spot `p[k]` of the other. */
  ghost predicate Renumbers(spots: seq<Spot>, spots': seq<Spot>, p: seq<nat>, q: seq<nat>) {
    |spots| == |spots'| == |p| == |q|
    && (forall k :: 0 <= k < |p| ==> p[k] < |p| && q[k] < |p| && q[p[k]] == k && p[q[k]] == k)
    && (forall k :: 0 <= k < |p| ==> spots'[p[k]] == spots[k])
  }

  /** The groups of the other list, in this list's numbering. */
  ghost function PulledBack(ms': seq<set<nat>>, p: seq<nat>): seq<set<nat>> {
    seq(|ms'|, i requires 0 <= i < |ms'| => set k | 0 <= k < |p| && p[k] in ms'[i])
  }

  lemma PulledBackIsSeparated(spots: seq<Spot>, spots': seq<Spot>, p: seq<nat>, q: seq<nat>, margin: real,
                              ms': seq<set<nat>>, boxes: seq<Rect>)
    requires Renumbers(spots, spots', p, q) && Separated(spots', margin, ms', boxes)
    ensures Separated(spots, margin, PulledBack(ms', p), boxes)
  {
    var ms := PulledBack(ms', p);
    forall i | 0 <= i < |ms| ensures ms[i] != {} {
      var l :| l in ms'[i];
      assert q[l] in ms[i];
    }
    forall k: nat | k < |spots| ensures Together(ms, k, k) {
      assert Together(ms', p[k], p[k]);
      var i :| 0 <= i < |ms'| && p[k] in ms'[i];
      assert k in ms[i];
    }
    forall i | 0 <= i < |ms| ensures IsHull(spots, ms[i], boxes[i]) {
      HullPulledBack(spots, spots', p, q, ms'[i], ms[i], boxes[i]);
    }
  }

  lemma HullPulledBack(spots: seq<Spot>, spots': seq<Spot>, p: seq<nat>, q: seq<nat>, m': set<nat>, m: set<nat>,
                       box: Rect)
    requires Renumbers(spots, spots', p, q) && IsHull(spots', m', box) && m == set k | 0 <= k < |p| && p[k] in m'
    ensures IsHull(spots, m, box)
  {
    forall r: Rect | forall k :: k in m && k < |spots| ==> spots[k].box.Within(r) ensures box.Within(r) {
      forall l | l in m' && l < |spots'| ensures spots'[l].box.Within(r) { assert q[l] in m; }
    }
  }

  lemma TogetherCarriesOver(spots: seq<Spot>, spots': seq<Spot>, p: seq<nat>, q: seq<nat>, margin: real,
                            ms: seq<set<nat>>, ms': seq<set<nat>>, boxes': seq<Rect>, k: nat, l: nat)
    requires Renumbers(spots, spots', p, q) && k < |p| && l < |p|
    requires Unsplittable(spots, margin, ms) && Separated(spots', margin, ms', boxes') && Together(ms, k, l)
    ensures Together(ms', p[k], p[l])
  {
    hide IsHull;
    PulledBackIsSeparated(spots, spots', p, q, margin, ms', boxes');
    var i :| 0 <= i < |ms| && k in ms[i] && l in ms[i];
    assert Inside(ms[i], PulledBack(ms', p));
  }

  /** Main result: however the spots are ordered, the same ones end up together. */
  lemma OrderDoesNotMatter(spots: seq<Spot>, spots': seq<Spot>, p: seq<nat>, q: seq<nat>, margin: real,
                           ms: seq<set<nat>>, boxes: seq<Rect>, ms': seq<set<nat>>, boxes': seq<Rect>, k: nat, l: nat)
    requires Renumbers(spots, spots', p, q) && k < |p| && l < |p|
    requires Separated(spots, margin, ms, boxes) && Unsplittable(spots, margin, ms)
    requires Separated(spots', margin, ms', boxes') && Unsplittable(spots', margin, ms')
    ensures Together(ms, k, l) <==> Together(ms', p[k], p[l])
  {
    hide IsHull;
    if Together(ms, k, l) { TogetherCarriesOver(spots, spots', p, q, margin, ms, ms', boxes', k, l); }
    if Together(ms', p[k], p[l]) {
      TogetherCarriesOver(spots', spots, q, p, margin, ms', ms, boxes, p[k], p[l]);
    }
  }

  /** ... in areas of the same extent. */
  lemma SameAreas(spots: seq<Spot>, spots': seq<Spot>, p: seq<nat>, q: seq<nat>, margin: real,
                  ms: seq<set<nat>>, boxes: seq<Rect>, ms': seq<set<nat>>, boxes': seq<Rect>, i: nat, j: nat, k: nat)
    requires Renumbers(spots, spots', p, q)
    requires Separated(spots, margin, ms, boxes) && Unsplittable(spots, margin, ms)
    requires Separated(spots', margin, ms', boxes') && Unsplittable(spots', margin, ms')
    requires i < |ms| && j < |ms'| && k in ms[i] && k < |p| && p[k] in ms'[j]
    ensures boxes[i] == boxes'[j]
  {
    var m := set x | 0 <= x < |p| && p[x] in ms'[j];
    forall x: nat | x < |p| ensures x in ms[i] <==> p[x] in ms'[j] {
      OrderDoesNotMatter(spots, spots', p, q, margin, ms, boxes, ms', boxes', k, x);
      if x in ms[i] { assert Together(ms, k, x); }
      if p[x] in ms'[j] { assert Together(ms', p[k], p[x]); }
    }
    assert m == ms[i];
    HullPulledBack(spots, spots', p, q, ms'[j], ms[i], boxes'[j]);
    assert boxes[i].Within(boxes'[j]) && boxes'[j].Within(boxes[i]);
  }
}
