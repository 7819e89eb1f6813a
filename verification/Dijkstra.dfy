/** Shortest routes from one node, with everything a route carries (netlen/graph.go).
    The search is lazy: an entry is never taken out of the heap when a better one is found,
    only skipped when it comes up stale. */
module Dijkstra {
  import opened MinHeap
  import opened NetGraph

  /** The six slices the search fills in, side by side. */
  datatype Labels = Labels(dist: seq<Dist>, delay: seq<real>, vias: seq<nat>,
                           prev: seq<int>, via: seq<string>, parts: seq<Parts>)

  ghost predicate Sized(l: Labels, n: nat) {
    |l.dist| == |l.delay| == |l.vias| == |l.prev| == |l.via| == |l.parts| == n
  }

  /** Every label is the account of a route: `ws[v]` leads to `v`, its edges sum to what `v` is
      labelled with, and `prev` is its last step, so `prev` chains are finite and end at the source. */
  ghost predicate Accounted(adj: Adjacency, src: nat, l: Labels, ws: seq<seq<Step>>) {
    Sized(l, |adj|) && |ws| == |adj|
    && forall v :: 0 <= v < |adj| ==> AccountedAt(adj, src, l, ws, v)
  }

  ghost predicate AccountedAt(adj: Adjacency, src: nat, l: Labels, ws: seq<seq<Step>>, v: nat)
    requires Sized(l, |adj|) && |ws| == |adj| && v < |adj|
  {
    match l.dist[v]
    case Inf => l.prev[v] == -1 && l.via[v] == "" && ws[v] == []
    case Fin(mm) =>
      && Walk(adj, src, ws[v], v)
      && Length(ws[v]) == mm && Delay(ws[v]) == l.delay[v]
      && HalfVias(ws[v]) == l.vias[v] && PartsOf(ws[v]) == l.parts[v]
      && (if v == src then ws[v] == [] && l.prev[v] == -1 && l.via[v] == ""
          else
            ws[v] != [] && 0 <= l.prev[v] < |adj| && l.dist[l.prev[v]].Fin?
            && ws[v][..|ws[v]| - 1] == ws[l.prev[v]]
            && ws[v][|ws[v]| - 1].e.track == l.via[v])
  }

  /** No edge leaving `u` before the k-th offers anything better. */
  ghost predicate Relaxed(adj: Adjacency, dist: seq<Dist>, u: nat, k: nat)
    requires |dist| == |adj| && u < |adj| && k <= |adj[u]|
  {
    dist[u].Fin? && forall i :: 0 <= i < k ==>
      adj[u][i].to < |dist| && dist[adj[u][i].to].Fin? && dist[adj[u][i].to].mm <= dist[u].mm + adj[u][i].length
  }

  /** The loop invariant: `done` are the nodes expanded so far. */
  ghost predicate Searching(adj: Adjacency, src: nat, l: Labels, ws: seq<seq<Step>>,
                            done: set<nat>, h: seq<Item<nat>>)
  {
    && WellFormed(adj) && src < |adj| && Accounted(adj, src, l, ws)
    && l.dist[src] == Fin(0.0)
    && (forall u :: u in done ==> u < |adj| && l.dist[u].Fin?)
    && (forall v :: 0 <= v < |adj| && l.prev[v] >= 0 ==> l.prev[v] in done)
    && (forall u, x :: u in done && x in h ==> l.dist[u].mm <= x.d)
    && (forall x :: x in h ==> x.n < |adj| && l.dist[x.n].Fin? && l.dist[x.n].mm <= x.d)
  }

  /** Every labelled node is expanded or waiting in the heap under its label. */
  ghost predicate Waiting(l: Labels, done: set<nat>, h: seq<Item<nat>>) {
    forall v :: 0 <= v < |l.dist| && l.dist[v].Fin? && v !in done ==> Item(v, l.dist[v].mm) in h
  }

  ghost predicate AllRelaxed(adj: Adjacency, dist: seq<Dist>, done: set<nat>)
    requires |dist| == |adj|
  {
    forall u :: u in done && u < |adj| ==> Relaxed(adj, dist, u, |adj[u]|)
  }

  /** The outer loop's invariant. */
  ghost predicate Stage(adj: Adjacency, src: nat, l: Labels, ws: seq<seq<Step>>, done: set<nat>, h: seq<Item<nat>>) {
    Searching(adj, src, l, ws, done, h) && Waiting(l, done, h) && AllRelaxed(adj, l.dist, done)
  }

  /** The label a better route by edge `e` from `u` writes. */
  ghost function Relabelled(l: Labels, u: nat, e: Edge, nd: real): Labels
    requires Sized(l, |l.dist|)
    requires u < |l.dist| && e.to < |l.dist|
  {
    Labels(l.dist[e.to := Fin(nd)], l.delay[e.to := l.delay[u] + e.delay],
           l.vias[e.to := l.vias[u] + if e.via then 1 else 0],
           l.prev[e.to := u], l.via[e.to := e.track], l.parts[e.to := l.parts[u].Plus(e.parts)])
  }

  ghost function NodesBelow(n: nat): (s: set<nat>)
    ensures forall v: nat {:trigger v in s} :: v in s <==> v < n
  {
    if n == 0 then {} else NodesBelow(n - 1) + {n - 1}
  }

  lemma {:induction false} LengthIsNonNegative(adj: Adjacency, a: nat, w: seq<Step>, b: nat)
    requires WellFormed(adj) && Walk(adj, a, w, b)
    ensures Length(w) >= 0.0
  {
    if w != [] {
      var s := w[|w| - 1];
      LengthIsNonNegative(adj, a, w[..|w| - 1], s.from);
      var k :| 0 <= k < |adj[s.from]| && adj[s.from][k] == s.e;
    }
  }

  lemma RelabelKeeps(adj: Adjacency, src: nat, l: Labels, ws: seq<seq<Step>>, done: set<nat>,
                     h: seq<Item<nat>>, h': seq<Item<nat>>, u: nat, k: nat, nd: real)
    requires Searching(adj, src, l, ws, done, h)
    requires u in done && u < |adj| && k < |adj[u]| && adj[u][k].to < |adj|
    requires forall x :: x in h ==> l.dist[u].mm <= x.d
    requires forall w :: w in done ==> l.dist[w].mm <= l.dist[u].mm
    requires nd == l.dist[u].mm + adj[u][k].length
    requires l.dist[adj[u][k].to].Inf? || nd < l.dist[adj[u][k].to].mm
    requires forall y :: y in h' <==> y == Item(adj[u][k].to, nd) || y in h
    ensures adj[u][k].to !in done && Sized(l, |adj|) && |ws| == |adj|
    ensures l.dist[adj[u][k].to].Fin? ==> nd < l.dist[adj[u][k].to].mm
    ensures var e := adj[u][k];
      Searching(adj, src, Relabelled(l, u, e, nd), ws[e.to := ws[u] + [Step(u, e)]], done, h')
  {
    var e := adj[u][k];
    assert AccountedAt(adj, src, l, ws, u);
    LengthIsNonNegative(adj, src, ws[u], u);
    AccountedAfter(adj, src, l, ws, done, u, e, nd);
  }

  /** A new route ends one step beyond an expanded node; no other route goes through its end. */
  lemma AccountedAfter(adj: Adjacency, src: nat, l: Labels, ws: seq<seq<Step>>, done: set<nat>, u: nat, e: Edge,
                       nd: real)
    requires Accounted(adj, src, l, ws) && u in done && u < |adj| && e in adj[u] && e.to < |adj|
    requires forall v :: 0 <= v < |adj| && l.prev[v] >= 0 ==> l.prev[v] in done
    requires e.to !in done && e.to != src && l.dist[u].Fin? && nd == l.dist[u].mm + e.length
    ensures Accounted(adj, src, Relabelled(l, u, e, nd), ws[e.to := ws[u] + [Step(u, e)]])
  {
    var l' := Relabelled(l, u, e, nd);
    var w' := ws[u] + [Step(u, e)];
    var ws' := ws[e.to := w'];
    assert w'[..|w'| - 1] == ws[u];
    assert AccountedAt(adj, src, l, ws, u);
    forall v | 0 <= v < |adj| ensures AccountedAt(adj, src, l', ws', v) {
      assert AccountedAt(adj, src, l, ws, v);
    }
  }

  /** The inner loop's invariant: node `u`, popped at `d`, has offered its first `k` edges.
      A node that comes up a second time has nothing left to offer. */
  ghost predicate Expanding(adj: Adjacency, src: nat, l: Labels, ws: seq<seq<Step>>, done: set<nat>,
                            h: seq<Item<nat>>, u: nat, k: nat, d: real, again: bool)
  {
    && Searching(adj, src, l, ws, done, h)
    && u in done && u < |adj| && k <= |adj[u]| && l.dist[u] == Fin(d)
    && (forall x :: x in h ==> d <= x.d)
    && (forall w :: w in done ==> l.dist[w].mm <= d)
    && Waiting(l, done, h) && AllRelaxed(adj, l.dist, done - {u})
    && Relaxed(adj, l.dist, u, k) && (again ==> Relaxed(adj, l.dist, u, |adj[u]|))
  }

  lemma ExpandRelabels(adj: Adjacency, src: nat, l: Labels, ws: seq<seq<Step>>, done: set<nat>,
                       h: seq<Item<nat>>, h': seq<Item<nat>>, u: nat, k: nat, d: real, again: bool)
    requires Expanding(adj, src, l, ws, done, h, u, k, d, again) && k < |adj[u]| && adj[u][k].to < |adj|
    requires l.dist[adj[u][k].to].Inf? || d + adj[u][k].length < l.dist[adj[u][k].to].mm
    requires forall y :: y in h' <==> y == Item(adj[u][k].to, d + adj[u][k].length) || y in h
    ensures !again && adj[u][k].to != u && Sized(l, |adj|) && |ws| == |adj|
    ensures var e := adj[u][k];
      Expanding(adj, src, Relabelled(l, u, e, d + e.length), ws[e.to := ws[u] + [Step(u, e)]],
                done, h', u, k + 1, d, again)
  {
    hide Searching, Waiting, AllRelaxed;
    var e := adj[u][k];
    RelabelKeeps(adj, src, l, ws, done, h, h', u, k, d + e.length);
    WaitingAfter(l, done, h, h', u, e, d + e.length);
    RelaxedAfter(adj, l, done - {u}, u, k, d + e.length);
  }

  lemma WaitingAfter(l: Labels, done: set<nat>, h: seq<Item<nat>>, h': seq<Item<nat>>, u: nat, e: Edge, nd: real)
    requires Sized(l, |l.dist|) && u < |l.dist| && e.to < |l.dist| && Waiting(l, done, h)
    requires forall y :: y in h' <==> y == Item(e.to, nd) || y in h
    ensures Waiting(Relabelled(l, u, e, nd), done, h')
  {
    var l' := Relabelled(l, u, e, nd);
    forall v | 0 <= v < |l'.dist| && l'.dist[v].Fin? && v !in done
      ensures Item(v, l'.dist[v].mm) in h'
    {
      if v != e.to { assert Item(v, l.dist[v].mm) in h; }
    }
  }

  /** Improving one label undoes no relaxation but its own node's. */
  lemma RelaxedAfter(adj: Adjacency, l: Labels, others: set<nat>, u: nat, k: nat, nd: real)
    requires Sized(l, |adj|) && u < |adj| && k < |adj[u]| && adj[u][k].to < |adj|
    requires AllRelaxed(adj, l.dist, others) && Relaxed(adj, l.dist, u, k)
    requires nd == l.dist[u].mm + adj[u][k].length && adj[u][k].to != u && adj[u][k].to !in others
    requires l.dist[adj[u][k].to].Inf? || nd < l.dist[adj[u][k].to].mm
    ensures AllRelaxed(adj, Relabelled(l, u, adj[u][k], nd).dist, others)
    ensures Relaxed(adj, Relabelled(l, u, adj[u][k], nd).dist, u, k + 1)
  {
    var l' := Relabelled(l, u, adj[u][k], nd);
    forall w | w in others && w < |adj| ensures Relaxed(adj, l'.dist, w, |adj[w]|) {
      assert Relaxed(adj, l.dist, w, |adj[w]|);
    }
  }

  /** With nothing waiting under less than `d`, a walk shorter than that ends where the label is no longer than the
      walk. */
  lemma {:induction false} LabelOrLater(adj: Adjacency, src: nat, l: Labels, ws: seq<seq<Step>>, done: set<nat>,
                                        h: seq<Item<nat>>,
                                        d: real, w: seq<Step>, v: nat)
    requires Stage(adj, src, l, ws, done, h) && (forall x :: x in h ==> d <= x.d) && Walk(adj, src, w, v)
    ensures v < |adj| && (d <= Length(w) || (l.dist[v].Fin? && l.dist[v].mm <= Length(w)))
  {
    if w != [] {
      var s := w[|w| - 1];
      LabelOrLater(adj, src, l, ws, done, h, d, w[..|w| - 1], s.from);
      var k :| 0 <= k < |adj[s.from]| && adj[s.from][k] == s.e;
      if s.from in done {
        assert Relaxed(adj, l.dist, s.from, |adj[s.from]|);
      } else if l.dist[s.from].Fin? {
        assert Item(s.from, l.dist[s.from].mm) in h;
      }
    }
  }

  /** A node just popped at its label has the shortest distance there is, though more may be waiting, stale entries
      among it; and so has every node expanded before. */
  lemma ClosedIsShortest(adj: Adjacency, src: nat, l: Labels, ws: seq<seq<Step>>, done: set<nat>, h: seq<Item<nat>>,
                         it: Item<nat>, v: nat)
    requires Stage(adj, src, l, ws, done, h) && it in h && (forall x :: x in h ==> it.d <= x.d)
    requires v in done || (v == it.n && l.dist[v].Fin? && it.d == l.dist[v].mm)
    ensures v < |adj| && IsShortest(adj, src, v, l.dist[v])
  {
    assert AccountedAt(adj, src, l, ws, v);
    hide Accounted;
    forall w | Walk(adj, src, w, v) ensures l.dist[v].mm <= Length(w) {
      LabelOrLater(adj, src, l, ws, done, h, it.d, w, v);
    }
  }

  lemma LabelsAreShortest(adj: Adjacency, src: nat, l: Labels, ws: seq<seq<Step>>, done: set<nat>)
    requires Stage(adj, src, l, ws, done, [])
    ensures Accounted(adj, src, l, ws)
    ensures forall v :: 0 <= v < |adj| ==> IsShortest(adj, src, v, l.dist[v])
  {
    forall v: nat | v < |adj| ensures IsShortest(adj, src, v, l.dist[v]) {
      assert AccountedAt(adj, src, l, ws, v);
      forall w | Walk(adj, src, w, v) ensures l.dist[v].Fin? && l.dist[v].mm <= Length(w) {
        LabelOrLater(adj, src, l, ws, done, [], Length(w) + 1.0, w, v);
      }
    }
  }

  /** The writes a better route makes, one slice at a time. */
  method WriteLabel(dist: array<Dist>, delay: array<real>, vias: array<nat>, prev: array<int>,
                    via: array<string>, parts: array<Parts>, u: nat, ed: Edge, nd: real)
    requires dist.Length == delay.Length == vias.Length == prev.Length == via.Length == parts.Length
    requires u < dist.Length && ed.to < dist.Length
    requires u != ed.to
    modifies dist, delay, vias, prev, via, parts
    ensures Labels(dist[..], delay[..], vias[..], prev[..], via[..], parts[..])
         == Relabelled(old(Labels(dist[..], delay[..], vias[..], prev[..], via[..], parts[..])), u, ed, nd)
  {
    dist[ed.to] := Fin(nd);
    delay[ed.to] := delay[u] + ed.delay;
    parts[ed.to] := parts[u].Plus(ed.parts);
    vias[ed.to] := vias[u];
    prev[ed.to] := u;
    via[ed.to] := ed.track;
    if ed.via { vias[ed.to] := vias[ed.to] + 1; }
  }

  lemma ExpandingFacts(adj: Adjacency, src: nat, l: Labels, ws: seq<seq<Step>>, done: set<nat>,
                       h: seq<Item<nat>>, u: nat, k: nat, d: real, again: bool)
    requires Expanding(adj, src, l, ws, done, h, u, k, d, again)
    ensures u < |adj| && k <= |adj[u]| && Sized(l, |adj|) && |ws| == |adj| && l.dist[u] == Fin(d)
    ensures k < |adj[u]| ==> adj[u][k].to < |adj|
    // an edge with nothing better to offer is simply passed over
    ensures k < |adj[u]| && l.dist[adj[u][k].to].Fin? && l.dist[adj[u][k].to].mm <= d + adj[u][k].length ==>
      Expanding(adj, src, l, ws, done, h, u, k + 1, d, again)
  {
  }

  /** Offers every edge of the node just popped; `l` and `ws` are the state of the slices
      and the routes behind them. */
  method ExpandNode(adj: Adjacency, dist: array<Dist>, delay: array<real>, vias: array<nat>, prev: array<int>,
                    via: array<string>, parts: array<Parts>, h: HeapQ<nat>, u: nat, d: real,
                    ghost src: nat, ghost ws: seq<seq<Step>>, ghost done: set<nat>, ghost again: bool)
    returns (ghost ws': seq<seq<Step>>)
    requires h.Valid()
    requires Expanding(adj, src, Labels(dist[..], delay[..], vias[..], prev[..], via[..], parts[..]),
                       ws, done, h.a, u, 0, d, again)
    modifies dist, delay, vias, prev, via, parts, h
    ensures h.Valid()
    ensures Stage(adj, src, Labels(dist[..], delay[..], vias[..], prev[..], via[..], parts[..]), ws', done, h.a)
    ensures again ==> h.a == old(h.a)
  {
    hide Searching, Accounted, Expanding, Stage;
    ghost var l := Labels(dist[..], delay[..], vias[..], prev[..], via[..], parts[..]);
    ws' := ws;
    ExpandingFacts(adj, src, l, ws', done, h.a, u, 0, d, again);
    for k := 0 to |adj[u]|
      invariant h.Valid()
      invariant l == Labels(dist[..], delay[..], vias[..], prev[..], via[..], parts[..])
      invariant Expanding(adj, src, l, ws', done, h.a, u, k, d, again)
      invariant again ==> h.a == old(h.a)
    {
      var ed := adj[u][k];
      ExpandingFacts(adj, src, l, ws', done, h.a, u, k, d, again);
      var nd := d + ed.length;
      if dist[ed.to].Inf? || nd < dist[ed.to].mm {
        ghost var h0 := h.a;
        h.Push(Item(ed.to, nd));
        ExpandRelabels(adj, src, l, ws', done, h0, h.a, u, k, d, again);
        WriteLabel(dist, delay, vias, prev, via, parts, u, ed, nd);
        l := Relabelled(l, u, ed, nd);
        ws' := ws'[ed.to := ws'[u] + [Step(u, ed)]];
      }
    }
    EndsExpanding(adj, src, l, ws', done, h.a, u, d, again);
  }

  lemma EndsExpanding(adj: Adjacency, src: nat, l: Labels, ws: seq<seq<Step>>, done: set<nat>,
                      h: seq<Item<nat>>, u: nat, d: real, again: bool)
    requires u < |adj| && Expanding(adj, src, l, ws, done, h, u, |adj[u]|, d, again)
    ensures Stage(adj, src, l, ws, done, h)
  {
    forall w | w in done && w < |adj| ensures Relaxed(adj, l.dist, w, |adj[w]|) {
      if w != u { assert w in done - {u}; }
    }
  }

  lemma StartsSearching(adj: Adjacency, src: nat, l: Labels, ws: seq<seq<Step>>, h: seq<Item<nat>>)
    requires WellFormed(adj) && src < |adj| && Sized(l, |adj|) && |ws| == |adj|
    requires forall v :: 0 <= v < |adj| ==>
      l.dist[v] == (if v == src then Fin(0.0) else Inf) && l.delay[v] == 0.0 && l.vias[v] == 0
      && l.prev[v] == -1 && l.via[v] == "" && l.parts[v] == NO_PARTS && ws[v] == []
    requires forall y :: y in h <==> y == Item(src, 0.0)
    ensures Stage(adj, src, l, ws, {}, h)
  {
    assert forall v :: 0 <= v < |adj| ==> AccountedAt(adj, src, l, ws, v);
  }

  lemma StartsExpanding(adj: Adjacency, src: nat, l: Labels, ws: seq<seq<Step>>, done: set<nat>,
                        h: seq<Item<nat>>, h': seq<Item<nat>>, it: Item<nat>)
    requires Stage(adj, src, l, ws, done, h)
    requires forall y :: y in h <==> y == it || y in h'
    requires forall y :: y in h ==> it.d <= y.d
    ensures it.n < |adj| && l.dist[it.n].Fin? && l.dist[it.n].mm <= it.d
    ensures it.d == l.dist[it.n].mm ==>
      Expanding(adj, src, l, ws, done + {it.n}, h', it.n, 0, it.d, it.n in done)
    ensures it.d > l.dist[it.n].mm ==> Stage(adj, src, l, ws, done, h')
  {
    assert it in h;
  }

  /** The slices before the search: everything out of reach but the source. */
  method FreshSlices(adj: Adjacency, src: nat)
    returns (dist: array<Dist>, delay: array<real>, vias: array<nat>,
             prev: array<int>, via: array<string>, parts: array<Parts>, h: HeapQ<nat>)
    requires WellFormed(adj) && src < |adj|
    ensures fresh({dist, delay, vias, prev, via, parts, h}) && h.Valid() && dist.Length == |adj|
    ensures Stage(adj, src, Labels(dist[..], delay[..], vias[..], prev[..], via[..], parts[..]),
                  seq(|adj|, _ => []), {}, h.a)
  {
    hide Stage, Searching, Accounted;
    var n := |adj|;
    parts := new Parts[n](_ => NO_PARTS);
    dist := new Dist[n](_ => Inf);
    delay := new real[n](_ => 0.0);
    vias := new nat[n](_ => 0);
    prev := new int[n](_ => -1);
    via := new string[n](_ => "");
    dist[src] := Fin(0.0);
    h := new HeapQ<nat>();
    h.Push(Item(src, 0.0));
    StartsSearching(adj, src, Labels(dist[..], delay[..], vias[..], prev[..], via[..], parts[..]),
                    seq(n, _ => []), h.a);
  }

  /** The search. `ws` are the routes the labels account for. */
  method DijkstraFrom(adj: Adjacency, src: nat)
    returns (dist: array<Dist>, delay: array<real>, vias: array<nat>,
             prev: array<int>, via: array<string>, parts: array<Parts>, ghost ws: seq<seq<Step>>)
    requires WellFormed(adj) && src < |adj|
    ensures fresh(dist) && fresh(delay) && fresh(vias) && fresh(prev) && fresh(via) && fresh(parts)
    ensures dist.Length == |adj|
    ensures Accounted(adj, src, Labels(dist[..], delay[..], vias[..], prev[..], via[..], parts[..]), ws)
    ensures forall v :: 0 <= v < |adj| ==> IsShortest(adj, src, v, dist[v])
  {
    hide Searching, Accounted, Waiting, AllRelaxed, Expanding, IsShortest;
    var h: HeapQ<nat>;
    dist, delay, vias, prev, via, parts, h := FreshSlices(adj, src);
    ws := seq(|adj|, _ => []);
    ghost var done: set<nat> := {};
    ghost var todo: set<nat> := NodesBelow(|adj|);
    while h.a != []
      invariant fresh({dist, delay, vias, prev, via, parts, h}) && h.Valid() && dist.Length == |adj|
      invariant Stage(adj, src, Labels(dist[..], delay[..], vias[..], prev[..], via[..], parts[..]), ws, done, h.a)
      invariant forall v: nat {:trigger v in todo} :: v in todo <==> v < |adj| && v !in done
      decreases todo, |h.a|
    {
      ghost var before := h.a;
      var it := h.Pop();
      assert |h.a| < |before| by { assert |multiset(h.a) + multiset{it}| == |multiset(before)|; }
      StartsExpanding(adj, src, Labels(dist[..], delay[..], vias[..], prev[..], via[..], parts[..]),
                      ws, done, before, h.a, it);
      if it.d > dist[it.n].mm {
        continue;
      }
      var u := it.n;
      ghost var again := u in done;
      done := done + {u};
      todo := todo - {u};
      ws := ExpandNode(adj, dist, delay, vias, prev, via, parts, h, u, it.d, src, ws, done, again);
    }
    LabelsAreShortest(adj, src, Labels(dist[..], delay[..], vias[..], prev[..], via[..], parts[..]), ws, done);
  }

  /** Walks the `prev` chain back to the source. What it collects is the copper of the whole route. */
  method TracksOnRoute(prev: seq<int>, via: seq<string>, dst: nat,
                       ghost adj: Adjacency, ghost src: nat, ghost l: Labels, ghost ws: seq<seq<Step>>)
    returns (seen: set<string>)
    requires Accounted(adj, src, l, ws) && prev == l.prev && via == l.via && dst < |adj|
    requires src < |adj| && l.dist[src] == Fin(0.0)
    ensures seen == TracksOf(ws[dst])
  {
    seen := {};
    var n: int := dst;
    while n >= 0
      invariant -1 <= n < |adj|
      invariant seen + (if n >= 0 then TracksOf(ws[n]) else {}) == TracksOf(ws[dst])
      decreases if n >= 0 then |ws[n]| + 1 else 0
    {
      assert AccountedAt(adj, src, l, ws, n);
      if via[n] != "" { seen := seen + {via[n]}; }
      n := prev[n];
    }
  }

  /** A measured route between two pads. */
  datatype Path = Path(found: bool, length: real, delay: real, vias: nat, parts: Parts, tracks: set<string>)

  const NO_PATH := Path(false, 0.0, 0.0, 0, NO_PARTS, {})

  /** The path reported between nodes `a` and `b` is one shortest route, described consistently:
      length, delay, barrels, parts and tracks are all of the same route. */
  ghost predicate Describes(adj: Adjacency, a: nat, b: nat, p: Path) {
    if p.found then
      IsShortest(adj, a, b, Fin(p.length)) && p.parts.Sum() == p.length
      && exists w :: Walk(adj, a, w, b) && Length(w) == p.length && Delay(w) == p.delay
                     && HalfVias(w) / 2 == p.vias && PartsOf(w) == p.parts && TracksOf(w) == p.tracks
    else IsShortest(adj, a, b, Inf) && p == NO_PATH
  }

  /** Pads are named by their place in the sorted list, so the key is the smaller one first. */
  function PairKey(a: nat, b: nat): (nat, nat) {
    if a > b then (b, a) else (a, b)
  }

  function PathBetween(paths: map<(nat, nat), Path>, a: nat, b: nat): Path {
    if PairKey(a, b) in paths then paths[PairKey(a, b)] else NO_PATH
  }

  method PathTo(adj: Adjacency, src: nat, dist: array<Dist>, delay: array<real>, vias: array<nat>,
                prev: array<int>, via: array<string>, parts: array<Parts>, ghost ws: seq<seq<Step>>, n: nat)
    returns (p: Path)
    requires WellFormed(adj) && src < |adj| && n < |adj| && dist.Length == |adj|
    requires Accounted(adj, src, Labels(dist[..], delay[..], vias[..], prev[..], via[..], parts[..]), ws)
    requires IsShortest(adj, src, src, dist[src]) && IsShortest(adj, src, n, dist[n])
    ensures Describes(adj, src, n, p)
  {
    ghost var l := Labels(dist[..], delay[..], vias[..], prev[..], via[..], parts[..]);
    assert AccountedAt(adj, src, l, ws, n) && AccountedAt(adj, src, l, ws, src);
    p := NO_PATH;
    if dist[n].Fin? {
      assert Walk(adj, src, [], src);
      PartsSumToLength(adj, src, ws[n], n);
      var tracks := TracksOnRoute(prev[..], via[..], n, adj, src, l, ws);
      p := Path(true, dist[n].mm, delay[n], vias[n] / 2, parts[n], tracks);
    }
  }

  /** Measures every pair of a net's pads, `nodes[i]` being the i-th pad's node. */
  method MeasurePaths(adj: Adjacency, nodes: seq<nat>) returns (paths: map<(nat, nat), Path>)
    requires WellFormed(adj) && forall i :: 0 <= i < |nodes| ==> nodes[i] < |adj|
    ensures forall i, j :: 0 <= i < j < |nodes| ==>
      (i, j) in paths && Describes(adj, nodes[i], nodes[j], paths[(i, j)])
  {
    paths := map[];
    for i := 0 to |nodes|
      invariant forall x, y :: 0 <= x < i && x < y < |nodes| ==>
        (x, y) in paths && Describes(adj, nodes[x], nodes[y], paths[(x, y)])
    {
      var dist, delay, vias, prev, via, parts, ws := DijkstraFrom(adj, nodes[i]);
      ghost var l := Labels(dist[..], delay[..], vias[..], prev[..], via[..], parts[..]);
      for j := i + 1 to |nodes|
        modifies {}
        invariant l == Labels(dist[..], delay[..], vias[..], prev[..], via[..], parts[..])
        invariant forall x, y :: 0 <= x < i && x < y < |nodes| ==>
          (x, y) in paths && Describes(adj, nodes[x], nodes[y], paths[(x, y)])
        invariant forall y :: i < y < j ==> (i, y) in paths && Describes(adj, nodes[i], nodes[y], paths[(i, y)])
      {
        var p := PathTo(adj, nodes[i], dist, delay, vias, prev, via, parts, ws, nodes[j]);
        paths := paths[PairKey(i, j) := p];
      }
    }
  }

  /** Asking for a path with its pads in either order finds the same one, and it is shortest
      whichever end it is asked from. */
  lemma EitherOrder(adj: Adjacency, nodes: seq<nat>, paths: map<(nat, nat), Path>, i: nat, j: nat)
    requires WellFormed(adj) && Symmetric(adj) && forall k :: 0 <= k < |nodes| ==> nodes[k] < |adj|
    requires forall x, y :: 0 <= x < y < |nodes| ==>
      (x, y) in paths && Describes(adj, nodes[x], nodes[y], paths[(x, y)])
    requires i < |nodes| && j < |nodes| && i != j
    ensures PathBetween(paths, i, j) == PathBetween(paths, j, i)
    ensures var p := PathBetween(paths, i, j);
      IsShortest(adj, nodes[i], nodes[j], if p.found then Fin(p.length) else Inf)
      && forall q :: Describes(adj, nodes[j], nodes[i], q) ==> q.found == p.found && q.length == p.length
  {
    var p := PathBetween(paths, i, j);
    var d := if p.found then Fin(p.length) else Inf;
    if i > j { ShortestIsSymmetric(adj, nodes[j], nodes[i], d); }
    ShortestIsSymmetric(adj, nodes[i], nodes[j], d);
    forall q | Describes(adj, nodes[j], nodes[i], q) ensures q.found == p.found && q.length == p.length {
      ShortestIsUnique(adj, nodes[j], nodes[i], d, if q.found then Fin(q.length) else Inf);
    }
  }
}
