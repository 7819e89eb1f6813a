/** A board's copper (board/board.go): the document's items, the flat list of tracks and the tracks of each
    net, kept in step while copper is added, replaced and removed. */
module Board {
  import opened Geometry
  import Clearance

  type Width = w: real | w >= 0.0

  /** A piece of copper. An arc is given by its flattened shapes. */
  datatype Wire =
    | Segment(net: string, uuid: string, start: Pt, end: Pt, width: Width, layer: string)
    | Arc(net: string, uuid: string, shapes: seq<Clearance.Shape>, layer: string)
    | Via(net: string, uuid: string, at: Pt, size: Width, top: string, bottom: string)

  /** Copper on the board; `node` is its place in the document, by a number never used twice. */
  datatype Track = Track(node: nat, wire: Wire)

  /** What the document holds: tracks among everything else. */
  datatype Item = Other(id: nat) | Placed(t: Track)

  function TracksIn(items: seq<Item>): seq<Track> {
    if items == [] then []
    else
      var rest := TracksIn(items[..|items| - 1]);
      match items[|items| - 1]
      case Other(_) => rest
      case Placed(t) => rest + [t]
  }

  function OnNet(ts: seq<Track>, net: string): seq<Track> {
    if ts == [] then []
    else
      var t := ts[|ts| - 1];
      if t.wire.net == net then OnNet(ts[..|ts| - 1], net) + [t] else OnNet(ts[..|ts| - 1], net)
  }

  /** What is left of a list. */
  function Kept(ts: seq<Track>, gone: set<Track>): seq<Track> {
    if ts == [] then []
    else
      var t := ts[|ts| - 1];
      if t in gone then Kept(ts[..|ts| - 1], gone) else Kept(ts[..|ts| - 1], gone) + [t]
  }

  function KeptItems(items: seq<Item>, gone: set<Track>): seq<Item> {
    if items == [] then []
    else
      var x := items[|items| - 1];
      if x.Placed? && x.t in gone then KeptItems(items[..|items| - 1], gone) else KeptItems(items[..|items| - 1], gone) + [x]
  }

  /** A list with `with` where `o` was. */
  function Replaced(ts: seq<Track>, o: Track, with: seq<Track>): seq<Track> {
    if ts == [] then []
    else
      var t := ts[|ts| - 1];
      Replaced(ts[..|ts| - 1], o, with) + if t == o then with else [t]
  }

  function AsItems(ts: seq<Track>): seq<Item> {
    seq(|ts|, i requires 0 <= i < |ts| => Placed(ts[i]))
  }

  function NetTracks(byNet: map<string, seq<Track>>, net: string): seq<Track> {
    if net in byNet then byNet[net] else []
  }

  function Among(ts: seq<Track>): set<Track> { set t | t in ts }

  // ---- how these agree ----

  lemma {:induction false} TracksInConcat(a: seq<Item>, b: seq<Item>)
    ensures TracksIn(a + b) == TracksIn(a) + TracksIn(b)
  {
    if b == [] {
      assert a + b == a;
    } else {
      assert (a + b)[..|a + b| - 1] == a + b[..|b| - 1];
      TracksInConcat(a, b[..|b| - 1]);
    }
  }

  lemma {:induction false} TracksInTracks(ts: seq<Track>)
    ensures TracksIn(AsItems(ts)) == ts
  {
    if ts != [] {
      assert AsItems(ts)[..|ts| - 1] == AsItems(ts[..|ts| - 1]);
      TracksInTracks(ts[..|ts| - 1]);
    }
  }

  lemma {:induction false} TracksInHolds(items: seq<Item>, t: Track)
    ensures t in TracksIn(items) <==> Placed(t) in items
  {
    if items != [] {
      assert items == items[..|items| - 1] + [items[|items| - 1]];
      TracksInHolds(items[..|items| - 1], t);
    }
  }

  lemma {:induction false} OnNetConcat(a: seq<Track>, b: seq<Track>, net: string)
    ensures OnNet(a + b, net) == OnNet(a, net) + OnNet(b, net)
  {
    if b == [] {
      assert a + b == a;
    } else {
      assert (a + b)[..|a + b| - 1] == a + b[..|b| - 1];
      OnNetConcat(a, b[..|b| - 1], net);
    }
  }

  lemma {:induction false} OnNetHolds(ts: seq<Track>, net: string, t: Track)
    ensures t in OnNet(ts, net) <==> t in ts && t.wire.net == net
  {
    if ts != [] {
      assert ts == ts[..|ts| - 1] + [ts[|ts| - 1]];
      OnNetHolds(ts[..|ts| - 1], net, t);
    }
  }

  /** All on the net, or none. */
  lemma {:induction false} AllOnNet(ts: seq<Track>, own: string, net: string)
    requires forall t :: t in ts ==> t.wire.net == own
    ensures OnNet(ts, net) == if net == own then ts else []
  {
    if ts != [] {
      assert ts == ts[..|ts| - 1] + [ts[|ts| - 1]];
      AllOnNet(ts[..|ts| - 1], own, net);
    }
  }

  lemma {:induction false} KeptInTracks(items: seq<Item>, gone: set<Track>)
    ensures TracksIn(KeptItems(items, gone)) == Kept(TracksIn(items), gone)
  {
    if items != [] {
      var n := |items| - 1;
      KeptInTracks(items[..n], gone);
      var k, l := KeptItems(items[..n], gone), TracksIn(items[..n]);
      assert (k + [items[n]])[..|k|] == k;
      if items[n].Placed? { assert (l + [items[n].t])[..|l|] == l; }
    }
  }

  lemma {:induction false} KeptOnNet(ts: seq<Track>, gone: set<Track>, net: string)
    ensures OnNet(Kept(ts, gone), net) == Kept(OnNet(ts, net), gone)
  {
    if ts != [] {
      var n := |ts| - 1;
      KeptOnNet(ts[..n], gone, net);
      var k, l := Kept(ts[..n], gone), OnNet(ts[..n], net);
      assert (k + [ts[n]])[..|k|] == k;
      assert (l + [ts[n]])[..|l|] == l;
    }
  }

  lemma {:induction false} KeptHolds(ts: seq<Track>, gone: set<Track>, t: Track)
    ensures t in Kept(ts, gone) <==> t in ts && t !in gone
  {
    if ts != [] {
      assert ts == ts[..|ts| - 1] + [ts[|ts| - 1]];
      KeptHolds(ts[..|ts| - 1], gone, t);
    }
  }

  lemma {:induction false} KeptAll(ts: seq<Track>, gone: set<Track>)
    requires forall t :: t in ts ==> t !in gone
    ensures Kept(ts, gone) == ts
  {
    if ts != [] {
      assert ts == ts[..|ts| - 1] + [ts[|ts| - 1]];
      KeptAll(ts[..|ts| - 1], gone);
    }
  }

  lemma {:induction false} KeptNone(ts: seq<Track>, gone: set<Track>)
    requires forall t :: t in ts ==> t in gone
    ensures Kept(ts, gone) == []
  {
    if ts != [] {
      assert ts == ts[..|ts| - 1] + [ts[|ts| - 1]];
      KeptNone(ts[..|ts| - 1], gone);
    }
  }

  lemma {:induction false} KeptConcat(a: seq<Track>, b: seq<Track>, gone: set<Track>)
    ensures Kept(a + b, gone) == Kept(a, gone) + Kept(b, gone)
  {
    if b == [] {
      assert a + b == a;
    } else {
      assert (a + b)[..|a + b| - 1] == a + b[..|b| - 1];
      KeptConcat(a, b[..|b| - 1], gone);
    }
  }

  lemma {:induction false} NotReplaced(ts: seq<Track>, o: Track, with: seq<Track>)
    requires o !in ts
    ensures Replaced(ts, o, with) == ts
  {
    if ts != [] {
      assert ts == ts[..|ts| - 1] + [ts[|ts| - 1]];
      NotReplaced(ts[..|ts| - 1], o, with);
    }
  }

  lemma {:induction false} ReplacedConcat(a: seq<Track>, b: seq<Track>, o: Track, with: seq<Track>)
    ensures Replaced(a + b, o, with) == Replaced(a, o, with) + Replaced(b, o, with)
  {
    if b == [] {
      assert a + b == a;
    } else {
      assert (a + b)[..|a + b| - 1] == a + b[..|b| - 1];
      ReplacedConcat(a, b[..|b| - 1], o, with);
    }
  }

  /** Replacing a track by ones on its own net replaces it in its net's list, and in no other. */
  lemma {:induction false} ReplacedOnNet(ts: seq<Track>, o: Track, with: seq<Track>, net: string)
    requires forall t :: t in with ==> t.wire.net == o.wire.net
    ensures OnNet(Replaced(ts, o, with), net) ==
      if net == o.wire.net then Replaced(OnNet(ts, net), o, with) else OnNet(ts, net)
  {
    if ts != [] {
      var n := |ts| - 1;
      ReplacedOnNet(ts[..n], o, with, net);
      AllOnNet(with, o.wire.net, net);
      OnNetConcat(Replaced(ts[..n], o, with), if ts[n] == o then with else [ts[n]], net);
      var l := OnNet(ts[..n], net);
      assert (l + [ts[n]])[..|l|] == l;
      assert [ts[n]][..0] == [];
    }
  }

  /** No track is listed twice. */
  ghost predicate Distinct(ts: seq<Track>) { forall i, j :: 0 <= i < j < |ts| ==> ts[i].node != ts[j].node }

  lemma ReplacedAlone(o: Track, with: seq<Track>)
    ensures Replaced([o], o, with) == with
  {
    assert [o][..0] == [];
  }

  lemma ReplacedInMiddle(x: seq<Track>, o: Track, y: seq<Track>, with: seq<Track>)
    requires Distinct(x + [o] + y)
    ensures Replaced(x + [o] + y, o, with) == x + with + y
  {
    hide Replaced;
    var all := x + [o] + y;
    forall i | 0 <= i < |x| ensures x[i] != o { assert all[i] == x[i] && all[|x|] == o; }
    forall i | 0 <= i < |y| ensures y[i] != o { assert all[|x| + 1 + i] == y[i] && all[|x|] == o; }
    NotReplaced(x, o, with);
    NotReplaced(y, o, with);
    ReplacedConcat(x + [o], y, o, with);
    ReplacedConcat(x, [o], o, with);
    ReplacedAlone(o, with);
  }

  lemma TracksAround(a: seq<Item>, ts: seq<Track>, b: seq<Item>)
    ensures TracksIn(a + AsItems(ts) + b) == TracksIn(a) + ts + TracksIn(b)
  {
    TracksInTracks(ts);
    TracksInConcat(a, AsItems(ts));
    TracksInConcat(a + AsItems(ts), b);
  }

  lemma {:induction false} ReplacedHolds(ts: seq<Track>, o: Track, with: seq<Track>, t: Track)
    ensures t in Replaced(ts, o, with) <==> (t in ts && t != o) || (o in ts && t in with)
  {
    if ts != [] {
      assert ts == ts[..|ts| - 1] + [ts[|ts| - 1]];
      ReplacedHolds(ts[..|ts| - 1], o, with, t);
    }
  }

  /** New copper, given numbers never used, is listed no more than once. */
  lemma {:induction false} ReplacedDistinct(ts: seq<Track>, o: Track, with: seq<Track>, next: nat)
    requires Distinct(ts) && Distinct(with) && (forall t :: t in ts ==> t.node < next)
    requires forall t :: t in with ==> t.node >= next
    ensures Distinct(Replaced(ts, o, with))
  {
    if ts != [] {
      var n := |ts| - 1;
      var init, last := ts[..n], ts[n];
      assert ts == init + [last];
      if last == o {
        NotReplaced(init, o, with);
      } else {
        ReplacedDistinct(init, o, with, next);
        forall t | t in Replaced(init, o, with) ensures t.node != last.node { ReplacedHolds(init, o, with, t); }
      }
    }
  }

  lemma {:induction false} KeptItemsOrNothing(items: seq<Item>, gone: set<Track>)
    ensures |KeptItems(items, gone)| <= |items|
    ensures |KeptItems(items, gone)| == |items| ==> KeptItems(items, gone) == items
  {
    if items != [] { KeptItemsOrNothing(items[..|items| - 1], gone); }
  }

  lemma {:induction false} KeptDistinct(ts: seq<Track>, gone: set<Track>)
    requires Distinct(ts)
    ensures Distinct(Kept(ts, gone))
  {
    if ts != [] {
      var init, last := ts[..|ts| - 1], ts[|ts| - 1];
      assert ts == init + [last];
      KeptDistinct(init, gone);
      forall t | t in Kept(init, gone) ensures t.node != last.node { KeptHolds(init, gone, t); }
    }
  }

  lemma {:induction false} OnNetDistinct(ts: seq<Track>, net: string)
    requires Distinct(ts)
    ensures Distinct(OnNet(ts, net))
  {
    if ts != [] {
      var init, last := ts[..|ts| - 1], ts[|ts| - 1];
      assert ts == init + [last];
      OnNetDistinct(init, net);
      forall t | t in OnNet(init, net) ensures t.node != last.node { OnNetHolds(init, net, t); }
    }
  }

  method IndexOf(items: seq<Item>, x: Item) returns (i: int)
    ensures i < 0 <==> x !in items
    ensures i >= 0 ==> i < |items| && items[i] == x
  {
    for k := 0 to |items|
      invariant x !in items[..k]
    {
      if items[k] == x { return k; }
    }
    i := -1;
  }

  /** Rebuilds a list with `with` where `o` was. */
  method ReplaceIn(ts: seq<Track>, o: Track, with: seq<Track>) returns (out: seq<Track>)
    ensures out == Replaced(ts, o, with)
  {
    out := [];
    for k := 0 to |ts|
      invariant out == Replaced(ts[..k], o, with)
    {
      assert ts[..k + 1][..k] == ts[..k];
      out := out + if ts[k] == o then with else [ts[k]];
    }
    assert ts[..|ts|] == ts;
  }

  method KeepTracks(ts: seq<Track>, gone: set<Track>) returns (out: seq<Track>)
    ensures out == Kept(ts, gone)
  {
    out := [];
    for k := 0 to |ts|
      invariant out == Kept(ts[..k], gone)
    {
      assert ts[..k + 1][..k] == ts[..k];
      if ts[k] !in gone { out := out + [ts[k]]; }
    }
    assert ts[..|ts|] == ts;
  }

  method KeepItems(items: seq<Item>, gone: set<Track>) returns (out: seq<Item>)
    ensures out == KeptItems(items, gone)
  {
    out := [];
    for k := 0 to |items|
      invariant out == KeptItems(items[..k], gone)
    {
      var x := items[k];
      assert items[..k + 1][..k] == items[..k];
      if !(x.Placed? && x.t in gone) { out := out + [x]; }
    }
    assert items[..|items|] == items;
  }

  /** The per-net lists after a replacement agree with the flat list, or not. */
  lemma InStepIff(ts: seq<Track>, byNet: map<string, seq<Track>>, o: Track, with: seq<Track>)
    requires o in ts && forall net :: NetTracks(byNet, net) == OnNet(ts, net)
    ensures
      var after := byNet[o.wire.net := Replaced(NetTracks(byNet, o.wire.net), o, with)];
      (forall net :: NetTracks(after, net) == OnNet(Replaced(ts, o, with), net)) <==>
      forall t :: t in with ==> t.wire.net == o.wire.net
  {
    hide OnNet, Replaced;
    var own := o.wire.net;
    var after := byNet[own := Replaced(NetTracks(byNet, own), o, with)];
    if forall t :: t in with ==> t.wire.net == own {
      forall net ensures NetTracks(after, net) == OnNet(Replaced(ts, o, with), net) { ReplacedOnNet(ts, o, with, net); }
    } else {
      var t :| t in with && t.wire.net != own;
      OnNetHolds(ts, own, o);
      ReplacedHolds(OnNet(ts, own), o, with, t);
      OnNetHolds(Replaced(ts, o, with), own, t);
      assert NetTracks(after, own) != OnNet(Replaced(ts, o, with), own);
    }
  }

  /** The flat list is the document's tracks in order, and each net's list is that net's part of it. */
  ghost predicate InStep(items: seq<Item>, tracks: seq<Track>, byNet: map<string, seq<Track>>, next: nat) {
    && tracks == TracksIn(items) && Distinct(tracks) && (forall t :: t in tracks ==> t.node < next)
    && forall net :: NetTracks(byNet, net) == OnNet(tracks, net)
  }

  lemma AddingKeepsStep(items: seq<Item>, tracks: seq<Track>, byNet: map<string, seq<Track>>, next: nat, t: Track)
    requires InStep(items, tracks, byNet, next) && t.node == next
    ensures InStep(items + [Placed(t)], tracks + [t], byNet[t.wire.net := NetTracks(byNet, t.wire.net) + [t]], next + 1)
    ensures t !in tracks
  {
    hide TracksIn;
    TracksInConcat(items, [Placed(t)]);
    assert [Placed(t)] == AsItems([t]);
    TracksInTracks([t]);
    var ts := tracks + [t];
    assert ts[..|ts| - 1] == tracks;
    var after := byNet[t.wire.net := NetTracks(byNet, t.wire.net) + [t]];
    forall net ensures NetTracks(after, net) == OnNet(ts, net) {
      assert OnNet(ts, net) == OnNet(tracks, net) + if net == t.wire.net then [t] else [];
    }
  }

  lemma RemovingKeepsStep(items: seq<Item>, tracks: seq<Track>, byNet: map<string, seq<Track>>, next: nat,
                          gone: set<Track>,
                          left: map<string, seq<Track>>)
    requires InStep(items, tracks, byNet, next)
    requires forall net :: NetTracks(left, net) == Kept(NetTracks(byNet, net), gone)
    ensures InStep(KeptItems(items, gone), Kept(tracks, gone), left, next)
  {
    hide TracksIn, OnNet, Kept, KeptItems, NetTracks;
    KeptInTracks(items, gone);
    KeptDistinct(tracks, gone);
    forall t | t in Kept(tracks, gone) ensures t.node < next { KeptHolds(tracks, gone, t); }
    forall net ensures NetTracks(left, net) == OnNet(Kept(tracks, gone), net) { KeptOnNet(tracks, gone, net); }
  }

  lemma ReplacingKeepsStepIff(a: seq<Item>, o: Track, b: seq<Item>, with: seq<Track>, tracks: seq<Track>,
                              byNet: map<string, seq<Track>>, next: nat, next': nat)
    requires InStep(a + [Placed(o)] + b, tracks, byNet, next) && o in tracks && Distinct(with)
    requires next <= next' && forall t :: t in with ==> next <= t.node < next'
    ensures TracksIn(a + AsItems(with) + b) == Replaced(tracks, o, with)
    ensures
      var mine := Replaced(NetTracks(byNet, o.wire.net), o, with);
      InStep(a + AsItems(with) + b, Replaced(tracks, o, with), byNet[o.wire.net := mine], next') <==>
      forall t :: t in with ==> t.wire.net == o.wire.net
  {
    hide TracksIn, OnNet, Replaced, NetTracks;
    assert [Placed(o)] == AsItems([o]);
    TracksAround(a, [o], b);
    TracksAround(a, with, b);
    hide AsItems;
    ReplacedInMiddle(TracksIn(a), o, TracksIn(b), with);
    ReplacedDistinct(tracks, o, with, next);
    forall t | t in Replaced(tracks, o, with) ensures t.node < next' { ReplacedHolds(tracks, o, with, t); }
    InStepIff(tracks, byNet, o, with);
  }

  /** Filters every net's list. */
  method KeepByNet(byNet: map<string, seq<Track>>, gone: set<Track>) returns (out: map<string, seq<Track>>)
    ensures forall net :: NetTracks(out, net) == Kept(NetTracks(byNet, net), gone)
  {
    out := byNet;
    var left := byNet.Keys;
    while left != {}
      invariant left <= byNet.Keys == out.Keys
      invariant forall net :: net in out ==> out[net] == if net in left then byNet[net] else Kept(byNet[net], gone)
    {
      var net :| net in left;
      var some := KeepTracks(out[net], gone);
      out := out[net := some];
      left := left - {net};
    }
  }

  method NewTracks(with: seq<Wire>, next: nat) returns (made: seq<Track>)
    ensures |made| == |with| && forall j :: 0 <= j < |with| ==> made[j] == Track(next + j, with[j])
  {
    made := [];
    for k := 0 to |with|
      invariant |made| == k && forall j :: 0 <= j < k ==> made[j] == Track(next + j, with[j])
    {
      made := made + [Track(next + k, with[k])];
    }
  }

  class Board {
    var items: seq<Item>
    var tracks: seq<Track>
    var byNet: map<string, seq<Track>>
    var nextNode: nat

    ghost predicate Valid()
      reads this
    {
      InStep(items, tracks, byNet, nextNode)
    }

    /** The copper on a net. */
    function TracksOfNet(net: string): (ts: seq<Track>)
      requires Valid()
      reads this
      ensures forall t :: t in ts <==> t in tracks && t.wire.net == net
    {
      assert forall t :: t in OnNet(tracks, net) <==> t in tracks && t.wire.net == net by {
        forall t ensures t in OnNet(tracks, net) <==> t in tracks && t.wire.net == net { OnNetHolds(tracks, net, t); }
      }
      NetTracks(byNet, net)
    }

    /** Puts a new piece of copper at the end of the document. */
    method AddTrack(w: Wire) returns (t: Track)
      requires Valid()
      modifies this
      ensures Valid() && t == Track(old(nextNode), w) && t !in old(tracks) && nextNode == old(nextNode) + 1
      ensures items == old(items) + [Placed(t)] && tracks == old(tracks) + [t]
    {
      hide InStep;
      t := Track(nextNode, w);
      AddingKeepsStep(items, tracks, byNet, nextNode, t);
      nextNode := nextNode + 1;
      items := items + [Placed(t)];
      tracks := tracks + [t];
      byNet := byNet[w.net := NetTracks(byNet, w.net) + [t]];
    }

    /** Puts new tracks in the place of an old one. A track no longer on the board is refused and
        nothing changes. The lists stay in step exactly when the new copper is on the old one's net. */
    method ReplaceTrack(o: Track, with: seq<Wire>) returns (ok: bool, added: seq<Track>)
      requires Valid()
      modifies this
      ensures ok <==> o in old(tracks)
      ensures nextNode == if ok then old(nextNode) + |with| else old(nextNode)
      ensures !ok ==> Valid() && items == old(items) && tracks == old(tracks) && byNet == old(byNet)
      ensures ok ==> |added| == |with| && forall i :: 0 <= i < |with| ==> added[i] == Track(old(nextNode) + i, with[i])
      ensures ok ==> SplicedAt(old(items), o, added, items)
      ensures ok ==> tracks == Replaced(old(tracks), o, added) && tracks == TracksIn(items)
      ensures ok ==> (Valid() <==> forall t :: t in added ==> t.wire.net == o.wire.net)
    {
      hide Replaced, NetTracks, TracksIn, OnNet;
      TracksInHolds(items, o);
      var i := IndexOf(items, Placed(o));
      if i < 0 { return false, []; }
      added := NewTracks(with, nextNode);
      var a, b := items[..i], items[i + 1..];
      assert items == a + [Placed(o)] + b;
      ReplacingKeepsStepIff(a, o, b, added, tracks, byNet, nextNode, nextNode + |with|);
      hide InStep;
      nextNode := nextNode + |with|;
      items := a + AsItems(added) + b;
      assert SplicedAt(old(items), o, added, items);
      tracks := ReplaceIn(tracks, o, added);
      var mine := ReplaceIn(NetTracks(byNet, o.wire.net), o, added);
      byNet := byNet[o.wire.net := mine];
      ok := true;
    }

    /** Takes copper off the board, and says how many pieces. */
    method RemoveTracks(drop: seq<Track>) returns (n: nat)
      requires Valid()
      modifies this
      ensures Valid() && nextNode == old(nextNode) && n == |old(items)| - |items|
      ensures tracks == Kept(old(tracks), Among(drop)) && items == KeptItems(old(items), Among(drop))
      ensures forall t :: t in tracks <==> t in old(tracks) && t !in drop
    {
      hide KeptItems, Kept, TracksIn, OnNet, NetTracks, InStep;
      var gone := Among(drop);
      forall t ensures t in Kept(tracks, gone) <==> t in tracks && t !in drop { KeptHolds(tracks, gone, t); }
      var kept := KeepItems(items, gone);
      KeptItemsOrNothing(items, gone);
      n := |items| - |kept|;
      TracksAreDocuments(items, tracks, byNet, nextNode);
      KeptInTracks(items, gone);
      if n == 0 { return; }
      var left := KeepByNet(byNet, gone);
      RemovingKeepsStep(items, tracks, byNet, nextNode, gone, left);
      items := kept;
      tracks := KeepTracks(tracks, gone);
      byNet := left;
    }
  }

  ghost predicate SplicedAt(items: seq<Item>, o: Track, with: seq<Track>, after: seq<Item>) {
    exists i :: 0 <= i < |items| && items[i] == Placed(o) && after == items[..i] + AsItems(with) + items[i + 1..]
  }

  lemma TracksAreDocuments(items: seq<Item>, tracks: seq<Track>, byNet: map<string, seq<Track>>, next: nat)
    requires InStep(items, tracks, byNet, next)
    ensures tracks == TracksIn(items)
  {
  }
}
