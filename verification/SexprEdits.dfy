/** Editing a document (sexpr/sexpr.go): items appended, spliced, removed and set, anywhere in the tree. */
module SexprEdits {
  import opened Common
  import opened Tokens
  import opened Sexpr

  datatype Edit<T> =
    | Append(with: seq<T>)
    | Replace(i: int, with: seq<T>)
    | Remove(drop: nat -> bool)
    | SetArg(arg: nat, raw: string)
    | Touch

  /** An edit of the node reached by going down these items. */
  datatype At<T> = At(path: seq<nat>, e: Edit<T>)

  function Left<T>(items: seq<T>, drop: nat -> bool): (r: seq<T>)
    ensures |r| <= |items|
  {
    if items == [] then []
    else
      var n := |items| - 1;
      if drop(n) then Left(items[..n], drop) else Left(items[..n], drop) + [items[n]]
  }

  /** No separators yet: a list whose items changed is laid out anew. */
  function Unlaid(n: Node, items: seq<Node>): Node
    requires n.List?
  {
    n.(items := items, pre := seq(|items|, _ => ""), dirty := true)
  }

  function Padded(pre: seq<string>, n: nat): seq<string> { if |pre| < n then pre + seq(n - |pre|, _ => "") else pre }

  function Touched(n: Node): Node {
    match n
    case Atom(raw, _) => Atom(raw, true)
    case List(items, pre, post, _, depth) => List(items, pre, post, true, depth)
  }

  function SetRaw(n: Node, raw: string): Node {
    match n
    case Atom(_, _) => Atom(raw, true)
    case List(_, _, _, _, _) => n.(dirty := true)
  }

  function EditHere(n: Node, e: Edit<Node>): Node {
    if n.Atom? then if e.Touch? then Touched(n) else n
    else
      match e
      case Append(with) => n.(items := n.items + with, pre := Padded(n.pre, |n.items| + |with|), dirty := true)
      case Replace(i, with) => if 0 <= i < |n.items| then Unlaid(n, n.items[..i] + with + n.items[i + 1..]) else n
      case Remove(drop) => if |Left(n.items, drop)| < |n.items| then Unlaid(n, Left(n.items, drop)) else n
      case SetArg(i, raw) =>
        if i + 1 < |n.items| then n.(items := n.items[i + 1 := SetRaw(n.items[i + 1], raw)], dirty := true) else n
      case Touch => Touched(n)
  }

  /** An edit marks the node edited, and nothing above it. */
  function Edited(n: Node, path: seq<nat>, e: Edit<Node>): Node
    decreases |path|
  {
    if path == [] then EditHere(n, e)
    else if n.List? && path[0] < |n.items| then n.(items := n.items[path[0] := Edited(n.items[path[0]], path[1..], e)])
    else n
  }

  /** An edit that does anything leaves the list it is made to marked as changed; a touch marks
      whatever it is made to; setting an argument marks that too; and nothing but a touch does anything to an atom. */
  lemma EditMarks(n: Node, e: Edit<Node>)
    ensures EditHere(n, e) == n || (EditHere(n, e).List? <==> n.List?)
    ensures EditHere(n, e) == n || EditHere(n, e).dirty
    ensures e.Touch? ==> EditHere(n, e).dirty && EditHere(n, e).(dirty := n.dirty) == n
    ensures n.Atom? && !e.Touch? ==> EditHere(n, e) == n
    ensures n.List? && e.SetArg? && e.arg + 1 < |n.items| ==>
      var m := EditHere(n, e);
      m.dirty && m.items[e.arg + 1].dirty && (n.items[e.arg + 1].Atom? ==> m.items[e.arg + 1] == Atom(e.raw, true))
  {
  }

  /** A list marked as changed is laid out anew: what stood between its items plays no part in how it is written. */
  lemma ChangedIsLaidAnew(n: Node, pre: seq<string>, post: string, d: nat)
    requires n.List? && n.dirty
    ensures Write(n.(pre := pre, post := post), d) == Write(n, d)
  {
    var m := n.(pre := pre, post := post);
    assert SubtreeDirty(n) && SubtreeDirty(m);
    assert seq(|m.items|, i requires 0 <= i < |m.items| => Write(m.items[i], 0)) == seq(|n.items|, i requires 0 <= i < |n.items| => Write(n.items[i], 0));
    assert seq(|m.items|, i requires 0 <= i < |m.items| => Write(m.items[i], d + 1)) == seq(|n.items|, i requires 0 <= i < |n.items| => Write(n.items[i], d + 1));
  }

  /** A changed list with a list in it closes on a line of its own, as deep as the list is. */
  lemma ClosesOnItsOwn(n: Node, d: nat) returns (body: string)
    requires n.List? && n.dirty && exists x :: x in n.items && x.List?
    ensures Write(n, d) == body + ("\n" + Tabs(d) + ")")
  {
    assert SubtreeDirty(n);
    var x :| x in n.items && x.List?;
    var i :| 0 <= i < |n.items| && n.items[i] == x;
    hide SubtreeDirty, Lined, Join, Tabs;
    body := "(" + Join(Lined(n.items, d), seq(|n.items|, i requires 0 <= i < |n.items| => Write(n.items[i], d + 1)));
  }

  /** One without is written the same however deep it is. */
  lemma FlatAtAnyDepth(n: Node, d: nat)
    requires n.List? && n.dirty && forall i :: 0 <= i < |n.items| ==> n.items[i].Atom?
    ensures Write(n, d) == Write(n, 0)
  {
    assert SubtreeDirty(n);
    hide SubtreeDirty, Join;
  }

  // ---- the same, on what a node says ----

  function TreeHere(t: Tree, e: Edit<Tree>): Tree {
    if t.Leaf? then t
    else
      match e
      case Append(with) => Branch(t.kids + with)
      case Replace(i, with) => if 0 <= i < |t.kids| then Branch(t.kids[..i] + with + t.kids[i + 1..]) else t
      case Remove(drop) => Branch(Left(t.kids, drop))
      case SetArg(i, raw) =>
        if i + 1 < |t.kids| && t.kids[i + 1].Leaf? then Branch(t.kids[i + 1 := Leaf(raw)]) else t
      case Touch => t
  }

  function TreeEdited(t: Tree, path: seq<nat>, e: Edit<Tree>): Tree
    decreases |path|
  {
    if path == [] then TreeHere(t, e)
    else if t.Branch? && path[0] < |t.kids| then Branch(t.kids[path[0] := TreeEdited(t.kids[path[0]], path[1..], e)])
    else t
  }

  function AbsEdit(e: Edit<Node>): Edit<Tree> {
    match e
    case Append(with) => Append(AbsAll(with))
    case Replace(i, with) => Replace(i, AbsAll(with))
    case Remove(drop) => Remove(drop)
    case SetArg(i, raw) => SetArg(i, raw)
    case Touch => Touch
  }

  /** What is put in is well-formed: nodes are, and a number or symbol is one token. */
  predicate EditOk(e: Edit<Node>) {
    match e
    case Append(with) => forall i :: 0 <= i < |with| ==> WellFormed(with[i])
    case Replace(_, with) => forall i :: 0 <= i < |with| ==> WellFormed(with[i])
    case SetArg(_, raw) => IsToken(raw)
    case _ => true
  }

  // ---- one edit ----

  lemma {:induction false} LeftAbs(items: seq<Node>, drop: nat -> bool)
    ensures AbsAll(Left(items, drop)) == Left(AbsAll(items), drop)
    ensures |Left(items, drop)| == |items| ==> Left(items, drop) == items
  {
    if items != [] {
      var n := |items| - 1;
      LeftAbs(items[..n], drop);
      assert AbsAll(items)[..n] == AbsAll(items[..n]);
      assert items == items[..n] + [items[n]];
      AbsAllMore(Left(items[..n], drop), items[n]);
    }
  }

  lemma {:induction false} LeftFrom(items: seq<Node>, drop: nat -> bool, i: nat)
    requires i < |Left(items, drop)|
    ensures Left(items, drop)[i] in items
  {
    var n := |items| - 1;
    if i < |Left(items[..n], drop)| {
      LeftFrom(items[..n], drop, i);
      assert forall x :: x in items[..n] ==> x in items;
    }
  }

  lemma BranchAbs(n: Node)
    requires n.List?
    ensures Abs(n) == Branch(AbsAll(n.items))
  {
  }

  lemma SpliceAbs(a: seq<Node>, b: seq<Node>, c: seq<Node>)
    ensures AbsAll(a + b + c) == AbsAll(a) + AbsAll(b) + AbsAll(c)
  {
  }

  lemma SpliceWellFormed(items: seq<Node>, i: nat, with: seq<Node>)
    requires i < |items| && (forall k :: 0 <= k < |items| ==> WellFormed(items[k]))
    requires forall k :: 0 <= k < |with| ==> WellFormed(with[k])
    ensures
      var all := items[..i] + with + items[i + 1..];
      forall k :: 0 <= k < |all| ==> WellFormed(all[k])
  {
    hide WellFormed;
  }

  /** A dirty list needs only well-formed items. */
  lemma DirtyIsWellFormed(n: Node)
    requires n.List? && n.dirty && forall i :: 0 <= i < |n.items| ==> WellFormed(n.items[i])
    ensures WellFormed(n)
  {
  }

  lemma ItemsWellFormed(n: Node)
    requires n.List? && WellFormed(n)
    ensures forall i :: 0 <= i < |n.items| ==> WellFormed(n.items[i])
  {
  }

  lemma SetRawWellFormed(n: Node, raw: string)
    requires WellFormed(n) && IsToken(raw)
    ensures WellFormed(SetRaw(n, raw)) && Abs(SetRaw(n, raw)) == if n.Atom? then Leaf(raw) else Abs(n)
  {
  }

  lemma SetItemAbs(items: seq<Node>, i: nat, m: Node)
    requires i < |items|
    ensures AbsAll(items[i := m]) == AbsAll(items)[i := Abs(m)]
  {
  }

  lemma EditHereKeeps(n: Node, e: Edit<Node>)
    requires WellFormed(n) && EditOk(e)
    ensures WellFormed(EditHere(n, e)) && Abs(EditHere(n, e)) == TreeHere(Abs(n), AbsEdit(e))
    ensures EditHere(n, e).List? == n.List? && (n.Atom? ==> EditHere(n, e).raw == n.raw)
  {
    if n.List? {
      ListEditKeeps(n, e);
    }
  }

  lemma ListEditKeeps(n: Node, e: Edit<Node>)
    requires n.List? && WellFormed(n) && EditOk(e)
    ensures WellFormed(EditHere(n, e)) && Abs(EditHere(n, e)) == TreeHere(Abs(n), AbsEdit(e)) && EditHere(n, e).List?
  {
    hide WellFormed, Abs, AbsAll, IsToken, Left;
    ItemsWellFormed(n);
    BranchAbs(n);
    var m := EditHere(n, e);
    BranchAbs(m);
    match e
    case Append(with) =>
      SpliceAbs(n.items, with, []);
      AbsAllNone();
      assert n.items + with + [] == n.items + with;
      DirtyIsWellFormed(m);
    case Replace(i, with) =>
      if 0 <= i < |n.items| { ReplaceKeeps(n, i, with); }
    case Remove(drop) =>
      LeftAbs(n.items, drop);
      if |Left(n.items, drop)| < |n.items| {
        forall k | 0 <= k < |m.items| ensures WellFormed(m.items[k]) { LeftFrom(n.items, drop, k); }
        DirtyIsWellFormed(m);
      }
    case SetArg(i, raw) =>
      if i + 1 < |n.items| {
        SetRawWellFormed(n.items[i + 1], raw);
        SetItemAbs(n.items, i + 1, SetRaw(n.items[i + 1], raw));
        ItemAbs(n.items, i + 1);
        DirtyIsWellFormed(m);
      }
    case Touch =>
      DirtyIsWellFormed(m);
  }

  lemma ItemAbs(items: seq<Node>, i: nat)
    requires i < |items|
    ensures AbsAll(items)[i] == Abs(items[i]) && (items[i].Atom? <==> Abs(items[i]).Leaf?)
    ensures AbsAll(items)[i := Abs(items[i])] == AbsAll(items)
  {
  }

  lemma ReplaceKeeps(n: Node, i: nat, with: seq<Node>)
    requires n.List? && i < |n.items| && (forall k :: 0 <= k < |n.items| ==> WellFormed(n.items[k]))
    requires EditOk(Replace(i, with))
    ensures
      var m := EditHere(n, Replace(i, with));
      WellFormed(m) && m.List? && AbsAll(m.items) == AbsAll(n.items)[..i] + AbsAll(with) + AbsAll(n.items)[i + 1..]
  {
    var a, b := n.items[..i], n.items[i + 1..];
    hide WellFormed, Abs;
    SpliceWellFormed(n.items, i, with);
    DirtyIsWellFormed(EditHere(n, Replace(i, with)));
    SpliceAbs(a, with, b);
    assert AbsAll(a) == AbsAll(n.items)[..i] && AbsAll(b) == AbsAll(n.items)[i + 1..];
  }

  /** An edit anywhere leaves a well-formed node well-formed, and changes what it says just so. */
  lemma {:induction false} EditKeeps(n: Node, path: seq<nat>, e: Edit<Node>)
    requires WellFormed(n) && EditOk(e)
    ensures WellFormed(Edited(n, path, e)) && Abs(Edited(n, path, e)) == TreeEdited(Abs(n), path, AbsEdit(e))
    ensures Edited(n, path, e).List? == n.List? && (n.Atom? ==> Edited(n, path, e).raw == n.raw)
    decreases |path|
  {
    if path == [] {
      EditHereKeeps(n, e);
    } else if n.List? && path[0] < |n.items| {
      hide Abs, EditOk, EditHere, TreeHere, AbsEdit;
      var i := path[0];
      ItemsWellFormed(n);
      EditKeeps(n.items[i], path[1..], e);
      var m := Edited(n.items[i], path[1..], e);
      SameKindWellFormed(n, i, m);
      BranchAbs(n);
      BranchAbs(n.(items := n.items[i := m]));
      SetItemAbs(n.items, i, m);
      ItemAbs(n.items, i);
    } else if n.List? {
      BranchAbs(n);
    }
  }

  /** An item of the same kind, an atom with the same text, fits where the old one did. */
  lemma SameKindWellFormed(n: Node, i: nat, m: Node)
    requires n.List? && WellFormed(n) && i < |n.items| && WellFormed(m)
    requires m.List? == n.items[i].List? && (m.Atom? ==> m.raw == n.items[i].raw)
    ensures WellFormed(n.(items := n.items[i := m]))
  {
    hide AllSpace;
    var items := n.items[i := m];
    if !n.dirty {
      forall k | 0 < k < |items| && BareAtom(items[k - 1]) && items[k].Atom? ensures n.pre[k] != "" {
        assert BareAtom(n.items[k - 1]) && n.items[k].Atom?;
      }
    }
  }

  // ---- any number of edits to a document ----

  function DocEdited(d: Doc, at: At<Node>): Doc {
    if at.path == [] || at.path[0] >= |d.roots| then d
    else d.(roots := d.roots[at.path[0] := Edited(d.roots[at.path[0]], at.path[1..], at.e)])
  }

  function DocEditedAll(d: Doc, es: seq<At<Node>>): Doc {
    if es == [] then d else DocEdited(DocEditedAll(d, es[..|es| - 1]), es[|es| - 1])
  }

  function ForestEdited(ts: seq<Tree>, at: At<Tree>): seq<Tree> {
    if at.path == [] || at.path[0] >= |ts| then ts
    else ts[at.path[0] := TreeEdited(ts[at.path[0]], at.path[1..], at.e)]
  }

  function ForestEditedAll(ts: seq<Tree>, es: seq<At<Tree>>): seq<Tree> {
    if es == [] then ts else ForestEdited(ForestEditedAll(ts, es[..|es| - 1]), es[|es| - 1])
  }

  function AbsEdits(es: seq<At<Node>>): seq<At<Tree>> {
    seq(|es|, i requires 0 <= i < |es| => At(es[i].path, AbsEdit(es[i].e)))
  }

  lemma DocEditKeeps(d: Doc, at: At<Node>)
    requires WellFormedDoc(d) && EditOk(at.e)
    ensures WellFormedDoc(DocEdited(d, at))
    ensures AbsAll(DocEdited(d, at).roots) == ForestEdited(AbsAll(d.roots), At(at.path, AbsEdit(at.e)))
  {
    hide WellFormed, Abs, Edited, TreeEdited, EditOk, AbsEdit, AllSpace;
    if at.path != [] && at.path[0] < |d.roots| {
      var i := at.path[0];
      EditKeeps(d.roots[i], at.path[1..], at.e);
      SetItemAbs(d.roots, i, Edited(d.roots[i], at.path[1..], at.e));
      ItemAbs(d.roots, i);
    }
  }

  lemma {:induction false} DocEditsKeep(d: Doc, es: seq<At<Node>>)
    requires WellFormedDoc(d) && forall i :: 0 <= i < |es| ==> EditOk(es[i].e)
    ensures WellFormedDoc(DocEditedAll(d, es))
    ensures AbsAll(DocEditedAll(d, es).roots) == ForestEditedAll(AbsAll(d.roots), AbsEdits(es))
  {
    hide WellFormedDoc, DocEdited, ForestEdited, EditOk, AbsEdit, AbsAll;
    if es != [] {
      var n := |es| - 1;
      DocEditsKeep(d, es[..n]);
      DocEditKeeps(DocEditedAll(d, es[..n]), es[n]);
      assert AbsEdits(es)[..n] == AbsEdits(es[..n]);
    }
  }

  /** Main result on editing: read a document, edit it any number of times anywhere, and what is written reads back as
      the document so edited. */
  lemma EditedReadsBack(src: string, es: seq<At<Node>>)
    requires ParseForms(src, [], []).Some? && forall i :: 0 <= i < |es| ==> EditOk(es[i].e)
    ensures
      var d := ParseForms(src, [], []).value;
      var back := ParseForms(Bytes(DocEditedAll(d, es)), [], []);
      back.Some? && AbsAll(back.value.roots) == ForestEditedAll(AbsAll(d.roots), AbsEdits(es))
  {
    hide *;
    UntouchedIsExact(src);
    var d := ParseForms(src, [], []).value;
    DocEditsKeep(d, es);
    DocReadsBack(DocEditedAll(d, es));
  }

  // ---- what was not edited keeps its text ----

  function NodeAt(n: Node, path: seq<nat>): Option<Node>
    decreases |path|
  {
    if path == [] then Some(n)
    else if n.List? && path[0] < |n.items| then NodeAt(n.items[path[0]], path[1..])
    else None
  }

  function DocAt(d: Doc, path: seq<nat>): Option<Node> {
    if path == [] || path[0] >= |d.roots| then None else NodeAt(d.roots[path[0]], path[1..])
  }

  /** One text within another. */
  ghost predicate Within(part: string, whole: string) {
    exists a, b :: Framed(part, whole, a, b)
  }

  ghost predicate Framed(part: string, whole: string, a: string, b: string) { whole == a + part + b }

  lemma WithinWider(part: string, mid: string, whole: string, a: string, b: string)
    requires Within(part, mid) && whole == a + mid + b
    ensures Within(part, whole)
  {
    var c, e :| Framed(part, mid, c, e);
    assert whole == (a + c) + part + (e + b);
    assert Framed(part, whole, a + c, e + b);
  }

  lemma {:induction false} JoinHolds(seps: seq<string>, texts: seq<string>, i: nat)
    requires i < |texts|
    ensures Within(texts[i], Join(seps, texts))
    decreases |texts|
  {
    var s := if seps == [] then "" else seps[0];
    var ss := if seps == [] then [] else seps[1..];
    if i == 0 {
      assert Framed(texts[0], Join(seps, texts), s, Join(ss, texts[1..]));
    } else {
      JoinHolds(ss, texts[1..], i - 1);
      assert texts[1..][i - 1] == texts[i];
      var rest := Join(ss, texts[1..]);
      assert Join(seps, texts) == (s + texts[0]) + rest + "";
      WithinWider(texts[i], rest, Join(seps, texts), s + texts[0], "");
    }
  }

  /** Every clean subtree stands in the written text byte for byte. */
  lemma {:induction false} CleanTextKept(n: Node, d: nat, path: seq<nat>)
    requires WellFormed(n) && NodeAt(n, path).Some? && !SubtreeDirty(NodeAt(n, path).value)
    ensures Within(Verbatim(NodeAt(n, path).value), Write(n, d))
    decreases |path|
  {
    hide SubtreeDirty, WellFormed, Verbatim, Write, Join, Within, Separates, AllSpace;
    if path == [] {
      CleanIsVerbatim(n, d);
      WithinItself(Verbatim(n));
    } else {
      ItemsWellFormed(n);
      var seps, ds, post := WrittenApart(n, d);
      var i := path[0];
      CleanTextKept(n.items[i], ds[i], path[1..]);
      var texts := TextsAt(n.items, ds);
      var part := Verbatim(NodeAt(n, path).value);
      JoinHolds(seps, texts, i);
      WithinTwice(part, texts[i], Join(seps, texts));
      assert "(" + Join(seps, texts) + post + ")" == "(" + Join(seps, texts) + (post + ")");
      WithinWider(part, Join(seps, texts), Write(n, d), "(", post + ")");
    }
  }

  lemma WithinItself(s: string)
    ensures Within(s, s)
  {
    assert Framed(s, s, "", "");
  }

  lemma WithinTwice(part: string, mid: string, whole: string)
    requires Within(part, mid) && Within(mid, whole)
    ensures Within(part, whole)
  {
    var a, b :| Framed(mid, whole, a, b);
    WithinWider(part, mid, whole, a, b);
  }

  // ---- where what was not edited goes ----

  /** Where a path below a list leads after an edit of the list, or nowhere, if what it led to was replaced, removed or
      set. */
  function MovedBelow(n: Node, e: Edit<Node>, q: seq<nat>): Option<seq<nat>>
    requires n.List? && q != []
  {
    match e
    case Append(_) => Some(q)
    case Replace(i, with) =>
      if i < 0 || i >= |n.items| || q[0] < i then Some(q)
      else if q[0] == i then None
      else Some([q[0] - 1 + |with|] + q[1..])
    case Remove(drop) =>
      if q[0] >= |n.items| then Some(q)
      else if drop(q[0]) then None
      else Some([|Left(n.items[..q[0]], drop)|] + q[1..])
    case SetArg(i, _) => if q == [i + 1] then None else Some(q)
    case Touch => Some(q)
  }

  /** Where a path leads after an edit at `p`. What the edit is within has been edited, unless it changed nothing. */
  function Moved(n: Node, p: seq<nat>, e: Edit<Node>, q: seq<nat>): Option<seq<nat>>
    decreases |p|
  {
    if q == [] then if Edited(n, p, e) == n then Some(q) else None
    else if n.Atom? then Some(q)
    else if p == [] then MovedBelow(n, e, q)
    else if p[0] >= |n.items| || p[0] != q[0] then Some(q)
    else
      match Moved(n.items[p[0]], p[1..], e, q[1..])
      case None => None
      case Some(r) => Some([q[0]] + r)
  }

  function DocMoved(d: Doc, at: At<Node>, q: seq<nat>): Option<seq<nat>> {
    if at.path == [] || q == [] || at.path[0] >= |d.roots| || at.path[0] != q[0] then Some(q)
    else
      match Moved(d.roots[q[0]], at.path[1..], at.e, q[1..])
      case None => None
      case Some(r) => Some([q[0]] + r)
  }

  /** Where a path leads after these edits, one after another, if what it leads to is edited by none. */
  function DocMovedAll(d: Doc, es: seq<At<Node>>, q: seq<nat>): Option<seq<nat>> {
    if es == [] then Some(q)
    else
      match DocMovedAll(d, es[..|es| - 1], q)
      case None => None
      case Some(r) => DocMoved(DocEditedAll(d, es[..|es| - 1]), es[|es| - 1], r)
  }

  /** What is left of a list, found by how many before it are left. */
  lemma {:induction false} LeftAt(items: seq<Node>, drop: nat -> bool, i: nat)
    requires i < |items| && !drop(i)
    ensures |Left(items[..i], drop)| < |Left(items, drop)| && Left(items, drop)[|Left(items[..i], drop)|] == items[i]
    decreases |items|
  {
    var n := |items| - 1;
    if i < n {
      LeftAt(items[..n], drop, i);
      assert items[..n][..i] == items[..i];
    }
  }

  lemma NothingLeftOut(items: seq<Node>, drop: nat -> bool, i: nat)
    requires i < |items| && |Left(items, drop)| == |items|
    ensures |Left(items[..i], drop)| == i
  {
    LeftCounts(items, drop, i);
  }

  lemma {:induction false} LeftCounts(items: seq<Node>, drop: nat -> bool, i: nat)
    requires i <= |items|
    ensures |Left(items, drop)| - |items| <= |Left(items[..i], drop)| - i
    decreases |items|
  {
    var n := |items| - 1;
    if i <= n {
      LeftCounts(items[..n], drop, i);
      assert items[..n][..i] == items[..i];
    } else {
      assert items[..i] == items;
    }
  }

  /** An edit of a list leaves what is below it, elsewhere perhaps, as it was. */
  lemma MovedBelowKeeps(n: Node, e: Edit<Node>, q: seq<nat>)
    requires n.List? && q != [] && NodeAt(n, q).Some? && MovedBelow(n, e, q).Some?
    ensures NodeAt(EditHere(n, e), MovedBelow(n, e, q).value) == NodeAt(n, q)
  {
    if e.Remove? {
      LeftAt(n.items, e.drop, q[0]);
      if |Left(n.items, e.drop)| == |n.items| { NothingLeftOut(n.items, e.drop, q[0]); }
    }
  }

  lemma {:induction false} MovedKeeps(n: Node, p: seq<nat>, e: Edit<Node>, q: seq<nat>)
    requires NodeAt(n, q).Some? && Moved(n, p, e, q).Some?
    ensures NodeAt(Edited(n, p, e), Moved(n, p, e, q).value) == NodeAt(n, q)
    decreases |p|
  {
    if q != [] {
      if p == [] {
        MovedBelowKeeps(n, e, q);
      } else if p[0] < |n.items| && p[0] == q[0] {
        MovedKeeps(n.items[p[0]], p[1..], e, q[1..]);
      }
    }
  }

  lemma DocMovedKeeps(d: Doc, at: At<Node>, q: seq<nat>)
    requires DocAt(d, q).Some? && DocMoved(d, at, q).Some?
    ensures DocAt(DocEdited(d, at), DocMoved(d, at, q).value) == DocAt(d, q)
  {
    if at.path != [] && at.path[0] < |d.roots| && at.path[0] == q[0] { MovedKeeps(d.roots[q[0]], at.path[1..], at.e, q[1..]); }
  }

  lemma {:induction false} DocMovedAllKeeps(d: Doc, es: seq<At<Node>>, q: seq<nat>)
    requires DocAt(d, q).Some? && DocMovedAll(d, es, q).Some?
    ensures DocAt(DocEditedAll(d, es), DocMovedAll(d, es, q).value) == DocAt(d, q)
  {
    if es != [] {
      hide DocMoved, DocEdited, DocAt;
      var n := |es| - 1;
      DocMovedAllKeeps(d, es[..n], q);
      DocMovedKeeps(DocEditedAll(d, es[..n]), es[n], DocMovedAll(d, es[..n], q).value);
    }
  }

  // ---- and where it is read again ----

  /** Reading a node's text, what stands at a path is read from the text written for it. */
  lemma {:induction false} ReadAtPath(n: Node, d: nat, m: Node, path: seq<nat>) returns (e: nat)
    requires WellFormed(n) && ReadOf(m, Write(n, d)) && NodeAt(n, path).Some?
    ensures NodeAt(m, path).Some? && ReadOf(NodeAt(m, path).value, Write(NodeAt(n, path).value, e))
    decreases |path|
  {
    hide WellFormed, Write, ReadOf, Join, Separates, AllSpace;
    if path == [] {
      e := d;
    } else {
      var i := path[0];
      ItemsWellFormed(n);
      var ds := ItemsReadOf(n, d, m);
      e := ReadAtPath(n.items[i], ds[i], m.items[i], path[1..]);
    }
  }

  /** A list's text read, each item is read from its own. */
  lemma ItemsReadOf(n: Node, d: nat, m: Node) returns (ds: seq<nat>)
    requires WellFormed(n) && n.List? && ReadOf(m, Write(n, d))
    ensures m.List? && |ds| == |n.items| == |m.items|
    ensures forall i :: 0 <= i < |ds| ==> ReadOf(m.items[i], Write(n.items[i], ds[i]))
  {
    var seps, post;
    seps, ds, post := WrittenApart(n, d);
    var texts, text := TextsAt(n.items, ds), Write(n, d);
    ListStarts(text, Join(seps, texts), post);
    hide WellFormed, Write, Join, Separates, AllSpace, ParseRest, ReadsAs, AddedOf, AbsAll;
    var rest, depth :| ParseRest(text[1..] + rest, depth, [], []) == Parsed(m, rest);
    forall i | 0 <= i < |n.items| ensures ReadsAs(texts[i], AbsAll(n.items)[i]) { ItemReads(n, ds, i); }
    assert text[1..] + rest == After(seps, texts, post, rest);
    JoinReads(seps, texts, AbsAll(n.items), post, rest, depth, [], []);
    AddedToNone(m.items, texts);
    ListWasRead(text[1..] + rest, depth);
  }

  lemma ListStarts(text: string, inner: string, post: string)
    requires text == "(" + inner + post + ")"
    ensures text[0] == '(' && text[1..] == inner + post + ")"
  {
  }

  lemma ItemReads(n: Node, ds: seq<nat>, i: nat)
    requires WellFormed(n) && n.List? && |ds| == |n.items| && i < |ds|
    ensures ReadsAs(TextsAt(n.items, ds)[i], AbsAll(n.items)[i])
  {
    hide Write, ReadsAs, WellFormed;
    ItemsWellFormed(n);
    WriteReads(n.items[i], ds[i]);
  }

  lemma AddedToNone(all: seq<Node>, texts: seq<string>)
    requires AddedOf(all, [], texts)
    ensures |all| == |texts| && forall i :: 0 <= i < |all| ==> ReadOf(all[i], texts[i])
  {
    hide ReadOf;
    var none: seq<Node> := [];
    forall i | 0 <= i < |all| ensures ReadOf(all[i], texts[i]) { assert all[|none| + i] == all[i]; }
  }

  lemma ListWasRead(s: string, depth: nat)
    ensures ParseRest(s, depth, [], []).Parsed? ==> ParseRest(s, depth, [], []).n.List?
  {
  }

  /** Reading a document's text, a clean subtree is read at its place from its own text. */
  lemma DocReadAt(d: Doc, q: seq<nat>)
    requires WellFormedDoc(d) && DocAt(d, q).Some? && !SubtreeDirty(DocAt(d, q).value)
    ensures
      var e := ParseForms(Bytes(d), [], []);
      e.Some? && DocAt(e.value, q).Some? && Verbatim(DocAt(e.value, q).value) == Verbatim(DocAt(d, q).value)
  {
    hide WellFormed, SubtreeDirty, Verbatim, Write, ParseForms, AddedOf, Bytes, ReadOf;
    DocReadsBack(d);
    var e := ParseForms(Bytes(d), [], []).value;
    AddedToNone(e.roots, DocTexts(d));
    var i := q[0];
    var depth := ReadAtPath(d.roots[i], DepthOf(d.roots[i]), e.roots[i], q[1..]);
    var m, n := DocAt(e, q).value, DocAt(d, q).value;
    ReadOfText(m, Write(n, depth));
    CleanIsVerbatim(n, depth);
  }

  /** Main result on what editing leaves alone: a subtree that is not itself edited, replaced or removed is, whatever is
      done to the lists it is in, where its path has moved to in the document as edited; its text stands in the new text
      byte for byte as in the source; and on reading the new text back, it is that text which is read at that place. */
  lemma UneditedTextKept(src: string, es: seq<At<Node>>, q: seq<nat>)
    requires ParseForms(src, [], []).Some? && forall i :: 0 <= i < |es| ==> EditOk(es[i].e)
    requires var d := ParseForms(src, [], []).value; DocAt(d, q).Some? && DocMovedAll(d, es, q).Some?
    ensures
      var d := ParseForms(src, [], []).value;
      var r, after, text := DocMovedAll(d, es, q).value, DocEditedAll(d, es), Verbatim(DocAt(d, q).value);
      var back := ParseForms(Bytes(after), [], []);
      && DocAt(after, r) == DocAt(d, q) && Within(text, src) && Within(text, Bytes(after))
      && back.Some? && DocAt(back.value, r).Some? && Verbatim(DocAt(back.value, r).value) == text
  {
    hide ParseForms, Verbatim, Within, Bytes, WellFormedDoc, CleanDoc, DocEditedAll, EditOk, DocMovedAll;
    UntouchedIsExact(src);
    var d := ParseForms(src, [], []).value;
    DocEditsKeep(d, es);
    DocMovedAllKeeps(d, es, q);
    CleanInDoc(d, q);
    DocHolds(d, q);
    DocHolds(DocEditedAll(d, es), DocMovedAll(d, es, q).value);
    DocReadAt(DocEditedAll(d, es), DocMovedAll(d, es, q).value);
  }

  /** The edit is of this subtree or of something in it, and changes it. */
  predicate EditedWithin(n: Node, p: seq<nat>, e: Edit<Node>, q: seq<nat>)
    requires NodeAt(n, q).Some?
  {
    q <= p && Edited(NodeAt(n, q).value, p[|q|..], e) != NodeAt(n, q).value
  }

  /** The edit is of a list this subtree is in, and replaces, removes or sets the item that is or holds it. */
  predicate ItemLost(p: seq<nat>, e: Edit<Node>, q: seq<nat>) {
    p < q &&
    match e
    case Replace(i, _) => q[|p|] == i
    case Remove(drop) => drop(q[|p|])
    case SetArg(i, _) => q == p + [i + 1]
    case _ => false
  }

  /** Only these two keep a subtree from surviving an edit. */
  lemma {:induction false} LostIff(n: Node, p: seq<nat>, e: Edit<Node>, q: seq<nat>)
    requires NodeAt(n, q).Some?
    ensures Moved(n, p, e, q).None? <==> EditedWithin(n, p, e, q) || ItemLost(p, e, q)
    decreases |p|
  {
    if q != [] && p != [] {
      assert p == [p[0]] + p[1..] && q == [q[0]] + q[1..];
      if p[0] == q[0] {
        LostIff(n.items[p[0]], p[1..], e, q[1..]);
        assert |p| < |q| || p[1..][|q| - 1..] == p[|q|..];
        assert p <= q <==> p[1..] <= q[1..];
        assert q <= p <==> q[1..] <= p[1..];
        if e.SetArg? { assert q == p + [e.arg + 1] <==> q[1..] == p[1..] + [e.arg + 1]; }
      } else {
        assert !(p < q) && !(q <= p);
      }
    }
  }

  lemma CleanInDoc(d: Doc, q: seq<nat>)
    requires CleanDoc(d) && DocAt(d, q).Some?
    ensures !SubtreeDirty(DocAt(d, q).value)
  {
    CleanBelow(d.roots[q[0]], q[1..]);
  }

  lemma {:induction false} CleanBelow(n: Node, q: seq<nat>)
    requires !SubtreeDirty(n) && NodeAt(n, q).Some?
    ensures !SubtreeDirty(NodeAt(n, q).value)
    decreases |q|
  {
    if q != [] { CleanBelow(n.items[q[0]], q[1..]); }
  }

  lemma DocHolds(d: Doc, q: seq<nat>)
    requires WellFormedDoc(d) && DocAt(d, q).Some? && !SubtreeDirty(DocAt(d, q).value)
    ensures Within(Verbatim(DocAt(d, q).value), Bytes(d))
  {
    hide SubtreeDirty, WellFormed, Verbatim, Write, Join, Within, AllSpace;
    var i := q[0];
    var texts := DocTexts(d);
    var part := Verbatim(DocAt(d, q).value);
    CleanTextKept(d.roots[i], DepthOf(d.roots[i]), q[1..]);
    JoinHolds(d.lead, texts, i);
    WithinTwice(part, texts[i], Join(d.lead, texts));
    assert Bytes(d) == "" + Join(d.lead, texts) + d.trail;
    WithinWider(part, Join(d.lead, texts), Bytes(d), "", d.trail);
  }
}
