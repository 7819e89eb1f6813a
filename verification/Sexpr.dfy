/** A document as a tree that remembers its source text (sexpr/sexpr.go): untouched it is written back byte for
    byte, edited it is written so that it reads as what was meant. */
module Sexpr {
  import opened Common
  import opened Tokens

  /** An atom, or a list with the white space before each item and before the closing parenthesis. `dirty` says the
      text no longer describes the node; `depth` indents a list that has to be laid out anew. */
  datatype Node =
    | Atom(raw: string, dirty: bool)
    | List(items: seq<Node>, pre: seq<string>, post: string, dirty: bool, depth: nat)

  /** What a node says, without its layout. */
  datatype Tree = Leaf(raw: string) | Branch(kids: seq<Tree>)

  function Abs(n: Node): Tree {
    match n
    case Atom(raw, _) => Leaf(raw)
    case List(items, _, _, _, _) => Branch(seq(|items|, i requires 0 <= i < |items| => Abs(items[i])))
  }

  function AbsAll(items: seq<Node>): (ts: seq<Tree>)
    ensures |ts| == |items|
  {
    seq(|items|, i requires 0 <= i < |items| => Abs(items[i]))
  }

  // ---- writing ----

  predicate SubtreeDirty(n: Node) {
    n.dirty || (n.List? && exists i :: 0 <= i < |n.items| && SubtreeDirty(n.items[i]))
  }

  /** Each text after its separator. */
  function Join(seps: seq<string>, texts: seq<string>): string {
    if texts == [] then ""
    else (if seps == [] then "" else seps[0]) + texts[0] + Join(if seps == [] then [] else seps[1..], texts[1..])
  }

  /** The source text. */
  function Verbatim(n: Node): string {
    match n
    case Atom(raw, _) => raw
    case List(items, pre, post, _, _) =>
      "(" + Join(pre, seq(|items|, i requires 0 <= i < |items| => Verbatim(items[i]))) + post + ")"
  }

  function Tabs(n: nat): string { seq(n, _ => '\t') }

  /** Single spaces between. */
  function Spaced(n: nat): seq<string> { seq(n, i => if i == 0 then "" else " ") }

  /** A line each, but for a head symbol, which stays on the first. */
  function Lined(items: seq<Node>, d: nat): seq<string> {
    seq(|items|, i requires 0 <= i < |items| => if i == 0 && items[0].Atom? then "" else "\n" + Tabs(d + 1))
  }

  predicate HasList(items: seq<Node>) { exists i :: 0 <= i < |items| && items[i].List? }

  function DepthOf(n: Node): nat { if n.List? then n.depth else 0 }

  /** The node's text at depth `d`: its own where nothing below it changed; its own separators about rewritten items
      where only something below did; and laid out anew where it changed itself. */
  function Write(n: Node, d: nat): string {
    match n
    case Atom(raw, _) => raw
    case List(items, pre, post, dirty, _) =>
      if !SubtreeDirty(n) then Verbatim(n)
      else if !dirty then
        "(" + Join(pre, seq(|items|, i requires 0 <= i < |items| => Write(items[i], DepthOf(items[i])))) + post + ")"
      else if !HasList(items) then
        "(" + Join(Spaced(|items|), seq(|items|, i requires 0 <= i < |items| => Write(items[i], 0))) + ")"
      else
        "(" + Join(Lined(items, d), seq(|items|, i requires 0 <= i < |items| => Write(items[i], d + 1))) + "\n" + Tabs(d) + ")"
  }

  // ---- reading ----

  datatype Parsed = Parsed(n: Node, rest: string) | Failed

  /** The rest of a list, after the items read so far. */
  function ParseRest(s: string, depth: nat, items: seq<Node>, pre: seq<string>): (p: Parsed)
    ensures p.Parsed? ==> p.n.List? && |p.rest| < |s|
    decreases |s|
  {
    var w := SpaceLen(s);
    var t := s[w..];
    if t == "" then Failed
    else if t[0] == ')' then Parsed(List(items, pre, s[..w], false, depth), t[1..])
    else if t[0] == '(' then
      match ParseRest(t[1..], depth + 1, [], [])
      case Failed => Failed
      case Parsed(n, rest) => ParseRest(rest, depth, items + [n], pre + [s[..w]])
    else
      match TokenLen(t)
      case None => Failed
      case Some(k) => ParseRest(t[k..], depth, items + [Atom(t[..k], false)], pre + [s[..w]])
  }

  datatype Doc = Doc(roots: seq<Node>, lead: seq<string>, trail: string)

  function ParseForms(s: string, roots: seq<Node>, lead: seq<string>): (d: Option<Doc>)
    decreases |s|
  {
    var w := SpaceLen(s);
    var t := s[w..];
    if t == "" then if roots == [] then None else Some(Doc(roots, lead, s[..w]))
    else if t[0] != '(' then None
    else
      match ParseRest(t[1..], 0, [], [])
      case Failed => None
      case Parsed(n, rest) => ParseForms(rest, roots + [n], lead + [s[..w]])
  }

  function DocTexts(d: Doc): (ts: seq<string>)
    ensures |ts| == |d.roots|
  {
    seq(|d.roots|, i requires 0 <= i < |d.roots| => Write(d.roots[i], DepthOf(d.roots[i])))
  }

  function Bytes(d: Doc): string { Join(d.lead, DocTexts(d)) + d.trail }

  // ---- what a well-formed node is ----

  predicate BareAtom(n: Node) { n.Atom? && IsBare(n.raw) }

  /** Two atoms run together only if the first is quoted. */
  predicate Gaps(items: seq<Node>, pre: seq<string>)
    requires |pre| == |items|
  {
    forall i :: 0 < i < |items| && BareAtom(items[i - 1]) && items[i].Atom? ==> pre[i] != ""
  }

  /** Every atom is one token; the layout a clean list remembers is white space that keeps its items apart. */
  predicate WellFormed(n: Node) {
    match n
    case Atom(raw, _) => IsToken(raw)
    case List(items, pre, post, dirty, _) =>
      && (forall i :: 0 <= i < |items| ==> WellFormed(items[i]))
      && (!dirty ==> |pre| == |items| && AllSpace(post) && (forall i :: 0 <= i < |pre| ==> AllSpace(pre[i])) && Gaps(items, pre))
  }

  // ---- a written node reads as what it says ----

  ghost predicate ListReads(body: string, t: Tree, rest: string, depth: nat) {
    var p := ParseRest(body + rest, depth, [], []);
    p.Parsed? && p.rest == rest && Abs(p.n) == t
  }

  /** Wherever the text stands, it is read as the tree, and reading stops at its end. */
  ghost predicate ReadsAs(text: string, t: Tree) {
    match t
    case Leaf(raw) => text == raw && IsToken(raw)
    case Branch(_) => text != "" && text[0] == '(' && forall rest, depth :: ListReads(text[1..], t, rest, depth)
  }

  ghost predicate BareLeaf(t: Tree) { t.Leaf? && IsBare(t.raw) }

  /** White space that keeps the trees' texts apart. */
  ghost predicate Separates(seps: seq<string>, kids: seq<Tree>)
    requires |seps| == |kids|
  {
    && (forall i :: 0 <= i < |seps| ==> AllSpace(seps[i]))
    && forall i :: 0 < i < |kids| && BareLeaf(kids[i - 1]) && kids[i].Leaf? ==> seps[i] != ""
  }

  /** What follows an item: more items, then the end of the list. */
  function After(seps: seq<string>, texts: seq<string>, post: string, rest: string): string {
    Join(seps, texts) + post + ")" + rest
  }

  lemma AfterEnds(seps: seq<string>, texts: seq<string>, kids: seq<Tree>, post: string, rest: string)
    requires |seps| == |kids| && Separates(seps, kids) && |texts| == |kids| && AllSpace(post)
    requires forall i :: 0 <= i < |kids| ==> ReadsAs(texts[i], kids[i])
    requires kids != [] && kids[0].Leaf? ==> seps[0] != ""
    ensures After(seps, texts, post, rest) != "" && Ends(After(seps, texts, post, rest)[0])
  {
    hide ListReads, IsToken;
    if kids == [] {
      var t := After(seps, texts, post, rest);
      assert Join(seps, texts) == "" && t[0] == (post + ")")[0];
    } else {
      var more := Join(seps[1..], texts[1..]) + post + ")" + rest;
      assert After(seps, texts, post, rest) == seps[0] + texts[0] + more;
      assert ReadsAs(texts[0], kids[0]);
    }
  }

  lemma AfterFirst(seps: seq<string>, texts: seq<string>, post: string, rest: string)
    requires |seps| == |texts| && texts != []
    ensures After(seps, texts, post, rest) == seps[0] + (texts[0] + After(seps[1..], texts[1..], post, rest))
  {
  }

  /** A node as it is read where this text stands. */
  ghost predicate ReadOf(m: Node, text: string) {
    if text != "" && text[0] == '(' then exists rest, depth :: ParseRest(text[1..] + rest, depth, [], []) == Parsed(m, rest)
    else m == Atom(text, false)
  }

  /** To these items one was added for each text, as it is read there. */
  ghost predicate AddedOf(all: seq<Node>, items: seq<Node>, texts: seq<string>) {
    && |all| == |items| + |texts| && all[..|items|] == items
    && forall i :: 0 <= i < |texts| ==> ReadOf(all[|items| + i], texts[i])
  }

  lemma NoneAdded(items: seq<Node>)
    ensures AddedOf(items, items, [])
  {
  }

  lemma OneMoreAdded(all: seq<Node>, items: seq<Node>, m: Node, texts: seq<string>)
    requires texts != [] && ReadOf(m, texts[0]) && AddedOf(all, items + [m], texts[1..])
    ensures AddedOf(all, items, texts)
  {
    hide ReadOf;
    assert all[..|items| + 1] == items + [m];
    assert all[|items|] == m && all[..|items|] == items;
    forall i | 0 <= i < |texts| ensures ReadOf(all[|items| + i], texts[i]) {
      if i > 0 { assert texts[1..][i - 1] == texts[i] && all[|items + [m]| + (i - 1)] == all[|items| + i]; }
    }
  }

  /** What is read somewhere has the text that stands there. */
  lemma ReadOfText(m: Node, text: string)
    requires ReadOf(m, text)
    ensures Verbatim(m) == text
  {
    hide KeptText, WellFormed, SubtreeDirty, ParseRest;
    if text != "" && text[0] == '(' {
      var rest, depth :| ParseRest(text[1..] + rest, depth, [], []) == Parsed(m, rest);
      var s := text[1..] + rest;
      NothingRead(s);
      ReadKeepsText(s, depth, [], []);
      ListAsRead(s, Parsed(m, rest));
      assert "(" + s == text + rest;
      SameFront(Verbatim(m), text, rest);
    }
  }

  lemma SameFront(a: string, b: string, rest: string)
    requires a + rest == b + rest
    ensures a == b
  {
    assert |a| == |b| && (a + rest)[..|a|] == a && (b + rest)[..|b|] == b;
  }

  /** Items that read as they should, kept apart, make a list that does, each read where its text stands. */
  lemma {:induction false} JoinReads(seps: seq<string>, texts: seq<string>, kids: seq<Tree>, post: string, rest: string,
                                     depth: nat, items: seq<Node>, pre: seq<string>)
    requires |seps| == |kids| && Separates(seps, kids) && |texts| == |kids| && AllSpace(post)
    requires forall i :: 0 <= i < |kids| ==> ReadsAs(texts[i], kids[i])
    ensures
      var p := ParseRest(After(seps, texts, post, rest), depth, items, pre);
      p.Parsed? && p.rest == rest && Abs(p.n) == Branch(AbsAll(items) + kids) && AddedOf(p.n.items, items, texts)
    decreases |texts|
  {
    hide *;
    if texts == [] {
      JoinReadsNone(seps, texts, post, rest, depth, items, pre);
      NoneAdded(items);
      assert AbsAll(items) + kids == AbsAll(items);
    } else {
      var m := JoinReadsFirst(seps, texts, kids, post, rest, depth, items, pre);
      TailSeparates(seps, kids);
      JoinReads(seps[1..], texts[1..], kids[1..], post, rest, depth, items + [m], pre + [seps[0]]);
      AbsAllMore(items, m);
      assert AbsAll(items) + [kids[0]] + kids[1..] == AbsAll(items) + kids;
      OneMoreAdded(ParseRest(After(seps, texts, post, rest), depth, items, pre).n.items, items, m, texts);
    }
  }

  lemma AbsAllMore(items: seq<Node>, m: Node)
    ensures AbsAll(items + [m]) == AbsAll(items) + [Abs(m)]
  {
  }

  lemma JoinReadsNone(seps: seq<string>, texts: seq<string>, post: string, rest: string, depth: nat, items: seq<Node>,
                      pre: seq<string>)
    requires AllSpace(post) && texts == []
    ensures ParseRest(After(seps, texts, post, rest), depth, items, pre) == Parsed(List(items, pre, post, false, depth), rest)
    ensures Abs(List(items, pre, post, false, depth)) == Branch(AbsAll(items))
  {
    var s := After(seps, texts, post, rest);
    var t := ")" + rest;
    assert s == post + t;
    SpaceStands(post, t);
    assert s[|post|..] == t && s[..|post|] == post && t[1..] == rest;
  }

  lemma TailSeparates(seps: seq<string>, kids: seq<Tree>)
    requires |seps| == |kids| && Separates(seps, kids) && kids != []
    ensures Separates(seps[1..], kids[1..]) && AllSpace(seps[0])
    ensures kids[1..] != [] && BareLeaf(kids[0]) && kids[1..][0].Leaf? ==> seps[1..][0] != ""
  {
    hide AllSpace;
  }

  /** Reading the first of the items leads on to reading the others. */
  lemma JoinReadsFirst(seps: seq<string>, texts: seq<string>, kids: seq<Tree>, post: string, rest: string,
                       depth: nat, items: seq<Node>, pre: seq<string>) returns (m: Node)
    requires |seps| == |kids| && Separates(seps, kids) && |texts| == |kids| && AllSpace(post) && texts != []
    requires forall i :: 0 <= i < |kids| ==> ReadsAs(texts[i], kids[i])
    ensures Abs(m) == kids[0] && ReadOf(m, texts[0])
    ensures ParseRest(After(seps, texts, post, rest), depth, items, pre) ==
      ParseRest(After(seps[1..], texts[1..], post, rest), depth, items + [m], pre + [seps[0]])
  {
    hide Separates, IsToken, After, AllSpace;
    AfterFirst(seps, texts, post, rest);
    TailSeparates(seps, kids);
    var more := After(seps[1..], texts[1..], post, rest);
    var t, w := texts[0] + more, seps[0];
    assert ReadsAs(texts[0], kids[0]);
    if kids[0].Leaf? {
      TokenStarts(texts[0]);
      SpaceStands(w, t);
      if IsBare(texts[0]) { AfterEnds(seps[1..], texts[1..], kids[1..], post, rest); }
      TokenStands(texts[0], more);
      m := Atom(texts[0], false);
      ReadAtom(w, texts[0], more, depth, items, pre);
    } else {
      SpaceStands(w, t);
      assert ListReads(texts[0][1..], kids[0], more, depth + 1);
      m := ParseRest(texts[0][1..] + more, depth + 1, [], []).n;
      assert t[1..] == texts[0][1..] + more;
      ReadList(w, t, m, more, depth, items, pre);
    }
  }

  lemma ReadAtom(w: string, text: string, more: string, depth: nat, items: seq<Node>, pre: seq<string>)
    requires SpaceLen(w + (text + more)) == |w| && TokenLen(text + more) == Some(|text|)
    requires text != "" && text[0] != '(' && text[0] != ')'
    ensures ParseRest(w + (text + more), depth, items, pre) == ParseRest(more, depth, items + [Atom(text, false)], pre + [w])
  {
    var s, t := w + (text + more), text + more;
    assert s[|w|..] == t && s[..|w|] == w && t[0] == text[0] && t[|text|..] == more && t[..|text|] == text;
  }

  lemma ReadList(w: string, t: string, m: Node, more: string, depth: nat, items: seq<Node>, pre: seq<string>)
    requires SpaceLen(w + t) == |w| && t != "" && t[0] == '(' && ParseRest(t[1..], depth + 1, [], []) == Parsed(m, more)
    ensures ParseRest(w + t, depth, items, pre) == ParseRest(more, depth, items + [m], pre + [w])
  {
    var s := w + t;
    assert s[|w|..] == t && s[..|w|] == w;
  }

  // ---- the three ways of writing all lay items out apart ----

  lemma CleanIsVerbatim(n: Node, d: nat)
    requires !SubtreeDirty(n)
    ensures Write(n, d) == Verbatim(n)
  {
  }

  function TextsAt(items: seq<Node>, ds: seq<nat>): seq<string>
    requires |ds| == |items|
  {
    seq(|items|, i requires 0 <= i < |items| => Write(items[i], ds[i]))
  }

  lemma GapsSeparate(items: seq<Node>, pre: seq<string>)
    requires |pre| == |items| && Gaps(items, pre) && forall i :: 0 <= i < |pre| ==> AllSpace(pre[i])
    ensures Separates(pre, AbsAll(items))
  {
    hide AllSpace;
    forall i | 0 < i < |items| && BareLeaf(AbsAll(items)[i - 1]) && AbsAll(items)[i].Leaf? ensures pre[i] != "" {
      assert Abs(items[i - 1]) == AbsAll(items)[i - 1] && Abs(items[i]) == AbsAll(items)[i];
      assert BareAtom(items[i - 1]);
    }
  }

  /** Whatever way a list is written, it is its items, written, with white space that keeps them apart. */
  lemma WrittenApart(n: Node, d: nat) returns (seps: seq<string>, ds: seq<nat>, post: string)
    requires WellFormed(n) && n.List?
    ensures |seps| == |ds| == |n.items| && Separates(seps, AbsAll(n.items)) && AllSpace(post)
    ensures Write(n, d) == "(" + Join(seps, TextsAt(n.items, ds)) + post + ")"
    ensures !n.dirty ==> seps == n.pre && post == n.post
  {
    hide Join, AllSpace, Separates, Gaps;
    var items := n.items;
    if !n.dirty {
      GapsSeparate(items, n.pre);
      seps, post := n.pre, n.post;
      ds := seq(|items|, i requires 0 <= i < |items| => DepthOf(items[i]));
      if !SubtreeDirty(n) {
        forall i | 0 <= i < |items| ensures Verbatim(items[i]) == Write(items[i], ds[i]) { CleanIsVerbatim(items[i], ds[i]); }
        assert TextsAt(items, ds) == seq(|items|, i requires 0 <= i < |items| => Verbatim(items[i]));
      } else {
        assert TextsAt(items, ds) == seq(|items|, i requires 0 <= i < |items| => Write(items[i], DepthOf(items[i])));
      }
    } else if !HasList(items) {
      SpacedSeparates(items);
      EmptyIsSpace();
      seps, post := Spaced(|items|), "";
      ds := seq(|items|, _ => 0);
      assert TextsAt(items, ds) == seq(|items|, i requires 0 <= i < |items| => Write(items[i], 0));
    } else {
      LinedSeparates(items, d);
      LineIsSpace(d);
      seps, post := Lined(items, d), "\n" + Tabs(d);
      ds := seq(|items|, _ => d + 1);
      var texts := seq(|items|, i requires 0 <= i < |items| => Write(items[i], d + 1));
      assert TextsAt(items, ds) == texts;
      assert "(" + Join(seps, texts) + ("\n" + Tabs(d)) + ")" == "(" + Join(seps, texts) + "\n" + Tabs(d) + ")";
    }
  }

  lemma EmptyIsSpace()
    ensures AllSpace("")
  {
  }

  lemma LineIsSpace(d: nat)
    ensures AllSpace("\n" + Tabs(d))
  {
  }

  lemma SpacedSeparates(items: seq<Node>)
    ensures Separates(Spaced(|items|), AbsAll(items))
  {
  }

  lemma LinedSeparates(items: seq<Node>, d: nat)
    ensures Separates(Lined(items, d), AbsAll(items))
  {
    hide AllSpace;
    LineIsSpace(d + 1);
    EmptyIsSpace();
  }

  /** Main result on writing: however much of it is dirty, a well-formed node's text reads back as what the node says,
      wherever it stands. */
  lemma {:induction false} WriteReads(n: Node, d: nat)
    requires WellFormed(n)
    ensures ReadsAs(Write(n, d), Abs(n))
    decreases n
  {
    if n.List? {
      hide ListReads, Join, Separates, AllSpace, IsToken, Write, ReadsAs;
      var seps, ds, post := WrittenApart(n, d);
      forall i | 0 <= i < |n.items| ensures ReadsAs(TextsAt(n.items, ds)[i], AbsAll(n.items)[i]) { WriteReads(n.items[i], ds[i]); }
      ListTextReads(n, Write(n, d), seps, TextsAt(n.items, ds), post);
    }
  }

  lemma ListTextReads(n: Node, text: string, seps: seq<string>, texts: seq<string>, post: string)
    requires n.List? && |seps| == |texts| == |n.items| && Separates(seps, AbsAll(n.items)) && AllSpace(post)
    requires text == "(" + Join(seps, texts) + post + ")"
    requires forall i :: 0 <= i < |n.items| ==> ReadsAs(texts[i], AbsAll(n.items)[i])
    ensures ReadsAs(text, Abs(n))
  {
    hide Join, Separates, AllSpace, ReadsAs, AbsAll, ParseRest;
    assert text[0] == '(' && text[1..] == Join(seps, texts) + post + ")";
    AbsOfAny(n);
    forall rest, depth ensures ListReads(text[1..], Abs(n), rest, depth) {
      ItemsRead(seps, texts, n.items, post, rest, depth);
      assert text[1..] + rest == After(seps, texts, post, rest);
    }
    BranchReads(text, n);
  }

  lemma AbsOfAny(n: Node)
    requires n.List?
    ensures Abs(n) == Branch(AbsAll(n.items))
  {
  }

  lemma BranchReads(text: string, n: Node)
    requires n.List? && text != "" && text[0] == '(' && forall rest, depth :: ListReads(text[1..], Abs(n), rest, depth)
    ensures ReadsAs(text, Abs(n))
  {
    hide ListReads;
  }

  lemma ItemsRead(seps: seq<string>, texts: seq<string>, items: seq<Node>, post: string, rest: string, depth: nat)
    requires |seps| == |texts| == |items| && Separates(seps, AbsAll(items)) && AllSpace(post)
    requires forall i :: 0 <= i < |items| ==> ReadsAs(texts[i], AbsAll(items)[i])
    ensures
      var p := ParseRest(After(seps, texts, post, rest), depth, [], []);
      p.Parsed? && p.rest == rest && Abs(p.n) == Branch(AbsAll(items))
  {
    hide *;
    JoinReads(seps, texts, AbsAll(items), post, rest, depth, [], []);
    AbsAllNone();
    assert [] + AbsAll(items) == AbsAll(items);
  }

  lemma AbsAllNone()
    ensures AbsAll([]) == []
  {
  }

  // ---- what is read is written back as it was ----

  function Sources(items: seq<Node>): (ts: seq<string>)
    ensures |ts| == |items|
  {
    seq(|items|, i requires 0 <= i < |items| => Verbatim(items[i]))
  }

  /** Items as they come from reading: clean, well-formed, and apart. */
  predicate AsRead(items: seq<Node>, pre: seq<string>) {
    && |pre| == |items| && (forall i :: 0 <= i < |items| ==> !SubtreeDirty(items[i]) && WellFormed(items[i]))
    && (forall i :: 0 <= i < |pre| ==> AllSpace(pre[i])) && Gaps(items, pre)
  }

  /** A bare token stopped only where one ends. */
  predicate StoppedWell(items: seq<Node>, s: string) {
    items != [] && BareAtom(items[|items| - 1]) ==> s == "" || Ends(s[0])
  }

  /** What was read from `s` after the items before is the rest of the list and the closing parenthesis. */
  ghost predicate ReadFrom(s: string, k: nat, p: Parsed) {
    && p.Parsed? && p.n.List? && AsRead(p.n.items, p.n.pre) && AllSpace(p.n.post) && !p.n.dirty
    && k <= |p.n.items|
    && s == Join(p.n.pre[k..], Sources(p.n.items[k..])) + p.n.post + ")" + p.rest
  }

  lemma OneMoreRead(items: seq<Node>, pre: seq<string>, m: Node, w: string, s: string)
    requires AsRead(items, pre) && StoppedWell(items, s) && WellFormed(m) && !SubtreeDirty(m) && AllSpace(w)
    requires m.Atom? && w == "" ==> s != "" && !Ends(s[0])
    ensures AsRead(items + [m], pre + [w])
  {
    hide SubtreeDirty, WellFormed, AllSpace;
    var more, seps := items + [m], pre + [w];
    forall i | 0 < i < |more| && BareAtom(more[i - 1]) && more[i].Atom? ensures seps[i] != "" {
      if i < |items| { assert BareAtom(items[i - 1]) && items[i].Atom?; }
    }
  }

  lemma ReadFromOneLess(s: string, w: string, text: string, rest: string, k: nat, p: Parsed)
    requires s == w + text + rest && ReadFrom(rest, k + 1, p) && k < |p.n.items| == |p.n.pre| && p.n.pre[k] == w
    requires Verbatim(p.n.items[k]) == text
    ensures ReadFrom(s, k, p)
  {
    hide Verbatim, SubtreeDirty, WellFormed, Gaps, AllSpace;
    var seps, texts := p.n.pre[k..], Sources(p.n.items[k..]);
    assert seps[0] == w && texts[0] == text && seps[1..] == p.n.pre[k + 1..] && texts[1..] == Sources(p.n.items[k + 1..]);
    var tail := Join(p.n.pre[k + 1..], Sources(p.n.items[k + 1..]));
    assert Join(seps, texts) == w + text + tail;
    assert w + text + (tail + p.n.post + ")" + p.rest) == w + text + tail + p.n.post + ")" + p.rest;
  }

  /** Reading kept every character since the first `items`, which come first. */
  ghost predicate KeptText(s: string, items: seq<Node>, pre: seq<string>, p: Parsed) {
    && ReadFrom(s, |items|, p) && p.Parsed? && p.n.List?
    && |pre| == |items| <= |p.n.items| == |p.n.pre| && p.n.items[..|items|] == items && p.n.pre[..|pre|] == pre
  }

  /** Reading keeps every character, and makes well-formed nodes. */
  lemma {:induction false} ReadKeepsText(s: string, depth: nat, items: seq<Node>, pre: seq<string>)
    requires ParseRest(s, depth, items, pre).Parsed? && AsRead(items, pre) && StoppedWell(items, s)
    ensures KeptText(s, items, pre, ParseRest(s, depth, items, pre))
    decreases |s|, 1
  {
    hide AsRead, StoppedWell, ReadFrom, AllSpace, IsToken, Verbatim, WellFormed, SubtreeDirty, ParseRest;
    AsReadLengths(items, pre);
    FirstOfRest(s, depth, items, pre);
    var t := s[SpaceLen(s)..];
    if t[0] == ')' {
      ReadEnd(s, depth, items, pre);
    } else if t[0] == '(' {
      ListKeepsText(s, depth, items, pre);
    } else {
      AtomKeepsText(s, depth, items, pre);
    }
  }

  lemma {:induction false} ListKeepsText(s: string, depth: nat, items: seq<Node>, pre: seq<string>)
    requires ParseRest(s, depth, items, pre).Parsed? && AsRead(items, pre) && StoppedWell(items, s)
    requires SpaceLen(s) < |s| && s[SpaceLen(s)] == '('
    ensures KeptText(s, items, pre, ParseRest(s, depth, items, pre))
    decreases |s|, 0
  {
    hide AsRead, StoppedWell, ReadFrom, KeptText, AllSpace, Verbatim, WellFormed, SubtreeDirty, ParseRest;
    ListStep(s, depth, items, pre);
    var w := SpaceLen(s);
    var t, ws := s[w..], s[..w];
    var inner := ParseRest(t[1..], depth + 1, [], []);
    NothingRead(t[1..]);
    ReadKeepsText(t[1..], depth + 1, [], []);
    ListAsRead(t[1..], inner);
    OneMoreRead(items, pre, inner.n, ws, s);
    StoppedAfterList(items, inner.n, inner.rest);
    ReadKeepsText(inner.rest, depth, items + [inner.n], pre + [ws]);
    ListTogether(s, ws, t, Verbatim(inner.n), inner.rest);
    ReadOn(s, depth, items, pre, ws, inner.n, inner.rest);
  }

  lemma ListTogether(s: string, w: string, t: string, text: string, rest: string)
    requires s == w + t && t != "" && "(" + t[1..] == text + rest && t[0] == '('
    ensures s == w + text + rest
  {
    assert t == "(" + t[1..];
  }

  lemma {:induction false} AtomKeepsText(s: string, depth: nat, items: seq<Node>, pre: seq<string>)
    requires ParseRest(s, depth, items, pre).Parsed? && AsRead(items, pre) && StoppedWell(items, s)
    requires SpaceLen(s) < |s| && s[SpaceLen(s)] != '(' && s[SpaceLen(s)] != ')'
    ensures KeptText(s, items, pre, ParseRest(s, depth, items, pre))
    decreases |s|, 0
  {
    hide AsRead, StoppedWell, ReadFrom, KeptText, AllSpace, Verbatim, WellFormed, SubtreeDirty, ParseRest;
    AtomStep(s, depth, items, pre);
    var w := SpaceLen(s);
    var t, ws := s[w..], s[..w];
    var k := TokenLen(t).value;
    var m := Atom(t[..k], false);
    AtomAsRead(t, k);
    OneMoreRead(items, pre, m, ws, s);
    StoppedAfterAtom(items, t, k);
    ReadKeepsText(t[k..], depth, items + [m], pre + [ws]);
    assert s == ws + t[..k] + t[k..];
    ReadOn(s, depth, items, pre, ws, m, t[k..]);
  }

  /** What reading the rest of a list begins with. */
  lemma FirstOfRest(s: string, depth: nat, items: seq<Node>, pre: seq<string>)
    requires ParseRest(s, depth, items, pre).Parsed?
    ensures
      var t := s[SpaceLen(s)..];
      t != "" && s == s[..SpaceLen(s)] + t && (t[0] != '(' && t[0] != ')' ==> TokenLen(t).Some?)
  {
    hide SpaceLen, TokenLen;
  }

  lemma ListStep(s: string, depth: nat, items: seq<Node>, pre: seq<string>)
    requires ParseRest(s, depth, items, pre).Parsed? && SpaceLen(s) < |s| && s[SpaceLen(s)] == '('
    ensures
      var w := SpaceLen(s);
      var inner := ParseRest(s[w..][1..], depth + 1, [], []);
      inner.Parsed? && inner.n.List? && |s[w..][1..]| < |s| && |inner.rest| < |s|
      && ParseRest(s, depth, items, pre) == ParseRest(inner.rest, depth, items + [inner.n], pre + [s[..w]])
  {
  }

  lemma AtomStep(s: string, depth: nat, items: seq<Node>, pre: seq<string>)
    requires ParseRest(s, depth, items, pre).Parsed? && SpaceLen(s) < |s|
    requires s[SpaceLen(s)] != '(' && s[SpaceLen(s)] != ')'
    ensures
      var w := SpaceLen(s);
      var t := s[w..];
      TokenLen(t).Some? && ParseRest(s, depth, items, pre) ==
        ParseRest(t[TokenLen(t).value..], depth, items + [Atom(t[..TokenLen(t).value], false)], pre + [s[..w]])
  {
  }

  lemma AsReadLengths(items: seq<Node>, pre: seq<string>)
    requires AsRead(items, pre)
    ensures |pre| == |items|
  {
  }

  /** What holds after one more item holds before it. */
  lemma ReadOn(s: string, depth: nat, items: seq<Node>, pre: seq<string>, w: string, m: Node, rest: string)
    requires s == w + Verbatim(m) + rest
    requires ParseRest(s, depth, items, pre).Parsed?
    requires ParseRest(s, depth, items, pre) == ParseRest(rest, depth, items + [m], pre + [w])
    requires KeptText(rest, items + [m], pre + [w], ParseRest(s, depth, items, pre))
    ensures KeptText(s, items, pre, ParseRest(s, depth, items, pre))
  {
    hide Verbatim, ParseRest, ReadFrom;
    var p := ParseRest(s, depth, items, pre);
    StillFirst(p.n, items, pre, m, w);
    ReadFromOneLess(s, w, Verbatim(m), rest, |items|, p);
  }

  lemma StillFirst(n: Node, items: seq<Node>, pre: seq<string>, m: Node, w: string)
    requires n.List? && |pre| == |items| < |n.items| == |n.pre|
    requires n.items[..|items| + 1] == items + [m] && n.pre[..|pre| + 1] == pre + [w]
    ensures n.items[|items|] == m && n.pre[|pre|] == w && n.items[..|items|] == items && n.pre[..|pre|] == pre
  {
    var k := |items|;
    assert n.items[..k + 1][k] == m && n.pre[..k + 1][k] == w;
    assert n.items[..k + 1][..k] == n.items[..k] && n.pre[..k + 1][..k] == n.pre[..k];
  }

  lemma NothingRead(s: string)
    ensures AsRead([], []) && StoppedWell([], s)
  {
  }

  lemma ReadEnd(s: string, depth: nat, items: seq<Node>, pre: seq<string>)
    requires AsRead(items, pre) && SpaceLen(s) < |s| && s[SpaceLen(s)] == ')'
    ensures KeptText(s, items, pre, ParseRest(s, depth, items, pre))
  {
    var w := SpaceLen(s);
    var t := s[w..];
    assert pre[|pre|..] == [] && Sources(items[|items|..]) == [];
    assert s == s[..w] + ")" + t[1..];
  }

  /** A list just read is clean and well-formed, and its text is what was read. */
  lemma ListAsRead(s: string, p: Parsed)
    requires KeptText(s, [], [], p)
    ensures WellFormed(p.n) && !SubtreeDirty(p.n) && "(" + s == Verbatim(p.n) + p.rest
  {
    hide Join, AllSpace, Gaps, IsToken;
    var n := p.n;
    assert n.pre[0..] == n.pre && n.items[0..] == n.items;
    assert Verbatim(n) == "(" + Join(n.pre, Sources(n.items)) + n.post + ")";
    assert "(" + (Join(n.pre, Sources(n.items)) + n.post + ")" + p.rest) == Verbatim(n) + p.rest;
  }

  lemma StoppedAfterList(items: seq<Node>, n: Node, rest: string)
    requires n.List?
    ensures StoppedWell(items + [n], rest)
  {
  }

  lemma AtomAsRead(t: string, k: nat)
    requires TokenLen(t) == Some(k)
    ensures WellFormed(Atom(t[..k], false)) && !SubtreeDirty(Atom(t[..k], false))
    ensures Verbatim(Atom(t[..k], false)) == t[..k]
  {
    ReadIsToken(t);
  }

  lemma StoppedAfterAtom(items: seq<Node>, t: string, k: nat)
    requires TokenLen(t) == Some(k)
    ensures StoppedWell(items + [Atom(t[..k], false)], t[k..])
  {
  }

  // ---- documents ----

  /** A document as it comes from reading, or from editing what did: lists, with white space about them. */
  predicate WellFormedDoc(d: Doc) {
    && |d.lead| == |d.roots| && d.roots != [] && AllSpace(d.trail)
    && forall i :: 0 <= i < |d.roots| ==> d.roots[i].List? && WellFormed(d.roots[i]) && AllSpace(d.lead[i])
  }

  predicate CleanDoc(d: Doc) { forall i :: 0 <= i < |d.roots| ==> !SubtreeDirty(d.roots[i]) }

  ghost predicate FormsFrom(s: string, k: nat, d: Doc) {
    && WellFormedDoc(d) && CleanDoc(d) && k <= |d.roots|
    && s == Join(d.lead[k..], Sources(d.roots[k..])) + d.trail
  }

  lemma {:induction false} FormsKeepText(s: string, roots: seq<Node>, lead: seq<string>)
    requires ParseForms(s, roots, lead).Some? && |lead| == |roots|
    requires roots == [] || (WellFormedDoc(Doc(roots, lead, "")) && CleanDoc(Doc(roots, lead, "")))
    ensures
      var d := ParseForms(s, roots, lead).value;
      FormsFrom(s, |roots|, d) && |roots| <= |d.roots| == |d.lead| && d.roots[..|roots|] == roots && d.lead[..|roots|] == lead
    decreases |s|
  {
    hide AllSpace, WellFormed, SubtreeDirty, ParseRest, Verbatim, Join;
    var w := SpaceLen(s);
    var t, ws := s[w..], s[..w];
    assert s == ws + t;
    if t == "" {
      FormsEnd(s, roots, lead);
    } else {
      var p := ParseRest(t[1..], 0, [], []);
      FormIsRead(t, p);
      var rs, ls := roots + [p.n], lead + [ws];
      OneMoreForm(roots, lead, p.n, ws);
      FormsKeepText(p.rest, rs, ls);
      var d := ParseForms(s, roots, lead).value;
      assert d.roots[..|rs|][|roots|] == p.n && d.lead[..|rs|][|roots|] == ws;
      assert d.roots[..|rs|][..|roots|] == roots && d.lead[..|rs|][..|roots|] == lead;
      FormsOneLess(s, ws, p.n, p.rest, |roots|, d);
    }
  }

  lemma OneMoreForm(roots: seq<Node>, lead: seq<string>, n: Node, w: string)
    requires |lead| == |roots|
    requires (roots == [] || (WellFormedDoc(Doc(roots, lead, "")) && CleanDoc(Doc(roots, lead, ""))))
    requires n.List? && WellFormed(n) && !SubtreeDirty(n) && AllSpace(w)
    ensures WellFormedDoc(Doc(roots + [n], lead + [w], "")) && CleanDoc(Doc(roots + [n], lead + [w], ""))
  {
    hide WellFormed, SubtreeDirty;
  }

  lemma FormsEnd(s: string, roots: seq<Node>, lead: seq<string>)
    requires SpaceLen(s) == |s| && |lead| == |roots| && roots != []
    requires WellFormedDoc(Doc(roots, lead, "")) && CleanDoc(Doc(roots, lead, ""))
    ensures FormsFrom(s, |roots|, Doc(roots, lead, s[..|s|]))
  {
    assert lead[|roots|..] == [] && Sources(roots[|roots|..]) == [];
    assert s[..|s|] == s && Join([], []) + s == s;
  }

  lemma FormIsRead(t: string, p: Parsed)
    requires t != "" && t[0] == '(' && p == ParseRest(t[1..], 0, [], []) && p.Parsed?
    ensures p.n.List? && WellFormed(p.n) && !SubtreeDirty(p.n) && t == Verbatim(p.n) + p.rest && |p.rest| < |t|
  {
    hide KeptText, WellFormed, SubtreeDirty, Verbatim;
    NothingRead(t[1..]);
    ReadKeepsText(t[1..], 0, [], []);
    ListAsRead(t[1..], p);
    assert t == "(" + t[1..];
  }

  lemma FormsOneLess(s: string, w: string, n: Node, rest: string, k: nat, d: Doc)
    requires s == w + (Verbatim(n) + rest) && FormsFrom(rest, k + 1, d) && d.roots[k] == n && d.lead[k] == w
    ensures FormsFrom(s, k, d)
  {
    hide Verbatim, AllSpace, WellFormed, SubtreeDirty;
    var seps, texts := d.lead[k..], Sources(d.roots[k..]);
    assert seps[0] == w && texts[0] == Verbatim(n) && seps[1..] == d.lead[k + 1..] && texts[1..] == Sources(d.roots[k + 1..]);
    assert Join(seps, texts) == w + Verbatim(n) + Join(d.lead[k + 1..], Sources(d.roots[k + 1..]));
  }

  /** Main result on reading: whatever is accepted is written back, untouched, byte for byte. */
  lemma UntouchedIsExact(src: string)
    requires ParseForms(src, [], []).Some?
    ensures
      var d := ParseForms(src, [], []).value;
      Bytes(d) == src && WellFormedDoc(d) && CleanDoc(d)
  {
    hide Join, WellFormed, SubtreeDirty, AllSpace, Verbatim, Write;
    FormsKeepText(src, [], []);
    var d := ParseForms(src, [], []).value;
    assert d.lead[0..] == d.lead && d.roots[0..] == d.roots;
    var texts := DocTexts(d);
    forall i | 0 <= i < |d.roots| ensures texts[i] == Verbatim(d.roots[i]) { CleanIsVerbatim(d.roots[i], DepthOf(d.roots[i])); }
    assert texts == Sources(d.roots);
  }

  lemma {:induction false} FormsRead(seps: seq<string>, texts: seq<string>, kids: seq<Tree>, trail: string,
                                     roots: seq<Node>, lead: seq<string>)
    requires |seps| == |texts| == |kids| && AllSpace(trail) && (roots != [] || kids != [])
    requires forall i :: 0 <= i < |kids| ==> kids[i].Branch? && ReadsAs(texts[i], kids[i]) && AllSpace(seps[i])
    ensures
      var d := ParseForms(Join(seps, texts) + trail, roots, lead);
      d.Some? && AbsAll(d.value.roots) == AbsAll(roots) + kids && AddedOf(d.value.roots, roots, texts)
    decreases |texts|
  {
    hide *;
    if texts == [] {
      NoFormsLeft(seps, texts, trail, roots, lead);
      NoneAdded(roots);
      assert AbsAll(roots) + kids == AbsAll(roots);
    } else {
      var m := FormReads(texts[0], kids[0], Join(seps[1..], texts[1..]) + trail);
      NextForm(seps, texts, trail, m, roots, lead);
      FormsRead(seps[1..], texts[1..], kids[1..], trail, roots + [m], lead + [seps[0]]);
      AbsAllMore(roots, m);
      assert AbsAll(roots) + [kids[0]] + kids[1..] == AbsAll(roots) + kids;
      OneMoreAdded(ParseForms(Join(seps, texts) + trail, roots, lead).value.roots, roots, m, texts);
    }
  }

  lemma NoFormsLeft(seps: seq<string>, texts: seq<string>, trail: string, roots: seq<Node>, lead: seq<string>)
    requires texts == [] && AllSpace(trail) && roots != []
    ensures ParseForms(Join(seps, texts) + trail, roots, lead) == Some(Doc(roots, lead, trail))
  {
    var s := Join(seps, texts) + trail;
    assert s == trail && s == trail + "" && s[..|s|] == s;
    SpaceStands(trail, "");
  }

  lemma NextForm(seps: seq<string>, texts: seq<string>, trail: string, m: Node, roots: seq<Node>, lead: seq<string>)
    requires |seps| == |texts| && texts != [] && AllSpace(seps[0]) && texts[0] != ""
    requires
      var more := Join(seps[1..], texts[1..]) + trail;
      (texts[0] + more)[0] == '(' && ParseRest((texts[0] + more)[1..], 0, [], []) == Parsed(m, more)
    ensures ParseForms(Join(seps, texts) + trail, roots, lead) ==
      ParseForms(Join(seps[1..], texts[1..]) + trail, roots + [m], lead + [seps[0]])
  {
    hide ParseRest, AllSpace;
    var s, more := Join(seps, texts) + trail, Join(seps[1..], texts[1..]) + trail;
    var t := texts[0] + more;
    assert s == seps[0] + t;
    SpaceStands(seps[0], t);
    assert s[|seps[0]|..] == t && s[..|seps[0]|] == seps[0];
  }

  lemma FormReads(text: string, t: Tree, more: string) returns (m: Node)
    requires t.Branch? && ReadsAs(text, t)
    ensures text != ""
    ensures (text + more)[0] == '(' && ParseRest((text + more)[1..], 0, [], []) == Parsed(m, more) && Abs(m) == t
    ensures ReadOf(m, text)
  {
    assert ListReads(text[1..], t, more, 0);
    assert (text + more)[1..] == text[1..] + more;
    m := ParseRest(text[1..] + more, 0, [], []).n;
  }

  /** However edited, a document's text is accepted again, and read as what the document says. */
  lemma DocReadsBack(d: Doc)
    requires WellFormedDoc(d)
    ensures
      var e := ParseForms(Bytes(d), [], []);
      e.Some? && AbsAll(e.value.roots) == AbsAll(d.roots) && AddedOf(e.value.roots, [], DocTexts(d))
  {
    hide WellFormed, AllSpace, ReadsAs, Write, Join, ParseForms;
    var texts := DocTexts(d);
    forall i | 0 <= i < |d.roots| ensures ReadsAs(texts[i], AbsAll(d.roots)[i]) && AbsAll(d.roots)[i].Branch? {
      WriteReads(d.roots[i], DepthOf(d.roots[i]));
    }
    FormsRead(d.lead, texts, AbsAll(d.roots), d.trail, [], []);
    AbsAllNone();
    assert [] + AbsAll(d.roots) == AbsAll(d.roots);
  }
}
