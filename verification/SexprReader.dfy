/** Reading a document (sexpr/sexpr.go): one pass over the text, keeping a position. */
module SexprReader {
  import opened Common
  import opened Tokens
  import opened Sexpr

  class Parser {
    const src: string
    var pos: nat

    ghost predicate Valid()
      reads this
    {
      pos <= |src|
    }

    /** What is still to be read. */
    ghost function Ahead(): string
      requires Valid()
      reads this
    {
      src[pos..]
    }

    constructor (src: string)
      ensures Valid() && this.src == src && Ahead() == src
    {
      this.src, pos := src, 0;
    }

    method SkipSpace() returns (ws: string)
      requires Valid()
      modifies this
      ensures Valid() && pos == old(pos) + SpaceLen(old(Ahead()))
      ensures ws == old(Ahead())[..SpaceLen(old(Ahead()))] && Ahead() == old(Ahead())[SpaceLen(old(Ahead()))..]
    {
      var start := pos;
      while pos < |src| && IsSpace(src[pos])
        invariant start <= pos <= |src|
        invariant (pos - start) + SpaceLen(src[pos..]) == SpaceLen(src[start..])
      {
        assert src[pos..][1..] == src[pos + 1..];
        pos := pos + 1;
      }
      ws := src[start..pos];
      assert src[start..pos] == src[start..][..pos - start];
    }

    /** Reads the token here, or nothing if a quote is never closed. */
    method ParseAtom() returns (n: Option<Node>)
      requires Valid() && pos < |src| && !Ends(src[pos])
      modifies this
      ensures n.Some? <==> TokenLen(old(Ahead())).Some?
      ensures n.Some? ==>
        var k := TokenLen(old(Ahead())).value;
        Valid() && pos == old(pos) + k && n == Some(Atom(old(Ahead())[..k], false))
    {
      var start := pos;
      ghost var ahead := src[pos..];
      if src[pos] == '"' {
        pos := pos + 1;
        assert ahead[1..] == src[pos..];
        var closed := SkipQuoted();
        if !closed { return None; }
      } else {
        SkipBare();
      }
      assert src[start..pos] == ahead[..pos - start];
      n := Some(Atom(src[start..pos], false));
    }

    /** Goes past the closing quote, if there is one. */
    method SkipQuoted() returns (closed: bool)
      requires Valid()
      modifies this
      ensures closed <==> QuotedLen(old(Ahead())).Some?
      ensures closed ==> Valid() && pos == old(pos) + QuotedLen(old(Ahead())).value
    {
      hide InQuotes, QuotedLen;
      ghost var start := pos;
      AtStart(src, start);
      while pos < |src|
        invariant start <= pos && InQuotes(src, start, pos)
      {
        if src[pos] == '\\' {
          PastEscape(src, start, pos);
          pos := pos + 2;
          continue;
        }
        pos := pos + 1;
        if src[pos - 1] == '"' {
          AtClose(src, start, pos - 1);
          return true;
        }
        PastOne(src, start, pos - 1);
      }
      NeverClosed(src, start, pos);
      closed := false;
    }

    method SkipBare()
      requires Valid()
      modifies this
      ensures Valid() && pos == old(pos) + BareLen(old(Ahead()))
    {
      ghost var start := pos;
      while pos < |src| && !Ends(src[pos])
        invariant start <= pos <= |src|
        invariant (pos - start) + BareLen(src[pos..]) == BareLen(src[start..])
      {
        assert src[pos..][1..] == src[pos + 1..];
        pos := pos + 1;
      }
    }

    /** Reads the list that opens here. */
    method ParseList(depth: nat) returns (n: Option<Node>)
      requires Valid() && pos < |src| && src[pos] == '('
      modifies this
      ensures
        var p := ParseRest(old(Ahead())[1..], depth, [], []);
        if p.Parsed? then n == Some(p.n) && Valid() && pos > old(pos) && Ahead() == p.rest else n.None?
      decreases |src| - pos
    {
      hide ParseRest;
      ghost var whole := src[pos..][1..];
      assert whole == src[pos + 1..];
      ghost var start := pos;
      pos := pos + 1;
      var items: seq<Node>, pre: seq<string> := [], [];
      while true
        invariant start < pos <= |src|
        invariant ParseRest(whole, depth, [], []) == ParseRest(src[pos..], depth, items, pre)
        decreases |src| - pos
      {
        ghost var ahead := src[pos..];
        var ws := SkipSpace();
        assert ahead[SpaceLen(ahead)..] == src[pos..];
        RestUnfolds(ahead, depth, items, pre);
        if pos >= |src| { return None; }
        if src[pos] == ')' {
          pos := pos + 1;
          assert src[pos - 1..][1..] == src[pos..];
          return Some(List(items, pre, ws, false, depth));
        }
        ghost var here := src[pos..];
        ghost var was := pos;
        var item;
        if src[pos] == '(' {
          item := ParseList(depth + 1);
        } else {
          item := ParseAtom();
          if item.Some? { assert src[pos..] == here[TokenLen(here).value..]; }
        }
        if item.None? { return None; }
        items, pre := items + [item.value], pre + [ws];
      }
    }
  }

  function Further(k: nat, n: Option<nat>): Option<nat> { match n case None => None case Some(m) => Some(k + m) }

  /** Where the quoted token ends, seen from further on in it; going past the end of the text, it never does. */
  ghost predicate InQuotes(s: string, start: nat, i: nat)
    requires start <= i && start <= |s|
  {
    QuotedLen(s[start..]) == if i <= |s| then Further(i - start, QuotedLen(s[i..])) else None
  }

  lemma AtStart(s: string, start: nat)
    requires start <= |s|
    ensures InQuotes(s, start, start)
  {
  }

  lemma PastEscape(s: string, start: nat, i: nat)
    requires start <= i < |s| && InQuotes(s, start, i) && s[i] == '\\'
    ensures InQuotes(s, start, i + 2)
  {
    if i + 2 <= |s| { assert s[i..][2..] == s[i + 2..]; }
  }

  lemma PastOne(s: string, start: nat, i: nat)
    requires start <= i < |s| && InQuotes(s, start, i) && s[i] != '\\' && s[i] != '"'
    ensures InQuotes(s, start, i + 1)
  {
    assert s[i..][1..] == s[i + 1..];
  }

  lemma AtClose(s: string, start: nat, i: nat)
    requires start <= i < |s| && InQuotes(s, start, i) && s[i] == '"'
    ensures QuotedLen(s[start..]) == Some(i + 1 - start)
  {
  }

  lemma NeverClosed(s: string, start: nat, i: nat)
    requires start <= i && start <= |s| <= i && InQuotes(s, start, i)
    ensures QuotedLen(s[start..]).None?
  {
    if i == |s| { assert s[i..] == ""; }
  }

  lemma RestUnfolds(s: string, depth: nat, items: seq<Node>, pre: seq<string>)
    ensures
      var w := SpaceLen(s);
      var t, p := s[w..], ParseRest(s, depth, items, pre);
      if t == "" then p.Failed?
      else if t[0] == ')' then p == Parsed(List(items, pre, s[..w], false, depth), t[1..])
      else if t[0] == '(' then
        var inner := ParseRest(t[1..], depth + 1, [], []);
        if inner.Failed? then p.Failed? else p == ParseRest(inner.rest, depth, items + [inner.n], pre + [s[..w]])
      else if TokenLen(t).None? then p.Failed?
      else p == ParseRest(t[TokenLen(t).value..], depth, items + [Atom(t[..TokenLen(t).value], false)], pre + [s[..w]])
  {
  }

  lemma FormsUnfold(s: string, roots: seq<Node>, lead: seq<string>)
    ensures
      var w := SpaceLen(s);
      var t, d := s[w..], ParseForms(s, roots, lead);
      if t == "" then d == if roots == [] then None else Some(Doc(roots, lead, s[..w]))
      else if t[0] != '(' then d.None?
      else
        var p := ParseRest(t[1..], 0, [], []);
        if p.Failed? then d.None? else d == ParseForms(p.rest, roots + [p.n], lead + [s[..w]])
  {
    hide ParseRest;
  }

  /** Reads a whole document: lists, one after another, and at least one. */
  method Parse(src: string) returns (d: Option<Doc>)
    ensures d == ParseForms(src, [], [])
  {
    hide ParseRest, ParseForms;
    var p := new Parser(src);
    var roots: seq<Node>, lead: seq<string> := [], [];
    while true
      invariant fresh(p) && p.Valid() && p.src == src && ParseForms(src, [], []) == ParseForms(p.Ahead(), roots, lead)
      decreases |src| - p.pos
    {
      ghost var ahead := p.Ahead();
      FormsUnfold(ahead, roots, lead);
      var ws := p.SkipSpace();
      if p.pos >= |src| {
        return if roots == [] then None else Some(Doc(roots, lead, ws));
      }
      if src[p.pos] != '(' { return None; }
      var n := p.ParseList(0);
      if n.None? { return None; }
      roots, lead := roots + [n.value], lead + [ws];
    }
  }
}
