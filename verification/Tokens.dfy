/** The tokens of an S-expression (sexpr/sexpr.go): where each ends, and quoting. */
module Tokens {
  import opened Common

  predicate IsSpace(c: char) { c == ' ' || c == '\t' || c == '\n' || c == '\r' }

  predicate Ends(c: char) { IsSpace(c) || c == '(' || c == ')' }

  predicate AllSpace(s: string) { forall i :: 0 <= i < |s| ==> IsSpace(s[i]) }

  /** How much white space a text begins with. */
  function SpaceLen(s: string): (n: nat)
    ensures n <= |s| && AllSpace(s[..n]) && (n < |s| ==> !IsSpace(s[n]))
  {
    if s == "" || !IsSpace(s[0]) then 0
    else
      var n := SpaceLen(s[1..]);
      assert s[..n + 1] == [s[0]] + s[1..][..n];
      n + 1
  }

  /** How far a bare token goes: to white space, a parenthesis, or the end. */
  function BareLen(s: string): (n: nat)
    ensures n <= |s| && (n < |s| ==> Ends(s[n])) && forall i :: 0 <= i < n ==> !Ends(s[i])
  {
    if s == "" || Ends(s[0]) then 0 else 1 + BareLen(s[1..])
  }

  /** How far the rest of a quoted token goes, past its closing quote; what follows a backslash is skipped. */
  function QuotedLen(s: string): (n: Option<nat>)
    ensures n.Some? ==> 0 < n.value <= |s|
  {
    if s == "" then None
    else if s[0] == '"' then Some(1)
    else
      var step := if s[0] == '\\' then 2 else 1;
      if step > |s| then None
      else match QuotedLen(s[step..]) case None => None case Some(k) => Some(step + k)
  }

  /** The length of the token a text begins with, if it begins with one. */
  function TokenLen(s: string): (n: Option<nat>)
    ensures n.Some? ==> 0 < n.value <= |s|
  {
    if s == "" then None
    else if s[0] == '"' then match QuotedLen(s[1..]) case None => None case Some(k) => Some(1 + k)
    else if BareLen(s) == 0 then None else Some(BareLen(s))
  }

  /** Exactly one token. */
  predicate IsToken(s: string) { TokenLen(s) == Some(|s|) }

  predicate IsBare(s: string) { s != "" && s[0] != '"' }

  // ---- a token stands by itself ----

  lemma {:induction false} BareStands(s: string, rest: string)
    requires (forall i :: 0 <= i < |s| ==> !Ends(s[i])) && (rest == "" || Ends(rest[0]))
    ensures BareLen(s + rest) == |s|
  {
    if s == "" {
      assert s + rest == rest;
    } else {
      assert (s + rest)[1..] == s[1..] + rest;
      BareStands(s[1..], rest);
    }
  }

  /** A bare token ends at a space, a tab, an end of line, a carriage return or a parenthesis, and at nothing else. */
  lemma BareEnds(s: string, rest: string)
    requires IsBare(s) && (forall i :: 0 <= i < |s| ==> s[i] !in " \t\n\r()") && (rest == "" || rest[0] in " \t\n\r()")
    ensures TokenLen(s + rest) == Some(|s|)
  {
    forall i | 0 <= i < |s| ensures !Ends(s[i]) { assert s[i] !in " \t\n\r()"; IsAmong(s[i]); }
    if rest != "" { IsAmong(rest[0]); }
    BareStands(s, rest);
  }

  lemma IsAmong(c: char)
    ensures c in " \t\n\r" <==> c == ' ' || c == '\t' || c == '\n' || c == '\r'
    ensures c in " \t\n\r()" <==> c in " \t\n\r" || c == '(' || c == ')'
  {
  }

  /** White space is spaces, tabs, ends of line and carriage returns, as far as they go. */
  lemma {:induction false} SpaceEnds(s: string, rest: string)
    requires (forall i :: 0 <= i < |s| ==> s[i] in " \t\n\r") && (rest == "" || rest[0] !in " \t\n\r")
    ensures SpaceLen(s + rest) == |s|
  {
    if s == "" {
      assert s + rest == rest;
      if rest != "" { IsAmong(rest[0]); }
    } else {
      IsAmong(s[0]);
      assert (s + rest)[1..] == s[1..] + rest;
      SpaceEnds(s[1..], rest);
    }
  }

  lemma {:induction false} QuotedStands(s: string, rest: string)
    requires QuotedLen(s) == Some(|s|)
    ensures QuotedLen(s + rest) == Some(|s|)
  {
    if s[0] != '"' {
      var step := if s[0] == '\\' then 2 else 1;
      assert (s + rest)[step..] == s[step..] + rest;
      QuotedStands(s[step..], rest);
    }
  }

  /** A token is read exactly, whatever comes after a quoted one, and up to white space or a parenthesis for a bare
      one. */
  lemma TokenStands(s: string, rest: string)
    requires IsToken(s) && (IsBare(s) ==> rest == "" || Ends(rest[0]))
    ensures TokenLen(s + rest) == Some(|s|)
  {
    if IsBare(s) {
      BareStands(s, rest);
    } else {
      assert (s + rest)[1..] == s[1..] + rest;
      QuotedStands(s[1..], rest);
    }
  }

  lemma {:induction false} SpaceStands(s: string, rest: string)
    requires AllSpace(s) && (rest == "" || !IsSpace(rest[0]))
    ensures SpaceLen(s + rest) == |s|
  {
    if s == "" {
      assert s + rest == rest;
    } else {
      assert (s + rest)[1..] == s[1..] + rest;
      SpaceStands(s[1..], rest);
    }
  }

  lemma TokenStarts(s: string)
    requires IsToken(s)
    ensures s != "" && !IsSpace(s[0]) && s[0] != '(' && s[0] != ')'
  {
  }

  lemma {:induction false} QuotedPrefix(s: string)
    requires QuotedLen(s).Some?
    ensures QuotedLen(s[..QuotedLen(s).value]) == QuotedLen(s)
  {
    if s[0] != '"' {
      var step := if s[0] == '\\' then 2 else 1;
      var k := QuotedLen(s).value;
      QuotedPrefix(s[step..]);
      assert s[..k][step..] == s[step..][..k - step];
    }
  }

  /** What is read as a token is one. */
  lemma ReadIsToken(s: string)
    requires TokenLen(s).Some?
    ensures IsToken(s[..TokenLen(s).value])
  {
    var k := TokenLen(s).value;
    if s[0] == '"' {
      QuotedPrefix(s[1..]);
      assert s[..k][1..] == s[1..][..k - 1];
    } else {
      BareStands(s[..k], "");
      assert s[..k] + "" == s[..k];
    }
  }

  // ---- quoting ----

  /** The character that stands for one that cannot be written as it is. */
  function Code(c: char): char {
    if c == '\n' then 'n' else if c == '\r' then 'r' else if c == '\t' then 't' else c
  }

  predicate NeedsCode(c: char) { c == '"' || c == '\\' || c == '\n' || c == '\r' || c == '\t' }

  function Escaped(c: char): string { if NeedsCode(c) then ['\\', Code(c)] else [c] }

  function EscapedAll(s: string): string {
    if s == "" then "" else EscapedAll(s[..|s| - 1]) + Escaped(s[|s| - 1])
  }

  /** Every occurrence of a character replaced by a text. */
  ghost function Replaced(s: string, c: char, put: string): string {
    if s == "" then ""
    else Replaced(s[..|s| - 1], c, put) + if s[|s| - 1] == c then put else [s[|s| - 1]]
  }

  lemma {:induction false} ReplacedJoin(a: string, b: string, c: char, put: string)
    ensures Replaced(a + b, c, put) == Replaced(a, c, put) + Replaced(b, c, put)
  {
    if b == "" {
      assert a + b == a;
    } else {
      var front, last := b[..|b| - 1], b[|b| - 1];
      assert (a + b)[..|a + b| - 1] == a + front && (a + b)[|a + b| - 1] == last;
      ReplacedJoin(a, front, c, put);
      var tail := if last == c then put else [last];
      assert Replaced(b, c, put) == Replaced(front, c, put) + tail;
      assert Replaced(a + b, c, put) == Replaced(a + front, c, put) + tail;
      hide Replaced;
    }
  }

  /** A text with its backslashes written double, and then its quotes, ends of line, carriage returns and tabs as a
      backslash and a quote, an `n`, an `r` and a `t`. */
  ghost function OneAtATime(s: string): string {
    Replaced(Replaced(Replaced(Replaced(Replaced(s, '\\', "\\\\"), '"', "\\\""), '\n', "\\n"), '\r', "\\r"), '\t', "\\t")
  }

  lemma OneAtATimeJoin(a: string, b: string)
    ensures OneAtATime(a + b) == OneAtATime(a) + OneAtATime(b)
  {
    hide Replaced;
    var a1, b1 := Replaced(a, '\\', "\\\\"), Replaced(b, '\\', "\\\\");
    var a2, b2 := Replaced(a1, '"', "\\\""), Replaced(b1, '"', "\\\"");
    var a3, b3 := Replaced(a2, '\n', "\\n"), Replaced(b2, '\n', "\\n");
    var a4, b4 := Replaced(a3, '\r', "\\r"), Replaced(b3, '\r', "\\r");
    ReplacedJoin(a, b, '\\', "\\\\");
    ReplacedJoin(a1, b1, '"', "\\\"");
    ReplacedJoin(a2, b2, '\n', "\\n");
    ReplacedJoin(a3, b3, '\r', "\\r");
    ReplacedJoin(a4, b4, '\t', "\\t");
  }

  lemma ReplacedOne(x: char, c: char, put: string)
    ensures Replaced([x], c, put) == if x == c then put else [x]
  {
    assert [x][..0] == "";
  }

  lemma ReplacedTwo(x: char, y: char, c: char, put: string)
    requires x != c && y != c
    ensures Replaced([x, y], c, put) == [x, y]
  {
    assert [x, y] == [x] + [y];
    ReplacedJoin([x], [y], c, put);
    ReplacedOne(x, c, put);
    ReplacedOne(y, c, put);
  }

  lemma OneAtATimeOne(c: char)
    ensures OneAtATime([c]) == Escaped(c)
  {
    hide Replaced;
    ReplacedOne(c, '\\', "\\\\");
    ReplacedOne(c, '"', "\\\"");
    ReplacedOne(c, '\n', "\\n");
    ReplacedOne(c, '\r', "\\r");
    ReplacedOne(c, '\t', "\\t");
    if NeedsCode(c) {
      var d := Code(c);
      if c == '\\' { ReplacedTwo('\\', d, '"', "\\\""); }
      if c == '\\' || c == '"' { ReplacedTwo('\\', d, '\n', "\\n"); }
      if c != '\r' && c != '\t' { ReplacedTwo('\\', d, '\r', "\\r"); }
      if c != '\t' { ReplacedTwo('\\', d, '\t', "\\t"); }
    }
  }

  /** Escaping all at once comes to the same as replacing one character after another, the backslash first. */
  lemma {:induction false} EscapedOneAtATime(s: string)
    ensures EscapedAll(s) == OneAtATime(s)
  {
    if s == "" {
    } else {
      var front, c := s[..|s| - 1], s[|s| - 1];
      assert s == front + [c];
      EscapedOneAtATime(front);
      hide OneAtATime, Escaped;
      OneAtATimeJoin(front, [c]);
      OneAtATimeOne(c);
    }
  }

  function Plain(c: char): char {
    if c == 'n' then '\n' else if c == 'r' then '\r' else if c == 't' then '\t' else c
  }

  /** What an escaped text stands for: a backslash and the next character make one, a last backslash stands. */
  function Unescaped(s: string): string {
    if s == "" then ""
    else if s[0] == '\\' && |s| > 1 then [Plain(s[1])] + Unescaped(s[2..])
    else [s[0]] + Unescaped(s[1..])
  }

  /** A backslash and an `n`, `r` or `t` stand for the end of a line, a carriage return and a tab; a backslash and
      anything else for that; and whatever no backslash stands before, for itself. */
  lemma Unescapes(c: char, more: string)
    ensures Unescaped("\\n" + more) == "\n" + Unescaped(more) && Unescaped("\\r" + more) == "\r" + Unescaped(more)
    ensures Unescaped("\\t" + more) == "\t" + Unescaped(more)
    ensures c !in "nrt" ==> Unescaped("\\" + [c] + more) == [c] + Unescaped(more)
    ensures c != '\\' ==> Unescaped([c] + more) == [c] + Unescaped(more)
  {
    assert ([c] + more)[1..] == more && ("\\" + [c] + more)[2..] == more;
    assert ("\\n" + more)[2..] == more && ("\\r" + more)[2..] == more && ("\\t" + more)[2..] == more;
  }

  method Quote(s: string) returns (out: string)
    ensures out == "\"" + EscapedAll(s) + "\""
  {
    out := "\"";
    for i := 0 to |s|
      invariant out == "\"" + EscapedAll(s[..i])
    {
      assert s[..i + 1][..i] == s[..i];
      match s[i] {
        case '"' => out := out + "\\\"";
        case '\\' => out := out + "\\\\";
        case '\n' => out := out + "\\n";
        case '\r' => out := out + "\\r";
        case '\t' => out := out + "\\t";
        case _ => out := out + [s[i]];
      }
    }
    assert s[..|s|] == s;
    out := out + "\"";
  }

  /** An atom's text: a bare one is its own. */
  ghost function UnquotedText(raw: string): string {
    if |raw| < 2 || raw[0] != '"' then raw else Unescaped(raw[1..|raw| - 1])
  }

  method Unquote(raw: string) returns (out: string)
    ensures out == UnquotedText(raw)
  {
    if |raw| < 2 || raw[0] != '"' { return raw; }
    var inner := raw[1..|raw| - 1];
    if '\\' !in inner {
      NothingEscaped(inner);
      return inner;
    }
    hide Unescaped, SoFar;
    out := "";
    var i := 0;
    NothingYet(inner);
    while i < |inner|
      invariant i <= |inner| && SoFar(inner, i, out)
    {
      var c, step := inner[i], 1;
      if c == '\\' && i + 1 < |inner| {
        step := 2;
        c := match inner[i + 1] case 'n' => '\n' case 'r' => '\r' case 't' => '\t' case d => d;
      }
      UnquoteOne(out, inner, i, c, step);
      out, i := out + [c], i + step;
    }
    AllDone(inner, out);
  }

  /** The text up to `i` stands for `out`. */
  ghost predicate SoFar(s: string, i: nat, out: string)
    requires i <= |s|
  {
    out + Unescaped(s[i..]) == Unescaped(s)
  }

  lemma NothingYet(s: string)
    ensures SoFar(s, 0, "")
  {
    assert s[0..] == s;
  }

  lemma AllDone(s: string, out: string)
    requires SoFar(s, |s|, out)
    ensures out == Unescaped(s)
  {
    UnescapedNone();
    assert s[|s|..] == "";
  }

  lemma UnquoteOne(out: string, s: string, i: nat, c: char, step: nat)
    requires i < |s| && SoFar(s, i, out)
    requires if s[i] == '\\' && i + 1 < |s| then c == Plain(s[i + 1]) && step == 2 else c == s[i] && step == 1
    ensures SoFar(s, i + step, out + [c])
  {
    UnescapedFrom(s, i);
    hide Unescaped;
    var rest := Unescaped(s[i + step..]);
    assert out + ([c] + rest) == (out + [c]) + rest;
  }

  lemma UnescapedNone()
    ensures Unescaped("") == ""
  {
  }

  lemma UnescapedFrom(s: string, i: nat)
    requires i < |s|
    ensures
      if s[i] == '\\' && i + 1 < |s| then Unescaped(s[i..]) == [Plain(s[i + 1])] + Unescaped(s[i + 2..])
      else Unescaped(s[i..]) == [s[i]] + Unescaped(s[i + 1..])
  {
    assert s[i..][1..] == s[i + 1..];
    if i + 1 < |s| { assert s[i..][2..] == s[i + 2..]; }
  }

  lemma {:induction false} NothingEscaped(s: string)
    requires '\\' !in s
    ensures Unescaped(s) == s
  {
    if s != "" {
      assert s[0] in s;
      NothingEscaped(s[1..]);
    }
  }

  lemma {:induction false} EscapedFront(s: string)
    requires s != ""
    ensures EscapedAll(s) == Escaped(s[0]) + EscapedAll(s[1..])
  {
    hide Escaped;
    if |s| == 1 {
      assert s[..0] == "" && s[1..] == "";
    } else {
      EscapedFront(s[..|s| - 1]);
      assert s[1..][..|s| - 2] == s[..|s| - 1][1..];
    }
  }

  lemma UnescapeOne(c: char, more: string)
    ensures Unescaped(Escaped(c) + more) == [c] + Unescaped(more)
  {
    var t := Escaped(c) + more;
    if NeedsCode(c) {
      assert t[0] == '\\' && t[1] == Code(c) && t[2..] == more;
    } else {
      assert t[0] == c && t[1..] == more;
    }
  }

  lemma PassOne(c: char, more: string)
    requires QuotedLen(more).Some?
    ensures QuotedLen(Escaped(c) + more) == Some(|Escaped(c)| + QuotedLen(more).value)
  {
    var t := Escaped(c) + more;
    if NeedsCode(c) {
      assert t[0] == '\\' && t[2..] == more;
    } else {
      assert t[0] == c && t[1..] == more;
    }
  }

  lemma {:induction false} UnescapeAll(s: string)
    ensures Unescaped(EscapedAll(s)) == s
  {
    if s != "" {
      EscapedFront(s);
      hide EscapedAll, Escaped, Unescaped;
      UnescapeAll(s[1..]);
      UnescapeOne(s[0], EscapedAll(s[1..]));
    }
  }

  lemma ClosingQuote(rest: string)
    ensures QuotedLen("\"" + rest) == Some(1)
  {
  }

  lemma {:induction false} PassAll(s: string, rest: string)
    ensures QuotedLen(EscapedAll(s) + "\"" + rest) == Some(|EscapedAll(s)| + 1)
  {
    if s == "" {
      assert EscapedAll(s) + "\"" + rest == "\"" + rest;
      ClosingQuote(rest);
    } else {
      EscapedFront(s);
      hide EscapedAll, Escaped, QuotedLen;
      PassAll(s[1..], rest);
      var e, more := Escaped(s[0]), EscapedAll(s[1..]);
      PassOne(s[0], more + "\"" + rest);
      assert e + more + "\"" + rest == e + (more + "\"" + rest);
    }
  }

  /** Unquoting what was quoted gives the text back; and what was quoted is one token, read exactly whatever follows. */
  lemma QuoteRoundTrip(s: string, rest: string)
    ensures UnquotedText("\"" + EscapedAll(s) + "\"") == s
    ensures IsToken("\"" + EscapedAll(s) + "\"")
    ensures TokenLen("\"" + EscapedAll(s) + "\"" + rest) == Some(|EscapedAll(s)| + 2)
  {
    var e := EscapedAll(s);
    UnescapeAll(s);
    PassAll(s, rest);
    PassAll(s, "");
    hide EscapedAll, Unescaped, QuotedLen;
    var q := "\"" + e + "\"";
    assert q[1..|q| - 1] == e;
    assert e + "\"" + "" == e + "\"" && q[1..] == e + "\"";
    assert (q + rest)[1..] == e + "\"" + rest;
  }
}
