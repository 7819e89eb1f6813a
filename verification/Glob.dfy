/** The wildcard matcher that assigns nets to net classes (board/project.go).
    `*` stands for any run of characters, `?` for exactly one, and the whole name has to match. */
module Glob {

  /** What a pattern means: the usual recursive reading of `*` and `?`. */
  predicate Matches(p: string, s: string)
    decreases |p| + |s|
  {
    if p == "" then s == ""
    else if p[0] == '*' then Matches(p[1..], s) || (s != "" && Matches(p, s[1..]))
    else s != "" && (p[0] == '?' || p[0] == s[0]) && Matches(p[1..], s[1..])
  }

  predicate AllStars(p: string) {
    forall k :: 0 <= k < |p| ==> p[k] == '*'
  }

  /** Does pattern character `c` take name character `d` in the matcher's first case? */
  predicate Takes(c: char, d: char) {
    c == '?' || c == d
  }

  /** The matcher's loop as a function of its five variables. */
  predicate Scan(p: string, s: string, i: nat, j: nat, star: int, mark: nat)
    requires i <= |s| && j <= |p| && -1 <= star < j && mark <= i
    requires star < 0 ==> mark == 0
    decreases |p| - star, |s| - mark, |s| - i
  {
    if i == |s| then AllStars(p[j..])
    else if j < |p| && Takes(p[j], s[i]) then
      Scan(p, s, i + 1, j + 1, star, mark)
    else if j < |p| && p[j] == '*' then
      Scan(p, s, i, j + 1, j, i)
    else if star >= 0 then
      Scan(p, s, mark + 1, star + 1, star, mark + 1)
    else false
  }

  /** The matcher as written: no recursion, one remembered star. */
  method MatchPattern(p: string, s: string) returns (ok: bool)
    ensures ok == Scan(p, s, 0, 0, -1, 0)
    ensures ok ==> Matches(p, s)
    ensures '*' !in s || '*' !in p ==> ok == Matches(p, s)
  {
    var star, mark := -1, 0;
    var i, j := 0, 0;
    while i < |s|
      invariant 0 <= i <= |s| && 0 <= j <= |p| && -1 <= star < j && 0 <= mark <= i
      invariant star < 0 ==> mark == 0
      invariant Scan(p, s, i, j, star, mark) == Scan(p, s, 0, 0, -1, 0)
      decreases |p| - star, |s| - mark, |s| - i
    {
      if j < |p| && (p[j] == '?' || p[j] == s[i]) {
        i, j := i + 1, j + 1;
      } else if j < |p| && p[j] == '*' {
        star, mark, j := j, i, j + 1;
      } else if star >= 0 {
        j, mark := star + 1, mark + 1;
        i := mark;
      } else {
        ScanIsMatches(p, s);
        return false;
      }
    }
    ghost var rest := p[j..];
    ghost var before := j;
    while j < |p| && p[j] == '*'
      invariant before <= j <= |p|
      invariant forall k :: before <= k < j ==> p[k] == '*'
    {
      j := j + 1;
    }
    assert AllStars(rest) <==> j == |p| by {
      if j < |p| { assert rest[j - before] != '*'; }
      if j == |p| {
        forall k | 0 <= k < |rest| ensures rest[k] == '*' { assert rest[k] == p[before + k]; }
      }
    }
    ScanIsMatches(p, s);
    return j == |p|;
  }

  /** Main result: the one-star matcher never accepts wrongly, and is exact unless a literal `*`
      in the name can be confused with one in the pattern. */
  lemma ScanIsMatches(p: string, s: string)
    ensures Scan(p, s, 0, 0, -1, 0) ==> Matches(p, s)
    ensures '*' !in s || '*' !in p ==> Scan(p, s, 0, 0, -1, 0) == Matches(p, s)
  {
    assert p[0..] == p && s[0..] == s;
    if Scan(p, s, 0, 0, -1, 0) { ScanSound(p, s, 0, 0, -1, 0); }
    if '*' !in s || '*' !in p { ScanExact(p, s, 0, 0, -1, 0); }
  }

  // ---- facts about the meaning ----

  lemma {:induction false} StarsMatchEmpty(p: string)
    ensures Matches(p, "") <==> AllStars(p)
  {
    if p != "" {
      StarsMatchEmpty(p[1..]);
      assert p[0] == '*' && AllStars(p[1..]) ==> AllStars(p) by {
        if p[0] == '*' && AllStars(p[1..]) {
          forall k | 0 <= k < |p| ensures p[k] == '*' { if k > 0 { assert p[k] == p[1..][k - 1]; } }
        }
      }
    }
  }

  /** A leading star absorbs any extra characters in front. */
  lemma {:induction false} StarAbsorbs(p: string, s: string, i: nat, k: nat)
    requires p != "" && p[0] == '*' && i <= k <= |s|
    requires Matches(p, s[k..])
    ensures Matches(p, s[i..])
    decreases k - i
  {
    if i < k {
      StarAbsorbs(p, s, i + 1, k);
      assert s[i..][1..] == s[i + 1..];
    }
  }

  /** A star has matched iff the rest of the pattern matches some suffix. */
  lemma {:induction false} StarSuffix(p: string, s: string) returns (m: nat)
    requires p != "" && p[0] == '*' && Matches(p, s)
    ensures m <= |s| && Matches(p[1..], s[m..])
    decreases |s|
  {
    if Matches(p[1..], s) {
      m := 0;
      assert s[0..] == s;
    } else {
      var k := StarSuffix(p, s[1..]);
      m := k + 1;
      assert s[1..][k..] == s[m..];
    }
  }

  /** The pattern between a star and the matcher's position, none of it a star, aligned with the name. */
  ghost predicate Aligned(p: string, s: string, a: nat, j: nat, m: nat, i: nat) {
    a <= j <= |p| && m <= i <= |s| && i - m == j - a
    && forall k :: a <= k < j ==> p[k] != '*' && Takes(p[k], s[k - a + m])
  }

  lemma {:induction false} StripAligned(p: string, s: string, a: nat, j: nat, m: nat, i: nat)
    requires Aligned(p, s, a, j, m, i)
    ensures Matches(p[a..], s[m..]) == Matches(p[j..], s[i..])
    decreases j - a
  {
    if a < j {
      StripAligned(p, s, a + 1, j, m + 1, i);
      assert p[a..][1..] == p[a + 1..] && s[m..][1..] == s[m + 1..];
    }
  }

  /** A star-free stretch of pattern uses up one character each. */
  lemma {:induction false} StretchTakesRoom(p: string, a: nat, j: nat, t: string)
    requires a <= j <= |p| && Matches(p[a..], t)
    requires forall k :: a <= k < j ==> p[k] != '*'
    ensures j - a <= |t| && Matches(p[j..], t[j - a..])
    decreases j - a
  {
    if a < j {
      assert p[a..][1..] == p[a + 1..];
      StretchTakesRoom(p, a + 1, j, t[1..]);
      assert t[1..][j - (a + 1)..] == t[j - a..];
    } else {
      assert t[0..] == t;
    }
  }

  // ---- soundness: whatever the name contains ----

  lemma {:induction false} ScanSound(p: string, s: string, i: nat, j: nat, star: int, mark: nat)
    requires i <= |s| && j <= |p| && -1 <= star < j && mark <= i
    requires star < 0 ==> mark == 0
    requires star >= 0 ==> p[star] == '*'
    requires Scan(p, s, i, j, star, mark)
    requires Matches(p[j..], s[i..]) ==> Matches(p, s)
    requires star >= 0 && Matches(p[star..], s[mark..]) ==> Matches(p, s)
    ensures Matches(p, s)
    decreases |p| - star, |s| - mark, |s| - i
  {
    if i == |s| {
      StarsMatchEmpty(p[j..]);
      assert s[i..] == "";
    } else if j < |p| && Takes(p[j], s[i]) {
      assert p[j..][1..] == p[j + 1..] && s[i..][1..] == s[i + 1..];
      if p[j] == '*' && Matches(p[j + 1..], s[i + 1..]) {
        // a star read literally is a star that stood for one character
        assert s[i..] != "" && (s[i..])[1..] == s[i + 1..];
        assert Matches(p[j..], s[i + 1..]);
        assert Matches(p[j..], s[i..]);
      }
      ScanSound(p, s, i + 1, j + 1, star, mark);
    } else if j < |p| && p[j] == '*' {
      assert p[j..][1..] == p[j + 1..];
      assert Matches(p[j + 1..], s[i..]) ==> Matches(p[j..], s[i..]);
      ScanSound(p, s, i, j + 1, j, i);
    } else {
      assert p[star..][1..] == p[star + 1..] && s[mark..][1..] == s[mark + 1..];
      assert Matches(p[star + 1..], s[mark + 1..]) ==> Matches(p[star..], s[mark + 1..]);
      assert Matches(p[star..], s[mark + 1..]) ==> Matches(p[star..], s[mark..]);
      ScanSound(p, s, mark + 1, star + 1, star, mark + 1);
    }
  }

  // ---- completeness: remembering only the last star loses nothing ----

  /** What the matcher still has to decide: the suffix from the last star, or, before any star,
      the suffix it stands at. */
  ghost predicate Pending(p: string, s: string, i: nat, j: nat, star: int, mark: nat)
    requires i <= |s| && j <= |p| && -1 <= star < j && mark <= i
  {
    if star < 0 then Matches(p[j..], s[i..]) else Matches(p[star..], s[mark..])
  }

  lemma {:induction false} ScanExact(p: string, s: string, i: nat, j: nat, star: int, mark: nat)
    requires i <= |s| && j <= |p| && -1 <= star < j && mark <= i
    requires star < 0 ==> mark == 0
    requires star >= 0 ==> p[star] == '*' && Aligned(p, s, star + 1, j, mark, i)
    requires '*' !in s || '*' !in p
    ensures Scan(p, s, i, j, star, mark) == Pending(p, s, i, j, star, mark)
    decreases |p| - star, |s| - mark, |s| - i
  {
    if i == |s| {
      ExactAtEnd(p, s, i, j, star, mark);
    } else if j < |p| && Takes(p[j], s[i]) {
      assert p[j] != '*' by { assert p[j] in p && s[i] in s; }
      assert p[j..][1..] == p[j + 1..] && s[i..][1..] == s[i + 1..];
      ScanExact(p, s, i + 1, j + 1, star, mark);
    } else if j < |p| && p[j] == '*' {
      ExactAtStar(p, s, i, j, star, mark);
      ScanExact(p, s, i, j + 1, j, i);
    } else if star >= 0 {
      StripAligned(p, s, star + 1, j, mark, i);
      assert !Matches(p[star + 1..], s[mark..]);
      assert p[star..][1..] == p[star + 1..] && s[mark..][1..] == s[mark + 1..];
      ScanExact(p, s, mark + 1, star + 1, star, mark + 1);
    }
  }

  lemma {:induction false} ExactAtEnd(p: string, s: string, i: nat, j: nat, star: int, mark: nat)
    requires i == |s| && j <= |p| && -1 <= star < j && mark <= i
    requires star >= 0 ==> p[star] == '*' && Aligned(p, s, star + 1, j, mark, i)
    ensures AllStars(p[j..]) == Pending(p, s, i, j, star, mark)
  {
    StarsMatchEmpty(p[j..]);
    assert s[i..] == "";
    if star >= 0 {
      assert p[star..][1..] == p[star + 1..];
      StripAligned(p, s, star + 1, j, mark, i);
      if Matches(p[star..], s[mark..]) {
        var m := StarSuffix(p[star..], s[mark..]);
        assert s[mark..][m..] == s[mark + m..];
        StretchTakesRoom(p, star + 1, j, s[mark + m..]);
        assert s[mark + m..] == s[mark..];
      }
    }
  }

  lemma {:induction false} ExactAtStar(p: string, s: string, i: nat, j: nat, star: int, mark: nat)
    requires i <= |s| && j < |p| && -1 <= star < j && mark <= i && p[j] == '*'
    requires star >= 0 ==> p[star] == '*' && Aligned(p, s, star + 1, j, mark, i)
    ensures Pending(p, s, i, j, star, mark) == Matches(p[j..], s[i..])
  {
    if star >= 0 {
      assert p[star..][1..] == p[star + 1..];
      StripAligned(p, s, star + 1, j, mark, i);
      if Matches(p[star..], s[mark..]) {
        var m := StarSuffix(p[star..], s[mark..]);
        assert s[mark..][m..] == s[mark + m..];
        StretchTakesRoom(p, star + 1, j, s[mark + m..]);
        var k := mark + m + (j - star - 1);
        assert s[mark + m..][j - star - 1..] == s[k..];
        StarAbsorbs(p[j..], s, i, k);
      }
    }
  }

  // ---- where the code departs from the meaning ----

  function Questions(n: nat): (q: string)
    ensures |q| == n && forall k :: 0 <= k < n ==> q[k] == '?'
  {
    seq(n, _ => '?')
  }

  lemma {:induction false} QuestionsMatch(n: nat, t: string)
    ensures Matches(Questions(n), t) <==> |t| == n
    decreases n
  {
    if n > 0 && t != "" {
      QuestionsMatch(n - 1, t[1..]);
      assert Questions(n)[1..] == Questions(n - 1);
    }
  }

  /** The pattern that shows a name with a `*` in it is mishandled: everything before the `*`
      spelled out, a star for nothing, and one `?` for every character left. */
  function Confounder(s: string, k: nat): string
    requires k < |s|
  {
    s[..k] + "*" + Questions(|s| - k)
  }

  lemma {:induction false} QuestionsRunOut(p: string, s: string, i: nat, j: nat)
    requires i <= |s| && j <= |p| && |p| - j == |s| - i + 1
    requires forall q :: j <= q < |p| ==> p[q] == '?'
    ensures !Scan(p, s, i, j, -1, 0)
    decreases |s| - i
  {
    if i < |s| { QuestionsRunOut(p, s, i + 1, j + 1); } else { assert p[j..][0] == '?'; }
  }

  lemma {:induction false} PrefixIsTaken(p: string, s: string, i: nat, k: nat)
    requires i <= k <= |s| && k <= |p| && forall q :: 0 <= q < k ==> p[q] == s[q]
    ensures Scan(p, s, i, i, -1, 0) == Scan(p, s, k, k, -1, 0)
    decreases k - i
  {
    if i < k { PrefixIsTaken(p, s, i + 1, k); }
  }

  lemma ConfounderFails(s: string, k: nat)
    requires k < |s| && s[k] == '*' && '*' !in s[..k]
    ensures Matches(Confounder(s, k), s) && !Scan(Confounder(s, k), s, 0, 0, -1, 0)
  {
    var p := Confounder(s, k);
    var n := |s| - k;
    forall q | 0 <= q < k ensures p[q] == s[q] && p[q] != '*' { assert s[q] in s[..k]; }
    PrefixIsTaken(p, s, 0, k);
    QuestionsRunOut(p, s, k + 1, k + 1);
    StripAligned(p, s, 0, k, 0, k);
    assert p[0..] == p && s[0..] == s;
    assert p[k..][1..] == Questions(n);
    QuestionsMatch(n, s[k..]);
  }

  /** Exactly which names are safe: the matcher agrees with the meaning of every pattern
      iff the name has no literal `*`. */
  lemma SafeNames(s: string)
    ensures (forall p: string :: Scan(p, s, 0, 0, -1, 0) == Matches(p, s)) <==> '*' !in s
  {
    if '*' !in s {
      forall p: string ensures Scan(p, s, 0, 0, -1, 0) == Matches(p, s) { ScanIsMatches(p, s); }
    } else {
      var k :| 0 <= k < |s| && s[k] == '*';
      k := FirstStar(s, k);
      ConfounderFails(s, k);
    }
  }

  lemma {:induction false} FirstStar(s: string, k: nat) returns (f: nat)
    requires k < |s| && s[k] == '*'
    ensures f < |s| && s[f] == '*' && '*' !in s[..f]
    decreases k
  {
    if '*' in s[..k] {
      var q :| 0 <= q < k && s[q] == '*';
      f := FirstStar(s, q);
    } else {
      f := k;
    }
  }
}
