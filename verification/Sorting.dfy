/** Sorting by a key, smallest first. The source calls the standard library's unstable sort;
    all that is promised of it, and of this, is a sorted rearrangement. */
module Sorting {

  ghost predicate SortedBy<T>(s: seq<T>, key: T -> real) {
    forall i, j :: 0 <= i < j < |s| ==> key(s[i]) <= key(s[j])
  }

  lemma SortedAtEnd<T>(s: seq<T>, y: T, key: T -> real)
    requires SortedBy(s, key) && forall z :: z in s ==> key(z) <= key(y)
    ensures SortedBy(s + [y], key)
  {
  }

  lemma LastIsLargest<T>(s: seq<T>, key: T -> real)
    requires SortedBy(s, key) && s != []
    ensures SortedBy(s[..|s| - 1], key)
    ensures forall z :: z in s[..|s| - 1] ==> key(z) <= key(s[|s| - 1])
  {
  }

  /** Puts one more entry where it belongs, looking from the end. */
  function Inserted<T>(s: seq<T>, x: T, key: T -> real): (r: seq<T>)
    ensures multiset(r) == multiset(s) + multiset{x}
    ensures |r| == |s| + 1
  {
    if s == [] || key(s[|s| - 1]) <= key(x) then s + [x]
    else
      assert s == s[..|s| - 1] + [s[|s| - 1]];
      Inserted(s[..|s| - 1], x, key) + [s[|s| - 1]]
  }

  lemma {:induction false} InsertedIsSorted<T>(s: seq<T>, x: T, key: T -> real)
    requires SortedBy(s, key)
    ensures SortedBy(Inserted(s, x, key), key)
  {
    if s != [] {
      LastIsLargest(s, key);
      var init, y := s[..|s| - 1], s[|s| - 1];
      assert s == init + [y];
      if key(y) <= key(x) {
        SortedAtEnd(s, x, key);
      } else {
        InsertedIsSorted(init, x, key);
        var r := Inserted(init, x, key);
        forall z | z in r ensures key(z) <= key(y) {
          assert z in multiset(r);
        }
        SortedAtEnd(r, y, key);
      }
    }
  }

  method Sort<T>(s: seq<T>, key: T -> real) returns (r: seq<T>)
    ensures SortedBy(r, key) && multiset(r) == multiset(s) && |r| == |s|
    ensures forall x :: x in r <==> x in s
  {
    r := [];
    for i := 0 to |s|
      invariant SortedBy(r, key) && multiset(r) == multiset(s[..i]) && |r| == i
    {
      assert s[..i + 1] == s[..i] + [s[i]];
      InsertedIsSorted(r, s[i], key);
      r := Inserted(r, s[i], key);
    }
    assert s[..|s|] == s;
    forall x ensures x in r <==> x in s { assert x in multiset(r) <==> x in multiset(s); }
  }

  // ---- rearranging ----

  ghost predicate NoDups<T>(s: seq<T>) { forall i, j :: 0 <= i < j < |s| ==> s[i] != s[j] }

  lemma {:induction false} OnceEach<T>(a: seq<T>, x: T)
    requires NoDups(a)
    ensures multiset(a)[x] <= 1
  {
    if a != [] {
      var n := |a| - 1;
      assert a == a[..n] + [a[n]];
      OnceEach(a[..n], x);
      if x == a[n] { assert x !in a[..n]; }
    }
  }

  lemma TwiceCountsTwo<T>(b: seq<T>, i: nat, j: nat)
    requires i < j < |b| && b[i] == b[j]
    ensures multiset(b)[b[i]] >= 2
  {
    assert b == b[..j] + b[j..];
    assert b[..j][i] == b[i] && b[j..][0] == b[i];
    assert b[i] in multiset(b[..j]) && b[i] in multiset(b[j..]);
  }

  /** Rearranging repeats nothing. */
  lemma StillNoDups<T>(a: seq<T>, b: seq<T>)
    requires NoDups(a) && multiset(b) == multiset(a)
    ensures NoDups(b)
  {
    forall i, j | 0 <= i < j < |b| ensures b[i] != b[j] {
      if b[i] == b[j] {
        TwiceCountsTwo(b, i, j);
        OnceEach(a, b[i]);
      }
    }
  }
}
