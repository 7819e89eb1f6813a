/** A value that may be missing, those of a list that are not, and a list short of one entry. */
module Common {
  datatype Option<T> = None | Some(value: T)

  function Somes<T>(s: seq<Option<T>>): seq<T> {
    if s == [] then []
    else
      var rest := Somes(s[..|s| - 1]);
      match s[|s| - 1]
      case None => rest
      case Some(v) => rest + [v]
  }

  lemma SomesMore<T>(s: seq<Option<T>>, x: Option<T>)
    ensures Somes(s + [x]) == Somes(s) + if x.Some? then [x.value] else []
  {
    assert (s + [x])[..|s|] == s;
  }

  function Without<T>(s: seq<T>, k: nat): seq<T>
    requires k < |s|
  {
    s[..k] + s[k + 1..]
  }
}
