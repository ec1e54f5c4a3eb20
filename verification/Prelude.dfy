/** Small definitions every other module uses. */
module Prelude {
  /** A Python value that may be `None`. */
  datatype Option<+T> = None | Some(value: T)

  /** No element of `s` occurs twice. */
  ghost predicate Distinct<T>(s: seq<T>) {
    forall i, j :: 0 <= i < j < |s| ==> s[i] != s[j]
  }

  lemma Assoc<T>(a: seq<T>, b: seq<T>, c: seq<T>)
    ensures (a + b) + c == a + (b + c)
  {
  }

  lemma SomeMember<T>(s: seq<T>)
    ensures s == [] || exists x :: x in s
  {
    if s != [] {
      assert s[0] in s;
    }
  }

  lemma DistinctSnoc<T>(s: seq<T>, x: T)
    requires Distinct(s) && x !in s
    ensures Distinct(s + [x])
  {
  }

  lemma DistinctApart<T>(s: seq<T>, t: seq<T>, x: T)
    requires Distinct(s + t) && x in s
    ensures x !in t
  {
    var i :| 0 <= i < |s| && s[i] == x;
    forall j | 0 <= j < |t|
      ensures t[j] != x
    {
      assert (s + t)[i] == x && (s + t)[|s| + j] == t[j];
    }
  }
}
