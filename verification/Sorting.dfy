/** The library sort both digests and span merging rely on, as insertion into a sorted sequence. */
module Sorting {

  ghost predicate Total<T(!new)>(le: (T, T) -> bool) {
    forall x, y :: le(x, y) || le(y, x)
  }

  predicate Sorted<T>(le: (T, T) -> bool, s: seq<T>) {
    forall i :: 0 <= i < |s| - 1 ==> le(s[i], s[i + 1])
  }

  function Insert<T>(le: (T, T) -> bool, x: T, s: seq<T>): (r: seq<T>)
    ensures r != []
  {
    if s == [] then [x] else if le(x, s[0]) then [x] + s else [s[0]] + Insert(le, x, s[1..])
  }

  function Sort<T>(le: (T, T) -> bool, s: seq<T>): seq<T> {
    if s == [] then [] else Insert(le, s[0], Sort(le, s[1..]))
  }

  lemma {:induction false} InsertKeeps<T>(le: (T, T) -> bool, x: T, s: seq<T>)
    ensures multiset(Insert(le, x, s)) == multiset(s) + multiset{x}
  {
    if s != [] {
      assert s == [s[0]] + s[1..];
      InsertKeeps(le, x, s[1..]);
    }
  }

  /** Sorting rearranges. */
  lemma {:induction false} SortKeeps<T>(le: (T, T) -> bool, s: seq<T>)
    ensures multiset(Sort(le, s)) == multiset(s)
  {
    if s != [] {
      assert s == [s[0]] + s[1..];
      SortKeeps(le, s[1..]);
      InsertKeeps(le, s[0], Sort(le, s[1..]));
    }
  }

  lemma {:induction false} InsertSorts<T(!new)>(le: (T, T) -> bool, x: T, s: seq<T>)
    requires Total(le) && Sorted(le, s)
    ensures Sorted(le, Insert(le, x, s))
    ensures Insert(le, x, s)[0] == x || (s != [] && Insert(le, x, s)[0] == s[0])
  {
    if s != [] {
      if le(x, s[0]) {
        Prepended(le, x, s);
      } else {
        assert forall i :: 0 <= i < |s| - 1 ==> s[1..][i] == s[i + 1];
        InsertSorts(le, x, s[1..]);
        Prepended(le, s[0], Insert(le, x, s[1..]));
      }
    }
  }

  lemma Prepended<T>(le: (T, T) -> bool, x: T, s: seq<T>)
    requires Sorted(le, s) && (s != [] ==> le(x, s[0]))
    ensures Sorted(le, [x] + s)
  {
    var r := [x] + s;
    forall i | 0 <= i < |r| - 1
      ensures le(r[i], r[i + 1])
    {
      assert r[i + 1] == s[i];
      if i > 0 {
        assert r[i] == s[i - 1] && le(s[i - 1], s[i - 1 + 1]);
      }
    }
  }

  /** Sorting sorts. */
  lemma {:induction false} SortSorts<T(!new)>(le: (T, T) -> bool, s: seq<T>)
    requires Total(le)
    ensures Sorted(le, Sort(le, s))
  {
    if s != [] {
      SortSorts(le, s[1..]);
      InsertSorts(le, s[0], Sort(le, s[1..]));
    }
  }
}
