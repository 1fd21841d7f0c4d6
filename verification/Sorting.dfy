/** Sorting by an integer key, as the server sorts due bombs and snapshot entries. */
module Sorting {
  import opened Utils

  function Insert<T>(s: seq<T>, x: T, key: T -> int): seq<T> {
    if s == [] || key(x) <= key(s[0]) then [x] + s else [s[0]] + Insert(s[1..], x, key)
  }

  function SortBy<T>(s: seq<T>, key: T -> int): seq<T> {
    if s == [] then [] else Insert(SortBy(s[1..], key), s[0], key)
  }

  ghost predicate SortedBy<T>(s: seq<T>, key: T -> int) {
    forall i, j | 0 <= i < j < |s| :: key(s[i]) <= key(s[j])
  }

  lemma {:induction false} InsertKeeps<T>(s: seq<T>, x: T, key: T -> int)
    ensures multiset(Insert(s, x, key)) == multiset(s) + multiset{x}
  {
    if s != [] && key(x) > key(s[0]) {
      InsertKeeps(s[1..], x, key);
      assert s == [s[0]] + s[1..];
    }
  }

  lemma Prepend<T>(x: T, s: seq<T>, key: T -> int)
    requires SortedBy(s, key) && forall j | 0 <= j < |s| :: key(x) <= key(s[j])
    ensures SortedBy([x] + s, key)
  {
  }

  lemma {:induction false} InsertSorts<T>(s: seq<T>, x: T, key: T -> int)
    requires SortedBy(s, key)
    ensures SortedBy(Insert(s, x, key), key)
  {
    if s == [] || key(x) <= key(s[0]) {
      Prepend(x, s, key);
    } else {
      InsertSorts(s[1..], x, key);
      InsertKeeps(s[1..], x, key);
      var rest := Insert(s[1..], x, key);
      hide Insert;
      forall j | 0 <= j < |rest| ensures key(s[0]) <= key(rest[j]) {
        FromInsert(s[1..], x, rest, j);
      }
      Prepend(s[0], rest, key);
    }
  }

  lemma FromInsert<T>(s: seq<T>, x: T, r: seq<T>, j: nat)
    requires multiset(r) == multiset(s) + multiset{x} && j < |r|
    ensures r[j] == x || r[j] in s
  {
    assert r[j] in multiset(r);
  }

  /** The result is the same elements, in key order. */
  lemma {:induction false} SortBySorts<T>(s: seq<T>, key: T -> int)
    ensures SortedBy(SortBy(s, key), key)
    ensures multiset(SortBy(s, key)) == multiset(s)
  {
    if s != [] {
      SortBySorts(s[1..], key);
      InsertSorts(SortBy(s[1..], key), s[0], key);
      InsertKeeps(SortBy(s[1..], key), s[0], key);
      assert s == [s[0]] + s[1..];
    }
  }

  /** Sorting neither adds, loses nor repeats an element. */
  lemma SortKeeps<T(!new)>(s: seq<T>, key: T -> int)
    ensures |SortBy(s, key)| == |s|
    ensures forall x :: x in SortBy(s, key) <==> x in s
    ensures Distinct(s) ==> Distinct(SortBy(s, key))
  {
    SortBySorts(s, key);
    var r := SortBy(s, key);
    assert |multiset(r)| == |r| && |multiset(s)| == |s|;
    forall x ensures x in r <==> x in s {
      assert x in multiset(r) <==> x in multiset(s);
    }
    if Distinct(s) {
      forall x ensures multiset(r)[x] <= 1 {
        DistinctOnce(s, x);
      }
      OnceDistinct(r);
    }
  }

  lemma {:induction false} DistinctOnce<T>(s: seq<T>, x: T)
    requires Distinct(s)
    ensures multiset(s)[x] <= 1
  {
    if s != [] {
      DistinctOnce(s[1..], x);
      assert s == [s[0]] + s[1..];
      assert s[0] !in s[1..];
    }
  }

  lemma {:induction false} OnceDistinct<T>(s: seq<T>)
    requires forall x | x in s :: multiset(s)[x] <= 1
    ensures Distinct(s)
  {
    if s != [] {
      var rest := s[1..];
      assert s == [s[0]] + rest;
      forall x | x in rest ensures multiset(rest)[x] <= 1 && x != s[0] {
        assert multiset(s)[x] == multiset(rest)[x] + if x == s[0] then 1 else 0;
        assert x in multiset(rest);
      }
      OnceDistinct(rest);
      forall i, j | 0 <= i < j < |s| ensures s[i] != s[j] {
        assert s[j] == rest[j - 1] && rest[j - 1] in rest;
        assert i > 0 ==> s[i] == rest[i - 1] && rest[i - 1] != rest[j - 1];
      }
    }
  }
}
