/**
 * Python's `sorted(..., key=..., reverse=True)` and `list.sort` as its documentation promises
 * them: a permutation, in descending key order, that leaves equal keys in their given order.
 */
module StableSort {

  ghost predicate Descending<T>(s: seq<T>, key: T -> real)
  {
    forall i, j :: 0 <= i < j < |s| ==> key(s[i]) >= key(s[j])
  }

  /** The elements of `s` with key `k`, in order. */
  function WithKey<T>(s: seq<T>, key: T -> real, k: real): seq<T>
  {
    if s == [] then []
    else (if key(s[0]) == k then [s[0]] else []) + WithKey(s[1..], key, k)
  }

  function Insert<T>(x: T, s: seq<T>, key: T -> real): seq<T>
  {
    if s == [] || key(x) >= key(s[0]) then [x] + s
    else [s[0]] + Insert(x, s[1..], key)
  }

  function SortDescending<T>(s: seq<T>, key: T -> real): seq<T>
  {
    if s == [] then [] else Insert(s[0], SortDescending(s[1..], key), key)
  }

  lemma {:induction false} InsertMultiset<T>(x: T, s: seq<T>, key: T -> real)
    ensures multiset(Insert(x, s, key)) == multiset{x} + multiset(s)
  {
    if s == [] || key(x) >= key(s[0]) {
    } else {
      InsertMultiset(x, s[1..], key);
      assert s == [s[0]] + s[1..];
    }
  }

  lemma {:induction false} InsertDescending<T>(x: T, s: seq<T>, key: T -> real)
    requires Descending(s, key)
    ensures Descending(Insert(x, s, key), key)
  {
    if s == [] || key(x) >= key(s[0]) {
    } else {
      var rest := Insert(x, s[1..], key);
      InsertDescending(x, s[1..], key);
      InsertMultiset(x, s[1..], key);
      forall j | 0 <= j < |rest|
        ensures key(s[0]) >= key(rest[j])
      {
        assert rest[j] in multiset(rest);
        assert rest[j] == x || rest[j] in s[1..];
      }
    }
  }

  lemma {:induction false} InsertStable<T>(x: T, s: seq<T>, key: T -> real, k: real)
    ensures WithKey(Insert(x, s, key), key, k) == WithKey([x] + s, key, k)
  {
    if s == [] || key(x) >= key(s[0]) {
    } else {
      InsertStable(x, s[1..], key, k);
      assert ([s[0]] + Insert(x, s[1..], key))[1..] == Insert(x, s[1..], key);
      assert ([x] + s[1..])[1..] == s[1..] && ([x] + s)[1..] == s;
    }
  }

  lemma {:induction false} SortLaws<T>(s: seq<T>, key: T -> real)
    ensures multiset(SortDescending(s, key)) == multiset(s)
    ensures Descending(SortDescending(s, key), key)
  {
    if s != [] {
      SortLaws(s[1..], key);
      InsertMultiset(s[0], SortDescending(s[1..], key), key);
      InsertDescending(s[0], SortDescending(s[1..], key), key);
      assert s == [s[0]] + s[1..];
    }
  }

  lemma {:induction false} SortStable<T>(s: seq<T>, key: T -> real, k: real)
    ensures WithKey(SortDescending(s, key), key, k) == WithKey(s, key, k)
  {
    if s != [] {
      var rest := SortDescending(s[1..], key);
      SortStable(s[1..], key, k);
      InsertStable(s[0], rest, key, k);
      assert ([s[0]] + rest)[1..] == rest;
    }
  }

  /** The head of a sort is the first element, in the given order, among those of greatest key. */
  lemma HeadIsFirstGreatest<T>(s: seq<T>, key: T -> real)
    requires s != []
    ensures var t := SortDescending(s, key);
      && t != []
      && (forall x :: x in s ==> key(x) <= key(t[0]))
      && WithKey(s, key, key(t[0])) != []
      && WithKey(s, key, key(t[0]))[0] == t[0]
  {
    var t := SortDescending(s, key);
    SortLaws(s, key);
    assert multiset(t) == multiset(s);
    assert |multiset(t)| == |t| && |multiset(s)| == |s|;
    SortStable(s, key, key(t[0]));
    forall x | x in s
      ensures key(x) <= key(t[0])
    {
      assert x in multiset(t);
      var i :| 0 <= i < |t| && t[i] == x;
    }
  }

  /** `WithKey` picks out exactly the elements with that key. */
  lemma {:induction false} WithKeyMembers<T>(s: seq<T>, key: T -> real, k: real)
    ensures forall x :: x in WithKey(s, key, k) <==> x in s && key(x) == k
  {
    if s != [] {
      WithKeyMembers(s[1..], key, k);
      assert s == [s[0]] + s[1..];
    }
  }

  /** The head of `WithKey` precedes every other element with that key. */
  lemma {:induction false} WithKeyHead<T>(s: seq<T>, key: T -> real, k: real) returns (i: nat)
    requires WithKey(s, key, k) != []
    ensures i < |s| && s[i] == WithKey(s, key, k)[0] && key(s[i]) == k
    ensures forall j :: 0 <= j < i ==> key(s[j]) != k
  {
    if key(s[0]) == k {
      i := 0;
    } else {
      i := WithKeyHead(s[1..], key, k);
      i := i + 1;
    }
  }
}
