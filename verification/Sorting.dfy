/** The stable sort by key that the standard library promises: sorted, a permutation, and
    equal keys left in their order. */
module Sorting {

  ghost predicate SortedBy<T>(key: T -> nat, s: seq<T>) {
    forall i, j :: 0 <= i < j < |s| ==> key(s[i]) <= key(s[j])
  }

  function Insert<T>(key: T -> nat, x: T, s: seq<T>): seq<T> {
    if s == [] || key(x) <= key(s[0]) then [x] + s else [s[0]] + Insert(key, x, s[1..])
  }

  function StableSort<T>(key: T -> nat, s: seq<T>): seq<T> {
    if s == [] then [] else Insert(key, s[0], StableSort(key, s[1..]))
  }

  function WithKey<T>(key: T -> nat, k: nat, s: seq<T>): seq<T> {
    if s == [] then []
    else (if key(s[0]) == k then [s[0]] else []) + WithKey(key, k, s[1..])
  }

  lemma {:induction false} InsertKeepsMembers<T>(key: T -> nat, x: T, s: seq<T>)
    ensures multiset(Insert(key, x, s)) == multiset{x} + multiset(s)
  {
    if s != [] && key(s[0]) < key(x) {
      InsertKeepsMembers(key, x, s[1..]);
      assert s == [s[0]] + s[1..];
    }
  }

  lemma {:induction false} InsertKeepsOrder<T>(key: T -> nat, x: T, s: seq<T>)
    requires SortedBy(key, s)
    ensures SortedBy(key, Insert(key, x, s))
  {
    if s != [] && key(s[0]) < key(x) {
      var rest := Insert(key, x, s[1..]);
      InsertKeepsOrder(key, x, s[1..]);
      InsertKeepsMembers(key, x, s[1..]);
      forall i | 0 <= i < |rest|
        ensures key(s[0]) <= key(rest[i])
      {
        assert rest[i] in multiset(rest);
        assert rest[i] == x || rest[i] in s[1..];
      }
    }
  }

  lemma Associative<T>(a: seq<T>, b: seq<T>, c: seq<T>)
    ensures a + (b + c) == a + b + c
  {
  }

  lemma WithKeyCons<T>(key: T -> nat, k: nat, x: T, s: seq<T>)
    ensures WithKey(key, k, [x] + s) == (if key(x) == k then [x] else []) + WithKey(key, k, s)
  {
    assert ([x] + s)[1..] == s;
  }

  lemma {:induction false} WithKeyAppend<T>(key: T -> nat, k: nat, s: seq<T>, t: seq<T>)
    ensures WithKey(key, k, s + t) == WithKey(key, k, s) + WithKey(key, k, t)
  {
    if s == [] {
      assert s + t == t;
    } else {
      var rest := s[1..];
      WithKeyAppend(key, k, rest, t);
      var head := if key(s[0]) == k then [s[0]] else [];
      assert s + t == [s[0]] + (rest + t);
      WithKeyCons(key, k, s[0], rest + t);
      Associative(head, WithKey(key, k, rest), WithKey(key, k, t));
    }
  }

  lemma {:induction false} InsertIsStable<T>(key: T -> nat, x: T, s: seq<T>, k: nat)
    ensures WithKey(key, k, Insert(key, x, s)) == WithKey(key, k, [x] + s)
  {
    if s != [] && key(s[0]) < key(x) {
      var rest := s[1..];
      InsertIsStable(key, x, rest, k);
      assert s == [s[0]] + rest;
      WithKeyCons(key, k, s[0], Insert(key, x, rest));
      WithKeyCons(key, k, x, rest);
      WithKeyCons(key, k, s[0], rest);
      WithKeyCons(key, k, x, s);
    }
  }

  lemma {:induction false} StableSortSorts<T>(key: T -> nat, s: seq<T>)
    ensures SortedBy(key, StableSort(key, s))
    ensures multiset(StableSort(key, s)) == multiset(s)
  {
    if s != [] {
      StableSortSorts(key, s[1..]);
      InsertKeepsOrder(key, s[0], StableSort(key, s[1..]));
      InsertKeepsMembers(key, s[0], StableSort(key, s[1..]));
      assert s == [s[0]] + s[1..];
    }
  }

  lemma {:induction false} StableSortIsStable<T>(key: T -> nat, s: seq<T>, k: nat)
    ensures WithKey(key, k, StableSort(key, s)) == WithKey(key, k, s)
  {
    if s != [] {
      StableSortIsStable(key, s[1..], k);
      InsertIsStable(key, s[0], StableSort(key, s[1..]), k);
      WithKeyCons(key, k, s[0], StableSort(key, s[1..]));
    }
  }

  lemma SortedMembers<T>(key: T -> nat, s: seq<T>)
    ensures |StableSort(key, s)| == |s|
    ensures forall x :: x in StableSort(key, s) <==> x in s
  {
    StableSortSorts(key, s);
    var t := StableSort(key, s);
    assert |multiset(t)| == |multiset(s)|;
    assert forall x :: x in t <==> x in multiset(t);
    assert forall x :: x in s <==> x in multiset(s);
  }
}
