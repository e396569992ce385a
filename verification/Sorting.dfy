// Stable sorting by an integer key.
module Sorting {

  predicate Ordered<T>(key: T -> int, s: seq<T>) {
    forall i, j :: 0 <= i < j < |s| ==> key(s[i]) <= key(s[j])
  }

  /** Inserts after every element of the same key. */
  function Insert<T>(key: T -> int, s: seq<T>, x: T): seq<T> {
    if s == [] || key(s[|s| - 1]) <= key(x) then s + [x]
    else Insert(key, s[..|s| - 1], x) + [s[|s| - 1]]
  }

  function Sort<T>(key: T -> int, s: seq<T>): seq<T> {
    if s == [] then [] else Insert(key, Sort(key, s[..|s| - 1]), s[|s| - 1])
  }

  /** The elements of one key, in their order. */
  function At<T>(key: T -> int, s: seq<T>, k: int): seq<T> {
    if s == [] then []
    else At(key, s[..|s| - 1], k) + if key(s[|s| - 1]) == k then [s[|s| - 1]] else []
  }

  lemma AtPush<T>(key: T -> int, s: seq<T>, x: T, k: int)
    ensures At(key, s + [x], k) == At(key, s, k) + if key(x) == k then [x] else []
  {
    assert (s + [x])[..|s|] == s;
  }

  lemma {:induction false} InsertKeepsElements<T>(key: T -> int, s: seq<T>, x: T)
    ensures multiset(Insert(key, s, x)) == multiset(s) + multiset{x}
  {
    if s != [] && key(s[|s| - 1]) > key(x) {
      var n := |s| - 1;
      InsertKeepsElements(key, s[..n], x);
      assert s == s[..n] + [s[n]];
    }
  }

  lemma {:induction false} InsertSorts<T>(key: T -> int, s: seq<T>, x: T)
    requires Ordered(key, s)
    ensures Ordered(key, Insert(key, s, x))
  {
    if s != [] && key(s[|s| - 1]) > key(x) {
      var n := |s| - 1;
      InsertSorts(key, s[..n], x);
      InsertKeepsElements(key, s[..n], x);
      var inner := Insert(key, s[..n], x);
      assert Insert(key, s, x) == inner + [s[n]];
      hide Insert;
      forall i | 0 <= i < |inner| ensures key(inner[i]) <= key(s[n]) {
        assert inner[i] in multiset(inner);
        if inner[i] != x {
          assert inner[i] in multiset(s[..n]);
        }
      }
    }
  }

  lemma InsertBefore<T>(key: T -> int, s: seq<T>, last: T, x: T)
    requires key(last) > key(x)
    ensures Insert(key, s + [last], x) == Insert(key, s, x) + [last]
  {
    assert (s + [last])[..|s|] == s;
  }

  lemma {:induction false} InsertIsStable<T>(key: T -> int, s: seq<T>, x: T, k: int)
    ensures At(key, Insert(key, s, x), k) == At(key, s + [x], k)
  {
    if s != [] && key(s[|s| - 1]) > key(x) {
      var init, last := s[..|s| - 1], s[|s| - 1];
      assert s == init + [last];
      InsertIsStable(key, init, x, k);
      InsertBefore(key, init, last, x);
      hide Insert, At;
      AtPush(key, s, x, k);
      AtPush(key, init, x, k);
      AtPush(key, init, last, k);
      AtPush(key, Insert(key, init, x), last, k);
    }
  }

  /** Sorting orders by key, keeps every element, and keeps elements of equal key in order. */
  lemma {:induction false} SortIsStable<T>(key: T -> int, s: seq<T>)
    ensures Ordered(key, Sort(key, s))
    ensures multiset(Sort(key, s)) == multiset(s)
    ensures forall k :: At(key, Sort(key, s), k) == At(key, s, k)
  {
    hide Insert, At, Ordered;
    if s == [] {
      EmptyIsOrdered(key);
    } else {
      var init, last := s[..|s| - 1], s[|s| - 1];
      SortIsStable(key, init);
      InsertSorts(key, Sort(key, init), last);
      InsertKeepsElements(key, Sort(key, init), last);
      assert s == init + [last];
      forall k ensures At(key, Sort(key, s), k) == At(key, s, k) {
        InsertIsStable(key, Sort(key, init), last, k);
        AtPush(key, Sort(key, init), last, k);
        AtPush(key, init, last, k);
      }
    }
  }

  lemma EmptyIsOrdered<T>(key: T -> int)
    ensures Ordered<T>(key, [])
  {
  }

  lemma {:induction false} SortOfOrdered<T>(key: T -> int, s: seq<T>)
    requires Ordered(key, s)
    ensures Sort(key, s) == s
  {
    if s != [] {
      var n := |s| - 1;
      SortOfOrdered(key, s[..n]);
      assert s == s[..n] + [s[n]];
    }
  }
}
