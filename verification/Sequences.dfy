// Sequence vocabulary shared by the market agent's bounded structures.
module Sequences {

  /** The last n elements, or all of them when there are fewer. */
  function TakeLast<T>(s: seq<T>, n: nat): (r: seq<T>)
    ensures |r| == if |s| < n then |s| else n
  {
    if |s| <= n then s else s[|s| - n..]
  }

  /** t is the end of s. */
  predicate IsSuffix<T(==)>(t: seq<T>, s: seq<T>) {
    |t| <= |s| && t == s[|s| - |t|..]
  }

  function Reverse<T>(s: seq<T>): (r: seq<T>)
    ensures |r| == |s|
  {
    if s == [] then [] else Reverse(s[1..]) + [s[0]]
  }

  lemma {:induction false} ReverseAppend<T>(a: seq<T>, b: seq<T>)
    ensures Reverse(a + b) == Reverse(b) + Reverse(a)
  {
    if a == [] {
      assert a + b == b;
    } else {
      assert (a + b)[1..] == a[1..] + b;
      ReverseAppend(a[1..], b);
    }
  }

  lemma {:induction false} ReverseTwice<T>(s: seq<T>)
    ensures Reverse(Reverse(s)) == s
  {
    if s != [] {
      ReverseTwice(s[1..]);
      ReverseAppend(Reverse(s[1..]), [s[0]]);
      assert Reverse([s[0]]) == [s[0]];
    }
  }

  /** Taking the end twice keeps the shorter end. */
  lemma TakeLastOfConcat<T>(a: seq<T>, b: seq<T>, n: nat)
    ensures |b| >= n ==> TakeLast(a + b, n) == TakeLast(b, n)
    ensures |b| <= n ==> TakeLast(a + b, n) == TakeLast(a, n - |b|) + b
  {
  }

  /** Two ends of the same sequence agree on their common length. */
  lemma SuffixesAgree<T>(a: seq<T>, b: seq<T>, s: seq<T>)
    requires IsSuffix(a, s) && IsSuffix(b, s)
    ensures |a| <= |b| ==> IsSuffix(a, b)
    ensures |b| <= |a| ==> IsSuffix(b, a)
  {
  }

  lemma TakeLastIsSuffix<T>(s: seq<T>, n: nat)
    ensures IsSuffix(TakeLast(s, n), s)
  {
  }

  lemma SuffixTransitive<T>(a: seq<T>, b: seq<T>, c: seq<T>)
    requires IsSuffix(a, b) && IsSuffix(b, c)
    ensures IsSuffix(a, c)
  {
  }

  /** The element appears once at most. */
  predicate Distinct<T(==)>(s: seq<T>) {
    forall i, j :: 0 <= i < j < |s| ==> s[i] != s[j]
  }

  function Elements<T>(s: seq<T>): set<T> {
    set x | x in s
  }

  lemma {:induction false} DistinctSize<T>(s: seq<T>)
    requires Distinct(s)
    ensures |Elements(s)| == |s|
  {
    if s != [] {
      var n := |s| - 1;
      DistinctSize(s[..n]);
      assert Elements(s) == Elements(s[..n]) + {s[n]};
    }
  }

  lemma {:induction false} SubsetSize<T>(a: set<T>, b: set<T>)
    requires a <= b
    ensures |a| <= |b|
  {
    if a != {} {
      var x :| x in a;
      SubsetSize(a - {x}, b - {x});
    }
  }

  // ---------- elements identified by a key ----------

  function KeySet<T, K>(key: T -> K, s: seq<T>): set<K> {
    set i | 0 <= i < |s| :: key(s[i])
  }

  predicate DistinctKeys<T, K(==)>(key: T -> K, s: seq<T>) {
    forall i, j :: 0 <= i < j < |s| ==> key(s[i]) != key(s[j])
  }

  lemma KeysExtend<T, K>(key: T -> K, s: seq<T>, x: T)
    ensures KeySet(key, s + [x]) == KeySet(key, s) + {key(x)}
  {
    var all := s + [x];
    assert all[|s|] == x;
    assert forall i :: 0 <= i < |s| ==> all[i] == s[i];
  }
}
