/** The list operations the application builds on: `filter`, `slice(0, n)` and a
    stable `sort` by a numeric key (Array.prototype.sort is stable). */
module Seqs {

  /** `a` is an order-preserving sub-list of `b`. */
  predicate IsSubsequence<T(==)>(a: seq<T>, b: seq<T>)
    decreases |b|
  {
    if a == [] then true
    else if b == [] then false
    else if a[0] == b[0] then IsSubsequence(a[1..], b[1..])
    else IsSubsequence(a, b[1..])
  }

  /** Dropping the head of the longer list keeps a sub-list a sub-list. */
  lemma {:induction false} SubsequenceOfTail<T>(a: seq<T>, b: seq<T>)
    requires b != [] && IsSubsequence(a, b[1..])
    ensures IsSubsequence(a, b)
    decreases |b|, 0
  {
    if a != [] && a[0] == b[0] {
      SubsequenceDropHead(a, b[1..]);
    }
  }

  /** Dropping the head of the shorter list keeps a sub-list a sub-list. */
  lemma {:induction false} SubsequenceDropHead<T>(a: seq<T>, c: seq<T>)
    requires a != [] && IsSubsequence(a, c)
    ensures IsSubsequence(a[1..], c)
    decreases |c|, 1
  {
    if a[0] == c[0] {
      SubsequenceOfTail(a[1..], c);
    } else {
      SubsequenceDropHead(a, c[1..]);
      SubsequenceOfTail(a[1..], c);
    }
  }

  /** Sub-lists of sub-lists are sub-lists. */
  lemma {:induction false} SubsequenceTransitive<T>(a: seq<T>, b: seq<T>, c: seq<T>)
    requires IsSubsequence(a, b) && IsSubsequence(b, c)
    ensures IsSubsequence(a, c)
    decreases |c|
  {
    if a != [] {
      assert b != [] && c != [];
      if b[0] == c[0] {
        if a[0] == b[0] {
          SubsequenceTransitive(a[1..], b[1..], c[1..]);
        } else {
          SubsequenceTransitive(a, b[1..], c[1..]);
          SubsequenceOfTail(a, c);
        }
      } else {
        SubsequenceTransitive(a, b, c[1..]);
        SubsequenceOfTail(a, c);
      }
    }
  }

  /** A sub-list's elements all come from the list. */
  lemma {:induction false} SubsequenceMembers<T>(a: seq<T>, b: seq<T>)
    requires IsSubsequence(a, b)
    ensures forall x :: x in a ==> x in b
    decreases |b|
  {
    if a != [] {
      assert forall x :: x in b[1..] ==> x in b;
      if a[0] == b[0] {
        SubsequenceMembers(a[1..], b[1..]);
        assert forall x :: x in a ==> x == a[0] || x in a[1..];
      } else {
        SubsequenceMembers(a, b[1..]);
      }
    }
  }

  /** `s.filter(p)`. */
  function Filter<T(==)>(s: seq<T>, p: T -> bool): (r: seq<T>)
    ensures |r| <= |s|
    ensures forall i :: 0 <= i < |r| ==> r[i] in s && p(r[i])
    ensures forall i :: 0 <= i < |s| && p(s[i]) ==> s[i] in r
    ensures IsSubsequence(r, s)
  {
    if s == [] then []
    else
      var rest := Filter(s[1..], p);
      assert s == [s[0]] + s[1..];
      if p(s[0]) then
        assert ([s[0]] + rest)[1..] == rest;
        [s[0]] + rest
      else
        SubsequenceOfTail(rest, s);
        rest
  }

  /** Filtering with a weaker predicate keeps at least as many elements. */
  lemma {:induction false} FilterLengthMonotone<T>(s: seq<T>, p: T -> bool, q: T -> bool)
    requires forall x :: p(x) ==> q(x)
    ensures |Filter(s, p)| <= |Filter(s, q)|
  {
    if s != [] { FilterLengthMonotone(s[1..], p, q); }
  }

  /** Filtering keeps everything exactly when every element passes. */
  lemma {:induction false} FilterKeepsAll<T>(s: seq<T>, p: T -> bool)
    ensures |Filter(s, p)| == |s| <==> forall i :: 0 <= i < |s| ==> p(s[i])
  {
    if s != [] {
      FilterKeepsAll(s[1..], p);
      assert forall i :: 1 <= i < |s| ==> s[i] == s[1..][i - 1];
    }
  }

  /** Filtering a list extended at the end. */
  lemma {:induction false} FilterAppend<T>(s: seq<T>, x: T, p: T -> bool)
    ensures Filter(s + [x], p) == Filter(s, p) + (if p(x) then [x] else [])
  {
    if s != [] {
      assert (s + [x])[1..] == s[1..] + [x];
      FilterAppend(s[1..], x, p);
    }
  }

  /** Filtering keeps every copy of a passing element and no copy of a failing one. */
  lemma {:induction false} FilterCounts<T>(s: seq<T>, p: T -> bool)
    ensures forall x :: multiset(Filter(s, p))[x] == if p(x) then multiset(s)[x] else 0
  {
    if s != [] {
      FilterCounts(s[1..], p);
      assert s == [s[0]] + s[1..];
    }
  }

  /** A filter that every element passes returns the list itself. */
  lemma {:induction false} FilterKeepsList<T>(s: seq<T>, p: T -> bool)
    requires forall i :: 0 <= i < |s| ==> p(s[i])
    ensures Filter(s, p) == s
  {
    if s != [] {
      assert forall i :: 1 <= i < |s| ==> s[1..][i - 1] == s[i];
      FilterKeepsList(s[1..], p);
    }
  }

  /** Filtering with a predicate that holds of every element with key `k` keeps all of
      them, in order. */
  lemma {:induction false} WithKeyOfFilter<T>(s: seq<T>, p: T -> bool, key: T -> int, k: int)
    requires forall x :: key(x) == k ==> p(x)
    ensures WithKey(Filter(s, p), key, k) == WithKey(s, key, k)
  {
    if s != [] {
      WithKeyOfFilter(s[1..], p, key, k);
    }
  }

  /** Filtering with a predicate that fails on every element with key `k` leaves none. */
  lemma {:induction false} WithKeyOfFilterNone<T>(s: seq<T>, p: T -> bool, key: T -> int, k: int)
    requires forall x :: key(x) == k ==> !p(x)
    ensures WithKey(Filter(s, p), key, k) == []
  {
    if s != [] {
      WithKeyOfFilterNone(s[1..], p, key, k);
    }
  }

  /** `s.slice(0, n)`: the first `n` elements, or all of them when there are fewer. */
  function Take<T>(s: seq<T>, n: nat): (r: seq<T>)
    ensures |r| == if n < |s| then n else |s|
    ensures forall i :: 0 <= i < |r| ==> r[i] == s[i]
  {
    if n < |s| then s[..n] else s
  }

  /** `s.map(f)`. */
  function Map<T, U>(s: seq<T>, f: T -> U): (r: seq<U>)
    ensures |r| == |s|
    ensures forall i :: 0 <= i < |s| ==> r[i] == f(s[i])
  {
    if s == [] then [] else [f(s[0])] + Map(s[1..], f)
  }

  /** `s` is in non-decreasing order of `key`. */
  predicate SortedBy<T>(s: seq<T>, key: T -> int) {
    forall i, j :: 0 <= i < j < |s| ==> key(s[i]) <= key(s[j])
  }

  /** The elements of `s` whose key is `k`, in their order in `s`. */
  function WithKey<T>(s: seq<T>, key: T -> int, k: int): seq<T> {
    if s == [] then [] else (if key(s[0]) == k then [s[0]] else []) + WithKey(s[1..], key, k)
  }

  /** In a sorted list, an element with a smaller key comes first. */
  lemma SortedKeyOrder<T>(s: seq<T>, key: T -> int, i: nat, j: nat)
    requires SortedBy(s, key) && i < |s| && j < |s| && key(s[j]) < key(s[i])
    ensures j < i
  {
  }

  /** Inserts `x` into a sorted list before every element whose key is not smaller. */
  function InsertBy<T>(x: T, t: seq<T>, key: T -> int): (r: seq<T>)
    requires SortedBy(t, key)
    ensures SortedBy(r, key)
    ensures t != [] ==> forall i :: 0 <= i < |r| ==> key(r[i]) >= Min(key(x), key(t[0]))
  {
    if t == [] || key(x) <= key(t[0]) then
      ConsSorted(x, t, key);
      [x] + t
    else
      var rest := InsertBy(x, t[1..], key);
      assert forall i :: 0 <= i < |rest| ==> key(t[0]) <= key(rest[i]) by {
        if t[1..] == [] {
          assert rest == [x];
        } else {
          assert key(t[0]) <= key(t[1..][0]);
        }
      }
      ConsSorted(t[0], rest, key);
      [t[0]] + rest
  }

  /** Inserting adds exactly `x`. */
  lemma {:induction false} InsertByPermutes<T>(x: T, t: seq<T>, key: T -> int)
    requires SortedBy(t, key)
    ensures multiset(InsertBy(x, t, key)) == multiset(t) + multiset{x}
  {
    if t != [] && key(x) > key(t[0]) {
      InsertByPermutes(x, t[1..], key);
      BehindHeadMultiset(t, InsertBy(x, t[1..], key), x);
    }
  }

  lemma BehindHeadMultiset<T>(t: seq<T>, rest: seq<T>, x: T)
    requires t != [] && multiset(rest) == multiset(t[1..]) + multiset{x}
    ensures multiset([t[0]] + rest) == multiset(t) + multiset{x}
  {
    assert t == [t[0]] + t[1..];
  }

  /** An element no larger than every element of a sorted list can go in front of it. */
  lemma ConsSorted<T>(a: T, s: seq<T>, key: T -> int)
    requires SortedBy(s, key) && forall i :: 0 <= i < |s| ==> key(a) <= key(s[i])
    ensures SortedBy([a] + s, key)
    ensures forall i :: 0 <= i < |[a] + s| ==> key(([a] + s)[i]) >= key(a)
  {
    assert forall i :: 1 <= i <= |s| ==> ([a] + s)[i] == s[i - 1];
  }

  function Min(a: int, b: int): int { if a <= b then a else b }

  /** Inserting `x` puts it first among the elements with its key. */
  lemma {:induction false} InsertByWithKey<T>(x: T, t: seq<T>, key: T -> int, k: int)
    requires SortedBy(t, key)
    ensures WithKey(InsertBy(x, t, key), key, k) == (if key(x) == k then [x] else []) + WithKey(t, key, k)
  {
    var r := InsertBy(x, t, key);
    if t == [] || key(x) <= key(t[0]) {
      assert r == [x] + t;
      WithKeyCons(x, t, key, k);
    } else {
      var rest := InsertBy(x, t[1..], key);
      InsertByWithKey(x, t[1..], key, k);
      assert r == [t[0]] + rest;
      assert t == [t[0]] + t[1..];
      WithKeyBehind(t[0], x, rest, t[1..], key, k);
    }
  }

  lemma WithKeyCons<T>(a: T, s: seq<T>, key: T -> int, k: int)
    ensures WithKey([a] + s, key, k) == (if key(a) == k then [a] else []) + WithKey(s, key, k)
  {
    assert ([a] + s)[1..] == s;
  }

  /** Putting `a` in front of both sides keeps `x` first among its key, when the two keys
      differ. */
  lemma WithKeyBehind<T>(a: T, x: T, rest: seq<T>, tail: seq<T>, key: T -> int, k: int)
    requires key(a) != k || key(x) != k
    requires WithKey(rest, key, k) == (if key(x) == k then [x] else []) + WithKey(tail, key, k)
    ensures WithKey([a] + rest, key, k) == (if key(x) == k then [x] else []) + WithKey([a] + tail, key, k)
  {
    WithKeyCons(a, rest, key, k);
    WithKeyCons(a, tail, key, k);
    var front: seq<T> := if key(x) == k then [x] else [];
    if key(a) == k {
      assert front == [] && WithKey(rest, key, k) == WithKey(tail, key, k);
      assert WithKey([a] + rest, key, k) == [a] + WithKey(tail, key, k) == WithKey([a] + tail, key, k);
      assert front + WithKey([a] + tail, key, k) == WithKey([a] + tail, key, k);
    } else {
      assert WithKey([a] + rest, key, k) == WithKey(rest, key, k);
      assert WithKey([a] + tail, key, k) == WithKey(tail, key, k);
    }
  }

  /** Stable sort of `s` by ascending `key` (`[...s].sort((a, b) => key(a) - key(b))`). */
  function SortBy<T>(s: seq<T>, key: T -> int): (r: seq<T>)
    ensures SortedBy(r, key)
    ensures multiset(r) == multiset(s)
  {
    if s == [] then []
    else
      assert s == [s[0]] + s[1..];
      InsertByPermutes(s[0], SortBy(s[1..], key), key);
      InsertBy(s[0], SortBy(s[1..], key), key)
  }

  /** The sort is stable: for every key, the elements with that key keep their relative order. */
  lemma {:induction false} SortByStable<T>(s: seq<T>, key: T -> int, k: int)
    ensures WithKey(SortBy(s, key), key, k) == WithKey(s, key, k)
  {
    if s != [] {
      SortByStable(s[1..], key, k);
      InsertByWithKey(s[0], SortBy(s[1..], key), key, k);
    }
  }

  /** A prefix of a sorted list is sorted. */
  lemma SortedPrefix<T>(s: seq<T>, n: nat, key: T -> int)
    requires SortedBy(s, key) && n <= |s|
    ensures SortedBy(s[..n], key)
  {
    assert forall i :: 0 <= i < n ==> s[..n][i] == s[i];
  }

  /** A prefix of a rearrangement of `t` takes nothing `t` does not have. */
  lemma PrefixMembers<T>(s: seq<T>, n: nat, t: seq<T>)
    requires multiset(s) == multiset(t) && n <= |s|
    ensures multiset(s[..n]) <= multiset(t)
    ensures forall i :: 0 <= i < n ==> s[..n][i] in t
  {
    assert s == s[..n] + s[n..];
    assert multiset(s) == multiset(s[..n]) + multiset(s[n..]);
    forall i | 0 <= i < n ensures s[..n][i] in t {
      assert s[..n][i] in multiset(s);
    }
  }

  /** An element left out of a prefix of a sorted list has a key at least as large as
      every key in the prefix. */
  lemma SortedPrefixEarliest<T>(sorted: seq<T>, n: nat, key: T -> int, w: T)
    requires SortedBy(sorted, key) && n <= |sorted|
    requires multiset(sorted[..n])[w] < multiset(sorted)[w]
    ensures forall i :: 0 <= i < n ==> key(sorted[i]) <= key(w)
  {
    var rest := sorted[n..];
    assert sorted == sorted[..n] + rest;
    assert multiset(sorted) == multiset(sorted[..n]) + multiset(rest);
    assert w in multiset(rest);
    var j :| 0 <= j < |rest| && rest[j] == w;
    assert sorted[n + j] == w;
  }
}
