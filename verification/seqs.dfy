/**
 * The array operations of the JavaScript standard library the application relies on:
 * `slice(0, n)`, `filter`, the stable `sort` (required stable since ECMAScript 2019),
 * and the "first occurrence wins" de-duplication the application writes by hand with a
 * `seen` set.
 */
module Seqs {

  // ---------------------------------------------------------------- slice and filter

  /** `s.slice(0, n)`: the first `n` elements, or all of them when there are fewer. */
  function Take<T(==)>(s: seq<T>, n: nat): (r: seq<T>)
    ensures |r| <= n && |r| <= |s|
    ensures |r| == n || r == s
    ensures r == s[..|r|]
  {
    if n < |s| then s[..n] else s
  }

  /** `s.filter(p)`. */
  function Filter<T(==)>(s: seq<T>, p: T -> bool): (r: seq<T>)
    ensures |r| <= |s|
    ensures forall i :: 0 <= i < |r| ==> r[i] in s && p(r[i])
    ensures forall i :: 0 <= i < |s| && p(s[i]) ==> s[i] in r
  {
    if s == [] then []
    else (if p(s[0]) then [s[0]] else []) + Filter(s[1..], p)
  }

  /** Filtering distributes over concatenation. */
  lemma {:induction false} FilterAppend<T>(a: seq<T>, b: seq<T>, p: T -> bool)
    ensures Filter(a + b, p) == Filter(a, p) + Filter(b, p)
  {
    if a == [] {
      assert a + b == b;
    } else {
      assert (a + b)[0] == a[0] && (a + b)[1..] == a[1..] + b;
      FilterAppend(a[1..], b, p);
    }
  }

  /** A filter that accepts every element changes nothing. */
  lemma {:induction false} FilterAll<T>(s: seq<T>, p: T -> bool)
    requires forall i :: 0 <= i < |s| ==> p(s[i])
    ensures Filter(s, p) == s
  {
    if s != [] {
      FilterAll(s[1..], p);
      assert s == [s[0]] + s[1..];
    }
  }

  /** A filter that accepts no element leaves nothing. */
  lemma {:induction false} FilterNone<T>(s: seq<T>, p: T -> bool)
    requires forall i :: 0 <= i < |s| ==> !p(s[i])
    ensures Filter(s, p) == []
  {
    if s != [] {
      FilterNone(s[1..], p);
    }
  }

  /** Filtering keeps every element the predicate accepts, in order. */
  lemma {:induction false} FilterIsSubseq<T>(s: seq<T>, p: T -> bool)
    ensures IsSubseq(Filter(s, p), s)
  {
    if s != [] {
      FilterIsSubseq(s[1..], p);
      var t := Filter(s[1..], p);
      if p(s[0]) {
        var a := [s[0]] + t;
        assert Filter(s, p) == a;
        assert a[0] == s[0] && a[1..] == t;
        assert IsSubseq(t, s[1..]);
      } else {
        assert Filter(s, p) == [] + t == t;
        SubseqOfTail(t, s);
      }
    }
  }

  /** `a` is `b` with some elements left out, the others in their order in `b`. */
  predicate IsSubseq<T(==)>(a: seq<T>, b: seq<T>)
    decreases |b|
  {
    if a == [] then true
    else if b == [] then false
    else if a[0] == b[0] then IsSubseq(a[1..], b[1..])
    else IsSubseq(a, b[1..])
  }

  /** A subsequence of the tail is a subsequence of the whole. */
  lemma {:induction false} SubseqOfTail<T>(a: seq<T>, b: seq<T>)
    requires b != [] && IsSubseq(a, b[1..])
    ensures IsSubseq(a, b)
    decreases |b|, |a|
  {
    if a != [] && a[0] == b[0] {
      // `a[1..]` is a subsequence of `b[1..]` as well: drop the matched head.
      SubseqDropHead(a, b[1..]);
    }
  }

  /** Dropping the first element of a subsequence keeps it a subsequence. */
  lemma {:induction false} SubseqDropHead<T>(a: seq<T>, b: seq<T>)
    requires a != [] && IsSubseq(a, b)
    ensures IsSubseq(a[1..], b)
    decreases |b|, |a|
  {
    assert b != [];
    if a[0] != b[0] {
      SubseqDropHead(a, b[1..]);
      SubseqOfTail(a[1..], b);
    } else if a[1..] != [] {
      SubseqOfTail(a[1..], b);
    }
  }

  /** Every element of a subsequence is an element of the whole. */
  lemma {:induction false} SubseqElements<T>(a: seq<T>, b: seq<T>)
    requires IsSubseq(a, b)
    ensures forall x :: x in a ==> x in b
    decreases |b|
  {
    if a != [] {
      assert b != [];
      if a[0] == b[0] {
        SubseqElements(a[1..], b[1..]);
        assert forall x :: x in a ==> x == a[0] || x in a[1..];
      } else {
        SubseqElements(a, b[1..]);
      }
    }
  }

  // ---------------------------------------------------------------- concatenation

  /** `parts.flat()`: the parts one after the other. */
  function Concat<T>(parts: seq<seq<T>>): seq<T>
  {
    if parts == [] then [] else Concat(parts[..|parts| - 1]) + parts[|parts| - 1]
  }

  /** An element of a concatenation is an element of one of its parts, and conversely. */
  lemma {:induction false} ConcatMembers<T>(parts: seq<seq<T>>, x: T)
    ensures x in Concat(parts) <==> exists j :: 0 <= j < |parts| && x in parts[j]
  {
    if parts != [] {
      var n := |parts|;
      var init := parts[..n - 1];
      assert Concat(parts) == Concat(init) + parts[n - 1];
      ConcatMembers(init, x);
      if x in Concat(parts) {
        if x !in parts[n - 1] {
          var j :| 0 <= j < |init| && x in init[j];
          assert parts[j] == init[j];
        }
      } else {
        forall j | 0 <= j < n
          ensures x !in parts[j]
        {
          if j < n - 1 {
            assert parts[j] == init[j];
          }
        }
      }
    }
  }

  // ---------------------------------------------------------------- stable sort

  /** Ordered non-increasing by `key`. */
  predicate SortedDesc<T(==)>(s: seq<T>, key: T -> real)
  {
    forall i, j :: 0 <= i < j < |s| ==> key(s[i]) >= key(s[j])
  }

  /** A sorted list stays sorted when an element no smaller than its head is put in front. */
  lemma SortedCons<T>(x: T, s: seq<T>, key: T -> real)
    requires SortedDesc(s, key)
    requires s == [] || key(x) >= key(s[0])
    ensures SortedDesc([x] + s, key)
  {
    var r := [x] + s;
    forall i, j | 0 <= i < j < |r|
      ensures key(r[i]) >= key(r[j])
    {
      if i == 0 && j > 1 {
        assert r[j] == s[j - 1] && key(s[0]) >= key(s[j - 1]);
      }
    }
  }

  /** Places `x` before the first element whose key is not greater than its own. */
  function Insert<T(==)>(x: T, s: seq<T>, key: T -> real): (r: seq<T>)
    requires SortedDesc(s, key)
    ensures SortedDesc(r, key)
    ensures multiset(r) == multiset(s) + multiset{x}
    ensures |r| == |s| + 1 && (r[0] == x || (s != [] && r[0] == s[0]))
  {
    if s == [] || key(x) >= key(s[0]) then
      SortedCons(x, s, key);
      [x] + s
    else
      SortedTail(s, key);
      var t := Insert(x, s[1..], key);
      InsertStep(x, s, t, key);
      [s[0]] + t
  }

  /** The step of `Insert` that keeps the head of `s` in front of the insertion into its tail. */
  lemma InsertStep<T>(x: T, s: seq<T>, t: seq<T>, key: T -> real)
    requires SortedDesc(s, key) && s != [] && key(x) < key(s[0])
    requires SortedDesc(t, key) && multiset(t) == multiset(s[1..]) + multiset{x}
    requires t != [] && (t[0] == x || (|s| > 1 && t[0] == s[1]))
    ensures SortedDesc([s[0]] + t, key)
    ensures multiset([s[0]] + t) == multiset(s) + multiset{x}
  {
    assert key(s[0]) >= key(t[0]) by {
      if |s| > 1 {
        assert key(s[0]) >= key(s[1]);
      }
    }
    SortedCons(s[0], t, key);
    assert s == [s[0]] + s[1..];
  }

  /** The tail of a sorted list is sorted. */
  lemma SortedTail<T>(s: seq<T>, key: T -> real)
    requires SortedDesc(s, key) && s != []
    ensures SortedDesc(s[1..], key)
  {
    forall i, j | 0 <= i < j < |s| - 1
      ensures key(s[1..][i]) >= key(s[1..][j])
    {
      assert s[1..][i] == s[i + 1] && s[1..][j] == s[j + 1];
    }
  }

  /**
   * `s.sort((a, b) => key(b) - key(a))`: a permutation of `s`, non-increasing by `key`,
   * that keeps elements with equal keys in their original order (see `SortDescStable`).
   */
  function SortDesc<T(==)>(s: seq<T>, key: T -> real): (r: seq<T>)
    ensures SortedDesc(r, key)
    ensures multiset(r) == multiset(s)
    ensures |r| == |s|
  {
    if s == [] then []
    else
      assert multiset(s) == multiset{s[0]} + multiset(s[1..]) by { assert s == [s[0]] + s[1..]; }
      Insert(s[0], SortDesc(s[1..], key), key)
  }

  /** The elements whose key is `v`, in their order in `s`. */
  function OfKey<T>(s: seq<T>, key: T -> real, v: real): seq<T>
  {
    if s == [] then []
    else (if key(s[0]) == v then [s[0]] else []) + OfKey(s[1..], key, v)
  }

  /** `OfKey` of a list with a first element. */
  lemma OfKeyCons<T>(y: T, t: seq<T>, key: T -> real, v: real)
    ensures OfKey([y] + t, key, v) == (if key(y) == v then [y] else []) + OfKey(t, key, v)
  {
    assert ([y] + t)[0] == y && ([y] + t)[1..] == t;
  }

  /** Inserting `x` into a sorted list does not reorder it among the elements of its own key. */
  lemma {:induction false} InsertStable<T>(x: T, s: seq<T>, key: T -> real, v: real)
    requires SortedDesc(s, key)
    ensures OfKey(Insert(x, s, key), key, v) == (if key(x) == v then [x] else []) + OfKey(s, key, v)
  {
    if s == [] || key(x) >= key(s[0]) {
      OfKeyCons(x, s, key, v);
    } else {
      SortedTail(s, key);
      var t := Insert(x, s[1..], key);
      InsertStable(x, s[1..], key, v);
      OfKeyCons(s[0], t, key, v);
      OfKeyCons(s[0], s[1..], key, v);
      assert [s[0]] + s[1..] == s;
    }
  }

  /** The sort is stable: among the elements of any one key, the order is the input order. */
  lemma {:induction false} SortDescStable<T>(s: seq<T>, key: T -> real, v: real)
    ensures OfKey(SortDesc(s, key), key, v) == OfKey(s, key, v)
  {
    if s != [] {
      SortDescStable(s[1..], key, v);
      InsertStable(s[0], SortDesc(s[1..], key), key, v);
    }
  }

  /** Taking the first `n` of a sorted list keeps the `n` highest keys. */
  lemma {:induction false} TakeSortedIsTop<T>(s: seq<T>, key: T -> real, n: nat)
    ensures var r := Take(SortDesc(s, key), n);
      && |r| == (if n < |s| then n else |s|)
      && SortedDesc(r, key)
      && multiset(r) <= multiset(s)
      && forall x, y :: x in r && y in s && y !in r ==> key(x) >= key(y)
  {
    var all := SortDesc(s, key);
    var r := Take(all, n);
    var rest := all[|r|..];
    assert all == r + rest;
    assert multiset(all) == multiset(r) + multiset(rest);
    SortedSplit(all, key, r, rest);
    forall y | y in s && y !in r
      ensures y in rest
    {
      assert y in multiset(all);
    }
  }

  /** In a sorted list cut in two, every element of the front ranks at least as high as every element of the back. */
  lemma SortedSplit<T>(all: seq<T>, key: T -> real, front: seq<T>, back: seq<T>)
    requires SortedDesc(all, key) && all == front + back
    ensures SortedDesc(front, key)
    ensures forall x, y :: x in front && y in back ==> key(x) >= key(y)
  {
    forall x, y | x in front && y in back
      ensures key(x) >= key(y)
    {
      var i :| 0 <= i < |front| && front[i] == x;
      var j :| 0 <= j < |back| && back[j] == y;
      assert all[i] == x && all[|front| + j] == y;
    }
    forall i, j | 0 <= i < j < |front|
      ensures key(front[i]) >= key(front[j])
    {
      assert all[i] == front[i] && all[j] == front[j];
    }
  }

  // ---------------------------------------------------------------- first-occurrence dedup

  /** No two elements share a key. */
  predicate DistinctKeys<T(==), K(==)>(s: seq<T>, key: T -> K)
  {
    forall i, j :: 0 <= i < j < |s| ==> key(s[i]) != key(s[j])
  }

  /** No element occurs twice. */
  predicate NoDup<T(==)>(s: seq<T>)
  {
    forall i, j :: 0 <= i < j < |s| ==> s[i] != s[j]
  }

  /** The keys of the elements of `s`. */
  function Keys<T(==), K(==)>(s: seq<T>, key: T -> K): set<K>
  {
    set x | x in s :: key(x)
  }

  /** The first element of `s` whose key is `k`. */
  function FirstWithKey<T(==), K(==)>(s: seq<T>, key: T -> K, k: K): (x: T)
    requires k in Keys(s, key)
    ensures x in s && key(x) == k
  {
    if key(s[0]) == k then s[0]
    else
      assert k in Keys(s[1..], key) by {
        var y :| y in s && key(y) == k;
        assert y != s[0];
      }
      FirstWithKey(s[1..], key, k)
  }

  /** Walks `s` with a `seen` set of keys, keeping an element only when its key is unseen. */
  function DedupFrom<T(==), K(==)>(s: seq<T>, key: T -> K, seen: set<K>): (r: seq<T>)
    ensures |r| <= |s|
  {
    if s == [] then []
    else if key(s[0]) in seen then DedupFrom(s[1..], key, seen)
    else [s[0]] + DedupFrom(s[1..], key, seen + {key(s[0])})
  }

  /** First-occurrence de-duplication by key, starting with nothing seen. */
  function Dedup<T(==), K(==)>(s: seq<T>, key: T -> K): seq<T>
  {
    DedupFrom(s, key, {})
  }

  /**
   * What `DedupFrom` keeps: a subsequence of the input with pairwise different keys, none
   * of them already seen, covering every key of the input that was not seen, each key
   * represented by its first element in the input.
   */
  lemma {:induction false} DedupFromMeaning<T, K>(s: seq<T>, key: T -> K, seen: set<K>)
    ensures var r := DedupFrom(s, key, seen);
      && IsSubseq(r, s)
      && DistinctKeys(r, key)
      && Keys(r, key) == Keys(s, key) - seen
      && forall x :: x in r ==> key(x) in Keys(s, key) && x == FirstWithKey(s, key, key(x))
  {
    var r := DedupFrom(s, key, seen);
    if s != [] {
      var k0 := key(s[0]);
      assert s == [s[0]] + s[1..];
      assert Keys(s, key) == {k0} + Keys(s[1..], key);
      if k0 in seen {
        DedupFromMeaning(s[1..], key, seen);
        SubseqOfTail(r, s);
        forall x | x in r
          ensures key(x) in Keys(s, key) && x == FirstWithKey(s, key, key(x))
        {
          assert key(x) in Keys(r, key);
        }
      } else {
        var seen' := seen + {k0};
        var t := DedupFrom(s[1..], key, seen');
        DedupFromMeaning(s[1..], key, seen');
        assert r == [s[0]] + t && r[1..] == t;
        assert Keys(r, key) == {k0} + Keys(t, key);
        forall i, j | 0 <= i < j < |r|
          ensures key(r[i]) != key(r[j])
        {
          if i == 0 {
            assert r[j] in t;
            assert key(r[j]) in Keys(t, key);
          }
        }
        forall x | x in r
          ensures key(x) in Keys(s, key) && x == FirstWithKey(s, key, key(x))
        {
          if x != s[0] {
            assert x in t;
            assert key(x) in Keys(t, key);
          }
        }
      }
    }
  }

  /** `Dedup` keeps the first element of each key, in input order, and nothing else. */
  lemma DedupMeaning<T, K>(s: seq<T>, key: T -> K)
    ensures var r := Dedup(s, key);
      && IsSubseq(r, s)
      && DistinctKeys(r, key)
      && Keys(r, key) == Keys(s, key)
      && forall x :: x in r ==> key(x) in Keys(s, key) && x == FirstWithKey(s, key, key(x))
  {
    DedupFromMeaning(s, key, {});
  }

  /** The keys of a list with one more element. */
  lemma KeysSnoc<T, K>(s: seq<T>, x: T, key: T -> K)
    ensures Keys(s + [x], key) == Keys(s, key) + {key(x)}
  {
    assert forall y :: y in s + [x] <==> y in s || y == x;
  }

  /** Walking one more element: it is kept exactly when its key was not seen before. */
  lemma {:induction false} DedupFromSnoc<T, K>(s: seq<T>, x: T, key: T -> K, seen: set<K>)
    ensures DedupFrom(s + [x], key, seen)
         == DedupFrom(s, key, seen) + (if key(x) in seen + Keys(s, key) then [] else [x])
  {
    if s == [] {
      assert [] + [x] == [x];
      assert [x][1..] == [];
    } else {
      var k0 := key(s[0]);
      assert (s + [x])[0] == s[0] && (s + [x])[1..] == s[1..] + [x];
      assert s == [s[0]] + s[1..];
      assert Keys(s, key) == {k0} + Keys(s[1..], key) by {
        assert forall y :: y in s <==> y == s[0] || y in s[1..];
      }
      if k0 in seen {
        DedupFromSnoc(s[1..], x, key, seen);
      } else {
        DedupFromSnoc(s[1..], x, key, seen + {k0});
      }
    }
  }

  /** `Dedup` of a list with one more element. */
  lemma DedupSnoc<T, K>(s: seq<T>, x: T, key: T -> K)
    ensures Dedup(s + [x], key) == Dedup(s, key) + (if key(x) in Keys(s, key) then [] else [x])
  {
    DedupFromSnoc(s, x, key, {});
  }

  /**
   * The hand-written loop: a `seen` set of keys, and `push` of every element whose key
   * was not seen yet.
   */
  method DedupByKey<T(==), K(==)>(s: seq<T>, key: T -> K) returns (r: seq<T>)
    ensures r == Dedup(s, key)
    ensures DistinctKeys(r, key) && Keys(r, key) == Keys(s, key)
  {
    var seen: set<K> := {};
    r := [];
    var i := 0;
    while i < |s|
      invariant 0 <= i <= |s|
      invariant r + DedupFrom(s[i..], key, seen) == Dedup(s, key)
    {
      var x := s[i];
      assert s[i..] == [x] + s[i + 1..];
      if key(x) !in seen {
        seen := seen + {key(x)};
        r := r + [x];
      }
      i := i + 1;
    }
    DedupMeaning(s, key);
  }
}
