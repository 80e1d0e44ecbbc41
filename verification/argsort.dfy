/** Ordering a sequence of keys by index ("argsort").

    `pareto_plot` in process_improve/plotting.py sorts the magnitudes of the
    coefficients and applies the ordering permutation to every parallel column.
    This module builds that permutation as a stable insertion sort on indices
    and proves the three things the ranking relies on: the result is a
    permutation of 0..n-1, it orders the keys ascending, and equal keys keep
    their input order. `Gather` applies a permutation to a column. */
module Ranking {

  /** The indices 0, 1, ..., n-1 in order. */
  function Iota(n: nat): (r: seq<nat>)
    ensures |r| == n
    ensures forall k :: 0 <= k < n ==> r[k] == k
  {
    if n == 0 then [] else Iota(n - 1) + [n - 1]
  }

  /** Every entry of `order` is an index into a sequence of length n. */
  ghost predicate InRange(order: seq<nat>, n: nat)
  {
    forall k :: 0 <= k < |order| ==> order[k] < n
  }

  /** `order` lists each of 0..n-1 exactly once. */
  ghost predicate IsPermutation(order: seq<nat>, n: nat)
  {
    multiset(order) == multiset(Iota(n))
  }

  /** The keys visited in the order `order` gives are non-decreasing. */
  ghost predicate Ascending(keys: seq<real>, order: seq<nat>)
  {
    InRange(order, |keys|) &&
    forall a, b :: 0 <= a < b < |order| ==> keys[order[a]] <= keys[order[b]]
  }

  /** Of two positions whose keys tie, the earlier holds the smaller index. */
  ghost predicate StableTies(keys: seq<real>, order: seq<nat>)
  {
    InRange(order, |keys|) &&
    forall a, b :: 0 <= a < b < |order| && keys[order[a]] == keys[order[b]] ==> order[a] < order[b]
  }

  /** `Iota(n)` holds each index below n once and nothing else. */
  lemma {:induction false} IotaCount(n: nat, x: nat)
    ensures multiset(Iota(n))[x] == if x < n then 1 else 0
  {
    if n > 0 {
      var last: nat := n - 1;
      IotaCount(last, x);
      assert Iota(n) == Iota(last) + [last];
    }
  }

  /** A permutation of 0..n-1 has length n, stays in range, and holds every
      index exactly once. */
  lemma PermutationFacts(order: seq<nat>, n: nat)
    requires IsPermutation(order, n)
    ensures |order| == n
    ensures InRange(order, n)
    ensures forall i: nat :: i < n ==> multiset(order)[i] == 1
  {
    assert |order| == |multiset(order)| == |multiset(Iota(n))| == n;
    forall k | 0 <= k < |order| ensures order[k] < n {
      assert order[k] in multiset(order);
      IotaCount(n, order[k]);
    }
    forall i: nat | i < n ensures multiset(order)[i] == 1 {
      IotaCount(n, i);
    }
  }

  /** Inserts index i into an ordering, after every index whose key is at
      most `keys[i]` that precedes the first larger key. */
  function Insert(keys: seq<real>, order: seq<nat>, i: nat): (r: seq<nat>)
    requires i < |keys| && InRange(order, |keys|)
    ensures InRange(r, |keys|)
    ensures |r| == |order| + 1
    ensures multiset(r) == multiset(order) + multiset{i}
    decreases |order|
  {
    if order == [] then [i]
    else if keys[i] < keys[order[0]] then [i] + order
    else
      assert order == [order[0]] + order[1..];
      [order[0]] + Insert(keys, order[1..], i)
  }

  /** Sorts the indices 0..k-1 by key. */
  function SortPrefix(keys: seq<real>, k: nat): (r: seq<nat>)
    requires k <= |keys|
    ensures InRange(r, |keys|)
    ensures |r| == k
  {
    if k == 0 then [] else Insert(keys, SortPrefix(keys, k - 1), k - 1)
  }

  /** Sorting the first k indices gives a permutation of 0..k-1. */
  lemma {:induction false} SortPrefixPermutation(keys: seq<real>, k: nat)
    requires k <= |keys|
    ensures IsPermutation(SortPrefix(keys, k), k)
  {
    if k > 0 {
      var last: nat := k - 1;
      SortPrefixPermutation(keys, last);
      assert SortPrefix(keys, k) == Insert(keys, SortPrefix(keys, last), last);
      assert Iota(k) == Iota(last) + [last];
    }
  }

  /** The stable argsort of `keys`: a permutation of its indices. */
  function ArgSort(keys: seq<real>): (r: seq<nat>)
    ensures IsPermutation(r, |keys|)
    ensures InRange(r, |keys|)
  {
    SortPrefixPermutation(keys, |keys|);
    SortPrefix(keys, |keys|)
  }

  /** Every element of an insertion is the inserted index or an old element. */
  lemma InsertMember(keys: seq<real>, order: seq<nat>, i: nat, x: nat)
    requires i < |keys| && InRange(order, |keys|)
    requires x in Insert(keys, order, i)
    ensures x == i || x in order
  {
    assert x in multiset(Insert(keys, order, i));
  }

  /** Insertion keeps an ascending ordering ascending. */
  lemma {:induction false} InsertAscending(keys: seq<real>, order: seq<nat>, i: nat)
    requires i < |keys| && Ascending(keys, order)
    ensures Ascending(keys, Insert(keys, order, i))
  {
    if order != [] && keys[order[0]] <= keys[i] {
      var tail := order[1..];
      InsertAscending(keys, tail, i);
      var rest := Insert(keys, tail, i);
      forall b | 0 <= b < |rest| ensures keys[order[0]] <= keys[rest[b]] {
        InsertMember(keys, tail, i, rest[b]);
        if rest[b] != i {
          var c :| 0 <= c < |tail| && tail[c] == rest[b];
          assert order[c + 1] == rest[b];
        }
      }
      assert Insert(keys, order, i) == [order[0]] + rest;
    }
  }

  /** Sorting a prefix yields an ascending ordering. */
  lemma {:induction false} SortPrefixAscending(keys: seq<real>, k: nat)
    requires k <= |keys|
    ensures Ascending(keys, SortPrefix(keys, k))
  {
    if k > 0 {
      SortPrefixAscending(keys, k - 1);
      InsertAscending(keys, SortPrefix(keys, k - 1), k - 1);
    }
  }

  /** `ArgSort` orders the keys from smallest to largest. */
  lemma ArgSortAscending(keys: seq<real>)
    ensures Ascending(keys, ArgSort(keys))
  {
    SortPrefixAscending(keys, |keys|);
  }

  /** Putting index x in front of a stable ordering keeps it stable when x is
      smaller than every later index with the same key. */
  lemma StableCons(keys: seq<real>, x: nat, rest: seq<nat>)
    requires x < |keys| && StableTies(keys, rest)
    requires forall b :: 0 <= b < |rest| && keys[x] == keys[rest[b]] ==> x < rest[b]
    ensures StableTies(keys, [x] + rest)
  {
    var order := [x] + rest;
    assert forall b :: 0 <= b < |rest| ==> order[b + 1] == rest[b];
  }

  /** Inserting an index larger than every index already placed keeps ties
      in index order. */
  lemma {:induction false} InsertStable(keys: seq<real>, order: seq<nat>, i: nat)
    requires i < |keys| && Ascending(keys, order) && StableTies(keys, order)
    requires forall x :: x in order ==> x < i
    ensures StableTies(keys, Insert(keys, order, i))
  {
    if order == [] {
      assert Insert(keys, order, i) == [i];
    } else if keys[i] < keys[order[0]] {
      forall b | 0 <= b < |order| ensures keys[i] < keys[order[b]] {
        assert keys[order[0]] <= keys[order[b]];
      }
      StableCons(keys, i, order);
    } else {
      var tail := order[1..];
      assert Ascending(keys, tail) && StableTies(keys, tail);
      forall x | x in tail ensures x < i {
        assert x in order;
      }
      InsertStable(keys, tail, i);
      var rest := Insert(keys, tail, i);
      assert order[0] in order;
      forall b | 0 <= b < |rest| && keys[order[0]] == keys[rest[b]] ensures order[0] < rest[b] {
        InsertMember(keys, tail, i, rest[b]);
        if rest[b] != i {
          var c :| 0 <= c < |tail| && tail[c] == rest[b];
          assert order[c + 1] == rest[b];
        }
      }
      StableCons(keys, order[0], rest);
    }
  }

  /** Sorting the first k indices places only indices below k. */
  lemma SortPrefixBelow(keys: seq<real>, k: nat)
    requires k <= |keys|
    ensures forall x :: x in SortPrefix(keys, k) ==> x < k
  {
    var prev := SortPrefix(keys, k);
    SortPrefixPermutation(keys, k);
    forall x | x in prev ensures x < k {
      assert x in multiset(prev);
      IotaCount(k, x);
    }
  }

  /** Sorting a prefix keeps ties in index order. */
  lemma {:induction false} SortPrefixStable(keys: seq<real>, k: nat)
    requires k <= |keys|
    ensures StableTies(keys, SortPrefix(keys, k))
  {
    if k > 0 {
      var last: nat := k - 1;
      var prev := SortPrefix(keys, last);
      SortPrefixStable(keys, last);
      SortPrefixAscending(keys, last);
      SortPrefixBelow(keys, last);
      InsertStable(keys, prev, last);
      assert SortPrefix(keys, k) == Insert(keys, prev, last);
    }
  }

  /** Among equal keys, `ArgSort` keeps the input order. */
  lemma ArgSortStable(keys: seq<real>)
    ensures StableTies(keys, ArgSort(keys))
  {
    SortPrefixStable(keys, |keys|);
  }

  /** The column `s` reordered by `order`: `[s[i] for i in order]`. */
  function Gather<T>(s: seq<T>, order: seq<nat>): (r: seq<T>)
    requires InRange(order, |s|)
    ensures |r| == |order|
    ensures forall k :: 0 <= k < |order| ==> r[k] == s[order[k]]
  {
    seq(|order|, k requires 0 <= k < |order| => s[order[k]])
  }

  /** Gathering through an ordering with a first index peels off that element. */
  lemma GatherCons<T>(s: seq<T>, x: nat, rest: seq<nat>)
    requires x < |s| && InRange(rest, |s|)
    ensures InRange([x] + rest, |s|)
    ensures Gather(s, [x] + rest) == [s[x]] + Gather(s, rest)
  {
    var order := [x] + rest;
    assert forall k :: 0 <= k < |rest| ==> order[k + 1] == rest[k];
  }

  /** Gathering through an insertion adds the inserted element. */
  lemma {:induction false} GatherInsert<T>(s: seq<T>, keys: seq<real>, order: seq<nat>, i: nat)
    requires |s| == |keys| && i < |keys| && InRange(order, |keys|)
    ensures multiset(Gather(s, Insert(keys, order, i))) == multiset(Gather(s, order)) + multiset{s[i]}
    decreases |order|
  {
    if order == [] {
      GatherCons(s, i, []);
      assert Insert(keys, order, i) == [i] + [];
    } else if keys[i] < keys[order[0]] {
      GatherCons(s, i, order);
    } else {
      var tail := order[1..];
      GatherInsert(s, keys, tail, i);
      GatherCons(s, order[0], Insert(keys, tail, i));
      assert order == [order[0]] + tail;
      GatherCons(s, order[0], tail);
    }
  }

  /** The first k+1 elements are the first k and element k. */
  lemma PrefixStep<T>(s: seq<T>, k: nat)
    requires k < |s|
    ensures multiset(s[..k + 1]) == multiset(s[..k]) + multiset{s[k]}
  {
    assert s[..k + 1] == s[..k] + [s[k]];
  }

  /** Gathering the first k elements through the sorted prefix permutes them. */
  lemma {:induction false} GatherSortPrefix<T>(s: seq<T>, keys: seq<real>, k: nat)
    requires |s| == |keys| && k <= |keys|
    ensures multiset(Gather(s, SortPrefix(keys, k))) == multiset(s[..k])
  {
    if k > 0 {
      var last: nat := k - 1;
      var prev := SortPrefix(keys, last);
      GatherSortPrefix(s, keys, last);
      GatherInsert(s, keys, prev, last);
      PrefixStep(s, last);
      assert SortPrefix(keys, k) == Insert(keys, prev, last);
    }
  }

  /** Reordering any column by the argsort of parallel keys loses and
      duplicates nothing. */
  lemma GatherArgSortPermutes<T>(s: seq<T>, keys: seq<real>)
    requires |s| == |keys|
    ensures multiset(Gather(s, ArgSort(keys))) == multiset(s)
  {
    GatherSortPrefix(s, keys, |keys|);
    assert s[..|keys|] == s;
  }
}
