/**
 * A descending sort on an integer key. The store sorts twice with it: game
 * records newest first, and per-player tallies by wins. The order among
 * elements of equal key is whatever insertion yields; nothing below depends
 * on it.
 */
module Sorting {

  /** Keys never increase from left to right. */
  predicate SortedDesc<T>(s: seq<T>, key: T -> int) {
    forall i, j :: 0 <= i < j < |s| ==> key(s[i]) >= key(s[j])
  }

  /** No two elements have the same image under `f`. */
  ghost predicate DistinctBy<T, K>(s: seq<T>, f: T -> K) {
    forall i, j :: 0 <= i < j < |s| ==> f(s[i]) != f(s[j])
  }

  /** The sum of the keys of all elements. */
  function KeySum<T>(s: seq<T>, key: T -> int): int {
    if s == [] then 0 else key(s[0]) + KeySum(s[1..], key)
  }

  /** Inserts `x` into a sorted sequence, before the first element with a smaller key. */
  function Insert<T>(x: T, s: seq<T>, key: T -> int): (r: seq<T>)
    requires SortedDesc(s, key)
    ensures multiset(r) == multiset(s) + multiset{x}
    ensures SortedDesc(r, key)
    ensures KeySum(r, key) == key(x) + KeySum(s, key)
  {
    if s == [] || key(x) >= key(s[0]) then
      ConsFront(x, s, key);
      [x] + s
    else
      var rest := Insert(x, s[1..], key);
      assert s == [s[0]] + s[1..];
      ConsInserted(s[0], s[1..], x, rest, key);
      [s[0]] + rest
  }

  /** `x` in front of a sorted sequence whose keys it dominates. */
  lemma ConsFront<T>(x: T, s: seq<T>, key: T -> int)
    requires SortedDesc(s, key) && (s == [] || key(x) >= key(s[0]))
    ensures SortedDesc([x] + s, key)
    ensures KeySum([x] + s, key) == key(x) + KeySum(s, key)
  {
    assert ([x] + s)[1..] == s;
  }

  /**
   * If `rest` is a sorted arrangement of `t` and `x`, and `h` heads the
   * sorted sequence `[h] + t` with a key above that of `x`, then `[h] + rest`
   * is a sorted arrangement of `[h] + t` and `x`.
   */
  lemma ConsInserted<T>(h: T, t: seq<T>, x: T, rest: seq<T>, key: T -> int)
    requires SortedDesc([h] + t, key) && key(x) < key(h)
    requires SortedDesc(rest, key) && multiset(rest) == multiset(t) + multiset{x}
    requires KeySum(rest, key) == key(x) + KeySum(t, key)
    ensures multiset([h] + rest) == multiset([h] + t) + multiset{x}
    ensures SortedDesc([h] + rest, key)
    ensures KeySum([h] + rest, key) == key(x) + KeySum([h] + t, key)
  {
    assert ([h] + rest)[1..] == rest;
    assert ([h] + t)[1..] == t;
    forall k | 0 <= k < |t| ensures key(t[k]) <= key(h) {
      assert ([h] + t)[k + 1] == t[k];
    }
    ConsSorted(h, rest, key, x, t);
  }

  /**
   * A sorted sequence whose elements are `x` and those of `t` stays sorted
   * when an element whose key dominates `x` and all of `t` is put in front.
   */
  lemma ConsSorted<T>(h: T, rest: seq<T>, key: T -> int, x: T, t: seq<T>)
    requires SortedDesc(rest, key) && multiset(rest) == multiset(t) + multiset{x}
    requires key(x) <= key(h) && forall k :: 0 <= k < |t| ==> key(t[k]) <= key(h)
    ensures SortedDesc([h] + rest, key)
  {
    forall k | 0 <= k < |rest| ensures key(rest[k]) <= key(h) {
      assert rest[k] in multiset(rest);
      if rest[k] != x {
        assert rest[k] in t;
      }
    }
  }

  /** An element whose key is below every key of `s` goes at the end. */
  lemma {:induction false} InsertSmallest<T>(x: T, s: seq<T>, key: T -> int)
    requires SortedDesc(s, key) && forall k :: 0 <= k < |s| ==> key(x) < key(s[k])
    ensures Insert(x, s, key) == s + [x]
  {
    if s != [] {
      InsertSmallest(x, s[1..], key);
      assert s == [s[0]] + s[1..];
    }
  }

  /** Insertion sort, largest key first. */
  function SortDesc<T>(s: seq<T>, key: T -> int): (r: seq<T>)
    ensures multiset(r) == multiset(s) && |r| == |s|
    ensures SortedDesc(r, key)
    ensures KeySum(r, key) == KeySum(s, key)
  {
    if s == [] then
      []
    else
      assert s == [s[0]] + s[1..];
      Insert(s[0], SortDesc(s[1..], key), key)
  }

  /** Inserting an element whose image is new keeps the images distinct. */
  lemma {:induction false} InsertKeepsDistinct<T, K>(x: T, s: seq<T>, key: T -> int, f: T -> K)
    requires SortedDesc(s, key) && DistinctBy(s, f)
    requires forall y :: y in s ==> f(y) != f(x)
    ensures DistinctBy(Insert(x, s, key), f)
  {
    if s == [] || key(x) >= key(s[0]) {
      ConsDistinct(x, s, f);
    } else {
      var rest := Insert(x, s[1..], key);
      assert s == [s[0]] + s[1..];
      InsertKeepsDistinct(x, s[1..], key, f);
      NewImage(s[0], rest, f, x, s[1..]);
      ConsDistinct(s[0], rest, f);
    }
  }

  /** Putting in front an element whose image is new keeps the images distinct. */
  lemma ConsDistinct<T, K>(h: T, s: seq<T>, f: T -> K)
    requires DistinctBy(s, f) && forall y :: y in s ==> f(y) != f(h)
    ensures DistinctBy([h] + s, f)
  {
    var r := [h] + s;
    forall i, j | 0 <= i < j < |r| ensures f(r[i]) != f(r[j]) {
      assert r[j] == s[j - 1];
      if i > 0 {
        assert r[i] == s[i - 1];
      }
    }
  }

  /** An image missing from `t` and different from that of `x` is missing from any rearrangement of `t` and `x`. */
  lemma NewImage<T, K>(h: T, rest: seq<T>, f: T -> K, x: T, t: seq<T>)
    requires multiset(rest) == multiset(t) + multiset{x}
    requires f(x) != f(h) && forall y :: y in t ==> f(y) != f(h)
    ensures forall y :: y in rest ==> f(y) != f(h)
  {
    forall y | y in rest ensures f(y) != f(h) {
      assert y in multiset(rest);
      if y != x {
        assert y in multiset(t);
      }
    }
  }

  /** Sorting keeps a sequence free of duplicate images under `f`. */
  lemma {:induction false} SortKeepsDistinct<T, K>(s: seq<T>, key: T -> int, f: T -> K)
    requires DistinctBy(s, f)
    ensures DistinctBy(SortDesc(s, key), f)
  {
    if s != [] {
      SortKeepsDistinct(s[1..], key, f);
      var sorted := SortDesc(s[1..], key);
      assert forall y :: y in sorted ==> y in multiset(s[1..]);
      InsertKeepsDistinct(s[0], sorted, key, f);
    }
  }

  /**
   * In a sorted sequence, whatever a prefix leaves out has a key no larger
   * than any key in the prefix.
   */
  lemma PrefixHoldsLargest<T>(s: seq<T>, n: nat, key: T -> int)
    requires SortedDesc(s, key) && n <= |s|
    ensures forall y, k :: y in multiset(s) - multiset(s[..n]) && 0 <= k < n ==> key(y) <= key(s[k])
  {
    assert s == s[..n] + s[n..];
    assert multiset(s) - multiset(s[..n]) == multiset(s[n..]);
    forall y, k | y in multiset(s) - multiset(s[..n]) && 0 <= k < n
      ensures key(y) <= key(s[k])
    {
      assert y in s[n..];
      var j :| n <= j < |s| && s[j] == y;
    }
  }
}
