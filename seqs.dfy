/**
 * The array operations the statistics code is built from: `reduce` sums,
 * `Math.max(...xs)`, the arithmetic mean, `filter`, and `sort` with a numeric
 * comparator (a stable sort, as ECMAScript 2019 requires of `Array.prototype.sort`).
 */
module Seqs {

  /** `xs.reduce((acc, x) => acc + x, 0)` over exact reals, folded from the left. */
  function Sum(xs: seq<real>): real {
    if xs == [] then 0.0 else Sum(xs[..|xs| - 1]) + xs[|xs| - 1]
  }

  lemma SumAppend(xs: seq<real>, x: real)
    ensures Sum(xs + [x]) == Sum(xs) + x
  {
    assert (xs + [x])[..|xs|] == xs;
  }

  /** A sum of values that are all at most `m` is at most `|xs| * m`, and at least `|xs| * lo` when all are at least `lo`. */
  lemma {:induction false} SumBounds(xs: seq<real>, lo: real, m: real)
    requires forall k :: 0 <= k < |xs| ==> lo <= xs[k] <= m
    ensures |xs| as real * lo <= Sum(xs) <= |xs| as real * m
  {
    if xs != [] {
      var n := |xs| - 1;
      SumBounds(xs[..n], lo, m);
      assert (n + 1) as real * m == n as real * m + m;
      assert (n + 1) as real * lo == n as real * lo + lo;
    }
  }

  /** `Math.max(...xs)` for a non-empty list: an element that no element exceeds. */
  function Max(xs: seq<real>): (m: real)
    requires xs != []
    ensures m in xs
    ensures forall k :: 0 <= k < |xs| ==> xs[k] <= m
  {
    if |xs| == 1 then xs[0]
    else
      var m := Max(xs[..|xs| - 1]);
      assert forall k :: 0 <= k < |xs| - 1 ==> xs[..|xs| - 1][k] == xs[k];
      if xs[|xs| - 1] > m then xs[|xs| - 1] else m
  }

  /** The arithmetic mean `Sum(xs) / xs.length` of a non-empty list. */
  function Mean(xs: seq<real>): real
    requires xs != []
  {
    Sum(xs) / |xs| as real
  }

  /** The mean never exceeds the maximum. */
  lemma MeanAtMostMax(xs: seq<real>)
    requires xs != []
    ensures Mean(xs) <= Max(xs)
  {
    MeanBetween(xs, MinOf(xs), Max(xs));
  }

  /** The mean of values in [lo, hi] lies in [lo, hi]. */
  lemma MeanBetween(xs: seq<real>, lo: real, hi: real)
    requires xs != []
    requires forall k :: 0 <= k < |xs| ==> lo <= xs[k] <= hi
    ensures lo <= Mean(xs) <= hi
  {
    SumBounds(xs, lo, hi);
    var n := |xs| as real;
    assert n * lo <= Sum(xs) <= n * hi;
    DivideBounds(Sum(xs), n, lo, hi);
  }

  lemma DivideBounds(s: real, n: real, lo: real, hi: real)
    requires n > 0.0 && n * lo <= s <= n * hi
    ensures lo <= s / n <= hi
  {
    assert s / n * n == s;
  }

  /** The mean of a list whose values are all equal is that value. */
  lemma MeanOfConstant(xs: seq<real>, c: real)
    requires xs != []
    requires forall k :: 0 <= k < |xs| ==> xs[k] == c
    ensures Mean(xs) == c
  {
    MeanBetween(xs, c, c);
  }

  /** The least element of a non-empty list. */
  function MinOf(xs: seq<real>): (m: real)
    requires xs != []
    ensures forall k :: 0 <= k < |xs| ==> m <= xs[k]
  {
    if |xs| == 1 then xs[0]
    else
      var m := MinOf(xs[..|xs| - 1]);
      assert forall k :: 0 <= k < |xs| - 1 ==> xs[..|xs| - 1][k] == xs[k];
      if xs[|xs| - 1] < m then xs[|xs| - 1] else m
  }

  /** `s.filter(p)`: the elements satisfying `p`, in their original order. */
  function Filter<T>(s: seq<T>, p: T -> bool): (r: seq<T>)
    ensures |r| <= |s|
    ensures forall x :: x in r ==> x in s && p(x)
  {
    if s == [] then [] else (if p(s[0]) then [s[0]] else []) + Filter(s[1..], p)
  }

  /** An element is kept by `Filter` exactly when it occurs in the input and satisfies the predicate. */
  lemma {:induction false} FilterMembership<T>(s: seq<T>, p: T -> bool, x: T)
    ensures x in Filter(s, p) <==> x in s && p(x)
  {
    if s != [] {
      FilterMembership(s[1..], p, x);
      assert x in s <==> x == s[0] || x in s[1..];
    }
  }

  /** `Filter` keeps every copy of an element it accepts and none of one it rejects. */
  lemma {:induction false} FilterMultiset<T>(s: seq<T>, p: T -> bool)
    ensures forall x :: multiset(Filter(s, p))[x] == if p(x) then multiset(s)[x] else 0
  {
    if s != [] {
      FilterMultiset(s[1..], p);
      assert s == [s[0]] + s[1..];
      assert Filter(s, p) == (if p(s[0]) then [s[0]] else []) + Filter(s[1..], p);
    }
  }

  /** A predicate that holds of every element keeps the whole list, in order. */
  lemma {:induction false} FilterKeepsAll<T>(s: seq<T>, p: T -> bool)
    requires forall k :: 0 <= k < |s| ==> p(s[k])
    ensures Filter(s, p) == s
  {
    if s != [] {
      FilterKeepsAll(s[1..], p);
      assert p(s[0]);
      assert s == [s[0]] + s[1..];
    }
  }

  /** Filtering a list extended at the end extends the filtered list the same way. */
  lemma {:induction false} FilterAppend<T>(s: seq<T>, x: T, p: T -> bool)
    ensures Filter(s + [x], p) == Filter(s, p) + (if p(x) then [x] else [])
  {
    if s != [] {
      assert (s + [x])[1..] == s[1..] + [x];
      FilterAppend(s[1..], x, p);
    } else {
      assert [x][1..] == [];
    }
  }

  /** `a` is `b` with some elements left out, the rest in their original order. */
  predicate IsSubsequence<T(==)>(a: seq<T>, b: seq<T>)
    decreases |b|
  {
    if a == [] then true
    else if b == [] then false
    else (a[0] == b[0] && IsSubsequence(a[1..], b[1..])) || IsSubsequence(a, b[1..])
  }

  /** `Filter` keeps relative order: its result is a subsequence of its input. */
  lemma {:induction false} FilterIsSubsequence<T>(s: seq<T>, p: T -> bool)
    ensures IsSubsequence(Filter(s, p), s)
  {
    if s != [] {
      FilterIsSubsequence(s[1..], p);
      var rest := Filter(s[1..], p);
      if p(s[0]) {
        assert Filter(s, p) == [s[0]] + rest;
        assert ([s[0]] + rest)[1..] == rest;
      } else {
        assert Filter(s, p) == rest;
      }
    }
  }

  /** A subsequence uses each element of the original at most as often as it occurs there. */
  lemma {:induction false} SubsequenceMultiset<T>(a: seq<T>, b: seq<T>)
    requires IsSubsequence(a, b)
    ensures multiset(a) <= multiset(b)
    decreases |b|
  {
    if a != [] {
      assert b == [b[0]] + b[1..];
      if a[0] == b[0] && IsSubsequence(a[1..], b[1..]) {
        SubsequenceMultiset(a[1..], b[1..]);
        assert a == [a[0]] + a[1..];
      } else {
        SubsequenceMultiset(a, b[1..]);
      }
    }
  }

  /** `key` never decreases along `s`. */
  predicate SortedBy<T>(s: seq<T>, key: T -> real) {
    forall i, j :: 0 <= i < j < |s| ==> key(s[i]) <= key(s[j])
  }

  /** Places `x` before the first element whose key is not smaller, so that it precedes the elements it ties with. */
  function Insert<T>(x: T, t: seq<T>, key: T -> real): (r: seq<T>)
    ensures multiset(r) == multiset(t) + multiset{x}
    ensures |r| == |t| + 1
  {
    if t == [] || key(x) <= key(t[0]) then [x] + t
    else
      assert t == [t[0]] + t[1..];
      [t[0]] + Insert(x, t[1..], key)
  }

  lemma {:induction false} InsertSorted<T>(x: T, t: seq<T>, key: T -> real)
    requires SortedBy(t, key)
    ensures SortedBy(Insert(x, t, key), key)
  {
    if t == [] || key(x) <= key(t[0]) {
      var r := [x] + t;
      forall i, j | 0 <= i < j < |r| ensures key(r[i]) <= key(r[j]) {
        if i == 0 && j > 1 {
          assert key(t[0]) <= key(t[j - 1]);
        }
      }
    } else {
      var t' := t[1..];
      InsertSorted(x, t', key);
      var rest := Insert(x, t', key);
      InsertBounded(x, t', key, key(t[0]));
      var r := [t[0]] + rest;
      assert Insert(x, t, key) == r;
      forall i, j | 0 <= i < j < |r| ensures key(r[i]) <= key(r[j]) {
        if i == 0 {
          assert r[j] == rest[j - 1];
        } else {
          assert r[i] == rest[i - 1] && r[j] == rest[j - 1];
        }
      }
    }
  }

  /** A lower bound on the keys of `x` and of `t` bounds the keys of `Insert(x, t, key)`. */
  lemma InsertBounded<T>(x: T, t: seq<T>, key: T -> real, lo: real)
    requires lo <= key(x) && forall k :: 0 <= k < |t| ==> lo <= key(t[k])
    ensures forall k :: 0 <= k < |Insert(x, t, key)| ==> lo <= key(Insert(x, t, key)[k])
  {
    var rest := Insert(x, t, key);
    forall k | 0 <= k < |rest| ensures lo <= key(rest[k]) {
      assert rest[k] in multiset(rest);
      if rest[k] != x {
        assert rest[k] in multiset(t);
        var m :| 0 <= m < |t| && t[m] == rest[k];
      }
    }
  }

  /**
   * `[...s].sort((a, b) => key(a) - key(b))`: an insertion sort that keeps equal keys in their
   * original order. The result is ordered by key and is a permutation of the input.
   */
  function SortBy<T>(s: seq<T>, key: T -> real): (r: seq<T>)
    ensures SortedBy(r, key)
    ensures multiset(r) == multiset(s)
    ensures |r| == |s|
  {
    if s == [] then []
    else
      assert s == [s[0]] + s[1..];
      InsertSorted(s[0], SortBy(s[1..], key), key);
      Insert(s[0], SortBy(s[1..], key), key)
  }

  /** Whether an element's key is `c`. */
  function HasKey<T>(key: T -> real, c: real): T -> bool {
    x => key(x) == c
  }

  /** Filtering a concatenation filters each part. */
  lemma {:induction false} FilterConcat<T>(a: seq<T>, b: seq<T>, p: T -> bool)
    ensures Filter(a + b, p) == Filter(a, p) + Filter(b, p)
  {
    if a == [] {
      assert a + b == b;
    } else {
      var ab := a + b;
      assert ab[0] == a[0];
      assert ab[1..] == a[1..] + b;
      FilterConcat(a[1..], b, p);
      var head := if p(a[0]) then [a[0]] else [];
      assert Filter(ab, p) == head + Filter(a[1..] + b, p);
      assert Filter(a, p) == head + Filter(a[1..], p);
    }
  }

  /** Filtering a list with an element in front. */
  lemma FilterCons<T>(x: T, t: seq<T>, p: T -> bool)
    ensures Filter([x] + t, p) == (if p(x) then [x] else []) + Filter(t, p)
  {
    assert ([x] + t)[0] == x && ([x] + t)[1..] == t;
  }

  /** `Insert` puts `x` ahead of every element with its key, so among those it comes first. */
  lemma {:induction false} InsertTies<T>(x: T, t: seq<T>, key: T -> real, c: real)
    ensures Filter(Insert(x, t, key), HasKey(key, c)) ==
      (if key(x) == c then [x] else []) + Filter(t, HasKey(key, c))
  {
    if t == [] || key(x) <= key(t[0]) {
      assert Insert(x, t, key) == [x] + t;
      FilterCons(x, t, HasKey(key, c));
    } else {
      InsertTies(x, t[1..], key, c);
      InsertTiesBehind(x, t, key, c);
    }
  }

  /** The step of `InsertTies` where `x` goes behind the first element, whose key is smaller. */
  lemma InsertTiesBehind<T>(x: T, t: seq<T>, key: T -> real, c: real)
    requires t != [] && key(t[0]) < key(x)
    requires Filter(Insert(x, t[1..], key), HasKey(key, c)) ==
      (if key(x) == c then [x] else []) + Filter(t[1..], HasKey(key, c))
    ensures Filter(Insert(x, t, key), HasKey(key, c)) ==
      (if key(x) == c then [x] else []) + Filter(t, HasKey(key, c))
  {
    var p := HasKey(key, c);
    var rest := Insert(x, t[1..], key);
    var h0 := if p(t[0]) then [t[0]] else [];
    assert Filter(Insert(x, t, key), p) == h0 + Filter(rest, p) by {
      assert Insert(x, t, key) == [t[0]] + rest;
      FilterCons(t[0], rest, p);
    }
    assert Filter(t, p) == h0 + Filter(t[1..], p);
    var hx := if p(x) then [x] else [];
    SwapEmpty(h0, hx, Filter(t[1..], p));
  }

  lemma SwapEmpty<T>(a: seq<T>, b: seq<T>, rest: seq<T>)
    requires a == [] || b == []
    ensures a + (b + rest) == b + (a + rest)
  {
    if a == [] {
      assert a + (b + rest) == b + rest;
    } else {
      assert b + (a + rest) == a + rest;
    }
  }

  /**
   * `SortBy` is stable: for every key value, the elements with that key appear in the result
   * in the same order (and as often) as in the input.
   */
  lemma {:induction false} SortByIsStable<T>(s: seq<T>, key: T -> real, c: real)
    ensures Filter(SortBy(s, key), HasKey(key, c)) == Filter(s, HasKey(key, c))
  {
    if s != [] {
      SortByIsStable(s[1..], key, c);
      InsertTies(s[0], SortBy(s[1..], key), key, c);
    }
  }

  /** In a sorted list, an element left out of a prefix has a key no smaller than any key in the prefix. */
  lemma SortedPrefixLeast<T>(s: seq<T>, key: T -> real, m: nat, y: T)
    requires SortedBy(s, key) && m <= |s|
    requires y in multiset(s) - multiset(s[..m])
    ensures forall i :: 0 <= i < m ==> key(s[i]) <= key(y)
  {
    assert s == s[..m] + s[m..];
    assert multiset(s) == multiset(s[..m]) + multiset(s[m..]);
    assert y in multiset(s[m..]);
    var j :| 0 <= j < |s[m..]| && s[m..][j] == y;
    assert s[m + j] == y;
  }
}
