/** The JavaScript array operations the site relies on (`filter`, `findIndex`,
    `find`, `map`, `splice`, `slice` and a stable comparator `sort`), stated
    once over Dafny sequences. */
module Seqs {
  import opened Options

  /** `s.filter(p)`: the elements satisfying `p`, in their original order. */
  function Filter<T(!new)>(s: seq<T>, p: T -> bool): (r: seq<T>)
    ensures |r| <= |s|
    ensures forall x :: x in r <==> x in s && p(x)
  {
    if |s| == 0 then []
    else
      assert s == [s[0]] + s[1..];
      if p(s[0]) then [s[0]] + Filter(s[1..], p) else Filter(s[1..], p)
  }

  /** Each value occurs in the filter as often as in `s` if it satisfies `p`,
      and not at all otherwise. */
  lemma {:induction false} FilterCounts<T(!new)>(s: seq<T>, p: T -> bool)
    ensures forall x :: multiset(Filter(s, p))[x] == if p(x) then multiset(s)[x] else 0
  {
    if |s| > 0 {
      FilterCounts(s[1..], p);
      assert s == [s[0]] + s[1..];
    }
  }

  /** The filter is as long as `s` exactly when `p` rejects nothing, which is
      how the store's deletes detect whether anything was removed. */
  lemma {:induction false} FilterKeepsLength<T(!new)>(s: seq<T>, p: T -> bool)
    ensures |Filter(s, p)| == |s| <==> forall i :: 0 <= i < |s| ==> p(s[i])
  {
    if |s| > 0 {
      FilterKeepsLength(s[1..], p);
      assert forall i :: 1 <= i < |s| ==> s[i] == s[1..][i - 1];
    }
  }

  /** Filtering distributes over concatenation, so it keeps relative order. */
  lemma {:induction false} FilterAppend<T(!new)>(a: seq<T>, b: seq<T>, p: T -> bool)
    ensures Filter(a + b, p) == Filter(a, p) + Filter(b, p)
  {
    if |a| == 0 {
      assert a + b == b;
    } else {
      assert (a + b)[1..] == a[1..] + b;
      FilterAppend(a[1..], b, p);
    }
  }

  /** A sequence all of whose elements satisfy `p` is its own filter. */
  lemma {:induction false} FilterAll<T(!new)>(s: seq<T>, p: T -> bool)
    requires forall i :: 0 <= i < |s| ==> p(s[i])
    ensures Filter(s, p) == s
  {
    if |s| > 0 {
      FilterAll(s[1..], p);
      assert s == [s[0]] + s[1..];
    }
  }

  /** Filters by two tests that agree on every element are the same. */
  lemma {:induction false} FilterCongruent<T(!new)>(s: seq<T>, p: T -> bool, q: T -> bool)
    requires forall i :: 0 <= i < |s| ==> p(s[i]) == q(s[i])
    ensures Filter(s, p) == Filter(s, q)
  {
    if |s| > 0 {
      FilterCongruent(s[1..], p, q);
      assert p(s[0]) == q(s[0]);
    }
  }

  /** Filtering two sequences with the same elements gives sequences with
      the same elements. */
  lemma FilterSameElements<T(!new)>(a: seq<T>, b: seq<T>, p: T -> bool)
    requires multiset(a) == multiset(b)
    ensures multiset(Filter(a, p)) == multiset(Filter(b, p))
  {
    FilterCounts(a, p);
    FilterCounts(b, p);
    assert forall x :: multiset(Filter(a, p))[x] == multiset(Filter(b, p))[x];
  }

  /** `s.findIndex(p)`: the first index satisfying `p`, or -1. */
  function FindIndex<T>(s: seq<T>, p: T -> bool): (r: int)
    ensures -1 <= r < |s|
    ensures r == -1 <==> forall i :: 0 <= i < |s| ==> !p(s[i])
    ensures r >= 0 ==> p(s[r]) && forall j :: 0 <= j < r ==> !p(s[j])
  {
    if |s| == 0 then -1
    else if p(s[0]) then 0
    else
      var k := FindIndex(s[1..], p);
      if k == -1 then -1 else k + 1
  }

  /** `s.find(p)`: the first element satisfying `p`, if any. */
  function Find<T>(s: seq<T>, p: T -> bool): (r: Option<T>)
    ensures r.None? <==> forall i :: 0 <= i < |s| ==> !p(s[i])
    ensures r.Some? ==> exists i :: 0 <= i < |s| && s[i] == r.value && p(s[i]) &&
                                   forall j :: 0 <= j < i ==> !p(s[j])
  {
    var k := FindIndex(s, p);
    if k == -1 then None else Some(s[k])
  }

  /** `s.map(x => p(x) ? f(x) : x)`: every element satisfying `p` is replaced. */
  function MapWhere<T>(s: seq<T>, p: T -> bool, f: T -> T): (r: seq<T>)
    ensures |r| == |s|
    ensures forall i :: 0 <= i < |s| && p(s[i]) ==> r[i] == f(s[i])
    ensures forall i :: 0 <= i < |s| && !p(s[i]) ==> r[i] == s[i]
  {
    seq(|s|, i requires 0 <= i < |s| => if p(s[i]) then f(s[i]) else s[i])
  }

  /** The position `s.splice(start, 1)` starts at: a negative `start` counts
      from the end, and both kinds are clamped into `0..len`. */
  function SpliceStart(len: nat, start: int): (k: nat)
    ensures k <= len
    ensures 0 <= start <= len ==> k == start
    ensures start < 0 && len + start >= 0 ==> k == len + start
    ensures len + start < 0 ==> k == 0
    ensures start > len ==> k == len
  {
    if start < 0 then (if len + start < 0 then 0 else len + start)
    else if start < len then start else len
  }

  /** `s.splice(start, 1)` on a copy: removes at most one element. */
  function RemoveOne<T>(s: seq<T>, start: int): (r: seq<T>)
    ensures var k := SpliceStart(|s|, start);
      if k < |s| then r == s[..k] + s[k + 1..] else r == s
  {
    var k := SpliceStart(|s|, start);
    if k < |s| then s[..k] + s[k + 1..] else s
  }

  /** Removing an in-range index drops exactly that element: everything before
      it stays put, everything after it moves down by one. */
  lemma RemoveOneInRange<T>(s: seq<T>, i: int)
    requires 0 <= i < |s|
    ensures |RemoveOne(s, i)| == |s| - 1
    ensures forall j :: 0 <= j < i ==> RemoveOne(s, i)[j] == s[j]
    ensures forall j :: i <= j < |s| - 1 ==> RemoveOne(s, i)[j] == s[j + 1]
    ensures multiset(RemoveOne(s, i)) + multiset{s[i]} == multiset(s)
  {
    assert s == s[..i] + [s[i]] + s[i + 1..];
  }

  /** `s.slice(0, n)`. */
  function Take<T>(s: seq<T>, n: nat): (r: seq<T>)
    ensures |r| == if n < |s| then n else |s|
    ensures r <= s
  {
    if n < |s| then s[..n] else s
  }

  /** Newest first: keys never increase along the sequence. */
  ghost predicate SortedDesc<T>(s: seq<T>, key: T -> int) {
    forall i, j :: 0 <= i < j < |s| ==> key(s[i]) >= key(s[j])
  }

  /** Dropping elements from a newest-first sequence keeps it newest first. */
  lemma {:induction false} FilterKeepsSorted<T(!new)>(s: seq<T>, p: T -> bool, key: T -> int)
    requires SortedDesc(s, key)
    ensures SortedDesc(Filter(s, p), key)
  {
    if |s| > 0 {
      var rest := s[1..];
      assert SortedDesc(rest, key) by {
        forall i, j | 0 <= i < j < |rest|
          ensures key(rest[i]) >= key(rest[j])
        {
          assert rest[i] == s[i + 1] && rest[j] == s[j + 1];
        }
      }
      FilterKeepsSorted(rest, p, key);
      var t := Filter(rest, p);
      if p(s[0]) {
        var r := [s[0]] + t;
        assert Filter(s, p) == r;
        forall i, j | 0 <= i < j < |r|
          ensures key(r[i]) >= key(r[j])
        {
          assert r[j] == t[j - 1];
          if i == 0 {
            assert t[j - 1] in rest;
            var k :| 0 <= k < |rest| && rest[k] == t[j - 1];
            assert rest[k] == s[k + 1];
          } else {
            assert r[i] == t[i - 1];
          }
        }
      }
    }
  }

  /** Inserts `x` in front of the first element whose key is not larger, so an
      element never overtakes an equal-keyed one already placed. */
  function Insert<T>(x: T, s: seq<T>, key: T -> int): (r: seq<T>)
    requires SortedDesc(s, key)
    ensures SortedDesc(r, key)
    ensures multiset(r) == multiset(s) + multiset{x}
    ensures |r| == |s| + 1
    ensures r[0] == x || (|s| > 0 && r[0] == s[0])
  {
    if |s| == 0 || key(x) >= key(s[0]) then [x] + s
    else
      var t := Insert(x, s[1..], key);
      assert s == [s[0]] + s[1..];
      assert key(s[0]) >= key(t[0]);
      assert forall j :: 0 <= j < |t| ==> key(s[0]) >= key(t[j]);
      [s[0]] + t
  }

  /** `s.sort((a, b) => key(b) - key(a))`: a stable sort, largest key first.
      The comparator's sign is all that matters, so a key difference is
      modelled by comparing keys. */
  function SortNewestFirst<T>(s: seq<T>, key: T -> int): (r: seq<T>)
    ensures SortedDesc(r, key)
    ensures multiset(r) == multiset(s)
    ensures |r| == |s|
  {
    if |s| == 0 then []
    else
      assert s == [s[0]] + s[1..];
      Insert(s[0], SortNewestFirst(s[1..], key), key)
  }

  /** The elements sharing one key. */
  function KeyIs<T>(key: T -> int, k: int): T -> bool {
    x => key(x) == k
  }

  lemma FilterSingleton<T(!new)>(x: T, p: T -> bool)
    ensures Filter([x], p) == if p(x) then [x] else []
  {
    assert [x][1..] == [];
  }

  /** One step of the filter: a head `p` keeps stays in front. */
  lemma FilterCons<T(!new)>(h: T, t: seq<T>, p: T -> bool)
    ensures Filter([h] + t, p) == if p(h) then [h] + Filter(t, p) else Filter(t, p)
  {
    assert ([h] + t)[0] == h && ([h] + t)[1..] == t;
  }

  /** Putting a head that `p` rejects, or ahead of nothing `p` keeps, in
      front of `t` commutes with the prefix `xs` of the filter. */
  lemma PrefixPastHead<T(!new)>(h0: T, rest: seq<T>, t: seq<T>, xs: seq<T>, p: T -> bool)
    requires Filter(t, p) == xs + Filter(rest, p)
    requires !p(h0) || xs == []
    ensures Filter([h0] + t, p) == xs + Filter([h0] + rest, p)
  {
    FilterCons(h0, t, p);
    FilterCons(h0, rest, p);
    if p(h0) {
      assert xs + Filter(rest, p) == Filter(rest, p);
    }
  }

  /** Insertion places `x` in front of every element with its own key. */
  lemma {:induction false} InsertKeepsTies<T(!new)>(x: T, s: seq<T>, key: T -> int, k: int)
    requires SortedDesc(s, key)
    ensures Filter(Insert(x, s, key), KeyIs(key, k))
      == (if key(x) == k then [x] else []) + Filter(s, KeyIs(key, k))
  {
    if |s| == 0 || key(x) >= key(s[0]) {
      FilterSingleton(x, KeyIs(key, k));
      FilterAppend([x], s, KeyIs(key, k));
    } else {
      InsertKeepsTies(x, s[1..], key, k);
      PrefixPastHead(s[0], s[1..], Insert(x, s[1..], key), if key(x) == k then [x] else [], KeyIs(key, k));
      assert s == [s[0]] + s[1..];
    }
  }

  /** Stability: among elements with equal keys the original order survives. */
  lemma {:induction false} SortIsStable<T(!new)>(s: seq<T>, key: T -> int, k: int)
    ensures Filter(SortNewestFirst(s, key), KeyIs(key, k)) == Filter(s, KeyIs(key, k))
  {
    if |s| > 0 {
      var p := KeyIs(key, k);
      SortIsStable(s[1..], key, k);
      InsertKeepsTies(s[0], SortNewestFirst(s[1..], key), key, k);
      FilterAppend([s[0]], s[1..], p);
      assert s == [s[0]] + s[1..];
    }
  }

  /** `s.sort(newest first).slice(0, n)`: at most `n` elements, newest first,
      drawn from `s`, and none of the elements left behind is newer than any
      element kept. */
  lemma NewestN<T>(s: seq<T>, key: T -> int, n: nat)
    ensures var r := Take(SortNewestFirst(s, key), n);
      && |r| == (if n < |s| then n else |s|)
      && SortedDesc(r, key)
      && multiset(r) <= multiset(s)
      && forall y, i :: y in multiset(s) - multiset(r) && 0 <= i < |r| ==> key(y) <= key(r[i])
  {
    var sorted := SortNewestFirst(s, key);
    var r := Take(sorted, n);
    TakeSplits(sorted, n);
    HeadStaysSorted(sorted, |r|, key);
    TailNotNewer(sorted, |r|, key);
  }

  /** A prefix and the rest of a sequence hold its elements between them. */
  lemma TakeSplits<T>(s: seq<T>, n: nat)
    ensures var r := Take(s, n);
      r == s[..|r|] && multiset(s) - multiset(r) == multiset(s[|r|..]) && multiset(r) <= multiset(s)
  {
    var r := Take(s, n);
    assert s == r + s[|r|..];
    assert multiset(s) == multiset(r) + multiset(s[|r|..]);
  }

  lemma HeadStaysSorted<T>(s: seq<T>, m: nat, key: T -> int)
    requires SortedDesc(s, key) && m <= |s|
    ensures SortedDesc(s[..m], key)
  {
    assert forall i :: 0 <= i < m ==> s[..m][i] == s[i];
  }

  /** In a newest-first sequence nothing after position `m` is newer than
      anything before it. */
  lemma TailNotNewer<T>(sorted: seq<T>, m: nat, key: T -> int)
    requires SortedDesc(sorted, key) && m <= |sorted|
    ensures forall y, i :: y in multiset(sorted[m..]) && 0 <= i < m ==> key(y) <= key(sorted[i])
  {
    forall y, i | y in multiset(sorted[m..]) && 0 <= i < m
      ensures key(y) <= key(sorted[i])
    {
      var q := sorted[m..];
      assert y in q;
      var j :| 0 <= j < |q| && q[j] == y;
      assert sorted[m + j] == y;
    }
  }

  /** The number of `true` entries. */
  function CountTrue(s: seq<bool>): (n: nat)
    ensures n <= |s|
    ensures n == |s| <==> forall i :: 0 <= i < |s| ==> s[i]
    ensures n == 0 <==> forall i :: 0 <= i < |s| ==> !s[i]
  {
    if |s| == 0 then 0 else (if s[0] then 1 else 0) + CountTrue(s[1..])
  }
}
