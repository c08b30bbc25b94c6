/** Sequence operations behind the list code of the components: `filter`,
    `filter`-based removal, and the stable `sort` of `Array.prototype.sort`
    with a numeric comparator. */
module Seqs {

  /** `a` is an order-preserving subsequence of `b`. */
  predicate SubseqOf<T(==)>(a: seq<T>, b: seq<T>) {
    if |a| == 0 then true
    else if |b| == 0 then false
    else if a[0] == b[0] then SubseqOf(a[1..], b[1..])
    else SubseqOf(a, b[1..])
  }

  /** `s.filter(p)`: the elements satisfying `p`, in their original order. */
  function Filter<T>(s: seq<T>, p: T -> bool): (r: seq<T>)
    ensures |r| <= |s|
    ensures forall i :: 0 <= i < |r| ==> p(r[i])
    ensures multiset(r) <= multiset(s)
  {
    if |s| == 0 then []
    else
      assert s == [s[0]] + s[1..];
      if p(s[0]) then [s[0]] + Filter(s[1..], p) else Filter(s[1..], p)
  }

  /** Nothing satisfying `p` is lost by `Filter`, and nothing else is kept. */
  lemma {:induction false} FilterKeeps<T>(s: seq<T>, p: T -> bool, x: T)
    ensures x in Filter(s, p) <==> x in s && p(x)
  {
    if |s| > 0 {
      FilterKeeps(s[1..], p, x);
      assert s == [s[0]] + s[1..];
    }
  }

  /** `FilterKeeps` for every element at once. */
  lemma FilterKeepsEvery<T>(s: seq<T>, p: T -> bool)
    ensures forall x :: x in Filter(s, p) <==> x in s && p(x)
  {
    forall x ensures x in Filter(s, p) <==> x in s && p(x) {
      FilterKeeps(s, p, x);
    }
  }

  /** `Filter` keeps the order of the elements it keeps. */
  lemma {:induction false} FilterSubseq<T>(s: seq<T>, p: T -> bool)
    ensures SubseqOf(Filter(s, p), s)
  {
    if |s| > 0 {
      FilterSubseq(s[1..], p);
      if !p(s[0]) {
        SubseqSkip(Filter(s[1..], p), s);
      }
    }
  }

  /** Skipping the head of `b` keeps a subsequence relation. */
  lemma {:induction false} SubseqSkip<T>(a: seq<T>, b: seq<T>)
    requires |b| > 0 && SubseqOf(a, b[1..])
    ensures SubseqOf(a, b)
    decreases |b|, 0
  {
    if |a| > 0 && a[0] == b[0] {
      SubseqTail(a, b[1..]);
    }
  }

  /** Dropping the head of a subsequence keeps it a subsequence. */
  lemma {:induction false} SubseqTail<T>(a: seq<T>, b: seq<T>)
    requires |a| > 0 && SubseqOf(a, b)
    ensures SubseqOf(a[1..], b)
    decreases |b|, 1
  {
    if a[0] != b[0] {
      SubseqTail(a, b[1..]);
      SubseqSkip(a[1..], b);
    } else if |a| > 1 && |b| > 1 {
      SubseqSkip(a[1..], b);
    } else if |a| > 1 {
    }
  }

  /** Filtering distributes over concatenation. */
  lemma {:induction false} FilterAppend<T>(a: seq<T>, b: seq<T>, p: T -> bool)
    ensures Filter(a + b, p) == Filter(a, p) + Filter(b, p)
  {
    if |a| > 0 {
      FilterAppend(a[1..], b, p);
      assert (a + b)[1..] == a[1..] + b;
    } else {
      assert a + b == b;
    }
  }

  /** Filtering with a predicate every element satisfies keeps everything. */
  lemma {:induction false} FilterAll<T>(s: seq<T>, p: T -> bool)
    requires forall x :: x in s ==> p(x)
    ensures Filter(s, p) == s
  {
    if |s| > 0 {
      assert forall x :: x in s[1..] ==> x in s;
      FilterAll(s[1..], p);
      assert s == [s[0]] + s[1..];
    }
  }

  /** The number of elements satisfying `p`. */
  function Count<T>(s: seq<T>, p: T -> bool): (n: nat)
    ensures n <= |s|
  {
    if |s| == 0 then 0 else (if p(s[0]) then 1 else 0) + Count(s[1..], p)
  }

  /** Counting over a sequence extended at its end. */
  lemma {:induction false} CountSnoc<T>(s: seq<T>, x: T, p: T -> bool)
    ensures Count(s + [x], p) == Count(s, p) + (if p(x) then 1 else 0)
  {
    if |s| > 0 {
      assert (s + [x])[1..] == s[1..] + [x];
      CountSnoc(s[1..], x, p);
    }
  }

  /** `Filter` keeps exactly `Count` elements. */
  lemma {:induction false} FilterCount<T>(s: seq<T>, p: T -> bool)
    ensures |Filter(s, p)| == Count(s, p)
  {
    if |s| > 0 {
      FilterCount(s[1..], p);
    }
  }

  /** No element occurs twice. */
  predicate NoDup<T(==)>(s: seq<T>) {
    forall i, j :: 0 <= i < j < |s| ==> s[i] != s[j]
  }

  /** A new element at the end keeps a sequence duplicate-free. */
  lemma NoDupSnoc<T>(s: seq<T>, x: T)
    requires NoDup(s) && x !in s
    ensures NoDup(s + [x])
  {
  }

  /** A subsequence of a duplicate-free sequence is duplicate-free. */
  lemma {:induction false} SubseqNoDup<T>(a: seq<T>, b: seq<T>)
    requires SubseqOf(a, b) && NoDup(b)
    ensures NoDup(a)
    decreases |b|
  {
    if |a| > 0 {
      if a[0] == b[0] {
        SubseqNoDup(a[1..], b[1..]);
        SubseqElems(a[1..], b[1..]);
        forall j | 0 < j < |a| ensures a[0] != a[j] {
          assert a[j] == a[1..][j - 1];
          assert a[j] in b[1..];
        }
      } else {
        SubseqNoDup(a, b[1..]);
      }
    }
  }

  /** Every element of a subsequence occurs in the sequence. */
  lemma {:induction false} SubseqElems<T>(a: seq<T>, b: seq<T>)
    requires SubseqOf(a, b)
    ensures forall x :: x in a ==> x in b
    decreases |b|
  {
    if |a| > 0 {
      if a[0] == b[0] {
        SubseqElems(a[1..], b[1..]);
        forall x | x in a ensures x in b {
          if x != a[0] {
            assert x in a[1..];
          }
        }
      } else {
        SubseqElems(a, b[1..]);
      }
    }
  }

  // ---- Stable sort by an integer rank -------------------------------------

  /** Ranks never decrease along `s`. */
  predicate SortedBy<T>(s: seq<T>, rank: T -> int) {
    forall i, j :: 0 <= i < j < |s| ==> rank(s[i]) <= rank(s[j])
  }

  /** The elements of `s` whose rank is `k`, in order. */
  function WithRank<T>(s: seq<T>, rank: T -> int, k: int): (r: seq<T>)
    ensures forall i :: 0 <= i < |r| ==> rank(r[i]) == k
  {
    if |s| == 0 then []
    else if rank(s[0]) == k then [s[0]] + WithRank(s[1..], rank, k)
    else WithRank(s[1..], rank, k)
  }

  /** Puts `x` into sorted `t` in front of the first element whose rank is
      not smaller, so that it precedes every equal-rank element of `t`. */
  function Insert<T>(x: T, t: seq<T>, rank: T -> int): (r: seq<T>)
    requires SortedBy(t, rank)
    ensures SortedBy(r, rank)
    ensures multiset(r) == multiset{x} + multiset(t)
    ensures |r| == |t| + 1
    ensures r[0] == x || (|t| > 0 && r[0] == t[0])
  {
    if |t| == 0 || rank(x) <= rank(t[0]) then [x] + t
    else
      var rest := Insert(x, t[1..], rank);
      assert t == [t[0]] + t[1..];
      [t[0]] + rest
  }

  /** `[...s].sort((a, b) => rank(a) - rank(b))` on a stable sort. */
  function SortBy<T>(s: seq<T>, rank: T -> int): (r: seq<T>)
    ensures SortedBy(r, rank)
    ensures multiset(r) == multiset(s)
    ensures |r| == |s|
  {
    if |s| == 0 then []
    else
      assert s == [s[0]] + s[1..];
      Insert(s[0], SortBy(s[1..], rank), rank)
  }

  lemma {:induction false} WithRankInsert<T>(x: T, t: seq<T>, rank: T -> int, k: int)
    requires SortedBy(t, rank)
    ensures WithRank(Insert(x, t, rank), rank, k)
         == (if rank(x) == k then [x] else []) + WithRank(t, rank, k)
  {
    if |t| == 0 || rank(x) <= rank(t[0]) {
      assert ([x] + t)[1..] == t;
    } else {
      WithRankInsert(x, t[1..], rank, k);
      var rest := Insert(x, t[1..], rank);
      assert ([t[0]] + rest)[1..] == rest;
      if rank(x) == k {
        // t[0] ranks below x, so it is not among the rank-k elements
        assert rank(t[0]) < k;
      }
    }
  }

  /** The sort is stable: elements of equal rank keep their relative order. */
  lemma {:induction false} SortByStable<T>(s: seq<T>, rank: T -> int, k: int)
    ensures WithRank(SortBy(s, rank), rank, k) == WithRank(s, rank, k)
  {
    if |s| > 0 {
      SortByStable(s[1..], rank, k);
      WithRankInsert(s[0], SortBy(s[1..], rank), rank, k);
    }
  }
}
