/**
 * Order-preserving sequence operations shared by the sync queue (which keeps its
 * entries ordered by key, first-in first-out among equal keys) and by the stable
 * sort of token accounts.
 */
module StableOrder {
  import opened Wrappers

  /** `s` is in non-decreasing order of `rank`. */
  ghost predicate SortedBy<T>(s: seq<T>, rank: T -> int) {
    forall i, j :: 0 <= i < j < |s| ==> rank(s[i]) <= rank(s[j])
  }

  lemma SortedAt<T>(s: seq<T>, rank: T -> int, p: int, q: int)
    requires SortedBy(s, rank) && 0 <= p < q < |s|
    ensures rank(s[p]) <= rank(s[q])
  {
  }

  /** The elements of `s` whose rank is at most `k`, in their order in `s`. */
  function AtMost<T>(s: seq<T>, rank: T -> int, k: int): (r: seq<T>)
    ensures forall x :: x in r ==> x in s && rank(x) <= k
  {
    if s == [] then []
    else (if rank(s[0]) <= k then [s[0]] else []) + AtMost(s[1..], rank, k)
  }

  /** The elements of `s` whose rank is above `k`, in their order in `s`. */
  function Above<T>(s: seq<T>, rank: T -> int, k: int): (r: seq<T>)
    ensures forall x :: x in r ==> x in s && rank(x) > k
  {
    if s == [] then []
    else (if rank(s[0]) > k then [s[0]] else []) + Above(s[1..], rank, k)
  }

  /** The elements of `s` whose rank is exactly `k`, in their order in `s`. */
  function OfRank<T>(s: seq<T>, rank: T -> int, k: int): (r: seq<T>)
    ensures forall x :: x in r ==> x in s && rank(x) == k
  {
    if s == [] then []
    else (if rank(s[0]) == k then [s[0]] else []) + OfRank(s[1..], rank, k)
  }

  /** The elements of `s` that `drop` does not select, in their order in `s`. */
  function Without<T>(s: seq<T>, drop: T -> bool): (r: seq<T>)
    ensures forall x :: x in r ==> x in s && !drop(x)
    ensures forall x :: x in s && !drop(x) ==> x in r
  {
    if s == [] then []
    else (if drop(s[0]) then [] else [s[0]]) + Without(s[1..], drop)
  }

  /** `s[i]` is the first element of `s` that `p` selects. */
  ghost predicate FirstWith<T>(s: seq<T>, p: T -> bool, i: int) {
    0 <= i < |s| && p(s[i]) && forall j :: 0 <= j < i ==> !p(s[j])
  }

  /** `Array.prototype.find`: the first element `p` selects, if any. */
  function Find<T>(s: seq<T>, p: T -> bool): (r: Option<T>)
    ensures r.None? <==> forall i :: 0 <= i < |s| ==> !p(s[i])
    ensures r.Some? ==> exists i :: FirstWith(s, p, i) && s[i] == r.value
  {
    if s == [] then None
    else if p(s[0]) then
      assert FirstWith(s, p, 0);
      Some(s[0])
    else
      var r := Find(s[1..], p);
      assert forall i :: 1 <= i < |s| ==> s[i] == s[1..][i - 1];
      assert r.Some? ==> exists i :: FirstWith(s[1..], p, i) && s[1..][i] == r.value;
      assert forall i :: FirstWith(s[1..], p, i) ==> FirstWith(s, p, i + 1);
      r
  }

  /** `s.map(f)`: `f` applied to each element, in order. */
  function MapSeq<T, U>(s: seq<T>, f: T -> U): (r: seq<U>)
    ensures |r| == |s|
    ensures forall i :: 0 <= i < |r| ==> r[i] == f(s[i])
  {
    if s == [] then [] else [f(s[0])] + MapSeq(s[1..], f)
  }

  /**
   * `xs` placed after every element of `s` whose rank is at most `k` and before
   * every element whose rank is above it: where a stable ordered structure puts
   * a new batch of rank `k`.
   */
  function InsertAfter<T>(s: seq<T>, rank: T -> int, k: int, xs: seq<T>): seq<T> {
    AtMost(s, rank, k) + xs + Above(s, rank, k)
  }

  ghost predicate AllOfRank<T>(xs: seq<T>, rank: T -> int, k: int) {
    forall i :: 0 <= i < |xs| ==> rank(xs[i]) == k
  }

  // ---------------------------------------------------------------------------
  // Filters distribute over concatenation.

  lemma {:induction false} AtMostAppend<T>(a: seq<T>, b: seq<T>, rank: T -> int, k: int)
    ensures AtMost(a + b, rank, k) == AtMost(a, rank, k) + AtMost(b, rank, k)
  {
    if a == [] {
      assert a + b == b;
    } else {
      assert (a + b)[1..] == a[1..] + b;
      AtMostAppend(a[1..], b, rank, k);
    }
  }

  lemma {:induction false} AboveAppend<T>(a: seq<T>, b: seq<T>, rank: T -> int, k: int)
    ensures Above(a + b, rank, k) == Above(a, rank, k) + Above(b, rank, k)
  {
    if a == [] {
      assert a + b == b;
    } else {
      assert (a + b)[1..] == a[1..] + b;
      AboveAppend(a[1..], b, rank, k);
    }
  }

  lemma {:induction false} OfRankAppend<T>(a: seq<T>, b: seq<T>, rank: T -> int, k: int)
    ensures OfRank(a + b, rank, k) == OfRank(a, rank, k) + OfRank(b, rank, k)
  {
    if a == [] {
      assert a + b == b;
    } else {
      assert (a + b)[1..] == a[1..] + b;
      OfRankAppend(a[1..], b, rank, k);
    }
  }

  lemma {:induction false} WithoutAppend<T>(a: seq<T>, b: seq<T>, drop: T -> bool)
    ensures Without(a + b, drop) == Without(a, drop) + Without(b, drop)
  {
    if a == [] {
      assert a + b == b;
    } else {
      assert (a + b)[1..] == a[1..] + b;
      WithoutAppend(a[1..], b, drop);
    }
  }

  // ---------------------------------------------------------------------------
  // Splitting a sorted sequence.

  lemma {:induction false} AtMostOfLow<T>(s: seq<T>, rank: T -> int, k: int)
    requires forall i :: 0 <= i < |s| ==> rank(s[i]) <= k
    ensures AtMost(s, rank, k) == s && Above(s, rank, k) == []
  {
    if s != [] {
      AtMostOfLow(s[1..], rank, k);
    }
  }

  lemma {:induction false} AboveOfHigh<T>(s: seq<T>, rank: T -> int, k: int)
    requires forall i :: 0 <= i < |s| ==> rank(s[i]) > k
    ensures AtMost(s, rank, k) == [] && Above(s, rank, k) == s
  {
    if s != [] {
      AboveOfHigh(s[1..], rank, k);
    }
  }

  /**
   * In a sorted sequence, the elements of rank at most `k` are exactly a prefix;
   * `SplitPoint` finds its end.
   */
  method SplitPoint<T>(s: seq<T>, rank: T -> int, k: int) returns (p: nat)
    requires SortedBy(s, rank)
    ensures p <= |s|
    ensures s[..p] == AtMost(s, rank, k) && s[p..] == Above(s, rank, k)
  {
    p := 0;
    while p < |s| && rank(s[p]) <= k
      invariant p <= |s|
      invariant forall i :: 0 <= i < p ==> rank(s[i]) <= k
    {
      p := p + 1;
    }
    assert s == s[..p] + s[p..];
    AtMostOfLow(s[..p], rank, k);
    AboveOfHigh(s[p..], rank, k);
    AtMostAppend(s[..p], s[p..], rank, k);
    AboveAppend(s[..p], s[p..], rank, k);
  }

  // ---------------------------------------------------------------------------
  // What an insertion keeps.

  lemma {:induction false} AtMostSorted<T>(s: seq<T>, rank: T -> int, k: int)
    requires SortedBy(s, rank)
    ensures SortedBy(AtMost(s, rank, k), rank)
  {
    if s != [] {
      AtMostSorted(s[1..], rank, k);
      AtMostSortedCons(s, rank, k);
    }
  }

  lemma AtMostSortedCons<T>(s: seq<T>, rank: T -> int, k: int)
    requires s != [] && SortedBy(s, rank) && SortedBy(AtMost(s[1..], rank, k), rank)
    ensures SortedBy(AtMost(s, rank, k), rank)
  {
    var t := AtMost(s[1..], rank, k);
    forall x | x in t ensures rank(s[0]) <= rank(x) {
      var i :| 0 <= i < |s[1..]| && s[1..][i] == x;
    }
  }

  lemma {:induction false} AboveSorted<T>(s: seq<T>, rank: T -> int, k: int)
    requires SortedBy(s, rank)
    ensures SortedBy(Above(s, rank, k), rank)
  {
    if s != [] {
      AboveSorted(s[1..], rank, k);
      var t := Above(s[1..], rank, k);
      forall x | x in t ensures rank(s[0]) <= rank(x) {
        var i :| 0 <= i < |s[1..]| && s[1..][i] == x;
      }
    }
  }

  lemma {:induction false} WithoutSorted<T>(s: seq<T>, rank: T -> int, drop: T -> bool)
    requires SortedBy(s, rank)
    ensures SortedBy(Without(s, drop), rank)
  {
    if s != [] {
      WithoutSorted(s[1..], rank, drop);
      var t := Without(s[1..], drop);
      forall x | x in t ensures rank(s[0]) <= rank(x) {
        var i :| 0 <= i < |s[1..]| && s[1..][i] == x;
      }
    }
  }

  /** A batch of rank `k` inserted after the elements of rank at most `k` keeps the order sorted. */
  lemma InsertAfterSorted<T>(s: seq<T>, rank: T -> int, k: int, xs: seq<T>)
    requires SortedBy(s, rank) && AllOfRank(xs, rank, k)
    ensures SortedBy(InsertAfter(s, rank, k, xs), rank)
  {
    var lo, hi := AtMost(s, rank, k), Above(s, rank, k);
    AtMostSorted(s, rank, k);
    AboveSorted(s, rank, k);
    var r := lo + xs + hi;
    forall i, j | 0 <= i < j < |r| ensures rank(r[i]) <= rank(r[j]) {
      if i < |lo| {
        assert lo[i] in lo;
      }
      if j >= |lo| + |xs| {
        assert hi[j - |lo| - |xs|] in hi;
      }
    }
  }

  lemma {:induction false} SplitMultiset<T>(s: seq<T>, rank: T -> int, k: int)
    ensures multiset(AtMost(s, rank, k)) + multiset(Above(s, rank, k)) == multiset(s)
  {
    if s != [] {
      SplitMultiset(s[1..], rank, k);
      assert s == [s[0]] + s[1..];
    }
  }

  /** Inserting a batch adds exactly that batch. */
  lemma InsertAfterMultiset<T>(s: seq<T>, rank: T -> int, k: int, xs: seq<T>)
    ensures multiset(InsertAfter(s, rank, k, xs)) == multiset(s) + multiset(xs)
  {
    SplitMultiset(s, rank, k);
  }

  lemma {:induction false} OfRankOfAtMost<T>(s: seq<T>, rank: T -> int, k: int, j: int)
    ensures OfRank(AtMost(s, rank, k), rank, j) == if j <= k then OfRank(s, rank, j) else []
  {
    if s != [] {
      OfRankOfAtMost(s[1..], rank, k, j);
      var head := if rank(s[0]) <= k then [s[0]] else [];
      OfRankAppend(head, AtMost(s[1..], rank, k), rank, j);
    }
  }

  lemma {:induction false} OfRankOfAbove<T>(s: seq<T>, rank: T -> int, k: int, j: int)
    ensures OfRank(Above(s, rank, k), rank, j) == if j > k then OfRank(s, rank, j) else []
  {
    if s != [] {
      OfRankOfAbove(s[1..], rank, k, j);
      var head := if rank(s[0]) > k then [s[0]] else [];
      OfRankAppend(head, Above(s[1..], rank, k), rank, j);
    }
  }

  lemma {:induction false} OfRankAll<T>(xs: seq<T>, rank: T -> int, k: int, j: int)
    requires AllOfRank(xs, rank, k)
    ensures OfRank(xs, rank, j) == if j == k then xs else []
  {
    if xs != [] {
      OfRankAll(xs[1..], rank, k, j);
    }
  }

  /**
   * Stability: inserting a batch of rank `k` appends it to the elements of rank `k`
   * and leaves the elements of every other rank, and their order, alone.
   */
  lemma InsertAfterOfRank<T>(s: seq<T>, rank: T -> int, k: int, xs: seq<T>, j: int)
    requires AllOfRank(xs, rank, k)
    ensures OfRank(InsertAfter(s, rank, k, xs), rank, j)
         == OfRank(s, rank, j) + (if j == k then xs else [])
  {
    var lo, hi := AtMost(s, rank, k), Above(s, rank, k);
    OfRankAppend(lo + xs, hi, rank, j);
    OfRankAppend(lo, xs, rank, j);
    OfRankOfAtMost(s, rank, k, j);
    OfRankOfAbove(s, rank, k, j);
    OfRankAll(xs, rank, k, j);
  }

  /** A prefix one element longer is the shorter prefix and that element. */
  lemma TakeSnoc<T>(s: seq<T>, i: nat)
    requires i < |s|
    ensures s[..i + 1] == s[..i] + [s[i]]
  {
  }

  /** Inserting one more element after its equals keeps a stable ordering of the elements seen so far. */
  lemma InsertStep<T>(r: seq<T>, rank: T -> int, done: seq<T>, x: T)
    requires SortedBy(r, rank) && multiset(r) == multiset(done)
    requires forall k :: OfRank(r, rank, k) == OfRank(done, rank, k)
    ensures SortedBy(InsertAfter(r, rank, rank(x), [x]), rank)
    ensures multiset(InsertAfter(r, rank, rank(x), [x])) == multiset(done + [x])
    ensures forall k :: OfRank(InsertAfter(r, rank, rank(x), [x]), rank, k) == OfRank(done + [x], rank, k)
  {
    InsertAfterSorted(r, rank, rank(x), [x]);
    InsertAfterMultiset(r, rank, rank(x), [x]);
    forall k ensures OfRank(InsertAfter(r, rank, rank(x), [x]), rank, k) == OfRank(done + [x], rank, k) {
      InsertAfterOfRank(r, rank, rank(x), [x], k);
      OfRankAppend(done, [x], rank, k);
    }
  }

  /**
   * A stable sort: the result is ordered by `rank`, holds the same elements, and
   * keeps the relative order of the elements of each rank.
   */
  method StableSort<T>(s: seq<T>, rank: T -> int) returns (r: seq<T>)
    ensures SortedBy(r, rank)
    ensures multiset(r) == multiset(s)
    ensures forall k :: OfRank(r, rank, k) == OfRank(s, rank, k)
  {
    r := [];
    var i := 0;
    while i < |s|
      invariant i <= |s|
      invariant SortedBy(r, rank)
      invariant multiset(r) == multiset(s[..i])
      invariant forall k :: OfRank(r, rank, k) == OfRank(s[..i], rank, k)
    {
      var x := s[i];
      var p := SplitPoint(r, rank, rank(x));
      InsertStep(r, rank, s[..i], x);
      TakeSnoc(s, i);
      ghost var next := InsertAfter(r, rank, rank(x), [x]);
      assert r[..p] + [x] + r[p..] == next;
      r := r[..p] + [x] + r[p..];
      i := i + 1;
    }
    assert s[..i] == s;
  }
}
