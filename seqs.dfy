/**
 * Sequence operations with the meaning of the JavaScript array methods
 * the source uses: `filter`, `slice` and concatenation of pages.
 */
module Seqs {

  function Min(a: int, b: int): int { if a <= b then a else b }

  function Max(a: int, b: int): int { if a <= b then b else a }

  /** `a` is obtained from `b` by deleting elements, keeping the order of the rest. */
  predicate IsSubsequence<T(==)>(a: seq<T>, b: seq<T>)
    decreases |b|
  {
    if a == [] then true
    else if b == [] then false
    else (a[0] == b[0] && IsSubsequence(a[1..], b[1..])) || IsSubsequence(a, b[1..])
  }

  /** Every sequence is a subsequence of itself. */
  lemma {:induction false} SubsequenceReflexive<T>(s: seq<T>)
    ensures IsSubsequence(s, s)
  {
    if s != [] {
      SubsequenceReflexive(s[1..]);
    }
  }

  /** `Array.prototype.filter`: the elements of `s` that `keep` accepts, in their order. */
  function Filter<T>(s: seq<T>, keep: T -> bool): (r: seq<T>)
    ensures |r| <= |s|
    ensures forall i :: 0 <= i < |r| ==> keep(r[i])
    ensures forall x :: x in r ==> x in s
  {
    if s == [] then []
    else if keep(s[0]) then [s[0]] + Filter(s[1..], keep)
    else Filter(s[1..], keep)
  }

  /** Filtering keeps exactly the accepted elements, each as often as it occurs. */
  lemma {:induction false} FilterKeepsExactly<T>(s: seq<T>, keep: T -> bool)
    ensures forall x :: x in Filter(s, keep) <==> x in s && keep(x)
    ensures forall x :: multiset(Filter(s, keep))[x] == if keep(x) then multiset(s)[x] else 0
  {
    if s != [] {
      FilterKeepsExactly(s[1..], keep);
      assert s == [s[0]] + s[1..];
    }
  }

  /** Filtering never reorders: its result is a subsequence of its input. */
  lemma {:induction false} FilterIsSubsequence<T>(s: seq<T>, keep: T -> bool)
    ensures IsSubsequence(Filter(s, keep), s)
  {
    if s != [] {
      FilterIsSubsequence(s[1..], keep);
      var r := Filter(s, keep);
      if keep(s[0]) {
        assert r[0] == s[0] && r[1..] == Filter(s[1..], keep);
      } else if r != [] {
        assert r == Filter(s[1..], keep);
      }
    }
  }

  /** Filtering twice with the same test is filtering once. */
  lemma {:induction false} FilterIdempotent<T>(s: seq<T>, keep: T -> bool)
    ensures Filter(Filter(s, keep), keep) == Filter(s, keep)
  {
    if s != [] {
      FilterIdempotent(s[1..], keep);
      if keep(s[0]) {
        var r := Filter(s[1..], keep);
        assert ([s[0]] + r)[0] == s[0] && ([s[0]] + r)[1..] == r;
      }
    }
  }

  /** A test that accepts every element makes the filter the identity. */
  lemma {:induction false} FilterAllKept<T>(s: seq<T>, keep: T -> bool)
    requires forall i :: 0 <= i < |s| ==> keep(s[i])
    ensures Filter(s, keep) == s
  {
    if s != [] {
      FilterAllKept(s[1..], keep);
      assert s == [s[0]] + s[1..];
    }
  }

  /** The index JavaScript's `slice` uses for an argument `x` on a sequence of length `n`. */
  function SliceIndex(x: int, n: nat): (r: nat)
    ensures r <= n
    ensures 0 <= x ==> r == Min(x, n)
    ensures x < 0 ==> r == Max(n + x, 0)
  {
    if x < 0 then (if n + x < 0 then 0 else n + x)
    else if x < n then x else n
  }

  /** `Array.prototype.slice(start, end)`: a negative argument counts from the end; it never mutates `s`. */
  function Slice<T>(s: seq<T>, start: int, end: int): (r: seq<T>)
    ensures |r| <= |s|
    ensures 0 <= start <= end ==> |r| == Max(0, Min(end, |s|) - start)
    ensures 0 <= start <= end ==> forall i :: 0 <= i < |r| ==> r[i] == s[start + i]
  {
    var lo, hi := SliceIndex(start, |s|), SliceIndex(end, |s|);
    if lo <= hi then s[lo..hi] else []
  }

  /** The concatenation of a sequence of sequences. */
  function Flatten<T>(ss: seq<seq<T>>): (r: seq<T>)
  {
    if ss == [] then [] else ss[0] + Flatten(ss[1..])
  }
}
