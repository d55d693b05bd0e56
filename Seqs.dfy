/** Sequence operations that the assistant's TypeScript source expresses with
    array built-ins: `filter`, `find`, `slice(-n)`, `reduce` and
    `[...new Set(xs)]`. Each is defined once here, with the lemmas that pin
    down what it computes. */
module Seqs {

  datatype Option<T> = None | Some(value: T)

  function Min(a: nat, b: nat): nat { if a <= b then a else b }

  /** `Array.prototype.filter`: keeps the elements satisfying `f`, in order. */
  function Filter<T>(f: T -> bool, s: seq<T>): (r: seq<T>)
    ensures |r| <= |s|
    ensures forall k :: 0 <= k < |r| ==> f(r[k])
  {
    if s == [] then []
    else (if f(s[0]) then [s[0]] else []) + Filter(f, s[1..])
  }

  /** Filter keeps only elements of `s`, and every element that passes. */
  lemma {:induction false} FilterMembers<T>(f: T -> bool, s: seq<T>)
    ensures forall k :: 0 <= k < |Filter(f, s)| ==> Filter(f, s)[k] in s
    ensures forall i :: 0 <= i < |s| && f(s[i]) ==> s[i] in Filter(f, s)
  {
    if s != [] {
      FilterMembers(f, s[1..]);
      var head := if f(s[0]) then [s[0]] else [];
      var r, rest := Filter(f, s), Filter(f, s[1..]);
      assert r == head + rest;
      forall i | 0 <= i < |s| && f(s[i])
        ensures s[i] in r
      {
        if i > 0 {
          assert s[i] == s[1..][i - 1];
        }
      }
    }
  }

  /** Filtering a concatenation filters each part. */
  lemma {:induction false} FilterAppend<T>(f: T -> bool, a: seq<T>, b: seq<T>)
    ensures Filter(f, a + b) == Filter(f, a) + Filter(f, b)
  {
    if a == [] {
      assert a + b == b;
    } else {
      assert (a + b)[0] == a[0] && (a + b)[1..] == a[1..] + b;
      FilterAppend(f, a[1..], b);
    }
  }

  /** Filtering keeps a sequence whose every element passes. */
  lemma {:induction false} FilterAll<T>(f: T -> bool, s: seq<T>)
    requires forall i :: 0 <= i < |s| ==> f(s[i])
    ensures Filter(f, s) == s
  {
    if s != [] {
      FilterAll(f, s[1..]);
    }
  }

  /** Filtering drops a sequence no element of which passes. */
  lemma {:induction false} FilterNone<T>(f: T -> bool, s: seq<T>)
    requires forall i :: 0 <= i < |s| ==> !f(s[i])
    ensures Filter(f, s) == []
  {
    if s != [] {
      FilterNone(f, s[1..]);
    }
  }

  /** `idx` lists, in increasing order, the positions of `s` whose elements
      make up `r`, and those are exactly the positions where `f` holds. */
  ghost predicate SelectedBy<T>(r: seq<T>, s: seq<T>, f: T -> bool, idx: seq<nat>) {
    && |idx| == |r|
    && (forall k :: 0 <= k < |idx| ==> idx[k] < |s| && r[k] == s[idx[k]])
    && (forall k, l :: 0 <= k < l < |idx| ==> idx[k] < idx[l])
    && (forall i :: 0 <= i < |s| ==> (f(s[i]) <==> i in idx))
  }

  function Shift(idx: seq<nat>): (r: seq<nat>)
    ensures |r| == |idx| && forall k :: 0 <= k < |idx| ==> r[k] == idx[k] + 1
  {
    seq(|idx|, k requires 0 <= k < |idx| => idx[k] + 1)
  }

  /** The positions of `s` that `Filter(f, s)` keeps. */
  ghost function FilterIndices<T>(f: T -> bool, s: seq<T>): seq<nat> {
    if s == [] then []
    else (if f(s[0]) then [0] else []) + Shift(FilterIndices(f, s[1..]))
  }

  lemma {:induction false} FilterIndicesPick<T>(f: T -> bool, s: seq<T>)
    ensures |FilterIndices(f, s)| == |Filter(f, s)|
    ensures forall k :: 0 <= k < |FilterIndices(f, s)| ==>
      FilterIndices(f, s)[k] < |s| && Filter(f, s)[k] == s[FilterIndices(f, s)[k]]
  {
    if s != [] {
      FilterIndicesPick(f, s[1..]);
      var n := if f(s[0]) then 1 else 0;
      var idx, rest := FilterIndices(f, s), FilterIndices(f, s[1..]);
      var r, rr := Filter(f, s), Filter(f, s[1..]);
      assert idx == (if f(s[0]) then [0] else []) + Shift(rest);
      assert r == (if f(s[0]) then [s[0]] else []) + rr;
      forall k | 0 <= k < |idx|
        ensures idx[k] < |s| && r[k] == s[idx[k]]
      {
        if k >= n {
          assert idx[k] == rest[k - n] + 1;
          assert r[k] == rr[k - n] == s[1..][rest[k - n]];
        }
      }
    }
  }

  lemma {:induction false} FilterIndicesIncrease<T>(f: T -> bool, s: seq<T>)
    ensures forall k :: 0 <= k < |FilterIndices(f, s)| ==> FilterIndices(f, s)[k] < |s|
    ensures forall k, l :: 0 <= k < l < |FilterIndices(f, s)| ==> FilterIndices(f, s)[k] < FilterIndices(f, s)[l]
  {
    if s != [] {
      FilterIndicesIncrease(f, s[1..]);
      var n := if f(s[0]) then 1 else 0;
      var idx, rest := FilterIndices(f, s), FilterIndices(f, s[1..]);
      assert forall k :: n <= k < |idx| ==> idx[k] == rest[k - n] + 1;
    }
  }

  lemma {:induction false} FilterIndicesExact<T>(f: T -> bool, s: seq<T>)
    ensures forall i :: 0 <= i < |s| ==> (f(s[i]) <==> i in FilterIndices(f, s))
  {
    if s != [] {
      FilterIndicesExact(f, s[1..]);
      var idx, rest := FilterIndices(f, s), FilterIndices(f, s[1..]);
      var tail := Shift(rest);
      assert idx == (if f(s[0]) then [0] else []) + tail;
      forall i | 0 <= i < |s|
        ensures f(s[i]) <==> i in idx
      {
        if i > 0 {
          assert s[i] == s[1..][i - 1];
          if i - 1 in rest {
            var k :| 0 <= k < |rest| && rest[k] == i - 1;
            assert tail[k] == i;
          }
          if i in tail {
            var k :| 0 <= k < |tail| && tail[k] == i;
            assert rest[k] == i - 1;
          }
        } else {
          assert 0 !in tail;
        }
      }
    }
  }

  /** Filter is an order-preserving selection of exactly the elements that
      satisfy the predicate. */
  lemma FilterSelects<T>(f: T -> bool, s: seq<T>) returns (idx: seq<nat>)
    ensures SelectedBy(Filter(f, s), s, f, idx)
  {
    idx := FilterIndices(f, s);
    FilterIndicesPick(f, s);
    FilterIndicesIncrease(f, s);
    FilterIndicesExact(f, s);
  }

  /** The first position at which `f` holds, or `|s|` if there is none:
      the index `Array.prototype.find` stops at. */
  function FirstIndexWhere<T>(f: T -> bool, s: seq<T>): (i: nat)
    ensures i <= |s|
    ensures i < |s| ==> f(s[i])
    ensures forall j :: 0 <= j < i ==> !f(s[j])
  {
    if s == [] then 0
    else if f(s[0]) then 0
    else 1 + FirstIndexWhere(f, s[1..])
  }

  /** The first position where `f` holds is determined by `f`. */
  lemma FirstIndexWhereIs<T>(f: T -> bool, s: seq<T>, i: nat)
    requires i <= |s| && (i < |s| ==> f(s[i]))
    requires forall j :: 0 <= j < i ==> !f(s[j])
    ensures FirstIndexWhere(f, s) == i
  {
  }

  /** `Array.prototype.find`. */
  function Find<T>(f: T -> bool, s: seq<T>): (r: Option<T>)
    ensures r.None? <==> forall i :: 0 <= i < |s| ==> !f(s[i])
    ensures r.Some? ==> r.value in s && f(r.value)
    ensures r.Some? ==> r.value == s[FirstIndexWhere(f, s)]
  {
    var i := FirstIndexWhere(f, s);
    if i < |s| then Some(s[i]) else None
  }

  /** `xs.slice(-n)` for n > 0: the last `n` elements, or all of them. */
  function LastN<T>(s: seq<T>, n: nat): (r: seq<T>)
    ensures |r| == Min(n, |s|)
    ensures r == s[|s| - |r|..]
  {
    if |s| <= n then s else s[|s| - n..]
  }

  predicate Distinct<T(==)>(s: seq<T>) {
    forall i, j :: 0 <= i < j < |s| ==> s[i] != s[j]
  }

  /** Position of the first occurrence of `x` in `s`. */
  function IndexOf<T(==)>(s: seq<T>, x: T): (i: nat)
    requires x in s
    ensures i < |s| && s[i] == x && x !in s[..i]
  {
    if s[0] == x then 0
    else
      var i := 1 + IndexOf(s[1..], x);
      assert s[..i] == [s[0]] + s[1..][..i - 1];
      i
  }

  /** `[...new Set(s)]`: insertion into a set from left to right, which keeps
      each value at the place of its first appearance. */
  function Dedup<T(==)>(s: seq<T>): (r: seq<T>)
  {
    if s == [] then []
    else
      var d := Dedup(s[..|s| - 1]);
      if s[|s| - 1] in d then d else d + [s[|s| - 1]]
  }

  lemma {:induction false} IndexOfPrefix<T>(s: seq<T>, k: nat, x: T)
    requires k <= |s| && x in s[..k]
    ensures IndexOf(s, x) == IndexOf(s[..k], x) < k
  {
    var i := IndexOf(s[..k], x);
    var j := IndexOf(s, x);
    assert s[..k][..i] == s[..i];
  }

  /** Dedup keeps exactly the values of `s`, each once, ordered by where
      they first appear in `s`. */
  lemma {:induction false} DedupSpec<T>(s: seq<T>)
    ensures Distinct(Dedup(s))
    ensures forall k :: 0 <= k < |Dedup(s)| ==> Dedup(s)[k] in s
    ensures forall i :: 0 <= i < |s| ==> s[i] in Dedup(s)
    ensures forall k, l :: 0 <= k < l < |Dedup(s)| ==> IndexOf(s, Dedup(s)[k]) < IndexOf(s, Dedup(s)[l])
  {
    if s != [] {
      var p := s[..|s| - 1];
      var last := s[|s| - 1];
      DedupSpec(p);
      var d := Dedup(p);
      assert s == p + [last];
      assert s[..|p|] == p;
      forall k | 0 <= k < |d|
        ensures d[k] in p && IndexOf(s, d[k]) == IndexOf(p, d[k]) < |p|
      {
        IndexOfPrefix(s, |p|, d[k]);
      }
      if last !in d {
        forall i | 0 <= i < |p| ensures p[i] != last {
          assert p[i] in d;
        }
        var j := IndexOf(s, last);
        assert j == |p|;
        assert Dedup(s) == d + [last];
      } else {
        assert Dedup(s) == d;
      }
      forall i | 0 <= i < |s|
        ensures s[i] in Dedup(s)
      {
        if i < |p| { assert p[i] in d; }
      }
    }
  }

  /** The sum of `f` over `s`, by structural recursion. */
  function Sum<T>(f: T -> nat, s: seq<T>): nat {
    if s == [] then 0 else f(s[0]) + Sum(f, s[1..])
  }

  /** `s.reduce((acc, x) => acc + f(x), acc)`: a left fold with an accumulator. */
  function FoldSum<T>(f: T -> nat, acc: nat, s: seq<T>): nat
    decreases s
  {
    if s == [] then acc else FoldSum(f, acc + f(s[0]), s[1..])
  }

  /** The left fold with accumulator `acc` adds `acc` to the recursive sum. */
  lemma {:induction false} FoldSumIsSum<T>(f: T -> nat, acc: nat, s: seq<T>)
    ensures FoldSum(f, acc, s) == acc + Sum(f, s)
    decreases s
  {
    if s != [] {
      FoldSumIsSum(f, acc + f(s[0]), s[1..]);
    }
  }
}
