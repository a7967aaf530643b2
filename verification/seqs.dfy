/** Optional values, for the form fields and filter bounds that may be empty. */
module Optional {
  datatype Option<T> = None | Some(value: T)
}

/** `Array.prototype.filter` on sequences, and what it means to keep a subsequence. */
module Seqs {

  /** The elements of `s` that satisfy `p`, in their order in `s`. */
  function Filter<T>(p: T -> bool, s: seq<T>): (r: seq<T>)
    ensures |r| <= |s|
    decreases |s|
  {
    if |s| == 0 then []
    else
      var last := s[|s| - 1];
      Filter(p, s[..|s| - 1]) + (if p(last) then [last] else [])
  }

  /** The filter keeps every passing element as often as it occurs, and nothing else. */
  lemma {:induction false} FilterContents<T(!new)>(p: T -> bool, s: seq<T>)
    ensures forall x :: multiset(Filter(p, s))[x] == if p(x) then multiset(s)[x] else 0
    ensures forall x :: x in Filter(p, s) <==> x in s && p(x)
    decreases |s|
  {
    if |s| > 0 {
      var init, last := s[..|s| - 1], s[|s| - 1];
      assert s == init + [last];
      FilterContents(p, init);
    }
  }

  /** `a` is what is left of `b` after deleting some of its elements. */
  predicate IsSubsequence<T(==)>(a: seq<T>, b: seq<T>)
    decreases |b|
  {
    if |a| == 0 then true
    else if |b| == 0 then false
    else
      || (a[|a| - 1] == b[|b| - 1] && IsSubsequence(a[..|a| - 1], b[..|b| - 1]))
      || IsSubsequence(a, b[..|b| - 1])
  }

  lemma {:induction false} FilterIsSubsequence<T>(p: T -> bool, s: seq<T>)
    ensures IsSubsequence(Filter(p, s), s)
    decreases |s|
  {
    if |s| > 0 {
      var init := s[..|s| - 1];
      FilterIsSubsequence(p, init);
      var r := Filter(p, s);
      if p(s[|s| - 1]) {
        assert r[..|r| - 1] == Filter(p, init);
      } else if |r| > 0 {
        assert r == Filter(p, init) && s[..|s| - 1] == init;
      }
    }
  }

  /** Filtering splits over concatenation. */
  lemma {:induction false} FilterAppend<T>(p: T -> bool, a: seq<T>, b: seq<T>)
    ensures Filter(p, a + b) == Filter(p, a) + Filter(p, b)
    decreases |b|
  {
    if |b| > 0 {
      var init := b[..|b| - 1];
      assert (a + b)[..|a + b| - 1] == a + init;
      FilterAppend(p, a, init);
    } else {
      assert a + b == a;
    }
  }

  /** A filter every element passes keeps the whole sequence. */
  lemma {:induction false} FilterKeepsAll<T>(p: T -> bool, s: seq<T>)
    requires forall i :: 0 <= i < |s| ==> p(s[i])
    ensures Filter(p, s) == s
    decreases |s|
  {
    if |s| > 0 {
      var init := s[..|s| - 1];
      FilterKeepsAll(p, init);
      assert s == init + [s[|s| - 1]];
    }
  }

  /** Filtering twice with the same test is filtering once. */
  lemma FilterIdempotent<T(!new)>(p: T -> bool, s: seq<T>)
    ensures Filter(p, Filter(p, s)) == Filter(p, s)
  {
    var r := Filter(p, s);
    FilterContents(p, s);
    forall i | 0 <= i < |r|
      ensures p(r[i])
    {
      assert r[i] in r;
    }
    FilterKeepsAll(p, r);
  }

  /** A filter that rejects exactly one position removes just that element. */
  lemma {:induction false} FilterDropsOne<T>(p: T -> bool, s: seq<T>, k: nat)
    requires k < |s| && !p(s[k])
    requires forall i :: 0 <= i < |s| && i != k ==> p(s[i])
    ensures Filter(p, s) == s[..k] + s[k + 1..]
    decreases |s|
  {
    var init := s[..|s| - 1];
    if k == |s| - 1 {
      FilterKeepsAll(p, init);
      assert s[k + 1..] == [];
    } else {
      FilterDropsOne(p, init, k);
      assert init[..k] == s[..k];
      assert init[k + 1..] + [s[|s| - 1]] == s[k + 1..];
    }
  }
}
