/**
 * Searching and filtering sequences: `Array.prototype.filter` (the
 * elements that pass a test, in their original order), and the
 * first-match lookup that a document query such as `findOne` or
 * `findById` performs over a collection in its natural order.
 */
module Sequences {
  import opened Wrappers

  /** Index of the first element at or after `from` that passes `p`. */
  function FirstIndex<T>(s: seq<T>, p: T -> bool, from: nat): (r: Option<nat>)
    ensures r.Some? ==> from <= r.value < |s| && p(s[r.value])
    ensures forall k | from <= k < |s| && (r.None? || k < r.value) :: !p(s[k])
    decreases |s| - from
  {
    if from >= |s| then None
    else if p(s[from]) then Some(from)
    else FirstIndex(s, p, from + 1)
  }

  /** Searching from `from` in `s + [x]`: the match in `s` if any, else `x` if it matches. */
  lemma {:induction false} FirstIndexAppendFrom<T>(s: seq<T>, x: T, p: T -> bool, from: nat)
    requires from <= |s|
    ensures FirstIndex(s + [x], p, from) ==
            if FirstIndex(s, p, from).Some? then FirstIndex(s, p, from)
            else if p(x) then Some(|s|) else None
    decreases |s| - from
  {
    if from == |s| {
      assert (s + [x])[from] == x;
    } else {
      assert (s + [x])[from] == s[from];
      if !p(s[from]) {
        FirstIndexAppendFrom(s, x, p, from + 1);
      }
    }
  }

  /** A first match in `s` is still the first match after appending. */
  lemma FirstIndexAppend<T>(s: seq<T>, x: T, p: T -> bool)
    ensures FirstIndex(s + [x], p, 0) ==
            if FirstIndex(s, p, 0).Some? then FirstIndex(s, p, 0)
            else if p(x) then Some(|s|) else None
  {
    FirstIndexAppendFrom(s, x, p, 0);
  }

  /** A match that no earlier element shares is the first match. */
  lemma FirstIndexAt<T>(s: seq<T>, p: T -> bool, k: nat)
    requires k < |s| && p(s[k])
    requires forall j | 0 <= j < k :: !p(s[j])
    ensures FirstIndex(s, p, 0) == Some(k)
  {
    var r := FirstIndex(s, p, 0);
    assert r.Some? && r.value <= k;
  }

  /** `s.filter(keep)`. */
  function Filter<T>(s: seq<T>, keep: T -> bool): (r: seq<T>)
    ensures |r| <= |s|
    ensures forall i | 0 <= i < |r| :: keep(r[i])
  {
    if s == [] then []
    else if keep(s[0]) then [s[0]] + Filter(s[1..], keep)
    else Filter(s[1..], keep)
  }

  /** `r` can be obtained from `s` by deleting elements, keeping the order of the rest. */
  predicate IsSubsequence<T(==)>(r: seq<T>, s: seq<T>) {
    if r == [] then true
    else if s == [] then false
    else (r[0] == s[0] && IsSubsequence(r[1..], s[1..])) || IsSubsequence(r, s[1..])
  }

  /** Filtering only deletes: the order of what is kept is the original order. */
  lemma {:induction false} FilterIsSubsequence<T>(s: seq<T>, keep: T -> bool)
    ensures IsSubsequence(Filter(s, keep), s)
  {
    if s != [] {
      FilterIsSubsequence(s[1..], keep);
      var rest := Filter(s[1..], keep);
      if keep(s[0]) {
        assert Filter(s, keep) == [s[0]] + rest;
        assert ([s[0]] + rest)[1..] == rest;
      } else {
        assert IsSubsequence(rest, s);
      }
    }
  }

  /**
   * Filtering keeps every occurrence of a passing element and no occurrence
   * of a failing one: with the order fixed by FilterIsSubsequence, this pins
   * the result down completely.
   */
  lemma {:induction false} FilterCounts<T>(s: seq<T>, keep: T -> bool, x: T)
    ensures multiset(Filter(s, keep))[x] == if keep(x) then multiset(s)[x] else 0
  {
    if s != [] {
      FilterCounts(s[1..], keep, x);
      assert s == [s[0]] + s[1..];
      assert multiset(s) == multiset{s[0]} + multiset(s[1..]);
      if keep(s[0]) {
        assert multiset(Filter(s, keep)) == multiset{s[0]} + multiset(Filter(s[1..], keep));
      }
    }
  }

  /** Membership form of FilterCounts. */
  lemma FilterMembers<T>(s: seq<T>, keep: T -> bool, x: T)
    ensures x in Filter(s, keep) <==> x in s && keep(x)
  {
    FilterCounts(s, keep, x);
    assert x in Filter(s, keep) <==> multiset(Filter(s, keep))[x] > 0;
    assert x in s <==> multiset(s)[x] > 0;
  }

  /** Filtering with a test every element passes changes nothing. */
  lemma {:induction false} FilterAll<T>(s: seq<T>, keep: T -> bool)
    requires forall i | 0 <= i < |s| :: keep(s[i])
    ensures Filter(s, keep) == s
  {
    if s != [] {
      FilterAll(s[1..], keep);
    }
  }
}
