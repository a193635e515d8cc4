/** Small vocabulary shared by every part of the model: optional values,
    the order-preserving list filter the admin pages use (`Array.filter`),
    substring search (`String.includes`) and ASCII lower-casing
    (`String.toLowerCase`). */
module Common {

  datatype Option<T> = None | Some(value: T)

  /** `Array.prototype.filter`: the elements of `xs` that satisfy `p`, in their order. */
  function Filter<T>(xs: seq<T>, p: T -> bool): (r: seq<T>)
    ensures |r| <= |xs|
    ensures forall i :: 0 <= i < |r| ==> r[i] in xs && p(r[i])
    ensures forall i :: 0 <= i < |xs| && p(xs[i]) ==> xs[i] in r
  {
    if xs == [] then []
    else
      var rest := Filter(xs[1..], p);
      assert forall i :: 0 < i < |xs| ==> xs[i] == xs[1..][i - 1];
      if p(xs[0]) then [xs[0]] + rest else rest
  }

  /** The filter keeps each accepted element as often as it occurs, and drops every other one. */
  lemma FilterCounts<T>(xs: seq<T>, p: T -> bool)
    ensures multiset(Filter(xs, p)) <= multiset(xs)
    ensures forall i :: 0 <= i < |xs| ==> multiset(Filter(xs, p))[xs[i]] == if p(xs[i]) then multiset(xs)[xs[i]] else 0
  {
    forall x
      ensures multiset(Filter(xs, p))[x] == if p(x) then multiset(xs)[x] else 0
    {
      FilterCountOf(xs, p, x);
    }
  }

  lemma {:induction false} FilterCountOf<T>(xs: seq<T>, p: T -> bool, x: T)
    ensures multiset(Filter(xs, p))[x] == if p(x) then multiset(xs)[x] else 0
  {
    if xs != [] {
      FilterCountOf(xs[1..], p, x);
      assert xs == [xs[0]] + xs[1..];
    }
  }

  /** Given one accepted element at `i`, the filter keeps exactly one element iff no other
      position is accepted. */
  lemma {:induction false} FilterOne<T>(xs: seq<T>, p: T -> bool, i: nat)
    requires i < |xs| && p(xs[i])
    ensures |Filter(xs, p)| == 1 <==> forall j :: 0 <= j < |xs| && p(xs[j]) ==> j == i
  {
    var tail := xs[1..];
    if i == 0 {
      if |Filter(tail, p)| > 0 {
        var w := Filter(tail, p)[0];
        var k :| 0 <= k < |tail| && tail[k] == w;
        assert xs[k + 1] == w && p(xs[k + 1]);
      }
      forall j | 0 < j < |xs| && p(xs[j])
        ensures |Filter(tail, p)| > 0
      {
        assert tail[j - 1] == xs[j];
      }
    } else {
      assert tail[i - 1] == xs[i];
      FilterOne(tail, p, i - 1);
      if p(xs[0]) {
        assert xs[i] in Filter(tail, p);
      } else {
        forall j | 0 < j < |xs| && p(xs[j])
          ensures p(tail[j - 1])
        {
          assert tail[j - 1] == xs[j];
        }
      }
    }
  }

  /** `r` can be obtained from `xs` by deleting elements (order kept). */
  predicate IsSubsequence<T(==)>(r: seq<T>, xs: seq<T>)
    decreases |xs|
  {
    if r == [] then true
    else if xs == [] then false
    else if r[0] == xs[0] then IsSubsequence(r[1..], xs[1..])
    else IsSubsequence(r, xs[1..])
  }

  lemma {:induction false} SubsequenceOfTail<T>(r: seq<T>, xs: seq<T>)
    requires xs != [] && IsSubsequence(r, xs[1..])
    ensures IsSubsequence(r, xs)
    decreases |xs|, 0
  {
    if r != [] && r[0] == xs[0] {
      SubsequenceDropHead(r, xs[1..]);
    }
  }

  lemma {:induction false} SubsequenceDropHead<T>(r: seq<T>, xs: seq<T>)
    requires r != [] && IsSubsequence(r, xs)
    ensures IsSubsequence(r[1..], xs)
    decreases |xs|, 1
  {
    if r[0] != xs[0] {
      SubsequenceDropHead(r, xs[1..]);
    }
    SubsequenceOfTail(r[1..], xs);
  }

  /** Filtering never reorders: the result is an order-preserving subsequence. */
  lemma {:induction false} FilterIsSubsequence<T>(xs: seq<T>, p: T -> bool)
    ensures IsSubsequence(Filter(xs, p), xs)
    decreases |xs|
  {
    if xs != [] {
      FilterIsSubsequence(xs[1..], p);
      if !p(xs[0]) && Filter(xs[1..], p) != [] {
        SubsequenceOfTail(Filter(xs[1..], p), xs);
      }
    }
  }

  /** Filtering with a predicate every element meets gives the list back. */
  lemma {:induction false} FilterKeepsAll<T>(xs: seq<T>, p: T -> bool)
    requires forall i :: 0 <= i < |xs| ==> p(xs[i])
    ensures Filter(xs, p) == xs
    decreases |xs|
  {
    if xs != [] {
      FilterKeepsAll(xs[1..], p);
    }
  }

  /** Two predicates that agree on every element filter alike. */
  lemma {:induction false} FilterCongruent<T>(xs: seq<T>, p: T -> bool, q: T -> bool)
    requires forall i :: 0 <= i < |xs| ==> p(xs[i]) == q(xs[i])
    ensures Filter(xs, p) == Filter(xs, q)
    decreases |xs|
  {
    if xs != [] {
      FilterCongruent(xs[1..], p, q);
    }
  }

  /** `hay.includes(needle)`. */
  predicate Contains(hay: string, needle: string)
  {
    exists i | 0 <= i <= |hay| - |needle| :: OccursAt(hay, needle, i)
  }

  predicate OccursAt(hay: string, needle: string, i: int)
  {
    0 <= i <= |hay| - |needle| && hay[i..i + |needle|] == needle
  }

  /** `s.startsWith(prefix)`. */
  predicate StartsWith(s: string, prefix: string)
  {
    prefix <= s
  }

  /** `toLowerCase` on one character; only the ASCII letters are folded. */
  function LowerChar(c: char): char
  {
    if 'A' <= c <= 'Z' then (c as int + 32) as char else c
  }

  function Lower(s: string): (r: string)
    ensures |r| == |s|
    ensures forall i :: 0 <= i < |s| ==> r[i] == LowerChar(s[i])
  {
    seq(|s|, i requires 0 <= i < |s| => LowerChar(s[i]))
  }

  /** Lower-casing twice is lower-casing once. */
  lemma LowerIdempotent(s: string)
    ensures Lower(Lower(s)) == Lower(s)
  {
    assert forall i :: 0 <= i < |s| ==> LowerChar(LowerChar(s[i])) == LowerChar(s[i]);
  }

  /** The longest suffix of `s` that has no occurrence of `sep`; all of `s` when `sep` does not occur. */
  function AfterLast(s: string, sep: char): (r: string)
    ensures |r| <= |s| && s[|s| - |r|..] == r
    ensures sep !in r
    ensures |r| < |s| ==> s[|s| - |r| - 1] == sep
    decreases |s|
  {
    if s == [] then []
    else if s[|s| - 1] == sep then []
    else
      var front := s[..|s| - 1];
      var tail := AfterLast(front, sep);
      assert s[|s| - |tail| - 1..] == front[|front| - |tail|..] + [s[|s| - 1]];
      tail + [s[|s| - 1]]
  }
}
