/** The two JavaScript array operations whose edge cases the runtime depends on:
    `indexOf` (which answers -1 when absent) and `splice(start, 1)` (which reads a
    negative start relative to the end of the array). */
module JsArrays {

  /** Index of the first occurrence of `x` in `s`, or -1. */
  function IndexOf<T(==)>(s: seq<T>, x: T): (r: int)
    ensures -1 <= r < |s|
    ensures r == -1 <==> x !in s
    ensures r >= 0 ==> s[r] == x && x !in s[..r]
  {
    if |s| == 0 then -1
    else if s[0] == x then 0
    else
      var k := IndexOf(s[1..], x);
      if k == -1 then -1
      else
        assert s[..k + 1] == [s[0]] + s[1..][..k];
        k + 1
  }

  /** `s.splice(start, 1)`: a negative `start` counts from the end (clamped at 0);
      a start at or past the end removes nothing. */
  function Splice1<T>(s: seq<T>, start: int): (r: seq<T>)
    ensures var k := if start < 0 then (if |s| + start < 0 then 0 else |s| + start) else start;
            (k < |s| ==> r == s[..k] + s[k+1..]) && (k >= |s| ==> r == s)
  {
    var k := if start < 0 then (if |s| + start < 0 then 0 else |s| + start) else start;
    if k < |s| then s[..k] + s[k+1..] else s
  }

  /** Splicing at the index `indexOf` found removes exactly the first occurrence. */
  lemma SpliceFirstOccurrence<T>(s: seq<T>, x: T)
    requires x in s
    ensures var i := IndexOf(s, x);
            Splice1(s, i) == s[..i] + s[i+1..] && x !in s[..i] && s[i] == x
            && |Splice1(s, i)| == |s| - 1
  {
  }

  /** Splicing at -1 (what `indexOf` answers for a missing element) removes the last element. */
  lemma SpliceMinusOne<T>(s: seq<T>)
    ensures |s| > 0 ==> Splice1(s, -1) == s[..|s| - 1]
    ensures |s| == 0 ==> Splice1(s, -1) == s
  {
  }

  /** `Array.prototype.filter`: the elements satisfying `p`, in their original order. */
  function Filter<T(!new)>(s: seq<T>, p: T -> bool): (r: seq<T>)
    ensures |r| <= |s|
    ensures forall x :: x in r <==> x in s && p(x)
  {
    if |s| == 0 then [] else (if p(s[0]) then [s[0]] else []) + Filter(s[1..], p)
  }

  /** No element occurs twice (what a JavaScript `Set` guarantees of its iteration order). */
  predicate Distinct<T(==)>(s: seq<T>) {
    forall i, j :: 0 <= i < j < |s| ==> s[i] != s[j]
  }

  lemma {:induction false} FilterDistinct<T(!new)>(s: seq<T>, p: T -> bool)
    requires Distinct(s)
    ensures Distinct(Filter(s, p))
  {
    if |s| > 0 {
      FilterDistinct(s[1..], p);
      var t := Filter(s[1..], p);
      assert s[0] !in t by { assert s[0] !in s[1..]; }
    }
  }

  /** Filtering a concatenation filters each part. */
  lemma {:induction false} FilterAppend<T(!new)>(a: seq<T>, b: seq<T>, p: T -> bool)
    ensures Filter(a + b, p) == Filter(a, p) + Filter(b, p)
  {
    if |a| > 0 {
      assert (a + b)[1..] == a[1..] + b;
      FilterAppend(a[1..], b, p);
    } else {
      assert a + b == b;
    }
  }
}
