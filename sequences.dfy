/** The erase-remove idiom (`v.erase(std::remove_if(...), v.end())`) used by
    every version of the game, as a filter over sequences. */
module Sequences {

  /** The elements of `s` that satisfy `keep`, in their original order.
      Defined from the back so that a loop over a growing prefix extends it
      one element at a time. */
  function Filter<T>(s: seq<T>, keep: T -> bool): (r: seq<T>)
    ensures |r| <= |s|
    ensures forall x :: x in r ==> x in s && keep(x)
  {
    if |s| == 0 then []
    else if keep(s[|s| - 1]) then Filter(s[..|s| - 1], keep) + [s[|s| - 1]]
    else Filter(s[..|s| - 1], keep)
  }

  /** Nothing satisfying `keep` is lost. */
  lemma {:induction false} FilterComplete<T>(s: seq<T>, keep: T -> bool, x: T)
    requires x in s && keep(x)
    ensures x in Filter(s, keep)
  {
    var n := |s| - 1;
    if s[n] != x {
      assert x in s[..n] by {
        var i :| 0 <= i < |s| && s[i] == x;
        assert i < n;
        assert s[..n][i] == x;
      }
      FilterComplete(s[..n], keep, x);
    }
  }

  /** Filtering distributes over concatenation, so survivors keep their
      relative order. */
  lemma {:induction false} FilterConcat<T>(a: seq<T>, b: seq<T>, keep: T -> bool)
    ensures Filter(a + b, keep) == Filter(a, keep) + Filter(b, keep)
  {
    if |b| == 0 {
      assert a + b == a;
    } else {
      var n := |b| - 1;
      assert (a + b)[..|a + b| - 1] == a + b[..n];
      FilterConcat(a, b[..n], keep);
    }
  }

  /** When nothing is to be removed the sequence is untouched. */
  lemma {:induction false} FilterKeepsAll<T>(s: seq<T>, keep: T -> bool)
    requires forall i :: 0 <= i < |s| ==> keep(s[i])
    ensures Filter(s, keep) == s
  {
    if |s| > 0 {
      var n := |s| - 1;
      FilterKeepsAll(s[..n], keep);
      assert s[..n] + [s[n]] == s;
    }
  }

  /** When nothing is to be kept the result is empty. */
  lemma {:induction false} FilterNone<T>(s: seq<T>, keep: T -> bool)
    requires forall i :: 0 <= i < |s| ==> !keep(s[i])
    ensures Filter(s, keep) == []
  {
    if |s| > 0 {
      FilterNone(s[..|s| - 1], keep);
    }
  }

  /** A second erase-remove with the same predicate changes nothing. */
  lemma FilterIdempotent<T>(s: seq<T>, keep: T -> bool)
    ensures Filter(Filter(s, keep), keep) == Filter(s, keep)
  {
    var r := Filter(s, keep);
    forall i | 0 <= i < |r|
      ensures keep(r[i])
    {
      assert r[i] in r;
    }
    FilterKeepsAll(r, keep);
  }

  /** The complement of a predicate. */
  function Not<T>(keep: T -> bool): T -> bool
  {
    x => !keep(x)
  }

  /** The number of elements removed plus the number kept is the length. */
  lemma {:induction false} FilterCount<T>(s: seq<T>, keep: T -> bool)
    ensures |Filter(s, keep)| + |Filter(s, Not(keep))| == |s|
  {
    if |s| > 0 {
      FilterCount(s[..|s| - 1], keep);
    }
  }

  /** The element-wise image of `s` under `f`. */
  function Map<T, U>(s: seq<T>, f: T -> U): (r: seq<U>)
    ensures |r| == |s|
    ensures forall i :: 0 <= i < |s| ==> r[i] == f(s[i])
  {
    if |s| == 0 then [] else Map(s[..|s| - 1], f) + [f(s[|s| - 1])]
  }

  /** Two predicates that agree on every element filter alike. */
  lemma {:induction false} FilterCongruent<T>(s: seq<T>, keep1: T -> bool, keep2: T -> bool)
    requires forall i :: 0 <= i < |s| ==> keep1(s[i]) == keep2(s[i])
    ensures Filter(s, keep1) == Filter(s, keep2)
  {
    if |s| > 0 {
      FilterCongruent(s[..|s| - 1], keep1, keep2);
    }
  }

  /** std::remove_if followed by erase: the kept elements are moved to the
      front in order, then the tail is cut off. */
  method EraseRemove<T>(s: seq<T>, keep: T -> bool) returns (r: seq<T>)
    ensures r == Filter(s, keep)
  {
    var a := s;
    var w := 0;
    for i := 0 to |s|
      invariant w <= i && |a| == |s|
      invariant a[..w] == Filter(s[..i], keep)
      invariant a[i..] == s[i..]
    {
      assert s[..i + 1][..i] == s[..i];
      assert a[i] == s[i];
      if keep(a[i]) {
        a := a[w := a[i]];
        w := w + 1;
      }
    }
    assert s[..|s|] == s;
    r := a[..w];
  }
}
