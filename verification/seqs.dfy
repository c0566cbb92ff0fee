/** Row selection and row mapping over ordered tables, and the
    order-preserving subsequence relation they establish. A boolean-mask
    selection `df[mask]` is `Filter`, a row-wise assignment is `Map`. */
module Seqs {

  /** `a` is obtained from `b` by deleting zero or more elements; the
      survivors keep their relative order. */
  predicate IsSubseq<T(==)>(a: seq<T>, b: seq<T>)
    decreases |b|
  {
    |a| == 0 || (|b| > 0 && ((a[0] == b[0] && IsSubseq(a[1..], b[1..])) || IsSubseq(a, b[1..])))
  }

  /** The elements of `s` satisfying `p`, in their original order. */
  function Filter<T(==)>(p: T -> bool, s: seq<T>): (r: seq<T>)
    ensures |r| <= |s|
    ensures forall x :: x in r ==> x in s && p(x)
    ensures forall x :: x in s && p(x) ==> x in r
    ensures IsSubseq(r, s)
    // every copy of a passing element is kept, and no copy of a failing one
    ensures forall x :: x in s ==> multiset(r)[x] == if p(x) then multiset(s)[x] else 0
    decreases |s|
  {
    if |s| == 0 then []
    else
      assert s == [s[0]] + s[1..];
      if p(s[0]) then
        var rest := Filter(p, s[1..]);
        assert ([s[0]] + rest)[1..] == rest;
        [s[0]] + rest
      else Filter(p, s[1..])
  }

  /** `f` applied to every element, one output per input, in order. */
  function Map<T, U>(f: T -> U, s: seq<T>): (r: seq<U>)
    ensures |r| == |s|
    ensures forall i :: 0 <= i < |s| ==> r[i] == f(s[i])
    decreases |s|
  {
    if |s| == 0 then [] else [f(s[0])] + Map(f, s[1..])
  }

  lemma {:induction false} SubseqLength<T>(a: seq<T>, b: seq<T>)
    requires IsSubseq(a, b)
    ensures |a| <= |b|
    ensures forall x :: x in a ==> x in b
    decreases |b|
  {
    if |a| == 0 {
    } else if a[0] == b[0] && IsSubseq(a[1..], b[1..]) {
      SubseqLength(a[1..], b[1..]);
      forall x | x in a ensures x in b {
        if x != a[0] {
          assert x in a[1..];
        }
      }
    } else {
      SubseqLength(a, b[1..]);
      forall x | x in a ensures x in b {
        assert x in b[1..];
      }
    }
  }

  lemma {:induction false} SubseqTransitive<T>(a: seq<T>, b: seq<T>, c: seq<T>)
    requires IsSubseq(a, b) && IsSubseq(b, c)
    ensures IsSubseq(a, c)
    decreases |c|
  {
    if |a| == 0 {
    } else if IsSubseq(b, c[1..]) {
      SubseqTransitive(a, b, c[1..]);
    } else {
      assert b[0] == c[0] && IsSubseq(b[1..], c[1..]);
      if a[0] == b[0] && IsSubseq(a[1..], b[1..]) {
        SubseqTransitive(a[1..], b[1..], c[1..]);
      } else {
        SubseqTransitive(a, b[1..], c[1..]);
      }
    }
  }

  /** Two successive selections are one selection by the conjunction. */
  lemma {:induction false} FilterFilter<T>(p: T -> bool, q: T -> bool, pq: T -> bool, s: seq<T>)
    requires forall x :: pq(x) == (q(x) && p(x))
    ensures Filter(p, Filter(q, s)) == Filter(pq, s)
    decreases |s|
  {
    if |s| > 0 {
      FilterFilter(p, q, pq, s[1..]);
    }
  }

  /** Selecting after a row-wise map is mapping after selecting by the
      composed condition. */
  lemma {:induction false} FilterMap<T, U>(p: U -> bool, f: T -> U, pf: T -> bool, s: seq<T>)
    requires forall x :: pf(x) == p(f(x))
    ensures Filter(p, Map(f, s)) == Map(f, Filter(pf, s))
    decreases |s|
  {
    if |s| > 0 {
      FilterMap(p, f, pf, s[1..]);
      assert Map(f, s)[1..] == Map(f, s[1..]);
    }
  }

  /** Nothing passes, nothing is selected. */
  lemma {:induction false} FilterNone<T>(p: T -> bool, s: seq<T>)
    requires forall x :: x in s ==> !p(x)
    ensures Filter(p, s) == []
    decreases |s|
  {
    if |s| > 0 {
      assert s[0] in s;
      FilterNone(p, s[1..]);
    }
  }

  /** The image of a member is a member of the image. */
  lemma MapMember<T, U>(f: T -> U, s: seq<T>, x: T)
    requires x in s
    ensures f(x) in Map(f, s)
  {
    var i :| 0 <= i < |s| && s[i] == x;
    assert Map(f, s)[i] == f(x);
  }

  /** A selection only depends on the condition at the elements present. */
  lemma {:induction false} FilterCongruent<T>(p: T -> bool, q: T -> bool, s: seq<T>)
    requires forall x :: x in s ==> p(x) == q(x)
    ensures Filter(p, s) == Filter(q, s)
    decreases |s|
  {
    if |s| > 0 {
      assert forall x :: x in s[1..] ==> x in s;
      FilterCongruent(p, q, s[1..]);
    }
  }

  /** Composing two row-wise maps is one map by the composed function. */
  lemma {:induction false} MapMap<T, U, V>(g: U -> V, f: T -> U, gf: T -> V, s: seq<T>)
    requires forall x :: gf(x) == g(f(x))
    ensures Map(g, Map(f, s)) == Map(gf, s)
    decreases |s|
  {
    if |s| > 0 {
      MapMap(g, f, gf, s[1..]);
      assert Map(f, s)[1..] == Map(f, s[1..]);
    }
  }
}
