/** pandas `left.merge(right, on=key, how="left")`: every left row, in
    order, paired with each right row of equal key, in right order; a left
    row with no partner appears once, paired with nothing (its right-side
    columns null). pandas matches null keys with each other, which is what
    equality on `Option` keys does. */
module Joins {
  import opened Wrappers
  import opened Seqs

  function Partners<L, R(==), K(==)>(l: L, right: seq<R>, kl: L -> K, kr: R -> K): seq<R>
  {
    Filter((r: R) => kr(r) == kl(l), right)
  }

  /** The output rows contributed by one left row. */
  function JoinOne<L, R(==), K(==)>(l: L, right: seq<R>, kl: L -> K, kr: R -> K): seq<(L, Option<R>)>
  {
    var ps := Partners(l, right, kl, kr);
    if |ps| == 0 then [(l, None)] else Map((r: R) => (l, Some(r)), ps)
  }

  function LeftJoin<L(==), R(==), K(==)>(left: seq<L>, right: seq<R>, kl: L -> K, kr: R -> K): (out: seq<(L, Option<R>)>)
    // no left row is lost, and none is invented
    ensures |out| >= |left|
    ensures forall l :: l in left ==> exists p :: p in out && p.0 == l
    ensures forall p :: p in out ==> p.0 in left
    // a pairing joins equal keys
    ensures forall p :: p in out && p.1.Some? ==> p.1.value in right && kr(p.1.value) == kl(p.0)
    // every pair of equal keys is in the output
    ensures forall l, r :: l in left && r in right && kr(r) == kl(l) ==> (l, Some(r)) in out
    // an unpaired row has no partner at all
    ensures forall p :: p in out && p.1.None? ==> forall r :: r in right ==> kr(r) != kl(p.0)
    decreases |left|
  {
    if |left| == 0 then []
    else
      var head := JoinOne(left[0], right, kl, kr);
      var rest := LeftJoin(left[1..], right, kl, kr);
      JoinOneFacts(left[0], right, kl, kr);
      assert forall l :: l in left ==> l == left[0] || l in left[1..];
      assert head[0] in head + rest;
      head + rest
  }

  lemma JoinOneFacts<L, R, K>(l: L, right: seq<R>, kl: L -> K, kr: R -> K)
    ensures |JoinOne(l, right, kl, kr)| >= 1
    ensures forall p :: p in JoinOne(l, right, kl, kr) ==> p.0 == l
    ensures forall p :: p in JoinOne(l, right, kl, kr) && p.1.Some? ==> p.1.value in right && kr(p.1.value) == kl(l)
    ensures forall r :: r in right && kr(r) == kl(l) ==> (l, Some(r)) in JoinOne(l, right, kl, kr)
    ensures forall p :: p in JoinOne(l, right, kl, kr) && p.1.None? ==> forall r :: r in right ==> kr(r) != kl(l)
  {
    var ps := Partners(l, right, kl, kr);
    var out := JoinOne(l, right, kl, kr);
    if |ps| > 0 {
      forall r | r in right && kr(r) == kl(l) ensures (l, Some(r)) in out {
        var i :| 0 <= i < |ps| && ps[i] == r;
        assert out[i] == (l, Some(r));
      }
      forall p | p in out ensures p.0 == l && p.1.Some? && p.1.value in ps {
        var i :| 0 <= i < |out| && out[i] == p;
        assert ps[i] in ps;
      }
    } else {
      forall r | r in right ensures kr(r) != kl(l) {
      }
    }
  }

  /** When no two right rows share a key, the join is one output row per
      left row, in left order. */
  lemma {:induction false} LeftJoinUniqueKeys<L, R, K>(left: seq<L>, right: seq<R>, kl: L -> K, kr: R -> K)
    requires forall i, j :: 0 <= i < j < |right| ==> kr(right[i]) != kr(right[j])
    ensures |LeftJoin(left, right, kl, kr)| == |left|
    ensures forall i :: 0 <= i < |left| ==> LeftJoin(left, right, kl, kr)[i].0 == left[i]
    decreases |left|
  {
    if |left| > 0 {
      LeftJoinUniqueKeys(left[1..], right, kl, kr);
      AtMostOnePartner(left[0], right, kl, kr);
      var head := JoinOne(left[0], right, kl, kr);
      var rest := LeftJoin(left[1..], right, kl, kr);
      assert LeftJoin(left, right, kl, kr) == head + rest;
      assert |head| == 1;
      assert head[0].0 == left[0];
    }
  }

  lemma {:induction false} AtMostOnePartner<L, R, K>(l: L, right: seq<R>, kl: L -> K, kr: R -> K)
    requires forall i, j :: 0 <= i < j < |right| ==> kr(right[i]) != kr(right[j])
    ensures |Partners(l, right, kl, kr)| <= 1
    decreases |right|
  {
    if |right| > 0 {
      AtMostOnePartner(l, right[1..], kl, kr);
      if kr(right[0]) == kl(l) {
        var tail := Partners(l, right[1..], kl, kr);
        forall x | x in right[1..] ensures kr(x) != kl(l) {
          var j :| 0 <= j < |right[1..]| && right[1..][j] == x;
          assert right[j + 1] == x;
        }
        FilterNone((r: R) => kr(r) == kl(l), right[1..]);
      }
    }
  }

  // ---------------------------------------------------------------------
  // Multiplicities

  /** The join as a bare concatenation, without the facts `LeftJoin`
      carries; counting is done on this form. */
  function Join<L, R(==), K(==)>(left: seq<L>, right: seq<R>, kl: L -> K, kr: R -> K): seq<(L, Option<R>)>
    decreases |left|
  {
    if |left| == 0 then [] else JoinOne(left[0], right, kl, kr) + Join(left[1..], right, kl, kr)
  }

  lemma {:induction false} JoinIsLeftJoin<L, R, K>(left: seq<L>, right: seq<R>, kl: L -> K, kr: R -> K)
    ensures LeftJoin(left, right, kl, kr) == Join(left, right, kl, kr)
    decreases |left|
  {
    if |left| > 0 {
      JoinIsLeftJoin(left[1..], right, kl, kr);
    }
  }

  /** How often each pair occurs, part one: a left row with no partner
      appears, unpaired, exactly as often as it occurs on the left. With
      `PairedCount` and the pairing facts of `LeftJoin` (no other pair
      occurs at all) this fixes the output up to order. */
  lemma UnpairedCount<L, R, K>(left: seq<L>, right: seq<R>, kl: L -> K, kr: R -> K, l: L)
    requires forall r :: r in right ==> kr(r) != kl(l)
    ensures multiset(LeftJoin(left, right, kl, kr))[(l, None)] == multiset(left)[l]
  {
    JoinIsLeftJoin(left, right, kl, kr);
    JoinUnpaired(left, right, kl, kr, l);
  }

  lemma {:induction false} JoinUnpaired<L, R, K>(left: seq<L>, right: seq<R>, kl: L -> K, kr: R -> K, l: L)
    requires forall r :: r in right ==> kr(r) != kl(l)
    ensures multiset(Join(left, right, kl, kr))[(l, None)] == multiset(left)[l]
    decreases |left|
  {
    if |left| > 0 {
      JoinUnpaired(left[1..], right, kl, kr, l);
      JoinCountSplit(left, right, kl, kr, (l, None));
      HeadCount(left, l);
      JoinOneUnpairedCount(left[0], right, kl, kr, l);
    }
  }

  /** A count in the join is the first left row's contribution plus the
      count in the join of the others. */
  lemma JoinCountSplit<L, R, K>(left: seq<L>, right: seq<R>, kl: L -> K, kr: R -> K, x: (L, Option<R>))
    requires |left| > 0
    ensures multiset(Join(left, right, kl, kr))[x] ==
      multiset(JoinOne(left[0], right, kl, kr))[x] + multiset(Join(left[1..], right, kl, kr))[x]
  {
    var head := JoinOne(left[0], right, kl, kr);
    var rest := Join(left[1..], right, kl, kr);
    assert multiset(head + rest) == multiset(head) + multiset(rest);
  }

  lemma HeadCount<T>(s: seq<T>, x: T)
    requires |s| > 0
    ensures multiset(s)[x] == (if x == s[0] then 1 else 0) + multiset(s[1..])[x]
  {
    assert s == [s[0]] + s[1..];
    assert multiset(s) == multiset([s[0]]) + multiset(s[1..]);
  }

  /** How often each pair occurs, part two: a pair of rows with equal keys
      appears as often as the product of their occurrences on each side. */
  lemma PairedCount<L, R, K>(left: seq<L>, right: seq<R>, kl: L -> K, kr: R -> K, l: L, r: R)
    requires kr(r) == kl(l)
    ensures multiset(LeftJoin(left, right, kl, kr))[(l, Some(r))] == multiset(left)[l] * multiset(right)[r]
  {
    JoinIsLeftJoin(left, right, kl, kr);
    JoinPaired(left, right, kl, kr, l, r);
  }

  lemma {:induction false} JoinPaired<L, R, K>(left: seq<L>, right: seq<R>, kl: L -> K, kr: R -> K, l: L, r: R)
    requires kr(r) == kl(l)
    ensures multiset(Join(left, right, kl, kr))[(l, Some(r))] == multiset(left)[l] * multiset(right)[r]
    decreases |left|
  {
    if |left| > 0 {
      JoinPaired(left[1..], right, kl, kr, l, r);
      JoinCountSplit(left, right, kl, kr, (l, Some(r)));
      HeadCount(left, l);
      JoinOnePairedCount(left[0], right, kl, kr, l, r);
      CountStep(multiset(JoinOne(left[0], right, kl, kr))[(l, Some(r))],
                multiset(Join(left[1..], right, kl, kr))[(l, Some(r))],
                multiset(left)[l], multiset(left[1..])[l], multiset(right)[r]);
    }
  }

  lemma CountStep(h: nat, t: nat, a: nat, b: nat, c: nat)
    requires t == b * c
    requires (a == b + 1 && h == c) || (a == b && h == 0)
    ensures h + t == a * c
  {
    if a == b + 1 {
      assert (b + 1) * c == c + b * c;
    }
  }

  /** One left row contributes one unpaired row when it has no partner. */
  lemma JoinOneUnpairedCount<L, R, K>(l0: L, right: seq<R>, kl: L -> K, kr: R -> K, l: L)
    requires forall r :: r in right ==> kr(r) != kl(l)
    ensures multiset(JoinOne(l0, right, kl, kr))[(l, None)] == if l == l0 then 1 else 0
  {
    if l == l0 {
      FilterNone((r: R) => kr(r) == kl(l0), right);
    } else {
      JoinOneFacts(l0, right, kl, kr);
      assert (l, None) !in JoinOne(l0, right, kl, kr);
    }
  }

  /** One left row contributes each of its partners as often as the
      partner occurs on the right. */
  lemma JoinOnePairedCount<L, R, K>(l0: L, right: seq<R>, kl: L -> K, kr: R -> K, l: L, r: R)
    requires kr(r) == kl(l)
    ensures multiset(JoinOne(l0, right, kl, kr))[(l, Some(r))] == if l == l0 then multiset(right)[r] else 0
  {
    var ps := Partners(l0, right, kl, kr);
    if l != l0 {
      JoinOneFacts(l0, right, kl, kr);
      assert (l, Some(r)) !in JoinOne(l0, right, kl, kr);
    } else if |ps| == 0 {
      assert r !in right;
    } else {
      TagCount((x: R) => (l0, Some(x)), l0, ps, l, r);
    }
  }

  /** Tagging every right row with the same left row keeps the counts. */
  lemma {:induction false} TagCount<L, R>(f: R -> (L, Option<R>), l0: L, s: seq<R>, l: L, r: R)
    requires forall y :: f(y) == (l0, Some(y))
    ensures multiset(Map(f, s))[(l, Some(r))] == if l == l0 then multiset(s)[r] else 0
    decreases |s|
  {
    if |s| > 0 {
      TagCount(f, l0, s[1..], l, r);
      HeadCount(Map(f, s), (l, Some(r)));
      HeadCount(s, r);
      assert Map(f, s)[1..] == Map(f, s[1..]);
    }
  }
}
