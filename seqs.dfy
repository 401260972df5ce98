/** Sequence combinators the source gets from `Array.prototype` (filter, map, concat)
    and the facts about them that the other modules rely on. */
module Seqs {

  /** The elements of `s` that satisfy `p`, in their original order. */
  function Filter<T>(s: seq<T>, p: T -> bool): (r: seq<T>)
    ensures |r| <= |s|
    ensures forall x :: x in r ==> p(x)
    decreases |s|
  {
    if |s| == 0 then []
    else
      var init := Filter(s[..|s| - 1], p);
      if p(s[|s| - 1]) then init + [s[|s| - 1]] else init
  }

  /** `f` applied to every element of `s`. */
  function Map<A, B>(s: seq<A>, f: A -> B): (r: seq<B>)
    ensures |r| == |s|
    ensures forall i :: 0 <= i < |s| ==> r[i] == f(s[i])
    decreases |s|
  {
    if |s| == 0 then [] else Map(s[..|s| - 1], f) + [f(s[|s| - 1])]
  }

  /** The concatenation of all sequences in `ss`, in order. */
  function Flatten<T>(ss: seq<seq<T>>): seq<T>
    decreases |ss|
  {
    if |ss| == 0 then [] else Flatten(ss[..|ss| - 1]) + ss[|ss| - 1]
  }

  /** The sum of a sequence of naturals. */
  function Sum(s: seq<nat>): nat
    decreases |s|
  {
    if |s| == 0 then 0 else Sum(s[..|s| - 1]) + s[|s| - 1]
  }

  /** `a` is `b` with some elements left out: same elements, same relative order. */
  predicate Subseq<T(==)>(a: seq<T>, b: seq<T>)
    decreases |b|
  {
    if |a| == 0 then true
    else if |b| == 0 then false
    else if a[|a| - 1] == b[|b| - 1] then Subseq(a[..|a| - 1], b[..|b| - 1])
    else Subseq(a, b[..|b| - 1])
  }

  lemma {:induction false} FilterMember<T>(s: seq<T>, p: T -> bool, x: T)
    ensures x in Filter(s, p) <==> x in s && p(x)
    decreases |s|
  {
    if |s| > 0 {
      var init := s[..|s| - 1];
      FilterMember(init, p, x);
      assert s == init + [s[|s| - 1]];
    }
  }

  lemma {:induction false} SubseqDropLast<T>(a: seq<T>, b: seq<T>)
    requires |a| > 0 && Subseq(a, b)
    ensures Subseq(a[..|a| - 1], b)
    decreases |b|, 0
  {
    var a' := a[..|a| - 1];
    if |a'| > 0 {
      if a[|a| - 1] == b[|b| - 1] {
        SubseqGrow(a', b[..|b| - 1], b[|b| - 1]);
        assert b[..|b| - 1] + [b[|b| - 1]] == b;
      } else {
        SubseqDropLast(a, b[..|b| - 1]);
        SubseqGrow(a', b[..|b| - 1], b[|b| - 1]);
        assert b[..|b| - 1] + [b[|b| - 1]] == b;
      }
    }
  }

  lemma {:induction false} SubseqGrow<T>(a: seq<T>, b: seq<T>, x: T)
    requires Subseq(a, b)
    ensures Subseq(a, b + [x])
    decreases |b|, 1
  {
    var b' := b + [x];
    assert b'[..|b'| - 1] == b;
    if |a| > 0 && a[|a| - 1] == x {
      SubseqDropLast(a, b);
    }
  }

  /** Filtering keeps the surviving elements in their original order. */
  lemma {:induction false} FilterSubseq<T>(s: seq<T>, p: T -> bool)
    ensures Subseq(Filter(s, p), s)
    decreases |s|
  {
    if |s| > 0 {
      var init := s[..|s| - 1];
      var last := s[|s| - 1];
      FilterSubseq(init, p);
      var f := Filter(init, p);
      if p(last) {
        assert (f + [last])[..|f|] == f;
      } else {
        SubseqGrow(f, init, last);
        assert init + [last] == s;
      }
    }
  }

  /** Filtering keeps every occurrence of an element that passes and none of one that fails. */
  lemma {:induction false} FilterCount<T>(s: seq<T>, p: T -> bool, x: T)
    ensures multiset(Filter(s, p))[x] == if p(x) then multiset(s)[x] else 0
    decreases |s|
  {
    if |s| > 0 {
      var init := s[..|s| - 1];
      assert s == init + [s[|s| - 1]];
      FilterCount(init, p, x);
    }
  }

  /** A subsequence holds no element more often than the sequence does. */
  lemma {:induction false} SubseqCount<T>(a: seq<T>, b: seq<T>, x: T)
    requires Subseq(a, b)
    ensures multiset(a)[x] <= multiset(b)[x]
    decreases |b|
  {
    if |a| > 0 {
      var b' := b[..|b| - 1];
      assert b == b' + [b[|b| - 1]];
      if a[|a| - 1] == b[|b| - 1] {
        var a' := a[..|a| - 1];
        assert a == a' + [a[|a| - 1]];
        SubseqCount(a', b', x);
      } else {
        SubseqCount(a, b', x);
      }
    }
  }

  /** `kept` is what filtering `s` by `p` should give, described without `Filter`: a
      subsequence of `s` that holds each element passing `p` as often as `s` does, and no other. */
  ghost predicate Keeps<T(!new)>(kept: seq<T>, s: seq<T>, p: T -> bool)
  {
    Subseq(kept, s) && forall x :: multiset(kept)[x] == if p(x) then multiset(s)[x] else 0
  }

  /** The filter is the one sequence that `Keeps`. */
  lemma KeepsIsFilter<T(!new)>(kept: seq<T>, s: seq<T>, p: T -> bool)
    ensures Keeps(kept, s, p) <==> kept == Filter(s, p)
  {
    if kept == Filter(s, p) {
      FilterSubseq(s, p);
      forall x
        ensures multiset(kept)[x] == if p(x) then multiset(s)[x] else 0
      {
        FilterCount(s, p, x);
      }
    }
    if Keeps(kept, s, p) {
      KeptIsFilter(kept, s, p);
    }
  }

  lemma {:induction false} KeptIsFilter<T(!new)>(kept: seq<T>, s: seq<T>, p: T -> bool)
    requires Keeps(kept, s, p)
    ensures kept == Filter(s, p)
    decreases |s|
  {
    if |s| == 0 {
      assert |kept| == 0;
    } else {
      var init, last := s[..|s| - 1], s[|s| - 1];
      assert s == init + [last];
      if |kept| > 0 && kept[|kept| - 1] == last {
        var k' := kept[..|kept| - 1];
        assert kept == k' + [last];
        assert p(last) by {
          assert multiset(kept)[last] > 0;
        }
        forall x
          ensures multiset(k')[x] == if p(x) then multiset(init)[x] else 0
        {
          assert multiset(kept)[x] == multiset(k')[x] + (if x == last then 1 else 0);
          assert multiset(s)[x] == multiset(init)[x] + (if x == last then 1 else 0);
        }
        KeptIsFilter(k', init, p);
      } else {
        assert Subseq(kept, init);
        if p(last) {
          SubseqCount(kept, init, last);
          assert false;
        }
        forall x
          ensures multiset(kept)[x] == if p(x) then multiset(init)[x] else 0
        {
          assert multiset(s)[x] == multiset(init)[x] + (if x == last then 1 else 0);
        }
        KeptIsFilter(kept, init, p);
      }
    }
  }

  /** `p` splits `s` into two parts whose lengths add up to `|s|`. */
  lemma {:induction false} FilterPartition<T>(s: seq<T>, p: T -> bool, q: T -> bool)
    requires forall x :: q(x) == !p(x)
    ensures |Filter(s, p)| + |Filter(s, q)| == |s|
    decreases |s|
  {
    if |s| > 0 {
      FilterPartition(s[..|s| - 1], p, q);
    }
  }

  lemma {:induction false} MapMember<A, B>(s: seq<A>, f: A -> B, y: B)
    ensures y in Map(s, f) <==> exists i :: 0 <= i < |s| && y == f(s[i])
  {
    var r := Map(s, f);
    if y in r {
      var i :| 0 <= i < |r| && r[i] == y;
      assert y == f(s[i]);
    }
  }

  lemma {:induction false} FlattenAppend<T>(ss: seq<seq<T>>, t: seq<T>)
    ensures Flatten(ss + [t]) == Flatten(ss) + t
  {
    assert (ss + [t])[..|ss|] == ss;
  }

  lemma FilterSnoc<T>(s: seq<T>, x: T, p: T -> bool)
    ensures Filter(s + [x], p) == if p(x) then Filter(s, p) + [x] else Filter(s, p)
  {
    assert (s + [x])[..|s|] == s;
  }

  lemma MapSnoc<A, B>(s: seq<A>, x: A, f: A -> B)
    ensures Map(s + [x], f) == Map(s, f) + [f(x)]
  {
    assert (s + [x])[..|s|] == s;
  }

  /** One more element of `s` considered by a filter-then-map loop. */
  lemma FilterMapStep<A, B>(s: seq<A>, i: nat, p: A -> bool, f: A -> B)
    requires i < |s|
    ensures Map(Filter(s[..i + 1], p), f)
      == if p(s[i]) then Map(Filter(s[..i], p), f) + [f(s[i])] else Map(Filter(s[..i], p), f)
  {
    assert s[..i + 1] == s[..i] + [s[i]];
    FilterSnoc(s[..i], s[i], p);
    if p(s[i]) {
      MapSnoc(Filter(s[..i], p), s[i], f);
    }
  }
}
