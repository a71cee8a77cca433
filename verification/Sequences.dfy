/** Facts about sequences that several models share. */
module Sequences {

  /** The integers lo, lo+1, ..., hi-1. */
  function Range(lo: int, hi: int): (r: seq<int>)
    ensures |r| == if lo < hi then hi - lo else 0
    ensures forall k :: 0 <= k < |r| ==> r[k] == lo + k
  {
    seq(if lo < hi then hi - lo else 0, k => lo + k)
  }

  lemma RangeSnoc(lo: int, hi: int)
    requires lo <= hi
    ensures Range(lo, hi + 1) == Range(lo, hi) + [hi]
  {
  }

  function Map<A, B>(f: A -> B, xs: seq<A>): (r: seq<B>)
    ensures |r| == |xs|
    ensures forall k :: 0 <= k < |xs| ==> r[k] == f(xs[k])
  {
    seq(|xs|, k requires 0 <= k < |xs| => f(xs[k]))
  }

  lemma MapConcat<A, B>(f: A -> B, xs: seq<A>, ys: seq<A>)
    ensures Map(f, xs + ys) == Map(f, xs) + Map(f, ys)
  {
  }

  function Filter<A>(p: A -> bool, xs: seq<A>): (r: seq<A>)
    ensures forall x :: x in r ==> x in xs && p(x)
    ensures forall x :: x in xs && p(x) ==> x in r
    ensures |r| <= |xs|
  {
    if xs == [] then []
    else (if p(xs[0]) then [xs[0]] else []) + Filter(p, xs[1..])
  }

  lemma {:induction false} FilterConcat<A>(p: A -> bool, xs: seq<A>, ys: seq<A>)
    ensures Filter(p, xs + ys) == Filter(p, xs) + Filter(p, ys)
  {
    if xs == [] {
      assert xs + ys == ys;
    } else {
      assert (xs + ys)[1..] == xs[1..] + ys;
      FilterConcat(p, xs[1..], ys);
    }
  }

  lemma FilterSingle<A>(p: A -> bool, x: A)
    ensures Filter(p, [x]) == if p(x) then [x] else []
  {
    assert [x][1..] == [];
  }

  function FlatMap<A, B>(f: A -> seq<B>, xs: seq<A>): seq<B> {
    if xs == [] then [] else f(xs[0]) + FlatMap(f, xs[1..])
  }

  lemma {:induction false} FlatMapConcat<A, B>(f: A -> seq<B>, xs: seq<A>, ys: seq<A>)
    ensures FlatMap(f, xs + ys) == FlatMap(f, xs) + FlatMap(f, ys)
  {
    if xs == [] {
      assert xs + ys == ys;
    } else {
      assert (xs + ys)[1..] == xs[1..] + ys;
      FlatMapConcat(f, xs[1..], ys);
    }
  }

  lemma FlatMapSingle<A, B>(f: A -> seq<B>, x: A)
    ensures FlatMap(f, [x]) == f(x)
  {
  }

  lemma {:induction false} FlatMapMember<A, B>(f: A -> seq<B>, xs: seq<A>, y: B)
    ensures y in FlatMap(f, xs) <==> exists x :: x in xs && y in f(x)
  {
    if xs != [] {
      FlatMapMember(f, xs[1..], y);
    }
  }

  lemma {:induction false} FlatMapFlatMap<A, B, C>(f: A -> seq<B>, g: B -> seq<C>, h: A -> seq<C>, xs: seq<A>)
    requires forall x :: x in xs ==> FlatMap(g, f(x)) == h(x)
    ensures FlatMap(g, FlatMap(f, xs)) == FlatMap(h, xs)
  {
    if xs != [] {
      FlatMapConcat(g, f(xs[0]), FlatMap(f, xs[1..]));
      FlatMapFlatMap(f, g, h, xs[1..]);
    }
  }

  /** Elements that contribute nothing may be dropped. */
  lemma {:induction false} FlatMapFilter<A, B>(f: A -> seq<B>, p: A -> bool, xs: seq<A>)
    requires forall x :: x in xs && !p(x) ==> f(x) == []
    ensures FlatMap(f, Filter(p, xs)) == FlatMap(f, xs)
  {
    if xs != [] {
      FlatMapFilter(f, p, xs[1..]);
      if p(xs[0]) {
        assert Filter(p, xs)[1..] == Filter(p, xs[1..]);
      } else {
        assert xs[0] in xs && f(xs[0]) == [];
        assert Filter(p, xs) == Filter(p, xs[1..]);
      }
    }
  }

  lemma {:induction false} FlatMapMap<A, B, C>(f: A -> B, g: B -> seq<C>, h: A -> seq<C>, xs: seq<A>)
    requires forall x :: x in xs ==> g(f(x)) == h(x)
    ensures FlatMap(g, Map(f, xs)) == FlatMap(h, xs)
  {
    if xs != [] {
      assert Map(f, xs)[1..] == Map(f, xs[1..]);
      FlatMapMap(f, g, h, xs[1..]);
    }
  }

  lemma {:induction false} FlatMapAll<A, B>(f: A -> seq<B>, xs: seq<A>, p: B -> bool)
    requires forall x, y :: x in xs && y in f(x) ==> p(y)
    ensures forall y :: y in FlatMap(f, xs) ==> p(y)
  {
    if xs != [] {
      FlatMapAll(f, xs[1..], p);
    }
  }

  /** Equal pieces give equal concatenations. */
  lemma {:induction false} FlatMapCong<A, B>(f: A -> seq<B>, g: A -> seq<B>, xs: seq<A>)
    requires forall x :: x in xs ==> f(x) == g(x)
    ensures FlatMap(f, xs) == FlatMap(g, xs)
  {
    if xs != [] {
      FlatMapCong(f, g, xs[1..]);
    }
  }

  lemma {:induction false} FilterTwice<A>(f: A -> bool, g: A -> bool, h: A -> bool, xs: seq<A>)
    requires forall x :: x in xs ==> (f(x) && g(x) <==> h(x))
    ensures Filter(g, Filter(f, xs)) == Filter(h, xs)
  {
    if xs != [] {
      hide Filter;
      var x, rest := xs[0], xs[1..];
      assert x in xs && xs == [x] + rest;
      FilterTwice(f, g, h, rest);
      FilterConcat(f, [x], rest);
      FilterConcat(h, [x], rest);
      FilterConcat(g, Filter(f, [x]), Filter(f, rest));
      FilterSingle(f, x);
      FilterSingle(g, x);
      FilterSingle(h, x);
      FilterNothing(g);
    }
  }

  lemma FilterNothing<A>(p: A -> bool)
    ensures Filter(p, []) == []
  {
  }

  lemma {:induction false} FilterMap<A, B>(f: A -> B, p: B -> bool, pf: A -> bool, xs: seq<A>)
    requires forall x :: x in xs ==> (p(f(x)) <==> pf(x))
    ensures Filter(p, Map(f, xs)) == Map(f, Filter(pf, xs))
  {
    if xs == [] {
      assert Map(f, xs) == [];
    } else {
      hide Filter, Map;
      var x, rest := xs[0], xs[1..];
      assert x in xs && xs == [x] + rest;
      FilterMap(f, p, pf, rest);
      FilterConcat(pf, [x], rest);
      FilterSingle(pf, x);
      MapConcat(f, [x], rest);
      MapConcat(f, Filter(pf, [x]), Filter(pf, rest));
      FilterConcat(p, Map(f, [x]), Map(f, rest));
      assert Map(f, [x]) == [f(x)];
      FilterSingle(p, f(x));
      MapNothing(f);
    }
  }

  lemma MapNothing<A, B>(f: A -> B)
    ensures Map(f, []) == []
  {
  }

  lemma {:induction false} FilterFlatMap<A, B>(f: A -> seq<B>, p: B -> bool, pf: A -> seq<B>, xs: seq<A>)
    requires forall x :: x in xs ==> Filter(p, f(x)) == pf(x)
    ensures Filter(p, FlatMap(f, xs)) == FlatMap(pf, xs)
  {
    if xs != [] {
      FilterFlatMap(f, p, pf, xs[1..]);
      FilterConcat(p, f(xs[0]), FlatMap(f, xs[1..]));
      assert xs[0] in xs;
    }
  }

  lemma {:induction false} MapFlatMap<A, B, C>(f: A -> seq<B>, g: B -> C, gf: A -> seq<C>, xs: seq<A>)
    requires forall x :: x in xs ==> Map(g, f(x)) == gf(x)
    ensures Map(g, FlatMap(f, xs)) == FlatMap(gf, xs)
  {
    if xs != [] {
      MapFlatMap(f, g, gf, xs[1..]);
      MapConcat(g, f(xs[0]), FlatMap(f, xs[1..]));
    } else {
      assert Map(g, FlatMap(f, xs)) == [];
    }
  }

  lemma {:induction false} FilterNone<A>(f: A -> bool, xs: seq<A>)
    requires forall x :: x in xs ==> !f(x)
    ensures Filter(f, xs) == []
  {
    if xs != [] {
      assert xs[0] in xs;
      FilterNone(f, xs[1..]);
    }
  }

  lemma {:induction false} FilterSame<A>(f: A -> bool, g: A -> bool, xs: seq<A>)
    requires forall x :: x in xs ==> f(x) == g(x)
    ensures Filter(f, xs) == Filter(g, xs)
  {
    if xs != [] {
      assert xs[0] in xs;
      FilterSame(f, g, xs[1..]);
    }
  }

  lemma {:induction false} FilterAll<A>(p: A -> bool, xs: seq<A>)
    requires forall x :: x in xs ==> p(x)
    ensures Filter(p, xs) == xs
  {
    if xs != [] {
      FilterAll(p, xs[1..]);
      assert xs[0] in xs;
    }
  }

  ghost predicate NoDup<A>(xs: seq<A>) {
    forall i, j :: 0 <= i < j < |xs| ==> xs[i] != xs[j]
  }

  lemma NoDupConcat<A>(xs: seq<A>, ys: seq<A>)
    requires NoDup(xs) && NoDup(ys)
    requires forall x :: x in xs ==> x !in ys
    ensures NoDup(xs + ys)
  {
    forall i, j | 0 <= i < j < |xs + ys| ensures (xs + ys)[i] != (xs + ys)[j] {
      if i < |xs| <= j {
        assert xs[i] in xs && ys[j - |xs|] in ys;
      }
    }
  }

  /** Duplicate-free pieces over duplicate-free indices stay duplicate-free when each piece carries its index. */
  lemma {:induction false} FlatMapNoDup<A, B>(f: A -> seq<B>, tag: B -> A, xs: seq<A>)
    requires NoDup(xs)
    requires forall x :: x in xs ==> NoDup(f(x))
    requires forall x, y :: x in xs && y in f(x) ==> tag(y) == x
    ensures NoDup(FlatMap(f, xs))
  {
    if xs != [] {
      FlatMapNoDup(f, tag, xs[1..]);
      forall y | y in f(xs[0]) ensures y !in FlatMap(f, xs[1..]) {
        FlatMapMember(f, xs[1..], y);
        forall x | x in xs[1..] ensures y !in f(x) {
          var i :| 0 <= i < |xs[1..]| && xs[1..][i] == x;
          assert xs[i + 1] == x && x in xs && xs[0] != xs[i + 1];
          assert xs[0] in xs && tag(y) == xs[0];
          assert y in f(x) ==> tag(y) == x;
        }
      }
      NoDupConcat(f(xs[0]), FlatMap(f, xs[1..]));
    }
  }

  /** How often p holds in xs. */
  function Count<A>(p: A -> bool, xs: seq<A>): nat {
    if xs == [] then 0 else (if p(xs[0]) then 1 else 0) + Count(p, xs[1..])
  }

  lemma {:induction false} CountConcat<A>(p: A -> bool, xs: seq<A>, ys: seq<A>)
    ensures Count(p, xs + ys) == Count(p, xs) + Count(p, ys)
  {
    if xs == [] {
      assert xs + ys == ys;
    } else {
      assert (xs + ys)[1..] == xs[1..] + ys;
      CountConcat(p, xs[1..], ys);
    }
  }

  /** The sum of f over xs. */
  function Sum<A>(f: A -> real, xs: seq<A>): real {
    if xs == [] then 0.0 else f(xs[0]) + Sum(f, xs[1..])
  }

  lemma {:induction false} SumConcat<A>(f: A -> real, xs: seq<A>, ys: seq<A>)
    ensures Sum(f, xs + ys) == Sum(f, xs) + Sum(f, ys)
  {
    if xs == [] {
      assert xs + ys == ys;
    } else {
      assert (xs + ys)[1..] == xs[1..] + ys;
      SumConcat(f, xs[1..], ys);
    }
  }

  lemma SumSingle<A>(f: A -> real, x: A)
    ensures Sum(f, [x]) == f(x)
  {
  }

  lemma MultisetWithout<A>(xs: seq<A>, p: nat)
    requires p < |xs|
    ensures multiset(xs) - multiset{xs[p]} == multiset(xs[..p]) + multiset(xs[p + 1..]) == multiset(xs[..p] + xs[p + 1..])
  {
    assert xs == xs[..p] + [xs[p]] + xs[p + 1..];
    calc {
      multiset(xs) - multiset{xs[p]};
      multiset(xs[..p] + [xs[p]] + xs[p + 1..]) - multiset{xs[p]};
      multiset(xs[..p]) + multiset(xs[p + 1..]);
    }
  }

  /** Two places of a sequence have two places in any rearrangement of it. */
  lemma DistinctPlaces<A>(xs: seq<A>, ys: seq<A>, i: nat, j: nat)
    requires multiset(xs) == multiset(ys) && i < j < |ys|
    ensures exists p, q :: 0 <= p < |xs| && 0 <= q < |xs| && p != q && xs[p] == ys[i] && xs[q] == ys[j]
  {
    assert ys[i] in multiset(xs);
    var p :| 0 <= p < |xs| && xs[p] == ys[i];
    MultisetWithout(xs, p);
    MultisetWithout(ys, i);
    assert (ys[..i] + ys[i + 1..])[j - 1] == ys[j];
    assert ys[j] in multiset(ys[..i] + ys[i + 1..]);
    var rest := xs[..p] + xs[p + 1..];
    assert ys[j] in multiset(rest);
    var q :| 0 <= q < |rest| && rest[q] == ys[j];
    assert xs[if q < p then q else q + 1] == ys[j];
  }

  lemma SumWithout<A>(f: A -> real, xs: seq<A>, p: nat)
    requires p < |xs|
    ensures Sum(f, xs) == f(xs[p]) + Sum(f, xs[..p] + xs[p + 1..])
  {
    hide Sum;
    var before, after := xs[..p], xs[p + 1..];
    assert xs == before + ([xs[p]] + after);
    SumConcat(f, before, [xs[p]] + after);
    SumConcat(f, [xs[p]], after);
    SumSingle(f, xs[p]);
    SumConcat(f, before, after);
  }

  /** A sum does not depend on the order. */
  lemma {:induction false} SumPermutation<A>(f: A -> real, xs: seq<A>, ys: seq<A>)
    requires multiset(xs) == multiset(ys)
    ensures Sum(f, xs) == Sum(f, ys)
    decreases |xs|
  {
    if xs == [] {
      assert |multiset(ys)| == 0;
    } else {
      hide Sum;
      var p := PlaceOf(ys, xs[0], multiset(xs));
      var rest, rest' := xs[..0] + xs[1..], ys[..p] + ys[p + 1..];
      assert multiset(rest) == multiset(rest') by {
        MultisetWithout(xs, 0);
        MultisetWithout(ys, p);
      }
      SumPermutation(f, rest, rest');
      SumWithout(f, xs, 0);
      SumWithout(f, ys, p);
    }
  }

  lemma PlaceOf<A>(xs: seq<A>, x: A, elements: multiset<A>) returns (p: nat)
    requires multiset(xs) == elements && x in elements
    ensures p < |xs| && xs[p] == x
  {
    assert x in multiset(xs);
    p :| 0 <= p < |xs| && xs[p] == x;
  }

  lemma {:induction false} SumCong<A>(f: A -> real, g: A -> real, xs: seq<A>)
    requires forall x :: x in xs ==> f(x) == g(x)
    ensures Sum(f, xs) == Sum(g, xs)
  {
    if xs != [] {
      SumCong(f, g, xs[1..]);
    }
  }

  lemma {:induction false} SumFlatMap<A, B>(f: A -> seq<B>, g: B -> real, h: A -> real, xs: seq<A>)
    requires forall x :: x in xs ==> Sum(g, f(x)) == h(x)
    ensures Sum(g, FlatMap(f, xs)) == Sum(h, xs)
  {
    if xs != [] {
      SumConcat(g, f(xs[0]), FlatMap(f, xs[1..]));
      SumFlatMap(f, g, h, xs[1..]);
    }
  }

  lemma {:induction false} SumAdd<A>(f: A -> real, g: A -> real, h: A -> real, xs: seq<A>)
    requires forall x :: x in xs ==> f(x) + g(x) == h(x)
    ensures Sum(f, xs) + Sum(g, xs) == Sum(h, xs)
  {
    if xs != [] {
      SumAdd(f, g, h, xs[1..]);
    }
  }
}
