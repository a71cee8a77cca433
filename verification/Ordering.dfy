/** Strict orders, and the sorted listing of a set: what a loop over a Go map followed by a sort yields. */
module Ordering {
  import opened Sequences

  ghost predicate StrictTotal<T(!new)>(less: (T, T) -> bool) {
    && (forall a :: !less(a, a))
    && (forall a, b, c :: less(a, b) && less(b, c) ==> less(a, c))
    && (forall a, b :: a == b || less(a, b) || less(b, a))
  }

  ghost predicate StrictlySorted<T>(less: (T, T) -> bool, xs: seq<T>) {
    forall i, j :: 0 <= i < j < |xs| ==> less(xs[i], xs[j])
  }

  ghost predicate IsListing<T>(less: (T, T) -> bool, xs: seq<T>, s: set<T>) {
    && StrictlySorted(less, xs)
    && (forall x :: x in xs ==> x in s)
    && (forall x :: x in s ==> x in xs)
  }

  // ---- Orders on values ------------------------------------------------------------------------

  /** false before true */
  predicate BoolLess(a: bool, b: bool) {
    !a && b
  }

  /** Go's < on strings */
  predicate StringLess(a: string, b: string) {
    b != "" && (a == "" || a[0] < b[0] || (a[0] == b[0] && StringLess(a[1..], b[1..])))
  }

  lemma {:induction false} StringLessIrreflexive(a: string)
    ensures !StringLess(a, a)
  {
    if a != "" {
      StringLessIrreflexive(a[1..]);
    }
  }

  lemma {:induction false} StringLessTransitive(a: string, b: string, c: string)
    requires StringLess(a, b) && StringLess(b, c)
    ensures StringLess(a, c)
  {
    if a != "" && a[0] == b[0] == c[0] {
      StringLessTransitive(a[1..], b[1..], c[1..]);
    }
  }

  lemma {:induction false} StringLessTotal(a: string, b: string)
    ensures a == b || StringLess(a, b) || StringLess(b, a)
  {
    if a != "" && b != "" && a[0] == b[0] {
      StringLessTotal(a[1..], b[1..]);
      assert a[1..] == b[1..] ==> a == [a[0]] + a[1..] == b;
    }
  }

  lemma StringLessStrictTotal()
    ensures StrictTotal(StringLess)
  {
    forall a ensures !StringLess(a, a) {
      StringLessIrreflexive(a);
    }
    forall a, b, c | StringLess(a, b) && StringLess(b, c) ensures StringLess(a, c) {
      StringLessTransitive(a, b, c);
    }
    forall a, b ensures a == b || StringLess(a, b) || StringLess(b, a) {
      StringLessTotal(a, b);
    }
  }

  /** A string is less than its extensions, and otherwise the first character that differs decides. */
  lemma {:induction false} StringLessIff(a: string, b: string)
    ensures StringLess(a, b) <==>
            (a <= b && a != b) || exists k :: 0 <= k < |a| && k < |b| && a[..k] == b[..k] && a[k] < b[k]
  {
    if a != "" && b != "" {
      var x, y := a[1..], b[1..];
      StringLessIff(x, y);
      assert a[0] == b[0] ==> (a <= b <==> x <= y) && (a == b <==> x == y) by {
        assert a == [a[0]] + x && b == [b[0]] + y;
      }
      forall k | 0 < k < |a| && k < |b| && a[..k] == b[..k] ensures a[0] == b[0] {
        assert a[..k][0] == b[..k][0];
      }
      if a[0] < b[0] {
        assert a[..0] == b[..0];
      } else if a[0] == b[0] {
        if k :| 0 <= k < |x| && k < |y| && x[..k] == y[..k] && x[k] < y[k] {
          assert a[..k + 1] == [a[0]] + x[..k] && b[..k + 1] == [b[0]] + y[..k];
        }
        if k :| 0 <= k < |a| && k < |b| && a[..k] == b[..k] && a[k] < b[k] {
          assert x[..k - 1] == a[..k][1..] && y[..k - 1] == b[..k][1..];
        }
      }
    }
  }

  // ---- Sorted listings --------------------------------------------------------------------------

  lemma HeadLeast<T(!new)>(less: (T, T) -> bool, xs: seq<T>, s: set<T>, y: T)
    requires IsListing(less, xs, s) && y in s
    ensures xs != [] && (y == xs[0] || less(xs[0], y))
  {
    var i :| 0 <= i < |xs| && xs[i] == y;
  }

  lemma {:induction false} ListingSize<T(!new)>(less: (T, T) -> bool, xs: seq<T>, s: set<T>)
    requires StrictTotal(less) && IsListing(less, xs, s)
    ensures |xs| == |s|
    decreases |xs|
  {
    if xs == [] {
      assert s == {};
    } else {
      TailListing(less, xs, s);
      ListingSize(less, xs[1..], s - {xs[0]});
    }
  }

  /** There is only one sorted listing of a set. */
  lemma {:induction false} ListingUnique<T(!new)>(less: (T, T) -> bool, xs: seq<T>, ys: seq<T>, s: set<T>)
    requires StrictTotal(less) && IsListing(less, xs, s) && IsListing(less, ys, s)
    ensures xs == ys
    decreases |xs|
  {
    ListingSize(less, xs, s);
    ListingSize(less, ys, s);
    if xs != [] {
      var x := xs[0];
      assert x in xs && x in ys;
      HeadLeast(less, xs, s, ys[0]);
      HeadLeast(less, ys, s, x);
      TailListing(less, xs, s);
      TailListing(less, ys, s);
      ListingUnique(less, xs[1..], ys[1..], s - {x});
    }
  }

  lemma TailListing<T(!new)>(less: (T, T) -> bool, xs: seq<T>, s: set<T>)
    requires StrictTotal(less) && IsListing(less, xs, s) && xs != []
    ensures IsListing(less, xs[1..], s - {xs[0]})
  {
    forall x | x in xs[1..] ensures x in s - {xs[0]} {
      var i :| 0 <= i < |xs[1..]| && xs[1..][i] == x;
      assert less(xs[0], xs[i + 1]);
    }
    forall x | x in s - {xs[0]} ensures x in xs[1..] {
      var i :| 0 <= i < |xs| && xs[i] == x;
      assert xs[1..][i - 1] == x;
    }
  }

  lemma ListingNoDup<T(!new)>(less: (T, T) -> bool, xs: seq<T>, s: set<T>)
    requires StrictTotal(less) && IsListing(less, xs, s)
    ensures NoDup(xs)
  {
    forall i, j | 0 <= i < j < |xs| ensures xs[i] != xs[j] {
      assert less(xs[i], xs[j]);
    }
  }

  /** Insert an element before the first greater one. */
  function Insert<T>(less: (T, T) -> bool, x: T, xs: seq<T>): (r: seq<T>)
    ensures forall y :: y in r ==> y == x || y in xs
    ensures x in r && forall y :: y in xs ==> y in r
  {
    if xs == [] || less(x, xs[0]) then [x] + xs
    else [xs[0]] + Insert(less, x, xs[1..])
  }

  lemma {:induction false} InsertListing<T(!new)>(less: (T, T) -> bool, x: T, xs: seq<T>, s: set<T>)
    requires StrictTotal(less) && IsListing(less, xs, s) && x !in s
    ensures IsListing(less, Insert(less, x, xs), s + {x})
    decreases |xs|
  {
    if xs == [] {
    } else if less(x, xs[0]) {
      forall j | 0 <= j < |xs| ensures less(x, xs[j]) {
        assert j > 0 ==> less(xs[0], xs[j]);
      }
    } else {
      TailListing(less, xs, s);
      var rest := Insert(less, x, xs[1..]);
      InsertListing(less, x, xs[1..], s - {xs[0]});
      assert xs[0] in s;
      forall j | 0 <= j < |rest| ensures less(xs[0], rest[j]) {
        assert rest[j] in rest;
        if rest[j] in xs[1..] {
          var i :| 0 <= i < |xs[1..]| && xs[1..][i] == rest[j];
          assert less(xs[0], xs[i + 1]);
        }
      }
    }
  }

  /** The keys of a set in arbitrary order, then sorted. */
  method SortedKeys<T(!new, ==)>(less: (T, T) -> bool, s: set<T>) returns (keys: seq<T>)
    requires StrictTotal(less)
    ensures IsListing(less, keys, s)
  {
    keys := [];
    var rest := s;
    ghost var done: set<T> := {};
    while rest != {}
      invariant s == rest + done && rest !! done
      invariant IsListing(less, keys, done)
      decreases rest
    {
      var x :| x in rest;
      InsertListing(less, x, keys, done);
      keys := Insert(less, x, keys);
      rest := rest - {x};
      done := done + {x};
    }
  }

  lemma {:induction false} ListingExists<T(!new)>(less: (T, T) -> bool, s: set<T>) returns (xs: seq<T>)
    requires StrictTotal(less)
    ensures IsListing(less, xs, s)
    decreases s
  {
    if s == {} {
      xs := [];
    } else {
      var x :| x in s;
      var rest := ListingExists(less, s - {x});
      InsertListing(less, x, rest, s - {x});
      assert s - {x} + {x} == s;
      xs := Insert(less, x, rest);
    }
  }

  /** The sorted listing of a set. */
  ghost function Listing<T(!new)>(less: (T, T) -> bool, s: set<T>): (xs: seq<T>)
    requires StrictTotal(less)
    ensures IsListing(less, xs, s)
  {
    assert exists xs :: IsListing(less, xs, s) by {
      var xs := ListingExists(less, s);
    }
    var xs :| IsListing(less, xs, s);
    xs
  }
}
