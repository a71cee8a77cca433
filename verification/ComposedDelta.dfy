/** The delta sums of the composed query (internal/migrations/006-composed-query.sql). */
module ComposedDelta {
  // The delta calculation for one primitive: value changes and weight changes are merged into one timeline, and every
  // row of it adds delta_value * weight_before + delta_weight * value_before to the weighted sum. Decimal rounding is
  // not modelled: values and weights are real numbers.

  import opened Sequences

  /** A row of unified_events for one primitive. */
  datatype Event = Event(time: int, deltaValue: real, deltaWeight: real)

  ghost predicate SortedByTime(rows: seq<Event>) {
    forall i, j :: 0 <= i < j < |rows| ==> rows[i].time <= rows[j].time
  }

  /** The sum of delta_value over the first n rows. */
  function ValueSum(rows: seq<Event>, n: nat): real
    requires n <= |rows|
  {
    if n == 0 then 0.0 else ValueSum(rows, n - 1) + rows[n - 1].deltaValue
  }

  function WeightSum(rows: seq<Event>, n: nat): real
    requires n <= |rows|
  {
    if n == 0 then 0.0 else WeightSum(rows, n - 1) + rows[n - 1].deltaWeight
  }

  /** How many leading rows have a time up to t: the window frame of SUM() OVER (ORDER BY event_time). */
  function Upto(rows: seq<Event>, t: int): (n: nat)
    ensures n <= |rows|
  {
    if rows == [] then 0
    else if rows[|rows| - 1].time <= t then |rows|
    else Upto(rows[..|rows| - 1], t)
  }

  lemma {:induction false} UptoSplits(rows: seq<Event>, t: int)
    requires SortedByTime(rows)
    ensures forall i :: 0 <= i < Upto(rows, t) ==> rows[i].time <= t
    ensures forall i :: Upto(rows, t) <= i < |rows| ==> rows[i].time > t
  {
    if rows != [] && rows[|rows| - 1].time > t {
      UptoSplits(rows[..|rows| - 1], t);
    }
  }

  lemma {:induction false} UptoUnique(rows: seq<Event>, t: int, n: nat)
    requires n <= |rows|
    requires forall i :: 0 <= i < n ==> rows[i].time <= t
    requires forall i :: n <= i < |rows| ==> rows[i].time > t
    ensures Upto(rows, t) == n
  {
    if n < |rows| {
      UptoUnique(rows[..|rows| - 1], t, n);
    }
  }

  /** value_before_event: LAG looks one row back, at a window sum that includes all rows of equal time. */
  function ValueBefore(rows: seq<Event>, i: nat): real
    requires i < |rows|
  {
    if i == 0 then 0.0 else ValueSum(rows, Upto(rows, rows[i - 1].time))
  }

  function WeightBefore(rows: seq<Event>, i: nat): real
    requires i < |rows|
  {
    if i == 0 then 0.0 else WeightSum(rows, Upto(rows, rows[i - 1].time))
  }

  /** A product; named so that proofs can keep it closed with a hide statement. */
  function Times(a: real, b: real): real {
    a * b
  }

  /** What row i adds to delta_ws of its time. */
  function Contribution(rows: seq<Event>, i: nat): real
    requires i < |rows|
  {
    Times(rows[i].deltaValue, WeightBefore(rows, i)) + Times(rows[i].deltaWeight, ValueBefore(rows, i))
  }

  function Total(rows: seq<Event>, n: nat): real
    requires n <= |rows|
  {
    if n == 0 then 0.0 else Total(rows, n - 1) + Contribution(rows, n - 1)
  }

  // ---- The product rule and its error -------------------------------------------------------------

  /** Rows lo .. hi-1 are all rows of one time. */
  ghost predicate IsGroup(rows: seq<Event>, lo: nat, hi: nat) {
    && lo < hi <= |rows|
    && (forall i :: lo <= i < hi ==> rows[i].time == rows[lo].time)
    && (forall i :: 0 <= i < lo ==> rows[i].time < rows[lo].time)
    && (forall i :: hi <= i < |rows| ==> rows[i].time > rows[lo].time)
  }

  /** What the calculation adds too much for the group lo .. hi-1; the row that comes first decides. */
  function GroupExcess(rows: seq<Event>, lo: nat, hi: nat): real
    requires lo < hi <= |rows|
  {
    var d := ValueSum(rows, hi) - ValueSum(rows, lo);
    var s := WeightSum(rows, hi) - WeightSum(rows, lo);
    Times(d, s) - Times(rows[lo].deltaValue, s) - Times(rows[lo].deltaWeight, d)
  }

  /** The first row with the time of row i. */
  function GroupStart(rows: seq<Event>, i: nat): (lo: nat)
    requires i < |rows|
    ensures lo <= i && forall k :: lo <= k <= i ==> rows[k].time == rows[i].time
    ensures lo > 0 ==> rows[lo - 1].time != rows[i].time
  {
    if i > 0 && rows[i - 1].time == rows[i].time then GroupStart(rows, i - 1) else i
  }

  function Excess(rows: seq<Event>, n: nat): real
    requires n <= |rows|
  {
    if n == 0 then 0.0
    else
      var lo := GroupStart(rows, n - 1);
      Excess(rows, lo) + GroupExcess(rows, lo, n)
  }

  /** No row before n has the time of a row from n on. */
  ghost predicate Boundary(rows: seq<Event>, n: nat) {
    n <= |rows| && (0 < n < |rows| ==> rows[n - 1].time != rows[n].time)
  }

  lemma GroupBefore(rows: seq<Event>, n: nat)
    requires SortedByTime(rows) && Boundary(rows, n) && n > 0
    ensures IsGroup(rows, GroupStart(rows, n - 1), n)
    ensures Boundary(rows, GroupStart(rows, n - 1))
  {
    var lo := GroupStart(rows, n - 1);
    forall i | 0 <= i < lo ensures rows[i].time < rows[lo].time {
      assert rows[i].time <= rows[lo - 1].time <= rows[lo].time;
    }
    forall i | n <= i < |rows| ensures rows[i].time > rows[lo].time {
      assert rows[n - 1].time <= rows[n].time <= rows[i].time;
    }
  }

  lemma BeforeInGroup(rows: seq<Event>, lo: nat, hi: nat, i: nat)
    requires SortedByTime(rows) && IsGroup(rows, lo, hi) && lo <= i < hi
    ensures ValueBefore(rows, i) == if i == lo then ValueSum(rows, lo) else ValueSum(rows, hi)
    ensures WeightBefore(rows, i) == if i == lo then WeightSum(rows, lo) else WeightSum(rows, hi)
  {
    if i > lo {
      UptoUnique(rows, rows[i - 1].time, hi);
    } else if lo > 0 {
      UptoUnique(rows, rows[lo - 1].time, lo);
    }
  }

  lemma ContributionInGroup(rows: seq<Event>, lo: nat, hi: nat, i: nat, v: real, w: real)
    requires SortedByTime(rows) && IsGroup(rows, lo, hi) && lo <= i < hi
    requires v == if i == lo then ValueSum(rows, lo) else ValueSum(rows, hi)
    requires w == if i == lo then WeightSum(rows, lo) else WeightSum(rows, hi)
    ensures Contribution(rows, i) == Times(rows[i].deltaValue, w) + Times(rows[i].deltaWeight, v)
  {
    hide Times;
    BeforeInGroup(rows, lo, hi, i);
  }

  /** The rows of a group after the first see the state after the whole group. */
  lemma {:induction false} TotalInGroup(rows: seq<Event>, lo: nat, hi: nat, m: nat, a: real, b: real, v: real, w: real)
    requires SortedByTime(rows) && IsGroup(rows, lo, hi) && lo < m <= hi
    requires a == ValueSum(rows, m) - ValueSum(rows, lo + 1) && b == WeightSum(rows, m) - WeightSum(rows, lo + 1)
    requires v == ValueSum(rows, hi) && w == WeightSum(rows, hi)
    ensures Total(rows, m) == Total(rows, lo + 1) + Times(a, w) + Times(b, v)
  {
    hide Times;
    if m > lo + 1 {
      var da, db := rows[m - 1].deltaValue, rows[m - 1].deltaWeight;
      TotalInGroup(rows, lo, hi, m - 1, a - da, b - db, v, w);
      ContributionInGroup(rows, lo, hi, m - 1, v, w);
      OneMoreRow(a, da, w);
      OneMoreRow(b, db, v);
    } else {
      TimesZero(w);
      TimesZero(v);
    }
  }

  lemma OneMoreRow(a: real, da: real, w: real)
    ensures Times(a - da, w) + Times(da, w) == Times(a, w)
  {
  }

  lemma TimesZero(w: real)
    ensures Times(0.0, w) == 0.0
  {
  }

  /**
   * (fv, fw) is the first row's pair of changes, (v, w) the state before the group, (v', w') the one after;
   * (d, s) is the change over the group and (a, b) the change after its first row.
   */
  lemma GroupAlgebra(v: real, w: real, v': real, w': real, fv: real, fw: real, d: real, s: real, a: real, b: real)
    requires d == v' - v && s == w' - w && a == d - fv && b == s - fw
    ensures Times(v, w) + (Times(fv, w) + Times(fw, v)) + (Times(a, w') + Times(b, v')) ==
            Times(v', w') + (Times(d, s) - Times(fv, s) - Times(fw, d))
  {
    assert Times(a, w') == v' * w' - v * w' - fv * w';
    assert Times(b, v') == w' * v' - w * v' - fw * v';
    assert Times(d, s) == v' * w' - v' * w - v * w' + v * w;
    assert Times(fv, s) == fv * w' - fv * w;
    assert Times(fw, d) == fw * v' - fw * v;
  }

  lemma ExcessIs(rows: seq<Event>, lo: nat, hi: nat, d: real, s: real)
    requires lo < hi <= |rows|
    requires d == ValueSum(rows, hi) - ValueSum(rows, lo) && s == WeightSum(rows, hi) - WeightSum(rows, lo)
    ensures GroupExcess(rows, lo, hi) == Times(d, s) - Times(rows[lo].deltaValue, s) - Times(rows[lo].deltaWeight, d)
  {
    hide Times, ValueSum, WeightSum;
  }

  lemma GroupTotal(rows: seq<Event>, lo: nat, hi: nat, v: real, w: real, v': real, w': real)
    requires SortedByTime(rows) && IsGroup(rows, lo, hi)
    requires v == ValueSum(rows, lo) && w == WeightSum(rows, lo) && v' == ValueSum(rows, hi) && w' == WeightSum(rows, hi)
    requires Total(rows, lo) == Times(v, w) + Excess(rows, lo)
    ensures Total(rows, hi) == Times(v', w') + (Excess(rows, lo) + GroupExcess(rows, lo, hi))
  {
    hide Times;
    var fv, fw := rows[lo].deltaValue, rows[lo].deltaWeight;
    var d, s := v' - v, w' - w;
    var a, b := d - fv, s - fw;
    assert ValueSum(rows, lo + 1) == v + fv && WeightSum(rows, lo + 1) == w + fw;
    assert Total(rows, lo + 1) == Total(rows, lo) + Contribution(rows, lo);
    hide Total, ValueSum, WeightSum, Excess, Contribution, GroupExcess, IsGroup, SortedByTime;
    TotalInGroup(rows, lo, hi, hi, a, b, v', w');
    ContributionInGroup(rows, lo, hi, lo, v, w);
    ExcessIs(rows, lo, hi, d, s);
    GroupAlgebra(v, w, v', w', fv, fw, d, s, a, b);
  }

  /** The summed contributions are the product of value and weight, plus the excess of the groups. */
  lemma {:induction false} ProductRule(rows: seq<Event>, n: nat)
    requires SortedByTime(rows) && Boundary(rows, n)
    ensures Total(rows, n) == Times(ValueSum(rows, n), WeightSum(rows, n)) + Excess(rows, n)
  {
    hide Times;
    if n == 0 {
      TimesZero(0.0);
    } else {
      var lo := GroupStart(rows, n - 1);
      GroupBefore(rows, n);
      ProductRule(rows, lo);
      GroupTotal(rows, lo, n, ValueSum(rows, lo), WeightSum(rows, lo), ValueSum(rows, n), WeightSum(rows, n));
    }
  }

  // ---- When the calculation is exact ------------------------------------------------------------------

  predicate IsValueRow(e: Event) {
    e.deltaValue != 0.0 && e.deltaWeight == 0.0
  }

  predicate IsWeightRow(e: Event) {
    e.deltaWeight != 0.0 && e.deltaValue == 0.0
  }

  /** What the query builds: value rows and weight rows, at most one value row per time, in time order. */
  ghost predicate Timeline(rows: seq<Event>) {
    && SortedByTime(rows)
    && (forall i :: 0 <= i < |rows| ==> IsValueRow(rows[i]) || IsWeightRow(rows[i]))
    && (forall i, j :: 0 <= i < j < |rows| && IsValueRow(rows[i]) && IsValueRow(rows[j]) ==> rows[i].time != rows[j].time)
  }

  /** The weighted sum is the value times the weight, at every time. */
  ghost predicate Exact(rows: seq<Event>) {
    forall t: int :: Total(rows, Upto(rows, t)) == Times(ValueSum(rows, Upto(rows, t)), WeightSum(rows, Upto(rows, t)))
  }

  /** At some time the value changes and two weights change as well. */
  ghost predicate Contested(rows: seq<Event>) {
    exists i, j, k :: 0 <= i < |rows| && 0 <= j < k < |rows| && ContestedBy(rows, i, j, k)
  }

  predicate ContestedBy(rows: seq<Event>, i: int, j: int, k: int)
    requires 0 <= i < |rows| && 0 <= j < |rows| && 0 <= k < |rows|
  {
    rows[i].time == rows[j].time == rows[k].time && IsValueRow(rows[i]) && IsWeightRow(rows[j]) && IsWeightRow(rows[k])
  }

  /** Among rows of equal time the value row comes first. */
  ghost predicate ValueFirst(rows: seq<Event>) {
    forall i, j :: 0 <= i < j < |rows| && rows[i].time == rows[j].time ==> !IsValueRow(rows[j])
  }

  lemma {:induction false} NoValueChange(rows: seq<Event>, lo: nat, hi: nat)
    requires lo <= hi <= |rows| && forall i :: lo <= i < hi ==> rows[i].deltaValue == 0.0
    ensures ValueSum(rows, hi) == ValueSum(rows, lo)
  {
    if lo < hi {
      NoValueChange(rows, lo, hi - 1);
    }
  }

  lemma {:induction false} NoWeightChange(rows: seq<Event>, lo: nat, hi: nat)
    requires lo <= hi <= |rows| && forall i :: lo <= i < hi ==> rows[i].deltaWeight == 0.0
    ensures WeightSum(rows, hi) == WeightSum(rows, lo)
  {
    if lo < hi {
      NoWeightChange(rows, lo, hi - 1);
    }
  }

  lemma ExcessVanishes(d: real, s: real, fv: real, fw: real)
    requires (fw == 0.0 && d == fv) || (fv == 0.0 && (d == 0.0 || s == fw))
    ensures Times(d, s) - Times(fv, s) - Times(fw, d) == 0.0
  {
  }

  lemma GroupIsExact(rows: seq<Event>, lo: nat, hi: nat)
    requires Timeline(rows) && IsGroup(rows, lo, hi)
    requires !Contested(rows) || ValueFirst(rows)
    ensures GroupExcess(rows, lo, hi) == 0.0
  {
    var d, s := ValueSum(rows, hi) - ValueSum(rows, lo), WeightSum(rows, hi) - WeightSum(rows, lo);
    ExcessIs(rows, lo, hi, d, s);
    if IsValueRow(rows[lo]) {
      NoValueChange(rows, lo + 1, hi);
    } else if ValueFirst(rows) {
      assert forall j :: lo < j < hi ==> rows[lo].time == rows[j].time;
      NoValueChange(rows, lo, hi);
    } else if k :| lo < k < hi && IsValueRow(rows[k]) {
      forall j | lo < j < hi ensures rows[j].deltaWeight == 0.0 {
        assert rows[j].time == rows[lo].time == rows[k].time;
        assert !ContestedBy(rows, k, lo, j);
      }
      NoWeightChange(rows, lo + 1, hi);
    } else {
      NoValueChange(rows, lo, hi);
    }
    ExcessVanishes(d, s, rows[lo].deltaValue, rows[lo].deltaWeight);
  }

  lemma {:induction false} NoExcess(rows: seq<Event>, n: nat)
    requires Timeline(rows) && Boundary(rows, n)
    requires !Contested(rows) || ValueFirst(rows)
    ensures Excess(rows, n) == 0.0
  {
    if n > 0 {
      var lo := GroupStart(rows, n - 1);
      GroupBefore(rows, n);
      NoExcess(rows, lo);
      GroupIsExact(rows, lo, n);
    }
  }

  lemma UptoIsBoundary(rows: seq<Event>, t: int)
    requires SortedByTime(rows)
    ensures Boundary(rows, Upto(rows, t))
  {
    UptoSplits(rows, t);
  }

  /** Without contested times, or with value rows first, the weighted sum is exact. */
  lemma ExactWhen(rows: seq<Event>)
    requires Timeline(rows)
    requires !Contested(rows) || ValueFirst(rows)
    ensures Exact(rows)
  {
    forall t: int
      ensures Total(rows, Upto(rows, t)) == Times(ValueSum(rows, Upto(rows, t)), WeightSum(rows, Upto(rows, t)))
    {
      UptoIsBoundary(rows, t);
      NoExcess(rows, Upto(rows, t));
      ProductRule(rows, Upto(rows, t));
    }
  }

  // ---- A contested time goes wrong in some order --------------------------------------------------------

  function CountWeights(rows: seq<Event>, lo: nat, hi: nat): nat
    requires lo <= hi <= |rows|
  {
    if lo == hi then 0 else CountWeights(rows, lo, hi - 1) + (if IsWeightRow(rows[hi - 1]) then 1 else 0)
  }

  lemma {:induction false} TwoWeights(rows: seq<Event>, lo: nat, hi: nat, j: nat, k: nat)
    requires lo <= j < k < hi <= |rows| && IsWeightRow(rows[j]) && IsWeightRow(rows[k])
    ensures CountWeights(rows, lo, hi) >= 2
  {
    if k < hi - 1 {
      TwoWeights(rows, lo, hi - 1, j, k);
    } else {
      OneWeight(rows, lo, hi - 1, j);
    }
  }

  lemma {:induction false} OneWeight(rows: seq<Event>, lo: nat, hi: nat, j: nat)
    requires lo <= j < hi <= |rows| && IsWeightRow(rows[j])
    ensures CountWeights(rows, lo, hi) >= 1
  {
    if j < hi - 1 {
      OneWeight(rows, lo, hi - 1, j);
    }
  }

  lemma {:induction false} EqualWeights(rows: seq<Event>, lo: nat, hi: nat, s: real)
    requires lo <= hi <= |rows|
    requires forall i :: lo <= i < hi ==> IsValueRow(rows[i]) || rows[i].deltaWeight == s
    requires forall i :: lo <= i < hi ==> IsValueRow(rows[i]) || IsWeightRow(rows[i])
    ensures WeightSum(rows, hi) - WeightSum(rows, lo) == CountWeights(rows, lo, hi) as real * s
  {
    if lo < hi {
      EqualWeights(rows, lo, hi - 1, s);
    }
  }

  /** Two or more non-zero weights cannot all equal their sum. */
  lemma OddWeight(rows: seq<Event>, lo: nat, hi: nat, j: nat, k: nat) returns (f: nat)
    requires lo <= j < k < hi <= |rows| && IsWeightRow(rows[j]) && IsWeightRow(rows[k])
    requires forall i :: lo <= i < hi ==> IsValueRow(rows[i]) || IsWeightRow(rows[i])
    ensures lo <= f < hi && IsWeightRow(rows[f])
    ensures rows[f].deltaWeight != WeightSum(rows, hi) - WeightSum(rows, lo)
  {
    var s := WeightSum(rows, hi) - WeightSum(rows, lo);
    if i: nat :| lo <= i < hi && IsWeightRow(rows[i]) && rows[i].deltaWeight != s {
      f := i;
    } else {
      f := j;
      EqualWeights(rows, lo, hi, s);
      TwoWeights(rows, lo, hi, j, k);
      SelfMultiple(CountWeights(rows, lo, hi), s);
    }
  }

  lemma SelfMultiple(c: nat, s: real)
    requires c >= 2 && s == c as real * s
    ensures s == 0.0
  {
    assert (c as real - 1.0) * s == 0.0;
  }

  lemma {:induction false} SumsAfterUpdate(rows: seq<Event>, p: nat, e: Event, n: nat)
    requires p < |rows| && n <= |rows|
    ensures ValueSum(rows[p := e], n) == ValueSum(rows, n) + (if p < n then e.deltaValue - rows[p].deltaValue else 0.0)
    ensures WeightSum(rows[p := e], n) == WeightSum(rows, n) + (if p < n then e.deltaWeight - rows[p].deltaWeight else 0.0)
  {
    if n > 0 {
      SumsAfterUpdate(rows, p, e, n - 1);
    }
  }

  function Swap(rows: seq<Event>, p: nat, q: nat): (r: seq<Event>)
    requires p < |rows| && q < |rows|
    ensures |r| == |rows| && multiset(r) == multiset(rows)
  {
    rows[p := rows[q]][q := rows[p]]
  }

  lemma SumsAfterSwap(rows: seq<Event>, lo: nat, f: nat, hi: nat)
    requires lo <= f < hi <= |rows|
    ensures ValueSum(Swap(rows, lo, f), lo) == ValueSum(rows, lo) && ValueSum(Swap(rows, lo, f), hi) == ValueSum(rows, hi)
    ensures WeightSum(Swap(rows, lo, f), lo) == WeightSum(rows, lo) && WeightSum(Swap(rows, lo, f), hi) == WeightSum(rows, hi)
  {
    var once := rows[lo := rows[f]];
    SumsAfterUpdate(rows, lo, rows[f], lo);
    SumsAfterUpdate(rows, lo, rows[f], hi);
    SumsAfterUpdate(once, f, rows[lo], lo);
    SumsAfterUpdate(once, f, rows[lo], hi);
  }

  lemma GroupAround(rows: seq<Event>, i: nat) returns (lo: nat, hi: nat)
    requires SortedByTime(rows) && i < |rows|
    ensures IsGroup(rows, lo, hi) && lo <= i < hi
  {
    hi := Upto(rows, rows[i].time);
    UptoSplits(rows, rows[i].time);
    GroupBefore(rows, hi);
    lo := GroupStart(rows, hi - 1);
  }

  /** The value row's change is the whole change of value in its group. */
  lemma GroupValueChange(rows: seq<Event>, lo: nat, hi: nat, i: nat)
    requires Timeline(rows) && IsGroup(rows, lo, hi) && lo <= i < hi && IsValueRow(rows[i])
    ensures ValueSum(rows, hi) - ValueSum(rows, lo) == rows[i].deltaValue
  {
    forall j | lo <= j < hi && j != i ensures rows[j].deltaValue == 0.0 {
      assert rows[j].time == rows[lo].time == rows[i].time;
    }
    NoValueChange(rows, lo, i);
    NoValueChange(rows, i + 1, hi);
  }

  lemma InexactGroup(rows: seq<Event>, lo: nat, hi: nat)
    requires SortedByTime(rows) && IsGroup(rows, lo, hi) && GroupExcess(rows, lo, hi) != 0.0
    ensures !Exact(rows)
  {
    var t := rows[lo].time;
    UptoUnique(rows, t, hi);
    UptoUnique(rows, t - 1, lo);
    GroupBefore(rows, hi);
    assert GroupStart(rows, hi - 1) == lo;
    ProductRule(rows, hi);
    ProductRule(rows, lo);
    hide Times;
    assert Excess(rows, hi) == Excess(rows, lo) + GroupExcess(rows, lo, hi);
    assert Total(rows, Upto(rows, t)) != Times(ValueSum(rows, Upto(rows, t)), WeightSum(rows, Upto(rows, t))) ||
           Total(rows, Upto(rows, t - 1)) != Times(ValueSum(rows, Upto(rows, t - 1)), WeightSum(rows, Upto(rows, t - 1)));
  }

  lemma OddFirstExcess(d: real, s: real, fw: real)
    requires d != 0.0 && s != fw
    ensures Times(d, s) - Times(0.0, s) - Times(fw, d) != 0.0
  {
    assert d * s - fw * d == d * (s - fw);
  }

  lemma SwapKeepsTimeline(rows: seq<Event>, lo: nat, hi: nat, f: nat)
    requires Timeline(rows) && IsGroup(rows, lo, hi) && lo <= f < hi
    ensures Timeline(Swap(rows, lo, f)) && IsGroup(Swap(rows, lo, f), lo, hi)
  {
    hide IsValueRow, IsWeightRow;
    var r := Swap(rows, lo, f);
    assert forall i :: 0 <= i < |rows| ==> r[i].time == rows[i].time;
    assert forall i :: 0 <= i < |rows| ==> r[i] == rows[if i == lo then f else if i == f then lo else i];
  }

  lemma ContestedGoesWrong(rows: seq<Event>) returns (other: seq<Event>)
    requires Timeline(rows) && Contested(rows)
    ensures multiset(other) == multiset(rows) && Timeline(other) && !Exact(other)
  {
    var i, j, k :| 0 <= i < |rows| && 0 <= j < k < |rows| && ContestedBy(rows, i, j, k);
    var lo, hi := GroupAround(rows, i);
    var f := OddWeight(rows, lo, hi, j, k);
    other := Swap(rows, lo, f);
    SwapKeepsTimeline(rows, lo, hi, f);
    SumsAfterSwap(rows, lo, f, hi);
    GroupValueChange(rows, lo, hi, i);
    var d, s := ValueSum(rows, hi) - ValueSum(rows, lo), WeightSum(rows, hi) - WeightSum(rows, lo);
    ExcessIs(other, lo, hi, d, s);
    OddFirstExcess(d, s, rows[f].deltaWeight);
    InexactGroup(other, lo, hi);
  }

  lemma ContestedInAnyOrder(rows: seq<Event>, other: seq<Event>)
    requires multiset(rows) == multiset(other) && Contested(rows)
    ensures Contested(other)
  {
    var i, j, k :| 0 <= i < |rows| && 0 <= j < k < |rows| && ContestedBy(rows, i, j, k);
    assert rows[i] in multiset(other);
    var i' :| 0 <= i' < |other| && other[i'] == rows[i];
    DistinctPlaces(other, rows, j, k);
    var p, q :| 0 <= p < |other| && 0 <= q < |other| && p != q && other[p] == rows[j] && other[q] == rows[k];
    assert ContestedBy(other, i', p, q) && ContestedBy(other, i', q, p);
  }

  /**
   * SQL leaves the order of rows of equal time open. Every such order gives the exact weighted sum if and
   * only if no time carries a value change together with two or more weight changes of the primitive.
   */
  lemma EveryOrderExactIff(rows: seq<Event>)
    requires Timeline(rows)
    ensures (forall other :: multiset(other) == multiset(rows) && Timeline(other) ==> Exact(other)) <==> !Contested(rows)
  {
    if Contested(rows) {
      var other := ContestedGoesWrong(rows);
    } else {
      forall other | multiset(other) == multiset(rows) && Timeline(other) ensures Exact(other) {
        if Contested(other) {
          ContestedInAnyOrder(other, rows);
        }
        ExactWhen(other);
      }
    }
  }
}
