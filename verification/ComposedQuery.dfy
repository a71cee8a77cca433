/** The composed query as a whole (internal/migrations/006-composed-query.sql). */
module ComposedQuery {
  // What its rows mean in terms of the primitives' data and weights, when its rows have distinct times, and which
  // recorded values it sees.

  import opened Wrappers
  import opened Sequences
  import opened ComposedDelta
  import opened ComposedTimeline
  import opened ComposedSeries

  datatype Primitive = Primitive(points: seq<Point>, spans: seq<Span>)

  /** One arranged timeline per primitive. */
  ghost predicate AreTimelines(timelines: seq<seq<Event>>, primitives: seq<Primitive>) {
    && |timelines| == |primitives|
    && forall k :: 0 <= k < |primitives| ==>
         Increasing(primitives[k].points) && IsArrangement(timelines[k], primitives[k].points, primitives[k].spans)
  }

  /** The sum of value times weight over the primitives. */
  function WeightedValues(primitives: seq<Primitive>, t: int): real {
    Sum((p: Primitive) => Times(Locf(p.points, t), WeightAt(p.points, p.spans, t)), primitives)
  }

  function Weights(primitives: seq<Primitive>, t: int): real {
    Sum((p: Primitive) => WeightAt(p.points, p.spans, t), primitives)
  }

  lemma {:induction false} SumPairwise<A, B>(f: A -> real, g: B -> real, xs: seq<A>, ys: seq<B>)
    requires |xs| == |ys| && forall k :: 0 <= k < |xs| ==> f(xs[k]) == g(ys[k])
    ensures Sum(f, xs) == Sum(g, ys)
  {
    if xs != [] {
      SumPairwise(f, g, xs[1..], ys[1..]);
    }
  }

  lemma ReachedIsWeighted(timelines: seq<seq<Event>>, primitives: seq<Primitive>, t: int)
    requires AreTimelines(timelines, primitives) && t <= MAX_INT8 - 1
    requires forall rows :: rows in timelines ==> !Contested(rows) || ValueFirst(rows)
    ensures Reached(WeightedSum, timelines, t) == WeightedValues(primitives, t)
    ensures Reached(SumOfWeights, timelines, t) == Weights(primitives, t)
  {
    hide Contested, ValueFirst, IsArrangement, Times, Locf, WeightAt, Total, WeightSum, Upto;
    var weighted := (p: Primitive) => Times(Locf(p.points, t), WeightAt(p.points, p.spans, t));
    var weight := (p: Primitive) => WeightAt(p.points, p.spans, t);
    var total := (rows: seq<Event>) => Prefix(WeightedSum, rows, Upto(rows, t));
    var weights := (rows: seq<Event>) => Prefix(SumOfWeights, rows, Upto(rows, t));
    forall k | 0 <= k < |primitives|
      ensures total(timelines[k]) == weighted(primitives[k]) && weights(timelines[k]) == weight(primitives[k])
    {
      assert timelines[k] in timelines;
      DeltasAreExact(timelines[k], primitives[k].points, primitives[k].spans, t);
      TimelineMeaning(timelines[k], primitives[k].points, primitives[k].spans, t);
    }
    SumPairwise(total, weighted, timelines, primitives);
    SumPairwise(weights, weight, timelines, primitives);
  }

  lemma TimelinesAreSorted(timelines: seq<seq<Event>>, primitives: seq<Primitive>)
    requires AreTimelines(timelines, primitives)
    ensures AllSorted(timelines)
  {
    forall rows | rows in timelines ensures SortedByTime(rows) {
      var k :| 0 <= k < |timelines| && timelines[k] == rows;
      assert IsArrangement(timelines[k], primitives[k].points, primitives[k].spans);
    }
  }

  /**
   * The query is right where no primitive has a contested time: carrying its rows forward gives, at every
   * time of the range, the average of the primitives' last values under the weights in force, and nothing
   * before the first change.
   */
  lemma {:induction false} QueryIsWeightedAverage(timelines: seq<seq<Event>>, primitives: seq<Primitive>, times: seq<int>,
                               others: set<int>, start: int, end: int, q: int)
    requires AreTimelines(timelines, primitives) && IsCombined(times, timelines, others)
    requires start <= q <= end && q <= MAX_INT8 - 1
    requires forall rows :: rows in timelines ==> !Contested(rows) || ValueFirst(rows)
    ensures var s, w := WeightedValues(primitives, q), Weights(primitives, q);
            match ReadAt(Output(timelines, times, start, end), q)
            case None => s == 0.0 && w == 0.0 && forall x :: x <= q ==> !RealChange(timelines, x)
            case Some(a) =>
              (exists x :: x <= q && RealChange(timelines, x)) && (w == 0.0 ==> a == 0.0) && (w != 0.0 ==> a * w == s)
  {
    hide RealChange, Output, ReadAt, Contested, ValueFirst, IsCombined, AllSorted, Reached;
    TimelinesAreSorted(timelines, primitives);
    ReadingTheOutput(timelines, times, others, start, end, q);
    ReachedIsWeighted(timelines, primitives, q);
    if ReadAt(Output(timelines, times, start, end), q).None? {
      NothingBeforeTheFirstChange(WeightedSum, timelines, q);
      NothingBeforeTheFirstChange(SumOfWeights, timelines, q);
    }
  }

  /** Real changes are the times at which the weighted sum of the values or the sum of the weights changes. */
  lemma RealChangesAreChanges(timelines: seq<seq<Event>>, primitives: seq<Primitive>, t: int)
    requires AreTimelines(timelines, primitives) && t <= MAX_INT8 - 1
    requires forall rows :: rows in timelines ==> !Contested(rows) || ValueFirst(rows)
    ensures RealChange(timelines, t) <==>
            WeightedValues(primitives, t) != WeightedValues(primitives, t - 1) || Weights(primitives, t) != Weights(primitives, t - 1)
  {
    hide RealChange, Contested, ValueFirst, AllSorted, Reached, WeightedValues, Weights;
    TimelinesAreSorted(timelines, primitives);
    RealChangeIff(timelines, t);
    ReachedIsWeighted(timelines, primitives, t);
    ReachedIsWeighted(timelines, primitives, t - 1);
  }

  lemma Divided(a: real, s: real, w: real, lo: real, hi: real)
    requires w > 0.0 && a * w == s && lo * w <= s <= hi * w
    ensures lo <= a <= hi
  {
    Factor(a - lo, w);
    Factor(hi - a, w);
    assert (a - lo) * w == a * w - lo * w;
    assert (hi - a) * w == hi * w - a * w;
  }

  lemma Factor(x: real, w: real)
    requires w > 0.0
    ensures x * w >= 0.0 ==> x >= 0.0
  {
  }

  lemma {:induction false} SumPositive<A>(weight: A -> real, xs: seq<A>)
    requires forall x :: x in xs ==> weight(x) >= 0.0
    ensures Sum(weight, xs) >= 0.0
    ensures (exists x :: x in xs && weight(x) > 0.0) ==> Sum(weight, xs) > 0.0
  {
    if xs != [] {
      assert xs == [xs[0]] + xs[1..];
      SumPositive(weight, xs[1..]);
    }
  }

  /** A sum of values times weights that are not negative lies between bounds on the values that have a weight. */
  lemma {:induction false} SumBetween<A>(weight: A -> real, value: A -> real, weighted: A -> real, xs: seq<A>, lo: real, hi: real)
    requires forall x :: x in xs ==> weight(x) >= 0.0 && weighted(x) == Times(value(x), weight(x))
    requires forall x :: x in xs && weight(x) > 0.0 ==> lo <= value(x) <= hi
    ensures lo * Sum(weight, xs) <= Sum(weighted, xs) <= hi * Sum(weight, xs)
  {
    hide Times, Sum;
    SumSteps(weight, xs);
    SumSteps(weighted, xs);
    if xs != [] {
      var x, rest := xs[0], xs[1..];
      assert x in xs && forall r :: r in rest ==> r in xs;
      SumBetween(weight, value, weighted, rest, lo, hi);
      TermBetween(value(x), weight(x), lo, hi);
      OneMoreTerm(weight(x), weighted(x), Sum(weight, rest), Sum(weighted, rest), lo, hi);
    }
  }

  lemma SumSteps<A>(f: A -> real, xs: seq<A>)
    ensures Sum(f, xs) == if xs == [] then 0.0 else f(xs[0]) + Sum(f, xs[1..])
  {
  }

  lemma OneMoreTerm(w: real, t: real, weights: real, weighted: real, lo: real, hi: real)
    requires lo * w <= t <= hi * w && lo * weights <= weighted <= hi * weights
    ensures lo * (w + weights) <= t + weighted <= hi * (w + weights)
  {
    Distribute(lo, w, weights);
    Distribute(hi, w, weights);
  }

  lemma ProductGrows(x: real, y: real, w: real)
    requires x <= y && w >= 0.0
    ensures x * w <= y * w
  {
    assert (y - x) * w >= 0.0;
    assert (y - x) * w == y * w - x * w;
  }

  lemma TermBetween(v: real, w: real, lo: real, hi: real)
    requires w >= 0.0 && (w > 0.0 ==> lo <= v <= hi)
    ensures lo * w <= Times(v, w) <= hi * w
  {
    if w > 0.0 {
      ProductGrows(lo, v, w);
      ProductGrows(v, hi, w);
    } else {
      assert w == 0.0;
      assert lo * w == 0.0 && v * w == 0.0 && hi * w == 0.0;
    }
  }

  lemma Distribute(x: real, a: real, b: real)
    ensures x * (a + b) == x * a + x * b
  {
  }

  // ---- A contested time with numbers --------------------------------------------------------------------

  const OPEN0 := Event(1, 0.0, 0.3)
  const VALUE0 := Event(1, 10.0, 0.0)
  const CLOSE0 := Event(5, 0.0, -0.3)
  const OPEN1 := Event(5, 0.0, 0.7)
  const VALUE1 := Event(5, 10.0, 0.0)

  /**
   * One primitive changes from 10 to 20 at the time at which its weight changes from 3/10 to 7/10. With the
   * closing weight row first the weighted sum becomes 21; with the value row first it is 14 = 20 * 7/10.
   */
  lemma ContestedExample()
    ensures var wrong, right := [VALUE0, OPEN0, CLOSE0, VALUE1, OPEN1], [VALUE0, OPEN0, VALUE1, CLOSE0, OPEN1];
            && Timeline(wrong) && Timeline(right) && multiset(wrong) == multiset(right)
            && ValueSum(wrong, 5) == 20.0 && WeightSum(wrong, 5) == 0.7
            && Total(wrong, 5) == 21.0 && Total(right, 5) == 14.0
  {
    hide ValueSum, WeightSum, Total, Timeline;
    var wrong, right := [VALUE0, OPEN0, CLOSE0, VALUE1, OPEN1], [VALUE0, OPEN0, VALUE1, CLOSE0, OPEN1];
    ExampleShape(wrong);
    ExampleShape(right);
    ExampleTotals(wrong);
    ExampleTotals(right);
    assert right == Swap(wrong, 2, 3);
  }

  lemma ExampleShape(rows: seq<Event>)
    requires |rows| == 5 && rows[0].time == rows[1].time < rows[2].time == rows[3].time == rows[4].time
    requires forall i :: 0 <= i < 5 ==> IsValueRow(rows[i]) || IsWeightRow(rows[i])
    requires IsWeightRow(rows[1]) && IsWeightRow(rows[4]) && (IsWeightRow(rows[2]) || IsWeightRow(rows[3]))
    ensures Timeline(rows)
  {
  }

  /** The totals of five rows of which the first two and the last three are simultaneous. */
  lemma ExampleTotals(rows: seq<Event>)
    requires |rows| == 5 && rows[0].time == rows[1].time < rows[2].time == rows[3].time == rows[4].time
    ensures ValueSum(rows, 2) == rows[0].deltaValue + rows[1].deltaValue
    ensures WeightSum(rows, 2) == rows[0].deltaWeight + rows[1].deltaWeight
    ensures ValueSum(rows, 5) == ValueSum(rows, 2) + rows[2].deltaValue + rows[3].deltaValue + rows[4].deltaValue
    ensures WeightSum(rows, 5) == WeightSum(rows, 2) + rows[2].deltaWeight + rows[3].deltaWeight + rows[4].deltaWeight
    ensures var v, w, v', w' := ValueSum(rows, 2), WeightSum(rows, 2), ValueSum(rows, 5), WeightSum(rows, 5);
            Total(rows, 5) ==
              Times(rows[1].deltaValue, w) + Times(rows[1].deltaWeight, v) +
              Times(rows[2].deltaValue, w) + Times(rows[2].deltaWeight, v) +
              Times(rows[3].deltaValue, w') + Times(rows[3].deltaWeight, v') +
              Times(rows[4].deltaValue, w') + Times(rows[4].deltaWeight, v')
  {
    UptoUnique(rows, rows[0].time, 2);
    UptoUnique(rows, rows[2].time, 5);
    assert ValueSum(rows, 2) == ValueSum(rows, 1) + rows[1].deltaValue;
    assert WeightSum(rows, 2) == WeightSum(rows, 1) + rows[1].deltaWeight;
    TimesZero(rows[0].deltaValue);
    TimesZero(rows[0].deltaWeight);
    assert ValueSum(rows, 5) == ValueSum(rows, 4) + rows[4].deltaValue;
    assert ValueSum(rows, 4) == ValueSum(rows, 3) + rows[3].deltaValue;
    assert WeightSum(rows, 5) == WeightSum(rows, 4) + rows[4].deltaWeight;
    assert WeightSum(rows, 4) == WeightSum(rows, 3) + rows[3].deltaWeight;
    assert Total(rows, 5) == Total(rows, 4) + Contribution(rows, 4);
    assert Total(rows, 4) == Total(rows, 3) + Contribution(rows, 3);
    assert Total(rows, 3) == Total(rows, 2) + Contribution(rows, 2);
    assert Total(rows, 2) == Total(rows, 1) + Contribution(rows, 1);
  }

  // ---- Distinct times -----------------------------------------------------------------------------------

  ghost predicate DistinctTimes(rows: seq<Row>) {
    forall i, j :: 0 <= i < j < |rows| ==> rows[i].time < rows[j].time
  }

  /** A combined time at which nothing changes, after some change: its row repeats the row of that change. */
  ghost predicate RepeatsARow(timelines: seq<seq<Event>>, x: int) {
    !RealChange(timelines, x) && exists y :: y <= x && RealChange(timelines, y)
  }

  /** Rows of distinct times up to a bound; without a row for start, none lies before it. */
  ghost predicate HitsUpTo(hits: seq<Row>, bound: Option<int>, start: int, startListed: bool) {
    && DistinctTimes(hits)
    && (hits != [] ==> bound.Some? && start <= bound.value)
    && (forall r :: r in hits ==> bound.Some? && r.time <= bound.value)
    && (!startListed ==> forall r :: r in hits ==> start <= r.time)
  }

  lemma OneMoreHit(hits: seq<Row>, hit: seq<Row>, before: Option<int>, t: int, start: int, startListed: bool)
    requires HitsUpTo(hits, before, start, startListed) && (before.Some? ==> before.value < t)
    requires |hit| <= 1 && (hit != [] ==> start <= t && hit[0].time <= t)
    requires hit != [] ==> if t == start then startListed else hit[0].time == t
    ensures HitsUpTo(hits + hit, Some(t), start, startListed)
  {
    forall i | 0 <= i < |hits| ensures hits[i].time < t {
      assert hits[i] in hits;
    }
  }

  lemma HitAtItsTime(timelines: seq<seq<Event>>, t: int, e: int)
    requires IsLatestChange(timelines, t, Some(e)) && !RepeatsARow(timelines, t)
    ensures e == t
  {
    hide RealChange;
  }

  lemma CombinedIncrease(times: seq<int>, timelines: seq<seq<Event>>, others: set<int>, n: nat)
    requires IsCombined(times, timelines, others) && 1 < n <= |times|
    ensures times[n - 2] < times[n - 1]
  {
  }

  lemma {:induction false} StrictHits(timelines: seq<seq<Event>>, times: seq<int>, others: set<int>, start: int, end: int, n: nat)
    requires AllSorted(timelines) && IsCombined(times, timelines, others) && n <= |times|
    requires forall x :: x in times && start < x <= end ==> !RepeatsARow(timelines, x)
    ensures HitsUpTo(FlatMap((t: int) => Hit(timelines, times, start, end, t), times[..n]),
                     if n == 0 then None else Some(times[n - 1]), start, start in times)
  {
    hide RealChange, RepeatsARow, Level, Hit, EffectiveTime, AllSorted, IsCombined, IsLatestChange, FlatMap, HitsUpTo;
    var hit := (t: int) => Hit(timelines, times, start, end, t);
    if n == 0 {
      NoHits(hit, times, start, start in times);
    } else {
      var t := times[n - 1];
      assert t in times;
      StrictHits(timelines, times, others, start, end, n - 1);
      HitIs(timelines, times, others, start, end, t);
      LatestIsBefore(timelines, t, EffectiveTime(timelines, times, t));
      if hit(t) != [] && t != start {
        HitAtItsTime(timelines, t, EffectiveTime(timelines, times, t).value);
      }
      if n > 1 {
        CombinedIncrease(times, timelines, others, n);
      }
      HitsSnoc(hit, times, n);
      OneMoreHit(FlatMap(hit, times[..n - 1]), hit(t), if n == 1 then None else Some(times[n - 2]), t, start, start in times);
    }
  }

  lemma NoHits(hit: int -> seq<Row>, times: seq<int>, start: int, startListed: bool)
    ensures HitsUpTo(FlatMap(hit, times[..0]), None, start, startListed)
  {
    assert FlatMap(hit, times[..0]) == [];
  }

  lemma HitsSnoc(hit: int -> seq<Row>, times: seq<int>, n: nat)
    requires 0 < n <= |times|
    ensures FlatMap(hit, times[..n]) == FlatMap(hit, times[..n - 1]) + hit(times[n - 1])
  {
    hide FlatMap;
    assert times[..n] == times[..n - 1] + [times[n - 1]];
    FlatMapConcat(hit, times[..n - 1], [times[n - 1]]);
    FlatMapSingle(hit, times[n - 1]);
  }

  lemma LatestIsBefore(timelines: seq<seq<Event>>, t: int, e: Option<int>)
    requires IsLatestChange(timelines, t, e)
    ensures e.Some? ==> e.value <= t
  {
  }

  /** The row that x repeats comes from its effective time, from the start of the range or from the anchor. */
  lemma RowBefore(timelines: seq<seq<Event>>, times: seq<int>, others: set<int>, start: int, end: int, k: nat, e: int)
    requires AllSorted(timelines) && IsCombined(times, timelines, others)
    requires k < |times| && start < times[k] <= end && e < times[k] && IsLatestChange(timelines, times[k], Some(e))
    ensures Row(e, Level(timelines, e)) in
            AnchorHit(timelines, times, start) + FlatMap((t: int) => Hit(timelines, times, start, end, t), times[..k])
  {
    hide RealChange, Level, Hit, AnchorHit, EffectiveTime, FlatMap;
    var hit := (t: int) => Hit(timelines, times, start, end, t);
    var row := Row(e, Level(timelines, e));
    var source := if start <= e then e else start;
    AnchorIs(timelines, times, others, start);
    if source in times {
      HitIs(timelines, times, others, start, end, source);
      var i :| 0 <= i < |times| && times[i] == source;
      assert times[..k][i] == source;
      assert row in hit(source);
      FlatMapMember(hit, times[..k], row);
    } else {
      assert EffectiveTime(timelines, times, start - 1) == Some(e);
    }
  }

  lemma SplitAt<B>(f: int -> seq<B>, xs: seq<int>, k: nat)
    requires k < |xs|
    ensures FlatMap(f, xs) == FlatMap(f, xs[..k]) + f(xs[k]) + FlatMap(f, xs[k + 1..])
  {
    hide FlatMap;
    assert xs == xs[..k] + ([xs[k]] + xs[k + 1..]);
    FlatMapConcat(f, xs[..k], [xs[k]] + xs[k + 1..]);
    FlatMapConcat(f, [xs[k]], xs[k + 1..]);
    FlatMapSingle(f, xs[k]);
  }

  lemma NotDistinct(before: seq<Row>, row: Row, after: seq<Row>)
    requires row in before
    ensures !DistinctTimes(before + [row] + after)
  {
    var i :| 0 <= i < |before| && before[i] == row;
    var out := before + [row] + after;
    assert out[i] == row && out[|before|] == row;
  }

  /** Two combined times, or the anchor and a combined time, that share an effective time give two equal rows. */
  lemma RowRepeated(timelines: seq<seq<Event>>, times: seq<int>, others: set<int>, start: int, end: int, x: int)
    requires AllSorted(timelines) && IsCombined(times, timelines, others)
    requires x in times && start < x <= end && RepeatsARow(timelines, x)
    ensures !DistinctTimes(Output(timelines, times, start, end))
  {
    hide RealChange, Level, Hit, AnchorHit, EffectiveTime, FlatMap, DistinctTimes;
    var hit := (t: int) => Hit(timelines, times, start, end, t);
    HitIs(timelines, times, others, start, end, x);
    var e := EffectiveTime(timelines, times, x).value;
    var k :| 0 <= k < |times| && times[k] == x;
    RowBefore(timelines, times, others, start, end, k, e);
    SplitAt(hit, times, k);
    var before, after := AnchorHit(timelines, times, start) + FlatMap(hit, times[..k]), FlatMap(hit, times[k + 1..]);
    NotDistinct(before, Row(e, Level(timelines, e)), after);
    assert Output(timelines, times, start, end) == before + [Row(e, Level(timelines, e))] + after;
  }

  /**
   * The rows have distinct times if and only if every combined time after the start of the range is a real
   * change or lies before all real changes.
   */
  lemma DistinctTimesIff(timelines: seq<seq<Event>>, times: seq<int>, others: set<int>, start: int, end: int)
    requires AllSorted(timelines) && IsCombined(times, timelines, others)
    ensures DistinctTimes(Output(timelines, times, start, end)) <==>
            forall x :: x in times && start < x <= end ==> !RepeatsARow(timelines, x)
  {
    hide RealChange, Level, Hit, AnchorHit, EffectiveTime, FlatMap, RepeatsARow;
    if x :| x in times && start < x <= end && RepeatsARow(timelines, x) {
      RowRepeated(timelines, times, others, start, end, x);
    } else {
      StrictHits(timelines, times, others, start, end, |times|);
      assert times[..|times|] == times;
      AnchorIs(timelines, times, others, start);
    }
  }

  const EXAMPLE_POINTS := [Point(1, 10.0), Point(2, 10.0)]
  const EXAMPLE_SPANS := [Span(1.0, 0, MAX_INT8 - 1)]
  const EXAMPLE_ROWS := [Event(1, 10.0, 0.0), Event(1, 0.0, 1.0)]

  /** A primitive that records the same value at 1 and at 2 makes the query for 1 to 2 return the row of 1 twice. */
  lemma RepeatedValueExample()
    ensures AreTimelines([EXAMPLE_ROWS], [Primitive(EXAMPLE_POINTS, EXAMPLE_SPANS)])
    ensures IsCombined([1, 2], [EXAMPLE_ROWS], {1, 2})
    ensures Output([EXAMPLE_ROWS], [1, 2], 1, 2) == [Row(1, 10.0), Row(1, 10.0)]
  {
    ExampleCombined();
    hide RealChange, Level, IsArrangement, AllSorted, IsCombined, Output;
    ExampleArrangement();
    ExampleLevel();
    OneChangeTwoTimes([EXAMPLE_ROWS]);
  }

  lemma ExampleCombined()
    ensures AllSorted([EXAMPLE_ROWS]) && IsCombined([1, 2], [EXAMPLE_ROWS], {1, 2})
    ensures forall t :: RealChange([EXAMPLE_ROWS], t) <==> t == 1
  {
    forall t: int ensures RealChange([EXAMPLE_ROWS], t) <==> t == 1 {
      hide Delta;
      ExampleCells(t);
    }
    hide RealChange;
  }

  lemma OneChangeTwoTimes(timelines: seq<seq<Event>>)
    requires AllSorted(timelines) && IsCombined([1, 2], timelines, {1, 2})
    requires forall t :: RealChange(timelines, t) <==> t == 1
    ensures Output(timelines, [1, 2], 1, 2) == [Row(1, Level(timelines, 1)), Row(1, Level(timelines, 1))]
  {
    hide RealChange, Level, Hit, AnchorHit, EffectiveTime, AllSorted, FlatMap, IsCombined;
    HitIs(timelines, [1, 2], {1, 2}, 1, 2, 1);
    HitIs(timelines, [1, 2], {1, 2}, 1, 2, 2);
    AnchorIs(timelines, [1, 2], {1, 2}, 1);
    var hit := (t: int) => Hit(timelines, [1, 2], 1, 2, t);
    assert RealChange(timelines, 1);
    assert hit(1) == [Row(1, Level(timelines, 1))] && hit(2) == [Row(1, Level(timelines, 1))];
    TwoHits(hit);
  }

  lemma TwoHits<B>(f: int -> seq<B>)
    ensures FlatMap(f, [1, 2]) == f(1) + f(2)
  {
    assert [1, 2][1..] == [2];
  }

  lemma {:induction false} ExampleArrangement()
    ensures IsArrangement(EXAMPLE_ROWS, EXAMPLE_POINTS, EXAMPLE_SPANS)
  {
    assert EXAMPLE_POINTS[..1] == [Point(1, 10.0)] && EXAMPLE_POINTS[..1][..0] == [];
    assert ValueChanges(EXAMPLE_POINTS) == [Event(1, 10.0, 0.0)];
    var s := EXAMPLE_SPANS[0];
    assert EXAMPLE_SPANS == [s] && Opens(s, 1) == [Event(1, 0.0, 1.0)] && Closes(s, 1) == [];
    FlatMapSingle((s: Span) => Opens(s, 1), s);
    FlatMapSingle((s: Span) => Closes(s, 1), s);
    assert Unified(EXAMPLE_POINTS, EXAMPLE_SPANS) == EXAMPLE_ROWS;
  }

  lemma ExampleLevel()
    ensures Level([EXAMPLE_ROWS], 1) == 10.0
  {
    var rows := EXAMPLE_ROWS;
    UptoUnique(rows, 1, 2);
    assert Total(rows, 2) == Total(rows, 1) + Contribution(rows, 1) && Total(rows, 1) == Total(rows, 0) + Contribution(rows, 0);
    assert ValueSum(rows, 2) == ValueSum(rows, 1) + 0.0 && ValueSum(rows, 1) == ValueSum(rows, 0) + 10.0;
    assert WeightSum(rows, 2) == WeightSum(rows, 1) + 1.0 && WeightSum(rows, 1) == WeightSum(rows, 0) + 0.0;
    SumSingle((r: seq<Event>) => Prefix(WeightedSum, r, Upto(r, 1)), rows);
    SumSingle((r: seq<Event>) => Prefix(SumOfWeights, r, Upto(r, 1)), rows);
    hide Total, WeightSum, ValueSum, Upto, Sum;
    assert Reached(WeightedSum, [rows], 1) == 10.0 && Reached(SumOfWeights, [rows], 1) == 1.0;
  }

  lemma ExampleCells(t: int)
    ensures Delta(WeightedSum, [EXAMPLE_ROWS], t) == if t == 1 then 10.0 else 0.0
    ensures Delta(SumOfWeights, [EXAMPLE_ROWS], t) == if t == 1 then 1.0 else 0.0
  {
    var rows := EXAMPLE_ROWS;
    ExampleContributions();
    hide Contribution, Sum;
    TwoCells(WeightedSum, rows, t);
    TwoCells(SumOfWeights, rows, t);
    SumSingle((r: seq<Event>) => CellsAt(WeightedSum, r, |r|, t), rows);
    SumSingle((r: seq<Event>) => CellsAt(SumOfWeights, r, |r|, t), rows);
  }

  lemma ExampleContributions()
    ensures Contribution(EXAMPLE_ROWS, 0) == 0.0 && Contribution(EXAMPLE_ROWS, 1) == 10.0
  {
    UptoUnique(EXAMPLE_ROWS, 1, 2);
    assert ValueSum(EXAMPLE_ROWS, 2) == ValueSum(EXAMPLE_ROWS, 1) + 0.0;
    assert ValueSum(EXAMPLE_ROWS, 1) == ValueSum(EXAMPLE_ROWS, 0) + 10.0;
  }

  lemma TwoCells(c: Column, rows: seq<Event>, t: int)
    requires |rows| == 2 && rows[0].time == rows[1].time
    ensures CellsAt(c, rows, 2, t) == if rows[0].time == t then Cell(c, rows, 0) + Cell(c, rows, 1) else 0.0
  {
    hide Cell;
    assert CellsAt(c, rows, 2, t) == CellsAt(c, rows, 1, t) + (if rows[1].time == t then Cell(c, rows, 1) else 0.0);
    assert CellsAt(c, rows, 1, t) == CellsAt(c, rows, 0, t) + (if rows[0].time == t then Cell(c, rows, 0) else 0.0);
  }
}
