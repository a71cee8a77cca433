/** What enters the composed query (internal/migrations/006-composed-query.sql). */
module ComposedPoints {
  // Which recorded values of a primitive enter it (steps 1 to 3): the last one at or before the start of the range, and
  // inside the range those that fall into some weight span. Values that fall between two spans are left out, even if a
  // later span needs them.

  import opened ComposedDelta
  import opened Sequences
  import opened ComposedTimeline

  /** A primitive's rows of primitive_events: (event_time, created_at) is the key. */
  type Table = map<(int, int), real>

  /** p carries the version of its time that was created last, among those created by frozenAt. */
  ghost predicate IsLastVersion(table: Table, frozenAt: int, p: Point) {
    exists c :: IsVersion(table, frozenAt, p, c) && forall d :: (p.time, d) in table && d <= frozenAt ==> d <= c
  }

  predicate IsVersion(table: Table, frozenAt: int, p: Point, c: int) {
    (p.time, c) in table && c <= frozenAt && table[(p.time, c)] == p.value
  }

  /** The primitive's series as of frozenAt. */
  ghost predicate IsSeries(series: seq<Point>, table: Table, frozenAt: int) {
    Increasing(series) && forall p :: p in series <==> IsLastVersion(table, frozenAt, p)
  }

  predicate Covered(spans: seq<Span>, t: int) {
    exists k :: 0 <= k < |spans| && spans[k].first <= t <= spans[k].last
  }

  /** initial_primitive_states takes the latest row at or before start, primitive_events_in_interval the covered ones. */
  ghost predicate Enters(p: Point, table: Table, spans: seq<Span>, start: int, end: int, frozenAt: int) {
    && IsLastVersion(table, frozenAt, p)
    && (if p.time <= start
        then spans != [] && forall r :: IsLastVersion(table, frozenAt, r) && r.time <= start ==> r.time <= p.time
        else p.time <= end && Covered(spans, p.time))
  }

  /** all_primitive_points for the primitive. */
  ghost predicate ArePoints(points: seq<Point>, table: Table, spans: seq<Span>, start: int, end: int, frozenAt: int) {
    Increasing(points) && forall p :: p in points <==> Enters(p, table, spans, start, end, frozenAt)
  }

  lemma {:induction false} LocfOf(points: seq<Point>, t: int, p: Point)
    requires Increasing(points) && p in points && p.time <= t
    requires forall r :: r in points && r.time <= t ==> r.time <= p.time
    ensures Locf(points, t) == p.value
  {
    var n := |points| - 1;
    var i :| 0 <= i < |points| && points[i] == p;
    assert points[n] in points;
    if i < n {
      assert points[..n][i] == p;
      LocfOf(points[..n], t, p);
    }
  }

  lemma {:induction false} LocfOfNone(points: seq<Point>, t: int)
    requires forall r :: r in points ==> t < r.time
    ensures Locf(points, t) == 0.0
  {
    if points != [] {
      assert points[|points| - 1] in points;
      LocfOfNone(points[..|points| - 1], t);
    }
  }

  /** The k-th value of the series is the latest one at t. */
  predicate LatestAt(series: seq<Point>, t: int, k: nat) {
    k < |series| && series[k].time <= t && (k + 1 < |series| ==> t < series[k + 1].time)
  }

  lemma {:induction false} LatestExists(series: seq<Point>, t: int, n: nat)
    requires Increasing(series) && n <= |series| && (n < |series| ==> t < series[n].time)
    ensures (exists k :: LatestAt(series, t, k)) || forall i :: 0 <= i < n ==> t < series[i].time
  {
    if n > 0 {
      if series[n - 1].time <= t {
        assert LatestAt(series, t, n - 1);
      } else {
        LatestExists(series, t, n - 1);
      }
    }
  }

  lemma NotLater(series: seq<Point>, t: int, k: nat, i: nat)
    requires Increasing(series) && LatestAt(series, t, k) && i < |series| && series[i].time <= t
    ensures i <= k && series[i].time <= series[k].time
  {
    assert forall m :: k + 1 <= m < |series| ==> series[k + 1].time <= series[m].time;
  }

  lemma LocfAtLatest(series: seq<Point>, t: int, k: nat)
    requires Increasing(series) && LatestAt(series, t, k)
    ensures Locf(series, t) == series[k].value && series[0].time <= t
  {
    forall r | r in series && r.time <= t ensures r.time <= series[k].time {
      var i :| 0 <= i < |series| && series[i] == r;
      NotLater(series, t, k, i);
    }
    LocfOf(series, t, series[k]);
  }

  // ---- Which values of the series enter --------------------------------------------------------------------

  /** The k-th value of the series enters: it is the last one by start, or inside the range and in some span. */
  predicate EntersAt(series: seq<Point>, spans: seq<Span>, start: int, end: int, k: nat) {
    && k < |series|
    && (if series[k].time <= start then k + 1 < |series| ==> start < series[k + 1].time
        else series[k].time <= end && Covered(spans, series[k].time))
  }

  lemma EntersIffListed(series: seq<Point>, points: seq<Point>, table: Table, spans: seq<Span>, start: int, end: int,
                        frozenAt: int, k: nat)
    requires IsSeries(series, table, frozenAt) && ArePoints(points, table, spans, start, end, frozenAt)
    requires spans != [] && k < |series|
    ensures series[k] in points <==> EntersAt(series, spans, start, end, k)
  {
    hide Covered, IsLastVersion;
    assert series[k] in series;
    if series[k].time <= start {
      if k + 1 < |series| && series[k + 1].time <= start {
        assert series[k + 1] in series;
      } else {
        forall r | IsLastVersion(table, frozenAt, r) && r.time <= start ensures r.time <= series[k].time {
          assert r in series;
          var i :| 0 <= i < |series| && series[i] == r;
          NotLater(series, start, k, i);
        }
      }
    }
  }

  /** Every point is a value of the series that enters. */
  lemma PointFrom(series: seq<Point>, points: seq<Point>, table: Table, spans: seq<Span>, start: int, end: int,
                  frozenAt: int, p: Point) returns (k: nat)
    requires IsSeries(series, table, frozenAt) && ArePoints(points, table, spans, start, end, frozenAt)
    requires spans != [] && p in points
    ensures k < |series| && series[k] == p && EntersAt(series, spans, start, end, k)
  {
    hide Covered, IsLastVersion, EntersAt;
    assert p in series;
    k :| 0 <= k < |series| && series[k] == p;
    EntersIffListed(series, points, table, spans, start, end, frozenAt, k);
  }

  // ---- What the query reads ------------------------------------------------------------------------------------

  /** At t the query weighs the points exactly as it would weigh the whole series. */
  predicate WeighsRight(points: seq<Point>, series: seq<Point>, spans: seq<Span>, t: int) {
    && WeightAt(points, spans, t) == WeightAt(series, spans, t)
    && Times(Locf(points, t), WeightAt(points, spans, t)) == Times(Locf(series, t), WeightAt(series, spans, t))
  }

  /** The j-th value enters, none between j and k does, and the k-th value equals it. */
  predicate Stands(series: seq<Point>, spans: seq<Span>, start: int, end: int, j: nat, k: nat)
    requires k < |series|
  {
    && j < k && EntersAt(series, spans, start, end, j)
    && (forall i :: j < i < k ==> !EntersAt(series, spans, start, end, i))
    && series[j].value == series[k].value
  }

  /** The k-th value is the latest at some time of the range at which the primitive has a weight. */
  ghost predicate IsRead(series: seq<Point>, spans: seq<Span>, start: int, end: int, k: nat) {
    exists t :: ReadAtTime(series, spans, start, end, k, t)
  }

  predicate ReadAtTime(series: seq<Point>, spans: seq<Span>, start: int, end: int, k: nat, t: int) {
    start <= t <= end && LatestAt(series, t, k) && SpanWeight(spans, t) != 0.0
  }

  /** The k-th value is read although it does not enter, and no value that enters stands in for it. */
  ghost predicate Missed(series: seq<Point>, spans: seq<Span>, start: int, end: int, k: nat)
    requires k < |series|
  {
    && start < series[k].time && !Covered(spans, series[k].time)
    && IsRead(series, spans, start, end, k)
    && !exists j :: Stands(series, spans, start, end, j, k)
  }

  lemma {:induction false} NoSpanNoWeight(spans: seq<Span>, t: int)
    requires !Covered(spans, t)
    ensures SpanWeight(spans, t) == 0.0
  {
    SumZero((s: Span) => if s.first <= t <= s.last then s.weight else 0.0, spans);
  }

  /** The last value before k that enters, if there is one. */
  lemma {:induction false} LastEntering(series: seq<Point>, spans: seq<Span>, start: int, end: int, k: nat) returns (j: nat)
    ensures j <= k && forall i :: j <= i < k ==> !EntersAt(series, spans, start, end, i)
    ensures j > 0 ==> EntersAt(series, spans, start, end, j - 1)
  {
    hide EntersAt;
    if k == 0 || EntersAt(series, spans, start, end, k - 1) {
      j := k;
    } else {
      j := LastEntering(series, spans, start, end, k - 1);
    }
  }

  /** A weight that is not zero tells the values apart, and tells a value from none. */
  lemma WeightTells(w: real, v: real, v': real)
    requires w != 0.0
    ensures Times(v, w) == Times(v', w) <==> v == v'
  {
    if v != v' {
      assert (v - v') * w != 0.0;
    }
  }

  lemma RightWithoutWeight(points: seq<Point>, series: seq<Point>, spans: seq<Span>, t: int)
    requires SpanWeight(spans, t) == 0.0
    ensures WeighsRight(points, series, spans, t)
  {
    hide Locf, SpanWeight;
    TimesZeroRight(Locf(points, t));
    TimesZeroRight(Locf(series, t));
  }

  lemma TimesZeroRight(v: real)
    ensures Times(v, 0.0) == 0.0
  {
  }

  /** Without a value so far, the points carry no weight; the series has none either, or weighs more. */
  lemma NoPointSoFar(points: seq<Point>, series: seq<Point>, spans: seq<Span>, t: int)
    requires SpanWeight(spans, t) != 0.0 && forall p :: p in points ==> t < p.time
    ensures WeighsRight(points, series, spans, t) <==> series == [] || t < series[0].time
  {
    hide SpanWeight, Locf, Times;
    assert points != [] ==> points[0] in points;
    assert WeightAt(points, spans, t) == 0.0;
    if series == [] || t < series[0].time {
      hide WeightAt;
      NothingWeighed(Locf(points, t), Locf(series, t));
    }
  }

  lemma NothingWeighed(v: real, v': real)
    ensures Times(v, 0.0) == Times(v', 0.0)
  {
  }

  /** With the j-th value carried by the points and the k-th by the series, right means equal. */
  lemma BothCarry(points: seq<Point>, series: seq<Point>, table: Table, spans: seq<Span>, start: int, end: int, frozenAt: int,
                  t: int, j: nat, k: nat)
    requires IsSeries(series, table, frozenAt) && ArePoints(points, table, spans, start, end, frozenAt) && spans != []
    requires SpanWeight(spans, t) != 0.0 && j <= k && LatestAt(series, t, k) && EntersAt(series, spans, start, end, j)
    requires forall i :: j < i <= k ==> !EntersAt(series, spans, start, end, i)
    ensures WeighsRight(points, series, spans, t) <==> series[j].value == series[k].value
  {
    hide Covered, IsLastVersion, SpanWeight, Times, EntersAt;
    EntersIffListed(series, points, table, spans, start, end, frozenAt, j);
    forall r | r in points && r.time <= t ensures r.time <= series[j].time {
      var i := PointFrom(series, points, table, spans, start, end, frozenAt, r);
      NotLater(series, t, k, i);
    }
    LocfOf(points, t, series[j]);
    LocfAtLatest(series, t, k);
    var first :| 0 <= first < |points| && points[first] == series[j];
    assert points[0].time <= points[first].time <= t;
    hide Locf;
    assert WeightAt(points, spans, t) == SpanWeight(spans, t) == WeightAt(series, spans, t);
    WeightTells(SpanWeight(spans, t), series[j].value, series[k].value);
  }

  /** At a time with a weight, wrong means that the latest value of the series is missed. */
  lemma RightAtTime(points: seq<Point>, series: seq<Point>, table: Table, spans: seq<Span>, start: int, end: int, frozenAt: int,
                    t: int, k: nat)
    requires IsSeries(series, table, frozenAt) && ArePoints(points, table, spans, start, end, frozenAt)
    requires start <= t <= end && SpanWeight(spans, t) != 0.0 && LatestAt(series, t, k)
    ensures WeighsRight(points, series, spans, t) <==> !Missed(series, spans, start, end, k)
  {
    hide IsLastVersion, SpanWeight, WeighsRight;
    NoSpan(spans, t);
    assert ReadAtTime(series, spans, start, end, k, t);
    if EntersAt(series, spans, start, end, k) {
      hide Covered;
      BothCarry(points, series, table, spans, start, end, frozenAt, t, k, k);
    } else {
      assert start < series[k].time && !Covered(spans, series[k].time);
      hide Covered, EntersAt;
      var j := LastEntering(series, spans, start, end, k);
      if j > 0 {
        BothCarry(points, series, table, spans, start, end, frozenAt, t, j - 1, k);
        StandsOnly(series, spans, start, end, j - 1, k);
      } else {
        forall p | p in points ensures t < p.time {
          var i := PointFrom(series, points, table, spans, start, end, frozenAt, p);
          assert k < i && series[k + 1].time <= series[i].time;
        }
        LocfAtLatest(series, t, k);
        NoPointSoFar(points, series, spans, t);
      }
    }
  }

  lemma NoSpan(spans: seq<Span>, t: int)
    requires SpanWeight(spans, t) != 0.0
    ensures Covered(spans, t) && spans != []
  {
    if !Covered(spans, t) {
      NoSpanNoWeight(spans, t);
    }
  }

  lemma StandsOnly(series: seq<Point>, spans: seq<Span>, start: int, end: int, j: nat, k: nat)
    requires j < k < |series| && EntersAt(series, spans, start, end, j)
    requires forall i :: j < i < k ==> !EntersAt(series, spans, start, end, i)
    ensures (exists i :: Stands(series, spans, start, end, i, k)) <==> series[j].value == series[k].value
  {
    hide EntersAt;
    if series[j].value == series[k].value {
      assert Stands(series, spans, start, end, j, k);
    }
  }

  /**
   * The points that enter the query weigh as the primitive's whole series would, at every time of the range, if and
   * only if no value is missed: one recorded inside the range and outside all spans that is still the latest at a time
   * with a weight, unless the last value before it that enters exists and equals it.
   */
  lemma CarriedForwardIff(points: seq<Point>, series: seq<Point>, table: Table, spans: seq<Span>,
                          start: int, end: int, frozenAt: int)
    requires IsSeries(series, table, frozenAt) && ArePoints(points, table, spans, start, end, frozenAt)
    ensures (forall t :: start <= t <= end ==> WeighsRight(points, series, spans, t)) <==>
            (forall k :: 0 <= k < |series| ==> !Missed(series, spans, start, end, k))
  {
    hide IsLastVersion, SpanWeight, WeighsRight, Stands, Covered, LatestAt, Increasing;
    if k :| 0 <= k < |series| && Missed(series, spans, start, end, k) {
      var t :| ReadAtTime(series, spans, start, end, k, t);
      RightAtTime(points, series, table, spans, start, end, frozenAt, t, k);
    } else {
      forall t | start <= t <= end ensures WeighsRight(points, series, spans, t) {
        RightWithoutMissed(points, series, table, spans, start, end, frozenAt, t);
      }
    }
  }

  lemma RightWithoutMissed(points: seq<Point>, series: seq<Point>, table: Table, spans: seq<Span>,
                           start: int, end: int, frozenAt: int, t: int)
    requires IsSeries(series, table, frozenAt) && ArePoints(points, table, spans, start, end, frozenAt)
    requires start <= t <= end && forall k :: 0 <= k < |series| ==> !Missed(series, spans, start, end, k)
    ensures WeighsRight(points, series, spans, t)
  {
    hide IsLastVersion, SpanWeight, WeighsRight, Missed, Covered;
    if SpanWeight(spans, t) == 0.0 {
      RightWithoutWeight(points, series, spans, t);
    } else if k :| LatestAt(series, t, k) {
      RightAtTime(points, series, table, spans, start, end, frozenAt, t, k);
    } else {
      LatestExists(series, t, |series|);
      forall p | p in points ensures t < p.time {
        assert p in series;
      }
      NoPointSoFar(points, series, spans, t);
    }
  }

  /**
   * The weight stops after 3 and resumes at 8; the value of 5 is not seen, so at 8 the query still weighs
   * the value 10 although the primitive stands at 20.
   */
  lemma StaleValueExample()
    ensures var table: Table := map[(1, 0) := 10.0, (5, 0) := 20.0];
            var series, points := [Point(1, 10.0), Point(5, 20.0)], [Point(1, 10.0)];
            var spans := [Span(1.0, 0, 3), Span(1.0, 8, MAX_INT8 - 1)];
            && IsSeries(series, table, 0) && ArePoints(points, table, spans, 1, 9, 0)
            && Locf(series, 8) == 20.0 && Locf(points, 8) == 10.0 && WeightAt(points, spans, 8) == 1.0
  {
    var table: Table := map[(1, 0) := 10.0, (5, 0) := 20.0];
    var series, points := [Point(1, 10.0), Point(5, 20.0)], [Point(1, 10.0)];
    var spans := [Span(1.0, 0, 3), Span(1.0, 8, MAX_INT8 - 1)];
    forall p: Point ensures IsLastVersion(table, 0, p) <==> p in series {
      if p in series {
        assert IsVersion(table, 0, p, 0);
      }
    }
    assert IsLastVersion(table, 0, series[0]) && IsLastVersion(table, 0, series[1]);
    hide IsLastVersion;
    assert !Covered(spans, 5);
    forall p: Point ensures Enters(p, table, spans, 1, 9, 0) <==> p in points {
      assert p in series <==> p == series[0] || p == series[1];
    }
    LocfOf(points, 8, points[0]);
    LocfOf(series, 8, series[1]);
    assert spans == [spans[0], spans[1]];
    TwoSpans(spans[0], spans[1], 8);
  }

  lemma TwoSpans(a: Span, b: Span, t: int)
    ensures SpanWeight([a, b], t) == (if a.first <= t <= a.last then a.weight else 0.0) + (if b.first <= t <= b.last then b.weight else 0.0)
  {
    var weight := (s: Span) => if s.first <= t <= s.last then s.weight else 0.0;
    assert [a, b] == [a] + [b];
    SumConcat(weight, [a], [b]);
    SumSingle(weight, a);
    SumSingle(weight, b);
  }

  /**
   * A first value of zero counts as well: recorded at 5 before the weight begins at 8, it does not enter, so at 8 the
   * primitive has no weight in the query although its series has a value and weighs 1. Next to a primitive that stands at
   * 10 with weight 1 the query averages 10 instead of 5.
   */
  lemma MissedZeroExample()
    ensures var table: Table := map[(5, 0) := 0.0];
            var series, points: seq<Point> := [Point(5, 0.0)], [];
            var spans := [Span(1.0, 8, MAX_INT8 - 1)];
            && IsSeries(series, table, 0) && ArePoints(points, table, spans, 1, 9, 0)
            && Missed(series, spans, 1, 9, 0)
            && WeightAt(points, spans, 8) == 0.0 && WeightAt(series, spans, 8) == 1.0
            && var (v, w) := (10.0, 1.0);
               && (Times(Locf(points, 8), WeightAt(points, spans, 8)) + Times(v, w)) / (WeightAt(points, spans, 8) + w) == 10.0
               && (Times(Locf(series, 8), WeightAt(series, spans, 8)) + Times(v, w)) / (WeightAt(series, spans, 8) + w) == 5.0
  {
    var table: Table := map[(5, 0) := 0.0];
    var series, points: seq<Point> := [Point(5, 0.0)], [];
    var spans := [Span(1.0, 8, MAX_INT8 - 1)];
    forall p: Point ensures IsLastVersion(table, 0, p) <==> p in series {
      if p in series {
        assert IsVersion(table, 0, p, 0);
      }
    }
    assert IsLastVersion(table, 0, series[0]);
    hide IsLastVersion;
    assert !Covered(spans, 5);
    assert spans == [spans[0]] && SpanWeight(spans, 8) == 1.0 by {
      SumSingle((s: Span) => if s.first <= 8 <= s.last then s.weight else 0.0, spans[0]);
    }
    assert ReadAtTime(series, spans, 1, 9, 0, 8);
    LocfOf(series, 8, series[0]);
  }
}
