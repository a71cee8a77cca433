/** The composed query, end to end (internal/migrations/006-composed-query.sql). */
module ComposedMeaning {
  // Its value at a time is the average of the primitives' last values, weighted by the paths that lead to them at that
  // time.

  import opened Wrappers
  import opened Sequences
  import opened ComposedDelta
  import opened ComposedPoints
  import opened ComposedTimeline
  import opened ComposedSeries
  import opened ComposedQuery
  import T = Taxonomy
  import W = TaxonomyWeights

  /** A primitive stream with the points that enter the query. */
  datatype Source = Source(name: string, points: seq<Point>)

  /** The primitives with the weight spans that the hierarchy gives them. */
  function PrimitivesOf(q: T.Query, root: string, depth: nat, sources: seq<Source>): (ps: seq<Primitive>)
    ensures |ps| == |sources|
    ensures forall k :: 0 <= k < |sources| ==>
              ps[k] == Primitive(sources[k].points, W.SpansOf(W.Hierarchy(q, root, depth), sources[k].name))
  {
    Map((s: Source) => Primitive(s.points, W.SpansOf(W.Hierarchy(q, root, depth), s.name)), sources)
  }

  /** The sum over the paths to the stream that are in force at t, once the stream has a value. */
  function PathWeight(q: T.Query, root: string, depth: nat, s: Source, t: int): real {
    if s.points == [] || t < s.points[0].time then 0.0
    else Sum((p: T.Path) => if p.child == s.name then p.weight else 0.0, W.AllPaths(q.rows, root, t, depth))
  }

  lemma WeightIsPathWeight(q: T.Query, root: string, depth: nat, s: Source, t: int)
    requires T.ValidQuery(q) && q.start <= t <= q.end && t < MAX_INT8
    ensures WeightAt(s.points, W.SpansOf(W.Hierarchy(q, root, depth), s.name), t) == PathWeight(q, root, depth, s, t)
  {
    hide T.ValidQuery, W.Hierarchy, W.AllPaths, W.SpansOf, SpanWeight;
    W.WeightIsSumOfPaths(q, root, s.name, t, depth);
  }

  lemma SumsByPaths(q: T.Query, root: string, depth: nat, sources: seq<Source>, t: int)
    requires T.ValidQuery(q) && q.start <= t <= q.end && t < MAX_INT8
    ensures var ps := PrimitivesOf(q, root, depth, sources);
            && WeightedValues(ps, t) == Sum((s: Source) => Times(Locf(s.points, t), PathWeight(q, root, depth, s, t)), sources)
            && Weights(ps, t) == Sum((s: Source) => PathWeight(q, root, depth, s, t), sources)
  {
    hide T.ValidQuery, W.Hierarchy, W.SpansOf, PathWeight, WeightAt, Locf, Times;
    var ps := PrimitivesOf(q, root, depth, sources);
    forall k | 0 <= k < |sources| ensures WeightAt(ps[k].points, ps[k].spans, t) == PathWeight(q, root, depth, sources[k], t) {
      WeightIsPathWeight(q, root, depth, sources[k], t);
    }
    SumPairwise((p: Primitive) => Times(Locf(p.points, t), WeightAt(p.points, p.spans, t)),
                (s: Source) => Times(Locf(s.points, t), PathWeight(q, root, depth, s, t)), ps, sources);
    SumPairwise((p: Primitive) => WeightAt(p.points, p.spans, t), (s: Source) => PathWeight(q, root, depth, s, t), ps, sources);
  }

  /**
   * Where no primitive has a contested time, the rows of the composed query, carried forward to any time of the
   * range, give the average of the primitives' last values weighted by their paths from the root.
   */
  lemma {:induction false} ComposedValueIsPathAverage(q: T.Query, root: string, depth: nat, sources: seq<Source>,
                                                      timelines: seq<seq<Event>>, times: seq<int>, others: set<int>, t: int)
    requires T.ValidQuery(q) && q.start <= t <= q.end && t < MAX_INT8
    requires AreTimelines(timelines, PrimitivesOf(q, root, depth, sources)) && IsCombined(times, timelines, others)
    requires forall rows :: rows in timelines ==> !Contested(rows) || ValueFirst(rows)
    ensures var weighted := Sum((s: Source) => Times(Locf(s.points, t), PathWeight(q, root, depth, s, t)), sources);
            var weights := Sum((s: Source) => PathWeight(q, root, depth, s, t), sources);
            match ReadAt(Output(timelines, times, q.start, q.end), t)
            case None => weighted == 0.0 && weights == 0.0 && forall x :: x <= t ==> !RealChange(timelines, x)
            case Some(a) =>
              && (exists x :: x <= t && RealChange(timelines, x))
              && (weights == 0.0 ==> a == 0.0) && (weights != 0.0 ==> a * weights == weighted)
  {
    hide T.ValidQuery, W.Hierarchy, RealChange, Output, ReadAt, Contested, ValueFirst, IsCombined, AreTimelines,
         WeightedValues, Weights, PathWeight, PrimitivesOf;
    QueryIsWeightedAverage(timelines, PrimitivesOf(q, root, depth, sources), times, others, q.start, q.end, t);
    SumsByPaths(q, root, depth, sources, t);
  }

  /**
   * With weights by paths that are not negative and add up to more than nothing, the value read exists and lies between
   * any bounds on the last values of the streams that have a weight.
   */
  lemma ComposedValueIsBetween(q: T.Query, root: string, depth: nat, sources: seq<Source>, timelines: seq<seq<Event>>,
                               times: seq<int>, others: set<int>, t: int, lo: real, hi: real)
    requires T.ValidQuery(q) && q.start <= t <= q.end && t < MAX_INT8
    requires AreTimelines(timelines, PrimitivesOf(q, root, depth, sources)) && IsCombined(times, timelines, others)
    requires forall rows :: rows in timelines ==> !Contested(rows) || ValueFirst(rows)
    requires forall s :: s in sources ==> PathWeight(q, root, depth, s, t) >= 0.0
    requires forall s :: s in sources && PathWeight(q, root, depth, s, t) > 0.0 ==> lo <= Locf(s.points, t) <= hi
    requires exists s :: s in sources && PathWeight(q, root, depth, s, t) > 0.0
    ensures var a := ReadAt(Output(timelines, times, q.start, q.end), t); a.Some? && lo <= a.value <= hi
  {
    hide *;
    ComposedValueIsPathAverage(q, root, depth, sources, timelines, times, others, t);
    MeanIsBetween(q, root, depth, sources, t, ReadAt(Output(timelines, times, q.start, q.end), t), lo, hi);
  }

  lemma MeanIsBetween(q: T.Query, root: string, depth: nat, sources: seq<Source>, t: int, read: Option<real>, lo: real, hi: real)
    requires forall s :: s in sources ==> PathWeight(q, root, depth, s, t) >= 0.0
    requires forall s :: s in sources && PathWeight(q, root, depth, s, t) > 0.0 ==> lo <= Locf(s.points, t) <= hi
    requires exists s :: s in sources && PathWeight(q, root, depth, s, t) > 0.0
    requires var weighted := Sum((s: Source) => Times(Locf(s.points, t), PathWeight(q, root, depth, s, t)), sources);
             var weights := Sum((s: Source) => PathWeight(q, root, depth, s, t), sources);
             match read
             case None => weights == 0.0
             case Some(a) => weights != 0.0 ==> a * weights == weighted
    ensures read.Some? && lo <= read.value <= hi
  {
    hide *;
    var weight := (s: Source) => PathWeight(q, root, depth, s, t);
    var weighted := (s: Source) => Times(Locf(s.points, t), PathWeight(q, root, depth, s, t));
    SumPositive(weight, sources);
    SumBetween(weight, (s: Source) => Locf(s.points, t), weighted, sources, lo, hi);
    Divided(read.value, Sum(weighted, sources), Sum(weight, sources), lo, hi);
  }

  // ---- From recorded events ------------------------------------------------------------------------------

  /** A primitive stream with its recorded events, its series as of a height, and the points that enter the query. */
  datatype Recorded = Recorded(name: string, events: Table, series: seq<Point>, points: seq<Point>)

  /** The series and the points are what the events make them under the spans of the hierarchy. */
  ghost predicate IsRecorded(q: T.Query, root: string, depth: nat, r: Recorded, frozenAt: int) {
    && IsSeries(r.series, r.events, frozenAt)
    && ArePoints(r.points, r.events, W.SpansOf(W.Hierarchy(q, root, depth), r.name), q.start, q.end, frozenAt)
  }

  /** No value of the stream is missed (see ComposedPoints.CarriedForwardIff). */
  ghost predicate NothingMissed(q: T.Query, root: string, depth: nat, r: Recorded) {
    forall k :: 0 <= k < |r.series| ==>
      !Missed(r.series, W.SpansOf(W.Hierarchy(q, root, depth), r.name), q.start, q.end, k)
  }

  /** The streams as the query sees them. */
  function Seen(rs: seq<Recorded>): (ss: seq<Source>)
    ensures |ss| == |rs| && forall k :: 0 <= k < |rs| ==> ss[k] == Source(rs[k].name, rs[k].points)
  {
    Map((r: Recorded) => Source(r.name, r.points), rs)
  }

  /** The streams with everything recorded by the height. */
  function Whole(rs: seq<Recorded>): (ss: seq<Source>)
    ensures |ss| == |rs| && forall k :: 0 <= k < |rs| ==> ss[k] == Source(rs[k].name, rs[k].series)
  {
    Map((r: Recorded) => Source(r.name, r.series), rs)
  }

  lemma SeenWeighsAsWhole(q: T.Query, root: string, depth: nat, r: Recorded, frozenAt: int, t: int)
    requires T.ValidQuery(q) && q.start <= t <= q.end && t < MAX_INT8
    requires IsRecorded(q, root, depth, r, frozenAt) && NothingMissed(q, root, depth, r)
    ensures var seen, whole := Source(r.name, r.points), Source(r.name, r.series);
            && PathWeight(q, root, depth, seen, t) == PathWeight(q, root, depth, whole, t)
            && Times(Locf(r.points, t), PathWeight(q, root, depth, seen, t)) ==
               Times(Locf(r.series, t), PathWeight(q, root, depth, whole, t))
  {
    hide T.ValidQuery, W.Hierarchy, W.SpansOf, IsSeries, ArePoints, Missed, PathWeight, WeightAt, Locf, Times;
    var spans := W.SpansOf(W.Hierarchy(q, root, depth), r.name);
    RightWithoutMissed(r.points, r.series, r.events, spans, q.start, q.end, frozenAt, t);
    WeightIsPathWeight(q, root, depth, Source(r.name, r.points), t);
    WeightIsPathWeight(q, root, depth, Source(r.name, r.series), t);
  }

  lemma SumsOfSeen(q: T.Query, root: string, depth: nat, rs: seq<Recorded>, frozenAt: int, t: int)
    requires T.ValidQuery(q) && q.start <= t <= q.end && t < MAX_INT8
    requires forall r :: r in rs ==> IsRecorded(q, root, depth, r, frozenAt) && NothingMissed(q, root, depth, r)
    ensures var weight := (s: Source) => PathWeight(q, root, depth, s, t);
            var weighted := (s: Source) => Times(Locf(s.points, t), PathWeight(q, root, depth, s, t));
            Sum(weight, Seen(rs)) == Sum(weight, Whole(rs)) && Sum(weighted, Seen(rs)) == Sum(weighted, Whole(rs))
  {
    hide T.ValidQuery, IsRecorded, NothingMissed, PathWeight, Locf, Times;
    var weight := (s: Source) => PathWeight(q, root, depth, s, t);
    var weighted := (s: Source) => Times(Locf(s.points, t), PathWeight(q, root, depth, s, t));
    forall k | 0 <= k < |rs|
      ensures weight(Seen(rs)[k]) == weight(Whole(rs)[k]) && weighted(Seen(rs)[k]) == weighted(Whole(rs)[k])
    {
      assert rs[k] in rs;
      SeenWeighsAsWhole(q, root, depth, rs[k], frozenAt, t);
    }
    SumPairwise(weight, weight, Seen(rs), Whole(rs));
    SumPairwise(weighted, weighted, Seen(rs), Whole(rs));
  }

  /**
   * From taxonomies and recorded events to the result: where no primitive has a contested time and no recorded value is
   * missed, the rows of the composed query, carried forward to any time of the range, give the average of the last
   * values that the primitives had recorded by the frozen height, weighted by their paths from the root.
   */
  lemma {:induction false} ComposedValueOfRecordedEvents(
      q: T.Query, root: string, depth: nat, rs: seq<Recorded>, frozenAt: int,
      timelines: seq<seq<Event>>, times: seq<int>, others: set<int>, t: int)
    requires T.ValidQuery(q) && q.start <= t <= q.end && t < MAX_INT8
    requires forall r :: r in rs ==> IsRecorded(q, root, depth, r, frozenAt) && NothingMissed(q, root, depth, r)
    requires AreTimelines(timelines, PrimitivesOf(q, root, depth, Seen(rs))) && IsCombined(times, timelines, others)
    requires forall rows :: rows in timelines ==> !Contested(rows) || ValueFirst(rows)
    ensures var weighted := Sum((s: Source) => Times(Locf(s.points, t), PathWeight(q, root, depth, s, t)), Whole(rs));
            var weights := Sum((s: Source) => PathWeight(q, root, depth, s, t), Whole(rs));
            match ReadAt(Output(timelines, times, q.start, q.end), t)
            case None => weighted == 0.0 && weights == 0.0 && forall x :: x <= t ==> !RealChange(timelines, x)
            case Some(a) =>
              && (exists x :: x <= t && RealChange(timelines, x))
              && (weights == 0.0 ==> a == 0.0) && (weights != 0.0 ==> a * weights == weighted)
  {
    hide *;
    ComposedValueIsPathAverage(q, root, depth, Seen(rs), timelines, times, others, t);
    SumsOfSeen(q, root, depth, rs, frozenAt, t);
  }

  /** Under the same conditions, with weights that are not negative: between any bounds on the last recorded values. */
  lemma RecordedValueIsBetween(
      q: T.Query, root: string, depth: nat, rs: seq<Recorded>, frozenAt: int,
      timelines: seq<seq<Event>>, times: seq<int>, others: set<int>, t: int, lo: real, hi: real)
    requires T.ValidQuery(q) && q.start <= t <= q.end && t < MAX_INT8
    requires forall r :: r in rs ==> IsRecorded(q, root, depth, r, frozenAt) && NothingMissed(q, root, depth, r)
    requires AreTimelines(timelines, PrimitivesOf(q, root, depth, Seen(rs))) && IsCombined(times, timelines, others)
    requires forall rows :: rows in timelines ==> !Contested(rows) || ValueFirst(rows)
    requires forall s :: s in Whole(rs) ==> PathWeight(q, root, depth, s, t) >= 0.0
    requires forall s :: s in Whole(rs) && PathWeight(q, root, depth, s, t) > 0.0 ==> lo <= Locf(s.points, t) <= hi
    requires exists s :: s in Whole(rs) && PathWeight(q, root, depth, s, t) > 0.0
    ensures var a := ReadAt(Output(timelines, times, q.start, q.end), t); a.Some? && lo <= a.value <= hi
  {
    hide *;
    ComposedValueOfRecordedEvents(q, root, depth, rs, frozenAt, timelines, times, others, t);
    MeanIsBetween(q, root, depth, Whole(rs), t, ReadAt(Output(timelines, times, q.start, q.end), t), lo, hi);
  }
}
