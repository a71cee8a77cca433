/** The rows of the composed query (internal/migrations/006-composed-query.sql). */
module ComposedSeries {
  // From the timelines of all primitives to the rows that are returned (steps 9 to 12 and the final selection), and
  // what a reader who carries the last row forward gets out of them.

  import opened Wrappers
  import opened Numbers
  import opened Sequences
  import opened ComposedDelta
  import opened ComposedTimeline

  /** The two columns of final_deltas. */
  datatype Column = WeightedSum | SumOfWeights

  /** What row i of a primitive's timeline adds to a column. */
  function Cell(c: Column, rows: seq<Event>, i: nat): real
    requires i < |rows|
  {
    match c
    case WeightedSum => Contribution(rows, i)
    case SumOfWeights => rows[i].deltaWeight
  }

  function CellsAt(c: Column, rows: seq<Event>, n: nat, t: int): real
    requires n <= |rows|
  {
    if n == 0 then 0.0
    else CellsAt(c, rows, n - 1, t) + (if rows[n - 1].time == t then Cell(c, rows, n - 1) else 0.0)
  }

  /** delta_ws or delta_sw at t: the cells of all rows with that time, over all primitives. */
  function Delta(c: Column, timelines: seq<seq<Event>>, t: int): real {
    Sum((rows: seq<Event>) => CellsAt(c, rows, |rows|, t), timelines)
  }

  /** final_deltas keeps a time if one of its deltas is not zero. */
  predicate RealChange(timelines: seq<seq<Event>>, t: int) {
    Delta(WeightedSum, timelines, t) != 0.0 || Delta(SumOfWeights, timelines, t) != 0.0
  }

  ghost predicate AllSorted(timelines: seq<seq<Event>>) {
    forall rows :: rows in timelines ==> SortedByTime(rows)
  }

  ghost predicate StrictlyIncreasing(times: seq<int>) {
    forall i, j :: 0 <= i < j < |times| ==> times[i] < times[j]
  }

  /** all_combined_times in order: the real changes and whatever other times the query adds. */
  ghost predicate IsCombined(times: seq<int>, timelines: seq<seq<Event>>, others: set<int>) {
    StrictlyIncreasing(times) && forall t :: t in times <==> RealChange(timelines, t) || t in others
  }

  /** The times up to t: the frame of a window ordered by time. */
  function Window(times: seq<int>, t: int): seq<int> {
    if times == [] then []
    else if times[|times| - 1] <= t then times
    else Window(times[..|times| - 1], t)
  }

  /** The delta of a time after the left join: zero when final_deltas has no row for it. */
  function Joined(c: Column, timelines: seq<seq<Event>>, t: int): real {
    if RealChange(timelines, t) then Delta(c, timelines, t) else 0.0
  }

  /** cum_ws or cum_sw */
  function Cumulative(c: Column, timelines: seq<seq<Event>>, times: seq<int>, t: int): real {
    Sum((x: int) => Joined(c, timelines, x), Window(times, t))
  }

  function Average(weightedSum: real, weights: real): real {
    if weights == 0.0 then 0.0 else weightedSum / weights
  }

  /** aggregated */
  function Aggregated(timelines: seq<seq<Event>>, times: seq<int>, t: int): real {
    Average(Cumulative(WeightedSum, timelines, times, t), Cumulative(SumOfWeights, timelines, times, t))
  }

  function LastReal(timelines: seq<seq<Event>>, times: seq<int>): Option<int> {
    if times == [] then None
    else if RealChange(timelines, times[|times| - 1]) then Some(times[|times| - 1])
    else LastReal(timelines, times[..|times| - 1])
  }

  /** The latest real change up to t, if there is one. */
  function EffectiveTime(timelines: seq<seq<Event>>, times: seq<int>, t: int): Option<int> {
    LastReal(timelines, Window(times, t))
  }

  /** A row of the result. */
  datatype Row = Row(time: int, value: real)

  /** What a combined time contributes to direct_hits: it is reported under its effective time. */
  function Hit(timelines: seq<seq<Event>>, times: seq<int>, start: int, end: int, t: int): seq<Row> {
    if start <= t <= end then
      match EffectiveTime(timelines, times, t)
      case None => []
      case Some(e) => [Row(e, Aggregated(timelines, times, t))]
    else []
  }

  /** anchor_hit: the last real change before the range, unless the range has a row for its very start. */
  function AnchorHit(timelines: seq<seq<Event>>, times: seq<int>, start: int): seq<Row> {
    match EffectiveTime(timelines, times, start - 1)
    case None => []
    case Some(a) => if start in times then [] else [Row(a, Aggregated(timelines, times, a))]
  }

  /** The result of the query; EveryRow and OutputSorted show that it is ordered as the query orders it. */
  function Output(timelines: seq<seq<Event>>, times: seq<int>, start: int, end: int): seq<Row> {
    AnchorHit(timelines, times, start) + FlatMap((t: int) => Hit(timelines, times, start, end, t), times)
  }

  // ---- Cumulative sums are the states of the primitives ---------------------------------------------

  function Prefix(c: Column, rows: seq<Event>, n: nat): real
    requires n <= |rows|
  {
    match c
    case WeightedSum => Total(rows, n)
    case SumOfWeights => WeightSum(rows, n)
  }

  /** The column's sum over all primitives and all rows up to t. */
  function Reached(c: Column, timelines: seq<seq<Event>>, t: int): real {
    Sum((rows: seq<Event>) => Prefix(c, rows, Upto(rows, t)), timelines)
  }

  lemma {:induction false} CellsAtPrefix(c: Column, rows: seq<Event>, n: nat, t: int, lo: nat, hi: nat)
    requires lo <= hi <= |rows| && n <= |rows|
    requires forall i :: 0 <= i < |rows| ==> (rows[i].time == t <==> lo <= i < hi)
    ensures CellsAt(c, rows, n, t) == Prefix(c, rows, Min(n, hi)) - Prefix(c, rows, Min(n, lo))
  {
    hide Contribution;
    if n > 0 {
      CellsAtPrefix(c, rows, n - 1, t, lo, hi);
    }
  }

  lemma CellsAreAStep(c: Column, rows: seq<Event>, t: int)
    requires SortedByTime(rows)
    ensures CellsAt(c, rows, |rows|, t) + Prefix(c, rows, Upto(rows, t - 1)) == Prefix(c, rows, Upto(rows, t))
  {
    UptoSplits(rows, t);
    UptoSplits(rows, t - 1);
    var lo, hi := Upto(rows, t - 1), Upto(rows, t);
    assert hi < |rows| ==> rows[hi].time > t;
    CellsAtPrefix(c, rows, |rows|, t, lo, hi);
  }

  lemma DeltaIsAStep(c: Column, timelines: seq<seq<Event>>, t: int)
    requires AllSorted(timelines)
    ensures Delta(c, timelines, t) + Reached(c, timelines, t - 1) == Reached(c, timelines, t)
  {
    var cells := (rows: seq<Event>) => CellsAt(c, rows, |rows|, t);
    var before := (rows: seq<Event>) => Prefix(c, rows, Upto(rows, t - 1));
    var after := (rows: seq<Event>) => Prefix(c, rows, Upto(rows, t));
    forall rows | rows in timelines ensures cells(rows) + before(rows) == after(rows) {
      CellsAreAStep(c, rows, t);
    }
    SumAdd(cells, before, after, timelines);
  }

  lemma {:induction false} FlatBetween(c: Column, timelines: seq<seq<Event>>, lo: int, hi: int)
    requires AllSorted(timelines) && lo <= hi
    requires forall t :: lo < t <= hi ==> !RealChange(timelines, t)
    ensures Reached(c, timelines, hi) == Reached(c, timelines, lo)
    decreases hi - lo
  {
    hide Reached, Delta;
    if lo < hi {
      FlatBetween(c, timelines, lo, hi - 1);
      DeltaIsAStep(c, timelines, hi);
      assert !RealChange(timelines, hi);
    }
  }

  /** Some time lies before all rows. */
  lemma {:induction false} BeforeAll(timelines: seq<seq<Event>>, t: int) returns (m: int)
    requires AllSorted(timelines)
    ensures m <= t
    ensures forall rows: seq<Event>, i :: rows in timelines && 0 <= i < |rows| ==> m < rows[i].time
  {
    if timelines == [] {
      m := t;
    } else {
      assert forall rows :: rows in timelines[1..] ==> rows in timelines;
      m := BeforeAll(timelines[1..], t);
      var first := timelines[0];
      if first != [] && first[0].time <= m {
        m := first[0].time - 1;
      }
    }
  }

  lemma NothingBeforeTheFirstChange(c: Column, timelines: seq<seq<Event>>, t: int)
    requires AllSorted(timelines)
    requires forall x :: x <= t ==> !RealChange(timelines, x)
    ensures Reached(c, timelines, t) == 0.0
  {
    var m := BeforeAll(timelines, t);
    FlatBetween(c, timelines, m, t);
    forall rows | rows in timelines ensures Prefix(c, rows, Upto(rows, m)) == 0.0 {
      UptoUnique(rows, m, 0);
    }
    SumZero((rows: seq<Event>) => Prefix(c, rows, Upto(rows, m)), timelines);
  }

  lemma {:induction false} WindowSplits(times: seq<int>, t: int)
    requires StrictlyIncreasing(times)
    ensures Window(times, t) <= times
    ensures forall x :: x in Window(times, t) <==> x in times && x <= t
  {
    if times != [] && times[|times| - 1] > t {
      WindowSplits(times[..|times| - 1], t);
      assert times == times[..|times| - 1] + [times[|times| - 1]];
    }
  }

  /** Summing the joined deltas of a prefix of the combined times gives the state at its last time. */
  lemma {:induction false} PrefixReaches(c: Column, timelines: seq<seq<Event>>, times: seq<int>, t: int)
    requires AllSorted(timelines) && StrictlyIncreasing(times)
    requires forall x :: x in times ==> x <= t
    requires forall x :: x <= t && RealChange(timelines, x) ==> x in times
    ensures Sum((x: int) => Joined(c, timelines, x), times) == Reached(c, timelines, t)
    decreases |times|
  {
    hide Reached, RealChange, Delta;
    var f := (x: int) => Joined(c, timelines, x);
    if times == [] {
      NothingBeforeTheFirstChange(c, timelines, t);
    } else {
      var n := |times| - 1;
      var last := times[n];
      assert times == times[..n] + [last];
      assert last in times;
      forall x | x in times[..n] ensures x <= last - 1 {
        var i :| 0 <= i < n && times[i] == x;
      }
      PrefixReaches(c, timelines, times[..n], last - 1);
      SumConcat(f, times[..n], [last]);
      DeltaIsAStep(c, timelines, last);
      NoDelta(c, timelines, last);
      forall x | last < x <= t ensures !RealChange(timelines, x) {
        assert x !in times[..n] && x != last;
      }
      FlatBetween(c, timelines, last, t);
    }
  }

  lemma NoDelta(c: Column, timelines: seq<seq<Event>>, t: int)
    ensures Joined(c, timelines, t) == Delta(c, timelines, t)
  {
    hide Delta;
  }

  /** The cumulative columns are the sums over the primitives' states, at every time. */
  lemma CumulativeIsReached(c: Column, timelines: seq<seq<Event>>, times: seq<int>, others: set<int>, t: int)
    requires AllSorted(timelines) && IsCombined(times, timelines, others)
    ensures Cumulative(c, timelines, times, t) == Reached(c, timelines, t)
  {
    hide RealChange, Reached;
    WindowSplits(times, t);
    PrefixReaches(c, timelines, Window(times, t), t);
  }

  // ---- The effective time --------------------------------------------------------------------------------

  /** e is the latest real change up to t, if there is one. */
  ghost predicate IsLatestChange(timelines: seq<seq<Event>>, t: int, e: Option<int>) {
    match e
    case None => forall x :: x <= t ==> !RealChange(timelines, x)
    case Some(r) => RealChange(timelines, r) && r <= t && forall x :: r < x <= t ==> !RealChange(timelines, x)
  }

  lemma {:induction false} LastRealIsLast(timelines: seq<seq<Event>>, times: seq<int>)
    requires StrictlyIncreasing(times)
    ensures var r := LastReal(timelines, times);
            && (r.Some? ==> r.value in times && RealChange(timelines, r.value))
            && (forall x :: x in times && RealChange(timelines, x) ==> r.Some? && x <= r.value)
  {
    hide RealChange;
    if times != [] {
      var n := |times| - 1;
      assert times == times[..n] + [times[n]];
      LastRealIsLast(timelines, times[..n]);
    }
  }

  lemma EffectiveIsLatest(timelines: seq<seq<Event>>, times: seq<int>, others: set<int>, t: int)
    requires IsCombined(times, timelines, others)
    ensures IsLatestChange(timelines, t, EffectiveTime(timelines, times, t))
  {
    hide RealChange;
    WindowSplits(times, t);
    LastRealIsLast(timelines, Window(times, t));
  }

  /** a times the weights is the weighted sum; where the weights add up to nothing, a is 0. */
  predicate IsAverage(a: real, weightedSum: real, weights: real) {
    (weights == 0.0 ==> a == 0.0) && (weights != 0.0 ==> a * weights == weightedSum)
  }

  lemma AverageIsAverage(weightedSum: real, weights: real)
    ensures IsAverage(Average(weightedSum, weights), weightedSum, weights)
  {
  }

  /** The weighted average of the states that the primitives have reached at t. */
  function Level(timelines: seq<seq<Event>>, t: int): real {
    Average(Reached(WeightedSum, timelines, t), Reached(SumOfWeights, timelines, t))
  }

  lemma LevelAtEffectiveTime(timelines: seq<seq<Event>>, t: int, e: int)
    requires AllSorted(timelines) && IsLatestChange(timelines, t, Some(e))
    ensures Level(timelines, t) == Level(timelines, e)
  {
    hide RealChange, Reached;
    FlatBetween(WeightedSum, timelines, e, t);
    FlatBetween(SumOfWeights, timelines, e, t);
  }

  lemma AggregatedIsLevel(timelines: seq<seq<Event>>, times: seq<int>, others: set<int>, t: int)
    requires AllSorted(timelines) && IsCombined(times, timelines, others)
    ensures Aggregated(timelines, times, t) == Level(timelines, t)
  {
    hide IsCombined, Reached, Cumulative;
    CumulativeIsReached(WeightedSum, timelines, times, others, t);
    CumulativeIsReached(SumOfWeights, timelines, times, others, t);
  }

  // ---- What the rows say -----------------------------------------------------------------------------------

  lemma HitIs(timelines: seq<seq<Event>>, times: seq<int>, others: set<int>, start: int, end: int, t: int)
    requires AllSorted(timelines) && IsCombined(times, timelines, others)
    ensures IsLatestChange(timelines, t, EffectiveTime(timelines, times, t))
    ensures Hit(timelines, times, start, end, t) ==
            if start <= t <= end && EffectiveTime(timelines, times, t).Some?
            then [Row(EffectiveTime(timelines, times, t).value, Level(timelines, EffectiveTime(timelines, times, t).value))]
            else []
  {
    hide RealChange, Level, Aggregated, EffectiveTime;
    EffectiveIsLatest(timelines, times, others, t);
    var e := EffectiveTime(timelines, times, t);
    if e.Some? {
      AggregatedIsLevel(timelines, times, others, t);
      LevelAtEffectiveTime(timelines, t, e.value);
    }
  }

  lemma AnchorIs(timelines: seq<seq<Event>>, times: seq<int>, others: set<int>, start: int)
    requires AllSorted(timelines) && IsCombined(times, timelines, others)
    ensures IsLatestChange(timelines, start - 1, EffectiveTime(timelines, times, start - 1))
    ensures AnchorHit(timelines, times, start) ==
            if start !in times && EffectiveTime(timelines, times, start - 1).Some?
            then [Row(EffectiveTime(timelines, times, start - 1).value,
                      Level(timelines, EffectiveTime(timelines, times, start - 1).value))]
            else []
  {
    hide RealChange, Level, Aggregated, EffectiveTime;
    EffectiveIsLatest(timelines, times, others, start - 1);
    var e := EffectiveTime(timelines, times, start - 1);
    if e.Some? {
      AggregatedIsLevel(timelines, times, others, e.value);
    }
  }

  /** A real change is a time at which the states of the primitives, summed up, are not those of the time before. */
  lemma RealChangeIff(timelines: seq<seq<Event>>, t: int)
    requires AllSorted(timelines)
    ensures RealChange(timelines, t) <==>
            Reached(WeightedSum, timelines, t) != Reached(WeightedSum, timelines, t - 1) ||
            Reached(SumOfWeights, timelines, t) != Reached(SumOfWeights, timelines, t - 1)
  {
    hide Reached, Delta;
    DeltaIsAStep(WeightedSum, timelines, t);
    DeltaIsAStep(SumOfWeights, timelines, t);
  }

  /** Every row stands at a real change and carries the weighted average of that time. */
  lemma EveryRow(timelines: seq<seq<Event>>, times: seq<int>, others: set<int>, start: int, end: int)
    requires AllSorted(timelines) && IsCombined(times, timelines, others)
    ensures forall r :: r in Output(timelines, times, start, end) ==>
              && RealChange(timelines, r.time) && r.time <= Max(start - 1, end)
              && IsAverage(r.value, Reached(WeightedSum, timelines, r.time), Reached(SumOfWeights, timelines, r.time))
  {
    hide RealChange, Output, IsCombined, Reached, Average;
    EveryRowIsLevel(timelines, times, others, start, end);
    forall t: int ensures IsAverage(Level(timelines, t), Reached(WeightedSum, timelines, t), Reached(SumOfWeights, timelines, t)) {
      AverageIsAverage(Reached(WeightedSum, timelines, t), Reached(SumOfWeights, timelines, t));
    }
  }

  lemma EveryRowIsLevel(timelines: seq<seq<Event>>, times: seq<int>, others: set<int>, start: int, end: int)
    requires AllSorted(timelines) && IsCombined(times, timelines, others)
    ensures forall r :: r in Output(timelines, times, start, end) ==>
              RealChange(timelines, r.time) && r.value == Level(timelines, r.time) && r.time <= Max(start - 1, end)
  {
    hide RealChange, Level, Hit, AnchorHit, EffectiveTime, IsCombined;
    var hit := (t: int) => Hit(timelines, times, start, end, t);
    forall r | r in Output(timelines, times, start, end)
      ensures RealChange(timelines, r.time) && r.value == Level(timelines, r.time) && r.time <= Max(start - 1, end)
    {
      AnchorIs(timelines, times, others, start);
      FlatMapMember(hit, times, r);
      if t :| t in times && r in hit(t) {
        HitIs(timelines, times, others, start, end, t);
      }
    }
  }

  /** Rows stand in order of time. */
  ghost predicate RowsSorted(rows: seq<Row>) {
    forall i, j :: 0 <= i < j < |rows| ==> rows[i].time <= rows[j].time
  }

  lemma {:induction false} HitsSorted(timelines: seq<seq<Event>>, times: seq<int>, others: set<int>, start: int, end: int, n: nat)
    requires AllSorted(timelines) && IsCombined(times, timelines, others) && n <= |times|
    ensures var hits := FlatMap((t: int) => Hit(timelines, times, start, end, t), times[..n]);
            && RowsSorted(hits)
            && forall r :: r in hits ==> RealChange(timelines, r.time) && n > 0 && r.time <= times[n - 1]
  {
    hide RealChange, Level, Hit, EffectiveTime;
    if n > 0 {
      var hit := (t: int) => Hit(timelines, times, start, end, t);
      var t := times[n - 1];
      assert times[..n] == times[..n - 1] + [t];
      FlatMapConcat(hit, times[..n - 1], [t]);
      FlatMapSingle(hit, t);
      HitsSorted(timelines, times, others, start, end, n - 1);
      HitIs(timelines, times, others, start, end, t);
    }
  }

  /** The rows are in the order that ORDER BY asks for. */
  lemma OutputSorted(timelines: seq<seq<Event>>, times: seq<int>, others: set<int>, start: int, end: int)
    requires AllSorted(timelines) && IsCombined(times, timelines, others)
    ensures RowsSorted(Output(timelines, times, start, end))
  {
    hide RealChange, Level, Hit, AnchorHit, EffectiveTime;
    var hit := (t: int) => Hit(timelines, times, start, end, t);
    HitsSorted(timelines, times, others, start, end, |times|);
    assert times[..|times|] == times;
    AnchorIs(timelines, times, others, start);
    forall r: Row | r in FlatMap(hit, times) ensures AnchorHit(timelines, times, start) != [] ==>
        AnchorHit(timelines, times, start)[0].time <= r.time
    {
      FlatMapMember(hit, times, r);
      var t :| t in times && r in hit(t);
      HitIs(timelines, times, others, start, end, t);
    }
  }

  /** What a reader sees at q who carries the last row forward. */
  function ReadAt(rows: seq<Row>, q: int): Option<real> {
    if rows == [] then None
    else if rows[|rows| - 1].time <= q then Some(rows[|rows| - 1].value)
    else ReadAt(rows[..|rows| - 1], q)
  }

  lemma {:induction false} ReadingFinds(rows: seq<Row>, q: int, e: Row)
    requires RowsSorted(rows) && e in rows && e.time <= q
    requires forall r :: r in rows && r.time <= q ==> r.time <= e.time
    requires forall r :: r in rows && r.time == e.time ==> r == e
    ensures ReadAt(rows, q) == Some(e.value)
  {
    var n := |rows| - 1;
    assert rows[n] in rows;
    var i :| 0 <= i < |rows| && rows[i] == e;
    assert rows[i].time <= rows[n].time;
    if rows[n].time > q {
      assert rows[..n][i] == e;
      ReadingFinds(rows[..n], q, e);
    }
  }

  lemma {:induction false} ReadingFindsNothing(rows: seq<Row>, q: int)
    requires forall r :: r in rows ==> q < r.time
    ensures ReadAt(rows, q) == None
  {
    if rows != [] {
      assert rows[|rows| - 1] in rows;
      ReadingFindsNothing(rows[..|rows| - 1], q);
    }
  }

  lemma LatestChangeIsReported(timelines: seq<seq<Event>>, times: seq<int>, others: set<int>, start: int, end: int, q: int, e: int)
    requires AllSorted(timelines) && IsCombined(times, timelines, others) && start <= q <= end
    requires IsLatestChange(timelines, q, Some(e))
    ensures Row(e, Level(timelines, e)) in Output(timelines, times, start, end)
  {
    hide RealChange, Level, Hit, AnchorHit, EffectiveTime, FlatMap;
    var hit := (t: int) => Hit(timelines, times, start, end, t);
    var source := if start <= e then e else start;
    AnchorIs(timelines, times, others, start);
    if source in times {
      HitIs(timelines, times, others, start, end, source);
      assert Row(e, Level(timelines, e)) in hit(source);
      FlatMapMember(hit, times, Row(e, Level(timelines, e)));
    } else {
      assert EffectiveTime(timelines, times, start - 1) == Some(e);
    }
  }

  /**
   * Carrying the returned rows forward gives the weighted average of the primitives' states at every time
   * of the requested range; before the first real change there is no row.
   */
  lemma ReadingTheOutput(timelines: seq<seq<Event>>, times: seq<int>, others: set<int>, start: int, end: int, q: int)
    requires AllSorted(timelines) && IsCombined(times, timelines, others) && start <= q <= end
    ensures match ReadAt(Output(timelines, times, start, end), q)
            case None => forall x :: x <= q ==> !RealChange(timelines, x)
            case Some(a) =>
              && (exists x :: x <= q && RealChange(timelines, x))
              && IsAverage(a, Reached(WeightedSum, timelines, q), Reached(SumOfWeights, timelines, q))
  {
    hide RealChange, Output, ReadAt, IsCombined, Reached, Average;
    ReadingGivesLevel(timelines, times, others, start, end, q);
    AverageIsAverage(Reached(WeightedSum, timelines, q), Reached(SumOfWeights, timelines, q));
  }

  lemma ReadingGivesLevel(timelines: seq<seq<Event>>, times: seq<int>, others: set<int>, start: int, end: int, q: int)
    requires AllSorted(timelines) && IsCombined(times, timelines, others) && start <= q <= end
    ensures ReadAt(Output(timelines, times, start, end), q) ==
            if exists x :: x <= q && RealChange(timelines, x) then Some(Level(timelines, q)) else None
  {
    hide RealChange, Level, Output, EffectiveTime;
    var rows := Output(timelines, times, start, end);
    EveryRowIsLevel(timelines, times, others, start, end);
    EffectiveIsLatest(timelines, times, others, q);
    match EffectiveTime(timelines, times, q) {
      case None =>
        ReadingFindsNothing(rows, q);
      case Some(e) =>
        LatestChangeIsReported(timelines, times, others, start, end, q, e);
        OutputSorted(timelines, times, others, start, end);
        LevelAtEffectiveTime(timelines, q, e);
        ReadingFinds(rows, q, Row(e, Level(timelines, e)));
    }
  }
}
