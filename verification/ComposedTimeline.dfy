/** The timelines of the composed query (internal/migrations/006-composed-query.sql). */
module ComposedTimeline {
  // How one primitive's timeline is built from its data points and its weight spans (steps 3 to 7), and what the
  // timeline's sums mean: the last observation carried forward, and the weight in force.

  import opened Numbers
  import opened Sequences
  import opened ComposedDelta

  /** A row of all_primitive_points. */
  datatype Point = Point(time: int, value: real)

  /** A row of primitive_weights: a weight in force from first to last, both included. */
  datatype Span = Span(weight: real, first: int, last: int)

  const MAX_INT8: int := 9223372036854775000

  ghost predicate Increasing(points: seq<Point>) {
    forall i, j :: 0 <= i < j < |points| ==> points[i].time < points[j].time
  }

  /** primitive_event_changes: the difference to the previous value, left out when it is zero. */
  function ValueChanges(points: seq<Point>): seq<Event> {
    if points == [] then []
    else
      var n := |points| - 1;
      var delta := if n == 0 then points[0].value else points[n].value - points[n - 1].value;
      ValueChanges(points[..n]) + (if delta != 0.0 then [Event(points[n].time, delta, 0.0)] else [])
  }

  /** The weight starts to count at the later of its span's start and the primitive's first value. */
  function Opens(s: Span, firstValueTime: int): seq<Event> {
    var start := Max(s.first, firstValueTime);
    if start <= s.last && s.weight != 0.0 then [Event(start, 0.0, s.weight)] else []
  }

  /** It stops counting after the span's end, unless the span is open-ended. */
  function Closes(s: Span, firstValueTime: int): seq<Event> {
    if Max(s.first, firstValueTime) <= s.last && s.weight != 0.0 && s.last < MAX_INT8 - 1
    then [Event(s.last + 1, 0.0, -s.weight)] else []
  }

  /** effective_weight_changes */
  function WeightChanges(spans: seq<Span>, firstValueTime: int): seq<Event> {
    FlatMap((s: Span) => Opens(s, firstValueTime), spans) + FlatMap((s: Span) => Closes(s, firstValueTime), spans)
  }

  /** unified_events, in the order in which the union lists them. A primitive without values has no rows. */
  function Unified(points: seq<Point>, spans: seq<Span>): seq<Event> {
    if points == [] then [] else ValueChanges(points) + WeightChanges(spans, points[0].time)
  }

  /** What ORDER BY event_time may make of them: any arrangement by time. */
  ghost predicate IsArrangement(rows: seq<Event>, points: seq<Point>, spans: seq<Span>) {
    multiset(rows) == multiset(Unified(points, spans)) && SortedByTime(rows)
  }

  // ---- The timeline is well formed ----------------------------------------------------------------

  lemma {:induction false} ValueChangesShape(points: seq<Point>)
    requires Increasing(points)
    ensures forall e :: e in ValueChanges(points) ==> IsValueRow(e) && points != [] && e.time <= points[|points| - 1].time
    ensures forall i, j :: 0 <= i < j < |ValueChanges(points)| ==> ValueChanges(points)[i].time < ValueChanges(points)[j].time
  {
    if points != [] {
      var n := |points| - 1;
      ValueChangesShape(points[..n]);
      var init := ValueChanges(points[..n]);
      forall i | 0 <= i < |init| ensures init[i].time < points[n].time {
        assert init[i] in init;
      }
    }
  }

  lemma WeightChangesShape(spans: seq<Span>, firstValueTime: int)
    ensures forall e :: e in WeightChanges(spans, firstValueTime) ==> IsWeightRow(e)
  {
    FlatMapAll((s: Span) => Opens(s, firstValueTime), spans, (e: Event) => IsWeightRow(e));
    FlatMapAll((s: Span) => Closes(s, firstValueTime), spans, (e: Event) => IsWeightRow(e));
  }

  lemma UnifiedShape(points: seq<Point>, spans: seq<Span>)
    requires Increasing(points)
    ensures var u := Unified(points, spans);
            && (forall e :: e in u ==> IsValueRow(e) || IsWeightRow(e))
            && (forall i, j :: 0 <= i < j < |u| && IsValueRow(u[i]) && IsValueRow(u[j]) ==> u[i].time < u[j].time)
  {
    if points != [] {
      var changes, weights := ValueChanges(points), WeightChanges(spans, points[0].time);
      ValueChangesShape(points);
      WeightChangesShape(spans, points[0].time);
      var u := changes + weights;
      forall i | |changes| <= i < |u| ensures !IsValueRow(u[i]) {
        assert u[i] in weights;
      }
    }
  }

  /** Every arrangement is a timeline in the sense of the delta calculation. */
  lemma ArrangementIsTimeline(rows: seq<Event>, points: seq<Point>, spans: seq<Span>)
    requires Increasing(points) && IsArrangement(rows, points, spans)
    ensures Timeline(rows)
  {
    hide Unified, IsValueRow, IsWeightRow;
    var u := Unified(points, spans);
    UnifiedShape(points, spans);
    forall i | 0 <= i < |rows| ensures IsValueRow(rows[i]) || IsWeightRow(rows[i]) {
      assert rows[i] in multiset(u);
    }
    forall i, j | 0 <= i < j < |rows| && IsValueRow(rows[i]) && IsValueRow(rows[j]) ensures rows[i].time != rows[j].time {
      DistinctPlaces(u, rows, i, j);
      var p, q :| 0 <= p < |u| && 0 <= q < |u| && p != q && u[p] == rows[i] && u[q] == rows[j];
      assert p < q || q < p;
    }
  }

  // ---- What the sums mean ---------------------------------------------------------------------------

  function ValueUpto(e: Event, t: int): real {
    if e.time <= t then e.deltaValue else 0.0
  }

  function WeightUpto(e: Event, t: int): real {
    if e.time <= t then e.deltaWeight else 0.0
  }

  lemma {:induction false} WindowSums(rows: seq<Event>, t: int)
    requires SortedByTime(rows)
    ensures ValueSum(rows, Upto(rows, t)) == Sum((e: Event) => ValueUpto(e, t), rows)
    ensures WeightSum(rows, Upto(rows, t)) == Sum((e: Event) => WeightUpto(e, t), rows)
  {
    if rows != [] {
      var n := |rows| - 1;
      var init := rows[..n];
      assert rows == init + [rows[n]];
      WindowSums(init, t);
      SumConcat((e: Event) => ValueUpto(e, t), init, [rows[n]]);
      SumConcat((e: Event) => WeightUpto(e, t), init, [rows[n]]);
      SumSingle((e: Event) => ValueUpto(e, t), rows[n]);
      SumSingle((e: Event) => WeightUpto(e, t), rows[n]);
      if rows[n].time <= t {
        UptoUnique(init, t, n);
      }
      PrefixSums(rows, init, Upto(init, t));
    }
  }

  lemma {:induction false} PrefixSums(rows: seq<Event>, init: seq<Event>, n: nat)
    requires init <= rows && n <= |init|
    ensures ValueSum(init, n) == ValueSum(rows, n) && WeightSum(init, n) == WeightSum(rows, n)
  {
    if n > 0 {
      PrefixSums(rows, init, n - 1);
    }
  }

  /** The last observation carried forward; 0 before the first one. */
  function Locf(points: seq<Point>, t: int): real {
    if points == [] then 0.0
    else
      var n := |points| - 1;
      if points[n].time <= t then points[n].value else Locf(points[..n], t)
  }

  lemma {:induction false} ValueChangesSum(points: seq<Point>, t: int)
    requires Increasing(points)
    ensures Sum((e: Event) => ValueUpto(e, t), ValueChanges(points)) == Locf(points, t)
  {
    if points != [] {
      var n := |points| - 1;
      var init := points[..n];
      ValueChangesSum(init, t);
      var delta := if n == 0 then points[0].value else points[n].value - points[n - 1].value;
      var last := if delta != 0.0 then [Event(points[n].time, delta, 0.0)] else [];
      SumConcat((e: Event) => ValueUpto(e, t), ValueChanges(init), last);
    }
  }

  /** The weights of the spans that contain t. */
  function SpanWeight(spans: seq<Span>, t: int): real {
    Sum((s: Span) => if s.first <= t <= s.last then s.weight else 0.0, spans)
  }

  /** The weight in force at t; a primitive without a value so far has none. */
  function WeightAt(points: seq<Point>, spans: seq<Span>, t: int): real {
    if points == [] || t < points[0].time then 0.0 else SpanWeight(spans, t)
  }

  lemma SpanSum(s: Span, firstValueTime: int, t: int)
    requires t <= MAX_INT8 - 1
    ensures var f := (e: Event) => WeightUpto(e, t);
            Sum(f, Opens(s, firstValueTime)) + Sum(f, Closes(s, firstValueTime)) ==
            if firstValueTime <= t && s.first <= t <= s.last then s.weight else 0.0
  {
  }

  lemma {:induction false} WeightChangesSum(spans: seq<Span>, firstValueTime: int, t: int)
    requires t <= MAX_INT8 - 1
    ensures Sum((e: Event) => WeightUpto(e, t), WeightChanges(spans, firstValueTime)) ==
            if firstValueTime <= t then SpanWeight(spans, t) else 0.0
  {
    var f := (e: Event) => WeightUpto(e, t);
    var opens, closes := (s: Span) => Opens(s, firstValueTime), (s: Span) => Closes(s, firstValueTime);
    var openSum, closeSum := (s: Span) => Sum(f, Opens(s, firstValueTime)), (s: Span) => Sum(f, Closes(s, firstValueTime));
    SumConcat(f, FlatMap(opens, spans), FlatMap(closes, spans));
    SumFlatMap(opens, f, openSum, spans);
    SumFlatMap(closes, f, closeSum, spans);
    var weight := (s: Span) => if firstValueTime <= t && s.first <= t <= s.last then s.weight else 0.0;
    forall s: Span ensures openSum(s) + closeSum(s) == weight(s) {
      SpanSum(s, firstValueTime, t);
    }
    SumAdd(openSum, closeSum, weight, spans);
    if firstValueTime <= t {
      SumCong(weight, (s: Span) => if s.first <= t <= s.last then s.weight else 0.0, spans);
    } else {
      SumZero(weight, spans);
    }
  }

  lemma {:induction false} SumZero<A>(f: A -> real, xs: seq<A>)
    requires forall x :: x in xs ==> f(x) == 0.0
    ensures Sum(f, xs) == 0.0
  {
    if xs != [] {
      SumZero(f, xs[1..]);
    }
  }

  /** At any time the running sums are the carried-forward value and the weight in force, whatever the arrangement. */
  lemma {:induction false} TimelineMeaning(rows: seq<Event>, points: seq<Point>, spans: seq<Span>, t: int)
    requires Increasing(points) && IsArrangement(rows, points, spans) && t <= MAX_INT8 - 1
    ensures ValueSum(rows, Upto(rows, t)) == Locf(points, t)
    ensures WeightSum(rows, Upto(rows, t)) == WeightAt(points, spans, t)
  {
    WindowSums(rows, t);
    var value, weight := (e: Event) => ValueUpto(e, t), (e: Event) => WeightUpto(e, t);
    SumPermutation(value, rows, Unified(points, spans));
    SumPermutation(weight, rows, Unified(points, spans));
    if points != [] {
      var changes, weights := ValueChanges(points), WeightChanges(spans, points[0].time);
      SumConcat(value, changes, weights);
      SumConcat(weight, changes, weights);
      ValueChangesSum(points, t);
      WeightChangesSum(spans, points[0].time, t);
      ValueChangesShape(points);
      WeightChangesShape(spans, points[0].time);
      SumZero(value, weights);
      SumZero(weight, changes);
    }
  }

  /** Without contested times the deltas of one primitive add up to value times weight at every time. */
  lemma {:induction false} DeltasAreExact(rows: seq<Event>, points: seq<Point>, spans: seq<Span>, t: int)
    requires Increasing(points) && IsArrangement(rows, points, spans) && t <= MAX_INT8 - 1
    requires !Contested(rows) || ValueFirst(rows)
    ensures Total(rows, Upto(rows, t)) == Times(Locf(points, t), WeightAt(points, spans, t))
  {
    ArrangementIsTimeline(rows, points, spans);
    ExactWhen(rows);
    TimelineMeaning(rows, points, spans, t);
  }

  // ---- A contested time in practice -------------------------------------------------------------------

  /**
   * Redefining a taxonomy at the very time at which a kept child changes its value is contested: so is every
   * arrangement of the rows, and some arrangement gives a wrong weighted sum.
   */
  lemma RedefinitionIsContested(points: seq<Point>, spans: seq<Span>, k: nat, a: nat, b: nat)
    requires Increasing(points)
    requires 0 < k < |points| && points[k].value != points[k - 1].value
    requires a < |spans| && b < |spans| && spans[a].weight != 0.0 && spans[b].weight != 0.0
    requires Max(spans[a].first, points[0].time) <= spans[a].last && spans[a].last + 1 == points[k].time
    requires spans[b].first == points[k].time <= spans[b].last && spans[a].last < MAX_INT8 - 1
    ensures forall rows :: IsArrangement(rows, points, spans) ==> Contested(rows)
    ensures exists rows :: IsArrangement(rows, points, spans) && !Exact(rows)
  {
    RedefinitionContests(points, spans, k, a, b);
    hide *;
    forall rows | IsArrangement(rows, points, spans) ensures Contested(rows) {
      WrongArrangement(rows, points, spans);
    }
    var rows := Arranged(Unified(points, spans));
    AnArrangement(rows, points, spans);
    WrongArrangement(rows, points, spans);
  }

  /** Rows can always be put in the order of their times. */
  lemma {:induction false} Arranged(xs: seq<Event>) returns (rows: seq<Event>)
    ensures multiset(rows) == multiset(xs) && SortedByTime(rows)
  {
    if xs == [] {
      rows := [];
    } else {
      var rest := Arranged(xs[1..]);
      rows := WithRow(rest, xs[0]);
      assert xs == [xs[0]] + xs[1..];
    }
  }

  lemma WithRow(rest: seq<Event>, e: Event) returns (rows: seq<Event>)
    requires SortedByTime(rest)
    ensures multiset(rows) == multiset{e} + multiset(rest) && SortedByTime(rows)
  {
    var n := Upto(rest, e.time);
    UptoSplits(rest, e.time);
    hide Upto;
    rows := rest[..n] + [e] + rest[n..];
    assert rest == rest[..n] + rest[n..];
    hide SortedByTime;
    SortedAround(rest, n, e);
  }

  lemma SortedAround(rest: seq<Event>, n: nat, e: Event)
    requires SortedByTime(rest) && n <= |rest|
    requires forall i :: 0 <= i < n ==> rest[i].time <= e.time
    requires forall i :: n <= i < |rest| ==> rest[i].time > e.time
    ensures SortedByTime(rest[..n] + [e] + rest[n..])
  {
  }

  lemma RedefinitionContests(points: seq<Point>, spans: seq<Span>, k: nat, a: nat, b: nat)
    requires Increasing(points)
    requires 0 < k < |points| && points[k].value != points[k - 1].value
    requires a < |spans| && b < |spans| && spans[a].weight != 0.0 && spans[b].weight != 0.0
    requires Max(spans[a].first, points[0].time) <= spans[a].last && spans[a].last + 1 == points[k].time
    requires spans[b].first == points[k].time <= spans[b].last && spans[a].last < MAX_INT8 - 1
    ensures Contested(Unified(points, spans))
  {
    var t := points[k].time;
    var change := Event(t, points[k].value - points[k - 1].value, 0.0);
    ChangeIsListed(points, k);
    OpeningIsListed(spans, b, points[0].time, t);
    ClosingIsListed(spans, a, points[0].time);
    hide Opens, Closes, ValueChanges;
    UnifiedContested(points, spans, change, Event(t, 0.0, spans[b].weight), Event(t, 0.0, -spans[a].weight));
  }

  lemma AnArrangement(rows: seq<Event>, points: seq<Point>, spans: seq<Span>)
    requires multiset(rows) == multiset(Unified(points, spans)) && SortedByTime(rows)
    ensures IsArrangement(rows, points, spans)
  {
  }

  lemma WrongArrangement(rows: seq<Event>, points: seq<Point>, spans: seq<Span>)
    requires Increasing(points) && IsArrangement(rows, points, spans) && Contested(Unified(points, spans))
    ensures Contested(rows)
    ensures exists other :: IsArrangement(other, points, spans) && !Exact(other)
  {
    hide Contested, Exact, Unified;
    ContestedInAnyOrder(Unified(points, spans), rows);
    ArrangementIsTimeline(rows, points, spans);
    var other := ContestedGoesWrong(rows);
    assert IsArrangement(other, points, spans);
  }

  lemma OpeningIsListed(spans: seq<Span>, b: nat, firstValueTime: int, t: int)
    requires b < |spans| && spans[b].weight != 0.0 && firstValueTime <= t && spans[b].first == t <= spans[b].last
    ensures Event(t, 0.0, spans[b].weight) in FlatMap((s: Span) => Opens(s, firstValueTime), spans)
  {
    var opening := Event(t, 0.0, spans[b].weight);
    assert opening in Opens(spans[b], firstValueTime) && spans[b] in spans;
    FlatMapMember((s: Span) => Opens(s, firstValueTime), spans, opening);
  }

  lemma ClosingIsListed(spans: seq<Span>, a: nat, firstValueTime: int)
    requires a < |spans| && spans[a].weight != 0.0
    requires Max(spans[a].first, firstValueTime) <= spans[a].last < MAX_INT8 - 1
    ensures Event(spans[a].last + 1, 0.0, -spans[a].weight) in FlatMap((s: Span) => Closes(s, firstValueTime), spans)
  {
    var closing := Event(spans[a].last + 1, 0.0, -spans[a].weight);
    assert closing in Closes(spans[a], firstValueTime) && spans[a] in spans;
    FlatMapMember((s: Span) => Closes(s, firstValueTime), spans, closing);
  }

  lemma {:induction false} ChangeIsListed(points: seq<Point>, k: nat)
    requires 0 < k < |points| && points[k].value != points[k - 1].value
    ensures Event(points[k].time, points[k].value - points[k - 1].value, 0.0) in ValueChanges(points)
    decreases |points|
  {
    if k < |points| - 1 {
      ChangeIsListed(points[..|points| - 1], k);
    }
  }

  lemma UnifiedContested(points: seq<Point>, spans: seq<Span>, change: Event, opening: Event, closing: Event)
    requires points != [] && change in ValueChanges(points)
    requires opening in FlatMap((s: Span) => Opens(s, points[0].time), spans)
    requires closing in FlatMap((s: Span) => Closes(s, points[0].time), spans)
    requires IsValueRow(change) && IsWeightRow(opening) && IsWeightRow(closing)
    requires change.time == opening.time == closing.time
    ensures Contested(Unified(points, spans))
  {
    var u := Unified(points, spans);
    var changes := ValueChanges(points);
    var opens := FlatMap((s: Span) => Opens(s, points[0].time), spans);
    var closes := FlatMap((s: Span) => Closes(s, points[0].time), spans);
    var i :| 0 <= i < |changes| && changes[i] == change;
    var j :| 0 <= j < |opens| && opens[j] == opening;
    var k :| 0 <= k < |closes| && closes[k] == closing;
    assert u[i] == change && u[|changes| + j] == opening && u[|changes| + |opens| + k] == closing;
    assert ContestedBy(u, i, |changes| + j, |changes| + |opens| + k);
  }
}
