/** Queries as of an earlier height (internal/migrations/006-composed-query.sql). */
module TimeTravel {
  // The frozen_at parameter and later insertions (internal/migrations/003-primitive-insertion.sql): what was inserted
  // afterwards is not seen.

  import opened Wrappers
  import opened ComposedTimeline
  import opened ComposedPoints
  import I = PrimitiveInsertion

  /** The rows of one stream, by event time and creation height. */
  function EventsOf(table: I.Table, dataProvider: string, streamId: string): (events: Table)
    ensures forall t, c :: (t, c) in events <==> I.Key(dataProvider, streamId, t, c) in table
    ensures forall t, c :: (t, c) in events ==> events[(t, c)] == table[I.Key(dataProvider, streamId, t, c)].value
  {
    map k | k in table && k == I.Key(dataProvider, streamId, k.eventTime, k.createdAt) :: (k.eventTime, k.createdAt) := table[k].value
  }

  /** Up to a height, two tables hold the same rows. */
  ghost predicate AgreeUpto(a: Table, b: Table, height: int) {
    forall t, c :: c <= height ==> ((t, c) in a <==> (t, c) in b) && ((t, c) in a ==> a[(t, c)] == b[(t, c)])
  }

  lemma SameVersions(a: Table, b: Table, frozenAt: int, p: Point)
    requires AgreeUpto(a, b, frozenAt) && IsLastVersion(a, frozenAt, p)
    ensures IsLastVersion(b, frozenAt, p)
  {
    var c :| IsVersion(a, frozenAt, p, c) && forall d :: (p.time, d) in a && d <= frozenAt ==> d <= c;
    assert IsVersion(b, frozenAt, p, c);
  }

  lemma InsertionAgrees(table: I.Table, ctx: I.Context, rs: seq<I.Record>, dataProvider: string, streamId: string, height: int)
    requires I.Batch(table, ctx, rs).Ok? && height < ctx.height
    ensures AgreeUpto(EventsOf(table, dataProvider, streamId), EventsOf(I.Batch(table, ctx, rs).value, dataProvider, streamId), height)
  {
    hide I.Batch, I.Refused, I.Fresh;
    I.BatchSucceedsIff(table, ctx, rs);
  }

  /**
   * A batch inserted at a greater height changes nothing for a query frozen before it: neither the series that the
   * query sees nor the points that enter it.
   */
  lemma LaterInsertionsAreNotSeen(table: I.Table, ctx: I.Context, rs: seq<I.Record>, dataProvider: string, streamId: string,
                                  frozenAt: int, series: seq<Point>, spans: seq<Span>, start: int, end: int, points: seq<Point>)
    requires I.Batch(table, ctx, rs).Ok? && frozenAt < ctx.height
    ensures var before := EventsOf(table, dataProvider, streamId);
            var after := EventsOf(I.Batch(table, ctx, rs).value, dataProvider, streamId);
            && (IsSeries(series, before, frozenAt) <==> IsSeries(series, after, frozenAt))
            && (ArePoints(points, before, spans, start, end, frozenAt) <==> ArePoints(points, after, spans, start, end, frozenAt))
  {
    hide I.Batch, EventsOf, IsLastVersion, Covered, AgreeUpto;
    var before := EventsOf(table, dataProvider, streamId);
    var after := EventsOf(I.Batch(table, ctx, rs).value, dataProvider, streamId);
    InsertionAgrees(table, ctx, rs, dataProvider, streamId, frozenAt);
    AgreementIsMutual(before, after, frozenAt);
    forall p: Point ensures IsLastVersion(before, frozenAt, p) <==> IsLastVersion(after, frozenAt, p) {
      if IsLastVersion(before, frozenAt, p) {
        SameVersions(before, after, frozenAt, p);
      } else if IsLastVersion(after, frozenAt, p) {
        SameVersions(after, before, frozenAt, p);
      }
    }
    forall p: Point ensures Enters(p, before, spans, start, end, frozenAt) <==> Enters(p, after, spans, start, end, frozenAt) {
    }
  }

  lemma AgreementIsMutual(a: Table, b: Table, height: int)
    requires AgreeUpto(a, b, height)
    ensures AgreeUpto(b, a, height)
  {
  }

  /**
   * A value inserted again for a time that already has one becomes the last version for every query that is
   * frozen at or after its height, if that height is greater than those of the time's other versions that the query sees.
   */
  lemma LastInsertionWins(table: I.Table, ctx: I.Context, rs: seq<I.Record>, r: I.Record, frozenAt: int)
    requires I.Batch(table, ctx, rs).Ok? && r in rs && ctx.height <= frozenAt
    requires forall t, c :: (t, c) in EventsOf(table, I.Lower(r.dataProvider), r.streamId) && Some(t) == r.eventTime && c <= frozenAt ==>
               c < ctx.height
    ensures I.Complete(r)
    ensures var after := EventsOf(I.Batch(table, ctx, rs).value, I.Lower(r.dataProvider), r.streamId);
            IsLastVersion(after, frozenAt, Point(r.eventTime.value, r.value.value))
  {
    hide I.Batch, I.Refused, I.Fresh, I.Lower;
    I.BatchSucceedsIff(table, ctx, rs);
    var after := I.Batch(table, ctx, rs).value;
    var events := EventsOf(after, I.Lower(r.dataProvider), r.streamId);
    var p := Point(r.eventTime.value, r.value.value);
    assert I.KeyOf(ctx, r) in after;
    assert IsVersion(events, frozenAt, p, ctx.height);
    forall d | (p.time, d) in events && d <= frozenAt ensures d <= ctx.height {
      assert I.Key(I.Lower(r.dataProvider), r.streamId, p.time, d) in after;
    }
  }
}
