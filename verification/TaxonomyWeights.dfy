/**
 * What the resolved taxonomies give a primitive, and where their recursion ends (the union of the levels and the
 * primitive_weights part of internal/migrations/006-composed-query.sql).
 */
module TaxonomyWeights {
  import opened Wrappers
  import opened Numbers
  import opened Sequences
  import opened ComposedDelta
  import opened ComposedTimeline
  import opened Taxonomy

  // ---- The weight of a primitive ------------------------------------------------------------------------------------

  /** The levels above depth, in order. */
  function Hierarchy(q: Query, root: string, depth: nat): seq<HRow> {
    if depth == 0 then [] else Hierarchy(q, root, depth - 1) + Level(q, root, depth - 1)
  }

  function AllPaths(rows: seq<Tax>, root: string, t: int, depth: nat): seq<Path> {
    if depth == 0 then [] else AllPaths(rows, root, t, depth - 1) + PathsAt(rows, root, t, depth - 1)
  }

  /** primitive_weights for one primitive. */
  function SpansOf(hierarchy: seq<HRow>, primitive: string): seq<Span> {
    FlatMap((h: HRow) => if h.child == primitive then [Span(h.weight, h.first, h.last)] else [], hierarchy)
  }

  lemma {:induction false} SpanWeightOfRows(hs: seq<HRow>, primitive: string, t: int)
    ensures SpanWeight(SpansOf(hs, primitive), t) ==
            Sum((p: Path) => if p.child == primitive then p.weight else 0.0, PathsOf(hs, t))
  {
    var weight := (p: Path) => if p.child == primitive then p.weight else 0.0;
    if hs != [] {
      SpanWeightOfRows(hs[1..], primitive, t);
      var h := hs[0];
      var head := if h.child == primitive then [Span(h.weight, h.first, h.last)] else [];
      SpanWeightConcat(head, SpansOf(hs[1..], primitive), t);
      assert PathsOf(hs, t) == (if At(t, h) then [ToPath(h)] else []) + PathsOf(hs[1..], t) by {
        assert hs == [h] + hs[1..];
        PathsOfConcat([h], hs[1..], t);
        FilterSingle((h: HRow) => At(t, h), h);
      }
      hide PathsOf;
      SumConcat(weight, if At(t, h) then [ToPath(h)] else [], PathsOf(hs[1..], t));
      OneSpan(h.weight, h.first, h.last, t);
    } else {
      assert PathsOf(hs, t) == [];
    }
  }

  lemma SpanWeightConcat(a: seq<Span>, b: seq<Span>, t: int)
    ensures SpanWeight(a + b, t) == SpanWeight(a, t) + SpanWeight(b, t)
  {
    SumConcat((s: Span) => if s.first <= t <= s.last then s.weight else 0.0, a, b);
  }

  lemma OneSpan(weight: real, first: int, last: int, t: int)
    ensures SpanWeight([Span(weight, first, last)], t) == if first <= t <= last then weight else 0.0
    ensures SpanWeight([], t) == 0.0
  {
    SumSingle((s: Span) => if s.first <= t <= s.last then s.weight else 0.0, Span(weight, first, last));
  }

  lemma PathsOfConcat(a: seq<HRow>, b: seq<HRow>, t: int)
    ensures PathsOf(a + b, t) == PathsOf(a, t) + PathsOf(b, t)
  {
    hide At, ToPath;
    var at := (h: HRow) => At(t, h);
    FilterConcat(at, a, b);
    hide Filter;
    MapConcat(ToPath, Filter(at, a), Filter(at, b));
  }

  lemma {:induction false} HierarchyAt(q: Query, root: string, t: int, depth: nat)
    requires ValidQuery(q) && q.start <= t <= q.end && t < MAX_INT8
    ensures PathsOf(Hierarchy(q, root, depth), t) == AllPaths(q.rows, root, t, depth)
  {
    hide Level, PathsAt, ValidQuery;
    if depth > 0 {
      hide PathsOf;
      HierarchyAt(q, root, t, depth - 1);
      HierarchyIsPaths(q, root, t, depth - 1);
      PathsOfConcat(Hierarchy(q, root, depth - 1), Level(q, root, depth - 1), t);
    } else {
      assert PathsOf(Hierarchy(q, root, depth), t) == [];
    }
  }

  /**
   * The weight that the spans give a primitive at t is the sum, over all paths from the root to the primitive
   * that are in force at t, of the product of the weights along the path.
   */
  lemma WeightIsSumOfPaths(q: Query, root: string, primitive: string, t: int, depth: nat)
    requires ValidQuery(q) && q.start <= t <= q.end && t < MAX_INT8
    ensures SpanWeight(SpansOf(Hierarchy(q, root, depth), primitive), t) ==
            Sum((p: Path) => if p.child == primitive then p.weight else 0.0, AllPaths(q.rows, root, t, depth))
  {
    hide Hierarchy, AllPaths, ValidQuery, SpansOf, PathsOf;
    SpanWeightOfRows(Hierarchy(q, root, depth), primitive, t);
    HierarchyAt(q, root, t, depth);
  }

  // ---- No row is superfluous -----------------------------------------------------------------------------------------

  /** The definition that a row of the first level comes from. */
  lemma RootRow(q: Query, root: string, h: HRow) returns (r: Tax)
    requires h in Base(q, root)
    ensures r in q.rows && SelectedRoot(q, root, r) && h == HRow(r.child, r.weight, r.startTime, LastTime(q, r))
  {
    hide SelectedRoot, LastTime;
    var selected := Filter((r: Tax) => SelectedRoot(q, root, r), q.rows);
    var k :| 0 <= k < |Base(q, root)| && Base(q, root)[k] == h;
    r := selected[k];
    assert r in selected;
  }

  /** The definition that a later row comes from, given the row of the level before. */
  lemma ChildRow(q: Query, parent: HRow, h: HRow) returns (r: Tax)
    requires h in Children(q, parent)
    ensures r in q.rows && SelectedRoot(q, parent.child, r) && h == Combined(q, parent, r)
    ensures r.startTime <= parent.last && LastTime(q, r) >= parent.first
  {
    hide SelectedRoot, EarliestStart, LastTime, Combined;
    var joined := Filter((r: Tax) => SelectedChild(q, parent.child, r) && r.startTime <= parent.last &&
                                     LastTime(q, r) >= parent.first, q.rows);
    var k :| 0 <= k < |Children(q, parent)| && Children(q, parent)[k] == h;
    r := joined[k];
    assert r in joined;
  }

  lemma LastTimeInRange(q: Query, parent: string, r: Tax)
    requires ValidQuery(q) && q.end < MAX_INT8 && r in q.rows && SelectedRoot(q, parent, r)
    ensures r.startTime <= LastTime(q, r) && q.start <= LastTime(q, r) && r.startTime <= q.end
  {
    hide Overshadowed, LatestStart, NextStart;
    LatestStartIs(q.rows, parent, q.start);
    NextStartIs(q.rows, parent, r.startTime, q.end);
  }

  /** Every row of every level counts at some time of the range: its interval is not empty and meets the range. */
  lemma {:induction false} EveryRowCounts(q: Query, root: string, depth: nat, h: HRow)
    requires ValidQuery(q) && q.end < MAX_INT8 && h in Level(q, root, depth)
    ensures h.first <= h.last && h.first <= q.end && q.start <= h.last
  {
    hide Base, Children, LastTime, SelectedRoot, ValidQuery;
    if depth == 0 {
      var r := RootRow(q, root, h);
      LastTimeInRange(q, root, r);
    } else {
      var level := Level(q, root, depth - 1);
      var children := (h: HRow) => Children(q, h);
      FlatMapMember(children, level, h);
      var parent: HRow :| parent in level && h in children(parent);
      EveryRowCounts(q, root, depth - 1, parent);
      var r := ChildRow(q, parent, h);
      LastTimeInRange(q, parent.child, r);
    }
  }

  // ---- Where the recursion ends --------------------------------------------------------------------------------

  /** An empty level is followed by empty levels. */
  lemma {:induction false} LevelsStayEmpty(q: Query, root: string, depth: nat, later: nat)
    requires Level(q, root, depth) == [] && depth <= later
    ensures Level(q, root, later) == []
    decreases later
  {
    hide Base, Children;
    if depth < later {
      LevelsStayEmpty(q, root, depth, later - 1);
    }
  }

  /** The recursion ends with the first empty level; no later level adds a row. */
  lemma {:induction false} EmptyLevelEnds(q: Query, root: string, depth: nat, later: nat)
    requires Level(q, root, depth) == [] && depth <= later
    ensures Hierarchy(q, root, later) == Hierarchy(q, root, depth)
    decreases later
  {
    hide Level;
    if depth < later {
      LevelsStayEmpty(q, root, depth, later - 1);
      EmptyLevelEnds(q, root, depth, later - 1);
    }
  }

  /** Children rank below their parents. */
  ghost predicate Ranked(rows: seq<Tax>, rank: map<string, nat>) {
    forall r :: r in rows ==> r.child in rank && r.parent in rank && rank[r.child] < rank[r.parent]
  }

  lemma SelectedOf(q: Query, parent: string, r: Tax)
    requires SelectedRoot(q, parent, r)
    ensures r.parent == parent
  {
  }

  lemma {:induction false} LevelsDescend(q: Query, root: string, rank: map<string, nat>, depth: nat, h: HRow)
    requires Ranked(q.rows, rank) && h in Level(q, root, depth)
    ensures root in rank && h.child in rank && rank[h.child] + depth < rank[root]
  {
    hide Base, Children;
    if depth == 0 {
      var r := RootRow(q, root, h);
      SelectedOf(q, root, r);
    } else {
      var level := Level(q, root, depth - 1);
      var children := (h: HRow) => Children(q, h);
      FlatMapMember(children, level, h);
      var parent: HRow :| parent in level && h in children(parent);
      LevelsDescend(q, root, rank, depth - 1, parent);
      var r := ChildRow(q, parent, h);
      SelectedOf(q, parent.child, r);
    }
  }

  /** Without cycles among the definitions the recursion ends: a stream's rank bounds the number of levels. */
  lemma {:induction false} AcyclicEnds(q: Query, root: string, rank: map<string, nat>, later: nat)
    requires Ranked(q.rows, rank) && root in rank && rank[root] <= later
    ensures Level(q, root, rank[root]) == [] && Hierarchy(q, root, later) == Hierarchy(q, root, rank[root])
  {
    hide Level, Hierarchy, Ranked;
    if Level(q, root, rank[root]) != [] {
      LevelsDescend(q, root, rank, rank[root], Level(q, root, rank[root])[0]);
    }
    EmptyLevelEnds(q, root, rank[root], later);
  }
}
