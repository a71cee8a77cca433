/** The hierarchy of the composed query (internal/migrations/006-composed-query.sql). */
module Taxonomy {
  // How taxonomies are resolved into weighted intervals (the parts hierarchy and primitive_weights): level by level,
  // every row of a level is joined with the definitions of its child. At any time of the range the intervals that
  // contain the time are exactly the weighted paths through the definitions in force at that time.

  import opened Wrappers
  import opened Numbers
  import opened Sequences
  import opened ComposedDelta
  import opened ComposedTimeline

  /** A row of taxonomies; disabled means that disabled_at is set. */
  datatype Tax = Tax(parent: string, child: string, weight: real, groupSequence: int, startTime: int, disabled: bool)

  /** A row of hierarchy. */
  datatype HRow = HRow(child: string, weight: real, first: int, last: int)

  /** The range of the query: $effective_from and $effective_to. */
  datatype Query = Query(rows: seq<Tax>, start: int, end: int)

  // ---- The query ------------------------------------------------------------------------------------------

  /** The anti-join: some enabled definition of the same parent and start time has a higher group sequence. */
  predicate Overshadowed(rows: seq<Tax>, r: Tax) {
    exists s :: s in rows && Overshadows(s, r)
  }

  predicate Overshadows(s: Tax, r: Tax) {
    !s.disabled && s.parent == r.parent && s.startTime == r.startTime && r.groupSequence < s.groupSequence
  }

  /** The latest start at or before t of an enabled definition of the parent. */
  function LatestStart(rows: seq<Tax>, parent: string, t: int): Option<int> {
    if rows == [] then None
    else
      var rest := LatestStart(rows[1..], parent, t);
      var r := rows[0];
      if !r.disabled && r.parent == parent && r.startTime <= t && (rest.None? || rest.value < r.startTime)
      then Some(r.startTime) else rest
  }

  /** LEAD(start_time): the next start after s, among the enabled definitions of the parent that start by end. */
  function NextStart(rows: seq<Tax>, parent: string, s: int, end: int): Option<int> {
    if rows == [] then None
    else
      var rest := NextStart(rows[1..], parent, s, end);
      var r := rows[0];
      if !r.disabled && r.parent == parent && s < r.startTime <= end && (rest.None? || r.startTime < rest.value)
      then Some(r.startTime) else rest
  }

  /** MIN(start_time) of all enabled definitions that start by t. */
  function EarliestStart(rows: seq<Tax>, t: int): Option<int> {
    if rows == [] then None
    else
      var rest := EarliestStart(rows[1..], t);
      var r := rows[0];
      if !r.disabled && r.startTime <= t && (rest.None? || r.startTime < rest.value) then Some(r.startTime) else rest
  }

  function OrZero(t: Option<int>): int {
    if t.Some? then t.value else 0
  }

  /** The last time at which the definition counts. */
  function LastTime(q: Query, r: Tax): int {
    var next := NextStart(q.rows, r.parent, r.startTime, q.end);
    (if next.Some? then next.value else MAX_INT8) - 1
  }

  /** The definitions of the root that the base case selects. */
  predicate SelectedRoot(q: Query, parent: string, r: Tax) {
    && r.parent == parent && !r.disabled && !Overshadowed(q.rows, r)
    && OrZero(LatestStart(q.rows, parent, q.start)) <= r.startTime <= q.end
  }

  /** Those of a child that the recursive case selects; its list of start times begins at the earliest start of all. */
  predicate SelectedChild(q: Query, parent: string, r: Tax) {
    && SelectedRoot(q, parent, r)
    && OrZero(EarliestStart(q.rows, q.start)) <= r.startTime
  }

  function Base(q: Query, root: string): seq<HRow> {
    Map((r: Tax) => HRow(r.child, r.weight, r.startTime, LastTime(q, r)), Filter((r: Tax) => SelectedRoot(q, root, r), q.rows))
  }

  /** The rows that the recursive case makes from one row of the previous level. */
  function Children(q: Query, h: HRow): seq<HRow> {
    Map((r: Tax) => Combined(q, h, r),
        Filter((r: Tax) => SelectedChild(q, h.child, r) && r.startTime <= h.last && LastTime(q, r) >= h.first, q.rows))
  }

  function Combined(q: Query, h: HRow, r: Tax): HRow {
    HRow(r.child, Times(h.weight, r.weight), Max(h.first, r.startTime), Min(h.last, LastTime(q, r)))
  }

  function Level(q: Query, root: string, depth: nat): seq<HRow> {
    if depth == 0 then Base(q, root) else FlatMap((h: HRow) => Children(q, h), Level(q, root, depth - 1))
  }

  // ---- The meaning: paths at a point in time -----------------------------------------------------------------

  datatype Path = Path(child: string, weight: real)

  /**
   * The definition is in force at t: it is enabled and has started, and no enabled definition of the parent has started
   * later, or at the same time with a higher group sequence.
   */
  predicate InForce(rows: seq<Tax>, parent: string, t: int, r: Tax) {
    && r.parent == parent && !r.disabled && r.startTime <= t
    && forall s :: s in rows && !s.disabled && s.parent == parent && s.startTime <= t ==> !Supersedes(s, r)
  }

  predicate Supersedes(s: Tax, r: Tax) {
    r.startTime < s.startTime || (r.startTime == s.startTime && r.groupSequence < s.groupSequence)
  }

  function Edges(rows: seq<Tax>, parent: string, t: int): seq<Tax> {
    Filter((r: Tax) => InForce(rows, parent, t, r), rows)
  }

  function Extend(rows: seq<Tax>, t: int, p: Path): seq<Path> {
    Map((r: Tax) => Path(r.child, Times(p.weight, r.weight)), Edges(rows, p.child, t))
  }

  /** The paths of depth + 1 edges from the root through definitions in force at t, with the product of weights. */
  function PathsAt(rows: seq<Tax>, root: string, t: int, depth: nat): seq<Path> {
    if depth == 0 then Map((r: Tax) => Path(r.child, r.weight), Edges(rows, root, t))
    else FlatMap((p: Path) => Extend(rows, t, p), PathsAt(rows, root, t, depth - 1))
  }

  // ---- Selecting at a time --------------------------------------------------------------------------------------

  lemma {:induction false} LatestStartIs(rows: seq<Tax>, parent: string, t: int)
    ensures var m := LatestStart(rows, parent, t);
            && (m.Some? ==> exists s :: s in rows && !s.disabled && s.parent == parent && s.startTime == m.value <= t)
            && (forall s :: s in rows && !s.disabled && s.parent == parent && s.startTime <= t ==> m.Some? && s.startTime <= m.value)
  {
    if rows != [] {
      LatestStartIs(rows[1..], parent, t);
    }
  }

  lemma {:induction false} NextStartIs(rows: seq<Tax>, parent: string, s: int, end: int)
    ensures var m := NextStart(rows, parent, s, end);
            && (m.Some? ==> exists r :: r in rows && !r.disabled && r.parent == parent && s < r.startTime == m.value <= end)
            && (forall r :: r in rows && !r.disabled && r.parent == parent && s < r.startTime <= end ==>
                 m.Some? && m.value <= r.startTime)
  {
    if rows != [] {
      NextStartIs(rows[1..], parent, s, end);
    }
  }

  lemma {:induction false} EarliestStartIs(rows: seq<Tax>, t: int)
    ensures var m := EarliestStart(rows, t);
            && (m.Some? ==> m.value <= t)
            && (forall r :: r in rows && !r.disabled && r.startTime <= t ==> m.Some? && m.value <= r.startTime)
  {
    if rows != [] {
      EarliestStartIs(rows[1..], t);
    }
  }

  ghost predicate ValidQuery(q: Query) {
    0 <= q.start <= q.end
  }

  predicate Contains(first: int, last: int, t: int) {
    first <= t <= last
  }

  /**
   * Both selections, cut at a time of the range, are the definitions in force: the enabled definitions of the parent with
   * the latest start by then and, among those of that start, the highest group sequence.
   */
  lemma SelectedIsInForce(q: Query, parent: string, r: Tax, t: int)
    requires ValidQuery(q) && q.start <= t <= q.end && t < MAX_INT8 && r in q.rows
    ensures SelectedChild(q, parent, r) <==> SelectedRoot(q, parent, r)
    ensures SelectedRoot(q, parent, r) && r.startTime <= t <= LastTime(q, r) <==>
            && !r.disabled && r.parent == parent && r.startTime <= t
            && forall s :: s in q.rows && !s.disabled && s.parent == parent && s.startTime <= t ==>
                 s.startTime < r.startTime || (s.startTime == r.startTime && s.groupSequence <= r.groupSequence)
  {
    hide LatestStart, NextStart, EarliestStart;
    LatestStartIs(q.rows, parent, q.start);
    NextStartIs(q.rows, parent, r.startTime, q.end);
    EarliestStartIs(q.rows, q.start);
    if s :| s in q.rows && Overshadows(s, r) && r.parent == parent {
      assert s.startTime == r.startTime && s.groupSequence > r.groupSequence;
    }
  }

  lemma SelectedIffInForce(q: Query, parent: string, r: Tax, t: int)
    requires ValidQuery(q) && q.start <= t <= q.end && t < MAX_INT8 && r in q.rows
    ensures SelectedChild(q, parent, r) <==> SelectedRoot(q, parent, r)
    ensures SelectedRoot(q, parent, r) && Contains(r.startTime, LastTime(q, r), t) <==> InForce(q.rows, parent, t, r)
  {
    hide SelectedRoot, SelectedChild, LastTime, ValidQuery;
    SelectedIsInForce(q, parent, r, t);
  }

  /**
   * Nothing is selected that the range does not need: a definition of the parent is selected exactly when it is enabled,
   * has the highest group sequence of its start time, starts by the end of the range, and no enabled definition of the
   * parent replaces it by the start of the range.
   */
  lemma SelectedMeetsRange(q: Query, parent: string, r: Tax)
    requires ValidQuery(q) && r in q.rows
    ensures SelectedRoot(q, parent, r) <==>
            && !r.disabled && r.parent == parent && r.startTime <= q.end
            && (forall s :: s in q.rows && !s.disabled && s.parent == parent && s.startTime == r.startTime ==>
                  s.groupSequence <= r.groupSequence)
            && (forall s :: s in q.rows && !s.disabled && s.parent == parent && r.startTime < s.startTime ==> q.start < s.startTime)
  {
    hide LatestStart;
    LatestStartIs(q.rows, parent, q.start);
    if s :| s in q.rows && Overshadows(s, r) && r.parent == parent {
      assert s.startTime == r.startTime && s.groupSequence > r.groupSequence;
    }
  }

  /** A selected definition counts until one time unit before the parent's next start by the end of the range, or for good. */
  lemma LastTimeIs(q: Query, r: Tax, t: int)
    ensures r.startTime < t < MAX_INT8 && t <= q.end ==>
            (t <= LastTime(q, r) <==>
             forall s :: s in q.rows && !s.disabled && s.parent == r.parent && r.startTime < s.startTime ==> t < s.startTime)
    ensures LastTime(q, r) == 9223372036854774999 ||
            exists s :: s in q.rows && !s.disabled && s.parent == r.parent && r.startTime < s.startTime == LastTime(q, r) + 1 <= q.end
  {
    hide NextStart;
    NextStartIs(q.rows, r.parent, r.startTime, q.end);
  }

  function At(t: int, h: HRow): bool {
    Contains(h.first, h.last, t)
  }

  function ToPath(h: HRow): Path {
    Path(h.child, h.weight)
  }

  /** The rows of a list whose interval contains t, as paths. */
  function PathsOf(hs: seq<HRow>, t: int): seq<Path> {
    Map(ToPath, Filter((h: HRow) => At(t, h), hs))
  }

  lemma BaseAt(q: Query, root: string, t: int)
    requires ValidQuery(q) && q.start <= t <= q.end && t < MAX_INT8
    ensures PathsOf(Base(q, root), t) == PathsAt(q.rows, root, t, 0)
  {
    hide SelectedRoot, SelectedChild, InForce, LastTime, Contains, ValidQuery;
    var selected, inForce := (r: Tax) => SelectedRoot(q, root, r), (r: Tax) => InForce(q.rows, root, t, r);
    var make := (r: Tax) => HRow(r.child, r.weight, r.startTime, LastTime(q, r));
    var now := (r: Tax) => Contains(r.startTime, LastTime(q, r), t);
    FilterMap(make, (h: HRow) => At(t, h), now, Filter(selected, q.rows));
    forall r | r in q.rows ensures selected(r) && now(r) <==> inForce(r) {
      SelectedIffInForce(q, root, r, t);
    }
    FilterTwice(selected, now, inForce, q.rows);
  }

  lemma ChildAt(q: Query, h: HRow, r: Tax, t: int)
    requires ValidQuery(q) && q.start <= t <= q.end && t < MAX_INT8 && r in q.rows
    ensures (SelectedChild(q, h.child, r) && r.startTime <= h.last && LastTime(q, r) >= h.first) && At(t, Combined(q, h, r)) <==>
            At(t, h) && InForce(q.rows, h.child, t, r)
  {
    hide SelectedRoot, SelectedChild, InForce, LastTime;
    SelectedIffInForce(q, h.child, r, t);
  }

  lemma ChildrenAt(q: Query, h: HRow, t: int)
    requires ValidQuery(q) && q.start <= t <= q.end && t < MAX_INT8
    ensures PathsOf(Children(q, h), t) == if At(t, h) then Extend(q.rows, t, ToPath(h)) else []
  {
    hide SelectedChild, InForce, LastTime, At, Combined, ValidQuery;
    var joined := (r: Tax) => SelectedChild(q, h.child, r) && r.startTime <= h.last && LastTime(q, r) >= h.first;
    var make, now := (r: Tax) => Combined(q, h, r), (r: Tax) => At(t, Combined(q, h, r));
    var both := (r: Tax) => At(t, h) && InForce(q.rows, h.child, t, r);
    FilterMap(make, (x: HRow) => At(t, x), now, Filter(joined, q.rows));
    forall r | r in q.rows ensures joined(r) && now(r) <==> both(r) {
      ChildAt(q, h, r, t);
    }
    FilterTwice(joined, now, both, q.rows);
    assert PathsOf(Children(q, h), t) == Map(ToPath, Map(make, Filter(both, q.rows)));
    if At(t, h) {
      FilterSame(both, (r: Tax) => InForce(q.rows, h.child, t, r), q.rows);
      CombinedPaths(q, h, t, Edges(q.rows, h.child, t));
    } else {
      FilterNone(both, q.rows);
    }
  }

  lemma CombinedPaths(q: Query, h: HRow, t: int, rs: seq<Tax>)
    ensures Map(ToPath, Map((r: Tax) => Combined(q, h, r), rs)) ==
            Map((r: Tax) => Path(r.child, Times(ToPath(h).weight, r.weight)), rs)
  {
    hide LastTime;
  }

  /** One recursion step, cut at t, extends the paths at t. */
  lemma StepAt(q: Query, level: seq<HRow>, t: int)
    requires ValidQuery(q) && q.start <= t <= q.end && t < MAX_INT8
    ensures PathsOf(FlatMap((h: HRow) => Children(q, h), level), t) ==
            FlatMap((p: Path) => Extend(q.rows, t, p), PathsOf(level, t))
  {
    hide Children, At, ValidQuery, Extend;
    var children, at := (h: HRow) => Children(q, h), (h: HRow) => At(t, h);
    var cut := (h: HRow) => Filter(at, Children(q, h));
    var extend := (p: Path) => Extend(q.rows, t, p);
    var paths := (h: HRow) => PathsOf(Children(q, h), t);
    FilterFlatMap(children, at, cut, level);
    MapFlatMap(cut, ToPath, paths, level);
    forall h | h in level ensures paths(h) == if at(h) then extend(ToPath(h)) else [] {
      ChildrenAt(q, h, t);
    }
    FlatMapFilter(paths, at, level);
    FlatMapMap(ToPath, extend, paths, Filter(at, level));
  }

  /**
   * Every level of the hierarchy, cut at a time of the range, is the list of the weighted paths of its length
   * through the definitions in force at that time: nothing is missing, repeated or out of date.
   */
  lemma {:induction false} HierarchyIsPaths(q: Query, root: string, t: int, depth: nat)
    requires ValidQuery(q) && q.start <= t <= q.end && t < MAX_INT8
    ensures PathsOf(Level(q, root, depth), t) == PathsAt(q.rows, root, t, depth)
  {
    hide Base, Children, PathsOf, Extend, Edges, ValidQuery;
    if depth == 0 {
      BaseAt(q, root, t);
    } else {
      HierarchyIsPaths(q, root, t, depth - 1);
      StepAt(q, Level(q, root, depth - 1), t);
    }
  }
}
