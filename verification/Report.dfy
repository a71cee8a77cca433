/**
 * The markdown report of the benchmark (internal/benchmark/benchexport/markdown.go): a flat list of
 * results becomes nested tables. A reader of the tables gets back every measurement exactly once.
 */
module Report {
  import opened Wrappers
  import opened Sequences
  import opened Ordering
  import opened Text
  import opened Results

  datatype GroupKey = GroupKey(
    branchingFactor: int64,
    procedure: string,
    visibility: string,
    dataPoints: int64,
    qtyStreams: int64,
    unixOnly: bool)

  type Grouped = map<GroupKey, int64>

  /** The headings a table stands under. */
  datatype Section = Section(branchingFactor: int64, procedure: string, visibility: string, unixOnly: bool)

  datatype Table = Table(section: Section, headers: seq<string>, rows: seq<seq<string>>)

  const CORNER := "Data points / Qty streams"

  function KeyOf(r: SavedResults): GroupKey {
    GroupKey(r.branchingFactor, r.procedure, r.visibility, r.dataPoints, r.qtyStreams, r.unixOnly)
  }

  function KeyAt(s: Section, d: int64, q: int64): GroupKey {
    GroupKey(s.branchingFactor, s.procedure, s.visibility, d, q, s.unixOnly)
  }

  // ---- Validation and grouping ------------------------------------------------------------------

  /** All results must have the same sample count. */
  method ValidateSampleCounts(results: seq<SavedResults>) returns (ok: bool)
    ensures ok <==> forall i, j :: 0 <= i < j < |results| ==> results[i].samples == results[j].samples
  {
    var counts: map<int64, int> := map[];
    for k := 0 to |results|
      invariant forall i :: 0 <= i < k ==> results[i].samples in counts
      invariant forall c :: c in counts ==> exists i :: 0 <= i < k && results[i].samples == c
    {
      var c := results[k].samples;
      counts := counts[c := if c in counts then counts[c] + 1 else 1];
    }
    ok := !(|counts| > 1);
    AtMostOneKey(counts);
    assert |results| > 0 ==> results[0].samples in counts;
  }

  lemma AtMostOneKey(counts: map<int64, int>)
    ensures |counts| <= 1 <==> forall a, b :: a in counts && b in counts ==> a == b
  {
    if a, b :| a in counts && b in counts && a != b {
      assert {a, b} <= counts.Keys;
      SubsetSize({a, b}, counts.Keys);
    } else if c :| c in counts {
      assert counts.Keys == {c};
    }
  }

  lemma {:induction false} SubsetSize<T>(a: set<T>, b: set<T>)
    requires a <= b
    ensures |a| <= |b|
    decreases a
  {
    if a != {} {
      var x :| x in a;
      SubsetSize(a - {x}, b - {x});
    }
  }

  /** The last result with a key decides its duration. */
  ghost predicate IsGrouping(results: seq<SavedResults>, grouped: Grouped) {
    && (forall i :: 0 <= i < |results| ==> KeyOf(results[i]) in grouped)
    && (forall k :: k in grouped ==>
         exists i :: 0 <= i < |results| && KeyOf(results[i]) == k && results[i].durationMs == grouped[k] &&
                     forall j :: i < j < |results| ==> KeyOf(results[j]) != k)
  }

  method GroupResults(results: seq<SavedResults>) returns (out: Grouped)
    ensures IsGrouping(results, out)
  {
    out := map[];
    for n := 0 to |results|
      invariant forall i :: 0 <= i < n ==> KeyOf(results[i]) in out
      invariant forall k :: k in out ==>
                  exists i :: 0 <= i < n && KeyOf(results[i]) == k && results[i].durationMs == out[k] &&
                              forall j :: i < j < n ==> KeyOf(results[j]) != k
    {
      out := out[KeyOf(results[n]) := results[n].durationMs];
    }
  }

  // ---- Distinct values --------------------------------------------------------------------------

  predicate Int64Less(a: int64, b: int64) {
    a < b
  }

  ghost function FieldValues(results: seq<SavedResults>, field: SavedResults -> int64): set<int64> {
    set r | r in results :: field(r)
  }

  /** distinctDataPoints, distinctQtyStreams and distinctBranchingFactors differ only in the field. */
  method DistinctSorted(results: seq<SavedResults>, field: SavedResults -> int64) returns (out: seq<int64>)
    ensures IsListing(Int64Less, out, FieldValues(results, field))
  {
    var seen: set<int64> := {};
    for k := 0 to |results|
      invariant seen == FieldValues(results[..k], field)
    {
      seen := seen + {field(results[k])};
      assert results[..k + 1] == results[..k] + [results[k]];
    }
    assert results[..|results|] == results;
    out := SortedKeys(Int64Less, seen);
  }

  /** distinctProceduresForBF, then sorted by the caller. */
  ghost function Procedures(grouped: Grouped, bf: int64): set<string> {
    set k | k in grouped && k.branchingFactor == bf :: k.procedure
  }

  method DistinctProcedures(grouped: Grouped, bf: int64) returns (out: seq<string>)
    ensures IsListing(StringLess, out, Procedures(grouped, bf))
  {
    var procs := set k | k in grouped && k.branchingFactor == bf :: k.procedure;
    StringLessStrictTotal();
    out := SortedKeys(StringLess, procs);
  }

  ghost function Visibilities(grouped: Grouped, bf: int64, proc: string): set<string> {
    set k | k in grouped && k.branchingFactor == bf && k.procedure == proc :: k.visibility
  }

  method DistinctVisibilities(grouped: Grouped, bf: int64, proc: string) returns (out: seq<string>)
    ensures IsListing(StringLess, out, Visibilities(grouped, bf, proc))
  {
    var visibilities := set k | k in grouped && k.branchingFactor == bf && k.procedure == proc :: k.visibility;
    StringLessStrictTotal();
    out := SortedKeys(StringLess, visibilities);
  }

  ghost function UnixModes(grouped: Grouped, bf: int64, proc: string, vis: string): set<bool> {
    set k | k in grouped && k.branchingFactor == bf && k.procedure == proc && k.visibility == vis :: k.unixOnly
  }

  method DistinctUnixModes(grouped: Grouped, bf: int64, proc: string, vis: string) returns (out: seq<bool>)
    ensures IsListing(BoolLess, out, UnixModes(grouped, bf, proc, vis))
  {
    var modes := set k | k in grouped && k.branchingFactor == bf && k.procedure == proc && k.visibility == vis :: k.unixOnly;
    out := SortedKeys(BoolLess, modes);
  }

  // ---- One table ----------------------------------------------------------------------------------

  predicate ColumnHasData(grouped: Grouped, s: Section, dataPoints: seq<int64>, q: int64) {
    exists d :: d in dataPoints && KeyAt(s, d, q) in grouped
  }

  predicate RowHasData(grouped: Grouped, s: Section, d: int64, columns: seq<int64>) {
    exists q :: q in columns && KeyAt(s, d, q) in grouped
  }

  function Cell(grouped: Grouped, k: GroupKey): string {
    if k in grouped then IntString(grouped[k]) else "-"
  }

  function Row(grouped: Grouped, s: Section, d: int64, columns: seq<int64>): seq<string> {
    [IntString(d)] + Map((q: int64) => Cell(grouped, KeyAt(s, d, q)), columns)
  }

  function Columns(grouped: Grouped, s: Section, dataPoints: seq<int64>, qtyStreams: seq<int64>): seq<int64> {
    Filter((q: int64) => ColumnHasData(grouped, s, dataPoints, q), qtyStreams)
  }

  function Heading(columns: seq<int64>): seq<string> {
    [CORNER] + Map((q: int64) => IntString(q), columns)
  }

  /** Rows and columns without data are left out; a missing measurement shows as a dash. */
  function TableFor(grouped: Grouped, s: Section, dataPoints: seq<int64>, qtyStreams: seq<int64>): Table {
    var columns := Columns(grouped, s, dataPoints, qtyStreams);
    Table(s, Heading(columns),
          Map((d: int64) => Row(grouped, s, d, columns), Filter((d: int64) => RowHasData(grouped, s, d, columns), dataPoints)))
  }

  /** The inner loop of existingQtyStreams: look for the first data point that has a value in column q. */
  method HasData(grouped: Grouped, s: Section, dataPoints: seq<int64>, q: int64) returns (hasData: bool)
    ensures hasData == ColumnHasData(grouped, s, dataPoints, q)
  {
    hasData := false;
    for j := 0 to |dataPoints|
      invariant !hasData
      invariant forall i :: 0 <= i < j ==> KeyAt(s, dataPoints[i], q) !in grouped
    {
      if KeyAt(s, dataPoints[j], q) in grouped {
        hasData := true;
        assert dataPoints[j] in dataPoints;
        break;
      }
    }
  }

  method ExistingQtyStreams(grouped: Grouped, s: Section, dataPoints: seq<int64>, qtyStreams: seq<int64>)
    returns (result: seq<int64>)
    ensures result == Columns(grouped, s, dataPoints, qtyStreams)
  {
    hide ColumnHasData;
    result := [];
    ghost var p := (q: int64) => ColumnHasData(grouped, s, dataPoints, q);
    for i := 0 to |qtyStreams|
      invariant result == Filter(p, qtyStreams[..i])
    {
      var q := qtyStreams[i];
      var hasData := HasData(grouped, s, dataPoints, q);
      if hasData {
        result := result + [q];
      }
      assert qtyStreams[..i + 1] == qtyStreams[..i] + [q];
      FilterConcat(p, qtyStreams[..i], [q]);
    }
    assert qtyStreams[..|qtyStreams|] == qtyStreams;
  }

  method WriteRow(grouped: Grouped, s: Section, d: int64, columns: seq<int64>) returns (row: seq<string>, rowHasData: bool)
    ensures row == Row(grouped, s, d, columns)
    ensures rowHasData <==> RowHasData(grouped, s, d, columns)
  {
    hide IntString;
    row, rowHasData := [IntString(d)], false;
    ghost var cell := (q: int64) => Cell(grouped, KeyAt(s, d, q));
    for j := 0 to |columns|
      invariant row == [IntString(d)] + Map(cell, columns[..j])
      invariant rowHasData <==> RowHasData(grouped, s, d, columns[..j])
    {
      var key := KeyAt(s, d, columns[j]);
      var text := "-";
      if key in grouped {
        text := IntString(grouped[key]);
        rowHasData := true;
      }
      row := row + [text];
      assert columns[..j + 1] == columns[..j] + [columns[j]];
      MapConcat(cell, columns[..j], [columns[j]]);
    }
    assert columns[..|columns|] == columns;
  }

  method WriteHeading(columns: seq<int64>) returns (headers: seq<string>)
    ensures headers == Heading(columns)
  {
    hide IntString;
    headers := [CORNER];
    for j := 0 to |columns|
      invariant headers == Heading(columns[..j])
    {
      headers := headers + [IntString(columns[j])];
      assert columns[..j + 1] == columns[..j] + [columns[j]];
      MapConcat((q: int64) => IntString(q), columns[..j], [columns[j]]);
    }
    assert columns[..|columns|] == columns;
  }

  lemma NoLines(has: int64 -> bool, line: int64 -> seq<string>)
    ensures Map(line, Filter(has, [])) == []
  {
  }

  lemma OneMoreLine(has: int64 -> bool, line: int64 -> seq<string>, ds: seq<int64>, d: int64)
    ensures Map(line, Filter(has, ds + [d])) == Map(line, Filter(has, ds)) + (if has(d) then [line(d)] else [])
  {
    hide Filter, Map;
    FilterConcat(has, ds, [d]);
    FilterSingle(has, d);
    MapConcat(line, Filter(has, ds), Filter(has, [d]));
    LinesOf(line, d);
  }

  lemma LinesOf(line: int64 -> seq<string>, d: int64)
    ensures Map(line, [d]) == [line(d)] && Map(line, []) == []
  {
  }

  method WriteTableForUnixMode(grouped: Grouped, s: Section, dataPoints: seq<int64>, qtyStreams: seq<int64>)
    returns (table: Table)
    ensures table == TableFor(grouped, s, dataPoints, qtyStreams)
  {
    hide RowHasData, Row, Columns, Heading, IntString, Filter, Map;
    NoLines((d: int64) => RowHasData(grouped, s, d, Columns(grouped, s, dataPoints, qtyStreams)),
            (d: int64) => Row(grouped, s, d, Columns(grouped, s, dataPoints, qtyStreams)));
    var columns := ExistingQtyStreams(grouped, s, dataPoints, qtyStreams);
    var headers := WriteHeading(columns);
    var rows := [];
    ghost var has := (d: int64) => RowHasData(grouped, s, d, columns);
    ghost var line := (d: int64) => Row(grouped, s, d, columns);
    for i := 0 to |dataPoints|
      invariant rows == Map(line, Filter(has, dataPoints[..i]))
    {
      var d := dataPoints[i];
      var row, rowHasData := WriteRow(grouped, s, d, columns);
      if rowHasData {
        rows := rows + [row];
      }
      assert dataPoints[..i + 1] == dataPoints[..i] + [d];
      OneMoreLine(has, line, dataPoints[..i], d);
    }
    assert dataPoints[..|dataPoints|] == dataPoints;
    table := Table(s, headers, rows);
  }

  // ---- The whole report ---------------------------------------------------------------------------

  ghost function StringListing(s: set<string>): (xs: seq<string>)
    ensures IsListing(StringLess, xs, s) && NoDup(xs)
  {
    StringLessStrictTotal();
    ListingNoDup(StringLess, Listing(StringLess, s), s);
    Listing(StringLess, s)
  }

  lemma StringListingIs(xs: seq<string>, s: set<string>)
    requires IsListing(StringLess, xs, s)
    ensures xs == StringListing(s)
  {
    StringLessStrictTotal();
    ListingUnique(StringLess, xs, StringListing(s), s);
  }

  ghost function VisibilityTables(grouped: Grouped, bf: int64, proc: string, vis: string,
                                  dataPoints: seq<int64>, qtyStreams: seq<int64>): seq<Table>
  {
    Map((u: bool) => TableFor(grouped, Section(bf, proc, vis, u), dataPoints, qtyStreams),
        Listing(BoolLess, UnixModes(grouped, bf, proc, vis)))
  }

  ghost function ProcedureTables(grouped: Grouped, bf: int64, proc: string,
                                 dataPoints: seq<int64>, qtyStreams: seq<int64>): seq<Table>
  {
    FlatMap((vis: string) => VisibilityTables(grouped, bf, proc, vis, dataPoints, qtyStreams),
            StringListing(Visibilities(grouped, bf, proc)))
  }

  ghost function BranchingTables(grouped: Grouped, bf: int64, dataPoints: seq<int64>, qtyStreams: seq<int64>): seq<Table> {
    FlatMap((proc: string) => ProcedureTables(grouped, bf, proc, dataPoints, qtyStreams),
            StringListing(Procedures(grouped, bf)))
  }

  ghost function ReportTables(grouped: Grouped, branchingFactors: seq<int64>,
                              dataPoints: seq<int64>, qtyStreams: seq<int64>): seq<Table>
  {
    FlatMap((bf: int64) => BranchingTables(grouped, bf, dataPoints, qtyStreams), branchingFactors)
  }

  method WriteVisibility(grouped: Grouped, bf: int64, proc: string, vis: string,
                         dataPoints: seq<int64>, qtyStreams: seq<int64>) returns (tables: seq<Table>)
    ensures tables == VisibilityTables(grouped, bf, proc, vis, dataPoints, qtyStreams)
  {
    var unixModes := DistinctUnixModes(grouped, bf, proc, vis);
    ListingUnique(BoolLess, unixModes, Listing(BoolLess, UnixModes(grouped, bf, proc, vis)), UnixModes(grouped, bf, proc, vis));
    tables := [];
    ghost var f := (u: bool) => TableFor(grouped, Section(bf, proc, vis, u), dataPoints, qtyStreams);
    for i := 0 to |unixModes|
      invariant tables == Map(f, unixModes[..i])
    {
      var table := WriteTableForUnixMode(grouped, Section(bf, proc, vis, unixModes[i]), dataPoints, qtyStreams);
      tables := tables + [table];
      assert unixModes[..i + 1] == unixModes[..i] + [unixModes[i]];
      MapConcat(f, unixModes[..i], [unixModes[i]]);
    }
    assert unixModes[..|unixModes|] == unixModes;
  }

  method WriteProcedure(grouped: Grouped, bf: int64, proc: string, dataPoints: seq<int64>, qtyStreams: seq<int64>)
    returns (tables: seq<Table>)
    ensures tables == ProcedureTables(grouped, bf, proc, dataPoints, qtyStreams)
  {
    var visList := DistinctVisibilities(grouped, bf, proc);
    StringListingIs(visList, Visibilities(grouped, bf, proc));
    tables := [];
    ghost var f := (vis: string) => VisibilityTables(grouped, bf, proc, vis, dataPoints, qtyStreams);
    for i := 0 to |visList|
      invariant tables == FlatMap(f, visList[..i])
    {
      var part := WriteVisibility(grouped, bf, proc, visList[i], dataPoints, qtyStreams);
      tables := tables + part;
      assert visList[..i + 1] == visList[..i] + [visList[i]];
      FlatMapConcat(f, visList[..i], [visList[i]]);
      FlatMapSingle(f, visList[i]);
    }
    assert visList[..|visList|] == visList;
  }

  method WriteBranching(grouped: Grouped, bf: int64, dataPoints: seq<int64>, qtyStreams: seq<int64>)
    returns (tables: seq<Table>)
    ensures tables == BranchingTables(grouped, bf, dataPoints, qtyStreams)
  {
    var procs := DistinctProcedures(grouped, bf);
    StringListingIs(procs, Procedures(grouped, bf));
    tables := [];
    ghost var f := (proc: string) => ProcedureTables(grouped, bf, proc, dataPoints, qtyStreams);
    for i := 0 to |procs|
      invariant tables == FlatMap(f, procs[..i])
    {
      var part := WriteProcedure(grouped, bf, procs[i], dataPoints, qtyStreams);
      tables := tables + part;
      assert procs[..i + 1] == procs[..i] + [procs[i]];
      FlatMapConcat(f, procs[..i], [procs[i]]);
      FlatMapSingle(f, procs[i]);
    }
    assert procs[..|procs|] == procs;
  }

  method WriteReport(grouped: Grouped, branchingFactors: seq<int64>, dataPoints: seq<int64>, qtyStreams: seq<int64>)
    returns (tables: seq<Table>)
    ensures tables == ReportTables(grouped, branchingFactors, dataPoints, qtyStreams)
  {
    tables := [];
    ghost var f := (bf: int64) => BranchingTables(grouped, bf, dataPoints, qtyStreams);
    for i := 0 to |branchingFactors|
      invariant tables == FlatMap(f, branchingFactors[..i])
    {
      var part := WriteBranching(grouped, branchingFactors[i], dataPoints, qtyStreams);
      tables := tables + part;
      assert branchingFactors[..i + 1] == branchingFactors[..i] + [branchingFactors[i]];
      FlatMapConcat(f, branchingFactors[..i], [branchingFactors[i]]);
      FlatMapSingle(f, branchingFactors[i]);
    }
    assert branchingFactors[..|branchingFactors|] == branchingFactors;
  }

  // ---- Reading the report back --------------------------------------------------------------------

  datatype Entry = Entry(key: GroupKey, duration: int64)

  function ReadInt(s: string): int64 {
    match ParseInt(s)
    case Ok(v) => v
    case Err(_) => 0
  }

  /** The measurements in the cells of one row, given the column headings. */
  function ReadCells(s: Section, d: int64, headers: seq<string>, cells: seq<string>): seq<Entry> {
    if headers == [] || cells == [] then []
    else (if cells[0] == "-" then [] else [Entry(KeyAt(s, d, ReadInt(headers[0])), ReadInt(cells[0]))]) +
         ReadCells(s, d, headers[1..], cells[1..])
  }

  function ReadRow(t: Table, row: seq<string>): seq<Entry> {
    if row == [] || t.headers == [] then [] else ReadCells(t.section, ReadInt(row[0]), t.headers[1..], row[1..])
  }

  function ReadTable(t: Table): seq<Entry> {
    FlatMap((row: seq<string>) => ReadRow(t, row), t.rows)
  }

  function ReadReport(tables: seq<Table>): seq<Entry> {
    FlatMap(ReadTable, tables)
  }

  function EntryAt(grouped: Grouped, k: GroupKey): seq<Entry> {
    if k in grouped then [Entry(k, grouped[k])] else []
  }

  function RowEntries(grouped: Grouped, s: Section, d: int64, columns: seq<int64>): seq<Entry> {
    FlatMap((q: int64) => EntryAt(grouped, KeyAt(s, d, q)), columns)
  }

  lemma ReadPrinted(n: int64)
    ensures ReadInt(IntString(n)) == n
    ensures IntString(n) != "-"
  {
    ParseIntOfIntString(n);
  }

  lemma {:induction false} ReadPrintedCells(grouped: Grouped, s: Section, d: int64, columns: seq<int64>)
    ensures ReadCells(s, d, Map((q: int64) => IntString(q), columns),
                      Map((q: int64) => Cell(grouped, KeyAt(s, d, q)), columns)) == RowEntries(grouped, s, d, columns)
  {
    if columns != [] {
      var q := columns[0];
      var show, cell := (q: int64) => IntString(q), (q: int64) => Cell(grouped, KeyAt(s, d, q));
      assert Map(show, columns)[1..] == Map(show, columns[1..]);
      assert Map(cell, columns)[1..] == Map(cell, columns[1..]);
      ReadPrintedCells(grouped, s, d, columns[1..]);
      ReadPrinted(q);
      if KeyAt(s, d, q) in grouped {
        ReadPrinted(grouped[KeyAt(s, d, q)]);
      }
    }
  }

  lemma ReadPrintedRow(grouped: Grouped, t: Table, d: int64, columns: seq<int64>)
    requires t.headers == Heading(columns)
    ensures ReadRow(t, Row(grouped, t.section, d, columns)) == RowEntries(grouped, t.section, d, columns)
  {
    var row := Row(grouped, t.section, d, columns);
    assert row[1..] == Map((q: int64) => Cell(grouped, KeyAt(t.section, d, q)), columns);
    assert t.headers[1..] == Map((q: int64) => IntString(q), columns);
    ReadPrinted(d);
    ReadPrintedCells(grouped, t.section, d, columns);
  }

  /** What one table says, as if no row or column had been left out. */
  function TableEntries(grouped: Grouped, s: Section, dataPoints: seq<int64>, qtyStreams: seq<int64>): seq<Entry> {
    FlatMap((d: int64) => RowEntries(grouped, s, d, qtyStreams), dataPoints)
  }

  lemma ColumnsKeepEntries(grouped: Grouped, s: Section, dataPoints: seq<int64>, qtyStreams: seq<int64>, d: int64)
    requires d in dataPoints
    ensures RowEntries(grouped, s, d, Columns(grouped, s, dataPoints, qtyStreams)) == RowEntries(grouped, s, d, qtyStreams)
  {
    FlatMapFilter((q: int64) => EntryAt(grouped, KeyAt(s, d, q)),
                  (q: int64) => ColumnHasData(grouped, s, dataPoints, q), qtyStreams);
  }

  lemma {:induction false} EmptyRowHasNoEntries(grouped: Grouped, s: Section, d: int64, columns: seq<int64>)
    requires !RowHasData(grouped, s, d, columns)
    ensures RowEntries(grouped, s, d, columns) == []
  {
    if columns != [] {
      assert columns[0] in columns;
      assert forall q :: q in columns[1..] ==> q in columns;
      EmptyRowHasNoEntries(grouped, s, d, columns[1..]);
    }
  }

  lemma ReadPrintedRows(grouped: Grouped, s: Section, dataPoints: seq<int64>, qtyStreams: seq<int64>)
    ensures var columns := Columns(grouped, s, dataPoints, qtyStreams);
            ReadTable(TableFor(grouped, s, dataPoints, qtyStreams)) ==
            FlatMap((d: int64) => RowEntries(grouped, s, d, columns),
                    Filter((d: int64) => RowHasData(grouped, s, d, columns), dataPoints))
  {
    var columns := Columns(grouped, s, dataPoints, qtyStreams);
    var t := TableFor(grouped, s, dataPoints, qtyStreams);
    forall d: int64 ensures ReadRow(t, Row(grouped, s, d, columns)) == RowEntries(grouped, s, d, columns) {
      ReadPrintedRow(grouped, t, d, columns);
    }
    FlatMapMap((d: int64) => Row(grouped, s, d, columns), (row: seq<string>) => ReadRow(t, row),
               (d: int64) => RowEntries(grouped, s, d, columns),
               Filter((d: int64) => RowHasData(grouped, s, d, columns), dataPoints));
  }

  /** Reading a table back gives its measurements: leaving out empty rows and columns loses nothing. */
  lemma ReadPrintedTable(grouped: Grouped, s: Section, dataPoints: seq<int64>, qtyStreams: seq<int64>)
    ensures ReadTable(TableFor(grouped, s, dataPoints, qtyStreams)) == TableEntries(grouped, s, dataPoints, qtyStreams)
  {
    var columns := Columns(grouped, s, dataPoints, qtyStreams);
    ReadPrintedRows(grouped, s, dataPoints, qtyStreams);
    RowsKeepEntries(grouped, s, columns, dataPoints);
    forall d | d in dataPoints
      ensures RowEntries(grouped, s, d, columns) == RowEntries(grouped, s, d, qtyStreams)
    {
      ColumnsKeepEntries(grouped, s, dataPoints, qtyStreams, d);
    }
    FlatMapCong((d: int64) => RowEntries(grouped, s, d, columns), (d: int64) => RowEntries(grouped, s, d, qtyStreams), dataPoints);
  }

  lemma RowsKeepEntries(grouped: Grouped, s: Section, columns: seq<int64>, dataPoints: seq<int64>)
    ensures FlatMap((d: int64) => RowEntries(grouped, s, d, columns),
                    Filter((d: int64) => RowHasData(grouped, s, d, columns), dataPoints)) ==
            FlatMap((d: int64) => RowEntries(grouped, s, d, columns), dataPoints)
  {
    forall d: int64 | !RowHasData(grouped, s, d, columns) ensures RowEntries(grouped, s, d, columns) == [] {
      EmptyRowHasNoEntries(grouped, s, d, columns);
    }
    FlatMapFilter((d: int64) => RowEntries(grouped, s, d, columns), (d: int64) => RowHasData(grouped, s, d, columns), dataPoints);
  }

  // ---- Every measurement exactly once ---------------------------------------------------------------

  /** The entries are the measurements whose key satisfies p, each once. */
  ghost predicate Covers(entries: seq<Entry>, grouped: Grouped, p: GroupKey -> bool) {
    && NoDup(entries)
    && forall e :: e in entries <==> e.key in grouped && grouped[e.key] == e.duration && p(e.key)
  }

  ghost predicate CoversTagged<A>(entries: seq<Entry>, grouped: Grouped, p: GroupKey -> bool, tag: GroupKey -> A, x: A) {
    && NoDup(entries)
    && forall e :: e in entries <==> e.key in grouped && grouped[e.key] == e.duration && p(e.key) && tag(e.key) == x
  }

  /** Pieces that cover disjoint parts together cover the whole. */
  lemma CoversUnion<A>(grouped: Grouped, xs: seq<A>, piece: A -> seq<Entry>, tag: GroupKey -> A, p: GroupKey -> bool)
    requires NoDup(xs)
    requires forall x :: x in xs ==> CoversTagged(piece(x), grouped, p, tag, x)
    requires forall k :: k in grouped && p(k) ==> tag(k) in xs
    ensures Covers(FlatMap(piece, xs), grouped, p)
  {
    FlatMapNoDup(piece, (e: Entry) => tag(e.key), xs);
    forall e: Entry
      ensures e in FlatMap(piece, xs) <==> e.key in grouped && grouped[e.key] == e.duration && p(e.key)
    {
      FlatMapMember(piece, xs, e);
    }
  }

  lemma RowCovers(grouped: Grouped, s: Section, d: int64, qtyStreams: seq<int64>)
    requires NoDup(qtyStreams)
    requires forall k :: k in grouped ==> k.qtyStreams in qtyStreams
    ensures Covers(RowEntries(grouped, s, d, qtyStreams), grouped, (k: GroupKey) => k == KeyAt(s, d, k.qtyStreams))
  {
    CoversUnion(grouped, qtyStreams, (q: int64) => EntryAt(grouped, KeyAt(s, d, q)), (k: GroupKey) => k.qtyStreams,
                (k: GroupKey) => k == KeyAt(s, d, k.qtyStreams));
  }

  predicate InSection(k: GroupKey, s: Section) {
    k == KeyAt(s, k.dataPoints, k.qtyStreams)
  }

  lemma TableCovers(grouped: Grouped, s: Section, dataPoints: seq<int64>, qtyStreams: seq<int64>)
    requires NoDup(dataPoints) && NoDup(qtyStreams)
    requires forall k :: k in grouped ==> k.dataPoints in dataPoints && k.qtyStreams in qtyStreams
    ensures Covers(ReadTable(TableFor(grouped, s, dataPoints, qtyStreams)), grouped, k => InSection(k, s))
  {
    ReadPrintedTable(grouped, s, dataPoints, qtyStreams);
    var p, tag := (k: GroupKey) => InSection(k, s), (k: GroupKey) => k.dataPoints;
    forall d | d in dataPoints
      ensures CoversTagged(RowEntries(grouped, s, d, qtyStreams), grouped, p, tag, d)
    {
      RowCovers(grouped, s, d, qtyStreams);
    }
    CoversUnion(grouped, dataPoints, (d: int64) => RowEntries(grouped, s, d, qtyStreams), tag, p);
  }

  /** The two value lists name every measured data point count and stream count. */
  ghost predicate Complete(grouped: Grouped, dataPoints: seq<int64>, qtyStreams: seq<int64>) {
    && NoDup(dataPoints) && NoDup(qtyStreams)
    && forall k :: k in grouped ==> k.dataPoints in dataPoints && k.qtyStreams in qtyStreams
  }

  lemma VisibilityCovers(grouped: Grouped, bf: int64, proc: string, vis: string, dataPoints: seq<int64>, qtyStreams: seq<int64>)
    requires Complete(grouped, dataPoints, qtyStreams)
    ensures Covers(ReadReport(VisibilityTables(grouped, bf, proc, vis, dataPoints, qtyStreams)), grouped,
                   (k: GroupKey) => k.branchingFactor == bf && k.procedure == proc && k.visibility == vis)
  {
    var p, tag := (k: GroupKey) => k.branchingFactor == bf && k.procedure == proc && k.visibility == vis, (k: GroupKey) => k.unixOnly;
    var modes := Listing(BoolLess, UnixModes(grouped, bf, proc, vis));
    ListingNoDup(BoolLess, modes, UnixModes(grouped, bf, proc, vis));
    var table := (u: bool) => TableFor(grouped, Section(bf, proc, vis, u), dataPoints, qtyStreams);
    var entries := (u: bool) => ReadTable(TableFor(grouped, Section(bf, proc, vis, u), dataPoints, qtyStreams));
    FlatMapMap(table, ReadTable, entries, modes);
    forall u | u in modes ensures CoversTagged(entries(u), grouped, p, tag, u) {
      TableCovers(grouped, Section(bf, proc, vis, u), dataPoints, qtyStreams);
    }
    CoversUnion(grouped, modes, entries, tag, p);
  }

  lemma ProcedureCovers(grouped: Grouped, bf: int64, proc: string, dataPoints: seq<int64>, qtyStreams: seq<int64>)
    requires Complete(grouped, dataPoints, qtyStreams)
    ensures Covers(ReadReport(ProcedureTables(grouped, bf, proc, dataPoints, qtyStreams)), grouped,
                   (k: GroupKey) => k.branchingFactor == bf && k.procedure == proc)
  {
    var p, tag := (k: GroupKey) => k.branchingFactor == bf && k.procedure == proc, (k: GroupKey) => k.visibility;
    var visList := StringListing(Visibilities(grouped, bf, proc));
    var entries := (vis: string) => ReadReport(VisibilityTables(grouped, bf, proc, vis, dataPoints, qtyStreams));
    FlatMapFlatMap((vis: string) => VisibilityTables(grouped, bf, proc, vis, dataPoints, qtyStreams), ReadTable, entries, visList);
    forall vis | vis in visList ensures CoversTagged(entries(vis), grouped, p, tag, vis) {
      VisibilityCovers(grouped, bf, proc, vis, dataPoints, qtyStreams);
    }
    CoversUnion(grouped, visList, entries, tag, p);
  }

  lemma BranchingCovers(grouped: Grouped, bf: int64, dataPoints: seq<int64>, qtyStreams: seq<int64>)
    requires Complete(grouped, dataPoints, qtyStreams)
    ensures Covers(ReadReport(BranchingTables(grouped, bf, dataPoints, qtyStreams)), grouped,
                   (k: GroupKey) => k.branchingFactor == bf)
  {
    var p, tag := (k: GroupKey) => k.branchingFactor == bf, (k: GroupKey) => k.procedure;
    var procs := StringListing(Procedures(grouped, bf));
    var entries := (proc: string) => ReadReport(ProcedureTables(grouped, bf, proc, dataPoints, qtyStreams));
    FlatMapFlatMap((proc: string) => ProcedureTables(grouped, bf, proc, dataPoints, qtyStreams), ReadTable, entries, procs);
    forall proc | proc in procs ensures CoversTagged(entries(proc), grouped, p, tag, proc) {
      ProcedureCovers(grouped, bf, proc, dataPoints, qtyStreams);
    }
    CoversUnion(grouped, procs, entries, tag, p);
  }

  /** The cells that hold a number, over all tables, are exactly the grouped measurements, each once. */
  lemma ReportCovers(grouped: Grouped, branchingFactors: seq<int64>, dataPoints: seq<int64>, qtyStreams: seq<int64>)
    requires Complete(grouped, dataPoints, qtyStreams) && NoDup(branchingFactors)
    requires forall k :: k in grouped ==> k.branchingFactor in branchingFactors
    ensures var entries := ReadReport(ReportTables(grouped, branchingFactors, dataPoints, qtyStreams));
            && NoDup(entries)
            && forall e :: e in entries <==> e.key in grouped && grouped[e.key] == e.duration
  {
    var p, tag := (k: GroupKey) => true, (k: GroupKey) => k.branchingFactor;
    var entries := (bf: int64) => ReadReport(BranchingTables(grouped, bf, dataPoints, qtyStreams));
    FlatMapFlatMap((bf: int64) => BranchingTables(grouped, bf, dataPoints, qtyStreams), ReadTable, entries, branchingFactors);
    forall bf | bf in branchingFactors ensures CoversTagged(entries(bf), grouped, p, tag, bf) {
      BranchingCovers(grouped, bf, dataPoints, qtyStreams);
    }
    CoversUnion(grouped, branchingFactors, entries, tag, p);
  }

  // ---- The shape of the tables ------------------------------------------------------------------------

  ghost predicate RowShows(row: seq<string>) {
    exists c :: 1 <= c < |row| && row[c] != "-"
  }

  ghost predicate ColumnShows(t: Table, c: int) {
    exists r :: 0 <= r < |t.rows| && 0 <= c < |t.rows[r]| && t.rows[r][c] != "-"
  }

  /** Every row is as wide as the heading, and no row and no column shows only dashes. */
  ghost predicate WellShaped(t: Table) {
    && (forall r :: 0 <= r < |t.rows| ==> |t.rows[r]| == |t.headers|)
    && (forall r :: 0 <= r < |t.rows| ==> RowShows(t.rows[r]))
    && (forall c :: 1 <= c < |t.headers| ==> ColumnShows(t, c))
  }

  lemma RowShowsData(grouped: Grouped, s: Section, d: int64, columns: seq<int64>)
    requires RowHasData(grouped, s, d, columns)
    ensures RowShows(Row(grouped, s, d, columns))
  {
    var q :| q in columns && KeyAt(s, d, q) in grouped;
    var j :| 0 <= j < |columns| && columns[j] == q;
    CellShowsData(grouped, s, d, columns, j);
  }

  lemma CellShowsData(grouped: Grouped, s: Section, d: int64, columns: seq<int64>, j: int)
    requires 0 <= j < |columns| && KeyAt(s, d, columns[j]) in grouped
    ensures Row(grouped, s, d, columns)[j + 1] != "-"
  {
    ReadPrinted(grouped[KeyAt(s, d, columns[j])]);
  }

  lemma ColumnShowsData(grouped: Grouped, s: Section, dataPoints: seq<int64>, qtyStreams: seq<int64>, j: int)
    requires 0 <= j < |Columns(grouped, s, dataPoints, qtyStreams)|
    ensures ColumnShows(TableFor(grouped, s, dataPoints, qtyStreams), j + 1)
  {
    var columns := Columns(grouped, s, dataPoints, qtyStreams);
    assert columns[j] in columns;
    var d :| d in dataPoints && KeyAt(s, d, columns[j]) in grouped;
    var kept := Filter((d: int64) => RowHasData(grouped, s, d, columns), dataPoints);
    assert RowHasData(grouped, s, d, columns);
    assert d in kept;
    var r :| 0 <= r < |kept| && kept[r] == d;
    CellShowsData(grouped, s, d, columns, j);
    assert TableFor(grouped, s, dataPoints, qtyStreams).rows[r] == Row(grouped, s, d, columns);
  }

  lemma TableShape(grouped: Grouped, s: Section, dataPoints: seq<int64>, qtyStreams: seq<int64>)
    ensures WellShaped(TableFor(grouped, s, dataPoints, qtyStreams))
  {
    hide Columns, RowHasData, RowShows, ColumnShows, IntString, Cell;
    var columns := Columns(grouped, s, dataPoints, qtyStreams);
    var t := TableFor(grouped, s, dataPoints, qtyStreams);
    var kept := Filter((d: int64) => RowHasData(grouped, s, d, columns), dataPoints);
    forall r | 0 <= r < |t.rows|
      ensures |t.rows[r]| == |t.headers| && RowShows(t.rows[r])
    {
      assert kept[r] in kept;
      assert t.rows[r] == Row(grouped, s, kept[r], columns);
      RowShowsData(grouped, s, kept[r], columns);
    }
    forall c | 1 <= c < |t.headers| ensures ColumnShows(t, c) {
      ColumnShowsData(grouped, s, dataPoints, qtyStreams, c - 1);
    }
  }

  lemma VisibilityShape(grouped: Grouped, bf: int64, proc: string, vis: string, dataPoints: seq<int64>, qtyStreams: seq<int64>)
    ensures forall t :: t in VisibilityTables(grouped, bf, proc, vis, dataPoints, qtyStreams) ==> WellShaped(t)
  {
    forall u: bool ensures WellShaped(TableFor(grouped, Section(bf, proc, vis, u), dataPoints, qtyStreams)) {
      TableShape(grouped, Section(bf, proc, vis, u), dataPoints, qtyStreams);
    }
  }

  lemma ProcedureShape(grouped: Grouped, bf: int64, proc: string, dataPoints: seq<int64>, qtyStreams: seq<int64>)
    ensures forall t :: t in ProcedureTables(grouped, bf, proc, dataPoints, qtyStreams) ==> WellShaped(t)
  {
    forall vis: string ensures forall t :: t in VisibilityTables(grouped, bf, proc, vis, dataPoints, qtyStreams) ==> WellShaped(t) {
      VisibilityShape(grouped, bf, proc, vis, dataPoints, qtyStreams);
    }
    FlatMapAll((vis: string) => VisibilityTables(grouped, bf, proc, vis, dataPoints, qtyStreams),
               StringListing(Visibilities(grouped, bf, proc)), t => WellShaped(t));
  }

  lemma BranchingShape(grouped: Grouped, bf: int64, dataPoints: seq<int64>, qtyStreams: seq<int64>)
    ensures forall t :: t in BranchingTables(grouped, bf, dataPoints, qtyStreams) ==> WellShaped(t)
  {
    forall proc: string ensures forall t :: t in ProcedureTables(grouped, bf, proc, dataPoints, qtyStreams) ==> WellShaped(t) {
      ProcedureShape(grouped, bf, proc, dataPoints, qtyStreams);
    }
    FlatMapAll((proc: string) => ProcedureTables(grouped, bf, proc, dataPoints, qtyStreams),
               StringListing(Procedures(grouped, bf)), t => WellShaped(t));
  }

  lemma ReportShape(grouped: Grouped, branchingFactors: seq<int64>, dataPoints: seq<int64>, qtyStreams: seq<int64>)
    ensures forall t :: t in ReportTables(grouped, branchingFactors, dataPoints, qtyStreams) ==> WellShaped(t)
  {
    forall bf: int64 ensures forall t :: t in BranchingTables(grouped, bf, dataPoints, qtyStreams) ==> WellShaped(t) {
      BranchingShape(grouped, bf, dataPoints, qtyStreams);
    }
    FlatMapAll((bf: int64) => BranchingTables(grouped, bf, dataPoints, qtyStreams), branchingFactors, t => WellShaped(t));
  }

  // ---- The order of tables, rows and columns --------------------------------------------------------

  /** Tables are ordered by branching factor, then procedure, then visibility, then mode. */
  predicate SectionLess(a: Section, b: Section) {
    || a.branchingFactor < b.branchingFactor
    || (a.branchingFactor == b.branchingFactor &&
        (StringLess(a.procedure, b.procedure) ||
         (a.procedure == b.procedure &&
          (StringLess(a.visibility, b.visibility) || (a.visibility == b.visibility && !a.unixOnly && b.unixOnly)))))
  }

  ghost predicate TablesSorted(tables: seq<Table>) {
    forall i, j :: 0 <= i < j < |tables| ==> SectionLess(tables[i].section, tables[j].section)
  }

  /** The rows are labelled with increasing data points, the columns after the first with increasing stream counts. */
  ghost predicate LabelsRise(t: Table) {
    && t.headers != [] && t.headers[0] == "Data points / Qty streams"
    && (forall i, j :: 1 <= i < j < |t.headers| ==> ReadInt(t.headers[i]) < ReadInt(t.headers[j]))
    && (forall i :: 0 <= i < |t.rows| ==> t.rows[i] != [])
    && (forall i, j :: 0 <= i < j < |t.rows| ==> ReadInt(t.rows[i][0]) < ReadInt(t.rows[j][0]))
  }

  lemma {:induction false} FilterSorted<A>(less: (A, A) -> bool, p: A -> bool, xs: seq<A>)
    requires StrictlySorted(less, xs)
    ensures StrictlySorted(less, Filter(p, xs))
  {
    if xs != [] {
      FilterSorted(less, p, xs[1..]);
      forall y | y in Filter(p, xs[1..]) ensures less(xs[0], y) {
        var k :| 0 <= k < |xs[1..]| && xs[1..][k] == y;
      }
    }
  }

  /** A table whose labels are the printed numbers of sorted lists. */
  lemma TableLabelsRise(grouped: Grouped, s: Section, dataPoints: seq<int64>, qtyStreams: seq<int64>)
    requires StrictlySorted(Int64Less, dataPoints) && StrictlySorted(Int64Less, qtyStreams)
    ensures LabelsRise(TableFor(grouped, s, dataPoints, qtyStreams))
  {
    hide IntString, ReadInt;
    var columns := Columns(grouped, s, dataPoints, qtyStreams);
    FilterSorted(Int64Less, (q: int64) => ColumnHasData(grouped, s, dataPoints, q), qtyStreams);
    FilterSorted(Int64Less, (d: int64) => RowHasData(grouped, s, d, columns), dataPoints);
    forall n: int64 ensures ReadInt(IntString(n)) == n {
      ReadPrinted(n);
    }
  }

  /** Pieces in order, each sorted, are sorted together. */
  lemma {:induction false} FlatMapSorted<A>(f: A -> seq<Table>, before: (A, A) -> bool, xs: seq<A>)
    requires StrictlySorted(before, xs)
    requires forall x :: x in xs ==> TablesSorted(f(x))
    requires forall x, y, t, u :: x in xs && y in xs && before(x, y) && t in f(x) && u in f(y) ==> SectionLess(t.section, u.section)
    ensures TablesSorted(FlatMap(f, xs))
  {
    hide SectionLess;
    if xs != [] {
      var rest := xs[1..];
      assert forall x :: x in rest ==> x in xs;
      FlatMapSorted(f, before, rest);
      forall t, u | t in f(xs[0]) && u in FlatMap(f, rest) ensures SectionLess(t.section, u.section) {
        FlatMapMember(f, rest, u);
        var y :| y in rest && u in f(y);
        var k :| 0 <= k < |rest| && rest[k] == y;
        assert before(xs[0], xs[k + 1]);
      }
    }
  }

  lemma VisibilitySorted(grouped: Grouped, bf: int64, proc: string, vis: string, dataPoints: seq<int64>, qtyStreams: seq<int64>)
    ensures TablesSorted(VisibilityTables(grouped, bf, proc, vis, dataPoints, qtyStreams))
    ensures forall t :: t in VisibilityTables(grouped, bf, proc, vis, dataPoints, qtyStreams) ==>
              t.section.branchingFactor == bf && t.section.procedure == proc && t.section.visibility == vis
  {
  }

  lemma ProcedureSorted(grouped: Grouped, bf: int64, proc: string, dataPoints: seq<int64>, qtyStreams: seq<int64>)
    ensures TablesSorted(ProcedureTables(grouped, bf, proc, dataPoints, qtyStreams))
    ensures forall t :: t in ProcedureTables(grouped, bf, proc, dataPoints, qtyStreams) ==>
              t.section.branchingFactor == bf && t.section.procedure == proc
  {
    hide VisibilityTables, StringLess;
    var f := (vis: string) => VisibilityTables(grouped, bf, proc, vis, dataPoints, qtyStreams);
    var visList := StringListing(Visibilities(grouped, bf, proc));
    forall vis: string ensures TablesSorted(f(vis)) && forall t :: t in f(vis) ==>
        t.section.branchingFactor == bf && t.section.procedure == proc && t.section.visibility == vis
    {
      VisibilitySorted(grouped, bf, proc, vis, dataPoints, qtyStreams);
    }
    FlatMapSorted(f, StringLess, visList);
    FlatMapAll(f, visList, (t: Table) => t.section.branchingFactor == bf && t.section.procedure == proc);
  }

  lemma BranchingSorted(grouped: Grouped, bf: int64, dataPoints: seq<int64>, qtyStreams: seq<int64>)
    ensures TablesSorted(BranchingTables(grouped, bf, dataPoints, qtyStreams))
    ensures forall t :: t in BranchingTables(grouped, bf, dataPoints, qtyStreams) ==> t.section.branchingFactor == bf
  {
    hide ProcedureTables, StringLess;
    var f := (proc: string) => ProcedureTables(grouped, bf, proc, dataPoints, qtyStreams);
    var procs := StringListing(Procedures(grouped, bf));
    forall proc: string ensures TablesSorted(f(proc)) && forall t :: t in f(proc) ==>
        t.section.branchingFactor == bf && t.section.procedure == proc
    {
      ProcedureSorted(grouped, bf, proc, dataPoints, qtyStreams);
    }
    FlatMapSorted(f, StringLess, procs);
    FlatMapAll(f, procs, (t: Table) => t.section.branchingFactor == bf);
  }

  /** The tables stand in the order of their sections, no two for the same section. */
  lemma ReportSorted(grouped: Grouped, branchingFactors: seq<int64>, dataPoints: seq<int64>, qtyStreams: seq<int64>)
    requires StrictlySorted(Int64Less, branchingFactors)
    ensures TablesSorted(ReportTables(grouped, branchingFactors, dataPoints, qtyStreams))
  {
    hide BranchingTables, StringLess;
    var f := (bf: int64) => BranchingTables(grouped, bf, dataPoints, qtyStreams);
    forall bf: int64 ensures TablesSorted(f(bf)) && forall t :: t in f(bf) ==> t.section.branchingFactor == bf {
      BranchingSorted(grouped, bf, dataPoints, qtyStreams);
    }
    FlatMapSorted(f, Int64Less, branchingFactors);
  }

  /** The section of some grouped key. */
  predicate SectionOf(k: GroupKey, s: Section) {
    && k.branchingFactor == s.branchingFactor && k.procedure == s.procedure
    && k.visibility == s.visibility && k.unixOnly == s.unixOnly
  }

  lemma TableHasRow(grouped: Grouped, s: Section, dataPoints: seq<int64>, qtyStreams: seq<int64>, k: GroupKey)
    requires Complete(grouped, dataPoints, qtyStreams) && k in grouped && SectionOf(k, s)
    ensures TableFor(grouped, s, dataPoints, qtyStreams).rows != []
  {
    hide Row;
    var columns := Columns(grouped, s, dataPoints, qtyStreams);
    assert KeyAt(s, k.dataPoints, k.qtyStreams) == k;
    assert ColumnHasData(grouped, s, dataPoints, k.qtyStreams) && k.qtyStreams in columns;
    assert RowHasData(grouped, s, k.dataPoints, columns);
    assert k.dataPoints in Filter((d: int64) => RowHasData(grouped, s, d, columns), dataPoints);
  }

  lemma VisibilityTableHasRow(grouped: Grouped, bf: int64, proc: string, vis: string, dataPoints: seq<int64>, qtyStreams: seq<int64>,
                              t: Table)
    requires Complete(grouped, dataPoints, qtyStreams)
    requires t in VisibilityTables(grouped, bf, proc, vis, dataPoints, qtyStreams)
    ensures t.rows != []
  {
    hide TableFor;
    var modes := Listing(BoolLess, UnixModes(grouped, bf, proc, vis));
    var i :| 0 <= i < |modes| && t == TableFor(grouped, Section(bf, proc, vis, modes[i]), dataPoints, qtyStreams);
    assert modes[i] in UnixModes(grouped, bf, proc, vis);
    var k :| k in grouped && SectionOf(k, Section(bf, proc, vis, modes[i]));
    TableHasRow(grouped, Section(bf, proc, vis, modes[i]), dataPoints, qtyStreams, k);
  }

  /** There is no table without a row: every section of the report has a measurement. */
  lemma ReportHasNoEmptyTable(grouped: Grouped, branchingFactors: seq<int64>, dataPoints: seq<int64>, qtyStreams: seq<int64>)
    requires Complete(grouped, dataPoints, qtyStreams)
    ensures forall t :: t in ReportTables(grouped, branchingFactors, dataPoints, qtyStreams) ==> t.rows != []
  {
    forall t | t in ReportTables(grouped, branchingFactors, dataPoints, qtyStreams) ensures t.rows != [] {
      var bf, proc, vis := PlaceInReport(grouped, branchingFactors, dataPoints, qtyStreams, t);
      hide *;
      VisibilityTableHasRow(grouped, bf, proc, vis, dataPoints, qtyStreams, t);
    }
  }

  /** The headings above a table of the report. */
  lemma PlaceInReport(grouped: Grouped, branchingFactors: seq<int64>, dataPoints: seq<int64>, qtyStreams: seq<int64>, t: Table)
    returns (bf: int64, proc: string, vis: string)
    requires t in ReportTables(grouped, branchingFactors, dataPoints, qtyStreams)
    ensures t in VisibilityTables(grouped, bf, proc, vis, dataPoints, qtyStreams)
  {
    hide VisibilityTables;
    var branching := (bf: int64) => BranchingTables(grouped, bf, dataPoints, qtyStreams);
    FlatMapMember(branching, branchingFactors, t);
    bf :| bf in branchingFactors && t in branching(bf);
    var procedures := (proc: string) => ProcedureTables(grouped, bf, proc, dataPoints, qtyStreams);
    FlatMapMember(procedures, StringListing(Procedures(grouped, bf)), t);
    proc :| t in procedures(proc);
    var visibilities := (vis: string) => VisibilityTables(grouped, bf, proc, vis, dataPoints, qtyStreams);
    FlatMapMember(visibilities, StringListing(Visibilities(grouped, bf, proc)), t);
    vis :| t in visibilities(vis);
  }

  /** In every table the labels rise. */
  lemma ReportLabelsRise(grouped: Grouped, branchingFactors: seq<int64>, dataPoints: seq<int64>, qtyStreams: seq<int64>)
    requires StrictlySorted(Int64Less, dataPoints) && StrictlySorted(Int64Less, qtyStreams)
    ensures forall t :: t in ReportTables(grouped, branchingFactors, dataPoints, qtyStreams) ==> LabelsRise(t)
  {
    hide StrictlySorted, LabelsRise;
    forall t | t in ReportTables(grouped, branchingFactors, dataPoints, qtyStreams) ensures LabelsRise(t) {
      var bf, proc, vis := PlaceInReport(grouped, branchingFactors, dataPoints, qtyStreams, t);
      TableLabelsRise(grouped, t.section, dataPoints, qtyStreams);
    }
  }

  // ---- SaveAsMarkdown ---------------------------------------------------------------------------------

  datatype ReportError = DifferentSampleCounts | NoFirstResult

  /** The result is a measurement under the key. */
  predicate Measures(r: SavedResults, k: GroupKey) {
    && k.branchingFactor == r.branchingFactor && k.procedure == r.procedure && k.visibility == r.visibility
    && k.dataPoints == r.dataPoints && k.qtyStreams == r.qtyStreams && k.unixOnly == r.unixOnly
  }

  /**
   * Either the sample counts differ and nothing is written, or the tables say exactly what the results
   * say: for every key that occurs, the duration of its last occurrence, in exactly one cell.
   * The header of an empty file takes the sample count from the first result; without one the program panics.
   */
  method SaveAsMarkdown(results: seq<SavedResults>, fileIsEmpty: bool) returns (report: Result<seq<Table>, ReportError>)
    ensures report.Ok? <==>
              (fileIsEmpty ==> results != []) &&
              forall i, j :: 0 <= i < j < |results| ==> results[i].samples == results[j].samples
    ensures report == Err(NoFirstResult) <==> fileIsEmpty && results == []
    ensures report.Ok? ==> NoDup(ReadReport(report.value))
    ensures report.Ok? ==>
              forall e :: e in ReadReport(report.value) <==>
                exists i :: 0 <= i < |results| && Measures(results[i], e.key) && e.duration == results[i].durationMs &&
                            forall j :: i < j < |results| ==> !Measures(results[j], e.key)
    ensures report.Ok? ==> TablesSorted(report.value)
    ensures report.Ok? ==> forall t :: t in report.value ==> t.rows != [] && WellShaped(t) && LabelsRise(t)
  {
    hide *;
    var ok := ValidateSampleCounts(results);
    if !ok {
      return Err(DifferentSampleCounts);
    }
    var dataPoints := DistinctSorted(results, (r: SavedResults) => r.dataPoints);
    var qtyStreams := DistinctSorted(results, (r: SavedResults) => r.qtyStreams);
    var branchingFactors := DistinctSorted(results, (r: SavedResults) => r.branchingFactor);
    var grouped := GroupResults(results);
    if fileIsEmpty && |results| == 0 {
      return Err(NoFirstResult);
    }
    var tables := WriteReport(grouped, branchingFactors, dataPoints, qtyStreams);
    ReportIsRight(results, grouped, branchingFactors, dataPoints, qtyStreams);
    report := Ok(tables);
  }

  lemma ReportIsRight(results: seq<SavedResults>, grouped: Grouped, branchingFactors: seq<int64>, dataPoints: seq<int64>,
                      qtyStreams: seq<int64>)
    requires IsGrouping(results, grouped)
    requires IsListing(Int64Less, dataPoints, FieldValues(results, (r: SavedResults) => r.dataPoints))
    requires IsListing(Int64Less, qtyStreams, FieldValues(results, (r: SavedResults) => r.qtyStreams))
    requires IsListing(Int64Less, branchingFactors, FieldValues(results, (r: SavedResults) => r.branchingFactor))
    ensures var tables := ReportTables(grouped, branchingFactors, dataPoints, qtyStreams);
            && NoDup(ReadReport(tables))
            && (forall e :: e in ReadReport(tables) <==>
                  exists i :: 0 <= i < |results| && Measures(results[i], e.key) && e.duration == results[i].durationMs &&
                              forall j :: i < j < |results| ==> !Measures(results[j], e.key))
            && TablesSorted(tables)
            && forall t :: t in tables ==> t.rows != [] && WellShaped(t) && LabelsRise(t)
  {
    hide *;
    GroupingIsComplete(results, grouped, branchingFactors, dataPoints, qtyStreams);
    GroupingItems(results, grouped);
    ReportCovers(grouped, branchingFactors, dataPoints, qtyStreams);
    ReportShape(grouped, branchingFactors, dataPoints, qtyStreams);
    ReportHasNoEmptyTable(grouped, branchingFactors, dataPoints, qtyStreams);
    ReportSorted(grouped, branchingFactors, dataPoints, qtyStreams);
    ReportLabelsRise(grouped, branchingFactors, dataPoints, qtyStreams);
  }

  lemma GroupingIsComplete(results: seq<SavedResults>, grouped: Grouped, branchingFactors: seq<int64>,
                           dataPoints: seq<int64>, qtyStreams: seq<int64>)
    requires IsGrouping(results, grouped)
    requires IsListing(Int64Less, dataPoints, FieldValues(results, (r: SavedResults) => r.dataPoints))
    requires IsListing(Int64Less, qtyStreams, FieldValues(results, (r: SavedResults) => r.qtyStreams))
    requires IsListing(Int64Less, branchingFactors, FieldValues(results, (r: SavedResults) => r.branchingFactor))
    ensures Complete(grouped, dataPoints, qtyStreams) && NoDup(branchingFactors)
    ensures forall k :: k in grouped ==> k.branchingFactor in branchingFactors
    ensures StrictlySorted(Int64Less, dataPoints) && StrictlySorted(Int64Less, qtyStreams) && StrictlySorted(Int64Less, branchingFactors)
  {
    ListingNoDup(Int64Less, dataPoints, FieldValues(results, (r: SavedResults) => r.dataPoints));
    ListingNoDup(Int64Less, qtyStreams, FieldValues(results, (r: SavedResults) => r.qtyStreams));
    ListingNoDup(Int64Less, branchingFactors, FieldValues(results, (r: SavedResults) => r.branchingFactor));
    forall k | k in grouped
      ensures k.dataPoints in dataPoints && k.qtyStreams in qtyStreams && k.branchingFactor in branchingFactors
    {
      var i :| 0 <= i < |results| && KeyOf(results[i]) == k;
      assert results[i] in results;
    }
  }

  lemma GroupingItems(results: seq<SavedResults>, grouped: Grouped)
    requires IsGrouping(results, grouped)
    ensures forall e: Entry :: e.key in grouped && grouped[e.key] == e.duration <==>
              exists i :: 0 <= i < |results| && Measures(results[i], e.key) && e.duration == results[i].durationMs &&
                          forall j :: i < j < |results| ==> !Measures(results[j], e.key)
  {
    assert forall r: SavedResults, k :: Measures(r, k) <==> KeyOf(r) == k;
    forall e: Entry, i | 0 <= i < |results| && Measures(results[i], e.key) && e.duration == results[i].durationMs &&
                         forall j :: i < j < |results| ==> !Measures(results[j], e.key)
      ensures e.key in grouped && grouped[e.key] == e.duration
    {
      var m :| 0 <= m < |results| && KeyOf(results[m]) == e.key && results[m].durationMs == grouped[e.key] &&
               forall j :: m < j < |results| ==> KeyOf(results[j]) != e.key;
      assert m == i;
    }
  }
}
