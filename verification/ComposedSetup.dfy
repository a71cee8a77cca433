/**
 * The pivot from a parsed table to the data of one primitive stream per column
 * (parseComposedMarkdownSetup in tests/streams/utils/setup/composed.go). Float parsing and stream id generation
 * are functions passed in; a Go index panic is an Err.
 */
module ComposedSetup {
  import opened Wrappers
  import opened Sequences
  import opened Text
  import opened MarkdownTable

  datatype Insert = Insert(eventTime: int, value: real)

  datatype Stream = Stream(id: string, data: seq<Insert>)

  datatype Item = Item(child: string, weight: real)

  datatype Setup = Setup(streams: seq<Stream>, taxonomy: seq<Item>)

  datatype SetupError = NotEventTime | BadTime | BadNumber | IndexPanic

  const EVENT_TIME := "event_time"

  predicate IsStreamHeader(h: string) {
    h != EVENT_TIME
  }

  // ---- The specification -------------------------------------------------------------------------------

  /** The data after the first n cells of a row; cell i goes to stream i. */
  function AddCells(parse: string -> Option<real>, data: seq<seq<Insert>>, time: int, cells: seq<string>, n: nat)
    : Result<seq<seq<Insert>>, SetupError>
    requires n <= |cells|
  {
    if n == 0 then Ok(data)
    else
      match AddCells(parse, data, time, cells, n - 1)
      case Err(e) => Err(e)
      case Ok(d) =>
        var i := n - 1;
        if cells[i] == "" then Ok(d)
        else if parse(cells[i]).None? then Err(BadNumber)
        else if i >= |d| then Err(IndexPanic)
        else Ok(d[i := d[i] + [Insert(time, parse(cells[i]).value)]])
  }

  function AddRow(parse: string -> Option<real>, data: seq<seq<Insert>>, row: seq<string>): Result<seq<seq<Insert>>, SetupError> {
    if row == [] then Err(IndexPanic)
    else if ParseInt(row[0]).Err? then Err(BadTime)
    else AddCells(parse, data, ParseInt(row[0]).value, row[1..], |row| - 1)
  }

  function AddRows(parse: string -> Option<real>, data: seq<seq<Insert>>, rows: seq<seq<string>>)
    : Result<seq<seq<Insert>>, SetupError>
  {
    if rows == [] then Ok(data)
    else
      match AddRows(parse, data, rows[..|rows| - 1])
      case Err(e) => Err(e)
      case Ok(d) => AddRow(parse, d, rows[|rows| - 1])
  }

  function Items(parse: string -> Option<real>, ids: seq<string>, weights: seq<string>): Result<seq<Item>, SetupError> {
    if ids == [] then Ok([])
    else
      var n := |ids| - 1;
      match Items(parse, ids[..n], weights)
      case Err(e) => Err(e)
      case Ok(items) =>
        if n >= |weights| then Err(IndexPanic)
        else if parse(weights[n]).None? then Err(BadNumber)
        else Ok(items + [Item(ids[n], parse(weights[n]).value)])
  }

  function Ids(generate: string -> string, headers: seq<string>): seq<string> {
    Map(generate, Filter(IsStreamHeader, headers))
  }

  function NoData(n: nat): (data: seq<seq<Insert>>)
    ensures |data| == n && forall k :: 0 <= k < n ==> data[k] == []
  {
    seq(n, _ => [])
  }

  function WeightsOf(weights: Option<seq<string>>, n: nat): seq<string> {
    if weights.Some? then weights.value else seq(n, _ => "1")
  }

  function Zipped(ids: seq<string>, data: seq<seq<Insert>>): (streams: seq<Stream>)
    requires |ids| == |data|
  {
    seq(|ids|, k requires 0 <= k < |ids| => Stream(ids[k], data[k]))
  }

  /** The index of the stream that header k makes: how many of the headers before it are not event_time. */
  function StreamOf(headers: seq<string>, k: nat): nat
    requires k < |headers|
  {
    StreamCount(headers[..k])
  }

  /** How many streams the headers make. */
  function StreamCount(headers: seq<string>): nat {
    |Filter(IsStreamHeader, headers)|
  }

  /** The weight of stream k is the number in text k, or in "1" when no weights are given. */
  predicate HasWeight(parse: string -> Option<real>, weights: Option<seq<string>>, k: nat, w: Option<real>) {
    match weights
    case None => w == parse("1")
    case Some(ws) => w == if k < |ws| then parse(ws[k]) else None
  }

  /** Every header that is not event_time has its own stream, and stream and weight k belong together. */
  ghost predicate IsSetup(parse: string -> Option<real>, generate: string -> string, headers: seq<string>,
                          weights: Option<seq<string>>, s: Setup)
  {
    && |s.streams| == |s.taxonomy| == StreamCount(headers)
    && (forall k: nat :: k < |headers| && headers[k] != "event_time" ==>
          StreamOf(headers, k) < |s.streams| && s.streams[StreamOf(headers, k)].id == generate(headers[k]))
    && (forall k: nat :: k < |s.streams| ==> s.taxonomy[k].child == s.streams[k].id)
    && (forall k: nat :: k < |s.taxonomy| ==> HasWeight(parse, weights, k, Some(s.taxonomy[k].weight)))
  }

  // ---- The program ----------------------------------------------------------------------------------------

  method ParseComposedSetup(table: Table, weights: Option<seq<string>>, parse: string -> Option<real>, generate: string -> string)
    returns (r: Result<Setup, SetupError>)
    requires table.headers != []
    ensures table.headers[0] != EVENT_TIME ==> r == Err(NotEventTime)
    ensures table.headers[0] == EVENT_TIME ==>
              var ids := Ids(generate, table.headers);
              var data := AddRows(parse, NoData(|ids|), table.rows);
              var items := Items(parse, ids, WeightsOf(weights, |ids|));
              if data.Err? then r == Err(data.error)
              else if items.Err? then r == Err(items.error)
              else |data.value| == |ids| && r == Ok(Setup(Zipped(ids, data.value), items.value))
    ensures r.Ok? ==> table.headers[0] == "event_time" && IsSetup(parse, generate, table.headers, weights, r.value)
  {
    hide ParseInt;
    if table.headers[0] != EVENT_TIME {
      return Err(NotEventTime);
    }
    var headers := table.headers;
    var ids: seq<string> := [];
    for k := 0 to |headers|
      invariant ids == Ids(generate, headers[..k])
    {
      assert headers[..k + 1] == headers[..k] + [headers[k]];
      FilterConcat(IsStreamHeader, headers[..k], [headers[k]]);
      if headers[k] == EVENT_TIME {
        continue;
      }
      ids := ids + [generate(headers[k])];
    }
    assert headers[..|headers|] == headers;
    var pivoted := PivotRows(table.rows, |ids|, parse);
    if pivoted.Err? {
      return Err(pivoted.error);
    }
    var data := pivoted.value;
    var items := ParseWeights(ids, WeightsOf(weights, |ids|), parse);
    if items.Err? {
      return Err(items.error);
    }
    AddRowsWidth(parse, NoData(|ids|), table.rows);
    SetupIs(parse, generate, headers, weights, data, items.value);
    r := Ok(Setup(Zipped(ids, data), items.value));
  }

  /** The loop that gives every stream its weight. */
  method ParseWeights(ids: seq<string>, weights: seq<string>, parse: string -> Option<real>) returns (r: Result<seq<Item>, SetupError>)
    ensures r == Items(parse, ids, weights)
  {
    var items: seq<Item> := [];
    for i := 0 to |ids|
      invariant Items(parse, ids[..i], weights) == Ok(items)
    {
      assert ids[..i + 1][..i] == ids[..i];
      if i >= |weights| || parse(weights[i]).None? {
        FirstBadItem(parse, ids, weights, i + 1);
        return Err(if i >= |weights| then IndexPanic else BadNumber);
      }
      items := items + [Item(ids[i], parse(weights[i]).value)];
    }
    assert ids[..|ids|] == ids;
    r := Ok(items);
  }

  method PivotRows(rows: seq<seq<string>>, streams: nat, parse: string -> Option<real>)
    returns (r: Result<seq<seq<Insert>>, SetupError>)
    ensures r == AddRows(parse, NoData(streams), rows)
  {
    hide ParseInt, AddRow;
    var data := NoData(streams);
    for k := 0 to |rows|
      invariant AddRows(parse, NoData(streams), rows[..k]) == Ok(data)
    {
      assert rows[..k + 1][..k] == rows[..k];
      var row := PivotRow(data, rows[k], parse);
      if row.Err? {
        FirstBadRow(parse, NoData(streams), rows, k + 1);
        return row;
      }
      data := row.value;
    }
    assert rows[..|rows|] == rows;
    r := Ok(data);
  }

  method PivotRow(before: seq<seq<Insert>>, row: seq<string>, parse: string -> Option<real>)
    returns (r: Result<seq<seq<Insert>>, SetupError>)
    ensures r == AddRow(parse, before, row)
  {
    hide ParseInt;
    if |row| == 0 {
      return Err(IndexPanic);
    }
    var time := ParseInt(row[0]);
    if time.Err? {
      return Err(BadTime);
    }
    var data := before;
    var cells := row[1..];
    for i := 0 to |cells|
      invariant AddCells(parse, before, time.value, cells, i) == Ok(data)
    {
      if cells[i] == "" {
        continue;
      }
      var value := parse(cells[i]);
      if value.None? || i >= |data| {
        FirstBadCell(parse, before, time.value, cells, |cells|, i + 1);
        return Err(if value.None? then BadNumber else IndexPanic);
      }
      data := data[i := data[i] + [Insert(time.value, value.value)]];
    }
    r := Ok(data);
  }

  lemma {:induction false} FirstBadCell(parse: string -> Option<real>, data: seq<seq<Insert>>, time: int,
                                               cells: seq<string>, n: nat, k: nat)
    requires k <= n <= |cells| && AddCells(parse, data, time, cells, k).Err?
    ensures AddCells(parse, data, time, cells, n) == AddCells(parse, data, time, cells, k)
  {
    if k < n {
      FirstBadCell(parse, data, time, cells, n - 1, k);
    }
  }

  lemma {:induction false} FirstBadRow(parse: string -> Option<real>, data: seq<seq<Insert>>, rows: seq<seq<string>>, k: nat)
    requires k <= |rows| && AddRows(parse, data, rows[..k]).Err?
    ensures AddRows(parse, data, rows) == AddRows(parse, data, rows[..k])
    decreases |rows|
  {
    hide AddRow;
    if k < |rows| {
      assert rows[..|rows| - 1][..k] == rows[..k];
      FirstBadRow(parse, data, rows[..|rows| - 1], k);
    } else {
      assert rows[..k] == rows;
    }
  }

  lemma {:induction false} FirstBadItem(parse: string -> Option<real>, ids: seq<string>, weights: seq<string>, k: nat)
    requires k <= |ids| && Items(parse, ids[..k], weights).Err?
    ensures Items(parse, ids, weights) == Items(parse, ids[..k], weights)
    decreases |ids|
  {
    if k < |ids| {
      assert ids[..|ids| - 1][..k] == ids[..k];
      FirstBadItem(parse, ids[..|ids| - 1], weights, k);
    } else {
      assert ids[..k] == ids;
    }
  }

  /** Every stream up to n has a weight that can be read. */
  ghost predicate AllWeighed(parse: string -> Option<real>, weights: Option<seq<string>>, n: nat) {
    forall k: nat :: k < n ==> !HasWeight(parse, weights, k, None)
  }

  /**
   * Stream k gets weight k. Every stream needs a weight that can be read; a list that is too short panics, if no text
   * before its end is unreadable.
   */
  lemma {:induction false} ItemsAre(parse: string -> Option<real>, ids: seq<string>, weights: Option<seq<string>>, n: nat)
    requires n <= |ids|
    ensures var items := Items(parse, ids[..n], WeightsOf(weights, |ids|));
            && (items.Ok? <==> AllWeighed(parse, weights, n))
            && (items == Err(IndexPanic) <==> weights.Some? && |weights.value| < n && AllWeighed(parse, weights, |weights.value|))
            && (items.Err? ==> items.error == IndexPanic || items.error == BadNumber)
            && (items.Ok? ==> |items.value| == n)
            && (items.Ok? ==> forall k: nat :: k < n ==>
                  items.value[k].child == ids[k] && HasWeight(parse, weights, k, Some(items.value[k].weight)))
  {
    if n > 0 {
      ItemsAre(parse, ids, weights, n - 1);
      assert ids[..n][..n - 1] == ids[..n - 1];
      var k: nat := n - 1;
      assert AllWeighed(parse, weights, n) <==> AllWeighed(parse, weights, k) && !HasWeight(parse, weights, k, None);
      if weights.Some? && |weights.value| < k {
        assert HasWeight(parse, weights, |weights.value|, None);
      }
    }
  }

  lemma SetupIs(parse: string -> Option<real>, generate: string -> string, headers: seq<string>, weights: Option<seq<string>>,
                data: seq<seq<Insert>>, items: seq<Item>)
    requires var ids := Ids(generate, headers); |data| == |ids| && Items(parse, ids, WeightsOf(weights, |ids|)) == Ok(items)
    ensures IsSetup(parse, generate, headers, weights, Setup(Zipped(Ids(generate, headers), data), items))
  {
    hide Filter, Items, WeightsOf, HasWeight;
    var ids := Ids(generate, headers);
    assert ids[..|ids|] == ids;
    ItemsAre(parse, ids, weights, |ids|);
    forall k: nat | k < |headers| && headers[k] != "event_time"
      ensures StreamOf(headers, k) < |ids| && ids[StreamOf(headers, k)] == generate(headers[k])
    {
      IdOfHeader(generate, headers, k);
    }
  }

  lemma IdOfHeader(generate: string -> string, headers: seq<string>, k: nat)
    requires k < |headers| && headers[k] != "event_time"
    ensures var ids := Ids(generate, headers); StreamOf(headers, k) < |ids| && ids[StreamOf(headers, k)] == generate(headers[k])
  {
    hide Filter;
    assert headers == headers[..k] + ([headers[k]] + headers[k + 1..]);
    FilterConcat(IsStreamHeader, headers[..k], [headers[k]] + headers[k + 1..]);
    FilterConcat(IsStreamHeader, [headers[k]], headers[k + 1..]);
    FilterSingle(IsStreamHeader, headers[k]);
  }

  lemma {:induction false} AddCellsWidth(parse: string -> Option<real>, data: seq<seq<Insert>>, time: int, cells: seq<string>, n: nat)
    requires n <= |cells|
    ensures AddCells(parse, data, time, cells, n).Ok? ==> |AddCells(parse, data, time, cells, n).value| == |data|
  {
    if n > 0 {
      AddCellsWidth(parse, data, time, cells, n - 1);
    }
  }

  lemma {:induction false} AddRowsWidth(parse: string -> Option<real>, data: seq<seq<Insert>>, rows: seq<seq<string>>)
    ensures AddRows(parse, data, rows).Ok? ==> |AddRows(parse, data, rows).value| == |data|
  {
    hide ParseInt, AddCells;
    if rows != [] {
      AddRowsWidth(parse, data, rows[..|rows| - 1]);
      var before := AddRows(parse, data, rows[..|rows| - 1]);
      var row := rows[|rows| - 1];
      if before.Ok? && row != [] && ParseInt(row[0]).Ok? {
        AddCellsWidth(parse, before.value, ParseInt(row[0]).value, row[1..], |row| - 1);
      }
    }
  }

  // ---- What the pivot keeps ------------------------------------------------------------------------------------

  /** The row's time and every non-empty cell can be read. */
  predicate Readable(parse: string -> Option<real>, row: seq<string>) {
    && row != [] && ParseInt(row[0]).Ok?
    && forall i :: 1 <= i < |row| && row[i] != "" ==> parse(row[i]).Some?
  }

  /** What cell j + 1 of a row contributes to stream j. */
  function CellOf(parse: string -> Option<real>, row: seq<string>, j: nat): seq<Insert>
    requires Readable(parse, row)
  {
    if j + 1 < |row| && row[j + 1] != "" then [Insert(ParseInt(row[0]).value, parse(row[j + 1]).value)] else []
  }

  /** The non-empty cells of column j + 1, in row order, with their times. */
  function ColumnOf(parse: string -> Option<real>, rows: seq<seq<string>>, j: nat): seq<Insert>
    requires forall row :: row in rows ==> Readable(parse, row)
  {
    if rows == [] then []
    else
      var n := |rows| - 1;
      assert rows[n] in rows;
      ColumnOf(parse, rows[..n], j) + CellOf(parse, rows[n], j)
  }

  /** The data with the first n cells of a row added to their streams. */
  function Extended(parse: string -> Option<real>, data: seq<seq<Insert>>, row: seq<string>, n: nat): (after: seq<seq<Insert>>)
    requires Readable(parse, row)
    ensures |after| == |data|
    ensures forall j :: 0 <= j < |data| ==> after[j] == if j < n then data[j] + CellOf(parse, row, j) else data[j]
  {
    seq(|data|, j requires 0 <= j < |data| => if j < n then data[j] + CellOf(parse, row, j) else data[j])
  }

  /** What every stream is to receive: the stream of column j + 1 the non-empty cells of that column. */
  function Columns(parse: string -> Option<real>, rows: seq<seq<string>>, streams: nat): (data: seq<seq<Insert>>)
    requires forall row :: row in rows ==> Readable(parse, row)
    ensures |data| == streams && forall j :: 0 <= j < streams ==> data[j] == ColumnOf(parse, rows, j)
  {
    seq(streams, j requires 0 <= j < streams => ColumnOf(parse, rows, j))
  }

  lemma OneMoreCell(parse: string -> Option<real>, data: seq<seq<Insert>>, row: seq<string>, n: nat)
    requires Readable(parse, row) && 0 < n < |row| && n <= |data|
    ensures var before, after := Extended(parse, data, row, n - 1), Extended(parse, data, row, n);
            if row[n] == "" then before == after
            else after == before[n - 1 := before[n - 1] + [Insert(ParseInt(row[0]).value, parse(row[n]).value)]]
  {
    hide ParseInt, Extended;
    var before, after := Extended(parse, data, row, n - 1), Extended(parse, data, row, n);
    if row[n] == "" {
      assert after[n - 1] == data[n - 1] + [] == before[n - 1];
    }
  }

  lemma {:induction false} CellsLand(parse: string -> Option<real>, data: seq<seq<Insert>>, row: seq<string>, n: nat)
    requires Readable(parse, row) && n < |row| && n <= |data|
    ensures AddCells(parse, data, ParseInt(row[0]).value, row[1..], n) == Ok(Extended(parse, data, row, n))
  {
    hide ParseInt, Extended;
    if n > 0 {
      CellsLand(parse, data, row, n - 1);
      assert row[1..][n - 1] == row[n];
      OneMoreCell(parse, data, row, n);
    } else {
      assert Extended(parse, data, row, 0) == data;
    }
  }

  /** A cell that is not empty stands beyond the columns of the first n streams. */
  predicate Beyond(row: seq<string>, n: nat) {
    exists i :: n < i < |row| && row[i] != ""
  }

  lemma {:induction false} CellsBeyond(parse: string -> Option<real>, data: seq<seq<Insert>>, row: seq<string>, n: nat)
    requires Readable(parse, row) && |data| <= n < |row|
    ensures AddCells(parse, data, ParseInt(row[0]).value, row[1..], n) ==
            if exists i :: |data| < i <= n && row[i] != "" then Err(IndexPanic) else Ok(Extended(parse, data, row, |data|))
  {
    hide ParseInt, Extended, CellOf;
    if n == |data| {
      CellsLand(parse, data, row, n);
    } else {
      CellsBeyond(parse, data, row, n - 1);
      assert row[1..][n - 1] == row[n];
    }
  }

  /** A readable row reaches every stream, or has a cell for which there is no stream. */
  lemma RowLands(parse: string -> Option<real>, data: seq<seq<Insert>>, row: seq<string>)
    requires Readable(parse, row) && |row| >= |data| + 1
    ensures AddRow(parse, data, row) ==
            if Beyond(row, |data|) then Err(IndexPanic) else Ok(Extended(parse, data, row, |data|))
  {
    hide ParseInt, CellOf, AddCells, Extended;
    CellsBeyond(parse, data, row, |row| - 1);
  }

  /** Readable rows give every stream exactly its column, or the program panics on a cell for which there is no stream. */
  lemma {:induction false} RowsLand(parse: string -> Option<real>, rows: seq<seq<string>>, streams: nat)
    requires forall row :: row in rows ==> Readable(parse, row) && |row| >= streams + 1
    ensures AddRows(parse, NoData(streams), rows) ==
            if exists row :: row in rows && Beyond(row, streams) then Err(IndexPanic) else Ok(Columns(parse, rows, streams))
  {
    hide Readable, CellOf, AddRow, Beyond;
    if rows == [] {
      assert NoData(streams) == Columns(parse, rows, streams);
    } else {
      var n := |rows| - 1;
      var last := rows[n];
      assert rows == rows[..n] + [last] && last in rows;
      RowsLand(parse, rows[..n], streams);
      var before := Columns(parse, rows[..n], streams);
      RowLands(parse, before, last);
      assert Extended(parse, before, last, streams) == Columns(parse, rows, streams);
    }
  }

  /** With a stream for every column, each stream receives exactly its column. */
  lemma PivotKeepsColumns(parse: string -> Option<real>, rows: seq<seq<string>>, streams: nat)
    requires forall row :: row in rows ==> Readable(parse, row) && |row| == streams + 1
    ensures AddRows(parse, NoData(streams), rows) == Ok(Columns(parse, rows, streams))
  {
    hide Readable, AddRows, Columns;
    RowsLand(parse, rows, streams);
  }

  /** The pivot succeeds only on readable rows. */
  lemma {:induction false} PivotNeedsReadableRows(parse: string -> Option<real>, data: seq<seq<Insert>>,
                                                         rows: seq<seq<string>>, k: nat)
    requires AddRows(parse, data, rows).Ok? && k < |rows|
    ensures Readable(parse, rows[k])
    decreases |rows|
  {
    hide ParseInt;
    var n := |rows| - 1;
    if k < n {
      PivotNeedsReadableRows(parse, data, rows[..n], k);
    } else {
      CellsAreReadable(parse, AddRows(parse, data, rows[..n]).value, ParseInt(rows[n][0]).value, rows[n][1..], |rows[n]| - 1);
      assert forall i :: 1 <= i < |rows[n]| ==> rows[n][i] == rows[n][1..][i - 1];
    }
  }

  lemma {:induction false} CellsAreReadable(parse: string -> Option<real>, data: seq<seq<Insert>>, time: int,
                                                   cells: seq<string>, n: nat)
    requires n <= |cells| && AddCells(parse, data, time, cells, n).Ok?
    ensures forall i :: 0 <= i < n && cells[i] != "" ==> parse(cells[i]).Some?
  {
    if n > 0 {
      CellsAreReadable(parse, data, time, cells, n - 1);
    }
  }

  /** How many cells after the first are not empty. */
  function NonEmptyCells(rows: seq<seq<string>>): nat {
    if rows == [] then 0
    else
      var last := rows[|rows| - 1];
      NonEmptyCells(rows[..|rows| - 1]) + Count((c: string) => c != "", if last == [] then [] else last[1..])
  }

  /** How many records the first n streams hold. */
  function Records(data: seq<seq<Insert>>, n: nat): nat
    requires n <= |data|
  {
    if n == 0 then 0 else Records(data, n - 1) + |data[n - 1]|
  }

  lemma {:induction false} RowCount(parse: string -> Option<real>, data: seq<seq<Insert>>, row: seq<string>, n: nat)
    requires Readable(parse, row) && |row| == |data| + 1 && n <= |data|
    ensures Records(Extended(parse, data, row, |data|), n) == Records(data, n) + Count((c: string) => c != "", row[1..][..n])
  {
    hide ParseInt, Readable, Extended;
    var after := Extended(parse, data, row, |data|);
    var p := (c: string) => c != "";
    if n > 0 {
      RowCount(parse, data, row, n - 1);
      assert row[1..][..n] == row[1..][..n - 1] + [row[n]];
      CountConcat(p, row[1..][..n - 1], [row[n]]);
      assert Count(p, [row[n]]) == if row[n] != "" then 1 else 0;
      assert |after[n - 1]| == |data[n - 1]| + (if row[n] != "" then 1 else 0);
    }
  }

  lemma {:induction false} NoRecords(data: seq<seq<Insert>>, n: nat)
    requires n <= |data| && forall k :: 0 <= k < n ==> data[k] == []
    ensures Records(data, n) == 0
  {
    if n > 0 {
      NoRecords(data, n - 1);
    }
  }

  /** No cell is lost or counted twice: there are as many records as non-empty cells. */
  lemma {:induction false} PivotKeepsCount(parse: string -> Option<real>, rows: seq<seq<string>>, streams: nat)
    requires forall row :: row in rows ==> Readable(parse, row) && |row| == streams + 1
    ensures Records(Columns(parse, rows, streams), streams) == NonEmptyCells(rows)
  {
    hide ParseInt, Readable, CellOf;
    if rows == [] {
      NoRecords(Columns(parse, rows, streams), streams);
    } else {
      var n := |rows| - 1;
      assert rows[n] in rows && forall row :: row in rows[..n] ==> row in rows;
      PivotKeepsCount(parse, rows[..n], streams);
      var before := Columns(parse, rows[..n], streams);
      RowCount(parse, before, rows[n], streams);
      assert Extended(parse, before, rows[n], streams) == Columns(parse, rows, streams);
      assert rows[n][1..][..streams] == rows[n][1..];
    }
  }

  lemma {:induction false} FilterLoses<A>(p: A -> bool, xs: seq<A>)
    ensures |Filter(p, xs)| == |xs| <==> forall x :: x in xs ==> p(x)
    ensures |Filter(p, xs)| == |xs| ==> Filter(p, xs) == xs
  {
    if xs != [] {
      FilterLoses(p, xs[1..]);
      assert xs == [xs[0]] + xs[1..];
    }
  }

  predicate FullRows(parse: string -> Option<real>, headers: seq<string>, rows: seq<seq<string>>) {
    forall row :: row in rows ==> Readable(parse, row) && |row| == |headers|
  }

  predicate OnlyFirstIsTime(headers: seq<string>) {
    forall k :: 1 <= k < |headers| ==> headers[k] != "event_time"
  }

  /** The pivot succeeds, and the stream of every header receives exactly the cells of that header's column. */
  predicate Delivered(parse: string -> Option<real>, headers: seq<string>, rows: seq<seq<string>>)
    requires FullRows(parse, headers, rows)
  {
    var data := AddRows(parse, NoData(StreamCount(headers)), rows);
    && data.Ok?
    && forall k :: 1 <= k < |headers| && headers[k] != "event_time" ==>
         StreamOf(headers, k) < |data.value| && data.value[StreamOf(headers, k)] == ColumnOf(parse, rows, k - 1)
  }

  lemma StreamsWithoutTime(headers: seq<string>)
    requires headers != [] && headers[0] == EVENT_TIME
    ensures StreamCount(headers) <= |headers| - 1
    ensures StreamCount(headers) == |headers| - 1 <==> OnlyFirstIsTime(headers)
    ensures OnlyFirstIsTime(headers) ==> Filter(IsStreamHeader, headers) == headers[1..]
  {
    var rest := headers[1..];
    assert headers == [headers[0]] + rest;
    FilterLoses(IsStreamHeader, rest);
    assert forall k :: 1 <= k < |headers| ==> headers[k] == rest[k - 1] && rest[k - 1] in rest;
  }

  lemma OwnStream(headers: seq<string>, k: nat)
    requires headers != [] && headers[0] == EVENT_TIME && OnlyFirstIsTime(headers) && 1 <= k < |headers|
    ensures StreamOf(headers, k) == k - 1
  {
    StreamsWithoutTime(headers[..k]);
  }

  /** The outcome for any headers that begin with event_time, with any number of further event_time columns. */
  lemma PivotOutcome(parse: string -> Option<real>, headers: seq<string>, rows: seq<seq<string>>)
    requires headers != [] && headers[0] == EVENT_TIME && FullRows(parse, headers, rows)
    ensures var streams := StreamCount(headers);
            AddRows(parse, NoData(streams), rows) ==
            if exists row :: row in rows && Beyond(row, streams) then Err(IndexPanic) else Ok(Columns(parse, rows, streams))
  {
    hide Readable, AddRows, Columns, Beyond, StreamCount;
    StreamsWithoutTime(headers);
    RowsLand(parse, rows, StreamCount(headers));
  }

  /** A row whose only cell is in the last column. */
  function LastCellRow(width: nat, cell: string): (row: seq<string>)
    requires width >= 2
    ensures |row| == width && row[0] == IntString(0) && row[width - 1] == cell
    ensures forall i :: 1 <= i < width - 1 ==> row[i] == ""
  {
    seq(width, i => if i == 0 then IntString(0) else if i == width - 1 then cell else "")
  }

  /**
   * The pivot delivers every column of every readable table with these headers to its own stream if and only if no
   * header after the first is event_time. (cell is any text that can be read as a number.)
   */
  lemma AlignedIff(parse: string -> Option<real>, headers: seq<string>, cell: string)
    requires headers != [] && headers[0] == EVENT_TIME && cell != "" && parse(cell).Some?
    ensures (forall rows :: FullRows(parse, headers, rows) ==> Delivered(parse, headers, rows)) <==> OnlyFirstIsTime(headers)
  {
    hide ParseInt, IntString, AddRows, StreamCount, Columns, StreamOf, OnlyFirstIsTime;
    StreamsWithoutTime(headers);
    if OnlyFirstIsTime(headers) {
      forall rows | FullRows(parse, headers, rows) ensures Delivered(parse, headers, rows) {
        DeliversAll(parse, headers, rows);
      }
    } else {
      assert |headers| >= 2 by {
        SomeLaterHeader(headers);
      }
      var row := LastCellRow(|headers|, cell);
      ParseIntOfIntString(0);
      assert Readable(parse, row);
      assert Beyond(row, StreamCount(headers));
      assert row in [row];
      PivotOutcome(parse, headers, [row]);
      assert FullRows(parse, headers, [row]) && !Delivered(parse, headers, [row]);
    }
  }

  lemma SomeLaterHeader(headers: seq<string>)
    requires !OnlyFirstIsTime(headers)
    ensures |headers| >= 2
  {
  }

  lemma DeliversAll(parse: string -> Option<real>, headers: seq<string>, rows: seq<seq<string>>)
    requires headers != [] && headers[0] == EVENT_TIME && OnlyFirstIsTime(headers) && FullRows(parse, headers, rows)
    ensures Delivered(parse, headers, rows)
  {
    hide Readable, AddRows, StreamCount, StreamOf, OnlyFirstIsTime;
    StreamsWithoutTime(headers);
    PivotKeepsColumns(parse, rows, |headers| - 1);
    forall k | 1 <= k < |headers| ensures StreamOf(headers, k) == k - 1 {
      OwnStream(headers, k);
    }
  }

  /**
   * A table with one event_time column, at the front, whose rows are as wide as the header and readable: there is a
   * stream for every further header, it receives exactly the non-empty cells of its column in row order, and no cell
   * is lost.
   */
  lemma {:induction false} PivotOfTable(parse: string -> Option<real>, generate: string -> string, table: Table)
    requires table.headers != [] && table.headers[0] == EVENT_TIME
    requires forall k :: 1 <= k < |table.headers| ==> table.headers[k] != EVENT_TIME
    requires forall row :: row in table.rows ==> Readable(parse, row) && |row| == |table.headers|
    ensures var ids := Ids(generate, table.headers);
            && ids == Map(generate, table.headers[1..])
            && AddRows(parse, NoData(|ids|), table.rows) == Ok(Columns(parse, table.rows, |ids|))
            && Records(Columns(parse, table.rows, |ids|), |ids|) == NonEmptyCells(table.rows)
  {
    hide Readable, AddRows, Records, NonEmptyCells, Columns, Filter;
    StreamsWithoutTime(table.headers);
    PivotKeepsColumns(parse, table.rows, |table.headers| - 1);
    PivotKeepsCount(parse, table.rows, |table.headers| - 1);
  }
}
