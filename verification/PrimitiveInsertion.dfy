/** Inserting primitive events (internal/migrations/003-primitive-insertion.sql). */
module PrimitiveInsertion {
  // One by one and in a batch, with the keys and constraints of internal/migrations/000-initial-data.sql. The checks on
  // streams and wallets read tables that these actions do not change. A single check is an arbitrary predicate, and a
  // batch check is the list of answers in the rows that its helper action returns.

  import opened Wrappers
  import opened Sequences

  /** The primary key of primitive_events. */
  datatype Key = Key(dataProvider: string, streamId: string, eventTime: int, createdAt: int)

  datatype Stored = Stored(value: real, truflationCreatedAt: Option<string>)

  type Table = map<Key, Stored>

  /**
   * The caller, the block height, the answers of the helper actions for one stream, and the flags in the rows that
   * their batch forms return for arrays of providers and streams.
   */
  datatype Context = Context(
    caller: string,
    height: int,
    allowed: (string, string, string) -> bool,
    exists_: (string, string) -> bool,
    isPrimitive: (string, string) -> bool,
    existsBatch: (seq<string>, seq<string>) -> seq<bool>,
    isPrimitiveBatch: (seq<string>, seq<string>) -> seq<bool>,
    allowedBatch: (seq<string>, seq<string>, string) -> seq<bool>)

  datatype InsertError = NotAllowed | NoStream | NotPrimitive | LengthMismatch | NullField | DuplicateKey

  /** The arguments of one insertion; event_time and value may be NULL. */
  datatype Record = Record(dataProvider: string, streamId: string, eventTime: Option<int>, value: Option<real>)

  function LowerChar(c: char): char {
    if 'A' <= c <= 'Z' then ((c as int) + 32) as char else c
  }

  /** LOWER, on the letters that occur in addresses. */
  function Lower(s: string): (r: string)
    ensures |r| == |s|
  {
    Map(LowerChar, s)
  }

  /** The row that an insertion at this height writes, if its columns are not NULL. */
  predicate Complete(r: Record) {
    r.eventTime.Some? && r.value.Some?
  }

  function KeyOf(ctx: Context, r: Record): Key
    requires Complete(r)
  {
    Key(Lower(r.dataProvider), r.streamId, r.eventTime.value, ctx.height)
  }

  /** INSERT of one row: the columns are NOT NULL and the key is new. */
  function Put(table: Table, ctx: Context, r: Record): Result<Table, InsertError> {
    if !Complete(r) then Err(NullField)
    else if KeyOf(ctx, r) in table then Err(DuplicateKey)
    else Ok(table[KeyOf(ctx, r) := Stored(r.value.value, None)])
  }

  predicate Allowed(ctx: Context, r: Record) {
    ctx.allowed(Lower(r.dataProvider), r.streamId, Lower(ctx.caller))
  }

  predicate Exists(ctx: Context, r: Record) {
    ctx.exists_(Lower(r.dataProvider), r.streamId)
  }

  predicate Primitive(ctx: Context, r: Record) {
    ctx.isPrimitive(Lower(r.dataProvider), r.streamId)
  }

  /** insert_record as a step of the table. */
  function One(table: Table, ctx: Context, r: Record): Result<Table, InsertError> {
    if !Allowed(ctx, r) then Err(NotAllowed)
    else if !Exists(ctx, r) then Err(NoStream)
    else if !Primitive(ctx, r) then Err(NotPrimitive)
    else Put(table, ctx, r)
  }

  /** Single insertions in order, in one transaction: the first error ends it. */
  function Singles(table: Table, ctx: Context, rs: seq<Record>): Result<Table, InsertError> {
    if rs == [] then Ok(table)
    else
      var n := |rs| - 1;
      match Singles(table, ctx, rs[..n])
      case Err(e) => Err(e)
      case Ok(t) => One(t, ctx, rs[n])
  }

  /** INSERT ... SELECT: all rows or none. */
  function PutAll(table: Table, ctx: Context, rs: seq<Record>): Result<Table, InsertError> {
    if rs == [] then Ok(table)
    else
      var n := |rs| - 1;
      match PutAll(table, ctx, rs[..n])
      case Err(e) => Err(e)
      case Ok(t) => Put(t, ctx, rs[n])
  }

  function Providers(rs: seq<Record>): seq<string> {
    Map((r: Record) => Lower(r.dataProvider), rs)
  }

  function Streams(rs: seq<Record>): seq<string> {
    Map((r: Record) => r.streamId, rs)
  }

  /** The rows that the batch helpers return for the records. */
  function ExistsRows(ctx: Context, rs: seq<Record>): seq<bool> {
    ctx.existsBatch(Providers(rs), Streams(rs))
  }

  function PrimitiveRows(ctx: Context, rs: seq<Record>): seq<bool> {
    ctx.isPrimitiveBatch(Providers(rs), Streams(rs))
  }

  function AllowedRows(ctx: Context, rs: seq<Record>): seq<bool> {
    ctx.allowedBatch(Providers(rs), Streams(rs), Lower(ctx.caller))
  }

  /** insert_records as a step of the table: a false flag in some helper row ends it. */
  function Batch(table: Table, ctx: Context, rs: seq<Record>): Result<Table, InsertError> {
    if false in ExistsRows(ctx, rs) then Err(NoStream)
    else if false in PrimitiveRows(ctx, rs) then Err(NotPrimitive)
    else if false in AllowedRows(ctx, rs) then Err(NotAllowed)
    else PutAll(table, ctx, rs)
  }

  function Zip(providers: seq<string>, streams: seq<string>, times: seq<Option<int>>, values: seq<Option<real>>): (rs: seq<Record>)
    requires |providers| == |streams| == |times| == |values|
  {
    seq(|providers|, i requires 0 <= i < |providers| => Record(providers[i], streams[i], times[i], values[i]))
  }

  // ---- The actions ------------------------------------------------------------------------------------

  /**
   * WITH RECURSIVE indexes: rows are added from the rows of the previous round until a round adds none.
   * For n records it yields 1, ..., n in order; for no record it still yields 1.
   */
  method Indexes(n: nat) returns (idx: seq<int>)
    ensures idx == Range(1, (if n == 0 then 1 else n) + 1)
  {
    idx := [1];
    var working := [1];
    while working != []
      invariant 1 <= |idx| && (n > 0 ==> |idx| <= n) && (n == 0 ==> |idx| == 1)
      invariant idx == Range(1, |idx| + 1)
      invariant working == [|idx|] || (working == [] && |idx| >= n)
      decreases n + 2 - |idx|, |working|
    {
      var next: seq<int> := [];
      for k := 0 to |working|
        invariant next == if k == 1 && working[0] < n then [working[0] + 1] else []
      {
        if working[k] < n {
          next := next + [working[k] + 1];
        }
      }
      idx := idx + next;
      working := next;
    }
  }

  class PrimitiveEvents {
    var events: Table

    constructor ()
      ensures events == map[]
    {
      events := map[];
    }

    method InsertRecord(ctx: Context, dataProvider: string, streamId: string, eventTime: Option<int>, value: Option<real>)
      returns (r: Result<(), InsertError>)
      modifies this
      ensures var after := One(old(events), ctx, Record(dataProvider, streamId, eventTime, value));
              match after
              case Ok(t) => r == Ok(()) && events == t
              case Err(e) => r == Err(e) && events == old(events)
      ensures r.Ok? ==> HasGained(events, old(events), ctx.height, [Record(dataProvider, streamId, eventTime, value)])
    {
      ghost var record := Record(dataProvider, streamId, eventTime, value);
      OneIsStored(events, ctx, record);
      hide HasGained;
      var provider, lowerCaller := Lower(dataProvider), Lower(ctx.caller);
      if !ctx.allowed(provider, streamId, lowerCaller) {
        return Err(NotAllowed);
      }
      if !ctx.exists_(provider, streamId) {
        return Err(NoStream);
      }
      if !ctx.isPrimitive(provider, streamId) {
        return Err(NotPrimitive);
      }
      r := InsertRow(provider, streamId, eventTime, value, ctx.height);
    }

    /** INSERT INTO primitive_events VALUES (...) */
    method InsertRow(dataProvider: string, streamId: string, eventTime: Option<int>, value: Option<real>, height: int)
      returns (r: Result<(), InsertError>)
      modifies this
      ensures r == if eventTime.None? || value.None? then Err(NullField)
                   else if Key(dataProvider, streamId, eventTime.value, height) in old(events) then Err(DuplicateKey)
                   else Ok(())
      ensures r.Ok? ==> events == old(events)[Key(dataProvider, streamId, eventTime.value, height) := Stored(value.value, None)]
      ensures r.Err? ==> events == old(events)
    {
      if eventTime.None? || value.None? {
        return Err(NullField);
      }
      var key := Key(dataProvider, streamId, eventTime.value, height);
      if key in events {
        return Err(DuplicateKey);
      }
      events := events[key := Stored(value.value, None)];
      r := Ok(());
    }

    method InsertRecords(ctx: Context, dataProvider: seq<string>, streamId: seq<string>,
                         eventTime: seq<Option<int>>, value: seq<Option<real>>)
      returns (r: Result<(), InsertError>)
      requires |dataProvider| >= 1
      modifies this
      ensures |dataProvider| == |streamId| == |eventTime| == |value| ==>
                match Batch(old(events), ctx, Zip(dataProvider, streamId, eventTime, value))
                case Ok(t) => r == Ok(()) && events == t
                case Err(e) => r == Err(e) && events == old(events)
      ensures !(|dataProvider| == |streamId| == |eventTime| == |value|) ==> r == Err(LengthMismatch) && events == old(events)
      ensures r.Ok? ==> |dataProvider| == |streamId| == |eventTime| == |value| &&
                        HasGained(events, old(events), ctx.height, Zip(dataProvider, streamId, eventTime, value))
    {
      hide HasGained;
      var providers := dataProvider;
      for i := 0 to |dataProvider|
        invariant |providers| == |dataProvider|
        invariant forall k :: 0 <= k < |dataProvider| ==> providers[k] == if k < i then Lower(dataProvider[k]) else dataProvider[k]
      {
        providers := providers[i := Lower(providers[i])];
      }
      var lowerCaller := Lower(ctx.caller);
      var numRecords := |providers|;
      if numRecords != |streamId| || numRecords != |eventTime| || numRecords != |value| {
        return Err(LengthMismatch);
      }
      ghost var rs := Zip(dataProvider, streamId, eventTime, value);
      assert providers == Providers(rs) && streamId == Streams(rs);
      BatchIsStored(events, ctx, rs);
      var existsRows := ctx.existsBatch(providers, streamId);
      for i := 0 to |existsRows|
        invariant forall k :: 0 <= k < i ==> existsRows[k]
      {
        if !existsRows[i] {
          return Err(NoStream);
        }
      }
      var primitiveRows := ctx.isPrimitiveBatch(providers, streamId);
      for i := 0 to |primitiveRows|
        invariant forall k :: 0 <= k < i ==> primitiveRows[k]
      {
        if !primitiveRows[i] {
          return Err(NotPrimitive);
        }
      }
      var allowedRows := ctx.allowedBatch(providers, streamId, lowerCaller);
      for i := 0 to |allowedRows|
        invariant forall k :: 0 <= k < i ==> allowedRows[k]
      {
        if !allowedRows[i] {
          return Err(NotAllowed);
        }
      }
      var indexes := Indexes(numRecords);
      r := InsertSelected(indexes, providers, streamId, eventTime, value, ctx.height, ctx, rs);
    }

    /** INSERT ... SELECT over the indexes; the statement has no effect if one of its rows is refused. */
    method InsertSelected(indexes: seq<int>, providers: seq<string>, streamIds: seq<string>, eventTimes: seq<Option<int>>,
                          values: seq<Option<real>>, height: int, ghost ctx: Context, ghost rs: seq<Record>)
      returns (r: Result<(), InsertError>)
      requires |providers| == |streamIds| == |eventTimes| == |values| == |rs| && indexes == Range(1, |rs| + 1)
      requires height == ctx.height
      requires forall k :: 0 <= k < |rs| ==> rs[k].streamId == streamIds[k] && rs[k].eventTime == eventTimes[k] &&
                                             rs[k].value == values[k] && providers[k] == Lower(rs[k].dataProvider)
      modifies this
      ensures match PutAll(old(events), ctx, rs)
              case Ok(t) => r == Ok(()) && events == t
              case Err(e) => r == Err(e) && events == old(events)
    {
      var before := events;
      for j := 0 to |indexes|
        invariant PutAll(before, ctx, rs[..j]) == Ok(events)
      {
        assert rs[..j + 1][..j] == rs[..j];
        var idx := indexes[j];
        var row := InsertRow(providers[idx - 1], streamIds[idx - 1], eventTimes[idx - 1], values[idx - 1], height);
        if row.Err? {
          FirstRefusal(before, ctx, rs, j + 1);
          events := before;
          return row;
        }
      }
      assert rs[..|rs|] == rs;
      r := Ok(());
    }
  }

  lemma OneIsStored(table: Table, ctx: Context, r: Record)
    ensures One(table, ctx, r).Ok? ==> HasGained(One(table, ctx, r).value, table, ctx.height, [r])
  {
    if One(table, ctx, r).Ok? {
      OneIsSingles(table, ctx, r);
      InsertedRows(table, One(table, ctx, r).value, ctx, [r]);
    }
  }

  lemma BatchIsStored(table: Table, ctx: Context, rs: seq<Record>)
    ensures Batch(table, ctx, rs).Ok? ==> HasGained(Batch(table, ctx, rs).value, table, ctx.height, rs)
  {
    if Batch(table, ctx, rs).Ok? {
      InsertedRows(table, Batch(table, ctx, rs).value, ctx, rs);
    }
  }

  lemma {:induction false} FirstRefusal(table: Table, ctx: Context, rs: seq<Record>, k: nat)
    requires k <= |rs| && PutAll(table, ctx, rs[..k]).Err?
    ensures PutAll(table, ctx, rs) == PutAll(table, ctx, rs[..k])
    decreases |rs|
  {
    hide Put;
    if k < |rs| {
      assert rs[..|rs| - 1][..k] == rs[..k];
      FirstRefusal(table, ctx, rs[..|rs| - 1], k);
    } else {
      assert rs[..k] == rs;
    }
  }

  // ---- A batch is its single insertions --------------------------------------------------------------------

  predicate Passes(ctx: Context, r: Record) {
    Allowed(ctx, r) && Exists(ctx, r) && Primitive(ctx, r)
  }

  lemma {:induction false} SinglesAreChecksAndPuts(table: Table, ctx: Context, rs: seq<Record>)
    ensures (forall r :: r in rs ==> Passes(ctx, r)) ==> Singles(table, ctx, rs) == PutAll(table, ctx, rs)
    ensures (exists r :: r in rs && !Passes(ctx, r)) ==> Singles(table, ctx, rs).Err?
  {
    hide Put, Allowed, Exists, Primitive;
    if rs != [] {
      var n := |rs| - 1;
      assert rs == rs[..n] + [rs[n]] && rs[n] in rs;
      SinglesAreChecksAndPuts(table, ctx, rs[..n]);
      if forall r :: r in rs ==> Passes(ctx, r) {
        assert Passes(ctx, rs[n]) && Singles(table, ctx, rs[..n]) == PutAll(table, ctx, rs[..n]);
      } else if Passes(ctx, rs[n]) {
        assert exists r :: r in rs[..n] && !Passes(ctx, r);
      }
    }
  }

  /** Which keys and values a list of complete records with distinct keys adds. */
  ghost predicate Fresh(table: Table, ctx: Context, rs: seq<Record>) {
    && (forall i :: 0 <= i < |rs| ==> Complete(rs[i]) && KeyOf(ctx, rs[i]) !in table)
    && (forall i, j :: 0 <= i < j < |rs| && Complete(rs[i]) && Complete(rs[j]) ==> KeyOf(ctx, rs[i]) != KeyOf(ctx, rs[j]))
  }

  /** The table with the rows of all records added, and nothing else changed. */
  ghost predicate IsExtension(after: Table, table: Table, ctx: Context, rs: seq<Record>) {
    && (forall k :: k in table ==> k in after && after[k] == table[k])
    && (forall r :: r in rs ==> Complete(r) && KeyOf(ctx, r) in after && after[KeyOf(ctx, r)] == Stored(r.value.value, None))
    && (forall k :: k in after ==> k in table || exists r :: r in rs && Complete(r) && KeyOf(ctx, r) == k)
  }

  lemma {:induction false} PutAllMeaning(table: Table, ctx: Context, rs: seq<Record>)
    ensures PutAll(table, ctx, rs).Ok? <==> Fresh(table, ctx, rs)
    ensures PutAll(table, ctx, rs).Ok? ==> IsExtension(PutAll(table, ctx, rs).value, table, ctx, rs)
  {
    hide KeyOf;
    if rs != [] {
      var n := |rs| - 1;
      var last := rs[n];
      PutAllMeaning(table, ctx, rs[..n]);
      assert rs == rs[..n] + [last];
      if PutAll(table, ctx, rs[..n]).Ok? {
        OneMoreFresh(PutAll(table, ctx, rs[..n]).value, table, ctx, rs[..n], last);
        if Put(PutAll(table, ctx, rs[..n]).value, ctx, last).Ok? {
          OneMoreRow(PutAll(table, ctx, rs[..n]).value, table, ctx, rs[..n], last);
        }
      } else {
        NeverFresh(table, ctx, rs[..n], last);
      }
    }
  }

  lemma NeverFresh(table: Table, ctx: Context, rs: seq<Record>, last: Record)
    requires !Fresh(table, ctx, rs)
    ensures !Fresh(table, ctx, rs + [last])
  {
    hide KeyOf;
    var all := rs + [last];
    assert forall i :: 0 <= i < |rs| ==> all[i] == rs[i];
  }

  lemma OneMoreFresh(t: Table, table: Table, ctx: Context, rs: seq<Record>, last: Record)
    requires Fresh(table, ctx, rs) && IsExtension(t, table, ctx, rs)
    ensures Put(t, ctx, last).Ok? <==> Fresh(table, ctx, rs + [last])
  {
    hide KeyOf;
    var all := rs + [last];
    assert forall i :: 0 <= i < |rs| ==> all[i] == rs[i] && rs[i] in rs;
    assert all[|rs|] == last;
    if Complete(last) && KeyOf(ctx, last) in t && KeyOf(ctx, last) !in table {
      var r :| r in rs && Complete(r) && KeyOf(ctx, r) == KeyOf(ctx, last);
      var i :| 0 <= i < |rs| && rs[i] == r;
      assert all[i] == r;
    }
  }

  lemma OneMoreRow(t: Table, table: Table, ctx: Context, rs: seq<Record>, last: Record)
    requires IsExtension(t, table, ctx, rs) && Put(t, ctx, last).Ok?
    ensures IsExtension(Put(t, ctx, last).value, table, ctx, rs + [last])
  {
    hide KeyOf;
    var all := rs + [last];
    var key := KeyOf(ctx, last);
    var after := t[key := Stored(last.value.value, None)];
    assert last in all && forall r :: r in rs ==> r in all;
    forall k | k in after && k !in table ensures exists r :: r in all && Complete(r) && KeyOf(ctx, r) == k {
      if k != key {
        var r :| r in rs && Complete(r) && KeyOf(ctx, r) == k;
      }
    }
  }

  /** Some row of some batch helper holds a false flag. */
  predicate Refused(ctx: Context, rs: seq<Record>) {
    false in ExistsRows(ctx, rs) || false in PrimitiveRows(ctx, rs) || false in AllowedRows(ctx, rs)
  }

  /** Some record fails some single check. */
  ghost predicate SomeFails(ctx: Context, rs: seq<Record>) {
    exists r :: r in rs && !Passes(ctx, r)
  }

  /**
   * A batch succeeds if and only if no helper row refuses it, no record has a NULL, and the keys are new and pairwise
   * different; then the table gains exactly the batch's rows, stamped with the block height.
   */
  lemma BatchSucceedsIff(table: Table, ctx: Context, rs: seq<Record>)
    ensures Batch(table, ctx, rs).Ok? <==> !Refused(ctx, rs) && Fresh(table, ctx, rs)
    ensures Batch(table, ctx, rs).Ok? ==> IsExtension(Batch(table, ctx, rs).value, table, ctx, rs)
  {
    hide Put, PutAll, Fresh, IsExtension, ExistsRows, PrimitiveRows, AllowedRows;
    PutAllMeaning(table, ctx, rs);
  }

  lemma SinglesSucceedIff(table: Table, ctx: Context, rs: seq<Record>)
    ensures Singles(table, ctx, rs).Ok? <==> !SomeFails(ctx, rs) && Fresh(table, ctx, rs)
  {
    hide Put, PutAll, Fresh, IsExtension, Singles, Passes;
    SinglesAreChecksAndPuts(table, ctx, rs);
    PutAllMeaning(table, ctx, rs);
  }

  /** The batch and its single insertions both fail, or both succeed with the same final table. */
  predicate Agree(table: Table, ctx: Context, rs: seq<Record>) {
    && (Batch(table, ctx, rs).Ok? <==> Singles(table, ctx, rs).Ok?)
    && (Batch(table, ctx, rs).Ok? ==> Batch(table, ctx, rs) == Singles(table, ctx, rs))
  }

  /**
   * A batch agrees with its single insertions, in order in one transaction, if and only if the rows could not be
   * inserted anyway or the helpers return a false flag exactly when some record fails a single check.
   */
  lemma AgreeIff(table: Table, ctx: Context, rs: seq<Record>)
    ensures Agree(table, ctx, rs) <==> (Fresh(table, ctx, rs) ==> (Refused(ctx, rs) <==> SomeFails(ctx, rs)))
  {
    hide Put, PutAll, Fresh, IsExtension, Singles, Passes, ExistsRows, PrimitiveRows, AllowedRows;
    BatchSucceedsIff(table, ctx, rs);
    SinglesSucceedIff(table, ctx, rs);
    SinglesAreChecksAndPuts(table, ctx, rs);
  }

  /** On every table the two agree if and only if this holds for records that fit an empty table. */
  lemma AlwaysAgreeIff(ctx: Context, rs: seq<Record>)
    ensures (forall table :: Agree(table, ctx, rs)) <==>
            (Fresh(map[], ctx, rs) ==> (Refused(ctx, rs) <==> SomeFails(ctx, rs)))
  {
    hide Agree, Refused, SomeFails, KeyOf;
    forall table ensures Agree(table, ctx, rs) <==> (Fresh(table, ctx, rs) ==> (Refused(ctx, rs) <==> SomeFails(ctx, rs))) {
      AgreeIff(table, ctx, rs);
    }
    assert forall table :: Fresh(table, ctx, rs) ==> Fresh(map[], ctx, rs);
  }

  /** The helpers answer row by row as the single checks do. */
  predicate RowByRow(ctx: Context, rs: seq<Record>) {
    && ExistsRows(ctx, rs) == Map((r: Record) => Exists(ctx, r), rs)
    && PrimitiveRows(ctx, rs) == Map((r: Record) => Primitive(ctx, r), rs)
    && AllowedRows(ctx, rs) == Map((r: Record) => Allowed(ctx, r), rs)
  }

  lemma FalseInMap(f: Record -> bool, rs: seq<Record>)
    ensures false in Map(f, rs) <==> exists r :: r in rs && !f(r)
  {
    if r :| r in rs && !f(r) {
      var k :| 0 <= k < |rs| && rs[k] == r;
      assert Map(f, rs)[k] == false;
    } else {
      assert forall k :: 0 <= k < |rs| ==> rs[k] in rs;
    }
  }

  /**
   * With helpers that answer row by row, a batch succeeds exactly when its single insertions succeed, and then
   * leaves the same table. When it fails, which error is reported may differ: the batch asks for all streams first.
   */
  lemma {:induction false} BatchIsSingles(table: Table, ctx: Context, rs: seq<Record>)
    requires RowByRow(ctx, rs)
    ensures Agree(table, ctx, rs)
  {
    hide Agree, Allowed, Exists, Primitive, Fresh, ExistsRows, PrimitiveRows, AllowedRows;
    FalseInMap((r: Record) => Exists(ctx, r), rs);
    FalseInMap((r: Record) => Primitive(ctx, r), rs);
    FalseInMap((r: Record) => Allowed(ctx, r), rs);
    AgreeIff(table, ctx, rs);
  }

  // ---- What is stored --------------------------------------------------------------------------------------------------

  /** q is p with its letters in lower case. */
  predicate IsLowered(p: string, q: string) {
    && |q| == |p|
    && forall i :: 0 <= i < |p| ==>
         && !('A' <= q[i] <= 'Z')
         && (if 'A' <= p[i] <= 'Z' then q[i] as int == p[i] as int + 32 else q[i] == p[i])
  }

  lemma LowerIsLowered(p: string, q: string)
    ensures IsLowered(p, q) <==> q == Lower(p)
  {
  }

  /** The key is that of the record at this height: provider in lower case, stream, time and height. */
  predicate IsKeyFor(k: Key, r: Record, height: int) {
    IsLowered(r.dataProvider, k.dataProvider) && k.streamId == r.streamId && r.eventTime == Some(k.eventTime) && k.createdAt == height
  }

  lemma KeyOfIsKey(k: Key, ctx: Context, r: Record)
    requires Complete(r)
    ensures IsKeyFor(k, r, ctx.height) <==> k == KeyOf(ctx, r)
  {
    hide IsLowered, Lower;
    LowerIsLowered(r.dataProvider, k.dataProvider);
  }

  /** The table has gained exactly one row per record, under its key and with its value, and nothing else has changed. */
  ghost predicate HasGained(after: Table, table: Table, height: int, rs: seq<Record>) {
    && (forall k :: k in after <==> k in table || exists r :: r in rs && IsKeyFor(k, r, height))
    && (forall k :: k in table ==> after[k] == table[k])
    && (forall k, r :: r in rs && IsKeyFor(k, r, height) ==> k !in table && r.value.Some? && k in after && after[k] == Stored(r.value.value, None))
    && (forall r :: r in rs ==> exists k :: IsKeyFor(k, r, height))
  }

  /** Insertions that succeed, in a batch or one by one, store the rows of the records. */
  lemma InsertedRows(table: Table, after: Table, ctx: Context, rs: seq<Record>)
    requires Batch(table, ctx, rs) == Ok(after) || Singles(table, ctx, rs) == Ok(after)
    ensures HasGained(after, table, ctx.height, rs)
  {
    hide Batch, Singles, KeyOf, IsKeyFor, Put, PutAll, Refused;
    BatchSucceedsIff(table, ctx, rs);
    SinglesSucceedIff(table, ctx, rs);
    SinglesAreChecksAndPuts(table, ctx, rs);
    PutAllMeaning(table, ctx, rs);
    SameRows(table, after, ctx, rs);
    forall r | r in rs ensures IsKeyFor(KeyOf(ctx, r), r, ctx.height) && KeyOf(ctx, r) !in table {
      var i :| 0 <= i < |rs| && rs[i] == r;
      assert Complete(rs[i]);
      KeyOfIsKey(KeyOf(ctx, r), ctx, r);
    }
    forall k, r | r in rs ensures IsKeyFor(k, r, ctx.height) <==> k == KeyOf(ctx, r) {
      KeyOfIsKey(k, ctx, r);
    }
  }

  lemma SameRows(table: Table, after: Table, ctx: Context, rs: seq<Record>)
    requires Batch(table, ctx, rs) == Ok(after) || Singles(table, ctx, rs) == Ok(after)
    ensures PutAll(table, ctx, rs) == Ok(after)
  {
    hide Put, Singles, PutAll, Passes;
    SinglesAreChecksAndPuts(table, ctx, rs);
  }

  predicate SameButCaseAt(c: char, d: char) {
    || c == d
    || ('A' <= c <= 'Z' && d as int == c as int + 32)
    || ('A' <= d <= 'Z' && c as int == d as int + 32)
  }

  /** The records write to the same stream and time, through providers that differ at most in the case of letters. */
  predicate SameButCase(a: Record, b: Record) {
    && a.streamId == b.streamId && a.eventTime == b.eventTime
    && |a.dataProvider| == |b.dataProvider|
    && forall i :: 0 <= i < |a.dataProvider| ==> SameButCaseAt(a.dataProvider[i], b.dataProvider[i])
  }

  lemma SameKey(k: Key, a: Record, b: Record, height: int)
    requires SameButCase(a, b) && IsKeyFor(k, a, height)
    ensures IsKeyFor(k, b, height)
  {
    assert forall i :: 0 <= i < |a.dataProvider| ==> SameButCaseAt(a.dataProvider[i], b.dataProvider[i]);
  }

  /** Two such records never enter the table at one height together, neither in a batch nor one by one. */
  lemma CaseVariantsCollide(table: Table, ctx: Context, rs: seq<Record>, i: nat, j: nat)
    requires i < j < |rs| && SameButCase(rs[i], rs[j])
    ensures Batch(table, ctx, rs).Err? && Singles(table, ctx, rs).Err?
  {
    hide Batch, Singles, SameButCase, IsKeyFor, KeyOf, Refused, SomeFails;
    BatchSucceedsIff(table, ctx, rs);
    SinglesSucceedIff(table, ctx, rs);
    if Fresh(table, ctx, rs) {
      var k := KeyOf(ctx, rs[i]);
      KeyOfIsKey(k, ctx, rs[i]);
      SameKey(k, rs[i], rs[j], ctx.height);
      KeyOfIsKey(k, ctx, rs[j]);
    }
  }

  /** Nor does the second one enter later, while the height is the same. */
  lemma LaterVariantIsRefused(table: Table, after: Table, ctx: Context, rs: seq<Record>, i: nat,
                              later: Table, ctx': Context, rs': seq<Record>, j: nat)
    requires Batch(table, ctx, rs) == Ok(after) || Singles(table, ctx, rs) == Ok(after)
    requires after.Keys <= later.Keys && ctx'.height == ctx.height
    requires i < |rs| && j < |rs'| && SameButCase(rs[i], rs'[j])
    ensures Batch(later, ctx', rs').Err? && Singles(later, ctx', rs').Err?
  {
    hide Batch, Singles, SameButCase, IsKeyFor, KeyOf, Refused, SomeFails;
    InsertedRows(table, after, ctx, rs);
    BatchSucceedsIff(later, ctx', rs');
    SinglesSucceedIff(later, ctx', rs');
    assert rs[i] in rs;
    var k :| IsKeyFor(k, rs[i], ctx.height);
    assert k in later;
    SameKey(k, rs[i], rs'[j], ctx.height);
    if Fresh(later, ctx', rs') {
      KeyOfIsKey(k, ctx', rs'[j]);
    }
  }

  /** The outcome of a single insertion: the checks in order, with provider and caller in lower case, then the columns. */
  lemma SingleOutcome(table: Table, ctx: Context, r: Record, provider: string, caller: string)
    requires IsLowered(r.dataProvider, provider) && IsLowered(ctx.caller, caller)
    ensures var o := One(table, ctx, r);
            && (o == Err(NotAllowed) <==> !ctx.allowed(provider, r.streamId, caller))
            && (o == Err(NoStream) <==> ctx.allowed(provider, r.streamId, caller) && !ctx.exists_(provider, r.streamId))
            && (o == Err(NotPrimitive) <==> ctx.allowed(provider, r.streamId, caller) && ctx.exists_(provider, r.streamId) &&
                                            !ctx.isPrimitive(provider, r.streamId))
            && (o.Ok? || o == Err(NullField) || o == Err(DuplicateKey) <==>
                ctx.allowed(provider, r.streamId, caller) && ctx.exists_(provider, r.streamId) && ctx.isPrimitive(provider, r.streamId))
            && (o.Ok? ==> HasGained(o.value, table, ctx.height, [r]))
  {
    hide IsLowered, Put, HasGained, IsKeyFor;
    LowerIsLowered(r.dataProvider, provider);
    LowerIsLowered(ctx.caller, caller);
    PutErrors(table, ctx, r);
    var o := One(table, ctx, r);
    if o.Ok? {
      OneIsSingles(table, ctx, r);
      InsertedRows(table, o.value, ctx, [r]);
    }
  }

  lemma PutErrors(table: Table, ctx: Context, r: Record)
    ensures Put(table, ctx, r).Err? ==> Put(table, ctx, r).error in {NullField, DuplicateKey}
  {
  }

  lemma OneIsSingles(table: Table, ctx: Context, r: Record)
    ensures Singles(table, ctx, [r]) == One(table, ctx, r)
  {
    assert [r][..0] == [];
  }

  /** The outcome of a batch: what the helpers say of the providers in lower case, streams first, then the columns. */
  lemma BatchOutcome(table: Table, ctx: Context, rs: seq<Record>, providers: seq<string>, streams: seq<string>, caller: string)
    requires |providers| == |streams| == |rs| && IsLowered(ctx.caller, caller)
    requires forall i :: 0 <= i < |rs| ==> IsLowered(rs[i].dataProvider, providers[i]) && streams[i] == rs[i].streamId
    ensures var o := Batch(table, ctx, rs);
            var noStream := false in ctx.existsBatch(providers, streams);
            var notPrimitive := false in ctx.isPrimitiveBatch(providers, streams);
            var notAllowed := false in ctx.allowedBatch(providers, streams, caller);
            && (o == Err(NoStream) <==> noStream)
            && (o == Err(NotPrimitive) <==> !noStream && notPrimitive)
            && (o == Err(NotAllowed) <==> !noStream && !notPrimitive && notAllowed)
            && (o.Ok? || o == Err(NullField) || o == Err(DuplicateKey) <==> !noStream && !notPrimitive && !notAllowed)
  {
    hide IsLowered;
    LowerIsLowered(ctx.caller, caller);
    forall i | 0 <= i < |rs| ensures providers[i] == Lower(rs[i].dataProvider) {
      LowerIsLowered(rs[i].dataProvider, providers[i]);
    }
    assert providers == Providers(rs) && streams == Streams(rs);
    PutAllErrors(table, ctx, rs);
  }

  lemma {:induction false} PutAllErrors(table: Table, ctx: Context, rs: seq<Record>)
    ensures PutAll(table, ctx, rs).Err? ==> PutAll(table, ctx, rs).error in {NullField, DuplicateKey}
  {
    if rs != [] {
      PutAllErrors(table, ctx, rs[..|rs| - 1]);
    }
  }

  // ---- The helpers as written ---------------------------------------------------------------------------------

  /** One true flag for every place at which both lists hold a true. */
  function BothRows(owner: seq<bool>, permission: seq<bool>): seq<bool> {
    if owner == [] || permission == [] then []
    else (if owner[0] && permission[0] then [true] else []) + BothRows(owner[1..], permission[1..])
  }

  lemma {:induction false} BothRowsSnoc(owner: seq<bool>, permission: seq<bool>, n: nat)
    requires n < |owner| && n < |permission|
    ensures BothRows(owner[..n + 1], permission) ==
            BothRows(owner[..n], permission) + (if owner[n] && permission[n] then [true] else [])
  {
    if n == 0 {
      assert owner[..1][1..] == [];
    } else {
      assert owner[..n + 1][1..] == owner[1..][..n] && owner[..n][1..] == owner[1..][..n - 1];
      BothRowsSnoc(owner[1..], permission[1..], n - 1);
    }
  }

  lemma {:induction false} BothRowsCut(owner: seq<bool>, permission: seq<bool>, n: nat)
    requires |permission| <= n <= |owner|
    ensures BothRows(owner[..n], permission) == BothRows(owner, permission)
  {
    if owner != [] && permission != [] {
      assert owner[..n][1..] == owner[1..][..n - 1];
      BothRowsCut(owner[1..], permission[1..], n - 1);
    }
  }

  /**
   * is_wallet_allowed_to_write_batch: collects one flag per row of the two helpers that it asks, and returns a row
   * only where both flags are set. Every row that it returns says true.
   */
  method WalletBatch(ownerRows: seq<bool>, permissionRows: seq<bool>) returns (rows: seq<bool>)
    ensures rows == BothRows(ownerRows, permissionRows)
    ensures false !in rows
  {
    rows := [];
    for idx := 0 to |ownerRows|
      invariant rows == BothRows(ownerRows[..idx], permissionRows)
      invariant false !in rows
    {
      if idx < |permissionRows| {
        BothRowsSnoc(ownerRows, permissionRows, idx);
        if ownerRows[idx] && permissionRows[idx] {
          rows := rows + [true];
        }
      } else {
        BothRowsCut(ownerRows, permissionRows, idx);
        BothRowsCut(ownerRows, permissionRows, idx + 1);
      }
    }
    assert ownerRows[..|ownerRows|] == ownerRows;
  }

  lemma {:induction false} BothRowsSayTrue(owner: seq<bool>, permission: seq<bool>)
    ensures false !in BothRows(owner, permission)
  {
    if owner != [] && permission != [] {
      BothRowsSayTrue(owner[1..], permission[1..]);
    }
  }

  /**
   * The helpers as they are written: stream_exists_batch returns a row per record; is_primitive_stream_batch ends in a
   * SELECT without RETURN, and selected says whether the engine hands these rows to the caller;
   * is_wallet_allowed_to_write_batch returns what WalletBatch makes of any two lists of flags.
   */
  predicate AsWritten(ctx: Context, rs: seq<Record>, selected: bool, owner: seq<bool>, permission: seq<bool>) {
    && ExistsRows(ctx, rs) == Map((r: Record) => Exists(ctx, r), rs)
    && PrimitiveRows(ctx, rs) == (if selected then Map((r: Record) => Primitive(ctx, r), rs) else [])
    && AllowedRows(ctx, rs) == BothRows(owner, permission)
  }

  /** What such a batch does check of a record. */
  predicate CheckedInBatch(ctx: Context, r: Record, selected: bool) {
    Exists(ctx, r) && (selected ==> Primitive(ctx, r))
  }

  lemma AsWrittenRefuses(ctx: Context, rs: seq<Record>, selected: bool, owner: seq<bool>, permission: seq<bool>)
    requires AsWritten(ctx, rs, selected, owner, permission)
    ensures Refused(ctx, rs) <==> exists r :: r in rs && !CheckedInBatch(ctx, r, selected)
  {
    hide Allowed, Exists, Primitive, ExistsRows, PrimitiveRows, AllowedRows, BothRows;
    FalseInMap((r: Record) => Exists(ctx, r), rs);
    FalseInMap((r: Record) => Primitive(ctx, r), rs);
    BothRowsSayTrue(owner, permission);
  }

  /**
   * With the helpers as they are written, a batch agrees with its single insertions if and only if its rows could not
   * be inserted anyway, or some record fails a check that the batch makes, or every record passes all single checks.
   */
  lemma AsWrittenAgreesIff(table: Table, ctx: Context, rs: seq<Record>, selected: bool, owner: seq<bool>, permission: seq<bool>)
    requires AsWritten(ctx, rs, selected, owner, permission)
    ensures Agree(table, ctx, rs) <==>
            !Fresh(table, ctx, rs) || (exists r :: r in rs && !CheckedInBatch(ctx, r, selected)) || (forall r :: r in rs ==> Passes(ctx, r))
  {
    hide Agree, AsWritten, Fresh, Refused, Allowed, Exists, Primitive;
    AgreeIff(table, ctx, rs);
    AsWrittenRefuses(ctx, rs, selected, owner, permission);
    if r :| r in rs && !CheckedInBatch(ctx, r, selected) {
      assert !Passes(ctx, r);
    }
  }

  /**
   * The failing family: a complete record with a new key for an existing primitive stream, whose caller the single check
   * does not allow. The single insertion is refused; the batch's own checks refuse nothing.
   */
  lemma WalletRefusedOnlySingly(table: Table, ctx: Context, r: Record, selected: bool, owner: seq<bool>, permission: seq<bool>)
    requires AsWritten(ctx, [r], selected, owner, permission)
    requires Exists(ctx, r) && Primitive(ctx, r) && !Allowed(ctx, r) && Complete(r) && KeyOf(ctx, r) !in table
    ensures Singles(table, ctx, [r]) == Err(NotAllowed)
    ensures Batch(table, ctx, [r]) == Ok(table[KeyOf(ctx, r) := Stored(r.value.value, None)])
  {
    var rs := [r];
    assert rs[..0] == [];
    AsWrittenRefuses(ctx, rs, selected, owner, permission);
    hide AsWritten, Exists, Primitive, Allowed, KeyOf, ExistsRows, PrimitiveRows, AllowedRows;
    assert !Refused(ctx, rs);
    assert PutAll(table, ctx, rs[..0]) == Ok(table) && Singles(table, ctx, rs[..0]) == Ok(table);
  }

  /** An input of that family. */
  lemma WalletRefusedOnlySinglyExample()
    ensures var ctx := Context("0xb", 7, (p, s, w) => false, (p, s) => true, (p, s) => true,
                               (ps, ss) => Map((s: string) => true, ss), (ps, ss) => Map((s: string) => true, ss),
                               (ps, ss, w) => BothRows([false], [false]));
            var r := Record("0xa", "st", Some(1), Some(2.0));
            && Singles(map[], ctx, [r]) == Err(NotAllowed)
            && Batch(map[], ctx, [r]) == Ok(map[Key("0xa", "st", 1, 7) := Stored(2.0, None)])
  {
    var ctx := Context("0xb", 7, (p, s, w) => false, (p, s) => true, (p, s) => true,
                       (ps, ss) => Map((s: string) => true, ss), (ps, ss) => Map((s: string) => true, ss),
                       (ps, ss, w) => BothRows([false], [false]));
    var r := Record("0xa", "st", Some(1), Some(2.0));
    assert Lower("0xa") == "0xa";
    assert AsWritten(ctx, [r], true, [false], [false]);
    WalletRefusedOnlySingly(map[], ctx, r, true, [false], [false]);
  }

  /** The order of the records does not matter to a batch that no helper refuses. */
  lemma BatchInAnyOrder(table: Table, ctx: Context, rs: seq<Record>, other: seq<Record>)
    requires multiset(rs) == multiset(other) && Batch(table, ctx, rs).Ok? && !Refused(ctx, other)
    ensures Batch(table, ctx, other) == Batch(table, ctx, rs)
  {
    hide Put, PutAll, Batch, KeyOf, Complete, Refused;
    BatchSucceedsIff(table, ctx, rs);
    BatchSucceedsIff(table, ctx, other);
    forall r | r in other ensures r in rs {
      assert r in multiset(other);
    }
    forall r | r in rs ensures r in other {
      assert r in multiset(rs);
    }
    StillFresh(table, ctx, rs, other);
    var t, u := Batch(table, ctx, rs).value, Batch(table, ctx, other).value;
    SameExtension(t, u, table, ctx, rs, other);
  }

  lemma StillFresh(table: Table, ctx: Context, rs: seq<Record>, other: seq<Record>)
    requires multiset(rs) == multiset(other) && Fresh(table, ctx, rs)
    ensures Fresh(table, ctx, other)
  {
    hide KeyOf;
    forall i | 0 <= i < |other| ensures Complete(other[i]) && KeyOf(ctx, other[i]) !in table {
      assert other[i] in multiset(rs);
    }
    forall i, j | 0 <= i < j < |other| ensures KeyOf(ctx, other[i]) != KeyOf(ctx, other[j]) {
      DistinctPlaces(rs, other, i, j);
      var p, q :| 0 <= p < |rs| && 0 <= q < |rs| && p != q && rs[p] == other[i] && rs[q] == other[j];
      assert p < q || q < p;
    }
  }

  lemma SameExtension(t: Table, u: Table, table: Table, ctx: Context, rs: seq<Record>, other: seq<Record>)
    requires IsExtension(t, table, ctx, rs) && IsExtension(u, table, ctx, other)
    requires forall r :: r in rs <==> r in other
    ensures t == u
  {
    hide KeyOf;
    assert t.Keys == u.Keys;
  }
}
