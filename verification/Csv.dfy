/**
 * Saving, appending and loading record types as CSV (internal/benchmark/benchexport/csv.go). A file is the
 * list of its records, a struct type is the list of its fields, and a struct is the list of their values.
 */
module Csv {
  import opened Wrappers
  import opened Sequences
  import opened Text
  import opened Results

  /** reflect.Kind, for the kinds that setField distinguishes; floating-point kinds are not modelled. */
  datatype Kind = String | Int(width: Width) | Uint(width: Width) | Bool | Other

  datatype Width = Bits8 | Bits16 | Bits32 | Bits64

  /** A struct field with the text of its json tag. */
  datatype Field = Field(tag: string, kind: Kind)

  datatype Value = Str(str: string) | Signed(signed: int) | Unsigned(unsigned: nat) | Truth(truth: bool) | Opaque(printed: string)

  datatype CsvError = NoTags | Empty | FieldCount | NotANumber(reason: NumberError) | NotABool | UnsupportedKind

  predicate Tagged(f: Field) {
    f.tag != "" && f.tag != "-"
  }

  /** The tag up to its first comma. */
  function Name(f: Field): string {
    Split(f.tag, ',')[0]
  }

  /** How many numbers a width can tell apart. */
  function Modulus(w: Width): int {
    match w
    case Bits8 => 0x100
    case Bits16 => 0x1_0000
    case Bits32 => 0x1_0000_0000
    case Bits64 => TWO_64
  }

  predicate Fits(v: Value, k: Kind) {
    match k
    case String => v.Str?
    case Int(w) => v.Signed? && -Modulus(w) <= 2 * v.signed < Modulus(w)
    case Uint(w) => v.Unsigned? && v.unsigned < Modulus(w)
    case Bool => v.Truth?
    case Other => v.Opaque?
  }

  /** A struct of the type: one fitting value per field. */
  predicate IsStruct(item: seq<Value>, fields: seq<Field>) {
    |item| == |fields| && forall i :: 0 <= i < |fields| ==> Fits(item[i], fields[i].kind)
  }

  /** The zero value of a new struct's field. */
  function Zero(k: Kind): Value {
    match k
    case String => Str("")
    case Int(_) => Signed(0)
    case Uint(_) => Unsigned(0)
    case Bool => Truth(false)
    case Other => Opaque("")
  }

  /** fmt.Sprintf("%v", ...) */
  function Show(v: Value): string {
    match v
    case Str(s) => s
    case Signed(n) => IntString(n)
    case Unsigned(n) => NatString(n)
    case Truth(b) => if b then "true" else "false"
    case Opaque(printed) => printed
  }

  /** reflect's SetInt keeps the low bits of the parsed number. */
  function Wrapped(n: int, w: Width): int {
    var m := n % Modulus(w);
    if 2 * m >= Modulus(w) then m - Modulus(w) else m
  }

  const TRUE_WORDS := ["1", "t", "T", "TRUE", "true", "True"]
  const FALSE_WORDS := ["0", "f", "F", "FALSE", "false", "False"]

  function ParseBool(s: string): Result<bool, CsvError> {
    if s in TRUE_WORDS then Ok(true) else if s in FALSE_WORDS then Ok(false) else Err(NotABool)
  }

  function SetField(k: Kind, s: string): Result<Value, CsvError> {
    match k
    case String => Ok(Str(s))
    case Int(w) =>
      (match ParseInt(s)
       case Err(e) => Err(NotANumber(e))
       case Ok(n) => Ok(Signed(Wrapped(n, w))))
    case Uint(w) =>
      (match ParseUint(s)
       case Err(e) => Err(NotANumber(e))
       case Ok(n) => Ok(Unsigned(n % Modulus(w))))
    case Bool =>
      (match ParseBool(s)
       case Err(e) => Err(e)
       case Ok(b) => Ok(Truth(b)))
    case Other => Err(UnsupportedKind)
  }

  // ---- Saving ---------------------------------------------------------------------------------------

  function Header(fields: seq<Field>): seq<string> {
    if fields == [] then []
    else
      var n := |fields| - 1;
      Header(fields[..n]) + (if Tagged(fields[n]) then [Name(fields[n])] else [])
  }

  function Cells(fields: seq<Field>, item: seq<Value>): seq<string>
    requires |item| == |fields|
  {
    if fields == [] then []
    else
      var n := |fields| - 1;
      Cells(fields[..n], item[..n]) + (if Tagged(fields[n]) then [Show(item[n])] else [])
  }

  method GetHeader(fields: seq<Field>) returns (r: Result<seq<string>, CsvError>)
    ensures r == if Header(fields) == [] then Err(NoTags) else Ok(Header(fields))
  {
    var header: seq<string> := [];
    for i := 0 to |fields|
      invariant header == Header(fields[..i])
    {
      assert fields[..i + 1][..i] == fields[..i];
      if !Tagged(fields[i]) {
        continue;
      }
      header := header + [Name(fields[i])];
    }
    assert fields[..|fields|] == fields;
    r := if |header| == 0 then Err(NoTags) else Ok(header);
  }

  method GetRow(fields: seq<Field>, item: seq<Value>) returns (row: seq<string>)
    requires |item| == |fields|
    ensures row == Cells(fields, item)
  {
    row := [];
    for i := 0 to |fields|
      invariant row == Cells(fields[..i], item[..i])
    {
      assert fields[..i + 1][..i] == fields[..i] && item[..i + 1][..i] == item[..i];
      if !Tagged(fields[i]) {
        continue;
      }
      row := row + [Show(item[i])];
    }
    assert fields[..|fields|] == fields && item[..|item|] == item;
  }

  ghost predicate AreWide(items: seq<seq<Value>>, fields: seq<Field>) {
    forall item :: item in items ==> |item| == |fields|
  }

  ghost predicate AreStructs(items: seq<seq<Value>>, fields: seq<Field>) {
    forall item :: item in items ==> IsStruct(item, fields)
  }

  function Rows(fields: seq<Field>, items: seq<seq<Value>>): (rows: seq<seq<string>>)
    requires AreWide(items, fields)
    ensures |rows| == |items| && forall k :: 0 <= k < |items| ==> rows[k] == Cells(fields, items[k])
  {
    seq(|items|, k requires 0 <= k < |items| => Cells(fields, items[k]))
  }

  /** The records of the file after saving to it; nothing is written when the type has no usable tag. */
  function Saved(records: seq<seq<string>>, fields: seq<Field>, items: seq<seq<Value>>): seq<seq<string>>
    requires AreWide(items, fields)
  {
    if records != [] then records + Rows(fields, items)
    else if Header(fields) == [] then []
    else [Header(fields)] + Rows(fields, items)
  }

  class CsvFile {
    var records: seq<seq<string>>

    constructor ()
      ensures records == []
    {
      records := [];
    }

    method SaveOrAppend(fields: seq<Field>, data: seq<seq<Value>>) returns (r: Result<(), CsvError>)
      requires AreWide(data, fields)
      modifies this
      ensures records == Saved(old(records), fields, data)
      ensures r == if old(records) == [] && Header(fields) == [] then Err(NoTags) else Ok(())
    {
      if |records| == 0 {
        var header := GetHeader(fields);
        if header.Err? {
          return Err(header.error);
        }
        records := records + [header.value];
      }
      ghost var before := records;
      for k := 0 to |data|
        invariant records == before + Rows(fields, data[..k])
      {
        assert data[..k + 1][..k] == data[..k] && data[k] in data;
        var row := GetRow(fields, data[k]);
        records := records + [row];
      }
      assert data[..|data|] == data;
      r := Ok(());
    }
  }

  // ---- Loading --------------------------------------------------------------------------------------

  /** headerMap: for a repeated name the last column wins. */
  function HeaderMap(header: seq<string>): (m: map<string, nat>)
    ensures forall h :: h in m <==> h in header
    ensures forall h :: h in m ==> m[h] < |header| && header[m[h]] == h
  {
    if header == [] then map[]
    else
      var n := |header| - 1;
      assert header == header[..n] + [header[n]];
      HeaderMap(header[..n])[header[n] := n]
  }

  function LoadCell(f: Field, columns: map<string, nat>, record: seq<string>): Result<Value, CsvError> {
    if Tagged(f) && Name(f) in columns && columns[Name(f)] < |record| then SetField(f.kind, record[columns[Name(f)]])
    else Ok(Zero(f.kind))
  }

  /** The struct read from a record, or the error of its first bad field. */
  function LoadStruct(fields: seq<Field>, columns: map<string, nat>, record: seq<string>): Result<seq<Value>, CsvError> {
    if fields == [] then Ok([])
    else
      var n := |fields| - 1;
      match LoadStruct(fields[..n], columns, record)
      case Err(e) => Err(e)
      case Ok(item) =>
        match LoadCell(fields[n], columns, record)
        case Err(e) => Err(e)
        case Ok(v) => Ok(item + [v])
  }

  function LoadAll(fields: seq<Field>, columns: map<string, nat>, records: seq<seq<string>>): Result<seq<seq<Value>>, CsvError> {
    if records == [] then Ok([])
    else
      var n := |records| - 1;
      match LoadAll(fields, columns, records[..n])
      case Err(e) => Err(e)
      case Ok(items) =>
        match LoadStruct(fields, columns, records[n])
        case Err(e) => Err(e)
        case Ok(item) => Ok(items + [item])
  }

  /** encoding/csv refuses a record whose length differs from the first one's. */
  predicate Ragged(records: seq<seq<string>>) {
    exists k :: 0 <= k < |records| && |records[k]| != |records[0]|
  }

  function Loaded(fields: seq<Field>, records: seq<seq<string>>): Result<seq<seq<Value>>, CsvError> {
    if Ragged(records) then Err(FieldCount)
    else if records == [] then Err(Empty)
    else LoadAll(fields, HeaderMap(records[0]), records[1..])
  }

  method LoadItem(fields: seq<Field>, headerMap: map<string, nat>, record: seq<string>) returns (r: Result<seq<Value>, CsvError>)
    ensures r == LoadStruct(fields, headerMap, record)
  {
    var item: seq<Value> := [];
    for i := 0 to |fields|
      invariant LoadStruct(fields[..i], headerMap, record) == Ok(item)
    {
      hide SetField;
      assert fields[..i + 1][..i] == fields[..i];
      var value := Zero(fields[i].kind);
      if Tagged(fields[i]) {
        var tagName := Name(fields[i]);
        if tagName in headerMap && headerMap[tagName] < |record| {
          var parsed := SetField(fields[i].kind, record[headerMap[tagName]]);
          if parsed.Err? {
            FirstError(fields, headerMap, record, i + 1);
            return Err(parsed.error);
          }
          value := parsed.value;
        }
      }
      item := item + [value];
    }
    assert fields[..|fields|] == fields;
    r := Ok(item);
  }

  /** An error in a prefix of the fields is the error of all of them. */
  lemma {:induction false} FirstError(fields: seq<Field>, columns: map<string, nat>, record: seq<string>, i: nat)
    requires i <= |fields| && LoadStruct(fields[..i], columns, record).Err?
    ensures LoadStruct(fields, columns, record) == LoadStruct(fields[..i], columns, record)
    decreases |fields|
  {
    hide LoadCell;
    if i < |fields| {
      var n := |fields| - 1;
      assert fields[..n][..i] == fields[..i];
      FirstError(fields[..n], columns, record, i);
    } else {
      assert fields[..i] == fields;
    }
  }

  lemma {:induction false} FirstBadRecord(fields: seq<Field>, columns: map<string, nat>, records: seq<seq<string>>, k: nat)
    requires k <= |records| && LoadAll(fields, columns, records[..k]).Err?
    ensures LoadAll(fields, columns, records) == LoadAll(fields, columns, records[..k])
    decreases |records|
  {
    hide LoadStruct;
    if k < |records| {
      var n := |records| - 1;
      assert records[..n][..k] == records[..k];
      FirstBadRecord(fields, columns, records[..n], k);
    } else {
      assert records[..k] == records;
    }
  }

  method LoadCSV(fields: seq<Field>, file: seq<seq<string>>) returns (r: Result<seq<seq<Value>>, CsvError>)
    ensures r == Loaded(fields, file)
  {
    if Ragged(file) {
      return Err(FieldCount);
    }
    if |file| < 1 {
      return Err(Empty);
    }
    var header, records := file[0], file[1..];
    var headerMap: map<string, nat> := map[];
    for i := 0 to |header|
      invariant headerMap == HeaderMap(header[..i])
    {
      assert header[..i + 1][..i] == header[..i];
      headerMap := headerMap[header[i] := i];
    }
    assert header[..|header|] == header;
    var data: seq<seq<Value>> := [];
    for k := 0 to |records|
      invariant LoadAll(fields, headerMap, records[..k]) == Ok(data)
    {
      hide LoadStruct;
      assert records[..k + 1][..k] == records[..k];
      var item := LoadItem(fields, headerMap, records[k]);
      if item.Err? {
        FirstBadRecord(fields, headerMap, records, k + 1);
        return Err(item.error);
      }
      data := data + [item.value];
    }
    assert records[..|records|] == records;
    r := Ok(data);
  }

  // ---- Loading undoes saving --------------------------------------------------------------------------

  lemma WrapsToItself(n: int, w: Width)
    requires -Modulus(w) <= 2 * n < Modulus(w)
    ensures Wrapped(n, w) == n
  {
    match w {
      case Bits8 =>
      case Bits16 =>
      case Bits32 =>
      case Bits64 =>
    }
  }

  lemma BoolWords(b: bool)
    ensures ParseBool(Show(Truth(b))) == Ok(b)
  {
    assert "true" in TRUE_WORDS && "false" in FALSE_WORDS && "false" !in TRUE_WORDS;
  }

  /** A value that fits its field is read back from what it prints as, unless the kind cannot be read at all. */
  lemma SetFieldOfShow(v: Value, k: Kind)
    requires Fits(v, k)
    ensures SetField(k, Show(v)) == if k.Other? then Err(UnsupportedKind) else Ok(v)
  {
    hide ParseInt, ParseUint, ParseBool, IntString, NatString, Wrapped;
    match k {
      case Int(w) =>
        ParseIntOfIntString(v.signed);
        WrapsToItself(v.signed, w);
      case Uint(w) => ParseUintOfNatString(v.unsigned);
      case Bool => BoolWords(v.truth);
      case String =>
      case Other =>
    }
  }

  /** The column of a tagged field. */
  lemma {:induction false} ColumnOf(fields: seq<Field>, item: seq<Value>, i: nat)
    requires |item| == |fields| && i < |fields| && Tagged(fields[i])
    ensures |Cells(fields, item)| == |Header(fields)| && |Header(fields[..i])| < |Header(fields)|
    ensures Header(fields)[|Header(fields[..i])|] == Name(fields[i])
    ensures Cells(fields, item)[|Header(fields[..i])|] == Show(item[i])
  {
    hide Show, Name;
    var n := |fields| - 1;
    SameWidth(fields[..n], item[..n]);
    if i < n {
      assert fields[..n][..i] == fields[..i];
      ColumnOf(fields[..n], item[..n], i);
    }
  }

  /** How many of the first n fields have a tag other than "" and "-". */
  function UsableTags(fields: seq<Field>, n: nat): nat
    requires n <= |fields|
  {
    if n == 0 then 0
    else UsableTags(fields, n - 1) + (if fields[n - 1].tag == "" || fields[n - 1].tag == "-" then 0 else 1)
  }

  /**
   * Exactly the fields whose tag is neither empty nor "-" have a column, in field order: under the tag's text up to its
   * first comma, with what the value prints as.
   */
  lemma ColumnsAre(fields: seq<Field>, item: seq<Value>)
    requires |item| == |fields|
    ensures |Header(fields)| == |Cells(fields, item)| == UsableTags(fields, |fields|)
    ensures forall i :: 0 <= i < |fields| && fields[i].tag != "" && fields[i].tag != "-" ==>
              var c := UsableTags(fields, i);
              && c < |Header(fields)| && Cells(fields, item)[c] == Show(item[i])
              && ',' !in Header(fields)[c] && (fields[i].tag == Header(fields)[c] || Header(fields)[c] + "," <= fields[i].tag)
  {
    SameWidth(fields, item);
    HeaderSize(fields, |fields|);
    assert fields[..|fields|] == fields;
    hide Show, Name, Header, Cells, UsableTags;
    forall i | 0 <= i < |fields| && fields[i].tag != "" && fields[i].tag != "-"
      ensures var c := UsableTags(fields, i);
              && c < |Header(fields)| && Cells(fields, item)[c] == Show(item[i])
              && ',' !in Header(fields)[c] && (fields[i].tag == Header(fields)[c] || Header(fields)[c] + "," <= fields[i].tag)
    {
      ColumnOf(fields, item, i);
      HeaderSize(fields, i);
      NameIs(fields[i]);
    }
  }

  lemma {:induction false} HeaderSize(fields: seq<Field>, n: nat)
    requires n <= |fields|
    ensures |Header(fields[..n])| == UsableTags(fields, n)
  {
    if n > 0 {
      HeaderSize(fields, n - 1);
      assert fields[..n][..n - 1] == fields[..n - 1];
    }
  }

  lemma NameIs(f: Field)
    ensures ',' !in Name(f) && (f.tag == Name(f) || Name(f) + "," <= f.tag)
  {
    FirstPart(f.tag, ',');
    assert Split(f.tag, ',')[0] in Split(f.tag, ',');
  }

  lemma {:induction false} FirstPart(s: string, sep: char)
    ensures s == Split(s, sep)[0] || Split(s, sep)[0] + [sep] <= s
  {
    if s != "" && s[0] != sep {
      FirstPart(s[1..], sep);
      assert s == [s[0]] + s[1..];
      var first := Split(s[1..], sep)[0];
      assert [s[0]] + first + [sep] == [s[0]] + (first + [sep]);
    }
  }

  /** What the fields without a usable tag print as after loading: nothing, 0 or false. */
  lemma ZeroPrints(k: Kind)
    ensures Fits(Zero(k), k)
    ensures Show(Zero(k)) == match k case Int(_) => "0" case Uint(_) => "0" case Bool => "false" case _ => ""
  {
  }

  /** The texts that are read as a truth value. */
  lemma TruthTexts(s: string)
    ensures SetField(Bool, s) == Ok(Truth(true)) <==> s in {"1", "t", "T", "true", "TRUE", "True"}
    ensures SetField(Bool, s) == Ok(Truth(false)) <==> s in {"0", "f", "F", "false", "FALSE", "False"}
    ensures SetField(Bool, s).Err? ==> SetField(Bool, s).error == NotABool
  {
    assert "1" in TRUE_WORDS && "t" in TRUE_WORDS && "T" in TRUE_WORDS && "true" in TRUE_WORDS && "TRUE" in TRUE_WORDS && "True" in TRUE_WORDS;
    assert "0" in FALSE_WORDS && "f" in FALSE_WORDS && "F" in FALSE_WORDS && "false" in FALSE_WORDS && "FALSE" in FALSE_WORDS &&
           "False" in FALSE_WORDS;
  }

  lemma {:induction false} SameWidth(fields: seq<Field>, item: seq<Value>)
    requires |item| == |fields|
    ensures |Cells(fields, item)| == |Header(fields)|
  {
    if fields != [] {
      var n := |fields| - 1;
      SameWidth(fields[..n], item[..n]);
    }
  }

  /** What a round trip keeps of a struct: fields without a usable tag come back as zero. */
  function Kept(fields: seq<Field>, item: seq<Value>): (r: seq<Value>)
    ensures |r| == |item|
  {
    seq(|item|, i requires 0 <= i < |item| =>
      if i < |fields| && (fields[i].tag == "" || fields[i].tag == "-") then Zero(fields[i].kind) else item[i])
  }

  function KeptAll(fields: seq<Field>, items: seq<seq<Value>>): (r: seq<seq<Value>>)
    ensures |r| == |items| && forall k :: 0 <= k < |items| ==> r[k] == Kept(fields, items[k])
  {
    seq(|items|, k requires 0 <= k < |items| => Kept(fields, items[k]))
  }

  predicate Readable(fields: seq<Field>) {
    forall f :: f in fields && f.tag != "" && f.tag != "-" ==> !f.kind.Other?
  }

  /** The cell that a field finds in its own struct's record. */
  lemma {:induction false} OwnCell(fields: seq<Field>, item: seq<Value>, i: nat)
    requires NoDup(Header(fields)) && IsStruct(item, fields) && i < |fields|
    ensures LoadCell(fields[i], HeaderMap(Header(fields)), Cells(fields, item)) ==
            if fields[i].tag != "" && fields[i].tag != "-" && fields[i].kind.Other? then Err(UnsupportedKind)
            else Ok(Kept(fields, item)[i])
  {
    hide Show, Name, SetField, Fits, Header, Cells;
    if Tagged(fields[i]) {
      ColumnOf(fields, item, i);
      SetFieldOfShow(item[i], fields[i].kind);
      var column := |Header(fields[..i])|;
      assert Header(fields)[column] in Header(fields);
      assert HeaderMap(Header(fields))[Name(fields[i])] == column;
    }
  }

  lemma StructStep(fields: seq<Field>, columns: map<string, nat>, record: seq<string>, n: nat)
    requires n < |fields|
    ensures LoadStruct(fields[..n + 1], columns, record) ==
            match LoadStruct(fields[..n], columns, record)
            case Err(e) => Err(e)
            case Ok(item) => (match LoadCell(fields[n], columns, record) case Err(e) => Err(e) case Ok(v) => Ok(item + [v]))
  {
    hide LoadCell;
    assert fields[..n + 1][..n] == fields[..n];
  }

  lemma {:induction false} OwnStruct(fields: seq<Field>, item: seq<Value>, n: nat)
    requires NoDup(Header(fields)) && IsStruct(item, fields) && n <= |fields|
    ensures LoadStruct(fields[..n], HeaderMap(Header(fields)), Cells(fields, item)) ==
            if Readable(fields[..n]) then Ok(Kept(fields, item)[..n]) else Err(UnsupportedKind)
  {
    hide LoadCell, Header, Cells, HeaderMap, NoDup, Fits, Tagged, Kept, Readable, LoadStruct;
    var kept := Kept(fields, item);
    if n > 0 {
      OwnStruct(fields, item, n - 1);
      OwnCell(fields, item, n - 1);
      StructStep(fields, HeaderMap(Header(fields)), Cells(fields, item), n - 1);
      ReadableSnoc(fields, n - 1);
      assert kept[..n] == kept[..n - 1] + [kept[n - 1]];
    } else {
      NoFields(fields, HeaderMap(Header(fields)), Cells(fields, item));
      assert kept[..0] == [];
    }
  }

  lemma ReadableSnoc(fields: seq<Field>, n: nat)
    requires n < |fields|
    ensures Readable(fields[..n + 1]) <==>
            Readable(fields[..n]) && !(fields[n].tag != "" && fields[n].tag != "-" && fields[n].kind.Other?)
  {
    assert fields[..n + 1] == fields[..n] + [fields[n]];
  }

  lemma NoFields(fields: seq<Field>, columns: map<string, nat>, record: seq<string>)
    ensures Readable(fields[..0]) && LoadStruct(fields[..0], columns, record) == Ok([])
  {
    assert fields[..0] == [];
  }

  lemma {:induction false} OwnRows(fields: seq<Field>, items: seq<seq<Value>>)
    requires NoDup(Header(fields)) && AreStructs(items, fields)
    ensures LoadAll(fields, HeaderMap(Header(fields)), Rows(fields, items)) ==
            if Readable(fields) || items == [] then Ok(KeptAll(fields, items))
            else Err(UnsupportedKind)
  {
    hide Header, Cells, HeaderMap, NoDup, LoadStruct, Readable, Kept, Fits;
    if items != [] {
      var n := |items| - 1;
      var last := items[n];
      assert last in items && IsStruct(last, fields);
      OwnRows(fields, items[..n]);
      OwnStruct(fields, last, |fields|);
      assert fields[..|fields|] == fields && Kept(fields, last)[..|fields|] == Kept(fields, last);
      assert Rows(fields, items)[..n] == Rows(fields, items[..n]);
      assert KeptAll(fields, items) == KeptAll(fields, items[..n]) + [Kept(fields, last)];
    }
  }

  /** A run of saves into an absent file. */
  function SavedRuns(fields: seq<Field>, batches: seq<seq<seq<Value>>>): seq<seq<string>>
    requires forall batch :: batch in batches ==> AreWide(batch, fields)
  {
    if batches == [] then []
    else
      var n := |batches| - 1;
      assert forall batch :: batch in batches[..n] ==> batch in batches;
      assert batches[n] in batches;
      Saved(SavedRuns(fields, batches[..n]), fields, batches[n])
  }

  function Concat<A>(xss: seq<seq<A>>): seq<A> {
    if xss == [] then [] else Concat(xss[..|xss| - 1]) + xss[|xss| - 1]
  }

  lemma {:induction false} ConcatMember<A>(xss: seq<seq<A>>, x: A)
    requires x in Concat(xss)
    ensures exists xs :: xs in xss && x in xs
  {
    var n := |xss| - 1;
    assert xss == xss[..n] + [xss[n]];
    if x !in xss[n] {
      ConcatMember(xss[..n], x);
    }
  }

  lemma {:induction false} RowsConcat(fields: seq<Field>, xs: seq<seq<Value>>, ys: seq<seq<Value>>)
    requires AreWide(xs, fields) && AreWide(ys, fields)
    ensures AreWide(xs + ys, fields)
    ensures Rows(fields, xs + ys) == Rows(fields, xs) + Rows(fields, ys)
  {
    hide Cells;
    assert forall item :: item in xs || item in ys ==> item in xs + ys;
  }

  /** The header stands once, at the top, whatever the batches; the rows follow in order. */
  lemma {:induction false} HeaderOnce(fields: seq<Field>, batches: seq<seq<seq<Value>>>)
    requires forall batch :: batch in batches ==> AreWide(batch, fields)
    requires batches != [] && Header(fields) != []
    ensures AreWide(Concat(batches), fields)
    ensures SavedRuns(fields, batches) == [Header(fields)] + Rows(fields, Concat(batches))
  {
    hide Header, Rows, Concat, AreWide, Saved;
    ConcatWide(fields, batches);
    var n := |batches| - 1;
    assert batches[n] in batches;
    if n == 0 {
      NoRows(fields, batches);
      SavedAfter([], fields, batches[n]);
    } else {
      HeaderOnce(fields, batches[..n]);
      ConcatLast(batches);
      RowsConcat(fields, Concat(batches[..n]), batches[n]);
      SavedAfter(SavedRuns(fields, batches[..n]), fields, batches[n]);
      Append([Header(fields)], Rows(fields, Concat(batches[..n])), Rows(fields, batches[n]));
    }
  }

  lemma Append<A>(xs: seq<A>, ys: seq<A>, zs: seq<A>)
    ensures (xs + ys) + zs == xs + (ys + zs)
  {
  }

  lemma SavedAfter(records: seq<seq<string>>, fields: seq<Field>, items: seq<seq<Value>>)
    requires AreWide(items, fields) && Header(fields) != []
    ensures Saved(records, fields, items) == (if records == [] then [Header(fields)] else records) + Rows(fields, items)
  {
    hide Header, Rows, AreWide;
  }

  lemma ConcatWide(fields: seq<Field>, batches: seq<seq<seq<Value>>>)
    requires forall batch :: batch in batches ==> AreWide(batch, fields)
    ensures AreWide(Concat(batches), fields)
  {
    forall item | item in Concat(batches) ensures |item| == |fields| {
      ConcatMember(batches, item);
    }
  }

  lemma ConcatLast<A>(xss: seq<seq<A>>)
    requires xss != []
    ensures Concat(xss) == Concat(xss[..|xss| - 1]) + xss[|xss| - 1]
  {
  }

  lemma NoRows(fields: seq<Field>, batches: seq<seq<seq<Value>>>)
    requires |batches| == 1 && AreWide(batches[0], fields)
    ensures Concat(batches) == batches[0]
    ensures batches[..0] == [] && SavedRuns(fields, batches[..0]) == []
  {
    assert batches[..0] == [];
    assert Concat<seq<Value>>([]) + batches[0] == batches[0];
  }

  /**
   * Loading after any run of saves gives the concatenation of what was saved, up to fields without a usable
   * tag. It fails exactly when a tagged field has a kind that cannot be read and some struct was saved.
   */
  lemma LoadAfterSaves(fields: seq<Field>, batches: seq<seq<seq<Value>>>)
    requires batches != [] && Header(fields) != [] && NoDup(Header(fields))
    requires forall batch :: batch in batches ==> AreStructs(batch, fields) && AreWide(batch, fields)
    ensures var items := Concat(batches);
            Loaded(fields, SavedRuns(fields, batches)) ==
            if Readable(fields) || items == [] then Ok(KeptAll(fields, items))
            else Err(UnsupportedKind)
  {
    hide Header, HeaderMap, Cells, LoadAll, NoDup, Readable, Kept, Concat, Fits;
    var items := Concat(batches);
    forall item | item in items ensures IsStruct(item, fields) {
      ConcatMember(batches, item);
    }
    HeaderOnce(fields, batches);
    var records := SavedRuns(fields, batches);
    forall k | 0 <= k < |records| ensures |records[k]| == |Header(fields)| {
      if k > 0 {
        assert items[k - 1] in items;
        SameWidth(fields, items[k - 1]);
      }
    }
    assert records[1..] == Rows(fields, items);
    OwnRows(fields, items);
  }

  // ---- The benchmark's own record type ------------------------------------------------------------------

  const PROCEDURE := Field("procedure", String)
  const BRANCHING_FACTOR := Field("branching_factor", Int(Bits64))
  const QTY_STREAMS := Field("qty_streams", Int(Bits64))
  const DATA_POINTS := Field("data_points", Int(Bits64))
  const DURATION_MS := Field("duration_ms", Int(Bits64))
  const VISIBILITY := Field("visibility", String)
  const SAMPLES := Field("samples", Int(Bits64))
  const UNIX_ONLY := Field("unix_only", Bool)

  const RESULT_FIELDS :=
    [PROCEDURE, BRANCHING_FACTOR, QTY_STREAMS, DATA_POINTS, DURATION_MS, VISIBILITY, SAMPLES, UNIX_ONLY]

  function ToStruct(r: SavedResults): seq<Value> {
    [Str(r.procedure), Signed(r.branchingFactor), Signed(r.qtyStreams), Signed(r.dataPoints),
     Signed(r.durationMs), Str(r.visibility), Signed(r.samples), Truth(r.unixOnly)]
  }

  function ToStructs(rs: seq<SavedResults>): (items: seq<seq<Value>>)
    ensures |items| == |rs| && forall k :: 0 <= k < |rs| ==> items[k] == ToStruct(rs[k])
  {
    Map(ToStruct, rs)
  }

  /** A field whose tag is its column name. */
  predicate Plain(f: Field) {
    |f.tag| >= 2 && ',' !in f.tag && !f.kind.Other?
  }

  lemma PlainName(f: Field)
    requires Plain(f)
    ensures Tagged(f) && Name(f) == f.tag
  {
    hide Split;
    SplitWhole(f.tag, ',');
  }

  lemma PlainHeader(fields: seq<Field>)
    requires forall i :: 0 <= i < |fields| ==> Plain(fields[i])
    ensures |Header(fields)| == |fields| && forall i :: 0 <= i < |fields| ==> Header(fields)[i] == fields[i].tag
  {
    hide Plain, Name, Tagged;
    if fields != [] {
      var n := |fields| - 1;
      PlainHeader(fields[..n]);
      PlainName(fields[n]);
    }
  }

  lemma ResultFieldsArePlain()
    ensures forall i :: 0 <= i < 8 ==> Plain(RESULT_FIELDS[i])
  {
    assert Plain(PROCEDURE) && Plain(DATA_POINTS) && Plain(QTY_STREAMS) && Plain(SAMPLES);
    LongTagsArePlain();
    hide Plain;
  }

  lemma LongTagsArePlain()
    ensures Plain(BRANCHING_FACTOR) && Plain(DURATION_MS) && Plain(VISIBILITY) && Plain(UNIX_ONLY)
  {
  }

  lemma ResultTagsDiffer()
    ensures forall i, j :: 0 <= i < j < 8 ==> RESULT_FIELDS[i].tag[..2] != RESULT_FIELDS[j].tag[..2]
  {
    forall i, j | 0 <= i < j < 8 ensures RESULT_FIELDS[i].tag[..2] != RESULT_FIELDS[j].tag[..2] {
      assert RESULT_FIELDS[i].tag[..2][0] != RESULT_FIELDS[j].tag[..2][0] ||
             RESULT_FIELDS[i].tag[..2][1] != RESULT_FIELDS[j].tag[..2][1];
    }
  }

  lemma ResultHeader()
    ensures NoDup(Header(RESULT_FIELDS)) && |Header(RESULT_FIELDS)| == 8 && Readable(RESULT_FIELDS)
    ensures forall i :: 0 <= i < 8 ==> Tagged(RESULT_FIELDS[i])
  {
    hide Header, Name;
    ResultFieldsArePlain();
    ResultTagsDiffer();
    PlainHeader(RESULT_FIELDS);
    forall i | 0 <= i < 8 ensures Tagged(RESULT_FIELDS[i]) {
      PlainName(RESULT_FIELDS[i]);
    }
  }

  lemma ResultIsStruct(r: SavedResults)
    ensures IsStruct(ToStruct(r), RESULT_FIELDS) && Kept(RESULT_FIELDS, ToStruct(r)) == ToStruct(r)
  {
    hide Tagged, Header, NoDup;
    ResultHeader();
    var item := ToStruct(r);
    assert Fits(item[0], String) && Fits(item[5], String) && Fits(item[7], Bool);
    assert Fits(item[1], Int(Bits64)) && Fits(item[2], Int(Bits64)) && Fits(item[3], Int(Bits64));
    assert Fits(item[4], Int(Bits64)) && Fits(item[6], Int(Bits64));
    hide Fits, ToStruct;
    assert IsStruct(item, RESULT_FIELDS);
  }

  /** Saving benchmark results in any number of runs and loading the file gives all of them back, in order. */
  lemma {:induction false} ResultsRoundTrip(batches: seq<seq<SavedResults>>)
    requires batches != []
    ensures var runs := Map(ToStructs, batches);
            && (forall batch :: batch in runs ==> AreWide(batch, RESULT_FIELDS))
            && Loaded(RESULT_FIELDS, SavedRuns(RESULT_FIELDS, runs)) == Ok(ToStructs(Concat(batches)))
  {
    var runs := Map(ToStructs, batches);
    forall batch | batch in runs ensures AreStructs(batch, RESULT_FIELDS) && AreWide(batch, RESULT_FIELDS) {
      var k :| 0 <= k < |runs| && runs[k] == batch;
      ResultsAreStructs(batches[k]);
    }
    ResultHeader();
    hide Header, Name, SavedRuns, Loaded, IsStruct, Kept, ToStruct, Concat, NoDup, Readable, Tagged, AreStructs, AreWide;
    LoadAfterSaves(RESULT_FIELDS, runs);
    ConcatOfStructs(batches);
    ResultsAreStructs(Concat(batches));
  }

  lemma ResultsAreStructs(rs: seq<SavedResults>)
    ensures AreStructs(ToStructs(rs), RESULT_FIELDS) && AreWide(ToStructs(rs), RESULT_FIELDS)
    ensures KeptAll(RESULT_FIELDS, ToStructs(rs)) == ToStructs(rs)
  {
    hide Kept, ToStruct, Fits;
    forall k | 0 <= k < |rs|
      ensures IsStruct(ToStructs(rs)[k], RESULT_FIELDS) && KeptAll(RESULT_FIELDS, ToStructs(rs))[k] == ToStructs(rs)[k]
    {
      ResultIsStruct(rs[k]);
    }
  }

  lemma {:induction false} ConcatOfStructs(batches: seq<seq<SavedResults>>)
    ensures Concat(Map(ToStructs, batches)) == ToStructs(Concat(batches))
  {
    hide ToStruct;
    if batches != [] {
      var n := |batches| - 1;
      assert Map(ToStructs, batches)[..n] == Map(ToStructs, batches[..n]);
      ConcatOfStructs(batches[..n]);
    }
  }
}
