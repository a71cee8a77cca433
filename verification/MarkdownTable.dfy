/**
 * The markdown tables of the stream tests: parsing (tests/streams/utils/table/parse.go) and the printed form
 * of result rows (FormatResultRows in tests/streams/query/query_test.go).
 */
module MarkdownTable {
  import opened Wrappers
  import opened Sequences
  import opened Text

  datatype Table = Table(headers: seq<string>, rows: seq<seq<string>>)

  datatype TableError = TooFewLines | BadSeparator | BadRow

  // ---- strings.TrimSpace and strings.Trim --------------------------------------------------------------

  /** unicode.IsSpace */
  predicate IsSpace(c: char) {
    || c == ' ' || c == '\U{00A0}' || c == '\U{0085}' || c == '\U{1680}' || c == '\U{202F}' || c == '\U{205F}' || c == '\U{3000}'
    || '\t' <= c <= '\r' || '\U{2000}' <= c <= '\U{200A}' || c == '\U{2028}' || c == '\U{2029}'
  }

  /** The 25 characters of Unicode's White_Space property, by their code points. */
  lemma SpacesAre(c: char)
    ensures IsSpace(c) <==>
            c as int in {9, 10, 11, 12, 13, 32, 133, 160, 5760, 8192, 8193, 8194, 8195, 8196, 8197, 8198, 8199, 8200, 8201, 8202,
                         8232, 8233, 8239, 8287, 12288}
  {
    var n := c as int;
    assert IsSpace(c) <==> n == 32 || n == 160 || n == 133 || n == 5760 || n == 8239 || n == 8287 || n == 12288 ||
                           9 <= n <= 13 || 8192 <= n <= 8202 || n == 8232 || n == 8233 by {
      assert c == n as char;
    }
  }

  predicate IsBar(c: char) {
    c == '|'
  }

  function TrimLeft(p: char -> bool, s: string): string {
    if s != "" && p(s[0]) then TrimLeft(p, s[1..]) else s
  }

  function TrimRight(p: char -> bool, s: string): string {
    if s != "" && p(s[|s| - 1]) then TrimRight(p, s[..|s| - 1]) else s
  }

  function TrimBoth(p: char -> bool, s: string): string {
    TrimRight(p, TrimLeft(p, s))
  }

  function TrimSpace(s: string): string {
    TrimBoth(IsSpace, s)
  }

  // ---- Parsing -------------------------------------------------------------------------------------------

  /** Blank lines and comment lines are dropped. */
  predicate Significant(line: string) {
    TrimSpace(line) != "" && !HasPrefix(TrimSpace(line), "#")
  }

  /** The cells between the bars; the pattern that splits them also eats blanks that trimming removes anyway. */
  function Fields(line: string): seq<string> {
    Map(TrimSpace, Split(TrimBoth(IsBar, line), '|'))
  }

  /** A last cell that starts with '#' is a comment. */
  function WithoutComment(fields: seq<string>): seq<string> {
    if fields != [] && HasPrefix(fields[|fields| - 1], "#") then fields[..|fields| - 1] else fields
  }

  function RowOf(line: string): seq<string> {
    WithoutComment(Fields(TrimSpace(line)))
  }

  /** The cells of the second line, run together, are dashes and bars. */
  predicate IsSeparator(line: string) {
    var joined := Join(RowOf(line), "");
    joined != "" && forall c :: c in joined ==> c == '-' || c == '|'
  }

  function ParsedLines(lines: seq<string>): Result<Table, TableError> {
    if |lines| < 2 then Err(TooFewLines)
    else if !IsSeparator(lines[1]) then Err(BadSeparator)
    else
      var headers := Fields(lines[0]);
      if exists line :: line in lines[2..] && |RowOf(line)| != |headers| then Err(BadRow)
      else Ok(Table(headers, Map(RowOf, lines[2..])))
  }

  function Parsed(text: string): Result<Table, TableError> {
    ParsedLines(Filter(Significant, Split(TrimSpace(text), '\n')))
  }

  method ParseRow(row: string) returns (fields: seq<string>)
    ensures fields == RowOf(row)
  {
    hide TrimBoth, TrimSpace, Split, HasPrefix;
    var trimmedLine := TrimSpace(row);
    trimmedLine := TrimBoth(IsBar, trimmedLine);
    fields := Split(trimmedLine, '|');
    fields := TrimEach(fields);
    if |fields| > 0 && HasPrefix(fields[|fields| - 1], "#") {
      fields := fields[..|fields| - 1];
    }
  }

  /** The loop that trims the cells in place. */
  method TrimEach(cells: seq<string>) returns (fields: seq<string>)
    ensures fields == Map(TrimSpace, cells)
  {
    hide TrimSpace;
    fields := cells;
    for i := 0 to |fields|
      invariant |fields| == |cells|
      invariant forall k :: 0 <= k < |cells| ==> fields[k] == if k < i then TrimSpace(cells[k]) else cells[k]
    {
      fields := fields[i := TrimSpace(fields[i])];
    }
  }

  /** The filter that drops blank lines and comments. */
  method KeepSignificant(all: seq<string>) returns (lines: seq<string>)
    ensures lines == Filter(Significant, all)
  {
    hide TrimSpace;
    lines := [];
    for i := 0 to |all|
      invariant lines == Filter(Significant, all[..i])
    {
      assert all[..i + 1] == all[..i] + [all[i]];
      FilterConcat(Significant, all[..i], [all[i]]);
      if TrimSpace(all[i]) != "" && !HasPrefix(TrimSpace(all[i]), "#") {
        lines := lines + [all[i]];
      }
    }
    assert all[..|all|] == all;
  }

  method TableFromMarkdown(table: string) returns (r: Result<Table, TableError>)
    ensures r == Parsed(table)
  {
    hide RowOf, TrimSpace, TrimBoth, Split, Filter, Join;
    var lines := Split(TrimSpace(table), '\n');
    lines := KeepSignificant(lines);
    if |lines| < 2 {
      return Err(TooFewLines);
    }
    var headers := Split(TrimBoth(IsBar, lines[0]), '|');
    headers := TrimEach(headers);
    var separator := ParseRow(lines[1]);
    var joined := Join(separator, "");
    if joined == "" || exists c :: c in joined && c != '-' && c != '|' {
      return Err(BadSeparator);
    }
    r := ParseRows(lines[2..], headers);
  }

  method ParseRows(data: seq<string>, headers: seq<string>) returns (r: Result<Table, TableError>)
    ensures r == if exists line :: line in data && |RowOf(line)| != |headers| then Err(BadRow)
                 else Ok(Table(headers, Map(RowOf, data)))
  {
    hide RowOf;
    var rows: seq<seq<string>> := [];
    for i := 0 to |data|
      invariant rows == Map(RowOf, data[..i])
      invariant forall k :: 0 <= k < i ==> |RowOf(data[k])| == |headers|
    {
      var row := ParseRow(data[i]);
      if |row| != |headers| {
        assert data[i] in data;
        return Err(BadRow);
      }
      assert data[..i + 1] == data[..i] + [data[i]];
      rows := rows + [row];
    }
    assert data[..|data|] == data;
    r := Ok(Table(headers, rows));
  }

  // ---- Printing ----------------------------------------------------------------------------------------------

  function PrintLine(cells: seq<string>): string {
    "| " + Join(cells, " | ") + " |"
  }

  /** Header line, dashes line and rows, each ended by a newline. */
  function PrintedLines(headers: seq<string>, dashes: seq<string>, rows: seq<seq<string>>): seq<string> {
    [PrintLine(headers), PrintLine(dashes)] + Map(PrintLine, rows)
  }

  function Printed(headers: seq<string>, dashes: seq<string>, rows: seq<seq<string>>): string {
    Join(PrintedLines(headers, dashes, rows), "\n") + "\n"
  }

  /** A cell that can stand between bars: trimmed, without bar and newline. */
  predicate Clean(cell: string) {
    TrimSpace(cell) == cell && '|' !in cell && '\n' !in cell
  }

  predicate CleanRow(cells: seq<string>) {
    cells != [] && forall c :: c in cells ==> Clean(c)
  }

  predicate DashCell(c: string) {
    c != "" && forall x :: x in c ==> x == '-'
  }

  predicate IsDashes(cells: seq<string>) {
    cells != [] && forall c :: c in cells ==> DashCell(c)
  }

  // ---- Trimming ------------------------------------------------------------------------------------------------

  /** Nothing is trimmed from a string whose ends are not trimmable. */
  lemma TrimNothing(p: char -> bool, s: string)
    requires s == "" || (!p(s[0]) && !p(s[|s| - 1]))
    ensures TrimBoth(p, s) == s
  {
  }

  /** Trimmable characters around it are removed. */
  lemma TrimAround(p: char -> bool, a: char, s: string, b: char)
    requires p(a) && p(b) && (s == "" || (!p(s[0]) && !p(s[|s| - 1])))
    ensures TrimBoth(p, [a] + s + [b]) == s
  {
    var whole := [a] + s + [b];
    assert whole[1..] == s + [b];
    if s == "" {
      assert TrimLeft(p, whole) == TrimLeft(p, [b]) == "";
    } else {
      var right := s + [b];
      assert right[0] == s[0] && TrimLeft(p, right) == right;
      assert right[..|right| - 1] == s && right[|right| - 1] == b;
      assert TrimRight(p, right) == TrimRight(p, s) == s;
      assert TrimLeft(p, whole) == TrimLeft(p, right);
    }
  }

  /** What trimming leaves starts and ends with something that is not trimmable. */
  lemma {:induction false} TrimmedEnds(p: char -> bool, s: string)
    ensures var t := TrimBoth(p, s); t == "" || (!p(t[0]) && !p(t[|t| - 1]))
  {
    LeftEnd(p, s);
    RightEnd(p, TrimLeft(p, s));
  }

  lemma {:induction false} LeftEnd(p: char -> bool, s: string)
    ensures TrimLeft(p, s) == "" || !p(TrimLeft(p, s)[0])
  {
    if s != "" {
      LeftEnd(p, s[1..]);
    }
  }

  lemma {:induction false} RightEnd(p: char -> bool, s: string)
    ensures TrimRight(p, s) <= s && (TrimRight(p, s) == "" || !p(TrimRight(p, s)[|TrimRight(p, s)| - 1]))
  {
    if s != "" {
      RightEnd(p, s[..|s| - 1]);
    }
  }

  // ---- One printed line -------------------------------------------------------------------------------------------

  function Padded(cell: string): string {
    " " + cell + " "
  }

  lemma {:induction false} JoinPadded(cells: seq<string>)
    requires cells != []
    ensures " " + Join(cells, " | ") + " " == Join(Map(Padded, cells), "|")
  {
    if |cells| == 1 {
    } else {
      JoinPadded(cells[1..]);
      assert Map(Padded, cells)[1..] == Map(Padded, cells[1..]);
      assert Join(cells, " | ") == cells[0] + " | " + Join(cells[1..], " | ");
      assert " " + Join(cells, " | ") + " " == Padded(cells[0]) + "|" + (" " + Join(cells[1..], " | ") + " ");
    }
  }

  lemma FieldsOfLine(cells: seq<string>)
    requires CleanRow(cells)
    ensures Fields(PrintLine(cells)) == cells
  {
    var padded := Map(Padded, cells);
    var inner := Join(padded, "|");
    hide Join, Split, TrimBoth, TrimSpace;
    JoinPadded(cells);
    assert PrintLine(cells) == ['|'] + inner + ['|'];
    TrimAround(IsBar, '|', inner, '|');
    forall c | c in padded ensures '|' !in c {
      var k :| 0 <= k < |padded| && padded[k] == c;
      assert cells[k] in cells;
    }
    SplitJoin(padded, '|');
    forall k | 0 <= k < |cells| ensures TrimSpace(padded[k]) == cells[k] {
      assert cells[k] in cells;
      TrimPadded(cells[k]);
    }
  }

  lemma TrimPadded(cell: string)
    requires TrimSpace(cell) == cell
    ensures TrimSpace(Padded(cell)) == cell
  {
    hide TrimBoth;
    TrimmedEnds(IsSpace, cell);
    TrimAround(IsSpace, ' ', cell, ' ');
    assert Padded(cell) == [' '] + cell + [' '];
  }

  lemma LineEnds(cells: seq<string>)
    ensures |PrintLine(cells)| >= 4 && PrintLine(cells)[0] == '|' && PrintLine(cells)[|PrintLine(cells)| - 1] == '|'
    ensures TrimSpace(PrintLine(cells)) == PrintLine(cells) && Significant(PrintLine(cells))
  {
    hide Join;
    TrimNothing(IsSpace, PrintLine(cells));
  }

  /** A printed row is read back, unless its last cell looks like a comment: then that cell is lost. */
  lemma RowOfLine(cells: seq<string>)
    requires CleanRow(cells)
    ensures RowOf(PrintLine(cells)) == if HasPrefix(cells[|cells| - 1], "#") then cells[..|cells| - 1] else cells
  {
    hide PrintLine, Fields, TrimSpace;
    LineEnds(cells);
    FieldsOfLine(cells);
  }

  lemma DashesAreClean(dashes: seq<string>)
    requires IsDashes(dashes)
    ensures CleanRow(dashes) && !HasPrefix(dashes[|dashes| - 1], "#")
  {
    forall c | c in dashes ensures Clean(c) {
      assert c[0] in c && c[|c| - 1] in c;
      TrimNothing(IsSpace, c);
    }
    assert dashes[|dashes| - 1] in dashes;
    assert dashes[|dashes| - 1][0] in dashes[|dashes| - 1];
  }

  lemma {:induction false} JoinedDashes(dashes: seq<string>)
    requires IsDashes(dashes)
    ensures DashCell(Join(dashes, ""))
  {
    assert dashes[0] in dashes;
    if |dashes| > 1 {
      assert IsDashes(dashes[1..]) by {
        hide DashCell;
      }
      JoinedDashes(dashes[1..]);
      assert Join(dashes, "") == dashes[0] + Join(dashes[1..], "");
    }
  }

  lemma DashesAreASeparator(dashes: seq<string>)
    requires IsDashes(dashes)
    ensures IsSeparator(PrintLine(dashes))
  {
    hide PrintLine, RowOf, Join;
    DashesAreClean(dashes);
    RowOfLine(dashes);
    JoinedDashes(dashes);
  }

  // ---- White space around lines and texts ---------------------------------------------------------------------

  predicate Blank(s: string) {
    forall c :: c in s ==> IsSpace(c)
  }

  lemma {:induction false} TrimLeftBlank(left: string, s: string)
    requires Blank(left)
    ensures TrimLeft(IsSpace, left + s) == TrimLeft(IsSpace, s)
  {
    hide IsSpace;
    if left == "" {
      assert left + s == s;
    } else {
      assert left[0] in left && (left + s)[1..] == left[1..] + s;
      TrimLeftBlank(left[1..], s);
    }
  }

  lemma {:induction false} TrimRightBlank(s: string, right: string)
    requires Blank(right)
    ensures TrimRight(IsSpace, s + right) == TrimRight(IsSpace, s)
  {
    hide IsSpace;
    if right == "" {
      assert s + right == s;
    } else {
      var n := |right| - 1;
      assert right[n] in right && (s + right)[..|s + right| - 1] == s + right[..n];
      TrimRightBlank(s, right[..n]);
    }
  }

  /** A string is blank, or it is trimmed to something from either side. */
  lemma {:induction false} LeftOfBlank(s: string)
    ensures TrimLeft(IsSpace, s) == "" <==> Blank(s)
    ensures exists left :: Blank(left) && s == left + TrimLeft(IsSpace, s)
  {
    hide IsSpace;
    if s != "" && IsSpace(s[0]) {
      LeftOfBlank(s[1..]);
      var left :| Blank(left) && s[1..] == left + TrimLeft(IsSpace, s[1..]);
      assert s == [s[0]] + s[1..];
      assert Blank([s[0]] + left) && s == ([s[0]] + left) + TrimLeft(IsSpace, s);
    } else {
      assert Blank("") && s == "" + s;
      assert s != "" ==> s[0] in s;
    }
  }

  lemma {:induction false} RightOfBlank(s: string)
    ensures TrimRight(IsSpace, s) == "" <==> Blank(s)
    ensures exists right :: Blank(right) && s == TrimRight(IsSpace, s) + right
  {
    hide IsSpace;
    var n := |s| - 1;
    if s != "" && IsSpace(s[n]) {
      RightOfBlank(s[..n]);
      var right :| Blank(right) && s[..n] == TrimRight(IsSpace, s[..n]) + right;
      assert s == s[..n] + [s[n]];
      assert Blank(right + [s[n]]) && s == TrimRight(IsSpace, s) + (right + [s[n]]);
    } else {
      assert Blank("") && s == s + "";
      assert s != "" ==> s[n] in s;
    }
  }

  /** A core without white space at its ends is what trimming leaves. */
  predicate IsCore(s: string) {
    s == "" || (!IsSpace(s[0]) && !IsSpace(s[|s| - 1]))
  }

  lemma TrimToCore(left: string, core: string, right: string)
    requires Blank(left) && Blank(right) && IsCore(core)
    ensures TrimSpace(left + core + right) == core
  {
    hide IsSpace;
    assert left + core + right == left + (core + right);
    TrimLeftBlank(left, core + right);
    if core == "" {
      assert core + right == right;
      LeftOfBlank(right);
    } else {
      assert (core + right)[0] == core[0];
      TrimRightBlank(core, right);
    }
  }

  lemma CoreOf(s: string) returns (left: string, right: string)
    ensures Blank(left) && Blank(right) && IsCore(TrimSpace(s)) && s == left + TrimSpace(s) + right
    ensures TrimLeft(IsSpace, s) == "" <==> TrimSpace(s) == ""
  {
    hide Blank, IsSpace;
    LeftOfBlank(s);
    left :| Blank(left) && s == left + TrimLeft(IsSpace, s);
    RightOfBlank(TrimLeft(IsSpace, s));
    right :| Blank(right) && TrimLeft(IsSpace, s) == TrimSpace(s) + right;
    TrimmedEnds(IsSpace, s);
    assert s == left + (TrimSpace(s) + right) == left + TrimSpace(s) + right;
    LeftOfBlank(TrimLeft(IsSpace, s));
    LeftEnd(IsSpace, s);
  }

  lemma TrimLeftFirst(s: string)
    ensures TrimSpace(TrimLeft(IsSpace, s)) == TrimSpace(s)
  {
    LeftEnd(IsSpace, s);
  }

  lemma TrimRightFirst(s: string)
    ensures TrimSpace(TrimRight(IsSpace, s)) == TrimSpace(s)
  {
    RightOfBlank(s);
    var right :| Blank(right) && s == TrimRight(IsSpace, s) + right;
    var t := TrimRight(IsSpace, s);
    var l, r := CoreOf(t);
    hide IsSpace, TrimSpace;
    assert Blank(r + right);
    hide *;
    Regroup(l, TrimSpace(t), r, right);
    TrimToCore(l, TrimSpace(t), r + right);
  }

  lemma Regroup(a: string, b: string, c: string, d: string)
    ensures a + b + c + d == a + b + (c + d)
  {
  }

  lemma TrimTwice(s: string)
    ensures TrimSpace(TrimSpace(s)) == TrimSpace(s)
  {
    TrimmedEnds(IsSpace, s);
    TrimNothing(IsSpace, TrimSpace(s));
  }

  // ---- The lines of a trimmed text -----------------------------------------------------------------------------

  /** The lines of a text after white space has been removed from its start. */
  function DropLead(lines: seq<string>): (r: seq<string>)
    ensures lines != [] ==> r != []
  {
    if lines == [] then []
    else if TrimLeft(IsSpace, lines[0]) == "" && |lines| > 1 then DropLead(lines[1..])
    else [TrimLeft(IsSpace, lines[0])] + lines[1..]
  }

  function DropTrail(lines: seq<string>): (r: seq<string>)
    ensures lines != [] ==> r != []
  {
    if lines == [] then []
    else
      var n := |lines| - 1;
      if TrimRight(IsSpace, lines[n]) == "" && n > 0 then DropTrail(lines[..n])
      else lines[..n] + [TrimRight(IsSpace, lines[n])]
  }

  lemma TrimLeftKeepsTail(s: string, tail: string)
    requires TrimLeft(IsSpace, s) != ""
    ensures TrimLeft(IsSpace, s + tail) == TrimLeft(IsSpace, s) + tail
  {
    hide IsSpace;
    LeftOfBlank(s);
    var left :| Blank(left) && s == left + TrimLeft(IsSpace, s);
    var rest := TrimLeft(IsSpace, s);
    LeftEnd(IsSpace, s);
    assert s + tail == left + (rest + tail) && (rest + tail)[0] == rest[0];
    TrimLeftBlank(left, rest + tail);
  }

  lemma TrimRightKeepsHead(head: string, s: string)
    requires TrimRight(IsSpace, s) != ""
    ensures TrimRight(IsSpace, head + s) == head + TrimRight(IsSpace, s)
  {
    hide IsSpace;
    RightOfBlank(s);
    var right :| Blank(right) && s == TrimRight(IsSpace, s) + right;
    var rest := TrimRight(IsSpace, s);
    RightEnd(IsSpace, s);
    assert head + s == (head + rest) + right && (head + rest)[|head + rest| - 1] == rest[|rest| - 1];
    TrimRightBlank(head + rest, right);
  }

  lemma JoinCons(first: string, rest: seq<string>, sep: string)
    requires rest != []
    ensures Join([first] + rest, sep) == first + sep + Join(rest, sep)
  {
    assert ([first] + rest)[1..] == rest;
  }

  lemma {:induction false} JoinSnoc(parts: seq<string>, last: string, sep: string)
    requires parts != []
    ensures Join(parts + [last], sep) == Join(parts, sep) + sep + last
  {
    var all := parts + [last];
    if |parts| > 1 {
      assert all[1..] == parts[1..] + [last];
      JoinSnoc(parts[1..], last, sep);
      assert Join(all, sep) == parts[0] + sep + (Join(parts[1..], sep) + sep + last);
    } else {
      assert all[1..] == [last];
    }
  }

  lemma {:induction false} TrimLeftOfLines(lines: seq<string>)
    requires lines != []
    ensures TrimLeft(IsSpace, Join(lines, "\n")) == Join(DropLead(lines), "\n")
  {
    var first, rest := lines[0], lines[1..];
    assert lines == [first] + rest;
    if |lines| > 1 {
      var tail := "\n" + Join(rest, "\n");
      hide Join;
      JoinCons(first, rest, "\n");
      assert Join(lines, "\n") == first + tail;
      if TrimLeft(IsSpace, first) == "" {
        LeftOfBlank(first);
        assert Blank(first + "\n") by {
          assert IsSpace('\n');
        }
        assert first + tail == (first + "\n") + Join(rest, "\n");
        TrimLeftBlank(first + "\n", Join(rest, "\n"));
        TrimLeftOfLines(rest);
      } else {
        TrimLeftKeepsTail(first, tail);
        JoinCons(TrimLeft(IsSpace, first), rest, "\n");
        assert TrimLeft(IsSpace, first) + tail == TrimLeft(IsSpace, first) + "\n" + Join(rest, "\n");
      }
    }
  }

  lemma {:induction false} TrimRightOfLines(lines: seq<string>)
    requires lines != []
    ensures TrimRight(IsSpace, Join(lines, "\n")) == Join(DropTrail(lines), "\n")
  {
    var n := |lines| - 1;
    var init, last := lines[..n], lines[n];
    assert lines == init + [last];
    if n > 0 {
      var head := Join(init, "\n") + "\n";
      hide Join;
      JoinSnoc(init, last, "\n");
      assert Join(lines, "\n") == head + last;
      if TrimRight(IsSpace, last) == "" {
        RightOfBlank(last);
        assert Blank("\n" + last) by {
          assert IsSpace('\n');
        }
        assert head + last == Join(init, "\n") + ("\n" + last);
        TrimRightBlank(Join(init, "\n"), "\n" + last);
        TrimRightOfLines(init);
      } else {
        TrimRightKeepsHead(head, last);
        JoinSnoc(init, TrimRight(IsSpace, last), "\n");
      }
    }
  }

  predicate NoNewlines(lines: seq<string>) {
    forall line :: line in lines ==> '\n' !in line
  }

  lemma {:induction false} NoNewlinesLeft(lines: seq<string>)
    requires NoNewlines(lines)
    ensures NoNewlines(DropLead(lines))
  {
    hide IsSpace;
    if lines != [] {
      assert forall line :: line in lines[1..] ==> line in lines;
      assert lines[0] in lines;
      NoNewlinesLeft(lines[1..]);
      LeftOfBlank(lines[0]);
      var left :| Blank(left) && lines[0] == left + TrimLeft(IsSpace, lines[0]);
      assert '\n' !in TrimLeft(IsSpace, lines[0]);
    }
  }

  lemma {:induction false} NoNewlinesRight(lines: seq<string>)
    requires NoNewlines(lines)
    ensures NoNewlines(DropTrail(lines))
  {
    hide IsSpace;
    if lines != [] {
      var n := |lines| - 1;
      assert lines[n] in lines;
      NoNewlinesRight(lines[..n]);
      RightEnd(IsSpace, lines[n]);
      assert '\n' !in TrimRight(IsSpace, lines[n]);
    }
  }

  /**
   * Trimming a text drops its outer blank lines and trims its first and its last line; then only the significant
   * lines matter.
   */
  lemma {:induction false} ParsedIsOfSignificantLines(lines: seq<string>)
    requires lines != [] && NoNewlines(lines)
    ensures Parsed(Join(lines, "\n")) == ParsedLines(Filter(Significant, DropTrail(DropLead(lines))))
  {
    hide ParsedLines, Filter, Split, Join, DropLead, DropTrail, TrimLeft, TrimRight, NoNewlines;
    TrimLeftOfLines(lines);
    TrimRightOfLines(DropLead(lines));
    NoNewlinesLeft(lines);
    NoNewlinesRight(DropLead(lines));
    var outer := DropTrail(DropLead(lines));
    assert TrimSpace(Join(lines, "\n")) == Join(outer, "\n");
    SplitLines(outer);
  }

  lemma SplitLines(lines: seq<string>)
    requires lines != [] && NoNewlines(lines)
    ensures Split(Join(lines, "\n"), '\n') == lines
  {
    hide Split, Join;
    SplitJoin(lines, '\n');
  }

  // ---- The header and what stands around it -----------------------------------------------------------------------

  /** Blank lines and comments. */
  predicate AllNoise(lines: seq<string>) {
    forall line :: line in lines ==> !Significant(line)
  }

  predicate AllBlank(lines: seq<string>) {
    forall line :: line in lines ==> Blank(line)
  }

  lemma {:induction false} LeadBeforeHeader(before: seq<string>, header: string, after: seq<string>) returns (noise: seq<string>)
    requires AllNoise(before) && TrimSpace(header) != ""
    ensures AllNoise(noise)
    ensures DropLead(before + [header] + after) ==
            noise + [if AllBlank(before) then TrimLeft(IsSpace, header) else header] + after
  {
    hide IsSpace, Significant, TrimSpace, Blank;
    var lines := before + [header] + after;
    if before == [] {
      noise := [];
      HeaderIsNotBlank(header);
      assert lines[1..] == after && lines[0] == header;
    } else {
      var first := before[0];
      assert first in before && lines[1..] == before[1..] + [header] + after;
      LeftOfBlank(first);
      if TrimLeft(IsSpace, first) == "" {
        noise := LeadBeforeHeader(before[1..], header, after);
        assert AllBlank(before) <==> AllBlank(before[1..]);
      } else {
        NoiseTrimmedLeft(first);
        noise := [TrimLeft(IsSpace, first)] + before[1..];
        assert !AllBlank(before);
        assert DropLead(lines) == noise + [header] + after;
      }
    }
  }

  lemma HeaderIsNotBlank(header: string)
    requires TrimSpace(header) != ""
    ensures TrimLeft(IsSpace, header) != ""
  {
  }

  lemma NoiseTrimmedLeft(line: string)
    ensures Significant(TrimLeft(IsSpace, line)) <==> Significant(line)
  {
    TrimLeftFirst(line);
  }

  lemma NoiseTrimmedRight(line: string)
    ensures Significant(TrimRight(IsSpace, line)) <==> Significant(line)
  {
    TrimRightFirst(line);
  }

  lemma LastTrimmed(init: seq<string>, last: string)
    ensures Map(TrimSpace, Filter(Significant, init + [TrimRight(IsSpace, last)])) ==
            Map(TrimSpace, Filter(Significant, init + [last]))
  {
    var trimmed := TrimRight(IsSpace, last);
    NoiseTrimmedRight(last);
    TrimRightFirst(last);
    hide Significant, TrimSpace, Filter, TrimRight;
    FilterConcat(Significant, init, [trimmed]);
    FilterConcat(Significant, init, [last]);
    FilterSingle(Significant, trimmed);
    FilterSingle(Significant, last);
    var kept := Filter(Significant, init);
    if Significant(last) {
      assert Map(TrimSpace, kept + [trimmed]) == Map(TrimSpace, kept) + [TrimSpace(trimmed)];
      assert Map(TrimSpace, kept + [last]) == Map(TrimSpace, kept) + [TrimSpace(last)];
    }
  }

  /** Trimming the end of a text does not reach beyond its last significant line, and only trims that. */
  lemma {:induction false} TrailAfterHeader(head: seq<string>, after: seq<string>) returns (rest: seq<string>)
    requires Filter(Significant, after) != []
    ensures DropTrail(head + after) == head + rest
    ensures Map(TrimSpace, Filter(Significant, rest)) == Map(TrimSpace, Filter(Significant, after))
    decreases |after|
  {
    NoSignificant();
    hide Significant, TrimSpace, Filter, TrimRight;
    var init, last := after[..|after| - 1], after[|after| - 1];
    var lines := head + after;
    assert lines[|lines| - 1] == last && lines[..|lines| - 1] == head + init;
    if TrimRight(IsSpace, last) == "" {
      BlankIsDropped(init, last);
      assert after == init + [last];
      rest := TrailAfterHeader(head, init);
    } else {
      rest := init + [TrimRight(IsSpace, last)];
      assert DropTrail(lines) == head + rest;
      assert after == init + [last];
      LastTrimmed(init, last);
    }
  }

  lemma BlankIsDropped(init: seq<string>, last: string)
    requires TrimRight(IsSpace, last) == ""
    ensures Filter(Significant, init + [last]) == Filter(Significant, init)
  {
    BlankIsNoise(last);
    hide Significant;
    FilterConcat(Significant, init, [last]);
    FilterSingle(Significant, last);
  }

  lemma NoSignificant()
    ensures Filter(Significant, []) == []
  {
  }

  lemma BlankIsNoise(line: string)
    requires TrimRight(IsSpace, line) == ""
    ensures !Significant(line)
  {
    TrimRightFirst(line);
  }

  // ---- The header line with white space around it --------------------------------------------------------------------

  /** White space before or behind the bars of the header line is a header of its own, an empty one. */
  function HeadersRead(left: string, headers: seq<string>, right: string): seq<string> {
    (if left == "" then [] else [""]) + headers + (if right == "" then [] else [""])
  }

  lemma BarsOfPaddedHeader(left: string, headers: seq<string>, right: string)
    requires CleanRow(headers) && Blank(left) && Blank(right)
    ensures TrimBoth(IsBar, left + PrintLine(headers) + right) ==
            (if left == "" then "" else left + "|") + Join(Map(Padded, headers), "|") + (if right == "" then "" else "|" + right)
  {
    var inner := " " + Join(headers, " | ") + " ";
    JoinPadded(headers);
    hide Join, Clean;
    var line := left + PrintLine(headers) + right;
    var a, b := if left == "" then "" else left + "|", if right == "" then "" else "|" + right;
    var middle := a + inner + b;
    assert PrintLine(headers) == "|" + inner + "|";
    assert !IsBar(middle[0]) by {
      assert left != "" ==> middle[0] == left[0] && left[0] in left;
    }
    assert !IsBar(middle[|middle| - 1]) by {
      assert right != "" ==> middle[|middle| - 1] == right[|right| - 1] && right[|right| - 1] in right;
    }
    BarsAround(middle, left == "", right == "");
    assert line == (if left == "" then "|" else "") + middle + (if right == "" then "|" else "");
  }

  lemma BarsAround(middle: string, leftBar: bool, rightBar: bool)
    requires middle != "" && !IsBar(middle[0]) && !IsBar(middle[|middle| - 1])
    ensures TrimBoth(IsBar, (if leftBar then "|" else "") + middle + (if rightBar then "|" else "")) == middle
  {
    var right := middle + (if rightBar then "|" else "");
    var whole := (if leftBar then "|" else "") + right;
    assert whole == (if leftBar then "|" else "") + middle + (if rightBar then "|" else "");
    assert right[0] == middle[0] && TrimLeft(IsBar, right) == right;
    if leftBar {
      assert whole[1..] == right;
    } else {
      assert whole == right;
    }
    assert TrimLeft(IsBar, whole) == right;
    if rightBar {
      assert right[..|right| - 1] == middle && right[|right| - 1] == '|';
    } else {
      assert right == middle;
    }
    assert TrimRight(IsBar, middle) == middle;
  }

  lemma CleanCell(cell: string)
    requires Clean(cell)
    ensures TrimSpace(Padded(cell)) == cell && '|' !in Padded(cell)
  {
    hide TrimSpace;
    TrimPadded(cell);
  }

  lemma BlankCell(s: string)
    requires Blank(s)
    ensures TrimSpace(s) == "" && '|' !in s
  {
    assert "" + "" + s == s;
    TrimToCore("", "", s);
  }

  lemma PaddedCells(cells: seq<string>)
    requires CleanRow(cells)
    ensures Map(TrimSpace, Map(Padded, cells)) == cells && forall c :: c in Map(Padded, cells) ==> '|' !in c
  {
    hide TrimSpace, Clean, Padded;
    forall k | 0 <= k < |cells| ensures TrimSpace(Map(Padded, cells)[k]) == cells[k] && '|' !in Map(Padded, cells)[k] {
      assert cells[k] in cells && Clean(cells[k]);
      CleanCell(cells[k]);
    }
  }

  lemma FieldsOfPaddedHeader(left: string, headers: seq<string>, right: string)
    requires CleanRow(headers) && Blank(left) && Blank(right)
    ensures Fields(left + PrintLine(headers) + right) == HeadersRead(left, headers, right)
  {
    BarsOfPaddedHeader(left, headers, right);
    hide Join, Split, TrimBoth, TrimSpace, Clean, Blank, PrintLine, Padded;
    var padded := Map(Padded, headers);
    var l: seq<string>, r: seq<string> := if left == "" then [] else [left], if right == "" then [] else [right];
    BlankCell(left);
    BlankCell(right);
    PaddedCells(headers);
    CellsBetweenBars(left, padded, right);
    assert forall c :: c in l + padded + r ==> '|' !in c;
    SplitJoin(l + padded + r, '|');
    hide Map;
    MapConcat(TrimSpace, l + padded, r);
    MapConcat(TrimSpace, l, padded);
    MapSideCell(left);
    MapSideCell(right);
  }

  lemma MapSideCell(s: string)
    requires TrimSpace(s) == ""
    ensures Map(TrimSpace, if s == "" then [] else [s]) == if s == "" then [] else [""]
  {
    hide TrimSpace;
  }

  lemma CellsBetweenBars(left: string, cells: seq<string>, right: string)
    requires cells != []
    ensures Join((if left == "" then [] else [left]) + cells + (if right == "" then [] else [right]), "|") ==
            (if left == "" then "" else left + "|") + Join(cells, "|") + (if right == "" then "" else "|" + right)
  {
    hide Join;
    var some := cells + (if right == "" then [] else [right]);
    if right == "" {
      assert some == cells;
    } else {
      JoinSnoc(cells, right, "|");
    }
    if left == "" {
      assert [] + cells + (if right == "" then [] else [right]) == some;
    } else {
      JoinCons(left, some, "|");
      assert [left] + cells + (if right == "" then [] else [right]) == [left] + some;
    }
  }

  // ---- Dashes and rows with white space around them -------------------------------------------------------------------

  lemma RowOfTrimmed(line: string)
    ensures RowOf(TrimSpace(line)) == RowOf(line)
  {
    TrimTwice(line);
  }

  lemma RowsRead(lines: seq<string>, rows: seq<seq<string>>)
    requires Map(TrimSpace, lines) == Map(PrintLine, rows) && forall row :: row in rows ==> CleanRow(row)
    ensures |lines| == |rows| && forall k :: 0 <= k < |rows| ==> RowOf(lines[k]) == WithoutComment(rows[k])
  {
    hide PrintLine, RowOf, CleanRow, TrimSpace, WithoutComment;
    assert |lines| == |Map(TrimSpace, lines)| == |rows|;
    forall k | 0 <= k < |rows| ensures RowOf(lines[k]) == WithoutComment(rows[k]) {
      assert rows[k] in rows;
      assert Map(TrimSpace, lines)[k] == TrimSpace(lines[k]) && Map(PrintLine, rows)[k] == PrintLine(rows[k]);
      RowOfTrimmed(lines[k]);
      RowOfPrinted(rows[k]);
    }
  }

  lemma WidthsRead(lines: seq<string>, rows: seq<seq<string>>, width: nat)
    requires |lines| == |rows| && forall k :: 0 <= k < |rows| ==> RowOf(lines[k]) == WithoutComment(rows[k])
    ensures (exists line :: line in lines && |RowOf(line)| != width) <==> exists row :: row in rows && |WithoutComment(row)| != width
    ensures Map(RowOf, lines) == Map(WithoutComment, rows)
  {
    hide RowOf, WithoutComment;
    if row :| row in rows && |WithoutComment(row)| != width {
      var k :| 0 <= k < |rows| && rows[k] == row;
      assert lines[k] in lines && |RowOf(lines[k])| != width;
    } else {
      forall line | line in lines ensures |RowOf(line)| == width {
        var k :| 0 <= k < |lines| && lines[k] == line;
        assert rows[k] in rows;
      }
    }
  }

  lemma RowOfPrinted(row: seq<string>)
    requires CleanRow(row)
    ensures RowOf(PrintLine(row)) == WithoutComment(row)
  {
    hide RowOf, PrintLine;
    RowOfLine(row);
  }

  /** What is read under these headers from rows in printed form. */
  function ReadUnder(headers: seq<string>, rows: seq<seq<string>>): Result<Table, TableError> {
    if exists row :: row in rows && |WithoutComment(row)| != |headers| then Err(BadRow)
    else Ok(Table(headers, Map(WithoutComment, rows)))
  }

  lemma ParsedUnderHeader(header: string, rest: seq<string>, dashes: seq<string>, rows: seq<seq<string>>)
    requires IsDashes(dashes) && forall row :: row in rows ==> CleanRow(row)
    requires Map(TrimSpace, rest) == [PrintLine(dashes)] + Map(PrintLine, rows)
    ensures ParsedLines([header] + rest) == ReadUnder(Fields(header), rows)
  {
    hide PrintLine, RowOf, CleanRow, TrimSpace, WithoutComment, IsDashes, Fields;
    var lines := [header] + rest;
    assert |rest| == |Map(TrimSpace, rest)| == 1 + |rows|;
    assert TrimSpace(rest[0]) == Map(TrimSpace, rest)[0] == PrintLine(dashes);
    assert lines[1] == rest[0] && lines[2..] == rest[1..];
    assert Map(TrimSpace, rest[1..]) == Map(TrimSpace, rest)[1..] == Map(PrintLine, rows);
    DashesAreASeparator(dashes);
    RowOfTrimmed(rest[0]);
    RowsRead(rest[1..], rows);
    WidthsRead(rest[1..], rows, |Fields(header)|);
  }

  // ---- A whole text ---------------------------------------------------------------------------------------------------

  lemma {:induction false} NoiseVanishes(noise: seq<string>, header: string, rest: seq<string>)
    requires AllNoise(noise) && Significant(header)
    ensures Filter(Significant, noise + [header] + rest) == [header] + Filter(Significant, rest)
  {
    hide Filter, Significant;
    FilterConcat(Significant, noise + [header], rest);
    FilterConcat(Significant, noise, [header]);
    FilterNone(Significant, noise);
    FilterSingle(Significant, header);
  }

  lemma PaddedHeaderIsSignificant(left: string, headers: seq<string>, right: string)
    requires Blank(left) && Blank(right)
    ensures TrimSpace(left + PrintLine(headers) + right) == PrintLine(headers)
    ensures Significant(left + PrintLine(headers) + right)
    ensures TrimLeft(IsSpace, left + PrintLine(headers) + right) == PrintLine(headers) + right
  {
    LineEnds(headers);
    var line := PrintLine(headers);
    assert IsCore(line);
    hide PrintLine, IsSpace;
    TrimToCore(left, line, right);
    assert left + line + right == left + (line + right) && (line + right)[0] == line[0];
    TrimLeftBlank(left, line + right);
  }

  /** What a text means for its table; the text may hold white space around every line, blank lines and comments. */
  ghost predicate IsTableText(before: seq<string>, left: string, headers: seq<string>, right: string, after: seq<string>,
                              dashes: seq<string>, rows: seq<seq<string>>)
  {
    && CleanRow(headers) && IsDashes(dashes) && (forall row :: row in rows ==> CleanRow(row) && |row| == |headers|)
    && AllNoise(before) && NoNewlines(before) && NoNewlines(after)
    && Blank(left) && Blank(right) && '\n' !in left && '\n' !in right
    && Map(TrimSpace, Filter(Significant, after)) == [PrintLine(dashes)] + Map(PrintLine, rows)
  }

  function TextLines(before: seq<string>, left: string, headers: seq<string>, right: string, after: seq<string>): seq<string> {
    before + [left + PrintLine(headers) + right] + after
  }

  /** The white space that the trim of the whole text leaves before the header line. */
  function LeadLeft(before: seq<string>, left: string): string {
    if AllBlank(before) then "" else left
  }

  lemma NoNewlineInText(before: seq<string>, left: string, headers: seq<string>, right: string, after: seq<string>,
                        dashes: seq<string>, rows: seq<seq<string>>)
    requires IsTableText(before, left, headers, right, after, dashes, rows)
    ensures NoNewlines(TextLines(before, left, headers, right, after))
  {
    hide AllNoise, Filter, IsDashes, PrintLine, Blank;
    NoNewlineInLine(headers);
  }

  /** Which lines the trimmed text has: noise, the header line with the white space left to it, and the rest. */
  lemma OuterLines(before: seq<string>, left: string, headers: seq<string>, right: string, after: seq<string>)
    returns (noise: seq<string>, rest: seq<string>)
    requires AllNoise(before) && Blank(left) && Blank(right) && Filter(Significant, after) != []
    ensures AllNoise(noise)
    ensures Map(TrimSpace, Filter(Significant, rest)) == Map(TrimSpace, Filter(Significant, after))
    ensures DropTrail(DropLead(TextLines(before, left, headers, right, after))) ==
            noise + [LeadLeft(before, left) + PrintLine(headers) + right] + rest
  {
    PaddedHeaderIsSignificant(left, headers, right);
    LineEnds(headers);
    hide PrintLine, Filter, DropLead, DropTrail, TrimSpace, TrimLeft, Significant, AllNoise, AllBlank, Blank, Map;
    var header := left + PrintLine(headers) + right;
    var kept := LeadLeft(before, left) + PrintLine(headers) + right;
    assert "" + PrintLine(headers) + right == PrintLine(headers) + right;
    noise := LeadBeforeHeader(before, header, after);
    rest := TrailAfterHeader(noise + [kept], after);
  }

  lemma OuterLinesParse(noise: seq<string>, left: string, headers: seq<string>, right: string, rest: seq<string>,
                        dashes: seq<string>, rows: seq<seq<string>>)
    requires AllNoise(noise) && Blank(left) && Blank(right) && CleanRow(headers)
    requires IsDashes(dashes) && forall row :: row in rows ==> CleanRow(row)
    requires Map(TrimSpace, Filter(Significant, rest)) == [PrintLine(dashes)] + Map(PrintLine, rows)
    ensures ParsedLines(Filter(Significant, noise + [left + PrintLine(headers) + right] + rest)) ==
            ReadUnder(HeadersRead(left, headers, right), rows)
  {
    hide PrintLine, ParsedLines, Filter, Fields, TrimSpace, Significant, ReadUnder, AllNoise, IsDashes, CleanRow, Blank;
    PaddedHeaderIsSignificant(left, headers, right);
    NoiseVanishes(noise, left + PrintLine(headers) + right, rest);
    ParsedUnderHeader(left + PrintLine(headers) + right, Filter(Significant, rest), dashes, rows);
    FieldsOfPaddedHeader(left, headers, right);
  }

  /**
   * The outcome for any such text: dashes and rows may have white space around them and noise between them, but white
   * space that is left before or behind the header line adds an empty header there, and then no printed row fits.
   */
  lemma {:induction false} PaddedTableParses(before: seq<string>, left: string, headers: seq<string>, right: string,
                                             after: seq<string>, dashes: seq<string>, rows: seq<seq<string>>)
    requires IsTableText(before, left, headers, right, after, dashes, rows)
    ensures Parsed(Join(TextLines(before, left, headers, right, after), "\n")) ==
            ReadUnder(HeadersRead(LeadLeft(before, left), headers, right), rows)
  {
    NoNewlineInText(before, left, headers, right, after, dashes, rows);
    assert Filter(Significant, after) != [] by {
      assert |Map(TrimSpace, Filter(Significant, after))| > 0;
    }
    assert TextLines(before, left, headers, right, after) != [];
    hide Join, PrintLine, ParsedLines, Filter, DropLead, DropTrail, TrimSpace, Significant, Parsed, ReadUnder, HeadersRead,
         NoNewlines, AllNoise, IsDashes, CleanRow, AllBlank, TextLines, Map;
    var noise, rest := OuterLines(before, left, headers, right, after);
    var lead := LeadLeft(before, left);
    ParsedIsOfSignificantLines(TextLines(before, left, headers, right, after));
    OuterLinesParse(noise, lead, headers, right, rest, dashes, rows);
  }

  lemma ReadUnderIff(left: string, headers: seq<string>, right: string, rows: seq<seq<string>>)
    requires forall row :: row in rows ==> row != [] && |row| == |headers|
    ensures ReadUnder(HeadersRead(left, headers, right), rows) == Ok(Table(headers, rows)) <==>
            left == "" && right == "" && !exists row :: row in rows && HasPrefix(row[|row| - 1], "#")
    ensures left == "" && right == "" && (exists row :: row in rows && HasPrefix(row[|row| - 1], "#")) ==>
            ReadUnder(HeadersRead(left, headers, right), rows) == Err(BadRow)
    ensures (left != "" || right != "") && rows != [] ==> ReadUnder(HeadersRead(left, headers, right), rows) == Err(BadRow)
  {
    hide HasPrefix;
    var read := HeadersRead(left, headers, right);
    if rows != [] {
      assert rows[0] in rows;
    }
    if left == "" && right == "" {
      assert read == headers;
      if forall row :: row in rows ==> !HasPrefix(row[|row| - 1], "#") {
        assert forall k :: 0 <= k < |rows| ==> rows[k] in rows;
        assert Map(WithoutComment, rows) == rows;
      }
    } else {
      assert |read| > |headers|;
    }
  }

  /**
   * A table is read back if and only if no row ends in a cell that starts with '#' and the header line, after the trim
   * of the whole text, has no white space on either side. With such white space every table with rows is refused.
   */
  lemma {:induction false} HeaderIsNotTrimmed(before: seq<string>, left: string, headers: seq<string>, right: string,
                                              after: seq<string>, dashes: seq<string>, rows: seq<seq<string>>)
    requires IsTableText(before, left, headers, right, after, dashes, rows)
    ensures var parsed := Parsed(Join(TextLines(before, left, headers, right, after), "\n"));
            && (parsed == Ok(Table(headers, rows)) <==>
                LeadLeft(before, left) == "" && right == "" && !exists row :: row in rows && HasPrefix(row[|row| - 1], "#"))
            && ((LeadLeft(before, left) != "" || right != "") && rows != [] ==> parsed == Err(BadRow))
  {
    hide Join, Parsed, ReadUnder, TextLines, LeadLeft, HasPrefix, HeadersRead, Filter, Blank, AllNoise, NoNewlines, IsDashes, Clean;
    PaddedTableParses(before, left, headers, right, after, dashes, rows);
    ReadUnderIff(LeadLeft(before, left), headers, right, rows);
  }

  // ---- Printed texts -----------------------------------------------------------------------------------------------------

  lemma PrintedLinesAreSignificant(headers: seq<string>, dashes: seq<string>, rows: seq<seq<string>>)
    ensures Filter(Significant, PrintedLines(headers, dashes, rows)) == PrintedLines(headers, dashes, rows)
  {
    hide Significant, PrintLine;
    var lines := PrintedLines(headers, dashes, rows);
    forall line | line in lines ensures Significant(line) {
      var k :| 0 <= k < |lines| && lines[k] == line;
      LineEnds(if k == 0 then headers else if k == 1 then dashes else rows[k - 2]);
    }
    FilterAll(Significant, lines);
  }

  lemma {:induction false} NoNewlineInJoin(cells: seq<string>, sep: string)
    requires '\n' !in sep && forall c :: c in cells ==> '\n' !in c
    ensures '\n' !in Join(cells, sep)
  {
    if |cells| > 1 {
      NoNewlineInJoin(cells[1..], sep);
    }
  }

  lemma NoNewlineInLine(cells: seq<string>)
    requires CleanRow(cells)
    ensures '\n' !in PrintLine(cells)
  {
    NoNewlineInJoin(cells, " | ");
  }

  lemma TrimmedPrintedLines(dashes: seq<string>, rows: seq<seq<string>>)
    ensures var lines := [PrintLine(dashes)] + Map(PrintLine, rows); Map(TrimSpace, lines) == lines
  {
    hide PrintLine, TrimSpace;
    var lines := [PrintLine(dashes)] + Map(PrintLine, rows);
    forall k | 0 <= k < |lines| ensures TrimSpace(lines[k]) == lines[k] {
      LineEnds(if k == 0 then dashes else rows[k - 1]);
    }
  }

  lemma PrintedRowsHaveNoNewline(dashes: seq<string>, rows: seq<seq<string>>)
    requires IsDashes(dashes) && forall row :: row in rows ==> CleanRow(row)
    ensures NoNewlines([PrintLine(dashes)] + Map(PrintLine, rows))
  {
    hide PrintLine, CleanRow, IsDashes;
    DashesAreClean(dashes);
    NoNewlineInLine(dashes);
    forall k | 0 <= k < |rows| ensures '\n' !in Map(PrintLine, rows)[k] {
      assert rows[k] in rows;
      NoNewlineInLine(rows[k]);
    }
  }

  lemma AroundHeader(lines: seq<string>, headers: seq<string>, rest: seq<string>) returns (before: seq<string>, after: seq<string>)
    requires Filter(Significant, lines) == [PrintLine(headers)] + rest
    ensures lines == before + [PrintLine(headers)] + after && AllNoise(before) && Filter(Significant, after) == rest
    ensures NoNewlines(lines) ==> NoNewlines(before) && NoNewlines(after)
  {
    hide Filter, Significant, PrintLine, AllNoise, NoNewlines;
    var k := FirstSignificant(lines);
    before, after := lines[..k], lines[k + 1..];
    assert lines == before + [lines[k]] + after;
    NoiseVanishes(before, lines[k], after);
    assert ([lines[k]] + Filter(Significant, after))[1..] == Filter(Significant, after) && ([PrintLine(headers)] + rest)[1..] == rest;
    assert ([lines[k]] + Filter(Significant, after))[0] == lines[k];
    if NoNewlines(lines) {
      PartsWithoutNewlines(lines, k);
    }
  }

  /** Blank lines and comments before, between and after the printed lines change nothing, wherever they stand. */
  lemma {:induction false} CommentsChangeNothing(lines: seq<string>, headers: seq<string>, dashes: seq<string>, rows: seq<seq<string>>)
    requires CleanRow(headers) && IsDashes(dashes)
    requires forall row :: row in rows ==> CleanRow(row) && |row| == |headers|
    requires NoNewlines(lines) && Filter(Significant, lines) == PrintedLines(headers, dashes, rows)
    ensures Parsed(Join(lines, "\n")) ==
            if exists row :: row in rows && HasPrefix(row[|row| - 1], "#") then Err(BadRow) else Ok(Table(headers, rows))
  {
    hide Join, Parsed, Filter, Significant, PrintLine, Clean, IsDashes, TrimSpace, NoNewlines, AllNoise, HasPrefix,
         ReadUnder, HeadersRead, AllBlank;
    var rest := [PrintLine(dashes)] + Map(PrintLine, rows);
    assert PrintedLines(headers, dashes, rows) == [PrintLine(headers)] + rest;
    var before, after := AroundHeader(lines, headers, rest);
    assert "" + PrintLine(headers) + "" == PrintLine(headers);
    TrimmedPrintedLines(dashes, rows);
    PaddedTableParses(before, "", headers, "", after, dashes, rows);
    ReadUnderIff("", headers, "", rows);
  }

  lemma PartsWithoutNewlines(lines: seq<string>, k: nat)
    requires NoNewlines(lines) && k < |lines|
    ensures NoNewlines(lines[..k]) && NoNewlines(lines[k + 1..])
  {
  }

  lemma FirstSignificant(lines: seq<string>) returns (k: nat)
    requires Filter(Significant, lines) != []
    ensures k < |lines| && Significant(lines[k]) && AllNoise(lines[..k])
  {
    hide Significant, Filter;
    assert Filter(Significant, lines)[0] in Filter(Significant, lines);
    k := 0;
    while !Significant(lines[k])
      invariant k < |lines| && AllNoise(lines[..k])
      invariant exists i :: k <= i < |lines| && Significant(lines[i])
      decreases |lines| - k
    {
      assert lines[..k + 1] == lines[..k] + [lines[k]];
      k := k + 1;
    }
  }

  /**
   * Parsing undoes printing exactly when no row's last cell starts with '#'; otherwise the table is refused.
   */
  lemma ParsingUndoesPrinting(headers: seq<string>, dashes: seq<string>, rows: seq<seq<string>>)
    requires CleanRow(headers) && IsDashes(dashes)
    requires forall row :: row in rows ==> CleanRow(row) && |row| == |headers|
    ensures Parsed(Printed(headers, dashes, rows)) ==
            if exists row :: row in rows && HasPrefix(row[|row| - 1], "#") then Err(BadRow) else Ok(Table(headers, rows))
  {
    hide Join, Parsed, Filter, Significant, PrintLine, Clean, IsDashes, NoNewlines;
    var printed := PrintedLines(headers, dashes, rows);
    var lines := printed + [""];
    JoinSnoc(printed, "", "\n");
    assert Join(lines, "\n") == Printed(headers, dashes, rows);
    PrintedLinesAreSignificant(headers, dashes, rows);
    BlankLineIsDropped(printed);
    assert NoNewlines(lines) by {
      PrintedRowsHaveNoNewline(dashes, rows);
      NoNewlineInLine(headers);
      OneMoreLine(PrintLine(headers), [PrintLine(dashes)] + Map(PrintLine, rows));
      assert lines == [PrintLine(headers)] + ([PrintLine(dashes)] + Map(PrintLine, rows)) + [""];
    }
    CommentsChangeNothing(lines, headers, dashes, rows);
  }

  lemma OneMoreLine(first: string, rest: seq<string>)
    requires '\n' !in first && NoNewlines(rest)
    ensures NoNewlines([first] + rest + [""])
  {
  }

  lemma BlankLineIsDropped(lines: seq<string>)
    requires Filter(Significant, lines) == lines
    ensures Filter(Significant, lines + [""]) == lines
  {
    FilterConcat(Significant, lines, [""]);
    FilterSingle(Significant, "");
  }

  /** White space before the header line of an indented table, under a comment, becomes a first, empty header. */
  lemma IndentedHeaderExample()
    ensures Fields("\t| a |") == ["", "a"]
  {
    assert "\t| a |" == "\t" + PrintLine(["a"]) + "" by {
      assert Join(["a"], " | ") == "a";
    }
    assert TrimSpace("a") == "a" by {
      TrimNothing(IsSpace, "a");
    }
    FieldsOfPaddedHeader("\t", ["a"], "");
  }

  // ---- The second line ---------------------------------------------------------------------------------------------------

  /** The cells are empty or dashes, and not all are empty. */
  predicate DashesOnly(cells: seq<string>) {
    (exists c :: c in cells && c != "") && forall c, x :: c in cells && x in c ==> x == '-'
  }

  lemma {:induction false} JoinedCharacters(cells: seq<string>)
    ensures forall x :: x in Join(cells, "") <==> exists c :: c in cells && x in c
  {
    if |cells| > 1 {
      JoinedCharacters(cells[1..]);
      assert cells == [cells[0]] + cells[1..];
      assert Join(cells, "") == cells[0] + Join(cells[1..], "");
    }
  }

  /** A printed second line whose last cell is no comment separates header and rows exactly if it holds dashes only. */
  lemma SeparatorIff(cells: seq<string>)
    requires CleanRow(cells) && !HasPrefix(cells[|cells| - 1], "#")
    ensures IsSeparator(PrintLine(cells)) <==> DashesOnly(cells)
  {
    hide *;
    RowOfLine(cells);
    SeparatorOfRow(PrintLine(cells));
    CleanHasNoBar(cells);
    DashesOfJoined(cells);
  }

  lemma SeparatorOfRow(line: string)
    ensures IsSeparator(line) <==> Join(RowOf(line), "") != "" && forall c :: c in Join(RowOf(line), "") ==> c == '-' || c == '|'
  {
    hide RowOf, Join;
  }

  lemma CleanHasNoBar(cells: seq<string>)
    requires CleanRow(cells)
    ensures forall c :: c in cells ==> '|' !in c
  {
  }

  lemma DashesOfJoined(cells: seq<string>)
    requires forall c :: c in cells ==> '|' !in c
    ensures Join(cells, "") != "" && (forall x :: x in Join(cells, "") ==> x == '-' || x == '|') <==> DashesOnly(cells)
  {
    hide Join;
    JoinedCharacters(cells);
    var joined := Join(cells, "");
    assert joined != "" <==> exists c :: c in cells && c != "" by {
      if joined != "" {
        assert joined[0] in joined;
        var c :| c in cells && joined[0] in c;
      }
      if c :| c in cells && c != "" {
        assert c[0] in c;
        assert c[0] in joined;
      }
    }
    if forall x :: x in joined ==> x == '-' {
      forall c, x | c in cells && x in c ensures x == '-' {
        assert x in joined;
      }
    }
    if DashesOnly(cells) {
      forall x | x in joined ensures x == '-' {
        var c :| c in cells && x in c;
      }
    }
    forall x | x in joined ensures x != '|' {
      var c :| c in cells && x in c;
    }
  }

  /** A printed table whose second line does not hold dashes only is refused for that line. */
  lemma SecondLineDecides(headers: seq<string>, second: seq<string>, rows: seq<seq<string>>)
    requires CleanRow(second) && !HasPrefix(second[|second| - 1], "#")
    ensures ParsedLines(PrintedLines(headers, second, rows)) == Err(BadSeparator) <==> !DashesOnly(second)
  {
    hide IsSeparator, PrintLine, DashesOnly, RowOf, Fields;
    SeparatorIff(second);
  }

  /** It takes two lines to make a table. */
  lemma TooFewLinesIff(lines: seq<string>)
    requires lines != [] && NoNewlines(lines)
    ensures Parsed(Join(lines, "\n")) == Err(TooFewLines) <==> |Filter(Significant, DropTrail(DropLead(lines)))| < 2
  {
    hide Significant, Filter, Join, Parsed, IsSeparator, RowOf, DropLead, DropTrail, NoNewlines;
    ParsedIsOfSignificantLines(lines);
  }
}
