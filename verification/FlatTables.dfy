/** Flattening the Markdown tables of a whole text. */
module FlatTables {
  import opened Text
  import opened Tables

  // ----- separator rows -----

  /** One colon at most is dropped at each end. */
  function StripColons(t: string): string {
    var u := if t != "" && t[0] == ':' then t[1..] else t;
    if u != "" && u[|u| - 1] == ':' then u[..|u| - 1] else u
  }

  predicate AllDashes(u: string) { forall k :: 0 <= k < |u| ==> u[k] == '-' }

  predicate IsSeparatorCell(c: string) {
    var t := TrimSpace(c);
    t == "" || (StripColons(t) != "" && AllDashes(StripColons(t)))
  }

  predicate IsSeparator(line: string) {
    IsRow(line) && forall k :: 0 <= k < |ParsedRow(line)| ==> IsSeparatorCell(ParsedRow(line)[k])
  }

  method IsMarkdownTableSeparator(line: string) returns (b: bool)
    ensures b == IsSeparator(line)
  {
    var row := IsMarkdownTableRow(line);
    if !row {
      return false;
    }
    var cells := ParseMarkdownTableRow(line);
    for i := 0 to |cells|
      invariant forall k :: 0 <= k < i ==> IsSeparatorCell(cells[k])
    {
      var c := TrimSpace(cells[i]);
      if c == "" {
        continue;
      }
      if c[0] == ':' {
        c := c[1..];
      }
      if c != "" && c[|c| - 1] == ':' {
        c := c[..|c| - 1];
      }
      assert c == StripColons(TrimSpace(cells[i]));
      if c == "" {
        return false;
      }
      for j := 0 to |c|
        invariant forall k :: 0 <= k < j ==> c[k] == '-'
      {
        if c[j] != '-' {
          return false;
        }
      }
    }
    return true;
  }

  function Dashes(n: nat): string { seq(n, _ => '-') }

  function Colon(present: bool): string { if present then ":" else "" }

  /** At least one dash, with an optional colon on either side. */
  ghost predicate DashForm(t: string) {
    exists n: nat, left: bool, right: bool :: n > 0 && t == Colon(left) + Dashes(n) + Colon(right)
  }

  lemma {:induction false} StripDashForm(n: nat, left: bool, right: bool)
    requires n > 0
    ensures StripColons(Colon(left) + Dashes(n) + Colon(right)) == Dashes(n)
  {
    var t := Colon(left) + Dashes(n) + Colon(right);
    var u := if t[0] == ':' then t[1..] else t;
    assert Dashes(n)[0] == '-' && Dashes(n)[n - 1] == '-';
    assert u == Dashes(n) + Colon(right);
    assert u[|u| - 1] == if right then ':' else '-';
  }

  lemma {:induction false} DashFormIsCell(t: string)
    requires DashForm(t)
    ensures t != "" && StripColons(t) != "" && AllDashes(StripColons(t))
  {
    var n: nat, left: bool, right: bool :| n > 0 && t == Colon(left) + Dashes(n) + Colon(right);
    StripDashForm(n, left, right);
    assert |t| >= |Dashes(n)|;
  }

  lemma {:induction false} DashFormOf(t: string)
    requires StripColons(t) != "" && AllDashes(StripColons(t))
    ensures DashForm(t)
  {
    var u := if t[0] == ':' then t[1..] else t;
    var d := StripColons(t);
    assert d == Dashes(|d|);
    assert u == d + Colon(u[|u| - 1] == ':');
    assert t == Colon(t[0] == ':') + Dashes(|d|) + Colon(u[|u| - 1] == ':');
  }

  /** A separator cell is blank, or dashes with an optional colon on either side. */
  lemma {:induction false} SeparatorCellIff(c: string)
    ensures IsSeparatorCell(c) <==> TrimSpace(c) == "" || DashForm(TrimSpace(c))
  {
    if DashForm(TrimSpace(c)) { DashFormIsCell(TrimSpace(c)); }
    if TrimSpace(c) != "" && IsSeparatorCell(c) { DashFormOf(TrimSpace(c)); }
  }

  // ----- rendering one table -----

  const DOT := " \U{B7} "

  function Columns(rows: seq<seq<string>>): nat {
    if rows == [] then 0
    else if |rows[|rows| - 1]| > Columns(rows[..|rows| - 1]) then |rows[|rows| - 1]|
    else Columns(rows[..|rows| - 1])
  }

  function Padded(row: seq<string>, cols: nat): seq<string>
    decreases cols - |row|
  {
    if |row| < cols then Padded(row + [""], cols) else row
  }

  function CellAt(row: seq<string>, k: nat): string {
    if k < |row| then row[k] else ""
  }

  function RowText(row: seq<string>, cols: nat): string {
    if cols == 2 then CellAt(row, 0) + ": " + CellAt(row, 1) else Join(Padded(row, cols), DOT)
  }

  function RowTexts(rows: seq<seq<string>>, cols: nat): (r: seq<string>)
    ensures |r| == |rows|
    ensures forall k :: 0 <= k < |r| ==> r[k] == RowText(rows[k], cols)
  {
    seq(|rows|, k requires 0 <= k < |rows| => RowText(rows[k], cols))
  }

  lemma {:induction false} JoinSnoc(parts: seq<string>, last: string, sep: string)
    ensures Join(parts + [last], sep) == if parts == [] then last else Join(parts, sep) + sep + last
  {
    if parts != [] {
      assert (parts + [last])[1..] == parts[1..] + [last];
      JoinSnoc(parts[1..], last, sep);
      if |parts| > 1 {
        assert parts[0] + sep + (Join(parts[1..], sep) + sep + last)
            == parts[0] + sep + Join(parts[1..], sep) + sep + last;
      }
    }
  }

  lemma {:induction false} JoinNext(texts: seq<string>, i: nat)
    requires i < |texts|
    ensures Join(texts[..i + 1], "\n") == (if i > 0 then Join(texts[..i], "\n") + "\n" else "") + texts[i]
  {
    JoinSnoc(texts[..i], texts[i], "\n");
    assert texts[..i + 1] == texts[..i] + [texts[i]];
  }

  method PadRow(row: seq<string>, cols: nat) returns (padded: seq<string>)
    ensures padded == Padded(row, cols)
  {
    padded := row;
    while |padded| < cols
      invariant Padded(padded, cols) == Padded(row, cols)
    {
      padded := padded + [""];
    }
  }

  method MaxColumns(rows: seq<seq<string>>) returns (cols: nat)
    ensures cols == Columns(rows)
  {
    cols := 0;
    for i := 0 to |rows|
      invariant cols == Columns(rows[..i])
    {
      assert rows[..i + 1][..i] == rows[..i];
      if |rows[i]| > cols {
        cols := |rows[i]|;
      }
    }
    assert rows[..|rows|] == rows;
  }

  method RenderFlatTable(rows: seq<seq<string>>) returns (text: string)
    ensures text == Join(RowTexts(rows, Columns(rows)), "\n")
  {
    if |rows| == 0 {
      return "";
    }
    var cols := MaxColumns(rows);
    ghost var texts := RowTexts(rows, cols);
    text := "";
    for i := 0 to |rows|
      invariant |texts| == |rows| && text == Join(texts[..i], "\n")
    {
      JoinNext(texts, i);
      if i > 0 {
        text := text + "\n";
      }
      if cols == 2 {
        var left, right := "", "";
        if |rows[i]| > 0 {
          left := rows[i][0];
        }
        if |rows[i]| > 1 {
          right := rows[i][1];
        }
        text := text + (left + ": " + right);
      } else {
        var padded := PadRow(rows[i], cols);
        text := text + Join(padded, DOT);
      }
    }
    assert texts[..|rows|] == texts;
  }

  // ----- blocks of a text -----

  datatype Block = Plain(line: string) | Table(header: string, separator: string, rows: seq<string>)

  /** How many leading lines are rows. */
  function RowRun(lines: seq<string>): (n: nat)
    ensures n <= |lines| && (n < |lines| ==> !IsRow(lines[n]))
    ensures forall k :: 0 <= k < n ==> IsRow(lines[k])
  {
    if lines != [] && IsRow(lines[0]) then 1 + RowRun(lines[1..]) else 0
  }

  predicate StartsTable(lines: seq<string>) {
    |lines| >= 2 && IsRow(lines[0]) && IsSeparator(lines[1])
  }

  function Blocks(lines: seq<string>): seq<Block> {
    if lines == [] then []
    else if StartsTable(lines) then
      var n := RowRun(lines[2..]);
      [Table(lines[0], lines[1], lines[2..2 + n])] + Blocks(lines[2 + n..])
    else [Plain(lines[0])] + Blocks(lines[1..])
  }

  function ParsedRows(lines: seq<string>): (r: seq<seq<string>>)
    ensures |r| == |lines|
    ensures forall k :: 0 <= k < |r| ==> r[k] == ParsedRow(lines[k])
  {
    seq(|lines|, k requires 0 <= k < |lines| => ParsedRow(lines[k]))
  }

  /** The lines a block stands for in the result. */
  function Emitted(b: Block): (r: seq<string>)
    ensures r != []
  {
    match b
    case Plain(line) => [line]
    case Table(header, _, rows) =>
      var cells := ParsedRows([header] + rows);
      RowTexts(cells, Columns(cells))
  }

  function AllEmitted(bs: seq<Block>): seq<string> {
    if bs == [] then [] else Emitted(bs[0]) + AllEmitted(bs[1..])
  }

  function BlockTexts(bs: seq<Block>): seq<string> {
    if bs == [] then [] else [Join(Emitted(bs[0]), "\n")] + BlockTexts(bs[1..])
  }

  function Flat(text: string): string {
    Join(AllEmitted(Blocks(Split(text, "\n"))), "\n")
  }

  lemma {:induction false} PlainStep(lines: seq<string>, i: nat)
    requires i < |lines| && !StartsTable(lines[i..])
    ensures BlockTexts(Blocks(lines[i..])) == [lines[i]] + BlockTexts(Blocks(lines[i + 1..]))
  {
    assert lines[i..][1..] == lines[i + 1..];
    assert Join([lines[i]], "\n") == lines[i];
  }

  lemma {:induction false} TableStep(lines: seq<string>, start: nat, i: nat)
    requires start + 2 <= i <= |lines| && StartsTable(lines[start..])
    requires RowRun(lines[start + 2..]) == i - (start + 2)
    ensures var text := Join(Emitted(Table(lines[start], lines[start + 1], lines[start + 2..i])), "\n");
            BlockTexts(Blocks(lines[start..])) == [text] + BlockTexts(Blocks(lines[i..]))
  {
    var rest, n := lines[start..], i - (start + 2);
    assert rest[2..] == lines[start + 2..];
    assert rest[2..2 + n] == lines[start + 2..i];
    assert rest[2 + n..] == lines[i..];
    assert Blocks(rest) == [Table(rest[0], rest[1], rest[2..2 + n])] + Blocks(rest[2 + n..]);
  }

  lemma {:induction false} RowRunStep(lines: seq<string>, i: nat)
    requires i <= |lines|
    ensures RowRun(lines[i..]) == if i < |lines| && IsRow(lines[i]) then 1 + RowRun(lines[i + 1..]) else 0
  {
    if i < |lines| { assert lines[i..][1..] == lines[i + 1..]; }
  }

  lemma {:induction false} ParsedRowsNext(header: string, lines: seq<string>, from: nat, i: nat)
    requires from <= i < |lines|
    ensures ParsedRows([header] + lines[from..i + 1]) == ParsedRows([header] + lines[from..i]) + [ParsedRow(lines[i])]
  {}

  lemma {:induction false} MoveOne<T>(a: seq<T>, x: T, b: seq<T>)
    ensures a + [x] + b == a + ([x] + b)
  {}

  /** The guard of the loop below. */
  method TableStartsAt(lines: seq<string>, i: nat) returns (b: bool)
    requires i < |lines|
    ensures b == StartsTable(lines[i..])
  {
    b := false;
    if i + 1 < |lines| {
      b := IsMarkdownTableRow(lines[i]);
      if b {
        b := IsMarkdownTableSeparator(lines[i + 1]);
      }
    }
  }

  method FlattenMarkdownTables(text: string) returns (r: string)
    ensures r == Flat(text)
  {
    if !Contains(text, "|") {
      NoPipeIsPlain(text);
      return text;
    }
    var lines := Split(text, "\n");
    var out: seq<string> := [];
    ghost var all := BlockTexts(Blocks(lines));
    var i := 0;
    while i < |lines|
      invariant i <= |lines|
      invariant out + BlockTexts(Blocks(lines[i..])) == all
    {
      var table := TableStartsAt(lines, i);
      var flat: string;
      if table {
        flat, i := FlattenOneTable(lines, i);
      } else {
        PlainStep(lines, i);
        flat := lines[i];
        i := i + 1;
      }
      MoveOne(out, flat, BlockTexts(Blocks(lines[i..])));
      out := out + [flat];
    }
    assert lines[i..] == [];
    assert out == all;
    JoinBlockTexts(Blocks(lines));
    r := Join(out, "\n");
  }

  /** The inner loop: every row that follows, parsed. */
  method ParseTable(lines: seq<string>, start: nat) returns (rows: seq<seq<string>>, i: nat)
    requires start + 2 <= |lines|
    ensures start + 2 <= i <= |lines| && RowRun(lines[start + 2..]) == i - (start + 2)
    ensures rows == ParsedRows([lines[start]] + lines[start + 2..i])
  {
    var header := ParseMarkdownTableRow(lines[start]);
    i := start + 2;
    rows := [header];
    ghost var seen := [lines[start]] + lines[start + 2..i];
    assert seen == [lines[start]];
    ghost var run := RowRun(lines[start + 2..]);
    while i < |lines|
      invariant start + 2 <= i <= |lines| && seen == [lines[start]] + lines[start + 2..i]
      invariant rows == ParsedRows(seen)
      invariant run == i - (start + 2) + RowRun(lines[i..])
    {
      RowRunStep(lines, i);
      var row := IsMarkdownTableRow(lines[i]);
      if !row {
        return;
      }
      var cells := ParseMarkdownTableRow(lines[i]);
      ParsedRowsNext(lines[start], lines, start + 2, i);
      rows := rows + [cells];
      i := i + 1;
      seen := [lines[start]] + lines[start + 2..i];
    }
    RowRunStep(lines, i);
  }

  /** What the loop above does with a table that starts at a given line. */
  method FlattenOneTable(lines: seq<string>, start: nat) returns (text: string, i: nat)
    requires start < |lines| && StartsTable(lines[start..])
    ensures start < i <= |lines|
    ensures BlockTexts(Blocks(lines[start..])) == [text] + BlockTexts(Blocks(lines[i..]))
  {
    var rows;
    rows, i := ParseTable(lines, start);
    TableStep(lines, start, i);
    text := RenderFlatTable(rows);
  }

  // ----- joining the blocks is joining their lines -----

  lemma {:induction false} JoinConcat(a: seq<string>, b: seq<string>, sep: string)
    requires a != [] && b != []
    ensures Join(a + b, sep) == Join(a, sep) + sep + Join(b, sep)
  {
    assert (a + b)[1..] == a[1..] + b;
    if |a| > 1 {
      JoinConcat(a[1..], b, sep);
      assert a[0] + sep + (Join(a[1..], sep) + sep + Join(b, sep))
          == a[0] + sep + Join(a[1..], sep) + sep + Join(b, sep);
    } else {
      assert a[1..] + b == b;
    }
  }

  lemma {:induction false} JoinBlockTexts(bs: seq<Block>)
    ensures Join(BlockTexts(bs), "\n") == Join(AllEmitted(bs), "\n")
  {
    if bs != [] {
      JoinBlockTexts(bs[1..]);
      if |bs| > 1 {
        assert AllEmitted(bs[1..]) != [];
        JoinConcat(Emitted(bs[0]), AllEmitted(bs[1..]), "\n");
      } else {
        assert AllEmitted(bs) == Emitted(bs[0]);
      }
    }
  }

  // ----- the decomposition -----

  function Source(b: Block): (r: seq<string>)
    ensures r != []
  {
    match b
    case Plain(line) => [line]
    case Table(header, separator, rows) => [header, separator] + rows
  }

  function Sources(bs: seq<Block>): seq<string> {
    if bs == [] then [] else Source(bs[0]) + Sources(bs[1..])
  }

  function TableCount(bs: seq<Block>): nat {
    if bs == [] then 0 else (if bs[0].Table? then 1 else 0) + TableCount(bs[1..])
  }

  /** The blocks are cut where they must be: a table is a row, a separator and then every
      row that follows, and a plain line does not begin a table. */
  predicate WellCut(bs: seq<Block>) {
    bs != [] ==>
      && WellCut(bs[1..])
      && match bs[0]
         case Plain(_) => !StartsTable(Sources(bs))
         case Table(header, separator, rows) =>
           && IsRow(header) && IsSeparator(separator)
           && (forall k :: 0 <= k < |rows| ==> IsRow(rows[k]))
           && (|bs| > 1 ==> !IsRow(Source(bs[1])[0]))
  }

  lemma {:induction false} TableLines(lines: seq<string>, n: nat)
    requires n + 2 <= |lines|
    ensures [lines[0], lines[1]] + lines[2..2 + n] + lines[2 + n..] == lines
  {}

  lemma {:induction false} CoverTable(lines: seq<string>, n: nat, bs: seq<Block>)
    requires n + 2 <= |lines| && Sources(bs) == lines[2 + n..]
    ensures Sources([Table(lines[0], lines[1], lines[2..2 + n])] + bs) == lines
  {
    var b := Table(lines[0], lines[1], lines[2..2 + n]);
    assert ([b] + bs)[1..] == bs;
    TableLines(lines, n);
  }

  lemma {:induction false} CoverPlain(lines: seq<string>, bs: seq<Block>)
    requires lines != [] && Sources(bs) == lines[1..]
    ensures Sources([Plain(lines[0])] + bs) == lines
  {
    assert ([Plain(lines[0])] + bs)[1..] == bs;
    assert lines == [lines[0]] + lines[1..];
  }

  lemma {:induction false} BlocksCoverLines(lines: seq<string>)
    ensures Sources(Blocks(lines)) == lines
  {
    if lines != [] {
      if StartsTable(lines) {
        var n := RowRun(lines[2..]);
        BlocksCoverLines(lines[2 + n..]);
        CoverTable(lines, n, Blocks(lines[2 + n..]));
      } else {
        BlocksCoverLines(lines[1..]);
        CoverPlain(lines, Blocks(lines[1..]));
      }
    }
  }

  lemma {:induction false} SourcesBegin(bs: seq<Block>)
    requires bs != []
    ensures Sources(bs) != [] && Sources(bs)[0] == Source(bs[0])[0]
  {}

  lemma {:induction false} BlocksAreWellCut(lines: seq<string>)
    ensures WellCut(Blocks(lines))
  {
    if lines != [] {
      var bs := Blocks(lines);
      BlocksCoverLines(lines);
      if StartsTable(lines) {
        var n := RowRun(lines[2..]);
        var rest := lines[2 + n..];
        BlocksAreWellCut(rest);
        assert bs[1..] == Blocks(rest);
        BlocksCoverLines(rest);
        if rest != [] { SourcesBegin(bs[1..]); assert rest[0] == lines[2..][n]; }
      } else {
        BlocksAreWellCut(lines[1..]);
        assert bs[1..] == Blocks(lines[1..]);
      }
    }
  }

  lemma {:induction false} RowRunOf(rows: seq<string>, rest: seq<string>)
    requires forall k :: 0 <= k < |rows| ==> IsRow(rows[k])
    requires rest != [] ==> !IsRow(rest[0])
    ensures RowRun(rows + rest) == |rows|
  {
    if rows == [] {
      assert rows + rest == rest;
    } else {
      assert (rows + rest)[1..] == rows[1..] + rest;
      RowRunOf(rows[1..], rest);
    }
  }

  lemma {:induction false} TableIsCutOff(header: string, separator: string, rows: seq<string>, rest: seq<string>)
    requires IsRow(header) && IsSeparator(separator) && RowRun(rows + rest) == |rows|
    ensures Blocks([header, separator] + rows + rest) == [Table(header, separator, rows)] + Blocks(rest)
  {
    var lines := [header, separator] + rows + rest;
    assert lines[2..] == rows + rest;
    assert lines[2..2 + |rows|] == rows && lines[2 + |rows|..] == rest;
  }

  lemma {:induction false} TableComesFirst(t: Block, rest: seq<Block>)
    requires t.Table? && WellCut([t] + rest)
    ensures Blocks(Sources([t] + rest)) == [t] + Blocks(Sources(rest))
  {
    assert ([t] + rest)[1..] == rest;
    if rest != [] { SourcesBegin(rest); }
    RowRunOf(t.rows, Sources(rest));
    TableIsCutOff(t.header, t.separator, t.rows, Sources(rest));
  }

  lemma {:induction false} LineComesFirst(t: Block, rest: seq<Block>)
    requires t.Plain? && WellCut([t] + rest)
    ensures Blocks(Sources([t] + rest)) == [t] + Blocks(Sources(rest))
  {
    assert ([t] + rest)[1..] == rest;
    assert ([t.line] + Sources(rest))[1..] == Sources(rest);
  }

  lemma {:induction false} WellCutTail(first: Block, rest: seq<Block>)
    requires WellCut([first] + rest)
    ensures WellCut(rest)
  {
    assert ([first] + rest)[1..] == rest;
  }

  lemma {:induction false} FirstAndRest(first: Block, rest: seq<Block>)
    requires WellCut([first] + rest) && Blocks(Sources(rest)) == rest
    ensures Blocks(Sources([first] + rest)) == [first] + rest
  {
    if first.Table? { TableComesFirst(first, rest); } else { LineComesFirst(first, rest); }
  }

  /** There is no other way to cut a text that way. */
  lemma {:induction false} WellCutIsBlocks(bs: seq<Block>)
    requires WellCut(bs)
    ensures Blocks(Sources(bs)) == bs
  {
    if bs != [] {
      var first, rest := bs[0], bs[1..];
      assert bs == [first] + rest;
      WellCutTail(first, rest);
      WellCutIsBlocks(rest);
      FirstAndRest(first, rest);
    }
  }

  lemma {:induction false} EmittedCount(bs: seq<Block>)
    ensures |AllEmitted(bs)| == |Sources(bs)| - TableCount(bs)
  {
    if bs != [] { EmittedCount(bs[1..]); }
  }

  // ----- what is emitted for a row is one line -----

  ghost predicate OneLine(s: string) { '\n' !in s }

  ghost predicate AllOneLine(parts: seq<string>) {
    forall k :: 0 <= k < |parts| ==> OneLine(parts[k])
  }

  lemma {:induction false} TrimStaysOneLine(s: string)
    requires OneLine(s)
    ensures OneLine(TrimSpace(s))
  {
    var i, j := TrimSpaceIsSlice(s);
  }

  lemma {:induction false} CellsAreOneLine(s: string, cur: string)
    requires OneLine(s) && OneLine(cur)
    ensures AllOneLine(Cells(s, cur))
    decreases |s|
  {
    TrimStaysOneLine(cur);
    if s == "" {
    } else if s[0] == '\\' && |s| > 1 && s[1] == '|' {
      CellsAreOneLine(s[2..], cur + "|");
    } else if s[0] == '|' {
      CellsAreOneLine(s[1..], "");
    } else {
      CellsAreOneLine(s[1..], cur + [s[0]]);
    }
  }

  lemma {:induction false} ParsedRowIsOneLine(line: string)
    requires OneLine(line)
    ensures AllOneLine(ParsedRow(line))
  {
    TrimStaysOneLine(line);
    CellsAreOneLine(Inner(line), "");
  }

  lemma {:induction false} JoinIsOneLine(parts: seq<string>, sep: string)
    requires AllOneLine(parts) && OneLine(sep)
    ensures OneLine(Join(parts, sep))
  {
    if |parts| > 1 { JoinIsOneLine(parts[1..], sep); }
  }

  lemma {:induction false} PaddedIsOneLine(row: seq<string>, cols: nat)
    requires AllOneLine(row)
    ensures AllOneLine(Padded(row, cols))
    decreases cols - |row|
  {
    if |row| < cols { PaddedIsOneLine(row + [""], cols); }
  }

  lemma {:induction false} RowTextIsOneLine(row: seq<string>, cols: nat)
    requires AllOneLine(row)
    ensures OneLine(RowText(row, cols))
  {
    if cols != 2 {
      PaddedIsOneLine(row, cols);
      JoinIsOneLine(Padded(row, cols), DOT);
    }
  }

  lemma {:induction false} EmittedIsOneLine(b: Block)
    requires AllOneLine(Source(b))
    ensures AllOneLine(Emitted(b))
  {
    if b.Table? {
      var lines := [b.header] + b.rows;
      var cells := ParsedRows(lines);
      forall k | 0 <= k < |lines| ensures OneLine(Emitted(b)[k]) {
        assert lines[k] == if k == 0 then Source(b)[0] else Source(b)[k + 1];
        ParsedRowIsOneLine(lines[k]);
        RowTextIsOneLine(cells[k], Columns(cells));
      }
    }
  }

  lemma {:induction false} AllEmittedOneLine(bs: seq<Block>)
    requires AllOneLine(Sources(bs))
    ensures AllOneLine(AllEmitted(bs))
  {
    if bs != [] {
      var first, rest := Source(bs[0]), Sources(bs[1..]);
      forall k | 0 <= k < |first| ensures OneLine(first[k]) { assert Sources(bs)[k] == first[k]; }
      forall k | 0 <= k < |rest| ensures OneLine(rest[k]) { assert Sources(bs)[|first| + k] == rest[k]; }
      EmittedIsOneLine(bs[0]);
      AllEmittedOneLine(bs[1..]);
    }
  }

  // ----- lines of the result -----

  lemma {:induction false} ContainsChar(s: string, c: char)
    ensures Contains(s, [c]) <==> c in s
  {
    if s != "" {
      ContainsChar(s[1..], c);
      assert s == [s[0]] + s[1..];
    }
  }

  lemma {:induction false} NewlineIsBorderFree()
    ensures BorderFree("\n")
  {}

  lemma {:induction false} SplitIsOneLine(text: string)
    ensures AllOneLine(Split(text, "\n"))
  {
    NewlineIsBorderFree();
    SplitPartsAreFree(text, "\n");
    var parts := Split(text, "\n");
    forall k | 0 <= k < |parts| ensures OneLine(parts[k]) { ContainsChar(parts[k], '\n'); }
  }

  lemma {:induction false} SplitJoinLines(lines: seq<string>)
    requires lines != [] && AllOneLine(lines)
    ensures Split(Join(lines, "\n"), "\n") == lines
  {
    NewlineIsBorderFree();
    forall i | 0 <= i < |lines| ensures !Contains(lines[i], "\n") { ContainsChar(lines[i], '\n'); }
    SplitOfJoined(lines, "\n");
  }

  /** The result's lines are the emitted lines of the one well-cut decomposition of the
      text, one line fewer for every table in it. */
  lemma {:induction false} FlatteningLines(text: string) returns (bs: seq<Block>)
    ensures Sources(bs) == Split(text, "\n") && WellCut(bs)
    ensures Split(Flat(text), "\n") == AllEmitted(bs)
    ensures |AllEmitted(bs)| == |Split(text, "\n")| - TableCount(bs)
  {
    var lines := Split(text, "\n");
    bs := Blocks(lines);
    BlocksCoverLines(lines);
    BlocksAreWellCut(lines);
    EmittedCount(bs);
    SplitIsOneLine(text);
    AllEmittedOneLine(bs);
    assert AllEmitted(bs) != [];
    SplitJoinLines(AllEmitted(bs));
  }

  // ----- when nothing changes -----

  /** Some row is followed directly by a separator. */
  ghost predicate HasTable(lines: seq<string>) {
    exists k :: 0 <= k < |lines| - 1 && IsRow(lines[k]) && IsSeparator(lines[k + 1])
  }

  lemma {:induction false} NoTableIsPlain(lines: seq<string>)
    requires !HasTable(lines)
    ensures AllEmitted(Blocks(lines)) == lines
  {
    if lines != [] {
      assert !StartsTable(lines);
      var rest := lines[1..];
      forall k | 0 <= k < |rest| - 1 ensures !(IsRow(rest[k]) && IsSeparator(rest[k + 1])) {
        assert rest[k] == lines[k + 1] && rest[k + 1] == lines[(k + 1) + 1];
      }
      NoTableIsPlain(rest);
      assert Blocks(lines)[1..] == Blocks(rest);
      assert lines == [lines[0]] + rest;
    }
  }

  lemma {:induction false} TableIsFound(lines: seq<string>, k: nat)
    requires k < |lines| - 1 && IsRow(lines[k]) && IsSeparator(lines[k + 1])
    ensures TableCount(Blocks(lines)) > 0
  {
    if !StartsTable(lines) {
      assert k > 0;
      TableIsFound(lines[1..], k - 1);
      assert Blocks(lines)[1..] == Blocks(lines[1..]);
    }
  }

  /** Flattening leaves a text alone exactly when no row is followed by a separator. */
  lemma {:induction false} IdentityIff(text: string)
    ensures Flat(text) == text <==> !HasTable(Split(text, "\n"))
  {
    var lines := Split(text, "\n");
    if HasTable(lines) {
      var k :| 0 <= k < |lines| - 1 && IsRow(lines[k]) && IsSeparator(lines[k + 1]);
      TableIsFound(lines, k);
      var bs := FlatteningLines(text);
      WellCutIsBlocks(bs);
      assert |Split(Flat(text), "\n")| < |lines|;
    } else {
      NoTableIsPlain(lines);
      JoinSplit(text, "\n");
    }
  }

  lemma {:induction false} SplitKeepsChars(s: string, k: nat, c: char)
    requires k < |Split(s, "\n")| && c in Split(s, "\n")[k]
    ensures c in s
  {
    if "\n" <= s {
      SplitKeepsChars(s[1..], k - 1, c);
    } else if s != "" {
      var rest := Split(s[1..], "\n");
      if k > 0 {
        SplitKeepsChars(s[1..], k, c);
      } else if c != s[0] {
        assert c in rest[0];
        SplitKeepsChars(s[1..], 0, c);
      }
    }
  }

  lemma {:induction false} NoPipeIsPlain(text: string)
    requires !Contains(text, "|")
    ensures Flat(text) == text
  {
    var lines := Split(text, "\n");
    ContainsChar(text, '|');
    forall k | 0 <= k < |lines| - 1 ensures !IsRow(lines[k]) {
      if '|' in lines[k] { SplitKeepsChars(text, k, '|'); }
      var i, j := TrimSpaceIsSlice(lines[k]);
    }
    IdentityIff(text);
  }

  // ----- every row has two cells at least -----

  /** A line taken for a row has at least two cells, so a table is printed in the label form
      only when every one of its rows has exactly two. */
  lemma {:induction false} RowsHaveTwoCells(line: string)
    requires IsRow(line)
    ensures |ParsedRow(line)| >= 2
  {
    IsRowIff(line);
  }

  lemma {:induction false} ColumnsBound(rows: seq<seq<string>>, k: nat)
    requires k < |rows|
    ensures |rows[k]| <= Columns(rows)
  {
    var front := rows[..|rows| - 1];
    if k < |front| { ColumnsBound(front, k); assert front[k] == rows[k]; }
  }

  lemma {:induction false} LabelFormIsExact(header: string, separator: string, rows: seq<string>, k: nat)
    requires IsRow(header) && forall j :: 0 <= j < |rows| ==> IsRow(rows[j])
    requires k <= |rows| && Columns(ParsedRows([header] + rows)) == 2
    ensures var cells := ParsedRow(([header] + rows)[k]);
            |cells| == 2 && Emitted(Table(header, separator, rows))[k] == cells[0] + ": " + cells[1]
  {
    LabelLine([header] + rows, k);
  }

  lemma {:induction false} LabelLine(lines: seq<string>, k: nat)
    requires k < |lines| && IsRow(lines[k]) && Columns(ParsedRows(lines)) == 2
    ensures var cells := ParsedRow(lines[k]);
            |cells| == 2 && RowTexts(ParsedRows(lines), 2)[k] == cells[0] + ": " + cells[1]
  {
    RowsHaveTwoCells(lines[k]);
    ColumnsBound(ParsedRows(lines), k);
  }

  lemma {:induction false} ColumnsReached(rows: seq<seq<string>>)
    requires rows != []
    ensures exists k :: 0 <= k < |rows| && |rows[k]| == Columns(rows)
  {
    var n := |rows| - 1;
    if n == 0 {
      assert rows[..n] == [];
      assert Columns(rows) == |rows[0]|;
    } else if |rows[n]| != Columns(rows) {
      ColumnsReached(rows[..n]);
      var k :| 0 <= k < n && |rows[..n][k]| == Columns(rows[..n]);
      assert rows[k] == rows[..n][k];
    }
  }

  /** A row filled up with empty cells. */
  ghost predicate FilledUp(padded: seq<string>, row: seq<string>, cols: nat) {
    |padded| == cols && |row| <= cols && row <= padded && forall j :: |row| <= j < cols ==> padded[j] == ""
  }

  lemma {:induction false} PaddedFills(row: seq<string>, cols: nat)
    requires |row| <= cols
    ensures FilledUp(Padded(row, cols), row, cols)
    decreases cols - |row|
  {
    if |row| < cols {
      PaddedFills(row + [""], cols);
      var p := Padded(row + [""], cols);
      assert p[..|row|] == (row + [""])[..|row|] == row;
      assert p[|row|] == (row + [""])[|row|] == "";
    }
  }

  /** cols is the largest number of cells in a line of the table. */
  ghost predicate IsWidth(lines: seq<string>, cols: nat) {
    && (forall k :: 0 <= k < |lines| ==> |ParsedRow(lines[k])| <= cols)
    && exists k :: 0 <= k < |lines| && |ParsedRow(lines[k])| == cols
  }

  lemma {:induction false} ColumnsAreWidth(lines: seq<string>)
    requires lines != []
    ensures IsWidth(lines, Columns(ParsedRows(lines)))
  {
    var rows := ParsedRows(lines);
    ColumnsReached(rows);
    var k :| 0 <= k < |rows| && |rows[k]| == Columns(rows);
    assert |ParsedRow(lines[k])| == Columns(rows);
    forall j | 0 <= j < |lines| ensures |ParsedRow(lines[j])| <= Columns(rows) { ColumnsBound(rows, j); }
  }

  /** In a wider table every line, the header too, is printed as its cells with dots between
      them, filled up to the width of the table; the separator is not printed. */
  lemma {:induction false} WideFormIsExact(header: string, separator: string, rows: seq<string>, k: nat)
    returns (cols: nat, padded: seq<string>)
    requires k <= |rows| && Columns(ParsedRows([header] + rows)) != 2
    ensures IsWidth([header] + rows, cols) && FilledUp(padded, ParsedRow(([header] + rows)[k]), cols)
    ensures |Emitted(Table(header, separator, rows))| == |rows| + 1
    ensures Emitted(Table(header, separator, rows))[k] == Join(padded, " \U{B7} ")
  {
    var lines := [header] + rows;
    cols := Columns(ParsedRows(lines));
    ColumnsAreWidth(lines);
    ColumnsBound(ParsedRows(lines), k);
    padded := Padded(ParsedRow(lines[k]), cols);
    PaddedFills(ParsedRow(lines[k]), cols);
  }
}
