/** Markdown tables flattened to plain text, line by line. */
module Tables {
  import opened Text

  // ----- rows -----

  /** Position i holds a pipe that no backslash precedes inside s. */
  predicate BarePipe(s: string, i: int) {
    0 <= i < |s| && s[i] == '|' && (i == 0 || s[i - 1] != '\\')
  }

  predicate HasBarePipe(s: string) {
    exists i :: 0 <= i < |s| && BarePipe(s, i)
  }

  /** Pipes at both ends of the trimmed line, and a bare one in between. */
  predicate IsRow(line: string) {
    var t := TrimSpace(line);
    |t| >= 3 && t[0] == '|' && t[|t| - 1] == '|' && HasBarePipe(t[1..|t| - 1])
  }

  method IsMarkdownTableRow(line: string) returns (b: bool)
    ensures b == IsRow(line)
  {
    var t := TrimSpace(line);
    if |t| < 3 || t[0] != '|' || t[|t| - 1] != '|' {
      return false;
    }
    var interior := t[1..|t| - 1];
    for i := 0 to |interior|
      invariant forall k :: 0 <= k < i ==> !BarePipe(interior, k)
    {
      if interior[i] == '|' && (i == 0 || interior[i - 1] != '\\') {
        assert BarePipe(interior, i);
        return true;
      }
    }
    return false;
  }

  /** Cells are cut at bare pipes; an escaped pipe is a pipe of the cell. */
  function Cells(s: string, cur: string): (r: seq<string>)
    ensures r != []
    decreases |s|
  {
    if s == "" then [TrimSpace(cur)]
    else if s[0] == '\\' && |s| > 1 && s[1] == '|' then Cells(s[2..], cur + "|")
    else if s[0] == '|' then [TrimSpace(cur)] + Cells(s[1..], "")
    else Cells(s[1..], cur + [s[0]])
  }

  /** The trimmed line without its outer pipes. */
  function Inner(line: string): string {
    var t := TrimSpace(line);
    var u := if t != "" && t[0] == '|' then t[1..] else t;
    if u != "" && u[|u| - 1] == '|' then u[..|u| - 1] else u
  }

  function ParsedRow(line: string): (r: seq<string>)
    ensures r != []
  {
    Cells(Inner(line), "")
  }

  method ParseMarkdownTableRow(line: string) returns (cells: seq<string>)
    ensures cells == ParsedRow(line)
  {
    var trimmed := TrimSpace(line);
    if trimmed != "" && trimmed[0] == '|' {
      trimmed := trimmed[1..];
    }
    if trimmed != "" && trimmed[|trimmed| - 1] == '|' {
      trimmed := trimmed[..|trimmed| - 1];
    }
    cells := [];
    var cur := "";
    var i := 0;
    while i < |trimmed|
      invariant i <= |trimmed|
      invariant cells + Cells(trimmed[i..], cur) == Cells(trimmed, "")
    {
      var c := trimmed[i];
      if c == '\\' && i + 1 < |trimmed| && trimmed[i + 1] == '|' {
        assert trimmed[i..][2..] == trimmed[i + 2..];
        cur := cur + "|";
        i := i + 2;
        continue;
      }
      assert trimmed[i..][1..] == trimmed[i + 1..];
      if c == '|' {
        cells := cells + [TrimSpace(cur)];
        cur := "";
      } else {
        cur := cur + [c];
      }
      i := i + 1;
    }
    cells := cells + [TrimSpace(cur)];
  }

  lemma {:induction false} CutsAtBarePipe(s: string, cur: string)
    requires |Cells(s, cur)| >= 2
    ensures HasBarePipe(s)
    decreases |s|
  {
    if s[0] == '\\' && |s| > 1 && s[1] == '|' {
      CutsAtBarePipe(s[2..], cur + "|");
      var i :| 0 <= i < |s[2..]| && BarePipe(s[2..], i);
      assert BarePipe(s, i + 2);
    } else if s[0] == '|' {
      assert BarePipe(s, 0);
    } else {
      CutsAtBarePipe(s[1..], cur + [s[0]]);
      var i :| 0 <= i < |s[1..]| && BarePipe(s[1..], i);
      assert BarePipe(s, i + 1);
    }
  }

  lemma {:induction false} BarePipeCuts(s: string, cur: string, i: nat)
    requires BarePipe(s, i)
    ensures |Cells(s, cur)| >= 2
    decreases |s|
  {
    if s[0] == '\\' && |s| > 1 && s[1] == '|' {
      assert i >= 2;
      assert BarePipe(s[2..], i - 2);
      BarePipeCuts(s[2..], cur + "|", i - 2);
    } else if s[0] != '|' {
      assert BarePipe(s[1..], i - 1);
      BarePipeCuts(s[1..], cur + [s[0]], i - 1);
    }
  }

  /** A line is taken for a row exactly when, trimmed, it has pipes at both ends and parsing
      it gives at least two cells. */
  lemma {:induction false} IsRowIff(line: string)
    ensures IsRow(line) <==>
              var t := TrimSpace(line); |t| >= 3 && t[0] == '|' && t[|t| - 1] == '|' && |ParsedRow(line)| >= 2
  {
    var t := TrimSpace(line);
    if |t| >= 3 && t[0] == '|' && t[|t| - 1] == '|' {
      var inner := t[1..|t| - 1];
      assert Inner(line) == inner;
      if HasBarePipe(inner) {
        var i :| 0 <= i < |inner| && BarePipe(inner, i);
        BarePipeCuts(inner, "", i);
      }
      if |Cells(inner, "")| >= 2 { CutsAtBarePipe(inner, ""); }
    }
  }

  // ----- printing a row and parsing it again -----

  function EscapeCell(c: string): string {
    if c == "" then "" else (if c[0] == '|' then "\\|" else [c[0]]) + EscapeCell(c[1..])
  }

  function PrintedCells(cells: seq<string>): string
    requires cells != []
  {
    if |cells| == 1 then EscapeCell(cells[0]) else EscapeCell(cells[0]) + "|" + PrintedCells(cells[1..])
  }

  function PrintedRow(cells: seq<string>): string
    requires cells != []
  {
    "|" + PrintedCells(cells) + "|"
  }

  ghost predicate Trimmed(c: string) {
    c == "" || (!IsSpace(c[0]) && !IsSpace(c[|c| - 1]))
  }

  predicate EndsInBackslash(c: string) {
    c != "" && c[|c| - 1] == '\\'
  }

  lemma {:induction false} InnerOfPrinted(cells: seq<string>)
    requires cells != []
    ensures Inner(PrintedRow(cells)) == PrintedCells(cells)
  {
    var row := PrintedRow(cells);
    TrimSpaceFixed(row);
    assert row[1..] == PrintedCells(cells) + "|";
  }

  /** An escaped pipe is read as a pipe. */
  lemma {:induction false} ReadPipe(tail: string, cur: string)
    ensures Cells("\\|" + tail, cur) == Cells(tail, cur + "|")
  {
    assert ("\\|" + tail)[2..] == tail;
  }

  /** Any other character is read as itself, unless it is a backslash before a pipe. */
  lemma {:induction false} ReadChar(x: char, tail: string, cur: string)
    requires x != '|' && (x == '\\' && tail != "" ==> tail[0] != '|')
    ensures Cells([x] + tail, cur) == Cells(tail, cur + [x])
  {
    assert ([x] + tail)[1..] == tail;
  }

  lemma {:induction false} EscapedFront(c: string, rest: string)
    requires c != ""
    ensures EscapeCell(c) + rest == (if c[0] == '|' then "\\|" else [c[0]]) + (EscapeCell(c[1..]) + rest)
  {}

  lemma {:induction false} MoveChar(cur: string, c: string)
    requires c != ""
    ensures cur + [c[0]] + c[1..] == cur + c
  {}

  /** Reading an escaped cell puts the cell behind what was read before, unless its last
      backslash swallows a pipe that follows. */
  lemma {:induction false} ReadCell(c: string, rest: string, cur: string)
    requires EndsInBackslash(c) && rest != "" ==> rest[0] != '|'
    ensures Cells(EscapeCell(c) + rest, cur) == Cells(rest, cur + c)
  {
    if c == "" {
      assert EscapeCell(c) + rest == rest && cur + c == cur;
    } else {
      var tail := EscapeCell(c[1..]) + rest;
      ReadCell(c[1..], rest, cur + [c[0]]);
      MoveChar(cur, c);
      EscapedFront(c, rest);
      if c[0] == '|' {
        ReadPipe(tail, cur);
      } else {
        TailIsNoPipe(c, rest);
        ReadChar(c[0], tail, cur);
      }
    }
  }

  lemma {:induction false} TailIsNoPipe(c: string, rest: string)
    requires c != "" && (EndsInBackslash(c) && rest != "" ==> rest[0] != '|')
    ensures var tail := EscapeCell(c[1..]) + rest; c[0] == '\\' && tail != "" ==> tail[0] != '|'
  {
    if c[1..] == "" { assert EscapeCell(c[1..]) + rest == rest; }
  }

  /** Cells that come before the last one must not end in a backslash. */
  ghost predicate Printable(cells: seq<string>) {
    forall i :: 0 <= i < |cells| - 1 ==> !EndsInBackslash(cells[i])
  }

  ghost predicate AllTrimmed(cells: seq<string>) {
    forall i :: 0 <= i < |cells| ==> Trimmed(cells[i])
  }

  lemma {:induction false} TrimmedIsFixed(c: string)
    requires Trimmed(c)
    ensures TrimSpace(c) == c
  {
    if c != "" { TrimSpaceFixed(c); }
  }

  /** A cell that does not end in a backslash is cut off by the pipe behind it. */
  lemma {:induction false} ReadFirst(c: string, rest: string)
    requires !EndsInBackslash(c)
    ensures Cells(EscapeCell(c) + "|" + rest, "") == [TrimSpace(c)] + Cells(rest, "")
  {
    var s := "|" + rest;
    ReadCell(c, s, "");
    assert EscapeCell(c) + "|" + rest == EscapeCell(c) + s && "" + c == c;
    assert s[1..] == rest;
  }

  lemma {:induction false} ReadLast(c: string)
    ensures Cells(EscapeCell(c), "") == [TrimSpace(c)]
  {
    ReadCell(c, "", "");
    assert EscapeCell(c) + "" == EscapeCell(c) && "" + c == c;
  }

  function TrimAll(cells: seq<string>): (r: seq<string>)
    ensures |r| == |cells| && forall i :: 0 <= i < |r| ==> r[i] == TrimSpace(cells[i])
  {
    seq(|cells|, i requires 0 <= i < |cells| => TrimSpace(cells[i]))
  }

  lemma {:induction false} TrimAllFront(c: string, rest: seq<string>)
    ensures TrimAll([c] + rest) == [TrimSpace(c)] + TrimAll(rest)
  {}

  /** Cells with spaces around them are read without them. */
  lemma {:induction false} PrintableReadsBack(cells: seq<string>)
    requires cells != [] && Printable(cells)
    ensures Cells(PrintedCells(cells), "") == TrimAll(cells)
  {
    assert cells == [cells[0]] + cells[1..];
    TrimAllFront(cells[0], cells[1..]);
    if |cells| == 1 {
      ReadLast(cells[0]);
    } else {
      ReadFirst(cells[0], PrintedCells(cells[1..]));
      PrintableReadsBack(cells[1..]);
    }
  }

  /** The first cell begins with what has been read so far. */
  lemma {:induction false} FirstCellBegins(s: string, cur: string)
    requires cur != "" && !IsSpace(cur[0]) && !IsSpace(cur[|cur| - 1])
    ensures cur <= Cells(s, cur)[0]
    decreases |s|
  {
    var t := FirstCellText(s, cur);
    TrimKeepsHead(cur, t);
  }

  lemma {:induction false} FirstCellText(s: string, cur: string) returns (t: string)
    ensures Cells(s, cur)[0] == TrimSpace(cur + t)
    decreases |s|
  {
    t := "";
    assert cur + "" == cur;
    if s == "" {
    } else if s[0] == '\\' && |s| > 1 && s[1] == '|' {
      t := FirstCellText(s[2..], cur + "|");
      assert cur + "|" + t == cur + ("|" + t);
      t := "|" + t;
    } else if s[0] != '|' {
      t := FirstCellText(s[1..], cur + [s[0]]);
      assert cur + [s[0]] + t == cur + ([s[0]] + t);
      t := [s[0]] + t;
    }
  }

  lemma {:induction false} TrimKeepsHead(cur: string, t: string)
    requires cur != "" && !IsSpace(cur[0]) && !IsSpace(cur[|cur| - 1])
    ensures cur <= TrimSpace(cur + t)
  {
    var s := cur + t;
    assert TrimLeft(s) == s;
    var j := TrimRightIsSlice(s);
    assert s[|cur| - 1] == cur[|cur| - 1];
    assert |cur| <= j;
  }

  /** A cell in front that ends in a backslash takes the pipe behind it for its own. */
  lemma {:induction false} SwallowedPipe(x: string, rest: string)
    requires Trimmed(x + ['\\'])
    ensures Cells(EscapeCell(x + ['\\']) + "|" + rest, "")[0] != x + ['\\']
  {
    var s := "\\|" + rest;
    EscapeCellAppend(x);
    assert EscapeCell(x + ['\\']) + "|" + rest == EscapeCell(x) + s;
    ReadCell(x, s, "");
    assert "" + x == x && s[2..] == rest;
    assert Cells(s, x) == Cells(rest, x + "|");
    assert (x + "|")[0] == (if x == "" then '|' else (x + ['\\'])[0]);
    FirstCellBegins(rest, x + "|");
    assert (x + "|")[|x|] == '|' && (x + ['\\'])[|x|] == '\\';
  }

  lemma {:induction false} EscapeCellAppend(x: string)
    ensures EscapeCell(x + ['\\']) == EscapeCell(x) + "\\"
  {
    if x != "" {
      assert (x + ['\\'])[1..] == x[1..] + ['\\'];
      EscapeCellAppend(x[1..]);
    }
  }

  lemma {:induction false} UnprintableReadsOther(cells: seq<string>)
    requires cells != [] && AllTrimmed(cells) && !Printable(cells)
    ensures Cells(PrintedCells(cells), "") != cells
  {
    var c, rest := cells[0], PrintedCells(cells[1..]);
    if EndsInBackslash(c) {
      var x := c[..|c| - 1];
      assert c == x + ['\\'];
      SwallowedPipe(x, rest);
    } else {
      ReadFirst(c, rest);
      TrimmedIsFixed(c);
      UnprintableReadsOther(cells[1..]);
      assert Cells(PrintedCells(cells), "")[1..] == Cells(rest, "");
    }
  }

  /** Trimmed cells, printed as a row with their pipes escaped, are read back exactly when
      no cell but perhaps the last ends in a backslash. */
  lemma {:induction false} RowRoundTripIff(cells: seq<string>)
    requires cells != [] && AllTrimmed(cells)
    ensures ParsedRow(PrintedRow(cells)) == cells <==> Printable(cells)
  {
    InnerOfPrinted(cells);
    if Printable(cells) {
      PrintableReadsBack(cells);
      forall i | 0 <= i < |cells| ensures TrimAll(cells)[i] == cells[i] { TrimmedIsFixed(cells[i]); }
    } else {
      UnprintableReadsOther(cells);
    }
  }

  /** With spaces around them too: what is read are the cells without outer spaces. */
  lemma {:induction false} SpacedRoundTrip(cells: seq<string>)
    requires cells != [] && Printable(cells)
    ensures ParsedRow(PrintedRow(cells)) == TrimAll(cells)
  {
    InnerOfPrinted(cells);
    PrintableReadsBack(cells);
  }
}
