/** The `append_content` tool: a Markdown-like text becomes a list of
    blocks, line by line, with consecutive `|` lines gathered into one
    table. `Parse` states the result declaratively, run by run; the
    `ContentParser` state machine, driven by `AppendContent`, is proved to
    compute it. */
module AppendContent {
  import opened Wrappers
  import opened Text
  import opened Blocks

  /** A line that belongs to a table: it contains `|`. */
  predicate IsTableLine(line: string) {
    '|' in line
  }

  /** `[c for c in (cell.strip() for cell in pieces) if c]` */
  function NonEmptyStripped(pieces: seq<string>): (cells: seq<string>)
    ensures |cells| <= |pieces|
  {
    if pieces == [] then []
    else
      var c := Strip(pieces[0]);
      (if c == [] then [] else [c]) + NonEmptyStripped(pieces[1..])
  }

  /** The cells of a table line: the pieces between the `|` characters,
      stripped, with the empty ones dropped. */
  function Cells(line: string): seq<string> {
    NonEmptyStripped(Split(line, '|'))
  }

  /** One row of cells per line. */
  function CellRows(lines: seq<string>): (rows: seq<seq<string>>)
    ensures |rows| == |lines|
  {
    if lines == [] then [] else [Cells(lines[0])] + CellRows(lines[1..])
  }

  /** A row as `Cells` produces it: every cell non-empty and already stripped. */
  predicate IsCellRow(row: seq<string>) {
    forall j :: 0 <= j < |row| ==> row[j] != [] && IsStripped(row[j])
  }

  lemma {:induction false} NonEmptyStrippedIsCellRow(pieces: seq<string>)
    ensures IsCellRow(NonEmptyStripped(pieces))
  {
    if pieces != [] {
      NonEmptyStrippedIsCellRow(pieces[1..]);
      var c := Strip(pieces[0]);
      var head: seq<string> := if c == [] then [] else [c];
      var tail := NonEmptyStripped(pieces[1..]);
      forall j | 0 <= j < |head + tail| ensures (head + tail)[j] != [] && IsStripped((head + tail)[j]) {
        if j >= |head| {
          assert (head + tail)[j] == tail[j - |head|];
        }
      }
    }
  }

  /** Every cell of a table line is non-empty and stripped. */
  lemma CellsAreStripped(line: string)
    ensures IsCellRow(Cells(line))
  {
    NonEmptyStrippedIsCellRow(Split(line, '|'));
  }

  /** `[cell.strip() for cell in row]` */
  function StripRow(row: seq<string>): seq<string> {
    seq(|row|, j requires 0 <= j < |row| => Strip(row[j]))
  }

  /** `flush_table` strips every buffered cell once more; on a row of cells
      that changes nothing. */
  lemma StripCellRow(row: seq<string>)
    requires IsCellRow(row)
    ensures StripRow(row) == row
  {
    forall j | 0 <= j < |row| ensures StripRow(row)[j] == row[j] {
      assert [] + row[j] + [] == row[j];
      StripPadded([], row[j], []);
    }
  }

  /** The table block `flush_table` builds from a non-empty buffer of rows:
      the width is the first row's cell count, the first row is the column
      header and there is no row header. */
  function TableBlock(rows: seq<seq<string>>): Block
    requires rows != []
  {
    Table(|rows[0]|, true, false, rows)
  }

  /** What flushing a buffer adds to the output: nothing for an empty one. */
  function Pending(buffer: seq<seq<string>>): seq<Block> {
    if buffer == [] then [] else [TableBlock(buffer)]
  }

  /** The number of leading `#` characters: `len(line) - len(line.lstrip("#"))`. */
  function LeadingHashes(line: string): (n: nat)
    ensures n <= |line|
  {
    if line != [] && line[0] == '#' then 1 + LeadingHashes(line[1..]) else 0
  }

  /** `LeadingHashes` counts exactly the `#` characters the line starts with. */
  lemma {:induction false} LeadingHashesExact(line: string)
    ensures var n := LeadingHashes(line);
            (forall k :: 0 <= k < n ==> line[k] == '#') && (n < |line| ==> line[n] != '#')
  {
    if line != [] && line[0] == '#' {
      LeadingHashesExact(line[1..]);
      var n := LeadingHashes(line);
      forall k | 0 <= k < n ensures line[k] == '#' {
        if k > 0 {
          assert line[k] == line[1..][k - 1];
        }
      }
      if n < |line| {
        assert line[n] == line[1..][n - 1];
      }
    }
  }

  /** The block that a line without `|` emits, if any: a heading for a line
      starting with `#`, a bullet for one starting with `- ` or `* `,
      nothing for a blank line and a paragraph for anything else. */
  function LineBlock(line: string): Option<Block>
  {
    if StartsWith(line, "#") then
      var level := LeadingHashes(line);
      Some(Heading(level, Strip(line[level..])))
    else if StartsWith(line, "- ") || StartsWith(line, "* ") then
      Some(Bullet(Strip(line[2..])))
    else if Strip(line) == [] then
      None
    else
      Some(Paragraph(line))
  }

  function OptionBlocks(b: Option<Block>): seq<Block> {
    if b.Some? then [b.value] else []
  }

  /** The length of the run of table lines at the front of `lines`. */
  function PipeRun(lines: seq<string>): (n: nat)
    ensures n <= |lines|
  {
    if lines != [] && IsTableLine(lines[0]) then 1 + PipeRun(lines[1..]) else 0
  }

  /** `PipeRun` measures exactly the run of table lines at the front. */
  lemma {:induction false} PipeRunExact(lines: seq<string>)
    ensures var n := PipeRun(lines);
            (forall k :: 0 <= k < n ==> IsTableLine(lines[k])) &&
            (n < |lines| ==> !IsTableLine(lines[n]))
  {
    if lines != [] && IsTableLine(lines[0]) {
      PipeRunExact(lines[1..]);
      var n := PipeRun(lines);
      forall k | 0 <= k < n ensures IsTableLine(lines[k]) {
        if k > 0 {
          assert lines[k] == lines[1..][k - 1];
        }
      }
      if n < |lines| {
        assert lines[n] == lines[1..][n - 1];
      }
    }
  }

  /** The reference semantics of the parser: each maximal run of table
      lines becomes one table, and every other line emits what `LineBlock`
      says, in input order. */
  function Parse(lines: seq<string>): (blocks: seq<Block>)
    ensures |blocks| <= |lines|
    decreases |lines|
  {
    if lines == [] then []
    else if IsTableLine(lines[0]) then
      var n := PipeRun(lines);
      [TableBlock(CellRows(lines[..n]))] + Parse(lines[n..])
    else
      OptionBlocks(LineBlock(lines[0])) + Parse(lines[1..])
  }

  /** What is still to be emitted when `buffer` holds the rows of an open
      table and `rest` are the lines not yet read: the open table takes the
      table lines at the front of `rest`. */
  function Resume(buffer: seq<seq<string>>, rest: seq<string>): seq<Block> {
    if buffer == [] then Parse(rest)
    else
      var n := PipeRun(rest);
      [TableBlock(buffer + CellRows(rest[..n]))] + Parse(rest[n..])
  }

  /** The local state of one `append_content` call: the blocks emitted so
      far, the rows of the table being gathered, and the `in_table` flag,
      which the nested `flush_table` updates. */
  class ContentParser {
    var children: seq<Block>
    var tableBuffer: seq<seq<string>>
    var inTable: bool

    /** `in_table` holds exactly when the table buffer is non-empty, and
        the buffer holds rows of stripped cells. */
    ghost predicate Valid()
      reads this
    {
      (inTable <==> tableBuffer != []) &&
      forall i :: 0 <= i < |tableBuffer| ==> IsCellRow(tableBuffer[i])
    }

    constructor ()
      ensures Valid()
      ensures children == [] && tableBuffer == []
    {
      children := [];
      tableBuffer := [];
      inTable := false;
    }

    /** `flush_table`: emit the buffered rows as one table and empty the buffer. */
    method FlushTable()
      requires Valid()
      modifies this
      ensures Valid() && tableBuffer == []
      ensures children == old(children) + Pending(old(tableBuffer))
    {
      if tableBuffer == [] {
        assert children + [] == children;
        return;
      }
      var buffer := tableBuffer;
      var width := |buffer[0]|;
      var rows: seq<seq<string>> := [];
      for i := 0 to |buffer|
        invariant rows == buffer[..i]
        invariant unchanged(this)
      {
        StripCellRow(buffer[i]);
        rows := rows + [StripRow(buffer[i])];
      }
      assert buffer[..|buffer|] == buffer;
      children := children + [Table(width, true, false, rows)];
      tableBuffer := [];
      inTable := false;
    }

    /** One pass of the loop over the lines: a table line is buffered; any
        other line flushes the open table and then emits its own block. */
    method ReadLine(line: string)
      requires Valid()
      modifies this
      ensures Valid()
      ensures IsTableLine(line) ==>
                children == old(children) && tableBuffer == old(tableBuffer) + [Cells(line)]
      ensures !IsTableLine(line) ==>
                tableBuffer == [] &&
                children == old(children) + Pending(old(tableBuffer)) + OptionBlocks(LineBlock(line))
    {
      if '|' in line {
        var parts := Cells(line);
        CellsAreStripped(line);
        tableBuffer := tableBuffer + [parts];
        inTable := true;
        return;
      }
      if inTable {
        FlushTable();
      }
      var block := LineBlock(line);
      if block.Some? {
        children := children + [block.value];
      }
    }
  }

  /** A table line joins the open table, or opens one. */
  lemma ResumeTableLine(buffer: seq<seq<string>>, line: string, rest: seq<string>)
    requires IsTableLine(line)
    ensures Resume(buffer, [line] + rest) == Resume(buffer + [Cells(line)], rest)
  {
    var lines := [line] + rest;
    var n := PipeRun(rest);
    assert lines[1..] == rest;
    assert PipeRun(lines) == n + 1;
    assert lines[..n + 1] == [line] + rest[..n];
    assert lines[n + 1..] == rest[n..];
    var rows := CellRows(rest[..n]);
    assert ([line] + rest[..n])[1..] == rest[..n];
    assert CellRows(lines[..n + 1]) == [Cells(line)] + rows;
    if buffer == [] {
      assert Parse(lines) == [TableBlock([Cells(line)] + rows)] + Parse(rest[n..]);
      assert [] + [Cells(line)] == [Cells(line)];
    } else {
      assert buffer + ([Cells(line)] + rows) == (buffer + [Cells(line)]) + rows;
    }
  }

  /** Any other line first closes the open table and then emits its own block. */
  lemma ResumeOtherLine(buffer: seq<seq<string>>, line: string, rest: seq<string>)
    requires !IsTableLine(line)
    ensures Resume(buffer, [line] + rest) == Pending(buffer) + OptionBlocks(LineBlock(line)) + Parse(rest)
  {
    var lines := [line] + rest;
    assert lines[1..] == rest;
    var own := OptionBlocks(LineBlock(line));
    assert Parse(lines) == own + Parse(rest);
    if buffer != [] {
      assert PipeRun(lines) == 0;
      assert lines[..0] == [] && lines[0..] == lines;
      assert buffer + CellRows(lines[..0]) == buffer;
      calc {
        Resume(buffer, lines);
        [TableBlock(buffer)] + Parse(lines);
        [TableBlock(buffer)] + (own + Parse(rest));
        Pending(buffer) + own + Parse(rest);
      }
    }
  }

  /** Reading a table line keeps the loop invariant of `AppendContent`. */
  lemma TableLineStep(done: seq<Block>, buffer: seq<seq<string>>, line: string, rest: seq<string>, total: seq<Block>)
    requires IsTableLine(line) && done + Resume(buffer, [line] + rest) == total
    ensures done + Resume(buffer + [Cells(line)], rest) == total
  {
    ResumeTableLine(buffer, line, rest);
  }

  /** Reading any other line keeps the loop invariant of `AppendContent`. */
  lemma OtherLineStep(done: seq<Block>, buffer: seq<seq<string>>, line: string, rest: seq<string>, total: seq<Block>)
    requires !IsTableLine(line) && done + Resume(buffer, [line] + rest) == total
    ensures done + Pending(buffer) + OptionBlocks(LineBlock(line)) + Resume([], rest) == total
  {
    ResumeOtherLine(buffer, line, rest);
  }

  /** At the end of the input only the open table is left to emit. */
  lemma ResumeEnd(buffer: seq<seq<string>>)
    ensures Resume(buffer, []) == Pending(buffer)
  {
    if buffer != [] {
      assert buffer + CellRows([]) == buffer;
    }
  }

  /** The loop of `append_content` over the lines, with the final flush:
      the blocks it emits are exactly `Parse(lines)`. */
  method ParseLines(lines: seq<string>) returns (children: seq<Block>)
    ensures children == Parse(lines)
  {
    var state := new ContentParser();
    for i := 0 to |lines|
      invariant state.Valid()
      invariant state.children + Resume(state.tableBuffer, lines[i..]) == Parse(lines)
    {
      var line := lines[i];
      assert lines[i..] == [line] + lines[i + 1..];
      if IsTableLine(line) {
        TableLineStep(state.children, state.tableBuffer, line, lines[i + 1..], Parse(lines));
      } else {
        OtherLineStep(state.children, state.tableBuffer, line, lines[i + 1..], Parse(lines));
      }
      state.ReadLine(line);
    }
    ResumeEnd(state.tableBuffer);
    if state.inTable {
      state.FlushTable();
    }
    children := state.children;
  }

  /** `append_content` as far as the request it sends: the page's children
      path, `PATCH`, the parsed blocks, and `after` only when it is a
      non-empty string (Python's truthiness). */
  method AppendContent(pageId: string, markdown: string, after: Option<string>)
    returns (request: Request<AppendBody>)
    ensures request.path == ChildrenPath(pageId) && request.verb == "PATCH"
    ensures request.body.children == Parse(Lines(markdown))
    ensures request.body.after == if after.Some? && after.value != [] then after else None
  {
    var children := ParseLines(Lines(markdown));
    var anchor: Option<string> := None;
    if after.Some? && after.value != [] {
      anchor := after;
    }
    request := Request(ChildrenPath(pageId), "PATCH", AppendBody(children, anchor));
  }
}
