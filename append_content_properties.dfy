/** What the `append_content` parser promises, stated over its reference
    semantics `Parse`. */
module AppendContentProperties {
  import opened Wrappers
  import opened Text
  import opened Blocks
  import opened AppendContent

  /** How a line without `|` is classified: headings first, then bullets,
      then blank lines (which emit nothing), then paragraphs (which keep the
      line unstripped). */
  lemma LineBlockClassifies(line: string)
    ensures var b := LineBlock(line);
      && (b.None? <==> IsBlank(line))
      && (b.Some? ==> !b.value.Table?)
      && ((b.Some? && b.value.Heading?) <==> StartsWith(line, "#"))
      && (b.Some? && b.value.Heading? ==>
            var k := b.value.level;
            1 <= k <= |line| && line[..k] == Repeat('#', k) &&
            (k < |line| ==> line[k] != '#') &&
            b.value.text == Strip(line[k..]))
      && ((b.Some? && b.value.Bullet?) <==>
            !StartsWith(line, "#") && (StartsWith(line, "- ") || StartsWith(line, "* ")))
      && (b.Some? && b.value.Bullet? ==> b.value.text == Strip(line[2..]))
      && (b.Some? && b.value.Paragraph? ==> b.value.text == line)
  {
    StripEmptyIffBlank(line);
    if StartsWith(line, "#") {
      var level := LeadingHashes(line);
      LeadingHashesExact(line);
      assert line[0] == "#"[0] && !IsSpace(line[0]);
      assert line[..level] == Repeat('#', level);
    } else if StartsWith(line, "- ") || StartsWith(line, "* ") {
      assert line[0] == line[..2][0] && !IsSpace(line[0]);
    }
  }

  lemma {:induction false} NonEmptyStrippedConcat(p: seq<string>, q: seq<string>)
    ensures NonEmptyStripped(p + q) == NonEmptyStripped(p) + NonEmptyStripped(q)
  {
    if p != [] {
      assert (p + q)[0] == p[0];
      assert (p + q)[1..] == p[1..] + q;
      NonEmptyStrippedConcat(p[1..], q);
      var c := Strip(p[0]);
      var head: seq<string> := if c == [] then [] else [c];
      assert NonEmptyStripped(p + q) == head + NonEmptyStripped(p[1..] + q);
      assert NonEmptyStripped(p) == head + NonEmptyStripped(p[1..]);
      assert head + (NonEmptyStripped(p[1..]) + NonEmptyStripped(q))
          == (head + NonEmptyStripped(p[1..])) + NonEmptyStripped(q);
    } else {
      assert p + q == q;
    }
  }

  lemma NonEmptyStrippedOne(piece: string)
    ensures NonEmptyStripped([piece]) == if IsBlank(piece) then [] else [Strip(piece)]
  {
    assert [piece][1..] == [];
    StripEmptyIffBlank(piece);
  }

  /** A stretch without `|` yields its stripped text as one cell, or no
      cell when it is blank. */
  lemma CellsOfPiece(piece: string)
    requires '|' !in piece
    ensures Cells(piece) == if IsBlank(piece) then [] else [Strip(piece)]
  {
    SplitNoSep(piece, '|');
    NonEmptyStrippedOne(piece);
  }

  /** Every `|` separates cells: the cells of `a|b` are those of `a`
      followed by those of `b`. */
  lemma CellsAt(a: string, b: string)
    requires '|' !in a
    ensures Cells(a + "|" + b) == Cells(a) + Cells(b)
  {
    SplitAt(a, b, '|');
    SplitNoSep(a, '|');
    NonEmptyStrippedConcat([a], Split(b, '|'));
  }

  /** A non-empty stripped text without `|` is a single cell of its own. */
  lemma CellsOfStripped(a: string)
    requires a != [] && IsStripped(a) && '|' !in a
    ensures Cells(a) == [a]
  {
    CellsOfPiece(a);
    assert [] + a + [] == a;
    StripPadded([], a, []);
  }

  lemma SpacedNoPipe(a: string)
    requires '|' !in a
    ensures '|' !in " " + a + " "
  {
    var a' := " " + a + " ";
    forall k | 0 <= k < |a'| ensures a'[k] != '|' {
      if 0 < k < |a'| - 1 {
        assert a'[k] == a[k - 1];
      }
    }
  }

  /** A text padded by one space on each side yields the text as its cell. */
  lemma CellsOfSpaced(a: string)
    requires a != [] && IsStripped(a) && '|' !in a
    ensures Cells(" " + a + " ") == [a]
  {
    var a' := " " + a + " ";
    SpacedNoPipe(a);
    CellsOfPiece(a');
    StripPadded(" ", a, " ");
    StripEmptyIffBlank(a');
  }

  /** Cell tokenisation with outer pipes: `| a | b |` gives the cells `a`
      and `b`; the pipes at either end and the blanks around each cell
      leave no trace. */
  lemma CellsOuterPipes(a: string, b: string)
    requires a != [] && IsStripped(a) && '|' !in a
    requires b != [] && IsStripped(b) && '|' !in b
    ensures Cells("| " + a + " | " + b + " |") == [a, b]
  {
    var a' := " " + a + " ";
    var b' := " " + b + " ";
    var tail := b' + "|" + [];
    assert Cells(tail) == [b] by {
      CellsAt(b', []);
      CellsOfSpaced(b);
      CellsOfPiece([]);
    }
    var mid := a' + "|" + tail;
    assert Cells(mid) == [a, b] by {
      SpacedNoPipe(a);
      CellsAt(a', tail);
      CellsOfSpaced(a);
    }
    assert "| " + a + " | " + b + " |" == [] + "|" + mid;
    CellsAt([], mid);
    CellsOfPiece([]);
  }

  /** Without outer pipes the same cells come out: `a|b` gives `a` and `b`. */
  lemma CellsInnerPipe(a: string, b: string)
    requires a != [] && IsStripped(a) && '|' !in a
    requires b != [] && IsStripped(b) && '|' !in b
    ensures Cells(a + "|" + b) == [a, b]
  {
    assert Cells(a) == [a] by { CellsOfStripped(a); }
    assert Cells(b) == [b] by { CellsOfStripped(b); }
    CellsAt(a, b);
  }

  /** A line of pipes around blanks is a table row with no cells. */
  lemma CellsBlankRow(w: string)
    requires IsBlank(w)
    ensures Cells("|" + w + "|") == []
  {
    assert '|' !in w by {
      forall k | 0 <= k < |w| ensures w[k] != '|' {
        assert IsSpace(w[k]);
      }
    }
    assert "|" + w + "|" == [] + "|" + (w + "|" + []);
    CellsAt([], w + "|" + []);
    CellsAt(w, []);
    CellsOfPiece([]);
    CellsOfPiece(w);
  }

  /** The run of table lines at the front of `xs + ys` is that of `xs`; it
      reaches into `ys` only when the whole of `xs` belongs to it. */
  lemma {:induction false} PipeRunConcat(xs: seq<string>, ys: seq<string>)
    ensures PipeRun(xs + ys) == if PipeRun(xs) < |xs| then PipeRun(xs) else |xs| + PipeRun(ys)
  {
    if xs == [] {
      assert xs + ys == ys;
    } else {
      assert (xs + ys)[0] == xs[0];
      if IsTableLine(xs[0]) {
        assert (xs + ys)[1..] == xs[1..] + ys;
        PipeRunConcat(xs[1..], ys);
      }
    }
  }

  /** One table per run: a maximal run of table lines becomes exactly one
      table, with one row per line in input order, the first row's cell
      count as width, a column header and no row header. */
  lemma OneTablePerRun(run: seq<string>, rest: seq<string>)
    requires run != []
    requires forall k :: 0 <= k < |run| ==> IsTableLine(run[k])
    requires rest == [] || !IsTableLine(rest[0])
    ensures Parse(run + rest) == [Table(|Cells(run[0])|, true, false, CellRows(run))] + Parse(rest)
  {
    var lines := run + rest;
    PipeRunConcat(run, rest);
    PipeRunExact(run);
    assert PipeRun(run) == |run|;
    assert PipeRun(lines) == |run|;
    assert lines[0] == run[0];
    assert lines[..|run|] == run;
    assert lines[|run|..] == rest;
    assert CellRows(run)[0] == Cells(run[0]);
  }

  /** Regrouping a concatenation, kept apart so that the proofs using it
      need no reasoning about sequences. */
  lemma Regroup<T>(a: seq<T>, b: seq<T>, c: seq<T>, whole: seq<T>, front: seq<T>)
    requires whole == a + (b + c) && front == a + b
    ensures whole == front + c
  {
  }

  /** A line that is not a table line is parsed on its own, whatever follows. */
  lemma ParseOtherFront(xs: seq<string>, ys: seq<string>)
    requires xs != [] && !IsTableLine(xs[0])
    ensures Parse(xs + ys) == OptionBlocks(LineBlock(xs[0])) + Parse(xs[1..] + ys)
  {
    var lines := xs + ys;
    assert lines[0] == xs[0];
    assert lines[1..] == xs[1..] + ys;
  }

  /** A run of table lines that ends inside `xs` is parsed on its own,
      whatever follows `xs`. */
  lemma ParseTableFront(xs: seq<string>, ys: seq<string>)
    requires xs != [] && IsTableLine(xs[0]) && PipeRun(xs) < |xs|
    ensures Parse(xs + ys)
         == [TableBlock(CellRows(xs[..PipeRun(xs)]))] + Parse(xs[PipeRun(xs)..] + ys)
  {
    var lines := xs + ys;
    var n := PipeRun(xs);
    PipeRunConcat(xs, ys);
    assert lines[0] == xs[0];
    assert lines[..n] == xs[..n];
    assert lines[n..] == xs[n..] + ys;
  }

  /** A run of table lines that fills `xs` is parsed on its own when `ys`
      does not continue it. */
  lemma ParseTableWhole(xs: seq<string>, ys: seq<string>)
    requires xs != [] && IsTableLine(xs[0]) && PipeRun(xs) == |xs|
    requires ys == [] || !IsTableLine(ys[0])
    ensures Parse(xs + ys) == [TableBlock(CellRows(xs))] + Parse(ys)
  {
    var lines := xs + ys;
    var n := |xs|;
    PipeRunConcat(xs, ys);
    assert lines[0] == xs[0];
    assert lines[..n] == xs;
    assert lines[n..] == ys;
  }

  /** A run of table lines alone is one table. */
  lemma ParseRunAlone(xs: seq<string>)
    requires xs != [] && IsTableLine(xs[0]) && PipeRun(xs) == |xs|
    ensures Parse(xs) == [TableBlock(CellRows(xs))]
  {
    assert xs[..|xs|] == xs;
    assert xs[|xs|..] == [];
  }

  /** The boundary between `xs` and `ys` does not fall inside a run of
      table lines. */
  predicate SeparateRuns(xs: seq<string>, ys: seq<string>) {
    xs == [] || ys == [] || !IsTableLine(xs[|xs| - 1]) || !IsTableLine(ys[0])
  }

  /** Dropping lines from the front keeps the boundary. */
  lemma SeparateRunsDrop(xs: seq<string>, ys: seq<string>, n: nat)
    requires SeparateRuns(xs, ys) && n <= |xs|
    ensures SeparateRuns(xs[n..], ys)
  {
    if n < |xs| {
      assert xs[n..][|xs[n..]| - 1] == xs[|xs| - 1];
    }
  }

  /** Parsing splits wherever the boundary does not fall inside a run of
      table lines: the blocks of `xs + ys` are those of `xs`, then those of `ys`. */
  lemma {:induction false} ParseAppend(xs: seq<string>, ys: seq<string>)
    requires SeparateRuns(xs, ys)
    ensures Parse(xs + ys) == Parse(xs) + Parse(ys)
    decreases |xs|
  {
    if xs == [] {
      assert xs + ys == ys;
    } else if !IsTableLine(xs[0]) {
      ParseOtherFront(xs, ys);
      SeparateRunsDrop(xs, ys, 1);
      ParseAppend(xs[1..], ys);
      Regroup(OptionBlocks(LineBlock(xs[0])), Parse(xs[1..]), Parse(ys), Parse(xs + ys), Parse(xs));
    } else if PipeRun(xs) < |xs| {
      var n := PipeRun(xs);
      ParseTableFront(xs, ys);
      SeparateRunsDrop(xs, ys, n);
      ParseAppend(xs[n..], ys);
      Regroup([TableBlock(CellRows(xs[..n]))], Parse(xs[n..]), Parse(ys), Parse(xs + ys), Parse(xs));
    } else {
      PipeRunExact(xs);
      ParseTableWhole(xs, ys);
      ParseRunAlone(xs);
    }
  }

  /** A line that is not a table line emits its own block and nothing else. */
  lemma ParseOtherLine(line: string)
    requires !IsTableLine(line)
    ensures Parse([line]) == OptionBlocks(LineBlock(line))
  {
    assert [line][1..] == [];
  }

  /** A whitespace-only line is not a table line and emits nothing. */
  lemma BlankLineEmitsNothing(line: string)
    requires IsBlank(line)
    ensures !IsTableLine(line) && Parse([line]) == []
  {
    StripEmptyIffBlank(line);
    assert LineBlock(line) == None by {
      if line != [] {
        assert IsSpace(line[0]);
      }
    }
    ParseOtherLine(line);
  }

  /** A single table line is a table of one row. */
  lemma OneLineTable(line: string)
    requires IsTableLine(line)
    ensures Parse([line]) == [Table(|Cells(line)|, true, false, [Cells(line)])]
  {
    ParseRunAlone([line]);
    assert CellRows([line]) == [Cells(line)] by {
      assert [line][1..] == [];
    }
  }

  /** A whitespace-only line is skipped, whatever follows it. */
  lemma BlankLineSkipped(blank: string, rest: seq<string>)
    requires IsBlank(blank)
    ensures Parse([blank] + rest) == Parse(rest)
  {
    BlankLineEmitsNothing(blank);
    ParseAppend([blank], rest);
  }

  /** A table line followed by a line that is not a table line is a table
      of one row, closed before that line. */
  lemma TableLineClosed(line: string, rest: seq<string>)
    requires IsTableLine(line) && (rest == [] || !IsTableLine(rest[0]))
    ensures Parse([line] + rest) == [Table(|Cells(line)|, true, false, [Cells(line)])] + Parse(rest)
  {
    OneLineTable(line);
    ParseAppend([line], rest);
  }

  /** Table flushing: a blank line between two table lines closes the
      first table, so two tables of one row each come out. */
  lemma BlankLineSplitsTable(a: string, blank: string, b: string)
    requires IsTableLine(a) && IsTableLine(b) && IsBlank(blank)
    ensures Parse([a, blank, b]) == [Table(|Cells(a)|, true, false, [Cells(a)]),
                                     Table(|Cells(b)|, true, false, [Cells(b)])]
  {
    var tail := [blank] + [b];
    BlankLineSkipped(blank, [b]);
    OneLineTable(b);
    BlankLineEmitsNothing(blank);
    TableLineClosed(a, tail);
    assert [a, blank, b] == [a] + tail;
  }

  /** A line of `k` hashes and then text that does not start with `#`. */
  lemma {:induction false} LeadingHashesOf(k: nat, t: string)
    requires t == [] || t[0] != '#'
    ensures LeadingHashes(Repeat('#', k) + t) == k
    decreases k
  {
    var line := Repeat('#', k) + t;
    if k == 0 {
      assert line == t;
    } else {
      assert line[0] == '#';
      assert line[1..] == Repeat('#', k - 1) + t;
      LeadingHashesOf(k - 1, t);
    }
  }

  lemma NoPipeInHashes(k: nat, t: string)
    requires '|' !in t
    ensures !IsTableLine(Repeat('#', k) + t)
  {
    var line := Repeat('#', k) + t;
    forall j | 0 <= j < |line| ensures line[j] != '|' {
      if j >= k {
        assert line[j] == t[j - k];
      }
    }
  }

  /** Headings: `k` leading `#` give a heading of level `k`, with no upper
      bound (seven give `heading_7`), and the stripped remainder as text
      (`#` alone gives level 1 and empty text). */
  lemma HeadingLine(k: nat, t: string)
    requires 1 <= k && '|' !in t && (t == [] || t[0] != '#')
    ensures Parse([Repeat('#', k) + t]) == [Heading(k, Strip(t))]
  {
    HeadingLineBlock(k, t);
    ParseOtherLine(Repeat('#', k) + t);
  }

  /** The classification behind `HeadingLine`, for the line on its own. */
  lemma HeadingLineBlock(k: nat, t: string)
    requires 1 <= k && '|' !in t && (t == [] || t[0] != '#')
    ensures !IsTableLine(Repeat('#', k) + t)
    ensures LineBlock(Repeat('#', k) + t) == Some(Heading(k, Strip(t)))
  {
    var line := Repeat('#', k) + t;
    NoPipeInHashes(k, t);
    LeadingHashesOf(k, t);
    assert line[..1] == "#";
    assert line[k..] == t;
  }

  /** Bullets: a line starting with `- ` or `* ` is a bullet whose text is
      the stripped rest of the line. */
  lemma BulletLine(marker: char, t: string)
    requires (marker == '-' || marker == '*') && '|' !in t
    ensures Parse([[marker, ' '] + t]) == [Bullet(Strip(t))]
  {
    BulletLineBlock(marker, t);
    ParseOtherLine([marker, ' '] + t);
  }

  /** The classification behind `BulletLine`, for the line on its own. */
  lemma BulletLineBlock(marker: char, t: string)
    requires (marker == '-' || marker == '*') && '|' !in t
    ensures !IsTableLine([marker, ' '] + t)
    ensures LineBlock([marker, ' '] + t) == Some(Bullet(Strip(t)))
  {
    var line := [marker, ' '] + t;
    assert !IsTableLine(line) by {
      forall j | 0 <= j < |line| ensures line[j] != '|' {
        if j >= 2 {
          assert line[j] == t[j - 2];
        }
      }
    }
    assert line[..2] == [marker, ' '];
    assert line[2..] == t;
    assert !StartsWith(line, "#") by {
      assert line[..1] == [marker];
    }
  }

  /** Paragraphs: any other non-blank line without `|` is a paragraph that
      keeps the whole, unstripped line. */
  lemma PlainLine(line: string)
    requires !IsTableLine(line) && !IsBlank(line)
    requires !StartsWith(line, "#") && !StartsWith(line, "- ") && !StartsWith(line, "* ")
    ensures Parse([line]) == [Paragraph(line)]
  {
    StripEmptyIffBlank(line);
    ParseOtherLine(line);
  }

  /** A line that `PlainLine` applies to. */
  predicate PlainText(line: string) {
    !IsTableLine(line) && !IsBlank(line) &&
    !StartsWith(line, "#") && !StartsWith(line, "- ") && !StartsWith(line, "* ")
  }

  /** A text of plain lines only gives one paragraph per line, in order,
      each with its line unchanged. */
  lemma {:induction false} ParagraphsOnly(lines: seq<string>)
    requires forall i :: 0 <= i < |lines| ==> PlainText(lines[i])
    ensures |Parse(lines)| == |lines|
    ensures forall i :: 0 <= i < |lines| ==> Parse(lines)[i] == Paragraph(lines[i])
  {
    if lines != [] {
      var rest := lines[1..];
      ParagraphsOnly(rest);
      PlainLine(lines[0]);
      ParseOtherLine(lines[0]);
      assert Parse(lines) == [Paragraph(lines[0])] + Parse(rest);
      forall i | 1 <= i < |lines| ensures Parse(lines)[i] == Paragraph(lines[i]) {
        assert lines[i] == rest[i - 1];
      }
    }
  }

  /** A bullet needs the space: `-x` is a paragraph. */
  lemma DashWithoutSpace(x: string)
    requires '|' !in x && (x == [] || x[0] != ' ')
    ensures Parse(["-" + x]) == [Paragraph("-" + x)]
  {
    var line := "-" + x;
    assert line[0] == '-';
    assert !IsTableLine(line) by {
      forall j | 0 <= j < |line| ensures line[j] != '|' {
        if j >= 1 {
          assert line[j] == x[j - 1];
        }
      }
    }
    assert !IsBlank(line) by {
      assert !IsSpace(line[0]);
    }
    assert !StartsWith(line, "- ") by {
      if |line| >= 2 {
        assert line[1] == x[0];
        assert line[..2][1] == line[1];
      }
    }
    assert !StartsWith(line, "#") && !StartsWith(line, "* ") by {
      assert line[..1][0] == '-';
    }
    PlainLine(line);
  }

  /** A bullet must start in the first column: ` - x` is a paragraph. */
  lemma IndentedDash(x: string)
    requires '|' !in x
    ensures Parse([" - " + x]) == [Paragraph(" - " + x)]
  {
    var line := " - " + x;
    assert line[0] == ' ' && line[1] == '-';
    assert !IsTableLine(line) by {
      forall j | 0 <= j < |line| ensures line[j] != '|' {
        if j >= 3 {
          assert line[j] == x[j - 3];
        }
      }
    }
    assert !IsBlank(line) by {
      assert !IsSpace(line[1]);
    }
    assert !StartsWith(line, "#") && !StartsWith(line, "- ") && !StartsWith(line, "* ") by {
      assert line[..1][0] == ' ';
    }
    PlainLine(line);
  }

  /** Classification order: a line with `|` is a table row even when it
      starts with `#`, so `# a | b` opens a table and no heading. */
  lemma PipeBeforeHeading(line: string)
    requires StartsWith(line, "#") && '|' in line
    ensures Parse([line]) == [Table(|Cells(line)|, true, false, [Cells(line)])]
  {
    OneLineTable(line);
  }

  /** The number of tables among the blocks. */
  function TableCount(blocks: seq<Block>): nat {
    if blocks == [] then 0
    else (if blocks[0].Table? then 1 else 0) + TableCount(blocks[1..])
  }

  /** The number of maximal runs of table lines, counted line by line: a
      run starts at each table line that does not follow another one
      (`afterTable` says whether the line before `lines` was a table line). */
  function RunCount(afterTable: bool, lines: seq<string>): nat
    decreases lines
  {
    if lines == [] then 0
    else
      (if IsTableLine(lines[0]) && !afterTable then 1 else 0) +
      RunCount(IsTableLine(lines[0]), lines[1..])
  }

  lemma {:induction false} TableCountConcat(a: seq<Block>, b: seq<Block>)
    ensures TableCount(a + b) == TableCount(a) + TableCount(b)
  {
    if a == [] {
      assert a + b == b;
    } else {
      assert (a + b)[0] == a[0];
      assert (a + b)[1..] == a[1..] + b;
      TableCountConcat(a[1..], b);
    }
  }

  /** Inside a run, the rest of the run starts no new run. */
  lemma {:induction false} RunCountSkipsRun(lines: seq<string>)
    ensures RunCount(true, lines) == RunCount(false, lines[PipeRun(lines)..])
  {
    if lines != [] && IsTableLine(lines[0]) {
      RunCountSkipsRun(lines[1..]);
      assert lines[1..][PipeRun(lines[1..])..] == lines[PipeRun(lines)..];
    } else {
      assert lines[PipeRun(lines)..] == lines;
    }
  }

  /** What a line without `|` emits is never a table. */
  lemma LineBlockNotTable(line: string)
    ensures TableCount(OptionBlocks(LineBlock(line))) == 0
  {
    var own := OptionBlocks(LineBlock(line));
    if own != [] {
      assert own[1..] == [];
    }
  }

  /** One table per run: the parser emits exactly as many tables as the
      input has maximal runs of table lines. */
  lemma {:induction false} TablesMatchRuns(lines: seq<string>)
    ensures TableCount(Parse(lines)) == RunCount(false, lines)
    decreases |lines|
  {
    if lines == [] {
    } else if IsTableLine(lines[0]) {
      var n := PipeRun(lines);
      var table := [TableBlock(CellRows(lines[..n]))];
      TablesMatchRuns(lines[n..]);
      TableCountConcat(table, Parse(lines[n..]));
      assert TableCount(table) == 1 by {
        assert table[1..] == [];
      }
      RunCountSkipsRun(lines[1..]);
      assert lines[1..][PipeRun(lines[1..])..] == lines[n..];
    } else {
      var own := OptionBlocks(LineBlock(lines[0]));
      TablesMatchRuns(lines[1..]);
      TableCountConcat(own, Parse(lines[1..]));
      LineBlockNotTable(lines[0]);
    }
  }

  /** The shape of every block the parser emits: a table has a column
      header, no row header, at least one row, the first row's cell count
      as width, and non-empty stripped cells; a heading has a level of at
      least one and stripped text; a bullet has stripped text; a
      paragraph is a non-blank line without `|`. */
  predicate WellFormed(b: Block) {
    match b
    case Table(width, columnHeader, rowHeader, rows) =>
      columnHeader && !rowHeader && rows != [] && width == |rows[0]| &&
      forall r :: 0 <= r < |rows| ==> IsCellRow(rows[r])
    case Heading(level, text) => level >= 1 && IsStripped(text)
    case Bullet(text) => IsStripped(text)
    case Paragraph(text) => !IsBlank(text) && '|' !in text
  }

  lemma {:induction false} CellRowsWellFormed(lines: seq<string>)
    ensures forall r :: 0 <= r < |CellRows(lines)| ==> IsCellRow(CellRows(lines)[r])
  {
    if lines != [] {
      CellRowsWellFormed(lines[1..]);
      CellsAreStripped(lines[0]);
      var rows := CellRows(lines);
      forall r | 0 <= r < |rows| ensures IsCellRow(rows[r]) {
        if r > 0 {
          assert rows[r] == CellRows(lines[1..])[r - 1];
        }
      }
    }
  }

  lemma LineBlockWellFormed(line: string)
    requires !IsTableLine(line)
    ensures forall i :: 0 <= i < |OptionBlocks(LineBlock(line))| ==> WellFormed(OptionBlocks(LineBlock(line))[i])
  {
    StripEmptyIffBlank(line);
    if StartsWith(line, "#") {
      assert line[0] == "#"[0];
      assert LeadingHashes(line) >= 1;
    }
  }

  lemma WellFormedConcat(a: seq<Block>, b: seq<Block>)
    requires forall i :: 0 <= i < |a| ==> WellFormed(a[i])
    requires forall i :: 0 <= i < |b| ==> WellFormed(b[i])
    ensures forall i :: 0 <= i < |a + b| ==> WellFormed((a + b)[i])
  {
    forall i | 0 <= i < |a + b| ensures WellFormed((a + b)[i]) {
      if i >= |a| {
        assert (a + b)[i] == b[i - |a|];
      }
    }
  }

  /** Every block the parser emits is well formed. */
  lemma {:induction false} ParseWellFormed(lines: seq<string>)
    ensures forall i :: 0 <= i < |Parse(lines)| ==> WellFormed(Parse(lines)[i])
    decreases |lines|
  {
    if lines == [] {
    } else if IsTableLine(lines[0]) {
      var n := PipeRun(lines);
      assert n >= 1;
      var rows := CellRows(lines[..n]);
      CellRowsWellFormed(lines[..n]);
      assert WellFormed(TableBlock(rows));
      ParseWellFormed(lines[n..]);
      WellFormedConcat([TableBlock(rows)], Parse(lines[n..]));
    } else {
      LineBlockWellFormed(lines[0]);
      ParseWellFormed(lines[1..]);
      WellFormedConcat(OptionBlocks(LineBlock(lines[0])), Parse(lines[1..]));
    }
  }

  /** A worked example: a heading, a bullet, a two-row table with outer
      pipes and a paragraph, each on its own line, give those four blocks
      in order; the table has width 2, a column header and stripped cells. */
  lemma MixedExample(a: string, b: string, x: string, y: string, u: string, v: string, c: string)
    requires IsStripped(a) && '|' !in a && IsStripped(b) && '|' !in b
    requires CellText(x) && CellText(y) && CellText(u) && CellText(v)
    requires PlainText(c)
    ensures Parse(["# " + a, "- " + b, "| " + x + " | " + y + " |", "| " + u + " | " + v + " |", c]) ==
            [Heading(1, a), Bullet(b), Table(2, true, false, [[x, y], [u, v]]), Paragraph(c)]
  {
    var h, l := "# " + a, "- " + b;
    var table := ["| " + x + " | " + y + " |", "| " + u + " | " + v + " |"];
    var tail := table + [c];
    ExampleHeading(a);
    ExampleBullet(b);
    ExampleTail(x, y, u, v, c, table);
    ConsLine(l, tail, [Table(2, true, false, [[x, y], [u, v]]), Paragraph(c)]);
    ConsLine(h, [l] + tail, [Bullet(b), Table(2, true, false, [[x, y], [u, v]]), Paragraph(c)]);
    assert [h, l, table[0], table[1], c] == [h] + ([l] + tail);
  }

  /** A line without `|` in front of lines whose blocks are known. */
  lemma ConsLine(line: string, rest: seq<string>, blocks: seq<Block>)
    requires !IsTableLine(line) && LineBlock(line).Some? && Parse(rest) == blocks
    ensures Parse([line] + rest) == [LineBlock(line).value] + blocks
  {
    ParseOtherFront([line], rest);
    assert [line][1..] + rest == rest;
  }

  lemma ExampleTail(x: string, y: string, u: string, v: string, c: string, table: seq<string>)
    requires CellText(x) && CellText(y) && CellText(u) && CellText(v) && PlainText(c)
    requires table == ["| " + x + " | " + y + " |", "| " + u + " | " + v + " |"]
    ensures Parse(table + [c]) == [Table(2, true, false, [[x, y], [u, v]]), Paragraph(c)]
  {
    ExampleTable(x, y, u, v, table);
    PlainLine(c);
    ParseOtherLine(c);
    ParseTableWhole(table, [c]);
  }

  /** A cell text as `MixedExample` uses it: non-empty, stripped, no `|`. */
  predicate CellText(a: string) {
    a != [] && IsStripped(a) && '|' !in a
  }

  lemma ExampleHeading(a: string)
    requires IsStripped(a) && '|' !in a
    ensures !IsTableLine("# " + a) && LineBlock("# " + a) == Some(Heading(1, a))
  {
    assert "# " + a == Repeat('#', 1) + (" " + a);
    HeadingLineBlock(1, " " + a);
    assert " " + a == " " + a + [];
    StripPadded(" ", a, []);
  }

  lemma ExampleBullet(b: string)
    requires IsStripped(b) && '|' !in b
    ensures !IsTableLine("- " + b) && LineBlock("- " + b) == Some(Bullet(b))
  {
    assert "- " + b == ['-', ' '] + b;
    BulletLineBlock('-', b);
    assert b == [] + b + [];
    StripPadded([], b, []);
  }

  lemma ExampleTable(x: string, y: string, u: string, v: string, table: seq<string>)
    requires CellText(x) && CellText(y) && CellText(u) && CellText(v)
    requires table == ["| " + x + " | " + y + " |", "| " + u + " | " + v + " |"]
    ensures table != [] && IsTableLine(table[0]) && PipeRun(table) == |table|
    ensures TableBlock(CellRows(table)) == Table(2, true, false, [[x, y], [u, v]])
  {
    ExampleRow(x, y);
    ExampleRow(u, v);
    TwoRows(table[0], table[1], [x, y], [u, v]);
    assert table == [table[0], table[1]];
  }

  lemma ExampleRow(x: string, y: string)
    requires CellText(x) && CellText(y)
    ensures IsTableLine("| " + x + " | " + y + " |") && Cells("| " + x + " | " + y + " |") == [x, y]
  {
    CellsOuterPipes(x, y);
    var row := "| " + x + " | " + y + " |";
    assert row[0] == '|';
  }

  /** Two table lines with known cells form one run of two rows. */
  lemma TwoRows(r1: string, r2: string, row1: seq<string>, row2: seq<string>)
    requires IsTableLine(r1) && IsTableLine(r2) && Cells(r1) == row1 && Cells(r2) == row2
    ensures PipeRun([r1, r2]) == 2 && CellRows([r1, r2]) == [row1, row2]
  {
    assert [r1, r2][1..] == [r2];
    assert [r2][1..] == [];
  }

  /** A block of table lines only is one run. */
  lemma {:induction false} PipeRunAll(lines: seq<string>)
    requires forall k :: 0 <= k < |lines| ==> IsTableLine(lines[k])
    ensures PipeRun(lines) == |lines|
  {
    if lines != [] {
      assert forall k :: 0 <= k < |lines[1..]| ==> lines[1..][k] == lines[k + 1];
      PipeRunAll(lines[1..]);
    }
  }
}
