# Notion MCP server: block converter, modelled in Dafny

This project models the logic at the heart of `notion_mcp_server.py`, an MCP
tool server for the Notion API. Three tools hold that logic, and two more
build request bodies:

- `append_content` turns a Markdown-like text into a list of Notion blocks,
  one line at a time. Consecutive lines containing `|` are gathered into a
  single table, and a nested `flush_table` emits it.
- `create_table` builds one table block from rows of cells given directly.
- `get_page_text` walks the blocks of a page and renders them as one flat
  text. It expands sub-pages inline and in place.
- `search_notion` and `create_subpage` build their request bodies key by key.

The calls to the notes service are not modelled. `append_content`,
`create_table`, `search_notion` and `create_subpage` each return the request
they would send (path, verb, body). `get_page_text` reads blocks from the
service; here the listing is given as a finite tree, and the tree may contain
a failure.

The model follows the source's imperative form, and each method is proved
against a reference function:

- `AppendContent.ContentParser` is a class holding the three local variables
  of `append_content`: `children`, `table_buffer` and `in_table`. Its
  `FlushTable` and `ReadLine` methods update them in place.
- `AppendContent.ParseLines` runs the loop. Its invariant ties the parser's
  state to the declarative semantics `Parse`, under which each maximal run of
  `|` lines is one table and every other line emits what `LineBlock` says.
- `PageReader.GetPageText` accumulates its parts in a loop and recurses into
  sub-pages. It is proved equal to the function `PageText`.
- The builders are proved equal to reference functions. Lemmas then state
  what those functions promise: round trips, the per-line classification, one
  table per run, the failure cases, and reading back what was written.

Files:

- `wrappers.dfy`: `Option` and `Result`.
- `text.dfy`: the Python string operations the tools use.
- `blocks.dfy`: the wire blocks and the request envelope.
- `append_content.dfy` and `append_content_properties.dfy`: `append_content`.
- `create_table.dfy`: `create_table`.
- `page_text.dfy` and `page_text_properties.dfy`: `get_page_text`, and how it
  reads back what `append_content` writes.
- `request_bodies.dfy`: the `search_notion` and `create_subpage` bodies.

### Behaviour worth knowing

- **A blank line closes an open table.** At lines 93-101, every line without
  `|` flushes the open table before it is classified, and the blank-line skip
  comes only afterwards (line 125). So a blank line between two `|` lines
  yields two tables. `AppendContentProperties.BlankLineSplitsTable` proves it.
- **Heading levels have no upper bound.** The level is the number of leading
  `#` (line 105), and the block type is `heading_` followed by that number
  (line 109), so `#######x` gives a block of type `heading_7`.
  `AppendContentProperties.HeadingLine` holds for every level.
- **Table rows are neither checked nor padded.** A table's width is the cell
  count of its first row only (line 67 in `flush_table`, line 177 in
  `create_table`). Later rows keep their own length.

## Model

| member | source | states |
|---|---|---|
| Text.IsSpace | notion_mcp_server.py:94 | the characters `strip()` removes: space, `\t` to `\r`, and `\x1c` to `\x1f` |
| Text.TrimStart | notion_mcp_server.py:94 | the left half of `strip()`: drops leading whitespace, and the result starts with no whitespace |
| Text.TrimEnd | notion_mcp_server.py:94 | the right half of `strip()`: drops trailing whitespace, and the result ends with no whitespace |
| Text.StartsWith | notion_mcp_server.py:104 | `s.startswith(prefix)`, used for `#` (line 104), for `- ` and `* ` (line 115) and for `heading_` (line 239) |
| Text.Strip | notion_mcp_server.py:94 | `str.strip()`: the result is no longer than the input and has no whitespace at either end |
| Text.StripEmptyIffBlank | notion_mcp_server.py:125 | `not line.strip()` holds exactly when the line is made only of whitespace |
| Text.StripPadded | notion_mcp_server.py:106 | stripping removes exactly the whitespace padding around a stripped text |
| Text.StripIdempotent | notion_mcp_server.py:79 | stripping twice is stripping once, which is why `flush_table` re-stripping cells changes nothing |
| Text.TrimStartIsSuffix | notion_mcp_server.py:94 | `lstrip` keeps a suffix of its input |
| Text.TrimStartRemovesBlank | notion_mcp_server.py:94 | what `lstrip` removes is whitespace |
| Text.TrimEndIsPrefix | notion_mcp_server.py:94 | `rstrip` keeps a prefix of its input |
| Text.TrimEndRemovesBlank | notion_mcp_server.py:94 | what `rstrip` removes is whitespace |
| Text.TrimStartPadded | notion_mcp_server.py:94 | `lstrip` removes the whole of a whitespace prefix when the rest does not start with whitespace |
| Text.TrimEndPadded | notion_mcp_server.py:94 | `rstrip` removes the whole of a whitespace suffix when the rest does not end with whitespace |
| Text.Split | notion_mcp_server.py:94 | `line.split("\|")` always gives at least one piece |
| Text.SplitNoSep | notion_mcp_server.py:94 | a text without the separator splits into itself alone |
| Text.SplitAt | notion_mcp_server.py:94 | each separator ends one piece and starts the next |
| Text.SplitPiecesNoSep | notion_mcp_server.py:94 | no piece of `line.split("\|")` contains the separator |
| Text.JoinSplit | notion_mcp_server.py:94 | joining the pieces of a split with the separator gives back the text |
| Text.JoinSnoc | notion_mcp_server.py:263 | joining one more part appends the separator and that part |
| Text.SplitLastEmpty | notion_mcp_server.py:57 | the last piece is empty exactly when the text is empty or ends with the separator |
| Text.Lines | notion_mcp_server.py:57 | `splitlines()` for `\n`: the pieces of a split on `\n`, without the empty piece a final line feed leaves; it is defined from `Split`, and `LinesNoLineFeed` with `LinesRoundTrip` states that the lines are the stretches between line feeds |
| Text.Join | notion_mcp_server.py:263 | `sep.join(pieces)`: the pieces with the separator between each neighbouring pair; `JoinSplit` and `JoinSnoc` state its laws |
| Text.LinesRoundTrip | notion_mcp_server.py:57 | `splitlines()` for `\n`: the lines joined by `\n` give back the text, apart from one final line feed |
| Text.LinesNoLineFeed | notion_mcp_server.py:57 | no line of `splitlines()` contains a line feed |
| Text.Repeat | notion_mcp_server.py:242 | `'#' * n` has `n` characters, or none when `n <= 0`, all of them the given character |
| Text.Decimal | notion_mcp_server.py:109 | `str(n)` is a non-empty run of ASCII digits |
| Text.DecimalValue | notion_mcp_server.py:109 | the digits of `str(n)` read back as `n` |
| Text.ParseInt | notion_mcp_server.py:242 | `int(level)`: optional surrounding whitespace, an optional sign and ASCII digits give the number, and anything else is `None` (the `ValueError`); `ParseDecimal` states `int(str(n)) == n` |
| Text.ParseDecimal | notion_mcp_server.py:240-242 | `int(str(n)) == n`, so the suffix of `heading_{n}` reads back as `n` |
| AppendContent.IsTableLine | notion_mcp_server.py:93 | a table line is one that contains `\|` |
| AppendContent.Cells | notion_mcp_server.py:94 | the cells of a table line: the pieces of `line.split("\|")`, each stripped, the empty ones dropped; `CellsAt` and `CellsAreStripped` state its laws |
| AppendContent.NonEmptyStripped | notion_mcp_server.py:94 | dropping the empty stripped pieces never adds cells |
| AppendContent.CellRows | notion_mcp_server.py:95 | one row of cells per table line |
| AppendContent.NonEmptyStrippedIsCellRow | notion_mcp_server.py:94 | every cell kept is non-empty and stripped |
| AppendContent.CellsAreStripped | notion_mcp_server.py:93-95 | every cell of a table line is non-empty and stripped |
| AppendContent.StripRow | notion_mcp_server.py:79-80 | `[cell.strip() for cell in row]`: each cell of a row stripped, in order |
| AppendContent.StripCellRow | notion_mcp_server.py:79-80 | `flush_table` stripping each buffered cell again leaves the row unchanged |
| AppendContent.LeadingHashes | notion_mcp_server.py:105 | `len(line) - len(line.lstrip("#"))` is at most the line's length |
| AppendContent.LeadingHashesExact | notion_mcp_server.py:105 | the level counts exactly the `#` characters at the start of the line |
| AppendContent.TableBlock | notion_mcp_server.py:64-86 | the table `flush_table` builds from a non-empty buffer: the first row's cell count as width, a column header, no row header, the rows in order |
| AppendContent.Pending | notion_mcp_server.py:64-65 | what a flush emits: nothing for an empty buffer, otherwise the one table of the buffered rows |
| AppendContent.LineBlock | notion_mcp_server.py:103-135 | the block a line without `\|` emits: a heading for a leading `#`, a bullet for `- ` or `* `, nothing for a blank line, otherwise the unstripped line as a paragraph; `LineBlockClassifies` states the classification |
| AppendContent.PipeRun | notion_mcp_server.py:93-97 | the run of table lines at the front is no longer than the input |
| AppendContent.PipeRunExact | notion_mcp_server.py:93-101 | the run consists of table lines and stops at the first line without `\|` |
| AppendContent.Parse | notion_mcp_server.py:56-139 | the parser never emits more blocks than there are lines |
| AppendContent.ContentParser.constructor | notion_mcp_server.py:58-60 | no blocks, an empty table buffer, and `in_table` false |
| AppendContent.ContentParser.FlushTable | notion_mcp_server.py:62-89 | emits the buffered rows as one table (first row's cell count as width, column header, no row header, cells stripped) and empties the buffer; emits nothing for an empty buffer; keeps `in_table` equal to "the buffer is non-empty" |
| AppendContent.ContentParser.ReadLine | notion_mcp_server.py:91-135 | a line with `\|` appends its cells to the buffer and emits nothing; any other line flushes the open table, then emits its heading, bullet or paragraph, or nothing when blank |
| AppendContent.ResumeTableLine | notion_mcp_server.py:93-97 | a table line joins the open table, or opens one |
| AppendContent.ResumeOtherLine | notion_mcp_server.py:99-135 | any other line closes the open table and then emits its own block |
| AppendContent.TableLineStep | notion_mcp_server.py:93-97 | reading a table line keeps the loop invariant |
| AppendContent.OtherLineStep | notion_mcp_server.py:99-135 | reading any other line keeps the loop invariant |
| AppendContent.ResumeEnd | notion_mcp_server.py:137-139 | at the end of the input only the open table is left to emit |
| AppendContent.ParseLines | notion_mcp_server.py:57-139 | the loop and the trailing flush emit exactly `Parse(lines)` |
| Blocks.ChildrenPath | notion_mcp_server.py:146 | `f"blocks/{page_id}/children"`, the path of both block-appending requests (lines 146 and 211) |
| AppendContent.AppendContent | notion_mcp_server.py:56-149 | sends `PATCH blocks/{page_id}/children` with the parsed blocks of the text's lines, and `after` only when it is a non-empty string |
| AppendContentProperties.LineBlockClassifies | notion_mcp_server.py:104-135 | a line without `\|` is, in this order, a heading (starts with `#`), a bullet (`- ` or `* `), nothing (blank) or a paragraph (anything else, unstripped) |
| AppendContentProperties.NonEmptyStrippedConcat | notion_mcp_server.py:94 | the cells of two lists of pieces are the cells of each list, in order |
| AppendContentProperties.NonEmptyStrippedOne | notion_mcp_server.py:94 | a blank piece gives no cell; any other piece gives its stripped text |
| AppendContentProperties.CellsOfPiece | notion_mcp_server.py:94 | a stretch without `\|` is one stripped cell, or none when blank |
| AppendContentProperties.CellsAt | notion_mcp_server.py:94 | every `\|` separates cells: the cells of `a\|b` are those of `a`, then those of `b` |
| AppendContentProperties.CellsOfStripped | notion_mcp_server.py:94 | a non-empty stripped text without `\|` is a single cell |
| AppendContentProperties.CellsOfSpaced | notion_mcp_server.py:94 | the spaces around a cell leave no trace |
| AppendContentProperties.CellsOuterPipes | notion_mcp_server.py:93-95 | `\| a \| b \|` gives the cells `a` and `b` |
| AppendContentProperties.CellsInnerPipe | notion_mcp_server.py:93-95 | `a\|b` gives the same cells `a` and `b` |
| AppendContentProperties.CellsBlankRow | notion_mcp_server.py:93-95 | `\| \|` gives a row with no cells |
| AppendContentProperties.PipeRunConcat | notion_mcp_server.py:93-101 | a run of table lines reaches past `xs` only when it covers all of `xs` |
| AppendContentProperties.OneTablePerRun | notion_mcp_server.py:62-101 | a maximal run of table lines is exactly one table: one row per line in input order, the first row's cell count as width, a column header, no row header |
| AppendContentProperties.ParseOtherFront | notion_mcp_server.py:99-135 | a line without `\|` emits its block before anything that follows |
| AppendContentProperties.ParseTableFront | notion_mcp_server.py:93-101 | a run that ends inside `xs` is one table whatever follows `xs` |
| AppendContentProperties.ParseTableWhole | notion_mcp_server.py:93-101 | a run filling `xs` is one table when `ys` does not continue it |
| AppendContentProperties.ParseRunAlone | notion_mcp_server.py:137-139 | a run at the end of the input is flushed as one table |
| AppendContentProperties.ParseAppend | notion_mcp_server.py:91-139 | the blocks of `xs + ys` are those of `xs` then those of `ys`, unless the join falls inside a run of table lines |
| AppendContentProperties.ParseOtherLine | notion_mcp_server.py:104-135 | a single line without `\|` emits its own block and nothing else |
| AppendContentProperties.BlankLineEmitsNothing | notion_mcp_server.py:125-126 | a whitespace-only line is not a table line and emits nothing |
| AppendContentProperties.OneLineTable | notion_mcp_server.py:91-139 | a single table line is buffered, then flushed at the end as a table of one row |
| AppendContentProperties.BlankLineSkipped | notion_mcp_server.py:125-126 | a whitespace-only line contributes nothing, whatever follows it |
| AppendContentProperties.TableLineClosed | notion_mcp_server.py:99-101 | a table line followed by a line without `\|` is a one-row table, closed before that line |
| AppendContentProperties.BlankLineSplitsTable | notion_mcp_server.py:93-126 | a blank line between two table lines closes the first table, so two tables of one row come out |
| AppendContentProperties.LeadingHashesOf | notion_mcp_server.py:105 | `k` hashes before text not starting with `#` give level `k` |
| AppendContentProperties.NoPipeInHashes | notion_mcp_server.py:93 | hashes before a text without `\|` do not make a table line |
| AppendContentProperties.HeadingLine | notion_mcp_server.py:104-113 | `k` leading `#` give a heading of level `k` with no upper bound, and the stripped rest as text; `#` alone gives level 1 and empty text |
| AppendContentProperties.HeadingLineBlock | notion_mcp_server.py:104-106 | the same classification for the line alone |
| AppendContentProperties.BulletLine | notion_mcp_server.py:115-123 | a line starting with `- ` or `* ` is a bullet whose text is the stripped rest |
| AppendContentProperties.BulletLineBlock | notion_mcp_server.py:115-116 | the same classification for the line alone |
| AppendContentProperties.PlainLine | notion_mcp_server.py:128-135 | any other non-blank line without `\|` is a paragraph keeping the unstripped line |
| AppendContentProperties.ParagraphsOnly | notion_mcp_server.py:91-135 | a text of such lines gives one paragraph per line, in order, each line unchanged |
| AppendContentProperties.DashWithoutSpace | notion_mcp_server.py:115 | `-x` is a paragraph, not a bullet |
| AppendContentProperties.IndentedDash | notion_mcp_server.py:115 | ` - x` is a paragraph: a bullet starts in the first column |
| AppendContentProperties.PipeBeforeHeading | notion_mcp_server.py:93-104 | `# a \| b` is a table row, not a heading |
| AppendContentProperties.TableCountConcat | notion_mcp_server.py:62-101 | helper of `TablesMatchRuns`: the model's table count adds up over concatenated block lists |
| AppendContentProperties.RunCountSkipsRun | notion_mcp_server.py:62-101 | helper of `TablesMatchRuns`: the model's run count is unchanged when the rest of a run is dropped |
| AppendContentProperties.LineBlockNotTable | notion_mcp_server.py:104-135 | a line without `\|` never emits a table |
| AppendContentProperties.TablesMatchRuns | notion_mcp_server.py:62-101 | the parser emits exactly as many tables as the input has maximal runs of table lines |
| AppendContentProperties.CellRowsWellFormed | notion_mcp_server.py:94-95 | every buffered row is made of non-empty stripped cells |
| AppendContentProperties.LineBlockWellFormed | notion_mcp_server.py:104-135 | a heading has level at least 1 and stripped text; a bullet has stripped text; a paragraph is non-blank with no `\|` |
| AppendContentProperties.WellFormedConcat | notion_mcp_server.py:56-139 | helper of `ParseWellFormed`: the model's well-formedness predicate holds of a concatenation of well-formed lists |
| AppendContentProperties.ParseWellFormed | notion_mcp_server.py:56-139 | every emitted block is well formed; every table has at least one row, a column header, no row header and the first row's width |
| AppendContentProperties.MixedExample | notion_mcp_server.py:91-139 | a heading, a bullet, two table rows and a paragraph give those four blocks in order, the table of width 2 with stripped cells |
| AppendContentProperties.ExampleHeading | notion_mcp_server.py:104-106 | `# a` is the heading of level 1 with text `a` |
| AppendContentProperties.ExampleBullet | notion_mcp_server.py:115-116 | `- b` is the bullet `b` |
| AppendContentProperties.ExampleTable | notion_mcp_server.py:62-97 | two outer-piped rows form one table of width 2 |
| AppendContentProperties.ExampleRow | notion_mcp_server.py:93-95 | `\| x \| y \|` is a table line with cells `x` and `y` |
| AppendContentProperties.TwoRows | notion_mcp_server.py:93-97 | two table lines form one run of two rows |
| AppendContentProperties.ExampleTail | notion_mcp_server.py:99-135 | a table is closed by the paragraph that follows it |
| AppendContentProperties.ConsLine | notion_mcp_server.py:99-135 | a line without `\|` emits its block ahead of the blocks of the lines after it |
| AppendContentProperties.PipeRunAll | notion_mcp_server.py:93-97 | lines that all contain `\|` form a single run |
| CreateTable.Width | notion_mcp_server.py:177 | `len(rows[0]) if rows and rows[0] else 0` |
| CreateTable.TablePayload | notion_mcp_server.py:180-202 | the table block `create_table` builds: `Width(rows)`, the two header flags as given, the rows and cells verbatim |
| CreateTable.WidthIsFirstRow | notion_mcp_server.py:177 | the width is the first row's length, or 0 without rows; the test for an empty first row changes nothing |
| CreateTable.CreateTable | notion_mcp_server.py:175-214 | sends `PATCH blocks/{page_id}/children` with one table block holding the rows and cells verbatim (unstripped), the header flags as given, and `after` whenever it is given, even when empty; the Python defaults (`has_column_header=True`, `has_row_header=False`, `after=None`, lines 158-160) are not represented, so every argument is explicit |
| CreateTable.SameTableAsParser | notion_mcp_server.py:175-202 | on the rows `append_content` gathers from a run (`flush_table`, lines 62-89), `create_table` with its default flags sends the very table the parser emits |
| PageReader.PlainStrict | notion_mcp_server.py:241 | `"".join(tok["plain_text"] ...)`: fails as soon as a token has no `plain_text` |
| PageReader.PlainLenient | notion_mcp_server.py:254 | `"".join(tok.get("plain_text", "") ...)`: a missing `plain_text` counts as empty |
| PageReader.RichTokens | notion_mcp_server.py:241 | `data.get("rich_text", [])` |
| PageReader.AnyTokens | notion_mcp_server.py:252 | `data.get("rich_text") or data.get("text") or []`: an empty list counts as missing |
| PageReader.OwnParts | notion_mcp_server.py:238-254 | the part the type branches add: `'#' * int(level)`, a space and the text for `heading_*`; `- ` or `1. ` and the text for the two list types; the lenient join of the tokens, when there are any, for every other type; a failed `int` or a missing `plain_text` fails |
| PageReader.SubParts | notion_mcp_server.py:256-261 | for `child_page` only, the sub-page section with the title (default `<no title>`), the `id` and the sub-page's text; a missing `id` or a failed sub-page fails |
| PageReader.HeadingPart | notion_mcp_server.py:242 | `f"{'#'*int(level)} {text}"`: the hashes, one space, the text |
| PageReader.SubPagePart | notion_mcp_server.py:261 | the sub-page section: a line feed, `--- Sub-page: title (id) ---`, a line feed, the sub-page's text |
| PageReader.NodeParts | notion_mcp_server.py:238-261 | a block's own part from the type branches, then its sub-page section; either failing fails the block |
| PageReader.BlockText | notion_mcp_server.py:235-261 | all the parts one block adds, its own part first, then its sub-page section |
| PageReader.Parts | notion_mcp_server.py:230-261 | the parts of the first `n` blocks, in listing order, or the first failure |
| PageReader.PageText | notion_mcp_server.py:227-266 | the page's text: the parts joined by `\n\n`, or one failure when the listing or any block fails |
| PageReader.GetPageText | notion_mcp_server.py:227-266 | the text is exactly `PageText(listing)`: all parts joined by blank lines, or one failure with no partial text |
| PageReader.PartsFailStep | notion_mcp_server.py:230-261 | one more block fails the parts exactly when the earlier parts or that block fail |
| PageReader.PartsFailStays | notion_mcp_server.py:265-266 | once the walk has failed, later blocks cannot undo the failure |
| PageReader.FailAt | notion_mcp_server.py:265-266 | a block that fails fails the whole page |
| PageReaderProperties.PlainStrictLenient | notion_mcp_server.py:241-254 | the strict join of `plain_text` succeeds exactly when every token has it, and then agrees with the lenient join |
| PageReaderProperties.EmptyPage | notion_mcp_server.py:263 | a page with no blocks renders as the empty text |
| PageReaderProperties.PartsPrefix | notion_mcp_server.py:230-261 | the parts of the first blocks do not depend on the blocks after them |
| PageReaderProperties.PartsSnoc | notion_mcp_server.py:230-261 | reading one more block appends its parts, or fails |
| PageReaderProperties.FirstFailure | notion_mcp_server.py:230-266 | a failed walk has a first failing block, and every block before it renders |
| PageReaderProperties.BlockFailureSpreads | notion_mcp_server.py:265-266 | a failing block fails every longer prefix of the page |
| PageReaderProperties.PartsFailIff | notion_mcp_server.py:230-266 | the first `n` blocks fail exactly when one of them fails |
| PageReaderProperties.PageFailIff | notion_mcp_server.py:227-266 | the page fails exactly when the listing fails or one of its blocks fails |
| PageReaderProperties.HeadingSuffix | notion_mcp_server.py:240 | `btype.split("_", 1)[1]` of `heading_{k}` is `str(k)` |
| PageReaderProperties.HeadingRenders | notion_mcp_server.py:239-242 | `heading_k` renders as `k` hashes, a space and the joined `plain_text`, for every `k` |
| PageReaderProperties.BadHeadingFails | notion_mcp_server.py:240-242 | a heading suffix that is not an integer fails the block |
| PageReaderProperties.ListItemRenders | notion_mcp_server.py:245-248 | a list item renders as its prefix, a space and the strict join of its `rich_text` tokens: `-` for a bulleted item and always the literal `1.` for a numbered one, with no counter |
| PageReaderProperties.MissingPlainTextFails | notion_mcp_server.py:239-248 | a `rich_text` token without `plain_text` fails a heading or a list item, which read it with `tok["plain_text"]` (lines 241 and 246) |
| PageReaderProperties.GenericRenders | notion_mcp_server.py:250-254 | every kind other than `heading_*`, the two list kinds and `child_page` adds the lenient join of `rich_text` or `text` when there are tokens, nothing otherwise, and never fails |
| PageReaderProperties.EmptyRichTextFallsBack | notion_mcp_server.py:252-254 | an empty `rich_text` list counts as missing, so the block renders its `text` tokens |
| PageReaderProperties.ChildPageParts | notion_mcp_server.py:250-261 | a `child_page` adds its own tokens' text when it has any, then the `--- Sub-page: title (id) ---` section with the sub-page's text, the title defaulting to `<no title>` |
| PageReaderProperties.ChildPageFails | notion_mcp_server.py:259-260 | a `child_page` without `id`, or whose sub-page fails, fails |
| PageReaderProperties.StoredReadsBack | notion_mcp_server.py:239-254 | a block written by `append_content` (lines 104-135) reads back as its hashes and text, `- ` and text, or the paragraph line; a table reads back as nothing |
| PageReaderProperties.StoredAllConcat | notion_mcp_server.py:227-263 | helper of `WriteThenRead`: the model's `StoredAll` maps a concatenation block by block, in order |
| PageReaderProperties.ParseSnocOther | notion_mcp_server.py:99-135 | a last line without `\|` adds its own block after the others |
| PageReaderProperties.ReadOneMore | notion_mcp_server.py:239-263 | one more canonical line reads back as itself; a blank line reads back as nothing |
| PageReaderProperties.WriteThenReadParts | notion_mcp_server.py:227-263 | a text of canonical and blank lines, written by `append_content` (lines 56-139) then read, comes back as its non-blank lines, one part each |
| PageReaderProperties.WriteThenRead | notion_mcp_server.py:227-263 | that text, written by `append_content` (lines 56-139), reads back as its non-blank lines joined by blank lines |
| PageReaderProperties.CanonicalHeading | notion_mcp_server.py:239-242 | `k` hashes, a space and stripped text, written as a heading (lines 104-113), read back unchanged |
| PageReaderProperties.CanonicalBullet | notion_mcp_server.py:245-248 | `- ` and stripped text, written as a bullet (lines 115-123), read back unchanged |
| PageReaderProperties.CanonicalParagraph | notion_mcp_server.py:251-254 | any other non-blank line without `\|`, written as a paragraph (lines 128-135), reads back unchanged |
| RequestBodies.Truthy | notion_mcp_server.py:366-371 | Python truthiness of a JSON value: `None`, `False`, `0` and empty strings, lists and dictionaries are false |
| RequestBodies.SearchBody | notion_mcp_server.py:492-500 | the search body: `query` always, and `sort`, `filter`, `start_cursor` and `page_size` each exactly when not `None`; `SearchRoundTrip` states its key set and that nothing is lost |
| RequestBodies.SearchNotion | notion_mcp_server.py:490-503 | sends `POST search` with the body `SearchBody(args)`, built key by key |
| RequestBodies.SearchRoundTrip | notion_mcp_server.py:492-500 | the body has `query` and exactly the optional keys whose values are not `None`; reading it back gives every argument, including empty ones |
| RequestBodies.Parent | notion_mcp_server.py:350 | `{"type": "page_id", "page_id": page_id}` |
| RequestBodies.TitleProperties | notion_mcp_server.py:353-360 | the `title` property: one text token whose content is the title |
| RequestBodies.SubpageBody | notion_mcp_server.py:350-371 | the page-creation body: `parent` (type `page_id`) and the `title` property always, and `icon`, `cover` and `children` each exactly when truthy; `SubpageRoundTrip` states what reads back |
| RequestBodies.CreateSubpage | notion_mcp_server.py:348-378 | sends `POST pages` with the body `SubpageBody(args)`, built key by key with Python truthiness tests |
| RequestBodies.SubpageRoundTrip | notion_mcp_server.py:350-371 | reading the body back gives the page id, the title and each truthy optional argument; an empty `icon`, `cover` or `children` is dropped like `None` |
| RequestBodies.EmptyValuesDiffer | notion_mcp_server.py:366-367 | an empty `sort` is sent by `search_notion` (lines 493-494), while an empty `icon` is dropped by `create_subpage` |

## Left out

- Network I/O: `notion.request`, `notion.blocks.children.list` and the
  pagination of `iterate_paginated_api`. Each tool's model returns the request
  it would send. The listing that `get_page_text` reads is a finite tree given
  in advance.
- RequestBodies.SearchNotion: the tool returns the `results` list of the
  service's reply, or `[]` when it has none (line 504). The reply is outside
  the model, so this projection is not modelled; the model stops at the
  request.
- RequestBodies.CreateSubpage: the tool returns the service's reply to the
  request (lines 374-378); the reply is outside the model.
- PageReader.GetPageText: the source fetches each sub-page lazily when it
  reaches the `child_page` block. The model reads the same listing from the
  block's pre-fetched `sub` field, so the order of the fetches is not
  modelled.
- PageReader.GetPageText: a failure anywhere in a paged listing is one
  `ListingFault` for the whole listing. Blocks already fetched before the
  failure are not modelled separately; the result is a failure either way.
- PageReader.GetPageText: `data.get(...)` on a key whose value is present but
  `null` is not modelled. A missing key and a `null` value are both `None`.
- The exact `McpError` messages: every failure is one `Err`.
- Text.Lines: `str.splitlines` also splits on `\r`, `\r\n`, `\v`, `\f`,
  `\x1c`-`\x1e`, `\x85`, `\u2028` and `\u2029`. Only `\n` is modelled, and a
  final `\n` adds no empty line, as in Python.
- Text.IsSpace: only the ASCII whitespace characters and `\x1c`-`\x1f` count
  as whitespace. The other Unicode spaces that `str.strip` removes are left
  out.
- Text.ParseInt: `int()` also accepts `_` between digits and non-ASCII
  decimal digits. Both are left out; the accepted form is optional
  whitespace, an optional sign and ASCII digits.
- The pass-through tools `retrieve_page_property`, `update_page_title`,
  `retrieve_page`, `list_users`, `retrieve_user` and `get_me` (lines 268-463).
  They build a fixed request from their arguments and have no logic.
- `update_page` (lines 413-417) relies on `notion_client.helpers.pick`, which
  is not part of this model.
- FastMCP registration, the `mcp.run` transport and the loading of the
  environment and token (lines 16-23, 585-586) are plumbing.
- The prompt functions (lines 511-583) only return constant text.
- `notion_agent.py` (a Tk interface and a LangChain agent on a background
  event loop) and `tts_service.py` (a global text-to-speech engine writing to
  a fixed file) are not part of this model.
- Inside a block, the wire format nests each text as
  `[{"type": "text", "text": {"content": ...}}]` and each table row as a
  `table_row` child. `Blocks.Block` keeps the text and the rows themselves;
  the nesting is fixed and carries no information.
- PageReaderProperties.Stored: the write-then-read lemmas (`StoredReadsBack`,
  `ReadOneMore`, `WriteThenReadParts`, `WriteThenRead` and the `Canonical*`
  lemmas) rest on a model of the notes service. It assumes that every block
  created is listed back with its type and a single token whose
  `plain_text` is the written text, and that this holds at every heading
  level, including levels above 3. The service's actual behaviour is not
  part of this model.
- CreateTable.CreateTable: the Python default arguments (`has_column_header`
  true, `has_row_header` false, `after` absent; lines 158-160) are not
  represented. Every caller passes all of them, and `SameTableAsParser`
  passes true and false explicitly.
- When `get_page_text` reads back a table, it renders nothing. Table rows are
  child blocks, and only `child_page` children are expanded.
  `PageReaderProperties.StoredReadsBack` states this. The written-then-read
  round trip therefore covers headings, bullets and paragraphs only.
