/** The `create_table` tool: a table given as rows of cell strings becomes
    one table block, its cells copied verbatim. */
module CreateTable {
  import opened Wrappers
  import opened Blocks
  import opened AppendContent
  import opened AppendContentProperties

  /** `len(rows[0]) if rows and rows[0] else 0` */
  function Width(rows: seq<seq<string>>): nat {
    if rows != [] && rows[0] != [] then |rows[0]| else 0
  }

  /** The width is the first row's length whenever there is a row: an empty
      first row has length 0 anyway, so the second test never changes it. */
  lemma WidthIsFirstRow(rows: seq<seq<string>>)
    ensures Width(rows) == if rows == [] then 0 else |rows[0]|
  {
  }

  /** The table block `create_table` sends: the computed width, both header
      flags as given and the rows as given. */
  function TablePayload(rows: seq<seq<string>>, hasColumnHeader: bool, hasRowHeader: bool): Block {
    Table(Width(rows), hasColumnHeader, hasRowHeader, rows)
  }

  /** `create_table` as far as the request it sends: the page's children
      path, `PATCH`, one table block built row by row with every cell
      unchanged, and `after` whenever it is given at all, even empty. */
  method CreateTable(pageId: string, rows: seq<seq<string>>, hasColumnHeader: bool,
                     hasRowHeader: bool, after: Option<string>)
    returns (request: Request<AppendBody>)
    ensures request.path == ChildrenPath(pageId) && request.verb == "PATCH"
    ensures request.body.children == [TablePayload(rows, hasColumnHeader, hasRowHeader)]
    ensures request.body.after == after
  {
    var width := if rows != [] && rows[0] != [] then |rows[0]| else 0;
    var tableRows: seq<seq<string>> := [];
    for i := 0 to |rows|
      invariant tableRows == rows[..i]
    {
      var cells: seq<string> := [];
      for j := 0 to |rows[i]|
        invariant cells == rows[i][..j]
      {
        cells := cells + [rows[i][j]];
      }
      assert rows[i][..|rows[i]|] == rows[i];
      tableRows := tableRows + [cells];
    }
    assert rows[..|rows|] == rows;
    var table := Table(width, hasColumnHeader, hasRowHeader, tableRows);
    var anchor: Option<string> := None;
    if after.Some? {
      anchor := after;
    }
    request := Request(ChildrenPath(pageId), "PATCH", AppendBody([table], anchor));
  }

  /** The two ways to make a table agree on the rows `append_content`
      gathers from a run of table lines: with the default header flags,
      `create_table` on those rows sends the very table the parser emits. */
  lemma SameTableAsParser(run: seq<string>)
    requires run != []
    requires forall k :: 0 <= k < |run| ==> IsTableLine(run[k])
    ensures Parse(run) == [TablePayload(CellRows(run), true, false)]
  {
    PipeRunAll(run);
    ParseRunAlone(run);
  }

}
