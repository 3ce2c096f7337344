/** The request bodies the block-creating tools send to the notes service,
    as a closed set of block kinds instead of nested dictionaries. */
module Blocks {
  import opened Wrappers

  /** One entry of a `children` list in a "append block children" request.
      Every text (a heading's, a bullet's, a paragraph's, each table cell)
      travels as a single rich-text token `{"type": "text", "text":
      {"content": ...}}`, so a text is kept here as the string it carries.
      `Heading(k, t)` is the block of type `heading_k`; a table carries its
      rows as `table_row` children, one list of cells per row. */
  datatype Block =
    | Heading(level: nat, text: string)
    | Bullet(text: string)
    | Paragraph(text: string)
    | Table(width: nat, hasColumnHeader: bool, hasRowHeader: bool, rows: seq<seq<string>>)

  /** The body of an append request: the blocks and, when present, the block
      after which they are inserted. */
  datatype AppendBody = AppendBody(children: seq<Block>, after: Option<string>)

  /** A call of the generic request envelope `notion.request(path, method, body)`;
      sending it is outside the model. */
  datatype Request<B> = Request(path: string, verb: string, body: B)

  /** `f"blocks/{page_id}/children"` */
  function ChildrenPath(pageId: string): string {
    "blocks/" + pageId + "/children"
  }
}
