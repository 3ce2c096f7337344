/** The `get_page_text` tool: the blocks of a page, listed by the notes
    service, become one flat text; sub-pages are expanded inline. The paged
    listing is replaced by a finite tree in which every block carries the
    listing of its own sub-page. */
module PageReader {
  import opened Wrappers
  import opened Text

  /** One rich-text token; `plain_text` may be missing. */
  datatype Token = Token(plainText: Option<string>)

  /** The type-specific part of a block (`block[type]`), reduced to the keys
      the renderer reads; a missing key is `None`. */
  datatype Payload = Payload(richText: Option<seq<Token>>, text: Option<seq<Token>>, title: Option<string>)

  /** A listed block: its `id` (which may be missing), its `type` (the empty
      string when missing), its payload, and the listing that fetching its
      own children would give. */
  datatype Node = Node(id: Option<string>, kind: string, payload: Payload, sub: Listing)

  /** The outcome of listing the children of a page: all of them, or a
      failure of the service somewhere along the pages of the listing. */
  datatype Listing = Fetched(blocks: seq<Node>) | ListingFault

  /** `"".join(tok["plain_text"] for tok in tokens)`: fails as soon as one
      token has no `plain_text`. */
  function PlainStrict(tokens: seq<Token>): Result<string> {
    if tokens == [] then Ok([])
    else if tokens[0].plainText.None? then Err
    else
      match PlainStrict(tokens[1..])
      case Err => Err
      case Ok(rest) => Ok(tokens[0].plainText.value + rest)
  }

  /** `"".join(tok.get("plain_text", "") for tok in tokens)`: a missing
      `plain_text` counts as empty. */
  function PlainLenient(tokens: seq<Token>): string {
    if tokens == [] then []
    else
      (if tokens[0].plainText.Some? then tokens[0].plainText.value else []) +
      PlainLenient(tokens[1..])
  }

  /** `data.get("rich_text", [])` */
  function RichTokens(p: Payload): seq<Token> {
    if p.richText.Some? then p.richText.value else []
  }

  /** `data.get("rich_text") or data.get("text") or []`: an empty list
      counts as missing. */
  function AnyTokens(p: Payload): seq<Token> {
    if p.richText.Some? && p.richText.value != [] then p.richText.value
    else if p.text.Some? && p.text.value != [] then p.text.value
    else []
  }

  /** The rendering of a heading: `'#' * level`, a space, the text. */
  function HeadingPart(level: int, text: string): string {
    Repeat('#', level) + " " + text
  }

  /** The section that expands a sub-page. */
  function SubPagePart(title: string, id: string, subText: string): string {
    "\n--- Sub-page: " + title + " (" + id + ") ---\n" + subText
  }

  /** The part the type-specific branches add for one block: a heading
      (failing on a suffix that is not an integer or a token without
      `plain_text`), a bulleted or numbered item (always `1.`, never a
      counter), or for any other type its tokens when there are some. */
  function OwnParts(node: Node): Result<seq<string>> {
    var kind := node.kind;
    if StartsWith(kind, "heading_") then
      match ParseInt(kind[8..])
      case None => Err
      case Some(level) =>
        match PlainStrict(RichTokens(node.payload))
        case Err => Err
        case Ok(text) => Ok([HeadingPart(level, text)])
    else if kind == "bulleted_list_item" || kind == "numbered_list_item" then
      match PlainStrict(RichTokens(node.payload))
      case Err => Err
      case Ok(text) => Ok([(if kind == "bulleted_list_item" then "-" else "1.") + " " + text])
    else
      var tokens := AnyTokens(node.payload);
      if tokens != [] then Ok([PlainLenient(tokens)]) else Ok([])
  }

  /** The part a `child_page` block adds after its own part, given the text
      of the sub-page: the title (`<no title>` when missing), the `id`
      (failing when missing) and the sub-page's text. Other blocks add
      nothing here. */
  function SubParts(node: Node, subText: Result<string>): Result<seq<string>> {
    if node.kind == "child_page" then
      var title := if node.payload.title.Some? then node.payload.title.value else "<no title>";
      if node.id.None? then Err
      else if subText.Err? then Err
      else Ok([SubPagePart(title, node.id.value, subText.value)])
    else Ok([])
  }

  /** All the parts one block adds, in order; the failure of either step
      fails the block. */
  function NodeParts(node: Node, subText: Result<string>): Result<seq<string>> {
    match OwnParts(node)
    case Err => Err
    case Ok(own) =>
      match SubParts(node, subText)
      case Err => Err
      case Ok(sub) => Ok(own + sub)
  }

  /** The parts one listed block adds, its sub-page read first. */
  function BlockText(node: Node): Result<seq<string>>
    decreases node, 0
  {
    NodeParts(node, PageText(node.sub))
  }

  /** The parts of the first `n` listed blocks. */
  function Parts(listing: Listing, n: nat): Result<seq<string>>
    requires listing.Fetched? && n <= |listing.blocks|
    decreases listing, n
  {
    if n == 0 then Ok([])
    else
      var node := listing.blocks[n - 1];
      match Parts(listing, n - 1)
      case Err => Err
      case Ok(before) =>
        match BlockText(node)
        case Err => Err
        case Ok(own) => Ok(before + own)
  }

  /** The text of a page: all parts joined by a blank line, or one failure
      for the whole page. */
  function PageText(listing: Listing): Result<string>
    decreases listing
  {
    if listing.ListingFault? then Err
    else
      match Parts(listing, |listing.blocks|)
      case Err => Err
      case Ok(parts) => Ok(Join(parts, "\n\n"))
  }

  /** `get_page_text`: walks the listed blocks in order, appending parts,
      and expands each sub-page by a recursive call; any failure ends the
      call with no text at all. */
  method GetPageText(listing: Listing) returns (r: Result<string>)
    ensures r == PageText(listing)
    decreases listing
  {
    if listing.ListingFault? {
      return Err;
    }
    var blocks := listing.blocks;
    var parts: seq<string> := [];
    for i := 0 to |blocks|
      invariant Parts(listing, i) == Ok(parts)
    {
      var node := blocks[i];
      var kind := node.kind;
      var own: seq<string> := [];
      if StartsWith(kind, "heading_") {
        var level := ParseInt(kind[8..]);
        if level.None? {
          FailAt(listing, i);
          return Err;
        }
        var text := PlainStrict(RichTokens(node.payload));
        if text.Err? {
          FailAt(listing, i);
          return Err;
        }
        own := [Repeat('#', level.value) + " " + text.value];
      } else if kind == "bulleted_list_item" || kind == "numbered_list_item" {
        var text := PlainStrict(RichTokens(node.payload));
        if text.Err? {
          FailAt(listing, i);
          return Err;
        }
        var prefix := if kind == "bulleted_list_item" then "-" else "1.";
        own := [prefix + " " + text.value];
      } else {
        var tokens := AnyTokens(node.payload);
        if tokens != [] {
          own := [PlainLenient(tokens)];
        }
      }
      assert OwnParts(node) == Ok(own);
      var sub: seq<string> := [];
      if kind == "child_page" {
        var title := if node.payload.title.Some? then node.payload.title.value else "<no title>";
        if node.id.None? {
          FailAt(listing, i);
          return Err;
        }
        var subText := GetPageText(node.sub);
        if subText.Err? {
          FailAt(listing, i);
          return Err;
        }
        sub := ["\n--- Sub-page: " + title + " (" + node.id.value + ") ---\n" + subText.value];
      }
      assert BlockText(node) == Ok(own + sub);
      parts := parts + (own + sub);
    }
    return Ok(Join(parts, "\n\n"));
  }

  /** The `i`-th listed block fails on its own: its type-specific part or
      its sub-page section cannot be rendered. */
  predicate BlockFails(listing: Listing, i: nat)
    requires listing.Fetched? && i < |listing.blocks|
  {
    BlockText(listing.blocks[i]).Err?
  }

  /** One more block fails the parts exactly when the parts before it or
      the block itself fail. */
  lemma PartsFailStep(listing: Listing, n: nat)
    requires listing.Fetched? && 0 < n <= |listing.blocks|
    ensures Parts(listing, n).Err? <==> Parts(listing, n - 1).Err? || BlockFails(listing, n - 1)
  {
  }

  /** A failure stays a failure as more blocks are read. */
  lemma {:induction false} PartsFailStays(listing: Listing, i: nat, n: nat)
    requires listing.Fetched? && i <= n <= |listing.blocks|
    requires Parts(listing, i).Err?
    ensures Parts(listing, n).Err?
    decreases n
  {
    if i < n {
      PartsFailStays(listing, i, n - 1);
    }
  }

  /** A block that fails fails the whole page. */
  lemma FailAt(listing: Listing, i: nat)
    requires listing.Fetched? && i < |listing.blocks| && Parts(listing, i).Ok?
    requires BlockFails(listing, i)
    ensures PageText(listing).Err?
  {
    assert Parts(listing, i + 1).Err?;
    PartsFailStays(listing, i + 1, |listing.blocks|);
  }
}
