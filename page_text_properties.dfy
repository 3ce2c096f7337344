/** What `get_page_text` promises, stated over its reference semantics
    `PageText`, and how it reads back what `append_content` writes. */
module PageReaderProperties {
  import opened Wrappers
  import opened Text
  import opened Blocks
  import opened AppendContent
  import opened AppendContentProperties
  import opened PageReader

  /** The plain text of a token list exists exactly when every token has
      `plain_text`, and it then agrees with the lenient reading. */
  lemma {:induction false} PlainStrictLenient(tokens: seq<Token>)
    ensures PlainStrict(tokens).Ok? <==> forall i :: 0 <= i < |tokens| ==> tokens[i].plainText.Some?
    ensures PlainStrict(tokens).Ok? ==> PlainStrict(tokens).value == PlainLenient(tokens)
  {
    if tokens != [] {
      PlainStrictLenient(tokens[1..]);
      assert forall i :: 1 <= i < |tokens| ==> tokens[i] == tokens[1..][i - 1];
    }
  }

  /** A page with no blocks has the empty text. */
  lemma EmptyPage()
    ensures PageText(Fetched([])) == Ok([])
  {
  }

  /** The parts of the first blocks do not depend on the blocks after them. */
  lemma {:induction false} PartsPrefix(bs: seq<Node>, more: seq<Node>, n: nat)
    requires n <= |bs|
    ensures Parts(Fetched(bs + more), n) == Parts(Fetched(bs), n)
  {
    if n > 0 {
      PartsPrefix(bs, more, n - 1);
      assert (bs + more)[n - 1] == bs[n - 1];
    }
  }

  /** The parts of all listed blocks. */
  function AllParts(bs: seq<Node>): Result<seq<string>> {
    Parts(Fetched(bs), |bs|)
  }

  /** Reading one more block adds that block's parts after the others, or
      fails. */
  lemma PartsSnoc(bs: seq<Node>, b: Node)
    ensures AllParts(bs + [b]) ==
      match AllParts(bs)
      case Err => Err
      case Ok(before) =>
        match BlockText(b)
        case Err => Err
        case Ok(own) => Ok(before + own)
  {
    PartsPrefix(bs, [b], |bs|);
    assert (bs + [b])[|bs|] == b;
  }

  /** A failure of the first `n` blocks has a first failing block: every
      block before it renders. */
  lemma {:induction false} FirstFailure(listing: Listing, n: nat) returns (i: nat)
    requires listing.Fetched? && n <= |listing.blocks| && Parts(listing, n).Err?
    ensures i < n && BlockFails(listing, i) && Parts(listing, i).Ok?
  {
    if Parts(listing, n - 1).Err? {
      i := FirstFailure(listing, n - 1);
    } else {
      i := n - 1;
    }
  }

  /** A block that fails fails every longer prefix of the listing. */
  lemma BlockFailureSpreads(listing: Listing, i: nat, n: nat)
    requires listing.Fetched? && i < n <= |listing.blocks| && BlockFails(listing, i)
    ensures Parts(listing, n).Err?
  {
    assert Parts(listing, i + 1).Err?;
    PartsFailStays(listing, i + 1, n);
  }

  /** No partial output: the first `n` blocks fail exactly when one of them fails. */
  lemma PartsFailIff(listing: Listing, n: nat)
    requires listing.Fetched? && n <= |listing.blocks|
    ensures Parts(listing, n).Err? <==> exists i :: 0 <= i < n && BlockFails(listing, i)
  {
    if Parts(listing, n).Err? {
      var i := FirstFailure(listing, n);
    }
    forall i | 0 <= i < n && BlockFails(listing, i)
      ensures Parts(listing, n).Err?
    {
      BlockFailureSpreads(listing, i, n);
    }
  }

  /** The page fails as a whole exactly when the listing fails or one of
      its blocks fails: a heading suffix that is not an integer, a heading
      or list token without `plain_text`, a sub-page without `id`, or a
      sub-page that fails in turn. */
  lemma PageFailIff(listing: Listing)
    ensures PageText(listing).Err? <==>
            listing.ListingFault? ||
            exists i :: 0 <= i < |listing.blocks| && BlockFails(listing, i)
  {
    if listing.Fetched? {
      PartsFailIff(listing, |listing.blocks|);
    }
  }

  /** `str(k)` after `heading_` reads back as `k`. */
  lemma HeadingSuffix(k: nat)
    ensures ("heading_" + Decimal(k))[8..] == Decimal(k)
    ensures StartsWith("heading_" + Decimal(k), "heading_")
  {
    var kind := "heading_" + Decimal(k);
    assert kind[..8] == "heading_";
  }

  /** A heading of type `heading_k` renders as `k` hashes, a space and the
      concatenated `plain_text`, whatever the value of `k`. */
  lemma HeadingRenders(node: Node, k: nat, subText: Result<string>)
    requires node.kind == "heading_" + Decimal(k)
    requires PlainStrict(RichTokens(node.payload)).Ok?
    ensures NodeParts(node, subText) ==
            Ok([HeadingPart(k, PlainStrict(RichTokens(node.payload)).value)])
  {
    HeadingSuffix(k);
    ParseDecimal(k);
    assert node.kind[0] != "child_page"[0];
    assert node.kind[8..] == Decimal(k);
    assert StartsWith(node.kind, "heading_");
    var own := [HeadingPart(k, PlainStrict(RichTokens(node.payload)).value)];
    assert OwnParts(node) == Ok(own);
    assert SubParts(node, subText) == Ok([]);
    assert own + [] == own;
  }

  /** A heading whose suffix is not an integer fails the block. */
  lemma BadHeadingFails(node: Node, subText: Result<string>)
    requires StartsWith(node.kind, "heading_") && ParseInt(node.kind[8..]).None?
    ensures NodeParts(node, subText) == Err
  {
  }

  /** A list item renders as its prefix, a space and the strict join of its
      tokens. Numbered items carry no counter: every one renders with the
      literal prefix `1.`, wherever it stands in the page. */
  lemma ListItemRenders(node: Node, subText: Result<string>)
    requires node.kind == "bulleted_list_item" || node.kind == "numbered_list_item"
    requires PlainStrict(RichTokens(node.payload)).Ok?
    ensures NodeParts(node, subText) ==
            Ok([(if node.kind == "bulleted_list_item" then "-" else "1.") + " " +
                PlainStrict(RichTokens(node.payload)).value])
  {
    assert !StartsWith(node.kind, "heading_") by {
      assert node.kind[0] != "heading_"[0];
    }
    var own := [(if node.kind == "bulleted_list_item" then "-" else "1.") + " " +
                PlainStrict(RichTokens(node.payload)).value];
    assert OwnParts(node) == Ok(own);
    assert own + [] == own;
  }

  /** A token without `plain_text` fails a heading or a list item, whose
      text is read with `tok["plain_text"]`; the generic branch never fails
      on it (`GenericRenders`). */
  lemma MissingPlainTextFails(node: Node, subText: Result<string>, i: nat)
    requires StartsWith(node.kind, "heading_") ||
             node.kind == "bulleted_list_item" || node.kind == "numbered_list_item"
    requires i < |RichTokens(node.payload)| && RichTokens(node.payload)[i].plainText.None?
    ensures NodeParts(node, subText) == Err
  {
    PlainStrictLenient(RichTokens(node.payload));
  }

  /** Every other kind, except `child_page`, takes the generic branch: the
      lenient join of its tokens when it has some, and nothing otherwise;
      it never fails. */
  lemma GenericRenders(node: Node, subText: Result<string>)
    requires !StartsWith(node.kind, "heading_")
    requires node.kind != "bulleted_list_item" && node.kind != "numbered_list_item"
    requires node.kind != "child_page"
    ensures var tokens := AnyTokens(node.payload);
            NodeParts(node, subText) == Ok(if tokens != [] then [PlainLenient(tokens)] else [])
  {
    var tokens := AnyTokens(node.payload);
    var own := if tokens != [] then [PlainLenient(tokens)] else [];
    assert OwnParts(node) == Ok(own);
    assert own + [] == own;
  }

  /** An empty `rich_text` list counts as missing: such a block renders the
      tokens of its `text` key instead. */
  lemma EmptyRichTextFallsBack(node: Node, subText: Result<string>)
    requires !StartsWith(node.kind, "heading_")
    requires node.kind != "bulleted_list_item" && node.kind != "numbered_list_item"
    requires node.kind != "child_page"
    requires node.payload.richText == Some([])
    requires node.payload.text.Some? && node.payload.text.value != []
    ensures NodeParts(node, subText) == Ok([PlainLenient(node.payload.text.value)])
  {
    GenericRenders(node, subText);
  }

  /** A `child_page` also goes through the generic branch: with tokens of
      its own it adds their text and then the sub-page section. */
  lemma ChildPageParts(node: Node, subText: string)
    requires node.kind == "child_page" && node.id.Some?
    ensures var title := if node.payload.title.Some? then node.payload.title.value else "<no title>";
            var section := [SubPagePart(title, node.id.value, subText)];
            var tokens := AnyTokens(node.payload);
            NodeParts(node, Ok(subText)) ==
              Ok((if tokens != [] then [PlainLenient(tokens)] else []) + section)
  {
    assert !StartsWith(node.kind, "heading_") by {
      assert node.kind[0] != "heading_"[0];
    }
  }

  /** A `child_page` without an `id`, or whose sub-page fails, fails. */
  lemma ChildPageFails(node: Node, subText: Result<string>)
    requires node.kind == "child_page" && (node.id.None? || subText.Err?)
    ensures NodeParts(node, subText) == Err
  {
  }

  /** How the notes service lists a block that `append_content` created:
      its type and a single token carrying its text; a table carries no
      token (its rows are child blocks, which are not listed). */
  function Stored(b: Block): Node {
    var none := Payload(None, None, None);
    var rich := (t: string) => Payload(Some([Token(Some(t))]), None, None);
    match b
    case Heading(level, text) => Node(None, "heading_" + Decimal(level), rich(text), Fetched([]))
    case Bullet(text) => Node(None, "bulleted_list_item", rich(text), Fetched([]))
    case Paragraph(text) => Node(None, "paragraph", rich(text), Fetched([]))
    case Table(_, _, _, _) => Node(None, "table", none, Fetched([]))
  }

  function StoredAll(bs: seq<Block>): seq<Node> {
    seq(|bs|, i requires 0 <= i < |bs| => Stored(bs[i]))
  }

  /** The text `get_page_text` reads back for a stored block: a heading
      with its hashes, a bullet with `- `, a paragraph as it is, a table
      not at all. */
  function ReadBack(b: Block): seq<string> {
    match b
    case Heading(level, text) => [HeadingPart(level, text)]
    case Bullet(text) => ["- " + text]
    case Paragraph(text) => [text]
    case Table(_, _, _, _) => []
  }

  lemma StoredReadsBack(b: Block, subText: Result<string>)
    ensures NodeParts(Stored(b), subText) == Ok(ReadBack(b))
  {
    var node := Stored(b);
    match b
    case Heading(level, text) =>
      assert RichTokens(node.payload)[1..] == [];
      assert text + [] == text;
      HeadingRenders(node, level, subText);
    case Bullet(text) =>
      assert node.kind[0] != "heading_"[0];
      assert RichTokens(node.payload)[1..] == [];
      assert text + [] == text;
      assert PlainStrict(RichTokens(node.payload)) == Ok(text);
      assert node.kind == "bulleted_list_item";
      assert OwnParts(node) == Ok(["-" + " " + text]);
      assert "-" + " " + text == "- " + text;
      assert SubParts(node, subText) == Ok([]);
      assert ["- " + text] + [] == ["- " + text];
    case Paragraph(text) =>
      assert node.kind[0] != "heading_"[0];
      assert AnyTokens(node.payload)[1..] == [];
      assert PlainLenient(AnyTokens(node.payload)) == text + [];
      assert node.kind != "bulleted_list_item" && node.kind != "numbered_list_item";
      assert OwnParts(node) == Ok([text + []]);
      assert node.kind != "child_page";
      assert SubParts(node, subText) == Ok([]);
      assert text + [] == text;
      assert [text] + [] == [text];
    case Table(_, _, _, _) =>
      assert node.kind[0] != "heading_"[0];
      assert node.kind != "bulleted_list_item" && node.kind != "numbered_list_item";
      assert OwnParts(node) == Ok([]);
      assert node.kind != "child_page";
      var none: seq<string> := [];
      assert none + none == none;
  }

  /** A line that reads back unchanged after being written by
      `append_content` and read by `get_page_text`. */
  predicate Canonical(line: string) {
    !IsTableLine(line) && !IsBlank(line) && LineBlock(line).Some? &&
    ReadBack(LineBlock(line).value) == [line]
  }

  /** The non-blank lines, in order. */
  function NonBlank(lines: seq<string>): seq<string> {
    if lines == [] then []
    else
      var last := lines[|lines| - 1];
      NonBlank(lines[..|lines| - 1]) + (if IsBlank(last) then [] else [last])
  }

  /** Storing blocks one list after another stores them in that order. */
  lemma StoredAllConcat(xs: seq<Block>, ys: seq<Block>)
    ensures StoredAll(xs + ys) == StoredAll(xs) + StoredAll(ys)
  {
  }

  /** A line that is not a table line adds its own blocks after the others. */
  lemma ParseSnocOther(init: seq<string>, last: string)
    requires !IsTableLine(last)
    ensures Parse(init + [last]) == Parse(init) + OptionBlocks(LineBlock(last))
  {
    ParseAppend(init, [last]);
    ParseOtherLine(last);
  }

  /** Reading the stored blocks of one more canonical or blank line adds
      that line, or nothing for a blank one. */
  lemma ReadOneMore(bs: seq<Block>, before: seq<string>, last: string)
    requires Canonical(last) || IsBlank(last)
    requires AllParts(StoredAll(bs)) == Ok(before)
    ensures AllParts(StoredAll(bs + OptionBlocks(LineBlock(last)))) ==
            Ok(before + if IsBlank(last) then [] else [last])
  {
    var own := OptionBlocks(LineBlock(last));
    StoredAllConcat(bs, own);
    if IsBlank(last) {
      BlankLineEmitsNothing(last);
      ParseOtherLine(last);
      assert own == [];
      assert StoredAll(bs) + StoredAll(own) == StoredAll(bs);
      assert before + [] == before;
    } else {
      var b := LineBlock(last).value;
      assert StoredAll(own) == [Stored(b)];
      PartsSnoc(StoredAll(bs), Stored(b));
      StoredReadsBack(b, PageText(Stored(b).sub));
    }
  }

  /** Write, then read: a text made of canonical and blank lines comes back
      as its non-blank lines, one part each. */
  lemma {:induction false} WriteThenReadParts(lines: seq<string>)
    requires forall i :: 0 <= i < |lines| ==> Canonical(lines[i]) || IsBlank(lines[i])
    ensures AllParts(StoredAll(Parse(lines))) == Ok(NonBlank(lines))
    decreases |lines|
  {
    if lines != [] {
      var init := lines[..|lines| - 1];
      var last := lines[|lines| - 1];
      assert lines == init + [last];
      WriteThenReadParts(init);
      assert !IsTableLine(last) by {
        if IsBlank(last) {
          BlankLineEmitsNothing(last);
        }
      }
      ParseSnocOther(init, last);
      ReadOneMore(Parse(init), NonBlank(init), last);
    }
  }

  /** Write, then read, as whole texts: the page text of the stored blocks is
      the non-blank lines joined by blank lines. */
  lemma WriteThenRead(lines: seq<string>)
    requires forall i :: 0 <= i < |lines| ==> Canonical(lines[i]) || IsBlank(lines[i])
    ensures PageText(Fetched(StoredAll(Parse(lines)))) == Ok(Join(NonBlank(lines), "\n\n"))
  {
    WriteThenReadParts(lines);
  }

  /** Headings written as `k` hashes, a space and stripped text are canonical. */
  lemma CanonicalHeading(k: nat, t: string)
    requires 1 <= k && t != [] && IsStripped(t) && '|' !in t
    ensures Canonical(Repeat('#', k) + " " + t)
  {
    var line := Repeat('#', k) + " " + t;
    assert line == Repeat('#', k) + (" " + t);
    HeadingLineBlock(k, " " + t);
    StripPadded(" ", t, []);
    assert " " + t + [] == " " + t;
    assert !IsBlank(line) by {
      assert !IsSpace(line[0]);
    }
  }

  /** Bullets written as `- ` and stripped text are canonical. */
  lemma CanonicalBullet(t: string)
    requires t != [] && IsStripped(t) && '|' !in t
    ensures Canonical("- " + t)
  {
    var line := "- " + t;
    assert line == ['-', ' '] + t;
    BulletLineBlock('-', t);
    assert [] + t + [] == t;
    StripPadded([], t, []);
    assert !IsBlank(line) by {
      assert !IsSpace(line[0]);
    }
  }

  /** Any other non-blank line without `|` is canonical: it is stored and
      read back as it is. */
  lemma CanonicalParagraph(line: string)
    requires !IsTableLine(line) && !IsBlank(line)
    requires !StartsWith(line, "#") && !StartsWith(line, "- ") && !StartsWith(line, "* ")
    ensures Canonical(line)
  {
    StripEmptyIffBlank(line);
  }
}
