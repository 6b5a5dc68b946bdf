/**
 * Rendering of Notion blocks to Markdown-like text (extract_documents_from_blocks).
 *
 * A Notion block is a JSON object whose `type` field names the key holding its
 * payload. The type is read without a default, so a block may have none
 * (`Other(None)`). Every other lookup falls back to a default when its key is
 * missing; a missing key is modelled as `None` and takes the code's default.
 */
module DataPuller {
  import opened Results
  import opened Strings

  /**
   * A rich-text array: one entry per run, holding the run's `text.content`, or
   * `None` when the run has no `text` object or that object has no `content`
   * (a mention or an equation, for instance). A missing `rich_text` key is the
   * empty array.
   */
  type RichText = seq<Option<string>>

  /** The level N of a `heading_N` block. */
  type HeadingLevel = n: int | 1 <= n <= 3 witness 1

  datatype Block =
    | Paragraph(richText: RichText)
    | Heading(level: HeadingLevel, richText: RichText)
    | NumberedListItem(richText: RichText)
    | BulletedListItem(richText: RichText)
    | Quote(richText: RichText)
    | Code(richText: RichText, language: Option<string>)
    | ChildPage(title: Option<string>)
    | Callout(richText: RichText, emoji: Option<string>)
    | Bookmark(url: Option<string>)
    | Table
    | TableRow(cells: seq<RichText>)
      /** Any other `type`, or none at all. */
    | Other(tag: Option<string>)

  /** The `type` field of a block. */
  function TypeTag(b: Block): Option<string>
  {
    match b
    case Paragraph(_) => Some("paragraph")
    case Heading(level, _) => Some("heading_" + DecimalString(level))
    case NumberedListItem(_) => Some("numbered_list_item")
    case BulletedListItem(_) => Some("bulleted_list_item")
    case Quote(_) => Some("quote")
    case Code(_, _) => Some("code")
    case ChildPage(_) => Some("child_page")
    case Callout(_, _) => Some("callout")
    case Bookmark(_) => Some("bookmark")
    case Table => Some("table")
    case TableRow(_) => Some("table_row")
    case Other(tag) => tag
  }

  /** The block types the renderer has a branch for. */
  const RecognisedTags: set<string> :=
    {"paragraph", "heading_1", "heading_2", "heading_3", "numbered_list_item",
     "bulleted_list_item", "quote", "code", "child_page", "callout", "bookmark",
     "table", "table_row"}

  predicate Recognised(tag: Option<string>)
  {
    tag.Some? && tag.value in RecognisedTags
  }

  /** A block read from JSON: the catch-all only holds types with no branch. */
  predicate WellFormed(b: Block)
  {
    b.Other? ==> !Recognised(b.tag)
  }

  /** The type tag decides the shape: recognised tags are exactly the non-catch-all blocks. */
  lemma RecognisedIffNotOther(b: Block)
    requires WellFormed(b)
    ensures Recognised(TypeTag(b)) <==> !b.Other?
  {
    if b.Heading? {
      var tag := "heading_" + DecimalString(b.level);
      if b.level == 1 {
        assert tag == "heading_1";
      } else if b.level == 2 {
        assert tag == "heading_2";
      } else {
        assert tag == "heading_3";
      }
    }
  }

  /** A run's content, or the empty string when the run has no text or no content. */
  function RunContent(run: Option<string>): string
  {
    run.GetOr("")
  }

  /** `''.join(...)` over the contents of the runs. */
  function PlainText(rt: RichText): (text: string)
    ensures text == "" <==> forall i :: 0 <= i < |rt| ==> RunContent(rt[i]) == ""
  {
    if rt == [] then "" else RunContent(rt[0]) + PlainText(rt[1..])
  }

  /** A rich-text block's single line `marker + text`, or no line when the text is empty. */
  function Prefixed(marker: string, text: string): seq<string>
  {
    if text == "" then [] else [marker + text]
  }

  /** The fenced code block; a missing `language` key reads as `plaintext`. */
  function CodeFence(language: Option<string>, code: string): string
  {
    "```" + language.GetOr("plaintext") + "\n" + code + "\n```"
  }

  /** The two fixed lines a `table` block stands for; its rows are separate blocks. */
  const TablePlaceholder: seq<string> := ["| Table | Placeholder |", "|-------|-------------|"]

  /** The concatenated text of each cell of a table row, in order. */
  function CellTexts(cells: seq<RichText>): (texts: seq<string>)
    ensures |texts| == |cells|
  {
    seq(|cells|, i requires 0 <= i < |cells| => PlainText(cells[i]))
  }

  function RowLine(cells: seq<RichText>): string
  {
    "| " + Join(" | ", CellTexts(cells)) + " |"
  }

  /** The lines one block adds to the output, in order. */
  function RenderBlock(b: Block): (lines: seq<string>)
    ensures |lines| <= 2 && (|lines| == 2 <==> b.Table?)
    ensures forall i :: 0 <= i < |lines| ==> lines[i] != ""
  {
    match b
    case Paragraph(rt) => Prefixed("", PlainText(rt))
    case Heading(level, rt) => Prefixed(Repeat('#', level) + " ", PlainText(rt))
    case NumberedListItem(rt) => Prefixed("1. ", PlainText(rt))
    case BulletedListItem(rt) => Prefixed("- ", PlainText(rt))
    case Quote(rt) => Prefixed("> ", PlainText(rt))
    case Code(rt, language) =>
      var code := PlainText(rt);
      if code == "" then [] else [CodeFence(language, code)]
    case ChildPage(title) => ["## Child Page: " + title.GetOr("")]
    case Callout(rt, emoji) => ["> " + emoji.GetOr("") + " " + PlainText(rt)]
    case Bookmark(url) => ["[Bookmark](" + url.GetOr("") + ")"]
    case Table => TablePlaceholder
    case TableRow(cells) => [RowLine(cells)]
    case Other(_) => []
  }

  /** The list `markdown_content` holds after the loop over `blocks`. */
  function Lines(blocks: seq<Block>): seq<string>
  {
    if blocks == [] then [] else RenderBlock(blocks[0]) + Lines(blocks[1..])
  }

  /** The text `extract_documents_from_blocks` returns. */
  function Markdown(blocks: seq<Block>): string
  {
    Join("\n", Lines(blocks))
  }

  /**
   * The serialiser's loop: each block appends its lines to `markdown_content`,
   * which is then joined with newlines.
   */
  method ExtractDocumentsFromBlocks(blocks: seq<Block>) returns (markdown: string)
    ensures markdown == Markdown(blocks)
  {
    var content: seq<string> := [];
    for i := 0 to |blocks|
      invariant content == Lines(blocks[..i])
    {
      var block := blocks[i];
      content := AppendBlock(content, block);
      LinesConcat(blocks[..i], [block]);
      assert [block][1..] == [];
      assert Lines([block]) == RenderBlock(block);
      assert blocks[..i + 1] == blocks[..i] + [block];
    }
    assert blocks[..|blocks|] == blocks;
    markdown := Join("\n", content);
  }

  /** One pass of the loop body: the branch for the block's type appends its lines. */
  method AppendBlock(content: seq<string>, block: Block) returns (lines: seq<string>)
    ensures lines == content + RenderBlock(block)
  {
    lines := content;
    match block {
      case Paragraph(rt) =>
        var text := PlainText(rt);
        if text != "" { lines := lines + [text]; }
        assert "" + text == text;
      case Heading(level, rt) =>
        var text := PlainText(rt);
        if text != "" { lines := lines + [Repeat('#', level) + " " + text]; }
      case NumberedListItem(rt) =>
        var text := PlainText(rt);
        if text != "" { lines := lines + ["1. " + text]; }
      case BulletedListItem(rt) =>
        var text := PlainText(rt);
        if text != "" { lines := lines + ["- " + text]; }
      case Quote(rt) =>
        var text := PlainText(rt);
        if text != "" { lines := lines + ["> " + text]; }
      case Code(rt, language) =>
        var code := PlainText(rt);
        var lang := language.GetOr("plaintext");
        if code != "" { lines := lines + ["```" + lang + "\n" + code + "\n```"]; }
      case ChildPage(title) =>
        lines := lines + ["## Child Page: " + title.GetOr("")];
      case Callout(rt, emoji) =>
        var text := PlainText(rt);
        lines := lines + ["> " + emoji.GetOr("") + " " + text];
      case Bookmark(url) =>
        lines := lines + ["[Bookmark](" + url.GetOr("") + ")"];
      case Table =>
        lines := lines + ["| Table | Placeholder |"];
        lines := lines + ["|-------|-------------|"];
      case TableRow(cells) =>
        var row := Join(" | ", CellTexts(cells));
        lines := lines + ["| " + row + " |"];
      case Other(_) =>
    }
  }

  /** Rendering a concatenation renders each part in turn. */
  lemma {:induction false} LinesConcat(a: seq<Block>, b: seq<Block>)
    ensures Lines(a + b) == Lines(a) + Lines(b)
  {
    if a == [] {
      assert a + b == b;
    } else {
      assert (a + b)[0] == a[0] && (a + b)[1..] == a[1..] + b;
      LinesConcat(a[1..], b);
    }
  }

  /** The output for `a + b` is the output for `a`, a newline, then the output for `b`. */
  lemma MarkdownConcat(a: seq<Block>, b: seq<Block>)
    ensures Markdown(a + b) ==
      if Lines(a) == [] then Markdown(b)
      else if Lines(b) == [] then Markdown(a)
      else Markdown(a) + "\n" + Markdown(b)
  {
    LinesConcat(a, b);
    if Lines(a) == [] {
      assert Lines(a) + Lines(b) == Lines(b);
    } else if Lines(b) == [] {
      assert Lines(a) + Lines(b) == Lines(a);
    } else {
      JoinConcat("\n", Lines(a), Lines(b));
    }
  }

  /** Every line is non-empty, so the output is empty exactly when no block renders anything. */
  lemma {:induction false} MarkdownEmptyIff(blocks: seq<Block>)
    ensures Markdown(blocks) == "" <==> forall i :: 0 <= i < |blocks| ==> RenderBlock(blocks[i]) == []
  {
    LinesEmptyIff(blocks);
    LinesNonEmpty(blocks);
    JoinIsEmpty("\n", Lines(blocks));
  }

  lemma {:induction false} LinesEmptyIff(blocks: seq<Block>)
    ensures Lines(blocks) == [] <==> forall i :: 0 <= i < |blocks| ==> RenderBlock(blocks[i]) == []
  {
    if blocks != [] {
      LinesEmptyIff(blocks[1..]);
      assert forall i :: 1 <= i < |blocks| ==> blocks[i] == blocks[1..][i - 1];
    }
  }

  /** No rendered line is empty. */
  lemma {:induction false} LinesNonEmpty(blocks: seq<Block>)
    ensures forall k :: 0 <= k < |Lines(blocks)| ==> Lines(blocks)[k] != ""
  {
    if blocks != [] {
      LinesNonEmpty(blocks[1..]);
      var r, t := RenderBlock(blocks[0]), Lines(blocks[1..]);
      assert forall k :: 0 <= k < |r + t| ==> (r + t)[k] == if k < |r| then r[k] else t[k - |r|];
    }
  }

  /** A block that renders nothing does not change the output wherever it stands. */
  lemma SilentBlockDropped(a: seq<Block>, x: Block, b: seq<Block>)
    requires RenderBlock(x) == []
    ensures Markdown(a + [x] + b) == Markdown(a + b)
  {
    var ax := a + [x];
    LinesConcat(ax, b);
    LinesConcat(a, [x]);
    LinesConcat(a, b);
    assert [x][1..] == [];
    assert Lines([x]) == [];
    assert Lines(ax) == Lines(a);
  }

  /** A block whose type has no branch renders nothing. */
  lemma UnrecognisedRendersNothing(b: Block)
    requires WellFormed(b) && !Recognised(TypeTag(b))
    ensures RenderBlock(b) == []
  {
    RecognisedIffNotOther(b);
  }

  /** The blocks of a list whose type has a rendering branch, in order. */
  function RecognisedBlocks(blocks: seq<Block>): (known: seq<Block>)
    ensures |known| <= |blocks|
    ensures forall i :: 0 <= i < |known| ==> Recognised(TypeTag(known[i]))
  {
    if blocks == [] then []
    else if Recognised(TypeTag(blocks[0])) then [blocks[0]] + RecognisedBlocks(blocks[1..])
    else RecognisedBlocks(blocks[1..])
  }

  /** Blocks of unrecognised types contribute nothing: dropping them all changes nothing. */
  lemma {:induction false} MarkdownIgnoresUnrecognised(blocks: seq<Block>)
    requires forall i :: 0 <= i < |blocks| ==> WellFormed(blocks[i])
    ensures Markdown(blocks) == Markdown(RecognisedBlocks(blocks))
  {
    LinesIgnoreUnrecognised(blocks);
  }

  lemma {:induction false} LinesIgnoreUnrecognised(blocks: seq<Block>)
    requires forall i :: 0 <= i < |blocks| ==> WellFormed(blocks[i])
    ensures Lines(blocks) == Lines(RecognisedBlocks(blocks))
  {
    if blocks != [] {
      assert forall i :: 0 <= i < |blocks[1..]| ==> blocks[1..][i] == blocks[i + 1];
      LinesIgnoreUnrecognised(blocks[1..]);
      var known := RecognisedBlocks(blocks);
      if Recognised(TypeTag(blocks[0])) {
        assert known[0] == blocks[0] && known[1..] == RecognisedBlocks(blocks[1..]);
      } else {
        UnrecognisedRendersNothing(blocks[0]);
      }
    }
  }

  /** The blocks whose only content is their rich text (plus a code block's language). */
  predicate IsTextBlock(b: Block)
  {
    b.Paragraph? || b.Heading? || b.NumberedListItem? || b.BulletedListItem? || b.Quote? || b.Code?
  }

  /**
   * A text block contributes nothing exactly when every run of its rich text is
   * empty or has no content, and otherwise exactly one line.
   */
  lemma TextBlockDroppedIffEmpty(b: Block)
    requires IsTextBlock(b)
    ensures RenderBlock(b) == [] <==> forall i :: 0 <= i < |b.richText| ==> RunContent(b.richText[i]) == ""
    ensures RenderBlock(b) != [] ==> |RenderBlock(b)| == 1
  {
  }

  /** `heading_N` renders as N '#' characters, one space, then the text. */
  lemma HeadingShape(level: HeadingLevel, rt: RichText)
    requires PlainText(rt) != ""
    ensures var lines := RenderBlock(Heading(level, rt));
      && |lines| == 1
      && |lines[0]| == level + 1 + |PlainText(rt)|
      && (forall k :: 0 <= k < level ==> lines[0][k] == '#')
      && lines[0][level] == ' '
      && lines[0][level + 1..] == PlainText(rt)
  {
  }

  /** The level a heading renders with is the number after the underscore of its type tag. */
  lemma HeadingLevelFromTag(level: HeadingLevel, rt: RichText)
    ensures var parts := Split(TypeTag(Heading(level, rt)).value, '_');
      && |parts| == 2
      && parts[0] == "heading"
      && |parts[1]| >= 1 && IsDigits(parts[1])
      && ParseDecimal(parts[1]) == level
  {
    var digits := DecimalString(level);
    assert |digits| == 1 by {
      if level >= 10 { assert false; }
    }
    assert digits[0] != '_';
    SplitPrefix("heading", [ '_' ] + digits, '_');
    assert Split(digits, '_') == [digits] by {
      SplitPrefix(digits, "", '_');
      assert digits + "" == digits;
    }
    assert Split([ '_' ] + digits, '_') == [""] + Split(digits, '_') by {
      assert ([ '_' ] + digits)[1..] == digits;
    }
    assert "heading_" + digits == "heading" + ([ '_' ] + digits);
    assert parseable: IsDigits(digits);
    ParseDecimalString(level);
  }

  /** The list and quote markers: `1. `, `- ` and `> ` followed by the text. */
  lemma MarkerShapes(rt: RichText)
    requires PlainText(rt) != ""
    ensures RenderBlock(NumberedListItem(rt)) == ["1. " + PlainText(rt)]
    ensures RenderBlock(BulletedListItem(rt)) == ["- " + PlainText(rt)]
    ensures RenderBlock(Quote(rt)) == ["> " + PlainText(rt)]
    ensures RenderBlock(Paragraph(rt)) == [PlainText(rt)]
  {
    assert "" + PlainText(rt) == PlainText(rt);
  }

  /** A code block is fenced with its language, which defaults to `plaintext`. */
  lemma CodeShape(rt: RichText, language: Option<string>)
    requires PlainText(rt) != ""
    ensures var lang := if language.Some? then language.value else "plaintext";
      RenderBlock(Code(rt, language)) == ["```" + lang + "\n" + PlainText(rt) + "\n```"]
    ensures language.None? ==>
      RenderBlock(Code(rt, language))[0][..13] == "```plaintext\n"
  {
  }

  /** Child pages, callouts, bookmarks and table rows always give one line, tables two fixed ones. */
  lemma FixedLineCounts(b: Block)
    ensures (b.ChildPage? || b.Callout? || b.Bookmark? || b.TableRow?) ==> |RenderBlock(b)| == 1
    ensures b.ChildPage? ==> RenderBlock(b) == ["## Child Page: " + (if b.title.Some? then b.title.value else "")]
    ensures b.Callout? ==>
      RenderBlock(b) == ["> " + (if b.emoji.Some? then b.emoji.value else "") + " " + PlainText(b.richText)]
    ensures b.Bookmark? ==> RenderBlock(b) == ["[Bookmark](" + (if b.url.Some? then b.url.value else "") + ")"]
    ensures b.Table? ==> RenderBlock(b) == ["| Table | Placeholder |", "|-------|-------------|"]
  {
  }

  /** A table row is its cell texts between `| ` and ` |`, separated by ` | `, in cell order. */
  lemma TableRowShape(cells: seq<RichText>)
    ensures |cells| == 0 ==> RenderBlock(TableRow(cells)) == ["|  |"]
    ensures |cells| == 1 ==> RenderBlock(TableRow(cells)) == ["| " + PlainText(cells[0]) + " |"]
    ensures |cells| >= 2 ==>
      RenderBlock(TableRow(cells)) == ["| " + PlainText(cells[0]) + " | " + Join(" | ", CellTexts(cells[1..])) + " |"]
  {
    var texts := CellTexts(cells);
    if |cells| == 0 {
      assert "| " + Join(" | ", texts) + " |" == "|  |";
    } else if |cells| >= 2 {
      assert texts[1..] == CellTexts(cells[1..]);
      assert Join(" | ", texts) == texts[0] + " | " + Join(" | ", texts[1..]);
      assert texts[0] == PlainText(cells[0]);
      assert RowLine(cells) == "| " + (texts[0] + " | " + Join(" | ", texts[1..])) + " |";
      assert RowLine(cells) == "| " + PlainText(cells[0]) + " | " + Join(" | ", CellTexts(cells[1..])) + " |";
      assert RenderBlock(TableRow(cells)) == [RowLine(cells)];
    }
  }

  /**
   * When no rendered line holds a newline (so no code block contributes), the
   * output splits back into exactly the rendered lines.
   */
  lemma MarkdownSplitsIntoLines(blocks: seq<Block>)
    requires Lines(blocks) != []
    requires forall k :: 0 <= k < |Lines(blocks)| ==> '\n' !in Lines(blocks)[k]
    ensures Split(Markdown(blocks), '\n') == Lines(blocks)
  {
    SplitJoin(Lines(blocks), '\n');
    assert "\n" == ['\n'];
  }
}
