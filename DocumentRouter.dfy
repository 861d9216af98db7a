/**
 * `routers/document.py`: rendering Markdown blocks into a Word document, the outline export
 * (table of contents, then one section per chapter) and the file-type gate of the upload
 * endpoint. Documents are traces of python-docx calls (module DocTrace). The analysis stream
 * is `Sse.ChatStreamResponse`.
 */
module DocumentRouter {
  import opened Wrappers
  import opened Strings
  import opened Outline
  import opened Markdown
  import opened DocTrace
  import opened Paths

  // ---------------------------------------------------------------------------------------------
  // add_markdown_runs

  function RunEvent(r: Run): Event
  {
    AddRun(r.text, r.bold, r.italic)
  }

  function RunEvents(runs: seq<Run>): (es: seq<Event>)
    ensures |es| == |runs|
  {
    if runs == [] then [] else RunEvents(runs[..|runs| - 1]) + [RunEvent(runs[|runs| - 1])]
  }

  lemma RunEventsSnoc(runs: seq<Run>, r: Run)
    ensures RunEvents(runs + [r]) == RunEvents(runs) + [RunEvent(r)]
  {
    assert (runs + [r])[..|runs|] == runs;
  }

  /** The events of the runs of the first `k + 1` segments extend those of the first `k`. */
  lemma RunsOfSnoc(parts: seq<string>, k: nat)
    requires k < |parts|
    ensures RunEvents(RunsOf(parts[..k + 1]))
      == RunEvents(RunsOf(parts[..k])) + SegmentEvents(parts[k])
  {
    var init := parts[..k + 1];
    assert init[..|init| - 1] == parts[..k] && init[|init| - 1] == parts[k];
    assert RunsOf(init) == RunsOf(parts[..k]) + (if parts[k] == [] then [] else [RunOf(parts[k])]);
    if parts[k] != [] {
      RunEventsSnoc(RunsOf(parts[..k]), RunOf(parts[k]));
    } else {
      assert RunsOf(init) == RunsOf(parts[..k]);
    }
  }

  /** `add_markdown_runs`: one run per non-empty segment of the text, in order. */
  method AddMarkdownRuns(doc: Document, text: string)
    modifies doc
    ensures doc.events == old(doc.events) + RunEvents(Runs(text))
  {
    AddSegmentRuns(doc, Segments(text));
  }

  /** The loop of `add_markdown_runs` over the segments. */
  method AddSegmentRuns(doc: Document, parts: seq<string>)
    modifies doc
    ensures doc.events == old(doc.events) + RunEvents(RunsOf(parts))
  {
    var k := 0;
    while k < |parts|
      invariant 0 <= k <= |parts|
      invariant doc.events == old(doc.events) + RunEvents(RunsOf(parts[..k]))
    {
      RunsOfSnoc(parts, k);
      AddSegmentRun(doc, parts[k]);
      k := k + 1;
    }
    assert parts[..k] == parts;
  }

  /** The run of one segment; an empty segment adds nothing. */
  function SegmentEvents(part: string): seq<Event>
  {
    if part == [] then [] else [RunEvent(RunOf(part))]
  }

  method AddSegmentRun(doc: Document, part: string)
    modifies doc
    ensures doc.events == old(doc.events) + SegmentEvents(part)
  {
    if part != [] {
      var r := RunOf(part);
      doc.Emit(AddRun(r.text, r.bold, r.italic));
    }
  }

  // ---------------------------------------------------------------------------------------------
  // render_markdown_blocks

  /** The run written before a list item's text. */
  function ItemPrefix(item: Item): string
  {
    if item.Unordered? then "• " else item.number + ". "
  }

  /**
   * An unordered item is marked with a bullet; an ordered one keeps its number and dot from the
   * line, with the blanks after the dot turned into one space.
   */
  lemma ItemPrefixFromLine(s: string)
    requires IsListLine(s)
    ensures ItemOf(s).Unordered? ==> ItemPrefix(ItemOf(s)) == "• " && (s[0] == '-' || s[0] == '*')
    ensures ItemOf(s).Ordered? ==>
      var n := |ItemOf(s).number|;
      n >= 1 && ItemPrefix(ItemOf(s)) == s[..n + 1] + " " && IsSpace(s[n + 1])
  {
    ItemOfShape(s);
    if ItemOf(s).Ordered? {
      var n := |ItemOf(s).number|;
      assert s[..n + 1] == s[..n] + [s[n]];
    }
  }

  function ItemEvents(item: Item): seq<Event>
  {
    [AddParagraph(ListIndent), AddRun(ItemPrefix(item), false, false)] + RunEvents(Runs(item.text))
  }

  function ItemsEvents(items: seq<Item>): seq<Event>
  {
    if items == [] then [] else ItemsEvents(items[..|items| - 1]) + ItemEvents(items[|items| - 1])
  }

  function BlockEvents(b: Block): seq<Event>
  {
    match b
    case ListBlock(items) => ItemsEvents(items)
    case Heading(level, text) => [AddHeading(text, level)]
    case Paragraph(text) => [AddParagraph(FirstLine)] + RunEvents(Runs(text))
  }

  /** The calls `render_markdown_blocks` makes for a list of blocks. */
  function RenderTrace(blocks: seq<Block>): seq<Event>
  {
    if blocks == [] then [] else RenderTrace(blocks[..|blocks| - 1]) + BlockEvents(blocks[|blocks| - 1])
  }

  /** Rendering never breaks a page: page breaks come only from the outline walk. */
  lemma {:induction false} RenderTraceHasNoPageBreak(blocks: seq<Block>)
    ensures forall k :: 0 <= k < |RenderTrace(blocks)| ==> !RenderTrace(blocks)[k].AddPageBreak?
  {
    if blocks != [] {
      RenderTraceHasNoPageBreak(blocks[..|blocks| - 1]);
      var b := blocks[|blocks| - 1];
      BlockEventsHaveNoPageBreak(b);
    }
  }

  lemma BlockEventsHaveNoPageBreak(b: Block)
    ensures forall k :: 0 <= k < |BlockEvents(b)| ==> !BlockEvents(b)[k].AddPageBreak?
  {
    match b
    case ListBlock(items) => ItemsEventsHaveNoPageBreak(items);
    case Heading(_, _) =>
    case Paragraph(text) => RunEventsAreRuns(Runs(text));
  }

  lemma {:induction false} ItemsEventsHaveNoPageBreak(items: seq<Item>)
    ensures forall k :: 0 <= k < |ItemsEvents(items)| ==> !ItemsEvents(items)[k].AddPageBreak?
  {
    if items != [] {
      ItemsEventsHaveNoPageBreak(items[..|items| - 1]);
      RunEventsAreRuns(Runs(items[|items| - 1].text));
    }
  }

  /** One run event per run, in order, carrying that run's text and emphasis. */
  lemma {:induction false} RunEventsAreRuns(runs: seq<Run>)
    ensures forall k :: 0 <= k < |runs| ==>
      RunEvents(runs)[k] == AddRun(runs[k].text, runs[k].bold, runs[k].italic)
    ensures forall k :: 0 <= k < |RunEvents(runs)| ==> RunEvents(runs)[k].AddRun?
  {
    if runs != [] {
      RunEventsAreRuns(runs[..|runs| - 1]);
    }
  }

  lemma RenderTraceSnoc(blocks: seq<Block>, i: nat)
    requires i < |blocks|
    ensures RenderTrace(blocks[..i + 1]) == RenderTrace(blocks[..i]) + BlockEvents(blocks[i])
  {
    assert blocks[..i + 1][..i] == blocks[..i];
  }

  lemma ItemsEventsSnoc(items: seq<Item>, j: nat)
    requires j < |items|
    ensures ItemsEvents(items[..j + 1]) == ItemsEvents(items[..j]) + ItemEvents(items[j])
  {
    assert items[..j + 1][..j] == items[..j];
  }

  /** One list item: an indented paragraph, its marker run, then the runs of its text. */
  method RenderItem(doc: Document, item: Item)
    modifies doc
    ensures doc.events == old(doc.events) + ItemEvents(item)
  {
    var head := [AddParagraph(ListIndent), AddRun(ItemPrefix(item), false, false)];
    doc.Emit(head[0]);
    doc.Emit(head[1]);
    assert doc.events == old(doc.events) + head;
    ghost var mid := doc.events;
    AddMarkdownRuns(doc, item.text);
    Assoc2(old(doc.events), head, RunEvents(Runs(item.text)));
  }

  /** The items of a list block, one after the other. */
  method RenderList(doc: Document, items: seq<Item>)
    modifies doc
    ensures doc.events == old(doc.events) + ItemsEvents(items)
  {
    var j := 0;
    while j < |items|
      invariant 0 <= j <= |items|
      invariant doc.events == old(doc.events) + ItemsEvents(items[..j])
    {
      ghost var done := doc.events;
      RenderItem(doc, items[j]);
      assert doc.events == done + ItemEvents(items[j]);
      ItemsEventsSnoc(items, j);
      Assoc2(old(doc.events), ItemsEvents(items[..j]), ItemEvents(items[j]));
      j := j + 1;
    }
    assert items[..j] == items;
  }

  method RenderBlock(doc: Document, block: Block)
    modifies doc
    ensures doc.events == old(doc.events) + BlockEvents(block)
  {
    match block {
      case ListBlock(items) =>
        RenderList(doc, items);
      case Heading(level, text) =>
        doc.Emit(AddHeading(text, level));
      case Paragraph(text) =>
        doc.Emit(AddParagraph(FirstLine));
        AddMarkdownRuns(doc, text);
        Assoc2(old(doc.events), [AddParagraph(FirstLine)], RunEvents(Runs(text)));
    }
  }

  /** `render_markdown_blocks`: per block, the list paragraphs, the heading or the paragraph. */
  method RenderMarkdownBlocks(doc: Document, blocks: seq<Block>)
    modifies doc
    ensures doc.events == old(doc.events) + RenderTrace(blocks)
  {
    var i := 0;
    while i < |blocks|
      invariant 0 <= i <= |blocks|
      invariant doc.events == old(doc.events) + RenderTrace(blocks[..i])
    {
      ghost var done := doc.events;
      RenderBlock(doc, blocks[i]);
      assert doc.events == done + BlockEvents(blocks[i]);
      RenderTraceSnoc(blocks, i);
      Assoc2(old(doc.events), RenderTrace(blocks[..i]), BlockEvents(blocks[i]));
      i := i + 1;
    }
    assert blocks[..i] == blocks;
  }

  // ---------------------------------------------------------------------------------------------
  // export_word: the table of contents and the chapter sections

  /** `f"{item.id} {item.title}"`. */
  function Label(n: Node): string
  {
    n.id + " " + n.title
  }

  /** The TOC line of one chapter: an indented paragraph with its label, bold at the top level. */
  function TocEntry(n: Node, level: nat): seq<Event>
    requires level >= 1
  {
    [AddParagraph(TocIndent(level - 1)), AddRun(Label(n), level == 1, false)]
  }

  /** What `add_toc_item(items, level)` adds. */
  function TocTrace(items: seq<Node>, level: nat): seq<Event>
    requires level >= 1
  {
    if items == [] then []
    else
      TocEntry(items[0], level)
        + (match items[0].children
           case Absent => []
           case Present(kids) => TocTrace(kids, level + 1))
        + TocTrace(items[1..], level)
  }

  lemma {:induction false} TocTraceAppend(a: seq<Node>, b: seq<Node>, level: nat)
    requires level >= 1
    ensures TocTrace(a + b, level) == TocTrace(a, level) + TocTrace(b, level)
  {
    if a != [] {
      var ab := a + b;
      assert ab[0] == a[0] && ab[1..] == a[1..] + b;
      TocTraceAppend(a[1..], b, level);
      TocTraceCons(ab, level);
      TocTraceCons(a, level);
    } else {
      assert a + b == b;
    }
  }

  lemma TocTraceCons(items: seq<Node>, level: nat)
    requires items != [] && level >= 1
    ensures TocTrace(items, level)
      == TocEntry(items[0], level) + TocTrace(Kids(items[0]), level + 1) + TocTrace(items[1..], level)
  {
  }

  lemma TocTraceSnoc(items: seq<Node>, k: nat, level: nat)
    requires k < |items| && level >= 1
    ensures TocTrace(items[..k + 1], level)
      == TocTrace(items[..k], level) + TocEntry(items[k], level) + TocTrace(Kids(items[k]), level + 1)
  {
    var item := items[k];
    assert TocTrace([item], level) == TocEntry(item, level) + TocTrace(Kids(item), level + 1) + TocTrace([], level);
    assert items[..k + 1] == items[..k] + [item];
    TocTraceAppend(items[..k], [item], level);
  }

  /** `add_toc_item`: a TOC line per chapter, each followed by the lines of its children. */
  method AddTocItem(doc: Document, items: seq<Node>, level: nat)
    requires level >= 1
    modifies doc
    ensures doc.events == old(doc.events) + TocTrace(items, level)
    decreases items, 1
  {
    var k := 0;
    while k < |items|
      invariant 0 <= k <= |items|
      invariant doc.events == old(doc.events) + TocTrace(items[..k], level)
    {
      AddTocBranch(doc, items, k, level);
      TocTraceSnoc(items, k, level);
      Assoc(old(doc.events), TocTrace(items[..k], level), TocEntry(items[k], level), TocTrace(Kids(items[k]), level + 1));
      k := k + 1;
    }
    assert items[..k] == items;
  }

  /** One turn of the loop of `add_toc_item`: the line of chapter `k`, then the lines of its children. */
  method AddTocBranch(doc: Document, items: seq<Node>, k: nat, level: nat)
    requires level >= 1 && k < |items|
    modifies doc
    ensures doc.events == old(doc.events) + TocEntry(items[k], level) + TocTrace(Kids(items[k]), level + 1)
    decreases items, 0
  {
    var item := items[k];
    AddTocLine(doc, item, level);
    if item.children.Present? && item.children.nodes != [] {
      AddTocItem(doc, item.children.nodes, level + 1);
    } else {
      assert Kids(item) == [];
      assert doc.events == doc.events + [];
    }
  }

  /** One TOC line: an indented paragraph with the chapter's label, bold at the top level. */
  method AddTocLine(doc: Document, item: Node, level: nat)
    requires level >= 1
    modifies doc
    ensures doc.events == old(doc.events) + TocEntry(item, level)
  {
    doc.Emit(AddParagraph(TocIndent(level - 1)));
    doc.Emit(AddRun(Label(item), level == 1, false));
  }

  /** The TOC lines of placed chapters, each at its own depth. */
  function TocOf(ps: seq<Placed>): (es: seq<Event>)
    ensures |es| == 2 * |ps|
  {
    if ps == [] then [] else TocEntry(ps[0].node, Depth(ps[0])) + TocOf(ps[1..])
  }

  lemma {:induction false} TocOfAppend(a: seq<Placed>, b: seq<Placed>)
    ensures TocOf(a + b) == TocOf(a) + TocOf(b)
  {
    if a != [] {
      TocOfAppend(a[1..], b);
      assert (a + b)[1..] == a[1..] + b;
    } else {
      assert a + b == b;
    }
  }

  /** The TOC holds one line per chapter, in pre-order, each at its chapter's depth. */
  lemma {:induction false} TocInPreorder(nodes: seq<Node>, ancestors: seq<ChapterInfo>, level: seq<ChapterInfo>)
    ensures TocTrace(nodes, |ancestors| + 1) == TocOf(Preorder(nodes, ancestors, level))
  {
    if nodes != [] {
      var n, d := nodes[0], |ancestors| + 1;
      var p := Placed(n, ancestors, level);
      var sub := match n.children
        case Absent => []
        case Present(kids) => Preorder(kids, ancestors + [Info(n)], Infos(kids));
      var rest := Preorder(nodes[1..], ancestors, level);
      assert Preorder(nodes, ancestors, level) == [p] + sub + rest;
      assert TocTrace(nodes, d) == TocEntry(n, d) + TocTrace(Kids(n), d + 1) + TocTrace(nodes[1..], d);
      TocInPreorder(nodes[1..], ancestors, level);
      if n.children.Present? {
        assert |ancestors + [Info(n)]| + 1 == d + 1;
        TocInPreorder(n.children.nodes, ancestors + [Info(n)], Infos(n.children.nodes));
      }
      assert TocTrace(Kids(n), d + 1) == TocOf(sub);
      TocOfAppend([p] + sub, rest);
      TocOfAppend([p], sub);
      assert TocOf([p]) == TocEntry(n, d) + TocOf([]);
    }
  }

  /** For the whole outline: two calls (paragraph, run) per chapter, top-level lines bold. */
  lemma TocOfOutline(outline: seq<Node>)
    ensures TocTrace(outline, 1) == TocOf(Walk(outline))
    ensures |TocTrace(outline, 1)| == 2 * CountNodes(outline)
  {
    var none: seq<ChapterInfo> := [];
    assert |none| + 1 == 1;
    TocInPreorder(outline, none, Infos(outline));
    var w := Walk(outline);
    assert |w| == CountNodes(outline);
    assert TocTrace(outline, 1) == TocOf(w);
  }

  /** The calls for a leaf's content: nothing when it is missing or blank, else its rendered blocks. */
  function ContentEvents(content: Option<string>): seq<Event>
  {
    var c := Strip(if content.Some? then content.value else "");
    if c == [] then [] else RenderTrace(Blocks(Split(c, "\n"), 0))
  }

  /** The page break before a top-level chapter and the chapter's heading, its level capped at 3. */
  function SectionHead(n: Node, level: nat): seq<Event>
  {
    (if level == 1 then [AddPageBreak] else []) + [AddHeading(Label(n), if level < 3 then level else 3)]
  }

  /**
   * What follows a chapter's heading: its sub-chapters, or what `leaf` makes of a leaf's content
   * (the export renders it with `ContentEvents`; the section walk does not depend on how).
   */
  function SectionBody(n: Node, level: nat, leaf: Option<string> -> seq<Event>): seq<Event>
    decreases n, 0
  {
    match n.children
    case Absent => leaf(n.content)
    case Present(kids) => if kids == [] then leaf(n.content) else BodyTrace(kids, level + 1, leaf)
  }

  /** What `add_outline_items(items, level)` adds, leaves rendered by `leaf`. */
  function BodyTrace(items: seq<Node>, level: nat, leaf: Option<string> -> seq<Event>): seq<Event>
    decreases items, 1
  {
    if items == [] then []
    else SectionHead(items[0], level) + SectionBody(items[0], level, leaf) + BodyTrace(items[1..], level, leaf)
  }

  lemma {:induction false} BodyTraceAppend(a: seq<Node>, b: seq<Node>, level: nat, leaf: Option<string> -> seq<Event>)
    ensures BodyTrace(a + b, level, leaf) == BodyTrace(a, level, leaf) + BodyTrace(b, level, leaf)
  {
    if a != [] {
      var first := SectionHead(a[0], level) + SectionBody(a[0], level, leaf);
      assert (a + b)[0] == a[0] && (a + b)[1..] == a[1..] + b;
      assert BodyTrace(a + b, level, leaf) == first + BodyTrace(a[1..] + b, level, leaf);
      BodyTraceAppend(a[1..], b, level, leaf);
      Assoc2(first, BodyTrace(a[1..], level, leaf), BodyTrace(b, level, leaf));
    } else {
      assert a + b == b;
    }
  }

  lemma BodyTraceSnoc(items: seq<Node>, k: nat, level: nat, leaf: Option<string> -> seq<Event>)
    requires k < |items|
    ensures BodyTrace(items[..k + 1], level, leaf)
      == BodyTrace(items[..k], level, leaf) + SectionHead(items[k], level) + SectionBody(items[k], level, leaf)
  {
    var item := items[k];
    var head := SectionHead(item, level);
    var body := SectionBody(item, level, leaf);
    assert BodyTrace([item], level, leaf) == head + body by {
      assert [item][0] == item && [item][1..] == [];
      assert BodyTrace([item], level, leaf) == head + body + [];
    }
    assert items[..k + 1] == items[..k] + [item];
    BodyTraceAppend(items[..k], [item], level, leaf);
    Assoc2(BodyTrace(items[..k], level, leaf), head, body);
  }

  /** A leaf's content: stripped, and rendered as Markdown blocks unless it is blank. */
  method RenderContent(doc: Document, content: Option<string>)
    modifies doc
    ensures doc.events == old(doc.events) + ContentEvents(content)
  {
    var c := Strip(if content.Some? then content.value else "");
    if c != [] {
      var blocks := ParseMarkdownBlocks(c);
      RenderMarkdownBlocks(doc, blocks);
    }
  }

  /**
   * `add_outline_items`: per chapter a page break at the top level and a heading; a leaf
   * renders its stripped content when that is not blank, another chapter recurses.
   */
  method AddOutlineItems(doc: Document, items: seq<Node>, level: nat)
    modifies doc
    ensures doc.events == old(doc.events) + BodyTrace(items, level, ContentEvents)
    decreases items, 1
  {
    var k := 0;
    while k < |items|
      invariant 0 <= k <= |items|
      invariant doc.events == old(doc.events) + BodyTrace(items[..k], level, ContentEvents)
    {
      var item := items[k];
      AddSection(doc, item, level);
      BodyTraceSnoc(items, k, level, ContentEvents);
      Assoc(old(doc.events), BodyTrace(items[..k], level, ContentEvents),
            SectionHead(item, level), SectionBody(item, level, ContentEvents));
      k := k + 1;
    }
    assert items[..k] == items;
  }

  /** One turn of `add_outline_items`: the chapter's heading, then its sub-chapters or content. */
  method AddSection(doc: Document, item: Node, level: nat)
    modifies doc
    ensures doc.events == old(doc.events) + SectionHead(item, level) + SectionBody(item, level, ContentEvents)
    decreases item, 0
  {
    if level == 1 {
      doc.Emit(AddPageBreak);
    }
    doc.Emit(AddHeading(Label(item), if level < 3 then level else 3));
    ghost var head := doc.events;
    assert head == old(doc.events) + SectionHead(item, level);
    if item.children.Present? && item.children.nodes != [] {
      AddOutlineItems(doc, item.children.nodes, level + 1);
      assert SectionBody(item, level, ContentEvents) == BodyTrace(item.children.nodes, level + 1, ContentEvents);
    } else {
      RenderContent(doc, item.content);
      assert SectionBody(item, level, ContentEvents) == ContentEvents(item.content);
    }
    assert doc.events == head + SectionBody(item, level, ContentEvents);
  }

  /** The section calls of placed chapters: heading, then the content of a leaf. */
  function BodyOf(ps: seq<Placed>, leaf: Option<string> -> seq<Event>): seq<Event>
  {
    if ps == [] then []
    else
      var n := ps[0].node;
      SectionHead(n, Depth(ps[0])) + (if IsLeaf(n) then leaf(n.content) else []) + BodyOf(ps[1..], leaf)
  }

  lemma {:induction false} BodyOfAppend(a: seq<Placed>, b: seq<Placed>, leaf: Option<string> -> seq<Event>)
    ensures BodyOf(a + b, leaf) == BodyOf(a, leaf) + BodyOf(b, leaf)
  {
    if a != [] {
      var n := a[0].node;
      var first := SectionHead(n, Depth(a[0])) + (if IsLeaf(n) then leaf(n.content) else []);
      var ab := a + b;
      assert ab[0] == a[0] && ab[1..] == a[1..] + b;
      BodyOfCons(ab, leaf);
      BodyOfCons(a, leaf);
      BodyOfAppend(a[1..], b, leaf);
      Assoc2(first, BodyOf(a[1..], leaf), BodyOf(b, leaf));
    } else {
      assert a + b == b;
    }
  }

  lemma BodyOfCons(ps: seq<Placed>, leaf: Option<string> -> seq<Event>)
    requires ps != []
    ensures var n := ps[0].node;
      BodyOf(ps, leaf) == SectionHead(n, Depth(ps[0])) + (if IsLeaf(n) then leaf(n.content) else []) + BodyOf(ps[1..], leaf)
  {
  }

  /**
   * The body is one section per chapter in pre-order: a page break only before a top-level
   * chapter, a heading at the chapter's depth capped at 3, and content only under leaves.
   */
  lemma {:induction false} BodyInPreorder(nodes: seq<Node>, ancestors: seq<ChapterInfo>, level: seq<ChapterInfo>,
                                           leaf: Option<string> -> seq<Event>)
    ensures BodyTrace(nodes, |ancestors| + 1, leaf) == BodyOf(Preorder(nodes, ancestors, level), leaf)
  {
    if nodes != [] {
      var d := |ancestors| + 1;
      var n := nodes[0];
      var p := Placed(n, ancestors, level);
      var sub := match n.children
        case Absent => []
        case Present(kids) => Preorder(kids, ancestors + [Info(n)], Infos(kids));
      var rest := Preorder(nodes[1..], ancestors, level);
      var head := SectionHead(n, d);
      var own := if IsLeaf(n) then leaf(n.content) else [];
      assert Preorder(nodes, ancestors, level) == [p] + sub + rest;
      BodyInPreorder(nodes[1..], ancestors, level, leaf);
      assert SectionBody(n, d, leaf) == own + BodyOf(sub, leaf) by {
        if n.children.Present? {
          var kids := n.children.nodes;
          assert |ancestors + [Info(n)]| + 1 == d + 1;
          BodyInPreorder(kids, ancestors + [Info(n)], Infos(kids), leaf);
          if kids == [] {
            assert sub == [];
          }
        }
      }
      assert BodyOf([p], leaf) == head + own by {
        assert [p][0] == p && [p][1..] == [];
      }
      BodyOfAppend([p] + sub, rest, leaf);
      BodyOfAppend([p], sub, leaf);
      assert BodyTrace(nodes, d, leaf) == head + SectionBody(n, d, leaf) + BodyTrace(nodes[1..], d, leaf);
      Assoc2(head, own, BodyOf(sub, leaf));
    }
  }

  const TocTitle := "目  录"
  const OverviewTitle := "项目概述"

  /** The overview section: present only when the overview text is non-empty. */
  function OverviewEvents(overview: Option<string>): seq<Event>
  {
    if overview.Some? && overview.value != [] then
      [AddHeading(OverviewTitle, 1)] + RenderTrace(Blocks(Split(overview.value, "\n"), 0))
    else []
  }

  /**
   * The part of `export_word` between the cover and the signature page: the TOC page, the
   * overview, then the chapter sections.
   */
  method ExportOutline(doc: Document, outline: seq<Node>, overview: Option<string>)
    modifies doc
    ensures doc.events == old(doc.events) + [AddHeading(TocTitle, 1), AddParagraph(NoIndent)]
      + TocTrace(outline, 1) + [AddPageBreak] + OverviewEvents(overview) + BodyTrace(outline, 1, ContentEvents)
  {
    doc.Emit(AddHeading(TocTitle, 1));
    doc.Emit(AddParagraph(NoIndent));
    assert doc.events == old(doc.events) + [AddHeading(TocTitle, 1), AddParagraph(NoIndent)];
    AddTocItem(doc, outline, 1);
    doc.Emit(AddPageBreak);
    ghost var front := doc.events;
    if overview.Some? && overview.value != [] {
      doc.Emit(AddHeading(OverviewTitle, 1));
      var blocks := ParseMarkdownBlocks(overview.value);
      RenderMarkdownBlocks(doc, blocks);
      Assoc2(front, [AddHeading(OverviewTitle, 1)], RenderTrace(blocks));
    }
    assert doc.events == front + OverviewEvents(overview);
    AddOutlineItems(doc, outline, 1);
  }

  // ---------------------------------------------------------------------------------------------
  // upload_file: the type gate and the response

  /** Index of the last `c` in `s`, as `str.rfind`. */
  function RFind(s: string, c: char): (i: int)
    ensures -1 <= i < |s|
    ensures i >= 0 ==> s[i] == c
    ensures forall k :: i < k < |s| ==> s[k] != c
  {
    if s == [] then -1 else if s[|s| - 1] == c then |s| - 1 else RFind(s[..|s| - 1], c)
  }

  /** `Path(filename).suffix.lower()`: from the last dot of the name, unless it is first or last. */
  function Suffix(filename: string): (ext: string)
    ensures ext == [] || (ext[0] == '.' && |ext| >= 2)
  {
    var name := PathName(filename);
    var i := RFind(name, '.');
    if 0 < i < |name| - 1 then Lower(name[i..]) else []
  }

  const AllowedExts: set<string> := {".pdf", ".docx", ".doc", ".docm"}
  const AllowedTypes: set<string> := {
    "application/pdf",
    "application/vnd.openxmlformats-officedocument.wordprocessingml.document",
    "application/msword",
    "application/vnd.ms-word.document.macroEnabled.12",
    "application/octet-stream"
  }

  const UnsupportedTypeMessage := "不支持的文件类型，请上传 PDF 或 Word (.docx) 文档"

  datatype UploadResponse = UploadResponse(
    success: bool, message: string, filename: Option<string>, fileContent: Option<string>, fileUrl: Option<string>)

  /** The file passes the gate when its declared type or its extension is allowed. */
  predicate TypeAllowed(filename: Option<string>, contentType: Option<string>)
  {
    (contentType.Some? && contentType.value in AllowedTypes)
    || Suffix(if filename.Some? then filename.value else "") in AllowedExts
  }

  /**
   * `upload_file`: the gate, then the file service's outcome (text and URL, or the text of the
   * exception it raised), turned into the response.
   */
  function UploadFile(filename: Option<string>, contentType: Option<string>,
                      processed: Result<(string, string), string>): (r: UploadResponse)
    ensures !TypeAllowed(filename, contentType) ==> r == UploadResponse(false, UnsupportedTypeMessage, None, None, None)
    ensures r.success <==> TypeAllowed(filename, contentType) && processed.Ok?
    ensures TypeAllowed(filename, contentType) && processed.Err? ==> r.message == "文件处理失败: " + processed.error
    ensures r.success ==> r.fileContent == Some(processed.value.0) && r.fileUrl == Some(processed.value.1)
  {
    var name := if filename.Some? then filename.value else "";
    if !TypeAllowed(filename, contentType) then UploadResponse(false, UnsupportedTypeMessage, None, None, None)
    else
      match processed
      case Err(e) => UploadResponse(false, "文件处理失败: " + e, None, None, None)
      case Ok((content, url)) => UploadResponse(true, "文件 " + name + " 上传成功", Some(name), Some(content), Some(url))
  }

  /** The extension is case-insensitive: a name such as `report.PDF` passes whatever type the browser sends. */
  lemma UpperCaseExtensionPasses(stem: string, contentType: Option<string>)
    requires stem != [] && forall k :: 0 <= k < |stem| ==> stem[k] != '/'
    ensures TypeAllowed(Some(stem + ".PDF"), contentType)
  {
    var name := stem + ".PDF";
    var i := |stem|;
    assert forall k :: 0 <= k < |name| ==> name[k] != '/' by {
      forall k | 0 <= k < |name|
        ensures name[k] != '/'
      {
        if k < i {
          assert name[k] == stem[k];
        }
      }
    }
    PathNameOfPlainName(name);
    assert name[i..] == ".PDF";
    assert name[i] == '.' && name[i + 1] != '.' && name[i + 2] != '.' && name[i + 3] != '.';
    assert RFind(name, '.') == i;
    SuffixFrom(name, i);
    LowerPdf(name[i..]);
  }

  /** The suffix of a plain name whose last dot is at `i`, neither first nor last. */
  lemma SuffixFrom(name: string, i: nat)
    requires PathName(name) == name && RFind(name, '.') == i && 0 < i < |name| - 1
    ensures Suffix(name) == Lower(name[i..])
  {
  }

  lemma LowerPdf(ext: string)
    requires ext == ".PDF"
    ensures Lower(ext) == ".pdf"
  {
    assert LowerChar('.') == '.' && LowerChar('P') == 'p' && LowerChar('D') == 'd' && LowerChar('F') == 'f';
  }
}
