/**
 * `agents/tools/export_tools.py`: the agent tool that writes a tender response to a Word
 * document. The response is a nested structure of titled sections; every title becomes a
 * heading one level deeper than its parent's (at most 9), every text becomes paragraphs, one
 * per non-blank line, with `# ` and `## ` lines turned into headings of their own.
 */
module ExportTools {
  import opened Strings
  import opened DocTrace

  const UploadsUrl := "/api/uploads/"
  const MaxHeadingLevel := 9

  /** A section's content: text, titled sub-sections in insertion order, or any other value. */
  datatype Content = Text(text: string) | Sections(items: seq<(string, Content)>) | Other

  /** The paragraph a line that is not blank becomes. */
  function LineParagraph(line: string): (e: Event)
    ensures e.AddTextParagraph?
  {
    var p := Strip(line);
    if StartsWith(p, "# ") then AddTextParagraph(p[2..], Heading1)
    else if StartsWith(p, "## ") then AddTextParagraph(p[3..], Heading2)
    else AddTextParagraph(p, Normal)
  }

  /** `# ` lines become level-1 headings, `## ` lines level-2 headings; the marker and the text make up the stripped line. */
  lemma LineParagraphStyle(line: string)
    ensures var e := LineParagraph(line);
      && (e.style == Heading1 <==> StartsWith(Strip(line), "# "))
      && (e.style == Heading2 <==> StartsWith(Strip(line), "## "))
      && Strip(line) == (match e.style
                         case Heading1 => "# " + e.text
                         case Heading2 => "## " + e.text
                         case Normal => e.text)
  {
    var p := Strip(line);
    if StartsWith(p, "# ") {
      assert p == "# " + p[2..] && p[1] == ' ';
    } else if StartsWith(p, "## ") {
      assert p == "## " + p[3..];
    }
  }

  /** The paragraphs of a text's lines: blank lines give none. */
  function TextEvents(lines: seq<string>): seq<Event>
  {
    if lines == [] then []
    else
      var last := lines[|lines| - 1];
      TextEvents(lines[..|lines| - 1]) + LineEvents(last)
  }

  /** What `_write_section_recursive(doc, content, level)` adds to the document. */
  function SectionEvents(c: Content, level: nat): seq<Event>
    decreases c, if c.Sections? then |c.items| + 1 else 0
  {
    match c
    case Text(t) => TextEvents(Split(t, "\n"))
    case Sections(items) => ItemsEvents(items, 0, level)
    case Other => []
  }

  /** The titled sub-sections from the `i`-th on: each title's heading, then its content one level deeper. */
  function ItemsEvents(items: seq<(string, Content)>, i: nat, level: nat): seq<Event>
    requires i <= |items|
    decreases Sections(items), |items| - i
  {
    if i == |items| then []
    else
      assert items[i] in items;
      [AddHeading(items[i].0, Min(level, MaxHeadingLevel))] + SectionEvents(items[i].1, level + 1)
        + ItemsEvents(items, i + 1, level)
  }

  function Min(a: nat, b: nat): nat
  {
    if a < b then a else b
  }

  /** Lines 50-69. */
  method WriteSection(doc: Document, content: Content, level: nat)
    modifies doc
    ensures doc.events == old(doc.events) + SectionEvents(content, level)
    decreases content
  {
    match content {
      case Text(t) =>
        WriteText(doc, Split(t, "\n"));
      case Sections(items) =>
        var i := 0;
        while i < |items|
          invariant i <= |items|
          invariant old(doc.events) + ItemsEvents(items, 0, level) == doc.events + ItemsEvents(items, i, level)
        {
          ghost var before := doc.events;
          assert items[i] in items;
          doc.Emit(AddHeading(items[i].0, Min(level, MaxHeadingLevel)));
          WriteSection(doc, items[i].1, level + 1);
          Assoc(before, [AddHeading(items[i].0, Min(level, MaxHeadingLevel))], SectionEvents(items[i].1, level + 1),
                ItemsEvents(items, i + 1, level));
          i := i + 1;
        }
        assert doc.events + [] == doc.events;
      case Other =>
    }
  }

  /** The text branch of lines 50-69: one paragraph per line that is not blank. */
  method WriteText(doc: Document, lines: seq<string>)
    modifies doc
    ensures doc.events == old(doc.events) + TextEvents(lines)
  {
    var i := 0;
    while i < |lines|
      invariant i <= |lines| && doc.events == old(doc.events) + TextEvents(lines[..i])
    {
      TextEventsSnoc(lines, i);
      WriteLine(doc, lines[i]);
      i := i + 1;
    }
    assert lines[..i] == lines;
  }

  /** One line of a text: a paragraph unless the line is blank. */
  method WriteLine(doc: Document, line: string)
    modifies doc
    ensures doc.events == old(doc.events) + LineEvents(line)
  {
    if !IsBlank(line) {
      doc.Emit(LineParagraph(line));
    }
  }

  function LineEvents(line: string): seq<Event>
  {
    if IsBlank(line) then [] else [LineParagraph(line)]
  }

  lemma TextEventsSnoc(lines: seq<string>, i: nat)
    requires i < |lines|
    ensures TextEvents(lines[..i + 1]) == TextEvents(lines[..i]) + LineEvents(lines[i])
  {
    assert lines[..i + 1][..i] == lines[..i];
  }

  /**
   * `export_response_to_docx` (lines 8-48): the sections written from level 1 into a new
   * document, and the download URL of the saved file.
   */
  method ExportResponse(structure: seq<(string, Content)>, fileName: string) returns (events: seq<Event>, url: string)
    ensures events == SectionEvents(Sections(structure), 1)
    ensures url == UploadsUrl + fileName
  {
    var doc := new Document();
    WriteSection(doc, Sections(structure), 1);
    events := doc.events;
    url := UploadsUrl + fileName;
  }

  /** The titles of a structure in the order they are written: each title, then the titles below it. */
  function Titles(c: Content): seq<string>
    decreases c, if c.Sections? then |c.items| + 1 else 0
  {
    match c
    case Sections(items) => ItemsTitles(items, 0)
    case _ => []
  }

  function ItemsTitles(items: seq<(string, Content)>, i: nat): seq<string>
    requires i <= |items|
    decreases Sections(items), |items| - i
  {
    if i == |items| then []
    else
      assert items[i] in items;
      [items[i].0] + Titles(items[i].1) + ItemsTitles(items, i + 1)
  }

  /** The texts of the headings added with `add_heading`, in order. */
  function HeadingTexts(events: seq<Event>): seq<string>
  {
    if events == [] then []
    else (if events[0].AddHeading? then [events[0].text] else []) + HeadingTexts(events[1..])
  }

  lemma {:induction false} HeadingTextsAppend(a: seq<Event>, b: seq<Event>)
    ensures HeadingTexts(a + b) == HeadingTexts(a) + HeadingTexts(b)
  {
    if a != [] {
      assert (a + b)[1..] == a[1..] + b;
      HeadingTextsAppend(a[1..], b);
    } else {
      assert a + b == b;
    }
  }

  /** Paragraphs only, no heading made with `add_heading`. */
  predicate ParagraphsOnly(events: seq<Event>)
  {
    forall k :: 0 <= k < |events| ==> events[k].AddTextParagraph?
  }

  lemma ParagraphsOnlyAppend(a: seq<Event>, b: seq<Event>)
    requires ParagraphsOnly(a) && ParagraphsOnly(b)
    ensures ParagraphsOnly(a + b)
  {
    forall k | 0 <= k < |a + b|
      ensures (a + b)[k].AddTextParagraph?
    {
      if k < |a| {
        assert (a + b)[k] == a[k];
      } else {
        assert (a + b)[k] == b[k - |a|];
      }
    }
  }

  /** Text adds paragraphs only, never a heading made with `add_heading`. */
  lemma {:induction false} TextEventsNoHeadings(lines: seq<string>)
    ensures HeadingTexts(TextEvents(lines)) == []
    ensures ParagraphsOnly(TextEvents(lines))
  {
    if lines != [] {
      var init := lines[..|lines| - 1];
      var tail := LineEvents(lines[|lines| - 1]);
      TextEventsNoHeadings(init);
      HeadingTextsAppend(TextEvents(init), tail);
      ParagraphsOnlyAppend(TextEvents(init), tail);
      if tail != [] {
        assert HeadingTexts(tail) == [] + HeadingTexts(tail[1..]);
      }
    }
  }

  /** Every title gets its heading, in order, and no other heading is added. */
  lemma {:induction false} HeadingsAreTitles(c: Content, level: nat)
    ensures HeadingTexts(SectionEvents(c, level)) == Titles(c)
    decreases c, if c.Sections? then |c.items| + 1 else 0
  {
    match c
    case Text(t) => TextEventsNoHeadings(Split(t, "\n"));
    case Sections(items) => ItemsHeadingsAreTitles(items, 0, level);
    case Other =>
  }

  lemma {:induction false} ItemsHeadingsAreTitles(items: seq<(string, Content)>, i: nat, level: nat)
    requires i <= |items|
    ensures HeadingTexts(ItemsEvents(items, i, level)) == ItemsTitles(items, i)
    decreases Sections(items), |items| - i
  {
    if i < |items| {
      assert items[i] in items;
      var head := [AddHeading(items[i].0, Min(level, MaxHeadingLevel))];
      HeadingsAreTitles(items[i].1, level + 1);
      ItemsHeadingsAreTitles(items, i + 1, level);
      HeadingTextsAppend(head + SectionEvents(items[i].1, level + 1), ItemsEvents(items, i + 1, level));
      HeadingTextsAppend(head, SectionEvents(items[i].1, level + 1));
      assert HeadingTexts(head) == [items[i].0] + HeadingTexts(head[1..]);
    }
  }

  /** Every heading level lies between the starting level (capped at 9) and 9. */
  predicate LevelsWithin(events: seq<Event>, low: nat)
  {
    forall k :: 0 <= k < |events| && events[k].AddHeading? ==> Min(low, MaxHeadingLevel) <= events[k].level <= MaxHeadingLevel
  }

  lemma {:induction false} TextLevelsWithin(lines: seq<string>, low: nat)
    ensures LevelsWithin(TextEvents(lines), low)
  {
    TextEventsNoHeadings(lines);
  }

  /** Headings are never deeper than level 9 and never shallower than the level the export starts at. */
  lemma {:induction false} HeadingLevelsBounded(c: Content, level: nat)
    ensures LevelsWithin(SectionEvents(c, level), level)
    decreases c, if c.Sections? then |c.items| + 1 else 0
  {
    match c
    case Text(t) => TextLevelsWithin(Split(t, "\n"), level);
    case Sections(items) => ItemsLevelsBounded(items, 0, level);
    case Other =>
  }

  lemma {:induction false} ItemsLevelsBounded(items: seq<(string, Content)>, i: nat, level: nat)
    requires i <= |items|
    ensures LevelsWithin(ItemsEvents(items, i, level), level)
    decreases Sections(items), |items| - i
  {
    if i < |items| {
      assert items[i] in items;
      HeadingLevelsBounded(items[i].1, level + 1);
      ItemsLevelsBounded(items, i + 1, level);
    }
  }
}
