/**
 * A Word document under construction, seen as the sequence of python-docx calls made on it.
 * Fonts, sizes and inch measurements are not recorded; an indent is recorded by its kind.
 */
module DocTrace {
  /** The paragraph format set right after `doc.add_paragraph()`. */
  datatype Indent =
    | NoIndent
    | FirstLine          // first_line_indent = 0.3 inch
    | ListIndent         // left_indent = 0.3 inch
    | TocIndent(steps: nat)  // left_indent = 0.2 inch per step

  /** The style a text paragraph ends up with. */
  datatype Style = Normal | Heading1 | Heading2

  datatype Event =
    | AddParagraph(indent: Indent)                      // doc.add_paragraph(), runs follow
    | AddRun(text: string, bold: bool, italic: bool)    // paragraph.add_run(text) on the last paragraph
    | AddHeading(text: string, level: nat)              // doc.add_heading(text, level)
    | AddPageBreak                                      // doc.add_page_break()
    | AddTextParagraph(text: string, style: Style)      // doc.add_paragraph(text), then its style and text

  lemma Assoc2(o: seq<Event>, a: seq<Event>, b: seq<Event>)
    ensures o + (a + b) == o + a + b
  {
  }

  lemma Assoc(o: seq<Event>, a: seq<Event>, b: seq<Event>, c: seq<Event>)
    ensures o + (a + b + c) == o + a + b + c
  {
  }

  class Document {
    var events: seq<Event>

    constructor()
      ensures events == []
    {
      events := [];
    }

    method Emit(e: Event)
      modifies this
      ensures events == old(events) + [e]
    {
      events := events + [e];
    }
  }
}
