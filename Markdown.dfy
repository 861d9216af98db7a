/**
 * The small Markdown reader the Word export applies to generated chapter text: lines are
 * grouped into list, heading and paragraph blocks, and the text of a block is cut into bold,
 * italic and plain runs. Lines come from splitting on '\n', so no line holds a newline and a
 * regex `.*$` applied to a line always runs to the line's end.
 */
module Markdown {
  import opened Wrappers
  import opened Strings

  datatype Item = Unordered(text: string) | Ordered(number: string, text: string)

  datatype Block =
    | ListBlock(items: seq<Item>)
    | Heading(level: nat, text: string)
    | Paragraph(text: string)

  /** `startswith(("- ", "* "))`. */
  predicate StartsUnordered(s: string)
  {
    StartsWith(s, "- ") || StartsWith(s, "* ")
  }

  /** `s` opens with `d >= 1` digits, a dot and a whitespace character (`^\d+\.\s`). */
  predicate OrderedPrefix(s: string, d: nat)
  {
    1 <= d && d + 1 < |s| && (forall k :: 0 <= k < d ==> IsDigit(s[k])) && s[d] == '.' && IsSpace(s[d + 1])
  }

  /**
   * `s[lo..]` is a run of whitespace followed by `text`, which does not itself start with
   * whitespace: what `\s*(.*)$` leaves in its group after a greedy blank run.
   */
  predicate SpacedTail(s: string, lo: nat, text: string)
  {
    lo <= |s| - |text| && s[|s| - |text|..] == text
    && (forall m :: lo <= m < |s| - |text| ==> IsSpace(s[m]))
    && (text == [] || !IsSpace(text[0]))
  }

  lemma SpaceRunTail(s: string, lo: nat)
    requires lo <= |s|
    ensures SpacedTail(s, lo, s[SpaceRunEnd(s, lo)..])
  {
  }

  /** `re.match(r"^(\d+)\.\s+(.*)$", s)` on a line: the number and the text after the blanks. */
  function OrderedMatch(s: string): (m: Option<(string, string)>)
    ensures m.Some? ==> OrderedPrefix(s, |m.value.0|) && s[..|m.value.0|] == m.value.0
    ensures m.Some? ==> SpacedTail(s, |m.value.0| + 1, m.value.1)
  {
    var d := DigitRunEnd(s, 0);
    if d >= 1 && d + 1 < |s| && s[d] == '.' && IsSpace(s[d + 1]) then
      SpaceRunTail(s, d + 1);
      Some((s[..d], s[SpaceRunEnd(s, d + 1)..]))
    else None
  }

  /** The scanner agrees with the regex: it matches exactly when some digit prefix fits. */
  lemma OrderedMatchIff(s: string)
    ensures OrderedMatch(s).Some? <==> exists d: nat :: OrderedPrefix(s, d)
  {
    if d: nat :| OrderedPrefix(s, d) {
      var e := DigitRunEnd(s, 0);
      if e != d {
        assert false;
      }
    }
  }

  /** The line opens a list block: `startswith(("- ", "* ")) or re.match(r"^\d+\.\s", line)`. */
  predicate IsListLine(s: string)
  {
    StartsUnordered(s) || OrderedMatch(s).Some?
  }

  /** The item a list line stands for, its marker and the blanks after it removed. */
  function ItemOf(s: string): Item
    requires IsListLine(s)
  {
    if StartsUnordered(s) then Unordered(s[SpaceRunEnd(s, 1)..])
    else Ordered(OrderedMatch(s).value.0, OrderedMatch(s).value.1)
  }

  /** A list item keeps the line's text after its marker: `- `/`* ` and blanks, or `N.` and blanks. */
  lemma ItemOfShape(s: string)
    requires IsListLine(s)
    ensures match ItemOf(s)
      case Unordered(t) => (s[0] == '-' || s[0] == '*') && IsSpace(s[1]) && SpacedTail(s, 1, t)
      case Ordered(num, t) =>
        |num| >= 1 && s[..|num|] == num && (forall k :: 0 <= k < |num| ==> IsDigit(num[k]))
        && s[|num|] == '.' && IsSpace(s[|num| + 1]) && SpacedTail(s, |num| + 1, t)
  {
    if StartsUnordered(s) {
      SpaceRunTail(s, 1);
    }
  }

  /** `re.match(r"^(#+)\s*(.*)$", line)` on a line starting with '#' (it always matches). */
  function HeadingOf(line: string): (b: Block)
    requires StartsWith(line, "#")
    ensures b.Heading? && 1 <= b.level <= 3
  {
    var k := CharRunEnd(line, 0, '#');
    Heading(if k < 3 then k else 3, line[SpaceRunEnd(line, k)..])
  }

  /** A heading's level is the number of leading '#' capped at 3; its text follows the hashes and blanks. */
  lemma HeadingOfShape(line: string)
    requires StartsWith(line, "#")
    ensures var k := CharRunEnd(line, 0, '#');
      k >= 1 && (forall m :: 0 <= m < k ==> line[m] == '#') && (k == |line| || line[k] != '#')
      && HeadingOf(line).level == (if k < 3 then k else 3)
      && SpacedTail(line, k, HeadingOf(line).text)
  {
    var k := CharRunEnd(line, 0, '#');
    assert line[0] == "#"[0];
    SpaceRunTail(line, k);
  }

  /** A stripped line that may continue a paragraph: non-blank, not starting with '-', '*' or '#'. */
  predicate ParagraphLine(s: string)
  {
    s != [] && !StartsWith(s, "-") && !StartsWith(s, "*") && !StartsWith(s, "#")
  }

  /** The first index at or after `i` whose stripped line is not a list line. */
  function ListRunEnd(lines: seq<string>, i: nat): (j: nat)
    requires i <= |lines|
    ensures i <= j <= |lines| && (j == |lines| || !IsListLine(Strip(lines[j])))
    ensures forall k :: i <= k < j ==> IsListLine(Strip(lines[k]))
    decreases |lines| - i
  {
    if i == |lines| || !IsListLine(Strip(lines[i])) then i else ListRunEnd(lines, i + 1)
  }

  /** The first index at or after `i` whose stripped line cannot continue a paragraph. */
  function ParaRunEnd(lines: seq<string>, i: nat): (j: nat)
    requires i <= |lines|
    ensures i <= j <= |lines| && (j == |lines| || !ParagraphLine(Strip(lines[j])))
    ensures forall k :: i <= k < j ==> ParagraphLine(Strip(lines[k]))
    decreases |lines| - i
  {
    if i == |lines| || !ParagraphLine(Strip(lines[i])) then i else ParaRunEnd(lines, i + 1)
  }

  /** The stripped lines `i .. j-1`. */
  function Stripped(lines: seq<string>, i: nat, j: nat): (r: seq<string>)
    requires i <= j <= |lines|
    ensures |r| == j - i && forall k :: 0 <= k < j - i ==> r[k] == Strip(lines[i + k])
    decreases j - i
  {
    if i == j then [] else Stripped(lines, i, j - 1) + [Strip(lines[j - 1])]
  }

  /** The items of some stripped list lines. */
  function Items(ls: seq<string>): (r: seq<Item>)
    requires forall k :: 0 <= k < |ls| ==> IsListLine(ls[k])
    ensures |r| == |ls| && forall k :: 0 <= k < |ls| ==> r[k] == ItemOf(ls[k])
  {
    if ls == [] then [] else Items(ls[..|ls| - 1]) + [ItemOf(ls[|ls| - 1])]
  }

  /**
   * One turn of the outer loop of `parse_markdown_blocks` as written: the block it appends, if
   * any, and the index it leaves `i` at. The paragraph branch collects lines starting at `i`
   * itself, so a line it cannot take ends the turn without moving `i`.
   */
  function StepAsWritten(lines: seq<string>, i: nat): (r: (Option<Block>, nat))
    requires i < |lines|
    ensures i <= r.1 <= |lines|
  {
    var line := Strip(lines[i]);
    if line == [] then (None, i + 1)
    else if IsListLine(line) then
      var j := ListRunEnd(lines, i);
      (Some(ListBlock(Items(Stripped(lines, i, j)))), j)
    else if StartsWith(line, "#") then (Some(HeadingOf(line)), i + 1)
    else
      var j := ParaRunEnd(lines, i);
      (if j > i then Some(Paragraph(Join(Stripped(lines, i, j), " "))) else None, j)
  }

  /** A non-blank line that starts with '-' or '*' but opens no list: `**bold**`, `---`, `-`. */
  predicate Stalls(line: string)
  {
    line != [] && !IsListLine(line) && (line[0] == '-' || line[0] == '*')
  }

  /** The written loop advances exactly when the line at `i` does not stall it; a stall appends nothing. */
  lemma StepAsWrittenAdvancesIff(lines: seq<string>, i: nat)
    requires i < |lines|
    ensures StepAsWritten(lines, i).1 == i <==> Stalls(Strip(lines[i]))
    ensures Stalls(Strip(lines[i])) ==> StepAsWritten(lines, i) == (None, i)
  {
    var line := Strip(lines[i]);
    if line != [] && !IsListLine(line) && !StartsWith(line, "#") {
      assert ParagraphLine(line) <==> !(line[0] == '-' || line[0] == '*');
    } else if line != [] && !IsListLine(line) {
      assert line[0] == '#';
    }
  }

  /** A paragraph line that is only `**bold**` leaves the written loop where it was, for ever. */
  lemma BoldLineStalls()
    ensures StepAsWritten(["**bold**"], 0) == (None, 0)
    ensures Step(["**bold**"], 0) == (Some(Paragraph("**bold**")), 1)
  {
    var line := "**bold**";
    assert StripStart(line) == 0;
    assert StripEnd(line, 0) == |line|;
    assert Strip(line) == line;
    assert !StartsUnordered(line) by {
      assert line[..2] == "**";
    }
    assert DigitRunEnd(line, 0) == 0;
    assert Stalls(line);
    StepAsWrittenAdvancesIff(["**bold**"], 0);
    assert Stripped(["**bold**"], 0, 1) == [line];
  }

  /**
   * One turn of the corrected loop: the paragraph branch always takes the line that opened it,
   * then keeps taking lines while they can continue a paragraph.
   */
  function Step(lines: seq<string>, i: nat): (r: (Option<Block>, nat))
    requires i < |lines|
    ensures i < r.1 <= |lines|
  {
    var line := Strip(lines[i]);
    if line == [] then (None, i + 1)
    else if IsListLine(line) then
      var j := ListRunEnd(lines, i);
      (Some(ListBlock(Items(Stripped(lines, i, j)))), j)
    else if StartsWith(line, "#") then (Some(HeadingOf(line)), i + 1)
    else
      var j := ParaRunEnd(lines, i + 1);
      (Some(Paragraph(Join(Stripped(lines, i, j), " "))), j)
  }

  /** The correction changes nothing for lines that do not stall the written loop. */
  lemma StepAgreesUnlessStalled(lines: seq<string>, i: nat)
    requires i < |lines| && !Stalls(Strip(lines[i]))
    ensures StepAsWritten(lines, i) == Step(lines, i)
  {
    var line := Strip(lines[i]);
    if line != [] && !IsListLine(line) && !StartsWith(line, "#") {
      assert ParagraphLine(line) by {
        assert line[0] != '-' && line[0] != '*';
      }
      assert ParaRunEnd(lines, i) == ParaRunEnd(lines, i + 1);
    }
  }

  /** The blocks of `lines[i..]`, turn by turn with the corrected step. */
  function Blocks(lines: seq<string>, i: nat): seq<Block>
    requires i <= |lines|
    decreases |lines| - i
  {
    if i == |lines| then []
    else
      var r := Step(lines, i);
      (if r.0.Some? then [r.0.value] else []) + Blocks(lines, r.1)
  }

  /** Blank lines never give a block. */
  lemma {:induction false} BlankLinesGiveNoBlocks(lines: seq<string>, i: nat)
    requires i <= |lines|
    requires forall k :: i <= k < |lines| ==> IsBlank(lines[k])
    ensures Blocks(lines, i) == []
    decreases |lines| - i
  {
    if i < |lines| {
      assert Strip(lines[i]) == [];
      BlankLinesGiveNoBlocks(lines, i + 1);
    }
  }

  /**
   * A list block holds one item per line of the maximal run of list lines starting at `i`;
   * the next block starts after that run.
   */
  lemma ListStep(lines: seq<string>, i: nat)
    requires i < |lines| && IsListLine(Strip(lines[i]))
    ensures var r := Step(lines, i);
      r.0.Some? && r.0.value.ListBlock? && |r.0.value.items| == r.1 - i >= 1
      && (forall k :: i <= k < r.1 ==> IsListLine(Strip(lines[k])) && r.0.value.items[k - i] == ItemOf(Strip(lines[k])))
      && (r.1 == |lines| || !IsListLine(Strip(lines[r.1])))
  {
    var j := ListRunEnd(lines, i);
    var ls := Stripped(lines, i, j);
    assert Step(lines, i) == (Some(ListBlock(Items(ls))), j);
    assert forall k :: i <= k < j ==> ls[k - i] == Strip(lines[k]);
  }

  /**
   * A paragraph block is the space-join of the stripped line at `i` and the lines after it up
   * to the first blank line or line starting with '-', '*' or '#'.
   */
  lemma ParagraphStep(lines: seq<string>, i: nat)
    requires i < |lines|
    requires var line := Strip(lines[i]); line != [] && !IsListLine(line) && !StartsWith(line, "#")
    ensures var r := Step(lines, i);
      r.0 == Some(Paragraph(Join(Stripped(lines, i, r.1), " ")))
      && (forall k :: i < k < r.1 ==> ParagraphLine(Strip(lines[k])))
      && (r.1 == |lines| || !ParagraphLine(Strip(lines[r.1])))
  {
  }

  /** What a turn appends to `blocks`. */
  function Emitted(b: Option<Block>): seq<Block>
  {
    if b.Some? then [b.value] else []
  }

  lemma BlocksUnfold(lines: seq<string>, i: nat)
    requires i < |lines|
    ensures Blocks(lines, i) == Emitted(Step(lines, i).0) + Blocks(lines, Step(lines, i).1)
  {
  }

  /** The item of one stripped line, tried as `- `/`* ` first and then as `N.`: none for other lines. */
  method ReadItem(stripped: string) returns (item: Option<Item>)
    ensures item.Some? <==> IsListLine(stripped)
    ensures item.Some? ==> item.value == ItemOf(stripped)
  {
    if StartsUnordered(stripped) {
      return Some(Unordered(stripped[SpaceRunEnd(stripped, 1)..]));
    }
    var m := OrderedMatch(stripped);
    if m.None? {
      return None;
    }
    return Some(Ordered(m.value.0, m.value.1));
  }

  lemma ItemsSnoc(lines: seq<string>, i0: nat, i: nat)
    requires i0 <= i < |lines|
    requires forall k :: i0 <= k <= i ==> IsListLine(Strip(lines[k]))
    ensures Items(Stripped(lines, i0, i + 1)) == Items(Stripped(lines, i0, i)) + [ItemOf(Strip(lines[i]))]
  {
    ghost var ls := Stripped(lines, i0, i + 1);
    assert ls[..|ls| - 1] == Stripped(lines, i0, i);
  }

  /** The inner list loop: collects the items of the run of list lines starting at `i0`. */
  method ParseList(lines: seq<string>, i0: nat) returns (items: seq<Item>, i: nat)
    requires i0 < |lines| && IsListLine(Strip(lines[i0]))
    ensures i == ListRunEnd(lines, i0) && items == Items(Stripped(lines, i0, i))
  {
    i := i0;
    items := [];
    while i < |lines|
      invariant i0 <= i <= |lines|
      invariant forall k :: i0 <= k < i ==> IsListLine(Strip(lines[k]))
      invariant items == Items(Stripped(lines, i0, i))
      invariant ListRunEnd(lines, i) == ListRunEnd(lines, i0)
      decreases |lines| - i
    {
      var item := ReadItem(Strip(lines[i]));
      if item.None? {
        break;
      }
      ItemsSnoc(lines, i0, i);
      items := items + [item.value];
      i := i + 1;
    }
  }

  /**
   * The inner paragraph loop, corrected: the line at `i0` that opened the paragraph is always
   * taken, then the lines after it while they can continue a paragraph.
   */
  method ParseParagraph(lines: seq<string>, i0: nat) returns (pLines: seq<string>, i: nat)
    requires i0 < |lines|
    ensures i == ParaRunEnd(lines, i0 + 1) && pLines == Stripped(lines, i0, i)
  {
    pLines := [Strip(lines[i0])];
    i := i0 + 1;
    while i < |lines|
      invariant i0 < i <= |lines|
      invariant pLines == Stripped(lines, i0, i)
      invariant ParaRunEnd(lines, i) == ParaRunEnd(lines, i0 + 1)
      decreases |lines| - i
    {
      var stripped := Strip(lines[i]);
      if !ParagraphLine(stripped) {
        break;
      }
      pLines := pLines + [stripped];
      i := i + 1;
    }
  }

  /** One turn of the outer loop: a blank line, a list, a heading or a paragraph. */
  method ParseTurn(lines: seq<string>, i: nat) returns (block: Option<Block>, next: nat)
    requires i < |lines|
    ensures (block, next) == Step(lines, i)
  {
    var line := Strip(lines[i]);
    if line == [] {
      block, next := None, i + 1;
    } else if StartsUnordered(line) || OrderedMatch(line).Some? {
      var items;
      items, next := ParseList(lines, i);
      block := Some(ListBlock(items));
    } else if StartsWith(line, "#") {
      block, next := Some(HeadingOf(line)), i + 1;
    } else {
      var pLines;
      pLines, next := ParseParagraph(lines, i);
      block := Some(Paragraph(Join(pLines, " ")));
    }
  }

  /**
   * `parse_markdown_blocks` with the corrected paragraph branch: split on '\n', then the
   * index-driven loop appending each turn's block.
   */
  method ParseMarkdownBlocks(content: string) returns (blocks: seq<Block>)
    ensures blocks == Blocks(Split(content, "\n"), 0)
  {
    var lines := Split(content, "\n");
    var i := 0;
    blocks := [];
    while i < |lines|
      invariant 0 <= i <= |lines|
      invariant Blocks(lines, 0) == blocks + Blocks(lines, i)
      decreases |lines| - i
    {
      var block, next := ParseTurn(lines, i);
      BlocksUnfold(lines, i);
      blocks, i := blocks + Emitted(block), next;
    }
  }

  // ---- inline runs -------------------------------------------------------------------------

  /** No newline in `s[lo..hi]`: the regex `.` does not match one. */
  predicate OnOneLine(s: string, lo: nat, hi: nat)
    requires lo <= hi <= |s|
  {
    forall m :: lo <= m < hi ==> s[m] != '\n'
  }

  /**
   * The lazy `.*?` followed by `close`, starting at `from`: where the first later `close`
   * begins, provided no newline comes before it.
   */
  function CloseAt(s: string, close: string, from: nat): (q: Option<nat>)
    ensures q.Some? ==> from <= q.value && OccursAt(s, close, q.value) && OnOneLine(s, from, q.value)
    ensures q.Some? ==> forall m :: from <= m < q.value ==> !OccursAt(s, close, m)
  {
    match FindFrom(s, close, from)
    case None => None
    case Some(q) => if OnOneLine(s, from, q) then Some(q) else None
  }

  /** Where a match of `(\*\*.*?\*\*|\*.*?\*|`.*?`)` tried at `p` ends, alternatives in order. */
  function MatchEnd(s: string, p: nat): (e: Option<nat>)
    requires p < |s|
    ensures e.Some? ==> p + 2 <= e.value <= |s|
    ensures e.Some? ==> (s[p] == '*' || s[p] == '`') && s[e.value - 1] == s[p]
  {
    if OccursAt(s, "**", p) && CloseAt(s, "**", p + 2).Some? then
      var q := CloseAt(s, "**", p + 2).value;
      assert s[q + 1] == "**"[1] && s[p] == "**"[0];
      Some(q + 2)
    else if s[p] == '*' && CloseAt(s, "*", p + 1).Some? then
      var q := CloseAt(s, "*", p + 1).value;
      assert s[q] == "*"[0];
      Some(q + 1)
    else if s[p] == '`' && CloseAt(s, "`", p + 1).Some? then
      var q := CloseAt(s, "`", p + 1).value;
      assert s[q] == "`"[0];
      Some(q + 1)
    else None
  }

  /**
   * `re.split` with that capturing pattern, scanning from `p` with the pending text starting at
   * `seg`: text between matches and the matches themselves, alternately.
   */
  function SplitFrom(s: string, seg: nat, p: nat): (parts: seq<string>)
    requires seg <= p <= |s|
    ensures |parts| % 2 == 1
    decreases |s| - p
  {
    if p == |s| then [s[seg..]]
    else
      match MatchEnd(s, p)
      case Some(e) => [s[seg..p], s[p..e]] + SplitFrom(s, e, e)
      case None => SplitFrom(s, seg, p + 1)
  }

  function Segments(text: string): seq<string>
  {
    SplitFrom(text, 0, 0)
  }

  /** Splitting loses nothing: the segments put back together are the text. */
  lemma {:induction false} SplitFromConcat(s: string, seg: nat, p: nat)
    requires seg <= p <= |s|
    ensures Concat(SplitFrom(s, seg, p)) == s[seg..]
    decreases |s| - p
  {
    if p == |s| {
      assert Concat([s[seg..]]) == Concat([]) + s[seg..];
    } else {
      match MatchEnd(s, p)
      case Some(e) =>
        SplitFromConcat(s, e, e);
        ConcatAroundMatch(s, seg, p, e, SplitFrom(s, e, e));
      case None =>
        SplitFromConcat(s, seg, p + 1);
    }
  }

  /** The text before a match, the match and what follows it put back together. */
  lemma ConcatAroundMatch(s: string, seg: nat, p: nat, e: nat, rest: seq<string>)
    requires seg <= p <= e <= |s| && Concat(rest) == s[e..]
    ensures Concat([s[seg..p], s[p..e]] + rest) == s[seg..]
  {
    ConcatAppend([s[seg..p], s[p..e]], rest);
    assert Concat([s[seg..p], s[p..e]]) == Concat([s[seg..p]]) + s[p..e];
    assert Concat([s[seg..p]]) == Concat([]) + s[seg..p];
    assert s[seg..p] + s[p..e] + s[e..] == s[seg..];
  }

  /** A matched span: it starts and ends with the same '*' or '`'. */
  predicate Delimited(t: string)
  {
    |t| >= 2 && (t[0] == '*' || t[0] == '`') && t[|t| - 1] == t[0]
  }

  /** Every second segment is a match. */
  lemma {:induction false} SplitFromMatches(s: string, seg: nat, p: nat)
    requires seg <= p <= |s|
    ensures forall k :: 0 <= k < |SplitFrom(s, seg, p)| && k % 2 == 1 ==> Delimited(SplitFrom(s, seg, p)[k])
    decreases |s| - p
  {
    if p < |s| {
      match MatchEnd(s, p)
      case Some(e) =>
        SplitFromMatches(s, e, e);
        var rest := SplitFrom(s, e, e);
        var parts := [s[seg..p], s[p..e]] + rest;
        assert SplitFrom(s, seg, p) == parts;
        forall k | 0 <= k < |parts| && k % 2 == 1
          ensures Delimited(parts[k])
        {
          if k >= 2 {
            assert parts[k] == rest[k - 2] && (k - 2) % 2 == 1;
          } else {
            assert parts[k] == s[p..e];
          }
        }
      case None =>
        assert SplitFrom(s, seg, p) == SplitFrom(s, seg, p + 1);
        SplitFromMatches(s, seg, p + 1);
    }
  }

  datatype Run = Run(text: string, bold: bool, italic: bool)

  /** Python's `s[k:-k]`. */
  function Inner(s: string, k: nat): string
  {
    if 2 * k <= |s| then s[k..|s| - k] else []
  }

  /** The run `add_markdown_runs` makes of one non-empty segment. */
  function RunOf(part: string): Run
  {
    if StartsWith(part, "**") && EndsWith(part, "**") then Run(Inner(part, 2), true, false)
    else if StartsWith(part, "*") && EndsWith(part, "*") then Run(Inner(part, 1), false, true)
    else Run(part, false, false)
  }

  /** The Markdown a run stands for: its text with the markers of its style put back. */
  function Decorate(r: Run): string
  {
    if r.bold then "**" + r.text + "**" else if r.italic then "*" + r.text + "*" else r.text
  }

  /** A segment made of one to three '*' and nothing else. */
  predicate BareStars(part: string)
  {
    1 <= |part| <= 3 && forall m :: 0 <= m < |part| ==> part[m] == '*'
  }

  /**
   * A segment is read back exactly, markers and all, unless it is a bare run of one to three
   * stars, which turns into a styled run with empty text.
   */
  lemma DecorateRunOf(part: string)
    requires part != []
    ensures Decorate(RunOf(part)) == part <==> !BareStars(part)
  {
    if StartsWith(part, "**") && EndsWith(part, "**") {
      DecorateBold(part);
    } else if StartsWith(part, "*") && EndsWith(part, "*") {
      DecorateItalic(part);
    } else {
      DecoratePlain(part);
    }
  }

  lemma DecorateBold(part: string)
    requires StartsWith(part, "**") && EndsWith(part, "**")
    ensures Decorate(RunOf(part)) == part <==> !BareStars(part)
  {
    var r := Run(Inner(part, 2), true, false);
    assert RunOf(part) == r;
    assert part[0] == '*' && part[1] == '*' && part[|part| - 1] == '*' && part[|part| - 2] == '*' by {
      assert part[..2] == "**" && part[|part| - 2..] == "**";
    }
    if |part| >= 4 {
      assert part == "**" + part[2..|part| - 2] + "**";
      assert !BareStars(part);
    } else {
      assert |Decorate(r)| == 4;
      assert BareStars(part);
    }
  }

  lemma DecorateItalic(part: string)
    requires !(StartsWith(part, "**") && EndsWith(part, "**"))
    requires StartsWith(part, "*") && EndsWith(part, "*")
    ensures Decorate(RunOf(part)) == part <==> !BareStars(part)
  {
    var r := Run(Inner(part, 1), false, true);
    assert RunOf(part) == r;
    assert part[0] == '*' && part[|part| - 1] == '*' by {
      assert part[..1] == "*" && part[|part| - 1..] == "*";
    }
    if |part| >= 2 {
      assert part == "*" + part[1..|part| - 1] + "*";
      if |part| <= 3 {
        assert part[1] != '*';
      }
      assert !BareStars(part);
    } else {
      assert |Decorate(r)| == 2;
      assert BareStars(part);
    }
  }

  lemma DecoratePlain(part: string)
    requires part != []
    requires !(StartsWith(part, "**") && EndsWith(part, "**"))
    requires !(StartsWith(part, "*") && EndsWith(part, "*"))
    ensures Decorate(RunOf(part)) == part <==> !BareStars(part)
  {
    assert RunOf(part) == Run(part, false, false);
    assert !BareStars(part);
  }

  /** The runs for a list of segments: none for an empty segment, one for each other. */
  function RunsOf(parts: seq<string>): (runs: seq<Run>)
    ensures |runs| <= |parts|
  {
    if parts == [] then []
    else RunsOf(parts[..|parts| - 1]) + (if parts[|parts| - 1] == [] then [] else [RunOf(parts[|parts| - 1])])
  }

  /** `add_markdown_runs`'s runs for `text`. */
  function Runs(text: string): seq<Run>
  {
    RunsOf(Segments(text))
  }

  function Decorated(runs: seq<Run>): seq<string>
  {
    seq(|runs|, k requires 0 <= k < |runs| => Decorate(runs[k]))
  }

  /** Runs read back as Markdown restore the segments' concatenation when no segment is bare stars. */
  lemma {:induction false} RunsOfRestore(parts: seq<string>)
    requires forall k :: 0 <= k < |parts| ==> !BareStars(parts[k])
    ensures Concat(Decorated(RunsOf(parts))) == Concat(parts)
  {
    if parts != [] {
      var init, last := parts[..|parts| - 1], parts[|parts| - 1];
      RunsOfRestore(init);
      var tail := if last == [] then [] else [RunOf(last)];
      assert Decorated(RunsOf(parts)) == Decorated(RunsOf(init)) + Decorated(tail);
      ConcatAppend(Decorated(RunsOf(init)), Decorated(tail));
      if last != [] {
        DecorateRunOf(last);
        assert Concat(Decorated(tail)) == Concat([]) + last;
      }
    }
  }

  /** The runs of a text, read back as Markdown, are the text, unless a segment is bare stars. */
  lemma RunsRestoreText(text: string)
    requires forall k :: 0 <= k < |Segments(text)| ==> !BareStars(Segments(text)[k])
    ensures Concat(Decorated(Runs(text))) == text
  {
    RunsOfRestore(Segments(text));
    SplitFromConcat(text, 0, 0);
  }
}
