/**
 * `services/search_service.py`: the text side of web search. `format_results` lists the results
 * for a prompt; `_clean_and_format_content` tidies the text scraped from a page before it is
 * shown: whitespace runs collapse, list lines become `- ` items set apart by blank lines, a
 * title heading is added, code-like lines are put in backticks, wrapped lines are merged back
 * into paragraphs and an over-long result keeps its first ten paragraphs. The search itself,
 * the scraping and `html.unescape` are outside the model (the last is a parameter).
 */
module SearchService {
  import opened Wrappers
  import opened Strings

  datatype SearchResult = SearchResult(title: string, href: string, body: string)

  const NoResults := "未找到相关搜索结果"

  /** The block of one result, numbered `i`. */
  function ResultBlock(i: nat, r: SearchResult): string
  {
    NatToString(i) + ". 标题: " + r.title + "\n   链接: " + r.href + "\n   摘要: " + r.body + "\n"
  }

  /** `enumerate(results, 1)`: one block per result, numbered from 1 in input order. */
  function ResultBlocks(results: seq<SearchResult>): (blocks: seq<string>)
    ensures |blocks| == |results|
  {
    seq(|results|, k requires 0 <= k < |results| => ResultBlock(k + 1, results[k]))
  }

  /** `format_results`. */
  function FormatResults(results: seq<SearchResult>): string
  {
    if results == [] then NoResults else Join(ResultBlocks(results), "\n")
  }

  /** The fixed message is returned exactly when there are no results. */
  lemma FormatResultsEmptyIff(results: seq<SearchResult>)
    ensures FormatResults(results) == NoResults <==> results == []
  {
    if results != [] {
      var blocks := ResultBlocks(results);
      JoinStartsWith(blocks, "\n");
      var out := FormatResults(results);
      assert out[0] == blocks[0][0] == NatToString(1)[0];
      assert IsDigit(out[0]);
      assert !IsDigit(NoResults[0]);
    }
  }

  /** Result `k` (counting from 0) appears as block number `k + 1`, after the blocks of the results before it. */
  lemma FormatResultsBlockAt(results: seq<SearchResult>, k: nat)
    requires k < |results|
    ensures OccursAt(FormatResults(results), ResultBlock(k + 1, results[k]), JoinOffset(ResultBlocks(results), "\n", k))
  {
    JoinPartAt(ResultBlocks(results), "\n", k);
  }

  // ---------------------------------------------------------------------------------------
  // Whitespace runs

  /** The characters `[ \t]` matches. */
  predicate IsBlankChar(c: char)
  {
    c == ' ' || c == '\t'
  }

  function BlankRunEnd(s: string, i: nat): (k: nat)
    requires i <= |s|
    ensures i <= k <= |s| && (k == |s| || !IsBlankChar(s[k]))
    ensures forall m :: i <= m < k ==> IsBlankChar(s[m])
    decreases |s| - i
  {
    if i == |s| || !IsBlankChar(s[i]) then i else BlankRunEnd(s, i + 1)
  }

  /** `re.sub(r'[ \t]+', ' ', s)`: every run of spaces and tabs becomes one space. */
  function CollapseBlanks(s: string): (r: string)
    decreases |s|
  {
    if s == [] then []
    else if IsBlankChar(s[0]) then " " + CollapseBlanks(s[BlankRunEnd(s, 0)..])
    else [s[0]] + CollapseBlanks(s[1..])
  }

  /**
   * `re.sub(r'\n{3,}', '\n\n', s)`: every run of three or more newlines becomes two. (The final
   * `re.sub(r'\n\n+', '\n\n', s)` computes the same function: a run of exactly two is left as it is.)
   */
  function CollapseNewlines(s: string): (r: string)
    decreases |s|
  {
    if s == [] then []
    else if s[0] == '\n' then
      var e := CharRunEnd(s, 0, '\n');
      (if e >= 3 then "\n\n" else s[..e]) + CollapseNewlines(s[e..])
    else [s[0]] + CollapseNewlines(s[1..])
  }

  /** The string without the characters in `drop`. */
  function Without(s: string, drop: set<char>): (r: string)
    ensures |r| <= |s|
  {
    if s == [] then [] else (if s[0] in drop then [] else [s[0]]) + Without(s[1..], drop)
  }

  lemma {:induction false} WithoutAppend(a: string, b: string, drop: set<char>)
    ensures Without(a + b, drop) == Without(a, drop) + Without(b, drop)
    decreases |a|
  {
    if a != [] {
      assert (a + b)[1..] == a[1..] + b;
      WithoutAppend(a[1..], b, drop);
    } else {
      assert a + b == b;
    }
  }

  lemma {:induction false} WithoutAll(s: string, drop: set<char>)
    requires forall k :: 0 <= k < |s| ==> s[k] in drop
    ensures Without(s, drop) == []
    decreases |s|
  {
    if s != [] {
      WithoutAll(s[1..], drop);
    }
  }

  /**
   * Collapsing spaces leaves no tab and no two spaces in a row, and starts with a space exactly
   * when the input starts with a space or tab.
   */
  lemma {:induction false} CollapseBlanksShape(s: string)
    ensures forall k :: 0 <= k < |CollapseBlanks(s)| ==> CollapseBlanks(s)[k] != '\t'
    ensures forall k :: 0 < k < |CollapseBlanks(s)| ==>
      !(CollapseBlanks(s)[k - 1] == ' ' && CollapseBlanks(s)[k] == ' ')
    ensures CollapseBlanks(s) != [] <==> s != []
    ensures s != [] ==> (CollapseBlanks(s)[0] == ' ' <==> IsBlankChar(s[0]))
    decreases |s|
  {
    if s != [] {
      if IsBlankChar(s[0]) {
        CollapseBlanksShape(s[BlankRunEnd(s, 0)..]);
      } else {
        CollapseBlanksShape(s[1..]);
      }
    }
  }

  /** Collapsing spaces keeps every character other than spaces and tabs, in order. */
  lemma {:induction false} CollapseBlanksKeepsText(s: string)
    ensures Without(CollapseBlanks(s), {' ', '\t'}) == Without(s, {' ', '\t'})
    decreases |s|
  {
    var drop := {' ', '\t'};
    if s != [] {
      if IsBlankChar(s[0]) {
        var e := BlankRunEnd(s, 0);
        var rest := s[e..];
        CollapseBlanksKeepsText(rest);
        assert s == s[..e] + rest;
        WithoutAppend(s[..e], rest, drop);
        WithoutAll(s[..e], drop);
        WithoutAppend(" ", CollapseBlanks(rest), drop);
      } else {
        CollapseBlanksKeepsText(s[1..]);
        WithoutAppend([s[0]], CollapseBlanks(s[1..]), drop);
        assert s == [s[0]] + s[1..];
        WithoutAppend([s[0]], s[1..], drop);
      }
    }
  }

  /**
   * Collapsing newlines leaves no three newlines in a row, and starts with a newline exactly
   * when the input does.
   */
  lemma {:induction false} CollapseNewlinesShape(s: string)
    ensures forall k :: 1 < k < |CollapseNewlines(s)| ==>
      !(CollapseNewlines(s)[k - 2] == '\n' && CollapseNewlines(s)[k - 1] == '\n' && CollapseNewlines(s)[k] == '\n')
    ensures CollapseNewlines(s) != [] <==> s != []
    ensures s != [] ==> (CollapseNewlines(s)[0] == '\n' <==> s[0] == '\n')
    decreases |s|
  {
    if s != [] {
      if s[0] == '\n' {
        CollapseNewlinesShape(s[CharRunEnd(s, 0, '\n')..]);
      } else {
        CollapseNewlinesShape(s[1..]);
      }
    }
  }

  /** Collapsing newlines keeps every other character, in order. */
  lemma {:induction false} CollapseNewlinesKeepsText(s: string)
    ensures Without(CollapseNewlines(s), {'\n'}) == Without(s, {'\n'})
    decreases |s|
  {
    var drop := {'\n'};
    if s != [] {
      if s[0] == '\n' {
        var e := CharRunEnd(s, 0, '\n');
        var rest := s[e..];
        var run := if e >= 3 then "\n\n" else s[..e];
        CollapseNewlinesKeepsText(rest);
        assert s == s[..e] + rest;
        WithoutAppend(s[..e], rest, drop);
        WithoutAll(s[..e], drop);
        WithoutAppend(run, CollapseNewlines(rest), drop);
        WithoutAll(run, drop);
      } else {
        CollapseNewlinesKeepsText(s[1..]);
        WithoutAppend([s[0]], CollapseNewlines(s[1..]), drop);
        assert s == [s[0]] + s[1..];
        WithoutAppend([s[0]], s[1..], drop);
      }
    }
  }

  // ---------------------------------------------------------------------------------------
  // The list pass: stripped lines, list items and the blank lines around lists

  /** The list-marker class `[•·▪▫○●◦‣⁃0-9a-zA-Z.)\]]`. */
  predicate IsMarkerChar(c: char)
  {
    c == '•' || c == '·' || c == '▪' || c == '▫' || c == '○' || c == '●' || c == '◦' || c == '‣' || c == '⁃'
    || '0' <= c <= '9' || 'a' <= c <= 'z' || 'A' <= c <= 'Z' || c == '.' || c == ')' || c == ']'
  }

  function MarkerRunEnd(s: string, i: nat): (k: nat)
    requires i <= |s|
    ensures i <= k <= |s| && (k == |s| || !IsMarkerChar(s[k]))
    ensures forall m :: i <= m < k ==> IsMarkerChar(s[m])
    decreases |s| - i
  {
    if i == |s| || !IsMarkerChar(s[i]) then i else MarkerRunEnd(s, i + 1)
  }

  /**
   * `re.match(r'^[marker]+\s+', line)`: a run of marker characters, then whitespace. The run is
   * taken whole, since a marker character is never whitespace.
   */
  predicate IsListLine(line: string)
  {
    var e := MarkerRunEnd(line, 0);
    0 < e < |line| && IsSpace(line[e])
  }

  /** `re.sub(r'^[marker]+\s*', '', line)`: the line without its marker and the whitespace after it. */
  function ListRest(line: string): (r: string)
    ensures |r| <= |line| && r == line[|line| - |r|..]
  {
    line[SpaceRunEnd(line, MarkerRunEnd(line, 0))..]
  }

  /** A formatted line: a blank separator, an ordinary line, or a list item. */
  datatype Line = Gap | Plain(text: string) | Item(rest: string)

  function Render(l: Line): string
  {
    match l
    case Gap => ""
    case Plain(t) => t
    case Item(r) => "- " + r
  }

  function RenderAll(ls: seq<Line>): (r: seq<string>)
    ensures |r| == |ls|
  {
    seq(|ls|, k requires 0 <= k < |ls| => Render(ls[k]))
  }

  lemma RenderAllSnoc(a: seq<Line>, x: Line)
    ensures RenderAll(a + [x]) == RenderAll(a) + [Render(x)]
  {
    assert forall k :: 0 <= k < |a| + 1 ==> RenderAll(a + [x])[k] == (RenderAll(a) + [Render(x)])[k];
  }

  /** The loop state: the lines formatted so far and `in_list`. */
  datatype ListState = ListState(out: seq<Line>, inList: bool)

  /** One turn of the list loop on a raw line. */
  function ListStep(st: ListState, raw: string): ListState
  {
    var line := Strip(raw);
    if line == [] then ListState(st.out + [Gap], false)
    else if IsListLine(line) then
      var item := Item(ListRest(line));
      if !st.inList && st.out != [] && Render(st.out[|st.out| - 1]) != [] then ListState(st.out + [Gap] + [item], true)
      else ListState(st.out + [item], true)
    else if st.inList then ListState(st.out + [Gap] + [Plain(line)], false)
    else ListState(st.out + [Plain(line)], false)
  }

  function ListPass(lines: seq<string>): ListState
  {
    if lines == [] then ListState([], false)
    else ListStep(ListPass(lines[..|lines| - 1]), lines[|lines| - 1])
  }

  lemma ListPassSnoc(lines: seq<string>, i: nat)
    requires i < |lines|
    ensures ListPass(lines[..i + 1]) == ListStep(ListPass(lines[..i]), lines[i])
  {
    assert lines[..i + 1][..i] == lines[..i];
  }

  /** Lines 80-94 of `_clean_and_format_content`: the list loop over the lines of the content. */
  method FormatLines(lines: seq<string>) returns (formatted: seq<string>)
    ensures formatted == RenderAll(ListPass(lines).out)
  {
    formatted := [];
    var inList := false;
    var i := 0;
    while i < |lines|
      invariant 0 <= i <= |lines|
      invariant formatted == RenderAll(ListPass(lines[..i]).out)
      invariant inList == ListPass(lines[..i]).inList
    {
      formatted, inList := FormatLine(ListPass(lines[..i]), formatted, inList, lines[i]);
      ListPassSnoc(lines, i);
      i := i + 1;
    }
    assert lines[..i] == lines;
  }

  /** The body of the list loop, on the state `st` that `formatted` and `inList` stand for. */
  method FormatLine(ghost st: ListState, formatted: seq<string>, inList: bool, raw: string)
    returns (formatted': seq<string>, inList': bool)
    requires formatted == RenderAll(st.out) && inList == st.inList
    ensures formatted' == RenderAll(ListStep(st, raw).out) && inList' == ListStep(st, raw).inList
  {
    var line := Strip(raw);
    if line == [] {
      formatted', inList' := formatted + [""], false;
      RenderAllSnoc(st.out, Gap);
    } else if IsListLine(line) {
      formatted', inList' := FormatItem(st, formatted, inList, raw, line);
    } else {
      formatted', inList' := FormatPlain(st, formatted, inList, raw, line);
    }
  }

  /** A list line: a gap first when a list starts after a line that is not blank, then the item. */
  method FormatItem(ghost st: ListState, formatted: seq<string>, inList: bool, raw: string, line: string)
    returns (formatted': seq<string>, inList': bool)
    requires formatted == RenderAll(st.out) && inList == st.inList
    requires line == Strip(raw) && line != [] && IsListLine(line)
    ensures formatted' == RenderAll(ListStep(st, raw).out) && inList' == ListStep(st, raw).inList
  {
    formatted' := formatted;
    ghost var out := st.out;
    var opens := !inList && |formatted| > 0 && formatted[|formatted| - 1] != "";
    assert opens == (!st.inList && st.out != [] && Render(st.out[|st.out| - 1]) != []);
    if opens {
      formatted' := formatted' + [""];
      RenderAllSnoc(out, Gap);
      out := out + [Gap];
    }
    formatted' := formatted' + ["- " + ListRest(line)];
    RenderAllSnoc(out, Item(ListRest(line)));
    out := out + [Item(ListRest(line))];
    inList' := true;
    assert ListStep(st, raw).out == out;
  }

  /** Any other line: a gap first when it ends a list, then the stripped line. */
  method FormatPlain(ghost st: ListState, formatted: seq<string>, inList: bool, raw: string, line: string)
    returns (formatted': seq<string>, inList': bool)
    requires formatted == RenderAll(st.out) && inList == st.inList
    requires line == Strip(raw) && line != [] && !IsListLine(line)
    ensures formatted' == RenderAll(ListStep(st, raw).out) && inList' == ListStep(st, raw).inList
  {
    formatted' := formatted;
    ghost var out := st.out;
    if inList {
      formatted' := formatted' + [""];
      RenderAllSnoc(out, Gap);
      out := out + [Gap];
    }
    formatted' := formatted' + [line];
    RenderAllSnoc(out, Plain(line));
    out := out + [Plain(line)];
    inList' := false;
    assert ListStep(st, raw).out == out;
  }

  /** The lines other than gaps, in order. */
  function Kept(ls: seq<Line>): seq<Line>
  {
    if ls == [] then []
    else Kept(ls[..|ls| - 1]) + (if ls[|ls| - 1].Gap? then [] else [ls[|ls| - 1]])
  }

  lemma KeptSnoc(a: seq<Line>, x: Line)
    ensures Kept(a + [x]) == Kept(a) + (if x.Gap? then [] else [x])
  {
    assert (a + [x])[..|a|] == a;
  }

  /** What one raw line becomes on its own: nothing when blank, otherwise an item or the stripped line. */
  function Convert(raw: string): seq<Line>
  {
    var line := Strip(raw);
    if line == [] then [] else if IsListLine(line) then [Item(ListRest(line))] else [Plain(line)]
  }

  function Converted(lines: seq<string>): seq<Line>
  {
    if lines == [] then [] else Converted(lines[..|lines| - 1]) + Convert(lines[|lines| - 1])
  }

  lemma ListStepKeeps(st: ListState, raw: string)
    ensures Kept(ListStep(st, raw).out) == Kept(st.out) + Convert(raw)
  {
    var line := Strip(raw);
    if line == [] {
      KeptSnoc(st.out, Gap);
    } else {
      var x := if IsListLine(line) then Item(ListRest(line)) else Plain(line);
      KeptSnoc(st.out, Gap);
      KeptSnoc(st.out + [Gap], x);
      KeptSnoc(st.out, x);
    }
  }

  /**
   * The list pass only adds gaps: its other lines are the non-blank input lines, stripped, in
   * order, each turned into an item when it is a list line.
   */
  lemma {:induction false} ListPassKeepsLines(lines: seq<string>)
    ensures Kept(ListPass(lines).out) == Converted(lines)
  {
    if lines != [] {
      var init := lines[..|lines| - 1];
      ListPassKeepsLines(init);
      ListStepKeeps(ListPass(init), lines[|lines| - 1]);
    }
  }

  /**
   * How the list pass sets lists apart: `in_list` holds exactly while the last line is an item,
   * plain lines are never empty, an item that starts a list follows a gap (or nothing), and a
   * plain line never directly follows an item.
   */
  predicate Separated(st: ListState)
  {
    (st.inList <==> st.out != [] && st.out[|st.out| - 1].Item?)
    && (forall k :: 0 <= k < |st.out| ==> st.out[k].Plain? ==> st.out[k].text != [])
    && (forall k :: 0 < k < |st.out| ==> st.out[k].Item? && !st.out[k - 1].Item? ==> st.out[k - 1].Gap?)
    && (forall k :: 0 < k < |st.out| ==> st.out[k].Plain? ==> !st.out[k - 1].Item?)
  }

  lemma SeparatedSnoc(st: ListState, x: Line, inList: bool)
    requires Separated(st)
    requires inList <==> x.Item?
    requires x.Plain? ==> x.text != []
    requires st.out != [] && x.Item? && !st.out[|st.out| - 1].Item? ==> st.out[|st.out| - 1].Gap?
    requires st.out != [] && x.Plain? ==> !st.out[|st.out| - 1].Item?
    ensures Separated(ListState(st.out + [x], inList))
  {
    var out := st.out + [x];
    assert forall k :: 0 <= k < |st.out| ==> out[k] == st.out[k];
  }

  lemma ListStepSeparated(st: ListState, raw: string)
    requires Separated(st)
    ensures Separated(ListStep(st, raw))
  {
    var line := Strip(raw);
    if line == [] {
      SeparatedSnoc(st, Gap, false);
    } else if IsListLine(line) {
      ItemStepSeparated(st, Item(ListRest(line)));
    } else if st.inList {
      SeparatedSnoc(st, Gap, false);
      SeparatedSnoc(ListState(st.out + [Gap], false), Plain(line), false);
    } else {
      SeparatedSnoc(st, Plain(line), false);
    }
  }

  lemma ItemStepSeparated(st: ListState, item: Line)
    requires Separated(st) && item.Item?
    ensures !st.inList && st.out != [] && Render(st.out[|st.out| - 1]) != [] ==>
      Separated(ListState(st.out + [Gap] + [item], true))
    ensures !(!st.inList && st.out != [] && Render(st.out[|st.out| - 1]) != []) ==>
      Separated(ListState(st.out + [item], true))
  {
    if !st.inList && st.out != [] && Render(st.out[|st.out| - 1]) != [] {
      SeparatedSnoc(st, Gap, false);
      SeparatedSnoc(ListState(st.out + [Gap], false), item, true);
    } else {
      if st.out != [] && !st.out[|st.out| - 1].Item? {
        assert !st.inList;
        assert Render(st.out[|st.out| - 1]) == [];
      }
      SeparatedSnoc(st, item, true);
    }
  }

  lemma {:induction false} ListPassSeparated(lines: seq<string>)
    ensures Separated(ListPass(lines))
  {
    if lines != [] {
      var init := lines[..|lines| - 1];
      ListPassSeparated(init);
      ListStepSeparated(ListPass(init), lines[|lines| - 1]);
    }
  }

  /**
   * The marker class includes every letter and digit, so any line that opens with a word and a
   * space counts as a list line and loses its first word: "Hello world" becomes "- world".
   */
  lemma WordLineBecomesItem(word: string, rest: string)
    requires word != [] && forall k :: 0 <= k < |word| ==> 'a' <= word[k] <= 'z' || 'A' <= word[k] <= 'Z'
    requires rest != [] && !IsSpace(rest[0])
    ensures IsListLine(word + " " + rest) && ListRest(word + " " + rest) == rest
  {
    var line := word + " " + rest;
    var e := MarkerRunEnd(line, 0);
    assert forall k :: 0 <= k < |word| ==> line[k] == word[k] && IsMarkerChar(line[k]);
    assert line[|word|] == ' ' && line[|word| + 1] == rest[0];
    assert SpaceRunEnd(line, e) == e + 1 by {
      assert SpaceRunEnd(line, e + 1) == e + 1;
    }
    assert line[|word| + 1..] == rest;
  }

  // ---------------------------------------------------------------------------------------
  // Title, indented lines and code lines

  /**
   * Lines 97-98: a `# title` heading and a blank line go in front, unless the stripped title is
   * empty or the content already starts with it or with `# `. The content itself is kept, and
   * the result starts with the title or a heading whenever there is a title.
   */
  function WithTitle(content: string, title: string): (r: string)
    ensures EndsWith(r, content)
    ensures r == content <==> (Strip(title) == [] || StartsWith(content, Strip(title)) || StartsWith(content, "# "))
    ensures Strip(title) != [] ==> StartsWith(r, Strip(title)) || StartsWith(r, "# ")
  {
    var t := Strip(title);
    if t != [] && !StartsWith(content, t) && !StartsWith(content, "# ") then
      var r := "# " + t + "\n\n" + content;
      assert r[..2] == "# ";
      assert r[|r| - |content|..] == content;
      r
    else content
  }

  /** Adding the title twice adds it once. */
  lemma WithTitleIdempotent(content: string, title: string)
    ensures WithTitle(WithTitle(content, title), title) == WithTitle(content, title)
  {
  }

  /** The next newline at or after `i`, or the end. */
  function LineEnd(s: string, i: nat): (k: nat)
    requires i <= |s|
    ensures i <= k <= |s| && (k == |s| || s[k] == '\n')
    ensures forall m :: i <= m < k ==> s[m] != '\n'
    decreases |s| - i
  {
    if i == |s| || s[i] == '\n' then i else LineEnd(s, i + 1)
  }

  /**
   * At a newline, the match of `\n([ ]{4,}|\t+)([^\n]+)` if there is one: where group 2 starts
   * and where the match ends. The indentation is taken whole unless that leaves nothing for
   * group 2, in which case the regex gives back one indentation character.
   */
  function IndentMatch(s: string): (m: Option<(nat, nat)>)
    requires |s| > 0 && s[0] == '\n'
    ensures m.Some? ==> 1 < m.value.0 < m.value.1 <= |s| && IsBlankChar(s[1])
  {
    if |s| < 2 || !IsBlankChar(s[1]) then None
    else
      var e := CharRunEnd(s, 1, s[1]);
      var least := if s[1] == ' ' then 4 else 1;
      var l := LineEnd(s, e);
      if e - 1 >= least && l > e then Some((e, l))
      else if e - 1 >= least + 1 then Some((e - 1, e))
      else None
  }

  /** Line 100: `re.sub(r'\n([ ]{4,}|\t+)([^\n]+)', r'\n> \2', s)`, indented lines become quotes. */
  function QuoteIndented(s: string): string
    decreases |s|
  {
    if s == [] then []
    else if s[0] == '\n' && IndentMatch(s).Some? then
      var m := IndentMatch(s).value;
      "\n> " + s[m.0..m.1] + QuoteIndented(s[m.1..])
    else [s[0]] + QuoteIndented(s[1..])
  }

  /** No newline is followed by a space or a tab. */
  predicate NoIndentedLine(s: string)
  {
    forall i :: 0 <= i < |s| - 1 && s[i] == '\n' ==> !IsBlankChar(s[i + 1])
  }

  /** Without an indented line there is nothing to quote. */
  lemma {:induction false} QuoteIndentedIdentity(s: string)
    requires NoIndentedLine(s)
    ensures QuoteIndented(s) == s
    decreases |s|
  {
    if s != [] {
      assert NoIndentedLine(s[1..]) by {
        forall i | 0 <= i < |s[1..]| - 1 && s[1..][i] == '\n'
          ensures !IsBlankChar(s[1..][i + 1])
        {
          assert s[i + 1] == '\n';
        }
      }
      QuoteIndentedIdentity(s[1..]);
      assert s == [s[0]] + s[1..];
    }
  }

  /** Neither the string nor any of its lines starts with a space or a tab. */
  predicate Unindented(s: string)
  {
    (s == [] || !IsBlankChar(s[0])) && NoIndentedLine(s)
  }

  lemma UnindentedGlue(a: string, b: string)
    requires Unindented(a) && Unindented(b)
    ensures Unindented(a + "\n" + b)
  {
    var s := a + "\n" + b;
    forall i | 0 <= i < |s| - 1 && s[i] == '\n'
      ensures !IsBlankChar(s[i + 1])
    {
      if i < |a| - 1 {
        assert s[i] == a[i] && s[i + 1] == a[i + 1];
      } else if i == |a| - 1 {
        assert s[i + 1] == '\n';
      } else if i == |a| {
        assert s[i + 1] == b[0];
      } else {
        assert s[i] == b[i - |a| - 1] && s[i + 1] == b[i - |a|];
      }
    }
  }

  lemma {:induction false} UnindentedJoin(parts: seq<string>)
    requires forall k :: 0 <= k < |parts| ==> Unindented(parts[k])
    ensures Unindented(Join(parts, "\n"))
    decreases |parts|
  {
    if |parts| > 1 {
      UnindentedJoin(parts[1..]);
      UnindentedGlue(parts[0], Join(parts[1..], "\n"));
    }
  }

  predicate NewlineFree(s: string)
  {
    forall k :: 0 <= k < |s| ==> s[k] != '\n'
  }

  /** A formatted line whose text has no newline renders unindented and newline-free. */
  predicate Shaped(l: Line)
  {
    NewlineFree(Render(l)) && (Render(l) == [] || !IsBlankChar(Render(l)[0]))
  }

  lemma ShapedUnindented(l: Line)
    requires Shaped(l)
    ensures Unindented(Render(l))
  {
  }

  lemma ConvertShaped(raw: string)
    requires NewlineFree(raw)
    ensures forall k :: 0 <= k < |Convert(raw)| ==> Shaped(Convert(raw)[k])
  {
    var line := Strip(raw);
    if line != [] {
      StrippedNewlineFree(raw);
      if IsListLine(line) {
        ItemShaped(line);
      } else {
        assert Shaped(Plain(line));
      }
    }
  }

  lemma StrippedNewlineFree(raw: string)
    requires NewlineFree(raw)
    ensures NewlineFree(Strip(raw))
  {
    var line := Strip(raw);
    assert forall k :: 0 <= k < |line| ==> line[k] in raw;
  }

  lemma ItemShaped(line: string)
    requires NewlineFree(line)
    ensures Shaped(Item(ListRest(line)))
  {
    var r := ListRest(line);
    assert NewlineFree(r) by {
      assert forall k :: 0 <= k < |r| ==> r[k] == line[|line| - |r| + k];
    }
    assert Render(Item(r)) == "- " + r;
    assert NewlineFree("- " + r);
  }

  lemma {:induction false} ListPassShaped(lines: seq<string>)
    requires forall k :: 0 <= k < |lines| ==> NewlineFree(lines[k])
    ensures forall k :: 0 <= k < |ListPass(lines).out| ==> Shaped(ListPass(lines).out[k])
  {
    if lines != [] {
      var init := lines[..|lines| - 1];
      ListPassShaped(init);
      ListStepShaped(ListPass(init), lines[|lines| - 1]);
    }
  }

  predicate AllShaped(ls: seq<Line>)
  {
    forall k :: 0 <= k < |ls| ==> Shaped(ls[k])
  }

  lemma ListStepShaped(st: ListState, raw: string)
    requires AllShaped(st.out) && NewlineFree(raw)
    ensures AllShaped(ListStep(st, raw).out)
  {
    ConvertShaped(raw);
    ListStepAppends(st, raw);
    var c := Convert(raw);
    AppendShaped(st.out, [Gap]);
    AppendShaped(st.out + [Gap], c);
    AppendShaped(st.out, c);
  }

  /** A step adds the converted line, after a separator when a list starts or ends. */
  lemma ListStepAppends(st: ListState, raw: string)
    ensures ListStep(st, raw).out == st.out + [Gap] + Convert(raw) || ListStep(st, raw).out == st.out + Convert(raw)
  {
  }

  lemma AppendShaped(a: seq<Line>, b: seq<Line>)
    requires AllShaped(a) && AllShaped(b)
    ensures AllShaped(a + b)
  {
    forall k | 0 <= k < |a + b|
      ensures Shaped((a + b)[k])
    {
      if k < |a| {
        assert (a + b)[k] == a[k];
      } else {
        assert (a + b)[k] == b[k - |a|];
      }
    }
  }

  lemma ListPassUnindented(lines: seq<string>)
    requires forall k :: 0 <= k < |lines| ==> NewlineFree(lines[k])
    ensures Unindented(Join(RenderAll(ListPass(lines).out), "\n"))
  {
    var out := ListPass(lines).out;
    var rendered := RenderAll(out);
    ListPassShaped(lines);
    forall k | 0 <= k < |rendered|
      ensures Unindented(rendered[k])
    {
      ShapedUnindented(out[k]);
    }
    UnindentedJoin(rendered);
  }

  lemma WithTitleUnindented(content: string, title: string)
    requires Unindented(content) && NewlineFree(title)
    ensures Unindented(WithTitle(content, title))
  {
    var t := Strip(title);
    if t != [] && !StartsWith(content, t) && !StartsWith(content, "# ") {
      assert NewlineFree(t);
      assert Unindented("# " + t);
      UnindentedGlue("", content);
      UnindentedGlue("# " + t, "" + "\n" + content);
      assert "# " + t + "\n" + ("" + "\n" + content) == WithTitle(content, title);
    }
  }

  /**
   * The rewrite of indented lines never fires on what the list pass and the title step produce
   * (the lines of the content and the title have no newline in them): every line was stripped
   * or starts with `- `, `# ` or nothing.
   */
  lemma QuoteNeverFires(lines: seq<string>, title: string)
    requires forall k :: 0 <= k < |lines| ==> NewlineFree(lines[k])
    requires NewlineFree(title)
    ensures QuoteIndented(WithTitle(Join(RenderAll(ListPass(lines).out), "\n"), title))
         == WithTitle(Join(RenderAll(ListPass(lines).out), "\n"), title)
  {
    var content := Join(RenderAll(ListPass(lines).out), "\n");
    ListPassUnindented(lines);
    WithTitleUnindented(content, title);
    QuoteIndentedIdentity(WithTitle(content, title));
  }

  /** `c in '{}(=<>/\ '`: the backslash before the space stays a backslash, so nine characters. */
  predicate IsCodeChar(c: char)
  {
    c == '{' || c == '}' || c == '(' || c == '=' || c == '<' || c == '>' || c == '/' || c == '\\' || c == ' '
  }

  function CodeCount(l: string): (n: nat)
    ensures n <= |l|
  {
    if l == [] then 0 else CodeCount(l[..|l| - 1]) + (if IsCodeChar(l[|l| - 1]) then 1 else 0)
  }

  /**
   * Longer than 10 characters, with code characters making up more than a fifth of them
   * (`count / len > 0.2`, decided exactly as `5 * count > len`).
   */
  predicate IsCodeLine(l: string)
  {
    |l| > 10 && 5 * CodeCount(l) > |l|
  }

  function MarkCode(l: string): string
  {
    if IsCodeLine(l) then "`" + l + "`" else l
  }

  /** Line 101: every code line of the content is wrapped in backticks. */
  function MarkCodeLines(content: string): string
  {
    var ls := Split(content, "\n");
    Join(seq(|ls|, k requires 0 <= k < |ls| => MarkCode(ls[k])), "\n")
  }

  lemma SplitLinesNewlineFree(content: string)
    ensures forall k :: 0 <= k < |Split(content, "\n")| ==> NewlineFree(Split(content, "\n")[k])
  {
    var ls := Split(content, "\n");
    SplitPiecesFree(content, "\n");
    forall k | 0 <= k < |ls|
      ensures NewlineFree(ls[k])
    {
      NotContainsChar(ls[k], '\n');
    }
  }

  /**
   * Marking keeps the line structure: the lines of the result are the lines of the content,
   * in order, code lines wrapped in backticks and the others unchanged.
   */
  lemma MarkCodeLinesByLine(content: string)
    ensures |Split(MarkCodeLines(content), "\n")| == |Split(content, "\n")|
    ensures forall k :: 0 <= k < |Split(content, "\n")| ==>
      var l := Split(content, "\n")[k];
      Split(MarkCodeLines(content), "\n")[k] == if IsCodeLine(l) then "`" + l + "`" else l
  {
    var ls := Split(content, "\n");
    var ms := seq(|ls|, k requires 0 <= k < |ls| => MarkCode(ls[k]));
    SplitLinesNewlineFree(content);
    forall i, k | 0 <= i < |ms| && 0 <= k < |ms[i]|
      ensures ms[i][k] != '\n'
    {
      if IsCodeLine(ls[i]) {
        assert ms[i] == "`" + ls[i] + "`";
        if 0 < k < |ms[i]| - 1 {
          assert ms[i][k] == ls[i][k - 1];
        }
      }
    }
    SplitJoinChar(ms, '\n');
  }

  // ---------------------------------------------------------------------------------------
  // The merge pass: wrapped lines joined back into paragraphs

  /** `re.match(r'^[A-Z•·▪▫○●#\-\d]', line)`: the line opens a new block. */
  predicate StartsBlock(line: string)
  {
    line != [] &&
    var c := line[0];
    ('A' <= c <= 'Z') || c == '•' || c == '·' || c == '▪' || c == '▫' || c == '○' || c == '●'
    || c == '#' || c == '-' || IsDigit(c)
  }

  /** `cur.endswith(('.', '!', '?', ':'))`. */
  predicate EndsSentence(cur: string)
  {
    cur != [] && (cur[|cur| - 1] == '.' || cur[|cur| - 1] == '!' || cur[|cur| - 1] == '?' || cur[|cur| - 1] == ':')
  }

  /** The loop state: the finished entries and the paragraph being built. */
  datatype MergeState = MergeState(merged: seq<string>, cur: string)

  /** `if cur: merged.append(cur)`. */
  function Flush(st: MergeState): seq<string>
  {
    if st.cur != [] then st.merged + [st.cur] else st.merged
  }

  /** One turn of the merge loop on a raw line. */
  function MergeStep(st: MergeState, raw: string): MergeState
  {
    var line := Strip(raw);
    if line == [] then MergeState(Flush(st) + [""], "")
    else if st.cur != [] && !StartsBlock(line) && !EndsSentence(st.cur) then MergeState(st.merged, st.cur + " " + line)
    else MergeState(Flush(st), line)
  }

  function MergePass(lines: seq<string>): MergeState
  {
    if lines == [] then MergeState([], "")
    else MergeStep(MergePass(lines[..|lines| - 1]), lines[|lines| - 1])
  }

  /** Lines 103-114: the merge loop, then the last paragraph. */
  method MergeLines(lines: seq<string>) returns (merged: seq<string>)
    ensures merged == Flush(MergePass(lines))
  {
    merged := [];
    var cur := "";
    var i := 0;
    while i < |lines|
      invariant 0 <= i <= |lines|
      invariant MergeState(merged, cur) == MergePass(lines[..i])
    {
      assert lines[..i + 1][..i] == lines[..i];
      var line := Strip(lines[i]);
      if line == [] {
        if cur != [] {
          merged := merged + [cur];
          cur := "";
        }
        merged := merged + [""];
      } else if cur != [] && !StartsBlock(line) && !EndsSentence(cur) {
        cur := cur + " " + line;
      } else {
        if cur != [] {
          merged := merged + [cur];
        }
        cur := line;
      }
      i := i + 1;
    }
    assert lines[..i] == lines;
    if cur != [] {
      merged := merged + [cur];
    }
  }

  /** The non-empty entries, in order. */
  function NonEmpty(ls: seq<string>): seq<string>
  {
    if ls == [] then [] else NonEmpty(ls[..|ls| - 1]) + (if ls[|ls| - 1] == [] then [] else [ls[|ls| - 1]])
  }

  function EmptyCount(ls: seq<string>): nat
  {
    if ls == [] then 0 else EmptyCount(ls[..|ls| - 1]) + (if ls[|ls| - 1] == [] then 1 else 0)
  }

  /** The non-blank lines, stripped, in order. */
  function NonBlank(lines: seq<string>): seq<string>
  {
    if lines == [] then []
    else NonBlank(lines[..|lines| - 1]) + (if Strip(lines[|lines| - 1]) == [] then [] else [Strip(lines[|lines| - 1])])
  }

  function BlankCount(lines: seq<string>): nat
  {
    if lines == [] then 0 else BlankCount(lines[..|lines| - 1]) + (if Strip(lines[|lines| - 1]) == [] then 1 else 0)
  }

  lemma NonEmptySnoc(ls: seq<string>, x: string)
    ensures NonEmpty(ls + [x]) == NonEmpty(ls) + (if x == [] then [] else [x])
    ensures EmptyCount(ls + [x]) == EmptyCount(ls) + (if x == [] then 1 else 0)
  {
    assert (ls + [x])[..|ls|] == ls;
  }

  /** What the merge loop keeps true: its entries carry the words and the blank lines read so far. */
  predicate MergeKeeps(st: MergeState, words: seq<string>, blanks: nat)
  {
    Join(NonEmpty(Flush(st)), " ") == Join(words, " ")
    && (NonEmpty(Flush(st)) == [] <==> words == [])
    && EmptyCount(Flush(st)) == blanks
  }

  lemma MergeStepKeeps(st: MergeState, words: seq<string>, blanks: nat, raw: string)
    requires MergeKeeps(st, words, blanks)
    ensures Strip(raw) == [] ==> MergeKeeps(MergeStep(st, raw), words, blanks + 1)
    ensures Strip(raw) != [] ==> MergeKeeps(MergeStep(st, raw), words + [Strip(raw)], blanks)
  {
    var line := Strip(raw);
    if line == [] {
      assert Flush(MergeStep(st, raw)) == Flush(st) + [""];
      NonEmptySnoc(Flush(st), "");
      assert NonEmpty(Flush(st) + [""]) == NonEmpty(Flush(st));
    } else if st.cur != [] && !StartsBlock(line) && !EndsSentence(st.cur) {
      MergeIntoKeeps(st, words, blanks, line);
    } else {
      NewEntryKeeps(st, words, blanks, line);
    }
  }

  /** A line joined onto the paragraph being built. */
  lemma MergeIntoKeeps(st: MergeState, words: seq<string>, blanks: nat, line: string)
    requires MergeKeeps(st, words, blanks) && st.cur != [] && line != []
    ensures MergeKeeps(MergeState(st.merged, st.cur + " " + line), words + [line], blanks)
  {
    MergeIntoShape(st, line);
    MergeIntoJoin(NonEmpty(st.merged), st.cur, line, words, " ");
  }

  lemma MergeIntoShape(st: MergeState, line: string)
    requires st.cur != []
    ensures var st' := MergeState(st.merged, st.cur + " " + line);
      && NonEmpty(Flush(st)) == NonEmpty(st.merged) + [st.cur]
      && NonEmpty(Flush(st')) == NonEmpty(st.merged) + [st.cur + " " + line]
      && EmptyCount(Flush(st')) == EmptyCount(Flush(st))
  {
    NonEmptySnoc(st.merged, st.cur);
    NonEmptySnoc(st.merged, st.cur + " " + line);
  }

  lemma MergeIntoJoin(front: seq<string>, c: string, line: string, words: seq<string>, sep: string)
    requires Join(front + [c], sep) == Join(words, sep) && words != []
    ensures Join(front + [c + sep + line], sep) == Join(words + [line], sep)
  {
    JoinSnoc(words, line, sep);
    JoinSnoc(front, c, sep);
    JoinSnoc(front, c + sep + line, sep);
    if front != [] {
      var j := Join(front, sep);
      assert Join(words + [line], sep) == j + sep + c + sep + line;
      assert j + sep + c + sep + line == j + sep + (c + sep + line);
    }
  }

  /** A line that starts a new paragraph. */
  lemma NewEntryKeeps(st: MergeState, words: seq<string>, blanks: nat, line: string)
    requires MergeKeeps(st, words, blanks) && line != []
    ensures MergeKeeps(MergeState(Flush(st), line), words + [line], blanks)
  {
    NonEmptySnoc(Flush(st), line);
    JoinSnoc(NonEmpty(Flush(st)), line, " ");
    JoinSnoc(words, line, " ");
  }

  /**
   * Merging only moves line breaks: the entries that are not empty, joined with spaces, give
   * the non-blank lines joined with spaces, and each blank line leaves exactly one empty entry.
   */
  lemma {:induction false} MergeKeepsText(lines: seq<string>)
    ensures Join(NonEmpty(Flush(MergePass(lines))), " ") == Join(NonBlank(lines), " ")
    ensures EmptyCount(Flush(MergePass(lines))) == BlankCount(lines)
  {
    MergePassKeeps(lines);
  }

  lemma {:induction false} MergePassKeeps(lines: seq<string>)
    ensures MergeKeeps(MergePass(lines), NonBlank(lines), BlankCount(lines))
  {
    if lines != [] {
      var init := lines[..|lines| - 1];
      var raw := lines[|lines| - 1];
      MergePassKeeps(init);
      MergeStepKeeps(MergePass(init), NonBlank(init), BlankCount(init), raw);
      if Strip(raw) == [] {
        assert NonBlank(lines) == NonBlank(init);
      } else {
        assert NonBlank(lines) == NonBlank(init) + [Strip(raw)];
      }
    }
  }

  // ---------------------------------------------------------------------------------------
  // Truncation and the whole clean-up

  const MaxLength := 5000
  const MaxParagraphs := 10

  /** Line 117: content over 5000 characters keeps only its first ten paragraphs. */
  function Truncate(content: string): string
  {
    if |content| > MaxLength then
      var ps := Split(content, "\n\n");
      Join(ps[..if |ps| < MaxParagraphs then |ps| else MaxParagraphs], "\n\n")
    else content
  }

  /**
   * Truncation only cuts off the end: the result is a prefix of the content, and it is the
   * whole content when that is short or has at most ten paragraphs.
   */
  lemma TruncateKeepsPrefix(content: string)
    ensures StartsWith(content, Truncate(content))
    ensures |content| <= MaxLength || |Split(content, "\n\n")| <= MaxParagraphs ==> Truncate(content) == content
  {
    if |content| > MaxLength {
      var ps := Split(content, "\n\n");
      var n := if |ps| < MaxParagraphs then |ps| else MaxParagraphs;
      JoinSplitPrefix(content, "\n\n", n);
      if |ps| <= MaxParagraphs {
        assert ps[..n] == ps;
        JoinSplit(content, "\n\n");
      }
    }
  }

  /** `_clean_and_format_content`, step by step; `unescape` stands for `html.unescape`. */
  function CleanAndFormat(content: string, title: string, unescape: string -> string): string
  {
    if content == [] then []
    else
      var text := Strip(CollapseNewlines(CollapseBlanks(unescape(content))));
      var listed := Join(RenderAll(ListPass(Split(text, "\n")).out), "\n");
      var marked := MarkCodeLines(QuoteIndented(WithTitle(listed, title)));
      Truncate(CollapseNewlines(Strip(Join(Flush(MergePass(Split(marked, "\n"))), "\n"))))
  }

  /** Lines 75-117: the clean-up, running the list loop and the merge loop. */
  method CleanAndFormatContent(content: string, title: string, unescape: string -> string) returns (result: string)
    ensures result == CleanAndFormat(content, title, unescape)
  {
    if content == [] {
      return "";
    }
    var text := Strip(CollapseNewlines(CollapseBlanks(unescape(content))));
    var formatted := FormatLines(Split(text, "\n"));
    var titled := WithTitle(Join(formatted, "\n"), title);
    var marked := MarkCodeLines(QuoteIndented(titled));
    var merged := MergeLines(Split(marked, "\n"));
    result := Truncate(CollapseNewlines(Strip(Join(merged, "\n"))));
  }

  /** No three newlines in a row: at most one blank line between paragraphs. */
  predicate NoTripleNewline(s: string)
  {
    forall k :: 1 < k < |s| ==> !(s[k - 2] == '\n' && s[k - 1] == '\n' && s[k] == '\n')
  }

  /** Whatever the page text, the cleaned text never holds two blank lines in a row. */
  lemma CleanedHasNoBlankRuns(content: string, title: string, unescape: string -> string)
    ensures NoTripleNewline(CleanAndFormat(content, title, unescape))
  {
    if content != [] {
      var text := Strip(CollapseNewlines(CollapseBlanks(unescape(content))));
      var listed := Join(RenderAll(ListPass(Split(text, "\n")).out), "\n");
      var marked := MarkCodeLines(QuoteIndented(WithTitle(listed, title)));
      var stripped := Strip(Join(Flush(MergePass(Split(marked, "\n"))), "\n"));
      CollapseNewlinesShape(stripped);
      TruncateNoTriple(CollapseNewlines(stripped));
    }
  }

  /** Cutting off the end keeps a text free of two blank lines in a row. */
  lemma TruncateNoTriple(s: string)
    requires NoTripleNewline(s)
    ensures NoTripleNewline(Truncate(s))
  {
    TruncateKeepsPrefix(s);
    var r := Truncate(s);
    assert forall k :: 0 <= k < |r| ==> r[k] == s[k];
  }

  /** When the title has no newline in it, the rewrite of indented lines leaves the text unchanged. */
  lemma QuoteIdleOnCleanText(content: string, title: string, unescape: string -> string)
    requires content != [] && NewlineFree(title)
    ensures var text := Strip(CollapseNewlines(CollapseBlanks(unescape(content))));
      var titled := WithTitle(Join(RenderAll(ListPass(Split(text, "\n")).out), "\n"), title);
      QuoteIndented(titled) == titled
  {
    var text := Strip(CollapseNewlines(CollapseBlanks(unescape(content))));
    SplitLinesNewlineFree(text);
    QuoteNeverFires(Split(text, "\n"), title);
  }
}
