/**
 * The generation service: the `<think>` filter over a streamed reply, collecting a reply, the
 * check-and-retry loop, the per-leaf content walk over an outline, the chapter context text,
 * the chat-model filter and the level-1 fan-out of outline generation.
 *
 * The language model is an oracle. A reply is the stream it would produce: a sequence of chunk
 * contents (`None` for a chunk without choices or without content) and, possibly, the error that
 * ended it.
 */
module OpenAIService {
  import opened Wrappers
  import opened Strings
  import opened Outline
  import opened JsonUtil
  import opened OutlineUtil

  // ---------------------------------------------------------------------------------------------
  // The <think> filter of stream_chat_completion

  /** A piece to yield, unless it is empty (`if parts[0]: yield parts[0]`). */
  function NonEmpty(s: string): (r: seq<string>)
  {
    if s != "" then [s] else []
  }

  /**
   * One chunk through the filter as written: the new `is_thinking` flag and what the chunk
   * yields. A chunk with `<think>` yields its text before the first `<think>`; a chunk with
   * `</think>` yields the second piece of its split on `</think>`; any other chunk passes
   * through unless a think block is open.
   */
  function ThinkStep(thinking: bool, content: string): (r: (bool, seq<string>))
    ensures |r.1| <= 1
  {
    if Contains(content, "<think>") then
      var parts := Split(content, "<think>");
      (true, NonEmpty(parts[0]))
    else if Contains(content, "</think>") then
      var parts := Split(content, "</think>");
      (false, if |parts| > 1 then NonEmpty(parts[1]) else [])
    else if !thinking then (false, [content])
    else (true, [])
  }

  /** No piece the step yields contains `<think>`. */
  lemma ThinkStepHidesOpenTag(thinking: bool, content: string)
    ensures forall k :: 0 <= k < |ThinkStep(thinking, content).1| ==> !Contains(ThinkStep(thinking, content).1[k], "<think>")
  {
    if Contains(content, "<think>") {
      SplitPiecesFree(content, "<think>");
    } else if Contains(content, "</think>") {
      SplitPiecesAvoid(content, "</think>", "<think>");
    }
  }

  /**
   * A chunk with `<think>` opens a think block and yields exactly its text before the first
   * `<think>`, when that text is non-empty.
   */
  lemma ThinkStepOpening(thinking: bool, content: string)
    requires Contains(content, "<think>")
    ensures var p := FindFrom(content, "<think>", 0).value;
      ThinkStep(thinking, content) == (true, NonEmpty(content[..p]))
  {
  }

  /**
   * A chunk with `</think>` and no `<think>` closes the block and yields the text after the
   * first `</think>` up to the next `</think>` (the whole rest when there is no other), when
   * that text is non-empty.
   */
  lemma ThinkStepClosing(thinking: bool, content: string)
    requires !Contains(content, "<think>") && Contains(content, "</think>")
    ensures var p := FindFrom(content, "</think>", 0).value;
      var rest := content[p + 8..];
      ThinkStep(thinking, content) == (false, NonEmpty(
        match FindFrom(rest, "</think>", 0)
        case None => rest
        case Some(q) => rest[..q]))
  {
    var p := FindFrom(content, "</think>", 0).value;
    var rest := content[p + 8..];
    assert Split(content, "</think>") == [content[..p]] + Split(rest, "</think>");
  }

  /** A chunk with neither tag yields nothing while a block is open, and itself otherwise. */
  lemma ThinkStepPlain(thinking: bool, content: string)
    requires !Contains(content, "<think>") && !Contains(content, "</think>")
    ensures ThinkStep(thinking, content) == (thinking, if thinking then [] else [content])
  {
  }

  /**
   * One chunk through the corrected filter: a chunk holding a whole `<think>…</think>` block
   * yields its text before the block and continues after the block as a chunk of its own.
   * Every other chunk is filtered as written.
   */
  function ThinkStepFixed(thinking: bool, content: string): (r: (bool, seq<string>))
  {
    match FindFrom(content, "<think>", 0)
    case None => ThinkStep(thinking, content)
    case Some(p) =>
      var rest := content[p + 7..];
      match FindFrom(rest, "</think>", 0)
      case None => (true, NonEmpty(content[..p]))
      case Some(q) =>
        var tail := rest[q + 8..];
        var after := if tail == "" then (false, []) else ThinkStep(false, tail);
        (after.0, NonEmpty(content[..p]) + after.1)
  }

  /** The correction changes nothing for a chunk that does not hold a whole think block. */
  lemma ThinkStepFixedAgrees(thinking: bool, content: string)
    requires match FindFrom(content, "<think>", 0)
      case None => true
      case Some(p) => !Contains(content[p + 7..], "</think>")
    ensures ThinkStepFixed(thinking, content) == ThinkStep(thinking, content)
  {
  }

  /** The corrected step yields no piece containing `<think>` either. */
  lemma ThinkStepFixedHidesOpenTag(thinking: bool, content: string)
    ensures forall k :: 0 <= k < |ThinkStepFixed(thinking, content).1| ==>
      !Contains(ThinkStepFixed(thinking, content).1[k], "<think>")
  {
    match FindFrom(content, "<think>", 0)
    case None =>
      ThinkStepHidesOpenTag(thinking, content);
    case Some(p) =>
      var rest := content[p + 7..];
      var head := content[..p];
      assert !Contains(head, "<think>") by {
        if Contains(head, "<think>") {
          var j := FindFrom(head, "<think>", 0).value;
          OccursInSlice(content, "<think>", 0, p, j);
        }
      }
      match FindFrom(rest, "</think>", 0)
      case None =>
      case Some(q) =>
        ThinkStepHidesOpenTag(false, rest[q + 8..]);
  }

  /**
   * A chunk holding a whole think block whose remainder opens no new block leaves the filter
   * outside any block.
   */
  lemma ThinkStepFixedClosesBlock(thinking: bool, content: string, p: nat, q: nat)
    requires FindFrom(content, "<think>", 0) == Some(p)
    requires FindFrom(content[p + 7..], "</think>", 0) == Some(q)
    requires !Contains(content[p + 7..][q + 8..], "<think>")
    ensures !ThinkStepFixed(thinking, content).0
  {
    var tail := content[p + 7..][q + 8..];
    ThinkStepFixedAfterBlock(thinking, content, p, q);
    if tail != "" {
      ThinkStepOutside(tail);
    }
  }

  /** After a whole think block, the corrected step goes on from outside any block with what follows it. */
  lemma ThinkStepFixedAfterBlock(thinking: bool, content: string, p: nat, q: nat)
    requires FindFrom(content, "<think>", 0) == Some(p)
    requires FindFrom(content[p + 7..], "</think>", 0) == Some(q)
    ensures var tail := content[p + 7..][q + 8..];
      ThinkStepFixed(thinking, content).0 == (tail != "" && ThinkStep(false, tail).0)
  {
  }

  /** A chunk that ends with a whole think block yields its text before the block and leaves the filter outside. */
  lemma ThinkStepFixedWholeBlock(thinking: bool, content: string, p: nat, q: nat)
    requires FindFrom(content, "<think>", 0) == Some(p)
    requires FindFrom(content[p + 7..], "</think>", 0) == Some(q)
    requires content[p + 7..][q + 8..] == ""
    ensures ThinkStepFixed(thinking, content) == (false, NonEmpty(content[..p]))
  {
    assert NonEmpty(content[..p]) + [] == NonEmpty(content[..p]);
  }

  /** Outside a block, a chunk without `<think>` leaves the filter outside. */
  lemma ThinkStepOutside(content: string)
    requires !Contains(content, "<think>")
    ensures !ThinkStep(false, content).0
  {
  }

  /** The filter as written over a chunk sequence, starting in state `thinking`. */
  function FilterAsWritten(thinking: bool, chunks: seq<Option<string>>): seq<string>
    decreases |chunks|
  {
    if chunks == [] then []
    else match chunks[0]
      case None => FilterAsWritten(thinking, chunks[1..])
      case Some(c) =>
        var step := ThinkStep(thinking, c);
        step.1 + FilterAsWritten(step.0, chunks[1..])
  }

  /** The corrected filter over a chunk sequence, starting in state `thinking`. */
  function Filtered(thinking: bool, chunks: seq<Option<string>>): seq<string>
    decreases |chunks|
  {
    if chunks == [] then []
    else match chunks[0]
      case None => Filtered(thinking, chunks[1..])
      case Some(c) =>
        var step := ThinkStepFixed(thinking, c);
        step.1 + Filtered(step.0, chunks[1..])
  }

  /** A chunk that holds a whole think block. */
  predicate HoldsBlock(c: string)
  {
    match FindFrom(c, "<think>", 0)
    case None => false
    case Some(p) => Contains(c[p + 7..], "</think>")
  }

  /** On streams where no chunk holds a whole think block, the two filters agree. */
  lemma {:induction false} FilteredAgrees(thinking: bool, chunks: seq<Option<string>>)
    requires forall k :: 0 <= k < |chunks| && chunks[k].Some? ==> !HoldsBlock(chunks[k].value)
    ensures Filtered(thinking, chunks) == FilterAsWritten(thinking, chunks)
    decreases |chunks|
  {
    if chunks != [] {
      if chunks[0].Some? {
        ThinkStepFixedAgrees(thinking, chunks[0].value);
        FilteredAgrees(ThinkStepFixed(thinking, chunks[0].value).0, chunks[1..]);
      } else {
        FilteredAgrees(thinking, chunks[1..]);
      }
    }
  }

  /** No piece the filter yields contains `<think>`. */
  lemma {:induction false} FilteredHidesOpenTag(thinking: bool, chunks: seq<Option<string>>)
    ensures forall k :: 0 <= k < |Filtered(thinking, chunks)| ==> !Contains(Filtered(thinking, chunks)[k], "<think>")
    decreases |chunks|
  {
    if chunks != [] {
      match chunks[0]
      case None =>
        FilteredHidesOpenTag(thinking, chunks[1..]);
      case Some(c) =>
        ThinkStepFixedHidesOpenTag(thinking, c);
        FilteredHidesOpenTag(ThinkStepFixed(thinking, c).0, chunks[1..]);
    }
  }

  /** A stream chunk without either tag. */
  predicate Untagged(c: Option<string>)
  {
    c.None? || (!Contains(c.value, "<think>") && !Contains(c.value, "</think>"))
  }

  /** The contents of the chunks that carry one, in order. */
  function Contents(chunks: seq<Option<string>>): (r: seq<string>)
    ensures |r| <= |chunks|
  {
    if chunks == [] then []
    else (if chunks[0].Some? then [chunks[0].value] else []) + Contents(chunks[1..])
  }

  /**
   * While a think block is open, untagged chunks yield nothing; outside a block they pass
   * through unchanged and in order.
   */
  lemma {:induction false} FilteredUntagged(thinking: bool, chunks: seq<Option<string>>)
    requires forall k :: 0 <= k < |chunks| ==> Untagged(chunks[k])
    ensures Filtered(thinking, chunks) == if thinking then [] else Contents(chunks)
    decreases |chunks|
  {
    if chunks != [] {
      FilteredUntagged(thinking, chunks[1..]);
      if chunks[0].Some? {
        ThinkStepPlain(thinking, chunks[0].value);
      }
    }
  }

  /**
   * The as-written filter loses the answer after a chunk that holds a whole think block: the
   * flag stays set, and the following chunk is swallowed.
   */
  lemma WholeBlockChunkSwallowsAnswer()
    ensures FilterAsWritten(false, [Some("<think>r</think>"), Some("Answer")]) == []
  {
    var block, answer := "<think>r</think>", "Answer";
    WholeBlockChunk(block, answer);
    ThinkStepOpening(false, block);
    ThinkStepPlain(true, answer);
    var chunks := [Some(block), Some(answer)];
    assert chunks[1..] == [Some(answer)] && chunks[1..][1..] == [];
  }

  /** The corrected filter keeps the answer after a chunk that holds a whole think block. */
  lemma WholeBlockChunkKeepsAnswer()
    ensures Filtered(false, [Some("<think>r</think>"), Some("Answer")]) == ["Answer"]
  {
    var block, answer := "<think>r</think>", "Answer";
    WholeBlockChunk(block, answer);
    ThinkStepPlain(false, answer);
    ThinkStepFixedWholeBlock(false, block, 0, 1);
    assert block[..0] == [];
    var chunks := [Some(block), Some(answer)];
    assert chunks[1..] == [Some(answer)] && chunks[1..][1..] == [];
  }

  /** Where the tags are in the two chunks of the example. */
  lemma WholeBlockChunk(block: string, answer: string)
    requires block == "<think>r</think>" && answer == "Answer"
    ensures FindFrom(block, "<think>", 0) == Some(0) && Contains(block, "<think>")
    ensures FindFrom(block[7..], "</think>", 0) == Some(1) && block[7..][9..] == ""
    ensures !Contains(answer, "<think>") && !Contains(answer, "</think>")
    ensures FindFrom(answer, "<think>", 0).None?
  {
    assert block[0..7] == "<think>";
    assert block[7..] == "r</think>";
    assert block[7..][0] == 'r';
    assert block[7..][1..9] == "</think>";
    assert FindFrom(answer, "<think>", 0).None?;
    assert FindFrom(answer, "</think>", 0).None?;
  }

  /**
   * The filter loop of `stream_chat_completion`: one pass over the chunks with the
   * `is_thinking` flag, yielding what the (corrected) step yields.
   */
  method FilterStream(chunks: seq<Option<string>>) returns (out: seq<string>)
    ensures out == Filtered(false, chunks)
  {
    var thinking := false;
    out := [];
    var i := 0;
    while i < |chunks|
      invariant 0 <= i <= |chunks|
      invariant out + Filtered(thinking, chunks[i..]) == Filtered(false, chunks)
    {
      assert chunks[i..][0] == chunks[i] && chunks[i..][1..] == chunks[i + 1..];
      match chunks[i] {
        case None =>
        case Some(content) =>
          var step := ThinkStepFixed(thinking, content);
          out := out + step.1;
          thinking := step.0;
      }
      i := i + 1;
    }
  }

  // ---------------------------------------------------------------------------------------------
  // A whole reply: the stream, and what happens when opening or reading it fails

  datatype Stream = Stream(chunks: seq<Option<string>>, failure: Option<string>)

  const ErrorPrefix := "错误: "

  /** The one error message yielded when the stream fails, chosen from the error text. */
  function FailureMessage(error: string): (m: string)
    ensures StartsWith(m, ErrorPrefix)
    ensures Contains(error, "502 Bad Gateway") ==> m == GatewayMessage
    ensures !Contains(error, "502 Bad Gateway") && Contains(Lower(error), "rate limit") ==> m == RateLimitMessage
    ensures !Contains(error, "502 Bad Gateway") && !Contains(Lower(error), "rate limit") ==> m[|ErrorPrefix|..] == error
  {
    if Contains(error, "502 Bad Gateway") then GatewayMessage
    else if Contains(Lower(error), "rate limit") then RateLimitMessage
    else ErrorPrefix + error
  }

  const GatewayMessage := ErrorPrefix + "AI 服务提供商网关超时 (502 Bad Gateway)。这通常是因为请求过多或提供商负载过高，请稍后重试或尝试降低并发生成数量。"
  const RateLimitMessage := ErrorPrefix + "触发 AI 服务频率限制。请稍后重试。"

  /** What `stream_chat_completion` yields for a stream: the filtered chunks, then one error message if it failed. */
  function StreamChat(s: Stream): (r: seq<string>)
  {
    Filtered(false, s.chunks) + (if s.failure.Some? then [FailureMessage(s.failure.value)] else [])
  }

  /** A stream that cannot be opened yields exactly one message, and it starts with `错误: `. */
  lemma OpenFailureYieldsOneError(error: string)
    ensures StreamChat(Stream([], Some(error))) == [FailureMessage(error)]
    ensures StartsWith(StreamChat(Stream([], Some(error)))[0], ErrorPrefix)
  {
  }

  /** A stream that ends without error yields only filtered text: no `<think>` in any piece. */
  lemma StreamChatHidesOpenTag(s: Stream)
    requires s.failure.None?
    ensures forall k :: 0 <= k < |StreamChat(s)| ==> !Contains(StreamChat(s)[k], "<think>")
  {
    FilteredHidesOpenTag(false, s.chunks);
    assert StreamChat(s) == Filtered(false, s.chunks);
  }

  /** `_collect_stream_text`: the pieces appended one after the other. */
  method CollectStreamText(pieces: seq<string>) returns (text: string)
    ensures text == Concat(pieces)
  {
    text := "";
    var i := 0;
    while i < |pieces|
      invariant 0 <= i <= |pieces|
      invariant text == Concat(pieces[..i])
    {
      assert pieces[..i + 1][..i] == pieces[..i];
      text := text + pieces[i];
      i := i + 1;
    }
    assert pieces[..|pieces|] == pieces;
  }

  /** The text `_collect_stream_text` returns for a stream. */
  function Reply(s: Stream): string
  {
    Concat(StreamChat(s))
  }

  /** A reply of a stream that failed to open is its error message alone. */
  lemma ReplyOfOpenFailure(error: string)
    ensures Reply(Stream([], Some(error))) == FailureMessage(error)
  {
    var m := FailureMessage(error);
    OpenFailureYieldsOneError(error);
    assert [m][..0] == [];
    assert Concat([m]) == Concat([]) + m;
  }

  // ---------------------------------------------------------------------------------------------
  // _generate_with_json_check

  /** The number of attempts the loop makes at most: the first one plus `max_retries` retries. */
  function AttemptLimit(maxRetries: int): (n: nat)
    ensures n >= 1
  {
    if maxRetries < 0 then 1 else maxRetries + 1
  }

  /** The check `_generate_with_json_check` applies to a reply: `check_json` against the schema. */
  function JsonVerdict(schema: Schema, parse: string -> Result<Json, string>): string -> (bool, string)
  {
    t => CheckJson(t, schema, parse)
  }

  /** The exception text after the last failed attempt. */
  function RetryFailure(logPrefix: string, error: string): string
  {
    (if logPrefix != "" then logPrefix + " " else "") + "check_json 校验失败: " + error
  }

  /**
   * The retry loop of `_generate_with_json_check` for any reply check: attempt `k` reads reply
   * `streams[k]`. The first reply the check accepts is returned; after `max_retries` failed
   * retries the last reply is returned, or its check error raised when `raise_on_fail` is set.
   */
  method RetryUntilValid(streams: seq<Stream>, check: string -> (bool, string),
                         maxRetries: int, logPrefix: string, raiseOnFail: bool)
    returns (r: Result<string, string>, attempts: nat)
    requires |streams| >= AttemptLimit(maxRetries)
    ensures 1 <= attempts <= AttemptLimit(maxRetries)
    ensures forall k :: 0 <= k < attempts - 1 ==> !check(Reply(streams[k])).0
    ensures check(Reply(streams[attempts - 1])).0 ==> r == Ok(Reply(streams[attempts - 1]))
    ensures !check(Reply(streams[attempts - 1])).0 ==>
      && attempts == AttemptLimit(maxRetries)
      && r == if raiseOnFail
              then Err(RetryFailure(logPrefix, check(Reply(streams[attempts - 1])).1))
              else Ok(Reply(streams[attempts - 1]))
  {
    var attempt := 0;
    while true
      invariant attempt < AttemptLimit(maxRetries)
      invariant forall k :: 0 <= k < attempt ==> !check(Reply(streams[k])).0
      decreases AttemptLimit(maxRetries) - attempt
    {
      var text := CollectStreamText(StreamChat(streams[attempt]));
      var verdict := check(text);
      if verdict.0 {
        return Ok(text), attempt + 1;
      }
      if attempt >= maxRetries {
        if raiseOnFail {
          return Err(RetryFailure(logPrefix, verdict.1)), attempt + 1;
        }
        return Ok(text), attempt + 1;
      }
      attempt := attempt + 1;
    }
  }

  /**
   * `_generate_with_json_check`: the retry loop with `check_json` against the schema as the
   * check. The first reply that passes is returned; after `max_retries` failed retries the last
   * reply is returned, or its check error raised when `raise_on_fail` is set.
   */
  method GenerateWithJsonCheck(streams: seq<Stream>, schema: Schema, parse: string -> Result<Json, string>,
                               maxRetries: int, logPrefix: string, raiseOnFail: bool)
    returns (r: Result<string, string>, attempts: nat)
    requires |streams| >= AttemptLimit(maxRetries)
    ensures 1 <= attempts <= AttemptLimit(maxRetries)
    ensures forall k :: 0 <= k < attempts - 1 ==> !JsonVerdict(schema, parse)(Reply(streams[k])).0
    ensures JsonVerdict(schema, parse)(Reply(streams[attempts - 1])).0 ==> r == Ok(Reply(streams[attempts - 1]))
    ensures !JsonVerdict(schema, parse)(Reply(streams[attempts - 1])).0 ==>
      && attempts == AttemptLimit(maxRetries)
      && r == if raiseOnFail
              then Err(RetryFailure(logPrefix, JsonVerdict(schema, parse)(Reply(streams[attempts - 1])).1))
              else Ok(Reply(streams[attempts - 1]))
  {
    r, attempts := RetryUntilValid(streams, JsonVerdict(schema, parse), maxRetries, logPrefix, raiseOnFail);
  }

  // ---------------------------------------------------------------------------------------------
  // generate_content_for_outline / _process_outline_recursive

  /** What the generator is asked for one leaf: the leaf, its ancestors (root first) and its whole level. */
  datatype LeafRequest = LeafRequest(chapter: ChapterInfo, parents: seq<ChapterInfo>, siblings: seq<ChapterInfo>)

  function RequestFor(p: Placed): LeafRequest
  {
    LeafRequest(Info(p.node), p.ancestors, p.level)
  }

  /** The chapters after the walk, and the leaf requests in the order they were made. */
  datatype Processed = Processed(chapters: seq<Node>, requests: seq<LeafRequest>)

  /** A leaf: ask for its text, and store it as `content` only when it is non-empty. */
  function ProcessLeaf(chapter: Node, parents: seq<ChapterInfo>, level: seq<ChapterInfo>,
                       llm: LeafRequest -> Stream): (r: Processed)
    ensures |r.chapters| == 1
  {
    var request := LeafRequest(Info(chapter), parents, level);
    var text := Reply(llm(request));
    Processed([if text != "" then chapter.(content := Some(text)) else chapter], [request])
  }

  /**
   * `_process_outline_recursive(chapters, parents)`: each chapter in turn; a leaf gets its
   * text, any other chapter has its children processed with itself appended to the parents.
   * `level` holds the summaries of `chapters` as the sibling list handed to each leaf.
   */
  function ProcessChapters(chapters: seq<Node>, parents: seq<ChapterInfo>, level: seq<ChapterInfo>,
                           llm: LeafRequest -> Stream): (r: Processed)
    ensures |r.chapters| == |chapters|
  {
    if chapters == [] then Processed([], [])
    else
      var chapter := chapters[0];
      var head :=
        match chapter.children
        case Absent => ProcessLeaf(chapter, parents, level, llm)
        case Present(kids) =>
          if kids == [] then ProcessLeaf(chapter, parents, level, llm)
          else
            var sub := ProcessChapters(kids, parents + [Info(chapter)], Infos(kids), llm);
            Processed([chapter.(children := Present(sub.chapters))], sub.requests);
      var tail := ProcessChapters(chapters[1..], parents, level, llm);
      Processed(head.chapters + tail.chapters, head.requests + tail.requests)
  }

  /** The walk keeps every chapter's id, title, description and leaf-ness. */
  lemma {:induction false} ProcessKeepsInfo(chapters: seq<Node>, parents: seq<ChapterInfo>, level: seq<ChapterInfo>,
                                            llm: LeafRequest -> Stream)
    ensures var out := ProcessChapters(chapters, parents, level, llm).chapters;
      Infos(out) == Infos(chapters) && forall k :: 0 <= k < |chapters| ==> IsLeaf(out[k]) == IsLeaf(chapters[k])
  {
    if chapters != [] {
      ProcessKeepsInfo(chapters[1..], parents, level, llm);
      var out := ProcessChapters(chapters, parents, level, llm).chapters;
      var tail := ProcessChapters(chapters[1..], parents, level, llm).chapters;
      assert out[1..] == tail;
      forall k | 0 <= k < |chapters|
        ensures Info(out[k]) == Info(chapters[k]) && IsLeaf(out[k]) == IsLeaf(chapters[k])
      {
        if k > 0 {
          assert out[k] == tail[k - 1] && chapters[k] == chapters[1..][k - 1];
        }
      }
    }
  }

  function RequestsFor(ps: seq<Placed>): (r: seq<LeafRequest>)
    ensures |r| == |ps| && forall k :: 0 <= k < |ps| ==> r[k] == RequestFor(ps[k])
  {
    seq(|ps|, k requires 0 <= k < |ps| => RequestFor(ps[k]))
  }

  lemma RequestsForAppend(a: seq<Placed>, b: seq<Placed>)
    ensures RequestsFor(a + b) == RequestsFor(a) + RequestsFor(b)
  {
  }

  /**
   * The walk asks for the leaves in pre-order, each with the summaries of its ancestors and
   * of all chapters at its own level.
   */
  lemma {:induction false} ProcessVisitsLeavesInPreorder(chapters: seq<Node>, parents: seq<ChapterInfo>,
                                                         level: seq<ChapterInfo>, llm: LeafRequest -> Stream)
    ensures ProcessChapters(chapters, parents, level, llm).requests == RequestsFor(Leaves(Preorder(chapters, parents, level)))
  {
    if chapters != [] {
      var n := chapters[0];
      var rest := Preorder(chapters[1..], parents, level);
      var sub := match n.children
        case Absent => []
        case Present(kids) => Preorder(kids, parents + [Info(n)], Infos(kids));
      var whole := Preorder(chapters, parents, level);
      assert whole == [Placed(n, parents, level)] + sub + rest;
      LeavesAppend([Placed(n, parents, level)] + sub, rest);
      LeavesAppend([Placed(n, parents, level)], sub);
      ProcessVisitsLeavesInPreorder(chapters[1..], parents, level, llm);
      var tailReqs := ProcessChapters(chapters[1..], parents, level, llm).requests;
      var leaves := Leaves(whole);
      if n.children.Present? && n.children.nodes != [] {
        var kids := n.children.nodes;
        ProcessVisitsLeavesInPreorder(kids, parents + [Info(n)], Infos(kids), llm);
        assert ProcessChapters(chapters, parents, level, llm).requests
            == ProcessChapters(kids, parents + [Info(n)], Infos(kids), llm).requests + tailReqs;
        assert Leaves([Placed(n, parents, level)]) == [];
        assert leaves == Leaves(sub) + Leaves(rest);
        RequestsForAppend(Leaves(sub), Leaves(rest));
      } else {
        assert sub == [];
        assert ProcessChapters(chapters, parents, level, llm).requests
            == ProcessLeaf(n, parents, level, llm).requests + tailReqs;
        assert ProcessLeaf(n, parents, level, llm).requests == RequestsFor([Placed(n, parents, level)]);
        assert Leaves([Placed(n, parents, level)]) == [Placed(n, parents, level)];
        assert leaves == [Placed(n, parents, level)] + Leaves(rest);
        RequestsForAppend([Placed(n, parents, level)], Leaves(rest));
      }
    }
  }

  /** What the walk changes at a placed chapter: its id, title, description, leaf-ness, content and position. */
  datatype Summary = Summary(info: ChapterInfo, leaf: bool, content: Option<string>,
                             ancestors: seq<ChapterInfo>, level: seq<ChapterInfo>)

  function Summarize(p: Placed): Summary
  {
    Summary(Info(p.node), IsLeaf(p.node), p.node.content, p.ancestors, p.level)
  }

  function Summaries(ps: seq<Placed>): (r: seq<Summary>)
    ensures |r| == |ps| && forall k :: 0 <= k < |ps| ==> r[k] == Summarize(ps[k])
  {
    seq(|ps|, k requires 0 <= k < |ps| => Summarize(ps[k]))
  }

  /** The summary a placed chapter should have afterwards: a leaf whose text is non-empty holds that text. */
  function Filled(p: Placed, llm: LeafRequest -> Stream): Summary
  {
    var text := Reply(llm(RequestFor(p)));
    if IsLeaf(p.node) && text != "" then Summarize(p).(content := Some(text)) else Summarize(p)
  }

  function FilledAll(ps: seq<Placed>, llm: LeafRequest -> Stream): (r: seq<Summary>)
    ensures |r| == |ps| && forall k :: 0 <= k < |ps| ==> r[k] == Filled(ps[k], llm)
  {
    seq(|ps|, k requires 0 <= k < |ps| => Filled(ps[k], llm))
  }

  lemma SummariesAppend(a: seq<Placed>, b: seq<Placed>, c: seq<Placed>)
    ensures Summaries(a + b + c) == Summaries(a) + Summaries(b) + Summaries(c)
  {
    SummariesAppend2(a, b);
    SummariesAppend2(a + b, c);
  }

  lemma SummariesAppend2(a: seq<Placed>, b: seq<Placed>)
    ensures Summaries(a + b) == Summaries(a) + Summaries(b)
  {
    var l, r := Summaries(a + b), Summaries(a) + Summaries(b);
    forall k | 0 <= k < |l|
      ensures l[k] == r[k]
    {
      if k < |a| {
        assert (a + b)[k] == a[k];
      } else {
        assert (a + b)[k] == b[k - |a|];
      }
    }
  }

  lemma FilledAllAppend(a: seq<Placed>, b: seq<Placed>, c: seq<Placed>, llm: LeafRequest -> Stream)
    ensures FilledAll(a + b + c, llm) == FilledAll(a, llm) + FilledAll(b, llm) + FilledAll(c, llm)
  {
    FilledAllAppend2(a, b, llm);
    FilledAllAppend2(a + b, c, llm);
  }

  lemma FilledAllAppend2(a: seq<Placed>, b: seq<Placed>, llm: LeafRequest -> Stream)
    ensures FilledAll(a + b, llm) == FilledAll(a, llm) + FilledAll(b, llm)
  {
    var l, r := FilledAll(a + b, llm), FilledAll(a, llm) + FilledAll(b, llm);
    forall k | 0 <= k < |l|
      ensures l[k] == r[k]
    {
      if k < |a| {
        assert (a + b)[k] == a[k];
      } else {
        assert (a + b)[k] == b[k - |a|];
      }
    }
  }

  /**
   * Chapter by chapter in pre-order, the walk leaves everything as it was except the content of
   * the leaves whose generated text is non-empty, which becomes that text.
   */
  lemma {:induction false} ProcessFillsLeaves(chapters: seq<Node>, parents: seq<ChapterInfo>,
                                              level: seq<ChapterInfo>, llm: LeafRequest -> Stream)
    ensures Summaries(Preorder(ProcessChapters(chapters, parents, level, llm).chapters, parents, level))
         == FilledAll(Preorder(chapters, parents, level), llm)
  {
    if chapters != [] {
      var n := chapters[0];
      var out := ProcessChapters(chapters, parents, level, llm).chapters;
      ProcessHead(chapters, parents, level, llm);
      ProcessFillsLeaves(chapters[1..], parents, level, llm);
      if !IsLeaf(n) {
        var kids := n.children.nodes;
        ProcessFillsLeaves(kids, parents + [Info(n)], Infos(kids), llm);
      }
      PreorderCons(chapters, parents, level);
      PreorderCons(out, parents, level);
      FillsGlue(Placed(n, parents, level), Below(n, parents), Preorder(chapters[1..], parents, level),
                Placed(out[0], parents, level), Below(out[0], parents), Preorder(out[1..], parents, level), llm);
    }
  }

  /**
   * The first chapter after the walk: the rest is the walk of the rest, its summary is the one
   * it should have, and below it are its processed children, placed as the originals were.
   */
  lemma ProcessHead(chapters: seq<Node>, parents: seq<ChapterInfo>, level: seq<ChapterInfo>, llm: LeafRequest -> Stream)
    requires chapters != []
    ensures var out := ProcessChapters(chapters, parents, level, llm).chapters;
      var n := chapters[0];
      && out[1..] == ProcessChapters(chapters[1..], parents, level, llm).chapters
      && Summarize(Placed(out[0], parents, level)) == Filled(Placed(n, parents, level), llm)
      && Below(out[0], parents)
         == (if IsLeaf(n) then []
             else Preorder(ProcessChapters(Kids(n), parents + [Info(n)], Infos(Kids(n)), llm).chapters,
                           parents + [Info(n)], Infos(Kids(n))))
  {
    var n := chapters[0];
    var out := ProcessChapters(chapters, parents, level, llm).chapters;
    assert out[1..] == ProcessChapters(chapters[1..], parents, level, llm).chapters;
    if !IsLeaf(n) {
      var kids := Kids(n);
      var kids' := ProcessChapters(kids, parents + [Info(n)], Infos(kids), llm).chapters;
      assert out[0] == n.(children := Present(kids'));
      ProcessKeepsInfo(kids, parents + [Info(n)], Infos(kids), llm);
      assert Infos(kids') == Infos(kids);
    }
  }

  /** The summaries of a chapter, the chapters below it and the rest, put together. */
  lemma FillsGlue(a: Placed, sub: seq<Placed>, rest: seq<Placed>, a': Placed, sub': seq<Placed>, rest': seq<Placed>,
                  llm: LeafRequest -> Stream)
    requires Summarize(a') == Filled(a, llm)
    requires Summaries(sub') == FilledAll(sub, llm) && Summaries(rest') == FilledAll(rest, llm)
    ensures Summaries([a'] + sub' + rest') == FilledAll([a] + sub + rest, llm)
  {
    SummariesAppend([a'], sub', rest');
    FilledAllAppend([a], sub, rest, llm);
    assert Summaries([a']) == FilledAll([a], llm);
  }

  /** The request body of `generate_content_for_outline`: anything but a dict with an `outline` key is refused. */
  datatype OutlinePayload = NotADict | OutlineDict(outline: Option<seq<Node>>)

  const InvalidOutlineError := "处理过程中发生错误: 无效的outline数据格式"

  /**
   * `generate_content_for_outline`: the processed copy of the outline. The payload is a value,
   * so the caller's outline is left as it was, as the deep copy guarantees.
   */
  function GenerateContentForOutline(payload: OutlinePayload, llm: LeafRequest -> Stream): (r: Result<OutlinePayload, string>)
    ensures r.Err? <==> payload.NotADict? || payload.outline.None?
    ensures r.Err? ==> r.error == InvalidOutlineError
    ensures r.Ok? ==> r.value.OutlineDict? && r.value.outline.Some? && |r.value.outline.value| == |payload.outline.value|
    ensures r.Ok? ==> Summaries(Walk(r.value.outline.value)) == FilledAll(Walk(payload.outline.value), llm)
  {
    if payload.NotADict? || payload.outline.None? then Err(InvalidOutlineError)
    else
      var outline := payload.outline.value;
      var out := ProcessChapters(outline, [], Infos(outline), llm).chapters;
      ProcessKeepsInfo(outline, [], Infos(outline), llm);
      ProcessFillsLeaves(outline, [], Infos(outline), llm);
      Ok(OutlineDict(Some(out)))
  }

  /** Each chapter a walk places has its own summary in its level list: a leaf's sibling list includes itself. */
  lemma {:induction false} PlacedInOwnLevel(nodes: seq<Node>, ancestors: seq<ChapterInfo>, level: seq<ChapterInfo>)
    requires forall k :: 0 <= k < |nodes| ==> Info(nodes[k]) in level
    ensures forall p :: p in Preorder(nodes, ancestors, level) ==> Info(p.node) in p.level
  {
    if nodes != [] {
      PlacedInOwnLevel(nodes[1..], ancestors, level);
      match nodes[0].children
      case Absent =>
      case Present(kids) =>
        PlacedInOwnLevel(kids, ancestors + [Info(nodes[0])], Infos(kids));
    }
  }

  // ---------------------------------------------------------------------------------------------
  // The chapter context of _generate_chapter_content

  /** One context line pair: `- {id} {title}` and the indented description. */
  function Entry(c: ChapterInfo): string
  {
    "- " + c.id + " " + c.title + "\n  " + c.description + "\n"
  }

  function Entries(cs: seq<ChapterInfo>): string
  {
    Concat(seq(|cs|, k requires 0 <= k < |cs| => Entry(cs[k])))
  }

  /** The siblings formatted into the context: all but those sharing the chapter's id, in order. */
  function OtherSiblings(siblings: seq<ChapterInfo>, chapterId: string): (r: seq<ChapterInfo>)
    ensures forall k :: 0 <= k < |r| ==> r[k].id != chapterId
    ensures forall s :: s in siblings && s.id != chapterId ==> s in r
    ensures forall s :: s in r ==> s in siblings
    ensures |r| <= |siblings|
  {
    if siblings == [] then []
    else if siblings[0].id != chapterId then [siblings[0]] + OtherSiblings(siblings[1..], chapterId)
    else OtherSiblings(siblings[1..], chapterId)
  }

  /** Filtering a concatenation filters each part: the kept siblings stay in their order. */
  lemma {:induction false} OtherSiblingsAppend(a: seq<ChapterInfo>, b: seq<ChapterInfo>, chapterId: string)
    ensures OtherSiblings(a + b, chapterId) == OtherSiblings(a, chapterId) + OtherSiblings(b, chapterId)
  {
    if a == [] {
      assert a + b == b;
    } else {
      assert (a + b)[0] == a[0] && (a + b)[1..] == a[1..] + b;
      OtherSiblingsAppend(a[1..], b, chapterId);
    }
  }

  /** One sibling is kept exactly when its id differs from the chapter's. */
  lemma OtherSiblingsSingle(s: ChapterInfo, chapterId: string)
    ensures OtherSiblings([s], chapterId) == if s.id != chapterId then [s] else []
  {
    assert [s][1..] == [];
  }

  const ParentHeader := "上级章节信息：\n"
  const SiblingHeader := "同级章节信息（请避免内容重复）：\n"

  /** The `context_info` text built for a leaf request. */
  function ContextInfo(request: LeafRequest): string
  {
    (if request.parents != [] then ParentHeader + Entries(request.parents) else "")
      + (if request.siblings != [] then SiblingHeader + Entries(OtherSiblings(request.siblings, request.chapter.id)) else "")
  }

  /** The context is empty exactly when the chapter has neither parents nor siblings. */
  lemma ContextEmptyIff(request: LeafRequest)
    ensures ContextInfo(request) == "" <==> request.parents == [] && request.siblings == []
  {
    if request.parents != [] {
      assert |ContextInfo(request)| >= |ParentHeader|;
    } else if request.siblings != [] {
      assert |ContextInfo(request)| >= |SiblingHeader|;
    }
  }

  /**
   * A chapter whose siblings all share its id (in particular one alone at its level) gets the
   * sibling header with no entry under it.
   */
  lemma ContextWithoutOtherSiblings(request: LeafRequest)
    requires request.siblings != []
    requires forall k :: 0 <= k < |request.siblings| ==> request.siblings[k].id == request.chapter.id
    ensures ContextInfo(request)
         == (if request.parents != [] then ParentHeader + Entries(request.parents) else "") + SiblingHeader
  {
  }

  // ---------------------------------------------------------------------------------------------
  // get_available_models

  const ChatKeywords: seq<string> := ["gpt", "claude", "chat", "llama", "qwen", "deepseek"]

  /** A model id counts as a chat model when its lower-cased form contains one of the keywords. */
  predicate IsChatModel(id: string)
  {
    exists k :: 0 <= k < |ChatKeywords| && Contains(Lower(id), ChatKeywords[k])
  }

  /** Python's `<` on `str`: lexicographic on code points, a proper prefix first. */
  predicate Less(a: string, b: string)
    decreases |a|
  {
    if a == [] then b != []
    else b != [] && (a[0] < b[0] || (a[0] == b[0] && Less(a[1..], b[1..])))
  }

  lemma {:induction false} LessIrreflexive(a: string)
    ensures !Less(a, a)
    decreases |a|
  {
    if a != [] {
      LessIrreflexive(a[1..]);
    }
  }

  lemma {:induction false} LessTransitive(a: string, b: string, c: string)
    requires Less(a, b) && Less(b, c)
    ensures Less(a, c)
    decreases |a|
  {
    if a != [] && a[0] == b[0] && b[0] == c[0] {
      LessTransitive(a[1..], b[1..], c[1..]);
    }
  }

  lemma {:induction false} LessTotal(a: string, b: string)
    requires a != b
    ensures Less(a, b) || Less(b, a)
    decreases |a|
  {
    if a != [] && b != [] && a[0] == b[0] {
      LessTotal(a[1..], b[1..]);
    }
  }

  predicate StrictlySorted(s: seq<string>)
  {
    forall i, j :: 0 <= i < j < |s| ==> Less(s[i], s[j])
  }

  /** Insert `x` into a strictly sorted list unless it is already there. */
  function Insert(x: string, s: seq<string>): (r: seq<string>)
    requires StrictlySorted(s)
    ensures StrictlySorted(r)
    ensures forall y :: y in r <==> y == x || y in s
  {
    if s == [] then [x]
    else if x == s[0] then s
    else if Less(x, s[0]) then
      assert forall j :: 0 <= j < |s| ==> Less(x, s[j]) by {
        forall j | 0 <= j < |s| ensures Less(x, s[j]) {
          if j > 0 { LessTransitive(x, s[0], s[j]); }
        }
      }
      [x] + s
    else
      LessTotal(x, s[0]);
      var r' := Insert(x, s[1..]);
      assert forall y :: y in r' ==> Less(s[0], y) by {
        forall y | y in r' ensures Less(s[0], y) {
          if y != x {
            var j :| 0 <= j < |s[1..]| && s[1..][j] == y;
            assert s[j + 1] == y;
          }
        }
      }
      [s[0]] + r'
  }

  /** `sorted(list(set(xs)))`. */
  function SortedUnique(xs: seq<string>): (r: seq<string>)
    ensures StrictlySorted(r)
    ensures forall y :: y in r <==> y in xs
  {
    if xs == [] then []
    else
      var r := Insert(xs[|xs| - 1], SortedUnique(xs[..|xs| - 1]));
      assert forall y :: y in xs <==> y == xs[|xs| - 1] || y in xs[..|xs| - 1] by {
        assert xs == xs[..|xs| - 1] + [xs[|xs| - 1]];
      }
      r
  }

  /** A strictly sorted list is determined by its elements. */
  lemma {:induction false} StrictlySortedUnique(a: seq<string>, b: seq<string>)
    requires StrictlySorted(a) && StrictlySorted(b)
    requires forall y :: y in a <==> y in b
    ensures a == b
    decreases |a|
  {
    if a != [] && b != [] {
      if a[0] != b[0] {
        LessTotal(a[0], b[0]);
        assert a[0] in a && b[0] in b;
        if Less(a[0], b[0]) {
          var j :| 0 <= j < |b| && b[j] == a[0];
          if j > 0 { LessTransitive(a[0], b[0], b[j]); }
          LessIrreflexive(a[0]);
        }
      }
      forall y ensures y in a[1..] <==> y in b[1..] {
        if y in a[1..] {
          var j :| 0 <= j < |a[1..]| && a[1..][j] == y;
          assert Less(a[0], y) by { assert a[j + 1] == y; }
          LessIrreflexive(y);
          assert y in a;
          var i :| 0 <= i < |b| && b[i] == y;
          assert i != 0;
          assert b[1..][i - 1] == y;
        }
        if y in b[1..] {
          var j :| 0 <= j < |b[1..]| && b[1..][j] == y;
          assert Less(b[0], y) by { assert b[j + 1] == y; }
          LessIrreflexive(y);
          assert y in b;
          var i :| 0 <= i < |a| && a[i] == y;
          assert i != 0;
          assert a[1..][i - 1] == y;
        }
      }
      StrictlySortedUnique(a[1..], b[1..]);
      assert a == [a[0]] + a[1..] && b == [b[0]] + b[1..];
    } else if a != [] {
      HeadIsMember(a);
      assert false;
    } else if b != [] {
      HeadIsMember(b);
      assert false;
    }
  }

  lemma HeadIsMember(s: seq<string>)
    requires s != []
    ensures s[0] in s
  {
  }

  /**
   * `get_available_models`: the chat-model ids of the listing, without duplicates, sorted; a
   * failed listing becomes the service's error.
   */
  method AvailableModels(listing: Result<seq<string>, string>) returns (r: Result<seq<string>, string>)
    ensures listing.Err? ==> r == Err("获取模型列表失败: " + listing.error)
    ensures listing.Ok? ==> r.Ok? && StrictlySorted(r.value)
    ensures listing.Ok? ==> forall id :: id in r.value <==> id in listing.value && IsChatModel(id)
  {
    if listing.Err? {
      return Err("获取模型列表失败: " + listing.error);
    }
    var ids := listing.value;
    var chatModels: seq<string> := [];
    var i := 0;
    while i < |ids|
      invariant 0 <= i <= |ids|
      invariant forall id :: id in chatModels <==> id in ids[..i] && IsChatModel(id)
    {
      assert ids[..i + 1] == ids[..i] + [ids[i]];
      if IsChatModel(ids[i]) {
        chatModels := chatModels + [ids[i]];
      }
      i := i + 1;
    }
    assert ids[..|ids|] == ids;
    return Ok(SortedUnique(chatModels));
  }

  // ---------------------------------------------------------------------------------------------
  // generate_outline_v2: the empty and the fallback paths

  /** A parsed level-1 item; `new_title` may be missing. */
  datatype Level1Item = Level1Item(newTitle: Option<string>)

  /** The node put in place of a level-1 chapter whose expansion failed. */
  function FallbackNode(i: nat, item: Level1Item): Node
  {
    Node(NatToString(i + 1),
         if item.newTitle.Some? then item.newTitle.value else "第 " + NatToString(i + 1) + " 章",
         "该章节目录生成失败，请尝试重新生成或手动编辑", Present([]), None)
  }

  /** A distribution with a skeleton for each of `n` level-1 chapters. */
  predicate Shaped(d: Distribution, n: nat)
  {
    && |d.level2Nodes| == n && |d.leafPerLevel2| == n
    && forall i :: 0 <= i < n ==> RangeLen(d.level2Nodes[i]) <= |d.leafPerLevel2[i]|
  }

  /**
   * Level-1 chapter `i` after `process_level1_node`: the expansion of its skeleton when it has a
   * title and the expansion succeeds, the fallback node otherwise.
   */
  function Expanded(i: nat, item: Level1Item, d: Distribution, expand: (nat, Node) -> Option<Node>): Node
    requires i < |d.level2Nodes| && Shaped(d, |d.level2Nodes|)
  {
    if item.newTitle.None? then FallbackNode(i, item)
    else match expand(i, GenerateOutlineByLevel1(item.newTitle.value, i + 1, d))
      case Some(node) => node
      case None => FallbackNode(i, item)
  }

  /**
   * The part of `generate_outline_v2` after the level-1 titles are parsed: an empty list gives
   * an empty outline; otherwise the distribution is computed (it cannot fail with this budget)
   * and each level-1 chapter is expanded from its skeleton or replaced by its fallback node.
   * `first` and `gap` are the random draw; `expand` is the model's expansion, `None` when it fails.
   */
  method GenerateOutlineV2(level1: seq<Level1Item>, first: nat, gap: nat, expand: (nat, Node) -> Option<Node>)
    returns (outline: seq<Node>, dist: Distribution)
    requires |level1| >= 2 ==> first < |level1| && gap < |level1| - 1
    ensures |outline| == |level1|
    ensures |level1| >= 1 ==> Shaped(dist, |level1|) && Sum(dist.leafNodes) == LeafBudget(|level1|)
    ensures |level1| >= 1 ==> forall i :: 0 <= i < |level1| ==> dist.level2Nodes[i] >= 3
    ensures |level1| >= 1 ==> forall i :: 0 <= i < |level1| ==> outline[i] == Expanded(i, level1[i], dist, expand)
  {
    var n := |level1|;
    if n == 0 {
      return [], Distribution([], [], []);
    }
    var index1, index2;
    if n >= 2 {
      var drawn := GetRandomIndexes(n, first, gap);
      index1, index2 := drawn.value.0, drawn.value.1;
    } else {
      index1, index2 := 0, 0;
    }
    var total := LeafBudget(n);
    CallerBudgetHasNoEmptyLevel1(n, index1, index2);
    var r := CalculateNodesDistribution(n, index1, index2, total);
    assert r.Ok?;
    dist := r.value;
    outline := seq(n, i requires 0 <= i < n => Expanded(i, level1[i], dist, expand));
  }
}
