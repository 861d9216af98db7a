# Tender-writing backend: a verified model of its core

The backend helps a bidder write the technical part of a tender response. It reads the
tender documents a user uploads (PDF, Word or images, with OCR for scanned pages), streams
the language model's analysis of them, generates a chapter outline (level-1 titles from the
model, then a computed distribution of level-2 chapters and leaves, then one completion per
level-1 chapter), fills each leaf chapter with generated text, cleans web-search pages used as
reference material, and exports the result as a Word document. Answers arrive over
Server-Sent Events (SSE).

This project models that core in Dafny, one module per source file, plus some shared modules:

- `Strings`, `Paths`, `Wrappers`: the Python string, `pathlib` and Option/Result behaviour the
  core relies on. This covers `split`/`join` and their round trip, `strip`, `find` and `str(n)`.
- `JsonUtil` (`utils/json_util.py`): the reply cleaner and the structural JSON check.
- `OutlineUtil` (`utils/outline_util.py`): the random index pair, the node distribution
  (the level-2 list is an `array` updated in place, as in the source) and the generated
  outline skeleton.
- `Outline`: the outline chapter tree shared by the services and routers, and its pre-order walk.
- `OpenAIService` (`services/openai_service.py`):
  - the think-block filter of the chat stream;
  - the error message of a failed stream;
  - the retry loop with the JSON check;
  - the recursive content fill;
  - the chapter context;
  - the model list;
  - the level-1 fan-out.
- `Sse`, `ApiKeyGate`, `OutlineRouter` (`routers/outline.py`): the SSE record streams and the
  API-key check of the endpoints.
- `Markdown`, `DocTrace`, `DocumentRouter` (`routers/document.py`):
  - the Markdown block parser and inline-run splitter;
  - the Word export (the `docx` document is a class whose event trace the methods extend);
  - the upload endpoint's type gate.
- `SearchService` (`services/search_service.py`): result formatting and the page-text clean-up.
- `FileService` (`services/file_service.py`):
  - the upload pipeline, with deduplication by MD5, a text cache, OCR fallbacks and cleanup on
    failure;
  - PDF OCR page labelling;
  - the text-to-PDF layout;
  - image extraction from Word files;
  - deletion retries.
- `ExportTools` (`agents/tools/export_tools.py`): the agent tool that writes a nested response
  structure to Word.

Methods whose source loops or mutates state are proved against specification functions. The
lemmas then state what the source promises about those functions: round trips, nothing lost
or reordered, pre-order visits, bounds, sortedness and uniqueness, and error paths.

## Model

| member | source | states |
|---|---|---|
| Strings.Split | backend/app/services/search_service.py:80 | `str.split` on a non-empty separator: at least one piece. |
| Strings.JoinSplit | backend/app/services/search_service.py:96 | Joining the pieces of a split with the same separator gives back the string. |
| Strings.SplitJoinChar | backend/app/services/search_service.py:101 | Splitting a join of newline-free parts on a one-character separator gives back the parts. |
| Strings.SplitPiecesFree | backend/app/services/file_service.py:588 | No piece of a split contains the separator. |
| Strings.Strip | backend/app/services/search_service.py:82 | `strip()`: the result has no leading or trailing whitespace and is a slice of the input. |
| Strings.NatToString | backend/app/utils/outline_util.py:43 | `str(n)`: one or more decimal digits, a single one exactly when `n < 10`. |
| Strings.NatToStringInjective | backend/app/utils/outline_util.py:43-50 | Different numbers print differently, so printed numbers can serve as ids. |
| Strings.FindFrom | backend/app/utils/json_util.py:10 | `find`: the first occurrence at or after the start, or none at all. |
| Paths.PathNameNoSlash | backend/app/services/file_service.py:451-452 | `Path(name).name` is one path component: it has no `/`. |
| Paths.PathNameOfPlainName | backend/app/services/file_service.py:451-452 | A name with no `/` that is not `.` is its own `Path(name).name`. |
| Outline.Preorder | backend/app/services/openai_service.py:200-224 | The chapters in pre-order, one entry per chapter of the tree. |
| Outline.PreorderLeafCount | backend/app/services/openai_service.py:203-224 | The pre-order meets every leaf exactly once. |
| JsonUtil.Lookup | backend/app/utils/json_util.py:65-66 | A key lookup finds the key's entry, or reports it missing exactly when no entry has it. |
| JsonUtil.CheckStructure | backend/app/utils/json_util.py:39-72 | Number against number passes. A type mismatch fails. An empty list template accepts any list. A non-empty template rejects an empty list. Scalars of the same type pass. Every failure has a message. |
| JsonUtil.ListCheck | backend/app/utils/json_util.py:49-60 | A list passes iff every element passes against the template's first element. A failure is that of the first failing element. |
| JsonUtil.CheckItemsFirstFailure | backend/app/utils/json_util.py:55-60 | The list loop reports the first failing element and no later one. |
| JsonUtil.DictCheck | backend/app/utils/json_util.py:63-70 | A dict passes iff every template key is present and its value passes. |
| JsonUtil.ExtraKeysIrrelevant | backend/app/utils/json_util.py:63-70 | Keys the template does not name never change the verdict. |
| JsonUtil.RemoveThink | backend/app/utils/json_util.py:10 | One pass of the think-block substitution only removes text. It changes nothing exactly when nothing is removed. |
| JsonUtil.RemoveThinkUnchangedIff | backend/app/utils/json_util.py:10 | A pass leaves the text as it is iff no `<think>` has a `</think>` after it. |
| JsonUtil.RemoveThinkBlock | backend/app/utils/json_util.py:10 | On text with a complete block, the pass keeps what precedes the first `<think>`. It drops from there through the first `</think>` after it, then goes on with the rest. |
| JsonUtil.UnchangedIsSpanFree | backend/app/utils/json_util.py:10 | A pass that removes nothing leaves no complete think block. |
| JsonUtil.CleanJsonString | backend/app/utils/json_util.py:5-16 | The cleaned reply as written has no leading or trailing whitespace. |
| JsonUtil.CleanJsonStringLeavesThinkSpan | backend/app/utils/json_util.py:10 | As written, a think block spliced around an inner one survives cleaning (see Findings). |
| JsonUtil.CleanJsonStringFixed | backend/app/utils/json_util.py:5-16 | The corrected cleaner leaves no complete think block and no outer whitespace. |
| JsonUtil.CleanFencedReply | backend/app/utils/json_util.py:13-16 | A reply that is exactly a ```` ```json ```` fenced block cleans to its payload, in both versions. |
| JsonUtil.Take | backend/app/utils/json_util.py:28 | `s[:100]` is a prefix of at most 100 characters. |
| JsonUtil.CheckJson | backend/app/utils/json_util.py:18-78 | `(True, "")` on success and a non-empty message otherwise. A parse failure gives the `JSON 解析错误: ` message. A parsed container is checked structurally against the schema. A scalar schema always fails. |
| OutlineUtil.GetRandomIndexes | backend/app/utils/outline_util.py:5-9 | Fails exactly when there are fewer than two indexes. Otherwise gives two distinct indexes in range. |
| OutlineUtil.EveryPairIsDrawn | backend/app/utils/outline_util.py:5-9 | Every ordered pair of distinct indexes can be drawn. |
| OutlineUtil.RoundRatioNearest | backend/app/utils/outline_util.py:16-20 | `round()` of a ratio is within half a unit of it, and ties go to the even neighbour. |
| OutlineUtil.TotalWeight | backend/app/utils/outline_util.py:15 | The total weight is `n + 0.6` units (kept in fifths). |
| OutlineUtil.SplitEvenlySum | backend/app/utils/outline_util.py:28-30 | A level-1 node's leaves are shared among its level-2 nodes with nothing lost or invented. |
| OutlineUtil.SplitEvenlyBalanced | backend/app/utils/outline_util.py:28-30 | The share is non-increasing, and no two level-2 nodes differ by more than one leaf. |
| OutlineUtil.NewLevel2Nodes | backend/app/utils/outline_util.py:16-20 | The in-place list: base entries, with the two important positions updated in order. |
| OutlineUtil.CalculateNodesDistribution | backend/app/utils/outline_util.py:12-34 | On success the leaf counts sum to the total budget, and each node's split sums to its count. The loop fails exactly when some level-1 node has no level-2 node (division by zero), and it fails at the first one. |
| OutlineUtil.Level2NonNegative | backend/app/utils/outline_util.py:16-20 | Every level-2 count is non-negative. |
| OutlineUtil.CallerBudgetHasNoEmptyLevel1 | backend/app/services/openai_service.py:318-319 | With the budget `max(150, 10n)`, every level-1 node gets at least three level-2 nodes, so the caller never divides by zero. |
| OutlineUtil.GenerateOutlineByLevel1 | backend/app/utils/outline_util.py:37-52 | The skeleton root has the given title, the id `str(i)` and one child per level-2 node. |
| OutlineUtil.GeneratedShape | backend/app/utils/outline_util.py:40-51 | Child `j` has id `i.(j+1)` and the distributed number of leaves, with ids `i.(j+1).(k+1)` and no children. |
| OutlineUtil.GeneratedIdsDistinct | backend/app/utils/outline_util.py:40-51 | All ids of a skeleton are distinct, within and across levels. |
| OpenAIService.ThinkStepOpening | backend/app/services/openai_service.py:69-74 | A chunk with `<think>` opens a block and yields its text before the tag, if that text is non-empty. |
| OpenAIService.ThinkStepClosing | backend/app/services/openai_service.py:76-81 | A chunk with `</think>` closes the block and yields `parts[1]` (text up to a second `</think>`), if non-empty. |
| OpenAIService.ThinkStepPlain | backend/app/services/openai_service.py:83-84 | An untagged chunk is dropped inside a block and passed through outside one. |
| OpenAIService.ThinkStepHidesOpenTag | backend/app/services/openai_service.py:69-84 | No yielded piece contains `<think>`. |
| OpenAIService.WholeBlockChunkSwallowsAnswer | backend/app/services/openai_service.py:69-74 | As written, a chunk holding a whole think block leaves the flag set, so the next chunk is lost (see Findings). |
| OpenAIService.WholeBlockChunkKeepsAnswer | backend/app/services/openai_service.py:63-84 | The corrected filter passes on the answer after a chunk holding a whole think block. |
| OpenAIService.ThinkStepFixedWholeBlock | backend/app/services/openai_service.py:69-82 | A chunk ending with a whole think block yields the text before it and leaves the filter outside. |
| OpenAIService.ThinkStepFixedClosesBlock | backend/app/services/openai_service.py:69-82 | The corrected step leaves the filter outside any block after a whole think block. |
| OpenAIService.ThinkStepFixedAgrees | backend/app/services/openai_service.py:69-84 | The correction changes nothing for chunks without a whole think block. |
| OpenAIService.FilteredAgrees | backend/app/services/openai_service.py:63-84 | On such streams the two filters agree chunk for chunk. |
| OpenAIService.FilteredHidesOpenTag | backend/app/services/openai_service.py:63-84 | The filtered stream never yields `<think>`. |
| OpenAIService.FilteredUntagged | backend/app/services/openai_service.py:63-84 | Untagged chunks pass through unchanged and in order outside a block, and yield nothing inside one. |
| OpenAIService.FilterStream | backend/app/services/openai_service.py:63-84 | The filter loop with its `is_thinking` flag yields what the corrected filter function yields. |
| OpenAIService.FailureMessage | backend/app/services/openai_service.py:91-99 | The error text starts with `错误: `. A 502 gives the gateway message. Otherwise a rate limit (any case) gives the rate-limit message. Otherwise it gives the error text itself. |
| OpenAIService.OpenFailureYieldsOneError | backend/app/services/openai_service.py:91-99 | A stream that fails to open yields exactly one error message. |
| OpenAIService.StreamChatHidesOpenTag | backend/app/services/openai_service.py:45-99 | A stream that ends without error yields no piece containing `<think>`. |
| OpenAIService.CollectStreamText | backend/app/services/openai_service.py:101-115 | The collected text is the pieces concatenated in order. |
| OpenAIService.ReplyOfOpenFailure | backend/app/services/openai_service.py:101-115 | The reply of a failed stream is its error message. |
| OpenAIService.AttemptLimit | backend/app/services/openai_service.py:130-149 | At least one attempt is made. |
| OpenAIService.RetryUntilValid | backend/app/services/openai_service.py:130-151 | The loop stops at the first reply the check accepts and returns it. Every earlier reply failed. After `max_retries` retries the last reply is returned, or an error carrying the check's message. |
| OpenAIService.GenerateWithJsonCheck | backend/app/services/openai_service.py:117-151 | Attempts run until the first reply that passes `check_json`, which is returned, at most `max_retries + 1` times. Every earlier reply failed. If the last one fails too it is returned, or with `raise_on_fail` an error with the check's message. |
| OpenAIService.ProcessChapters | backend/app/services/openai_service.py:200-224 | The walk keeps the number of chapters at each level. |
| OpenAIService.ProcessKeepsInfo | backend/app/services/openai_service.py:200-224 | Every chapter keeps its id, title, description and leaf-ness. |
| OpenAIService.ProcessVisitsLeavesInPreorder | backend/app/services/openai_service.py:200-224 | Leaves are asked for in pre-order, each with its ancestors' summaries and all chapters of its own level. |
| OpenAIService.ProcessFillsLeaves | backend/app/services/openai_service.py:200-224 | Only the content of leaves with non-empty generated text changes, and it becomes that text. |
| OpenAIService.GenerateContentForOutline | backend/app/services/openai_service.py:187-198 | Refuses exactly a non-dict or a dict without `outline`, with the fixed message. Otherwise the result has the same top-level chapters, filled as above, and the input is not changed. |
| OpenAIService.PlacedInOwnLevel | backend/app/services/openai_service.py:210-217 | Each chapter's own summary is among the siblings passed with it. |
| OpenAIService.OtherSiblings | backend/app/services/openai_service.py:236-240 | Every listed sibling has an id other than the chapter's. Each such sibling is listed, and nothing else is. |
| OpenAIService.OtherSiblingsAppend | backend/app/services/openai_service.py:236-240 | Filtering a concatenation filters each part, so the kept siblings stay in their order. |
| OpenAIService.OtherSiblingsSingle | backend/app/services/openai_service.py:237-238 | One sibling is kept iff its id differs from the chapter's. |
| OpenAIService.ContextEmptyIff | backend/app/services/openai_service.py:232-240 | The context is empty iff there are neither parents nor siblings. |
| OpenAIService.ContextWithoutOtherSiblings | backend/app/services/openai_service.py:236-240 | A chapter alone at its level still gets the sibling header, with no entry under it. |
| OpenAIService.SortedUnique | backend/app/services/openai_service.py:41 | `sorted(set(xs))`: strictly sorted, with the same elements as the input. |
| OpenAIService.StrictlySortedUnique | backend/app/services/openai_service.py:41 | A strictly sorted list is determined by its elements, so the result is unique. |
| OpenAIService.AvailableModels | backend/app/services/openai_service.py:32-43 | Exactly the listed ids that name a chat model, strictly sorted. A failed listing gives the service's error. |
| OpenAIService.GenerateOutlineV2 | backend/app/services/openai_service.py:306-337 | One chapter per level-1 title. The distribution spends exactly the budget, with at least three level-2 nodes each. Each chapter is its expansion or, on failure, the fallback node. |
| Sse.Frame | backend/app/routers/outline.py:55 | Every record goes on the wire as `data: …` followed by a blank line. |
| Sse.ChunkRecordsCarryPieces | backend/app/routers/outline.py:116 | The chunk fields of the forwarded records are the pieces, in order. |
| Sse.ForwardChunks | backend/app/routers/outline.py:110-119 | One chunk record per piece, then exactly one `[DONE]`, at the end. |
| Sse.ChatStreamResponse | backend/app/routers/outline.py:77-124 | Refused iff no API key is configured. Otherwise the chat stream's pieces follow one to one and `[DONE]` ends the stream. The client reassembles exactly the reply. |
| ApiKeyGate.GateAsWritten | backend/app/routers/outline.py:20-73 | As written, a missing key is answered with a 500 carrying the endpoint's prefix. |
| ApiKeyGate.MissingKeyAnswers500 | backend/app/routers/outline.py:24-25 | The 400 the check raises never reaches the client (see Findings). |
| ApiKeyGate.Gate | backend/app/routers/outline.py:24-25 | As intended: refused iff the key is absent or empty, with a 400 and its own message. |
| ApiKeyGate.GateAgreesWithKey | backend/app/routers/outline.py:24-25 | With a key, both versions let the request through. |
| OutlineRouter.ChunkPieces | backend/app/routers/outline.py:51-54 | The pieces concatenate to the text. Each has 1 to 128 characters, all but the last exactly 128. There are ⌈n/128⌉ of them. |
| OutlineRouter.Heartbeats | backend/app/routers/outline.py:40-42 | `n` records with an empty chunk. |
| OutlineRouter.HeartbeatsCarryNothing | backend/app/routers/outline.py:40-42 | Heartbeats add nothing to the reassembled text. |
| OutlineRouter.SendHeartbeats | backend/app/routers/outline.py:40-42 | The method sends exactly the heartbeat records. |
| OutlineRouter.SendOutcome | backend/app/routers/outline.py:44-68 | On success the records reassemble the result text in ⌈n/128⌉ pieces, with no error record. On failure there is one error record with `目录生成失败: …`. One `[DONE]` ends both. |
| OutlineRouter.AfterHeartbeats | backend/app/routers/outline.py:40-58 | Heartbeats neither end the stream nor change the reassembled text. |
| OutlineRouter.SendPieces | backend/app/routers/outline.py:51-58 | The pieces are sent without errors and end with one `[DONE]`, and they reassemble to the text. |
| OutlineRouter.GenerateRecords | backend/app/routers/outline.py:30-68 | The heartbeats come first. On success the records reassemble the result text, with no error record. On failure one error record carries `目录生成失败: …`. `[DONE]` comes last either way. |
| OutlineRouter.GenerateOutline | backend/app/routers/outline.py:17-73 | Refused iff no API key is configured. Otherwise the records reassemble the outline text whatever the heartbeat count. |
| Markdown.OrderedMatch | backend/app/routers/document.py:110 | `^(\d+)\.\s+(.*)$`: the number, then the text after the blanks. |
| Markdown.OrderedMatchIff | backend/app/routers/document.py:110 | The scanner matches exactly when the regex does. |
| Markdown.ItemOfShape | backend/app/routers/document.py:108-111 | An item keeps the line's text after its marker and blanks. |
| Markdown.ReadItem | backend/app/routers/document.py:107-112 | Reading a stripped line gives an item exactly when the line is a list line, and then that line's item. |
| Markdown.HeadingOfShape | backend/app/routers/document.py:115 | Heading level = number of leading `#`, capped at 3. The text follows the hashes and blanks. |
| Markdown.StepAsWrittenAdvancesIff | backend/app/routers/document.py:101-123 | The loop as written advances iff the line does not stall it, and a stall appends nothing. |
| Markdown.BoldLineStalls | backend/app/routers/document.py:117-123 | A `**bold**` paragraph line stalls the loop as written for ever (see Findings). |
| Markdown.StepAgreesUnlessStalled | backend/app/routers/document.py:101-123 | The corrected step agrees with the written one wherever the latter advances. |
| Markdown.BlankLinesGiveNoBlocks | backend/app/routers/document.py:103 | Blank lines never give a block. |
| Markdown.ListStep | backend/app/routers/document.py:104-113 | A list block has one item per line of the maximal run of list lines. |
| Markdown.ParagraphStep | backend/app/routers/document.py:117-123 | A paragraph is the space-join of its stripped lines, up to a blank line or a line starting with `-`, `*` or `#`. |
| Markdown.ParseList | backend/app/routers/document.py:105-113 | The inner list loop collects exactly the items of that run. |
| Markdown.ParseParagraph | backend/app/routers/document.py:118-122 | The inner paragraph loop (corrected) collects exactly the paragraph's lines. |
| Markdown.ParseMarkdownBlocks | backend/app/routers/document.py:99-124 | The loop gives the blocks of the corrected step function. |
| Markdown.SplitFromConcat | backend/app/routers/document.py:59 | `re.split` loses nothing: the segments concatenate to the text. |
| Markdown.SplitFromMatches | backend/app/routers/document.py:59 | Every second segment is a bold, italic or code match. |
| Markdown.DecorateRunOf | backend/app/routers/document.py:64-69 | A segment reads back exactly unless it is a bare run of one to three stars. |
| Markdown.RunsRestoreText | backend/app/routers/document.py:58-69 | The runs of a text read back as the text, unless a segment is bare stars. |
| DocumentRouter.AddMarkdownRuns | backend/app/routers/document.py:58-70 | One run per non-empty segment, in order. |
| DocumentRouter.RunEventsAreRuns | backend/app/routers/document.py:63-70 | The k-th event adds the k-th run, with its text, bold and italic flags. |
| DocumentRouter.AddSegmentRuns | backend/app/routers/document.py:60-70 | The segment loop appends the runs of the non-empty segments, in order. |
| DocumentRouter.ItemPrefixFromLine | backend/app/routers/document.py:86 | Bullets for `-`/`*` items. Ordered items keep their number and dot. |
| DocumentRouter.RenderItem | backend/app/routers/document.py:84-89 | A list item: an indented paragraph, a prefix run, then the text runs. |
| DocumentRouter.RenderList | backend/app/routers/document.py:83-89 | The items in order. |
| DocumentRouter.RenderBlock | backend/app/routers/document.py:81-96 | A block's paragraphs, heading or paragraph runs. |
| DocumentRouter.RenderMarkdownBlocks | backend/app/routers/document.py:79-96 | Each block's events, in order. |
| DocumentRouter.AddTocLine | backend/app/routers/document.py:342-346 | One TOC line: an indented paragraph with the chapter's id and title, bold at level 1. |
| DocumentRouter.AddTocBranch | backend/app/routers/document.py:341-347 | One loop turn: the chapter's line, then the lines of its children one level deeper. |
| DocumentRouter.RenderTraceHasNoPageBreak | backend/app/routers/document.py:79-96 | Rendering Markdown never breaks a page. |
| DocumentRouter.AddTocItem | backend/app/routers/document.py:341-348 | One TOC line per chapter, each followed by its children's lines. |
| DocumentRouter.TocInPreorder | backend/app/routers/document.py:341-348 | The TOC lists the chapters in pre-order, each at its depth. |
| DocumentRouter.TocOfOutline | backend/app/routers/document.py:341-350 | The whole TOC has two calls per chapter, and the top-level lines are bold. |
| DocumentRouter.RenderContent | backend/app/routers/document.py:365-367 | A leaf's stripped content is rendered unless it is blank. |
| DocumentRouter.AddSection | backend/app/routers/document.py:360-369 | A chapter: its heading, then its sub-chapters or content. |
| DocumentRouter.AddOutlineItems | backend/app/routers/document.py:359-369 | Each chapter's section, in order. |
| DocumentRouter.BodyInPreorder | backend/app/routers/document.py:359-371 | One section per chapter in pre-order. Page breaks only before top-level chapters. Headings at depth capped at 3. Content only under leaves. |
| DocumentRouter.ExportOutline | backend/app/routers/document.py:337-371 | TOC page, then the overview, then the chapter sections. |
| DocumentRouter.RFind | backend/app/routers/document.py:140 | The last occurrence of a character, or -1. |
| DocumentRouter.Suffix | backend/app/routers/document.py:140 | The suffix is empty or a dot followed by at least one character. |
| DocumentRouter.UploadFile | backend/app/routers/document.py:128-163 | A disallowed type is refused with the fixed message. Success iff the type is allowed and processing succeeds. Failures carry `文件处理失败: …`. Success returns the text and the URL. |
| DocumentRouter.UpperCaseExtensionPasses | backend/app/routers/document.py:140-142 | Any stem without `/` followed by `.PDF` passes the type gate, whatever the content type: the extension test ignores case. |
| SearchService.ResultBlocks | backend/app/services/search_service.py:66 | One block per result. |
| SearchService.FormatResultsEmptyIff | backend/app/services/search_service.py:64-66 | The fixed message is returned exactly when there are no results. |
| SearchService.FormatResultsBlockAt | backend/app/services/search_service.py:66 | Result `k` appears as block `k+1`, after the blocks before it. |
| SearchService.CollapseBlanksShape | backend/app/services/search_service.py:78 | No tab, no two spaces in a row. Leading blank iff the input starts with one. |
| SearchService.CollapseBlanksKeepsText | backend/app/services/search_service.py:78 | All other characters are kept, in order. |
| SearchService.CollapseNewlinesShape | backend/app/services/search_service.py:78 | No three newlines in a row. Leading newline iff the input starts with one. |
| SearchService.CollapseNewlinesKeepsText | backend/app/services/search_service.py:78 | All other characters are kept, in order. |
| SearchService.ListRest | backend/app/services/search_service.py:91 | Removing the marker leaves a suffix of the line. |
| SearchService.FormatLines | backend/app/services/search_service.py:80-94 | The list loop gives the lines of the list-pass function. |
| SearchService.FormatLine | backend/app/services/search_service.py:82-94 | One turn of the loop is one step of that function. |
| SearchService.FormatItem | backend/app/services/search_service.py:87-91 | A list line: a gap only when a list starts after a non-blank line, then `- ` and the text after the marker. |
| SearchService.FormatPlain | backend/app/services/search_service.py:92-94 | Any other line: a gap only when it ends a list, then the stripped line. |
| SearchService.ListPassKeepsLines | backend/app/services/search_service.py:80-94 | The pass only adds gaps: the other lines are the non-blank input lines, stripped, in order, list lines turned into items. |
| SearchService.ListPassSeparated | backend/app/services/search_service.py:84-93 | A list is separated from the preceding text by a blank line, and no text line directly follows an item. |
| SearchService.WordLineBecomesItem | backend/app/services/search_service.py:87-91 | The marker class contains letters, so "Hello world" becomes "- world". |
| SearchService.WithTitle | backend/app/services/search_service.py:97-98 | The content is kept. It is prefixed iff the stripped title is non-empty and the content starts with neither the title nor `# `. |
| SearchService.WithTitleIdempotent | backend/app/services/search_service.py:97-98 | Adding the title twice adds it once. |
| SearchService.QuoteIndentedIdentity | backend/app/services/search_service.py:100 | With no indented line, the quote rewrite changes nothing. |
| SearchService.QuoteNeverFires | backend/app/services/search_service.py:80-100 | On the output of the list pass and title step, the quote rewrite never fires. |
| SearchService.MarkCodeLinesByLine | backend/app/services/search_service.py:101 | Lines are kept one for one: code lines are wrapped in backticks, others unchanged. |
| SearchService.MergeLines | backend/app/services/search_service.py:103-114 | The merge loop gives the entries of the merge-pass function. |
| SearchService.MergeKeepsText | backend/app/services/search_service.py:103-114 | Merging only moves line breaks. Non-empty entries joined give the non-blank lines joined, and each blank line leaves one empty entry. |
| SearchService.TruncateKeepsPrefix | backend/app/services/search_service.py:117 | The result is a prefix, and all of it when short or of at most ten paragraphs. |
| SearchService.CleanAndFormatContent | backend/app/services/search_service.py:75-117 | The method computes the clean-up function. |
| SearchService.CleanedHasNoBlankRuns | backend/app/services/search_service.py:75-117 | Whatever the page text, the cleaned text never has two blank lines in a row. |
| SearchService.TruncateNoTriple | backend/app/services/search_service.py:117 | Cutting the text to ten paragraphs keeps it free of two blank lines in a row. |
| SearchService.QuoteIdleOnCleanText | backend/app/services/search_service.py:80-100 | With a one-line title, the rewrite of indented lines leaves the text unchanged. |
| FileService.StoredNameIsOneComponent | backend/app/services/file_service.py:450-452 | The stored name is the MD5, `_` and one path component. |
| FileService.OldWordByName | backend/app/services/file_service.py:483-488 | A `.doc` name (any case) is refused as old Word unless the type says PDF or Word. |
| FileService.Squeezed | backend/app/services/file_service.py:499 | Text without whitespace is kept whole. Text of whitespace only becomes empty. |
| FileService.SqueezedAppend | backend/app/services/file_service.py:499 | Squeezing a concatenation squeezes each part. With the one-character cases, this keeps exactly the non-space characters in order. |
| FileService.ImageSectionsEmpty | backend/app/services/file_service.py:519-524 | No sections iff no image gave text. |
| FileService.ImageSectionsLabelled | backend/app/services/file_service.py:519-522 | Each section opens with its numbered label. |
| FileService.TooLargeWritesNothing | backend/app/services/file_service.py:446-448 | A body over the limit is refused before anything is written. |
| FileService.CachedUploadAnswersFromCache | backend/app/services/file_service.py:459-480 | A stored file with a cache is answered from it, with no extraction or write. |
| FileService.UploadSavedWhenNew | backend/app/services/file_service.py:459-466 | The body is saved, first, iff no file of that name was stored. |
| FileService.FailureRemovesOnlyNewFile | backend/app/services/file_service.py:572-578 | A failed request that saved the file ends by removing it. |
| FileService.ExistingFileKept | backend/app/services/file_service.py:459-466 | A file stored by an earlier upload is neither saved again nor removed, whatever the extraction gives. |
| FileService.SuccessIsCached | backend/app/services/file_service.py:557-570 | A success removes nothing and writes the text to the cache. |
| FileService.SuccessStored | backend/app/services/file_service.py:459-570 | After a success not answered from the cache, the file is stored and the cache holds the returned text. |
| FileService.UploadAnswer | backend/app/services/file_service.py:545-570 | The text is not blank. The URL is the stored file's or, after OCR, the generated PDF's. Background vectorisation is queued iff requested. |
| FileService.PdfOcrFallback | backend/app/services/file_service.py:493-508 | OCR runs iff the text layer has at most 100 non-space characters. OCR text replaces the layer only when longer. |
| FileService.UnsupportedKindsRefused | backend/app/services/file_service.py:532-543 | Old Word and unknown types are always refused. |
| FileService.WordImageFallback | backend/app/services/file_service.py:510-531 | A Word file without text uses the OCR of its images. It is refused when it has no images or no image gives text. |
| FileService.WordExtraction | backend/app/services/file_service.py:510-531 | A Word file with blank text and no images, or only unreadable images, is refused with its own error. Otherwise its text is the labelled image sections, not blank. |
| FileService.ReuploadAnswersFromCache | backend/app/services/file_service.py:459-480 | Re-uploading after a success returns the same text from the cache, with the stored file's URL (not the OCR PDF's). |
| FileService.ExtractorFailureReported | backend/app/services/file_service.py:264-266 | When the PDF or Word extractor raises, the upload fails with its message. A file saved by this request is removed, and an older one is kept. |
| FileService.FailureLeavesNoNewFile | backend/app/services/file_service.py:459-578 | A failed upload leaves no stored file unless one was there before. |
| FileService.OcrPdf | backend/app/services/file_service.py:609-652 | The batched OCR loop gives the labelled text of the first 35 pages, or `""` when the PDF cannot be opened. |
| FileService.RecognizeInBatches | backend/app/services/file_service.py:628-637 | Recognition in batches of five returns one result per page, in page order. |
| FileService.LabelPages | backend/app/services/file_service.py:639-649 | One labelled section per page, in page order: failed, with text, or empty. |
| FileService.PdfOcrSectionAt | backend/app/services/file_service.py:638-649 | Each page's section appears in page order at its offset in the join. |
| FileService.PageSectionInjective | backend/app/services/file_service.py:638-647 | A section tells which page it is and what OCR gave for it. |
| FileService.ScannedPdfAlwaysAccepted | backend/app/services/file_service.py:493-553 | A PDF with no text layer and at least one page is accepted, even if OCR failed on every page. |
| FileService.LayoutText | backend/app/services/file_service.py:581-606 | The drawing loop places exactly what the layout function places. |
| FileService.DrawnLines | backend/app/services/file_service.py:593-595 | No drawn line is blank. Non-blank lines are all drawn, and blank ones are all skipped. |
| FileService.DrawnLinesAppend | backend/app/services/file_service.py:593-595 | Drawing a concatenation draws each part. With the one-line cases, this keeps exactly the non-blank lines in order. |
| FileService.LayoutKeepsText | backend/app/services/file_service.py:588-603 | Nothing is lost or reordered: the pieces concatenate to the non-blank lines, and each piece fits a line. |
| FileService.LayoutPaginated | backend/app/services/file_service.py:596-603 | No piece falls below the bottom margin, and pages come in order. |
| FileService.ImageExt | backend/app/services/file_service.py:95-98 | png, gif, bmp (in that order) when the type names one, otherwise jpg. |
| FileService.DocxImages | backend/app/services/file_service.py:90-102 | At most one image per relationship, numbered 1, 2, … without gaps. |
| FileService.ExtractImages | backend/app/services/file_service.py:82-105 | The loop gives the images of the function, or none when the document cannot be opened. |
| FileService.DocxImagesAllReadable | backend/app/services/file_service.py:90-102 | When every relationship is a readable image, each is returned in order. |
| FileService.DocxImagesNone | backend/app/services/file_service.py:90-102 | No image relationships means no images. |
| FileService.SafeCleanup | backend/app/services/file_service.py:108-123 | `True` at the first attempt that does not raise. `False` when the last allowed attempt raises. The number of attempts made. |
| FileService.SafeCleanupInEventLoop | backend/app/services/file_service.py:108-123 | Inside the running loop, one attempt is made. A failed deletion that is not the last allowed one ends in the `RuntimeError` of `asyncio.run`. |
| ExportTools.LineParagraphStyle | backend/app/agents/tools/export_tools.py:54-63 | `# ` lines become Heading 1, `## ` lines Heading 2, others Normal. The marker plus text is the stripped line. |
| ExportTools.WriteText | backend/app/agents/tools/export_tools.py:52-63 | The text loop appends exactly the paragraphs of the text's non-blank lines. |
| ExportTools.WriteLine | backend/app/agents/tools/export_tools.py:53-63 | A blank line adds nothing. Any other line adds one paragraph, styled by its marker. |
| ExportTools.WriteSection | backend/app/agents/tools/export_tools.py:50-69 | The method appends the section's events. |
| ExportTools.ExportResponse | backend/app/agents/tools/export_tools.py:8-48 | The events from level 1 and the download URL. |
| ExportTools.TextEventsNoHeadings | backend/app/agents/tools/export_tools.py:52-63 | Text adds paragraphs only. |
| ExportTools.HeadingsAreTitles | backend/app/agents/tools/export_tools.py:50-69 | The headings are exactly the titles, in order. |
| ExportTools.HeadingLevelsBounded | backend/app/agents/tools/export_tools.py:64-69 | Heading levels lie between the starting level and 9. |

## Left out

- The language model, Milvus, web search and the OCR engine are external services. Their
  answers are function parameters or given sequences. This covers `ocr_image`, page OCR,
  chat streams and the level-1 expansion. Prompts are not modelled.
- The following are oracles: `json.loads`, `json.dumps`, `html.unescape`, MD5, PDF and Word
  text extraction, `str()` of an exception and the Word library's styling. An extraction is
  given as its text or as the message of the exception it raises.
- The file system is modelled as a `Storage` value plus a list of effects. Async I/O,
  concurrency (`asyncio.gather`, the semaphore, background tasks) and timing are not modelled.
  The number of heartbeats is a parameter.
- Python character classes are ASCII: `\s`, `\d`, `lower()`. The separators `\x1c` to `\x1f`,
  which `str.strip` and `\s` treat as whitespace, are not whitespace here.
- Paths are POSIX.
- The regexes are hand-written scanners with first-match semantics. `\n{3,}` and `\n\n+` are
  one function, which is equivalent.
- Floating point: ratios are exact rationals (in fifths), `round` is exact round-half-even
  and the code-line ratio test is done on integers.
- Docx fonts, indents, alignment, the cover page and the signature page are not modelled.
  Only the paragraph, run, heading and page-break calls are traced.
- `generate_pdf_from_text` always uses the default A4 page. The PDF library itself is not
  modelled, and neither are the exceptions of PDF generation or of the cache write (the
  latter is caught and only logged).
- The body of `process_vectorization_background` is not modelled. Only its queuing is.
- `search`, `search_async`, `_extract_content_with_requests` and the user-agent choice are not
  modelled. They do network I/O.
- Markdown.ParseMarkdownBlocks: models the corrected paragraph branch, since the loop as
  written does not terminate on some inputs (see Findings).
- Sse.ChatStreamResponse: uses the corrected key check. The as-written 500 is
  `ApiKeyGate.GateAsWritten`.
- OutlineRouter.GenerateOutline: uses the corrected key check.
- OpenAIService.FilterStream: uses the corrected think filter. The as-written filter is
  `OpenAIService.FilterAsWritten`.
- OpenAIService.StreamChat: filters with the corrected think filter, so what is built on it
  describes the corrected program. This covers `CollectStreamText`, `RetryUntilValid`,
  `GenerateWithJsonCheck`, `ProcessChapters`, `GenerateContentForOutline` and
  `Sse.ChatStreamResponse`. `StreamChatHidesOpenTag` holds for both filters.
- JsonUtil.Lookup: a parsed object is taken to hold each key once. For a duplicated key the
  model finds the first entry, where `json.loads` keeps the last.
- JsonUtil.RemoveThink: its own contract only bounds the length. What one pass removes is
  stated by `RemoveThinkUnchangedIff` and `RemoveThinkBlock`.
- FileService.Respond: removing the new file after a failure is an effect taken to succeed.
  When the deletion raises, the cleanup ends as `SafeCleanupInEventLoop` says (see Findings).
- JsonUtil.CheckJson: cleans with `CleanJsonStringFixed`. The as-written cleaner is
  `JsonUtil.CleanJsonString`.
- OpenAIService.GenerateOutlineV2: the level-1 titles come already parsed, and the random
  draw is given as parameters.

## Findings

| source | as written | input that shows it | evidently intended | confidence | as-written member | corrected member |
|---|---|---|---|---|---|---|
| backend/app/utils/json_util.py:10 | one non-overlapping `re.sub` pass removes `<think>…</think>` spans | `<thi<think></think>nk></think>` cleans to `<think></think>` | no complete think block survives cleaning | high (not executed) | JsonUtil.CleanJsonStringLeavesThinkSpan | JsonUtil.CleanJsonStringFixed |
| backend/app/services/openai_service.py:69-74 | a chunk with `<think>` sets `is_thinking` and `continue`s, even when it also holds `</think>` | chunks `<think>r</think>` then `Answer`: `Answer` is dropped | a chunk with a whole block leaves the filter outside it | high (not executed) | OpenAIService.WholeBlockChunkSwallowsAnswer | OpenAIService.ThinkStepFixedClosesBlock |
| backend/app/routers/document.py:117-123 | the paragraph branch collects only lines not starting with `-`, `*`, `#`, but the outer branch is taken for such lines too | the line `**bold**` (or `-x`): `i` never advances | the opening line is always consumed | high (not executed) | Markdown.BoldLineStalls | Markdown.ParseMarkdownBlocks |
| backend/app/services/file_service.py:108-123 | `_safe_file_cleanup` pauses between attempts with `asyncio.run`, but its only caller (line 577) runs inside the event loop | during a failed upload, the first deletion of the new file raises | a failed deletion is retried after half a second, and the upload reports its own error | high (not executed) | FileService.SafeCleanupInEventLoop | FileService.SafeCleanup |
| backend/app/routers/outline.py:24-25 | the 400 for a missing key is raised inside `try` and re-raised by `except Exception` as a 500 | no API key configured | the client gets the 400 with its own message | high (not executed) | ApiKeyGate.MissingKeyAnswers500 | ApiKeyGate.Gate |
