/**
 * The server-sent-event records the streaming endpoints emit: `data: {json}\n\n` records whose
 * JSON object carries a `chunk` field (and, for a failure, `error` and `message`), and the
 * closing `data: [DONE]\n\n` record. The JSON text of a payload is produced by `json.dumps`,
 * which stays a parameter.
 */
module Sse {
  import opened Wrappers
  import opened Strings
  import opened JsonUtil
  import opened ApiKeyGate
  import OpenAIService

  datatype Record =
    | ChunkRecord(chunk: string)     // {"chunk": chunk}
    | ErrorRecord(message: string)   // {"chunk": "", "error": true, "message": message}
    | DoneRecord                     // [DONE]

  /** The JSON object a data record carries. */
  function Payload(r: Record): Json
    requires !r.DoneRecord?
  {
    match r
    case ChunkRecord(c) => JObject([("chunk", JStr(c))])
    case ErrorRecord(m) => JObject([("chunk", JStr("")), ("error", JBool(true)), ("message", JStr(m))])
  }

  /** The text written to the wire for one record. */
  function Frame(r: Record, dumps: Json -> string): (t: string)
    ensures StartsWith(t, "data: ") && EndsWith(t, "\n\n")
  {
    if r.DoneRecord? then "data: [DONE]\n\n" else "data: " + dumps(Payload(r)) + "\n\n"
  }

  /** The `chunk` fields of the data records, in order. */
  function ChunkFields(records: seq<Record>): (r: seq<string>)
    ensures |r| <= |records|
  {
    if records == [] then []
    else
      var last := match records[|records| - 1]
        case ChunkRecord(c) => [c]
        case ErrorRecord(_) => [""]
        case DoneRecord => [];
      ChunkFields(records[..|records| - 1]) + last
  }

  lemma {:induction false} ChunkFieldsAppend(a: seq<Record>, b: seq<Record>)
    ensures ChunkFields(a + b) == ChunkFields(a) + ChunkFields(b)
    decreases |b|
  {
    if b == [] {
      assert a + b == a;
    } else {
      ChunkFieldsAppend(a, b[..|b| - 1]);
      assert (a + b)[..|a + b| - 1] == a + b[..|b| - 1];
    }
  }

  /** The stream ends with a `[DONE]` record, and that is the only one. */
  predicate EndsWithOneDone(records: seq<Record>)
  {
    |records| >= 1 && records[|records| - 1] == DoneRecord
    && forall k :: 0 <= k < |records| - 1 ==> records[k] != DoneRecord
  }

  /** One chunk record per piece, in order. */
  function ChunkRecords(pieces: seq<string>): (r: seq<Record>)
    ensures |r| == |pieces|
  {
    seq(|pieces|, k requires 0 <= k < |pieces| => ChunkRecord(pieces[k]))
  }

  /** The chunk records of some pieces carry the pieces, so their chunk fields concatenate to the pieces' text. */
  lemma {:induction false} ChunkRecordsCarryPieces(pieces: seq<string>)
    ensures ChunkFields(ChunkRecords(pieces)) == pieces
    decreases |pieces|
  {
    if pieces != [] {
      var init := pieces[..|pieces| - 1];
      ChunkRecordsCarryPieces(init);
      assert ChunkRecords(pieces)[..|pieces| - 1] == ChunkRecords(init);
    }
  }

  /**
   * The generators that forward a text stream: each piece becomes one chunk record, in order,
   * and one `[DONE]` record follows.
   */
  method ForwardChunks(pieces: seq<string>) returns (records: seq<Record>)
    ensures records == ChunkRecords(pieces) + [DoneRecord]
    ensures EndsWithOneDone(records)
    ensures ChunkFields(records) == pieces
  {
    records := [];
    var i := 0;
    while i < |pieces|
      invariant 0 <= i <= |pieces|
      invariant records == ChunkRecords(pieces[..i])
    {
      assert ChunkRecords(pieces[..i + 1]) == ChunkRecords(pieces[..i]) + [ChunkRecord(pieces[i])];
      records := records + [ChunkRecord(pieces[i])];
      i := i + 1;
    }
    assert pieces[..i] == pieces;
    records := records + [DoneRecord];
    ChunkRecordsCarryPieces(pieces);
    ChunkFieldsAppend(ChunkRecords(pieces), [DoneRecord]);
  }

  /**
   * The chat-streaming endpoints (`/api/outline/generate-stream`, `/api/document/analyze-stream`):
   * the key check (as intended: a missing key is a 400), then one chunk record per piece the
   * chat stream yields, in order, and `[DONE]`. The reassembled text is the whole reply.
   */
  method ChatStreamResponse(apiKey: Option<string>, s: OpenAIService.Stream)
    returns (response: Result<seq<Record>, HttpError>)
    ensures response.Err? <==> KeyMissing(apiKey)
    ensures response.Err? ==> response.error == HttpError(400, MissingKeyDetail)
    ensures response.Ok? ==> response.value == ChunkRecords(OpenAIService.StreamChat(s)) + [DoneRecord]
    ensures response.Ok? ==> EndsWithOneDone(response.value)
    ensures response.Ok? ==> Concat(ChunkFields(response.value)) == OpenAIService.Reply(s)
  {
    var gate := Gate(apiKey);
    if gate.Err? {
      return Err(gate.error);
    }
    var records := ForwardChunks(OpenAIService.StreamChat(s));
    return Ok(records);
  }
}
