/**
 * `routers/outline.py`: the two outline endpoints. `/generate` computes the whole outline in the
 * background, sends empty heartbeat records while it waits, then sends the result text in
 * pieces of 128 characters, or one error record, and `[DONE]`. (`/generate-stream` is
 * `Sse.ChatStreamResponse`.) Both first check that an API key is configured.
 */
module OutlineRouter {
  import opened Wrappers
  import opened Strings
  import opened JsonUtil
  import opened Sse
  import opened ApiKeyGate

  const ChunkSize := 128

  /**
   * `for i in range(0, len(text), 128): text[i:i+128]`: consecutive pieces of the text, all of
   * 128 characters except possibly the last, which is never empty.
   */
  method ChunkPieces(text: string) returns (pieces: seq<string>)
    ensures Concat(pieces) == text
    ensures forall k :: 0 <= k < |pieces| ==> 1 <= |pieces[k]| <= ChunkSize
    ensures forall k :: 0 <= k < |pieces| - 1 ==> |pieces[k]| == ChunkSize
    ensures |pieces| == (|text| + ChunkSize - 1) / ChunkSize
  {
    pieces := [];
    var i := 0;
    while i < |text|
      invariant i == ChunkSize * |pieces|
      invariant i <= |text| ==> Concat(pieces) == text[..i]
      invariant i > |text| ==> Concat(pieces) == text && |pieces| >= 1 && i - ChunkSize < |text|
      invariant forall k :: 0 <= k < |pieces| ==> 1 <= |pieces[k]| <= ChunkSize
      invariant i <= |text| ==> forall k :: 0 <= k < |pieces| ==> |pieces[k]| == ChunkSize
      invariant forall k :: 0 <= k < |pieces| - 1 ==> |pieces[k]| == ChunkSize
    {
      var end := if i + ChunkSize <= |text| then i + ChunkSize else |text|;
      var piece := text[i..end];
      ConcatSnoc(pieces, piece);
      assert text[..i] + piece == text[..end];
      if end == |text| {
        assert text[..end] == text;
      }
      pieces := pieces + [piece];
      i := i + ChunkSize;
    }
  }

  /** What `compute_task` returned: a dict (the outline) or any other value, already stringified. */
  datatype Computed = DictResult(value: Json) | OtherResult(text: string)

  /** `json.dumps(result) if isinstance(result, dict) else str(result)`. */
  function ResultText(c: Computed, dumps: Json -> string): string
  {
    match c
    case DictResult(v) => dumps(v)
    case OtherResult(s) => s
  }

  const FailurePrefix := "目录生成失败: "

  /** `n` heartbeat records, each with an empty chunk. */
  function Heartbeats(n: nat): (r: seq<Record>)
    ensures |r| == n && forall k :: 0 <= k < n ==> r[k] == ChunkRecord("")
  {
    if n == 0 then [] else Heartbeats(n - 1) + [ChunkRecord("")]
  }

  /** Heartbeats add nothing to the text a client reassembles from the chunk fields. */
  lemma {:induction false} HeartbeatsCarryNothing(n: nat)
    ensures Concat(ChunkFields(Heartbeats(n))) == ""
  {
    if n > 0 {
      HeartbeatsCarryNothing(n - 1);
      ChunkFieldsAppend(Heartbeats(n - 1), [ChunkRecord("")]);
      assert ChunkFields([ChunkRecord("")]) == [""] by {
        assert [ChunkRecord("")][..0] == [];
      }
      ConcatSnoc(ChunkFields(Heartbeats(n - 1)), "");
    }
  }

  /** Records sent after the heartbeats keep their meaning: heartbeats end nothing and carry no text. */
  lemma AfterHeartbeats(n: nat, tail: seq<Record>)
    requires EndsWithOneDone(tail)
    ensures (Heartbeats(n) + tail)[..n] == Heartbeats(n)
    ensures EndsWithOneDone(Heartbeats(n) + tail)
    ensures Concat(ChunkFields(Heartbeats(n) + tail)) == Concat(ChunkFields(tail))
  {
    assert (Heartbeats(n) + tail)[..n] == Heartbeats(n);
    HeartbeatsEndNothing(n, tail);
    HeartbeatsCarryNothing(n);
    ChunkFieldsAppend(Heartbeats(n), tail);
    ConcatAppend(ChunkFields(Heartbeats(n)), ChunkFields(tail));
  }

  lemma HeartbeatsEndNothing(n: nat, tail: seq<Record>)
    requires EndsWithOneDone(tail)
    ensures EndsWithOneDone(Heartbeats(n) + tail)
  {
    var all := Heartbeats(n) + tail;
    assert all[|all| - 1] == tail[|tail| - 1];
    forall k | 0 <= k < |all| - 1
      ensures all[k] != DoneRecord
    {
      if k >= n {
        assert all[k] == tail[k - n];
      } else {
        assert all[k] == Heartbeats(n)[k];
      }
    }
  }

  /** The result text in pieces, one chunk record each, then `[DONE]`. */
  method SendPieces(text: string) returns (tail: seq<Record>)
    ensures EndsWithOneDone(tail)
    ensures Concat(ChunkFields(tail)) == text
    ensures forall k :: 0 <= k < |tail| ==> !tail[k].ErrorRecord?
    ensures |tail| == (|text| + ChunkSize - 1) / ChunkSize + 1
  {
    var pieces := ChunkPieces(text);
    tail := ForwardChunks(pieces);
  }

  /**
   * The `/generate` stream once the key check has passed: `heartbeats` empty records while the
   * outline is computed (how many depends on timing), then either the result text in pieces
   * or, when the computation raised, one error record; `[DONE]` ends both.
   */
  method GenerateRecords(heartbeats: nat, outcome: Result<Computed, string>, dumps: Json -> string)
    returns (records: seq<Record>)
    ensures |records| > heartbeats && records[..heartbeats] == Heartbeats(heartbeats)
    ensures EndsWithOneDone(records)
    ensures outcome.Ok? ==> Concat(ChunkFields(records)) == ResultText(outcome.value, dumps)
    ensures outcome.Ok? ==> forall k :: 0 <= k < |records| ==> !records[k].ErrorRecord?
    ensures outcome.Ok? ==>
      |records| == heartbeats + (|ResultText(outcome.value, dumps)| + ChunkSize - 1) / ChunkSize + 1
    ensures outcome.Err? ==> records == Heartbeats(heartbeats) + [ErrorRecord(FailurePrefix + outcome.error), DoneRecord]
  {
    records := SendHeartbeats(heartbeats);
    var tail := SendOutcome(outcome, dumps);
    AfterHeartbeats(heartbeats, tail);
    if outcome.Ok? {
      HeartbeatsAddNoError(heartbeats, tail);
    }
    records := records + tail;
  }

  /** The empty records sent while the outline is computed. */
  method SendHeartbeats(n: nat) returns (records: seq<Record>)
    ensures records == Heartbeats(n)
  {
    records := [];
    var k := 0;
    while k < n
      invariant k <= n && records == Heartbeats(k)
    {
      records := records + [ChunkRecord("")];
      k := k + 1;
    }
  }

  /** What follows the heartbeats: the result in pieces, or one error record; then `[DONE]`. */
  method SendOutcome(outcome: Result<Computed, string>, dumps: Json -> string) returns (tail: seq<Record>)
    ensures EndsWithOneDone(tail)
    ensures outcome.Ok? ==> Concat(ChunkFields(tail)) == ResultText(outcome.value, dumps)
    ensures outcome.Ok? ==> forall k :: 0 <= k < |tail| ==> !tail[k].ErrorRecord?
    ensures outcome.Ok? ==> |tail| == (|ResultText(outcome.value, dumps)| + ChunkSize - 1) / ChunkSize + 1
    ensures outcome.Err? ==> tail == [ErrorRecord(FailurePrefix + outcome.error), DoneRecord]
  {
    match outcome {
      case Ok(result) =>
        tail := SendPieces(ResultText(result, dumps));
      case Err(e) =>
        tail := [ErrorRecord(FailurePrefix + e), DoneRecord];
    }
  }

  lemma HeartbeatsAddNoError(n: nat, tail: seq<Record>)
    requires forall k :: 0 <= k < |tail| ==> !tail[k].ErrorRecord?
    ensures forall k :: 0 <= k < |Heartbeats(n) + tail| ==> !(Heartbeats(n) + tail)[k].ErrorRecord?
  {
    var all := Heartbeats(n) + tail;
    forall j | 0 <= j < |all|
      ensures !all[j].ErrorRecord?
    {
      if j >= n {
        assert all[j] == tail[j - n];
      } else {
        assert all[j] == Heartbeats(n)[j];
      }
    }
  }

  /**
   * `/generate`: the key check (as intended: a missing key is a 400), then the record stream.
   * The text a client reassembles from the chunk fields is the result text whatever the number
   * of heartbeats.
   */
  method GenerateOutline(apiKey: Option<string>, heartbeats: nat, outcome: Result<Computed, string>,
                         dumps: Json -> string)
    returns (response: Result<seq<Record>, HttpError>)
    ensures response.Err? <==> KeyMissing(apiKey)
    ensures response.Err? ==> response.error == HttpError(400, MissingKeyDetail)
    ensures response.Ok? ==> EndsWithOneDone(response.value)
    ensures response.Ok? && outcome.Ok? ==>
      Concat(ChunkFields(response.value)) == ResultText(outcome.value, dumps)
    ensures response.Ok? && outcome.Err? ==>
      response.value == Heartbeats(heartbeats) + [ErrorRecord(FailurePrefix + outcome.error), DoneRecord]
  {
    var gate := Gate(apiKey);
    if gate.Err? {
      return Err(gate.error);
    }
    var records := GenerateRecords(heartbeats, outcome, dumps);
    return Ok(records);
  }
}
