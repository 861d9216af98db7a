/**
 * The API-key check at the head of the streaming endpoints (`routers/outline.py`,
 * `routers/document.py`): with no key configured the endpoint refuses with an HTTP error
 * instead of opening a stream. The check sits inside a `try` whose `except Exception` turns
 * whatever was raised into a 500 with the endpoint's failure prefix; that handler also catches
 * the 400 the check itself raises.
 */
module ApiKeyGate {
  import opened Wrappers

  /** An `HTTPException`: its status code and its detail text. */
  datatype HttpError = HttpError(status: nat, detail: string)

  const MissingKeyDetail := "请先配置OpenAI API密钥"

  /** `not config.get('api_key')`: the key is absent or empty. */
  predicate KeyMissing(apiKey: Option<string>)
  {
    apiKey.None? || apiKey.value == []
  }

  /**
   * The check as written: the 400 is raised inside the `try`, caught by the endpoint's own
   * `except Exception` and re-raised as a 500 whose detail is `prefix` followed by the text of
   * the 400 (`describe` stands for `str()` of the exception).
   */
  function GateAsWritten(apiKey: Option<string>, prefix: string, describe: HttpError -> string): (r: Result<(), HttpError>)
    ensures r.Err? <==> KeyMissing(apiKey)
    ensures r.Err? ==> r.error.status == 500 && |r.error.detail| >= |prefix| && r.error.detail[..|prefix|] == prefix
  {
    if KeyMissing(apiKey) then Err(HttpError(500, prefix + describe(HttpError(400, MissingKeyDetail))))
    else Ok(())
  }

  /** A missing key never reaches the client as the 400 the check raises. */
  lemma MissingKeyAnswers500(prefix: string, describe: HttpError -> string)
    ensures GateAsWritten(None, prefix, describe).Err?
    ensures GateAsWritten(None, prefix, describe).error != HttpError(400, MissingKeyDetail)
  {
  }

  /** The check as intended: a missing key is answered with the 400 and its own detail. */
  function Gate(apiKey: Option<string>): (r: Result<(), HttpError>)
    ensures r.Err? <==> KeyMissing(apiKey)
    ensures r.Err? ==> r.error == HttpError(400, MissingKeyDetail)
  {
    if KeyMissing(apiKey) then Err(HttpError(400, MissingKeyDetail)) else Ok(())
  }

  /** With a key configured, both versions let the request through; they differ only on the error. */
  lemma GateAgreesWithKey(apiKey: Option<string>, prefix: string, describe: HttpError -> string)
    ensures GateAsWritten(apiKey, prefix, describe).Ok? <==> Gate(apiKey).Ok?
    ensures Gate(apiKey).Err? ==> GateAsWritten(apiKey, prefix, describe).error.status != Gate(apiKey).error.status
  {
  }
}
