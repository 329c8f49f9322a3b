/** The skin-feedback service: it finds the analysis results in the request,
    asks the language model for a short comment and wraps the answer. The
    model call and the file and JSON readers are oracles. */
module FeedbackService {
  import opened Wrappers
  import opened PyStr
  import Schemas

  /** A JSON value as far as the service looks at it: an object, or any
      other value (list, string, number, null). */
  datatype Json = JDict(fields: map<string, Json>) | JOther

  /** The request keys `_extract_predictions` looks at; `None` is an absent
      "predictions" key (a present `None` there is a non-object `JOther`). */
  datatype FeedbackRequest = FeedbackRequest(
    predictions: Option<Json>,
    predictionsJson: Entry<string>,
    predictionsJsonPath: Entry<string>)

  const JsonParseFailure: string := "predictions_json 파싱 실패: "
  const JsonNotObject: string := "predictions_json 내에 올바른 JSON 객체가 없습니다."
  const PathLoadFailure: string := "predictions_json_path 파일 로드 실패: "
  const PathNotObject: string := "predictions_json_path의 JSON 구조가 올바르지 않습니다."
  const MissingInput: string :=
    "입력 누락: 'predictions' (dict) 또는 'predictions_json' (str) 또는 'predictions_json_path' (str)가 필요합니다."
  const EmptyReply: string := "LLM 응답이 비어 있습니다."
  /** `str(e)` of the `TypeError` that `json.loads(None)` raises. */
  const NoneJsonMessage: string := "the JSON object must be str, bytes or bytearray, not NoneType"
  /** `str(e)` of the `TypeError` that `open(None, ...)` raises. */
  const NonePathMessage: string := "expected str, bytes or os.PathLike object, not NoneType"

  /** A parsed file or string: an object holding a "predictions" object is
      unwrapped, any other object is taken whole, anything else is refused
      with `notObject`. */
  function Unwrap(raw: Json, notObject: string): (r: Result<map<string, Json>>)
    ensures r.Ok? <==> raw.JDict?
    ensures raw.JDict? && "predictions" in raw.fields && raw.fields["predictions"].JDict? ==>
              r == Ok(raw.fields["predictions"].fields)
    ensures raw.JDict? && ("predictions" !in raw.fields || raw.fields["predictions"].JOther?) ==>
              r == Ok(raw.fields)
    ensures raw.JOther? ==> r == Err(notObject)
  {
    if raw.JDict? && "predictions" in raw.fields && raw.fields["predictions"].JDict? then
      Ok(raw.fields["predictions"].fields)
    else if raw.JDict? then Ok(raw.fields)
    else Err(notObject)
  }

  /** Reading a present entry: `None` raises the given `TypeError`, a string
      goes to the reader. */
  function ReadEntry(e: Entry<string>, reader: string -> Result<Json>, noneMessage: string): Result<Json>
    requires !e.Absent?
  {
    if e.Null? then Err(noneMessage) else reader(e.value)
  }

  /** `_extract_predictions(request)`. `parse` is `json.loads` and `load`
      reads and parses a file; each gives `Err(str(e))` when it raises. */
  function ExtractPredictions(req: FeedbackRequest, parse: string -> Result<Json>,
                              load: string -> Result<Json>): Result<map<string, Json>>
  {
    if req.predictions.Some? && req.predictions.value.JDict? then Ok(req.predictions.value.fields)
    else if !req.predictionsJson.Absent? then
      match ReadEntry(req.predictionsJson, parse, NoneJsonMessage)
      case Err(e) => Err(JsonParseFailure + e)
      case Ok(raw) => Unwrap(raw, JsonNotObject)
    else if !req.predictionsJsonPath.Absent? then
      match ReadEntry(req.predictionsJsonPath, load, NonePathMessage)
      case Err(e) => Err(PathLoadFailure + e)
      case Ok(raw) => Unwrap(raw, PathNotObject)
    else Err(MissingInput)
  }

  /** An object under "predictions" wins over both other sources. */
  lemma DictPredictionsWin(req: FeedbackRequest, parse: string -> Result<Json>, load: string -> Result<Json>)
    requires req.predictions.Some? && req.predictions.value.JDict?
    ensures ExtractPredictions(req, parse, load) == Ok(req.predictions.value.fields)
  {
  }

  /** A "predictions" value that is not an object is ignored. */
  lemma NonDictPredictionsIgnored(req: FeedbackRequest, parse: string -> Result<Json>, load: string -> Result<Json>)
    requires req.predictions.Some? && req.predictions.value.JOther?
    ensures ExtractPredictions(req, parse, load) == ExtractPredictions(req.(predictions := None), parse, load)
  {
  }

  /** "predictions_json" is consulted before the path, whatever the file holds. */
  lemma JsonStringBeforePath(req: FeedbackRequest, parse: string -> Result<Json>,
                             load1: string -> Result<Json>, load2: string -> Result<Json>)
    requires !req.predictionsJson.Absent?
    ensures ExtractPredictions(req, parse, load1) == ExtractPredictions(req, parse, load2)
    ensures ExtractPredictions(req, parse, load1) == ExtractPredictions(req.(predictionsJsonPath := Absent), parse, load1)
  {
  }

  /** Without any of the three keys the request is refused. */
  lemma NoSourceRefused(req: FeedbackRequest, parse: string -> Result<Json>, load: string -> Result<Json>)
    requires req.predictions.None? && req.predictionsJson.Absent? && req.predictionsJsonPath.Absent?
    ensures ExtractPredictions(req, parse, load) == Err(MissingInput)
  {
  }

  /** The extraction succeeds exactly when the chosen source yields an object. */
  lemma ExtractOkIffObject(req: FeedbackRequest, parse: string -> Result<Json>, load: string -> Result<Json>)
    ensures ExtractPredictions(req, parse, load).Ok? <==>
              (req.predictions.Some? && req.predictions.value.JDict?) ||
              (!(req.predictions.Some? && req.predictions.value.JDict?) && req.predictionsJson.Present? &&
                 parse(req.predictionsJson.value).Ok? && parse(req.predictionsJson.value).value.JDict?) ||
              (!(req.predictions.Some? && req.predictions.value.JDict?) && req.predictionsJson.Absent? &&
                 req.predictionsJsonPath.Present? &&
                 load(req.predictionsJsonPath.value).Ok? && load(req.predictionsJsonPath.value).value.JDict?)
  {
  }

  // ---------------------------------------------------------------------
  // `_call_llm` and `run_inference`
  // ---------------------------------------------------------------------

  /** `_call_llm`: `reply` is `resp.text` (`None` when absent) or the
      exception the model raised; `loadedName` is `get_loaded_model_name()`. */
  function CallLlm(reply: Result<Option<string>>, loadedName: Option<string>): (r: Result<(string, string)>)
    ensures r.Ok? ==> Strip(r.value.0) == r.value.0 && r.value.0 != ""
    ensures reply.Ok? && r.Err? ==> r.msg == EmptyReply
  {
    match reply
    case Err(e) => Err(e)
    case Ok(t) =>
      var text := Strip(t.GetOr(""));
      if text == "" then Err(EmptyReply)
      else
        StripTrimmed(text);
        Ok((text, if loadedName.Some? && loadedName.value != "" then loadedName.value else "unknown"))
  }

  /** Whitespace-only text is an empty reply. */
  lemma BlankReplyFails(t: string, loadedName: Option<string>)
    requires forall i :: 0 <= i < |t| ==> IsSpace(t[i])
    ensures CallLlm(Ok(Some(t)), loadedName) == Err(EmptyReply)
  {
    StripEmptyIffBlank(t);
  }

  /** A reply with any non-space character succeeds, with the text stripped. */
  lemma NonBlankReplySucceeds(t: string, loadedName: Option<string>)
    requires exists i :: 0 <= i < |t| && !IsSpace(t[i])
    ensures CallLlm(Ok(Some(t)), loadedName).Ok?
    ensures CallLlm(Ok(Some(t)), loadedName).value.0 == Strip(t)
  {
    StripEmptyIffBlank(t);
  }

  datatype FeedbackResponse = FeedbackSuccess(feedback: string, model: string) | FeedbackFailed(message: string)

  /** `run_inference`: `render` is `_build_prompt` (its template text is not
      modelled) and `llm` the model's answer to a prompt. */
  function RunInference(req: FeedbackRequest, parse: string -> Result<Json>, load: string -> Result<Json>,
                        render: map<string, Json> -> string,
                        llm: string -> Result<Option<string>>, loadedName: Option<string>): (r: FeedbackResponse)
    ensures r.FeedbackSuccess? <==>
              ExtractPredictions(req, parse, load).Ok? &&
              CallLlm(llm(render(ExtractPredictions(req, parse, load).value)), loadedName).Ok?
    ensures ExtractPredictions(req, parse, load).Err? ==> r == FeedbackFailed(ExtractPredictions(req, parse, load).msg)
    ensures r.FeedbackSuccess? ==> r.feedback != "" && Strip(r.feedback) == r.feedback
  {
    match ExtractPredictions(req, parse, load)
    case Err(e) => FeedbackFailed(e)
    case Ok(pred) =>
      match CallLlm(llm(render(pred)), loadedName)
      case Err(e) => FeedbackFailed(e)
      case Ok(tm) => FeedbackSuccess(tm.0, tm.1)
  }

  // ---------------------------------------------------------------------
  // The request as the API layer sends it: `request.model_dump()`.
  // ---------------------------------------------------------------------

  /** The dumped `FeedbackRequest` always holds the "predictions_json_path"
      key, with `None` when the client gave no path. */
  function Dump(r: Schemas.FeedbackRequest): (d: FeedbackRequest)
    ensures d.predictions.None? && d.predictionsJson.Absent? && !d.predictionsJsonPath.Absent?
  {
    FeedbackRequest(None, Absent, if r.predictionsJsonPath.Some? then Present(r.predictionsJsonPath.value) else Null)
  }

  /** A given path is what the service loads. */
  lemma DumpedPathIsLoaded(path: string, parse: string -> Result<Json>, load: string -> Result<Json>)
    ensures var d := Dump(Schemas.FeedbackRequest(Some(path)));
            ExtractPredictions(d, parse, load) ==
              match load(path)
              case Err(e) => Err(PathLoadFailure + e)
              case Ok(raw) => Unwrap(raw, PathNotObject)
  {
  }

  /** The default request (no path) reaches `open(None)`: it is refused with
      the load failure, whatever the file system and the language model hold;
      the service never falls back to a default file. */
  lemma DefaultRequestNeverLoads(parse: string -> Result<Json>, load: string -> Result<Json>,
                                 render: map<string, Json> -> string,
                                 llm: string -> Result<Option<string>>, loadedName: Option<string>)
    ensures ExtractPredictions(Dump(Schemas.FeedbackRequestDefault()), parse, load) ==
            Err(PathLoadFailure + NonePathMessage)
    ensures RunInference(Dump(Schemas.FeedbackRequestDefault()), parse, load, render, llm, loadedName) ==
            FeedbackFailed(PathLoadFailure + NonePathMessage)
  {
  }
}
