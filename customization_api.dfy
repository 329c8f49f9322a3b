/** The `/custom/apply` endpoint: it normalises the request's edits in place,
    calls the customisation service and turns the service's answer into the
    API response, saving the result image under the output directory. */
module CustomizationApi {
  import opened Wrappers
  import opened PyStr

  // ---------------------------------------------------------------------
  // Region alias map and intensity clamp.
  // ---------------------------------------------------------------------

  /** The region names the service understands. */
  predicate ServiceRegion(r: string) {
    r == "eyelid" || r == "lip" || r == "blush" || r == "skin"
  }

  /** The names `_REGION_MAP` has a key for. */
  predicate Aliased(r: string) {
    r == "eye" || ServiceRegion(r)
  }

  /** `_REGION_MAP.get(r, r)` */
  function RegionAlias(r: string): (a: string)
    ensures Aliased(r) ==> ServiceRegion(a)
    ensures r == "eye" ==> a == "eyelid"
    ensures r != "eye" ==> a == r
  {
    if r == "eye" then "eyelid" else r
  }

  /** Mapping twice is mapping once. */
  lemma RegionAliasIdempotent(r: string)
    ensures RegionAlias(RegionAlias(r)) == RegionAlias(r)
  {
  }

  /** The two comparisons of the loop: below 0 becomes 0, above 100 becomes 100. */
  function ClampIntensity(x: real): (c: real)
    ensures 0.0 <= c <= 100.0
    ensures 0.0 <= x <= 100.0 ==> c == x
    ensures x < 0.0 ==> c == 0.0
    ensures x > 100.0 ==> c == 100.0
  {
    var lowered := if x < 0.0 then 0.0 else x;
    if lowered > 100.0 then 100.0 else lowered
  }

  lemma ClampIdempotent(x: real)
    ensures ClampIntensity(ClampIntensity(x)) == ClampIntensity(x)
  {
  }

  /** One edit with the attributes the loop reads and writes. */
  datatype EditRecord = EditRecord(region: string, intensity: real)

  /** What one iteration of the loop leaves in an edit. */
  function Normalize(e: EditRecord): EditRecord {
    EditRecord(RegionAlias(e.region), ClampIntensity(e.intensity))
  }

  predicate IsNormal(e: EditRecord) {
    (Aliased(e.region) ==> ServiceRegion(e.region)) && 0.0 <= e.intensity <= 100.0
  }

  /** A normalised edit names a service region when its name was known, has
      an intensity in [0, 100], and normalising it again changes nothing. */
  lemma NormalizeIsNormal(e: EditRecord)
    ensures IsNormal(Normalize(e))
    ensures Normalize(Normalize(e)) == Normalize(e)
  {
    RegionAliasIdempotent(e.region);
    ClampIdempotent(e.intensity);
  }

  lemma NormalIsFixed(e: EditRecord)
    requires IsNormal(e) && e.region != "eye"
    ensures Normalize(e) == e
  {
  }

  /** The loop over `request.edits`: each edit is rewritten in place. */
  method NormalizeEdits(edits: array<EditRecord>)
    modifies edits
    ensures forall i :: 0 <= i < edits.Length ==> edits[i] == Normalize(old(edits[i]))
  {
    var k := 0;
    while k < edits.Length
      invariant 0 <= k <= edits.Length
      invariant forall i :: 0 <= i < k ==> edits[i] == Normalize(old(edits[i]))
      invariant forall i :: k <= i < edits.Length ==> edits[i] == old(edits[i])
    {
      edits[k] := Normalize(edits[k]);
      k := k + 1;
    }
  }

  // ---------------------------------------------------------------------
  // Response branching.
  // ---------------------------------------------------------------------

  /** The dictionary `run_inference` returns: `status`, `message` and
      `result_image_base64`, each possibly absent. */
  datatype ServiceResult = ServiceResult(status: Option<string>, message: Option<string>, image: Option<string>)

  datatype ApiResponse = ApiResponse(status: string, resultImage: Option<string>, message: Option<string>)

  /** The outcomes of the file-system and codec calls after the service:
      `os.makedirs`, decoding the result, `img.save`, and the timestamp and
      re-encoded image those calls give. */
  datatype Environment = Environment(
    makedirsError: Option<string>,
    decodeError: Option<string>,
    saveError: Option<string>,
    timestamp: string,
    reencoded: string)

  /** `os.path.join("data", "output")`, the directory used when the
      environment does not override it. */
  const DefaultOutputDir: string := "data/output"
  const DefaultFailureMessage: string := "커스터마이즈 실패"
  const EmptyImageMessage: string := "결과 이미지가 비어있습니다."
  const InternalPrefix: string := "Internal Server Error: "

  function Internal(e: string): ApiResponse {
    ApiResponse("error", None, Some(InternalPrefix + e))
  }

  /** `os.path.join(OUTPUT_DIR, f"custom_{ts}.png")` */
  function SavedPath(outputDir: string, ts: string): (p: string)
    ensures StartsWith(p, outputDir) && EndsWith(p, ".png")
  {
    var p := outputDir + "/custom_" + ts + ".png";
    assert p[..|outputDir|] == outputDir;
    assert p[|p| - 4..] == ".png";
    p
  }

  function SavedMessage(path: string): string {
    "saved: " + path
  }

  /** The branches after `run_inference` returns. */
  function Respond(result: ServiceResult, env: Environment, outputDir: string): (r: ApiResponse)
    ensures r.status == "success" || r.status == "error"
    ensures r.status == "success" <==>
              result.status == Some("success") && env.makedirsError.None? &&
              result.image.Some? && result.image.value != "" &&
              env.decodeError.None? && env.saveError.None?
    ensures r.status == "error" ==> r.resultImage.None?
  {
    if result.status != Some("success") then
      ApiResponse("error", None, Some(result.message.GetOr(DefaultFailureMessage)))
    else if env.makedirsError.Some? then Internal(env.makedirsError.value)
    else if result.image.None? || result.image.value == "" then
      ApiResponse("error", None, Some(EmptyImageMessage))
    else if env.decodeError.Some? then Internal(env.decodeError.value)
    else if env.saveError.Some? then Internal(env.saveError.value)
    else ApiResponse("success", Some(env.reencoded), Some(SavedMessage(SavedPath(outputDir, env.timestamp))))
  }

  /** A status other than "success" is reported as an error with the
      service's message, or the fixed default when it gave none. */
  lemma ServiceFailurePassesMessage(result: ServiceResult, env: Environment, outputDir: string)
    requires result.status != Some("success")
    ensures Respond(result, env, outputDir).status == "error"
    ensures Respond(result, env, outputDir).message ==
              Some(if result.message.Some? then result.message.value else DefaultFailureMessage)
  {
  }

  /** A successful service call without an image gives the empty-image
      message (once the output directory exists). */
  lemma EmptyImageReported(result: ServiceResult, env: Environment, outputDir: string)
    requires result.status == Some("success") && env.makedirsError.None?
    requires result.image == None || result.image == Some("")
    ensures Respond(result, env, outputDir) == ApiResponse("error", None, Some(EmptyImageMessage))
  {
  }

  /** Every raised error ends as an "Internal Server Error: ..." message. */
  lemma ErrorsAreInternal(result: ServiceResult, env: Environment, outputDir: string)
    requires result.status == Some("success")
    requires env.makedirsError.Some? ||
             (result.image.Some? && result.image.value != "" && (env.decodeError.Some? || env.saveError.Some?))
    ensures Respond(result, env, outputDir).status == "error"
    ensures StartsWith(Respond(result, env, outputDir).message.value, InternalPrefix)
  {
    var m := Respond(result, env, outputDir).message.value;
    assert m[..|InternalPrefix|] == InternalPrefix;
  }

  // ---------------------------------------------------------------------
  // The response model as declared: both `Optional[str]` fields required.
  // ---------------------------------------------------------------------

  /** What reaches the client: a validated response, or the framework's
      plain "Internal Server Error" page when an exception leaves the
      handler. */
  datatype Outcome = Sent(response: ApiResponse) | PlainServerError

  /** The text of the `ValidationError` a missing field raises; it is only
      ever caught and embedded in another message. */
  const ValidationMessage: string := "1 validation error for CustomizationResponse"

  function OptionOf(e: Entry<string>): Option<string> {
    if e.Present? then Some(e.value) else None
  }

  /** `CustomizationResponse(status=..., ...)` under pydantic 2, where a
      field typed `Optional[str]` with no default must still be passed:
      `Absent` marks a keyword the call leaves out. */
  function Construct(status: string, image: Entry<string>, message: Entry<string>): (r: Result<ApiResponse>)
    ensures r.Ok? <==> !image.Absent? && !message.Absent?
    ensures r.Err? ==> r.msg == ValidationMessage
    ensures r.Ok? ==> r.value == ApiResponse(status, OptionOf(image), OptionOf(message))
  {
    if image.Absent? || message.Absent? then Err(ValidationMessage)
    else Ok(ApiResponse(status, OptionOf(image), OptionOf(message)))
  }

  /** The body of the `try` as written: each `return` builds its response,
      and `Err` is the exception raised on the way. */
  function BodyAsWritten(result: ServiceResult, env: Environment, outputDir: string): Result<ApiResponse> {
    if result.status != Some("success") then
      Construct("error", Absent, Present(result.message.GetOr(DefaultFailureMessage)))
    else if env.makedirsError.Some? then Err(env.makedirsError.value)
    else if result.image.None? || result.image.value == "" then
      Construct("error", Absent, Present(EmptyImageMessage))
    else if env.decodeError.Some? then Err(env.decodeError.value)
    else if env.saveError.Some? then Err(env.saveError.value)
    else Construct("success", Present(env.reencoded), Present(SavedMessage(SavedPath(outputDir, env.timestamp))))
  }

  /** `except Exception as e: return CustomizationResponse(status="error", message=...)`,
      whose own construction raises again. */
  function Caught(e: string): (o: Outcome)
    ensures o == PlainServerError
  {
    match Construct("error", Absent, Present(InternalPrefix + e))
    case Ok(r) => Sent(r)
    case Err(_) => PlainServerError
  }

  /** The handler as written, after the edits are normalised. */
  function RespondAsWritten(result: ServiceResult, env: Environment, outputDir: string): Outcome {
    match BodyAsWritten(result, env, outputDir)
    case Ok(r) => Sent(r)
    case Err(e) => Caught(e)
  }

  /** As written, only the success response survives validation: every
      error branch, caught or not, ends as the plain server error, while
      the success is exactly the response `Respond` gives. */
  lemma ErrorsEscapeAsWritten(result: ServiceResult, env: Environment, outputDir: string)
    ensures Respond(result, env, outputDir).status == "success" ==>
              RespondAsWritten(result, env, outputDir) == Sent(Respond(result, env, outputDir))
    ensures Respond(result, env, outputDir).status != "success" ==>
              RespondAsWritten(result, env, outputDir) == PlainServerError
  {
  }

  /** The documented failure `{"status": "failed", "message": m}` reaches the
      client as the plain server error, not as a response carrying `m`. */
  lemma ServiceFailureEscapesAsWritten(m: string, env: Environment, outputDir: string)
    ensures RespondAsWritten(ServiceResult(Some("failed"), Some(m), None), env, outputDir) == PlainServerError
    ensures Respond(ServiceResult(Some("failed"), Some(m), None), env, outputDir) == ApiResponse("error", None, Some(m))
  {
  }

  // ---------------------------------------------------------------------
  // The client side: `message.split("saved:")[1].strip()`.
  // ---------------------------------------------------------------------

  function ParseSavedPath(message: string): Option<string> {
    if Contains(message, "saved:") then
      var parts := SplitOn(message, "saved:");
      if |parts| >= 2 then Some(Strip(parts[1])) else None
    else None
  }

  lemma ContainsAfterSpace(p: string, sub: string)
    requires |sub| > 0 && sub[0] != ' '
    ensures Contains(" " + p, sub) == Contains(p, sub)
  {
    assert (" " + p)[1..] == p;
  }

  lemma StripAfterSpace(p: string)
    requires |p| > 0 && !IsSpace(p[0]) && !IsSpace(p[|p| - 1])
    ensures Strip(" " + p) == p
  {
    assert (" " + p)[1..] == p;
    assert LStrip(" " + p) == LStrip(p) == p;
    StripTrimmed(p);
  }

  /** The path stored in a "saved: <path>" message is recovered by the
      client's parse whenever the path does not itself hold "saved:" and has
      no surrounding whitespace. */
  lemma {:induction false} SavedMessageParses(p: string)
    requires !Contains(p, "saved:")
    requires |p| > 0 && !IsSpace(p[0]) && !IsSpace(p[|p| - 1])
    ensures ParseSavedPath(SavedMessage(p)) == Some(p)
  {
    var m := SavedMessage(p);
    assert m == "saved:" + (" " + p);
    assert StartsWith(m, "saved:");
    assert Find(m, "saved:") == 0;
    assert m[6..] == " " + p;
    ContainsAfterSpace(p, "saved:");
    assert Find(" " + p, "saved:") == -1;
    assert SplitOn(m, "saved:") == [""] + SplitOn(" " + p, "saved:") == ["", " " + p];
    StripAfterSpace(p);
  }

  /** On success the client reads back exactly the saved path. */
  lemma SuccessPathReadBack(result: ServiceResult, env: Environment, outputDir: string)
    requires Respond(result, env, outputDir).status == "success"
    requires |outputDir| > 0 && !IsSpace(outputDir[0])
    requires !Contains(SavedPath(outputDir, env.timestamp), "saved:")
    ensures ParseSavedPath(Respond(result, env, outputDir).message.value) == Some(SavedPath(outputDir, env.timestamp))
  {
    var p := SavedPath(outputDir, env.timestamp);
    assert p[0] == outputDir[0];
    assert p[|p| - 1] == 'g';
    SavedMessageParses(p);
  }

  // ---------------------------------------------------------------------
  // The endpoint.
  // ---------------------------------------------------------------------

  /** `apply_customization` over edit records: normalise the edits in place,
      call the service on the base image and the normalised edits, and
      answer from its result. */
  method ApplyCustomization(baseImage: string, edits: array<EditRecord>,
                            service: (string, seq<EditRecord>) -> ServiceResult,
                            env: Environment, outputDir: string)
    returns (r: ApiResponse)
    modifies edits
    ensures forall i :: 0 <= i < edits.Length ==> edits[i] == Normalize(old(edits[i]))
    ensures r == Respond(service(baseImage, edits[..]), env, outputDir)
  {
    NormalizeEdits(edits);
    var result := service(baseImage, edits[..]);
    r := Respond(result, env, outputDir);
  }

  // ---------------------------------------------------------------------
  // The request as declared: edits are plain dictionaries.
  // ---------------------------------------------------------------------

  datatype JsonValue = JStr(s: string) | JNum(x: real)

  /** `str(e)` of the AttributeError that `e.region` raises on a dict. */
  const DictAttributeMessage: string := "'dict' object has no attribute 'region'"

  /** `apply_customization` when `edits` is a list of dicts: the first
      attribute read on an edit raises, so only an empty list reaches the
      service. */
  function ApplyToDicts(baseImage: string, edits: seq<map<string, JsonValue>>,
                        service: (string, seq<EditRecord>) -> ServiceResult,
                        env: Environment, outputDir: string): ApiResponse
  {
    if |edits| > 0 then Internal(DictAttributeMessage)
    else Respond(service(baseImage, []), env, outputDir)
  }

  /** Any non-empty list of dict edits ends in an Internal Server Error,
      whatever the service, the image and the file system would do. */
  lemma DictEditsAlwaysFail(baseImage: string, edits: seq<map<string, JsonValue>>,
                            service: (string, seq<EditRecord>) -> ServiceResult,
                            env: Environment, outputDir: string)
    requires |edits| > 0
    ensures ApplyToDicts(baseImage, edits, service, env, outputDir).status == "error"
    ensures ApplyToDicts(baseImage, edits, service, env, outputDir).message ==
              Some(InternalPrefix + DictAttributeMessage)
  {
  }

  /** `ApplyToDicts` with the response model as declared. */
  function ApplyToDictsAsWritten(baseImage: string, edits: seq<map<string, JsonValue>>,
                                 service: (string, seq<EditRecord>) -> ServiceResult,
                                 env: Environment, outputDir: string): Outcome
  {
    if |edits| > 0 then Caught(DictAttributeMessage)
    else RespondAsWritten(service(baseImage, []), env, outputDir)
  }

  /** As written, a non-empty list of dict edits does not even produce the
      "Internal Server Error: ..." response: the client gets the plain page. */
  lemma DictEditsEscapeAsWritten(baseImage: string, edits: seq<map<string, JsonValue>>,
                                 service: (string, seq<EditRecord>) -> ServiceResult,
                                 env: Environment, outputDir: string)
    requires |edits| > 0
    ensures ApplyToDictsAsWritten(baseImage, edits, service, env, outputDir) == PlainServerError
  {
  }

  /** The documented request `[{"region": "lip", "intensity": 50}]` fails
      even when the service succeeds. */
  lemma DocumentedRequestFails(baseImage: string, env: Environment, outputDir: string)
    ensures var service := (b: string, es: seq<EditRecord>) => ServiceResult(Some("success"), None, Some("x"));
            ApplyToDicts(baseImage, [map["region" := JStr("lip"), "intensity" := JNum(50.0)]], service, env, outputDir).status == "error"
  {
  }
}
