/** The application's error values and the mapping from a failed service
    result to an HTTP error. */
module Errors {
  import opened Wrappers
  import opened PyStr

  /** `AppError(message, code="APP_ERROR", status=500)` */
  class AppError {
    const message: string
    const code: string
    const status: int

    constructor(message: string, code: string := "APP_ERROR", status: int := 500)
      ensures this.message == message && this.code == code && this.status == status
    {
      this.message := message;
      this.code := code;
      this.status := status;
    }
  }

  /** The `detail` of an `HTTPException`: `{"message", "error_code"}`. */
  datatype Detail = Detail(message: string, errorCode: string)

  datatype HttpError = HttpError(statusCode: int, detail: Detail)

  function BadRequest(msg: string, code: string := "BAD_REQUEST"): (e: HttpError)
    ensures e.statusCode == 400 && e.detail.message == msg && e.detail.errorCode == code
  {
    HttpError(400, Detail(msg, code))
  }

  function Unprocessable(msg: string, code: string := "UNPROCESSABLE_ENTITY"): (e: HttpError)
    ensures e.statusCode == 422 && e.detail.message == msg && e.detail.errorCode == code
  {
    HttpError(422, Detail(msg, code))
  }

  function InternalError(msg: string, code: string := "INTERNAL_ERROR"): (e: HttpError)
    ensures e.statusCode == 500 && e.detail.message == msg && e.detail.errorCode == code
  {
    HttpError(500, Detail(msg, code))
  }

  /** Called without a code, each helper uses its own default. */
  lemma DefaultCodes(msg: string)
    ensures BadRequest(msg).detail.errorCode == "BAD_REQUEST"
    ensures Unprocessable(msg).detail.errorCode == "UNPROCESSABLE_ENTITY"
    ensures InternalError(msg).detail.errorCode == "INTERNAL_ERROR"
  {
  }

  /** The words that mark a failure as the client's fault. */
  const ClientKeywords: seq<string> := ["missing", "invalid", "bad", "not found", "base64", "json"]

  const UnknownError: string := "Unknown error"

  /** `any(k in low for k in keywords)` */
  function AnyIn(low: string, keywords: seq<string>): (b: bool)
    ensures b <==> exists i :: 0 <= i < |keywords| && Contains(low, keywords[i])
    decreases |keywords|
  {
    if |keywords| == 0 then false
    else
      var rest := AnyIn(low, keywords[1..]);
      assert forall i :: 1 <= i < |keywords| ==> keywords[i] == keywords[1..][i - 1];
      Contains(low, keywords[0]) || rest
  }

  /** A failed service result (`None` is a `None` result) and its "message" entry. */
  datatype ServiceResult = ServiceResult(message: Entry<string>)

  /** `(result or {}).get("message", "Unknown error")`: `None` when the entry
      holds `None`, which has no `lower`. */
  function ResultMessage(result: Option<ServiceResult>): (m: Option<string>)
    ensures m.None? <==> result.Some? && result.value.message.Null?
    ensures result.None? || result.value.message.Absent? ==> m == Some(UnknownError)
    ensures result.Some? && result.value.message.Present? ==> m == Some(result.value.message.value)
  {
    if result.None? || result.value.message.Absent? then Some(UnknownError)
    else if result.value.message.Null? then None
    else Some(result.value.message.value)
  }

  /** `str(e)` of the `AttributeError` that `None.lower()` raises. */
  const NoneLowerMessage: string := "'NoneType' object has no attribute 'lower'"

  /** `map_service_error(result)`: `Err` when `msg.lower()` raises. */
  function MapServiceError(result: Option<ServiceResult>): (e: Result<HttpError>)
    ensures e.Err? <==> ResultMessage(result).None?
    ensures e.Err? ==> e.msg == NoneLowerMessage
    ensures e.Ok? ==> e.value.detail.message == ResultMessage(result).value
    ensures e.Ok? ==> (e.value.statusCode == 422 <==> AnyIn(Lower(ResultMessage(result).value), ClientKeywords))
    ensures e.Ok? ==> (e.value.statusCode == 500 <==> !AnyIn(Lower(ResultMessage(result).value), ClientKeywords))
  {
    match ResultMessage(result)
    case None => Err(NoneLowerMessage)
    case Some(msg) => Ok(if AnyIn(Lower(msg), ClientKeywords) then Unprocessable(msg) else InternalError(msg))
  }

  /** A message entry holding `None` makes the mapping itself raise. */
  lemma NoneMessageRaises()
    ensures MapServiceError(Some(ServiceResult(Null))) == Err(NoneLowerMessage)
  {
  }

  /** Matching ignores case: messages equal up to case map to the same status. */
  lemma CaseInsensitive(m1: string, m2: string)
    requires Lower(m1) == Lower(m2)
    ensures MapServiceError(Some(ServiceResult(Present(m1)))).Ok?
    ensures MapServiceError(Some(ServiceResult(Present(m1)))).value.statusCode ==
            MapServiceError(Some(ServiceResult(Present(m2)))).value.statusCode
  {
  }

  /** A message holding a keyword in any case gives 422. */
  lemma KeywordGives422(msg: string, i: nat)
    requires i < |ClientKeywords| && Contains(Lower(msg), ClientKeywords[i])
    ensures MapServiceError(Some(ServiceResult(Present(msg)))).Ok?
    ensures MapServiceError(Some(ServiceResult(Present(msg)))).value.statusCode == 422
    ensures MapServiceError(Some(ServiceResult(Present(msg)))).value.detail.errorCode == "UNPROCESSABLE_ENTITY"
  {
  }

  /** A message holding no keyword gives 500. */
  lemma NoKeywordGives500(msg: string)
    requires forall i :: 0 <= i < |ClientKeywords| ==> !Contains(Lower(msg), ClientKeywords[i])
    ensures MapServiceError(Some(ServiceResult(Present(msg)))).Ok?
    ensures MapServiceError(Some(ServiceResult(Present(msg)))).value.statusCode == 500
    ensures MapServiceError(Some(ServiceResult(Present(msg)))).value.detail.errorCode == "INTERNAL_ERROR"
  {
  }

  /** Every character of a contained string occurs in the container. */
  lemma {:induction false} ContainsHasChar(s: string, k: string, c: nat)
    requires c < |k| && Contains(s, k)
    ensures k[c] in s
    decreases |s|
  {
    if StartsWith(s, k) {
      assert s[c] == k[c];
    } else {
      ContainsHasChar(s[1..], k, c);
      assert k[c] in s[1..];
    }
  }

  lemma LacksChar(s: string, k: string, c: nat)
    requires c < |k| && k[c] !in s
    ensures !Contains(s, k)
  {
    if Contains(s, k) {
      ContainsHasChar(s, k, c);
    }
  }

  /** No character of `s` is one of `cs`. */
  predicate Avoids(s: string, cs: seq<char>)
    decreases |s|
  {
    |s| == 0 || (s[0] !in cs && Avoids(s[1..], cs))
  }

  lemma {:induction false} AvoidsNotIn(s: string, cs: seq<char>, c: char)
    requires Avoids(s, cs) && c in cs
    ensures c !in s
    decreases |s|
  {
    if |s| > 0 {
      AvoidsNotIn(s[1..], cs, c);
      assert s == [s[0]] + s[1..];
    }
  }

  /** A message without the letters m, v, b, f and j holds no keyword: each
      keyword has one of them. */
  lemma NoKeywordLetters(low: string)
    requires Avoids(low, "mvbfj")
    ensures forall i :: 0 <= i < |ClientKeywords| ==> !Contains(low, ClientKeywords[i])
  {
    AvoidsNotIn(low, "mvbfj", 'm');
    AvoidsNotIn(low, "mvbfj", 'v');
    AvoidsNotIn(low, "mvbfj", 'b');
    AvoidsNotIn(low, "mvbfj", 'f');
    AvoidsNotIn(low, "mvbfj", 'j');
    var ks := ClientKeywords;
    LacksChar(low, ks[0], 0);
    LacksChar(low, ks[1], 2);
    LacksChar(low, ks[2], 0);
    LacksChar(low, ks[3], 4);
    LacksChar(low, ks[4], 0);
    LacksChar(low, ks[5], 0);
  }

  lemma LowerAppend(a: string, b: string)
    ensures Lower(a + b) == Lower(a) + Lower(b)
  {
  }

  lemma {:induction false} AvoidsAppend(a: string, b: string, cs: seq<char>)
    requires Avoids(a, cs) && Avoids(b, cs)
    ensures Avoids(a + b, cs)
    decreases |a|
  {
    if |a| > 0 {
      assert (a + b)[1..] == a[1..] + b;
      AvoidsAppend(a[1..], b, cs);
    } else {
      assert a + b == b;
    }
  }

  lemma AvoidsJoined(p1: string, p2: string, p3: string, cs: seq<char>)
    requires Avoids(Lower(p1), cs) && Avoids(Lower(p2), cs) && Avoids(Lower(p3), cs)
    ensures Avoids(Lower(p1 + p2 + p3), cs)
  {
    LowerAppend(p1, p2);
    LowerAppend(p1 + p2, p3);
    AvoidsAppend(Lower(p1), Lower(p2), cs);
    AvoidsAppend(Lower(p1) + Lower(p2), Lower(p3), cs);
  }

  lemma PieceAvoids1() ensures Avoids(Lower("Unk"), "mvbfj") {}
  lemma PieceAvoids2() ensures Avoids(Lower("nown"), "mvbfj") {}
  lemma PieceAvoids3() ensures Avoids(Lower(" error"), "mvbfj") {}
  lemma UnknownErrorPieces() ensures UnknownError == "Unk" + "nown" + " error" {}

  /** "unknown error" has none of the letters m, v, b, f, j. */
  lemma UnknownErrorAvoids()
    ensures Avoids(Lower(UnknownError), "mvbfj")
  {
    PieceAvoids1();
    PieceAvoids2();
    PieceAvoids3();
    AvoidsJoined("Unk", "nown", " error", "mvbfj");
    UnknownErrorPieces();
  }

  /** A missing result or message reads "Unknown error", which holds no
      keyword: 500. */
  lemma UnknownErrorGives500(result: Option<ServiceResult>)
    requires result.None? || result.value.message.Absent?
    ensures MapServiceError(result) == Ok(HttpError(500, Detail(UnknownError, "INTERNAL_ERROR")))
  {
    UnknownErrorHasNoKeyword();
    assert ResultMessage(result) == Some(UnknownError);
  }

  lemma UnknownErrorHasNoKeyword()
    ensures !AnyIn(Lower(UnknownError), ClientKeywords)
  {
    UnknownErrorAvoids();
    NoKeywordLetters(Lower(UnknownError));
  }
}
