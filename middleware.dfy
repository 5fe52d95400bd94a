/** pkg/middleware/json.go: the JSON content-type gate. The media-type grammar
    (section 5.1 of RFC 2045) is left to `mime.ParseMediaType`, whose result is
    taken as given: None when the header does not parse, else the media type. */
module JsonMiddleware {
  import opened Wrappers
  import opened Exception

  const JsonMediaType := "application/json"

  /** The gate's decision for one request. */
  datatype Decision = Reject(problem: Problem) | Proceed

  /** `Json()`: an unparsable Content-Type is rejected with 415, a media type
      other than application/json with 400; only JSON proceeds to `next`. */
  function JsonGate(mediaType: Option<string>): (d: Decision)
    ensures d.Proceed? <==> mediaType == Some(JsonMediaType)
    ensures mediaType.None? ==> d.Reject? && OfKind(d.problem, UnsupportedMediaType)
    ensures mediaType.Some? && mediaType.value != JsonMediaType ==> d.Reject? && OfKind(d.problem, BadRequest)
  {
    match mediaType
    case None => Reject(NewUnsupportedMediaType("Invalid Content-type"))
    case Some(t) =>
      if t != JsonMediaType then Reject(NewBadRequestProblem("Content-Type header must be application/json"))
      else Proceed
  }

  /** The rejection messages the clients see. */
  lemma JsonGateMessages(t: string)
    requires t != JsonMediaType
    ensures ErrorText(JsonGate(None).problem) == "Invalid Content-type"
    ensures ErrorText(JsonGate(Some(t)).problem) == "Content-Type header must be application/json"
  {
  }
}
