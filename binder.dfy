/** pkg/server/binder.go: reading a request body into a target and validating
    it. JSON decoding and the validator are functions left abstract; the target
    struct is represented by its field values by name. */
module Binding {
  import opened Wrappers
  import opened Exception

  /** The struct a handler binds the body into. */
  type Target = map<string, string>

  /** One violation the validator reports: `Tag()`, `Field()` and `Param()`. */
  datatype FieldError = FieldError(tag: string, field: string, param: string)

  /** The request body: the declared `ContentLength` and the outcome of
      `io.ReadAll` on it. */
  datatype Body = Body(contentLength: int, read: Result<string, string>)

  /** `json.Unmarshal` into an existing target, and the custom validator. */
  datatype Binder = Binder(
    unmarshal: (string, Target) -> Result<Target, string>,
    validate: Target -> seq<FieldError>)

  /** `readBody`: an empty body leaves the target as it is; otherwise the read
      and then the decoding may fail. */
  function DecodeBody(b: Binder, body: Body, target: Target): (r: Result<Target, string>)
    ensures body.contentLength == 0 ==> r == Success(target)
    ensures body.contentLength != 0 && body.read.Failure? ==> r == Failure(body.read.error)
    ensures body.contentLength != 0 && body.read.Success? ==> r == b.unmarshal(body.read.value, target)
  {
    if body.contentLength == 0 then Success(target)
    else
      match body.read
      case Failure(e) => Failure(e)
      case Success(data) => b.unmarshal(data, target)
  }

  function Detail(e: FieldError): ValidationProblemDetail
  {
    NewValidationProblemDetail(e.tag, e.field, e.param)
  }

  /** One detail per violation, in the validator's order. */
  function Details(errors: seq<FieldError>): (details: seq<ValidationProblemDetail>)
    ensures |details| == |errors|
    ensures forall i :: 0 <= i < |errors| ==>
      details[i].tag == errors[i].tag && details[i].field == errors[i].field && details[i].param == errors[i].param
    decreases |errors|
  {
    if errors == [] then []
    else Details(errors[..|errors| - 1]) + [Detail(errors[|errors| - 1])]
  }

  /** What `ReadBody` returns (the problem, or None for nil) and the bound target. */
  function Bind(b: Binder, body: Body, target: Target): (Option<Problem>, Target)
  {
    match DecodeBody(b, body, target)
    case Failure(_) => (Some(NewMalformedRequestProblem()), target)
    case Success(bound) =>
      var errors := b.validate(bound);
      (if errors == [] then None else Some(NewValidationProblem(Details(errors))), bound)
  }

  /** `Binder.ReadBody`: decode, then validate, collecting every violation. */
  method ReadBody(b: Binder, body: Body, target: Target) returns (err: Option<Problem>, bound: Target)
    ensures (err, bound) == Bind(b, body, target)
  {
    var decoded := DecodeBody(b, body, target);
    if decoded.Failure? {
      return Some(NewMalformedRequestProblem()), target;
    }
    bound := decoded.value;

    var vErrors := b.validate(bound);
    if vErrors != [] {
      var customErrors: seq<ValidationProblemDetail> := [];
      for i := 0 to |vErrors|
        invariant customErrors == Details(vErrors[..i])
      {
        assert vErrors[..i + 1][..i] == vErrors[..i];
        customErrors := customErrors + [NewValidationProblemDetail(vErrors[i].tag, vErrors[i].field, vErrors[i].param)];
      }
      assert vErrors[..|vErrors|] == vErrors;
      return Some(NewValidationProblem(customErrors)), bound;
    }
    return None, bound;
  }

  /** An empty body is not decoded, yet the untouched target is still validated. */
  lemma EmptyBodyValidated(b: Binder, body: Body, target: Target)
    requires body.contentLength == 0
    ensures Bind(b, body, target).1 == target
    ensures Bind(b, body, target).0.None? <==> b.validate(target) == []
  {
  }

  /** A body that cannot be read or decoded gives the 422 problem whatever the
      validator would say: validation does not run. */
  lemma MalformedSkipsValidation(b: Binder, other: Target -> seq<FieldError>, body: Body, target: Target)
    requires DecodeBody(b, body, target).Failure?
    ensures Bind(b, body, target) == Bind(Binder(b.unmarshal, other), body, target)
    ensures Bind(b, body, target).0 == Some(NewMalformedRequestProblem())
    ensures OfKind(Bind(b, body, target).0.value, MalformedRequest)
  {
  }

  /** All violations are reported in one 400 problem whose details are the
      violations one for one, in order; with none, ReadBody returns nil. */
  lemma ViolationsInOneProblem(b: Binder, body: Body, target: Target)
    requires DecodeBody(b, body, target).Success?
    ensures var errors := b.validate(DecodeBody(b, body, target).value);
      && (Bind(b, body, target).0.None? <==> errors == [])
      && (errors != [] ==>
            && Bind(b, body, target).0 == Some(NewValidationProblem(Details(errors)))
            && OfKind(Bind(b, body, target).0.value, InvalidRequest))
  {
  }

  /** With the tags the transaction model uses (required, oneof), every
      violation yields exactly one sentence, in the validator's order. */
  lemma KnownTagsOneSentenceEach(errors: seq<FieldError>, i: nat)
    requires forall j :: 0 <= j < |errors| ==> KnownTag(errors[j].tag)
    requires i < |errors|
    ensures |NewValidationProblem(Details(errors)).fieldErrors| == |errors|
    ensures NewValidationProblem(Details(errors)).fieldErrors[i] == Sentence(Detail(errors[i])).value
  {
    var details := Details(errors);
    assert AllKnown(details);
    SentenceAt(details, i);
    assert details[i] == Detail(errors[i]);
  }
}
