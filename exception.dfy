/** The problem taxonomy of pkg/exception/problem.go: fixed-shape error records
    with a status code, a title, a human message, an instance placeholder and a
    type URI under https://mybils.io/problems/, in the manner of the members of
    section 3.1 of RFC 7807 (with `code` where the RFC has `status`). */
module Exception {
  import opened Text
  import opened Wrappers

  const BaseUrl := "https://mybils.io"

  /** Every problem carries this placeholder instead of a correlation id. */
  const NoInstance := "N/A"

  const DefaultInternalMessage := "An undetermined error was triggered. Please, contact the support team"

  datatype Problem = Problem(
    code: int,
    title: string,
    message: string,
    instance: string,
    typeUri: string,
    fieldErrors: seq<string>)

  /** The seven kinds of problem the constructors build. */
  datatype Kind =
    | InternalServerError
    | MalformedRequest
    | BadRequest
    | UnsupportedMediaType
    | InvalidRequest
    | RouteNotFound
    | MethodNotAllowed

  function Slug(k: Kind): string
  {
    match k
    case InternalServerError => "internal-server-error"
    case MalformedRequest => "malformed-request"
    case BadRequest => "bad-request"
    case UnsupportedMediaType => "unsupported-media-type"
    case InvalidRequest => "invalid-request"
    case RouteNotFound => "not-found"
    case MethodNotAllowed => "method-not-allowed"
  }

  /** The HTTP status of each kind (net/http's Status constants). */
  function StatusOf(k: Kind): int
  {
    match k
    case InternalServerError => 500
    case MalformedRequest => 422
    case BadRequest => 400
    case UnsupportedMediaType => 415
    case InvalidRequest => 400
    case RouteNotFound => 404
    case MethodNotAllowed => 405
  }

  function TypeUri(slug: string): string
  {
    BaseUrl + "/problems/" + slug
  }

  /** A problem of kind `k`: its code, its type URI and the instance placeholder. */
  predicate OfKind(p: Problem, k: Kind)
  {
    p.code == StatusOf(k) && p.typeUri == TypeUri(Slug(k)) && p.instance == NoInstance
  }

  const ProblemsPrefix := BaseUrl + "/problems/"

  function KindOfSlug(slug: string): Option<Kind>
  {
    match slug
    case "internal-server-error" => Some(InternalServerError)
    case "malformed-request" => Some(MalformedRequest)
    case "bad-request" => Some(BadRequest)
    case "unsupported-media-type" => Some(UnsupportedMediaType)
    case "invalid-request" => Some(InvalidRequest)
    case "not-found" => Some(RouteNotFound)
    case "method-not-allowed" => Some(MethodNotAllowed)
    case _ => None
  }

  /** Reads the kind back from a type URI. */
  function KindOfType(typeUri: string): Option<Kind>
  {
    if |ProblemsPrefix| <= |typeUri| && typeUri[..|ProblemsPrefix|] == ProblemsPrefix
    then KindOfSlug(typeUri[|ProblemsPrefix|..])
    else None
  }

  /** The type URI identifies the kind: no two kinds share one. */
  lemma TypeIdentifiesKind(p: Problem, k: Kind)
    requires OfKind(p, k)
    ensures KindOfType(p.typeUri) == Some(k)
  {
    var slug := Slug(k);
    assert p.typeUri == ProblemsPrefix + slug;
    assert p.typeUri[..|ProblemsPrefix|] == ProblemsPrefix;
    assert p.typeUri[|ProblemsPrefix|..] == slug;
    match k
    case InternalServerError =>
    case MalformedRequest =>
    case BadRequest =>
    case UnsupportedMediaType =>
    case InvalidRequest =>
    case RouteNotFound =>
    case MethodNotAllowed =>
  }

  /** `(*Problem).Error()`: the message. */
  function ErrorText(p: Problem): string
  {
    p.message
  }

  /** `NewInternalServerError(messages...)`: the messages joined with ".", or the
      default text when there are none. */
  function NewInternalServerError(messages: seq<string>): (p: Problem)
    ensures OfKind(p, InternalServerError) && p.fieldErrors == []
    ensures messages == [] ==> p.message == DefaultInternalMessage
    ensures |messages| > 0 ==> p.message == Join(messages, ".")
    ensures |messages| == 1 ==> p.message == messages[0]
  {
    var message := if |messages| > 0 then Join(messages, ".") else DefaultInternalMessage;
    Problem(500, "Internal server error", message, NoInstance, TypeUri("internal-server-error"), [])
  }

  /** Two messages are joined by one "." and nothing else. */
  lemma InternalServerErrorTwoMessages(a: string, b: string)
    ensures NewInternalServerError([a, b]).message == a + "." + b
  {
    assert [a, b][..1] == [a];
    assert Join([a, b], ".") == Join([a], ".") + "." + b;
  }

  /** `Error()` returns the message each constructor was given. */
  lemma ErrorTextOfConstructors(message: string)
    ensures ErrorText(NewInternalServerError([message])) == message
    ensures ErrorText(NewBadRequestProblem(message)) == message
    ensures ErrorText(NewUnsupportedMediaType(message)) == message
    ensures ErrorText(NewInternalServerError([])) == DefaultInternalMessage
  {
  }

  function NewMalformedRequestProblem(): (p: Problem)
    ensures OfKind(p, MalformedRequest) && p.fieldErrors == []
  {
    Problem(422, "Malformed request", "The request is malformed, verify the input or parameters sent",
            NoInstance, TypeUri("malformed-request"), [])
  }

  function NewBadRequestProblem(message: string): (p: Problem)
    ensures OfKind(p, BadRequest) && p.fieldErrors == [] && ErrorText(p) == message
  {
    Problem(400, "Invalid request", message, NoInstance, TypeUri("bad-request"), [])
  }

  function NewUnsupportedMediaType(message: string): (p: Problem)
    ensures OfKind(p, UnsupportedMediaType) && p.fieldErrors == [] && ErrorText(p) == message
  {
    Problem(415, "Invalid request", message, NoInstance, TypeUri("unsupported-media-type"), [])
  }

  /** `NewValidationProblem`: one problem carrying the sentences of all details. */
  function NewValidationProblem(details: seq<ValidationProblemDetail>): (p: Problem)
    ensures OfKind(p, InvalidRequest)
    ensures |p.fieldErrors| <= |details|
    ensures AllKnown(details) ==> |p.fieldErrors| == |details|
  {
    Problem(400, "Invalid request", "The request does not satisfy the validation rules",
            NoInstance, TypeUri("invalid-request"), FieldErrorSentences(details))
  }

  const RouteNotFoundPrefix := "The route `"
  const RouteNotFoundSuffix := "` does not exist"

  /** `NewRouteNotFound(path)`: the path can be read back from the message. */
  function NewRouteNotFound(path: string): (p: Problem)
    ensures OfKind(p, RouteNotFound) && p.fieldErrors == []
    ensures |p.message| == |RouteNotFoundPrefix| + |path| + |RouteNotFoundSuffix|
    ensures p.message[|RouteNotFoundPrefix|..|RouteNotFoundPrefix| + |path|] == path
  {
    var message := RouteNotFoundPrefix + path + RouteNotFoundSuffix;
    assert message[|RouteNotFoundPrefix|..|RouteNotFoundPrefix| + |path|] == path;
    Problem(404, "Route not found", message, NoInstance, TypeUri("not-found"), [])
  }

  const MethodPrefix := "The method "
  const MethodInfix := " is not allowed for route `"

  /** `NewMethodNotAllowed(path, method)`: the method follows "The method " and the
      path closes the message, before its final back-quote. */
  function NewMethodNotAllowed(path: string, httpMethod: string): (p: Problem)
    ensures OfKind(p, MethodNotAllowed) && p.fieldErrors == []
    ensures |p.message| == |MethodPrefix| + |httpMethod| + |MethodInfix| + |path| + 1
    ensures p.message[|MethodPrefix|..|MethodPrefix| + |httpMethod|] == httpMethod
    ensures p.message[|p.message| - |path| - 1..|p.message| - 1] == path
  {
    var message := MethodPrefix + httpMethod + MethodInfix + path + "`";
    assert message[|MethodPrefix|..|MethodPrefix| + |httpMethod|] == httpMethod;
    assert message[|message| - |path| - 1..|message| - 1] == path;
    Problem(405, "Method not allowed", message, NoInstance, TypeUri("method-not-allowed"), [])
  }

  // ---------------------------------------------------------------------------
  // Validation details and their sentences

  /** One violated constraint: the validator's tag, the field name and the
      constraint's parameter. */
  datatype ValidationProblemDetail = ValidationProblemDetail(tag: string, field: string, param: string)

  function NewValidationProblemDetail(tag: string, field: string, param: string): (d: ValidationProblemDetail)
    ensures d.tag == tag && d.field == field && d.param == param
  {
    ValidationProblemDetail(tag, field, param)
  }

  predicate KnownTag(tag: string)
  {
    tag in {"required", "email", "gte", "lte", "oneof"}
  }

  predicate AllKnown(details: seq<ValidationProblemDetail>)
  {
    forall i :: 0 <= i < |details| ==> KnownTag(details[i].tag)
  }

  /** The English sentence for a known tag; unknown tags have none. */
  function Sentence(d: ValidationProblemDetail): (s: Option<string>)
    ensures s.Some? <==> KnownTag(d.tag)
  {
    match d.tag
    case "required" => Some(d.field + " is required")
    case "email" => Some(d.field + " is not valid email")
    case "gte" => Some(d.field + " value must be greater than " + d.param)
    case "lte" => Some(d.field + " value must be lower than " + d.param)
    case "oneof" => Some(d.field + " value must be one of the following: " + FormattedParam(d.param))
    case _ => None
  }

  /** The sentences of the details with a known tag, in the details' order. */
  function FieldErrorSentences(details: seq<ValidationProblemDetail>): (sentences: seq<string>)
    ensures |sentences| <= |details|
    ensures AllKnown(details) ==> |sentences| == |details|
    decreases |details|
  {
    if details == [] then []
    else
      var n := |details| - 1;
      var init := FieldErrorSentences(details[..n]);
      assert AllKnown(details) ==> AllKnown(details[..n]);
      match Sentence(details[n])
      case Some(s) => init + [s]
      case None => init
  }

  /** Sentences are produced piecewise: the input order is kept. */
  lemma {:induction false} SentencesOfConcat(a: seq<ValidationProblemDetail>, b: seq<ValidationProblemDetail>)
    ensures FieldErrorSentences(a + b) == FieldErrorSentences(a) + FieldErrorSentences(b)
    decreases |b|
  {
    if b != [] {
      var n := |b| - 1;
      assert (a + b)[..|a + b| - 1] == a + b[..n];
      assert (a + b)[|a + b| - 1] == b[n];
      SentencesOfConcat(a, b[..n]);
    } else {
      assert a + b == a;
    }
  }

  /** With only known tags, sentence `i` is the sentence of detail `i`. */
  lemma {:induction false} SentenceAt(details: seq<ValidationProblemDetail>, i: nat)
    requires AllKnown(details) && i < |details|
    ensures FieldErrorSentences(details)[i] == Sentence(details[i]).value
    decreases |details|
  {
    var n := |details| - 1;
    assert AllKnown(details[..n]);
    if i < n {
      SentenceAt(details[..n], i);
    }
  }

  /** `mapValidationErrors`: the loop appends one sentence per known tag. */
  method MapValidationErrors(details: seq<ValidationProblemDetail>) returns (sErrors: seq<string>)
    ensures sErrors == FieldErrorSentences(details)
  {
    sErrors := [];
    for i := 0 to |details|
      invariant sErrors == FieldErrorSentences(details[..i])
    {
      var err := details[i];
      assert details[..i + 1][..i] == details[..i];
      match err.tag {
        case "required" =>
          sErrors := sErrors + [err.field + " is required"];
        case "email" =>
          sErrors := sErrors + [err.field + " is not valid email"];
        case "gte" =>
          sErrors := sErrors + [err.field + " value must be greater than " + err.param];
        case "lte" =>
          sErrors := sErrors + [err.field + " value must be lower than " + err.param];
        case "oneof" =>
          var formatted := FormatParam(err.param);
          sErrors := sErrors + [err.field + " value must be one of the following: " + formatted];
        case _ =>
      }
    }
    assert details[..|details|] == details;
  }

  // ---------------------------------------------------------------------------
  // formatParam: the oneof parameter as a list of alternatives

  /** The ASCII members of unicode.Quotation_Mark. */
  predicate IsQuote(c: char)
  {
    c == '\'' || c == '"'
  }

  /** `unicode.IsSpace`. */
  predicate IsSpace(c: char)
  {
    || c == '\t' || c == '\n' || c == '\U{000B}' || c == '\U{000C}' || c == '\r' || c == ' '
    || c == '\U{0085}' || c == '\U{00A0}' || c == '\U{1680}'
    || ('\U{2000}' <= c <= '\U{200A}')
    || c == '\U{2028}' || c == '\U{2029}' || c == '\U{202F}' || c == '\U{205F}' || c == '\U{3000}'
  }

  /** No quote open: the closure's `rune(0)`. */
  const NoQuote: char := '\0'

  /** The closure given to `strings.FieldsFunc`: whether `c` separates fields, and
      the new value of `lastQuote`. Inside a quote nothing separates. */
  function Separates(lastQuote: char, c: char): (bool, char)
  {
    if c == lastQuote then (false, NoQuote)
    else if lastQuote != NoQuote then (false, lastQuote)
    else if IsQuote(c) then (false, c)
    else (IsSpace(c), lastQuote)
  }

  /** The state of the scan: the closure's `lastQuote`, whether a field is open,
      and the fields found so far. */
  datatype Scan = Scan(quote: char, open: bool, fields: seq<string>)

  predicate ValidScan(st: Scan)
  {
    st.open ==> |st.fields| > 0
  }

  function Step(st: Scan, c: char): (r: Scan)
    requires ValidScan(st)
    ensures ValidScan(r)
  {
    var (sep, quote) := Separates(st.quote, c);
    if sep then Scan(quote, false, st.fields)
    else if st.open then Scan(quote, true, st.fields[..|st.fields| - 1] + [st.fields[|st.fields| - 1] + [c]])
    else Scan(quote, true, st.fields + [[c]])
  }

  /** The scan of `s` from state `st`, one character at a time from the left. */
  function ScanFrom(st: Scan, s: string): (r: Scan)
    requires ValidScan(st)
    ensures ValidScan(r)
    decreases |s|
  {
    if s == [] then st else Step(ScanFrom(st, s[..|s| - 1]), s[|s| - 1])
  }

  const Start := Scan(NoQuote, false, [])

  /** `strings.FieldsFunc(param, f)` with the quote-tracking closure. */
  function Fields(param: string): seq<string>
  {
    ScanFrom(Start, param).fields
  }

  /** Replaces the last ',' of `joined` by " or". */
  function ReplaceLastComma(joined: string): string
  {
    var lastI := LastIndex(joined, ',');
    if lastI != -1 then joined[..lastI] + " or" + joined[lastI + 1..] else joined
  }

  /** What `formatParam` returns. */
  function FormattedParam(param: string): string
  {
    ReplaceLastComma(RemoveAll(Join(Fields(param), ", "), '\''))
  }

  /** The loop state of `formatParam` after `i` characters: `lastQuote`, the
      start of the open field (-1 when none) and the closed fields `a` agree with
      the scan of `param[..i]`. */
  predicate Tracks(param: string, i: nat, lastQuote: char, start: int, a: seq<string>)
    requires i <= |param|
  {
    && (start == -1 || 0 <= start < i)
    && var st := ScanFrom(Start, param[..i]);
    && st.quote == lastQuote
    && st.open == (start >= 0)
    && st.fields == if start >= 0 then a + [param[start..i]] else a
  }

  /** One step of the `formatParam` loop keeps the loop state in step with the scan. */
  lemma TrackStep(param: string, i: nat, lastQuote: char, start: int, a: seq<string>,
                  sep: bool, quote: char, start': int, a': seq<string>)
    requires i < |param| && Tracks(param, i, lastQuote, start, a)
    requires (sep, quote) == Separates(lastQuote, param[i])
    requires start' == if sep then -1 else if start < 0 then i else start
    requires a' == if sep && start >= 0 then a + [param[start..i]] else a
    ensures Tracks(param, i + 1, quote, start', a')
  {
    assert param[..i + 1][..i] == param[..i];
    assert ScanFrom(Start, param[..i + 1]) == Step(ScanFrom(Start, param[..i]), param[i]);
    if !sep && start < 0 {
      assert param[i..i + 1] == [param[i]];
    } else if !sep {
      assert param[start..i + 1] == param[start..i] + [param[i]];
      assert (a + [param[start..i]])[..|a|] == a;
    }
  }

  /** `formatParam`: the FieldsFunc loop calls the stateful closure once per
      character, left to right, then the fields are joined, single quotes removed
      and the last comma replaced. */
  method FormatParam(param: string) returns (r: string)
    ensures r == FormattedParam(param)
  {
    var lastQuote := NoQuote;
    var a: seq<string> := [];
    var start := -1;
    for i := 0 to |param|
      invariant Tracks(param, i, lastQuote, start, a)
    {
      var c := param[i];
      ghost var quote0, start0, a0 := lastQuote, start, a;
      // the closure
      var sep: bool;
      if c == lastQuote {
        lastQuote := NoQuote;
        sep := false;
      } else if lastQuote != NoQuote {
        sep := false;
      } else if IsQuote(c) {
        lastQuote := c;
        sep := false;
      } else {
        sep := IsSpace(c);
      }
      assert (sep, lastQuote) == Separates(quote0, c);
      if sep {
        if start >= 0 {
          a := a + [param[start..i]];
          start := -1;
        }
      } else {
        if start < 0 {
          start := i;
        }
      }
      TrackStep(param, i, quote0, start0, a0, sep, lastQuote, start, a);
    }
    assert param[..|param|] == param;
    if start >= 0 {
      a := a + [param[start..]];
    }
    assert a == Fields(param);

    var joined := Join(a, ", ");
    joined := RemoveAll(joined, '\'');

    var lastI := LastIndex(joined, ',');
    if lastI != -1 {
      r := joined[..lastI] + " or" + joined[lastI + 1..];
    } else {
      r := joined;
    }
  }

  // ---------------------------------------------------------------------------
  // What formatParam promises

  /** Scanning a concatenation scans one part after the other. */
  lemma {:induction false} ScanConcat(st: Scan, a: string, b: string)
    requires ValidScan(st)
    ensures ScanFrom(st, a + b) == ScanFrom(ScanFrom(st, a), b)
    decreases |b|
  {
    if b == [] {
      assert a + b == a;
    } else {
      var n := |b| - 1;
      assert (a + b)[..|a + b| - 1] == a + b[..n];
      assert (a + b)[|a + b| - 1] == b[n];
      ScanConcat(st, a, b[..n]);
    }
  }

  /** Inside a single quote every character but the closing quote joins the open field. */
  lemma {:induction false} ScanInsideQuote(fs: seq<string>, w: string, t: string)
    requires '\'' !in t
    ensures ScanFrom(Scan('\'', true, fs + [w]), t) == Scan('\'', true, fs + [w + t])
    decreases |t|
  {
    if t == [] {
      assert w + t == w;
    } else {
      var n := |t| - 1;
      ScanInsideQuote(fs, w, t[..n]);
      assert (fs + [w + t[..n]])[..|fs|] == fs;
      assert w + t[..n] + [t[n]] == w + t;
    }
  }

  /** A single-quoted token, met outside any quote and any field, is one field. */
  lemma ScanQuotedToken(fs: seq<string>, t: string)
    requires '\'' !in t
    ensures ScanFrom(Scan(NoQuote, false, fs), "'" + t + "'") == Scan(NoQuote, true, fs + ["'" + t + "'"])
  {
    var st := Scan(NoQuote, false, fs);
    ScanConcat(st, "'", t + "'");
    assert "'" + t + "'" == "'" + (t + "'");
    assert ScanFrom(st, "'") == Scan('\'', true, fs + ["'"]);
    ScanConcat(Scan('\'', true, fs + ["'"]), t, "'");
    ScanInsideQuote(fs, "'", t);
    assert (fs + ["'" + t])[..|fs|] == fs;
  }

  /** The alternatives of a oneof constraint, each in single quotes. */
  function Quoted(ts: seq<string>): (qs: seq<string>)
    ensures |qs| == |ts|
  {
    seq(|ts|, i requires 0 <= i < |ts| => "'" + ts[i] + "'")
  }

  lemma QuotedSnoc(ts: seq<string>)
    requires |ts| >= 1
    ensures Quoted(ts) == Quoted(ts[..|ts| - 1]) + ["'" + ts[|ts| - 1] + "'"]
  {
    var n := |ts| - 1;
    var qs := Quoted(ts[..n]) + ["'" + ts[n] + "'"];
    forall i | 0 <= i < |ts|
      ensures qs[i] == Quoted(ts)[i]
    {
      if i < n {
        assert qs[i] == Quoted(ts[..n])[i];
      }
    }
  }

  /** The parameter of a oneof constraint: the quoted alternatives, space separated. */
  function QuotedList(ts: seq<string>): string
  {
    Join(Quoted(ts), " ")
  }

  /** The alternatives read back as the English list "A, B or C". */
  function OrList(ts: seq<string>): string
    requires |ts| >= 1
  {
    if |ts| == 1 then ts[0] else Join(ts[..|ts| - 1], ", ") + " or " + ts[|ts| - 1]
  }

  predicate PlainAlternatives(ts: seq<string>)
  {
    forall i :: 0 <= i < |ts| ==> '\'' !in ts[i] && ',' !in ts[i]
  }

  /** The scan of a quoted list ends outside any quote, with one field per
      alternative, quotes included; spaces inside the quotes do not separate. */
  lemma {:induction false} ScanQuotedList(ts: seq<string>)
    requires |ts| >= 1 && PlainAlternatives(ts)
    ensures ScanFrom(Start, QuotedList(ts)) == Scan(NoQuote, true, Quoted(ts))
    decreases |ts|
  {
    var n := |ts| - 1;
    var q := "'" + ts[n] + "'";
    if n == 0 {
      ScanQuotedToken([], ts[0]);
    } else {
      var init := ts[..n];
      QuotedSnoc(ts);
      assert Quoted(ts)[..n] == Quoted(init);
      assert QuotedList(ts) == QuotedList(init) + " " + q;
      ScanQuotedList(init);
      ScanConcat(Start, QuotedList(init) + " ", q);
      ScanConcat(Start, QuotedList(init), " ");
      assert ScanFrom(Scan(NoQuote, true, Quoted(init)), " ") == Scan(NoQuote, false, Quoted(init));
      ScanQuotedToken(Quoted(init), ts[n]);
    }
  }

  lemma {:induction false} RemoveAllConcat(a: string, b: string, c: char)
    ensures RemoveAll(a + b, c) == RemoveAll(a, c) + RemoveAll(b, c)
    decreases |a|
  {
    if a != [] {
      var ab := a + b;
      assert ab[0] == a[0];
      assert ab[1..] == a[1..] + b;
      RemoveAllConcat(a[1..], b, c);
      assert RemoveAll(ab, c) == (if a[0] == c then [] else [a[0]]) + RemoveAll(a[1..] + b, c);
    } else {
      assert a + b == b;
    }
  }

  /** Removing the quotes from the joined quoted alternatives joins the bare ones. */
  lemma {:induction false} UnquoteJoined(ts: seq<string>)
    requires PlainAlternatives(ts)
    ensures RemoveAll(Join(Quoted(ts), ", "), '\'') == Join(ts, ", ")
    decreases |ts|
  {
    if |ts| == 1 {
      UnquoteOne(ts[0]);
    } else if |ts| > 1 {
      var n := |ts| - 1;
      var init := ts[..n];
      QuotedSnoc(ts);
      assert Quoted(ts)[..n] == Quoted(init);
      assert PlainAlternatives(init);
      UnquoteJoined(init);
      var j := Join(Quoted(init), ", ");
      assert Join(Quoted(ts), ", ") == j + ", " + ("'" + ts[n] + "'");
      RemoveAllConcat(j, ", ", '\'');
      RemoveAllConcat(j + ", ", "'" + ts[n] + "'", '\'');
      UnquoteOne(ts[n]);
    }
  }

  lemma UnquoteOne(t: string)
    requires '\'' !in t
    ensures RemoveAll("'" + t + "'", '\'') == t
  {
    var q := '\'';
    var s := [q] + t + [q];
    assert "'" + t + "'" == s;
    assert s[1..] == t + [q];
    assert RemoveAll(s, q) == RemoveAll(t + [q], q);
    RemoveAllConcat(t, [q], q);
    assert RemoveAll([q], q) == [];
  }

  /** Replacing the last comma of "prefix, t" when `t` has none. */
  lemma LastCommaSplit(prefix: string, t: string)
    requires ',' !in t
    ensures ReplaceLastComma(prefix + ", " + t) == prefix + " or " + t
  {
    var joined := prefix + ", " + t;
    var k := |prefix|;
    assert joined[k] == ',';
    assert joined[k + 1..] == " " + t;
    LastIndexAt(joined, ',', k);
    assert joined[..k] == prefix;
    OrSpacing(prefix, t);
  }

  /** The last comma of the joined alternatives is the one before the last alternative. */
  lemma LastCommaBeforeLast(ts: seq<string>)
    requires |ts| >= 1 && PlainAlternatives(ts)
    ensures ReplaceLastComma(Join(ts, ", ")) == OrList(ts)
  {
    var n := |ts| - 1;
    if n == 0 {
      assert Join(ts, ", ") == ts[0];
      assert LastIndex(ts[0], ',') == -1;
    } else {
      LastCommaSplit(Join(ts[..n], ", "), ts[n]);
    }
  }

  lemma OrSpacing(p: string, t: string)
    ensures p + " or" + (" " + t) == p + " or " + t
  {
    var l, r := p + " or" + (" " + t), p + " or " + t;
    assert |l| == |r|;
    forall i | 0 <= i < |l| ensures l[i] == r[i] {
      if i >= |p| + 4 {
        assert l[i] == t[i - |p| - 4];
      }
    }
  }

  /** `formatParam` turns quoted alternatives into an English list: "'CREDIT'
      'DEBIT'" reads "CREDIT or DEBIT", three alternatives read "A, B or C". */
  lemma FormatQuotedAlternatives(ts: seq<string>)
    requires |ts| >= 1 && PlainAlternatives(ts)
    ensures FormattedParam(QuotedList(ts)) == OrList(ts)
  {
    ScanQuotedList(ts);
    UnquoteJoined(ts);
    LastCommaBeforeLast(ts);
  }

  lemma FormatCreditDebit()
    ensures FormattedParam("'CREDIT' 'DEBIT'") == "CREDIT or DEBIT"
  {
    var ts := ["CREDIT", "DEBIT"];
    var qs := Quoted(ts);
    assert qs[0] == "'CREDIT'" && qs[1] == "'DEBIT'";
    assert qs == ["'CREDIT'", "'DEBIT'"];
    assert QuotedList(ts) == qs[0] + " " + qs[1];
    assert qs[0] + " " + qs[1] == "'CREDIT' 'DEBIT'";
    assert PlainAlternatives(ts);
    assert "CREDIT" + " or " + "DEBIT" == "CREDIT or DEBIT";
    assert OrList(ts) == "CREDIT or DEBIT";
    FormatQuotedAlternatives(ts);
  }

  /** A bare word outside any quote is one field. */
  lemma {:induction false} ScanBareWord(t: string)
    requires t != [] && forall i :: 0 <= i < |t| ==> !IsSpace(t[i]) && !IsQuote(t[i]) && t[i] != NoQuote
    ensures ScanFrom(Start, t) == Scan(NoQuote, true, [t])
    decreases |t|
  {
    var n := |t| - 1;
    assert Separates(NoQuote, t[n]) == (false, NoQuote);
    if n > 0 {
      ScanBareWord(t[..n]);
      var fs := [t[..n]];
      assert fs[..|fs| - 1] + [fs[|fs| - 1] + [t[n]]] == [t[..n] + [t[n]]];
      assert t[..n] + [t[n]] == t;
    } else {
      assert t[..n] == [];
      assert ScanFrom(Start, t) == Step(Start, t[0]);
      assert t == [t[0]];
    }
  }

  /** A single bare value, such as "EUR", is returned unchanged. */
  lemma FormatBareWord(t: string)
    requires t != [] && ',' !in t
    requires forall i :: 0 <= i < |t| ==> !IsSpace(t[i]) && !IsQuote(t[i]) && t[i] != NoQuote
    ensures FormattedParam(t) == t
  {
    ScanBareWord(t);
  }

  /** No single quote survives formatting. */
  lemma FormattedHasNoQuote(param: string)
    ensures '\'' !in FormattedParam(param)
  {
    var joined := RemoveAll(Join(Fields(param), ", "), '\'');
    var lastI := LastIndex(joined, ',');
    if lastI != -1 {
      var r := joined[..lastI] + " or" + joined[lastI + 1..];
      assert forall x :: x in r ==> x in joined[..lastI] || x in " or" || x in joined[lastI + 1..];
      assert forall x :: x in joined[..lastI] ==> x in joined;
      assert forall x :: x in joined[lastI + 1..] ==> x in joined;
    }
  }

  /** A oneof violation names the field and lists the alternatives in English. */
  lemma OneofSentence(field: string, ts: seq<string>)
    requires |ts| >= 1 && PlainAlternatives(ts)
    ensures Sentence(ValidationProblemDetail("oneof", field, QuotedList(ts)))
         == Some(field + " value must be one of the following: " + OrList(ts))
  {
    FormatQuotedAlternatives(ts);
  }
}
