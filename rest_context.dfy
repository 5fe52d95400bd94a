/** pkg/server/rest_context.go: the per-request context and the response it
    writes. The `http.ResponseWriter` is a sink that records its effects in
    order; what a client receives is read off that trace with the rules of
    Go's ResponseWriter: headers count only when set before the status is
    written, the first status wins, and a body written first implies 200. */
module RestContext {
  import opened Wrappers
  import opened Exception
  import opened Binding
  import opened Logger

  /** One effect on the response writer. */
  datatype SinkOp = SetHeader(key: string, value: string) | WriteHeader(code: int) | Write(data: string)

  /** The headers sent with the response: those set before the first
      WriteHeader or Write, a later Set of the same key overriding. */
  function SentHeaders(acc: map<string, string>, ops: seq<SinkOp>): map<string, string>
    decreases |ops|
  {
    if ops == [] then acc
    else match ops[0]
      case SetHeader(k, v) => SentHeaders(acc[k := v], ops[1..])
      case _ => acc
  }

  /** The status sent: the first WriteHeader, or 200 when a Write comes first. */
  function Status(ops: seq<SinkOp>): Option<int>
    decreases |ops|
  {
    if ops == [] then None
    else match ops[0]
      case WriteHeader(c) => Some(c)
      case Write(_) => Some(200)
      case SetHeader(_, _) => Status(ops[1..])
  }

  /** The body sent: every Write, in order. */
  function SentBody(ops: seq<SinkOp>): string
    decreases |ops|
  {
    if ops == [] then ""
    else (match ops[0] case Write(d) => d case _ => "") + SentBody(ops[1..])
  }

  class ResponseSink {
    var ops: seq<SinkOp>

    constructor()
      ensures ops == []
    {
      ops := [];
    }

    /** `Header().Set(key, value)`. */
    method SetHeader(key: string, value: string)
      modifies this
      ensures ops == old(ops) + [SinkOp.SetHeader(key, value)]
    {
      ops := ops + [SinkOp.SetHeader(key, value)];
    }

    method WriteHeader(code: int)
      modifies this
      ensures ops == old(ops) + [SinkOp.WriteHeader(code)]
    {
      ops := ops + [SinkOp.WriteHeader(code)];
    }

    method Write(data: string)
      modifies this
      ensures ops == old(ops) + [SinkOp.Write(data)]
    {
      ops := ops + [SinkOp.Write(data)];
    }

    /** The effects of an application handler, performed in order. */
    method Perform(more: seq<SinkOp>)
      modifies this
      ensures ops == old(ops) + more
    {
      ops := ops + more;
    }
  }

  /** The parts of an `http.Request` the framework reads. */
  datatype HttpRequest = HttpRequest(httpMethod: string, path: string, header: map<string, string>, body: Body)

  /** `Header.Get(key)`: the empty string when the header is absent. */
  function HeaderGet(r: HttpRequest, key: string): string
  {
    if key in r.header then r.header[key] else ""
  }

  /** What `WriteResponse` writes: the JSON content type, then the status, then
      the encoded data followed by the encoder's newline, unless encoding failed. */
  function ResponseOps(statusCode: int, encoded: Result<string, string>): seq<SinkOp>
  {
    [SetHeader("Content-Type", "application/json"), WriteHeader(statusCode)]
      + (if encoded.Success? then [Write(encoded.value + "\n")] else [])
  }

  /** On a fresh writer the client receives the JSON content type, the given
      status and the encoded body. */
  lemma ResponseReceived(statusCode: int, json: string)
    ensures var ops := ResponseOps(statusCode, Success(json));
      && SentHeaders(map[], ops) == map["Content-Type" := "application/json"]
      && Status(ops) == Some(statusCode)
      && SentBody(ops) == json + "\n"
  {
    var ops := ResponseOps(statusCode, Success(json));
    assert ops[1..][1..][1..] == [];
    assert SentBody(ops[1..][1..]) == json + "\n" + "";
  }

  /** Order matters: a header set after the status is not sent. */
  lemma LateHeaderNotSent(statusCode: int, key: string, value: string)
    ensures key !in SentHeaders(map[], [WriteHeader(statusCode), SetHeader(key, value)])
  {
  }

  class HttpContext {
    var writer: ResponseSink?
    var request: Option<HttpRequest>
    const log: StandardLog?
    const binder: Binder

    /** `NewHttpContext`: stores its arguments as given. */
    constructor(writer: ResponseSink?, request: Option<HttpRequest>, log: StandardLog?, binder: Binder)
      ensures this.writer == writer && this.request == request && this.log == log && this.binder == binder
    {
      this.writer := writer;
      this.request := request;
      this.log := log;
      this.binder := binder;
    }

    /** `reset`: a new writer and request; logger and binder, which no method
        reassigns, are kept. */
    method Reset(writer: ResponseSink?, request: Option<HttpRequest>)
      modifies this
      ensures this.writer == writer && this.request == request
    {
      this.request := request;
      this.writer := writer;
    }

    function Writer(): (w: ResponseSink?)
      reads this
      ensures w == writer
    {
      writer
    }

    function Request(): (r: Option<HttpRequest>)
      reads this
      ensures r == request
    {
      request
    }

    function Logger(): (l: StandardLog?)
      reads this
      ensures l == log
    {
      log
    }

    /** `SetRequest`: only the request changes. */
    method SetRequest(r: Option<HttpRequest>)
      modifies this
      ensures request == r && writer == old(writer)
    {
      request := r;
    }

    /** `WriteResponse(statusCode, data)`, given the outcome of encoding `data`. */
    method WriteResponse(statusCode: int, encoded: Result<string, string>) returns (err: Option<Problem>)
      requires writer != null
      modifies writer
      ensures writer.ops == old(writer.ops) + ResponseOps(statusCode, encoded)
      ensures err == if encoded.Failure? then Some(NewInternalServerError([encoded.error])) else None
    {
      writer.SetHeader("Content-Type", "application/json");
      writer.WriteHeader(statusCode);

      if encoded.Failure? {
        return Some(NewInternalServerError([encoded.error]));
      }
      writer.Write(encoded.value + "\n");
      return None;
    }

    /** `ReadBody`: the shared binder reads this context's request body. */
    method ReadBody(target: Target) returns (err: Option<Problem>, bound: Target)
      requires request.Some?
      ensures (err, bound) == Bind(binder, request.value.body, target)
    {
      err, bound := Binding.ReadBody(binder, request.value.body, target);
    }
  }
}
