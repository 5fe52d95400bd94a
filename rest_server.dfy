/** pkg/server/rest_server.go: the dispatcher. A request is routed to a handler
    (or to a handler that renders the routing problem), the handler is wrapped
    in the registered middlewares, the first registered outermost, and run on a
    pooled context; an error it returns is rendered as a problem response, and
    the context goes back to the pool.

    Handlers are terms: an application route (an opaque id), the handler that
    renders a problem, or a middleware wrapped around a handler. What the
    application handlers and the custom middlewares do, how a Content-Type is
    parsed and how a problem is marshalled are the parameters of an Env. */
module RestServer {
  import opened Wrappers
  import opened Exception
  import opened JsonMiddleware
  import opened Binding
  import opened Logger
  import opened RestContext
  import opened Router

  /** A Go `error` as the pipeline sees it: a problem, or any other error with its text. */
  datatype Err = ProblemErr(problem: Problem) | OtherErr(text: string)

  /** A registered middleware: the JSON gate, or a custom one that either
      stops the request with an error or hands it on unchanged. */
  datatype Middleware = JsonContentType | Custom(id: int)

  datatype Handler =
    | Route(id: HandlerId)
    | ErrorHandler(problem: Problem)
    | Wrap(middleware: Middleware, next: Handler)

  /** What a handler does to the response, and the error it returns. */
  datatype Outcome = Outcome(ops: seq<SinkOp>, err: Option<Err>)

  datatype Env = Env(
    app: (HandlerId, HttpRequest) -> Outcome,
    guard: (int, HttpRequest) -> Option<Err>,
    parseMediaType: string -> Option<string>,
    marshal: Problem -> string)

  /** `handleError`: a problem is rendered as it is; any other error becomes an
      internal-server-error problem carrying the error's text. */
  function HandleError(err: Err): (p: Problem)
    ensures err.ProblemErr? ==> p == err.problem
    ensures err.OtherErr? ==> OfKind(p, InternalServerError) && ErrorText(p) == err.text
  {
    match err
    case ProblemErr(p) => p
    case OtherErr(text) => NewInternalServerError([text])
  }

  /** What `writeException` writes: the problem's code as status, then its JSON. */
  function ExceptionOps(env: Env, p: Problem): seq<SinkOp>
  {
    [WriteHeader(p.code), Write(env.marshal(p))]
  }

  /** On a fresh writer the client receives the problem's code and its JSON. */
  lemma ExceptionReceived(env: Env, p: Problem)
    ensures Status(ExceptionOps(env, p)) == Some(p.code)
    ensures SentBody(ExceptionOps(env, p)) == env.marshal(p)
  {
    var ops := ExceptionOps(env, p);
    assert ops[1..][1..] == [];
    assert SentBody(ops[1..]) == env.marshal(p) + "";
  }

  /** Whether a middleware hands the request on to the next handler. */
  predicate Passes(env: Env, m: Middleware, req: HttpRequest)
  {
    match m
    case JsonContentType => JsonGate(env.parseMediaType(HeaderGet(req, "Content-Type"))).Proceed?
    case Custom(id) => env.guard(id, req).None?
  }

  /** The error a middleware returns when it stops the request. */
  function Rejection(env: Env, m: Middleware, req: HttpRequest): Err
    requires !Passes(env, m, req)
  {
    match m
    case JsonContentType => ProblemErr(JsonGate(env.parseMediaType(HeaderGet(req, "Content-Type"))).problem)
    case Custom(id) => env.guard(id, req).value
  }

  /** Running a handler on a request. */
  function Run(env: Env, h: Handler, req: HttpRequest): Outcome
    decreases h
  {
    match h
    case Route(id) => env.app(id, req)
    case ErrorHandler(p) => Outcome(ExceptionOps(env, p), None)
    case Wrap(m, next) =>
      if Passes(env, m, req) then Run(env, next, req) else Outcome([], Some(Rejection(env, m, req)))
  }

  /** The middlewares folded around a handler, the first one outermost. */
  function Compose(ms: seq<Middleware>, h: Handler): Handler
    decreases |ms|
  {
    if ms == [] then h else Wrap(ms[0], Compose(ms[1..], h))
  }

  /** Composing a concatenation nests the compositions. */
  lemma {:induction false} ComposeAppend(a: seq<Middleware>, b: seq<Middleware>, h: Handler)
    ensures Compose(a + b, h) == Compose(a, Compose(b, h))
    decreases |a|
  {
    if a == [] {
      assert a + b == b;
    } else {
      assert (a + b)[1..] == a[1..] + b;
      ComposeAppend(a[1..], b, h);
    }
  }

  /** A middleware added later wraps the handler inside the earlier ones. */
  lemma UseWrapsInnermost(ms: seq<Middleware>, m: Middleware, h: Handler)
    ensures Compose(ms + [m], h) == Compose(ms, Wrap(m, h))
  {
    ComposeAppend(ms, [m], h);
  }

  /** When every middleware hands the request on, the handler runs as if unwrapped. */
  lemma {:induction false} RunAllPass(env: Env, ms: seq<Middleware>, h: Handler, req: HttpRequest)
    requires forall i :: 0 <= i < |ms| ==> Passes(env, ms[i], req)
    ensures Run(env, Compose(ms, h), req) == Run(env, h, req)
    decreases |ms|
  {
    if ms != [] {
      RunAllPass(env, ms[1..], h, req);
    }
  }

  /** The first middleware that stops the request decides the outcome: nothing
      is written and neither the later middlewares nor the handler run. */
  lemma {:induction false} RunFirstRejection(env: Env, ms: seq<Middleware>, h: Handler, req: HttpRequest, k: nat)
    requires k < |ms| && !Passes(env, ms[k], req)
    requires forall i :: 0 <= i < k ==> Passes(env, ms[i], req)
    ensures Run(env, Compose(ms, h), req) == Outcome([], Some(Rejection(env, ms[k], req)))
    decreases k
  {
    if k > 0 {
      RunFirstRejection(env, ms[1..], h, req, k - 1);
    }
  }

  /** The JSON gate: a request without a Content-Type header is stopped with
      415, one with another media type with 400, whatever the handler; a JSON
      request reaches the handler unchanged. */
  lemma JsonGateStops(env: Env, next: Handler, req: HttpRequest)
    requires env.parseMediaType("") == None
    ensures "Content-Type" !in req.header ==>
      && Run(env, Wrap(JsonContentType, next), req).ops == []
      && Run(env, Wrap(JsonContentType, next), req).err == Some(ProblemErr(NewUnsupportedMediaType("Invalid Content-type")))
    ensures (var t := env.parseMediaType(HeaderGet(req, "Content-Type"));
      t.Some? && t.value != JsonMediaType ==>
      Run(env, Wrap(JsonContentType, next), req)
        == Outcome([], Some(ProblemErr(NewBadRequestProblem("Content-Type header must be application/json")))))
    ensures env.parseMediaType(HeaderGet(req, "Content-Type")) == Some(JsonMediaType) ==>
      Run(env, Wrap(JsonContentType, next), req) == Run(env, next, req)
  {
  }

  /** The handler `getHandler` chooses for a routing outcome. */
  function HandlerFor(res: Resolution, req: HttpRequest): Handler
  {
    match res
    case Matched(id) => Route(id)
    case PathNotFound(_) => ErrorHandler(NewRouteNotFound(req.path))
    case MethodNotAllowed(_) => ErrorHandler(NewMethodNotAllowed(req.path, req.httpMethod))
  }

  /** The routing failures are rendered with the problem `load` reports: the
      404 handler exactly when no pattern matches the path. */
  lemma HandlerForFailure(routes: Routes, req: HttpRequest, res: Resolution)
    requires IsLoad(routes, req.path, req.httpMethod, res)
    ensures !res.Matched? ==> HandlerFor(res, req) == ErrorHandler(res.problem)
    ensures HandlerFor(res, req) == ErrorHandler(NewRouteNotFound(req.path))
        <==> forall pattern :: pattern in routes ==> !RouteMatches(req.path, pattern)
  {
    LoadOutcomes(routes, req.path, req.httpMethod, res);
  }

  /** A handler's output, then the rendered error if it returned one. */
  function Respond(env: Env, h: Handler, req: HttpRequest): seq<SinkOp>
  {
    var out := Run(env, h, req);
    out.ops + (if out.err.Some? then ExceptionOps(env, HandleError(out.err.value)) else [])
  }

  /** Everything `ServeHTTP` writes for a routing outcome. */
  function Serve(env: Env, ms: seq<Middleware>, res: Resolution, req: HttpRequest): seq<SinkOp>
  {
    Respond(env, Compose(ms, HandlerFor(res, req)), req)
  }

  /** An unknown path is answered with 404 and the route-not-found problem for
      that path, whatever the method, when the middlewares let it through. */
  lemma ServeNotFound(env: Env, ms: seq<Middleware>, routes: Routes, req: HttpRequest, res: Resolution)
    requires forall pattern :: pattern in routes ==> !RouteMatches(req.path, pattern)
    requires IsLoad(routes, req.path, req.httpMethod, res)
    requires forall i :: 0 <= i < |ms| ==> Passes(env, ms[i], req)
    ensures Serve(env, ms, res, req) == ExceptionOps(env, NewRouteNotFound(req.path))
    ensures Status(Serve(env, ms, res, req)) == Some(404)
  {
    RunAllPass(env, ms, HandlerFor(res, req), req);
    ExceptionReceived(env, NewRouteNotFound(req.path));
  }

  /** A known path with an unregistered method is answered with 405. */
  lemma ServeMethodNotAllowed(env: Env, ms: seq<Middleware>, routes: Routes, req: HttpRequest, res: Resolution)
    requires IsLoad(routes, req.path, req.httpMethod, res) && res.MethodNotAllowed?
    requires forall i :: 0 <= i < |ms| ==> Passes(env, ms[i], req)
    ensures Serve(env, ms, res, req) == ExceptionOps(env, NewMethodNotAllowed(req.path, req.httpMethod))
    ensures Status(Serve(env, ms, res, req)) == Some(405)
  {
    RunAllPass(env, ms, HandlerFor(res, req), req);
    ExceptionReceived(env, NewMethodNotAllowed(req.path, req.httpMethod));
  }

  /** The routing-failure handlers are wrapped too: with the JSON gate first, a
      request without a Content-Type is answered with 415 even on an unknown path. */
  lemma ServeJsonGateFirst(env: Env, ms: seq<Middleware>, res: Resolution, req: HttpRequest)
    requires env.parseMediaType("") == None && "Content-Type" !in req.header
    requires ms != [] && ms[0] == JsonContentType
    ensures Serve(env, ms, res, req) == ExceptionOps(env, NewUnsupportedMediaType("Invalid Content-type"))
    ensures Status(Serve(env, ms, res, req)) == Some(415)
  {
    JsonGateStops(env, Compose(ms[1..], HandlerFor(res, req)), req);
    ExceptionReceived(env, NewUnsupportedMediaType("Invalid Content-type"));
  }

  /** A matched handler's output is the response; a problem it returns follows
      it as it is, any other error as a 500 carrying the error's text. */
  lemma ServeMatched(env: Env, ms: seq<Middleware>, id: HandlerId, req: HttpRequest)
    requires forall i :: 0 <= i < |ms| ==> Passes(env, ms[i], req)
    ensures var out := env.app(id, req);
      && (out.err.None? ==> Serve(env, ms, Matched(id), req) == out.ops)
      && (out.err.Some? && out.err.value.OtherErr? ==>
            Serve(env, ms, Matched(id), req)
              == out.ops + ExceptionOps(env, NewInternalServerError([out.err.value.text])))
      && (out.err.Some? && out.err.value.ProblemErr? ==>
            Serve(env, ms, Matched(id), req) == out.ops + ExceptionOps(env, out.err.value.problem))
  {
    RunAllPass(env, ms, Route(id), req);
  }

  /** Taking the last element off and putting it back restores the sequence. */
  lemma PopPush<X>(s: seq<X>)
    requires s != []
    ensures s[..|s| - 1] + [s[|s| - 1]] == s
  {
  }

  class RestServer {
    var router: RestRouter?
    var middlewares: seq<Middleware>
    /** The sequential model of `ctxPool`: the contexts free for reuse. */
    var pool: seq<HttpContext>
    const log: StandardLog?
    const binder: Binder
    const env: Env

    /** Every pooled context was made by the pool's `New`. */
    ghost predicate Valid()
      reads this
    {
      forall i :: 0 <= i < |pool| ==> pool[i].log == log && pool[i].binder == binder
    }

    /** `NewRestServer`: no router and no middlewares yet, an empty pool. */
    constructor(log: StandardLog?, binder: Binder, env: Env)
      ensures Valid()
      ensures router == null && middlewares == [] && pool == []
      ensures this.log == log && this.binder == binder && this.env == env
    {
      router := null;
      middlewares := [];
      pool := [];
      this.log := log;
      this.binder := binder;
      this.env := env;
    }

    /** `Router`: installs the router and returns the same server. */
    method Router(router: RestRouter) returns (r: RestServer)
      modifies this
      ensures r == this && this.router == router
      ensures middlewares == old(middlewares) && pool == old(pool)
    {
      this.router := router;
      return this;
    }

    /** `Use`: appends a middleware after the earlier ones and returns the same server. */
    method Use(m: Middleware) returns (r: RestServer)
      modifies this
      ensures r == this && middlewares == old(middlewares) + [m]
      ensures router == old(router) && pool == old(pool)
    {
      middlewares := middlewares + [m];
      return this;
    }

    /** `applyMiddlewares`: folds the middlewares from the last to the first. */
    method ApplyMiddlewares(handler: Handler) returns (fnc: Handler)
      ensures fnc == Compose(middlewares, handler)
    {
      fnc := handler;
      var i := |middlewares|;
      while i > 0
        invariant 0 <= i <= |middlewares|
        invariant fnc == Compose(middlewares[i..], handler)
      {
        i := i - 1;
        assert middlewares[i..][1..] == middlewares[i + 1..];
        fnc := Wrap(middlewares[i], fnc);
      }
    }

    /** `getHandler`: the routed handler, or one that renders the routing problem. */
    method GetHandler(req: HttpRequest) returns (h: Handler, ghost res: Resolution)
      requires router != null && Routable(router.routes, req.path)
      ensures IsLoad(router.routes, req.path, req.httpMethod, res) && h == HandlerFor(res, req)
    {
      var status := router.Load(req.path, req.httpMethod);
      res := status;
      match status
      case Matched(handler) =>
        h := Route(handler);
      case PathNotFound(_) =>
        h := ErrorHandler(NewRouteNotFound(req.path));
      case MethodNotAllowed(_) =>
        h := ErrorHandler(NewMethodNotAllowed(req.path, req.httpMethod));
    }

    /** `AcquireContext`: the most recently released context, or a new one
        holding the server's logger and binder. */
    method AcquireContext() returns (ctx: HttpContext)
      requires Valid()
      modifies this
      ensures Valid() && ctx.log == log && ctx.binder == binder
      ensures old(pool) != [] ==> ctx == old(pool)[|old(pool)| - 1] && pool == old(pool)[..|old(pool)| - 1]
      ensures old(pool) == [] ==> fresh(ctx) && pool == []
      ensures router == old(router) && middlewares == old(middlewares)
    {
      if pool == [] {
        ctx := new HttpContext(null, None, log, binder);
      } else {
        ctx := pool[|pool| - 1];
        pool := pool[..|pool| - 1];
      }
    }

    /** `ReleaseContext`: the context is free again. */
    method ReleaseContext(ctx: HttpContext)
      requires Valid() && ctx.log == log && ctx.binder == binder
      modifies this
      ensures Valid() && pool == old(pool) + [ctx]
      ensures router == old(router) && middlewares == old(middlewares)
    {
      pool := pool + [ctx];
    }

    /** `writeException`. */
    method WriteException(w: ResponseSink, ex: Problem)
      modifies w
      ensures w.ops == old(w.ops) + ExceptionOps(env, ex)
    {
      w.WriteHeader(ex.code);
      var marshal := env.marshal(ex);
      w.Write(marshal);
    }

    /** Runs a handler on a context: the middlewares' checks, the application
        handler, or `errorHandler`, which writes the problem and returns nil. */
    method Execute(h: Handler, ctx: HttpContext) returns (err: Option<Err>)
      requires ctx.writer != null && ctx.request.Some?
      modifies ctx.writer
      ensures ctx.writer.ops == old(ctx.writer.ops) + Run(env, h, ctx.request.value).ops
      ensures err == Run(env, h, ctx.request.value).err
      decreases h
    {
      var req := ctx.request.value;
      match h
      case Route(id) =>
        var out := env.app(id, req);
        ctx.writer.Perform(out.ops);
        err := out.err;
      case ErrorHandler(p) =>
        WriteException(ctx.writer, p);
        err := None;
      case Wrap(JsonContentType, next) =>
        var contentType := HeaderGet(req, "Content-Type");
        var decision := JsonGate(env.parseMediaType(contentType));
        if decision.Reject? {
          return Some(ProblemErr(decision.problem));
        }
        err := Execute(next, ctx);
      case Wrap(Custom(id), next) =>
        var stop := env.guard(id, req);
        if stop.Some? {
          return stop;
        }
        err := Execute(next, ctx);
    }

    /** The start of `ServeHTTP`: a context from the pool, reset to this writer and request. */
    method AcquireFor(w: ResponseSink, req: HttpRequest) returns (ctx: HttpContext)
      requires Valid()
      modifies this, pool
      ensures Valid() && ctx.log == log && ctx.binder == binder
      ensures ctx.writer == w && ctx.request == Some(req)
      ensures old(pool) != [] ==> ctx == old(pool)[|old(pool)| - 1] && pool == old(pool)[..|old(pool)| - 1]
      ensures old(pool) == [] ==> fresh(ctx) && pool == []
      ensures router == old(router) && middlewares == old(middlewares)
    {
      ctx := AcquireContext();
      ctx.Reset(w, Some(req));
    }

    /** The middle of `ServeHTTP`: run the wrapped handler and, when it returns
        an error, run `errorHandler` on the problem `handleError` makes of it. */
    method RunAndRender(composed: Handler, ctx: HttpContext)
      requires ctx.writer != null && ctx.request.Some?
      modifies ctx.writer
      ensures ctx.writer.ops == old(ctx.writer.ops) + Respond(env, composed, ctx.request.value)
    {
      var err := Execute(composed, ctx);
      if err.Some? {
        var e := Execute(ErrorHandler(HandleError(err.value)), ctx);
      }
    }

    /** `ServeHTTP`: route, acquire a context, reset it to this request, run the
        wrapped handler, render its error if any, release the context. */
    method ServeHTTP(w: ResponseSink, req: HttpRequest)
      requires Valid() && router != null && Routable(router.routes, req.path)
      modifies this, w, pool
      ensures Valid() && router == old(router) && middlewares == old(middlewares)
      ensures exists res :: IsLoad(old(router.routes), req.path, req.httpMethod, res)
                && w.ops == old(w.ops) + Serve(env, old(middlewares), res, req)
      ensures old(pool) != [] ==> pool == old(pool)
      ensures old(pool) == [] ==> |pool| == 1 && fresh(pool[0])
    {
      ghost var res;
      var handler;
      handler, res := GetHandler(req);
      if pool != [] {
        PopPush(pool);
      }
      var httpContext := AcquireFor(w, req);
      var composed := ApplyMiddlewares(handler);
      assert composed == Compose(middlewares, HandlerFor(res, req));
      RunAndRender(composed, httpContext);
      ReleaseContext(httpContext);
      assert old(pool) == [] ==> pool == [httpContext];
    }
  }
}
