# A verified model of the `bills` HTTP framework

The `bills` service is a small REST API for financial transactions. It is built
on a home-grown framework under `pkg/`, and that framework is what this project
models in Dafny:

- **path matcher**: decides whether a request path fits a route pattern such
  as `/transactions/:id`. A segment starting with `:` matches any value, a query string
  on the last segment is ignored, and the pattern `/` is a special case.
- **router**: a table from pattern to HTTP method to handler. Its lookup finds
  the handler, or reports 404 (unknown path) or 405 (method not registered for
  a known path).
- **REST server**: its `ServeHTTP` resolves the route and takes a request
  context from a pool. It wraps the handler in the middlewares (the first one
  registered is outermost), runs it, renders any returned error as a JSON
  problem, and puts the context back.
- **request context**: holds the response writer, the request, the logger and
  the body binder. `WriteResponse` writes the JSON content type, the status and
  the JSON body, in that order.
- **binder**: decodes a JSON body and validates it. It reports a
  malformed-request problem, or one invalid-request problem with one English
  sentence per violated constraint.
- **problems**: the RFC 7807-style error values with their codes, titles and
  type URIs. This includes `formatParam`, which turns a `oneof` parameter such
  as `'CREDIT' 'DEBIT'` into `CREDIT or DEBIT`.
- **JSON middleware**: rejects a request whose Content-Type does not parse
  (415) or is not `application/json` (400).
- **storage**: an in-memory store that numbers entities 1, 2, 3, … and the
  PostgreSQL store's `INSERT` builder.
- **standard logger**: level thresholds, line format, and the exit call made
  after a Fatal line.

Files:

| file | models |
|---|---|
| `wrappers.dfy` | `Option`, `Result` |
| `text.dfy` | the few functions of Go's `strings` and `strconv` packages the core uses (`Split`, `Join`, `Itoa`, `LastIndex`, `ReplaceAll`), with the lemmas about them |
| `matcher.dfy` | `pkg/matcher/path.go` |
| `exception.dfy` | `pkg/exception/problem.go` |
| `logger.dfy` | `pkg/logger/logger.go`, `pkg/logger/standard.go` |
| `middleware.dfy` | `pkg/middleware/json.go` |
| `binder.dfy` | `pkg/server/binder.go` |
| `rest_context.dfy` | `pkg/server/rest_context.go`, plus the `http.ResponseWriter` it writes to |
| `router.dfy` | `pkg/server/router.go` |
| `rest_server.dfy` | `pkg/server/rest_server.go` |
| `memory_storage.dfy` | `pkg/storage/memory.go` |
| `psql_storage.dfy` | `Create` and `NewPsqlStorage` of `pkg/storage/postgres.go` |

Design choices:

- **Modelling style.** Stateful objects become classes whose methods update
  their fields. These are the router, the server, its context pool, the
  context, the response writer, the logger and the in-memory store. Each
  method is proved against a specification function. Pure code is modelled as
  functions and lemmas: the matcher's predicate, the problem constructors and
  the middleware.
- **Response writer.** `http.ResponseWriter` is a sink that records its calls
  (`SetHeader`, `WriteHeader`, `Write`). What the client receives is computed
  from that record with Go's rules:
  - a header set after the status line is lost;
  - the first status wins;
  - a `Write` before any status implies 200.
- **Map iteration order.** Go visits a map in no fixed order. So when several
  patterns match a path, `matchHandlers` returns the method map of *some*
  matching pattern, and the router's contract (`IsLoad`) says exactly that.
- **Abstracted components.** User handlers, custom middlewares,
  `json.Marshal`, `json.Unmarshal`, the validator and `mime.ParseMediaType` are
  parameters of the model. The clock (`time.Now`) is a `now` string passed in.
  The database's `Exec` is a function that returns its error, if any.

## Model

| member | source | states |
|---|---|---|
| Matcher.MatchPath | pkg/matcher/path.go:7-46 | The loop over the segments returns true exactly when the path satisfies `Matches`. Its invariant tracks the mounted path built so far. |
| Matcher.RootPattern | pkg/matcher/path.go:9-11 | The pattern `/` matches exactly the paths whose first two segments are empty. |
| Matcher.SegmentCountMismatch | pkg/matcher/path.go:13-17 | Outside the root special case, a path with a different number of segments never matches. |
| Matcher.LiteralMismatch | pkg/matcher/path.go:32-37 | A literal pattern segment that differs from the path's segment (query stripped) makes the match fail. |
| Matcher.ParamAcceptsAnyValue | pkg/matcher/path.go:32-35 | Replacing the value under a `:param` segment never changes the outcome. |
| Matcher.MountedIgnoresParam | pkg/matcher/path.go:28-45 | The mounted path compared at the end does not depend on the values under parameter segments. |
| Matcher.SegmentsMatchIgnoresParam | pkg/matcher/path.go:28-45 | The segment-by-segment check does not depend on the values under parameter segments. |
| Matcher.QueryIgnoredOnLastSegment | pkg/matcher/path.go:24-26 | A `?query` on the last segment does not change whether the path matches. |
| Matcher.QueryNotIgnoredAtRoot | pkg/matcher/path.go:9-11 | The root special case compares the raw segments. `/` matches `/` but not `/?query`. |
| Matcher.QueryInEarlierSegment | pkg/matcher/path.go:24-37 | A `?` in a segment other than the last is not stripped, so a literal pattern without `?` cannot match it. |
| Matcher.MatchImpliesRooted | pkg/matcher/path.go:41-45 | Only an empty pattern or one starting with `/` can ever be matched. |
| Matcher.MountedRooted | pkg/matcher/path.go:28-45 | The mounted path is empty or starts with `/`. |
| Matcher.MountedAllEmpty | pkg/matcher/path.go:28-30 | Segments that are empty on both sides add nothing to the mounted path. |
| Matcher.MountedSelf | pkg/matcher/path.go:28-45 | For a rooted pattern without empty inner segments, mounting it on itself rebuilds the pattern. |
| Matcher.PatternMatchesItself | pkg/matcher/path.go:7-46 | A well-formed pattern, taken as a path, matches itself (path_test.go cases such as `/transactions`). |
| Matcher.AcceptOne | pkg/matcher/path.go:28-40 | One accepted segment extends the accepted prefix and appends `/segment` (or nothing for two empty segments). |
| Matcher.RootSplit | pkg/matcher/path.go:9-11 | The path `/` splits into two empty segments. |
| Exception.TypeIdentifiesKind | pkg/exception/problem.go:27-103 | Every constructor's type URI determines its kind: no two kinds share a type URI. |
| Exception.NewInternalServerError | pkg/exception/problem.go:27-43 | Gives code 500 and its type, with no field errors. With no message it uses the default text; otherwise the messages joined with ".", so one message is kept as it is. |
| Exception.InternalServerErrorTwoMessages | pkg/exception/problem.go:30-31 | Two messages `a` and `b` give the message `a.b`: one "." between them and nothing else. |
| Exception.ErrorTextOfConstructors | pkg/exception/problem.go:21-23 | `Error()` returns the message each constructor was given, and the default text for an internal error without messages. |
| Exception.NewMalformedRequestProblem | pkg/exception/problem.go:45-53 | Gives a malformed-request problem (422, `http.StatusUnprocessableEntity`) with no field errors. |
| Exception.NewBadRequestProblem | pkg/exception/problem.go:55-63 | Gives a 400 problem whose `Error()` text is the given message. |
| Exception.NewUnsupportedMediaType | pkg/exception/problem.go:65-73 | Gives a 415 problem whose `Error()` text is the given message. |
| Exception.NewValidationProblem | pkg/exception/problem.go:75-84 | Gives a 400 invalid-request problem with at most one sentence per detail, and exactly one each when every tag is known. |
| Exception.NewRouteNotFound | pkg/exception/problem.go:85-93 | Gives a 404 problem whose message contains the path at its fixed position. |
| Exception.NewMethodNotAllowed | pkg/exception/problem.go:95-103 | Gives a 405 problem whose message carries the method after "The method " and the path just before the final character. |
| Exception.NewValidationProblemDetail | pkg/exception/problem.go:165-171 | The detail keeps the tag, field and parameter it was given. |
| Exception.Sentence | pkg/exception/problem.go:109-121 | A detail has a sentence exactly when its tag is one the switch knows. |
| Exception.FieldErrorSentences | pkg/exception/problem.go:105-126 | There are no more sentences than details, and exactly as many when all tags are known. |
| Exception.SentencesOfConcat | pkg/exception/problem.go:105-126 | Sentences are produced piecewise, in the details' order. |
| Exception.SentenceAt | pkg/exception/problem.go:105-126 | With only known tags, sentence `i` belongs to detail `i`. |
| Exception.MapValidationErrors | pkg/exception/problem.go:105-126 | The loop returns exactly `FieldErrorSentences` of its input. |
| Exception.FormatParam | pkg/exception/problem.go:128-157 | The loop, which calls the quote-tracking closure once per character from left to right, returns `FormattedParam`: the `FieldsFunc` fields joined with ", ", quotes removed, last comma replaced by " or". |
| Exception.ScanQuotedList | pkg/exception/problem.go:130-146 | Scanning `'A' 'B' …` ends outside any quote with one field per quoted alternative. |
| Exception.ScanQuotedToken | pkg/exception/problem.go:130-146 | A single-quoted token met outside any field is one field. |
| Exception.ScanInsideQuote | pkg/exception/problem.go:130-146 | Inside a quote, spaces do not split the field. |
| Exception.ScanConcat | pkg/exception/problem.go:130-146 | The closure's scan is a left fold: scanning `a + b` scans `a`, then `b`. |
| Exception.ScanBareWord | pkg/exception/problem.go:130-146 | An unquoted word without spaces is one field. |
| Exception.UnquoteJoined | pkg/exception/problem.go:147-148 | Removing the quotes from the joined quoted alternatives gives the bare alternatives joined. |
| Exception.LastCommaBeforeLast | pkg/exception/problem.go:150-155 | The last comma replaced is the one before the final alternative, giving "A, B or C". |
| Exception.FormatQuotedAlternatives | pkg/exception/problem.go:128-157 | Any list of quoted alternatives is formatted as the English list "A, B or C". |
| Exception.FormatCreditDebit | internal/transaction/route_test.go:113 | `'CREDIT' 'DEBIT'` becomes `CREDIT or DEBIT`, as the transaction route test expects. |
| Exception.FormatBareWord | internal/transaction/route_test.go:62 | A single bare value such as `EUR` comes back unchanged. |
| Exception.FormattedHasNoQuote | pkg/exception/problem.go:148 | No single quote survives formatting. |
| Exception.OneofSentence | pkg/exception/problem.go:119-120 | A `oneof` violation names the field and lists the alternatives in English. |
| JsonMiddleware.JsonGate | pkg/middleware/json.go:9-25 | The request proceeds exactly when the media type is `application/json`. An unparsable header gives 415; any other type gives 400. |
| JsonMiddleware.JsonGateMessages | pkg/middleware/json.go:12-20 | These are the two rejection messages the client reads. |
| Binding.DecodeBody | pkg/server/binder.go:45-62 | An empty body leaves the target untouched. A read error is reported as is; otherwise the body goes through `Unmarshal`. |
| Binding.Details | pkg/server/binder.go:33-37 | There is one validation detail per validator error, with the same tag, field and parameter. |
| Binding.ReadBody | pkg/server/binder.go:25-43 | The method's result is `Bind`: malformed when decoding fails, else one validation problem when the validator reports errors, else no error. |
| Binding.EmptyBodyValidated | pkg/server/binder.go:25-62 | An empty body skips decoding but is still validated. The error is absent exactly when the validator finds nothing. |
| Binding.MalformedSkipsValidation | pkg/server/binder.go:27-30 | A body that does not decode gives the malformed-request problem, whatever the validator would say. |
| Binding.ViolationsInOneProblem | pkg/server/binder.go:31-42 | All violations go into one invalid-request problem; with none, there is no error. |
| Binding.KnownTagsOneSentenceEach | pkg/server/binder.go:31-42 | With known tags, the problem carries one sentence per violation, in order. |
| RestContext.ResponseSink.SetHeader | pkg/server/rest_context.go:54-64 | Records a header call on the writer. |
| RestContext.ResponseSink.WriteHeader | pkg/server/rest_context.go:54-64 | Records a status call on the writer. |
| RestContext.ResponseSink.Write | pkg/server/rest_context.go:54-64 | Records a body write on the writer. |
| RestContext.ResponseSink.Perform | pkg/server/rest_context.go:54-64 | Records a sequence of writer calls, in order. |
| RestContext.ResponseReceived | pkg/server/rest_context.go:54-64 | On a fresh writer, the client receives the JSON content type, the status and the JSON followed by a newline. |
| RestContext.LateHeaderNotSent | pkg/server/rest_context.go:54-64 | A header set after the status line is never sent. This is why `WriteResponse` sets the content type first. |
| RestContext.HttpContext.constructor | pkg/server/rest_context.go:29-31 | Stores the writer, request, logger and binder. |
| RestContext.HttpContext.Reset | pkg/server/rest_context.go:33-36 | Replaces writer and request; logger and binder stay. |
| RestContext.HttpContext.Writer | pkg/server/rest_context.go:38-40 | Returns the current writer. |
| RestContext.HttpContext.Request | pkg/server/rest_context.go:42-44 | Returns the current request. |
| RestContext.HttpContext.SetRequest | pkg/server/rest_context.go:50-52 | Replaces the request and keeps the writer. |
| RestContext.HttpContext.Logger | pkg/server/rest_context.go:65-67 | Returns the context's logger. |
| RestContext.HttpContext.WriteResponse | pkg/server/rest_context.go:54-64 | Writes the content type, the status and the JSON. If encoding fails it writes those headers only and returns an internal-server-error problem carrying the encoder's message. |
| RestContext.HttpContext.ReadBody | pkg/server/rest_context.go:69-71 | Delegates to the binder on the current request's body. |
| Router.RegisteredEntries | pkg/server/router.go:28-35 | Registering stores the handler and creates the method map of a new pattern. It overwrites an existing (pattern, method) entry, keeps every other entry, and leaves the method map of every other pattern exactly as it was. |
| Router.RestRouter.constructor | pkg/server/router.go:14-16 | A new router has no routes. |
| Router.RestRouter.Register | pkg/server/router.go:28-35 | The routes become `Registered(old routes, …)`. |
| Router.RestRouter.Get | pkg/server/router.go:18-21 | Registers under GET and returns the router itself, for chaining. |
| Router.RestRouter.POST | pkg/server/router.go:23-26 | Registers under POST and returns the router itself. |
| Router.RestRouter.MatchHandlers | pkg/server/router.go:52-62 | The loop returns the method map of some pattern that matches the path. It returns none exactly when no pattern matches. |
| Router.RestRouter.Load | pkg/server/router.go:37-50 | The result is a possible `load` outcome (`IsLoad`). |
| Router.LoadOutcomes | pkg/server/router.go:37-50 | Not found exactly when no pattern matches, and then the 404 route-not-found problem. Method not allowed means a matching pattern lacks the method (405). Matched means a matching pattern maps the method to that handler. |
| Router.LoadDetermined | pkg/server/router.go:37-50 | When all matching patterns agree, the outcome no longer depends on map order. |
| Router.LoadRegistered | pkg/server/router.go:28-50 | After registering a well-formed pattern that no other pattern matches, a request for that pattern and method finds that handler. |
| Router.RoutableIndexable | pkg/server/router.go:52-62 | Every pattern can be checked against a routable path without indexing out of range. |
| RestServer.HandleError | pkg/server/rest_server.go:141-148 | A problem passes through unchanged. Any other error becomes an internal-server-error problem carrying its text. |
| RestServer.ExceptionReceived | pkg/server/rest_server.go:154-164 | On a fresh writer, the client receives the problem's code as status and its JSON as body. |
| RestServer.ComposeAppend | pkg/server/rest_server.go:110-117 | Composing a concatenation of middlewares nests the two compositions. |
| RestServer.UseWrapsInnermost | pkg/server/rest_server.go:54-57 | A middleware added later wraps the handler inside the earlier ones. |
| RestServer.RunAllPass | pkg/server/rest_server.go:110-117 | When every middleware passes the request on, the wrapped handler behaves as the bare one. |
| RestServer.RunFirstRejection | pkg/server/rest_server.go:110-117 | The first middleware that stops the request decides the outcome. Nothing is written, and the later middlewares and the handler do not run. |
| RestServer.JsonGateStops | pkg/middleware/json.go:9-25 | Wrapped around any handler, the JSON gate stops a request without Content-Type with 415 and one with another media type with 400, writing nothing; a JSON request runs the handler unchanged. |
| RestServer.HandlerForFailure | pkg/server/rest_server.go:78-88 | A routing failure is answered by the error handler for the problem `load` reported. The 404 handler is chosen exactly when no pattern matches the path. |
| RestServer.ServeNotFound | pkg/server/rest_server.go:59-88 | An unknown path is answered with status 404 and the route-not-found problem (rest_server_test.go:86-107). |
| RestServer.ServeMethodNotAllowed | pkg/server/rest_server.go:59-88 | A known path with an unregistered method is answered with 405 (rest_server_test.go:108-118). |
| RestServer.ServeJsonGateFirst | pkg/server/rest_server.go:59-117 | The routing-failure handlers are wrapped too, so a JSON gate registered first answers 415 before any 404 or 405. |
| RestServer.ServeMatched | pkg/server/rest_server.go:59-76 | A matched handler's output is the response. A problem it returns follows that output as it is; any other error follows as a 500 carrying the error's text. |
| RestServer.RestServer.constructor | pkg/server/rest_server.go:33-47 | A new server has no router, no middlewares and an empty pool. |
| RestServer.RestServer.Router | pkg/server/rest_server.go:49-52 | Sets the router and returns the server. |
| RestServer.RestServer.Use | pkg/server/rest_server.go:54-57 | Appends the middleware and returns the server. |
| RestServer.RestServer.ApplyMiddlewares | pkg/server/rest_server.go:110-117 | The reverse loop builds `Compose(middlewares, handler)`, with the first middleware outermost. |
| RestServer.RestServer.GetHandler | pkg/server/rest_server.go:78-88 | Picks the handler for a possible `load` outcome: the matched handler, or the error handler for the 404 or 405 problem. |
| RestServer.RestServer.AcquireContext | pkg/server/rest_server.go:90-92 | Takes the most recently released context, or makes a fresh one that shares the server's logger and binder. |
| RestServer.RestServer.ReleaseContext | pkg/server/rest_server.go:94-96 | Returns the context to the pool. |
| RestServer.RestServer.WriteException | pkg/server/rest_server.go:154-164 | Writes the problem's code, then its JSON. |
| RestServer.RestServer.Execute | pkg/server/rest_server.go:59-117 | Running a composed handler writes what `Run` says and returns its error. |
| RestServer.RestServer.AcquireFor | pkg/server/rest_server.go:61-62 | Acquires a context and resets it to the request and writer. |
| RestServer.RestServer.RunAndRender | pkg/server/rest_server.go:64-71 | Runs the handler, then renders its error, if any, through `handleError` and `writeException`. |
| RestServer.RestServer.ServeHTTP | pkg/server/rest_server.go:59-76 | The writer receives exactly `Serve` for some possible routing outcome. Router and middlewares are unchanged, and the context goes back to the pool. |
| MemoryStorage.Stored | pkg/storage/memory.go:12-18 | The store after `n` creations holds exactly the ids 1..n. |
| MemoryStorage.StoredAt | pkg/storage/memory.go:8-18 | Id `k` holds the `k`-th entity created. |
| MemoryStorage.StoredSnoc | pkg/storage/memory.go:12-18 | A creation adds the next id, which was free, and changes nothing else. |
| MemoryStorage.InMemoryStorage.constructor | pkg/storage/memory.go:20-25 | A new store is empty and its counter is 0. |
| MemoryStorage.InMemoryStorage.Find | pkg/storage/memory.go:8-10 | Finds the `id`-th entity created, or nothing for any other id. |
| MemoryStorage.InMemoryStorage.Create | pkg/storage/memory.go:12-18 | Stores the entity under the next id, which was free, keeps every other entry, and returns the entity. |
| PsqlStorage.ColumnName | pkg/storage/postgres.go:56-61 | The column is the `column` tag when present, else the field name. |
| PsqlStorage.Columns | pkg/storage/postgres.go:55-73 | There is one column per field, in field order. |
| PsqlStorage.Values | pkg/storage/postgres.go:63-64 | There is one value per field, in field order. |
| PsqlStorage.Placeholders | pkg/storage/postgres.go:71 | Placeholder `i` is `$` and `i+1`. |
| PsqlStorage.PlaceholdersDistinct | pkg/storage/postgres.go:71 | No two placeholders are alike, so each value binds to one position. |
| PsqlStorage.JoinStartsWithFirst | pkg/storage/postgres.go:66-70 | The separator goes only between items: a list starts with its first item. |
| PsqlStorage.TwoPlaceholders | pkg/storage/postgres.go:66-71 | Two fields give `$1, $2`. |
| PsqlStorage.TwoFieldQuery | pkg/storage/postgres.go:44-75 | Two fields, the first tagged, give `INSERT INTO t(tag, Name) VALUES($1, $2)`. |
| PsqlStorage.BuildInsert | pkg/storage/postgres.go:53-75 | The loop builds exactly `InsertQuery(table, fields)` and the field values in order. |
| PsqlStorage.PsqlStorage.constructor | pkg/storage/postgres.go:108-118 | Stores the table name. |
| PsqlStorage.PsqlStorage.Create | pkg/storage/postgres.go:44-82 | Sends `InsertQuery` with the values. On success it returns the entity; on a database error it returns the error with the "could not insert row on database: " prefix. |
| PsqlStorage.NewPsqlStorage | pkg/storage/postgres.go:108-118 | Refuses with "Invalid table name" exactly when the name is missing or empty, else yields a store on that table. |
| Logger.LevelLabel | pkg/logger/logger.go:27-34 | A level has a label exactly when it lies between Trace and Fatal; a missing key reads as the empty string. |
| Logger.IsLevelWritableAndInRange | pkg/logger/standard.go:101-103 | A level is writable exactly when it has a label, so NoOp never is. |
| Logger.StandardFormat | pkg/logger/standard.go:112-122 | The line starts with the timestamp and a space, ends with a space and the message, and is the four fields plus three spaces long. |
| Logger.DefaultOptions | pkg/logger/standard.go:25-44 | The defaults use the standard formatter and write exactly the levels Info through Fatal. |
| Logger.LevelLabels | pkg/logger/logger.go:27-34 | Only the levels Trace through Fatal have a label, and no two of them share one. |
| Logger.StandardLine | pkg/logger/standard.go:112-122 | A line is timestamp, label, level number and message, separated by spaces. |
| Logger.RecordWritten | pkg/logger/standard.go:78-103 | A call writes exactly when logging is on, the level is in range and at or above the threshold. What it writes ends in a newline. |
| Logger.NoOpSilent | pkg/logger/standard.go:78-99 | The NoOp threshold silences every call, Fatal included, and makes no exit call. |
| Logger.ThresholdMonotone | pkg/logger/standard.go:101-103 | Raising a written call's level, within range, keeps it written. |
| Logger.FatalExits | pkg/logger/standard.go:93-98 | A Fatal call exits exactly when logging is on and the threshold is at most Fatal. |
| Logger.StandardLog.constructor | pkg/logger/standard.go:25-44 | Without options the logger uses Info and the standard formatter; otherwise it uses the given options. The exit call is `os.Exit`. |
| Logger.StandardLog.SetExitCall | pkg/logger/standard.go:74-76 | Replaces the exit call and nothing else. |
| Logger.StandardLog.Exit | pkg/logger/standard.go:70-72 | Performs the exit call while the process is alive. `os.Exit` sets status 1, after which no further call is made; a hook logs its message. |
| Logger.StandardLog.Log | pkg/logger/standard.go:78-99 | Called only while the process is alive, it appends `CallOutput` and exits with 1 after a written Fatal line when the exit call is `os.Exit`. |
| Logger.StandardLog.Trace | pkg/logger/standard.go:46-48 | Logs at Trace; never exits. |
| Logger.StandardLog.Debug | pkg/logger/standard.go:50-52 | Logs at Debug; never exits. |
| Logger.StandardLog.Info | pkg/logger/standard.go:54-56 | Logs at Info; never exits. |
| Logger.StandardLog.Warn | pkg/logger/standard.go:58-60 | Logs at Warn; never exits. |
| Logger.StandardLog.Error | pkg/logger/standard.go:62-64 | Logs at Error; never exits. |
| Logger.StandardLog.Fatal | pkg/logger/standard.go:66-68 | Logs at Fatal and then makes the exit call when the line was written. |
| Logger.TranscriptSnoc | pkg/logger/standard.go:78-99 | Calls append their output in order. |
| Logger.MessageOnlyCall | pkg/logger/standard_test.go:296-326 | With the tests' formatter, a call below Fatal writes its message line, or nothing. |
| Logger.MessageOnlyFatal | pkg/logger/standard_test.go:296-326 | With the tests' hook, a Fatal call writes its line, then the hook's Info line when Info passes. |
| Logger.MessageOnlyTranscript | pkg/logger/standard_test.go:296-326 | With the tests' formatter, calls below Fatal write exactly the messages that pass the threshold. |
| Logger.TestTable | pkg/logger/standard_test.go:32-293 | This is the tests' table for every threshold from NoOp to Fatal. With Warn the hook's line is missing; with NoOp nothing is written. |

## Left out

- Concurrency: `sync.Pool` is modelled as a last-in-first-out list. A real pool may drop contexts or hand them to another goroutine.
- `Start`, `Shutdown`, `getHttpServer`, and the `http.ServeMux`/`http.Server` set up in `NewRestServer`: these are network I/O and are not modelled.
- The tracing spans that `errorHandler` records, `ReqCtx` and every `context.Context` argument (telemetry).
- `json.Marshal`, `json.Unmarshal`, the validator and `mime.ParseMediaType` are parameters. A failing `json.Marshal` in `writeException` (whose error the code ignores) is not modelled: marshalling is total.
- A target partly filled by a failing `json.Unmarshal` is not modelled. On failure the bound target is the one passed in, and the caller receives the malformed-request problem anyway.
- Exception.IsQuote: `unicode.Quotation_Mark` is restricted to its ASCII members `'` and `"`; the other quotation marks (such as `«`, `“`, `‘`) are treated as ordinary characters. `unicode.IsSpace` is modelled with its full White_Space set.
- Exception.FormatParam: `strings.FieldsFunc` does not promise in which order, or how often, it calls its predicate, and this predicate keeps state (`lastQuote`). The model calls it exactly once per character, from left to right, which is what the Go implementation does today; another call order could split the fields differently.
- The `Find` of the PostgreSQL store, `FirstRowToMap`, and the database connection: these are database I/O. `db.Exec` is a parameter returning its error.
- The entity's struct fields, which Go reads by reflection, are given as a sequence of field descriptors.
- Ids of type `float64` in the storage are modelled as integers.
- `time.Now()` in the logger is the `now` parameter. `log.Logger`'s own prefix flags are taken as empty.
- Custom middlewares are modelled as guards that either hand the request on unchanged or stop it with an error. A middleware that rewrites the request or writes before calling `next` is not modelled.
- Router.RestRouter.MatchHandlers: assumes `Routable`, which excludes the empty path when `/` is registered, because Go indexes out of range there and panics.
- RestContext.HttpContext.WriteResponse: status codes are not range-checked (`WriteHeader` panics on codes outside 100-999).
- RestServer.HandleError: the code's `case exception.Problem` names the type `Problem`, whose `Error()` method is declared on `*Problem` only. A value of type `Problem` does not implement `error`, so this is an impossible type-switch case and the file does not compile as written. The same holds for returning `exception.NewInternalServerError(...)`, a `*Problem`, where `exception.Problem` is expected (pkg/server/rest_server.go:141-148). The model follows the evident intent: a problem returned by a handler or middleware is rendered as it is.
- RestServer.RestServer.GetHandler: `load` returns a handler and a `*Problem`, while `getHandler` compares the second result with the routing statuses `Matched` and `PathNotFound`. The model uses one three-way outcome (matched, path not found, method not allowed), as `getHandler`'s three branches (pkg/server/rest_server.go:81-87) and `load`'s two `*Problem` results (pkg/server/router.go:40-46) intend.
- Logger.TestTable: the logger tests pass a `StandardLogOptions` value where `NewStandardLog` expects `*StandardLogOptions`. The model takes the options the tests mean.
- RestServer.RestServer.ServeHTTP: `println("unexpected")` after a failing error handler is never reached, because the error handler returns no error. It is not modelled.
- Logger.StandardLog.Exit: Go's exit call is any `func()`; the model allows `os.Exit` or a hook that makes one log call below Fatal. A hook that logs at Fatal would recurse in Go without end, and a hook with other effects is not modelled.
- The configuration and bootstrap code under `cmd/` and `internal/`, the OpenTelemetry logger, and `pkg/db` are not part of this model.
