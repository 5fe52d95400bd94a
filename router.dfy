/** pkg/server/router.go: the route table. Patterns map to method names, which
    map to handlers; handlers are opaque ids here. A request path resolves to
    exactly one of three outcomes: a handler, route-not-found, or
    method-not-allowed. Go visits a map in no fixed order, so when several
    patterns match a path any one of them may be chosen. */
module Router {
  import opened Wrappers
  import opened Text
  import opened Matcher
  import opened Exception

  /** An opaque route handler. */
  type HandlerId = int

  type HandlersByMethod = map<string, HandlerId>

  type Routes = map<string, HandlersByMethod>

  const MethodGet: string := "GET"
  const MethodPost: string := "POST"

  /** What `load` returns: the handler, or the problem that replaces it. */
  datatype Resolution =
    | Matched(handler: HandlerId)
    | PathNotFound(problem: Problem)
    | MethodNotAllowed(problem: Problem)

  /** `register`'s effect on the table. */
  function Registered(routes: Routes, path: string, httpMethod: string, handler: HandlerId): Routes
  {
    var methods := if path in routes then routes[path] else map[];
    routes[path := methods[httpMethod := handler]]
  }

  /** Registering stores the handler, creates the method map of a new pattern,
      overwrites an existing (pattern, method) entry and keeps every other entry. */
  lemma RegisteredEntries(routes: Routes, path: string, httpMethod: string, handler: HandlerId)
    ensures var r := Registered(routes, path, httpMethod, handler);
      && r.Keys == routes.Keys + {path}
      && r[path].Keys == (if path in routes then routes[path].Keys else {}) + {httpMethod}
      && r[path][httpMethod] == handler
      && (forall p, m :: p in routes && m in routes[p] && (p, m) != (path, httpMethod) ==>
            p in r && m in r[p] && r[p][m] == routes[p][m])
      && (forall p :: p in routes && p != path ==> r[p] == routes[p])
  {
  }

  /** Whether a raw request path matches a pattern: `MatchPath` on its split form. */
  predicate RouteMatches(path: string, pattern: string)
  {
    var parts := Split(path, '/');
    Indexable(parts, pattern) && Matches(parts, pattern)
  }

  /** What `load` needs so that `MatchPath` never indexes out of range: an empty
      path may be looked up only when "/" is not registered. */
  predicate Routable(routes: Routes, path: string)
  {
    path != [] || "/" !in routes
  }

  lemma RoutableIndexable(routes: Routes, path: string, pattern: string)
    requires Routable(routes, path) && pattern in routes
    ensures Indexable(Split(path, '/'), pattern)
  {
    if path != [] {
      SplitPathIndexable(path, pattern);
    } else {
      assert Split(path, '/') == [[]];
    }
  }

  /** The outcome for a pattern's method map. */
  function Dispatch(methods: HandlersByMethod, path: string, httpMethod: string): Resolution
  {
    if httpMethod in methods then Matched(methods[httpMethod])
    else Resolution.MethodNotAllowed(NewMethodNotAllowed(path, httpMethod))
  }

  /** The outcomes `load` may return: the dispatch of some matching pattern, or
      route-not-found when none matches. */
  ghost predicate IsLoad(routes: Routes, path: string, httpMethod: string, res: Resolution)
  {
    || (exists pattern :: pattern in routes && RouteMatches(path, pattern) && res == Dispatch(routes[pattern], path, httpMethod))
    || ((forall pattern :: pattern in routes ==> !RouteMatches(path, pattern)) && res == PathNotFound(NewRouteNotFound(path)))
  }

  /** The three outcomes, each with what it carries. */
  lemma LoadOutcomes(routes: Routes, path: string, httpMethod: string, res: Resolution)
    requires IsLoad(routes, path, httpMethod, res)
    ensures res.PathNotFound? <==> forall pattern :: pattern in routes ==> !RouteMatches(path, pattern)
    ensures res.PathNotFound? ==> res.problem == NewRouteNotFound(path) && res.problem.code == 404
    ensures res.MethodNotAllowed? ==>
      && res.problem == NewMethodNotAllowed(path, httpMethod) && res.problem.code == 405
      && exists pattern :: pattern in routes && RouteMatches(path, pattern) && httpMethod !in routes[pattern]
    ensures res.Matched? ==>
      exists pattern :: pattern in routes && RouteMatches(path, pattern) && httpMethod in routes[pattern]
        && routes[pattern][httpMethod] == res.handler
  {
  }

  /** When every matching pattern carries the same method map (in particular
      when at most one pattern matches), the outcome is determined. */
  lemma LoadDetermined(routes: Routes, path: string, httpMethod: string, res1: Resolution, res2: Resolution)
    requires forall p, q :: p in routes && q in routes && RouteMatches(path, p) && RouteMatches(path, q) ==> routes[p] == routes[q]
    requires IsLoad(routes, path, httpMethod, res1) && IsLoad(routes, path, httpMethod, res2)
    ensures res1 == res2
  {
  }

  /** A route registered under a well-formed pattern is found by a request for
      the pattern itself, as long as no other registered pattern matches it. */
  lemma LoadRegistered(routes: Routes, pattern: string, httpMethod: string, handler: HandlerId, res: Resolution)
    requires WellFormedPattern(pattern) || pattern == "/"
    requires forall p :: p in routes && p != pattern ==> !RouteMatches(pattern, p)
    requires IsLoad(Registered(routes, pattern, httpMethod, handler), pattern, httpMethod, res)
    ensures res == Matched(handler)
  {
    PatternMatchesItself(pattern);
    var r := Registered(routes, pattern, httpMethod, handler);
    assert pattern in r && RouteMatches(pattern, pattern);
  }

  class RestRouter {
    var routes: Routes

    /** `NewRestRouter`: an empty table. */
    constructor()
      ensures routes == map[]
    {
      routes := map[];
    }

    /** `register`. */
    method Register(path: string, httpMethod: string, handler: HandlerId)
      modifies this
      ensures routes == Registered(old(routes), path, httpMethod, handler)
    {
      if path !in routes {
        routes := routes[path := map[]];
      }
      routes := routes[path := routes[path][httpMethod := handler]];
    }

    /** `Get`: registers a GET handler and returns the same router. */
    method Get(path: string, handler: HandlerId) returns (r: RestRouter)
      modifies this
      ensures r == this && routes == Registered(old(routes), path, MethodGet, handler)
    {
      Register(path, MethodGet, handler);
      return this;
    }

    /** `POST`: registers a POST handler and returns the same router. */
    method POST(path: string, handler: HandlerId) returns (r: RestRouter)
      modifies this
      ensures r == this && routes == Registered(old(routes), path, MethodPost, handler)
    {
      Register(path, MethodPost, handler);
      return this;
    }

    /** `matchHandlers`: the method map of some matching pattern, or none. */
    method MatchHandlers(path: string) returns (handlers: Option<HandlersByMethod>)
      requires Routable(routes, path)
      ensures handlers.Some? ==>
        exists pattern :: pattern in routes && RouteMatches(path, pattern) && routes[pattern] == handlers.value
      ensures handlers.None? <==> forall pattern :: pattern in routes ==> !RouteMatches(path, pattern)
    {
      var pathParts := Split(path, '/');
      var remaining := routes.Keys;
      while remaining != {}
        invariant remaining <= routes.Keys
        invariant forall p :: p in routes && p !in remaining ==> !RouteMatches(path, p)
        decreases |remaining|
      {
        var pattern :| pattern in remaining;
        RoutableIndexable(routes, path, pattern);
        var matched := MatchPath(pathParts, pattern);
        if matched {
          return Some(routes[pattern]);
        }
        remaining := remaining - {pattern};
      }
      return None;
    }

    /** `load`. */
    method Load(path: string, httpMethod: string) returns (res: Resolution)
      requires Routable(routes, path)
      ensures IsLoad(routes, path, httpMethod, res)
    {
      var handlersByPath := MatchHandlers(path);
      if handlersByPath.None? {
        return PathNotFound(NewRouteNotFound(path));
      }
      var methods := handlersByPath.value;
      if httpMethod !in methods {
        return Resolution.MethodNotAllowed(NewMethodNotAllowed(path, httpMethod));
      }
      return Matched(methods[httpMethod]);
    }
  }
}
