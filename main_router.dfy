/**
 * The router of package main (router.go). It shares the trie of router/tree.go
 * (router.go:122-216 repeat it line for line), but its handlers return an error, which
 * `ServeHTTP` turns into an HTTP status, and a handler registered for the method is
 * called whenever the map has the key.
 */
module MainRouter {
  import opened Wrappers
  import opened Trie
  import opened TrieProperties
  import opened TrieScenarios

  /** A handler function, known by its name. */
  datatype Handler = Handler(name: string)

  /** The parts of an HTTP request the router looks at. */
  datatype Request = Request(verb: string, path: string)

  /**
   * The errors a handler returns: a `StatusError`, the one type here that implements
   * `HTTPError`, or any other error.
   */
  datatype Error = StatusError(code: int, message: string) | PlainError(message: string)

  /** What `ServeHTTP` writes itself: nothing, or an `http.Error` page with a status. */
  datatype Reply = Untouched | ErrorPage(status: int)

  /** Which handler ran, with the parameters it was given, if any. */
  datatype Call = Called(handler: string, params: PathParams) | NoCall

  /** Everything one request does: the call made and the reply written. */
  datatype Outcome = Outcome(call: Call, reply: Reply)

  /** What `getHandler` decides: a handler with its parameters, or an error message. */
  datatype Lookup = Resolved(handler: Handler, params: PathParams) | Unresolved(message: string)

  /** How a handler behaves: the error it returns for a request and parameters. */
  type Behaviour = (Handler, Request, PathParams) -> Option<Error>

  /** The internal server error status `net/http` names `StatusInternalServerError`. */
  const InternalServerError := 500

  /**
   * The error switch of `ServeHTTP`: no error leaves the response alone, an `HTTPError`
   * produces its own status and any other error produces 500.
   */
  function ReplyFor(err: Option<Error>): (r: Reply)
    ensures r.Untouched? <==> err.None?
    ensures r.ErrorPage? && err.value.StatusError? ==> r.status == err.value.code
    ensures r.ErrorPage? && !err.value.StatusError? ==> r.status == InternalServerError
  {
    match err
    case None => Untouched
    case Some(StatusError(code, _)) => ErrorPage(code)
    case Some(PlainError(_)) => ErrorPage(InternalServerError)
  }

  /** `getHandler` over the trie `ns`, with the messages of its two errors. */
  function GetHandlerSpec(ns: seq<Node<Handler>>, req: Request): (l: Lookup)
    requires WellFormed(ns)
    ensures var m := Match(ns, 0, Segments(req.path), map[]);
            l.Resolved? <==> m.Some? && m.value.node < |ns| && req.verb in ns[m.value.node].handlers
    ensures l.Resolved? ==> var m := Match(ns, 0, Segments(req.path), map[]);
              m.Some? && l.params == m.value.params && l.handler == ns[m.value.node].handlers[req.verb]
  {
    match Match(ns, 0, Segments(req.path), map[])
    case None => Unresolved("No handler for path " + req.path)
    case Some(Found(t, params)) =>
      if req.verb in ns[t].handlers then Resolved(ns[t].handlers[req.verb], params)
      else Unresolved("No handler for method " + req.verb + " for path " + req.path)
  }

  /** `callDefaultHandler`: the default handler with an empty map, or success when there is none. */
  function CallDefault(defaultHandler: Option<Handler>, req: Request, run: Behaviour): (o: Outcome)
    ensures defaultHandler.None? ==> o == Outcome(NoCall, Untouched)
    ensures defaultHandler.Some? ==> o.call == Called(defaultHandler.value.name, map[])
    ensures defaultHandler.Some? ==> o.reply == ReplyFor(run(defaultHandler.value, req, map[]))
  {
    match defaultHandler
    case None => Outcome(NoCall, Untouched)
    case Some(h) => Outcome(Called(h.name, map[]), ReplyFor(run(h, req, map[])))
  }

  /** `ServeHTTP`: run the handler found, or the default handler, and map the error it returns. */
  function Serve(ns: seq<Node<Handler>>, defaultHandler: Option<Handler>, req: Request, run: Behaviour): (o: Outcome)
    requires WellFormed(ns)
    ensures o.call.NoCall? <==> GetHandlerSpec(ns, req).Unresolved? && defaultHandler.None?
    ensures o.call.NoCall? ==> o.reply == Untouched
    ensures o.call.Called? ==> o.reply == ReplyFor(run(Handler(o.call.handler), req, o.call.params))
  {
    match GetHandlerSpec(ns, req)
    case Resolved(h, params) => Outcome(Called(h.name, params), ReplyFor(run(h, req, params)))
    case Unresolved(_) => CallDefault(defaultHandler, req, run)
  }

  /**
   * Serving in terms of walks: the node ending the leftmost walk of the path decides, and a
   * handler registered there for the method runs with exactly that walk's bindings.
   */
  lemma ServeFollowsLeftmostWalk(ns: seq<Node<Handler>>, defaultHandler: Option<Handler>, req: Request, run: Behaviour, w: seq<nat>)
    requires WellFormed(ns)
    requires IsWalk(ns, w, Segments(req.path)) && w[0] == 0 && Leftmost(ns, w, Segments(req.path))
    ensures var t := w[|Segments(req.path)|];
            var params := Bind(ns, w, Segments(req.path), map[]);
            t < |ns| &&
            Serve(ns, defaultHandler, req, run) ==
              if req.verb in ns[t].handlers
              then Outcome(Called(ns[t].handlers[req.verb].name, params), ReplyFor(run(ns[t].handlers[req.verb], req, params)))
              else CallDefault(defaultHandler, req, run)
  {
    var path := Segments(req.path);
    LeftmostSearch(ns, 0, w, path, map[]);
    var found := Found(w[|path|], Bind(ns, w, path, map[]));
    assert Match(ns, 0, path, map[]) == Some(found);
  }

  /** A path no walk accepts goes to the default handler. */
  lemma ServeWithoutWalk(ns: seq<Node<Handler>>, defaultHandler: Option<Handler>, req: Request, run: Behaviour)
    requires WellFormed(ns) && !HasWalk(ns, 0, Segments(req.path))
    ensures Serve(ns, defaultHandler, req, run) == CallDefault(defaultHandler, req, run)
  {
    MatchFailsOnlyWithoutWalk(ns, 0, Segments(req.path), map[]);
  }

  /** A router whose trie root is created lazily, as the zero value `Router{}` requires. */
  class Router {
    var root: Tree?<Handler>
    var defaultHandler: Option<Handler>

    /** The trie the router answers with: a missing root behaves as a fresh empty tree. */
    ghost function Nodes(): seq<Node<Handler>>
      reads this, root
    {
      if root == null then [Root()] else root.nodes
    }

    ghost predicate Valid()
      reads this, root
    {
      root != null ==> root.Valid()
    }

    /** `NewRouter`: an empty tree and the given default handler, which may be `nil` (`None`). */
    constructor New(defaultHandler: Option<Handler>)
      ensures Valid() && root != null && fresh(root)
      ensures root.nodes == [Root()] && this.defaultHandler == defaultHandler
    {
      root := new Tree();
      this.defaultHandler := defaultHandler;
    }

    /** The zero value `&Router{}`: no root and no default handler. */
    constructor Zero()
      ensures Valid() && root == null && defaultHandler == None
    {
      root := null;
      defaultHandler := None;
    }

    /** `createRootIfNeeded`: an existing root is kept as is; a missing one becomes an empty tree. */
    method CreateRootIfNeeded()
      requires Valid()
      modifies this
      ensures Valid() && root != null && Nodes() == old(Nodes())
      ensures old(root) != null ==> root == old(root)
      ensures old(root) == null ==> fresh(root)
      ensures defaultHandler == old(defaultHandler)
    {
      if root == null {
        root := new Tree();
      }
    }

    /** `Mount`: every route of the controller is added under `prefix + route.Path`, in order. */
    method Mount(prefix: string, routes: seq<Route<Handler>>)
      requires Valid()
      modifies this, root
      ensures Valid() && root != null
      ensures Nodes() == MountRoutes(old(Nodes()), prefix, routes)
      ensures defaultHandler == old(defaultHandler)
    {
      ghost var base := Nodes();
      CreateRootIfNeeded();
      for i := 0 to |routes|
        invariant root != null && root.Valid() && defaultHandler == old(defaultHandler)
        invariant root == old(root) || fresh(root)
        invariant root.nodes == MountRoutes(base, prefix, routes[..i])
      {
        var route := routes[i];
        root.AddRoute(Route(route.verb, prefix + route.path, route.handler));
        assert routes[..i + 1][..i] == routes[..i];
      }
      assert routes[..|routes|] == routes;
    }

    /** `getHandler`: the handler registered for the method at the node found, or an error. */
    method GetHandler(req: Request) returns (handler: Option<Handler>, params: PathParams, err: Option<string>)
      requires Valid()
      modifies this
      ensures Valid() && root != null && Nodes() == old(Nodes())
      ensures defaultHandler == old(defaultHandler)
      ensures match GetHandlerSpec(Nodes(), req)
              case Resolved(h, p) => handler == Some(h) && params == p && err.None?
              case Unresolved(message) => handler.None? && params == map[] && err == Some(message)
    {
      CreateRootIfNeeded();
      var node, found := root.FindNode(req.path);
      if node.Some? {
        if req.verb in root.nodes[node.value].handlers {
          return Some(root.nodes[node.value].handlers[req.verb]), found, None;
        }
        return None, map[], Some("No handler for method " + req.verb + " for path " + req.path);
      }
      return None, map[], Some("No handler for path " + req.path);
    }

    /** `ServeHTTP`: dispatch, run the handler, and turn its error into a reply. */
    method ServeHTTP(req: Request, run: Behaviour) returns (call: Call, reply: Reply)
      requires Valid()
      modifies this
      ensures Valid() && root != null && Nodes() == old(Nodes())
      ensures defaultHandler == old(defaultHandler)
      ensures Outcome(call, reply) == Serve(Nodes(), defaultHandler, req, run)
    {
      var handler, params, lookupError := GetHandler(req);
      var err: Option<Error>;
      if lookupError.Some? {
        call, err := CallDefaultHandler(req, run);
      } else {
        call := Called(handler.value.name, params);
        err := run(handler.value, req, params);
      }
      match err
      case None =>
        reply := Untouched;
      case Some(e) =>
        if e.StatusError? {
          reply := ErrorPage(e.code);
        } else {
          reply := ErrorPage(InternalServerError);
        }
    }

    /** `callDefaultHandler`: run the default handler with an empty map, or succeed without one. */
    method CallDefaultHandler(req: Request, run: Behaviour) returns (call: Call, err: Option<Error>)
      ensures Outcome(call, ReplyFor(err)) == CallDefault(defaultHandler, req, run)
    {
      if defaultHandler.Some? {
        call := Called(defaultHandler.value.name, map[]);
        err := run(defaultHandler.value, req, map[]);
      } else {
        call := NoCall;
        err := None;
      }
    }
  }

  /** A path that leads to a node with a handler for the method runs that handler. */
  lemma ServeFound(ns: seq<Node<Handler>>, defaultHandler: Option<Handler>, req: Request, run: Behaviour,
                   t: nat, params: PathParams)
    requires WellFormed(ns) && t < |ns| && req.verb in ns[t].handlers
    requires Match(ns, 0, Segments(req.path), map[]) == Some(Found(t, params))
    ensures Serve(ns, defaultHandler, req, run) ==
      Outcome(Called(ns[t].handlers[req.verb].name, params), ReplyFor(run(ns[t].handlers[req.verb], req, params)))
  {
  }

  /** A path that leads nowhere, or to a node without a handler for the method, runs the default handler. */
  lemma ServeDefault(ns: seq<Node<Handler>>, defaultHandler: Option<Handler>, req: Request, run: Behaviour)
    requires WellFormed(ns)
    requires match Match(ns, 0, Segments(req.path), map[])
             case None => true
             case Some(found) => found.node < |ns| && req.verb !in ns[found.node].handlers
    ensures Serve(ns, defaultHandler, req, run) == CallDefault(defaultHandler, req, run)
  {
  }

  /** The handlers of router_test.go: `httpError` fails with a 404, `error` with a plain error. */
  function TestBehaviour(h: Handler, req: Request, params: PathParams): Option<Error> {
    if h.name == "httpError" then Some(StatusError(404, "test HTTPError"))
    else if h.name == "error" then Some(PlainError("test error"))
    else None
  }

  /** The trie of TestRouterRootPath sends `GET /` to the hello handler, which succeeds. */
  lemma RootPathServe(ns: seq<Node<Handler>>)
    requires ns == MountRoutes([Root()], "/", [Route("GET", "/", Handler("hello"))])
    ensures WellFormed(ns) && Serve(ns, Some(Handler("mustNotBeCalled")),
                  Request("GET", "/"), TestBehaviour) == Outcome(Called("hello", map[]), Untouched)
  {
    var req := Request("GET", "/");
    RootPathTrie(Handler("hello"));
    assert GetHandlerSpec(ns, req) == Resolved(Handler("hello"), map[]);
    assert TestBehaviour(Handler("hello"), req, map[]) == None;
  }

  /** TestRouterRootPath: `GET /` answers `/` with 200 and the hello handler's body. */
  method RootPathScenario() returns (call: Call, reply: Reply)
    ensures call == Called("hello", map[]) && reply == Untouched
  {
    var r := new Router.New(Some(Handler("mustNotBeCalled")));
    r.Mount("/", [Route("GET", "/", Handler("hello"))]);
    RootPathServe(r.Nodes());
    call, reply := r.ServeHTTP(Request("GET", "/"), TestBehaviour);
  }

  /** The trie of TestRouterMountPath sends `GET /there` to the hello handler. */
  lemma MountPathServe(ns: seq<Node<Handler>>)
    requires ns == MountRoutes([Root()], "/there", [Route("GET", "/", Handler("hello"))])
    ensures WellFormed(ns) && Serve(ns, Some(Handler("mustNotBeCalled")),
                  Request("GET", "/there"), TestBehaviour) == Outcome(Called("hello", map[]), Untouched)
  {
    MountPathTrie(Handler("hello"));
    ServeFound(ns, Some(Handler("mustNotBeCalled")), Request("GET", "/there"), TestBehaviour, 1, map[]);
  }

  /** TestRouterMountPath: `GET /` mounted at `/there` answers `/there`. */
  method MountPathScenario() returns (call: Call, reply: Reply)
    ensures call == Called("hello", map[]) && reply == Untouched
  {
    var r := new Router.New(Some(Handler("mustNotBeCalled")));
    r.Mount("/there", [Route("GET", "/", Handler("hello"))]);
    MountPathServe(r.Nodes());
    call, reply := r.ServeHTTP(Request("GET", "/there"), TestBehaviour);
  }

  /** In the trie of TestRouterMountPathAndControllerPath, `/there/here` ends at the node holding the hello handler. */
  lemma MountedControllerPathFound(ns: seq<Node<Handler>>)
    requires ns == MountRoutes([Root()], "/there", [Route("GET", "/here", Handler("hello")), Route("GET", "/", Handler("mustNotBeCalled"))])
    ensures WellFormed(ns) && 2 < |ns| && ns[2].handlers == map["GET" := Handler("hello")]
    ensures Match(ns, 0, Segments("/there/here"), map[]) == Some(Found(2, map[]))
  {
    MountedControllerPathTrie(Handler("hello"), Handler("mustNotBeCalled"));
  }

  /** The trie of TestRouterMountPathAndControllerPath sends `GET /there/here` to the hello handler. */
  lemma MountedControllerPathServe(ns: seq<Node<Handler>>)
    requires ns == MountRoutes([Root()], "/there", [Route("GET", "/here", Handler("hello")), Route("GET", "/", Handler("mustNotBeCalled"))])
    ensures WellFormed(ns) && Serve(ns, Some(Handler("mustNotBeCalled")),
                  Request("GET", "/there/here"), TestBehaviour) == Outcome(Called("hello", map[]), Untouched)
  {
    var req := Request("GET", "/there/here");
    MountedControllerPathFound(ns);
    assert GetHandlerSpec(ns, req) == Resolved(Handler("hello"), map[]);
    assert TestBehaviour(Handler("hello"), req, map[]) == None;
  }

  /** TestRouterMountPathAndControllerPath: `/there` + `/here` answers `/there/here`. */
  method MountedControllerPathScenario() returns (call: Call, reply: Reply)
    ensures call == Called("hello", map[]) && reply == Untouched
  {
    var r := new Router.New(Some(Handler("mustNotBeCalled")));
    r.Mount("/there", [Route("GET", "/here", Handler("hello")), Route("GET", "/", Handler("mustNotBeCalled"))]);
    MountedControllerPathServe(r.Nodes());
    call, reply := r.ServeHTTP(Request("GET", "/there/here"), TestBehaviour);
  }

  /** The trie of TestRouterPathParams sends `GET /toto` to the hello handler with `name` bound to `toto`. */
  lemma PathParamsServe(ns: seq<Node<Handler>>)
    requires ns == MountRoutes([Root()], "/", [Route("GET", "/:name", Handler("hello")), Route("GET", "/", Handler("mustNotBeCalled"))])
    ensures WellFormed(ns) && Serve(ns, Some(Handler("mustNotBeCalled")),
                  Request("GET", "/toto"), TestBehaviour) == Outcome(Called("hello", map["name" := "toto"]), Untouched)
  {
    PathParamsTrie(Handler("hello"), Handler("mustNotBeCalled"));
    ServeFound(ns, Some(Handler("mustNotBeCalled")), Request("GET", "/toto"), TestBehaviour, 1, map["name" := "toto"]);
  }

  /** TestRouterPathParams: `/toto` runs the `/:name` handler with `name` bound. */
  method PathParamsScenario() returns (call: Call, reply: Reply)
    ensures call == Called("hello", map["name" := "toto"]) && reply == Untouched
  {
    var r := new Router.New(Some(Handler("mustNotBeCalled")));
    r.Mount("/", [Route("GET", "/:name", Handler("hello")), Route("GET", "/", Handler("mustNotBeCalled"))]);
    PathParamsServe(r.Nodes());
    call, reply := r.ServeHTTP(Request("GET", "/toto"), TestBehaviour);
  }

  /** In the trie of TestRouterAmbiguousPathParams, `/toto/titi` ends at the `:special` node with `special` bound. */
  lemma AmbiguousParamsFound(ns: seq<Node<Handler>>)
    requires ns == MountRoutes([Root()], "/", [Route("GET", "/:name", Handler("mustNotBeCalled")), Route("GET", "/toto/:special", Handler("hello"))])
    ensures WellFormed(ns) && 3 < |ns| && ns[3].handlers == map["GET" := Handler("hello")]
    ensures Match(ns, 0, Segments("/toto/titi"), map[]) == Some(Found(3, map["special" := "titi"]))
  {
    AmbiguousParamsTrie(Handler("mustNotBeCalled"), Handler("hello"));
  }

  /** The trie of TestRouterAmbiguousPathParams sends `GET /toto/titi` to the hello handler. */
  lemma AmbiguousParamsServe(ns: seq<Node<Handler>>)
    requires ns == MountRoutes([Root()], "/", [Route("GET", "/:name", Handler("mustNotBeCalled")), Route("GET", "/toto/:special", Handler("hello"))])
    ensures WellFormed(ns) && Serve(ns, Some(Handler("mustNotBeCalled")),
                  Request("GET", "/toto/titi"), TestBehaviour) == Outcome(Called("hello", map["special" := "titi"]), Untouched)
  {
    var req := Request("GET", "/toto/titi");
    AmbiguousParamsFound(ns);
    assert GetHandlerSpec(ns, req) == Resolved(Handler("hello"), map["special" := "titi"]);
    assert TestBehaviour(Handler("hello"), req, map["special" := "titi"]) == None;
  }

  /** TestRouterAmbiguousPathParams: `/toto/titi` runs the `/toto/:special` handler. */
  method AmbiguousParamsScenario() returns (call: Call, reply: Reply)
    ensures call == Called("hello", map["special" := "titi"]) && reply == Untouched
  {
    var r := new Router.New(Some(Handler("mustNotBeCalled")));
    r.Mount("/", [Route("GET", "/:name", Handler("mustNotBeCalled")), Route("GET", "/toto/:special", Handler("hello"))]);
    AmbiguousParamsServe(r.Nodes());
    call, reply := r.ServeHTTP(Request("GET", "/toto/titi"), TestBehaviour);
  }

  /** A path the trie of TestRouterDefaultHandler does not know runs the default handler. */
  lemma DefaultHandlerServe(ns: seq<Node<Handler>>)
    requires ns == MountRoutes([Root()], "/", [Route("GET", "/", Handler("mustNotBeCalled"))])
    ensures WellFormed(ns) && Serve(ns, Some(Handler("hello")),
                  Request("GET", "/notfound"), TestBehaviour) == Outcome(Called("hello", map[]), Untouched)
  {
    RootPathTrie(Handler("mustNotBeCalled"));
    ServeDefault(ns, Some(Handler("hello")), Request("GET", "/notfound"), TestBehaviour);
  }

  /** TestRouterDefaultHandler: an unknown path runs the default handler. */
  method DefaultHandlerScenario() returns (call: Call, reply: Reply)
    ensures call == Called("hello", map[]) && reply == Untouched
  {
    var r := new Router.New(Some(Handler("hello")));
    r.Mount("/", [Route("GET", "/", Handler("mustNotBeCalled"))]);
    DefaultHandlerServe(r.Nodes());
    call, reply := r.ServeHTTP(Request("GET", "/notfound"), TestBehaviour);
  }

  /** `POST /` finds the root node, which only has a GET handler, so the default handler runs. */
  lemma NotFoundMethodServe(ns: seq<Node<Handler>>)
    requires ns == MountRoutes([Root()], "/", [Route("GET", "/", Handler("mustNotBeCalled"))])
    ensures WellFormed(ns) && Serve(ns, Some(Handler("hello")),
                  Request("POST", "/"), TestBehaviour) == Outcome(Called("hello", map[]), Untouched)
  {
    var req := Request("POST", "/");
    RootPathTrie(Handler("mustNotBeCalled"));
    assert "POST" !in ns[0].handlers;
    assert GetHandlerSpec(ns, req).Unresolved?;
    assert TestBehaviour(Handler("hello"), req, map[]) == None;
  }

  /** TestRouterNotFoundMethod: a known path without a handler for the method runs the default handler. */
  method NotFoundMethodScenario() returns (call: Call, reply: Reply)
    ensures call == Called("hello", map[]) && reply == Untouched
  {
    var r := new Router.New(Some(Handler("hello")));
    r.Mount("/", [Route("GET", "/", Handler("mustNotBeCalled"))]);
    NotFoundMethodServe(r.Nodes());
    call, reply := r.ServeHTTP(Request("POST", "/"), TestBehaviour);
  }

  /** TestRouterNotInitializedDoesNotPanic: a zero router answers a miss with an untouched 200. */
  method NotInitializedScenario() returns (call: Call, reply: Reply)
    ensures call == NoCall && reply == Untouched
  {
    var r := new Router.Zero();
    r.Mount("/", [Route("GET", "/a", Handler("mustNotBeCalled"))]);
    UnrelatedRouteTrie(Handler("mustNotBeCalled"));
    call, reply := r.ServeHTTP(Request("GET", "/"), TestBehaviour);
  }

  /** `NewRouter(nil)` behaves as the zero router: a miss calls nothing and leaves the response untouched. */
  method NilDefaultScenario() returns (call: Call, reply: Reply)
    ensures call == NoCall && reply == Untouched
  {
    var r := new Router.New(None);
    r.Mount("/", [Route("GET", "/a", Handler("mustNotBeCalled"))]);
    UnrelatedRouteTrie(Handler("mustNotBeCalled"));
    call, reply := r.ServeHTTP(Request("GET", "/"), TestBehaviour);
  }

  /** The 404 `StatusError` of the handler becomes a 404 page. */
  lemma HandlerHTTPErrorServe(ns: seq<Node<Handler>>)
    requires ns == MountRoutes([Root()], "/", [Route("GET", "/", Handler("httpError"))])
    ensures WellFormed(ns) && Serve(ns, Some(Handler("mustNotBeCalled")),
                  Request("GET", "/"), TestBehaviour) == Outcome(Called("httpError", map[]), ErrorPage(404))
  {
    RootPathTrie(Handler("httpError"));
    ServeFound(ns, Some(Handler("mustNotBeCalled")), Request("GET", "/"), TestBehaviour, 0, map[]);
  }

  /** TestRouterHandlerHTTPError: a handler returning a 404 `StatusError` produces a 404 page. */
  method HandlerHTTPErrorScenario() returns (call: Call, reply: Reply)
    ensures call == Called("httpError", map[]) && reply == ErrorPage(404)
  {
    var r := new Router.New(Some(Handler("mustNotBeCalled")));
    r.Mount("/", [Route("GET", "/", Handler("httpError"))]);
    HandlerHTTPErrorServe(r.Nodes());
    call, reply := r.ServeHTTP(Request("GET", "/"), TestBehaviour);
  }

  /** The plain error of the handler becomes a 500 page. */
  lemma HandlerErrorServe(ns: seq<Node<Handler>>)
    requires ns == MountRoutes([Root()], "/", [Route("GET", "/", Handler("error"))])
    ensures WellFormed(ns) && Serve(ns, Some(Handler("mustNotBeCalled")),
                  Request("GET", "/"), TestBehaviour) == Outcome(Called("error", map[]), ErrorPage(500))
  {
    RootPathTrie(Handler("error"));
    ServeFound(ns, Some(Handler("mustNotBeCalled")), Request("GET", "/"), TestBehaviour, 0, map[]);
  }

  /** TestRouterHandlerError: a handler returning a plain error produces a 500 page. */
  method HandlerErrorScenario() returns (call: Call, reply: Reply)
    ensures call == Called("error", map[]) && reply == ErrorPage(500)
  {
    var r := new Router.New(Some(Handler("mustNotBeCalled")));
    r.Mount("/", [Route("GET", "/", Handler("error"))]);
    HandlerErrorServe(r.Nodes());
    call, reply := r.ServeHTTP(Request("GET", "/"), TestBehaviour);
  }
}
