/**
 * The `router` package (router/router.go): a trie of routes plus a default handler.
 * Handlers return nothing; a handler value may be Go's `nil`, and a `nil` handler found
 * in the trie falls through to the default handler exactly like a missing one.
 */
module PackageRouter {
  import opened Wrappers
  import opened Trie
  import opened TrieProperties
  import opened TrieScenarios

  /** A handler value: `nil`, or a handler function known by its name. */
  datatype Handler = Nil | Func(name: string)

  /** The parts of an HTTP request the router looks at. */
  datatype Request = Request(verb: string, path: string)

  /** Which handler `ServeHTTP` called, with the parameters it passed, if any. */
  datatype Call = Called(handler: string, params: PathParams) | NoCall

  /** `callDefaultHandler`: the default handler, if set, is called with a fresh empty map. */
  function CallDefault(defaultHandler: Handler): (c: Call)
    ensures c.Called? <==> defaultHandler.Func?
    ensures c.Called? ==> c.handler == defaultHandler.name && c.params == map[]
  {
    match defaultHandler
    case Nil => NoCall
    case Func(name) => Called(name, map[])
  }

  /**
   * The three-way dispatch of `ServeHTTP` over the trie `ns`: a found node whose handler
   * for the method is not `nil` is called with the captured parameters; a found node
   * without one, or no node at all, goes to the default handler.
   */
  function Dispatch(ns: seq<Node<Handler>>, defaultHandler: Handler, req: Request): (c: Call)
    requires WellFormed(ns)
    ensures Match(ns, 0, Segments(req.path), map[]).None? ==> c == CallDefault(defaultHandler)
    ensures c != CallDefault(defaultHandler) ==>
              var m := Match(ns, 0, Segments(req.path), map[]);
              m.Some? && m.value.node < |ns| && req.verb in ns[m.value.node].handlers &&
              ns[m.value.node].handlers[req.verb].Func? &&
              c == Called(ns[m.value.node].handlers[req.verb].name, m.value.params)
  {
    match Match(ns, 0, Segments(req.path), map[])
    case None => CallDefault(defaultHandler)
    case Some(Found(t, params)) =>
      var h := if req.verb in ns[t].handlers then ns[t].handlers[req.verb] else Nil;
      if h.Func? then Called(h.name, params) else CallDefault(defaultHandler)
  }

  /**
   * Dispatch in terms of walks: the request is decided by the node that ends the leftmost
   * walk of its path from the root, and a handler is called with exactly that walk's bindings.
   */
  lemma DispatchFollowsLeftmostWalk(ns: seq<Node<Handler>>, defaultHandler: Handler, req: Request, w: seq<nat>)
    requires WellFormed(ns)
    requires IsWalk(ns, w, Segments(req.path)) && w[0] == 0 && Leftmost(ns, w, Segments(req.path))
    ensures var t := w[|Segments(req.path)|];
            t < |ns| &&
            Dispatch(ns, defaultHandler, req) ==
              if req.verb in ns[t].handlers && ns[t].handlers[req.verb].Func?
              then Called(ns[t].handlers[req.verb].name, Bind(ns, w, Segments(req.path), map[]))
              else CallDefault(defaultHandler)
  {
    var path := Segments(req.path);
    LeftmostSearch(ns, 0, w, path, map[]);
    var found := Found(w[|path|], Bind(ns, w, path, map[]));
    assert Match(ns, 0, path, map[]) == Some(found);
  }

  /** A path no walk accepts goes to the default handler. */
  lemma DispatchWithoutWalk(ns: seq<Node<Handler>>, defaultHandler: Handler, req: Request)
    requires WellFormed(ns) && !HasWalk(ns, 0, Segments(req.path))
    ensures Dispatch(ns, defaultHandler, req) == CallDefault(defaultHandler)
  {
    MatchFailsOnlyWithoutWalk(ns, 0, Segments(req.path), map[]);
  }

  /** A router whose trie root is created lazily, as the zero value `Router{}` requires. */
  class Router {
    var root: Tree?<Handler>
    var defaultHandler: Handler

    /** The trie the router answers with: a missing root behaves as a fresh empty tree. */
    ghost function Nodes(): seq<Node<Handler>>
      reads this, root
    {
      if root == null then [Root()] else root.nodes
    }

    ghost predicate Valid()
      reads this, root
    {
      root != null ==> root.Valid()
    }

    /** `New`: an empty tree and the given default handler. */
    constructor New(defaultHandler: Handler)
      ensures Valid() && root != null && fresh(root)
      ensures root.nodes == [Root()] && this.defaultHandler == defaultHandler
    {
      root := new Tree();
      this.defaultHandler := defaultHandler;
    }

    /** The zero value `&Router{}`: no root and a `nil` default handler. */
    constructor Zero()
      ensures Valid() && root == null && defaultHandler == Nil
    {
      root := null;
      defaultHandler := Nil;
    }

    /** `createRootIfNeeded`: an existing root is kept as is; a missing one becomes an empty tree. */
    method CreateRootIfNeeded()
      requires Valid()
      modifies this
      ensures Valid() && root != null && Nodes() == old(Nodes())
      ensures old(root) != null ==> root == old(root)
      ensures old(root) == null ==> fresh(root)
      ensures defaultHandler == old(defaultHandler)
    {
      if root == null {
        root := new Tree();
      }
    }

    /** `Mount`: every route of the controller is added under `prefix + route.Path`, in order. */
    method Mount(prefix: string, routes: seq<Route<Handler>>)
      requires Valid()
      modifies this, root
      ensures Valid() && root != null
      ensures Nodes() == MountRoutes(old(Nodes()), prefix, routes)
      ensures defaultHandler == old(defaultHandler)
    {
      ghost var base := Nodes();
      CreateRootIfNeeded();
      for i := 0 to |routes|
        invariant root != null && root.Valid() && defaultHandler == old(defaultHandler)
        invariant root == old(root) || fresh(root)
        invariant root.nodes == MountRoutes(base, prefix, routes[..i])
      {
        var route := routes[i];
        root.AddRoute(Route(route.verb, prefix + route.path, route.handler));
        assert routes[..i + 1][..i] == routes[..i];
      }
      assert routes[..|routes|] == routes;
    }

    /** `ServeHTTP`: look the request up and call the handler it dispatches to. */
    method ServeHTTP(req: Request) returns (call: Call)
      requires Valid()
      modifies this
      ensures Valid() && root != null && Nodes() == old(Nodes())
      ensures defaultHandler == old(defaultHandler)
      ensures call == Dispatch(Nodes(), defaultHandler, req)
    {
      CreateRootIfNeeded();
      var node, params := root.FindNode(req.path);
      if node.Some? {
        var handler := if req.verb in root.nodes[node.value].handlers then root.nodes[node.value].handlers[req.verb] else Nil;
        if handler != Nil {
          call := Called(handler.name, params);
        } else {
          call := CallDefaultHandler();
        }
      } else {
        call := CallDefaultHandler();
      }
    }

    /** `callDefaultHandler`. */
    method CallDefaultHandler() returns (call: Call)
      ensures call == CallDefault(defaultHandler)
    {
      if defaultHandler != Nil {
        call := Called(defaultHandler.name, map[]);
      } else {
        call := NoCall;
      }
    }
  }

  /** TestRouterRootPath: `GET /` mounted at `/` is called for `/`. */
  method RootPathScenario() returns (call: Call)
    ensures call == Called("root", map[])
  {
    var r := new Router.New(Func("mustNotBeCalled"));
    r.Mount("/", [Route("GET", "/", Func("root"))]);
    RootPathTrie(Func("root"));
    call := r.ServeHTTP(Request("GET", "/"));
  }

  /** TestRouterMountPath: `GET /` mounted at `/there` is called for `/there`. */
  method MountPathScenario() returns (call: Call)
    ensures call == Called("there", map[])
  {
    var r := new Router.New(Func("mustNotBeCalled"));
    r.Mount("/there", [Route("GET", "/", Func("there"))]);
    MountPathTrie(Func("there"));
    call := r.ServeHTTP(Request("GET", "/there"));
  }

  /** TestRouterMountPathAndControllerPath: `GET /here` mounted at `/there` is called for `/there/here`. */
  method MountedControllerPathScenario() returns (call: Call)
    ensures call == Called("here", map[])
  {
    var r := new Router.New(Func("mustNotBeCalled"));
    r.Mount("/there", [Route("GET", "/here", Func("here")), Route("GET", "/", Func("mustNotBeCalled"))]);
    MountedControllerPathTrie(Func("here"), Func("mustNotBeCalled"));
    call := r.ServeHTTP(Request("GET", "/there/here"));
  }

  /** TestRouterPathParams: `GET /:name` is called for `/toto` with `name` bound to `toto`. */
  method PathParamsScenario() returns (call: Call)
    ensures call == Called("name", map["name" := "toto"])
  {
    var r := new Router.New(Func("mustNotBeCalled"));
    r.Mount("/", [Route("GET", "/:name", Func("name")), Route("GET", "/", Func("mustNotBeCalled"))]);
    PathParamsTrie(Func("name"), Func("mustNotBeCalled"));
    call := r.ServeHTTP(Request("GET", "/toto"));
  }

  /** TestRouterAmbiguousPathParams: `/toto/titi` reaches `/toto/:special` with only `special` bound. */
  method AmbiguousParamsScenario() returns (call: Call)
    ensures call == Called("special", map["special" := "titi"])
  {
    var r := new Router.New(Func("mustNotBeCalled"));
    r.Mount("/", [Route("GET", "/:name", Func("mustNotBeCalled")), Route("GET", "/toto/:special", Func("special"))]);
    AmbiguousParamsTrie(Func("mustNotBeCalled"), Func("special"));
    call := r.ServeHTTP(Request("GET", "/toto/titi"));
  }

  /** TestRouterDefaultHandler: an unknown path calls the default handler with an empty map. */
  method DefaultHandlerScenario() returns (call: Call)
    ensures call == Called("default", map[])
  {
    var r := new Router.New(Func("default"));
    r.Mount("/", [Route("GET", "/", Func("mustNotBeCalled"))]);
    RootPathTrie(Func("mustNotBeCalled"));
    call := r.ServeHTTP(Request("GET", "/notfound"));
  }

  /** TestRouterNotFoundMethod: a known path without a handler for the method calls the default handler. */
  method NotFoundMethodScenario() returns (call: Call)
    ensures call == Called("default", map[])
  {
    var r := new Router.New(Func("default"));
    r.Mount("/", [Route("GET", "/", Func("mustNotBeCalled"))]);
    RootPathTrie(Func("mustNotBeCalled"));
    ghost var ns := r.Nodes();
    assert "POST" !in ns[0].handlers;
    call := r.ServeHTTP(Request("POST", "/"));
  }

  /** TestRouterNotInitializedDoesNotPanic: a zero router mounts and serves, calling nothing on a miss. */
  method NotInitializedScenario() returns (call: Call)
    ensures call == NoCall
  {
    var r := new Router.Zero();
    r.Mount("/", [Route("GET", "/a", Func("mustNotBeCalled"))]);
    UnrelatedRouteTrie(Func("mustNotBeCalled"));
    call := r.ServeHTTP(Request("GET", "/"));
  }

  /** With `GET /:name` before `POST /toto`, `POST /toto` goes to the default handler. */
  method ParamShadowsLiteralScenario() returns (call: Call)
    ensures call == Called("default", map[])
  {
    var r := new Router.New(Func("default"));
    r.Mount("/", [Route("GET", "/:name", Func("name")), Route("POST", "/toto", Func("toto"))]);
    ParamShadowsLiteralTrie(Func("name"), Func("toto"));
    call := r.ServeHTTP(Request("POST", "/toto"));
  }

  /** With `GET /:id` before `POST /:id`, `POST /5` goes to the default handler. */
  method ParamReregisteredScenario() returns (call: Call)
    ensures call == Called("default", map[])
  {
    var r := new Router.New(Func("default"));
    r.Mount("/", [Route("GET", "/:id", Func("get")), Route("POST", "/:id", Func("post"))]);
    ParamReregisteredTrie(Func("get"), Func("post"));
    call := r.ServeHTTP(Request("POST", "/5"));
  }
}
