/**
 * The route tables of router_test.go and router/router_test.go, built with the trie
 * of router/tree.go and searched with its `traverse`. Handlers are left abstract so both
 * routers can use these facts.
 */
module TrieScenarios {
  import opened Wrappers
  import opened GoStrings
  import opened Trie
  import opened TrieProperties

  /** Mounting one route inserts its prefixed path at the root. */
  lemma MountOne<H>(ns: seq<Node<H>>, prefix: string, r: Route<H>)
    requires ValidArena(ns)
    ensures MountRoutes(ns, prefix, [r]) == Insert(ns, 0, r.verb, Segments(prefix + r.path), r.handler)
  {
    assert [r][..0] == [];
  }

  /** Mounting two routes inserts them in order. */
  lemma MountTwo<H>(ns: seq<Node<H>>, prefix: string, r1: Route<H>, r2: Route<H>)
    requires ValidArena(ns)
    ensures var ns1 := Insert(ns, 0, r1.verb, Segments(prefix + r1.path), r1.handler);
            MountRoutes(ns, prefix, [r1, r2]) == Insert(ns1, 0, r2.verb, Segments(prefix + r2.path), r2.handler)
  {
    assert [r1, r2][..1] == [r1];
    MountOne(ns, prefix, r1);
  }

  /** Mounting routes inserts the last one into the trie the others built. */
  lemma MountLast<H>(ns: seq<Node<H>>, prefix: string, routes: seq<Route<H>>)
    requires ValidArena(ns) && |routes| > 0
    ensures var last := routes[|routes| - 1];
            MountRoutes(ns, prefix, routes)
              == Insert(MountRoutes(ns, prefix, routes[..|routes| - 1]), 0, last.verb, Segments(prefix + last.path), last.handler)
  {
  }

  /** A path written as `/` followed by slash-separated components splits into those components. */
  lemma Components(path: string, segments: seq<string>)
    requires forall k :: 0 <= k < |segments| ==> segments[k] != "" && Free(segments[k], '/')
    requires path == PathOf(segments)
    ensures Segments(path) == segments
  {
    SegmentsOfPathOf(segments);
  }

  /**
   * A route path mounted under a prefix splits into the prefix's components, then its own;
   * both are written in canonical form, so `/` stands for no components.
   */
  lemma MountedPath(prefix: string, ps: seq<string>, path: string, qs: seq<string>)
    requires forall k :: 0 <= k < |ps| ==> ps[k] != "" && Free(ps[k], '/')
    requires forall k :: 0 <= k < |qs| ==> qs[k] != "" && Free(qs[k], '/')
    requires prefix == PathOf(ps) && path == PathOf(qs)
    ensures Segments(prefix + path) == ps + qs
  {
    Components(prefix, ps);
    Components(path, qs);
    assert path[0] == '/';
    SegmentsOfMountedPath(prefix, path);
  }

  /** Adding a leaf for a segment no child of `n` holds appends one node carrying the handler. */
  lemma AddLeaf<H>(ns: seq<Node<H>>, n: nat, verb: string, segment: string, h: H)
    requires ValidArena(ns) && n < |ns|
    requires FirstMatch(ns, ns[n].children, segment).None?
    ensures Insert(ns, n, verb, [segment], h)
         == ns[n := ns[n].(children := ns[n].children + [|ns|])] + [NewNode(segment).(handlers := map[verb := h])]
  {
    var g := Grow(ns, n, segment);
    assert Insert(ns, n, verb, [segment], h) == Insert(g, |ns|, verb, [], h);
  }

  /** `GET /` mounted at `/` puts its handler on the root. */
  lemma RootPathArena<H>(h: H)
    ensures MountRoutes([Root()], "/", [Route("GET", "/", h)]) == [Node([], "", false, map["GET" := h])]
  {
    MountedPath("/", [], "/", []);
    MountOne([Root()], "/", Route("GET", "/", h));
  }

  /** In a trie that is a bare root, no segments end at the root and one segment finds nothing. */
  lemma RootPathSearch<H>(h: H)
    ensures var ns := [Node([], "", false, map["GET" := h])];
            && Match(ns, 0, [], map[]) == Some(Found(0, map[]))
            && Match(ns, 0, ["notfound"], map[]) == None
  {
    var ns := [Node([], "", false, map["GET" := h])];
    assert MatchChildren(ns, [], 0, ["notfound"], map[]) == None;
  }

  /** TestRouterRootPath: `GET /` mounted at `/` lands on the root itself. */
  lemma RootPathTrie<H>(h: H)
    ensures var ns := MountRoutes([Root()], "/", [Route("GET", "/", h)]);
            && ns == [Node([], "", false, map["GET" := h])]
            && Match(ns, 0, Segments("/"), map[]) == Some(Found(0, map[]))
            && Match(ns, 0, Segments("/notfound"), map[]) == None
  {
    var ns := MountRoutes([Root()], "/", [Route("GET", "/", h)]);
    RootPathArena(h);
    RootPathSearch(h);
    assert Segments("/") == [] by { RootPathHasNoSegments(); }
    assert Segments("/notfound") == ["notfound"] by { Components("/notfound", ["notfound"]); }
  }

  /** `GET /` mounted at `/there` hangs a node `there` below the root. */
  lemma MountPathArena<H>(h: H)
    ensures MountRoutes([Root()], "/there", [Route("GET", "/", h)])
         == [Node([1], "", false, map[]), Node([], "there", false, map["GET" := h])]
  {
    MountedPath("/there", ["there"], "/", []);
    MountOne([Root()], "/there", Route("GET", "/", h));
    var ns0: seq<Node<H>> := [Root()];
    AddLeaf(ns0, 0, "GET", "there", h);
    var ns := Insert(ns0, 0, "GET", ["there"], h);
    assert ns[0] == Node([1], "", false, map[]);
  }

  /** `/there` stops at the `there` node. */
  lemma MountPathSearch<H>(h: H)
    ensures var ns := [Node([1], "", false, map[]), Node([], "there", false, map["GET" := h])];
            Match(ns, 0, ["there"], map[]) == Some(Found(1, map[]))
  {
    var ns := [Node([1], "", false, map[]), Node([], "there", false, map["GET" := h])];
    assert MatchChildren(ns, [1], 0, ["there"], map[]) == Some(Found(1, map[]));
  }

  /** TestRouterMountPath: `GET /` mounted at `/there` answers `/there`. */
  lemma MountPathTrie<H>(h: H)
    ensures var ns := MountRoutes([Root()], "/there", [Route("GET", "/", h)]);
            && ns == [Node([1], "", false, map[]), Node([], "there", false, map["GET" := h])]
            && Match(ns, 0, Segments("/there"), map[]) == Some(Found(1, map[]))
  {
    MountPathArena(h);
    Components("/there", ["there"]);
    MountPathSearch(h);
  }

  /** The insertions `Mount("/there", ...)` makes for TestRouterMountPathAndControllerPath. */
  lemma MountedControllerPathRoutes<H>(here: H, slash: H)
    ensures MountRoutes([Root()], "/there", [Route("GET", "/here", here), Route("GET", "/", slash)])
         == Insert(Insert([Root()], 0, "GET", ["there", "here"], here), 0, "GET", ["there"], slash)
  {
    MountedPath("/there", ["there"], "/here", ["here"]);
    MountedPath("/there", ["there"], "/", []);
    MountTwo([Root()], "/there", Route("GET", "/here", here), Route("GET", "/", slash));
  }

  /** The two insertions build the `there` node with the `/` handler and its `here` child. */
  lemma MountedControllerPathInserts<H>(here: H, slash: H)
    ensures Insert(Insert([Root()], 0, "GET", ["there", "here"], here), 0, "GET", ["there"], slash)
         == [Node([1], "", false, map[]), Node([2], "there", false, map["GET" := slash]),
             Node([], "here", false, map["GET" := here])]
  {
    var ns0: seq<Node<H>> := [Root()];
    var g1 := Grow(ns0, 0, "there");
    assert g1[0] == Node([1], "", false, map[]);
    assert g1 == [Node([1], "", false, map[]), Node([], "there", false, map[])];
    AddLeaf(g1, 1, "GET", "here", here);
    var ns1 := Insert(g1, 1, "GET", ["here"], here);
    assert Insert(ns0, 0, "GET", ["there", "here"], here) == ns1;
    assert ns1[1] == Node([2], "there", false, map[]);
    assert ns1 == [Node([1], "", false, map[]), Node([2], "there", false, map[]), Node([], "here", false, map["GET" := here])];
    assert FirstMatch(ns1, [1], "there") == Some(0);
    assert Insert(ns1, 0, "GET", ["there"], slash) == Insert(ns1, 1, "GET", [], slash);
  }

  /** `/there/here` descends through `there` to `here`. */
  lemma MountedControllerPathSearch<H>(here: H, slash: H)
    ensures var ns := [Node([1], "", false, map[]), Node([2], "there", false, map["GET" := slash]),
                       Node([], "here", false, map["GET" := here])];
            Match(ns, 0, ["there", "here"], map[]) == Some(Found(2, map[]))
  {
    var ns := [Node([1], "", false, map[]), Node([2], "there", false, map["GET" := slash]),
               Node([], "here", false, map["GET" := here])];
    assert MatchChildren(ns, [2], 0, ["here"], map[]) == Some(Found(2, map[]));
    assert MatchChildren(ns, [1], 0, ["there", "here"], map[]) == Some(Found(2, map[]));
  }

  /** The trie `Mount("/there", ...)` builds for TestRouterMountPathAndControllerPath. */
  lemma MountedControllerPathArena<H>(here: H, slash: H)
    ensures MountRoutes([Root()], "/there", [Route("GET", "/here", here), Route("GET", "/", slash)])
         == [Node([1], "", false, map[]), Node([2], "there", false, map["GET" := slash]),
             Node([], "here", false, map["GET" := here])]
  {
    MountedControllerPathRoutes(here, slash);
    MountedControllerPathInserts(here, slash);
  }

  /** TestRouterMountPathAndControllerPath: `/there` + `/here` answers `/there/here`. */
  lemma MountedControllerPathTrie<H>(here: H, slash: H)
    ensures var ns := MountRoutes([Root()], "/there", [Route("GET", "/here", here), Route("GET", "/", slash)]);
            && ns == [Node([1], "", false, map[]), Node([2], "there", false, map["GET" := slash]),
                      Node([], "here", false, map["GET" := here])]
            && Match(ns, 0, Segments("/there/here"), map[]) == Some(Found(2, map[]))
  {
    MountedControllerPathArena(here, slash);
    Components("/there/here", ["there", "here"]);
    MountedControllerPathSearch(here, slash);
  }

  /** The root with a single parameter child `:name` holding one handler. */
  lemma NameParamArena<H>(verb: string, h: H)
    ensures Insert([Root()], 0, verb, [":name"], h) == [Node([1], "", false, map[]), Node([], "name", true, map[verb := h])]
  {
    var ns0: seq<Node<H>> := [Root()];
    AddLeaf(ns0, 0, verb, ":name", h);
    var ns := Insert(ns0, 0, verb, [":name"], h);
    assert ns[0] == Node([1], "", false, map[]);
  }

  /** The trie `Mount("/", ...)` builds for TestRouterPathParams. */
  lemma PathParamsArena<H>(name: H, slash: H)
    ensures MountRoutes([Root()], "/", [Route("GET", "/:name", name), Route("GET", "/", slash)])
         == [Node([1], "", false, map["GET" := slash]), Node([], "name", true, map["GET" := name])]
  {
    MountedPath("/", [], "/", []);
    MountedPath("/", [], "/:name", [":name"]);
    MountTwo([Root()], "/", Route("GET", "/:name", name), Route("GET", "/", slash));
    NameParamArena("GET", name);
    var ns1 := [Node([1], "", false, map[]), Node([], "name", true, map["GET" := name])];
    assert Insert(ns1, 0, "GET", [], slash) == [Node([1], "", false, map["GET" := slash]), Node([], "name", true, map["GET" := name])];
  }

  /** TestRouterPathParams: `/:name` binds `name` to `toto`. */
  lemma PathParamsTrie<H>(name: H, slash: H)
    ensures var ns := MountRoutes([Root()], "/", [Route("GET", "/:name", name), Route("GET", "/", slash)]);
            && ns == [Node([1], "", false, map["GET" := slash]), Node([], "name", true, map["GET" := name])]
            && Match(ns, 0, Segments("/toto"), map[]) == Some(Found(1, map["name" := "toto"]))
  {
    PathParamsArena(name, slash);
    Components("/toto", ["toto"]);
    var ns := [Node([1], "", false, map["GET" := slash]), Node([], "name", true, map["GET" := name])];
    assert MatchChildren(ns, [1], 0, ["toto"], map[]) == Some(Found(1, map["name" := "toto"]));
  }

  /** `/toto/:special` mounted at `/` splits into its two components. */
  lemma SpecialSegments()
    ensures Segments("/" + "/toto/:special") == ["toto", ":special"]
  {
    MountedPath("/", [], "/toto/:special", ["toto", ":special"]);
  }

  /** The insertions `Mount("/", ...)` makes for TestRouterAmbiguousPathParams. */
  lemma AmbiguousParamsRoutes<H>(name: H, special: H)
    ensures MountRoutes([Root()], "/", [Route("GET", "/:name", name), Route("GET", "/toto/:special", special)])
         == Insert(Insert([Root()], 0, "GET", [":name"], name), 0, "GET", ["toto", ":special"], special)
  {
    SpecialSegments();
    MountedPath("/", [], "/:name", [":name"]);
    MountTwo([Root()], "/", Route("GET", "/:name", name), Route("GET", "/toto/:special", special));
  }

  /** The two insertions build a `:name` child and a `toto` child with its own `:special` child. */
  lemma AmbiguousParamsInserts<H>(name: H, special: H)
    ensures Insert(Insert([Root()], 0, "GET", [":name"], name), 0, "GET", ["toto", ":special"], special)
         == [Node([1, 2], "", false, map[]), Node([], "name", true, map["GET" := name]),
             Node([3], "toto", false, map[]), Node([], "special", true, map["GET" := special])]
  {
    NameParamArena("GET", name);
    var ns1 := [Node([1], "", false, map[]), Node([], "name", true, map["GET" := name])];
    assert FirstMatch(ns1, [1], "toto") == None;
    var g2 := Grow(ns1, 0, "toto");
    assert g2[0] == Node([1, 2], "", false, map[]);
    assert g2 == [Node([1, 2], "", false, map[]), Node([], "name", true, map["GET" := name]), Node([], "toto", false, map[])];
    assert Insert(ns1, 0, "GET", ["toto", ":special"], special) == Insert(g2, 2, "GET", [":special"], special);
    AddLeaf(g2, 2, "GET", ":special", special);
    var ns := Insert(g2, 2, "GET", [":special"], special);
    assert ns[2] == Node([3], "toto", false, map[]);
  }

  /** `/toto/titi` reaches `:special` below `toto`, binding `special`. */
  lemma AmbiguousParamsSearch<H>(name: H, special: H)
    ensures var ns := [Node([1, 2], "", false, map[]), Node([], "name", true, map["GET" := name]),
                       Node([3], "toto", false, map[]), Node([], "special", true, map["GET" := special])];
            Match(ns, 0, ["toto", "titi"], map[]) == Some(Found(3, map["special" := "titi"]))
  {
    var ns := [Node([1, 2], "", false, map[]), Node([], "name", true, map["GET" := name]),
               Node([3], "toto", false, map[]), Node([], "special", true, map["GET" := special])];
    assert Match(ns, 1, ["titi"], map[]) == None;
    assert MatchChildren(ns, [3], 0, ["titi"], map[]) == Some(Found(3, map["special" := "titi"]));
    assert MatchChildren(ns, [1, 2], 1, ["toto", "titi"], map[]) == Some(Found(3, map["special" := "titi"]));
  }

  /** The trie `Mount("/", ...)` builds for TestRouterAmbiguousPathParams. */
  lemma AmbiguousParamsArena<H>(name: H, special: H)
    ensures MountRoutes([Root()], "/", [Route("GET", "/:name", name), Route("GET", "/toto/:special", special)])
         == [Node([1, 2], "", false, map[]), Node([], "name", true, map["GET" := name]),
             Node([3], "toto", false, map[]), Node([], "special", true, map["GET" := special])]
  {
    AmbiguousParamsRoutes(name, special);
    AmbiguousParamsInserts(name, special);
  }

  /**
   * TestRouterAmbiguousPathParams: `/toto/titi` first tries the parameter node `name`,
   * whose subtree dead-ends, then backtracks to the literal `toto` and binds only `special`.
   */
  lemma AmbiguousParamsTrie<H>(name: H, special: H)
    ensures var ns := MountRoutes([Root()], "/", [Route("GET", "/:name", name), Route("GET", "/toto/:special", special)]);
            && ns == [Node([1, 2], "", false, map[]), Node([], "name", true, map["GET" := name]),
                      Node([3], "toto", false, map[]), Node([], "special", true, map["GET" := special])]
            && Match(ns, 0, Segments("/toto/titi"), map[]) == Some(Found(3, map["special" := "titi"]))
  {
    AmbiguousParamsArena(name, special);
    Components("/toto/titi", ["toto", "titi"]);
    AmbiguousParamsSearch(name, special);
  }

  /** `GET /a` mounted at `/` hangs a node `a` below the root. */
  lemma UnrelatedRouteArena<H>(h: H)
    ensures MountRoutes([Root()], "/", [Route("GET", "/a", h)]) == [Node([1], "", false, map[]), Node([], "a", false, map["GET" := h])]
  {
    MountedPath("/", [], "/a", ["a"]);
    MountOne([Root()], "/", Route("GET", "/a", h));
    var ns0: seq<Node<H>> := [Root()];
    AddLeaf(ns0, 0, "GET", "a", h);
    var ns := Insert(ns0, 0, "GET", ["a"], h);
    assert ns[0] == Node([1], "", false, map[]);
  }

  /** TestRouterNotInitializedDoesNotPanic: `/` resolves to the root, which has no handler. */
  lemma UnrelatedRouteTrie<H>(h: H)
    ensures var ns := MountRoutes([Root()], "/", [Route("GET", "/a", h)]);
            && ns == [Node([1], "", false, map[]), Node([], "a", false, map["GET" := h])]
            && Match(ns, 0, Segments("/"), map[]) == Some(Found(0, map[]))
  {
    UnrelatedRouteArena(h);
    RootPathHasNoSegments();
  }

  /** The insertions for `GET /:name` followed by `POST /toto`. */
  lemma ParamShadowsLiteralRoutes<H>(name: H, toto: H)
    ensures MountRoutes([Root()], "/", [Route("GET", "/:name", name), Route("POST", "/toto", toto)])
         == Insert(Insert([Root()], 0, "GET", [":name"], name), 0, "POST", ["toto"], toto)
  {
    MountedPath("/", [], "/:name", [":name"]);
    MountedPath("/", [], "/toto", ["toto"]);
    MountTwo([Root()], "/", Route("GET", "/:name", name), Route("POST", "/toto", toto));
  }

  /** The two insertions build the trie with the parameter child first. */
  lemma ParamShadowsLiteralInserts<H>(name: H, toto: H)
    ensures Insert(Insert([Root()], 0, "GET", [":name"], name), 0, "POST", ["toto"], toto)
         == [Node([1, 2], "", false, map[]), Node([], "name", true, map["GET" := name]),
             Node([], "toto", false, map["POST" := toto])]
  {
    NameParamArena("GET", name);
    var ns1 := [Node([1], "", false, map[]), Node([], "name", true, map["GET" := name])];
    assert FirstMatch(ns1, [1], "toto") == None;
    AddLeaf(ns1, 0, "POST", "toto", toto);
    var ns := Insert(ns1, 0, "POST", ["toto"], toto);
    assert ns[0] == Node([1, 2], "", false, map[]);
  }

  /** `/toto` is taken by the parameter child, which comes first. */
  lemma ParamShadowsLiteralSearch<H>(name: H, toto: H)
    ensures var ns := [Node([1, 2], "", false, map[]), Node([], "name", true, map["GET" := name]),
                       Node([], "toto", false, map["POST" := toto])];
            Match(ns, 0, ["toto"], map[]) == Some(Found(1, map["name" := "toto"]))
  {
    var ns := [Node([1, 2], "", false, map[]), Node([], "name", true, map["GET" := name]),
               Node([], "toto", false, map["POST" := toto])];
    assert MatchChildren(ns, [1, 2], 0, ["toto"], map[]) == Some(Found(1, map["name" := "toto"]));
  }

  /** The trie built from `GET /:name` followed by `POST /toto`. */
  lemma ParamShadowsLiteralArena<H>(name: H, toto: H)
    ensures MountRoutes([Root()], "/", [Route("GET", "/:name", name), Route("POST", "/toto", toto)])
         == [Node([1, 2], "", false, map[]), Node([], "name", true, map["GET" := name]),
             Node([], "toto", false, map["POST" := toto])]
  {
    ParamShadowsLiteralRoutes(name, toto);
    ParamShadowsLiteralInserts(name, toto);
  }

  /**
   * The search stops at the first node where the path runs out: with `GET /:name`
   * registered before `POST /toto`, the request `/toto` ends on the parameter node, which
   * has no POST handler, although the literal node `toto` has one.
   */
  lemma ParamShadowsLiteralTrie<H>(name: H, toto: H)
    ensures var ns := MountRoutes([Root()], "/", [Route("GET", "/:name", name), Route("POST", "/toto", toto)]);
            && ns == [Node([1, 2], "", false, map[]), Node([], "name", true, map["GET" := name]),
                      Node([], "toto", false, map["POST" := toto])]
            && Match(ns, 0, Segments("/toto"), map[]) == Some(Found(1, map["name" := "toto"]))
  {
    ParamShadowsLiteralArena(name, toto);
    Components("/toto", ["toto"]);
    ParamShadowsLiteralSearch(name, toto);
  }

  /** The insertions for `GET /:id` followed by `POST /:id`. */
  lemma ParamReregisteredRoutes<H>(get: H, post: H)
    ensures MountRoutes([Root()], "/", [Route("GET", "/:id", get), Route("POST", "/:id", post)])
         == Insert(Insert([Root()], 0, "GET", [":id"], get), 0, "POST", [":id"], post)
  {
    MountedPath("/", [], "/:id", [":id"]);
    MountTwo([Root()], "/", Route("GET", "/:id", get), Route("POST", "/:id", post));
  }

  /** Inserting `:id` again adds a second parameter node rather than reusing the first. */
  lemma ParamReregisteredInserts<H>(get: H, post: H)
    ensures Insert(Insert([Root()], 0, "GET", [":id"], get), 0, "POST", [":id"], post)
         == [Node([1, 2], "", false, map[]), Node([], "id", true, map["GET" := get]),
             Node([], "id", true, map["POST" := post])]
  {
    var ns0: seq<Node<H>> := [Root()];
    AddLeaf(ns0, 0, "GET", ":id", get);
    var ns1 := Insert(ns0, 0, "GET", [":id"], get);
    assert ns1[0] == Node([1], "", false, map[]);
    assert ns1 == [Node([1], "", false, map[]), Node([], "id", true, map["GET" := get])];
    assert FirstMatch(ns1, [1], ":id") == None;
    AddLeaf(ns1, 0, "POST", ":id", post);
    var ns := Insert(ns1, 0, "POST", [":id"], post);
    assert ns[0] == Node([1, 2], "", false, map[]);
  }

  /** The search stops at the first parameter node, so the second route's handler is never reached. */
  lemma ParamReregisteredSearch<H>(get: H, post: H)
    ensures var ns := [Node([1, 2], "", false, map[]), Node([], "id", true, map["GET" := get]),
                       Node([], "id", true, map["POST" := post])];
            Match(ns, 0, ["5"], map[]) == Some(Found(1, map["id" := "5"]))
  {
    var ns := [Node([1, 2], "", false, map[]), Node([], "id", true, map["GET" := get]),
               Node([], "id", true, map["POST" := post])];
    assert MatchChildren(ns, [1, 2], 0, ["5"], map[]) == Some(Found(1, map["id" := "5"]));
  }

  /** The trie built from `GET /:id` followed by `POST /:id`. */
  lemma ParamReregisteredArena<H>(get: H, post: H)
    ensures MountRoutes([Root()], "/", [Route("GET", "/:id", get), Route("POST", "/:id", post)])
         == [Node([1, 2], "", false, map[]), Node([], "id", true, map["GET" := get]),
             Node([], "id", true, map["POST" := post])]
  {
    ParamReregisteredRoutes(get, post);
    ParamReregisteredInserts(get, post);
  }

  /**
   * Registering `:id` for a second method creates a second parameter sibling, and the
   * search stops at the first one: `POST /5` reaches the node that only has GET.
   */
  lemma ParamReregisteredTrie<H>(get: H, post: H)
    ensures var ns := MountRoutes([Root()], "/", [Route("GET", "/:id", get), Route("POST", "/:id", post)]);
            && ns == [Node([1, 2], "", false, map[]), Node([], "id", true, map["GET" := get]),
                      Node([], "id", true, map["POST" := post])]
            && Match(ns, 0, Segments("/5"), map[]) == Some(Found(1, map["id" := "5"]))
  {
    ParamReregisteredArena(get, post);
    Components("/5", ["5"]);
    ParamReregisteredSearch(get, post);
  }
}
