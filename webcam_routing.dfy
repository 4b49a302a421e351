/**
 * The web server of main.go: the controller's four routes mounted at `/webcam` on a
 * router whose default handler answers 404, both the controller and the crawler storing
 * under `hist`. The lemmas follow a request through the trie to the handler it reaches.
 */
module WebcamRouting {
  import opened Wrappers
  import opened GoStrings
  import opened GoStrconv
  import opened GoTime
  import opened Trie
  import opened TrieProperties
  import opened TrieScenarios
  import opened MainRouter
  import Webcams
  import FileSystem
  import Crawling
  import WebcamControl

  /** The storage path main.go gives the controller and the crawler. */
  const StoragePath := "hist"

  /** The prefix the controller is mounted under. */
  const Prefix := "/webcam"

  /** `defaultHandler`, known by its name. */
  const Default := Handler("defaultHandler")

  /** The trie after the first route, `GET /`. */
  function ListTrie(): (r: seq<Node<Handler>>)
    ensures ValidArena(r)
  {
    [Node([1], "", false, map[]),
     Node([], "webcam", false, map["GET" := Handler("sendWebcamList")])]
  }

  /** The trie after the second route, `GET /:id`. */
  function ImageTrie(): (r: seq<Node<Handler>>)
    ensures ValidArena(r)
  {
    [Node([1], "", false, map[]),
     Node([2], "webcam", false, map["GET" := Handler("sendWebcamList")]),
     Node([], "id", true, map["GET" := Handler("sendWebcam")])]
  }

  /**
   * The trie after the third route, `GET /:id/hist`: the stored value `id` differs from
   * the raw segment `:id`, so a second parameter node is grown beside the first.
   */
  function HistTrie(): (r: seq<Node<Handler>>)
    ensures ValidArena(r)
  {
    [Node([1], "", false, map[]),
     Node([2, 3], "webcam", false, map["GET" := Handler("sendWebcamList")]),
     Node([], "id", true, map["GET" := Handler("sendWebcam")]),
     Node([4], "id", true, map[]),
     Node([], "hist", false, map["GET" := Handler("sendHist")])]
  }

  /** The trie after all four routes: each route below `:id` has a parameter node of its own. */
  function WebcamTrie(): (r: seq<Node<Handler>>)
    ensures ValidArena(r)
  {
    [Node([1], "", false, map[]),
     Node([2, 3, 5], "webcam", false, map["GET" := Handler("sendWebcamList")]),
     Node([], "id", true, map["GET" := Handler("sendWebcam")]),
     Node([4], "id", true, map[]),
     Node([], "hist", false, map["GET" := Handler("sendHist")]),
     Node([6], "id", true, map[]),
     Node([7], "hist", false, map[]),
     Node([], "name", true, map["GET" := Handler("sendHistWebcam")])]
  }

  /** `GET /` under `/webcam` gives the `webcam` node the list handler. */
  lemma InsertList()
    ensures Insert([Root()], 0, "GET", ["webcam"], Handler("sendWebcamList")) == ListTrie()
  {
    var ns0: seq<Node<Handler>> := [Root()];
    AddLeaf(ns0, 0, "GET", "webcam", Handler("sendWebcamList"));
    var r := Insert(ns0, 0, "GET", ["webcam"], Handler("sendWebcamList"));
    assert r[0] == Node([1], "", false, map[]);
  }

  /** `GET /:id` finds `webcam` and adds the parameter leaf `id` below it. */
  lemma InsertImage()
    ensures Insert(ListTrie(), 0, "GET", ["webcam", ":id"], Handler("sendWebcam")) == ImageTrie()
  {
    var ns := ListTrie();
    var h := Handler("sendWebcam");
    assert FirstMatch(ns, [1], "webcam") == Some(0);
    assert Insert(ns, 0, "GET", ["webcam", ":id"], h) == Insert(ns, 1, "GET", [":id"], h);
    AddLeaf(ns, 1, "GET", ":id", h);
    var r := Insert(ns, 1, "GET", [":id"], h);
    assert r[1] == Node([2], "webcam", false, map["GET" := Handler("sendWebcamList")]);
  }

  /** `GET /:id/hist` does not find `:id` among the stored values, so it grows a new `id` node. */
  lemma InsertHist()
    ensures Insert(ImageTrie(), 0, "GET", ["webcam", ":id", "hist"], Handler("sendHist")) == HistTrie()
  {
    var ns := ImageTrie();
    var h := Handler("sendHist");
    assert FirstMatch(ns, [1], "webcam") == Some(0);
    assert Insert(ns, 0, "GET", ["webcam", ":id", "hist"], h) == Insert(ns, 1, "GET", [":id", "hist"], h);
    assert FirstMatch(ns, [2], ":id") == None;
    var g := Grow(ns, 1, ":id");
    assert Insert(ns, 1, "GET", [":id", "hist"], h) == Insert(g, 3, "GET", ["hist"], h);
    assert g[1] == Node([2, 3], "webcam", false, map["GET" := Handler("sendWebcamList")]);
    AddLeaf(g, 3, "GET", "hist", h);
    var r := Insert(g, 3, "GET", ["hist"], h);
    assert r[3] == Node([4], "id", true, map[]);
  }

  /** `GET /:id/hist/:name` grows a third `id` node, then `hist` and the parameter leaf `name`. */
  lemma InsertHistImage()
    ensures Insert(HistTrie(), 0, "GET", ["webcam", ":id", "hist", ":name"], Handler("sendHistWebcam")) == WebcamTrie()
  {
    var ns := HistTrie();
    var h := Handler("sendHistWebcam");
    assert FirstMatch(ns, [1], "webcam") == Some(0);
    assert Insert(ns, 0, "GET", ["webcam", ":id", "hist", ":name"], h) == Insert(ns, 1, "GET", [":id", "hist", ":name"], h);
    assert FirstMatch(ns, [2, 3], ":id") == None;
    var g1 := Grow(ns, 1, ":id");
    assert Insert(ns, 1, "GET", [":id", "hist", ":name"], h) == Insert(g1, 5, "GET", ["hist", ":name"], h);
    assert g1[1] == Node([2, 3, 5], "webcam", false, map["GET" := Handler("sendWebcamList")]);
    var g2 := Grow(g1, 5, "hist");
    assert Insert(g1, 5, "GET", ["hist", ":name"], h) == Insert(g2, 6, "GET", [":name"], h);
    assert g2[5] == Node([6], "id", true, map[]);
    AddLeaf(g2, 6, "GET", ":name", h);
    var r := Insert(g2, 6, "GET", [":name"], h);
    assert r[6] == Node([7], "hist", false, map[]);
  }

  /** The segments of the four route paths mounted under `/webcam`. */
  lemma RouteSegments()
    ensures Segments(Prefix + "/") == ["webcam"]
    ensures Segments(Prefix + "/:id") == ["webcam", ":id"]
    ensures Segments(Prefix + "/:id/hist") == ["webcam", ":id", "hist"]
    ensures Segments(Prefix + "/:id/hist/:name") == ["webcam", ":id", "hist", ":name"]
  {
    MountedPath(Prefix, ["webcam"], "/", []);
    MountedPath(Prefix, ["webcam"], "/:id", [":id"]);
    MountedPath(Prefix, ["webcam"], "/:id/hist", [":id", "hist"]);
    MountedPath(Prefix, ["webcam"], "/:id/hist/:name", [":id", "hist", ":name"]);
  }

  /** Mounting the first route. */
  lemma MountList()
    ensures MountRoutes([Root()], Prefix, WebcamControl.Routes()[..1]) == ListTrie()
  {
    var rs := WebcamControl.Routes();
    RouteSegments();
    MountOne([Root()], Prefix, rs[0]);
    assert rs[..1] == [rs[0]];
    InsertList();
  }

  /** Mounting the first two routes. */
  lemma MountImage()
    ensures MountRoutes([Root()], Prefix, WebcamControl.Routes()[..2]) == ImageTrie()
  {
    var rs := WebcamControl.Routes()[..2];
    MountList();
    MountLast([Root()], Prefix, rs);
    assert rs[..1] == WebcamControl.Routes()[..1];
    RouteSegments();
    InsertImage();
  }

  /** Mounting the first three routes. */
  lemma MountHist()
    ensures MountRoutes([Root()], Prefix, WebcamControl.Routes()[..3]) == HistTrie()
  {
    var rs := WebcamControl.Routes()[..3];
    MountImage();
    MountLast([Root()], Prefix, rs);
    assert rs[..2] == WebcamControl.Routes()[..2];
    RouteSegments();
    InsertHist();
  }

  /** `router.Mount("/webcam", controller)` builds `WebcamTrie` from an empty router. */
  lemma MountWebcams()
    ensures MountRoutes([Root()], Prefix, WebcamControl.Routes()) == WebcamTrie()
  {
    var rs := WebcamControl.Routes();
    MountHist();
    MountLast([Root()], Prefix, rs);
    RouteSegments();
    InsertHistImage();
  }

  /** `/webcam` stops at the `webcam` node. */
  lemma ListFound()
    ensures Match(WebcamTrie(), 0, ["webcam"], map[]) == Some(Found(1, map[]))
  {
    var ns := WebcamTrie();
    assert MatchChildren(ns, [1], 0, ["webcam"], map[]) == Some(Found(1, map[]));
  }

  /** The path `/webcam` splits into `webcam`, which stops at the `webcam` node. */
  lemma ListPathFound()
    ensures Match(WebcamTrie(), 0, Segments("/webcam"), map[]) == Some(Found(1, map[]))
  {
    TrieScenarios.Components("/webcam", ["webcam"]);
    ListFound();
  }

  /** `/webcam/<id>`, whatever the id, stops at the first `id` node. */
  lemma ImageFound(id: string)
    ensures Match(WebcamTrie(), 0, ["webcam", id], map[]) == Some(Found(2, map["id" := id]))
  {
    var ns := WebcamTrie();
    assert MatchChildren(ns, [2, 3, 5], 0, [id], map[]) == Some(Found(2, map["id" := id]));
    assert MatchChildren(ns, [1], 0, ["webcam", id], map[]) == Some(Found(2, map["id" := id]));
  }

  /** `/webcam/<id>/hist` fails below the first `id` node and backtracks to the second. */
  lemma HistFound(id: string)
    ensures Match(WebcamTrie(), 0, ["webcam", id, "hist"], map[]) == Some(Found(4, map["id" := id]))
  {
    var ns := WebcamTrie();
    assert MatchChildren(ns, [4], 0, ["hist"], map[]) == Some(Found(4, map[]));
    assert MatchChildren(ns, [2, 3, 5], 1, [id, "hist"], map[]) == Some(Found(4, map["id" := id]));
    assert MatchChildren(ns, [2, 3, 5], 0, [id, "hist"], map[]) == Some(Found(4, map["id" := id]));
    assert MatchChildren(ns, [1], 0, ["webcam", id, "hist"], map[]) == Some(Found(4, map["id" := id]));
  }

  /** Below the second `id` node, `hist/<name>` leads nowhere: `hist` there has no children. */
  lemma HistImageMissesSecond(name: string)
    ensures Match(WebcamTrie(), 3, ["hist", name], map[]) == None
  {
    var ns := WebcamTrie();
    assert MatchChildren(ns, [], 0, [name], map[]) == None;
    assert MatchChildren(ns, [4], 0, ["hist", name], map[]) == None;
  }

  /** Below the third `id` node, `hist/<name>` reaches the `name` node. */
  lemma HistImageUnderThird(name: string)
    ensures Match(WebcamTrie(), 5, ["hist", name], map[]) == Some(Found(7, map["name" := name]))
  {
    var ns := WebcamTrie();
    assert MatchChildren(ns, [7], 0, [name], map[]) == Some(Found(7, map["name" := name]));
    assert MatchChildren(ns, [6], 0, ["hist", name], map[]) == Some(Found(7, map["name" := name]));
  }

  /** `/webcam/<id>/hist/<name>` backtracks past two `id` nodes and binds both parameters. */
  lemma HistImageFound(id: string, name: string)
    ensures Match(WebcamTrie(), 0, ["webcam", id, "hist", name], map[])
         == Some(Found(7, map["name" := name, "id" := id]))
  {
    var ns := WebcamTrie();
    var bound := map["name" := name, "id" := id];
    HistImageMissesSecond(name);
    HistImageUnderThird(name);
    assert MatchChildren(ns, [], 0, ["hist", name], map[]) == None;
    assert MatchChildren(ns, [2, 3, 5], 2, [id, "hist", name], map[]) == Some(Found(7, bound));
    assert MatchChildren(ns, [2, 3, 5], 1, [id, "hist", name], map[]) == Some(Found(7, bound));
    assert MatchChildren(ns, [2, 3, 5], 0, [id, "hist", name], map[]) == Some(Found(7, bound));
    assert MatchChildren(ns, [1], 0, ["webcam", id, "hist", name], map[]) == Some(Found(7, bound));
  }

  /** The error a handler's result carries, if any. */
  function ErrorOf<T>(r: Result<T, Error>): (e: Option<Error>)
    ensures e.None? <==> r.Ok?
    ensures e.Some? ==> e.value == r.error
  {
    match r
    case Ok(_) => None
    case Err(err) => Some(err)
  }

  /**
   * What the handler `h` returns for a request, given the controller's webcams, the stored
   * files and the outcome of fetching the live image; `defaultHandler` always answers 404.
   */
  function Run(ws: seq<Webcams.Webcam>, dirs: map<string, seq<FileSystem.Entry>>,
               fetched: Result<FileSystem.Bytes, string>, h: Handler, req: Request, p: PathParams): Option<Error>
  {
    if h.name == "sendWebcamList" then None
    else if h.name == "sendWebcam" then ErrorOf(WebcamControl.WebcamImage(ws, p, fetched))
    else if h.name == "sendHist" then ErrorOf(WebcamControl.History(ws, StoragePath, dirs, p))
    else if h.name == "sendHistWebcam" then ErrorOf(WebcamControl.HistoryImage(ws, StoragePath, dirs, p))
    else if h.name == "defaultHandler" then Some(StatusError(404, "Page not found at " + req.path))
    else None
  }

  /** The server's handlers as the router calls them. */
  function Handlers(ws: seq<Webcams.Webcam>, dirs: map<string, seq<FileSystem.Entry>>,
                    fetched: Result<FileSystem.Bytes, string>): Behaviour
  {
    (h: Handler, req: Request, p: PathParams) => Run(ws, dirs, fetched, h, req, p)
  }

  /** `defaultHandler` answers every request with a 404 naming its path. */
  lemma DefaultAnswers404(ws: seq<Webcams.Webcam>, dirs: map<string, seq<FileSystem.Entry>>,
                          fetched: Result<FileSystem.Bytes, string>, req: Request)
    ensures Handlers(ws, dirs, fetched)(Default, req, map[]) == Some(StatusError(404, "Page not found at " + req.path))
  {
  }

  /** `GET /webcam` lists the webcams. */
  lemma ServeList(ws: seq<Webcams.Webcam>, dirs: map<string, seq<FileSystem.Entry>>, fetched: Result<FileSystem.Bytes, string>)
    ensures Serve(WebcamTrie(), Some(Default), Request("GET", "/webcam"), Handlers(ws, dirs, fetched))
         == Outcome(Called("sendWebcamList", map[]), Untouched)
  {
    var req := Request("GET", "/webcam");
    ListPathFound();
    assert GetHandlerSpec(WebcamTrie(), req) == Resolved(Handler("sendWebcamList"), map[]);
  }

  /** `GET /webcam/<id>` runs `sendWebcam` with `id` bound, and answers with its result. */
  lemma ServeImage(ws: seq<Webcams.Webcam>, dirs: map<string, seq<FileSystem.Entry>>, fetched: Result<FileSystem.Bytes, string>,
                   id: string)
    requires id != "" && Free(id, '/')
    ensures var p := map["id" := id];
            Serve(WebcamTrie(), Some(Default), Request("GET", PathOf(["webcam", id])), Handlers(ws, dirs, fetched))
              == Outcome(Called("sendWebcam", p), ReplyFor(ErrorOf(WebcamControl.WebcamImage(ws, p, fetched))))
  {
    var req := Request("GET", PathOf(["webcam", id]));
    TrieScenarios.Components(req.path, ["webcam", id]);
    ImageFound(id);
    assert GetHandlerSpec(WebcamTrie(), req) == Resolved(Handler("sendWebcam"), map["id" := id]);
  }

  /** `GET /webcam/<id>/hist` runs `sendHist` with `id` bound, and answers with its result. */
  lemma ServeHistory(ws: seq<Webcams.Webcam>, dirs: map<string, seq<FileSystem.Entry>>, fetched: Result<FileSystem.Bytes, string>,
                     id: string)
    requires id != "" && Free(id, '/')
    ensures var p := map["id" := id];
            Serve(WebcamTrie(), Some(Default), Request("GET", PathOf(["webcam", id, "hist"])), Handlers(ws, dirs, fetched))
              == Outcome(Called("sendHist", p), ReplyFor(ErrorOf(WebcamControl.History(ws, StoragePath, dirs, p))))
  {
    var req := Request("GET", PathOf(["webcam", id, "hist"]));
    TrieScenarios.Components(req.path, ["webcam", id, "hist"]);
    HistFound(id);
    assert GetHandlerSpec(WebcamTrie(), req) == Resolved(Handler("sendHist"), map["id" := id]);
  }

  /** `GET /webcam/<id>/hist/<name>` runs `sendHistWebcam` with both parameters bound. */
  lemma ServeHistoryImage(ws: seq<Webcams.Webcam>, dirs: map<string, seq<FileSystem.Entry>>, fetched: Result<FileSystem.Bytes, string>,
                          id: string, name: string)
    requires id != "" && Free(id, '/') && name != "" && Free(name, '/')
    ensures var p := map["id" := id, "name" := name];
            Serve(WebcamTrie(), Some(Default), Request("GET", PathOf(["webcam", id, "hist", name])), Handlers(ws, dirs, fetched))
              == Outcome(Called("sendHistWebcam", p), ReplyFor(ErrorOf(WebcamControl.HistoryImage(ws, StoragePath, dirs, p))))
  {
    var req := Request("GET", PathOf(["webcam", id, "hist", name]));
    var p := map["id" := id, "name" := name];
    TrieScenarios.Components(req.path, ["webcam", id, "hist", name]);
    HistImageFound(id, name);
    assert map["name" := name, "id" := id] == p;
    assert GetHandlerSpec(WebcamTrie(), req) == Resolved(Handler("sendHistWebcam"), p);
  }

  /** A path outside `/webcam` runs `defaultHandler`, which answers 404. */
  lemma ServeUnknown(ws: seq<Webcams.Webcam>, dirs: map<string, seq<FileSystem.Entry>>, fetched: Result<FileSystem.Bytes, string>,
                     segment: string)
    requires segment != "" && Free(segment, '/') && segment != "webcam"
    ensures Serve(WebcamTrie(), Some(Default), Request("GET", PathOf([segment])), Handlers(ws, dirs, fetched))
         == Outcome(Called("defaultHandler", map[]), ErrorPage(404))
  {
    var req := Request("GET", PathOf([segment]));
    var ns := WebcamTrie();
    TrieScenarios.Components(req.path, [segment]);
    assert MatchChildren(ns, [1], 0, [segment], map[]) == None;
    assert GetHandlerSpec(ns, req).Unresolved?;
  }

  /** A method other than GET on `/webcam` runs `defaultHandler` too. */
  lemma ServeOtherMethod(ws: seq<Webcams.Webcam>, dirs: map<string, seq<FileSystem.Entry>>, fetched: Result<FileSystem.Bytes, string>,
                         verb: string)
    requires verb != "GET"
    ensures Serve(WebcamTrie(), Some(Default), Request(verb, "/webcam"), Handlers(ws, dirs, fetched))
         == Outcome(Called("defaultHandler", map[]), ErrorPage(404))
  {
    var req := Request(verb, "/webcam");
    ListPathFound();
    assert verb !in WebcamTrie()[1].handlers;
    ServeDefault(WebcamTrie(), Some(Default), req, Handlers(ws, dirs, fetched));
    DefaultAnswers404(ws, dirs, fetched, req);
  }

  /** An image name, an RFC 3339 instant and `.jpg`, holds no slash. */
  lemma ImageNameSegment(now: Time)
    ensures Crawling.ImageName(now) != "" && Free(Crawling.ImageName(now), '/')
  {
    Crawling.FormatAvoids(now, '/');
    Crawling.FreeConcat(Format(now), ".jpg", '/');
  }

  /** The decimal form of an id holds no slash. */
  lemma IdSegment(id: int)
    ensures Itoa(id) != "" && Free(Itoa(id), '/')
  {
    assert Itoa(id) == (if id < 0 then "-" else "") + NatString(if id < 0 then -id else id);
  }

  /**
   * Over HTTP, an image the crawler stored under `hist` is served at
   * `/webcam/<id>/hist/<name>` while the crawl's own cleanup kept it; otherwise the
   * answer is a 404 page.
   */
  lemma CrawledImageOverHttp(ws: seq<Webcams.Webcam>, k: nat, dirs: map<string, seq<FileSystem.Entry>>,
                             data: FileSystem.Bytes, now: Time, later: Time, fetched: Result<FileSystem.Bytes, string>)
    requires k < |ws| && InInt64(ws[k].id) && forall j :: 0 <= j < k ==> ws[j].id != ws[k].id
    requires ValidTime(now) && 0 <= now.year <= 9999
    requires now.offset % 60 == 0 && -25 * 3600 < now.offset < 25 * 3600
    ensures var stored := Crawling.CrawlEffect(dirs, StoragePath, ws[k], Some(data), now, true, later);
            var req := Request("GET", PathOf(["webcam", Itoa(ws[k].id), "hist", Crawling.ImageName(now)]));
            var o := Serve(WebcamTrie(), Some(Default), req, Handlers(ws, stored, fetched));
            o.call == Called("sendHistWebcam", map["id" := Itoa(ws[k].id), "name" := Crawling.ImageName(now)]) &&
            o.reply == if Sub(later, Truncate(now)) <= Webcams.MaxAge(ws[k]) then Untouched else ErrorPage(404)
  {
    var stored := Crawling.CrawlEffect(dirs, StoragePath, ws[k], Some(data), now, true, later);
    IdSegment(ws[k].id);
    ImageNameSegment(now);
    ServeHistoryImage(ws, stored, fetched, Itoa(ws[k].id), Crawling.ImageName(now));
    WebcamControl.CrawledImageServed(ws, k, StoragePath, dirs, data, now, later);
  }

  /**
   * `startWebServer` up to `http.Handle`: a controller over the webcams and `hist`, a
   * router with `defaultHandler`, and the controller's routes mounted at `/webcam`.
   */
  method StartWebServer(webcams: seq<Webcams.Webcam>) returns (controller: WebcamControl.WebcamController, router: Router)
    ensures fresh(controller) && fresh(router)
    ensures controller.webcams == webcams && controller.storagePath == StoragePath
    ensures router.Valid() && router.Nodes() == WebcamTrie() && router.defaultHandler == Some(Default)
  {
    controller := new WebcamControl.WebcamController(StoragePath);
    controller.SetWebcams(webcams);
    router := new Router.New(Some(Default));
    var routes := controller.GetRoutes();
    router.Mount(Prefix, routes);
    MountWebcams();
  }
}
