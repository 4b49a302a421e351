/**
 * The webcam controller (webcamController.go): the four GET routes of the web server,
 * the lookup of a webcam by the `id` parameter, and what each handler answers. Fetching
 * a webcam image is a parameter, the disk is the one the crawler writes, and the JSON
 * encoding of the answers is left out: a handler's answer is the value it would encode.
 */
module WebcamControl {
  import opened Wrappers
  import opened GoStrconv
  import opened GoTime
  import opened Webcams
  import opened FileSystem
  import opened Crawling
  import Trie
  import MainRouter

  /** `http.StatusNotFound`. */
  const NotFound := 404
  /** `http.StatusBadGateway`. */
  const BadGateway := 502

  /** Reading a parameter the route did not bind gives the empty string, as a Go map does. */
  function Param(p: Trie.PathParams, key: string): string {
    if key in p then p[key] else ""
  }

  /** The position of the first webcam with the given id, or the length of the list. */
  function FirstIndex(ws: seq<Webcam>, n: int): (i: nat)
    ensures i <= |ws|
    ensures i < |ws| ==> ws[i].id == n
    ensures forall j :: 0 <= j < i ==> ws[j].id != n
    decreases |ws|
  {
    if |ws| == 0 then 0
    else if ws[0].id == n then 0
    else 1 + FirstIndex(ws[1..], n)
  }

  /** A position holding the id, with no earlier one, is the first index. */
  lemma FirstIndexAt(ws: seq<Webcam>, n: int, i: nat)
    requires i <= |ws| && (i < |ws| ==> ws[i].id == n)
    requires forall j :: 0 <= j < i ==> ws[j].id != n
    ensures FirstIndex(ws, n) == i
  {
  }

  /**
   * `getWebcam`: the id must be a decimal integer, and names the first webcam of the list
   * with that id; either failure is a 404, with the messages of the source (the first
   * with its misspelling).
   */
  function FindWebcam(ws: seq<Webcam>, id: string): (r: Result<Webcam, MainRouter.Error>)
    ensures r.Err? ==> r.error.StatusError? && r.error.code == NotFound
    ensures r.Ok? <==> Atoi(id).Some? && FirstIndex(ws, Atoi(id).value) < |ws|
    ensures r.Ok? ==> r.value == ws[FirstIndex(ws, Atoi(id).value)] && Atoi(id) == Some(r.value.id)
  {
    match Atoi(id)
    case None => Err(MainRouter.StatusError(NotFound, "Cuuld not convert " + id + " to webcam id"))
    case Some(n) =>
      var i := FirstIndex(ws, n);
      if i < |ws| then Ok(ws[i])
      else Err(MainRouter.StatusError(NotFound, "Could not find webcam with id " + id))
  }

  /** The decimal form of a webcam's id finds the first webcam with that id. */
  lemma FindByItoa(ws: seq<Webcam>, k: nat)
    requires k < |ws| && InInt64(ws[k].id)
    requires forall j :: 0 <= j < k ==> ws[j].id != ws[k].id
    ensures FindWebcam(ws, Itoa(ws[k].id)) == Ok(ws[k])
  {
    AtoiItoa(ws[k].id);
    FirstIndexAt(ws, ws[k].id, k);
  }

  /** An id no webcam has is a 404 naming the id. */
  lemma FindUnknown(ws: seq<Webcam>, n: int)
    requires InInt64(n) && forall j :: 0 <= j < |ws| ==> ws[j].id != n
    ensures FindWebcam(ws, Itoa(n)) == Err(MainRouter.StatusError(NotFound, "Could not find webcam with id " + Itoa(n)))
  {
    AtoiItoa(n);
    FirstIndexAt(ws, n, |ws|);
  }

  /** Text that is not a decimal integer is a 404 whatever the list. */
  lemma FindNotANumber(ws: seq<Webcam>)
    ensures FindWebcam(ws, "abc") == Err(MainRouter.StatusError(NotFound, "Cuuld not convert " + "abc" + " to webcam id"))
    ensures FindWebcam(ws, "") == Err(MainRouter.StatusError(NotFound, "Cuuld not convert " + "" + " to webcam id"))
  {
    assert !IsDigit("abc"[0]) && !AllDigits("abc");
  }

  /** `sendWebcam`: the webcam's current image, a 404 from the lookup, or a 502 when the fetch fails. */
  function WebcamImage(ws: seq<Webcam>, p: Trie.PathParams, fetched: Result<Bytes, string>): (r: Result<Bytes, MainRouter.Error>)
    ensures r.Err? && FindWebcam(ws, Param(p, "id")).Err? ==> r.error.StatusError? && r.error.code == NotFound
    ensures r.Err? && FindWebcam(ws, Param(p, "id")).Ok? ==>
              fetched.Err? && r.error == MainRouter.StatusError(BadGateway, fetched.error)
    ensures r.Ok? <==> FindWebcam(ws, Param(p, "id")).Ok? && fetched.Ok?
    ensures r.Ok? ==> fetched == Ok(r.value)
  {
    match FindWebcam(ws, Param(p, "id"))
    case Err(e) => Err(e)
    case Ok(_) =>
      match fetched
      case Err(message) => Err(MainRouter.StatusError(BadGateway, message))
      case Ok(image) => Ok(image)
  }

  /** `sendHist`: the names in the webcam's directory, none when it cannot be read, or the lookup's 404. */
  function History(ws: seq<Webcam>, storagePath: string, dirs: map<string, seq<Entry>>, p: Trie.PathParams)
    : (r: Result<seq<string>, MainRouter.Error>)
    ensures r.Err? <==> FindWebcam(ws, Param(p, "id")).Err?
    ensures r.Err? ==> r.error.StatusError? && r.error.code == NotFound
    ensures r.Ok? && PathJoin(storagePath, Param(p, "id")) !in dirs ==> r.value == []
    ensures r.Ok? && PathJoin(storagePath, Param(p, "id")) in dirs ==>
              r.value == Names(dirs[PathJoin(storagePath, Param(p, "id"))])
  {
    match FindWebcam(ws, Param(p, "id"))
    case Err(e) => Err(e)
    case Ok(_) =>
      match ReadDir(dirs, PathJoin(storagePath, Param(p, "id")))
      case None => Ok([])
      case Some(names) => Ok(names)
  }

  /** The path `sendHistWebcam` reads: the storage path, the id and the name, joined. */
  function HistoryPath(storagePath: string, p: Trie.PathParams): string {
    PathJoin(PathJoin(storagePath, Param(p, "id")), Param(p, "name"))
  }

  /**
   * `sendHistWebcam`: a stored image of the webcam, or a 404 from the lookup or from the
   * read; a missing file reads as the `open` error of package `os`.
   */
  function HistoryImage(ws: seq<Webcam>, storagePath: string, dirs: map<string, seq<Entry>>, p: Trie.PathParams)
    : (r: Result<Bytes, MainRouter.Error>)
    ensures r.Err? ==> r.error.StatusError? && r.error.code == NotFound
    ensures r.Ok? <==> FindWebcam(ws, Param(p, "id")).Ok? &&
                       ReadFile(dirs, PathJoin(storagePath, Param(p, "id")), Param(p, "name")).Some?
    ensures r.Ok? ==> ReadFile(dirs, PathJoin(storagePath, Param(p, "id")), Param(p, "name")) == Some(r.value)
  {
    match FindWebcam(ws, Param(p, "id"))
    case Err(e) => Err(e)
    case Ok(_) =>
      match ReadFile(dirs, PathJoin(storagePath, Param(p, "id")), Param(p, "name"))
      case None =>
        var path := HistoryPath(storagePath, p);
        Err(MainRouter.StatusError(NotFound, "Unable to read file " + path + " : open " + path + ": no such file or directory"))
      case Some(image) => Ok(image)
  }

  /**
   * An image the crawler stored is listed by the history of its webcam, asked for by the
   * decimal form of its id, exactly when the crawl's own cleanup kept it.
   */
  lemma CrawledImageListed(ws: seq<Webcam>, k: nat, storagePath: string, dirs: map<string, seq<Entry>>,
                           data: Bytes, now: Time, later: Time)
    requires k < |ws| && InInt64(ws[k].id) && forall j :: 0 <= j < k ==> ws[j].id != ws[k].id
    requires ValidTime(now) && 0 <= now.year <= 9999
    requires now.offset % 60 == 0 && -25 * 3600 < now.offset < 25 * 3600
    ensures var stored := CrawlEffect(dirs, storagePath, ws[k], Some(data), now, true, later);
            var h := History(ws, storagePath, stored, map["id" := Itoa(ws[k].id)]);
            h.Ok? && (ImageName(now) in h.value <==> Sub(later, Truncate(now)) <= MaxAge(ws[k]))
  {
    var w := ws[k];
    var stored := CrawlEffect(dirs, storagePath, w, Some(data), now, true, later);
    var p := map["id" := Itoa(w.id)];
    FindByItoa(ws, k);
    assert Param(p, "id") == Itoa(w.id);
    CrawlKeepsImageIff(dirs, storagePath, w, data, now, later);
    LookupListed(stored[ImageDir(storagePath, w.id)], ImageName(now));
  }

  /**
   * An image the crawler stored is served by `sendHistWebcam` under its name while the
   * crawl's own cleanup kept it; otherwise the answer is a 404.
   */
  lemma CrawledImageServed(ws: seq<Webcam>, k: nat, storagePath: string, dirs: map<string, seq<Entry>>,
                           data: Bytes, now: Time, later: Time)
    requires k < |ws| && InInt64(ws[k].id) && forall j :: 0 <= j < k ==> ws[j].id != ws[k].id
    requires ValidTime(now) && 0 <= now.year <= 9999
    requires now.offset % 60 == 0 && -25 * 3600 < now.offset < 25 * 3600
    ensures var stored := CrawlEffect(dirs, storagePath, ws[k], Some(data), now, true, later);
            var r := HistoryImage(ws, storagePath, stored, map["id" := Itoa(ws[k].id), "name" := ImageName(now)]);
            if Sub(later, Truncate(now)) <= MaxAge(ws[k]) then r == Ok(data) else r.Err? && r.error.code == NotFound
  {
    var w := ws[k];
    var p := map["id" := Itoa(w.id), "name" := ImageName(now)];
    FindByItoa(ws, k);
    assert Param(p, "id") == Itoa(w.id) && Param(p, "name") == ImageName(now);
    CrawlKeepsImageIff(dirs, storagePath, w, data, now, later);
  }

  /**
   * `getWebcam` accepts `05` for webcam 5, but `sendHist` then reads the directory `05`
   * while the crawler writes to `5`: the history asked for that way is empty.
   */
  lemma LeadingZeroHistory(ws: seq<Webcam>, k: nat, storagePath: string, dirs: map<string, seq<Entry>>)
    requires k < |ws| && ws[k].id == 5 && forall j :: 0 <= j < k ==> ws[j].id != 5
    requires PathJoin(storagePath, "05") !in dirs
    ensures FindWebcam(ws, "05") == FindWebcam(ws, "5") == Ok(ws[k])
    ensures ImageDir(storagePath, 5) == PathJoin(storagePath, "5") != PathJoin(storagePath, "05")
    ensures History(ws, storagePath, dirs, map["id" := "05"]) == Ok([])
  {
    AtoiAcceptsLeadingZeros();
    FirstIndexAt(ws, 5, k);
    var p := map["id" := "05"];
    assert Param(p, "id") == "05";
    if storagePath != "" {
      assert (storagePath + "/" + "5")[|storagePath| + 1] == '5';
      assert (storagePath + "/" + "05")[|storagePath| + 1] == '0';
    }
  }

  /** The route table of `GetRoutes`, each handler known by its method's name. */
  function Routes(): seq<Trie.Route<MainRouter.Handler>> {
    [Trie.Route("GET", "/", MainRouter.Handler("sendWebcamList")),
     Trie.Route("GET", "/:id", MainRouter.Handler("sendWebcam")),
     Trie.Route("GET", "/:id/hist", MainRouter.Handler("sendHist")),
     Trie.Route("GET", "/:id/hist/:name", MainRouter.Handler("sendHistWebcam"))]
  }

  class WebcamController {
    var webcams: seq<Webcam>
    const storagePath: string

    /** A controller with the given storage path and, as a zero value has, no webcams. */
    constructor (storagePath: string)
      ensures webcams == [] && this.storagePath == storagePath
    {
      webcams := [];
      this.storagePath := storagePath;
    }

    /** `SetWebcams`: the list the controller answers with is replaced. */
    method SetWebcams(webcams: seq<Webcam>)
      modifies this
      ensures this.webcams == webcams
    {
      this.webcams := webcams;
    }

    /** `GetRoutes`. */
    method GetRoutes() returns (routes: seq<Trie.Route<MainRouter.Handler>>)
      ensures routes == Routes()
    {
      routes := Routes();
    }

    /** `getWebcam`: the linear search over the list. */
    method GetWebcam(id: string) returns (r: Result<Webcam, MainRouter.Error>)
      ensures r == FindWebcam(webcams, id)
    {
      var n := Atoi(id);
      if n.None? {
        return Err(MainRouter.StatusError(NotFound, "Cuuld not convert " + id + " to webcam id"));
      }
      var i := 0;
      while i < |webcams|
        invariant 0 <= i <= |webcams|
        invariant forall j :: 0 <= j < i ==> webcams[j].id != n.value
      {
        if webcams[i].id == n.value {
          FirstIndexAt(webcams, n.value, i);
          return Ok(webcams[i]);
        }
        i := i + 1;
      }
      FirstIndexAt(webcams, n.value, i);
      return Err(MainRouter.StatusError(NotFound, "Could not find webcam with id " + id));
    }

    /** `sendWebcamList`: the whole list, and never an error. */
    method SendWebcamList() returns (list: seq<Webcam>, err: Option<MainRouter.Error>)
      ensures list == webcams && err.None?
    {
      return webcams, None;
    }

    /** `sendWebcam`, with `fetched` what fetching the webcam's URL gives. */
    method SendWebcam(p: Trie.PathParams, fetched: Result<Bytes, string>) returns (r: Result<Bytes, MainRouter.Error>)
      ensures r == WebcamImage(webcams, p, fetched)
    {
      var found := GetWebcam(Param(p, "id"));
      if found.Err? {
        return Err(found.error);
      }
      if fetched.Err? {
        return Err(MainRouter.StatusError(BadGateway, fetched.error));
      }
      return Ok(fetched.value);
    }

    /** `sendHist`: the directory's names are appended to the list one by one. */
    method SendHist(p: Trie.PathParams, disk: Disk) returns (r: Result<seq<string>, MainRouter.Error>)
      ensures r == History(webcams, storagePath, disk.dirs, p)
    {
      var hist: seq<string> := [];
      var found := GetWebcam(Param(p, "id"));
      if found.Err? {
        return Err(found.error);
      }
      var path := PathJoin(storagePath, Param(p, "id"));
      if path !in disk.dirs {
        return Ok(hist);
      }
      var files := disk.dirs[path];
      var i := 0;
      while i < |files|
        invariant 0 <= i <= |files|
        invariant hist == Names(files[..i])
      {
        hist := hist + [files[i].name];
        i := i + 1;
      }
      assert files[..i] == files;
      return Ok(hist);
    }

    /** `sendHistWebcam`. */
    method SendHistWebcam(p: Trie.PathParams, disk: Disk) returns (r: Result<Bytes, MainRouter.Error>)
      ensures r == HistoryImage(webcams, storagePath, disk.dirs, p)
    {
      var found := GetWebcam(Param(p, "id"));
      if found.Err? {
        return Err(found.error);
      }
      var path := HistoryPath(storagePath, p);
      var image := ReadFile(disk.dirs, PathJoin(storagePath, Param(p, "id")), Param(p, "name"));
      if image.None? {
        return Err(MainRouter.StatusError(NotFound, "Unable to read file " + path + " : open " + path + ": no such file or directory"));
      }
      return Ok(image.value);
    }
  }
}
