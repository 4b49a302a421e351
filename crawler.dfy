/**
 * The crawler (crawler.go): one ticker per webcam whose crawl interval is positive; each
 * tick fetches the webcam's image, stores it under the instant of the crawl written in
 * RFC 3339, and then deletes every image of that webcam older than its maximum age.
 */
module Crawling {
  import opened Wrappers
  import opened GoStrings
  import opened GoStrconv
  import opened GoTime
  import opened Webcams
  import opened FileSystem

  // ---------------------------------------------------------------------------------
  // Image names
  // ---------------------------------------------------------------------------------

  /** The directory of a webcam's images: the storage path joined with its id in decimal. */
  function ImageDir(storagePath: string, id: int): string {
    PathJoin(storagePath, Itoa(id))
  }

  /**
   * The name `crawl` gives the image fetched at `now`: its RFC 3339 text, which holds no
   * dot and no slash, then `.jpg`; so it names a file directly inside the webcam's directory.
   */
  function ImageName(now: Time): (r: string)
    ensures |r| > 4 && r[|r| - 4..] == ".jpg"
    ensures Free(r[..|r| - 4], '.') && Free(r, '/')
  {
    FormatAvoids(now, '.');
    FormatAvoids(now, '/');
    assert (Format(now) + ".jpg")[..|Format(now) + ".jpg"| - 4] == Format(now);
    Format(now) + ".jpg"
  }

  /**
   * `timeFromName`: a name of exactly two dot-separated parts whose first part is an
   * RFC 3339 instant gives that instant; every other name is an error.
   */
  function TimeFromName(name: string): (r: Option<Time>)
    ensures r.Some? ==> ValidTime(r.value)
  {
    var parts := Split(name, '.');
    if |parts| != 2 then None else Parse(parts[0])
  }

  lemma FreeConcat(a: string, b: string, sep: char)
    requires Free(a, sep) && Free(b, sep)
    ensures Free(a + b, sep)
  {
    assert forall i :: 0 <= i < |b| ==> (a + b)[|a| + i] == b[i];
  }

  lemma AppendIntAvoids(x: int, width: nat, sep: char)
    requires !IsDigit(sep) && sep != '-'
    ensures Free(AppendInt(x, width), sep)
  {
  }

  /**
   * The RFC 3339 text of an instant holds digits, `-`, `+`, `:`, `T` and `Z` only, so
   * never a dot nor a slash.
   */
  lemma FormatAvoids(t: Time, sep: char)
    requires !IsDigit(sep) && sep !in "-+:TZ"
    ensures Free(Format(t), sep)
  {
    AppendIntAvoids(t.year, 4, sep);
    AppendIntAvoids(t.month, 2, sep);
    AppendIntAvoids(t.day, 2, sep);
    AppendIntAvoids(t.hour, 2, sep);
    AppendIntAvoids(t.minute, 2, sep);
    AppendIntAvoids(t.second, 2, sep);
    var zone := ZoneText(t.offset);
    if t.offset != 0 {
      var z := TruncDiv(t.offset, 60);
      var minutes := if z < 0 then -z else z;
      AppendIntAvoids(minutes / 60, 2, sep);
      AppendIntAvoids(minutes % 60, 2, sep);
      var sign := if z < 0 then "-" else "+";
      FreeConcat(sign, AppendInt(minutes / 60, 2), sep);
      FreeConcat(sign + AppendInt(minutes / 60, 2), ":", sep);
      FreeConcat(sign + AppendInt(minutes / 60, 2) + ":", AppendInt(minutes % 60, 2), sep);
    }
    assert Free(zone, sep);
    FreeConcat(":", AppendInt(t.second, 2), sep);
    FreeConcat(":" + AppendInt(t.second, 2), zone, sep);
    var c1 := ":" + AppendInt(t.second, 2) + zone;
    FreeConcat(":", AppendInt(t.minute, 2), sep);
    FreeConcat(":" + AppendInt(t.minute, 2), c1, sep);
    var c2 := ":" + AppendInt(t.minute, 2) + c1;
    FreeConcat("T", AppendInt(t.hour, 2), sep);
    FreeConcat("T" + AppendInt(t.hour, 2), c2, sep);
    var clock := ClockText(t.hour, t.minute, t.second, t.offset);
    assert clock == "T" + AppendInt(t.hour, 2) + c2;
    FreeConcat("-", AppendInt(t.day, 2), sep);
    FreeConcat("-" + AppendInt(t.day, 2), clock, sep);
    var d1 := "-" + AppendInt(t.day, 2) + clock;
    FreeConcat("-", AppendInt(t.month, 2), sep);
    FreeConcat("-" + AppendInt(t.month, 2), d1, sep);
    FreeConcat(AppendInt(t.year, 4), "-" + AppendInt(t.month, 2) + d1, sep);
  }

  /** A name of one stem and one extension, neither holding a dot, is read by its stem. */
  lemma TimeFromStem(stem: string, ext: string)
    requires Free(stem, '.') && Free(ext, '.')
    ensures TimeFromName(stem + "." + ext) == Parse(stem)
  {
    assert stem + "." + ext == stem + ['.'] + ext;
    SplitConcat(stem, ext, '.');
    SplitFree(stem, '.');
    SplitFree(ext, '.');
  }

  /** A name without a dot, or with two or more, is not an image name. */
  lemma TimeFromNameRejects(a: string, b: string, c: string)
    ensures Free(a, '.') ==> TimeFromName(a) == None
    ensures TimeFromName(a + "." + b + "." + c) == None
  {
    if Free(a, '.') {
      SplitFree(a, '.');
    }
    assert a + "." + b + "." + c == a + ['.'] + (b + ['.'] + c);
    SplitConcat(a, b + ['.'] + c, '.');
    SplitConcat(b, c, '.');
  }

  /**
   * The name of an image gives back the instant it was fetched at, to the second: the
   * RFC 3339 layout has no fraction of a second. Years outside 0..9999 and zones with
   * seconds do not survive the layout.
   */
  lemma ImageNameRoundTrip(t: Time)
    requires ValidTime(t) && 0 <= t.year <= 9999
    requires t.offset % 60 == 0 && -25 * 3600 < t.offset < 25 * 3600
    ensures TimeFromName(ImageName(t)) == Some(Truncate(t))
  {
    var stem := Format(t);
    assert ImageName(t) == stem + "." + "jpg";
    FormatAvoids(t, '.');
    TimeFromStem(stem, "jpg");
    ParseFormat(t);
  }

  // ---------------------------------------------------------------------------------
  // Cleanup
  // ---------------------------------------------------------------------------------

  /**
   * Whether `cleanupDir` removes the file called `name`: its name gives an instant more
   * than `maxAge` before `now`. Files whose name gives no instant stay.
   */
  predicate Expired(name: string, maxAge: int, now: Time)
    ensures Expired(name, maxAge, now) ==> TimeFromName(name).Some? && Sub(now, TimeFromName(name).value) > maxAge
    ensures TimeFromName(name).Some? && Sub(now, TimeFromName(name).value) > maxAge ==> Expired(name, maxAge, now)
  {
    match TimeFromName(name)
    case Some(created) => Sub(now, created) > maxAge
    case None => false
  }

  /** The names `cleanupDir` removes, with the clock `now`. */
  function ExpiredAt(maxAge: int, now: Time): string -> bool {
    name => Expired(name, maxAge, now)
  }

  /** The entries `cleanupDir` leaves, in listing order. */
  function Kept(es: seq<Entry>, maxAge: int, now: Time): seq<Entry> {
    Without(es, ExpiredAt(maxAge, now))
  }

  /** What cleaning a directory does to the disk: nothing when the directory is missing. */
  function Cleaned(dirs: map<string, seq<Entry>>, dirname: string, maxAge: int, now: Time): map<string, seq<Entry>> {
    if dirname in dirs then dirs[dirname := Kept(dirs[dirname], maxAge, now)] else dirs
  }

  /**
   * `cleanupDir`: every file of the listing whose name gives an instant more than
   * `maxAge` before `now` is removed; a directory that cannot be read is left as it is.
   */
  method CleanupDir(disk: Disk, dirname: string, maxAge: int, now: Time)
    requires disk.Valid()
    modifies disk
    ensures disk.Valid()
    ensures disk.dirs == Cleaned(old(disk.dirs), dirname, maxAge, now)
  {
    if dirname !in disk.dirs {
      return;
    }
    Sweep(disk, dirname, ExpiredAt(maxAge, now));
  }

  /**
   * The loop of `cleanupDir`, for any test of expiry: the listing is read once and its
   * files are visited in order, each one removed when `expired` holds of its name.
   */
  method Sweep(disk: Disk, dirname: string, expired: string -> bool)
    requires disk.Valid() && dirname in disk.dirs
    modifies disk
    ensures disk.Valid()
    ensures disk.dirs == old(disk.dirs)[dirname := Without(old(disk.dirs)[dirname], expired)]
  {
    var es := disk.dirs[dirname];
    var files := Names(es);
    var i := 0;
    assert Without(es[..0], expired) + es[0..] == es;
    assert old(disk.dirs)[dirname := es] == old(disk.dirs);
    while i < |files|
      invariant 0 <= i <= |files|
      invariant disk.Valid()
      invariant disk.dirs == old(disk.dirs)[dirname := Without(es[..i], expired) + es[i..]]
    {
      RemoveIfExpired(disk, dirname, es, i, files[i], expired);
      i := i + 1;
    }
    assert es[..i] == es && es[i..] == [];
    assert Without(es, expired) + [] == Without(es, expired);
  }

  /** One turn of `cleanupDir`'s loop: the `i`-th file of the listing goes when it has expired. */
  method RemoveIfExpired(disk: Disk, dirname: string, es: seq<Entry>, i: nat, name: string, expired: string -> bool)
    requires disk.Valid() && Sorted(es) && i < |es| && name == es[i].name
    requires dirname in disk.dirs && disk.dirs[dirname] == Without(es[..i], expired) + es[i..]
    modifies disk
    ensures disk.Valid()
    ensures disk.dirs == old(disk.dirs)[dirname := Without(es[..i + 1], expired) + es[i + 1..]]
  {
    FilterStep(es, i, expired);
    if expired(name) {
      disk.Remove(dirname, name);
    } else {
      assert old(disk.dirs)[dirname := Without(es[..i + 1], expired) + es[i + 1..]] == old(disk.dirs);
    }
  }

  // ---------------------------------------------------------------------------------
  // One crawl
  // ---------------------------------------------------------------------------------

  /** How a crawl ended. */
  datatype CrawlOutcome = FetchFailed | WriteFailed | Stored

  /** A crawl stops at the first step that fails: the fetch, then the write. */
  function OutcomeOf(image: Option<Bytes>, writeOk: bool): CrawlOutcome {
    if image.None? then FetchFailed else if writeOk then Stored else WriteFailed
  }

  /**
   * The disk after `crawl(w)`: nothing happens when the image could not be fetched;
   * otherwise the webcam's directory is created, the image written under the name of
   * `now`, and, when the write succeeded, the directory cleaned by the clock `later`.
   */
  function CrawlEffect(dirs: map<string, seq<Entry>>, storagePath: string, w: Webcam, image: Option<Bytes>,
                       now: Time, writeOk: bool, later: Time): (r: map<string, seq<Entry>>)
    ensures image.None? ==> r == dirs
    ensures r.Keys == dirs.Keys + (if image.Some? then {ImageDir(storagePath, w.id)} else {})
    ensures forall d :: d in dirs && d != ImageDir(storagePath, w.id) ==> r[d] == dirs[d]
    ensures image.Some? && !writeOk ==> r == WithDir(dirs, ImageDir(storagePath, w.id))
  {
    match image
    case None => dirs
    case Some(data) =>
      var dir := ImageDir(storagePath, w.id);
      var made := WithDir(dirs, dir);
      if !writeOk then made
      else made[dir := Kept(Put(made[dir], ImageName(now), data), MaxAge(w), later)]
  }

  /**
   * A crawl whose write fails skips the cleanup: every file of every directory reads as
   * before, and the only trace of the crawl is the webcam's directory, now present.
   */
  lemma CrawlWriteFailedKeepsFiles(dirs: map<string, seq<Entry>>, storagePath: string, w: Webcam, data: Bytes,
                                   now: Time, later: Time, d: string, name: string)
    ensures var r := CrawlEffect(dirs, storagePath, w, Some(data), now, false, later);
            ReadFile(r, d, name) == ReadFile(dirs, d, name) && r.Keys == dirs.Keys + {ImageDir(storagePath, w.id)}
  {
  }

  /**
   * The image just fetched is still there after the crawl exactly when its name's
   * instant, which is `now` to the second, is at most the maximum age before `later`.
   */
  lemma CrawlKeepsImageIff(dirs: map<string, seq<Entry>>, storagePath: string, w: Webcam, data: Bytes,
                           now: Time, later: Time)
    requires ValidTime(now) && 0 <= now.year <= 9999
    requires now.offset % 60 == 0 && -25 * 3600 < now.offset < 25 * 3600
    ensures ReadFile(CrawlEffect(dirs, storagePath, w, Some(data), now, true, later),
                     ImageDir(storagePath, w.id), ImageName(now)) ==
      if Sub(later, Truncate(now)) > MaxAge(w) then None else Some(data)
  {
    var dir := ImageDir(storagePath, w.id);
    var put := Put(WithDir(dirs, dir)[dir], ImageName(now), data);
    ImageNameRoundTrip(now);
    WithoutLookup(put, ExpiredAt(MaxAge(w), later), ImageName(now));
    PutLookup(WithDir(dirs, dir)[dir], ImageName(now), data, ImageName(now));
  }

  /**
   * With one clock for the write and the cleanup, the image just fetched is deleted by
   * the same crawl whenever the fraction of its second exceeds the maximum age: with a
   * maximum age under a second, most images do not survive the crawl that stored them.
   */
  lemma FreshImageSurvivesIff(dirs: map<string, seq<Entry>>, storagePath: string, w: Webcam, data: Bytes, now: Time)
    requires ValidTime(now) && 0 <= now.year <= 9999
    requires now.offset % 60 == 0 && -25 * 3600 < now.offset < 25 * 3600
    ensures ReadFile(CrawlEffect(dirs, storagePath, w, Some(data), now, true, now),
                     ImageDir(storagePath, w.id), ImageName(now)) ==
      if now.nanosecond > MaxAge(w) then None else Some(data)
  {
    CrawlKeepsImageIff(dirs, storagePath, w, data, now, now);
    SubTruncated(now);
  }

  /**
   * Every other file of the webcam's directory is removed by a successful crawl exactly
   * when it is expired; the files of other directories are untouched.
   */
  lemma CrawlCleansOthers(dirs: map<string, seq<Entry>>, storagePath: string, w: Webcam, data: Bytes,
                          now: Time, later: Time, name: string)
    requires name != ImageName(now)
    ensures ReadFile(CrawlEffect(dirs, storagePath, w, Some(data), now, true, later),
                     ImageDir(storagePath, w.id), name) ==
      if Expired(name, MaxAge(w), later) then None else ReadFile(dirs, ImageDir(storagePath, w.id), name)
  {
    var dir := ImageDir(storagePath, w.id);
    var put := Put(WithDir(dirs, dir)[dir], ImageName(now), data);
    WithoutLookup(put, ExpiredAt(MaxAge(w), later), name);
    PutLookup(WithDir(dirs, dir)[dir], ImageName(now), data, name);
  }

  /**
   * Two crawls within the same second write the same name: the image of the second crawl
   * replaces the image of the first, whatever the first crawl left.
   */
  lemma SameSecondOverwrites(dirs: map<string, seq<Entry>>, storagePath: string, w: Webcam, a: Bytes, b: Bytes,
                             now: Time, next: Time, later: Time)
    requires next == now.(nanosecond := next.nanosecond)
    requires ValidTime(next) && 0 <= next.year <= 9999
    requires next.offset % 60 == 0 && -25 * 3600 < next.offset < 25 * 3600
    ensures ImageName(next) == ImageName(now)
    ensures var first := CrawlEffect(dirs, storagePath, w, Some(a), now, true, now);
      ReadFile(CrawlEffect(first, storagePath, w, Some(b), next, true, later), ImageDir(storagePath, w.id), ImageName(now)) ==
        if Sub(later, Truncate(now)) > MaxAge(w) then None else Some(b)
  {
    var first := CrawlEffect(dirs, storagePath, w, Some(a), now, true, now);
    CrawlKeepsImageIff(first, storagePath, w, b, next, later);
    assert Truncate(next) == Truncate(now);
  }

  // ---------------------------------------------------------------------------------
  // The crawler
  // ---------------------------------------------------------------------------------

  /** Whether `scheduleCrawl` starts a ticker for a webcam: its crawl interval is positive. */
  function Crawled(): Webcam -> bool {
    w => CrawlInterval(w) > 0
  }

  /** The webcams `Start` schedules, in list order: those with a positive crawl interval. */
  function Enabled(ws: seq<Webcam>): seq<Webcam>
    decreases |ws|
  {
    if |ws| == 0 then []
    else
      var last := ws[|ws| - 1];
      Enabled(ws[..|ws| - 1]) + (if Crawled()(last) then [last] else [])
  }

  /** The webcams scheduled are exactly those of the list with a positive crawl interval. */
  lemma {:induction false} EnabledMembers(ws: seq<Webcam>, w: Webcam)
    ensures w in Enabled(ws) <==> w in ws && CrawlInterval(w) > 0
    decreases |ws|
  {
    if |ws| > 0 {
      var init, last := ws[..|ws| - 1], ws[|ws| - 1];
      EnabledMembers(init, w);
      assert ws == init + [last];
    }
  }

  /** A `chan struct{}` used only to be closed. */
  class StopChannel {
    var closed: bool

    constructor ()
      ensures !closed
    {
      closed := false;
    }
  }

  class Crawler {
    const webcams: seq<Webcam>
    const storagePath: string
    var stopChans: seq<StopChannel>
    /** The webcam each stop channel's ticker crawls. */
    ghost var scheduled: seq<Webcam>

    ghost predicate Valid()
      reads this
    {
      |stopChans| == |scheduled| &&
      forall i, j :: 0 <= i < j < |stopChans| ==> stopChans[i] != stopChans[j]
    }

    /** `NewCralwer`: nothing scheduled yet. */
    constructor New(webcams: seq<Webcam>, storagePath: string)
      ensures Valid()
      ensures this.webcams == webcams && this.storagePath == storagePath
      ensures stopChans == [] && scheduled == []
    {
      this.webcams := webcams;
      this.storagePath := storagePath;
      stopChans := [];
      scheduled := [];
    }

    /**
     * `scheduleCrawl`: a webcam with a positive crawl interval gets a new open stop
     * channel, and a ticker crawling it; any other is left alone.
     */
    method ScheduleCrawl(w: Webcam)
      requires Valid()
      modifies this
      ensures Valid()
      ensures scheduled == old(scheduled) + (if Crawled()(w) then [w] else [])
      ensures stopChans[..|old(stopChans)|] == old(stopChans)
      ensures forall i :: |old(stopChans)| <= i < |stopChans| ==> fresh(stopChans[i]) && !stopChans[i].closed
    {
      if CrawlInterval(w) <= 0 {
        return;
      }
      var stopChan := new StopChannel();
      stopChans := stopChans + [stopChan];
      scheduled := scheduled + [w];
    }

    /** `Start`: one stop channel for each webcam with a positive crawl interval, in list order. */
    method Start()
      requires Valid()
      modifies this
      ensures Valid()
      ensures scheduled == old(scheduled) + Enabled(webcams)
      ensures stopChans[..|old(stopChans)|] == old(stopChans)
      ensures forall i :: |old(stopChans)| <= i < |stopChans| ==> fresh(stopChans[i]) && !stopChans[i].closed
    {
      var i := 0;
      while i < |webcams|
        invariant 0 <= i <= |webcams|
        invariant Valid()
        invariant scheduled == old(scheduled) + Enabled(webcams[..i])
        invariant |old(stopChans)| <= |stopChans| && stopChans[..|old(stopChans)|] == old(stopChans)
        invariant forall k :: |old(stopChans)| <= k < |stopChans| ==> fresh(stopChans[k]) && !stopChans[k].closed
      {
        assert webcams[..i + 1][..i] == webcams[..i];
        ghost var before := stopChans;
        ScheduleCrawl(webcams[i]);
        assert forall k :: 0 <= k < |before| ==> stopChans[k] == before[k];
        i := i + 1;
      }
      assert webcams[..i] == webcams;
    }

    /**
     * One turn of the `select` in the goroutine of the `k`th scheduled webcam `w`, with a
     * tick of its ticker ready. While the stop channel is open only the tick case is ready,
     * and the goroutine crawls. Once the channel is closed both cases are ready, and Go
     * picks one at random: `stopChosen` is that choice. On the stop case the goroutine
     * returns and changes nothing; on the tick case it crawls once more, after `Stop`.
     * A goroutine that has returned takes no further turn.
     */
    method Tick(k: nat, w: Webcam, image: Option<Bytes>, now: Time, writeOk: bool, later: Time, stopChosen: bool, disk: Disk)
      returns (outcome: Option<CrawlOutcome>)
      requires Valid() && k < |stopChans| && scheduled[k] == w && disk.Valid()
      modifies disk
      ensures disk.Valid()
      ensures stopChans[k].closed && stopChosen ==> outcome == None && disk.dirs == old(disk.dirs)
      ensures !stopChans[k].closed || !stopChosen ==>
        (outcome == Some(OutcomeOf(image, writeOk)) && disk.dirs == CrawlEffect(old(disk.dirs), storagePath, w, image, now, writeOk, later))
    {
      if stopChans[k].closed && stopChosen {
        return None;
      }
      var o := Crawl(w, image, now, writeOk, later, disk);
      return Some(o);
    }

    /**
     * `crawl(w)`: `image` is what fetching the webcam's URL gave, `now` the clock when the
     * image is named, `writeOk` whether the device accepts the write, and `later` the
     * clock the cleanup compares against.
     */
    method Crawl(w: Webcam, image: Option<Bytes>, now: Time, writeOk: bool, later: Time, disk: Disk)
      returns (outcome: CrawlOutcome)
      requires disk.Valid()
      modifies disk
      ensures disk.Valid()
      ensures disk.dirs == CrawlEffect(old(disk.dirs), storagePath, w, image, now, writeOk, later)
      ensures outcome == OutcomeOf(image, writeOk)
      ensures outcome == FetchFailed ==> disk.dirs == old(disk.dirs)
      ensures outcome == WriteFailed ==> disk.dirs == WithDir(old(disk.dirs), ImageDir(storagePath, w.id))
    {
      if image.None? {
        return FetchFailed;
      }
      var dirname := ImageDir(storagePath, w.id);
      disk.MkdirAll(dirname);
      ghost var made := disk.dirs;
      assert made == WithDir(old(disk.dirs), dirname) && dirname in made;
      var filename := ImageName(now);
      var failed := disk.WriteFile(dirname, filename, image.value, writeOk);
      if failed {
        return WriteFailed;
      }
      ghost var written := disk.dirs;
      assert written == made[dirname := Put(made[dirname], filename, image.value)];
      CleanupDir(disk, dirname, MaxAge(w), later);
      assert disk.dirs == made[dirname := Kept(Put(made[dirname], filename, image.value), MaxAge(w), later)];
      return Stored;
    }

    /** `Stop`: every stop channel is closed; closing one twice would panic. */
    method Stop()
      requires Valid()
      requires forall i :: 0 <= i < |stopChans| ==> !stopChans[i].closed
      modifies set i | 0 <= i < |stopChans| :: stopChans[i]
      ensures forall i :: 0 <= i < |stopChans| ==> stopChans[i].closed
    {
      var i := 0;
      while i < |stopChans|
        invariant 0 <= i <= |stopChans|
        invariant forall k :: 0 <= k < i ==> stopChans[k].closed
        invariant forall k :: i <= k < |stopChans| ==> !stopChans[k].closed
      {
        stopChans[i].closed := true;
        i := i + 1;
      }
    }
  }

  /** The two webcams of TestCrawler. */
  const LesPaccots := Webcam(1, "Les Paccots", "", "3ms", "5ms")
  const LaFouly := Webcam(2, "La Fouly", "", "0", "5ms")

  /** TestCrawler's first webcam is crawled every 3ms, its second never. */
  lemma TestCrawlerSchedule()
    ensures CrawlInterval(LesPaccots) == 3 * Millisecond && CrawlInterval(LaFouly) == 0
    ensures Enabled([LesPaccots, LaFouly]) == [LesPaccots]
  {
    assert NatString(3) + "ms" == "3ms";
    UnitTable();
    WithUnit(3, "ms", Millisecond);
    Unparseable();
    var ws := [LesPaccots, LaFouly];
    assert ws[..1] == [LesPaccots] && [LesPaccots][..0] == [];
    assert Enabled([]) + [LesPaccots] == [LesPaccots];
  }

  /** TestCrawler's webcams store their images in `test-storage/1` and `test-storage/2`. */
  lemma TestCrawlerDirs()
    ensures ImageDir("test-storage", LesPaccots.id) == "test-storage/1"
    ensures ImageDir("test-storage", LaFouly.id) == "test-storage/2"
  {
    assert Itoa(1) == "1" && Itoa(2) == "2";
  }

  /** `NewCrawler` followed by `Start`: one open stop channel per enabled webcam. */
  method StartedCrawler(ws: seq<Webcam>, storagePath: string) returns (c: Crawler)
    ensures fresh(c) && c.Valid() && c.storagePath == storagePath
    ensures c.scheduled == Enabled(ws) && |c.stopChans| == |Enabled(ws)|
    ensures forall i :: 0 <= i < |c.stopChans| ==> fresh(c.stopChans[i]) && !c.stopChans[i].closed
  {
    c := new Crawler.New(ws, storagePath);
    c.Start();
  }

  /**
   * Two webcams of which only the first is enabled: only the first is scheduled; its
   * ticker stores an image, and after `Stop` a turn that takes the stop case crawls
   * nothing; the directory of the second webcam is never created.
   */
  method TwoWebcamsScenario(w1: Webcam, w2: Webcam, storagePath: string, disk: Disk, image: Bytes, now: Time)
    requires Enabled([w1, w2]) == [w1]
    requires ImageDir(storagePath, w1.id) != ImageDir(storagePath, w2.id)
    requires disk.Valid() && ImageDir(storagePath, w2.id) !in disk.dirs
    modifies disk
    ensures ImageDir(storagePath, w1.id) in disk.dirs && ImageDir(storagePath, w2.id) !in disk.dirs
  {
    var c := StartedCrawler([w1, w2], storagePath);
    assert c.scheduled == [w1];
    ghost var before := disk.dirs;
    var o := c.Tick(0, w1, Some(image), now, true, now, false, disk);
    ghost var stored := disk.dirs;
    assert stored.Keys == before.Keys + {ImageDir(storagePath, w1.id)};
    assert ImageDir(storagePath, w1.id) in stored && ImageDir(storagePath, w2.id) !in stored;
    c.Stop();
    assert disk.dirs == stored && c.Valid() && c.scheduled[0] == w1;
    o := c.Tick(0, w1, Some(image), now, true, now, true, disk);
    assert o == None;
  }

  /**
   * `Stop` does not rule out one more crawl: with a tick still buffered in the ticker, the
   * `select` may take the tick case after the stop channel is closed and store an image.
   */
  method CrawlAfterStopScenario(w: Webcam, storagePath: string, disk: Disk, image: Bytes, now: Time)
    returns (outcome: Option<CrawlOutcome>)
    requires Enabled([w]) == [w]
    requires disk.Valid()
    modifies disk
    ensures outcome == Some(Stored) && ImageDir(storagePath, w.id) in disk.dirs
  {
    var c := StartedCrawler([w], storagePath);
    c.Stop();
    assert c.Valid() && c.scheduled[0] == w && c.stopChans[0].closed;
    outcome := c.Tick(0, w, Some(image), now, true, now, false, disk);
  }

  /** TestCrawler: the webcam crawled every "0" never gets a directory. */
  method CrawlerScenario(disk: Disk, image: Bytes, now: Time)
    requires disk.Valid() && "test-storage/2" !in disk.dirs
    modifies disk
    ensures "test-storage/1" in disk.dirs && "test-storage/2" !in disk.dirs
  {
    TestCrawlerSchedule();
    TestCrawlerDirs();
    TwoWebcamsScenario(LesPaccots, LaFouly, "test-storage", disk, image, now);
  }
}
