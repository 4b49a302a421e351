# webcam-crawler in Dafny

This project models the core of webcam-crawler, a Go service with two parts:

- A crawler. It fetches each configured webcam's image at that webcam's crawl interval. It stores the image under `<storage>/<id>/<RFC 3339 instant>.jpg` and deletes the images of that webcam older than its maximum age.
- An HTTP API. It lists the webcams, proxies a webcam's live image, and serves the stored history. A hand-written router dispatches each request through a trie of path segments.

The model has one module per part of the program:

| module | file | models |
|---|---|---|
| `Trie` | trie.dfy | The path trie of router/tree.go. router.go:122-216 is a verbatim copy of it, so both share this model. The tree is a class holding an arena of nodes, and child pointers are arena indices. `Insert`, `Match` and `Segments` are the value-level specifications of `addNode`, `traverse` and `splitPath`. The methods `AddNode`, `Traverse`, `FindNode`, `AddRoute` and `SplitPath` are proved against them. |
| `TrieProperties` | trie_properties.dfy | An independent, declarative reading of the search. A *walk* is a chain of children, each compatible with its segment. `traverse` returns the end of the *leftmost* walk and binds exactly that walk's parameter nodes. Properties of insertion. |
| `TrieScenarios` | trie_scenarios.dfy | The tries the router tests build, computed from the route lists, and where they lead. |
| `PackageRouter` | package_router.dfy | The `router` package (router/router.go). Handlers return nothing, and a stored handler may be `nil`. |
| `MainRouter` | main_router.dfy | The router of package `main` (router.go). Handlers return an error, which becomes the response status. |
| `Webcams` | webcams.dfy | `myParseDuration`, `CrawlInterval` and `MaxAge` (webcam.go). |
| `Crawling` | crawler.dfy | Image names, `timeFromName`, `cleanupDir`, `crawl`, and the stop-channel bookkeeping of `Start`, `scheduleCrawl` and `Stop` (crawler.go). |
| `WebcamControl` | webcam_controller.dfy | `getWebcam`, `GetRoutes` and the results of the four handlers (webcamController.go). |
| `WebcamRouting` | webcam_routing.dfy | The wiring of main.go: the controller mounted at `/webcam` under `defaultHandler`. It also follows a crawled image from the crawler to the HTTP answer. |
| `FileSystem` | file_system.dfy | The disk. It is a map from directory paths to entries, which are listed sorted by name as `ioutil.ReadDir` lists them. |
| `GoStrings`, `GoStrconv`, `GoTime`, `DurationProperties` | go_*.dfy, duration_properties.dfy | The parts of Go's standard library the core relies on. `strings.Split`, `strconv.Atoi` and `Itoa`. `time.Parse` and `Format` with the `RFC3339` layout (section 5.6 of RFC 3339). `Time.Sub`, and `time.ParseDuration` for integer-with-unit texts. |

Integers are the Go `int`/`time.Duration` widths where that matters:
- `time.Duration(v) * time.Second` wraps modulo 2^64 (`GoTime.Wrap64`).
- `Time.Sub` saturates at the int64 bounds (`GoTime.Clamp64`).
- `Atoi` rejects values outside int64.

The model follows the code, including where the code departs from the intended design:
- Insertion descends into an existing child only when the child's *stored* value equals the raw segment. The stored value of a parameter has its colon stripped. So registering `:id` twice creates a second parameter sibling, and a literal `id` descends into a parameter node named `id` (`TrieProperties.ReinsertParamAddsSibling`).
- `traverse` stops at the first node where the path runs out, whether or not that node has a handler for the method. It does not go on looking for a node that has one. So `GET /:name` shadows a later `POST /toto` (`TrieScenarios.ParamShadowsLiteralTrie`, `PackageRouter.ParamShadowsLiteralScenario`).
- "Path found, method missing" and "path not found" differ only in the message `getHandler` builds. Both go to the default handler with empty parameters, and neither is a distinct outcome of `ServeHTTP`.
- `cleanupDir` does not stop when the directory cannot be read. It loops over an empty listing instead, which removes nothing, the same end state.
- `cleanupDir` calls `time.Now()` once per file. The model uses one clock, `later`, for the whole sweep.
- `Stop` closes the channels and returns. It does not wait for the goroutines.
- The crawler stores the instant to the second, because the `RFC3339` layout has no fraction. So the image a crawl has just written is deleted by that same crawl's cleanup whenever the fraction of its second exceeds the maximum age (`Crawling.FreshImageSurvivesIff`). With a 5 ms maximum age, almost every image is gone as soon as it is stored.
- `getWebcam` accepts `05` for webcam 5. `sendHist` then reads the directory `05`, while the crawler writes to `5` (`WebcamControl.LeadingZeroHistory`).

## Model

| member | source | states |
|---|---|---|
| GoStrings.Split | crawler.go:114 | `strings.Split` never returns an empty list |
| GoStrings.SplitPiecesAreFree | crawler.go:114 | no piece of a split contains the separator |
| GoStrings.JoinSplit | crawler.go:114 | joining the pieces with the separator gives back the input, so nothing is lost by splitting |
| GoStrings.SplitJoin | crawler.go:114 | splitting the join of separator-free pieces gives back those pieces |
| GoStrings.SplitFree | crawler.go:114-115 | a text without the separator splits into one part |
| GoStrings.SplitConcat | crawler.go:114-115 | a separator between two texts splits them apart |
| GoStrconv.Atoi | webcamController.go:105 | a successful `Atoi` came from a nonempty text and fits in int64 |
| GoStrconv.Itoa | crawler.go:76 | the text is nonempty, starts with `-` exactly for negative numbers, and is otherwise all decimal digits |
| GoStrconv.NatStringValue | crawler.go:76 | the decimal digits `Itoa` writes denote the number |
| GoStrconv.AtoiItoa | webcamController.go:105 | `Atoi(Itoa(n)) == n` for every int64 `n`, so a webcam's id read back from its directory name is that id |
| GoStrconv.AtoiAcceptsLeadingZeros | webcamController.go:105 | `Atoi` accepts `05` and `+5` as 5, while `Itoa(5)` is `5` |
| GoTime.Wrap64 | webcam.go:57 | the int64 product is the exact product when it fits, and otherwise congruent to it modulo 2^64 |
| GoTime.UnitTable | webcam.go:60 | the units of `time.ParseDuration` and their values in nanoseconds; other suffixes are not units |
| GoTime.ParseDuration | webcam.go:60 | a successful parse fits in int64 |
| DurationProperties.ParseDurationOfUnit | webcam.go:60-65 | `<n><unit>` parses to `n` times the unit whenever that fits in int64 |
| DurationProperties.ParseNegativeDurationOfUnit | webcam.go:60-65 | `-<n><unit>` parses to minus that, down to -2^63 |
| DurationProperties.ParseDurationSpecialCases | webcam.go:60-63 | `0` and `-0` parse to 0; the empty text, `hahaha` and a bare `10` are errors |
| GoTime.Parse | crawler.go:119 | a successful parse is a valid calendar instant with a four-digit year |
| GoTime.ParseFormat | crawler.go:80 | parsing the RFC 3339 text of an instant gives that instant truncated to the second, with its offset |
| GoTime.Format | crawler.go:80 | for a four-digit year, the text starts `yyyy-mm-dd` followed by `T` |
| GoTime.ZoneRoundTrip | crawler.go:80 | the zone text (`Z` or `±hh:mm`) of a whole-minute offset parses back to that offset |
| GoTime.Clamp64 | crawler.go:103 | the difference of two instants saturates at the int64 bounds |
| GoTime.Sub | crawler.go:103 | the age of a file always fits in a `time.Duration` |
| GoTime.EpochIsDayZero | crawler.go:103 | the day count `Sub` measures from starts at 1970-01-01 |
| GoTime.NextDayInMonth | crawler.go:103 | within a month, the next day is one day later |
| GoTime.NextMonth | crawler.go:103 | the 1st of a month is one day after the last day of the month before |
| GoTime.LeapDay | crawler.go:103 | the 1st of March is one day after the 28th of February, or the 29th in a leap year |
| GoTime.CycleYear | crawler.go:103 | from one March to the next there are 366 days when the February between is a leap one, otherwise 365 |
| GoTime.NextYear | crawler.go:103 | the 1st of January is one day after the 31st of December |
| GoTime.NextDateIsNextDay | crawler.go:103 | consecutive calendar dates have consecutive day numbers |
| GoTime.SubNextDate | crawler.go:103 | the same clock reading in the same zone one date later is exactly 86400 seconds later |
| GoTime.SubTruncated | crawler.go:103 | an instant is later than its own truncation to the second by exactly its nanoseconds |
| GoTime.SubIgnoresZone | crawler.go:103 | the same instant written in two zones a whole number of minutes apart, on the same date or across midnight, is zero apart whichever way it is subtracted |
| Webcams.MyParseDuration | webcam.go:54-66 | the result is always a valid `time.Duration` |
| Webcams.CrawlInterval | webcam.go:27-30 | the crawl interval is a valid `time.Duration`, and 0 when its text is neither an integer nor a duration |
| Webcams.MaxAge | webcam.go:32-35 | the maximum age is a valid `time.Duration`, and 0 when its text is neither an integer nor a duration |
| Webcams.WholeSeconds | webcam.go:55-58 | a whole number `n` means `n` seconds, wrapped to int64 when the product overflows |
| Webcams.SecondsWrapAround | webcam.go:57 | 9223372037 seconds overflows into a negative duration |
| Webcams.WithUnit | webcam.go:60-65 | a non-integer text `<n><unit>` gives `n` times the unit |
| Webcams.Unparseable | webcam.go:60-63 | `hahaha` and the empty text give 0, and `0` gives 0 through the integer branch |
| Webcams.DurationSettings | webcam_test.go:57-90 | `CrawlInterval` and `MaxAge` read their own fields: `10` gives 10 s, `3ms` gives 3 ms, `hahaha` gives 0 |
| FileSystem.Names | webcamController.go:80-82 | the listing holds each entry's name, in order |
| FileSystem.Lookup | webcamController.go:95 | a file is missing exactly when no entry has its name |
| FileSystem.LookupListed | webcamController.go:73-82 | a file can be read exactly when its name is in the listing |
| FileSystem.PutLookup | crawler.go:82 | a written file reads back as what was written, and other names are unaffected |
| FileSystem.PutSorted | crawler.go:82 | writing keeps the directory sorted by name |
| FileSystem.RemoveLookup | crawler.go:105 | a removed file is gone, and other names are unaffected |
| FileSystem.RemoveSorted | crawler.go:105 | removing keeps the directory sorted |
| FileSystem.RemoveAbsent | crawler.go:105 | removing a name that is not there changes nothing |
| FileSystem.WithoutLookup | crawler.go:97-110 | after the sweep, a name reads as missing if it was swept, and as before otherwise |
| FileSystem.WithoutSorted | crawler.go:97-110 | the sweep keeps the listing sorted |
| FileSystem.WithoutIdempotent | crawler.go:97-110 | sweeping twice with the same rule is sweeping once |
| FileSystem.FilterStep | crawler.go:97-110 | removing the next listed file that is swept (and keeping the next one that is not) advances the sweep by one entry |
| FileSystem.WithDir | crawler.go:77 | `MkdirAll` adds the directory, keeping every existing one and its files |
| FileSystem.Disk.MkdirAll | crawler.go:77 | the disk gains the directory, unchanged when it already exists |
| FileSystem.Disk.WriteFile | crawler.go:82-86 | the write fails exactly when the directory is missing or the device refuses; otherwise the file is created or replaced |
| FileSystem.Disk.Remove | crawler.go:105 | the file is removed from its directory; a missing directory is left alone |
| Crawling.TimeFromName | crawler.go:113-125 | a name that decodes gives a valid calendar instant |
| Crawling.TimeFromStem | crawler.go:114-124 | a name of exactly two dot-free parts decodes exactly when its stem parses as RFC 3339, to that instant |
| Crawling.TimeFromNameRejects | crawler.go:114-117 | a name without a dot, or with two or more dots, such as a fractional-second stem, is rejected |
| Crawling.FormatAvoids | crawler.go:80 | the RFC 3339 text of an instant holds no dot and no slash |
| Crawling.ImageName | crawler.go:79-80 | the name ends in `.jpg`, has no dot before it and no slash anywhere, so it names a file directly in the webcam's directory |
| Crawling.Expired | crawler.go:97-103 | a file is removed exactly when its name decodes to an instant and `later` is more than `maxAge` after it; `ExpiredAt` is this test as a function value |
| Crawling.ImageNameRoundTrip | crawler.go:80 | `timeFromName` of the name `crawl` writes at `now` is `now` truncated to the second |
| Crawling.CleanupDir | crawler.go:91-111 | the directory keeps exactly the files that are not expired, in order; an unreadable directory is left alone |
| Crawling.Sweep | crawler.go:97-110 | the loop over the listing leaves exactly the files whose names are not expired, in listing order, and no other directory changes |
| Crawling.CrawlEffect | crawler.go:69-89 | a failed fetch changes nothing; otherwise only the webcam's directory is created or changed; a failed write leaves the disk as `MkdirAll` made it, with no cleanup |
| Crawling.CrawlWriteFailedKeepsFiles | crawler.go:82-88 | when the write fails, every file of every directory reads as before and only the webcam's directory is added |
| Crawling.CrawlKeepsImageIff | crawler.go:79-88 | the image just written survives the crawl exactly when its second is at most the maximum age before the cleanup clock; an image exactly at the maximum age is kept |
| Crawling.FreshImageSurvivesIff | crawler.go:79-103 | with one clock for the write and the cleanup, the new image survives exactly when the fraction of its second is at most the maximum age |
| Crawling.CrawlCleansOthers | crawler.go:97-110 | every other file of the directory is removed exactly when its name decodes to an instant more than the maximum age ago; undecodable names stay |
| Crawling.SameSecondOverwrites | crawler.go:79-82 | two crawls in the same second write the same name, and the second image replaces the first |
| Crawling.EnabledMembers | crawler.go:45-49 | the webcams scheduled are exactly those with a positive crawl interval |
| Crawling.StopChannel.constructor | crawler.go:51 | a new stop channel is open |
| Crawling.Crawler.New | crawler.go:23-29 | a new crawler holds its webcams and storage path and has no stop channel |
| Crawling.Crawler.ScheduleCrawl | crawler.go:45-52 | one new open stop channel when the crawl interval is positive, and none otherwise; existing channels are kept |
| Crawling.Crawler.Start | crawler.go:32-36 | one new open stop channel per webcam with a positive crawl interval, in list order |
| Crawling.Crawler.Tick | crawler.go:56-65 | one turn of the goroutine's `select` with a tick ready: it crawls while the stop channel is open; once the channel is closed it changes nothing when the stop case is chosen, and crawls when the buffered tick is chosen |
| Crawling.CrawlAfterStopScenario | crawler.go:56-65 | after `Stop`, a turn that picks the buffered tick still stores an image |
| Crawling.Crawler.Crawl | crawler.go:69-89 | the disk becomes `CrawlEffect`: no write when the fetch fails, no cleanup when the write fails, the directory cleaned otherwise |
| Crawling.Crawler.Stop | crawler.go:39-43 | every stop channel is closed |
| Crawling.TestCrawlerSchedule | crawler_test.go:18-34 | of the two test webcams (`3ms` and `0`), only the first is scheduled |
| Crawling.TestCrawlerDirs | crawler_test.go:48-57 | the two test webcams store under `test-storage/1` and `test-storage/2` |
| Crawling.TwoWebcamsScenario | crawler_test.go:43-59 | starting both and crawling the scheduled one creates its directory and never the other's |
| Crawling.StartedCrawler | crawler.go:23-36 | a new crawler after `Start` holds one open, fresh stop channel per enabled webcam |
| Crawling.CrawlerScenario | crawler_test.go:12-62 | the test's crawler creates `test-storage/1` and not `test-storage/2` |
| Trie.NewNode | router/tree.go:32-45 | a new node has no children and no handlers; a segment starting with `:` makes a parameter node that stores the name without the colon |
| Trie.FirstMatch | router/tree.go:24-29 | the first child in insertion order whose stored value equals the raw segment, or none |
| Trie.Grow | router/tree.go:38-45 | a new node is appended as the last child; every other node is unchanged |
| Trie.Insert | router/tree.go:14-46 | insertion keeps the arena well formed and never removes a node |
| Trie.MountRoutes | router/router.go:40-47 | mounting keeps the arena well formed and never removes a node |
| Trie.Match | router/tree.go:48-70 | a match ends at a node of the tree |
| Trie.NonEmptyConcat | router/tree.go:90-101 | dropping empty pieces distributes over concatenation |
| Trie.SplitPath | router/tree.go:90-101 | the loop yields the non-empty `/`-separated pieces of the path, in order |
| Trie.Tree.constructor | router/tree.go:77-84 | `newTree`: a single root with an empty value, no children and no handlers |
| Trie.Tree.AddNode | router/tree.go:14-46 | the tree becomes `Insert` of the old one |
| Trie.Tree.Traverse | router/tree.go:48-70 | the result is `Match`; on failure the parameter map is left as it was |
| Trie.Tree.FindNode | router/tree.go:72-75 | `traverse(splitPath(path), {})` from the root; on failure, no parameters |
| Trie.Tree.AddRoute | router/tree.go:86-88 | the route is inserted from the root along its path's segments |
| TrieProperties.EmptyPathStops | router/tree.go:50-52 | an empty path ends at the node where the search stands, so `/` is the root |
| TrieProperties.MatchComplete | router/tree.go:55-66 | backtracking finds a node whenever some walk of compatible children covers the path |
| TrieProperties.MatchSound | router/tree.go:55-66 | every success is the end of the leftmost such walk |
| TrieProperties.SoundWalk | router/tree.go:48-70 | the result is the end of the leftmost walk, with the parameters bound along that walk only |
| TrieProperties.MatchFailsOnlyWithoutWalk | router/tree.go:55-69 | the search fails exactly when no walk covers the path |
| TrieProperties.LeftmostUnique | router/tree.go:55-66 | there is at most one leftmost walk, so the answer is determined |
| TrieProperties.LeftmostSearch | router/tree.go:48-70 | for the leftmost walk, the search returns its end and its bindings |
| TrieProperties.BindKeys | router/tree.go:58-66 | the returned map holds the keys given plus the names of the parameter nodes on the walk, and no others |
| TrieProperties.SegmentsAreComponents | router/tree.go:90-101 | every segment is nonempty and has no `/` |
| TrieProperties.NonEmptyKeeps | router/tree.go:94-98 | every kept piece is nonempty and was a piece of the split |
| TrieProperties.NonEmptyAll | router/tree.go:94-98 | no piece is dropped when none is empty |
| TrieProperties.RootPathHasNoSegments | router/tree.go:90-101 | `/` and the empty path have no segments |
| TrieProperties.SegmentsOfPathOf | router/tree.go:90-101 | the segments of `/a/b/...` are `a`, `b`, ... |
| TrieProperties.SegmentsOfMountedPath | router/router.go:44 | the segments of prefix plus route path are the prefix's followed by the route's |
| TrieProperties.InsertKeepsShape | router/tree.go:38-45 | insertion only appends children; no node changes its value or kind |
| TrieProperties.InsertSetsOneHandler | router/tree.go:15-19 | insertion sets one handler, for its method, at its target node; every other handler is unchanged |
| TrieProperties.InsertWalkAccepts | router/tree.go:14-46 | the nodes an inserted pattern passes through form a walk for every request that instantiates the pattern |
| TrieProperties.InsertedPatternResolves | router/tree.go:14-70 | a request instantiating an inserted pattern always finds some node |
| TrieProperties.ReinsertLiteralOverwrites | router/tree.go:15-29 | re-inserting a literal pattern for the same method replaces the handler: the last registration wins |
| TrieProperties.ReinsertParamAddsSibling | router/tree.go:24-36 | re-inserting `:id` appends a second parameter node `id` instead of reusing the first |
| TrieScenarios.MountLast | router/router.go:42-46 | mounting inserts the last route into the trie the others built |
| TrieScenarios.MountedPath | router/router.go:44 | the segments of a mounted route are the prefix's segments followed by the route's |
| TrieScenarios.RootPathTrie | router/router_test.go:37-57 | `GET /` mounted at `/` sits on the root; `/` finds the root and `/notfound` finds nothing |
| TrieScenarios.MountPathTrie | router/router_test.go:59-79 | `GET /` mounted at `/there` sits on node `there`, which `/there` finds |
| TrieScenarios.MountedControllerPathTrie | router/router_test.go:81-102 | with `/here` and `/` mounted at `/there`, `/there/here` finds the `here` node |
| TrieScenarios.PathParamsTrie | router/router_test.go:104-125 | `/toto` finds the `:name` node with `name = toto` |
| TrieScenarios.AmbiguousParamsTrie | router/router_test.go:127-148 | `/toto/titi` backtracks past `:name` and finds `special` with `special = titi` only |
| TrieScenarios.UnrelatedRouteTrie | router/router_test.go:194-208 | with only `/a` mounted, `/` finds the bare root |
| TrieScenarios.ParamShadowsLiteralTrie | router/tree.go:55-58 | `/toto` stops at the earlier `:name` node even though only the later `toto` node has a `POST` handler |
| TrieScenarios.ParamReregisteredTrie | router/tree.go:24-36 | `GET /:id` then `POST /:id` gives two sibling `id` nodes, and `/5` finds the first |
| PackageRouter.CallDefault | router/router.go:69-73 | the default handler is called with an empty map when it is set; otherwise nothing is called |
| PackageRouter.Dispatch | router/router.go:49-61 | a path with no node goes to the default handler; any other call is the non-`nil` handler of the node found, for the method, with that node's parameters |
| PackageRouter.DispatchFollowsLeftmostWalk | router/router.go:49-61 | the handler of the leftmost walk's end for the method is called with that walk's parameters when it is non-nil; otherwise the default handler is |
| PackageRouter.DispatchWithoutWalk | router/router.go:58-60 | an unmatched path goes to the default handler |
| PackageRouter.Router.New | router/router.go:32-37 | an empty tree and the given default handler |
| PackageRouter.Router.Zero | router/router.go:21-24 | the zero `Router`: no tree and no default handler |
| PackageRouter.Router.CreateRootIfNeeded | router/router.go:63-67 | a missing tree becomes an empty one; an existing tree is kept |
| PackageRouter.Router.Mount | router/router.go:40-47 | every route is inserted at prefix plus its path, in order |
| PackageRouter.Router.ServeHTTP | router/router.go:49-61 | the call is `Dispatch` of the request; the tree is unchanged |
| PackageRouter.Router.CallDefaultHandler | router/router.go:69-73 | the default handler with empty parameters, or no call |
| PackageRouter.RootPathScenario | router/router_test.go:37-57 | `GET /` calls the root handler |
| PackageRouter.MountPathScenario | router/router_test.go:59-79 | `GET /there` calls the handler mounted as `/` under `/there` |
| PackageRouter.MountedControllerPathScenario | router/router_test.go:81-102 | `GET /there/here` calls the `/here` handler |
| PackageRouter.PathParamsScenario | router/router_test.go:104-125 | `GET /toto` calls the `:name` handler with `name = toto` |
| PackageRouter.AmbiguousParamsScenario | router/router_test.go:127-148 | `GET /toto/titi` calls the `special` handler with `special = titi` |
| PackageRouter.DefaultHandlerScenario | router/router_test.go:150-170 | an unknown path calls the default handler |
| PackageRouter.NotFoundMethodScenario | router/router_test.go:172-192 | a known path with another method calls the default handler |
| PackageRouter.NotInitializedScenario | router/router_test.go:194-208 | a zero router mounts and serves without a default handler, calling nothing |
| PackageRouter.ParamShadowsLiteralScenario | router/tree.go:55-58 | `POST /toto` after `GET /:name` and `POST /toto` goes to the default handler |
| PackageRouter.ParamReregisteredScenario | router/tree.go:24-36 | `POST /5` after `GET /:id` and `POST /:id` goes to the default handler |
| MainRouter.ReplyFor | router.go:81-90 | no error leaves the response untouched; an `HTTPError` gives its own status; any other error gives 500 |
| MainRouter.CallDefault | router.go:113-120 | the default handler is called with empty parameters and its error becomes the reply, as `writeError` maps it; with no default handler, nothing is called and the response is untouched |
| MainRouter.GetHandlerSpec | router.go:100-111 | a handler is resolved exactly when a node is found and has a handler for the method; it is that handler, with the node's parameters |
| MainRouter.Serve | router.go:73-90 | nothing is called exactly when no handler resolves and there is no default handler, and then the response is untouched; a called handler's error becomes the reply |
| MainRouter.ServeFollowsLeftmostWalk | router.go:73-91 | the handler at the leftmost walk's end for the method answers with the walk's parameters; otherwise the default handler answers |
| MainRouter.ServeWithoutWalk | router.go:99-111 | an unmatched path goes to the default handler |
| MainRouter.ServeFound | router.go:102-104 | a found node with a handler for the method runs it, and its error becomes the reply |
| MainRouter.ServeDefault | router.go:74-77 | a missing node or a missing method runs the default handler |
| MainRouter.Router.New | router.go:56-61 | an empty tree and the given default handler, which may be `nil` |
| MainRouter.Router.Zero | router.go:23-27 | the zero `Router`: no tree and no default handler |
| MainRouter.Router.CreateRootIfNeeded | router.go:93-97 | a missing tree becomes an empty one; an existing tree is kept |
| MainRouter.Router.Mount | router.go:64-71 | every route is inserted at prefix plus its path, in order |
| MainRouter.Router.GetHandler | router.go:99-111 | the handler and parameters when node and method are found; otherwise an error naming the missing method, or the missing path |
| MainRouter.Router.ServeHTTP | router.go:73-91 | the call and the reply are `Serve` of the request; the tree is unchanged |
| MainRouter.Router.CallDefaultHandler | router.go:113-120 | the default handler's call and error, or no call and no error |
| MainRouter.RootPathServe | router_test.go:46-67 | `GET /` calls `hello` and leaves the response untouched |
| MainRouter.RootPathScenario | router_test.go:46-67 | the same, through the router's methods |
| MainRouter.MountPathServe | router_test.go:69-90 | `GET /there` calls the handler mounted as `/` under `/there` |
| MainRouter.MountPathScenario | router_test.go:69-90 | the same, through the router's methods |
| MainRouter.MountedControllerPathFound | router_test.go:92-114 | `/there/here` finds the `here` node, which holds `hello` for `GET` |
| MainRouter.MountedControllerPathServe | router_test.go:92-114 | `GET /there/here` calls `hello` |
| MainRouter.MountedControllerPathScenario | router_test.go:92-114 | the same, through the router's methods |
| MainRouter.PathParamsServe | router_test.go:116-138 | `GET /toto` calls `hello` with `name = toto` |
| MainRouter.PathParamsScenario | router_test.go:116-138 | the same, through the router's methods |
| MainRouter.AmbiguousParamsFound | router_test.go:140-162 | `/toto/titi` finds the `special` node with `special = titi` |
| MainRouter.AmbiguousParamsServe | router_test.go:140-162 | `GET /toto/titi` calls `hello` with `special = titi` and never the `:name` handler |
| MainRouter.AmbiguousParamsScenario | router_test.go:140-162 | the same, through the router's methods |
| MainRouter.DefaultHandlerServe | router_test.go:164-185 | `GET /notfound` calls the default handler with empty parameters |
| MainRouter.DefaultHandlerScenario | router_test.go:164-185 | the same, through the router's methods |
| MainRouter.NotFoundMethodServe | router_test.go:187-208 | `POST /` with only `GET /` registered calls the default handler |
| MainRouter.NotFoundMethodScenario | router_test.go:187-208 | the same, through the router's methods |
| MainRouter.NotInitializedScenario | router_test.go:210-227 | a zero router serves without a default handler: nothing is called and the response is untouched |
| MainRouter.NilDefaultScenario | router.go:56-61 | a router made with a `nil` default handler answers a miss as the zero router does: nothing is called and the response is untouched |
| MainRouter.HandlerHTTPErrorServe | router_test.go:229-246 | a handler returning a 404 `StatusError` yields a 404 reply |
| MainRouter.HandlerHTTPErrorScenario | router_test.go:229-246 | the same, through the router's methods |
| MainRouter.HandlerErrorServe | router_test.go:248-265 | a handler returning a plain error yields a 500 reply |
| MainRouter.HandlerErrorScenario | router_test.go:248-265 | the same, through the router's methods |
| WebcamControl.FirstIndex | webcamController.go:110-114 | the position of the first webcam with the id, or the list's length when none has it |
| WebcamControl.FirstIndexAt | webcamController.go:110-114 | any position with that id and none before it is the one found |
| WebcamControl.FindWebcam | webcamController.go:104-117 | a 404 `StatusError` on every failure; success exactly when the id is an integer some webcam has, giving the first such webcam |
| WebcamControl.FindByItoa | webcamController.go:110-114 | a webcam is found by the decimal form of its id when no earlier webcam shares it |
| WebcamControl.FindUnknown | webcamController.go:116 | an id no webcam has gives 404 `Could not find webcam with id …` |
| WebcamControl.FindNotANumber | webcamController.go:105-108 | a non-integer id gives 404 `Cuuld not convert … to webcam id` |
| WebcamControl.WebcamImage | webcamController.go:44-59 | the lookup's 404, then 502 with the fetch error when the fetch fails; otherwise the result is exactly the fetched image |
| WebcamControl.History | webcamController.go:61-86 | the lookup's 404 exactly when it fails; an empty list when the directory cannot be read; otherwise every entry name of the directory, in listing order |
| WebcamControl.HistoryImage | webcamController.go:88-102 | a 404 on every failure; an image exactly when the webcam exists and the file can be read, and then the result is exactly that file's contents |
| WebcamControl.CrawledImageListed | webcamController.go:72-85 | after a crawl, the history of the webcam lists the new image exactly when the cleanup kept it |
| WebcamControl.CrawledImageServed | webcamController.go:94-101 | after a crawl, the new image is served exactly when the cleanup kept it, and is a 404 otherwise |
| WebcamControl.LeadingZeroHistory | webcamController.go:68-78 | `05` finds webcam 5, but its history reads the directory `05`, which the crawler never writes, so it is empty |
| WebcamControl.WebcamController.constructor | webcamController.go:14-18 | a controller with its storage path and no webcams |
| WebcamControl.WebcamController.SetWebcams | webcamController.go:21-23 | the list of webcams is replaced |
| WebcamControl.WebcamController.GetRoutes | webcamController.go:26-33 | the four `GET` routes `/`, `/:id`, `/:id/hist` and `/:id/hist/:name`, in order |
| WebcamControl.WebcamController.GetWebcam | webcamController.go:104-117 | the linear search gives `FindWebcam` |
| WebcamControl.WebcamController.SendWebcamList | webcamController.go:35-42 | the webcams, and no error |
| WebcamControl.WebcamController.SendWebcam | webcamController.go:44-59 | the result is `WebcamImage` |
| WebcamControl.WebcamController.SendHist | webcamController.go:61-86 | the loop collects `History`: every listed name, in listing order |
| WebcamControl.WebcamController.SendHistWebcam | webcamController.go:88-102 | the result is `HistoryImage` |
| WebcamRouting.MountWebcams | main.go:36-37 | mounting the controller's routes at `/webcam` builds the eight-node trie `WebcamTrie` |
| WebcamRouting.ListPathFound | webcamController.go:28 | `/webcam` finds the `webcam` node, which holds `sendWebcamList` |
| WebcamRouting.ImageFound | webcamController.go:29 | `/webcam/<id>` finds the first `:id` node with `id` bound |
| WebcamRouting.HistFound | webcamController.go:30 | `/webcam/<id>/hist` backtracks past the first `:id` node and finds `hist` under the second |
| WebcamRouting.HistImageFound | webcamController.go:31 | `/webcam/<id>/hist/<name>` backtracks to the third `:id` node and binds both `id` and `name` |
| WebcamRouting.DefaultAnswers404 | main.go:43-45 | the default handler answers 404 `Page not found at <path>` |
| WebcamRouting.ServeList | main.go:36-37 | `GET /webcam` calls `sendWebcamList` and the response is untouched |
| WebcamRouting.ServeImage | webcamController.go:44-59 | `GET /webcam/<id>` calls `sendWebcam` with `id`, and the reply follows its result |
| WebcamRouting.ServeHistory | webcamController.go:61-86 | `GET /webcam/<id>/hist` calls `sendHist` with `id`, and the reply follows its result |
| WebcamRouting.ServeHistoryImage | webcamController.go:88-102 | `GET /webcam/<id>/hist/<name>` calls `sendHistWebcam` with `id` and `name`, and the reply follows its result |
| WebcamRouting.ServeUnknown | main.go:43-45 | any other one-segment path calls the default handler and gets a 404 |
| WebcamRouting.ServeOtherMethod | router.go:102-107 | a method other than `GET` on `/webcam` calls the default handler and gets a 404 |
| WebcamRouting.CrawledImageOverHttp | crawler.go:76-88 | after a crawl into `hist`, `GET /webcam/<id>/hist/<name of now>` is untouched (the image is sent) exactly when the cleanup kept the image, and is a 404 otherwise |
| WebcamRouting.StartWebServer | main.go:30-37 | a controller with storage path `hist` and the webcams, and a router whose trie is `WebcamTrie` and whose default handler is `defaultHandler` |

## Left out

- Goroutines, tickers and timing (crawler.go:54-66). A tick is a call of `Crawler.Tick`, and time is a parameter. So the number of crawls in a time window, and the crawler test's expectation of two files after 10 ms, are not modelled.
- `Stop` waiting for the goroutines. The Go code does not wait either. Closing a channel twice panics in Go, so `Crawler.Stop` requires every channel to be open.
- The HTTP fetch of `getImage` (webcam.go:37-52). Its result is a parameter, `image` or `fetched`.
- Writing responses, JSON encoding, headers and logging. A reply is `Untouched` when the handler wrote its own response, and `ErrorPage(status)` for `http.Error`. The list `sendWebcamList` encodes is returned, not encoded.
- The error texts of package `os`. Only the missing-file text of `sendHistWebcam` is written out. Whether `MkdirAll` fails is not modelled, since `crawl` ignores it. The device's refusal of a write is the `writeOk` parameter.
- `filepath.Join` path cleaning. `FileSystem.PathJoin` joins with one `/`, which is what `Join` gives for the clean, nonempty names used here.
- Subdirectories inside a webcam's directory, and the file metadata `ReadDir` returns besides the name.
- `time.Now()`. It is a parameter: `now` names the image, and `later` is the one clock of the cleanup, where `cleanupDir` reads the clock once per file.
- GoTime.ParseDuration: only texts of one integer with one unit are proved (`DurationProperties.ParseDurationOfUnit`). Fractions (which Go computes in float64) and several components in a row are modelled in the function, but nothing is proved about them.
- GoTime.Sub: its own contract gives only the int64 bound. Its value is pinned by lemmas about particular pairs of instants: `SubTruncated`, `SubNextDate` and `SubIgnoresZone`, on top of the calendar lemmas from `EpochIsDayZero` to `NextDateIsNextDay`. No lemma converts between two arbitrary dates or time zones.
- GoTime.Parse: an instant is a record of its calendar fields and its offset, not Go's internal clock value. Its contract states only that a parse is a valid date and time; what it accepts is pinned by `GoTime.ParseFormat` for the texts `Format` writes, not for every text Go accepts.
- Crawling.ImageNameRoundTrip and GoTime.ParseFormat: proved for years 0 to 9999 and whole-minute offsets under 25 hours, which are the instants RFC 3339 text can write.
- `loadWebcams`, the JSON configuration, `http.ListenAndServe` and `startCrawler` (main.go). The webcam list is a parameter.
- The `Position` field of a webcam and coordinate.go. They play no part in the core.
- The fields `client` and `format` that crawler_test.go sets on the crawler. They do not exist in crawler.go.
- Crawling.Crawler.Tick: whether a goroutine has returned is not state of the model. A goroutine whose `select` took the stop case is simply given no further turn.
- A `nil` handler registered in the main router (router.go). `getHandler` would resolve it and `ServeHTTP` would call `nil` and panic; a `MainRouter.Handler` is always a name. The `router` package's `nil` handlers are modelled (`PackageRouter.Handler.Nil`).
- Router handlers as Go closures. A handler is known by its name, and what it does is a `Behaviour` function the caller passes in.
