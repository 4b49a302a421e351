/**
 * What the trie of router/tree.go promises, stated against a reference definition
 * that does not search: a walk is a chain of child links whose nodes accept the
 * request's segments one by one.
 */
module TrieProperties {
  import opened Wrappers
  import opened GoStrings
  import opened Trie

  /** `w` goes from `w[0]` down child links, each node accepting the matching segment of `path`. */
  ghost predicate IsWalk<H>(ns: seq<Node<H>>, w: seq<nat>, path: seq<string>)
    decreases |path|
  {
    && |w| == |path| + 1
    && w[0] < |ns|
    && (|path| > 0 ==>
          && w[1] < |ns|
          && w[1] in ns[w[0]].children
          && Compatible(ns[w[1]], path[0])
          && IsWalk(ns, w[1..], path[1..]))
  }

  /** Some walk for `path` starts at `n`. */
  ghost predicate HasWalk<H>(ns: seq<Node<H>>, n: nat, path: seq<string>) {
    exists w :: IsWalk(ns, w, path) && w[0] == n
  }

  /** Child `c` can take the first segment and has a walk for the rest. */
  ghost predicate Viable<H>(ns: seq<Node<H>>, c: nat, path: seq<string>)
    requires |path| > 0
  {
    c < |ns| && Compatible(ns[c], path[0]) && HasWalk(ns, c, path[1..])
  }

  /**
   * At every step the walk takes the earliest child, in registration order, from which
   * the rest of the path can be walked.
   */
  ghost predicate Leftmost<H>(ns: seq<Node<H>>, w: seq<nat>, path: seq<string>)
    requires IsWalk(ns, w, path)
    decreases |path|
  {
    |path| == 0 ||
    (&& (exists j :: 0 <= j < |ns[w[0]].children| && ns[w[0]].children[j] == w[1] &&
                     forall k :: 0 <= k < j ==> !Viable(ns, ns[w[0]].children[k], path))
     && Leftmost(ns, w[1..], path[1..]))
  }

  /** The parameters bound along a walk, deepest first, so a shallower binding of the same name wins. */
  ghost function Bind<H>(ns: seq<Node<H>>, w: seq<nat>, path: seq<string>, params: PathParams): PathParams
    requires IsWalk(ns, w, path)
    decreases |path|
  {
    if |path| == 0 then params
    else
      var inner := Bind(ns, w[1..], path[1..], params);
      if ns[w[1]].isParam then inner[ns[w[1]].value := path[0]] else inner
  }

  /** The names of the parameter nodes a walk passes through (its start excluded). */
  ghost function ParamNames<H>(ns: seq<Node<H>>, w: seq<nat>, path: seq<string>): set<string>
    requires IsWalk(ns, w, path)
    decreases |path|
  {
    if |path| == 0 then {}
    else (if ns[w[1]].isParam then {ns[w[1]].value} else {}) + ParamNames(ns, w[1..], path[1..])
  }

  lemma ChildrenInRange<H>(ns: seq<Node<H>>, n: nat)
    requires WellFormed(ns) && n < |ns|
    ensures forall k :: 0 <= k < |ns[n].children| ==> ns[n].children[k] < |ns|
  {
  }

  /** Prepending a compatible parent to a walk of its child gives a walk of the longer path. */
  lemma ExtendWalk<H>(ns: seq<Node<H>>, n: nat, w: seq<nat>, seg: string, path: seq<string>)
    requires n < |ns| && IsWalk(ns, w, path) && w[0] in ns[n].children && Compatible(ns[w[0]], seg)
    ensures IsWalk(ns, [n] + w, [seg] + path)
  {
    assert ([n] + w)[1..] == w;
    assert ([seg] + path)[1..] == path;
  }

  /** If a compatible child at position `j >= i` matches below, the loop over `cs[i..]` succeeds. */
  lemma {:induction false} MatchChildrenReaches<H>(ns: seq<Node<H>>, cs: seq<nat>, i: nat, j: nat, path: seq<string>, params: PathParams)
    requires WellFormed(ns) && |path| > 0 && i <= j < |cs|
    requires forall k :: 0 <= k < |cs| ==> cs[k] < |ns|
    requires Compatible(ns[cs[j]], path[0]) && Match(ns, cs[j], path[1..], params).Some?
    ensures MatchChildren(ns, cs, i, path, params).Some?
    decreases j - i
  {
    if i < j {
      var c := cs[i];
      if !(Compatible(ns[c], path[0]) && Match(ns, c, path[1..], params).Some?) {
        MatchChildrenReaches(ns, cs, i + 1, j, path, params);
      }
    }
  }

  /** The loop over `cs[i..]` succeeds through the first position whose child matches below. */
  lemma {:induction false} MatchChildrenPicks<H>(ns: seq<Node<H>>, cs: seq<nat>, i: nat, path: seq<string>, params: PathParams) returns (j: nat)
    requires WellFormed(ns) && |path| > 0 && i <= |cs|
    requires forall k :: 0 <= k < |cs| ==> cs[k] < |ns|
    requires MatchChildren(ns, cs, i, path, params).Some?
    ensures i <= j < |cs| && Compatible(ns[cs[j]], path[0]) && Match(ns, cs[j], path[1..], params).Some?
    ensures forall k :: i <= k < j ==> !(Compatible(ns[cs[k]], path[0]) && Match(ns, cs[k], path[1..], params).Some?)
    ensures var f := Match(ns, cs[j], path[1..], params).value;
            MatchChildren(ns, cs, i, path, params) ==
              Some(Found(f.node, if ns[cs[j]].isParam then f.params[ns[cs[j]].value := path[0]] else f.params))
    decreases |cs| - i
  {
    var c := cs[i];
    if Compatible(ns[c], path[0]) && Match(ns, c, path[1..], params).Some? {
      j := i;
    } else {
      j := MatchChildrenPicks(ns, cs, i + 1, path, params);
    }
  }

  /** Completeness of the backtracking search: whenever some walk exists, `traverse` finds a node. */
  lemma {:induction false} MatchComplete<H>(ns: seq<Node<H>>, n: nat, path: seq<string>, params: PathParams)
    requires WellFormed(ns) && n < |ns| && HasWalk(ns, n, path)
    ensures Match(ns, n, path, params).Some?
    decreases |path|
  {
    if |path| > 0 {
      var w :| IsWalk(ns, w, path) && w[0] == n;
      var cs := ns[n].children;
      ChildrenInRange(ns, n);
      var j :| 0 <= j < |cs| && cs[j] == w[1];
      assert IsWalk(ns, w[1..], path[1..]);
      MatchComplete(ns, w[1], path[1..], params);
      MatchChildrenReaches(ns, cs, 0, j, path, params);
    }
  }

  /**
   * Soundness of the search: a node found by `traverse` ends the leftmost walk for the path,
   * and the returned map is the caller's map plus exactly the bindings of that walk.
   */
  lemma {:induction false} MatchSound<H>(ns: seq<Node<H>>, n: nat, path: seq<string>, params: PathParams)
    requires WellFormed(ns) && n < |ns| && Match(ns, n, path, params).Some?
    ensures exists w :: && IsWalk(ns, w, path) && w[0] == n && Leftmost(ns, w, path)
                        && Match(ns, n, path, params).value == Found(w[|path|], Bind(ns, w, path, params))
    decreases |path|
  {
    var w := SoundWalk(ns, n, path, params);
  }

  lemma {:induction false} SoundWalk<H>(ns: seq<Node<H>>, n: nat, path: seq<string>, params: PathParams) returns (w: seq<nat>)
    requires WellFormed(ns) && n < |ns| && Match(ns, n, path, params).Some?
    ensures IsWalk(ns, w, path) && w[0] == n && Leftmost(ns, w, path)
    ensures Match(ns, n, path, params).value == Found(w[|path|], Bind(ns, w, path, params))
    decreases |path|
  {
    if |path| == 0 {
      w := [n];
    } else {
      var cs := ns[n].children;
      ChildrenInRange(ns, n);
      var j := MatchChildrenPicks(ns, cs, 0, path, params);
      var c := cs[j];
      var rest := SoundWalk(ns, c, path[1..], params);
      ExtendWalk(ns, n, rest, path[0], path[1..]);
      assert [path[0]] + path[1..] == path;
      w := [n] + rest;
      assert w[1..] == rest;
      forall k | 0 <= k < j
        ensures !Viable(ns, cs[k], path)
      {
        if Viable(ns, cs[k], path) {
          MatchComplete(ns, cs[k], path[1..], params);
        }
      }
      assert w[|path|] == rest[|path| - 1];
    }
  }

  /** A failed search means no walk exists at all: `traverse` never gives up too early. */
  lemma MatchFailsOnlyWithoutWalk<H>(ns: seq<Node<H>>, n: nat, path: seq<string>, params: PathParams)
    requires WellFormed(ns) && n < |ns|
    ensures Match(ns, n, path, params).None? <==> !HasWalk(ns, n, path)
  {
    if HasWalk(ns, n, path) {
      MatchComplete(ns, n, path, params);
    }
    if Match(ns, n, path, params).Some? {
      var w := SoundWalk(ns, n, path, params);
    }
  }

  /** There is only one leftmost walk, so the search result is determined by the trie alone. */
  lemma {:induction false} LeftmostUnique<H>(ns: seq<Node<H>>, w1: seq<nat>, w2: seq<nat>, path: seq<string>)
    requires IsWalk(ns, w1, path) && IsWalk(ns, w2, path) && w1[0] == w2[0]
    requires Leftmost(ns, w1, path) && Leftmost(ns, w2, path)
    ensures w1 == w2
    decreases |path|
  {
    if |path| > 0 {
      var cs := ns[w1[0]].children;
      var j1 :| 0 <= j1 < |cs| && cs[j1] == w1[1] && forall k :: 0 <= k < j1 ==> !Viable(ns, cs[k], path);
      var j2 :| 0 <= j2 < |cs| && cs[j2] == w2[1] && forall k :: 0 <= k < j2 ==> !Viable(ns, cs[k], path);
      assert Viable(ns, cs[j1], path) by {
        assert IsWalk(ns, w1[1..], path[1..]);
      }
      assert Viable(ns, cs[j2], path) by {
        assert IsWalk(ns, w2[1..], path[1..]);
      }
      assert j1 == j2;
      LeftmostUnique(ns, w1[1..], w2[1..], path[1..]);
      assert w1 == [w1[0]] + w1[1..];
      assert w2 == [w2[0]] + w2[1..];
    }
  }

  /** The search ends where the leftmost walk ends, with that walk's bindings. */
  lemma LeftmostSearch<H>(ns: seq<Node<H>>, n: nat, w: seq<nat>, path: seq<string>, params: PathParams)
    requires WellFormed(ns) && n < |ns| && IsWalk(ns, w, path) && w[0] == n && Leftmost(ns, w, path)
    ensures Match(ns, n, path, params) == Some(Found(w[|path|], Bind(ns, w, path, params)))
  {
    MatchComplete(ns, n, path, params);
    var w' := SoundWalk(ns, n, path, params);
    LeftmostUnique(ns, w, w', path);
  }

  /** The map returned from an empty map has exactly the parameter names met on the walk as keys. */
  lemma {:induction false} BindKeys<H>(ns: seq<Node<H>>, w: seq<nat>, path: seq<string>, params: PathParams)
    requires IsWalk(ns, w, path)
    ensures Bind(ns, w, path, params).Keys == params.Keys + ParamNames(ns, w, path)
    decreases |path|
  {
    if |path| > 0 {
      BindKeys(ns, w[1..], path[1..], params);
    }
  }

  /** The empty path resolves to the node the search starts from, with the map untouched. */
  lemma EmptyPathStops<H>(ns: seq<Node<H>>, n: nat, params: PathParams)
    requires WellFormed(ns) && n < |ns|
    ensures Match(ns, n, [], params) == Some(Found(n, params))
  {
  }

  /** `splitPath` keeps only non-empty, slash-free components. */
  lemma {:induction false} SegmentsAreComponents(path: string)
    ensures forall k :: 0 <= k < |Segments(path)| ==> Segments(path)[k] != "" && Free(Segments(path)[k], '/')
  {
    SplitPiecesAreFree(path, '/');
    NonEmptyKeeps(Split(path, '/'));
  }

  lemma {:induction false} NonEmptyKeeps(parts: seq<string>)
    ensures forall k :: 0 <= k < |NonEmpty(parts)| ==> NonEmpty(parts)[k] != "" && NonEmpty(parts)[k] in parts
    decreases |parts|
  {
    if |parts| > 0 {
      NonEmptyKeeps(parts[1..]);
    }
  }

  /** `"/"` and `""` both split into no components. */
  lemma RootPathHasNoSegments()
    ensures Segments("/") == [] && Segments("") == []
  {
    assert Split("/", '/') == ["", ""];
  }

  /** The canonical path of a list of components: each one preceded by a slash. */
  function PathOf(segments: seq<string>): string {
    "/" + Join(segments, '/')
  }

  /** Splitting the canonical path of non-empty, slash-free components gives them back. */
  lemma {:induction false} SegmentsOfPathOf(segments: seq<string>)
    requires forall k :: 0 <= k < |segments| ==> segments[k] != "" && Free(segments[k], '/')
    ensures Segments(PathOf(segments)) == segments
  {
    if |segments| == 0 {
      RootPathHasNoSegments();
    } else {
      SplitJoin(segments, '/');
      assert PathOf(segments) == "" + ['/'] + Join(segments, '/');
      SplitConcat("", Join(segments, '/'), '/');
      NonEmptyConcat([""], segments);
      NonEmptyAll(segments);
    }
  }

  lemma {:induction false} NonEmptyAll(parts: seq<string>)
    requires forall k :: 0 <= k < |parts| ==> parts[k] != ""
    ensures NonEmpty(parts) == parts
    decreases |parts|
  {
    if |parts| > 0 {
      NonEmptyAll(parts[1..]);
      assert parts == [parts[0]] + parts[1..];
    }
  }

  /**
   * Mounting: a route path that starts with `/` contributes its components after those of
   * the prefix, so `/there` + `/here` is `[there, here]` and `/there` + `/` is `[there]`.
   */
  lemma {:induction false} SegmentsOfMountedPath(prefix: string, path: string)
    requires |path| > 0 && path[0] == '/'
    ensures Segments(prefix + path) == Segments(prefix) + Segments(path)
  {
    var r := path[1..];
    assert path == "" + ['/'] + r;
    assert prefix + path == prefix + ['/'] + r;
    SplitConcat(prefix, r, '/');
    SplitConcat("", r, '/');
    NonEmptyConcat(Split(prefix, '/'), Split(r, '/'));
    NonEmptyConcat([""], Split(r, '/'));
  }

  /** Where the segment matches child `c`, the target is found below `c`. */
  lemma TargetBelow<H>(ns: seq<Node<H>>, n: nat, path: seq<string>, j: nat)
    requires ValidArena(ns) && n < |ns| && |path| > 0
    requires FirstMatch(ns, ns[n].children, path[0]) == Some(j)
    ensures ns[n].children[j] < |ns|
    ensures Target(ns, n, path) == Target(ns, ns[n].children[j], path[1..])
  {
  }

  /** Where no child matches the segment, the target is found below the new child. */
  lemma TargetBelowNew<H>(ns: seq<Node<H>>, n: nat, path: seq<string>)
    requires ValidArena(ns) && n < |ns| && |path| > 0
    requires FirstMatch(ns, ns[n].children, path[0]).None?
    ensures Target(ns, n, path) == Target(Grow(ns, n, path[0]), |ns|, path[1..])
  {
  }

  /** `addNode` changes no node's value or kind, and children lists only grow at their end. */
  lemma {:induction false} InsertKeepsShape<H>(ns: seq<Node<H>>, n: nat, verb: string, path: seq<string>, h: H)
    requires ValidArena(ns) && n < |ns|
    ensures var r := Insert(ns, n, verb, path, h);
            forall i :: 0 <= i < |ns| ==>
              r[i].value == ns[i].value && r[i].isParam == ns[i].isParam && ns[i].children <= r[i].children
    decreases |path|
  {
    if |path| > 0 {
      ChildrenInRange(ns, n);
      match FirstMatch(ns, ns[n].children, path[0])
      case Some(j) =>
        InsertKeepsShape(ns, ns[n].children[j], verb, path[1..], h);
      case None =>
        var g := Grow(ns, n, path[0]);
        InsertKeepsShape(g, |ns|, verb, path[1..], h);
        forall i | 0 <= i < |ns|
          ensures ns[i].children <= g[i].children
        {
        }
    }
  }

  /**
   * `addNode` sets the handler for `verb` on exactly one node, its target, keeps every
   * other handler, and leaves the nodes it creates on the way without handlers.
   */
  lemma {:induction false} InsertSetsOneHandler<H>(ns: seq<Node<H>>, n: nat, verb: string, path: seq<string>, h: H)
    requires ValidArena(ns) && n < |ns|
    ensures var r := Insert(ns, n, verb, path, h);
            var t := Target(ns, n, path);
            && t < |r|
            && (forall i :: 0 <= i < |r| && i != t ==> r[i].handlers == if i < |ns| then ns[i].handlers else map[])
            && r[t].handlers == (if t < |ns| then ns[t].handlers else map[])[verb := h]
    decreases |path|
  {
    if |path| > 0 {
      ChildrenInRange(ns, n);
      match FirstMatch(ns, ns[n].children, path[0])
      case Some(j) =>
        TargetBelow(ns, n, path, j);
        InsertSetsOneHandler(ns, ns[n].children[j], verb, path[1..], h);
      case None =>
        var g := Grow(ns, n, path[0]);
        TargetBelowNew(ns, n, path);
        InsertSetsOneHandler(g, |ns|, verb, path[1..], h);
    }
  }

  /** A request segment may stand where a pattern has a parameter; elsewhere it must be equal. */
  predicate Instantiates(request: seq<string>, pattern: seq<string>) {
    && |request| == |pattern|
    && forall k :: 0 <= k < |pattern| ==> IsParamSegment(pattern[k]) || request[k] == pattern[k]
  }

  /**
   * After `addNode` inserts a pattern, every request that instantiates the pattern can be
   * walked along the very nodes the insertion went through.
   */
  lemma {:induction false} InsertWalkAccepts<H>(ns: seq<Node<H>>, n: nat, verb: string, pattern: seq<string>, h: H, request: seq<string>)
    requires ValidArena(ns) && n < |ns| && Instantiates(request, pattern)
    ensures IsWalk(Insert(ns, n, verb, pattern, h), InsertWalk(ns, n, pattern), request)
    decreases |pattern|
  {
    var r := Insert(ns, n, verb, pattern, h);
    if |pattern| > 0 {
      var cs := ns[n].children;
      ChildrenInRange(ns, n);
      assert Instantiates(request[1..], pattern[1..]);
      match FirstMatch(ns, cs, pattern[0])
      case Some(j) =>
        var c := cs[j];
        InsertWalkAccepts(ns, c, verb, pattern[1..], h, request[1..]);
        InsertKeepsShape(ns, c, verb, pattern[1..], h);
        assert ns[n].children <= r[n].children;
        assert c in r[n].children by {
          assert r[n].children[j] == c;
        }
        ExtendWalk(r, n, InsertWalk(ns, c, pattern[1..]), request[0], request[1..]);
        assert [request[0]] + request[1..] == request;
      case None =>
        var g := Grow(ns, n, pattern[0]);
        var c := |ns|;
        InsertWalkAccepts(g, c, verb, pattern[1..], h, request[1..]);
        InsertKeepsShape(g, c, verb, pattern[1..], h);
        assert g[n].children <= r[n].children;
        assert c in r[n].children by {
          assert r[n].children[|cs|] == c;
        }
        ExtendWalk(r, n, InsertWalk(g, c, pattern[1..]), request[0], request[1..]);
        assert [request[0]] + request[1..] == request;
    }
  }

  /**
   * A registered pattern always resolves: `findNode` on any instance of it finds some node,
   * though, since the search stops at the first node where the path runs out, not
   * necessarily the one that holds the new handler.
   */
  lemma InsertedPatternResolves<H>(ns: seq<Node<H>>, n: nat, verb: string, pattern: seq<string>, h: H, request: seq<string>, params: PathParams)
    requires ValidArena(ns) && n < |ns| && Instantiates(request, pattern)
    ensures Match(Insert(ns, n, verb, pattern, h), n, request, params).Some?
  {
    InsertWalkAccepts(ns, n, verb, pattern, h, request);
    MatchComplete(Insert(ns, n, verb, pattern, h), n, request, params);
  }

  /** No segment of the pattern declares a parameter. */
  predicate AllLiteral(pattern: seq<string>) {
    forall k :: 0 <= k < |pattern| ==> !IsParamSegment(pattern[k])
  }

  /** Inserting below a child that matches the first segment keeps that child matching it. */
  lemma ReinsertThroughChild<H>(ns: seq<Node<H>>, n: nat, verb: string, pattern: seq<string>, h: H, j: nat)
    requires ValidArena(ns) && n < |ns| && |pattern| > 0
    requires FirstMatch(ns, ns[n].children, pattern[0]) == Some(j)
    ensures ns[n].children[j] < |ns|
    ensures var r := Insert(ns, ns[n].children[j], verb, pattern[1..], h);
            && Insert(ns, n, verb, pattern, h) == r
            && n < |r| && FirstMatch(r, r[n].children, pattern[0]) == Some(j)
            && r[n].children[j] == ns[n].children[j]
  {
    var c := ns[n].children[j];
    ChildrenInRange(ns, n);
    var r := Insert(ns, c, verb, pattern[1..], h);
    InsertKeepsShape(ns, c, verb, pattern[1..], h);
    ChildrenInRange(r, n);
    assert r[n].children[j] == c;
  }

  /** Inserting below a new child for the first segment leaves that child matching it. */
  lemma ReinsertThroughNewChild<H>(ns: seq<Node<H>>, n: nat, verb: string, pattern: seq<string>, h: H)
    requires ValidArena(ns) && n < |ns| && |pattern| > 0 && !IsParamSegment(pattern[0])
    requires FirstMatch(ns, ns[n].children, pattern[0]).None?
    ensures var r := Insert(Grow(ns, n, pattern[0]), |ns|, verb, pattern[1..], h);
            && Insert(ns, n, verb, pattern, h) == r
            && n < |r| && FirstMatch(r, r[n].children, pattern[0]) == Some(|ns[n].children|)
            && r[n].children[|ns[n].children|] == |ns|
  {
    var g := Grow(ns, n, pattern[0]);
    var r := Insert(g, |ns|, verb, pattern[1..], h);
    InsertKeepsShape(g, |ns|, verb, pattern[1..], h);
    ChildrenInRange(r, n);
    assert r[n].children[|ns[n].children|] == |ns|;
  }

  /**
   * Last registration wins for literal patterns: inserting the same literal pattern and
   * method again creates no node and leaves the trie as if only the second had been made.
   */
  lemma {:induction false} ReinsertLiteralOverwrites<H>(ns: seq<Node<H>>, n: nat, verb: string, pattern: seq<string>, h1: H, h2: H)
    requires ValidArena(ns) && n < |ns| && AllLiteral(pattern)
    ensures Insert(Insert(ns, n, verb, pattern, h1), n, verb, pattern, h2) == Insert(ns, n, verb, pattern, h2)
    decreases |pattern|
  {
    if |pattern| == 0 {
      var r1 := Insert(ns, n, verb, pattern, h1);
      assert r1[n].handlers[verb := h2] == ns[n].handlers[verb := h2];
    } else {
      assert AllLiteral(pattern[1..]);
      match FirstMatch(ns, ns[n].children, pattern[0])
      case Some(j) =>
        ReinsertThroughChild(ns, n, verb, pattern, h1, j);
        ReinsertThroughChild(ns, n, verb, pattern, h2, j);
        var c := ns[n].children[j];
        var r1 := Insert(ns, c, verb, pattern[1..], h1);
        assert Insert(r1, n, verb, pattern, h2) == Insert(r1, c, verb, pattern[1..], h2);
        ReinsertLiteralOverwrites(ns, c, verb, pattern[1..], h1, h2);
      case None =>
        ReinsertThroughNewChild(ns, n, verb, pattern, h1);
        ReinsertThroughNewChild(ns, n, verb, pattern, h2);
        var g := Grow(ns, n, pattern[0]);
        var r1 := Insert(g, |ns|, verb, pattern[1..], h1);
        assert Insert(r1, n, verb, pattern, h2) == Insert(r1, |ns|, verb, pattern[1..], h2);
        ReinsertLiteralOverwrites(g, |ns|, verb, pattern[1..], h1, h2);
    }
  }

  /**
   * The colon quirk: a parameter node stores `id` but insertion compares it with the raw
   * `:id`, so registering `:id` twice under a node appends two parameter siblings, each
   * with its own handler, instead of overwriting the first.
   */
  lemma ReinsertParamAddsSibling<H>(ns: seq<Node<H>>, n: nat, verb: string, segment: string, h1: H, h2: H)
    requires ValidArena(ns) && n < |ns| && IsParamSegment(segment)
    requires FirstMatch(ns, ns[n].children, segment).None?
    ensures var r := Insert(Insert(ns, n, verb, [segment], h1), n, verb, [segment], h2);
            && |r| == |ns| + 2
            && r[n].children == ns[n].children + [|ns|, |ns| + 1]
            && r[|ns|] == Node([], segment[1..], true, map[verb := h1])
            && r[|ns| + 1] == Node([], segment[1..], true, map[verb := h2])
  {
    ChildrenInRange(ns, n);
    var g := Grow(ns, n, segment);
    assert Insert(ns, n, verb, [segment], h1) == Insert(g, |ns|, verb, [], h1);
    var r1 := Insert(g, |ns|, verb, [], h1);
    ChildrenInRange(r1, n);
    assert r1[n].children == ns[n].children + [|ns|];
    assert r1[|ns|].value == segment[1..] != segment;
    assert FirstMatch(r1, r1[n].children, segment).None?;
  }
}
