/**
 * The path-matching trie of router/tree.go. The same code is repeated at
 * router.go:122-216 for the main package's router; both routers use this module.
 *
 * Go links nodes by pointer. Here every node lives in an arena `seq<Node<H>>`,
 * a child pointer is an index into it, and the root built by `newTree` is index 0.
 * Nodes are only ever appended, so an index stays valid once handed out.
 */
module Trie {
  import opened Wrappers
  import opened GoStrings

  /** The parameters captured from a request path, by parameter name. */
  type PathParams = map<string, string>

  /** A method and a path pattern bound to a handler. */
  datatype Route<H> = Route(verb: string, path: string, handler: H)

  /** A trie node: children in registration order, the stored segment, and a handler per method. */
  datatype Node<H> = Node(children: seq<nat>, value: string, isParam: bool, handlers: map<string, H>)

  /** A node found by a search, with the parameters bound on the way to it. */
  datatype Found = Found(node: nat, params: PathParams)

  /** The node `newTree` builds: empty value, no children, no handlers. */
  function Root<H>(): Node<H> {
    Node([], "", false, map[])
  }

  /** A raw path segment that declares a parameter, such as `:id`. */
  predicate IsParamSegment(segment: string) {
    |segment| != 0 && segment[0] == ':'
  }

  /** Every child index points into the arena, and the root exists. */
  ghost predicate WellFormed<H>(ns: seq<Node<H>>) {
    && |ns| > 0
    && forall i, j :: 0 <= i < |ns| && 0 <= j < |ns[i].children| ==> ns[i].children[j] < |ns|
  }

  /** A well-formed arena in which a literal node never stores a value that starts with `:`. */
  ghost predicate ValidArena<H>(ns: seq<Node<H>>) {
    && WellFormed(ns)
    && forall i :: 0 <= i < |ns| && !ns[i].isParam ==> !IsParamSegment(ns[i].value)
  }

  /** The node `addNode` creates for a segment: a parameter node loses its leading colon. */
  function NewNode<H>(segment: string): (n: Node<H>)
    ensures n.children == [] && n.handlers == map[]
    ensures n.isParam <==> IsParamSegment(segment)
    ensures n.isParam ==> [':'] + n.value == segment
    ensures !n.isParam ==> n.value == segment
  {
    if IsParamSegment(segment) then Node([], segment[1..], true, map[])
    else Node([], segment, false, map[])
  }

  /** The position of the first child whose STORED value equals the raw segment `value`. */
  function FirstMatch<H>(ns: seq<Node<H>>, cs: seq<nat>, value: string): (r: Option<nat>)
    requires forall k :: 0 <= k < |cs| ==> cs[k] < |ns|
    ensures r.Some? ==> r.value < |cs| && ns[cs[r.value]].value == value
    ensures r.Some? ==> forall k :: 0 <= k < r.value ==> ns[cs[k]].value != value
    ensures r.None? ==> forall k :: 0 <= k < |cs| ==> ns[cs[k]].value != value
  {
    if |cs| == 0 then None
    else if ns[cs[0]].value == value then Some(0)
    else match FirstMatch(ns, cs[1..], value)
      case None => None
      case Some(k) => Some(k + 1)
  }

  /** The arena after `addNode` appends a fresh node for `segment` to the children of `n`. */
  function Grow<H>(ns: seq<Node<H>>, n: nat, segment: string): (r: seq<Node<H>>)
    requires ValidArena(ns) && n < |ns|
    ensures ValidArena(r) && |r| == |ns| + 1 && r[|ns|] == NewNode(segment)
    ensures r[n].children == ns[n].children + [|ns|]
    ensures forall i :: 0 <= i < |ns| ==> r[i].value == ns[i].value && r[i].isParam == ns[i].isParam
    ensures forall i :: 0 <= i < |ns| ==> r[i].handlers == ns[i].handlers
    ensures forall i :: 0 <= i < |ns| && i != n ==> r[i] == ns[i]
  {
    ns[n := ns[n].(children := ns[n].children + [|ns|])] + [NewNode(segment)]
  }

  /**
   * The arena after `addNode(method, path, handler)` runs on node `n`: descend into the
   * first child whose stored value equals the raw segment, otherwise append a new child;
   * at the end of the path, record the handler for the method.
   */
  function Insert<H>(ns: seq<Node<H>>, n: nat, verb: string, path: seq<string>, handler: H): (r: seq<Node<H>>)
    requires ValidArena(ns) && n < |ns|
    ensures ValidArena(r) && |ns| <= |r|
    decreases |path|
  {
    if |path| == 0 then ns[n := ns[n].(handlers := ns[n].handlers[verb := handler])]
    else match FirstMatch(ns, ns[n].children, path[0])
      case Some(j) => Insert(ns, ns[n].children[j], verb, path[1..], handler)
      case None => Insert(Grow(ns, n, path[0]), |ns|, verb, path[1..], handler)
  }

  /** The nodes `addNode` passes through, from `n` to the node that receives the handler. */
  function InsertWalk<H>(ns: seq<Node<H>>, n: nat, path: seq<string>): (w: seq<nat>)
    requires ValidArena(ns) && n < |ns|
    ensures |w| == |path| + 1 && w[0] == n
    decreases |path|
  {
    if |path| == 0 then [n]
    else match FirstMatch(ns, ns[n].children, path[0])
      case Some(j) => [n] + InsertWalk(ns, ns[n].children[j], path[1..])
      case None => [n] + InsertWalk(Grow(ns, n, path[0]), |ns|, path[1..])
  }

  /** The node whose handler map `addNode` writes: the last node of its walk. */
  function Target<H>(ns: seq<Node<H>>, n: nat, path: seq<string>): nat
    requires ValidArena(ns) && n < |ns|
    decreases |path|
  {
    if |path| == 0 then n
    else match FirstMatch(ns, ns[n].children, path[0])
      case Some(j) => Target(ns, ns[n].children[j], path[1..])
      case None => Target(Grow(ns, n, path[0]), |ns|, path[1..])
  }

  /** Routes mounted under `prefix`, inserted at the root one after another. */
  function MountRoutes<H>(ns: seq<Node<H>>, prefix: string, routes: seq<Route<H>>): (r: seq<Node<H>>)
    requires ValidArena(ns)
    ensures ValidArena(r) && |ns| <= |r|
    decreases |routes|
  {
    if |routes| == 0 then ns
    else
      var last := routes[|routes| - 1];
      Insert(MountRoutes(ns, prefix, routes[..|routes| - 1]), 0, last.verb, Segments(prefix + last.path), last.handler)
  }

  /** A child may take a request segment when its stored value equals it or it is a parameter node. */
  predicate Compatible<H>(node: Node<H>, segment: string) {
    node.value == segment || node.isParam
  }

  /**
   * The result of `traverse(path, params)` on node `n`: an empty path stops at `n`;
   * otherwise the children are tried in order, and a parameter child binds its
   * segment only once the rest of the path has been matched below it.
   */
  function Match<H>(ns: seq<Node<H>>, n: nat, path: seq<string>, params: PathParams): (r: Option<Found>)
    requires WellFormed(ns) && n < |ns|
    ensures r.Some? ==> r.value.node < |ns|
    decreases |path|, 1
  {
    if |path| == 0 then Some(Found(n, params))
    else MatchChildren(ns, ns[n].children, 0, path, params)
  }

  /** The loop of `traverse` over the children `cs[i..]`. */
  function MatchChildren<H>(ns: seq<Node<H>>, cs: seq<nat>, i: nat, path: seq<string>, params: PathParams): (r: Option<Found>)
    requires WellFormed(ns) && |path| > 0 && i <= |cs|
    requires forall k :: 0 <= k < |cs| ==> cs[k] < |ns|
    ensures r.Some? ==> r.value.node < |ns|
    decreases |path|, 0, |cs| - i
  {
    if i == |cs| then None
    else
      var c := cs[i];
      var below := if Compatible(ns[c], path[0]) then Match(ns, c, path[1..], params) else None;
      match below
      case Some(Found(t, p)) => Some(Found(t, if ns[c].isParam then p[ns[c].value := path[0]] else p))
      case None => MatchChildren(ns, cs, i + 1, path, params)
  }

  /** The pieces of `strings.Split` that are not empty, in order. */
  function NonEmpty(parts: seq<string>): (r: seq<string>)
    decreases |parts|
  {
    if |parts| == 0 then []
    else (if parts[0] == "" then [] else [parts[0]]) + NonEmpty(parts[1..])
  }

  /** What `splitPath` returns: the non-empty `/`-separated components of `path`. */
  function Segments(path: string): seq<string> {
    NonEmpty(Split(path, '/'))
  }

  lemma {:induction false} NonEmptyConcat(a: seq<string>, b: seq<string>)
    ensures NonEmpty(a + b) == NonEmpty(a) + NonEmpty(b)
    decreases |a|
  {
    if |a| > 0 {
      assert (a + b)[1..] == a[1..] + b;
      NonEmptyConcat(a[1..], b);
    } else {
      assert a + b == b;
    }
  }

  /** `splitPath`: the components of `strings.Split(path, "/")` that are not empty. */
  method SplitPath(path: string) returns (result: seq<string>)
    ensures result == Segments(path)
  {
    result := [];
    var values := Split(path, '/');
    for i := 0 to |values|
      invariant result == NonEmpty(values[..i])
    {
      NonEmptyConcat(values[..i], [values[i]]);
      assert values[..i + 1] == values[..i] + [values[i]];
      if values[i] != "" {
        result := result + [values[i]];
      }
    }
    assert values[..|values|] == values;
  }

  /** A trie rooted at arena index 0, as built by `newTree` and grown by `addRoute`. */
  class Tree<H> {
    var nodes: seq<Node<H>>

    ghost predicate Valid()
      reads this
    {
      ValidArena(nodes)
    }

    /** `newTree`: a single root node with an empty value, no children and no handlers. */
    constructor ()
      ensures Valid() && nodes == [Root()]
    {
      nodes := [Root()];
    }

    /** `addNode`: insert `path` below node `n` and record `handler` for `method` at its end. */
    method AddNode(n: nat, verb: string, path: seq<string>, handler: H)
      requires Valid() && n < |nodes|
      modifies this
      ensures Valid() && nodes == Insert(old(nodes), n, verb, path, handler)
      decreases |path|
    {
      if |path| == 0 {
        nodes := nodes[n := nodes[n].(handlers := nodes[n].handlers[verb := handler])];
        return;
      }
      var value := path[0];
      var children := nodes[n].children;
      var i := 0;
      while i < |children|
        invariant 0 <= i <= |children|
        invariant forall k :: 0 <= k < i ==> nodes[children[k]].value != value
      {
        var c := children[i];
        if nodes[c].value == value {
          AddNode(c, verb, path[1..], handler);
          return;
        }
        i := i + 1;
      }
      var newValue := value;
      var isParam := |value| != 0 && value[0] == ':';
      if isParam {
        newValue := value[1..];
      }
      var c := |nodes|;
      nodes := nodes[n := nodes[n].(children := nodes[n].children + [c])] + [Node([], newValue, isParam, map[])];
      assert nodes == Grow(old(nodes), n, value);
      AddNode(c, verb, path[1..], handler);
    }

    /**
     * `traverse`: search below node `n`. The map `params` is shared with every recursive
     * call, as the Go map is, so writes made by a callee stay visible to its caller.
     */
    method Traverse(n: nat, path: seq<string>, params: PathParams) returns (result: Option<nat>, out: PathParams)
      requires Valid() && n < |nodes|
      ensures Match(nodes, n, path, params) == if result.Some? then Some(Found(result.value, out)) else None
      ensures result.None? ==> out == params
      decreases |path|
    {
      if |path| == 0 {
        return Some(n), params;
      }
      var children := nodes[n].children;
      out := params;
      var i := 0;
      while i < |children|
        invariant 0 <= i <= |children|
        invariant out == params
        invariant MatchChildren(nodes, children, 0, path, params) == MatchChildren(nodes, children, i, path, params)
      {
        var c := children[i];
        if nodes[c].value == path[0] || nodes[c].isParam {
          var below, shared := Traverse(c, path[1..], out);
          out := shared;
          if below.Some? {
            if nodes[c].isParam {
              out := out[nodes[c].value := path[0]];
            }
            return below, out;
          }
        }
        i := i + 1;
      }
      return None, out;
    }

    /** `findNode`: split the path and search from the root with a fresh, empty map. */
    method FindNode(path: string) returns (node: Option<nat>, params: PathParams)
      requires Valid()
      ensures Match(nodes, 0, Segments(path), map[]) == if node.Some? then Some(Found(node.value, params)) else None
      ensures node.None? ==> params == map[]
    {
      var segments := SplitPath(path);
      node, params := Traverse(0, segments, map[]);
    }

    /** `addRoute`: insert the route's split path at the root. */
    method AddRoute(r: Route<H>)
      requires Valid()
      modifies this
      ensures Valid() && nodes == Insert(old(nodes), 0, r.verb, Segments(r.path), r.handler)
    {
      var segments := SplitPath(r.path);
      AddNode(0, r.verb, segments, r.handler);
    }
  }
}
