/**
 * The trie router (router.ts). Trie nodes are values of the datatype `Node`: each node
 * owns its children exclusively, so a subtree can be replaced as a whole. The root Node
 * object, whose counters the source updates in place, is the class `Root`; `Router`
 * owns one root.
 */
module TrieRouter {
  import opened Types
  import opened Util

  /** `HandlerContainer` (router.ts:14-18): a handler, its registration rank and its `"<METHOD> <path>"` label. */
  datatype Container<T> = Container(handler: T, rank: int, route: string)

  /**
   * One trie node (router.ts:42-50): children keyed by the segment text as written
   * (`"zaiste"`, `":name"`, `"*"`), routes keyed by method, the placeholder names of the
   * children in creation order, and the `shouldCapture` flag copied from the root.
   */
  datatype Node<T> = Node(
    children: map<string, Node<T>>,
    routes: map<string, Container<T>>,
    placeholders: seq<string>,
    shouldCapture: bool)

  function EmptyNode<T>(shouldCapture: bool): Node<T>
  {
    Node(map[], map[], [], shouldCapture)
  }

  // ---------------------------------------------------------------------------
  // Segment syntax
  // ---------------------------------------------------------------------------

  predicate NoBraces(s: string)
  {
    forall i :: 0 <= i < |s| ==> s[i] != '{' && s[i] != '}'
  }

  /**
   * `extractPlaceholder` (router.ts:29-36): `"*"` for `"*"`, `name` for `":name"` when
   * `name` is non-empty and free of braces, nothing otherwise. A named result is always
   * the key of its segment without the colon.
   */
  function ExtractPlaceholder(segment: string): (placeholder: Option<string>)
    ensures placeholder.Some? && segment != "*" ==>
      segment == ":" + placeholder.value && |placeholder.value| > 0 && NoBraces(placeholder.value)
    ensures segment == "*" ==> placeholder == Some("*")
    ensures (|segment| == 0 || segment[0] != ':') && segment != "*" ==> placeholder.None?
  {
    if segment == "*" then Some("*")
    else if |segment| >= 2 && segment[0] == ':' && NoBraces(segment[1..]) then Some(segment[1..])
    else None
  }

  /** Every non-empty brace-free name is extracted from its `":name"` segment. */
  lemma ExtractNamed(name: string)
    requires |name| > 0 && NoBraces(name)
    ensures ExtractPlaceholder(":" + name) == Some(name)
  {
    assert (":" + name)[1..] == name;
  }

  /** The characters the regular-expression dot does not match. */
  predicate IsLineTerminator(c: char)
  {
    c == '\n' || c == '\r' || c == '\U{2028}' || c == '\U{2029}'
  }

  /** Index of the last `/` of `s`, or -1. */
  function LastSlash(s: string): (k: int)
    ensures -1 <= k < |s|
    ensures k >= 0 ==> s[k] == '/'
    ensures forall i :: k < i < |s| ==> s[i] != '/'
  {
    if |s| == 0 then -1
    else if s[|s| - 1] == '/' then |s| - 1
    else LastSlash(s[..|s| - 1])
  }

  /**
   * `unpackOptionalDynamicParam` (router.ts:20-27), the match of `/(^.+)(\/\:[^\/]+)\?$/`:
   * the path must end in `?`, its last segment must be `:x?` with `x` non-empty, and the
   * part before the last `/` must be non-empty and free of line terminators. The result is
   * that part and the path without its `?`.
   */
  function UnpackOptionalDynamicParam(pathname: string): (r: Option<(string, string)>)
    ensures r.Some? ==>
      var (base, optional) := r.value;
      pathname == optional + "?" && |base| > 0 && |optional| > |base| + 2 &&
      optional[..|base|] == base && optional[|base|] == '/' && optional[|base| + 1] == ':' &&
      (forall i :: |base| < i < |optional| ==> optional[i] != '/') &&
      (forall i :: 0 <= i < |base| ==> !IsLineTerminator(base[i]))
  {
    var k := LastSlash(pathname);
    if 1 <= k && k + 3 < |pathname| && pathname[k + 1] == ':' && pathname[|pathname| - 1] == '?'
       && (forall i :: 0 <= i < k ==> !IsLineTerminator(pathname[i]))
    then
      assert pathname == pathname[..|pathname| - 1] + "?";
      Some((pathname[..k], pathname[..|pathname| - 1]))
    else None
  }

  /** Every path of the shape `base/:x?` unpacks into `base` and `base/:x`. */
  lemma UnpackComplete(base: string, x: string)
    requires |base| > 0 && |x| > 0
    requires forall i :: 0 <= i < |base| ==> !IsLineTerminator(base[i])
    requires forall i :: 0 <= i < |x| ==> x[i] != '/'
    ensures UnpackOptionalDynamicParam(base + "/:" + x + "?") == Some((base, base + "/:" + x))
  {
    var p := base + "/:" + x + "?";
    assert p[|base|] == '/';
    assert forall i :: |base| < i < |p| ==> p[i] != '/' by {
      forall i | |base| < i < |p| ensures p[i] != '/' {
        if i > |base| + 1 && i < |p| - 1 {
          assert p[i] == x[i - |base| - 2];
        }
      }
    }
    assert LastSlash(p) == |base|;
    assert p[..|base|] == base;
    assert p[..|p| - 1] == base + "/:" + x;
  }

  /** `hasDynamicParam` (router.ts:38-40): `name` is a placeholder somewhere in the subtree. */
  predicate HasDynamicParam<T>(name: string, node: Node<T>)
  {
    name in node.placeholders || exists k :: k in node.children && HasDynamicParam(name, node.children[k])
  }

  // ---------------------------------------------------------------------------
  // Insertion (router.ts:52-99)
  // ---------------------------------------------------------------------------

  /** The root Node object's state: the whole trie and the counters kept on the root. */
  datatype TrieState<T> = TrieState(tree: Node<T>, rank: int, name: string, shouldCapture: bool)

  function EmptyTrie<T>(): TrieState<T>
  {
    TrieState(EmptyNode(false), 0, "", false)
  }

  /** Result of walking a path down from one node: the new subtree, the root's flag, the failure. */
  datatype Walk<T> = Walk(node: Node<T>, capture: bool, error: Option<string>)

  /** Some child subtree of `node` has `name` as a placeholder (router.ts:84). */
  predicate SomeChildHas<T>(node: Node<T>, name: string)
  {
    exists k :: k in node.children && HasDynamicParam(name, node.children[k])
  }

  /**
   * What `insert` does at a node that has no child for `segment` (router.ts:70-91): the
   * parent with the new child, the root's flag, the grown `parentPlaceholders`, and the
   * duplicated label when the checks throw.
   */
  datatype Creation<T> = Creation(parent: Node<T>, capture: bool, parents: seq<string>, error: Option<string>)

  function CreateChild<T>(node: Node<T>, segment: string, capture: bool, parents: seq<string>): (c: Creation<T>)
    ensures c.parent.children == node.children[segment := EmptyNode(false)]
    ensures c.parent.routes == node.routes && c.parent.shouldCapture == node.shouldCapture
    ensures c.parent.placeholders == node.placeholders + (if c.error.None? && ExtractPlaceholder(segment).Some? then [ExtractPlaceholder(segment).value] else [])
    ensures c.error.Some? ==> c.capture && ExtractPlaceholder(segment) == c.error && c.error.value != "*"
    ensures capture ==> c.capture
  {
    var created := node.(children := node.children[segment := EmptyNode(false)]);
    var placeholder := ExtractPlaceholder(segment);
    var named := placeholder.Some? && placeholder.value != "*";
    var capture' := capture || named;
    if named && (placeholder.value in parents || SomeChildHas(created, placeholder.value))
    then Creation(created, capture', parents, Some(placeholder.value))
    else
      var extended := if placeholder.Some? then created.(placeholders := created.placeholders + [placeholder.value]) else created;
      Creation(extended, capture', parents + (if placeholder.Some? then extended.placeholders else []) + extended.placeholders, None)
  }

  /**
   * The walk of `insert` from `node` over the remaining `segments`. `capture` is the
   * root's `shouldCapture`, `parents` the `parentPlaceholders` collected so far, and
   * `entry` the container stored at the leaf. On a duplicate label the walk stops with
   * the new, empty child already in place and the label as the error.
   */
  function InsertWalk<T>(node: Node<T>, segments: seq<string>, capture: bool, parents: seq<string>,
                         m: string, entry: Container<T>): Walk<T>
    decreases |segments|
  {
    if segments == [] then Walk(node.(routes := node.routes[m := entry]), capture, None)
    else
      var segment := segments[0];
      if segment in node.children then
        var w := InsertWalk(node.children[segment], segments[1..], capture, parents + node.placeholders, m, entry);
        w.(node := node.(children := node.children[segment := w.node]))
      else
        var c := CreateChild(node, segment, capture, parents);
        if c.error.Some? then Walk(c.parent, c.capture, c.error)
        else
          var w := InsertWalk(EmptyNode(c.capture), segments[1..], c.capture, c.parents, m, entry);
          w.(node := c.parent.(children := c.parent.children[segment := w.node]))
  }

  /**
   * `insert(method, path, handler)` on the root: the rank grows by one, the label is
   * `"<method> <path>"`, and the walk stores `{handler, rank, label}` at the leaf.
   */
  function InsertInto<T>(s: TrieState<T>, m: string, path: string, handler: T): (r: (TrieState<T>, Option<string>))
    ensures r.0.rank == s.rank + 1 && r.0.name == m + " " + path
  {
    var name := m + " " + path;
    var rank := s.rank + 1;
    var w := InsertWalk(s.tree, Segmentize(path), s.shouldCapture, [], m, Container(handler, rank, name));
    (TrieState(w.node, rank, name, w.capture), w.error)
  }

  /** Puts `node` back under the ancestors `frames`, entering each through the matching key. */
  function Rebuild<T>(frames: seq<Node<T>>, keys: seq<string>, node: Node<T>): Node<T>
    requires |frames| == |keys|
    decreases |frames|
  {
    if |frames| == 0 then node
    else
      var parent := frames[|frames| - 1];
      Rebuild(frames[..|frames| - 1], keys[..|keys| - 1], parent.(children := parent.children[keys[|keys| - 1] := node]))
  }

  /** The steps of `insert` at a node lacking the child for `segment` (router.ts:70-91). */
  method AddChild<T>(node: Node<T>, segment: string, capture: bool, parents: seq<string>) returns (c: Creation<T>)
    ensures c == CreateChild(node, segment, capture, parents)
  {
    var parent := node.(children := node.children[segment := EmptyNode(false)]);
    var shouldCapture := capture;
    var grown := parents;
    var placeholder := ExtractPlaceholder(segment);
    if placeholder.Some? {
      if placeholder.value != "*" {
        shouldCapture := true;
        var duplicated := Occurs(placeholder.value, parents);
        if duplicated || SomeChildHas(parent, placeholder.value) {
          return Creation(parent, shouldCapture, parents, Some(placeholder.value));
        }
      }
      parent := parent.(placeholders := parent.placeholders + [placeholder.value]);
      grown := grown + parent.placeholders;
    }
    grown := grown + parent.placeholders;
    c := Creation(parent, shouldCapture, grown, None);
  }

  /** The scan of `parentPlaceholders` for a label (router.ts:79-83). */
  method Occurs(placeholder: string, parents: seq<string>) returns (found: bool)
    ensures found <==> placeholder in parents
  {
    found := false;
    var j := 0;
    while j < |parents| && !found
      invariant 0 <= j <= |parents|
      invariant found <==> placeholder in parents[..j]
    {
      found := parents[j] == placeholder;
      assert parents[..j + 1] == parents[..j] + [parents[j]];
      j := j + 1;
    }
    assert !found ==> parents[..j] == parents;
  }

  lemma RebuildPush<T>(frames: seq<Node<T>>, keys: seq<string>, parent: Node<T>, key: string, node: Node<T>)
    requires |frames| == |keys|
    ensures Rebuild(frames + [parent], keys + [key], node) == Rebuild(frames, keys, parent.(children := parent.children[key := node]))
  {
    assert (frames + [parent])[..|frames|] == frames && (keys + [key])[..|keys|] == keys;
  }

  /** `Router.add` (router.ts:187-197): one insertion, or two for a trailing `/:x?`. */
  function AddTo<T>(s: TrieState<T>, m: string, path: string, handler: T): (TrieState<T>, Option<string>)
  {
    match UnpackOptionalDynamicParam(path)
    case Some((base, optional)) =>
      var (s1, e1) := InsertInto(s, m, base, handler);
      if e1.Some? then (s1, e1) else InsertInto(s1, m, optional, handler)
    case None => InsertInto(s, m, path, handler)
  }

  // ---------------------------------------------------------------------------
  // Search (router.ts:101-176)
  // ---------------------------------------------------------------------------

  /**
   * The loop state of `search`: the candidates and captured params so far, the next
   * frontier `temp`, the flag `matched`, and whether the source would have thrown a
   * TypeError by reading a child that is not there.
   */
  datatype SearchState<T> = SearchState(
    candidates: seq<Container<T>>,
    params: map<string, string>,
    temp: seq<Node<T>>,
    matched: bool,
    fault: bool)

  /** `node.routes[method]` as a candidate list. */
  function RouteOf<T>(node: Node<T>, m: string): seq<Container<T>>
  {
    if m in node.routes then [node.routes[m]] else []
  }

  /** The literal-child part of one frontier node's step (router.ts:116-130). */
  function LiteralStep<T>(node: Node<T>, segment: string, terminal: bool, m: string, st: SearchState<T>): SearchState<T>
  {
    if segment in node.children then
      var next := node.children[segment];
      if terminal then
        var wild := if "*" in next.children then RouteOf(next.children["*"], m) else [];
        st.(candidates := st.candidates + wild + RouteOf(next, m), matched := true)
      else st.(temp := st.temp + [next])
    else st
  }

  /** One placeholder of a frontier node (router.ts:132-160). */
  function PlaceholderStep<T>(node: Node<T>, name: string, segment: string, terminal: bool, m: string,
                              st: SearchState<T>): SearchState<T>
  {
    if name == "*" then
      if "*" in node.children then
        var child := node.children["*"];
        st.(candidates := st.candidates + RouteOf(child, m), temp := st.temp + [child])
      else st.(fault := true)
    else if segment == "" then st
    else if ":" + name !in node.children then st.(fault := true)
    else
      var child := node.children[":" + name];
      var st' := if terminal then st.(candidates := st.candidates + RouteOf(child, m))
                 else st.(temp := st.temp + [child]);
      if !st'.matched || (segment in node.children && node.children[segment].shouldCapture)
      then st'.(params := st'.params[name := segment])
      else st'
  }

  /** The placeholders of `node` from index `j` on. */
  function FoldNames<T>(node: Node<T>, j: nat, segment: string, terminal: bool, m: string, st: SearchState<T>): SearchState<T>
    requires j <= |node.placeholders|
    decreases |node.placeholders| - j
  {
    if j == |node.placeholders| || st.fault then st
    else FoldNames(node, j + 1, segment, terminal, m, PlaceholderStep(node, node.placeholders[j], segment, terminal, m, st))
  }

  /** One frontier node's whole step. */
  function NodeStep<T>(node: Node<T>, segment: string, terminal: bool, m: string, st: SearchState<T>): SearchState<T>
  {
    FoldNames(node, 0, segment, terminal, m, LiteralStep(node, segment, terminal, m, st))
  }

  /** The frontier `nodes` from index `i` on, for one segment. */
  function FoldNodes<T>(nodes: seq<Node<T>>, i: nat, segment: string, terminal: bool, m: string, st: SearchState<T>): SearchState<T>
    requires i <= |nodes|
    decreases |nodes| - i
  {
    if i == |nodes| || st.fault then st
    else FoldNodes(nodes, i + 1, segment, terminal, m, NodeStep(nodes[i], segment, terminal, m, st))
  }

  /** The segments from index `idx` on, starting from the frontier `nodes`. */
  function Levels<T>(nodes: seq<Node<T>>, segments: seq<string>, idx: nat, m: string, st: SearchState<T>): SearchState<T>
    requires idx <= |segments|
    decreases |segments| - idx
  {
    if idx == |segments| || st.fault then st
    else
      var st' := FoldNodes(nodes, 0, segments[idx], idx == |segments| - 1, m, st);
      Levels(st'.temp, segments, idx + 1, m, st'.(temp := [], matched := false))
  }

  function InitialSearch<T>(): SearchState<T>
  {
    SearchState([], map[], [], false, false)
  }

  /** The state `search` ends in. */
  function SearchRun<T>(tree: Node<T>, m: string, path: string): SearchState<T>
  {
    Levels([tree], Segmentize(path), 0, m, InitialSearch())
  }

  /**
   * The candidate with the lowest rank, the first such one on a tie: what a stable
   * `sort` by rank followed by `shift` picks (router.ts:166-170).
   */
  function Earliest<T>(cs: seq<Container<T>>): (k: nat)
    requires |cs| > 0
    ensures k < |cs|
    ensures forall j :: 0 <= j < |cs| ==> cs[k].rank <= cs[j].rank
    ensures forall j :: 0 <= j < k ==> cs[j].rank > cs[k].rank
  {
    if |cs| == 1 then 0
    else
      var k := Earliest(cs[1..]) + 1;
      if cs[0].rank <= cs[k].rank then 0 else k
  }

  /** The outcome of `search`: a handler with the captured params, no match, or a thrown TypeError. */
  datatype SearchResult<T> = Found(handler: T, params: map<string, string>) | NoMatch | Fault

  /**
   * `search(method, path)`: no match when no candidate was collected, otherwise the
   * handler of a candidate whose rank is the lowest of all candidates.
   */
  function SearchIn<T>(tree: Node<T>, m: string, path: string): (r: SearchResult<T>)
    ensures var st := SearchRun(tree, m, path);
      && (r.Fault? <==> st.fault)
      && (r.NoMatch? <==> !st.fault && st.candidates == [])
      && (r.Found? ==>
            && r.params == st.params
            && exists k :: 0 <= k < |st.candidates| && st.candidates[k].handler == r.handler &&
                 forall j :: 0 <= j < |st.candidates| ==> st.candidates[k].rank <= st.candidates[j].rank)
  {
    var st := SearchRun(tree, m, path);
    if st.fault then Fault
    else if |st.candidates| == 0 then NoMatch
    else Found(st.candidates[Earliest(st.candidates)].handler, st.params)
  }

  // ---------------------------------------------------------------------------
  // The root Node object and the Router
  // ---------------------------------------------------------------------------

  /**
   * The `for` loop of `insert` (router.ts:63-94): walks `segments` down from `tree`,
   * creating the missing children, and stops at the leaf or at the first duplicated label.
   * The ancestors passed on the way are kept in `frames` (entered through `keys`) so the
   * new trie can be rebuilt around the final `node`.
   */
  method Descend<T>(tree: Node<T>, segments: seq<string>, capture0: bool, m: string, entry: Container<T>)
    returns (node: Node<T>, frames: seq<Node<T>>, keys: seq<string>, capture: bool, error: Option<string>)
    ensures |frames| == |keys|
    ensures var goal := InsertWalk(tree, segments, capture0, [], m, entry);
      && capture == goal.capture && error == goal.error
      && Rebuild(frames, keys, if error.None? then node.(routes := node.routes[m := entry]) else node) == goal.node
  {
    ghost var goal := InsertWalk(tree, segments, capture0, [], m, entry);
    node, frames, keys, capture, error := tree, [], [], capture0, None;
    var parents: seq<string> := [];
    var i := 0;
    while i < |segments| && error.None?
      invariant 0 <= i <= |segments|
      invariant |frames| == |keys|
      invariant error.None? ==>
        var w := InsertWalk(node, segments[i..], capture, parents, m, entry);
        Rebuild(frames, keys, w.node) == goal.node && w.capture == goal.capture && w.error == goal.error
      invariant error.Some? ==>
        Rebuild(frames, keys, node) == goal.node && capture == goal.capture && error == goal.error
    {
      var segment := segments[i];
      assert segments[i..][0] == segment && segments[i..][1..] == segments[i + 1..];
      if segment in node.children {
        RebuildPush(frames, keys, node, segment, InsertWalk(node.children[segment], segments[i + 1..], capture, parents + node.placeholders, m, entry).node);
        parents := parents + node.placeholders;
        frames, keys := frames + [node], keys + [segment];
        node := node.children[segment];
      } else {
        var c := AddChild(node, segment, capture, parents);
        error := c.error;
        capture := c.capture;
        if error.None? {
          RebuildPush(frames, keys, c.parent, segment, InsertWalk(EmptyNode(capture), segments[i + 1..], capture, c.parents, m, entry).node);
          frames, keys := frames + [c.parent], keys + [segment];
          parents := c.parents;
          node := EmptyNode(capture);
        } else {
          node := c.parent;
        }
      }
      i := i + 1;
    }
    if error.None? {
      assert segments[i..] == [];
    }
  }

  /** Puts the final node back under its ancestors, innermost first. */
  method Climb<T>(frames0: seq<Node<T>>, keys0: seq<string>, node0: Node<T>) returns (node: Node<T>)
    requires |frames0| == |keys0|
    ensures node == Rebuild(frames0, keys0, node0)
  {
    var frames, keys := frames0, keys0;
    node := node0;
    while |frames| > 0
      invariant |frames| == |keys|
      invariant Rebuild(frames, keys, node) == Rebuild(frames0, keys0, node0)
    {
      var parent := frames[|frames| - 1];
      node := parent.(children := parent.children[keys[|keys| - 1] := node]);
      frames, keys := frames[..|frames| - 1], keys[..|keys| - 1];
    }
  }

  /**
   * One node of the frontier (router.ts:115-161): its literal child, then each of its
   * placeholders in order. `fault` is the `TypeError` raised when a placeholder's child is
   * missing; otherwise the four outputs are the new search state.
   */
  method VisitNode<T>(node: Node<T>, segment: string, isTerminal: bool, m: string,
                      candidates0: seq<Container<T>>, params0: map<string, string>,
                      temp0: seq<Node<T>>, matched0: bool)
    returns (candidates: seq<Container<T>>, params: map<string, string>, temp: seq<Node<T>>,
             matched: bool, fault: bool)
    ensures var st := NodeStep(node, segment, isTerminal, m, SearchState(candidates0, params0, temp0, matched0, false));
      fault == st.fault && (!fault ==> SearchState(candidates, params, temp, matched, false) == st)
  {
    candidates, params, temp, matched, fault := candidates0, params0, temp0, matched0, false;
    ghost var before := SearchState(candidates, params, temp, matched, false);
    if segment in node.children {
      var next := node.children[segment];
      if isTerminal {
        if "*" in next.children {
          var star := next.children["*"];
          if m in star.routes {
            candidates := candidates + [star.routes[m]];
          }
        }
        if m in next.routes {
          candidates := candidates + [next.routes[m]];
        }
        matched := true;
      } else {
        temp := temp + [next];
      }
    }
    assert LiteralStep(node, segment, isTerminal, m, before) == SearchState(candidates, params, temp, matched, false);
    ghost var nodeGoal := FoldNames(node, 0, segment, isTerminal, m, SearchState(candidates, params, temp, matched, false));
    var j := 0;
    while j < |node.placeholders|
      invariant 0 <= j <= |node.placeholders|
      invariant FoldNames(node, j, segment, isTerminal, m, SearchState(candidates, params, temp, matched, false)) == nodeGoal
    {
      var name := node.placeholders[j];
      ghost var stepFrom := SearchState(candidates, params, temp, matched, false);
      if name == "*" {
        if "*" !in node.children {
          fault := true;
          return;
        }
        var child := node.children["*"];
        if m in child.routes {
          candidates := candidates + [child.routes[m]];
        }
        temp := temp + [child];
      } else if segment != "" {
        if ":" + name !in node.children {
          fault := true;
          return;
        }
        var child := node.children[":" + name];
        if isTerminal {
          if m in child.routes {
            candidates := candidates + [child.routes[m]];
          }
        } else {
          temp := temp + [child];
        }
        if !matched {
          params := params[name := segment];
        } else if segment in node.children && node.children[segment].shouldCapture {
          params := params[name := segment];
        }
      }
      assert PlaceholderStep(node, name, segment, isTerminal, m, stepFrom) == SearchState(candidates, params, temp, matched, false);
      j := j + 1;
    }
  }

  /**
   * The root `Node` instance. `tree` holds its children, routes and placeholders (and the
   * whole trie below); `rank`, `name` and `shouldCapture` are the fields that `insert`
   * updates on the root itself.
   */
  class Root<T> {
    var tree: Node<T>
    var rank: int
    var name: string
    var shouldCapture: bool

    function State(): TrieState<T>
      reads this
    {
      TrieState(tree, rank, name, shouldCapture)
    }

    constructor ()
      ensures State() == EmptyTrie()
    {
      tree := EmptyNode(false);
      rank := 0;
      name := "";
      shouldCapture := false;
    }

    /** `Node.insert` (router.ts:52-99) called on the root; returns the duplicated label on failure. */
    method Insert(m: string, path: string, handler: T) returns (error: Option<string>)
      modifies this
      ensures (State(), error) == InsertInto(old(State()), m, path, handler)
    {
      name := m + " " + path;
      rank := rank + 1;
      var entry := Container(handler, rank, name);
      var node, frames, keys, capture;
      node, frames, keys, capture, error := Descend(tree, Segmentize(path), shouldCapture, m, entry);
      if error.None? {
        node := node.(routes := node.routes[m := entry]);
      }
      tree := Climb(frames, keys, node);
      shouldCapture := capture;
    }

    /** `Node.search` (router.ts:101-176). */
    method Search(m: string, path: string) returns (r: SearchResult<T>)
      ensures r == SearchIn(tree, m, path)
    {
      var candidates: seq<Container<T>> := [];
      var params: map<string, string> := map[];
      var nodes := [tree];
      var segments := Segmentize(path);
      var size := |segments|;
      ghost var goal := Levels(nodes, segments, 0, m, InitialSearch());
      var idx := 0;
      while idx < size
        invariant 0 <= idx <= size
        invariant Levels(nodes, segments, idx, m, SearchState(candidates, params, [], false, false)) == goal
      {
        var segment := segments[idx];
        var isTerminal := idx == size - 1;
        var temp: seq<Node<T>> := [];
        var matched := false;
        ghost var levelGoal := FoldNodes(nodes, 0, segment, isTerminal, m, SearchState(candidates, params, [], false, false));
        var i := 0;
        while i < |nodes|
          invariant 0 <= i <= |nodes|
          invariant FoldNodes(nodes, i, segment, isTerminal, m, SearchState(candidates, params, temp, matched, false)) == levelGoal
        {
          var fault;
          candidates, params, temp, matched, fault := VisitNode(nodes[i], segment, isTerminal, m, candidates, params, temp, matched);
          if fault {
            return Fault;
          }
          i := i + 1;
        }
        nodes := temp;
        idx := idx + 1;
      }
      if |candidates| > 0 {
        r := Found(candidates[Earliest(candidates)].handler, params);
      } else {
        r := NoMatch;
      }
    }
  }

  /** `Router` (router.ts:180-202): owns the root node. */
  class Router<T> {
    const root: Root<T>

    constructor ()
      ensures fresh(root) && root.State() == EmptyTrie()
    {
      root := new Root();
    }

    /** `add` (router.ts:187-197); returns the duplicated label when an insertion throws. */
    method Add(m: string, path: string, handler: T) returns (error: Option<string>)
      modifies root
      ensures (root.State(), error) == AddTo(old(root.State()), m, path, handler)
    {
      var results := UnpackOptionalDynamicParam(path);
      if results.Some? {
        var (basePath, optionalPath) := results.value;
        error := root.Insert(m, basePath, handler);
        if error.None? {
          error := root.Insert(m, optionalPath, handler);
        }
      } else {
        error := root.Insert(m, path, handler);
      }
    }

    /** `find` (router.ts:199-201). */
    method Find(m: string, path: string) returns (r: SearchResult<T>)
      ensures r == SearchIn(root.tree, m, path)
    {
      r := root.Search(m, path);
    }
  }
}
