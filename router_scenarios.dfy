/**
 * The expected results of router.test.ts, and a few more registrations that show the
 * ordering, capture, wildcard, collision and optional-parameter rules, derived from the
 * model. Handlers are arbitrary values `h1`, `h2`, ... of any type, so each result holds
 * for the strings the tests use and for every other choice.
 *
 * Each trie is written out once as a value. A `...Walk` lemma follows `insert` down the
 * trie one segment at a time; `Register` turns a walk into the effect of `add`; the
 * search lemmas evaluate `search` one level of the frontier at a time.
 */
module RouterScenarios {
  import opened Types
  import opened Util
  import opened TrieRouter
  import opened TrieProps

  // ---------------------------------------------------------------------------
  // Helpers
  // ---------------------------------------------------------------------------

  /** The segments of a path written as `"/" + join(segments, "/")`. */
  lemma Segments(path: string, segments: seq<string>)
    requires |segments| >= 1 && (forall i :: 0 <= i < |segments| ==> '/' !in segments[i])
    requires path == "/" + Join(segments, '/')
    ensures Segmentize(path) == segments
  {
    SegmentizeJoin(segments);
  }

  /** The segments of `"/" + a + "/" + b + "/" + c`. */
  lemma Segments3(path: string, a: string, b: string, c: string)
    requires '/' !in a && '/' !in b && '/' !in c
    requires path == "/" + a + "/" + b + "/" + c
    ensures Segmentize(path) == [a, b, c]
  {
    assert [a, b, c][1..] == [b, c] && [b, c][1..] == [c];
    assert Join([b, c], '/') == b + "/" + c;
    assert Join([a, b, c], '/') == a + "/" + (b + "/" + c);
    assert path == "/" + Join([a, b, c], '/');
    SegmentizeJoin([a, b, c]);
  }

  /** `add` of a path without a trailing `?` is the walk of its segments, with the next rank. */
  lemma Register<T>(s: TrieState<T>, m: string, path: string, segments: seq<string>, handler: T, w: Walk<T>)
    requires |path| > 0 && path[|path| - 1] != '?'
    requires Segmentize(path) == segments
    requires InsertWalk(s.tree, segments, s.shouldCapture, [], m, Entry(handler, s.rank + 1, m, path)) == w
    ensures AddTo(s, m, path, handler) == (TrieState(w.node, s.rank + 1, m + " " + path, w.capture), w.error)
  {
    AddPlain(s, m, path, handler);
  }

  /** The container `insert` stores for the `rank`-th registration of `m` on `path`. */
  function Entry<T>(handler: T, rank: int, m: string, path: string): Container<T>
  {
    Container(handler, rank, m + " " + path)
  }

  function Leaf<T>(routes: map<string, Container<T>>, shouldCapture: bool): Node<T>
  {
    Node(map[], routes, [], shouldCapture)
  }

  /** `search` over a one-segment path. */
  lemma SearchOne<T>(tree: Node<T>, m: string, path: string, seg: string, st: SearchState<T>)
    requires Segmentize(path) == [seg]
    requires FoldNodes([tree], 0, seg, true, m, InitialSearch()) == st
    ensures SearchRun(tree, m, path) == st.(temp := [], matched := false)
  {
    var segs := Segmentize(path);
    assert Levels([tree], segs, 0, m, InitialSearch()) == Levels(st.temp, segs, 1, m, st.(temp := [], matched := false));
  }

  /** `search` over a two-segment path, the first level not faulting. */
  lemma SearchTwo<T>(tree: Node<T>, m: string, path: string, seg0: string, seg1: string,
                     st0: SearchState<T>, st1: SearchState<T>)
    requires Segmentize(path) == [seg0, seg1]
    requires FoldNodes([tree], 0, seg0, false, m, InitialSearch()) == st0 && !st0.fault
    requires FoldNodes(st0.temp, 0, seg1, true, m, st0.(temp := [], matched := false)) == st1
    ensures SearchRun(tree, m, path) == st1.(temp := [], matched := false)
  {
    var segs := Segmentize(path);
    var s0 := st0.(temp := [], matched := false);
    assert Levels([tree], segs, 0, m, InitialSearch()) == Levels(st0.temp, segs, 1, m, s0);
    assert Levels(st0.temp, segs, 1, m, s0) == Levels(st1.temp, segs, 2, m, st1.(temp := [], matched := false));
  }

  /** `search` over a three-segment path, the first two levels not faulting. */
  lemma SearchThree<T>(tree: Node<T>, m: string, path: string, seg0: string, seg1: string, seg2: string,
                       st0: SearchState<T>, st1: SearchState<T>, st2: SearchState<T>)
    requires Segmentize(path) == [seg0, seg1, seg2]
    requires FoldNodes([tree], 0, seg0, false, m, InitialSearch()) == st0 && !st0.fault
    requires FoldNodes(st0.temp, 0, seg1, false, m, st0.(temp := [], matched := false)) == st1 && !st1.fault
    requires FoldNodes(st1.temp, 0, seg2, true, m, st1.(temp := [], matched := false)) == st2
    ensures SearchRun(tree, m, path) == st2.(temp := [], matched := false)
  {
    var segs := Segmentize(path);
    var s0, s1 := st0.(temp := [], matched := false), st1.(temp := [], matched := false);
    assert Levels([tree], segs, 0, m, InitialSearch()) == Levels(st0.temp, segs, 1, m, s0);
    assert Levels(st0.temp, segs, 1, m, s0) == Levels(st1.temp, segs, 2, m, s1);
    assert Levels(st1.temp, segs, 2, m, s1) == Levels(st2.temp, segs, 3, m, st2.(temp := [], matched := false));
  }

  /** One level over a frontier of one node with exactly one placeholder. */
  lemma SingleNode<T>(node: Node<T>, segment: string, terminal: bool, m: string, st: SearchState<T>,
                      lit: SearchState<T>, out: SearchState<T>)
    requires |node.placeholders| == 1 && !st.fault
    requires LiteralStep(node, segment, terminal, m, st) == lit
    requires PlaceholderStep(node, node.placeholders[0], segment, terminal, m, lit) == out
    ensures FoldNodes([node], 0, segment, terminal, m, st) == out
  {
    assert !lit.fault;
    assert NodeStep(node, segment, terminal, m, st) == FoldNames(node, 1, segment, terminal, m, out);
  }

  /** The outcome of a search whose final state is known and whose `k`-th candidate is the earliest. */
  lemma Outcome<T>(tree: Node<T>, m: string, path: string, st: SearchState<T>, k: nat)
    requires SearchRun(tree, m, path) == st && !st.fault
    requires k < |st.candidates| && Earliest(st.candidates) == k
    ensures SearchIn(tree, m, path) == Found(st.candidates[k].handler, st.params)
  {
  }

  /** One level over a frontier of one node without placeholders: only its literal child counts. */
  lemma LiteralOnly<T>(node: Node<T>, segment: string, terminal: bool, m: string, st: SearchState<T>)
    requires node.placeholders == [] && !st.fault
    ensures FoldNodes([node], 0, segment, terminal, m, st) == LiteralStep(node, segment, terminal, m, st)
  {
  }

  /** One level over a frontier of two nodes, visited in order. */
  lemma Pair<T>(a: Node<T>, b: Node<T>, segment: string, terminal: bool, m: string, st: SearchState<T>,
                mid: SearchState<T>, out: SearchState<T>)
    requires !st.fault && FoldNodes([a], 0, segment, terminal, m, st) == mid && !mid.fault
    requires FoldNodes([b], 0, segment, terminal, m, mid) == out
    ensures FoldNodes([a, b], 0, segment, terminal, m, st) == out
  {
    assert mid == NodeStep(a, segment, terminal, m, st);
    assert out == NodeStep(b, segment, terminal, m, mid);
    var ab := [a, b];
    assert ab[0] == a && ab[1] == b;
    assert FoldNodes(ab, 0, segment, terminal, m, st) == FoldNodes(ab, 1, segment, terminal, m, mid);
    assert FoldNodes(ab, 1, segment, terminal, m, mid) == FoldNodes(ab, 2, segment, terminal, m, out);
  }

  /**
   * `add` of a path that unpacks into `base` and `optional`: the walk for `base` with the
   * next rank, then, when it succeeds, the walk for `optional` with the rank after
   * (router.ts:187-197).
   */
  lemma RegisterOptional<T>(s: TrieState<T>, m: string, path: string, base: string, optional: string, handler: T,
                            w1: Walk<T>, w2: Walk<T>)
    requires UnpackOptionalDynamicParam(path) == Some((base, optional))
    requires InsertWalk(s.tree, Segmentize(base), s.shouldCapture, [], m, Entry(handler, s.rank + 1, m, base)) == w1
    requires w1.error.None?
    requires InsertWalk(w1.node, Segmentize(optional), w1.capture, [], m, Entry(handler, s.rank + 2, m, optional)) == w2
    ensures AddTo(s, m, path, handler) == (TrieState(w2.node, s.rank + 2, m + " " + optional, w2.capture), w2.error)
  {
    var s1 := TrieState(w1.node, s.rank + 1, m + " " + base, w1.capture);
    assert InsertInto(s, m, base, handler) == (s1, None);
    assert InsertInto(s1, m, optional, handler) == (TrieState(w2.node, s.rank + 2, m + " " + optional, w2.capture), w2.error);
  }

  /** A last segment that is a new literal: a leaf that copies the root's flag. */
  lemma NewLiteralLeaf<T>(node: Node<T>, segment: string, capture: bool, parents: seq<string>, m: string, entry: Container<T>)
    requires segment !in node.children && ExtractPlaceholder(segment).None?
    ensures InsertWalk(node, [segment], capture, parents, m, entry)
         == Walk(node.(children := node.children[segment := Leaf(map[m := entry], capture)]), capture, None)
  {
    assert [segment] == [segment] + [];
    StepLiteral(node, segment, [], capture, parents, m, entry);
  }

  /** A last segment that is a new `":" + name`: a leaf with the flag set, and the name recorded. */
  lemma NewNamedLeaf<T>(node: Node<T>, name: string, capture: bool, parents: seq<string>, m: string, entry: Container<T>)
    requires ":" + name !in node.children && |name| > 0 && NoBraces(name) && name != "*"
    requires name !in parents && forall k :: k in node.children ==> !HasDynamicParam(name, node.children[k])
    ensures InsertWalk(node, [":" + name], capture, parents, m, entry)
         == Walk(node.(children := node.children[":" + name := Leaf(map[m := entry], true)],
                       placeholders := node.placeholders + [name]), true, None)
  {
    assert [":" + name] == [":" + name] + [];
    StepNamed(node, name, [], capture, parents, m, entry);
  }

  /** A last segment `*` that is new: a leaf that copies the root's flag, and `*` recorded. */
  lemma NewWildLeaf<T>(node: Node<T>, capture: bool, parents: seq<string>, m: string, entry: Container<T>)
    requires "*" !in node.children
    ensures InsertWalk(node, ["*"], capture, parents, m, entry)
         == Walk(node.(children := node.children["*" := Leaf(map[m := entry], capture)],
                       placeholders := node.placeholders + ["*"]), capture, None)
  {
    assert ["*"] == ["*"] + [];
    StepWildcard(node, [], capture, parents, m, entry);
  }

  // ---------------------------------------------------------------------------
  // router.test.ts:4-33, static lookup
  // ---------------------------------------------------------------------------

  function StaticTrie1<T>(h1: T): TrieState<T>
  {
    TrieState(Node(map["foo" := Leaf(map["GET" := Entry(h1, 1, "GET", "/foo")], false)], map[], [], false),
              1, "GET" + " " + "/foo", false)
  }

  /** `GET /foo` and `POST /foo` share one leaf. */
  function StaticTrie<T>(h1: T, h2: T): TrieState<T>
  {
    TrieState(Node(map["foo" := Leaf(map["GET" := Entry(h1, 1, "GET", "/foo"), "POST" := Entry(h2, 2, "POST", "/foo")], false)],
                   map[], [], false),
              2, "POST" + " " + "/foo", false)
  }

  lemma StaticFirst<T>(h1: T)
    ensures AddTo(EmptyTrie(), "GET", "/foo", h1) == (StaticTrie1(h1), None)
  {
    Segments("/foo", ["foo"]);
    assert ["foo"] == ["foo"] + [];
    StepLiteral(EmptyNode<T>(false), "foo", [], false, [], "GET", Entry(h1, 1, "GET", "/foo"));
    Register(EmptyTrie(), "GET", "/foo", ["foo"], h1, Walk(StaticTrie1(h1).tree, false, None));
  }

  lemma StaticSecond<T>(h1: T, h2: T)
    ensures AddTo(StaticTrie1(h1), "POST", "/foo", h2) == (StaticTrie(h1, h2), None)
  {
    Segments("/foo", ["foo"]);
    assert ["foo"] == ["foo"] + [];
    StepExisting(StaticTrie1(h1).tree, "foo", [], false, [], "POST", Entry(h2, 2, "POST", "/foo"));
    Register(StaticTrie1(h1), "POST", "/foo", ["foo"], h2, Walk(StaticTrie(h1, h2).tree, false, None));
  }

  lemma StaticBuilt<T>(h1: T, h2: T)
    ensures AddTo(EmptyTrie(), "GET", "/foo", h1) == (StaticTrie1(h1), None)
    ensures AddTo(StaticTrie1(h1), "POST", "/foo", h2) == (StaticTrie(h1, h2), None)
  {
    StaticFirst(h1);
    StaticSecond(h1, h2);
  }

  /** router.test.ts:10-17: `GET /foo`. */
  lemma StaticGet<T>(h1: T, h2: T)
    ensures SearchIn(StaticTrie(h1, h2).tree, "GET", "/foo") == Found(h1, map[])
  {
    Segments("/foo", ["foo"]);
    SearchOne(StaticTrie(h1, h2).tree, "GET", "/foo", "foo", SearchState([Entry(h1, 1, "GET", "/foo")], map[], [], true, false));
  }

  /** router.test.ts:19-26: `POST /foo` resolves independently of `GET`. */
  lemma StaticPost<T>(h1: T, h2: T)
    ensures SearchIn(StaticTrie(h1, h2).tree, "POST", "/foo") == Found(h2, map[])
  {
    Segments("/foo", ["foo"]);
    SearchOne(StaticTrie(h1, h2).tree, "POST", "/foo", "foo", SearchState([Entry(h2, 2, "POST", "/foo")], map[], [], true, false));
  }

  /** router.test.ts:28-32: `GET /bar` finds nothing. */
  lemma StaticNotFound<T>(h1: T, h2: T)
    ensures SearchIn(StaticTrie(h1, h2).tree, "GET", "/bar") == NoMatch
  {
    Segments("/bar", ["bar"]);
    SearchOne(StaticTrie(h1, h2).tree, "GET", "/bar", "bar", InitialSearch());
  }

  // ---------------------------------------------------------------------------
  // router.test.ts:35-65, registration order against specificity
  // ---------------------------------------------------------------------------

  function ZaisteLeaf<T>(h1: T): Node<T>
  {
    Leaf(map["GET" := Entry(h1, 1, "GET", "/welcome/zaiste")], false)
  }

  function NameLeaf<T>(h2: T): Node<T>
  {
    Leaf(map["GET" := Entry(h2, 2, "GET", "/welcome/:name")], true)
  }

  function KrysiaLeaf<T>(h3: T): Node<T>
  {
    Leaf(map["GET" := Entry(h3, 3, "GET", "/welcome/krysia")], true)
  }

  /** After `/welcome/zaiste`: two literal nodes, no capture flag. */
  function OrderTrie1<T>(h1: T): TrieState<T>
  {
    TrieState(Node(map["welcome" := Node(map["zaiste" := ZaisteLeaf(h1)], map[], [], false)], map[], [], false),
              1, "GET" + " " + "/welcome/zaiste", false)
  }

  function Welcome2<T>(h1: T, h2: T): Node<T>
  {
    Node(map["zaiste" := ZaisteLeaf(h1), ":name" := NameLeaf(h2)], map[], ["name"], false)
  }

  /** After `/welcome/:name`: the placeholder is recorded on `welcome`, and the root's flag is set. */
  function OrderTrie2<T>(h1: T, h2: T): TrieState<T>
  {
    TrieState(Node(map["welcome" := Welcome2(h1, h2)], map[], [], false), 2, "GET" + " " + "/welcome/:name", true)
  }

  function Welcome3<T>(h1: T, h2: T, h3: T): Node<T>
  {
    Node(map["zaiste" := ZaisteLeaf(h1), ":name" := NameLeaf(h2), "krysia" := KrysiaLeaf(h3)], map[], ["name"], false)
  }

  /** After `/welcome/krysia`: the new leaf copies the root's flag, which is now set. */
  function OrderTrie<T>(h1: T, h2: T, h3: T): TrieState<T>
  {
    TrieState(Node(map["welcome" := Welcome3(h1, h2, h3)], map[], [], false), 3, "GET" + " " + "/welcome/krysia", true)
  }

  lemma OrderWalk1<T>(h1: T)
    ensures InsertWalk(EmptyTrie<T>().tree, ["welcome", "zaiste"], false, [], "GET", Entry(h1, 1, "GET", "/welcome/zaiste"))
         == Walk(OrderTrie1(h1).tree, false, None)
  {
    var e := Entry(h1, 1, "GET", "/welcome/zaiste");
    assert ["welcome", "zaiste"] == ["welcome"] + ["zaiste"] && ["zaiste"] == ["zaiste"] + [];
    StepLiteral(EmptyNode<T>(false), "welcome", ["zaiste"], false, [], "GET", e);
    StepLiteral(EmptyNode<T>(false), "zaiste", [], false, [], "GET", e);
  }

  lemma OrderBuilt1<T>(h1: T)
    ensures AddTo(EmptyTrie(), "GET", "/welcome/zaiste", h1) == (OrderTrie1(h1), None)
  {
    Segments("/welcome/zaiste", ["welcome", "zaiste"]);
    OrderWalk1(h1);
    Register(EmptyTrie(), "GET", "/welcome/zaiste", ["welcome", "zaiste"], h1, Walk(OrderTrie1(h1).tree, false, None));
  }

  /** The placeholder child is created below the existing `welcome` node. */
  lemma OrderWalk2<T>(h1: T, h2: T)
    ensures InsertWalk(OrderTrie1(h1).tree, ["welcome", ":name"], false, [], "GET", Entry(h2, 2, "GET", "/welcome/:name"))
         == Walk(OrderTrie2(h1, h2).tree, true, None)
  {
    var e := Entry(h2, 2, "GET", "/welcome/:name");
    assert ":" + "name" == ":name";
    assert ["welcome", ":name"] == ["welcome"] + [":name"] && [":name"] == [":name"] + [];
    var root := OrderTrie1(h1).tree;
    StepExisting(root, "welcome", [":name"], false, [], "GET", e);
    assert [] + root.placeholders == [];
    assert !HasDynamicParam("name", ZaisteLeaf(h1));
    var wel := root.children["welcome"];
    StepNamed(wel, "name", [], false, [], "GET", e);
    assert wel.placeholders + ["name"] == ["name"];
    assert InsertWalk(EmptyNode<T>(true), [], true, [] + ["name"] + ["name"], "GET", e) == Walk(NameLeaf(h2), true, None);
    assert wel.children[":name" := NameLeaf(h2)] == Welcome2(h1, h2).children;
  }

  lemma OrderBuilt2<T>(h1: T, h2: T)
    ensures AddTo(OrderTrie1(h1), "GET", "/welcome/:name", h2) == (OrderTrie2(h1, h2), None)
  {
    Segments("/welcome/:name", ["welcome", ":name"]);
    OrderWalk2(h1, h2);
    Register(OrderTrie1(h1), "GET", "/welcome/:name", ["welcome", ":name"], h2, Walk(OrderTrie2(h1, h2).tree, true, None));
  }

  lemma OrderWalk3<T>(h1: T, h2: T, h3: T)
    ensures InsertWalk(OrderTrie2(h1, h2).tree, ["welcome", "krysia"], true, [], "GET", Entry(h3, 3, "GET", "/welcome/krysia"))
         == Walk(OrderTrie(h1, h2, h3).tree, true, None)
  {
    var e := Entry(h3, 3, "GET", "/welcome/krysia");
    assert ["welcome", "krysia"] == ["welcome"] + ["krysia"] && ["krysia"] == ["krysia"] + [];
    var root := OrderTrie2(h1, h2).tree;
    StepExisting(root, "welcome", ["krysia"], true, [], "GET", e);
    assert [] + root.placeholders == [];
    StepLiteral(root.children["welcome"], "krysia", [], true, [], "GET", e);
  }

  lemma OrderBuilt3<T>(h1: T, h2: T, h3: T)
    ensures AddTo(OrderTrie2(h1, h2), "GET", "/welcome/krysia", h3) == (OrderTrie(h1, h2, h3), None)
  {
    Segments("/welcome/krysia", ["welcome", "krysia"]);
    OrderWalk3(h1, h2, h3);
    Register(OrderTrie2(h1, h2), "GET", "/welcome/krysia", ["welcome", "krysia"], h3, Walk(OrderTrie(h1, h2, h3).tree, true, None));
  }

  /** The first level of every `/welcome/...` search: the frontier becomes the `welcome` node. */
  lemma WelcomeLevel<T>(root: Node<T>, m: string)
    requires root.placeholders == [] && "welcome" in root.children
    ensures FoldNodes([root], 0, "welcome", false, m, InitialSearch()) == SearchState([], map[], [root.children["welcome"]], false, false)
  {
  }

  /** The second level of `/welcome/zaiste`: both the literal and the placeholder are candidates. */
  lemma ZaisteLevel<T>(h1: T, h2: T, h3: T)
    ensures FoldNodes([Welcome3(h1, h2, h3)], 0, "zaiste", true, "GET", InitialSearch())
         == SearchState([Entry(h1, 1, "GET", "/welcome/zaiste"), Entry(h2, 2, "GET", "/welcome/:name")], map[], [], true, false)
  {
    var w := Welcome3(h1, h2, h3);
    assert ":" + "name" == ":name";
    var lit := SearchState([Entry(h1, 1, "GET", "/welcome/zaiste")], map[], [], true, false);
    assert LiteralStep(w, "zaiste", true, "GET", InitialSearch()) == lit;
    var out := SearchState([Entry(h1, 1, "GET", "/welcome/zaiste"), Entry(h2, 2, "GET", "/welcome/:name")], map[], [], true, false);
    assert PlaceholderStep(w, "name", "zaiste", true, "GET", lit) == out;
    SingleNode(w, "zaiste", true, "GET", InitialSearch(), lit, out);
  }

  /** router.test.ts:42-48: the literal registered first wins, and nothing is captured. */
  lemma OrderZaiste<T>(h1: T, h2: T, h3: T)
    ensures SearchIn(OrderTrie(h1, h2, h3).tree, "GET", "/welcome/zaiste") == Found(h1, map[])
  {
    Segments("/welcome/zaiste", ["welcome", "zaiste"]);
    WelcomeLevel(OrderTrie(h1, h2, h3).tree, "GET");
    ZaisteLevel(h1, h2, h3);
    var cs := [Entry(h1, 1, "GET", "/welcome/zaiste"), Entry(h2, 2, "GET", "/welcome/:name")];
    SearchTwo(OrderTrie(h1, h2, h3).tree, "GET", "/welcome/zaiste", "welcome", "zaiste",
              SearchState([], map[], [Welcome3(h1, h2, h3)], false, false), SearchState(cs, map[], [], true, false));
    assert Earliest(cs) == 0;
    Outcome(OrderTrie(h1, h2, h3).tree, "GET", "/welcome/zaiste", SearchState(cs, map[], [], false, false), 0);
  }

  lemma AntekLevel<T>(h1: T, h2: T, h3: T)
    ensures FoldNodes([Welcome3(h1, h2, h3)], 0, "antek", true, "GET", InitialSearch())
         == SearchState([Entry(h2, 2, "GET", "/welcome/:name")], map["name" := "antek"], [], false, false)
  {
    var w := Welcome3(h1, h2, h3);
    assert ":" + "name" == ":name";
    assert LiteralStep(w, "antek", true, "GET", InitialSearch()) == InitialSearch();
    var out := SearchState([Entry(h2, 2, "GET", "/welcome/:name")], map["name" := "antek"], [], false, false);
    assert PlaceholderStep(w, "name", "antek", true, "GET", InitialSearch()) == out;
    SingleNode(w, "antek", true, "GET", InitialSearch(), InitialSearch(), out);
  }

  /** router.test.ts:50-56: a name with no literal goes to the placeholder and is captured. */
  lemma OrderAntek<T>(h1: T, h2: T, h3: T)
    ensures SearchIn(OrderTrie(h1, h2, h3).tree, "GET", "/welcome/antek") == Found(h2, map["name" := "antek"])
  {
    Segments("/welcome/antek", ["welcome", "antek"]);
    WelcomeLevel(OrderTrie(h1, h2, h3).tree, "GET");
    AntekLevel(h1, h2, h3);
    SearchTwo(OrderTrie(h1, h2, h3).tree, "GET", "/welcome/antek", "welcome", "antek",
              SearchState([], map[], [Welcome3(h1, h2, h3)], false, false),
              SearchState([Entry(h2, 2, "GET", "/welcome/:name")], map["name" := "antek"], [], false, false));
  }

  lemma KrysiaLevel<T>(h1: T, h2: T, h3: T)
    ensures FoldNodes([Welcome3(h1, h2, h3)], 0, "krysia", true, "GET", InitialSearch())
         == SearchState([Entry(h3, 3, "GET", "/welcome/krysia"), Entry(h2, 2, "GET", "/welcome/:name")],
                        map["name" := "krysia"], [], true, false)
  {
    var w := Welcome3(h1, h2, h3);
    assert ":" + "name" == ":name";
    var lit := SearchState([Entry(h3, 3, "GET", "/welcome/krysia")], map[], [], true, false);
    assert LiteralStep(w, "krysia", true, "GET", InitialSearch()) == lit;
    var out := SearchState([Entry(h3, 3, "GET", "/welcome/krysia"), Entry(h2, 2, "GET", "/welcome/:name")],
                           map["name" := "krysia"], [], true, false);
    assert PlaceholderStep(w, "name", "krysia", true, "GET", lit) == out;
    SingleNode(w, "krysia", true, "GET", InitialSearch(), lit, out);
  }

  /**
   * router.test.ts:58-64: the literal registered after the placeholder loses to it, and the
   * name is captured because the literal leaf has its flag set (router.ts:153-158).
   */
  lemma OrderKrysia<T>(h1: T, h2: T, h3: T)
    ensures SearchIn(OrderTrie(h1, h2, h3).tree, "GET", "/welcome/krysia") == Found(h2, map["name" := "krysia"])
  {
    Segments("/welcome/krysia", ["welcome", "krysia"]);
    WelcomeLevel(OrderTrie(h1, h2, h3).tree, "GET");
    KrysiaLevel(h1, h2, h3);
    var cs := [Entry(h3, 3, "GET", "/welcome/krysia"), Entry(h2, 2, "GET", "/welcome/:name")];
    SearchTwo(OrderTrie(h1, h2, h3).tree, "GET", "/welcome/krysia", "welcome", "krysia",
              SearchState([], map[], [Welcome3(h1, h2, h3)], false, false), SearchState(cs, map["name" := "krysia"], [], true, false));
    assert Earliest(cs) == 1;
    Outcome(OrderTrie(h1, h2, h3).tree, "GET", "/welcome/krysia", SearchState(cs, map["name" := "krysia"], [], false, false), 1);
  }

  // ---------------------------------------------------------------------------
  // router.test.ts:67-87, a placeholder with a literal below it
  // ---------------------------------------------------------------------------

  function NestedLeaf1<T>(h1: T): Node<T>
  {
    Leaf(map["GET" := Entry(h1, 1, "GET", "/welcome/:name")], true)
  }

  function InviteLeaf<T>(h2: T): Node<T>
  {
    Leaf(map["GET" := Entry(h2, 2, "GET", "/welcome/:name/invite")], true)
  }

  function NestedName<T>(h1: T, h2: T): Node<T>
  {
    Node(map["invite" := InviteLeaf(h2)], map["GET" := Entry(h1, 1, "GET", "/welcome/:name")], [], true)
  }

  function NestedWelcome<T>(h1: T, h2: T): Node<T>
  {
    Node(map[":name" := NestedName(h1, h2)], map[], ["name"], false)
  }

  function NestedTrie1<T>(h1: T): TrieState<T>
  {
    TrieState(Node(map["welcome" := Node(map[":name" := NestedLeaf1(h1)], map[], ["name"], false)], map[], [], false),
              1, "GET" + " " + "/welcome/:name", true)
  }

  function NestedTrie<T>(h1: T, h2: T): TrieState<T>
  {
    TrieState(Node(map["welcome" := NestedWelcome(h1, h2)], map[], [], false), 2, "GET" + " " + "/welcome/:name/invite", true)
  }

  lemma InvitePattern()
    ensures Segmentize("/welcome/:name/invite") == ["welcome", ":name", "invite"]
  {
    Segments3("/welcome/:name/invite", "welcome", ":name", "invite");
  }

  lemma InvitePath()
    ensures Segmentize("/welcome/zaiste/invite") == ["welcome", "zaiste", "invite"]
  {
    Segments3("/welcome/zaiste/invite", "welcome", "zaiste", "invite");
  }

  lemma NestedWalk1<T>(h1: T)
    ensures InsertWalk(EmptyTrie<T>().tree, ["welcome", ":name"], false, [], "GET", Entry(h1, 1, "GET", "/welcome/:name"))
         == Walk(NestedTrie1(h1).tree, true, None)
  {
    var e := Entry(h1, 1, "GET", "/welcome/:name");
    assert ":" + "name" == ":name";
    assert ["welcome", ":name"] == ["welcome"] + [":name"] && [":name"] == [":name"] + [];
    StepLiteral(EmptyNode<T>(false), "welcome", [":name"], false, [], "GET", e);
    assert [] + EmptyNode<T>(false).placeholders == [];
    NewNamedLeaf(EmptyNode<T>(false), "name", false, [], "GET", e);
    var wel := EmptyNode<T>(false).(children := EmptyNode<T>(false).children[":name" := Leaf(map["GET" := e], true)],
                                    placeholders := EmptyNode<T>(false).placeholders + ["name"]);
    assert wel == NestedTrie1(h1).tree.children["welcome"];
  }

  lemma NestedBuilt1<T>(h1: T)
    ensures AddTo(EmptyTrie(), "GET", "/welcome/:name", h1) == (NestedTrie1(h1), None)
  {
    Segments("/welcome/:name", ["welcome", ":name"]);
    NestedWalk1(h1);
    Register(EmptyTrie(), "GET", "/welcome/:name", ["welcome", ":name"], h1, Walk(NestedTrie1(h1).tree, true, None));
  }

  /** The second path walks through the existing placeholder child and adds `invite` below it. */
  lemma NestedWalk2<T>(h1: T, h2: T)
    ensures InsertWalk(NestedTrie1(h1).tree, ["welcome", ":name", "invite"], true, [], "GET", Entry(h2, 2, "GET", "/welcome/:name/invite"))
         == Walk(NestedTrie(h1, h2).tree, true, None)
  {
    var e := Entry(h2, 2, "GET", "/welcome/:name/invite");
    assert ["welcome", ":name", "invite"] == ["welcome"] + [":name", "invite"];
    assert [":name", "invite"] == [":name"] + ["invite"];
    var root := NestedTrie1(h1).tree;
    StepExisting(root, "welcome", [":name", "invite"], true, [], "GET", e);
    var wel := root.children["welcome"];
    assert [] + root.placeholders == [];
    StepExisting(wel, ":name", ["invite"], true, [], "GET", e);
    assert [] + wel.placeholders == ["name"];
    assert wel.children[":name"] == NestedLeaf1(h1);
    NewLiteralLeaf(NestedLeaf1(h1), "invite", true, ["name"], "GET", e);
    assert NestedLeaf1(h1).(children := NestedLeaf1(h1).children["invite" := Leaf(map["GET" := e], true)]) == NestedName(h1, h2);
    assert wel.(children := wel.children[":name" := NestedName(h1, h2)]) == NestedWelcome(h1, h2);
    assert root.(children := root.children["welcome" := NestedWelcome(h1, h2)]) == NestedTrie(h1, h2).tree;
  }

  lemma NestedBuilt2<T>(h1: T, h2: T)
    ensures AddTo(NestedTrie1(h1), "GET", "/welcome/:name/invite", h2) == (NestedTrie(h1, h2), None)
  {
    InvitePattern();
    NestedWalk2(h1, h2);
    Register(NestedTrie1(h1), "GET", "/welcome/:name/invite", ["welcome", ":name", "invite"], h2,
             Walk(NestedTrie(h1, h2).tree, true, None));
  }

  /** The second level of `/welcome/zaiste` when it is the last: the placeholder's route. */
  lemma NestedLevelLast<T>(h1: T, h2: T)
    ensures FoldNodes([NestedWelcome(h1, h2)], 0, "zaiste", true, "GET", InitialSearch())
         == SearchState([Entry(h1, 1, "GET", "/welcome/:name")], map["name" := "zaiste"], [], false, false)
  {
    var w := NestedWelcome(h1, h2);
    assert ":" + "name" == ":name";
    assert LiteralStep(w, "zaiste", true, "GET", InitialSearch()) == InitialSearch();
    var out := SearchState([Entry(h1, 1, "GET", "/welcome/:name")], map["name" := "zaiste"], [], false, false);
    assert PlaceholderStep(w, "name", "zaiste", true, "GET", InitialSearch()) == out;
    SingleNode(w, "zaiste", true, "GET", InitialSearch(), InitialSearch(), out);
  }

  /** The second level of `/welcome/zaiste/invite`: the placeholder child joins the frontier. */
  lemma NestedLevelInner<T>(h1: T, h2: T)
    ensures FoldNodes([NestedWelcome(h1, h2)], 0, "zaiste", false, "GET", InitialSearch())
         == SearchState([], map["name" := "zaiste"], [NestedName(h1, h2)], false, false)
  {
    var w := NestedWelcome(h1, h2);
    assert ":" + "name" == ":name";
    assert LiteralStep(w, "zaiste", false, "GET", InitialSearch()) == InitialSearch();
    var out := SearchState([], map["name" := "zaiste"], [NestedName(h1, h2)], false, false);
    assert PlaceholderStep(w, "name", "zaiste", false, "GET", InitialSearch()) == out;
    SingleNode(w, "zaiste", false, "GET", InitialSearch(), InitialSearch(), out);
  }

  /** The third level of `/welcome/zaiste/invite`: the literal `invite`. */
  lemma NestedLevelInvite<T>(h1: T, h2: T)
    ensures FoldNodes([NestedName(h1, h2)], 0, "invite", true, "GET", SearchState([], map["name" := "zaiste"], [], false, false))
         == SearchState([Entry(h2, 2, "GET", "/welcome/:name/invite")], map["name" := "zaiste"], [], true, false)
  {
    var st := SearchState([], map["name" := "zaiste"], [], false, false);
    LiteralOnly(NestedName(h1, h2), "invite", true, "GET", st);
  }

  /** router.test.ts:73-79: the placeholder's own route, with the name captured. */
  lemma NestedName2<T>(h1: T, h2: T)
    ensures SearchIn(NestedTrie(h1, h2).tree, "GET", "/welcome/zaiste") == Found(h1, map["name" := "zaiste"])
  {
    var out := SearchState([Entry(h1, 1, "GET", "/welcome/:name")], map["name" := "zaiste"], [], false, false);
    Segments("/welcome/zaiste", ["welcome", "zaiste"]);
    WelcomeLevel(NestedTrie(h1, h2).tree, "GET");
    NestedLevelLast(h1, h2);
    SearchTwo(NestedTrie(h1, h2).tree, "GET", "/welcome/zaiste", "welcome", "zaiste",
              SearchState([], map[], [NestedWelcome(h1, h2)], false, false), out);
    Outcome(NestedTrie(h1, h2).tree, "GET", "/welcome/zaiste", out, 0);
  }

  /** router.test.ts:81-87: the literal below the placeholder, with the name still captured. */
  lemma NestedInvite<T>(h1: T, h2: T)
    ensures SearchIn(NestedTrie(h1, h2).tree, "GET", "/welcome/zaiste/invite") == Found(h2, map["name" := "zaiste"])
  {
    var st2 := SearchState([Entry(h2, 2, "GET", "/welcome/:name/invite")], map["name" := "zaiste"], [], true, false);
    InvitePath();
    WelcomeLevel(NestedTrie(h1, h2).tree, "GET");
    NestedLevelInner(h1, h2);
    NestedLevelInvite(h1, h2);
    SearchThree(NestedTrie(h1, h2).tree, "GET", "/welcome/zaiste/invite", "welcome", "zaiste", "invite",
                SearchState([], map[], [NestedWelcome(h1, h2)], false, false),
                SearchState([], map["name" := "zaiste"], [NestedName(h1, h2)], false, false), st2);
    Outcome(NestedTrie(h1, h2).tree, "GET", "/welcome/zaiste/invite", st2.(matched := false), 0);
  }

  /** A trailing `/` leaves an empty last segment, which no placeholder takes (router.ts:144). */
  lemma TrailingSlash<T>(h1: T, h2: T)
    ensures SearchIn(NestedTrie(h1, h2).tree, "GET", "/welcome/") == NoMatch
  {
    var w := NestedWelcome(h1, h2);
    Segments("/welcome/", ["welcome", ""]);
    WelcomeLevel(NestedTrie(h1, h2).tree, "GET");
    assert LiteralStep(w, "", true, "GET", InitialSearch()) == InitialSearch();
    SingleNode(w, "", true, "GET", InitialSearch(), InitialSearch(), InitialSearch());
    SearchTwo(NestedTrie(h1, h2).tree, "GET", "/welcome/", "welcome", "",
              SearchState([], map[], [w], false, false), InitialSearch());
  }

  // ---------------------------------------------------------------------------
  // A trailing wildcard
  // ---------------------------------------------------------------------------

  function StarLeaf<T>(h1: T): Node<T>
  {
    Leaf(map["GET" := Entry(h1, 1, "GET", "/files/*")], false)
  }

  function Files<T>(h1: T): Node<T>
  {
    Node(map["*" := StarLeaf(h1)], map[], ["*"], false)
  }

  /** `GET /files/` followed by `*`: the wildcard is a placeholder named `*` and does not set the root's flag. */
  function WildTrie<T>(h1: T): TrieState<T>
  {
    TrieState(Node(map["files" := Files(h1)], map[], [], false), 1, "GET" + " " + "/files/*", false)
  }

  lemma WildWalk<T>(h1: T)
    ensures InsertWalk(EmptyTrie<T>().tree, ["files", "*"], false, [], "GET", Entry(h1, 1, "GET", "/files/*"))
         == Walk(WildTrie(h1).tree, false, None)
  {
    var e := Entry(h1, 1, "GET", "/files/*");
    assert ["files", "*"] == ["files"] + ["*"];
    StepLiteral(EmptyNode<T>(false), "files", ["*"], false, [], "GET", e);
    assert [] + EmptyNode<T>(false).placeholders == [];
    NewWildLeaf(EmptyNode<T>(false), false, [], "GET", e);
    var f := EmptyNode<T>(false).(children := EmptyNode<T>(false).children["*" := Leaf(map["GET" := e], false)],
                                  placeholders := EmptyNode<T>(false).placeholders + ["*"]);
    assert f == Files(h1);
  }

  lemma WildBuilt<T>(h1: T)
    ensures AddTo(EmptyTrie(), "GET", "/files/*", h1) == (WildTrie(h1), None)
  {
    Segments("/files/*", ["files", "*"]);
    WildWalk(h1);
    Register(EmptyTrie(), "GET", "/files/*", ["files", "*"], h1, Walk(WildTrie(h1).tree, false, None));
  }

  /** The parent path itself: its `*` child's route is a candidate (router.ts:118-121). */
  lemma WildParent<T>(h1: T)
    ensures SearchIn(WildTrie(h1).tree, "GET", "/files") == Found(h1, map[])
  {
    var cs := [Entry(h1, 1, "GET", "/files/*")];
    Segments("/files", ["files"]);
    LiteralOnly(WildTrie(h1).tree, "files", true, "GET", InitialSearch());
    var st := SearchState(cs, map[], [], true, false);
    assert LiteralStep(WildTrie(h1).tree, "files", true, "GET", InitialSearch()) == st;
    SearchOne(WildTrie(h1).tree, "GET", "/files", "files", st);
    Outcome(WildTrie(h1).tree, "GET", "/files", st.(matched := false), 0);
  }

  /** The first level below the root, not the last: the frontier becomes the `files` node. */
  lemma FilesLevel<T>(h1: T)
    ensures FoldNodes([WildTrie(h1).tree], 0, "files", false, "GET", InitialSearch())
         == SearchState([], map[], [Files(h1)], false, false)
  {
    LiteralOnly(WildTrie(h1).tree, "files", false, "GET", InitialSearch());
  }

  /** Any segment at the `files` node: the `*` placeholder pushes its route and its child. */
  lemma StarLevel<T>(h1: T, segment: string, terminal: bool)
    requires segment != "*"
    ensures FoldNodes([Files(h1)], 0, segment, terminal, "GET", InitialSearch())
         == SearchState([Entry(h1, 1, "GET", "/files/*")], map[], [StarLeaf(h1)], false, false)
  {
    var f := Files(h1);
    assert LiteralStep(f, segment, terminal, "GET", InitialSearch()) == InitialSearch();
    var out := SearchState([Entry(h1, 1, "GET", "/files/*")], map[], [StarLeaf(h1)], false, false);
    assert PlaceholderStep(f, "*", segment, terminal, "GET", InitialSearch()) == out;
    SingleNode(f, segment, terminal, "GET", InitialSearch(), InitialSearch(), out);
  }

  /** One segment below: the `*` placeholder takes it and captures nothing (router.ts:132-139). */
  lemma WildChild<T>(h1: T)
    ensures SearchIn(WildTrie(h1).tree, "GET", "/files/a") == Found(h1, map[])
  {
    var st1 := SearchState([Entry(h1, 1, "GET", "/files/*")], map[], [StarLeaf(h1)], false, false);
    Segments("/files/a", ["files", "a"]);
    FilesLevel(h1);
    StarLevel(h1, "a", true);
    SearchTwo(WildTrie(h1).tree, "GET", "/files/a", "files", "a", SearchState([], map[], [Files(h1)], false, false), st1);
    Outcome(WildTrie(h1).tree, "GET", "/files/a", st1.(temp := []), 0);
  }

  /**
   * Two segments below: the candidate pushed at the middle level survives the levels after
   * it, so the wildcard matches any depth.
   */
  lemma WildDeep<T>(h1: T)
    ensures SearchIn(WildTrie(h1).tree, "GET", "/files/a/b") == Found(h1, map[])
  {
    var st1 := SearchState([Entry(h1, 1, "GET", "/files/*")], map[], [StarLeaf(h1)], false, false);
    var st2 := st1.(temp := []);
    Segments3("/files/a/b", "files", "a", "b");
    FilesLevel(h1);
    StarLevel(h1, "a", false);
    LiteralOnly(StarLeaf(h1), "b", true, "GET", st2);
    SearchThree(WildTrie(h1).tree, "GET", "/files/a/b", "files", "a", "b",
                SearchState([], map[], [Files(h1)], false, false), st1, st2);
    Outcome(WildTrie(h1).tree, "GET", "/files/a/b", st2, 0);
  }

  // ---------------------------------------------------------------------------
  // Parameters captured on a branch that does not win
  // ---------------------------------------------------------------------------

  function XLeaf<T>(h1: T): Node<T>
  {
    Leaf(map["GET" := Entry(h1, 1, "GET", "/a/:x")], true)
  }

  function ANode<T>(h1: T): Node<T>
  {
    Node(map[":x" := XLeaf(h1)], map[], ["x"], false)
  }

  function CrossTrie1<T>(h1: T): TrieState<T>
  {
    TrieState(Node(map["a" := ANode(h1)], map[], [], false), 1, "GET" + " " + "/a/:x", true)
  }

  function YNode<T>(h2: T): Node<T>
  {
    Node(map["b" := Leaf(map["GET" := Entry(h2, 2, "GET", "/:y/b")], true)], map[], [], true)
  }

  /** `GET /a/:x`, then `GET /:y/b`. */
  function CrossTrie<T>(h1: T, h2: T): TrieState<T>
  {
    TrieState(Node(map["a" := ANode(h1), ":y" := YNode(h2)], map[], ["y"], false), 2, "GET" + " " + "/:y/b", true)
  }

  lemma CrossWalk1<T>(h1: T)
    ensures InsertWalk(EmptyTrie<T>().tree, ["a", ":x"], false, [], "GET", Entry(h1, 1, "GET", "/a/:x"))
         == Walk(CrossTrie1(h1).tree, true, None)
  {
    var e := Entry(h1, 1, "GET", "/a/:x");
    assert ":" + "x" == ":x";
    assert ["a", ":x"] == ["a"] + [":x"];
    StepLiteral(EmptyNode<T>(false), "a", [":x"], false, [], "GET", e);
    assert [] + EmptyNode<T>(false).placeholders == [];
    NewNamedLeaf(EmptyNode<T>(false), "x", false, [], "GET", e);
    var a := EmptyNode<T>(false).(children := EmptyNode<T>(false).children[":x" := Leaf(map["GET" := e], true)],
                                  placeholders := EmptyNode<T>(false).placeholders + ["x"]);
    assert a == ANode(h1);
  }

  lemma CrossWalk2<T>(h1: T, h2: T)
    ensures InsertWalk(CrossTrie1(h1).tree, [":y", "b"], true, [], "GET", Entry(h2, 2, "GET", "/:y/b"))
         == Walk(CrossTrie(h1, h2).tree, true, None)
  {
    var e := Entry(h2, 2, "GET", "/:y/b");
    var root := CrossTrie1(h1).tree;
    assert ":" + "y" == ":y";
    assert [":y", "b"] == [":y"] + ["b"];
    assert !HasDynamicParam("y", XLeaf(h1));
    assert !HasDynamicParam("y", ANode(h1));
    StepNamed(root, "y", ["b"], true, [], "GET", e);
    assert [] + (root.placeholders + ["y"]) + (root.placeholders + ["y"]) == ["y", "y"];
    NewLiteralLeaf(EmptyNode<T>(true), "b", true, ["y", "y"], "GET", e);
  }

  lemma CrossFirst<T>(h1: T)
    ensures AddTo(EmptyTrie(), "GET", "/a/:x", h1) == (CrossTrie1(h1), None)
  {
    Segments("/a/:x", ["a", ":x"]);
    CrossWalk1(h1);
    Register(EmptyTrie(), "GET", "/a/:x", ["a", ":x"], h1, Walk(CrossTrie1(h1).tree, true, None));
  }

  lemma CrossSecond<T>(h1: T, h2: T)
    ensures AddTo(CrossTrie1(h1), "GET", "/:y/b", h2) == (CrossTrie(h1, h2), None)
  {
    Segments("/:y/b", [":y", "b"]);
    CrossWalk2(h1, h2);
    Register(CrossTrie1(h1), "GET", "/:y/b", [":y", "b"], h2, Walk(CrossTrie(h1, h2).tree, true, None));
  }

  lemma CrossBuilt<T>(h1: T, h2: T)
    ensures AddTo(EmptyTrie(), "GET", "/a/:x", h1) == (CrossTrie1(h1), None)
    ensures AddTo(CrossTrie1(h1), "GET", "/:y/b", h2) == (CrossTrie(h1, h2), None)
  {
    CrossFirst(h1);
    CrossSecond(h1, h2);
  }

  /** The first level of `/a/b`: both `a` and `:y` stay in the frontier, and `y` captures `a`. */
  lemma CrossLevel1<T>(h1: T, h2: T)
    ensures FoldNodes([CrossTrie(h1, h2).tree], 0, "a", false, "GET", InitialSearch())
         == SearchState([], map["y" := "a"], [ANode(h1), YNode(h2)], false, false)
  {
    var root := CrossTrie(h1, h2).tree;
    assert ":" + "y" == ":y";
    var lit := SearchState([], map[], [ANode(h1)], false, false);
    assert LiteralStep(root, "a", false, "GET", InitialSearch()) == lit;
    var out := SearchState([], map["y" := "a"], [ANode(h1), YNode(h2)], false, false);
    assert PlaceholderStep(root, "y", "a", false, "GET", lit) == out;
    SingleNode(root, "a", false, "GET", InitialSearch(), lit, out);
  }

  /** The second level: `:x` under `a` and the literal `b` under `:y` are both candidates. */
  lemma CrossLevel2<T>(h1: T, h2: T)
    ensures FoldNodes([ANode(h1), YNode(h2)], 0, "b", true, "GET", SearchState([], map["y" := "a"], [], false, false))
         == SearchState([Entry(h1, 1, "GET", "/a/:x"), Entry(h2, 2, "GET", "/:y/b")], map["y" := "a", "x" := "b"], [], true, false)
  {
    var st := SearchState([], map["y" := "a"], [], false, false);
    assert ":" + "x" == ":x";
    assert LiteralStep(ANode(h1), "b", true, "GET", st) == st;
    var mid := SearchState([Entry(h1, 1, "GET", "/a/:x")], map["y" := "a", "x" := "b"], [], false, false);
    assert PlaceholderStep(ANode(h1), "x", "b", true, "GET", st) == mid;
    SingleNode(ANode(h1), "b", true, "GET", st, st, mid);
    LiteralOnly(YNode(h2), "b", true, "GET", mid);
    var out := SearchState([Entry(h1, 1, "GET", "/a/:x"), Entry(h2, 2, "GET", "/:y/b")], map["y" := "a", "x" := "b"], [], true, false);
    assert LiteralStep(YNode(h2), "b", true, "GET", mid) == out;
    Pair(ANode(h1), YNode(h2), "b", true, "GET", st, mid, out);
  }

  /**
   * `/a/b` goes to `/a/:x`, the earlier registration, but its params also hold `y`,
   * captured while visiting the `/:y/b` branch that lost.
   */
  lemma CrossSearch<T>(h1: T, h2: T)
    ensures SearchIn(CrossTrie(h1, h2).tree, "GET", "/a/b") == Found(h1, map["y" := "a", "x" := "b"])
  {
    var cs := [Entry(h1, 1, "GET", "/a/:x"), Entry(h2, 2, "GET", "/:y/b")];
    Segments("/a/b", ["a", "b"]);
    CrossLevel1(h1, h2);
    CrossLevel2(h1, h2);
    SearchTwo(CrossTrie(h1, h2).tree, "GET", "/a/b", "a", "b",
              SearchState([], map["y" := "a"], [ANode(h1), YNode(h2)], false, false),
              SearchState(cs, map["y" := "a", "x" := "b"], [], true, false));
    assert Earliest(cs) == 0;
    Outcome(CrossTrie(h1, h2).tree, "GET", "/a/b", SearchState(cs, map["y" := "a", "x" := "b"], [], false, false), 0);
  }

  // ---------------------------------------------------------------------------
  // A named placeholder spelt `:*`
  // ---------------------------------------------------------------------------

  function StarNamed<T>(h1: T): Node<T>
  {
    Node(map[":*" := Leaf(map["GET" := Entry(h1, 1, "GET", "/a/:*")], false)], map[], ["*"], false)
  }

  /** `GET /a/:*`: the segment `:*` yields the placeholder `*`, stored under the key `:*`. */
  function StarNamedTrie<T>(h1: T): TrieState<T>
  {
    TrieState(Node(map["a" := StarNamed(h1)], map[], [], false), 1, "GET" + " " + "/a/:*", false)
  }

  lemma StarNamedWalk<T>(h1: T)
    ensures InsertWalk(EmptyTrie<T>().tree, ["a", ":*"], false, [], "GET", Entry(h1, 1, "GET", "/a/:*"))
         == Walk(StarNamedTrie(h1).tree, false, None)
  {
    var e := Entry(h1, 1, "GET", "/a/:*");
    assert ["a", ":*"] == ["a"] + [":*"] && [":*"] == [":*"] + [];
    StepLiteral(EmptyNode<T>(false), "a", [":*"], false, [], "GET", e);
    assert [] + EmptyNode<T>(false).placeholders == [];
    assert ExtractPlaceholder(":*") == Some("*");
    var a := EmptyNode<T>(false);
    var created := a.(children := map[":*" := EmptyNode(false)], placeholders := ["*"]);
    assert CreateChild(a, ":*", false, []) == Creation(created, false, ["*", "*"], None);
    assert [":*"][0] == ":*" && [":*"][1..] == [];
    assert InsertWalk(EmptyNode<T>(false), [], false, ["*", "*"], "GET", e).node == Leaf(map["GET" := e], false);
    assert InsertWalk(a, [":*"], false, [], "GET", e)
        == Walk(created.(children := created.children[":*" := Leaf(map["GET" := e], false)]), false, None);
    assert created.(children := created.children[":*" := Leaf(map["GET" := e], false)]) == StarNamed(h1);
    assert a.(children := a.children["a" := StarNamed(h1)]) == StarNamedTrie(h1).tree;
  }

  lemma StarNamedBuilt<T>(h1: T)
    ensures AddTo(EmptyTrie(), "GET", "/a/:*", h1) == (StarNamedTrie(h1), None)
  {
    Segments("/a/:*", ["a", ":*"]);
    StarNamedWalk(h1);
    Register(EmptyTrie(), "GET", "/a/:*", ["a", ":*"], h1, Walk(StarNamedTrie(h1).tree, false, None));
  }

  /** Searching below it reads the missing child `"*"`, so `search` throws (router.ts:133-135). */
  lemma StarNamedFault<T>(h1: T)
    ensures SearchIn(StarNamedTrie(h1).tree, "GET", "/a/b") == Fault
  {
    var a := StarNamed(h1);
    Segments("/a/b", ["a", "b"]);
    LiteralOnly(StarNamedTrie(h1).tree, "a", false, "GET", InitialSearch());
    var st0 := SearchState([], map[], [a], false, false);
    assert LiteralStep(StarNamedTrie(h1).tree, "a", false, "GET", InitialSearch()) == st0;
    assert LiteralStep(a, "b", true, "GET", InitialSearch()) == InitialSearch();
    var st1 := InitialSearch().(fault := true);
    assert PlaceholderStep(a, "*", "b", true, "GET", InitialSearch()) == st1;
    SingleNode(a, "b", true, "GET", InitialSearch(), InitialSearch(), st1);
    SearchTwo(StarNamedTrie(h1).tree, "GET", "/a/b", "a", "b", st0, st1);
  }

  // ---------------------------------------------------------------------------
  // Duplicated labels
  // ---------------------------------------------------------------------------

  lemma DuplicateWalk<T>(e: Container<T>)
    ensures InsertWalk(EmptyTrie<T>().tree, ["a", ":x", ":x"], false, [], "GET", e).error == Some("x")
  {
    assert ":" + "x" == ":x";
    assert ["a", ":x", ":x"] == ["a"] + [":x", ":x"] && [":x", ":x"] == [":x"] + [":x"] && [":x"] == [":x"] + [];
    StepLiteral(EmptyNode<T>(false), "a", [":x", ":x"], false, [], "GET", e);
    assert [] + EmptyNode<T>(false).placeholders == [];
    StepNamed(EmptyNode<T>(false), "x", [":x"], false, [], "GET", e);
    assert [] + ([] + ["x"]) + ([] + ["x"]) == ["x", "x"];
    StepDuplicate(EmptyNode<T>(true), "x", [], true, ["x", "x"], "GET", e);
  }

  /** `/a/:x/:x` repeats a label along one path: the second `:x` throws. */
  lemma DuplicateOnPath<T>(h1: T)
    ensures AddTo(EmptyTrie(), "GET", "/a/:x/:x", h1).1 == Some("x")
  {
    var e := Entry(h1, 1, "GET", "/a/:x/:x");
    Segments3("/a/:x/:x", "a", ":x", ":x");
    DuplicateWalk(e);
    Register(EmptyTrie(), "GET", "/a/:x/:x", ["a", ":x", ":x"], h1, InsertWalk(EmptyTrie<T>().tree, ["a", ":x", ":x"], false, [], "GET", e));
  }

  function RootX<T>(h1: T): TrieState<T>
  {
    TrieState(Node(map[":x" := Leaf(map["GET" := Entry(h1, 1, "GET", "/:x")], true)], map[], ["x"], false),
              1, "GET" + " " + "/:x", true)
  }

  lemma RootXBuilt<T>(h1: T)
    ensures AddTo(EmptyTrie(), "GET", "/:x", h1) == (RootX(h1), None)
  {
    var e := Entry(h1, 1, "GET", "/:x");
    Segments("/:x", [":x"]);
    assert ":" + "x" == ":x";
    NewNamedLeaf(EmptyNode<T>(false), "x", false, [], "GET", e);
    Register(EmptyTrie(), "GET", "/:x", [":x"], h1, Walk(RootX(h1).tree, true, None));
  }

  /**
   * After `/:x`, the path `/b/:x` throws although the two share no node: the root's
   * placeholders are pushed onto `parentPlaceholders` on the way down (router.ts:91).
   */
  lemma DuplicateAcrossBranches<T>(h1: T, h2: T)
    ensures AddTo(RootX(h1), "GET", "/b/:x", h2).1 == Some("x")
  {
    var e := Entry(h2, 2, "GET", "/b/:x");
    var root := RootX(h1).tree;
    Segments("/b/:x", ["b", ":x"]);
    assert ":" + "x" == ":x";
    assert ["b", ":x"] == ["b"] + [":x"] && [":x"] == [":x"] + [];
    StepLiteral(root, "b", [":x"], true, [], "GET", e);
    assert [] + root.placeholders == ["x"];
    StepDuplicate(EmptyNode<T>(true), "x", [], true, ["x"], "GET", e);
    var w := InsertWalk(root, ["b", ":x"], true, [], "GET", e);
    assert w.error == Some("x");
    Register(RootX(h1), "GET", "/b/:x", ["b", ":x"], h2, w);
  }

  // ---------------------------------------------------------------------------
  // An optional trailing parameter
  // ---------------------------------------------------------------------------

  function Users<T>(h: T): Node<T>
  {
    Node(map[":id" := Leaf(map["GET" := Entry(h, 2, "GET", "/users/:id")], true)],
         map["GET" := Entry(h, 1, "GET", "/users")], ["id"], false)
  }

  /** `GET /users/:id?` registers `/users` and then `/users/:id`, one rank apart. */
  function OptionalTrie<T>(h: T): TrieState<T>
  {
    TrieState(Node(map["users" := Users(h)], map[], [], false), 2, "GET" + " " + "/users/:id", true)
  }

  lemma OptionalWalks<T>(h: T)
    ensures InsertWalk(EmptyTrie<T>().tree, ["users"], false, [], "GET", Entry(h, 1, "GET", "/users"))
         == Walk(Node(map["users" := Leaf(map["GET" := Entry(h, 1, "GET", "/users")], false)], map[], [], false), false, None)
    ensures InsertWalk(Node(map["users" := Leaf(map["GET" := Entry(h, 1, "GET", "/users")], false)], map[], [], false),
                       ["users", ":id"], false, [], "GET", Entry(h, 2, "GET", "/users/:id"))
         == Walk(OptionalTrie(h).tree, true, None)
  {
    var e1, e2 := Entry(h, 1, "GET", "/users"), Entry(h, 2, "GET", "/users/:id");
    NewLiteralLeaf(EmptyNode<T>(false), "users", false, [], "GET", e1);
    var root := Node(map["users" := Leaf(map["GET" := e1], false)], map[], [], false);
    assert ":" + "id" == ":id";
    assert ["users", ":id"] == ["users"] + [":id"];
    StepExisting(root, "users", [":id"], false, [], "GET", e2);
    assert [] + root.placeholders == [];
    var u := Leaf(map["GET" := e1], false);
    NewNamedLeaf(u, "id", false, [], "GET", e2);
    assert u.(children := u.children[":id" := Leaf(map["GET" := e2], true)], placeholders := u.placeholders + ["id"]) == Users(h);
  }

  lemma OptionalUnpack()
    ensures UnpackOptionalDynamicParam("/users/:id?") == Some(("/users", "/users/:id"))
  {
    UnpackComplete("/users", "id");
    assert "/users" + "/:" + "id" == "/users/:id";
    assert "/users" + "/:" + "id" + "?" == "/users/:id?";
  }

  lemma OptionalBuilt<T>(h: T)
    ensures AddTo(EmptyTrie(), "GET", "/users/:id?", h) == (OptionalTrie(h), None)
  {
    Segments("/users", ["users"]);
    Segments("/users/:id", ["users", ":id"]);
    OptionalUnpack();
    OptionalWalks(h);
    RegisterOptional(EmptyTrie(), "GET", "/users/:id?", "/users", "/users/:id", h,
                     Walk(Node(map["users" := Leaf(map["GET" := Entry(h, 1, "GET", "/users")], false)], map[], [], false), false, None),
                     Walk(OptionalTrie(h).tree, true, None));
  }

  /** Without the optional segment, the base registration answers. */
  lemma OptionalAbsent<T>(h: T)
    ensures SearchIn(OptionalTrie(h).tree, "GET", "/users") == Found(h, map[])
  {
    var cs := [Entry(h, 1, "GET", "/users")];
    Segments("/users", ["users"]);
    LiteralOnly(OptionalTrie(h).tree, "users", true, "GET", InitialSearch());
    var st := SearchState(cs, map[], [], true, false);
    assert LiteralStep(OptionalTrie(h).tree, "users", true, "GET", InitialSearch()) == st;
    SearchOne(OptionalTrie(h).tree, "GET", "/users", "users", st);
    Outcome(OptionalTrie(h).tree, "GET", "/users", st.(matched := false), 0);
  }

  /** The second level of `/users/7`: the `:id` placeholder takes the segment. */
  lemma IdLevel<T>(h: T)
    ensures FoldNodes([Users(h)], 0, "7", true, "GET", InitialSearch())
         == SearchState([Entry(h, 2, "GET", "/users/:id")], map["id" := "7"], [], false, false)
  {
    var u := Users(h);
    assert ":" + "id" == ":id";
    assert LiteralStep(u, "7", true, "GET", InitialSearch()) == InitialSearch();
    var out := SearchState([Entry(h, 2, "GET", "/users/:id")], map["id" := "7"], [], false, false);
    assert PlaceholderStep(u, "id", "7", true, "GET", InitialSearch()) == out;
    SingleNode(u, "7", true, "GET", InitialSearch(), InitialSearch(), out);
  }

  /** With it, the placeholder registration answers and captures the segment. */
  lemma OptionalPresent<T>(h: T)
    ensures SearchIn(OptionalTrie(h).tree, "GET", "/users/7") == Found(h, map["id" := "7"])
  {
    var st1 := SearchState([Entry(h, 2, "GET", "/users/:id")], map["id" := "7"], [], false, false);
    Segments("/users/7", ["users", "7"]);
    LiteralOnly(OptionalTrie(h).tree, "users", false, "GET", InitialSearch());
    IdLevel(h);
    SearchTwo(OptionalTrie(h).tree, "GET", "/users/7", "users", "7", SearchState([], map[], [Users(h)], false, false), st1);
    Outcome(OptionalTrie(h).tree, "GET", "/users/7", st1, 0);
  }
}
