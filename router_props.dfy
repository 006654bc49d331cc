/**
 * Properties of the trie router: where `insert` stores its entry, what it leaves alone,
 * re-registration, the rank counter, label collisions, the optional-parameter expansion
 * of `Router.add`, and when `search` can fail.
 */
module TrieProps {
  import opened Types
  import opened Util
  import opened TrieRouter

  /** The node reached from `node` by following the children keyed by `segs`, if any. */
  function NodeAt<T>(node: Node<T>, segs: seq<string>): Option<Node<T>>
    decreases |segs|
  {
    if segs == [] then Some(node)
    else if segs[0] in node.children then NodeAt(node.children[segs[0]], segs[1..])
    else None
  }

  // ---------------------------------------------------------------------------
  // Where insert stores, and what it keeps
  // ---------------------------------------------------------------------------

  /** A walk that does not fail stores `entry` under the method at the end of the path. */
  lemma {:induction false} WalkStores<T>(node: Node<T>, segments: seq<string>, capture: bool, parents: seq<string>,
                                         m: string, entry: Container<T>)
    ensures var w := InsertWalk(node, segments, capture, parents, m, entry);
      w.error.None? ==> NodeAt(w.node, segments).Some? && NodeAt(w.node, segments).value.routes == NodeAt(w.node, segments).value.routes[m := entry]
    decreases |segments|
  {
    if segments != [] {
      var segment := segments[0];
      if segment in node.children {
        WalkStores(node.children[segment], segments[1..], capture, parents + node.placeholders, m, entry);
      } else {
        var c := CreateChild(node, segment, capture, parents);
        if c.error.None? {
          WalkStores(EmptyNode(c.capture), segments[1..], c.capture, c.parents, m, entry);
        }
      }
    }
  }

  /**
   * Every node that existed before the walk still exists, with the same routes, except
   * that the node at the end of a successful walk gains the entry. A failed walk changes no
   * routes at all.
   */
  lemma {:induction false} WalkFrame<T>(node: Node<T>, segments: seq<string>, capture: bool, parents: seq<string>,
                                        m: string, entry: Container<T>, other: seq<string>)
    requires NodeAt(node, other).Some?
    ensures var w := InsertWalk(node, segments, capture, parents, m, entry);
      && NodeAt(w.node, other).Some?
      && NodeAt(w.node, other).value.routes ==
         (if w.error.None? && other == segments then NodeAt(node, other).value.routes[m := entry]
          else NodeAt(node, other).value.routes)
    decreases |segments|
  {
    if segments != [] && other != [] {
      var segment := segments[0];
      if segment in node.children {
        if other[0] == segment {
          WalkFrame(node.children[segment], segments[1..], capture, parents + node.placeholders, m, entry, other[1..]);
          assert other == segments <==> other[1..] == segments[1..] by {
            if other[1..] == segments[1..] {
              assert other == [other[0]] + other[1..] && segments == [segments[0]] + segments[1..];
            }
          }
        }
      }
    }
  }

  /** `w.node` with `entry` stored under the method at the end of an existing path `segs`. */
  function SetRoute<T>(node: Node<T>, segs: seq<string>, m: string, entry: Container<T>): Node<T>
    requires NodeAt(node, segs).Some?
    decreases |segs|
  {
    if segs == [] then node.(routes := node.routes[m := entry])
    else node.(children := node.children[segs[0] := SetRoute(node.children[segs[0]], segs[1..], m, entry)])
  }

  /** Walking an existing path only overwrites the leaf's entry: no failure, no flag change. */
  lemma {:induction false} WalkExisting<T>(node: Node<T>, segments: seq<string>, capture: bool, parents: seq<string>,
                                           m: string, entry: Container<T>)
    requires NodeAt(node, segments).Some?
    ensures InsertWalk(node, segments, capture, parents, m, entry) == Walk(SetRoute(node, segments, m, entry), capture, None)
    decreases |segments|
  {
    if segments != [] {
      WalkExisting(node.children[segments[0]], segments[1..], capture, parents + node.placeholders, m, entry);
    }
  }

  /** Storing a route at an existing path adds no node and removes none. */
  lemma {:induction false} SetRouteShape<T>(node: Node<T>, segs: seq<string>, m: string, entry: Container<T>, other: seq<string>)
    requires NodeAt(node, segs).Some?
    ensures NodeAt(SetRoute(node, segs, m, entry), other).Some? <==> NodeAt(node, other).Some?
    decreases |segs|
  {
    if segs != [] && other != [] && other[0] == segs[0] {
      SetRouteShape(node.children[segs[0]], segs[1..], m, entry, other[1..]);
    }
  }

  /**
   * `insert` (router.ts:52-99) stores `{handler, rank, label}` at the end of the path, with
   * the new rank, unless a label collision makes it throw.
   */
  lemma InsertStores<T>(s: TrieState<T>, m: string, path: string, handler: T)
    ensures var (s', error) := InsertInto(s, m, path, handler);
      error.None? ==>
        var leaf := NodeAt(s'.tree, Segmentize(path));
        leaf.Some? && m in leaf.value.routes && leaf.value.routes[m] == Container(handler, s.rank + 1, m + " " + path)
  {
    WalkStores(s.tree, Segmentize(path), s.shouldCapture, [], m, Container(handler, s.rank + 1, m + " " + path));
  }

  /**
   * Re-registering a path that is already in the trie (router.ts:64-67, 96) never fails,
   * keeps the flag, creates no node, and overwrites only the method's entry at the leaf.
   */
  lemma Reregister<T>(s: TrieState<T>, m: string, path: string, handler: T)
    requires NodeAt(s.tree, Segmentize(path)).Some?
    ensures var (s', error) := InsertInto(s, m, path, handler);
      && error.None?
      && s'.shouldCapture == s.shouldCapture
      && (forall other :: NodeAt(s'.tree, other).Some? <==> NodeAt(s.tree, other).Some?)
      && NodeAt(s'.tree, Segmentize(path)).value.routes ==
         NodeAt(s.tree, Segmentize(path)).value.routes[m := Container(handler, s.rank + 1, m + " " + path)]
  {
    var segs := Segmentize(path);
    var entry := Container(handler, s.rank + 1, m + " " + path);
    WalkExisting(s.tree, segs, s.shouldCapture, [], m, entry);
    forall other {
      SetRouteShape(s.tree, segs, m, entry, other);
    }
    WalkFrame(s.tree, segs, s.shouldCapture, [], m, entry, segs);
  }

  // ---------------------------------------------------------------------------
  // One step of the walk (router.ts:63-94)
  // ---------------------------------------------------------------------------

  /** An existing child is entered, and the node's placeholders join `parentPlaceholders`. */
  lemma StepExisting<T>(node: Node<T>, segment: string, rest: seq<string>, capture: bool, parents: seq<string>,
                        m: string, entry: Container<T>)
    requires segment in node.children
    ensures InsertWalk(node, [segment] + rest, capture, parents, m, entry) ==
      var w := InsertWalk(node.children[segment], rest, capture, parents + node.placeholders, m, entry);
      w.(node := node.(children := node.children[segment := w.node]))
  {
    assert ([segment] + rest)[0] == segment && ([segment] + rest)[1..] == rest;
  }

  /** A new literal segment adds an empty child that copies the root's flag. */
  lemma StepLiteral<T>(node: Node<T>, segment: string, rest: seq<string>, capture: bool, parents: seq<string>,
                       m: string, entry: Container<T>)
    requires segment !in node.children && ExtractPlaceholder(segment).None?
    ensures InsertWalk(node, [segment] + rest, capture, parents, m, entry) ==
      var w := InsertWalk(EmptyNode(capture), rest, capture, parents + node.placeholders, m, entry);
      w.(node := node.(children := node.children[segment := w.node]))
  {
    assert ([segment] + rest)[0] == segment && ([segment] + rest)[1..] == rest;
    var created := node.(children := node.children[segment := EmptyNode(false)]);
    assert parents + [] + created.placeholders == parents + node.placeholders;
    assert CreateChild(node, segment, capture, parents) == Creation(created, capture, parents + node.placeholders, None);
    var w := InsertWalk(EmptyNode(capture), rest, capture, parents + node.placeholders, m, entry);
    assert created.children[segment := w.node] == node.children[segment := w.node];
  }

  /**
   * A new `":" + name` segment whose label is fresh sets the root's flag, records `name`
   * on the node, and pushes the node's placeholders onto `parentPlaceholders` twice
   * (router.ts:89 and 91).
   */
  lemma StepNamed<T>(node: Node<T>, name: string, rest: seq<string>, capture: bool, parents: seq<string>,
                     m: string, entry: Container<T>)
    requires ":" + name !in node.children && |name| > 0 && NoBraces(name) && name != "*"
    requires name !in parents && forall k :: k in node.children ==> !HasDynamicParam(name, node.children[k])
    ensures InsertWalk(node, [":" + name] + rest, capture, parents, m, entry) ==
      var ps := node.placeholders + [name];
      var w := InsertWalk(EmptyNode(true), rest, true, parents + ps + ps, m, entry);
      w.(node := node.(children := node.children[":" + name := w.node], placeholders := ps))
  {
    var segment := ":" + name;
    ExtractNamed(name);
    assert ([segment] + rest)[0] == segment && ([segment] + rest)[1..] == rest;
    var created := node.(children := node.children[segment := EmptyNode(false)]);
    assert !SomeChildHas(created, name) by {
      assert !HasDynamicParam(name, EmptyNode<T>(false));
    }
    var ps := node.placeholders + [name];
    assert CreateChild(node, segment, capture, parents) == Creation(created.(placeholders := ps), true, parents + ps + ps, None);
    var w := InsertWalk(EmptyNode(true), rest, true, parents + ps + ps, m, entry);
    assert created.children[segment := w.node] == node.children[segment := w.node];
  }

  /** A new `"*"` segment records `"*"` on the node and leaves the root's flag alone. */
  lemma StepWildcard<T>(node: Node<T>, rest: seq<string>, capture: bool, parents: seq<string>,
                        m: string, entry: Container<T>)
    requires "*" !in node.children
    ensures InsertWalk(node, ["*"] + rest, capture, parents, m, entry) ==
      var ps := node.placeholders + ["*"];
      var w := InsertWalk(EmptyNode(capture), rest, capture, parents + ps + ps, m, entry);
      w.(node := node.(children := node.children["*" := w.node], placeholders := ps))
  {
    assert (["*"] + rest)[0] == "*" && (["*"] + rest)[1..] == rest;
    var created := node.(children := node.children["*" := EmptyNode(false)]);
    var ps := node.placeholders + ["*"];
    assert CreateChild(node, "*", capture, parents) == Creation(created.(placeholders := ps), capture, parents + ps + ps, None);
    var w := InsertWalk(EmptyNode(capture), rest, capture, parents + ps + ps, m, entry);
    assert created.children["*" := w.node] == node.children["*" := w.node];
  }

  /**
   * A new `":" + name` segment whose label is already among `parentPlaceholders` throws,
   * after the empty child is added and the root's flag is set (router.ts:70, 77, 79-83).
   */
  lemma StepDuplicate<T>(node: Node<T>, name: string, rest: seq<string>, capture: bool, parents: seq<string>,
                         m: string, entry: Container<T>)
    requires ":" + name !in node.children && |name| > 0 && NoBraces(name) && name != "*"
    requires name in parents || exists k :: k in node.children && HasDynamicParam(name, node.children[k])
    ensures InsertWalk(node, [":" + name] + rest, capture, parents, m, entry) ==
      Walk(node.(children := node.children[":" + name := EmptyNode(false)]), true, Some(name))
  {
    var segment := ":" + name;
    ExtractNamed(name);
    assert ([segment] + rest)[0] == segment && ([segment] + rest)[1..] == rest;
    var created := node.(children := node.children[segment := EmptyNode(false)]);
    if name !in parents {
      var k :| k in node.children && HasDynamicParam(name, node.children[k]);
      assert k in created.children && created.children[k] == node.children[k];
    }
    assert CreateChild(node, segment, capture, parents) == Creation(created, true, parents, Some(name));
  }

  // ---------------------------------------------------------------------------
  // Ranks
  // ---------------------------------------------------------------------------

  /** Every container in the trie has a rank of at most `r`. */
  predicate RanksAtMost<T>(node: Node<T>, r: int)
  {
    && (forall k :: k in node.routes ==> node.routes[k].rank <= r)
    && (forall k :: k in node.children ==> RanksAtMost(node.children[k], r))
  }

  /** The invariant of the root's counter: it bounds every rank handed out so far. */
  predicate RanksValid<T>(s: TrieState<T>)
  {
    s.rank >= 0 && RanksAtMost(s.tree, s.rank)
  }

  lemma {:induction false} RanksWeaken<T>(node: Node<T>, r: int, r': int)
    requires RanksAtMost(node, r) && r <= r'
    ensures RanksAtMost(node, r')
  {
    forall k | k in node.children
      ensures RanksAtMost(node.children[k], r')
    {
      RanksWeaken(node.children[k], r, r');
    }
  }

  lemma {:induction false} WalkRanks<T>(node: Node<T>, segments: seq<string>, capture: bool, parents: seq<string>,
                                        m: string, entry: Container<T>, r: int)
    requires RanksAtMost(node, r) && entry.rank <= r
    ensures RanksAtMost(InsertWalk(node, segments, capture, parents, m, entry).node, r)
    decreases |segments|
  {
    if segments != [] {
      var segment := segments[0];
      if segment in node.children {
        WalkRanks(node.children[segment], segments[1..], capture, parents + node.placeholders, m, entry, r);
      } else {
        var c := CreateChild(node, segment, capture, parents);
        assert RanksAtMost(EmptyNode<T>(false), r);
        assert RanksAtMost(c.parent, r);
        if c.error.None? {
          assert RanksAtMost(EmptyNode<T>(c.capture), r);
          WalkRanks(EmptyNode(c.capture), segments[1..], c.capture, c.parents, m, entry, r);
        }
      }
    }
  }

  /** The empty trie meets the rank invariant, resolves every placeholder and is static. */
  lemma EmptyTrieInvariants<T>()
    ensures RanksValid(EmptyTrie<T>())
    ensures Resolves(EmptyTrie<T>().tree) && Static(EmptyTrie<T>().tree)
  {
  }

  /**
   * The counter on the root (router.ts:54) grows by exactly one per insertion, so the new
   * entry outranks every entry already in the trie, and the invariant is kept even when the
   * insertion throws.
   */
  lemma InsertRanks<T>(s: TrieState<T>, m: string, path: string, handler: T)
    requires RanksValid(s)
    ensures var s' := InsertInto(s, m, path, handler).0;
      RanksValid(s') && s'.rank == s.rank + 1 && RanksAtMost(s.tree, s'.rank - 1)
  {
    RanksWeaken(s.tree, s.rank, s.rank + 1);
    WalkRanks(s.tree, Segmentize(path), s.shouldCapture, [], m, Container(handler, s.rank + 1, m + " " + path), s.rank + 1);
  }

  lemma AddRanks<T>(s: TrieState<T>, m: string, path: string, handler: T)
    requires RanksValid(s)
    ensures RanksValid(AddTo(s, m, path, handler).0)
    ensures s.rank < AddTo(s, m, path, handler).0.rank <= s.rank + 2
  {
    match UnpackOptionalDynamicParam(path)
    case Some((base, optional)) =>
      InsertRanks(s, m, base, handler);
      InsertRanks(InsertInto(s, m, base, handler).0, m, optional, handler);
    case None =>
      InsertRanks(s, m, path, handler);
  }

  // ---------------------------------------------------------------------------
  // Label collisions
  // ---------------------------------------------------------------------------

  /**
   * `segments[i]` names a node that did not exist in `before` and is an empty node in
   * `after`, and its placeholder is `duplicated`.
   */
  ghost predicate FailedAt<T>(before: Node<T>, after: Node<T>, segments: seq<string>, i: int, duplicated: Option<string>)
  {
    && 0 <= i < |segments|
    && ExtractPlaceholder(segments[i]) == duplicated
    && NodeAt(before, segments[..i + 1]).None?
    && NodeAt(after, segments[..i + 1]) == Some(EmptyNode(false))
  }

  /** A failure below a child is a failure one segment further down from its parent. */
  lemma FailedAtCons<T>(before: Node<T>, after: Node<T>, segment: string, sub: Node<T>, sub': Node<T>,
                        rest: seq<string>, i: int, duplicated: Option<string>)
    requires FailedAt(sub, sub', rest, i, duplicated)
    requires segment in before.children ==> before.children[segment] == sub
    requires segment in after.children && after.children[segment] == sub'
    ensures FailedAt(before, after, [segment] + rest, i + 1, duplicated)
  {
    var segs := [segment] + rest;
    assert segs[..i + 2][0] == segment && segs[..i + 2][1..] == rest[..i + 1];
  }

  /**
   * A failed walk stops at a segment that is `":" + label` for the returned label. That
   * segment's node did not exist before and is now an empty node (router.ts:70, executed
   * before the checks at router.ts:79-86), and the root's flag is set.
   */
  lemma {:induction false} WalkFailure<T>(node: Node<T>, segments: seq<string>, capture: bool, parents: seq<string>,
                                          m: string, entry: Container<T>)
    ensures var w := InsertWalk(node, segments, capture, parents, m, entry);
      w.error.Some? ==>
        w.capture && w.error.value != "*" && exists i :: FailedAt(node, w.node, segments, i, w.error)
    decreases |segments|
  {
    var w := InsertWalk(node, segments, capture, parents, m, entry);
    if segments != [] && w.error.Some? {
      var segment := segments[0];
      assert segments == [segment] + segments[1..];
      if segment in node.children {
        var sub := node.children[segment];
        var w' := InsertWalk(sub, segments[1..], capture, parents + node.placeholders, m, entry);
        WalkFailure(sub, segments[1..], capture, parents + node.placeholders, m, entry);
        var i :| FailedAt(sub, w'.node, segments[1..], i, w'.error);
        FailedAtCons(node, w.node, segment, sub, w'.node, segments[1..], i, w.error);
      } else {
        var c := CreateChild(node, segment, capture, parents);
        if c.error.Some? {
          assert segments[..1] == [segment] && [segment][1..] == [];
          assert FailedAt(node, w.node, segments, 0, w.error);
        } else {
          var sub := EmptyNode<T>(c.capture);
          var w' := InsertWalk(sub, segments[1..], c.capture, c.parents, m, entry);
          WalkFailure(sub, segments[1..], c.capture, c.parents, m, entry);
          var i :| FailedAt(sub, w'.node, segments[1..], i, w'.error);
          FailedAtCons(node, w.node, segment, sub, w'.node, segments[1..], i, w.error);
        }
      }
    }
  }

  /**
   * When `insert` throws, the rank has been incremented, the flag set, the new empty child
   * left in place, and every route that was there before is unchanged.
   */
  lemma InsertFailure<T>(s: TrieState<T>, m: string, path: string, handler: T, other: seq<string>)
    requires NodeAt(s.tree, other).Some?
    ensures var (s', error) := InsertInto(s, m, path, handler);
      error.Some? ==>
        && s'.rank == s.rank + 1
        && s'.shouldCapture
        && (exists i :: FailedAt(s.tree, s'.tree, Segmentize(path), i, error))
        && NodeAt(s'.tree, other).Some?
        && NodeAt(s'.tree, other).value.routes == NodeAt(s.tree, other).value.routes
  {
    var entry := Container(handler, s.rank + 1, m + " " + path);
    WalkFailure(s.tree, Segmentize(path), s.shouldCapture, [], m, entry);
    WalkFrame(s.tree, Segmentize(path), s.shouldCapture, [], m, entry, other);
  }

  // ---------------------------------------------------------------------------
  // Optional trailing parameter (router.ts:187-197)
  // ---------------------------------------------------------------------------

  /** The optional path has exactly one more segment than the base path: the `:x`. */
  lemma OptionalSegments(path: string)
    requires UnpackOptionalDynamicParam(path).Some?
    ensures var (base, optional) := UnpackOptionalDynamicParam(path).value;
      Segmentize(optional) == Segmentize(base) + [optional[|base| + 1..]] && optional[|base| + 1] == ':'
  {
    var (base, optional) := UnpackOptionalDynamicParam(path).value;
    var x := optional[|base| + 1..];
    assert optional == base + "/" + x;
    assert '/' !in x by {
      forall i | 0 <= i < |x| ensures x[i] != '/' {
        assert x[i] == optional[|base| + 1 + i];
      }
    }
    SegmentizeAppend(base, x);
  }

  /**
   * `add` with a trailing `/:x?` inserts the base path and then the path without `?`: when
   * neither throws, both leaves hold the handler, with consecutive ranks.
   */
  lemma AddOptional<T>(s: TrieState<T>, m: string, path: string, handler: T)
    requires UnpackOptionalDynamicParam(path).Some?
    ensures var (base, optional) := UnpackOptionalDynamicParam(path).value;
      var (s', error) := AddTo(s, m, path, handler);
      && s'.rank == (if InsertInto(s, m, base, handler).1.Some? then s.rank + 1 else s.rank + 2)
      && (error.None? ==>
            var b := NodeAt(s'.tree, Segmentize(base));
            var o := NodeAt(s'.tree, Segmentize(optional));
            && b.Some? && m in b.value.routes && b.value.routes[m] == Container(handler, s.rank + 1, m + " " + base)
            && o.Some? && m in o.value.routes && o.value.routes[m] == Container(handler, s.rank + 2, m + " " + optional))
  {
    var (base, optional) := UnpackOptionalDynamicParam(path).value;
    var (s1, e1) := InsertInto(s, m, base, handler);
    if e1.None? {
      InsertStores(s, m, base, handler);
      InsertStores(s1, m, optional, handler);
      OptionalSegments(path);
      WalkFrame(s1.tree, Segmentize(optional), s1.shouldCapture, [], m,
                Container(handler, s1.rank + 1, m + " " + optional), Segmentize(base));
    }
  }

  /** Without a trailing `/:x?`, `add` is a single insertion. */
  lemma AddPlain<T>(s: TrieState<T>, m: string, path: string, handler: T)
    requires UnpackOptionalDynamicParam(path).None?
    ensures AddTo(s, m, path, handler) == InsertInto(s, m, path, handler)
  {
  }

  // ---------------------------------------------------------------------------
  // When search faults
  // ---------------------------------------------------------------------------

  /** The child key under which `search` looks for a placeholder's subtree (router.ts:134, 147, 150). */
  function PlaceholderKey(name: string): string
  {
    if name == "*" then "*" else ":" + name
  }

  /** Every placeholder of every node has its child. */
  predicate Resolves<T>(node: Node<T>)
  {
    && (forall j :: 0 <= j < |node.placeholders| ==> PlaceholderKey(node.placeholders[j]) in node.children)
    && (forall k :: k in node.children ==> Resolves(node.children[k]))
  }

  predicate AllResolve<T>(nodes: seq<Node<T>>)
  {
    forall i :: 0 <= i < |nodes| ==> Resolves(nodes[i])
  }

  /** A placeholder taken from any segment other than `":*"` is looked up under that segment. */
  lemma PlaceholderKeyOf(segment: string)
    requires ExtractPlaceholder(segment).Some? && segment != ":*"
    ensures PlaceholderKey(ExtractPlaceholder(segment).value) == segment
  {
  }

  lemma {:induction false} WalkResolves<T>(node: Node<T>, segments: seq<string>, capture: bool, parents: seq<string>,
                                           m: string, entry: Container<T>)
    requires Resolves(node) && ":*" !in segments
    ensures Resolves(InsertWalk(node, segments, capture, parents, m, entry).node)
    decreases |segments|
  {
    if segments != [] {
      var segment := segments[0];
      assert ":*" !in segments[1..];
      if segment in node.children {
        WalkResolves(node.children[segment], segments[1..], capture, parents + node.placeholders, m, entry);
      } else {
        var c := CreateChild(node, segment, capture, parents);
        if c.error.None? && ExtractPlaceholder(segment).Some? {
          PlaceholderKeyOf(segment);
        }
        assert Resolves(c.parent);
        if c.error.None? {
          WalkResolves(EmptyNode(c.capture), segments[1..], c.capture, c.parents, m, entry);
        }
      }
    }
  }

  /** The paths that `add` inserts. */
  function InsertedPaths(path: string): seq<string>
  {
    match UnpackOptionalDynamicParam(path)
    case Some((base, optional)) => [base, optional]
    case None => [path]
  }

  /** Inserting a path without a `":*"` segment keeps every placeholder resolvable. */
  lemma InsertResolves<T>(s: TrieState<T>, m: string, path: string, handler: T)
    requires Resolves(s.tree) && ":*" !in Segmentize(path)
    ensures Resolves(InsertInto(s, m, path, handler).0.tree)
  {
    WalkResolves(s.tree, Segmentize(path), s.shouldCapture, [], m, Container(handler, s.rank + 1, m + " " + path));
  }

  /** Registering only paths without a `":*"` segment keeps every placeholder resolvable. */
  lemma AddResolves<T>(s: TrieState<T>, m: string, path: string, handler: T)
    requires Resolves(s.tree)
    requires forall q :: q in InsertedPaths(path) ==> ":*" !in Segmentize(q)
    ensures Resolves(AddTo(s, m, path, handler).0.tree)
  {
    match UnpackOptionalDynamicParam(path)
    case Some((base, optional)) =>
      assert base in InsertedPaths(path) && optional in InsertedPaths(path);
      InsertResolves(s, m, base, handler);
      InsertResolves(InsertInto(s, m, base, handler).0, m, optional, handler);
    case None =>
      assert path in InsertedPaths(path);
      InsertResolves(s, m, path, handler);
  }

  lemma LiteralSafe<T>(node: Node<T>, segment: string, terminal: bool, m: string, st: SearchState<T>)
    requires Resolves(node) && AllResolve(st.temp) && !st.fault
    ensures var st' := LiteralStep(node, segment, terminal, m, st); !st'.fault && AllResolve(st'.temp)
  {
  }

  lemma PlaceholderSafe<T>(node: Node<T>, j: nat, segment: string, terminal: bool, m: string, st: SearchState<T>)
    requires j < |node.placeholders|
    requires Resolves(node) && AllResolve(st.temp) && !st.fault
    ensures var st' := PlaceholderStep(node, node.placeholders[j], segment, terminal, m, st);
      !st'.fault && AllResolve(st'.temp)
  {
    assert PlaceholderKey(node.placeholders[j]) in node.children;
  }

  lemma {:induction false} FoldNamesSafe<T>(node: Node<T>, j: nat, segment: string, terminal: bool, m: string, st: SearchState<T>)
    requires j <= |node.placeholders|
    requires Resolves(node) && AllResolve(st.temp) && !st.fault
    ensures var st' := FoldNames(node, j, segment, terminal, m, st); !st'.fault && AllResolve(st'.temp)
    decreases |node.placeholders| - j
  {
    if j < |node.placeholders| {
      PlaceholderSafe(node, j, segment, terminal, m, st);
      FoldNamesSafe(node, j + 1, segment, terminal, m, PlaceholderStep(node, node.placeholders[j], segment, terminal, m, st));
    }
  }

  lemma {:induction false} FoldNodesSafe<T>(nodes: seq<Node<T>>, i: nat, segment: string, terminal: bool, m: string, st: SearchState<T>)
    requires i <= |nodes|
    requires AllResolve(nodes) && AllResolve(st.temp) && !st.fault
    ensures var st' := FoldNodes(nodes, i, segment, terminal, m, st); !st'.fault && AllResolve(st'.temp)
    decreases |nodes| - i
  {
    if i < |nodes| {
      LiteralSafe(nodes[i], segment, terminal, m, st);
      FoldNamesSafe(nodes[i], 0, segment, terminal, m, LiteralStep(nodes[i], segment, terminal, m, st));
      FoldNodesSafe(nodes, i + 1, segment, terminal, m, NodeStep(nodes[i], segment, terminal, m, st));
    }
  }

  lemma {:induction false} LevelsSafe<T>(nodes: seq<Node<T>>, segments: seq<string>, idx: nat, m: string, st: SearchState<T>)
    requires idx <= |segments|
    requires AllResolve(nodes) && st.temp == [] && !st.fault
    ensures !Levels(nodes, segments, idx, m, st).fault
    decreases |segments| - idx
  {
    if idx < |segments| {
      var st' := FoldNodes(nodes, 0, segments[idx], idx == |segments| - 1, m, st);
      FoldNodesSafe(nodes, 0, segments[idx], idx == |segments| - 1, m, st);
      LevelsSafe(st'.temp, segments, idx + 1, m, st'.(temp := [], matched := false));
    }
  }

  /**
   * `search` reads a missing child, and throws, only in a trie where some placeholder has
   * no child: that needs a registered `":*"` segment, whose placeholder is `"*"` while its
   * child is keyed `":*"`.
   */
  lemma SearchSafe<T>(tree: Node<T>, m: string, path: string)
    requires Resolves(tree)
    ensures !SearchIn(tree, m, path).Fault?
  {
    LevelsSafe([tree], Segmentize(path), 0, m, InitialSearch());
  }

  // ---------------------------------------------------------------------------
  // Which routes search collects (router.ts:101-176)
  // ---------------------------------------------------------------------------

  /** The placeholders of one node only ever append candidates and nodes of the next frontier. */
  lemma {:induction false} NamesKeepCandidates<T>(node: Node<T>, j: nat, segment: string, terminal: bool, m: string,
                                                  st: SearchState<T>)
    requires j <= |node.placeholders|
    ensures st.candidates <= FoldNames(node, j, segment, terminal, m, st).candidates
    ensures st.temp <= FoldNames(node, j, segment, terminal, m, st).temp
    decreases |node.placeholders| - j
  {
    if j < |node.placeholders| && !st.fault {
      var st' := PlaceholderStep(node, node.placeholders[j], segment, terminal, m, st);
      NamesKeepCandidates(node, j + 1, segment, terminal, m, st');
    }
  }

  /** A frontier's nodes only ever append candidates and nodes of the next frontier. */
  lemma {:induction false} NodesKeepCandidates<T>(nodes: seq<Node<T>>, i: nat, segment: string, terminal: bool, m: string,
                                                  st: SearchState<T>)
    requires i <= |nodes|
    ensures st.candidates <= FoldNodes(nodes, i, segment, terminal, m, st).candidates
    ensures st.temp <= FoldNodes(nodes, i, segment, terminal, m, st).temp
    decreases |nodes| - i
  {
    if i < |nodes| && !st.fault {
      var lit := LiteralStep(nodes[i], segment, terminal, m, st);
      NamesKeepCandidates(nodes[i], 0, segment, terminal, m, lit);
      NodesKeepCandidates(nodes, i + 1, segment, terminal, m, NodeStep(nodes[i], segment, terminal, m, st));
    }
  }

  /** No later level drops a candidate: the candidates so far are a prefix of the final ones. */
  lemma {:induction false} LevelsKeepCandidates<T>(nodes: seq<Node<T>>, segments: seq<string>, idx: nat, m: string,
                                                   st: SearchState<T>)
    requires idx <= |segments|
    ensures st.candidates <= Levels(nodes, segments, idx, m, st).candidates
    decreases |segments| - idx
  {
    if idx < |segments| && !st.fault {
      var st' := FoldNodes(nodes, 0, segments[idx], idx == |segments| - 1, m, st);
      NodesKeepCandidates(nodes, 0, segments[idx], idx == |segments| - 1, m, st);
      LevelsKeepCandidates(st'.temp, segments, idx + 1, m, st'.(temp := [], matched := false));
    }
  }

  /**
   * A named placeholder skips an empty segment: it neither collects, descends nor captures.
   * So no placeholder of a node ever captures an empty segment, and without `*` the
   * node's placeholders do nothing.
   */
  lemma {:induction false} EmptySegmentNames<T>(node: Node<T>, j: nat, terminal: bool, m: string, st: SearchState<T>)
    requires j <= |node.placeholders|
    ensures j < |node.placeholders| && node.placeholders[j] != "*" ==>
      PlaceholderStep(node, node.placeholders[j], "", terminal, m, st) == st
    ensures FoldNames(node, j, "", terminal, m, st).params == st.params
    ensures (forall k :: j <= k < |node.placeholders| ==> node.placeholders[k] != "*") ==>
      FoldNames(node, j, "", terminal, m, st) == st
    decreases |node.placeholders| - j
  {
    if j < |node.placeholders| && !st.fault {
      var st' := PlaceholderStep(node, node.placeholders[j], "", terminal, m, st);
      assert st'.params == st.params;
      EmptySegmentNames(node, j + 1, terminal, m, st');
    }
  }

  /** A node's placeholder `"*"` collects the route of its `*` child, whatever the segment. */
  lemma {:induction false} WildcardInNames<T>(node: Node<T>, j: nat, k: nat, segment: string, terminal: bool, m: string,
                                              st: SearchState<T>)
    requires j <= k < |node.placeholders| && node.placeholders[k] == "*"
    requires Resolves(node) && "*" in node.children && m in node.children["*"].routes && !st.fault
    ensures node.children["*"].routes[m] in FoldNames(node, j, segment, terminal, m, st).candidates
    decreases k - j
  {
    assert PlaceholderKey(node.placeholders[j]) in node.children;
    var st' := PlaceholderStep(node, node.placeholders[j], segment, terminal, m, st);
    if j == k {
      assert node.children["*"].routes[m] in st'.candidates;
      NamesKeepCandidates(node, j + 1, segment, terminal, m, st');
    } else {
      WildcardInNames(node, j + 1, k, segment, terminal, m, st');
    }
  }

  /** The same for the `p`-th node of a frontier. */
  lemma {:induction false} WildcardInNodes<T>(nodes: seq<Node<T>>, i: nat, p: nat, k: nat, segment: string, terminal: bool,
                                              m: string, st: SearchState<T>)
    requires i <= p < |nodes| && AllResolve(nodes) && AllResolve(st.temp) && !st.fault
    requires k < |nodes[p].placeholders| && nodes[p].placeholders[k] == "*"
    requires "*" in nodes[p].children && m in nodes[p].children["*"].routes
    ensures nodes[p].children["*"].routes[m] in FoldNodes(nodes, i, segment, terminal, m, st).candidates
    decreases p - i
  {
    var lit := LiteralStep(nodes[i], segment, terminal, m, st);
    var st' := NodeStep(nodes[i], segment, terminal, m, st);
    if i == p {
      WildcardInNames(nodes[i], 0, k, segment, terminal, m, lit);
      NodesKeepCandidates(nodes, i + 1, segment, terminal, m, st');
    } else {
      LiteralSafe(nodes[i], segment, terminal, m, st);
      FoldNamesSafe(nodes[i], 0, segment, terminal, m, lit);
      WildcardInNodes(nodes, i + 1, p, k, segment, terminal, m, st');
    }
  }

  /**
   * A frontier node with a `*` placeholder contributes its `*` child's route at any level,
   * terminal or not, and the route stays a candidate to the end.
   */
  lemma WildcardInLevels<T>(nodes: seq<Node<T>>, segments: seq<string>, idx: nat, p: nat, k: nat, m: string, st: SearchState<T>)
    requires idx < |segments| && AllResolve(nodes) && st.temp == [] && !st.fault
    requires p < |nodes| && k < |nodes[p].placeholders| && nodes[p].placeholders[k] == "*"
    requires "*" in nodes[p].children && m in nodes[p].children["*"].routes
    ensures nodes[p].children["*"].routes[m] in Levels(nodes, segments, idx, m, st).candidates
  {
    var terminal := idx == |segments| - 1;
    var st' := FoldNodes(nodes, 0, segments[idx], terminal, m, st);
    WildcardInNodes(nodes, 0, p, k, segments[idx], terminal, m, st);
    LevelsKeepCandidates(st'.temp, segments, idx + 1, m, st'.(temp := [], matched := false));
  }

  /** A wildcard on the root with a route for the method matches every non-empty path. */
  lemma WildcardAtRoot<T>(tree: Node<T>, m: string, path: string)
    requires Resolves(tree) && "*" in tree.placeholders && "*" in tree.children && m in tree.children["*"].routes
    requires |Segmentize(path)| > 0
    ensures SearchIn(tree, m, path).Found?
  {
    var k :| 0 <= k < |tree.placeholders| && tree.placeholders[k] == "*";
    WildcardInLevels([tree], Segmentize(path), 0, 0, k, m, InitialSearch());
    SearchSafe(tree, m, path);
  }

  /** A trie with no placeholders and no `*` child anywhere: only literal paths were registered. */
  predicate Static<T>(node: Node<T>)
  {
    && node.placeholders == [] && "*" !in node.children
    && forall k :: k in node.children ==> Static(node.children[k])
  }

  /** No segment is a placeholder. */
  predicate LiteralPath(segments: seq<string>)
  {
    forall i :: 0 <= i < |segments| ==> ExtractPlaceholder(segments[i]).None?
  }

  /**
   * In a static trie the frontier is at most one node, the one the segments so far lead
   * to, and the only candidate is the route of the node the whole path leads to.
   */
  lemma {:induction false} StaticLevels<T>(nodes: seq<Node<T>>, segments: seq<string>, idx: nat, m: string, st: SearchState<T>)
    requires idx <= |segments| && |nodes| <= 1 && (forall i :: 0 <= i < |nodes| ==> Static(nodes[i]))
    requires !st.fault && st.temp == []
    ensures var r := Levels(nodes, segments, idx, m, st);
      && !r.fault && r.params == st.params
      && r.candidates == st.candidates +
           (if |nodes| == 1 && idx < |segments| && NodeAt(nodes[0], segments[idx..]).Some?
            then RouteOf(NodeAt(nodes[0], segments[idx..]).value, m) else [])
    decreases |segments| - idx
  {
    if idx < |segments| {
      var segment := segments[idx];
      var terminal := idx == |segments| - 1;
      var st' := FoldNodes(nodes, 0, segment, terminal, m, st);
      var next := st'.(temp := [], matched := false);
      if |nodes| == 1 {
        var n := nodes[0];
        var lit := LiteralStep(n, segment, terminal, m, st);
        assert NodeStep(n, segment, terminal, m, st) == lit;
        assert st' == FoldNodes(nodes, 1, segment, terminal, m, lit) == lit;
        assert segments[idx..][0] == segment && segments[idx..][1..] == segments[idx + 1..];
        StaticLevels(st'.temp, segments, idx + 1, m, next);
        if segment in n.children && terminal {
          var child := n.children[segment];
          assert segments[idx + 1..] == [];
          assert NodeAt(n, segments[idx..]) == NodeAt(child, []) == Some(child);
          assert Static(child);
          assert st'.candidates == st.candidates + RouteOf(child, m);
        }
      } else {
        StaticLevels([], segments, idx + 1, m, next);
      }
    }
  }

  /**
   * Search in a static trie finds the method's route at the node the path leads to, with
   * no params, and nothing otherwise; the empty path matches nothing.
   */
  lemma StaticSearch<T>(tree: Node<T>, m: string, path: string)
    requires Static(tree)
    ensures var segs := Segmentize(path);
      SearchIn(tree, m, path) ==
        if |segs| > 0 && NodeAt(tree, segs).Some? && m in NodeAt(tree, segs).value.routes
        then Found(NodeAt(tree, segs).value.routes[m].handler, map[])
        else NoMatch
  {
    var segs := Segmentize(path);
    StaticLevels([tree], segs, 0, m, InitialSearch());
    assert segs[0..] == segs;
  }

  /** Inserting a literal path into a static trie never throws and keeps it static. */
  lemma {:induction false} WalkStatic<T>(node: Node<T>, segments: seq<string>, capture: bool, parents: seq<string>,
                                         m: string, entry: Container<T>)
    requires Static(node) && LiteralPath(segments)
    ensures var w := InsertWalk(node, segments, capture, parents, m, entry);
      w.error.None? && Static(w.node)
    decreases |segments|
  {
    if segments != [] {
      var segment := segments[0];
      assert LiteralPath(segments[1..]) by {
        forall i | 0 <= i < |segments[1..]| ensures ExtractPlaceholder(segments[1..][i]).None? {
          assert segments[1..][i] == segments[i + 1];
        }
      }
      if segment in node.children {
        WalkStatic(node.children[segment], segments[1..], capture, parents + node.placeholders, m, entry);
      } else {
        var c := CreateChild(node, segment, capture, parents);
        WalkStatic(EmptyNode(c.capture), segments[1..], c.capture, c.parents, m, entry);
      }
    }
  }

  /**
   * Find after register: in a trie holding only literal paths, inserting another literal
   * path makes `search` find the new handler under that method, with no params.
   */
  lemma StaticFindAfterInsert<T>(s: TrieState<T>, m: string, path: string, handler: T)
    requires Static(s.tree) && LiteralPath(Segmentize(path)) && |Segmentize(path)| > 0
    ensures var (s', error) := InsertInto(s, m, path, handler);
      error.None? && Static(s'.tree) && SearchIn(s'.tree, m, path) == Found(handler, map[])
  {
    WalkStatic(s.tree, Segmentize(path), s.shouldCapture, [], m, Container(handler, s.rank + 1, m + " " + path));
    InsertStores(s, m, path, handler);
    StaticSearch(InsertInto(s, m, path, handler).0.tree, m, path);
  }

  // ---------------------------------------------------------------------------
  // What search captures (router.ts:144-158), and the routes along the literal path
  // (router.ts:115-130)
  // ---------------------------------------------------------------------------

  /** A node's placeholders never drop a captured param, and leave `matched` as it is. */
  lemma {:induction false} NamesKeepKeys<T>(node: Node<T>, j: nat, segment: string, terminal: bool, m: string,
                                            st: SearchState<T>)
    requires j <= |node.placeholders|
    ensures st.params.Keys <= FoldNames(node, j, segment, terminal, m, st).params.Keys
    ensures FoldNames(node, j, segment, terminal, m, st).matched == st.matched
    decreases |node.placeholders| - j
  {
    if j < |node.placeholders| && !st.fault {
      var st' := PlaceholderStep(node, node.placeholders[j], segment, terminal, m, st);
      NamesKeepKeys(node, j + 1, segment, terminal, m, st');
    }
  }

  /** A frontier's nodes never drop a captured param. */
  lemma {:induction false} NodesKeepKeys<T>(nodes: seq<Node<T>>, i: nat, segment: string, terminal: bool, m: string,
                                            st: SearchState<T>)
    requires i <= |nodes|
    ensures st.params.Keys <= FoldNodes(nodes, i, segment, terminal, m, st).params.Keys
    decreases |nodes| - i
  {
    if i < |nodes| && !st.fault {
      var lit := LiteralStep(nodes[i], segment, terminal, m, st);
      NamesKeepKeys(nodes[i], 0, segment, terminal, m, lit);
      NodesKeepKeys(nodes, i + 1, segment, terminal, m, NodeStep(nodes[i], segment, terminal, m, st));
    }
  }

  /** A param captured at one level is still a param of the result at every deeper level. */
  lemma {:induction false} LevelsKeepKeys<T>(nodes: seq<Node<T>>, segments: seq<string>, idx: nat, m: string,
                                             st: SearchState<T>)
    requires idx <= |segments|
    ensures st.params.Keys <= Levels(nodes, segments, idx, m, st).params.Keys
    decreases |segments| - idx
  {
    if idx < |segments| && !st.fault {
      var st' := FoldNodes(nodes, 0, segments[idx], idx == |segments| - 1, m, st);
      NodesKeepKeys(nodes, 0, segments[idx], idx == |segments| - 1, m, st);
      LevelsKeepKeys(st'.temp, segments, idx + 1, m, st'.(temp := [], matched := false));
    }
  }

  /** Every capture of one level writes that level's segment, so a param holding it keeps it. */
  lemma {:induction false} NamesKeepCapture<T>(node: Node<T>, j: nat, segment: string, terminal: bool, m: string,
                                               st: SearchState<T>, key: string)
    requires j <= |node.placeholders| && key in st.params && st.params[key] == segment
    ensures var r := FoldNames(node, j, segment, terminal, m, st); key in r.params && r.params[key] == segment
    decreases |node.placeholders| - j
  {
    if j < |node.placeholders| && !st.fault {
      var st' := PlaceholderStep(node, node.placeholders[j], segment, terminal, m, st);
      NamesKeepCapture(node, j + 1, segment, terminal, m, st', key);
    }
  }

  lemma {:induction false} NodesKeepCapture<T>(nodes: seq<Node<T>>, i: nat, segment: string, terminal: bool, m: string,
                                               st: SearchState<T>, key: string)
    requires i <= |nodes| && key in st.params && st.params[key] == segment
    ensures var r := FoldNodes(nodes, i, segment, terminal, m, st); key in r.params && r.params[key] == segment
    decreases |nodes| - i
  {
    if i < |nodes| && !st.fault {
      var lit := LiteralStep(nodes[i], segment, terminal, m, st);
      NamesKeepCapture(nodes[i], 0, segment, terminal, m, lit, key);
      NodesKeepCapture(nodes, i + 1, segment, terminal, m, NodeStep(nodes[i], segment, terminal, m, st), key);
    }
  }

  /**
   * A node's `:name` placeholder on a non-empty segment collects its child's route at the
   * terminal level, and captures the segment under `name` unless a literal child already
   * matched and does not capture.
   */
  lemma {:induction false} NamedInNames<T>(node: Node<T>, j: nat, k: nat, segment: string, terminal: bool, m: string,
                                           st: SearchState<T>)
    requires j <= k < |node.placeholders| && node.placeholders[k] != "*" && segment != ""
    requires Resolves(node) && !st.fault
    ensures var name := node.placeholders[k]; var r := FoldNames(node, j, segment, terminal, m, st);
      && ":" + name in node.children
      && (terminal && m in node.children[":" + name].routes ==> node.children[":" + name].routes[m] in r.candidates)
      && (!st.matched || (segment in node.children && node.children[segment].shouldCapture) ==>
            name in r.params && r.params[name] == segment)
    decreases k - j
  {
    assert PlaceholderKey(node.placeholders[j]) in node.children;
    assert PlaceholderKey(node.placeholders[k]) in node.children;
    var st' := PlaceholderStep(node, node.placeholders[j], segment, terminal, m, st);
    if j == k {
      var name := node.placeholders[k];
      var child := node.children[":" + name];
      if terminal && m in child.routes {
        assert st'.candidates == st.candidates + [child.routes[m]];
        assert child.routes[m] in st'.candidates;
      }
      NamesKeepCandidates(node, j + 1, segment, terminal, m, st');
      if name in st'.params && st'.params[name] == segment {
        NamesKeepCapture(node, j + 1, segment, terminal, m, st', name);
      }
    } else {
      NamedInNames(node, j + 1, k, segment, terminal, m, st');
    }
  }

  /** The frontier's `p`-th node's own step, followed by the nodes after it. */
  lemma NamedAtNode<T>(nodes: seq<Node<T>>, p: nat, k: nat, segment: string, terminal: bool, m: string, st: SearchState<T>)
    requires p < |nodes| && Resolves(nodes[p]) && !st.fault
    requires k < |nodes[p].placeholders| && nodes[p].placeholders[k] != "*" && segment != ""
    ensures var node := nodes[p]; var name := node.placeholders[k]; var r := FoldNodes(nodes, p, segment, terminal, m, st);
      && ":" + name in node.children
      && (terminal && m in node.children[":" + name].routes ==> node.children[":" + name].routes[m] in r.candidates)
      && ((!st.matched && (!terminal || segment !in node.children))
          || (segment in node.children && node.children[segment].shouldCapture) ==>
            name in r.params && r.params[name] == segment)
  {
    var name := nodes[p].placeholders[k];
    var lit := LiteralStep(nodes[p], segment, terminal, m, st);
    var st' := NodeStep(nodes[p], segment, terminal, m, st);
    NamedInNames(nodes[p], 0, k, segment, terminal, m, lit);
    NodesKeepCandidates(nodes, p + 1, segment, terminal, m, st');
    if name in st'.params && st'.params[name] == segment {
      NodesKeepCapture(nodes, p + 1, segment, terminal, m, st', name);
    }
  }

  /**
   * The same for the `p`-th node of a frontier: before the terminal level it always
   * captures; at the terminal level it captures when no node up to it has a literal child
   * for the segment, or its own literal child captures.
   */
  lemma {:induction false} NamedInNodes<T>(nodes: seq<Node<T>>, i: nat, p: nat, k: nat, segment: string, terminal: bool,
                                           m: string, st: SearchState<T>)
    requires i <= p < |nodes| && AllResolve(nodes) && AllResolve(st.temp) && !st.fault
    requires k < |nodes[p].placeholders| && nodes[p].placeholders[k] != "*" && segment != ""
    ensures var node := nodes[p]; var name := node.placeholders[k]; var r := FoldNodes(nodes, i, segment, terminal, m, st);
      && ":" + name in node.children
      && (terminal && m in node.children[":" + name].routes ==> node.children[":" + name].routes[m] in r.candidates)
      && ((!st.matched && (!terminal || forall q :: i <= q <= p ==> segment !in nodes[q].children))
          || (segment in node.children && node.children[segment].shouldCapture) ==>
            name in r.params && r.params[name] == segment)
    decreases p - i
  {
    if i == p {
      NamedAtNode(nodes, p, k, segment, terminal, m, st);
    } else {
      var lit := LiteralStep(nodes[i], segment, terminal, m, st);
      LiteralSafe(nodes[i], segment, terminal, m, st);
      NamesKeepKeys(nodes[i], 0, segment, terminal, m, lit);
      FoldNamesSafe(nodes[i], 0, segment, terminal, m, lit);
      NamedInNodes(nodes, i + 1, p, k, segment, terminal, m, NodeStep(nodes[i], segment, terminal, m, st));
    }
  }

  /**
   * A frontier node's `:name` placeholder at a level with a non-empty segment: at the
   * terminal level its child's route is a final candidate; the capture stays a param to the
   * end, and at the terminal level it holds that segment.
   */
  lemma NamedInLevels<T>(nodes: seq<Node<T>>, segments: seq<string>, idx: nat, p: nat, k: nat, m: string,
                         st: SearchState<T>)
    requires idx < |segments| && AllResolve(nodes) && st.temp == [] && !st.fault && !st.matched
    requires p < |nodes| && k < |nodes[p].placeholders| && nodes[p].placeholders[k] != "*" && segments[idx] != ""
    ensures var node := nodes[p]; var name := node.placeholders[k]; var segment := segments[idx];
      var terminal := idx == |segments| - 1; var r := Levels(nodes, segments, idx, m, st);
      var captures := !terminal || (forall q :: 0 <= q <= p ==> segment !in nodes[q].children)
                      || (segment in node.children && node.children[segment].shouldCapture);
      && ":" + name in node.children
      && (terminal && m in node.children[":" + name].routes ==> node.children[":" + name].routes[m] in r.candidates)
      && (captures ==> name in r.params)
      && (captures && terminal ==> name in r.params && r.params[name] == segment)
  {
    var terminal := idx == |segments| - 1;
    var st' := FoldNodes(nodes, 0, segments[idx], terminal, m, st);
    var after := st'.(temp := [], matched := false);
    NamedInNodes(nodes, 0, p, k, segments[idx], terminal, m, st);
    LevelsKeepCandidates(st'.temp, segments, idx + 1, m, after);
    LevelsKeepKeys(st'.temp, segments, idx + 1, m, after);
    if terminal {
      assert Levels(st'.temp, segments, idx + 1, m, after) == after;
    }
  }

  /**
   * A `:name` placeholder on the root captures the first segment of any path whose first
   * segment is non-empty; a one-segment path finds the placeholder child's route.
   */
  lemma CaptureAtRoot<T>(tree: Node<T>, m: string, path: string, k: nat)
    requires Resolves(tree) && k < |tree.placeholders| && tree.placeholders[k] != "*"
    requires |Segmentize(path)| > 0 && Segmentize(path)[0] != ""
    ensures var name := tree.placeholders[k]; var segs := Segmentize(path); var r := SearchIn(tree, m, path);
      var captures := |segs| > 1 || segs[0] !in tree.children || tree.children[segs[0]].shouldCapture;
      && ":" + name in tree.children
      && (|segs| == 1 && m in tree.children[":" + name].routes ==> r.Found?)
      && (r.Found? && captures ==> name in r.params)
      && (r.Found? && captures && |segs| == 1 ==> name in r.params && r.params[name] == segs[0])
  {
    var segs := Segmentize(path);
    NamedInLevels([tree], segs, 0, 0, k, m, InitialSearch());
    SearchSafe(tree, m, path);
  }

  /** The next frontier holds every literal child of a node before the terminal level. */
  lemma {:induction false} DescendInNodes<T>(nodes: seq<Node<T>>, i: nat, p: nat, segment: string, m: string,
                                             st: SearchState<T>)
    requires i <= p < |nodes| && AllResolve(nodes) && AllResolve(st.temp) && !st.fault
    requires segment in nodes[p].children
    ensures nodes[p].children[segment] in FoldNodes(nodes, i, segment, false, m, st).temp
    decreases p - i
  {
    var lit := LiteralStep(nodes[i], segment, false, m, st);
    var st' := NodeStep(nodes[i], segment, false, m, st);
    LiteralSafe(nodes[i], segment, false, m, st);
    if i == p {
      assert lit.temp[|lit.temp| - 1] == nodes[p].children[segment];
      NamesKeepCandidates(nodes[i], 0, segment, false, m, lit);
      NodesKeepCandidates(nodes, i + 1, segment, false, m, st');
    } else {
      FoldNamesSafe(nodes[i], 0, segment, false, m, lit);
      DescendInNodes(nodes, i + 1, p, segment, m, st');
    }
  }

  /**
   * At the terminal level a frontier node's literal child contributes its own route and
   * the route of its `*` child (router.ts:119-125).
   */
  lemma {:induction false} LiteralInNodes<T>(nodes: seq<Node<T>>, i: nat, p: nat, segment: string, m: string,
                                             st: SearchState<T>)
    requires i <= p < |nodes| && AllResolve(nodes) && AllResolve(st.temp) && !st.fault
    requires segment in nodes[p].children
    ensures var next := nodes[p].children[segment]; var r := FoldNodes(nodes, i, segment, true, m, st);
      && (m in next.routes ==> next.routes[m] in r.candidates)
      && ("*" in next.children && m in next.children["*"].routes ==> next.children["*"].routes[m] in r.candidates)
    decreases p - i
  {
    var lit := LiteralStep(nodes[i], segment, true, m, st);
    var st' := NodeStep(nodes[i], segment, true, m, st);
    LiteralSafe(nodes[i], segment, true, m, st);
    if i == p {
      var next := nodes[p].children[segment];
      var wild := if "*" in next.children then RouteOf(next.children["*"], m) else [];
      assert lit.candidates == st.candidates + wild + RouteOf(next, m);
      assert m in next.routes ==> next.routes[m] in lit.candidates;
      assert "*" in next.children && m in next.children["*"].routes ==> next.children["*"].routes[m] in lit.candidates;
      NamesKeepCandidates(nodes[i], 0, segment, true, m, lit);
      NodesKeepCandidates(nodes, i + 1, segment, true, m, st');
    } else {
      FoldNamesSafe(nodes[i], 0, segment, true, m, lit);
      LiteralInNodes(nodes, i + 1, p, segment, m, st');
    }
  }

  /**
   * A frontier node's literal descent: the routes at the node the remaining segments lead
   * to, and those of its `*` child, are final candidates.
   */
  lemma {:induction false} LiteralInLevels<T>(nodes: seq<Node<T>>, segments: seq<string>, idx: nat, p: nat, m: string,
                                              st: SearchState<T>)
    requires idx < |segments| && AllResolve(nodes) && st.temp == [] && !st.fault
    requires p < |nodes| && NodeAt(nodes[p], segments[idx..]).Some?
    ensures var n := NodeAt(nodes[p], segments[idx..]).value; var r := Levels(nodes, segments, idx, m, st);
      && (m in n.routes ==> n.routes[m] in r.candidates)
      && ("*" in n.children && m in n.children["*"].routes ==> n.children["*"].routes[m] in r.candidates)
    decreases |segments| - idx
  {
    var segment := segments[idx];
    var terminal := idx == |segments| - 1;
    assert segments[idx..][0] == segment && segments[idx..][1..] == segments[idx + 1..];
    var next := nodes[p].children[segment];
    assert NodeAt(nodes[p], segments[idx..]) == NodeAt(next, segments[idx + 1..]);
    var st' := FoldNodes(nodes, 0, segment, terminal, m, st);
    var after := st'.(temp := [], matched := false);
    FoldNodesSafe(nodes, 0, segment, terminal, m, st);
    if terminal {
      assert segments[idx + 1..] == [];
      LiteralInNodes(nodes, 0, p, segment, m, st);
      assert Levels(st'.temp, segments, idx + 1, m, after) == after;
    } else {
      DescendInNodes(nodes, 0, p, segment, m, st);
      var q :| 0 <= q < |st'.temp| && st'.temp[q] == next;
      LiteralInLevels(st'.temp, segments, idx + 1, q, m, after);
    }
  }

  /**
   * In a trie where every placeholder has its child, searching exactly the path of a node
   * collects that node's route and its `*` child's route (a wildcard route also answers
   * its parent path), and either makes the search find a handler.
   */
  lemma PathFound<T>(tree: Node<T>, m: string, path: string)
    requires Resolves(tree) && |Segmentize(path)| > 0 && NodeAt(tree, Segmentize(path)).Some?
    ensures var n := NodeAt(tree, Segmentize(path)).value; var cs := SearchRun(tree, m, path).candidates;
      && (m in n.routes ==> n.routes[m] in cs)
      && ("*" in n.children && m in n.children["*"].routes ==> n.children["*"].routes[m] in cs)
      && (m in n.routes || ("*" in n.children && m in n.children["*"].routes) ==> SearchIn(tree, m, path).Found?)
  {
    var segs := Segmentize(path);
    assert segs[0..] == segs;
    LiteralInLevels([tree], segs, 0, 0, m, InitialSearch());
    SearchSafe(tree, m, path);
  }
}
