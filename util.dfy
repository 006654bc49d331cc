/**
 * Path and composition helpers (util.ts): splitting a path into segments, composing
 * middleware from the right, and the classifiers of route-table values.
 */
module Util {
  import opened Types

  /** `s.split(sep)` for a one-character separator: never empty, no part contains `sep`. */
  function Split(s: string, sep: char): (parts: seq<string>)
    ensures |parts| >= 1
    ensures forall i :: 0 <= i < |parts| ==> sep !in parts[i]
    ensures parts[0] == "" <==> (|s| == 0 || s[0] == sep)
  {
    if |s| == 0 then [""]
    else
      var rest := Split(s[1..], sep);
      if s[0] == sep then [""] + rest
      else [[s[0]] + rest[0]] + rest[1..]
  }

  /** `parts.join(sep)`. */
  function Join(parts: seq<string>, sep: char): string
  {
    if |parts| == 0 then ""
    else if |parts| == 1 then parts[0]
    else parts[0] + [sep] + Join(parts[1..], sep)
  }

  /** Joining the parts of a split gives back the string. */
  lemma {:induction false} JoinSplit(s: string, sep: char)
    ensures Join(Split(s, sep), sep) == s
  {
    if |s| > 0 {
      JoinSplit(s[1..], sep);
      JoinSplitStep(s, sep);
    }
  }

  /** The inductive step of `JoinSplit`: from the tail of `s` to `s`. */
  lemma JoinSplitStep(s: string, sep: char)
    requires |s| > 0 && Join(Split(s[1..], sep), sep) == s[1..]
    ensures Join(Split(s, sep), sep) == s
  {
    var rest := Split(s[1..], sep);
    if s[0] == sep {
      assert Split(s, sep) == [""] + rest;
      assert ([""] + rest)[1..] == rest;
      assert s == [sep] + s[1..];
    } else if |rest| == 1 {
      assert s == [s[0]] + s[1..];
    } else {
      var parts := Split(s, sep);
      assert parts[1..] == rest[1..];
      calc {
        Join(parts, sep);
        parts[0] + [sep] + Join(rest[1..], sep);
        [s[0]] + (rest[0] + [sep] + Join(rest[1..], sep));
        [s[0]] + Join(rest, sep);
        [s[0]] + s[1..];
        s;
      }
    }
  }

  /** One step of `Split` on a string written as its first character and the rest. */
  lemma SplitCons(c: char, t: string, sep: char)
    ensures Split([c] + t, sep) ==
      if c == sep then [""] + Split(t, sep) else [[c] + Split(t, sep)[0]] + Split(t, sep)[1..]
  {
    assert ([c] + t)[0] == c && ([c] + t)[1..] == t;
  }

  /** Splitting at a separator splits both sides independently. */
  lemma {:induction false} SplitAround(a: string, b: string, sep: char)
    ensures Split(a + [sep] + b, sep) == Split(a, sep) + Split(b, sep)
  {
    if |a| == 0 {
      assert a + [sep] + b == [sep] + b;
      SplitCons(sep, b, sep);
    } else {
      SplitAround(a[1..], b, sep);
      SplitAroundStep(a, b, sep);
    }
  }

  /** The inductive step of `SplitAround`: from the tail of `a` to `a`. */
  lemma SplitAroundStep(a: string, b: string, sep: char)
    requires |a| > 0
    requires Split(a[1..] + [sep] + b, sep) == Split(a[1..], sep) + Split(b, sep)
    ensures Split(a + [sep] + b, sep) == Split(a, sep) + Split(b, sep)
  {
    var t := a[1..];
    assert a == [a[0]] + t;
    assert a + [sep] + b == [a[0]] + (t + [sep] + b);
    SplitCons(a[0], t + [sep] + b, sep);
    SplitCons(a[0], t, sep);
    if a[0] != sep {
      ExtendFirst([a[0]], Split(t, sep), Split(b, sep));
    }
  }

  /** Extending the first part of `parts + rest` extends the first part of `parts`. */
  lemma ExtendFirst(prefix: string, parts: seq<string>, rest: seq<string>)
    requires |parts| >= 1
    ensures [prefix + (parts + rest)[0]] + (parts + rest)[1..] == ([prefix + parts[0]] + parts[1..]) + rest
  {
    assert (parts + rest)[0] == parts[0];
    assert (parts + rest)[1..] == parts[1..] + rest;
  }

  /** Splitting `a + [sep] + b` where `a` holds no separator yields `a` first. */
  lemma SplitAfterPart(a: string, b: string, sep: char)
    requires sep !in a
    ensures Split(a + [sep] + b, sep) == [a] + Split(b, sep)
  {
    SplitAround(a, b, sep);
    SplitWithoutSeparator(a, sep);
  }

  /** A string without the separator splits into itself alone. */
  lemma {:induction false} SplitWithoutSeparator(a: string, sep: char)
    requires sep !in a
    ensures Split(a, sep) == [a]
  {
    if |a| > 0 {
      SplitWithoutSeparator(a[1..], sep);
      assert [a[0]] + a[1..] == a;
    }
  }

  /** Splitting a join of separator-free parts gives back the parts. */
  lemma {:induction false} SplitJoin(parts: seq<string>, sep: char)
    requires |parts| >= 1
    requires forall i :: 0 <= i < |parts| ==> sep !in parts[i]
    ensures Split(Join(parts, sep), sep) == parts
  {
    if |parts| == 1 {
      SplitWithoutSeparator(parts[0], sep);
    } else {
      SplitJoin(parts[1..], sep);
      SplitAfterPart(parts[0], Join(parts[1..], sep), sep);
      assert [parts[0]] + parts[1..] == parts;
    }
  }

  /**
   * `segmentize` (util.ts:35-38): split on `/` and drop the first part when it is empty,
   * that is when the path is empty or starts with `/`. Exactly one part is dropped then.
   */
  function Segmentize(pathname: string): (segments: seq<string>)
    ensures forall i :: 0 <= i < |segments| ==> '/' !in segments[i]
    ensures |segments| == |Split(pathname, '/')| - (if pathname == "" || pathname[0] == '/' then 1 else 0)
  {
    var parts := Split(pathname, '/');
    if parts[0] == "" then parts[1..] else parts
  }

  /** Round trip: joining the segments restores the path, less its leading `/`. */
  lemma SegmentizeRoundTrip(pathname: string)
    ensures |pathname| > 0 && pathname[0] == '/' ==> "/" + Join(Segmentize(pathname), '/') == pathname
    ensures !(|pathname| > 0 && pathname[0] == '/') ==> Join(Segmentize(pathname), '/') == pathname
  {
    JoinSplit(pathname, '/');
    var parts := Split(pathname, '/');
    if |pathname| > 0 && pathname[0] == '/' {
      assert |parts| >= 2;
      assert [parts[0]] + parts[1..] == parts;
    }
  }

  /** The converse round trip: a path built from separator-free segments yields them. */
  lemma SegmentizeJoin(segments: seq<string>)
    requires |segments| >= 1
    requires forall i :: 0 <= i < |segments| ==> '/' !in segments[i]
    ensures Segmentize("/" + Join(segments, '/')) == segments
  {
    var parts := [""] + segments;
    assert parts[1..] == segments;
    assert Join(parts, '/') == "/" + Join(segments, '/');
    SplitJoin(parts, '/');
  }

  /** Appending `"/" + segment` to a path appends `segment` to its segments. */
  lemma SegmentizeAppend(pathname: string, segment: string)
    requires '/' !in segment
    ensures Segmentize(pathname + "/" + segment) == Segmentize(pathname) + [segment]
  {
    SplitAround(pathname, segment, '/');
    SplitWithoutSeparator(segment, '/');
    var parts := Split(pathname, '/');
    assert Split(pathname + "/" + segment, '/') == parts + [segment];
    if parts[0] == "" {
      assert (parts + [segment])[1..] == parts[1..] + [segment];
    }
  }

  /**
   * `compose(...fns)(x)` (util.ts:32-33): `reduceRight`, so the last function is applied
   * to `x` first.
   */
  function Compose<X>(fns: seq<X -> X>, x: X): X
    decreases |fns|
  {
    if |fns| == 0 then x else Compose(fns[..|fns| - 1], fns[|fns| - 1](x))
  }

  /** `compose()` is the identity. */
  lemma ComposeEmpty<X>(x: X)
    ensures Compose([], x) == x
  {
  }

  /** Composing a concatenation nests the two compositions. */
  lemma {:induction false} ComposeAppend<X>(a: seq<X -> X>, b: seq<X -> X>, x: X)
    ensures Compose(a + b, x) == Compose(a, Compose(b, x))
    decreases |b|
  {
    if |b| == 0 {
      assert a + b == a;
    } else {
      var ab := a + b;
      assert ab[..|ab| - 1] == a + b[..|b| - 1];
      assert ab[|ab| - 1] == b[|b| - 1];
      ComposeAppend(a, b[..|b| - 1], b[|b| - 1](x));
    }
  }

  /** `compose(f1, ..., fn)(x) == f1(compose(f2, ..., fn)(x))`: the first function is outermost. */
  lemma ComposeHead<X>(fns: seq<X -> X>, x: X)
    requires |fns| > 0
    ensures Compose(fns, x) == fns[0](Compose(fns[1..], x))
  {
    assert fns == [fns[0]] + fns[1..];
    ComposeAppend([fns[0]], fns[1..], x);
  }

  /** `isPipeline` (util.ts:14-18): true exactly for arrays. */
  predicate IsPipeline<H>(u: Unit<H>)
  {
    u.PipelineUnit?
  }

  /** `isHandlerMapping` (util.ts:20-24): true exactly for plain objects. */
  predicate IsHandlerMapping<H>(u: Unit<H>)
  {
    u.MappingUnit?
  }

  /** `isHandler` (util.ts:26-30): true exactly for functions. */
  predicate IsHandler<H>(u: Unit<H>)
  {
    u.HandlerUnit?
  }

  /** `isPipeline` on the value held under a method key of a mapping. */
  predicate IsPipelineAction<H>(a: Action<H>)
  {
    a.PipelineAction?
  }

  /** The three classifiers are mutually exclusive, so the order they are tried in only decides `OtherUnit`. */
  lemma ClassifiersExclusive<H>(u: Unit<H>)
    ensures !(IsHandlerMapping(u) && IsPipeline(u)) && !(IsHandlerMapping(u) && IsHandler(u)) && !(IsPipeline(u) && IsHandler(u))
    ensures u.OtherUnit? <==> !IsHandlerMapping(u) && !IsPipeline(u) && !IsHandler(u)
  {
  }
}
