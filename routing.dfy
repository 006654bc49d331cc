/**
 * Registration and dispatch (routing.ts): turning a route table into router registrations,
 * converting request strings to values, reading the body by content type, and the
 * `RouteFinder` middleware that looks a request up and merges its parameters.
 */
module Dispatch {
  import opened Types
  import opened Util
  import opened TrieRouter

  // ---------------------------------------------------------------------------
  // Request values (routing.ts:8-19)
  // ---------------------------------------------------------------------------

  /**
   * `inferRequestValueType`. `toNumber(v)` stands for `Number(v)`: `Some(n)` when the
   * result is a number other than NaN, which `+v` then yields, and `None` when it is NaN.
   */
  function InferRequestValueType(v: string, toNumber: string -> Option<real>): (r: Value)
    ensures r.Bool? <==> v == "" || v == "true" || v == "false"
    ensures r.Bool? ==> r.b == (v != "false")
    ensures r.Str? ==> r.s == v
    ensures !r.Nested?
  {
    if v == "" then Bool(true)
    else if v == "true" then Bool(true)
    else if v == "false" then Bool(false)
    else if toNumber(v).Some? then Num(toNumber(v).value)
    else Str(v)
  }

  /** The three keyword checks come before the numeric test: their results do not depend on `Number`. */
  lemma KeywordsBeforeNumbers(v: string, toNumber1: string -> Option<real>, toNumber2: string -> Option<real>)
    requires v == "" || v == "true" || v == "false"
    ensures InferRequestValueType(v, toNumber1) == InferRequestValueType(v, toNumber2)
  {
  }

  /** Any other string is a number exactly when `Number` accepts it, and is otherwise kept as it is. */
  lemma NumbersOrText(v: string, toNumber: string -> Option<real>)
    requires v != "" && v != "true" && v != "false"
    ensures InferRequestValueType(v, toNumber).Num? <==> toNumber(v).Some?
    ensures toNumber(v).Some? ==> InferRequestValueType(v, toNumber) == Num(toNumber(v).value)
    ensures toNumber(v).None? <==> InferRequestValueType(v, toNumber) == Str(v)
  {
  }

  // ---------------------------------------------------------------------------
  // Filling a record from key/value pairs
  // ---------------------------------------------------------------------------

  /**
   * The query record (routing.ts:77-81) and the urlencoded body record (routing.ts:35-38):
   * `params[key] = inferRequestValueType(value)` for each pair in order, starting from `{}`.
   */
  function InferredRecord(pairs: seq<(string, string)>, toNumber: string -> Option<real>): Params
  {
    if |pairs| == 0 then map[]
    else
      var (key, value) := pairs[|pairs| - 1];
      InferredRecord(pairs[..|pairs| - 1], toNumber)[key := InferRequestValueType(value, toNumber)]
  }

  /** A key is recorded exactly when some pair has it. */
  lemma {:induction false} InferredRecordKeys(pairs: seq<(string, string)>, toNumber: string -> Option<real>, k: string)
    ensures k in InferredRecord(pairs, toNumber) <==> exists i :: 0 <= i < |pairs| && pairs[i].0 == k
  {
    if |pairs| > 0 {
      var init := pairs[..|pairs| - 1];
      InferredRecordKeys(init, toNumber, k);
      if exists i :: 0 <= i < |pairs| && pairs[i].0 == k {
        var i :| 0 <= i < |pairs| && pairs[i].0 == k;
        if i < |init| {
          assert init[i] == pairs[i];
        }
      }
      if exists i :: 0 <= i < |init| && init[i].0 == k {
        var i :| 0 <= i < |init| && init[i].0 == k;
        assert pairs[i] == init[i];
      }
    }
  }

  /** The value recorded for a key is the inferred value of its last pair: later pairs win. */
  lemma {:induction false} InferredRecordLast(pairs: seq<(string, string)>, toNumber: string -> Option<real>, i: nat)
    requires i < |pairs| && forall j :: i < j < |pairs| ==> pairs[j].0 != pairs[i].0
    ensures pairs[i].0 in InferredRecord(pairs, toNumber)
    ensures InferredRecord(pairs, toNumber)[pairs[i].0] == InferRequestValueType(pairs[i].1, toNumber)
  {
    if i < |pairs| - 1 {
      var init := pairs[..|pairs| - 1];
      assert init[i] == pairs[i];
      InferredRecordLast(init, toNumber, i);
    }
  }

  /** The loop `for (const [key, value] of pairs) params[key] = inferRequestValueType(value)`. */
  method CollectParams(pairs: seq<(string, string)>, toNumber: string -> Option<real>) returns (params: Params)
    ensures params == InferredRecord(pairs, toNumber)
  {
    params := map[];
    var i := 0;
    while i < |pairs|
      invariant 0 <= i <= |pairs|
      invariant params == InferredRecord(pairs[..i], toNumber)
    {
      var (key, value) := pairs[i];
      assert pairs[..i + 1][..i] == pairs[..i];
      params := params[key := InferRequestValueType(value, toNumber)];
      i := i + 1;
    }
    assert pairs[..i] == pairs;
  }

  // ---------------------------------------------------------------------------
  // The request body (routing.ts:21-64)
  // ---------------------------------------------------------------------------

  /** A multipart form value: text or an uploaded file of type `F`. */
  datatype FormValue<F> = Text(text: string) | Upload(file: F)

  /**
   * The body of a request as the platform would decode it. `present` is whether
   * `request.body` is non-null and `contentType` is the `Content-Type` header. The decoders
   * are not modelled: `fields` is what `formData()` yields for a urlencoded body, `parts`
   * what it yields for a multipart body, and `json` the members of the object `json()`
   * yields; each is `None` when that decoder rejects.
   */
  datatype BodySource<F> = BodySource(
    present: bool,
    contentType: Option<string>,
    fields: Option<seq<(string, string)>>,
    parts: Option<seq<(string, FormValue<F>)>>,
    json: Option<Params>)

  /** What `parseBody` resolves to, or `Rejected` when the decoder it awaits rejects. */
  datatype ParsedBody<F> = Parsed(params: Params, files: map<string, F>) | Rejected

  const UrlEncoded: string := "application/x-www-form-urlencoded"
  const Json: string := "application/json"
  const Multipart: string := "multipart/form-data"

  /** `headers.get('Content-Type')?.split(';')[0]`: the media type without its parameters. */
  function MediaType(header: Option<string>): (r: Option<string>)
    ensures r.Some? <==> header.Some?
    ensures r.Some? ==> ';' !in r.value && r.value <= header.value
    ensures r.Some? ==> |r.value| == |header.value| || header.value[|r.value|] == ';'
  {
    if header.None? then None
    else
      var t := Split(header.value, ';')[0];
      SplitFirstPrefix(header.value, ';');
      Some(t)
  }

  /** The first part of a split is the prefix of the string up to the first separator. */
  lemma {:induction false} SplitFirstPrefix(s: string, sep: char)
    ensures Split(s, sep)[0] <= s
    ensures |Split(s, sep)[0]| == |s| || s[|Split(s, sep)[0]|] == sep
  {
    if |s| > 0 && s[0] != sep {
      SplitFirstPrefix(s[1..], sep);
      assert s == [s[0]] + s[1..];
    }
  }

  /** The text parts of a multipart form by key, as strings and not inferred; the last part for a key wins. */
  function TextRecord<F>(parts: seq<(string, FormValue<F>)>): Params
  {
    if |parts| == 0 then map[]
    else
      var (key, value) := parts[|parts| - 1];
      var r := TextRecord(parts[..|parts| - 1]);
      if value.Text? then r[key := Str(value.text)] else r
  }

  /** The file parts of a multipart form by key; the last part for a key wins. */
  function FileRecord<F>(parts: seq<(string, FormValue<F>)>): map<string, F>
  {
    if |parts| == 0 then map[]
    else
      var (key, value) := parts[|parts| - 1];
      var r := FileRecord(parts[..|parts| - 1]);
      if value.Upload? then r[key := value.file] else r
  }

  /** A key has a text value exactly when some part under it is text, and every such value is a string. */
  lemma {:induction false} TextRecordKeys<F>(parts: seq<(string, FormValue<F>)>, k: string)
    ensures k in TextRecord(parts) <==> exists j :: 0 <= j < |parts| && parts[j].0 == k && parts[j].1.Text?
    ensures k in TextRecord(parts) ==> TextRecord(parts)[k].Str?
  {
    if |parts| > 0 {
      var init := parts[..|parts| - 1];
      TextRecordKeys(init, k);
      if exists j :: 0 <= j < |parts| && parts[j].0 == k && parts[j].1.Text? {
        var j :| 0 <= j < |parts| && parts[j].0 == k && parts[j].1.Text?;
        if j < |init| {
          assert init[j] == parts[j];
        }
      }
      if exists j :: 0 <= j < |init| && init[j].0 == k && init[j].1.Text? {
        var j :| 0 <= j < |init| && init[j].0 == k && init[j].1.Text?;
        assert parts[j] == init[j];
      }
    }
  }

  /** A key has a file exactly when some part under it is a file. */
  lemma {:induction false} FileRecordKeys<F>(parts: seq<(string, FormValue<F>)>, k: string)
    ensures k in FileRecord(parts) <==> exists j :: 0 <= j < |parts| && parts[j].0 == k && parts[j].1.Upload?
  {
    if |parts| > 0 {
      var init := parts[..|parts| - 1];
      FileRecordKeys(init, k);
      if exists j :: 0 <= j < |parts| && parts[j].0 == k && parts[j].1.Upload? {
        var j :| 0 <= j < |parts| && parts[j].0 == k && parts[j].1.Upload?;
        if j < |init| {
          assert init[j] == parts[j];
        }
      }
      if exists j :: 0 <= j < |init| && init[j].0 == k && init[j].1.Upload? {
        var j :| 0 <= j < |init| && init[j].0 == k && init[j].1.Upload?;
        assert parts[j] == init[j];
      }
    }
  }

  /** The value recorded for a key is the text of its last text part. */
  lemma {:induction false} TextRecordLast<F>(parts: seq<(string, FormValue<F>)>, i: nat)
    requires i < |parts| && parts[i].1.Text?
    requires forall j :: i < j < |parts| ==> parts[j].0 != parts[i].0 || parts[j].1.Upload?
    ensures parts[i].0 in TextRecord(parts)
    ensures TextRecord(parts)[parts[i].0] == Str(parts[i].1.text)
  {
    if i < |parts| - 1 {
      var init := parts[..|parts| - 1];
      assert init[i] == parts[i];
      TextRecordLast(init, i);
    }
  }

  /** The file recorded for a key is the file of its last file part. */
  lemma {:induction false} FileRecordLast<F>(parts: seq<(string, FormValue<F>)>, i: nat)
    requires i < |parts| && parts[i].1.Upload?
    requires forall j :: i < j < |parts| ==> parts[j].0 != parts[i].0 || parts[j].1.Text?
    ensures parts[i].0 in FileRecord(parts)
    ensures FileRecord(parts)[parts[i].0] == parts[i].1.file
  {
    if i < |parts| - 1 {
      var init := parts[..|parts| - 1];
      assert init[i] == parts[i];
      FileRecordLast(init, i);
    }
  }

  /** The multipart loop (routing.ts:50-57): files to `files`, everything else to `params`, uninferred. */
  method CollectParts<F>(parts: seq<(string, FormValue<F>)>) returns (params: Params, files: map<string, F>)
    ensures params == TextRecord(parts) && files == FileRecord(parts)
  {
    params, files := map[], map[];
    var i := 0;
    while i < |parts|
      invariant 0 <= i <= |parts|
      invariant params == TextRecord(parts[..i]) && files == FileRecord(parts[..i])
    {
      var (key, value) := parts[i];
      assert parts[..i + 1][..i] == parts[..i];
      if value.Upload? {
        files := files[key := value.file];
      } else {
        params := params[key := Str(value.text)];
      }
      i := i + 1;
    }
    assert parts[..i] == parts;
  }

  /** `parseBody`: no body or an unknown media type gives empty records. */
  function BodyOf<F>(body: BodySource<F>, toNumber: string -> Option<real>): ParsedBody<F>
  {
    if !body.present then Parsed(map[], map[])
    else
      var t := MediaType(body.contentType);
      if t == Some(UrlEncoded) then
        if body.fields.None? then Rejected else Parsed(InferredRecord(body.fields.value, toNumber), map[])
      else if t == Some(Json) then
        if body.json.None? then Rejected else Parsed(body.json.value, map[])
      else if t == Some(Multipart) then
        if body.parts.None? then Rejected else Parsed(TextRecord(body.parts.value), FileRecord(body.parts.value))
      else Parsed(map[], map[])
  }

  /** The body branching of `parseBody`, with the loops of the two form branches. */
  method ParseBody<F>(body: BodySource<F>, toNumber: string -> Option<real>) returns (r: ParsedBody<F>)
    ensures r == BodyOf(body, toNumber)
  {
    if !body.present {
      return Parsed(map[], map[]);
    }
    var contentType := MediaType(body.contentType);
    if contentType == Some(UrlEncoded) {
      if body.fields.None? {
        return Rejected;
      }
      var params := CollectParams(body.fields.value, toNumber);
      r := Parsed(params, map[]);
    } else if contentType == Some(Json) {
      if body.json.None? {
        return Rejected;
      }
      r := Parsed(body.json.value, map[]);
    } else if contentType == Some(Multipart) {
      if body.parts.None? {
        return Rejected;
      }
      var params, files := CollectParts(body.parts.value);
      r := Parsed(params, files);
    } else {
      r := Parsed(map[], map[]);
    }
  }

  /** Without a body, or with a media type none of the three branches names, nothing is read. */
  lemma EmptyBodies<F>(body: BodySource<F>, toNumber: string -> Option<real>)
    requires !body.present || MediaType(body.contentType) !in {Some(UrlEncoded), Some(Json), Some(Multipart)}
    ensures BodyOf(body, toNumber) == Parsed(map[], map[])
  {
  }

  /**
   * In a multipart body a key is in `files` exactly when some part under it is a file,
   * in `params` exactly when some part under it is text, and every param is a string.
   */
  lemma MultipartSeparates<F>(body: BodySource<F>, toNumber: string -> Option<real>, k: string)
    requires body.present && MediaType(body.contentType) == Some(Multipart) && body.parts.Some?
    ensures var parts := body.parts.value;
      && BodyOf(body, toNumber).Parsed?
      && (k in BodyOf(body, toNumber).files <==> exists j :: 0 <= j < |parts| && parts[j].0 == k && parts[j].1.Upload?)
      && (k in BodyOf(body, toNumber).params <==> exists j :: 0 <= j < |parts| && parts[j].0 == k && parts[j].1.Text?)
      && (k in BodyOf(body, toNumber).params ==> BodyOf(body, toNumber).params[k].Str?)
  {
    TextRecordKeys(body.parts.value, k);
    FileRecordKeys(body.parts.value, k);
  }

  // ---------------------------------------------------------------------------
  // RouteFinder (routing.ts:66-93)
  // ---------------------------------------------------------------------------

  /** `router.find(method, pathname) || router.find('ANY', pathname)`; a thrown search propagates. */
  function Lookup<H>(tree: Node<H>, m: string, pathname: string): (r: SearchResult<H>)
    ensures r.Found? <==> SearchIn(tree, m, pathname).Found? || (SearchIn(tree, m, pathname).NoMatch? && SearchIn(tree, AnyMethod, pathname).Found?)
    ensures SearchIn(tree, m, pathname).Found? ==> r == SearchIn(tree, m, pathname)
    ensures r.NoMatch? ==> SearchIn(tree, m, pathname).NoMatch? && SearchIn(tree, AnyMethod, pathname).NoMatch?
    ensures SearchIn(tree, m, pathname).NoMatch? ==> r == SearchIn(tree, AnyMethod, pathname)
    ensures SearchIn(tree, m, pathname).Fault? ==> r.Fault?
  {
    var r := SearchIn(tree, m, pathname);
    if r.NoMatch? then SearchIn(tree, AnyMethod, pathname) else r
  }

  /** The path captures as parameter values. */
  function PathValues(captures: map<string, string>): (params: Params)
    ensures params.Keys == captures.Keys && forall k :: k in captures ==> params[k] == Str(captures[k])
  {
    map k | k in captures :: Str(captures[k])
  }

  /** `{...queryParams, ...pathParams, ...bodyParams}`: body over path over query. */
  function Merge(query: Params, path: Params, body: Params): (merged: Params)
    ensures merged.Keys == query.Keys + path.Keys + body.Keys
    ensures forall k :: k in body ==> merged[k] == body[k]
    ensures forall k :: k in path && k !in body ==> merged[k] == path[k]
    ensures forall k :: k in query && k !in path && k !in body ==> merged[k] == query[k]
  {
    query + path + body
  }

  /** What `RouteFinder` leaves behind: the next step, and the request's `params` and `files`. */
  datatype Outcome<H> = Invoke(handler: H) | Next | Thrown

  datatype Dispatched<H, F> = Dispatched(outcome: Outcome<H>, params: Params, files: map<string, F>)

  /**
   * The effect of `RouteFinder(router)(next)` on a request: a found route is invoked with
   * the merged parameters and the body's files; no route calls `next` and leaves the
   * request as it was; a throwing search or a rejected body throws.
   */
  function Routed<H, F>(tree: Node<H>, m: string, pathname: string, query: seq<(string, string)>, body: BodySource<F>,
                        params: Params, files: map<string, F>, toNumber: string -> Option<real>): Dispatched<H, F>
  {
    match Lookup(tree, m, pathname)
    case Fault => Dispatched(Thrown, params, files)
    case NoMatch => Dispatched(Next, params, files)
    case Found(h, captures) =>
      match BodyOf(body, toNumber)
      case Rejected => Dispatched(Thrown, params, files)
      case Parsed(bodyParams, bodyFiles) =>
        Dispatched(Invoke(h), Merge(InferredRecord(query, toNumber), PathValues(captures), bodyParams), bodyFiles)
  }

  /** When no route matches, the body plays no part (it is never parsed) and the request is untouched. */
  lemma MissIgnoresBody<H, F>(tree: Node<H>, m: string, pathname: string, query: seq<(string, string)>,
                              body1: BodySource<F>, body2: BodySource<F>, params: Params, files: map<string, F>,
                              toNumber: string -> Option<real>)
    requires Lookup(tree, m, pathname).NoMatch?
    ensures Routed(tree, m, pathname, query, body1, params, files, toNumber)
         == Routed(tree, m, pathname, query, body2, params, files, toNumber)
         == Dispatched(Next, params, files)
  {
  }

  /**
   * A found route gets every query, path and body key, a body value over a path capture
   * over a query value, and exactly the body's files.
   */
  lemma FoundParams<H, F>(tree: Node<H>, m: string, pathname: string, query: seq<(string, string)>, body: BodySource<F>,
                          params: Params, files: map<string, F>, toNumber: string -> Option<real>, k: string)
    requires Lookup(tree, m, pathname).Found? && BodyOf(body, toNumber).Parsed?
    ensures var d := Routed(tree, m, pathname, query, body, params, files, toNumber);
      var captures := Lookup(tree, m, pathname).params;
      var b := BodyOf(body, toNumber);
      var q := InferredRecord(query, toNumber);
      && d.outcome == Invoke(Lookup(tree, m, pathname).handler) && d.files == b.files
      && (k in d.params <==> k in q || k in captures || k in b.params)
      && (k in b.params ==> d.params[k] == b.params[k])
      && (k !in b.params && k in captures ==> d.params[k] == Str(captures[k]))
      && (k !in b.params && k !in captures && k in q ==> d.params[k] == q[k])
  {
  }

  /** An incoming request: its method, URL path and query, and body, and the two records `RouteFinder` sets. */
  class Request<F> {
    const requestMethod: string
    const pathname: string
    const query: seq<(string, string)>
    const body: BodySource<F>
    var params: Params
    var files: map<string, F>

    constructor (requestMethod: string, pathname: string, query: seq<(string, string)>, body: BodySource<F>)
      ensures this.requestMethod == requestMethod && this.pathname == pathname && this.query == query && this.body == body
      ensures params == map[] && files == map[]
    {
      this.requestMethod := requestMethod;
      this.pathname := pathname;
      this.query := query;
      this.body := body;
      params := map[];
      files := map[];
    }
  }

  /** `RouteFinder(router)(next)` applied to `request`; `Next` stands for calling `next`. */
  method RouteFinder<H, F>(router: Router<H>, request: Request<F>, toNumber: string -> Option<real>) returns (outcome: Outcome<H>)
    modifies request
    ensures var d := Routed(router.root.tree, request.requestMethod, request.pathname, request.query, request.body,
                            old(request.params), old(request.files), toNumber);
      outcome == d.outcome && request.params == d.params && request.files == d.files
  {
    var data := router.Find(request.requestMethod, request.pathname);
    if data.NoMatch? {
      data := router.Find(AnyMethod, request.pathname);
    }
    if data.Fault? {
      return Thrown;
    }
    if data.NoMatch? {
      return Next;
    }
    var queryParams := CollectParams(request.query, toNumber);
    var parsed := ParseBody(request.body, toNumber);
    if parsed.Rejected? {
      return Thrown;
    }
    request.params := Merge(queryParams, PathValues(data.params), parsed.params);
    request.files := parsed.files;
    outcome := Invoke(data.handler);
  }

  // ---------------------------------------------------------------------------
  // Routing (routing.ts:95-154)
  // ---------------------------------------------------------------------------

  /** One call `add(method, path, ...fns)`. */
  datatype Registration<!H> = Registration(m: string, path: string, fns: seq<Fn<H>>)

  /** The middleware of a pipeline whose elements are all middleware. */
  function Wraps<H>(fns: seq<Fn<H>>): (ws: seq<H -> H>)
    requires forall i :: 0 <= i < |fns| ==> fns[i].Mw?
    ensures |ws| == |fns| && forall i :: 0 <= i < |fns| ==> ws[i] == fns[i].wrap
  {
    seq(|fns|, i requires 0 <= i < |fns| && fns[i].Mw? => fns[i].wrap)
  }

  /** Middleware as pipeline elements. */
  function Mws<H>(ws: seq<H -> H>): (fns: seq<Fn<H>>)
    ensures |fns| == |ws| && forall i :: 0 <= i < |ws| ==> fns[i] == Mw(ws[i])
  {
    seq(|ws|, i requires 0 <= i < |ws| => Mw(ws[i]))
  }

  /** The handler `add` registers for `fns`: the last element composed under the ones before it. */
  function PipelineHandler<H>(fns: seq<Fn<H>>): H
    requires WellTypedPipeline(fns)
  {
    Compose(Wraps(fns[..|fns| - 1]), fns[|fns| - 1].handler)
  }

  /** A lone handler is registered as it is (the `fns.length === 0` branch of routing.ts:109-111). */
  lemma BareHandler<H>(h: H)
    ensures PipelineHandler([Hd(h)]) == h
  {
    assert [Hd(h)][..0] == [];
    ComposeEmpty(h);
  }

  /**
   * Route-level middleware wraps the handler's own pipeline: `[...middleware, ...pipeline]`
   * registers `compose(...middleware)(compose(...pipeline middleware)(handler))`.
   */
  lemma FlowNesting<H>(middleware: seq<H -> H>, pipeline: seq<Fn<H>>)
    requires WellTypedPipeline(pipeline)
    ensures WellTypedPipeline(Mws(middleware) + pipeline)
    ensures PipelineHandler(Mws(middleware) + pipeline) == Compose(middleware, PipelineHandler(pipeline))
  {
    var flow := Mws(middleware) + pipeline;
    var n := |pipeline|;
    assert flow[..|flow| - 1] == Mws(middleware) + pipeline[..n - 1];
    assert flow[|flow| - 1] == pipeline[n - 1];
    assert Wraps(flow[..|flow| - 1]) == middleware + Wraps(pipeline[..n - 1]);
    ComposeAppend(middleware, Wraps(pipeline[..n - 1]), pipeline[n - 1].handler);
  }

  /** `add` (routing.ts:99-114): pop the handler, compose the rest over it, register the result. */
  method Add<H>(router: Router<H>, m: string, path: string, fns: seq<Fn<H>>) returns (error: Option<string>)
    requires WellTypedPipeline(fns)
    modifies router.root
    ensures (router.root.State(), error) == AddTo(old(router.root.State()), m, path, PipelineHandler(fns))
  {
    var action := fns[|fns| - 1].handler;
    var rest := fns[..|fns| - 1];
    var pipeline := if |rest| == 0 then action else Compose(Wraps(rest), action);
    error := router.Add(m, path, pipeline);
  }

  /** The pipeline a mapping entry contributes: the route-level middleware, then the entry's own elements. */
  function Flow<H>(middleware: seq<H -> H>, action: Action<H>): seq<Fn<H>>
  {
    Mws(middleware) + (if IsPipelineAction(action) then action.pipeline else [Hd(action.handler)])
  }

  /** The registrations of a mapping's entries, in order, keeping only keys of `HTTPMethod`. */
  function MappingRegistrations<H>(path: string, entries: seq<(string, Action<H>)>, middleware: seq<H -> H>): seq<Registration<H>>
  {
    if |entries| == 0 then []
    else
      var (m, action) := entries[|entries| - 1];
      MappingRegistrations(path, entries[..|entries| - 1], middleware)
        + (if m in HTTPMethodKeys then [Registration(m, path, Flow(middleware, action))] else [])
  }

  /** The registrations of one route-table entry (routing.ts:117-140). */
  function RouteRegistrations<H>(route: Route<H>): seq<Registration<H>>
  {
    var unit := route.unit;
    if IsHandlerMapping(unit) then MappingRegistrations(route.path, unit.mapping.entries, unit.mapping.middleware)
    else if IsPipeline(unit) then [Registration(AnyMethod, route.path, unit.pipeline)]
    else if IsHandler(unit) then [Registration(AnyMethod, route.path, [Hd(unit.handler)])]
    else []
  }

  /** All registrations of a route table, in table order. */
  function Registrations<H>(routes: seq<Route<H>>): seq<Registration<H>>
  {
    if |routes| == 0 then [] else Registrations(routes[..|routes| - 1]) + RouteRegistrations(routes[|routes| - 1])
  }

  ghost predicate WellTypedRegistrations<H>(regs: seq<Registration<H>>)
  {
    forall i :: 0 <= i < |regs| ==> WellTypedPipeline(regs[i].fns)
  }

  /** One call of `add` after the earlier ones, skipped once one of them has thrown. */
  function Register<H>(r: (TrieState<H>, Option<string>), reg: Registration<H>): (TrieState<H>, Option<string>)
    requires WellTypedPipeline(reg.fns)
  {
    if r.1.Some? then r else AddTo(r.0, reg.m, reg.path, PipelineHandler(reg.fns))
  }

  /** Registering in order until the first throw. */
  function AddAll<H>(s: TrieState<H>, regs: seq<Registration<H>>): (TrieState<H>, Option<string>)
    requires WellTypedRegistrations(regs)
  {
    if |regs| == 0 then (s, None) else Register(AddAll(s, regs[..|regs| - 1]), regs[|regs| - 1])
  }

  /** Registering `a + b` is registering `a` and then, if nothing threw, `b`. */
  lemma {:induction false} AddAllAppend<H>(s: TrieState<H>, a: seq<Registration<H>>, b: seq<Registration<H>>)
    requires WellTypedRegistrations(a) && WellTypedRegistrations(b)
    ensures WellTypedRegistrations(a + b)
    ensures AddAll(s, a + b) == if AddAll(s, a).1.Some? then AddAll(s, a) else AddAll(AddAll(s, a).0, b)
  {
    if |b| == 0 {
      assert a + b == a;
    } else {
      var b' := b[..|b| - 1];
      AddAllAppend(s, a, b');
      assert (a + b)[..|a + b| - 1] == a + b';
      assert (a + b)[|a + b| - 1] == b[|b| - 1];
    }
  }

  /** Every registered pipeline ends in a handler after middleware, given a well-typed table. */
  lemma {:induction false} MappingWellTyped<H>(path: string, entries: seq<(string, Action<H>)>, middleware: seq<H -> H>)
    requires forall i :: 0 <= i < |entries| ==> WellTypedAction(entries[i].1)
    ensures WellTypedRegistrations(MappingRegistrations(path, entries, middleware))
  {
    if |entries| > 0 {
      var (m, action) := entries[|entries| - 1];
      MappingWellTyped(path, entries[..|entries| - 1], middleware);
      if IsPipelineAction(action) {
        FlowNesting(middleware, action.pipeline);
      } else {
        FlowNesting(middleware, [Hd(action.handler)]);
      }
    }
  }

  lemma RouteWellTyped<H>(route: Route<H>)
    requires WellTypedUnit(route.unit)
    ensures WellTypedRegistrations(RouteRegistrations(route))
  {
    if route.unit.MappingUnit? {
      MappingWellTyped(route.path, route.unit.mapping.entries, route.unit.mapping.middleware);
    }
  }

  lemma {:induction false} TableWellTyped<H>(routes: seq<Route<H>>)
    requires forall i :: 0 <= i < |routes| ==> WellTypedUnit(routes[i].unit)
    ensures WellTypedRegistrations(Registrations(routes))
  {
    if |routes| > 0 {
      TableWellTyped(routes[..|routes| - 1]);
      RouteWellTyped(routes[|routes| - 1]);
    }
  }

  /** Only keys of `HTTPMethod` and `ANY` are ever registered; in particular `PATCH` never is. */
  lemma {:induction false} RegisteredMethods<H>(routes: seq<Route<H>>)
    ensures forall i :: 0 <= i < |Registrations(routes)| ==>
      Registrations(routes)[i].m in HTTPMethodKeys || Registrations(routes)[i].m == AnyMethod
    ensures forall i :: 0 <= i < |Registrations(routes)| ==> Registrations(routes)[i].m != "PATCH"
  {
    if |routes| > 0 {
      RegisteredMethods(routes[..|routes| - 1]);
      var route := routes[|routes| - 1];
      if route.unit.MappingUnit? {
        MappingMethods(route.path, route.unit.mapping.entries, route.unit.mapping.middleware);
      }
    }
  }

  lemma {:induction false} MappingMethods<H>(path: string, entries: seq<(string, Action<H>)>, middleware: seq<H -> H>)
    ensures forall i :: 0 <= i < |MappingRegistrations(path, entries, middleware)| ==>
      MappingRegistrations(path, entries, middleware)[i].m in HTTPMethodKeys
  {
    if |entries| > 0 {
      MappingMethods(path, entries[..|entries| - 1], middleware);
    }
  }

  /** The inner loop of `Routing` over one mapping's entries (routing.ts:118-127). */
  method AddMapping<H>(router: Router<H>, path: string, mapping: HandlerMapping<H>) returns (error: Option<string>)
    requires forall i :: 0 <= i < |mapping.entries| ==> WellTypedAction(mapping.entries[i].1)
    modifies router.root
    ensures WellTypedRegistrations(MappingRegistrations(path, mapping.entries, mapping.middleware))
    ensures (router.root.State(), error) == AddAll(old(router.root.State()), MappingRegistrations(path, mapping.entries, mapping.middleware))
  {
    ghost var s0 := router.root.State();
    var middleware := mapping.middleware;
    var entries := mapping.entries;
    MappingWellTyped(path, entries, middleware);
    error := None;
    var j := 0;
    while j < |entries|
      invariant 0 <= j <= |entries|
      invariant WellTypedRegistrations(MappingRegistrations(path, entries[..j], middleware))
      invariant (router.root.State(), error) == AddAll(s0, MappingRegistrations(path, entries[..j], middleware))
      invariant error.None?
    {
      error := AddEntryAt(router, s0, path, entries, middleware, j);
      if error.Some? {
        MappingStops(s0, path, entries, middleware, j + 1);
        return;
      }
      j := j + 1;
    }
    assert entries[..j] == entries;
  }

  /** Entry `j` of the inner loop, once the entries before it were added without a throw. */
  method AddEntryAt<H>(router: Router<H>, ghost s0: TrieState<H>, path: string, entries: seq<(string, Action<H>)>,
                       middleware: seq<H -> H>, j: nat) returns (error: Option<string>)
    requires j < |entries| && forall i :: 0 <= i < |entries| ==> WellTypedAction(entries[i].1)
    requires WellTypedRegistrations(MappingRegistrations(path, entries[..j], middleware))
    requires (router.root.State(), None) == AddAll(s0, MappingRegistrations(path, entries[..j], middleware))
    modifies router.root
    ensures WellTypedRegistrations(MappingRegistrations(path, entries[..j + 1], middleware))
    ensures (router.root.State(), error) == AddAll(s0, MappingRegistrations(path, entries[..j + 1], middleware))
  {
    MappingStep(s0, path, entries, middleware, j);
    var (m, action) := entries[j];
    error := AddEntry(router, path, middleware, m, action);
  }

  /** The body of the inner loop for one entry: only keys of `HTTPMethod` are added. */
  method AddEntry<H>(router: Router<H>, path: string, middleware: seq<H -> H>, m: string, action: Action<H>) returns (error: Option<string>)
    requires WellTypedAction(action)
    modifies router.root
    ensures WellTypedPipeline(Flow(middleware, action))
    ensures (router.root.State(), error)
         == if m in HTTPMethodKeys then Register((old(router.root.State()), None), Registration(m, path, Flow(middleware, action)))
            else (old(router.root.State()), None)
  {
    var handlerContainer := if IsPipelineAction(action) then action.pipeline else [Hd(action.handler)];
    FlowNesting(middleware, handlerContainer);
    error := None;
    if m in HTTPMethodKeys {
      var flow := Mws(middleware) + handlerContainer;
      error := Add(router, m, path, flow);
    }
  }

  /** One entry of the inner loop: an `HTTPMethod` key adds its flow unless an earlier entry threw. */
  lemma MappingStep<H>(s: TrieState<H>, path: string, entries: seq<(string, Action<H>)>, middleware: seq<H -> H>, j: nat)
    requires j < |entries| && forall i :: 0 <= i < |entries| ==> WellTypedAction(entries[i].1)
    ensures WellTypedRegistrations(MappingRegistrations(path, entries[..j], middleware))
    ensures WellTypedRegistrations(MappingRegistrations(path, entries[..j + 1], middleware))
    ensures WellTypedPipeline(Flow(middleware, entries[j].1))
    ensures var r := AddAll(s, MappingRegistrations(path, entries[..j], middleware));
      AddAll(s, MappingRegistrations(path, entries[..j + 1], middleware))
        == if entries[j].0 in HTTPMethodKeys then Register(r, Registration(entries[j].0, path, Flow(middleware, entries[j].1))) else r
  {
    MappingWellTyped(path, entries[..j], middleware);
    MappingWellTyped(path, entries[..j + 1], middleware);
    var (m, action) := entries[j];
    if IsPipelineAction(action) {
      FlowNesting(middleware, action.pipeline);
    } else {
      FlowNesting(middleware, [Hd(action.handler)]);
    }
    var before := MappingRegistrations(path, entries[..j], middleware);
    assert entries[..j + 1][..j] == entries[..j];
    assert entries[..j + 1][j] == entries[j];
    if m in HTTPMethodKeys {
      var regs := before + [Registration(m, path, Flow(middleware, action))];
      assert MappingRegistrations(path, entries[..j + 1], middleware) == regs;
      assert regs[..|regs| - 1] == before;
    } else {
      assert MappingRegistrations(path, entries[..j + 1], middleware) == before;
    }
  }

  /** A throw among the first `j` entries is the result of the whole mapping. */
  lemma {:induction false} MappingStops<H>(s: TrieState<H>, path: string, entries: seq<(string, Action<H>)>, middleware: seq<H -> H>, j: nat)
    requires j <= |entries| && forall i :: 0 <= i < |entries| ==> WellTypedAction(entries[i].1)
    requires WellTypedRegistrations(MappingRegistrations(path, entries[..j], middleware))
    requires AddAll(s, MappingRegistrations(path, entries[..j], middleware)).1.Some?
    ensures WellTypedRegistrations(MappingRegistrations(path, entries, middleware))
    ensures AddAll(s, MappingRegistrations(path, entries, middleware)) == AddAll(s, MappingRegistrations(path, entries[..j], middleware))
    decreases |entries| - j
  {
    if j == |entries| {
      assert entries[..j] == entries;
    } else {
      MappingStep(s, path, entries, middleware, j);
      MappingStops(s, path, entries, middleware, j + 1);
    }
  }

  /**
   * `Routing(routes)` (routing.ts:95-141): a fresh router filled from the table in order,
   * stopping at the first insertion that throws.
   */
  method Routing<H>(routes: seq<Route<H>>) returns (router: Router<H>, error: Option<string>)
    requires forall i :: 0 <= i < |routes| ==> WellTypedUnit(routes[i].unit)
    ensures fresh(router) && fresh(router.root)
    ensures WellTypedRegistrations(Registrations(routes))
    ensures (router.root.State(), error) == AddAll(EmptyTrie(), Registrations(routes))
  {
    router := new Router();
    TableWellTyped(routes);
    error := None;
    var i := 0;
    while i < |routes|
      invariant 0 <= i <= |routes|
      invariant fresh(router.root)
      invariant WellTypedRegistrations(Registrations(routes[..i]))
      invariant (router.root.State(), error) == AddAll(EmptyTrie(), Registrations(routes[..i]))
      invariant error.None?
    {
      TableStep(routes, i);
      error := AddRoute(router, routes[i]);
      if error.Some? {
        TableStops(routes, i + 1);
        return;
      }
      i := i + 1;
    }
    assert routes[..i] == routes;
  }

  /** One route of the table (routing.ts:117-140): a mapping, a pipeline or a handler. */
  method AddRoute<H>(router: Router<H>, route: Route<H>) returns (error: Option<string>)
    requires WellTypedUnit(route.unit)
    modifies router.root
    ensures WellTypedRegistrations(RouteRegistrations(route))
    ensures (router.root.State(), error) == AddAll(old(router.root.State()), RouteRegistrations(route))
  {
    RouteWellTyped(route);
    ghost var before := router.root.State();
    var path, unit := route.path, route.unit;
    error := None;
    if IsHandlerMapping(unit) {
      error := AddMapping(router, path, unit.mapping);
    } else if IsPipeline(unit) {
      error := Add(router, AnyMethod, path, unit.pipeline);
      AddOne(before, Registration(AnyMethod, path, unit.pipeline));
    } else if IsHandler(unit) {
      error := Add(router, AnyMethod, path, [Hd(unit.handler)]);
      AddOne(before, Registration(AnyMethod, path, [Hd(unit.handler)]));
    }
  }

  /** A single registration is one call of `add`. */
  lemma AddOne<H>(s: TrieState<H>, reg: Registration<H>)
    requires WellTypedPipeline(reg.fns)
    ensures WellTypedRegistrations([reg])
    ensures AddAll(s, [reg]) == AddTo(s, reg.m, reg.path, PipelineHandler(reg.fns))
  {
    assert [reg][..0] == [];
  }

  /** One route of the outer loop: its registrations follow the earlier ones unless one threw. */
  lemma TableStep<H>(routes: seq<Route<H>>, i: nat)
    requires i < |routes| && forall k :: 0 <= k < |routes| ==> WellTypedUnit(routes[k].unit)
    ensures WellTypedUnit(routes[i].unit)
    ensures WellTypedRegistrations(Registrations(routes[..i]))
    ensures WellTypedRegistrations(Registrations(routes[..i + 1]))
    ensures WellTypedRegistrations(RouteRegistrations(routes[i]))
    ensures var r := AddAll(EmptyTrie(), Registrations(routes[..i]));
      AddAll(EmptyTrie(), Registrations(routes[..i + 1])) == if r.1.Some? then r else AddAll(r.0, RouteRegistrations(routes[i]))
  {
    TableWellTyped(routes[..i]);
    TableWellTyped(routes[..i + 1]);
    RouteWellTyped(routes[i]);
    assert routes[..i + 1][..i] == routes[..i];
    assert Registrations(routes[..i + 1]) == Registrations(routes[..i]) + RouteRegistrations(routes[i]);
    AddAllAppend(EmptyTrie(), Registrations(routes[..i]), RouteRegistrations(routes[i]));
  }

  /** A throw in the first `i` routes is the result of the whole table. */
  lemma {:induction false} TableStops<H>(routes: seq<Route<H>>, i: nat)
    requires i <= |routes| && forall k :: 0 <= k < |routes| ==> WellTypedUnit(routes[k].unit)
    requires WellTypedRegistrations(Registrations(routes[..i]))
    requires AddAll(EmptyTrie(), Registrations(routes[..i])).1.Some?
    ensures WellTypedRegistrations(Registrations(routes))
    ensures AddAll(EmptyTrie(), Registrations(routes)) == AddAll(EmptyTrie(), Registrations(routes[..i]))
    decreases |routes| - i
  {
    if i == |routes| {
      assert routes[..i] == routes;
    } else {
      TableStep(routes, i);
      TableStops(routes, i + 1);
    }
  }

  /**
   * The request handler `Routing` returns (routing.ts:143-153): fresh empty `params` and
   * `files`, then `RouteFinder` with the NotFound handler as `next`, since no other
   * middleware is ever added. `Next` stands for the NotFound response.
   */
  method Handle<H, F>(router: Router<H>, request: Request<F>, toNumber: string -> Option<real>) returns (outcome: Outcome<H>)
    modifies request
    ensures var d := Routed(router.root.tree, request.requestMethod, request.pathname, request.query, request.body,
                            map[], map[], toNumber);
      outcome == d.outcome && request.params == d.params && request.files == d.files
  {
    request.params := map[];
    request.files := map[];
    outcome := RouteFinder(router, request, toNumber);
  }
}
