/**
 * Shared types of the dispatcher (mod.ts): optional values, the key set of the
 * `HTTPMethod` object, parameter values, pipelines and route tables.
 */
module Types {

  datatype Option<+T> = None | Some(value: T)

  /** The keys of the `HTTPMethod` object (mod.ts:53-61). The key for PATCH is spelt `PATH`. */
  const HTTPMethodKeys: set<string> := {"GET", "POST", "PUT", "PATH", "HEAD", "OPTIONS", "DELETE"}

  /** The pseudo-method under which bare handlers and bare pipelines are registered. */
  const AnyMethod: string := "ANY"

  /**
   * A parameter value (mod.ts:10-12): a string, a number, a boolean or a nested record.
   * A number stands for the JavaScript number of the same value.
   * There is no `null` and no array: JSON members holding those are outside the model.
   */
  datatype Value = Str(s: string) | Num(n: real) | Bool(b: bool) | Nested(fields: map<string, Value>)

  type Params = map<string, Value>

  /** Documentation metadata of a route (mod.ts:26-31); only the two text fields are kept. */
  datatype Meta = Meta(summary: Option<string>, description: Option<string>)

  const EmptyMeta: Meta := Meta(None, None)

  /**
   * One element of a pipeline array: a middleware (a handler decorator) or a handler.
   * Handlers are opaque values of type `H`.
   */
  datatype Fn<!H> = Mw(wrap: H -> H) | Hd(handler: H)

  /**
   * The static type `[...Middleware[], Handler]` of a pipeline (mod.ts:23): at least one
   * element, the last a handler and every other one a middleware.
   */
  ghost predicate WellTypedPipeline<H>(p: seq<Fn<H>>)
  {
    |p| >= 1 && p[|p| - 1].Hd? && forall i :: 0 <= i < |p| - 1 ==> p[i].Mw?
  }

  /** The value stored under a method key of a handler mapping: a handler or a pipeline. */
  datatype Action<!H> = HandlerAction(handler: H) | PipelineAction(pipeline: seq<Fn<H>>)

  /**
   * A handler mapping (mod.ts:40-48): its method-keyed entries in iteration order, plus
   * the route-level `middleware` (empty when absent) and `meta` keys.
   */
  datatype HandlerMapping<!H> = HandlerMapping(entries: seq<(string, Action<H>)>, middleware: seq<H -> H>, meta: Meta)

  /**
   * The second component of a route-table entry (mod.ts:50). `OtherUnit` is a value that
   * none of the three classifiers accepts, such as a class instance.
   */
  datatype Unit<!H> =
    | MappingUnit(mapping: HandlerMapping<H>)
    | PipelineUnit(pipeline: seq<Fn<H>>)
    | HandlerUnit(handler: H)
    | OtherUnit

  /** A route-table entry `[path, unit]`. */
  datatype Route<!H> = Route(path: string, unit: Unit<H>)

  ghost predicate WellTypedAction<H>(a: Action<H>)
  {
    a.PipelineAction? ==> WellTypedPipeline(a.pipeline)
  }

  /** What the route table's static types guarantee about every pipeline in it. */
  ghost predicate WellTypedUnit<H>(u: Unit<H>)
  {
    match u
    case MappingUnit(m) => forall i :: 0 <= i < |m.entries| ==> WellTypedAction(m.entries[i].1)
    case PipelineUnit(p) => WellTypedPipeline(p)
    case HandlerUnit(_) => true
    case OtherUnit => true
  }
}
