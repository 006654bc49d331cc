/**
 * Route declaration helpers (route.ts): `createRoute` and the per-method helpers that
 * build a route-table entry `[path, {[method]: handler, middleware, meta}]`.
 */
module RouteHelpers {
  import opened Types
  import opened Util
  import opened Dispatch

  /** A pipeline array the caller passes in; `createRoute` pops its handler off in place. */
  class PipelineArray<H> {
    var items: seq<Fn<H>>

    constructor (items: seq<Fn<H>>)
      ensures this.items == items
    {
      this.items := items;
    }
  }

  /** The `action` argument: a bare handler, or a pipeline array held by the caller. */
  datatype RouteAction<!H> = HandlerArg(handler: H) | PipelineArg(pipeline: PipelineArray<H>)

  /** The value of an argument as it stands now. */
  function ActionValue<H>(action: RouteAction<H>): Action<H>
    reads if action.PipelineArg? then {action.pipeline} else {}
  {
    match action
    case HandlerArg(h) => HandlerAction(h)
    case PipelineArg(p) => PipelineAction(p.items)
  }

  /**
   * The route `createRoute(name, path, action, meta)` returns (route.ts:5-24): a mapping
   * with the one key `name`, holding the handler, whose route-level middleware is the
   * pipeline's middleware (none for a bare handler) and whose meta is `meta`.
   */
  function Declared<H>(name: string, path: string, action: Action<H>, meta: Meta): (route: Route<H>)
    requires WellTypedAction(action)
    ensures route.path == path && route.unit.MappingUnit? && route.unit.mapping.meta == meta
    ensures |route.unit.mapping.entries| == 1 && route.unit.mapping.entries[0].0 == name
    ensures route.unit.mapping.entries[0].1.HandlerAction?
    ensures !IsPipelineAction(action) ==> route.unit.mapping.middleware == []
    ensures WellTypedUnit(route.unit)
  {
    if IsPipelineAction(action) then
      var n := |action.pipeline|;
      var h := action.pipeline[n - 1].handler;
      Route(path, MappingUnit(HandlerMapping([(name, HandlerAction(h))], Wraps(action.pipeline[..n - 1]), meta)))
    else
      Route(path, MappingUnit(HandlerMapping([(name, action)], [], meta)))
  }

  /** The handler a directly registered action ends up as. */
  function ActionHandler<H>(action: Action<H>): H
    requires WellTypedAction(action)
  {
    if IsPipelineAction(action) then PipelineHandler(action.pipeline) else action.handler
  }

  /** Middleware turned into pipeline elements and back are unchanged. */
  lemma WrapsMws<H>(ws: seq<H -> H>)
    ensures Wraps(Mws(ws)) == ws
  {
  }

  /**
   * Declaring a route under a key of `HTTPMethod` and passing it to `Routing` makes one
   * registration, under that key and path, whose handler is the one the action itself
   * would be registered as: moving the pipeline's middleware to route level keeps its order.
   */
  lemma DeclaredRegisters<H>(name: string, path: string, action: Action<H>, meta: Meta)
    requires WellTypedAction(action) && name in HTTPMethodKeys
    ensures var regs := Registrations([Declared(name, path, action, meta)]);
      && |regs| == 1 && regs[0].m == name && regs[0].path == path
      && WellTypedPipeline(regs[0].fns)
      && PipelineHandler(regs[0].fns) == ActionHandler(action)
  {
    var mapping := Declared(name, path, action, meta).unit.mapping;
    DeclaredRegistration(name, path, action, meta);
    var h := mapping.entries[0].1.handler;
    assert Flow(mapping.middleware, mapping.entries[0].1) == Mws(mapping.middleware) + [Hd(h)];
    FlowNesting(mapping.middleware, [Hd(h)]);
    BareHandler(h);
    if IsPipelineAction(action) {
      var p := action.pipeline;
      var n := |p|;
      WrapsMws(Wraps(p[..n - 1]));
      assert Mws(Wraps(p[..n - 1])) == p[..n - 1];
    } else {
      ComposeEmpty(h);
    }
  }

  /** The one registration a declared route makes, under an `HTTPMethod` key. */
  lemma DeclaredRegistration<H>(name: string, path: string, action: Action<H>, meta: Meta)
    requires WellTypedAction(action) && name in HTTPMethodKeys
    ensures var mapping := Declared(name, path, action, meta).unit.mapping;
      Registrations([Declared(name, path, action, meta)]) == [Registration(name, path, Flow(mapping.middleware, mapping.entries[0].1))]
  {
    var route := Declared(name, path, action, meta);
    var mapping := route.unit.mapping;
    assert [route][..0] == [];
    assert mapping.entries[..0] == [];
    assert MappingRegistrations(path, mapping.entries, mapping.middleware)
        == [Registration(name, path, Flow(mapping.middleware, mapping.entries[0].1))];
  }

  /**
   * Routes declared under a key `Routing` does not accept—`PATCH`, whose `HTTPMethod`
   * key is spelt `PATH`, and `ANY`—are never registered.
   */
  lemma UndeclarableMethods<H>(name: string, path: string, action: Action<H>, meta: Meta)
    requires WellTypedAction(action) && name !in HTTPMethodKeys
    ensures Registrations([Declared(name, path, action, meta)]) == []
  {
    var route := Declared(name, path, action, meta);
    var mapping := route.unit.mapping;
    assert [route][..0] == [];
    assert mapping.entries[..0] == [];
    assert MappingRegistrations(path, mapping.entries, mapping.middleware) == [];
    assert RouteRegistrations(route) == [];
  }

  lemma PatchAndAnyDropped<H>(path: string, action: Action<H>, meta: Meta)
    requires WellTypedAction(action)
    ensures Registrations([Declared("PATCH", path, action, meta)]) == []
    ensures Registrations([Declared(AnyMethod, path, action, meta)]) == []
  {
    UndeclarableMethods("PATCH", path, action, meta);
    UndeclarableMethods(AnyMethod, path, action, meta);
  }

  /** `createRoute`: a pipeline argument loses its last element, which becomes the handler. */
  method CreateRoute<H>(name: string, path: string, action: RouteAction<H>, meta: Meta) returns (route: Route<H>)
    requires WellTypedAction(ActionValue(action))
    modifies if action.PipelineArg? then {action.pipeline} else {}
    ensures route == Declared(name, path, old(ActionValue(action)), meta)
    ensures action.PipelineArg? ==> action.pipeline.items == old(action.pipeline.items[..|action.pipeline.items| - 1])
  {
    if action.PipelineArg? {
      var p := action.pipeline;
      var h := p.items[|p.items| - 1].handler;
      p.items := p.items[..|p.items| - 1];
      route := Route(path, MappingUnit(HandlerMapping([(name, HandlerAction(h))], Wraps(p.items), meta)));
    } else {
      route := Route(path, MappingUnit(HandlerMapping([(name, HandlerAction(action.handler))], [], meta)));
    }
  }

  /** `GET(path, action, meta = {})` (route.ts:28-30). */
  method Get<H>(path: string, action: RouteAction<H>, meta: Meta := EmptyMeta) returns (route: Route<H>)
    requires WellTypedAction(ActionValue(action))
    modifies if action.PipelineArg? then {action.pipeline} else {}
    ensures route == Declared("GET", path, old(ActionValue(action)), meta)
    ensures action.PipelineArg? ==> action.pipeline.items == old(action.pipeline.items[..|action.pipeline.items| - 1])
  {
    route := CreateRoute("GET", path, action, meta);
  }

  /** `POST(path, action, meta = {})` (route.ts:32-34). */
  method Post<H>(path: string, action: RouteAction<H>, meta: Meta := EmptyMeta) returns (route: Route<H>)
    requires WellTypedAction(ActionValue(action))
    modifies if action.PipelineArg? then {action.pipeline} else {}
    ensures route == Declared("POST", path, old(ActionValue(action)), meta)
    ensures action.PipelineArg? ==> action.pipeline.items == old(action.pipeline.items[..|action.pipeline.items| - 1])
  {
    route := CreateRoute("POST", path, action, meta);
  }

  /** `PATCH(path, action, meta = {})` (route.ts:36-38). */
  method Patch<H>(path: string, action: RouteAction<H>, meta: Meta := EmptyMeta) returns (route: Route<H>)
    requires WellTypedAction(ActionValue(action))
    modifies if action.PipelineArg? then {action.pipeline} else {}
    ensures route == Declared("PATCH", path, old(ActionValue(action)), meta)
    ensures action.PipelineArg? ==> action.pipeline.items == old(action.pipeline.items[..|action.pipeline.items| - 1])
  {
    route := CreateRoute("PATCH", path, action, meta);
  }

  /** `PUT(path, action, meta = {})` (route.ts:40-42). */
  method Put<H>(path: string, action: RouteAction<H>, meta: Meta := EmptyMeta) returns (route: Route<H>)
    requires WellTypedAction(ActionValue(action))
    modifies if action.PipelineArg? then {action.pipeline} else {}
    ensures route == Declared("PUT", path, old(ActionValue(action)), meta)
    ensures action.PipelineArg? ==> action.pipeline.items == old(action.pipeline.items[..|action.pipeline.items| - 1])
  {
    route := CreateRoute("PUT", path, action, meta);
  }

  /** `DELETE(path, action, meta = {})` (route.ts:44-46). */
  method Delete<H>(path: string, action: RouteAction<H>, meta: Meta := EmptyMeta) returns (route: Route<H>)
    requires WellTypedAction(ActionValue(action))
    modifies if action.PipelineArg? then {action.pipeline} else {}
    ensures route == Declared("DELETE", path, old(ActionValue(action)), meta)
    ensures action.PipelineArg? ==> action.pipeline.items == old(action.pipeline.items[..|action.pipeline.items| - 1])
  {
    route := CreateRoute("DELETE", path, action, meta);
  }

  /** `OPTIONS(path, action, meta = {})` (route.ts:48-50). */
  method Options<H>(path: string, action: RouteAction<H>, meta: Meta := EmptyMeta) returns (route: Route<H>)
    requires WellTypedAction(ActionValue(action))
    modifies if action.PipelineArg? then {action.pipeline} else {}
    ensures route == Declared("OPTIONS", path, old(ActionValue(action)), meta)
    ensures action.PipelineArg? ==> action.pipeline.items == old(action.pipeline.items[..|action.pipeline.items| - 1])
  {
    route := CreateRoute("OPTIONS", path, action, meta);
  }

  /** `ANY(path, action, meta = {})` (route.ts:52-54). */
  method Any<H>(path: string, action: RouteAction<H>, meta: Meta := EmptyMeta) returns (route: Route<H>)
    requires WellTypedAction(ActionValue(action))
    modifies if action.PipelineArg? then {action.pipeline} else {}
    ensures route == Declared(AnyMethod, path, old(ActionValue(action)), meta)
    ensures action.PipelineArg? ==> action.pipeline.items == old(action.pipeline.items[..|action.pipeline.items| - 1])
  {
    route := CreateRoute(AnyMethod, path, action, meta);
  }
}
