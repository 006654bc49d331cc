# websi routing core in Dafny

This project models the request-routing core of websi, a TypeScript web framework. It covers:

- **The trie router** (`router.ts`). `Node.insert` registers a handler under a method and a path pattern, which may contain literal segments, `:name` placeholders and the `*` wildcard. `Node.search` resolves a method and a path to a handler plus its captured parameters. `Router` wraps both and expands a trailing optional parameter `/:x?` into two registrations.
- **The path and composition helpers** (`util.ts`): `segmentize`, right-to-left `compose`, and the classifiers of route-table values.
- **The dispatcher** (`routing.ts`):
  - `Routing` turns a route table into router registrations in table order.
  - `RouteFinder` looks a request up under its own method and then under `ANY`, and merges query, path and body parameters.
  - `parseBody` reads the body by media type.
  - `inferRequestValueType` converts request strings to values.
- **The route helpers** (`route.ts`): `createRoute` and `GET` … `ANY`.

## How the model is built

- **Trie nodes** are an inductive datatype `Node<T>`. In the source every node is an object owned by exactly one parent.
- **The root's mutable fields** are fields of the class `TrieRouter.Root`. These are `rank`, `name`, `shouldCapture` and the subtree. `TrieRouter.Router` holds a `Root`.
- **`Root.Insert` and `Root.Search`** keep the source's loops. Insertion descends, records the ancestors, then rebuilds upward. They are proved equal to the recursive specifications `InsertWalk`/`InsertInto` and the folds `Levels`/`FoldNodes`/`FoldNames`. The properties are proved about those specifications.
- **A TypeError from reading a missing child** becomes the search result `Fault`, and a thrown duplicate-label error becomes the returned label. The segment `:*` is the only way to reach a missing child.
- **Request handling in the dispatcher** is the `Request` class, whose `params` and `files` fields `RouteFinder` and `Handle` update.
  - The route table, registrations and bodies are values.
  - The registration loop of `Routing` is a method proved against the fold `AddAll` over `Registrations(routes)`.
- **`createRoute`** pops the handler off the caller's pipeline array in place. That array is the class `PipelineArray`.

**Behaviour of the code that a reader might not expect:**

- **Body decoding failures propagate.** `formData()` and `json()` are awaited without a guard, so a body whose decoder rejects is not caught: `Routed` gives `Thrown`.
- **Route-level middleware is outermost.** The pipeline is built as `[...middleware, ...pipeline]`, so route-level middleware runs ahead of a pipeline's own middleware (`FlowNesting`).
- **A wildcard matches at any depth.** The wildcard's route is pushed at every level the search reaches, so it matches one segment or many (`WildDeep`, `WildcardInLevels`).
- **Numbers include infinities.** `!isNaN(Number(v))` also accepts `Infinity`, which the model does not represent; see "Left out".

**Observed behaviour the lemmas document:**

- **`PATCH` and `ANY` routes are dropped.** The `HTTPMethod` object spells its PATCH key `PATH`. So mapping entries under `PATCH`, and the routes built by the `PATCH` and `ANY` helpers, are never registered (`RegisteredMethods`, `PatchAndAnyDropped`).
- **Registration order, not specificity, picks the handler.** The earliest registration whose pattern matches wins (`OrderKrysia`).
- **Losing branches still capture.** Parameters captured while visiting a branch that does not win stay in the result (`CrossSearch`).
- **Duplicate labels are detected across branches.** A label used on one branch makes the same label on a sibling branch throw, because the root's placeholders are pushed while descending (`DuplicateAcrossBranches`).

## Model

| member | source | states |
|---|---|---|
| Util.Split | util.ts:36 | `split` on one character: never empty, no part holds the separator, the first part is empty exactly when the string is empty or starts with it |
| Util.JoinSplit | util.ts:36 | joining the parts of a split restores the string |
| Util.SplitAround | util.ts:36 | splitting `a + sep + b` splits `a` and `b` independently |
| Util.SplitJoin | util.ts:36 | splitting a join of separator-free parts returns the parts |
| Util.Segmentize | util.ts:35-38 | `segmentize`: no segment holds `/`, and exactly one leading empty part is dropped when the path is empty or starts with `/` |
| Util.SegmentizeRoundTrip | util.ts:35-38 | `"/" + join(segmentize(p))` restores a rooted path; otherwise the join restores it as is |
| Util.SegmentizeJoin | util.ts:35-38 | a rooted path built from separator-free segments segmentizes back to them |
| Util.SegmentizeAppend | util.ts:35-38 | appending `/segment` appends one segment |
| Util.ComposeEmpty | util.ts:32-33 | `compose()` is the identity |
| Util.ComposeAppend | util.ts:32-33 | composing a concatenation nests the two compositions (`reduceRight`) |
| Util.ComposeHead | util.ts:32-33 | the first function is applied last, outermost |
| Util.ClassifiersExclusive | util.ts:14-30 | no value is accepted by two of `isHandlerMapping`, `isPipeline` and `isHandler`, and `OtherUnit` is exactly what none accepts. This holds by construction: the model's `Unit` is a tagged union with one tag per classifier |
| TrieRouter.ExtractPlaceholder | router.ts:29-36 | `*` gives `*`; a `:name` without braces gives `name`; a segment not starting with `:` and not `*` gives none |
| TrieRouter.ExtractNamed | router.ts:32-33 | every non-empty brace-free `name` is extracted from `:name` |
| TrieRouter.UnpackOptionalDynamicParam | router.ts:20-27 | a match means the path is `optional + "?"`, `optional` is `base + "/:" + x` with `x` free of `/`, and `base` is non-empty and free of line terminators |
| TrieRouter.UnpackComplete | router.ts:20-27 | every path of that shape is matched, with exactly that base and optional path |
| TrieRouter.CreateChild | router.ts:70-91 | a new empty child is added under the segment; its placeholder, if any, is recorded unless a duplicate is reported; a reported duplicate is the segment's named label and comes with the flag set; the flag is never cleared |
| TrieRouter.InsertInto | router.ts:52-99 | each insertion bumps the rank by one and sets the label to `"<method> <path>"` |
| TrieRouter.AddChild | router.ts:70-91 | the imperative child creation computes `CreateChild` |
| TrieRouter.Occurs | router.ts:79-83 | the parent-placeholder scan finds a label exactly when it is present |
| TrieRouter.Earliest | router.ts:166-170 | the chosen candidate has the lowest rank, and it is the first one with that rank |
| TrieRouter.SearchIn | router.ts:101-176 | `Fault` exactly when the loop reads a missing child; `NoMatch` exactly when there are no candidates; otherwise a lowest-rank candidate's handler with the captured params |
| TrieRouter.Descend | router.ts:63-94 | the descending loop ends in the state `InsertWalk` describes: same error, same flag, and the rebuilt tree equals its node |
| TrieRouter.Climb | router.ts:63-94 | the upward loop rebuilds the tree from the recorded ancestors |
| TrieRouter.VisitNode | router.ts:115-161 | one node's step of the search loop equals `NodeStep` |
| TrieRouter.Root.constructor | router.ts:42-50 | a new root is the empty trie with rank 0 |
| TrieRouter.Root.Insert | router.ts:52-99 | the root's new state and the reported label are those of `InsertInto` |
| TrieRouter.Root.Search | router.ts:101-176 | the result is `SearchIn` of the current tree |
| TrieRouter.Router.constructor | router.ts:183-185 | a new router owns a fresh root holding the empty trie |
| TrieRouter.Router.Add | router.ts:187-197 | the router's new state and error are those of `AddTo`: two insertions for a trailing `/:x?`, one otherwise |
| TrieRouter.Router.Find | router.ts:199-201 | the result is `SearchIn` of the root |
| TrieProps.WalkStores | router.ts:63-96 | a successful insertion stores its container at the node its segments lead to |
| TrieProps.WalkFrame | router.ts:63-96 | every other existing node keeps its routes, and none disappears, even when the insertion fails |
| TrieProps.WalkExisting | router.ts:64-67 | inserting an existing path only sets its route, with no error |
| TrieProps.InsertStores | router.ts:52-99 | after `insert`, the path's node holds `{handler, rank + 1, "<m> <path>"}` under the method |
| TrieProps.Reregister | router.ts:64-96 | re-registering an existing path never throws, keeps the flag and the set of paths, and replaces only that route |
| TrieProps.StepExisting | router.ts:64-67 | an existing child is entered and the node's placeholders are pushed |
| TrieProps.StepLiteral | router.ts:70-93 | a new literal child copies the root's flag |
| TrieProps.StepNamed | router.ts:72-93 | a new unique `:name` sets the root's flag, records the label and pushes the placeholders twice |
| TrieProps.StepWildcard | router.ts:72-93 | a new `*` records `*` without setting the flag |
| TrieProps.StepDuplicate | router.ts:70-86 | a duplicated label throws after adding the empty child and setting the flag |
| TrieProps.WalkRanks | router.ts:96 | stored ranks never exceed the rank of the insertion that stored them |
| TrieProps.EmptyTrieInvariants | router.ts:42-50 | a fresh node satisfies the rank invariant, has every placeholder's child and is static: no placeholders, no children |
| TrieProps.InsertRanks | router.ts:53-96 | `insert` keeps every stored rank at most the root's rank, which grows by one |
| TrieProps.AddRanks | router.ts:187-197 | `add` keeps the rank invariant and raises the rank by one or two |
| TrieProps.WalkFailure | router.ts:70-86 | a failed walk reports a named label, has the flag set and leaves a half-built path |
| TrieProps.InsertFailure | router.ts:52-99 | a failed `insert` still bumps the rank and sets the flag, and changes no existing node's routes |
| TrieProps.OptionalSegments | router.ts:20-27 | the optional path has the base's segments plus one `:x` segment |
| TrieProps.AddOptional | router.ts:187-197 | `/:x?` registers the base and then the optional path, one rank apart, each with its own label |
| TrieProps.AddPlain | router.ts:194-196 | a path without a trailing optional parameter is a single insertion |
| TrieProps.PlaceholderKeyOf | router.ts:134-150 | a placeholder's child key is its segment, except for `:*` |
| TrieProps.WalkResolves | router.ts:63-94 | inserting segments other than `:*` keeps every placeholder's child present |
| TrieProps.InsertResolves | router.ts:52-99 | `insert` of a path without a `:*` segment keeps every placeholder's child present |
| TrieProps.AddResolves | router.ts:187-197 | `add` of paths without `:*` keeps every placeholder's child present |
| TrieProps.LevelsSafe | router.ts:109-164 | over nodes whose placeholders all have their children, no level of the search loop reads a missing child |
| TrieProps.SearchSafe | router.ts:101-176 | in such a trie the search never reads a missing child |
| TrieProps.NamesKeepCandidates | router.ts:132-160 | a node's placeholders only append to the candidates and to the next frontier: the old lists are prefixes of the new |
| TrieProps.NodesKeepCandidates | router.ts:115-161 | the frontier's nodes only append to the candidates and to the next frontier |
| TrieProps.LevelsKeepCandidates | router.ts:109-164 | no later segment removes a candidate: the candidates so far are a prefix of the final ones |
| TrieProps.EmptySegmentNames | router.ts:132-160 | a named placeholder leaves the search state unchanged on an empty segment (router.ts:144), so no placeholder captures a param there, and a node without `*` among its placeholders leaves the state unchanged |
| TrieProps.WildcardInNames | router.ts:132-141 | a node's `*` placeholder collects its `*` child's route for the method whatever the segment, terminal or not |
| TrieProps.WildcardInNodes | router.ts:115-161 | any frontier node with a `*` placeholder contributes that route to the level's candidates |
| TrieProps.WildcardInLevels | router.ts:109-164 | such a route, collected at any level, is still a candidate when the search ends |
| TrieProps.WildcardAtRoot | router.ts:101-176 | a root wildcard with a route for the method makes every path with a segment match |
| TrieProps.NamesKeepKeys | router.ts:132-160 | a node's placeholders never drop a captured param and never change whether a literal child matched |
| TrieProps.NodesKeepKeys | router.ts:115-161 | the frontier's nodes never drop a captured param |
| TrieProps.LevelsKeepKeys | router.ts:109-164 | a param captured at one level is still a param at the end of the search |
| TrieProps.NamesKeepCapture | router.ts:153-158 | within one level every capture writes that level's segment, so a param holding it keeps it through a node's placeholders |
| TrieProps.NodesKeepCapture | router.ts:153-158 | and through the rest of the frontier |
| TrieProps.NamedInNames | router.ts:144-158 | a node's `:name` placeholder on a non-empty segment collects its child's route at the terminal level and sets `params[name]` to the segment unless a literal child already matched and does not capture |
| TrieProps.NamedAtNode | router.ts:115-161 | the same for one frontier node's whole step, literal child first |
| TrieProps.NamedInNodes | router.ts:115-161 | the same for the `p`-th frontier node: it captures before the terminal level, and at the terminal level when no node up to it has a literal child for the segment or its own literal child captures |
| TrieProps.NamedInLevels | router.ts:109-164 | the placeholder child's route is a final candidate at the terminal level; the capture stays a param to the end and holds the last segment when it was taken there |
| TrieProps.CaptureAtRoot | router.ts:101-176 | a root `:name` captures the first non-empty segment into the result's params (the exact segment for a one-segment path), and a one-segment path finds the placeholder child's route |
| TrieProps.DescendInNodes | router.ts:127-129 | before the terminal level, every frontier node's literal child for the segment joins the next frontier |
| TrieProps.LiteralInNodes | router.ts:118-126 | at the terminal level a frontier node's literal child contributes its own route and its `*` child's route for the method |
| TrieProps.LiteralInLevels | router.ts:109-164 | the routes at the node the remaining segments lead to from a frontier node, and those of its `*` child, are final candidates |
| TrieProps.PathFound | router.ts:101-176 | in a trie where every placeholder has its child, the exact path of a node collects that node's route and its `*` child's route, so `P/*` answers `P`, and either makes search find a handler |
| TrieProps.StaticLevels | router.ts:109-164 | in a trie without placeholders the frontier is the one node the segments lead to, no param is captured, and the only candidate is the method's route at the node the whole path leads to |
| TrieProps.StaticSearch | router.ts:101-176 | in such a trie search is `Found(handler, {})` with the handler stored under the method at the path's node exactly when that node and route exist and the path has a segment, and `NoMatch` otherwise |
| TrieProps.WalkStatic | router.ts:63-94 | inserting a path of literal segments into such a trie never throws and adds no placeholder |
| TrieProps.StaticFindAfterInsert | router.ts:52-176 | after inserting a literal path into such a trie, searching that path under the method finds the new handler with no params |
| RouterScenarios.StaticBuilt | router.test.ts:5-8 | `GET /foo` then `POST /foo` build one leaf holding both routes |
| RouterScenarios.StaticGet | router.test.ts:10-17 | `GET /foo` finds the GET handler with no params |
| RouterScenarios.StaticPost | router.test.ts:19-26 | `POST /foo` finds the POST handler |
| RouterScenarios.StaticNotFound | router.test.ts:28-32 | `GET /bar` finds nothing |
| RouterScenarios.OrderBuilt1 | router.test.ts:38 | the first registration builds two literal nodes |
| RouterScenarios.OrderBuilt2 | router.test.ts:39 | `/welcome/:name` adds a placeholder child to `welcome` and sets the root's flag |
| RouterScenarios.OrderBuilt3 | router.test.ts:40 | `/welcome/krysia` adds a literal leaf that copies the set flag |
| RouterScenarios.OrderZaiste | router.test.ts:42-48 | the earlier literal wins and nothing is captured |
| RouterScenarios.OrderAntek | router.test.ts:50-56 | an unknown name goes to the placeholder and is captured |
| RouterScenarios.OrderKrysia | router.test.ts:58-64 | the later literal loses to the earlier placeholder, and the name is captured |
| RouterScenarios.NestedBuilt1 | router.test.ts:70 | `/welcome/:name` builds the placeholder leaf |
| RouterScenarios.NestedBuilt2 | router.test.ts:71 | `/welcome/:name/invite` adds `invite` below the placeholder child |
| RouterScenarios.NestedName2 | router.test.ts:73-79 | `/welcome/zaiste` finds the placeholder route with `name` captured |
| RouterScenarios.NestedInvite | router.test.ts:81-87 | `/welcome/zaiste/invite` finds the nested route with `name` captured |
| RouterScenarios.TrailingSlash | router.ts:144 | `/welcome/` leaves an empty last segment that no placeholder takes, so nothing matches |
| RouterScenarios.WildBuilt | router.ts:72-93 | registering `/files/` followed by `*` records the wildcard without setting the flag |
| RouterScenarios.WildParent | router.ts:118-123 | `/files` itself finds the wildcard route |
| RouterScenarios.WildChild | router.ts:132-141 | `/files/a` finds the wildcard route and captures nothing |
| RouterScenarios.WildDeep | router.ts:132-163 | `/files/a/b` still finds it: wildcards match any depth |
| RouterScenarios.CrossBuilt | router.ts:63-96 | `/a/:x` then `/:y/b` build two branches |
| RouterScenarios.CrossSearch | router.ts:153-172 | `/a/b` goes to the earlier `/a/:x`, with `y` captured on the losing branch as well as `x` |
| RouterScenarios.StarNamedBuilt | router.ts:70-92 | `/a/:*` stores the placeholder `*` under the key `:*` |
| RouterScenarios.StarNamedFault | router.ts:133-136 | searching below it reads the missing child `*` and throws |
| RouterScenarios.DuplicateOnPath | router.ts:79-83 | `/a/:x/:x` throws with label `x` |
| RouterScenarios.RootXBuilt | router.ts:72-92 | `/:x` records `x` on the root |
| RouterScenarios.DuplicateAcrossBranches | router.ts:79-91 | after `/:x`, registering `/b/:x` throws with label `x` |
| RouterScenarios.OptionalBuilt | router.ts:187-193 | `/users/:id?` registers `/users` and `/users/:id` |
| RouterScenarios.OptionalAbsent | router.ts:187-193 | `/users` finds the handler with no params |
| RouterScenarios.OptionalPresent | router.ts:187-193 | `/users/7` finds the handler with `id` = `7` |
| Dispatch.InferRequestValueType | routing.ts:8-19 | a boolean exactly for `""`, `"true"`, `"false"` (false only for `"false"`); a string result is the input unchanged; never a record |
| Dispatch.KeywordsBeforeNumbers | routing.ts:9-14 | the keyword results do not depend on how numbers parse |
| Dispatch.NumbersOrText | routing.ts:15-18 | any other string is a number exactly when `Number` accepts it, with that value, and is kept as text exactly when it does not |
| Dispatch.InferredRecordKeys | routing.ts:77-81 | a key is in the query or form record exactly when some pair has it |
| Dispatch.InferredRecordLast | routing.ts:79-80 | the recorded value is the inferred value of the last pair with that key |
| Dispatch.CollectParams | routing.ts:77-81 | the loop yields that record |
| Dispatch.MediaType | routing.ts:30 | the media type exists exactly when the header does, and it is the header's text up to its first `;` (the whole header when it has none) |
| Dispatch.TextRecordKeys | routing.ts:50-56 | a key has a param exactly when some multipart part under it is text, and every such param is an uninferred string |
| Dispatch.TextRecordLast | routing.ts:50-56 | a text part with no later text part of the same key sets that key's param to its own text: the last text part wins |
| Dispatch.FileRecordKeys | routing.ts:50-54 | a key has a file exactly when some part under it is a file |
| Dispatch.FileRecordLast | routing.ts:50-54 | a file part with no later file part of the same key sets that key's file to its own file: the last file part wins |
| Dispatch.CollectParts | routing.ts:48-59 | the multipart loop yields the two records |
| Dispatch.ParseBody | routing.ts:21-64 | the body reading equals `BodyOf`: empty without a body or for another media type, inferred fields for urlencoded, the object for JSON, split parts for multipart, and `Rejected` when the awaited decoder rejects |
| Dispatch.EmptyBodies | routing.ts:26-62 | no body, or a media type none of the branches names, gives empty records |
| Dispatch.MultipartSeparates | routing.ts:45-60 | files never land in `params`, text never in `files`, and text params are strings |
| Dispatch.Lookup | routing.ts:72 | a hit under the request's method wins. After a miss the result is exactly the `ANY` search's result, and a fault under the method stays a fault |
| Dispatch.PathValues | routing.ts:85 | path captures become string params with the same keys |
| Dispatch.Merge | routing.ts:85 | the merged keys are the union; body over path over query |
| Dispatch.MissIgnoresBody | routing.ts:89-91 | when no route matches, the outcome is `next` with the request untouched, whatever the body |
| Dispatch.FoundParams | routing.ts:74-88 | a found route is invoked with every query, path and body key, body over path over query, and exactly the body's files |
| Dispatch.RouteFinder | routing.ts:66-93 | the outcome and the request's new `params`/`files` are those of `Routed` |
| Dispatch.Request.constructor | routing.ts:147-150 | a request starts with empty `params` and `files` |
| Dispatch.BareHandler | routing.ts:109-110 | a lone handler is registered uncomposed |
| Dispatch.FlowNesting | routing.ts:109-124 | route-level middleware composes outside the handler's own pipeline |
| Dispatch.Add | routing.ts:99-114 | `add` registers the last element composed under the others, through `Router.add` |
| Dispatch.AddAllAppend | routing.ts:116-141 | registering two lists in a row is registering their concatenation, stopping at the first throw |
| Dispatch.MappingMethods | routing.ts:120-121 | a mapping registers only the entries whose key is an `HTTPMethod` key |
| Dispatch.TableWellTyped | routing.ts:116-141 | every registration of a well-typed table is a non-empty pipeline of middleware ending in a handler |
| Dispatch.RegisteredMethods | routing.ts:121-138 | only `HTTPMethod` keys and `ANY` are ever registered, never `PATCH` |
| Dispatch.AddEntry | routing.ts:120-126 | one entry adds its flow exactly when its key is an `HTTPMethod` key |
| Dispatch.AddMapping | routing.ts:117-129 | the entry loop performs the mapping's registrations in order, stopping at the first throw |
| Dispatch.AddRoute | routing.ts:117-140 | one table entry performs its registrations in order, a mapping's `HTTPMethod` entries or one `ANY` registration for a pipeline or a handler, stopping at the first throw |
| Dispatch.Routing | routing.ts:95-141 | a fresh router is filled with the registrations of the whole table, in order, stopping at the first throw |
| Dispatch.Handle | routing.ts:143-153 | each request starts from empty `params`/`files`; the result is `RouteFinder` with the NotFound handler as `next` |
| RouteHelpers.Declared | route.ts:5-24 | the route has the given path and meta and exactly one entry, under `name`, holding a handler; a bare handler gets no middleware; the result is well typed |
| RouteHelpers.DeclaredRegisters | route.ts:5-24 | declaring under an `HTTPMethod` key and passing the route to `Routing` registers one handler, and it equals the action registered directly |
| RouteHelpers.UndeclarableMethods | route.ts:5-24 | a route declared under any other key registers nothing |
| RouteHelpers.PatchAndAnyDropped | route.ts:36-54 | routes built by `PATCH` and `ANY` register nothing |
| RouteHelpers.CreateRoute | route.ts:5-24 | the route is `Declared` of the argument as it was; a pipeline array loses its last element |
| RouteHelpers.Get | route.ts:28-30 | `createRoute('GET', …)`, meta defaulting to empty |
| RouteHelpers.Post | route.ts:32-34 | `createRoute('POST', …)` |
| RouteHelpers.Patch | route.ts:36-38 | `createRoute('PATCH', …)` |
| RouteHelpers.Put | route.ts:40-42 | `createRoute('PUT', …)` |
| RouteHelpers.Delete | route.ts:44-46 | `createRoute('DELETE', …)` |
| RouteHelpers.Options | route.ts:48-50 | `createRoute('OPTIONS', …)` |
| RouteHelpers.Any | route.ts:52-54 | `createRoute('ANY', …)` |

## Left out

- **Keys inherited from the prototype chain** (`toString`, `constructor`, `__proto__`) are not modelled. Children and route maps are plain maps. `HTTPMethodKeys` holds only the object's own keys, although `method in HTTPMethod` also accepts inherited ones.
- **`Number(v)` is the parameter `toNumber`.** `Infinity`, `-Infinity` and `-0` are not representable: a numeric value is a mathematical real.
- **Non-object JSON bodies and JSON `null`/arrays.** Only JSON objects are modelled, as their members. An array or a scalar spread into `params` is left out. `Value` has no `null` and no array, so an object member whose value is `null` or an array, which `{...bodyParams}` passes through unchanged, cannot be represented.
- **The platform's decoders and URL parsing.** `formData()` and `json()` results, `new URL(url).pathname` and `searchParams` are given as the request's fields, in their iteration order.
- **Asynchrony.** `await` is sequential evaluation. `request.clone()` makes no difference to the model.
- **Responses.** `response.ts` and the body of the NotFound response are not part of this model. A call of `next` stands for it.
- **Running handlers.** The handler is returned as the outcome `Invoke(handler)`, not run. `arg1` and `arg2` are not modelled.
- **`scripts/`** is not part of this model.
- **Ill-typed pipelines.** A pipeline that is empty or does not end in a handler is excluded by the ghost `WellTypedPipeline` requirement, which is the static type `[...Middleware[], Handler]`.
- **Runtime classification of route-table values.** `isPlainObject`'s prototype test, `Array.isArray` and `isFunction` are not modelled. A value is classified by the tag of `Unit`, so `ClassifiersExclusive` is about the tags.
- **Duplicate keys in a mapping.** A mapping's entries are a sequence and may repeat a key, which a JavaScript object cannot. A repeated key registers twice, later over earlier.
- **The third element of a route-table entry** (`Route?`) is ignored by `Routing` and is not modelled.
- **The `rank`, `name` and `shouldCapture` of non-root nodes.** The source never reads them except `shouldCapture`, which the model keeps.
- **`Meta` keeps only `summary` and `description`.**
- **Thrown errors.** The duplicate-label `Error` is modelled as the returned label, and its message text is left out. A throw inside `Routing` is modelled as stopping with that label.
- **The `middlewares` list inside `Routing`** is always empty. `Handle` therefore applies `RouteFinder` directly to the NotFound handler.
