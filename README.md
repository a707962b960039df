# uon-team/core in Dafny

This project models the core of `@uon/core`, a small TypeScript framework that provides:

- a dependency-injection container (`StaticInjector`, `NullInjector`, `GetInjectionTokens`), in its current form (src/di/injector.ts) and its legacy form (src/Injector.ts);
- a module `Application` that builds one injector per imported module and starts them (src/app/application.ts), and its legacy single-injector form (src/Application.ts);
- a priority-ordered `EventSource` (src/util/event-source.ts, and the older src/EventSource.ts);
- the object, array and string helpers of src/Utils.ts.

Modules and what they hold:

- `Types`: the shared vocabulary.
  - Tokens, JavaScript values, provider objects, thrown errors.
  - `Env`, the boundary to code the container does not own: constructors and factories, decorator metadata, promise settlement.
  - The trace of observable steps of that code.
  - JavaScript identity is modelled by numbering every object user code makes, so structural equality is identity.
- `Resolution`: the resolution algorithm as pure functions over a chain of record tables (the injector asked, then its ancestors). Every record is `Empty`, `Circular` (being built) or `Final(value)`.
- `Registration`: provider registration, dependency edges and instantiation.
- `RegistrationFacts`, `ResolutionFacts`, `LegacyInjection`: what these promise.
- `Injection`: the `StaticInjector` class. Its methods mutate the record tables in place and are proved equal to the functions above.
- `Modules`, `ModuleGraph`, `ModuleGraphFacts`, `AppStart`, `App`: the module application, with the class `App.Application`.
- `LegacyApp`, `LegacyAppFacts`: the legacy application, with the class `LegacyApp.LegacyApplication`.
- `Events`: the event emitter, with the class `Events.EventSource`.
- `Utils`: the helpers.

## Model

| member | source | states |
|---|---|---|
| Types.Invoke | src/di/injector.ts:238 | calling user code records exactly one call step after the trace; the legacy application's own initializer factory yields `true` |
| Types.Settle | src/di/injector.ts:144-145 | awaiting a promise records one await and yields its settlement; awaiting any other value yields that value with no step |
| Resolution.Resolve | src/di/injector.ts:199-313 | a resolution keeps the number of injectors and the tokens of the injector asked, only extends the trace, and never adds to the `Empty` records |
| Resolution.Build | src/di/injector.ts:208-240 | building a record keeps the same frame as `Resolve` |
| Resolution.ResolveDeps | src/di/injector.ts:218-236 | resolving the edges keeps that frame and, on success, yields one value per edge |
| Resolution.Awaited | src/di/injector.ts:285-292 | in async mode a resolved promise is awaited; in sync mode, on an error, or for a non-promise the outcome is unchanged |
| Registration.InjectionTokens | src/di/injector.ts:466-499 | one edge per 'design:paramtypes' entry, none when that metadata is missing |
| Registration.Instantiation | src/di/injector.ts:148-191 | instantiation keeps the resolution frame |
| RegistrationFacts.Flatten | src/di/injector.ts:317-323 | the walk meets no falsy entry and no array |
| RegistrationFacts.RegisterAllAppend | src/di/injector.ts:320-324 | registering `a + b` is registering `a`, then `b`, stopping at the first error |
| RegistrationFacts.RegisterFlattens | src/di/injector.ts:315-324 | registering a provider tree is registering its flattened entries in order |
| RegistrationFacts.RegisterAllFlattens | src/di/injector.ts:320-324 | the same for a provider list |
| RegistrationFacts.RejectedShapes | src/di/injector.ts:335-407 | a scalar, and an object without a token, throw 'Invalid provider'. A tokened object with no `value`, `factory` or `type` and no `use` throws 'Not a Provider'; so does a `use`-only object in the legacy dialect |
| RegistrationFacts.ShapeOrder | src/di/injector.ts:387-407 | the shapes are tried in the order value, factory, type, use, and the record is built exactly when one of them matches; only a class is constructed with `new` |
| RegistrationFacts.MultiOverSingle | src/di/injector.ts:340-346 | a `multi` object over a record that is not an aggregator throws the multi-provider error |
| RegistrationFacts.SingleOverMulti | src/di/injector.ts:362-365 | a non-`multi` object over an aggregator throws the multi-provider error |
| RegistrationFacts.LastWins | src/di/injector.ts:362-367 | a non-`multi` object over a non-aggregator record replaces it |
| RegistrationFacts.MultiRegister | src/di/injector.ts:340-360 | `multi` providers of any accepted shape (value, factory, class, alias) append one edge each to an existing aggregator, in order, and each provider's own key holds the record `resolveProvider` made for it |
| RegistrationFacts.MultiKeepsOthers | src/di/injector.ts:340-367 | `multi` registrations of any accepted shape leave every other key unchanged |
| RegistrationFacts.FinalDeps | src/di/injector.ts:218-236 | edges to final values resolve to those values, with no user code and no change |
| RegistrationFacts.MultiRegisterFresh | src/di/injector.ts:347-359 | the first `multi` registration of a token, of any accepted shape, creates its aggregator; the aggregator's edges are the providers in registration order and each key holds its provider's record |
| RegistrationFacts.FirstMulti | src/di/injector.ts:347-367 | the exact table after one first `multi` registration of any accepted shape: a new aggregator with one edge, and the provider's record under its own key |
| RegistrationFacts.AggregatorResolves | src/di/injector.ts:15 | an aggregator over final values resolves to the list of those values without running user code |
| RegistrationFacts.MultiCollects | src/di/injector.ts:340-360 | registering `multi` providers of any accepted shape for a fresh token succeeds; resolving the token resolves each provider's own record in registration order and yields the array of their values, or the first error |
| RegistrationFacts.AggregatorCollects | src/di/injector.ts:208-240 | an aggregator resolves to the array of the values of its edges, resolved in order on the chain where it is marked circular, or to their first error; on success the array is stored as its final value |
| RegistrationFacts.MultiCollectsValues | src/di/injector.ts:340-360 | for `multi` value providers the array is their values themselves, in registration order, and no user code runs |
| RegistrationFacts.RegisterKeeps | src/di/injector.ts:315-377 | registration leaves alone a record no provider binds |
| RegistrationFacts.RegisterAllKeeps | src/di/injector.ts:320-324 | the same for a provider list |
| RegistrationFacts.GetInjectorIsSelf | src/di/injector.ts:122 | unless a provider rebinds the `Injector` token, `get(Injector)` returns the injector itself |
| RegistrationFacts.AnnotateMeaning | src/di/injector.ts:478-490 | a parameter is optional iff it has `@Optional()`; it is `self` iff `@Self()` is honoured and present; its token is the last `@Inject()` token, else its type |
| RegistrationFacts.ShapeRegister | src/di/injector.ts:315-411 | registration ignores the values a table holds: same-shape tables give the same success or error, and same-shape results |
| RegistrationFacts.ShapeRegisterAll | src/di/injector.ts:320-324 | the same for a provider list |
| RegistrationFacts.ShapeRegisterObject | src/di/injector.ts:340-367 | the same for the object branch |
| RegistrationFacts.ShapeValueObject | src/di/injector.ts:391-393 | two value objects that differ only in their value register alike |
| RegistrationFacts.ShapeAroundValue | src/di/injector.ts:315-377 | a provider list around one value object gives the same success or error whatever that value and starting table |
| RegistrationFacts.RegisterErrors | src/di/injector.ts:315-411 | registration throws nothing but 'Invalid provider', 'Not a Provider' and the multi-provider error |
| RegistrationFacts.RegisterAllErrors | src/di/injector.ts:320-324 | the same for a provider list |
| ResolutionFacts.ResolveEvolves | src/di/injector.ts:199-313 | a resolution adds and removes no record, and changes only the value of an `Empty` record |
| ResolutionFacts.BuildEvolves | src/di/injector.ts:208-240 | the same for building a record |
| ResolutionFacts.ProduceEvolves | src/di/injector.ts:238 | the same for running a producer |
| ResolutionFacts.ResolveDepsEvolves | src/di/injector.ts:218-236 | the same for the dependency loop |
| ResolutionFacts.FinalStays | src/di/injector.ts:203-242 | a final value on any injector of the chain is never replaced by a later resolution |
| ResolutionFacts.ResolvedIsFinal | src/di/injector.ts:238-242 | a successful resolution of a local token leaves its record holding the result |
| ResolutionFacts.GetTwice | src/di/injector.ts:203-242 | once resolved, a second `get` of the token returns the identical value, runs no user code and changes nothing |
| ResolutionFacts.CircularThrows | src/di/injector.ts:205-207 | a record being built throws "Circular dependency" and changes nothing |
| ResolutionFacts.SelfDependencyThrows | src/di/injector.ts:208-229 | a record whose first dependency is itself throws "Circular dependency" before any user code runs |
| ResolutionFacts.TwoCycleThrows | src/di/injector.ts:205-229 | when each of two unbuilt records has the other as its first dependency, resolving either throws "Circular dependency" before any user code runs |
| ResolutionFacts.CycleFails | src/di/injector.ts:205-229 | two records of one injector that depend on each other through edges at any position never resolve: resolving an unbuilt one fails, with "Circular dependency" or with an error met earlier |
| ResolutionFacts.DepsHitCircular | src/di/injector.ts:205-236 | a dependency list with an edge to a record under construction fails |
| ResolutionFacts.PendingResolve | src/di/injector.ts:203-242 | while one record is being built, no resolution finalises a record that has an edge back to it |
| ResolutionFacts.StuckAfterFailure | src/di/injector.ts:208-240 | a failed build leaves the record `Circular`, so every later `get` of the token throws "Circular dependency" |
| ResolutionFacts.FailureLeavesCircular | src/di/injector.ts:210-238 | a failed build leaves its record `Circular` |
| ResolutionFacts.NearestAncestor | src/di/injector.ts:245-248 | a token without a local record is resolved by the nearest ancestor that has one, with the caller's default; the injectors below are unchanged |
| ResolutionFacts.ResolveMiss | src/di/injector.ts:245-248 | a token without a local record gets the parent's answer |
| ResolutionFacts.AbsentEverywhere | src/di/injector.ts:245-251 | a token no injector has reaches the NullInjector with the caller's default, changing nothing |
| ResolutionFacts.SelfOnlySkipsParents | src/di/injector.ts:249-251 | a `self` edge without a local record skips the parents |
| ResolutionFacts.MissingToken | src/di/injector.ts:23-38 | with no default, or an `undefined` one, `get` throws "No provider" and `getAsync` resolves to an Error object; with any other default both return it |
| ResolutionFacts.UndefinedDefault | src/di/injector.ts:23-31 | resolving with an `undefined` default (which the `get` methods at src/di/injector.ts:128-146 and the NullInjector replace by THROW_IF_NOT_FOUND) is, on every chain, resolving with no default |
| ResolutionFacts.MissingOptionalIsNull | src/di/injector.ts:224-229 | an optional edge nothing provides resolves to `null` |
| ResolutionFacts.ResolveDepsAppend | src/di/injector.ts:218-236 | edges are resolved in declaration order: `a + b` is `a`, then `b` on the chain `a` left |
| ResolutionFacts.ResolveDepsCons | src/di/injector.ts:220-234 | one turn of the dependency loop: the first edge, then the rest unless it failed |
| LegacyInjection.LegacyTokensNoSelf | src/Injector.ts:299-328 | the legacy parameter fold never sets `self` |
| LegacyInjection.LegacyDeps | src/Injector.ts:251-277 | a class gets its constructor edges; every provider object, class providers included, gets only its explicit `deps`; no edge is `self` |
| LegacyInjection.LegacyRecordPlain | src/Injector.ts:222-249 | a legacy record has no alias producer and no `self` edge |
| LegacyInjection.LegacyRegisterPlain | src/Injector.ts:158-220 | legacy registration keeps every record plain |
| LegacyInjection.LegacyRegisterAllPlain | src/Injector.ts:163-167 | the same for a provider list |
| LegacyInjection.LegacyTablePlain | src/Injector.ts:64-74 | a legacy injector's whole table is plain |
| LegacyInjection.AnnotateIgnoringSelf | src/Injector.ts:310-320 | folding decorators without `@Self()` is folding with it and dropping `self` |
| LegacyInjection.LegacyInstanciateEdges | src/Injector.ts:92-104 | legacy `instanciate` resolves the same edges as the current one |
| Injection.GetInjectionTokens | src/di/injector.ts:466-499 | the loop yields `InjectionTokens` of the metadata |
| Injection.ResolveDependencies | src/di/injector.ts:413-442 | the edges of a provider in either dialect |
| Injection.ResolveProvider | src/di/injector.ts:379-411 | the record of a provider in either dialect, or the error thrown |
| Injection.StaticInjector.constructor | src/di/injector.ts:116-123 | a fresh injector whose only record is itself under `Injector` |
| Injection.StaticInjector.Create | src/di/injector.ts:116-126 | the injector is returned exactly when registering its providers over the self record succeeds, holding that table; otherwise the registration error |
| Injection.StaticInjector.RecursivelyResolveProviders | src/di/injector.ts:315-377 | the walk succeeds exactly when `Register` does and leaves its table; otherwise it throws its error |
| Injection.StaticInjector.Get | src/di/injector.ts:128-133 | the result, the new chain state and the trace are those of `Resolve` in sync mode, where an `undefined` default counts as none (`UndefinedDefault`) |
| Injection.StaticInjector.GetAsync | src/di/injector.ts:140-146 | the same in async mode, with the result awaited |
| Injection.StaticInjector.Instanciate | src/di/injector.ts:148-160 | the constructor edges through `get`, then `new` |
| Injection.StaticInjector.InstanciateAsync | src/di/injector.ts:162-176 | the same through `getAsync` |
| Injection.StaticInjector.InvokeAsync | src/di/injector.ts:178-191 | the same, with the function called rather than constructed |
| Injection.StaticInjector.CallWithDeps | src/di/injector.ts:148-191 | the shared body of the three, equal to `Instantiation` |
| Injection.StaticInjector.ResolveToken | src/di/injector.ts:199-313 | in place, on this injector and its ancestors, exactly `Resolve` |
| Injection.StaticInjector.BuildRecord | src/di/injector.ts:208-240 | in place, exactly `Build` |
| Injection.StaticInjector.SetValue | src/di/injector.ts:210 | one record's value changes; the rest of the chain does not |
| Injection.StaticInjector.Produce | src/di/injector.ts:238 | in place, exactly `Resolution.Produce` |
| Injection.StaticInjector.ResolveAll | src/di/injector.ts:218-236 | in place, exactly `ResolveDeps` |
| Injection.StaticInjector.ResolveEdge | src/di/injector.ts:222-232 | one edge through this injector, awaited in async mode |
| Modules.Binding | src/app/application.ts:41-44 | an object literal of the application carries only `token` and `value` and is not `multi` |
| Modules.ModuleRef.constructor | src/app/application.ts:128-131 | a new ref holds its metadata and class, with no instance and no injector yet |
| ModuleGraph.RefBinding | src/app/application.ts:135 | a non-`multi` provider object with token `ModuleRef` and value the ref |
| ModuleGraph.InjectorProviders | src/app/application.ts:134-162 | a module injector's list is the inherited providers, then a non-`multi` `ModuleRef` binding to the ref, then the import providers, in that order |
| ModuleGraphFacts.ImportProvidersOk | src/app/application.ts:142-164 | the import loop succeeds iff no class occurs twice, none was met before and every class has `@Module()` metadata |
| ModuleGraphFacts.ImportProvidersValue | src/app/application.ts:142-164 | on success, each import's metadata providers then its extra providers, in order; otherwise "imported twice" for a repeated class or a TypeError for one without metadata |
| ModuleGraphFacts.ImportCheck | src/app/application.ts:138-166 | the whole import loop of one module: succeeds iff its imports are distinct modules, and then yields their providers |
| ModuleGraphFacts.ImportedTwiceThrows | src/app/application.ts:147-150 | a class imported twice by one module is rejected |
| ModuleGraphFacts.DeclareMeaning | src/app/application.ts:177-189 | the declarations loop succeeds iff no declared class is in `_d` already or declared twice; then every declared class maps to the ref and older entries are kept; otherwise "Cannot redeclare" names a declared class |
| ModuleGraphFacts.NotAModuleUnreachable | src/app/application.ts:123-125 | construction never throws the `@Module()` error: a class without metadata fails earlier, on line 53 or line 159 |
| ModuleGraphFacts.LoadErrors | src/app/application.ts:116-200 | `_rlm` on a module never throws the `@Module()` error |
| ModuleGraphFacts.LoadAllErrors | src/app/application.ts:193-197 | the same for the loop over imports |
| ModuleGraphFacts.LoadTree | src/app/application.ts:116-200 | `_rlm(t)` only appends to `_m`, and what it appends is the pre-order of `t`; the first ref is `t` with the given parent and inherited providers; every later ref inherits nothing and has as parent an earlier ref that imports it |
| ModuleGraphFacts.LoadAllTree | src/app/application.ts:193-197 | the same for the import loop: the refs added are the pre-orders of the imports, in order |
| ModuleGraphFacts.ModuleTree | src/app/application.ts:36-200 | in a built application `_m` is the pre-order of the main module. The main ref inherits the main module's providers under the application injector; every other ref inherits nothing and sits under an earlier ref whose module imports it |
| ModuleGraphFacts.MainOnlyFirst | src/app/application.ts:102-104 | the main module's ref is the first of `_m` and the only one of its class |
| ModuleGraphFacts.LoadDecls | src/app/application.ts:177-197 | `_rlm` keeps every entry of `_d`, maps each class a new ref declares to that ref, and adds nothing else |
| ModuleGraphFacts.LoadAllDecls | src/app/application.ts:193-197 | the same for the import loop |
| ModuleGraphFacts.Declarations | src/app/application.ts:177-189 | in a built application `_d` maps every class declared by a loaded module to that module's ref, and holds nothing else |
| ModuleGraphFacts.DeclaredBy | src/app/application.ts:177-189 | the ref a declared class maps to is the ref that declares it |
| ModuleGraphFacts.DeclaringModulesLoadOnce | src/app/application.ts:182-185 | a module reached twice makes two refs, so in a built application a module with two refs declares nothing |
| AppStart.Initializers | src/app/application.ts:90-95 | awaiting the initializers: reading `length` of `null` or `undefined` throws; an array's entries are awaited in order; any other value has no entries (see "Left out"); the trace only grows |
| AppStart.Pass | src/app/application.ts:88-98 | one ref's pass keeps the number of injectors on its chain and only extends the trace |
| AppStart.StartFromFacts | src/app/application.ts:86-106 | the start loop succeeds iff every ref was started; only the refs it went through get an instance; the trace only grows |
| AppStart.StartNext | src/app/application.ts:86-99 | the loop is one ref's pass, then the rest of the loop |
| AppStart.StartOk | src/app/application.ts:97-99 | after a successful pass the ref has its instance and the loop goes on with the next ref |
| AppStart.StartErr | src/app/application.ts:90-98 | a failed pass ends the loop with its error and no instance for that ref |
| AppStart.StartDone | src/app/application.ts:86-108 | with every ref started, the loop ends well |
| App.AppProviders | src/app/application.ts:41-44 | the root provider list is one non-`multi` provider object with token `Application` and value the application |
| App.AppRegisters | src/app/application.ts:41-47 | the root injector holds itself and the application |
| App.CollectImports | src/app/application.ts:138-166 | the loop yields `ImportProviders` of the imports |
| App.GoingOk | src/app/application.ts:97-104 | a ref that starts keeps the start loop going |
| App.GoingErr | src/app/application.ts:90-98 | a ref that fails stops the start loop with its error |
| App.LastIndex | src/app/application.ts:102-104 | the index of the last ref whose class is the main module, or -1 |
| App.LastIndexIsLast | src/app/application.ts:102-104 | that index holds the main module, no later ref does, and -1 means no ref does |
| App.AwaitInitializers | src/app/application.ts:92-95 | the loop is `Initializers` |
| App.PassThrough | src/app/application.ts:88-98 | one ref's pass through its injector is `Pass` on that injector's chain |
| App.Application.constructor | src/app/application.ts:38-47 | the application with its main class, no refs, an empty `_d`, and a root injector holding itself and the application |
| App.Application.Bootstrap | src/app/application.ts:36-55 | `new Application(main)` succeeds or fails exactly as `ModuleGraph.Bootstrap`; on success it is fresh, has that main class, and its refs, injectors and `_d` are those `Bootstrap` computes |
| App.Application.Rlm | src/app/application.ts:116-200 | `_rlm` in place, exactly `Load` |
| App.Application.ModuleInjector | src/app/application.ts:168-169 | a module's injector: its registration fails or succeeds, with the same error, whatever the ref binding holds; on success it is fresh under `parentInjector` and holds the module's provider list |
| App.Application.PlaceRef | src/app/application.ts:171-197 | the push, the declarations, then the imports, exactly `Place` |
| App.Application.Settle | src/app/application.ts:177-197 | the declarations of the ref just pushed, then its imports |
| App.Application.LoadImports | src/app/application.ts:193-197 | the import loop in place, exactly `LoadAll` |
| App.Application.Push | src/app/application.ts:172-175 | the ref gets its injector and is appended to `_m` |
| App.Application.DeclareAll | src/app/application.ts:177-189 | the declarations loop in place, exactly `Declare` |
| App.Application.Start | src/app/application.ts:81-109 | `start()`: the new tables, the trace and every instance are those the start loop computes; the first error is the result; on success the result is the last ref of the main module, or `null` |
| App.Application.StartLoop | src/app/application.ts:86-104 | the loop ends exactly as `StartAll` from the tree's tables, the trace and the refs' instances: the error of the first ref that fails, or success after every ref; its tables, trace and instances are the tree's; on success the main index is `LastIndex` |
| App.Application.Loop | src/app/application.ts:86-104 | the `for` loop keeps the loop invariant (the tree mirrors the loop state and the loop is bound to end with the goal) and, unless an error stopped it, goes through every ref |
| App.Application.Turn | src/app/application.ts:87-105 | one turn keeps the invariant and moves to the next ref unless the pass failed |
| App.Application.StartAt | src/app/application.ts:88-99 | one ref's pass, then its instance when the pass succeeded |
| App.Application.SetInstance | src/app/application.ts:98 | only that ref's instance changes, to the pass's value; the tables stay; the tree then mirrors the loop state with that instance and the next ref to start |
| App.Application.StartModule | src/app/application.ts:88-98 | the pass through one ref's injector is `StartRef` on the whole tree, and leaves every instance as it was |
| App.Application.PassAt | src/app/application.ts:88-98 | the ref's pass is `Pass` on the chain of the tables from its injector to the root, and the new tables are that chain written back with `Writeback` |
| App.Application.PassOn | src/app/application.ts:88-98 | the ref's pass is `Pass` on its chain, its injector ending in the chain's new state; no injector off the way from it to the root changes |
| LegacyApp.LoadModule | src/Application.ts:104-152 | modules are instantiated by the root injector alone |
| LegacyApp.RefRegisters | src/Application.ts:131 | registering a ref's one binding never fails |
| LegacyApp.LegacyApplication.constructor | src/Application.ts:23-29 | an empty application: no modules and no injector yet |
| LegacyApp.LegacyApplication.Bootstrap | src/Application.ts:36-67 | `new Application(main)` succeeds or fails exactly as `Boot`, with its trace; on success it is fresh and holds the modules and the root injector `Boot` computes |
| LegacyApp.LegacyApplication.GetModuleProviders | src/Application.ts:154-199 | the walk yields `Gather` |
| LegacyApp.LegacyApplication.GetImportProviders | src/Application.ts:180-184 | the import loop yields `GatherAll` |
| LegacyApp.LegacyApplication.AppendMissing | src/Application.ts:187-193 | the de-duplicating append yields `AppendNew` |
| LegacyApp.LegacyApplication.LoadModules | src/Application.ts:104-152 | `recursivelyLoadModules` in place, exactly `LoadModule`, with the same root injector |
| LegacyApp.LegacyApplication.Instanciate | src/Application.ts:123 | a module is made through the root injector, exactly as `Instantiation` |
| LegacyApp.LegacyApplication.AddRef | src/Application.ts:125-137 | the class is recorded with its instance; the root injector stays |
| LegacyApp.LegacyApplication.LoadEach | src/Application.ts:140-144 | the import loop in place, exactly `LoadImports` |
| LegacyApp.LegacyApplication.LoadNext | src/Application.ts:141-143 | one turn of that loop: the first import is loaded, and an error stops the loop |
| LegacyApp.LegacyApplication.Start | src/Application.ts:72-97 | `start()` settles as `StartWith` on the root table (the error `get` throws, the TypeError of reading `length` of null or undefined, or the promise chain over the initializers), with the root table `get` leaves |
| LegacyAppFacts.AppendNewFacts | src/Application.ts:187-193 | the append keeps the list as a prefix, puts every given provider in it, appends only given providers that are not already there, and adds no duplicate |
| LegacyAppFacts.AppendNewConcat | src/Application.ts:187-193 | appending `xs + ys` is appending `xs`, then `ys` |
| LegacyAppFacts.AppendNewKnown | src/Application.ts:187-193 | appending providers already listed changes nothing |
| LegacyAppFacts.GatherGrows | src/Application.ts:154-199 | the walk only appends to `out`, and adds no duplicate |
| LegacyAppFacts.GatherAllGrows | src/Application.ts:180-184 | the same for the import loop |
| LegacyAppFacts.ImportsFirst | src/Application.ts:165-193 | for a `@Module` class, the imports' providers come first; then the extra providers, then the metadata providers, all of which end up listed; nothing else is appended |
| LegacyAppFacts.RootListFirst | src/Application.ts:41-59 | the root list starts with the Router factory and the initializer, and lists nothing twice |
| LegacyAppFacts.LoadGrows | src/Application.ts:104-152 | loading only appends classes and instances, one instance per class, each class at most once; the trace only grows |
| LegacyAppFacts.LoadImportsGrow | src/Application.ts:140-144 | the same for the import loop |
| LegacyAppFacts.LoadPreOrder | src/Application.ts:104-152 | loading `t` appends the pre-order walk of `t`, without the classes already loaded |
| LegacyAppFacts.LoadImportsPreOrder | src/Application.ts:140-144 | the same for the import loop |
| LegacyAppFacts.LegacyModulesInPreOrder | src/Application.ts:36-67 | `_modules` holds the pre-order walk from the main module with repeats dropped, each class once, one instance each |
| LegacyAppFacts.ChainAwaits | src/Application.ts:76-96 | the chain awaits exactly the promises among the initializers, in order. When all fulfil it settles to `true`; when one rejects, it fails with that reason, having awaited the promises up to it and no further |
| LegacyAppFacts.ChainOk | src/Application.ts:80-96 | when every initializer fulfils, each promise is awaited once and the chain settles to `true` |
| LegacyAppFacts.ChainErr | src/Application.ts:80-96 | when one rejects, the chain stops there with its reason |
| LegacyAppFacts.StartOutcome | src/Application.ts:72-97 | `start()` fails with the error `get` throws; with the TypeError of reading `length` when the initializers are null or undefined, before awaiting anything; for an array, settles to `true` only after awaiting each of its promises once; for any other value, settles to `true` at once; the root table is the one `get` leaves |
| LegacyAppFacts.NoPromiseNoWait | src/Application.ts:84-96 | without a promise among the initializers nothing is awaited and `start` settles to `true` |
| Events.EventSource.constructor | src/util/event-source.ts:21-26 | a new source has no listener list |
| Events.EventSource.On | src/util/event-source.ts:34-45 | the listener (priority 100 by default) is pushed on the type's list, created if missing, and the list is sorted; other types are unchanged; every list stays sorted |
| Events.EventSource.RemoveListener | src/util/event-source.ts:68-82 | the first entry with that function is removed from the type's list; without a list nothing changes; lists stay sorted |
| Events.EventSource.RemoveListeners | src/util/event-source.ts:88-90 | the type's list is gone and the others are unchanged |
| Events.EventSource.Dispatch | src/util/event-source.ts:105-108 | the listeners run as `Emission` says |
| Events.EventSource.Emit | src/util/event-source.ts:98-110 | `emit` calls the listeners in order, awaiting each, and rejects with the first failure; otherwise it resolves to `undefined`. Without a list it resolves at once, calling nothing |
| Events.EventSource.EmitChain | src/EventSource.ts:100-118 | the older `emit` runs the same chain but settles to the last listener's value; without a list it resolves to `undefined` at once |
| Events.InsertIsSplice | src/util/event-source.ts:41-44 | inserting puts the entry after every entry of lower or equal priority and before the first of higher priority |
| Events.InsertSorted | src/util/event-source.ts:41-44 | inserting into a sorted list keeps it sorted and adds exactly that entry |
| Events.SortedIsFixed | src/util/event-source.ts:42-44 | sorting a sorted list keeps it as it is |
| Events.SortAfterPush | src/util/event-source.ts:41-44 | pushing onto a sorted list and sorting is inserting, after the equal priorities |
| Events.SortByPriorityFacts | src/util/event-source.ts:42-44 | the sort gives a sorted permutation of its input |
| Events.RemoveFirstIsSplice | src/util/event-source.ts:72-78 | removal splices out the first entry with the function, or keeps the list |
| Events.RemoveFirstSorted | src/util/event-source.ts:68-82 | removal keeps a list sorted and removes exactly that entry |
| Events.RemoveUndoesInsert | src/util/event-source.ts:34-82 | removing a function just inserted, and not listed before, gives back the list |
| Events.EmissionOrder | src/util/event-source.ts:105-108 | the listeners are called in list order: all of them on success, and on failure exactly those up to the one that failed |
| Events.EmissionOk | src/util/event-source.ts:105-108 | on success every listener is called once, in order |
| Events.EmissionErr | src/util/event-source.ts:105-108 | on failure the listeners up to the failing one are called, and no further |
| Utils.Extend | src/Utils.ts:11-24 | `extend` returns the target, which now holds the sources merged in order over it |
| Utils.CopyKeys | src/Utils.ts:17-19 | copying a source's keys overwrites the target's values for those keys and adds the rest |
| Utils.MergedKeys | src/Utils.ts:15-20 | a key is in the merge iff it is in the target or in some source |
| Utils.MergedLastWins | src/Utils.ts:15-20 | a key takes its value from the last source that has it |
| Utils.MergedUntouched | src/Utils.ts:15-20 | a key no source has keeps the target's value |
| Utils.IndexOf | src/Utils.ts:56 | `indexOf`: -1 iff absent, otherwise the first index holding the element |
| Utils.Include | src/Utils.ts:39-46 | `include` as written: it returns the target, which is `Included` of the old items |
| Utils.IncludeIntended | src/Utils.ts:34-46 | the corrected `include`: it returns the target, which is `IncludedIntended` of the old items |
| Utils.IncludeAsWrittenFails | src/Utils.ts:41-43 | as written, including into `[]` leaves it empty, and including `x` into `[x]` duplicates it |
| Utils.IncludeAsWrittenKeeps | src/Utils.ts:41-43 | as written, the set of elements never changes, and an absent element is never added |
| Utils.IncludeIntendedFacts | src/Utils.ts:34-39 | the corrected `include` leaves the element in the array, keeps the old items as a prefix, adds nothing when it is already there, adds no duplicate and is idempotent |
| Utils.Erase | src/Utils.ts:54-64 | `erase` returns `true` iff the element was there; it then splices out its first occurrence and otherwise leaves the array; exactly one occurrence goes |
| Utils.CamelCase | src/Utils.ts:78-84 | the result is never longer than the input |
| Utils.CamelWithoutSeparators | src/Utils.ts:80-83 | a string without separators is unchanged |
| Utils.CamelHead | src/Utils.ts:80-83 | a string that does not start with a separator keeps its first character |
| Utils.CamelLeavesNoSeparatorBeforeCharacter | src/Utils.ts:80-83 | every separator left ends the result or stands before a line terminator |
| Utils.LoweredHasNoUpper | src/Utils.ts:93-95 | with a separator free of upper case, the replacement leaves no `A`-`Z` |
| Utils.HyphenateHasNoUpper | src/Utils.ts:90-97 | with a separator free of upper case (the default among them), `hyphenate` leaves no `A`-`Z` |
| Utils.CamelUndoesLowered | src/Utils.ts:78-97 | camel-casing undoes the upper-case replacement of a string without separators |
| Utils.CamelCaseUndoesHyphenate | src/Utils.ts:78-97 | `camelCase(hyphenate(s))` is `s` for a string without separators that does not start upper case |

## Left out

- Decorator metadata (`design:paramtypes`, parameter annotations, `@Module()`) and promise settlement are inputs of `Env`, not computed from source text. Constructors, factories and listeners are calls into `Env` that record a step in the trace.
- The event loop is not modelled: an `await` is a step in the trace, and the relative timing of microtasks is not represented. This covers the older `emit` starting its first listener one tick late, and the legacy `start` chaining `then`s.
- The modules of the current and the legacy applications must form an acyclic import graph (a rank function). On a cycle the source recurses without end; that case is not modelled.
- `Modules.Binding`, `App.AppProviders`: the application's bindings are built structurally; whether the provider object literal itself is a distinct JavaScript object is not observable in the model. Their token, value and `multi` flag are stated.
- The `once` method of both event sources is not modelled. It registers a closure that removes itself, and a closure made by the source has no identity in the model.
- Listeners added or removed while `emit` runs are not modelled: `emit` reads the list once.
- Event priorities are integers: `NaN` and fractional priorities, and the comparator's behaviour on them, are not modelled. Neither is `this` inside listeners.
- The listener map's own keys are modelled; keys inherited from `Object.prototype` (such as `"constructor"`) are not.
- `Utils.Extend`: `for...in` over inherited enumerable keys, and sources that are strings or arrays, are not modelled; a source is a map of own keys, and `null`/`undefined` sources are empty maps.
- `Utils.IndexOf`: JavaScript identity is modelled as structural equality of values, and `NaN` is not a value here.
- `Utils.Upper`: `toUpperCase` is modelled for ASCII letters only; other characters (such as `ß`) are left unchanged.
- `Utils.CamelCase` and `Utils.Hyphenate` take strings; `String(str)` on a non-string is not modelled.
- `Utils.Hyphenate`: the leading separator is stripped literally; the source builds a regular expression from `sep`, which differs for separators holding regular-expression syntax.
- `Injection.StaticInjector.GetAsync`: in async mode the source awaits a promise returned while dependencies resolve. Only those awaits are modelled, not the timing of other pending promises.
- The legacy `ModuleRef` has no `type` field and the legacy application keeps its refs in a `Map` by class. The model keeps the classes and instances in order; the Router's view of the map is not modelled.
- `LegacyApp.LegacyApplication.AppendMissing`, `LegacyApp.Gather`, `LegacyApp.AppendNew`: nested provider arrays are compared by their entries, where `indexOf` (src/Application.ts:189) compares them by identity. Two distinct arrays with the same entries in the providers of two modules are therefore listed once here but twice by the source, so a `multi` provider inside both is registered once here and twice there.
- `LegacyApp.Items`: `null` and `undefined` throw the TypeError of reading `length`, as in the source; any other value that is not an array has no entries, so array-likes other than arrays (whose entries the source would walk) are not modelled.
- `AppStart.Initializers`: the same as `LegacyApp.Items`. The source walks any value through `length` and indexing, so a user value that is array-like without being an array would have its entries awaited; the model gives it none.
- `ResolutionFacts.GetTwice`: the source tests for the circular mark with a loose `==` against an empty object literal (src/di/injector.ts:205, 267; src/Injector.ts:120). A final value that is the string `"[object Object]"` therefore makes every later `get` of its token throw "Circular dependency". User values are opaque here (`Data`), so that case is not modelled and the second `get` returns the value.
- The legacy application loops over every `Module` annotation of a class (src/Application.ts:112-115, 161-163). The model gives each class at most one `@Module()` metadata, so a class carrying several `Module` annotations is not modelled.

## Findings

| source | as written | input that shows it | evidently intended | confidence | as-written member | corrected member |
|---|---|---|---|---|---|---|
| src/Utils.ts:41-43 | `include` pushes `obj` only when `indexOf(obj) !== -1`, that is, only when it is already in the array | `include([], x)` leaves `[]`; `include([x], x)` gives `[x, x]` | push only when `indexOf(obj) === -1`, as the doc comment at line 35 says: the element is added unless it is already there | high; not executed | Utils.IncludeAsWrittenFails | Utils.IncludeIntendedFacts |
