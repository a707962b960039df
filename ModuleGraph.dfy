/**
 * The module tree the application of src/app/application.ts builds at
 * construction (`_rlm`), as a function of the `@Module()` metadata: the list of
 * visits in the order module refs are pushed onto `_m`, with each visit's
 * importer and provider list, and the declaration table `_d`.
 */
module ModuleGraph {
  import opened Types
  import opened Resolution
  import opened Registration
  import opened RegistrationFacts
  import opened Modules

  /**
   * One module ref: its class, the index of the importer's ref (-1 for the
   * main module, whose injector's parent is the application injector), the
   * providers it inherits and the providers of its direct imports.  Its
   * injector is given `inherited`, then the `ModuleRef` binding, then
   * `imported`.
   */
  datatype Visit = Visit(moduleType: Fn, parent: int, inherited: seq<Provider>, imported: seq<Provider>)

  /** `_m` and `_d`, with refs named by their index in `_m`. */
  datatype Loaded = Loaded(visits: seq<Visit>, decls: map<Fn, nat>)

  /** `{ token: ModuleRef, value: ref }` (src/app/application.ts:135). */
  function RefBinding(ref: Value): (p: Provider)
    ensures p.Object? && p.p.token == Some(TypeToken(ModuleRefClass)) && p.p.value == Some(ref) && !p.p.multi
  {
    Binding(TypeToken(ModuleRefClass), ref)
  }

  /** The provider list of a module's injector (src/app/application.ts:134-169):
      the inherited providers, then the ref's own binding, then the imports'
      providers, so that an import's provider overrides an inherited one. */
  function InjectorProviders(v: Visit, ref: Value): (p: Provider)
    ensures p.Group? && |p.items| == |v.inherited| + 1 + |v.imported|
    ensures p.items[..|v.inherited|] == v.inherited && p.items[|v.inherited| + 1..] == v.imported
    ensures var b := p.items[|v.inherited|];
      b.Object? && b.p.token == Some(TypeToken(ModuleRefClass)) && b.p.value == Some(ref) && !b.p.multi
  {
    Group(v.inherited + [RefBinding(ref)] + v.imported)
  }

  /** A self record whose value is immaterial: whether registration succeeds
      does not depend on it (`ShapeAroundValue`). */
  const SelfShape: Records := map[TypeToken(InjectorClass) := Record([], Identity, Final(Null), false)]

  /**
   * The `imports.forEach` of src/app/application.ts:142-164: each import's
   * class must not have been met earlier in this list (`seen`) and must carry
   * `@Module()` metadata; its providers are the metadata's `providers` then
   * the import's extra providers.
   */
  function ImportProviders(cat: Catalog, imports: seq<Import>, seen: seq<Fn>): Result<seq<Provider>>
  {
    if imports == [] then Ok([])
    else
      var t := imports[0].moduleType;
      if t in seen then Err(ImportedTwice(t))
      else if cat(t).None? then Err(NoModuleMetadata(t))
      else
        var rest :- ImportProviders(cat, imports[1..], seen + [t]);
        Ok(cat(t).value.providers + imports[0].extra + rest)
  }

  /** The declarations loop of src/app/application.ts:177-189: each declared
      class is mapped to ref `i`, unless some ref already holds it. */
  function Declare(decls: map<Fn, nat>, types: seq<Fn>, i: nat): Result<map<Fn, nat>>
    decreases |types|
  {
    if types == [] then Ok(decls)
    else if types[0] in decls then Err(Redeclared(types[0]))
    else Declare(decls[types[0] := i], types[1..], i)
  }

  /**
   * `_rlm(t, parentInjector, initial)` (src/app/application.ts:116-200): the
   * metadata check, the import providers, the injector (whose registration may
   * throw), then `Place`.
   */
  function Load(cat: Catalog, rank: Fn -> nat, env: Env, st: Loaded, t: Fn, parent: int, initial: seq<Provider>): Result<Loaded>
    requires Ranked(cat, rank)
    decreases rank(t), 2, 0
  {
    if cat(t).None? then Err(NotAModule(t))
    else
      var imported :- ImportProviders(cat, cat(t).value.imports, []);
      var visit := Visit(t, parent, initial, imported);
      var registered := Register(env, Current, SelfShape, InjectorProviders(visit, Null));
      if registered.Err? then Err(registered.error)
      else Place(cat, rank, env, st, visit)
  }

  /** The rest of `_rlm` (src/app/application.ts:171-197): the push onto `_m`,
      the declarations, then every import in order with no inherited
      providers. */
  function Place(cat: Catalog, rank: Fn -> nat, env: Env, st: Loaded, visit: Visit): Result<Loaded>
    requires Ranked(cat, rank) && cat(visit.moduleType).Some?
    decreases rank(visit.moduleType), 1, 0
  {
    var meta := cat(visit.moduleType).value;
    var i := |st.visits|;
    var decls :- Declare(st.decls, meta.declarations, i);
    LoadAll(cat, rank, env, Loaded(st.visits + [visit], decls), meta.imports, i, rank(visit.moduleType))
  }

  /** `mod.imports.forEach(m => this._rlm(m, injector))` (lines 193-197). */
  function LoadAll(cat: Catalog, rank: Fn -> nat, env: Env, st: Loaded, imports: seq<Import>, parent: int, bound: nat): Result<Loaded>
    requires Ranked(cat, rank)
    requires forall k :: 0 <= k < |imports| ==> rank(imports[k].moduleType) < bound
    decreases bound, 0, |imports|
  {
    if imports == [] then Ok(st)
    else
      var st1 :- Load(cat, rank, env, st, imports[0].moduleType, parent, []);
      LoadAll(cat, rank, env, st1, imports[1..], parent, bound)
  }

  /**
   * The constructor (src/app/application.ts:36-55): reading `providers` of the
   * main module's metadata throws a TypeError when there is none; otherwise
   * the tree is loaded from the main module, which inherits its own providers.
   */
  function Bootstrap(cat: Catalog, rank: Fn -> nat, env: Env, main: Fn): Result<Loaded>
    requires Ranked(cat, rank)
  {
    if cat(main).None? then Err(NoModuleMetadata(main))
    else Load(cat, rank, env, Loaded([], map[]), main, -1, cat(main).value.providers)
  }

  // ---------------------------------------------------------------------------
  // Reference definitions.

  /** The classes of a module and everything below it, depth first, each
      module before its imports and the imports in declared order. */
  function PreOrder(cat: Catalog, rank: Fn -> nat, t: Fn): seq<Fn>
    requires Ranked(cat, rank)
    decreases rank(t), 1, 0
  {
    if cat(t).None? then [] else [t] + PreOrderAll(cat, rank, cat(t).value.imports, rank(t))
  }

  function PreOrderAll(cat: Catalog, rank: Fn -> nat, imports: seq<Import>, bound: nat): seq<Fn>
    requires Ranked(cat, rank)
    requires forall k :: 0 <= k < |imports| ==> rank(imports[k].moduleType) < bound
    decreases bound, 0, |imports|
  {
    if imports == [] then [] else PreOrder(cat, rank, imports[0].moduleType) + PreOrderAll(cat, rank, imports[1..], bound)
  }

  function TypesOf(imports: seq<Import>): (r: seq<Fn>)
    ensures |r| == |imports| && forall k :: 0 <= k < |r| ==> r[k] == imports[k].moduleType
  {
    if imports == [] then [] else [imports[0].moduleType] + TypesOf(imports[1..])
  }

  /** The providers of a list of imports, in order. */
  function ProvidersOf(cat: Catalog, imports: seq<Import>): seq<Provider>
    requires forall k :: 0 <= k < |imports| ==> cat(imports[k].moduleType).Some?
  {
    if imports == [] then [] else cat(imports[0].moduleType).value.providers + imports[0].extra + ProvidersOf(cat, imports[1..])
  }

  predicate Distinct(s: seq<Fn>)
  {
    forall a, b :: 0 <= a < b < |s| ==> s[a] != s[b]
  }

  /** The class of each ref, in `_m` order. */
  function Classes(vs: seq<Visit>): (r: seq<Fn>)
    ensures |r| == |vs| && forall k :: 0 <= k < |r| ==> r[k] == vs[k].moduleType
  {
    if vs == [] then [] else [vs[0].moduleType] + Classes(vs[1..])
  }
}
