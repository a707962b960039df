/**
 * The legacy application of src/Application.ts: one root injector holding the
 * providers of every module, flattened depth first with imports first and
 * each provider object at most once; then every module class instantiated
 * with that root injector, each at most once, in pre-order; `start` awaits the
 * initializers that are promises.
 */
module LegacyApp {
  import opened Types
  import opened Resolution
  import opened Registration
  import opened Injection
  import opened Modules

  /** Whether a class carries decorator metadata at all: for a class without
      any, `Reflect.getMetadata(META_ANNOTATIONS, f)` is undefined and reading
      its `length` throws a TypeError. */
  type Annotated = Fn -> bool

  /** The root provider list starts with the Router factory and the `multi`
      APP_INITIALIZERS factory on the Router (src/Application.ts:41-56). */
  const RouterProvider: ProviderObject :=
    ProviderObject(0, Some(TypeToken(RouterClass)), None, Some(RouterFactory), None, None, [], false)
  const InitializerProvider: ProviderObject :=
    ProviderObject(0, Some(AppInitializers), None, Some(InitializerFactory), None, None, [TypeToken(RouterClass)], true)

  function RootProviders(): (ps: seq<Provider>)
    ensures |ps| == 2 && ps[0] == Object(RouterProvider) && ps[1] == Object(InitializerProvider)
  {
    [Object(RouterProvider), Object(InitializerProvider)]
  }

  /** `out.indexOf(x) === -1 && out.push(x)` for each `x` of `xs` in turn. */
  function AppendNew<T(==)>(out: seq<T>, xs: seq<T>): seq<T>
    decreases |xs|
  {
    if xs == [] then out
    else AppendNew(if xs[0] in out then out else out + [xs[0]], xs[1..])
  }

  predicate NoDup<T(==)>(s: seq<T>)
  {
    forall a, b :: 0 <= a < b < |s| ==> s[a] != s[b]
  }

  /**
   * recursivelyGetModuleProviders (src/Application.ts:154-199) for the import
   * entry `imp`: a class without metadata throws; a class whose annotations
   * hold no `@Module` adds nothing; otherwise every import is flattened first,
   * then the extra providers of `imp` and the module's own providers are
   * appended unless already present.
   */
  function Gather(cat: Catalog, ann: Annotated, rank: Fn -> nat, imp: Import, out: seq<Provider>): Result<seq<Provider>>
    requires Ranked(cat, rank)
    decreases rank(imp.moduleType), 1
  {
    var t := imp.moduleType;
    if !ann(t) then Err(NoLength)
    else if cat(t).None? then Ok(out)
    else
      var mid :- GatherAll(cat, ann, rank, cat(t).value.imports, out, rank(t));
      Ok(AppendNew(mid, imp.extra + cat(t).value.providers))
  }

  /** The loop over `imports` (src/Application.ts:180-184). */
  function GatherAll(cat: Catalog, ann: Annotated, rank: Fn -> nat, imports: seq<Import>, out: seq<Provider>, bound: nat): Result<seq<Provider>>
    requires Ranked(cat, rank)
    requires forall k :: 0 <= k < |imports| ==> rank(imports[k].moduleType) < bound
    decreases bound, 0, |imports|
  {
    if imports == [] then Ok(out)
    else
      var next :- Gather(cat, ann, rank, imports[0], out);
      GatherAll(cat, ann, rank, imports[1..], next, bound)
  }

  /** What `recursivelyLoadModules` works on: the root injector's table (a
      chain of one), the user calls made, and the loaded classes with their
      instances in the order `_modules` received them. */
  datatype Loading = Loading(chain: seq<Records>, trace: seq<Call>, types: seq<Fn>, instances: seq<Value>)

  /**
   * recursivelyLoadModules (src/Application.ts:104-152): a class without
   * metadata throws; a `@Module` class not loaded yet is instantiated by the
   * root injector, recorded, and then its imports are loaded in order.  An
   * error stops the walk where it happens.
   */
  function LoadModule(cat: Catalog, ann: Annotated, rank: Fn -> nat, env: Env, st: Loading, t: Fn): (o: (Result<()>, Loading))
    requires Ranked(cat, rank) && |st.chain| == 1
    ensures |o.1.chain| == 1
    decreases rank(t), 1
  {
    if !ann(t) then (Err(NoLength), st)
    else if cat(t).None? || t in st.types then (Ok(()), st)
    else
      var made := Instantiation(env, Sync, st.chain, st.trace, t, true);
      if made.result.Err? then (Err(made.result.error), st.(chain := made.chain, trace := made.trace))
      else
        var st1 := Loading(made.chain, made.trace, st.types + [t], st.instances + [made.result.value]);
        LoadImports(cat, ann, rank, env, st1, cat(t).value.imports, rank(t))
  }

  /** `mod.imports.forEach(m => this.recursivelyLoadModules(m))`. */
  function LoadImports(cat: Catalog, ann: Annotated, rank: Fn -> nat, env: Env, st: Loading, imports: seq<Import>, bound: nat): (o: (Result<()>, Loading))
    requires Ranked(cat, rank) && |st.chain| == 1
    requires forall k :: 0 <= k < |imports| ==> rank(imports[k].moduleType) < bound
    ensures |o.1.chain| == 1
    decreases bound, 0, |imports|
  {
    if imports == [] then (Ok(()), st)
    else
      var o := LoadModule(cat, ann, rank, env, st, imports[0].moduleType);
      if o.0.Err? then o else LoadImports(cat, ann, rank, env, o.1, imports[1..], bound)
  }

  /** The table of a ref's injector: itself and the ref
      (src/Application.ts:131). */
  function RefRecords(inj: object, ref: object): Records
  {
    SelfRecords(inj)[TypeToken(ModuleRefClass) := Record([], Identity, Final(Ref(ref)), false)]
  }

  function RefProviders(ref: object): Provider
  {
    Group([Binding(TypeToken(ModuleRefClass), Ref(ref))])
  }

  /** Registering the one binding never fails. */
  lemma RefRegisters(env: Env, inj: object, ref: object)
    ensures Register(env, Legacy, SelfRecords(inj), RefProviders(ref)) == Ok(RefRecords(inj, ref))
  {
    var p := RefProviders(ref).items[0];
    var rec := Record([], Identity, Final(Ref(ref)), false);
    assert RecordFor(env, Legacy, p) == Ok(rec);
    var m1 := Register(env, Legacy, SelfRecords(inj), p);
    assert m1 == Ok(RefRecords(inj, ref));
    assert RegisterAll(env, Legacy, m1.value, []) == m1;
    assert RefProviders(ref).items[1..] == [];
  }

  /**
   * `new Application(startup)` (src/Application.ts:36-67): the root provider
   * list with every module's providers appended, the root injector `root` on
   * them, then the modules loaded from `startup`.
   */
  function Boot(cat: Catalog, ann: Annotated, rank: Fn -> nat, env: Env, main: Fn, trace: seq<Call>, root: object): (o: (Result<()>, Loading))
    requires Ranked(cat, rank)
  {
    var providers := Gather(cat, ann, rank, Import(main, []), RootProviders());
    if providers.Err? then (Err(providers.error), Loading([], trace, [], []))
    else
      var registered := Register(env, Legacy, SelfRecords(root), Group(providers.value));
      if registered.Err? then (Err(registered.error), Loading([], trace, [], []))
      else LoadModule(cat, ann, rank, env, Loading([registered.value], trace, [], []), main)
  }

  /** The entries of the APP_INITIALIZERS value: reading `length` of null or
      undefined throws a TypeError, and any other value but an array has no
      `length` the loop can count up to. */
  function Items(v: Value): (r: Result<seq<Value>>)
    ensures r.Err? <==> v.Null? || v.Undefined?
    ensures r.Err? ==> r.error == NoLength
    ensures r.Ok? && v.List? ==> r.value == v.items
    ensures r.Ok? && !v.List? ==> r.value == []
  {
    if v.Null? || v.Undefined? then Err(NoLength)
    else if v.List? then Ok(v.items)
    else Ok([])
  }

  /** The promise chain of `start` (src/Application.ts:77-96): every promise
      among `items` is awaited in list order, and the chain settles to `true`
      unless one of them rejects. */
  function Chain(env: Env, items: seq<Value>, trace: seq<Call>): (o: (Result<Value>, seq<Call>))
    decreases |items|
  {
    if items == [] then (Ok(Bool(true)), trace)
    else
      var (v, tr) := Settle(env, items[0], trace);
      if v.Err? then (v, tr) else Chain(env, items[1..], tr)
  }

  /** `start()` (src/Application.ts:72-97) on root table `m`: the initializer
      list (default `[]`), then the chain. */
  function StartWith(env: Env, m: Records, trace: seq<Call>): (o: (Result<Value>, Outcome<Value>))
  {
    var got := Resolve(env, Sync, [m], trace, AppInitializers, Fallback(List([])), false);
    if got.result.Err? then (got.result, got)
    else
      var items := Items(got.result.value);
      if items.Err? then (Err(items.error), got)
      else
        var (r, tr) := Chain(env, items.value, got.trace);
        (r, got.(trace := tr))
  }

  /** The import loop of `recursivelyLoadModules` from state `s` with `rest`
      still to load ends with `goal`, or has stopped there with error `r`.
      Contracts state it as `Walking(...) == true`, which keeps the verifier
      from splitting it into its conjuncts at every call. */
  ghost predicate Walking(cat: Catalog, ann: Annotated, rank: Fn -> nat, env: Env, goal: (Result<()>, Loading), s: Loading, rest: seq<Import>, bound: nat, r: Result<()>)
  {
    Ranked(cat, rank) && |s.chain| == 1 && (forall k :: 0 <= k < |rest| ==> rank(rest[k].moduleType) < bound) &&
    if r.Ok? then r == Ok(()) && LoadImports(cat, ann, rank, env, s, rest, bound) == goal else goal == (r, s)
  }

  lemma WalkOn(cat: Catalog, ann: Annotated, rank: Fn -> nat, env: Env, goal: (Result<()>, Loading), s: Loading, rest: seq<Import>, bound: nat)
    requires rest != [] && Walking(cat, ann, rank, env, goal, s, rest, bound, Ok(()))
    ensures var o := LoadModule(cat, ann, rank, env, s, rest[0].moduleType);
      Walking(cat, ann, rank, env, goal, o.1, if o.0.Ok? then rest[1..] else rest, bound, o.0)
  {
    var o := LoadModule(cat, ann, rank, env, s, rest[0].moduleType);
    assert LoadImports(cat, ann, rank, env, s, rest, bound) == if o.0.Err? then o else LoadImports(cat, ann, rank, env, o.1, rest[1..], bound);
    if o.0.Ok? {
      assert o.0.value == ();
      assert o.0 == Ok(());
      assert forall k :: 0 <= k < |rest[1..]| ==> rest[1..][k] == rest[k + 1];
    }
  }

  class LegacyApplication {
    /** `mainModuleClass` */
    const main: Fn
    /** `_modules` */
    var modules: map<Fn, ModuleRef>
    /** `_injector` */
    var injector: StaticInjector?
    /** The keys of `_modules` in insertion order, their refs, and the refs'
        injectors. */
    ghost var order: seq<Fn>
    ghost var refs: seq<ModuleRef>
    ghost var children: seq<StaticInjector>

    /** The object holds loading state `st`: the root table, then each
        loaded class with its ref, its instance and its injector, a child of
        the root holding only the ref. */
    ghost predicate Holds(cat: Catalog, st: Loading)
      reads this, injector, refs, children
    {
      injector != null && injector.Valid() && injector.parent == null &&
      st.chain == [injector.records] &&
      order == st.types && |refs| == |order| && |children| == |order| && |st.instances| == |order| &&
      NoDup(order) && (forall t :: t in modules <==> t in order) &&
      forall k :: 0 <= k < |order| ==>
        order[k] in modules && modules[order[k]] == refs[k] && refs[k].moduleType == order[k] && cat(order[k]) == Some(refs[k].meta) &&
        refs[k].instance == st.instances[k] && refs[k].injector == children[k] &&
        children[k] != injector && children[k].parent == injector && children[k].records == RefRecords(children[k], refs[k])
    }

    constructor (main: Fn)
      ensures this.main == main && modules == map[] && injector == null
      ensures order == [] && refs == [] && children == []
    {
      this.main := main;
      modules := map[];
      injector := null;
      order := [];
      refs := [];
      children := [];
    }

    /**
     * `new Application(startup)` (src/Application.ts:36-67).  `root` is the
     * root injector once the provider list is flattened.
     */
    static method Bootstrap(cat: Catalog, ann: Annotated, ghost rank: Fn -> nat, env: Env, main: Fn, trace: seq<Call>)
      returns (r: Result<LegacyApplication>, tr: seq<Call>, ghost root: object)
      requires Ranked(cat, rank)
      ensures var o := Boot(cat, ann, rank, env, main, trace, root);
        r.Ok? == o.0.Ok? && (r.Err? ==> r.error == o.0.error) && tr == o.1.trace &&
        (r.Ok? ==> fresh(r.value) && r.value.main == main && r.value.injector == root && r.value.Holds(cat, o.1))
    {
      var app := new LegacyApplication(main);
      root := app;
      var providers := app.GetModuleProviders(cat, ann, rank, Import(main, []), RootProviders());
      if providers.Err? {
        return Err(providers.error), trace, root;
      }
      var created, made := StaticInjector.Create(env, Legacy, Group(providers.value), null);
      root := made;
      if created.Err? {
        return Err(created.error), trace, root;
      }
      app.injector := created.value;
      var loaded;
      loaded, tr := app.LoadModules(cat, ann, rank, env, main, trace, Loading([made.records], trace, [], []));
      if loaded.Err? {
        return Err(loaded.error), tr, root;
      }
      r := Ok(app);
    }

    /** recursivelyGetModuleProviders (src/Application.ts:154-199). */
    method GetModuleProviders(cat: Catalog, ann: Annotated, ghost rank: Fn -> nat, imp: Import, out: seq<Provider>)
      returns (r: Result<seq<Provider>>)
      requires Ranked(cat, rank)
      ensures r == Gather(cat, ann, rank, imp, out)
      decreases rank(imp.moduleType), 1
    {
      var t := imp.moduleType;
      if !ann(t) {
        return Err(NoLength);
      }
      if cat(t).None? {
        return Ok(out);
      }
      var mod := cat(t).value;
      r := GetImportProviders(cat, ann, rank, mod.imports, out, rank(t));
      if r.Err? {
        return;
      }
      var appended := AppendMissing(r.value, imp.extra + mod.providers);
      r := Ok(appended);
    }

    /** The loop over the imports (src/Application.ts:180-184). */
    method GetImportProviders(cat: Catalog, ann: Annotated, ghost rank: Fn -> nat, imports: seq<Import>, out: seq<Provider>, ghost bound: nat)
      returns (r: Result<seq<Provider>>)
      requires Ranked(cat, rank)
      requires forall k :: 0 <= k < |imports| ==> rank(imports[k].moduleType) < bound
      ensures r == GatherAll(cat, ann, rank, imports, out, bound)
      decreases bound, 0
    {
      r := Ok(out);
      var j := 0;
      while j < |imports| && r.Ok?
        invariant j <= |imports|
        invariant r.Ok? ==> GatherAll(cat, ann, rank, imports[j..], r.value, bound) == GatherAll(cat, ann, rank, imports, out, bound)
        invariant r.Err? ==> r == GatherAll(cat, ann, rank, imports, out, bound)
        decreases |imports| - j, if r.Ok? then 1 else 0
      {
        assert imports[j..][1..] == imports[j + 1..];
        r := GetModuleProviders(cat, ann, rank, imports[j], r.value);
        if r.Ok? {
          j := j + 1;
        }
      }
    }

    /** The de-duplicating append (src/Application.ts:187-193). */
    method AppendMissing(out: seq<Provider>, providers: seq<Provider>) returns (r: seq<Provider>)
      ensures r == AppendNew(out, providers)
    {
      r := out;
      var j := 0;
      while j < |providers|
        invariant j <= |providers| && AppendNew(r, providers[j..]) == AppendNew(out, providers)
      {
        assert providers[j..][1..] == providers[j + 1..];
        if providers[j] !in r {
          r := r + [providers[j]];
        }
        j := j + 1;
      }
    }

    /** recursivelyLoadModules (src/Application.ts:104-152). */
    method LoadModules(cat: Catalog, ann: Annotated, ghost rank: Fn -> nat, env: Env, t: Fn, trace: seq<Call>, ghost st: Loading)
      returns (r: Result<()>, tr: seq<Call>)
      requires Ranked(cat, rank) && Holds(cat, st) && st.trace == trace
      modifies this`modules, this`order, this`refs, this`children, injector`records
      ensures var o := LoadModule(cat, ann, rank, env, st, t);
        r == o.0 && tr == o.1.trace && injector == old(injector) && Holds(cat, o.1)
      decreases rank(t), 2
    {
      if !ann(t) {
        return Err(NoLength), trace;
      }
      if cat(t).None? || t in modules {
        return Ok(()), trace;
      }
      var instance;
      instance, tr := Instanciate(env, trace, t, st, cat);
      if instance.Err? {
        return Err(instance.error), tr;
      }
      AddRef(env, cat, t, instance.value, st.(chain := [injector.records], trace := tr));
      r, tr := LoadEach(cat, ann, rank, env, cat(t).value.imports, rank(t), tr,
                        Loading([injector.records], tr, st.types + [t], st.instances + [instance.value]));
    }

    /** `this._injector.instanciate(module_type)` (src/Application.ts:123). */
    method Instanciate(env: Env, trace: seq<Call>, t: Fn, ghost st: Loading, ghost cat: Catalog) returns (v: Result<Value>, tr: seq<Call>)
      requires Holds(cat, st)
      modifies injector`records
      ensures var made := Instantiation(env, Sync, st.chain, trace, t, true);
        v == made.result && tr == made.trace && [injector.records] == made.chain && Holds(cat, st.(chain := made.chain, trace := tr))
    {
      v, tr := injector.Instanciate(env, trace, t);
    }

    /** A new ref for class `t` with `instance`, its injector a child of the
        root holding only the ref, stored under `t` (src/Application.ts:125-137). */
    method AddRef(env: Env, cat: Catalog, t: Fn, instance: Value, ghost st: Loading)
      requires Holds(cat, st) && t !in modules && cat(t).Some?
      modifies this`modules, this`order, this`refs, this`children
      ensures injector == old(injector) && Holds(cat, Loading(st.chain, st.trace, st.types + [t], st.instances + [instance]))
    {
      var ref := new ModuleRef(cat(t).value, t);
      ref.instance := instance;
      var created, made := StaticInjector.Create(env, Legacy, RefProviders(ref), injector);
      RefRegisters(env, made, ref);
      ref.injector := created.value;
      modules := modules[t := ref];
      order := order + [t];
      refs := refs + [ref];
      children := children + [made];
    }

    /** `mod.imports.forEach(m => this.recursivelyLoadModules(m))`
        (src/Application.ts:140-144); a throw ends the loop. */
    method LoadEach(cat: Catalog, ann: Annotated, ghost rank: Fn -> nat, env: Env, imports: seq<Import>, ghost bound: nat, trace: seq<Call>, ghost st: Loading)
      returns (r: Result<()>, tr: seq<Call>)
      requires Ranked(cat, rank) && Holds(cat, st) && st.trace == trace
      requires forall k :: 0 <= k < |imports| ==> rank(imports[k].moduleType) < bound
      modifies this`modules, this`order, this`refs, this`children, injector`records
      ensures var o := LoadImports(cat, ann, rank, env, st, imports, bound);
        r == o.0 && tr == o.1.trace && injector == old(injector) && Holds(cat, o.1)
      decreases bound, 1
    {
      ghost var goal := LoadImports(cat, ann, rank, env, st, imports, bound);
      ghost var s := st;
      r, tr := Ok(()), trace;
      var j := 0;
      while j < |imports| && r.Ok?
        invariant j <= |imports| && injector == old(injector) && Holds(cat, s) && tr == s.trace
        invariant Walking(cat, ann, rank, env, goal, s, imports[j..], bound, r) == true
        decreases |imports| - j, if r.Ok? then 1 else 0
      {
        r, tr, s := LoadNext(cat, ann, rank, env, imports[j..], bound, tr, s, goal);
        if r.Ok? {
          assert imports[j..][1..] == imports[j + 1..];
          j := j + 1;
        }
      }
      if r.Ok? {
        assert imports[j..] == [];
      }
    }

    /** One turn of the loop: the first import of `rest` loaded. */
    method LoadNext(cat: Catalog, ann: Annotated, ghost rank: Fn -> nat, env: Env, rest: seq<Import>, ghost bound: nat, trace: seq<Call>,
                    ghost s: Loading, ghost goal: (Result<()>, Loading))
      returns (r: Result<()>, tr: seq<Call>, ghost s': Loading)
      requires rest != [] && Holds(cat, s) && s.trace == trace && Walking(cat, ann, rank, env, goal, s, rest, bound, Ok(())) == true
      modifies this`modules, this`order, this`refs, this`children, injector`records
      ensures injector == old(injector) && Holds(cat, s') && tr == s'.trace
      ensures Walking(cat, ann, rank, env, goal, s', if r.Ok? then rest[1..] else rest, bound, r) == true
      decreases bound, 0
    {
      r, tr := LoadModules(cat, ann, rank, env, rest[0].moduleType, trace, s);
      s' := LoadModule(cat, ann, rank, env, s, rest[0].moduleType).1;
      WalkOn(cat, ann, rank, env, goal, s, rest, bound);
    }

    /** start (src/Application.ts:72-97): what the returned promise settles
        to, or the error `get` throws. */
    method Start(env: Env, trace: seq<Call>) returns (r: Result<Value>, tr: seq<Call>)
      requires injector != null && injector.Valid() && injector.parent == null
      modifies injector`records
      ensures var o := StartWith(env, old(injector.records), trace);
        r == o.0 && tr == o.1.trace && injector.records == o.1.chain[0]
    {
      var got;
      got, tr := injector.Get(env, trace, AppInitializers, Fallback(List([])));
      if got.Err? {
        return got, tr;
      }
      var items := Items(got.value);
      if items.Err? {
        return Err(items.error), tr;
      }
      var initializers := items.value;
      ghost var tr0 := tr;
      r := Ok(Bool(true));
      var i := 0;
      while i < |initializers| && r.Ok?
        invariant i <= |initializers|
        invariant r.Ok? ==> r == Ok(Bool(true)) && Chain(env, initializers[i..], tr) == Chain(env, initializers, tr0)
        invariant r.Err? ==> (r, tr) == Chain(env, initializers, tr0)
        decreases |initializers| - i, if r.Ok? then 1 else 0
      {
        assert initializers[i..][1..] == initializers[i + 1..];
        if initializers[i].Promise? {
          var settled := Settle(env, initializers[i], tr);
          if settled.0.Err? {
            r := settled.0;
          }
          tr := settled.1;
        }
        if r.Ok? {
          i := i + 1;
        }
      }
      if r.Ok? {
        assert initializers[i..] == [];
      }
    }
  }
}
