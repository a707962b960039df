/**
 * The module application of src/app/application.ts.  Construction walks the
 * `@Module()` metadata and is proved to build exactly the tree
 * `ModuleGraph.Bootstrap` computes; `start` is proved to do what
 * `AppStart.StartFrom` computes on the tables of the injector tree.
 */
module App {
  import opened Types
  import opened Resolution
  import opened Registration
  import opened RegistrationFacts
  import opened Injection
  import opened Modules
  import opened ModuleGraph
  import opened AppStart

  /** The root provider list: `{ token: Application, value: this }`. */
  function AppProviders(app: object): (p: Provider)
    ensures p.Group? && |p.items| == 1
    ensures var b := p.items[0];
      b.Object? && b.p.token == Some(TypeToken(ApplicationClass)) && b.p.value == Some(Ref(app)) && !b.p.multi
  {
    Group([Binding(TypeToken(ApplicationClass), Ref(app))])
  }

  /** The application injector holds itself and the application. */
  lemma AppRegisters(env: Env, inj: object, app: object)
    ensures Register(env, Current, SelfRecords(inj), AppProviders(app)) ==
      Ok(SelfRecords(inj)[TypeToken(ApplicationClass) := Record([], Identity, Final(Ref(app)), false)])
  {
    var p := AppProviders(app).items[0];
    var rec := Record([], Identity, Final(Ref(app)), false);
    assert RecordFor(env, Current, p) == Ok(rec);
    var m1 := Register(env, Current, SelfRecords(inj), p);
    assert m1 == Ok(SelfRecords(inj)[TypeToken(ApplicationClass) := rec]);
    assert RegisterAll(env, Current, m1.value, []) == m1;
    assert AppProviders(app).items[1..] == [];
  }

  /** The parent table of every ref: that of its importer's ref, or 0 (the
      application injector) for the main ref. */
  function Up(vs: seq<Visit>): (up: seq<nat>)
    ensures |up| == |vs| && forall k :: 0 <= k < |vs| ==> up[k] == if vs[k].parent < 0 then 0 else vs[k].parent + 1
  {
    seq(|vs|, k requires 0 <= k < |vs| => if vs[k].parent < 0 then 0 else vs[k].parent + 1)
  }

  /** The import providers loop (src/app/application.ts:138-166). */
  method CollectImports(cat: Catalog, imports: seq<Import>) returns (r: Result<seq<Provider>>)
    ensures r == ImportProviders(cat, imports, [])
  {
    var providers: seq<Provider> := [];
    var loaded: seq<Fn> := [];
    var i := 0;
    assert imports[0..] == imports;
    ghost var all := ImportProviders(cat, imports, []);
    if all.Ok? {
      assert [] + all.value == all.value;
    }
    while i < |imports|
      invariant 0 <= i <= |imports|
      invariant ImportProviders(cat, imports, []) == Then(providers, ImportProviders(cat, imports[i..], loaded))
    {
      var t := imports[i].moduleType;
      assert imports[i..][0] == imports[i] && imports[i..][1..] == imports[i + 1..];
      if t in loaded {
        return Err(ImportedTwice(t));
      }
      loaded := loaded + [t];
      if cat(t).None? {
        return Err(NoModuleMetadata(t));
      }
      ghost var rest := ImportProviders(cat, imports[i + 1..], loaded);
      if rest.Ok? {
        assert providers + (cat(t).value.providers + imports[i].extra + rest.value) ==
          (providers + (cat(t).value.providers + imports[i].extra)) + rest.value;
      }
      providers := providers + (cat(t).value.providers + imports[i].extra);
      i := i + 1;
    }
    assert imports[i..] == [] && providers + [] == providers;
    return Ok(providers);
  }

  /** `r` with `prefix` in front of its value. */
  function Then(prefix: seq<Provider>, r: Result<seq<Provider>>): (p: Result<seq<Provider>>)
    ensures p.Ok? == r.Ok? && (r.Ok? ==> p.value == prefix + r.value) && (r.Err? ==> p.error == r.error)
  {
    if r.Ok? then Ok(prefix + r.value) else r
  }

  /** No element occurs twice. */
  ghost predicate Unique<T>(s: seq<T>)
  {
    forall a, b :: 0 <= a < b < |s| ==> Apart(s, a, b)
  }

  ghost predicate Apart<T>(s: seq<T>, a: int, b: int)
  {
    0 <= a < |s| && 0 <= b < |s| && s[a] != s[b]
  }

  lemma UniqueAt<T>(s: seq<T>, i: nat)
    requires Unique(s) && i < |s|
    ensures forall k :: 0 <= k < |s| && k != i ==> s[k] != s[i]
  {
    forall k | 0 <= k < |s| && k != i
      ensures s[k] != s[i]
    {
      if k < i { assert Apart(s, k, i); } else { assert Apart(s, i, k); }
    }
  }

  lemma UniqueDistinct<T>(s: seq<T>)
    requires Unique(s)
    ensures forall a, b :: 0 <= a < b < |s| ==> s[a] != s[b]
  {
    forall a, b | 0 <= a < b < |s|
      ensures s[a] != s[b]
    {
      assert Apart(s, a, b);
    }
  }

  lemma UniqueAppend<T>(s: seq<T>, x: T)
    requires Unique(s) && x !in s
    ensures Unique(s + [x])
  {
    forall a, b | 0 <= a < b < |s| + 1
      ensures Apart(s + [x], a, b)
    {
      assert (s + [x])[a] == s[a];
      if b < |s| {
        assert Apart(s, a, b);
        assert (s + [x])[b] == s[b];
      }
    }
  }

  /** `inj` holds what registering `providers` after its self record gives. */
  ghost predicate Holds(env: Env, inj: StaticInjector, providers: Provider)
    reads inj
  {
    Register(env, Current, SelfRecords(inj), providers) == Ok(inj.records)
  }

  /**
   * One injector per ref, after the application injector; the main ref's
   * parent is the application injector and every other ref's is an earlier
   * ref's; injectors and refs are all distinct.
   */
  ghost predicate Shaped(root: StaticInjector?, modules: seq<ModuleRef>, nodes: seq<StaticInjector>, visits: seq<Visit>)
    reads modules`injector
  {
    |nodes| == |modules| + 1 && |visits| == |modules| &&
    root != null && nodes[0] == root && root.parent == null &&
    (forall n :: 0 <= n < |nodes| ==> nodes[n].Valid()) &&
    (forall k :: 0 <= k < |modules| ==>
       modules[k].injector == nodes[k + 1] && modules[k].moduleType == visits[k].moduleType &&
       -1 <= visits[k].parent < k && nodes[k + 1].parent == nodes[visits[k].parent + 1]) &&
    Unique(nodes) && Unique(modules)
  }

  lemma ShapedAppend(root: StaticInjector?, modules: seq<ModuleRef>, nodes: seq<StaticInjector>, visits: seq<Visit>,
                     ref: ModuleRef, inj: StaticInjector, visit: Visit)
    requires Shaped(root, modules, nodes, visits) && ref !in modules && inj !in nodes
    requires ref.injector == inj && ref.moduleType == visit.moduleType && inj.Valid()
    requires -1 <= visit.parent < |modules| && inj.parent == nodes[visit.parent + 1]
    ensures Shaped(root, modules + [ref], nodes + [inj], visits + [visit])
  {
    UniqueAppend(modules, ref);
    UniqueAppend(nodes, inj);
    var ms, ns, vs := modules + [ref], nodes + [inj], visits + [visit];
    forall n | 0 <= n < |ns|
      ensures ns[n].Valid()
    {
      if n < |nodes| { assert ns[n] == nodes[n]; }
    }
    forall k | 0 <= k < |ms|
      ensures ms[k].injector == ns[k + 1] && ms[k].moduleType == vs[k].moduleType
      ensures -1 <= vs[k].parent < k && ns[k + 1].parent == ns[vs[k].parent + 1]
    {
      if k < |modules| {
        assert ms[k] == modules[k] && ns[k + 1] == nodes[k + 1] && vs[k] == visits[k];
        assert ns[visits[k].parent + 1] == nodes[visits[k].parent + 1];
      }
    }
  }

  /** The application injector holds the application binding and every ref's
      injector its provider list. */
  ghost predicate Holding(env: Env, app: object, modules: seq<ModuleRef>, nodes: seq<StaticInjector>, visits: seq<Visit>)
    reads nodes
  {
    |nodes| == |modules| + 1 && |visits| == |modules| &&
    Holds(env, nodes[0], AppProviders(app)) &&
    forall k :: 0 <= k < |modules| ==> Holds(env, nodes[k + 1], InjectorProviders(visits[k], Ref(modules[k])))
  }

  lemma HoldingAppend(env: Env, app: object, modules: seq<ModuleRef>, nodes: seq<StaticInjector>, visits: seq<Visit>,
                      ref: ModuleRef, inj: StaticInjector, visit: Visit)
    requires Holding(env, app, modules, nodes, visits) && Holds(env, inj, InjectorProviders(visit, Ref(ref)))
    ensures Holding(env, app, modules + [ref], nodes + [inj], visits + [visit])
  {
    var k0 := |modules|;
    assert (modules + [ref])[k0] == ref && (nodes + [inj])[k0 + 1] == inj && (visits + [visit])[k0] == visit;
  }

  /** Appending a ref keeps every declaration's ref in place. */
  lemma MirrorAppend(declarations: map<Fn, ModuleRef>, decls: map<Fn, nat>, modules: seq<ModuleRef>, ref: ModuleRef)
    requires forall d :: d in decls ==> d in declarations && decls[d] < |modules| && declarations[d] == modules[decls[d]]
    ensures forall d :: d in decls ==> d in declarations && decls[d] < |modules + [ref]| && declarations[d] == (modules + [ref])[decls[d]]
  {
  }

  ghost function TablesOf(ns: seq<StaticInjector>): (t: seq<Records>)
    reads ns`records
    ensures |t| == |ns|
  {
    if ns == [] then [] else TablesOf(ns[..|ns| - 1]) + [ns[|ns| - 1].records]
  }

  lemma {:induction false} TablesOfAt(ns: seq<StaticInjector>)
    ensures forall n :: 0 <= n < |ns| ==> TablesOf(ns)[n] == ns[n].records
  {
    if ns != [] {
      TablesOfAt(ns[..|ns| - 1]);
    }
  }

  ghost function InstancesOf(ms: seq<ModuleRef>): (s: seq<Value>)
    reads ms`instance
    ensures |s| == |ms|
  {
    if ms == [] then [] else InstancesOf(ms[..|ms| - 1]) + [ms[|ms| - 1].instance]
  }

  lemma {:induction false} InstancesOfAt(ms: seq<ModuleRef>)
    ensures forall k :: 0 <= k < |ms| ==> InstancesOf(ms)[k] == ms[k].instance
  {
    if ms != [] {
      InstancesOfAt(ms[..|ms| - 1]);
    }
  }

  /** `TablesOf` sees only the `records` fields. */
  twostate lemma {:induction false} TablesOfKept(ns: seq<StaticInjector>)
    requires forall n :: 0 <= n < |ns| ==> old(ns[n].records) == ns[n].records
    ensures TablesOf(ns) == old(TablesOf(ns))
  {
    if ns != [] {
      TablesOfKept(ns[..|ns| - 1]);
    }
  }

  /** Loop state `s` of `start`, bound to end with `goal`: on the way,
      with `mainIndex` the last ref so far whose class is `main`, or stopped
      by error `failed`.  Contracts state it, like `Mirror` and `Inv`, as
      `Going(...) == true`, which keeps the verifier from splitting it into
      its conjuncts and unfolding the loop functions inside them at every
      call. */
  predicate Going(env: Env, goal: (Result<()>, Run), up: seq<nat>, types: seq<Fn>, s: Run, main: Fn, mainIndex: int, failed: Option<Error>)
  {
    Fits(up, types, s) &&
    if failed.None? then StartFrom(env, up, types, s) == goal && mainIndex == LastIndex(types, s.started, main)
    else goal == (Err(failed.value), s)
  }

  /** A loop of `start` that has stopped ends with `goal`. */
  lemma GoingEnds(env: Env, goal: (Result<()>, Run), up: seq<nat>, types: seq<Fn>, s: Run, main: Fn, mainIndex: int, failed: Option<Error>)
    requires Going(env, goal, up, types, s, main, mainIndex, failed) == true && (failed.None? ==> s.started == |types|)
    ensures goal.1 == s && (goal.0.Ok? <==> failed.None?) && (failed.Some? ==> goal.0.error == failed.value)
    ensures failed.None? ==> mainIndex == LastIndex(types, |types|, main)
  {
    if failed.None? {
      StartDone(env, up, types, s);
    }
  }

  /** A ref that starts keeps the loop of `start` going. */
  lemma GoingOk(env: Env, goal: (Result<()>, Run), up: seq<nat>, types: seq<Fn>, s: Run, main: Fn, mainIndex: int, st: Step)
    requires Going(env, goal, up, types, s, main, mainIndex, None) == true && s.started < |types|
    requires st == StartRef(env, s.tables, up, s.started + 1, types[s.started], s.trace) && st.result.Ok?
    ensures Going(env, goal, up, types, Run(st.tables, st.trace, s.instances[s.started := st.result.value], s.started + 1), main,
                  if types[s.started] == main then s.started else mainIndex, None)
  {
    var s' := Run(st.tables, st.trace, s.instances[s.started := st.result.value], s.started + 1);
    StartOk(env, up, types, s, st);
    GoingOn(env, goal, up, types, s', main, if types[s.started] == main then s.started else mainIndex);
  }

  /** A loop state that still ends with `goal`, with the last `main` ref so far, is on the way. */
  lemma GoingOn(env: Env, goal: (Result<()>, Run), up: seq<nat>, types: seq<Fn>, s: Run, main: Fn, mainIndex: int)
    requires Fits(up, types, s) && StartFrom(env, up, types, s) == goal && s.started > 0
    requires mainIndex == if types[s.started - 1] == main then s.started - 1 else LastIndex(types, s.started - 1, main)
    ensures Going(env, goal, up, types, s, main, mainIndex, None)
  {
  }

  /** A ref that fails stops the loop of `start` with its error. */
  lemma GoingErr(env: Env, goal: (Result<()>, Run), up: seq<nat>, types: seq<Fn>, s: Run, main: Fn, mainIndex: int, st: Step)
    requires Going(env, goal, up, types, s, main, mainIndex, None) == true && s.started < |types|
    requires st == StartRef(env, s.tables, up, s.started + 1, types[s.started], s.trace) && st.result.Err?
    ensures Going(env, goal, up, types, Run(st.tables, st.trace, s.instances, s.started), main, mainIndex, Some(st.result.error))
  {
    StartErr(env, up, types, s, st);
  }

  /** The index of the last of the first `n` classes that is `main`, or -1
      when there is none. */
  function LastIndex(types: seq<Fn>, n: nat, main: Fn): (k: int)
    requires n <= |types|
    ensures -1 <= k < n
  {
    if n == 0 then -1
    else if types[n - 1] == main then n - 1
    else LastIndex(types, n - 1, main)
  }

  /** `LastIndex` finds `main` when it is there, and nothing after it is. */
  lemma {:induction false} LastIndexIsLast(types: seq<Fn>, n: nat, main: Fn)
    requires n <= |types|
    ensures var k := LastIndex(types, n, main);
      (k >= 0 ==> types[k] == main) && (k < 0 <==> main !in types[..n]) &&
      forall j :: k < j < n ==> types[j] != main
  {
    if n > 0 {
      LastIndexIsLast(types, n - 1, main);
      assert types[..n] == types[..n - 1] + [types[n - 1]];
    }
  }

  /** The `await initializers[i]` loop of src/app/application.ts:92-95. */
  method AwaitInitializers(env: Env, v: Value, trace: seq<Call>) returns (r: Result<()>, tr: seq<Call>)
    ensures (r, tr) == Initializers(env, v, trace)
  {
    if v.Undefined? || v.Null? {
      return Err(NoLength), trace;
    }
    if !v.List? {
      return Ok(()), trace;
    }
    var items := v.items;
    var i := 0;
    tr := trace;
    assert items[0..] == items;
    while i < |items|
      invariant 0 <= i <= |items|
      invariant AwaitAll(env, items, trace) == AwaitAll(env, items[i..], tr)
    {
      assert items[i..][0] == items[i] && items[i..][1..] == items[i + 1..];
      var settled := Settle(env, items[i], tr);
      tr := settled.1;
      if settled.0.Err? {
        return Err(settled.0.error), tr;
      }
      i := i + 1;
    }
    assert items[i..] == [];
    return Ok(()), tr;
  }

  /** The body of the loop of src/app/application.ts:89-98 on one ref's
      injector, up to the assignment of the instance. */
  method PassThrough(env: Env, inj: StaticInjector, t: Fn, trace: seq<Call>) returns (v: Result<Value>, tr: seq<Call>)
    requires inj.Valid()
    modifies inj.Repr()`records
    ensures Outcome(v, inj.State(), tr) == Pass(env, old(inj.State()), t, trace)
  {
    ghost var c0 := inj.State();
    v, tr := inj.Get(env, trace, AppInitializer, Fallback(List([])));
    ghost var got := Outcome(v, inj.State(), tr);
    assert got == Resolve(env, Sync, c0, trace, AppInitializer, Fallback(List([])), false);
    if v.Err? {
      return;
    }
    inj.ReprAllocated();
    var done, tr2 := AwaitInitializers(env, v.value, tr);
    if done.Err? {
      assert Pass(env, c0, t, trace) == Outcome(Err(done.error), got.chain, tr2);
      return Err(done.error), tr2;
    }
    v, tr := inj.Instanciate(env, tr2, t);
  }

  class Application {
    /** `_main` */
    const main: Fn
    /** `_m` */
    var modules: seq<ModuleRef>
    /** `_i` */
    var injector: StaticInjector?
    /** `_d` */
    var declarations: map<Fn, ModuleRef>
    /** The refs as `ModuleGraph` describes them, by index in `_m`. */
    ghost var visits: seq<Visit>
    /** `_d` with each ref named by its index in `_m`. */
    ghost var decls: map<Fn, nat>
    /** The application injector, then each ref's injector. */
    ghost var nodes: seq<StaticInjector>

    ghost function Plan(): Loaded
      reads this`visits, this`decls
    {
      Loaded(visits, decls)
    }

    /** The shape of the tree, which `start` keeps. */
    ghost predicate Structure()
      reads this`modules, this`nodes, this`visits, this`injector, modules`injector
    {
      Shaped(injector, modules, nodes, visits)
    }

    /** Every injector holds what its provider list registers. */
    ghost predicate Registered(env: Env)
      reads this`modules, this`nodes, this`visits, nodes
    {
      Holding(env, this, modules, nodes, visits)
    }

    /** `_d` maps each declared class to the ref `decls` names. */
    ghost predicate DeclsMirror()
      reads this`declarations, this`decls, this`modules
    {
      (forall d :: d in declarations <==> d in decls) &&
      (forall d :: d in decls ==> decls[d] < |modules| && declarations[d] == modules[decls[d]])
    }

    /** What construction leaves. */
    ghost predicate Built(env: Env)
      reads this, modules`injector, nodes
    {
      Structure() && Registered(env) && DeclsMirror()
    }

    /** The record tables of the tree, application injector first. */
    ghost function Tables(): (t: seq<Records>)
      reads this`nodes, nodes`records
      ensures |t| == |nodes|
    {
      TablesOf(nodes)
    }

    /** What `Tables` holds, injector by injector. */
    lemma TablesAt()
      ensures forall n :: 0 <= n < |nodes| ==> Tables()[n] == nodes[n].records
    {
      TablesOfAt(nodes);
    }

    /** The `instance` of every ref. */
    ghost function Instances(): (s: seq<Value>)
      reads this`modules, modules`instance
      ensures |s| == |modules|
    {
      InstancesOf(modules)
    }

    /** What `Instances` holds, ref by ref. */
    lemma InstancesAt()
      ensures forall k :: 0 <= k < |modules| ==> Instances()[k] == modules[k].instance
    {
      InstancesOfAt(modules);
    }

    /** `Instances()` is the sequence that agrees with every ref's instance. */
    lemma InstancesAre(xs: seq<Value>)
      requires |xs| == |modules| && forall k :: 0 <= k < |modules| ==> modules[k].instance == xs[k]
      ensures Instances() == xs
    {
      InstancesAt();
    }

    /** The root injector (src/app/application.ts:38-47). */
    constructor (env: Env, main: Fn)
      ensures this.main == main && modules == [] && declarations == map[] && Plan() == Loaded([], map[])
      ensures Built(env)
    {
      this.main := main;
      modules := [];
      injector := null;
      declarations := map[];
      visits := [];
      decls := map[];
      nodes := [];
      new;
      var created, made := StaticInjector.Create(env, Current, AppProviders(this), null);
      AppRegisters(env, made, this);
      injector := created.value;
      nodes := [injector];
    }

    /**
     * `new Application(startup)` (src/app/application.ts:36-55): the root
     * injector, then the main module's metadata, whose absence throws, then
     * `_rlm` from the main module with its own providers.
     */
    static method Bootstrap(cat: Catalog, ghost rank: Fn -> nat, env: Env, main: Fn) returns (r: Result<Application>)
      requires Ranked(cat, rank)
      ensures var expected := ModuleGraph.Bootstrap(cat, rank, env, main);
        r.Ok? == expected.Ok? && (r.Err? ==> r.error == expected.error) &&
        (r.Ok? ==> fresh(r.value) && r.value.main == main && r.value.Plan() == expected.value && r.value.Built(env))
    {
      var app := new Application(env, main);
      if cat(main).None? {
        return Err(NoModuleMetadata(main));
      }
      var loaded := app.Rlm(cat, rank, env, main, app.injector, -1, cat(main).value.providers);
      if loaded.Err? {
        return Err(loaded.error);
      }
      return Ok(app);
    }

    /**
     * `_rlm(type, parentInjector, initialProviders)`
     * (src/app/application.ts:116-200), with `parentIdx` the index in `_m`
     * of the ref whose injector is `parentInjector` (-1 for the root).
     */
    method Rlm(cat: Catalog, ghost rank: Fn -> nat, env: Env, t: Fn, parentInjector: StaticInjector, ghost parentIdx: int, initial: seq<Provider>)
      returns (r: Result<()>)
      requires Ranked(cat, rank) && Built(env)
      requires -1 <= parentIdx < |modules| && parentInjector == nodes[parentIdx + 1]
      modifies this`modules, this`nodes, this`visits, this`decls, this`declarations
      ensures var expected := Load(cat, rank, env, old(Plan()), t, parentIdx, initial);
        r.Ok? == expected.Ok? && (r.Err? ==> r.error == expected.error) &&
        (r.Ok? ==> Plan() == expected.value && Built(env) && old(modules) <= modules && old(nodes) <= nodes)
      decreases rank(t), 3
    {
      if cat(t).None? {
        return Err(NotAModule(t));
      }
      var meta := cat(t).value;
      var ref := new ModuleRef(meta, t);
      var imported := CollectImports(cat, meta.imports);
      if imported.Err? {
        return Err(imported.error);
      }
      ghost var visit := Visit(t, parentIdx, initial, imported.value);
      var created := ModuleInjector(env, ref, initial, imported.value, visit, parentInjector);
      if created.Err? {
        return Err(created.error);
      }
      r := PlaceRef(cat, rank, env, ref, created.value, visit);
    }

    /**
     * `Injector.Create(providers, parentInjector)` for a module ref
     * (src/app/application.ts:134-169): registration fails or succeeds, and
     * fails with the same error, whatever the ref's binding holds.
     */
    static method ModuleInjector(env: Env, ref: ModuleRef, initial: seq<Provider>, imported: seq<Provider>, ghost visit: Visit, parentInjector: StaticInjector)
      returns (r: Result<StaticInjector>)
      requires parentInjector.Valid() && visit.inherited == initial && visit.imported == imported
      ensures var expected := Register(env, Current, SelfShape, InjectorProviders(visit, Null));
        r.Ok? == expected.Ok? && (r.Err? ==> r.error == expected.error) &&
        (r.Ok? ==> fresh(r.value) && r.value.Valid() && r.value.parent == parentInjector &&
                   Holds(env, r.value, InjectorProviders(visit, Ref(ref))))
    {
      var created, made := StaticInjector.Create(env, Current, Group(initial + [RefBinding(Ref(ref))] + imported), parentInjector);
      ShapeAroundValue(env, Current, SelfShape, SelfRecords(made), initial, RefBinding(Null).p, RefBinding(Ref(ref)).p, imported);
      r := created;
    }

    /** The rest of `_rlm` (src/app/application.ts:171-197): the push, the
        declarations, then `_rlm` on every import with this ref's injector. */
    method PlaceRef(cat: Catalog, ghost rank: Fn -> nat, env: Env, ref: ModuleRef, inj: StaticInjector, ghost visit: Visit)
      returns (r: Result<()>)
      requires Ranked(cat, rank) && Built(env) && cat(visit.moduleType) == Some(ref.meta)
      requires ref !in modules && inj !in nodes && ref.moduleType == visit.moduleType
      requires inj.Valid() && -1 <= visit.parent < |modules| && inj.parent == nodes[visit.parent + 1]
      requires Holds(env, inj, InjectorProviders(visit, Ref(ref)))
      modifies this`modules, this`nodes, this`visits, this`decls, this`declarations, ref`injector
      ensures var expected := Place(cat, rank, env, old(Plan()), visit);
        r.Ok? == expected.Ok? && (r.Err? ==> r.error == expected.error) &&
        (r.Ok? ==> Plan() == expected.value && Built(env) && old(modules) <= modules && old(nodes) <= nodes)
      decreases rank(visit.moduleType), 2
    {
      ghost var st := Plan();
      Push(env, ref, inj, visit);
      assert |st.visits| == |modules| - 1 && Plan() == Loaded(st.visits + [visit], st.decls);
      r := Settle(cat, rank, env, ref, inj, visit.moduleType, |modules| - 1);
    }

    /** The declarations, then the imports, of ref `i` just pushed
        (src/app/application.ts:177-197). */
    method Settle(cat: Catalog, ghost rank: Fn -> nat, env: Env, ref: ModuleRef, inj: StaticInjector, ghost t: Fn, ghost i: nat)
      returns (r: Result<()>)
      requires Ranked(cat, rank) && Built(env) && cat(t) == Some(ref.meta)
      requires i == |modules| - 1 && ref == modules[i] && nodes[i + 1] == inj
      modifies this`modules, this`nodes, this`visits, this`decls, this`declarations
      ensures var d := Declare(old(decls), ref.meta.declarations, i);
        var expected := if d.Err? then Err(d.error) else LoadAll(cat, rank, env, Loaded(old(visits), d.value), ref.meta.imports, i, rank(t));
        r.Ok? == expected.Ok? && (r.Err? ==> r.error == expected.error) &&
        (r.Ok? ==> Plan() == expected.value && Built(env) && old(modules) <= modules && old(nodes) <= nodes)
      decreases rank(t), 1
    {
      var meta := ref.meta;
      r := DeclareAll(ref, meta.declarations);
      if r.Err? {
        return;
      }
      r := LoadImports(cat, rank, env, meta.imports, i, inj, rank(t));
    }

    /** `mod.imports.forEach(m => this._rlm(m, injector))`
        (src/app/application.ts:193-197), `inj` being ref `i`'s injector. */
    method LoadImports(cat: Catalog, ghost rank: Fn -> nat, env: Env, imports: seq<Import>, ghost i: nat, inj: StaticInjector, ghost bound: nat)
      returns (r: Result<()>)
      requires Ranked(cat, rank) && Built(env)
      requires forall k :: 0 <= k < |imports| ==> rank(imports[k].moduleType) < bound
      requires i < |modules| && nodes[i + 1] == inj
      modifies this`modules, this`nodes, this`visits, this`decls, this`declarations
      ensures var expected := LoadAll(cat, rank, env, old(Plan()), imports, i, bound);
        r.Ok? == expected.Ok? && (r.Err? ==> r.error == expected.error) &&
        (r.Ok? ==> Plan() == expected.value && Built(env) && old(modules) <= modules && old(nodes) <= nodes)
      decreases bound, 0
    {
      var k := 0;
      assert imports[0..] == imports;
      while k < |imports|
        invariant 0 <= k <= |imports|
        invariant Built(env) && old(modules) <= modules && old(nodes) <= nodes
        invariant LoadAll(cat, rank, env, old(Plan()), imports, i, bound) ==
          LoadAll(cat, rank, env, Plan(), imports[k..], i, bound)
      {
        assert imports[k..][0] == imports[k] && imports[k..][1..] == imports[k + 1..];
        r := Rlm(cat, rank, env, imports[k].moduleType, inj, i, []);
        if r.Err? {
          return;
        }
        k := k + 1;
      }
      assert imports[k..] == [];
      r := Ok(());
    }

    /** `ref.injector = injector; this._m.push(ref)`
        (src/app/application.ts:172-175). */
    method Push(ghost env: Env, ref: ModuleRef, inj: StaticInjector, ghost visit: Visit)
      requires Built(env) && ref !in modules && inj !in nodes && ref.moduleType == visit.moduleType
      requires inj.Valid() && -1 <= visit.parent < |modules| && inj.parent == nodes[visit.parent + 1]
      requires Holds(env, inj, InjectorProviders(visit, Ref(ref)))
      modifies this`modules, this`nodes, this`visits, ref`injector
      ensures ref.injector == inj
      ensures modules == old(modules) + [ref] && nodes == old(nodes) + [inj] && visits == old(visits) + [visit]
      ensures Built(env)
    {
      ghost var ms, ns, vs := modules, nodes, visits;
      ref.injector := inj;
      modules := modules + [ref];
      nodes := nodes + [inj];
      visits := visits + [visit];
      ShapedAppend(injector, ms, ns, vs, ref, inj, visit);
      HoldingAppend(env, this, ms, ns, vs, ref, inj, visit);
      MirrorAppend(declarations, decls, ms, ref);
    }

    /** The declarations loop (src/app/application.ts:177-189) for the ref
        just pushed. */
    method DeclareAll(ref: ModuleRef, types: seq<Fn>) returns (r: Result<()>)
      requires |modules| > 0 && ref == modules[|modules| - 1] && DeclsMirror()
      modifies this`declarations, this`decls
      ensures var expected := Declare(old(decls), types, |modules| - 1);
        r.Ok? == expected.Ok? && (r.Err? ==> r.error == expected.error) &&
        (r.Ok? ==> decls == expected.value && DeclsMirror())
    {
      ghost var i := |modules| - 1;
      var j := 0;
      assert types[0..] == types;
      while j < |types|
        invariant 0 <= j <= |types| && DeclsMirror()
        invariant Declare(old(decls), types, i) == Declare(decls, types[j..], i)
      {
        var decl := types[j];
        assert types[j..][0] == decl && types[j..][1..] == types[j + 1..];
        if decl in declarations {
          return Err(Redeclared(decl));
        }
        declarations := declarations[decl := ref];
        decls := decls[decl := i];
        j := j + 1;
      }
      return Ok(());
    }

    /**
     * `start()` (src/app/application.ts:81-109): every ref in the order of
     * `_m` has its initializers resolved and awaited and its module class
     * instantiated through its own injector; the result is the last ref of
     * the main module.  The tables of the tree, the calls made and the refs'
     * instances are those `StartFrom` computes, the first error stopping the
     * loop.
     */
    method Start(env: Env, trace: seq<Call>) returns (r: Result<ModuleRef?>, tr: seq<Call>)
      requires Structure()
      modifies nodes`records, modules`instance
      ensures var o := StartAll(env, Up(visits), Classes(visits), old(Tables()), trace, old(Instances()));
        r.Ok? == o.0.Ok? && (r.Err? ==> r.error == o.0.error) &&
        Tables() == o.1.tables && tr == o.1.trace && Instances() == o.1.instances
      ensures var k := LastIndex(Classes(visits), |modules|, main);
        r.Ok? ==> r.value == if k < 0 then null else modules[k]
    {
      UpWell();
      var failed, mainIndex;
      ghost var o;
      failed, mainIndex, tr, o := StartLoop(env, trace, Up(visits), Classes(visits));
      if failed.Some? {
        return Err(failed.value), tr;
      }
      r := Ok(if mainIndex < 0 then null else modules[mainIndex]);
    }

    /** The tree holds loop state `s` of `start`, the trace being `tr`. */
    ghost predicate Mirror(up: seq<nat>, types: seq<Fn>, s: Run, tr: seq<Call>)
      reads this, nodes, modules
    {
      Structure() && up == Up(visits) && types == Classes(visits) && |types| == |modules| &&
      Tables() == s.tables && tr == s.trace &&
      |s.instances| == |modules| && forall k :: 0 <= k < |modules| ==> modules[k].instance == s.instances[k]
    }

    /** The loop of `start` with the tree holding loop state `s`. */
    ghost predicate Inv(env: Env, goal: (Result<()>, Run), up: seq<nat>, types: seq<Fn>, i: nat, s: Run, tr: seq<Call>, mainIndex: int, failed: Option<Error>)
      reads this, nodes, modules
    {
      i == s.started && Mirror(up, types, s, tr) && Going(env, goal, up, types, s, main, mainIndex, failed)
    }

    /** The loop of `start` (src/app/application.ts:86-104): it stops at
        the first error, or after the last ref, as `StartAll` does, and
        returns the index of the last ref whose class is the main module, or
        -1. */
    method StartLoop(env: Env, trace: seq<Call>, ghost up: seq<nat>, ghost types: seq<Fn>)
      returns (failed: Option<Error>, mainIndex: int, tr: seq<Call>, ghost o: (Result<()>, Run))
      requires Structure() && up == Up(visits) && types == Classes(visits) && WellUp(up)
      modifies nodes`records, modules`instance
      ensures o == StartAll(env, up, types, old(Tables()), trace, old(Instances()))
      ensures Tables() == o.1.tables && tr == o.1.trace && Instances() == o.1.instances
      ensures (o.0.Ok? <==> failed.None?) && (failed.Some? ==> o.0.error == failed.value)
      ensures failed.None? ==> mainIndex == LastIndex(types, |types|, main)
    {
      InstancesAt();
      ghost var s := Run(Tables(), trace, Instances(), 0);
      o := StartFrom(env, up, types, s);
      ghost var s';
      failed, mainIndex, tr, s' := Loop(env, trace, up, types, s, o);
      GoingEnds(env, o, up, types, s', main, mainIndex, failed);
      InstancesAre(s'.instances);
    }

    /** The `for` loop of `start` (src/app/application.ts:86-104), bound to
        end with `goal`, from loop state `s`. */
    method Loop(env: Env, trace: seq<Call>, ghost up: seq<nat>, ghost types: seq<Fn>, ghost s: Run, ghost goal: (Result<()>, Run))
      returns (failed: Option<Error>, mainIndex: int, tr: seq<Call>, ghost s': Run)
      requires Inv(env, goal, up, types, 0, s, trace, -1, None) == true
      modifies nodes`records, modules`instance
      ensures Inv(env, goal, up, types, s'.started, s', tr, mainIndex, failed) == true
      ensures failed.None? ==> s'.started == |modules|
    {
      failed := None;
      mainIndex := -1;
      tr := trace;
      s' := s;
      var i := 0;
      while i < |modules| && failed.None?
        invariant i <= |modules| && Inv(env, goal, up, types, i, s', tr, mainIndex, failed) == true
        decreases |modules| - i, if failed.None? then 1 else 0
      {
        i, tr, mainIndex, failed, s' := Turn(env, i, tr, up, types, s', goal, mainIndex);
      }
    }

    /** One turn of the loop of `start` (src/app/application.ts:87-99). */
    method Turn(env: Env, i: nat, trace: seq<Call>, ghost up: seq<nat>, ghost types: seq<Fn>, ghost s: Run, ghost goal: (Result<()>, Run), mainIndex: int)
      returns (i': nat, tr: seq<Call>, mainIndex': int, failed: Option<Error>, ghost s': Run)
      requires i < |modules| && Inv(env, goal, up, types, i, s, trace, mainIndex, None) == true
      modifies nodes`records, modules`instance
      ensures i' <= |modules| && Inv(env, goal, up, types, i', s', tr, mainIndex', failed) == true
      ensures if failed.None? then i' == i + 1 else i' == i
    {
      ghost var st;
      var v, t;
      v, tr, t, st, s' := StartAt(env, i, trace, s, up, types);
      i' := if v.Ok? then i + 1 else i;
      mainIndex' := if v.Ok? && t == main then i else mainIndex;
      failed := if v.Ok? then None else Some(v.error);
      Packed(env, goal, up, types, s, st, t, s', tr, mainIndex, mainIndex', failed);
    }

    /** The loop invariant of `start` again, after one more ref `s.started`
        ran pass `st`. */
    lemma Packed(env: Env, goal: (Result<()>, Run), up: seq<nat>, types: seq<Fn>, s: Run, st: Step, t: Fn, s': Run, tr: seq<Call>,
                 mainIndex: int, mainIndex': int, failed: Option<Error>)
      requires Going(env, goal, up, types, s, main, mainIndex, None) == true && s.started < |types| && t == types[s.started]
      requires st == StartRef(env, s.tables, up, s.started + 1, types[s.started], s.trace)
      requires s' == if st.result.Ok? then Run(st.tables, st.trace, s.instances[s.started := st.result.value], s.started + 1) else Run(st.tables, st.trace, s.instances, s.started)
      requires Mirror(up, types, s', tr) == true
      requires mainIndex' == (if st.result.Ok? && t == main then s.started else mainIndex)
      requires failed == (if st.result.Ok? then None else Some(st.result.error))
      ensures Inv(env, goal, up, types, s'.started, s', tr, mainIndex', failed) == true
    {
      if st.result.Ok? {
        GoingOk(env, goal, up, types, s, main, mainIndex, st);
      } else {
        GoingErr(env, goal, up, types, s, main, mainIndex, st);
      }
    }

    /** Ref `i` started from loop state `s`: its pass `st`, then its
        instance when the pass succeeded. */
    method StartAt(env: Env, i: nat, trace: seq<Call>, ghost s: Run, ghost up: seq<nat>, ghost types: seq<Fn>)
      returns (v: Result<Value>, tr: seq<Call>, t: Fn, ghost st: Step, ghost s': Run)
      requires i == s.started < |modules| && Mirror(up, types, s, trace) == true
      modifies nodes`records, modules`instance
      ensures i < |types| && t == types[i]
      ensures st == StartRef(env, s.tables, up, s.started + 1, types[s.started], s.trace) && v == st.result
      ensures s' == if v.Ok? then Run(st.tables, st.trace, s.instances[i := v.value], i + 1) else Run(st.tables, st.trace, s.instances, i)
      ensures Mirror(up, types, s', tr) == true
    {
      t := modules[i].moduleType;
      v, tr, st := StartModule(env, i, trace, s, up, types);
      if v.Ok? {
        SetInstance(i, v.value, up, types, Run(st.tables, st.trace, s.instances, i), tr);
        s' := Run(st.tables, st.trace, s.instances[i := v.value], i + 1);
      } else {
        s' := Run(st.tables, st.trace, s.instances, i);
      }
    }

    /** `ref.instance = ...` for ref `i` (src/app/application.ts:98), the
        tree holding loop state `s` before. */
    method SetInstance(i: nat, v: Value, ghost up: seq<nat>, ghost types: seq<Fn>, ghost s: Run, ghost tr: seq<Call>)
      requires i == s.started < |modules| && Mirror(up, types, s, tr) == true
      modifies modules`instance
      ensures Structure() && Tables() == old(Tables())
      ensures forall k :: 0 <= k < |modules| ==> modules[k].instance == if k == i then v else old(modules[k].instance)
      ensures Mirror(up, types, Run(s.tables, s.trace, s.instances[i := v], i + 1), tr) == true
    {
      UniqueAt(modules, i);
      modules[i].instance := v;
      TablesOfKept(nodes);
    }

    /** One pass of the loop of `start` for ref `i`
        (src/app/application.ts:86-99), up to the assignment of the instance,
        on the whole tree, which holds loop state `s` before it. */
    method StartModule(env: Env, i: nat, trace: seq<Call>, ghost s: Run, ghost up: seq<nat>, ghost types: seq<Fn>)
      returns (v: Result<Value>, tr: seq<Call>, ghost st: Step)
      requires i == s.started < |modules| && Mirror(up, types, s, trace) == true
      modifies nodes`records
      ensures Mirror(up, types, Run(st.tables, st.trace, s.instances, i), tr) == true && v == st.result
      ensures WellUp(up) && |s.tables| == |up| + 1
      ensures st == StartRef(env, s.tables, up, s.started + 1, types[s.started], s.trace)
    {
      v, tr := PassAt(env, i, trace, s.tables, up, types[s.started]);
      st := Step(v, Tables(), tr);
      KeptMirror(s.instances);
    }

    /** The refs keep the instances `xs` while no instance changes. */
    twostate lemma KeptMirror(xs: seq<Value>)
      requires old(modules) == modules
      requires old(|xs| == |modules| && forall k :: 0 <= k < |modules| ==> modules[k].instance == xs[k])
      requires forall k :: 0 <= k < |modules| ==> old(modules[k].instance) == modules[k].instance
      ensures |xs| == |modules| && forall k :: 0 <= k < |modules| ==> modules[k].instance == xs[k]
    {
    }

    /** The pass of ref `i` through its own injector: only the injectors on
        the way from it to the root change. */
    method PassAt(env: Env, i: nat, trace: seq<Call>, ghost t0: seq<Records>, ghost up: seq<nat>, ghost t: Fn) returns (v: Result<Value>, tr: seq<Call>)
      requires Structure() && i < |modules| && t0 == Tables() && up == Up(visits) && t == visits[i].moduleType
      modifies nodes`records
      ensures Structure() && WellUp(up) && |t0| == |up| + 1 && i + 1 < |t0|
      ensures Outcome(v, Chain(Tables(), up, i + 1), tr) == Pass(env, Chain(t0, up, i + 1), t, trace)
      ensures Tables() == Writeback(t0, up, i + 1, Chain(Tables(), up, i + 1))
    {
      TablesAt();
      v, tr := PassOn(env, i, trace, t0, up, t);
      TablesAfter(i + 1);
    }

    /** The pass of ref `i` through its own injector, on the chain of `t0`
        from it: only the injectors on the way to the root change. */
    method PassOn(env: Env, i: nat, trace: seq<Call>, ghost t0: seq<Records>, ghost up: seq<nat>, ghost t: Fn) returns (v: Result<Value>, tr: seq<Call>)
      requires Structure() && i < |modules| && t0 == Tables() && up == Up(visits) && t == visits[i].moduleType
      modifies nodes`records
      ensures Structure() && WellUp(up) && |t0| == |up| + 1
      ensures Outcome(v, nodes[i + 1].State(), tr) == Pass(env, Chain(t0, up, i + 1), t, trace)
      ensures forall m :: 0 <= m < |nodes| && !OnPath(up, i + 1, m) ==> unchanged(nodes[m])
    {
      StateIsChain(i + 1);
      ReprOnPath(i + 1);
      var ref := modules[i];
      v, tr := PassThrough(env, ref.injector, ref.moduleType, trace);
    }

    lemma UpWell()
      requires Structure()
      ensures WellUp(Up(visits)) && |Up(visits)| == |modules|
    {
    }

    /** Injector `n` resolves on the chain of tables from `n` to the root. */
    lemma {:induction false} StateIsChain(n: nat)
      requires Structure() && n < |nodes|
      ensures WellUp(Up(visits)) && nodes[n].State() == Chain(Tables(), Up(visits), n)
      decreases n
    {
      UpWell();
      TablesAt();
      if n > 0 {
        var p := Up(visits)[n - 1];
        StateIsChain(p);
        assert nodes[n].parent == nodes[p];
      }
    }

    /** What a resolution through injector `n` may change: the injectors on
        the way from `n` to the root. */
    lemma {:induction false} ReprOnPath(n: nat)
      requires Structure() && n < |nodes|
      ensures WellUp(Up(visits))
      ensures forall x :: x in nodes[n].Repr() ==> x in nodes
      ensures forall m :: 0 <= m < |nodes| && !OnPath(Up(visits), n, m) ==> nodes[m] !in nodes[n].Repr()
      decreases n
    {
      UpWell();
      UniqueDistinct(nodes);
      if n > 0 {
        var p := Up(visits)[n - 1];
        ReprOnPath(p);
        assert nodes[n].parent == nodes[p];
      }
    }

    /** The tables after a resolution through injector `n`, when only the
        injectors on the way have changed. */
    twostate lemma TablesAfter(n: nat)
      requires old(Structure()) && Structure() && unchanged(this)
      requires n < |nodes| && WellUp(Up(visits))
      requires forall m :: 0 <= m < |nodes| ==> old(Tables()[m]) == old(nodes[m].records)
      requires forall m :: 0 <= m < |nodes| && !OnPath(Up(visits), n, m) ==> unchanged(nodes[m])
      ensures nodes[n].State() == Chain(Tables(), Up(visits), n)
      ensures Tables() == Writeback(old(Tables()), Up(visits), n, nodes[n].State())
    {
      StateIsChain(n);
      TablesAt();
      WritebackUnique(old(Tables()), Up(visits), n, Tables());
    }
  }
}
