/**
 * What the construction of an application (src/app/application.ts:36-200)
 * guarantees about its module tree: the checks on `imports` and
 * `declarations`, the pre-order of `_m`, where each injector sits and what it
 * is given.
 */
module ModuleGraphFacts {
  import opened Types
  import opened Resolution
  import opened Registration
  import opened RegistrationFacts
  import opened Modules
  import opened ModuleGraph

  // ---------------------------------------------------------------------------
  // One `imports` list.

  /** Every import of the list carries `@Module()` metadata. */
  predicate AllModules(cat: Catalog, imports: seq<Import>)
  {
    forall k :: 0 <= k < |imports| ==> cat(imports[k].moduleType).Some?
  }

  /** A list with a head is distinct when its head is not in its tail and its
      tail is distinct. */
  lemma DistinctCons(t: Fn, s: seq<Fn>)
    ensures Distinct([t] + s) <==> t !in s && Distinct(s)
  {
    var ts := [t] + s;
    if t in s {
      var k :| 0 <= k < |s| && s[k] == t;
      assert ts[0] == ts[k + 1];
    } else if !Distinct(s) {
      var a, b :| 0 <= a < b < |s| && s[a] == s[b];
      assert ts[a + 1] == ts[b + 1];
    } else {
      forall a, b | 0 <= a < b < |ts| ensures ts[a] != ts[b] {
        assert ts[b] == s[b - 1];
        if a > 0 { assert ts[a] == s[a - 1]; }
      }
    }
  }

  /**
   * The import loop succeeds exactly when no class occurs twice in the list,
   * none was met before it (`seen`) and every class carries `@Module()`
   * metadata (src/app/application.ts:142-164).
   */
  lemma {:induction false} ImportProvidersOk(cat: Catalog, imports: seq<Import>, seen: seq<Fn>)
    ensures ImportProviders(cat, imports, seen).Ok? <==>
      Distinct(TypesOf(imports)) && (forall x :: x in TypesOf(imports) ==> x !in seen) && AllModules(cat, imports)
    decreases |imports|
  {
    if imports != [] {
      var t := imports[0].moduleType;
      var rest := imports[1..];
      ImportProvidersOk(cat, rest, seen + [t]);
      assert TypesOf(imports) == [t] + TypesOf(rest);
      DistinctCons(t, TypesOf(rest));
      assert AllModules(cat, imports) <==> cat(t).Some? && AllModules(cat, rest) by {
        if cat(t).Some? && AllModules(cat, rest) {
          forall k | 0 <= k < |imports| ensures cat(imports[k].moduleType).Some? {
            if k > 0 { assert imports[k] == rest[k - 1]; }
          }
        }
        if AllModules(cat, imports) {
          forall k | 0 <= k < |rest| ensures cat(rest[k].moduleType).Some? { assert rest[k] == imports[k + 1]; }
        }
      }
    }
  }

  /** It then yields each import's metadata providers followed by its extra
      providers, in list order; otherwise it throws one of the two errors. */
  lemma {:induction false} ImportProvidersValue(cat: Catalog, imports: seq<Import>, seen: seq<Fn>)
    ensures var r := ImportProviders(cat, imports, seen);
      (r.Ok? ==> AllModules(cat, imports) && r.value == ProvidersOf(cat, imports)) &&
      (r.Err? ==> (r.error.ImportedTwice? && r.error.t in TypesOf(imports) && (r.error.t in seen || !Distinct(TypesOf(imports)))) ||
                  (r.error.NoModuleMetadata? && r.error.t in TypesOf(imports) && cat(r.error.t).None?))
    decreases |imports|
  {
    if imports != [] {
      var t := imports[0].moduleType;
      var rest := imports[1..];
      ImportProvidersOk(cat, imports, seen);
      ImportProvidersValue(cat, rest, seen + [t]);
      assert TypesOf(imports) == [t] + TypesOf(rest);
      DistinctCons(t, TypesOf(rest));
    }
  }

  /** The top-level form: the list's classes are distinct and all modules. */
  lemma ImportCheck(cat: Catalog, imports: seq<Import>)
    ensures var r := ImportProviders(cat, imports, []);
      (r.Ok? <==> Distinct(TypesOf(imports)) && AllModules(cat, imports)) &&
      (r.Ok? ==> r.value == ProvidersOf(cat, imports))
  {
    ImportProvidersOk(cat, imports, []);
    ImportProvidersValue(cat, imports, []);
  }

  /** A class imported twice by one module is rejected
      (src/app/application.ts:147-150). */
  lemma ImportedTwiceThrows(cat: Catalog, imports: seq<Import>, a: nat, b: nat)
    requires a < b < |imports| && imports[a].moduleType == imports[b].moduleType
    ensures ImportProviders(cat, imports, []).Err?
  {
    assert !Distinct(TypesOf(imports)) by {
      assert TypesOf(imports)[a] == TypesOf(imports)[b];
    }
    ImportProvidersOk(cat, imports, []);
  }

  // ---------------------------------------------------------------------------
  // Declarations.

  /**
   * The declarations loop (src/app/application.ts:177-189) succeeds exactly
   * when no declared class is already in `_d` and none is declared twice by the
   * module; it then maps every declared class to the module's ref and keeps
   * every earlier entry.
   */
  lemma {:induction false} DeclareMeaning(decls: map<Fn, nat>, types: seq<Fn>, i: nat)
    ensures var r := Declare(decls, types, i);
      (r.Ok? <==> Distinct(types) && forall x :: x in types ==> x !in decls) &&
      (r.Ok? ==> forall d :: d in r.value <==> d in decls || d in types) &&
      (r.Ok? ==> forall d :: d in decls ==> r.value[d] == decls[d]) &&
      (r.Ok? ==> forall d :: d in types ==> r.value[d] == i) &&
      (r.Err? ==> r.error.Redeclared? && r.error.t in types)
    decreases |types|
  {
    if types != [] {
      var rest := types[1..];
      DeclareMeaning(decls[types[0] := i], rest, i);
      assert types == [types[0]] + rest;
      DistinctCons(types[0], rest);
    }
  }

  // ---------------------------------------------------------------------------
  // The errors of construction.

  /**
   * The `@Module()` check of `_rlm` (src/app/application.ts:123-125) never
   * fires: the main module's metadata is read first by the constructor
   * (line 53), and every import's by its importer's import loop (line 159),
   * both of which throw a TypeError on a class without it.
   */
  lemma NotAModuleUnreachable(cat: Catalog, rank: Fn -> nat, env: Env, main: Fn)
    requires Ranked(cat, rank)
    ensures Bootstrap(cat, rank, env, main).Err? ==> !Bootstrap(cat, rank, env, main).error.NotAModule?
  {
    if cat(main).Some? {
      LoadErrors(cat, rank, env, Loaded([], map[]), main, -1, cat(main).value.providers);
    }
  }

  lemma {:induction false} LoadErrors(cat: Catalog, rank: Fn -> nat, env: Env, st: Loaded, t: Fn, parent: int, initial: seq<Provider>)
    requires Ranked(cat, rank) && cat(t).Some?
    ensures Load(cat, rank, env, st, t, parent, initial).Err? ==> !Load(cat, rank, env, st, t, parent, initial).error.NotAModule?
    decreases rank(t), 1, 0
  {
    var meta := cat(t).value;
    ImportProvidersValue(cat, meta.imports, []);
    var imported := ImportProviders(cat, meta.imports, []);
    if imported.Ok? {
      var visit := Visit(t, parent, initial, imported.value);
      RegisterErrors(env, Current, SelfShape, InjectorProviders(visit, Null));
      DeclareMeaning(st.decls, meta.declarations, |st.visits|);
      var decls := Declare(st.decls, meta.declarations, |st.visits|);
      if Register(env, Current, SelfShape, InjectorProviders(visit, Null)).Ok? && decls.Ok? {
        LoadAllErrors(cat, rank, env, Loaded(st.visits + [visit], decls.value), meta.imports, |st.visits|, rank(t));
      }
    }
  }

  lemma {:induction false} LoadAllErrors(cat: Catalog, rank: Fn -> nat, env: Env, st: Loaded, imports: seq<Import>, parent: int, bound: nat)
    requires Ranked(cat, rank) && AllModules(cat, imports)
    requires forall k :: 0 <= k < |imports| ==> rank(imports[k].moduleType) < bound
    ensures LoadAll(cat, rank, env, st, imports, parent, bound).Err? ==> !LoadAll(cat, rank, env, st, imports, parent, bound).error.NotAModule?
    decreases bound, 0, |imports|
  {
    if imports != [] {
      LoadErrors(cat, rank, env, st, imports[0].moduleType, parent, []);
      var st1 := Load(cat, rank, env, st, imports[0].moduleType, parent, []);
      if st1.Ok? {
        assert AllModules(cat, imports[1..]) by {
          forall k | 0 <= k < |imports[1..]| ensures cat(imports[1..][k].moduleType).Some? { assert imports[1..][k] == imports[k + 1]; }
        }
        LoadAllErrors(cat, rank, env, st1.value, imports[1..], parent, bound);
      }
    }
  }

  // ---------------------------------------------------------------------------
  // The shape of `_m`.

  /** Every module below an import list ranks below the list's bound. */
  lemma {:induction false} PreOrderRanks(cat: Catalog, rank: Fn -> nat, imports: seq<Import>, bound: nat)
    requires Ranked(cat, rank)
    requires forall k :: 0 <= k < |imports| ==> rank(imports[k].moduleType) < bound
    ensures forall x :: x in PreOrderAll(cat, rank, imports, bound) ==> rank(x) < bound
    decreases bound, 0, |imports|
  {
    if imports != [] {
      var t := imports[0].moduleType;
      if cat(t).Some? {
        PreOrderRanks(cat, rank, cat(t).value.imports, rank(t));
      }
      PreOrderRanks(cat, rank, imports[1..], bound);
    }
  }

  /** Visit `j` is a module whose import providers are those of its imports. */
  ghost predicate Good(cat: Catalog, vs: seq<Visit>, j: int)
  {
    0 <= j < |vs| && cat(vs[j].moduleType).Some? && AllModules(cat, cat(vs[j].moduleType).value.imports) &&
    vs[j].imported == ProvidersOf(cat, cat(vs[j].moduleType).value.imports)
  }

  /** Visit `j` inherits nothing and was reached either from `imports` by the
      ref `parent`, or from the imports of a ref at or after `lo` before it. */
  ghost predicate Placed(cat: Catalog, vs: seq<Visit>, j: int, lo: int, parent: int, imports: seq<Import>)
  {
    0 <= j < |vs| && vs[j].inherited == [] &&
    ((vs[j].parent == parent && vs[j].moduleType in TypesOf(imports)) ||
     (lo <= vs[j].parent && 0 <= vs[j].parent < j && cat(vs[vs[j].parent].moduleType).Some? &&
      vs[j].moduleType in TypesOf(cat(vs[vs[j].parent].moduleType).value.imports)))
  }

  lemma PrefixKeeps(cat: Catalog, vs1: seq<Visit>, vs: seq<Visit>, j: int, lo: int, parent: int, imports: seq<Import>)
    requires |vs1| <= |vs| && vs[..|vs1|] == vs1 && 0 <= j < |vs1|
    ensures Good(cat, vs1, j) ==> Good(cat, vs, j)
    ensures Placed(cat, vs1, j, lo, parent, imports) ==> Placed(cat, vs, j, lo, parent, imports)
  {
    assert vs[j] == vs1[j];
    if 0 <= vs1[j].parent < j { assert vs[vs[j].parent] == vs1[vs1[j].parent]; }
  }

  lemma ClassesAppend(a: seq<Visit>, b: seq<Visit>)
    ensures Classes(a + b) == Classes(a) + Classes(b)
  {
  }

  /**
   * `_rlm(t)` pushes `t`'s ref and then, for each import in order, the refs of
   * that import's subtree: the refs it adds are the pre-order of `t`
   * (src/app/application.ts:175, 193-197).  The first is `t` with the given
   * importer and inherited providers; every later one inherits nothing and
   * has as importer an earlier ref that imports it.
   */
  lemma {:induction false} LoadTree(cat: Catalog, rank: Fn -> nat, env: Env, st: Loaded, t: Fn, parent: int, initial: seq<Provider>)
    requires Ranked(cat, rank) && Load(cat, rank, env, st, t, parent, initial).Ok?
    ensures var vs := Load(cat, rank, env, st, t, parent, initial).value.visits;
      var lo := |st.visits|;
      lo < |vs| && vs[..lo] == st.visits && Classes(vs[lo..]) == PreOrder(cat, rank, t) &&
      vs[lo].moduleType == t && vs[lo].parent == parent && vs[lo].inherited == initial && Good(cat, vs, lo) &&
      forall j :: lo < j < |vs| ==> Good(cat, vs, j) && Placed(cat, vs, j, lo, lo, cat(t).value.imports)
    decreases rank(t), 1, 0
  {
    var meta := cat(t).value;
    ImportProvidersValue(cat, meta.imports, []);
    var imported := ImportProviders(cat, meta.imports, []).value;
    var visit := Visit(t, parent, initial, imported);
    var lo := |st.visits|;
    var decls := Declare(st.decls, meta.declarations, lo).value;
    var st2 := Loaded(st.visits + [visit], decls);
    LoadAllTree(cat, rank, env, st2, meta.imports, lo, rank(t));
    var vs := Load(cat, rank, env, st, t, parent, initial).value.visits;
    assert vs == LoadAll(cat, rank, env, st2, meta.imports, lo, rank(t)).value.visits;
    PushedFirst(st.visits, visit, vs);
    ClassesAppend([visit], vs[lo + 1..]);
    assert Classes(vs[lo..]) == PreOrder(cat, rank, t);
    forall j | lo < j < |vs| ensures Good(cat, vs, j) && Placed(cat, vs, j, lo, lo, meta.imports) {
      assert Placed(cat, vs, j, lo + 1, lo, meta.imports);
    }
  }

  /** A list that extends `visits + [visit]`. */
  lemma PushedFirst(visits: seq<Visit>, visit: Visit, vs: seq<Visit>)
    requires |visits| + 1 <= |vs| && vs[..|visits + [visit]|] == visits + [visit]
    ensures vs[|visits|] == visit && vs[..|visits|] == visits && vs[|visits|..] == [visit] + vs[|visits| + 1..]
  {
    var lo := |visits|;
    assert vs[lo] == visit by { assert vs[..lo + 1][lo] == visit; }
    assert vs[..lo] == visits by { assert vs[..lo] == vs[..lo + 1][..lo]; }
  }

  lemma {:induction false} LoadAllTree(cat: Catalog, rank: Fn -> nat, env: Env, st: Loaded, imports: seq<Import>, parent: int, bound: nat)
    requires Ranked(cat, rank)
    requires forall k :: 0 <= k < |imports| ==> rank(imports[k].moduleType) < bound
    requires LoadAll(cat, rank, env, st, imports, parent, bound).Ok?
    ensures var vs := LoadAll(cat, rank, env, st, imports, parent, bound).value.visits;
      var lo := |st.visits|;
      lo <= |vs| && vs[..lo] == st.visits && Classes(vs[lo..]) == PreOrderAll(cat, rank, imports, bound) &&
      forall j :: lo <= j < |vs| ==> Good(cat, vs, j) && Placed(cat, vs, j, lo, parent, imports)
    decreases bound, 0, |imports|
  {
    var lo := |st.visits|;
    if imports == [] {
      assert st.visits[lo..] == [];
    } else {
      var t := imports[0].moduleType;
      LoadTree(cat, rank, env, st, t, parent, []);
      var st1 := Load(cat, rank, env, st, t, parent, []).value;
      var vs1 := st1.visits;
      LoadAllTree(cat, rank, env, st1, imports[1..], parent, bound);
      var vs := LoadAll(cat, rank, env, st, imports, parent, bound).value.visits;
      assert vs == LoadAll(cat, rank, env, st1, imports[1..], parent, bound).value.visits;
      assert vs[..lo] == st.visits by { assert vs[..lo] == vs[..|vs1|][..lo]; }
      assert vs[lo..] == vs1[lo..] + vs[|vs1|..];
      ClassesAppend(vs1[lo..], vs[|vs1|..]);
      TreeStep(cat, vs1, vs, lo, parent, imports);
    }
  }

  /** The refs of the first import's subtree, then those of the others. */
  lemma TreeStep(cat: Catalog, vs1: seq<Visit>, vs: seq<Visit>, lo: int, parent: int, imports: seq<Import>)
    requires imports != [] && 0 <= lo < |vs1| <= |vs| && vs[..|vs1|] == vs1
    requires var t := imports[0].moduleType;
      vs1[lo].moduleType == t && vs1[lo].parent == parent && vs1[lo].inherited == [] && Good(cat, vs1, lo) &&
      forall j :: lo < j < |vs1| ==> Good(cat, vs1, j) && Placed(cat, vs1, j, lo, lo, cat(t).value.imports)
    requires forall j :: |vs1| <= j < |vs| ==> Good(cat, vs, j) && Placed(cat, vs, j, |vs1|, parent, imports[1..])
    ensures forall j :: lo <= j < |vs| ==> Good(cat, vs, j) && Placed(cat, vs, j, lo, parent, imports)
  {
    var t := imports[0].moduleType;
    assert TypesOf(imports) == [t] + TypesOf(imports[1..]);
    forall j | lo <= j < |vs| ensures Good(cat, vs, j) && Placed(cat, vs, j, lo, parent, imports) {
      if j < |vs1| {
        assert Good(cat, vs1, j);
        if j == lo {
          assert Placed(cat, vs1, j, lo, parent, imports);
        } else {
          assert Placed(cat, vs1, j, lo, lo, cat(t).value.imports);
          assert Placed(cat, vs1, j, lo, parent, imports);
        }
        PrefixKeeps(cat, vs1, vs, j, lo, parent, imports);
      } else {
        assert Placed(cat, vs, j, |vs1|, parent, imports[1..]);
      }
    }
  }

  /**
   * The module tree of an application (src/app/application.ts:36-200): `_m`
   * is the pre-order of the main module; the main ref inherits the main
   * module's providers and has the application injector as parent; every other
   * ref inherits nothing and has as parent an earlier ref whose module imports
   * it; every ref's injector gets, after the `ModuleRef` binding, the
   * providers and extra providers of its module's direct imports, in order.
   */
  lemma ModuleTree(cat: Catalog, rank: Fn -> nat, env: Env, main: Fn)
    requires Ranked(cat, rank) && Bootstrap(cat, rank, env, main).Ok?
    ensures var vs := Bootstrap(cat, rank, env, main).value.visits;
      Classes(vs) == PreOrder(cat, rank, main) && |vs| > 0 &&
      vs[0].moduleType == main && vs[0].parent == -1 && vs[0].inherited == cat(main).value.providers &&
      (forall j :: 0 <= j < |vs| ==> Good(cat, vs, j)) &&
      (forall j :: 0 < j < |vs| ==>
         vs[j].inherited == [] && 0 <= vs[j].parent < j && cat(vs[vs[j].parent].moduleType).Some? &&
         vs[j].moduleType in TypesOf(cat(vs[vs[j].parent].moduleType).value.imports))
  {
    LoadTree(cat, rank, env, Loaded([], map[]), main, -1, cat(main).value.providers);
    var vs := Bootstrap(cat, rank, env, main).value.visits;
    assert vs[0..] == vs;
    forall j | 0 < j < |vs|
      ensures vs[j].inherited == [] && 0 <= vs[j].parent < j && cat(vs[vs[j].parent].moduleType).Some? &&
        vs[j].moduleType in TypesOf(cat(vs[vs[j].parent].moduleType).value.imports)
    {
      assert Placed(cat, vs, j, 0, 0, cat(main).value.imports);
    }
  }

  /**
   * With an acyclic import graph, the main module's ref is the first of `_m`
   * and no other ref has its class, so `start` returns the first ref
   * (src/app/application.ts:102-104).
   */
  lemma MainOnlyFirst(cat: Catalog, rank: Fn -> nat, env: Env, main: Fn)
    requires Ranked(cat, rank) && Bootstrap(cat, rank, env, main).Ok?
    ensures var vs := Bootstrap(cat, rank, env, main).value.visits;
      |vs| > 0 && vs[0].moduleType == main && forall j :: 0 < j < |vs| ==> vs[j].moduleType != main
  {
    ModuleTree(cat, rank, env, main);
    var vs := Bootstrap(cat, rank, env, main).value.visits;
    PreOrderRanks(cat, rank, cat(main).value.imports, rank(main));
    forall j | 0 < j < |vs| ensures vs[j].moduleType != main {
      assert Classes(vs)[j] in PreOrderAll(cat, rank, cat(main).value.imports, rank(main));
    }
  }

  // ---------------------------------------------------------------------------
  // `_d`.

  /**
   * From `st` to `r`: refs are only appended, every entry of `_d` is kept,
   * each class declared by an appended ref maps to that ref, and each new
   * entry is a class declared by the ref it maps to.
   */
  ghost predicate DeclsFrom(cat: Catalog, st: Loaded, r: Loaded)
  {
    |st.visits| <= |r.visits| && r.visits[..|st.visits|] == st.visits &&
    (forall d :: d in st.decls ==> d in r.decls && r.decls[d] == st.decls[d]) &&
    (forall j, d ::
       |st.visits| <= j < |r.visits| && cat(r.visits[j].moduleType).Some? && d in cat(r.visits[j].moduleType).value.declarations
       ==> d in r.decls && r.decls[d] == j) &&
    (forall d :: d in r.decls && d !in st.decls ==>
       |st.visits| <= r.decls[d] < |r.visits| && cat(r.visits[r.decls[d]].moduleType).Some? &&
       d in cat(r.visits[r.decls[d]].moduleType).value.declarations)
  }

  /**
   * `_rlm(t)` keeps every entry of `_d` and maps each class declared by a ref
   * it adds to that ref; every entry it adds is such a class.
   */
  lemma {:induction false} LoadDecls(cat: Catalog, rank: Fn -> nat, env: Env, st: Loaded, t: Fn, parent: int, initial: seq<Provider>)
    requires Ranked(cat, rank) && Load(cat, rank, env, st, t, parent, initial).Ok?
    ensures var r := Load(cat, rank, env, st, t, parent, initial).value;
      DeclsFrom(cat, st, r)
    decreases rank(t), 1, 0
  {
    var meta := cat(t).value;
    var imported := ImportProviders(cat, meta.imports, []).value;
    var visit := Visit(t, parent, initial, imported);
    var lo := |st.visits|;
    var decls := Declare(st.decls, meta.declarations, lo).value;
    var st2 := Loaded(st.visits + [visit], decls);
    LoadAllDecls(cat, rank, env, st2, meta.imports, lo, rank(t));
    var r := Load(cat, rank, env, st, t, parent, initial).value;
    assert r == LoadAll(cat, rank, env, st2, meta.imports, lo, rank(t)).value;
    DeclsStep(cat, st, visit, Declare(st.decls, meta.declarations, lo), r);
  }

  /** One ref's own declarations, then the refs below it. */
  lemma DeclsStep(cat: Catalog, st: Loaded, visit: Visit, declared: Result<map<Fn, nat>>, r: Loaded)
    requires cat(visit.moduleType).Some?
    requires declared == Declare(st.decls, cat(visit.moduleType).value.declarations, |st.visits|) && declared.Ok?
    requires DeclsFrom(cat, Loaded(st.visits + [visit], declared.value), r)
    ensures DeclsFrom(cat, st, r)
  {
    var lo := |st.visits|;
    var types := cat(visit.moduleType).value.declarations;
    var decls := declared.value;
    DeclareMeaning(st.decls, types, lo);
    assert r.visits[lo] == visit by { assert r.visits[..lo + 1][lo] == visit; }
    assert r.visits[..lo] == st.visits by { assert r.visits[..lo] == r.visits[..lo + 1][..lo]; }
    forall d | d in st.decls ensures d in r.decls && r.decls[d] == st.decls[d] {
      assert decls[d] == st.decls[d];
    }
    forall j, d | lo <= j < |r.visits| && cat(r.visits[j].moduleType).Some? && d in cat(r.visits[j].moduleType).value.declarations
      ensures d in r.decls && r.decls[d] == j
    {
      if j == lo {
        assert d in types && decls[d] == lo;
      }
    }
    forall d | d in r.decls && d !in st.decls
      ensures lo <= r.decls[d] < |r.visits| && cat(r.visits[r.decls[d]].moduleType).Some? &&
        d in cat(r.visits[r.decls[d]].moduleType).value.declarations
    {
      if d in decls {
        assert d in types && r.decls[d] == lo;
      }
    }
  }

  lemma {:induction false} LoadAllDecls(cat: Catalog, rank: Fn -> nat, env: Env, st: Loaded, imports: seq<Import>, parent: int, bound: nat)
    requires Ranked(cat, rank)
    requires forall k :: 0 <= k < |imports| ==> rank(imports[k].moduleType) < bound
    requires LoadAll(cat, rank, env, st, imports, parent, bound).Ok?
    ensures DeclsFrom(cat, st, LoadAll(cat, rank, env, st, imports, parent, bound).value)
    decreases bound, 0, |imports|
  {
    if imports != [] {
      var t := imports[0].moduleType;
      LoadDecls(cat, rank, env, st, t, parent, []);
      var st1 := Load(cat, rank, env, st, t, parent, []).value;
      LoadAllDecls(cat, rank, env, st1, imports[1..], parent, bound);
      var r := LoadAll(cat, rank, env, st, imports, parent, bound).value;
      assert r == LoadAll(cat, rank, env, st1, imports[1..], parent, bound).value;
      DeclsTrans(cat, st, st1, r);
    }
  }

  lemma DeclsTrans(cat: Catalog, st: Loaded, st1: Loaded, r: Loaded)
    requires DeclsFrom(cat, st, st1) && DeclsFrom(cat, st1, r)
    ensures DeclsFrom(cat, st, r)
  {
    assert r.visits[..|st.visits|] == st.visits by {
      assert r.visits[..|st.visits|] == r.visits[..|st1.visits|][..|st.visits|];
    }
    forall j | 0 <= j < |st1.visits| ensures r.visits[j] == st1.visits[j] {
      assert r.visits[..|st1.visits|][j] == st1.visits[j];
    }
  }

  /**
   * `_d` of a built application (src/app/application.ts:177-189): every class
   * a loaded module declares maps to that module's ref, and `_d` holds nothing
   * else.
   */
  lemma Declarations(cat: Catalog, rank: Fn -> nat, env: Env, main: Fn)
    requires Ranked(cat, rank) && Bootstrap(cat, rank, env, main).Ok?
    ensures var r := Bootstrap(cat, rank, env, main).value;
      (forall j, d :: 0 <= j < |r.visits| && cat(r.visits[j].moduleType).Some? && d in cat(r.visits[j].moduleType).value.declarations
         ==> d in r.decls && r.decls[d] == j) &&
      (forall d :: d in r.decls ==>
         r.decls[d] < |r.visits| && cat(r.visits[r.decls[d]].moduleType).Some? &&
         d in cat(r.visits[r.decls[d]].moduleType).value.declarations)
  {
    LoadDecls(cat, rank, env, Loaded([], map[]), main, -1, cat(main).value.providers);
  }

  /** The ref a declared class maps to. */
  lemma DeclaredBy(cat: Catalog, rank: Fn -> nat, env: Env, main: Fn, j: nat, d: Fn)
    requires Ranked(cat, rank) && Bootstrap(cat, rank, env, main).Ok?
    requires j < |Bootstrap(cat, rank, env, main).value.visits|
    requires var t := Bootstrap(cat, rank, env, main).value.visits[j].moduleType;
      cat(t).Some? && d in cat(t).value.declarations
    ensures var r := Bootstrap(cat, rank, env, main).value;
      d in r.decls && r.decls[d] == j
  {
    Declarations(cat, rank, env, main);
  }

  /**
   * Every visit makes a new ref, so a module that declares anything and is
   * reached twice in the import graph makes construction throw: in a built
   * application, two refs of the same class declare nothing
   * (src/app/application.ts:128, 182-185).
   */
  lemma DeclaringModulesLoadOnce(cat: Catalog, rank: Fn -> nat, env: Env, main: Fn)
    requires Ranked(cat, rank) && Bootstrap(cat, rank, env, main).Ok?
    ensures var vs := Bootstrap(cat, rank, env, main).value.visits;
      forall i, j :: 0 <= i < j < |vs| && vs[i].moduleType == vs[j].moduleType && cat(vs[i].moduleType).Some? ==>
        cat(vs[i].moduleType).value.declarations == []
  {
    var r := Bootstrap(cat, rank, env, main).value;
    forall i, j | 0 <= i < j < |r.visits| && r.visits[i].moduleType == r.visits[j].moduleType && cat(r.visits[i].moduleType).Some?
      ensures cat(r.visits[i].moduleType).value.declarations == []
    {
      var ds := cat(r.visits[i].moduleType).value.declarations;
      if ds != [] {
        DeclaredBy(cat, rank, env, main, i, ds[0]);
        DeclaredBy(cat, rank, env, main, j, ds[0]);
        assert false;
      }
    }
  }
}
