/**
 * What the legacy application promises: its provider list holds the
 * providers of the imports before a module's own ones, the extra providers
 * before the metadata ones, and no provider twice; its modules are loaded
 * once each, in the pre-order of the import tree; `start` awaits exactly the
 * promises among the initializers, in order.
 */
module LegacyAppFacts {
  import opened Types
  import opened Resolution
  import opened Registration
  import opened Modules
  import opened ModuleGraph
  import opened ModuleGraphFacts
  import opened LegacyApp

  // ---------------------------------------------------------------------------
  // The de-duplicating append.

  /** `AppendNew` only appends; it keeps every element of `xs`; what it
      appends comes from `xs` and is not in the list before it; so it adds no
      duplicate. */
  lemma {:induction false} AppendNewFacts<T>(out: seq<T>, xs: seq<T>)
    ensures var r := AppendNew(out, xs);
      out <= r &&
      (forall x :: x in xs ==> x in r) &&
      (forall k :: |out| <= k < |r| ==> r[k] in xs && r[k] !in r[..k]) &&
      (NoDup(out) ==> NoDup(r))
    decreases |xs|
  {
    var r := AppendNew(out, xs);
    if xs != [] {
      var next := if xs[0] in out then out else out + [xs[0]];
      AppendNewFacts(next, xs[1..]);
      assert r == AppendNew(next, xs[1..]);
      assert xs[0] in next by {
        if xs[0] !in out { assert next[|out|] == xs[0]; }
      }
      forall x | x in xs ensures x in r {
        if x == xs[0] {
          var i :| 0 <= i < |next| && next[i] == x;
          assert r[i] == x;
        } else {
          assert x in xs[1..];
        }
      }
      forall k | |out| <= k < |r| ensures r[k] in xs && r[k] !in r[..k] {
        if k < |next| {
          assert k == |out| && r[k] == xs[0] && r[..k] == out;
        } else {
          assert r[k] in xs[1..];
        }
      }
    }
    if NoDup(out) {
      forall a, b | 0 <= a < b < |r| ensures r[a] != r[b] {
        if b < |out| {
          assert r[a] == out[a] && r[b] == out[b];
        } else {
          assert r[a] == r[..b][a];
        }
      }
    }
  }

  /** Appending `xs + ys` is appending `xs`, then `ys`. */
  lemma {:induction false} AppendNewConcat<T>(s: seq<T>, xs: seq<T>, ys: seq<T>)
    ensures AppendNew(s, xs + ys) == AppendNew(AppendNew(s, xs), ys)
    decreases |xs|
  {
    if xs == [] {
      assert xs + ys == ys;
    } else {
      assert (xs + ys)[0] == xs[0] && (xs + ys)[1..] == xs[1..] + ys;
      AppendNewConcat(if xs[0] in s then s else s + [xs[0]], xs[1..], ys);
    }
  }

  /** Appending what is already there changes nothing. */
  lemma {:induction false} AppendNewKnown<T>(s: seq<T>, xs: seq<T>)
    requires forall x :: x in xs ==> x in s
    ensures AppendNew(s, xs) == s
    decreases |xs|
  {
    if xs != [] {
      assert xs[0] in s;
      AppendNewKnown(s, xs[1..]);
    }
  }

  // ---------------------------------------------------------------------------
  // The provider list (recursivelyGetModuleProviders).

  /** Flattening only appends to `out`, and never twice the same provider
      (src/Application.ts:187-193). */
  lemma {:induction false} GatherGrows(cat: Catalog, ann: Annotated, rank: Fn -> nat, imp: Import, out: seq<Provider>)
    requires Ranked(cat, rank)
    ensures var r := Gather(cat, ann, rank, imp, out);
      r.Ok? ==> out <= r.value && (NoDup(out) ==> NoDup(r.value))
    decreases rank(imp.moduleType), 1
  {
    var t := imp.moduleType;
    if ann(t) && cat(t).Some? {
      var mid := GatherAll(cat, ann, rank, cat(t).value.imports, out, rank(t));
      GatherAllGrows(cat, ann, rank, cat(t).value.imports, out, rank(t));
      if mid.Ok? {
        AppendNewFacts(mid.value, imp.extra + cat(t).value.providers);
      }
    }
  }

  lemma {:induction false} GatherAllGrows(cat: Catalog, ann: Annotated, rank: Fn -> nat, imports: seq<Import>, out: seq<Provider>, bound: nat)
    requires Ranked(cat, rank)
    requires forall k :: 0 <= k < |imports| ==> rank(imports[k].moduleType) < bound
    ensures var r := GatherAll(cat, ann, rank, imports, out, bound);
      r.Ok? ==> out <= r.value && (NoDup(out) ==> NoDup(r.value))
    decreases bound, 0, |imports|
  {
    if imports != [] {
      var next := Gather(cat, ann, rank, imports[0], out);
      GatherGrows(cat, ann, rank, imports[0], out);
      if next.Ok? {
        GatherAllGrows(cat, ann, rank, imports[1..], next.value, bound);
      }
    }
  }

  /**
   * For a `@Module` class (src/Application.ts:165-193): the list after its
   * imports, `mid`, is a prefix of the result; the extra providers come next,
   * then the metadata providers; each of them ends up in the list, and
   * nothing else is appended after `mid`.
   */
  lemma ImportsFirst(cat: Catalog, ann: Annotated, rank: Fn -> nat, imp: Import, out: seq<Provider>)
    requires Ranked(cat, rank) && ann(imp.moduleType) && cat(imp.moduleType).Some?
    requires Gather(cat, ann, rank, imp, out).Ok?
    ensures var meta := cat(imp.moduleType).value;
      var mid := GatherAll(cat, ann, rank, meta.imports, out, rank(imp.moduleType));
      var r := Gather(cat, ann, rank, imp, out).value;
      mid.Ok? && out <= mid.value && mid.value <= AppendNew(mid.value, imp.extra) <= r &&
      (forall p :: p in imp.extra ==> p in AppendNew(mid.value, imp.extra)) &&
      (forall p :: p in meta.providers ==> p in r) &&
      (forall k :: |mid.value| <= k < |r| ==> r[k] in imp.extra || r[k] in meta.providers)
  {
    var t := imp.moduleType;
    var meta := cat(t).value;
    var mid := GatherAll(cat, ann, rank, meta.imports, out, rank(t));
    GatherAllGrows(cat, ann, rank, meta.imports, out, rank(t));
    var first := AppendNew(mid.value, imp.extra);
    var r := Gather(cat, ann, rank, imp, out).value;
    AppendNewConcat(mid.value, imp.extra, meta.providers);
    AppendNewFacts(mid.value, imp.extra);
    AppendNewFacts(first, meta.providers);
    AppendNewFacts(mid.value, imp.extra + meta.providers);
    forall k | |mid.value| <= k < |r| ensures r[k] in imp.extra || r[k] in meta.providers {
      assert r[k] in imp.extra + meta.providers;
    }
  }

  /** The root list (src/Application.ts:41-56): the Router factory and the
      initializer come first, and nothing is listed twice. */
  lemma RootListFirst(cat: Catalog, ann: Annotated, rank: Fn -> nat, main: Fn)
    requires Ranked(cat, rank)
    ensures var r := Gather(cat, ann, rank, Import(main, []), RootProviders());
      r.Ok? ==> |r.value| >= 2 && r.value[0] == Object(RouterProvider) && r.value[1] == Object(InitializerProvider) && NoDup(r.value)
  {
    GatherGrows(cat, ann, rank, Import(main, []), RootProviders());
  }

  // ---------------------------------------------------------------------------
  // The modules (recursivelyLoadModules).

  /** Loading only appends classes and instances, one instance per class,
      each class at most once, and the trace only grows. */
  lemma {:induction false} LoadGrows(cat: Catalog, ann: Annotated, rank: Fn -> nat, env: Env, st: Loading, t: Fn)
    requires Ranked(cat, rank) && |st.chain| == 1 && |st.instances| == |st.types| && NoDup(st.types)
    ensures var o := LoadModule(cat, ann, rank, env, st, t).1;
      st.types <= o.types && st.instances <= o.instances && |o.instances| == |o.types| && NoDup(o.types) && st.trace <= o.trace
    decreases rank(t), 1
  {
    if ann(t) && cat(t).Some? && t !in st.types {
      var made := Instantiation(env, Sync, st.chain, st.trace, t, true);
      if made.result.Ok? {
        var st1 := Loading(made.chain, made.trace, st.types + [t], st.instances + [made.result.value]);
        LoadImportsGrow(cat, ann, rank, env, st1, cat(t).value.imports, rank(t));
      }
    }
  }

  lemma {:induction false} LoadImportsGrow(cat: Catalog, ann: Annotated, rank: Fn -> nat, env: Env, st: Loading, imports: seq<Import>, bound: nat)
    requires Ranked(cat, rank) && |st.chain| == 1 && |st.instances| == |st.types| && NoDup(st.types)
    requires forall k :: 0 <= k < |imports| ==> rank(imports[k].moduleType) < bound
    ensures var o := LoadImports(cat, ann, rank, env, st, imports, bound).1;
      st.types <= o.types && st.instances <= o.instances && |o.instances| == |o.types| && NoDup(o.types) && st.trace <= o.trace
    decreases bound, 0, |imports|
  {
    if imports != [] {
      var o := LoadModule(cat, ann, rank, env, st, imports[0].moduleType);
      LoadGrows(cat, ann, rank, env, st, imports[0].moduleType);
      if o.0.Ok? {
        LoadImportsGrow(cat, ann, rank, env, o.1, imports[1..], bound);
      }
    }
  }

  /** Below a class, the pre-order walk of any class it reaches stays within
      its own. */
  lemma {:induction false} PreOrderTrans(cat: Catalog, rank: Fn -> nat, t: Fn, u: Fn)
    requires Ranked(cat, rank) && u in PreOrder(cat, rank, t)
    ensures forall v :: v in PreOrder(cat, rank, u) ==> v in PreOrder(cat, rank, t)
    decreases rank(t), 1
  {
    if u != t {
      PreOrderAllTrans(cat, rank, cat(t).value.imports, rank(t), u);
    }
  }

  lemma {:induction false} PreOrderAllTrans(cat: Catalog, rank: Fn -> nat, imports: seq<Import>, bound: nat, u: Fn)
    requires Ranked(cat, rank) && forall k :: 0 <= k < |imports| ==> rank(imports[k].moduleType) < bound
    requires u in PreOrderAll(cat, rank, imports, bound)
    ensures forall v :: v in PreOrder(cat, rank, u) ==> v in PreOrderAll(cat, rank, imports, bound)
    decreases bound, 0, |imports|
  {
    if u in PreOrder(cat, rank, imports[0].moduleType) {
      PreOrderTrans(cat, rank, imports[0].moduleType, u);
    } else {
      PreOrderAllTrans(cat, rank, imports[1..], bound, u);
    }
  }

  /** Every loaded class ranked below `bound` has its whole pre-order walk
      loaded too: what the walk has finished with. */
  ghost predicate Complete(cat: Catalog, rank: Fn -> nat, seen: seq<Fn>, bound: nat)
    requires Ranked(cat, rank)
  {
    forall u :: u in seen && rank(u) < bound ==> forall v :: v in PreOrder(cat, rank, u) ==> v in seen
  }

  /** A class in the pre-order walk of `t` ranks no higher than `t`. */
  lemma PreOrderRank(cat: Catalog, rank: Fn -> nat, t: Fn, u: Fn)
    requires Ranked(cat, rank) && u in PreOrder(cat, rank, t)
    ensures rank(u) <= rank(t)
  {
    if u != t {
      PreOrderRanks(cat, rank, cat(t).value.imports, rank(t));
    }
  }

  /**
   * `recursivelyLoadModules` (src/Application.ts:104-152) loads, from a
   * finished state, the pre-order walk of `t` without the classes already
   * loaded: a module before its imports, the imports in order, each class
   * once.
   */
  lemma {:induction false} LoadPreOrder(cat: Catalog, ann: Annotated, rank: Fn -> nat, env: Env, st: Loading, t: Fn, bound: nat)
    requires Ranked(cat, rank) && |st.chain| == 1 && rank(t) < bound && Complete(cat, rank, st.types, bound)
    ensures var o := LoadModule(cat, ann, rank, env, st, t);
      o.0.Ok? ==> o.1.types == AppendNew(st.types, PreOrder(cat, rank, t)) && Complete(cat, rank, o.1.types, bound)
    decreases rank(t), 1
  {
    var o := LoadModule(cat, ann, rank, env, st, t);
    if o.0.Ok? {
      if cat(t).None? {
        assert PreOrder(cat, rank, t) == [];
      } else if t in st.types {
        AppendNewKnown(st.types, PreOrder(cat, rank, t));
      } else {
        var made := Instantiation(env, Sync, st.chain, st.trace, t, true);
        var st1 := Loading(made.chain, made.trace, st.types + [t], st.instances + [made.result.value]);
        var imports := cat(t).value.imports;
        var below := PreOrderAll(cat, rank, imports, rank(t));
        assert Complete(cat, rank, st1.types, rank(t)) by {
          forall u | u in st1.types && rank(u) < rank(t) ensures forall v :: v in PreOrder(cat, rank, u) ==> v in st1.types {
            assert u in st.types;
          }
        }
        LoadImportsPreOrder(cat, ann, rank, env, st1, imports, rank(t));
        assert PreOrder(cat, rank, t) == [t] + below;
        assert ([t] + below)[1..] == below;
        AppendNewFacts(st.types, PreOrder(cat, rank, t));
        forall u | u in o.1.types && rank(u) < bound ensures forall v :: v in PreOrder(cat, rank, u) ==> v in o.1.types {
          if u !in st.types {
            PreOrderTrans(cat, rank, t, u);
          }
        }
      }
    }
  }

  lemma {:induction false} LoadImportsPreOrder(cat: Catalog, ann: Annotated, rank: Fn -> nat, env: Env, st: Loading, imports: seq<Import>, bound: nat)
    requires Ranked(cat, rank) && |st.chain| == 1 && Complete(cat, rank, st.types, bound)
    requires forall k :: 0 <= k < |imports| ==> rank(imports[k].moduleType) < bound
    ensures var o := LoadImports(cat, ann, rank, env, st, imports, bound);
      o.0.Ok? ==> o.1.types == AppendNew(st.types, PreOrderAll(cat, rank, imports, bound)) && Complete(cat, rank, o.1.types, bound)
    decreases bound, 0, |imports|
  {
    if imports != [] {
      var o1 := LoadModule(cat, ann, rank, env, st, imports[0].moduleType);
      LoadPreOrder(cat, ann, rank, env, st, imports[0].moduleType, bound);
      if o1.0.Ok? {
        LoadImportsPreOrder(cat, ann, rank, env, o1.1, imports[1..], bound);
        AppendNewConcat(st.types, PreOrder(cat, rank, imports[0].moduleType), PreOrderAll(cat, rank, imports[1..], bound));
      }
    }
  }

  /**
   * The whole construction (src/Application.ts:36-67): the classes in
   * `_modules` are the pre-order walk from the main module with repeats
   * dropped, one instance each.
   */
  lemma LegacyModulesInPreOrder(cat: Catalog, ann: Annotated, rank: Fn -> nat, env: Env, main: Fn, trace: seq<Call>, root: object)
    requires Ranked(cat, rank)
    ensures var o := Boot(cat, ann, rank, env, main, trace, root);
      o.0.Ok? ==> o.1.types == AppendNew([], PreOrder(cat, rank, main)) && NoDup(o.1.types) && |o.1.instances| == |o.1.types|
  {
    var o := Boot(cat, ann, rank, env, main, trace, root);
    if o.0.Ok? {
      var providers := Gather(cat, ann, rank, Import(main, []), RootProviders());
      var registered := Register(env, Legacy, SelfRecords(root), Group(providers.value));
      var st := Loading([registered.value], trace, [], []);
      LoadPreOrder(cat, ann, rank, env, st, main, rank(main) + 1);
      LoadGrows(cat, ann, rank, env, st, main);
    }
  }

  // ---------------------------------------------------------------------------
  // start.

  /** The awaits of the promises among `items`, in order. */
  function Awaits(items: seq<Value>): (r: seq<Call>)
    ensures |r| <= |items|
  {
    if items == [] then []
    else (if items[0].Promise? then [Await(items[0].id)] else []) + Awaits(items[1..])
  }

  /**
   * The chain of `start` (src/Application.ts:77-96) awaits exactly the
   * promises among the initializers, in list order: when all of them
   * fulfil it settles to `true`; when one rejects, with its reason, after
   * awaiting the promises up to it and no further.
   */
  lemma ChainAwaits(env: Env, items: seq<Value>, trace: seq<Call>)
    ensures var o := Chain(env, items, trace);
      (o.0.Ok? ==> o == (Ok(Bool(true)), trace + Awaits(items))) &&
      (o.0.Err? ==> exists k :: RejectsAt(env, items, trace, o, k))
  {
    if Chain(env, items, trace).0.Ok? {
      ChainOk(env, items, trace);
    } else {
      ChainErr(env, items, trace);
    }
  }

  /** When every initializer fulfils, the chain awaits each promise once. */
  lemma {:induction false} ChainOk(env: Env, items: seq<Value>, trace: seq<Call>)
    requires Chain(env, items, trace).0.Ok?
    ensures Chain(env, items, trace) == (Ok(Bool(true)), trace + Awaits(items))
    decreases |items|
  {
    if items != [] {
      var here := if items[0].Promise? then [Await(items[0].id)] else [];
      var tr := trace + here;
      assert Settle(env, items[0], trace).1 == tr;
      assert Chain(env, items, trace) == Chain(env, items[1..], tr);
      ChainOk(env, items[1..], tr);
      assert Awaits(items) == here + Awaits(items[1..]);
      assert tr + Awaits(items[1..]) == trace + Awaits(items);
    } else {
      assert trace + Awaits(items) == trace;
    }
  }

  /** Entry `k` is a promise that rejected with `o`'s reason, and the chain
      awaited the promises up to it and no further. */
  predicate RejectsAt(env: Env, items: seq<Value>, trace: seq<Call>, o: (Result<Value>, seq<Call>), k: int)
  {
    0 <= k < |items| && items[k].Promise? && o.1 == trace + Awaits(items[..k + 1]) &&
    o.0 == env.settle(items[k].id, |trace + Awaits(items[..k])|)
  }

  /** When an initializer rejects, the chain stops there, with its reason. */
  lemma {:induction false} ChainErr(env: Env, items: seq<Value>, trace: seq<Call>)
    requires Chain(env, items, trace).0.Err?
    ensures exists k :: RejectsAt(env, items, trace, Chain(env, items, trace), k)
    decreases |items|
  {
    var o := Chain(env, items, trace);
    var here := if items[0].Promise? then [Await(items[0].id)] else [];
    var tr := trace + here;
    var v := Settle(env, items[0], trace).0;
    assert Settle(env, items[0], trace).1 == tr;
    if v.Err? {
      assert items[..1] == [items[0]] && Awaits(items[..1]) == here;
      assert items[..0] == [] && trace + Awaits(items[..0]) == trace;
      assert RejectsAt(env, items, trace, o, 0);
    } else {
      assert o == Chain(env, items[1..], tr);
      ChainErr(env, items[1..], tr);
      var k :| RejectsAt(env, items[1..], tr, o, k);
      ChainErrShift(items, here, k);
      assert items[k + 1] == items[1..][k];
      assert RejectsAt(env, items, trace, o, k + 1);
    }
  }

  /** The awaits up to entry `k + 1` are those of the first entry, then those
      of the rest up to `k`. */
  lemma ChainErrShift(items: seq<Value>, here: seq<Call>, k: nat)
    requires k + 1 < |items| && here == (if items[0].Promise? then [Await(items[0].id)] else [])
    ensures Awaits(items[..k + 2]) == here + Awaits(items[1..][..k + 1])
    ensures Awaits(items[..k + 1]) == here + Awaits(items[1..][..k])
  {
    assert items[..k + 2][1..] == items[1..][..k + 1];
    assert items[..k + 1][1..] == items[1..][..k];
  }

  /**
   * `start()` (src/Application.ts:72-97): the error `get` throws; the
   * TypeError of reading `length` of null or undefined, before anything is
   * awaited; for an array, the chain over its entries, settling to `true`
   * after awaiting each promise once; for any other value, `true` at once.
   * The root table is the one `get` leaves.
   */
  lemma StartOutcome(env: Env, m: Records, trace: seq<Call>)
    ensures var got := Resolve(env, Sync, [m], trace, AppInitializers, Fallback(List([])), false);
      var o := StartWith(env, m, trace);
      o.1.chain == got.chain &&
      (got.result.Err? ==> o.0 == got.result && o.1.trace == got.trace) &&
      (got.result.Ok? && (got.result.value.Null? || got.result.value.Undefined?) ==>
        o.0 == Err(NoLength) && o.1.trace == got.trace) &&
      (got.result.Ok? && got.result.value.List? && o.0.Ok? ==>
        o.0 == Ok(Bool(true)) && o.1.trace == got.trace + Awaits(got.result.value.items)) &&
      (got.result.Ok? && !got.result.value.List? && !got.result.value.Null? && !got.result.value.Undefined? ==>
        o.0 == Ok(Bool(true)) && o.1.trace == got.trace)
  {
    var got := Resolve(env, Sync, [m], trace, AppInitializers, Fallback(List([])), false);
    if got.result.Ok? && got.result.value.List? {
      ChainAwaits(env, got.result.value.items, got.trace);
    }
  }

  /** Without a promise among them, the initializers are not awaited at all
      and `start` settles to `true` at once. */
  lemma NoPromiseNoWait(env: Env, items: seq<Value>, trace: seq<Call>)
    requires forall k :: 0 <= k < |items| ==> !items[k].Promise?
    ensures Chain(env, items, trace) == (Ok(Bool(true)), trace)
  {
    ChainAwaits(env, items, trace);
    assert Awaits(items) == [] by {
      NoAwaits(items);
    }
  }

  lemma {:induction false} NoAwaits(items: seq<Value>)
    requires forall k :: 0 <= k < |items| ==> !items[k].Promise?
    ensures Awaits(items) == []
    decreases |items|
  {
    if items != [] {
      NoAwaits(items[1..]);
    }
  }
}
