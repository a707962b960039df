/**
 * What registration (src/di/injector.ts:315-499) guarantees: the walk over a
 * provider list, the shape checks, the multi-provider rules, the self binding,
 * and the meaning of the parameter decorators.
 */
module RegistrationFacts {
  import opened Types
  import opened Resolution
  import opened Registration

  // ---------------------------------------------------------------------------
  // The walk.

  /** The entries of a provider list in the order the walk meets them, nested
      arrays flattened and falsy entries dropped. */
  function Flatten(p: Provider): (r: seq<Provider>)
    ensures forall q :: q in r ==> !q.Skip? && !q.Group?
    decreases p, 1
  {
    match p
    case Skip => []
    case Group(items) => FlattenAll(items)
    case _ => [p]
  }

  function FlattenAll(items: seq<Provider>): (r: seq<Provider>)
    ensures forall q :: q in r ==> !q.Skip? && !q.Group?
    decreases items, 0
  {
    if items == [] then [] else Flatten(items[0]) + FlattenAll(items[1..])
  }

  /** Registering a list is registering its parts one after the other. */
  lemma {:induction false} RegisterAllAppend(env: Env, dialect: Dialect, m: Records, a: seq<Provider>, b: seq<Provider>)
    ensures RegisterAll(env, dialect, m, a + b) ==
      if RegisterAll(env, dialect, m, a).Err? then RegisterAll(env, dialect, m, a) else RegisterAll(env, dialect, RegisterAll(env, dialect, m, a).value, b)
    decreases |a|
  {
    if a == [] {
      assert a + b == b;
    } else {
      assert (a + b)[0] == a[0] && (a + b)[1..] == a[1..] + b;
      var m1 := Register(env, dialect, m, a[0]);
      if m1.Ok? {
        RegisterAllAppend(env, dialect, m1.value, a[1..], b);
      }
    }
  }

  /**
   * Falsy entries are skipped and nested arrays are walked in place
   * (src/di/injector.ts:317-323): registering any provider tree is registering
   * its flattened entries in order.
   */
  lemma {:induction false} RegisterFlattens(env: Env, dialect: Dialect, m: Records, p: Provider)
    ensures Register(env, dialect, m, p) == RegisterAll(env, dialect, m, Flatten(p))
    decreases p, 1
  {
    if p.Group? {
      RegisterAllFlattens(env, dialect, m, p.items);
    } else if !p.Skip? {
      assert [p][1..] == [];
      var r := Register(env, dialect, m, p);
      if r.Ok? { assert RegisterAll(env, dialect, r.value, []) == r; }
    }
  }

  lemma {:induction false} RegisterAllFlattens(env: Env, dialect: Dialect, m: Records, items: seq<Provider>)
    ensures RegisterAll(env, dialect, m, items) == RegisterAll(env, dialect, m, FlattenAll(items))
    decreases items, 0
  {
    if items != [] {
      RegisterFlattens(env, dialect, m, items[0]);
      RegisterAllAppend(env, dialect, m, Flatten(items[0]), FlattenAll(items[1..]));
      var m1 := Register(env, dialect, m, items[0]);
      if m1.Ok? {
        RegisterAllFlattens(env, dialect, m1.value, items[1..]);
      }
    }
  }

  // ---------------------------------------------------------------------------
  // Shape checks (resolveProvider and the object branch).

  /**
   * An object without a truthy `token`, and a truthy value that is neither an
   * array, a class nor an object, throw 'Invalid provider'
   * (src/di/injector.ts:335, 371-374); a tokened object of no known shape throws
   * 'Not a Provider' (src/di/injector.ts:404-407); the legacy injector, which
   * knows no alias, rejects a `use`-only object the same way
   * (src/Injector.ts:245-247).
   */
  lemma RejectedShapes(env: Env, dialect: Dialect, m: Records, o: ProviderObject)
    ensures Register(env, dialect, m, Scalar) == Err(InvalidProvider)
    ensures o.token.None? ==> Register(env, dialect, m, Object(o)) == Err(InvalidProvider)
    ensures o.token.Some? && o.value.None? && o.factory.None? && o.cls.None? && (o.use.None? || dialect == Legacy) ==>
      Register(env, dialect, m, Object(o)) == Err(NotAProvider)
  {
  }

  /**
   * The shapes are tried in the order value, factory, type, use
   * (src/di/injector.ts:387-407, src/Injector.ts:232-247): a `value` key wins
   * over every other, a factory over a class and an alias, a class over an
   * alias; only a class (and a bare type) is constructed with `new`.
   */
  lemma ShapeOrder(env: Env, dialect: Dialect, o: ProviderObject)
    ensures var r := RecordFor(env, dialect, Object(o));
      (r.Ok? <==> o.value.Some? || o.factory.Some? || o.cls.Some? || (o.use.Some? && dialect == Current)) &&
      (o.value.Some? ==> r.value.value == Final(o.value.value) && r.value.func == Identity) &&
      (o.value.None? && o.factory.Some? ==> r.value.func == UserCode(o.factory.value) && !r.value.instanciate) &&
      (o.value.None? && o.factory.None? && o.cls.Some? ==> r.value.func == UserCode(o.cls.value) && r.value.instanciate) &&
      (o.value.None? && o.factory.None? && o.cls.None? && o.use.Some? && dialect == Current ==> r.value.func == AliasOf(o.use.value)) &&
      (r.Ok? && o.value.None? ==> r.value.value == Empty)
  {
  }

  // ---------------------------------------------------------------------------
  // Multi providers.

  /** A `multi` registration over a record that is not an aggregator throws
      'Multi-provider error' (src/di/injector.ts:341-346). */
  lemma MultiOverSingle(env: Env, dialect: Dialect, m: Records, o: ProviderObject)
    requires o.token.Some? && o.multi && RecordFor(env, dialect, Object(o)).Ok?
    requires o.token.value in m && m[o.token.value].func != Collect
    ensures Register(env, dialect, m, Object(o)) == Err(MultiProviderError)
  {
  }

  /** A non-`multi` object over an aggregator throws (src/di/injector.ts:362-365). */
  lemma SingleOverMulti(env: Env, dialect: Dialect, m: Records, o: ProviderObject)
    requires o.token.Some? && !o.multi && RecordFor(env, dialect, Object(o)).Ok?
    requires o.token.value in m && m[o.token.value].func == Collect
    ensures Register(env, dialect, m, Object(o)) == Err(MultiProviderError)
  {
  }

  /** A non-`multi` object over a non-aggregator record replaces it: the last
      registration wins (src/di/injector.ts:367). */
  lemma LastWins(env: Env, dialect: Dialect, m: Records, o: ProviderObject)
    requires o.token.Some? && !o.multi && RecordFor(env, dialect, Object(o)).Ok?
    requires o.token.value !in m || m[o.token.value].func != Collect
    ensures Register(env, dialect, m, Object(o)) == Ok(m[o.token.value := RecordFor(env, dialect, Object(o)).value])
  {
  }

  /** `multi` providers for one token, each of a shape `resolveProvider`
      accepts (value, factory, class or alias). */
  predicate MultiProviders(env: Env, dialect: Dialect, ps: seq<ProviderObject>, token: Token)
  {
    forall k :: 0 <= k < |ps| ==>
      ps[k].multi && ps[k].token == Some(token) && RecordFor(env, dialect, Object(ps[k])).Ok?
  }

  /** `multi` value providers for one token. */
  predicate MultiValues(ps: seq<ProviderObject>, token: Token)
  {
    forall k :: 0 <= k < |ps| ==> ps[k].multi && ps[k].token == Some(token) && ps[k].value.Some?
  }

  lemma ValuesAreProviders(env: Env, dialect: Dialect, ps: seq<ProviderObject>, token: Token)
    requires MultiValues(ps, token)
    ensures MultiProviders(env, dialect, ps, token)
    ensures forall k :: 0 <= k < |ps| ==> RecordFor(env, dialect, Object(ps[k])).value.value == Final(ps[k].value.value)
  {
  }

  function Objects(ps: seq<ProviderObject>): (r: seq<Provider>)
    ensures |r| == |ps| && forall k :: 0 <= k < |ps| ==> r[k] == Object(ps[k])
  {
    seq(|ps|, k requires 0 <= k < |ps| => Object(ps[k]))
  }

  /** The aggregator's edges: one per registration, to the provider itself. */
  function KeysOf(ps: seq<ProviderObject>): (r: seq<Dep>)
    ensures |r| == |ps| && forall k :: 0 <= k < |ps| ==> r[k] == Dep(ProviderKey(ps[k]), false, false)
  {
    seq(|ps|, k requires 0 <= k < |ps| => Dep(ProviderKey(ps[k]), false, false))
  }

  function ValuesOf(ps: seq<ProviderObject>): (r: seq<Value>)
    requires forall k :: 0 <= k < |ps| ==> ps[k].value.Some?
    ensures |r| == |ps| && forall k :: 0 <= k < |ps| ==> r[k] == ps[k].value.value
  {
    seq(|ps|, k requires 0 <= k < |ps| => ps[k].value.value)
  }

  /** A provider's own key is never the token it is registered under. */
  lemma KeyIsNotToken(p: ProviderObject)
    requires p.token.Some?
    ensures ProviderKey(p) != p.token.value
  {
    assert p.token.value < p.token;
  }

  /** Every key of `ps` holds the record `resolveProvider` made for it. */
  predicate StoresRecords(env: Env, dialect: Dialect, m: Records, ps: seq<ProviderObject>)
  {
    forall k :: 0 <= k < |ps| ==>
      ProviderKey(ps[k]) in m && RecordFor(env, dialect, Object(ps[k])).Ok? &&
      m[ProviderKey(ps[k])] == RecordFor(env, dialect, Object(ps[k])).value
  }

  /** No key of `ps` holds an aggregator. */
  predicate KeysFree(m: Records, ps: seq<ProviderObject>)
  {
    forall k :: 0 <= k < |ps| ==> ProviderKey(ps[k]) !in m || m[ProviderKey(ps[k])].func != Collect
  }

  /** One `multi` registration onto an existing aggregator (src/di/injector.ts:347-367). */
  lemma MultiStep(env: Env, dialect: Dialect, m: Records, p: ProviderObject, token: Token, d: seq<Dep>)
    requires p.multi && p.token == Some(token) && RecordFor(env, dialect, Object(p)).Ok?
    requires token in m && m[token] == Record(d, Collect, Empty, false)
    requires ProviderKey(p) !in m || m[ProviderKey(p)].func != Collect
    ensures Register(env, dialect, m, Object(p)) ==
      Ok(m[token := Record(d + [Dep(ProviderKey(p), false, false)], Collect, Empty, false)][ProviderKey(p) := RecordFor(env, dialect, Object(p)).value])
  {
    KeyIsNotToken(p);
  }

  /** After the first registration the other keys still hold no aggregator:
      a record `resolveProvider` makes is never one. */
  lemma KeysFreeStep(env: Env, dialect: Dialect, m: Records, ps: seq<ProviderObject>, token: Token, agg: Record)
    requires ps != [] && MultiProviders(env, dialect, ps, token) && KeysFree(m, ps)
    ensures KeysFree(m[token := agg][ProviderKey(ps[0]) := RecordFor(env, dialect, Object(ps[0])).value], ps[1..])
  {
    var m1 := m[token := agg][ProviderKey(ps[0]) := RecordFor(env, dialect, Object(ps[0])).value];
    forall k | 0 <= k < |ps[1..]|
      ensures ProviderKey(ps[1..][k]) !in m1 || m1[ProviderKey(ps[1..][k])].func != Collect
    {
      assert ps[1..][k] == ps[k + 1];
      KeyIsNotToken(ps[k + 1]);
    }
  }

  /** Registering `multi` providers one after the other onto an existing
      aggregator appends one edge per provider and stores each provider's
      record under the provider's own key. */
  lemma {:induction false} MultiRegister(env: Env, dialect: Dialect, m: Records, ps: seq<ProviderObject>, token: Token, d: seq<Dep>)
    requires MultiProviders(env, dialect, ps, token)
    requires token in m && m[token] == Record(d, Collect, Empty, false)
    requires KeysFree(m, ps)
    ensures RegisterAll(env, dialect, m, Objects(ps)).Ok?
    ensures var m' := RegisterAll(env, dialect, m, Objects(ps)).value;
      token in m' && m'[token] == Record(d + KeysOf(ps), Collect, Empty, false) &&
      StoresRecords(env, dialect, m', ps)
    decreases |ps|
  {
    if ps == [] {
      assert d + KeysOf(ps) == d;
    } else {
      var p := ps[0];
      var d1 := d + [Dep(ProviderKey(p), false, false)];
      var m1 := m[token := Record(d1, Collect, Empty, false)][ProviderKey(p) := RecordFor(env, dialect, Object(p)).value];
      MultiStep(env, dialect, m, p, token, d);
      RegisterAllStep(env, dialect, m, ps);
      KeysFreeStep(env, dialect, m, ps, token, Record(d1, Collect, Empty, false));
      KeyIsNotToken(p);
      MultiRegister(env, dialect, m1, ps[1..], token, d1);
      KeysOfCons(d, ps);
      LaterKeysStored(env, dialect, m1, ps, token);
    }
  }

  /** One turn of the array walk over provider objects. */
  lemma RegisterAllStep(env: Env, dialect: Dialect, m: Records, ps: seq<ProviderObject>)
    requires ps != [] && Register(env, dialect, m, Object(ps[0])).Ok?
    ensures RegisterAll(env, dialect, m, Objects(ps)) ==
      RegisterAll(env, dialect, Register(env, dialect, m, Object(ps[0])).value, Objects(ps[1..]))
  {
    assert Objects(ps)[0] == Object(ps[0]) && Objects(ps)[1..] == Objects(ps[1..]);
  }

  lemma KeysOfCons(d: seq<Dep>, ps: seq<ProviderObject>)
    requires ps != []
    ensures (d + [Dep(ProviderKey(ps[0]), false, false)]) + KeysOf(ps[1..]) == d + KeysOf(ps)
  {
    assert [Dep(ProviderKey(ps[0]), false, false)] + KeysOf(ps[1..]) == KeysOf(ps);
  }

  /** The step of `MultiRegister` for the first provider's key: the later
      registrations either leave it alone or store the same record again. */
  lemma LaterKeysStored(env: Env, dialect: Dialect, m1: Records, ps: seq<ProviderObject>, token: Token)
    requires ps != [] && MultiProviders(env, dialect, ps, token)
    requires ProviderKey(ps[0]) in m1 && m1[ProviderKey(ps[0])] == RecordFor(env, dialect, Object(ps[0])).value
    requires token in m1
    requires RegisterAll(env, dialect, m1, Objects(ps[1..])).Ok?
    requires StoresRecords(env, dialect, RegisterAll(env, dialect, m1, Objects(ps[1..])).value, ps[1..])
    ensures StoresRecords(env, dialect, RegisterAll(env, dialect, m1, Objects(ps[1..])).value, ps)
  {
    var p := ps[0];
    var m' := RegisterAll(env, dialect, m1, Objects(ps[1..])).value;
    forall k | 0 <= k < |ps|
      ensures ProviderKey(ps[k]) in m' && m'[ProviderKey(ps[k])] == RecordFor(env, dialect, Object(ps[k])).value
    {
      if k > 0 {
        assert ps[k] == ps[1..][k - 1];
      } else if p !in ps[1..] {
        KeyIsNotToken(p);
        MultiKeepsOthers(env, dialect, m1, ps[1..], token, ProviderKey(p));
      } else {
        var j :| 0 <= j < |ps[1..]| && ps[1..][j] == p;
      }
    }
  }

  /** A key that none of the registrations uses is left as it is. */
  lemma {:induction false} MultiKeepsOthers(env: Env, dialect: Dialect, m: Records, ps: seq<ProviderObject>, token: Token, key: Token)
    requires MultiProviders(env, dialect, ps, token)
    requires RegisterAll(env, dialect, m, Objects(ps)).Ok?
    requires key != token && key in m && forall k :: 0 <= k < |ps| ==> key != ProviderKey(ps[k])
    ensures key in RegisterAll(env, dialect, m, Objects(ps)).value
    ensures RegisterAll(env, dialect, m, Objects(ps)).value[key] == m[key]
    decreases |ps|
  {
    if ps != [] {
      assert Objects(ps)[0] == Object(ps[0]) && Objects(ps)[1..] == Objects(ps[1..]);
      var m1 := Register(env, dialect, m, Object(ps[0])).value;
      MultiKeepsOthers(env, dialect, m1, ps[1..], token, key);
    }
  }

  /** Resolving edges to final values returns those values and changes
      nothing. */
  lemma {:induction false} FinalDeps(env: Env, mode: Mode, c: seq<Records>, trace: seq<Call>, deps: seq<Dep>, vals: seq<Value>)
    requires c != [] && |deps| == |vals|
    requires forall k :: 0 <= k < |deps| ==>
      deps[k].token in c[0] && c[0][deps[k].token].value == Final(vals[k]) && !vals[k].Promise?
    ensures ResolveDeps(env, mode, c, trace, deps) == Outcome(Ok(vals), c, trace)
    decreases |deps|
  {
    if deps != [] {
      FinalDeps(env, mode, c, trace, deps[1..], vals[1..]);
      assert [vals[0]] + vals[1..] == vals;
    }
  }

  /** The first `multi` registration creates the aggregator. */
  lemma MultiRegisterFresh(env: Env, dialect: Dialect, m: Records, ps: seq<ProviderObject>, token: Token)
    requires |ps| > 0 && MultiProviders(env, dialect, ps, token) && token !in m
    requires KeysFree(m, ps)
    ensures RegisterAll(env, dialect, m, Objects(ps)).Ok?
    ensures var m' := RegisterAll(env, dialect, m, Objects(ps)).value;
      token in m' && m'[token] == Record(KeysOf(ps), Collect, Empty, false) &&
      StoresRecords(env, dialect, m', ps)
  {
    var p := ps[0];
    KeyIsNotToken(p);
    assert Objects(ps)[0] == Object(p) && Objects(ps)[1..] == Objects(ps[1..]);
    var d := [Dep(ProviderKey(p), false, false)];
    var m1 := m[token := Record(d, Collect, Empty, false)][ProviderKey(p) := RecordFor(env, dialect, Object(p)).value];
    FirstMulti(env, dialect, m, p, token);
    KeysFreeStep(env, dialect, m, ps, token, Record(d, Collect, Empty, false));
    MultiRegister(env, dialect, m1, ps[1..], token, d);
    assert d + KeysOf(ps[1..]) == KeysOf(ps);
    LaterKeysStored(env, dialect, m1, ps, token);
  }

  /** The first `multi` registration of a token (src/di/injector.ts:347-357). */
  lemma FirstMulti(env: Env, dialect: Dialect, m: Records, p: ProviderObject, token: Token)
    requires p.multi && p.token == Some(token) && RecordFor(env, dialect, Object(p)).Ok? && token !in m
    requires ProviderKey(p) !in m || m[ProviderKey(p)].func != Collect
    ensures Register(env, dialect, m, Object(p)) ==
      Ok(m[token := Record([Dep(ProviderKey(p), false, false)], Collect, Empty, false)][ProviderKey(p) := RecordFor(env, dialect, Object(p)).value])
  {
    KeyIsNotToken(p);
    assert [] + [Dep(ProviderKey(p), false, false)] == [Dep(ProviderKey(p), false, false)];
  }

  /** What resolving an aggregator gives once its edges are resolved:
      the array of their values, or their first error. */
  function Collected(o: Outcome<seq<Value>>): Result<Value>
  {
    if o.result.Ok? then Ok(List(o.result.value)) else Err(o.result.error)
  }

  /**
   * An aggregator resolves each of its edges in order, on the chain where it
   * is itself marked circular, and yields the array of their values
   * (MULTIPROVIDER_FUNC, src/di/injector.ts:15) or the first error.
   */
  lemma AggregatorCollects(env: Env, mode: Mode, c: seq<Records>, trace: seq<Call>, ps: seq<ProviderObject>, token: Token, dflt: Default, selfOnly: bool)
    requires c != [] && token in c[0] && c[0][token] == Record(KeysOf(ps), Collect, Empty, false)
    ensures var o := Resolve(env, mode, c, trace, token, dflt, selfOnly);
      var edges := ResolveDeps(env, mode, SetSlot(c, token, Circular), trace, KeysOf(ps));
      o.result == Collected(edges) && o.trace == edges.trace &&
      (o.result.Ok? ==> o.chain == SetSlot(edges.chain, token, Final(o.result.value)))
  {
    var edges := ResolveDeps(env, mode, SetSlot(c, token, Circular), trace, KeysOf(ps));
    assert Resolve(env, mode, c, trace, token, dflt, selfOnly) == Build(env, mode, c, trace, token);
    if edges.result.Ok? {
      assert Produce(env, edges.chain, edges.trace, Collect, false, edges.result.value) ==
        Outcome(Ok(List(edges.result.value)), edges.chain, edges.trace);
    }
  }

  /** An aggregator over final values resolves to their list. */
  lemma AggregatorResolves(env: Env, mode: Mode, c: seq<Records>, trace: seq<Call>, ps: seq<ProviderObject>, token: Token, dflt: Default, selfOnly: bool)
    requires c != [] && MultiValues(ps, token)
    requires token in c[0] && c[0][token] == Record(KeysOf(ps), Collect, Empty, false)
    requires forall k :: 0 <= k < |ps| ==>
      ProviderKey(ps[k]) in c[0] && c[0][ProviderKey(ps[k])].value == Final(ps[k].value.value) && !ps[k].value.value.Promise?
    ensures var o := Resolve(env, mode, c, trace, token, dflt, selfOnly);
      o.result == Ok(List(ValuesOf(ps))) && o.trace == trace
  {
    var marked: seq<Records> := SetSlot(c, token, Circular);
    forall k | 0 <= k < |ps|
      ensures KeysOf(ps)[k].token in marked[0] && marked[0][KeysOf(ps)[k].token].value == Final(ValuesOf(ps)[k])
    {
      KeyIsNotToken(ps[k]);
    }
    FinalDeps(env, mode, marked, trace, KeysOf(ps), ValuesOf(ps));
    AggregatorCollects(env, mode, c, trace, ps, token, dflt, selfOnly);
  }

  /**
   * Multi providers (src/di/injector.ts:15, 340-360): registering `multi`
   * providers of any shape for a fresh token succeeds, and resolving the
   * token resolves each provider's own record in registration order, then
   * yields the array of their values, or the first error.
   */
  lemma MultiCollects(env: Env, dialect: Dialect, mode: Mode, m: Records, rest: seq<Records>, trace: seq<Call>, ps: seq<ProviderObject>, token: Token, dflt: Default, selfOnly: bool)
    requires |ps| > 0 && MultiProviders(env, dialect, ps, token) && token !in m
    requires KeysFree(m, ps)
    ensures RegisterAll(env, dialect, m, Objects(ps)).Ok?
    ensures var c := [RegisterAll(env, dialect, m, Objects(ps)).value] + rest;
      token in c[0] &&
      var edges := ResolveDeps(env, mode, SetSlot(c, token, Circular), trace, KeysOf(ps));
      Resolve(env, mode, c, trace, token, dflt, selfOnly).result == Collected(edges)
  {
    MultiRegisterFresh(env, dialect, m, ps, token);
    AggregatorCollects(env, mode, [RegisterAll(env, dialect, m, Objects(ps)).value] + rest, trace, ps, token, dflt, selfOnly);
  }

  /** For `multi` value providers the array holds the values themselves, in
      registration order, and no user code runs. */
  lemma MultiCollectsValues(env: Env, dialect: Dialect, mode: Mode, m: Records, rest: seq<Records>, trace: seq<Call>, ps: seq<ProviderObject>, token: Token, dflt: Default, selfOnly: bool)
    requires |ps| > 0 && MultiValues(ps, token) && token !in m
    requires KeysFree(m, ps)
    requires forall k :: 0 <= k < |ps| ==> !ps[k].value.value.Promise?
    ensures RegisterAll(env, dialect, m, Objects(ps)).Ok?
    ensures var o := Resolve(env, mode, [RegisterAll(env, dialect, m, Objects(ps)).value] + rest, trace, token, dflt, selfOnly);
      o.result == Ok(List(ValuesOf(ps))) && o.trace == trace
  {
    ValuesAreProviders(env, dialect, ps, token);
    MultiRegisterFresh(env, dialect, m, ps, token);
    AggregatorResolves(env, mode, [RegisterAll(env, dialect, m, Objects(ps)).value] + rest, trace, ps, token, dflt, selfOnly);
  }

  // ---------------------------------------------------------------------------
  // The self binding.

  /** No entry of the provider tree registers under `token`. */
  predicate NeverBinds(p: Provider, token: Token)
    decreases p, 1
  {
    match p
    case Group(items) => NeverBindsAll(items, token)
    case OfType(t) => TypeToken(t) != token
    case Object(o) => o.token != Some(token) && !token.ProviderKey?
    case _ => true
  }

  predicate NeverBindsAll(items: seq<Provider>, token: Token)
    decreases items, 0
  {
    forall k :: 0 <= k < |items| ==> NeverBinds(items[k], token)
  }

  /** Registration leaves alone a record that no provider binds. */
  lemma {:induction false} RegisterKeeps(env: Env, dialect: Dialect, m: Records, p: Provider, token: Token)
    requires token in m && NeverBinds(p, token) && Register(env, dialect, m, p).Ok?
    ensures token in Register(env, dialect, m, p).value && Register(env, dialect, m, p).value[token] == m[token]
    decreases p, 1
  {
    if p.Group? {
      RegisterAllKeeps(env, dialect, m, p.items, token);
    }
  }

  lemma {:induction false} RegisterAllKeeps(env: Env, dialect: Dialect, m: Records, items: seq<Provider>, token: Token)
    requires token in m && NeverBindsAll(items, token) && RegisterAll(env, dialect, m, items).Ok?
    ensures token in RegisterAll(env, dialect, m, items).value && RegisterAll(env, dialect, m, items).value[token] == m[token]
    decreases items, 0
  {
    if items != [] {
      assert items[0] in items;
      RegisterKeeps(env, dialect, m, items[0], token);
      var m1 := Register(env, dialect, m, items[0]).value;
      assert NeverBindsAll(items[1..], token) by {
        forall k | 0 <= k < |items[1..]| ensures NeverBinds(items[1..][k], token) {
          assert items[1..][k] == items[k + 1];
        }
      }
      RegisterAllKeeps(env, dialect, m1, items[1..], token);
    }
  }

  /**
   * Every injector maps the `Injector` token to itself
   * (src/di/injector.ts:122): unless a provider rebinds that token,
   * `get(Injector)` on an injector built from `providers` returns the injector.
   */
  lemma GetInjectorIsSelf(env: Env, dialect: Dialect, mode: Mode, inj: object, providers: Provider, rest: seq<Records>, trace: seq<Call>, dflt: Default)
    requires Register(env, dialect, SelfRecords(inj), providers).Ok? && NeverBinds(providers, TypeToken(InjectorClass))
    ensures Resolve(env, mode, [Register(env, dialect, SelfRecords(inj), providers).value] + rest, trace, TypeToken(InjectorClass), dflt, false).result
      == Ok(Ref(inj))
  {
    RegisterKeeps(env, dialect, SelfRecords(inj), providers, TypeToken(InjectorClass));
  }

  // ---------------------------------------------------------------------------
  // Parameter decorators (GetInjectionTokens).

  /**
   * The decorators of a parameter (src/di/injector.ts:478-490): it is optional
   * exactly when one of them is `@Optional()`; it is `self` exactly when
   * `@Self()` is honoured and present; its token is the one of the last
   * `@Inject()`, or the parameter's type when there is none.
   */
  lemma {:induction false} AnnotateMeaning(t: Token, anns: seq<Annotation>, withSelf: bool)
    ensures var d := Annotate(Dep(t, false, false), anns, withSelf);
      (d.optional <==> Optional in anns) &&
      (d.self <==> withSelf && SelfOnly in anns) &&
      ((forall k :: 0 <= k < |anns| ==> !anns[k].Inject?) ==> d.token == t) &&
      (forall k :: 0 <= k < |anns| && anns[k].Inject? && (forall j :: k < j < |anns| ==> !anns[j].Inject?) ==>
        d.token == anns[k].token)
    decreases |anns|
  {
    if anns != [] {
      var init := anns[..|anns| - 1];
      var last := anns[|anns| - 1];
      AnnotateMeaning(t, init, withSelf);
      assert anns == init + [last];
      assert forall a :: a in anns <==> a in init || a == last;
      forall k | 0 <= k < |anns| && anns[k].Inject? && (forall j :: k < j < |anns| ==> !anns[j].Inject?)
        ensures Annotate(Dep(t, false, false), anns, withSelf).token == anns[k].token
      {
        if k < |anns| - 1 {
          assert init[k] == anns[k];
          assert forall j :: k < j < |init| ==> !init[j].Inject? by {
            forall j | k < j < |init| ensures !init[j].Inject? { assert init[j] == anns[j]; }
          }
        }
      }
      if forall k :: 0 <= k < |anns| ==> !anns[k].Inject? {
        assert forall k :: 0 <= k < |init| ==> !init[k].Inject? by {
          forall k | 0 <= k < |init| ensures !init[k].Inject? { assert init[k] == anns[k]; }
        }
      }
    }
  }

  // ---------------------------------------------------------------------------
  // What registration looks at.

  /** Two tables with the same tokens, and per token the same producer and
      edges: they may differ only in the values already held. */
  predicate SameShape(m1: Records, m2: Records)
  {
    m1.Keys == m2.Keys && forall t :: t in m1 ==> m1[t].func == m2[t].func && m1[t].deps == m2[t].deps
  }

  /** Registration never looks at the values a table holds: from tables of
      the same shape it fails alike or succeeds alike. */
  lemma {:induction false} ShapeRegister(env: Env, dialect: Dialect, m1: Records, m2: Records, p: Provider)
    requires SameShape(m1, m2)
    ensures Register(env, dialect, m1, p).Ok? == Register(env, dialect, m2, p).Ok?
    ensures Register(env, dialect, m1, p).Err? ==> Register(env, dialect, m1, p).error == Register(env, dialect, m2, p).error
    ensures Register(env, dialect, m1, p).Ok? ==> SameShape(Register(env, dialect, m1, p).value, Register(env, dialect, m2, p).value)
    decreases p, 1
  {
    if p.Group? {
      ShapeRegisterAll(env, dialect, m1, m2, p.items);
    } else if p.Object? && p.p.token.Some? && RecordFor(env, dialect, p).Ok? {
      ShapeRegisterObject(m1, m2, p.p, RecordFor(env, dialect, p).value, RecordFor(env, dialect, p).value);
    }
  }

  lemma {:induction false} ShapeRegisterAll(env: Env, dialect: Dialect, m1: Records, m2: Records, items: seq<Provider>)
    requires SameShape(m1, m2)
    ensures RegisterAll(env, dialect, m1, items).Ok? == RegisterAll(env, dialect, m2, items).Ok?
    ensures RegisterAll(env, dialect, m1, items).Err? ==> RegisterAll(env, dialect, m1, items).error == RegisterAll(env, dialect, m2, items).error
    ensures RegisterAll(env, dialect, m1, items).Ok? ==> SameShape(RegisterAll(env, dialect, m1, items).value, RegisterAll(env, dialect, m2, items).value)
    decreases items, 0
  {
    if items != [] {
      ShapeRegister(env, dialect, m1, m2, items[0]);
      if Register(env, dialect, m1, items[0]).Ok? {
        ShapeRegisterAll(env, dialect, Register(env, dialect, m1, items[0]).value, Register(env, dialect, m2, items[0]).value, items[1..]);
      }
    }
  }

  /** The object branch, for two records of the same shape. */
  lemma ShapeRegisterObject(m1: Records, m2: Records, o: ProviderObject, rec1: Record, rec2: Record)
    requires SameShape(m1, m2) && o.token.Some?
    requires rec1.func == rec2.func && rec1.deps == rec2.deps
    ensures RegisterObject(m1, o, rec1).Ok? == RegisterObject(m2, o, rec2).Ok?
    ensures RegisterObject(m1, o, rec1).Err? ==> RegisterObject(m1, o, rec1).error == RegisterObject(m2, o, rec2).error
    ensures RegisterObject(m1, o, rec1).Ok? ==> SameShape(RegisterObject(m1, o, rec1).value, RegisterObject(m2, o, rec2).value)
  {
  }

  /** Two value objects that differ only in their value register alike. */
  lemma ShapeValueObject(env: Env, dialect: Dialect, m1: Records, m2: Records, o1: ProviderObject, o2: ProviderObject)
    requires SameShape(m1, m2)
    requires o1.value.Some? && o2 == o1.(value := o2.value) && o2.value.Some? && !o1.multi
    ensures Register(env, dialect, m1, Object(o1)).Ok? == Register(env, dialect, m2, Object(o2)).Ok?
    ensures Register(env, dialect, m1, Object(o1)).Err? ==> Register(env, dialect, m1, Object(o1)).error == Register(env, dialect, m2, Object(o2)).error
    ensures Register(env, dialect, m1, Object(o1)).Ok? ==> SameShape(Register(env, dialect, m1, Object(o1)).value, Register(env, dialect, m2, Object(o2)).value)
  {
    if o1.token.Some? {
      ShapeRegisterObject(m1, m2, o1, RecordFor(env, dialect, Object(o1)).value, RecordFor(env, dialect, Object(o2)).value);
    }
  }

  /**
   * A provider list around one value object registers alike whatever that
   * value and whatever injector the table starts from: success, the error
   * thrown, and the shape of the table do not depend on either.
   */
  lemma ShapeAroundValue(env: Env, dialect: Dialect, m1: Records, m2: Records, pre: seq<Provider>, o1: ProviderObject, o2: ProviderObject, post: seq<Provider>)
    requires SameShape(m1, m2)
    requires o1.value.Some? && o2 == o1.(value := o2.value) && o2.value.Some? && !o1.multi
    ensures var r1 := Register(env, dialect, m1, Group(pre + [Object(o1)] + post));
      var r2 := Register(env, dialect, m2, Group(pre + [Object(o2)] + post));
      r1.Ok? == r2.Ok? && (r1.Err? ==> r1.error == r2.error)
  {
    RegisterAllAppend(env, dialect, m1, pre + [Object(o1)], post);
    RegisterAllAppend(env, dialect, m2, pre + [Object(o2)], post);
    RegisterAllAppend(env, dialect, m1, pre, [Object(o1)]);
    RegisterAllAppend(env, dialect, m2, pre, [Object(o2)]);
    ShapeRegisterAll(env, dialect, m1, m2, pre);
    var a1 := RegisterAll(env, dialect, m1, pre);
    var a2 := RegisterAll(env, dialect, m2, pre);
    if a1.Ok? {
      ShapeValueObject(env, dialect, a1.value, a2.value, o1, o2);
      var b1 := Register(env, dialect, a1.value, Object(o1));
      var b2 := Register(env, dialect, a2.value, Object(o2));
      assert RegisterAll(env, dialect, a1.value, [Object(o1)]) == b1;
      assert RegisterAll(env, dialect, a2.value, [Object(o2)]) == b2;
      if b1.Ok? {
        ShapeRegisterAll(env, dialect, b1.value, b2.value, post);
      }
    }
  }

  /** The errors registration throws: 'Invalid provider', 'Not a Provider'
      and the multi-provider error (src/di/injector.ts:315-411). */
  predicate RegistrationError(e: Error)
  {
    e == InvalidProvider || e == NotAProvider || e == MultiProviderError
  }

  lemma {:induction false} RegisterErrors(env: Env, dialect: Dialect, m: Records, p: Provider)
    ensures Register(env, dialect, m, p).Err? ==> RegistrationError(Register(env, dialect, m, p).error)
    decreases p, 1
  {
    if p.Group? {
      RegisterAllErrors(env, dialect, m, p.items);
    }
  }

  lemma {:induction false} RegisterAllErrors(env: Env, dialect: Dialect, m: Records, items: seq<Provider>)
    ensures RegisterAll(env, dialect, m, items).Err? ==> RegistrationError(RegisterAll(env, dialect, m, items).error)
    decreases items, 0
  {
    if items != [] {
      RegisterErrors(env, dialect, m, items[0]);
      if Register(env, dialect, m, items[0]).Ok? {
        RegisterAllErrors(env, dialect, Register(env, dialect, m, items[0]).value, items[1..]);
      }
    }
  }
}
