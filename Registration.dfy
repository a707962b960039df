/**
 * What an injector of src/di/injector.ts derives from its inputs before
 * anything is resolved: the dependency edges of a constructor
 * (`GetInjectionTokens`), the record of one provider (`resolveProvider`,
 * `resolveDependencies`) and the record table of a provider list
 * (`recursivelyResolveProviders`).
 *
 * The legacy injector of src/Injector.ts registers the same way except in three
 * places, selected by `Dialect`: its parameter fold ignores `@Self()`, a class
 * provider gets only its explicit `deps`, and there are no alias providers.
 */
module Registration {
  import opened Types
  import opened Resolution

  /** src/di/injector.ts or src/Injector.ts. */
  datatype Dialect = Current | Legacy

  // ---------------------------------------------------------------------------
  // Constructor parameters (GetInjectionTokens).

  /** One decorator applied to a parameter's edge: `@Inject` replaces the
      token, `@Self` sets `self` (when honoured), `@Optional` sets `optional`. */
  function ApplyAnnotation(d: Dep, a: Annotation, withSelf: bool): Dep
  {
    match a
    case Inject(t) => d.(token := t)
    case SelfOnly => if withSelf then d.(self := true) else d
    case Optional => d.(optional := true)
    case OtherAnnotation => d
  }

  /** The decorators of one parameter, applied in order. */
  function Annotate(d: Dep, anns: seq<Annotation>, withSelf: bool): Dep
    decreases |anns|
  {
    if anns == [] then d
    else ApplyAnnotation(Annotate(d, anns[..|anns| - 1], withSelf), anns[|anns| - 1], withSelf)
  }

  /** `params[i]`, or no decorators when the parameter has none recorded. */
  function AnnotationsAt(params: seq<seq<Annotation>>, i: nat): seq<Annotation>
  {
    if i < |params| then params[i] else []
  }

  /** The edge of parameter `i` of type `t`. */
  function ParamDep(t: Token, anns: seq<Annotation>, withSelf: bool): Dep
  {
    Annotate(Dep(t, false, false), anns, withSelf)
  }

  /** GetInjectionTokens: one edge per entry of 'design:paramtypes' (none when
      that metadata is missing). */
  function InjectionTokens(paramTypes: Option<seq<Token>>, params: seq<seq<Annotation>>, withSelf: bool): (r: seq<Dep>)
    ensures |r| == (if paramTypes.Some? then |paramTypes.value| else 0)
  {
    if paramTypes.None? then []
    else
      var pts := paramTypes.value;
      seq(|pts|, i requires 0 <= i < |pts| => ParamDep(pts[i], AnnotationsAt(params, i), withSelf))
  }

  /** The constructor edges of `f` as the container reads them from metadata. */
  function CtorDeps(env: Env, f: Fn, withSelf: bool): seq<Dep>
  {
    InjectionTokens(env.paramTypes(f), env.paramAnnotations(f), withSelf)
  }

  // ---------------------------------------------------------------------------
  // One provider (resolveProvider, resolveDependencies).

  /** The explicit `deps` of a factory, class or alias provider, as edges. */
  function ExplicitDeps(tokens: seq<Token>): (r: seq<Dep>)
    ensures |r| == |tokens|
    ensures forall i :: 0 <= i < |r| ==> r[i] == Dep(tokens[i], false, false)
  {
    seq(|tokens|, i requires 0 <= i < |tokens| => Dep(tokens[i], false, false))
  }

  /** resolveDependencies (src/di/injector.ts:413-442, src/Injector.ts:251-277):
      a type provider's constructor edges, and in the current dialect a class
      provider's too; otherwise the explicit `deps`. */
  function DepsOf(env: Env, dialect: Dialect, p: Provider): seq<Dep>
    requires p.OfType? || p.Object?
  {
    match p
    case OfType(t) => CtorDeps(env, t, dialect == Current)
    case Object(o) =>
      if dialect == Current && o.cls.Some? then CtorDeps(env, o.cls.value, true) else ExplicitDeps(o.deps)
  }

  /** resolveProvider (src/di/injector.ts:379-411, src/Injector.ts:222-249):
      the shapes are tried in the order value, factory, type, use; the legacy
      dialect knows no `use`. */
  function RecordFor(env: Env, dialect: Dialect, p: Provider): Result<Record>
    requires p.OfType? || p.Object?
  {
    var deps := DepsOf(env, dialect, p);
    match p
    case OfType(t) => Ok(Record(deps, UserCode(t), Empty, true))
    case Object(o) =>
      if o.value.Some? then Ok(Record(deps, Identity, Final(o.value.value), false))
      else if o.factory.Some? then Ok(Record(deps, UserCode(o.factory.value), Empty, false))
      else if o.cls.Some? then Ok(Record(deps, UserCode(o.cls.value), Empty, true))
      else if o.use.Some? && dialect == Current then Ok(Record(deps, AliasOf(o.use.value), Empty, false))
      else Err(NotAProvider)
  }

  /** The empty aggregator record of a multi token. */
  const Aggregator := Record([], Collect, Empty, false)

  /** The record an injector starts with: its own `Injector` token bound to itself. */
  function SelfRecords(inj: object): Records
  {
    map[TypeToken(InjectorClass) := Record([], Identity, Final(Ref(inj)), false)]
  }

  // ---------------------------------------------------------------------------
  // A provider list (recursivelyResolveProviders).

  /**
   * recursivelyResolveProviders (src/di/injector.ts:315-377,
   * src/Injector.ts:158-220): falsy entries
   * are skipped, arrays are walked in order, a class is registered under
   * itself, a provider object under its token -- or, when `multi`, under
   * itself, with an edge appended to the token's aggregator.
   */
  function Register(env: Env, dialect: Dialect, m: Records, p: Provider): Result<Records>
    decreases p, 1
  {
    match p
    case Skip => Ok(m)
    case Group(items) => RegisterAll(env, dialect, m, items)
    case OfType(t) => Ok(m[TypeToken(t) := RecordFor(env, dialect, p).value])
    case Object(o) =>
      if o.token.None? then Err(InvalidProvider)
      else
        var rec :- RecordFor(env, dialect, p);
        RegisterObject(m, o, rec)
    case Scalar => Err(InvalidProvider)
  }

  /** The part of the object branch after `resolveProvider` (lines 340-367). */
  function RegisterObject(m: Records, o: ProviderObject, rec: Record): Result<Records>
    requires o.token.Some?
  {
    var token := o.token.value;
    if o.multi then
      if token in m && m[token].func != Collect then Err(MultiProviderError)
      else
        var agg := if token in m then m[token] else Aggregator;
        var m1 := m[token := agg.(deps := agg.deps + [Dep(ProviderKey(o), false, false)])];
        if ProviderKey(o) in m1 && m1[ProviderKey(o)].func == Collect then Err(MultiProviderError)
        else Ok(m1[ProviderKey(o) := rec])
    else if token in m && m[token].func == Collect then Err(MultiProviderError)
    else Ok(m[token := rec])
  }

  /** The array branch: each entry in order, stopping at the first error. */
  function RegisterAll(env: Env, dialect: Dialect, m: Records, items: seq<Provider>): Result<Records>
    decreases items, 0
  {
    if items == [] then Ok(m)
    else
      var m1 :- Register(env, dialect, m, items[0]);
      RegisterAll(env, dialect, m1, items[1..])
  }

  // ---------------------------------------------------------------------------
  // instanciate, instanciateAsync, invokeAsync.

  /** The edges `instanciate` resolves: it calls `get`, so `self` is dropped. */
  function ThroughGet(deps: seq<Dep>): (r: seq<Dep>)
    ensures |r| == |deps|
    ensures forall i :: 0 <= i < |r| ==> r[i] == deps[i].(self := false)
  {
    seq(|deps|, i requires 0 <= i < |deps| => deps[i].(self := false))
  }

  /**
   * instanciate / instanciateAsync / invokeAsync (src/di/injector.ts:148-191):
   * resolve the constructor edges of `f` one at a time through `get`, then call
   * `f` on them (`new` when `construct` holds); the async forms await the
   * result.
   */
  function Instantiation(env: Env, mode: Mode, c: seq<Records>, trace: seq<Call>, f: Fn, construct: bool): (o: Outcome<Value>)
    requires c != []
    ensures Steps(c, trace, o.chain, o.trace)
  {
    var deps := ResolveDeps(env, mode, c, trace, ThroughGet(CtorDeps(env, f, true)));
    if deps.result.Err? then Outcome(Err(deps.result.error), deps.chain, deps.trace)
    else
      var (r, tr) := Invoke(env, f, construct, deps.result.value, deps.trace);
      Awaited(env, mode, Outcome(r, deps.chain, tr))
  }
}
