/**
 * `StaticInjector` of src/di/injector.ts: a record table that is filled once
 * by registration and then mutated by resolution, and a fixed parent.  A null
 * `parent` stands for `Injector.NULL`, the NullInjector.
 *
 * Every method is proved against the value-level functions of `Resolution`
 * and `Registration`: its result and the new record tables of the injector and
 * all its ancestors are what those functions compute from the old ones.
 */
module Injection {
  import opened Types
  import opened Resolution
  import opened Registration

  lemma PrependNil(o: Outcome<seq<Value>>)
    ensures Prepend([], o) == o
  {
    if o.result.Ok? { assert [] + o.result.value == o.result.value; }
  }

  lemma PrependEnd(env: Env, mode: Mode, c: seq<Records>, trace: seq<Call>, deps: seq<Dep>, args: seq<Value>)
    requires c != []
    ensures Prepend(args, ResolveDeps(env, mode, c, trace, deps[|deps|..])) == Outcome(Ok(args), c, trace)
  {
    assert deps[|deps|..] == [];
    assert args + [] == args;
  }

  /** One turn of the dependency loop against the value-level definition. */
  lemma DepsStep(env: Env, mode: Mode, c: seq<Records>, trace: seq<Call>, deps: seq<Dep>, i: nat, args: seq<Value>, first: Outcome<Value>)
    requires c != [] && i < |deps|
    requires first == Awaited(env, mode, Resolve(env, mode, c, trace, deps[i].token, DefaultOf(deps[i]), deps[i].self))
    ensures (first.result.Err? ==> Prepend(args, ResolveDeps(env, mode, c, trace, deps[i..])) == Outcome(Err(first.result.error), first.chain, first.trace)) &&
      (first.result.Ok? ==> Prepend(args, ResolveDeps(env, mode, c, trace, deps[i..]))
                              == Prepend(args + [first.result.value], ResolveDeps(env, mode, first.chain, first.trace, deps[i + 1..])))
  {
    assert deps[i..][0] == deps[i] && deps[i..][1..] == deps[i + 1..];
    if first.result.Ok? {
      var rest := ResolveDeps(env, mode, first.chain, first.trace, deps[i + 1..]);
      if rest.result.Ok? {
        assert args + ([first.result.value] + rest.result.value) == (args + [first.result.value]) + rest.result.value;
      }
    }
  }

  /** Build, step by step: the chain after the dependencies and after the
      producer determine its outcome. */
  lemma BuildSteps(env: Env, mode: Mode, c: seq<Records>, trace: seq<Call>, token: Token,
                   deps: Outcome<seq<Value>>, made: seq<Records>, tr: seq<Call>, r: Result<Value>)
    requires c != [] && token in c[0] && c[0][token].value == Empty
    requires deps == ResolveDeps(env, mode, SetSlot(c, token, Circular), trace, c[0][token].deps)
    requires deps.result.Err? ==> r == Err(deps.result.error) && made == deps.chain && tr == deps.trace
    requires deps.result.Ok? ==> Outcome(r, made, tr) == Produce(env, deps.chain, deps.trace, c[0][token].func, c[0][token].instanciate, deps.result.value)
    ensures made != [] && token in made[0]
    ensures Build(env, mode, c, trace, token) == Outcome(r, if r.Ok? then SetSlot(made, token, Final(r.value)) else made, tr)
  {
  }

  /** Instantiation, step by step. */
  lemma InstantiationSteps(env: Env, mode: Mode, c: seq<Records>, trace: seq<Call>, f: Fn, construct: bool, deps: Outcome<seq<Value>>)
    requires c != [] && deps == ResolveDeps(env, mode, c, trace, ThroughGet(CtorDeps(env, f, true)))
    ensures deps.result.Err? ==> Instantiation(env, mode, c, trace, f, construct) == Outcome(Err(deps.result.error), deps.chain, deps.trace)
    ensures deps.result.Ok? ==>
      var called := Invoke(env, f, construct, deps.result.value, deps.trace);
      Instantiation(env, mode, c, trace, f, construct) == Awaited(env, mode, Outcome(called.0, deps.chain, called.1))
  {
  }

  /**
   * GetInjectionTokens (src/di/injector.ts:466-499, src/Injector.ts:299-328),
   * with the two metadata lookups given as inputs: for each parameter type,
   * fold its decorators into `{token, optional, self}`; the legacy copy has no
   * `@Self()` (`withSelf` false).
   */
  method GetInjectionTokens(paramTypes: Option<seq<Token>>, params: seq<seq<Annotation>>, withSelf: bool) returns (result: seq<Dep>)
    ensures result == InjectionTokens(paramTypes, params, withSelf)
  {
    result := [];
    if paramTypes.Some? {
      var pts := paramTypes.value;
      for i := 0 to |pts|
        invariant |result| == i
        invariant forall k :: 0 <= k < i ==> result[k] == ParamDep(pts[k], AnnotationsAt(params, k), withSelf)
      {
        var token, optional, self := pts[i], false, false;
        var annotations := AnnotationsAt(params, i);
        for j := 0 to |annotations|
          invariant Dep(token, optional, self) == Annotate(Dep(pts[i], false, false), annotations[..j], withSelf)
        {
          assert annotations[..j + 1][..j] == annotations[..j];
          match annotations[j]
          case Inject(t) => token := t;
          case SelfOnly => if withSelf { self := true; }
          case Optional => optional := true;
          case OtherAnnotation =>
        }
        assert annotations[..|annotations|] == annotations;
        result := result + [Dep(token, optional, self)];
      }
    }
  }

  /** resolveDependencies (src/di/injector.ts:413-442, src/Injector.ts:251-277). */
  method ResolveDependencies(env: Env, dialect: Dialect, p: Provider) returns (deps: seq<Dep>)
    requires p.OfType? || p.Object?
    ensures deps == DepsOf(env, dialect, p)
  {
    if p.OfType? {
      deps := GetInjectionTokens(env.paramTypes(p.t), env.paramAnnotations(p.t), dialect == Current);
    } else if dialect == Current && p.p.cls.Some? {
      var t := p.p.cls.value;
      deps := GetInjectionTokens(env.paramTypes(t), env.paramAnnotations(t), true);
    } else {
      deps := [];
      var provided := p.p.deps;
      for i := 0 to |provided|
        invariant deps == ExplicitDeps(provided[..i])
      {
        deps := deps + [Dep(provided[i], false, false)];
      }
      assert provided[..|provided|] == provided;
    }
  }

  /** resolveProvider (src/di/injector.ts:379-411, src/Injector.ts:222-249). */
  method ResolveProvider(env: Env, dialect: Dialect, p: Provider) returns (r: Result<Record>)
    requires p.OfType? || p.Object?
    ensures r == RecordFor(env, dialect, p)
  {
    var deps := ResolveDependencies(env, dialect, p);
    if p.OfType? {
      r := Ok(Record(deps, UserCode(p.t), Empty, true));
    } else if p.p.value.Some? {
      r := Ok(Record(deps, Identity, Final(p.p.value.value), false));
    } else if p.p.factory.Some? {
      r := Ok(Record(deps, UserCode(p.p.factory.value), Empty, false));
    } else if p.p.cls.Some? {
      r := Ok(Record(deps, UserCode(p.p.cls.value), Empty, true));
    } else if p.p.use.Some? && dialect == Current {
      r := Ok(Record(deps, AliasOf(p.p.use.value), Empty, false));
    } else {
      r := Err(NotAProvider);
    }
  }

  class StaticInjector {
    /** `null` is the NullInjector. */
    const parent: StaticInjector?
    var records: Records
    ghost const depth: nat

    ghost predicate Valid()
      decreases depth
    {
      parent != null ==> parent.depth < depth && parent.Valid()
    }

    /** This injector and its ancestors: everything a resolution may change. */
    ghost function Repr(): set<StaticInjector>
      decreases depth
    {
      {this} + if parent != null && parent.depth < depth then parent.Repr() else {}
    }

    lemma ReprBelow()
      requires Valid()
      ensures forall x :: x in Repr() ==> x.depth <= depth
      decreases depth
    {
      if parent != null { parent.ReprBelow(); }
    }

    lemma ReprAllocated()
      requires Valid()
      ensures forall x :: x in Repr() ==> allocated(x)
      decreases depth
    {
      if parent != null { parent.ReprAllocated(); }
    }

    /** The record tables of this injector and its ancestors, nearest first. */
    ghost function State(): (c: seq<Records>)
      requires Valid()
      reads Repr()
      ensures c != [] && c[0] == records
      decreases depth
    {
      if parent == null then [records] else [records] + parent.State()
    }

    /** The `Empty` records of the chain do not increase by unfolding it. */
    lemma ParentCount()
      requires Valid() && parent != null
      ensures EmptyCount(parent.State()) <= EmptyCount(State())
    {
      assert State()[1..] == parent.State();
    }

    /** The constructor up to its provider list (src/di/injector.ts:116-123):
        the only record is the injector itself under the `Injector` token. */
    constructor (parent: StaticInjector?)
      requires parent != null ==> parent.Valid()
      ensures Valid() && this.parent == parent
      ensures records == SelfRecords(this)
    {
      this.parent := parent;
      depth := if parent == null then 0 else parent.depth + 1;
      new;
      records := SelfRecords(this);
    }

    /**
     * `Injector.Create` / `new StaticInjector(providers, parent)`
     * (src/di/injector.ts:102-104, 116-126): the self record, then the
     * providers registered in order.  A registration error is thrown from the
     * constructor, so no injector is returned; `made` is the object that was
     * being constructed.
     */
    static method Create(env: Env, dialect: Dialect, providers: Provider, parent: StaticInjector?) returns (r: Result<StaticInjector>, ghost made: StaticInjector)
      requires parent != null ==> parent.Valid()
      ensures fresh(made) && made.Valid() && made.parent == parent
      ensures r.Ok? <==> Register(env, dialect, SelfRecords(made), providers).Ok?
      ensures r.Ok? ==> r.value == made && Register(env, dialect, SelfRecords(made), providers) == Ok(made.records)
      ensures r.Err? ==> Register(env, dialect, SelfRecords(made), providers) == Err(r.error)
    {
      var inj := new StaticInjector(parent);
      made := inj;
      var ok := inj.RecursivelyResolveProviders(env, dialect, providers);
      if ok.Err? { return Err(ok.error), made; }
      return Ok(inj), made;
    }

    /** recursivelyResolveProviders (src/di/injector.ts:315-377, src/Injector.ts:158-220). */
    method RecursivelyResolveProviders(env: Env, dialect: Dialect, p: Provider) returns (ok: Result<()>)
      modifies this`records
      ensures var expected := Register(env, dialect, old(records), p);
        (ok.Ok? <==> expected.Ok?) &&
        (expected.Ok? ==> records == expected.value) &&
        (expected.Err? ==> ok.error == expected.error)
      decreases p, 1
    {
      match p
      case Skip =>
        ok := Ok(());
      case Group(items) =>
        ghost var m0 := records;
        for i := 0 to |items|
          invariant RegisterAll(env, dialect, m0, items) == RegisterAll(env, dialect, records, items[i..])
        {
          assert items[i..][1..] == items[i + 1..];
          assert items[i] in items;
          var step := RecursivelyResolveProviders(env, dialect, items[i]);
          if step.Err? { return step; }
        }
        ok := Ok(());
      case OfType(t) =>
        var resolved := ResolveProvider(env, dialect, p);
        records := records[TypeToken(t) := resolved.value];
        ok := Ok(());
      case Object(o) =>
        if o.token.None? { return Err(InvalidProvider); }
        var resolved := ResolveProvider(env, dialect, p);
        if resolved.Err? { return Err(resolved.error); }
        var token := o.token.value;
        if o.multi {
          var aggregator: Record;
          if token in records {
            aggregator := records[token];
            if aggregator.func != Collect { return Err(MultiProviderError); }
          } else {
            aggregator := Aggregator;
          }
          records := records[token := aggregator.(deps := aggregator.deps + [Dep(ProviderKey(o), false, false)])];
          token := ProviderKey(o);
        }
        if token in records && records[token].func == Collect { return Err(MultiProviderError); }
        records := records[token := resolved.value];
        ok := Ok(());
      case Scalar =>
        ok := Err(InvalidProvider);
    }

    // -------------------------------------------------------------------------
    // The public surface.

    /** get (src/di/injector.ts:128-133). */
    method Get(env: Env, trace: seq<Call>, token: Token, dflt: Default) returns (r: Result<Value>, tr: seq<Call>)
      requires Valid()
      modifies Repr()`records
      ensures Outcome(r, State(), tr) == Resolve(env, Sync, old(State()), trace, token, dflt, false)
    {
      r, tr := ResolveToken(env, Sync, trace, token, dflt, false);
    }

    /** getAsync (src/di/injector.ts:140-146): the value the returned promise
        settles to. */
    method GetAsync(env: Env, trace: seq<Call>, token: Token, dflt: Default) returns (r: Result<Value>, tr: seq<Call>)
      requires Valid()
      modifies Repr()`records
      ensures Outcome(r, State(), tr) == Awaited(env, Async, Resolve(env, Async, old(State()), trace, token, dflt, false))
    {
      r, tr := ResolveToken(env, Async, trace, token, dflt, false);
      if r.Ok? {
        var settled := Settle(env, r.value, tr);
        r, tr := settled.0, settled.1;
      }
    }

    /** instanciate (src/di/injector.ts:148-160). */
    method Instanciate(env: Env, trace: seq<Call>, f: Fn) returns (r: Result<Value>, tr: seq<Call>)
      requires Valid()
      modifies Repr()`records
      ensures Outcome(r, State(), tr) == Instantiation(env, Sync, old(State()), trace, f, true)
    {
      r, tr := CallWithDeps(env, Sync, trace, f, true);
    }

    /** instanciateAsync (src/di/injector.ts:162-176). */
    method InstanciateAsync(env: Env, trace: seq<Call>, f: Fn) returns (r: Result<Value>, tr: seq<Call>)
      requires Valid()
      modifies Repr()`records
      ensures Outcome(r, State(), tr) == Instantiation(env, Async, old(State()), trace, f, true)
    {
      r, tr := CallWithDeps(env, Async, trace, f, true);
    }

    /** invokeAsync (src/di/injector.ts:178-191): `f` is called, not constructed. */
    method InvokeAsync(env: Env, trace: seq<Call>, f: Fn) returns (r: Result<Value>, tr: seq<Call>)
      requires Valid()
      modifies Repr()`records
      ensures Outcome(r, State(), tr) == Instantiation(env, Async, old(State()), trace, f, false)
    {
      r, tr := CallWithDeps(env, Async, trace, f, false);
    }

    /** The body shared by the three: each constructor edge through `get`
        (`getAsync`), then the call. */
    method CallWithDeps(env: Env, mode: Mode, trace: seq<Call>, f: Fn, construct: bool) returns (r: Result<Value>, tr: seq<Call>)
      requires Valid()
      modifies Repr()`records
      ensures Outcome(r, State(), tr) == Instantiation(env, mode, old(State()), trace, f, construct)
    {
      ghost var c0 := State();
      ReprAllocated();
      var edges := GetInjectionTokens(env.paramTypes(f), env.paramAnnotations(f), true);
      assert State() == c0;
      edges := ThroughGet(edges);
      assert edges == ThroughGet(CtorDeps(env, f, true));
      var args, tr1 := ResolveAll(env, mode, trace, edges);
      InstantiationSteps(env, mode, c0, trace, f, construct, Outcome(args, State(), tr1));
      if args.Err? {
        return Err(args.error), tr1;
      }
      var called := Invoke(env, f, construct, args.value, tr1);
      r, tr := called.0, called.1;
      if mode == Async && r.Ok? {
        var settled := Settle(env, r.value, tr);
        r, tr := settled.0, settled.1;
      }
    }

    // -------------------------------------------------------------------------
    // Resolution.

    /** resolveToken / resolveTokenAsync (src/di/injector.ts:199-313). */
    method ResolveToken(env: Env, mode: Mode, trace: seq<Call>, token: Token, dflt: Default, selfOnly: bool)
      returns (r: Result<Value>, tr: seq<Call>)
      requires Valid()
      modifies Repr()`records
      ensures Outcome(r, State(), tr) == Resolve(env, mode, old(State()), trace, token, dflt, selfOnly)
      decreases EmptyCount(State()), depth, 1
    {
      if token in records {
        match records[token].value
        case Circular =>
          r, tr := Err(CircularDependency), trace;
        case Final(v) =>
          r, tr := Ok(v), trace;
        case Empty =>
          r, tr := BuildRecord(env, mode, trace, token);
      } else if !selfOnly && parent != null {
        ParentCount();
        parent.ReprBelow();
        r, tr := parent.ResolveToken(env, mode, trace, token, dflt, false);
      } else {
        r, tr := NullGet(mode, token, dflt), trace;
      }
    }

    /** The `Empty` branch of resolveToken (src/di/injector.ts:208-240,
        270-305): mark, resolve the dependencies, produce, store. */
    method BuildRecord(env: Env, mode: Mode, trace: seq<Call>, token: Token)
      returns (r: Result<Value>, tr: seq<Call>)
      requires Valid() && token in records && records[token].value == Empty
      modifies Repr()`records
      ensures Outcome(r, State(), tr) == Build(env, mode, old(State()), trace, token)
      decreases EmptyCount(State()), depth, 0
    {
      ghost var c0 := State();
      var rec := records[token];
      SetSlotCount(c0, token, Circular);
      SetValue(token, Circular);
      var args, tr1 := ResolveAll(env, mode, trace, rec.deps);
      ghost var deps := Outcome(args, State(), tr1);
      if args.Err? {
        BuildSteps(env, mode, c0, trace, token, deps, deps.chain, deps.trace, Err(args.error));
        r, tr := Err(args.error), tr1;
        return;
      }
      r, tr := Produce(env, tr1, rec.func, rec.instanciate, args.value);
      ghost var made := State();
      BuildSteps(env, mode, c0, trace, token, deps, made, tr, r);
      if r.Ok? {
        SetValue(token, Final(r.value));
      }
    }

    /** `record.value = slot` on a record of this injector. */
    method SetValue(token: Token, slot: Slot)
      requires Valid() && token in records
      modifies this`records
      ensures records == old(records)[token := old(records)[token].(value := slot)]
      ensures State() == SetSlot(old(State()), token, slot)
    {
      if parent != null { parent.ReprBelow(); }
      records := records[token := records[token].(value := slot)];
    }

    /** Runs a record's producer (src/di/injector.ts:238, 302-303). */
    method Produce(env: Env, trace: seq<Call>, func: Producer, instanciate: bool, args: seq<Value>)
      returns (r: Result<Value>, tr: seq<Call>)
      requires Valid()
      modifies Repr()`records
      ensures Outcome(r, State(), tr) == Resolution.Produce(env, old(State()), trace, func, instanciate, args)
      decreases EmptyCount(State()), depth, 4
    {
      if func.AliasOf? {
        r, tr := ResolveToken(env, Sync, trace, func.use, ThrowIfNotFound, false);
      } else {
        var ran := Run(env, func, instanciate, args, trace);
        r, tr := ran.0, ran.1;
      }
    }

    /** The dependency loop of resolveToken (src/di/injector.ts:218-236,
        276-292): each edge through this injector, in order. */
    method ResolveAll(env: Env, mode: Mode, trace: seq<Call>, deps: seq<Dep>)
      returns (r: Result<seq<Value>>, tr: seq<Call>)
      requires Valid()
      modifies Repr()`records
      ensures Outcome(r, State(), tr) == ResolveDeps(env, mode, old(State()), trace, deps)
      decreases EmptyCount(State()), depth, 3
    {
      ghost var c0 := State();
      var args: seq<Value> := [];
      tr := trace;
      PrependNil(ResolveDeps(env, mode, c0, trace, deps));
      for i := 0 to |deps|
        invariant Prepend(args, ResolveDeps(env, mode, State(), tr, deps[i..])) == ResolveDeps(env, mode, c0, trace, deps)
        invariant EmptyCount(State()) <= EmptyCount(c0)
      {
        ghost var before := State();
        var v, tr1 := ResolveEdge(env, mode, tr, deps[i]);
        DepsStep(env, mode, before, tr, deps, i, args, Outcome(v, State(), tr1));
        if v.Err? {
          return Err(v.error), tr1;
        }
        args, tr := args + [v.value], tr1;
      }
      PrependEnd(env, mode, State(), tr, deps, args);
      r := Ok(args);
    }

    /** One edge of the dependency loop: through this injector, awaited in
        `Async` mode. */
    method ResolveEdge(env: Env, mode: Mode, trace: seq<Call>, d: Dep) returns (v: Result<Value>, tr: seq<Call>)
      requires Valid()
      modifies Repr()`records
      ensures Outcome(v, State(), tr) == Awaited(env, mode, Resolve(env, mode, old(State()), trace, d.token, DefaultOf(d), d.self))
      decreases EmptyCount(State()), depth, 2
    {
      v, tr := ResolveToken(env, mode, trace, d.token, DefaultOf(d), d.self);
      if mode == Async && v.Ok? {
        var settled := Settle(env, v.value, tr);
        v, tr := settled.0, settled.1;
      }
    }
  }
}
