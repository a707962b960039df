/**
 * The legacy injector of src/Injector.ts.  It is the same `StaticInjector`
 * (its records, resolution and parent walk are those of `Injection`), created
 * with `Dialect.Legacy`.  What sets it apart is proved here: no edge it
 * registers is `@Self()`-restricted, no record it registers is an alias, and its
 * `instanciate` resolves exactly the edges the current one does.
 */
module LegacyInjection {
  import opened Types
  import opened Resolution
  import opened Registration
  import opened RegistrationFacts

  /** A record table without `@Self()` edges and without alias producers. */
  predicate Plain(m: Records)
  {
    forall t :: t in m ==> !m[t].func.AliasOf? && NoSelf(m[t].deps)
  }

  predicate NoSelf(deps: seq<Dep>)
  {
    forall i :: 0 <= i < |deps| ==> !deps[i].self
  }

  /** The legacy parameter fold never sets `self` (src/Injector.ts:299-328). */
  lemma LegacyTokensNoSelf(paramTypes: Option<seq<Token>>, params: seq<seq<Annotation>>)
    ensures NoSelf(InjectionTokens(paramTypes, params, false))
  {
    var r := InjectionTokens(paramTypes, params, false);
    forall i | 0 <= i < |r| ensures !r[i].self {
      AnnotateMeaning(paramTypes.value[i], AnnotationsAt(params, i), false);
    }
  }

  /**
   * resolveDependencies of src/Injector.ts:251-277: a class is read from its
   * constructor metadata; every provider object, class providers included, gets
   * only its explicit `deps`.  No edge is `self`.
   */
  lemma LegacyDeps(env: Env, p: Provider)
    requires p.OfType? || p.Object?
    ensures p.Object? ==> DepsOf(env, Legacy, p) == ExplicitDeps(p.p.deps)
    ensures p.OfType? ==> DepsOf(env, Legacy, p) == InjectionTokens(env.paramTypes(p.t), env.paramAnnotations(p.t), false)
    ensures NoSelf(DepsOf(env, Legacy, p))
  {
    if p.OfType? {
      LegacyTokensNoSelf(env.paramTypes(p.t), env.paramAnnotations(p.t));
    }
  }

  /** The record of one legacy provider is plain. */
  lemma LegacyRecordPlain(env: Env, p: Provider)
    requires p.OfType? || p.Object?
    requires RecordFor(env, Legacy, p).Ok?
    ensures !RecordFor(env, Legacy, p).value.func.AliasOf?
    ensures NoSelf(RecordFor(env, Legacy, p).value.deps)
  {
    LegacyDeps(env, p);
  }

  /**
   * Registration in the legacy dialect (src/Injector.ts:158-220) keeps a
   * table plain: starting from the self record (src/Injector.ts:70), every
   * record of a legacy injector is plain.
   */
  lemma {:induction false} LegacyRegisterPlain(env: Env, m: Records, p: Provider)
    requires Plain(m) && Register(env, Legacy, m, p).Ok?
    ensures Plain(Register(env, Legacy, m, p).value)
    decreases p, 1
  {
    if p.Group? {
      LegacyRegisterAllPlain(env, m, p.items);
    } else if p.OfType? || p.Object? {
      LegacyRecordPlain(env, p);
      if p.Object? && p.p.multi {
        var token := p.p.token.value;
        var agg := if token in m then m[token] else Aggregator;
        var d := agg.deps + [Dep(ProviderKey(p.p), false, false)];
        assert NoSelf(d) by {
          forall i | 0 <= i < |d| ensures !d[i].self {
            if i < |agg.deps| { assert d[i] == agg.deps[i]; }
          }
        }
      }
    }
  }

  lemma {:induction false} LegacyRegisterAllPlain(env: Env, m: Records, items: seq<Provider>)
    requires Plain(m) && RegisterAll(env, Legacy, m, items).Ok?
    ensures Plain(RegisterAll(env, Legacy, m, items).value)
    decreases items, 0
  {
    if items != [] {
      LegacyRegisterPlain(env, m, items[0]);
      LegacyRegisterAllPlain(env, Register(env, Legacy, m, items[0]).value, items[1..]);
    }
  }

  /** A legacy injector's table, from its self record and its providers. */
  lemma LegacyTablePlain(env: Env, inj: object, providers: Provider)
    requires Register(env, Legacy, SelfRecords(inj), providers).Ok?
    ensures Plain(Register(env, Legacy, SelfRecords(inj), providers).value)
  {
    LegacyRegisterPlain(env, SelfRecords(inj), providers);
  }

  /** Folding without `@Self()` is folding with it and then dropping `self`. */
  lemma {:induction false} AnnotateIgnoringSelf(d: Dep, anns: seq<Annotation>)
    ensures Annotate(d, anns, false) == Annotate(d, anns, true).(self := d.self)
    decreases |anns|
  {
    if anns != [] {
      AnnotateIgnoringSelf(d, anns[..|anns| - 1]);
    }
  }

  /**
   * `instanciate` of src/Injector.ts:92-104 resolves each constructor edge
   * through `get`, with `null` as the default of an optional one: the very
   * edges the current injector resolves (src/di/injector.ts:148-160).
   */
  lemma LegacyInstanciateEdges(env: Env, f: Fn)
    ensures ThroughGet(CtorDeps(env, f, false)) == ThroughGet(CtorDeps(env, f, true))
  {
    var a := CtorDeps(env, f, false);
    var b := CtorDeps(env, f, true);
    forall i | 0 <= i < |a| ensures a[i].(self := false) == b[i].(self := false) {
      AnnotateIgnoringSelf(Dep(env.paramTypes(f).value[i], false, false), AnnotationsAt(env.paramAnnotations(f), i));
    }
  }
}
