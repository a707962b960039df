/**
 * What both applications read from `@Module()` metadata, and the module ref
 * they make for each loaded module.
 */
module Modules {
  import opened Types
  import opened Injection

  /** An entry of `imports`: a module class, or a `ModuleWithProviders`
      (`{module, providers}`); a bare class has no extra providers. */
  datatype Import = Import(moduleType: Fn, extra: seq<Provider>)

  /** The `@Module()` metadata of a class; a missing list is empty. */
  datatype ModuleMeta = ModuleMeta(imports: seq<Import>, providers: seq<Provider>, declarations: seq<Fn>)

  /** The `@Module()` metadata of every class, `None` for a class without it. */
  type Catalog = Fn -> Option<ModuleMeta>

  /**
   * The import graph is acyclic: every import of a module ranks below it.
   * The module application's `_rlm` keeps no visited set on its way down, and
   * neither does the legacy application's provider walk, which runs before
   * its module loading, so on a cycle both recurse without end.
   */
  ghost predicate Ranked(cat: Catalog, rank: Fn -> nat)
  {
    forall f, k :: cat(f).Some? && 0 <= k < |cat(f).value.imports| ==>
      rank(cat(f).value.imports[k].moduleType) < rank(f)
  }

  /** An object literal `{ token, value }` made by the application itself. */
  function Binding(token: Token, v: Value): (p: Provider)
    ensures p.Object? && p.p.token == Some(token) && p.p.value == Some(v) && !p.p.multi
  {
    Object(ProviderObject(0, Some(token), Some(v), None, None, None, [], false))
  }

  /** A loaded module (src/app/module.ts:12-18): its metadata (`module`), its class (`type`), the
      instance made at start and the injector made for it. */
  class ModuleRef {
    const meta: ModuleMeta
    const moduleType: Fn
    var instance: Value
    var injector: StaticInjector?

    constructor (meta: ModuleMeta, moduleType: Fn)
      ensures this.meta == meta && this.moduleType == moduleType
      ensures instance == Undefined && injector == null
    {
      this.meta := meta;
      this.moduleType := moduleType;
      instance := Undefined;
      injector := null;
    }
  }
}
