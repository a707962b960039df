/**
 * The values the container works with: tokens, the values it hands out, the
 * provider descriptions it registers, the errors it throws, and the boundary to
 * the code it does not own (constructors, factories, decorator metadata,
 * promises).
 *
 * JavaScript compares tokens and provider objects by identity; here every
 * provider object and token the program creates carries a number, so
 * structural equality of these datatypes is identity.  Arrays carry no
 * number: a nested provider array (`Group`) is equal to any other array with
 * the same entries.  Objects made by the container itself (injectors, module
 * refs, the application) are Dafny objects held in `Ref`.
 */
module Types {

  datatype Option<T> = None | Some(value: T)

  /** A class or function of the program.  The container's own classes and
      closures are named; user code is numbered. */
  datatype Fn =
    | InjectorClass       // the abstract `Injector` class: every injector's self token
    | ApplicationClass
    | ModuleRefClass
    | RouterClass
    | RouterFactory       // the legacy application's `() => Router.FromModuleRefs(...)`
    | InitializerFactory  // the legacy application's `(router) => true`
    | UserFn(id: nat)

  /** An injection key: a class, an `InjectionToken` instance, or (for a
      `multi` registration) the provider object itself. */
  datatype Token =
    | TypeToken(t: Fn)
    | NamedToken(id: nat)
    | AppInitializer      // APP_INITIALIZER of the module application
    | AppInitializers     // APP_INITIALIZERS of the legacy application
    | ProviderKey(p: ProviderObject)

  /** A JavaScript value as far as the container can observe it. */
  datatype Value =
    | Undefined
    | Null
    | Bool(b: bool)
    | Data(id: nat)             // a value made by user code
    | Promise(id: nat)          // a Promise made by user code
    | Ref(o: object)            // an object made by the container
    | List(items: seq<Value>)   // an array
    | ErrorObject(e: Error)     // an Error returned as a value, not thrown

  /**
   * A provider object literal.  `value` is `Some` exactly when the object has
   * a `value` key (`'value' in provider`), even if that value is undefined;
   * `token`, `factory`, `cls` (the `type` key) and `use` are `None` when the key
   * is missing or falsy; `deps` is empty when missing; `multi` is
   * `provider.multi === true`.
   */
  datatype ProviderObject = ProviderObject(
    id: nat,
    token: Option<Token>,
    value: Option<Value>,
    factory: Option<Fn>,
    cls: Option<Fn>,
    use: Option<Token>,
    deps: seq<Token>,
    multi: bool)

  /** One entry of a provider list as the registration code classifies it. */
  datatype Provider =
    | Skip                     // null, undefined or another falsy entry
    | Group(items: seq<Provider>)  // a nested array
    | OfType(t: Fn)            // a class: a type provider
    | Object(p: ProviderObject)
    | Scalar                   // a truthy value that is neither array, function nor object

  /** What the container throws (or, in one place, returns). */
  datatype Error =
    | NoProvider(token: Token)      // "No provider for ...!"
    | CircularDependency
    | MultiProviderError            // 'Multi-provider error' / 'Multi-provider mix up'
    | InvalidProvider
    | NotAProvider
    | NotAModule(t: Fn)             // "... was not decorated with @Module()"
    | NoModuleMetadata(t: Fn)       // a TypeError reading the metadata of an undecorated import
    | ImportedTwice(t: Fn)
    | Redeclared(t: Fn)
    | Thrown(id: nat)               // thrown by user code, or the reason of a rejected promise
    | NoLength                      // a TypeError reading `length` of null or undefined

  /** A value or a thrown error. */
  datatype Result<T> = Ok(value: T) | Err(error: Error) {
    predicate IsFailure() { Err? }
    function PropagateFailure<U>(): Result<U>
      requires Err?
    {
      Err(error)
    }
    function Extract(): T
      requires Ok?
    {
      value
    }
  }

  /** A parameter decorator: `@Inject(token)`, `@Self()`, `@Optional()` or another one. */
  datatype Annotation = Inject(token: Token) | SelfOnly | Optional | OtherAnnotation

  /** One observable step of user code: a constructor or function called with
      its arguments, or a promise awaited. */
  datatype Call = Call(f: Fn, construct: bool, args: seq<Value>) | Await(promise: nat)

  /**
   * The code the container calls but does not own.
   *  - `paramTypes(f)`: the 'design:paramtypes' metadata of `f`, if any;
   *  - `paramAnnotations(f)`: the parameter decorators of `f`, by position;
   *  - `call(f, construct, args, n)`: `new f(...args)` when `construct` holds,
   *    `f.apply(undefined, args)` otherwise, as the n-th step of user code (so
   *    that each call may make a fresh object);
   *  - `settle(id, n)`: awaiting `Promise(id)` as the n-th step.
   */
  datatype Env = Env(
    paramTypes: Fn -> Option<seq<Token>>,
    paramAnnotations: Fn -> seq<seq<Annotation>>,
    call: (Fn, bool, seq<Value>, nat) -> Result<Value>,
    settle: (nat, nat) -> Result<Value>)

  /** Calls `f` as the next step after `trace`; the legacy initializer factory
      is the container's own `() => true`. */
  function Invoke(env: Env, f: Fn, construct: bool, args: seq<Value>, trace: seq<Call>): (r: (Result<Value>, seq<Call>))
    ensures r.1 == trace + [Call(f, construct, args)]
    ensures f == InitializerFactory ==> r.0 == Ok(Bool(true))
  {
    var out := if f == InitializerFactory then Ok(Bool(true)) else env.call(f, construct, args, |trace|);
    (out, trace + [Call(f, construct, args)])
  }

  /** `await v`: a promise settles through user code, any other value is itself. */
  function Settle(env: Env, v: Value, trace: seq<Call>): (r: (Result<Value>, seq<Call>))
    ensures !v.Promise? ==> r == (Ok(v), trace)
    ensures v.Promise? ==> r.1 == trace + [Await(v.id)]
  {
    if v.Promise? then (env.settle(v.id, |trace|), trace + [Await(v.id)]) else (Ok(v), trace)
  }
}
