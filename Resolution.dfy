/**
 * The resolution state machine of `StaticInjector.resolveToken`
 * (src/di/injector.ts), stated over values.
 *
 * An injector chain is a sequence of record tables: index 0 is the injector
 * asked, then its parent, and so on up to the last `StaticInjector`, whose
 * parent is the `NullInjector`.  Each record's value moves from `Empty` to
 * `Circular` while it is being built, then to `Final`.  A resolution returns
 * its result, the new chain and the extended trace of user-code steps.
 *
 * The legacy injector (src/Injector.ts) runs the same machine in `Sync` mode on
 * records whose dependencies never carry the `self` flag and whose producers are
 * never aliases.
 */
module Resolution {
  import opened Types

  /** One dependency edge of a record: `{token, optional, self}`. */
  datatype Dep = Dep(token: Token, optional: bool, self: bool)

  /** The record's `func`. */
  datatype Producer =
    | Identity            // IDENTITY: returns its first argument
    | UserCode(f: Fn)     // a class (called with `new` when `instanciate` is set) or a factory
    | AliasOf(use: Token) // `() => this.get(use)` of an alias provider
    | Collect             // MULTIPROVIDER_FUNC: the array of its arguments

  /** The record's `value`: EMPTY_VALUE, CIRCULAR_VALUE or a final value. */
  datatype Slot = Empty | Circular | Final(v: Value)

  datatype Record = Record(deps: seq<Dep>, func: Producer, value: Slot, instanciate: bool)

  type Records = map<Token, Record>

  /** The default of a lookup: THROW_IF_NOT_FOUND or a value. */
  datatype Default = ThrowIfNotFound | Fallback(v: Value)

  /** `get` / `resolveToken` versus `getAsync` / `resolveTokenAsync`. */
  datatype Mode = Sync | Async

  /** A resolution's result, the chain after it, and the trace after it. */
  datatype Outcome<T> = Outcome(result: Result<T>, chain: seq<Records>, trace: seq<Call>)

  /** The default a dependency edge resolves with. */
  function DefaultOf(d: Dep): Default
  {
    if d.optional then Fallback(Null) else ThrowIfNotFound
  }

  /** NullInjector.get / NullInjector.getAsync: the default, or "No provider".
      A default of `undefined` is replaced by THROW_IF_NOT_FOUND, as the
      parameter's default initializer does (src/di/injector.ts:23, 31;
      src/Injector.ts:24). */
  function NullGet(mode: Mode, token: Token, dflt: Default): Result<Value>
  {
    if dflt.Fallback? && dflt.v != Undefined then Ok(dflt.v)
    else if mode == Sync then Err(NoProvider(token))
    else Ok(ErrorObject(NoProvider(token)))
  }

  /** Calls a producer that is not an alias on the resolved dependency values. */
  function Run(env: Env, func: Producer, instanciate: bool, args: seq<Value>, trace: seq<Call>): (r: (Result<Value>, seq<Call>))
    requires !func.AliasOf?
    ensures trace <= r.1
  {
    match func
    case Identity => (Ok(if |args| > 0 then args[0] else Undefined), trace)
    case Collect => (Ok(List(args)), trace)
    case UserCode(f) => Invoke(env, f, instanciate, args, trace)
  }

  // ---------------------------------------------------------------------------
  // How a chain may change during a resolution, and the termination measure.

  /** A record changes only while it is `Empty`, and then only in its value. */
  predicate RecordEvolves(a: Record, b: Record)
  {
    a == b || (a.value == Empty && b == a.(value := b.value))
  }

  predicate MapEvolves(m: Records, m': Records)
  {
    m.Keys == m'.Keys && forall t :: t in m ==> RecordEvolves(m[t], m'[t])
  }

  /** No record is added or removed, and only `Empty` records change. */
  predicate Evolves(c: seq<Records>, c': seq<Records>)
  {
    |c| == |c'| && forall i :: 0 <= i < |c| ==> MapEvolves(c[i], c'[i])
  }

  function EmptyKeys(m: Records): set<Token>
  {
    set t | t in m && m[t].value == Empty
  }

  /** The number of `Empty` records in the chain. */
  function EmptyCount(c: seq<Records>): nat
  {
    if c == [] then 0 else |EmptyKeys(c[0])| + EmptyCount(c[1..])
  }

  lemma SubsetCard(a: set<Token>, b: set<Token>)
    requires a <= b
    ensures |a| <= |b|
  {
    assert b == a + (b - a);
  }

  lemma {:induction false} EvolvesCount(c: seq<Records>, c': seq<Records>)
    requires Evolves(c, c')
    ensures EmptyCount(c') <= EmptyCount(c)
  {
    if c != [] {
      assert MapEvolves(c[0], c'[0]);
      SubsetCard(EmptyKeys(c'[0]), EmptyKeys(c[0]));
      assert Evolves(c[1..], c'[1..]) by {
        forall i | 0 <= i < |c| - 1 ensures MapEvolves(c[1..][i], c'[1..][i]) {
          assert MapEvolves(c[i + 1], c'[i + 1]);
        }
      }
      EvolvesCount(c[1..], c'[1..]);
    }
  }

  lemma EvolvesTrans(c: seq<Records>, c': seq<Records>, c'': seq<Records>)
    requires Evolves(c, c') && Evolves(c', c'')
    ensures Evolves(c, c'')
  {
    forall i | 0 <= i < |c| ensures MapEvolves(c[i], c''[i]) {
      assert MapEvolves(c[i], c'[i]) && MapEvolves(c'[i], c''[i]);
    }
  }

  lemma EvolvesCons(m: Records, c: seq<Records>, c': seq<Records>)
    requires Evolves(c, c')
    ensures Evolves([m] + c, [m] + c')
  {
    forall i | 0 <= i < |c| + 1 ensures MapEvolves(([m] + c)[i], ([m] + c')[i]) {
      if i > 0 { assert MapEvolves(c[i - 1], c'[i - 1]); }
    }
  }

  /** The chain with `token`'s record in the first table set to `slot`. */
  function SetSlot(c: seq<Records>, token: Token, slot: Slot): (c': seq<Records>)
    requires c != [] && token in c[0]
    ensures |c'| == |c| && c'[1..] == c[1..] && token in c'[0]
  {
    c[0 := c[0][token := c[0][token].(value := slot)]]
  }

  lemma MarkEvolves(c: seq<Records>, token: Token, slot: Slot)
    requires c != [] && token in c[0] && c[0][token].value == Empty
    ensures Evolves(c, SetSlot(c, token, slot))
    ensures slot != Empty ==> EmptyCount(SetSlot(c, token, slot)) < EmptyCount(c)
  {
    var c' := SetSlot(c, token, slot);
    forall i | 0 <= i < |c| ensures MapEvolves(c[i], c'[i]) {
      if i > 0 { assert c'[i] == c'[1..][i - 1]; }
    }
    if slot != Empty {
      assert EmptyKeys(c'[0]) == EmptyKeys(c[0]) - {token};
      assert c'[1..] == c[1..];
    }
  }

  /** Finalising a record that a resolution marked `Circular` completes an
      evolution from the chain where it was `Empty`. */
  lemma FinalizeEvolves(c: seq<Records>, c': seq<Records>, token: Token, v: Value)
    requires c != [] && token in c[0] && c[0][token].value == Empty
    requires Evolves(SetSlot(c, token, Circular), c')
    ensures c' != [] && token in c'[0]
    ensures Evolves(c, SetSlot(c', token, Final(v)))
  {
    var marked := SetSlot(c, token, Circular);
    assert MapEvolves(marked[0], c'[0]);
    var c'' := SetSlot(c', token, Final(v));
    forall i | 0 <= i < |c| ensures MapEvolves(c[i], c''[i]) {
      assert MapEvolves(marked[i], c'[i]);
      if i > 0 {
        assert c''[i] == c'[i] && marked[i] == c[i];
      } else {
        forall t | t in c[0] ensures RecordEvolves(c[0][t], c''[0][t]) {
          assert RecordEvolves(marked[0][t], c'[0][t]);
        }
      }
    }
  }

  // ---------------------------------------------------------------------------
  // The resolution itself.

  /** What every resolution step keeps: the number of injectors, the tokens of
      the first one, a trace that only grows and no new `Empty` record. */
  predicate Steps(c: seq<Records>, trace: seq<Call>, c': seq<Records>, trace': seq<Call>)
    requires c != []
  {
    |c'| == |c| && c'[0].Keys == c[0].Keys && trace <= trace' && EmptyCount(c') <= EmptyCount(c)
  }

  lemma ConsCount(m: Records, c: seq<Records>)
    ensures EmptyCount([m] + c) == |EmptyKeys(m)| + EmptyCount(c)
  {
    assert ([m] + c)[1..] == c;
  }

  /** Setting a slot to a non-`Empty` value never adds an `Empty` record, and
      removes one when the slot was `Empty`. */
  lemma SetSlotCount(c: seq<Records>, token: Token, slot: Slot)
    requires c != [] && token in c[0] && slot != Empty
    ensures EmptyCount(SetSlot(c, token, slot)) <= EmptyCount(c)
    ensures c[0][token].value == Empty ==> EmptyCount(SetSlot(c, token, slot)) < EmptyCount(c)
  {
    var c' := SetSlot(c, token, slot);
    assert EmptyKeys(c'[0]) == EmptyKeys(c[0]) - {token};
    SubsetCard(EmptyKeys(c'[0]), EmptyKeys(c[0]));
    assert c'[1..] == c[1..];
  }

  /**
   * resolveToken / resolveTokenAsync (src/di/injector.ts:199-313): look the
   * token up in the first table; a `Circular` record throws, a `Final` one is
   * returned, an `Empty` one is built.  A token with no local record goes to the
   * parent's `get` with the caller's default, or, when `selfOnly` is set or the
   * parent is the NullInjector, to the NullInjector rule.
   */
  function Resolve(env: Env, mode: Mode, c: seq<Records>, trace: seq<Call>, token: Token, dflt: Default, selfOnly: bool): (o: Outcome<Value>)
    requires c != []
    ensures Steps(c, trace, o.chain, o.trace)
    decreases EmptyCount(c), |c|, 1, 0
  {
    if token in c[0] then
      match c[0][token].value
      case Circular => Outcome(Err(CircularDependency), c, trace)
      case Final(v) => Outcome(Ok(v), c, trace)
      case Empty => Build(env, mode, c, trace, token)
    else if !selfOnly && |c| > 1 then
      ConsCount(c[0], c[1..]);
      assert [c[0]] + c[1..] == c;
      var o := Resolve(env, mode, c[1..], trace, token, dflt, false);
      ConsCount(c[0], o.chain);
      Outcome(o.result, [c[0]] + o.chain, o.trace)
    else
      Outcome(NullGet(mode, token, dflt), c, trace)
  }

  /**
   * The `Empty` branch (src/di/injector.ts:208-240): mark the record
   * `Circular`, resolve its dependencies in order against the same injector,
   * run the producer, store the value.  An error on the way leaves the record
   * `Circular`: nothing restores it.
   */
  function Build(env: Env, mode: Mode, c: seq<Records>, trace: seq<Call>, token: Token): (o: Outcome<Value>)
    requires c != [] && token in c[0] && c[0][token].value == Empty
    ensures Steps(c, trace, o.chain, o.trace)
    decreases EmptyCount(c), |c|, 0, 0
  {
    var rec := c[0][token];
    var marked := SetSlot(c, token, Circular);
    SetSlotCount(c, token, Circular);
    var deps := ResolveDeps(env, mode, marked, trace, rec.deps);
    if deps.result.Err? then
      Outcome(Err(deps.result.error), deps.chain, deps.trace)
    else
      var made := Produce(env, deps.chain, deps.trace, rec.func, rec.instanciate, deps.result.value);
      if made.result.Err? then
        Outcome(Err(made.result.error), made.chain, made.trace)
      else
        SetSlotCount(made.chain, token, Final(made.result.value));
        Outcome(made.result, SetSlot(made.chain, token, Final(made.result.value)), made.trace)
  }

  /** Runs a record's producer on its resolved dependencies; an alias calls
      `this.get(use)` (src/di/injector.ts:402), synchronous in both modes. */
  function Produce(env: Env, c: seq<Records>, trace: seq<Call>, func: Producer, instanciate: bool, args: seq<Value>): (o: Outcome<Value>)
    requires c != []
    ensures Steps(c, trace, o.chain, o.trace)
    decreases EmptyCount(c), |c|, 3, 0
  {
    if func.AliasOf? then
      Resolve(env, Sync, c, trace, func.use, ThrowIfNotFound, false)
    else
      var (r, tr) := Run(env, func, instanciate, args, trace);
      Outcome(r, c, tr)
  }

  /** The dependency loop (src/di/injector.ts:218-236, 276-292): each edge in
      order, with `null` as default when optional, awaited in `Async` mode,
      stopping at the first error. */
  function ResolveDeps(env: Env, mode: Mode, c: seq<Records>, trace: seq<Call>, deps: seq<Dep>): (o: Outcome<seq<Value>>)
    requires c != []
    ensures Steps(c, trace, o.chain, o.trace)
    ensures o.result.Ok? ==> |o.result.value| == |deps|
    decreases EmptyCount(c), |c|, 2, |deps|
  {
    if deps == [] then
      Outcome(Ok([]), c, trace)
    else
      var first := Awaited(env, mode, Resolve(env, mode, c, trace, deps[0].token, DefaultOf(deps[0]), deps[0].self));
      if first.result.Err? then
        Outcome(Err(first.result.error), first.chain, first.trace)
      else
        var rest := ResolveDeps(env, mode, first.chain, first.trace, deps[1..]);
        Outcome(if rest.result.Ok? then Ok([first.result.value] + rest.result.value) else rest.result,
                rest.chain, rest.trace)
  }

  /** `args` followed by the values of `o`, when it succeeded. */
  function Prepend(args: seq<Value>, o: Outcome<seq<Value>>): (p: Outcome<seq<Value>>)
    ensures p.chain == o.chain && p.trace == o.trace
  {
    Outcome(if o.result.Ok? then Ok(args + o.result.value) else o.result, o.chain, o.trace)
  }

  /** In `Async` mode a resolved value is awaited (a promise settles); in
      `Sync` mode it is passed on as it is. */
  function Awaited(env: Env, mode: Mode, o: Outcome<Value>): (a: Outcome<Value>)
    ensures a.chain == o.chain && o.trace <= a.trace
    ensures mode == Sync || o.result.Err? || !o.result.value.Promise? ==> a == o
  {
    if mode == Sync || o.result.Err? then o
    else
      var (r, tr) := Settle(env, o.result.value, o.trace);
      Outcome(r, o.chain, tr)
  }
}
