/**
 * What the resolution machine of src/di/injector.ts guarantees: memoisation,
 * cycle detection, records left `Circular` by a failure, delegation to the
 * nearest ancestor, the NullInjector rule, and the order of dependencies.
 */
module ResolutionFacts {
  import opened Types
  import opened Resolution

  // ---------------------------------------------------------------------------
  // Only `Empty` records change.

  /** A resolution adds and removes no record, and changes a record only when
      it was `Empty`, and then only its value. */
  lemma {:induction false} ResolveEvolves(env: Env, mode: Mode, c: seq<Records>, trace: seq<Call>, token: Token, dflt: Default, selfOnly: bool)
    requires c != []
    ensures Evolves(c, Resolve(env, mode, c, trace, token, dflt, selfOnly).chain)
    decreases EmptyCount(c), |c|, 1, 0
  {
    if token in c[0] {
      if c[0][token].value == Empty {
        BuildEvolves(env, mode, c, trace, token);
      }
    } else if !selfOnly && |c| > 1 {
      ConsCount(c[0], c[1..]);
      assert [c[0]] + c[1..] == c;
      ResolveEvolves(env, mode, c[1..], trace, token, dflt, false);
      EvolvesCons(c[0], c[1..], Resolve(env, mode, c[1..], trace, token, dflt, false).chain);
    }
  }

  lemma {:induction false} BuildEvolves(env: Env, mode: Mode, c: seq<Records>, trace: seq<Call>, token: Token)
    requires c != [] && token in c[0] && c[0][token].value == Empty
    ensures Evolves(c, Build(env, mode, c, trace, token).chain)
    decreases EmptyCount(c), |c|, 0, 0
  {
    var rec := c[0][token];
    var marked := SetSlot(c, token, Circular);
    MarkEvolves(c, token, Circular);
    var deps := ResolveDeps(env, mode, marked, trace, rec.deps);
    ResolveDepsEvolves(env, mode, marked, trace, rec.deps);
    EvolvesTrans(c, marked, deps.chain);
    if deps.result.Ok? {
      var made := Produce(env, deps.chain, deps.trace, rec.func, rec.instanciate, deps.result.value);
      ProduceEvolves(env, deps.chain, deps.trace, rec.func, rec.instanciate, deps.result.value);
      EvolvesTrans(marked, deps.chain, made.chain);
      EvolvesTrans(c, deps.chain, made.chain);
      if made.result.Ok? {
        FinalizeEvolves(c, made.chain, token, made.result.value);
      }
    }
  }

  lemma {:induction false} ProduceEvolves(env: Env, c: seq<Records>, trace: seq<Call>, func: Producer, instanciate: bool, args: seq<Value>)
    requires c != []
    ensures Evolves(c, Produce(env, c, trace, func, instanciate, args).chain)
    decreases EmptyCount(c), |c|, 3, 0
  {
    if func.AliasOf? {
      ResolveEvolves(env, Sync, c, trace, func.use, ThrowIfNotFound, false);
    } else {
      forall i | 0 <= i < |c| ensures MapEvolves(c[i], c[i]) { }
    }
  }

  lemma {:induction false} ResolveDepsEvolves(env: Env, mode: Mode, c: seq<Records>, trace: seq<Call>, deps: seq<Dep>)
    requires c != []
    ensures Evolves(c, ResolveDeps(env, mode, c, trace, deps).chain)
    decreases EmptyCount(c), |c|, 2, |deps|
  {
    if deps == [] {
      forall i | 0 <= i < |c| ensures MapEvolves(c[i], c[i]) { }
    } else {
      ResolveEvolves(env, mode, c, trace, deps[0].token, DefaultOf(deps[0]), deps[0].self);
      var first := Awaited(env, mode, Resolve(env, mode, c, trace, deps[0].token, DefaultOf(deps[0]), deps[0].self));
      if first.result.Ok? {
        ResolveDepsEvolves(env, mode, first.chain, first.trace, deps[1..]);
        EvolvesTrans(c, first.chain, ResolveDeps(env, mode, first.chain, first.trace, deps[1..]).chain);
      }
    }
  }

  /** A value, once final, is never replaced: every later resolution on any
      injector of the chain leaves it as it is. */
  lemma FinalStays(env: Env, mode: Mode, c: seq<Records>, trace: seq<Call>, token: Token, dflt: Default, selfOnly: bool, i: nat, t: Token, v: Value)
    requires c != [] && i < |c| && t in c[i] && c[i][t].value == Final(v)
    ensures var o := Resolve(env, mode, c, trace, token, dflt, selfOnly);
      t in o.chain[i] && o.chain[i][t] == c[i][t]
  {
    ResolveEvolves(env, mode, c, trace, token, dflt, selfOnly);
    var o := Resolve(env, mode, c, trace, token, dflt, selfOnly);
    assert MapEvolves(c[i], o.chain[i]);
  }

  // ---------------------------------------------------------------------------
  // Memoisation and cycles.

  /** A successful resolution of a token with a local record leaves that record
      holding the result. */
  lemma ResolvedIsFinal(env: Env, mode: Mode, c: seq<Records>, trace: seq<Call>, token: Token, dflt: Default, selfOnly: bool)
    requires c != [] && token in c[0]
    ensures var o := Resolve(env, mode, c, trace, token, dflt, selfOnly);
      o.result.Ok? ==> token in o.chain[0] && o.chain[0][token].value == Final(o.result.value)
  {
  }

  /**
   * Memoisation (src/di/injector.ts:203-242): once a token with a local record
   * has resolved, resolving it again on the same injector returns the identical
   * value and runs no user code and changes no record.
   */
  lemma GetTwice(env: Env, mode: Mode, c: seq<Records>, trace: seq<Call>, token: Token, dflt: Default, dflt': Default, trace': seq<Call>)
    requires c != [] && token in c[0]
    ensures var o := Resolve(env, mode, c, trace, token, dflt, false);
      o.result.Ok? ==> Resolve(env, mode, o.chain, trace', token, dflt', false) == Outcome(o.result, o.chain, trace')
  {
    ResolvedIsFinal(env, mode, c, trace, token, dflt, false);
  }

  /** A record that is being built throws "Circular dependency" and changes
      nothing (src/di/injector.ts:205-207). */
  lemma CircularThrows(env: Env, mode: Mode, c: seq<Records>, trace: seq<Call>, token: Token, dflt: Default, selfOnly: bool)
    requires c != [] && token in c[0] && c[0][token].value == Circular
    ensures Resolve(env, mode, c, trace, token, dflt, selfOnly) == Outcome(Err(CircularDependency), c, trace)
  {
  }

  /**
   * The record is marked before its first dependency is resolved
   * (src/di/injector.ts:210): a record whose first dependency is itself
   * throws "Circular dependency" without running user code.
   */
  lemma SelfDependencyThrows(env: Env, mode: Mode, c: seq<Records>, trace: seq<Call>, token: Token, dflt: Default, selfOnly: bool)
    requires c != [] && token in c[0] && c[0][token].value == Empty
    requires c[0][token].deps != [] && c[0][token].deps[0].token == token
    ensures var o := Resolve(env, mode, c, trace, token, dflt, selfOnly);
      o.result == Err(CircularDependency) && o.trace == trace
  {
    FirstDepCircular(env, mode, c, trace, token);
  }

  /** Build, when the first dependency of the record throws "Circular
      dependency" against the marked chain. */
  lemma FirstDepCircular(env: Env, mode: Mode, c: seq<Records>, trace: seq<Call>, token: Token)
    requires c != [] && token in c[0] && c[0][token].value == Empty
    requires c[0][token].deps != []
    requires var d := c[0][token].deps[0];
      Resolve(env, mode, SetSlot(c, token, Circular), trace, d.token, DefaultOf(d), d.self).result == Err(CircularDependency)
    requires var d := c[0][token].deps[0];
      Resolve(env, mode, SetSlot(c, token, Circular), trace, d.token, DefaultOf(d), d.self).trace == trace
    ensures var o := Build(env, mode, c, trace, token);
      o.result == Err(CircularDependency) && o.trace == trace
  {
    var marked := SetSlot(c, token, Circular);
    var deps := c[0][token].deps;
    var first := Awaited(env, mode, Resolve(env, mode, marked, trace, deps[0].token, DefaultOf(deps[0]), deps[0].self));
    assert first.result == Err(CircularDependency) && first.trace == trace;
    var o := ResolveDeps(env, mode, marked, trace, deps);
    assert o.result == Err(CircularDependency) && o.trace == trace;
  }

  /** Two records that depend on each other: resolving either throws
      "Circular dependency" before any user code runs. */
  lemma TwoCycleThrows(env: Env, mode: Mode, c: seq<Records>, trace: seq<Call>, a: Token, b: Token, dflt: Default)
    requires c != [] && a != b && a in c[0] && b in c[0]
    requires c[0][a].value == Empty && c[0][b].value == Empty
    requires c[0][a].deps != [] && c[0][a].deps[0].token == b
    requires c[0][b].deps != [] && c[0][b].deps[0].token == a
    ensures var o := Resolve(env, mode, c, trace, a, dflt, false);
      o.result == Err(CircularDependency) && o.trace == trace
  {
    var m1 := SetSlot(c, a, Circular);
    assert m1[0][b] == c[0][b];
    FirstDepCircular(env, mode, m1, trace, b);
    FirstDepCircular(env, mode, c, trace, a);
  }

  // ---------------------------------------------------------------------------
  // A cycle through edges at any position.

  /** The record has an edge to `t`, at any position. */
  predicate HasEdgeTo(r: Record, t: Token)
  {
    exists j :: 0 <= j < |r.deps| && r.deps[j].token == t
  }

  /** `a` is being built on the first injector, and `b`, which has an edge back
      to `a`, is not final there. */
  predicate Pending(c: seq<Records>, a: Token, b: Token)
  {
    c != [] && a in c[0] && b in c[0] && c[0][a].value == Circular &&
    !c[0][b].value.Final? && HasEdgeTo(c[0][b], a)
  }

  lemma PendingEvolves(c: seq<Records>, c': seq<Records>, a: Token, b: Token)
    requires Pending(c, a, b) && Evolves(c, c') && b in c'[0] && !c'[0][b].value.Final?
    ensures Pending(c', a, b)
  {
    assert MapEvolves(c[0], c'[0]);
    assert RecordEvolves(c[0][a], c'[0][a]) && RecordEvolves(c[0][b], c'[0][b]);
    var j :| 0 <= j < |c[0][b].deps| && c[0][b].deps[j].token == a;
    assert c'[0][b].deps[j].token == a;
  }

  /** Edges that include one to a record under construction fail. */
  lemma {:induction false} DepsHitCircular(env: Env, mode: Mode, c: seq<Records>, trace: seq<Call>, deps: seq<Dep>, a: Token)
    requires c != [] && a in c[0] && c[0][a].value == Circular
    requires exists j :: 0 <= j < |deps| && deps[j].token == a
    ensures ResolveDeps(env, mode, c, trace, deps).result.Err?
    decreases |deps|
  {
    var first := Awaited(env, mode, Resolve(env, mode, c, trace, deps[0].token, DefaultOf(deps[0]), deps[0].self));
    if deps[0].token != a && first.result.Ok? {
      ResolveEvolves(env, mode, c, trace, deps[0].token, DefaultOf(deps[0]), deps[0].self);
      assert MapEvolves(c[0], first.chain[0]);
      var j :| 0 <= j < |deps| && deps[j].token == a;
      assert deps[1..][j - 1].token == a;
      DepsHitCircular(env, mode, first.chain, first.trace, deps[1..], a);
    }
  }

  /** While `a` is being built, no resolution finalises `b`: building `b` would
      meet `a`'s mark. */
  lemma {:induction false} PendingResolve(env: Env, mode: Mode, c: seq<Records>, trace: seq<Call>, token: Token, dflt: Default, selfOnly: bool, a: Token, b: Token)
    requires Pending(c, a, b)
    ensures Pending(Resolve(env, mode, c, trace, token, dflt, selfOnly).chain, a, b)
    decreases EmptyCount(c), |c|, 1, 0
  {
    if token in c[0] && c[0][token].value == Empty {
      PendingBuild(env, mode, c, trace, token, a, b);
    }
  }

  /** Building `b` while `a` is being built fails at `b`'s edge back to `a`
      and leaves `b` marked. */
  lemma BackEdgeFails(env: Env, mode: Mode, c: seq<Records>, trace: seq<Call>, a: Token, b: Token)
    requires Pending(c, a, b) && c[0][b].value == Empty
    ensures Build(env, mode, c, trace, b).result.Err?
    ensures Pending(Build(env, mode, c, trace, b).chain, a, b)
  {
    var marked := SetSlot(c, b, Circular);
    MarkEvolves(c, b, Circular);
    var deps := ResolveDeps(env, mode, marked, trace, c[0][b].deps);
    ResolveDepsEvolves(env, mode, marked, trace, c[0][b].deps);
    DepsHitCircular(env, mode, marked, trace, c[0][b].deps, a);
    assert MapEvolves(marked[0], deps.chain[0]);
    assert RecordEvolves(marked[0][b], deps.chain[0][b]);
    PendingEvolves(c, marked, a, b);
    PendingEvolves(marked, deps.chain, a, b);
  }

  lemma {:induction false} PendingBuild(env: Env, mode: Mode, c: seq<Records>, trace: seq<Call>, token: Token, a: Token, b: Token)
    requires Pending(c, a, b) && token in c[0] && c[0][token].value == Empty
    ensures Pending(Build(env, mode, c, trace, token).chain, a, b)
    decreases EmptyCount(c), |c|, 0, 0
  {
    if token == b {
      BackEdgeFails(env, mode, c, trace, a, b);
    } else {
      var rec := c[0][token];
      var marked := SetSlot(c, token, Circular);
      MarkEvolves(c, token, Circular);
      PendingEvolves(c, marked, a, b);
      PendingDeps(env, mode, marked, trace, rec.deps, a, b);
      var deps := ResolveDeps(env, mode, marked, trace, rec.deps);
      if deps.result.Ok? {
        PendingProduce(env, deps.chain, deps.trace, rec.func, rec.instanciate, deps.result.value, a, b);
        var made := Produce(env, deps.chain, deps.trace, rec.func, rec.instanciate, deps.result.value);
        if made.result.Ok? {
          PendingWrite(made.chain, token, Final(made.result.value), a, b);
        }
      }
    }
  }

  /** Writing the slot of a third token keeps a pending back edge. */
  lemma PendingWrite(c: seq<Records>, token: Token, slot: Slot, a: Token, b: Token)
    requires Pending(c, a, b) && token in c[0] && token != a && token != b
    ensures Pending(SetSlot(c, token, slot), a, b)
  {
    var c' := SetSlot(c, token, slot);
    assert c'[0][a] == c[0][a] && c'[0][b] == c[0][b];
  }

  lemma {:induction false} PendingProduce(env: Env, c: seq<Records>, trace: seq<Call>, func: Producer, instanciate: bool, args: seq<Value>, a: Token, b: Token)
    requires Pending(c, a, b)
    ensures Pending(Produce(env, c, trace, func, instanciate, args).chain, a, b)
    decreases EmptyCount(c), |c|, 3, 0
  {
    if func.AliasOf? {
      PendingResolve(env, Sync, c, trace, func.use, ThrowIfNotFound, false, a, b);
    }
  }

  lemma {:induction false} PendingDeps(env: Env, mode: Mode, c: seq<Records>, trace: seq<Call>, deps: seq<Dep>, a: Token, b: Token)
    requires Pending(c, a, b)
    ensures Pending(ResolveDeps(env, mode, c, trace, deps).chain, a, b)
    decreases EmptyCount(c), |c|, 2, |deps|
  {
    if deps != [] {
      PendingResolve(env, mode, c, trace, deps[0].token, DefaultOf(deps[0]), deps[0].self, a, b);
      var first := Awaited(env, mode, Resolve(env, mode, c, trace, deps[0].token, DefaultOf(deps[0]), deps[0].self));
      if first.result.Ok? {
        PendingDeps(env, mode, first.chain, first.trace, deps[1..], a, b);
      }
    }
  }

  /** Edges of `a` that reach `b`, while `b` points back at `a`, fail. */
  lemma {:induction false} DepsReachCycle(env: Env, mode: Mode, c: seq<Records>, trace: seq<Call>, deps: seq<Dep>, a: Token, b: Token)
    requires Pending(c, a, b)
    requires exists j :: 0 <= j < |deps| && deps[j].token == b
    ensures ResolveDeps(env, mode, c, trace, deps).result.Err?
    decreases |deps|
  {
    var first := Awaited(env, mode, Resolve(env, mode, c, trace, deps[0].token, DefaultOf(deps[0]), deps[0].self));
    if deps[0].token == b {
      if c[0][b].value == Empty {
        BackEdgeFails(env, mode, c, trace, a, b);
      }
      assert first.result.Err?;
    } else if first.result.Ok? {
      PendingResolve(env, mode, c, trace, deps[0].token, DefaultOf(deps[0]), deps[0].self, a, b);
      var j :| 0 <= j < |deps| && deps[j].token == b;
      assert deps[1..][j - 1].token == b;
      DepsReachCycle(env, mode, first.chain, first.trace, deps[1..], a, b);
    }
  }

  /**
   * Cycle detection (src/di/injector.ts:205-212): two records of one injector
   * that depend on each other, through edges at any position, can never be
   * resolved: resolving either fails, with "Circular dependency" or with an
   * error met on the way.
   */
  lemma CycleFails(env: Env, mode: Mode, c: seq<Records>, trace: seq<Call>, a: Token, b: Token, dflt: Default, selfOnly: bool)
    requires c != [] && a != b && a in c[0] && b in c[0]
    requires c[0][a].value == Empty && !c[0][b].value.Final?
    requires HasEdgeTo(c[0][a], b) && HasEdgeTo(c[0][b], a)
    ensures Resolve(env, mode, c, trace, a, dflt, selfOnly).result.Err?
  {
    var marked := SetSlot(c, a, Circular);
    assert marked[0][b] == c[0][b];
    assert Pending(marked, a, b);
    DepsReachCycle(env, mode, marked, trace, c[0][a].deps, a, b);
  }

  /**
   * No restore (src/di/injector.ts:210, 238): when building a record fails,
   * the record stays `Circular`, so every later resolution of the token on
   * that injector throws "Circular dependency".
   */
  lemma StuckAfterFailure(env: Env, mode: Mode, c: seq<Records>, trace: seq<Call>, token: Token, dflt: Default, selfOnly: bool, dflt': Default, trace': seq<Call>)
    requires c != [] && token in c[0] && c[0][token].value == Empty
    ensures var o := Resolve(env, mode, c, trace, token, dflt, selfOnly);
      o.result.Err? ==>
        token in o.chain[0] && o.chain[0][token].value == Circular &&
        Resolve(env, mode, o.chain, trace', token, dflt', selfOnly) == Outcome(Err(CircularDependency), o.chain, trace')
  {
    FailureLeavesCircular(env, mode, c, trace, token);
  }

  lemma FailureLeavesCircular(env: Env, mode: Mode, c: seq<Records>, trace: seq<Call>, token: Token)
    requires c != [] && token in c[0] && c[0][token].value == Empty
    ensures var o := Build(env, mode, c, trace, token);
      o.result.Err? ==> token in o.chain[0] && o.chain[0][token].value == Circular
  {
    var rec := c[0][token];
    var marked := SetSlot(c, token, Circular);
    var deps := ResolveDeps(env, mode, marked, trace, rec.deps);
    ResolveDepsEvolves(env, mode, marked, trace, rec.deps);
    StaysCircular(marked, deps.chain, token);
    if deps.result.Ok? {
      var made := Produce(env, deps.chain, deps.trace, rec.func, rec.instanciate, deps.result.value);
      ProduceEvolves(env, deps.chain, deps.trace, rec.func, rec.instanciate, deps.result.value);
      StaysCircular(deps.chain, made.chain, token);
    }
  }

  lemma StaysCircular(c: seq<Records>, c': seq<Records>, token: Token)
    requires c != [] && token in c[0] && c[0][token].value == Circular
    requires Evolves(c, c')
    ensures token in c'[0] && c'[0][token] == c[0][token]
  {
    assert MapEvolves(c[0], c'[0]);
  }

  // ---------------------------------------------------------------------------
  // Delegation and the NullInjector rule.

  /**
   * A token with no local record is looked up in the parent with the caller's
   * default (src/di/injector.ts:245-248): it is resolved by the nearest
   * ancestor that has a record for it, and the injectors below are unchanged.
   */
  lemma {:induction false} NearestAncestor(env: Env, mode: Mode, c: seq<Records>, trace: seq<Call>, token: Token, dflt: Default, k: nat)
    requires k < |c| && token in c[k]
    requires forall j :: 0 <= j < k ==> token !in c[j]
    ensures var a := Resolve(env, mode, c[k..], trace, token, dflt, false);
      Resolve(env, mode, c, trace, token, dflt, false) == Outcome(a.result, c[..k] + a.chain, a.trace)
  {
    if k == 0 {
      assert c[0..] == c;
    } else {
      assert token !in c[0];
      ResolveMiss(env, mode, c, trace, token, dflt);
      NearestAncestor(env, mode, c[1..], trace, token, dflt, k - 1);
      var a := Resolve(env, mode, c[k..], trace, token, dflt, false);
      ConsPrefix(c, k, a.chain);
    }
  }

  /** Taking the head off `c` shifts its prefixes and suffixes by one. */
  lemma ConsPrefix<T>(c: seq<T>, k: nat, x: seq<T>)
    requires 0 < k < |c|
    ensures c[1..][k - 1..] == c[k..]
    ensures [c[0]] + (c[1..][..k - 1] + x) == c[..k] + x
  {
    assert [c[0]] + c[1..][..k - 1] == c[..k];
  }

  /** A token with no local record is the parent's answer, with the local
      table in front of the chain it leaves. */
  lemma ResolveMiss(env: Env, mode: Mode, c: seq<Records>, trace: seq<Call>, token: Token, dflt: Default)
    requires |c| > 1 && token !in c[0]
    ensures var o := Resolve(env, mode, c[1..], trace, token, dflt, false);
      Resolve(env, mode, c, trace, token, dflt, false) == Outcome(o.result, [c[0]] + o.chain, o.trace)
  {
  }

  /** A token that no injector of the chain has falls through to the
      NullInjector rule, with the caller's default, changing nothing. */
  lemma {:induction false} AbsentEverywhere(env: Env, mode: Mode, c: seq<Records>, trace: seq<Call>, token: Token, dflt: Default)
    requires c != []
    requires forall j :: 0 <= j < |c| ==> token !in c[j]
    ensures Resolve(env, mode, c, trace, token, dflt, false) == Outcome(NullGet(mode, token, dflt), c, trace)
  {
    if |c| > 1 {
      AbsentEverywhere(env, mode, c[1..], trace, token, dflt);
      assert [c[0]] + c[1..] == c;
    }
  }

  /** A `self` edge with no local record skips the parents and applies the
      NullInjector rule (src/di/injector.ts:249-251). */
  lemma SelfOnlySkipsParents(env: Env, mode: Mode, c: seq<Records>, trace: seq<Call>, token: Token, dflt: Default)
    requires c != [] && token !in c[0]
    ensures Resolve(env, mode, c, trace, token, dflt, true) == Outcome(NullGet(mode, token, dflt), c, trace)
  {
  }

  /**
   * The NullInjector (src/di/injector.ts:23-38): with a default other than
   * `undefined` it returns the default; without one, or with `undefined`,
   * `get` throws "No provider" while `getAsync` returns an Error object as
   * its value.
   */
  lemma MissingToken(env: Env, c: seq<Records>, trace: seq<Call>, token: Token, v: Value)
    requires c != []
    requires forall j :: 0 <= j < |c| ==> token !in c[j]
    ensures Resolve(env, Sync, c, trace, token, ThrowIfNotFound, false).result == Err(NoProvider(token))
    ensures Awaited(env, Async, Resolve(env, Async, c, trace, token, ThrowIfNotFound, false)).result == Ok(ErrorObject(NoProvider(token)))
    ensures Resolve(env, Sync, c, trace, token, Fallback(v), false).result ==
      if v == Undefined then Err(NoProvider(token)) else Ok(v)
    ensures Resolve(env, Async, c, trace, token, Fallback(v), false).result ==
      if v == Undefined then Ok(ErrorObject(NoProvider(token))) else Ok(v)
  {
    AbsentEverywhere(env, Sync, c, trace, token, ThrowIfNotFound);
    AbsentEverywhere(env, Async, c, trace, token, ThrowIfNotFound);
    AbsentEverywhere(env, Sync, c, trace, token, Fallback(v));
    AbsentEverywhere(env, Async, c, trace, token, Fallback(v));
  }

  /** A default of `undefined` is no default at all: every injector's `get`
      and the NullInjector's replace it by THROW_IF_NOT_FOUND
      (src/di/injector.ts:23, 31, 128, 140), so the whole resolution is the
      one without a default. */
  lemma {:induction false} UndefinedDefault(env: Env, mode: Mode, c: seq<Records>, trace: seq<Call>, token: Token, selfOnly: bool)
    requires c != []
    ensures Resolve(env, mode, c, trace, token, Fallback(Undefined), selfOnly) ==
            Resolve(env, mode, c, trace, token, ThrowIfNotFound, selfOnly)
    decreases |c|
  {
    if token !in c[0] && !selfOnly && |c| > 1 {
      UndefinedDefault(env, mode, c[1..], trace, token, false);
    }
  }

  // ---------------------------------------------------------------------------
  // Dependencies.

  /** An optional dependency that nothing provides resolves to `null`
      (src/di/injector.ts:224-229). */
  lemma MissingOptionalIsNull(env: Env, mode: Mode, c: seq<Records>, trace: seq<Call>, d: Dep)
    requires c != [] && d.optional
    requires forall j :: 0 <= j < |c| ==> d.token !in c[j]
    ensures ResolveDeps(env, mode, c, trace, [d]) == Outcome(Ok([Null]), c, trace)
  {
    AbsentEverywhere(env, mode, c, trace, d.token, Fallback(Null));
    assert [d][0] == d && [d][1..] == [];
    assert ResolveDeps(env, mode, c, trace, []) == Outcome(Ok([]), c, trace);
    assert [Null] + [] == [Null];
  }

  /** Dependencies are resolved one after the other, in declaration order: the
      edges `a + b` are the edges `a`, then the edges `b` on the chain `a` left. */
  lemma {:induction false} ResolveDepsAppend(env: Env, mode: Mode, c: seq<Records>, trace: seq<Call>, a: seq<Dep>, b: seq<Dep>)
    requires c != []
    ensures var x := ResolveDeps(env, mode, c, trace, a);
      ResolveDeps(env, mode, c, trace, a + b) ==
        if x.result.Err? then x else Prepend(x.result.value, ResolveDeps(env, mode, x.chain, x.trace, b))
    decreases |a|
  {
    if a == [] {
      assert a + b == b;
      var o := ResolveDeps(env, mode, c, trace, b);
      if o.result.Ok? { assert [] + o.result.value == o.result.value; }
    } else {
      var first := Awaited(env, mode, Resolve(env, mode, c, trace, a[0].token, DefaultOf(a[0]), a[0].self));
      ResolveDepsCons(env, mode, c, trace, a);
      ResolveDepsCons(env, mode, c, trace, a + b);
      assert (a + b)[0] == a[0] && (a + b)[1..] == a[1..] + b;
      if first.result.Ok? {
        ResolveDepsAppend(env, mode, first.chain, first.trace, a[1..], b);
        var x := ResolveDeps(env, mode, first.chain, first.trace, a[1..]);
        PrependThen([first.result.value], x, if x.result.Ok? then ResolveDeps(env, mode, x.chain, x.trace, b) else x);
      }
    }
  }

  /** Prepending values before a two-part outcome is prepending them before
      its first part. */
  lemma PrependThen(u: seq<Value>, x: Outcome<seq<Value>>, y: Outcome<seq<Value>>)
    ensures var px := Prepend(u, x);
      Prepend(u, if x.result.Err? then x else Prepend(x.result.value, y)) ==
        if px.result.Err? then px else Prepend(px.result.value, y)
  {
    if x.result.Ok? && y.result.Ok? {
      assert u + (x.result.value + y.result.value) == (u + x.result.value) + y.result.value;
    }
  }

  /** One step of the dependency loop. */
  lemma ResolveDepsCons(env: Env, mode: Mode, c: seq<Records>, trace: seq<Call>, deps: seq<Dep>)
    requires c != [] && deps != []
    ensures var first := Awaited(env, mode, Resolve(env, mode, c, trace, deps[0].token, DefaultOf(deps[0]), deps[0].self));
      ResolveDeps(env, mode, c, trace, deps) ==
        if first.result.Err? then Outcome(Err(first.result.error), first.chain, first.trace)
        else Prepend([first.result.value], ResolveDeps(env, mode, first.chain, first.trace, deps[1..]))
  {
  }
}
