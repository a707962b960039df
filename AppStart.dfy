/**
 * `start()` of the module application (src/app/application.ts:81-109), on the
 * record tables of the whole injector tree.  Table 0 is the application
 * injector's, table `k + 1` that of the `k`-th module ref; `up[k]` is the
 * table of ref `k`'s parent injector.  Resolving through ref `k`'s injector
 * works on the chain from its table to table 0 and writes the chain back.
 */
module AppStart {
  import opened Types
  import opened Resolution
  import opened Registration

  /** Every injector's parent comes earlier in the tree. */
  predicate WellUp(up: seq<nat>)
  {
    forall k :: 0 <= k < |up| ==> up[k] <= k
  }

  /** The number of injectors from table `n` up to table 0. */
  function Height(up: seq<nat>, n: nat): (h: nat)
    requires WellUp(up) && n <= |up|
    ensures h >= 1 && (n == 0 <==> h == 1)
    decreases n
  {
    if n == 0 then 1 else 1 + Height(up, up[n - 1])
  }

  /** Table `m` is on the way from table `n` to table 0. */
  predicate OnPath(up: seq<nat>, n: nat, m: nat)
    requires WellUp(up) && n <= |up|
    decreases n
  {
    m == n || (n > 0 && OnPath(up, up[n - 1], m))
  }

  /** The chain an injector resolves on: its own table, then its ancestors'. */
  function Chain(tables: seq<Records>, up: seq<nat>, n: nat): (c: seq<Records>)
    requires WellUp(up) && |tables| == |up| + 1 && n < |tables|
    ensures |c| == Height(up, n) && c[0] == tables[n]
    decreases n
  {
    if n == 0 then [tables[0]] else [tables[n]] + Chain(tables, up, up[n - 1])
  }

  /**
   * The tables after a resolution through injector `n` left the chain `c`:
   * the injectors on the way take their tables from `c`, the others keep
   * theirs.
   */
  function Writeback(tables: seq<Records>, up: seq<nat>, n: nat, c: seq<Records>): (t: seq<Records>)
    requires WellUp(up) && |tables| == |up| + 1 && n < |tables| && |c| == Height(up, n)
    ensures |t| == |tables|
    decreases n
  {
    if n == 0 then tables[0 := c[0]] else Writeback(tables[n := c[0]], up, up[n - 1], c[1..])
  }

  /** The written-back tree has chain `c` from `n` and keeps every table off
      the way. */
  lemma {:induction false} WritebackSpec(tables: seq<Records>, up: seq<nat>, n: nat, c: seq<Records>)
    requires WellUp(up) && |tables| == |up| + 1 && n < |tables| && |c| == Height(up, n)
    ensures Chain(Writeback(tables, up, n, c), up, n) == c
    ensures forall m :: 0 <= m < |tables| && !OnPath(up, n, m) ==> Writeback(tables, up, n, c)[m] == tables[m]
    decreases n
  {
    if n > 0 {
      var t := Writeback(tables, up, n, c);
      WritebackSpec(tables[n := c[0]], up, up[n - 1], c[1..]);
      PathBelow(up, up[n - 1], n);
      assert t[n] == c[0];
      assert c == [c[0]] + c[1..];
    }
  }

  lemma {:induction false} PathBelow(up: seq<nat>, n: nat, m: nat)
    requires WellUp(up) && n < m <= |up|
    ensures !OnPath(up, n, m)
    decreases n
  {
    if n > 0 {
      PathBelow(up, up[n - 1], m);
    }
  }

  /** Two tree states with the same chain from `n` agree on the way from `n`;
      with the off-path tables, `Writeback` is the only tree giving a chain. */
  lemma {:induction false} ChainDetermines(t1: seq<Records>, t2: seq<Records>, up: seq<nat>, n: nat)
    requires WellUp(up) && |t1| == |up| + 1 && |t2| == |t1| && n < |t1|
    requires Chain(t1, up, n) == Chain(t2, up, n)
    ensures forall m :: 0 <= m < |t1| && OnPath(up, n, m) ==> t1[m] == t2[m]
    decreases n
  {
    if n > 0 {
      assert Chain(t1, up, up[n - 1]) == Chain(t1, up, n)[1..];
      assert Chain(t2, up, up[n - 1]) == Chain(t2, up, n)[1..];
      ChainDetermines(t1, t2, up, up[n - 1]);
    }
  }

  lemma WritebackUnique(tables: seq<Records>, up: seq<nat>, n: nat, t: seq<Records>)
    requires WellUp(up) && |tables| == |up| + 1 && n < |tables| && |t| == |tables|
    requires forall m :: 0 <= m < |t| && !OnPath(up, n, m) ==> t[m] == tables[m]
    ensures t == Writeback(tables, up, n, Chain(t, up, n))
  {
    var w := Writeback(tables, up, n, Chain(t, up, n));
    WritebackSpec(tables, up, n, Chain(t, up, n));
    ChainDetermines(t, w, up, n);
  }

  /**
   * `for (...) await initializers[i]`: the entries of an array in order, a
   * rejection stopping the loop; a value without `length` has no entries, and
   * reading `length` of null or undefined throws.
   */
  function Initializers(env: Env, v: Value, trace: seq<Call>): (r: (Result<()>, seq<Call>))
    ensures trace <= r.1
    ensures v.Undefined? || v.Null? ==> r == (Err(NoLength), trace)
    ensures !v.List? && !v.Undefined? && !v.Null? ==> r == (Ok(()), trace)
  {
    if v.Undefined? || v.Null? then (Err(NoLength), trace)
    else if v.List? then AwaitAll(env, v.items, trace)
    else (Ok(()), trace)
  }

  function AwaitAll(env: Env, items: seq<Value>, trace: seq<Call>): (r: (Result<()>, seq<Call>))
    ensures trace <= r.1
    decreases |items|
  {
    if items == [] then (Ok(()), trace)
    else
      var (settled, tr) := Settle(env, items[0], trace);
      if settled.Err? then (Err(settled.error), tr)
      else AwaitAll(env, items[1..], tr)
  }

  /** The state of the tree after one call through injector `n`. */
  datatype Step = Step(result: Result<Value>, tables: seq<Records>, trace: seq<Call>)

  /**
   * One pass of the loop on the chain of the ref's injector: its initializers
   * are resolved with `[]` as default and awaited, then its module class is
   * instantiated.
   */
  function Pass(env: Env, c: seq<Records>, t: Fn, trace: seq<Call>): (o: Outcome<Value>)
    requires c != []
    ensures |o.chain| == |c| && trace <= o.trace
  {
    var got := Resolve(env, Sync, c, trace, AppInitializer, Fallback(List([])), false);
    if got.result.Err? then got
    else
      var awaited := Initializers(env, got.result.value, got.trace);
      if awaited.0.Err? then Outcome(Err(awaited.0.error), got.chain, awaited.1)
      else Instantiation(env, Sync, got.chain, awaited.1, t, true)
  }

  /** The pass through injector `n`, on the whole tree. */
  function StartRef(env: Env, tables: seq<Records>, up: seq<nat>, n: nat, t: Fn, trace: seq<Call>): (st: Step)
    requires WellUp(up) && |tables| == |up| + 1 && n < |tables|
    ensures |st.tables| == |tables| && trace <= st.trace
  {
    var o := Pass(env, Chain(tables, up, n), t, trace);
    Step(o.result, Writeback(tables, up, n, o.chain), o.trace)
  }

  /** The loop state: the tables, the trace, every ref's `instance` and how
      many refs are done. */
  datatype Run = Run(tables: seq<Records>, trace: seq<Call>, instances: seq<Value>, started: nat)

  predicate Fits(up: seq<nat>, types: seq<Fn>, s: Run)
  {
    WellUp(up) && |types| == |up| && |s.tables| == |up| + 1 && |s.instances| == |types| && s.started <= |types|
  }

  /**
   * The refs from `s.started` on, in order.  The first error stops the loop:
   * later refs keep their instance.  On success every ref is done.
   */
  function StartFrom(env: Env, up: seq<nat>, types: seq<Fn>, s: Run): (o: (Result<()>, Run))
    requires Fits(up, types, s)
    decreases |types| - s.started, 2
  {
    if s.started == |types| then (Ok(()), s)
    else Next(env, up, types, s)
  }

  /** Ref `s.started` is started, then the loop goes on after it. */
  function Next(env: Env, up: seq<nat>, types: seq<Fn>, s: Run): (o: (Result<()>, Run))
    requires Fits(up, types, s) && s.started < |types|
    decreases |types| - s.started, 1
  {
    After(env, up, types, s, StartRef(env, s.tables, up, s.started + 1, types[s.started], s.trace))
  }

  /** The loop after ref `s.started` gave `st`. */
  function After(env: Env, up: seq<nat>, types: seq<Fn>, s: Run, st: Step): (o: (Result<()>, Run))
    requires Fits(up, types, s) && s.started < |types| && |st.tables| == |s.tables| && s.trace <= st.trace
    decreases |types| - s.started, 0
  {
    var k := s.started;
    if st.result.Err? then (Err(st.result.error), s.(tables := st.tables, trace := st.trace))
    else StartFrom(env, up, types, Run(st.tables, st.trace, s.instances[k := st.result.value], k + 1))
  }

  /** The whole loop, from the first ref. */
  function StartAll(env: Env, up: seq<nat>, types: seq<Fn>, tables: seq<Records>, trace: seq<Call>, instances: seq<Value>): (o: (Result<()>, Run))
    requires WellUp(up) && |types| == |up| && |tables| == |up| + 1 && |instances| == |types|
  {
    StartFrom(env, up, types, Run(tables, trace, instances, 0))
  }

  /**
   * The loop from `s` ends either with every ref done, or with an error at
   * the first ref not done; only the refs it went through get an instance,
   * and the calls made so far stay a prefix of the trace.
   */
  lemma {:induction false} StartFromFacts(env: Env, up: seq<nat>, types: seq<Fn>, s: Run)
    requires Fits(up, types, s)
    ensures var o := StartFrom(env, up, types, s);
      Fits(up, types, o.1) && s.started <= o.1.started && s.trace <= o.1.trace &&
      (o.0.Ok? <==> o.1.started == |types|) &&
      (forall j :: 0 <= j < |types| && !(s.started <= j < o.1.started) ==> o.1.instances[j] == s.instances[j])
    decreases |types| - s.started
  {
    if s.started < |types| {
      var st := StartRef(env, s.tables, up, s.started + 1, types[s.started], s.trace);
      StartNext(env, up, types, s, st);
      if st.result.Ok? {
        StartFromFacts(env, up, types, Run(st.tables, st.trace, s.instances[s.started := st.result.value], s.started + 1));
      }
    }
  }

  /** One more ref done, or the loop stopped by its error. */
  lemma StartNext(env: Env, up: seq<nat>, types: seq<Fn>, s: Run, st: Step)
    requires Fits(up, types, s) && s.started < |types|
    requires st == StartRef(env, s.tables, up, s.started + 1, types[s.started], s.trace)
    ensures StartFrom(env, up, types, s) == After(env, up, types, s, st)
  {
    assert StartFrom(env, up, types, s) == Next(env, up, types, s);
  }

  /** Ref `s.started` started well: the loop goes on from the next ref. */
  lemma StartOk(env: Env, up: seq<nat>, types: seq<Fn>, s: Run, st: Step)
    requires Fits(up, types, s) && s.started < |types|
    requires st == StartRef(env, s.tables, up, s.started + 1, types[s.started], s.trace) && st.result.Ok?
    ensures Fits(up, types, Run(st.tables, st.trace, s.instances[s.started := st.result.value], s.started + 1))
    ensures StartFrom(env, up, types, s) ==
      StartFrom(env, up, types, Run(st.tables, st.trace, s.instances[s.started := st.result.value], s.started + 1))
  {
    StartNext(env, up, types, s, st);
  }

  /** Ref `s.started` failed: the loop ends there with its error. */
  lemma StartErr(env: Env, up: seq<nat>, types: seq<Fn>, s: Run, st: Step)
    requires Fits(up, types, s) && s.started < |types|
    requires st == StartRef(env, s.tables, up, s.started + 1, types[s.started], s.trace) && st.result.Err?
    ensures StartFrom(env, up, types, s) == (Err(st.result.error), Run(st.tables, st.trace, s.instances, s.started))
  {
    StartNext(env, up, types, s, st);
  }

  /** With every ref done, the loop ends well where it is. */
  lemma StartDone(env: Env, up: seq<nat>, types: seq<Fn>, s: Run)
    requires Fits(up, types, s) && s.started == |types|
    ensures StartFrom(env, up, types, s) == (Ok(()), s)
  {
  }
}
