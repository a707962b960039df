/**
 * The event emitter of src/util/event-source.ts and its older copy
 * src/EventSource.ts.  Both keep, per event type, a list of listeners sorted
 * by ascending priority; both add with `on`, remove one listener with
 * `removeListener` and a whole type with `removeListeners`.  They differ only
 * in `emit`: the newer one awaits each listener in turn and resolves to
 * `undefined`; the older one chains the listeners with `then` and resolves to
 * the last listener's value.
 *
 * A listener function is a `Fn`, compared by identity; calling it and
 * awaiting what it returns go through the `Env` boundary and are recorded in
 * the call trace.
 */
module Events {
  import opened Types

  /** The priority `on` uses when none is given. */
  const DefaultPriority: int := 100

  /** One entry of a type's list: `{func, priority}`. */
  datatype Listener = Listener(func: Fn, priority: int)

  /** Listeners in ascending priority. */
  predicate Sorted(list: seq<Listener>)
  {
    forall i, j :: 0 <= i < j < |list| ==> list[i].priority <= list[j].priority
  }

  /** Where `x` goes in `list`: before the first entry of greater priority. */
  function InsertPos(list: seq<Listener>, x: Listener): (k: nat)
    ensures k <= |list|
    ensures forall i :: 0 <= i < k ==> list[i].priority <= x.priority
    ensures k < |list| ==> list[k].priority > x.priority
  {
    if list == [] || x.priority < list[0].priority then 0
    else 1 + InsertPos(list[1..], x)
  }

  /** One step of a stable insertion sort: `x` placed after every entry of
      lower or equal priority that precedes the first greater one. */
  function Insert(list: seq<Listener>, x: Listener): (r: seq<Listener>)
    ensures |r| == |list| + 1
  {
    if list == [] then [x]
    else if x.priority < list[0].priority then [x] + list
    else [list[0]] + Insert(list[1..], x)
  }

  /**
   * `Array.prototype.sort` with the comparator `a.priority - b.priority`:
   * a stable sort by ascending priority, written as insertion sort.
   */
  function SortByPriority(list: seq<Listener>): (r: seq<Listener>)
    ensures |r| == |list|
  {
    if list == [] then []
    else Insert(SortByPriority(list[..|list| - 1]), list[|list| - 1])
  }

  /** The list left by removing the first entry whose `func` is `f`. */
  function RemoveFirst(list: seq<Listener>, f: Fn): (r: seq<Listener>)
    ensures |r| <= |list|
  {
    if list == [] then []
    else if list[0].func == f then list[1..]
    else [list[0]] + RemoveFirst(list[1..], f)
  }

  /** The index of the first entry whose `func` is `f`, or `|list|`. */
  function FirstOf(list: seq<Listener>, f: Fn): (k: nat)
    ensures k <= |list|
    ensures forall i :: 0 <= i < k ==> list[i].func != f
    ensures k < |list| ==> list[k].func == f
  {
    if list == [] then 0
    else if list[0].func == f then 0
    else 1 + FirstOf(list[1..], f)
  }

  /** The functions of `list`, in list order. */
  function Funcs(list: seq<Listener>): (r: seq<Fn>)
    ensures |r| == |list|
  {
    if list == [] then [] else [list[0].func] + Funcs(list[1..])
  }

  /** The functions called in a trace, in order; awaits are skipped. */
  function Called(trace: seq<Call>): seq<Fn>
  {
    if trace == [] then []
    else (if trace[0].Call? then [trace[0].f] else []) + Called(trace[1..])
  }

  /**
   * Running the listeners of `list` one after the other with `args`: each is
   * called, what it returns is awaited, and the first throw or rejection
   * stops the run with that error.  On success the value is the last
   * listener's settled value (`last` for an empty list).
   */
  function Emission(env: Env, list: seq<Listener>, args: seq<Value>, trace: seq<Call>, last: Value): (o: (Result<Value>, seq<Call>))
    decreases |list|
  {
    if list == [] then (Ok(last), trace)
    else
      var s := Step(env, list[0], args, trace);
      if s.0.Err? then s else Emission(env, list[1..], args, s.1, s.0.value)
  }

  /** One listener: it is called with `args` (a throw is an error), then what
      it returned is awaited. */
  function Step(env: Env, l: Listener, args: seq<Value>, trace: seq<Call>): (o: (Result<Value>, seq<Call>))
  {
    var (v, t1) := Invoke(env, l.func, false, args, trace);
    if v.Err? then (v, t1) else Settle(env, v.value, t1)
  }

  class EventSource {
    /** `__l` (`__listeners` in the older copy): event type to its list. */
    var listeners: map<string, seq<Listener>>

    /** Every list is kept in ascending priority. */
    predicate Valid()
      reads this
    {
      forall t :: t in listeners ==> Sorted(listeners[t])
    }

    /** The list of `kind`, or none at all. */
    function ListOf(kind: string): (r: seq<Listener>)
      reads this
      ensures kind in listeners ==> r == listeners[kind]
      ensures kind !in listeners ==> r == []
    {
      if kind in listeners then listeners[kind] else []
    }

    constructor ()
      ensures Valid() && listeners == map[]
    {
      listeners := map[];
    }

    /**
     * `on(type, func, priority = 100)`: the entry is pushed on the type's
     * list (made empty first if missing), then the list is sorted; every
     * other type keeps its list.
     */
    method On(kind: string, func: Fn, priority: Option<int>)
      requires Valid()
      modifies this
      ensures Valid()
      ensures listeners == old(listeners)[kind := SortByPriority(old(ListOf(kind)) +
                [Listener(func, if priority.Some? then priority.value else DefaultPriority)])]
    {
      var entry := Listener(func, if priority.Some? then priority.value else DefaultPriority);
      var list := ListOf(kind);
      SortAfterPush(list, entry);
      listeners := listeners[kind := Insert(list, entry)];
      InsertSorted(list, entry);
    }

    /**
     * `removeListener(type, func)`: the first entry of the type's list whose
     * function is `func` is spliced out; without a list or a match nothing
     * changes.
     */
    method RemoveListener(kind: string, func: Fn)
      requires Valid()
      modifies this
      ensures Valid()
      ensures listeners == if kind in old(listeners) then old(listeners)[kind := RemoveFirst(old(listeners)[kind], func)]
                           else old(listeners)
    {
      if kind in listeners {
        var list := listeners[kind];
        var i := 0;
        while i < |list| && list[i].func != func
          invariant i <= |list|
          invariant forall j :: 0 <= j < i ==> list[j].func != func
        {
          i := i + 1;
        }
        RemoveAt(list, func, i);
        RemoveFirstSorted(list, func);
        if i < |list| {
          listeners := listeners[kind := list[..i] + list[i + 1..]];
        } else {
          assert listeners == listeners[kind := list];
        }
      }
    }

    /** `removeListeners(type)`: the type's entry is deleted. */
    method RemoveListeners(kind: string)
      requires Valid()
      modifies this
      ensures Valid()
      ensures listeners == old(listeners) - {kind}
    {
      listeners := listeners - {kind};
    }

    /**
     * The loop both `emit`s share: the listeners of `kind` are called one at
     * a time with `args`, each awaited before the next, in list order.
     */
    method Dispatch(env: Env, kind: string, args: seq<Value>, trace: seq<Call>) returns (r: Result<Value>, tr: seq<Call>)
      ensures (r, tr) == Emission(env, ListOf(kind), args, trace, Undefined)
    {
      var list := ListOf(kind);
      var i := 0;
      r, tr := Ok(Undefined), trace;
      while i < |list| && r.Ok?
        invariant i <= |list|
        invariant r.Ok? ==> Emission(env, list[i..], args, tr, r.value) == Emission(env, list, args, trace, Undefined)
        invariant r.Err? ==> (r, tr) == Emission(env, list, args, trace, Undefined)
        decreases |list| - i, if r.Ok? then 1 else 0
      {
        ghost var rest := list[i..];
        var o := Step(env, list[i], args, tr);
        r, tr := o.0, o.1;
        assert rest[1..] == list[i + 1..];
        i := if r.Ok? then i + 1 else i;
      }
      if r.Ok? {
        assert list[i..] == [];
      }
    }

    /**
     * `emit` of src/util/event-source.ts: without a list it returns at once;
     * otherwise the listeners run in order and the first rejection rejects
     * the emit; success resolves to `undefined`.
     */
    method Emit(env: Env, kind: string, args: seq<Value>, trace: seq<Call>) returns (r: Result<Value>, tr: seq<Call>)
      ensures var e := Emission(env, ListOf(kind), args, trace, Undefined);
        tr == e.1 && r == (if e.0.Ok? then Ok(Undefined) else e.0)
      ensures kind !in listeners ==> r == Ok(Undefined) && tr == trace
    {
      r, tr := Dispatch(env, kind, args, trace);
      r := if r.Ok? then Ok(Undefined) else r;
    }

    /**
     * `emit` of src/EventSource.ts: a chain started from a resolved promise
     * with one `then` per listener; it settles to the last listener's value,
     * to `undefined` without listeners, or to the first rejection.
     */
    method EmitChain(env: Env, kind: string, args: seq<Value>, trace: seq<Call>) returns (r: Result<Value>, tr: seq<Call>)
      ensures (r, tr) == Emission(env, ListOf(kind), args, trace, Undefined)
      ensures kind !in listeners ==> r == Ok(Undefined) && tr == trace
    {
      r, tr := Dispatch(env, kind, args, trace);
    }
  }

  /** `Insert` puts `x` at `InsertPos` and keeps the rest in order. */
  lemma {:induction false} InsertIsSplice(list: seq<Listener>, x: Listener)
    ensures Insert(list, x) == list[..InsertPos(list, x)] + [x] + list[InsertPos(list, x)..]
    decreases |list|
  {
    if list != [] && x.priority >= list[0].priority {
      InsertIsSplice(list[1..], x);
      assert list[1..][..InsertPos(list[1..], x)] == list[1..InsertPos(list, x)];
      assert list[1..][InsertPos(list[1..], x)..] == list[InsertPos(list, x)..];
    }
  }

  /** `Insert` keeps a sorted list sorted and adds exactly `x`. */
  lemma {:induction false} InsertSorted(list: seq<Listener>, x: Listener)
    requires Sorted(list)
    ensures Sorted(Insert(list, x))
    ensures multiset(Insert(list, x)) == multiset(list) + multiset{x}
    decreases |list|
  {
    if list == [] {
    } else if x.priority < list[0].priority {
      SortedCons(x, list);
    } else {
      var r := Insert(list[1..], x);
      InsertSorted(list[1..], x);
      forall i | 0 <= i < |r| ensures list[0].priority <= r[i].priority {
        assert r[i] in multiset(list[1..]) + multiset{x};
        if r[i] != x {
          var j :| 0 <= j < |list[1..]| && list[1..][j] == r[i];
          assert list[j + 1] == r[i];
        }
      }
      SortedCons(list[0], r);
      assert list == [list[0]] + list[1..];
    }
  }

  /** An entry no greater than every one of a sorted list can head it. */
  lemma SortedCons(a: Listener, list: seq<Listener>)
    requires Sorted(list) && forall i :: 0 <= i < |list| ==> a.priority <= list[i].priority
    ensures Sorted([a] + list)
  {
    var r := [a] + list;
    forall i, j | 0 <= i < j < |r| ensures r[i].priority <= r[j].priority {
      assert r[j] == list[j - 1];
      if i > 0 {
        assert r[i] == list[i - 1];
      }
    }
  }

  /** A sorted list is its own stable sort. */
  lemma {:induction false} SortedIsFixed(list: seq<Listener>)
    requires Sorted(list)
    ensures SortByPriority(list) == list
    decreases |list|
  {
    if list != [] {
      var n := |list| - 1;
      var init := list[..n];
      assert Sorted(init);
      SortedIsFixed(init);
      InsertPosAtEnd(init, list[n]);
      InsertIsSplice(init, list[n]);
      assert init + [list[n]] == list;
    }
  }

  /** An entry no smaller than every one of `list` goes at its end. */
  lemma {:induction false} InsertPosAtEnd(list: seq<Listener>, x: Listener)
    requires forall i :: 0 <= i < |list| ==> list[i].priority <= x.priority
    ensures InsertPos(list, x) == |list|
    decreases |list|
  {
    if list != [] {
      InsertPosAtEnd(list[1..], x);
    }
  }

  /**
   * Pushing `x` on a sorted list and sorting stably is inserting `x` after
   * the entries of lower or equal priority: the entries already there keep
   * their order.
   */
  lemma SortAfterPush(list: seq<Listener>, x: Listener)
    requires Sorted(list)
    ensures SortByPriority(list + [x]) == Insert(list, x)
  {
    assert (list + [x])[..|list|] == list;
    SortedIsFixed(list);
  }

  /** The stable sort yields a sorted permutation of its input. */
  lemma {:induction false} SortByPriorityFacts(list: seq<Listener>)
    ensures Sorted(SortByPriority(list))
    ensures multiset(SortByPriority(list)) == multiset(list)
    decreases |list|
  {
    if list != [] {
      var n := |list| - 1;
      SortByPriorityFacts(list[..n]);
      InsertSorted(SortByPriority(list[..n]), list[n]);
      assert list[..n] + [list[n]] == list;
    }
  }

  /** `RemoveFirst` splices out the first match, or keeps the list as it is. */
  lemma {:induction false} RemoveFirstIsSplice(list: seq<Listener>, f: Fn)
    ensures var k := FirstOf(list, f);
      RemoveFirst(list, f) == if k < |list| then list[..k] + list[k + 1..] else list
    decreases |list|
  {
    if list != [] && list[0].func != f {
      var k := FirstOf(list, f);
      var k1 := FirstOf(list[1..], f);
      assert k == k1 + 1;
      RemoveFirstIsSplice(list[1..], f);
      if k < |list| {
        ConsSplice(list, k);
      } else {
        assert [list[0]] + list[1..] == list;
      }
    }
  }

  /** Splicing out entry `k` of the tail, then putting the head back, is
      splicing out entry `k` of the list. */
  lemma ConsSplice<T>(list: seq<T>, k: nat)
    requires 0 < k < |list|
    ensures [list[0]] + (list[1..][..k - 1] + list[1..][k..]) == list[..k] + list[k + 1..]
  {
    assert [list[0]] + list[1..][..k - 1] == list[..k];
    assert list[1..][k..] == list[k + 1..];
  }

  /** The index the loop of `removeListener` stops at gives `RemoveFirst`. */
  lemma RemoveAt(list: seq<Listener>, f: Fn, i: nat)
    requires i <= |list| && (forall j :: 0 <= j < i ==> list[j].func != f) && (i < |list| ==> list[i].func == f)
    ensures RemoveFirst(list, f) == if i < |list| then list[..i] + list[i + 1..] else list
  {
    RemoveFirstIsSplice(list, f);
  }

  /** Removing an entry keeps a list sorted and removes exactly that entry. */
  lemma RemoveFirstSorted(list: seq<Listener>, f: Fn)
    requires Sorted(list)
    ensures Sorted(RemoveFirst(list, f))
    ensures var k := FirstOf(list, f);
      k < |list| ==> multiset(RemoveFirst(list, f)) == multiset(list) - multiset{list[k]}
  {
    RemoveFirstIsSplice(list, f);
    var k := FirstOf(list, f);
    if k < |list| {
      SortedWithout(list, k);
      MultisetWithout(list, k);
    }
  }

  /** Dropping the entry at `k` drops one copy of it. */
  lemma MultisetWithout(list: seq<Listener>, k: nat)
    requires k < |list|
    ensures multiset(list[..k] + list[k + 1..]) == multiset(list) - multiset{list[k]}
  {
    assert list == list[..k] + [list[k]] + list[k + 1..];
  }

  /** Dropping the entry at `k` keeps a list sorted. */
  lemma SortedWithout(list: seq<Listener>, k: nat)
    requires Sorted(list) && k < |list|
    ensures Sorted(list[..k] + list[k + 1..])
  {
    var r := list[..k] + list[k + 1..];
    forall i, j | 0 <= i < j < |r| ensures r[i].priority <= r[j].priority {
      var a := if i < k then i else i + 1;
      var b := if j < k then j else j + 1;
      assert r[i] == list[a] && r[j] == list[b];
    }
  }

  /**
   * Adding a listener whose function is not yet in the list, then removing
   * that function, gives the list back.
   */
  lemma {:induction false} RemoveUndoesInsert(list: seq<Listener>, f: Fn, priority: int)
    requires forall i :: 0 <= i < |list| ==> list[i].func != f
    ensures RemoveFirst(Insert(list, Listener(f, priority)), f) == list
    decreases |list|
  {
    if list != [] && priority >= list[0].priority {
      RemoveUndoesInsert(list[1..], f, priority);
    }
  }

  /** The calls of a trace extended by one listener's step. */
  lemma CalledStep(env: Env, l: Listener, args: seq<Value>, trace: seq<Call>)
    ensures Called(Step(env, l, args, trace).1) == Called(trace) + [l.func]
  {
    var t1 := trace + [Call(l.func, false, args)];
    CalledAppend(trace, [Call(l.func, false, args)]);
    var v := Invoke(env, l.func, false, args, trace).0;
    if v.Ok? && v.value.Promise? {
      CalledAppend(t1, [Await(v.value.id)]);
    }
  }

  lemma {:induction false} CalledAppend(a: seq<Call>, b: seq<Call>)
    ensures Called(a + b) == Called(a) + Called(b)
    decreases |a|
  {
    if a != [] {
      assert (a + b)[1..] == a[1..] + b;
      CalledAppend(a[1..], b);
    } else {
      assert a + b == b;
    }
  }

  /**
   * `emit` calls the listeners in list order: all of them when every one
   * fulfils, and on a failure exactly those up to and including the one that
   * failed.
   */
  lemma EmissionOrder(env: Env, list: seq<Listener>, args: seq<Value>, trace: seq<Call>, last: Value)
    ensures var o := Emission(env, list, args, trace, last);
      (o.0.Ok? ==> Called(o.1) == Called(trace) + Funcs(list)) &&
      (o.0.Err? ==> exists k :: CalledUpTo(o.1, trace, list, k))
  {
    if Emission(env, list, args, trace, last).0.Ok? {
      EmissionOk(env, list, args, trace, last);
    } else {
      EmissionErr(env, list, args, trace, last);
    }
  }

  lemma {:induction false} EmissionOk(env: Env, list: seq<Listener>, args: seq<Value>, trace: seq<Call>, last: Value)
    requires Emission(env, list, args, trace, last).0.Ok?
    ensures Called(Emission(env, list, args, trace, last).1) == Called(trace) + Funcs(list)
    decreases |list|
  {
    if list != [] {
      var s := Step(env, list[0], args, trace);
      CalledStep(env, list[0], args, trace);
      EmissionOk(env, list[1..], args, s.1, s.0.value);
      FuncsCons(list);
    } else {
      assert Called(trace) + Funcs(list) == Called(trace);
    }
  }

  lemma {:induction false} EmissionErr(env: Env, list: seq<Listener>, args: seq<Value>, trace: seq<Call>, last: Value)
    requires Emission(env, list, args, trace, last).0.Err?
    ensures exists k :: CalledUpTo(Emission(env, list, args, trace, last).1, trace, list, k)
    decreases |list|
  {
    var o := Emission(env, list, args, trace, last);
    var s := Step(env, list[0], args, trace);
    CalledStep(env, list[0], args, trace);
    if s.0.Ok? {
      EmissionErr(env, list[1..], args, s.1, s.0.value);
      var k :| CalledUpTo(o.1, s.1, list[1..], k);
      CalledUpToShift(o.1, s.1, trace, list, k);
    } else {
      assert Funcs(list)[..1] == [list[0].func];
      assert CalledUpTo(o.1, trace, list, 0);
    }
  }

  lemma FuncsCons(list: seq<Listener>)
    requires list != []
    ensures Funcs(list) == [list[0].func] + Funcs(list[1..])
  {
  }

  lemma CalledUpToShift(t: seq<Call>, t1: seq<Call>, trace: seq<Call>, list: seq<Listener>, k: int)
    requires list != [] && CalledUpTo(t, t1, list[1..], k) && Called(t1) == Called(trace) + [list[0].func]
    ensures CalledUpTo(t, trace, list, k + 1)
  {
    var fs := Funcs(list);
    assert fs[..k + 2] == [list[0].func] + Funcs(list[1..])[..k + 1];
  }

  /** The calls after `trace` in `t` are those of the first `k + 1` listeners. */
  predicate CalledUpTo(t: seq<Call>, trace: seq<Call>, list: seq<Listener>, k: int)
  {
    0 <= k < |list| && Called(t) == Called(trace) + Funcs(list)[..k + 1]
  }
}
