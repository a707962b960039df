/**
 * The helpers of src/Utils.ts: `ObjectUtils.extend` (a shallow merge into a
 * target object), `ArrayUtils.include` and `ArrayUtils.erase` (in-place array
 * edits), and the string transformers `StringUtils.camelCase` and
 * `StringUtils.hyphenate`.
 *
 * A JavaScript object is held by reference and has its enumerable properties
 * in `props`; an array is held by reference and has its elements in `items`.
 * Elements are compared the way `indexOf` compares them, by `===`, which is
 * equality of `Value`.
 */
module Utils {
  import opened Types

  /** An object whose properties `extend` overwrites. */
  class ObjectRef {
    var props: map<string, Value>

    constructor (props: map<string, Value>)
      ensures this.props == props
    {
      this.props := props;
    }
  }

  /** An array that `include` and `erase` change in place. */
  class ArrayRef {
    var items: seq<Value>

    constructor (items: seq<Value>)
      ensures this.items == items
    {
      this.items := items;
    }
  }

  // ---------------------------------------------------------------- extend

  /** The properties after copying each source's keys, in argument order:
      a later source overwrites an earlier one and the target. */
  function Merged(target: map<string, Value>, sources: seq<map<string, Value>>): (r: map<string, Value>)
    decreases |sources|
  {
    if sources == [] then target else Merged(target + sources[0], sources[1..])
  }

  /** The properties of `source` whose keys are in `keys`. */
  function Restrict(source: map<string, Value>, keys: set<string>): (r: map<string, Value>)
    ensures r.Keys == source.Keys * keys
    ensures forall k :: k in r ==> r[k] == source[k]
  {
    map k | k in source && k in keys :: source[k]
  }

  /**
   * `ObjectUtils.extend(target, ...others)`: every key of each source, one
   * source after the other, is copied onto `target`, and the same `target`
   * is returned.
   */
  method Extend(target: ObjectRef, others: seq<map<string, Value>>) returns (r: ObjectRef)
    modifies target
    ensures r == target
    ensures target.props == Merged(old(target.props), others)
  {
    var i := 0;
    while i < |others|
      invariant i <= |others|
      invariant Merged(target.props, others[i..]) == Merged(old(target.props), others)
    {
      CopyKeys(target, others[i]);
      assert others[i..][1..] == others[i + 1..];
      i := i + 1;
    }
    r := target;
  }

  /** The inner `for (key in source)` loop of `extend`. */
  method CopyKeys(target: ObjectRef, source: map<string, Value>)
    modifies target
    ensures target.props == old(target.props) + source
  {
    var keys := source.Keys;
    while keys != {}
      invariant keys <= source.Keys
      invariant target.props == old(target.props) + Restrict(source, source.Keys - keys)
      decreases keys
    {
      var k :| k in keys;
      assert Restrict(source, source.Keys - (keys - {k})) == Restrict(source, source.Keys - keys)[k := source[k]];
      target.props := target.props[k := source[k]];
      keys := keys - {k};
    }
    assert Restrict(source, source.Keys) == source;
  }

  /** After `extend`, a key is present exactly when the target or a source had it. */
  lemma {:induction false} MergedKeys(target: map<string, Value>, sources: seq<map<string, Value>>, k: string)
    ensures k in Merged(target, sources) <==> k in target || exists j :: 0 <= j < |sources| && k in sources[j]
    decreases |sources|
  {
    if sources != [] {
      MergedKeys(target + sources[0], sources[1..], k);
      if exists j :: 0 <= j < |sources| && k in sources[j] {
        var j :| 0 <= j < |sources| && k in sources[j];
        if j > 0 {
          assert k in sources[1..][j - 1];
        }
      }
      if exists j :: 0 <= j < |sources[1..]| && k in sources[1..][j] {
        var j :| 0 <= j < |sources[1..]| && k in sources[1..][j];
        assert k in sources[j + 1];
      }
    }
  }

  /** After `extend`, a key takes its value from the last source that has it. */
  lemma {:induction false} MergedLastWins(target: map<string, Value>, sources: seq<map<string, Value>>, i: nat, k: string)
    requires i < |sources| && k in sources[i]
    requires forall j :: i < j < |sources| ==> k !in sources[j]
    ensures k in Merged(target, sources) && Merged(target, sources)[k] == sources[i][k]
    decreases |sources|
  {
    if i == 0 {
      MergedUntouched(target + sources[0], sources[1..], k);
    } else {
      MergedLastWins(target + sources[0], sources[1..], i - 1, k);
    }
  }

  /** A key no source has keeps the target's value. */
  lemma {:induction false} MergedUntouched(target: map<string, Value>, sources: seq<map<string, Value>>, k: string)
    requires k in target
    requires forall j :: 0 <= j < |sources| ==> k !in sources[j]
    ensures k in Merged(target, sources) && Merged(target, sources)[k] == target[k]
    decreases |sources|
  {
    if sources != [] {
      MergedUntouched(target + sources[0], sources[1..], k);
    }
  }

  // ------------------------------------------------------- include, erase

  /** `indexOf`: the first position of `x`, or -1. */
  function IndexOf(xs: seq<Value>, x: Value): (i: int)
    ensures -1 <= i < |xs|
    ensures i == -1 <==> x !in xs
    ensures 0 <= i ==> xs[i] == x && x !in xs[..i]
  {
    if xs == [] then -1
    else if xs[0] == x then 0
    else
      var j := IndexOf(xs[1..], x);
      assert j >= 0 ==> xs[..j + 1] == [xs[0]] + xs[1..][..j];
      if j == -1 then -1 else j + 1
  }

  /** No element occurs twice. */
  predicate Distinct(xs: seq<Value>)
  {
    forall i, j :: 0 <= i < j < |xs| ==> xs[i] != xs[j]
  }

  /** What `include` makes of the elements: `obj` is pushed when it is
      already present (`indexOf(obj) !== -1`). */
  function Included(xs: seq<Value>, obj: Value): (r: seq<Value>)
  {
    if IndexOf(xs, obj) != -1 then xs + [obj] else xs
  }

  /** What `include` is documented to do: push `obj` when it is not
      already contained. */
  function IncludedIntended(xs: seq<Value>, obj: Value): (r: seq<Value>)
  {
    if IndexOf(xs, obj) == -1 then xs + [obj] else xs
  }

  /** `ArrayUtils.include(target, obj)` as written; it returns `target`. */
  method Include(target: ArrayRef, obj: Value) returns (r: ArrayRef)
    modifies target
    ensures r == target
    ensures target.items == Included(old(target.items), obj)
  {
    if IndexOf(target.items, obj) != -1 {
      target.items := target.items + [obj];
    }
    r := target;
  }

  /** `include` with the test its documentation describes. */
  method IncludeIntended(target: ArrayRef, obj: Value) returns (r: ArrayRef)
    modifies target
    ensures r == target
    ensures target.items == IncludedIntended(old(target.items), obj)
  {
    if IndexOf(target.items, obj) == -1 {
      target.items := target.items + [obj];
    }
    r := target;
  }

  /**
   * As written, `include` never adds an element that is missing, and it
   * duplicates one that is there: `include([], x)` leaves `[]`, and
   * `include([x], x)` gives `[x, x]`.
   */
  lemma IncludeAsWrittenFails(x: Value)
    ensures x !in Included([], x)
    ensures Included([x], x) == [x, x] && !Distinct(Included([x], x))
  {
    assert IndexOf([x], x) == 0;
    assert Included([x], x)[0] == Included([x], x)[1];
  }

  /** As written, `include` keeps exactly the elements it was given, and
      leaves an array with no `obj` unchanged. */
  lemma IncludeAsWrittenKeeps(xs: seq<Value>, obj: Value)
    ensures forall y :: y in Included(xs, obj) <==> y in xs
    ensures obj !in xs ==> Included(xs, obj) == xs
  {
  }

  /**
   * The intended `include` leaves `obj` in the array, adds nothing when it is
   * already there, keeps the array free of duplicates, and is idempotent.
   */
  lemma IncludeIntendedFacts(xs: seq<Value>, obj: Value)
    ensures var r := IncludedIntended(xs, obj);
      obj in r && xs <= r &&
      (obj in xs ==> r == xs) &&
      (Distinct(xs) ==> Distinct(r)) &&
      IncludedIntended(r, obj) == r
  {
    var r := IncludedIntended(xs, obj);
    assert obj in r by {
      if obj !in xs {
        assert r[|xs|] == obj;
      }
    }
  }

  /**
   * `ArrayUtils.erase(target, obj)`: the first occurrence of `obj` is spliced
   * out and `true` returned; without one the array is left alone and `false`
   * returned.
   */
  method Erase(target: ArrayRef, obj: Value) returns (removed: bool)
    modifies target
    ensures removed <==> obj in old(target.items)
    ensures var i := IndexOf(old(target.items), obj);
      target.items == if i == -1 then old(target.items) else old(target.items)[..i] + old(target.items)[i + 1..]
    ensures multiset(target.items) == multiset(old(target.items)) - multiset{obj}
  {
    var index := IndexOf(target.items, obj);
    if index > -1 {
      assert target.items == target.items[..index] + [obj] + target.items[index + 1..];
      target.items := target.items[..index] + target.items[index + 1..];
      return true;
    }
    return false;
  }

  // ------------------------------------------------------------- camelCase

  /** The characters of the class `[\:\-\_\.]`. */
  predicate IsSeparator(c: char)
  {
    c == ':' || c == '-' || c == '_' || c == '.'
  }

  /** The characters a regular-expression `.` does not match. */
  predicate IsLineTerminator(c: char)
  {
    c == '\n' || c == '\r' || c == '\U{2028}' || c == '\U{2029}'
  }

  predicate IsUpper(c: char)
  {
    'A' <= c <= 'Z'
  }

  predicate IsLower(c: char)
  {
    'a' <= c <= 'z'
  }

  /** `toUpperCase` of one character, for the ASCII letters. */
  function Upper(c: char): (u: char)
    ensures IsLower(c) ==> IsUpper(u)
    ensures !IsLower(c) ==> u == c
  {
    if IsLower(c) then (c as int - 32) as char else c
  }

  /** `toLowerCase` of an upper-case ASCII letter. */
  function Lower(c: char): (l: char)
    requires IsUpper(c)
    ensures IsLower(l) && Upper(l) == c
  {
    (c as int + 32) as char
  }

  /** The length of the run of separators `s` starts with. */
  function SeparatorRun(s: string): (n: nat)
    ensures n <= |s|
    ensures forall i :: 0 <= i < n ==> IsSeparator(s[i])
    ensures n < |s| ==> !IsSeparator(s[n])
  {
    if s == [] || !IsSeparator(s[0]) then 0 else 1 + SeparatorRun(s[1..])
  }

  /**
   * `str.replace(/([\:\-\_\.]+(.))/g, ...)` from the current position on;
   * `atStart` holds at offset 0, where the captured character is kept as it
   * is rather than upper-cased.  A run of separators followed by a character
   * other than a line terminator is replaced by that character; a run of two
   * or more with nothing matchable after it backtracks, and is replaced by
   * its last separator; a single such separator is not matched.
   */
  function Camel(s: string, atStart: bool): (r: string)
    ensures |r| <= |s|
    decreases |s|
  {
    if s == [] then []
    else if !IsSeparator(s[0]) then [s[0]] + Camel(s[1..], false)
    else
      var n := SeparatorRun(s);
      if n < |s| && !IsLineTerminator(s[n]) then
        [if atStart then s[n] else Upper(s[n])] + Camel(s[n + 1..], false)
      else if n >= 2 then [s[n - 1]] + Camel(s[n..], false)
      else [s[0]] + Camel(s[1..], false)
  }

  /** `StringUtils.camelCase(str)`. */
  function CamelCase(s: string): (r: string)
    ensures |r| <= |s|
  {
    Camel(s, true)
  }

  /** A string without separators is its own camel case. */
  lemma {:induction false} CamelWithoutSeparators(s: string, atStart: bool)
    requires forall i :: 0 <= i < |s| ==> !IsSeparator(s[i])
    ensures Camel(s, atStart) == s
    decreases |s|
  {
    if s != [] {
      CamelWithoutSeparators(s[1..], false);
    }
  }

  /** A non-empty string not starting with a separator keeps its first character. */
  lemma CamelHead(s: string, atStart: bool)
    requires s != [] && !IsSeparator(s[0])
    ensures Camel(s, atStart) != [] && Camel(s, atStart)[0] == s[0]
  {
  }

  /**
   * In the camel case of a string, a separator is only ever followed by a
   * line terminator or by nothing: every separator run that had a character
   * after it has been replaced.
   */
  lemma {:induction false} CamelLeavesNoSeparatorBeforeCharacter(s: string, atStart: bool)
    ensures SeparatorsAtEnd(Camel(s, atStart))
    decreases |s|
  {
    if s != [] {
      if !IsSeparator(s[0]) {
        CamelLeavesNoSeparatorBeforeCharacter(s[1..], false);
        Shifted(s[0], Camel(s[1..], false));
      } else {
        var n := SeparatorRun(s);
        if n < |s| && !IsLineTerminator(s[n]) {
          CamelLeavesNoSeparatorBeforeCharacter(s[n + 1..], false);
          assert !IsSeparator(Upper(s[n]));
          Shifted(if atStart then s[n] else Upper(s[n]), Camel(s[n + 1..], false));
        } else if n >= 2 {
          CamelLeavesNoSeparatorBeforeCharacter(s[n..], false);
          if n < |s| {
            CamelHead(s[n..], false);
          }
          Shifted(s[n - 1], Camel(s[n..], false));
        } else {
          CamelLeavesNoSeparatorBeforeCharacter(s[1..], false);
          if 1 < |s| {
            CamelHead(s[1..], false);
          }
          Shifted(s[0], Camel(s[1..], false));
        }
      }
    }
  }

  /** Every separator in `r` ends it or stands before a line terminator. */
  predicate SeparatorsAtEnd(r: string)
  {
    forall i :: 0 <= i < |r| && IsSeparator(r[i]) ==> i + 1 == |r| || IsLineTerminator(r[i + 1])
  }

  /** Putting `c` before `t` keeps `SeparatorsAtEnd`, when `c` is not a
      separator or `t` is empty or starts with a line terminator. */
  lemma Shifted(c: char, t: string)
    requires SeparatorsAtEnd(t)
    requires IsSeparator(c) ==> t == [] || IsLineTerminator(t[0])
    ensures SeparatorsAtEnd([c] + t)
  {
    var r := [c] + t;
    forall i | 1 <= i < |r| ensures r[i] == t[i - 1] {
    }
  }

  // ------------------------------------------------------------- hyphenate

  /** `replace(/[A-Z]/g, match => sep + match.toLowerCase())`. */
  function Lowered(s: string, sep: string): (r: string)
    decreases |s|
  {
    if s == [] then []
    else (if IsUpper(s[0]) then sep + [Lower(s[0])] else [s[0]]) + Lowered(s[1..], sep)
  }

  /** `StringUtils.hyphenate(str, sep = '-')`: every upper-case letter becomes
      `sep` and its lower case, then one leading `sep` is dropped. */
  function Hyphenate(s: string, sep: string): (r: string)
  {
    var t := Lowered(s, sep);
    if sep <= t then t[|sep|..] else t
  }

  /** The default separator of `hyphenate`. */
  const DefaultSeparator: string := "-"

  /** Without upper-case letters in `sep`, `Lowered` leaves none. */
  lemma {:induction false} LoweredHasNoUpper(s: string, sep: string)
    requires forall i :: 0 <= i < |sep| ==> !IsUpper(sep[i])
    ensures forall i :: 0 <= i < |Lowered(s, sep)| ==> !IsUpper(Lowered(s, sep)[i])
    decreases |s|
  {
    if s != [] {
      LoweredHasNoUpper(s[1..], sep);
      var head := if IsUpper(s[0]) then sep + [Lower(s[0])] else [s[0]];
      var r := Lowered(s, sep);
      forall i | 0 <= i < |r| ensures !IsUpper(r[i]) {
        if i >= |head| {
          assert r[i] == Lowered(s[1..], sep)[i - |head|];
        } else if IsUpper(s[0]) && i < |sep| {
          assert r[i] == sep[i];
        }
      }
    }
  }

  /** With a separator free of upper-case letters (the default `-` among
      them), `hyphenate` leaves no `A`-`Z` in its result. */
  lemma HyphenateHasNoUpper(s: string, sep: string)
    requires forall i :: 0 <= i < |sep| ==> !IsUpper(sep[i])
    ensures forall i :: 0 <= i < |Hyphenate(s, sep)| ==> !IsUpper(Hyphenate(s, sep)[i])
  {
    LoweredHasNoUpper(s, sep);
    var t := Lowered(s, sep);
    if sep <= t {
      forall i | 0 <= i < |t[|sep|..]| ensures !IsUpper(t[|sep|..][i]) {
        assert t[|sep|..][i] == t[i + |sep|];
      }
    }
  }

  /** `Lowered` with `-` undone by `Camel` past offset 0. */
  lemma {:induction false} CamelUndoesLowered(s: string, atStart: bool)
    requires forall i :: 0 <= i < |s| ==> !IsSeparator(s[i])
    requires atStart && s != [] ==> !IsUpper(s[0])
    ensures Camel(Lowered(s, DefaultSeparator), atStart) == s
    decreases |s|
  {
    if s != [] {
      var rest := Lowered(s[1..], DefaultSeparator);
      CamelUndoesLowered(s[1..], false);
      if IsUpper(s[0]) {
        var t := ['-', Lower(s[0])] + rest;
        assert Lowered(s, DefaultSeparator) == t;
        assert SeparatorRun(t[1..]) == 0;
        assert t[2..] == rest;
      } else {
        assert Lowered(s, DefaultSeparator) == [s[0]] + rest;
      }
    }
  }

  /**
   * `camelCase(hyphenate(s))` gives `s` back, for a string without
   * separators that does not start with an upper-case letter.
   */
  lemma CamelCaseUndoesHyphenate(s: string)
    requires forall i :: 0 <= i < |s| ==> !IsSeparator(s[i])
    requires s != [] ==> !IsUpper(s[0])
    ensures CamelCase(Hyphenate(s, DefaultSeparator)) == s
  {
    CamelUndoesLowered(s, true);
    var t := Lowered(s, DefaultSeparator);
    if s != [] {
      assert t[0] == s[0];
      assert !(DefaultSeparator <= t);
    }
  }
}
