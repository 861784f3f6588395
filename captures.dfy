/** The capture table of `EvaluationContext` (cre/expression.py): identifier -> stack of spans. */
module Captures {
  import opened Base

  type Table = map<Id, seq<Span>>

  /** A key is present only while its stack is non-empty. */
  ghost predicate WellFormed(t: Table) {
    forall k :: k in t ==> t[k] != []
  }

  /** The stack of `k`, empty when `k` is absent. */
  function Stack(t: Table, k: Id): seq<Span> {
    if k in t then t[k] else []
  }

  /** How often `k` occurs in `names`. */
  function Count(names: seq<Id>, k: Id): nat {
    if names == [] then 0
    else Count(names[..|names| - 1], k) + (if names[|names| - 1] == k then 1 else 0)
  }

  function Repeat(v: Span, n: nat): (r: seq<Span>)
    ensures |r| == n && forall i :: 0 <= i < n ==> r[i] == v
  {
    if n == 0 then [] else Repeat(v, n - 1) + [v]
  }

  /** `setdefault(k, []).append(v)` */
  function Push(t: Table, k: Id, v: Span): Table {
    t[k := Stack(t, k) + [v]]
  }

  /** `push_match`: push `v` under every name, in order. */
  function PushAll(t: Table, names: seq<Id>, v: Span): Table {
    if names == [] then t
    else Push(PushAll(t, names[..|names| - 1], v), names[|names| - 1], v)
  }

  /** `matches[k].pop()`, deleting the key once its stack is empty; a missing key raises. */
  function Pop(t: Table, k: Id): Result<Table, EngineError> {
    if k !in t || t[k] == [] then Raise(MissingCapture(k))
    else
      var rest := t[k][..|t[k]| - 1];
      Ok(if rest == [] then t - {k} else t[k := rest])
  }

  /** `pop_match`: pop every name, in order. */
  function PopAll(t: Table, names: seq<Id>): Result<Table, EngineError> {
    if names == [] then Ok(t)
    else
      var t' :- PopAll(t, names[..|names| - 1]);
      Pop(t', names[|names| - 1])
  }

  /** `matches[k][-1] = v`; a missing key raises. */
  function Override(t: Table, k: Id, v: Span): Result<Table, EngineError> {
    if k !in t || t[k] == [] then Raise(MissingCapture(k))
    else Ok(t[k := t[k][..|t[k]| - 1] + [v]])
  }

  /** `override_match`: replace the top entry of every name, in order. */
  function OverrideAll(t: Table, names: seq<Id>, v: Span): Result<Table, EngineError> {
    if names == [] then Ok(t)
    else
      var t' :- OverrideAll(t, names[..|names| - 1], v);
      Override(t', names[|names| - 1], v)
  }

  /** `get_match_string`: the subject text of the latest capture of `k`. */
  function MatchString(subject: string, t: Table, k: Id): (r: Result<string, EngineError>)
    ensures r.Raise? <==> Stack(t, k) == []
    ensures r.Ok? ==> var s := t[k][|t[k]| - 1];
      s.start <= s.end <= |subject| ==> r.value == subject[s.start..s.end]
  {
    if Stack(t, k) == [] then Raise(UnsetReference(k))
    else
      var s := t[k][|t[k]| - 1];
      Ok(Slice(subject, s.start, s.end))
  }

  /** `flattened_matches`: the latest span of every identifier. */
  function Flattened(t: Table): (r: map<Id, Span>)
    requires WellFormed(t)
    ensures r.Keys == t.Keys
    ensures forall k :: k in r ==> r[k] == t[k][|t[k]| - 1]
  {
    map k | k in t :: t[k][|t[k]| - 1]
  }

  // ---------------------------------------------------------------------------
  // Properties of the stack operations

  /** Two well-formed tables with the same stacks are equal. */
  lemma TableExtensionality(a: Table, b: Table)
    requires WellFormed(a) && WellFormed(b)
    requires forall k :: Stack(a, k) == Stack(b, k)
    ensures a == b
  {
    forall k | k in a ensures k in b && a[k] == b[k] {
      assert Stack(a, k) == Stack(b, k);
    }
    forall k | k in b ensures k in a {
      assert Stack(a, k) == Stack(b, k);
    }
  }

  /** `push_match` appends `v` to the stack of every listed name, once per occurrence. */
  lemma {:induction false} PushAllStacks(t: Table, names: seq<Id>, v: Span)
    ensures forall k :: Stack(PushAll(t, names, v), k) == Stack(t, k) + Repeat(v, Count(names, k))
  {
    if names != [] {
      var p, l := names[..|names| - 1], names[|names| - 1];
      PushAllStacks(t, p, v);
      forall k ensures Stack(PushAll(t, names, v), k) == Stack(t, k) + Repeat(v, Count(names, k)) {
        assert Stack(PushAll(t, p, v), k) == Stack(t, k) + Repeat(v, Count(p, k));
        if k == l {
          assert Repeat(v, Count(names, k)) == Repeat(v, Count(p, k)) + [v];
        }
      }
    }
  }

  /** `push_match` adds exactly the listed names as keys. */
  lemma {:induction false} PushAllKeys(t: Table, names: seq<Id>, v: Span)
    ensures forall k :: k in PushAll(t, names, v) <==> k in t || k in names
  {
    if names != [] {
      PushAllKeys(t, names[..|names| - 1], v);
      assert forall k :: k in names <==> k in names[..|names| - 1] || k == names[|names| - 1];
    }
  }

  lemma PushAllWellFormed(t: Table, names: seq<Id>, v: Span)
    requires WellFormed(t)
    ensures WellFormed(PushAll(t, names, v))
  {
    var r := PushAll(t, names, v);
    PushAllStacks(t, names, v);
    PushAllKeys(t, names, v);
    forall k | k in r ensures r[k] != [] {
      assert Stack(r, k) == Stack(t, k) + Repeat(v, Count(names, k));
      if k !in t {
        var i :| 0 <= i < |names| && names[i] == k;
        CountPositive(names, i);
      }
    }
  }

  lemma {:induction false} CountPositive(names: seq<Id>, i: nat)
    requires i < |names|
    ensures Count(names, names[i]) > 0
  {
    if i < |names| - 1 {
      assert names[..|names| - 1][i] == names[i];
      CountPositive(names[..|names| - 1], i);
    }
  }

  /** The stacks can absorb one pop per occurrence of every name. */
  predicate Poppable(t: Table, names: seq<Id>) {
    forall i :: 0 <= i < |names| ==> Count(names, names[i]) <= |Stack(t, names[i])|
  }

  /** What `pop_match` leaves: each stack loses one entry per occurrence of its name. */
  ghost predicate PoppedFrom(r: Table, t: Table, names: seq<Id>) {
    forall k :: |Stack(r, k)| + Count(names, k) == |Stack(t, k)|
                && Stack(r, k) == Stack(t, k)[..|Stack(r, k)|]
  }

  /** `pop_match` succeeds exactly when every stack holds enough entries, and then removes one
      entry per occurrence from the top of each named stack and keeps the table well formed. */
  lemma {:induction false} PopAllStacks(t: Table, names: seq<Id>)
    requires WellFormed(t)
    ensures PopAll(t, names).Ok? <==> Poppable(t, names)
    ensures PopAll(t, names).Ok? ==>
      WellFormed(PopAll(t, names).value) && PoppedFrom(PopAll(t, names).value, t, names)
  {
    if names == [] {
      assert PoppedFrom(t, t, names) by {
        forall k ensures Stack(t, k) == Stack(t, k)[..|Stack(t, k)|] { }
      }
    } else {
      var p, l := names[..|names| - 1], names[|names| - 1];
      PopAllStacks(t, p);
      if PopAll(t, p).Ok? {
        var r := PopAll(t, p).value;
        assert Poppable(t, p);
        if l in r && r[l] != [] {
          var r2 := PopAll(t, names).value;
          assert r2 == Pop(r, l).value;
          forall k ensures |Stack(r2, k)| + Count(names, k) == |Stack(t, k)|
                        && Stack(r2, k) == Stack(t, k)[..|Stack(r2, k)|] {
            assert |Stack(r, k)| + Count(p, k) == |Stack(t, k)|;
            assert Stack(r, k) == Stack(t, k)[..|Stack(r, k)|];
          }
          forall i | 0 <= i < |names| ensures Count(names, names[i]) <= |Stack(t, names[i])| {
            var x := names[i];
            assert |Stack(r2, x)| + Count(names, x) == |Stack(t, x)|;
          }
        } else {
          assert |Stack(r, l)| + Count(p, l) == |Stack(t, l)|;
          assert !Poppable(t, names) by {
            assert names[|names| - 1] == l;
          }
        }
      } else {
        assert !Poppable(t, names) by {
          var i :| 0 <= i < |p| && Count(p, p[i]) > |Stack(t, p[i])|;
          assert names[i] == p[i];
        }
      }
    }
  }

  /** `push_match` followed by `pop_match` of the same names restores the table. */
  lemma PushThenPopRestores(t: Table, names: seq<Id>, v: Span)
    requires WellFormed(t)
    ensures PopAll(PushAll(t, names, v), names) == Ok(t)
  {
    var pushed := PushAll(t, names, v);
    PushAllStacks(t, names, v);
    PushAllWellFormed(t, names, v);
    PopAllStacks(pushed, names);
    assert Poppable(pushed, names) by {
      forall i | 0 <= i < |names|
        ensures Count(names, names[i]) <= |Stack(pushed, names[i])|
      {
        assert Stack(pushed, names[i]) == Stack(t, names[i]) + Repeat(v, Count(names, names[i]));
      }
    }
    var popped := PopAll(pushed, names).value;
    forall k ensures Stack(popped, k) == Stack(t, k) {
      assert Stack(pushed, k) == Stack(t, k) + Repeat(v, Count(names, k));
      assert |Stack(popped, k)| + Count(names, k) == |Stack(pushed, k)|;
    }
    TableExtensionality(popped, t);
  }

  /** What `override_match` leaves: the same keys and stack lengths, the top of every named stack
      replaced by `v` and every other entry as it was. */
  ghost predicate OverriddenFrom(r: Table, t: Table, names: seq<Id>, v: Span)
    requires WellFormed(t)
  {
    && r.Keys == t.Keys
    && (forall k :: k in t ==> |r[k]| == |t[k]| && r[k][..|t[k]| - 1] == t[k][..|t[k]| - 1])
    && (forall k :: k in t && k in names ==> |r[k]| == |t[k]| && r[k][|t[k]| - 1] == v)
    && (forall k :: k in t && k !in names ==> r[k] == t[k])
  }

  /** `override_match` succeeds exactly when every name is present. */
  lemma {:induction false} OverrideAllSucceeds(t: Table, names: seq<Id>, v: Span)
    requires WellFormed(t)
    ensures OverrideAll(t, names, v).Ok? <==> forall i :: 0 <= i < |names| ==> names[i] in t
    ensures OverrideAll(t, names, v).Ok? ==>
      WellFormed(OverrideAll(t, names, v).value) && OverrideAll(t, names, v).value.Keys == t.Keys
  {
    if names != [] {
      var p, l := names[..|names| - 1], names[|names| - 1];
      OverrideAllSucceeds(t, p, v);
      if OverrideAll(t, p, v).Ok? {
        if l in t {
          forall i | 0 <= i < |names| ensures names[i] in t {
            if i < |p| { assert p[i] == names[i]; }
          }
        } else {
          assert names[|names| - 1] !in t;
        }
      } else {
        var i :| 0 <= i < |p| && p[i] !in t;
        assert names[i] !in t;
      }
    }
  }

  /** A successful `override_match` keeps every key and every stack length and changes only the
      tops of the named stacks. */
  lemma {:induction false} OverrideAllShape(t: Table, names: seq<Id>, v: Span)
    requires WellFormed(t) && OverrideAll(t, names, v).Ok?
    ensures OverriddenFrom(OverrideAll(t, names, v).value, t, names, v)
  {
    if names != [] {
      var p, l := names[..|names| - 1], names[|names| - 1];
      OverrideAllSucceeds(t, p, v);
      OverrideAllShape(t, p, v);
      OverrideStep(t, OverrideAll(t, p, v).value, p, l, v);
      assert p + [l] == names;
    }
  }

  /** `override_match` succeeds exactly when every name is present, and then keeps the table
      well formed, every key and every stack length, and changes only the named tops. */
  lemma OverrideAllStacks(t: Table, names: seq<Id>, v: Span)
    requires WellFormed(t)
    ensures OverrideAll(t, names, v).Ok? <==> forall i :: 0 <= i < |names| ==> names[i] in t
    ensures OverrideAll(t, names, v).Ok? ==>
      WellFormed(OverrideAll(t, names, v).value) && OverriddenFrom(OverrideAll(t, names, v).value, t, names, v)
  {
    OverrideAllSucceeds(t, names, v);
    if OverrideAll(t, names, v).Ok? {
      OverrideAllShape(t, names, v);
    }
  }

  lemma OverrideStep(t: Table, r: Table, p: seq<Id>, l: Id, v: Span)
    requires WellFormed(t) && WellFormed(r) && l in t && OverriddenFrom(r, t, p, v)
    ensures Override(r, l, v).Ok?
    ensures WellFormed(Override(r, l, v).value) && OverriddenFrom(Override(r, l, v).value, t, p + [l], v)
  {
    var r2 := Override(r, l, v).value;
    assert forall k :: k in p + [l] <==> k in p || k == l;
    forall k | k in t ensures |r2[k]| == |t[k]| && r2[k][..|t[k]| - 1] == t[k][..|t[k]| - 1] {
      if k == l {
        assert r2[k][..|t[k]| - 1] == r[k][..|t[k]| - 1];
      }
    }
  }

  lemma {:induction false} CountAbsent(names: seq<Id>, k: Id)
    requires k !in names
    ensures Count(names, k) == 0
  {
    if names != [] {
      CountAbsent(names[..|names| - 1], k);
    }
  }

  /** After `push_match`, `flattened_matches` reports `v` for every pushed name and the previous
      latest span for every other identifier. */
  lemma FlattenedAfterPush(t: Table, names: seq<Id>, v: Span)
    requires WellFormed(t)
    ensures WellFormed(PushAll(t, names, v))
    ensures var f := Flattened(PushAll(t, names, v));
      && (forall k :: k in f <==> k in t || k in names)
      && (forall k :: k in names ==> f[k] == v)
      && (forall k :: k in t && k !in names ==> f[k] == Flattened(t)[k])
  {
    var r := PushAll(t, names, v);
    PushAllWellFormed(t, names, v);
    PushAllKeys(t, names, v);
    PushAllStacks(t, names, v);
    forall k | k in names ensures r[k][|r[k]| - 1] == v {
      var i :| 0 <= i < |names| && names[i] == k;
      CountPositive(names, i);
      assert Stack(r, k) == Stack(t, k) + Repeat(v, Count(names, k));
    }
    forall k | k in t && k !in names ensures r[k] == t[k] {
      CountAbsent(names, k);
      assert Stack(r, k) == Stack(t, k) + Repeat(v, Count(names, k));
    }
  }

  /** After `pop_match` of the names just pushed, `flattened_matches` is what it was before. */
  lemma FlattenedAfterPushPop(t: Table, names: seq<Id>, v: Span)
    requires WellFormed(t)
    ensures PopAll(PushAll(t, names, v), names).Ok?
    ensures var p := PopAll(PushAll(t, names, v), names).value;
      WellFormed(p) && Flattened(p) == Flattened(t)
  {
    PushThenPopRestores(t, names, v);
  }

  /** After a successful `override_match`, `flattened_matches` reports `v` for every named
      identifier and is unchanged elsewhere. */
  lemma FlattenedAfterOverride(t: Table, names: seq<Id>, v: Span)
    requires WellFormed(t) && OverrideAll(t, names, v).Ok?
    ensures WellFormed(OverrideAll(t, names, v).value)
    ensures var f := Flattened(OverrideAll(t, names, v).value);
      && f.Keys == t.Keys
      && (forall k :: k in names ==> k in f && f[k] == v)
      && (forall k :: k in t && k !in names ==> f[k] == Flattened(t)[k])
  {
    OverrideAllStacks(t, names, v);
    var r := OverrideAll(t, names, v).value;
    forall k | k in names ensures k in r && r[k][|r[k]| - 1] == v {
      var i :| 0 <= i < |names| && names[i] == k;
      assert k in t && |r[k]| == |t[k]|;
    }
  }

  // ---------------------------------------------------------------------------
  // The context object

  /** `EvaluationContext`: the subject, the cursor and the capture table, updated in place. */
  class EvaluationContext {
    const subject: string
    var progress: nat
    var matches: Table

    constructor (subject: string)
      ensures this.subject == subject && progress == 0 && matches == map[]
    {
      this.subject := subject;
      progress := 0;
      matches := map[];
    }

    method PushMatch(names: seq<Id>, value: Span)
      modifies this
      ensures matches == PushAll(old(matches), names, value)
      ensures progress == old(progress)
    {
      for i := 0 to |names|
        invariant matches == PushAll(old(matches), names[..i], value)
        invariant progress == old(progress)
      {
        assert names[..i + 1][..i] == names[..i];
        var n := names[i];
        matches := matches[n := (if n in matches then matches[n] else []) + [value]];
      }
      assert names[..|names|] == names;
    }

    /** Overwrites the top entries; raises (leaving the earlier names done) on a missing name. */
    method OverrideMatch(names: seq<Id>, value: Span) returns (err: Option<EngineError>)
      modifies this
      ensures err.None? <==> OverrideAll(old(matches), names, value).Ok?
      ensures err.None? ==> matches == OverrideAll(old(matches), names, value).value
      ensures progress == old(progress)
    {
      for i := 0 to |names|
        invariant OverrideAll(old(matches), names[..i], value) == Ok(matches)
        invariant progress == old(progress)
      {
        assert names[..i + 1][..i] == names[..i];
        var n := names[i];
        if n !in matches || matches[n] == [] {
          OverrideRaisePropagates(old(matches), names, i + 1, value);
          return Some(MissingCapture(n));
        }
        matches := matches[n := matches[n][..|matches[n]| - 1] + [value]];
      }
      assert names[..|names|] == names;
      return None;
    }

    /** Pops every name; raises (leaving the earlier names done) on a missing name. */
    method PopMatch(names: seq<Id>) returns (err: Option<EngineError>)
      modifies this
      ensures err.None? <==> PopAll(old(matches), names).Ok?
      ensures err.None? ==> matches == PopAll(old(matches), names).value
      ensures progress == old(progress)
    {
      for i := 0 to |names|
        invariant PopAll(old(matches), names[..i]) == Ok(matches)
        invariant progress == old(progress)
      {
        assert names[..i + 1][..i] == names[..i];
        var n := names[i];
        if n !in matches || matches[n] == [] {
          PopRaisePropagates(old(matches), names, i + 1);
          return Some(MissingCapture(n));
        }
        var rest := matches[n][..|matches[n]| - 1];
        if rest == [] {
          matches := matches - {n};
        } else {
          matches := matches[n := rest];
        }
      }
      assert names[..|names|] == names;
      return None;
    }

    function GetMatchString(k: Id): Result<string, EngineError>
      reads this
    {
      MatchString(subject, matches, k)
    }
  }

  lemma {:induction false} OverrideRaisePropagates(t: Table, names: seq<Id>, j: nat, v: Span)
    requires j <= |names| && OverrideAll(t, names[..j], v).Raise?
    ensures OverrideAll(t, names, v).Raise?
    decreases |names| - j
  {
    if j < |names| {
      assert names[..j + 1][..j] == names[..j];
      OverrideRaisePropagates(t, names, j + 1, v);
    } else {
      assert names[..j] == names;
    }
  }

  lemma {:induction false} PopRaisePropagates(t: Table, names: seq<Id>, j: nat)
    requires j <= |names| && PopAll(t, names[..j]).Raise?
    ensures PopAll(t, names).Raise?
    decreases |names| - j
  {
    if j < |names| {
      assert names[..j + 1][..j] == names[..j];
      PopRaisePropagates(t, names, j + 1);
    } else {
      assert names[..j] == names;
    }
  }
}
