/** The capture-publication invariant behind `synchronize_context` (cre/expression.py): a named
  * node holds exactly one entry on the stack of each of its names while its current attempt has a
  * repetition -- the span of that last repetition -- and none otherwise.
  */
module Publication {
  import opened Base
  import opened Captures
  import opened Engine

  /** No identifier is listed twice (a group gets one number and at most one name). */
  predicate Distinct(names: seq<Id>) {
    forall i, j :: 0 <= i < j < |names| ==> names[i] != names[j]
  }

  /** `t` is `base` with the last repetition of `top` on top of every name's stack when the node
      is named and `top` is non-empty, and exactly `base` otherwise. */
  ghost predicate Published(names: Option<seq<Id>>, top: seq<Rep>, base: Table, t: Table) {
    forall k :: Stack(t, k) == Stack(base, k) +
      (if names.Some? && top != [] && k in names.value then [Bounds(top[|top| - 1])] else [])
  }

  lemma {:induction false} CountDistinct(names: seq<Id>, k: Id)
    requires Distinct(names)
    ensures Count(names, k) == if k in names then 1 else 0
  {
    if names != [] {
      var p, l := names[..|names| - 1], names[|names| - 1];
      assert Distinct(p);
      CountDistinct(p, k);
      assert k in names <==> k in p || k == l by {
        assert names == p + [l];
      }
      if k == l {
        assert k !in p by {
          forall i | 0 <= i < |p| ensures p[i] != k {
            assert names[i] == p[i];
          }
        }
      }
    }
  }

  /** Published stacks determine the table. */
  lemma PublishedUnique(names: Option<seq<Id>>, top: seq<Rep>, base: Table, t: Table, u: Table)
    requires WellFormed(t) && WellFormed(u)
    requires Published(names, top, base, t) && Published(names, top, base, u)
    ensures t == u
  {
    TableExtensionality(t, u);
  }

  /** `push_match` of distinct names publishes the value once under each of them. */
  lemma PushPublishes(names: seq<Id>, top: seq<Rep>, base: Table)
    requires WellFormed(base) && Distinct(names) && top != []
    ensures WellFormed(PushAll(base, names, Bounds(top[|top| - 1])))
    ensures Published(Some(names), top, base, PushAll(base, names, Bounds(top[|top| - 1])))
  {
    var v := Bounds(top[|top| - 1]);
    PushAllStacks(base, names, v);
    PushAllWellFormed(base, names, v);
    forall k ensures Stack(PushAll(base, names, v), k) == Stack(base, k) + (if k in names then [v] else []) {
      CountDistinct(names, k);
      assert Repeat(v, 1) == [v];
    }
  }

  /** A successful `matches` publishes its last repetition, if it has one. */
  lemma PublishOnMatch(names: Option<seq<Id>>, top: seq<Rep>, base: Table)
    requires WellFormed(base) && (names.Some? ==> Distinct(names.value))
    ensures WellFormed(CapturesOnMatch(names, top, base))
    ensures Published(names, top, base, CapturesOnMatch(names, top, base))
  {
    if names.Some? && top != [] {
      PushPublishes(names.value, top, base);
    }
  }

  /** A successful `retry` moves the publication from the old last repetition to the new one:
      whatever the counts before and after, the table stays `base` plus the current last span. */
  lemma RepublishOnRetry(names: Option<seq<Id>>, before: seq<Rep>, top: seq<Rep>, base: Table, t: Table)
    requires WellFormed(base) && WellFormed(t) && (names.Some? ==> Distinct(names.value))
    requires Published(names, before, base, t)
    ensures CapturesOnRetry(names, |before|, top, t).Ok?
    ensures WellFormed(CapturesOnRetry(names, |before|, top, t).value)
    ensures Published(names, top, base, CapturesOnRetry(names, |before|, top, t).value)
  {
    if names.Some? {
      if before == [] {
        assert Published(names, [], base, base);
        PublishedUnique(names, [], base, t, base);
        if top != [] {
          PushPublishes(names.value, top, base);
        }
      } else if top == [] {
        RepublishByPop(names.value, before, base, t);
      } else {
        RepublishByOverride(names.value, before, top, base, t);
      }
    }
  }

  lemma RepublishByPop(ns: seq<Id>, before: seq<Rep>, base: Table, t: Table)
    requires WellFormed(base) && WellFormed(t) && Distinct(ns) && before != []
    requires Published(Some(ns), before, base, t)
    ensures PopAll(t, ns).Ok? && WellFormed(PopAll(t, ns).value)
    ensures Published(Some(ns), [], base, PopAll(t, ns).value)
  {
    PopAllStacks(t, ns);
    assert Poppable(t, ns) by {
      forall i | 0 <= i < |ns| ensures Count(ns, ns[i]) <= |Stack(t, ns[i])| {
        CountDistinct(ns, ns[i]);
      }
    }
    var r := PopAll(t, ns).value;
    forall k ensures Stack(r, k) == Stack(base, k) {
      CountDistinct(ns, k);
    }
  }

  lemma RepublishByOverride(ns: seq<Id>, before: seq<Rep>, top: seq<Rep>, base: Table, t: Table)
    requires WellFormed(base) && WellFormed(t) && Distinct(ns) && before != [] && top != []
    requires Published(Some(ns), before, base, t)
    ensures OverrideAll(t, ns, Bounds(top[|top| - 1])).Ok?
    ensures WellFormed(OverrideAll(t, ns, Bounds(top[|top| - 1])).value)
    ensures Published(Some(ns), top, base, OverrideAll(t, ns, Bounds(top[|top| - 1])).value)
  {
    var v := Bounds(top[|top| - 1]);
    forall i | 0 <= i < |ns| ensures ns[i] in t {
      assert Stack(t, ns[i]) != [];
    }
    OverrideAllSucceeds(t, ns, v);
    OverrideAllShape(t, ns, v);
    var r := OverrideAll(t, ns, v).value;
    var w := Bounds(before[|before| - 1]);
    forall k ensures Stack(r, k) == Stack(base, k) + (if k in ns then [v] else []) {
      OverriddenStack(r, t, ns, v, k, Stack(base, k), w);
    }
  }

  lemma OverriddenStack(r: Table, t: Table, ns: seq<Id>, v: Span, k: Id, below: seq<Span>, w: Span)
    requires WellFormed(t) && OverriddenFrom(r, t, ns, v)
    requires Stack(t, k) == below + (if k in ns then [w] else [])
    ensures Stack(r, k) == below + (if k in ns then [v] else [])
  {
    if k in t && k in ns {
      assert t[k][..|t[k]| - 1] == below;
      assert r[k] == r[k][..|t[k]| - 1] + [r[k][|t[k]| - 1]];
    }
  }

  /** `undo` of a published attempt withdraws exactly what was published. */
  lemma WithdrawOnUndo(names: Option<seq<Id>>, top: seq<Rep>, base: Table, t: Table)
    requires WellFormed(base) && WellFormed(t) && (names.Some? ==> Distinct(names.value))
    requires Published(names, top, base, t)
    ensures CapturesOnUndo(names, top != [], t) == Ok(base)
  {
    if names.Some? && top != [] {
      var ns := names.value;
      PushPublishes(ns, top, base);
      PublishedUnique(names, top, base, t, PushAll(base, ns, Bounds(top[|top| - 1])));
      PushThenPopRestores(base, ns, Bounds(top[|top| - 1]));
    } else {
      assert Published(names, top, base, base);
      PublishedUnique(names, top, base, t, base);
    }
  }

  // ---------------------------------------------------------------------------
  // The protocol as written

  /** As written, `undo` of an attempt without repetitions pops a capture that `matches` never
      pushed: for a fresh table the corrected protocol has nothing to withdraw, the written one
      raises a lookup error. */
  lemma UndoAsWrittenPopsUnpublished()
    ensures CapturesOnMatch(Some([Index(1)]), [], map[]) == map[]
    ensures CapturesOnUndoAsWritten(Some([Index(1)]), map[]) == Raise(MissingCapture(Index(1)))
    ensures CapturesOnUndo(Some([Index(1)]), false, map[]) == Ok(map[])
  {
  }

  /** As written, a greedy `retry` that drops the only repetition keeps the capture of the dropped
      span, and a non-greedy `retry` that adds the first repetition overwrites a capture that does
      not exist; the corrected protocol withdraws and publishes instead. */
  lemma RetryAsWrittenLosesStep()
    ensures CapturesOnRetryAsWritten(Some([Index(1)]), [], map[Index(1) := [Span(0, 1)]])
         == Ok(map[Index(1) := [Span(0, 1)]])
    ensures CapturesOnRetry(Some([Index(1)]), 1, [], map[Index(1) := [Span(0, 1)]]) == Ok(map[])
    ensures CapturesOnRetryAsWritten(Some([Index(1)]), [Rep(0, 1, None)], map[])
         == Raise(MissingCapture(Index(1)))
    ensures CapturesOnRetry(Some([Index(1)]), 0, [Rep(0, 1, None)], map[])
         == Ok(map[Index(1) := [Span(0, 1)]])
  {
    var m: Table := map[];
    assert [Index(1)][..0] == [];
    assert PushAll(m, [], Span(0, 1)) == m;
    assert Index(1) !in m;
    assert Stack(m, Index(1)) + [Span(0, 1)] == [Span(0, 1)];
    assert Push(m, Index(1), Span(0, 1)) == map[Index(1) := [Span(0, 1)]];
    assert PushAll(m, [Index(1)], Span(0, 1)) == map[Index(1) := [Span(0, 1)]];
  }
}
