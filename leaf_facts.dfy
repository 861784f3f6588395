/** What the three-call protocol of a leaf node (`Expression.matches`, `retry` and `undo` in
  * cre/expression.py) guarantees, stated over runs of consecutive steps.
  */
module LeafFacts {
  import opened Base
  import opened Captures
  import opened Engine
  import opened Publication

  /** The text a single step of `k` accepts: its own character, a character of the range, or
      the text of the latest capture of the reference. */
  ghost predicate Accepts(k: Kind, c: Ctx, text: string) {
    match k
    case Character(ch) => text == [ch]
    case CharacterRange(lo, hi) => |text| == 1 && lo <= text[0] <= hi
    case BackReference(ref) =>
      Stack(c.table, ref) != [] && text == MatchString(c.subject, c.table, ref).value
    case _ => false
  }

  /** A leaf step succeeds exactly when the subject text at the cursor is text the leaf accepts,
      and then spans that text; it never moves the cursor. */
  lemma StepAccepts(k: Kind, c: Ctx)
    requires IsLeaf(Expr(k, 1, Finite(1), true, None)) && c.progress < |c.subject|
    ensures LeafStep(k, c).Ok? && LeafStep(k, c).value.Some? <==>
      && c.progress + Width(k, c) <= |c.subject|
      && Accepts(k, c, c.subject[c.progress..c.progress + Width(k, c)])
    ensures LeafStep(k, c).Ok? && LeafStep(k, c).value.Some? ==>
      LeafStep(k, c).value.value == Span(c.progress, c.progress + Width(k, c))
  {
    if k.BackReference? && Stack(c.table, k.ref) != [] {
      var text := MatchString(c.subject, c.table, k.ref).value;
      var rest := Suffix(c.subject, c.progress);
      if text <= rest {
        assert c.subject[c.progress..c.progress + |text|] == rest[..|text|];
      } else if c.progress + |text| <= |c.subject| {
        assert c.subject[c.progress..c.progress + |text|] != text by {
          assert rest[..|text|] == c.subject[c.progress..c.progress + |text|];
        }
      }
    }
  }

  /** A step of a character leaf never raises inside the subject; a back-reference step raises
      exactly when its reference has no live capture, whatever the cursor. */
  lemma StepErrors(k: Kind, c: Ctx)
    ensures !k.BackReference? && c.progress < |c.subject| ==> LeafStep(k, c).Ok?
    ensures k.BackReference? ==>
      (LeafStep(k, c).Raise? <==> Stack(c.table, k.ref) == []) &&
      (LeafStep(k, c).Raise? ==> LeafStep(k, c).error == UnsetReference(k.ref))
  {
  }

  /** Where a run of repetitions that starts at `from` ends. */
  function End(from: nat, reps: seq<Rep>): nat {
    if reps == [] then from else reps[|reps| - 1].end
  }

  /** `reps` are consecutive steps of `k` from `from`: every span is what one step yields at the
      end of the previous one (the first at `from`). */
  ghost predicate Chain(k: Kind, c: Ctx, from: nat, reps: seq<Rep>) {
    && (reps != [] ==> reps[0].start == from)
    && (forall i :: 0 < i < |reps| ==> reps[i].start == reps[i - 1].end)
    && (forall i :: 0 <= i < |reps| ==>
          reps[i].choice.None? && LeafStep(k, c.(progress := reps[i].start)) == Ok(Some(Bounds(reps[i]))))
  }

  /** The step loop stopped for one of its reasons: end of subject, limit reached, no match. */
  predicate Stopped(k: Kind, c: Ctx, count: nat, limit: Limit) {
    c.progress >= |c.subject| || !Below(count, limit) || LeafStep(k, c) == Ok(None)
  }

  /** A run does not depend on the cursor of the context it is read in. */
  lemma ChainProgress(k: Kind, c: Ctx, x: nat, from: nat, reps: seq<Rep>)
    ensures Chain(k, c.(progress := x), from, reps) <==> Chain(k, c, from, reps)
  {
    forall y: nat ensures c.(progress := x).(progress := y) == c.(progress := y) { }
  }

  /** A step followed by a run from its end is a run. */
  lemma ChainCons(k: Kind, c: Ctx, rep: Rep, tail: seq<Rep>)
    requires rep.choice.None? && LeafStep(k, c.(progress := rep.start)) == Ok(Some(Bounds(rep)))
    requires Chain(k, c, rep.end, tail)
    ensures Chain(k, c, rep.start, [rep] + tail)
  {
    var r := [rep] + tail;
    forall i | 0 < i < |r| ensures r[i].start == r[i - 1].end {
      assert r[i] == tail[i - 1];
      if i > 1 {
        assert r[i - 1] == tail[i - 2];
      }
    }
    forall i | 0 <= i < |r|
      ensures r[i].choice.None? && LeafStep(k, c.(progress := r[i].start)) == Ok(Some(Bounds(r[i])))
    {
      if i > 0 {
        assert r[i] == tail[i - 1];
      }
    }
  }

  /** A run followed by a step at its end is a run. */
  lemma ChainSnoc(k: Kind, c: Ctx, from: nat, reps: seq<Rep>, rep: Rep)
    requires Chain(k, c, from, reps) && rep.start == End(from, reps)
    requires rep.choice.None? && LeafStep(k, c.(progress := rep.start)) == Ok(Some(Bounds(rep)))
    ensures Chain(k, c, from, reps + [rep]) && End(from, reps + [rep]) == rep.end
  {
    var r := reps + [rep];
    forall i | 0 < i < |r| ensures r[i].start == r[i - 1].end {
      if i < |reps| {
        assert r[i] == reps[i] && r[i - 1] == reps[i - 1];
      }
    }
    forall i | 0 <= i < |r|
      ensures r[i].choice.None? && LeafStep(k, c.(progress := r[i].start)) == Ok(Some(Bounds(r[i])))
    {
      if i < |reps| {
        assert r[i] == reps[i];
      }
    }
  }

  /** A run without its last step is a run, ending where that step started. */
  lemma ChainInit(k: Kind, c: Ctx, from: nat, reps: seq<Rep>)
    requires Chain(k, c, from, reps) && reps != []
    ensures Chain(k, c, from, reps[..|reps| - 1])
    ensures End(from, reps[..|reps| - 1]) == reps[|reps| - 1].start
  {
    var r := reps[..|reps| - 1];
    forall i | 0 < i < |r| ensures r[i].start == r[i - 1].end {
      assert r[i] == reps[i] && r[i - 1] == reps[i - 1];
    }
    forall i | 0 <= i < |r|
      ensures r[i].choice.None? && LeafStep(k, c.(progress := r[i].start)) == Ok(Some(Bounds(r[i])))
    {
      assert r[i] == reps[i];
    }
  }

  /** The step loop of `matches` extends the spans collected so far by a run from the cursor,
      leaves the cursor at its end, keeps within the limit and stops only for one of its reasons. */
  lemma {:induction false} CollectSteps(k: Kind, c: Ctx, reps: seq<Rep>, limit: Limit)
    requires Within(|reps|, limit)
    ensures Collect(k, c, reps, limit).Ok? ==>
      var r := Collect(k, c, reps, limit).value.0;
      && |reps| <= |r| && r[..|reps|] == reps
      && Chain(k, c, c.progress, r[|reps|..])
      && Collect(k, c, reps, limit).value.1 == c.(progress := End(c.progress, r[|reps|..]))
      && Within(|r|, limit)
      && Stopped(k, Collect(k, c, reps, limit).value.1, |r|, limit)
    decreases if Width(k, c) > 0 then (if c.progress <= |c.subject| then |c.subject| - c.progress else 0)
              else if limit.Finite? && |reps| <= limit.n then limit.n - |reps| else 0
  {
    if c.progress < |c.subject| && Below(|reps|, limit) && !(limit.Infinite? && Width(k, c) == 0) {
      var m := LeafStep(k, c);
      if m.Ok? && m.value.Some? {
        var sp := m.value.value;
        var c1 := c.(progress := sp.end);
        var rep := Rep(sp.start, sp.end, None);
        assert Collect(k, c, reps, limit) == Collect(k, c1, reps + [rep], limit);
        CollectSteps(k, c1, reps + [rep], limit);
        if Collect(k, c1, reps + [rep], limit).Ok? {
          CollectStepsCons(k, c, reps, rep, Collect(k, c1, reps + [rep], limit).value.0);
        }
      } else {
        assert [] == reps[|reps|..];
        assert c == c.(progress := c.progress);
      }
    } else {
      assert [] == reps[|reps|..];
      assert c == c.(progress := c.progress);
    }
  }

  lemma CollectStepsCons(k: Kind, c: Ctx, reps: seq<Rep>, rep: Rep, r: seq<Rep>)
    requires rep.start == c.progress && rep.choice.None?
    requires LeafStep(k, c) == Ok(Some(Bounds(rep)))
    requires |reps + [rep]| <= |r| && r[..|reps + [rep]|] == reps + [rep]
    requires Chain(k, c.(progress := rep.end), rep.end, r[|reps + [rep]|..])
    ensures |reps| <= |r| && r[..|reps|] == reps
    ensures Chain(k, c, c.progress, r[|reps|..])
    ensures c.(progress := rep.end).(progress := End(rep.end, r[|reps + [rep]|..]))
         == c.(progress := End(c.progress, r[|reps|..]))
  {
    var tail := r[|reps| + 1..];
    assert r[..|reps|] == (reps + [rep])[..|reps|] == reps;
    assert r[|reps|..] == [rep] + tail;
    ChainProgress(k, c, rep.end, rep.end, tail);
    assert c == c.(progress := rep.start);
    ChainCons(k, c, rep, tail);
    assert End(rep.end, tail) == End(c.progress, [rep] + tail);
  }

  /** A leaf may refer to its own capture only if it is unnamed; every node the compiler builds
      satisfies this (back-references carry no names). */
  predicate SelfFree(e: Expr) {
    !(e.kind.BackReference? && e.names.Some? && e.kind.ref in e.names.value)
  }

  /** The invariant of a leaf at rest after a successful `matches` or `retry` begun at `from`
      with capture table `base`: the current attempt is a run of steps from `from` within the
      minimum, the cursor is at its end, and its last span is published. */
  ghost predicate Settled(e: Expr, top: seq<Rep>, from: nat, c: Ctx, base: Table) {
    && Chain(e.kind, c.(table := base), from, top)
    && c.progress == End(from, top)
    && e.min <= |top|
    && WellFormed(base) && WellFormed(c.table)
    && Published(e.names, top, base, c.table)
  }

  /** `matches` on a leaf pushes one attempt. On success the attempt is the run of steps from the
      cursor, at least `min` long and within the initial limit; a greedy run could not go on and a
      non-greedy one holds exactly `min` spans; the last span is published. On failure the
      state and the context are exactly as before. */
  lemma LeafMatchesSpec(e: Expr, s: State, c: Ctx)
    requires IsLeaf(e) && WellFormed(c.table) && (e.names.Some? ==> Distinct(e.names.value))
    ensures LeafMatches(e, s, c).Ok? ==>
      var o := LeafMatches(e, s, c).value;
      if o.ok then
        && o.state == s.(attempts := s.attempts + [Top(o.state)])
        && Settled(e, Top(o.state), c.progress, o.ctx, c.table)
        && o.ctx.subject == c.subject
        && Within(|Top(o.state)|, InitialLimit(e))
        && (e.greedy ==> Stopped(e.kind, c.(progress := o.ctx.progress), |Top(o.state)|, e.max))
        && (!e.greedy ==> |Top(o.state)| == e.min)
      else o.state == s && o.ctx == c
    ensures LeafMatches(e, s, c).Ok? ==>
      (LeafMatches(e, s, c).value.ok <==> e.min <= |Collect(e.kind, c, [], InitialLimit(e)).value.0|)
  {
    var limit := InitialLimit(e);
    CollectSteps(e.kind, c, [], limit);
    if LeafMatches(e, s, c).Ok? {
      var reps := Collect(e.kind, c, [], limit).value.0;
      var c1 := Collect(e.kind, c, [], limit).value.1;
      assert reps[0..] == reps;
      var pushed := SetTop(PushAttempt(s), reps);
      assert pushed == s.(attempts := s.attempts + [reps]);
      assert Top(pushed) == reps;
      if e.min <= |reps| {
        PublishOnMatch(e.names, reps, c.table);
        assert c1.(table := CapturesOnMatch(e.names, reps, c.table)).(table := c.table) == c1;
      } else {
        assert PopAttempt(pushed) == s;
        if reps != [] {
          assert reps[0].start == c.progress;
        }
      }
    }
  }

  /** Character leaves never raise from `matches`. */
  lemma {:induction false} CollectTotal(k: Kind, c: Ctx, reps: seq<Rep>, limit: Limit)
    requires k.Character? || k.CharacterRange?
    ensures Collect(k, c, reps, limit).Ok?
    decreases if c.progress <= |c.subject| then |c.subject| - c.progress else 0
  {
    if c.progress < |c.subject| && Below(|reps|, limit) {
      var m := LeafStep(k, c);
      if m.value.Some? {
        CollectTotal(k, c.(progress := m.value.value.end), reps + [Rep(m.value.value.start, m.value.value.end, None)], limit);
      }
    }
  }

  /** `retry` on a settled leaf. On success it has dropped its last span (greedy) or added one
      step (non-greedy), and is settled again from the same cursor with the new last span
      published. On failure the attempt is gone and cursor and capture table are back where
      `matches` found them. */
  lemma LeafRetrySpec(e: Expr, s: State, c: Ctx, from: nat, base: Table)
    requires IsLeaf(e) && SelfFree(e) && (e.names.Some? ==> Distinct(e.names.value))
    requires s.attempts != [] && Settled(e, Top(s), from, c, base)
    ensures LeafRetry(e, s, c).Ok? ==>
      var o := LeafRetry(e, s, c).value;
      var top := Top(s);
      if o.ok then
        && o.state == SetTop(s, Top(o.state))
        && Settled(e, Top(o.state), from, o.ctx, base)
        && o.ctx.subject == c.subject
        && (e.greedy ==> Top(o.state) == top[..|top| - 1])
        && (!e.greedy ==> |Top(o.state)| == |top| + 1 && Top(o.state)[..|top|] == top)
      else o.state == PopAttempt(s) && o.ctx == c.(progress := from, table := base)
    ensures LeafRetry(e, s, c).Ok? ==>
      (!LeafRetry(e, s, c).value.ok <==>
        if e.greedy then |Top(s)| == e.min
        else Reaches(|Top(s)|, e.max) || LeafStep(e.kind, c) == Ok(None))
  {
    var top := Top(s);
    if LeafRetryBody(e, s, c).Ok? {
      var body := LeafRetryBody(e, s, c).value;
      if !body.ok {
        assert body.state == s && body.ctx == c;
        LeafUndoRestores(e, s, c, from, base);
      } else if e.greedy {
        ShrinkSettles(e, top, from, c, base);
        assert Top(body.state) == top[..|top| - 1];
      } else {
        GrowSettles(e, top, from, c, base);
        assert Top(body.state) == top + [Rep(LeafStep(e.kind, c).value.value.start, LeafStep(e.kind, c).value.value.end, None)];
      }
    }
  }

  /** Dropping the last span of a settled greedy leaf above its minimum settles it again. */
  lemma ShrinkSettles(e: Expr, top: seq<Rep>, from: nat, c: Ctx, base: Table)
    requires (e.names.Some? ==> Distinct(e.names.value))
    requires Settled(e, top, from, c, base) && top != [] && |top| != e.min
    ensures var nt := top[..|top| - 1];
      var t := CapturesOnRetry(e.names, |top|, nt, c.table);
      t.Ok? && Settled(e, nt, from, c.(progress := top[|top| - 1].start, table := t.value), base)
  {
    var nt := top[..|top| - 1];
    ChainInit(e.kind, c.(table := base), from, top);
    RepublishOnRetry(e.names, top, nt, base, c.table);
    var c2 := c.(progress := top[|top| - 1].start, table := CapturesOnRetry(e.names, |top|, nt, c.table).value);
    assert c2.(table := base) == c.(table := base).(progress := top[|top| - 1].start);
    ChainProgress(e.kind, c.(table := base), top[|top| - 1].start, from, nt);
  }

  /** Adding the step at the cursor to a settled non-greedy leaf settles it again. */
  lemma GrowSettles(e: Expr, top: seq<Rep>, from: nat, c: Ctx, base: Table)
    requires SelfFree(e) && (e.names.Some? ==> Distinct(e.names.value))
    requires Settled(e, top, from, c, base)
    requires LeafStep(e.kind, c).Ok? && LeafStep(e.kind, c).value.Some?
    ensures var sp := LeafStep(e.kind, c).value.value;
      var nt := top + [Rep(sp.start, sp.end, None)];
      var t := CapturesOnRetry(e.names, |top|, nt, c.table);
      t.Ok? && Settled(e, nt, from, c.(progress := sp.end, table := t.value), base)
  {
    var sp := LeafStep(e.kind, c).value.value;
    var rep := Rep(sp.start, sp.end, None);
    var nt := top + [rep];
    var cb := c.(table := base);
    SelfFreeStep(e, top, c, base);
    assert cb.(progress := rep.start) == cb;
    ChainSnoc(e.kind, cb, from, top, rep);
    RepublishOnRetry(e.names, top, nt, base, c.table);
    var c2 := c.(progress := sp.end, table := CapturesOnRetry(e.names, |top|, nt, c.table).value);
    assert c2.(table := base) == cb.(progress := sp.end);
    ChainProgress(e.kind, cb, sp.end, from, nt);
  }

  /** A self-free leaf steps the same with or without its own publication. */
  lemma SelfFreeStep(e: Expr, top: seq<Rep>, c: Ctx, base: Table)
    requires SelfFree(e) && Published(e.names, top, base, c.table)
    ensures LeafStep(e.kind, c) == LeafStep(e.kind, c.(table := base))
  {
    if e.kind.BackReference? {
      assert Stack(c.table, e.kind.ref) == Stack(base, e.kind.ref);
    }
  }

  /** `undo` of a settled leaf drops the attempt and puts cursor and capture table back where
      `matches` found them: `matches` followed by `undo` changes nothing. */
  lemma LeafUndoRestores(e: Expr, s: State, c: Ctx, from: nat, base: Table)
    requires IsLeaf(e) && (e.names.Some? ==> Distinct(e.names.value))
    requires s.attempts != [] && Settled(e, Top(s), from, c, base)
    ensures Undo(e, s, c) == Ok((PopAttempt(s), c.(progress := from, table := base)))
  {
    WithdrawOnUndo(e.names, Top(s), base, c.table);
    if Top(s) != [] {
      assert Top(s)[0].start == from;
    }
  }

  /** The round trip: a successful `matches` on a leaf followed by `undo` restores state and context. */
  lemma LeafMatchesThenUndo(e: Expr, s: State, c: Ctx)
    requires IsLeaf(e) && WellFormed(c.table) && (e.names.Some? ==> Distinct(e.names.value))
    requires LeafMatches(e, s, c).Ok? && LeafMatches(e, s, c).value.ok
    ensures Undo(e, LeafMatches(e, s, c).value.state, LeafMatches(e, s, c).value.ctx) == Ok((s, c))
  {
    var o := LeafMatches(e, s, c).value;
    LeafMatchesSpec(e, s, c);
    LeafUndoRestores(e, o.state, o.ctx, c.progress, c.table);
    assert PopAttempt(o.state) == s;
    assert o.ctx.(progress := c.progress, table := c.table) == c;
  }
}
