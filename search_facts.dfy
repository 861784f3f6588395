/** The attempt-stack discipline of the engine (cre/expression.py) for every node kind, the
  * composites included: `matches` pushes exactly one attempt and, on success, leaves it within the
  * repetition bounds; `retry` keeps the attempt and moves its count by at most one in the node's
  * direction, or drops it; `undo` drops it. Proved by induction over the step budget.
  */
module SearchFacts {
  import opened Base
  import opened Captures
  import opened Engine
  import opened LeafFacts

  /** The attempts below the current one. */
  function Lower(s: State): seq<seq<Rep>> {
    if s.attempts == [] then [] else s.attempts[..|s.attempts| - 1]
  }

  /** `a` has as many attempts and children as `b` and agrees with it below the current attempt. */
  predicate SameBelow(a: State, b: State) {
    |a.attempts| == |b.attempts| && Lower(a) == Lower(b) && |a.children| == |b.children|
  }

  /** The repetition count after a successful `retry`, given the count before it: greedy nodes give
      one back but never go below their minimum, the others take one more but never pass their
      maximum. */
  predicate RetryCount(e: Expr, before: nat, after: nat) {
    if e.greedy then
      before - 1 <= after <= before && (e.min <= before ==> e.min <= after)
    else
      before <= after <= before + 1 && (Within(before, e.max) ==> Within(after, e.max))
  }

  // ---------------------------------------------------------------------------
  // Searches over the children touch only the children

  lemma {:induction false} TryOptionsKeeps(ch: seq<Expr>, s: State, i: nat, c: Ctx, start: nat, fuel: nat)
    ensures TryOptions(ch, s, i, c, start, fuel).Ok? ==>
      var m := TryOptions(ch, s, i, c, start, fuel).value;
      && m.state.attempts == s.attempts && |m.state.children| == |s.children|
      && (m.rep.Some? ==> m.rep.value.start == start && m.rep.value.choice.Some?
                          && m.rep.value.choice.value < |ch|)
    decreases fuel
  {
    if fuel > 0 && i < |ch| {
      var o := Matches(ch[i], ChildState(s, i), c, fuel - 1);
      if o.Ok? {
        TryOptionsKeeps(ch, WithChild(s, i, o.value.state), i + 1, o.value.ctx, start, fuel - 1);
      }
    }
  }

  lemma {:induction false} MatchOneKeeps(ch: seq<Expr>, s: State, i: nat, c: Ctx, fuel: nat)
    ensures MatchOne(ch, s, i, c, fuel).Ok? ==>
      MatchOne(ch, s, i, c, fuel).value.state.attempts == s.attempts &&
      |MatchOne(ch, s, i, c, fuel).value.state.children| == |s.children|
    decreases fuel, 1
  {
    if fuel > 0 && i < |ch| {
      var o := Matches(ch[i], ChildState(s, i), c, fuel - 1);
      if o.Ok? && o.value.ok {
        MatchOneLoopKeeps(ch, WithChild(s, i, o.value.state), i, o.value.ctx, fuel - 1);
      }
    }
  }

  lemma {:induction false} MatchOneLoopKeeps(ch: seq<Expr>, s: State, i: nat, c: Ctx, fuel: nat)
    requires i < |ch|
    ensures MatchOneLoop(ch, s, i, c, fuel).Ok? ==>
      MatchOneLoop(ch, s, i, c, fuel).value.state.attempts == s.attempts &&
      |MatchOneLoop(ch, s, i, c, fuel).value.state.children| == |s.children|
    decreases fuel, 0
  {
    if fuel > 0 {
      MatchOneKeeps(ch, s, i + 1, c, fuel - 1);
      var r := MatchOne(ch, s, i + 1, c, fuel - 1);
      if r.Ok? && !r.value.ok {
        var t := Retry(ch[i], ChildState(r.value.state, i), r.value.ctx, fuel - 1);
        if t.Ok? && t.value.ok {
          MatchOneLoopKeeps(ch, WithChild(r.value.state, i, t.value.state), i, t.value.ctx, fuel - 1);
        }
      }
    }
  }

  lemma {:induction false} RetryOneChildKeeps(ch: seq<Expr>, s: State, i: int, c: Ctx, fuel: nat)
    requires i < |ch|
    ensures RetryOneChild(ch, s, i, c, fuel).Ok? ==>
      RetryOneChild(ch, s, i, c, fuel).value.state.attempts == s.attempts &&
      |RetryOneChild(ch, s, i, c, fuel).value.state.children| == |s.children|
    decreases fuel, 1
  {
    if fuel > 0 && i >= 0 {
      var t := Retry(ch[i], ChildState(s, i), c, fuel - 1);
      if t.Ok? && !t.value.ok {
        RetryOneLoopKeeps(ch, WithChild(s, i, t.value.state), i, t.value.ctx, fuel - 1);
      }
    }
  }

  lemma {:induction false} RetryOneLoopKeeps(ch: seq<Expr>, s: State, i: nat, c: Ctx, fuel: nat)
    requires i < |ch|
    ensures RetryOneLoop(ch, s, i, c, fuel).Ok? ==>
      RetryOneLoop(ch, s, i, c, fuel).value.state.attempts == s.attempts &&
      |RetryOneLoop(ch, s, i, c, fuel).value.state.children| == |s.children|
    decreases fuel, 0
  {
    if fuel > 0 {
      RetryOneChildKeeps(ch, s, i - 1, c, fuel - 1);
      var r := RetryOneChild(ch, s, i - 1, c, fuel - 1);
      if r.Ok? && r.value.ok {
        var m := Matches(ch[i], ChildState(r.value.state, i), r.value.ctx, fuel - 1);
        if m.Ok? && !m.value.ok {
          RetryOneLoopKeeps(ch, WithChild(r.value.state, i, m.value.state), i, m.value.ctx, fuel - 1);
        }
      }
    }
  }

  /** One composite step leaves the node's own attempts alone; a found repetition starts at the
      cursor and, for an alternation, names one of its children. */
  lemma MatchesOnceKeeps(e: Expr, s: State, c: Ctx, fuel: nat)
    ensures MatchesOnce(e, s, c, fuel).Ok? ==>
      var m := MatchesOnce(e, s, c, fuel).value;
      && m.state.attempts == s.attempts && |m.state.children| == |s.children|
      && (m.rep.Some? ==> m.rep.value.start == c.progress)
      && (m.rep.Some? && e.kind.AnyOfOptions? ==>
            m.rep.value.choice.Some? && m.rep.value.choice.value < |e.kind.children|)
  {
    if fuel > 0 {
      match e.kind
      case Group(ch) => MatchOneKeeps(ch, s, 0, c, fuel - 1);
      case AnyOfOptions(ch) => TryOptionsKeeps(ch, s, 0, c, c.progress, fuel - 1);
      case _ =>
    }
  }

  // ---------------------------------------------------------------------------
  // Repetition counts of the composite loops

  lemma {:induction false} IterFillCounts(e: Expr, s: State, c: Ctx, fuel: nat)
    requires s.attempts != []
    ensures IterFill(e, s, c, fuel).Ok? ==>
      var o := IterFill(e, s, c, fuel).value;
      && SameBelow(o.state, s) && |Top(s)| <= |Top(o.state)|
      && (Within(|Top(s)|, InitialLimit(e)) ==> Within(|Top(o.state)|, InitialLimit(e)))
    decreases fuel
  {
    if fuel > 0 && Below(|Top(s)|, InitialLimit(e)) {
      MatchesOnceKeeps(e, s, c, fuel - 1);
      var m := MatchesOnce(e, s, c, fuel - 1);
      if m.Ok? && m.value.rep.Some? {
        IterFillCounts(e, AppendRep(m.value.state, m.value.rep.value), m.value.ctx, fuel - 1);
      }
    }
  }

  lemma {:induction false} ReevaluateCounts(e: Expr, s: State, c: Ctx, fuel: nat)
    requires s.attempts != [] && !IsLeaf(e)
    ensures Reevaluate(e, s, c, fuel).Ok? ==>
      var o := Reevaluate(e, s, c, fuel).value;
      SameBelow(o.state, s) && (if o.ok then |Top(o.state)| == |Top(s)| else Top(o.state) == [])
    decreases fuel, 1
  {
    if fuel > 0 && Top(s) != [] && e.kind.Group? {
      var ch := e.kind.children;
      var s1 := SetTop(s, Top(s)[..|Top(s)| - 1]);
      RetryOneChildKeeps(ch, s1, |ch| - 1, c, fuel - 1);
      var r := RetryOneChild(ch, s1, |ch| - 1, c, fuel - 1);
      if r.Ok? && !r.value.ok {
        ReevaluateLoopCounts(e, r.value.state, r.value.ctx, fuel - 1);
      }
    }
  }

  lemma {:induction false} ReevaluateLoopCounts(e: Expr, s: State, c: Ctx, fuel: nat)
    requires s.attempts != [] && !IsLeaf(e)
    ensures ReevaluateLoop(e, s, c, fuel).Ok? ==>
      var o := ReevaluateLoop(e, s, c, fuel).value;
      SameBelow(o.state, s) && (if o.ok then |Top(o.state)| == |Top(s)| + 1 else Top(o.state) == [])
    decreases fuel, 0
  {
    if fuel > 0 {
      ReevaluateCounts(e, s, c, fuel - 1);
      var r := Reevaluate(e, s, c, fuel - 1);
      if r.Ok? && r.value.ok {
        MatchesOnceKeeps(e, r.value.state, r.value.ctx, fuel - 1);
        var m := MatchesOnce(e, r.value.state, r.value.ctx, fuel - 1);
        if m.Ok? && m.value.rep.None? {
          ReevaluateLoopCounts(e, m.value.state, m.value.ctx, fuel - 1);
        }
      }
    }
  }

  lemma {:induction false} IterLoopCounts(e: Expr, s: State, c: Ctx, fuel: nat)
    requires s.attempts != [] && !IsLeaf(e)
    ensures IterLoop(e, s, c, fuel).Ok? ==>
      var o := IterLoop(e, s, c, fuel).value;
      && SameBelow(o.state, s)
      && (o.ok ==> e.min <= |Top(o.state)|)
      && (o.ok && Within(|Top(s)|, InitialLimit(e)) ==> Within(|Top(o.state)|, InitialLimit(e)))
      && (!o.ok ==> Top(o.state) == [])
    decreases fuel
  {
    if fuel > 0 {
      IterFillCounts(e, s, c, fuel - 1);
      var f := IterFill(e, s, c, fuel - 1);
      if f.Ok? && |Top(f.value.state)| < e.min {
        ReevaluateCounts(e, f.value.state, f.value.ctx, fuel - 1);
        var r := Reevaluate(e, f.value.state, f.value.ctx, fuel - 1);
        if r.Ok? && r.value.ok {
          IterLoopCounts(e, r.value.state, r.value.ctx, fuel - 1);
        }
      }
    }
  }

  lemma {:induction false} RebuildCounts(e: Expr, s: State, c: Ctx, n: nat, fuel: nat)
    requires s.attempts != []
    ensures Rebuild(e, s, c, n, fuel).Ok? ==>
      var o := Rebuild(e, s, c, n, fuel).value;
      SameBelow(o.state, s) && (o.ok ==> |Top(o.state)| == |Top(s)| + n)
    decreases fuel
  {
    if fuel > 0 && n > 0 {
      MatchesOnceKeeps(e, s, c, fuel - 1);
      var m := MatchesOnce(e, s, c, fuel - 1);
      if m.Ok? && m.value.rep.Some? {
        RebuildCounts(e, AppendRep(m.value.state, m.value.rep.value), m.value.ctx, n - 1, fuel - 1);
      }
    }
  }

  lemma RetryBodyCounts(e: Expr, s: State, c: Ctx, fuel: nat)
    requires s.attempts != [] && !IsLeaf(e)
    ensures CompositeRetryBody(e, s, c, fuel).Ok? ==>
      var o := CompositeRetryBody(e, s, c, fuel).value;
      SameBelow(o.state, s) && (o.ok ==> RetryCount(e, |Top(s)|, |Top(o.state)|))
  {
    if fuel > 0 {
      var init := |Top(s)|;
      if init > 0 {
        ReevaluateCounts(e, s, c, fuel - 1);
      }
      var r := if init == 0 then Ok(Out(false, s, c)) else Reevaluate(e, s, c, fuel - 1);
      if r.Ok? && !(init > 0 && r.value.ok) {
        RebuildCounts(e, r.value.state, r.value.ctx, if e.greedy && init > 0 then init - 1 else init + 1, fuel - 1);
      }
    }
  }

  // ---------------------------------------------------------------------------
  // undo

  lemma {:induction false} UndoChildrenKeeps(e: Expr, s: State, c: Ctx, i: nat)
    requires e.kind.Group? && i <= |e.kind.children|
    ensures UndoChildren(e, s, c, i).Ok? ==>
      UndoChildren(e, s, c, i).value.0.attempts == s.attempts &&
      |UndoChildren(e, s, c, i).value.0.children| == |s.children|
    decreases i
  {
    if i > 0 {
      var r := Undo(e.kind.children[i - 1], ChildState(s, i - 1), c);
      if r.Ok? {
        UndoChildrenKeeps(e, WithChild(s, i - 1, r.value.0), r.value.1, i - 1);
      }
    }
  }

  lemma {:induction false} UndoRoundsKeeps(e: Expr, s: State, c: Ctx, k: nat)
    requires e.kind.Group?
    ensures UndoRounds(e, s, c, k).Ok? ==>
      UndoRounds(e, s, c, k).value.0.attempts == s.attempts &&
      |UndoRounds(e, s, c, k).value.0.children| == |s.children|
    decreases k
  {
    if k > 0 {
      UndoChildrenKeeps(e, s, c, |e.kind.children|);
      var r := UndoChildren(e, s, c, |e.kind.children|);
      if r.Ok? {
        UndoRoundsKeeps(e, r.value.0, r.value.1, k - 1);
      }
    }
  }

  lemma {:induction false} UndoChoicesKeeps(e: Expr, s: State, c: Ctx, reps: seq<Rep>)
    requires e.kind.AnyOfOptions?
    ensures UndoChoices(e, s, c, reps).Ok? ==>
      UndoChoices(e, s, c, reps).value.0.attempts == s.attempts &&
      |UndoChoices(e, s, c, reps).value.0.children| == |s.children|
    decreases |reps|
  {
    if reps != [] {
      var choice := reps[|reps| - 1].choice;
      if choice.Some? && choice.value < |e.kind.children| {
        var r := Undo(e.kind.children[choice.value], ChildState(s, choice.value), c);
        if r.Ok? {
          UndoChoicesKeeps(e, WithChild(s, choice.value, r.value.0), r.value.1, reps[..|reps| - 1]);
        }
      }
    }
  }

  /** `undo` drops exactly the current attempt of the node. */
  lemma UndoDrops(e: Expr, s: State, c: Ctx, published: bool)
    ensures UndoWith(e, s, c, published).Ok? ==>
      s.attempts != [] &&
      UndoWith(e, s, c, published).value.0.attempts == Lower(s) &&
      |UndoWith(e, s, c, published).value.0.children| == |s.children|
  {
    if s.attempts != [] {
      match e.kind
      case Group(_) => UndoRoundsKeeps(e, s, c, |Top(s)|);
      case AnyOfOptions(_) => UndoChoicesKeeps(e, s, c, Top(s));
      case _ =>
    }
  }

  // ---------------------------------------------------------------------------
  // matches and retry

  /** `matches` pushes exactly one attempt, which on success holds at least `min` and at most the
      initial limit of repetitions, and which it drops again on failure. */
  lemma MatchesPushesAttempt(e: Expr, s: State, c: Ctx, fuel: nat)
    ensures Matches(e, s, c, fuel).Ok? ==>
      var o := Matches(e, s, c, fuel).value;
      && |o.state.children| == |s.children|
      && (o.ok ==> o.state.attempts == s.attempts + [Top(o.state)]
                   && e.min <= |Top(o.state)| && Within(|Top(o.state)|, InitialLimit(e)))
      && (!o.ok ==> o.state.attempts == s.attempts)
  {
    var pushed := PushAttempt(s);
    assert Lower(pushed) == s.attempts;
    if IsLeaf(e) {
      CollectSteps(e.kind, c, [], InitialLimit(e));
      if Collect(e.kind, c, [], InitialLimit(e)).Ok? {
        var reps := Collect(e.kind, c, [], InitialLimit(e)).value.0;
        assert reps[0..] == reps;
        assert SetTop(pushed, reps).attempts == s.attempts + [reps];
      }
    } else if fuel > 0 {
      IterLoopCounts(e, pushed, c, fuel - 1);
      if IterLoop(e, pushed, c, fuel - 1).Ok? {
        var body := IterLoop(e, pushed, c, fuel - 1).value;
        assert body.state.attempts == Lower(body.state) + [Top(body.state)];
      }
    }
  }

  /** `retry` either keeps the current attempt, moving its repetition count by at most one in the
      node's direction and within its bounds, or fails and drops it. */
  lemma RetryKeepsOrDrops(e: Expr, s: State, c: Ctx, fuel: nat)
    ensures Retry(e, s, c, fuel).Ok? ==> KeepsOrDrops(e, s, Retry(e, s, c, fuel).value)
  {
    if IsLeaf(e) {
      LeafKeepsOrDrops(e, s, c);
    } else if fuel > 0 && s.attempts != [] {
      CompositeKeepsOrDrops(e, s, c, fuel - 1);
    }
  }

  predicate KeepsOrDrops(e: Expr, s: State, o: Out) {
    && s.attempts != [] && |o.state.children| == |s.children|
    && (o.ok ==> SameBelow(o.state, s) && RetryCount(e, |Top(s)|, |Top(o.state)|))
    && (!o.ok ==> o.state.attempts == Lower(s))
  }

  lemma LeafKeepsOrDrops(e: Expr, s: State, c: Ctx)
    requires IsLeaf(e)
    ensures LeafRetry(e, s, c).Ok? ==> KeepsOrDrops(e, s, LeafRetry(e, s, c).value)
  {
    if s.attempts != [] {
      var body := LeafRetryBody(e, s, c);
      if body.Ok? && !body.value.ok {
        UndoDrops(e, body.value.state, body.value.ctx, |Top(s)| > 0);
      }
    }
  }

  lemma CompositeKeepsOrDrops(e: Expr, s: State, c: Ctx, fuel: nat)
    requires !IsLeaf(e) && s.attempts != []
    ensures CompositeRetryBody(e, s, c, fuel).Ok? ==>
      WrapRetry(e, |Top(s)|, CompositeRetryBody(e, s, c, fuel).value).Ok? ==>
      KeepsOrDrops(e, s, WrapRetry(e, |Top(s)|, CompositeRetryBody(e, s, c, fuel).value).value)
  {
    RetryBodyCounts(e, s, c, fuel);
    var body := CompositeRetryBody(e, s, c, fuel);
    if body.Ok? && !body.value.ok {
      UndoDrops(e, body.value.state, body.value.ctx, |Top(s)| > 0);
    }
  }

  /** A top-level match leaves exactly one attempt on the root. */
  lemma RunLeavesOneAttempt(root: Expr, subject: string, fuel: nat)
    ensures Run(root, subject, fuel).Ok? && Run(root, subject, fuel).value.ok ==>
      |Run(root, subject, fuel).value.state.attempts| == 1
    ensures Run(root, subject, fuel).Ok? && !Run(root, subject, fuel).value.ok ==>
      Run(root, subject, fuel).value.state.attempts == []
  {
    MatchesPushesAttempt(root, Fresh(root), Ctx(subject, 0, map[]), fuel);
  }
}
