/** The backtracking engine of cre/expression.py, on values.
  *
  * The expression tree is an immutable `Expr`. The attempt stacks that the Python nodes keep in
  * their `_matches` fields form a `State` tree of the same shape, and the `EvaluationContext` is a
  * `Ctx`. Every operation takes the tree, its state and the context and returns the new state and
  * context, or the exception the Python code would raise. The backtracking search of the composite
  * nodes may not terminate, so it takes a step budget (`fuel`) and raises `OutOfFuel` when spent.
  */
module Engine {
  import opened Base
  import opened Captures

  datatype Kind =
    | Character(c: char)                 // CharacterExpression
    | CharacterRange(lo: char, hi: char) // CharacterRangeExpression
    | BackReference(ref: Id)             // BackReferenceExpression
    | Group(children: seq<Expr>)         // GroupExpression
    | AnyOfOptions(children: seq<Expr>)  // AnyOfOptionsExpression

  /** A node with its repetition bounds, greediness and capture names (`_names`). */
  datatype Expr = Expr(kind: Kind, min: nat, max: Limit, greedy: bool, names: Option<seq<Id>>)

  /** One repetition: its span and, for an alternation, the index of the child that matched. */
  datatype Rep = Rep(start: nat, end: nat, choice: Option<nat>)

  /** The `_matches` attempt stack of a node, and the states of its children in order. */
  datatype State = State(attempts: seq<seq<Rep>>, children: seq<State>)

  /** The evaluation context: subject, cursor (`progress`) and capture table. */
  datatype Ctx = Ctx(subject: string, progress: nat, table: Table)

  /** The answer of `matches`/`retry` together with the new state and context. */
  datatype Out = Out(ok: bool, state: State, ctx: Ctx)

  /** The answer of a single `_matches_once` step together with the new state and context. */
  datatype Step = Step(rep: Option<Rep>, state: State, ctx: Ctx)

  // ---------------------------------------------------------------------------
  // Accessors

  predicate IsLeaf(e: Expr) {
    !e.kind.Group? && !e.kind.AnyOfOptions?
  }

  function Children(e: Expr): seq<Expr> {
    if IsLeaf(e) then [] else e.kind.children
  }

  /** The repetition count `matches` stops at: `max` when greedy, `min` otherwise. */
  function InitialLimit(e: Expr): Limit {
    if e.greedy then e.max else Finite(e.min)
  }

  /** The repetition count at which `retry` gives up: `min` when greedy, `max` otherwise. */
  function RetryBound(e: Expr): Limit {
    if e.greedy then Finite(e.min) else e.max
  }

  /** `_current_match`: the attempt on top of the stack (empty when there is none). */
  function Top(s: State): seq<Rep> {
    if s.attempts == [] then [] else s.attempts[|s.attempts| - 1]
  }

  function SetTop(s: State, top: seq<Rep>): State {
    if s.attempts == [] then s else s.(attempts := s.attempts[..|s.attempts| - 1] + [top])
  }

  function PushAttempt(s: State): State {
    s.(attempts := s.attempts + [[]])
  }

  function PopAttempt(s: State): State {
    if s.attempts == [] then s else s.(attempts := s.attempts[..|s.attempts| - 1])
  }

  function AppendRep(s: State, r: Rep): State {
    SetTop(s, Top(s) + [r])
  }

  /** `has_current_repetition` */
  predicate HasCurrentRepetition(s: State) {
    s.attempts != [] && Top(s) != []
  }

  function LastRep(s: State): Rep
    requires HasCurrentRepetition(s)
  {
    Top(s)[|Top(s)| - 1]
  }

  function ChildState(s: State, i: nat): State {
    if i < |s.children| then s.children[i] else State([], [])
  }

  function WithChild(s: State, i: nat, child: State): State {
    if i < |s.children| then s.(children := s.children[i := child]) else s
  }

  /** `__copykeys(rep, ("start", "end"))`: what is published in the capture table. */
  function Bounds(r: Rep): Span {
    Span(r.start, r.end)
  }

  /** The state of a tree that has never been matched. */
  function Fresh(e: Expr): (s: State)
    ensures |s.children| == |Children(e)| && s.attempts == []
    decreases e
  {
    State([], seq(|Children(e)|, i requires 0 <= i < |Children(e)| => Fresh(Children(e)[i])))
  }

  // ---------------------------------------------------------------------------
  // Publishing captures (synchronize_context and undo)

  /** After a successful `matches`: push the last repetition under every name, if there is one. */
  function CapturesOnMatch(names: Option<seq<Id>>, top: seq<Rep>, t: Table): Table {
    if names.Some? && top != [] then PushAll(t, names.value, Bounds(top[|top| - 1])) else t
  }

  /** After a successful `retry` that began with `before` repetitions: a node is published exactly
      while it has a repetition, so the capture is pushed, overwritten or popped accordingly. */
  function CapturesOnRetry(names: Option<seq<Id>>, before: nat, top: seq<Rep>, t: Table)
    : Result<Table, EngineError>
  {
    if names.None? || (before == 0 && top == []) then Ok(t)
    else if before == 0 then Ok(PushAll(t, names.value, Bounds(top[|top| - 1])))
    else if top == [] then PopAll(t, names.value)
    else OverrideAll(t, names.value, Bounds(top[|top| - 1]))
  }

  /** What `wrap_retry` does as written: overwrite the top capture whenever a repetition exists. */
  function CapturesOnRetryAsWritten(names: Option<seq<Id>>, top: seq<Rep>, t: Table)
    : Result<Table, EngineError>
  {
    if names.Some? && top != [] then OverrideAll(t, names.value, Bounds(top[|top| - 1])) else Ok(t)
  }

  /** When an attempt is discarded: pop the capture if the attempt had published one. */
  function CapturesOnUndo(names: Option<seq<Id>>, published: bool, t: Table): Result<Table, EngineError> {
    if names.Some? && published then PopAll(t, names.value) else Ok(t)
  }

  /** What `undo` does as written: pop the capture of every named node. */
  function CapturesOnUndoAsWritten(names: Option<seq<Id>>, t: Table): Result<Table, EngineError> {
    if names.Some? then PopAll(t, names.value) else Ok(t)
  }

  // ---------------------------------------------------------------------------
  // Leaves

  /** How far one step of a leaf reaches: one character, or the length of the referenced text. */
  function Width(k: Kind, c: Ctx): nat {
    if k.BackReference? && MatchString(c.subject, c.table, k.ref).Ok? then
      |MatchString(c.subject, c.table, k.ref).value|
    else 1
  }

  /** `_matches_once` of a leaf: a span starting at the cursor, or none; the cursor is not moved.
      Composite kinds have their own step (`MatchesOnce`) and never come here. */
  function LeafStep(k: Kind, c: Ctx): (r: Result<Option<Span>, EngineError>)
    ensures r.Ok? && r.value.Some? ==>
      && r.value.value == Span(c.progress, c.progress + Width(k, c))
      && (c.progress <= |c.subject| ==> c.progress + Width(k, c) <= |c.subject|)
  {
    match k
    case Character(ch) =>
      if c.progress < |c.subject| then
        Ok(if c.subject[c.progress] == ch then Some(Span(c.progress, c.progress + 1)) else None)
      else Raise(SubjectExhausted)
    case CharacterRange(lo, hi) =>
      if c.progress < |c.subject| then
        Ok(if lo <= c.subject[c.progress] <= hi then Some(Span(c.progress, c.progress + 1)) else None)
      else Raise(SubjectExhausted)
    case BackReference(ref) =>
      var text :- MatchString(c.subject, c.table, ref);
      Ok(if text <= Suffix(c.subject, c.progress) then Some(Span(c.progress, c.progress + |text|)) else None)
    case Group(_) => Ok(None)
    case AnyOfOptions(_) => Ok(None)
  }

  /** The loop of `Expression.matches`: step while the cursor is inside the subject and the count is
      below `limit`, moving the cursor to the end of every span. A zero-width step repeated without
      limit never ends in the source; here it raises `Diverges`. */
  function Collect(k: Kind, c: Ctx, reps: seq<Rep>, limit: Limit): Result<(seq<Rep>, Ctx), EngineError>
    decreases if Width(k, c) > 0 then (if c.progress <= |c.subject| then |c.subject| - c.progress else 0)
              else if limit.Finite? && |reps| <= limit.n then limit.n - |reps| else 0
  {
    if c.progress < |c.subject| && Below(|reps|, limit) then
      if limit.Infinite? && Width(k, c) == 0 then Raise(Diverges)
      else
        var m :- LeafStep(k, c);
        match m
        case None => Ok((reps, c))
        case Some(sp) =>
          Collect(k, c.(progress := sp.end), reps + [Rep(sp.start, sp.end, None)], limit)
    else Ok((reps, c))
  }

  /** `synchronize_context` around a `matches` body that pushed an attempt: publish on success;
      on failure rewind the cursor to the first repetition's start and drop the attempt. */
  function WrapMatches(e: Expr, body: Out): Out {
    var top := Top(body.state);
    if body.ok then
      Out(true, body.state, body.ctx.(table := CapturesOnMatch(e.names, top, body.ctx.table)))
    else
      Out(false, PopAttempt(body.state),
          body.ctx.(progress := if top != [] then top[0].start else body.ctx.progress))
  }

  /** `matches` on a leaf. */
  function LeafMatches(e: Expr, s: State, c: Ctx): Result<Out, EngineError> {
    var collected :- Collect(e.kind, c, [], InitialLimit(e));
    var reps := collected.0;
    Ok(WrapMatches(e, Out(e.min <= |reps|, SetTop(PushAttempt(s), reps), collected.1)))
  }

  /** The body of `Expression.retry`: shrink (greedy) or grow (non-greedy) by one repetition. */
  function LeafRetryBody(e: Expr, s: State, c: Ctx): Result<Out, EngineError> {
    var top := Top(s);
    if Reaches(|top|, RetryBound(e)) then Ok(Out(false, s, c))
    else if e.greedy then
      if top == [] then Raise(EmptyAttemptStack)
      else Ok(Out(true, SetTop(s, top[..|top| - 1]), c.(progress := top[|top| - 1].start)))
    else
      var m :- LeafStep(e.kind, c);
      match m
      case None => Ok(Out(false, s, c))
      case Some(sp) => Ok(Out(true, AppendRep(s, Rep(sp.start, sp.end, None)), c.(progress := sp.end)))
  }

  /** `retry` on a leaf. */
  function LeafRetry(e: Expr, s: State, c: Ctx): Result<Out, EngineError> {
    if s.attempts == [] then Raise(EmptyAttemptStack)
    else
      var body :- LeafRetryBody(e, s, c);
      WrapRetry(e, |Top(s)|, body)
  }

  // ---------------------------------------------------------------------------
  // Undo

  /** `synchronize_context` around a `retry` body: on success publish the new last repetition, on
      failure undo the attempt (whose capture was published iff it began with a repetition). */
  function WrapRetry(e: Expr, before: nat, body: Out): Result<Out, EngineError> {
    if body.ok then
      var t :- CapturesOnRetry(e.names, before, Top(body.state), body.ctx.table);
      Ok(Out(true, body.state, body.ctx.(table := t)))
    else
      var u :- UndoWith(e, body.state, body.ctx, before > 0);
      Ok(Out(false, u.0, u.1))
  }

  /** `undo` of a node at rest: its capture is published iff its attempt has a repetition. */
  function Undo(e: Expr, s: State, c: Ctx): Result<(State, Ctx), EngineError>
    decreases e, 2
  {
    UndoWith(e, s, c, HasCurrentRepetition(s))
  }

  /** `undo`: undo the children the attempt used (a group: all of them once per repetition, last
      child first; an alternation: the matching child of each repetition, last repetition first),
      rewind the cursor to the first repetition's start, pop the capture and pop the attempt. */
  function UndoWith(e: Expr, s: State, c: Ctx, published: bool): Result<(State, Ctx), EngineError>
    decreases e, 1
  {
    if s.attempts == [] then Raise(EmptyAttemptStack)
    else
      var top := Top(s);
      var undone :- match e.kind
        case Group(ch) => UndoRounds(e, s, c, |top|)
        case AnyOfOptions(ch) => UndoChoices(e, s, c, top)
        case _ => Ok((s, c));
      var c1 := undone.1.(progress := if top != [] then top[0].start else undone.1.progress);
      var t :- CapturesOnUndo(e.names, published, c1.table);
      Ok((PopAttempt(undone.0), c1.(table := t)))
  }

  /** `k` rounds of undoing every child of a group, last child first. */
  function UndoRounds(e: Expr, s: State, c: Ctx, k: nat): Result<(State, Ctx), EngineError>
    requires e.kind.Group?
    decreases e, 0, k
  {
    if k == 0 then Ok((s, c))
    else
      var r :- UndoChildren(e, s, c, |e.kind.children|);
      UndoRounds(e, r.0, r.1, k - 1)
  }

  /** Undo children `i - 1` down to `0` once each. */
  function UndoChildren(e: Expr, s: State, c: Ctx, i: nat): Result<(State, Ctx), EngineError>
    requires e.kind.Group? && i <= |e.kind.children|
    decreases e, 0, 0, i
  {
    if i == 0 then Ok((s, c))
    else
      var r :- Undo(e.kind.children[i - 1], ChildState(s, i - 1), c);
      UndoChildren(e, WithChild(s, i - 1, r.0), r.1, i - 1)
  }

  /** Undo the matching child of each repetition in `reps`, last repetition first. */
  function UndoChoices(e: Expr, s: State, c: Ctx, reps: seq<Rep>): Result<(State, Ctx), EngineError>
    requires e.kind.AnyOfOptions?
    decreases e, 0, |reps|
  {
    if reps == [] then Ok((s, c))
    else
      var choice := reps[|reps| - 1].choice;
      if choice.None? || choice.value >= |e.kind.children| then Raise(AlternationBacktrack)
      else
        var r :- Undo(e.kind.children[choice.value], ChildState(s, choice.value), c);
        UndoChoices(e, WithChild(s, choice.value, r.0), r.1, reps[..|reps| - 1])
  }

  // ---------------------------------------------------------------------------
  // matches and retry

  /** `matches`: start a new attempt. */
  function Matches(e: Expr, s: State, c: Ctx, fuel: nat): Result<Out, EngineError>
    decreases fuel
  {
    if IsLeaf(e) then LeafMatches(e, s, c)
    else if fuel == 0 then Raise(OutOfFuel)
    else
      var body :- IterLoop(e, PushAttempt(s), c, fuel - 1);
      Ok(WrapMatches(e, body))
  }

  /** `retry`: move the latest attempt to the next repetition count. */
  function Retry(e: Expr, s: State, c: Ctx, fuel: nat): Result<Out, EngineError>
    decreases fuel
  {
    if IsLeaf(e) then LeafRetry(e, s, c)
    else if fuel == 0 then Raise(OutOfFuel)
    else if s.attempts == [] then Raise(EmptyAttemptStack)
    else
      var body :- CompositeRetryBody(e, s, c, fuel - 1);
      WrapRetry(e, |Top(s)|, body)
  }

  /** The loop of `AbstractIteratorExpression.matches`: fill the attempt, then, while it holds
      fewer than `min` repetitions, reevaluate the previous repetition and fill again. */
  function IterLoop(e: Expr, s: State, c: Ctx, fuel: nat): Result<Out, EngineError>
    decreases fuel
  {
    if fuel == 0 then Raise(OutOfFuel)
    else
      var f :- IterFill(e, s, c, fuel - 1);
      if e.min <= |Top(f.state)| then Ok(Out(true, f.state, f.ctx))
      else
        var r :- Reevaluate(e, f.state, f.ctx, fuel - 1);
        if !r.ok then Ok(Out(false, r.state, r.ctx))
        else IterLoop(e, r.state, r.ctx, fuel - 1)
  }

  /** Append `_matches_once` results while the count is below the initial limit. */
  function IterFill(e: Expr, s: State, c: Ctx, fuel: nat): Result<Out, EngineError>
    decreases fuel
  {
    if fuel == 0 then Raise(OutOfFuel)
    else if !Below(|Top(s)|, InitialLimit(e)) then Ok(Out(true, s, c))
    else
      var m :- MatchesOnce(e, s, c, fuel - 1);
      match m.rep
      case None => Ok(Out(true, m.state, m.ctx))
      case Some(r) => IterFill(e, AppendRep(m.state, r), m.ctx, fuel - 1)
  }

  /** `_matches_once` of a composite. */
  function MatchesOnce(e: Expr, s: State, c: Ctx, fuel: nat): Result<Step, EngineError>
    decreases fuel
  {
    if fuel == 0 then Raise(OutOfFuel)
    else
      match e.kind
      case Group(ch) =>
        var r :- MatchOne(ch, s, 0, c, fuel - 1);
        if r.ok then Ok(Step(Some(Rep(c.progress, LastEnd(r.state.children, c.progress), None)), r.state, r.ctx))
        else Ok(Step(None, r.state, r.ctx))
      case AnyOfOptions(ch) => TryOptions(ch, s, 0, c, c.progress, fuel - 1)
      case _ => Ok(Step(None, s, c))
  }

  /** The end of a group repetition: the end of the last child that has a repetition. */
  function LastEnd(children: seq<State>, default: nat): nat {
    if children == [] then default
    else if HasCurrentRepetition(children[|children| - 1]) then LastRep(children[|children| - 1]).end
    else LastEnd(children[..|children| - 1], default)
  }

  /** `AnyOfOptionsExpression._matches_once`: the first child, from `i` on, whose `matches` succeeds. */
  function TryOptions(ch: seq<Expr>, s: State, i: nat, c: Ctx, start: nat, fuel: nat): Result<Step, EngineError>
    decreases fuel
  {
    if fuel == 0 then Raise(OutOfFuel)
    else if i >= |ch| then Ok(Step(None, s, c))
    else
      var o :- Matches(ch[i], ChildState(s, i), c, fuel - 1);
      var s1 := WithChild(s, i, o.state);
      if o.ok then Ok(Step(Some(Rep(start, o.ctx.progress, Some(i))), s1, o.ctx))
      else TryOptions(ch, s1, i + 1, o.ctx, start, fuel - 1)
  }

  /** `__match_one_child(i)`: match child `i`, then the rest; retry child `i` while the rest fail. */
  function MatchOne(ch: seq<Expr>, s: State, i: nat, c: Ctx, fuel: nat): Result<Out, EngineError>
    decreases fuel
  {
    if fuel == 0 then Raise(OutOfFuel)
    else if i >= |ch| then Ok(Out(true, s, c))
    else
      var o :- Matches(ch[i], ChildState(s, i), c, fuel - 1);
      var s1 := WithChild(s, i, o.state);
      if !o.ok then Ok(Out(false, s1, o.ctx))
      else MatchOneLoop(ch, s1, i, o.ctx, fuel - 1)
  }

  /** `while not __match_one_child(i + 1): if not children[i].retry(): return False` */
  function MatchOneLoop(ch: seq<Expr>, s: State, i: nat, c: Ctx, fuel: nat): Result<Out, EngineError>
    requires i < |ch|
    decreases fuel
  {
    if fuel == 0 then Raise(OutOfFuel)
    else
      var r :- MatchOne(ch, s, i + 1, c, fuel - 1);
      if r.ok then Ok(r)
      else
        var t :- Retry(ch[i], ChildState(r.state, i), r.ctx, fuel - 1);
        var s1 := WithChild(r.state, i, t.state);
        if !t.ok then Ok(Out(false, s1, t.ctx))
        else MatchOneLoop(ch, s1, i, t.ctx, fuel - 1)
  }

  /** `__retry_one_child(i)`: retry child `i`; when it is exhausted, move an earlier child on and
      match child `i` afresh, until one combination works or none is left. */
  function RetryOneChild(ch: seq<Expr>, s: State, i: int, c: Ctx, fuel: nat): Result<Out, EngineError>
    requires i < |ch|
    decreases fuel
  {
    if fuel == 0 then Raise(OutOfFuel)
    else if i < 0 then Ok(Out(false, s, c))
    else
      var t :- Retry(ch[i], ChildState(s, i), c, fuel - 1);
      var s1 := WithChild(s, i, t.state);
      if t.ok then Ok(Out(true, s1, t.ctx))
      else RetryOneLoop(ch, s1, i, t.ctx, fuel - 1)
  }

  /** `while __retry_one_child(i - 1): if children[i].matches(): return True` */
  function RetryOneLoop(ch: seq<Expr>, s: State, i: nat, c: Ctx, fuel: nat): Result<Out, EngineError>
    requires i < |ch|
    decreases fuel
  {
    if fuel == 0 then Raise(OutOfFuel)
    else
      var r :- RetryOneChild(ch, s, i - 1, c, fuel - 1);
      if !r.ok then Ok(r)
      else
        var m :- Matches(ch[i], ChildState(r.state, i), r.ctx, fuel - 1);
        var s1 := WithChild(r.state, i, m.state);
        if m.ok then Ok(Out(true, s1, m.ctx))
        else RetryOneLoop(ch, s1, i, m.ctx, fuel - 1)
  }

  /** The span of a group repetition found by reevaluation: from the earliest start of the
      children's current attempts (or the cursor) to the end of the last child with a repetition. */
  function ReevaluatedRep(children: seq<State>, progress: nat): Rep {
    Rep(EarliestStart(children, progress), LastEnd(children, progress), None)
  }

  function EarliestStart(children: seq<State>, start: nat): nat {
    if children == [] then start
    else
      var rest := EarliestStart(children[..|children| - 1], start);
      var last := children[|children| - 1];
      if HasCurrentRepetition(last) && Top(last)[0].start < rest then Top(last)[0].start else rest
  }

  /** The start as written: the earliest start of the children's LAST repetitions. */
  function EarliestStartAsWritten(children: seq<State>, start: nat): nat {
    if children == [] then start
    else
      var rest := EarliestStartAsWritten(children[..|children| - 1], start);
      var last := children[|children| - 1];
      if HasCurrentRepetition(last) && LastRep(last).start < rest then LastRep(last).start else rest
  }

  /** `_reevaluate_previous_repetition`: find another combination for the last repetition, or,
      failing that, reevaluate the repetition before it and match the last one afresh. */
  function Reevaluate(e: Expr, s: State, c: Ctx, fuel: nat): Result<Out, EngineError>
    decreases fuel
  {
    if fuel == 0 then Raise(OutOfFuel)
    else if Top(s) == [] then Ok(Out(false, s, c))
    else
      match e.kind
      case Group(ch) =>
        var s1 := SetTop(s, Top(s)[..|Top(s)| - 1]);
        var r :- RetryOneChild(ch, s1, |ch| - 1, c, fuel - 1);
        if r.ok then Ok(Out(true, AppendRep(r.state, ReevaluatedRep(r.state.children, r.ctx.progress)), r.ctx))
        else ReevaluateLoop(e, r.state, r.ctx, fuel - 1)
      case AnyOfOptions(_) => Raise(AlternationBacktrack)
      case _ => Ok(Out(false, s, c))
  }

  /** `while self._reevaluate_previous_repetition(): r = self._matches_once(); if r: append` */
  function ReevaluateLoop(e: Expr, s: State, c: Ctx, fuel: nat): Result<Out, EngineError>
    decreases fuel
  {
    if fuel == 0 then Raise(OutOfFuel)
    else
      var r :- Reevaluate(e, s, c, fuel - 1);
      if !r.ok then Ok(r)
      else
        var m :- MatchesOnce(e, r.state, r.ctx, fuel - 1);
        match m.rep
        case Some(x) => Ok(Out(true, AppendRep(m.state, x), m.ctx))
        case None => ReevaluateLoop(e, m.state, m.ctx, fuel - 1)
  }

  /** The body of `AbstractIteratorExpression.retry`: reevaluate the current repetitions; when that
      is exhausted, rebuild with one repetition fewer (greedy) or more (non-greedy). */
  function CompositeRetryBody(e: Expr, s: State, c: Ctx, fuel: nat): Result<Out, EngineError>
    decreases fuel
  {
    if fuel == 0 then Raise(OutOfFuel)
    else
      var init := |Top(s)|;
      if init == 0 && e.greedy then Ok(Out(false, s, c))
      else
        var r :- if init == 0 then Ok(Out(false, s, c)) else Reevaluate(e, s, c, fuel - 1);
        if init > 0 && r.ok then Ok(r)
        else if Reaches(init, RetryBound(e)) then Ok(Out(false, r.state, r.ctx))
        else Rebuild(e, r.state, r.ctx, if e.greedy then init - 1 else init + 1, fuel - 1)
  }

  /** Append `n` fresh `_matches_once` results. A non-greedy rebuild fails on the first step that
      does not match; the greedy rebuild appends the result unchecked in the source, which breaks
      on a missing step, so it raises `NoRepetition` there. */
  function Rebuild(e: Expr, s: State, c: Ctx, n: nat, fuel: nat): Result<Out, EngineError>
    decreases fuel
  {
    if fuel == 0 then Raise(OutOfFuel)
    else if n == 0 then Ok(Out(true, s, c))
    else
      var m :- MatchesOnce(e, s, c, fuel - 1);
      match m.rep
      case None => if e.greedy then Raise(NoRepetition) else Ok(Out(false, m.state, m.ctx))
      case Some(r) => Rebuild(e, AppendRep(m.state, r), m.ctx, n - 1, fuel - 1)
  }

  /** A top-level match: `matches` on the root with a fresh state and a context at cursor 0. */
  function Run(root: Expr, subject: string, fuel: nat): Result<Out, EngineError> {
    Matches(root, Fresh(root), Ctx(subject, 0, map[]), fuel)
  }
}
