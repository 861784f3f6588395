/** A leaf `Expression` of cre/expression.py as the object it is: its `_matches` stack of
  * attempts is updated in place by `matches`, `retry` and `undo`, which also move the cursor of
  * the `EvaluationContext` and update its capture table. Each method is proved to do what the
  * value-level engine describes, so everything proved about `LeafMatches`, `LeafRetry` and
  * `Undo` holds for the object.
  */
module LeafNode {
  import opened Base
  import opened Captures
  import opened Engine

  /** The context as a value. */
  function Context(ctx: EvaluationContext): Ctx
    reads ctx
  {
    Ctx(ctx.subject, ctx.progress, ctx.matches)
  }

  class LeafExpression {
    const kind: Kind
    const min: nat
    const max: Limit
    const greedy: bool
    const names: Option<seq<Id>>
    var attempts: seq<seq<Rep>>

    /** `Expression.__init__` of a character, range or back-reference node. */
    constructor (kind: Kind, min: nat, max: Limit, greedy: bool, names: Option<seq<Id>>)
      requires !kind.Group? && !kind.AnyOfOptions?
      ensures this.kind == kind && this.min == min && this.max == max
      ensures this.greedy == greedy && this.names == names && attempts == []
    {
      this.kind := kind;
      this.min := min;
      this.max := max;
      this.greedy := greedy;
      this.names := names;
      attempts := [];
    }

    /** The node as a value of the engine. */
    function Spec(): Expr {
      Expr(kind, min, max, greedy, names)
    }

    /** The node's attempt stack as a state of the engine. */
    function Mirror(): State
      reads this
    {
      State(attempts, [])
    }

    /** `matches` with `synchronize_context`: push an attempt, step while the cursor is inside
        the subject and the count is below the limit, then publish on success or rewind and drop
        the attempt on failure. */
    method Matches(ctx: EvaluationContext) returns (ok: bool, err: Option<EngineError>)
      requires IsLeaf(Spec())
      modifies this, ctx
      ensures var r := LeafMatches(Spec(), old(Mirror()), old(Context(ctx)));
        && (err.None? <==> r.Ok?)
        && (r.Ok? ==> ok == r.value.ok && Mirror() == r.value.state && Context(ctx) == r.value.ctx)
    {
      ghost var s0 := Mirror();
      ghost var c0 := Context(ctx);
      var limit := if greedy then max else Finite(min);
      attempts := attempts + [[]];
      err := Repeat(ctx, limit);
      ghost var collected := Collect(kind, c0, [], limit);
      if err.Some? {
        assert collected.Raise?;
        return false, err;
      }
      var top := attempts[|attempts| - 1];
      assert top == collected.value.0 && Context(ctx) == collected.value.1;
      assert Mirror() == SetTop(PushAttempt(s0), top);
      ghost var body := Out(min <= |top|, Mirror(), Context(ctx));
      assert LeafMatches(Spec(), s0, c0) == Ok(WrapMatches(Spec(), body));
      if min <= |top| {
        if names.Some? && top != [] {
          ctx.PushMatch(names.value, Bounds(top[|top| - 1]));
        }
        return true, None;
      }
      if top != [] {
        ctx.progress := top[0].start;
      }
      attempts := attempts[..|attempts| - 1];
      return false, None;
    }

    /** The loop of `matches`: add repetitions to the current attempt while the cursor is inside
        the subject and the count is below `limit`, moving the cursor to the end of each. */
    method Repeat(ctx: EvaluationContext, limit: Limit) returns (err: Option<EngineError>)
      requires attempts != []
      modifies this, ctx
      ensures var r := Collect(kind, old(Context(ctx)), old(attempts[|attempts| - 1]), limit);
        && (err.None? <==> r.Ok?)
        && (r.Ok? ==>
          && attempts == old(attempts[..|attempts| - 1]) + [r.value.0]
          && Context(ctx) == r.value.1)
    {
      ghost var c0 := Context(ctx);
      ghost var below := attempts[..|attempts| - 1];
      ghost var w := Width(kind, c0);
      while ctx.progress < |ctx.subject| && Below(|attempts[|attempts| - 1]|, limit)
        invariant attempts != [] && attempts[..|attempts| - 1] == below
        invariant ctx.matches == c0.table && ctx.subject == c0.subject && Width(kind, Context(ctx)) == w
        invariant Collect(kind, Context(ctx), attempts[|attempts| - 1], limit) == Collect(kind, c0, old(attempts[|attempts| - 1]), limit)
        decreases if w > 0 then (if ctx.progress <= |ctx.subject| then |ctx.subject| - ctx.progress else 0)
                  else if limit.Finite? && |attempts[|attempts| - 1]| <= limit.n then limit.n - |attempts[|attempts| - 1]|
                  else 0
      {
        if limit.Infinite? && Width(kind, Context(ctx)) == 0 {
          return Some(Diverges);
        }
        var m := LeafStep(kind, Context(ctx));
        if m.Raise? {
          return Some(m.error);
        }
        if m.value.None? {
          break;
        }
        var sp := m.value.value;
        attempts := attempts[..|attempts| - 1] + [attempts[|attempts| - 1] + [Rep(sp.start, sp.end, None)]];
        ctx.progress := sp.end;
      }
      return None;
    }

    /** `retry` with `synchronize_context`: shrink (greedy) or grow (non-greedy) the attempt by
        one repetition and move the capture with it, or undo the attempt. */
    method Retry(ctx: EvaluationContext) returns (ok: bool, err: Option<EngineError>)
      requires IsLeaf(Spec())
      modifies this, ctx
      ensures var r := LeafRetry(Spec(), old(Mirror()), old(Context(ctx)));
        && (err.None? <==> r.Ok?)
        && (r.Ok? ==> ok == r.value.ok && Mirror() == r.value.state && Context(ctx) == r.value.ctx)
    {
      if attempts == [] {
        return false, Some(EmptyAttemptStack);
      }
      var top := attempts[|attempts| - 1];
      var bound := if greedy then Finite(min) else max;
      if Reaches(|top|, bound) {
        err := UndoWith(ctx, |top| > 0);
        return false, err;
      }
      if greedy {
        if top == [] {
          return false, Some(EmptyAttemptStack);
        }
        ctx.progress := top[|top| - 1].start;
        attempts := attempts[..|attempts| - 1] + [top[..|top| - 1]];
      } else {
        var m := LeafStep(kind, Context(ctx));
        if m.Raise? {
          return false, Some(m.error);
        }
        if m.value.None? {
          err := UndoWith(ctx, |top| > 0);
          return false, err;
        }
        var sp := m.value.value;
        attempts := attempts[..|attempts| - 1] + [top + [Rep(sp.start, sp.end, None)]];
        ctx.progress := sp.end;
      }
      err := Republish(ctx, |top|);
      return true, err;
    }

    /** The capture bookkeeping after a successful `retry` that began with `before`
        repetitions: push, overwrite or pop, so that the node stays published exactly while it
        has a repetition. */
    method Republish(ctx: EvaluationContext, before: nat) returns (err: Option<EngineError>)
      requires attempts != []
      modifies ctx
      ensures var t := CapturesOnRetry(names, before, Top(Mirror()), old(ctx.matches));
        && (err.None? <==> t.Ok?)
        && (t.Ok? ==> ctx.matches == t.value)
      ensures ctx.progress == old(ctx.progress)
    {
      var top := attempts[|attempts| - 1];
      if names.None? || (before == 0 && top == []) {
        return None;
      }
      if before == 0 {
        ctx.PushMatch(names.value, Bounds(top[|top| - 1]));
        return None;
      }
      if top == [] {
        err := ctx.PopMatch(names.value);
      } else {
        err := ctx.OverrideMatch(names.value, Bounds(top[|top| - 1]));
      }
    }

    /** `undo` of the node at rest: its capture was published iff its attempt has a repetition. */
    method Undo(ctx: EvaluationContext) returns (err: Option<EngineError>)
      requires IsLeaf(Spec())
      modifies this, ctx
      ensures var r := Engine.Undo(Spec(), old(Mirror()), old(Context(ctx)));
        && (err.None? <==> r.Ok?)
        && (r.Ok? ==> Mirror() == r.value.0 && Context(ctx) == r.value.1)
    {
      err := UndoWith(ctx, attempts != [] && attempts[|attempts| - 1] != []);
    }

    /** `undo`: rewind the cursor to the first repetition's start, withdraw the capture if it
        was published, and drop the attempt. */
    method UndoWith(ctx: EvaluationContext, published: bool) returns (err: Option<EngineError>)
      requires IsLeaf(Spec())
      modifies this, ctx
      ensures var r := Engine.UndoWith(Spec(), old(Mirror()), old(Context(ctx)), published);
        && (err.None? <==> r.Ok?)
        && (r.Ok? ==> Mirror() == r.value.0 && Context(ctx) == r.value.1)
    {
      if attempts == [] {
        return Some(EmptyAttemptStack);
      }
      var top := attempts[|attempts| - 1];
      if top != [] {
        ctx.progress := top[0].start;
      }
      if names.Some? && published {
        err := ctx.PopMatch(names.value);
        if err.Some? {
          return err;
        }
      } else {
        err := None;
      }
      attempts := attempts[..|attempts| - 1];
    }
  }
}
