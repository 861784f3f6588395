/** What a caller of the engine of cre/expression.py can rely on, stated without the traces the
  * proofs carry: after a successful `matches` a node is at rest; `retry` either finds another
  * match and leaves it at rest or gives back exactly the state and context `matches` began from;
  * `undo` always gives them back. The capture table is part of the context, so a failed search
  * also leaves every capture stack as it was.
  */
module Guarantees {
  import opened Base
  import opened Captures
  import opened Engine
  import opened Restoration

  /** Node `e` was matched from state `s0` in context `c0` and is now in state `s` in context
      `c`: it is at rest, and the table differs from the one `matches` began with only by the
      spans `e`'s subtree has published since. */
  ghost predicate AtRest(e: Expr, s0: State, c0: Ctx, s: State, c: Ctx, w: Trace, g: Table) {
    && Unique(e) && WellFormed(c0.table) && TableInv(e, s0, c0.table, g)
    && Rest(e, s0, c0.progress, s, c.progress, w)
    && c.subject == c0.subject && WellFormed(c.table) && TableInv(e, s, c.table, g)
    && Untouched(e, c0.table, c.table)
  }

  /** A context that agrees with `c0` on subject and cursor and whose table `e` restored is `c0`. */
  lemma CtxRestored(e: Expr, s0: State, c0: Ctx, c: Ctx, g: Table)
    requires WellFormed(c0.table) && TableInv(e, s0, c0.table, g)
    requires WellFormed(c.table) && TableInv(e, s0, c.table, g) && Untouched(e, c0.table, c.table)
    requires c.subject == c0.subject && c.progress == c0.progress
    ensures c == c0
  {
    NodeRestored(e, s0, c0.table, c.table, g);
  }

  /** `matches` either leaves the node at rest or changes nothing at all. */
  lemma MatchesAtRest(e: Expr, s: State, c: Ctx, g: Table, f: nat) returns (w: Trace)
    requires Unique(e) && WellFormed(c.table) && TableInv(e, s, c.table, g)
    ensures Matches(e, s, c, f).Ok? ==> var o := Matches(e, s, c, f).value;
      if o.ok then AtRest(e, s, c, o.state, o.ctx, w, g) else o == Out(false, s, c)
  {
    w := MatchesRestores(e, s, c, g, f);
  }

  /** `retry` of a node at rest either leaves it at rest again or gives back exactly the state and
      context its `matches` began from. */
  lemma RetryAtRest(e: Expr, s0: State, c0: Ctx, s: State, c: Ctx, w: Trace, g: Table, f: nat) returns (w': Trace)
    requires AtRest(e, s0, c0, s, c, w, g)
    ensures Retry(e, s, c, f).Ok? ==> var o := Retry(e, s, c, f).value;
      if o.ok then AtRest(e, s0, c0, o.state, o.ctx, w', g) else o == Out(false, s0, c0)
  {
    w' := RetryRestores(e, s0, c0.progress, s, c, w, g, f);
    if Retry(e, s, c, f).Ok? {
      var o := Retry(e, s, c, f).value;
      if !o.ok {
        CtxRestored(e, s0, c0, o.ctx, g);
      }
    }
  }

  /** `undo` of a node at rest gives back exactly the state and context its `matches` began from. */
  lemma UndoAtRest(e: Expr, s0: State, c0: Ctx, s: State, c: Ctx, w: Trace, g: Table)
    requires AtRest(e, s0, c0, s, c, w, g)
    ensures Undo(e, s, c) == Ok((s0, c0))
  {
    UndoRestores(e, s0, c0.progress, s, c, w, g);
    CtxRestored(e, s0, c0, Undo(e, s, c).value.1, g);
  }

  /** `undo` right after a successful `matches` returns to where `matches` began. */
  lemma MatchesThenUndo(e: Expr, s: State, c: Ctx, g: Table, f: nat)
    requires Unique(e) && WellFormed(c.table) && TableInv(e, s, c.table, g)
    requires Matches(e, s, c, f).Ok? && Matches(e, s, c, f).value.ok
    ensures var o := Matches(e, s, c, f).value; Undo(e, o.state, o.ctx) == Ok((s, c))
  {
    var w := MatchesAtRest(e, s, c, g, f);
    var o := Matches(e, s, c, f).value;
    UndoAtRest(e, s, c, o.state, o.ctx, w, g);
  }

  /** A `retry` that fails right after a successful `matches` returns to where `matches` began. */
  lemma MatchesThenRetryFails(e: Expr, s: State, c: Ctx, g: Table, f: nat, f': nat)
    requires Unique(e) && WellFormed(c.table) && TableInv(e, s, c.table, g)
    requires Matches(e, s, c, f).Ok? && Matches(e, s, c, f).value.ok
    ensures var o := Matches(e, s, c, f).value;
      Retry(e, o.state, o.ctx, f').Ok? && !Retry(e, o.state, o.ctx, f').value.ok ==>
        Retry(e, o.state, o.ctx, f').value == Out(false, s, c)
  {
    var w := MatchesAtRest(e, s, c, g, f);
    var o := Matches(e, s, c, f).value;
    var _ := RetryAtRest(e, s, c, o.state, o.ctx, w, g, f');
  }

  /** A tree that was never matched has published nothing. */
  lemma {:induction false} FreshConsistent(e: Expr, t: Table)
    ensures TableInv(e, Fresh(e), t, t)
    decreases e
  {
    var s := Fresh(e);
    forall j | 0 <= j < |Children(e)| ensures TableInv(Children(e)[j], s.children[j], t, t) {
      FreshConsistent(Children(e)[j], t);
    }
  }

  /** A top-level match that fails leaves the tree fresh and the context as it began: cursor 0 and
      an empty capture table; one that succeeds leaves the root at rest over the empty table. */
  lemma RunAtRest(root: Expr, subject: string, f: nat) returns (w: Trace)
    requires Unique(root)
    ensures Engine.Run(root, subject, f).Ok? ==> var o := Engine.Run(root, subject, f).value;
      if o.ok then AtRest(root, Fresh(root), Ctx(subject, 0, map[]), o.state, o.ctx, w, map[])
      else o == Out(false, Fresh(root), Ctx(subject, 0, map[]))
  {
    FreshConsistent(root, map[]);
    w := MatchesAtRest(root, Fresh(root), Ctx(subject, 0, map[]), map[], f);
  }
}
