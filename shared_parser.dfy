/** What `parse` does on a parser that an earlier call left in an error: `parse` resets
  * `_group_count` but not `_stack` (cre/parser.py:26-29), so a `Parser` object its caller reuses
  * carries the stack of the failed call into the next one. Whatever an earlier call left on the stack stays below the new root
  * state, and no later call can succeed.
  */
module SharedParser {
  import opened Base
  import opened Engine
  import opened Syntax
  import opened Compiler
  import opened CompilerFacts

  /** `s` still holds `leftover` at its bottom, with a root state right above it. */
  predicate Anchored(s: seq<Frame>, leftover: seq<Frame>) {
    |s| > |leftover| && s[..|leftover|] == leftover && s[|leftover|].RootState?
  }

  /** A stack that agrees with an anchored one up to `m` is anchored too, provided the frame at
      the anchor is still a root state when `m` does not reach past it. */
  lemma AnchorKept(s: seq<Frame>, t: seq<Frame>, leftover: seq<Frame>, m: nat)
    requires Anchored(s, leftover)
    requires |leftover| <= m <= |s| && m <= |t| && |t| > |leftover| && t[..m] == s[..m]
    requires m == |leftover| ==> t[|leftover|].RootState?
    ensures Anchored(t, leftover)
  {
    assert t[..|leftover|] == t[..m][..|leftover|];
    assert s[..|leftover|] == s[..m][..|leftover|];
    if m > |leftover| {
      assert t[|leftover|] == t[..m][|leftover|];
      assert s[|leftover|] == s[..m][|leftover|];
    }
  }

  /** Above an anchored root, a state that is not a root lies strictly above the anchor. */
  lemma AboveAnchor(s: seq<Frame>, leftover: seq<Frame>)
    requires Anchored(s, leftover) && !Last(s).RootState?
    ensures |s| - 1 > |leftover|
  {
  }

  lemma DropTop(s: seq<Frame>, t: seq<Frame>, f: Frame)
    requires s != [] && t == CompilerFacts.Below(s) + [f]
    ensures t[..|s| - 1] == s[..|s| - 1]
  {
  }

  lemma DropTwo(s: seq<Frame>, t: seq<Frame>, fs: seq<Frame>)
    requires |s| >= 2 && t == CompilerFacts.Below(CompilerFacts.Below(s)) + fs
    ensures t[..|s| - 2] == s[..|s| - 2]
  {
  }

  lemma KeepAll(s: seq<Frame>, t: seq<Frame>, fs: seq<Frame>)
    requires t == s + fs
    ensures t[..|s|] == s
  {
  }

  /** Appending a child to the state below the top keeps the anchor. */
  lemma AppendBelowKeepsAnchor(s: seq<Frame>, leftover: seq<Frame>, e: Expr, count: nat, j: nat)
    requires Anchored(s, leftover) && !Last(s).RootState?
    requires AppendChild(PState(CompilerFacts.Below(s), count, j), e).error.None?
    ensures Anchored(AppendChild(PState(CompilerFacts.Below(s), count, j), e).st.stack, leftover)
  {
    var below := CompilerFacts.Below(s);
    AboveAnchor(s, leftover);
    AppendShape(PState(below, count, j), e);
    var t := AppendChild(PState(below, count, j), e).st.stack;
    DropTwo(s, t, [Appended(Last(below), e)]);
    SameKind(Last(below), ChildList(Last(below)).value + [e]);
    assert |s| - 2 == |leftover| ==> Last(below) == s[|leftover|];
    AnchorKept(s, t, leftover, |s| - 2);
  }

  lemma UnknownKeepsAnchor(p: string, st: PState, leftover: seq<Frame>)
    requires st.progress < |p| && Anchored(st.stack, leftover) && Last(st.stack).UnknownState?
    requires UnknownStep(p, st).error.None?
    ensures Anchored(UnknownStep(p, st).st.stack, leftover)
  {
    var s := st.stack;
    var t := UnknownStep(p, st).st.stack;
    AboveAnchor(s, leftover);
    UnknownShape(p, st);
    if p[st.progress] == '|' {
      var below := CompilerFacts.Below(s);
      DropTwo(s, t, [Left(Last(below)), Right(Last(below)), UnknownState]);
      SameKind(Last(below), ChildList(Last(below)).value[..|ChildList(Last(below)).value| - 1]);
      assert |s| - 2 == |leftover| ==> Last(below) == s[|leftover|];
      AnchorKept(s, t, leftover, |s| - 2);
    } else {
      DropTop(s, t, Opened(p[st.progress]));
      AnchorKept(s, t, leftover, |s| - 1);
    }
  }

  lemma CharacterKeepsAnchor(p: string, st: PState, leftover: seq<Frame>)
    requires st.progress < |p| && Anchored(st.stack, leftover) && Last(st.stack).CharacterState?
    requires CharacterStep(p, st).error.None?
    ensures Anchored(CharacterStep(p, st).st.stack, leftover)
  {
    CharacterShape(p, st);
    var (q, j) := Quantifier(p, st.progress + 1);
    AppendBelowKeepsAnchor(st.stack, leftover, Expr(Character(p[st.progress]), q.min, q.max, q.greedy, None), st.count, j);
  }

  lemma ConjunctionKeepsAnchor(p: string, st: PState, leftover: seq<Frame>)
    requires st.progress < |p| && Anchored(st.stack, leftover) && Last(st.stack).ConjunctionState?
    requires ConjunctionStep(p, st).error.None?
    ensures Anchored(ConjunctionStep(p, st).st.stack, leftover)
  {
    var s := st.stack;
    var top := Last(s);
    var (names, count, i) := Numbering(p, st.progress, st.count, top);
    DescendShape(p, CompilerFacts.Below(s), top.children, names, count, i);
    if p[i] == ')' {
      AppendBelowKeepsAnchor(s, leftover, Closed(p, top.children, names, i), count, Quantifier(p, i + 1).1);
    } else {
      var t := ConjunctionStep(p, st).st.stack;
      AboveAnchor(s, leftover);
      KeepAll(CompilerFacts.Below(s), t, [ConjunctionState(top.children, false, names), UnknownState]);
      AnchorKept(s, t, leftover, |s| - 1);
    }
  }

  lemma DispatchKeepsAnchor(p: string, st: PState, leftover: seq<Frame>)
    requires st.progress < |p| && Anchored(st.stack, leftover) && Dispatch(p, st).error.None?
    ensures Anchored(Dispatch(p, st).st.stack, leftover)
  {
    var top := Last(st.stack);
    if top.RootState? {
      assert Dispatch(p, st) == RootStep(st);
      KeepAll(st.stack, RootStep(st).st.stack, [UnknownState]);
      AnchorKept(st.stack, RootStep(st).st.stack, leftover, |st.stack|);
    } else if top.UnknownState? {
      assert Dispatch(p, st) == UnknownStep(p, st);
      UnknownKeepsAnchor(p, st, leftover);
    } else if top.CharacterState? {
      assert Dispatch(p, st) == CharacterStep(p, st);
      CharacterKeepsAnchor(p, st, leftover);
    } else if top.ConjunctionState? {
      assert Dispatch(p, st) == ConjunctionStep(p, st);
      ConjunctionKeepsAnchor(p, st, leftover);
    } else {
      assert false;
    }
  }

  /** A pass that raises leaves the leftover and the state above it in place: the stack it
      leaves is still taller than the leftover. */
  lemma DispatchErrorKeepsStack(p: string, st: PState, leftover: seq<Frame>)
    requires st.progress < |p| && Anchored(st.stack, leftover) && Dispatch(p, st).error.Some?
    ensures |Dispatch(p, st).st.stack| > |leftover|
  {
    var top := Last(st.stack);
    if top.UnknownState? {
      assert Dispatch(p, st) == UnknownStep(p, st);
      AboveAnchor(st.stack, leftover);
    } else if top.CharacterState? {
      assert Dispatch(p, st) == CharacterStep(p, st);
      AboveAnchor(st.stack, leftover);
    } else if top.ConjunctionState? {
      assert Dispatch(p, st) == ConjunctionStep(p, st);
      AboveAnchor(st.stack, leftover);
    }
  }

  lemma {:induction false} LoopKeepsAnchor(p: string, st: PState, leftover: seq<Frame>)
    requires st.progress <= |p| && Anchored(st.stack, leftover)
    ensures Loop(p, st).error.None? ==> Anchored(Loop(p, st).st.stack, leftover)
    ensures |Loop(p, st).st.stack| > |leftover|
    decreases |p| - st.progress, Rank(st)
  {
    if st.progress < |p| {
      var n := Dispatch(p, st);
      if n.error.None? {
        DispatchKeepsAnchor(p, st, leftover);
        LoopKeepsAnchor(p, n.st, leftover);
      } else {
        DispatchErrorKeepsStack(p, st, leftover);
      }
    }
  }

  /** As written, a `parse` that raises leaves states on the parser's stack. */
  lemma FailureLeavesStack(p: string)
    ensures !Parse(p).result.Ok? ==> Parse(p).stack != []
  {
    var st := PState([] + [RootState([])], 1, 0);
    assert st.stack[..0] == [];
    LoopKeepsAnchor(p, st, []);
  }

  /** As written, once anything is left on a reused parser's stack, no later `parse` succeeds:
      the leftover stays below the new root state, and at the end more than one state is left. */
  lemma LeftoverBlocksParse(p: string, leftover: seq<Frame>)
    requires leftover != []
    ensures !ParseOnStack(p, leftover).result.Ok?
    ensures ParseOnStack(p, leftover).stack != []
  {
    var st := PState(leftover + [RootState([])], 1, 0);
    assert st.stack[..|leftover|] == leftover;
    LoopKeepsAnchor(p, st, leftover);
  }

  /** So after one failed `parse` of a reused parser, every later one fails too. */
  lemma OneFailureBlocksAll(p: string, q: string)
    requires !Parse(p).result.Ok?
    ensures !ParseOnStack(q, Parse(p).stack).result.Ok?
  {
    FailureLeavesStack(p);
    LeftoverBlocksParse(q, Parse(p).stack);
  }
}
