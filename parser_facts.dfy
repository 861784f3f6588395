/** What `Parser.parse` (cre/parser.py) guarantees about the tree it returns, proved as
  * invariants of its state stack that every pass of its loop keeps.
  */
module CompilerFacts {
  import opened Base
  import opened Engine
  import opened Syntax
  import opened Compiler

  // ---------------------------------------------------------------------------
  // The trees the compiler builds

  /** Group names as `_parse_conjunction` builds them: the group number, then possibly a name. */
  predicate ValidNames(ns: seq<Id>) {
    && (|ns| == 1 || |ns| == 2)
    && ns[0].Index?
    && (|ns| == 2 ==> ns[1].Name? && IsLowerName(ns[1].s))
  }

  /** Only unnamed characters and non-empty, validly named groups. */
  predicate Compiled(e: Expr) {
    match e.kind
    case Character(_) => e.names.None?
    case Group(ch) => ch != [] && e.names.Some? && ValidNames(e.names.value) && AllCompiled(ch)
    case _ => false
  }

  predicate AllCompiled(es: seq<Expr>) {
    forall k :: 0 <= k < |es| ==> Compiled(es[k])
  }

  /** A state that can lie below the top of the stack: it holds children. */
  predicate Holder(f: Frame) {
    f.RootState? || (f.ConjunctionState? && !f.firstTime) || f.DisjunctionState?
  }

  /** A conjunction state has no children and no names until its first call numbers it; every
      child a state holds is a compiled tree. */
  predicate Good(f: Frame) {
    && (f.ConjunctionState? ==> if f.firstTime then f.children == [] && f.names == [] else ValidNames(f.names))
    && (ChildList(f).Some? ==> AllCompiled(ChildList(f).value))
  }

  /** The shape of the stack between two passes of the loop: the root state at the bottom and
      nowhere else, child-holding states below the top, every state good. */
  predicate Shaped(s: seq<Frame>) {
    && |s| >= 1 && s[0].RootState?
    && forall i :: 0 <= i < |s| ==> Good(s[i]) && (i > 0 ==> !s[i].RootState?) && (i < |s| - 1 ==> Holder(s[i]))
  }

  function Last(s: seq<Frame>): Frame
    requires s != []
  {
    s[|s| - 1]
  }

  function Below(s: seq<Frame>): seq<Frame>
    requires s != []
  {
    s[..|s| - 1]
  }

  lemma Split(s: seq<Frame>)
    requires s != []
    ensures s == Below(s) + [Last(s)]
  {
  }

  /** The shape of a stack, read from its top state. */
  lemma ShapedSnoc(below: seq<Frame>, f: Frame)
    ensures Shaped(below + [f]) <==>
      if below == [] then f.RootState? && Good(f)
      else Shaped(below) && Holder(Last(below)) && !f.RootState? && Good(f)
  {
    var s := below + [f];
    assert forall i :: 0 <= i < |below| ==> s[i] == below[i];
    if below != [] {
      if Shaped(s) {
        assert Holder(s[|s| - 2]) && Good(s[|s| - 1]);
        assert Last(below) == s[|s| - 2];
        forall i | 0 <= i < |below|
          ensures Good(below[i]) && (i > 0 ==> !below[i].RootState?) && (i < |below| - 1 ==> Holder(below[i]))
        {
          assert s[i] == below[i];
        }
      }
      if Shaped(below) && Holder(Last(below)) && !f.RootState? && Good(f) {
        forall i | 0 <= i < |s|
          ensures Good(s[i]) && (i > 0 ==> !s[i].RootState?) && (i < |s| - 1 ==> Holder(s[i]))
        {
          if i < |below| {
            assert s[i] == below[i];
          }
        }
      }
    }
  }

  lemma AppendCompiled(es: seq<Expr>, e: Expr)
    requires AllCompiled(es) && Compiled(e)
    ensures AllCompiled(es + [e])
  {
    assert forall k :: 0 <= k < |es| ==> (es + [e])[k] == es[k];
  }

  lemma SplitCompiled(es: seq<Expr>)
    requires AllCompiled(es) && es != []
    ensures AllCompiled(es[..|es| - 1]) && AllCompiled([es[|es| - 1]])
  {
    assert forall k :: 0 <= k < |es| - 1 ==> es[..|es| - 1][k] == es[k];
  }

  // ---------------------------------------------------------------------------
  // How each pass rearranges the stack

  /** The state `_parse_unknown` pushes for a character that is not `|`, `)` or `]`. */
  function Opened(c: char): Frame {
    if c == '\\' then EscapedState
    else if c == '(' then ConjunctionState([], true, [])
    else if c == '[' then CharacterGroupState([])
    else CharacterState
  }

  /** The top state with `e` appended to its children. */
  function Appended(f: Frame, e: Expr): Frame
    requires ChildList(f).Some?
  {
    WithChildList(f, ChildList(f).value + [e])
  }

  lemma AppendShape(st: PState, e: Expr)
    requires AppendChild(st, e).error.None?
    ensures st.stack != [] && ChildList(Last(st.stack)).Some?
    ensures AppendChild(st, e).st == st.(stack := Below(st.stack) + [Appended(Last(st.stack), e)])
  {
  }

  /** The two states `_parse_unknown` leaves at `|` in place of the state `t` below it. */
  function Left(t: Frame): Frame
    requires ChildList(t).Some? && ChildList(t).value != []
  {
    var ch := ChildList(t).value;
    WithChildList(t, ch[..|ch| - 1])
  }

  function Right(t: Frame): Frame
    requires ChildList(t).Some? && ChildList(t).value != []
  {
    var ch := ChildList(t).value;
    DisjunctionState([ch[|ch| - 1]])
  }

  lemma UnknownShape(p: string, st: PState)
    requires st.progress < |p| && st.stack != [] && UnknownStep(p, st).error.None?
    ensures UnknownStep(p, st).st.count == st.count
    ensures UnknownStep(p, st).st.progress == st.progress + (if p[st.progress] == '\\' || p[st.progress] == '(' || p[st.progress] == '[' || p[st.progress] == '|' then 1 else 0)
    ensures p[st.progress] != ')' && p[st.progress] != ']'
    ensures p[st.progress] == '|' ==>
      var below := Below(st.stack);
      && below != [] && ChildList(Last(below)).Some? && ChildList(Last(below)).value != []
      && UnknownStep(p, st).st.stack == Below(below) + [Left(Last(below)), Right(Last(below)), UnknownState]
    ensures p[st.progress] != '|' ==> UnknownStep(p, st).st.stack == Below(st.stack) + [Opened(p[st.progress])]
  {
  }

  lemma CharacterShape(p: string, st: PState)
    requires st.progress < |p| && st.stack != [] && CharacterStep(p, st).error.None?
    ensures
      var (q, j) := Quantifier(p, st.progress + 1);
      var leaf := Expr(Character(p[st.progress]), q.min, q.max, q.greedy, None);
      CharacterStep(p, st) == AppendChild(PState(Below(st.stack), st.count, j), leaf)
  {
  }

  /** The group `_parse_conjunction` closes at `)`, with the quantifier after it. */
  function Closed(p: string, ch: seq<Expr>, names: seq<Id>, i: nat): Expr
    requires i < |p|
  {
    var (q, _) := Quantifier(p, i + 1);
    Expr(Group(ch), q.min, q.max, q.greedy, Some(names))
  }

  lemma DescendShape(p: string, below: seq<Frame>, ch: seq<Expr>, names: seq<Id>, count: nat, i: nat)
    requires CloseOrDescend(p, below, ch, names, count, i).error.None?
    ensures i < |p|
    ensures p[i] == ')' ==>
      && ch != []
      && CloseOrDescend(p, below, ch, names, count, i)
         == AppendChild(PState(below, count, Quantifier(p, i + 1).1), Closed(p, ch, names, i))
    ensures p[i] != ')' ==>
      CloseOrDescend(p, below, ch, names, count, i).st
        == PState(below + [ConjunctionState(ch, false, names)] + [UnknownState], count, i)
  {
  }

  // ---------------------------------------------------------------------------
  // The shape is kept

  /** `self._current_children.append(e)` on a shaped stack whose top holds children. */
  lemma AppendKeepsShape(st: PState, e: Expr)
    requires Shaped(st.stack) && Holder(Last(st.stack)) && Compiled(e)
    ensures AppendChild(st, e).error.None? && Shaped(AppendChild(st, e).st.stack)
  {
    var top := Last(st.stack);
    Split(st.stack);
    ShapedSnoc(Below(st.stack), top);
    AppendShape(st, e);
    AppendCompiled(ChildList(top).value, e);
    ShapedSnoc(Below(st.stack), Appended(top, e));
  }

  /** Every pass of the loop that does not raise keeps the shape. */
  lemma DispatchKeepsShape(p: string, st: PState)
    requires st.progress < |p| && Shaped(st.stack) && Dispatch(p, st).error.None?
    ensures Shaped(Dispatch(p, st).st.stack)
  {
    var top := Last(st.stack);
    Split(st.stack);
    ShapedSnoc(Below(st.stack), top);
    if top.RootState? {
      assert Dispatch(p, st) == RootStep(st);
      ShapedSnoc(st.stack, UnknownState);
    } else if top.UnknownState? {
      assert Dispatch(p, st) == UnknownStep(p, st);
      UnknownKeepsShape(p, st);
    } else if top.CharacterState? {
      assert Dispatch(p, st) == CharacterStep(p, st);
      CharacterShape(p, st);
      var (q, j) := Quantifier(p, st.progress + 1);
      AppendKeepsShape(PState(Below(st.stack), st.count, j), Expr(Character(p[st.progress]), q.min, q.max, q.greedy, None));
    } else if top.ConjunctionState? {
      assert Dispatch(p, st) == ConjunctionStep(p, st);
      ConjunctionKeepsShape(p, st);
    } else {
      assert false;
    }
  }

  lemma UnknownKeepsShape(p: string, st: PState)
    requires st.progress < |p| && |st.stack| >= 2 && Last(st.stack).UnknownState?
    requires Shaped(Below(st.stack)) && Holder(Last(Below(st.stack)))
    requires UnknownStep(p, st).error.None?
    ensures Shaped(UnknownStep(p, st).st.stack)
  {
    var below := Below(st.stack);
    UnknownShape(p, st);
    if p[st.progress] == '|' {
      Split(below);
      ShapedSnoc(Below(below), Last(below));
      BarShape(Below(below), Last(below));
    } else {
      ShapedSnoc(below, Opened(p[st.progress]));
    }
  }

  /** `_parse_unknown` at `|` keeps the shape. */
  lemma BarShape(bb: seq<Frame>, t: Frame)
    requires (bb == [] && t.RootState?) || (bb != [] && Shaped(bb) && Holder(Last(bb)) && !t.RootState?)
    requires Holder(t) && Good(t) && ChildList(t).value != []
    ensures Shaped(bb + [Left(t), Right(t), UnknownState])
  {
    SplitCompiled(ChildList(t).value);
    ShapedSnoc(bb, Left(t));
    ShapedSnoc(bb + [Left(t)], Right(t));
    ShapedSnoc(bb + [Left(t)] + [Right(t)], UnknownState);
    assert bb + [Left(t), Right(t), UnknownState] == bb + [Left(t)] + [Right(t)] + [UnknownState];
  }

  lemma ConjunctionKeepsShape(p: string, st: PState)
    requires st.progress < |p| && |st.stack| >= 2 && Last(st.stack).ConjunctionState? && Good(Last(st.stack))
    requires Shaped(Below(st.stack)) && Holder(Last(Below(st.stack)))
    requires ConjunctionStep(p, st).error.None?
    ensures Shaped(ConjunctionStep(p, st).st.stack)
  {
    var top := Last(st.stack);
    var (names, count, i) := Numbering(p, st.progress, st.count, top);
    if top.firstTime && NamePrefix(p, st.progress).Some? {
      NamePrefixConsumes(p, st.progress);
    }
    assert ValidNames(names);
    DescendKeepsShape(p, Below(st.stack), top.children, names, count, i);
  }

  lemma DescendKeepsShape(p: string, below: seq<Frame>, ch: seq<Expr>, names: seq<Id>, count: nat, i: nat)
    requires below != [] && Shaped(below) && Holder(Last(below))
    requires AllCompiled(ch) && ValidNames(names)
    requires CloseOrDescend(p, below, ch, names, count, i).error.None?
    ensures Shaped(CloseOrDescend(p, below, ch, names, count, i).st.stack)
  {
    DescendShape(p, below, ch, names, count, i);
    if p[i] == ')' {
      AppendKeepsShape(PState(below, count, Quantifier(p, i + 1).1), Closed(p, ch, names, i));
    } else {
      var entered := ConjunctionState(ch, false, names);
      ShapedSnoc(below, entered);
      ShapedSnoc(below + [entered], UnknownState);
    }
  }

  // ---------------------------------------------------------------------------
  // Group numbers

  /** The number a group's names start with, if any. */
  function Own(ns: seq<Id>): seq<nat> {
    if ns != [] && ns[0].Index? then [ns[0].n] else []
  }

  /** The group numbers of a tree in preorder: a group's own number, then its children's. */
  function ExprIds(e: Expr): seq<nat>
    decreases e, 1
  {
    (if e.names.Some? then Own(e.names.value) else []) +
    match e.kind
    case Group(ch) => TreeIds(ch)
    case AnyOfOptions(ch) => TreeIds(ch)
    case _ => []
  }

  function TreeIds(es: seq<Expr>): seq<nat>
    decreases es, 0
  {
    if es == [] then [] else TreeIds(es[..|es| - 1]) + ExprIds(es[|es| - 1])
  }

  /** The numbers a state holds: its own, once entered, then its children's. */
  function FrameIds(f: Frame): seq<nat> {
    (if f.ConjunctionState? && !f.firstTime then Own(f.names) else []) +
    (if ChildList(f).Some? then TreeIds(ChildList(f).value) else [])
  }

  /** The numbers held by the whole stack, bottom to top. */
  function Ids(s: seq<Frame>): seq<nat> {
    if s == [] then [] else Ids(s[..|s| - 1]) + FrameIds(s[|s| - 1])
  }

  /** `a, a + 1, ..., b - 1`. */
  function Range(a: nat, b: nat): seq<nat>
    decreases b
  {
    if b <= a then [] else Range(a, b - 1) + [b - 1]
  }

  lemma {:induction false} RangeFirst(n: nat)
    requires n >= 1
    ensures Range(0, n) == [0] + Range(1, n)
  {
    if n > 1 {
      RangeFirst(n - 1);
    }
  }

  lemma IdsSnoc(below: seq<Frame>, f: Frame)
    ensures Ids(below + [f]) == Ids(below) + FrameIds(f)
  {
    assert (below + [f])[..|below|] == below;
  }

  lemma TreeSnoc(es: seq<Expr>, e: Expr)
    ensures TreeIds(es + [e]) == TreeIds(es) + ExprIds(e)
  {
    assert (es + [e])[..|es|] == es;
  }

  lemma FrameAppend(f: Frame, e: Expr)
    requires ChildList(f).Some?
    ensures FrameIds(Appended(f, e)) == FrameIds(f) + ExprIds(e)
  {
    var ch := ChildList(f).value;
    var g := Appended(f, e);
    assert ChildList(g) == Some(ch + [e]);
    assert g.ConjunctionState? == f.ConjunctionState?;
    if f.ConjunctionState? {
      assert g.firstTime == f.firstTime && g.names == f.names;
    }
    TreeSnoc(ch, e);
  }

  lemma AppendedIds(below: seq<Frame>, top: Frame, e: Expr)
    requires ChildList(top).Some?
    ensures Ids(below + [Appended(top, e)]) == Ids(below + [top]) + ExprIds(e)
  {
    var g := Appended(top, e);
    IdsSnoc(below, top);
    IdsSnoc(below, g);
    FrameAppend(top, e);
    SeqAssoc(Ids(below), FrameIds(top), ExprIds(e));
  }

  lemma SeqAssoc(a: seq<nat>, b: seq<nat>, c: seq<nat>)
    ensures a + (b + c) == a + b + c
  {
  }

  /** Appending a child adds the child's numbers at the top of the stack. */
  lemma AppendKeepsIds(st: PState, e: Expr)
    requires AppendChild(st, e).error.None?
    ensures Ids(AppendChild(st, e).st.stack) == Ids(st.stack) + ExprIds(e)
    ensures AppendChild(st, e).st.count == st.count
  {
    AppendShape(st, e);
    Split(st.stack);
    AppendedIds(Below(st.stack), Last(st.stack), e);
  }

  /** `_parse_unknown` at `|` keeps the numbers in order. */
  lemma BarIds(bb: seq<Frame>, t: Frame)
    requires ChildList(t).Some? && ChildList(t).value != []
    ensures Ids(bb + [Left(t), Right(t), UnknownState]) == Ids(bb + [t] + [UnknownState])
  {
    ThreeIds(bb, Left(t), Right(t));
    SplitFrameIds(t);
    SeqAssoc(Ids(bb), FrameIds(Left(t)), FrameIds(Right(t)));
    TopUnknownIds(bb, t);
  }

  lemma TopUnknownIds(bb: seq<Frame>, t: Frame)
    ensures Ids(bb + [t] + [UnknownState]) == Ids(bb) + FrameIds(t)
  {
    IdsSnoc(bb, t);
    IdsSnoc(bb + [t], UnknownState);
  }

  lemma ThreeIds(bb: seq<Frame>, left: Frame, d: Frame)
    ensures Ids(bb + [left, d, UnknownState]) == Ids(bb) + FrameIds(left) + FrameIds(d)
  {
    assert bb + [left, d, UnknownState] == bb + [left] + [d] + [UnknownState];
    IdsSnoc(bb + [left] + [d], UnknownState);
    IdsSnoc(bb + [left], d);
    IdsSnoc(bb, left);
  }

  lemma SingleIds(e: Expr)
    ensures FrameIds(DisjunctionState([e])) == ExprIds(e)
  {
    TreeSnoc([], e);
    assert [] + [e] == [e];
  }

  lemma SplitFrameIds(t: Frame)
    requires ChildList(t).Some? && ChildList(t).value != []
    ensures FrameIds(Left(t)) + FrameIds(Right(t)) == FrameIds(t)
  {
    var last := Right(t).children[0];
    SingleIds(last);
    FrameAppend(Left(t), last);
    LeftThenRight(t);
  }

  /** Putting the last child back into the left state gives the original state. */
  lemma LeftThenRight(t: Frame)
    requires ChildList(t).Some? && ChildList(t).value != []
    ensures ChildList(Left(t)).Some? && Appended(Left(t), Right(t).children[0]) == t
  {
    var ch := ChildList(t).value;
    assert ch[..|ch| - 1] + [ch[|ch| - 1]] == ch;
  }

  /** Numbered: the stack holds the numbers `1 .. count - 1` in order (0 is the root's, given
      at the end). */
  predicate Numbered(st: PState) {
    st.count >= 1 && Ids(st.stack) == Range(1, st.count)
  }

  lemma UnknownKeepsIds(p: string, st: PState)
    requires st.progress < |p| && st.stack != [] && Last(st.stack).UnknownState?
    requires UnknownStep(p, st).error.None?
    ensures Ids(UnknownStep(p, st).st.stack) == Ids(st.stack) && UnknownStep(p, st).st.count == st.count
  {
    var below := Below(st.stack);
    UnknownShape(p, st);
    Split(st.stack);
    IdsSnoc(below, UnknownState);
    if p[st.progress] == '|' {
      Split(below);
      BarIds(Below(below), Last(below));
    } else {
      IdsSnoc(below, Opened(p[st.progress]));
    }
  }

  lemma CharacterKeepsIds(p: string, st: PState)
    requires st.progress < |p| && st.stack != [] && Last(st.stack).CharacterState?
    requires CharacterStep(p, st).error.None?
    ensures Ids(CharacterStep(p, st).st.stack) == Ids(st.stack) && CharacterStep(p, st).st.count == st.count
  {
    CharacterShape(p, st);
    Split(st.stack);
    IdsSnoc(Below(st.stack), CharacterState);
    var (q, j) := Quantifier(p, st.progress + 1);
    AppendKeepsIds(PState(Below(st.stack), st.count, j), Expr(Character(p[st.progress]), q.min, q.max, q.greedy, None));
  }

  /** Entering a conjunction state for the first time gives it the next number. */
  lemma NumberingIds(p: string, st: PState)
    requires st.stack != [] && Last(st.stack).ConjunctionState? && Good(Last(st.stack)) && Numbered(st)
    ensures
      var top := Last(st.stack);
      var (names, count, i) := Numbering(p, st.progress, st.count, top);
      Ids(Below(st.stack) + [ConjunctionState(top.children, false, names)]) == Range(1, count)
  {
    var top := Last(st.stack);
    var (names, count, i) := Numbering(p, st.progress, st.count, top);
    Split(st.stack);
    IdsSnoc(Below(st.stack), top);
    IdsSnoc(Below(st.stack), ConjunctionState(top.children, false, names));
    if top.firstTime {
      assert FrameIds(top) == [];
      assert FrameIds(ConjunctionState(top.children, false, names)) == [st.count];
      assert Range(1, st.count + 1) == Range(1, st.count) + [st.count];
    } else {
      assert ConjunctionState(top.children, false, names) == top;
    }
  }

  /** Closing a group moves its numbers into the state below; descending keeps them. */
  lemma DescendIds(p: string, below: seq<Frame>, ch: seq<Expr>, names: seq<Id>, count: nat, i: nat)
    requires CloseOrDescend(p, below, ch, names, count, i).error.None?
    ensures Ids(CloseOrDescend(p, below, ch, names, count, i).st.stack)
         == Ids(below + [ConjunctionState(ch, false, names)])
    ensures CloseOrDescend(p, below, ch, names, count, i).st.count == count
  {
    var entered := ConjunctionState(ch, false, names);
    DescendShape(p, below, ch, names, count, i);
    IdsSnoc(below, entered);
    if p[i] == ')' {
      AppendKeepsIds(PState(below, count, Quantifier(p, i + 1).1), Closed(p, ch, names, i));
      assert ExprIds(Closed(p, ch, names, i)) == FrameIds(entered);
    } else {
      IdsSnoc(below + [entered], UnknownState);
    }
  }

  lemma ConjunctionKeepsIds(p: string, st: PState)
    requires st.progress < |p| && st.stack != [] && Last(st.stack).ConjunctionState? && Good(Last(st.stack))
    requires Numbered(st) && ConjunctionStep(p, st).error.None?
    ensures Numbered(ConjunctionStep(p, st).st)
  {
    var top := Last(st.stack);
    var (names, count, i) := Numbering(p, st.progress, st.count, top);
    NumberingIds(p, st);
    DescendIds(p, Below(st.stack), top.children, names, count, i);
  }

  /** Every pass of the loop that does not raise keeps the numbering. */
  lemma DispatchKeepsIds(p: string, st: PState)
    requires st.progress < |p| && st.stack != [] && Good(Last(st.stack)) && Numbered(st)
    requires Dispatch(p, st).error.None?
    ensures Numbered(Dispatch(p, st).st)
  {
    var top := Last(st.stack);
    if top.RootState? {
      assert Dispatch(p, st) == RootStep(st);
      IdsSnoc(st.stack, UnknownState);
    } else if top.UnknownState? {
      assert Dispatch(p, st) == UnknownStep(p, st);
      UnknownKeepsIds(p, st);
    } else if top.CharacterState? {
      assert Dispatch(p, st) == CharacterStep(p, st);
      CharacterKeepsIds(p, st);
    } else if top.ConjunctionState? {
      assert Dispatch(p, st) == ConjunctionStep(p, st);
      ConjunctionKeepsIds(p, st);
    } else {
      assert false;
    }
  }

  // ---------------------------------------------------------------------------
  // The loop and the result of `parse`

  /** What holds between two passes of the loop. */
  predicate Inv(st: PState) {
    Shaped(st.stack) && Numbered(st)
  }

  lemma DispatchKeepsInv(p: string, st: PState)
    requires st.progress < |p| && Inv(st) && Counted(p, st) && Dispatch(p, st).error.None?
    ensures Inv(Dispatch(p, st).st) && Counted(p, Dispatch(p, st).st)
  {
    assert Good(st.stack[|st.stack| - 1]);
    DispatchKeepsShape(p, st);
    DispatchKeepsIds(p, st);
    Split(st.stack);
    ShapedSnoc(Below(st.stack), Last(st.stack));
    DispatchKeepsCounted(p, st);
  }

  /** The loop keeps the invariant and, unless a pass raises, consumes the whole pattern. */
  lemma {:induction false} LoopKeepsInv(p: string, st: PState)
    requires st.progress <= |p| && Inv(st) && Counted(p, st)
    ensures Loop(p, st).error.None? ==>
      && Loop(p, st).st.progress == |p|
      && Inv(Loop(p, st).st) && Counted(p, Loop(p, st).st)
    decreases |p| - st.progress, Rank(st)
  {
    if st.progress < |p| {
      var n := Dispatch(p, st);
      if n.error.None? {
        DispatchKeepsInv(p, st);
        LoopKeepsInv(p, n.st);
      }
    }
  }

  /** The state `parse` starts the loop from, on an empty stack. */
  lemma StartKeepsInv(p: string)
    ensures Inv(PState([] + [RootState([])], 1, 0)) && Counted(p, PState([] + [RootState([])], 1, 0))
  {
    assert [] + [RootState([])] == [RootState([])];
    IdsSnoc([], RootState([]));
    CountSnoc([], RootState([]));
  }

  /** When `parse` succeeds, every `(` of the pattern is closed, `_group_count` is one more
      than the number of `(`, and the pattern holds no `|`, `[`, `]` or `\\`: alternation,
      character groups and escapes are never compiled. */
  lemma ParseCounts(p: string)
    ensures Parse(p).result.Ok? ==>
      && Balanced(p)
      && Parse(p).count == Tally(p, |p|, '(') + 1
      && NoOperators(p, |p|)
  {
    var st := PState([] + [RootState([])], 1, 0);
    StartKeepsInv(p);
    LoopKeepsInv(p, st);
    var n := Loop(p, st);
    if Parse(p).result.Ok? {
      assert n.error.None? && |n.st.stack| == 1;
      var root := n.st.stack[0];
      assert root.RootState?;
      CountSnoc([], root);
      assert [] + [root] == n.st.stack;
    }
  }

  /** A pattern `parse` accepts becomes the root group, numbered 0 and unquantified, whose
      children are unnamed characters and non-empty groups named by a number and at most one
      lower-case name; the group numbers in preorder are exactly 0, 1, ..., `_group_count` - 1,
      so every `(` of the pattern gets the next number. The stack is left empty. */
  lemma ParseTree(p: string)
    ensures Parse(p).result.Ok? ==>
      var r := Parse(p).result.value;
      && r.kind.Group? && r.names == Some([Index(0)])
      && r.min == 1 && r.max == Finite(1) && r.greedy
      && AllCompiled(r.kind.children)
      && ExprIds(r) == Range(0, Parse(p).count)
      && Parse(p).stack == []
  {
    var st := PState([] + [RootState([])], 1, 0);
    StartKeepsInv(p);
    LoopKeepsInv(p, st);
    var n := Loop(p, st);
    if Parse(p).result.Ok? {
      assert n.error.None? && |n.st.stack| == 1;
      var root := n.st.stack[0];
      assert Good(root) && root.RootState?;
      var ch := root.children;
      IdsSnoc([], root);
      assert [] + [root] == n.st.stack;
      RangeFirst(n.st.count);
    }
  }

  // ---------------------------------------------------------------------------
  // Parentheses and the other special characters

  /** The number of `c` among the first `k` characters of `p`. */
  function Tally(p: string, k: nat, c: char): nat
    requires k <= |p|
  {
    if k == 0 then 0 else Tally(p, k - 1, c) + (if p[k - 1] == c then 1 else 0)
  }

  /** A character with no meaning of its own to the compiler. */
  predicate Plain(c: char) {
    c != '\\' && c != '(' && c != '[' && c != ']' && c != ')' && c != '|'
  }

  /** No prefix of the first `k` characters closes more groups than it opens. */
  predicate NeverUnder(p: string, k: nat)
    requires k <= |p|
  {
    forall m :: 0 <= m <= k ==> Tally(p, m, ')') <= Tally(p, m, '(')
  }

  /** Every `(` of `p` is closed by a later `)`. */
  predicate Balanced(p: string) {
    NeverUnder(p, |p|) && Tally(p, |p|, '(') == Tally(p, |p|, ')')
  }

  /** None of `|`, `[`, `]` and `\` among the first `k` characters. */
  predicate NoOperators(p: string, k: nat)
    requires k <= |p|
  {
    forall m :: 0 <= m < k ==> p[m] != '|' && p[m] != '[' && p[m] != ']' && p[m] != '\\'
  }

  lemma QuantifierIsPlain(p: string, i: nat)
    requires i <= |p|
    ensures forall k :: i <= k < Quantifier(p, i).1 ==> Plain(p[k])
  {
    QuantifierConsumes(p, i);
  }

  lemma NamePrefixIsPlain(p: string, i: nat)
    requires NamePrefix(p, i).Some?
    ensures forall k :: i <= k < NamePrefix(p, i).value.1 ==> Plain(p[k])
  {
    NamePrefixConsumes(p, i);
  }

  /** Reading plain characters changes no tally. */
  lemma {:induction false} AdvancePlain(p: string, i: nat, j: nat)
    requires i <= j <= |p| && forall k :: i <= k < j ==> Plain(p[k])
    ensures Tally(p, j, '(') == Tally(p, i, '(') && Tally(p, j, ')') == Tally(p, i, ')')
    ensures NeverUnder(p, i) ==> NeverUnder(p, j)
    ensures NoOperators(p, i) ==> NoOperators(p, j)
    decreases j - i
  {
    if i < j {
      AdvancePlain(p, i, j - 1);
      if NeverUnder(p, i) {
        forall m | 0 <= m <= j ensures Tally(p, m, ')') <= Tally(p, m, '(') {
          if m == j {
            assert Tally(p, j, ')') == Tally(p, j - 1, ')');
          }
        }
      }
    }
  }

  /** Reading one character. */
  lemma AdvanceOne(p: string, i: nat)
    requires i < |p|
    ensures Tally(p, i + 1, '(') == Tally(p, i, '(') + (if p[i] == '(' then 1 else 0)
    ensures Tally(p, i + 1, ')') == Tally(p, i, ')') + (if p[i] == ')' then 1 else 0)
    ensures NeverUnder(p, i) && Tally(p, i + 1, ')') <= Tally(p, i + 1, '(') ==> NeverUnder(p, i + 1)
    ensures NoOperators(p, i) && p[i] != '|' && p[i] != '[' && p[i] != ']' && p[i] != '\\' ==> NoOperators(p, i + 1)
  {
  }

  /** States that record a character the compiler cannot finish: once pushed they stay. */
  predicate Stuck(f: Frame) {
    f.DisjunctionState? || f.CharacterGroupState? || f.EscapedState?
  }

  function ConjCount(s: seq<Frame>): nat {
    if s == [] then 0 else ConjCount(s[..|s| - 1]) + (if s[|s| - 1].ConjunctionState? then 1 else 0)
  }

  function StuckCount(s: seq<Frame>): nat {
    if s == [] then 0 else StuckCount(s[..|s| - 1]) + (if Stuck(s[|s| - 1]) then 1 else 0)
  }

  /** 1 when the top state is a conjunction that has not been numbered yet. */
  function Pending(s: seq<Frame>): nat {
    if s != [] && Last(s).ConjunctionState? && Last(s).firstTime then 1 else 0
  }

  lemma CountSnoc(s: seq<Frame>, f: Frame)
    ensures ConjCount(s + [f]) == ConjCount(s) + (if f.ConjunctionState? then 1 else 0)
    ensures StuckCount(s + [f]) == StuckCount(s) + (if Stuck(f) then 1 else 0)
  {
    assert (s + [f])[..|s|] == s;
  }

  /** What the stack records about the characters read so far: `_group_count` is one more than
      the `(` read (less the one not numbered yet), every open conjunction state is a `(` not yet
      closed, no prefix closes more than it opens, an operator character leaves a stuck state,
      and a character state sits on a plain character. */
  predicate Counted(p: string, st: PState)
    requires st.progress <= |p|
  {
    && st.count + Pending(st.stack) == Tally(p, st.progress, '(') + 1
    && ConjCount(st.stack) + Tally(p, st.progress, ')') == Tally(p, st.progress, '(')
    && NeverUnder(p, st.progress)
    && (StuckCount(st.stack) > 0 || NoOperators(p, st.progress))
    && (st.stack != [] && Last(st.stack).CharacterState? ==> st.progress < |p| && Plain(p[st.progress]))
  }

  lemma BarCounts(bb: seq<Frame>, t: Frame)
    requires ChildList(t).Some? && ChildList(t).value != []
    ensures ConjCount(bb + [Left(t), Right(t), UnknownState]) == ConjCount(bb + [t] + [UnknownState])
    ensures StuckCount(bb + [Left(t), Right(t), UnknownState]) == StuckCount(bb + [t] + [UnknownState]) + 1
  {
    ThreeCounts(bb, Left(t), Right(t));
    SameKind(t, ChildList(t).value[..|ChildList(t).value| - 1]);
    CountSnoc(bb, t);
    CountSnoc(bb + [t], UnknownState);
  }

  lemma ThreeCounts(bb: seq<Frame>, left: Frame, d: Frame)
    ensures ConjCount(bb + [left, d, UnknownState])
         == ConjCount(bb) + (if left.ConjunctionState? then 1 else 0) + (if d.ConjunctionState? then 1 else 0)
    ensures StuckCount(bb + [left, d, UnknownState])
         == StuckCount(bb) + (if Stuck(left) then 1 else 0) + (if Stuck(d) then 1 else 0)
  {
    assert bb + [left, d, UnknownState] == bb + [left] + [d] + [UnknownState];
    CountSnoc(bb + [left] + [d], UnknownState);
    CountSnoc(bb + [left], d);
    CountSnoc(bb, left);
  }

  /** Replacing a state's children keeps its kind. */
  lemma SameKind(f: Frame, ch: seq<Expr>)
    requires ChildList(f).Some?
    ensures WithChildList(f, ch).ConjunctionState? == f.ConjunctionState?
    ensures Stuck(WithChildList(f, ch)) == Stuck(f)
    ensures Holder(WithChildList(f, ch)) == Holder(f)
    ensures Pending([WithChildList(f, ch)]) == Pending([f])
  {
  }

  lemma AppendedCounts(below: seq<Frame>, top: Frame, e: Expr)
    requires ChildList(top).Some?
    ensures ConjCount(below + [Appended(top, e)]) == ConjCount(below + [top])
    ensures StuckCount(below + [Appended(top, e)]) == StuckCount(below + [top])
  {
    CountSnoc(below, top);
    CountSnoc(below, Appended(top, e));
    SameKind(top, ChildList(top).value + [e]);
  }

  lemma UnknownKeepsCounted(p: string, st: PState)
    requires st.progress < |p| && st.stack != [] && Last(st.stack).UnknownState?
    requires Counted(p, st) && UnknownStep(p, st).error.None?
    ensures Counted(p, UnknownStep(p, st).st)
  {
    var below := Below(st.stack);
    var i := st.progress;
    UnknownShape(p, st);
    Split(st.stack);
    CountSnoc(below, UnknownState);
    AdvanceOne(p, i);
    if p[i] == '|' {
      Split(below);
      BarCounts(Below(below), Last(below));
    } else {
      CountSnoc(below, Opened(p[i]));
    }
  }

  /** Appending a child to the innermost open state, with the cursor at `st.progress`. */
  lemma AppendKeepsCounted(p: string, st: PState, e: Expr)
    requires st.progress <= |p| && Shaped(st.stack) && Holder(Last(st.stack))
    requires st.count == Tally(p, st.progress, '(') + 1 && NeverUnder(p, st.progress)
    requires ConjCount(st.stack) + Tally(p, st.progress, ')') == Tally(p, st.progress, '(')
    requires StuckCount(st.stack) > 0 || NoOperators(p, st.progress)
    ensures AppendChild(st, e).error.None?
    ensures Counted(p, AppendChild(st, e).st)
  {
    AppendShape(st, e);
    Split(st.stack);
    AppendedCounts(Below(st.stack), Last(st.stack), e);
  }

  /** A quantifier is made of plain characters only. */
  lemma SkipQuantifier(p: string, i: nat)
    requires i <= |p|
    ensures Tally(p, Quantifier(p, i).1, '(') == Tally(p, i, '(')
    ensures Tally(p, Quantifier(p, i).1, ')') == Tally(p, i, ')')
    ensures NeverUnder(p, i) ==> NeverUnder(p, Quantifier(p, i).1)
    ensures NoOperators(p, i) ==> NoOperators(p, Quantifier(p, i).1)
  {
    QuantifierIsPlain(p, i);
    AdvancePlain(p, i, Quantifier(p, i).1);
  }

  lemma CharacterKeepsCounted(p: string, st: PState)
    requires st.progress < |p| && |st.stack| >= 2 && Last(st.stack).CharacterState?
    requires Shaped(Below(st.stack)) && Holder(Last(Below(st.stack)))
    requires Counted(p, st) && CharacterStep(p, st).error.None?
    ensures Counted(p, CharacterStep(p, st).st)
  {
    var i := st.progress;
    var below := Below(st.stack);
    CharacterShape(p, st);
    Split(st.stack);
    CountSnoc(below, CharacterState);
    var (q, _) := Quantifier(p, i + 1);
    LeafKeepsCounted(p, below, st.count, i, Expr(Character(p[i]), q.min, q.max, q.greedy, None));
  }

  /** Reading a plain character and its quantifier adds a leaf to the innermost open state. */
  lemma LeafKeepsCounted(p: string, below: seq<Frame>, count: nat, i: nat, leaf: Expr)
    requires below != [] && Shaped(below) && Holder(Last(below)) && i < |p| && Plain(p[i])
    requires count == Tally(p, i, '(') + 1 && NeverUnder(p, i)
    requires ConjCount(below) + Tally(p, i, ')') == Tally(p, i, '(')
    requires StuckCount(below) > 0 || NoOperators(p, i)
    ensures Counted(p, AppendChild(PState(below, count, Quantifier(p, i + 1).1), leaf).st)
  {
    AdvanceOne(p, i);
    SkipQuantifier(p, i + 1);
    AppendKeepsCounted(p, PState(below, count, Quantifier(p, i + 1).1), leaf);
  }

  lemma ConjunctionKeepsCounted(p: string, st: PState)
    requires st.progress < |p| && |st.stack| >= 2 && Last(st.stack).ConjunctionState? && Good(Last(st.stack))
    requires Shaped(Below(st.stack)) && Holder(Last(Below(st.stack)))
    requires Counted(p, st) && ConjunctionStep(p, st).error.None?
    ensures Counted(p, ConjunctionStep(p, st).st)
  {
    var top := Last(st.stack);
    var below := Below(st.stack);
    var (names, count, i) := Numbering(p, st.progress, st.count, top);
    NumberingCounts(p, st.progress, st.count, top);
    Split(st.stack);
    CountSnoc(below, top);
    CountSnoc(below, ConjunctionState(top.children, false, names));
    DescendKeepsCounted(p, below, top.children, names, count, i);
  }

  /** Numbering a group takes one number and reads only plain characters. */
  lemma NumberingCounts(p: string, progress: nat, count: nat, top: Frame)
    requires top.ConjunctionState? && progress <= |p|
    ensures
      var (_, c, i) := Numbering(p, progress, count, top);
      && progress <= i <= |p|
      && c == count + (if top.firstTime then 1 else 0)
      && Tally(p, i, '(') == Tally(p, progress, '(') && Tally(p, i, ')') == Tally(p, progress, ')')
      && (NeverUnder(p, progress) ==> NeverUnder(p, i))
      && (NoOperators(p, progress) ==> NoOperators(p, i))
  {
    var (_, _, i) := Numbering(p, progress, count, top);
    if top.firstTime && NamePrefix(p, progress).Some? {
      NamePrefixIsPlain(p, progress);
    }
    AdvancePlain(p, progress, i);
  }

  lemma DescendKeepsCounted(p: string, below: seq<Frame>, ch: seq<Expr>, names: seq<Id>, count: nat, i: nat)
    requires below != [] && Shaped(below) && Holder(Last(below)) && i <= |p|
    requires Counted(p, PState(below + [ConjunctionState(ch, false, names)], count, i))
    requires CloseOrDescend(p, below, ch, names, count, i).error.None?
    ensures Counted(p, CloseOrDescend(p, below, ch, names, count, i).st)
  {
    var entered := ConjunctionState(ch, false, names);
    DescendShape(p, below, ch, names, count, i);
    CountSnoc(below, entered);
    if p[i] == ')' {
      CloseKeepsCounted(p, below, Closed(p, ch, names, i), count, i);
    } else {
      CountSnoc(below + [entered], UnknownState);
    }
  }

  /** Reading `)` and its quantifier closes the innermost open conjunction. */
  lemma CloseKeepsCounted(p: string, below: seq<Frame>, g: Expr, count: nat, i: nat)
    requires below != [] && Shaped(below) && Holder(Last(below)) && i < |p| && p[i] == ')'
    requires count == Tally(p, i, '(') + 1 && NeverUnder(p, i)
    requires ConjCount(below) + 1 + Tally(p, i, ')') == Tally(p, i, '(')
    requires StuckCount(below) > 0 || NoOperators(p, i)
    ensures Counted(p, AppendChild(PState(below, count, Quantifier(p, i + 1).1), g).st)
  {
    AdvanceOne(p, i);
    SkipQuantifier(p, i + 1);
    AppendKeepsCounted(p, PState(below, count, Quantifier(p, i + 1).1), g);
  }

  /** Every pass of the loop that does not raise keeps the record of what was read. */
  lemma DispatchKeepsCounted(p: string, st: PState)
    requires st.progress < |p| && st.stack != []
    requires !Last(st.stack).RootState? ==> |st.stack| >= 2 && Shaped(Below(st.stack)) && Holder(Last(Below(st.stack)))
    requires Last(st.stack).ConjunctionState? ==> Good(Last(st.stack))
    requires Counted(p, st) && Dispatch(p, st).error.None?
    ensures Counted(p, Dispatch(p, st).st)
  {
    var top := Last(st.stack);
    if top.RootState? {
      assert Dispatch(p, st) == RootStep(st);
      CountSnoc(st.stack, UnknownState);
    } else if top.UnknownState? {
      assert Dispatch(p, st) == UnknownStep(p, st);
      UnknownKeepsCounted(p, st);
    } else if top.CharacterState? {
      assert Dispatch(p, st) == CharacterStep(p, st);
      CharacterKeepsCounted(p, st);
    } else if top.ConjunctionState? {
      assert Dispatch(p, st) == ConjunctionStep(p, st);
      ConjunctionKeepsCounted(p, st);
    } else {
      assert false;
    }
  }

  // ---------------------------------------------------------------------------
  // Literal patterns

  /** A character that neither opens a state of its own nor starts a quantifier. */
  predicate Literal(c: char) {
    Plain(c) && c != '+' && c != '?' && c != '*' && c != '{'
  }

  /** The unquantified, unnamed leaf that matches exactly `c`. */
  function Letter(c: char): Expr {
    Expr(Character(c), 1, Finite(1), true, None)
  }

  /** One leaf per character of `p`, in order. */
  function Letters(p: string): (r: seq<Expr>)
    ensures |r| == |p| && forall i :: 0 <= i < |p| ==> r[i] == Letter(p[i])
  {
    seq(|p|, i requires 0 <= i < |p| => Letter(p[i]))
  }

  /** One character read from the root: the root state descends into an unknown state, which
      becomes a character state, which appends the character's leaf with no quantifier. */
  lemma LiteralStep(p: string, k: nat)
    requires k < |p| && Literal(p[k]) && (k + 1 < |p| ==> Literal(p[k + 1]))
    ensures var st := PState([RootState(Letters(p)[..k])], 1, k);
      Loop(p, st) == Loop(p, PState([RootState(Letters(p)[..k + 1])], 1, k + 1))
  {
    var root := RootState(Letters(p)[..k]);
    var s0 := PState([root], 1, k);
    var s1 := PState([root, UnknownState], 1, k);
    var s2 := PState([root, CharacterState], 1, k);
    var s3 := PState([RootState(Letters(p)[..k + 1])], 1, k + 1);
    assert Dispatch(p, s0) == Next(s1, None);
    assert s1.stack[..1] == [root];
    assert Dispatch(p, s1) == Next(s2, None);
    assert Quantifier(p, k + 1) == (Once, k + 1);
    assert s2.stack[..1] == [root];
    assert Letters(p)[..k] + [Letter(p[k])] == Letters(p)[..k + 1];
    assert [root][..0] + [RootState(Letters(p)[..k + 1])] == s3.stack;
    assert Dispatch(p, s2) == Next(s3, None);
    assert Loop(p, s2) == Loop(p, s3);
    assert Loop(p, s1) == Loop(p, s2);
  }

  /** From the root holding the leaves of the first `k` characters, the loop reads the rest of a
      literal pattern leaf by leaf. */
  lemma {:induction false} LiteralLoop(p: string, k: nat)
    requires k <= |p| && forall i :: 0 <= i < |p| ==> Literal(p[i])
    ensures Loop(p, PState([RootState(Letters(p)[..k])], 1, k)) == Next(PState([RootState(Letters(p))], 1, |p|), None)
    decreases |p| - k
  {
    if k < |p| {
      LiteralStep(p, k);
      LiteralLoop(p, k + 1);
    } else {
      assert Letters(p)[..k] == Letters(p);
    }
  }

  /** A pattern with none of the characters `\ ( ) [ ] | + ? * {` compiles to the root group,
      numbered 0, whose children are one unquantified leaf per character, in order; no group
      other than the root is numbered. */
  lemma LiteralPattern(p: string)
    requires forall i :: 0 <= i < |p| ==> Literal(p[i])
    ensures Parse(p) == Outcome(Ok(Expr(Group(Letters(p)), 1, Finite(1), true, Some([Index(0)]))), [], 1)
  {
    assert [] + [RootState([])] == [RootState(Letters(p)[..0])];
    LiteralLoop(p, 0);
  }
}
