/** The pattern compiler of cre/parser.py: a stack of parser states driven by a loop that calls
  * the `_parse_<state>` method of the state on top until the pattern is consumed.
  */
module Compiler {
  import opened Base
  import opened Captures
  import opened Engine
  import opened Syntax

  /** One entry of `Parser._stack`, by its `"state"` key. */
  datatype Frame =
    | RootState(children: seq<Expr>)
    | UnknownState
    | CharacterState
    | ConjunctionState(children: seq<Expr>, firstTime: bool, names: seq<Id>)
    | CharacterGroupState(children: seq<Expr>)
    | DisjunctionState(children: seq<Expr>)
    | EscapedState

  /** What `parse` raises. */
  datatype ParseError =
    | StrayClose(c: char, at: nat)   // `]` or `)` that closes nothing
    | MissingOperand(at: nat)        // `|` with nothing on its left
    | EmptyGroup(at: nat)            // `()`
    | Unclosed                       // "More expressions opened than closed"
    | NeverEnds                      // a state that never advances: the loop does not end
    | BrokenEscape                   // `_parse_escaped` fails on a missing attribute
    | PastEnd                        // reading the character at the cursor after the end
    | NoChildren                     // the state below has no `"children"` list
    | EmptyStack                     // the state stack is empty

  /** The parser's mutable state: the stack, `_group_count` and the context's cursor. */
  datatype PState = PState(stack: seq<Frame>, count: nat, progress: nat)

  /** The state after one call, and what it raised, if anything. */
  datatype Next = Next(st: PState, error: Option<ParseError>)

  /** What `parse` leaves behind: its result and the parser's fields afterwards. */
  datatype Outcome = Outcome(result: Result<Expr, ParseError>, stack: seq<Frame>, count: nat)

  function ChildList(f: Frame): Option<seq<Expr>> {
    match f
    case RootState(ch) => Some(ch)
    case ConjunctionState(ch, _, _) => Some(ch)
    case CharacterGroupState(ch) => Some(ch)
    case DisjunctionState(ch) => Some(ch)
    case _ => None
  }

  function WithChildList(f: Frame, ch: seq<Expr>): Frame
    requires ChildList(f).Some?
  {
    match f
    case RootState(_) => RootState(ch)
    case ConjunctionState(_, first, names) => ConjunctionState(ch, first, names)
    case CharacterGroupState(_) => CharacterGroupState(ch)
    case DisjunctionState(_) => DisjunctionState(ch)
  }

  /** `self._current_children.append(e)`. */
  function AppendChild(st: PState, e: Expr): Next {
    if st.stack == [] then Next(st, Some(EmptyStack))
    else
      var top := st.stack[|st.stack| - 1];
      match ChildList(top)
      case None => Next(st, Some(NoChildren))
      case Some(ch) => Next(st.(stack := st.stack[..|st.stack| - 1] + [WithChildList(top, ch + [e])]), None)
  }

  /** `_parse_root`. */
  function RootStep(st: PState): Next {
    Next(st.(stack := st.stack + [UnknownState]), None)
  }

  /** `_parse_unknown`: drop the unknown state and choose one for the character at the cursor. */
  function UnknownStep(p: string, st: PState): Next
    requires st.progress < |p| && st.stack != []
  {
    var i := st.progress;
    var below := st.stack[..|st.stack| - 1];
    var c := p[i];
    if c == '\\' then Next(PState(below + [EscapedState], st.count, i + 1), None)
    else if c == '(' then Next(PState(below + [ConjunctionState([], true, [])], st.count, i + 1), None)
    else if c == '[' then Next(PState(below + [CharacterGroupState([])], st.count, i + 1), None)
    else if c == ']' || c == ')' then Next(st.(stack := below), Some(StrayClose(c, i)))
    else if c == '|' then
      if below == [] then Next(st.(stack := below), Some(EmptyStack))
      else
        var top := below[|below| - 1];
        match ChildList(top)
        case None => Next(st.(stack := below), Some(NoChildren))
        case Some(ch) =>
          if ch == [] then Next(st.(stack := below), Some(MissingOperand(i)))
          else
            var left := WithChildList(top, ch[..|ch| - 1]);
            Next(PState(below[..|below| - 1] + [left, DisjunctionState([ch[|ch| - 1]]), UnknownState],
                        st.count, i + 1), None)
    else Next(st.(stack := below + [CharacterState]), None)
  }

  /** `_parse_character`: the character at the cursor with the quantifier after it. */
  function CharacterStep(p: string, st: PState): Next
    requires st.progress < |p| && st.stack != []
  {
    var (q, j) := Quantifier(p, st.progress + 1);
    var leaf := Expr(Character(p[st.progress]), q.min, q.max, q.greedy, None);
    AppendChild(PState(st.stack[..|st.stack| - 1], st.count, j), leaf)
  }

  /** `_parse_conjunction` on a top state `ConjunctionState(ch, first, names)`: on the first call
      number the group and read an optional `?P<name>`; then close it at `)` or parse a child. */
  function ConjunctionStep(p: string, st: PState): Next
    requires st.progress < |p| && st.stack != [] && st.stack[|st.stack| - 1].ConjunctionState?
  {
    var top := st.stack[|st.stack| - 1];
    var (names, count, i) := Numbering(p, st.progress, st.count, top);
    CloseOrDescend(p, st.stack[..|st.stack| - 1], top.children, names, count, i)
  }

  /** The group's names, the group count and the cursor once the conjunction state has been
      entered: the first call takes the next number and reads an optional `?P<name>`. */
  function Numbering(p: string, progress: nat, count: nat, top: Frame): (seq<Id>, nat, nat)
    requires top.ConjunctionState?
  {
    if top.firstTime then
      match NamePrefix(p, progress)
      case Some((name, j)) => ([Index(count), Name(name)], count + 1, j)
      case None => ([Index(count)], count + 1, progress)
    else (top.names, count, progress)
  }

  /** The rest of `_parse_conjunction`: at `)` the group with the quantifier after it becomes a
      child of the state below; otherwise an unknown state is pushed for the next child. */
  function CloseOrDescend(p: string, below: seq<Frame>, children: seq<Expr>, names: seq<Id>, count: nat, i: nat): Next {
    var entered := PState(below + [ConjunctionState(children, false, names)], count, i);
    if i >= |p| then Next(entered, Some(PastEnd))
    else if p[i] == ')' then
      if children == [] then Next(entered, Some(EmptyGroup(i)))
      else
        var (q, j) := Quantifier(p, i + 1);
        AppendChild(PState(below, count, j), Expr(Group(children), q.min, q.max, q.greedy, Some(names)))
    else Next(entered.(stack := entered.stack + [UnknownState]), None)
  }

  /** `_parse_escaped`: both branches end in an attribute error, the `\s` one after reading its
      quantifier. */
  function EscapedStep(p: string, st: PState): Next
    requires st.progress < |p|
  {
    if p[st.progress] == 's' then Next(st.(progress := Quantifier(p, st.progress + 1).1), Some(BrokenEscape))
    else Next(st, Some(BrokenEscape))
  }

  /** How far a state is from consuming a character: each step that does not consume lowers it. */
  function Rank(st: PState): nat {
    if st.stack == [] then 0
    else match st.stack[|st.stack| - 1]
      case RootState(_) => 3
      case ConjunctionState(_, _, _) => 3
      case UnknownState => 2
      case CharacterState => 1
      case _ => 0
  }

  /** One pass of the loop in `parse`: the `_parse_<state>` method of the state on top. The
      character-group and disjunction states do nothing, so the loop would repeat them forever. */
  function Dispatch(p: string, st: PState): (n: Next)
    requires st.progress < |p|
    ensures n.error.None? ==> st.progress <= n.st.progress <= |p|
    ensures n.error.None? ==> st.progress < n.st.progress || Rank(n.st) < Rank(st)
  {
    if st.stack == [] then Next(st, Some(EmptyStack))
    else match st.stack[|st.stack| - 1]
      case RootState(_) => RootStep(st)
      case UnknownState => UnknownStep(p, st)
      case CharacterState => CharacterStep(p, st)
      case ConjunctionState(_, _, _) => ConjunctionStep(p, st)
      case CharacterGroupState(_) => Next(st, Some(NeverEnds))
      case DisjunctionState(_) => Next(st, Some(NeverEnds))
      case EscapedState => EscapedStep(p, st)
  }

  /** `while self._context.progress < len(pattern): ...`: step until the pattern is consumed or a
      step raises. */
  function Loop(p: string, st: PState): Next
    requires st.progress <= |p|
    decreases |p| - st.progress, Rank(st)
  {
    if st.progress >= |p| then Next(st, None)
    else
      var n := Dispatch(p, st);
      if n.error.Some? then n else Loop(p, n.st)
  }

  /** The end of `parse`: more than one state left raises; otherwise the root state's children
      become the root group, numbered 0. */
  function Finish(n: Next): Outcome {
    if n.error.Some? then Outcome(Raise(n.error.value), n.st.stack, n.st.count)
    else if |n.st.stack| > 1 then Outcome(Raise(Unclosed), n.st.stack, n.st.count)
    else if n.st.stack == [] then Outcome(Raise(EmptyStack), n.st.stack, n.st.count)
    else match ChildList(n.st.stack[0])
      case None => Outcome(Raise(NoChildren), [], n.st.count)
      case Some(ch) => Outcome(Ok(Expr(Group(ch), 1, Finite(1), true, Some([Index(0)]))), [], n.st.count)
  }

  /** `parse` as written, on a parser whose stack still holds `leftover`: the root state is pushed
      on top of whatever an earlier call left there. */
  function ParseOnStack(p: string, leftover: seq<Frame>): Outcome {
    Finish(Loop(p, PState(leftover + [RootState([])], 1, 0)))
  }

  /** `parse` on an empty stack: what a fresh parser does, and what every call would do if
      `parse` reset the stack as it resets `_group_count`. */
  function Parse(p: string): Outcome {
    ParseOnStack(p, [])
  }

  /** `Parser`: the state stack, `_group_count`, and the cursor of the `EvaluationContext` that
      `parse` creates over the pattern. */
  class Parser {
    var stack: seq<Frame>
    var groupCount: nat
    var progress: nat

    /** `Parser.__init__`. */
    constructor ()
      ensures stack == [] && groupCount == 1 && progress == 0
    {
      stack := [];
      groupCount := 1;
      progress := 0;
    }

    function Snapshot(): PState
      reads this
    {
      PState(stack, groupCount, progress)
    }

    /** `parse` as written: the stack an earlier call left behind is kept. */
    method ParseAsWritten(p: string) returns (r: Result<Expr, ParseError>)
      modifies this
      ensures var o := ParseOnStack(p, old(stack));
        r == o.result && stack == o.stack && groupCount == o.count
    {
      progress := 0;
      groupCount := 1;
      stack := stack + [RootState([])];
      ghost var start := Snapshot();
      assert start == PState(old(stack) + [RootState([])], 1, 0);
      var err: Option<ParseError> := None;
      while progress < |p|
        invariant progress <= |p| && err.None?
        invariant Loop(p, start) == Loop(p, Snapshot())
        decreases |p| - progress, Rank(Snapshot())
      {
        ghost var before := Snapshot();
        err := Step(p);
        if err.Some? {
          assert Loop(p, start) == Next(Snapshot(), err);
          break;
        }
        assert Loop(p, before) == Loop(p, Snapshot());
      }
      if err.Some? {
        return Raise(err.value);
      }
      assert Loop(p, start) == Next(Snapshot(), None);
      if |stack| > 1 {
        return Raise(Unclosed);
      }
      if stack == [] {
        return Raise(EmptyStack);
      }
      var root := stack[0];
      stack := [];
      match ChildList(root)
      case None => r := Raise(NoChildren);
      case Some(ch) => r := Ok(Expr(Group(ch), 1, Finite(1), true, Some([Index(0)])));
    }

    /** `parse` on a cleared stack: what every call does if `parse` empties the stack first, the
        outcome the module-level `Parse` describes. */
    method Parse(p: string) returns (r: Result<Expr, ParseError>)
      modifies this
      ensures var o := ParseOnStack(p, []);
        r == o.result && stack == o.stack && groupCount == o.count
    {
      stack := [];
      r := ParseAsWritten(p);
    }

    /** `getattr(self, "_parse_" + self._current_state)()`. */
    method Step(p: string) returns (err: Option<ParseError>)
      requires progress < |p|
      modifies this
      ensures Next(Snapshot(), err) == Dispatch(p, old(Snapshot()))
    {
      if stack == [] {
        return Some(EmptyStack);
      }
      match stack[|stack| - 1]
      case RootState(_) =>
        ParseRoot();
        err := None;
      case UnknownState => err := ParseUnknown(p);
      case CharacterState => err := ParseCharacter(p);
      case ConjunctionState(_, _, _) => err := ParseConjunction(p);
      case CharacterGroupState(_) => err := Some(NeverEnds);
      case DisjunctionState(_) => err := Some(NeverEnds);
      case EscapedState => err := ParseEscaped(p);
    }

    /** `_parse_root`. */
    method ParseRoot()
      modifies this
      ensures Snapshot() == RootStep(old(Snapshot())).st
    {
      stack := stack + [UnknownState];
    }

    /** `_parse_unknown`. */
    method ParseUnknown(p: string) returns (err: Option<ParseError>)
      requires progress < |p| && stack != []
      modifies this
      ensures Next(Snapshot(), err) == UnknownStep(p, old(Snapshot()))
    {
      stack := stack[..|stack| - 1];
      var c := p[progress];
      if c == '\\' || c == '(' || c == '[' {
        progress := progress + 1;
        var state := if c == '\\' then EscapedState
          else if c == '(' then ConjunctionState([], true, [])
          else CharacterGroupState([]);
        stack := stack + [state];
        return None;
      } else if c == ']' || c == ')' {
        return Some(StrayClose(c, progress));
      } else if c == '|' {
        if stack == [] {
          return Some(EmptyStack);
        }
        var top := stack[|stack| - 1];
        match ChildList(top)
        case None => return Some(NoChildren);
        case Some(ch) =>
          if ch == [] {
            return Some(MissingOperand(progress));
          }
          progress := progress + 1;
          stack := stack[..|stack| - 1] + [WithChildList(top, ch[..|ch| - 1])];
          stack := stack + [DisjunctionState([ch[|ch| - 1]])];
          stack := stack + [UnknownState];
          return None;
      } else {
        stack := stack + [CharacterState];
        return None;
      }
    }

    /** `_parse_character`. */
    method ParseCharacter(p: string) returns (err: Option<ParseError>)
      requires progress < |p| && stack != []
      modifies this
      ensures Next(Snapshot(), err) == CharacterStep(p, old(Snapshot()))
    {
      var c := p[progress];
      progress := progress + 1;
      var q := ResolveRepetitions(p);
      stack := stack[..|stack| - 1];
      err := AppendToCurrent(Expr(Character(c), q.min, q.max, q.greedy, None));
    }

    /** `_parse_conjunction`. */
    method ParseConjunction(p: string) returns (err: Option<ParseError>)
      requires progress < |p| && stack != [] && stack[|stack| - 1].ConjunctionState?
      modifies this
      ensures Next(Snapshot(), err) == ConjunctionStep(p, old(Snapshot()))
    {
      EnterConjunction(p);
      err := CloseOrDescendConjunction(p);
    }

    /** The first part of `_parse_conjunction`: on the first call take the next group number and
        read an optional `?P<name>`. */
    method EnterConjunction(p: string)
      requires stack != [] && stack[|stack| - 1].ConjunctionState?
      modifies this
      ensures
        var top := old(stack[|stack| - 1]);
        var (names, count, i) := Numbering(p, old(progress), old(groupCount), top);
        && stack == old(stack[..|stack| - 1]) + [ConjunctionState(top.children, false, names)]
        && groupCount == count && progress == i
    {
      var top := stack[|stack| - 1];
      if top.firstTime {
        var names := [Index(groupCount)];
        groupCount := groupCount + 1;
        match NamePrefix(p, progress) {
          case Some((name, j)) =>
            progress := j;
            names := names + [Name(name)];
            assert names == [Index(groupCount - 1), Name(name)];
          case None =>
        }
        stack := stack[..|stack| - 1] + [ConjunctionState(top.children, false, names)];
      } else {
        assert stack == stack[..|stack| - 1] + [ConjunctionState(top.children, false, top.names)];
      }
    }

    /** The rest of `_parse_conjunction`: close the group at `)` or push an unknown state. */
    method CloseOrDescendConjunction(p: string) returns (err: Option<ParseError>)
      requires stack != [] && stack[|stack| - 1].ConjunctionState? && !stack[|stack| - 1].firstTime
      modifies this
      ensures
        var top := old(stack[|stack| - 1]);
        Next(Snapshot(), err)
          == CloseOrDescend(p, old(stack[..|stack| - 1]), top.children, top.names, old(groupCount), old(progress))
    {
      var top := stack[|stack| - 1];
      assert stack == stack[..|stack| - 1] + [ConjunctionState(top.children, false, top.names)];
      if progress >= |p| {
        return Some(PastEnd);
      }
      if p[progress] == ')' {
        if top.children == [] {
          return Some(EmptyGroup(progress));
        }
        progress := progress + 1;
        var q := ResolveRepetitions(p);
        stack := stack[..|stack| - 1];
        err := AppendToCurrent(Expr(Group(top.children), q.min, q.max, q.greedy, Some(top.names)));
      } else {
        stack := stack + [UnknownState];
        err := None;
      }
    }

    /** `_parse_escaped`: both branches fail on an attribute the class does not have. */
    method ParseEscaped(p: string) returns (err: Option<ParseError>)
      requires progress < |p|
      modifies this
      ensures Next(Snapshot(), err) == EscapedStep(p, old(Snapshot()))
    {
      if p[progress] == 's' {
        progress := progress + 1;
        var _ := ResolveRepetitions(p);
      }
      return Some(BrokenEscape);
    }

    /** `self._current_children.append(e)`. */
    method AppendToCurrent(e: Expr) returns (err: Option<ParseError>)
      modifies this
      ensures Next(Snapshot(), err) == AppendChild(old(Snapshot()), e)
    {
      if stack == [] {
        return Some(EmptyStack);
      }
      var top := stack[|stack| - 1];
      match ChildList(top)
      case None => return Some(NoChildren);
      case Some(ch) =>
        stack := stack[..|stack| - 1] + [WithChildList(top, ch + [e])];
        return None;
    }

    /** `_resolve_repetitions`: read the quantifier at the cursor and move past it. */
    method ResolveRepetitions(p: string) returns (q: Repetition)
      requires progress <= |p|
      modifies this
      ensures (q, progress) == Quantifier(p, old(progress))
      ensures stack == old(stack) && groupCount == old(groupCount)
    {
      if progress >= |p| {
        return Once;
      }
      var min, max := 1, Finite(1);
      if p[progress] == '+' {
        min, max := 1, Infinite;
        progress := progress + 1;
      } else if p[progress] == '?' {
        min, max := 0, Finite(1);
        progress := progress + 1;
      } else if p[progress] == '*' {
        min, max := 0, Infinite;
        progress := progress + 1;
      } else {
        match Braces(p, progress) {
          case Some((lo, hi, j)) =>
            min, max := lo, hi;
            progress := j;
          case None =>
        }
      }
      assert (min, max, progress) == BoundsAt(p, old(progress));
      var greedy := true;
      if progress < |p| && p[progress] == '?' {
        greedy := false;
        progress := progress + 1;
      }
      q := Repetition(min, max, greedy);
    }
  }
}
