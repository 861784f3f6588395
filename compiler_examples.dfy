/** Patterns run through the compiler of cre/parser.py by hand: the errors `parse` raises for a
  * stray `)`, an empty group, a `|` without a left operand and an unclosed group, a pattern it
  * accepts, and what a failed call does to the next one on the same parser.
  */
module CompilerExamples {
  import opened Base
  import opened Engine
  import opened Syntax
  import opened Compiler
  import opened SharedParser

  /** `)` with nothing open raises at position 0, after `_parse_unknown` has popped its state. */
  lemma StrayCloseRaises()
    ensures Parse(")").result == Raise(StrayClose(')', 0))
    ensures Parse(")").stack == [RootState([])]
  {
    var s0 := PState([RootState([])], 1, 0);
    var s1 := PState([RootState([]), UnknownState], 1, 0);
    assert [] + [RootState([])] == [RootState([])];
    assert Dispatch(")", s0) == Next(s1, None);
    assert s1.stack[..1] == [RootState([])];
    assert Dispatch(")", s1) == Next(s0, Some(StrayClose(')', 0)));
  }

  /** A single character becomes the only child of the root group. */
  lemma SingleCharacter()
    ensures Parse("a").result == Ok(Expr(Group([Expr(Character('a'), 1, Finite(1), true, None)]), 1, Finite(1), true, Some([Index(0)])))
  {
    var a := Expr(Character('a'), 1, Finite(1), true, None);
    var s0 := PState([RootState([])], 1, 0);
    var s1 := PState([RootState([]), UnknownState], 1, 0);
    var s2 := PState([RootState([]), CharacterState], 1, 0);
    var s3 := PState([RootState([a])], 1, 1);
    assert [] + [RootState([])] == [RootState([])];
    assert Dispatch("a", s0) == Next(s1, None);
    assert s1.stack[..1] == [RootState([])];
    assert Dispatch("a", s1) == Next(s2, None);
    assert Quantifier("a", 1) == (Once, 1);
    assert s2.stack[..1] == [RootState([])];
    var none: seq<Expr> := [];
    assert none + [a] == [a];
    assert [RootState([])][..0] + [RootState([a])] == [RootState([a])];
    assert AppendChild(PState([RootState([])], 1, 1), a) == Next(s3, None);
    assert Dispatch("a", s2) == Next(s3, None);
  }

  /** `()` is numbered, then raises at the `)`. */
  lemma EmptyGroupRaises()
    ensures Parse("()").result == Raise(EmptyGroup(1))
  {
    var s0 := PState([RootState([])], 1, 0);
    var s1 := PState([RootState([]), UnknownState], 1, 0);
    var s2 := PState([RootState([]), ConjunctionState([], true, [])], 1, 1);
    var s3 := PState([RootState([]), ConjunctionState([], false, [Index(1)])], 2, 1);
    assert [] + [RootState([])] == [RootState([])];
    assert Dispatch("()", s0) == Next(s1, None);
    assert s1.stack[..1] == [RootState([])];
    assert Dispatch("()", s1) == Next(s2, None);
    assert NamePrefix("()", 1) == None;
    assert s2.stack[..1] == [RootState([])];
    assert Dispatch("()", s2) == Next(s3, Some(EmptyGroup(1)));
  }

  /** A leading `|` has no left operand. */
  lemma MissingOperandRaises()
    ensures Parse("|a").result == Raise(MissingOperand(0))
  {
    var s0 := PState([RootState([])], 1, 0);
    var s1 := PState([RootState([]), UnknownState], 1, 0);
    assert [] + [RootState([])] == [RootState([])];
    assert Dispatch("|a", s0) == Next(s1, None);
    assert s1.stack[..1] == [RootState([])];
    assert Dispatch("|a", s1) == Next(s0, Some(MissingOperand(0)));
  }

  /** The pattern ends inside a group: two states are left and `parse` raises. */
  lemma OpenGroupRaises()
    ensures Parse("(a").result == Raise(Unclosed)
  {
    var a := Expr(Character('a'), 1, Finite(1), true, None);
    var r := RootState([]);
    var s0 := PState([r], 1, 0);
    var s1 := PState([r, UnknownState], 1, 0);
    var s2 := PState([r, ConjunctionState([], true, [])], 1, 1);
    var s3 := PState([r, ConjunctionState([], false, [Index(1)]), UnknownState], 2, 1);
    var s4 := PState([r, ConjunctionState([], false, [Index(1)]), CharacterState], 2, 1);
    var s5 := PState([r, ConjunctionState([a], false, [Index(1)])], 2, 2);
    assert [] + [r] == [r];
    assert Dispatch("(a", s0) == Next(s1, None);
    assert s1.stack[..1] == [r];
    assert Dispatch("(a", s1) == Next(s2, None);
    assert NamePrefix("(a", 1) == None;
    assert s2.stack[..1] == [r];
    assert Dispatch("(a", s2) == Next(s3, None);
    assert s3.stack[..2] == s2.stack[..1] + [ConjunctionState([], false, [Index(1)])];
    assert Dispatch("(a", s3) == Next(s4, None);
    assert Quantifier("(a", 2) == (Once, 2);
    assert s4.stack[..2] == [r, ConjunctionState([], false, [Index(1)])];
    var c := ConjunctionState([], false, [Index(1)]);
    var none: seq<Expr> := [];
    assert none + [a] == [a];
    assert [r, c][..1] + [ConjunctionState([a], false, [Index(1)])] == s5.stack;
    assert AppendChild(PState([r, c], 2, 2), a) == Next(s5, None);
    assert Dispatch("(a", s4) == Next(s5, None);
    assert Loop("(a", s5) == Next(s5, None);
    assert Loop("(a", s4) == Next(s5, None);
    assert Loop("(a", s3) == Next(s5, None);
    assert Loop("(a", s2) == Next(s5, None);
    assert Loop("(a", s1) == Next(s5, None);
    assert Loop("(a", s0) == Next(s5, None);
  }

  /** As written: `")"` raises and leaves the root state behind; `"a"` compiles on a fresh parser
      but not on the one the failed call left. */
  lemma StrayCloseBlocksNextParse()
    ensures Parse(")").result.Raise?
    ensures Parse("a").result.Ok?
    ensures !ParseOnStack("a", Parse(")").stack).result.Ok?
  {
    StrayCloseRaises();
    SingleCharacter();
    OneFailureBlocksAll(")", "a");
  }
}
