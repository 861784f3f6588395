/** Where a reevaluated group repetition starts (`_reevaluate_previous_repetition` in
  * cre/expression.py): the earliest start among the children's current attempts, or the cursor
  * when no child has a repetition.
  */
module GroupStart {
  import opened Base
  import opened Captures
  import opened Engine

  /** The start is the minimum of the cursor and of the first repetition start of every child
      that has a current repetition. */
  lemma {:induction false} EarliestStartIsMinimum(children: seq<State>, start: nat)
    ensures EarliestStart(children, start) <= start
    ensures forall i :: 0 <= i < |children| && HasCurrentRepetition(children[i]) ==>
      EarliestStart(children, start) <= Top(children[i])[0].start
    ensures EarliestStart(children, start) == start ||
      exists i :: 0 <= i < |children| && HasCurrentRepetition(children[i]) &&
        EarliestStart(children, start) == Top(children[i])[0].start
  {
    if children != [] {
      var init := children[..|children| - 1];
      EarliestStartIsMinimum(init, start);
      var r := EarliestStart(children, start);
      forall i | 0 <= i < |children| && HasCurrentRepetition(children[i])
        ensures r <= Top(children[i])[0].start
      {
        if i < |init| {
          assert children[i] == init[i];
        }
      }
      if r != start && r != EarliestStart(init, start) {
        assert r == Top(children[|children| - 1])[0].start;
      } else if r != start {
        var j :| 0 <= j < |init| && HasCurrentRepetition(init[j]) &&
          EarliestStart(init, start) == Top(init[j])[0].start;
        assert children[j] == init[j];
      }
    }
  }

  const A := Expr(Character('a'), 1, Infinite, true, None)
  const G := Expr(Group([A]), 1, Finite(1), true, Some([Index(1)]))

  /** `(a+)` after matching "aaa": reevaluation gives the child one repetition fewer, and the
      group repetition becomes (0, 2) -- it still starts where the child's attempt starts. As
      written, the start is taken from the child's last repetition and becomes 1. */
  lemma ReevaluatedGroupStart()
    ensures
      var child := State([[Rep(0, 1, None), Rep(1, 2, None), Rep(2, 3, None)]], []);
      var s := State([[Rep(0, 3, None)]], [child]);
      var c := Ctx("aaa", 3, map[Index(1) := [Span(0, 3)]]);
      var child2 := State([[Rep(0, 1, None), Rep(1, 2, None)]], []);
      && Reevaluate(G, s, c, 3) == Ok(Out(true, State([[Rep(0, 2, None)]], [child2]), c.(progress := 2)))
      && EarliestStartAsWritten([child2], 2) == 1
  {
    var r0, r1, r2 := Rep(0, 1, None), Rep(1, 2, None), Rep(2, 3, None);
    var child := State([[r0, r1, r2]], []);
    var s := State([[Rep(0, 3, None)]], [child]);
    var c := Ctx("aaa", 3, map[Index(1) := [Span(0, 3)]]);
    var child2 := State([[r0, r1]], []);
    var s1 := State([[]], [child]);
    assert SetTop(s, Top(s)[..0]) == s1;
    assert [r0, r1, r2][..2] == [r0, r1];
    assert SetTop(child, [r0, r1]) == child2;
    assert LeafRetryBody(A, child, c) == Ok(Out(true, child2, c.(progress := 2)));
    assert Retry(A, child, c, 1) == Ok(Out(true, child2, c.(progress := 2)));
    assert WithChild(s1, 0, child2) == State([[]], [child2]);
    assert RetryOneChild([A], s1, 0, c, 2) == Ok(Out(true, State([[]], [child2]), c.(progress := 2)));
    assert ReevaluatedRep([child2], 2) == Rep(0, 2, None);
    var s2 := State([[]], [child2]);
    assert Top(s2) + [Rep(0, 2, None)] == [Rep(0, 2, None)];
    assert s2.attempts[..|s2.attempts| - 1] + [[Rep(0, 2, None)]] == [[Rep(0, 2, None)]];
    assert AppendRep(s2, Rep(0, 2, None)) == State([[Rep(0, 2, None)]], [child2]);
  }
}
