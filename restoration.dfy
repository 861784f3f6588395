/** What the three-call protocol (`matches`, `retry`, `undo`) of every node of cre/expression.py
  * guarantees, groups and alternations included: a node that succeeded is "at rest" -- its
  * current attempt is a row of children at rest for every repetition, each starting where the
  * previous one ended -- and every call that fails, and every `undo`, puts the node, its children
  * and the cursor back exactly where the attempt began. Alongside, every named node keeps exactly
  * the last span of each of its attempts that has a repetition on its capture stacks, so a failed
  * call also leaves the capture table exactly as it was.
  */
module Restoration {
  import opened Base
  import opened Captures
  import opened Engine
  import opened Publication
  import opened LeafFacts

  // ---------------------------------------------------------------------------
  // Nodes at rest

  /** `reps` are spans laid end to end from `from`. */
  predicate Contiguous(from: nat, reps: seq<Rep>) {
    && (reps != [] ==> reps[0].start == from)
    && (forall i :: 0 < i < |reps| ==> reps[i].start == reps[i - 1].end)
    && (forall i :: 0 <= i < |reps| ==> reps[i].start <= reps[i].end)
  }

  /** How a composite node reached its state: for every repetition of its current attempt, the
      cursor before each child, the children's states afterwards and how each child got there. */
  datatype Trace = Run | Rows(rows: seq<Row>)
  datatype Row = Row(pos: seq<nat>, after: seq<State>, traces: seq<Trace>)

  function LastPos(row: Row): nat {
    if row.pos == [] then 0 else row.pos[|row.pos| - 1]
  }

  /** The children's states before row `j`. */
  function Before(b: seq<State>, rows: seq<Row>, j: nat): seq<State>
    requires j <= |rows|
  {
    if j == 0 then b else rows[j - 1].after
  }

  /** The cursor before row `j`. */
  function Start(p0: nat, rows: seq<Row>, j: nat): nat
    requires j <= |rows|
  {
    if j == 0 then p0 else LastPos(rows[j - 1])
  }

  /** Node `e`, whose `matches` began in state `s0` at cursor `p0`, is in state `s` at cursor `p`:
      one attempt was pushed, and its repetitions are consecutive leaf steps (a leaf) or rows of
      children at rest (a group or an alternation), the cursor at the end of the last one. */
  ghost predicate Rest(e: Expr, s0: State, p0: nat, s: State, p: nat, w: Trace)
    decreases e, 5
  {
    && s.attempts == s0.attempts + [Top(s)]
    && p0 <= p
    && if IsLeaf(e) then
         w == Run && s.children == s0.children && Contiguous(p0, Top(s)) && p == End(p0, Top(s))
       else
         w.Rows? && Grid(e, s0.children, p0, Top(s), s.children, p, w.rows)
  }

  ghost predicate Grid(e: Expr, b: seq<State>, p0: nat, reps: seq<Rep>, kids: seq<State>, p: nat, rows: seq<Row>)
    requires !IsLeaf(e)
    decreases e, 4
  {
    RowsOk(e, b, p0, reps, rows) && kids == Before(b, rows, |rows|) && p == Start(p0, rows, |rows|)
  }

  /** Every repetition `reps[j]` is row `j`, run from the children and cursor row `j - 1` left. */
  ghost predicate RowsOk(e: Expr, b: seq<State>, p0: nat, reps: seq<Rep>, rows: seq<Row>)
    requires !IsLeaf(e)
    decreases e, 3
  {
    && |reps| == |rows|
    && forall j {:trigger reps[j]} :: 0 <= j < |rows| ==> RowOk(e, Before(b, rows, j), Start(p0, rows, j), rows[j], reps[j])
  }

  /** One repetition from children `b` and cursor `pb`: a group ran every child in order, each
      from where the previous one stopped; an alternation ran the chosen child only. */
  ghost predicate RowOk(e: Expr, b: seq<State>, pb: nat, row: Row, rep: Rep)
    requires !IsLeaf(e)
    decreases e, 2
  {
    var ch := e.kind.children;
    if e.kind.Group? then
      && RowPart(e, b, row.after, row.pos, row.traces, |ch|)
      && row.pos[0] == pb && rep == Rep(pb, row.pos[|ch|], None)
    else
      && |b| == |ch| && |row.after| == |ch| && |row.pos| == 2 && |row.traces| == 1
      && row.pos[0] == pb && rep == Rep(pb, row.pos[1], rep.choice)
      && rep.choice.Some? && rep.choice.value < |ch|
      && (forall j :: 0 <= j < |ch| && j != rep.choice.value ==> row.after[j] == b[j])
      && Rest(ch[rep.choice.value], b[rep.choice.value], pb, row.after[rep.choice.value], row.pos[1], row.traces[0])
  }

  /** The first `i` children of a group have run, child `j` from cursor `pos[j]` to `pos[j + 1]`;
      the others are as they were. */
  ghost predicate RowPart(e: Expr, b: seq<State>, kids: seq<State>, pos: seq<nat>, traces: seq<Trace>, i: nat)
    requires e.kind.Group?
    decreases e, 1
  {
    var ch := e.kind.children;
    && |b| == |ch| && |kids| == |ch| && i <= |ch| && |pos| == i + 1 && |traces| == i
    && (forall j :: i <= j < |ch| ==> kids[j] == b[j])
    && (forall j {:trigger traces[j]} :: 0 <= j < i ==> Rest(ch[j], b[j], pos[j], kids[j], pos[j + 1], traces[j]))
  }

  // ---------------------------------------------------------------------------
  // The capture table

  /** What a node has published: the last span of every attempt that has a repetition. */
  function Pubs(attempts: seq<seq<Rep>>): seq<Span> {
    if attempts == [] then [] else Pubs(attempts[..|attempts| - 1]) + PubOf(attempts[|attempts| - 1])
  }

  /** What one attempt publishes: its last span, if it has a repetition. */
  function PubOf(top: seq<Rep>): seq<Span> {
    if top == [] then [] else [Bounds(top[|top| - 1])]
  }

  /** `k` is a name of `e` or of one of its descendants. */
  ghost predicate Owns(e: Expr, k: Id)
    decreases e, 1
  {
    (e.names.Some? && k in e.names.value) || OwnsKid(e, k)
  }

  ghost predicate OwnsKid(e: Expr, k: Id)
    decreases e, 0
  {
    exists j :: 0 <= j < |Children(e)| && Owns(Children(e)[j], k)
  }

  /** No identifier names two nodes of the tree, nor one node twice. */
  ghost predicate Unique(e: Expr)
    decreases e
  {
    var ch := Children(e);
    && (e.names.Some? ==> Distinct(e.names.value))
    && (forall k :: e.names.Some? && k in e.names.value ==> !OwnsKid(e, k))
    && (forall i, j, k :: 0 <= i < j < |ch| && Owns(ch[i], k) ==> !Owns(ch[j], k))
    && (forall j :: 0 <= j < |ch| ==> Unique(ch[j]))
  }

  /** Under each name of `e`, table `t` holds what `g` holds with `e`'s publications on top. */
  ghost predicate OwnPubs(e: Expr, pubs: seq<Span>, t: Table, g: Table) {
    e.names.Some? ==> forall k :: k in e.names.value ==> Stack(t, k) == Stack(g, k) + pubs
  }

  /** Every node of the tree in state `s` has published exactly its own spans over `g`. */
  ghost predicate TableInv(e: Expr, s: State, t: Table, g: Table)
    decreases e
  {
    && |s.children| == |Children(e)|
    && OwnPubs(e, Pubs(s.attempts), t, g)
    && forall j {:trigger TableInv(Children(e)[j], s.children[j], t, g)} :: 0 <= j < |Children(e)| ==> TableInv(Children(e)[j], s.children[j], t, g)
  }

  ghost predicate KidsInv(e: Expr, kids: seq<State>, t: Table, g: Table) {
    |kids| == |Children(e)| && forall j {:trigger TableInv(Children(e)[j], kids[j], t, g)} :: 0 <= j < |Children(e)| ==> TableInv(Children(e)[j], kids[j], t, g)
  }

  /** `t'` differs from `t` only under identifiers of `e`'s subtree. */
  ghost predicate Untouched(e: Expr, t: Table, t': Table) {
    forall k :: !Owns(e, k) ==> Stack(t', k) == Stack(t, k)
  }

  /** `t'` differs from `t` only under identifiers of `e`'s descendants. */
  ghost predicate KidsUntouched(e: Expr, t: Table, t': Table) {
    forall k :: !OwnsKid(e, k) ==> Stack(t', k) == Stack(t, k)
  }

  /** `t'` differs from `t` only under `e`'s own names. */
  ghost predicate OnlyNames(e: Expr, t: Table, t': Table) {
    forall k :: !(e.names.Some? && k in e.names.value) ==> Stack(t', k) == Stack(t, k)
  }

  // ---------------------------------------------------------------------------
  // Helpers: the table

  lemma PubsSnoc(a: seq<seq<Rep>>, x: seq<Rep>)
    ensures Pubs(a + [x]) == Pubs(a) + PubOf(x)
  {
    assert (a + [x])[..|a|] == a;
  }

  lemma {:induction false} TableInvFrame(e: Expr, s: State, t: Table, t': Table, g: Table)
    requires TableInv(e, s, t, g)
    requires forall k :: Owns(e, k) ==> Stack(t', k) == Stack(t, k)
    ensures TableInv(e, s, t', g)
    decreases e
  {
    var ch := Children(e);
    forall j | 0 <= j < |ch| ensures TableInv(ch[j], s.children[j], t', g) {
      forall k | Owns(ch[j], k) ensures Stack(t', k) == Stack(t, k) {
        assert OwnsKid(e, k);
      }
      TableInvFrame(ch[j], s.children[j], t, t', g);
    }
  }

  lemma {:induction false} TableInvAgree(e: Expr, s: State, t: Table, t': Table, g: Table)
    requires TableInv(e, s, t, g) && TableInv(e, s, t', g)
    ensures forall k :: Owns(e, k) ==> Stack(t', k) == Stack(t, k)
    decreases e
  {
    var ch := Children(e);
    forall k | Owns(e, k) ensures Stack(t', k) == Stack(t, k) {
      if !(e.names.Some? && k in e.names.value) {
        assert OwnsKid(e, k);
        var j :| 0 <= j < |ch| && Owns(ch[j], k);
        TableInvAgree(ch[j], s.children[j], t, t', g);
      }
    }
  }

  /** Two well-formed tables that agree outside `e`'s subtree and on which the same state of
      `e` has published the same spans over the same base are the same table. */
  lemma NodeRestored(e: Expr, s: State, t: Table, t': Table, g: Table)
    requires WellFormed(t) && WellFormed(t') && TableInv(e, s, t, g) && TableInv(e, s, t', g)
    requires Untouched(e, t, t')
    ensures t' == t
  {
    TableInvAgree(e, s, t, t', g);
    forall k ensures Stack(t', k) == Stack(t, k) {
      if !Owns(e, k) { }
    }
    TableExtensionality(t', t);
  }

  lemma KidsRestored(e: Expr, kids: seq<State>, t: Table, t': Table, g: Table)
    requires WellFormed(t) && WellFormed(t') && KidsInv(e, kids, t, g) && KidsInv(e, kids, t', g)
    requires KidsUntouched(e, t, t')
    ensures t' == t
  {
    var ch := Children(e);
    forall k ensures Stack(t', k) == Stack(t, k) {
      if OwnsKid(e, k) {
        var j :| 0 <= j < |ch| && Owns(ch[j], k);
        TableInvAgree(ch[j], kids[j], t, t', g);
      }
    }
    TableExtensionality(t', t);
  }

  /** A child's call, which changes only its own subtree's stacks, leaves every sibling's
      publications intact. */
  lemma KidsStep(e: Expr, kids: seq<State>, j: nat, x: State, t: Table, t': Table, g: Table)
    requires Unique(e) && KidsInv(e, kids, t, g) && j < |Children(e)|
    requires TableInv(Children(e)[j], x, t', g) && Untouched(Children(e)[j], t, t')
    ensures KidsInv(e, kids[j := x], t', g) && KidsUntouched(e, t, t')
  {
    var ch := Children(e);
    forall i | 0 <= i < |ch| ensures TableInv(ch[i], kids[j := x][i], t', g) {
      if i != j {
        forall k | Owns(ch[i], k) ensures Stack(t', k) == Stack(t, k) {
          if i < j { assert !Owns(ch[j], k); } else { assert !Owns(ch[i], k) || !Owns(ch[j], k); }
        }
        TableInvFrame(ch[i], kids[i], t, t', g);
      }
    }
    forall k | !OwnsKid(e, k) ensures Stack(t', k) == Stack(t, k) {
      assert !Owns(ch[j], k);
    }
  }

  /** A change under `e`'s own names keeps its children's publications. */
  lemma OwnStep(e: Expr, kids: seq<State>, t: Table, t': Table, g: Table)
    requires Unique(e) && KidsInv(e, kids, t, g) && OnlyNames(e, t, t')
    ensures KidsInv(e, kids, t', g) && Untouched(e, t, t')
  {
    var ch := Children(e);
    forall i | 0 <= i < |ch| ensures TableInv(ch[i], kids[i], t', g) {
      forall k | Owns(ch[i], k) ensures Stack(t', k) == Stack(t, k) {
        assert OwnsKid(e, k);
      }
      TableInvFrame(ch[i], kids[i], t, t', g);
    }
  }

  /** Children's calls keep a node's own publications. */
  lemma KidsKeepOwn(e: Expr, pubs: seq<Span>, t: Table, t': Table, g: Table)
    requires Unique(e) && OwnPubs(e, pubs, t, g) && KidsUntouched(e, t, t')
    ensures OwnPubs(e, pubs, t', g) && Untouched(e, t, t')
  {
  }

  lemma NamesPush(ns: seq<Id>, t: Table, v: Span)
    requires Distinct(ns) && WellFormed(t)
    ensures WellFormed(PushAll(t, ns, v))
    ensures forall k :: Stack(PushAll(t, ns, v), k) == Stack(t, k) + (if k in ns then [v] else [])
  {
    PushAllStacks(t, ns, v);
    PushAllWellFormed(t, ns, v);
    forall k ensures Stack(PushAll(t, ns, v), k) == Stack(t, k) + (if k in ns then [v] else []) {
      CountDistinct(ns, k);
      assert Repeat(v, 1) == [v];
    }
  }

  function Popped(t: Table, ns: seq<Id>, k: Id): seq<Span> {
    if k in ns && Stack(t, k) != [] then Stack(t, k)[..|Stack(t, k)| - 1] else Stack(t, k)
  }

  lemma NamesPop(ns: seq<Id>, t: Table)
    requires Distinct(ns) && WellFormed(t) && forall k :: k in ns ==> Stack(t, k) != []
    ensures PopAll(t, ns).Ok? && WellFormed(PopAll(t, ns).value)
    ensures forall k :: Stack(PopAll(t, ns).value, k) == Popped(t, ns, k)
  {
    PopAllStacks(t, ns);
    assert Poppable(t, ns) by {
      forall i | 0 <= i < |ns| ensures Count(ns, ns[i]) <= |Stack(t, ns[i])| {
        CountDistinct(ns, ns[i]);
      }
    }
    forall k ensures Stack(PopAll(t, ns).value, k) == Popped(t, ns, k) {
      CountDistinct(ns, k);
    }
  }

  function Overridden(t: Table, ns: seq<Id>, v: Span, k: Id): seq<Span> {
    if k in ns && Stack(t, k) != [] then Stack(t, k)[..|Stack(t, k)| - 1] + [v] else Stack(t, k)
  }

  lemma NamesOverride(ns: seq<Id>, t: Table, v: Span)
    requires Distinct(ns) && WellFormed(t) && forall k :: k in ns ==> Stack(t, k) != []
    ensures OverrideAll(t, ns, v).Ok? && WellFormed(OverrideAll(t, ns, v).value)
    ensures forall k :: Stack(OverrideAll(t, ns, v).value, k) == Overridden(t, ns, v, k)
  {
    NamesPresent(ns, t);
    OverrideAllStacks(t, ns, v);
    var r := OverrideAll(t, ns, v).value;
    forall k ensures Stack(r, k) == Overridden(t, ns, v, k) {
      OverriddenAt(t, r, ns, v, k);
    }
  }

  lemma NamesPresent(ns: seq<Id>, t: Table)
    requires forall k :: k in ns ==> Stack(t, k) != []
    ensures forall i :: 0 <= i < |ns| ==> ns[i] in t
  {
    forall i | 0 <= i < |ns| ensures ns[i] in t {
      assert Stack(t, ns[i]) != [];
    }
  }

  lemma OverriddenAt(t: Table, r: Table, ns: seq<Id>, v: Span, k: Id)
    requires WellFormed(t) && OverriddenFrom(r, t, ns, v) && (k in ns ==> Stack(t, k) != [])
    ensures Stack(r, k) == Overridden(t, ns, v, k)
  {
    if k in t {
      assert k in r;
      if k in ns {
        assert r[k] == r[k][..|t[k]| - 1] + [r[k][|t[k]| - 1]];
      }
    } else {
      assert k !in r;
    }
  }

  /** A successful `matches` publishes the new attempt's last span, if any, on `e`'s names. */
  lemma PublishStep(e: Expr, below: seq<Span>, top: seq<Rep>, t: Table, g: Table)
    requires (e.names.Some? ==> Distinct(e.names.value)) && WellFormed(t) && OwnPubs(e, below, t, g)
    ensures WellFormed(CapturesOnMatch(e.names, top, t))
    ensures OwnPubs(e, below + PubOf(top), CapturesOnMatch(e.names, top, t), g)
    ensures OnlyNames(e, t, CapturesOnMatch(e.names, top, t))
  {
    if e.names.Some? && top != [] {
      var ns, v := e.names.value, Bounds(top[|top| - 1]);
      NamesPush(ns, t, v);
      assert PubOf(top) == [v];
      forall k | k in ns ensures Stack(PushAll(t, ns, v), k) == Stack(g, k) + (below + PubOf(top)) {
        assert Stack(g, k) + below + [v] == Stack(g, k) + (below + [v]);
      }
    } else if top == [] {
      assert below + PubOf(top) == below;
    }
  }

  /** Popping the names of a node whose stacks carry one span over `below`. */
  lemma PopPub(ns: seq<Id>, t: Table, g: Table, below: seq<Span>, x: Span)
    requires Distinct(ns) && WellFormed(t)
    requires forall k :: k in ns ==> Stack(t, k) == Stack(g, k) + (below + [x])
    ensures PopAll(t, ns).Ok? && WellFormed(PopAll(t, ns).value)
    ensures forall k :: k in ns ==> Stack(PopAll(t, ns).value, k) == Stack(g, k) + below
    ensures forall k :: k !in ns ==> Stack(PopAll(t, ns).value, k) == Stack(t, k)
  {
    NamesPop(ns, t);
    var r := PopAll(t, ns).value;
    forall k | k in ns ensures Stack(r, k) == Stack(g, k) + below {
      assert Stack(r, k) == Popped(t, ns, k);
      assert Stack(t, k) == (Stack(g, k) + below) + [x];
    }
    forall k | k !in ns ensures Stack(r, k) == Stack(t, k) {
      assert Stack(r, k) == Popped(t, ns, k);
    }
  }

  /** Overriding the names of a node whose stacks carry one span over `below`. */
  lemma OverridePub(ns: seq<Id>, t: Table, g: Table, below: seq<Span>, x: Span, v: Span)
    requires Distinct(ns) && WellFormed(t)
    requires forall k :: k in ns ==> Stack(t, k) == Stack(g, k) + (below + [x])
    ensures OverrideAll(t, ns, v).Ok? && WellFormed(OverrideAll(t, ns, v).value)
    ensures forall k :: k in ns ==> Stack(OverrideAll(t, ns, v).value, k) == Stack(g, k) + below + [v]
    ensures forall k :: k !in ns ==> Stack(OverrideAll(t, ns, v).value, k) == Stack(t, k)
  {
    NamesOverride(ns, t, v);
    var r := OverrideAll(t, ns, v).value;
    forall k | k in ns ensures Stack(r, k) == Stack(g, k) + below + [v] {
      assert Stack(r, k) == Overridden(t, ns, v, k);
      assert Stack(t, k) == (Stack(g, k) + below) + [x];
    }
    forall k | k !in ns ensures Stack(r, k) == Stack(t, k) {
      assert Stack(r, k) == Overridden(t, ns, v, k);
    }
  }

  /** A successful `retry` moves the publication of the current attempt from `prior` to `top`. */
  lemma RepublishStep(e: Expr, below: seq<Span>, prior: seq<Rep>, top: seq<Rep>, t: Table, g: Table)
    requires (e.names.Some? ==> Distinct(e.names.value)) && WellFormed(t) && OwnPubs(e, below + PubOf(prior), t, g)
    ensures CapturesOnRetry(e.names, |prior|, top, t).Ok?
    ensures WellFormed(CapturesOnRetry(e.names, |prior|, top, t).value)
    ensures OwnPubs(e, below + PubOf(top), CapturesOnRetry(e.names, |prior|, top, t).value, g)
    ensures OnlyNames(e, t, CapturesOnRetry(e.names, |prior|, top, t).value)
  {
    if e.names.Some? {
      if |prior| == 0 {
        assert below + PubOf(prior) == below;
        PublishStep(e, below, top, t, g);
        assert CapturesOnRetry(e.names, |prior|, top, t) == Ok(CapturesOnMatch(e.names, top, t));
      } else if top == [] {
        assert below + PubOf(top) == below;
        WithdrawStep(e, below, true, Bounds(prior[|prior| - 1]), t, g);
        assert CapturesOnRetry(e.names, |prior|, top, t) == CapturesOnUndo(e.names, true, t);
      } else {
        RepublishOverride(e, below, Bounds(prior[|prior| - 1]), Bounds(top[|top| - 1]), t, g);
      }
    }
  }

  /** A retry that keeps a repetition overwrites the published span on `e`'s names. */
  lemma RepublishOverride(e: Expr, below: seq<Span>, x: Span, v: Span, t: Table, g: Table)
    requires e.names.Some? && Distinct(e.names.value) && WellFormed(t) && OwnPubs(e, below + [x], t, g)
    ensures OverrideAll(t, e.names.value, v).Ok?
    ensures WellFormed(OverrideAll(t, e.names.value, v).value)
    ensures OwnPubs(e, below + [v], OverrideAll(t, e.names.value, v).value, g)
    ensures OnlyNames(e, t, OverrideAll(t, e.names.value, v).value)
  {
    OverridePub(e.names.value, t, g, below, x, v);
    var r := OverrideAll(t, e.names.value, v).value;
    forall k | k in e.names.value ensures Stack(r, k) == Stack(g, k) + (below + [v]) {
      assert Stack(g, k) + below + [v] == Stack(g, k) + (below + [v]);
    }
  }

  /** `undo` withdraws what the discarded attempt had published. */
  lemma WithdrawStep(e: Expr, below: seq<Span>, published: bool, sp: Span, t: Table, g: Table)
    requires (e.names.Some? ==> Distinct(e.names.value)) && WellFormed(t)
    requires OwnPubs(e, below + (if published then [sp] else []), t, g)
    ensures CapturesOnUndo(e.names, published, t).Ok?
    ensures WellFormed(CapturesOnUndo(e.names, published, t).value)
    ensures OwnPubs(e, below, CapturesOnUndo(e.names, published, t).value, g)
    ensures OnlyNames(e, t, CapturesOnUndo(e.names, published, t).value)
  {
    if e.names.Some? && published {
      PopPub(e.names.value, t, g, below, sp);
    }
  }

  // ---------------------------------------------------------------------------
  // Helpers: rows

  lemma {:induction false} ContiguousMono(from: nat, reps: seq<Rep>)
    requires Contiguous(from, reps)
    ensures forall i :: 0 <= i < |reps| ==> from <= reps[i].start
    ensures from <= End(from, reps)
  {
    if reps != [] {
      var r := reps[..|reps| - 1];
      assert Contiguous(from, r) by {
        forall i | 0 < i < |r| ensures r[i].start == r[i - 1].end {
          assert r[i] == reps[i] && r[i - 1] == reps[i - 1];
        }
      }
      ContiguousMono(from, r);
      forall i | 0 <= i < |reps| ensures from <= reps[i].start {
        if i < |r| { assert reps[i] == r[i]; }
      }
    }
  }

  /** A node at rest: its attempt starts at the cursor it began from, and the cursor is at the end
      of the attempt's last repetition, or where it began when there is none. */
  lemma RestEnds(e: Expr, s0: State, p0: nat, s: State, p: nat, w: Trace)
    requires Rest(e, s0, p0, s, p, w)
    ensures s.attempts != []
    ensures HasCurrentRepetition(s) ==> Top(s)[0].start == p0 && LastRep(s).end == p
    ensures !HasCurrentRepetition(s) ==> p == p0
    decreases e, 4
  {
    if !IsLeaf(e) {
      GridEnds(e, s0.children, p0, Top(s), s.children, p, w.rows);
    }
  }

  lemma GridEnds(e: Expr, b: seq<State>, p0: nat, reps: seq<Rep>, kids: seq<State>, p: nat, rows: seq<Row>)
    requires !IsLeaf(e) && Grid(e, b, p0, reps, kids, p, rows)
    ensures reps != [] ==> reps[0].start == p0 && reps[|reps| - 1].end == p
    ensures reps == [] ==> p == p0
    decreases e, 3
  {
    if rows != [] {
      var k := |rows| - 1;
      RowMono(e, Before(b, rows, 0), Start(p0, rows, 0), rows[0], reps[0]);
      RowMono(e, Before(b, rows, k), Start(p0, rows, k), rows[k], reps[k]);
    }
  }

  /** Scanning a group row left to right: the cursor never moves back, the end of the last child
      with a repetition is the cursor reached, and the earliest start of a child's attempt is the
      row's first cursor. */
  lemma {:induction false} RowScan(e: Expr, b: seq<State>, kids: seq<State>, pos: seq<nat>, traces: seq<Trace>, m: nat, d: nat, x: nat)
    requires e.kind.Group? && RowPart(e, b, kids, pos, traces, |e.kind.children|) && m <= |e.kind.children|
    requires pos[0] <= x
    ensures pos[0] <= pos[m]
    ensures (forall j :: 0 <= j < m ==> !HasCurrentRepetition(kids[j])) ==>
      pos[m] == pos[0] && LastEnd(kids[..m], d) == d && EarliestStart(kids[..m], x) == x
    ensures (exists j :: 0 <= j < m && HasCurrentRepetition(kids[j])) ==>
      LastEnd(kids[..m], d) == pos[m] && EarliestStart(kids[..m], x) == pos[0]
    decreases e, 0, m
  {
    if m > 0 {
      var ch := e.kind.children;
      RowScan(e, b, kids, pos, traces, m - 1, d, x);
      assert kids[..m][..m - 1] == kids[..m - 1];
      assert kids[..m][m - 1] == kids[m - 1];
      assert Rest(ch[m - 1], b[m - 1], pos[m - 1], kids[m - 1], pos[m], traces[m - 1]);
      RestEnds(ch[m - 1], b[m - 1], pos[m - 1], kids[m - 1], pos[m], traces[m - 1]);
      if !HasCurrentRepetition(kids[m - 1]) {
        forall j | 0 <= j < m && HasCurrentRepetition(kids[j]) ensures j < m - 1 { }
      } else if forall j :: 0 <= j < m - 1 ==> !HasCurrentRepetition(kids[j]) {
      } else {
      }
    }
  }

  lemma RowEnds(e: Expr, b: seq<State>, kids: seq<State>, pos: seq<nat>, traces: seq<Trace>)
    requires e.kind.Group? && RowPart(e, b, kids, pos, traces, |e.kind.children|)
    ensures pos[0] <= pos[|e.kind.children|]
    ensures LastEnd(kids, pos[0]) == pos[|e.kind.children|]
    ensures EarliestStart(kids, pos[|e.kind.children|]) == pos[0]
    decreases e, 1, 0
  {
    var n := |e.kind.children|;
    RowScan(e, b, kids, pos, traces, n, pos[0], pos[0]);
    RowScan(e, b, kids, pos, traces, n, pos[0], pos[n]);
    assert kids[..n] == kids;
  }

  /** A row never moves the cursor back. */
  lemma RowMono(e: Expr, b: seq<State>, pb: nat, row: Row, rep: Rep)
    requires !IsLeaf(e) && RowOk(e, b, pb, row, rep)
    ensures pb <= LastPos(row) && rep.start == pb && rep.end == LastPos(row)
    decreases e, 2
  {
    if e.kind.Group? {
      RowEnds(e, b, row.after, row.pos, row.traces);
    }
  }

  lemma {:induction false} StartMono(e: Expr, b: seq<State>, p0: nat, reps: seq<Rep>, rows: seq<Row>, j: nat)
    requires !IsLeaf(e) && RowsOk(e, b, p0, reps, rows) && j <= |rows|
    ensures p0 <= Start(p0, rows, j)
  {
    if j > 0 {
      StartMono(e, b, p0, reps, rows, j - 1);
      RowMono(e, Before(b, rows, j - 1), Start(p0, rows, j - 1), rows[j - 1], reps[j - 1]);
    }
  }

  /** Appending a row to a grid. */
  lemma GridSnoc(e: Expr, b: seq<State>, p0: nat, reps: seq<Rep>, rows: seq<Row>, row: Row, rep: Rep)
    requires !IsLeaf(e) && RowsOk(e, b, p0, reps, rows)
    requires RowOk(e, Before(b, rows, |rows|), Start(p0, rows, |rows|), row, rep)
    ensures RowsOk(e, b, p0, reps + [rep], rows + [row])
    ensures Before(b, rows + [row], |rows| + 1) == row.after
    ensures Start(p0, rows + [row], |rows| + 1) == LastPos(row)
    ensures p0 <= LastPos(row)
  {
    var rows', reps' := rows + [row], reps + [rep];
    forall j | 0 <= j < |rows'|
      ensures RowOk(e, Before(b, rows', j), Start(p0, rows', j), rows'[j], reps'[j])
    {
      SnocAt(b, p0, reps, rows, row, rep, j);
    }
    StartMono(e, b, p0, reps, rows, |rows|);
    RowMono(e, Before(b, rows, |rows|), Start(p0, rows, |rows|), row, rep);
  }

  lemma SnocAt(b: seq<State>, p0: nat, reps: seq<Rep>, rows: seq<Row>, row: Row, rep: Rep, j: nat)
    requires |reps| == |rows| && j <= |rows|
    ensures Before(b, rows + [row], j) == Before(b, rows, j) && Start(p0, rows + [row], j) == Start(p0, rows, j)
    ensures (rows + [row])[j] == (if j < |rows| then rows[j] else row)
    ensures (reps + [rep])[j] == (if j < |rows| then reps[j] else rep)
  {
  }

  /** Row `j` of a group grid: every child ran, from the cursor before the row to the one after. */
  lemma GroupRowAt(e: Expr, b: seq<State>, p0: nat, reps: seq<Rep>, rows: seq<Row>, j: nat)
    requires e.kind.Group? && RowsOk(e, b, p0, reps, rows) && j < |rows|
    ensures RowPart(e, Before(b, rows, j), rows[j].after, rows[j].pos, rows[j].traces, |e.kind.children|)
    ensures rows[j].pos[0] == Start(p0, rows, j) && Start(p0, rows, j + 1) == rows[j].pos[|e.kind.children|]
    ensures Before(b, rows, j + 1) == rows[j].after
  {
    assert RowOk(e, Before(b, rows, j), Start(p0, rows, j), rows[j], reps[j]);
  }

  /** Row `j` of an alternation grid: only the chosen child ran. */
  lemma ChoiceRowAt(e: Expr, b: seq<State>, p0: nat, reps: seq<Rep>, rows: seq<Row>, j: nat)
    requires e.kind.AnyOfOptions? && RowsOk(e, b, p0, reps, rows) && j < |rows|
    ensures var k := reps[j].choice; var bj, row := Before(b, rows, j), rows[j];
      && k.Some? && k.value < |e.kind.children| && |bj| == |e.kind.children| && |row.after| == |bj|
      && |row.pos| == 2 && |row.traces| == 1
      && (forall i :: 0 <= i < |bj| && i != k.value ==> row.after[i] == bj[i])
      && Rest(e.kind.children[k.value], bj[k.value], Start(p0, rows, j), row.after[k.value], row.pos[1], row.traces[0])
      && Start(p0, rows, j + 1) == row.pos[1] && Before(b, rows, j + 1) == row.after
  {
    assert RowOk(e, Before(b, rows, j), Start(p0, rows, j), rows[j], reps[j]);
  }

  /** The first `m` rows of a grid form a grid. */
  lemma GridPrefix(e: Expr, b: seq<State>, p0: nat, reps: seq<Rep>, rows: seq<Row>, m: nat)
    requires !IsLeaf(e) && RowsOk(e, b, p0, reps, rows) && m <= |rows|
    ensures RowsOk(e, b, p0, reps[..m], rows[..m])
    ensures Before(b, rows[..m], m) == Before(b, rows, m) && Start(p0, rows[..m], m) == Start(p0, rows, m)
    ensures p0 <= Start(p0, rows, m)
  {
    var rows', reps' := rows[..m], reps[..m];
    forall j | 0 <= j < m
      ensures RowOk(e, Before(b, rows', j), Start(p0, rows', j), rows'[j], reps'[j])
    {
      assert rows'[j] == rows[j] && reps'[j] == reps[j];
      assert Before(b, rows', j) == Before(b, rows, j) && Start(p0, rows', j) == Start(p0, rows, j);
    }
    StartMono(e, b, p0, reps, rows, m);
  }

  // ---------------------------------------------------------------------------
  // undo

  /** `undo` of a node at rest puts the node and its subtree back in the state its `matches`
      began from, the cursor where it began, and withdraws every capture the attempt published;
      nothing outside the subtree's names changes. */
  lemma UndoRestores(e: Expr, s0: State, p0: nat, s: State, c: Ctx, w: Trace, g: Table)
    requires Unique(e) && WellFormed(c.table) && TableInv(e, s, c.table, g)
    requires Rest(e, s0, p0, s, c.progress, w)
    ensures Undo(e, s, c).Ok?
    ensures var u := Undo(e, s, c).value;
      && u.0 == s0 && u.1.progress == p0 && u.1.subject == c.subject
      && WellFormed(u.1.table) && TableInv(e, s0, u.1.table, g) && Untouched(e, c.table, u.1.table)
    decreases e, 3
  {
    RestEnds(e, s0, p0, s, c.progress, w);
    PubsSnoc(s0.attempts, Top(s));
    var published := HasCurrentRepetition(s);
    var sp := if published then Bounds(LastRep(s)) else Span(0, 0);
    assert PubOf(Top(s)) == if published then [sp] else [];
    UndoWithRestores(e, s0, p0, s, c, w, g, published, sp);
  }

  /** `undo` of a node at rest whose attempt published `sp` when `published` holds. */
  lemma UndoWithRestores(e: Expr, s0: State, p0: nat, s: State, c: Ctx, w: Trace, g: Table, published: bool, sp: Span)
    requires Unique(e) && WellFormed(c.table) && KidsInv(e, s.children, c.table, g)
    requires OwnPubs(e, Pubs(s0.attempts) + (if published then [sp] else []), c.table, g)
    requires Rest(e, s0, p0, s, c.progress, w)
    ensures UndoWith(e, s, c, published).Ok?
    ensures var u := UndoWith(e, s, c, published).value;
      && u.0 == s0 && u.1.progress == p0 && u.1.subject == c.subject
      && WellFormed(u.1.table) && TableInv(e, s0, u.1.table, g) && Untouched(e, c.table, u.1.table)
    decreases e, 2
  {
    RestEnds(e, s0, p0, s, c.progress, w);
    var top := Top(s);
    if e.kind.Group? {
      assert Grid(e, s0.children, p0, top, s.children, c.progress, w.rows);
      UndoRoundsRestores(e, s, c, |top|, s0.children, p0, top, w.rows, |w.rows|, g);
      var undone := UndoRounds(e, s, c, |top|).value;
      UndoTailRestores(e, s0, p0, s, c, undone, g, published, sp);
    } else if e.kind.AnyOfOptions? {
      assert Grid(e, s0.children, p0, top, s.children, c.progress, w.rows);
      var undone := UndoChoicesRestores(e, s, c, s0.children, p0, top, w.rows, |w.rows|, g);
      assert top[..|w.rows|] == top;
      UndoTailRestores(e, s0, p0, s, c, undone, g, published, sp);
    } else {
      assert s.children == s0.children && |s.children| == 0;
      UndoTailRestores(e, s0, p0, s, c, (s, c), g, published, sp);
    }
  }

  /** What `undo` does once the children are undone. */
  function UndoTail(e: Expr, s: State, undone: (State, Ctx), published: bool): Result<(State, Ctx), EngineError> {
    var top := Top(s);
    var c1 := undone.1.(progress := if top != [] then top[0].start else undone.1.progress);
    var t :- CapturesOnUndo(e.names, published, c1.table);
    Ok((PopAttempt(undone.0), c1.(table := t)))
  }

  lemma UndoTailRestores(e: Expr, s0: State, p0: nat, s: State, c: Ctx, undone: (State, Ctx), g: Table,
                         published: bool, sp: Span)
    requires Unique(e) && s.attempts == s0.attempts + [Top(s)]
    requires OwnPubs(e, Pubs(s0.attempts) + (if published then [sp] else []), c.table, g)
    requires undone.0 == s.(children := s0.children) && undone.1.subject == c.subject
    requires (if Top(s) != [] then Top(s)[0].start else undone.1.progress) == p0
    requires WellFormed(undone.1.table) && KidsInv(e, s0.children, undone.1.table, g)
    requires KidsUntouched(e, c.table, undone.1.table)
    ensures UndoTail(e, s, undone, published).Ok?
    ensures var u := UndoTail(e, s, undone, published).value;
      && u.0 == s0 && u.1.progress == p0 && u.1.subject == c.subject
      && WellFormed(u.1.table) && TableInv(e, s0, u.1.table, g) && Untouched(e, c.table, u.1.table)
    ensures e.kind.Group? ==> UndoRounds(e, s, c, |Top(s)|) == Ok(undone) ==>
      UndoWith(e, s, c, published) == UndoTail(e, s, undone, published)
    ensures e.kind.AnyOfOptions? ==> UndoChoices(e, s, c, Top(s)) == Ok(undone) ==>
      UndoWith(e, s, c, published) == UndoTail(e, s, undone, published)
    ensures IsLeaf(e) && undone == (s, c) ==> UndoWith(e, s, c, published) == UndoTail(e, s, undone, published)
  {
    KidsKeepOwn(e, Pubs(s0.attempts) + (if published then [sp] else []), c.table, undone.1.table, g);
    var top := Top(s);
    var c1 := undone.1.(progress := if top != [] then top[0].start else undone.1.progress);
    WithdrawStep(e, Pubs(s0.attempts), published, sp, c1.table, g);
    var t := CapturesOnUndo(e.names, published, c1.table).value;
    OwnStep(e, s0.children, c1.table, t, g);
    assert PopAttempt(undone.0) == s0;
  }

  /** Undoing `k` whole rows of a group, the last first, returns the children and the cursor to
      where row `m - k` began. */
  lemma {:induction false} UndoRoundsRestores(e: Expr, s: State, c: Ctx, k: nat, b: seq<State>, p0: nat,
                                              reps: seq<Rep>, rows: seq<Row>, m: nat, g: Table)
    requires e.kind.Group? && Unique(e) && WellFormed(c.table) && KidsInv(e, s.children, c.table, g)
    requires RowsOk(e, b, p0, reps, rows) && k <= m <= |rows|
    requires s.children == Before(b, rows, m) && c.progress == Start(p0, rows, m)
    ensures UndoRounds(e, s, c, k).Ok?
    ensures var u := UndoRounds(e, s, c, k).value;
      && u.0 == s.(children := Before(b, rows, m - k)) && u.1.progress == Start(p0, rows, m - k)
      && KidsKept(e, u.0.children, c, u.1, g)
    decreases e, 1, k
  {
    if k > 0 {
      var c1 := UndoRoundOnce(e, s, c, k, b, p0, reps, rows, m, g);
      var s1 := s.(children := Before(b, rows, m - 1));
      UndoRoundsRestores(e, s1, c1, k - 1, b, p0, reps, rows, m - 1, g);
      var u := UndoRounds(e, s1, c1, k - 1).value;
      KeptChain(e, s1.children, u.0.children, c, c1, u.1, g);
    }
  }

  /** The first of `k` rounds undoes row `m - 1` of a group. */
  lemma UndoRoundOnce(e: Expr, s: State, c: Ctx, k: nat, b: seq<State>, p0: nat, reps: seq<Rep>, rows: seq<Row>,
                      m: nat, g: Table) returns (c1: Ctx)
    requires e.kind.Group? && Unique(e) && WellFormed(c.table) && KidsInv(e, s.children, c.table, g)
    requires RowsOk(e, b, p0, reps, rows) && 0 < k <= m <= |rows|
    requires s.children == Before(b, rows, m) && c.progress == Start(p0, rows, m)
    ensures UndoRounds(e, s, c, k) == UndoRounds(e, s.(children := Before(b, rows, m - 1)), c1, k - 1)
    ensures c1.progress == Start(p0, rows, m - 1) && KidsKept(e, Before(b, rows, m - 1), c, c1, g)
    decreases e, 0
  {
    var row := rows[m - 1];
    GroupRowAt(e, b, p0, reps, rows, m - 1);
    UndoChildrenRestores(e, s, c, |e.kind.children|, Before(b, rows, m - 1), row.pos, row.traces, g);
    c1 := UndoChildren(e, s, c, |e.kind.children|).value.1;
  }

  /** Undoing children `i - 1` down to `0` of a group row returns them to `b` and the cursor to
      where the row began. */
  lemma {:induction false} UndoChildrenRestores(e: Expr, s: State, c: Ctx, i: nat, b: seq<State>, pos: seq<nat>,
                                                traces: seq<Trace>, g: Table)
    requires e.kind.Group? && Unique(e) && WellFormed(c.table) && KidsInv(e, s.children, c.table, g)
    requires RowPart(e, b, s.children, pos, traces, i) && c.progress == pos[i]
    ensures UndoChildren(e, s, c, i).Ok?
    ensures var u := UndoChildren(e, s, c, i).value;
      && u.0 == s.(children := b) && u.1.progress == pos[0] && KidsKept(e, b, c, u.1, g)
    decreases e, 0, i
  {
    var ch := e.kind.children;
    if i == 0 {
      assert s.children == b;
    } else {
      var j := i - 1;
      assert Rest(ch[j], b[j], pos[j], s.children[j], pos[i], traces[j]);
      assert TableInv(ch[j], s.children[j], c.table, g) && Unique(ch[j]);
      UndoRestores(ch[j], b[j], pos[j], s.children[j], c, traces[j], g);
      var r := Undo(ch[j], ChildState(s, j), c).value;
      KidsStep(e, s.children, j, b[j], c.table, r.1.table, g);
      var s1 := WithChild(s, j, r.0);
      assert s1.children == s.children[j := b[j]];
      assert RowPart(e, b, s1.children, pos[..i], traces[..j], j);
      UndoChildrenRestores(e, s1, r.1, j, b, pos[..i], traces[..j], g);
      var u := UndoChildren(e, s1, r.1, j).value;
      assert UndoChildren(e, s, c, i) == UndoChildren(e, s1, r.1, j);
      KeptChain(e, s1.children, b, c, r.1, u.1, g);
      assert s1.(children := b) == s.(children := b);
    }
  }

  /** Alternation `e` has undone every row after row `m - 1` of its grid: its children and the
      cursor are where row `m` began, and the table still matches the children. */
  ghost predicate ChoicesLeft(e: Expr, s: State, c: Ctx, b: seq<State>, p0: nat, reps: seq<Rep>, rows: seq<Row>,
                              m: nat, g: Table) {
    && e.kind.AnyOfOptions? && Unique(e) && WellFormed(c.table) && KidsInv(e, s.children, c.table, g)
    && RowsOk(e, b, p0, reps, rows) && m <= |rows|
    && s.children == Before(b, rows, m) && c.progress == Start(p0, rows, m)
  }

  /** Undoing the chosen child of rows `m - 1` down to `0` of an alternation, the last row first,
      returns the children to `b` and the cursor to where the attempt began. */
  lemma {:induction false} UndoChoicesRestores(e: Expr, s: State, c: Ctx, b: seq<State>, p0: nat,
                                               reps: seq<Rep>, rows: seq<Row>, m: nat, g: Table)
    returns (u: (State, Ctx))
    requires ChoicesLeft(e, s, c, b, p0, reps, rows, m, g)
    ensures UndoChoices(e, s, c, reps[..m]) == Ok(u)
    ensures u.0 == s.(children := b) && u.1.progress == p0 && KidsKept(e, b, c, u.1, g)
    decreases e, 1, m
  {
    if m == 0 {
      assert reps[..m] == [];
      u := (s, c);
    } else {
      var s1, c1 := UndoChoiceOnce(e, s, c, b, p0, reps, rows, m, g);
      u := UndoChoicesRestores(e, s1, c1, b, p0, reps, rows, m - 1, g);
      KeptChain(e, s1.children, b, c, c1, u.1, g);
    }
  }

  /** The first of the choices left to undo is row `m - 1`'s: undoing its chosen child returns the
      children and the cursor to where that row began. */
  lemma UndoChoiceOnce(e: Expr, s: State, c: Ctx, b: seq<State>, p0: nat, reps: seq<Rep>, rows: seq<Row>,
                       m: nat, g: Table) returns (s1: State, c1: Ctx)
    requires ChoicesLeft(e, s, c, b, p0, reps, rows, m, g) && m > 0
    ensures UndoChoices(e, s, c, reps[..m]) == UndoChoices(e, s1, c1, reps[..m - 1])
    ensures s1 == s.(children := Before(b, rows, m - 1)) && KidsKept(e, s1.children, c, c1, g)
    ensures ChoicesLeft(e, s1, c1, b, p0, reps, rows, m - 1, g)
    decreases e, 0, 1
  {
    var j := m - 1;
    UndoChoiceAt(e, s, c, b, p0, reps, rows, j, g);
    var k := reps[j].choice.value;
    var r := Undo(e.kind.children[k], ChildState(s, k), c).value;
    UndoChoicesUnfold(e, s, c, reps, m, r);
    s1, c1 := WithChild(s, k, r.0), r.1;
  }

  /** `UndoChoices` over the first `m` rows undoes row `m - 1`'s choice first. */
  lemma UndoChoicesUnfold(e: Expr, s: State, c: Ctx, reps: seq<Rep>, m: nat, r: (State, Ctx))
    requires e.kind.AnyOfOptions? && 0 < m <= |reps|
    requires var k := reps[m - 1].choice;
      && k.Some? && k.value < |e.kind.children| && Undo(e.kind.children[k.value], ChildState(s, k.value), c) == Ok(r)
    ensures UndoChoices(e, s, c, reps[..m]) == UndoChoices(e, WithChild(s, reps[m - 1].choice.value, r.0), r.1, reps[..m - 1])
  {
    var rs := reps[..m];
    assert |rs| - 1 == m - 1 && rs[m - 1] == reps[m - 1] && rs[..m - 1] == reps[..m - 1];
  }

  /** Undoing the chosen child of row `j` of an alternation, all later rows undone already. */
  lemma UndoChoiceAt(e: Expr, s: State, c: Ctx, b: seq<State>, p0: nat, reps: seq<Rep>, rows: seq<Row>,
                     j: nat, g: Table)
    requires e.kind.AnyOfOptions? && Unique(e) && WellFormed(c.table) && KidsInv(e, s.children, c.table, g)
    requires RowsOk(e, b, p0, reps, rows) && j < |rows|
    requires s.children == Before(b, rows, j + 1) && c.progress == Start(p0, rows, j + 1)
    ensures var k := reps[j].choice;
      && k.Some? && k.value < |e.kind.children|
      && Undo(e.kind.children[k.value], ChildState(s, k.value), c).Ok?
    ensures var k := reps[j].choice.value;
      var r := Undo(e.kind.children[k], ChildState(s, k), c).value;
      && WithChild(s, k, r.0).children == Before(b, rows, j) && r.1.progress == Start(p0, rows, j)
      && KidsKept(e, Before(b, rows, j), c, r.1, g)
    decreases e, 0, 0
  {
    var ch := e.kind.children;
    var row, bj := rows[j], Before(b, rows, j);
    ChoiceRowAt(e, b, p0, reps, rows, j);
    var k := reps[j].choice.value;
    assert TableInv(ch[k], s.children[k], c.table, g) && Unique(ch[k]);
    UndoRestores(ch[k], bj[k], Start(p0, rows, j), row.after[k], c, row.traces[0], g);
    var r := Undo(ch[k], ChildState(s, k), c).value;
    KidsStep(e, s.children, k, bj[k], c.table, r.1.table, g);
    assert WithChild(s, k, r.0).children == bj;
  }

  // ---------------------------------------------------------------------------
  // One step of each search function, every way it can end

  lemma MatchesOnceGroupStep(e: Expr, s: State, c: Ctx, f: nat)
    requires e.kind.Group? && f > 0
    ensures var r := MatchOne(e.kind.children, s, 0, c, f - 1);
      && (r.Raise? ==> MatchesOnce(e, s, c, f).Raise?)
      && (r.Ok? ==>
            MatchesOnce(e, s, c, f) ==
            Ok(Step(if r.value.ok then Some(Rep(c.progress, LastEnd(r.value.state.children, c.progress), None)) else None,
                    r.value.state, r.value.ctx)))
  {
  }

  lemma TryOptionsStep(ch: seq<Expr>, s: State, i: nat, c: Ctx, f: nat)
    requires f > 0 && i < |ch|
    ensures var o := Matches(ch[i], ChildState(s, i), c, f - 1);
      && (o.Raise? ==> TryOptions(ch, s, i, c, c.progress, f).Raise?)
      && (o.Ok? && o.value.ok ==>
            TryOptions(ch, s, i, c, c.progress, f) ==
            Ok(Step(Some(Rep(c.progress, o.value.ctx.progress, Some(i))), WithChild(s, i, o.value.state), o.value.ctx)))
  {
  }

  lemma MatchOneLoopStep(ch: seq<Expr>, s: State, i: nat, c: Ctx, f: nat)
    requires f > 0 && i < |ch|
    ensures var r := MatchOne(ch, s, i + 1, c, f - 1);
      && (r.Raise? ==> MatchOneLoop(ch, s, i, c, f).Raise?)
      && (r.Ok? && r.value.ok ==> MatchOneLoop(ch, s, i, c, f) == r)
      && (r.Ok? && !r.value.ok ==>
            var t := Retry(ch[i], ChildState(r.value.state, i), r.value.ctx, f - 1);
            && (t.Raise? ==> MatchOneLoop(ch, s, i, c, f).Raise?)
            && (t.Ok? && !t.value.ok ==>
                  MatchOneLoop(ch, s, i, c, f) == Ok(Out(false, WithChild(r.value.state, i, t.value.state), t.value.ctx)))
            && (t.Ok? && t.value.ok ==>
                  MatchOneLoop(ch, s, i, c, f) == MatchOneLoop(ch, WithChild(r.value.state, i, t.value.state), i, t.value.ctx, f - 1)))
  {
  }

  lemma RetryOneChildStep(ch: seq<Expr>, s: State, i: int, c: Ctx, f: nat)
    requires f > 0 && 0 <= i < |ch|
    ensures var t := Retry(ch[i], ChildState(s, i), c, f - 1);
      && (t.Raise? ==> RetryOneChild(ch, s, i, c, f).Raise?)
      && (t.Ok? && t.value.ok ==> RetryOneChild(ch, s, i, c, f) == Ok(Out(true, WithChild(s, i, t.value.state), t.value.ctx)))
      && (t.Ok? && !t.value.ok ==> RetryOneChild(ch, s, i, c, f) == RetryOneLoop(ch, WithChild(s, i, t.value.state), i, t.value.ctx, f - 1))
  {
  }

  lemma RetryOneLoopStep(ch: seq<Expr>, s: State, i: nat, c: Ctx, f: nat)
    requires f > 0 && i < |ch|
    ensures var r := RetryOneChild(ch, s, i - 1, c, f - 1);
      && (r.Raise? ==> RetryOneLoop(ch, s, i, c, f).Raise?)
      && (r.Ok? && !r.value.ok ==> RetryOneLoop(ch, s, i, c, f) == r)
      && (r.Ok? && r.value.ok ==>
            var m := Matches(ch[i], ChildState(r.value.state, i), r.value.ctx, f - 1);
            && (m.Raise? ==> RetryOneLoop(ch, s, i, c, f).Raise?)
            && (m.Ok? && m.value.ok ==>
                  RetryOneLoop(ch, s, i, c, f) == Ok(Out(true, WithChild(r.value.state, i, m.value.state), m.value.ctx)))
            && (m.Ok? && !m.value.ok ==>
                  RetryOneLoop(ch, s, i, c, f) == RetryOneLoop(ch, WithChild(r.value.state, i, m.value.state), i, m.value.ctx, f - 1)))
  {
  }

  // ---------------------------------------------------------------------------
  // matches and retry

  /** What a call on a composite did to the context: same subject, and the capture table still
      holds the children's publications for their new states and changed only under names in the
      children's subtrees. */
  ghost predicate KidsKept(e: Expr, kids: seq<State>, c: Ctx, c': Ctx, g: Table) {
    && c'.subject == c.subject && WellFormed(c'.table)
    && KidsInv(e, kids, c'.table, g) && KidsUntouched(e, c.table, c'.table)
  }

  /** The same for a whole node: its publications match its new state `s`. */
  ghost predicate NodeKept(e: Expr, s: State, c: Ctx, c': Ctx, g: Table) {
    && c'.subject == c.subject && WellFormed(c'.table)
    && TableInv(e, s, c'.table, g) && Untouched(e, c.table, c'.table)
  }

  /** A run of leaf steps is laid end to end. */
  lemma ChainContiguous(k: Kind, c: Ctx, from: nat, reps: seq<Rep>)
    requires Chain(k, c, from, reps)
    ensures Contiguous(from, reps)
  {
    forall i | 0 <= i < |reps| ensures reps[i].start <= reps[i].end {
      assert LeafStep(k, c.(progress := reps[i].start)) == Ok(Some(Bounds(reps[i])));
    }
  }

  /** `matches` on a leaf: on success the leaf is at rest and has published its last span. */
  lemma LeafMatchesRestores(e: Expr, s: State, c: Ctx, g: Table) returns (w: Trace)
    requires IsLeaf(e) && Unique(e) && WellFormed(c.table) && TableInv(e, s, c.table, g)
    ensures LeafMatches(e, s, c).Ok? ==> var o := LeafMatches(e, s, c).value;
      if o.ok then Rest(e, s, c.progress, o.state, o.ctx.progress, w) && NodeKept(e, o.state, c, o.ctx, g)
      else o.state == s && o.ctx == c
  {
    w := Run;
    LeafMatchesSpec(e, s, c);
    if LeafMatches(e, s, c).Ok? && LeafMatches(e, s, c).value.ok {
      var o := LeafMatches(e, s, c).value;
      SettledRests(e, s, c, o.state, o.ctx, g);
    }
  }

  /** A leaf settled by `matches` is at rest, its last span published over the table it began with. */
  lemma SettledRests(e: Expr, s: State, c: Ctx, s': State, c': Ctx, g: Table)
    requires IsLeaf(e) && TableInv(e, s, c.table, g) && c'.subject == c.subject
    requires s' == s.(attempts := s.attempts + [Top(s')]) && Settled(e, Top(s'), c.progress, c', c.table)
    ensures Rest(e, s, c.progress, s', c'.progress, Run) && NodeKept(e, s', c, c', g)
  {
    SettledRest(e, s, c, s', c');
    SettledKept(e, s, c, s', c', g);
  }

  lemma SettledRest(e: Expr, s: State, c: Ctx, s': State, c': Ctx)
    requires IsLeaf(e) && s' == s.(attempts := s.attempts + [Top(s')]) && Settled(e, Top(s'), c.progress, c', c.table)
    ensures Rest(e, s, c.progress, s', c'.progress, Run)
  {
    var top := Top(s');
    ChainContiguous(e.kind, c'.(table := c.table), c.progress, top);
    ContiguousMono(c.progress, top);
  }

  lemma SettledKept(e: Expr, s: State, c: Ctx, s': State, c': Ctx, g: Table)
    requires IsLeaf(e) && TableInv(e, s, c.table, g) && c'.subject == c.subject
    requires s' == s.(attempts := s.attempts + [Top(s')]) && Settled(e, Top(s'), c.progress, c', c.table)
    ensures NodeKept(e, s', c, c', g)
  {
    var top := Top(s');
    PubsSnoc(s.attempts, top);
    SettledOwn(e, Pubs(s.attempts), top, c.table, c'.table, g);
    SettledOutside(e, top, c.table, c'.table);
  }

  lemma SettledOwn(e: Expr, pubs: seq<Span>, top: seq<Rep>, t: Table, t': Table, g: Table)
    requires OwnPubs(e, pubs, t, g) && Published(e.names, top, t, t')
    ensures OwnPubs(e, pubs + PubOf(top), t', g)
  {
    if e.names.Some? {
      forall k | k in e.names.value ensures Stack(t', k) == Stack(g, k) + (pubs + PubOf(top)) {
        assert Stack(t', k) == (Stack(g, k) + pubs) + PubOf(top);
      }
    }
  }

  lemma SettledOutside(e: Expr, top: seq<Rep>, t: Table, t': Table)
    requires IsLeaf(e) && Published(e.names, top, t, t')
    ensures Untouched(e, t, t')
  {
    forall k | !Owns(e, k) ensures Stack(t', k) == Stack(t, k) {
      assert !(e.names.Some? && k in e.names.value);
    }
  }

  /** The body of `retry` on a leaf at rest leaves it at rest, the table untouched. */
  lemma LeafBodyRests(e: Expr, s0: State, p0: nat, s: State, c: Ctx, w: Trace)
    requires IsLeaf(e) && Rest(e, s0, p0, s, c.progress, w)
    ensures LeafRetryBody(e, s, c).Ok? ==> var o := LeafRetryBody(e, s, c).value;
      o.ctx.subject == c.subject && o.ctx.table == c.table && Rest(e, s0, p0, o.state, o.ctx.progress, Run)
  {
    var top := Top(s);
    if LeafRetryBody(e, s, c).Ok? && LeafRetryBody(e, s, c).value.ok {
      var o := LeafRetryBody(e, s, c).value;
      if e.greedy {
        var nt := top[..|top| - 1];
        assert o.state == SetTop(s, nt) && Top(o.state) == nt;
        assert Contiguous(p0, nt);
        ContiguousMono(p0, nt);
      } else {
        var sp := LeafStep(e.kind, c).value.value;
        var nt := top + [Rep(sp.start, sp.end, None)];
        assert Top(o.state) == nt;
        assert Contiguous(p0, nt);
        ContiguousMono(p0, nt);
      }
    }
  }

  /** `wrap_retry` around a body that left the node at rest: success republishes, failure undoes
      the attempt, which puts the node and the cursor back where its `matches` began. */
  lemma WrapRetryRestores(e: Expr, s0: State, p0: nat, s: State, c: Ctx, body: Out, w: Trace, g: Table)
    requires Unique(e) && WellFormed(c.table) && TableInv(e, s, c.table, g) && s.attempts == s0.attempts + [Top(s)]
    requires KidsKept(e, body.state.children, c, body.ctx, g) && Rest(e, s0, p0, body.state, body.ctx.progress, w)
    ensures WrapRetry(e, |Top(s)|, body).Ok?
    ensures var o := WrapRetry(e, |Top(s)|, body).value;
      if o.ok then o.state == body.state && o.ctx.progress == body.ctx.progress && NodeKept(e, o.state, c, o.ctx, g)
      else o.state == s0 && o.ctx.progress == p0 && NodeKept(e, s0, c, o.ctx, g)
  {
    PubsSnoc(s0.attempts, Top(s));
    KidsKeepOwn(e, Pubs(s.attempts), c.table, body.ctx.table, g);
    if body.ok {
      RepublishStep(e, Pubs(s0.attempts), Top(s), Top(body.state), body.ctx.table, g);
      var t := CapturesOnRetry(e.names, |Top(s)|, Top(body.state), body.ctx.table).value;
      OwnStep(e, body.state.children, body.ctx.table, t, g);
      PubsSnoc(s0.attempts, Top(body.state));
    } else {
      var top := Top(s);
      var published := |top| > 0;
      var sp := if published then Bounds(top[|top| - 1]) else Span(0, 0);
      assert PubOf(top) == if published then [sp] else [];
      UndoWithRestores(e, s0, p0, body.state, body.ctx, w, g, published, sp);
    }
  }

  /** `retry` on a leaf at rest. */
  lemma LeafRetryRestores(e: Expr, s0: State, p0: nat, s: State, c: Ctx, w: Trace, g: Table) returns (w': Trace)
    requires IsLeaf(e) && Unique(e) && WellFormed(c.table) && TableInv(e, s, c.table, g)
    requires Rest(e, s0, p0, s, c.progress, w)
    ensures LeafRetry(e, s, c).Ok? ==> var o := LeafRetry(e, s, c).value;
      if o.ok then Rest(e, s0, p0, o.state, o.ctx.progress, w') && NodeKept(e, o.state, c, o.ctx, g)
      else o.state == s0 && o.ctx.progress == p0 && NodeKept(e, s0, c, o.ctx, g)
  {
    w' := Run;
    LeafBodyRests(e, s0, p0, s, c, w);
    if LeafRetryBody(e, s, c).Ok? {
      var body := LeafRetryBody(e, s, c).value;
      WrapRetryRestores(e, s0, p0, s, c, body, Run, g);
    }
  }

  /** Appending a row to a node at rest whose children the row left in `s1`. */
  lemma AppendRow(e: Expr, s0: State, p0: nat, s1: State, reps: seq<Rep>, rows: seq<Row>, row: Row, rep: Rep)
    returns (w: Trace)
    requires !IsLeaf(e) && s1.attempts == s0.attempts + [reps] && RowsOk(e, s0.children, p0, reps, rows)
    requires s1.children == row.after && RowOk(e, Before(s0.children, rows, |rows|), Start(p0, rows, |rows|), row, rep)
    ensures Rest(e, s0, p0, AppendRep(s1, rep), LastPos(row), w)
  {
    GridSnoc(e, s0.children, p0, reps, rows, row, rep);
    w := Rows(rows + [row]);
    assert AppendRep(s1, rep).attempts == s0.attempts + [reps + [rep]];
  }

  /** `matches`: on success the node is at rest and the table holds its new publications; on
      failure the state and the whole context, capture table included, are exactly as before. */
  lemma {:induction false} MatchesRestores(e: Expr, s: State, c: Ctx, g: Table, f: nat) returns (w: Trace)
    requires Unique(e) && WellFormed(c.table) && TableInv(e, s, c.table, g)
    ensures Matches(e, s, c, f).Ok? ==> var o := Matches(e, s, c, f).value;
      if o.ok then Rest(e, s, c.progress, o.state, o.ctx.progress, w) && NodeKept(e, o.state, c, o.ctx, g)
      else o.state == s && o.ctx == c
    decreases f, 1
  {
    w := Run;
    if IsLeaf(e) {
      w := LeafMatchesRestores(e, s, c, g);
    } else if f > 0 {
      var s1 := PushAttempt(s);
      assert Rest(e, s, c.progress, s1, c.progress, Rows([]));
      var w1 := IterLoopRestores(e, s, c.progress, s1, c, Rows([]), g, f - 1);
      if IterLoop(e, s1, c, f - 1).Ok? {
        var body := IterLoop(e, s1, c, f - 1).value;
        if body.ok {
          w := w1;
          MatchesPublishes(e, s, c, body, g);
        } else {
          KidsRestored(e, s.children, c.table, body.ctx.table, g);
          assert PopAttempt(body.state) == s;
        }
      }
    }
  }

  /** `synchronize_context` after a successful composite `matches` publishes the new attempt. */
  lemma MatchesPublishes(e: Expr, s: State, c: Ctx, body: Out, g: Table)
    requires Unique(e) && TableInv(e, s, c.table, g) && body.ok
    requires body.state.attempts == s.attempts + [Top(body.state)]
    requires KidsKept(e, body.state.children, c, body.ctx, g)
    ensures NodeKept(e, WrapMatches(e, body).state, c, WrapMatches(e, body).ctx, g)
  {
    KidsKeepOwn(e, Pubs(s.attempts), c.table, body.ctx.table, g);
    PublishStep(e, Pubs(s.attempts), Top(body.state), body.ctx.table, g);
    OwnStep(e, body.state.children, body.ctx.table, CapturesOnMatch(e.names, Top(body.state), body.ctx.table), g);
    PubsSnoc(s.attempts, Top(body.state));
  }

  /** `retry` on a node at rest: on success it is at rest again and the table holds its new
      publications; on failure it is back in the state its `matches` began from, the cursor
      where that began, and its publications are withdrawn. */
  lemma {:induction false} RetryRestores(e: Expr, s0: State, p0: nat, s: State, c: Ctx, w: Trace, g: Table, f: nat)
    returns (w': Trace)
    requires Unique(e) && WellFormed(c.table) && TableInv(e, s, c.table, g)
    requires Rest(e, s0, p0, s, c.progress, w)
    ensures Retry(e, s, c, f).Ok? ==> var o := Retry(e, s, c, f).value;
      if o.ok then Rest(e, s0, p0, o.state, o.ctx.progress, w') && NodeKept(e, o.state, c, o.ctx, g)
      else o.state == s0 && o.ctx.progress == p0 && NodeKept(e, s0, c, o.ctx, g)
    decreases f, 1
  {
    w' := w;
    if IsLeaf(e) {
      w' := LeafRetryRestores(e, s0, p0, s, c, w, g);
    } else if f > 0 {
      RestEnds(e, s0, p0, s, c.progress, w);
      var wb := CompositeRetryBodyRestores(e, s0, p0, s, c, w, g, f - 1);
      if CompositeRetryBody(e, s, c, f - 1).Ok? {
        var body := CompositeRetryBody(e, s, c, f - 1).value;
        w' := wb;
        WrapRetryRestores(e, s0, p0, s, c, body, wb, g);
      }
    }
  }

  /** The loop of composite `matches`: success leaves the node at rest with at least `min`
      repetitions; failure leaves the attempt empty, the children and the cursor as they began. */
  lemma {:induction false} IterLoopRestores(e: Expr, s0: State, p0: nat, s: State, c: Ctx, w: Trace, g: Table, f: nat)
    returns (w': Trace)
    requires !IsLeaf(e) && Unique(e) && WellFormed(c.table) && KidsInv(e, s.children, c.table, g)
    requires Rest(e, s0, p0, s, c.progress, w)
    ensures IterLoop(e, s, c, f).Ok? ==> var o := IterLoop(e, s, c, f).value;
      && KidsKept(e, o.state.children, c, o.ctx, g)
      && (o.ok ==> Rest(e, s0, p0, o.state, o.ctx.progress, w') && e.min <= |Top(o.state)|)
      && (!o.ok ==> o.state == PushAttempt(s0) && o.ctx.progress == p0)
    decreases f, 0, 1
  {
    w' := w;
    if f > 0 {
      var w1 := IterFillRestores(e, s0, p0, s, c, w, g, f - 1);
      if IterFill(e, s, c, f - 1).Ok? {
        var fl := IterFill(e, s, c, f - 1).value;
        if e.min <= |Top(fl.state)| {
          w' := w1;
        } else {
          w' := IterLoopShort(e, s0, p0, s, c, fl, w1, g, f);
        }
      }
    }
  }

  /** `IterLoopRestores` once the filled attempt is short of `min`: reevaluate, then loop. */
  lemma {:induction false} IterLoopShort(e: Expr, s0: State, p0: nat, s: State, c: Ctx, fl: Out, w: Trace, g: Table, f: nat)
    returns (w': Trace)
    requires !IsLeaf(e) && Unique(e) && f > 0
    requires IterFill(e, s, c, f - 1) == Ok(fl) && |Top(fl.state)| < e.min
    requires KidsKept(e, fl.state.children, c, fl.ctx, g) && Rest(e, s0, p0, fl.state, fl.ctx.progress, w)
    ensures IterLoop(e, s, c, f).Ok? ==> var o := IterLoop(e, s, c, f).value;
      && KidsKept(e, o.state.children, c, o.ctx, g)
      && (o.ok ==> Rest(e, s0, p0, o.state, o.ctx.progress, w') && e.min <= |Top(o.state)|)
      && (!o.ok ==> o.state == PushAttempt(s0) && o.ctx.progress == p0)
    decreases f, 0, 0
  {
    w' := w;
    var w2 := ReevaluateRestores(e, s0, p0, fl.state, fl.ctx, w, g, f - 1);
    if Reevaluate(e, fl.state, fl.ctx, f - 1).Ok? {
      var r := Reevaluate(e, fl.state, fl.ctx, f - 1).value;
      KeptChain(e, fl.state.children, r.state.children, c, fl.ctx, r.ctx, g);
      if r.ok {
        w' := IterLoopRestores(e, s0, p0, r.state, r.ctx, w2, g, f - 1);
        if IterLoop(e, r.state, r.ctx, f - 1).Ok? {
          var o := IterLoop(e, r.state, r.ctx, f - 1).value;
          KeptChain(e, r.state.children, o.state.children, c, r.ctx, o.ctx, g);
        }
      }
    }
  }

  /** Filling an attempt keeps the node at rest, one row per repetition found. */
  lemma {:induction false} IterFillRestores(e: Expr, s0: State, p0: nat, s: State, c: Ctx, w: Trace, g: Table, f: nat)
    returns (w': Trace)
    requires !IsLeaf(e) && Unique(e) && WellFormed(c.table) && KidsInv(e, s.children, c.table, g)
    requires Rest(e, s0, p0, s, c.progress, w)
    ensures IterFill(e, s, c, f).Ok? ==> var o := IterFill(e, s, c, f).value;
      o.ok && KidsKept(e, o.state.children, c, o.ctx, g) && Rest(e, s0, p0, o.state, o.ctx.progress, w')
    decreases f, 0, 1
  {
    w' := w;
    if f > 0 && Below(|Top(s)|, InitialLimit(e)) {
      var row := MatchesOnceRestores(e, s, c, g, f - 1);
      if MatchesOnce(e, s, c, f - 1).Ok? {
        var m := MatchesOnce(e, s, c, f - 1).value;
        if m.rep.Some? {
          var w1 := OnceAppends(e, s0, p0, s, c, w, m, row, g);
          w' := IterFillMore(e, s0, p0, s, c, m, w1, g, f);
        }
      }
    }
  }

  /** `IterFillRestores` once `_matches_once` found another repetition: append it and go on. */
  lemma {:induction false} IterFillMore(e: Expr, s0: State, p0: nat, s: State, c: Ctx, m: Step, w: Trace, g: Table, f: nat)
    returns (w': Trace)
    requires !IsLeaf(e) && Unique(e) && f > 0 && Below(|Top(s)|, InitialLimit(e))
    requires MatchesOnce(e, s, c, f - 1) == Ok(m) && m.rep.Some?
    requires var s1 := AppendRep(m.state, m.rep.value);
      KidsKept(e, s1.children, c, m.ctx, g) && Rest(e, s0, p0, s1, m.ctx.progress, w)
    ensures IterFill(e, s, c, f).Ok? ==> var o := IterFill(e, s, c, f).value;
      o.ok && KidsKept(e, o.state.children, c, o.ctx, g) && Rest(e, s0, p0, o.state, o.ctx.progress, w')
    decreases f, 0, 0
  {
    var s1 := AppendRep(m.state, m.rep.value);
    w' := IterFillRestores(e, s0, p0, s1, m.ctx, w, g, f - 1);
  }

  /** Appending the repetition `_matches_once` found to a node at rest leaves it at rest. */
  lemma OnceAppends(e: Expr, s0: State, p0: nat, s: State, c: Ctx, w: Trace, m: Step, row: Row, g: Table)
    returns (w': Trace)
    requires !IsLeaf(e) && Rest(e, s0, p0, s, c.progress, w) && m.rep.Some?
    requires m.state.attempts == s.attempts && KidsKept(e, m.state.children, c, m.ctx, g)
    requires RowOk(e, s.children, c.progress, row, m.rep.value)
    requires m.state.children == row.after && m.ctx.progress == LastPos(row)
    ensures var s' := AppendRep(m.state, m.rep.value);
      && Rest(e, s0, p0, s', m.ctx.progress, w') && KidsKept(e, s'.children, c, m.ctx, g)
      && |Top(s')| == |Top(s)| + 1
  {
    w' := AppendRow(e, s0, p0, m.state, Top(s), w.rows, row, m.rep.value);
  }

  /** `_matches_once` of a composite: a repetition found is a row run from the children and the
      cursor as they were, ending at the cursor reached (for a group, the end of the last child
      with a repetition); when none is found, state and context are exactly as before. */
  lemma {:induction false} MatchesOnceRestores(e: Expr, s: State, c: Ctx, g: Table, f: nat) returns (row: Row)
    requires !IsLeaf(e) && Unique(e) && WellFormed(c.table) && KidsInv(e, s.children, c.table, g)
    ensures MatchesOnce(e, s, c, f).Ok? ==> var m := MatchesOnce(e, s, c, f).value;
      && m.state.attempts == s.attempts && KidsKept(e, m.state.children, c, m.ctx, g)
      && (m.rep.Some? ==> RowOk(e, s.children, c.progress, row, m.rep.value)
                          && m.state.children == row.after && m.ctx.progress == LastPos(row))
      && (m.rep.None? ==> m.state == s && m.ctx == c)
    decreases f, 0
  {
    row := Row([], [], []);
    if f > 0 {
      if e.kind.Group? {
        row := MatchesOnceGroup(e, s, c, g, f);
      } else {
        row := TryOptionsRestores(e, s, 0, c, g, f - 1);
      }
    }
  }

  /** The group case of `_matches_once`. */
  lemma {:induction false} MatchesOnceGroup(e: Expr, s: State, c: Ctx, g: Table, f: nat) returns (row: Row)
    requires e.kind.Group? && Unique(e) && WellFormed(c.table) && KidsInv(e, s.children, c.table, g) && f > 0
    ensures MatchesOnce(e, s, c, f).Ok? ==> var m := MatchesOnce(e, s, c, f).value;
      && m.state.attempts == s.attempts && KidsKept(e, m.state.children, c, m.ctx, g)
      && (m.rep.Some? ==> RowOk(e, s.children, c.progress, row, m.rep.value)
                          && m.state.children == row.after && m.ctx.progress == LastPos(row))
      && (m.rep.None? ==> m.state == s && m.ctx == c)
    decreases f, 0, 0
  {
    row := Row([], [], []);
    var ch := e.kind.children;
    assert RowPart(e, s.children, s.children, [c.progress], [], 0);
    MatchesOnceGroupStep(e, s, c, f);
    var pos, traces := MatchOneRestores(e, s, 0, c, s.children, [c.progress], [], g, f - 1);
    if MatchOne(ch, s, 0, c, f - 1).Ok? && MatchOne(ch, s, 0, c, f - 1).value.ok {
      var r := MatchOne(ch, s, 0, c, f - 1).value;
      RowEnds(e, s.children, r.state.children, pos, traces);
      row := Row(pos, r.state.children, traces);
    }
  }

  /** `AnyOfOptionsExpression._matches_once` from child `i`: the first child whose `matches`
      succeeds gives the row; every child tried before it failed and changed nothing. */
  lemma {:induction false} TryOptionsRestores(e: Expr, s: State, i: nat, c: Ctx, g: Table, f: nat) returns (row: Row)
    requires e.kind.AnyOfOptions? && Unique(e) && WellFormed(c.table) && KidsInv(e, s.children, c.table, g)
    ensures TryOptions(e.kind.children, s, i, c, c.progress, f).Ok? ==>
      var m := TryOptions(e.kind.children, s, i, c, c.progress, f).value;
      && m.state.attempts == s.attempts && KidsKept(e, m.state.children, c, m.ctx, g)
      && (m.rep.Some? ==> RowOk(e, s.children, c.progress, row, m.rep.value)
                          && m.state.children == row.after && m.ctx.progress == LastPos(row)
                          && i <= Chosen(m, |e.kind.children|))
      && (m.rep.None? ==> m.state == s && m.ctx == c)
      && TriedFirst(e.kind.children, s, i, c, f, Chosen(m, |e.kind.children|))
    decreases f, 0
  {
    row := Row([], [], []);
    var ch := e.kind.children;
    if f > 0 && i < |ch| {
      assert TableInv(ch[i], s.children[i], c.table, g) && Unique(ch[i]);
      TryOptionsStep(ch, s, i, c, f);
      var wi := MatchesRestores(ch[i], s.children[i], c, g, f - 1);
      if Matches(ch[i], ChildState(s, i), c, f - 1).Ok? {
        var o := Matches(ch[i], ChildState(s, i), c, f - 1).value;
        if o.ok {
          row := ChoiceFound(e, s, i, c, o, wi, g);
        } else {
          assert WithChild(s, i, o.state) == s;
          row := TryNext(e, s, i, c, g, f);
        }
      }
    }
  }

  /** `TryOptionsRestores` once child `i` failed: the search goes on from child `i + 1`. */
  lemma {:induction false} TryNext(e: Expr, s: State, i: nat, c: Ctx, g: Table, f: nat) returns (row: Row)
    requires e.kind.AnyOfOptions? && Unique(e) && WellFormed(c.table) && KidsInv(e, s.children, c.table, g)
    requires f > 0 && i < |e.kind.children| && i < |s.children|
    requires Matches(e.kind.children[i], s.children[i], c, f - 1) == Ok(Out(false, s.children[i], c))
    ensures TryOptions(e.kind.children, s, i, c, c.progress, f).Ok? ==>
      var m := TryOptions(e.kind.children, s, i, c, c.progress, f).value;
      && m.state.attempts == s.attempts && KidsKept(e, m.state.children, c, m.ctx, g)
      && (m.rep.Some? ==> RowOk(e, s.children, c.progress, row, m.rep.value)
                          && m.state.children == row.after && m.ctx.progress == LastPos(row)
                          && i <= Chosen(m, |e.kind.children|))
      && (m.rep.None? ==> m.state == s && m.ctx == c)
      && TriedFirst(e.kind.children, s, i, c, f, Chosen(m, |e.kind.children|))
    decreases f, 0, 0
  {
    var ch := e.kind.children;
    TrySkips(ch, s, i, c, f);
    row := TryOptionsRestores(e, s, i + 1, c, g, f - 1);
  }

  /** An alternation whose child `i` fails goes on with child `i + 1`, nothing else changed. */
  lemma TrySkips(ch: seq<Expr>, s: State, i: nat, c: Ctx, f: nat)
    requires f > 0 && i < |ch| && i < |s.children|
    requires Matches(ch[i], s.children[i], c, f - 1) == Ok(Out(false, s.children[i], c))
    ensures TryOptions(ch, s, i, c, c.progress, f) == TryOptions(ch, s, i + 1, c, c.progress, f - 1)
  {
    assert WithChild(s, i, s.children[i]) == s;
  }

  /** The child an alternation step chose, or `n` when it found none. */
  function Chosen(m: Step, n: nat): nat {
    if m.rep.Some? && m.rep.value.choice.Some? then m.rep.value.choice.value else n
  }

  /** Children `i` up to `k` of an alternation were each tried by `matches`, with the fuel left
      at their turn, and failed without changing anything. */
  ghost predicate TriedFirst(ch: seq<Expr>, s: State, i: nat, c: Ctx, f: nat, k: nat)
    decreases k - i
  {
    i < k ==>
      && 0 < f && i < |ch| && i < |s.children|
      && Matches(ch[i], s.children[i], c, f - 1) == Ok(Out(false, s.children[i], c))
      && TriedFirst(ch, s, i + 1, c, f - 1, k)
  }

  /** The row of an alternation whose child `i` matched. */
  lemma ChoiceFound(e: Expr, s: State, i: nat, c: Ctx, o: Out, wi: Trace, g: Table) returns (row: Row)
    requires e.kind.AnyOfOptions? && Unique(e) && KidsInv(e, s.children, c.table, g) && i < |e.kind.children|
    requires Rest(e.kind.children[i], s.children[i], c.progress, o.state, o.ctx.progress, wi)
    requires NodeKept(e.kind.children[i], o.state, c, o.ctx, g)
    ensures RowOk(e, s.children, c.progress, row, Rep(c.progress, o.ctx.progress, Some(i)))
    ensures row.after == s.children[i := o.state] && LastPos(row) == o.ctx.progress
    ensures KidsKept(e, row.after, c, o.ctx, g)
  {
    KidsStep(e, s.children, i, o.state, c.table, o.ctx.table, g);
    row := Row([c.progress, o.ctx.progress], s.children[i := o.state], [wi]);
  }

  /** Child `i` of a group row, children before it at rest, after `matches`: on success it is at
      rest too; on failure nothing changed. */
  lemma ChildMatched(e: Expr, s: State, i: nat, c: Ctx, b: seq<State>, pos: seq<nat>, traces: seq<Trace>,
                     o: Out, wi: Trace, g: Table)
    requires e.kind.Group? && Unique(e) && KidsInv(e, s.children, c.table, g)
    requires i < |e.kind.children| && RowPart(e, b, s.children, pos, traces, i) && c.progress == pos[i]
    requires if o.ok then Rest(e.kind.children[i], b[i], pos[i], o.state, o.ctx.progress, wi)
                          && NodeKept(e.kind.children[i], o.state, c, o.ctx, g)
             else o.state == b[i] && o.ctx == c
    ensures var s1 := WithChild(s, i, o.state);
      && (o.ok ==> && s1.attempts == s.attempts && KidsKept(e, s1.children, c, o.ctx, g)
                   && RowPart(e, b, s1.children, pos + [o.ctx.progress], traces + [wi], i + 1))
      && (!o.ok ==> s1 == s)
  {
    if o.ok {
      KidsStep(e, s.children, i, o.state, c.table, o.ctx.table, g);
    }
  }

  /** Child `i` of a group row, children up to it at rest, after `retry`: on success it is at
      rest again from the same cursor; on failure it is undone and the cursor is before it. */
  lemma ChildRetried(e: Expr, s: State, i: nat, c: Ctx, b: seq<State>, pos: seq<nat>, traces: seq<Trace>,
                     t: Out, wi: Trace, g: Table)
    requires e.kind.Group? && Unique(e) && KidsInv(e, s.children, c.table, g)
    requires i < |e.kind.children| && RowPart(e, b, s.children, pos, traces, i + 1)
    requires if t.ok then Rest(e.kind.children[i], b[i], pos[i], t.state, t.ctx.progress, wi)
                          && NodeKept(e.kind.children[i], t.state, c, t.ctx, g)
             else t.state == b[i] && t.ctx.progress == pos[i] && NodeKept(e.kind.children[i], b[i], c, t.ctx, g)
    ensures var s1 := WithChild(s, i, t.state);
      && s1.attempts == s.attempts && KidsKept(e, s1.children, c, t.ctx, g)
      && (t.ok ==> RowPart(e, b, s1.children, pos[i + 1 := t.ctx.progress], traces[i := wi], i + 1))
      && (!t.ok ==> s1.children == s.children[i := b[i]] && RowPart(e, b, s1.children, pos[..i + 1], traces[..i], i))
  {
    KidsStep(e, s.children, i, t.state, c.table, t.ctx.table, g);
  }

  /** `__match_one_child(i)` with children before `i` at rest: success runs the rest of the row;
      failure leaves state and context exactly as before. */
  lemma {:induction false} MatchOneRestores(e: Expr, s: State, i: nat, c: Ctx, b: seq<State>, pos: seq<nat>,
                                            traces: seq<Trace>, g: Table, f: nat)
    returns (pos': seq<nat>, traces': seq<Trace>)
    requires e.kind.Group? && Unique(e) && WellFormed(c.table) && KidsInv(e, s.children, c.table, g)
    requires i <= |e.kind.children| && RowPart(e, b, s.children, pos, traces, i) && c.progress == pos[i]
    ensures MatchOne(e.kind.children, s, i, c, f).Ok? ==> var o := MatchOne(e.kind.children, s, i, c, f).value;
      && (o.ok ==> && o.state.attempts == s.attempts && KidsKept(e, o.state.children, c, o.ctx, g)
                   && RowPart(e, b, o.state.children, pos', traces', |e.kind.children|)
                   && pos'[0] == pos[0] && o.ctx.progress == pos'[|e.kind.children|])
      && (!o.ok ==> o.state == s && o.ctx == c)
    decreases f, 0
  {
    pos', traces' := pos, traces;
    var ch := e.kind.children;
    if f > 0 && i < |ch| {
      assert TableInv(ch[i], s.children[i], c.table, g) && Unique(ch[i]) && s.children[i] == b[i];
      var wi := MatchesRestores(ch[i], b[i], c, g, f - 1);
      if Matches(ch[i], ChildState(s, i), c, f - 1).Ok? {
        var o := Matches(ch[i], ChildState(s, i), c, f - 1).value;
        if o.ok {
          pos', traces' := MatchOneMatched(e, s, i, c, b, pos, traces, o, wi, g, f);
        } else {
          ChildMatched(e, s, i, c, b, pos, traces, o, wi, g);
        }
      }
    }
  }

  /** The rest of `__match_one_child(i)` once child `i` matched. */
  lemma {:induction false} MatchOneMatched(e: Expr, s: State, i: nat, c: Ctx, b: seq<State>, pos: seq<nat>,
                                           traces: seq<Trace>, o: Out, wi: Trace, g: Table, f: nat)
    returns (pos': seq<nat>, traces': seq<Trace>)
    requires e.kind.Group? && Unique(e) && WellFormed(c.table) && KidsInv(e, s.children, c.table, g)
    requires i < |e.kind.children| && RowPart(e, b, s.children, pos, traces, i) && c.progress == pos[i] && f > 0
    requires o.ok && Rest(e.kind.children[i], b[i], pos[i], o.state, o.ctx.progress, wi)
    requires NodeKept(e.kind.children[i], o.state, c, o.ctx, g)
    ensures var s1 := WithChild(s, i, o.state);
      MatchOneLoop(e.kind.children, s1, i, o.ctx, f - 1).Ok? ==> var r := MatchOneLoop(e.kind.children, s1, i, o.ctx, f - 1).value;
      && (r.ok ==> && r.state.attempts == s.attempts && KidsKept(e, r.state.children, c, r.ctx, g)
                   && RowPart(e, b, r.state.children, pos', traces', |e.kind.children|)
                   && pos'[0] == pos[0] && r.ctx.progress == pos'[|e.kind.children|])
      && (!r.ok ==> r.state == s && r.ctx == c)
    decreases f, 0, 0
  {
    var ch := e.kind.children;
    ChildMatched(e, s, i, c, b, pos, traces, o, wi, g);
    var s1 := WithChild(s, i, o.state);
    pos', traces' := MatchOneLoopRestores(e, s1, i, o.ctx, b, pos + [o.ctx.progress], traces + [wi], g, f - 1);
    if MatchOneLoop(ch, s1, i, o.ctx, f - 1).Ok? {
      var r := MatchOneLoop(ch, s1, i, o.ctx, f - 1).value;
      KeptChain(e, s1.children, r.state.children, c, o.ctx, r.ctx, g);
      if !r.ok {
        assert r.state.children == s.children;
        KidsRestored(e, s.children, c.table, r.ctx.table, g);
      }
    }
  }

  /** `while not __match_one_child(i + 1): retry child i` with children up to `i` at rest:
      success completes the row; failure has undone child `i` and put the cursor before it. */
  lemma {:induction false} MatchOneLoopRestores(e: Expr, s: State, i: nat, c: Ctx, b: seq<State>, pos: seq<nat>,
                                                traces: seq<Trace>, g: Table, f: nat)
    returns (pos': seq<nat>, traces': seq<Trace>)
    requires e.kind.Group? && Unique(e) && WellFormed(c.table) && KidsInv(e, s.children, c.table, g)
    requires i < |e.kind.children| && RowPart(e, b, s.children, pos, traces, i + 1) && c.progress == pos[i + 1]
    ensures MatchOneLoop(e.kind.children, s, i, c, f).Ok? ==> var o := MatchOneLoop(e.kind.children, s, i, c, f).value;
      && o.state.attempts == s.attempts && KidsKept(e, o.state.children, c, o.ctx, g)
      && (o.ok ==> RowPart(e, b, o.state.children, pos', traces', |e.kind.children|)
                   && pos'[0] == pos[0] && o.ctx.progress == pos'[|e.kind.children|])
      && (!o.ok ==> o.state.children == s.children[i := b[i]] && o.ctx.progress == pos[i])
    decreases f, 0
  {
    pos', traces' := pos, traces;
    var ch := e.kind.children;
    if f > 0 {
      MatchOneLoopStep(ch, s, i, c, f);
      var p1, t1 := MatchOneRestores(e, s, i + 1, c, b, pos, traces, g, f - 1);
      if MatchOne(ch, s, i + 1, c, f - 1).Ok? {
        var r := MatchOne(ch, s, i + 1, c, f - 1).value;
        if r.ok {
          pos', traces' := p1, t1;
        } else {
          pos', traces' := MatchOneRetry(e, s, i, c, b, pos, traces, g, f);
        }
      }
    }
  }

  /** The retry half of `MatchOneLoopRestores`, once the rest of the row failed. */
  lemma {:induction false} MatchOneRetry(e: Expr, s: State, i: nat, c: Ctx, b: seq<State>, pos: seq<nat>,
                                         traces: seq<Trace>, g: Table, f: nat)
    returns (pos': seq<nat>, traces': seq<Trace>)
    requires e.kind.Group? && Unique(e) && WellFormed(c.table) && KidsInv(e, s.children, c.table, g)
    requires i < |e.kind.children| && RowPart(e, b, s.children, pos, traces, i + 1) && c.progress == pos[i + 1]
    requires f > 0 && MatchOne(e.kind.children, s, i + 1, c, f - 1) == Ok(Out(false, s, c))
    ensures MatchOneLoop(e.kind.children, s, i, c, f).Ok? ==> var o := MatchOneLoop(e.kind.children, s, i, c, f).value;
      && o.state.attempts == s.attempts && KidsKept(e, o.state.children, c, o.ctx, g)
      && (o.ok ==> RowPart(e, b, o.state.children, pos', traces', |e.kind.children|)
                   && pos'[0] == pos[0] && o.ctx.progress == pos'[|e.kind.children|])
      && (!o.ok ==> o.state.children == s.children[i := b[i]] && o.ctx.progress == pos[i])
    decreases f, 0, 1
  {
    pos', traces' := pos, traces;
    var ch := e.kind.children;
    var wi := RetryChildAt(e, s, i, c, b, pos, traces, g, f - 1);
    if Retry(ch[i], ChildState(s, i), c, f - 1).Ok? {
      var t := Retry(ch[i], ChildState(s, i), c, f - 1).value;
      if t.ok {
        pos', traces' := MatchOneRetried(e, s, i, c, b, pos, traces, t, wi, g, f);
      }
    }
  }

  /** `MatchOneRetry` once child `i` moved on: the rest of the row is matched again after it. */
  lemma {:induction false} MatchOneRetried(e: Expr, s: State, i: nat, c: Ctx, b: seq<State>, pos: seq<nat>,
                                           traces: seq<Trace>, t: Out, wi: Trace, g: Table, f: nat)
    returns (pos': seq<nat>, traces': seq<Trace>)
    requires e.kind.Group? && Unique(e) && i < |e.kind.children| && |pos| == i + 2 && |traces| == i + 1
    requires f > 0 && MatchOne(e.kind.children, s, i + 1, c, f - 1) == Ok(Out(false, s, c))
    requires Retry(e.kind.children[i], ChildState(s, i), c, f - 1) == Ok(t) && t.ok
    requires var s1 := WithChild(s, i, t.state);
      && s1.attempts == s.attempts && KidsKept(e, s1.children, c, t.ctx, g)
      && RowPart(e, b, s1.children, pos[i + 1 := t.ctx.progress], traces[i := wi], i + 1)
    ensures MatchOneLoop(e.kind.children, s, i, c, f).Ok? ==> var o := MatchOneLoop(e.kind.children, s, i, c, f).value;
      && o.state.attempts == s.attempts && KidsKept(e, o.state.children, c, o.ctx, g)
      && (o.ok ==> RowPart(e, b, o.state.children, pos', traces', |e.kind.children|)
                   && pos'[0] == pos[0] && o.ctx.progress == pos'[|e.kind.children|])
      && (!o.ok ==> o.state.children == s.children[i := b[i]] && o.ctx.progress == pos[i])
    decreases f, 0, 0
  {
    var ch := e.kind.children;
    var s1 := WithChild(s, i, t.state);
    var pos2, traces2 := pos[i + 1 := t.ctx.progress], traces[i := wi];
    pos', traces' := MatchOneLoopRestores(e, s1, i, t.ctx, b, pos2, traces2, g, f - 1);
    assert s1.children[i := b[i]] == s.children[i := b[i]];
    if MatchOneLoop(ch, s1, i, t.ctx, f - 1).Ok? {
      var o := MatchOneLoop(ch, s1, i, t.ctx, f - 1).value;
      KeptChain(e, s1.children, o.state.children, c, t.ctx, o.ctx, g);
    }
  }

  /** `__retry_one_child(i)` with children up to `i` at rest: success leaves them at rest from the
      same first cursor; failure has undone all of them and put the cursor where the row began. */
  lemma {:induction false} RetryOneChildRestores(e: Expr, s: State, i: int, c: Ctx, b: seq<State>, pos: seq<nat>,
                                                 traces: seq<Trace>, g: Table, f: nat)
    returns (pos': seq<nat>, traces': seq<Trace>)
    requires e.kind.Group? && Unique(e) && WellFormed(c.table) && KidsInv(e, s.children, c.table, g)
    requires -1 <= i < |e.kind.children| && RowPart(e, b, s.children, pos, traces, i + 1) && c.progress == pos[i + 1]
    ensures RetryOneChild(e.kind.children, s, i, c, f).Ok? ==> var o := RetryOneChild(e.kind.children, s, i, c, f).value;
      && o.state.attempts == s.attempts && KidsKept(e, o.state.children, c, o.ctx, g)
      && (o.ok ==> RowPart(e, b, o.state.children, pos', traces', i + 1) && pos'[0] == pos[0] && o.ctx.progress == pos'[i + 1])
      && (!o.ok ==> o.state.children == b && o.ctx.progress == pos[0])
    decreases f, 0
  {
    pos', traces' := pos, traces;
    var ch := e.kind.children;
    if f > 0 && i >= 0 {
      RetryOneChildStep(ch, s, i, c, f);
      var wi := RetryChildAt(e, s, i, c, b, pos, traces, g, f - 1);
      if Retry(ch[i], ChildState(s, i), c, f - 1).Ok? {
        var t := Retry(ch[i], ChildState(s, i), c, f - 1).value;
        var s1 := WithChild(s, i, t.state);
        if t.ok {
          pos', traces' := pos[i + 1 := t.ctx.progress], traces[i := wi];
        } else {
          pos', traces' := RetryOneLoopRestores(e, s1, i, t.ctx, b, pos[..i + 1], traces[..i], g, f - 1);
          if RetryOneLoop(ch, s1, i, t.ctx, f - 1).Ok? {
            var o := RetryOneLoop(ch, s1, i, t.ctx, f - 1).value;
            KeptChain(e, s1.children, o.state.children, c, t.ctx, o.ctx, g);
          }
        }
      }
    }
  }

  /** `retry` of child `i` of a group row whose children up to `i` are at rest, as the row facts
      `RetryOneChildRestores` goes on from. */
  lemma RetryChildAt(e: Expr, s: State, i: nat, c: Ctx, b: seq<State>, pos: seq<nat>, traces: seq<Trace>,
                     g: Table, f: nat) returns (wi: Trace)
    requires e.kind.Group? && Unique(e) && WellFormed(c.table) && KidsInv(e, s.children, c.table, g)
    requires i < |e.kind.children| && RowPart(e, b, s.children, pos, traces, i + 1) && c.progress == pos[i + 1]
    ensures Retry(e.kind.children[i], ChildState(s, i), c, f).Ok? ==>
      var t := Retry(e.kind.children[i], ChildState(s, i), c, f).value; var s1 := WithChild(s, i, t.state);
      && s1.attempts == s.attempts && KidsKept(e, s1.children, c, t.ctx, g)
      && (t.ok ==> RowPart(e, b, s1.children, pos[i + 1 := t.ctx.progress], traces[i := wi], i + 1))
      && (!t.ok ==> t.state == b[i] && RowPart(e, b, s1.children, pos[..i + 1], traces[..i], i) && t.ctx.progress == pos[i])
    decreases f, 2
  {
    var ch := e.kind.children;
    var kid := s.children[i];
    assert Rest(ch[i], b[i], pos[i], kid, pos[i + 1], traces[i]);
    assert TableInv(ch[i], kid, c.table, g) && Unique(ch[i]);
    wi := RetryRestores(ch[i], b[i], pos[i], kid, c, traces[i], g, f);
    if Retry(ch[i], ChildState(s, i), c, f).Ok? {
      var t := Retry(ch[i], ChildState(s, i), c, f).value;
      ChildRetried(e, s, i, c, b, pos, traces, t, wi, g);
    }
  }

  /** `while __retry_one_child(i - 1): if children[i].matches(): return True` with children before
      `i` at rest and child `i` undone: success leaves children up to `i` at rest; failure has
      undone them all. */
  lemma {:induction false} RetryOneLoopRestores(e: Expr, s: State, i: nat, c: Ctx, b: seq<State>, pos: seq<nat>,
                                                traces: seq<Trace>, g: Table, f: nat)
    returns (pos': seq<nat>, traces': seq<Trace>)
    requires e.kind.Group? && Unique(e) && WellFormed(c.table) && KidsInv(e, s.children, c.table, g)
    requires i < |e.kind.children| && RowPart(e, b, s.children, pos, traces, i) && c.progress == pos[i]
    ensures RetryOneLoop(e.kind.children, s, i, c, f).Ok? ==> var o := RetryOneLoop(e.kind.children, s, i, c, f).value;
      && o.state.attempts == s.attempts && KidsKept(e, o.state.children, c, o.ctx, g)
      && (o.ok ==> RowPart(e, b, o.state.children, pos', traces', i + 1) && pos'[0] == pos[0] && o.ctx.progress == pos'[i + 1])
      && (!o.ok ==> o.state.children == b && o.ctx.progress == pos[0])
    decreases f, 0
  {
    pos', traces' := pos, traces;
    var ch := e.kind.children;
    if f > 0 {
      RetryOneLoopStep(ch, s, i, c, f);
      var p1, t1 := RetryOneChildRestores(e, s, i - 1, c, b, pos, traces, g, f - 1);
      if RetryOneChild(ch, s, i - 1, c, f - 1).Ok? {
        var r := RetryOneChild(ch, s, i - 1, c, f - 1).value;
        if r.ok {
          pos', traces' := RetryOneLoopMatch(e, s, i, c, b, pos, traces, r, p1, t1, g, f);
        }
      }
    }
  }

  /** `RetryOneLoopRestores` once the children before `i` found another combination: child `i`
      is matched afresh after them. */
  lemma {:induction false} RetryOneLoopMatch(e: Expr, s: State, i: nat, c: Ctx, b: seq<State>, pos: seq<nat>,
                                             traces: seq<Trace>, r: Out, p1: seq<nat>, t1: seq<Trace>, g: Table, f: nat)
    returns (pos': seq<nat>, traces': seq<Trace>)
    requires e.kind.Group? && Unique(e) && WellFormed(c.table) && i < |e.kind.children| && f > 0
    requires RetryOneChild(e.kind.children, s, i - 1, c, f - 1) == Ok(r) && r.ok
    requires r.state.attempts == s.attempts && KidsKept(e, r.state.children, c, r.ctx, g)
    requires |pos| > 0 && RowPart(e, b, r.state.children, p1, t1, i) && p1[0] == pos[0] && r.ctx.progress == p1[i]
    requires r.state.children[i] == b[i]
    ensures RetryOneLoop(e.kind.children, s, i, c, f).Ok? ==> var o := RetryOneLoop(e.kind.children, s, i, c, f).value;
      && o.state.attempts == s.attempts && KidsKept(e, o.state.children, c, o.ctx, g)
      && (o.ok ==> RowPart(e, b, o.state.children, pos', traces', i + 1) && pos'[0] == pos[0] && o.ctx.progress == pos'[i + 1])
      && (!o.ok ==> o.state.children == b && o.ctx.progress == pos[0])
    decreases f, 0, 0
  {
    pos', traces' := pos, traces;
    var ch := e.kind.children;
    RetryOneLoopStep(ch, s, i, c, f);
    assert TableInv(ch[i], r.state.children[i], r.ctx.table, g) && Unique(ch[i]);
    var wi := MatchesRestores(ch[i], b[i], r.ctx, g, f - 1);
    if Matches(ch[i], ChildState(r.state, i), r.ctx, f - 1).Ok? {
      var m := Matches(ch[i], ChildState(r.state, i), r.ctx, f - 1).value;
      ChildMatched(e, r.state, i, r.ctx, b, p1, t1, m, wi, g);
      var s1 := WithChild(r.state, i, m.state);
      if m.ok {
        pos', traces' := p1 + [m.ctx.progress], t1 + [wi];
        KeptChain(e, r.state.children, s1.children, c, r.ctx, m.ctx, g);
      } else {
        pos', traces' := RetryOneLoopRestores(e, r.state, i, r.ctx, b, p1, t1, g, f - 1);
        if RetryOneLoop(ch, r.state, i, r.ctx, f - 1).Ok? {
          var o := RetryOneLoop(ch, r.state, i, r.ctx, f - 1).value;
          KeptChain(e, r.state.children, o.state.children, c, r.ctx, o.ctx, g);
        }
      }
    }
  }

  /** `_reevaluate_previous_repetition` on a node at rest: success leaves it at rest (the last
      row replaced, or dropped and a new one found); failure leaves the attempt empty and the
      children and the cursor where the attempt began. */
  lemma {:induction false} ReevaluateRestores(e: Expr, s0: State, p0: nat, s: State, c: Ctx, w: Trace, g: Table, f: nat)
    returns (w': Trace)
    requires !IsLeaf(e) && Unique(e) && WellFormed(c.table) && KidsInv(e, s.children, c.table, g)
    requires Rest(e, s0, p0, s, c.progress, w)
    ensures Reevaluate(e, s, c, f).Ok? ==> var o := Reevaluate(e, s, c, f).value;
      && KidsKept(e, o.state.children, c, o.ctx, g)
      && (o.ok ==> Rest(e, s0, p0, o.state, o.ctx.progress, w'))
      && (!o.ok ==> o.state == PushAttempt(s0) && o.ctx.progress == p0)
    decreases f, 0
  {
    w' := w;
    if f > 0 {
      if Top(s) == [] {
        assert Grid(e, s0.children, p0, Top(s), s.children, c.progress, w.rows);
        assert RowsOk(e, s0.children, p0, Top(s), w.rows);
        assert w.rows == [] && s.children == Before(s0.children, w.rows, 0);
        assert s == PushAttempt(s0);
      } else if e.kind.Group? {
        w' := ReevaluateGroup(e, s0, p0, s, c, w, g, f);
      }
    }
  }

  /** The last row of a group at rest, reopened: its children at rest from the children and
      cursor the row began with, and the node without that row at rest. */
  lemma LastRowOpen(e: Expr, s0: State, p0: nat, s: State, p: nat, w: Trace)
    requires e.kind.Group? && Rest(e, s0, p0, s, p, w) && Top(s) != []
    ensures var rows, m := w.rows, |Top(s)| - 1;
      && |rows| == |Top(s)|
      && RowPart(e, Before(s0.children, rows, m), s.children, rows[m].pos, rows[m].traces, |e.kind.children|)
      && rows[m].pos[0] == Start(p0, rows, m) && rows[m].pos[|e.kind.children|] == p
      && Rest(e, s0, p0, State(s0.attempts + [Top(s)[..m]], Before(s0.children, rows, m)), Start(p0, rows, m), Rows(rows[..m]))
      && RowsOk(e, s0.children, p0, Top(s)[..m], rows[..m])
      && Before(s0.children, rows[..m], m) == Before(s0.children, rows, m)
      && Start(p0, rows[..m], m) == Start(p0, rows, m)
  {
    var top, rows := Top(s), w.rows;
    assert Grid(e, s0.children, p0, top, s.children, p, rows);
    assert RowsOk(e, s0.children, p0, top, rows);
    assert |rows| == |top|;
    var m := |rows| - 1;
    GroupRowAt(e, s0.children, p0, top, rows, m);
    GridPrefix(e, s0.children, p0, top, rows, m);
    var s1 := State(s0.attempts + [top[..m]], Before(s0.children, rows, m));
    assert Top(s1) == top[..m];
  }

  /** The group case of `_reevaluate_previous_repetition`. */
  lemma {:induction false} ReevaluateGroup(e: Expr, s0: State, p0: nat, s: State, c: Ctx, w: Trace, g: Table, f: nat)
    returns (w': Trace)
    requires e.kind.Group? && Unique(e) && WellFormed(c.table) && KidsInv(e, s.children, c.table, g)
    requires Rest(e, s0, p0, s, c.progress, w) && Top(s) != [] && f > 0
    ensures Reevaluate(e, s, c, f).Ok? ==> var o := Reevaluate(e, s, c, f).value;
      && KidsKept(e, o.state.children, c, o.ctx, g)
      && (o.ok ==> Rest(e, s0, p0, o.state, o.ctx.progress, w'))
      && (!o.ok ==> o.state == PushAttempt(s0) && o.ctx.progress == p0)
    decreases f, 0, 1
  {
    w' := w;
    var ch := e.kind.children;
    var n := |ch|;
    var top, rows := Top(s), w.rows;
    var m := |top| - 1;
    LastRowOpen(e, s0, p0, s, c.progress, w);
    var row := rows[m];
    var bm, pm := Before(s0.children, rows, m), Start(p0, rows, m);
    var s1 := SetTop(s, top[..m]);
    assert s1.attempts == s0.attempts + [top[..m]] && s1.children == s.children;
    var pos, traces := RetryOneChildRestores(e, s1, n - 1, c, bm, row.pos, row.traces, g, f - 1);
    ReevaluateGroupUnfolds(e, s, c, f);
    if RetryOneChild(ch, s1, n - 1, c, f - 1).Ok? {
      var r := RetryOneChild(ch, s1, n - 1, c, f - 1).value;
      if r.ok {
        w' := ReevaluateFound(e, s0, p0, s, c, r, top[..m], rows[..m], bm, pos, traces, g, f);
      } else {
        assert r.state == State(s0.attempts + [top[..m]], bm);
        w' := ReevaluateRetreat(e, s0, p0, s, c, r, Rows(rows[..m]), g, f);
      }
    }
  }

  /** `ReevaluateGroup` once the last child's retry found the row again. */
  lemma ReevaluateFound(e: Expr, s0: State, p0: nat, s: State, c: Ctx, r: Out, reps: seq<Rep>, rows: seq<Row>,
                        bm: seq<State>, pos: seq<nat>, traces: seq<Trace>, g: Table, f: nat)
    returns (w': Trace)
    requires e.kind.Group? && r.ok && KidsKept(e, r.state.children, c, r.ctx, g)
    requires Reevaluate(e, s, c, f) == Ok(Out(true, AppendRep(r.state, ReevaluatedRep(r.state.children, r.ctx.progress)), r.ctx))
    requires r.state.attempts == s0.attempts + [reps] && RowsOk(e, s0.children, p0, reps, rows)
    requires bm == Before(s0.children, rows, |rows|)
    requires RowPart(e, bm, r.state.children, pos, traces, |e.kind.children|) && r.ctx.progress == pos[|e.kind.children|]
    requires pos[0] == Start(p0, rows, |rows|)
    ensures Reevaluate(e, s, c, f).Ok? ==> var o := Reevaluate(e, s, c, f).value;
      && KidsKept(e, o.state.children, c, o.ctx, g)
      && (o.ok ==> Rest(e, s0, p0, o.state, o.ctx.progress, w'))
      && (!o.ok ==> o.state == PushAttempt(s0) && o.ctx.progress == p0)
  {
    w' := RowReevaluated(e, s0, p0, reps, rows, r.state, r.ctx.progress, bm, pos, traces);
  }

  /** `ReevaluateGroup` once the last child's retry failed: the loop goes on from the rows before. */
  lemma {:induction false} ReevaluateRetreat(e: Expr, s0: State, p0: nat, s: State, c: Ctx, r: Out, w: Trace, g: Table, f: nat)
    returns (w': Trace)
    requires e.kind.Group? && Unique(e) && f > 0 && KidsKept(e, r.state.children, c, r.ctx, g)
    requires Reevaluate(e, s, c, f) == ReevaluateLoop(e, r.state, r.ctx, f - 1)
    requires Rest(e, s0, p0, r.state, r.ctx.progress, w)
    ensures Reevaluate(e, s, c, f).Ok? ==> var o := Reevaluate(e, s, c, f).value;
      && KidsKept(e, o.state.children, c, o.ctx, g)
      && (o.ok ==> Rest(e, s0, p0, o.state, o.ctx.progress, w'))
      && (!o.ok ==> o.state == PushAttempt(s0) && o.ctx.progress == p0)
    decreases f, 0, 0
  {
    w' := ReevaluateLoopRestores(e, s0, p0, r.state, r.ctx, w, g, f - 1);
    if ReevaluateLoop(e, r.state, r.ctx, f - 1).Ok? {
      var o := ReevaluateLoop(e, r.state, r.ctx, f - 1).value;
      KeptChain(e, r.state.children, o.state.children, c, r.ctx, o.ctx, g);
    }
  }

  /** The two ways the group case of `_reevaluate_previous_repetition` ends, once the retry of
      the last child returned `r`. */
  lemma ReevaluateGroupUnfolds(e: Expr, s: State, c: Ctx, f: nat)
    requires e.kind.Group? && Top(s) != [] && f > 0
    ensures var rr := RetryOneChild(e.kind.children, SetTop(s, Top(s)[..|Top(s)| - 1]), |e.kind.children| - 1, c, f - 1);
      && (rr.Raise? ==> Reevaluate(e, s, c, f).Raise?)
      && (rr.Ok? && rr.value.ok ==> var r := rr.value;
            Reevaluate(e, s, c, f) == Ok(Out(true, AppendRep(r.state, ReevaluatedRep(r.state.children, r.ctx.progress)), r.ctx)))
      && (rr.Ok? && !rr.value.ok ==> Reevaluate(e, s, c, f) == ReevaluateLoop(e, rr.value.state, rr.value.ctx, f - 1))
  {
  }

  /** Two calls in a row that each keep the children's publications keep them together. */
  lemma KeptChain(e: Expr, kids1: seq<State>, kids2: seq<State>, c: Ctx, c1: Ctx, c2: Ctx, g: Table)
    requires KidsKept(e, kids1, c, c1, g) && KidsKept(e, kids2, c1, c2, g)
    ensures KidsKept(e, kids2, c, c2, g)
  {
  }

  /** A group row found again by reevaluation, appended to the rows before it. */
  lemma RowReevaluated(e: Expr, s0: State, p0: nat, reps: seq<Rep>, rows: seq<Row>, s1: State, p: nat,
                       bm: seq<State>, pos: seq<nat>, traces: seq<Trace>) returns (w: Trace)
    requires e.kind.Group? && s1.attempts == s0.attempts + [reps] && RowsOk(e, s0.children, p0, reps, rows)
    requires bm == Before(s0.children, rows, |rows|)
    requires RowPart(e, bm, s1.children, pos, traces, |e.kind.children|) && p == pos[|e.kind.children|]
    requires pos[0] == Start(p0, rows, |rows|)
    ensures Rest(e, s0, p0, AppendRep(s1, ReevaluatedRep(s1.children, p)), p, w)
  {
    var n := |e.kind.children|;
    var nrow := Row(pos, s1.children, traces);
    RowEnds(e, bm, s1.children, pos, traces);
    RowScan(e, bm, s1.children, pos, traces, n, pos[n], pos[n]);
    assert s1.children[..n] == s1.children;
    var rep := ReevaluatedRep(s1.children, p);
    assert rep == Rep(pos[0], pos[n], None);
    assert RowOk(e, bm, pos[0], nrow, rep);
    w := AppendRow(e, s0, p0, s1, reps, rows, nrow, rep);
  }

  /** `while reevaluate: r = _matches_once(); if r: append` on a node at rest. */
  lemma {:induction false} ReevaluateLoopRestores(e: Expr, s0: State, p0: nat, s: State, c: Ctx, w: Trace, g: Table, f: nat)
    returns (w': Trace)
    requires !IsLeaf(e) && Unique(e) && WellFormed(c.table) && KidsInv(e, s.children, c.table, g)
    requires Rest(e, s0, p0, s, c.progress, w)
    ensures ReevaluateLoop(e, s, c, f).Ok? ==> var o := ReevaluateLoop(e, s, c, f).value;
      && KidsKept(e, o.state.children, c, o.ctx, g)
      && (o.ok ==> Rest(e, s0, p0, o.state, o.ctx.progress, w'))
      && (!o.ok ==> o.state == PushAttempt(s0) && o.ctx.progress == p0)
    decreases f, 0, 1
  {
    w' := w;
    if f > 0 {
      var w1 := ReevaluateRestores(e, s0, p0, s, c, w, g, f - 1);
      if Reevaluate(e, s, c, f - 1).Ok? {
        var r := Reevaluate(e, s, c, f - 1).value;
        if r.ok {
          w' := ReevaluateLoopMatch(e, s0, p0, s, c, r, w1, g, f);
        }
      }
    }
  }

  /** `ReevaluateLoopRestores` once reevaluation succeeded: `_matches_once`, then append or loop. */
  lemma {:induction false} ReevaluateLoopMatch(e: Expr, s0: State, p0: nat, s: State, c: Ctx, r: Out, w: Trace, g: Table, f: nat)
    returns (w': Trace)
    requires !IsLeaf(e) && Unique(e) && f > 0
    requires Reevaluate(e, s, c, f - 1) == Ok(r) && r.ok
    requires KidsKept(e, r.state.children, c, r.ctx, g) && Rest(e, s0, p0, r.state, r.ctx.progress, w)
    ensures ReevaluateLoop(e, s, c, f).Ok? ==> var o := ReevaluateLoop(e, s, c, f).value;
      && KidsKept(e, o.state.children, c, o.ctx, g)
      && (o.ok ==> Rest(e, s0, p0, o.state, o.ctx.progress, w'))
      && (!o.ok ==> o.state == PushAttempt(s0) && o.ctx.progress == p0)
    decreases f, 0, 0
  {
    w' := w;
    var row := MatchesOnceRestores(e, r.state, r.ctx, g, f - 1);
    if MatchesOnce(e, r.state, r.ctx, f - 1).Ok? {
      var m := MatchesOnce(e, r.state, r.ctx, f - 1).value;
      if m.rep.Some? {
        w' := OnceAppends(e, s0, p0, r.state, r.ctx, w, m, row, g);
        KeptChain(e, r.state.children, AppendRep(m.state, m.rep.value).children, c, r.ctx, m.ctx, g);
      } else {
        w' := ReevaluateLoopRestores(e, s0, p0, r.state, r.ctx, w, g, f - 1);
        if ReevaluateLoop(e, r.state, r.ctx, f - 1).Ok? {
          var o := ReevaluateLoop(e, r.state, r.ctx, f - 1).value;
          KeptChain(e, r.state.children, o.state.children, c, r.ctx, o.ctx, g);
        }
      }
    }
  }

  /** The body of composite `retry` on a node at rest leaves it at rest, whether it succeeds or not. */
  lemma {:induction false} CompositeRetryBodyRestores(e: Expr, s0: State, p0: nat, s: State, c: Ctx, w: Trace, g: Table, f: nat)
    returns (w': Trace)
    requires !IsLeaf(e) && Unique(e) && WellFormed(c.table) && KidsInv(e, s.children, c.table, g)
    requires Rest(e, s0, p0, s, c.progress, w)
    ensures CompositeRetryBody(e, s, c, f).Ok? ==> var o := CompositeRetryBody(e, s, c, f).value;
      KidsKept(e, o.state.children, c, o.ctx, g) && Rest(e, s0, p0, o.state, o.ctx.progress, w')
    decreases f, 0
  {
    w' := w;
    var init := |Top(s)|;
    if f > 0 && !(init == 0 && e.greedy) {
      if init == 0 {
        if !Reaches(init, RetryBound(e)) {
          w' := RebuildRestores(e, s0, p0, s, c, w, g, init + 1, f - 1);
        }
      } else {
        var wr := ReevaluateRestores(e, s0, p0, s, c, w, g, f - 1);
        if Reevaluate(e, s, c, f - 1).Ok? {
          var r := Reevaluate(e, s, c, f - 1).value;
          if r.ok {
            w' := wr;
          } else {
            var w0 := Rows([]);
            assert Rest(e, s0, p0, r.state, r.ctx.progress, w0);
            w' := w0;
            if !Reaches(init, RetryBound(e)) {
              var n: nat := if e.greedy then init - 1 else init + 1;
              w' := RebuildRestores(e, s0, p0, r.state, r.ctx, w0, g, n, f - 1);
            }
          }
        }
      }
    }
  }

  /** Rebuilding `n` repetitions on a node at rest leaves it at rest; on success `n` rows were added. */
  lemma {:induction false} RebuildRestores(e: Expr, s0: State, p0: nat, s: State, c: Ctx, w: Trace, g: Table, n: nat, f: nat)
    returns (w': Trace)
    requires !IsLeaf(e) && Unique(e) && WellFormed(c.table) && KidsInv(e, s.children, c.table, g)
    requires Rest(e, s0, p0, s, c.progress, w)
    ensures Rebuild(e, s, c, n, f).Ok? ==> var o := Rebuild(e, s, c, n, f).value;
      && KidsKept(e, o.state.children, c, o.ctx, g) && Rest(e, s0, p0, o.state, o.ctx.progress, w')
      && (o.ok ==> |Top(o.state)| == |Top(s)| + n)
    decreases f, 0
  {
    w' := w;
    if f > 0 && n > 0 {
      var row := MatchesOnceRestores(e, s, c, g, f - 1);
      if MatchesOnce(e, s, c, f - 1).Ok? {
        var m := MatchesOnce(e, s, c, f - 1).value;
        if m.rep.Some? {
          var w1 := OnceAppends(e, s0, p0, s, c, w, m, row, g);
          w' := RebuildRestores(e, s0, p0, AppendRep(m.state, m.rep.value), m.ctx, w1, g, n - 1, f - 1);
        }
      }
    }
  }
}
