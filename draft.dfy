/** The first draft of the repetition protocol (cre.py): an `EvaluationContext` with a cursor and
  * a table of capture stacks keyed by name, and a character node whose `_results` list of
  * attempts grows with `matches` and shrinks with `retry`. Only the character node is complete in
  * the draft; the other node kinds are not part of this model.
  */
module Draft {
  import opened Base

  /** The exceptions the draft raises on the paths this model follows. */
  datatype DraftError = IndexError | KeyError | NameError

  /** `context.matches`: capture stacks by name. */
  type Table = map<string, seq<Span>>

  function Last<T>(s: seq<T>): T
    requires s != []
  {
    s[|s| - 1]
  }

  function Front<T>(s: seq<T>): seq<T>
    requires s != []
  {
    s[..|s| - 1]
  }

  // ---------------------------------------------------------------------------
  // Reference definitions

  /** How many copies of `c` follow each other in `s` from offset `p`. */
  function Run(c: char, s: string, p: nat): nat
    decreases |s| - p
  {
    if p < |s| && s[p] == c then 1 + Run(c, s, p + 1) else 0
  }

  /** The run is exactly the block of `c`s at `p`: all of it is `c`, and what follows is not. */
  lemma {:induction false} RunIsMaximal(c: char, s: string, p: nat)
    ensures Run(c, s, p) == 0 || p + Run(c, s, p) <= |s|
    ensures forall i :: p <= i < p + Run(c, s, p) ==> i < |s| && s[i] == c
    ensures p + Run(c, s, p) < |s| ==> s[p + Run(c, s, p)] != c
    decreases |s| - p
  {
    if p < |s| && s[p] == c {
      RunIsMaximal(c, s, p + 1);
    }
  }

  /** Over a subject made only of `c` from `p` on, the run reaches the end. */
  lemma {:induction false} RunOfUniform(c: char, s: string, p: nat)
    requires p <= |s|
    requires forall i :: p <= i < |s| ==> s[i] == c
    ensures Run(c, s, p) == |s| - p
    decreases |s| - p
  {
    if p < |s| {
      RunOfUniform(c, s, p + 1);
    }
  }

  /** `k`, but no more than a finite `limit`. */
  function Capped(k: nat, limit: Limit): (r: nat)
    ensures r <= k && Within(r, limit)
    ensures r == k || Reaches(r, limit)
  {
    if limit.Finite? && limit.n < k then limit.n else k
  }

  /** The `n` width-one spans that follow each other from `p`. */
  function Consecutive(p: nat, n: nat): seq<Span> {
    seq(n, i requires 0 <= i < n => Span(p + i, p + i + 1))
  }

  lemma ConsecutiveSnoc(p: nat, n: nat)
    ensures Consecutive(p, n + 1) == Consecutive(p, n) + [Span(p + n, p + n + 1)]
  {
    assert Consecutive(p, n + 1)[..n] == Consecutive(p, n);
  }

  // ---------------------------------------------------------------------------
  // The capture table

  /** `matches.setdefault(name, []).append(v)`. */
  function Append(t: Table, name: string, v: Span): (r: Table)
    ensures r.Keys == t.Keys + {name}
    ensures r[name] == (if name in t then t[name] else []) + [v]
    ensures forall k :: k in t && k != name ==> r[k] == t[k]
  {
    t[name := (if name in t then t[name] else []) + [v]]
  }

  /** `matches[name].pop()`, then `del matches[name]` once the stack is empty. */
  function PopTop(t: Table, name: string): (r: Result<Table, DraftError>)
    ensures name !in t ==> r == Raise(KeyError)
    ensures r.Ok? <==> name in t && t[name] != []
    ensures r.Ok? ==> r.value.Keys <= t.Keys && (name in r.value <==> |t[name]| > 1)
    ensures r.Ok? && name in r.value ==> r.value[name] == Front(t[name])
    ensures r.Ok? ==> forall k :: k in t && k != name ==> k in r.value && r.value[k] == t[k]
  {
    if name !in t then Raise(KeyError)
    else if t[name] == [] then Raise(IndexError)
    else if |t[name]| == 1 then Ok(t - {name})
    else Ok(t[name := Front(t[name])])
  }

  /** `matches[name][-1] = v`. */
  function SetTop(t: Table, name: string, v: Span): (r: Result<Table, DraftError>)
    ensures name !in t ==> r == Raise(KeyError)
    ensures r.Ok? <==> name in t && t[name] != []
    ensures r.Ok? ==> r.value.Keys == t.Keys && r.value[name] == Front(t[name]) + [v]
    ensures r.Ok? ==> forall k :: k in t && k != name ==> r.value[k] == t[k]
  {
    if name !in t then Raise(KeyError)
    else if t[name] == [] then Raise(IndexError)
    else Ok(t[name := Front(t[name]) + [v]])
  }

  /** Every key of the table has a capture: the shape `PopTop` keeps. */
  predicate NoEmptyStacks(t: Table) {
    forall k :: k in t ==> t[k] != []
  }

  /** Popping what was just appended gives the table back. */
  lemma AppendThenPopRestores(t: Table, name: string, v: Span)
    requires NoEmptyStacks(t)
    ensures PopTop(Append(t, name, v), name) == Ok(t)
  {
    var r := PopTop(Append(t, name, v), name).value;
    if name in t {
      assert r[name] == t[name];
    }
    assert r == t;
  }

  /** Overwriting what was just appended is appending the new value instead. */
  lemma AppendThenSetTop(t: Table, name: string, v: Span, w: Span)
    ensures SetTop(Append(t, name, v), name, w) == Ok(Append(t, name, w))
  {
    var s := if name in t then t[name] else [];
    assert Front(s + [v]) == s;
    assert Append(t, name, v)[name := s + [w]] == t[name := s + [w]];
  }

  /** Appending and popping keep every key's stack non-empty. */
  lemma TableShapeKept(t: Table, name: string, v: Span)
    requires NoEmptyStacks(t)
    ensures NoEmptyStacks(Append(t, name, v))
    ensures PopTop(t, name).Ok? ==> NoEmptyStacks(PopTop(t, name).value)
  {
  }

  /** The capture update of a named `retry`: overwrite the top capture with the attempt's new
      last span on success, pop it on failure. */
  function Recapture(t: Table, name: Option<string>, ok: bool, top: seq<Span>): (r: Result<Table, DraftError>)
    ensures name.None? ==> r == Ok(t)
    ensures name.Some? && ok && top == [] ==> r == Raise(IndexError)
    ensures name.Some? && ok && top != [] ==> r == SetTop(t, name.value, Last(top))
    ensures name.Some? && !ok ==> r == PopTop(t, name.value)
  {
    if name.None? then Ok(t)
    else if ok then (if top == [] then Raise(IndexError) else SetTop(t, name.value, Last(top)))
    else PopTop(t, name.value)
  }

  // ---------------------------------------------------------------------------
  // The context

  /** `EvaluationContext`: the subject, the cursor, and the capture stacks. */
  class DraftContext {
    var progress: int
    var subject: string
    var matches: Table

    constructor (subject: string)
      ensures this.subject == subject && progress == 0 && matches == map[]
    {
      this.subject := subject;
      progress := 0;
      matches := map[];
    }

    /** `remaining_subject`: what lies after the cursor, Python's `subject[progress:]`. */
    function Remaining(): (r: string)
      reads this
      ensures |r| <= |subject|
      ensures 0 <= progress <= |subject| ==> subject == subject[..progress] + r
      ensures progress >= |subject| ==> r == []
    {
      if progress >= 0 then Suffix(subject, progress)
      else if |subject| + progress <= 0 then subject
      else subject[|subject| + progress..]
    }

    /** `current_subject_character`: Python's `subject[progress]`, counting from the end for a
        negative cursor. */
    function Current(): (r: Result<char, DraftError>)
      reads this
      ensures r.Ok? <==> -|subject| <= progress < |subject|
      ensures 0 <= progress < |subject| ==> r == Ok(subject[progress])
    {
      if 0 <= progress < |subject| then Ok(subject[progress])
      else if -|subject| <= progress < 0 then Ok(subject[|subject| + progress])
      else Raise(IndexError)
    }

    /** `flattened_matches`: the top capture of every name. */
    function Flattened(): (r: Result<map<string, Span>, DraftError>)
      reads this
      ensures r.Ok? <==> NoEmptyStacks(matches)
      ensures r.Ok? ==> r.value.Keys == matches.Keys
      ensures r.Ok? ==> forall k :: k in matches ==> r.value[k] == Last(matches[k])
    {
      if NoEmptyStacks(matches) then Ok(map k | k in matches :: Last(matches[k]))
      else Raise(IndexError)
    }

    /** `get_match_range`: the top capture of `group`. */
    function MatchRange(group: string): (r: Result<Span, DraftError>)
      reads this
      ensures r.Ok? <==> group in matches && matches[group] != []
      ensures r.Ok? ==> r.value == Last(matches[group])
    {
      if group !in matches then Raise(KeyError)
      else if matches[group] == [] then Raise(IndexError)
      else Ok(Last(matches[group]))
    }

    /** `get_match_string`: the subject text under the top capture of `group`. */
    function MatchString(group: string): (r: Result<string, DraftError>)
      reads this
      ensures r.Ok? <==> MatchRange(group).Ok?
      ensures r.Ok? && MatchRange(group).value.start <= MatchRange(group).value.end <= |subject| ==>
        r.value == subject[MatchRange(group).value.start..MatchRange(group).value.end]
    {
      var m :- MatchRange(group);
      Ok(Slice(subject, m.start, m.end))
    }
  }

  // ---------------------------------------------------------------------------
  // The character node

  /** `CharacterExpression`: `character` repeated between `min` and `max` times, greedily or
      not, capturing its last repetition under `name`. */
  class CharacterExpression {
    const character: char
    var min: nat
    var max: Limit
    var greedy: bool
    const name: Option<string>
    var results: seq<seq<Span>>

    constructor (character: char, min: nat, max: Limit, greedy: bool, name: Option<string>)
      ensures this.character == character && this.min == min && this.max == max
      ensures this.greedy == greedy && this.name == name && results == []
    {
      this.character := character;
      this.min := min;
      this.max := max;
      this.greedy := greedy;
      this.name := name;
      results := [];
    }

    /** `_matches_once`: the width-one span at the cursor if the subject has the node's character
        there, and nothing otherwise; the cursor is only read. */
    function MatchOnce(ctx: DraftContext): (m: Option<Span>)
      reads ctx
      requires 0 <= ctx.progress < |ctx.subject|
      ensures m.Some? <==> Run(character, ctx.subject, ctx.progress) > 0
      ensures m.Some? ==> m.value == Span(ctx.progress, ctx.progress + 1)
      ensures m.Some? ==> ctx.subject[m.value.start..m.value.end] == [character]
    {
      if ctx.subject[ctx.progress] == character then Some(Span(ctx.progress, ctx.progress + 1)) else None
    }

    /** The loop of `_matches_greedy` and `_matches_minimal`: step while the cursor is inside the
        subject and fewer than `limit` spans were taken, moving the cursor to the end of each. It
        takes the run of the node's character at the cursor, cut at `limit`. */
    method TakeSteps(ctx: DraftContext, limit: Limit) returns (spans: seq<Span>)
      requires 0 <= ctx.progress
      modifies ctx`progress
      ensures spans == Consecutive(old(ctx.progress), Capped(Run(character, ctx.subject, old(ctx.progress)), limit))
      ensures ctx.progress == old(ctx.progress) + |spans|
    {
      ghost var p0: nat := ctx.progress;
      spans := [];
      while ctx.progress < |ctx.subject| && Below(|spans|, limit)
        invariant ctx.progress == p0 + |spans|
        invariant spans == Consecutive(p0, |spans|)
        invariant Run(character, ctx.subject, p0) == |spans| + Run(character, ctx.subject, ctx.progress)
        invariant Within(|spans|, limit)
        decreases |ctx.subject| - ctx.progress
      {
        var m := MatchOnce(ctx);
        if m.None? {
          break;
        }
        ConsecutiveSnoc(p0, |spans|);
        spans := spans + [m.value];
        ctx.progress := m.value.end;
      }
    }

    /** `_matches_greedy`: take up to `max` repetitions; with fewer than `min` restore the cursor
        and fail, otherwise record the attempt. */
    method MatchesGreedy(ctx: DraftContext) returns (ok: bool)
      requires 0 <= ctx.progress
      modifies this`results, ctx`progress
      ensures var n := Capped(Run(character, ctx.subject, old(ctx.progress)), max);
        && (ok <==> min <= n)
        && (ok ==> results == old(results) + [Consecutive(old(ctx.progress), n)] && ctx.progress == old(ctx.progress) + n)
        && (!ok ==> results == old(results) && ctx.progress == old(ctx.progress))
    {
      var progress := ctx.progress;
      var spans := TakeSteps(ctx, max);
      if |spans| < min {
        ctx.progress := progress;
        return false;
      }
      results := results + [spans];
      return true;
    }

    /** `_matches_minimal`: take no more than `min` repetitions; a success records exactly `min`
        spans, a failure restores the cursor and records nothing. */
    method MatchesMinimal(ctx: DraftContext) returns (ok: bool)
      requires 0 <= ctx.progress
      modifies this`results, ctx`progress
      ensures ok <==> min <= Run(character, ctx.subject, old(ctx.progress))
      ensures ok ==> results == old(results) + [Consecutive(old(ctx.progress), min)] && ctx.progress == old(ctx.progress) + min
      ensures !ok ==> results == old(results) && ctx.progress == old(ctx.progress)
    {
      var progress := ctx.progress;
      var spans := TakeSteps(ctx, Finite(min));
      if |spans| < min {
        ctx.progress := progress;
        return false;
      }
      results := results + [spans];
      return true;
    }

    /** The node at rest after a successful `matches` or `retry`: its top attempt is a block of
        width-one spans ending at the cursor, and a named node's top capture is its last span. */
    predicate Tracks(ctx: DraftContext)
      reads this, ctx
    {
      && results != []
      && var top := Last(results);
        top != [] ==>
          && top == Consecutive(top[0].start, |top|)
          && ctx.progress == Last(top).end
          && (name.Some? ==> name.value in ctx.matches && ctx.matches[name.value] != []
                             && Last(ctx.matches[name.value]) == Last(top))
    }

    /** `matches`: dispatch on `greedy`, then append the last repetition to the capture stack of
        a named node. A named node that succeeds with no repetition raises `IndexError`. */
    method Matches(ctx: DraftContext) returns (ok: bool, err: Option<DraftError>)
      requires 0 <= ctx.progress
      modifies this`results, ctx`progress, ctx`matches
      ensures var p0 := old(ctx.progress);
        var n := Capped(Run(character, ctx.subject, p0), if greedy then max else Finite(min));
        && (err.Some? <==> min <= n && n == 0 && name.Some?)
        && (err.Some? ==> err == Some(IndexError))
        && (err.None? ==> (ok <==> min <= n))
        && (err.None? && ok ==>
          && results == old(results) + [Consecutive(p0, n)]
          && ctx.progress == p0 + n
          && ctx.matches == if name.Some? then Append(old(ctx.matches), name.value, Span(p0 + n - 1, p0 + n))
                            else old(ctx.matches))
        && (err.None? && !ok ==>
          results == old(results) && ctx.progress == p0 && ctx.matches == old(ctx.matches))
      ensures err.None? && ok ==> Tracks(ctx)
    {
      ghost var p0: nat := ctx.progress;
      if greedy {
        ok := MatchesGreedy(ctx);
      } else {
        ok := MatchesMinimal(ctx);
      }
      if ok && name.Some? {
        var top := results[|results| - 1];
        if top == [] {
          return ok, Some(IndexError);
        }
        ctx.matches := Append(ctx.matches, name.value, top[|top| - 1]);
      }
      return ok, None;
    }

    /** `_retry_greedy`: with no more than `min` repetitions drop the attempt and fail, leaving
        the cursor where it is; otherwise drop the last repetition and move the cursor back by
        its width. */
    method RetryGreedy(ctx: DraftContext) returns (ok: bool, err: Option<DraftError>)
      modifies this`results, ctx`progress
      ensures old(results) == [] ==> err == Some(IndexError)
      ensures old(results) != [] ==>
        var top := Last(old(results));
        && err.None?
        && (ok <==> min < |top|)
        && results == Front(old(results)) + (if ok then [Front(top)] else [])
        && ctx.progress == old(ctx.progress) - (if ok then Last(top).end - Last(top).start else 0)
    {
      if results == [] {
        return false, Some(IndexError);
      }
      var top := results[|results| - 1];
      if |top| <= min {
        results := results[..|results| - 1];
        return false, None;
      }
      var m := top[|top| - 1];
      results := results[..|results| - 1] + [top[..|top| - 1]];
      ctx.progress := ctx.progress - (m.end - m.start);
      return true, None;
    }

    /** `_retry_minimal`: with `max` repetitions drop the attempt and fail. Otherwise it reads the
        subject character at the cursor and then refers to a variable it never defined, so it
        raises `IndexError` or `NameError`. */
    method RetryMinimal(ctx: DraftContext) returns (ok: bool, err: Option<DraftError>)
      modifies this`results
      ensures old(results) == [] ==> err == Some(IndexError)
      ensures old(results) != [] && Reaches(|Last(old(results))|, max) ==>
        err.None? && !ok && results == Front(old(results))
      ensures old(results) != [] && !Reaches(|Last(old(results))|, max) ==>
        err == Some(if ctx.Current().Raise? then IndexError else NameError)
    {
      if results == [] {
        return false, Some(IndexError);
      }
      var top := results[|results| - 1];
      if Reaches(|top|, max) {
        results := results[..|results| - 1];
        return false, None;
      }
      var c := ctx.Current();
      if c.Raise? {
        return false, Some(IndexError);
      }
      return false, Some(NameError);
    }

    /** `retry`: dispatch on `greedy`, then move a named node's top capture to the new last
        repetition on success, or pop it on failure. */
    method Retry(ctx: DraftContext) returns (ok: bool, err: Option<DraftError>)
      modifies this`results, ctx`progress, ctx`matches
      ensures old(results) == [] ==> err == Some(IndexError)
      ensures greedy && old(results) != [] ==>
        var top := Last(old(results));
        var stepped := min < |top|;
        var t := Recapture(old(ctx.matches), name, stepped, if stepped then Front(top) else []);
        && results == Front(old(results)) + (if stepped then [Front(top)] else [])
        && ctx.progress == old(ctx.progress) - (if stepped then Last(top).end - Last(top).start else 0)
        && (err.None? <==> t.Ok?)
        && (t.Ok? ==> ok == stepped && ctx.matches == t.value)
      ensures !greedy && old(results) != [] && Reaches(|Last(old(results))|, max) ==>
        var t := Recapture(old(ctx.matches), name, false, []);
        && results == Front(old(results))
        && ctx.progress == old(ctx.progress)
        && (err.None? <==> t.Ok?)
        && (t.Ok? ==> !ok && ctx.matches == t.value)
      ensures !greedy && old(results) != [] && !Reaches(|Last(old(results))|, max) ==>
        err == Some(if old(ctx.Current()).Raise? then IndexError else NameError)
      ensures greedy && old(Tracks(ctx)) && err.None? ==>
        (ok ==> Tracks(ctx) && ctx.progress == old(ctx.progress) - 1)
    {
      if greedy {
        ok, err := RetryGreedy(ctx);
      } else {
        ok, err := RetryMinimal(ctx);
      }
      if err.Some? || name.None? {
        return;
      }
      var t: Result<Table, DraftError>;
      if ok {
        var top := results[|results| - 1];
        if top == [] {
          return ok, Some(IndexError);
        }
        t := SetTop(ctx.matches, name.value, top[|top| - 1]);
      } else {
        t := PopTop(ctx.matches, name.value);
      }
      if t.Raise? {
        return ok, Some(t.error);
      }
      ctx.matches := t.value;
    }
  }

  // ---------------------------------------------------------------------------
  // The scenarios the draft's test suite describes

  /** One named greedy `matches` with `max` set to `k`, over a subject made only of the node's
      character, with at least `k` characters left: `k` steps, the last one captured. */
  method NamedUniformStep(ctx: DraftContext, e: CharacterExpression, k: nat)
    requires e.greedy && e.min == 1 && 1 <= k && e.name.Some? && 0 <= ctx.progress
    requires ctx.progress + k <= |ctx.subject|
    requires forall i :: ctx.progress <= i < |ctx.subject| ==> ctx.subject[i] == e.character
    modifies e`max, e`results, ctx`progress, ctx`matches
    ensures ctx.progress == old(ctx.progress) + k
    ensures ctx.matches == Append(old(ctx.matches), e.name.value, Span(old(ctx.progress) + k - 1, old(ctx.progress) + k))
  {
    e.max := Finite(k);
    RunOfUniform(e.character, ctx.subject, ctx.progress);
    var ok, err := e.Matches(ctx);
  }

  /** A named greedy node over eight `a`s with `max` 1, then 2, then 5: the cursor ends at 1, 3
      and 8, and each call captures its last repetition. */
  method ContextScenario() returns (cursors: seq<int>, table: Table)
    ensures cursors == [1, 3, 8]
    ensures table == map["foo" := [Span(0, 1), Span(2, 3), Span(7, 8)]]
  {
    var ctx := new DraftContext("");
    ctx.subject := "aaaaaaaa";
    var e := new CharacterExpression('a', 1, Finite(1), true, Some("foo"));
    NamedUniformStep(ctx, e, 1);
    var c1 := ctx.progress;
    assert [] + [Span(0, 1)] == [Span(0, 1)];
    NamedUniformStep(ctx, e, 2);
    var c2 := ctx.progress;
    assert [Span(0, 1)] + [Span(2, 3)] == [Span(0, 1), Span(2, 3)];
    NamedUniformStep(ctx, e, 5);
    assert [Span(0, 1), Span(2, 3)] + [Span(7, 8)] == [Span(0, 1), Span(2, 3), Span(7, 8)];
    cursors := [c1, c2, ctx.progress];
    table := ctx.matches;
  }

  /** A greedy node with `max` 2, matched three times over five `a`s, records two attempts of
      two spans and a last one of one span. */
  method GreedyResultsScenario() returns (results: seq<seq<Span>>)
    ensures results == [[Span(0, 1), Span(1, 2)], [Span(2, 3), Span(3, 4)], [Span(4, 5)]]
  {
    var ctx := new DraftContext("aaaaa");
    var e := new CharacterExpression('a', 1, Finite(2), true, None);
    RunOfUniform('a', ctx.subject, 0);
    var ok, err := e.Matches(ctx);
    assert Consecutive(0, 2) == [Span(0, 1), Span(1, 2)];
    assert e.results == [[Span(0, 1), Span(1, 2)]] && ctx.progress == 2;
    RunOfUniform('a', ctx.subject, 2);
    ok, err := e.Matches(ctx);
    assert Consecutive(2, 2) == [Span(2, 3), Span(3, 4)];
    assert e.results == [[Span(0, 1), Span(1, 2)], [Span(2, 3), Span(3, 4)]] && ctx.progress == 4;
    RunOfUniform('a', ctx.subject, 4);
    ok, err := e.Matches(ctx);
    assert Consecutive(4, 1) == [Span(4, 5)];
    results := e.results;
  }

  /** A node with `min` and `max` 2, matched three times over five `a`s: the third call finds a
      single `a` and records nothing. */
  method MinimalResultsScenario() returns (results: seq<seq<Span>>, cursor: int)
    ensures results == [[Span(0, 1), Span(1, 2)], [Span(2, 3), Span(3, 4)]]
    ensures cursor == 4
  {
    var ctx := new DraftContext("aaaaa");
    var e := new CharacterExpression('a', 2, Finite(2), true, None);
    RunOfUniform('a', ctx.subject, 0);
    var ok, err := e.Matches(ctx);
    assert Consecutive(0, 2) == [Span(0, 1), Span(1, 2)];
    assert e.results == [[Span(0, 1), Span(1, 2)]] && ctx.progress == 2;
    RunOfUniform('a', ctx.subject, 2);
    ok, err := e.Matches(ctx);
    assert Consecutive(2, 2) == [Span(2, 3), Span(3, 4)];
    assert e.results == [[Span(0, 1), Span(1, 2)], [Span(2, 3), Span(3, 4)]] && ctx.progress == 4;
    RunOfUniform('a', ctx.subject, 4);
    ok, err := e.Matches(ctx);
    results := e.results;
    cursor := ctx.progress;
  }

  /** One named greedy `retry` of a top attempt that keeps at least one repetition after the
      step: the attempt loses its last span and the top capture moves to the new last one. */
  method NamedShrinkStep(ctx: DraftContext, e: CharacterExpression) returns (ok: bool)
    requires e.greedy && e.name.Some? && e.results != [] && e.min < |Last(e.results)| && |Last(e.results)| >= 2
    requires e.name.value in ctx.matches && ctx.matches[e.name.value] != []
    modifies e`results, ctx`progress, ctx`matches
    ensures ok
    ensures e.results == Front(old(e.results)) + [Front(Last(old(e.results)))]
    ensures ctx.matches == old(ctx.matches)[e.name.value :=
      Front(old(ctx.matches)[e.name.value]) + [Last(Front(Last(old(e.results))))]]
  {
    var err;
    ok, err := e.Retry(ctx);
  }

  /** One named greedy `retry` of a top attempt already at its minimum, whose name has a single
      capture: the attempt is dropped, the retry fails and the name leaves the table. */
  method NamedDropStep(ctx: DraftContext, e: CharacterExpression) returns (ok: bool)
    requires e.greedy && e.name.Some? && e.results != [] && |Last(e.results)| <= e.min
    requires e.name.value in ctx.matches && |ctx.matches[e.name.value]| == 1
    modifies e`results, ctx`progress, ctx`matches
    ensures !ok
    ensures ctx.matches == old(ctx.matches) - {e.name.value}
  {
    var err;
    ok, err := e.Retry(ctx);
  }

  /** A named greedy node holding four repetitions with `min` 2: two retries move the capture to
      `{2,3}` and then `{1,2}`, the third fails and leaves an empty table. */
  method RetryGreedyScenario() returns (oks: seq<bool>, tables: seq<Table>)
    ensures oks == [true, true, false]
    ensures tables == [map["foo" := [Span(2, 3)]], map["foo" := [Span(1, 2)]], map[]]
  {
    var ctx := new DraftContext("");
    ctx.progress := 5;
    var e := new CharacterExpression('a', 2, Finite(4), true, Some("foo"));
    e.results := [[Span(0, 1), Span(1, 2), Span(2, 3), Span(3, 4)]];
    ctx.matches := map["foo" := [Span(3, 4)]];
    oks, tables := RetryThrice(ctx, e);
  }

  /** The three retries of `RetryGreedyScenario`, from the node and the table it sets up. */
  method RetryThrice(ctx: DraftContext, e: CharacterExpression) returns (oks: seq<bool>, tables: seq<Table>)
    requires e.greedy && e.min == 2 && e.name == Some("foo")
    requires e.results == [[Span(0, 1), Span(1, 2), Span(2, 3), Span(3, 4)]]
    requires ctx.matches == map["foo" := [Span(3, 4)]]
    modifies e`results, ctx`progress, ctx`matches
    ensures oks == [true, true, false]
    ensures tables == [map["foo" := [Span(2, 3)]], map["foo" := [Span(1, 2)]], map[]]
  {
    var four := [Span(0, 1), Span(1, 2), Span(2, 3), Span(3, 4)];
    var ok1 := NamedShrinkStep(ctx, e);
    assert Front(four) == [Span(0, 1), Span(1, 2), Span(2, 3)];
    assert [Span(3, 4)][..0] + [Span(2, 3)] == [Span(2, 3)];
    var t1 := ctx.matches;
    assert t1 == map["foo" := [Span(2, 3)]];
    var ok2 := NamedShrinkStep(ctx, e);
    assert Front(Front(four)) == [Span(0, 1), Span(1, 2)];
    assert [Span(2, 3)][..0] + [Span(1, 2)] == [Span(1, 2)];
    var t2 := ctx.matches;
    assert t2 == map["foo" := [Span(1, 2)]];
    var ok3 := NamedDropStep(ctx, e);
    assert t2 - {"foo"} == map[];
    oks := [ok1, ok2, ok3];
    tables := [t1, t2, ctx.matches];
  }

  /** A node for `b` at the start of "abc" does not match and leaves the cursor at 0. */
  method WrongCharacterScenario() returns (ok: bool, cursor: int)
    ensures !ok && cursor == 0
  {
    var ctx := new DraftContext("abc");
    var e := new CharacterExpression('b', 1, Finite(1), true, None);
    var err;
    ok, err := e.Matches(ctx);
    cursor := ctx.progress;
  }

  /** A named node that may repeat zero times, over a subject without its character, succeeds
      with an empty attempt and then raises when it reads that attempt's last span. */
  method NamedEmptyMatchRaises() returns (err: Option<DraftError>)
    ensures err == Some(IndexError)
  {
    var ctx := new DraftContext("b");
    var e := new CharacterExpression('a', 0, Finite(1), true, Some("foo"));
    var ok;
    ok, err := e.Matches(ctx);
  }
}
