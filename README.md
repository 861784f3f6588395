# cre — a backtracking regular-expression engine, modelled in Dafny

cre compiles a pattern into a tree of `Expression` objects and matches it against a subject
through an `EvaluationContext`. The context holds the subject, a cursor (`progress`) and a
table of capture stacks. Every node keeps a stack of attempts (`_matches`). Three calls drive it:

- `matches` starts a new attempt;
- `retry` moves the latest attempt to the next repetition count;
- `undo` discards the latest attempt.

The `synchronize_context` decorators keep the capture table in step with those attempts.

This project models three parts of cre:

- **The engine of `cre/expression.py`.** It is modelled on values: `Engine` defines `matches`,
  `retry` and `undo` for every node kind (characters, ranges, back-references, alternations and
  groups) as functions over node states and contexts.
  - `Captures` holds the capture table and the `EvaluationContext` class.
  - `LeafNode` holds a leaf `Expression` as a class whose methods are proved to do what the engine
    functions say.
  - `LeafFacts`, `SearchFacts`, `Publication` and `GroupStart` prove the protocol's properties.
  - `Restoration` proves what the protocol promises for every node kind, groups and alternations
    included. A node that succeeded is at rest: each repetition is a row of children at rest, laid
    end to end. Every failed call and every `undo` puts the node, its children, the cursor and
    the capture table back exactly where the attempt began.
  - `Guarantees` restates those results without the proof's bookkeeping, as a caller of
    `matches`, `retry` and `undo` sees them.
  - `Printer` holds the serialisers `_repetition_to_string` and `_wrap_with_name`, and proves that
    the compiler reads back what they write.
- **The compiler of `cre/parser.py`.** `Compiler` models the `Parser` class: a stack of states
  driven by the loop in `parse`. Each `_parse_<state>` method is proved against a step function.
  - `Syntax` states the quantifier and `?P<name>` sub-grammars.
  - `CompilerFacts` proves the loop invariant. It also proves what a successful `parse` returns:
    balanced groups, consecutive group numbers, and only valid leaves.
  - `SharedParser` and `CompilerExamples` show what happens when a parser is reused after a
    failed parse.
- **The draft protocol of `cre.py`.** It is an earlier, simpler design: one capture stack per name,
  a `_results` list of attempts, and only the character node complete. `Draft` models it as
  classes with in-place methods, each proved against reference functions.

Capture identifiers are `Id`: a group number or a name. Spans are `Span(start, end)`. Exceptions
become `Result`/`Option` values carrying an error datatype.

## Model

| member | source | states |
|---|---|---|
| Captures.MatchString | cre/expression.py:107-109 | `get_match_string` raises exactly when the identifier has no capture; otherwise it returns the subject text under the latest span |
| Captures.Flattened | cre/expression.py:102-105 | `flattened_matches` has the same keys as the table, and maps each key to the top of its stack; the three lemmas below relate it to the table operations |
| Captures.FlattenedAfterPush | cre/expression.py:88-105 | after `push_match`, `flattened_matches` has exactly the old keys plus the names, maps every pushed name to the pushed span and keeps every other value |
| Captures.FlattenedAfterPushPop | cre/expression.py:88-105 | after `push_match` then `pop_match` of the same names, the pop succeeds and `flattened_matches` is what it was before the push |
| Captures.FlattenedAfterOverride | cre/expression.py:92-105 | after a successful `override_match`, `flattened_matches` keeps its keys, maps every name to the new span and keeps every other value |
| Captures.PushAllStacks | cre/expression.py:88-90 | `push_match` appends the value to a name's stack once for each occurrence of the name; every other stack is unchanged |
| Captures.PushAllKeys | cre/expression.py:88-90 | after `push_match` the keys are the old keys plus the listed names |
| Captures.PushAllWellFormed | cre/expression.py:88-90 | `push_match` keeps the invariant that a key is present only while its stack is non-empty |
| Captures.PopAllStacks | cre/expression.py:96-100 | `pop_match` succeeds iff every stack has at least one entry per occurrence of its name. It then removes that many entries from the top, deletes emptied keys, and keeps the invariant |
| Captures.PushThenPopRestores | cre/expression.py:88-100 | `push_match` followed by `pop_match` of the same names gives back the original table |
| Captures.OverrideAllSucceeds | cre/expression.py:92-94 | `override_match` succeeds iff every name is present; it keeps the keys and the invariant |
| Captures.OverrideAllShape | cre/expression.py:92-94 | a successful `override_match` keeps every stack's length and replaces only the top entries of the named stacks |
| Captures.OverrideAllStacks | cre/expression.py:92-94 | both of the above in one statement |
| Captures.OverrideRaisePropagates | cre/expression.py:92-94 | once a name in a prefix is missing, the whole `override_match` raises |
| Captures.PopRaisePropagates | cre/expression.py:96-100 | once a prefix of the names cannot be popped, the whole `pop_match` raises |
| Captures.EvaluationContext.constructor | cre/expression.py:52-62 | a new context has the cursor at 0 and an empty table |
| Captures.EvaluationContext.PushMatch | cre/expression.py:88-90 | the table becomes the pushed table of the specification function; the cursor is unchanged |
| Captures.EvaluationContext.OverrideMatch | cre/expression.py:92-94 | raises iff the specification raises; otherwise the table becomes the overridden one; the cursor is unchanged |
| Captures.EvaluationContext.PopMatch | cre/expression.py:96-100 | raises iff the specification raises; otherwise the table becomes the popped one; the cursor is unchanged |
| Engine.Fresh | cre/expression.py:126-131 | a never-matched tree has no attempts and one state per child |
| Engine.LeafStep | cre/expression.py:269-294 | a step of a character, range or back-reference gives a span that starts at the cursor and stays inside the subject |
| LeafFacts.StepAccepts | cre/expression.py:269-294 | a leaf step succeeds exactly when the text at the cursor is accepted by the leaf (its character, a character in its range, or the referenced text), and the span covers exactly that text |
| LeafFacts.StepErrors | cre/expression.py:549-554 | character and range steps never raise inside the subject; a back-reference step raises exactly when its group has no capture |
| LeafFacts.CollectSteps | cre/expression.py:160-166 | the step loop of `matches` extends the attempt by a chain of consecutive steps from the cursor. It stops only at the end of the subject, at the limit, or at a failed step, and leaves the cursor at the end of the chain |
| LeafFacts.CollectTotal | cre/expression.py:160-166 | the step loop of a character or range leaf never raises |
| LeafFacts.LeafMatchesSpec | cre/expression.py:147-168 | `matches` on a leaf succeeds iff its step loop collects at least `min` steps. On success it pushes one attempt of those steps, within the initial limit: a greedy leaf stops only at `max` or where no further step is possible, a non-greedy one holds exactly `min`. It publishes its last span and leaves the node settled. On failure the state and the context are unchanged |
| LeafFacts.LeafRetrySpec | cre/expression.py:170-205 | `retry` on a settled leaf fails iff a greedy leaf holds exactly `min` repetitions, or a non-greedy leaf holds `max` or cannot take another step. On success it drops its last span (greedy) or adds the next step (non-greedy) and stays settled. On failure it drops the attempt and puts back the cursor and the table from before `matches` (the corrected publication of Findings row 1) |
| LeafFacts.ShrinkSettles | cre/expression.py:196-197 | dropping the last span of a settled greedy leaf settles it again, with the cursor at the start of the dropped span |
| LeafFacts.GrowSettles | cre/expression.py:198-202 | adding the next step to a settled non-greedy leaf settles it again |
| LeafFacts.SelfFreeStep | cre/expression.py:549-554 | a leaf that does not refer to its own capture steps the same whether or not its own capture is published |
| LeafFacts.LeafUndoRestores | cre/expression.py:207-213 | `undo` of a settled leaf drops the attempt and restores both the cursor and the capture table from before `matches`; it withdraws a capture only if one was published (Findings row 1) |
| LeafFacts.LeafMatchesThenUndo | cre/expression.py:147-213 | a successful `matches` followed by `undo` gives back the original state and context |
| LeafNode.LeafExpression.constructor | cre/expression.py:126-131 | a new leaf has the given bounds, greediness and names, and no attempts |
| LeafNode.LeafExpression.Matches | cre/expression.py:147-168 | the object's attempt stack and the context end as `LeafMatches` says, and it raises exactly when that function does |
| LeafNode.LeafExpression.Repeat | cre/expression.py:160-166 | the loop changes only the top attempt and the context, exactly as the step loop `Collect` says |
| LeafNode.LeafExpression.Retry | cre/expression.py:170-205 | the object and the context end as `LeafRetry` says, and it raises exactly when that function does |
| LeafNode.LeafExpression.Republish | cre/expression.py:29-34 | the capture table ends as the corrected retry publication (`CapturesOnRetry`) says; the cursor is unchanged |
| LeafNode.LeafExpression.Undo | cre/expression.py:207-213 | the object and the context end as `Undo` says |
| LeafNode.LeafExpression.UndoWith | cre/expression.py:207-213 | rewinds the cursor, withdraws a published capture and drops the attempt, as `UndoWith` says |
| SearchFacts.TryOptionsKeeps | cre/expression.py:374-382 | the alternation search leaves the node's own attempts alone. A repetition it finds starts at the cursor and names a valid child |
| SearchFacts.MatchOneKeeps | cre/expression.py:439-452 | matching group child `i` and the ones after it touches only the children |
| SearchFacts.MatchOneLoopKeeps | cre/expression.py:448-451 | the retry loop inside `__match_one_child` touches only the children |
| SearchFacts.RetryOneChildKeeps | cre/expression.py:504-513 | `__retry_one_child` touches only the children |
| SearchFacts.RetryOneLoopKeeps | cre/expression.py:510-512 | the loop inside `__retry_one_child` touches only the children |
| SearchFacts.MatchesOnceKeeps | cre/expression.py:426-460 | one composite step keeps the node's attempts. A found repetition starts at the cursor, and an alternation's names a valid child |
| SearchFacts.IterFillCounts | cre/expression.py:317-321 | filling an attempt only adds repetitions to it, never beyond the initial limit, and keeps the attempts below it |
| SearchFacts.IterLoopCounts | cre/expression.py:316-325 | the loop of `AbstractIteratorExpression.matches` succeeds with at least `min` repetitions, within the initial limit. On failure it leaves the attempt empty. The attempts below are unchanged |
| SearchFacts.ReevaluateCounts | cre/expression.py:462-534 | reevaluation keeps the number of repetitions on success and empties the attempt on failure |
| SearchFacts.ReevaluateLoopCounts | cre/expression.py:529-533 | the reevaluate-then-match loop adds exactly one repetition on success and empties the attempt on failure |
| SearchFacts.RebuildCounts | cre/expression.py:345-353 | rebuilding adds exactly the requested number of repetitions on success |
| SearchFacts.RetryBodyCounts | cre/expression.py:327-354 | composite `retry` moves the repetition count by at most one, in the node's direction, and never past its bounds |
| SearchFacts.UndoChildrenKeeps | cre/expression.py:421-423 | undoing the children of a group touches only the children |
| SearchFacts.UndoRoundsKeeps | cre/expression.py:419-424 | undoing a group once per repetition touches only the children |
| SearchFacts.UndoChoicesKeeps | cre/expression.py:368-372 | undoing the matching child of each alternation repetition touches only the children |
| SearchFacts.UndoDrops | cre/expression.py:207-213 | a successful `undo` drops exactly the current attempt |
| SearchFacts.MatchesPushesAttempt | cre/expression.py:308-325 | `matches` on any node pushes exactly one attempt, holding between `min` and the initial limit of repetitions, or leaves the stack as it was when it fails |
| SearchFacts.RetryKeepsOrDrops | cre/expression.py:327-354 | `retry` on any node either keeps the attempt, moving its count by at most one within the bounds, or fails and drops it |
| SearchFacts.LeafKeepsOrDrops | cre/expression.py:170-205 | the same for leaves |
| SearchFacts.CompositeKeepsOrDrops | cre/expression.py:327-354 | the same for groups and alternations |
| SearchFacts.RunLeavesOneAttempt | cre/expression.py:308-325 | a top-level match leaves one attempt on the root when it succeeds, and none when it fails |
| Restoration.NodeRestored | cre/expression.py:18-36 | two tables that both hold exactly a node's publications over the same base, and agree outside the node's names, are equal: putting a node's state back puts the table back |
| Restoration.LeafMatchesRestores | cre/expression.py:147-168 | a leaf's `matches` either leaves it at rest (consecutive steps from the old cursor to the new one, the table holding its publications) or changes nothing |
| Restoration.LeafRetryRestores | cre/expression.py:170-205 | a leaf's `retry` either leaves it at rest from the same start or puts back the state, cursor and table from before `matches` |
| Restoration.WrapRetryRestores | cre/expression.py:29-36 | `wrap_retry` republishes the last span of a successful body, and undoes a failed one back to the state, cursor and table from before `matches` |
| Restoration.MatchesRestores | cre/expression.py:18-27 | `matches` on any node either leaves it at rest, its new attempt a chain of repetitions from the old cursor to the new one, with the table changed only under its subtree's names; or fails and leaves state and context exactly as they were |
| Restoration.RetryRestores | cre/expression.py:29-36 | `retry` of any node at rest either leaves it at rest again from the same start, or fails and puts back the state, cursor and table from before its `matches` |
| Restoration.UndoRestores | cre/expression.py:207-213 | `undo` of any node at rest never raises, and puts back the state, cursor and table from before its `matches` |
| Restoration.UndoWithRestores | cre/expression.py:207-213 | the same with the publication known: it undoes the children, rewinds the cursor and withdraws exactly what was published |
| Restoration.UndoRoundsRestores | cre/expression.py:419-424 | group `undo` undoes its children once per repetition, last repetition first; after `k` rounds the children and cursor are as they were before the last `k` repetitions |
| Restoration.UndoChildrenRestores | cre/expression.py:421-423 | one round undoes the children last to first, putting back their states from before the repetition and the cursor at its start |
| Restoration.UndoChoicesRestores | cre/expression.py:368-372 | alternation `undo` undoes the matching child of each repetition, last first, putting back the children and the cursor from before the attempt |
| Restoration.MatchesOnceRestores | cre/expression.py:426-460 | one composite step keeps the node's attempts. A found repetition is a row of children run one after another from the cursor, and ends where the last child stopped; finding none leaves the state and the context exactly as they were |
| Restoration.TryOptionsRestores | cre/expression.py:374-382 | the alternation step records the first child whose `matches` succeeds: every child before it was tried and failed, changing nothing; the chosen child is at rest from the cursor and the others are untouched; when none succeeds nothing changes |
| Restoration.MatchOneRestores | cre/expression.py:439-452 | `__match_one_child(i)` either leaves children `i` onwards at rest one after another from the cursor, or fails and leaves the state and the context exactly as they were |
| Restoration.MatchOneLoopRestores | cre/expression.py:448-451 | the retry loop inside `__match_one_child(i)` either completes the row, or fails with child `i` put back to its state before the row and the cursor at child `i`'s start |
| Restoration.RetryOneChildRestores | cre/expression.py:504-513 | `__retry_one_child(i)` either finds another row for children 0 to `i`, or fails with all of them put back and the cursor at the row's start |
| Restoration.RetryOneLoopRestores | cre/expression.py:510-512 | the loop that retries the earlier children and matches child `i` again does the same |
| Restoration.IterLoopRestores | cre/expression.py:316-325 | the loop of composite `matches` ends at rest with at least `min` repetitions, or fails with the attempt empty, the children as they were and the cursor at the start |
| Restoration.IterFillRestores | cre/expression.py:317-321 | filling the attempt with repetitions keeps the node at rest from the same start |
| Restoration.ReevaluateRestores | cre/expression.py:462-534 | `_reevaluate_previous_repetition` either leaves the node at rest, or reverts completely: the attempt empty, the children as before `matches`, the cursor at its start, the table holding the children's publications |
| Restoration.ReevaluateLoopRestores | cre/expression.py:529-533 | the reevaluate-then-match loop does the same |
| Restoration.CompositeRetryBodyRestores | cre/expression.py:327-354 | the body of composite `retry` keeps the node at rest from the same start whether it succeeds or not, so `wrap_retry` can undo a failure |
| Restoration.RebuildRestores | cre/expression.py:345-353 | rebuilding keeps the node at rest and, on success, adds exactly the requested number of repetitions |
| Guarantees.MatchesAtRest | cre/expression.py:18-27 | `matches` either leaves the node at rest, the table differing only by the spans its subtree published, or changes nothing at all |
| Guarantees.RetryAtRest | cre/expression.py:29-36 | `retry` of a node at rest either leaves it at rest again or gives back exactly the state and context its `matches` began from |
| Guarantees.UndoAtRest | cre/expression.py:207-213 | `undo` of a node at rest gives back exactly the state and context its `matches` began from |
| Guarantees.MatchesThenUndo | cre/expression.py:207-213 | for every node, groups and alternations included, `undo` right after a successful `matches` gives back the original state and context |
| Guarantees.MatchesThenRetryFails | cre/expression.py:29-36 | a `retry` that fails right after a successful `matches` gives back the original state and context |
| Guarantees.FreshConsistent | cre/expression.py:126-131 | a never-matched tree has published nothing over any table |
| Guarantees.RunAtRest | cre/expression.py:18-27 | a top-level match that fails leaves the tree fresh, the cursor at 0 and the table empty; one that succeeds leaves the root at rest over the empty table |
| Publication.PushPublishes | cre/expression.py:88-90 | `push_match` of distinct names publishes the last span exactly once under each name |
| Publication.PublishOnMatch | cre/expression.py:18-23 | after a successful `matches`, the table is the old one plus the last span under each name, if the attempt has a repetition |
| Publication.RepublishOnRetry | cre/expression.py:29-34 | after a successful `retry`, whatever the repetition counts before and after, the table is the base table plus the current last span: it pushes, overwrites or pops to keep that true |
| Publication.WithdrawOnUndo | cre/expression.py:207-213 | `undo` of a published attempt restores the base table exactly |
| Publication.UndoAsWrittenPopsUnpublished | cre/expression.py:211-212 | as written, `undo` of an attempt with no repetition pops a capture that was never pushed, and raises |
| Publication.RetryAsWrittenLosesStep | cre/expression.py:29-34 | as written, a retry that drops the only repetition keeps a stale capture, and one that adds the first repetition overwrites a capture that does not exist |
| GroupStart.EarliestStartIsMinimum | cre/expression.py:519-527 | the reevaluated group repetition starts at the minimum of the cursor and the first-repetition starts of the children that have repetitions |
| GroupStart.ReevaluatedGroupStart | cre/expression.py:522-524 | as written, the start comes from the children's last repetitions: for `(a+)` over "aaa" the reevaluated repetition starts at 1, not at 0 |
| Syntax.RunOf | cre/parser.py:189-195 | the length of a run of characters from a range never reaches past the pattern |
| Syntax.RunIsMaximal | cre/parser.py:189-195 | the run is the longest stretch of in-range characters: all of it is in range, and the next character is not |
| Syntax.RunIsDigits | cre/parser.py:196-197 | a run of `0-9` is a digit string that `int` can read |
| Syntax.Braces | cre/parser.py:188-217 | a brace quantifier that is recognised ends after its closing brace |
| Syntax.BoundsAt | cre/parser.py:166-217 | the bounds part of a quantifier never moves the cursor backwards or past the end |
| Syntax.Quantifier | cre/parser.py:156-226 | `_resolve_repetitions` moves the cursor forward and never past the end |
| Syntax.QuantifierConsumes | cre/parser.py:156-226 | a quantifier consumes only quantifier characters; if it consumes nothing, it is one greedy repetition |
| Syntax.NamePrefix | cre/parser.py:95-111 | a recognised `?P<name>` prefix is at least four characters long and ends within the pattern |
| Syntax.NamePrefixConsumes | cre/parser.py:95-111 | a name prefix consumes only `?P<>` and letters, and the name is non-empty lower-case letters |
| Syntax.NamePrefixExactly | cre/parser.py:95-111 | `?P<name>` is read back as `name` iff the name is non-empty lower-case letters, whatever follows it |
| Printer.RepetitionToString | cre/expression.py:235-255 | `_repetition_to_string` is empty iff the node repeats exactly once, whatever its greediness; `QuantifierRoundTrip` states that every other text reads back as the same bounds and greediness |
| Printer.Decimal | cre/expression.py:246-252 | `str(n)` is a non-empty digit string |
| Printer.BoundsText | cre/expression.py:240-252 | the bounds text is `*`, `+`, `?` or a brace form |
| Printer.WrapWithName | cre/expression.py:227-233 | an unnamed node prints bare; a named one prints in parentheses |
| Printer.FirstName | cre/expression.py:231-232 | the name a group is printed with is its first string name, if it has one |
| Printer.DecimalRoundTrip | cre/expression.py:246-252 | `int(str(n)) == n` |
| Printer.QuantifierRoundTrip | cre/expression.py:235-255 | every quantifier the printer writes is read back by `_resolve_repetitions` as the same bounds and greediness, with the cursor just after it |
| Printer.QuantifierTail | cre/expression.py:253-254 | a trailing `?` after the bounds is read as non-greedy, and its absence as greedy |
| Printer.BoundsRoundTrip | cre/expression.py:240-252 | the bounds text is read back as the same bounds |
| Printer.BracesRoundTrip | cre/expression.py:246-252 | the brace forms are read back as the same bounds |
| Printer.BracesSingle | cre/expression.py:247 | `{n}` is read back as exactly `n` repetitions |
| Printer.BracesPair | cre/expression.py:249-252 | `{m,n}`, with 0 and infinity left blank, is read back as the same bounds |
| Printer.OnceRoundTrip | cre/expression.py:237-238 | exactly one repetition prints as nothing and is read back as one greedy repetition |
| Printer.NameRoundTrip | cre/expression.py:227-233 | a group's printed name is read back by the `?P<name>` grammar iff it is non-empty lower-case letters; a group with only numbers prints as a plain group |
| Compiler.Dispatch | cre/parser.py:31-32 | every pass of the loop that does not raise moves the cursor forward, or keeps it and moves to a state of lower rank, so the loop ends |
| Compiler.Parser.constructor | cre/parser.py:7-12 | a new parser has an empty stack and group count 1 |
| Compiler.Parser.ParseAsWritten | cre/parser.py:26-39 | `parse` as written: result, stack and group count are those of `ParseOnStack` over the stack an earlier call left behind |
| Compiler.Parser.Parse | cre/parser.py:26-39 | `parse` on a cleared stack: result, stack and group count are those of `Parse` |
| Compiler.Parser.Step | cre/parser.py:32 | one pass of the loop does what `Dispatch` says for the state on top |
| Compiler.Parser.ParseRoot | cre/parser.py:41-43 | `_parse_root` pushes an unknown state |
| Compiler.Parser.ParseUnknown | cre/parser.py:45-76 | `_parse_unknown` does what `UnknownStep` says |
| Compiler.Parser.ParseCharacter | cre/parser.py:78-84 | `_parse_character` does what `CharacterStep` says |
| Compiler.Parser.ParseConjunction | cre/parser.py:89-125 | `_parse_conjunction` does what `ConjunctionStep` says |
| Compiler.Parser.EnterConjunction | cre/parser.py:91-111 | on the first call the group takes the next number and reads an optional `?P<name>` |
| Compiler.Parser.CloseOrDescendConjunction | cre/parser.py:113-125 | at `)` the group closes, with its quantifier, into the state below; otherwise an unknown state is pushed |
| Compiler.Parser.ParseEscaped | cre/parser.py:131-154 | `_parse_escaped` does what `EscapedStep` says: it always fails |
| Compiler.Parser.AppendToCurrent | cre/parser.py:84 | appends to the children of the state on top, and fails when that state has none |
| Compiler.Parser.ResolveRepetitions | cre/parser.py:156-226 | reads the quantifier at the cursor and moves past it; the stack and the group count are unchanged |
| CompilerFacts.DispatchKeepsShape | cre/parser.py:31-32 | every pass that does not raise keeps the shape of the stack: root at the bottom, open states above |
| CompilerFacts.DispatchKeepsIds | cre/parser.py:91-125 | every pass keeps the group numbers on the stack at exactly `1 .. count-1`, in order |
| CompilerFacts.DispatchKeepsCounted | cre/parser.py:31-32 | every pass keeps the record of what was read: open groups, the group count, and no operator characters |
| CompilerFacts.DispatchKeepsInv | cre/parser.py:31-32 | the loop invariant is kept by every pass that does not raise |
| CompilerFacts.LoopKeepsInv | cre/parser.py:31-32 | the loop keeps the invariant and, unless a pass raises, consumes the whole pattern |
| CompilerFacts.StartKeepsInv | cre/parser.py:27-29 | the state `parse` starts from meets the invariant |
| CompilerFacts.ParseCounts | cre/parser.py:26-39 | when `parse` succeeds, every `(` is closed and no `)` is unmatched, the group count is the number of `(` plus one, and the pattern has no `\|`, `[`, `]` or `\` |
| CompilerFacts.ParseTree | cre/parser.py:26-39 | when `parse` succeeds, the result is the unquantified root group numbered 0. Its groups are numbered `0 .. count-1` in preorder, its leaves are unnamed characters, its groups are non-empty, and the stack is left empty |
| CompilerFacts.LiteralLoop | cre/parser.py:31-32 | from the root holding the leaves of the first `k` characters of a pattern without metacharacters, the loop reads the rest one leaf per character and consumes the pattern |
| CompilerFacts.LiteralPattern | cre/parser.py:26-39 | a pattern with none of `\ ( ) [ ] \| + ? * {` compiles to the root group numbered 0 whose children are the characters of the pattern, in order, each an unnamed leaf repeated exactly once, greedy; the group count stays 1 and the stack is left empty |
| CompilerFacts.QuantifierIsPlain | cre/parser.py:156-226 | a quantifier consists only of characters with no structural meaning |
| CompilerFacts.NamePrefixIsPlain | cre/parser.py:95-111 | a name prefix consists only of characters with no structural meaning |
| CompilerFacts.LeftThenRight | cre/parser.py:70-72 | the left and right states of `\|` together hold the original children |
| SharedParser.DispatchKeepsAnchor | cre/parser.py:32 | a pass never disturbs what lies below the root state that `parse` pushed |
| SharedParser.LoopKeepsAnchor | cre/parser.py:29-32 | the loop keeps the leftover and the root above it, and always leaves more states than the leftover |
| SharedParser.FailureLeavesStack | cre/parser.py:26-39 | as written, a `parse` that raises leaves states on the stack |
| SharedParser.LeftoverBlocksParse | cre/parser.py:26-35 | as written, a `parse` on a stack with leftovers never succeeds, and leaves states behind again |
| SharedParser.OneFailureBlocksAll | cre/parser.py:26-29 | as written, after one failed `parse` of a parser, every later `parse` of it fails |
| CompilerExamples.StrayCloseRaises | cre/parser.py:60-63 | `)` raises at position 0 and leaves the root state on the stack |
| CompilerExamples.SingleCharacter | cre/parser.py:78-84 | `a` compiles to the root group holding one character |
| CompilerExamples.EmptyGroupRaises | cre/parser.py:113-116 | `()` raises at the `)` |
| CompilerExamples.MissingOperandRaises | cre/parser.py:65-69 | a leading `\|` raises for a missing left operand |
| CompilerExamples.OpenGroupRaises | cre/parser.py:34-35 | `(a` raises because a group is still open |
| CompilerExamples.StrayCloseBlocksNextParse | cre/parser.py:26-29 | `)` raises; `a` compiles on a fresh parser but not on the parser that `)` left behind |
| Draft.RunIsMaximal | cre.py:140-146 | the run of a character from the cursor is all that character, and the character after it is not |
| Draft.RunOfUniform | cre.py:140-146 | over a subject made only of the character, the run reaches the end |
| Draft.Capped | cre.py:141-142 | the repetition count is the run, cut at a finite limit: never more than either, and it equals the run unless it reaches the limit |
| Draft.ConsecutiveSnoc | cre.py:143-146 | one more step adds the next width-one span |
| Draft.Append | cre.py:107-109 | `setdefault(name, []).append(v)` adds the key, puts `v` on top of its stack, and leaves the other keys unchanged |
| Draft.PopTop | cre.py:119-122 | the pop raises `KeyError` on a missing key. On a non-empty stack it removes the top and deletes the key iff nothing is left; the other keys are unchanged |
| Draft.SetTop | cre.py:117-118 | `matches[name][-1] = v` raises on a missing key; otherwise it replaces only the top of that stack |
| Draft.AppendThenPopRestores | cre.py:107-122 | popping what was just appended gives the table back |
| Draft.AppendThenSetTop | cre.py:107-118 | overwriting what was just appended is the same as appending the new value |
| Draft.TableShapeKept | cre.py:119-122 | appending and popping keep every stack non-empty |
| Draft.Recapture | cre.py:116-122 | a named retry overwrites the top capture with the new last span on success, and pops it on failure |
| Draft.DraftContext.constructor | cre.py:26-33 | a new context has the cursor at 0 and an empty table |
| Draft.DraftContext.Remaining | cre.py:47-49 | `subject[progress:]` is what follows the cursor: the subject is the text before the cursor plus it, and it is empty at or past the end |
| Draft.DraftContext.Current | cre.py:51-53 | the current character exists iff the cursor is within Python's index range, negative indices included |
| Draft.DraftContext.Flattened | cre.py:63-66 | defined iff no stack is empty; then it maps every name to its top capture |
| Draft.DraftContext.MatchRange | cre.py:72-73 | defined iff the group has a capture; then it is the top capture |
| Draft.DraftContext.MatchString | cre.py:68-70 | defined iff the range is; then it is the subject text under the top capture |
| Draft.CharacterExpression.constructor | cre.py:88-94 | a new node has the given bounds, greediness and name, and no results |
| Draft.CharacterExpression.MatchOnce | cre.py:210-213 | a step succeeds iff the subject has the node's character at the cursor; the span is that one character |
| Draft.CharacterExpression.TakeSteps | cre.py:140-146 | the loop takes the run of the node's character at the cursor, cut at the limit, as consecutive width-one spans, and leaves the cursor after them |
| Draft.CharacterExpression.MatchesGreedy | cre.py:125-152 | succeeds iff the run cut at `max` is at least `min`. It then records that many spans and advances the cursor; otherwise it restores the cursor and records nothing |
| Draft.CharacterExpression.MatchesMinimal | cre.py:154-169 | succeeds iff the run is at least `min`. It then records exactly `min` spans; otherwise it restores the cursor and records nothing |
| Draft.CharacterExpression.Matches | cre.py:96-110 | dispatches on greediness. A named success appends its last span to the table, and leaves the node tracking the cursor. A named success with no repetition raises `IndexError`. A failure changes nothing |
| Draft.CharacterExpression.RetryGreedy | cre.py:171-181 | with more than `min` repetitions it drops the last one and moves the cursor back by its width; otherwise it drops the attempt and fails. With no attempt it raises `IndexError` |
| Draft.CharacterExpression.RetryMinimal | cre.py:183-192 | with `max` repetitions it drops the attempt and fails; otherwise it raises, `IndexError` at the end of the subject and `NameError` elsewhere |
| Draft.CharacterExpression.Retry | cre.py:112-123 | the inner retry followed by the capture update `Recapture`. A tracking greedy node that steps back stays tracking, one character earlier |
| Draft.ContextScenario | test_cre.py:44-63 | three named greedy matches over `aaaaaaaa` with `max` 1, 2 and 5 leave the cursor at 1, 3 and 8 and the stack `foo` holding spans 0-1, 2-3 and 7-8 |
| Draft.GreedyResultsScenario | test_cre.py:65-76 | three greedy matches with `max` 2 over `aaaaa` record attempts of two, two and one spans |
| Draft.MinimalResultsScenario | test_cre.py:78-89 | three matches with `min` and `max` 2 over `aaaaa` record two attempts; the third fails at cursor 4 |
| Draft.RetryGreedyScenario | test_cre.py:91-112 | three retries of a named node holding four repetitions with `min` 2 succeed, succeed, fail. The capture moves to 2-3, then to 1-2, then is removed |
| Draft.WrongCharacterScenario | test_cre.py:142-145 | a node for `b` does not match `abc` and leaves the cursor at 0 |
| Draft.NamedEmptyMatchRaises | cre.py:107-109 | a named node that may repeat zero times succeeds with an empty attempt over a subject without its character, then raises `IndexError` |

## Left out

- AnyOf reevaluation: `_reevaluate_previous_repetition` of an alternation raises `AlternationBacktrack` (cre/expression.py:384-413). The model raises the same error instead of modelling a search the source does not finish.
- Engine fuel: the engine's mutual recursion over the tree takes a `fuel` bound. Running out gives `OutOfFuel`, which the source does not have; every property is stated for results that are `Ok`.
- Engine divergence: an unbounded leaf whose steps are zero-width (a back-reference to an empty capture) loops forever in the source. The engine and `LeafNode.LeafExpression.Repeat` return `Diverges` instead.
- Composite nodes as objects: groups and alternations are modelled on values (`Engine.Matches`, `Engine.Retry`, `Engine.IterLoop`, `Engine.ReevaluateLoop`), not as classes with loops; only leaves are objects. The model does not capture aliasing of a node shared between trees.
- Character groups and alternatives: `_parse_character_group` and `_parse_disjunction` do nothing, so the source loops forever; the model raises `NeverEnds` there. `_parse_escaped` fails on attributes the class does not have; the model raises `BrokenEscape`.
- Compiler sub-matches: the source parses quantifiers and `?P<name>` by matching small expression trees against the pattern. The model states the languages those trees accept (`Syntax`) instead of running the engine on them.
- Error messages: the texts of exceptions, including a misapplied `%` in one of them, are not modelled; only which error is raised.
- Other methods: `__str__` of composite nodes and `__eq__` are not modelled.
- Other files: cre/__init__.py (`compile`, match objects), re.py and setup.py are not part of this model. `compile` (cre/__init__.py:163) calls a `compile` method that `Parser` does not have, so no compilation reaches `parse` through it; the reuse the model states is that of a `Parser` object kept by its caller.
- Broken draft code: in cre.py, `CharacterRangeExpression` (a method without `self`), `AnyOfOptionsExpression`, `GroupExpression`, `Parser`, the top-level `matches` and `main` cannot run as written, and they are not part of this model. The test of minimal retry (test_cre.py:114-134) returns at its first line (test_cre.py:115) and never reaches `_retry_minimal`; the undefined name there is what `Draft.CharacterExpression.RetryMinimal` states as an error.
- Corrected capture protocol: `Engine.CapturesOnRetry`, `Engine.WrapRetry` and `Engine.Undo` follow the evidently intended publication of Findings row 1, not cre/expression.py:29-34 and 211-212 as written; `Engine.EarliestStart`, used by `Engine.Reevaluate`, follows Findings row 2, not cre/expression.py:522-524. So does everything built on them: `LeafNode.LeafExpression.Retry`, `Undo`, `UndoWith` and `Republish`, `LeafFacts.LeafRetrySpec`, `LeafUndoRestores` and `LeafMatchesThenUndo`, `Publication.RepublishOnRetry`, and every `Restoration` and `Guarantees` lemma. The code as written is stated by `Publication.UndoAsWrittenPopsUnpublished`, `Publication.RetryAsWrittenLosesStep` and `GroupStart.ReevaluatedGroupStart`.
- Engine functions: `Engine.Matches`, `Engine.Retry`, `Engine.Undo`, `Engine.WrapRetry` and `Engine.Reevaluate` carry no contract of their own; what they promise is stated by `Restoration.MatchesRestores`, `RetryRestores`, `UndoRestores`, `WrapRetryRestores` and `ReevaluateRestores` and the `Guarantees` lemmas.
- Engine.Rebuild: the greedy rebuild in `retry` appends whatever `_matches_once` returns, `None` included, and returns True (cre/expression.py:345-347); the source then fails later, when `__copykeys` or a parent reads the missing repetition's bounds, or not at all for an unnamed root. The model raises `NoRepetition` at that point instead of carrying a `None` repetition.
- Distinct identifiers: every `Restoration` and `Guarantees` lemma assumes `Unique`, that no capture identifier names two nodes of the tree, nor one node twice. The compiler numbers groups distinctly, but a pattern may repeat a `?P<name>` and the source does not check it; for such trees nothing is stated about the capture table.
- TryOptionsKeeps: states the attempts and the start of a found repetition only; that the first child whose `matches` succeeds is recorded, the earlier ones unchanged, is stated by `Restoration.TryOptionsRestores`.
- MatchOneKeeps: states attempt and child counts only; the cursor and the children on success and failure are stated by `Restoration.MatchOneRestores`.
- MatchOneLoopKeeps: states the attempt count only; the children and the cursor after the loop are stated by `Restoration.MatchOneLoopRestores`.
- RetryOneChildKeeps: states the attempt count only; the children put back on failure are stated by `Restoration.RetryOneChildRestores`.
- RetryOneLoopKeeps: states the attempt count only; the rest is stated by `Restoration.RetryOneLoopRestores`.
- MatchesOnceKeeps: states the start of a found repetition only; its end and the restoration when none is found are stated by `Restoration.MatchesOnceRestores`.
- IterLoopCounts: states counts only; the cursor and children restored on failure are stated by `Restoration.IterLoopRestores`.
- ReevaluateCounts: states counts only; the complete revert on failure is stated by `Restoration.ReevaluateRestores`.
- ReevaluateLoopCounts: states counts only; the revert on failure is stated by `Restoration.ReevaluateLoopRestores`.
- UndoChildrenKeeps: states counts only; the reverse-order undo of each child is stated by `Restoration.UndoChildrenRestores`.
- UndoRoundsKeeps: states counts only; one round per repetition, last first, is stated by `Restoration.UndoRoundsRestores`.
- UndoChoicesKeeps: states counts only; the undo of each repetition's matching child, last first, is stated by `Restoration.UndoChoicesRestores`.
- UndoDrops: states the dropped attempt only; the cursor rewind and the capture withdrawal are stated by `Restoration.UndoRestores` and `Guarantees.UndoAtRest`.
- MatchesPushesAttempt: states counts only; a failed `matches` leaving the cursor and the table as they were is stated by `Restoration.MatchesRestores` and `Guarantees.MatchesAtRest`.
- RetryKeepsOrDrops: states counts only; a failed `retry` putting back the cursor and the table is stated by `Restoration.RetryRestores` and `Guarantees.RetryAtRest`.
- CompositeKeepsOrDrops: states counts only; the same for groups and alternations is stated by `Restoration.RetryRestores`.
- Mocked dispatch test: test_cre.py:25-42 checks calls on mocks and is not modelled.
- Draft.CharacterExpression.Matches: requires a non-negative cursor. Python counts a negative cursor from the end of the subject; that case is not modelled.
- Draft.CharacterExpression.TakeSteps: requires a non-negative cursor, for the same reason.
- Draft.CharacterExpression.MatchesGreedy: requires a non-negative cursor, for the same reason.
- Draft.CharacterExpression.MatchesMinimal: requires a non-negative cursor, for the same reason.
- Draft.CharacterExpression.MatchOnce: requires the cursor inside the subject, which is where the loops call it.
- Draft.CharacterExpression.Retry: when the capture update raises, the state it leaves is not specified, only that it raises.
- Compiler.Parser: the `progress` field stands for the cursor of the `EvaluationContext` that `parse` creates over the pattern.

## Findings

| source | as written | input that shows it | evidently intended | confidence | as-written member | corrected member |
|---|---|---|---|---|---|---|
| cre/expression.py:207-213 | `undo` pops the capture of every named node, but `wrap_matches` publishes only when the attempt has a repetition (cre/expression.py:20); `wrap_retry` overwrites the top capture whether or not one was published (cre/expression.py:31-33) | pattern `(a)?c` on subject `b`: the optional group succeeds with zero repetitions, `c` fails, and the group's `undo` pops key 1, which was never pushed and raises | a node is published exactly while its attempt has a repetition; undo withdraws only what was published and retry pushes, overwrites or pops accordingly | not executed | Publication.UndoAsWrittenPopsUnpublished | Publication.WithdrawOnUndo |
| cre/expression.py:522-524 | the reevaluated group repetition starts at the earliest start of the children's last repetitions | `(a+)` over `aaa`: after reevaluation the child holds spans 0-1 and 1-2, and the group repetition starts at 1 | the repetition starts where the children's first repetitions start, 0 here | not executed | GroupStart.ReevaluatedGroupStart | GroupStart.EarliestStartIsMinimum |
| cre/parser.py:26-29 | `parse` resets `_group_count` but not `_stack`, so a `Parser` reused by its caller keeps what a failed call left | `parse(")")` raises and leaves the root state; a later `parse("a")` on the same parser then fails | each `parse` starts from an empty stack | not executed | SharedParser.OneFailureBlocksAll | Compiler.Parser.Parse |
