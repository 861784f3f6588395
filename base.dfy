/** Values shared by the engine, the compiler and the draft engine. */
module Base {

  datatype Option<+T> = None | Some(value: T)

  /** A result, or the exception the Python code would raise instead. */
  datatype Result<+T, +E> = Ok(value: T) | Raise(error: E) {
    predicate IsFailure() { Raise? }
    function PropagateFailure<U>(): Result<U, E> requires Raise? { Raise(error) }
    function Extract(): T requires Ok? { value }
  }

  /** A capture identifier: a positional group number or a user-chosen name. */
  datatype Id = Index(n: nat) | Name(s: string)

  /** A half-open range `{start, end}` of subject offsets. */
  datatype Span = Span(start: nat, end: nat)

  /** What the engine raises instead of answering. */
  datatype EngineError =
    | UnsetReference(id: Id)       // a back-reference to an identifier with no live capture
    | MissingCapture(id: Id)       // a capture stack popped or overwritten while empty
    | SubjectExhausted             // the subject character at the cursor read past the end
    | EmptyAttemptStack            // `retry` or `undo` on a node with no attempt
    | NoRepetition                 // the greedy rebuild of a composite appended no repetition
    | AlternationBacktrack         // backtracking into an alternation, outside this model
    | Diverges                     // a zero-width leaf repeated without bound
    | OutOfFuel                    // the search ran past the step budget it was given

  /** `max_repetitions`: a number, or `float("inf")`. */
  datatype Limit = Finite(n: nat) | Infinite

  /** `k < limit`, where nothing reaches an infinite limit. */
  predicate Below(k: nat, limit: Limit) {
    limit.Infinite? || k < limit.n
  }

  /** `k == limit`, which never holds for an infinite limit. */
  predicate Reaches(k: nat, limit: Limit) {
    limit.Finite? && k == limit.n
  }

  /** `k <= limit`, which always holds for an infinite limit. */
  predicate Within(k: nat, limit: Limit) {
    limit.Infinite? || k <= limit.n
  }

  /** Python's `s[a:b]` for non-negative `a` and `b`: out-of-range bounds are clamped. */
  function Slice<T>(s: seq<T>, a: nat, b: nat): (r: seq<T>)
    ensures |r| <= |s|
    ensures a <= b <= |s| ==> r == s[a..b]
  {
    if a < b && a < |s| then s[a..if b <= |s| then b else |s|] else []
  }

  /** Python's `s[a:]` for a non-negative `a`. */
  function Suffix<T>(s: seq<T>, a: nat): (r: seq<T>)
    ensures a <= |s| ==> r == s[a..]
    ensures a >= |s| ==> r == []
  {
    if a <= |s| then s[a..] else []
  }
}
