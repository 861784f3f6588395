/** The two sub-languages `cre/parser.py` recognises by matching small expression trees against the
  * pattern itself: the quantifier after an atom (`_resolve_repetitions`) and the `?P<name>` prefix
  * of a named group (`_parse_conjunction`). Each is stated here as the language its tree accepts.
  */
module Syntax {
  import opened Base

  /** The keyword arguments `_resolve_repetitions` returns. */
  datatype Repetition = Repetition(min: nat, max: Limit, greedy: bool)

  /** `min_repetitions=1, max_repetitions=1, greedy=True`: no quantifier. */
  const Once := Repetition(1, Finite(1), true)

  /** A `CharacterRangeExpression(start=lo, end=hi)` step accepts `c`. */
  predicate InRange(c: char, lo: char, hi: char) {
    lo <= c <= hi
  }

  /** The number of characters from `i` on that a range repeated without bound takes. */
  function RunOf(p: string, i: nat, lo: char, hi: char): (n: nat)
    ensures i + n <= |p| || n == 0
    decreases |p| - i
  {
    if i < |p| && InRange(p[i], lo, hi) then 1 + RunOf(p, i + 1, lo, hi) else 0
  }

  /** The run is the longest stretch of in-range characters from `i`. */
  lemma {:induction false} RunIsMaximal(p: string, i: nat, lo: char, hi: char)
    ensures forall k :: i <= k < i + RunOf(p, i, lo, hi) ==> InRange(p[k], lo, hi)
    ensures i + RunOf(p, i, lo, hi) < |p| ==> !InRange(p[i + RunOf(p, i, lo, hi)], lo, hi)
    decreases |p| - i
  {
    if i < |p| && InRange(p[i], lo, hi) {
      RunIsMaximal(p, i + 1, lo, hi);
    }
  }

  predicate IsDigits(s: string) {
    forall k :: 0 <= k < |s| ==> InRange(s[k], '0', '9')
  }

  predicate IsLowerName(s: string) {
    s != [] && forall k :: 0 <= k < |s| ==> InRange(s[k], 'a', 'z')
  }

  /** Python's `int(s)` on a string of ASCII digits. */
  function DecimalValue(s: string): nat
    requires IsDigits(s)
  {
    if s == [] then 0 else 10 * DecimalValue(s[..|s| - 1]) + (s[|s| - 1] - '0') as nat
  }

  /** The `{n}` and `{m,n}` forms at `i`: the bounds and the offset after the closing brace, or
      nothing when neither tree matches (the failed match leaves the cursor where it was). */
  function Braces(p: string, i: nat): (r: Option<(nat, Limit, nat)>)
    ensures r.Some? ==> i < r.value.2 <= |p|
  {
    if i < |p| && p[i] == '{' then
      var d := RunOf(p, i + 1, '0', '9');
      RunIsDigits(p, i + 1);
      var close := i + 1 + d;
      if d > 0 && close < |p| && p[close] == '}' then
        var n := DecimalValue(p[i + 1..close]);
        Some((n, Finite(n), close + 1))
      else if close < |p| && p[close] == ',' then
        var e := RunOf(p, close + 1, '0', '9');
        RunIsDigits(p, close + 1);
        var close2 := close + 1 + e;
        if close2 < |p| && p[close2] == '}' then
          var lo := if d == 0 then 0 else DecimalValue(p[i + 1..close]);
          var hi := if e == 0 then Infinite else Finite(DecimalValue(p[close + 1..close2]));
          Some((lo, hi, close2 + 1))
        else None
      else None
    else None
  }

  lemma RunIsDigits(p: string, i: nat)
    ensures i + RunOf(p, i, '0', '9') <= |p| ==> IsDigits(p[i..i + RunOf(p, i, '0', '9')])
  {
    RunIsMaximal(p, i, '0', '9');
    var n := RunOf(p, i, '0', '9');
    if i + n <= |p| {
      var q := p[i..i + n];
      forall k | 0 <= k < n ensures InRange(q[k], '0', '9') {
        assert q[k] == p[i + k];
      }
    }
  }

  /** `_resolve_repetitions` read at offset `i`: the quantifier and the offset after it. */
  function Quantifier(p: string, i: nat): (r: (Repetition, nat))
    requires i <= |p|
    ensures i <= r.1 <= |p|
  {
    if i >= |p| then (Once, i)
    else
      var (lo, hi, j) := BoundsAt(p, i);
      if j < |p| && p[j] == '?' then (Repetition(lo, hi, false), j + 1)
      else (Repetition(lo, hi, true), j)
  }

  /** The bounds part of a quantifier at `i < |p|`: one of `+ ? *`, a brace form, or nothing. */
  function BoundsAt(p: string, i: nat): (r: (nat, Limit, nat))
    requires i < |p|
    ensures i <= r.2 <= |p|
  {
    if p[i] == '+' then (1, Infinite, i + 1)
    else if p[i] == '?' then (0, Finite(1), i + 1)
    else if p[i] == '*' then (0, Infinite, i + 1)
    else match Braces(p, i)
      case Some(b) => b
      case None => (1, Finite(1), i)
  }

  /** The `?P<name>` prefix at `i`: the name and the offset after `>`, or nothing. */
  function NamePrefix(p: string, i: nat): (r: Option<(string, nat)>)
    ensures r.Some? ==> i + 4 <= r.value.1 <= |p|
  {
    if i + 3 <= |p| && p[i..i + 3] == "?P<" then
      var n := RunOf(p, i + 3, 'a', 'z');
      if n > 0 && i + 3 + n < |p| && p[i + 3 + n] == '>' then Some((p[i + 3..i + 3 + n], i + 4 + n))
      else None
    else None
  }

  // ---------------------------------------------------------------------------
  // What the two languages consume

  /** The characters a quantifier is written with. */
  predicate QuantifierChar(c: char) {
    c in "+?*{},0123456789"
  }

  /** The characters a name prefix is written with. */
  predicate NameChar(c: char) {
    c in "?P<>" || InRange(c, 'a', 'z')
  }

  /** A quantifier consumes only quantifier characters, and nothing at all when it is absent. */
  lemma QuantifierConsumes(p: string, i: nat)
    requires i <= |p|
    ensures forall k :: i <= k < Quantifier(p, i).1 ==> QuantifierChar(p[k])
    ensures Quantifier(p, i).1 == i ==> Quantifier(p, i).0 == Once
  {
    if i < |p| && p[i] == '{' {
      var d := RunOf(p, i + 1, '0', '9');
      RunIsMaximal(p, i + 1, '0', '9');
      var close := i + 1 + d;
      if close < |p| && p[close] == ',' {
        RunIsMaximal(p, close + 1, '0', '9');
      }
    }
  }

  /** A name prefix consumes only name-prefix characters, and its name is lower-case letters. */
  lemma NamePrefixConsumes(p: string, i: nat)
    requires NamePrefix(p, i).Some?
    ensures IsLowerName(NamePrefix(p, i).value.0)
    ensures forall k :: i <= k < NamePrefix(p, i).value.1 ==> NameChar(p[k])
  {
    var n := RunOf(p, i + 3, 'a', 'z');
    RunIsMaximal(p, i + 3, 'a', 'z');
    assert p[i..i + 3] == "?P<";
    forall k | i <= k < i + 3 ensures NameChar(p[k]) {
      assert p[k] == p[i..i + 3][k - i];
    }
  }

  /** `?P<name>` is read back as `name` exactly when the name is non-empty lower-case letters,
      whatever follows it. */
  lemma {:induction false} NamePrefixExactly(p: string, i: nat, name: string, rest: string)
    requires i <= |p| && p[i..] == "?P<" + name + ">" + rest
    ensures NamePrefix(p, i) == Some((name, i + |name| + 4)) <==> IsLowerName(name)
  {
    assert p[i..i + 3] == "?P<" by {
      assert p[i..i + 3] == p[i..][..3];
    }
    forall k | 0 <= k < |name| ensures p[i + 3 + k] == name[k] {
      assert p[i..][3 + k] == name[k];
    }
    assert p[i + 3 + |name|] == '>' by {
      assert p[i..][3 + |name|] == '>';
    }
    if IsLowerName(name) {
      RunUpTo(p, i + 3, |name|, 'a', 'z');
      assert p[i + 3..i + 3 + |name|] == name;
    } else if NamePrefix(p, i).Some? {
      NamePrefixConsumes(p, i);
    }
  }

  /** A run is exactly `n` long when `n` characters are in range and the next one is not. */
  lemma {:induction false} RunUpTo(p: string, i: nat, n: nat, lo: char, hi: char)
    requires i + n <= |p|
    requires forall k :: i <= k < i + n ==> InRange(p[k], lo, hi)
    requires i + n < |p| ==> !InRange(p[i + n], lo, hi)
    ensures RunOf(p, i, lo, hi) == n
    decreases n
  {
    if n > 0 {
      RunUpTo(p, i + 1, n - 1, lo, hi);
    }
  }
}
