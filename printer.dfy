/** The quantifier and name serialisers of `Expression` (`_repetition_to_string` and
  * `_wrap_with_name` in cre/expression.py), and how the compiler's grammar reads them back.
  */
module Printer {
  import opened Base
  import opened Syntax

  /** Python's `str(n)` / `"%d" % n` for a natural number. */
  function Decimal(n: nat): (s: string)
    ensures s != [] && IsDigits(s)
  {
    var d := ['0' + (n % 10) as char];
    if n < 10 then d else Decimal(n / 10) + d
  }

  /** `_repetition_to_string`: empty for exactly one repetition; otherwise the bounds, followed by
      `?` when not greedy. */
  function RepetitionToString(r: Repetition): (s: string)
    ensures s == [] <==> r.min == 1 && r.max == Finite(1)
  {
    if r.min == 1 && r.max == Finite(1) then ""
    else BoundsText(r.min, r.max) + (if r.greedy then "" else "?")
  }

  /** The bounds part: `*`, `+`, `?`, `{n}`, or `{m,n}` with 0 and infinity left blank. */
  function BoundsText(min: nat, max: Limit): (b: string)
    ensures b != [] && (b[0] == '{' || b[0] in "*+?")
  {
    if min == 0 && max.Infinite? then "*"
    else if min == 1 && max.Infinite? then "+"
    else if min == 0 && max == Finite(1) then "?"
    else if max == Finite(min) then "{" + Decimal(min) + "}"
    else "{" + (if min == 0 then "" else Decimal(min)) + ","
           + (if max.Infinite? then "" else Decimal(max.n)) + "}"
  }

  /** `_wrap_with_name`: unnamed nodes print bare; a named node is wrapped as `(?P<name>v)` with its
      first string name, or as `(v)` when all its names are numbers. */
  function WrapWithName(names: Option<seq<Id>>, v: string): (w: string)
    ensures names.None? ==> w == v
    ensures names.Some? ==> |w| >= |v| + 2 && w[0] == '(' && w[|w| - 1] == ')'
  {
    match names
    case None => v
    case Some(ns) =>
      match FirstName(ns)
      case Some(s) => "(?P<" + s + ">" + v + ")"
      case None => "(" + v + ")"
  }

  /** The first string name among `ns`. */
  function FirstName(ns: seq<Id>): (r: Option<string>)
    ensures r.Some? <==> exists k :: 0 <= k < |ns| && ns[k].Name?
    ensures r.Some? ==> exists k :: 0 <= k < |ns| && ns[k] == Name(r.value) &&
                                  forall j :: 0 <= j < k ==> ns[j].Index?
  {
    if ns == [] then None
    else if ns[0].Name? then Some(ns[0].s)
    else
      var r := FirstName(ns[1..]);
      assert forall k :: 1 <= k < |ns| ==> ns[k] == ns[1..][k - 1];
      if r.Some? then
        var k :| 0 <= k < |ns[1..]| && ns[1..][k] == Name(r.value) && forall j :: 0 <= j < k ==> ns[1..][j].Index?;
        assert ns[k + 1] == Name(r.value);
        r
      else r
  }

  // ---------------------------------------------------------------------------
  // Reading the output back

  /** `int(str(n)) == n`. */
  lemma {:induction false} DecimalRoundTrip(n: nat)
    ensures DecimalValue(Decimal(n)) == n
  {
    if n >= 10 {
      DecimalRoundTrip(n / 10);
      var s := Decimal(n);
      assert s[..|s| - 1] == Decimal(n / 10);
    }
  }

  /** The digits `s` stand at `i` and are followed by a non-digit: the range run reads them all. */
  lemma DigitsAt(p: string, i: nat, s: string)
    requires IsDigits(s) && i + |s| < |p| && p[i..i + |s|] == s
    requires !InRange(p[i + |s|], '0', '9')
    ensures RunOf(p, i, '0', '9') == |s|
  {
    forall k | i <= k < i + |s| ensures InRange(p[k], '0', '9') {
      assert p[k] == p[i..i + |s|][k - i];
    }
    RunUpTo(p, i, |s|, '0', '9');
  }

  /** A piece of text that stands at `i` has each of its pieces standing at the matching offset. */
  lemma PieceAt(p: string, i: nat, s: string, a: nat, b: nat)
    requires i + |s| <= |p| && p[i..i + |s|] == s && a <= b <= |s|
    ensures p[i + a..i + b] == s[a..b]
    ensures a < |s| ==> p[i + a] == s[a]
  {
    var x, y := p[i + a..i + b], p[i..i + |s|][a..b];
    assert x == y by {
      forall k | 0 <= k < |x| ensures x[k] == y[k] {
        assert x[k] == p[i + a + k];
        assert y[k] == p[i..i + |s|][a + k];
      }
    }
    if a < |s| {
      assert p[i + a] == p[i..i + |s|][a];
    }
  }

  /** Every quantifier the printer writes is read back as itself by the compiler, followed by
      anything that does not begin with `?` (which would be read as a non-greedy mark). */
  lemma QuantifierRoundTrip(r: Repetition, p: string, i: nat, rest: string)
    requires r.min != 1 || r.max != Finite(1)
    requires i <= |p| && p[i..] == RepetitionToString(r) + rest
    requires rest == [] || rest[0] != '?'
    ensures Quantifier(p, i) == (r, i + |RepetitionToString(r)|)
  {
    var t := RepetitionToString(r);
    var b := BoundsText(r.min, r.max);
    TextAt(p, i, t, rest);
    PieceAt(p, i, t, 0, |b|);
    assert t[0..|b|] == b;
    BoundsRoundTrip(r.min, r.max, p, i);
    QuantifierTail(p, i, r.min, r.max, i + |b|);
    if !r.greedy {
      PieceAt(p, i, t, |b|, |t|);
    }
  }

  /** A quantifier is its bounds, then `?` for a non-greedy one. */
  lemma QuantifierTail(p: string, i: nat, lo: nat, hi: Limit, j: nat)
    requires i < |p| && BoundsAt(p, i) == (lo, hi, j)
    ensures j < |p| && p[j] == '?' ==> Quantifier(p, i) == (Repetition(lo, hi, false), j + 1)
    ensures !(j < |p| && p[j] == '?') ==> Quantifier(p, i) == (Repetition(lo, hi, true), j)
  {
  }

  /** Where the text `t` followed by `rest` ends the pattern at `i`. */
  lemma TextAt(p: string, i: nat, t: string, rest: string)
    requires i <= |p| && p[i..] == t + rest
    ensures |p| == i + |t| + |rest| && p[i..i + |t|] == t
    ensures rest != [] ==> p[i + |t|] == rest[0]
  {
    assert |p[i..]| == |t + rest|;
    assert p[i..i + |t|] == p[i..][..|t|];
    if rest != [] {
      assert p[i + |t|] == p[i..][|t|];
    }
  }

  /** The bounds part of the round trip. */
  lemma BoundsRoundTrip(min: nat, max: Limit, p: string, i: nat)
    requires min != 1 || max != Finite(1)
    requires i + |BoundsText(min, max)| <= |p| && p[i..i + |BoundsText(min, max)|] == BoundsText(min, max)
    ensures BoundsAt(p, i) == (min, max, i + |BoundsText(min, max)|)
  {
    var b := BoundsText(min, max);
    PieceAt(p, i, b, 0, |b|);
    if |b| > 1 {
      BracesRoundTrip(min, max, p, i);
    }
  }

  /** The brace forms of the round trip. */
  lemma BracesRoundTrip(min: nat, max: Limit, p: string, i: nat)
    requires !(min == 0 && max.Infinite?) && !(min == 1 && max.Infinite?)
    requires !(min == 0 && max == Finite(1))
    requires i + |BoundsText(min, max)| <= |p| && p[i..i + |BoundsText(min, max)|] == BoundsText(min, max)
    ensures Braces(p, i) == Some((min, max, i + |BoundsText(min, max)|))
  {
    if max == Finite(min) {
      BracesSingle(min, p, i);
    } else {
      BracesPair(min, max, p, i);
    }
  }

  lemma BracesSingle(n: nat, p: string, i: nat)
    requires i + |Decimal(n)| + 2 <= |p| && p[i..i + |Decimal(n)| + 2] == "{" + Decimal(n) + "}"
    ensures Braces(p, i) == Some((n, Finite(n), i + |Decimal(n)| + 2))
  {
    var d := Decimal(n);
    BraceParts(p, i, d);
    DigitsAt(p, i + 1, d);
    DecimalRoundTrip(n);
  }

  lemma BraceParts(p: string, i: nat, d: string)
    requires i + |d| + 2 <= |p| && p[i..i + |d| + 2] == "{" + d + "}"
    ensures p[i] == '{' && p[i + 1..i + 1 + |d|] == d && p[i + 1 + |d|] == '}'
  {
    var b := "{" + d + "}";
    PieceAt(p, i, b, 0, 1);
    PieceAt(p, i, b, 1, 1 + |d|);
    PieceAt(p, i, b, 1 + |d|, |b|);
    assert b[1..1 + |d|] == d;
  }

  lemma BracesPair(min: nat, max: Limit, p: string, i: nat)
    requires max != Finite(min)
    requires !(min == 0 && max.Infinite?) && !(min == 1 && max.Infinite?)
    requires !(min == 0 && max == Finite(1))
    requires i + |BoundsText(min, max)| <= |p| && p[i..i + |BoundsText(min, max)|] == BoundsText(min, max)
    ensures Braces(p, i) == Some((min, max, i + |BoundsText(min, max)|))
  {
    var lo := if min == 0 then "" else Decimal(min);
    var hi := if max.Infinite? then "" else Decimal(max.n);
    if min != 0 {
      DecimalRoundTrip(min);
    }
    if max.Finite? {
      DecimalRoundTrip(max.n);
    }
    BracesPairText(p, i, lo, hi);
  }

  lemma BracesPairText(p: string, i: nat, lo: string, hi: string)
    requires IsDigits(lo) && IsDigits(hi)
    requires i + |lo| + |hi| + 3 <= |p| && p[i..i + |lo| + |hi| + 3] == "{" + lo + "," + hi + "}"
    ensures Braces(p, i) == Some((if lo == [] then 0 else DecimalValue(lo),
                                  if hi == [] then Infinite else Finite(DecimalValue(hi)),
                                  i + |lo| + |hi| + 3))
  {
    PairPieces(p, i, lo, hi);
    DigitsAt(p, i + 1, lo);
    DigitsAt(p, i + 2 + |lo|, hi);
    PairRead(p, i, lo, hi);
  }

  lemma PairPieces(p: string, i: nat, lo: string, hi: string)
    requires i + |lo| + |hi| + 3 <= |p| && p[i..i + |lo| + |hi| + 3] == "{" + lo + "," + hi + "}"
    ensures p[i] == '{' && p[i + 1 + |lo|] == ',' && p[i + 2 + |lo| + |hi|] == '}'
    ensures p[i + 1..i + 1 + |lo|] == lo && p[i + 2 + |lo|..i + 2 + |lo| + |hi|] == hi
  {
    var b := "{" + lo + "," + hi + "}";
    var c := 1 + |lo|;
    PieceAt(p, i, b, 0, 1);
    PieceAt(p, i, b, 1, c);
    PieceAt(p, i, b, c, c + 1);
    PieceAt(p, i, b, c + 1, c + 1 + |hi|);
    PieceAt(p, i, b, c + 1 + |hi|, |b|);
    assert b[1..c] == lo;
    assert b[c + 1..c + 1 + |hi|] == hi;
    assert b[c] == ',' && b[c + 1 + |hi|] == '}';
  }

  lemma PairRead(p: string, i: nat, lo: string, hi: string)
    requires i + |lo| + |hi| + 3 <= |p| && IsDigits(lo) && IsDigits(hi)
    requires p[i] == '{' && RunOf(p, i + 1, '0', '9') == |lo| && p[i + 1 + |lo|] == ','
    requires RunOf(p, i + 2 + |lo|, '0', '9') == |hi| && p[i + 2 + |lo| + |hi|] == '}'
    requires p[i + 1..i + 1 + |lo|] == lo && p[i + 2 + |lo|..i + 2 + |lo| + |hi|] == hi
    ensures Braces(p, i) == Some((if lo == [] then 0 else DecimalValue(lo),
                                  if hi == [] then Infinite else Finite(DecimalValue(hi)),
                                  i + |lo| + |hi| + 3))
  {
  }

  /** Exactly one repetition prints as nothing, greedy or not; nothing is read back as one greedy
      repetition wherever no quantifier character follows. */
  lemma OnceRoundTrip(r: Repetition, p: string, i: nat)
    requires r.min == 1 && r.max == Finite(1)
    requires i <= |p| && (i == |p| || p[i] !in "+?*{")
    ensures RepetitionToString(r) == []
    ensures Quantifier(p, i) == (Once, i)
  {
  }

  /** The name a group is printed with is read back by the `?P<name>` grammar exactly when it is
      non-empty lower-case letters; a group with only numbers is printed as a plain group. */
  lemma NameRoundTrip(names: seq<Id>, v: string)
    ensures FirstName(names).Some? ==>
      var w := WrapWithName(Some(names), v);
      (NamePrefix(w, 1) == Some((FirstName(names).value, |FirstName(names).value| + 5)) <==>
       IsLowerName(FirstName(names).value))
    ensures FirstName(names).None? ==> WrapWithName(Some(names), v) == "(" + v + ")"
  {
    if FirstName(names).Some? {
      var s := FirstName(names).value;
      var w := WrapWithName(Some(names), v);
      assert w[1..] == "?P<" + s + ">" + (v + ")");
      NamePrefixExactly(w, 1, s, v + ")");
    }
  }
}
