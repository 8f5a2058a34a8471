/**
 * Characters, decimal numbers and the string operations of Rust's standard
 * library and of `nom` that the puzzle solutions are built from.
 */
module Text {
  import opened Common

  const U32Bound: nat := 0x1_0000_0000
  const U64Bound: nat := 0x1_0000_0000_0000_0000

  // ---------------------------------------------------------------------
  // Characters
  // ---------------------------------------------------------------------

  /** `char::is_digit(10)` and `to_digit(10)`: ASCII digits only. */
  predicate IsDigit(c: char) { '0' <= c <= '9' }

  /** `nom`'s `alpha1` on `&str` accepts ASCII letters only. */
  predicate IsAlpha(c: char) { 'a' <= c <= 'z' || 'A' <= c <= 'Z' }

  /** `char::is_whitespace`: the Unicode White_Space property, used by `str::trim`. */
  predicate IsWhitespace(c: char) {
    || c == ' ' || '\t' <= c <= '\r' || c == '\U{85}' || c == '\U{A0}' || c == '\U{1680}'
    || '\U{2000}' <= c <= '\U{200A}' || c == '\U{2028}' || c == '\U{2029}'
    || c == '\U{202F}' || c == '\U{205F}' || c == '\U{3000}'
  }

  /** `nom`'s `space1` accepts spaces and tabs. */
  predicate IsSpace(c: char) { c == ' ' || c == '\t' }

  /** `nom`'s `multispace1` accepts spaces, tabs, carriage returns and newlines. */
  predicate IsMultispace(c: char) { c == ' ' || c == '\t' || c == '\r' || c == '\n' }

  function LowerChar(c: char): char {
    if 'A' <= c <= 'Z' then (c as int + 32) as char else c
  }

  /**
   * `str::to_lowercase` restricted to ASCII. Every name the solutions compare
   * against is made of lower-case ASCII letters other than 'k', and no other
   * character lowers to one of those, so for these comparisons this is exact.
   */
  function Lower(s: string): (r: string)
    ensures |r| == |s|
    ensures forall i :: 0 <= i < |s| ==> r[i] == LowerChar(s[i])
  {
    seq(|s|, i requires 0 <= i < |s| => LowerChar(s[i]))
  }

  // ---------------------------------------------------------------------
  // Decimal numbers
  // ---------------------------------------------------------------------

  predicate AllDigits(s: string) { forall i :: 0 <= i < |s| ==> IsDigit(s[i]) }

  function DigitValue(c: char): (d: nat)
    requires IsDigit(c)
    ensures d < 10
  {
    c as int - '0' as int
  }

  function DigitChar(d: nat): (c: char)
    requires d < 10
    ensures IsDigit(c) && DigitValue(c) == d
  {
    ('0' as int + d) as char
  }

  /** The value of a string of decimal digits, most significant digit first. */
  function DigitsValue(s: string): nat
    requires AllDigits(s)
  {
    if s == [] then 0 else 10 * DigitsValue(s[..|s| - 1]) + DigitValue(s[|s| - 1])
  }

  function Pow10(k: nat): (p: nat)
    ensures p >= 1
  {
    if k == 0 then 1 else 10 * Pow10(k - 1)
  }

  /** The shortest decimal rendering of `n`, as Rust's `Display` for integers writes it. */
  function ShowNat(n: nat): (s: string)
    ensures 0 < |s| && AllDigits(s)
    ensures DigitsValue(s) == n
    ensures |s| > 1 ==> s[0] != '0'
  {
    if n < 10 then [DigitChar(n)]
    else
      var front := ShowNat(n / 10);
      assert (front + [DigitChar(n % 10)])[..|front|] == front;
      front + [DigitChar(n % 10)]
  }

  /** Reading the digits of `a` followed by those of `b` shifts `a` left by `|b|` places. */
  lemma {:induction false} DigitsValueConcat(a: string, b: string)
    requires AllDigits(a) && AllDigits(b)
    ensures AllDigits(a + b)
    ensures DigitsValue(a + b) == DigitsValue(a) * Pow10(|b|) + DigitsValue(b)
  {
    if b == [] {
      assert a + b == a;
    } else {
      var b' := b[..|b| - 1];
      DigitsValueConcat(a, b');
      assert (a + b)[..|a + b| - 1] == a + b';
      var x, p, y, d := DigitsValue(a), Pow10(|b'|), DigitsValue(b'), DigitValue(b[|b| - 1]);
      assert DigitsValue(a + b) == 10 * (x * p + y) + d;
      assert DigitsValue(b) == 10 * y + d;
      assert Pow10(|b|) == 10 * p;
      ShiftStep(x, p, y, d);
    }
  }

  lemma ShiftStep(x: nat, p: nat, y: nat, d: nat)
    ensures 10 * (x * p + y) + d == x * (10 * p) + (10 * y + d)
  {
  }

  // ---------------------------------------------------------------------
  // Prefixes and suffixes
  // ---------------------------------------------------------------------

  predicate StartsWith(s: string, t: string) { |t| <= |s| && s[..|t|] == t }

  predicate IsSuffixOf(r: string, s: string) { |r| <= |s| && s[|s| - |r|..] == r }

  predicate StartsWithDigit(s: string) { |s| > 0 && IsDigit(s[0]) }

  /** Length of the longest prefix of `s` whose characters all satisfy `p`. */
  function Span(s: string, p: char -> bool): (n: nat)
    ensures n <= |s|
    ensures forall i :: 0 <= i < n ==> p(s[i])
    ensures n < |s| ==> !p(s[n])
  {
    if s == [] || !p(s[0]) then 0 else 1 + Span(s[1..], p)
  }

  /** A prefix made of `p`-characters followed by a non-`p` character (or nothing) spans exactly that prefix. */
  lemma SpanOfConcat(a: string, b: string, p: char -> bool)
    requires forall i :: 0 <= i < |a| ==> p(a[i])
    requires b == [] || !p(b[0])
    ensures Span(a + b, p) == |a|
  {
    assert forall i :: 0 <= i < |a| ==> (a + b)[i] == a[i];
    if b != [] {
      assert (a + b)[|a|] == b[0];
    }
  }

  // ---------------------------------------------------------------------
  // nom parsers on &str
  // ---------------------------------------------------------------------

  /** `tag(t)`: the literal `t`. */
  function Tag(s: string, t: string): (r: Parsed<string>)
    ensures r.Done? <==> StartsWith(s, t)
    ensures r.Done? ==> r.value == t && r.rest == s[|t|..]
  {
    if StartsWith(s, t) then Done(t, s[|t|..]) else Mismatch
  }

  /** `take_while1(p)` family (`digit1`, `alpha1`, `space1`, `multispace1`, `is_a`): a non-empty run. */
  function Run1(s: string, p: char -> bool): (r: Parsed<string>)
    ensures r.Done? <==> |s| > 0 && p(s[0])
    ensures r.Done? ==> |r.value| > 0 && s == r.value + r.rest && (r.rest == [] || !p(r.rest[0]))
    ensures r.Done? ==> forall i :: 0 <= i < |r.value| ==> p(r.value[i])
  {
    var n := Span(s, p);
    if n == 0 then Mismatch else Done(s[..n], s[n..])
  }

  /** Regrouping a concatenation of four pieces to the right. */
  lemma Regroup(a: string, b: string, c: string, d: string)
    ensures a + b + c + d == a + (b + (c + d))
  {
  }

  lemma TagOfConcat(t: string, rest: string)
    ensures Tag(t + rest, t) == Done(t, rest)
  {
    assert (t + rest)[..|t|] == t;
    assert (t + rest)[|t|..] == rest;
  }

  /** A run of `p`-characters followed by something else is read as exactly that run. */
  lemma Run1OfConcat(a: string, b: string, p: char -> bool)
    requires |a| > 0 && forall i :: 0 <= i < |a| ==> p(a[i])
    requires b == [] || !p(b[0])
    ensures Run1(a + b, p) == Done(a, b)
  {
    SpanOfConcat(a, b, p);
    assert (a + b)[..|a|] == a;
    assert (a + b)[|a|..] == b;
  }

  /**
   * `nom::character::complete::u32` / `u64`: a greedy run of decimal digits.
   * An empty run or a value that overflows the width (`bound`) is an error.
   */
  function Unsigned(s: string, bound: nat): (r: Parsed<nat>)
    ensures r.Done? ==> r.value < bound && |r.rest| < |s| && IsSuffixOf(r.rest, s)
    ensures r.Done? ==> !StartsWithDigit(r.rest)
    ensures !r.Abort?
  {
    var n := Span(s, IsDigit);
    if n == 0 then Mismatch
    else if DigitsValue(s[..n]) >= bound then Mismatch
    else Done(DigitsValue(s[..n]), s[n..])
  }

  lemma UnsignedOfNonDigit(s: string, bound: nat)
    requires !StartsWithDigit(s)
    ensures Unsigned(s, bound) == Mismatch
  {
  }

  /** The integer parser reads back what `ShowNat` writes, and stops where a non-digit follows. */
  lemma UnsignedOfShow(n: nat, rest: string, bound: nat)
    requires n < bound && !StartsWithDigit(rest)
    ensures Unsigned(ShowNat(n) + rest, bound) == Done(n, rest)
  {
    var s := ShowNat(n);
    SpanOfConcat(s, rest, IsDigit);
    assert (s + rest)[..|s|] == s;
    assert (s + rest)[|s|..] == rest;
  }

  /**
   * `str::parse::<uN>()`: an optional '+' followed by one or more decimal
   * digits whose value is below `bound`; anything else is an error.
   */
  function ParseUnsigned(s: string, bound: nat): (r: Option<nat>)
    ensures r.Some? ==> r.value < bound
  {
    if s == [] then None
    else
      var digits := if s[0] == '+' then s[1..] else s;
      if digits == [] || !AllDigits(digits) || DigitsValue(digits) >= bound then None
      else Some(DigitsValue(digits))
  }

  lemma ParseUnsignedOfShow(n: nat, bound: nat)
    requires n < bound
    ensures ParseUnsigned(ShowNat(n), bound) == Some(n)
  {
  }

  // ---------------------------------------------------------------------
  // str::trim and str::split
  // ---------------------------------------------------------------------

  function TrimStart(s: string): (t: string)
    ensures IsSuffixOf(t, s) && (t == [] || !IsWhitespace(t[0]))
  {
    s[Span(s, IsWhitespace)..]
  }

  function TrimEnd(s: string): (t: string)
    ensures StartsWith(s, t) && (t == [] || !IsWhitespace(t[|t| - 1]))
  {
    if s == [] || !IsWhitespace(s[|s| - 1]) then s else TrimEnd(s[..|s| - 1])
  }

  /** `str::trim`. */
  function Trim(s: string): string {
    TrimEnd(TrimStart(s))
  }

  /** `str::split` on a character predicate: the pieces between separators, empty pieces included. */
  function SplitWhere(s: string, isSep: char -> bool): (parts: seq<string>)
    ensures |parts| >= 1
  {
    if s == [] then [[]]
    else if isSep(s[0]) then [[]] + SplitWhere(s[1..], isSep)
    else
      var tail := SplitWhere(s[1..], isSep);
      [[s[0]] + tail[0]] + tail[1..]
  }

  /** `str::split` on a string pattern: leftmost non-overlapping occurrences of `sep`. */
  function SplitOn(s: string, sep: string): (parts: seq<string>)
    requires |sep| > 0
    ensures |parts| >= 1
    decreases |s|
  {
    if |s| < |sep| then [s]
    else if s[..|sep|] == sep then [[]] + SplitOn(s[|sep|..], sep)
    else
      var tail := SplitOn(s[1..], sep);
      [[s[0]] + tail[0]] + tail[1..]
  }

  function Join(parts: seq<string>, sep: string): string
    requires |parts| >= 1
  {
    if |parts| == 1 then parts[0] else parts[0] + sep + Join(parts[1..], sep)
  }

  /** Splitting on a separator and joining with it gives back the original text. */
  lemma {:induction false} JoinSplitOn(s: string, sep: string)
    requires |sep| > 0
    ensures Join(SplitOn(s, sep), sep) == s
    decreases |s|
  {
    if |s| < |sep| {
    } else if s[..|sep|] == sep {
      JoinSplitOn(s[|sep|..], sep);
      assert s == [] + sep + s[|sep|..];
    } else {
      JoinSplitOn(s[1..], sep);
      var tail := SplitOn(s[1..], sep);
      if |tail| == 1 {
        assert s == [s[0]] + s[1..];
      } else {
        assert Join(tail, sep) == tail[0] + sep + Join(tail[1..], sep);
        assert s == [s[0]] + s[1..];
        assert ([s[0]] + tail[0]) + sep + Join(tail[1..], sep) == [s[0]] + (tail[0] + sep + Join(tail[1..], sep));
      }
    }
  }

  /** Text without the separator character splits into itself alone. */
  lemma {:induction false} SplitOnAbsent(a: string, c: char)
    requires forall i :: 0 <= i < |a| ==> a[i] != c
    ensures SplitOn(a, [c]) == [a]
    decreases |a|
  {
    if |a| >= 1 {
      assert a[..1] != [c] by { assert a[..1][0] == a[0]; }
      SplitOnAbsent(a[1..], c);
      assert [a[0]] + a[1..] == a;
    }
  }

  /** The first separator ends the first piece. */
  lemma {:induction false} SplitOnFirst(a: string, c: char, b: string)
    requires forall i :: 0 <= i < |a| ==> a[i] != c
    ensures SplitOn(a + [c] + b, [c]) == [a] + SplitOn(b, [c])
    decreases |a|
  {
    var s := a + [c] + b;
    if a == [] {
      assert s == [c] + b && s[..1] == [c] && s[1..] == b;
    } else {
      assert s[..1] != [c] by { assert s[..1][0] == a[0]; }
      assert s[1..] == a[1..] + [c] + b;
      SplitOnFirst(a[1..], c, b);
      assert [a[0]] + a[1..] == a;
    }
  }

  /** Text that neither starts nor ends with whitespace is its own trim. */
  lemma TrimOfTrimmed(s: string)
    requires |s| > 0 && !IsWhitespace(s[0]) && !IsWhitespace(s[|s| - 1])
    ensures Trim(s) == s
  {
    assert Span(s, IsWhitespace) == 0;
    assert TrimStart(s) == s;
  }
}
