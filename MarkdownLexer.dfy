/**
 * The character-level productions of the markdown grammar
 * (engine/core/source/core/io/markdown_reader.cpp, `letter` to `boolean`).
 *
 * Each production is a function from a cursor position to the position after
 * its match, or `None`. The repetitions are greedy, so each production matches
 * the longest run it can; the contracts state the language each one accepts,
 * in terms of the reference predicates below, and that the match is maximal
 * where the repetition makes it so.
 */
module MarkdownLexer {
  import opened TextParser

  const UpperLetters := "ABCDEFGHIJKLMNOPQRSTUVWXYZ"
  const LowerLetters := "abcdefghijklmnopqrstuvwxyz"
  /** The set of `letter`, written as its two halves. */
  const Letters := UpperLetters + LowerLetters
  const NonZeroDigits := "123456789"
  /** The double quote that delimits a string, and the backslash that starts an escape. */
  const Quote: char := '\U{0022}'
  const Backslash: char := '\U{005C}'
  const SpaceChars := [' ', '\t', '\n', '\U{000B}', '\U{000C}', '\r']
  /** Characters that may follow a backslash inside a string. */
  const EscapeChars := "\"\\tnvfr"
  /** Characters that may not appear raw inside a string. */
  const StringStops := "\"\\\n\r"

  // Reference character classes, stated independently of the sets above.

  predicate IsLetter(c: char) { 'A' <= c <= 'Z' || 'a' <= c <= 'z' }

  predicate IsDigit(c: char) { '0' <= c <= '9' }

  predicate IsSpace(c: char)
  {
    c == ' ' || c == '\t' || c == '\n' || c == '\U{000B}' || c == '\U{000C}' || c == '\r'
  }

  predicate IsEscape(c: char)
  {
    c == Quote || c == Backslash || c == 't' || c == 'n' || c == 'v' || c == 'f' || c == 'r'
  }

  predicate IsRawStringChar(c: char) { c != Quote && c != Backslash && c != '\n' && c != '\r' }

  // Reference languages of the number and string productions.

  predicate AllDigits(w: string) { forall i :: 0 <= i < |w| ==> IsDigit(w[i]) }

  predicate AllSpaces(w: string) { forall i :: 0 <= i < |w| ==> IsSpace(w[i]) }

  /** `0`, or a non-zero digit followed by any digits. */
  predicate IsIntText(w: string)
  {
    w == "0" || (|w| >= 1 && '1' <= w[0] <= '9' && AllDigits(w[1..]))
  }

  /** An integer part, a dot and at least one digit. */
  predicate IsRealText(w: string)
  {
    exists k :: 0 < k < |w| - 1 && IsIntText(w[..k]) && w[k] == '.' && AllDigits(w[k + 1..])
  }

  /** An optional minus sign followed by an integer or a real number. */
  predicate IsNumberText(w: string)
  {
    var u := if |w| > 0 && w[0] == '-' then w[1..] else w;
    IsIntText(u) || IsRealText(u)
  }

  /** Raw characters and backslash escapes, in any number. */
  predicate IsStringBody(w: string)
    decreases |w|
  {
    w == []
    || (IsRawStringChar(w[0]) && IsStringBody(w[1..]))
    || (|w| >= 2 && w[0] == Backslash && IsEscape(w[1]) && IsStringBody(w[2..]))
  }

  /**
   * `s[i..j]` is the text of a separator: spaces, a comma and spaces, or at
   * least one space.
   */
  predicate SeparatorAt(s: string, i: nat, j: nat)
  {
    i <= j <= |s|
    && ((exists k :: i <= k < j && s[k] == ',' && AllSpaces(s[i..k]) && AllSpaces(s[k + 1..j]))
        || (i < j && AllSpaces(s[i..j])))
  }

  /** `s[p..e]` is number text and no longer text from `p` is. */
  predicate LongestNumberAt(s: string, p: nat, e: nat)
  {
    p < e <= |s| && IsNumberText(s[p..e]) && forall f :: e < f <= |s| ==> !IsNumberText(s[p..f])
  }

  /** The literal `true` starts at `p`. */
  predicate TrueAt(s: string, p: nat) { p + 4 <= |s| && s[p..p + 4] == "true" }

  /** The literal `false` starts at `p`. */
  predicate FalseAt(s: string, p: nat) { p + 5 <= |s| && s[p..p + 5] == "false" }

  lemma UpperLetterSet(c: char)
    ensures c in UpperLetters <==> 'A' <= c <= 'Z'
  {
  }

  lemma LowerLetterSet(c: char)
    ensures c in LowerLetters <==> 'a' <= c <= 'z'
  {
  }

  // The productions.

  function Letter(s: string, p: nat): (r: Option<nat>)
    requires p <= |s|
    ensures r.Some? <==> p < |s| && IsLetter(s[p])
    ensures r.Some? ==> r.value == p + 1
  {
    if p < |s| then UpperLetterSet(s[p]); LowerLetterSet(s[p]); AnyOf(s, p, Letters)
    else AnyOf(s, p, Letters)
  }

  function NonZeroDigit(s: string, p: nat): (r: Option<nat>)
    requires p <= |s|
    ensures r.Some? <==> p < |s| && '1' <= s[p] <= '9'
    ensures r.Some? ==> r.value == p + 1
  {
    AnyOf(s, p, NonZeroDigits)
  }

  function Digit(s: string, p: nat): (r: Option<nat>)
    requires p <= |s|
    ensures r.Some? <==> p < |s| && IsDigit(s[p])
    ensures r.Some? ==> r.value == p + 1
  {
    match Char(s, p, '0')
    case Some(e) => Some(e)
    case None => NonZeroDigit(s, p)
  }

  function Space(s: string, p: nat): (r: Option<nat>)
    requires p <= |s|
    ensures r.Some? <==> p < |s| && IsSpace(s[p])
    ensures r.Some? ==> r.value == p + 1
  {
    AnyOf(s, p, SpaceChars)
  }

  /** Greedy repetition of `digit`; always succeeds. */
  function OptDigits(s: string, p: nat): (e: nat)
    requires p <= |s|
    ensures p <= e <= |s|
    ensures AllDigits(s[p..e])
    ensures e < |s| ==> !IsDigit(s[e])
    decreases |s| - p
  {
    match Digit(s, p)
    case Some(q) =>
      var e := OptDigits(s, q);
      assert s[p..e] == [s[p]] + s[q..e];
      e
    case None => p
  }

  /** Greedy repetition of `space`; always succeeds. */
  function OptSpaces(s: string, p: nat): (e: nat)
    requires p <= |s|
    ensures p <= e <= |s|
    ensures AllSpaces(s[p..e])
    ensures e < |s| ==> !IsSpace(s[e])
    decreases |s| - p
  {
    match Space(s, p)
    case Some(q) =>
      var e := OptSpaces(s, q);
      assert s[p..e] == [s[p]] + s[q..e];
      e
    case None => p
  }

  /** An optional minus sign; always succeeds. */
  function OptMinus(s: string, p: nat): (e: nat)
    requires p <= |s|
    ensures p < |s| && s[p] == '-' ==> e == p + 1
    ensures !(p < |s| && s[p] == '-') ==> e == p
  {
    match Char(s, p, '-')
    case Some(e) => e
    case None => p
  }

  /** One or more spaces. */
  function Spaces(s: string, p: nat): (r: Option<nat>)
    requires p <= |s|
    ensures r.Some? <==> p < |s| && IsSpace(s[p])
    ensures r.Some? ==> p < r.value <= |s| && AllSpaces(s[p..r.value])
    ensures r.Some? && r.value < |s| ==> !IsSpace(s[r.value])
  {
    match Space(s, p)
    case None => None
    case Some(q) =>
      var e := OptSpaces(s, q);
      assert s[p..e] == [s[p]] + s[q..e];
      Some(e)
  }

  /**
   * The separator between values: spaces, a comma and spaces, or at least
   * one space.
   */
  function CommaSpaces(s: string, p: nat): (r: Option<nat>)
    requires p <= |s|
    ensures r.Some? <==> OptSpaces(s, p) > p || (OptSpaces(s, p) < |s| && s[OptSpaces(s, p)] == ',')
    ensures r.Some? ==> p < r.value <= |s| && SeparatorAt(s, p, r.value)
    ensures r.Some? && r.value < |s| ==> !IsSpace(s[r.value])
    ensures OptSpaces(s, p) < |s| && s[OptSpaces(s, p)] == ',' ==> r == Some(OptSpaces(s, OptSpaces(s, p) + 1))
    ensures !(OptSpaces(s, p) < |s| && s[OptSpaces(s, p)] == ',') && r.Some? ==> r.value == OptSpaces(s, p)
  {
    var q := OptSpaces(s, p);
    match Char(s, q, ',')
    case Some(c) =>
      var e := OptSpaces(s, c);
      assert AllSpaces(s[p..q]) && AllSpaces(s[q + 1..e]);
      Some(e)
    case None =>
      match Spaces(s, p)
      case None => None
      case Some(e) => Some(e)
  }

  /**
   * Separator text that is not followed by a space or a comma is exactly
   * what `comma_spaces` matches.
   */
  lemma SeparatorMatched(s: string, i: nat, j: nat)
    requires SeparatorAt(s, i, j)
    requires j < |s| ==> !IsSpace(s[j]) && s[j] != ','
    ensures CommaSpaces(s, i) == Some(j)
  {
    if k :| i <= k < j && s[k] == ',' && AllSpaces(s[i..k]) && AllSpaces(s[k + 1..j]) {
      CommaSeparatorMatched(s, i, k, j);
    } else {
      SpaceSeparatorMatched(s, i, j);
    }
  }

  lemma CommaSeparatorMatched(s: string, i: nat, k: nat, j: nat)
    requires i <= k < j <= |s| && s[k] == ',' && AllSpaces(s[i..k]) && AllSpaces(s[k + 1..j])
    requires j < |s| ==> !IsSpace(s[j])
    ensures CommaSpaces(s, i) == Some(j)
  {
    SpacesEnd(s, i, k);
    SpacesEnd(s, k + 1, j);
  }

  lemma SpaceSeparatorMatched(s: string, i: nat, j: nat)
    requires i < j <= |s| && AllSpaces(s[i..j])
    requires j < |s| ==> !IsSpace(s[j]) && s[j] != ','
    ensures CommaSpaces(s, i) == Some(j)
  {
    SpacesEnd(s, i, j);
  }

  /** A run of spaces from `i` to a non-space at `j` is where `opt_spaces` stops. */
  lemma SpacesEnd(s: string, i: nat, j: nat)
    requires i <= j <= |s| && AllSpaces(s[i..j])
    requires j < |s| ==> !IsSpace(s[j])
    ensures OptSpaces(s, i) == j
  {
  }

  /** `0` alone, or a non-zero digit and any digits. */
  function IntNumber(s: string, p: nat): (r: Option<nat>)
    requires p <= |s|
    ensures r.Some? <==> p < |s| && IsDigit(s[p])
    ensures p < |s| && s[p] == '0' ==> r == Some(p + 1)
    ensures r.Some? ==> p < r.value <= |s| && IsIntText(s[p..r.value])
    ensures r.Some? && s[p] != '0' ==> r.value == |s| || !IsDigit(s[r.value])
  {
    match Char(s, p, '0')
    case Some(e) =>
      assert s[p..e] == "0";
      Some(e)
    case None =>
      match NonZeroDigit(s, p)
      case None => None
      case Some(q) =>
        var e := OptDigits(s, q);
        assert s[p..e][1..] == s[q..e];
        Some(e)
  }

  /** An integer part, `.`, one digit and any digits. */
  function RealNumber(s: string, p: nat): (r: Option<nat>)
    requires p <= |s|
    ensures r.Some? <==> IntNumber(s, p).Some? && IntNumber(s, p).value + 1 < |s|
                         && s[IntNumber(s, p).value] == '.' && IsDigit(s[IntNumber(s, p).value + 1])
    ensures r.Some? ==> IntNumber(s, p).value + 1 < r.value <= |s| && IsRealText(s[p..r.value])
    ensures r.Some? ==> AllDigits(s[IntNumber(s, p).value + 1..r.value])
    ensures r.Some? ==> r.value == |s| || !IsDigit(s[r.value])
  {
    match IntNumber(s, p)
    case None => None
    case Some(k) =>
      match Char(s, k, '.')
      case None => None
      case Some(d) =>
        match Digit(s, d)
        case None => None
        case Some(q) =>
          var e := OptDigits(s, q);
          var w := s[p..e];
          assert w[..k - p] == s[p..k];
          assert w[k - p + 1..] == [s[d]] + s[q..e];
          assert 0 < k - p < |w| - 1 && IsIntText(w[..k - p]) && w[k - p] == '.' && AllDigits(w[k - p + 1..]);
          Some(e)
  }

  /**
   * An optional minus and a real number, or else an optional minus and an
   * integer: the second alternative starts again from `p`, minus included.
   */
  function Number(s: string, p: nat): (r: Option<nat>)
    requires p <= |s|
    ensures r.Some? <==> OptMinus(s, p) < |s| && IsDigit(s[OptMinus(s, p)])
    ensures r.Some? ==> LongestNumberAt(s, p, r.value)
  {
    var q := OptMinus(s, p);
    match RealNumber(s, q)
    case Some(e) =>
      assert q == p + 1 ==> s[p..e][1..] == s[q..e];
      NumberNoLonger(s, p, q, e);
      Some(e)
    case None =>
      match IntNumber(s, q)
      case None => None
      case Some(e) =>
        assert q == p + 1 ==> s[p..e][1..] == s[q..e];
        NumberNoLonger(s, p, q, e);
        Some(e)
  }

  /**
   * No number text from `p` is longer than what the two alternatives of
   * `number` match: an integer part is always read whole, and so is the
   * fraction of a real number.
   */
  lemma NumberNoLonger(s: string, p: nat, q: nat, e: nat)
    requires p <= |s| && q == OptMinus(s, p) && IntNumber(s, q).Some?
    requires RealNumber(s, q).Some? ==> e == RealNumber(s, q).value
    requires RealNumber(s, q).None? ==> e == IntNumber(s, q).value
    ensures forall f :: e < f <= |s| ==> !IsNumberText(s[p..f])
  {
    forall f | e < f <= |s|
      ensures !IsNumberText(s[p..f])
    {
      assert (if |s[p..f]| > 0 && s[p..f][0] == '-' then s[p..f][1..] else s[p..f]) == s[q..f];
      IntTextEnd(s, q, f);
      RealTextEnd(s, q, f);
    }
  }

  /** A run of digits from `a` cannot reach past a non-digit at `d`. */
  lemma DigitsStop(s: string, a: nat, f: nat, d: nat)
    requires a <= d < |s| && a <= f <= |s| && AllDigits(s[a..f]) && !IsDigit(s[d])
    ensures f <= d
  {
  }

  /** Integer text from `q` ends no later than `int_number`'s match. */
  lemma IntTextEnd(s: string, q: nat, f: nat)
    requires q <= f <= |s| && IntNumber(s, q).Some?
    ensures IsIntText(s[q..f]) ==> f <= IntNumber(s, q).value
  {
    var k := IntNumber(s, q).value;
    if IsIntText(s[q..f]) && s[q] != '0' && k < |s| {
      assert s[q..f][1..] == s[q + 1..f];
      DigitsStop(s, q + 1, f, k);
    }
  }

  /** Real number text from `q` ends no later than `real_number`'s match. */
  lemma RealTextEnd(s: string, q: nat, f: nat)
    requires q <= f <= |s|
    ensures IsRealText(s[q..f]) ==> RealNumber(s, q).Some? && f <= RealNumber(s, q).value
  {
    var u := s[q..f];
    if IsRealText(u) {
      var j :| 0 < j < |u| - 1 && IsIntText(u[..j]) && u[j] == '.' && AllDigits(u[j + 1..]);
      assert u[..j] == s[q..q + j];
      assert u[j + 1..] == s[q + j + 1..f];
      RealPartsEnd(s, q, q + j, f);
    }
  }

  /** The same, for an integer part `s[q..k]`, a dot at `k` and digits up to `f`. */
  lemma RealPartsEnd(s: string, q: nat, k: nat, f: nat)
    requires q < k && k + 1 < f <= |s| && IsIntText(s[q..k]) && s[k] == '.' && AllDigits(s[k + 1..f])
    ensures RealNumber(s, q).Some? && f <= RealNumber(s, q).value
  {
    IntPartWhole(s, q, k);
    assert IsDigit(s[k + 1]) by {
      assert s[k + 1] == s[k + 1..f][0];
    }
    var d := RealNumber(s, q).value;
    if d < |s| {
      DigitsStop(s, k + 1, f, d);
    }
  }

  /** An integer text that `.` follows is the integer part `int_number` reads. */
  lemma IntPartWhole(s: string, q: nat, j: nat)
    requires q < j < |s| && IsIntText(s[q..j]) && s[j] == '.'
    ensures IntNumber(s, q) == Some(j)
  {
    var k := IntNumber(s, q).value;
    if s[q] != '0' {
      assert s[q..k][1..] == s[q + 1..k];
      DigitsStop(s, q + 1, k, j);
      assert s[q..j][1..] == s[q + 1..j];
      DigitsStop(s, q + 1, j, k);
    }
  }

  /** Number text starts with a digit, or with a minus sign and a digit. */
  lemma NumberTextStart(w: string)
    requires IsNumberText(w)
    ensures |w| > 0 && (w[0] == '-' ==> |w| > 1 && IsDigit(w[1])) && (w[0] != '-' ==> IsDigit(w[0]))
  {
    var u := if |w| > 0 && w[0] == '-' then w[1..] else w;
    if IsRealText(u) {
      var j :| 0 < j < |u| - 1 && IsIntText(u[..j]) && u[j] == '.' && AllDigits(u[j + 1..]);
      assert u[..j][0] == u[0];
    }
  }

  /** The longest number text at `p` is what `number` matches. */
  lemma LongestNumberMatched(s: string, p: nat, e: nat)
    requires LongestNumberAt(s, p, e)
    ensures Number(s, p) == Some(e)
  {
    NumberTextStart(s[p..e]);
    assert s[OptMinus(s, p)] == s[p..e][OptMinus(s, p) - p];
    LongestUnique(s, p, e, Number(s, p).value);
  }

  lemma LongestUnique(s: string, p: nat, e: nat, f: nat)
    requires LongestNumberAt(s, p, e) && LongestNumberAt(s, p, f)
    ensures e == f
  {
  }

  function EscapeChar(s: string, p: nat): (r: Option<nat>)
    requires p <= |s|
    ensures r.Some? <==> p < |s| && IsEscape(s[p])
    ensures r.Some? ==> r.value == p + 1
  {
    AnyOf(s, p, EscapeChars)
  }

  /**
   * One raw character other than a quote, a backslash, LF or CR; or a
   * backslash followed by an escape character.
   */
  function StringChar(s: string, p: nat): (r: Option<nat>)
    requires p <= |s|
    ensures r.Some? <==> p < |s| && (IsRawStringChar(s[p])
                                     || (s[p] == Backslash && p + 1 < |s| && IsEscape(s[p + 1])))
    ensures r.Some? && IsRawStringChar(s[p]) ==> r.value == p + 1
    ensures r.Some? && !IsRawStringChar(s[p]) ==> r.value == p + 2
  {
    match AnyBut(s, p, StringStops)
    case Some(e) => Some(e)
    case None =>
      match Char(s, p, Backslash)
      case None => None
      case Some(q) =>
        EscapeChar(s, q)
  }

  /** Greedy repetition of `string_char`; always succeeds. */
  function OptStringChars(s: string, p: nat): (e: nat)
    requires p <= |s|
    ensures p <= e <= |s|
    ensures IsStringBody(s[p..e])
    ensures StringChar(s, e).None?
    decreases |s| - p
  {
    match StringChar(s, p)
    case Some(q) =>
      var e := OptStringChars(s, q);
      assert s[p..e][q - p..] == s[q..e];
      e
    case None => p
  }

  /** A quote, a string body and a closing quote. */
  function String(s: string, p: nat): (r: Option<nat>)
    requires p <= |s|
    ensures r.Some? <==> p < |s| && s[p] == Quote && OptStringChars(s, p + 1) < |s|
                         && s[OptStringChars(s, p + 1)] == Quote
    ensures r.Some? ==> p + 2 <= r.value <= |s| && s[p] == Quote && s[r.value - 1] == Quote
                        && IsStringBody(s[(p + 1)..(r.value - 1)])
  {
    match Char(s, p, Quote)
    case None => None
    case Some(q) =>
      var b := OptStringChars(s, q);
      match Char(s, b, Quote)
      case None => None
      case Some(e) =>
        Some(e)
  }

  /** A string body that a quote follows is read whole by `opt_string_chars`. */
  lemma {:induction false} StringBodyMatched(s: string, i: nat, j: nat)
    requires i <= j < |s| && IsStringBody(s[i..j]) && s[j] == Quote
    ensures OptStringChars(s, i) == j
    decreases j - i
  {
    if i < j {
      var w := s[i..j];
      if IsRawStringChar(w[0]) {
        assert w[1..] == s[i + 1..j];
        StringBodyMatched(s, i + 1, j);
      } else {
        assert w[2..] == s[i + 2..j];
        StringBodyMatched(s, i + 2, j);
      }
    }
  }

  /** Quoted string text is exactly what `string` matches. */
  lemma StringMatched(s: string, b: nat, e: nat)
    requires b + 2 <= e <= |s| && s[b] == Quote && s[e - 1] == Quote && IsStringBody(s[(b + 1)..(e - 1)])
    ensures String(s, b) == Some(e)
  {
    StringBodyMatched(s, b + 1, e - 1);
  }

  /** The literal `true` or the literal `false`, tried in this order. */
  function Boolean(s: string, p: nat): (r: Option<nat>)
    requires p <= |s|
    ensures r.Some? <==> TrueAt(s, p) || FalseAt(s, p)
    ensures TrueAt(s, p) ==> r == Some(p + 4)
    ensures !TrueAt(s, p) && FalseAt(s, p) ==> r == Some(p + 5)
  {
    match Literal(s, p, "true")
    case Some(e) => Some(e)
    case None => Literal(s, p, "false")
  }
}
