/**
 * The value-level productions of the markdown grammar and the tokens they
 * capture (engine/core/source/core/io/markdown_reader.cpp, `value` to `array`
 * and the token `init` methods).
 *
 * `token<T>(rule)` links a new token in front of the enclosing frame's last
 * token. A frame is modelled by the chain it holds: a production that captures
 * tokens takes the frame's current chain `last` and returns the chain after its
 * match. An object or an array opens a frame of its own, which starts empty.
 * A production that fails returns `None`, so the caller's chain is left as it
 * was: a failed alternative leaves no token behind.
 *
 * `ValidToken` is the reference: the tokens the grammar can capture, with
 * the tokens of every frame tiling the text between its brackets. Each
 * production is proved sound against it (what it captures is valid and
 * covers its match) and complete (every valid token is what `value`
 * captures where it begins), and each repetition is proved to stop only
 * where no further separator and value follow.
 */
module MarkdownGrammar {
  import opened TextParser
  import opened MarkdownLexer

  /** A captured token; `[begin, end)` is the span its production matched. */
  datatype Token =
    | NumberToken(begin: nat, end: nat, lexeme: string)
    | StringToken(begin: nat, end: nat, text: string)
    | BooleanToken(begin: nat, end: nat, flag: bool)
    | ObjectToken(begin: nat, end: nat, last: Chain)
    | ArrayToken(begin: nat, end: nat, last: Chain)

  /** Tokens of one frame, newest first, linked through `previous`. */
  datatype Chain = Nil | Link(token: Token, previous: Chain)

  /** The position after a match and the frame's chain after it. */
  datatype Match = Match(end: nat, chain: Chain)

  /**
   * `StringToken::init`: a span that starts with a quote is a string literal
   * and loses its two quotes; any other span is kept whole.
   */
  function StringInit(lexeme: string): (text: string)
    requires |lexeme| >= 1
    requires lexeme[0] == '"' ==> |lexeme| >= 2
    ensures lexeme[0] == '"' ==> |text| == |lexeme| - 2
                                 && forall i :: 0 <= i < |text| ==> text[i] == lexeme[i + 1]
    ensures lexeme[0] != '"' ==> text == lexeme
  {
    if lexeme[0] == '"' then lexeme[1..|lexeme| - 1] else lexeme
  }

  /**
   * `BooleanToken::init`: compares at most four characters of the input from
   * the token's first character against `true`.
   */
  function BooleanInit(s: string, begin: nat): (flag: bool)
    requires begin <= |s|
    ensures flag <==> begin + 4 <= |s| && s[begin] == 't' && s[begin + 1] == 'r'
                      && s[begin + 2] == 'u' && s[begin + 3] == 'e'
  {
    begin + 4 <= |s| && s[begin..begin + 4] == "true"
  }

  /** The number of tokens reached from `c` through `previous`. */
  function Length(c: Chain): nat
    decreases c
  {
    if c.Nil? then 0 else 1 + Length(c.previous)
  }

  /** `s[i..j]` is the text between a key and its value: `:` between optional spaces. */
  predicate ColonAt(s: string, i: nat, j: nat)
  {
    i <= j <= |s| && exists k :: i <= k < j && s[k] == ':' && AllSpaces(s[i..k]) && AllSpaces(s[k + 1..j])
  }

  /**
   * A token that its production could have captured from `s`: a number token
   * holds the longest number text at its start, a string token its span
   * without the quotes, a boolean token is `true` exactly for the lexeme
   * `true`, and the frame of an object or an array tiles the text between
   * its brackets.
   */
  predicate ValidToken(s: string, t: Token)
    decreases t, 2
  {
    t.begin < t.end <= |s|
    && match t
       case NumberToken(b, e, lexeme) =>
         lexeme == s[b..e] && LongestNumberAt(s, b, e)
       case StringToken(b, e, text) =>
         b + 2 <= e && s[b] == '"' && s[e - 1] == '"' && text == s[(b + 1)..(e - 1)] && IsStringBody(text)
       case BooleanToken(b, e, flag) =>
         (s[b..e] == "true" && flag) || (s[b..e] == "false" && !flag)
       case ObjectToken(b, e, last) =>
         b + 2 <= e && s[b] == '{' && s[e - 1] == '}' && FramePairs(s, last, b + 1, e - 1)
       case ArrayToken(b, e, last) =>
         b + 2 <= e && s[b] == '[' && s[e - 1] == ']' && FrameValues(s, last, b + 1, e - 1)
  }

  /**
   * The tokens of an array frame tile `s[lo..hi]`: only spaces before the
   * first and after the last, and separator text between neighbours. An
   * empty frame holds only spaces.
   */
  predicate FrameValues(s: string, c: Chain, lo: nat, hi: nat)
    decreases c, 1
  {
    lo <= hi <= |s|
    && if c.Nil? then AllSpaces(s[lo..hi])
       else ValuesFrom(s, c, lo) && c.token.end <= hi && AllSpaces(s[c.token.end..hi])
  }

  /**
   * The tokens of `c` are valid; the oldest is preceded by only spaces from
   * `lo`, and each later one by separator text after the one before it.
   */
  predicate ValuesFrom(s: string, c: Chain, lo: nat)
    decreases c, 0
  {
    c.Link? && ValidToken(s, c.token)
    && match c.previous
       case Nil => lo <= c.token.begin && AllSpaces(s[lo..c.token.begin])
       case Link(t, _) => SeparatorAt(s, t.end, c.token.begin) && ValuesFrom(s, c.previous, lo)
  }

  /** The same for an object frame, whose tokens come as key/value pairs. */
  predicate FramePairs(s: string, c: Chain, lo: nat, hi: nat)
    decreases c, 1
  {
    lo <= hi <= |s|
    && if c.Nil? then AllSpaces(s[lo..hi])
       else PairsFrom(s, c, lo) && c.token.end <= hi && AllSpaces(s[c.token.end..hi])
  }

  /**
   * `c` holds whole pairs of valid tokens, the key of each pair followed by
   * colon text and its value; the oldest key is preceded by only spaces from
   * `lo`, and each later key by separator text after the pair before it.
   */
  predicate PairsFrom(s: string, c: Chain, lo: nat)
    decreases c, 0
  {
    c.Link? && c.previous.Link?
    && ValidToken(s, c.previous.token) && ValidToken(s, c.token)
    && ColonAt(s, c.previous.token.end, c.token.begin)
    && match c.previous.previous
       case Nil => lo <= c.previous.token.begin && AllSpaces(s[lo..c.previous.token.begin])
       case Link(t, _) => SeparatorAt(s, t.end, c.previous.token.begin) && PairsFrom(s, c.previous.previous, lo)
  }

  /**
   * The tokens of `c` above `base` are valid, and each is preceded by
   * separator text: the first after `p`, each later one after the one before
   * it.
   */
  predicate SeparatedValues(s: string, c: Chain, base: Chain, p: nat)
    decreases c
  {
    c == base
    || (c.Link? && ValidToken(s, c.token)
        && if c.previous == base then SeparatorAt(s, p, c.token.begin)
           else c.previous.Link? && SeparatorAt(s, c.previous.token.end, c.token.begin)
                && SeparatedValues(s, c.previous, base, p))
  }

  /** The same for key/value pairs above `base`, each pair a key, colon text and a value. */
  predicate SeparatedPairs(s: string, c: Chain, base: Chain, p: nat)
    decreases c
  {
    c == base
    || (c.Link? && c.previous.Link? && c.previous != base
        && ValidToken(s, c.previous.token) && ValidToken(s, c.token)
        && ColonAt(s, c.previous.token.end, c.token.begin)
        && if c.previous.previous == base then SeparatorAt(s, p, c.previous.token.begin)
           else c.previous.previous.Link? && SeparatorAt(s, c.previous.previous.token.end, c.previous.token.begin)
                && SeparatedPairs(s, c.previous.previous, base, p))
  }

  /** `c` is `base` with a key token and a value token linked above it, the key at `p`. */
  predicate PairAt(s: string, c: Chain, base: Chain, p: nat)
  {
    c.Link? && c.previous.Link? && c.previous.previous == base && c.previous.token.begin == p
    && ValidToken(s, c.previous.token) && ValidToken(s, c.token)
    && ColonAt(s, c.previous.token.end, c.token.begin)
  }

  /** Where the tokens of `c` above `base` end; `p` if there are none. */
  function EndAbove(c: Chain, base: Chain, p: nat): nat
  {
    if c == base || c.Nil? then p else c.token.end
  }

  /**
   * `m` extends `start` by separated values: the tokens it links above
   * `start`'s chain are valid, each after separator text, and it ends where
   * the last of them ends.
   */
  predicate ValuesAfter(s: string, start: Match, m: Match)
  {
    SeparatedValues(s, m.chain, start.chain, start.end) && m.end == EndAbove(m.chain, start.chain, start.end)
  }

  /** The same for separated key/value pairs. */
  predicate PairsAfter(s: string, start: Match, m: Match)
  {
    SeparatedPairs(s, m.chain, start.chain, start.end) && m.end == EndAbove(m.chain, start.chain, start.end)
  }

  /** The tokens of `c` above `base` come in twos. */
  predicate PairedOver(c: Chain, base: Chain)
    decreases c
  {
    c == base || (c.Link? && c.previous.Link? && PairedOver(c.previous.previous, base))
  }

  /** A character a value can begin with. */
  predicate StartsValue(c: char)
  {
    IsDigit(c) || c == '-' || c == '"' || c == 't' || c == 'f' || c == '{' || c == '['
  }

  /**
   * `m` captured one valid token at `p` onto `last`: the token spans
   * `[p, m.end)` and is linked in front of `last`.
   */
  predicate CapturedAt(s: string, p: nat, last: Chain, m: Match)
  {
    p < m.end <= |s| && m.chain.Link? && m.chain.previous == last
    && m.chain.token.begin == p && m.chain.token.end == m.end && ValidToken(s, m.chain.token)
  }

  // Soundness: what the productions capture.

  /** `token<NumberToken>(number)`: a number, captured as its lexeme. */
  function NumberCapture(s: string, p: nat, last: Chain): (r: Option<Match>)
    requires p <= |s|
    ensures r.Some? <==> Number(s, p).Some?
    ensures r.Some? ==> CapturedAt(s, p, last, r.value) && r.value.chain.token.NumberToken?
  {
    match Number(s, p)
    case None => None
    case Some(e) =>
      NumberCaptured(s, p, e);
      Some(Match(e, Link(NumberToken(p, e, s[p..e]), last)))
  }

  /** `token<StringToken>(string)`: a string literal, captured without its quotes. */
  function StringCapture(s: string, p: nat, last: Chain): (r: Option<Match>)
    requires p <= |s|
    ensures r.Some? <==> String(s, p).Some?
    ensures r.Some? ==> CapturedAt(s, p, last, r.value) && r.value.chain.token.StringToken?
  {
    match String(s, p)
    case None => None
    case Some(e) =>
      StringCaptured(s, p, e);
      Some(Match(e, Link(StringToken(p, e, StringInit(s[p..e])), last)))
  }

  /** `token<BooleanToken>(boolean)`: `true` or `false`, captured as its flag. */
  function BooleanCapture(s: string, p: nat, last: Chain): (r: Option<Match>)
    requires p <= |s|
    ensures r.Some? <==> Boolean(s, p).Some?
    ensures r.Some? ==> CapturedAt(s, p, last, r.value) && r.value.chain.token.BooleanToken?
  {
    match Boolean(s, p)
    case None => None
    case Some(e) =>
      BooleanCaptured(s, p, e);
      Some(Match(e, Link(BooleanToken(p, e, BooleanInit(s, p)), last)))
  }

  /** `token<ObjectToken>(object)`: an object, captured with the chain of its own frame. */
  function ObjectCapture(s: string, p: nat, last: Chain): (r: Option<Match>)
    requires p <= |s|
    ensures r.Some? <==> Object(s, p).Some?
    ensures r.Some? ==> CapturedAt(s, p, last, r.value) && r.value.chain.token.ObjectToken?
    decreases |s| - p, 2
  {
    match Object(s, p)
    case None => None
    case Some(m) => Some(Match(m.end, Link(ObjectToken(p, m.end, m.chain), last)))
  }

  /** `token<ArrayToken>(array)`: an array, captured with the chain of its own frame. */
  function ArrayCapture(s: string, p: nat, last: Chain): (r: Option<Match>)
    requires p <= |s|
    ensures r.Some? <==> Array(s, p).Some?
    ensures r.Some? ==> CapturedAt(s, p, last, r.value) && r.value.chain.token.ArrayToken?
    decreases |s| - p, 2
  {
    match Array(s, p)
    case None => None
    case Some(m) => Some(Match(m.end, Link(ArrayToken(p, m.end, m.chain), last)))
  }

  /**
   * `value`: a number, a string, a boolean, an object or an array, tried in
   * this order; the first that matches captures one token onto `last`.
   */
  function Value(s: string, p: nat, last: Chain): (r: Option<Match>)
    requires p <= |s|
    ensures r.Some? ==> CapturedAt(s, p, last, r.value)
    decreases |s| - p, 3
  {
    var n := NumberCapture(s, p, last);
    if n.Some? then n else
    var q := StringCapture(s, p, last);
    if q.Some? then q else
    var b := BooleanCapture(s, p, last);
    if b.Some? then b else
    var o := ObjectCapture(s, p, last);
    if o.Some? then o else
    ArrayCapture(s, p, last)
  }

  /** `key_value`: a key value, then the rest of the pair after it. */
  function KeyValue(s: string, p: nat, last: Chain): (r: Option<Match>)
    requires p <= |s|
    ensures r.Some? ==> p < r.value.end <= |s|
    ensures r.Some? ==> PairAt(s, r.value.chain, last, p) && r.value.end == r.value.chain.token.end
    decreases |s| - p, 4
  {
    match Value(s, p, last)
    case None => None
    case Some(key) => PairTail(s, key.end, key.chain)
  }

  /** What follows the key of a key value: `:` between optional spaces, and a value. */
  function PairTail(s: string, p: nat, last: Chain): (r: Option<Match>)
    requires p <= |s|
    ensures r.Some? ==> p < r.value.end <= |s|
    ensures r.Some? ==> r.value.chain.Link? && r.value.chain.previous == last
                        && ValidToken(s, r.value.chain.token) && r.value.chain.token.end == r.value.end
                        && ColonAt(s, p, r.value.chain.token.begin)
    decreases |s| - p, 4
  {
    var a := OptSpaces(s, p);
    match Char(s, a, ':')
    case None => None
    case Some(b) =>
      var c := OptSpaces(s, b);
      assert s[a] == ':' && AllSpaces(s[p..a]) && AllSpaces(s[a + 1..c]);
      Value(s, c, last)
  }

  /** `opt_space_separated_key_values`: greedy repetition of a separator and a key value. */
  function OptSpaceSeparatedKeyValues(s: string, p: nat, last: Chain): (m: Match)
    requires p <= |s|
    ensures p <= m.end <= |s|
    ensures PairsAfter(s, Match(p, last), m)
    decreases |s| - p, 5
  {
    match CommaSpaces(s, p)
    case None => Match(p, last)
    case Some(q) =>
      match KeyValue(s, q, last)
      case None => Match(p, last)
      case Some(kv) =>
        var m := OptSpaceSeparatedKeyValues(s, kv.end, kv.chain);
        PairsAfterCons(s, Match(p, last), q, kv, m);
        m
  }

  /** The repetition is greedy: it stops only where no separator and key value follow. */
  lemma {:induction false} KeyValuesStop(s: string, p: nat, last: Chain)
    requires p <= |s|
    ensures var m := OptSpaceSeparatedKeyValues(s, p, last);
            CommaSpaces(s, m.end).None? || KeyValue(s, CommaSpaces(s, m.end).value, m.chain).None?
    decreases |s| - p
  {
    match CommaSpaces(s, p)
    case None =>
    case Some(q) =>
      match KeyValue(s, q, last)
      case None =>
      case Some(kv) => KeyValuesStop(s, kv.end, kv.chain);
  }

  /**
   * `opt_key_values`, run at the start of an object frame: a key value and
   * the repetition after it, or nothing. Its pairs tile the frame from `p`.
   */
  function OptKeyValues(s: string, p: nat): (m: Match)
    requires p <= |s|
    ensures p <= m.end <= |s|
    ensures m.chain.Nil? ==> m.end == p
    ensures m.chain.Link? ==> PairsFrom(s, m.chain, p) && m.end == m.chain.token.end
    decreases |s| - p, 6
  {
    match KeyValue(s, p, Nil)
    case None => Match(p, Nil)
    case Some(kv) =>
      var m := OptSpaceSeparatedKeyValues(s, kv.end, kv.chain);
      SeparatedPairsFrom(s, m.chain, kv.chain, p);
      m
  }

  /**
   * `opt_key_values` takes a key value that starts at `p`, then separated
   * key values greedily: it stops only where no separator and key value
   * follow.
   */
  lemma OptKeyValuesGreedy(s: string, p: nat, m: Match)
    requires p <= |s| && m == OptKeyValues(s, p)
    ensures KeyValue(s, p, Nil).None? ==> m == Match(p, Nil)
    ensures KeyValue(s, p, Nil).Some? ==> PairsAfter(s, KeyValue(s, p, Nil).value, m)
    ensures KeyValue(s, p, Nil).Some? ==>
              CommaSpaces(s, m.end).None? || KeyValue(s, CommaSpaces(s, m.end).value, m.chain).None?
  {
    match KeyValue(s, p, Nil)
    case None =>
    case Some(kv) =>
      assert m == OptSpaceSeparatedKeyValues(s, kv.end, kv.chain);
      KeyValuesStop(s, kv.end, kv.chain);
  }

  /** `opt_space_separated_values`: greedy repetition of a separator and a value. */
  function OptSpaceSeparatedValues(s: string, p: nat, last: Chain): (m: Match)
    requires p <= |s|
    ensures p <= m.end <= |s|
    ensures ValuesAfter(s, Match(p, last), m)
    decreases |s| - p, 5
  {
    match CommaSpaces(s, p)
    case None => Match(p, last)
    case Some(q) =>
      match Value(s, q, last)
      case None => Match(p, last)
      case Some(v) =>
        var m := OptSpaceSeparatedValues(s, v.end, v.chain);
        ValuesAfterCons(s, Match(p, last), q, v, m);
        m
  }

  /** The repetition is greedy: it stops only where no separator and value follow. */
  lemma {:induction false} ValuesStop(s: string, p: nat, last: Chain)
    requires p <= |s|
    ensures var m := OptSpaceSeparatedValues(s, p, last);
            CommaSpaces(s, m.end).None? || Value(s, CommaSpaces(s, m.end).value, m.chain).None?
    decreases |s| - p
  {
    match CommaSpaces(s, p)
    case None =>
    case Some(q) =>
      match Value(s, q, last)
      case None =>
      case Some(v) => ValuesStop(s, v.end, v.chain);
  }

  /**
   * `opt_values`, run at the start of an array frame: a value and the
   * repetition after it, or nothing. Its values tile the frame from `p`.
   */
  function OptValues(s: string, p: nat): (m: Match)
    requires p <= |s|
    ensures p <= m.end <= |s|
    ensures m.chain.Nil? ==> m.end == p
    ensures m.chain.Link? ==> ValuesFrom(s, m.chain, p) && m.end == m.chain.token.end
    decreases |s| - p, 6
  {
    match Value(s, p, Nil)
    case None => Match(p, Nil)
    case Some(v) =>
      var m := OptSpaceSeparatedValues(s, v.end, v.chain);
      SeparatedValuesFrom(s, m.chain, v.chain, p);
      m
  }

  /**
   * `opt_values` takes a value that starts at `p`, then separated values
   * greedily: it stops only where no separator and value follow.
   */
  lemma OptValuesGreedy(s: string, p: nat, m: Match)
    requires p <= |s| && m == OptValues(s, p)
    ensures Value(s, p, Nil).None? ==> m == Match(p, Nil)
    ensures Value(s, p, Nil).Some? ==> ValuesAfter(s, Value(s, p, Nil).value, m)
    ensures Value(s, p, Nil).Some? ==>
              CommaSpaces(s, m.end).None? || Value(s, CommaSpaces(s, m.end).value, m.chain).None?
  {
    match Value(s, p, Nil)
    case None =>
    case Some(v) =>
      assert m == OptSpaceSeparatedValues(s, v.end, v.chain);
      ValuesStop(s, v.end, v.chain);
  }

  /** `object`: `{`, optional spaces, key values, optional spaces, `}`; a frame of its own. */
  function Object(s: string, p: nat): (r: Option<Match>)
    requires p <= |s|
    ensures r.Some? ==> p < r.value.end <= |s| && ValidToken(s, ObjectToken(p, r.value.end, r.value.chain))
    decreases |s| - p, 1
  {
    match Char(s, p, '{')
    case None => None
    case Some(a) =>
      assert a == p + 1;
      var b := OptSpaces(s, a);
      var m := OptKeyValues(s, b);
      var c := OptSpaces(s, m.end);
      match Char(s, c, '}')
      case None => None
      case Some(e) =>
        PairsFrameSound(s, p, b, m, e);
        Some(Match(e, m.chain))
  }

  /** `array`: `[`, optional spaces, values, optional spaces, `]`; a frame of its own. */
  function Array(s: string, p: nat): (r: Option<Match>)
    requires p <= |s|
    ensures r.Some? ==> p < r.value.end <= |s| && ValidToken(s, ArrayToken(p, r.value.end, r.value.chain))
    decreases |s| - p, 1
  {
    match Char(s, p, '[')
    case None => None
    case Some(a) =>
      assert a == p + 1;
      var b := OptSpaces(s, a);
      var m := OptValues(s, b);
      var c := OptSpaces(s, m.end);
      match Char(s, c, ']')
      case None => None
      case Some(e) =>
        ValuesFrameSound(s, p, b, m, e);
        Some(Match(e, m.chain))
  }

  /**
   * The root production run by the reader's constructor: optional spaces, a
   * value, and the repetition of separated values, all in the root frame.
   * The result carries the position where the match stopped: the end of the
   * last root value, after which no separator and value follow.
   */
  function Document(s: string): (r: Option<Match>)
    ensures r.Some? <==> Value(s, OptSpaces(s, 0), Nil).Some?
    ensures r.Some? ==> r.value.end <= |s| && ValuesFrom(s, r.value.chain, 0)
                        && r.value.end == r.value.chain.token.end
    ensures r.Some? ==> CommaSpaces(s, r.value.end).None?
                        || Value(s, CommaSpaces(s, r.value.end).value, r.value.chain).None?
  {
    var q := OptSpaces(s, 0);
    match Value(s, q, Nil)
    case None => None
    case Some(v) =>
      var m := OptSpaceSeparatedValues(s, v.end, v.chain);
      SeparatedValuesFrom(s, m.chain, v.chain, 0);
      ValuesStop(s, v.end, v.chain);
      Some(m)
  }

  // Lemmas the soundness proofs use.

  lemma NumberCaptured(s: string, p: nat, e: nat)
    requires LongestNumberAt(s, p, e)
    ensures ValidToken(s, NumberToken(p, e, s[p..e]))
  {
  }

  lemma StringCaptured(s: string, p: nat, e: nat)
    requires p + 2 <= e <= |s| && s[p] == Quote && s[e - 1] == Quote && IsStringBody(s[(p + 1)..(e - 1)])
    ensures ValidToken(s, StringToken(p, e, StringInit(s[p..e])))
  {
    assert StringInit(s[p..e]) == s[(p + 1)..(e - 1)];
  }

  lemma BooleanCaptured(s: string, p: nat, e: nat)
    requires (TrueAt(s, p) && e == p + 4) || (!TrueAt(s, p) && FalseAt(s, p) && e == p + 5)
    ensures ValidToken(s, BooleanToken(p, e, BooleanInit(s, p)))
  {
    assert s[p..e][0] == s[p];
  }


  lemma {:induction false} SeparatedValuesLength(s: string, c: Chain, base: Chain, p: nat)
    requires SeparatedValues(s, c, base, p)
    ensures Length(base) <= Length(c)
    decreases c
  {
    if c != base && c.previous != base {
      SeparatedValuesLength(s, c.previous, base, p);
    }
  }

  /** A value `v` at `q`, after separator text from `start`, then the values `m` reads after it. */
  lemma ValuesAfterCons(s: string, start: Match, q: nat, v: Match, m: Match)
    requires SeparatorAt(s, start.end, q) && CapturedAt(s, q, start.chain, v) && ValuesAfter(s, v, m)
    ensures ValuesAfter(s, start, m)
  {
    SeparatedValuesCons(s, m.chain, v.chain, start.chain, start.end);
  }

  /** A value after separator text from `p`, then separated values after it. */
  lemma {:induction false} SeparatedValuesCons(s: string, c: Chain, v: Chain, base: Chain, p: nat)
    requires v.Link? && v.previous == base && ValidToken(s, v.token) && SeparatorAt(s, p, v.token.begin)
    requires SeparatedValues(s, c, v, v.token.end)
    ensures SeparatedValues(s, c, base, p)
    ensures EndAbove(c, base, p) == EndAbove(c, v, v.token.end)
    decreases c
  {
    SeparatedValuesLength(s, c, v, v.token.end);
    if c != v {
      if c.previous != v {
        SeparatedValuesCons(s, c.previous, v, base, p);
        SeparatedValuesLength(s, c.previous, v, v.token.end);
      }
    }
  }

  lemma {:induction false} SeparatedPairsLength(s: string, c: Chain, base: Chain, p: nat)
    requires SeparatedPairs(s, c, base, p)
    ensures Length(base) <= Length(c)
    decreases c
  {
    if c != base && c.previous.previous != base {
      SeparatedPairsLength(s, c.previous.previous, base, p);
    }
  }

  /** A pair `kv` at `q`, after separator text from `start`, then the pairs `m` reads after it. */
  lemma PairsAfterCons(s: string, start: Match, q: nat, kv: Match, m: Match)
    requires SeparatorAt(s, start.end, q) && PairAt(s, kv.chain, start.chain, q) && kv.end == kv.chain.token.end
    requires PairsAfter(s, kv, m)
    ensures PairsAfter(s, start, m)
  {
    SeparatedPairsCons(s, m.chain, kv.chain, start.chain, start.end);
  }

  /** A pair after separator text from `p`, then separated pairs after it. */
  lemma {:induction false} SeparatedPairsCons(s: string, c: Chain, kv: Chain, base: Chain, p: nat)
    requires kv.Link? && kv.previous.Link? && kv.previous.previous == base
    requires ValidToken(s, kv.previous.token) && ValidToken(s, kv.token)
    requires ColonAt(s, kv.previous.token.end, kv.token.begin) && SeparatorAt(s, p, kv.previous.token.begin)
    requires SeparatedPairs(s, c, kv, kv.token.end)
    ensures SeparatedPairs(s, c, base, p)
    ensures EndAbove(c, base, p) == EndAbove(c, kv, kv.token.end)
    decreases c
  {
    SeparatedPairsLength(s, c, kv, kv.token.end);
    if c != kv {
      if c.previous.previous != kv {
        SeparatedPairsCons(s, c.previous.previous, kv, base, p);
        SeparatedPairsLength(s, c.previous.previous, kv, kv.token.end);
      }
    }
  }

  /**
   * What `array` reads from its opening bracket at `p` is an array token that
   * tiles the text between the brackets: `b` is where the spaces after the
   * opening bracket end, `m` what `opt_values` matched from there and `e` the
   * position after the closing bracket.
   */
  lemma ValuesFrameSound(s: string, p: nat, b: nat, m: Match, e: nat)
    requires p < |s| && s[p] == '[' && p + 1 <= b <= m.end <= |s| && AllSpaces(s[p + 1..b]) && (b < |s| ==> !IsSpace(s[b]))
    requires m.chain.Nil? ==> m.end == b
    requires m.chain.Link? ==> ValuesFrom(s, m.chain, b) && m.end == m.chain.token.end
    requires OptSpaces(s, m.end) < |s| && s[OptSpaces(s, m.end)] == ']' && e == OptSpaces(s, m.end) + 1
    ensures p < e <= |s| && ValidToken(s, ArrayToken(p, e, m.chain))
  {
    ValuesBetween(s, p + 1, b, m, e - 1);
    ArrayClosed(s, p, e, m.chain);
  }

  /** Spaces from `lo` to `b`, the frame's tokens from `b`, and spaces up to `hi` tile `s[lo..hi]`. */
  lemma ValuesBetween(s: string, lo: nat, b: nat, m: Match, hi: nat)
    requires lo <= b <= m.end <= |s| && AllSpaces(s[lo..b]) && (b < |s| ==> !IsSpace(s[b]))
    requires m.chain.Nil? ==> m.end == b
    requires m.chain.Link? ==> ValuesFrom(s, m.chain, b) && m.end == m.chain.token.end
    requires hi == OptSpaces(s, m.end)
    ensures FrameValues(s, m.chain, lo, hi)
  {
    if m.chain.Link? {
      ValuesFromWiden(s, m.chain, lo, b);
      ValuesFramed(s, m.chain, lo, hi);
    } else {
      SpacesEnd(s, b, b);
    }
  }

  lemma ValuesFramed(s: string, c: Chain, lo: nat, hi: nat)
    requires ValuesFrom(s, c, lo) && lo <= hi && c.token.end <= hi <= |s| && AllSpaces(s[c.token.end..hi])
    ensures FrameValues(s, c, lo, hi)
  {
  }

  /** A frame that tiles the text between brackets at `p` and `e - 1`. */
  lemma ArrayClosed(s: string, p: nat, e: nat, c: Chain)
    requires p + 1 < e <= |s| && s[p] == '[' && s[e - 1] == ']' && FrameValues(s, c, p + 1, e - 1)
    ensures ValidToken(s, ArrayToken(p, e, c))
  {
  }

  /**
   * What `object` reads from its opening bracket at `p` is an object token that
   * tiles the text between the brackets: `b` is where the spaces after the
   * opening bracket end, `m` what `opt_key_values` matched from there and `e`
   * the position after the closing bracket.
   */
  lemma PairsFrameSound(s: string, p: nat, b: nat, m: Match, e: nat)
    requires p < |s| && s[p] == '{' && p + 1 <= b <= m.end <= |s| && AllSpaces(s[p + 1..b]) && (b < |s| ==> !IsSpace(s[b]))
    requires m.chain.Nil? ==> m.end == b
    requires m.chain.Link? ==> PairsFrom(s, m.chain, b) && m.end == m.chain.token.end
    requires OptSpaces(s, m.end) < |s| && s[OptSpaces(s, m.end)] == '}' && e == OptSpaces(s, m.end) + 1
    ensures p < e <= |s| && ValidToken(s, ObjectToken(p, e, m.chain))
  {
    PairsBetween(s, p + 1, b, m, e - 1);
    ObjectClosed(s, p, e, m.chain);
  }

  /** Spaces from `lo` to `b`, the frame's tokens from `b`, and spaces up to `hi` tile `s[lo..hi]`. */
  lemma PairsBetween(s: string, lo: nat, b: nat, m: Match, hi: nat)
    requires lo <= b <= m.end <= |s| && AllSpaces(s[lo..b]) && (b < |s| ==> !IsSpace(s[b]))
    requires m.chain.Nil? ==> m.end == b
    requires m.chain.Link? ==> PairsFrom(s, m.chain, b) && m.end == m.chain.token.end
    requires hi == OptSpaces(s, m.end)
    ensures FramePairs(s, m.chain, lo, hi)
  {
    if m.chain.Link? {
      PairsFromWiden(s, m.chain, lo, b);
      PairsFramed(s, m.chain, lo, hi);
    } else {
      SpacesEnd(s, b, b);
    }
  }

  lemma PairsFramed(s: string, c: Chain, lo: nat, hi: nat)
    requires PairsFrom(s, c, lo) && lo <= hi && c.token.end <= hi <= |s| && AllSpaces(s[c.token.end..hi])
    ensures FramePairs(s, c, lo, hi)
  {
  }

  /** A frame that tiles the text between brackets at `p` and `e - 1`. */
  lemma ObjectClosed(s: string, p: nat, e: nat, c: Chain)
    requires p + 1 < e <= |s| && s[p] == '{' && s[e - 1] == '}' && FramePairs(s, c, p + 1, e - 1)
    ensures ValidToken(s, ObjectToken(p, e, c))
  {
  }




  /** A frame's first value, preceded by spaces from `lo`, and the separated values after it. */
  lemma {:induction false} SeparatedValuesFrom(s: string, c: Chain, v: Chain, lo: nat)
    requires v.Link? && v.previous.Nil? && ValidToken(s, v.token)
    requires lo <= v.token.begin && AllSpaces(s[lo..v.token.begin])
    requires SeparatedValues(s, c, v, v.token.end)
    ensures ValuesFrom(s, c, lo)
    ensures c.Link? && c.token.end == EndAbove(c, v, v.token.end)
    decreases c
  {
    if c != v && c.previous != v {
      SeparatedValuesFrom(s, c.previous, v, lo);
    }
  }

  /** A frame's first pair, preceded by spaces from `lo`, and the separated pairs after it. */
  lemma {:induction false} SeparatedPairsFrom(s: string, c: Chain, kv: Chain, lo: nat)
    requires kv.Link? && kv.previous.Link? && PairAt(s, kv, Nil, kv.previous.token.begin)
    requires lo <= kv.previous.token.begin && AllSpaces(s[lo..kv.previous.token.begin])
    requires SeparatedPairs(s, c, kv, kv.token.end)
    ensures PairsFrom(s, c, lo)
    ensures c.Link? && c.token.end == EndAbove(c, kv, kv.token.end)
    decreases c
  {
    if c != kv && c.previous.previous != kv {
      SeparatedPairsFrom(s, c.previous.previous, kv, lo);
    }
  }

  /** Spaces before a frame's first value may be counted from further left. */
  lemma {:induction false} ValuesFromWiden(s: string, c: Chain, lo: nat, b: nat)
    requires lo <= b <= |s| && AllSpaces(s[lo..b]) && ValuesFrom(s, c, b)
    ensures ValuesFrom(s, c, lo)
    decreases c
  {
    if c.previous.Nil? {
      SpacesJoin(s, lo, b, c.token.begin);
    } else {
      ValuesFromWiden(s, c.previous, lo, b);
    }
  }

  /** The same for a frame's first key. */
  lemma {:induction false} PairsFromWiden(s: string, c: Chain, lo: nat, b: nat)
    requires lo <= b <= |s| && AllSpaces(s[lo..b]) && PairsFrom(s, c, b)
    ensures PairsFrom(s, c, lo)
    decreases c
  {
    if c.previous.previous.Nil? {
      SpacesJoin(s, lo, b, c.previous.token.begin);
    } else {
      PairsFromWiden(s, c.previous.previous, lo, b);
    }
  }

  lemma SpacesJoin(s: string, i: nat, j: nat, k: nat)
    requires i <= j <= k <= |s| && AllSpaces(s[i..j]) && AllSpaces(s[j..k])
    ensures AllSpaces(s[i..k])
  {
    assert forall n | i <= n < k :: s[i..k][n - i] == s[n];
    assert forall n | i <= n < j :: s[i..j][n - i] == s[n];
    assert forall n | j <= n < k :: s[j..k][n - j] == s[n];
  }

  // Completeness: every valid token is what `value` captures where it begins.

  /** A valid token begins with a character that can begin a value. */
  lemma TokenStart(s: string, t: Token)
    requires ValidToken(s, t)
    ensures t.begin < |s| && StartsValue(s[t.begin])
  {
    match t
    case NumberToken(b, e, _) =>
      NumberTextStart(s[b..e]);
    case BooleanToken(b, e, _) =>
      assert s[b..e][0] == s[b];
    case _ =>
  }

  /** `value` matches only where a value can begin. */
  lemma ValueStarts(s: string, p: nat, last: Chain)
    requires p <= |s|
    ensures Value(s, p, last).Some? ==> p < |s| && StartsValue(s[p])
  {
    if Value(s, p, last).Some? {
      TokenStart(s, Value(s, p, last).value.chain.token);
    }
  }

  /** `key_value` matches only where a value can begin. */
  lemma KeyValueStarts(s: string, p: nat, last: Chain)
    requires p <= |s|
    ensures KeyValue(s, p, last).Some? ==> p < |s| && StartsValue(s[p])
  {
    ValueStarts(s, p, last);
  }

  /** Spaces up to a character that is neither a space nor a comma: `comma_spaces` fails or stops there. */
  lemma SeparatorStops(s: string, i: nat, j: nat)
    requires i <= j < |s| && AllSpaces(s[i..j]) && !IsSpace(s[j]) && s[j] != ','
    ensures CommaSpaces(s, i).None? || CommaSpaces(s, i) == Some(j)
  {
    SpacesEnd(s, i, j);
  }

  /**
   * Every valid token is captured by `value` at its beginning, onto any
   * chain: `value` is complete for `ValidToken`, which with its soundness
   * makes `ValidToken` an exact description of what it captures.
   */
  lemma {:induction false} ValueMatched(s: string, t: Token, last: Chain)
    requires ValidToken(s, t)
    ensures Value(s, t.begin, last) == Some(Match(t.end, Link(t, last)))
    decreases t, 6
  {
    match t
    case NumberToken(b, e, lexeme) => NumberValueMatched(s, b, e, lexeme, last);
    case StringToken(b, e, text) => StringValueMatched(s, b, e, text, last);
    case BooleanToken(b, e, flag) => BooleanValueMatched(s, b, e, flag, last);
    case ObjectToken(b, e, c) => ObjectValueMatched(s, b, e, c, last);
    case ArrayToken(b, e, c) => ArrayValueMatched(s, b, e, c, last);
  }

  lemma {:induction false} ObjectValueMatched(s: string, b: nat, e: nat, c: Chain, last: Chain)
    requires b + 2 <= e <= |s| && s[b] == '{' && s[e - 1] == '}' && FramePairs(s, c, b + 1, e - 1)
    ensures Value(s, b, last) == Some(Match(e, Link(ObjectToken(b, e, c), last)))
    decreases c, 5
  {
    ObjectMatched(s, b, e, c);
    ValueAtBrace(s, b, last);
  }

  lemma {:induction false} ArrayValueMatched(s: string, b: nat, e: nat, c: Chain, last: Chain)
    requires b + 2 <= e <= |s| && s[b] == '[' && s[e - 1] == ']' && FrameValues(s, c, b + 1, e - 1)
    ensures Value(s, b, last) == Some(Match(e, Link(ArrayToken(b, e, c), last)))
    decreases c, 5
  {
    ArrayMatched(s, b, e, c);
    ValueAtBracket(s, b, last);
  }

  /** At `{` only the object alternative of `value` can match. */
  lemma ValueAtBrace(s: string, b: nat, last: Chain)
    requires b < |s| && s[b] == '{' && ObjectCapture(s, b, last).Some?
    ensures Value(s, b, last) == ObjectCapture(s, b, last)
  {
    assert NumberCapture(s, b, last).None? && StringCapture(s, b, last).None? && BooleanCapture(s, b, last).None?;
  }

  /** At `[` only the array alternative of `value` can match. */
  lemma ValueAtBracket(s: string, b: nat, last: Chain)
    requires b < |s| && s[b] == '[' && ArrayCapture(s, b, last).Some?
    ensures Value(s, b, last) == ArrayCapture(s, b, last)
  {
    assert NumberCapture(s, b, last).None? && StringCapture(s, b, last).None? && BooleanCapture(s, b, last).None?;
    assert Object(s, b).None?;
  }

  lemma NumberValueMatched(s: string, b: nat, e: nat, lexeme: string, last: Chain)
    requires ValidToken(s, NumberToken(b, e, lexeme))
    ensures Value(s, b, last) == Some(Match(e, Link(NumberToken(b, e, lexeme), last)))
  {
    LongestNumberMatched(s, b, e);
  }

  lemma StringValueMatched(s: string, b: nat, e: nat, text: string, last: Chain)
    requires ValidToken(s, StringToken(b, e, text))
    ensures Value(s, b, last) == Some(Match(e, Link(StringToken(b, e, text), last)))
  {
    StringMatched(s, b, e);
    ValueAtQuote(s, b, last);
    assert StringInit(s[b..e]) == text;
  }

  lemma BooleanValueMatched(s: string, b: nat, e: nat, flag: bool, last: Chain)
    requires ValidToken(s, BooleanToken(b, e, flag))
    ensures Value(s, b, last) == Some(Match(e, Link(BooleanToken(b, e, flag), last)))
  {
    assert s[b..e][0] == s[b];
    assert flag == BooleanInit(s, b);
    ValueAtLetter(s, b, last);
  }

  /** At a quote only the string alternative of `value` can match. */
  lemma ValueAtQuote(s: string, b: nat, last: Chain)
    requires b < |s| && s[b] == '"' && StringCapture(s, b, last).Some?
    ensures Value(s, b, last) == StringCapture(s, b, last)
  {
    assert NumberCapture(s, b, last).None?;
  }

  /** At `t` or `f` only the boolean alternative of `value` can match. */
  lemma ValueAtLetter(s: string, b: nat, last: Chain)
    requires b < |s| && (s[b] == 't' || s[b] == 'f') && BooleanCapture(s, b, last).Some?
    ensures Value(s, b, last) == BooleanCapture(s, b, last)
  {
    assert NumberCapture(s, b, last).None? && StringCapture(s, b, last).None?;
  }

  /** Every valid object token is what `object` matches at its beginning. */
  lemma {:induction false} ObjectMatched(s: string, b: nat, e: nat, c: Chain)
    requires b + 2 <= e <= |s| && s[b] == '{' && s[e - 1] == '}' && FramePairs(s, c, b + 1, e - 1)
    ensures Object(s, b) == Some(Match(e, c))
    decreases c, 4
  {
    PairsFrameMatched(s, c, b + 1, e - 1);
  }

  /** Every valid array token is what `array` matches at its beginning. */
  lemma {:induction false} ArrayMatched(s: string, b: nat, e: nat, c: Chain)
    requires b + 2 <= e <= |s| && s[b] == '[' && s[e - 1] == ']' && FrameValues(s, c, b + 1, e - 1)
    ensures Array(s, b) == Some(Match(e, c))
    decreases c, 4
  {
    ValuesFrameMatched(s, c, b + 1, e - 1);
  }

  /**
   * The values of a frame that tile `s[lo..hi]`, closed by a character that
   * cannot begin or separate values, are exactly what `opt_values` links,
   * and the spaces after them end at `hi`.
   */
  lemma {:induction false} ValuesFrameMatched(s: string, c: Chain, lo: nat, hi: nat)
    requires FrameValues(s, c, lo, hi) && hi < |s|
    requires !IsSpace(s[hi]) && s[hi] != ',' && !StartsValue(s[hi])
    ensures OptValues(s, OptSpaces(s, lo)).chain == c
    ensures OptSpaces(s, OptValues(s, OptSpaces(s, lo)).end) == hi
    decreases c, 3
  {
    if c.Nil? {
      SpacesEnd(s, lo, hi);
      ValueStarts(s, hi, Nil);
      SpacesEnd(s, hi, hi);
    } else {
      ValuesThrough(s, c, lo);
      ValuesEnd(s, c, hi);
      SpacesEnd(s, c.token.end, hi);
    }
  }

  /** The same for the pairs of an object frame and `opt_key_values`. */
  lemma {:induction false} PairsFrameMatched(s: string, c: Chain, lo: nat, hi: nat)
    requires FramePairs(s, c, lo, hi) && hi < |s|
    requires !IsSpace(s[hi]) && s[hi] != ',' && !StartsValue(s[hi])
    ensures OptKeyValues(s, OptSpaces(s, lo)).chain == c
    ensures OptSpaces(s, OptKeyValues(s, OptSpaces(s, lo)).end) == hi
    decreases c, 3
  {
    if c.Nil? {
      SpacesEnd(s, lo, hi);
      KeyValueStarts(s, hi, Nil);
      SpacesEnd(s, hi, hi);
    } else {
      PairsThrough(s, c, lo);
      PairsEnd(s, c, hi);
      SpacesEnd(s, c.token.end, hi);
    }
  }

  /**
   * Values that tile a frame from `lo` are taken one by one: `opt_values`
   * from the first of them reaches the repetition after the last.
   */
  lemma {:induction false} ValuesThrough(s: string, c: Chain, lo: nat)
    requires lo <= |s| && c.Link? && c.token.end <= |s| && ValuesFrom(s, c, lo)
    ensures Value(s, OptSpaces(s, lo), Nil).Some?
    ensures OptValues(s, OptSpaces(s, lo)) == OptSpaceSeparatedValues(s, c.token.end, c)
    decreases c, 2
  {
    if c.previous.Nil? {
      TokenStart(s, c.token);
      SpacesEnd(s, lo, c.token.begin);
      ValueMatched(s, c.token, Nil);
    } else {
      ValuesThrough(s, c.previous, lo);
      ValuesStep(s, c.previous, c);
    }
  }

  /** The same for the pairs of an object frame. */
  lemma {:induction false} PairsThrough(s: string, c: Chain, lo: nat)
    requires lo <= |s| && c.Link? && c.token.end <= |s| && PairsFrom(s, c, lo)
    ensures OptKeyValues(s, OptSpaces(s, lo)) == OptSpaceSeparatedKeyValues(s, c.token.end, c)
    decreases c, 2
  {
    if c.previous.previous.Nil? {
      TokenStart(s, c.previous.token);
      SpacesEnd(s, lo, c.previous.token.begin);
      KeyValueMatched(s, c, Nil, c.previous.token.begin);
    } else {
      PairsThrough(s, c.previous.previous, lo);
      PairsStep(s, c.previous.previous, c);
    }
  }

  /** One separated value after `d`'s last token is one step of the repetition. */
  lemma {:induction false} ValuesStep(s: string, d: Chain, c: Chain)
    requires d.Link? && c.Link? && c.previous == d && ValidToken(s, c.token)
    requires SeparatorAt(s, d.token.end, c.token.begin)
    ensures OptSpaceSeparatedValues(s, d.token.end, d) == OptSpaceSeparatedValues(s, c.token.end, c)
    decreases c, 1
  {
    TokenStart(s, c.token);
    SeparatorMatched(s, d.token.end, c.token.begin);
    ValueMatched(s, c.token, d);
  }

  /** One separated pair after `d`'s last token is one step of the repetition. */
  lemma {:induction false} PairsStep(s: string, d: Chain, c: Chain)
    requires d.Link? && c.Link? && c.previous.Link? && PairAt(s, c, d, c.previous.token.begin)
    requires SeparatorAt(s, d.token.end, c.previous.token.begin)
    ensures OptSpaceSeparatedKeyValues(s, d.token.end, d) == OptSpaceSeparatedKeyValues(s, c.token.end, c)
    decreases c, 1
  {
    TokenStart(s, c.previous.token);
    SeparatorMatched(s, d.token.end, c.previous.token.begin);
    KeyValueMatched(s, c, d, c.previous.token.begin);
  }

  /** Every pair at `q` onto `base` is what `key_value` matches there. */
  lemma {:induction false} KeyValueMatched(s: string, c: Chain, base: Chain, q: nat)
    requires PairAt(s, c, base, q)
    ensures KeyValue(s, q, base) == Some(Match(c.token.end, c))
    decreases c, 0
  {
    var key, val := c.previous.token, c.token;
    ValueMatched(s, key, base);
    TokenStart(s, val);
    var k := ColonSpaces(s, key.end, val.begin);
    PairTailReaches(s, key.end, k, val.begin, c.previous);
    ValueMatched(s, val, c.previous);
  }

  /** Colon text ending before a non-space is the spaces, the colon and the spaces `PairTail` skips. */
  lemma ColonSpaces(s: string, p: nat, q: nat) returns (k: nat)
    requires ColonAt(s, p, q) && (q < |s| ==> !IsSpace(s[q]))
    ensures p <= k < q && s[k] == ':' && OptSpaces(s, p) == k && OptSpaces(s, k + 1) == q
  {
    k :| p <= k < q && s[k] == ':' && AllSpaces(s[p..k]) && AllSpaces(s[k + 1..q]);
    SpacesEnd(s, p, k);
    SpacesEnd(s, k + 1, q);
  }

  /** After colon text, what follows a key is the value where the spaces end. */
  lemma PairTailReaches(s: string, p: nat, k: nat, q: nat, last: Chain)
    requires p <= k < q <= |s| && s[k] == ':' && OptSpaces(s, p) == k && OptSpaces(s, k + 1) == q
    ensures PairTail(s, p, last) == Value(s, q, last)
  {
  }

  /** Before a closing character after only spaces, the repetition of values stops. */
  lemma ValuesEnd(s: string, c: Chain, hi: nat)
    requires c.Link? && c.token.end <= hi < |s| && AllSpaces(s[c.token.end..hi])
    requires !IsSpace(s[hi]) && s[hi] != ',' && !StartsValue(s[hi])
    ensures OptSpaceSeparatedValues(s, c.token.end, c) == Match(c.token.end, c)
  {
    SeparatorStops(s, c.token.end, hi);
    ValueStarts(s, hi, c);
  }

  /** The same for the repetition of key values. */
  lemma PairsEnd(s: string, c: Chain, hi: nat)
    requires c.Link? && c.token.end <= hi < |s| && AllSpaces(s[c.token.end..hi])
    requires !IsSpace(s[hi]) && s[hi] != ',' && !StartsValue(s[hi])
    ensures OptSpaceSeparatedKeyValues(s, c.token.end, c) == Match(c.token.end, c)
  {
    SeparatorStops(s, c.token.end, hi);
    KeyValueStarts(s, hi, c);
  }

  /**
   * The converse of `Document`'s contract: root values that tile the input
   * from 0, after which no separator and value follow, are what the root
   * production matches.
   */
  lemma DocumentMatched(s: string, c: Chain)
    requires c.Link? && c.token.end <= |s| && ValuesFrom(s, c, 0)
    requires CommaSpaces(s, c.token.end).None? || Value(s, CommaSpaces(s, c.token.end).value, c).None?
    ensures Document(s) == Some(Match(c.token.end, c))
  {
    ValuesThrough(s, c, 0);
    var q := OptSpaces(s, 0);
    var v := Value(s, q, Nil).value;
    assert OptValues(s, q) == OptSpaceSeparatedValues(s, v.end, v.chain);
  }
}
