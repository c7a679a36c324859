/**
 * Worked inputs for the markdown reader: what the grammar and the builder
 * make of a few small texts.
 */
module MarkdownExamples {
  import opened TextParser
  import opened MarkdownLexer
  import opened MarkdownGrammar
  import opened MarkdownReader

  // Helpers that evaluate one production at a position.

  /** A single digit not followed by a digit or a dot is a one-character number. */
  lemma DigitValue(s: string, p: nat, last: Chain)
    requires p + 1 <= |s| && IsDigit(s[p])
    requires p + 1 == |s| || (!IsDigit(s[p + 1]) && s[p + 1] != '.')
    ensures Value(s, p, last) == Some(Match(p + 1, Link(NumberToken(p, p + 1, [s[p]]), last)))
  {
    assert IntNumber(s, p) == Some(p + 1);
    assert RealNumber(s, p).None?;
    assert s[p..p + 1] == [s[p]];
  }

  /** No separator starts at a character that is neither a space nor a comma. */
  lemma NoSeparator(s: string, p: nat)
    requires p <= |s|
    requires p < |s| ==> !IsSpace(s[p]) && s[p] != ','
    ensures CommaSpaces(s, p).None?
  {
    assert OptSpaces(s, p) == p;
  }

  /** At `[` only the array alternative of `value` can match. */
  lemma BracketValue(s: string, p: nat, last: Chain)
    requires p < |s| && s[p] == '['
    ensures Value(s, p, last) == match Array(s, p)
                                 case None => None
                                 case Some(m) => Some(Match(m.end, Link(ArrayToken(p, m.end, m.chain), last)))
  {
    assert Number(s, p).None? && String(s, p).None? && Boolean(s, p).None? && Object(s, p).None?;
  }

  /** At `{` only the object alternative of `value` can match. */
  lemma BraceValue(s: string, p: nat, last: Chain)
    requires p < |s| && s[p] == '{'
    ensures Value(s, p, last) == match Object(s, p)
                                 case None => None
                                 case Some(m) => Some(Match(m.end, Link(ObjectToken(p, m.end, m.chain), last)))
  {
    assert Number(s, p).None? && String(s, p).None? && Boolean(s, p).None?;
  }

  /** A comma with no spaces around it is a separator of one character. */
  lemma CommaAt(s: string, p: nat)
    requires p + 1 < |s| && s[p] == ',' && !IsSpace(s[p + 1])
    ensures CommaSpaces(s, p) == Some(p + 1)
  {
    assert OptSpaces(s, p) == p;
    assert OptSpaces(s, p + 1) == p + 1;
  }

  /** One space before a character that is neither a space nor a comma is a separator. */
  lemma SpaceAt(s: string, p: nat)
    requires p + 1 < |s| && IsSpace(s[p]) && !IsSpace(s[p + 1]) && s[p + 1] != ','
    ensures CommaSpaces(s, p) == Some(p + 1)
  {
    assert OptSpaces(s, p + 1) == p + 1;
    assert OptSpaces(s, p) == p + 1;
  }

  /** One step of the repetition of separated values. */
  lemma RepeatStep(s: string, p: nat, last: Chain, q: nat, v: Match)
    requires p <= |s| && CommaSpaces(s, p) == Some(q) && Value(s, q, last) == Some(v)
    ensures OptSpaceSeparatedValues(s, p, last) == OptSpaceSeparatedValues(s, v.end, v.chain)
  {
  }

  lemma RepeatStop(s: string, p: nat, last: Chain)
    requires p <= |s| && CommaSpaces(s, p).None?
    ensures OptSpaceSeparatedValues(s, p, last) == Match(p, last)
  {
  }

  /** One step of the repetition of separated key values. */
  lemma PairRepeatStep(s: string, p: nat, last: Chain, q: nat, kv: Match)
    requires p <= |s| && CommaSpaces(s, p) == Some(q) && KeyValue(s, q, last) == Some(kv)
    ensures OptSpaceSeparatedKeyValues(s, p, last) == OptSpaceSeparatedKeyValues(s, kv.end, kv.chain)
  {
  }

  lemma PairRepeatStop(s: string, p: nat, last: Chain)
    requires p <= |s| && CommaSpaces(s, p).None?
    ensures OptSpaceSeparatedKeyValues(s, p, last) == Match(p, last)
  {
  }

  lemma ArrayAt(s: string, p: nat, b: nat, m: Match, c: nat)
    requires p < |s| && s[p] == '['
    requires OptSpaces(s, p + 1) == b && OptValues(s, b) == m && OptSpaces(s, m.end) == c
    requires c < |s| && s[c] == ']'
    ensures Array(s, p) == Some(Match(c + 1, m.chain))
  {
    assert Char(s, p, s[p]) == Some(p + 1);
    assert Char(s, c, ']') == Some(c + 1);
  }

  lemma ObjectAt(s: string, p: nat, b: nat, m: Match, c: nat)
    requires p < |s| && s[p] == '{'
    requires OptSpaces(s, p + 1) == b && OptKeyValues(s, b) == m && OptSpaces(s, m.end) == c
    requires c < |s| && s[c] == '}'
    ensures Object(s, p) == Some(Match(c + 1, m.chain))
  {
    assert Char(s, p, s[p]) == Some(p + 1);
    assert Char(s, c, '}') == Some(c + 1);
  }

  /** A position where no space starts. */
  lemma NoSpaces(s: string, p: nat)
    requires p <= |s|
    requires p < |s| ==> !IsSpace(s[p])
    ensures OptSpaces(s, p) == p
  {
  }

  /** `key_value` once its key and the rest of the pair are known. */
  lemma KeyValueAt(s: string, p: nat, last: Chain, key: Match, value: Match)
    requires p <= |s| && Value(s, p, last) == Some(key)
    requires PairTail(s, key.end, key.chain) == Some(value)
    ensures KeyValue(s, p, last) == Some(value)
  {
  }

  /** The rest of a pair: a colon with optional spaces around it, then a value. */
  lemma PairTailAt(s: string, p: nat, last: Chain, a: nat, c: nat)
    requires p <= |s|
    requires OptSpaces(s, p) == a && a < |s| && s[a] == ':'
    requires OptSpaces(s, a + 1) == c
    ensures PairTail(s, p, last) == Value(s, c, last)
  {
  }

  /** The root production once its first value is known. */
  lemma DocumentAt(s: string, v: Match)
    requires Value(s, OptSpaces(s, 0), Nil) == Some(v)
    ensures Document(s) == Some(OptSpaceSeparatedValues(s, v.end, v.chain))
  {
  }

  // `-12`: the real-number alternative reads `-12`, fails at the missing
  // dot, and the integer alternative matches again from the minus sign.

  lemma MinusTwelve()
    ensures IntNumber("-12", 1) == Some(3) && RealNumber("-12", 1).None?
    ensures Number("-12", 0) == Some(3)
  {
  }

  /** A leading zero is a number of its own: `012` matches `0` only. */
  lemma LeadingZero()
    ensures Number("012", 0) == Some(1)
  {
  }

  // `[1,2]`, `[1 , 2]` and `[1 2]` give the same tree.

  const One := Link(NumberToken(1, 2, "1"), Nil)
  const OneTwo := ArrayNode([ArrayNode([NumberNode("1"), NumberNode("2")])])

  /** The root tree of a text whose root frame holds one token. */
  lemma SingleTokenTree(s: string, t: Token, e: nat)
    requires Document(s) == Some(Match(e, Link(t, Nil)))
    ensures WellFormed(t) && ParseDocument(s) == Some(ArrayNode([NodeOf(t)]))
  {
    ValuesWellFormed(s, Link(t, Nil), 0);
    assert ElementsOf(Link(t, Nil)) == [NodeOf(t)];
  }

  /** The root tree of a text that is one array holding the tokens `two`, `one`. */
  lemma OneTwoTree(s: string, two: Chain, e: nat)
    requires two.Link? && two.previous == One && two.token.NumberToken? && two.token.lexeme == "2"
    requires Document(s) == Some(Match(e, Link(ArrayToken(0, e, two), Nil)))
    ensures ParseDocument(s) == Some(OneTwo)
  {
    assert ElementsOf(two) == [NumberNode("1"), NumberNode("2")];
    assert ElementsOf(Link(ArrayToken(0, e, two), Nil)) == [ArrayNode([NumberNode("1"), NumberNode("2")])];
  }

  /** The root value of a text that starts with an array. */
  lemma ArrayRootValue(s: string, e: nat, c: Chain)
    requires 0 < |s| && s[0] == '[' && Array(s, 0) == Some(Match(e, c))
    ensures Value(s, 0, Nil) == Some(Match(e, Link(ArrayToken(0, e, c), Nil)))
  {
    BracketValue(s, 0, Nil);
  }

  /** The root production for a text that is a single value. */
  lemma SingleValueDocument(s: string, v: Match)
    requires 0 < |s| && !IsSpace(s[0]) && Value(s, 0, Nil) == Some(v) && v.end == |s|
    ensures Document(s) == Some(v)
  {
    NoSpaces(s, 0);
    DocumentAt(s, v);
    NoSeparator(s, v.end);
    RepeatStop(s, v.end, v.chain);
  }

  /** The root production for a text that is one array from 0 to `e`. */
  lemma ArrayDocument(s: string, m: Match, e: nat)
    requires 1 < e == |s| && s[0] == '[' && s[e - 1] == ']' && !IsSpace(s[1])
    requires OptValues(s, 1) == m && m.end == e - 1
    ensures Document(s) == Some(Match(e, Link(ArrayToken(0, e, m.chain), Nil)))
  {
    NoSpaces(s, 1);
    NoSpaces(s, m.end);
    ArrayAt(s, 0, 1, m, m.end);
    ArrayRootValue(s, e, m.chain);
    SingleValueDocument(s, Match(e, Link(ArrayToken(0, e, m.chain), Nil)));
  }

  lemma CommaArrayValues(s: string)
    requires s == "[1,2]"
    ensures OptValues(s, 1) == Match(4, Link(NumberToken(3, 4, "2"), One))
  {
    var two := Link(NumberToken(3, 4, "2"), One);
    DigitValue(s, 1, Nil);
    assert [s[1]] == "1";
    DigitValue(s, 3, One);
    assert [s[3]] == "2";
    CommaAt(s, 2);
    RepeatStep(s, 2, One, 3, Match(4, two));
    NoSeparator(s, 4);
    RepeatStop(s, 4, two);
  }

  lemma CommaArray(s: string)
    requires s == "[1,2]"
    ensures ParseDocument(s) == Some(OneTwo)
  {
    var two := Link(NumberToken(3, 4, "2"), One);
    CommaArrayValues(s);
    ArrayDocument(s, Match(4, two), 5);
    OneTwoTree(s, two, 5);
  }

  lemma SpacedCommaSeparator(s: string)
    requires s == "[1 , 2]"
    ensures CommaSpaces(s, 2) == Some(5)
  {
    NoSpaces(s, 3);
    assert OptSpaces(s, 2) == 3;
    NoSpaces(s, 5);
    assert OptSpaces(s, 4) == 5;
  }

  lemma SpacedCommaArrayValues(s: string)
    requires s == "[1 , 2]"
    ensures OptValues(s, 1) == Match(6, Link(NumberToken(5, 6, "2"), One))
  {
    var two := Link(NumberToken(5, 6, "2"), One);
    DigitValue(s, 1, Nil);
    assert [s[1]] == "1";
    DigitValue(s, 5, One);
    assert [s[5]] == "2";
    SpacedCommaSeparator(s);
    RepeatStep(s, 2, One, 5, Match(6, two));
    NoSeparator(s, 6);
    RepeatStop(s, 6, two);
  }

  lemma SpacedCommaArray(s: string)
    requires s == "[1 , 2]"
    ensures ParseDocument(s) == Some(OneTwo)
  {
    var two := Link(NumberToken(5, 6, "2"), One);
    SpacedCommaArrayValues(s);
    ArrayDocument(s, Match(6, two), 7);
    OneTwoTree(s, two, 7);
  }

  lemma SpaceArrayValues(s: string)
    requires s == "[1 2]"
    ensures OptValues(s, 1) == Match(4, Link(NumberToken(3, 4, "2"), One))
  {
    var two := Link(NumberToken(3, 4, "2"), One);
    DigitValue(s, 1, Nil);
    assert [s[1]] == "1";
    DigitValue(s, 3, One);
    assert [s[3]] == "2";
    SpaceAt(s, 2);
    RepeatStep(s, 2, One, 3, Match(4, two));
    NoSeparator(s, 4);
    RepeatStop(s, 4, two);
  }

  lemma SpaceArray(s: string)
    requires s == "[1 2]"
    ensures ParseDocument(s) == Some(OneTwo)
  {
    var two := Link(NumberToken(3, 4, "2"), One);
    SpaceArrayValues(s);
    ArrayDocument(s, Match(4, two), 5);
    OneTwoTree(s, two, 5);
  }

  // `{1:2,3:4}`: the pairs come out last pair first, each as (key, value).

  const Pair1 := Link(NumberToken(3, 4, "2"), One)
  const Pair2 := Link(NumberToken(7, 8, "4"), Link(NumberToken(5, 6, "3"), Pair1))

  lemma FirstPair(s: string)
    requires s == "{1:2,3:4}"
    ensures KeyValue(s, 1, Nil) == Some(Match(4, Pair1))
  {
    DigitValue(s, 1, Nil);
    assert [s[1]] == "1";
    DigitValue(s, 3, One);
    assert [s[3]] == "2";
    NoSpaces(s, 2);
    NoSpaces(s, 3);
    PairTailAt(s, 2, One, 2, 3);
    KeyValueAt(s, 1, Nil, Match(2, One), Match(4, Pair1));
  }

  lemma SecondPair(s: string)
    requires s == "{1:2,3:4}"
    ensures KeyValue(s, 5, Pair1) == Some(Match(8, Pair2))
  {
    var three := Link(NumberToken(5, 6, "3"), Pair1);
    DigitValue(s, 5, Pair1);
    assert [s[5]] == "3";
    DigitValue(s, 7, three);
    assert [s[7]] == "4";
    NoSpaces(s, 6);
    NoSpaces(s, 7);
    PairTailAt(s, 6, three, 6, 7);
    KeyValueAt(s, 5, Pair1, Match(6, three), Match(8, Pair2));
  }

  lemma ObjectKeyValues(s: string)
    requires s == "{1:2,3:4}"
    ensures OptKeyValues(s, 1) == Match(8, Pair2)
  {
    FirstPair(s);
    SecondPair(s);
    CommaAt(s, 4);
    PairRepeatStep(s, 4, Pair1, 5, Match(8, Pair2));
    NoSeparator(s, 8);
    PairRepeatStop(s, 8, Pair2);
  }

  lemma ObjectDocument(s: string)
    requires s == "{1:2,3:4}"
    ensures Document(s) == Some(Match(9, Link(ObjectToken(0, 9, Pair2), Nil)))
  {
    var root := Link(ObjectToken(0, 9, Pair2), Nil);
    ObjectKeyValues(s);
    NoSpaces(s, 1);
    NoSpaces(s, 8);
    ObjectAt(s, 0, 1, Match(8, Pair2), 8);
    BraceValue(s, 0, Nil);
    NoSpaces(s, 0);
    DocumentAt(s, Match(9, root));
    NoSeparator(s, 9);
    RepeatStop(s, 9, root);
  }

  lemma ObjectPairOrder(s: string)
    requires s == "{1:2,3:4}"
    ensures ParseDocument(s)
            == Some(ArrayNode([ObjectNode([Pair(NumberNode("3"), NumberNode("4")),
                                           Pair(NumberNode("1"), NumberNode("2"))])]))
  {
    ObjectDocument(s);
    SingleTokenTree(s, ObjectToken(0, 9, Pair2), 9);
    assert PairsOf(Pair2) == [Pair(NumberNode("3"), NumberNode("4")), Pair(NumberNode("1"), NumberNode("2"))];
  }

  // `"a\n"`: the string node keeps the backslash and the `n` as written.

  lemma EscapedString(s: string)
    requires s == "\"a\\n\""
    ensures String(s, 0) == Some(5)
  {
    assert StringChar(s, 4).None?;
    assert OptStringChars(s, 4) == 4;
    assert StringChar(s, 2) == Some(4);
    assert OptStringChars(s, 2) == 4;
    assert StringChar(s, 1) == Some(2);
    assert OptStringChars(s, 1) == 4;
  }

  lemma EscapedStringDocument(s: string)
    requires s == "\"a\\n\""
    ensures Document(s) == Some(Match(5, Link(StringToken(0, 5, "a\\n"), Nil)))
  {
    var root := Link(StringToken(0, 5, "a\\n"), Nil);
    EscapedString(s);
    assert Number(s, 0).None?;
    assert StringInit(s[0..5]) == "a\\n";
    NoSpaces(s, 0);
    assert Value(s, 0, Nil) == Some(Match(5, root));
    DocumentAt(s, Match(5, root));
    NoSeparator(s, 5);
    RepeatStop(s, 5, root);
  }

  lemma StringKeepsEscapes(s: string)
    requires s == "\"a\\n\""
    ensures ParseDocument(s) == Some(ArrayNode([StringNode("a\\n")]))
  {
    EscapedStringDocument(s);
    SingleTokenTree(s, StringToken(0, 5, "a\\n"), 5);
  }

  /**
   * In `1 ,x` the last separator matches but no value follows it: that
   * iteration fails, and the root keeps the one token before it and stops
   * after it.
   */
  lemma FailedIterationLeavesNoToken(s: string)
    requires s == "1 ,x"
    ensures Document(s) == Some(Match(1, Link(NumberToken(0, 1, "1"), Nil)))
  {
    var root := Link(NumberToken(0, 1, "1"), Nil);
    DigitValue(s, 0, Nil);
    assert [s[0]] == "1";
    NoSpaces(s, 0);
    DocumentAt(s, Match(1, root));
    NoSpaces(s, 2);
    NoSpaces(s, 3);
    assert OptSpaces(s, 1) == 2;
    assert CommaSpaces(s, 1) == Some(3);
    assert Value(s, 3, root).None?;
  }
}
