/**
 * The node tree the markdown reader builds from its token chains
 * (engine/core/source/core/io/markdown_reader.cpp, the constructor and
 * `build_node_from_token`).
 *
 * A chain holds a frame's tokens newest first. The builder walks it from the
 * last token back through `previous`: for an array (and for the root) it
 * counts the tokens, collects their nodes into a buffer of that size and
 * reverses the buffer; for an object it takes two tokens per step, a value and
 * the key before it, and appends the pair without reversing anything. The
 * functions `NodeOf`, `ElementsOf` and `PairsOf` specify the result; the
 * methods are the loops, proved against them; the lemmas at the end say what
 * the specification means in terms of the order the values had in the text.
 */
module MarkdownReader {
  import opened TextParser
  import opened MarkdownGrammar

  /** A node of the document; a number keeps its lexeme, a string its text. */
  datatype Node =
    | NumberNode(lexeme: string)
    | StringNode(text: string)
    | BooleanNode(flag: bool)
    | ObjectNode(pairs: seq<Pair>)
    | ArrayNode(elements: seq<Node>)

  datatype Pair = Pair(key: Node, value: Node)

  /** The tokens of `c`, oldest first. */
  function Tokens(c: Chain): (ts: seq<Token>)
    ensures |ts| == Length(c)
    ensures c.Link? ==> ts[|ts| - 1] == c.token
    decreases c
  {
    if c.Nil? then [] else Tokens(c.previous) + [c.token]
  }

  /** Every object's chain holds whole key/value pairs, at every depth. */
  predicate WellFormed(t: Token)
    decreases t
  {
    match t
    case ObjectToken(_, _, last) => PairedOver(last, Nil) && ChainWellFormed(last)
    case ArrayToken(_, _, last) => ChainWellFormed(last)
    case _ => true
  }

  predicate ChainWellFormed(c: Chain)
    decreases c
  {
    c.Link? ==> WellFormed(c.token) && ChainWellFormed(c.previous)
  }

  /** The node `build_node_from_token` makes of `t`. */
  function NodeOf(t: Token): Node
    requires WellFormed(t)
    decreases t
  {
    match t
    case NumberToken(_, _, lexeme) => NumberNode(lexeme)
    case StringToken(_, _, text) => StringNode(text)
    case BooleanToken(_, _, flag) => BooleanNode(flag)
    case ObjectToken(_, _, last) => ObjectNode(PairsOf(last))
    case ArrayToken(_, _, last) => ArrayNode(ElementsOf(last))
  }

  /** The nodes of the tokens of `c`, oldest first. */
  function ElementsOf(c: Chain): (ns: seq<Node>)
    requires ChainWellFormed(c)
    ensures |ns| == Length(c)
    decreases c
  {
    if c.Nil? then [] else ElementsOf(c.previous) + [NodeOf(c.token)]
  }

  /**
   * The pairs of an object's chain, newest pair first: each pair is the node
   * of the earlier token as key and of the later token as value.
   */
  function PairsOf(c: Chain): (ps: seq<Pair>)
    requires ChainWellFormed(c) && PairedOver(c, Nil)
    ensures 2 * |ps| == Length(c)
    decreases c
  {
    if c.Nil? then []
    else
      assert ChainWellFormed(c.previous);
      [Pair(NodeOf(c.previous.token), NodeOf(c.token))] + PairsOf(c.previous.previous)
  }

  /** `s` in reverse order. */
  function Reversed<T>(s: seq<T>): (r: seq<T>)
    ensures |r| == |s|
    decreases |s|
  {
    if s == [] then [] else [s[|s| - 1]] + Reversed(s[..|s| - 1])
  }

  lemma {:induction false} ReversedIndex<T>(s: seq<T>, k: nat)
    requires k < |s|
    ensures Reversed(s)[k] == s[|s| - 1 - k]
    decreases |s|
  {
    if k > 0 {
      ReversedIndex(s[..|s| - 1], k - 1);
    }
  }

  // Sizes that the mutually recursive builder methods decrease.

  function TokenSize(t: Token): nat
    decreases t
  {
    match t
    case ObjectToken(_, _, last) => 1 + ChainSize(last)
    case ArrayToken(_, _, last) => 1 + ChainSize(last)
    case _ => 1
  }

  function ChainSize(c: Chain): nat
    decreases c
  {
    if c.Nil? then 0 else 1 + TokenSize(c.token) + ChainSize(c.previous)
  }

  /** The counting pass: walks `previous` from the last token. */
  method CountElements(last: Chain) returns (count: nat)
    ensures count == Length(last)
  {
    count := 0;
    var token := last;
    while token != Nil
      invariant count + Length(token) == Length(last)
      decreases token
    {
      token := token.previous;
      count := count + 1;
    }
  }

  /** `std::reverse` over a buffer. */
  method ReverseInPlace<T>(a: array<T>)
    modifies a
    ensures a[..] == Reversed(old(a[..]))
  {
    var i, j := 0, a.Length - 1;
    while i < j
      invariant 0 <= i <= a.Length && j == a.Length - 1 - i
      invariant forall k :: 0 <= k < i ==> a[k] == old(a[a.Length - 1 - k]) && a[a.Length - 1 - k] == old(a[k])
      invariant forall k :: i <= k <= j ==> a[k] == old(a[k])
    {
      a[i], a[j] := a[j], a[i];
      i, j := i + 1, j - 1;
    }
    forall k | 0 <= k < a.Length
      ensures a[k] == Reversed(old(a[..]))[k]
    {
      ReversedIndex(old(a[..]), k);
    }
  }

  /**
   * The count, collect and reverse passes over a frame's chain, as run for
   * the root and for every array.
   */
  method BuildElements(last: Chain) returns (elements: seq<Node>)
    requires ChainWellFormed(last)
    ensures elements == ElementsOf(last)
    decreases ChainSize(last)
  {
    var count := CountElements(last);
    var buffer := new Node[count];
    var token := last;
    var i := 0;
    while token != Nil
      invariant ChainWellFormed(token) && ChainSize(token) <= ChainSize(last)
      invariant i + Length(token) == count
      invariant ElementsOf(last) == ElementsOf(token) + Reversed(buffer[..i])
      decreases token
    {
      var node := BuildNode(token.token);
      buffer[i] := node;
      assert buffer[..i + 1][..i] == buffer[..i];
      i := i + 1;
      token := token.previous;
    }
    assert buffer[..i] == buffer[..];
    ReverseInPlace(buffer);
    elements := buffer[..];
  }

  /** The object branch: a value token and its key token per step. */
  method BuildPairs(last: Chain) returns (pairs: seq<Pair>)
    requires ChainWellFormed(last) && PairedOver(last, Nil)
    ensures pairs == PairsOf(last)
    decreases ChainSize(last)
  {
    pairs := [];
    var value := last;
    while value != Nil
      invariant ChainWellFormed(value) && PairedOver(value, Nil) && ChainSize(value) <= ChainSize(last)
      invariant pairs + PairsOf(value) == PairsOf(last)
      decreases value
    {
      var key := value.previous;
      var k := BuildNode(key.token);
      var v := BuildNode(value.token);
      pairs := pairs + [Pair(k, v)];
      value := key.previous;
    }
  }

  /** `build_node_from_token`, dispatching on the token's kind. */
  method BuildNode(t: Token) returns (node: Node)
    requires WellFormed(t)
    ensures node == NodeOf(t)
    decreases TokenSize(t)
  {
    match t
    case NumberToken(_, _, lexeme) =>
      node := NumberNode(lexeme);
    case StringToken(_, _, text) =>
      node := StringNode(text);
    case BooleanToken(_, _, flag) =>
      node := BooleanNode(flag);
    case ObjectToken(_, _, last) =>
      var pairs := BuildPairs(last);
      node := ObjectNode(pairs);
    case ArrayToken(_, _, last) =>
      var elements := BuildElements(last);
      node := ArrayNode(elements);
  }

  /**
   * The reader: `m_root`, the array of the root frame's values, and the
   * root chain it was built from.
   */
  class MarkdownReader {
    const root: Node
    ghost const last: Chain

    ghost predicate Valid()
    {
      ChainWellFormed(last) && root == ArrayNode(ElementsOf(last))
    }

    /** The root build in the constructor: count, collect, reverse, wrap in an array. */
    constructor FromTokens(last: Chain)
      requires ChainWellFormed(last)
      ensures Valid() && this.last == last
    {
      var elements := BuildElements(last);
      root := ArrayNode(elements);
      this.last := last;
    }

    /** `get_size`: the number of values at the top level of the document. */
    function GetSize(): (n: nat)
      requires Valid()
      ensures n == Length(last)
    {
      |root.elements|
    }

    /** `operator[]`: the top-level values in the order of their tokens. */
    function At(index: nat): (n: Node)
      requires Valid() && index < GetSize()
      ensures WellFormed(Tokens(last)[index]) && n == NodeOf(Tokens(last)[index])
    {
      ElementsInTokenOrder(last);
      root.elements[index]
    }
  }

  /** The tree the reader holds for the text `s`, if the grammar accepts it. */
  function ParseDocument(s: string): (r: Option<Node>)
    ensures r.Some? <==> Document(s).Some?
    ensures r.Some? ==> r.value.ArrayNode? && |r.value.elements| == Length(Document(s).value.chain)
  {
    match Document(s)
    case None => None
    case Some(m) =>
      ValuesWellFormed(s, m.chain, 0);
      Some(ArrayNode(ElementsOf(m.chain)))
  }

  /**
   * The constructor: parse the whole text with the root production, fail if
   * it does not match, and build the root array.
   */
  method Read(s: string) returns (r: Option<MarkdownReader>)
    ensures r.Some? <==> Document(s).Some?
    ensures r.Some? ==> fresh(r.value) && r.value.Valid() && r.value.last == Document(s).value.chain
                        && Some(r.value.root) == ParseDocument(s)
  {
    var parsed := Document(s);
    if parsed.None? {
      r := None;
    } else {
      var m := parsed.value;
      ValuesWellFormed(s, m.chain, 0);
      var reader := new MarkdownReader.FromTokens(m.chain);
      r := Some(reader);
    }
  }

  // What the specification means.

  /** A token the grammar captures is one the builder accepts. */
  lemma {:induction false} ValidTokenWellFormed(s: string, t: Token)
    requires ValidToken(s, t)
    ensures WellFormed(t)
    decreases t, 1
  {
    match t
    case ObjectToken(b, _, last) =>
      if last.Link? {
        PairsWellFormed(s, last, b + 1);
      }
    case ArrayToken(b, _, last) =>
      if last.Link? {
        ValuesWellFormed(s, last, b + 1);
      }
    case _ =>
  }

  /** The tokens of an array frame, or of the root, are ones the builder accepts. */
  lemma {:induction false} ValuesWellFormed(s: string, c: Chain, lo: nat)
    requires ValuesFrom(s, c, lo)
    ensures ChainWellFormed(c)
    decreases c, 0
  {
    ValidTokenWellFormed(s, c.token);
    if c.previous.Link? {
      ValuesWellFormed(s, c.previous, lo);
    }
  }

  /**
   * The tokens of an object frame are ones the builder accepts, and they come
   * in whole pairs, so the key token the object loop reads is never missing.
   */
  lemma {:induction false} PairsWellFormed(s: string, c: Chain, lo: nat)
    requires PairsFrom(s, c, lo)
    ensures ChainWellFormed(c) && PairedOver(c, Nil)
    decreases c, 0
  {
    ValidTokenWellFormed(s, c.token);
    ValidTokenWellFormed(s, c.previous.token);
    if c.previous.previous.Link? {
      PairsWellFormed(s, c.previous.previous, lo);
    }
  }

  /**
   * The tokens of an array frame, or of the root, oldest first, lie between
   * `lo` and the end of the newest one and appear in the text in this order,
   * without overlapping.
   */
  lemma {:induction false} ChainTextualOrder(s: string, c: Chain, lo: nat)
    requires ValuesFrom(s, c, lo)
    ensures forall i :: 0 <= i < |Tokens(c)| ==> lo <= Tokens(c)[i].begin < Tokens(c)[i].end <= c.token.end
    ensures forall i, j :: 0 <= i < j < |Tokens(c)| ==> Tokens(c)[i].end <= Tokens(c)[j].begin
    decreases c
  {
    assert Tokens(c) == Tokens(c.previous) + [c.token];
    if c.previous.Link? {
      ChainTextualOrder(s, c.previous, lo);
    }
  }

  /** The same for the tokens of an object frame, keys and values alike. */
  lemma {:induction false} PairsTextualOrder(s: string, c: Chain, lo: nat)
    requires PairsFrom(s, c, lo)
    ensures forall i :: 0 <= i < |Tokens(c)| ==> lo <= Tokens(c)[i].begin < Tokens(c)[i].end <= c.token.end
    ensures forall i, j :: 0 <= i < j < |Tokens(c)| ==> Tokens(c)[i].end <= Tokens(c)[j].begin
    decreases c
  {
    var key := c.previous;
    assert Tokens(c) == Tokens(key.previous) + [key.token] + [c.token];
    if key.previous.Link? {
      PairsTextualOrder(s, key.previous, lo);
    }
  }

  /** The elements of an array, and of the root, are the nodes of its tokens oldest first. */
  lemma {:induction false} ElementsInTokenOrder(c: Chain)
    requires ChainWellFormed(c)
    ensures forall i :: 0 <= i < Length(c) ==> WellFormed(Tokens(c)[i]) && ElementsOf(c)[i] == NodeOf(Tokens(c)[i])
    decreases c
  {
    if c.Link? {
      ElementsInTokenOrder(c.previous);
      assert Tokens(c) == Tokens(c.previous) + [c.token];
    }
  }

  /**
   * The pairs of an object run from the last pair in the text to the first;
   * pair `i` takes its key from token `n - 2 - 2i` and its value from token
   * `n - 1 - 2i`, counting the object's `n` tokens oldest first.
   */
  lemma {:induction false} PairsInReverseOrder(c: Chain)
    requires ChainWellFormed(c) && PairedOver(c, Nil)
    ensures var ts, n := Tokens(c), Length(c);
            forall i :: 0 <= i < |PairsOf(c)| ==>
              WellFormed(ts[n - 2 - 2 * i]) && WellFormed(ts[n - 1 - 2 * i])
              && PairsOf(c)[i] == Pair(NodeOf(ts[n - 2 - 2 * i]), NodeOf(ts[n - 1 - 2 * i]))
    decreases c
  {
    if c.Link? {
      var rest := c.previous.previous;
      assert ChainWellFormed(c.previous);
      PairsInReverseOrder(rest);
      var ts, n, tr, m := Tokens(c), Length(c), Tokens(rest), Length(rest);
      assert Tokens(c.previous) == tr + [c.previous.token];
      assert ts == tr + [c.previous.token] + [c.token];
      forall i | 0 <= i < |PairsOf(c)|
        ensures WellFormed(ts[n - 2 - 2 * i]) && WellFormed(ts[n - 1 - 2 * i])
                && PairsOf(c)[i] == Pair(NodeOf(ts[n - 2 - 2 * i]), NodeOf(ts[n - 1 - 2 * i]))
      {
        if i > 0 {
          assert PairsOf(c)[i] == PairsOf(rest)[i - 1];
          assert ts[n - 2 - 2 * i] == tr[m - 2 - 2 * (i - 1)];
          assert ts[n - 1 - 2 * i] == tr[m - 1 - 2 * (i - 1)];
        }
      }
    }
  }
}
