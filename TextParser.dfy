/**
 * The cursor primitives that the markdown grammar is written in.
 *
 * The combinator base class is not part of this model; its primitives are
 * given here with the contracts the grammar relies on. The cursor is an index
 * `p` into the input `s`; a primitive either fails (`None`) or succeeds with
 * the position just past what it consumed. A failed primitive consumes
 * nothing, which is the transactional guarantee every sequence and choice of
 * the grammar builds on.
 */
module TextParser {

  /** Success with a value, or failure. */
  datatype Option<T> = None | Some(value: T)

  /** `parse(c)`: one given character. */
  function Char(s: string, p: nat, c: char): (r: Option<nat>)
    requires p <= |s|
    ensures r.Some? <==> p < |s| && s[p] == c
    ensures r.Some? ==> r.value == p + 1
  {
    if p < |s| && s[p] == c then Some(p + 1) else None
  }

  /** `parse("lit")`: a given literal, character by character. */
  function Literal(s: string, p: nat, lit: string): (r: Option<nat>)
    requires p <= |s|
    ensures r.Some? <==> p + |lit| <= |s| && s[p..p + |lit|] == lit
    ensures r.Some? ==> r.value == p + |lit|
  {
    if p + |lit| <= |s| && s[p..p + |lit|] == lit then Some(p + |lit|) else None
  }

  /** `parse_any_of(chars)`: one character that occurs in `chars`. */
  function AnyOf(s: string, p: nat, chars: string): (r: Option<nat>)
    requires p <= |s|
    ensures r.Some? <==> p < |s| && s[p] in chars
    ensures r.Some? ==> r.value == p + 1
  {
    if p < |s| && s[p] in chars then Some(p + 1) else None
  }

  /** `parse_any_but(chars)`: one character that does not occur in `chars`. */
  function AnyBut(s: string, p: nat, chars: string): (r: Option<nat>)
    requires p <= |s|
    ensures r.Some? <==> p < |s| && s[p] !in chars
    ensures r.Some? ==> r.value == p + 1
  {
    if p < |s| && s[p] !in chars then Some(p + 1) else None
  }
}
