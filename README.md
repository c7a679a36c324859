# Markdown reader, CRC checksums and bit utilities of the KURWA engine core

This project models three self-contained parts of the engine's core library in Dafny and proves what they compute.

- **The markdown reader** (`engine/core/source/core/io/markdown_reader.cpp`) is a backtracking recursive-descent parser for a JSON-like text format: numbers, quoted strings, booleans, objects and arrays. Values are separated by commas or whitespace. The parser is a set of combinator rules. The rules capture typed tokens into reverse-linked chains, one chain per object or array frame. The reader then builds a node tree from these chains.
  - `TextParser` gives the cursor primitives of the combinator base class. That base class is not part of this model, so the primitives are defined from how the grammar uses them.
  - `MarkdownLexer` holds the character-level rules, from `letter` to `boolean`.
  - `MarkdownGrammar` holds the value-level rules, from `value` to `array`, plus the root production and the token `init` methods.
  - `MarkdownReader` holds the builder, as imperative loops proved against a functional specification, and the reader class.
  - `MarkdownExamples` works through small texts.
  - Each rule is a function from a position to `Option` of the position after its match. A rule that captures tokens also takes the frame's current chain and returns the new one. A failed rule returns `None`, so neither the cursor nor the chain of its caller changes.
- **The CRC checksums** (`engine/core/source/core/crc_utils.cpp`) are the table-driven `crc32` and `crc64` loops.
  - `CrcTables` copies both 256-entry tables entry for entry. It proves each entry is the one-byte transition of the bitwise register, which `CrcRegister` defines.
  - `CrcUtils` has the two loops, proved equal to the bitwise checksum, the chaining and zero laws, and the standard check values.
- **The integer bit utilities** (`engine/core/include/core/math/scalar.h`) are `align_up`, `align_down`, `is_pow2`, both overloads of `next_pow2` and `previous_pow2`, and `count_bits_set`. They are modelled in `Scalar` on `bv32` and `bv64`, so the unsigned wrap-around of the C++ code is exact. Three notions are defined apart from the bit tricks of the code, and each is proved to agree with it:
  - a power of two is some `1 << k`;
  - `v` is a multiple of a power of two `a` when halving both leaves `v` even at every step until `a` is 1. `MaskMultiple32` and `MaskMultiple64` prove this equal to the mask test `v & (a - 1) == 0` that `align_up` and `align_down` are built on;
  - the count of set bits is the sum of the 32 bits.

Three behaviours of the code differ from what a reader of the format might expect. The model keeps each one as the code has it:
- **Object pair order.** The pairs of an object come out last pair first. Arrays and the root are reversed into textual order, but the object branch of `build_node_from_token` appends pairs in the order it walks them and never reverses the list.
- **String escapes.** A string node keeps its text exactly as written between the quotes, with no escape decoding.
- **Separators.** The grammar comment at lines 48 and 52 of `markdown_reader.cpp` says values are separated by `<spaces>`. The code uses `comma_spaces`.

**Token capture.** What happens to a token linked inside a sequence that later fails is up to the combinator base class, which is not part of this model. The model drops it along with the failed sequence. That can only happen inside `key_value`: its first value is captured and then the `:` or the second value is missing. For a successful parse the two readings agree:
- The cursor is restored to before the separator of the failed iteration, and `opt_spaces` then stops in front of the stray value.
- That value's first character is neither `}` nor `]`, so the enclosing object fails as a whole.
- The object's own frame, stray token included, is then never linked anywhere.

## Model

| member | source | states |
|---|---|---|
| TextParser.Char | engine/core/source/core/io/markdown_reader.cpp:134-136 | `parse(c)` succeeds exactly when the next character is `c`, and then consumes one character |
| TextParser.Literal | engine/core/source/core/io/markdown_reader.cpp:192-194 | `parse("lit")` succeeds exactly when the input continues with `lit`, and consumes exactly `lit` |
| TextParser.AnyOf | engine/core/source/core/io/markdown_reader.cpp:138-140 | `parse_any_of` succeeds exactly when the next character is in the set, and consumes one character |
| TextParser.AnyBut | engine/core/source/core/io/markdown_reader.cpp:180-182 | `parse_any_but` succeeds exactly when there is a next character outside the set, and consumes one |
| MarkdownLexer.UpperLetterSet | engine/core/source/core/io/markdown_reader.cpp:126-128 | the upper half of the letter set is exactly the range `A`..`Z` |
| MarkdownLexer.LowerLetterSet | engine/core/source/core/io/markdown_reader.cpp:126-128 | the lower half of the letter set is exactly the range `a`..`z` |
| MarkdownLexer.Letter | engine/core/source/core/io/markdown_reader.cpp:126-128 | `letter` accepts one ASCII letter and nothing else |
| MarkdownLexer.NonZeroDigit | engine/core/source/core/io/markdown_reader.cpp:130-132 | `non_zero_digit` accepts exactly one of `1`..`9` |
| MarkdownLexer.Digit | engine/core/source/core/io/markdown_reader.cpp:134-136 | `digit` accepts exactly one of `0`..`9` |
| MarkdownLexer.Space | engine/core/source/core/io/markdown_reader.cpp:138-140 | `space` accepts exactly one of space, tab, LF, VT, FF, CR |
| MarkdownLexer.OptDigits | engine/core/source/core/io/markdown_reader.cpp:142-144 | `opt_digits` always succeeds, consumes only digits, and stops only in front of a non-digit or at the end |
| MarkdownLexer.OptSpaces | engine/core/source/core/io/markdown_reader.cpp:146-148 | `opt_spaces` always succeeds, consumes only spaces, and stops only in front of a non-space or at the end |
| MarkdownLexer.OptMinus | engine/core/source/core/io/markdown_reader.cpp:150-152 | `opt_minus` always succeeds; it consumes one character exactly when that character is `-` |
| MarkdownLexer.Spaces | engine/core/source/core/io/markdown_reader.cpp:154-156 | `spaces` succeeds exactly at a space and then consumes the whole run of spaces |
| MarkdownLexer.CommaSpaces | engine/core/source/core/io/markdown_reader.cpp:158-161 | the separator succeeds exactly when spaces or a comma follow. After a comma it ends where the spaces after the comma end, and otherwise where the leading spaces end |
| MarkdownLexer.SeparatorMatched | engine/core/source/core/io/markdown_reader.cpp:158-161 | separator text (spaces, or spaces, a comma and spaces, not empty) that is followed by neither a space nor a comma is exactly what `comma_spaces` matches |
| MarkdownLexer.IntNumber | engine/core/source/core/io/markdown_reader.cpp:167-169 | `int_number` succeeds exactly at a digit. At `0` it consumes that one character only. Otherwise it consumes the whole digit run, and its lexeme is `0` or a non-zero digit followed by digits |
| MarkdownLexer.RealNumber | engine/core/source/core/io/markdown_reader.cpp:163-165 | `real_number` succeeds exactly when an integer part is followed by `.` and a digit. Its lexeme is a real number, and it stops in front of a non-digit |
| MarkdownLexer.Number | engine/core/source/core/io/markdown_reader.cpp:171-174 | `number` succeeds exactly when a digit follows the optional minus, and it matches the longest number text at the cursor, so the real alternative wins whenever it applies |
| MarkdownLexer.LongestNumberMatched | engine/core/source/core/io/markdown_reader.cpp:163-174 | the longest number text at the cursor is exactly what `number` matches |
| MarkdownLexer.EscapeChar | engine/core/source/core/io/markdown_reader.cpp:176-178 | `escape_char` accepts exactly one of `" \ t n v f r` |
| MarkdownLexer.StringChar | engine/core/source/core/io/markdown_reader.cpp:180-182 | `string_char` accepts one character other than `"`, `\`, LF and CR, or a backslash followed by an escape character (two characters), and nothing else |
| MarkdownLexer.OptStringChars | engine/core/source/core/io/markdown_reader.cpp:184-186 | `opt_string_chars` always succeeds, consumes a valid string body, and stops where no string character starts |
| MarkdownLexer.String | engine/core/source/core/io/markdown_reader.cpp:188-190 | `string` succeeds exactly when a quote opens a string body that a quote closes, and the span is quote, body, quote |
| MarkdownLexer.StringMatched | engine/core/source/core/io/markdown_reader.cpp:184-190 | a quote, a valid string body and a quote are exactly what `string` matches |
| MarkdownLexer.Boolean | engine/core/source/core/io/markdown_reader.cpp:192-194 | `boolean` succeeds exactly when the input continues with `true` or `false`, and consumes exactly that word: four characters after `true`, five after `false` |
| MarkdownGrammar.StringInit | engine/core/source/core/io/markdown_reader.cpp:63-71 | a span that starts with a quote becomes its content without the two quotes (length minus 2). Any other span is kept whole |
| MarkdownGrammar.BooleanInit | engine/core/source/core/io/markdown_reader.cpp:73-75 | the flag is true exactly when the token's first four characters are `true` |
| MarkdownGrammar.Value | engine/core/source/core/io/markdown_reader.cpp:196-202 | on success `value` links exactly one new token in front of the frame's chain. The token spans the match and is a valid token of its kind, and an object or array token's frame tiles the text between its brackets |
| MarkdownGrammar.ValueMatched | engine/core/source/core/io/markdown_reader.cpp:196-202 | every valid token at the cursor is what `value` matches and links, so `value` succeeds exactly where a valid token starts |
| MarkdownGrammar.ValueStarts | engine/core/source/core/io/markdown_reader.cpp:196-202 | `value` succeeds only at a digit, `-`, a quote, `t`, `f`, `{` or `[` |
| MarkdownGrammar.KeyValue | engine/core/source/core/io/markdown_reader.cpp:204-206 | on success `key_value` links a key token at the cursor and then a value token, with colon text between them, and ends where the value ends |
| MarkdownGrammar.KeyValueMatched | engine/core/source/core/io/markdown_reader.cpp:204-206 | every key token, colon text and value token at the cursor is what `key_value` matches and links |
| MarkdownGrammar.PairTail | engine/core/source/core/io/markdown_reader.cpp:204-206 | the second half of `key_value` (spaces, `:`, spaces, value) links one valid value token after colon text |
| MarkdownGrammar.OptSpaceSeparatedKeyValues | engine/core/source/core/io/markdown_reader.cpp:208-210 | the repetition always succeeds. It links only whole key/value pairs, each after separator text, and ends where the last pair ends |
| MarkdownGrammar.KeyValuesStop | engine/core/source/core/io/markdown_reader.cpp:208-210 | the repetition is greedy: where it stops, no separator followed by a key value matches |
| MarkdownGrammar.OptKeyValues | engine/core/source/core/io/markdown_reader.cpp:212-214 | `opt_key_values` always succeeds. It matches nothing or whole pairs that tile the text from the cursor to the end of the last value |
| MarkdownGrammar.OptKeyValuesGreedy | engine/core/source/core/io/markdown_reader.cpp:212-214 | `opt_key_values` matches nothing exactly when no key value starts at the cursor. Otherwise it takes that key value and then separated key values until none follows |
| MarkdownGrammar.OptSpaceSeparatedValues | engine/core/source/core/io/markdown_reader.cpp:216-218 | the repetition always succeeds. It links valid tokens, each after separator text, and ends where the last one ends |
| MarkdownGrammar.ValuesStop | engine/core/source/core/io/markdown_reader.cpp:216-218 | the repetition is greedy: where it stops, no separator followed by a value matches |
| MarkdownGrammar.OptValues | engine/core/source/core/io/markdown_reader.cpp:220-222 | `opt_values` always succeeds. It matches nothing or valid tokens that tile the text from the cursor to the end of the last one |
| MarkdownGrammar.OptValuesGreedy | engine/core/source/core/io/markdown_reader.cpp:220-222 | `opt_values` matches nothing exactly when no value starts at the cursor. Otherwise it takes that value and then separated values until none follows |
| MarkdownGrammar.Object | engine/core/source/core/io/markdown_reader.cpp:224-226 | an object spans `{` to `}`, and the pairs of its own frame tile the text between the braces, with only spaces around them |
| MarkdownGrammar.ObjectMatched | engine/core/source/core/io/markdown_reader.cpp:224-226 | every `{ ... }` whose pairs tile the text between the braces is what `object` matches, with exactly those pairs |
| MarkdownGrammar.Array | engine/core/source/core/io/markdown_reader.cpp:228-230 | an array spans `[` to `]`, and the values of its own frame tile the text between the brackets, with only spaces around them |
| MarkdownGrammar.ArrayMatched | engine/core/source/core/io/markdown_reader.cpp:228-230 | every `[ ... ]` whose values tile the text between the brackets is what `array` matches, with exactly those values |
| MarkdownGrammar.Document | engine/core/source/core/io/markdown_reader.cpp:82-85 | the root production succeeds exactly when a value follows the leading spaces. The root values tile the input from the start, and no separator and value follow the last |
| MarkdownGrammar.DocumentMatched | engine/core/source/core/io/markdown_reader.cpp:82-85 | root values that tile the input from the start, with no separator and value after the last, are exactly what the root production matches |
| MarkdownReader.ElementsOf | engine/core/source/core/io/markdown_reader.cpp:261-285 | an array's element list has one node per token of its chain |
| MarkdownReader.PairsOf | engine/core/source/core/io/markdown_reader.cpp:242-255 | an object's pair list has one pair per two tokens of its chain |
| MarkdownReader.ReversedIndex | engine/core/source/core/io/markdown_reader.cpp:283 | element `k` of the reversed sequence is element `n - 1 - k` of the original |
| MarkdownReader.CountElements | engine/core/source/core/io/markdown_reader.cpp:261-267 | the counting pass returns the length of the `previous` chain from the last token |
| MarkdownReader.ReverseInPlace | engine/core/source/core/io/markdown_reader.cpp:283 | `std::reverse` leaves the buffer holding its old contents in reverse order |
| MarkdownReader.BuildElements | engine/core/source/core/io/markdown_reader.cpp:261-285 | count, collect into a buffer of that size, and reverse give exactly the specified element list |
| MarkdownReader.BuildPairs | engine/core/source/core/io/markdown_reader.cpp:242-255 | the two-token walk gives exactly the specified pair list, with (key of the earlier token, value of the later token) per step |
| MarkdownReader.BuildNode | engine/core/source/core/io/markdown_reader.cpp:232-290 | `build_node_from_token` gives exactly the specified node of every well-formed token |
| MarkdownReader.MarkdownReader.FromTokens | engine/core/source/core/io/markdown_reader.cpp:103-115 | the root node is the array of the root chain's elements |
| MarkdownReader.MarkdownReader.GetSize | engine/core/source/core/io/markdown_reader.cpp:122-124 | `get_size` is the number of tokens in the root chain |
| MarkdownReader.MarkdownReader.At | engine/core/source/core/io/markdown_reader.cpp:118-120 | `operator[](i)` is the node of the root frame's `i`-th token, counted oldest first |
| MarkdownReader.ParseDocument | engine/core/source/core/io/markdown_reader.cpp:77-116 | a tree exists exactly when the root production matches. It is an array with one node per root token |
| MarkdownReader.Read | engine/core/source/core/io/markdown_reader.cpp:77-116 | the constructor succeeds exactly when the root production matches. The new reader's root is the specified tree of the root chain |
| MarkdownReader.ValidTokenWellFormed | engine/core/source/core/io/markdown_reader.cpp:232-290 | every token the grammar captures meets the builder's demands; in particular no object's value lacks a key token |
| MarkdownReader.ValuesWellFormed | engine/core/source/core/io/markdown_reader.cpp:261-285 | every token of an array frame or of the root, at every depth, meets the builder's demands |
| MarkdownReader.PairsWellFormed | engine/core/source/core/io/markdown_reader.cpp:242-255 | every token of an object frame meets the builder's demands, and the frame holds whole pairs, so the key the object loop reads is never missing |
| MarkdownReader.ChainTextualOrder | engine/core/source/core/io/markdown_reader.cpp:106-113 | the tokens of an array frame or of the root, oldest first, lie inside the frame and follow each other in the text without overlapping |
| MarkdownReader.PairsTextualOrder | engine/core/source/core/io/markdown_reader.cpp:242-255 | the keys and values of an object frame, oldest first, lie inside the frame and follow each other in the text without overlapping |
| MarkdownReader.ElementsInTokenOrder | engine/core/source/core/io/markdown_reader.cpp:106-113 | after the reverse, element `i` is the node of the `i`-th token in textual order |
| MarkdownReader.PairsInReverseOrder | engine/core/source/core/io/markdown_reader.cpp:244-253 | pair `i` is built from tokens `n-2-2i` (key) and `n-1-2i` (value), so pairs run from the last in the text to the first |
| MarkdownExamples.MinusTwelve | engine/core/source/core/io/markdown_reader.cpp:171-174 | on `-12` the real alternative fails after reading `-12`, and the integer alternative then matches all of `-12` from the start |
| MarkdownExamples.LeadingZero | engine/core/source/core/io/markdown_reader.cpp:167-169 | `012` is not one number: `number` matches only the `0` |
| MarkdownExamples.CommaArray | engine/core/source/core/io/markdown_reader.cpp:158-161 | `[1,2]` reads as a root array holding the array `[1, 2]` |
| MarkdownExamples.SpacedCommaArray | engine/core/source/core/io/markdown_reader.cpp:158-161 | `[1 , 2]` reads as the same tree as `[1,2]` |
| MarkdownExamples.SpaceArray | engine/core/source/core/io/markdown_reader.cpp:158-161 | `[1 2]` reads as the same tree as `[1,2]` |
| MarkdownExamples.ObjectPairOrder | engine/core/source/core/io/markdown_reader.cpp:242-255 | `{1:2,3:4}` reads as an object whose pairs are (3, 4) then (1, 2) |
| MarkdownExamples.EscapedString | engine/core/source/core/io/markdown_reader.cpp:180-190 | `"a\n"` (with a backslash) is one string of five characters |
| MarkdownExamples.StringKeepsEscapes | engine/core/source/core/io/markdown_reader.cpp:238 | the string node of `"a\n"` holds the backslash and the `n` undecoded |
| MarkdownExamples.FailedIterationLeavesNoToken | engine/core/source/core/io/markdown_reader.cpp:216-218 | in `1 ,x` the last separator matches but no value follows it. That iteration leaves no token, and the root stops after the `1` |
| CrcRegister.Shift32Cases | engine/core/source/core/crc_utils.cpp:7-40 | the branch-free register shift is the textbook one: XOR the polynomial 0xEDB88320 exactly when the bit shifted out is 1 |
| CrcRegister.Shift64Cases | engine/core/source/core/crc_utils.cpp:42-107 | the same for the CRC-64 polynomial 0x95AC9329AC4BC9B5 |
| CrcTables.Entry32 | engine/core/source/core/crc_utils.cpp:7-40 | every entry `i` of `CRC32_TABLE` is eight register shifts of `i` |
| CrcTables.Entry64 | engine/core/source/core/crc_utils.cpp:42-107 | every entry `i` of `CRC64_TABLE` is eight register shifts of `i` |
| CrcTables.TablePolynomials | engine/core/source/core/crc_utils.cpp:7-107 | entry 0 of both tables is zero, and entry 128 is the polynomial |
| CrcUtils.Crc32 | engine/core/source/core/crc_utils.cpp:109-118 | the loop computes one table step per byte, first to last. With no data it returns `crc` unchanged. It equals the bitwise CRC-32 of the data |
| CrcUtils.Crc64 | engine/core/source/core/crc_utils.cpp:120-129 | the same for CRC-64 |
| CrcUtils.Step32IsBitwise | engine/core/source/core/crc_utils.cpp:114 | one table step is exactly one byte through the bitwise register |
| CrcUtils.Step64IsBitwise | engine/core/source/core/crc_utils.cpp:125 | one table step is exactly one byte through the bitwise register |
| CrcUtils.TableMatchesBitwise32 | engine/core/source/core/crc_utils.cpp:109-118 | `crc32` equals the bitwise CRC-32 on every register and every byte sequence |
| CrcUtils.TableMatchesBitwise64 | engine/core/source/core/crc_utils.cpp:120-129 | `crc64` equals the bitwise CRC-64 on every register and every byte sequence |
| CrcUtils.Crc32Concat | engine/core/source/core/crc_utils.cpp:109-118 | feeding `a` and then `b`, passing the register on, equals feeding `a + b` |
| CrcUtils.Crc64Concat | engine/core/source/core/crc_utils.cpp:120-129 | feeding `a` and then `b`, passing the register on, equals feeding `a + b` |
| CrcUtils.Crc32Zeros | engine/core/source/core/crc_utils.cpp:113-115 | a zero register stays zero over any run of zero bytes |
| CrcUtils.Crc64Zeros | engine/core/source/core/crc_utils.cpp:124-126 | a zero register stays zero over any run of zero bytes |
| CrcUtils.Crc32CheckValue | engine/core/source/core/crc_utils.cpp:109-118 | preset to all ones and flipped afterwards, `crc32` of `123456789` is 0xCBF43926, the CRC-32 check value |
| CrcUtils.Crc64CheckValue | engine/core/source/core/crc_utils.cpp:120-129 | from zero, `crc64` of `123456789` is 0xE9C6D914C4B8D9CA, the CRC-64/Jones check value |
| Scalar.PowerOfTwoBits32 | engine/core/include/core/math/scalar.h:46-50 | a 32-bit value is some `1 << k` exactly when it has a single bit set |
| Scalar.PowerOfTwoBits64 | engine/core/include/core/math/scalar.h:46-50 | a 64-bit value is some `1 << k` exactly when it has a single bit set |
| Scalar.IsPow2U32 | engine/core/include/core/math/scalar.h:46-50 | `is_pow2(v)` holds exactly when `v` is a power of two or zero |
| Scalar.IsPow2U64 | engine/core/include/core/math/scalar.h:46-50 | `is_pow2(v)` holds exactly when `v` is a power of two or zero |
| Scalar.IsPow2ZeroFalsePositive | engine/core/include/core/math/scalar.h:46-50 | zero passes the test at both widths although it is no power of two, as the comment warns |
| Scalar.MaskMultiple32 | engine/core/include/core/math/scalar.h:36-44 | for a power of two `a`, `v & (a - 1) == 0` holds exactly when `v` is a multiple of `a` |
| Scalar.MaskMultiple64 | engine/core/include/core/math/scalar.h:36-44 | the same at 64 bits |
| Scalar.AlignDownU32 | engine/core/include/core/math/scalar.h:41-44 | for a power-of-two alignment the result is a multiple of it, in the halving sense |
| Scalar.AlignDownU64 | engine/core/include/core/math/scalar.h:41-44 | for a power-of-two alignment the result is a multiple of it, in the halving sense |
| Scalar.AlignUpU32 | engine/core/include/core/math/scalar.h:36-39 | for a power-of-two alignment the result is a multiple of it, in the halving sense, including the wrapped result 0 |
| Scalar.AlignUpU64 | engine/core/include/core/math/scalar.h:36-39 | for a power-of-two alignment the result is a multiple of it, in the halving sense, including the wrapped result 0 |
| Scalar.AlignDownBounds32 | engine/core/include/core/math/scalar.h:41-44 | `align_down(v, a) <= v < align_down(v, a) + a` |
| Scalar.AlignDownBounds64 | engine/core/include/core/math/scalar.h:41-44 | `align_down(v, a) <= v < align_down(v, a) + a` |
| Scalar.AlignDownGreatest32 | engine/core/include/core/math/scalar.h:41-44 | every multiple of `a` that is at most `v` is at most `align_down(v, a)` |
| Scalar.AlignDownGreatest64 | engine/core/include/core/math/scalar.h:41-44 | every multiple of `a` that is at most `v` is at most `align_down(v, a)` |
| Scalar.AlignUpBounds32 | engine/core/include/core/math/scalar.h:36-39 | without overflow, `v <= align_up(v, a) < v + a` |
| Scalar.AlignUpBounds64 | engine/core/include/core/math/scalar.h:36-39 | without overflow, `v <= align_up(v, a) < v + a` |
| Scalar.AlignUpLeast32 | engine/core/include/core/math/scalar.h:36-39 | every multiple of `a` that is at least `v` is at least `align_up(v, a)` |
| Scalar.AlignUpLeast64 | engine/core/include/core/math/scalar.h:36-39 | every multiple of `a` that is at least `v` is at least `align_up(v, a)` |
| Scalar.AlignUpWraps32 | engine/core/include/core/math/scalar.h:36-39 | when `v + a - 1` overflows, `align_up` wraps around to 0 |
| Scalar.AlignUpWraps64 | engine/core/include/core/math/scalar.h:36-39 | when `v + a - 1` overflows, `align_up` wraps around to 0 |
| Scalar.AlignUpFixed32 | engine/core/include/core/math/scalar.h:36-39 | `align_up(v, a) == v` exactly when `v` is a multiple of `a`, and `align_up` is idempotent |
| Scalar.AlignUpFixed64 | engine/core/include/core/math/scalar.h:36-39 | `align_up(v, a) == v` exactly when `v` is a multiple of `a`, and `align_up` is idempotent |
| Scalar.AlignDownFixed32 | engine/core/include/core/math/scalar.h:41-44 | `align_down(v, a) == v` exactly when `v` is a multiple of `a`, and `align_down` is idempotent |
| Scalar.AlignDownFixed64 | engine/core/include/core/math/scalar.h:41-44 | `align_down(v, a) == v` exactly when `v` is a multiple of `a`, and `align_down` is idempotent |
| Scalar.SmearShape32 | engine/core/include/core/math/scalar.h:55-59 | the or-shift cascade gives all ones from the highest set bit down: a mask at least `x` and less than twice it |
| Scalar.SmearShape64 | engine/core/include/core/math/scalar.h:67-72 | the 64-bit or-shift cascade gives all ones from the highest set bit down |
| Scalar.NextPow2IsPowerOfTwo32 | engine/core/include/core/math/scalar.h:52-62 | for 1 <= v <= 2^31, `next_pow2(v)` is a power of two and at least `v` |
| Scalar.NextPow2IsPowerOfTwo64 | engine/core/include/core/math/scalar.h:64-75 | for 1 <= v <= 2^63, `next_pow2(v)` is a power of two and at least `v` |
| Scalar.NextPow2Least32 | engine/core/include/core/math/scalar.h:52-62 | for v >= 1, no power of two at least `v` is smaller than `next_pow2(v)` |
| Scalar.NextPow2Least64 | engine/core/include/core/math/scalar.h:64-75 | for v >= 1, no power of two at least `v` is smaller than `next_pow2(v)` |
| Scalar.NextPow2Fixed32 | engine/core/include/core/math/scalar.h:52-62 | a power of two is its own `next_pow2` |
| Scalar.NextPow2Fixed64 | engine/core/include/core/math/scalar.h:64-75 | a power of two is its own `next_pow2` |
| Scalar.NextPow2OutOfRange32 | engine/core/include/core/math/scalar.h:52-62 | for 0, the documented failure, and for values above 2^31, `next_pow2` wraps to 0 |
| Scalar.NextPow2OutOfRange64 | engine/core/include/core/math/scalar.h:64-75 | for 0 and for values above 2^63, `next_pow2` wraps to 0 |
| Scalar.PreviousPow2IsPowerOfTwo32 | engine/core/include/core/math/scalar.h:77-86 | for v >= 1, `previous_pow2(v)` is a power of two, at most `v` and more than `v / 2` |
| Scalar.PreviousPow2IsPowerOfTwo64 | engine/core/include/core/math/scalar.h:88-98 | for v >= 1, `previous_pow2(v)` is a power of two, at most `v` and more than `v / 2` |
| Scalar.PreviousPow2Greatest32 | engine/core/include/core/math/scalar.h:77-86 | no power of two at most `v` is larger than `previous_pow2(v)` |
| Scalar.PreviousPow2Greatest64 | engine/core/include/core/math/scalar.h:88-98 | no power of two at most `v` is larger than `previous_pow2(v)` |
| Scalar.PreviousPow2Fixed32 | engine/core/include/core/math/scalar.h:77-86 | a power of two is its own `previous_pow2` |
| Scalar.PreviousPow2Fixed64 | engine/core/include/core/math/scalar.h:88-98 | a power of two is its own `previous_pow2` |
| Scalar.PreviousPow2Zero | engine/core/include/core/math/scalar.h:77-98 | for 0, the documented failure, both overloads give 0 |
| Scalar.PopCount32 | engine/core/include/core/math/scalar.h:100-107 | the reference count of set bits, which lies between 0 and 32 |
| Scalar.CountBitsSet | engine/core/include/core/math/scalar.h:100-107 | `count_bits_set(v)` is the number of set bits of `v` |
| Scalar.WordCount | engine/core/include/core/math/scalar.h:100-107 | the five lines of `count_bits_set` add up all 32 bits of the input |

## Left out

- The numeric value of a number token (`std::atof`, then a cast to `float`) is floating point. A number token and its node keep the matched lexeme instead.
- Memory resources, `allocate_unique` and `UniquePtr` are not modelled; nodes are values. `dynamic_cast` dispatch becomes a match on a closed token datatype, so the "invalid token type" branch cannot occur.
- The internals of the combinator base class are not part of this model, including its token arena and its diagnostics. Its primitives are given by the contracts the grammar relies on: one character, a literal, set membership, all-or-nothing sequence, ordered choice, greedy repetition, and token capture.
- Whether unconsumed trailing input is rejected is decided inside the base class. `Document` returns the position where the root production stopped, and the model does not treat leftover input as an error.
- A failed parse is fatal in the source (`KW_ERROR`). `Read` returns `None` instead.
- `MarkdownReader.MarkdownReader.At` requires `index < GetSize()`. Indexing out of range goes into the array node's own `operator[]`, which is not part of this model.
- Counters and sizes are `size_t` in the source and unbounded `nat` here. A document with 2^64 tokens cannot exist in memory.
- The null-pointer precondition of `crc32` and `crc64` (data may be null only when the size is 0) has no counterpart, because the data is a byte sequence.
- `sqr`, `lerp`, `clamp`, `equal`, `degrees`, `radians`, `normalize_angle` and `shortest_angle` in the math header are floating point. `log2` is only declared there.
- `align_up`, `align_down` and `is_pow2` are templates. They are modelled for 32-bit and 64-bit unsigned integers only, not for other widths or signed types. For alignments that are not powers of two the model proves nothing beyond computing the same bits.
- PairTail: its own contract states only what the second half of `key_value` links on success. When it succeeds is stated for the whole pair by `KeyValueMatched`.
