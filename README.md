# Field parser: a verified Dafny model

This project models the tabstop-field scanner of the `@emmetio/field-parser`
package in Dafny. `parse(string)` walks a template left to right. A
backslash escape is copied as a pair. A field token `$N`, `${N}` or
`${N:placeholder}` is replaced by its placeholder text. A `$` that starts
no field is copied alone, and whatever the failed attempt read after it is
dropped (see below). Every other character is copied as it is. For each field, `parse` records the pair
`[cleanString.length, placeholder.length]` under the field's index. The
scanner works through a small mutable cursor, `StringStream`.

Files:

- `wrappers.dfy` (module `Wrappers`): `Option` and `Result`.
- `string_stream.dfy` (module `Streams`): class `StringStream` of
  lib/string-stream.js, with `pos` as a mutable field. index.js:109-129 is an
  identical private copy, and the same class models both.
- `field_parser.dfy` (module `FieldParser`): the routines of index.js as
  methods on a `StringStream`, each proved equal to a pure function of the
  text and the start position:
  - `ConsumeNumber` is specified by `DigitRunEnd` and `NumberValue`.
  - `ConsumePlaceholder` is specified by `ScanBraces` and `PlaceholderAt`.
  - `ConsumeField` is specified by `FieldAt`, and `ConsumeBracedField` by
    `BracedFieldAt`.
  - `Parse` is specified by `Step`, `ParseFrom` and `ParseSpec`.
- `field_parser_properties.dfy` (module `FieldParserProperties`): what the
  scanner guarantees, as lemmas on those functions. This covers:
  - digit runs;
  - brace balance of placeholders, and the position reported by the error;
  - the shapes of accepted fields;
  - how each character class is copied;
  - what the recorded pairs mean.
- `field_parser_examples.dfy` (module `FieldParserExamples`): the inputs of
  the repository's test, and brace examples, evaluated on the model.

Where the code and its own test disagree, the model follows the code, with
one repair (see "## Findings"). These are the behaviours kept as written:

- `if (index)` at index.js:44 and :50 treats index 0 as "no field". In `$0`
  the `0` is consumed and then dropped: only the `$` is copied.
- Nothing in consumeField (index.js:39-61) restores the cursor. A failed
  attempt loses every character it read. Only the `$` is appended
  (index.js:25).
- index.js:23 records the clean-string length after the placeholder is
  appended. `Loc.pos` is therefore the end offset of the placeholder, not
  its start.
- `fields` is a Map from index to a list of pairs (index.js:12, 20-23). It is
  modelled as `map<nat, seq<Loc>>`. The test expects an array of
  `{index, location, length}` objects instead.
- For these reasons the expectations at test/field-parser.js:11-16 and :20
  do not hold. `FieldParserExamples.FirstTestInput` and `SecondTestInput`
  state what the code produces for those inputs.
- `${1:a{b}` does not throw. The `}` closes the inner `{`. The scan reaches
  the end with no brace open. The closing `next()` then finds no `}`, and
  the attempt fails after reading all of the remaining text.

## Model

| member | source | states |
|---|---|---|
| Streams.CharAt | lib/string-stream.js:23-25 | the character at `pos` when `pos < |s|`, and nothing at or past the end |
| Streams.StringStream.constructor | lib/string-stream.js:7-11 | the new cursor holds the text, `len == |text|` and `pos == 0`; it is valid (`pos <= len`) |
| Streams.StringStream.Eol | lib/string-stream.js:13-15 | true exactly when `pos >= len`; it modifies nothing |
| Streams.StringStream.Next | lib/string-stream.js:17-21 | before the end: returns `str[pos]` and advances `pos` by one. At the end: returns nothing and leaves `pos` as it was. It keeps `pos <= len`, and `str` and `len` are constants |
| Streams.StringStream.Peek | lib/string-stream.js:23-25 | returns `CharAt(str, pos)` and changes nothing |
| FieldParser.DigitRunEnd | index.js:100-104 | the end of the digit run from `i`: everything in between is a digit, and what follows is a non-digit or the end |
| FieldParser.NumberValue | index.js:106 | `null` exactly when no digit was read, otherwise the decimal value of the digits (the repaired `+result`) |
| FieldParser.DecimalValue | index.js:106 | the value of the digits read as a decimal numeral, most significant first (the repaired `+result`); it is 0 exactly when every digit is `0` |
| FieldParser.Truthy | index.js:44-50 | JavaScript's `if (index)` on consumeNumber's result: false for `null` and for 0, true for every positive index |
| FieldParser.NumberAsWritten | index.js:106 | the code as written: it throws exactly when at least one digit was read, and otherwise returns `null` |
| FieldParser.ConsumeNumber | index.js:100-107 | the cursor ends at `DigitRunEnd` of where it started; the result is `NumberValue` of the digits passed; the result is `null` exactly when the cursor did not move |
| FieldParser.ScanBraces | index.js:72-83 | the scan stays within the text; when it stops before the end, it stops on a `}` and with an empty stack |
| FieldParser.ScanKeepsOpenBraces | index.js:72-83 | every position on the stack lies between the start and the cursor and holds a `{` |
| FieldParser.PlaceholderAt | index.js:68-93 | a result is the slice of the text from `start`; an error reports a position in the rest of the text that holds a `{` |
| FieldParser.ConsumePlaceholder | index.js:68-93 | the method returns `PlaceholderAt` of its start position and leaves the cursor where `ScanBraces` stops; a returned placeholder is exactly the text from the start to the final cursor |
| FieldParser.CloseAt | index.js:56-58 | the closing `next()` consumes one character when there is one; the field is accepted exactly when that character is `}` |
| FieldParser.FieldAt | index.js:39-61 | one consumeField attempt never moves the cursor backwards or past the end; an accepted field has a non-zero index; an error names a `{` of the text at or after the attempt's start |
| FieldParser.BracedFieldAt | index.js:48-59 | the braced forms never move the cursor backwards or past the end; an accepted field has a non-zero index; an error names a `{` of the text at or after the start |
| FieldParser.ConsumeField | index.js:39-61 | the method's result and final cursor are exactly `FieldAt` of its start position |
| FieldParser.ConsumeBracedField | index.js:49-59 | the method's result and final cursor are exactly `BracedFieldAt` of the position after the `{` |
| FieldParser.Record | index.js:20-23 | the index becomes a key and receives the new pair after its earlier ones; every other key keeps its list |
| FieldParser.Step | index.js:15-26 | an iteration that does not throw advances the cursor by at least one and stays within the text, so the loop ends having read the whole input |
| FieldParser.ParseFrom | index.js:14-27 | the rest of the loop, run from a state whose map has no key 0, returns a map with no key 0; an error it throws names a `{` of the text at or after the current position |
| FieldParser.ParseSpec | index.js:9-30 | parse's result: its map never has key 0, and an error names a position of the input that holds a `{` |
| FieldParser.Parse | index.js:9-30 | the method returns `ParseSpec(s)`: the clean string and field map, or the error thrown |
| FieldParserProperties.NumberIsZeroIffAllZeros | index.js:40-46 | consumeNumber returns 0 exactly for a non-empty run of `0`s, so `$0`, `$00` and `${0}` never pass `if (index)` |
| FieldParserProperties.NumberAsWrittenThrowsOnDigits | index.js:106 | for every non-empty digit run, the code as written throws, while the repaired value is defined (for example `1` gives 1) |
| FieldParserProperties.DigitRunIsMaximal | index.js:102-104 | a digit run followed by a non-digit or the end is exactly the run consumeNumber reads |
| FieldParserProperties.StackInvPush | index.js:74-75 | pushing the position of a `{` keeps the stack invariant: the stack size is the brace depth so far, and each stacked `{` is still open |
| FieldParserProperties.StackInvPop | index.js:76-80 | popping on a `}` with a non-empty stack keeps the stack invariant |
| FieldParserProperties.StackInvOther | index.js:72-83 | any other character keeps the stack invariant |
| FieldParserProperties.ScanKeepsStackInv | index.js:72-83 | the whole scan keeps the stack invariant |
| FieldParserProperties.PlaceholderIsBalanced | index.js:72-92 | a returned placeholder is balanced (no prefix closes more braces than it opens, and the totals agree), and the cursor stops on the unconsumed `}` or at the end |
| FieldParserProperties.PlaceholderErrorIsInnermostOpen | index.js:85-89 | the error arises only at the end of the text; the reported `{` is the innermost open one, since everything after it is balanced |
| FieldParserProperties.PlaceholderFailsIff | index.js:85-90 | consumePlaceholder throws exactly when no prefix of the rest of the text closes more braces than it opens, and the rest ends with a brace still open |
| FieldParserProperties.FieldShapes | index.js:39-61 | an accepted field has a non-zero index. It is either the bare form (empty placeholder, ending at the digit run, index equal to the digits' value) or a braced form whose last consumed character is `}` and whose placeholder is balanced |
| FieldParserProperties.BracedFieldShape | index.js:48-59 | an accepted braced field has a non-zero index, ends just after a `}`, and has a balanced placeholder |
| FieldParserProperties.EscapeIsCopied | index.js:16-17 | a backslash and the character after it are copied verbatim, and scanning resumes after them, so the escaped character never starts a field |
| FieldParserProperties.LiteralIsCopied | index.js:24-25 | a character other than `\` and `$` is appended unchanged |
| FieldParserProperties.FailedFieldKeepsOnlyDollar | index.js:18-25 | when consumeField returns nothing, only the `$` is appended, and scanning resumes where the failed attempt stopped |
| FieldParserProperties.LiteralRunIsCopied | index.js:14-26 | a run of characters without `\` or `$` is appended unchanged and records no field |
| FieldParserProperties.ParsePlainText | index.js:9-30 | text with neither `\` nor `$` comes back identical, with an empty field map |
| FieldParserProperties.StepWithoutField | index.js:16-25 | an iteration that records no field leaves the map unchanged and only appends to the clean string |
| FieldParserProperties.StepWithField | index.js:18-23 | an accepted field appends its placeholder and records `(length of clean string after it, placeholder length)` under its index |
| FieldParserProperties.OnPathStep | index.js:14-27 | an iteration that starts in a state the loop passes through, and does not throw, ends in a state the loop passes through |
| FieldParserProperties.AcceptedFieldIsRecorded | index.js:18-23 | a field accepted at a state the loop passes through yields the triple `(index, placeholder, length of the clean string after it)` |
| FieldParserProperties.StepKeepsRecorded | index.js:18-23 | an iteration at a state the loop passes through preserves the invariant: every recorded pair comes from an iteration of that loop that accepted the field |
| FieldParserProperties.StepKeepsCleanShort | index.js:14-26 | an iteration never appends more characters than it reads |
| FieldParserProperties.ParseFromKeepsRecorded | index.js:14-27 | the remaining loop keeps the clean string no longer than the input, and keeps every recorded pair tied to an iteration of the loop that accepted its field |
| FieldParserProperties.ParseRecordsFields | index.js:9-30 | the clean string is no longer than the input. Index 0 is never a key. Each pair `(p, n)` of index `k` has `n <= p <= |clean|`. Some iteration of parse's own loop read a `$` and accepted a field of index `k` whose placeholder is `clean[p-n..p]` and ends at `p`. An escaped `$`, a `$` inside a placeholder and a `$` read by a failed attempt therefore never count. Each index's pairs have nondecreasing `p` |
| FieldParserProperties.ParsedOccurrence | index.js:19-23 | one recorded pair spelled out. It lies in the clean string. The loop passed through a state `st` at a `$` where consumeField accepted the field of index `k` with placeholder `clean[p-n..p]`, and `p` is `|st.clean|` plus the placeholder's length. No later pair of that index lies before it |
| FieldParserProperties.OnPathBounds | index.js:14-27 | the loop's states never move backwards and never pass the end of the text |
| FieldParserProperties.OnPathLinear | index.js:14-27 | the loop's states lie on one line: of two states it passes through, the later is reached from the earlier |
| FieldParserProperties.OnPathSameResult | index.js:14-29 | running the rest of the loop from any state it passes through gives parse's result |
| FieldParserProperties.ParseFromStep | index.js:14-27 | an iteration that does not throw hands its state on to the rest of the loop |
| FieldParserProperties.StepKeepsPrior | index.js:19-23 | one iteration only appends to the pairs already recorded under an index |
| FieldParserProperties.ParseFromKeepsPrior | index.js:14-27 | the rest of the loop only appends to the pairs already recorded under an index |
| FieldParserProperties.PriorGrowsOnPath | index.js:14-27 | along the loop, the number of pairs recorded under an index never decreases |
| FieldParserProperties.StepRecordsField | index.js:18-23 | the iteration that accepts `Field(k, t)` appends exactly `(|clean| + |t|, |t|)` to the pairs of `k` |
| FieldParserProperties.EveryAcceptedFieldIsRecorded | index.js:18-23 | the converse of ParseRecordsFields: every field accepted by an iteration of parse's loop appears in the result under its index, as `(length of clean string after its placeholder, placeholder length)`, right after the pairs of that index recorded before it |
| FieldParserProperties.AcceptedFieldsInPathOrder | index.js:14-27 | two fields of one index accepted by the loop appear in the result at distinct places, in the order the loop met them, even when their `p` values are equal |
| FieldParserExamples.FieldAccepted | index.js:18-23 | after an accepted field, parsing continues from the state with the placeholder appended and the pair recorded |
| FieldParserExamples.ZeroField | index.js:40-48 | digits of value 0 followed by the end of the text or by a character other than a digit or `{` give no field, and the attempt stops after the digits |
| FieldParserExamples.BracedNoNumber | index.js:50 | `{` followed by the end of the text or by a non-digit gives no field, and the attempt stops after the `{` |
| FieldParserExamples.BracedIndexOnly | index.js:50-58 | `{N` with non-zero `N` and no `:` ends with the closing `next()` |
| FieldParserExamples.BracedText | index.js:50-58 | `{N:` with non-zero `N` and a returned placeholder ends with the closing `next()` just after that placeholder |
| FieldParserExamples.BracedTextFails | index.js:53 | the error of consumePlaceholder propagates out of consumeField |
| FieldParserExamples.FirstTestInput | test/field-parser.js:10-16 | `foo $0 ${1:bar} ${200}${1}` gives clean string `foo $ bar ` and fields `1 -> [(9,3), (10,0)]`, `200 -> [(10,0)]` |
| FieldParserExamples.SecondTestInput | test/field-parser.js:19-21 | `foo \$0 ${bar} ${1f}` gives clean string `foo \$0 $bar} $}` and no fields |
| FieldParserExamples.NestedPlaceholder | index.js:72-83 | `${1:a{b}c}` has the single placeholder `a{b}c` |
| FieldParserExamples.InnerBraceClosedOnly | index.js:53-58 | `${1:a{b}` does not throw; the attempt reads to the end, fails, and leaves only `$` |
| FieldParserExamples.UnterminatedPlaceholderExample | index.js:85-89 | `${1:a{{b}` throws, reporting position 5, the innermost `{` left open |
| FieldParserExamples.OneLetterField | index.js:48-59 | `{1:c}` with `c` not a brace is the field of index 1 with placeholder `c` |
| FieldParserExamples.EscapedFieldNotRecorded | index.js:16-23 | in `${1:x}\${1:y}` consumeField would accept `{1:y}` after the escaped `$`, yet parse records only `1 -> [(1,1)]` and returns `x\${1:y}` |
| FieldParserExamples.FirstTestLiteral | test/field-parser.js:10-16 | `parse("foo $0 ${1:bar} ${200}${1}")` on the string itself: clean string `foo $ bar `, fields `1 -> [(9,3), (10,0)]`, `200 -> [(10,0)]` |
| FieldParserExamples.SecondTestLiteral | test/field-parser.js:19-21 | `parse("foo \$0 ${bar} ${1f}")` (source text `foo \$0 ${bar} ${1f}`) gives `foo \$0 $bar} $}` and no fields |
| FieldParserExamples.NestedLiteral | index.js:72-83 | `parse("${1:a{b}c}")` gives `a{b}c` with `1 -> [(5,5)]` |
| FieldParserExamples.InnerBraceLiteral | index.js:53-58 | `parse("${1:a{b}")` gives `$` and no fields |
| FieldParserExamples.UnterminatedLiteral | index.js:85-89 | `parse("${1:a{{b}")` throws with position 5 |
| FieldParserExamples.EscapedFieldLiteral | index.js:16-23 | `parse("${1:x}\${1:y}")` (source text `${1:x}\${1:y}`) gives `x\${1:y}` with `1 -> [(1,1)]` |

## Findings

| source | as written | input that shows it | evidently intended | confidence | as-written member | corrected member |
|---|---|---|---|---|---|---|
| index.js:106 | `result ? +number : null` reads `number`, a name declared nowhere, which throws a ReferenceError in the strict-mode module | `parse("$1")`, or any digit after `$` or `${` | `+result`, the decimal value of the digits read | high; not executed | FieldParser.NumberAsWritten, FieldParserProperties.NumberAsWrittenThrowsOnDigits | FieldParser.NumberValue |

The rest of the model uses `NumberValue`. `ConsumeNumber`,
`NumberIsZeroIffAllZeros` and `FieldShapes` state its properties.

## Left out

- `mark`: the test imports it, but index.js defines no such function. It is not part of this model.
- rollup.config.js: build configuration only.
- The test file test/field-parser.js itself (`assert`, `babel-register`). Its expectations appear only as the example lemmas, which state what the code actually produces.
- FieldParser.PlaceholderAt: the error message built at index.js:87 is left out. Its second `stack.pop()` names the next outer brace or `undefined`. The error carries only `err.pos` (index.js:88).
- FieldParser.Step: for a `\` at the very end of the text, it appends only the backslash. JavaScript's `ch + stream.next()` at index.js:17 would also append the text `undefined`.
- JavaScript coercions: `peek()` and `next()` past the end return `undefined`, and `/[0-9]/.test(undefined)` is false. These are modelled with `Option<char>`.
- FieldParser.NumberValue: indices are unbounded `nat`. JavaScript number precision for very long digit runs is not modelled.
- FieldParser.Parse: a thrown error is modelled as a `Failure` result.
- FieldParser.Parse: the JavaScript `Map` (index.js:12, 20-21) iterates its keys in the order they were first recorded. `map<nat, seq<Loc>>` has no key order, so the model says nothing about the order of keys. The order of the pairs under each key is kept.
- Streams.StringStream: JavaScript strings, `length`, `pos` and `err.pos` count UTF-16 code units. A Dafny `char` is a Unicode scalar value. For text with characters outside the Basic Multilingual Plane, every position, length and `Loc` after such a character differs from the JavaScript's, and the model does not split a surrogate pair.
- FieldParser.ConsumeField: the braced part of consumeField (index.js:49-59) is a separate method, `ConsumeBracedField`. It updates the same cursor in the same order.
