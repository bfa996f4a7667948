/** The inputs of the repository's parse test and three brace examples
    (nested, inner brace closed only, unterminated), evaluated on the model. Where a result differs from what the
    test expects, the lemma states what the code as written produces. Each
    input is a parameter whose characters the `requires` fixes one by one,
    and each evaluation is split into one lemma per token. */
module FieldParserExamples {
  import opened Wrappers
  import opened FieldParser
  import opened FieldParserProperties

  // Evaluation steps used by the examples below.

  lemma ParseOneStep(s: string, st: ParseState)
    requires st.pos < |s| && Step(s, st).Success?
    ensures ParseFrom(s, st) == ParseFrom(s, Step(s, st).value)
  {
  }

  lemma ParseAtEnd(s: string, st: ParseState)
    requires st.pos == |s|
    ensures ParseFrom(s, st) == Success(Parsed(st.fields, st.clean))
  {
  }

  /** A `$` whose field consumeField accepts contributes its placeholder
      and records where that placeholder ends. */
  lemma FieldAccepted(s: string, st: ParseState, f: Field, next: ParseState)
    requires st.pos < |s| && s[st.pos] == '$'
    requires FieldAt(s, st.pos + 1) == Attempt(Success(Some(f)), next.pos)
    requires next.clean == st.clean + f.placeholder
    requires next.fields == Record(st.fields, f.index, Loc(|next.clean|, |f.placeholder|))
    ensures ParseFrom(s, st) == ParseFrom(s, next)
  {
    StepWithField(s, st);
    ParseOneStep(s, st);
  }

  /** The digits from `i` to `j` are the whole run that starts at `i`. */
  ghost predicate DigitsBetween(s: string, i: nat, j: nat)
  {
    i <= j <= |s| && (forall k :: i <= k < j ==> IsDigit(s[k])) && (j == |s| || !IsDigit(s[j]))
  }

  lemma SingleDigit(s: string, i: nat)
    requires i < |s| && IsDigit(s[i])
    ensures AllDigits(s[i..i + 1])
    ensures NumberValue(s[i..i + 1]) == Some(s[i] as int - '0' as int)
  {
    var d := s[i..i + 1];
    assert d[..0] == [];
    assert DecimalValue(d) == DecimalValue([]) * 10 + (d[0] as int - '0' as int);
  }

  /** `$` then a `{`: the attempt continues with the braced forms. */
  lemma OpenBrace(s: string, i: nat)
    requires i < |s| && s[i] == '{'
    ensures FieldAt(s, i) == BracedFieldAt(s, i + 1)
  {
    DigitRunIsMaximal(s, i, i);
  }

  /** `$` then digits whose value is 0, followed by neither a digit nor a
      `{`: `if (index)` rejects the index. */
  lemma ZeroField(s: string, i: nat, j: nat)
    requires DigitsBetween(s, i, j) && NumberValue(s[i..j]) == Some(0)
    requires j == |s| || s[j] != '{'
    ensures FieldAt(s, i) == Attempt(Success(None), j)
  {
    DigitRunIsMaximal(s, i, j);
  }

  /** `{` followed by something other than a digit. */
  lemma BracedNoNumber(s: string, i: nat)
    requires i <= |s| && (i == |s| || !IsDigit(s[i]))
    ensures BracedFieldAt(s, i) == Attempt(Success(None), i)
  {
    DigitRunIsMaximal(s, i, i);
  }

  /** `{N` with a non-zero N and no `:` after it. */
  lemma BracedIndexOnly(s: string, i: nat, j: nat, v: nat)
    requires DigitsBetween(s, i, j) && NumberValue(s[i..j]) == Some(v) && v != 0
    requires j == |s| || s[j] != ':'
    ensures BracedFieldAt(s, i) == CloseAt(s, j, Field(v, ""))
  {
    DigitRunIsMaximal(s, i, j);
  }

  /** The placeholder scan from `i` stops at `e` with no brace left open. */
  lemma TextEndsAt(s: string, i: nat, e: nat)
    requires i <= |s| && ScanBraces(s, i, []) == BraceScan(e, [])
    ensures PlaceholderAt(s, i) == Success(s[i..e])
  {
  }

  /** The placeholder scan from `i` ends with the innermost open `{` at `p`. */
  lemma TextUnterminated(s: string, i: nat, open: seq<nat>, p: nat)
    requires i <= |s| && ScanBraces(s, i, []) == BraceScan(|s|, open + [p])
    ensures PlaceholderAt(s, i) == Failure(UnterminatedPlaceholder(p))
  {
  }

  /** `{N:text` with a non-zero N, whatever consumePlaceholder returns. */
  lemma BracedText(s: string, i: nat, j: nat, v: nat, t: string)
    requires i <= j < |s| && DigitRunEnd(s, i) == j && NumberValue(s[i..j]) == Some(v) && v != 0
    requires s[j] == ':' && PlaceholderAt(s, j + 1) == Success(t)
    ensures BracedFieldAt(s, i) == CloseAt(s, j + 1 + |t|, Field(v, t))
  {
    assert Truthy(NumberValue(s[i..j]));
  }

  /** `{N:text` with a non-zero N where consumePlaceholder throws. */
  lemma BracedTextFails(s: string, i: nat, j: nat, v: nat, e: ParseError)
    requires i <= j < |s| && DigitRunEnd(s, i) == j && NumberValue(s[i..j]) == Some(v) && v != 0
    requires s[j] == ':' && PlaceholderAt(s, j + 1) == Failure(e)
    ensures BracedFieldAt(s, i).outcome == Failure(e)
  {
    assert Truthy(NumberValue(s[i..j]));
  }

  /** The scan passes over characters that are not braces. */
  lemma {:induction false} ScanSkipsText(s: string, i: nat, j: nat, open: seq<nat>)
    requires i <= j <= |s|
    requires forall k :: i <= k < j ==> s[k] != '{' && s[k] != '}'
    ensures ScanBraces(s, i, open) == ScanBraces(s, j, open)
    decreases j - i
  {
    if i < j {
      ScanSkipsText(s, i + 1, j, open);
    }
  }

  /** Both test inputs start with `foo `, copied as it is. */
  lemma FooPrefix(s: string)
    requires |s| >= 4 && s[0] == 'f' && s[1] == 'o' && s[2] == 'o' && s[3] == ' '
    ensures ParseFrom(s, ParseState(0, "", map[])) == ParseFrom(s, ParseState(4, "foo ", map[]))
  {
    LiteralRunIsCopied(s, ParseState(0, "", map[]), 4);
    assert "" + s[0..4] == "foo ";
  }

  /** `$0`: the `0` is read, then `if (index)` rejects it and only the `$`
      is copied. */
  lemma FirstDollarZero(s: string)
    requires |s| > 6 && s[4] == '$' && s[5] == '0' && s[6] == ' '
    ensures ParseFrom(s, ParseState(4, "foo ", map[])) == ParseFrom(s, ParseState(6, "foo $", map[]))
  {
    SingleDigit(s, 5);
    ZeroField(s, 5, 6);
    FailedFieldKeepsOnlyDollar(s, ParseState(4, "foo ", map[]));
    assert "foo " + "$" == "foo $";
  }

  lemma FirstSpaces(s: string)
    requires |s| > 15 && s[6] == ' ' && s[15] == ' '
    ensures ParseFrom(s, ParseState(6, "foo $", map[])) == ParseFrom(s, ParseState(7, "foo $ ", map[]))
    ensures ParseFrom(s, ParseState(15, "foo $ bar", map[1 := [Loc(9, 3)]]))
         == ParseFrom(s, ParseState(16, "foo $ bar ", map[1 := [Loc(9, 3)]]))
  {
    LiteralIsCopied(s, ParseState(6, "foo $", map[]));
    assert "foo $" + [s[6]] == "foo $ ";
    LiteralIsCopied(s, ParseState(15, "foo $ bar", map[1 := [Loc(9, 3)]]));
    assert "foo $ bar" + [s[15]] == "foo $ bar ";
  }

  lemma FirstBarField(s: string)
    requires |s| >= 15 && s[8] == '{' && s[9] == '1' && s[10] == ':'
    requires s[11] == 'b' && s[12] == 'a' && s[13] == 'r' && s[14] == '}'
    ensures FieldAt(s, 8) == Attempt(Success(Some(Field(1, "bar"))), 15)
  {
    OpenBrace(s, 8);
    SingleDigit(s, 9);
    DigitRunIsMaximal(s, 9, 10);
    ScanSkipsText(s, 11, 14, []);
    assert ScanBraces(s, 14, []) == BraceScan(14, []);
    TextEndsAt(s, 11, 14);
    assert s[11..14] == "bar";
    BracedText(s, 9, 10, 1, "bar");
  }

  lemma FirstBar(s: string)
    requires |s| >= 15 && FieldAt(s, 8) == Attempt(Success(Some(Field(1, "bar"))), 15) && s[7] == '$'
    ensures ParseFrom(s, ParseState(7, "foo $ ", map[]))
         == ParseFrom(s, ParseState(15, "foo $ bar", map[1 := [Loc(9, 3)]]))
  {
    assert "foo $ " + "bar" == "foo $ bar";
    assert [] + [Loc(9, 3)] == [Loc(9, 3)];
    assert Record(map[], 1, Loc(9, 3)) == map[1 := [Loc(9, 3)]];
    FieldAccepted(s, ParseState(7, "foo $ ", map[]), Field(1, "bar"),
      ParseState(15, "foo $ bar", map[1 := [Loc(9, 3)]]));
  }

  lemma TwoHundred(s: string)
    requires |s| >= 21 && s[18] == '2' && s[19] == '0' && s[20] == '0'
    ensures AllDigits(s[18..21]) && NumberValue(s[18..21]) == Some(200)
  {
    assert s[18..21] == "200";
    assert "200"[..2] == "20" && "20"[..1] == "2" && "2"[..0] == [];
  }

  lemma First200Field(s: string)
    requires |s| >= 22 && s[17] == '{' && s[18] == '2' && s[19] == '0' && s[20] == '0' && s[21] == '}'
    ensures FieldAt(s, 17) == Attempt(Success(Some(Field(200, ""))), 22)
  {
    OpenBrace(s, 17);
    TwoHundred(s);
    BracedIndexOnly(s, 18, 21, 200);
  }

  lemma First200(s: string)
    requires |s| >= 22 && FieldAt(s, 17) == Attempt(Success(Some(Field(200, ""))), 22) && s[16] == '$'
    ensures ParseFrom(s, ParseState(16, "foo $ bar ", map[1 := [Loc(9, 3)]]))
         == ParseFrom(s, ParseState(22, "foo $ bar ", map[1 := [Loc(9, 3)], 200 := [Loc(10, 0)]]))
  {
    var clean := "foo $ bar ";
    var before := map[1 := [Loc(9, 3)]];
    assert clean + "" == clean;
    assert 200 !in before && [] + [Loc(10, 0)] == [Loc(10, 0)];
    assert Record(before, 200, Loc(10, 0)) == before[200 := [Loc(10, 0)]];
    FieldAccepted(s, ParseState(16, clean, before), Field(200, ""),
      ParseState(22, clean, before[200 := [Loc(10, 0)]]));
  }

  lemma FirstLastOneField(s: string)
    requires |s| == 26 && s[23] == '{' && s[24] == '1' && s[25] == '}'
    ensures FieldAt(s, 23) == Attempt(Success(Some(Field(1, ""))), 26)
  {
    OpenBrace(s, 23);
    SingleDigit(s, 24);
    BracedIndexOnly(s, 24, 25, 1);
  }

  lemma FirstLastOne(s: string)
    requires |s| == 26 && FieldAt(s, 23) == Attempt(Success(Some(Field(1, ""))), 26) && s[22] == '$'
    ensures ParseFrom(s, ParseState(22, "foo $ bar ", map[1 := [Loc(9, 3)], 200 := [Loc(10, 0)]]))
         == Success(Parsed(map[1 := [Loc(9, 3), Loc(10, 0)], 200 := [Loc(10, 0)]], "foo $ bar "))
  {
    assert "foo $ bar " + "" == "foo $ bar ";
    assert [Loc(9, 3)] + [Loc(10, 0)] == [Loc(9, 3), Loc(10, 0)];
    assert Record(map[1 := [Loc(9, 3)], 200 := [Loc(10, 0)]], 1, Loc(10, 0))
        == map[1 := [Loc(9, 3), Loc(10, 0)], 200 := [Loc(10, 0)]];
    FieldAccepted(s, ParseState(22, "foo $ bar ", map[1 := [Loc(9, 3)], 200 := [Loc(10, 0)]]), Field(1, ""),
      ParseState(26, "foo $ bar ", map[1 := [Loc(9, 3), Loc(10, 0)], 200 := [Loc(10, 0)]]));
    ParseAtEnd(s, ParseState(26, "foo $ bar ", map[1 := [Loc(9, 3), Loc(10, 0)], 200 := [Loc(10, 0)]]));
  }

  /** `s` is the text `foo $0 ${1:bar} ${200}${1}`, character by character. */
  ghost predicate FirstChars(s: string)
  {
    |s| == 26 && s[0] == 'f' && s[1] == 'o' && s[2] == 'o' && s[3] == ' ' &&
      s[4] == '$' && s[5] == '0' && s[6] == ' ' && s[7] == '$' && s[8] == '{' && s[9] == '1' &&
      s[10] == ':' && s[11] == 'b' && s[12] == 'a' && s[13] == 'r' && s[14] == '}' &&
      s[15] == ' ' && s[16] == '$' && s[17] == '{' && s[18] == '2' && s[19] == '0' &&
      s[20] == '0' && s[21] == '}' && s[22] == '$' && s[23] == '{' && s[24] == '1' && s[25] == '}'
  }

  /** The first input of the repository's parse test. The code as written
      gives clean string "foo $ bar " (the test expects "foo  bar "), drops
      the field `$0`, and records end offsets grouped by index:
      `1 -> [(9, 3), (10, 0)]`, `200 -> [(10, 0)]`. */
  lemma FirstTestInput(s: string)
    requires FirstChars(s)
    ensures ParseSpec(s)
         == Success(Parsed(map[1 := [Loc(9, 3), Loc(10, 0)], 200 := [Loc(10, 0)]], "foo $ bar "))
  {
    FooPrefix(s);
    FirstDollarZero(s);
    FirstSpaces(s);
    FirstBarField(s);
    FirstBar(s);
    First200Field(s);
    First200(s);
    FirstLastOneField(s);
    FirstLastOne(s);
  }

  lemma SecondEscape(s: string)
    requires |s| > 5 && s[4] == '\\' && s[5] == '$'
    ensures ParseFrom(s, ParseState(4, "foo ", map[])) == ParseFrom(s, ParseState(6, "foo \\$", map[]))
  {
    EscapeIsCopied(s, ParseState(4, "foo ", map[]));
    assert "foo " + s[4..6] == "foo \\$";
  }

  lemma SecondZero(s: string)
    requires |s| >= 8 && s[6] == '0' && s[7] == ' '
    ensures ParseFrom(s, ParseState(6, "foo \\$", map[])) == ParseFrom(s, ParseState(8, "foo \\$0 ", map[]))
  {
    LiteralRunIsCopied(s, ParseState(6, "foo \\$", map[]), 8);
    assert "foo \\$" + s[6..8] == "foo \\$0 ";
  }

  /** `${bar}`: no digits after the `{`; the attempt ends there. */
  lemma SecondNoDigits(s: string)
    requires |s| > 10 && s[8] == '$' && s[9] == '{' && s[10] == 'b'
    ensures ParseFrom(s, ParseState(8, "foo \\$0 ", map[])) == ParseFrom(s, ParseState(10, "foo \\$0 $", map[]))
  {
    OpenBrace(s, 9);
    BracedNoNumber(s, 10);
    FailedFieldKeepsOnlyDollar(s, ParseState(8, "foo \\$0 ", map[]));
    assert "foo \\$0 " + "$" == "foo \\$0 $";
  }

  lemma SecondBar(s: string)
    requires |s| >= 15 && s[10] == 'b' && s[11] == 'a' && s[12] == 'r' && s[13] == '}' && s[14] == ' '
    ensures ParseFrom(s, ParseState(10, "foo \\$0 $", map[])) == ParseFrom(s, ParseState(15, "foo \\$0 $bar} ", map[]))
  {
    LiteralRunIsCopied(s, ParseState(10, "foo \\$0 $", map[]), 15);
    assert "foo \\$0 $" + s[10..15] == "foo \\$0 $bar} ";
  }

  /** `${1f}`: the character after the index is consumed as the closing
      brace and is not one. */
  lemma SecondBadClose(s: string)
    requires |s| > 18 && s[15] == '$' && s[16] == '{' && s[17] == '1' && s[18] == 'f'
    ensures ParseFrom(s, ParseState(15, "foo \\$0 $bar} ", map[])) == ParseFrom(s, ParseState(19, "foo \\$0 $bar} $", map[]))
  {
    OpenBrace(s, 16);
    SingleDigit(s, 17);
    BracedIndexOnly(s, 17, 18, 1);
    FailedFieldKeepsOnlyDollar(s, ParseState(15, "foo \\$0 $bar} ", map[]));
    assert "foo \\$0 $bar} " + "$" == "foo \\$0 $bar} $";
  }

  lemma SecondEnd(s: string)
    requires |s| == 20 && s[19] == '}'
    ensures ParseFrom(s, ParseState(19, "foo \\$0 $bar} $", map[])) == Success(Parsed(map[], "foo \\$0 $bar} $}"))
  {
    LiteralIsCopied(s, ParseState(19, "foo \\$0 $bar} $", map[]));
    assert "foo \\$0 $bar} $" + [s[19]] == "foo \\$0 $bar} $}";
    ParseAtEnd(s, ParseState(20, "foo \\$0 $bar} $}", map[]));
  }

  /** `s` is the text `foo \$0 ${bar} ${1f}`, character by character. */
  ghost predicate SecondChars(s: string)
  {
    |s| == 20 && s[0] == 'f' && s[1] == 'o' && s[2] == 'o' && s[3] == ' ' &&
      s[4] == '\\' && s[5] == '$' && s[6] == '0' && s[7] == ' ' && s[8] == '$' && s[9] == '{' &&
      s[10] == 'b' && s[11] == 'a' && s[12] == 'r' && s[13] == '}' && s[14] == ' ' &&
      s[15] == '$' && s[16] == '{' && s[17] == '1' && s[18] == 'f' && s[19] == '}'
  }

  /** The second input of the repository's parse test. The escaped `$0` is
      copied, but the failed attempts `${bar}` and `${1f}` lose the
      characters they read (`{`, and `{1f`): the clean string is
      "foo \\$0 $bar} $}", not the input as the test expects. */
  lemma SecondTestInput(s: string)
    requires SecondChars(s)
    ensures ParseSpec(s) == Success(Parsed(map[], "foo \\$0 $bar} $}"))
  {
    FooPrefix(s);
    SecondEscape(s);
    SecondZero(s);
    SecondNoDigits(s);
    SecondBar(s);
    SecondBadClose(s);
    SecondEnd(s);
  }

  /** The placeholder scan of `${1:a{b}c}` from the `a`: the inner pair is
      matched and the scan stops at the last `}`. */
  lemma NestedScan(s: string)
    requires |s| == 10 && s[4] == 'a' && s[5] == '{' && s[6] == 'b' && s[7] == '}' && s[8] == 'c' && s[9] == '}'
    ensures ScanBraces(s, 4, []) == BraceScan(9, [])
  {
    ScanSkipsText(s, 4, 5, []);
    ScanSkipsText(s, 6, 7, [5]);
    ScanSkipsText(s, 8, 9, []);
    assert [5][..0] == [];
    assert [] + [5] == [5];
  }

  lemma NestedField(s: string)
    requires |s| == 10 && s[1] == '{' && s[2] == '1' && s[3] == ':'
    requires s[4] == 'a' && s[5] == '{' && s[6] == 'b' && s[7] == '}' && s[8] == 'c' && s[9] == '}'
    ensures FieldAt(s, 1) == Attempt(Success(Some(Field(1, "a{b}c"))), 10)
  {
    OpenBrace(s, 1);
    SingleDigit(s, 2);
    NestedScan(s);
    DigitRunIsMaximal(s, 2, 3);
    TextEndsAt(s, 4, 9);
    assert s[4..9] == "a{b}c";
    BracedText(s, 2, 3, 1, "a{b}c");
  }

  /** `s` is the text `${1:a{b}c}`, character by character. */
  ghost predicate NestedChars(s: string)
  {
    |s| == 10 && s[0] == '$' && s[1] == '{' && s[2] == '1' && s[3] == ':' &&
      s[4] == 'a' && s[5] == '{' && s[6] == 'b' && s[7] == '}' && s[8] == 'c' && s[9] == '}'
  }

  /** Nested braces in placeholder text: `a{b}c` is one placeholder. */
  lemma NestedPlaceholder(s: string)
    requires NestedChars(s)
    ensures ParseSpec(s) == Success(Parsed(map[1 := [Loc(5, 5)]], "a{b}c"))
  {
    NestedField(s);
    assert "" + "a{b}c" == "a{b}c";
    assert [] + [Loc(5, 5)] == [Loc(5, 5)];
    assert Record(map[], 1, Loc(5, 5)) == map[1 := [Loc(5, 5)]];
    FieldAccepted(s, ParseState(0, "", map[]), Field(1, "a{b}c"), ParseState(10, "a{b}c", map[1 := [Loc(5, 5)]]));
    ParseAtEnd(s, ParseState(10, "a{b}c", map[1 := [Loc(5, 5)]]));
  }

  lemma InnerBraceField(s: string)
    requires |s| == 8 && s[1] == '{' && s[2] == '1' && s[3] == ':'
    requires s[4] == 'a' && s[5] == '{' && s[6] == 'b' && s[7] == '}'
    ensures FieldAt(s, 1) == Attempt(Success(None), 8)
  {
    OpenBrace(s, 1);
    SingleDigit(s, 2);
    ScanSkipsText(s, 4, 5, []);
    ScanSkipsText(s, 6, 7, [5]);
    assert [5][..0] == [];
    assert [] + [5] == [5];
    assert ScanBraces(s, 4, []) == BraceScan(8, []);
    DigitRunIsMaximal(s, 2, 3);
    TextEndsAt(s, 4, 8);
    BracedText(s, 2, 3, 1, s[4..8]);
  }

  /** `s` is the text `${1:a{b}`, character by character. */
  ghost predicate InnerBraceChars(s: string)
  {
    |s| == 8 && s[0] == '$' && s[1] == '{' && s[2] == '1' && s[3] == ':' && s[4] == 'a' &&
      s[5] == '{' && s[6] == 'b' && s[7] == '}'
  }

  /** `${1:a{b}` does not throw: the `}` closes the inner `{`, the scan
      reaches the end with no brace open, and the missing closing `}` makes
      the attempt fail after it has read the whole rest of the text. */
  lemma InnerBraceClosedOnly(s: string)
    requires InnerBraceChars(s)
    ensures ParseSpec(s) == Success(Parsed(map[], "$"))
  {
    InnerBraceField(s);
    FailedFieldKeepsOnlyDollar(s, ParseState(0, "", map[]));
    assert "" + "$" == "$";
    ParseAtEnd(s, ParseState(8, "$", map[]));
  }

  lemma UnterminatedField(s: string)
    requires |s| == 9 && s[1] == '{' && s[2] == '1' && s[3] == ':'
    requires s[4] == 'a' && s[5] == '{' && s[6] == '{' && s[7] == 'b' && s[8] == '}'
    ensures FieldAt(s, 1).outcome == Failure(UnterminatedPlaceholder(5))
  {
    OpenBrace(s, 1);
    SingleDigit(s, 2);
    ScanSkipsText(s, 4, 5, []);
    ScanSkipsText(s, 7, 8, [5, 6]);
    assert [5, 6][..1] == [5];
    assert [5] + [6] == [5, 6];
    assert [] + [5] == [5];
    assert ScanBraces(s, 4, []) == BraceScan(9, [] + [5]);
    DigitRunIsMaximal(s, 2, 3);
    TextUnterminated(s, 4, [], 5);
    BracedTextFails(s, 2, 3, 1, UnterminatedPlaceholder(5));
  }

  /** `s` is the text `${1:a{{b}`, character by character. */
  ghost predicate UnterminatedChars(s: string)
  {
    |s| == 9 && s[0] == '$' && s[1] == '{' && s[2] == '1' && s[3] == ':' && s[4] == 'a' &&
      s[5] == '{' && s[6] == '{' && s[7] == 'b' && s[8] == '}'
  }

  /** `${1:a{{b}` throws, reporting the outer `{` at position 5: it is the
      innermost one left open. */
  lemma UnterminatedPlaceholderExample(s: string)
    requires UnterminatedChars(s)
    ensures ParseSpec(s) == Failure(UnterminatedPlaceholder(5))
  {
    UnterminatedField(s);
    assert Step(s, ParseState(0, "", map[])) == Failure(UnterminatedPlaceholder(5));
  }

  /** `{1:c}` at `i`, with `c` not a brace, is the field of index 1 with
      placeholder `c`. */
  lemma OneLetterField(s: string, i: nat)
    requires i + 5 <= |s| && s[i] == '{' && s[i + 1] == '1' && s[i + 2] == ':'
    requires s[i + 3] != '{' && s[i + 3] != '}' && s[i + 4] == '}'
    ensures FieldAt(s, i) == Attempt(Success(Some(Field(1, [s[i + 3]]))), i + 5)
  {
    OpenBrace(s, i);
    SingleDigit(s, i + 1);
    ScanSkipsText(s, i + 3, i + 4, []);
    assert ScanBraces(s, i + 3, []) == BraceScan(i + 4, []);
    DigitRunIsMaximal(s, i + 1, i + 2);
    TextEndsAt(s, i + 3, i + 4);
    assert s[i + 3..i + 4] == [s[i + 3]];
    BracedText(s, i + 1, i + 2, 1, [s[i + 3]]);
  }

  /** `s` is the text `${1:x}\${1:y}`, character by character. */
  ghost predicate EscapedFieldChars(s: string)
  {
    |s| == 13 && s[0] == '$' && s[1] == '{' && s[2] == '1' && s[3] == ':' && s[4] == 'x' &&
      s[5] == '}' && s[6] == '\\' && s[7] == '$' && s[8] == '{' && s[9] == '1' && s[10] == ':' &&
      s[11] == 'y' && s[12] == '}'
  }

  lemma EscapedFieldTail(s: string)
    requires EscapedFieldChars(s)
    ensures ParseFrom(s, ParseState(6, "x", map[1 := [Loc(1, 1)]]))
         == Success(Parsed(map[1 := [Loc(1, 1)]], "x\\${1:y}"))
  {
    var m := map[1 := [Loc(1, 1)]];
    EscapeIsCopied(s, ParseState(6, "x", m));
    assert "x" + s[6..8] == "x\\$";
    LiteralRunIsCopied(s, ParseState(8, "x\\$", m), 13);
    assert "x\\$" + s[8..13] == "x\\${1:y}";
    ParseAtEnd(s, ParseState(13, "x\\${1:y}", m));
  }

  /** The escaped `$` of `${1:x}\${1:y}` is followed by text consumeField
      would accept as a field of index 1, yet parse never starts an
      iteration there: only the first field is recorded. */
  lemma EscapedFieldNotRecorded(s: string)
    requires EscapedFieldChars(s)
    ensures FieldAt(s, 8).outcome == Success(Some(Field(1, "y")))
    ensures ParseSpec(s) == Success(Parsed(map[1 := [Loc(1, 1)]], "x\\${1:y}"))
  {
    OneLetterField(s, 8);
    OneLetterField(s, 1);
    assert "" + [s[4]] == "x";
    assert [] + [Loc(1, 1)] == [Loc(1, 1)];
    assert Record(map[], 1, Loc(1, 1)) == map[1 := [Loc(1, 1)]];
    FieldAccepted(s, ParseState(0, "", map[]), Field(1, "x"), ParseState(6, "x", map[1 := [Loc(1, 1)]]));
    EscapedFieldTail(s);
  }

  // The same results, stated on the inputs written as strings.

  lemma FirstLiteralHead()
    ensures var s := "foo $0 ${1:bar} ${200}${1}";
      |s| == 26 && s[0] == 'f' && s[1] == 'o' && s[2] == 'o' && s[3] == ' ' &&
      s[4] == '$' && s[5] == '0' && s[6] == ' ' && s[7] == '$' && s[8] == '{'
  {
  }

  lemma FirstLiteralMiddle()
    ensures var s := "foo $0 ${1:bar} ${200}${1}";
      s[9] == '1' && s[10] == ':' && s[11] == 'b' && s[12] == 'a' && s[13] == 'r' && s[14] == '}' &&
      s[15] == ' ' && s[16] == '$'
  {
  }

  lemma FirstLiteralTail()
    ensures var s := "foo $0 ${1:bar} ${200}${1}";
      s[17] == '{' && s[18] == '2' && s[19] == '0' && s[20] == '0' && s[21] == '}' &&
      s[22] == '$' && s[23] == '{' && s[24] == '1' && s[25] == '}'
  {
  }

  lemma FirstLiteralChars()
    ensures FirstChars("foo $0 ${1:bar} ${200}${1}")
  {
    FirstLiteralHead();
    FirstLiteralMiddle();
    FirstLiteralTail();
  }

  lemma FirstTestLiteral()
    ensures ParseSpec("foo $0 ${1:bar} ${200}${1}")
         == Success(Parsed(map[1 := [Loc(9, 3), Loc(10, 0)], 200 := [Loc(10, 0)]], "foo $ bar "))
  {
    FirstLiteralChars();
    FirstTestInput("foo $0 ${1:bar} ${200}${1}");
  }

  lemma SecondTestLiteral()
    ensures ParseSpec("foo \\$0 ${bar} ${1f}") == Success(Parsed(map[], "foo \\$0 $bar} $}"))
  {
    SecondTestInput("foo \\$0 ${bar} ${1f}");
  }

  lemma NestedLiteral()
    ensures ParseSpec("${1:a{b}c}") == Success(Parsed(map[1 := [Loc(5, 5)]], "a{b}c"))
  {
    NestedPlaceholder("${1:a{b}c}");
  }

  lemma InnerBraceLiteral()
    ensures ParseSpec("${1:a{b}") == Success(Parsed(map[], "$"))
  {
    InnerBraceClosedOnly("${1:a{b}");
  }

  lemma UnterminatedLiteral()
    ensures ParseSpec("${1:a{{b}") == Failure(UnterminatedPlaceholder(5))
  {
    UnterminatedPlaceholderExample("${1:a{{b}");
  }

  lemma EscapedFieldLiteral()
    ensures ParseSpec("${1:x}\\${1:y}") == Success(Parsed(map[1 := [Loc(1, 1)]], "x\\${1:y}"))
  {
    EscapedFieldNotRecorded("${1:x}\\${1:y}");
  }
}
