/** The tabstop-field scanner of index.js.

    Every routine of index.js that advances the shared cursor is a method on
    a `StringStream`; each is proved equal to a pure function of the text and
    the starting position (`DigitRunEnd` and `NumberValue`, `PlaceholderAt`,
    `FieldAt`, `Step`, `ParseFrom`), and the properties of the scanner are lemmas about those
    functions (module FieldParserProperties). */
module FieldParser {
  import opened Wrappers
  import opened Streams

  /** A recognised field token: `$N`, `${N}` or `${N:text}`. */
  datatype Field = Field(index: nat, placeholder: string)

  /** The one error the scanner throws: an unmatched `{` inside placeholder
      text, carrying the position of the innermost such brace (index.js:88). */
  datatype ParseError = UnterminatedPlaceholder(pos: nat)

  /** One recorded occurrence of a field, the pair
      `[cleanString.length, placeholder.length]` of index.js:23: `pos` is the
      length of the clean string right AFTER the placeholder was appended. */
  datatype Loc = Loc(pos: nat, length: nat)

  /** The value `parse` returns: the `fields` Map from index to occurrences,
      in scan order, and the clean string. */
  datatype Parsed = Parsed(fields: map<nat, seq<Loc>>, str: string)

  // ---------------------------------------------------------------------
  // consumeNumber (index.js:100-107)

  predicate IsDigit(c: char)
  {
    '0' <= c <= '9'
  }

  predicate AllDigits(ds: string)
  {
    forall k :: 0 <= k < |ds| ==> IsDigit(ds[k])
  }

  /** The end of the maximal run of ASCII digits that starts at `i`. */
  function DigitRunEnd(s: string, i: nat): (j: nat)
    requires i <= |s|
    ensures i <= j <= |s|
    ensures AllDigits(s[i..j])
    ensures j == |s| || !IsDigit(s[j])
    decreases |s| - i
  {
    if i < |s| && IsDigit(s[i]) then DigitRunEnd(s, i + 1) else i
  }

  /** The decimal value of a run of digits, most significant digit first. */
  function DecimalValue(ds: string): (r: nat)
    requires AllDigits(ds)
    ensures r == 0 <==> forall k :: 0 <= k < |ds| ==> ds[k] == '0'
  {
    if ds == [] then 0
    else
      var init := ds[..|ds| - 1];
      assert forall k :: 0 <= k < |init| ==> init[k] == ds[k];
      DecimalValue(init) * 10 + (ds[|ds| - 1] as int - '0' as int)
  }

  /** What consumeNumber returns for the digits it read: `null` when it read
      none, otherwise their value. index.js:106 writes `+number`, a name that
      is not defined; this is the evidently intended `+result`. */
  function NumberValue(ds: string): (r: Option<nat>)
    requires AllDigits(ds)
    ensures r.None? <==> ds == []
  {
    if ds == [] then None else Some(DecimalValue(ds))
  }

  /** index.js:106 as written: `number` is not a declared name, so in the
      strict-mode module evaluating `+number` throws a ReferenceError. The
      conditional evaluates it only when `result` is non-empty, that is
      whenever at least one digit was read. */
  function NumberAsWritten(ds: string): (r: Result<Option<nat>, string>)
    ensures r.Failure? <==> ds != []
    ensures r.Success? ==> r.value.None?
  {
    if ds == [] then Success(None) else Failure("ReferenceError: number is not defined")
  }

  /** JavaScript's truthiness test `if (index)` on consumeNumber's result:
      `null` and `0` both count as "no number" (index.js:44, 50). */
  function Truthy(index: Option<nat>): (b: bool)
    ensures index == None ==> !b
    ensures index == Some(0) ==> !b
    ensures index.Some? && index.value > 0 ==> b
  {
    index.Some? && index.value != 0
  }

  method ConsumeNumber(stream: StringStream) returns (r: Option<nat>)
    requires stream.Valid()
    modifies stream`pos
    ensures stream.Valid()
    ensures stream.pos == DigitRunEnd(stream.str, old(stream.pos))
    ensures r == NumberValue(stream.str[old(stream.pos)..stream.pos])
    ensures r.None? <==> stream.pos == old(stream.pos)
  {
    ghost var start := stream.pos;
    var result := "";
    var c := stream.Peek();
    while c.Some? && IsDigit(c.value)
      invariant stream.Valid()
      invariant start <= stream.pos
      invariant DigitRunEnd(stream.str, stream.pos) == DigitRunEnd(stream.str, start)
      invariant result == stream.str[start..stream.pos]
      invariant c == CharAt(stream.str, stream.pos)
      decreases stream.len - stream.pos
    {
      var d := stream.Next();
      result := result + [d.value];
      c := stream.Peek();
    }
    r := if result == "" then None else Some(DecimalValue(result));
  }

  // ---------------------------------------------------------------------
  // consumePlaceholder (index.js:68-93)

  /** Where the placeholder scan stops, and the positions of the `{` still
      open there (the `stack` of index.js:70), innermost last. */
  datatype BraceScan = BraceScan(end: nat, open: seq<nat>)

  /** The loop of index.js:72-83 from position `i` with open braces `open`:
      it stops at the end of the text or on a `}` that closes nothing. */
  function ScanBraces(s: string, i: nat, open: seq<nat>): (r: BraceScan)
    requires i <= |s|
    ensures i <= r.end <= |s|
    ensures r.end < |s| ==> s[r.end] == '}' && r.open == []
    decreases |s| - i
  {
    if i == |s| then BraceScan(i, open)
    else if s[i] == '{' then ScanBraces(s, i + 1, open + [i])
    else if s[i] == '}' then
      if open == [] then BraceScan(i, open) else ScanBraces(s, i + 1, open[..|open| - 1])
    else ScanBraces(s, i + 1, open)
  }

  /** consumePlaceholder started at `start`: the text up to the terminating
      `}` (or the end), or the innermost unmatched `{` when the text ends with
      braces still open. */
  function PlaceholderAt(s: string, start: nat): (r: Result<string, ParseError>)
    requires start <= |s|
    ensures r.Success? ==> start + |r.value| <= |s| && r.value == s[start..start + |r.value|]
    ensures r.Failure? ==> start <= r.error.pos < |s| && s[r.error.pos] == '{'
  {
    var scan := ScanBraces(s, start, []);
    if scan.open != [] then
      assert OpenBracesAt(s, start, scan.end, scan.open) by { ScanKeepsOpenBraces(s, start, start, []); }
      Failure(UnterminatedPlaceholder(scan.open[|scan.open| - 1]))
    else Success(s[start..scan.end])
  }

  /** Every recorded position lies in [start, end) and holds a `{`. */
  ghost predicate OpenBracesAt(s: string, start: nat, end: nat, open: seq<nat>)
  {
    forall k :: 0 <= k < |open| ==> start <= open[k] < end <= |s| && s[open[k]] == '{'
  }

  lemma {:induction false} ScanKeepsOpenBraces(s: string, start: nat, i: nat, open: seq<nat>)
    requires start <= i <= |s|
    requires OpenBracesAt(s, start, i, open)
    ensures OpenBracesAt(s, start, ScanBraces(s, i, open).end, ScanBraces(s, i, open).open)
    decreases |s| - i
  {
    if i == |s| {
    } else if s[i] == '{' {
      ScanKeepsOpenBraces(s, start, i + 1, open + [i]);
    } else if s[i] == '}' {
      if open != [] { ScanKeepsOpenBraces(s, start, i + 1, open[..|open| - 1]); }
    } else {
      ScanKeepsOpenBraces(s, start, i + 1, open);
    }
  }

  method ConsumePlaceholder(stream: StringStream) returns (r: Result<string, ParseError>)
    requires stream.Valid()
    modifies stream`pos
    ensures stream.Valid()
    ensures r == PlaceholderAt(stream.str, old(stream.pos))
    ensures stream.pos == ScanBraces(stream.str, old(stream.pos), []).end
    ensures r.Success? ==> r.value == stream.str[old(stream.pos)..stream.pos]
  {
    var start := stream.pos;
    var stack: seq<nat> := [];
    var eol := stream.Eol();
    while !eol
      invariant stream.Valid()
      invariant start <= stream.pos
      invariant ScanBraces(stream.str, stream.pos, stack) == ScanBraces(stream.str, start, [])
      invariant eol <==> stream.pos >= stream.len
      decreases stream.len - stream.pos
    {
      var ch := stream.Peek();
      if ch == Some('{') {
        stack := stack + [stream.pos];
      } else if ch == Some('}') {
        if stack == [] {
          break;
        }
        stack := stack[..|stack| - 1];
      }
      stream.pos := stream.pos + 1;
      eol := stream.Eol();
    }

    if stack != [] {
      var pos := stack[|stack| - 1];
      return Failure(UnterminatedPlaceholder(pos));
    }
    return Success(stream.str[start..stream.pos]);
  }

  // ---------------------------------------------------------------------
  // consumeField (index.js:39-61)

  /** One attempt at a field: what consumeField returns (`Success(None)` is
      its `undefined`, `Failure` the error it lets through) and where it
      leaves the cursor. Nothing restores the cursor after a failed attempt. */
  datatype Attempt = Attempt(outcome: Result<Option<Field>, ParseError>, end: nat)

  /** The closing `stream.next() === '}'` of index.js:56 at position `j`: it
      consumes one character, if there is one, whatever that character is. */
  function CloseAt(s: string, j: nat, f: Field): (a: Attempt)
    requires j <= |s|
    ensures a.outcome.Success?
    ensures a.outcome.value.Some? <==> j < |s| && s[j] == '}'
    ensures a.end == if j < |s| then j + 1 else j
  {
    if j < |s| && s[j] == '}' then Attempt(Success(Some(f)), j + 1)
    else if j < |s| then Attempt(Success(None), j + 1)
    else Attempt(Success(None), j)
  }

  /** consumeField started at `i`, just after a `$`. */
  function FieldAt(s: string, i: nat): (a: Attempt)
    requires i <= |s|
    ensures i <= a.end <= |s|
    ensures a.outcome.Success? && a.outcome.value.Some? ==> a.outcome.value.value.index > 0
    ensures a.outcome.Failure? ==> i <= a.outcome.error.pos < |s| && s[a.outcome.error.pos] == '{'
  {
    var n := DigitRunEnd(s, i);
    var index := NumberValue(s[i..n]);
    if Truthy(index) then Attempt(Success(Some(Field(index.value, ""))), n)
    else if n < |s| && s[n] == '{' then BracedFieldAt(s, n + 1)
    else Attempt(Success(None), n)
  }

  /** The braced forms `{N}` and `{N:text}`, from just after the `{`
      (index.js:49-59). */
  function BracedFieldAt(s: string, i: nat): (a: Attempt)
    requires i <= |s|
    ensures i <= a.end <= |s|
    ensures a.outcome.Success? && a.outcome.value.Some? ==> a.outcome.value.value.index > 0
    ensures a.outcome.Failure? ==> i <= a.outcome.error.pos < |s| && s[a.outcome.error.pos] == '{'
  {
    var m := DigitRunEnd(s, i);
    var index := NumberValue(s[i..m]);
    if !Truthy(index) then Attempt(Success(None), m)
    else if m < |s| && s[m] == ':' then
      match PlaceholderAt(s, m + 1)
      case Failure(e) => Attempt(Failure(e), ScanBraces(s, m + 1, []).end)
      case Success(t) => CloseAt(s, m + 1 + |t|, Field(index.value, t))
    else CloseAt(s, m, Field(index.value, ""))
  }

  method ConsumeField(stream: StringStream) returns (r: Result<Option<Field>, ParseError>)
    requires stream.Valid()
    modifies stream`pos
    ensures stream.Valid()
    ensures Attempt(r, stream.pos) == FieldAt(stream.str, old(stream.pos))
  {
    var index := ConsumeNumber(stream);
    if Truthy(index) {
      return Success(Some(Field(index.value, "")));
    }

    var c := stream.Peek();
    if c == Some('{') {
      c := stream.Next();
      r := ConsumeBracedField(stream);
      return;
    }
    return Success(None);
  }

  /** The part of consumeField after the `{` (index.js:49-59). */
  method ConsumeBracedField(stream: StringStream) returns (r: Result<Option<Field>, ParseError>)
    requires stream.Valid()
    modifies stream`pos
    ensures stream.Valid()
    ensures Attempt(r, stream.pos) == BracedFieldAt(stream.str, old(stream.pos))
  {
    var index := ConsumeNumber(stream);
    var placeholder := "";
    if Truthy(index) {
      var c := stream.Peek();
      if c == Some(':') {
        c := stream.Next();
        var text := ConsumePlaceholder(stream);
        if text.Failure? {
          return Failure(text.error);
        }
        placeholder := text.value;
      }
      c := stream.Next();
      if c == Some('}') {
        return Success(Some(Field(index.value, placeholder)));
      }
    }
    return Success(None);
  }

  // ---------------------------------------------------------------------
  // parse (index.js:9-30)

  /** The loop variables of parse: the cursor, `cleanString` and `fields`. */
  datatype ParseState = ParseState(pos: nat, clean: string, fields: map<nat, seq<Loc>>)

  /** index.js:20-23: append `loc` to the occurrences of `index`, creating
      the entry the first time the index is seen. */
  function Record(fields: map<nat, seq<Loc>>, index: nat, loc: Loc): (r: map<nat, seq<Loc>>)
    ensures r.Keys == fields.Keys + {index}
    ensures r[index] == (if index in fields then fields[index] else []) + [loc]
    ensures forall k :: k in fields && k != index ==> r[k] == fields[k]
  {
    fields[index := (if index in fields then fields[index] else []) + [loc]]
  }

  /** One iteration of the loop of index.js:14-27, reading the character at
      `st.pos`. A `\\` at the very end of the text appends only the
      backslash (in JavaScript `ch + stream.next()` would append the text
      "undefined" as well). */
  function Step(s: string, st: ParseState): (r: Result<ParseState, ParseError>)
    requires st.pos < |s|
    ensures r.Success? ==> st.pos < r.value.pos <= |s|
  {
    var ch := s[st.pos];
    var i := st.pos + 1;
    if ch == '\\' then
      if i < |s| then Success(ParseState(i + 1, st.clean + [ch, s[i]], st.fields))
      else Success(ParseState(i, st.clean + [ch], st.fields))
    else if ch == '$' then
      var a := FieldAt(s, i);
      match a.outcome
      case Failure(e) => Failure(e)
      case Success(None) => Success(ParseState(a.end, st.clean + [ch], st.fields))
      case Success(Some(f)) =>
        var clean := st.clean + f.placeholder;
        Success(ParseState(a.end, clean, Record(st.fields, f.index, Loc(|clean|, |f.placeholder|))))
    else Success(ParseState(i, st.clean + [ch], st.fields))
  }

  /** The loop of index.js:14-27 run from state `st` to the end of the text. */
  function ParseFrom(s: string, st: ParseState): (r: Result<Parsed, ParseError>)
    requires st.pos <= |s|
    ensures r.Success? && 0 !in st.fields ==> 0 !in r.value.fields
    ensures r.Failure? ==> st.pos <= r.error.pos < |s| && s[r.error.pos] == '{'
    decreases |s| - st.pos
  {
    if st.pos == |s| then Success(Parsed(st.fields, st.clean))
    else
      match Step(s, st)
      case Failure(e) => Failure(e)
      case Success(next) => ParseFrom(s, next)
  }

  /** What `parse(s)` returns, or the error it throws. */
  function ParseSpec(s: string): (r: Result<Parsed, ParseError>)
    ensures r.Success? ==> 0 !in r.value.fields
    ensures r.Failure? ==> r.error.pos < |s| && s[r.error.pos] == '{'
  {
    ParseFrom(s, ParseState(0, "", map[]))
  }

  method Parse(s: string) returns (r: Result<Parsed, ParseError>)
    ensures r == ParseSpec(s)
  {
    var stream := new StringStream(s);
    var cleanString := "";
    var fields: map<nat, seq<Loc>> := map[];

    var eol := stream.Eol();
    while !eol
      invariant stream.Valid() && stream.str == s
      invariant ParseFrom(s, ParseState(stream.pos, cleanString, fields)) == ParseSpec(s)
      invariant eol <==> stream.pos >= stream.len
      decreases stream.len - stream.pos
    {
      ghost var before := ParseState(stream.pos, cleanString, fields);
      var ch := stream.Next();
      if ch == Some('\\') {
        var escaped := stream.Next();
        // At the end of the text there is no escaped character: only the
        // backslash is appended.
        if escaped.Some? {
          cleanString := cleanString + [ch.value, escaped.value];
        } else {
          cleanString := cleanString + [ch.value];
        }
      } else if ch == Some('$') {
        var field := ConsumeField(stream);
        if field.Failure? {
          return Failure(field.error);
        }
        if field.value.Some? {
          var f := field.value.value;
          cleanString := cleanString + f.placeholder;
          fields := Record(fields, f.index, Loc(|cleanString|, |f.placeholder|));
        } else {
          cleanString := cleanString + [ch.value];
        }
      } else {
        cleanString := cleanString + [ch.value];
      }
      assert Step(s, before) == Success(ParseState(stream.pos, cleanString, fields));
      eol := stream.Eol();
    }
    return Success(Parsed(fields, cleanString));
  }
}
