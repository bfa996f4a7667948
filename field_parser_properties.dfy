/** Properties of the field scanner, stated on the functions that specify
    the methods of module FieldParser. */
module FieldParserProperties {
  import opened Wrappers
  import opened FieldParser

  // ---------------------------------------------------------------------
  // Field indices

  /** The digits read by consumeNumber have value 0 exactly when they are all
      `0`; so `$0`, `$00`, `${0}` never pass the `if (index)` tests. */
  lemma {:induction false} NumberIsZeroIffAllZeros(ds: string)
    requires AllDigits(ds)
    ensures NumberValue(ds) == Some(0) <==> ds != [] && forall k :: 0 <= k < |ds| ==> ds[k] == '0'
  {
  }

  /** The exhibit for the defect at index.js:106: the input `1` is a digit
      run for which the code as written throws while the repaired
      consumeNumber returns 1. The two general clauses only gather, for every
      non-empty digit run, what `NumberAsWritten` and `NumberValue` already
      state one by one. */
  lemma NumberAsWrittenThrowsOnDigits(ds: string)
    requires AllDigits(ds) && ds != []
    ensures NumberAsWritten(ds).Failure?
    ensures NumberValue(ds) == Some(DecimalValue(ds))
    ensures NumberAsWritten("1").Failure? && NumberValue("1") == Some(1)
  {
    var one := "1";
    assert one[..0] == [];
  }

  /** The maximal digit run is the only one: a run of digits from `i` to
      `j` followed by a non-digit or the end is the run consumeNumber reads. */
  lemma {:induction false} DigitRunIsMaximal(s: string, i: nat, j: nat)
    requires i <= j <= |s|
    requires forall k :: i <= k < j ==> IsDigit(s[k])
    requires j == |s| || !IsDigit(s[j])
    ensures DigitRunEnd(s, i) == j
    decreases j - i
  {
    if i < j {
      DigitRunIsMaximal(s, i + 1, j);
    }
  }

  // ---------------------------------------------------------------------
  // Brace balance of placeholder text

  /** How many times `c` occurs in `t`. */
  function Count(t: string, c: char): nat
  {
    if t == [] then 0 else Count(t[..|t| - 1], c) + (if t[|t| - 1] == c then 1 else 0)
  }

  /** Unmatched `{` in `t`: openers minus closers. */
  function Depth(t: string): int
  {
    Count(t, '{') - Count(t, '}')
  }

  /** No prefix of `t` closes more braces than it opens. */
  ghost predicate NeverNegative(t: string)
  {
    forall k :: 0 <= k <= |t| ==> Depth(t[..k]) >= 0
  }

  /** Every prefix has at least as many `{` as `}`, and the totals agree. */
  ghost predicate Balanced(t: string)
  {
    NeverNegative(t) && Depth(t) == 0
  }

  lemma EmptyIsBalanced()
    ensures Balanced([])
  {
    var e: string := [];
    assert e[..0] == e;
  }

  lemma ExtendRange(s: string, a: nat, i: nat)
    requires a <= i < |s|
    ensures Depth(s[a..i + 1]) == Depth(s[a..i]) + (if s[i] == '{' then 1 else if s[i] == '}' then -1 else 0)
    ensures NeverNegative(s[a..i + 1]) <==> NeverNegative(s[a..i]) && Depth(s[a..i + 1]) >= 0
  {
    var t := s[a..i];
    var u := s[a..i + 1];
    assert u[..|u| - 1] == t;
    assert forall k :: 0 <= k <= |t| ==> u[..k] == t[..k];
    assert u[..|u|] == u;
  }

  /** The `{` at `p` is still unmatched at `i`, with `d` further braces
      opened after it and not yet closed. */
  ghost predicate StillOpen(s: string, p: nat, i: nat, d: int)
  {
    p < i <= |s| && s[p] == '{' && NeverNegative(s[p + 1..i]) && Depth(s[p + 1..i]) == d
  }

  lemma StillOpenStep(s: string, p: nat, i: nat, d: int)
    requires StillOpen(s, p, i, d) && i < |s|
    requires s[i] == '}' ==> d > 0
    ensures StillOpen(s, p, i + 1, d + (if s[i] == '{' then 1 else if s[i] == '}' then -1 else 0))
  {
    var t := s[p + 1..i];
    assert t[..|t|] == t;
    ExtendRange(s, p + 1, i);
  }

  lemma JustOpened(s: string, i: nat)
    requires i < |s| && s[i] == '{'
    ensures StillOpen(s, i, i + 1, 0)
  {
    assert s[i + 1..i + 1] == [];
    EmptyIsBalanced();
  }

  /** The scan's stack from `start` up to `i`: the depth so far is its
      size, and each recorded `{` is still open, everything after it being
      balanced but for the braces opened later on the stack. */
  ghost predicate StackInv(s: string, start: nat, i: nat, open: seq<nat>)
  {
    && start <= i <= |s|
    && NeverNegative(s[start..i]) && Depth(s[start..i]) == |open|
    && forall j :: 0 <= j < |open| ==> start <= open[j] && StillOpen(s, open[j], i, |open| - 1 - j)
  }

  lemma StackInvPush(s: string, start: nat, i: nat, open: seq<nat>)
    requires StackInv(s, start, i, open) && i < |s| && s[i] == '{'
    ensures StackInv(s, start, i + 1, open + [i])
  {
    ExtendRange(s, start, i);
    var open' := open + [i];
    forall j | 0 <= j < |open'|
      ensures start <= open'[j] && StillOpen(s, open'[j], i + 1, |open'| - 1 - j)
    {
      if j < |open| {
        StillOpenStep(s, open[j], i, |open| - 1 - j);
      } else {
        JustOpened(s, i);
      }
    }
  }

  lemma StackInvPop(s: string, start: nat, i: nat, open: seq<nat>)
    requires StackInv(s, start, i, open) && i < |s| && s[i] == '}' && open != []
    ensures StackInv(s, start, i + 1, open[..|open| - 1])
  {
    ExtendRange(s, start, i);
    var open' := open[..|open| - 1];
    forall j | 0 <= j < |open'|
      ensures start <= open'[j] && StillOpen(s, open'[j], i + 1, |open'| - 1 - j)
    {
      StillOpenStep(s, open[j], i, |open| - 1 - j);
    }
  }

  lemma StackInvOther(s: string, start: nat, i: nat, open: seq<nat>)
    requires StackInv(s, start, i, open) && i < |s| && s[i] != '{' && s[i] != '}'
    ensures StackInv(s, start, i + 1, open)
  {
    ExtendRange(s, start, i);
    forall j | 0 <= j < |open|
      ensures StillOpen(s, open[j], i + 1, |open| - 1 - j)
    {
      StillOpenStep(s, open[j], i, |open| - 1 - j);
    }
  }

  lemma {:induction false} ScanKeepsStackInv(s: string, start: nat, i: nat, open: seq<nat>)
    requires StackInv(s, start, i, open)
    ensures StackInv(s, start, ScanBraces(s, i, open).end, ScanBraces(s, i, open).open)
    decreases |s| - i
  {
    if i < |s| {
      if s[i] == '{' {
        StackInvPush(s, start, i, open);
        ScanKeepsStackInv(s, start, i + 1, open + [i]);
      } else if s[i] == '}' {
        if open != [] {
          StackInvPop(s, start, i, open);
          ScanKeepsStackInv(s, start, i + 1, open[..|open| - 1]);
        }
      } else {
        StackInvOther(s, start, i, open);
        ScanKeepsStackInv(s, start, i + 1, open);
      }
    }
  }

  lemma ScanFromStart(s: string, start: nat)
    requires start <= |s|
    ensures StackInv(s, start, ScanBraces(s, start, []).end, ScanBraces(s, start, []).open)
  {
    assert s[start..start] == [];
    EmptyIsBalanced();
    ScanKeepsStackInv(s, start, start, []);
  }

  /** A placeholder that consumePlaceholder returns is brace-balanced, and
      the cursor stops on the unconsumed terminating `}` or at the end. */
  lemma PlaceholderIsBalanced(s: string, start: nat)
    requires start <= |s|
    requires PlaceholderAt(s, start).Success?
    ensures Balanced(PlaceholderAt(s, start).value)
    ensures var end := start + |PlaceholderAt(s, start).value|;
      end == |s| || s[end] == '}'
  {
    ScanFromStart(s, start);
  }

  /** consumePlaceholder throws only once the text has ended with a `{`
      still open, and reports the innermost one: everything after it is
      balanced. */
  lemma PlaceholderErrorIsInnermostOpen(s: string, start: nat)
    requires start <= |s|
    requires PlaceholderAt(s, start).Failure?
    ensures ScanBraces(s, start, []).end == |s|
    ensures var p := PlaceholderAt(s, start).error.pos;
      start <= p < |s| && s[p] == '{' && Balanced(s[p + 1..])
  {
    ScanFromStart(s, start);
    var open := ScanBraces(s, start, []).open;
    var j := |open| - 1;
    assert s[open[j] + 1..|s|] == s[open[j] + 1..];
  }

  /** consumePlaceholder throws exactly when no prefix of the rest of the
      text closes more braces than it opens and the text ends with some
      `{` unmatched. */
  lemma PlaceholderFailsIff(s: string, start: nat)
    requires start <= |s|
    ensures PlaceholderAt(s, start).Failure? <==> NeverNegative(s[start..]) && Depth(s[start..]) > 0
  {
    ScanFromStart(s, start);
    var scan := ScanBraces(s, start, []);
    if scan.end < |s| {
      ExtendRange(s, start, scan.end);
      var n := scan.end + 1 - start;
      assert s[start..][..n] == s[start..scan.end + 1];
      assert Depth(s[start..][..n]) < 0;
    } else {
      assert s[start..scan.end] == s[start..];
    }
  }

  // ---------------------------------------------------------------------
  // consumeField

  /** A field consumeField accepts has a non-zero index. The bare form `$N`
      ends at the digit run and has no placeholder; otherwise the last
      character consumed is the closing `}` and the placeholder is
      brace-balanced. */
  lemma FieldShapes(s: string, i: nat)
    requires i <= |s|
    requires FieldAt(s, i).outcome.Success? && FieldAt(s, i).outcome.value.Some?
    ensures var a := FieldAt(s, i); var f := a.outcome.value.value;
      && f.index > 0
      && (|| (f.placeholder == "" && i < a.end == DigitRunEnd(s, i) && f.index == DecimalValue(s[i..a.end]))
          || (i + |f.placeholder| < a.end && s[a.end - 1] == '}' && Balanced(f.placeholder)))
  {
    var n := DigitRunEnd(s, i);
    if !Truthy(NumberValue(s[i..n])) {
      BracedFieldShape(s, n + 1);
    }
  }

  lemma BracedFieldShape(s: string, i: nat)
    requires i <= |s|
    requires BracedFieldAt(s, i).outcome.Success? && BracedFieldAt(s, i).outcome.value.Some?
    ensures var a := BracedFieldAt(s, i); var f := a.outcome.value.value;
      && f.index > 0 && i + |f.placeholder| < a.end && s[a.end - 1] == '}'
      && Balanced(f.placeholder)
  {
    var m := DigitRunEnd(s, i);
    if m < |s| && s[m] == ':' {
      PlaceholderIsBalanced(s, m + 1);
    } else {
      EmptyIsBalanced();
    }
  }

  // ---------------------------------------------------------------------
  // parse

  /** Scanning resumes right after the escaped character, which is copied
      with its backslash and never read as the start of a field. */
  lemma EscapeIsCopied(s: string, st: ParseState)
    requires st.pos < |s| && s[st.pos] == '\\'
    ensures var e := if st.pos + 1 < |s| then st.pos + 2 else |s|;
      ParseFrom(s, st) == ParseFrom(s, ParseState(e, st.clean + s[st.pos..e], st.fields))
  {
    if st.pos + 1 < |s| {
      assert s[st.pos..st.pos + 2] == [s[st.pos], s[st.pos + 1]];
    } else {
      assert s[st.pos..|s|] == [s[st.pos]];
    }
  }

  /** A character other than `\\` and `$` is copied as it is. */
  lemma LiteralIsCopied(s: string, st: ParseState)
    requires st.pos < |s| && s[st.pos] != '\\' && s[st.pos] != '$'
    ensures ParseFrom(s, st) == ParseFrom(s, ParseState(st.pos + 1, st.clean + [s[st.pos]], st.fields))
  {
  }

  /** A `$` that does not start a field is copied alone; what consumeField
      read after it is not scanned again. */
  lemma FailedFieldKeepsOnlyDollar(s: string, st: ParseState)
    requires st.pos < |s| && s[st.pos] == '$' && FieldAt(s, st.pos + 1).outcome == Success(None)
    ensures ParseFrom(s, st) == ParseFrom(s, ParseState(FieldAt(s, st.pos + 1).end, st.clean + "$", st.fields))
  {
  }

  /** A run of characters other than `\\` and `$` is copied unchanged and
      records no field. */
  lemma {:induction false} LiteralRunIsCopied(s: string, st: ParseState, e: nat)
    requires st.pos <= e <= |s|
    requires forall k :: st.pos <= k < e ==> s[k] != '\\' && s[k] != '$'
    ensures ParseFrom(s, st) == ParseFrom(s, ParseState(e, st.clean + s[st.pos..e], st.fields))
    decreases e - st.pos
  {
    if st.pos < e {
      var next := ParseState(st.pos + 1, st.clean + [s[st.pos]], st.fields);
      LiteralIsCopied(s, st);
      LiteralRunIsCopied(s, next, e);
      assert s[st.pos..e] == [s[st.pos]] + s[st.pos + 1..e];
      assert st.clean + [s[st.pos]] + s[st.pos + 1..e] == st.clean + s[st.pos..e];
    } else {
      assert st.clean + s[st.pos..e] == st.clean;
    }
  }

  /** Text without `\\` and `$` comes back unchanged, with no fields. */
  lemma ParsePlainText(s: string)
    requires forall k :: 0 <= k < |s| ==> s[k] != '\\' && s[k] != '$'
    ensures ParseSpec(s) == Success(Parsed(map[], s))
  {
    LiteralRunIsCopied(s, ParseState(0, "", map[]), |s|);
    assert "" + s[0..|s|] == s;
  }

  /** `st'` is a state the loop of parse passes through when run from
      `st`: `st` itself, or one reached from it by iterations that do not
      throw. Only such states start an iteration, so a `$` that is escaped,
      inside a placeholder or read by a failed attempt is never one. */
  ghost predicate OnPath(s: string, st: ParseState, st': ParseState)
    requires st.pos <= |s|
    decreases |s| - st.pos
  {
    st' == st || (st.pos < |s| && Step(s, st).Success? && OnPath(s, Step(s, st).value, st'))
  }

  /** The iteration that starts in state `st` reads a `$`, and consumeField
      accepts the field with index `k` and placeholder `t`. */
  ghost predicate AcceptsField(s: string, st: ParseState, k: nat, t: string)
  {
    st.pos < |s| && s[st.pos] == '$' && FieldAt(s, st.pos + 1).outcome == Success(Some(Field(k, t)))
  }

  /** An iteration of the loop run from `init` accepted the field with index
      `k` and placeholder `t`, and `p` is the length of the clean string once
      that placeholder was appended. */
  ghost predicate RecordedBy(s: string, init: ParseState, k: nat, t: string, p: nat)
    requires init.pos <= |s|
  {
    exists st :: OnPath(s, init, st) && AcceptsField(s, st, k, t) && p == |st.clean| + |t|
  }

  /** The triples `(k, t, p)` recorded by the loop of parse run from
      `init`: see RecordedBy. */
  ghost function RecordedFrom(s: string, init: ParseState): iset<(nat, string, nat)>
    requires init.pos <= |s|
  {
    iset k: nat, t: string, p: nat | RecordedBy(s, init, k, t, p) :: (k, t, p)
  }

  /** One index's occurrences: each `Loc(p, n)` has `n <= p <= |clean|`, and
      `(k, clean[p - n..p], p)` is one of `recorded`. */
  ghost predicate Placed(recorded: iset<(nat, string, nat)>, clean: string, k: nat, locs: seq<Loc>)
  {
    forall l | 0 <= l < |locs| ::
      && locs[l].length <= locs[l].pos <= |clean|
      && (k, clean[locs[l].pos - locs[l].length..locs[l].pos], locs[l].pos) in recorded
  }

  /** The occurrences are in nondecreasing order of `pos`. */
  ghost predicate Nondecreasing(locs: seq<Loc>)
  {
    forall l1, l2 | 0 <= l1 <= l2 < |locs| :: locs[l1].pos <= locs[l2].pos
  }

  /** What `fields` holds about `clean`: every index is non-zero and has at
      least one occurrence; its occurrences are placed triples of
      `recorded`, in nondecreasing order. */
  ghost predicate RecordedIn(recorded: iset<(nat, string, nat)>, clean: string, fields: map<nat, seq<Loc>>)
  {
    forall k | k in fields :: k > 0 && fields[k] != [] && Placed(recorded, clean, k, fields[k]) && Nondecreasing(fields[k])
  }

  lemma {:induction false} OnPathStep(s: string, init: ParseState, st: ParseState)
    requires init.pos <= |s| && OnPath(s, init, st)
    requires st.pos < |s| && Step(s, st).Success?
    ensures OnPath(s, init, Step(s, st).value)
    decreases |s| - init.pos
  {
    if st != init {
      OnPathStep(s, Step(s, init).value, st);
    }
  }

  lemma NondecreasingAppend(locs: seq<Loc>, loc: Loc)
    requires Nondecreasing(locs)
    requires forall l | 0 <= l < |locs| :: locs[l].pos <= loc.pos
    ensures Nondecreasing(locs + [loc])
  {
    var locs' := locs + [loc];
    forall l1, l2 | 0 <= l1 <= l2 < |locs'|
      ensures locs'[l1].pos <= locs'[l2].pos
    {
      if l2 < |locs| {
        assert locs'[l1] == locs[l1] && locs'[l2] == locs[l2];
      } else if l1 < |locs| {
        assert locs'[l1] == locs[l1];
      }
    }
  }

  lemma PlacedExtend(recorded: iset<(nat, string, nat)>, clean: string, extra: string, k: nat, locs: seq<Loc>)
    requires Placed(recorded, clean, k, locs)
    ensures Placed(recorded, clean + extra, k, locs)
  {
    forall l | 0 <= l < |locs|
      ensures (k, (clean + extra)[locs[l].pos - locs[l].length..locs[l].pos], locs[l].pos) in recorded
    {
      assert (clean + extra)[locs[l].pos - locs[l].length..locs[l].pos]
          == clean[locs[l].pos - locs[l].length..locs[l].pos];
    }
  }

  lemma RecordedExtends(recorded: iset<(nat, string, nat)>, clean: string, extra: string, fields: map<nat, seq<Loc>>)
    requires RecordedIn(recorded, clean, fields)
    ensures RecordedIn(recorded, clean + extra, fields)
  {
    forall k | k in fields ensures Placed(recorded, clean + extra, k, fields[k]) {
      PlacedExtend(recorded, clean, extra, k, fields[k]);
    }
  }

  lemma PlacedAppend(recorded: iset<(nat, string, nat)>, clean: string, k: nat, locs: seq<Loc>, t: string)
    requires Placed(recorded, clean, k, locs) && (k, t, |clean|) in recorded
    requires |t| <= |clean| && clean[|clean| - |t|..] == t
    ensures Placed(recorded, clean, k, locs + [Loc(|clean|, |t|)])
  {
    var locs' := locs + [Loc(|clean|, |t|)];
    assert clean[|clean| - |t|..|clean|] == t;
    forall l | 0 <= l < |locs'|
      ensures locs'[l].length <= locs'[l].pos <= |clean|
      ensures (k, clean[locs'[l].pos - locs'[l].length..locs'[l].pos], locs'[l].pos) in recorded
    {
      if l < |locs| { assert locs'[l] == locs[l]; }
    }
  }

  lemma RecordField(recorded: iset<(nat, string, nat)>, f: Field, clean: string, fields: map<nat, seq<Loc>>)
    requires f.index > 0 && (f.index, f.placeholder, |clean + f.placeholder|) in recorded
    requires RecordedIn(recorded, clean + f.placeholder, fields)
    ensures var clean' := clean + f.placeholder;
      RecordedIn(recorded, clean', Record(fields, f.index, Loc(|clean'|, |f.placeholder|)))
  {
    var clean' := clean + f.placeholder;
    var prior := if f.index in fields then fields[f.index] else [];
    assert Placed(recorded, clean', f.index, prior) && Nondecreasing(prior);
    assert clean'[|clean'| - |f.placeholder|..] == f.placeholder;
    PlacedAppend(recorded, clean', f.index, prior, f.placeholder);
    forall l | 0 <= l < |prior| ensures prior[l].pos <= |clean'| {
      assert prior[l].length <= prior[l].pos <= |clean'|;
    }
    NondecreasingAppend(prior, Loc(|clean'|, |f.placeholder|));
  }

  /** The field accepted by the iteration at `st` is recorded by it. */
  lemma AcceptedFieldIsRecorded(s: string, init: ParseState, st: ParseState, f: Field)
    requires init.pos <= |s| && OnPath(s, init, st)
    requires st.pos < |s| && s[st.pos] == '$' && FieldAt(s, st.pos + 1).outcome == Success(Some(f))
    ensures (f.index, f.placeholder, |st.clean + f.placeholder|) in RecordedFrom(s, init)
  {
    assert AcceptsField(s, st, f.index, f.placeholder);
    assert RecordedBy(s, init, f.index, f.placeholder, |st.clean + f.placeholder|);
  }

  /** An iteration that records no field only appends to the clean string. */
  lemma StepWithoutField(s: string, st: ParseState)
    requires st.pos < |s| && Step(s, st).Success?
    requires !(s[st.pos] == '$' && FieldAt(s, st.pos + 1).outcome.value.Some?)
    ensures Step(s, st).value.fields == st.fields
    ensures st.clean <= Step(s, st).value.clean
  {
  }

  /** An iteration that records field `f` appends its placeholder. */
  lemma StepWithField(s: string, st: ParseState)
    requires st.pos < |s| && s[st.pos] == '$'
    requires FieldAt(s, st.pos + 1).outcome.Success? && FieldAt(s, st.pos + 1).outcome.value.Some?
    ensures var f := FieldAt(s, st.pos + 1).outcome.value.value;
      var clean := st.clean + f.placeholder;
      Step(s, st) == Success(ParseState(FieldAt(s, st.pos + 1).end, clean, Record(st.fields, f.index, Loc(|clean|, |f.placeholder|))))
  {
  }

  lemma StepKeepsRecorded(s: string, init: ParseState, st: ParseState)
    requires init.pos <= |s| && OnPath(s, init, st)
    requires st.pos < |s| && RecordedIn(RecordedFrom(s, init), st.clean, st.fields)
    requires Step(s, st).Success?
    ensures RecordedIn(RecordedFrom(s, init), Step(s, st).value.clean, Step(s, st).value.fields)
  {
    var next := Step(s, st).value;
    if s[st.pos] == '$' && FieldAt(s, st.pos + 1).outcome.value.Some? {
      var f := FieldAt(s, st.pos + 1).outcome.value.value;
      AcceptedFieldIsRecorded(s, init, st, f);
      StepWithField(s, st);
      RecordedExtends(RecordedFrom(s, init), st.clean, f.placeholder, st.fields);
      RecordField(RecordedFrom(s, init), f, st.clean, st.fields);
    } else {
      StepWithoutField(s, st);
      var extra := next.clean[|st.clean|..];
      assert next.clean == st.clean + extra;
      RecordedExtends(RecordedFrom(s, init), st.clean, extra, st.fields);
    }
  }

  /** An iteration never writes more characters than it reads. */
  lemma StepKeepsCleanShort(s: string, st: ParseState)
    requires st.pos < |s| && |st.clean| <= st.pos
    requires Step(s, st).Success?
    ensures |Step(s, st).value.clean| <= Step(s, st).value.pos
  {
    if s[st.pos] == '$' && FieldAt(s, st.pos + 1).outcome.value.Some? {
      FieldShapes(s, st.pos + 1);
    }
  }

  lemma {:induction false} ParseFromKeepsRecorded(s: string, init: ParseState, st: ParseState)
    requires init.pos <= |s| && st.pos <= |s| && OnPath(s, init, st)
    requires |st.clean| <= st.pos
    requires RecordedIn(RecordedFrom(s, init), st.clean, st.fields)
    requires ParseFrom(s, st).Success?
    ensures |ParseFrom(s, st).value.str| <= |s|
    ensures RecordedIn(RecordedFrom(s, init), ParseFrom(s, st).value.str, ParseFrom(s, st).value.fields)
    decreases |s| - st.pos
  {
    if st.pos < |s| {
      StepKeepsRecorded(s, init, st);
      StepKeepsCleanShort(s, st);
      OnPathStep(s, init, st);
      ParseFromKeepsRecorded(s, init, Step(s, st).value);
    }
  }

  /** What parse returns: a clean string no longer than its input, and a
      field map whose keys are non-zero and whose occurrences `Loc(p, n)` of
      each index `k` satisfy `n <= p <= |clean|`, come in nondecreasing order
      of `p`, and were each recorded by an iteration of parse's loop that
      accepted a field of index `k` whose placeholder is `clean[p - n..p]`
      and ends at `p`. */
  lemma ParseRecordsFields(s: string)
    requires ParseSpec(s).Success?
    ensures var r := ParseSpec(s).value;
      && |r.str| <= |s|
      && 0 !in r.fields
      && RecordedIn(RecordedFrom(s, ParseState(0, "", map[])), r.str, r.fields)
  {
    ParseFromKeepsRecorded(s, ParseState(0, "", map[]), ParseState(0, "", map[]));
  }

  /** One occurrence spelled out: `Loc(p, n)` of index `k` lies in the clean
      string; the loop of parse passed through a state `st` whose iteration
      read a `$` and accepted the field of index `k` with placeholder
      `clean[p - n..p]`, appended after the `|st.clean|` characters written
      before it; and no later occurrence of `k` lies before it. */
  lemma ParsedOccurrence(s: string, k: nat, l: nat)
    requires ParseSpec(s).Success?
    requires k in ParseSpec(s).value.fields && l < |ParseSpec(s).value.fields[k]|
    ensures var r := ParseSpec(s).value; var loc := r.fields[k][l];
      && k > 0
      && loc.length <= loc.pos <= |r.str|
      && (exists st :: OnPath(s, ParseState(0, "", map[]), st)
            && st.pos < |s| && s[st.pos] == '$'
            && FieldAt(s, st.pos + 1).outcome == Success(Some(Field(k, r.str[loc.pos - loc.length..loc.pos])))
            && |st.clean| + loc.length == loc.pos)
      && forall l' | l <= l' < |r.fields[k]| :: loc.pos <= r.fields[k][l'].pos
  {
    ParseRecordsFields(s);
    var r := ParseSpec(s).value;
    var loc := r.fields[k][l];
    assert Placed(RecordedFrom(s, ParseState(0, "", map[])), r.str, k, r.fields[k]);
    assert (k, r.str[loc.pos - loc.length..loc.pos], loc.pos) in RecordedFrom(s, ParseState(0, "", map[]));
  }

  /** The occurrences recorded under `k` so far. */
  function Prior(fields: map<nat, seq<Loc>>, k: nat): seq<Loc>
  {
    if k in fields then fields[k] else []
  }

  lemma {:induction false} OnPathBounds(s: string, st: ParseState, st': ParseState)
    requires st.pos <= |s| && OnPath(s, st, st')
    ensures st.pos <= st'.pos <= |s|
    decreases |s| - st.pos
  {
    if st' != st {
      OnPathBounds(s, Step(s, st).value, st');
    }
  }

  /** The loop passes through states on one line: of two path states, the
      later one is on the path of the earlier. */
  lemma {:induction false} OnPathLinear(s: string, init: ParseState, st1: ParseState, st2: ParseState)
    requires init.pos <= |s| && OnPath(s, init, st1) && OnPath(s, init, st2)
    requires st1.pos <= st2.pos
    ensures st1.pos <= |s| && OnPath(s, st1, st2)
    decreases |s| - init.pos
  {
    OnPathBounds(s, init, st1);
    if st1 != init {
      OnPathBounds(s, Step(s, init).value, st1);
      if st2 == init {
        assert false;
      }
      OnPathLinear(s, Step(s, init).value, st1, st2);
    }
  }

  /** Running the loop from a path state gives what running it from the
      start gives. */
  lemma {:induction false} OnPathSameResult(s: string, st: ParseState, st': ParseState)
    requires st.pos <= |s| && OnPath(s, st, st')
    ensures st'.pos <= |s| && ParseFrom(s, st) == ParseFrom(s, st')
    decreases |s| - st.pos
  {
    if st' != st {
      OnPathSameResult(s, Step(s, st).value, st');
    }
  }

  /** One iteration only appends to the occurrences of `k`. */
  lemma StepKeepsPrior(s: string, st: ParseState, k: nat)
    requires st.pos < |s| && Step(s, st).Success?
    ensures Prior(st.fields, k) <= Prior(Step(s, st).value.fields, k)
  {
    if s[st.pos] == '$' && FieldAt(s, st.pos + 1).outcome.value.Some? {
      StepWithField(s, st);
    } else {
      StepWithoutField(s, st);
    }
  }

  /** The rest of the loop only appends to the occurrences of `k`. */
  lemma {:induction false} ParseFromKeepsPrior(s: string, st: ParseState, k: nat)
    requires st.pos <= |s| && ParseFrom(s, st).Success?
    ensures Prior(st.fields, k) <= Prior(ParseFrom(s, st).value.fields, k)
    decreases |s| - st.pos
  {
    if st.pos < |s| {
      var next := Step(s, st).value;
      StepKeepsPrior(s, st, k);
      ParseFromKeepsPrior(s, next, k);
    }
  }

  lemma {:induction false} PriorGrowsOnPath(s: string, st: ParseState, st': ParseState, k: nat)
    requires st.pos <= |s| && OnPath(s, st, st')
    ensures |Prior(st.fields, k)| <= |Prior(st'.fields, k)|
    decreases |s| - st.pos
  {
    if st' != st {
      StepKeepsPrior(s, st, k);
      PriorGrowsOnPath(s, Step(s, st).value, st', k);
    }
  }

  lemma ParseFromStep(s: string, st: ParseState)
    requires st.pos < |s| && Step(s, st).Success?
    ensures ParseFrom(s, st) == ParseFrom(s, Step(s, st).value)
  {
  }

  /** The iteration that accepts `Field(k, t)` appends its pair to the
      occurrences of `k`. */
  lemma StepRecordsField(s: string, st: ParseState, k: nat, t: string)
    requires AcceptsField(s, st, k, t)
    ensures Step(s, st).Success?
    ensures Prior(Step(s, st).value.fields, k) == Prior(st.fields, k) + [Loc(|st.clean| + |t|, |t|)]
  {
    StepWithField(s, st);
  }

  /** The converse of ParseRecordsFields: every field that an iteration of
      parse's loop accepts is recorded under its index, as
      `Loc(|clean| after its placeholder, |placeholder|)`, right after the
      occurrences of that index recorded before it. */
  lemma EveryAcceptedFieldIsRecorded(s: string, st: ParseState, k: nat, t: string)
    requires ParseSpec(s).Success?
    requires OnPath(s, ParseState(0, "", map[]), st) && AcceptsField(s, st, k, t)
    ensures var r := ParseSpec(s).value; var i := |Prior(st.fields, k)|;
      k in r.fields && i < |r.fields[k]| && r.fields[k][i] == Loc(|st.clean| + |t|, |t|)
  {
    OnPathSameResult(s, ParseState(0, "", map[]), st);
    StepRecordsField(s, st, k, t);
    var next := Step(s, st).value;
    ParseFromStep(s, st);
    ParseFromKeepsPrior(s, next, k);
  }

  /** Two fields of the same index accepted by the loop are recorded in the
      order the loop met them, at distinct places of the list. */
  lemma AcceptedFieldsInPathOrder(s: string, st1: ParseState, st2: ParseState, k: nat, t1: string, t2: string)
    requires ParseSpec(s).Success?
    requires OnPath(s, ParseState(0, "", map[]), st1) && OnPath(s, ParseState(0, "", map[]), st2)
    requires st1.pos < st2.pos && AcceptsField(s, st1, k, t1) && AcceptsField(s, st2, k, t2)
    ensures var r := ParseSpec(s).value;
      var i1 := |Prior(st1.fields, k)|; var i2 := |Prior(st2.fields, k)|;
      k in r.fields && i1 < i2 < |r.fields[k]|
      && r.fields[k][i1] == Loc(|st1.clean| + |t1|, |t1|)
      && r.fields[k][i2] == Loc(|st2.clean| + |t2|, |t2|)
  {
    OnPathLinear(s, ParseState(0, "", map[]), st1, st2);
    StepWithField(s, st1);
    PriorGrowsOnPath(s, Step(s, st1).value, st2, k);
    EveryAcceptedFieldIsRecorded(s, st1, k, t1);
    EveryAcceptedFieldIsRecorded(s, st2, k, t2);
  }
}
