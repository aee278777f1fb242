/**
  Finding JSON objects in a model's prose (src/parse-llm-json.ts). JSON texts are those of
  RFC 8259, sections 2 to 7, given by their concrete syntax so that every layout is covered.
 */
module JsonScan {
  import opened Common

  // ------------------------------------------------------------- the scan

  datatype Span = Span(start: nat, end: nat)

  datatype State = State(depth: nat, start: Option<nat>, inString: bool, escape: bool, spans: seq<Span>)

  const Init := State(0, None, false, false, [])

  /** The scanner's reaction to the character at position `i`. */
  function Step(st: State, ch: char, i: nat): State {
    if st.inString then
      if st.escape then st.(escape := false)
      else if ch == '\\' then st.(escape := true)
      else if ch == '"' then st.(inString := false)
      else st
    else if ch == '"' then st.(inString := true)
    else if ch == '{' then
      st.(depth := st.depth + 1, start := if st.depth == 0 then Some(i) else st.start)
    else if ch == '}' && st.depth > 0 then
      if st.depth == 1 && st.start.Some?
      then st.(depth := 0, start := None, spans := st.spans + [Span(st.start.value, i + 1)])
      else st.(depth := st.depth - 1)
    else st
  }

  /** Reading a stretch of text whose first character is at position `p`. */
  function Run(st: State, s: string, p: nat): State {
    if s == "" then st else Step(Run(st, s[..|s| - 1], p), s[|s| - 1], p + |s| - 1)
  }

  lemma {:induction false} RunSnoc(st: State, s: string, c: char, p: nat)
    ensures Run(st, s + [c], p) == Step(Run(st, s, p), c, p + |s|)
  {
    assert (s + [c])[..|s|] == s;
  }

  lemma {:induction false} RunConcat(st: State, a: string, b: string, p: nat)
    ensures Run(st, a + b, p) == Run(Run(st, a, p), b, p + |a|)
  {
    if b == "" {
      assert a + b == a;
    } else {
      var init, last := b[..|b| - 1], b[|b| - 1];
      SplitLast(a, b);
      RunConcat(st, a, init, p);
      RunSnoc(st, a + init, last, p);
      RunSnoc(Run(st, a, p), init, last, p + |a|);
    }
  }

  method ScanSpans(text: string) returns (spans: seq<Span>)
    ensures spans == Run(Init, text, 0).spans
  {
    spans := [];
    var depth: nat, start: Option<nat>, inString, escape := 0, None, false, false;
    for i := 0 to |text|
      invariant State(depth, start, inString, escape, spans) == Run(Init, text[..i], 0)
    {
      var ch := text[i];
      assert text[..i + 1][..i] == text[..i];
      if inString {
        if escape {
          escape := false;
        } else if ch == '\\' {
          escape := true;
        } else if ch == '"' {
          inString := false;
        }
      } else if ch == '"' {
        inString := true;
      } else if ch == '{' {
        if depth == 0 {
          start := Some(i);
        }
        depth := depth + 1;
      } else if ch == '}' && depth > 0 {
        depth := depth - 1;
        if depth == 0 && start.Some? {
          spans := spans + [Span(start.value, i + 1)];
          start := None;
        }
      }
    }
    assert text[..|text|] == text;
  }

  // ----------------------------------------------- what any span looks like

  /** Where a position lies with respect to string literals, read from the start of a text. */
  datatype Lex = Outside | Inside | Escaped

  ghost function LexStep(l: Lex, c: char): Lex {
    match l
    case Outside => if c == '"' then Inside else Outside
    case Inside => if c == '\\' then Escaped else if c == '"' then Outside else Inside
    case Escaped => Inside
  }

  ghost function LexAfter(s: string): Lex {
    if s == "" then Outside else LexStep(LexAfter(s[..|s| - 1]), s[|s| - 1])
  }

  /** Opening minus closing braces outside string literals. */
  ghost function Net(s: string): int {
    if s == "" then 0
    else
      var init, c := s[..|s| - 1], s[|s| - 1];
      Net(init) + if LexAfter(init).Outside? then (if c == '{' then 1 else if c == '}' then -1 else 0) else 0
  }

  /** Starts with a brace whose match, strings aside, is the last character and no earlier one. */
  ghost predicate Balanced(s: string) {
    && s != "" && s[0] == '{' && s[|s| - 1] == '}'
    && Net(s) == 0 && LexAfter(s).Outside?
    && forall n :: 0 < n < |s| ==> Net(s[..n]) > 0
  }

  ghost function LexOf(st: State): Lex {
    if !st.inString then Outside else if st.escape then Escaped else Inside
  }

  ghost predicate SpansSound(text: string, spans: seq<Span>, limit: nat)
    requires limit <= |text|
  {
    && (forall k :: 0 <= k < |spans| ==>
        spans[k].start < spans[k].end <= limit && Balanced(text[spans[k].start..spans[k].end]))
    && (forall k, m :: 0 <= k < m < |spans| ==> spans[k].end <= spans[m].start)
  }

  /** An open object: the text since its start has not come back to balance. */
  ghost predicate OpenSound(text: string, st: State, i: nat)
    requires i <= |text|
  {
    match st.start
    case None => st.depth == 0
    case Some(s) =>
      && s < i && text[s] == '{'
      && st.depth == Net(text[s..i]) && LexOf(st) == LexAfter(text[s..i])
      && (forall e :: s < e <= i ==> Net(text[s..e]) > 0)
      && (forall k :: 0 <= k < |st.spans| ==> st.spans[k].end <= s)
  }

  lemma {:induction false} Extend(text: string, s: nat, i: nat)
    requires s <= i < |text|
    ensures LexAfter(text[s..i + 1]) == LexStep(LexAfter(text[s..i]), text[i])
    ensures Net(text[s..i + 1]) == Net(text[s..i]) +
              if LexAfter(text[s..i]).Outside?
              then (if text[i] == '{' then 1 else if text[i] == '}' then -1 else 0)
              else 0
  {
    var more := text[s..i + 1];
    assert more[..|more| - 1] == text[s..i] && more[|more| - 1] == text[i];
  }

  lemma {:induction false} ClosedIsBalanced(text: string, s: nat, i: nat)
    requires s < i < |text| && text[s] == '{' && text[i] == '}'
    requires Net(text[s..i + 1]) == 0 && LexAfter(text[s..i + 1]).Outside?
    requires forall e :: s < e <= i ==> Net(text[s..e]) > 0
    ensures Balanced(text[s..i + 1])
  {
    var whole := text[s..i + 1];
    forall n | 0 < n < |whole|
      ensures Net(whole[..n]) > 0
    {
      assert whole[..n] == text[s..s + n];
    }
  }

  lemma {:induction false} OpenedAt(text: string, i: nat)
    requires i < |text| && text[i] == '{'
    ensures Net(text[i..i + 1]) == 1 && LexAfter(text[i..i + 1]).Outside?
  {
    assert text[i..i] == "";
    Extend(text, i, i);
  }

  lemma {:induction false} StepWhileOpen(text: string, st: State, i: nat)
    requires i < |text| && st.start.Some? && OpenSound(text, st, i) && (st.escape ==> st.inString)
    ensures var st' := Step(st, text[i], i);
            && OpenSound(text, st', i + 1) && (st'.escape ==> st'.inString)
            && (st'.spans == st.spans ||
                (st'.spans == st.spans + [Span(st.start.value, i + 1)] && Balanced(text[st.start.value..i + 1])))
  {
    var s, st' := st.start.value, Step(st, text[i], i);
    Extend(text, s, i);
    if st'.start.None? {
      ClosedIsBalanced(text, s, i);
    }
  }

  lemma {:induction false} StepWhileClosed(text: string, st: State, i: nat)
    requires i < |text| && st.start.None? && OpenSound(text, st, i) && (st.escape ==> st.inString)
    requires SpansSound(text, st.spans, i)
    ensures var st' := Step(st, text[i], i);
            OpenSound(text, st', i + 1) && (st'.escape ==> st'.inString) && st'.spans == st.spans
  {
    if Step(st, text[i], i).start.Some? {
      OpenedAt(text, i);
    }
  }

  lemma {:induction false} MoreSpans(text: string, spans: seq<Span>, i: nat, s: nat)
    requires i < |text| && SpansSound(text, spans, i)
    ensures SpansSound(text, spans, i + 1)
    ensures s <= i && Balanced(text[s..i + 1]) && (forall k :: 0 <= k < |spans| ==> spans[k].end <= s) ==>
              SpansSound(text, spans + [Span(s, i + 1)], i + 1)
  {
  }

  lemma {:induction false} OpenStep(text: string, st: State, i: nat)
    requires i < |text| && OpenSound(text, st, i) && (st.escape ==> st.inString)
    requires SpansSound(text, st.spans, i)
    ensures var st' := Step(st, text[i], i);
            OpenSound(text, st', i + 1) && SpansSound(text, st'.spans, i + 1) && (st'.escape ==> st'.inString)
  {
    match st.start
    case Some(s) =>
      StepWhileOpen(text, st, i);
      MoreSpans(text, st.spans, i, s);
    case None =>
      StepWhileClosed(text, st, i);
      MoreSpans(text, st.spans, i, i);
  }

  lemma {:induction false} RunSound(text: string, i: nat)
    requires i <= |text|
    ensures var st := Run(Init, text[..i], 0);
            OpenSound(text, st, i) && SpansSound(text, st.spans, i) && (st.escape ==> st.inString)
  {
    if i > 0 {
      RunSound(text, i - 1);
      assert text[..i][..i - 1] == text[..i - 1];
      OpenStep(text, Run(Init, text[..i - 1], 0), i - 1);
    }
  }

  /** On any text, the spans are disjoint, in order, and each balanced for the first time at its end. */
  lemma {:induction false} SpansOfAnyText(text: string)
    ensures SpansSound(text, Run(Init, text, 0).spans, |text|)
  {
    assert text[..|text|] == text;
    RunSound(text, |text|);
  }

  // ------------------------------------------------------------ JSON texts

  ghost predicate IsBlank(s: string) {
    forall c :: c in s ==> c in " \t\n\r"
  }

  /** A character of a string literal, as written. */
  datatype Unit = Raw(c: char) | Short(c: char) | Hex(digits: string)

  ghost predicate ValidUnit(u: Unit) {
    match u
    case Raw(c) => c != '"' && c != '\\' && c >= ' '
    case Short(c) => c in "\"\\/bfnrt"
    case Hex(d) => |d| == 4 && forall x :: x in d ==> '0' <= x <= '9' || 'a' <= x <= 'f' || 'A' <= x <= 'F'
  }

  ghost function UnitText(u: Unit): string {
    match u
    case Raw(c) => [c]
    case Short(c) => ['\\', c]
    case Hex(d) => "\\u" + d
  }

  ghost function UnitsText(us: seq<Unit>): string {
    if us == [] then "" else UnitText(us[0]) + UnitsText(us[1..])
  }

  ghost function StringText(us: seq<Unit>): string {
    "\"" + UnitsText(us) + "\""
  }

  ghost predicate IsScalar(s: string) {
    s in {"true", "false", "null"} || (s != "" && forall c :: c in s ==> c in "0123456789+-.eE")
  }

  datatype Value =
    | Scalar(text: string)
    | Str(units: seq<Unit>)
    | Arr(blank: string, elems: Elems)
    | Obj(blank: string, members: Members)

  datatype Elems = NoElems | MoreElems(before: string, value: Value, after: string, rest: Elems)

  datatype Members =
    | NoMembers
    | MoreMembers(before: string, key: seq<Unit>, mid: string, lead: string, value: Value, after: string, rest: Members)

  ghost predicate ValidUnits(us: seq<Unit>) {
    forall u :: u in us ==> ValidUnit(u)
  }

  ghost predicate Valid(v: Value) {
    match v
    case Scalar(s) => IsScalar(s)
    case Str(us) => ValidUnits(us)
    case Arr(b, es) => IsBlank(b) && ValidElems(es)
    case Obj(b, ms) => IsBlank(b) && ValidMembers(ms)
  }

  ghost predicate ValidElems(es: Elems) {
    match es
    case NoElems => true
    case MoreElems(b, v, a, rest) => IsBlank(b) && Valid(v) && IsBlank(a) && ValidElems(rest)
  }

  ghost predicate ValidMembers(ms: Members) {
    match ms
    case NoMembers => true
    case MoreMembers(b, k, m, l, v, a, rest) =>
      IsBlank(b) && ValidUnits(k) && IsBlank(m) && IsBlank(l) && Valid(v) && IsBlank(a) && ValidMembers(rest)
  }

  ghost function Comma(first: bool): string {
    if first then "" else ","
  }

  ghost function Text(v: Value): string {
    match v
    case Scalar(s) => s
    case Str(us) => StringText(us)
    case Arr(b, es) => "[" + b + ElemsText(es, true) + "]"
    case Obj(b, ms) => "{" + b + MembersText(ms, true) + "}"
  }

  ghost function ElemsText(es: Elems, first: bool): string {
    match es
    case NoElems => ""
    case MoreElems(b, v, a, rest) => Comma(first) + b + Text(v) + a + ElemsText(rest, false)
  }

  ghost function MembersText(ms: Members, first: bool): string {
    match ms
    case NoMembers => ""
    case MoreMembers(b, k, m, l, v, a, rest) =>
      (Comma(first) + b) + StringText(k) + (m + ":" + l) + Text(v) + a + MembersText(rest, false)
  }

  // ------------------------------------------- scanning printed values

  /** Characters that mean nothing to the scanner outside a string. */
  ghost predicate Inert(s: string) {
    '"' !in s && '{' !in s && '}' !in s
  }

  /** Prose may even hold closing braces. */
  ghost predicate Prose(s: string) {
    '"' !in s && '{' !in s
  }

  /** The scanner is outside every string. */
  ghost predicate Plain(st: State) {
    !st.inString && !st.escape
  }

  /** Reading `s`, wherever it stands, leads back to the same state. */
  ghost predicate Neutral(st: State, s: string) {
    forall p: nat :: Run(st, s, p) == st
  }

  lemma {:induction false} NeutralConcat(st: State, a: string, b: string)
    requires Neutral(st, a) && Neutral(st, b)
    ensures Neutral(st, a + b)
  {
    forall p: nat
      ensures Run(st, a + b, p) == st
    {
      RunConcat(st, a, b, p);
    }
  }

  lemma {:induction false} NeutralInert(st: State, s: string)
    requires Plain(st)
    requires Inert(s) || (Prose(s) && st.depth == 0)
    ensures Neutral(st, s)
  {
    if s != "" {
      var init, last := s[..|s| - 1], s[|s| - 1];
      assert s == init + [last];
      NeutralInert(st, init);
    }
  }

  lemma {:induction false} BlankIsInert(s: string)
    requires IsBlank(s)
    ensures Inert(s)
  {
  }

  lemma {:induction false} EscapeThen(st: State, c: char, p: nat)
    requires st.inString && !st.escape
    ensures Run(st, ['\\', c], p) == st
  {
    RunSnoc(st, "", '\\', p);
    RunSnoc(st, ['\\'], c, p);
    assert "" + ['\\'] == ['\\'] && ['\\'] + [c] == ['\\', c];
  }

  lemma {:induction false} NeutralUnit(st: State, u: Unit)
    requires ValidUnit(u) && st.inString && !st.escape
    ensures Neutral(st, UnitText(u))
  {
    forall p: nat
      ensures Run(st, UnitText(u), p) == st
    {
      match u
      case Raw(c) =>
        RunSnoc(st, "", c, p);
        assert "" + [c] == [c];
      case Short(c) =>
        EscapeThen(st, c, p);
      case Hex(d) =>
        EscapeThen(st, 'u', p);
        RunConcat(st, "\\u", d, p);
        HexIsNeutral(st, d, p + 2);
    }
  }

  lemma {:induction false} HexIsNeutral(st: State, d: string, p: nat)
    requires st.inString && !st.escape && '"' !in d && '\\' !in d
    ensures Run(st, d, p) == st
  {
    if d != "" {
      assert d == d[..|d| - 1] + [d[|d| - 1]];
      HexIsNeutral(st, d[..|d| - 1], p);
    }
  }

  lemma {:induction false} NeutralUnits(st: State, us: seq<Unit>)
    requires ValidUnits(us) && st.inString && !st.escape
    ensures Neutral(st, UnitsText(us))
  {
    if us != [] {
      assert us[0] in us;
      NeutralUnit(st, us[0]);
      NeutralUnits(st, us[1..]);
      NeutralConcat(st, UnitText(us[0]), UnitsText(us[1..]));
    }
  }

  lemma {:induction false} NeutralString(st: State, us: seq<Unit>)
    requires ValidUnits(us) && Plain(st)
    ensures Neutral(st, StringText(us))
  {
    var open, body := st.(inString := true), UnitsText(us);
    NeutralUnits(open, us);
    forall p: nat
      ensures Run(st, StringText(us), p) == st
    {
      RunConcat(st, "\"" + body, "\"", p);
      RunConcat(st, "\"", body, p);
      RunSnoc(st, "", '"', p);
      RunSnoc(open, "", '"', p + 1 + |body|);
      assert "" + ['"'] == "\"";
    }
  }

  /** Inside an open object every printed value leaves the scanner as it was. */
  lemma {:induction false} NeutralValue(st: State, v: Value)
    requires Valid(v) && Plain(st) && st.depth > 0
    ensures Neutral(st, Text(v))
    decreases v, 0
  {
    match v
    case Scalar(s) =>
      ScalarIsInert(s);
      NeutralInert(st, s);
    case Str(us) =>
      NeutralString(st, us);
    case Arr(b, es) =>
      NeutralElems(st, es, true);
      BracketsAreNeutral(st, b, ElemsText(es, true));
    case Obj(b, ms) =>
      NeutralMembers(st.(depth := st.depth + 1), ms, true);
      NestedObjectIsNeutral(st, b, ms);
  }

  lemma {:induction false} ScalarIsInert(s: string)
    requires IsScalar(s)
    ensures Inert(s)
  {
  }

  lemma {:induction false} BracketsAreNeutral(st: State, b: string, elems: string)
    requires IsBlank(b) && Plain(st) && Neutral(st, elems)
    ensures Neutral(st, "[" + b + elems + "]")
  {
    BlankIsInert(b);
    NeutralInert(st, "[" + b);
    NeutralInert(st, "]");
    NeutralConcat(st, "[" + b, elems);
    NeutralConcat(st, "[" + b + elems, "]");
  }

  lemma {:induction false} NestedObjectIsNeutral(st: State, b: string, ms: Members)
    requires IsBlank(b) && Plain(st) && st.depth > 0
    requires Neutral(st.(depth := st.depth + 1), MembersText(ms, true))
    ensures Neutral(st, Text(Obj(b, ms)))
  {
    forall p: nat
      ensures Run(st, Text(Obj(b, ms)), p) == st
    {
      RunObject(st, st.(depth := st.depth + 1), b, ms, p);
    }
  }

  lemma {:induction false} ObjectText(b: string, ms: Members)
    ensures Text(Obj(b, ms)) == ("{" + (b + MembersText(ms, true))) + ['}']
  {
    AppendAssoc("{", b, MembersText(ms, true));
  }

  lemma {:induction false} NeutralInterior(inner: State, b: string, body: string)
    requires IsBlank(b) && Plain(inner) && Neutral(inner, body)
    ensures Neutral(inner, b + body)
  {
    BlankIsInert(b);
    NeutralInert(inner, b);
    NeutralConcat(inner, b, body);
  }

  /** From the opening brace of an object to its closing one. */
  lemma {:induction false} RunObject(st: State, inner: State, b: string, ms: Members, p: nat)
    requires IsBlank(b) && Plain(st) && Neutral(inner, MembersText(ms, true))
    requires inner == st.(depth := st.depth + 1, start := if st.depth == 0 then Some(p) else st.start)
    ensures var text := Text(Obj(b, ms));
            Run(st, text, p) == Step(inner, '}', p + |text| - 1)
  {
    var interior := b + MembersText(ms, true);
    NeutralInterior(inner, b, MembersText(ms, true));
    OpenBrace(st, inner, interior, p);
    RunSnoc(st, "{" + interior, '}', p);
    ObjectText(b, ms);
  }

  lemma {:induction false} OpenBrace(st: State, inner: State, s: string, p: nat)
    requires Plain(st) && Neutral(inner, s)
    requires inner == st.(depth := st.depth + 1, start := if st.depth == 0 then Some(p) else st.start)
    ensures Run(st, "{" + s, p) == inner
  {
    RunConcat(st, "{", s, p);
    RunSnoc(st, "", '{', p);
    assert "" + ['{'] == "{";
  }

  lemma {:induction false} NeutralElems(st: State, es: Elems, first: bool)
    requires ValidElems(es) && Plain(st) && st.depth > 0
    ensures Neutral(st, ElemsText(es, first))
    decreases es, 1
  {
    match es
    case NoElems =>
    case MoreElems(b, v, a, rest) =>
      var lead := Comma(first) + b;
      BlankIsInert(b);
      BlankIsInert(a);
      NeutralInert(st, lead);
      NeutralValue(st, v);
      NeutralInert(st, a);
      NeutralElems(st, rest, false);
      NeutralConcat(st, lead, Text(v));
      NeutralConcat(st, lead + Text(v), a);
      NeutralConcat(st, lead + Text(v) + a, ElemsText(rest, false));
  }

  lemma {:induction false} NeutralMembers(st: State, ms: Members, first: bool)
    requires ValidMembers(ms) && Plain(st) && st.depth > 0
    ensures Neutral(st, MembersText(ms, first))
    decreases ms, 1
  {
    match ms
    case NoMembers =>
    case MoreMembers(b, k, m, l, v, a, rest) =>
      var p0, p1 := Comma(first) + b, m + ":" + l;
      BlankIsInert(b);
      BlankIsInert(m);
      BlankIsInert(l);
      BlankIsInert(a);
      NeutralInert(st, p0);
      NeutralString(st, k);
      NeutralInert(st, p1);
      NeutralValue(st, v);
      NeutralInert(st, a);
      NeutralMembers(st, rest, false);
      NeutralConcat(st, p0, StringText(k));
      NeutralConcat(st, p0 + StringText(k), p1);
      NeutralConcat(st, p0 + StringText(k) + p1, Text(v));
      NeutralConcat(st, p0 + StringText(k) + p1 + Text(v), a);
      NeutralConcat(st, p0 + StringText(k) + p1 + Text(v) + a, MembersText(rest, false));
  }

  /** Reading `s` emits all of it as one span. */
  ghost predicate EmittedWhole(st: State, s: string) {
    forall p: nat :: Run(st, s, p) == st.(spans := st.spans + [Span(p, p + |s|)])
  }

  /** A printed object met outside every object is emitted whole. */
  lemma {:induction false} TopObjectIsEmitted(st: State, v: Value)
    requires v.Obj? && Valid(v) && Plain(st) && st.depth == 0 && st.start.None?
    ensures EmittedWhole(st, Text(v))
  {
    forall p: nat
      ensures Run(st, Text(v), p) == st.(spans := st.spans + [Span(p, p + |Text(v)|)])
    {
      var inner := st.(depth := 1, start := Some(p));
      NeutralMembers(inner, v.members, true);
      RunObject(st, inner, v.blank, v.members, p);
      ClosingBrace(inner, p, p + |Text(v)| - 1);
    }
  }

  lemma {:induction false} ClosingBrace(inner: State, p: nat, i: nat)
    requires Plain(inner) && inner.depth == 1 && inner.start == Some(p)
    ensures Step(inner, '}', i) == inner.(depth := 0, start := None, spans := inner.spans + [Span(p, i + 1)])
  {
  }

  // ------------------------------------------------------------ whole replies

  /** Objects, each after a stretch of prose. */
  datatype Said = Said(prose: string, json: Value)

  ghost predicate ValidSaid(s: Said) {
    Prose(s.prose) && s.json.Obj? && Valid(s.json)
  }

  ghost function Reply(said: seq<Said>): string {
    if said == [] then ""
    else
      var last := said[|said| - 1];
      Reply(said[..|said| - 1]) + last.prose + Text(last.json)
  }

  /** Where the objects of a reply are. */
  ghost function SpansOf(said: seq<Said>): (spans: seq<Span>)
    ensures |spans| == |said|
    ensures forall k :: 0 <= k < |said| ==> spans[k].start <= spans[k].end <= |Reply(said)|
  {
    if said == [] then []
    else
      var last := said[|said| - 1];
      var n := |Reply(said[..|said| - 1])| + |last.prose|;
      SpansOf(said[..|said| - 1]) + [Span(n, n + |Text(last.json)|)]
  }

  lemma {:induction false} OneMoreObject(from: State, st: State, before: string, prose: string, json: string, p: nat)
    requires Run(from, before, p) == st && Neutral(st, prose) && EmittedWhole(st, json)
    ensures var n := p + |before| + |prose|;
            Run(from, before + prose + json, p) == st.(spans := st.spans + [Span(n, n + |json|)])
  {
    RunConcat(from, before, prose, p);
    RunConcat(from, before + prose, json, p);
  }

  lemma {:induction false} ScanOfReply(said: seq<Said>)
    requires forall s :: s in said ==> ValidSaid(s)
    ensures Run(Init, Reply(said), 0) == Init.(spans := SpansOf(said))
  {
    if said != [] {
      var init, last := said[..|said| - 1], said[|said| - 1];
      assert last in said && ValidSaid(last);
      ScanOfReply(init);
      var st := Init.(spans := SpansOf(init));
      NeutralInert(st, last.prose);
      TopObjectIsEmitted(st, last.json);
      OneMoreObject(Init, st, Reply(init), last.prose, Text(last.json), 0);
    }
  }

  lemma {:induction false} SlicesOfReply(said: seq<Said>, k: nat)
    requires k < |said|
    ensures Reply(said)[SpansOf(said)[k].start..SpansOf(said)[k].end] == Text(said[k].json)
  {
    var n := |said| - 1;
    var before, last := Reply(said[..n]), said[n];
    var reply := Reply(said);
    if k < n {
      SlicesOfReply(said[..n], k);
      assert reply[..|before|] == before;
      var s := SpansOf(said[..n])[k];
      assert reply[s.start..s.end] == reply[..|before|][s.start..s.end];
    } else {
      assert reply == (before + last.prose) + Text(last.json);
    }
  }

  /** The scan of a reply finds exactly its objects, in order, as printed. */
  lemma {:induction false} ReplyIsRecovered(said: seq<Said>, tail: string)
    requires forall s :: s in said ==> ValidSaid(s)
    requires Prose(tail)
    ensures var text := Reply(said) + tail;
            var spans := Run(Init, text, 0).spans;
            && |spans| == |said|
            && forall k :: 0 <= k < |said| ==>
                 spans[k].start <= spans[k].end <= |text| && text[spans[k].start..spans[k].end] == Text(said[k].json)
  {
    var reply := Reply(said);
    var text := reply + tail;
    ScanOfReply(said);
    NeutralInert(Init.(spans := SpansOf(said)), tail);
    RunConcat(Init, reply, tail, 0);
    forall k | 0 <= k < |said|
      ensures text[SpansOf(said)[k].start..SpansOf(said)[k].end] == Text(said[k].json)
    {
      SlicesOfReply(said, k);
      var s := SpansOf(said)[k];
      assert text[..|reply|] == reply;
      assert text[s.start..s.end] == text[..|reply|][s.start..s.end];
    }
  }

  // ------------------------------------------------- choosing a candidate

  function Slices(text: string, spans: seq<Span>): seq<string> {
    seq(|spans|, k requires 0 <= k < |spans| =>
      if spans[k].start <= spans[k].end <= |text| then text[spans[k].start..spans[k].end] else "")
  }

  /** Fenced bodies, less those that repeat a whole message already taken. */
  function Fresh(trimmed: string, fences: seq<string>): seq<string> {
    if fences == [] then []
    else
      var last := fences[|fences| - 1];
      Fresh(trimmed, fences[..|fences| - 1]) + if StartsWithBrace(trimmed) && last == trimmed then [] else [last]
  }

  predicate StartsWithBrace(s: string) {
    s != "" && s[0] == '{'
  }

  ghost function Candidates(text: string, trimmed: string, fences: seq<string>): seq<string> {
    (if StartsWithBrace(trimmed) then [trimmed] else []) + Fresh(trimmed, fences)
        + Slices(text, Run(Init, text, 0).spans)
  }

  // ---- what the candidates are, part by part

  /** The fenced body repeats the whole message, which was taken because it starts with a brace. */
  ghost predicate Repeats(trimmed: string, body: string) {
    trimmed != "" && trimmed[0] == '{' && body == trimmed
  }

  /** The fenced bodies in order, those that repeat the whole message left out. */
  ghost predicate Bodies(trimmed: string, fences: seq<string>, kept: seq<nat>, bodies: seq<string>) {
    && |bodies| == |kept|
    && (forall k :: 0 <= k < |kept| ==> kept[k] < |fences| && bodies[k] == fences[kept[k]])
    && (forall j, k :: 0 <= j < k < |kept| ==> kept[j] < kept[k])
    && (forall i :: 0 <= i < |fences| ==> (i in kept <==> !Repeats(trimmed, fences[i])))
  }

  /** The texts between the positions of the spans. */
  ghost predicate Cut(text: string, spans: seq<Span>, slices: seq<string>) {
    && |slices| == |spans|
    && forall k :: 0 <= k < |spans| ==>
         spans[k].start <= spans[k].end <= |text| && slices[k] == text[spans[k].start..spans[k].end]
  }

  /** First the whole message if it starts with a brace, then the fenced bodies, then the spans. */
  ghost predicate InParts(text: string, trimmed: string, fences: seq<string>, candidates: seq<string>) {
    exists whole, kept, bodies, slices ::
      && candidates == (whole + bodies) + slices
      && whole == (if trimmed != "" && trimmed[0] == '{' then [trimmed] else [])
      && Bodies(trimmed, fences, kept, bodies)
      && Cut(text, Run(Init, text, 0).spans, slices)
  }

  lemma {:induction false} FreshAreBodies(trimmed: string, fences: seq<string>) returns (kept: seq<nat>)
    ensures Bodies(trimmed, fences, kept, Fresh(trimmed, fences))
  {
    if fences == [] {
      kept := [];
    } else {
      var init, last := fences[..|fences| - 1], fences[|fences| - 1];
      kept := FreshAreBodies(trimmed, init);
      assert |init| !in kept;
      if !Repeats(trimmed, last) {
        kept := kept + [|init|];
      }
    }
  }

  lemma {:induction false} SlicesAreCut(text: string)
    ensures Cut(text, Run(Init, text, 0).spans, Slices(text, Run(Init, text, 0).spans))
  {
    SpansOfAnyText(text);
  }

  lemma {:induction false} CandidatesAreInParts(text: string, trimmed: string, fences: seq<string>)
    ensures InParts(text, trimmed, fences, Candidates(text, trimmed, fences))
  {
    var kept := FreshAreBodies(trimmed, fences);
    SlicesAreCut(text);
    var whole := if trimmed != "" && trimmed[0] == '{' then [trimmed] else [];
    assert Candidates(text, trimmed, fences)
        == (whole + Fresh(trimmed, fences)) + Slices(text, Run(Init, text, 0).spans);
  }

  /** No fenced body is lost: each is a candidate. */
  lemma {:induction false} FencesAreCandidates(text: string, trimmed: string, fences: seq<string>, i: nat)
    requires i < |fences|
    ensures fences[i] in Candidates(text, trimmed, fences)
  {
    var kept := FreshAreBodies(trimmed, fences);
    var candidates := Candidates(text, trimmed, fences);
    var n := if trimmed != "" && trimmed[0] == '{' then 1 else 0;
    if i in kept {
      var k :| 0 <= k < |kept| && kept[k] == i;
      assert candidates[n + k] == fences[i];
    } else {
      assert candidates[0] == fences[i];
    }
  }

  /** No text cut out by the scan parses. */
  ghost predicate NoSpanParses<J>(text: string, parse: string -> Option<J>) {
    forall s :: s in Run(Init, text, 0).spans && s.start <= s.end <= |text| ==> parse(text[s.start..s.end]).None?
  }

  /**
    If no span parses, the last fenced body that does is chosen, and if none does either, the
    whole message if it starts with a brace and parses.
   */
  lemma {:induction false} FenceOrWholeIsChosen<J>(text: string, trimmed: string, fences: seq<string>,
                                                   parse: string -> Option<J>)
    requires NoSpanParses(text, parse)
    ensures var chosen := LastParsed(parse, Candidates(text, trimmed, fences));
            && (forall i :: 0 <= i < |fences| && IsLastBody(trimmed, fences, parse, i) ==>
                  chosen == Some((fences[i], parse(fences[i]).value)))
            && ((forall i :: 0 <= i < |fences| ==> !IsLastBody(trimmed, fences, parse, i)) ==>
                  chosen == if trimmed != "" && trimmed[0] == '{' && parse(trimmed).Some?
                            then Some((trimmed, parse(trimmed).value)) else None)
  {
    var spans := Run(Init, text, 0).spans;
    var slices := Slices(text, spans);
    SlicesAreCut(text);
    var whole := if trimmed != "" && trimmed[0] == '{' then [trimmed] else [];
    var bodies := Fresh(trimmed, fences);
    forall x | x in slices
      ensures parse(x).None?
    {
      var k :| 0 <= k < |slices| && slices[k] == x;
      assert spans[k] in spans;
    }
    LastParsedAppend(parse, whole + bodies, slices);
    LastParsedAppend(parse, whole, bodies);
    NoneParses(parse, slices);
    LastBody(trimmed, fences, parse);
    assert whole != [] ==> whole[..|whole| - 1] == [];
  }

  /** The last fenced body that parses and does not repeat the whole message. */
  ghost predicate IsLastBody<J>(trimmed: string, fences: seq<string>, parse: string -> Option<J>, i: nat)
    requires i < |fences|
  {
    && parse(fences[i]).Some? && !Repeats(trimmed, fences[i])
    && forall j :: i < j < |fences| ==> parse(fences[j]).None? || Repeats(trimmed, fences[j])
  }

  lemma {:induction false} NoneParses<J>(parse: string -> Option<J>, candidates: seq<string>)
    requires forall c :: c in candidates ==> parse(c).None?
    ensures LastParsed(parse, candidates) == None
  {
    if candidates != [] {
      NoneParses(parse, candidates[..|candidates| - 1]);
    }
  }

  lemma {:induction false} LastParsedAppend<J>(parse: string -> Option<J>, a: seq<string>, b: seq<string>)
    ensures LastParsed(parse, a + b) ==
              if LastParsed(parse, b).Some? then LastParsed(parse, b) else LastParsed(parse, a)
  {
    if b == [] {
      assert a + b == a;
    } else {
      SplitLast(a, b);
      LastParsedAppend(parse, a, b[..|b| - 1]);
      assert (a + b)[..|a + b| - 1] == a + b[..|b| - 1];
    }
  }

  lemma {:induction false} LastBody<J>(trimmed: string, fences: seq<string>, parse: string -> Option<J>)
    ensures var chosen := LastParsed(parse, Fresh(trimmed, fences));
            && (forall i :: 0 <= i < |fences| && IsLastBody(trimmed, fences, parse, i) ==>
                  chosen == Some((fences[i], parse(fences[i]).value)))
            && ((forall i :: 0 <= i < |fences| ==> !IsLastBody(trimmed, fences, parse, i)) ==> chosen == None)
  {
    if fences != [] {
      var n := |fences| - 1;
      var init, last := fences[..n], fences[n];
      LastBody(trimmed, init, parse);
      LastParsedAppend(parse, Fresh(trimmed, init), if Repeats(trimmed, last) then [] else [last]);
      assert [last][..0] == [];
      if Repeats(trimmed, last) || parse(last).None? {
        forall i | 0 <= i < n
          ensures IsLastBody(trimmed, fences, parse, i) <==> IsLastBody(trimmed, init, parse, i)
        {
        }
      } else {
        assert IsLastBody(trimmed, fences, parse, n);
      }
    }
  }

  /** The chosen candidate parses and no later one does; nothing is chosen only if none parses. */
  lemma {:induction false} LastParsedIs<J>(parse: string -> Option<J>, candidates: seq<string>)
    ensures match LastParsed(parse, candidates)
            case None => forall c :: c in candidates ==> parse(c).None?
            case Some(chosen) =>
              exists i :: 0 <= i < |candidates| && candidates[i] == chosen.0 && parse(chosen.0) == Some(chosen.1) &&
                forall j :: i < j < |candidates| ==> parse(candidates[j]).None?
  {
    if candidates != [] {
      var n := |candidates| - 1;
      LastParsedIs(parse, candidates[..n]);
      assert candidates == candidates[..n] + [candidates[n]];
      if parse(candidates[n]).None? && LastParsed(parse, candidates).Some? {
        var chosen := LastParsed(parse, candidates).value;
        var i :| 0 <= i < n && candidates[..n][i] == chosen.0 && parse(chosen.0) == Some(chosen.1) &&
                 forall j :: i < j < n ==> parse(candidates[..n][j]).None?;
        assert candidates[i] == chosen.0 && forall j :: i < j < n ==> candidates[j] == candidates[..n][j];
      }
    }
  }

  /** `trimmed` is the message without surrounding blanks, `fences` the bodies of its fenced blocks. */
  method ExtractJsonCandidates(text: string, trimmed: string, fences: seq<string>) returns (candidates: seq<string>)
    ensures candidates == Candidates(text, trimmed, fences)
    ensures InParts(text, trimmed, fences, candidates)
  {
    candidates := [];
    var trimmedAdded := false;
    if StartsWithBrace(trimmed) {
      candidates, trimmedAdded := [trimmed], true;
    }
    var first := candidates;
    for i := 0 to |fences|
      invariant candidates == first + Fresh(trimmed, fences[..i])
    {
      assert fences[..i + 1][..i] == fences[..i];
      if trimmedAdded && candidates[0] == fences[i] {
      } else {
        AppendAssoc(first, Fresh(trimmed, fences[..i]), [fences[i]]);
        candidates := candidates + [fences[i]];
      }
    }
    assert fences[..|fences|] == fences;
    var spans := ScanSpans(text);
    candidates := candidates + Slices(text, spans);
    CandidatesAreInParts(text, trimmed, fences);
  }

  /** The last candidate that parses, with its value. */
  ghost function LastParsed<J>(parse: string -> Option<J>, candidates: seq<string>): Option<(string, J)> {
    if candidates == [] then None
    else
      var last := candidates[|candidates| - 1];
      if parse(last).Some? then Some((last, parse(last).value)) else LastParsed(parse, candidates[..|candidates| - 1])
  }

  method ChooseLast<J>(candidates: seq<string>, parse: string -> Option<J>) returns (chosen: Option<(string, J)>)
    ensures chosen == LastParsed(parse, candidates)
  {
    chosen := None;
    for i := 0 to |candidates|
      invariant chosen == LastParsed(parse, candidates[..i])
    {
      assert candidates[..i + 1][..i] == candidates[..i];
      match parse(candidates[i]) {
        case Some(v) => chosen := Some((candidates[i], v));
        case None =>
      }
    }
    assert candidates[..|candidates|] == candidates;
  }

  method ParseLlmJson<J>(text: string, trimmed: string, fences: seq<string>, parse: string -> Option<J>)
    returns (value: Option<J>)
    ensures var last := LastParsed(parse, Candidates(text, trimmed, fences));
            value == if last.Some? then Some(last.value.1) else None
  {
    var candidates := ExtractJsonCandidates(text, trimmed, fences);
    var last := ChooseLast(candidates, parse);
    value := if last.Some? then Some(last.value.1) else None;
  }

  datatype ParseResult<J> = Ok(value: J) | NoJson | InvalidJson | SchemaMismatch(raw: string)

  /** An earlier candidate is never tried when the last one that parses misses the schema. */
  method ParseLlmJsonAs<J>(text: string, trimmed: string, fences: seq<string>, parse: string -> Option<J>,
                           schema: J -> bool)
    returns (result: ParseResult<J>)
    ensures var candidates := Candidates(text, trimmed, fences);
            var last := LastParsed(parse, candidates);
            && (result.NoJson? <==> candidates == [])
            && (result.InvalidJson? <==> candidates != [] && last.None?)
            && (result.Ok? <==> last.Some? && schema(last.value.1))
            && (result.Ok? ==> result.value == last.value.1)
            && (result.SchemaMismatch? ==> result.raw == last.value.0)
  {
    var candidates := ExtractJsonCandidates(text, trimmed, fences);
    if |candidates| == 0 {
      return NoJson;
    }
    var chosen := ChooseLast(candidates, parse);
    if chosen.None? {
      return InvalidJson;
    }
    return if schema(chosen.value.1) then Ok(chosen.value.1) else SchemaMismatch(chosen.value.0);
  }

  /** Whatever the whole message or its fences contain, the last printed object is the one chosen. */
  lemma {:induction false} LastObjectIsChosen<J>(said: seq<Said>, tail: string, trimmed: string, fences: seq<string>,
                                                 parse: string -> Option<J>)
    requires said != [] && (forall s :: s in said ==> ValidSaid(s)) && Prose(tail)
    requires parse(Text(said[|said| - 1].json)).Some?
    ensures var printed := Text(said[|said| - 1].json);
            LastParsed(parse, Candidates(Reply(said) + tail, trimmed, fences)) == Some((printed, parse(printed).value))
  {
    ReplyIsRecovered(said, tail);
    var candidates := Candidates(Reply(said) + tail, trimmed, fences);
    assert candidates[|candidates| - 1] == Text(said[|said| - 1].json);
  }

  /** The objects found in a reply are exactly the printed ones. */
  lemma {:induction false} SlicesAreTheObjects(said: seq<Said>, tail: string)
    requires (forall s :: s in said ==> ValidSaid(s)) && Prose(tail)
    ensures var text := Reply(said) + tail;
            Slices(text, Run(Init, text, 0).spans) == seq(|said|, k requires 0 <= k < |said| => Text(said[k].json))
  {
    ReplyIsRecovered(said, tail);
  }

  // ---------------------------------- when exactly an object is found

  /** Position `n` is where an object can begin: outside strings and outside every object. */
  ghost predicate OpensAt(text: string, n: nat) {
    n < |text| && text[n] == '{' && Plain(Run(Init, text[..n], 0)) && Run(Init, text[..n], 0).depth == 0
  }

  /** Only an opening position becomes a start, and only a start becomes a span's start. */
  lemma {:induction false} StartsComeFromSteps(st: State, c: char, i: nat)
    requires st.escape ==> st.inString
    ensures var st' := Step(st, c, i);
            && (st'.escape ==> st'.inString)
            && (st'.start.Some? ==>
                st'.start == st.start || (st'.start.value == i && c == '{' && Plain(st) && st.depth == 0))
            && (forall k :: 0 <= k < |st'.spans| ==>
                  (k < |st.spans| && st'.spans[k] == st.spans[k])
                      || (st.start.Some? && st'.spans[k].start == st.start.value))
  {
  }

  lemma {:induction false} StartsAreOpenings(text: string, i: nat)
    requires i <= |text|
    ensures var st := Run(Init, text[..i], 0);
            && (st.start.Some? ==> OpensAt(text, st.start.value))
            && (forall k :: 0 <= k < |st.spans| ==> OpensAt(text, st.spans[k].start))
            && (st.escape ==> st.inString)
  {
    if i > 0 {
      var before, c := text[..i - 1], text[i - 1];
      StartsAreOpenings(text, i - 1);
      RunSnoc(Init, before, c, 0);
      assert text[..i] == before + [c];
      StartsComeFromSteps(Run(Init, before, 0), c, i - 1);
    }
  }

  lemma {:induction false} SpansOnlyGrow(st: State, s: string, p: nat)
    ensures st.spans <= Run(st, s, p).spans
  {
    if s != "" {
      SpansOnlyGrow(st, s[..|s| - 1], p);
    }
  }

  lemma {:induction false} EmittedSpanStays(from: State, st: State, before: string, json: string, after: string, p: nat)
    requires Run(from, before, p) == st && EmittedWhole(st, json)
    ensures var n := p + |before|;
            Span(n, n + |json|) in Run(from, before + json + after, p).spans
  {
    var n := p + |before|;
    RunConcat(from, before, json, p);
    var found := Run(from, before + json, p);
    assert found.spans[|st.spans|] == Span(n, n + |json|);
    RunConcat(from, before + json, after, p);
    SpansOnlyGrow(found, after, p + |before + json|);
  }

  lemma {:induction false} NothingOpenAtDepthZero(before: string)
    ensures var st := Run(Init, before, 0);
            st.depth == 0 ==> st.start.None?
  {
    assert before[..|before|] == before;
    RunSound(before, |before|);
  }

  lemma {:induction false} HiddenStartIsNoSpan(text: string, n: nat, end: nat)
    requires n <= |text| && !OpensAt(text, n)
    ensures Span(n, end) !in Run(Init, text, 0).spans
  {
    StartsAreOpenings(text, |text|);
    assert text[..|text|] == text;
  }

  /**
    No string literal is open at the end of the text, and no prefix has more unclosed braces
    than the whole: every brace opened outside strings is closed, stray closing ones aside.
   */
  ghost predicate Exposed(before: string) {
    LexAfter(before).Outside? && forall i :: 0 <= i <= |before| ==> Net(before) <= Net(before[..i])
  }

  /** The depth is the net count of braces above its lowest value over all prefixes. */
  ghost predicate IsHeight(text: string, depth: int) {
    && (forall i :: 0 <= i <= |text| ==> Net(text) - Net(text[..i]) <= depth)
    && exists i :: 0 <= i <= |text| && Net(text) - Net(text[..i]) == depth
  }

  lemma {:induction false} HeightStep(text: string, c: char, depth: nat)
    requires IsHeight(text, depth)
    ensures var rise := Net(text + [c]) - Net(text);
            -1 <= rise ==> IsHeight(text + [c], if depth + rise < 0 then 0 else depth + rise)
  {
    var longer := text + [c];
    assert longer[..|longer|] == longer && text[..|text|] == text;
    forall i | 0 <= i <= |text|
      ensures Net(longer[..i]) == Net(text[..i])
    {
      assert longer[..i] == text[..i];
    }
    var low :| 0 <= low <= |text| && Net(text) - Net(text[..low]) == depth;
    assert Net(longer) - Net(longer[..low]) == depth + (Net(longer) - Net(text));
  }

  lemma {:induction false} DepthIsHeight(before: string)
    ensures var st := Run(Init, before, 0);
            LexOf(st) == LexAfter(before) && (st.escape ==> st.inString) && IsHeight(before, st.depth)
  {
    if before == "" {
      assert Net(before) - Net(before[..0]) == 0;
    } else {
      var init, c := before[..|before| - 1], before[|before| - 1];
      assert before == init + [c];
      DepthIsHeight(init);
      HeightStep(init, c, Run(Init, init, 0).depth);
    }
  }

  /** The scanner is outside strings and objects exactly after such a text. */
  lemma {:induction false} ExposedIffScannedPast(before: string)
    ensures Exposed(before) <==> Plain(Run(Init, before, 0)) && Run(Init, before, 0).depth == 0
  {
    DepthIsHeight(before);
    assert before[..|before|] == before;
  }

  /** The scan of the whole text emits exactly the middle part as a span. */
  ghost predicate Found(before: string, json: string, after: string) {
    Span(|before|, |before| + |json|) in Run(Init, before + json + after, 0).spans
  }

  lemma {:induction false} ReachedObjectIsFound(before: string, v: Value, after: string)
    requires v.Obj? && Valid(v) && Exposed(before)
    ensures Found(before, Text(v), after)
  {
    ExposedIffScannedPast(before);
    var st := Run(Init, before, 0);
    NothingOpenAtDepthZero(before);
    TopObjectIsEmitted(st, v);
    EmittedIsFound(before, st, Text(v), after);
  }

  lemma {:induction false} EmittedIsFound(before: string, st: State, json: string, after: string)
    requires st == Run(Init, before, 0) && EmittedWhole(st, json)
    ensures Found(before, json, after)
  {
    EmittedSpanStays(Init, st, before, json, after, 0);
  }

  lemma {:induction false} UnreachedObjectIsNot(before: string, json: string, after: string)
    requires !Exposed(before)
    ensures !Found(before, json, after)
  {
    ExposedIffScannedPast(before);
    var text := before + json + after;
    assert text[..|before|] == before;
    HiddenStartIsNoSpan(text, |before|, |before| + |json|);
  }

  /**
    Between any two texts, a printed object is found if and only if the text before it leaves no
    string literal and no brace open.
   */
  lemma {:induction false} ObjectIsFoundIff(before: string, v: Value, after: string)
    requires v.Obj? && Valid(v)
    ensures Found(before, Text(v), after) <==> Exposed(before)
  {
    if Exposed(before) {
      ReachedObjectIsFound(before, v, after);
    } else {
      UnreachedObjectIsNot(before, Text(v), after);
    }
  }

  /** One unpaired quote in the prose hides the object after it. */
  lemma {:induction false} UnpairedQuoteHidesObject(v: Value)
    requires v.Obj? && Valid(v)
    ensures Span(1, 1 + |Text(v)|) !in Run(Init, "\"" + Text(v), 0).spans
  {
    ObjectIsFoundIff("\"", v, "");
    assert "\""[..0] == "" && "\"" + Text(v) + "" == "\"" + Text(v);
  }
}
