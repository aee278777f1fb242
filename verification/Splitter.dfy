/**
  Splitting a message into parts of bounded converted length (src/channels/telegram.ts). A
  string is a sequence of code points; `len` stands for the length after conversion, `patterns`
  for the anchored regular expressions of formatted spans.
 */
module Splitter {
  import opened Common

  type Length = string -> int

  ghost predicate Fits(len: Length, max: int, s: string) {
    len(s) <= max
  }

  /** A longer prefix is never shorter after conversion. */
  ghost predicate PrefixMonotone(len: Length) {
    forall s: string, i, j :: 0 <= i <= j <= |s| ==> len(s[..i]) <= len(s[..j])
  }

  function Joined(parts: seq<string>): string {
    if parts == [] then "" else Joined(parts[..|parts| - 1]) + parts[|parts| - 1]
  }

  lemma {:induction false} JoinedSnoc(parts: seq<string>, last: string)
    ensures Joined(parts + [last]) == Joined(parts) + last
  {
    assert (parts + [last])[..|parts|] == parts;
  }

  /** One more part after what stands before. */
  lemma {:induction false} JoinedTake(before: string, parts: seq<string>, k: nat)
    requires k < |parts|
    ensures before + Joined(parts[..k + 1]) == (before + Joined(parts[..k])) + parts[k]
  {
    assert parts[..k + 1] == parts[..k] + [parts[k]];
    JoinedSnoc(parts[..k], parts[k]);
    AppendAssoc(before, Joined(parts[..k]), parts[k]);
  }

  lemma {:induction false} JoinedCons(first: string, parts: seq<string>)
    ensures Joined([first] + parts) == first + Joined(parts)
  {
    if parts == [] {
      assert [first] + parts == [first] && [first][..0] == [];
    } else {
      var init, last := parts[..|parts| - 1], parts[|parts| - 1];
      JoinedCons(first, init);
      assert [first] + parts == ([first] + init) + [last];
      JoinedSnoc([first] + init, last);
      AppendAssoc(first, Joined(init), last);
    }
  }

  // -------------------------------------------------------------- hard cut

  /**
    Cuts off a non-empty head by binary search. The head fits unless it is a single code point;
    with a monotone length it is the longest that fits.
   */
  method HardCutToMax(s: string, len: Length, max: int) returns (head: string, tail: string)
    ensures head + tail == s && (s != "" ==> head != "")
    ensures Fits(len, max, head) || |head| <= 1
    ensures PrefixMonotone(len) ==> forall k :: |head| < k <= |s| ==> !Fits(len, max, s[..k])
  {
    var lo, hi, best := 1, |s|, 1;
    while lo <= hi
      invariant 1 <= lo && hi <= |s| && lo <= hi + 1
      invariant best == lo - 1 || (best == 1 && lo == 1)
      invariant best >= 1 && (s != "" ==> best <= |s|)
      invariant best > 1 ==> Fits(len, max, s[..best])
      invariant PrefixMonotone(len) ==> forall k :: hi < k <= |s| ==> !Fits(len, max, s[..k])
      decreases hi - lo
    {
      var mid := (lo + hi) / 2;
      if len(s[..mid]) <= max {
        best, lo := mid, mid + 1;
      } else {
        ghost var before := hi;
        hi := mid - 1;
        if PrefixMonotone(len) {
          forall k | hi < k <= |s|
            ensures !Fits(len, max, s[..k])
          {
            assert len(s[..mid]) <= len(s[..k]);
          }
        }
      }
    }
    if s == "" {
      return "", "";
    }
    head, tail := s[..best], s[best..];
  }

  // -------------------------------------------------------------- tokenizing

  datatype Span = Formatted(text: string) | Text(text: string)

  /** A pattern gives the length of its match at the start of a string, or 0. */
  type Pattern = string -> nat

  /** The first pattern that matches decides. */
  function FirstMatch(patterns: seq<Pattern>, rest: string): nat {
    if patterns == [] then 0
    else if patterns[0](rest) > 0 then patterns[0](rest)
    else FirstMatch(patterns[1..], rest)
  }

  /** A match is a prefix. */
  ghost predicate Prefixes(patterns: seq<Pattern>) {
    forall i, s :: 0 <= i < |patterns| ==> patterns[i](s) <= |s|
  }

  lemma {:induction false} FirstMatchIsPrefix(patterns: seq<Pattern>, rest: string)
    requires Prefixes(patterns)
    ensures FirstMatch(patterns, rest) <= |rest|
  {
    if patterns != [] {
      assert patterns[0](rest) <= |rest|;
      FirstMatchIsPrefix(patterns[1..], rest);
    }
  }

  predicate StartsSpan(c: char) {
    c == '`' || c == '[' || c == '*' || c == '_'
  }

  ghost function PlainRun(rest: string, j: nat): nat
    requires j <= |rest|
    decreases |rest| - j
  {
    if j < |rest| && !StartsSpan(rest[j]) then PlainRun(rest, j + 1) else j
  }

  lemma {:induction false} PlainRunFacts(rest: string, j: nat)
    requires j <= |rest|
    ensures j <= PlainRun(rest, j) <= |rest|
    ensures forall k :: j <= k < PlainRun(rest, j) ==> !StartsSpan(rest[k])
    ensures PlainRun(rest, j) < |rest| ==> StartsSpan(rest[PlainRun(rest, j)])
    decreases |rest| - j
  {
    if j < |rest| && !StartsSpan(rest[j]) {
      PlainRunFacts(rest, j + 1);
    }
  }

  /** The span at the start of what is left: a formatted one, else text up to where one may start. */
  ghost function FirstSpan(patterns: seq<Pattern>, rest: string): (span: Span)
    requires Prefixes(patterns) && rest != ""
    ensures span.text != "" && span.text <= rest
  {
    var m := FirstMatch(patterns, rest);
    FirstMatchIsPrefix(patterns, rest);
    PlainRunFacts(rest, 1);
    if m > 0 then Formatted(rest[..m]) else Text(rest[..PlainRun(rest, 1)])
  }

  lemma {:induction false} FirstMatchMeans(patterns: seq<Pattern>, rest: string)
    ensures FirstMatch(patterns, rest) == 0 <==> forall i :: 0 <= i < |patterns| ==> patterns[i](rest) == 0
    ensures FirstMatch(patterns, rest) > 0 ==>
              exists i :: 0 <= i < |patterns| && patterns[i](rest) == FirstMatch(patterns, rest)
                && forall j :: 0 <= j < i ==> patterns[j](rest) == 0
  {
    if patterns != [] {
      FirstMatchMeans(patterns[1..], rest);
      var m := FirstMatch(patterns, rest);
      if patterns[0](rest) == 0 && m > 0 {
        var i :| 0 <= i < |patterns[1..]| && patterns[1..][i](rest) == m
            && forall j :: 0 <= j < i ==> patterns[1..][j](rest) == 0;
        assert patterns[i + 1](rest) == m;
        forall j | 0 <= j < i + 1
          ensures patterns[j](rest) == 0
        {
          assert j > 0 ==> patterns[1..][j - 1] == patterns[j];
        }
      }
      assert forall i :: 0 <= i < |patterns| ==> patterns[i] == if i == 0 then patterns[0] else patterns[1..][i - 1];
    }
  }

  /** Formatted if a pattern matches, the first that does deciding; else text up to one of four characters. */
  lemma {:induction false} FirstSpanMeans(patterns: seq<Pattern>, rest: string)
    requires Prefixes(patterns) && rest != ""
    ensures var span := FirstSpan(patterns, rest);
            var n := |span.text|;
            && 0 < n <= |rest| && span.text == rest[..n]
            && if span.Formatted? then
                 exists i :: 0 <= i < |patterns| && patterns[i](rest) == n
                   && forall j :: 0 <= j < i ==> patterns[j](rest) == 0
               else
                 && (forall i :: 0 <= i < |patterns| ==> patterns[i](rest) == 0)
                 && (forall k :: 0 < k < n ==> rest[k] !in "`[*_") && (n < |rest| ==> rest[n] in "`[*_")
  {
    FirstMatchMeans(patterns, rest);
    FirstMatchIsPrefix(patterns, rest);
    PlainRunFacts(rest, 1);
  }

  ghost function Spans(patterns: seq<Pattern>, rest: string): seq<Span>
    requires Prefixes(patterns)
    decreases |rest|
  {
    if rest == "" then []
    else
      var first := FirstSpan(patterns, rest);
      [first] + Spans(patterns, rest[|first.text|..])
  }

  function Texts(spans: seq<Span>): seq<string> {
    seq(|spans|, i requires 0 <= i < |spans| => spans[i].text)
  }

  lemma {:induction false} TextsCons(first: Span, more: seq<Span>)
    ensures Texts([first] + more) == [first.text] + Texts(more)
  {
  }

  /** The spans are the paragraph, cut. */
  lemma {:induction false} SpansJoin(patterns: seq<Pattern>, rest: string)
    requires Prefixes(patterns)
    ensures Joined(Texts(Spans(patterns, rest))) == rest
    ensures forall s :: s in Spans(patterns, rest) ==> s.text != ""
    decreases |rest|
  {
    if rest != "" {
      var first := FirstSpan(patterns, rest);
      var more := Spans(patterns, rest[|first.text|..]);
      SpansJoin(patterns, rest[|first.text|..]);
      TextsCons(first, more);
      JoinedCons(first.text, Texts(more));
    }
  }

  lemma {:induction false} SpansNext(patterns: seq<Pattern>, paragraph: string, i: nat, n: nat, spans: seq<Span>)
    requires Prefixes(patterns) && i < |paragraph| && n == |FirstSpan(patterns, paragraph[i..]).text|
    ensures i + n <= |paragraph|
    ensures spans + Spans(patterns, paragraph[i..]) ==
              spans + [FirstSpan(patterns, paragraph[i..])] + Spans(patterns, paragraph[i + n..])
  {
    var rest := paragraph[i..];
    assert rest[n..] == paragraph[i + n..];
    AppendAssoc(spans, [FirstSpan(patterns, rest)], Spans(patterns, rest[n..]));
  }

  method TokenizeSpans(patterns: seq<Pattern>, paragraph: string) returns (spans: seq<Span>)
    requires Prefixes(patterns)
    ensures spans == Spans(patterns, paragraph)
  {
    spans := [];
    var i := 0;
    assert paragraph[0..] == paragraph;
    while i < |paragraph|
      invariant 0 <= i <= |paragraph|
      invariant spans + Spans(patterns, paragraph[i..]) == Spans(patterns, paragraph)
    {
      var rest := paragraph[i..];
      var span := NextSpan(patterns, rest);
      var n := |span.text|;
      SpansNext(patterns, paragraph, i, n, spans);
      spans := spans + [span];
      i := i + n;
    }
  }

  method NextSpan(patterns: seq<Pattern>, rest: string) returns (span: Span)
    requires Prefixes(patterns) && rest != ""
    ensures span == FirstSpan(patterns, rest)
  {
    var m := FirstMatch(patterns, rest);
    FirstMatchIsPrefix(patterns, rest);
    if m > 0 {
      return Formatted(rest[..m]);
    }
    var j := 1;
    while j < |rest| && !StartsSpan(rest[j])
      invariant 1 <= j <= |rest| && PlainRun(rest, j) == PlainRun(rest, 1)
    {
      j := j + 1;
    }
    return Text(rest[..j]);
  }

  // -------------------------------------------------------------- packing

  /** A part is within the limit, unless it is one code point that alone exceeds it. */
  ghost predicate Acceptable(len: Length, max: int, part: string) {
    part != "" && (Fits(len, max, part) || |part| == 1)
  }

  /**
    What placing a chunk does to the parts emitted and the one being filled: it goes on the
    current part behind the joiner if that fits, else the current part is closed and the chunk,
    if it fits, begins the next.
   */
  ghost predicate Placed(len: Length, max: int, out0: seq<string>, current0: string, chunk: string, joiner: string,
                         out: seq<string>, current: string) {
    var candidate := if current0 == "" then chunk else current0 + joiner + chunk;
    if Fits(len, max, candidate) then out == out0 && current == candidate
    else
      && out == out0 + (if current0 == "" then [] else [current0])
      && current == if Fits(len, max, chunk) then chunk else ""
  }

  /** Chunks placed one after another. */
  ghost predicate AllPlaced(len: Length, max: int, out0: seq<string>, current0: string, chunks: seq<string>,
                            out: seq<string>, current: string) {
    if chunks == [] then out == out0 && current == current0
    else
      var n := |chunks| - 1;
      exists o, c :: AllPlaced(len, max, out0, current0, chunks[..n], o, c)
        && Placed(len, max, o, c, chunks[n], "", out, current)
  }

  lemma {:induction false} PlacedNext(len: Length, max: int, out0: seq<string>, current0: string, chunks: seq<string>,
                                      k: nat, o: seq<string>, c: string, out: seq<string>, current: string)
    requires k < |chunks| && AllPlaced(len, max, out0, current0, chunks[..k], o, c)
    requires Placed(len, max, o, c, chunks[k], "", out, current)
    ensures AllPlaced(len, max, out0, current0, chunks[..k + 1], out, current)
  {
    assert chunks[..k + 1][..k] == chunks[..k];
  }

  /** A text cut by force: each part is a head that fits, or a single code point, and as long as may be. */
  ghost predicate CutByForce(len: Length, max: int, text: string, parts: seq<string>)
    decreases |parts|
  {
    if parts == [] then text == ""
    else HeadOf(len, max, text, parts[0]) && CutByForce(len, max, text[|parts[0]|..], parts[1..])
  }

  ghost predicate HeadOf(len: Length, max: int, text: string, head: string) {
    && head != "" && head <= text && (Fits(len, max, head) || |head| == 1)
    && (PrefixMonotone(len) ==> forall k :: |head| < k <= |text| ==> !Fits(len, max, text[..k]))
  }

  /** What is done of a text, and its rest, however that is cut. */
  ghost predicate CutSoFar(len: Length, max: int, text: string, done: seq<string>, rest: string) {
    forall more :: CutByForce(len, max, rest, more) ==> CutByForce(len, max, text, done + more)
  }

  lemma {:induction false} CutNext(len: Length, max: int, text: string, done: seq<string>, rest: string, head: string)
    requires CutSoFar(len, max, text, done, rest) && HeadOf(len, max, rest, head)
    ensures CutSoFar(len, max, text, done + [head], rest[|head|..])
  {
    forall more | CutByForce(len, max, rest[|head|..], more)
      ensures CutByForce(len, max, text, done + [head] + more)
    {
      assert ([head] + more)[1..] == more;
      assert CutByForce(len, max, rest, [head] + more);
      AppendAssoc(done, [head], more);
    }
  }

  /** The parts emitted and the one being filled. */
  class Packer {
    const len: Length
    const max: int
    var out: seq<string>
    var current: string

    constructor (len: Length, max: int)
      ensures this.len == len && this.max == max && Valid() && All() == "" && out == [] && current == ""
    {
      this.len, this.max, out, current := len, max, [], "";
    }

    ghost predicate Valid()
      reads this
    {
      && (forall p :: p in out ==> Acceptable(len, max, p))
      && (current != "" ==> Fits(len, max, current))
    }

    /** The parts if nothing more comes. */
    ghost function Parts(): seq<string>
      reads this
    {
      out + if current == "" then [] else [current]
    }

    ghost function All(): string
      reads this
    {
      Joined(out) + current
    }

    method Flush()
      requires Valid()
      modifies this`out, this`current
      ensures Valid() && current == "" && All() == old(All())
      ensures out == old(out) + if old(current) == "" then [] else [old(current)]
    {
      if current != "" {
        JoinedSnoc(out, current);
        out := out + [current];
        current := "";
      }
    }

    method Finish() returns (parts: seq<string>)
      requires Valid()
      modifies this`out, this`current
      ensures Joined(parts) == old(All())
      ensures parts == old(Parts())
      ensures forall p :: p in parts ==> Acceptable(len, max, p)
    {
      Flush();
      parts := out;
    }

    method TryAdd(chunk: string, joiner: string) returns (added: bool)
      requires Valid()
      modifies this`current
      ensures Valid()
      ensures added <==> Fits(len, max, if old(current) == "" then chunk else old(current) + joiner + chunk)
      ensures current == if !added then old(current)
                         else if old(current) == "" then chunk
                         else old(current) + joiner + chunk
    {
      var candidate := if current == "" then chunk else current + joiner + chunk;
      added := len(candidate) <= max;
      if added {
        current := candidate;
      }
    }

    method Emit(part: string)
      requires Valid() && current == "" && Acceptable(len, max, part)
      modifies this`out
      ensures Valid() && All() == old(All()) + part && out == old(out) + [part]
    {
      JoinedSnoc(out, part);
      out := out + [part];
    }

    /** Adds a chunk to the current part, or else starts a new one with it. */
    method AddOrStart(chunk: string, joiner: string) returns (added: bool)
      requires Valid()
      modifies this
      ensures Valid() && (!added ==> current == "" && All() == old(All()) && !Fits(len, max, chunk))
      ensures added && joiner == "" ==> All() == old(All()) + chunk
      ensures added ==> All() == old(All()) + chunk || All() == old(All()) + joiner + chunk
      ensures var candidate := if old(current) == "" then chunk else old(current) + joiner + chunk;
              added <==> Fits(len, max, chunk) || Fits(len, max, candidate)
      ensures Placed(len, max, old(out), old(current), chunk, joiner, out, current)
    {
      added := TryAdd(chunk, joiner);
      if added {
        AppendAssoc(Joined(out), old(current), chunk);
        AppendAssoc(Joined(out), old(current), joiner);
        AppendAssoc(Joined(out), old(current) + joiner, chunk);
        return;
      }
      Flush();
      added := TryAdd(chunk, joiner);
    }

    /** Cuts what is too long into parts of its own. */
    method HardCut(text: string) returns (ghost parts: seq<string>)
      requires Valid() && current == ""
      modifies this
      ensures Valid() && current == "" && All() == old(All()) + text
      ensures out == old(out) + parts && CutByForce(len, max, text, parts)
    {
      var remaining := text;
      parts := [];
      assert forall more: seq<string> :: [] + more == more;
      while remaining != ""
        invariant Valid() && current == "" && All() + remaining == old(All()) + text
        invariant out == old(out) + parts && CutSoFar(len, max, text, parts, remaining)
        decreases |remaining|
      {
        ghost var done := parts;
        remaining, parts := CutOff(remaining, text, parts);
        AppendAssoc(old(out), done, [parts[|parts| - 1]]);
      }
      assert parts + [] == parts;
    }

    /** One part more. */
    method CutOff(remaining: string, ghost text: string, ghost parts: seq<string>)
      returns (tail: string, ghost more: seq<string>)
      requires Valid() && current == "" && remaining != "" && CutSoFar(len, max, text, parts, remaining)
      modifies this
      ensures Valid() && current == "" && All() + tail == old(All()) + remaining && |tail| < |remaining|
      ensures |more| == |parts| + 1 && more[..|parts|] == parts && out == old(out) + [more[|parts|]]
      ensures CutSoFar(len, max, text, more, tail)
    {
      var head;
      head, tail := HardCutToMax(remaining, len, max);
      AppendAssoc(All(), head, tail);
      CutNext(len, max, text, parts, remaining, head);
      more := parts + [head];
      assert remaining[|head|..] == tail;
      var added := TryAdd(head, "");
      if added {
        Flush();
      } else {
        Emit(head);
      }
    }
  }

  // ----------------------------------------------------- one long paragraph

  /** Where a run of blanks, or of other characters, ends. */
  method EndOfRun(text: string, i: nat, blank: bool, isBlank: char -> bool) returns (j: nat)
    requires i <= |text|
    ensures i <= j <= |text|
    ensures forall k :: i <= k < j ==> isBlank(text[k]) == blank
    ensures j < |text| ==> isBlank(text[j]) != blank
  {
    j := i;
    while j < |text| && isBlank(text[j]) == blank
      invariant i <= j <= |text|
      invariant forall k :: i <= k < j ==> isBlank(text[k]) == blank
    {
      j := j + 1;
    }
  }

  /** Every other piece holds no blank, the ones between nothing else, at least one. */
  ghost predicate Alternate(words: seq<string>, isBlank: char -> bool) {
    forall k :: 0 <= k < |words| ==> OfOneKind(words[k], k % 2 == 1, isBlank)
  }

  ghost predicate OfOneKind(word: string, blank: bool, isBlank: char -> bool) {
    (blank ==> word != "") && forall k :: 0 <= k < |word| ==> isBlank(word[k]) == blank
  }

  lemma {:induction false} OneMoreWord(text: string, words: seq<string>, i: nat, j: nat, isBlank: char -> bool)
    requires i <= j <= |text| && Joined(words) == text[..i] && Alternate(words, isBlank)
    requires |words| % 2 == 1 ==> i < j
    requires forall k :: i <= k < j ==> isBlank(text[k]) == (|words| % 2 == 1)
    ensures Joined(words + [text[i..j]]) == text[..j] && Alternate(words + [text[i..j]], isBlank)
  {
    JoinedSnoc(words, text[i..j]);
    assert text[..j] == text[..i] + text[i..j];
    assert forall k :: 0 <= k < j - i ==> text[i..j][k] == text[i + k];
    assert OfOneKind(text[i..j], |words| % 2 == 1, isBlank);
  }

  ghost predicate AtBlanks(words: seq<string>, text: string, isBlank: char -> bool) {
    Joined(words) == text && |words| % 2 == 1 && Alternate(words, isBlank)
  }

  /** Words and the blank stretches between them, as a capturing split yields them. */
  method SplitAtBlanks(text: string, isBlank: char -> bool) returns (words: seq<string>)
    ensures AtBlanks(words, text, isBlank)
  {
    words := [];
    var i: nat := 0;
    var done := false;
    while !done
      invariant i <= |text| && Joined(words) == text[..i] && Alternate(words, isBlank)
      invariant |words| % 2 == if done then 1 else 0
      invariant done ==> i == |text|
      decreases |text| - i, !done
    {
      words, i := NextWord(text, words, i, false, isBlank);
      if i == |text| {
        done := true;
      } else {
        words, i := NextWord(text, words, i, true, isBlank);
      }
    }
    assert text[..|text|] == text;
  }

  /** One piece more, as long as its kind goes on. */
  method NextWord(text: string, words: seq<string>, i: nat, blank: bool, isBlank: char -> bool)
    returns (more: seq<string>, j: nat)
    requires i <= |text| && Joined(words) == text[..i] && Alternate(words, isBlank) && blank == (|words| % 2 == 1)
    requires blank ==> i < |text| && isBlank(text[i])
    ensures i <= j <= |text| && (blank ==> i < j) && (j < |text| ==> isBlank(text[j]) != blank)
    ensures Joined(more) == text[..j] && Alternate(more, isBlank) && |more| == |words| + 1
  {
    j := EndOfRun(text, i, blank, isBlank);
    OneMoreWord(text, words, i, j, isBlank);
    more := words + [text[i..j]];
  }

  /**
    The parts of a paragraph are the paragraph, cut. Each fits unless it is a single code point
    that alone does not.
   */
  method SplitParagraphIntoAtomicSpans(
    paragraph: string, len: Length, max: int, patterns: seq<Pattern>, isBlank: char -> bool) returns (out: seq<string>)
    requires Prefixes(patterns)
    ensures Joined(out) == paragraph
    ensures forall p :: p in out ==> Acceptable(len, max, p)
  {
    var spans := TokenizeSpans(patterns, paragraph);
    SpansJoin(patterns, paragraph);
    var packer := new Packer(len, max);
    AddSpans(packer, spans, isBlank);
    out := packer.Finish();
  }

  method AddSpans(packer: Packer, spans: seq<Span>, isBlank: char -> bool)
    requires packer.Valid()
    modifies packer
    ensures packer.Valid() && packer.All() == old(packer.All()) + Joined(Texts(spans))
  {
    ghost var texts, start := Texts(spans), packer.All();
    for k := 0 to |spans|
      invariant packer.Valid() && packer.All() == start + Joined(texts[..k])
    {
      JoinedTake(start, texts, k);
      AddSpan(packer, spans[k], isBlank);
    }
    assert texts[..|spans|] == texts;
  }

  method AddSpan(packer: Packer, span: Span, isBlank: char -> bool)
    requires packer.Valid()
    modifies packer
    ensures packer.Valid() && packer.All() == old(packer.All()) + span.text
    ensures SpanAdded(packer.len, packer.max, span, isBlank, old(packer.out), old(packer.current), packer.out,
                      packer.current)
  {
    var added := packer.AddOrStart(span.text, "");
    if added {
      return;
    }
    ghost var out0 := packer.out;
    if span.Text? {
      AddWords(packer, span.text, isBlank);
    } else {
      ghost var parts := packer.HardCut(span.text);
    }
  }

  method AddWords(packer: Packer, text: string, isBlank: char -> bool)
    requires packer.Valid() && packer.current == ""
    modifies packer
    ensures packer.Valid() && packer.All() == old(packer.All()) + text
    ensures WordsAdded(packer.len, packer.max, text, isBlank, old(packer.out), packer.out, packer.current)
  {
    var words := SplitAtBlanks(text, isBlank);
    ghost var start := packer.All();
    for k := 0 to |words|
      invariant packer.Valid() && packer.All() == start + Joined(words[..k])
      invariant (forall w :: w in words ==> Fits(packer.len, packer.max, w)) ==>
                  AllPlaced(packer.len, packer.max, old(packer.out), "", words[..k], packer.out, packer.current)
    {
      JoinedTake(start, words, k);
      AddWord(packer, words, k, old(packer.out));
    }
    assert words[..|words|] == words;
  }

  method AddWord(packer: Packer, words: seq<string>, k: nat, ghost out0: seq<string>)
    requires packer.Valid() && k < |words|
    modifies packer
    ensures packer.Valid() && packer.All() == old(packer.All()) + words[k]
    ensures (forall w :: w in words ==> Fits(packer.len, packer.max, w)) &&
            old(AllPlaced(packer.len, packer.max, out0, "", words[..k], packer.out, packer.current)) ==>
              AllPlaced(packer.len, packer.max, out0, "", words[..k + 1], packer.out, packer.current)
  {
    var fits := packer.AddOrStart(words[k], "");
    if !fits {
      ghost var parts := packer.HardCut(words[k]);
    } else if old(AllPlaced(packer.len, packer.max, out0, "", words[..k], packer.out, packer.current)) {
      PlacedNext(packer.len, packer.max, out0, "", words, k, old(packer.out), old(packer.current), packer.out,
                 packer.current);
    }
  }

  /** Words and blank stretches that all fit are placed one by one. */
  ghost predicate WordsAdded(len: Length, max: int, text: string, isBlank: char -> bool, out0: seq<string>,
                             out: seq<string>, current: string) {
    exists words :: AtBlanks(words, text, isBlank) &&
      ((forall w :: w in words ==> Fits(len, max, w)) ==> AllPlaced(len, max, out0, "", words, out, current))
  }

  /**
    A span goes on the current part or begins the next. One that fits neither way begins anew: a
    formatted one cut by force, text word by word.
   */
  ghost predicate SpanAdded(len: Length, max: int, span: Span, isBlank: char -> bool, out0: seq<string>,
                            current0: string, out: seq<string>, current: string) {
    if Fits(len, max, if current0 == "" then span.text else current0 + "" + span.text) || Fits(len, max, span.text)
    then Placed(len, max, out0, current0, span.text, "", out, current)
    else
      var closed := out0 + if current0 == "" then [] else [current0];
      match span
      case Text(text) => WordsAdded(len, max, text, isBlank, closed, out, current)
      case Formatted(text) =>
        current == "" && exists parts :: CutByForce(len, max, text, parts) && out == closed + parts
  }

  /** No stretch of a string is longer after conversion than the string. */
  ghost predicate Monotone(len: Length) {
    forall a, b, c :: len(b) <= len(Around(a, b, c))
  }

  function Around(a: string, b: string, c: string): string {
    a + b + c
  }

  /** All parts of a cut string fit if and only if every code point of it fits. */
  lemma {:induction false} AllPartsFitIff(len: Length, max: int, s: string, parts: seq<string>)
    requires Monotone(len) && Joined(parts) == s && forall p :: p in parts ==> Acceptable(len, max, p)
    ensures (forall p :: p in parts ==> Fits(len, max, p)) <==> (forall c :: c in s ==> Fits(len, max, [c]))
    decreases |parts|
  {
    if parts != [] {
      var init, last := parts[..|parts| - 1], parts[|parts| - 1];
      assert parts == init + [last];
      AllPartsFitIff(len, max, Joined(init), init);
      PartFitsIff(len, max, last);
      assert (forall p :: p in parts ==> Fits(len, max, p)) <==>
          (forall p :: p in init ==> Fits(len, max, p)) && Fits(len, max, last);
      assert forall c :: c in s <==> c in Joined(init) || c in last;
    }
  }

  lemma {:induction false} PartFitsIff(len: Length, max: int, part: string)
    requires Monotone(len) && Acceptable(len, max, part)
    ensures Fits(len, max, part) <==> (forall c :: c in part ==> Fits(len, max, [c]))
  {
    if Fits(len, max, part) {
      forall c | c in part
        ensures Fits(len, max, [c])
      {
        var i :| 0 <= i < |part| && part[i] == c;
        assert part == Around(part[..i], [c], part[i + 1..]);
      }
    } else {
      assert part == [part[0]];
    }
  }

  // ------------------------------------------------------ one oversized block

  /** What is left of a string without its blanks. */
  function NonBlank(s: string, isBlank: char -> bool): string {
    if s == "" then ""
    else
      var init, last := NonBlank(s[..|s| - 1], isBlank), s[|s| - 1];
      if isBlank(last) then init else init + [last]
  }

  lemma {:induction false} NonBlankAppend(a: string, b: string, isBlank: char -> bool)
    ensures NonBlank(a + b, isBlank) == NonBlank(a, isBlank) + NonBlank(b, isBlank)
  {
    if b == "" {
      assert a + b == a;
    } else {
      SplitLast(a, b);
      NonBlankAppend(a, b[..|b| - 1], isBlank);
      var all := a + b;
      assert all[..|all| - 1] == a + b[..|b| - 1] && all[|all| - 1] == b[|b| - 1];
    }
  }

  lemma {:induction false} NonBlankTake(before: string, parts: seq<string>, k: nat, isBlank: char -> bool)
    requires k < |parts|
    ensures before + NonBlank(Joined(parts[..k + 1]), isBlank)
              == (before + NonBlank(Joined(parts[..k]), isBlank)) + NonBlank(parts[k], isBlank)
  {
    JoinedTake("", parts, k);
    assert "" + Joined(parts[..k + 1]) == Joined(parts[..k + 1]) && "" + Joined(parts[..k]) == Joined(parts[..k]);
    NonBlankAppend(Joined(parts[..k]), parts[k], isBlank);
    AppendAssoc(before, NonBlank(Joined(parts[..k]), isBlank), NonBlank(parts[k], isBlank));
  }

  lemma {:induction false} BlankJoiner(a: string, joiner: string, b: string, isBlank: char -> bool)
    requires NonBlank(joiner, isBlank) == ""
    ensures NonBlank(a + joiner + b, isBlank) == NonBlank(a, isBlank) + NonBlank(b, isBlank)
  {
    NonBlankAppend(a + joiner, b, isBlank);
    NonBlankAppend(a, joiner, isBlank);
  }

  /** The split at sentence ends drops blanks only. */
  ghost predicate DropsBlanksOnly(sentences: string -> seq<string>, isBlank: char -> bool) {
    forall s :: NonBlank(Joined(sentences(s)), isBlank) == NonBlank(s, isBlank)
  }

  /** Lines put together again. */
  ghost function Lines(lines: seq<string>): string {
    if lines == [] then ""
    else if |lines| == 1 then lines[0]
    else Lines(lines[..|lines| - 1]) + "\n" + lines[|lines| - 1]
  }

  /**
    The parts are the lines, cut between lines: each is a run of them joined by line ends, fits,
    and does not have room for the line that comes next.
   */
  ghost predicate CutAtLines(len: Length, max: int, lines: seq<string>, parts: seq<string>)
    decreases |parts|, 1
  {
    if parts == [] then lines == [] else exists k: nat :: k < |lines| && LastPart(len, max, lines, parts, k)
  }

  /** The last part is the lines from the k-th on. */
  ghost predicate LastPart(len: Length, max: int, lines: seq<string>, parts: seq<string>, k: nat)
    requires parts != [] && k < |lines|
    decreases |parts|, 0
  {
    var n := |parts| - 1;
    && parts[n] == Lines(lines[k..]) && Fits(len, max, parts[n])
    && CutAtLines(len, max, lines[..k], parts[..n])
    && (n > 0 ==> !Fits(len, max, parts[n - 1] + "\n" + lines[k]))
  }

  lemma {:induction false} LinesSnoc(lines: seq<string>, line: string)
    requires lines != []
    ensures Lines(lines + [line]) == Lines(lines) + "\n" + line
  {
    assert (lines + [line])[..|lines|] == lines;
  }

  lemma {:induction false} LineGoesOn(len: Length, max: int, lines: seq<string>, out: seq<string>, current: string,
                                      line: string)
    requires CutAtLines(len, max, lines, out + [current]) && Fits(len, max, current + "\n" + line)
    ensures CutAtLines(len, max, lines + [line], out + [current + "\n" + line])
  {
    var k: nat :| k < |lines| && LastPart(len, max, lines, out + [current], k);
    LastPartGoesOn(len, max, lines, out, current, line, k);
  }

  lemma {:induction false} LastPartGoesOn(len: Length, max: int, lines: seq<string>, out: seq<string>, current: string,
                                          line: string, k: nat)
    requires k < |lines| && LastPart(len, max, lines, out + [current], k)
    requires Fits(len, max, current + "\n" + line)
    ensures LastPart(len, max, lines + [line], out + [current + "\n" + line], k)
  {
    assert (out + [current])[..|out|] == out == (out + [current + "\n" + line])[..|out|];
    assert (lines + [line])[k..] == lines[k..] + [line] && (lines + [line])[..k] == lines[..k];
    LinesSnoc(lines[k..], line);
  }

  lemma {:induction false} LineBeginsPart(len: Length, max: int, lines: seq<string>, parts: seq<string>, line: string)
    requires CutAtLines(len, max, lines, parts) && Fits(len, max, line)
    requires parts != [] ==> !Fits(len, max, parts[|parts| - 1] + "\n" + line)
    ensures CutAtLines(len, max, lines + [line], parts + [line])
  {
    var longer, k := lines + [line], |lines|;
    assert longer[k..] == [line] && longer[..k] == lines && (parts + [line])[..|parts|] == parts;
    assert LastPart(len, max, longer, parts + [line], k);
  }

  /** One more line that fits, placed behind those before it. */
  lemma {:induction false} LinePlaced(len: Length, max: int, lines: seq<string>, out0: seq<string>, current0: string,
                                      line: string, out: seq<string>, current: string)
    requires CutAtLines(len, max, lines, out0 + if current0 == "" then [] else [current0])
    requires (current0 == "" ==> out0 == []) && line != "" && Fits(len, max, line)
    requires Placed(len, max, out0, current0, line, "\n", out, current)
    ensures current != "" && CutAtLines(len, max, lines + [line], out + [current])
  {
    if current0 != "" && Fits(len, max, current0 + "\n" + line) {
      LineGoesOn(len, max, lines, out0, current0, line);
    } else {
      LineBeginsPart(len, max, lines, out, line);
    }
  }

  ghost predicate WholeLines(len: Length, max: int, lines: seq<string>) {
    forall l :: l in lines ==> l != "" && Fits(len, max, l)
  }

  /**
    A block of lines that is not fenced: parts within the limit, nothing but blanks lost or added.
    Where all lines fit it is cut at line ends only, and only where a line has no room.
   */
  method SplitParagraphBlock(
    lines: seq<string>, len: Length, max: int, patterns: seq<Pattern>, sentences: string -> seq<string>,
        isBlank: char -> bool)
    returns (out: seq<string>)
    requires Prefixes(patterns) && DropsBlanksOnly(sentences, isBlank) && isBlank('\n') && isBlank(' ')
    ensures forall p :: p in out ==> Acceptable(len, max, p)
    ensures NonBlank(Joined(out), isBlank) == NonBlank(Joined(lines), isBlank)
    ensures WholeLines(len, max, lines) ==> CutAtLines(len, max, lines, out)
  {
    var packer := new Packer(len, max);
    AddLines(packer, lines, patterns, sentences, isBlank);
    out := packer.Finish();
  }

  method AddLines(packer: Packer, lines: seq<string>, patterns: seq<Pattern>, sentences: string -> seq<string>,
                  isBlank: char -> bool)
    requires packer.Valid() && Prefixes(patterns) && DropsBlanksOnly(sentences, isBlank) && isBlank('\n')
               && isBlank(' ')
    requires packer.out == [] && packer.current == ""
    modifies packer
    ensures packer.Valid()
    ensures NonBlank(packer.All(), isBlank) == NonBlank(old(packer.All()), isBlank) + NonBlank(Joined(lines), isBlank)
    ensures WholeLines(packer.len, packer.max, lines) ==> CutAtLines(packer.len, packer.max, lines, packer.Parts())
  {
    ghost var start := NonBlank(packer.All(), isBlank);
    for k := 0 to |lines|
      invariant packer.Valid()
      invariant NonBlank(packer.All(), isBlank) == start + NonBlank(Joined(lines[..k]), isBlank)
      invariant WholeLines(packer.len, packer.max, lines) ==> InLines(packer, lines[..k])
    {
      NonBlankTake(start, lines, k, isBlank);
      AddNextLine(packer, lines, k, patterns, sentences, isBlank);
    }
    assert lines[..|lines|] == lines;
  }

  method AddNextLine(packer: Packer, lines: seq<string>, k: nat, patterns: seq<Pattern>,
                     sentences: string -> seq<string>, isBlank: char -> bool)
    requires k < |lines|
    requires packer.Valid() && Prefixes(patterns) && DropsBlanksOnly(sentences, isBlank) && isBlank('\n')
               && isBlank(' ')
    modifies packer
    ensures packer.Valid()
    ensures NonBlank(packer.All(), isBlank) == NonBlank(old(packer.All()), isBlank) + NonBlank(lines[k], isBlank)
    ensures WholeLines(packer.len, packer.max, lines) && old(InLines(packer, lines[..k])) ==>
              InLines(packer, lines[..k + 1])
  {
    AddLine(packer, lines[k], patterns, sentences, isBlank);
    if WholeLines(packer.len, packer.max, lines) && old(InLines(packer, lines[..k])) {
      assert lines[k] in lines && lines[..k + 1] == lines[..k] + [lines[k]];
      LinePlaced(packer.len, packer.max, lines[..k], old(packer.out), old(packer.current), lines[k], packer.out,
                 packer.current);
    }
  }

  /** The parts so far are these lines. */
  ghost predicate InLines(packer: Packer, lines: seq<string>)
    reads packer
  {
    CutAtLines(packer.len, packer.max, lines, packer.Parts()) && (packer.current == "" ==> packer.out == [])
  }

  /** Tries to add a chunk; either way, only blanks come between. */
  method AddLoosely(packer: Packer, chunk: string, joiner: string, isBlank: char -> bool) returns (added: bool)
    requires packer.Valid() && NonBlank(joiner, isBlank) == ""
    modifies packer
    ensures packer.Valid() && (!added ==> packer.current == "" && !Fits(packer.len, packer.max, chunk))
    ensures added ==> NonBlank(packer.All(), isBlank) == NonBlank(old(packer.All()), isBlank) + NonBlank(chunk, isBlank)
    ensures !added ==> NonBlank(packer.All(), isBlank) == NonBlank(old(packer.All()), isBlank)
    ensures Placed(packer.len, packer.max, old(packer.out), old(packer.current), chunk, joiner, packer.out,
                   packer.current)
  {
    added := packer.AddOrStart(chunk, joiner);
    NonBlankAppend(old(packer.All()), chunk, isBlank);
    BlankJoiner(old(packer.All()), joiner, chunk, isBlank);
  }

  lemma {:induction false} OneBlank(c: char, isBlank: char -> bool)
    requires isBlank(c)
    ensures NonBlank([c], isBlank) == ""
  {
  }

  method AddLine(packer: Packer, line: string, patterns: seq<Pattern>, sentences: string -> seq<string>,
                 isBlank: char -> bool)
    requires packer.Valid() && Prefixes(patterns) && DropsBlanksOnly(sentences, isBlank) && isBlank('\n')
               && isBlank(' ')
    modifies packer
    ensures packer.Valid()
    ensures NonBlank(packer.All(), isBlank) == NonBlank(old(packer.All()), isBlank) + NonBlank(line, isBlank)
    ensures Fits(packer.len, packer.max, line) ==>
              Placed(packer.len, packer.max, old(packer.out), old(packer.current), line, "\n", packer.out,
                     packer.current)
  {
    OneBlank('\n', isBlank);
    var added := AddLoosely(packer, line, "\n", isBlank);
    if added {
      return;
    }
    AddSentences(packer, sentences(line), patterns, isBlank);
  }

  method AddSentences(packer: Packer, split: seq<string>, patterns: seq<Pattern>, isBlank: char -> bool)
    requires packer.Valid() && Prefixes(patterns) && isBlank(' ')
    modifies packer
    ensures packer.Valid()
    ensures NonBlank(packer.All(), isBlank) == NonBlank(old(packer.All()), isBlank) + NonBlank(Joined(split), isBlank)
  {
    ghost var start := NonBlank(packer.All(), isBlank);
    for k := 0 to |split|
      invariant packer.Valid()
      invariant NonBlank(packer.All(), isBlank) == start + NonBlank(Joined(split[..k]), isBlank)
    {
      NonBlankTake(start, split, k, isBlank);
      AddSentence(packer, split[k], patterns, isBlank);
    }
    assert split[..|split|] == split;
  }

  /** A piece on its own, as the last resort. */
  method AddPiece(packer: Packer, piece: string, isBlank: char -> bool)
    requires packer.Valid() && Acceptable(packer.len, packer.max, piece)
    modifies packer
    ensures packer.Valid()
    ensures NonBlank(packer.All(), isBlank) == NonBlank(old(packer.All()), isBlank) + NonBlank(piece, isBlank)
    ensures Fits(packer.len, packer.max, piece) ==>
              Placed(packer.len, packer.max, old(packer.out), old(packer.current), piece, "", packer.out,
                     packer.current)
  {
    var added := AddLoosely(packer, piece, "", isBlank);
    if !added {
      NonBlankAppend(packer.All(), piece, isBlank);
      packer.Emit(piece);
    }
  }

  method AddSentence(packer: Packer, sentence: string, patterns: seq<Pattern>, isBlank: char -> bool)
    requires packer.Valid() && Prefixes(patterns) && isBlank(' ')
    modifies packer
    ensures packer.Valid()
    ensures NonBlank(packer.All(), isBlank) == NonBlank(old(packer.All()), isBlank) + NonBlank(sentence, isBlank)
    ensures Fits(packer.len, packer.max, sentence) ==>
              Placed(packer.len, packer.max, old(packer.out), old(packer.current), sentence, " ", packer.out,
                     packer.current)
  {
    OneBlank(' ', isBlank);
    var added := AddLoosely(packer, sentence, " ", isBlank);
    if added {
      return;
    }
    var pieces := SplitParagraphIntoAtomicSpans(sentence, packer.len, packer.max, patterns, isBlank);
    AddPieces(packer, pieces, isBlank);
  }

  method AddPieces(packer: Packer, pieces: seq<string>, isBlank: char -> bool)
    requires packer.Valid() && forall p :: p in pieces ==> Acceptable(packer.len, packer.max, p)
    modifies packer
    ensures packer.Valid()
    ensures NonBlank(packer.All(), isBlank) == NonBlank(old(packer.All()), isBlank) + NonBlank(Joined(pieces), isBlank)
  {
    ghost var start := NonBlank(packer.All(), isBlank);
    for k := 0 to |pieces|
      invariant packer.Valid()
      invariant NonBlank(packer.All(), isBlank) == start + NonBlank(Joined(pieces[..k]), isBlank)
    {
      NonBlankTake(start, pieces, k, isBlank);
      AddPiece(packer, pieces[k], isBlank);
    }
    assert pieces[..|pieces|] == pieces;
  }
}
