/**
  Message histories as atomic rounds, and the truncation that keeps whole rounds
  (src/runtime/compaction.ts).
 */
module Rounds {
  import opened Common

  datatype Role = User | Assistant | System

  datatype Block =
    | Text(text: string)
    | Thinking(thinking: string)
    | ToolUse(id: string, name: string)
    | ToolResult(useId: string, output: string, isError: bool)
    | Image(url: string)

  datatype Content = Plain(text: string) | Blocks(blocks: seq<Block>)

  datatype Message = Message(role: Role, content: Content)

  datatype Round =
    | TextRound(message: Message)
    | ToolRound(use: Message, result: Message, toolIds: set<string>)
    | Dangling(message: Message)

  /** The non-empty ids of the tool uses in a list of blocks. */
  function UsesIn(bs: seq<Block>): set<string> {
    if bs == [] then {}
    else
      var last := bs[|bs| - 1];
      UsesIn(bs[..|bs| - 1]) + if last.ToolUse? && last.id != "" then {last.id} else {}
  }

  /** The non-empty ids answered by a list of blocks. */
  function ResultsIn(bs: seq<Block>): set<string> {
    if bs == [] then {}
    else
      var last := bs[|bs| - 1];
      ResultsIn(bs[..|bs| - 1]) + if last.ToolResult? && last.useId != "" then {last.useId} else {}
  }

  ghost function UseIds(m: Message): set<string> {
    if m.role.Assistant? && m.content.Blocks? then UsesIn(m.content.blocks) else {}
  }

  ghost function ResultIds(m: Message): set<string> {
    if m.role.User? && m.content.Blocks? then ResultsIn(m.content.blocks) else {}
  }

  lemma {:induction false} UsesInMembers(bs: seq<Block>, id: string)
    ensures id in UsesIn(bs) <==> id != "" && exists b :: b in bs && b.ToolUse? && b.id == id
  {
    if bs != [] {
      var n := |bs| - 1;
      UsesInMembers(bs[..n], id);
      assert bs == bs[..n] + [bs[n]];
    }
  }

  lemma {:induction false} ResultsInMembers(bs: seq<Block>, id: string)
    ensures id in ResultsIn(bs) <==> id != "" && exists b :: b in bs && b.ToolResult? && b.useId == id
  {
    if bs != [] {
      var n := |bs| - 1;
      ResultsInMembers(bs[..n], id);
      assert bs == bs[..n] + [bs[n]];
    }
  }

  method CollectToolUseIds(m: Message) returns (ids: set<string>)
    ensures ids == UseIds(m)
  {
    ids := {};
    if !m.role.Assistant? || !m.content.Blocks? {
      return;
    }
    var bs := m.content.blocks;
    for i := 0 to |bs|
      invariant ids == UsesIn(bs[..i])
    {
      assert bs[..i + 1][..i] == bs[..i];
      if bs[i].ToolUse? && bs[i].id != "" {
        ids := ids + {bs[i].id};
      }
    }
    assert bs[..|bs|] == bs;
  }

  method CollectToolResultIds(m: Message) returns (ids: set<string>)
    ensures ids == ResultIds(m)
  {
    ids := {};
    if !m.role.User? || !m.content.Blocks? {
      return;
    }
    var bs := m.content.blocks;
    for i := 0 to |bs|
      invariant ids == ResultsIn(bs[..i])
    {
      assert bs[..i + 1][..i] == bs[..i];
      if bs[i].ToolResult? && bs[i].useId != "" {
        ids := ids + {bs[i].useId};
      }
    }
    assert bs[..|bs|] == bs;
  }

  // ---------------------------------------------------------------- parsing

  /** `b` is a user message answering exactly the tool uses of `a`. */
  ghost predicate Answers(a: Message, b: Message) {
    UseIds(a) != {} && ResultIds(b) == UseIds(a)
  }

  /** How many messages the first round of a non-empty history takes. */
  ghost function Width(ms: seq<Message>): nat {
    if |ms| > 1 && Answers(ms[0], ms[1]) then 2 else 1
  }

  ghost function Head(ms: seq<Message>): Round
    requires ms != []
  {
    if Width(ms) == 2 then ToolRound(ms[0], ms[1], UseIds(ms[0]))
    else if UseIds(ms[0]) != {} || ResultIds(ms[0]) != {} then Dangling(ms[0])
    else TextRound(ms[0])
  }

  ghost function Parse(ms: seq<Message>): seq<Round> {
    if ms == [] then [] else [Head(ms)] + Parse(ms[Width(ms)..])
  }

  /** One iteration of the parser's loop: the round at position `i` and the messages it takes. */
  method NextRound(messages: seq<Message>, i: nat) returns (round: Round, width: nat)
    requires i < |messages|
    ensures round == Head(messages[i..]) && width == Width(messages[i..])
  {
    var message := messages[i];
    var uses := CollectToolUseIds(message);
    if message.role.Assistant? && uses != {} {
      if i + 1 < |messages| {
        var next := messages[i + 1];
        var results := CollectToolResultIds(next);
        if next.role.User? && results != {} && uses == results {
          return ToolRound(message, next, uses), 2;
        }
      }
      return Dangling(message), 1;
    }
    var results := CollectToolResultIds(message);
    if message.role.User? && results != {} {
      return Dangling(message), 1;
    }
    return TextRound(message), 1;
  }

  method ParseRounds(messages: seq<Message>) returns (rounds: seq<Round>)
    ensures rounds == Parse(messages)
  {
    rounds := [];
    var i := 0;
    while i < |messages|
      invariant 0 <= i <= |messages|
      invariant rounds + Parse(messages[i..]) == Parse(messages)
    {
      var round, width := NextRound(messages, i);
      assert messages[i..][width..] == messages[i + width..];
      AppendAssoc(rounds, [round], Parse(messages[i + width..]));
      rounds := rounds + [round];
      i := i + width;
    }
  }

  function Messages(r: Round): seq<Message> {
    match r
    case TextRound(m) => [m]
    case ToolRound(u, m, _) => [u, m]
    case Dangling(m) => [m]
  }

  function Flatten(rs: seq<Round>): seq<Message> {
    if rs == [] then [] else Messages(rs[0]) + Flatten(rs[1..])
  }

  lemma {:induction false} FlattenAppend(a: seq<Round>, b: seq<Round>)
    ensures Flatten(a + b) == Flatten(a) + Flatten(b)
  {
    if a == [] {
      assert a + b == b;
    } else {
      FlattenAppend(a[1..], b);
      assert (a + b)[0] == a[0] && (a + b)[1..] == a[1..] + b;
      AppendAssoc(Messages(a[0]), Flatten(a[1..]), Flatten(b));
    }
  }

  /** The first round holds exactly the messages it takes. */
  lemma {:induction false} HeadMessages(ms: seq<Message>)
    requires ms != []
    ensures Messages(Head(ms)) == ms[..Width(ms)]
  {
  }

  lemma {:induction false} FlattenFirst(r: Round, rs: seq<Round>)
    ensures Flatten([r] + rs) == Messages(r) + Flatten(rs)
  {
    assert ([r] + rs)[1..] == rs;
  }

  /** Parsing loses no message and keeps their order. */
  lemma {:induction false} FlattenOfParse(ms: seq<Message>)
    ensures Flatten(Parse(ms)) == ms
  {
    if ms != [] {
      var n := Width(ms);
      FlattenOfParse(ms[n..]);
      HeadMessages(ms);
      FlattenFirst(Head(ms), Parse(ms[n..]));
      assert ms == ms[..n] + ms[n..];
    }
  }

  /** The rounds that parsing produces and truncation may keep. */
  ghost predicate Atomic(r: Round) {
    match r
    case TextRound(m) => UseIds(m) == {} && ResultIds(m) == {}
    case ToolRound(u, m, ids) => Answers(u, m) && ids == UseIds(u)
    case Dangling(_) => false
  }

  lemma {:induction false} ParsedRoundsAreAtomic(ms: seq<Message>, r: Round)
    requires r in Parse(ms)
    ensures r.Dangling? || Atomic(r)
  {
    var n := Width(ms);
    if r != Parse(ms)[0] {
      ParsedRoundsAreAtomic(ms[n..], r);
    }
  }

  /** Rounds that are atomic come back unchanged when their messages are parsed again. */
  lemma {:induction false} ParseOfFlatten(rs: seq<Round>)
    requires forall r :: r in rs ==> Atomic(r)
    ensures Parse(Flatten(rs)) == rs
  {
    if rs != [] {
      ParseOfFlatten(rs[1..]);
      var head := Messages(rs[0]);
      var rest := Flatten(rs[1..]);
      var ms := head + rest;
      assert Flatten(rs) == ms;
      assert ms[0] == head[0] && ms[|head|..] == rest;
      assert rs == [rs[0]] + rs[1..];
      assert Atomic(rs[0]);
      assert Width(ms) == |head|;
    }
  }

  /** The same for any selection, in any order, of the non-dangling rounds of a parsed history. */
  lemma {:induction false} Reparse(ms: seq<Message>, kept: seq<Round>)
    requires forall r :: r in kept ==> r in Parse(ms) && !r.Dangling?
    ensures Parse(Flatten(kept)) == kept
  {
    forall r | r in kept
      ensures Atomic(r)
    {
      ParsedRoundsAreAtomic(ms, r);
    }
    ParseOfFlatten(kept);
  }

  // ------------------------------------------------- well-formed histories

  /** No half of a tool exchange stands alone. */
  ghost predicate NoDangling(ms: seq<Message>) {
    forall r :: r in Parse(ms) ==> !r.Dangling?
  }

  /** The same condition read off the messages: every use is answered by the next message
      and every answer is preceded by its use. */
  ghost predicate Paired(ms: seq<Message>) {
    && (forall i :: 0 <= i < |ms| && UseIds(ms[i]) != {} ==> i + 1 < |ms| && Answers(ms[i], ms[i + 1]))
    && (forall i :: 0 <= i < |ms| && ResultIds(ms[i]) != {} ==> i > 0 && Answers(ms[i - 1], ms[i]))
  }

  lemma {:induction false} NoDanglingStep(ms: seq<Message>, n: nat)
    requires ms != [] && n == Width(ms)
    ensures NoDangling(ms) <==> !Head(ms).Dangling? && NoDangling(ms[n..])
  {
    assert Parse(ms) == [Head(ms)] + Parse(ms[n..]);
  }

  lemma {:induction false} PairedTail(ms: seq<Message>)
    requires ms != [] && Paired(ms)
    ensures !Head(ms).Dangling? && Paired(ms[Width(ms)..])
  {
    var n := Width(ms);
    var rest := ms[n..];
    forall i | 0 <= i < |rest| && UseIds(rest[i]) != {}
      ensures i + 1 < |rest| && Answers(rest[i], rest[i + 1])
    {
      assert ms[i + n] == rest[i] && Answers(ms[i + n], ms[i + n + 1]);
    }
    forall i | 0 <= i < |rest| && ResultIds(rest[i]) != {}
      ensures i > 0 && Answers(rest[i - 1], rest[i])
    {
      assert ms[i + n] == rest[i] && Answers(ms[i + n - 1], ms[i + n]);
    }
  }

  lemma {:induction false} PairedHead(ms: seq<Message>)
    requires ms != [] && !Head(ms).Dangling?
    ensures Paired(ms[..Width(ms)])
  {
  }

  lemma {:induction false} NoDanglingIffPaired(ms: seq<Message>)
    ensures NoDangling(ms) <==> Paired(ms)
  {
    if ms != [] {
      var n := Width(ms);
      NoDanglingIffPaired(ms[n..]);
      NoDanglingStep(ms, n);
      if Paired(ms) {
        PairedTail(ms);
      }
      if !Head(ms).Dangling? && Paired(ms[n..]) {
        PairedHead(ms);
        PairedAppend(ms[..n], ms[n..]);
        assert ms == ms[..n] + ms[n..];
      }
    }
  }

  /** A well-formed history stays well-formed when a well-formed one is appended. */
  lemma {:induction false} PairedAppend(a: seq<Message>, b: seq<Message>)
    requires Paired(a) && Paired(b)
    ensures Paired(a + b)
  {
    var c := a + b;
    forall i | 0 <= i < |c| && UseIds(c[i]) != {}
      ensures i + 1 < |c| && Answers(c[i], c[i + 1])
    {
      if i >= |a| {
        assert c[i] == b[i - |a|] && c[i + 1] == b[i - |a| + 1];
      }
    }
    forall i | 0 <= i < |c| && ResultIds(c[i]) != {}
      ensures i > 0 && Answers(c[i - 1], c[i])
    {
      if i >= |a| {
        assert c[i] == b[i - |a|] && c[i - 1] == b[i - |a| - 1];
      }
    }
  }

  /** Flattening atomic rounds gives a well-formed history. */
  lemma {:induction false} FlattenIsPaired(rs: seq<Round>)
    requires forall r :: r in rs ==> Atomic(r)
    ensures Paired(Flatten(rs))
  {
    ParseOfFlatten(rs);
    NoDanglingIffPaired(Flatten(rs));
  }

  // ------------------------------------------- histories with loose halves

  ghost function DanglingIn(rs: seq<Round>): seq<Message> {
    if rs == [] then [] else (if rs[0].Dangling? then Messages(rs[0]) else []) + DanglingIn(rs[1..])
  }

  /** The messages of a history that are half of a tool exchange, in order. */
  ghost function Loose(ms: seq<Message>): seq<Message> {
    DanglingIn(Parse(ms))
  }

  lemma {:induction false} DanglingInAppend(a: seq<Round>, b: seq<Round>)
    ensures DanglingIn(a + b) == DanglingIn(a) + DanglingIn(b)
  {
    if a == [] {
      assert a + b == b;
    } else {
      DanglingInAppend(a[1..], b);
      assert (a + b)[0] == a[0] && (a + b)[1..] == a[1..] + b;
      var first := if a[0].Dangling? then Messages(a[0]) else [];
      AppendAssoc(first, DanglingIn(a[1..]), DanglingIn(b));
    }
  }

  /** Parsing works piece by piece wherever no exchange spans the seam. */
  lemma {:induction false} ParseAppend(a: seq<Message>, b: seq<Message>)
    requires a != [] && b != [] ==> !Answers(a[|a| - 1], b[0])
    ensures Parse(a + b) == Parse(a) + Parse(b)
  {
    if a == [] {
      assert a + b == b;
    } else if b == [] {
      assert a + b == a;
    } else {
      var n := Width(a);
      assert Width(a + b) == n && Head(a + b) == Head(a);
      ParseAppend(a[n..], b);
      assert (a + b)[n..] == a[n..] + b;
      AppendAssoc([Head(a)], Parse(a[n..]), Parse(b));
    }
  }

  lemma {:induction false} LooseAppend(a: seq<Message>, b: seq<Message>)
    requires b != [] ==> ResultIds(b[0]) == {}
    ensures Loose(a + b) == Loose(a) + Loose(b)
  {
    ParseAppend(a, b);
    DanglingInAppend(Parse(a), Parse(b));
  }

  lemma {:induction false} DanglingInEmptyIff(rs: seq<Round>)
    ensures DanglingIn(rs) == [] <==> forall r :: r in rs ==> !r.Dangling?
  {
    if rs != [] {
      DanglingInEmptyIff(rs[1..]);
      assert rs == [rs[0]] + rs[1..];
    }
  }

  /** A history is well formed exactly when it has no loose half. */
  lemma {:induction false} NothingLooseIffPaired(ms: seq<Message>)
    ensures Loose(ms) == [] <==> Paired(ms)
  {
    DanglingInEmptyIff(Parse(ms));
    NoDanglingIffPaired(ms);
  }

  /** Appending well-formed messages leaves the loose halves as they are. */
  lemma {:induction false} LooseThenPaired(a: seq<Message>, b: seq<Message>)
    requires Paired(b)
    ensures Loose(a + b) == Loose(a)
  {
    LooseAppend(a, b);
    NothingLooseIffPaired(b);
  }

  /** A lone message with tool uses is a loose half; the next plain message does not heal it. */
  lemma {:induction false} LooseUse(m: Message)
    requires ResultIds(m) == {}
    ensures Loose([m]) == if UseIds(m) != {} then [m] else []
  {
    var r := Head([m]);
    assert [m][1..] == [];
    assert Parse([m]) == [r] && [r][1..] == [];
    assert DanglingIn([r]) == (if r.Dangling? then Messages(r) else []) + DanglingIn([r][1..]);
  }

  // -------------------------------------------------------------- budgeting

  datatype CompactionConfig = CompactionConfig(
    contextWindow: nat,
    thresholdPct: real,
    maxCompactions: nat,
    maxConsecutiveFallbacks: nat)

  const SAFETY_MARGIN_TOKENS := 1024

  function Threshold(config: CompactionConfig): real {
    config.thresholdPct / 100.0 * config.contextWindow as real
  }

  predicate ShouldCompact(runningTokens: int, config: CompactionConfig) {
    runningTokens as real > Threshold(config)
  }

  function TargetTokens(config: CompactionConfig): int {
    Threshold(config).Floor - SAFETY_MARGIN_TOKENS
  }

  /** Compaction is due above the given share of the window; what is kept stays a margin below it. */
  lemma {:induction false} BudgetMeans(config: CompactionConfig, tokens: int)
    ensures ShouldCompact(tokens, config) <==>
              tokens as real * 100.0 > config.thresholdPct * config.contextWindow as real
    ensures tokens <= TargetTokens(config) <==> !ShouldCompact(tokens + 1024, config)
  {
    var share := config.thresholdPct / 100.0;
    assert share * 100.0 == config.thresholdPct;
    assert Threshold(config) * 100.0 == config.thresholdPct * config.contextWindow as real;
    assert Threshold(config).Floor as real <= Threshold(config) < Threshold(config).Floor as real + 1.0;
  }

  ghost function AtomicRounds(rs: seq<Round>): seq<Round> {
    if rs == [] then []
    else (if rs[0].Dangling? then [] else [rs[0]]) + AtomicRounds(rs[1..])
  }

  lemma {:induction false} AtomicRoundsSound(rs: seq<Round>, r: Round)
    requires r in AtomicRounds(rs)
    ensures r in rs && !r.Dangling?
  {
    if r in AtomicRounds(rs[1..]) {
      AtomicRoundsSound(rs[1..], r);
    }
  }

  /** `count` is the router's token count with the model, prompt and tools fixed. */
  predicate Fits(count: seq<Message> -> int, config: CompactionConfig, rs: seq<Round>) {
    count(Flatten(rs)) <= TargetTokens(config)
  }

  /** Extending from the end, `k` is where the first overflow stopped the selection. */
  ghost predicate StopsAt(count: seq<Message> -> int, config: CompactionConfig, atomic: seq<Round>, k: nat) {
    && k <= |atomic|
    && (forall j :: k <= j < |atomic| ==> Fits(count, config, atomic[j..]))
    && (k > 0 ==> !Fits(count, config, atomic[k - 1..]))
  }

  lemma {:induction false} AtomicRoundsSnoc(rounds: seq<Round>, last: Round)
    ensures AtomicRounds(rounds + [last]) == AtomicRounds(rounds) + if last.Dangling? then [] else [last]
  {
    var longer := rounds + [last];
    if rounds == [] {
      assert longer[1..] == [];
    } else {
      assert longer[0] == rounds[0] && longer[1..] == rounds[1..] + [last];
      AtomicRoundsSnoc(rounds[1..], last);
    }
  }

  method DropDangling(rounds: seq<Round>) returns (atomic: seq<Round>)
    ensures atomic == AtomicRounds(rounds)
  {
    atomic := [];
    for i := 0 to |rounds|
      invariant atomic == AtomicRounds(rounds[..i])
    {
      assert rounds[..i + 1] == rounds[..i] + [rounds[i]];
      AtomicRoundsSnoc(rounds[..i], rounds[i]);
      if !rounds[i].Dangling? {
        atomic := atomic + [rounds[i]];
      }
    }
    assert rounds[..|rounds|] == rounds;
  }

  method SelectKeptRounds(rounds: seq<Round>, config: CompactionConfig, count: seq<Message> -> int)
    returns (kept: seq<Round>, oversizedAtomic: bool)
    ensures var atomic := AtomicRounds(rounds);
            && |kept| <= |atomic|
            && kept == atomic[|atomic| - |kept|..]
            && (oversizedAtomic <==> atomic != [] && !Fits(count, config, atomic[|atomic| - 1..]))
            && (oversizedAtomic ==> |kept| == 1)
            && (!oversizedAtomic ==> StopsAt(count, config, atomic, |atomic| - |kept|))
  {
    var atomic := DropDangling(rounds);
    kept, oversizedAtomic := [], false;
    if |atomic| == 0 {
      return;
    }
    kept, oversizedAtomic := ExtendWhileFitting(atomic, rs => Fits(count, config, rs));
  }

  /** The loop of the selection, over any test for what fits. */
  method ExtendWhileFitting(atomic: seq<Round>, fits: seq<Round> -> bool)
    returns (kept: seq<Round>, oversizedAtomic: bool)
    requires atomic != []
    ensures |kept| <= |atomic| && kept == atomic[|atomic| - |kept|..]
    ensures oversizedAtomic <==> !fits(atomic[|atomic| - 1..])
    ensures oversizedAtomic ==> |kept| == 1
    ensures !oversizedAtomic ==>
              && (forall j :: |atomic| - |kept| <= j < |atomic| ==> fits(atomic[j..]))
              && (|kept| < |atomic| ==> !fits(atomic[|atomic| - |kept| - 1..]))
  {
    kept, oversizedAtomic := [], false;
    var i := |atomic|;
    while i > 0
      invariant 0 <= i <= |atomic|
      invariant kept == atomic[i..]
      invariant forall j :: i <= j < |atomic| ==> fits(atomic[j..])
    {
      var candidate := atomic[i - 1];
      var projected := [candidate] + kept;
      assert projected == atomic[i - 1..];
      if !fits(projected) {
        if |kept| == 0 {
          return projected, true;
        }
        return kept, false;
      }
      kept := projected;
      i := i - 1;
    }
  }

  /** A counter that adds message costs to a fixed overhead for prompt and tools. */
  ghost predicate Additive(count: seq<Message> -> int) {
    && (forall a, b :: count(a + b) + count([]) == count(a) + count(b))
    && (forall a :: count(a) >= count([]))
  }

  lemma {:induction false} SuffixCostsLess(count: seq<Message> -> int, rs: seq<Round>, j: nat)
    requires Additive(count) && j <= |rs|
    ensures count(Flatten(rs[j..])) <= count(Flatten(rs))
  {
    assert rs == rs[..j] + rs[j..];
    FlattenAppend(rs[..j], rs[j..]);
    assert count(Flatten(rs[..j]) + Flatten(rs[j..])) + count([]) == count(Flatten(rs[..j])) + count(Flatten(rs[j..]));
  }

  /** With additive counting, stopping at the first overflow finds the longest suffix that fits. */
  lemma {:induction false} KeptIsLongestFitting(count: seq<Message> -> int, config: CompactionConfig,
                                                atomic: seq<Round>, k: nat, j: nat)
    requires Additive(count) && StopsAt(count, config, atomic, k) && j < |atomic|
    ensures Fits(count, config, atomic[j..]) <==> k <= j
  {
    if j < k {
      SuffixCostsLess(count, atomic[j..], k - 1 - j);
      assert atomic[j..][k - 1 - j..] == atomic[k - 1..];
    }
  }

  const TRUNCATION_NOTICE := "[Context was truncated due to length. Re-read state from disk to continue.]"

  const NoticeMessage: Message := Message(User, Plain(TRUNCATION_NOTICE))

  /** A truncated history that kept something within budget does not trigger the next compaction. */
  lemma {:induction false} TruncatedHistoryIsBelowThreshold(count: seq<Message> -> int, config: CompactionConfig,
                                                            kept: seq<Round>)
    requires Additive(count) && Fits(count, config, kept)
    requires count([NoticeMessage]) - count([]) <= SAFETY_MARGIN_TOKENS
    ensures !ShouldCompact(count([NoticeMessage] + Flatten(kept)), config)
  {
    var total := count([NoticeMessage] + Flatten(kept));
    assert total + count([]) == count([NoticeMessage]) + count(Flatten(kept));
    assert total <= Threshold(config).Floor;
    assert total as real <= Threshold(config).Floor as real <= Threshold(config);
  }

  // ------------------------------------------------------- one compaction

  /** The counters of one agent; they outlive every single compaction. */
  class CompactionState {
    var compactionCount: nat
    var summarizerFallbacks: nat
    var consecutiveFallbacks: nat
    var oversizedAtomicFallback: bool

    constructor ()
      ensures compactionCount == 0 && summarizerFallbacks == 0 && consecutiveFallbacks == 0
      ensures !oversizedAtomicFallback
    {
      compactionCount, summarizerFallbacks, consecutiveFallbacks := 0, 0, 0;
      oversizedAtomicFallback := false;
    }

    predicate IsMaxCompactionsReached(config: CompactionConfig)
      reads this
    {
      || compactionCount >= config.maxCompactions
      || consecutiveFallbacks >= config.maxConsecutiveFallbacks
      || oversizedAtomicFallback
    }
  }

  /** What the summarizer call did: a summary text, or an error or timeout. */
  datatype SummaryOutcome = Summary(text: string) | SummarizerFailed

  const SUMMARY_PREFIX := "[Context Compaction \U{2014} Summary of previous conversation]\n\n"
  const SUMMARY_SUFFIX := "\n\n[End of summary. You should re-read authoritative state from disk before continuing.]"

  /** The notice and any suffix of the atomic rounds make a well-formed history. */
  lemma {:induction false} TruncationIsPaired(messages: seq<Message>, kept: seq<Round>)
    requires forall r :: r in kept ==> r in AtomicRounds(Parse(messages))
    ensures Paired([NoticeMessage] + Flatten(kept))
  {
    forall r | r in kept
      ensures Atomic(r)
    {
      AtomicRoundsSound(Parse(messages), r);
      ParsedRoundsAreAtomic(messages, r);
    }
    FlattenIsPaired(kept);
    PairedAppend([NoticeMessage], Flatten(kept));
  }

  /** After a truncation that kept anything it could, no further compaction is due. */
  lemma {:induction false} TruncationEndsCompaction(history: seq<Message>, count: seq<Message> -> int,
                                                    config: CompactionConfig, atomic: seq<Round>)
    requires TruncatedTo(history, count, config, atomic) && atomic != [] && !Oversized(count, config, atomic)
    requires Additive(count) && count([NoticeMessage]) - count([]) <= SAFETY_MARGIN_TOKENS
    ensures !ShouldCompact(count(history), config)
  {
    var k: nat :| k <= |atomic| && history == [NoticeMessage] + Flatten(atomic[k..])
        && StopsAt(count, config, atomic, k);
    assert k < |atomic|;
    TruncatedHistoryIsBelowThreshold(count, config, atomic[k..]);
  }

  /** The last atomic round alone does not fit. */
  ghost predicate Oversized(count: seq<Message> -> int, config: CompactionConfig, atomic: seq<Round>) {
    atomic != [] && !Fits(count, config, atomic[|atomic| - 1..])
  }

  /** The notice, then the atomic rounds from where the selection stopped. */
  ghost predicate TruncatedTo(history: seq<Message>, count: seq<Message> -> int, config: CompactionConfig,
                              atomic: seq<Round>) {
    exists k: nat :: k <= |atomic|
      && history == [NoticeMessage] + Flatten(atomic[k..])
      && (if Oversized(count, config, atomic) then k == |atomic| - 1 else StopsAt(count, config, atomic, k))
  }

  method TruncateHistory(messages: seq<Message>, config: CompactionConfig, count: seq<Message> -> int)
    returns (history: seq<Message>, oversized: bool)
    ensures Paired(history) && history != []
    ensures oversized == Oversized(count, config, AtomicRounds(Parse(messages)))
    ensures TruncatedTo(history, count, config, AtomicRounds(Parse(messages)))
  {
    var rounds := ParseRounds(messages);
    var kept;
    kept, oversized := SelectKeptRounds(rounds, config, count);
    history := [NoticeMessage] + Flatten(kept);
    ghost var atomic := AtomicRounds(rounds);
    assert kept == atomic[|atomic| - |kept|..];
    TruncationIsPaired(messages, kept);
  }

  method CompactConversation(messages: seq<Message>, outcome: SummaryOutcome, config: CompactionConfig,
                             state: CompactionState, count: seq<Message> -> int)
    returns (history: seq<Message>)
    modifies state
    ensures Paired(history) && history != []
    ensures outcome.Summary? ==>
              && history == [Message(User, Plain(SUMMARY_PREFIX + outcome.text + SUMMARY_SUFFIX))]
              && state.compactionCount == old(state.compactionCount) + 1
              && state.consecutiveFallbacks == 0
              && !state.oversizedAtomicFallback
              && state.summarizerFallbacks == old(state.summarizerFallbacks)
    ensures outcome.SummarizerFailed? ==>
              && state.compactionCount == old(state.compactionCount)
              && state.consecutiveFallbacks == old(state.consecutiveFallbacks) + 1
              && state.summarizerFallbacks == old(state.summarizerFallbacks) + 1
    ensures outcome.SummarizerFailed? ==>
              var atomic := AtomicRounds(Parse(messages));
              && state.oversizedAtomicFallback == (old(state.oversizedAtomicFallback)
                                                   || Oversized(count, config, atomic))
              && TruncatedTo(history, count, config, atomic)
  {
    match outcome
    case Summary(summary) =>
      state.compactionCount := state.compactionCount + 1;
      state.consecutiveFallbacks := 0;
      state.oversizedAtomicFallback := false;
      history := [Message(User, Plain(SUMMARY_PREFIX + summary + SUMMARY_SUFFIX))];
    case SummarizerFailed =>
      state.summarizerFallbacks := state.summarizerFallbacks + 1;
      state.consecutiveFallbacks := state.consecutiveFallbacks + 1;
      var oversized;
      history, oversized := TruncateHistory(messages, config, count);
      if oversized {
        state.oversizedAtomicFallback := true;
      }
  }
}
