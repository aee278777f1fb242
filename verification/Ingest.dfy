/**
  Incremental ingest of files or records into a vector store (src/rag/pipeline.ts), against
  the full rebuild it must agree with.
 */
module Ingest {
  import opened Common

  type Vector = seq<real>

  datatype InputItem = InputItem(path: string, text: string, mtimeMs: int, overlay: string)

  /** What the chunker yields for one item. */
  datatype RawChunk = RawChunk(path: string, text: string, startLine: Option<nat>, endLine: Option<nat>,
                               overlay: string)

  /** The part of a stored row that search results depend on. */
  datatype Core = Core(path: string, text: string, startLine: Option<nat>, endLine: Option<nat>, embedding: Vector)

  datatype Row = Row(core: Core, sourceHash: string, mtimeMs: int, overlay: string)

  datatype FileState = FileState(sourceHash: string, mtimeMs: int, lastIngestAt: int)

  /** The collaborators: hash, chunker, secret scanner and embedder, and the provider stamp. */
  datatype Env = Env(
    sha: string -> string,
    chunk: InputItem -> seq<RawChunk>,
    isSecret: string -> bool,
    embed: string -> Vector,
    stamp: string)

  // ---------------------------------------------------------- normalization

  function UnixLines(s: string): string {
    if s == "" then ""
    else if |s| > 1 && s[0] == '\r' && s[1] == '\n' then "\n" + UnixLines(s[2..])
    else [s[0]] + UnixLines(s[1..])
  }

  function BlankRun(s: string): (n: nat)
    ensures n <= |s|
  {
    if s != "" && (s[0] == ' ' || s[0] == '\t') then 1 + BlankRun(s[1..]) else 0
  }

  function TrimLineEnds(s: string): string {
    if s == "" then ""
    else
      var n := BlankRun(s);
      if 0 < n < |s| && s[n] == '\n' then "\n" + TrimLineEnds(s[n + 1..])
      else [s[0]] + TrimLineEnds(s[1..])
  }

  function Normalize(s: string): string {
    TrimLineEnds(UnixLines(s))
  }

  /** A carriage return right before a line feed. */
  ghost predicate ReturnBeforeFeed(s: string, i: nat) {
    i + 1 < |s| && s[i] == '\r' && s[i + 1] == '\n'
  }

  /** A blank with nothing but blanks up to a line feed. */
  ghost predicate BlankBeforeFeed(s: string, i: nat) {
    exists j :: i < j < |s| && s[j] == '\n' && forall k :: i <= k < j ==> s[k] == ' ' || s[k] == '\t'
  }

  /** The characters from the i-th on but for the returns of line ends. */
  ghost function NoReturns(s: string, i: nat): string
    requires i <= |s|
    decreases |s| - i
  {
    if i == |s| then "" else (if ReturnBeforeFeed(s, i) then "" else [s[i]]) + NoReturns(s, i + 1)
  }

  /** The characters from the i-th on but for blanks at line ends. */
  ghost function NoTrailing(s: string, i: nat): string
    requires i <= |s|
    decreases |s| - i
  {
    if i == |s| then "" else (if BlankBeforeFeed(s, i) then "" else [s[i]]) + NoTrailing(s, i + 1)
  }

  lemma {:induction false} UnixLinesFrom(s: string, i: nat)
    requires i <= |s|
    ensures UnixLines(s[i..]) == NoReturns(s, i)
    decreases |s| - i
  {
    if i < |s| {
      var rest := s[i..];
      if ReturnBeforeFeed(s, i) {
        assert rest[2..] == s[i + 2..];
        UnixLinesFrom(s, i + 2);
        assert NoReturns(s, i) == NoReturns(s, i + 1);
      } else {
        assert rest[1..] == s[i + 1..];
        UnixLinesFrom(s, i + 1);
      }
    }
  }

  lemma {:induction false} BlankRunEnds(s: string)
    ensures BlankRun(s) < |s| ==> s[BlankRun(s)] != ' ' && s[BlankRun(s)] != '\t'
  {
    if s != "" && (s[0] == ' ' || s[0] == '\t') {
      BlankRunEnds(s[1..]);
    }
  }

  /** The run of blanks from here on, read by position. */
  lemma {:induction false} RunHere(s: string, i: nat, n: nat)
    requires i < |s| && n == BlankRun(s[i..])
    ensures i + n <= |s| && forall k :: i <= k < i + n ==> s[k] == ' ' || s[k] == '\t'
    ensures i + n < |s| ==> s[i + n] != ' ' && s[i + n] != '\t'
  {
    BlankRunIsBlank(s[i..]);
    BlankRunEnds(s[i..]);
    assert forall k :: i <= k < i + n ==> s[k] == s[i..][k - i];
  }

  lemma {:induction false} DropRun(s: string, i: nat, j: nat)
    requires i <= j < |s| && s[j] == '\n' && forall k :: i <= k < j ==> s[k] == ' ' || s[k] == '\t'
    ensures NoTrailing(s, i) == "\n" + NoTrailing(s, j + 1)
    decreases j - i
  {
    if i < j {
      DropRun(s, i + 1, j);
      assert BlankBeforeFeed(s, i);
    }
  }

  /** A line end and the blanks before it are the line end. */
  lemma {:induction false} TrimRun(s: string, i: nat, n: nat)
    requires i < |s| && n == BlankRun(s[i..]) && 0 < n && i + n < |s| && s[i + n] == '\n'
    ensures TrimLineEnds(s[i..]) == "\n" + TrimLineEnds(s[i + n + 1..])
  {
    var rest := s[i..];
    assert rest[n + 1..] == s[i + n + 1..] && rest[n] == s[i + n];
  }

  /** Any other character stays. */
  lemma {:induction false} TrimOne(s: string, i: nat, n: nat)
    requires i < |s| && n == BlankRun(s[i..]) && !(0 < n && i + n < |s| && s[i + n] == '\n')
    ensures TrimLineEnds(s[i..]) == [s[i]] + TrimLineEnds(s[i + 1..])
  {
    var rest := s[i..];
    assert rest[1..] == s[i + 1..] && (n < |rest| ==> rest[n] == s[i + n]);
  }

  lemma {:induction false} KeepOne(s: string, i: nat, n: nat)
    requires i < |s| && n == BlankRun(s[i..]) && !(0 < n && i + n < |s| && s[i + n] == '\n')
    ensures NoTrailing(s, i) == [s[i]] + NoTrailing(s, i + 1)
  {
    RunHere(s, i, n);
    if BlankBeforeFeed(s, i) {
      var j :| i < j < |s| && s[j] == '\n' && forall k :: i <= k < j ==> s[k] == ' ' || s[k] == '\t';
      assert false;
    }
  }

  lemma {:induction false} TrimmedFrom(s: string, i: nat)
    requires i <= |s|
    ensures TrimLineEnds(s[i..]) == NoTrailing(s, i)
    decreases |s| - i
  {
    if i < |s| {
      var next := TrimmedStep(s, i);
      TrimmedFrom(s, next);
    }
  }

  /** It is enough to look at the rest after a line end and its blanks, or after one other character. */
  lemma {:induction false} TrimmedStep(s: string, i: nat) returns (next: nat)
    requires i < |s|
    ensures i < next <= |s|
    ensures TrimLineEnds(s[next..]) == NoTrailing(s, next) ==> TrimLineEnds(s[i..]) == NoTrailing(s, i)
  {
    var n := BlankRun(s[i..]);
    RunHere(s, i, n);
    if 0 < n && i + n < |s| && s[i + n] == '\n' {
      next := i + n + 1;
      if TrimLineEnds(s[next..]) == NoTrailing(s, next) {
        TrimmedAtRun(s, i, n);
      }
    } else {
      next := i + 1;
      if TrimLineEnds(s[next..]) == NoTrailing(s, next) {
        TrimmedAtOne(s, i, n);
      }
    }
  }

  lemma {:induction false} TrimmedAtOne(s: string, i: nat, n: nat)
    requires i < |s| && n == BlankRun(s[i..]) && !(0 < n && i + n < |s| && s[i + n] == '\n')
    requires TrimLineEnds(s[i + 1..]) == NoTrailing(s, i + 1)
    ensures TrimLineEnds(s[i..]) == NoTrailing(s, i)
  {
    KeepOne(s, i, n);
    TrimOne(s, i, n);
  }

  lemma {:induction false} TrimmedAtRun(s: string, i: nat, n: nat)
    requires i < |s| && n == BlankRun(s[i..]) && 0 < n && i + n < |s| && s[i + n] == '\n'
    requires TrimLineEnds(s[i + n + 1..]) == NoTrailing(s, i + n + 1)
    ensures TrimLineEnds(s[i..]) == NoTrailing(s, i)
  {
    RunHere(s, i, n);
    DropRun(s, i, i + n);
    TrimRun(s, i, n);
  }

  /** Normalizing drops the carriage return of each line end, then the blanks before it, and nothing else. */
  lemma {:induction false} NormalizeMeans(s: string)
    ensures Normalize(s) == NoTrailing(NoReturns(s, 0), 0)
  {
    UnixLinesFrom(s, 0);
    TrimmedFrom(UnixLines(s), 0);
    assert s[0..] == s && UnixLines(s)[0..] == UnixLines(s);
  }

  // ------------------------------------------------------- identity of chunks

  function LineText(line: Option<nat>): string {
    match line
    case None => ""
    case Some(n) => Decimal(n)
  }

  /** What is hashed into a chunk id. */
  function IdPreimage(normalized: string, path: string, startLine: Option<nat>, endLine: Option<nat>): string {
    normalized + "\0" + path + "\0" + LineText(startLine) + "\0" + LineText(endLine)
  }

  function ChunkId(env: Env, c: Core): string {
    env.sha(IdPreimage(Normalize(c.text), c.path, c.startLine, c.endLine))
  }

  function CacheKey(env: Env, text: string): string {
    env.sha(env.stamp + "\0" + env.sha(Normalize(text)))
  }

  predicate NulFree(s: string) {
    '\0' !in s
  }

  lemma {:induction false} LineTextIsNulFree(line: Option<nat>)
    ensures NulFree(LineText(line))
  {
  }

  /** The text after the last separator is determined by the whole. */
  lemma {:induction false} SplitAtLastNul(a: string, b: string, c: string, d: string)
    requires NulFree(b) && NulFree(d)
    requires a + "\0" + b == c + "\0" + d
    ensures a == c && b == d
  {
    var s, t := a + "\0" + b, c + "\0" + d;
    assert s[|a|] == '\0' && t[|c|] == '\0';
    assert forall i :: |a| < i < |s| ==> s[i] == b[i - |a| - 1];
    assert forall i :: |c| < i < |t| ==> t[i] == d[i - |c| - 1];
    assert |a| == |c|;
    assert s[..|a|] == a && t[..|c|] == c;
    assert s[|a| + 1..] == b && t[|c| + 1..] == d;
  }

  /** Equal preimages agree before the lines, which hold no separator. */
  lemma {:induction false} SharedTail(n1: string, p1: string, s1: Option<nat>, e1: Option<nat>,
                                      n2: string, p2: string, s2: Option<nat>, e2: Option<nat>)
    requires IdPreimage(n1, p1, s1, e1) == IdPreimage(n2, p2, s2, e2)
    ensures n1 + "\0" + p1 == n2 + "\0" + p2
    ensures LineText(s1) == LineText(s2) && LineText(e1) == LineText(e2)
  {
    LineTextIsNulFree(s1);
    LineTextIsNulFree(s2);
    LineTextIsNulFree(e1);
    LineTextIsNulFree(e2);
    SplitAtLastNul(n1 + "\0" + p1 + "\0" + LineText(s1), LineText(e1), n2 + "\0" + p2 + "\0" + LineText(s2),
                   LineText(e2));
    SplitAtLastNul(n1 + "\0" + p1, LineText(s1), n2 + "\0" + p2, LineText(s2));
  }

  /** With paths free of the separator, equal preimages come from the same path. */
  lemma {:induction false} IdPreimageDeterminesPath(n1: string, p1: string, s1: Option<nat>, e1: Option<nat>,
                                                    n2: string, p2: string, s2: Option<nat>, e2: Option<nat>)
    requires NulFree(p1) && NulFree(p2)
    requires IdPreimage(n1, p1, s1, e1) == IdPreimage(n2, p2, s2, e2)
    ensures n1 == n2 && p1 == p2 && LineText(s1) == LineText(s2) && LineText(e1) == LineText(e2)
  {
    SharedTail(n1, p1, s1, e1, n2, p2, s2, e2);
    SplitAtLastNul(n1, p1, n2, p2);
  }

  // ---- paths that hold the separator

  /** Some chunk of the one path and some chunk of the other have the same id. */
  ghost predicate CanShareId(p: string, q: string) {
    exists t: string, u: string, s1: Option<nat>, e1: Option<nat>, s2: Option<nat>, e2: Option<nat> ::
      IdPreimage(Normalize(t), p, s1, e1) == IdPreimage(Normalize(u), q, s2, e2)
  }

  /** What is before the tail of a path could be the end of a normalized text. */
  ghost predicate HasTail(path: string, tail: string) {
    exists head: string :: path == head + "\0" + tail && LinesTrimmed(head)
  }

  ghost predicate LinesTrimmed(s: string) {
    forall i, j :: 0 <= i < j < |s| && j == i + 1 && s[j] == '\n' ==> s[i] != ' ' && s[i] != '\t'
  }

  /**
    Two paths can share an id exactly when they are equal or one is what follows a NUL in the
    other, with no blank before a line end ahead of that NUL.
   */
  lemma {:induction false} CanShareIdIff(p: string, q: string)
    ensures CanShareId(p, q) <==> p == q || HasTail(p, q) || HasTail(q, p)
  {
    if CanShareId(p, q) {
      var t: string, u: string, s1: Option<nat>, e1: Option<nat>, s2: Option<nat>, e2: Option<nat> :|
        IdPreimage(Normalize(t), p, s1, e1) == IdPreimage(Normalize(u), q, s2, e2);
      SharedTail(Normalize(t), p, s1, e1, Normalize(u), q, s2, e2);
      NormalizedIsTrimmed(t);
      NormalizedIsTrimmed(u);
      SameOrTail(Normalize(t), p, Normalize(u), q);
    }
    if p == q {
      assert IdPreimage(Normalize(""), p, None, None) == IdPreimage(Normalize(""), q, None, None);
    }
    if HasTail(p, q) {
      var t := TailSharesId(q, p);
      assert IdPreimage(Normalize(""), p, None, None) == IdPreimage(Normalize(t), q, None, None);
    }
    if HasTail(q, p) {
      var t := TailSharesId(p, q);
      assert IdPreimage(Normalize(t), p, None, None) == IdPreimage(Normalize(""), q, None, None);
    }
  }

  lemma {:induction false} SameOrTail(n1: string, p1: string, n2: string, p2: string)
    requires n1 + "\0" + p1 == n2 + "\0" + p2 && LinesTrimmed(n1) && LinesTrimmed(n2)
    ensures p1 == p2 || HasTail(p1, p2) || HasTail(p2, p1)
  {
    var whole := n1 + "\0" + p1;
    assert whole[|n1| + 1..] == p1 && whole[|n2| + 1..] == p2;
    if |n1| < |n2| {
      TailOfLonger(n1, p1, n2, p2);
    } else if |n2| < |n1| {
      TailOfLonger(n2, p2, n1, p1);
    }
  }

  lemma {:induction false} TailOfLonger(n1: string, p1: string, n2: string, p2: string)
    requires n1 + "\0" + p1 == n2 + "\0" + p2 && |n1| < |n2| && LinesTrimmed(n2)
    ensures HasTail(p1, p2)
  {
    var head := n2[|n1| + 1..];
    var whole := n2 + "\0" + p2;
    assert n2 == whole[..|n2|] && p1 == whole[|n1| + 1..];
    assert p1 == head + "\0" + p2;
    forall i, j | 0 <= i < j < |head| && j == i + 1 && head[j] == '\n'
      ensures head[i] != ' ' && head[i] != '\t'
    {
      var k, m := i + |n1| + 1, j + |n1| + 1;
      assert n2[k] == head[i] && n2[m] == head[j];
    }
  }

  /** The text that gives the tail the other's id. */
  lemma {:induction false} TailSharesId(tail: string, path: string) returns (t: string)
    requires HasTail(path, tail)
    ensures IdPreimage(Normalize(""), path, None, None) == IdPreimage(Normalize(t), tail, None, None)
  {
    var head :| path == head + "\0" + tail && LinesTrimmed(head);
    t := DosLines("\0" + head);
    DosLinesBack("\0" + head);
    TrimmedStays("\0" + head);
    assert "" + "\0" + path == ("\0" + head) + "\0" + tail;
  }

  function DosLines(s: string): string {
    if s == "" then "" else (if s[0] == '\n' then "\r\n" else [s[0]]) + DosLines(s[1..])
  }

  lemma {:induction false} UnixCons(c: char, rest: string)
    requires rest != "" ==> rest[0] != '\n'
    ensures UnixLines([c] + rest) == [c] + UnixLines(rest)
  {
    assert ([c] + rest)[1..] == rest;
  }

  lemma {:induction false} UnixPair(rest: string)
    ensures UnixLines("\r\n" + rest) == "\n" + UnixLines(rest)
  {
    assert ("\r\n" + rest)[2..] == rest;
  }

  lemma {:induction false} DosLinesBack(s: string)
    ensures UnixLines(DosLines(s)) == s
    ensures DosLines(s) != "" ==> DosLines(s)[0] != '\n'
  {
    if s != "" {
      DosLinesBack(s[1..]);
      assert [s[0]] + s[1..] == s;
      if s[0] == '\n' {
        UnixPair(DosLines(s[1..]));
      } else {
        UnixCons(s[0], DosLines(s[1..]));
      }
    }
  }

  lemma {:induction false} BlankRunIsBlank(s: string)
    ensures forall i :: 0 <= i < BlankRun(s) ==> s[i] == ' ' || s[i] == '\t'
  {
    if s != "" && (s[0] == ' ' || s[0] == '\t') {
      BlankRunIsBlank(s[1..]);
      assert forall i :: 0 < i < |s| ==> s[i] == s[1..][i - 1];
    }
  }

  lemma {:induction false} NothingToTrim(s: string)
    requires LinesTrimmed(s)
    ensures 0 < BlankRun(s) < |s| ==> s[BlankRun(s)] != '\n'
  {
    var n := BlankRun(s);
    BlankRunIsBlank(s);
    if 0 < n < |s| {
      var k := n - 1;
      assert s[k] == ' ' || s[k] == '\t';
    }
  }

  lemma {:induction false} TrimmedStays(s: string)
    requires LinesTrimmed(s)
    ensures TrimLineEnds(s) == s
  {
    if s != "" {
      NothingToTrim(s);
      TailIsTrimmed(s);
      assert [s[0]] + s[1..] == s;
      TrimmedStays(s[1..]);
    }
  }

  lemma {:induction false} TailIsTrimmed(s: string)
    requires s != "" && LinesTrimmed(s)
    ensures LinesTrimmed(s[1..])
  {
    var rest := s[1..];
    forall i, j | 0 <= i < j < |rest| && j == i + 1 && rest[j] == '\n'
      ensures rest[i] != ' ' && rest[i] != '\t'
    {
      var k, m := i + 1, j + 1;
      assert s[k] == rest[i] && s[m] == rest[j];
    }
  }

  lemma {:induction false} ConsIsTrimmed(c: char, rest: string)
    requires LinesTrimmed(rest) && ((c == ' ' || c == '\t') && rest != "" ==> rest[0] != '\n')
    ensures LinesTrimmed([c] + rest)
  {
    var s := [c] + rest;
    forall i, j | 0 <= i < j < |s| && j == i + 1 && s[j] == '\n'
      ensures s[i] != ' ' && s[i] != '\t'
    {
      if i > 0 {
        var k, m := i - 1, j - 1;
        assert rest[k] == s[i] && rest[m] == s[j];
      }
    }
  }

  /** A line end comes first exactly when only blanks precede it. */
  lemma {:induction false} TrimmedLines(s: string)
    ensures LinesTrimmed(TrimLineEnds(s))
    ensures TrimLineEnds(s) != "" && TrimLineEnds(s)[0] == '\n' ==> BlankRun(s) < |s| && s[BlankRun(s)] == '\n'
    decreases |s|
  {
    if s != "" {
      var n := BlankRun(s);
      if 0 < n < |s| && s[n] == '\n' {
        TrimmedLines(s[n + 1..]);
        ConsIsTrimmed('\n', TrimLineEnds(s[n + 1..]));
      } else {
        TrimmedLines(s[1..]);
        ConsIsTrimmed(s[0], TrimLineEnds(s[1..]));
      }
    }
  }

  lemma {:induction false} NormalizedIsTrimmed(s: string)
    ensures LinesTrimmed(Normalize(s))
  {
    TrimmedLines(UnixLines(s));
  }

  // ------------------------------------------------------------ assumptions

  /** SHA-256 is taken to be injective. */
  ghost predicate Injective(sha: string -> string) {
    forall a, b :: sha(a) == sha(b) ==> a == b
  }

  datatype Piece = Piece(text: string, startLine: Option<nat>, endLine: Option<nat>)

  ghost function Pieces(chunks: seq<RawChunk>): seq<Piece> {
    seq(|chunks|, i requires 0 <= i < |chunks| => Piece(chunks[i].text, chunks[i].startLine, chunks[i].endLine))
  }

  /** Chunks carry their item's path, and text and line ranges depend on path and text only. */
  ghost predicate ChunkerByText(chunk: InputItem -> seq<RawChunk>) {
    && (forall it, c :: c in chunk(it) ==> c.path == it.path)
    && (forall a: InputItem, b: InputItem :: a.path == b.path && a.text == b.text ==>
        Pieces(chunk(a)) == Pieces(chunk(b)))
  }

  /** The cache is keyed by the normalized text, so embeddings must not see more than that. */
  ghost predicate EmbedsNormalized(embed: string -> Vector) {
    forall t, u :: Normalize(t) == Normalize(u) ==> embed(t) == embed(u)
  }

  ghost predicate Assumed(env: Env) {
    Injective(env.sha) && ChunkerByText(env.chunk) && EmbedsNormalized(env.embed)
  }

  ghost predicate ValidItems(items: seq<InputItem>) {
    && (forall i, j :: 0 <= i < j < |items| ==> items[i].path != items[j].path)
    && (forall it :: it in items ==> NulFree(it.path))
  }

  // ---------------------------------------------------------- the rebuild

  function CoreOf(env: Env, c: RawChunk): Core {
    Core(c.path, c.text, c.startLine, c.endLine, env.embed(c.text))
  }

  function Keep(env: Env, chunks: seq<RawChunk>): seq<Core> {
    if chunks == [] then []
    else
      var c := chunks[|chunks| - 1];
      Keep(env, chunks[..|chunks| - 1]) + if env.isSecret(c.text) then [] else [CoreOf(env, c)]
  }

  /** The rows one item should have, in chunk order, secrets dropped. */
  function CoresOf(env: Env, it: InputItem): seq<Core> {
    Keep(env, env.chunk(it))
  }

  function CoresOfAll(env: Env, items: seq<InputItem>): seq<Core> {
    if items == [] then []
    else CoresOfAll(env, items[..|items| - 1]) + CoresOf(env, items[|items| - 1])
  }

  /** Inserting rows by id; a later row with the same id wins. */
  function PutAll(env: Env, m: map<string, Core>, cores: seq<Core>): map<string, Core> {
    if cores == [] then m
    else
      var c := cores[|cores| - 1];
      PutAll(env, m, cores[..|cores| - 1])[ChunkId(env, c) := c]
  }

  function ItemMap(env: Env, it: InputItem): map<string, Core> {
    PutAll(env, map[], CoresOf(env, it))
  }

  /** A rebuild from the empty store. */
  function RebuildChunks(env: Env, items: seq<InputItem>): map<string, Core> {
    PutAll(env, map[], CoresOfAll(env, items))
  }

  function RebuildHashes(env: Env, items: seq<InputItem>): map<string, string> {
    if items == [] then map[]
    else
      var it := items[|items| - 1];
      RebuildHashes(env, items[..|items| - 1])[it.path := env.sha(it.text)]
  }

  // ------------------------------------------------------ reading by path

  ghost function View(chunks: map<string, Row>): map<string, Core> {
    map id | id in chunks :: chunks[id].core
  }

  ghost function Hashes(state: map<string, FileState>): map<string, string> {
    map p | p in state :: state[p].sourceHash
  }

  ghost function AtPath(m: map<string, Core>, p: string): map<string, Core> {
    map id | id in m && m[id].path == p :: m[id]
  }

  /** Ids are the hashes of what they name. */
  ghost predicate Keyed(env: Env, m: map<string, Core>) {
    forall id :: id in m ==> id == ChunkId(env, m[id]) && NulFree(m[id].path)
  }

  ghost predicate CacheSound(env: Env, cache: map<string, Vector>) {
    forall t :: CacheKey(env, t) in cache ==> cache[CacheKey(env, t)] == env.embed(t)
  }

  lemma {:induction false} SameIdSamePath(env: Env, a: Core, b: Core)
    requires Injective(env.sha) && NulFree(a.path) && NulFree(b.path)
    requires ChunkId(env, a) == ChunkId(env, b)
    ensures a.path == b.path
  {
    IdPreimageDeterminesPath(Normalize(a.text), a.path, a.startLine, a.endLine,
                             Normalize(b.text), b.path, b.startLine, b.endLine);
  }

  lemma {:induction false} CacheStaysSound(env: Env, cache: map<string, Vector>, text: string)
    requires Assumed(env) && CacheSound(env, cache)
    ensures CacheSound(env, cache[CacheKey(env, text) := env.embed(text)])
  {
    var prefix := env.stamp + "\0";
    forall t | CacheKey(env, t) == CacheKey(env, text)
      ensures env.embed(t) == env.embed(text)
    {
      var a, b := env.sha(Normalize(t)), env.sha(Normalize(text));
      assert prefix + a == prefix + b;
      assert a == (prefix + a)[|prefix|..] && b == (prefix + b)[|prefix|..];
      assert Normalize(t) == Normalize(text);
    }
  }

  /** Two keys are the same exactly for one provider stamp and one normalized text. */
  lemma {:induction false} CacheKeysTell(a: Env, b: Env, t: string, u: string)
    requires a.sha == b.sha && Injective(a.sha) && (forall s :: NulFree(a.sha(s)))
    ensures CacheKey(a, t) == CacheKey(b, u) <==> a.stamp == b.stamp && Normalize(t) == Normalize(u)
  {
    if CacheKey(a, t) == CacheKey(b, u) {
      SplitAtLastNul(a.stamp, a.sha(Normalize(t)), b.stamp, b.sha(Normalize(u)));
    }
  }

  ghost function FilterPath(cores: seq<Core>, p: string): seq<Core> {
    if cores == [] then []
    else
      var c := cores[|cores| - 1];
      FilterPath(cores[..|cores| - 1], p) + if c.path == p then [c] else []
  }

  lemma {:induction false} FilterPathAppend(a: seq<Core>, b: seq<Core>, p: string)
    ensures FilterPath(a + b, p) == FilterPath(a, p) + FilterPath(b, p)
  {
    if b == [] {
      assert a + b == a;
    } else {
      var n := |b| - 1;
      FilterPathAppend(a, b[..n], p);
      assert (a + b)[..|a + b| - 1] == a + b[..n];
    }
  }

  lemma {:induction false} FilterPathUniform(cores: seq<Core>, q: string, p: string)
    requires forall c :: c in cores ==> c.path == q
    ensures FilterPath(cores, p) == if p == q then cores else []
  {
    if cores != [] {
      var n := |cores| - 1;
      FilterPathUniform(cores[..n], q, p);
      assert cores == cores[..n] + [cores[n]];
    }
  }

  lemma {:induction false} KeptComesFrom(env: Env, chunks: seq<RawChunk>, q: string)
    requires forall c :: c in chunks ==> c.path == q
    ensures forall c :: c in Keep(env, chunks) ==> c.path == q
  {
    if chunks != [] {
      var n := |chunks| - 1;
      KeptComesFrom(env, chunks[..n], q);
      assert chunks[n] in chunks;
    }
  }

  lemma {:induction false} CoresCarryPath(env: Env, it: InputItem)
    requires ChunkerByText(env.chunk)
    ensures forall c :: c in CoresOf(env, it) ==> c.path == it.path
  {
    KeptComesFrom(env, env.chunk(it), it.path);
  }

  /** Two readings of the same text of the same path give the same rows. */
  lemma {:induction false} KeepByPieces(env: Env, a: seq<RawChunk>, b: seq<RawChunk>, q: string)
    requires Pieces(a) == Pieces(b)
    requires forall c :: c in a || c in b ==> c.path == q
    ensures Keep(env, a) == Keep(env, b)
  {
    assert |a| == |Pieces(a)| == |b|;
    if a != [] {
      var n := |a| - 1;
      assert Pieces(a)[..n] == Pieces(a[..n]) && Pieces(b)[..n] == Pieces(b[..n]);
      KeepByPieces(env, a[..n], b[..n], q);
      assert Pieces(a)[n] == Pieces(b)[n];
      assert a[n] in a && b[n] in b;
    }
  }

  lemma {:induction false} CoresByText(env: Env, a: InputItem, b: InputItem)
    requires ChunkerByText(env.chunk) && a.path == b.path && a.text == b.text
    ensures CoresOf(env, a) == CoresOf(env, b)
  {
    KeepByPieces(env, env.chunk(a), env.chunk(b), a.path);
  }

  /** The rows of a list of items, restricted to the path of one of them or of none. */
  lemma {:induction false} CoresHaveItems(env: Env, items: seq<InputItem>)
    requires ChunkerByText(env.chunk)
    ensures forall c :: c in CoresOfAll(env, items) ==> exists it :: it in items && it.path == c.path
  {
    if items != [] {
      var init, last := items[..|items| - 1], items[|items| - 1];
      CoresHaveItems(env, init);
      CoresCarryPath(env, last);
      assert items == init + [last];
    }
  }

  lemma {:induction false} FilterItems(env: Env, items: seq<InputItem>, p: string)
    requires ChunkerByText(env.chunk) && ValidItems(items)
    ensures forall it :: it in items && it.path == p ==> FilterPath(CoresOfAll(env, items), p) == CoresOf(env, it)
    ensures (forall it :: it in items ==> it.path != p) ==> FilterPath(CoresOfAll(env, items), p) == []
  {
    forall k | 0 <= k < |items| && items[k].path == p
      ensures FilterPath(CoresOfAll(env, items), p) == CoresOf(env, items[k])
    {
      FilterItem(env, items, k);
    }
    if forall it :: it in items ==> it.path != p {
      FilterAbsent(env, items, p);
    }
  }

  lemma {:induction false} FilterSnoc(env: Env, items: seq<InputItem>, p: string)
    requires ChunkerByText(env.chunk) && items != []
    ensures var init, last := items[..|items| - 1], items[|items| - 1];
            FilterPath(CoresOfAll(env, items), p) ==
            FilterPath(CoresOfAll(env, init), p) + if last.path == p then CoresOf(env, last) else []
  {
    var init, last := items[..|items| - 1], items[|items| - 1];
    CoresCarryPath(env, last);
    FilterPathAppend(CoresOfAll(env, init), CoresOf(env, last), p);
    FilterPathUniform(CoresOf(env, last), last.path, p);
  }

  lemma {:induction false} FilterAbsent(env: Env, items: seq<InputItem>, p: string)
    requires ChunkerByText(env.chunk) && forall it :: it in items ==> it.path != p
    ensures FilterPath(CoresOfAll(env, items), p) == []
  {
    if items != [] {
      FilterSnoc(env, items, p);
      FilterAbsent(env, items[..|items| - 1], p);
    }
  }

  lemma {:induction false} FilterItem(env: Env, items: seq<InputItem>, k: nat)
    requires ChunkerByText(env.chunk) && ValidItems(items) && k < |items|
    ensures FilterPath(CoresOfAll(env, items), items[k].path) == CoresOf(env, items[k])
  {
    var n := |items| - 1;
    var init, p := items[..n], items[k].path;
    FilterSnoc(env, items, p);
    if k < n {
      assert init[k] == items[k] && items[n].path != p;
      FilterItem(env, init, k);
      assert FilterPath(CoresOfAll(env, init), p) + [] == FilterPath(CoresOfAll(env, init), p);
    } else {
      FilterAbsent(env, init, p);
      assert [] + CoresOf(env, items[k]) == CoresOf(env, items[k]);
    }
  }

  lemma {:induction false} PutAllSnoc(env: Env, m: map<string, Core>, cores: seq<Core>, c: Core)
    ensures PutAll(env, m, cores + [c]) == PutAll(env, m, cores)[ChunkId(env, c) := c]
  {
    assert (cores + [c])[..|cores|] == cores;
  }

  /** Inserting rows changes each path only by that path's own rows. */
  lemma {:induction false} PutAllAtPath(env: Env, m: map<string, Core>, cores: seq<Core>, p: string)
    requires Injective(env.sha) && Keyed(env, m)
    requires forall c :: c in cores ==> NulFree(c.path)
    ensures Keyed(env, PutAll(env, m, cores))
    ensures AtPath(PutAll(env, m, cores), p) == PutAll(env, AtPath(m, p), FilterPath(cores, p))
  {
    if cores != [] {
      var n := |cores| - 1;
      var init, c := cores[..n], cores[n];
      assert c in cores;
      PutAllAtPath(env, m, init, p);
      PutOneAtPath(env, PutAll(env, m, init), c, p);
      PutAllSnoc(env, AtPath(m, p), FilterPath(init, p), c);
      assert FilterPath(init, p) + [] == FilterPath(init, p);
    }
  }

  lemma {:induction false} PutOneAtPath(env: Env, m: map<string, Core>, c: Core, p: string)
    requires Injective(env.sha) && Keyed(env, m) && NulFree(c.path)
    ensures var m' := m[ChunkId(env, c) := c];
            Keyed(env, m') && AtPath(m', p) == if c.path == p then AtPath(m, p)[ChunkId(env, c) := c] else AtPath(m, p)
  {
    var id := ChunkId(env, c);
    if id in m {
      SameIdSamePath(env, m[id], c);
    }
    RowPutAtPath(m, id, c, p);
  }

  lemma {:induction false} RowPutAtPath(m: map<string, Core>, id: string, c: Core, p: string)
    requires id in m ==> m[id].path == c.path
    ensures AtPath(m[id := c], p) == if c.path == p then AtPath(m, p)[id := c] else AtPath(m, p)
  {
  }

  /** Maps that agree on every path agree. */
  lemma {:induction false} SameAtEveryPath(a: map<string, Core>, b: map<string, Core>)
    requires forall p :: AtPath(a, p) == AtPath(b, p)
    ensures a == b
  {
    forall id | id in a
      ensures id in b && a[id] == b[id]
    {
      assert id in AtPath(a, a[id].path);
      assert id in AtPath(b, a[id].path);
    }
    forall id | id in b
      ensures id in a
    {
      assert id in AtPath(b, b[id].path);
      assert id in AtPath(a, b[id].path);
    }
  }

  // ---- rows and the chunks they stand for

  /** The id of an item's chunk: its text as normalized, the item's path and the chunk's lines, hashed. */
  ghost function IdOf(env: Env, it: InputItem, ch: RawChunk): string {
    env.sha(Normalize(ch.text) + "\0" + it.path + "\0" + LineOrBlank(ch.startLine) + "\0" + LineOrBlank(ch.endLine))
  }

  ghost function LineOrBlank(line: Option<nat>): string {
    if line.Some? then Decimal(line.value) else ""
  }

  /** A row says what one of the item's chunks says, and is no secret. */
  ghost predicate IsRowOf(env: Env, it: InputItem, ch: RawChunk, id: string, row: Core) {
    && ch in env.chunk(it) && !env.isSecret(ch.text) && id == IdOf(env, it, ch)
    && row.path == it.path && row.text == ch.text
    && row.startLine == ch.startLine && row.endLine == ch.endLine
    && row.embedding == env.embed(ch.text)
  }

  /** The k-th chunk is no secret. */
  ghost predicate Clean(env: Env, it: InputItem, k: nat)
    requires k < |env.chunk(it)|
  {
    !env.isSecret(env.chunk(it)[k].text)
  }

  /** Of the first n chunks, no later one that is no secret has the id of the k-th. */
  ghost predicate Decides(env: Env, it: InputItem, k: nat, n: nat)
    requires k < n <= |env.chunk(it)|
  {
    var chunks := env.chunk(it);
    forall j :: k < j < n && Clean(env, it, j) ==> IdOf(env, it, chunks[j]) != IdOf(env, it, chunks[k])
  }

  /** The k-th chunk has a row, and if it decides among the first n, the row is its own. */
  ghost predicate IsHeld(env: Env, it: InputItem, k: nat, n: nat, rows: map<string, Core>)
    requires k < n <= |env.chunk(it)|
  {
    var ch := env.chunk(it)[k];
    var id := IdOf(env, it, ch);
    id in rows && (Decides(env, it, k, n) ==> IsRowOf(env, it, ch, id, rows[id]))
  }

  ghost predicate HasChunk(env: Env, it: InputItem, id: string, row: Core) {
    exists ch :: IsRowOf(env, it, ch, id, row)
  }

  /**
    The rows at an item's path are those of its chunks: each row is one's, each chunk that is no
    secret has a row under its id, and where several share an id the last one decides.
   */
  ghost predicate RowsAreChunks(env: Env, it: InputItem, rows: map<string, Core>) {
    var n := |env.chunk(it)|;
    && (forall id :: id in rows && rows[id].path == it.path ==> HasChunk(env, it, id, rows[id]))
    && (forall k :: 0 <= k < n && Clean(env, it, k) ==> IsHeld(env, it, k, n, rows))
  }

  /** The rows of the first n chunks of an item. */
  ghost predicate RowsSoFar(env: Env, it: InputItem, n: nat, rows: map<string, Core>)
    requires n <= |env.chunk(it)|
  {
    EachHasChunk(env, it, rows) && forall k :: 0 <= k < n && Clean(env, it, k) ==> IsHeld(env, it, k, n, rows)
  }

  ghost predicate EachHasChunk(env: Env, it: InputItem, rows: map<string, Core>) {
    forall id :: id in rows ==> HasChunk(env, it, id, rows[id])
  }

  lemma {:induction false} OneMoreHasChunk(env: Env, it: InputItem, rows: map<string, Core>, id: string, row: Core)
    requires EachHasChunk(env, it, rows) && HasChunk(env, it, id, row)
    ensures EachHasChunk(env, it, rows[id := row])
  {
  }

  lemma {:induction false} KeepIsRows(env: Env, it: InputItem, n: nat)
    requires ChunkerByText(env.chunk) && n <= |env.chunk(it)|
    ensures RowsSoFar(env, it, n, PutAll(env, map[], Keep(env, env.chunk(it)[..n])))
  {
    var chunks := env.chunk(it);
    if n == 0 {
      assert Keep(env, chunks[..0]) == [];
    } else {
      var k := n - 1;
      var before, c := Keep(env, chunks[..k]), chunks[k];
      KeepIsRows(env, it, k);
      assert chunks[..n][..k] == chunks[..k] && chunks[..n][k] == c;
      if env.isSecret(c.text) {
        assert Keep(env, chunks[..n]) == before;
        SecretAddsNothing(env, it, k, PutAll(env, map[], before));
      } else {
        assert Keep(env, chunks[..n]) == before + [CoreOf(env, c)];
        PutAllSnoc(env, map[], before, CoreOf(env, c));
        assert c in chunks && c.path == it.path;
        NewRowIsRow(env, it, k);
        RowAdded(env, it, k, PutAll(env, map[], before), IdOf(env, it, c), CoreOf(env, c));
      }
    }
  }

  lemma {:induction false} SecretAddsNothing(env: Env, it: InputItem, k: nat, rows: map<string, Core>)
    requires k < |env.chunk(it)| && !Clean(env, it, k) && RowsSoFar(env, it, k, rows)
    ensures RowsSoFar(env, it, k + 1, rows)
  {
    forall i | 0 <= i < k + 1 && Clean(env, it, i)
      ensures IsHeld(env, it, i, k + 1, rows)
    {
      assert IsHeld(env, it, i, k, rows);
    }
  }

  lemma {:induction false} NewRowIsRow(env: Env, it: InputItem, k: nat)
    requires k < |env.chunk(it)| && Clean(env, it, k) && env.chunk(it)[k].path == it.path
    ensures var ch := env.chunk(it)[k];
            ChunkId(env, CoreOf(env, ch)) == IdOf(env, it, ch) &&
            IsRowOf(env, it, ch, IdOf(env, it, ch), CoreOf(env, ch))
  {
  }

  lemma {:induction false} RowAdded(env: Env, it: InputItem, k: nat, rows: map<string, Core>, id: string, row: Core)
    requires k < |env.chunk(it)| && IsRowOf(env, it, env.chunk(it)[k], id, row)
    requires RowsSoFar(env, it, k, rows)
    ensures RowsSoFar(env, it, k + 1, rows[id := row])
  {
    OneMoreHasChunk(env, it, rows, id, row);
    forall i | 0 <= i < k + 1 && Clean(env, it, i)
      ensures IsHeld(env, it, i, k + 1, rows[id := row])
    {
      if i < k {
        HeldStays(env, it, i, k, rows, id, row);
      } else {
        NewIsHeld(env, it, k, rows, id, row);
      }
    }
  }

  lemma {:induction false} NewIsHeld(env: Env, it: InputItem, k: nat, rows: map<string, Core>, id: string, row: Core)
    requires k < |env.chunk(it)| && IsRowOf(env, it, env.chunk(it)[k], id, row)
    ensures IsHeld(env, it, k, k + 1, rows[id := row])
  {
  }

  lemma {:induction false} HeldStays(env: Env, it: InputItem, i: nat, k: nat, rows: map<string, Core>, id: string,
                                     row: Core)
    requires i < k < |env.chunk(it)| && Clean(env, it, k) && id == IdOf(env, it, env.chunk(it)[k])
    requires IsHeld(env, it, i, k, rows)
    ensures IsHeld(env, it, i, k + 1, rows[id := row])
  {
    if Decides(env, it, i, k + 1) {
      assert Decides(env, it, i, k);
    }
  }

  /** An item's rows are its chunks, whatever computed them. */
  lemma {:induction false} ItemRowsAreChunks(env: Env, it: InputItem)
    requires ChunkerByText(env.chunk)
    ensures RowsAreChunks(env, it, ItemMap(env, it))
  {
    var chunks := env.chunk(it);
    assert chunks[..|chunks|] == chunks;
    KeepIsRows(env, it, |chunks|);
  }

  /** A store that holds an item's rows at its path holds its chunks. */
  lemma {:induction false} RowsAtPathAreChunks(env: Env, it: InputItem, chunks: map<string, Core>)
    requires ChunkerByText(env.chunk) && AtPath(chunks, it.path) == ItemMap(env, it)
    ensures RowsAreChunks(env, it, chunks)
  {
    ItemRowsAreChunks(env, it);
    var rows := AtPath(chunks, it.path);
    forall id | id in chunks && chunks[id].path == it.path
      ensures HasChunk(env, it, id, chunks[id])
    {
      assert id in rows && rows[id] == chunks[id];
    }
    forall k | 0 <= k < |env.chunk(it)| && Clean(env, it, k)
      ensures IsHeld(env, it, k, |env.chunk(it)|, chunks)
    {
      assert IsHeld(env, it, k, |env.chunk(it)|, rows);
    }
  }

  /** A rebuild holds the chunks of its items and nothing else. */
  lemma {:induction false} RebuildHoldsChunks(env: Env, items: seq<InputItem>)
    requires Assumed(env) && ValidItems(items)
    ensures forall it :: it in items ==> RowsAreChunks(env, it, RebuildChunks(env, items))
    ensures forall id :: id in RebuildChunks(env, items) ==>
              exists it :: it in items && it.path == RebuildChunks(env, items)[id].path
  {
    var all := RebuildChunks(env, items);
    forall it | it in items
      ensures RowsAreChunks(env, it, all)
    {
      RebuildAtPath(env, items, it.path);
      RowsAtPathAreChunks(env, it, all);
    }
    forall id | id in all
      ensures exists it :: it in items && it.path == all[id].path
    {
      RebuildAtPath(env, items, all[id].path);
      assert id in AtPath(all, all[id].path);
    }
  }

  /** The rebuild read path by path: exactly the rows of each item, nothing elsewhere. */
  lemma {:induction false} RebuildAtPath(env: Env, items: seq<InputItem>, p: string)
    requires Assumed(env) && ValidItems(items)
    ensures Keyed(env, RebuildChunks(env, items))
    ensures forall it :: it in items && it.path == p ==> AtPath(RebuildChunks(env, items), p) == ItemMap(env, it)
    ensures (forall it :: it in items ==> it.path != p) ==> AtPath(RebuildChunks(env, items), p) == map[]
  {
    var cores := CoresOfAll(env, items);
    FilterItems(env, items, p);
    CoresHaveItems(env, items);
    PutAllAtPath(env, map[], cores, p);
    assert AtPath(map[], p) == map[];
  }

  lemma {:induction false} RebuildHashesOf(env: Env, items: seq<InputItem>)
    requires ValidItems(items)
    ensures forall p :: p in RebuildHashes(env, items) <==> exists it :: it in items && it.path == p
    ensures forall it :: it in items ==>
              it.path in RebuildHashes(env, items) && RebuildHashes(env, items)[it.path] == env.sha(it.text)
  {
    if items != [] {
      var n := |items| - 1;
      RebuildHashesOf(env, items[..n]);
      assert items == items[..n] + [items[n]];
      assert ValidItems(items[..n]);
      forall it | it in items[..n]
        ensures it.path != items[n].path
      {
      }
    }
  }

  // ----------------------------------------------------- what a run promises

  ghost predicate HasPath(items: seq<InputItem>, p: string) {
    exists it :: it in items && it.path == p
  }

  lemma {:induction false} HasPathSnoc(items: seq<InputItem>, last: InputItem, p: string)
    ensures HasPath(items + [last], p) <==> HasPath(items, p) || p == last.path
  {
    if p == last.path {
      assert last in items + [last];
    }
    if HasPath(items, p) {
      var it :| it in items && it.path == p;
      assert it in items + [last];
    }
  }

  /** The known paths that were not given. */
  ghost function Vanished(hashes: map<string, string>, items: seq<InputItem>): set<string> {
    set p | p in hashes && !HasPath(items, p)
  }

  predicate Unchanged(env: Env, hashes: map<string, string>, it: InputItem) {
    it.path in hashes && hashes[it.path] == env.sha(it.text)
  }

  /** Rows of files believed up to date are right, and every row belongs to a known or given path. */
  ghost predicate Recoverable(env: Env, items: seq<InputItem>, chunks: map<string, Core>, hashes: map<string, string>) {
    && (forall it :: it in items && Unchanged(env, hashes, it) ==> AtPath(chunks, it.path) == ItemMap(env, it))
    && (forall id :: id in chunks ==> chunks[id].path in hashes || HasPath(items, chunks[id].path))
  }

  /** The rows a finished run leaves for an item: kept when believed up to date, else rebuilt. */
  ghost function Goal(env: Env, chunks: map<string, Core>, hashes: map<string, string>, it: InputItem)
    : map<string, Core>
  {
    if Unchanged(env, hashes, it) then AtPath(chunks, it.path) else ItemMap(env, it)
  }

  /** The rows a finished run leaves at a path that was not given: none if the path was known. */
  ghost function Rest(chunks: map<string, Core>, hashes: map<string, string>, p: string): map<string, Core> {
    if p in hashes then map[] else AtPath(chunks, p)
  }

  /** What a completed run leaves at every path, whatever it started from. */
  ghost predicate Completed(env: Env, items: seq<InputItem>,
                            chunks0: map<string, Core>, hashes0: map<string, string>,
                            chunks: map<string, Core>, hashes: map<string, string>) {
    && hashes == RebuildHashes(env, items)
    && (forall it :: it in items ==> AtPath(chunks, it.path) == Goal(env, chunks0, hashes0, it))
    && (forall p :: !HasPath(items, p) ==> AtPath(chunks, p) == Rest(chunks0, hashes0, p))
  }

  /** The rows at an item's path: those it had, none, or all those it should have. */
  ghost predicate OldNewOrNone(env: Env, it: InputItem, chunks0: map<string, Core>, chunks: map<string, Core>) {
    var rows := AtPath(chunks, it.path);
    rows == AtPath(chunks0, it.path) || rows == map[] || rows == ItemMap(env, it)
  }

  /**
    What an interrupted run may have done: only changed and vanished paths are touched, and no
    path holds a mixture of old rows and new ones.
   */
  ghost predicate Interrupted(env: Env, items: seq<InputItem>,
                              chunks0: map<string, Core>, hashes0: map<string, string>, chunks: map<string, Core>) {
    && (forall it :: it in items && Unchanged(env, hashes0, it) ==> AtPath(chunks, it.path) == AtPath(chunks0, it.path))
    && (forall it :: it in items ==> OldNewOrNone(env, it, chunks0, chunks))
    && (forall p :: !HasPath(items, p) ==>
          AtPath(chunks, p) == AtPath(chunks0, p) || (p in hashes0 && AtPath(chunks, p) == map[]))
  }

  /** A completed run equals the rebuild exactly when it started from a recoverable state. */
  lemma {:induction false} CompletedIsRebuildIff(env: Env, items: seq<InputItem>,
                                                 chunks0: map<string, Core>, hashes0: map<string, string>,
                                                 chunks: map<string, Core>, hashes: map<string, string>)
    requires Assumed(env) && ValidItems(items)
    requires Completed(env, items, chunks0, hashes0, chunks, hashes)
    ensures chunks == RebuildChunks(env, items) <==> Recoverable(env, items, chunks0, hashes0)
  {
    if Recoverable(env, items, chunks0, hashes0) {
      forall p
        ensures AtPath(chunks, p) == AtPath(RebuildChunks(env, items), p)
      {
        RebuildAtPath(env, items, p);
        assert !HasPath(items, p) && p !in hashes0 ==> AtPath(chunks0, p) == map[];
      }
      SameAtEveryPath(chunks, RebuildChunks(env, items));
    }
    if chunks == RebuildChunks(env, items) {
      forall it | it in items && Unchanged(env, hashes0, it)
        ensures AtPath(chunks0, it.path) == ItemMap(env, it)
      {
        RebuildAtPath(env, items, it.path);
      }
      forall id | id in chunks0
        ensures chunks0[id].path in hashes0 || HasPath(items, chunks0[id].path)
      {
        var p := chunks0[id].path;
        RebuildAtPath(env, items, p);
        assert id in AtPath(chunks0, p);
      }
    }
  }

  /** The start decides the whole result of a completed run. */
  lemma {:induction false} CompletedIsUnique(env: Env, items: seq<InputItem>,
                                             chunks0: map<string, Core>, hashes0: map<string, string>,
                                             a: map<string, Core>, aHashes: map<string, string>,
                                             b: map<string, Core>, bHashes: map<string, string>)
    requires Completed(env, items, chunks0, hashes0, a, aHashes)
    requires Completed(env, items, chunks0, hashes0, b, bHashes)
    ensures a == b && aHashes == bHashes
  {
    forall p
      ensures AtPath(a, p) == AtPath(b, p)
    {
      if HasPath(items, p) {
        var it :| it in items && it.path == p;
        assert AtPath(a, it.path) == Goal(env, chunks0, hashes0, it);
      }
    }
    SameAtEveryPath(a, b);
  }

  /** A store left by a completed run over any other items is recoverable for these. */
  lemma {:induction false} RebuiltIsRecoverable(env: Env, before: seq<InputItem>, items: seq<InputItem>)
    requires Assumed(env) && ValidItems(before) && ValidItems(items)
    ensures Recoverable(env, items, RebuildChunks(env, before), RebuildHashes(env, before))
  {
    var chunks, hashes := RebuildChunks(env, before), RebuildHashes(env, before);
    RebuildHashesOf(env, before);
    forall it | it in items && Unchanged(env, hashes, it)
      ensures AtPath(chunks, it.path) == ItemMap(env, it)
    {
      var was :| was in before && was.path == it.path;
      assert env.sha(was.text) == env.sha(it.text);
      CoresByText(env, was, it);
      RebuildAtPath(env, before, it.path);
    }
    forall id | id in chunks
      ensures chunks[id].path in hashes
    {
      var p := chunks[id].path;
      RebuildAtPath(env, before, p);
      assert id in AtPath(chunks, p);
    }
  }

  // ------------------------------------------------------------------ stops

  /** A completed run over these items would leave the same from either store. */
  ghost predicate SameOutcome(env: Env, items: seq<InputItem>,
                              chunks0: map<string, Core>, hashes0: map<string, string>,
                              chunks: map<string, Core>, hashes: map<string, string>) {
    && (forall it :: it in items ==> Goal(env, chunks, hashes, it) == Goal(env, chunks0, hashes0, it))
    && (forall p :: !HasPath(items, p) ==> Rest(chunks, hashes, p) == Rest(chunks0, hashes0, p))
  }

  lemma {:induction false} SameOutcomeOnwards(env: Env, items: seq<InputItem>,
                                              c0: map<string, Core>, h0: map<string, string>,
                                              c1: map<string, Core>, h1: map<string, string>,
                                              c2: map<string, Core>, h2: map<string, string>)
    requires SameOutcome(env, items, c0, h0, c1, h1) && SameOutcome(env, items, c1, h1, c2, h2)
    ensures SameOutcome(env, items, c0, h0, c2, h2)
  {
  }

  /** So completing later is completing from the earlier store. */
  lemma {:induction false} CompletedFromEarlier(env: Env, items: seq<InputItem>,
                                                c0: map<string, Core>, h0: map<string, string>,
                                                c1: map<string, Core>, h1: map<string, string>,
                                                c2: map<string, Core>, h2: map<string, string>)
    requires SameOutcome(env, items, c0, h0, c1, h1) && Completed(env, items, c1, h1, c2, h2)
    ensures Completed(env, items, c0, h0, c2, h2)
  {
  }

  /** Recoverable stores are those whose outcome is the rebuild. */
  lemma {:induction false} OutcomeDecidesRecoverable(env: Env, items: seq<InputItem>,
                                                     c0: map<string, Core>, h0: map<string, string>,
                                                     c1: map<string, Core>, h1: map<string, string>)
    requires SameOutcome(env, items, c0, h0, c1, h1)
    ensures Recoverable(env, items, c0, h0) <==> Recoverable(env, items, c1, h1)
  {
    RecoverableByOutcome(env, items, c0, h0);
    RecoverableByOutcome(env, items, c1, h1);
  }

  lemma {:induction false} RecoverableByOutcome(env: Env, items: seq<InputItem>, c: map<string, Core>,
                                                h: map<string, string>)
    ensures Recoverable(env, items, c, h) <==>
              && (forall it :: it in items ==> Goal(env, c, h, it) == ItemMap(env, it))
              && (forall p :: !HasPath(items, p) ==> Rest(c, h, p) == map[])
  {
    GoalsFitIff(env, items, c, h);
    RestsEmptyIff(items, c, h);
  }

  lemma {:induction false} GoalsFitIff(env: Env, items: seq<InputItem>, c: map<string, Core>, h: map<string, string>)
    ensures (forall it :: it in items ==> Goal(env, c, h, it) == ItemMap(env, it)) <==>
              forall it :: it in items && Unchanged(env, h, it) ==> AtPath(c, it.path) == ItemMap(env, it)
  {
    assert forall it :: it in items ==>
        (Goal(env, c, h, it) == ItemMap(env, it) <==>
         (Unchanged(env, h, it) ==> AtPath(c, it.path) == ItemMap(env, it)));
  }

  lemma {:induction false} RestsEmptyIff(items: seq<InputItem>, c: map<string, Core>, h: map<string, string>)
    ensures (forall p :: !HasPath(items, p) ==> Rest(c, h, p) == map[]) <==>
              forall id :: id in c ==> c[id].path in h || HasPath(items, c[id].path)
  {
    if forall p :: !HasPath(items, p) ==> Rest(c, h, p) == map[] {
      forall id | id in c
        ensures c[id].path in h || HasPath(items, c[id].path)
      {
        assert id in AtPath(c, c[id].path);
      }
    }
  }

  /** A stop while no file state has been written keeps the outcome. */
  lemma {:induction false} InterruptedKeepsOutcome(env: Env, items: seq<InputItem>, chunks0: map<string, Core>,
                                                   hashes: map<string, string>, chunks: map<string, Core>)
    requires Interrupted(env, items, chunks0, hashes, chunks)
    ensures SameOutcome(env, items, chunks0, hashes, chunks, hashes)
  {
  }

  /** Vanished paths are forgotten and their rows gone, the other file states are as they were. */
  ghost predicate Forgot(items: seq<InputItem>, hashes0: map<string, string>, chunks: map<string, Core>,
                         hashes: map<string, string>) {
    && (forall p :: p in hashes <==> p in hashes0 && HasPath(items, p))
    && (forall p :: p in hashes ==> hashes[p] == hashes0[p])
    && (forall p :: p in hashes0 && !HasPath(items, p) ==> AtPath(chunks, p) == map[])
  }

  /** So does a stop between the two file-state writes. */
  lemma {:induction false} ForgettingKeepsOutcome(env: Env, items: seq<InputItem>, chunks: map<string, Core>,
                                                  hashes0: map<string, string>, hashes: map<string, string>)
    requires Forgot(items, hashes0, chunks, hashes)
    ensures SameOutcome(env, items, chunks, hashes0, chunks, hashes)
  {
    forall it | it in items
      ensures Goal(env, chunks, hashes, it) == Goal(env, chunks, hashes0, it)
    {
      assert HasPath(items, it.path);
    }
  }

  /** Completing again changes nothing. */
  lemma {:induction false} CompletedKeepsOutcome(env: Env, items: seq<InputItem>,
                                                 chunks0: map<string, Core>, hashes0: map<string, string>,
                                                 chunks: map<string, Core>, hashes: map<string, string>)
    requires ValidItems(items) && Completed(env, items, chunks0, hashes0, chunks, hashes)
    ensures SameOutcome(env, items, chunks0, hashes0, chunks, hashes)
  {
    RebuildHashesOf(env, items);
    forall it | it in items
      ensures Goal(env, chunks, hashes, it) == Goal(env, chunks0, hashes0, it)
    {
      assert Unchanged(env, hashes, it);
    }
    forall p | !HasPath(items, p)
      ensures Rest(chunks, hashes, p) == Rest(chunks0, hashes0, p)
    {
      assert p !in hashes;
    }
  }

  lemma {:induction false} CompletedIsInterrupted(env: Env, items: seq<InputItem>,
                                                  chunks0: map<string, Core>, hashes0: map<string, string>,
                                                  chunks: map<string, Core>, hashes: map<string, string>)
    requires Completed(env, items, chunks0, hashes0, chunks, hashes)
    ensures Interrupted(env, items, chunks0, hashes0, chunks)
  {
  }

  /** What a run that did not finish leaves: touched rows, and the file states of some moment. */
  ghost predicate Stopped(env: Env, items: seq<InputItem>,
                          chunks0: map<string, Core>, hashes0: map<string, string>,
                          chunks: map<string, Core>, hashes: map<string, string>) {
    && Interrupted(env, items, chunks0, hashes0, chunks)
    && (hashes == hashes0 || Forgot(items, hashes0, chunks, hashes) ||
        Completed(env, items, chunks0, hashes0, chunks, hashes))
  }

  /** Wherever a run stops, a finished run afterwards does what one uninterrupted run would have done. */
  lemma {:induction false} StoppedKeepsOutcome(env: Env, items: seq<InputItem>,
                                               chunks0: map<string, Core>, hashes0: map<string, string>,
                                               chunks: map<string, Core>, hashes: map<string, string>)
    requires ValidItems(items) && Stopped(env, items, chunks0, hashes0, chunks, hashes)
    ensures SameOutcome(env, items, chunks0, hashes0, chunks, hashes)
  {
    if Completed(env, items, chunks0, hashes0, chunks, hashes) {
      CompletedKeepsOutcome(env, items, chunks0, hashes0, chunks, hashes);
    } else {
      InterruptedKeepsOutcome(env, items, chunks0, hashes0, chunks);
      if hashes != hashes0 {
        ForgettingKeepsOutcome(env, items, chunks, hashes0, hashes);
        SameOutcomeOnwards(env, items, chunks0, hashes0, chunks, hashes0, chunks, hashes);
      }
    }
  }

  // ------------------------------------------------------------- the store

  datatype StoredChunk = StoredChunk(id: string, row: Row)

  ghost function CoresIn(rows: seq<StoredChunk>): seq<Core> {
    seq(|rows|, i requires 0 <= i < |rows| => rows[i].row.core)
  }

  ghost predicate IdsMatch(env: Env, rows: seq<StoredChunk>) {
    forall r :: r in rows ==> r.id == ChunkId(env, r.row.core)
  }

  lemma {:induction false} UpsertOne(env: Env, start: map<string, Core>, chunks: map<string, Row>,
                                     rows: seq<StoredChunk>, i: nat)
    requires i < |rows| && IdsMatch(env, rows)
    requires View(chunks) == PutAll(env, start, CoresIn(rows[..i]))
    ensures View(chunks[rows[i].id := rows[i].row]) == PutAll(env, start, CoresIn(rows[..i + 1]))
  {
    var r := rows[i];
    assert r in rows;
    CoresSnoc(rows, i);
    PutAllSnoc(env, start, CoresIn(rows[..i]), r.row.core);
    ViewPut(chunks, r.id, r.row);
  }

  lemma {:induction false} ViewPut(chunks: map<string, Row>, id: string, row: Row)
    ensures View(chunks[id := row]) == View(chunks)[id := row.core]
  {
  }

  lemma {:induction false} CoresSnoc(rows: seq<StoredChunk>, i: nat)
    requires i < |rows|
    ensures CoresIn(rows[..i + 1]) == CoresIn(rows[..i]) + [rows[i].row.core]
  {
  }

  /**
    The vector store's tables. `writesLeft` is how many more writes go through before the
    process stops or the database fails; every write is one transaction.
   */
  class Store {
    var chunks: map<string, Row>
    var fileState: map<string, FileState>
    var cache: map<string, Vector>
    var secretsDropped: nat
    var lastIngestAt: Option<int>
    var writesLeft: nat

    constructor (writesLeft: nat)
      ensures chunks == map[] && fileState == map[] && cache == map[] && secretsDropped == 0
      ensures this.writesLeft == writesLeft
    {
      chunks, fileState, cache := map[], map[], map[];
      secretsDropped, lastIngestAt := 0, None;
      this.writesLeft := writesLeft;
    }

    ghost function Chunks(): map<string, Core>
      reads this
    {
      View(chunks)
    }

    ghost function FileHashes(): map<string, string>
      reads this
    {
      Hashes(fileState)
    }

    method Upsert(env: Env, rows: seq<StoredChunk>) returns (ok: bool)
      requires IdsMatch(env, rows)
      modifies this`chunks, this`writesLeft
      ensures Chunks() == if ok then PutAll(env, old(Chunks()), CoresIn(rows)) else old(Chunks())
      ensures ok <==> old(writesLeft) > 0
      ensures writesLeft == if ok then old(writesLeft) - 1 else 0
    {
      if writesLeft == 0 {
        return false;
      }
      writesLeft := writesLeft - 1;
      for i := 0 to |rows|
        invariant Chunks() == PutAll(env, old(Chunks()), CoresIn(rows[..i]))
        invariant writesLeft == old(writesLeft) - 1
      {
        UpsertOne(env, old(Chunks()), chunks, rows, i);
        chunks := chunks[rows[i].id := rows[i].row];
      }
      assert rows[..|rows|] == rows;
      return true;
    }

    /** Delete every row of a path. */
    method DeleteByPath(path: string) returns (ok: bool, removed: nat)
      modifies this`chunks, this`writesLeft
      ensures ok ==> Chunks() == map id | id in old(Chunks()) && old(Chunks())[id].path != path :: old(Chunks())[id]
      ensures !ok ==> chunks == old(chunks)
      ensures forall p :: AtPath(Chunks(), p) == if ok && p == path then map[] else AtPath(old(Chunks()), p)
      ensures removed == if ok then |AtPath(old(Chunks()), path)| else 0
      ensures ok <==> old(writesLeft) > 0
      ensures writesLeft == if ok then old(writesLeft) - 1 else 0
    {
      if writesLeft == 0 {
        return false, 0;
      }
      writesLeft := writesLeft - 1;
      var doomed := set id | id in chunks && chunks[id].core.path == path;
      assert doomed == AtPath(Chunks(), path).Keys;
      removed := |doomed|;
      chunks := map id | id in chunks && id !in doomed :: chunks[id];
      return true, removed;
    }

    method PutCachedEmbedding(key: string, vector: Vector) returns (ok: bool)
      modifies this`cache, this`writesLeft
      ensures cache == if ok then old(cache)[key := vector] else old(cache)
      ensures ok <==> old(writesLeft) > 0
      ensures writesLeft == if ok then old(writesLeft) - 1 else 0
    {
      if writesLeft == 0 {
        return false;
      }
      writesLeft := writesLeft - 1;
      cache := cache[key := vector];
      return true;
    }

    method PutFileState(updates: seq<(string, FileState)>) returns (ok: bool)
      modifies this`fileState, this`writesLeft
      ensures fileState == if ok then PutStates(old(fileState), updates) else old(fileState)
      ensures ok <==> old(writesLeft) > 0
      ensures writesLeft == if ok then old(writesLeft) - 1 else 0
    {
      if writesLeft == 0 {
        return false;
      }
      writesLeft := writesLeft - 1;
      for i := 0 to |updates|
        invariant fileState == PutStates(old(fileState), updates[..i])
        invariant writesLeft == old(writesLeft) - 1
      {
        assert updates[..i + 1][..i] == updates[..i];
        fileState := fileState[updates[i].0 := updates[i].1];
      }
      assert updates[..|updates|] == updates;
      return true;
    }

    method DeleteFileState(paths: seq<string>) returns (ok: bool)
      modifies this`fileState, this`writesLeft
      ensures fileState == if ok then old(fileState) - ToSet(paths) else old(fileState)
      ensures ok <==> old(writesLeft) > 0
      ensures writesLeft == if ok then old(writesLeft) - 1 else 0
    {
      if writesLeft == 0 {
        return false;
      }
      writesLeft := writesLeft - 1;
      for i := 0 to |paths|
        invariant fileState == old(fileState) - ToSet(paths[..i])
        invariant writesLeft == old(writesLeft) - 1
      {
        assert paths[..i + 1] == paths[..i] + [paths[i]];
        fileState := fileState - {paths[i]};
      }
      assert paths[..|paths|] == paths;
      return true;
    }

    /** Record the time of the run and the number of chunks dropped as secrets. */
    method Finish(now: int, dropped: nat) returns (ok: bool)
      modifies this`lastIngestAt, this`secretsDropped, this`writesLeft
      ensures ok ==> lastIngestAt == Some(now) && secretsDropped == old(secretsDropped) + dropped
      ensures !ok ==> secretsDropped == old(secretsDropped)
      ensures var writes := if dropped > 0 then 2 else 1;
              (ok <==> old(writesLeft) >= writes) && writesLeft == if ok then old(writesLeft) - writes else 0
    {
      if writesLeft == 0 {
        return false;
      }
      lastIngestAt, writesLeft := Some(now), writesLeft - 1;
      if dropped > 0 {
        if writesLeft == 0 {
          return false;
        }
        secretsDropped, writesLeft := secretsDropped + dropped, writesLeft - 1;
      }
      return true;
    }
  }

  function PutStates(m: map<string, FileState>, updates: seq<(string, FileState)>): map<string, FileState> {
    if updates == [] then m
    else
      var last := updates[|updates| - 1];
      PutStates(m, updates[..|updates| - 1])[last.0 := last.1]
  }
}
