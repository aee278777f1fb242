/** The ingest pipeline itself, batch by batch, over the store of module Ingest (src/rag/pipeline.ts). */
module IngestRun {
  import opened Common
  import opened Ingest

  const UPSERT_BATCH := 64

  datatype Report = Report(filesScanned: nat, filesChanged: nat, chunksUpserted: nat, chunksDroppedSecrets: nat)

  /** A row whose embedding is still to be computed. */
  datatype Need = Need(idx: nat, text: string)

  ghost function SecretsIn(env: Env, chunks: seq<RawChunk>): nat {
    if chunks == [] then 0
    else SecretsIn(env, chunks[..|chunks| - 1]) + if env.isSecret(chunks[|chunks| - 1].text) then 1 else 0
  }

  ghost function SecretsInAll(env: Env, items: seq<InputItem>): nat {
    if items == [] then 0
    else SecretsInAll(env, items[..|items| - 1]) + SecretsIn(env, env.chunk(items[|items| - 1]))
  }

  ghost function ChunksInAll(env: Env, items: seq<InputItem>): nat {
    if items == [] then 0
    else ChunksInAll(env, items[..|items| - 1]) + |env.chunk(items[|items| - 1])|
  }

  // ------------------------------------------------------ counting the writes

  ghost function KeysOf(env: Env, cores: seq<Core>): set<string> {
    set c | c in cores :: CacheKey(env, c.text)
  }

  ghost function NeedKeys(env: Env, needs: seq<Need>): set<string> {
    set n | n in needs :: CacheKey(env, n.text)
  }

  /** How many rows have to be embedded, given the keys in the cache. */
  ghost function Misses(env: Env, keys: set<string>, cores: seq<Core>): nat {
    if cores == [] then 0
    else
      Misses(env, keys, cores[..|cores| - 1])
      + if CacheKey(env, cores[|cores| - 1].text) in keys then 0 else 1
  }

  /** One write for each embedding, for each path, and for the rows if there are any. */
  ghost function BatchWrites(env: Env, keys: set<string>, batch: seq<InputItem>): nat {
    var cores := CoresOfAll(env, batch);
    Misses(env, keys, cores) + |batch| + if cores == [] then 0 else 1
  }

  /** The writes of all batches from the i-th changed item on, the cache filling up meanwhile. */
  ghost function BatchesWrites(env: Env, keys: set<string>, changed: seq<InputItem>, i: nat): nat
    decreases |changed| - i
  {
    if i >= |changed| then 0
    else
      var next := NextBatch(|changed|, i);
      var batch := changed[i..next];
      BatchWrites(env, keys, batch)
      + BatchesWrites(env, keys + KeysOf(env, CoresOfAll(env, batch)), changed, next)
  }

  function NextBatch(total: nat, i: nat): nat {
    if i + UPSERT_BATCH < total then i + UPSERT_BATCH else total
  }

  /** How many batches there are from the i-th changed item on. */
  ghost function Batches(total: nat, i: nat): nat
    decreases total - i
  {
    if i >= total then 0 else 1 + Batches(total, NextBatch(total, i))
  }

  /** Every batch but the last holds 64 items: there is one for every 64 begun. */
  lemma {:induction false} BatchesHold64(total: nat, i: nat)
    requires i <= total
    ensures Batches(total, i) == (total - i + 63) / 64
    decreases total - i
  {
    if i < total {
      BatchesHold64(total, NextBatch(total, i));
    }
  }

  /** The writes before the first file state is written. */
  ghost function RowWrites(env: Env, keys: set<string>, hashes: map<string, string>, items: seq<InputItem>): nat {
    BatchesWrites(env, keys, Changed(env, hashes, items), 0) + |Vanished(hashes, items)|
  }

  /** File states forgotten and recorded, the time of the run, the count of secrets. */
  ghost function StateWrites(env: Env, hashes: map<string, string>, items: seq<InputItem>): nat {
    var changed := Changed(env, hashes, items);
    (if Vanished(hashes, items) == {} then 0 else 1) + (if changed == [] then 0 else 1)
    + if SecretsInAll(env, changed) > 0 then 2 else 1
  }

  /** How many writes a run makes if none fails. */
  ghost function Writes(env: Env, keys: set<string>, hashes: map<string, string>, items: seq<InputItem>): nat {
    RowWrites(env, keys, hashes, items) + StateWrites(env, hashes, items)
  }

  /** A run that finds nothing new only records its time. */
  lemma {:induction false} NothingNewIsOneWrite(env: Env, keys: set<string>, items: seq<InputItem>)
    requires ValidItems(items)
    ensures Writes(env, keys, RebuildHashes(env, items), items) == 1
  {
    var hashes := RebuildHashes(env, items);
    RebuildHashesOf(env, items);
    ChangedMembers(env, hashes, items);
    if Changed(env, hashes, items) != [] {
      var it := Changed(env, hashes, items)[0];
      assert Unchanged(env, hashes, it);
    }
    assert Vanished(hashes, items) == {};
  }

  /** Enough writes for a run over these items, whatever the cache and the file states hold. */
  ghost function MostWrites(env: Env, hashes: map<string, string>, items: seq<InputItem>): nat {
    |CoresOfAll(env, items)| + 2 * |items| + |Vanished(hashes, items)| + 4
  }

  lemma {:induction false} WritesAreBounded(env: Env, keys: set<string>, hashes: map<string, string>,
                                            items: seq<InputItem>)
    ensures Writes(env, keys, hashes, items) <= MostWrites(env, hashes, items)
  {
    var changed := Changed(env, hashes, items);
    assert changed[0..] == changed;
    BatchesAreBounded(env, keys, changed, 0);
    ChangedIsFewer(env, hashes, items);
  }

  lemma {:induction false} BatchesAreBounded(env: Env, keys: set<string>, changed: seq<InputItem>, i: nat)
    requires i <= |changed|
    ensures BatchesWrites(env, keys, changed, i) <= |CoresOfAll(env, changed[i..])| + 2 * (|changed| - i)
    decreases |changed| - i
  {
    if i < |changed| {
      var next := NextBatch(|changed|, i);
      var batch := changed[i..next];
      assert changed[i..] == batch + changed[next..];
      CountsAppend(env, batch, changed[next..]);
      MissesAreFewer(env, keys, CoresOfAll(env, batch));
      BatchesAreBounded(env, keys + KeysOf(env, CoresOfAll(env, batch)), changed, next);
    }
  }

  lemma {:induction false} MissesAreFewer(env: Env, keys: set<string>, cores: seq<Core>)
    ensures Misses(env, keys, cores) <= |cores|
  {
    if cores != [] {
      MissesAreFewer(env, keys, cores[..|cores| - 1]);
    }
  }

  lemma {:induction false} ChangedIsFewer(env: Env, hashes: map<string, string>, items: seq<InputItem>)
    ensures |Changed(env, hashes, items)| <= |items|
    ensures |CoresOfAll(env, Changed(env, hashes, items))| <= |CoresOfAll(env, items)|
  {
    if items != [] {
      var init, last := items[..|items| - 1], items[|items| - 1];
      ChangedIsFewer(env, hashes, init);
      var before := Changed(env, hashes, init);
      assert (before + [last])[..|before|] == before && before + [] == before;
    }
  }

  /** The needs are the misses, and filling them completes the cache for these rows. */
  ghost predicate NeedsFit(env: Env, keys: set<string>, cores: seq<Core>, needs: seq<Need>) {
    && |needs| == Misses(env, keys, cores)
    && keys + NeedKeys(env, needs) == keys + KeysOf(env, cores)
  }

  lemma {:induction false} NeedsFitSnoc(env: Env, keys: set<string>, cores: seq<Core>, needs: seq<Need>, c: Core,
                                        n: Need)
    requires NeedsFit(env, keys, cores, needs) && n.text == c.text
    ensures NeedsFit(env, keys, cores + [c], if CacheKey(env, c.text) in keys then needs else needs + [n])
  {
    var key := CacheKey(env, c.text);
    assert (cores + [c])[..|cores|] == cores;
    KeysSnoc(env, cores, c);
    NeedKeysSnoc(env, needs, n);
    if key in keys {
      assert keys + (KeysOf(env, cores) + {key}) == keys + KeysOf(env, cores);
    } else {
      assert keys + (NeedKeys(env, needs) + {key}) == keys + (KeysOf(env, cores) + {key});
    }
  }

  lemma {:induction false} KeysSnoc(env: Env, cores: seq<Core>, c: Core)
    ensures KeysOf(env, cores + [c]) == KeysOf(env, cores) + {CacheKey(env, c.text)}
  {
    var longer := cores + [c];
    assert c in longer && forall x :: x in cores ==> x in longer;
  }

  lemma {:induction false} NeedKeysSnoc(env: Env, needs: seq<Need>, n: Need)
    ensures NeedKeys(env, needs + [n]) == NeedKeys(env, needs) + {CacheKey(env, n.text)}
  {
    var longer := needs + [n];
    assert n in longer && forall x :: x in needs ==> x in longer;
  }

  lemma {:induction false} NeedKeysNext(env: Env, needs: seq<Need>, j: nat)
    requires j < |needs|
    ensures NeedKeys(env, needs[..j + 1]) == NeedKeys(env, needs[..j]) + {CacheKey(env, needs[j].text)}
  {
    assert needs[..j + 1] == needs[..j] + [needs[j]];
    NeedKeysSnoc(env, needs[..j], needs[j]);
  }

  lemma {:induction false} KeysAppend(env: Env, a: seq<InputItem>, b: seq<InputItem>)
    ensures KeysOf(env, CoresOfAll(env, a + b)) == KeysOf(env, CoresOfAll(env, a)) + KeysOf(env, CoresOfAll(env, b))
  {
    CoresAppend(env, a, b);
  }

  lemma {:induction false} CoresAppend(env: Env, a: seq<InputItem>, b: seq<InputItem>)
    ensures CoresOfAll(env, a + b) == CoresOfAll(env, a) + CoresOfAll(env, b)
  {
    if b == [] {
      assert a + b == a;
    } else {
      var n := |b| - 1;
      CoresAppend(env, a, b[..n]);
      assert (a + b)[..|a + b| - 1] == a + b[..n];
      AppendAssoc(CoresOfAll(env, a), CoresOfAll(env, b[..n]), CoresOf(env, b[n]));
    }
  }

  // ---------------------------------------------------------- one batch's rows

  /** No chunk is lost: each is either stored or counted as dropped. */
  lemma {:induction false} ChunksAreAccountedFor(env: Env, items: seq<InputItem>)
    ensures |CoresOfAll(env, items)| + SecretsInAll(env, items) == ChunksInAll(env, items)
  {
    if items != [] {
      ChunksAreAccountedFor(env, items[..|items| - 1]);
      KeptAreAccountedFor(env, env.chunk(items[|items| - 1]));
    }
  }

  lemma {:induction false} KeptAreAccountedFor(env: Env, chunks: seq<RawChunk>)
    ensures |Keep(env, chunks)| + SecretsIn(env, chunks) == |chunks|
  {
    if chunks != [] {
      KeptAreAccountedFor(env, chunks[..|chunks| - 1]);
    }
  }

  /** The row is the wanted one but for its embedding. */
  ghost predicate Shaped(env: Env, r: StoredChunk, c: Core) {
    && r.id == ChunkId(env, c)
    && r.row.core.(embedding := c.embedding) == c
    && c.embedding == env.embed(c.text)
  }

  /** Row `k` has its embedding, or one of the needs from `from` on is for it. */
  ghost predicate Settled(rows: seq<StoredChunk>, cores: seq<Core>, needs: seq<Need>, from: nat, k: nat)
    requires k < |rows| == |cores|
  {
    rows[k].row.core == cores[k] || exists j :: from <= j < |needs| && needs[j].idx == k
  }

  ghost predicate FilledFrom(env: Env, rows: seq<StoredChunk>, cores: seq<Core>, needs: seq<Need>, from: nat) {
    && |rows| == |cores|
    && (forall k :: 0 <= k < |rows| ==> Shaped(env, rows[k], cores[k]))
    && (forall k :: 0 <= k < |rows| ==> Settled(rows, cores, needs, from, k))
    && (forall j :: 0 <= j < |needs| ==> needs[j].idx < |rows| && needs[j].text == cores[needs[j].idx].text)
  }

  lemma {:induction false} AppendRow(env: Env, rows: seq<StoredChunk>, cores: seq<Core>, needs: seq<Need>,
                                     r: StoredChunk, c: Core, needed: bool)
    requires FilledFrom(env, rows, cores, needs, 0) && Shaped(env, r, c)
    requires !needed ==> r.row.core == c
    ensures FilledFrom(env, rows + [r], cores + [c], needs + (if needed then [Need(|rows|, c.text)] else []), 0)
  {
    var needs' := needs + (if needed then [Need(|rows|, c.text)] else []);
    forall k | 0 <= k < |rows + [r]|
      ensures Settled(rows + [r], cores + [c], needs', 0, k)
    {
      if k < |rows| {
        assert Settled(rows, cores, needs, 0, k);
        if rows[k].row.core != cores[k] {
          var j :| 0 <= j < |needs| && needs[j].idx == k;
          assert needs'[j].idx == k;
        }
      } else if needed {
        assert needs'[|needs|].idx == k;
      }
    }
  }

  /** One chunk's row: its id, and its embedding when the cache has it. */
  method LookUp(env: Env, store: Store, item: InputItem, ch: RawChunk) returns (stored: StoredChunk, hit: bool)
    requires Assumed(env) && CacheSound(env, store.cache)
    requires ch.path == item.path
    ensures Shaped(env, stored, CoreOf(env, ch))
    ensures hit ==> stored.row.core == CoreOf(env, ch)
    ensures hit <==> CacheKey(env, ch.text) in store.cache
    ensures stored.row.sourceHash == env.sha(item.text) && stored.row.mtimeMs == item.mtimeMs
    ensures stored.row.overlay == ch.overlay
  {
    var normalized := Normalize(ch.text);
    var id := env.sha(IdPreimage(normalized, item.path, ch.startLine, ch.endLine));
    var cacheKey := env.sha(env.stamp + "\0" + env.sha(normalized));
    hit := cacheKey in store.cache;
    var embedding := if hit then store.cache[cacheKey] else [];
    assert cacheKey == CacheKey(env, ch.text);
    stored := StoredChunk(id, Row(Core(ch.path, ch.text, ch.startLine, ch.endLine, embedding),
                                  env.sha(item.text), item.mtimeMs, ch.overlay));
  }

  /** Add one chunk's row, unless it is dropped as a secret. */
  method AddChunk(env: Env, store: Store, item: InputItem, ch: RawChunk,
                  rows0: seq<StoredChunk>, needs0: seq<Need>, ghost cores: seq<Core>)
    returns (rows: seq<StoredChunk>, needs: seq<Need>, ghost more: seq<Core>)
    requires Assumed(env) && CacheSound(env, store.cache)
    requires ch.path == item.path
    requires FilledFrom(env, rows0, cores, needs0, 0) && NeedsFit(env, store.cache.Keys, cores, needs0)
    ensures more == cores + if env.isSecret(ch.text) then [] else [CoreOf(env, ch)]
    ensures FilledFrom(env, rows, more, needs, 0) && NeedsFit(env, store.cache.Keys, more, needs)
  {
    rows, needs, more := rows0, needs0, cores;
    if env.isSecret(ch.text) {
      assert cores + [] == cores;
    } else {
      more := cores + [CoreOf(env, ch)];
      var stored, hit := LookUp(env, store, item, ch);
      AppendRow(env, rows, cores, needs, stored, CoreOf(env, ch), !hit);
      NeedsFitSnoc(env, store.cache.Keys, cores, needs, CoreOf(env, ch), Need(|rows|, ch.text));
      rows, needs := rows + [stored], needs + if hit then [] else [Need(|rows|, ch.text)];
      assert hit ==> needs == needs0;
    }
  }

  lemma {:induction false} KeepNext(env: Env, done: seq<Core>, item: InputItem, j: nat)
    requires ChunkerByText(env.chunk) && j < |env.chunk(item)|
    ensures var chunks := env.chunk(item);
            && chunks[j].path == item.path
            && done + Keep(env, chunks[..j + 1]) ==
                 (done + Keep(env, chunks[..j]))
                 + (if env.isSecret(chunks[j].text) then [] else [CoreOf(env, chunks[j])])
            && SecretsIn(env, chunks[..j + 1]) ==
                 SecretsIn(env, chunks[..j]) + if env.isSecret(chunks[j].text) then 1 else 0
  {
    var chunks := env.chunk(item);
    var ch := chunks[j];
    assert ch in env.chunk(item);
    assert chunks[..j + 1][..j] == chunks[..j];
    AppendAssoc(done, Keep(env, chunks[..j]), if env.isSecret(ch.text) then [] else [CoreOf(env, ch)]);
  }

  method AddItem(env: Env, store: Store, item: InputItem, rows0: seq<StoredChunk>, needs0: seq<Need>,
                 ghost done: seq<Core>)
    returns (rows: seq<StoredChunk>, needs: seq<Need>, dropped: nat)
    requires Assumed(env) && CacheSound(env, store.cache)
    requires FilledFrom(env, rows0, done, needs0, 0) && NeedsFit(env, store.cache.Keys, done, needs0)
    ensures var more := done + CoresOf(env, item);
            FilledFrom(env, rows, more, needs, 0) && NeedsFit(env, store.cache.Keys, more, needs)
    ensures dropped == SecretsIn(env, env.chunk(item))
  {
    rows, needs, dropped := rows0, needs0, 0;
    var chunks := env.chunk(item);
    ghost var cores := done;
    assert cores == done + Keep(env, chunks[..0]);
    for j := 0 to |chunks|
      invariant cores == done + Keep(env, chunks[..j])
      invariant FilledFrom(env, rows, cores, needs, 0) && NeedsFit(env, store.cache.Keys, cores, needs)
      invariant dropped == SecretsIn(env, chunks[..j])
    {
      var ch := chunks[j];
      KeepNext(env, done, item, j);
      rows, needs, cores := AddChunk(env, store, item, ch, rows, needs, cores);
      dropped := dropped + if env.isSecret(ch.text) then 1 else 0;
    }
    assert chunks[..|chunks|] == chunks;
  }

  lemma {:induction false} ItemsNext(env: Env, batch: seq<InputItem>, i: nat)
    requires i < |batch|
    ensures CoresOfAll(env, batch[..i + 1]) == CoresOfAll(env, batch[..i]) + CoresOf(env, batch[i])
    ensures SecretsInAll(env, batch[..i + 1]) == SecretsInAll(env, batch[..i]) + SecretsIn(env, env.chunk(batch[i]))
  {
    assert batch[..i + 1][..i] == batch[..i];
  }

  /** Chunk one batch, drop secrets and look the rest up in the cache. */
  method BuildBatch(env: Env, store: Store, batch: seq<InputItem>)
    returns (rows: seq<StoredChunk>, needs: seq<Need>, dropped: nat)
    requires Assumed(env) && CacheSound(env, store.cache)
    ensures FilledFrom(env, rows, CoresOfAll(env, batch), needs, 0)
    ensures NeedsFit(env, store.cache.Keys, CoresOfAll(env, batch), needs)
    ensures dropped == SecretsInAll(env, batch)
  {
    rows, needs, dropped := [], [], 0;
    for i := 0 to |batch|
      invariant FilledFrom(env, rows, CoresOfAll(env, batch[..i]), needs, 0)
      invariant NeedsFit(env, store.cache.Keys, CoresOfAll(env, batch[..i]), needs)
      invariant dropped == SecretsInAll(env, batch[..i])
    {
      ItemsNext(env, batch, i);
      var n;
      rows, needs, n := AddItem(env, store, batch[i], rows, needs, CoresOfAll(env, batch[..i]));
      dropped := dropped + n;
    }
    assert batch[..|batch|] == batch;
  }

  /** Embed what the cache did not have, put every vector in its slot and into the cache. */
  method FillEmbeddings(env: Env, store: Store, rows0: seq<StoredChunk>, needs: seq<Need>, ghost cores: seq<Core>)
    returns (ok: bool, rows: seq<StoredChunk>)
    requires Assumed(env) && CacheSound(env, store.cache)
    requires FilledFrom(env, rows0, cores, needs, 0)
    modifies store`cache, store`writesLeft
    ensures CacheSound(env, store.cache)
    ensures ok ==> IdsMatch(env, rows) && CoresIn(rows) == cores
    ensures ok ==> store.cache.Keys == old(store.cache.Keys) + NeedKeys(env, needs)
    ensures ok <==> old(store.writesLeft) >= |needs|
    ensures store.writesLeft == if ok then old(store.writesLeft) - |needs| else 0
  {
    rows := rows0;
    var vectors := seq(|needs|, i requires 0 <= i < |needs| => env.embed(needs[i].text));
    for j := 0 to |needs|
      invariant FilledFrom(env, rows, cores, needs, j)
      invariant CacheSound(env, store.cache)
      invariant store.cache.Keys == old(store.cache.Keys) + NeedKeys(env, needs[..j])
      invariant j <= old(store.writesLeft) && store.writesLeft == old(store.writesLeft) - j
    {
      var put;
      put, rows := FillOne(env, store, rows, needs, j, vectors[j], cores);
      if !put {
        return false, rows;
      }
    }
    ok := true;
    assert needs[..|needs|] == needs;
    AllFilled(env, rows, cores, needs);
  }

  /** Put one vector in its slot and into the cache. */
  method FillOne(env: Env, store: Store, rows0: seq<StoredChunk>, needs: seq<Need>, j: nat, vector: Vector,
                 ghost cores: seq<Core>)
    returns (ok: bool, rows: seq<StoredChunk>)
    requires Assumed(env) && CacheSound(env, store.cache)
    requires j < |needs| && FilledFrom(env, rows0, cores, needs, j) && vector == env.embed(needs[j].text)
    modifies store`cache, store`writesLeft
    ensures CacheSound(env, store.cache) && FilledFrom(env, rows, cores, needs, j + 1)
    ensures forall keys: set<string> :: ok && old(store.cache.Keys) == keys + NeedKeys(env, needs[..j]) ==>
              store.cache.Keys == keys + NeedKeys(env, needs[..j + 1])
    ensures ok <==> old(store.writesLeft) > 0
    ensures store.writesLeft == if ok then old(store.writesLeft) - 1 else 0
  {
    NeedKeysNext(env, needs, j);
    rows := FillSlot(env, rows0, needs, j, vector, cores);
    ok := CacheOne(env, store, needs[j].text, vector);
  }

  method CacheOne(env: Env, store: Store, text: string, vector: Vector) returns (ok: bool)
    requires Assumed(env) && CacheSound(env, store.cache) && vector == env.embed(text)
    modifies store`cache, store`writesLeft
    ensures CacheSound(env, store.cache)
    ensures ok ==> store.cache.Keys == old(store.cache.Keys) + {CacheKey(env, text)}
    ensures ok <==> old(store.writesLeft) > 0
    ensures store.writesLeft == if ok then old(store.writesLeft) - 1 else 0
  {
    CacheStaysSound(env, store.cache, text);
    ok := store.PutCachedEmbedding(CacheKey(env, text), vector);
  }

  method FillSlot(env: Env, rows0: seq<StoredChunk>, needs: seq<Need>, j: nat, vector: Vector, ghost cores: seq<Core>)
    returns (rows: seq<StoredChunk>)
    requires FilledFrom(env, rows0, cores, needs, j) && j < |needs| && vector == env.embed(needs[j].text)
    ensures FilledFrom(env, rows, cores, needs, j + 1)
  {
    SlotTarget(env, rows0, cores, needs, j);
    var slot := needs[j];
    var target := rows0[slot.idx];
    var filled := target.(row := target.row.(core := target.row.core.(embedding := vector)));
    SlotFilled(env, rows0, cores, needs, j, filled);
    rows := rows0[slot.idx := filled];
  }

  /** A need names a row that only lacks the embedding of its own text. */
  lemma {:induction false} SlotTarget(env: Env, rows: seq<StoredChunk>, cores: seq<Core>, needs: seq<Need>, j: nat)
    requires FilledFrom(env, rows, cores, needs, j) && j < |needs|
    ensures var i := needs[j].idx;
            && i < |rows| && rows[i].row.core.text == needs[j].text
            && rows[i].row.core.(embedding := env.embed(needs[j].text)) == cores[i]
  {
    assert Shaped(env, rows[needs[j].idx], cores[needs[j].idx]);
  }

  lemma {:induction false} SlotFilled(env: Env, rows: seq<StoredChunk>, cores: seq<Core>, needs: seq<Need>, j: nat,
                                      filled: StoredChunk)
    requires FilledFrom(env, rows, cores, needs, j) && j < |needs|
    requires filled.row.core == cores[needs[j].idx] && filled.id == rows[needs[j].idx].id
    ensures FilledFrom(env, rows[needs[j].idx := filled], cores, needs, j + 1)
  {
    var i := needs[j].idx;
    assert Shaped(env, rows[i], cores[i]);
    var next, rest := rows[i := filled], j + 1;
    forall k | 0 <= k < |rows| && k != i
      ensures Settled(next, cores, needs, rest, k)
    {
      assert Settled(rows, cores, needs, j, k);
    }
  }

  lemma {:induction false} AllFilled(env: Env, rows: seq<StoredChunk>, cores: seq<Core>, needs: seq<Need>)
    requires FilledFrom(env, rows, cores, needs, |needs|)
    ensures IdsMatch(env, rows) && CoresIn(rows) == cores
  {
    forall k | 0 <= k < |rows|
      ensures rows[k].row.core == cores[k] && rows[k].id == ChunkId(env, cores[k])
    {
      assert Settled(rows, cores, needs, |needs|, k) && Shaped(env, rows[k], cores[k]);
    }
  }

  // ------------------------------------------------------------- one batch

  /** Rows of other paths are untouched. */
  ghost predicate SameOutside(items: seq<InputItem>, c0: map<string, Core>, c: map<string, Core>) {
    forall p :: !HasPath(items, p) ==> AtPath(c, p) == AtPath(c0, p)
  }

  /** Rows of these items are the ones their text calls for. */
  ghost predicate RightInside(env: Env, items: seq<InputItem>, c: map<string, Core>) {
    forall it :: it in items ==> AtPath(c, it.path) == ItemMap(env, it)
  }

  /** Only these items' paths are touched, and none holds a mixture of old rows and new ones. */
  ghost predicate PartlyDone(env: Env, items: seq<InputItem>, c0: map<string, Core>, c: map<string, Core>) {
    SameOutside(items, c0, c) && forall it :: it in items ==> OldNewOrNone(env, it, c0, c)
  }

  lemma {:induction false} BatchUpserted(env: Env, batch: seq<InputItem>, c0: map<string, Core>,
                                         c1: map<string, Core>, p: string)
    requires Assumed(env) && ValidItems(batch) && Keyed(env, c1)
    requires forall q :: AtPath(c1, q) == if HasPath(batch, q) then map[] else AtPath(c0, q)
    ensures var c2 := PutAll(env, c1, CoresOfAll(env, batch));
            && Keyed(env, c2)
            && (forall it :: it in batch && it.path == p ==> AtPath(c2, p) == ItemMap(env, it))
            && (!HasPath(batch, p) ==> AtPath(c2, p) == AtPath(c0, p))
  {
    var cores := CoresOfAll(env, batch);
    FilterItems(env, batch, p);
    CoresHaveItems(env, batch);
    PutAllAtPath(env, c1, cores, p);
  }

  /** Replace the rows of one batch of changed items. Other paths keep theirs in every outcome. */
  method ProcessBatch(env: Env, store: Store, batch: seq<InputItem>)
    returns (ok: bool, upserted: nat, dropped: nat)
    requires Assumed(env) && ValidItems(batch)
    requires CacheSound(env, store.cache) && Keyed(env, store.Chunks())
    modifies store`chunks, store`cache, store`writesLeft
    ensures CacheSound(env, store.cache) && Keyed(env, store.Chunks())
    ensures PartlyDone(env, batch, old(store.Chunks()), store.Chunks())
    ensures ok ==> RightInside(env, batch, store.Chunks())
    ensures ok ==> upserted == |CoresOfAll(env, batch)| && dropped == SecretsInAll(env, batch)
    ensures ok ==> store.cache.Keys == old(store.cache.Keys) + KeysOf(env, CoresOfAll(env, batch))
    ensures var writes := BatchWrites(env, old(store.cache.Keys), batch);
            && (ok <==> old(store.writesLeft) >= writes)
            && store.writesLeft == if ok then old(store.writesLeft) - writes else 0
  {
    ghost var c0 := store.Chunks();
    ghost var cores := CoresOfAll(env, batch);
    var rows, needs, n := BuildBatch(env, store, batch);
    ok, upserted, dropped := false, 0, n;
    var filled;
    filled, rows := FillEmbeddings(env, store, rows, needs, cores);
    if !filled {
      return;
    }
    var cleared := ClearPaths(env, store, batch);
    if !cleared {
      return;
    }
    ghost var c1 := store.Chunks();
    if |rows| > 0 {
      var put := store.Upsert(env, rows);
      if !put {
        return;
      }
    }
    ok, upserted := true, |rows|;
    assert |CoresIn(rows)| == |rows|;
    BatchReplaced(env, batch, c0, c1);
  }

  lemma {:induction false} BatchReplaced(env: Env, batch: seq<InputItem>, c0: map<string, Core>, c1: map<string, Core>)
    requires Assumed(env) && ValidItems(batch) && Keyed(env, c1)
    requires forall p :: AtPath(c1, p) == if HasPath(batch, p) then map[] else AtPath(c0, p)
    ensures var c2 := PutAll(env, c1, CoresOfAll(env, batch));
            Keyed(env, c2) && PartlyDone(env, batch, c0, c2) && RightInside(env, batch, c2)
  {
    var c2 := PutAll(env, c1, CoresOfAll(env, batch));
    forall p
      ensures !HasPath(batch, p) ==> AtPath(c2, p) == AtPath(c0, p)
      ensures Keyed(env, c2)
    {
      BatchUpserted(env, batch, c0, c1, p);
    }
    forall it | it in batch
      ensures AtPath(c2, it.path) == ItemMap(env, it)
    {
      BatchUpserted(env, batch, c0, c1, it.path);
    }
  }

  /** Delete the old rows of every path of a batch. */
  method ClearPaths(env: Env, store: Store, batch: seq<InputItem>) returns (ok: bool)
    requires Keyed(env, store.Chunks())
    modifies store`chunks, store`writesLeft
    ensures Keyed(env, store.Chunks())
    ensures PartlyDone(env, batch, old(store.Chunks()), store.Chunks())
    ensures ok ==> forall p :: HasPath(batch, p) ==> AtPath(store.Chunks(), p) == map[]
    ensures ok <==> old(store.writesLeft) >= |batch|
    ensures store.writesLeft == if ok then old(store.writesLeft) - |batch| else 0
  {
    for i := 0 to |batch|
      invariant Keyed(env, store.Chunks())
      invariant forall p :: AtPath(store.Chunks(), p) ==
                  if HasPath(batch[..i], p) then map[] else AtPath(old(store.Chunks()), p)
      invariant i <= old(store.writesLeft) && store.writesLeft == old(store.writesLeft) - i
    {
      var path := batch[i].path;
      assert batch[..i + 1] == batch[..i] + [batch[i]];
      forall p
        ensures HasPath(batch[..i + 1], p) <==> HasPath(batch[..i], p) || p == path
      {
        HasPathSnoc(batch[..i], batch[i], p);
      }
      var deleted, _ := store.DeleteByPath(path);
      if !deleted {
        return false;
      }
    }
    assert batch[..|batch|] == batch;
    return true;
  }

  // ------------------------------------------------------------ the whole run

  /** Items whose path is new or whose text differs from the recorded hash, in input order. */
  ghost function Changed(env: Env, hashes: map<string, string>, items: seq<InputItem>): seq<InputItem> {
    if items == [] then []
    else
      var it := items[|items| - 1];
      Changed(env, hashes, items[..|items| - 1]) + if Unchanged(env, hashes, it) then [] else [it]
  }

  lemma {:induction false} ChangedMembers(env: Env, hashes: map<string, string>, items: seq<InputItem>)
    requires ValidItems(items)
    ensures ValidItems(Changed(env, hashes, items))
    ensures forall it :: it in Changed(env, hashes, items) <==> it in items && !Unchanged(env, hashes, it)
  {
    if items != [] {
      var n := |items| - 1;
      ChangedMembers(env, hashes, items[..n]);
      assert items == items[..n] + [items[n]];
      forall it | it in Changed(env, hashes, items[..n])
        ensures it.path != items[n].path
      {
        assert it in items[..n];
      }
    }
  }

  method Diff(env: Env, store: Store, items: seq<InputItem>) returns (seen: set<string>, changed: seq<InputItem>)
    ensures forall p :: p in seen <==> HasPath(items, p)
    ensures changed == Changed(env, store.FileHashes(), items)
  {
    seen, changed := {}, [];
    for i := 0 to |items|
      invariant forall p :: p in seen <==> HasPath(items[..i], p)
      invariant changed == Changed(env, store.FileHashes(), items[..i])
    {
      var it := items[i];
      assert items[..i + 1] == items[..i] + [it];
      forall p
        ensures HasPath(items[..i + 1], p) <==> HasPath(items[..i], p) || p == it.path
      {
        HasPathSnoc(items[..i], it, p);
      }
      seen := seen + {it.path};
      assert items[..i + 1][..i] == items[..i];
      if it.path in store.fileState && store.fileState[it.path].sourceHash == env.sha(it.text) {
      } else {
        changed := changed + [it];
      }
    }
    assert items[..|items|] == items;
  }

  /** Batches of changed items, in order, each settled before the next. */
  method ProcessChanged(env: Env, store: Store, changed: seq<InputItem>)
    returns (ok: bool, upserted: nat, dropped: nat)
    requires Assumed(env) && ValidItems(changed)
    requires CacheSound(env, store.cache) && Keyed(env, store.Chunks())
    modifies store`chunks, store`cache, store`writesLeft
    ensures CacheSound(env, store.cache) && Keyed(env, store.Chunks())
    ensures PartlyDone(env, changed, old(store.Chunks()), store.Chunks())
    ensures ok ==> RightInside(env, changed, store.Chunks())
    ensures ok ==> upserted == |CoresOfAll(env, changed)| && dropped == SecretsInAll(env, changed)
    ensures ok ==> store.cache.Keys == old(store.cache.Keys) + KeysOf(env, CoresOfAll(env, changed))
    ensures var writes := BatchesWrites(env, old(store.cache.Keys), changed, 0);
            && (ok <==> old(store.writesLeft) >= writes)
            && store.writesLeft == if ok then old(store.writesLeft) - writes else 0
  {
    ghost var start := Start(store.Chunks(), store.cache.Keys, store.writesLeft);
    ok, upserted, dropped := true, 0, 0;
    var i := 0;
    NothingDone(env, changed, store.Chunks());
    while ok && i < |changed|
      invariant CacheSound(env, store.cache) && Keyed(env, store.Chunks())
      invariant ok ==> Progress(env, changed, i, start, store, upserted, dropped)
      invariant !ok ==> GivenUp(env, changed, start, store)
      decreases ok, |changed| - i
    {
      ok, i, upserted, dropped := ProcessNext(env, store, changed, i, upserted, dropped, start);
    }
    if ok {
      AllDone(env, changed, start, store.Chunks(), store.cache.Keys, store.writesLeft, upserted, dropped);
    }
  }

  lemma {:induction false} AllDone(env: Env, changed: seq<InputItem>, start: Start, c: map<string, Core>,
                                   keys: set<string>, writesLeft: nat, upserted: nat, dropped: nat)
    requires RowsSettled(env, changed, |changed|, start.chunks, c)
    requires Counted(env, changed, |changed|, start, keys, writesLeft, upserted, dropped)
    ensures PartlyDone(env, changed, start.chunks, c) && RightInside(env, changed, c)
    ensures upserted == |CoresOfAll(env, changed)| && dropped == SecretsInAll(env, changed)
    ensures keys == start.keys + KeysOf(env, CoresOfAll(env, changed))
    ensures start.writes - writesLeft == BatchesWrites(env, start.keys, changed, 0)
  {
    assert changed[..|changed|] == changed;
  }

  /** The store's rows, cached keys and writes to go before the first batch. */
  datatype Start = Start(chunks: map<string, Core>, keys: set<string>, writes: nat)

  /** The first i changed items are settled. */
  ghost predicate RowsSettled(env: Env, changed: seq<InputItem>, i: nat, c0: map<string, Core>, c: map<string, Core>)
    requires i <= |changed|
  {
    PartlyDone(env, changed[..i], c0, c) && RightInside(env, changed[..i], c)
  }

  /** The counts of the first i changed items: their keys, their writes, their rows and secrets. */
  ghost predicate Counted(env: Env, changed: seq<InputItem>, i: nat, start: Start, keys: set<string>, writesLeft: nat,
                          upserted: nat, dropped: nat)
    requires i <= |changed|
  {
    && keys == start.keys + KeysOf(env, CoresOfAll(env, changed[..i]))
    && start.writes - writesLeft ==
         BatchesWrites(env, start.keys, changed, 0) - BatchesWrites(env, keys, changed, i)
    && upserted == |CoresOfAll(env, changed[..i])| && dropped == SecretsInAll(env, changed[..i])
  }

  ghost predicate Progress(env: Env, changed: seq<InputItem>, i: nat, start: Start, store: Store, upserted: nat,
                           dropped: nat)
    reads store
  {
    && i <= |changed|
    && RowsSettled(env, changed, i, start.chunks, store.Chunks())
    && Counted(env, changed, i, start, store.cache.Keys, store.writesLeft, upserted, dropped)
  }

  /** A write failed before the last batch was through. */
  ghost predicate GivenUp(env: Env, changed: seq<InputItem>, start: Start, store: Store)
    reads store
  {
    && PartlyDone(env, changed, start.chunks, store.Chunks())
    && store.writesLeft == 0 && start.writes < BatchesWrites(env, start.keys, changed, 0)
  }

  lemma {:induction false} NothingDone(env: Env, changed: seq<InputItem>, c: map<string, Core>)
    ensures RowsSettled(env, changed, 0, c, c)
    ensures forall keys: set<string>, writes: nat ::
              Counted(env, changed, 0, Start(c, keys, writes), keys, writes, 0, 0)
  {
    assert changed[..0] == [];
    assert forall keys: set<string> :: keys + KeysOf(env, []) == keys;
  }

  method ProcessNext(env: Env, store: Store, changed: seq<InputItem>, i: nat, upserted0: nat, dropped0: nat,
                     ghost start: Start)
    returns (ok: bool, next: nat, upserted: nat, dropped: nat)
    requires Assumed(env) && ValidItems(changed)
    requires CacheSound(env, store.cache) && Keyed(env, store.Chunks())
    requires i < |changed| && Progress(env, changed, i, start, store, upserted0, dropped0)
    modifies store`chunks, store`cache, store`writesLeft
    ensures CacheSound(env, store.cache) && Keyed(env, store.Chunks()) && i < next <= |changed|
    ensures ok ==> Progress(env, changed, next, start, store, upserted, dropped)
    ensures !ok ==> GivenUp(env, changed, start, store)
  {
    next := NextBatch(|changed|, i);
    var batch := changed[i..next];
    assert ValidItems(batch) by {
      BatchFacts(env, changed, i, next);
    }
    ghost var c1, k1, w1 := store.Chunks(), store.cache.Keys, store.writesLeft;
    var u, d;
    ok, u, d := ProcessBatch(env, store, batch);
    upserted, dropped := upserted0 + u, dropped0 + d;
    BatchSettled(env, changed, i, next, start.chunks, c1, store.Chunks());
    BatchesWritesStep(env, k1, changed, i);
    if ok {
      CountedStep(env, changed, i, start, k1, w1, upserted0, dropped0);
    } else {
      PrefixDone(env, changed, next, start.chunks, store.Chunks());
    }
  }

  lemma {:induction false} BatchesWritesStep(env: Env, keys: set<string>, changed: seq<InputItem>, i: nat)
    requires i < |changed|
    ensures var next := NextBatch(|changed|, i);
            var batch := changed[i..next];
            BatchesWrites(env, keys, changed, i) ==
            BatchWrites(env, keys, batch)
            + BatchesWrites(env, keys + KeysOf(env, CoresOfAll(env, batch)), changed, next)
  {
  }

  lemma {:induction false} CountedStep(env: Env, changed: seq<InputItem>, i: nat, start: Start, keys: set<string>,
                                       writesLeft: nat, upserted: nat, dropped: nat)
    requires ValidItems(changed) && i < |changed|
    requires Counted(env, changed, i, start, keys, writesLeft, upserted, dropped)
    requires writesLeft >= BatchWrites(env, keys, changed[i..NextBatch(|changed|, i)])
    ensures var next := NextBatch(|changed|, i);
            var batch := changed[i..next];
            Counted(env, changed, next, start, keys + KeysOf(env, CoresOfAll(env, batch)),
                    writesLeft - BatchWrites(env, keys, batch),
                    upserted + |CoresOfAll(env, batch)|, dropped + SecretsInAll(env, batch))
  {
    CountsNext(env, changed, i, NextBatch(|changed|, i), start.keys);
    BatchesWritesStep(env, keys, changed, i);
  }

  lemma {:induction false} CountsNext(env: Env, changed: seq<InputItem>, i: nat, next: nat, keys: set<string>)
    requires i <= next <= |changed|
    ensures var before, batch, after := changed[..i], changed[i..next], changed[..next];
            && keys + KeysOf(env, CoresOfAll(env, after)) ==
                 (keys + KeysOf(env, CoresOfAll(env, before))) + KeysOf(env, CoresOfAll(env, batch))
            && |CoresOfAll(env, after)| == |CoresOfAll(env, before)| + |CoresOfAll(env, batch)|
            && SecretsInAll(env, after) == SecretsInAll(env, before) + SecretsInAll(env, batch)
  {
    var before, batch := changed[..i], changed[i..next];
    assert changed[..next] == before + batch;
    KeysAppend(env, before, batch);
    CountsAppend(env, before, batch);
    UnionAssoc(keys, KeysOf(env, CoresOfAll(env, before)), KeysOf(env, CoresOfAll(env, batch)));
  }

  lemma {:induction false} UnionAssoc<T>(a: set<T>, b: set<T>, c: set<T>)
    ensures (a + b) + c == a + (b + c)
  {
  }

  lemma {:induction false} BatchSettled(env: Env, items: seq<InputItem>, i: nat, next: nat,
                                        c0: map<string, Core>, c1: map<string, Core>, c2: map<string, Core>)
    requires i <= next <= |items| && ValidItems(items)
    requires PartlyDone(env, items[..i], c0, c1) && RightInside(env, items[..i], c1)
    requires PartlyDone(env, items[i..next], c1, c2)
    ensures PartlyDone(env, items[..next], c0, c2)
    ensures RightInside(env, items[i..next], c2) ==> RightInside(env, items[..next], c2)
  {
    BatchFacts(env, items, i, next);
  }

  lemma {:induction false} PrefixDone(env: Env, items: seq<InputItem>, n: nat, c0: map<string, Core>,
                                      c: map<string, Core>)
    requires n <= |items| && ValidItems(items) && PartlyDone(env, items[..n], c0, c)
    ensures PartlyDone(env, items, c0, c)
  {
    forall p | HasPath(items[..n], p)
      ensures HasPath(items, p)
    {
      var it :| it in items[..n] && it.path == p;
      assert it in items;
    }
    forall it | it in items && it !in items[..n]
      ensures OldNewOrNone(env, it, c0, c)
    {
      OnlyItemAtPath(items, it, items[..n]);
    }
  }

  /** A batch and the items before it make up a longer prefix, with no path in common. */
  lemma {:induction false} BatchFacts(env: Env, items: seq<InputItem>, i: nat, next: nat)
    requires i <= next <= |items| && ValidItems(items)
    ensures ValidItems(items[i..next])
    ensures forall p :: HasPath(items[..next], p) <==> HasPath(items[..i], p) || HasPath(items[i..next], p)
    ensures forall it :: it in items[..next] <==> it in items[..i] || it in items[i..next]
    ensures forall it :: it in items[..i] ==> !HasPath(items[i..next], it.path)
    ensures |CoresOfAll(env, items[..next])| == |CoresOfAll(env, items[..i])| + |CoresOfAll(env, items[i..next])|
    ensures SecretsInAll(env, items[..next]) == SecretsInAll(env, items[..i]) + SecretsInAll(env, items[i..next])
  {
    assert items[..next] == items[..i] + items[i..next];
    forall it | it in items[i..next]
      ensures it in items
    {
    }
    forall p
      ensures HasPath(items[..next], p) <==> HasPath(items[..i], p) || HasPath(items[i..next], p)
    {
      if HasPath(items[..i], p) {
        var it :| it in items[..i] && it.path == p;
        assert it in items[..next];
      }
      if HasPath(items[i..next], p) {
        var it :| it in items[i..next] && it.path == p;
        assert it in items[..next];
      }
    }
    CountsAppend(env, items[..i], items[i..next]);
  }

  lemma {:induction false} CountsAppend(env: Env, a: seq<InputItem>, b: seq<InputItem>)
    ensures |CoresOfAll(env, a + b)| == |CoresOfAll(env, a)| + |CoresOfAll(env, b)|
    ensures SecretsInAll(env, a + b) == SecretsInAll(env, a) + SecretsInAll(env, b)
  {
    if b == [] {
      assert a + b == a;
    } else {
      var n := |b| - 1;
      CountsAppend(env, a, b[..n]);
      assert (a + b)[..|a + b| - 1] == a + b[..n];
    }
  }

  ghost predicate Emptied(c0: map<string, Core>, c: map<string, Core>, paths: set<string>) {
    forall p :: AtPath(c, p) == if p in paths then map[] else AtPath(c0, p)
  }

  /** The rows of vanished paths go before their file state does. */
  method DeleteVanished(env: Env, store: Store, seen: set<string>, ghost items: seq<InputItem>)
    returns (ok: bool, removed: seq<string>)
    requires Keyed(env, store.Chunks())
    requires forall p :: p in seen <==> HasPath(items, p)
    modifies store`chunks, store`writesLeft
    ensures Keyed(env, store.Chunks())
    ensures forall p :: p in removed ==> p in store.fileState && !HasPath(items, p)
    ensures forall p :: AtPath(store.Chunks(), p) == if p in removed then map[] else AtPath(old(store.Chunks()), p)
    ensures ok ==> forall p :: p in store.fileState && !HasPath(items, p) ==> p in removed
    ensures var writes := |Vanished(store.FileHashes(), items)|;
            && (ok <==> old(store.writesLeft) >= writes)
            && store.writesLeft == if ok then old(store.writesLeft) - writes else 0
  {
    var paths := set p | p in store.fileState && p !in seen;
    assert paths == Vanished(store.FileHashes(), items);
    ghost var gone;
    ok, removed, gone := DeletePaths(env, store, paths);
    assert forall p :: p in removed <==> p in gone;
  }

  /** Delete the rows of these paths, one path after another. */
  method DeletePaths(env: Env, store: Store, paths: set<string>)
    returns (ok: bool, removed: seq<string>, ghost gone: set<string>)
    requires Keyed(env, store.Chunks())
    modifies store`chunks, store`writesLeft
    ensures Keyed(env, store.Chunks()) && Emptied(old(store.Chunks()), store.Chunks(), gone)
    ensures gone <= paths && ToSet(removed) == gone && (ok ==> gone == paths)
    ensures ok <==> old(store.writesLeft) >= |paths|
    ensures store.writesLeft == if ok then old(store.writesLeft) - |paths| else 0
  {
    removed, gone := [], {};
    var todo := paths;
    ghost var c0 := store.Chunks();
    while todo != {}
      invariant Keyed(env, store.Chunks()) && Emptied(c0, store.Chunks(), gone)
      invariant ToSet(removed) == gone && Parts(todo, gone, paths)
      invariant old(store.writesLeft) - store.writesLeft == |gone|
      decreases |todo|
    {
      var p :| p in todo;
      MoveOne(todo, gone, paths, p);
      var deleted := ClearPath(env, store, p, c0, gone);
      if !deleted {
        return false, removed, gone;
      }
      ToSetSnoc(removed, p);
      todo, gone, removed := todo - {p}, gone + {p}, removed + [p];
    }
    ok := true;
  }

  lemma {:induction false} ToSetSnoc(s: seq<string>, p: string)
    ensures ToSet(s + [p]) == ToSet(s) + {p}
  {
    ToSetAppend(s, [p]);
    assert ToSet([p]) == {p};
  }

  ghost predicate Parts(todo: set<string>, gone: set<string>, whole: set<string>) {
    todo !! gone && todo + gone == whole
  }

  lemma {:induction false} MoveOne(todo: set<string>, gone: set<string>, whole: set<string>, p: string)
    requires Parts(todo, gone, whole) && p in todo
    ensures Parts(todo - {p}, gone + {p}, whole)
    ensures |gone| < |whole| && |gone + {p}| == |gone| + 1 && |todo - {p}| < |todo|
  {
    assert whole == todo + gone;
  }

  /** Delete the rows of one more path. */
  method ClearPath(env: Env, store: Store, p: string, ghost c0: map<string, Core>, ghost gone: set<string>)
    returns (ok: bool)
    requires Keyed(env, store.Chunks()) && Emptied(c0, store.Chunks(), gone)
    modifies store`chunks, store`writesLeft
    ensures Keyed(env, store.Chunks()) && Emptied(c0, store.Chunks(), if ok then gone + {p} else gone)
    ensures ok <==> old(store.writesLeft) > 0
    ensures store.writesLeft == if ok then old(store.writesLeft) - 1 else 0
  {
    var deleted, _ := store.DeleteByPath(p);
    ok := deleted;
  }

  ghost predicate IsUpdateFor(env: Env, u: (string, FileState), it: InputItem) {
    u.0 == it.path && u.1.sourceHash == env.sha(it.text)
  }

  lemma {:induction false} PutStatesHashes(env: Env, m: map<string, FileState>, changed: seq<InputItem>,
                                           updates: seq<(string, FileState)>, p: string)
    requires |updates| == |changed|
    requires forall i :: 0 <= i < |changed| ==> IsUpdateFor(env, updates[i], changed[i])
    ensures p in PutStates(m, updates) <==> p in m || HasPath(changed, p)
    ensures HasPath(changed, p) ==>
              exists it :: it in changed && it.path == p && PutStates(m, updates)[p].sourceHash == env.sha(it.text)
    ensures p in m && !HasPath(changed, p) ==> PutStates(m, updates)[p] == m[p]
  {
    if changed != [] {
      var n := |changed| - 1;
      PutStatesHashes(env, m, changed[..n], updates[..n], p);
      assert changed == changed[..n] + [changed[n]];
      assert IsUpdateFor(env, updates[n], changed[n]);
      HasPathSnoc(changed[..n], changed[n], p);
      assert changed[n] in changed;
    }
  }

  lemma {:induction false} FinalKeys(env: Env, items: seq<InputItem>, hashes0: map<string, string>,
                                     changed: seq<InputItem>, p: string)
    requires ValidItems(items) && changed == Changed(env, hashes0, items)
    ensures HasPath(items, p) <==> HasPath(changed, p) || (p in hashes0 && HasPath(items, p))
  {
    ChangedMembers(env, hashes0, items);
    if HasPath(changed, p) {
      var it :| it in changed && it.path == p;
      assert it in items;
    } else if HasPath(items, p) {
      var it :| it in items && it.path == p;
      assert it !in changed;
    }
  }

  /** The file states a finished run leaves are those of a rebuild, times aside. */
  lemma {:induction false} FinalHashes(env: Env, items: seq<InputItem>, before: map<string, FileState>,
                                       removed: seq<string>,
                    changed: seq<InputItem>, updates: seq<(string, FileState)>, after: map<string, FileState>)
    requires ValidItems(items) && changed == Changed(env, Hashes(before), items)
    requires forall p :: p in removed <==> p in before && !HasPath(items, p)
    requires |updates| == |changed| && forall i :: 0 <= i < |changed| ==> IsUpdateFor(env, updates[i], changed[i])
    requires after == PutStates(before - ToSet(removed), updates)
    ensures Hashes(after) == RebuildHashes(env, items)
  {
    ChangedMembers(env, Hashes(before), items);
    RebuildHashesOf(env, items);
    forall p
      ensures p in after <==> p in RebuildHashes(env, items)
      ensures p in after ==> after[p].sourceHash == RebuildHashes(env, items)[p]
    {
      FinalKeys(env, items, Hashes(before), changed, p);
      PutStatesHashes(env, before - ToSet(removed), changed, updates, p);
      if HasPath(items, p) && !HasPath(changed, p) {
        var it :| it in items && it.path == p;
        assert it !in changed && Unchanged(env, Hashes(before), it);
      }
    }
  }

  lemma {:induction false} OnlyItemAtPath(items: seq<InputItem>, it: InputItem, others: seq<InputItem>)
    requires ValidItems(items) && it in items && it !in others
    requires forall o :: o in others ==> o in items
    ensures !HasPath(others, it.path)
  {
    forall o | o in others
      ensures o.path != it.path
    {
      assert o in items && o != it;
    }
  }

  /** The rows a finished run leaves, path by path. */
  lemma {:induction false} FinalChunks(env: Env, items: seq<InputItem>, hashes0: map<string, string>,
                                       changed: seq<InputItem>, removed: seq<string>,
                                       c0: map<string, Core>, c1: map<string, Core>, c2: map<string, Core>)
    requires ValidItems(items) && changed == Changed(env, hashes0, items)
    requires SameOutside(changed, c0, c1) && RightInside(env, changed, c1)
    requires forall p :: p in removed <==> p in hashes0 && !HasPath(items, p)
    requires forall p :: AtPath(c2, p) == if p in removed then map[] else AtPath(c1, p)
    ensures Completed(env, items, c0, hashes0, c2, RebuildHashes(env, items))
  {
    ChangedMembers(env, hashes0, items);
    forall it | it in items
      ensures AtPath(c2, it.path) == Goal(env, c0, hashes0, it)
    {
      assert HasPath(items, it.path);
      if it !in changed {
        OnlyItemAtPath(items, it, changed);
      }
    }
    forall p | !HasPath(items, p)
      ensures AtPath(c2, p) == Rest(c0, hashes0, p)
    {
      assert !HasPath(changed, p);
    }
  }

  /** A run stopped while working through changed or vanished paths has touched only those. */
  lemma {:induction false} StoppedIsInterrupted(env: Env, items: seq<InputItem>, hashes0: map<string, string>,
                                                changed: seq<InputItem>, removed: seq<string>,
                                                c0: map<string, Core>, c1: map<string, Core>, c2: map<string, Core>)
    requires ValidItems(items) && changed == Changed(env, hashes0, items)
    requires PartlyDone(env, changed, c0, c1)
    requires forall p :: p in removed ==> p in hashes0 && !HasPath(items, p)
    requires forall p :: AtPath(c2, p) == if p in removed then map[] else AtPath(c1, p)
    ensures Interrupted(env, items, c0, hashes0, c2)
  {
    ChangedMembers(env, hashes0, items);
    forall it | it in items && Unchanged(env, hashes0, it)
      ensures AtPath(c2, it.path) == AtPath(c0, it.path)
    {
      assert HasPath(items, it.path);
      OnlyItemAtPath(items, it, changed);
    }
    forall it | it in items
      ensures OldNewOrNone(env, it, c0, c2)
    {
      assert HasPath(items, it.path);
      if it in changed {
        assert OldNewOrNone(env, it, c0, c1);
      } else {
        OnlyItemAtPath(items, it, changed);
      }
    }
    forall p | !HasPath(items, p)
      ensures !HasPath(changed, p)
    {
    }
  }

  /** The store as every run finds and leaves it, however it ended. */
  ghost predicate Sound(env: Env, store: Store)
    reads store
  {
    CacheSound(env, store.cache) && Keyed(env, store.Chunks())
  }

  method BuildUpdates(env: Env, changed: seq<InputItem>, now: int) returns (updates: seq<(string, FileState)>)
    ensures |updates| == |changed|
    ensures forall i :: 0 <= i < |changed| ==> IsUpdateFor(env, updates[i], changed[i])
  {
    updates := [];
    for i := 0 to |changed|
      invariant |updates| == i
      invariant forall j :: 0 <= j < i ==> IsUpdateFor(env, updates[j], changed[j])
    {
      updates := updates + [(changed[i].path, FileState(env.sha(changed[i].text), changed[i].mtimeMs, now))];
    }
  }

  /** The last writes: forget vanished paths, then record the changed ones. */
  method WriteFileStates(env: Env, store: Store, items: seq<InputItem>, changed: seq<InputItem>, removed: seq<string>,
                         now: int)
    returns (ok: bool)
    requires ValidItems(items) && changed == Changed(env, store.FileHashes(), items)
    requires forall p :: p in removed <==> p in store.fileState && !HasPath(items, p)
    modifies store`fileState, store`writesLeft
    ensures ok ==> store.FileHashes() == RebuildHashes(env, items)
    ensures !ok ==> store.fileState == old(store.fileState) || store.fileState == old(store.fileState) - ToSet(removed)
    ensures old(store.writesLeft) == 0 ==> store.FileHashes() == old(store.FileHashes())
    ensures var writes := (if removed == [] then 0 else 1) + if changed == [] then 0 else 1;
            && (ok <==> old(store.writesLeft) >= writes)
            && store.writesLeft == if ok then old(store.writesLeft) - writes else 0
  {
    ghost var before := store.fileState;
    var updates := BuildUpdates(env, changed, now);
    if |removed| > 0 {
      var forgotten := store.DeleteFileState(removed);
      if !forgotten {
        return false;
      }
    }
    assert store.fileState == before - ToSet(removed);
    if |updates| > 0 {
      var recorded := store.PutFileState(updates);
      if !recorded {
        return false;
      }
    }
    FinalHashes(env, items, before, removed, changed, updates, store.fileState);
    return true;
  }

  /** Everything up to the file states: diff, batches, deletions. */
  method UpdateRows(env: Env, store: Store, items: seq<InputItem>)
    returns (done: bool, changed: seq<InputItem>, removed: seq<string>, upserted: nat, dropped: nat)
    requires Assumed(env) && ValidItems(items) && Sound(env, store)
    modifies store`chunks, store`cache, store`writesLeft
    ensures Sound(env, store)
    ensures changed == Changed(env, store.FileHashes(), items)
    ensures Interrupted(env, items, old(store.Chunks()), store.FileHashes(), store.Chunks())
    ensures done ==> forall p :: p in removed <==> p in store.fileState && !HasPath(items, p)
    ensures done ==> Completed(env, items, old(store.Chunks()), store.FileHashes(), store.Chunks(),
                               RebuildHashes(env, items))
    ensures done ==> upserted + dropped == ChunksInAll(env, changed) && dropped == SecretsInAll(env, changed)
    ensures done ==> store.cache.Keys == old(store.cache.Keys) + KeysOf(env, CoresOfAll(env, changed))
    ensures var writes := RowWrites(env, old(store.cache.Keys), store.FileHashes(), items);
            && (done <==> old(store.writesLeft) >= writes)
            && store.writesLeft == if done then old(store.writesLeft) - writes else 0
  {
    ghost var c0, h0 := store.Chunks(), store.FileHashes();
    var seen;
    seen, changed := Diff(env, store, items);
    removed := [];
    ChangedMembers(env, h0, items);
    done, upserted, dropped := ProcessChanged(env, store, changed);
    ghost var c1 := store.Chunks();
    StoppedIsInterrupted(env, items, h0, changed, [], c0, c1, c1);
    if done {
      ChunksAreAccountedFor(env, changed);
      done, removed := DeleteVanished(env, store, seen, items);
      StoppedIsInterrupted(env, items, h0, changed, removed, c0, c1, store.Chunks());
      if done {
        FinalChunks(env, items, h0, changed, removed, c0, c1, store.Chunks());
      }
    }
  }

  /** The final writes of a run whose rows are settled. */
  method Commit(env: Env, store: Store, items: seq<InputItem>, changed: seq<InputItem>, removed: seq<string>,
                dropped: nat, now: int, ghost c0: map<string, Core>, ghost h0: map<string, string>)
    returns (ok: bool)
    requires Assumed(env) && ValidItems(items) && h0 == store.FileHashes() && changed == Changed(env, h0, items)
    requires forall p :: p in removed <==> p in store.fileState && !HasPath(items, p)
    requires Completed(env, items, c0, h0, store.Chunks(), RebuildHashes(env, items))
    modifies store`fileState, store`lastIngestAt, store`secretsDropped, store`writesLeft
    ensures Stopped(env, items, c0, h0, store.Chunks(), store.FileHashes())
    requires dropped == SecretsInAll(env, changed)
    ensures ok ==> store.FileHashes() == RebuildHashes(env, items)
    ensures ok ==> store.secretsDropped == old(store.secretsDropped) + dropped && store.lastIngestAt == Some(now)
    ensures old(store.writesLeft) == 0 ==> store.FileHashes() == h0
    ensures var writes := StateWrites(env, h0, items);
            && (ok <==> old(store.writesLeft) >= writes)
            && store.writesLeft == if ok then old(store.writesLeft) - writes else 0
  {
    assert removed == [] <==> Vanished(h0, items) == {} by {
      if removed != [] {
        assert removed[0] in Vanished(h0, items);
      }
    }
    ghost var c, f0 := store.Chunks(), store.fileState;
    CompletedIsInterrupted(env, items, c0, h0, c, RebuildHashes(env, items));
    ok := WriteFileStates(env, store, items, changed, removed, now);
    if ok {
      ok := store.Finish(now, dropped);
    } else if store.fileState != f0 {
      assert Forgot(items, h0, c, store.FileHashes());
    }
  }

  /**
    One ingest. It finishes exactly when as many writes go through as it has to make. Finished, it
    leaves at every path what `Completed` says, and the rebuild exactly when the store it started
    from was recoverable for these items. Stopped by a failing write at any point, from any store,
    it leaves one with the same outcome; stopped right before the first file state is written, it
    leaves the rows of a completed run and the old file states.
   */
  method RunIngest(env: Env, store: Store, items: seq<InputItem>, now: int) returns (ok: bool, report: Report)
    requires Assumed(env) && ValidItems(items) && Sound(env, store)
    modifies store
    ensures Sound(env, store)
    ensures Stopped(env, items, old(store.Chunks()), old(store.FileHashes()), store.Chunks(), store.FileHashes())
    ensures SameOutcome(env, items, old(store.Chunks()), old(store.FileHashes()), store.Chunks(), store.FileHashes())
    ensures ok ==> Completed(env, items, old(store.Chunks()), old(store.FileHashes()), store.Chunks(),
                             store.FileHashes())
    ensures ok ==> (store.Chunks() == RebuildChunks(env, items) <==>
                    old(Recoverable(env, items, store.Chunks(), store.FileHashes())))
    ensures ok ==> var changed := Changed(env, old(store.FileHashes()), items);
              && report.filesScanned == |items| && report.filesChanged == |changed|
              && report.chunksUpserted + report.chunksDroppedSecrets == ChunksInAll(env, changed)
              && report.chunksDroppedSecrets == SecretsInAll(env, changed)
              && store.secretsDropped == old(store.secretsDropped) + report.chunksDroppedSecrets
              && store.lastIngestAt == Some(now)
              && store.cache.Keys == old(store.cache.Keys) + KeysOf(env, CoresOfAll(env, changed))
    ensures ok ==> forall it :: it in items && !old(UpToDate(env, store, it)) ==>
              RowsAreChunks(env, it, store.Chunks())
    ensures var writes := old(Writes(env, store.cache.Keys, store.FileHashes(), items));
            && (ok <==> old(store.writesLeft) >= writes)
            && store.writesLeft == if ok then old(store.writesLeft) - writes else 0
    ensures var rowWrites := old(RowWrites(env, store.cache.Keys, store.FileHashes(), items));
            && (old(store.writesLeft) >= rowWrites ==>
                  Completed(env, items, old(store.Chunks()), old(store.FileHashes()), store.Chunks(),
                            RebuildHashes(env, items)))
            && (old(store.writesLeft) <= rowWrites ==> store.FileHashes() == old(store.FileHashes()))
  {
    ghost var c0, h0 := store.Chunks(), store.FileHashes();
    ok, report := false, Report(|items|, 0, 0, 0);
    var updated, changed, removed, upserted, dropped := UpdateRows(env, store, items);
    report := Report(|items|, |changed|, upserted, dropped);
    if updated {
      CompletedIsRebuildIff(env, items, c0, h0, store.Chunks(), RebuildHashes(env, items));
      ok := Commit(env, store, items, changed, removed, dropped, now, c0, h0);
    }
    StoppedKeepsOutcome(env, items, c0, h0, store.Chunks(), store.FileHashes());
    if ok {
      CompletedHoldsChunks(env, items, c0, h0, store.Chunks());
    }
  }

  /** The recorded hash of the item's path is that of its text. */
  ghost predicate UpToDate(env: Env, store: Store, it: InputItem)
    reads store
  {
    it.path in store.fileState && store.fileState[it.path].sourceHash == env.sha(it.text)
  }

  lemma {:induction false} CompletedHoldsChunks(env: Env, items: seq<InputItem>, c0: map<string, Core>,
                                                h0: map<string, string>, c: map<string, Core>)
    requires Assumed(env) && Completed(env, items, c0, h0, c, RebuildHashes(env, items))
    ensures forall it :: it in items && !(it.path in h0 && h0[it.path] == env.sha(it.text)) ==>
              RowsAreChunks(env, it, c)
  {
    forall it | it in items && !(it.path in h0 && h0[it.path] == env.sha(it.text))
      ensures RowsAreChunks(env, it, c)
    {
      RowsAtPathAreChunks(env, it, c);
    }
  }

  /**
    Any number of stops, at any points, and then a finished run: the store is what one
    uninterrupted run would have left, whatever store it was. The last run does finish if it is
    granted enough writes.
   */
  method RerunAfterStops(env: Env, store: Store, items: seq<InputItem>, budgets: seq<nat>, now: int) returns (ok: bool)
    requires Assumed(env) && ValidItems(items) && Sound(env, store)
    modifies store
    ensures Sound(env, store)
    ensures SameOutcome(env, items, old(store.Chunks()), old(store.FileHashes()), store.Chunks(), store.FileHashes())
    ensures ok ==> Completed(env, items, old(store.Chunks()), old(store.FileHashes()), store.Chunks(),
                             store.FileHashes())
    ensures ok ==> (store.Chunks() == RebuildChunks(env, items) <==>
                    old(Recoverable(env, items, store.Chunks(), store.FileHashes())))
    ensures budgets != [] && budgets[|budgets| - 1] >= old(MostWrites(env, store.FileHashes(), items)) ==> ok
    ensures !ok && budgets != [] ==> store.writesLeft == 0
  {
    ghost var c0, h0 := store.Chunks(), store.FileHashes();
    ok := false;
    for i := 0 to |budgets|
      invariant Sound(env, store)
      invariant SameOutcome(env, items, c0, h0, store.Chunks(), store.FileHashes())
      invariant ok ==> Completed(env, items, c0, h0, store.Chunks(), store.FileHashes())
      invariant Vanished(store.FileHashes(), items) <= Vanished(h0, items)
      invariant i > 0 && budgets[i - 1] >= MostWrites(env, h0, items) ==> ok
      invariant !ok && i > 0 ==> store.writesLeft == 0
    {
      ghost var c1, h1 := store.Chunks(), store.FileHashes();
      store.writesLeft := budgets[i];
      WritesAreBounded(env, store.cache.Keys, h1, items);
      MostWritesShrink(env, h0, h1, items);
      var finished, _ := RunIngest(env, store, items, now);
      StoppedVanishesLess(env, items, c1, h1, store.Chunks(), store.FileHashes());
      SameOutcomeOnwards(env, items, c0, h0, c1, h1, store.Chunks(), store.FileHashes());
      if finished {
        CompletedFromEarlier(env, items, c0, h0, c1, h1, store.Chunks(), store.FileHashes());
      }
      ok := finished;
    }
    if ok {
      CompletedIsRebuildIff(env, items, c0, h0, store.Chunks(), store.FileHashes());
    }
  }

  lemma {:induction false} MostWritesShrink(env: Env, h0: map<string, string>, h1: map<string, string>,
                                            items: seq<InputItem>)
    requires Vanished(h1, items) <= Vanished(h0, items)
    ensures MostWrites(env, h1, items) <= MostWrites(env, h0, items)
  {
    SubsetIsSmaller(Vanished(h1, items), Vanished(h0, items));
  }

  lemma {:induction false} StoppedVanishesLess(env: Env, items: seq<InputItem>,
                                               c0: map<string, Core>, h0: map<string, string>,
                                               c: map<string, Core>, h: map<string, string>)
    requires ValidItems(items) && Stopped(env, items, c0, h0, c, h)
    ensures Vanished(h, items) <= Vanished(h0, items)
  {
    RebuildHashesOf(env, items);
  }

  /** The writes of a series of runs, the cache and the file states being those the runs before left. */
  ghost function HistoryWrites(env: Env, keys: set<string>, last: seq<InputItem>, history: seq<seq<InputItem>>): nat
    decreases |history|
  {
    if history == [] then 0
    else
      var hashes := RebuildHashes(env, last);
      Writes(env, keys, hashes, history[0])
      + HistoryWrites(env, keys + KeysOf(env, CoresOfAll(env, Changed(env, hashes, history[0]))), history[0],
                      history[1..])
  }

  /**
    Runs over one list of items after another: all finish exactly when as many writes go through
    as they make together, and then after each there is exactly that list's rebuild.
   */
  method IngestHistory(env: Env, history: seq<seq<InputItem>>, budget: nat, now: int) returns (store: Store, ok: bool)
    requires Assumed(env) && forall items :: items in history ==> ValidItems(items)
    ensures fresh(store) && Sound(env, store)
    ensures ok && history != [] ==>
              && store.Chunks() == RebuildChunks(env, history[|history| - 1])
              && store.FileHashes() == RebuildHashes(env, history[|history| - 1])
    ensures var writes := HistoryWrites(env, {}, [], history);
            && (ok <==> budget >= writes)
            && store.writesLeft == if ok then budget - writes else 0
  {
    store := new Store(budget);
    ok := true;
    ghost var writes := HistoryWrites(env, {}, [], history);
    ghost var last: seq<InputItem> := [];
    assert store.Chunks() == RebuildChunks(env, last) && store.FileHashes() == RebuildHashes(env, last);
    for i := 0 to |history|
      invariant ok && fresh(store) && Sound(env, store) && ValidItems(last)
      invariant i > 0 ==> last == history[i - 1]
      invariant store.Chunks() == RebuildChunks(env, last) && store.FileHashes() == RebuildHashes(env, last)
      invariant budget - store.writesLeft == writes - HistoryWrites(env, store.cache.Keys, last, history[i..])
    {
      assert history[i] in history && history[i..][0] == history[i] && history[i..][1..] == history[i + 1..];
      RebuiltIsRecoverable(env, last, history[i]);
      var finished, _ := RunIngest(env, store, history[i], now);
      if !finished {
        return store, false;
      }
      last := history[i];
    }
  }
}
