/**
  Ingest runs that stop: when a later run over another list still yields that list's rebuild, and
  two ways in which it does not (src/rag/pipeline.ts).
 */
module IngestStops {
  import opened Common
  import opened Ingest
  import opened IngestRun

  /** The list holds this item's text at this item's path. */
  ghost predicate SameIn(items: seq<InputItem>, it: InputItem) {
    exists x :: x in items && x.path == it.path && x.text == it.text
  }

  /** A stop left other rows at this path than were there. */
  ghost predicate Touched(chunks0: map<string, Core>, chunks: map<string, Core>, p: string) {
    AtPath(chunks, p) != AtPath(chunks0, p)
  }

  /**
    After a finished run over `before`, a run over `tried` that stopped: with `forgotten`, after it
    had forgotten the vanished paths.
   */
  ghost predicate StoppedAfter(env: Env, before: seq<InputItem>, tried: seq<InputItem>, forgotten: bool,
                               chunks: map<string, Core>, hashes: map<string, string>) {
    && Interrupted(env, tried, RebuildChunks(env, before), RebuildHashes(env, before), chunks)
    && if forgotten then Forgot(tried, RebuildHashes(env, before), chunks, hashes)
       else hashes == RebuildHashes(env, before)
  }

  /** The paths whose file state the stop left. */
  ghost predicate Known(before: seq<InputItem>, tried: seq<InputItem>, forgotten: bool, p: string) {
    HasPath(before, p) && (forgotten ==> HasPath(tried, p))
  }

  /**
    No touched path that still has its old file state has its old text again, and every touched
    path without one is given again, except the vanished ones that were forgotten.
   */
  ghost predicate NothingRevertedOrDropped(env: Env, before: seq<InputItem>, tried: seq<InputItem>, forgotten: bool,
                                           chunks: map<string, Core>, items: seq<InputItem>) {
    var chunks0 := RebuildChunks(env, before);
    && (forall it :: it in items && Touched(chunks0, chunks, it.path) && Known(before, tried, forgotten, it.path) ==>
          !SameIn(before, it))
    && (forall p :: Touched(chunks0, chunks, p) && !HasPath(before, p) ==> HasPath(items, p))
  }

  lemma {:induction false} KnownPaths(env: Env, before: seq<InputItem>, tried: seq<InputItem>, forgotten: bool,
                                      chunks: map<string, Core>, hashes: map<string, string>, p: string)
    requires ValidItems(before) && StoppedAfter(env, before, tried, forgotten, chunks, hashes)
    ensures p in hashes <==> Known(before, tried, forgotten, p)
    ensures p in hashes ==> hashes[p] == RebuildHashes(env, before)[p]
  {
    RebuildHashesOf(env, before);
  }

  /** An item is taken for unchanged exactly when its text is the old one at a known path. */
  lemma {:induction false} UnchangedIff(env: Env, before: seq<InputItem>, tried: seq<InputItem>, forgotten: bool,
                                        chunks: map<string, Core>, hashes: map<string, string>, it: InputItem)
    requires Assumed(env) && ValidItems(before) && StoppedAfter(env, before, tried, forgotten, chunks, hashes)
    ensures Unchanged(env, hashes, it) <==> SameIn(before, it) && Known(before, tried, forgotten, it.path)
  {
    KnownPaths(env, before, tried, forgotten, chunks, hashes, it.path);
    RebuildHashesOf(env, before);
    if Unchanged(env, hashes, it) {
      var x :| x in before && x.path == it.path;
      assert env.sha(x.text) == env.sha(it.text);
    }
    if SameIn(before, it) {
      var x :| x in before && x.path == it.path && x.text == it.text;
      assert RebuildHashes(env, before)[x.path] == env.sha(x.text);
    }
  }

  /** The old rows of an item that has its old text are the ones it should have. */
  lemma {:induction false} OldRowsFit(env: Env, before: seq<InputItem>, it: InputItem)
    requires Assumed(env) && ValidItems(before) && SameIn(before, it)
    ensures AtPath(RebuildChunks(env, before), it.path) == ItemMap(env, it)
  {
    var x :| x in before && x.path == it.path && x.text == it.text;
    RebuildAtPath(env, before, it.path);
    CoresByText(env, x, it);
  }

  /** Rows at paths without file state are new ones, or there are none. */
  lemma {:induction false} UnknownRows(env: Env, before: seq<InputItem>, tried: seq<InputItem>, forgotten: bool,
                                       chunks: map<string, Core>, hashes: map<string, string>, p: string)
    requires Assumed(env) && ValidItems(before) && StoppedAfter(env, before, tried, forgotten, chunks, hashes)
    requires p !in hashes
    ensures AtPath(chunks, p) != map[] <==> Touched(RebuildChunks(env, before), chunks, p) && !HasPath(before, p)
  {
    KnownPaths(env, before, tried, forgotten, chunks, hashes, p);
    RebuildAtPath(env, before, p);
    RebuildHashesOf(env, before);
  }

  lemma {:induction false} ItemsAgreeIff(env: Env, before: seq<InputItem>, tried: seq<InputItem>, forgotten: bool,
                                         chunks: map<string, Core>, hashes: map<string, string>, it: InputItem)
    requires Assumed(env) && ValidItems(before) && StoppedAfter(env, before, tried, forgotten, chunks, hashes)
    ensures Goal(env, chunks, hashes, it) == ItemMap(env, it) <==>
              !(Touched(RebuildChunks(env, before), chunks, it.path) && Known(before, tried, forgotten, it.path)
                && SameIn(before, it))
  {
    UnchangedIff(env, before, tried, forgotten, chunks, hashes, it);
    if SameIn(before, it) {
      OldRowsFit(env, before, it);
    }
  }

  /**
    After a rebuild of one list and a stop over a second, a finished run over a third yields its
    rebuild if and only if the third neither reverts a touched text nor drops a touched new path.
   */
  lemma {:induction false} StopThenRunIsRebuildIff(env: Env, before: seq<InputItem>, tried: seq<InputItem>,
                                                   forgotten: bool,
                                chunks: map<string, Core>, hashes: map<string, string>, items: seq<InputItem>,
                                                   final: map<string, Core>, finalHashes: map<string, string>)
    requires Assumed(env) && ValidItems(before) && ValidItems(items)
    requires StoppedAfter(env, before, tried, forgotten, chunks, hashes)
    requires Completed(env, items, chunks, hashes, final, finalHashes)
    ensures final == RebuildChunks(env, items) <==>
              NothingRevertedOrDropped(env, before, tried, forgotten, chunks, items)
  {
    CompletedIsRebuildIff(env, items, chunks, hashes, final, finalHashes);
    RecoverableByOutcome(env, items, chunks, hashes);
    forall it | it in items
      ensures Goal(env, chunks, hashes, it) == ItemMap(env, it) <==>
                !(Touched(RebuildChunks(env, before), chunks, it.path) && Known(before, tried, forgotten, it.path)
                  && SameIn(before, it))
    {
      ItemsAgreeIff(env, before, tried, forgotten, chunks, hashes, it);
    }
    forall p | !HasPath(items, p)
      ensures Rest(chunks, hashes, p) == map[] <==> !(Touched(RebuildChunks(env, before), chunks, p)
                                                      && !HasPath(before, p))
    {
      KnownPaths(env, before, tried, forgotten, chunks, hashes, p);
      if p !in hashes {
        UnknownRows(env, before, tried, forgotten, chunks, hashes, p);
      }
    }
  }

  /** In particular, running again over the same list always does. */
  lemma {:induction false} SameListNeverReverts(env: Env, before: seq<InputItem>, tried: seq<InputItem>,
                                                forgotten: bool,
                                                chunks: map<string, Core>, hashes: map<string, string>)
    requires Assumed(env) && ValidItems(before) && ValidItems(tried)
    requires StoppedAfter(env, before, tried, forgotten, chunks, hashes)
    ensures NothingRevertedOrDropped(env, before, tried, forgotten, chunks, tried)
  {
    RebuildHashesOf(env, before);
    forall it | it in tried && SameIn(before, it)
      ensures !Touched(RebuildChunks(env, before), chunks, it.path)
    {
      var x :| x in before && x.path == it.path && x.text == it.text;
      assert Unchanged(env, RebuildHashes(env, before), it);
    }
  }

  // ------------------------------------------------------ two failing inputs

  /** Ingest nothing, add a file, stop after its batch. */
  lemma {:induction false} AddedThenStopped(env: Env, added: InputItem)
    requires Assumed(env) && ValidItems([added])
    ensures StoppedAfter(env, [], [added], false, ItemMap(env, added), map[])
    ensures Keyed(env, ItemMap(env, added))
  {
    var rows := ItemMap(env, added);
    OneItem(env, added);
    assert RebuildChunks(env, []) == map[];
    forall p | !HasPath([added], p)
      ensures AtPath(rows, p) == map[]
    {
      RebuildAtPath(env, [added], p);
    }
  }

  lemma {:induction false} OneItem(env: Env, it: InputItem)
    requires Assumed(env) && ValidItems([it])
    ensures RebuildChunks(env, [it]) == ItemMap(env, it) && Keyed(env, ItemMap(env, it))
    ensures RebuildHashes(env, [it]) == map[it.path := env.sha(it.text)]
    ensures AtPath(ItemMap(env, it), it.path) == ItemMap(env, it)
    ensures forall p :: HasPath([it], p) <==> p == it.path
    ensures forall p :: p != it.path ==> AtPath(ItemMap(env, it), p) == map[]
  {
    assert [it][..0] == [] && CoresOfAll(env, []) + CoresOf(env, it) == CoresOf(env, it);
    assert CoresOfAll(env, [it]) == CoresOf(env, it);
    assert RebuildHashes(env, []) == map[];
    RebuildAtPath(env, [it], it.path);
    assert it in [it];
    forall p | p != it.path
      ensures AtPath(ItemMap(env, it), p) == map[]
    {
      RebuildAtPath(env, [it], p);
    }
  }

  /** If the file then goes away, its rows stay through every finished run. */
  lemma {:induction false} AddedThenRemovedStays(env: Env, added: InputItem, final: map<string, Core>,
                                                 finalHashes: map<string, string>)
    requires Assumed(env) && ValidItems([added]) && ItemMap(env, added) != map[]
    requires Completed(env, [], ItemMap(env, added), map[], final, finalHashes)
    ensures final == ItemMap(env, added) && final != RebuildChunks(env, []) && finalHashes == RebuildHashes(env, [])
  {
    AddedThenStopped(env, added);
    forall p
      ensures AtPath(final, p) == AtPath(ItemMap(env, added), p)
    {
      assert !HasPath([], p);
    }
    SameAtEveryPath(final, ItemMap(env, added));
  }

  /** Ingest a file, edit it, stop after the batch. */
  lemma {:induction false} EditedThenStopped(env: Env, original: InputItem, edited: InputItem)
    requires Assumed(env) && ValidItems([original]) && ValidItems([edited])
    requires original.path == edited.path && original.text != edited.text
    ensures StoppedAfter(env, [original], [edited], false, ItemMap(env, edited), RebuildHashes(env, [original]))
  {
    OneItem(env, original);
    OneItem(env, edited);
    assert !Unchanged(env, RebuildHashes(env, [original]), edited);
  }

  /** If the edit is then reverted, the edit's rows stay: the file is taken for unchanged. */
  lemma {:induction false} RevertedEditStays(env: Env, original: InputItem, edited: InputItem,
                                             final: map<string, Core>, finalHashes: map<string, string>)
    requires Assumed(env) && ValidItems([original]) && ValidItems([edited])
    requires original.path == edited.path && ItemMap(env, original) != ItemMap(env, edited)
    requires Completed(env, [original], ItemMap(env, edited), RebuildHashes(env, [original]), final, finalHashes)
    ensures final == ItemMap(env, edited) && final != RebuildChunks(env, [original])
    ensures finalHashes == RebuildHashes(env, [original])
  {
    OneItem(env, original);
    OneItem(env, edited);
    assert Unchanged(env, RebuildHashes(env, [original]), original);
    forall p
      ensures AtPath(final, p) == AtPath(ItemMap(env, edited), p)
    {
      if p == original.path {
        assert original in [original];
      }
    }
    SameAtEveryPath(final, ItemMap(env, edited));
  }

  // ---- both, run by run

  /** From nothing, a run over one new file whose store fails right after the rows. */
  method StopAfterAdding(env: Env, added: InputItem, writes: nat, now: int) returns (store: Store)
    requires Assumed(env) && ValidItems([added]) && writes == RowWrites(env, {}, map[], [added])
    ensures fresh(store) && Sound(env, store)
    ensures store.Chunks() == ItemMap(env, added) && store.FileHashes() == map[]
  {
    store := new Store(writes);
    assert store.Chunks() == map[] && store.FileHashes() == map[] && store.cache.Keys == {};
    var _, _ := RunIngest(env, store, [added], now);
    FirstCompleted(env, added, store.Chunks(), RebuildHashes(env, [added]));
  }

  /** The file goes away, and a run finishes: the rows are still there. */
  method AddStopRemove(env: Env, added: InputItem, writes: nat, now: int) returns (store: Store)
    requires Assumed(env) && ValidItems([added]) && writes == RowWrites(env, {}, map[], [added])
    ensures fresh(store) && Sound(env, store)
    ensures store.Chunks() == ItemMap(env, added) && store.FileHashes() == map[]
  {
    store := StopAfterAdding(env, added, writes, now);
    store.writesLeft := 4;
    WritesAreBounded(env, store.cache.Keys, map[], []);
    var ok, _ := RunIngest(env, store, [], now);
    assert ok;
    assert forall p :: !HasPath([], p);
    KeptWithoutState(store.Chunks(), ItemMap(env, added));
  }

  lemma {:induction false} KeptWithoutState(final: map<string, Core>, rows: map<string, Core>)
    requires forall p :: AtPath(final, p) == AtPath(rows, p)
    ensures final == rows
  {
    SameAtEveryPath(final, rows);
  }

  /** A run over one file, then one over its edited text whose store fails right after the rows. */
  method StopAfterEditing(env: Env, original: InputItem, edited: InputItem, enough: nat, writes: nat, now: int)
    returns (store: Store)
    requires Assumed(env) && ValidItems([original]) && ValidItems([edited])
    requires original.path == edited.path && original.text != edited.text
    requires enough >= FirstWrites(env, original)
    requires var keys := KeysOf(env, CoresOf(env, original));
             writes == RowWrites(env, keys, RebuildHashes(env, [original]), [edited])
    ensures fresh(store) && Sound(env, store)
    ensures store.Chunks() == ItemMap(env, edited) && store.FileHashes() == RebuildHashes(env, [original])
  {
    store := IngestOne(env, original, enough, now);
    store.writesLeft := writes;
    var _, _ := RunIngest(env, store, [edited], now);
    EditCompleted(env, original, edited, store.Chunks());
  }

  lemma {:induction false} EditCompleted(env: Env, original: InputItem, edited: InputItem, final: map<string, Core>)
    requires Assumed(env) && ValidItems([original]) && ValidItems([edited])
    requires Completed(env, [edited], ItemMap(env, original), RebuildHashes(env, [original]), final,
                       RebuildHashes(env, [edited]))
    ensures final == ItemMap(env, edited)
  {
    OneItem(env, original);
    OneItem(env, edited);
    RebuiltIsRecoverable(env, [original], [edited]);
    CompletedIsRebuildIff(env, [edited], ItemMap(env, original), RebuildHashes(env, [original]), final,
                          RebuildHashes(env, [edited]));
  }

  /** Enough writes for a first run over one file. */
  ghost function FirstWrites(env: Env, it: InputItem): nat {
    |CoresOf(env, it)| + 6
  }

  lemma {:induction false} FirstWritesSuffice(env: Env, keys: set<string>, hashes: map<string, string>, it: InputItem,
                                              items: seq<InputItem>)
    requires hashes == map[] && items == [it]
    ensures Writes(env, keys, hashes, items) <= FirstWrites(env, it)
    ensures KeysOf(env, CoresOfAll(env, Changed(env, hashes, items))) == KeysOf(env, CoresOf(env, it))
  {
    OneIsChanged(env, hashes, it);
    WritesAreBounded(env, keys, hashes, items);
    assert Vanished(hashes, items) == {};
  }

  /** A finished run over one file, from nothing. */
  method IngestOne(env: Env, it: InputItem, enough: nat, now: int) returns (store: Store)
    requires Assumed(env) && ValidItems([it]) && enough >= FirstWrites(env, it)
    ensures fresh(store) && Sound(env, store) && store.cache.Keys == KeysOf(env, CoresOf(env, it))
    ensures store.Chunks() == ItemMap(env, it) && store.FileHashes() == RebuildHashes(env, [it])
  {
    store := new Store(enough);
    ghost var keys, hashes := store.cache.Keys, store.FileHashes();
    assert store.Chunks() == map[] && hashes == map[] && keys == {};
    var items := [it];
    FirstWritesSuffice(env, keys, hashes, it, items);
    var ok, _ := RunIngest(env, store, items, now);
    FirstCompleted(env, it, store.Chunks(), store.FileHashes());
  }

  lemma {:induction false} FirstCompleted(env: Env, it: InputItem, final: map<string, Core>,
                                          finalHashes: map<string, string>)
    requires Assumed(env) && ValidItems([it]) && Completed(env, [it], map[], map[], final, finalHashes)
    ensures final == ItemMap(env, it) && finalHashes == RebuildHashes(env, [it])
  {
    OneItem(env, it);
    RebuiltIsRecoverable(env, [], [it]);
    assert RebuildChunks(env, []) == map[] && RebuildHashes(env, []) == map[];
    CompletedIsRebuildIff(env, [it], map[], map[], final, finalHashes);
  }

  lemma {:induction false} OneIsChanged(env: Env, hashes: map<string, string>, it: InputItem)
    requires !Unchanged(env, hashes, it)
    ensures Changed(env, hashes, [it]) == [it] && CoresOfAll(env, [it]) == CoresOf(env, it)
  {
    assert [it][..0] == [] && Changed(env, hashes, []) == [] && CoresOfAll(env, []) == [];
  }

  /** The edit is reverted, and a run finishes: the rows are still the edit's. */
  method EditStopRevert(env: Env, original: InputItem, edited: InputItem, enough: nat, writes: nat, now: int)
    returns (store: Store)
    requires Assumed(env) && ValidItems([original]) && ValidItems([edited])
    requires original.path == edited.path && original.text != edited.text
    requires enough >= FirstWrites(env, original)
    requires var keys := KeysOf(env, CoresOf(env, original));
             writes == RowWrites(env, keys, RebuildHashes(env, [original]), [edited])
    ensures fresh(store) && Sound(env, store)
    ensures store.Chunks() == ItemMap(env, edited) && store.FileHashes() == RebuildHashes(env, [original])
  {
    store := StopAfterEditing(env, original, edited, enough, writes, now);
    store.writesLeft := 1;
    NothingNewIsOneWrite(env, store.cache.Keys, [original]);
    var ok, _ := RunIngest(env, store, [original], now);
    assert ok;
    if ItemMap(env, original) != ItemMap(env, edited) {
      RevertedEditStays(env, original, edited, store.Chunks(), store.FileHashes());
    } else {
      OneItem(env, original);
      RevertedToSame(env, original, store.Chunks(), store.FileHashes());
    }
  }

  lemma {:induction false} RevertedToSame(env: Env, original: InputItem, final: map<string, Core>,
                                          finalHashes: map<string, string>)
    requires Assumed(env) && ValidItems([original])
    requires Completed(env, [original], ItemMap(env, original), RebuildHashes(env, [original]), final, finalHashes)
    ensures final == ItemMap(env, original)
  {
    OneItem(env, original);
    RebuiltIsRecoverable(env, [original], [original]);
    CompletedIsRebuildIff(env, [original], RebuildChunks(env, [original]), RebuildHashes(env, [original]),
                          final, finalHashes);
  }
}
