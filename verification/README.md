# Saivage: verified models

Dafny models of the parts of Saivage whose correctness rests on state kept over many steps, with
proofs of what each part promises. Each module follows one component of the runtime. Code that
works step by step is modelled by classes and methods with loops; the specification each method
is proved against is a function or predicate whose own properties are proved as lemmas.

| module | component | main results |
|---|---|---|
| `Ingest`, `IngestRun`, `IngestStops` | incremental ingest into the vector store | a run finishes exactly when the store takes as many writes as it has to make; from any store, stops between any two writes and then a finished run leave what one uninterrupted run would have left; the rows at a changed path are the chunker's clean chunks; between lists this is the new list's rebuild exactly when no text is reverted and no new path dropped |
| `Planner` | failover chain | the walk ends on every cyclic table; it expands exactly the reachable specs, depth first, each fallback read off the table by full spec, model, provider |
| `Router` | chat failover, cooldowns, sticky failover | no candidate is ever called while disabled; every delay is the right term of its series; a spec is sticky exactly when a failover answered for it and it has not recovered since |
| `Equivalence` | model equivalence index | the index relates exactly the specs that share a group or a listed model, configured ones first; its keys are the group members and the specs of models listed twice |
| `Rounds`, `Conversation`, `Dispatch`, `Agent` | conversation rounds, compaction, tool dispatch, agent loop | the loop ends at the first turn that ends it, and throws in an exchange exactly when a call escapes or a large result cannot be written; only such a throw leaves a tool use unanswered, and the next compaction heals it; between compactions the history is exactly what came in, was answered, shown and asked, in order; compactions are bounded over an agent's whole life, throws included, and the bound is reached |
| `JsonScan` | JSON candidates in model replies | a printed object is found exactly when the text before it leaves no string literal and no brace open; fenced bodies are always candidates |
| `Profiles` | routing profiles | a cycle is reported exactly when there is one; merging a chain gives each field its nearest value |
| `Knowledge` | skill and memory records | supersession is acyclic and unshared over every run; nothing unclean is ever stored; the audit log replays to the records; active names stay unique exactly when no supersession takes a held one |
| `Plan` | plan document service | every run keeps the document sound; history only grows and never comes back; the dispatch gate is exact |
| `Redaction` | secret spans | redacting depends only on which positions are covered and joined; merging is canonical |
| `StateWriter` | coalescing state writer | one write at a time, in order; an idle file is current exactly when the last write did not fail |
| `Splitter` | message splitter | the parts are the paragraph, cut; all fit if and only if every code point fits; lines that fit are kept whole |
| `ToolNames` | tool aliases | visible names are distinct, changed only where taken, and the alias search ends |

`Common` holds shared vocabulary. `dafny verify dfyconfig.toml` checks everything.

Some results show where the code does less than a reader might expect:

- An ingest stopped after writing rows leaves them for good in two cases: the file is new and goes away
  before the next run (`IngestStops.AddStopRemove`), or its edit is reverted before the next run
  (`IngestStops.EditStopRevert`). `IngestStops.StopThenRunIsRebuildIff` is the exact condition.
- A throw between pushing a response's tool uses and pushing their results leaves them unanswered. The chat
  agent goes on after it, and they stay until the next compaction (`Agent.Agent.Live`).
- Superseding does not rewrite the JSON copy of the old record, so archiving it later logs the status
  "active" as the one before (`Knowledge.KnowledgeStore.Archive`).
- A stage handed in again with another start, the blank one included, loses the old one (`Plan.StartsSurvive`).
- Chunk ids name one path only if paths hold no NUL. `Ingest.CanShareIdIff` says exactly which two paths can share an id.
- The chain walk needs provider names without a slash (`Planner.SlashInProviderNameNeverEnds`).
  The registry's names have none.
- One unpaired quote in a reply hides the object after it (`JsonScan.UnpairedQuoteHidesObject`).
- Superseding checks no name: it keeps active names unique exactly when no other active record has
  the new one's (`Knowledge.SupersedeKeepsNamesIff`, `Knowledge.DuplicateAName`).
- After a failed write the state file stays behind until the next change (`StateWriter.RuntimeTracker.Run`).
- A group with a single member, or a model listed twice by one provider, makes a key without equivalents,
  and the planner skips bare provider failovers for a spec that is a key.

Where a comment and the code differ, the code is modelled: a compacted history is one summary message,
without the system prompt (`src/runtime/compaction.ts:161-165`); overlapping secret matches are joined, not
reduced to the widest (`src/security/secrets.ts:222`); a sticky window is also set when the primary was
not tried but no window existed (`src/providers/router.ts:352-356`); a superseding record may have another
name than the one it replaces (`src/knowledge/sidecar-queries.ts:213-218`); waiting for an idle writer does
not imply that a pending snapshot was written (`src/runtime/recovery.ts:358-363`).

## Model

| member | source | states |
|---|---|---|
| `Ingest.IdPreimageDeterminesPath` | src/rag/pipeline.ts:68-78 | for paths without NUL, equal hash inputs name the same path |
| `Ingest.CanShareIdIff` | src/rag/pipeline.ts:68-83 | chunks of two paths can share a hash input if and only if the paths are equal or one is what follows a NUL in the other, no line ahead of that NUL ending in blanks |
| `Ingest.NormalizeMeans` | src/rag/pipeline.ts:80-84 | normalizing drops the carriage return of each line end, then the blanks before it, and nothing else |
| `Ingest.CacheStaysSound` | src/rag/cache/embedding-cache.ts:18-24 | storing a fresh embedding under its key keeps every cached embedding that of its text |
| `Ingest.CacheKeysTell` | src/rag/cache/embedding-cache.ts:18-24 | two cache keys are equal if and only if provider stamp and normalized text are |
| `Ingest.RebuildAtPath` | src/rag/pipeline.ts:157-301 | a rebuild from empty holds at each path exactly that item's chunks |
| `Ingest.ItemRowsAreChunks` | src/rag/pipeline.ts:215-233 | the rows of an item are its chunks that are no secrets: path, text, first and last line and embedding, each under the hash of its text, path and lines; of several with one id the last counts |
| `Ingest.RebuildHoldsChunks` | src/rag/pipeline.ts:215-275 | a rebuild holds at each path exactly those rows, every clean chunk having one, and no other rows |
| `Ingest.CompletedIsRebuildIff` | src/rag/pipeline.ts:180-292 | a completed run equals the rebuild if and only if the store it started from was recoverable: files believed unchanged have right rows, no row belongs to an unknown path |
| `Ingest.CompletedIsUnique` | src/rag/pipeline.ts:180-292 | from one store, for one list, there is only one result of a completed run |
| `Ingest.OutcomeDecidesRecoverable` | src/rag/pipeline.ts:180-292 | stores a completed run takes to the same result are both recoverable or both not |
| `Ingest.CompletedFromEarlier` | src/rag/pipeline.ts:180-292 | a completed run from a store with the same outcome is one from the earlier store |
| `Ingest.InterruptedKeepsOutcome` | src/rag/pipeline.ts:193-286 | a stop before any file state is written, each changed path holding its old rows, none or all its new ones, keeps what a completed run ends in, from any store |
| `Ingest.ForgettingKeepsOutcome` | src/rag/pipeline.ts:287-292 | so it does after a stop between the two file-state writes |
| `Ingest.StoppedKeepsOutcome` | src/rag/pipeline.ts:193-292 | so it does after a stop anywhere |
| `Ingest.RebuiltIsRecoverable` | src/rag/pipeline.ts:180-191 | what a completed run over any other items leaves is recoverable for these |
| `Ingest.Store.Upsert` | src/rag/store/sqlite-vec.ts:195-226 | rows go in by id, all or none |
| `Ingest.Store.DeleteByPath` | src/rag/store/sqlite-vec.ts:228-250 | removes exactly the rows of one path, counted |
| `Ingest.Store.PutFileState` | src/rag/store/sqlite-vec.ts:386-397 | file states are written all or none |
| `Ingest.Store.DeleteFileState` | src/rag/store/sqlite-vec.ts:399-408 | file states are removed all or none |
| `IngestRun.ChunksAreAccountedFor` | src/rag/pipeline.ts:215-233 | every chunk of an item is either kept or counted as a dropped secret |
| `IngestRun.BuildBatch` | src/rag/pipeline.ts:196-234 | rows have the right ids and hashes; each without a cached embedding has one open slot |
| `IngestRun.FillEmbeddings` | src/rag/pipeline.ts:236-253 | every vector goes to the slot of its own text, cached or fresh; one write for each text the cache did not have |
| `IngestRun.ProcessBatch` | src/rag/pipeline.ts:194-276 | finishes exactly when its writes go through; a finished batch leaves at its paths exactly their items' rows; a stopped one leaves at each of them the old rows, none or the new ones, never a mixture; other paths stay |
| `IngestRun.Diff` | src/rag/pipeline.ts:180-191 | the changed items are those whose stored hash is missing or different |
| `IngestRun.ProcessChanged` | src/rag/pipeline.ts:193-276 | all batches of 64 together settle every changed path; they finish exactly when all their writes go through, later batches finding cached what earlier ones embedded; a stop leaves no path with a mixture |
| `IngestRun.DeleteVanished` | src/rag/pipeline.ts:278-286 | rows of vanished paths are gone, all others stay; one write for each |
| `IngestRun.FinalHashes` | src/rag/pipeline.ts:287-292 | forgetting vanished and writing changed file states yields the rebuild's |
| `IngestRun.FinalChunks` | src/rag/pipeline.ts:193-286 | settled changed paths and cleared vanished ones make a completed run |
| `IngestRun.RunIngest` | src/rag/pipeline.ts:157-301 | finishes if and only if as many writes go through as it has to make: one for each text to embed, changed path, batch with rows and vanished path, then those for file states, time and secrets. Finished: completed, and the rebuild if and only if the start was recoverable, with counts that add up. Stopped: a store from which a run ends as from the start; stopped right before the first file state: completed rows and old file states. At each path found changed the rows are then the chunker's clean chunks, with their own lines, embeddings and ids |
| `IngestRun.NothingNewIsOneWrite` | src/rag/pipeline.ts:180-295 | a run that finds nothing new writes once, the time |
| `IngestRun.BatchesHold64` | src/rag/pipeline.ts:193-195 | every 64 changed items begun make a batch |
| `IngestRun.WritesAreBounded` | src/rag/pipeline.ts:193-295 | a bound on the writes of a run, whatever the cache holds |
| `IngestRun.RerunAfterStops` | src/rag/pipeline.ts:193-292 | from any store and after any number of stops, a finished run ends as one uninterrupted run, hence in the rebuild if and only if the first store was recoverable; the last run finishes if granted rows + 2·items + vanished paths + 4 writes |
| `IngestRun.IngestHistory` | src/rag/pipeline.ts:157-301 | from empty, over any series of item lists, all runs finish if and only if their writes together go through, and then each leaves exactly its list's rebuild |
| `IngestStops.StopThenRunIsRebuildIff` | src/rag/pipeline.ts:180-292 | after a rebuild of one list and a stop over a second, a finished run over a third yields its rebuild if and only if it neither reverts a text whose rows the stop touched nor drops a new path it touched |
| `IngestStops.SameListNeverReverts` | src/rag/pipeline.ts:180-292 | running again over the list that was stopped always meets that condition |
| `IngestStops.AddedThenStopped` | src/rag/pipeline.ts:193-276 | the rows of one new file without file state are what a stop over it may leave |
| `IngestStops.AddedThenRemovedStays` | src/rag/pipeline.ts:278-286 | if that file then goes away, its rows survive a finished run |
| `IngestStops.EditedThenStopped` | src/rag/pipeline.ts:193-276 | the rows of an edited file with the old hash are what a stop over it may leave |
| `IngestStops.RevertedEditStays` | src/rag/pipeline.ts:180-191 | if the edit is then reverted, a finished run takes the file for unchanged and keeps the edit's rows |
| `IngestStops.StopAfterAdding` | src/rag/pipeline.ts:193-292 | from an empty store, a run over one new file that fails right after the rows leaves its rows and no file state |
| `IngestStops.AddStopRemove` | src/rag/pipeline.ts:278-292 | the file then goes away and a run finishes: its rows are still there |
| `IngestStops.StopAfterEditing` | src/rag/pipeline.ts:193-292 | a finished run over a file, then one over its edited text that fails right after the rows, leave the new rows and the old hash |
| `IngestStops.EditStopRevert` | src/rag/pipeline.ts:180-292 | the edit is then reverted and a run finishes, in one write: the rows are still the edit's |
| `Planner.ParseOfJoin` | src/providers/types.ts:116-123 | a spec composed with a slash-free provider name parses back to its parts |
| `Planner.JoinOfParse` | src/providers/types.ts:116-123 | a spec parses exactly when it has a slash, into parts that compose to it, the provider slash-free |
| `Planner.SuccessorsMean` | src/providers/candidate-planner.ts:60-81 | a spec leads exactly to its equivalents and to what its fallbacks stand for; these are those of the full spec, else of its model, else of its provider; a bare provider name is completed with the model, and one without slash is passed over when the spec is in the index |
| `Planner.UniverseIsClosed` | src/providers/candidate-planner.ts:50-82 | with slash-free provider names, a walk stays within a finite set of table specs and compositions |
| `Planner.VisitIsDistinct` | src/providers/candidate-planner.ts:57-58 | no spec is expanded twice |
| `Planner.VisitIsReachability` | src/providers/candidate-planner.ts:50-82 | the expanded specs are exactly those reachable by equivalents and failovers |
| `Planner.VisitIsDepthFirst` | src/providers/candidate-planner.ts:50-82 | specs are expanded depth first: each is the first new one that the nearest spec before it still having one leads to |
| `Planner.DepthFirstIsUnique` | src/providers/candidate-planner.ts:50-82 | there is only one depth-first order of what a spec leads to |
| `Planner.CandidatesMean` | src/providers/candidate-planner.ts:84-98 | a spec has its provider's candidates, a bare model those of its providers in order |
| `Planner.AppendNewPicks` | src/providers/candidate-planner.ts:94-97 | of the candidates those are appended, in order, whose health key neither the chain nor an earlier one has |
| `Planner.ChainBuilder.AppendCandidates` | src/providers/candidate-planner.ts:84-98 | appends the candidates with new health keys, in order |
| `Planner.ChainBuilder.WorkList` | src/providers/candidate-planner.ts:60-81 | equivalents first, then failovers in full form, bare provider names skipped for specs in the index |
| `Planner.ChainBuilder.AppendFailoverChain` | src/providers/candidate-planner.ts:50-82 | ends on every table; expands the depth-first walk and adds the candidates of what it expands |
| `Planner.ChainFacts` | src/providers/candidate-planner.ts:50-98 | the chain has distinct keys, exactly those of reachable specs and of what was put first |
| `Planner.BuildCandidateChain` | src/providers/candidate-planner.ts:34-48 | an active sticky failover's candidates come first, the requested spec's next, then those of every spec it leads to, in depth-first order, no health key twice |
| `Planner.SlashInProviderNameNeverEnds` | src/providers/candidate-planner.ts:74-81 | with a slash in a provider name the walk would meet ever longer specs |
| `Router.KthFailure` | src/providers/health-tracker.ts:29-40 | after k+1 failures in a row a candidate is disabled for min(15000·1.5^k, 600000) and the next delay is the next term |
| `Router.CallsAreSpaced` | src/providers/router.ts:311-317 | in a disciplined history a failed candidate is not called again before its delay is over |
| `Router.DelaysGrow` | src/providers/health-tracker.ts:29-40 | each delay is one and a half times the one before, or the cap |
| `Router.CapIsReached` | src/providers/health-tracker.ts:29-40 | the cap is reached with the tenth growth and not before |
| `Router.ModelHealthTracker.GetHealth` | src/providers/health-tracker.ts:20-27 | the entry is what the history of calls says |
| `Router.ModelHealthTracker.RecordFailure` | src/providers/health-tracker.ts:29-40 | a failure is recorded as the history with that call says, for this candidate alone |
| `Router.ModelHealthTracker.ResetHealth` | src/providers/health-tracker.ts:42-44 | an answer makes the candidate pristine |
| `Router.ModelHealthTracker.ResetModelHealth` | src/providers/health-tracker.ts:46-53 | resets exactly the chain's candidates |
| `Router.HealthAtTurn` | src/providers/router.ts:306-384 | a candidate's health at its turn is its health before the call |
| `Router.StickyIffFailedOver` | src/providers/router.ts:345-368 | the history makes a spec sticky if and only if a failover answered for it and since then neither it answered itself nor was it cleared |
| `Router.KthWindow` | src/providers/router.ts:355-366 | the k-th window since the last recovery lasts the k-th delay |
| `Router.UntriedStays` | src/providers/router.ts:352-356 | a whole chat call that does not try the primary leaves its sticky failover and window as they are |
| `Router.LastCallAnswers` | src/providers/router.ts:306-384 | of the calls of one chat call only the last can be answered, and it is if and only if the chat call is |
| `Router.ModelRouter.NoteAnswer` | src/providers/router.ts:345-368 | keeps the map what the history says: the primary's answer ends the sticky failover; another's sets the next window, unless one exists and the primary was not tried |
| `Router.ModelRouter.Walk` | src/providers/router.ts:306-384 | exactly the usable candidates up to the first answer, refusal or failed search for a key are called, in chain order |
| `Router.ModelRouter.Chat` | src/providers/router.ts:300-397 | the chain, the calls made, how the call ends, an error while a key is resolved included, and health and sticky failovers as the history with those calls says, for every behaviour of providers and clock |
| `Router.ModelRouter.ResetModelHealth` | src/providers/router.ts:416-420 | resets the health of a spec's chain and nothing else |
| `Router.ModelRouter.ClearStickyFailover` | src/providers/router.ts:633-640 | removes one sticky failover, as the history says |
| `Router.ModelRouter.Run` | src/providers/router.ts:300-388 | over any run of calls and resets, the history is that of the operations, one after another; no candidate is called while disabled; a spec is sticky if and only if a failover answered for it and it has not recovered since; its delay is min(30000·1.5^(k-1), 1200000) for the k windows set since then; it stays as it is while its primary is not tried |
| `Equivalence.RelateAll` | src/providers/candidate-planner.ts:114-118 | relates every spec of a list to its others, behind what it had and in their order, keeping earlier relations and no duplicates |
| `Equivalence.BuildModelEquivalenceIndex` | src/providers/candidate-planner.ts:110-120 | symmetric, irreflexive, duplicate-free; relates two specs if and only if one group holds both; the keys are the members; an entry lists the groups' specs in order, primary first |
| `Equivalence.CollectSpecs` | src/providers/router.ts:145-160 | the specs found for a model are those of the providers listing it, one for each list entry |
| `Equivalence.DiscoverModelEquivalents` | src/providers/router.ts:143-179 | relates two specs if and only if they name one listed model; a spec is a key if and only if two list entries name its model, be it in one list; an entry is in the order of the lists |
| `Equivalence.MergeEquivalenceIndexes` | src/providers/candidate-planner.ts:123-130 | the union of both relations and of both key sets, still symmetric, irreflexive and duplicate-free; an entry is the first index's and then what the second adds |
| `Equivalence.BuildIndex` | src/providers/router.ts:93-101 | the router's index relates exactly what groups or listings relate; its keys are the group members and the specs of models listed twice; configured equivalents come first, each kind in its order |
| `Rounds.NextRound` | src/runtime/compaction.ts:91-119 | one round and the messages it takes |
| `Rounds.ParseRounds` | src/runtime/compaction.ts:88-121 | the parse of the history |
| `Rounds.FlattenOfParse` | src/runtime/compaction.ts:88-121 | flattening a parse gives back every history |
| `Rounds.ParseOfFlatten` | src/runtime/compaction.ts:157-159 | parsing flattened atomic rounds gives back those rounds |
| `Rounds.Reparse` | src/runtime/compaction.ts:219-237 | any selection of non-dangling rounds of a parse reparses to itself |
| `Rounds.NoDanglingIffPaired` | src/runtime/compaction.ts:88-121 | a parse has no dangling half if and only if every use is answered by the next message and every answer preceded by its use |
| `Rounds.ParseAppend` | src/runtime/compaction.ts:88-121 | a history parses as its two parts do, unless the first ends in uses that the second's first message answers |
| `Rounds.NothingLooseIffPaired` | src/runtime/compaction.ts:88-121 | no use is unanswered and no result stray if and only if every use is answered by the next message and every answer preceded by its use |
| `Rounds.SelectKeptRounds` | src/runtime/compaction.ts:123-155 | keeps the suffix found by extending from the end to the first overflow; oversized if and only if the last round alone overflows |
| `Rounds.KeptIsLongestFitting` | src/runtime/compaction.ts:135-152 | with additive counting a suffix fits if and only if it lies within the kept one |
| `Rounds.TruncationIsPaired` | src/runtime/compaction.ts:231-237 | the notice with any selected rounds is a well-formed history |
| `Rounds.TruncationEndsCompaction` | src/runtime/compaction.ts:66-72 | after a truncation that kept something and was not oversized, no compaction is due |
| `Rounds.BudgetMeans` | src/runtime/compaction.ts:66-133 | compaction is due above the given percentage of the window; what is kept may come to 1024 tokens less |
| `Rounds.CompactConversation` | src/runtime/compaction.ts:169-239 | the new history and all counters, for a summary and for a fallback |
| `Conversation.ConversationState.RecordReportedInputTokens` | src/agents/conversation-state.ts:98-103 | a report more than a tenth above the estimate sets the running count, any other changes nothing; the count never falls below the true sum |
| `Conversation.ConversationState.PushMessage` | src/agents/conversation-state.ts:105-118 | the parallel lists grow together; an assistant message takes the pending round id, else the current one, else one of its own |
| `Conversation.ConversationState.ReplaceMessages` | src/agents/conversation-state.ts:120-129 | all lists are rebuilt for the new history and the count is exact |
| `Dispatch.GroupsPartition` | src/runtime/dispatcher.ts:108-146 | local, rejected and allowed calls are together the batch, each call once |
| `Dispatch.AllowedRolesAreDistinct` | src/runtime/dispatcher.ts:291-318 | no two positions of a batch with allowed dispatches have the same limited role |
| `Dispatch.ThreeInARowAreFatal` | src/runtime/dispatcher.ts:176-190 | three local calls in a row to unknown tools, none aborted, make the batch throw |
| `Dispatch.OneUnknownIsNotFatal` | src/runtime/dispatcher.ts:176-190 | a single unknown tool is answered with an error |
| `Dispatch.IdsAreAPermutation` | src/runtime/dispatcher.ts:100-164 | a batch whose groups are answered call by call has result ids that are a permutation of the call ids |
| `Dispatch.Dispatcher.ExecuteLocalTool` | src/runtime/dispatcher.ts:167-241 | the third unknown tool in a row throws, a known one resets the counter; the answer is the tool's outcome |
| `Dispatch.Dispatcher.ExecuteDispatchTool` | src/runtime/dispatcher.ts:244-285 | the answer is the child's outcome, an error when there is no spawner or no role |
| `Dispatch.Dispatcher.AnswerLocals` | src/runtime/dispatcher.ts:121-133 | each local call gets its answer, aborted ones an error; throws if and only if a call escapes: an error that is not retryable, or the third unknown tool in a row counted across batches |
| `Dispatch.Dispatcher.Partition` | src/runtime/dispatcher.ts:108-146 | the three groups, each in batch order |
| `Dispatch.Dispatcher.ProcessToolCalls` | src/runtime/dispatcher.ts:100-164 | throws if and only if a local call escapes; else every call, also of equal id and name, gets exactly its one answer by its position, in the order local, rejected, children; the count of unknown tools is carried on, after a throw too |
| `Agent.ExchangeIsPaired` | src/agents/base.ts:237-279 | pushing the uses and then the results of a batch adds nothing unanswered to any history |
| `Agent.ResponseMeans` | src/agents/base.ts:352-453 | the model answers if and only if some attempt does and every one before it failed for a while only or was repaired |
| `Agent.AnswerBecomes` | src/agents/base.ts:214-256 | an answer becomes plain text if there is nothing else, otherwise its reasoning, its text and one use for each call, in order |
| `Agent.ResultsBecome` | src/agents/base.ts:270-279 | a result block for each result, in order, with its id, text and error mark |
| `Agent.MeaningfulMeans` | src/agents/base.ts:553-557 | a batch shows real work if and only if a call other than of the read tool has no error as its first result |
| `Agent.BudgetIsTwentieth` | src/agents/base.ts:515-521 | the budget for one result is the largest within a twentieth of the window |
| `Agent.StashResults` | src/agents/base.ts:515-527 | results over 5% of the context are replaced by a reference to their own file, ids, errors and all others kept; fails if and only if the file of a large one cannot be written |
| `Agent.AdmittedIsBounded` | src/runtime/compaction.ts:77-86 | for every mix of successes and fallbacks at most maxCompactions·maxConsecutiveFallbacks compactions are admitted |
| `Agent.BoundIsReached` | src/runtime/compaction.ts:77-86 | some mix reaches that bound |
| `Agent.Agent.EnteredIsBounded` | src/agents/base.ts:637-655 | the counters bound the compactions of an agent's whole life, whatever its history |
| `Agent.Agent.CompactWithReinjection` | src/agents/base.ts:637-713 | whatever the history was, with unanswered uses or without, it is then the summary, or the notice and the rounds kept, well formed, followed by the knowledge block and the open repair prompt; the counters stay within their measure |
| `Agent.Agent.CallLLM` | src/agents/base.ts:337-455 | from any history: the response is that of the first attempt that is not retried; there is none only if that is no answer or compactions are used up; there is one compaction for each context error before the answer, and what came in after the last is last in the history; a repaired call keeps its round id, and unanswered uses stay exactly if it does not compact |
| `Agent.Agent.DrainChannels` | src/agents/base.ts:725-730 | every message a channel yields becomes a message of the user, in order; it throws if and only if a channel does |
| `Agent.Agent.PrepareCall` | src/agents/base.ts:178-194 | compacts if and only if that is due and allowed, ends the loop if it is due and not allowed, and then reads the channels, whose messages come last |
| `Agent.Agent.TakeTurn` | src/agents/base.ts:172-308 | one iteration: how it ends the loop or that it goes on, its batch, the number of its compactions and of invalid answers in a row; without a compaction it adds exactly what came in, the answer, the results and media and the repair prompt, in that order; after one, what came in last and these end the history |
| `Agent.Agent.RecordInvalidFinalResponse` | src/agents/base.ts:534-551 | asks for repair until the limit, then stops; answers no use and leaves none |
| `Agent.Agent.RunLoop` | src/agents/base.ts:166-309 | whatever model, tools, summarizer, files and user do, and whatever history it starts from: every turn goes on up to the first that ends the loop, in the way reported; it throws in an exchange if and only if that turn's batch, the model's answer run with the count of unknown tools left by the turns before, has a call that escapes or a large result that cannot be written; unanswered uses are those of the start, none after a compaction, and one more if and only if it throws there; without a compaction the history is that of the start and, turn by turn, what came in, the answer, the results as shown, the media and the repair prompt |
| `Agent.Agent.HandleToolCalls` | src/agents/base.ts:234-305 | throws if and only if the dispatcher throws or the file of a large result cannot be written; then the response's use stays unanswered, otherwise its results as shown, the media and a repair prompt follow it |
| `Agent.Agent.Live` | src/agents/chat.ts:136-198 | over any series of loop entries and injected messages, going on after throws, each entry is one run of the loop over its own turns; at most maxCompactions·maxConsecutiveFallbacks compactions are entered, and each unanswered use is owed to one entry that threw; without a compaction the history grows by what the entries and the injected messages add, in order |
| `JsonScan.ScanSpans` | src/parse-llm-json.ts:55-89 | the spans of the scan automaton |
| `JsonScan.SpansOfAnyText` | src/parse-llm-json.ts:55-89 | on any text spans are disjoint, in order, and balanced outside strings for the first time at their end |
| `JsonScan.ReplyIsRecovered` | src/parse-llm-json.ts:55-89 | objects printed as RFC 8259 sections 4 and 7 say, in prose without quotes and opening braces, are found exactly, in order |
| `JsonScan.SlicesAreTheObjects` | src/parse-llm-json.ts:83-86 | the texts cut out are the printed objects |
| `JsonScan.ObjectIsFoundIff` | src/parse-llm-json.ts:55-89 | between any two texts a printed object is found if and only if the text before it ends outside string literals and every brace it opened outside them is closed, stray closing ones aside |
| `JsonScan.DepthIsHeight` | src/parse-llm-json.ts:55-89 | the scanner's depth is the net count of braces outside strings above its lowest value over all prefixes |
| `JsonScan.UnpairedQuoteHidesObject` | src/parse-llm-json.ts:73-76 | one unpaired quote hides the object after it |
| `JsonScan.ExtractJsonCandidates` | src/parse-llm-json.ts:35-92 | the whole message if it starts with a brace, then the fenced bodies, then the texts of the spans, each in order; only a body that repeats the whole message is left out |
| `JsonScan.FencesAreCandidates` | src/parse-llm-json.ts:46-53 | every fenced body is a candidate |
| `JsonScan.FenceOrWholeIsChosen` | src/parse-llm-json.ts:46-108 | if no span parses, the last fenced body that does is chosen; if none does either, the whole message if it starts with a brace and parses |
| `JsonScan.LastParsedIs` | src/parse-llm-json.ts:95-108 | the chosen candidate parses and no later one does; none is chosen only if none parses |
| `JsonScan.LastObjectIsChosen` | src/parse-llm-json.ts:95-108 | of several printed objects the last one is chosen, whatever fences and the whole message hold |
| `JsonScan.ParseLlmJson` | src/parse-llm-json.ts:95-108 | the value of the last candidate that parses |
| `JsonScan.ParseLlmJsonAs` | src/parse-llm-json.ts:118-171 | each failure tag exactly when its case holds; earlier candidates are never retried |
| `Profiles.RankedHasNoCycle` | src/routing/resolver.ts:123-146 | a table whose references fall in rank has no cycle |
| `Profiles.Follow` | src/routing/resolver.ts:127-144 | a walk ends, reaches known profiles, or closes into a real cycle |
| `Profiles.ValidateProfileGraph` | src/routing/resolver.ts:123-146 | reports a cycle if and only if there is one, and what it reports is one |
| `Profiles.CycleMeans` | src/routing/resolver.ts:140-141 | a cycle is profiles each of which names the next, an existing one, the last being the first |
| `Profiles.OverrideIsNearest` | src/routing/resolver.ts:230-242 | overriding one rule by a nearer one keeps nearest-wins, empty lists of preferences not counting |
| `Profiles.NearestWinsMeans` | src/routing/resolver.ts:219-245 | nearest wins: a field has the value of the first rule of the chain that defines it, and none if none does |
| `Profiles.NearestTexts` | src/routing/resolver.ts:231-236 | profile, model, auth profile and account are those of the first rule of the chain that gives them |
| `Profiles.NearestLists` | src/routing/resolver.ts:237-241 | preferences are those of the first rule with any, restrictions those of the first that has one, empty or not |
| `Profiles.ChainIsUnique` | src/routing/resolver.ts:223-228 | a rule has exactly one chain |
| `Profiles.Resolver.ChainOf` | src/routing/resolver.ts:223-228 | in a table without cycles every rule has a chain that ends |
| `Profiles.Resolver.MergeRuleChain` | src/routing/resolver.ts:219-245 | ends for every rule; each field has the value of the nearest rule of its chain that defines it |
| `Profiles.ChainMeans` | src/routing/resolver.ts:223-228 | each rule of a chain names the profile that is next, and the last names none |
| `Profiles.WantedModelsMean` | src/routing/resolver.ts:247-251 | wanted are the model and then the preferred ones, each once, blanks left out |
| `Profiles.RefsMean` | src/routing/resolver.ts:268-310 | references are the account and then the preferred ones, each once, those without a dot completed with the provider; so are the allowed ones, no list or an empty one restricting nothing |
| `Profiles.OnlyAllowedKeeps` | src/routing/resolver.ts:258-261 | filtering keeps the allowed ones in their places and nothing else |
| `Profiles.Resolver.ResolvePreferredModels` | src/routing/resolver.ts:247-266 | wanted models that are allowed, in order; fails exactly when something was wanted and nothing of it is allowed |
| `Profiles.Resolver.ResolvePreferredAccountRefs` | src/routing/resolver.ts:268-310 | explicit accounts that are allowed, the default only when none is left; fails exactly when all are disallowed |
| `Profiles.Build` | src/routing/resolver.ts:112-121 | a resolver exists if and only if the profile graph has no cycle |
| `Knowledge.CreateKeepsLinks` | src/knowledge/sidecar-queries.ts:187-210 | a new record keeps all links in order |
| `Knowledge.SupersedeKeepsLinks` | src/knowledge/sidecar-queries.ts:241-254 | superseding keeps links acyclic, unshared and agreeing in both directions |
| `Knowledge.HeadFacts` | src/knowledge/lifecycle.ts:864-874 | the head of a chain has no present successor, the same kind, and the same scope or the project's |
| `Knowledge.ChainsNeverReturn` | src/knowledge/lifecycle.ts:864-874 | a chain of successors never comes back |
| `Knowledge.SupersedeKeepsNamesIff` | src/knowledge/lifecycle.ts:387-482 | superseding keeps active names unique if and only if no other active record has the new name in its scope |
| `Knowledge.SupersedeCanDuplicateAName` | src/knowledge/lifecycle.ts:387-482 | two active records with one name can result of one supersession |
| `Knowledge.NamesAfter` | src/knowledge/lifecycle.ts:183-482 | every other operation keeps active names unique |
| `Knowledge.NamesOverRun` | src/knowledge/lifecycle.ts:183-482 | over any series of operations active names stay unique throughout if and only if no supersession takes a name another active record has |
| `Knowledge.DuplicateAName` | src/knowledge/lifecycle.ts:387-482 | from an empty store, two creations and a supersession leave two active records with one name |
| `Knowledge.LogOneMore` | src/knowledge/sidecar-queries.ts:307-317 | an operation's audit entry keeps the log replaying to the records |
| `Knowledge.KnowledgeStore.Create` | src/knowledge/lifecycle.ts:183-244 | carried out if and only if the lock is held, a reason is given, the scope reference fits, body, reason and description hold no secret, the body no blocked path, the schema fits and the name is free; then the new record and log entry; otherwise the exact error and nothing changed |
| `Knowledge.KnowledgeStore.Update` | src/knowledge/lifecycle.ts:262-315 | body and log, status kept, or the exact error and nothing changed; of several faults that of the body comes first, its secrets before its paths, then that of the description |
| `Knowledge.KnowledgeStore.Archive` | src/knowledge/lifecycle.ts:317-352 | archived whatever its status was, or the exact error; the status logged as the one before is that of the JSON copy, which is the record's if and only if it was not superseded |
| `Knowledge.KnowledgeStore.Delete` | src/knowledge/lifecycle.ts:354-379 | the record gone, its log kept, or the exact error |
| `Knowledge.KnowledgeStore.Supersede` | src/knowledge/lifecycle.ts:387-482 | carried out if and only if the same checks pass, the old record is there, active, of the same kind and its scope allows it; then both records linked and logged in one step, or the exact error and nothing changed |
| `Knowledge.KnowledgeStore.FindActive` | src/knowledge/sidecar-queries.ts:125-178 | finds an active record of that name in that scope if and only if there is one |
| `Knowledge.KnowledgeStore.ArchiveScopeOf` | src/knowledge/sidecar-queries.ts:277-304 | archives exactly the active records of one kind in the scope |
| `Knowledge.KnowledgeStore.ArchiveScopeForProject` | src/knowledge/lifecycle.ts:1179-1221 | archives exactly the active skills and memories of the scope |
| `Knowledge.KnowledgeStore.WalkSupersedeChain` | src/knowledge/lifecycle.ts:864-874 | ends at the head; the set of seen ids never stops it |
| `Knowledge.KnowledgeStore.GetMemoryById` | src/knowledge/lifecycle.ts:830-862 | the head of a memory's chain, if active |
| `Knowledge.KnowledgeStore.GetMemoryByTopic` | src/knowledge/lifecycle.ts:836-855 | an active memory of the narrowest scope that has one |
| `Knowledge.KnowledgeStore.Run` | src/knowledge/lifecycle.ts:183-819 | over any run with fresh ids: links acyclic and unshared, the log grows and replays, nothing inactive becomes active, identities and set links never change, and active names stay unique exactly when no supersession takes a held one; nothing is ever carried out with an unclean verdict |
| `Plan.SchemaAccepts` | src/types.ts:70-98 | accepts a document if and only if it is sound |
| `Plan.UnitsMean` | src/types.ts:35-44 | an objective is as long as its characters, those beyond the basic plane counting twice |
| `Plan.PreserveStartedAt` | src/mcp/plan-server.ts:127-137 | a stage handed in without a start inherits that of the stage it replaces |
| `Plan.StartsSurvive` | src/mcp/plan-server.ts:193-225 | a started stage handed in again keeps its start if and only if it is handed in without one or with the same one, or blank as the current stage in the instant of its old start |
| `Plan.ReplacedIsSoundIff` | src/mcp/plan-server.ts:193-225 | new stages are accepted if and only if their ids are unique and none is finished |
| `Plan.RemovedKeepsSound` | src/mcp/plan-server.ts:249-263 | removing a stage keeps the document sound and clears it as current |
| `Plan.PlanService.WriteDoc` | src/mcp/plan-server.ts:147-150 | file and cache change together or not at all |
| `Plan.PlanService.PlanInit` | src/mcp/plan-server.ts:408-432 | the first document, or the exact error |
| `Plan.PlanService.PlanSetStages` | src/mcp/plan-server.ts:193-225 | the stages replaced and history kept, or the exact error and nothing changed |
| `Plan.PlanService.PlanAddStage` | src/mcp/plan-server.ts:228-246 | the stage appended; the schema never refuses what the guards let through |
| `Plan.PlanService.PlanRemoveStage` | src/mcp/plan-server.ts:249-263 | that stage removed, the others in their order, the current stage cleared only if it was that one, or the exact error |
| `Plan.PlanService.PlanSetCurrent` | src/mcp/plan-server.ts:266-282 | the current stage set and, unless it had a start, started now, or the exact error |
| `Plan.PlanService.PlanCompleteStage` | src/mcp/plan-server.ts:285-332 | the stage moved to the end of the history with its own start and now as its end, the current stage cleared only if it was that one, or the exact error |
| `Plan.PlanService.PlanAppendHistory` | src/mcp/plan-server.ts:367-396 | a finished stage appended, or the exact error |
| `Plan.PlanService.AssertStageDispatchable` | src/server/agent-orchestrator.ts:288-327 | lets through exactly the non-blank current id |
| `Plan.PlanService.CurrentStageCanComplete` | src/mcp/plan-server.ts:300-303 | the current stage always has a start, so completing it is never refused for lack of one |
| `Plan.PlanService.Run` | src/mcp/plan-server.ts:147-396 | every run keeps the document sound and the current stage started; history grows at its end and is never active again |
| `Redaction.SameGroupsSameText` | src/security/secrets.ts:241-260 | spans that cover and join the same positions redact to the same text and count |
| `Redaction.Redact` | src/security/secrets.ts:241-260 | one mark for each group of overlapping spans, in any order; uncovered characters kept in order |
| `Redaction.Merge` | src/security/secrets.ts:222-233 | sorted, disjoint, covering and joining exactly what the raw spans do |
| `Redaction.MergedIsUnique` | src/security/secrets.ts:222-233 | there is only one such list, so merging is canonical |
| `Redaction.RedactionOfMerged` | src/security/secrets.ts:222-260 | redacting merged spans gives the same text, and the count is their number |
| `StateWriter.RuntimeTracker.Flush` | src/runtime/recovery.ts:322-327 | takes the current state; writes it at once when nothing is being written |
| `StateWriter.RuntimeTracker.Land` | src/runtime/recovery.ts:346-355 | a finished write is followed by the pending snapshot, unless frozen |
| `StateWriter.RuntimeTracker.Fail` | src/runtime/recovery.ts:346-355 | a failed write ends the drain, nothing is being written, and what is pending stays pending |
| `StateWriter.RuntimeTracker.AgentCompactionUpdate` | src/runtime/recovery.ts:277-296 | new counters for a known agent, an error and no change for another |
| `StateWriter.RuntimeTracker.FreezeTracker` | src/runtime/recovery.ts:316-320 | the first freeze counts |
| `StateWriter.RuntimeTracker.Run` | src/runtime/recovery.ts:237-364 | under every interleaving: the state is that of the changes up to the first freeze; one write at a time, in order; idle and unfrozen, the file is current if and only if the last write did not fail; at most one write lands after a freeze |
| `Splitter.HardCutToMax` | src/channels/telegram.ts:137-157 | a non-empty head that fits unless it is one code point; with a monotone length the longest that fits |
| `Splitter.SpansJoin` | src/channels/telegram.ts:78-134 | the spans are the paragraph, cut, none empty |
| `Splitter.FirstSpanMeans` | src/channels/telegram.ts:78-134 | a span is formatted if and only if a pattern matches, the first that does giving its length; else it is text up to the next of four characters |
| `Splitter.TokenizeSpans` | src/channels/telegram.ts:78-134 | ends; at each position the first matching pattern decides, else text up to the next span start |
| `Splitter.Packer.HardCut` | src/channels/telegram.ts:191-203 | an oversized span becomes parts that lose nothing, each one code point or a head that fits, with a monotone length the longest that does |
| `Splitter.AddSpan` | src/channels/telegram.ts:181-221 | a span goes on the current part or begins the next; one that fits neither way begins anew, a formatted one cut by force, text at its blanks, words and blanks that fit placed one by one |
| `Splitter.SplitParagraphIntoAtomicSpans` | src/channels/telegram.ts:159-224 | the parts are the paragraph, cut; each fits unless it is one code point that does not |
| `Splitter.AllPartsFitIff` | src/channels/telegram.ts:159-224 | all parts fit if and only if every code point fits |
| `Splitter.SplitParagraphBlock` | src/channels/telegram.ts:283-322 | every part of an unfenced block is within the same bound, and only blanks are lost or added; where all lines fit, the parts are runs of lines joined by line ends, each ending only where the next line has no room |
| `ToolNames.SearchIsBounded` | src/mcp/external-runtime.ts:268-270 | at most as many suffixes are tried as names are taken |
| `ToolNames.AliasToolName` | src/mcp/external-runtime.ts:264-271 | a free alias: the plain one, else the one with the smallest free suffix |
| `ToolNames.GetAllTools` | src/mcp/external-runtime.ts:122-141 | every tool once, in order; a tool keeps its name if it is free, else it has its service's alias, plain or with the smallest free suffix; names are distinct and unreserved |

## Left out

- IngestRun.RunIngest: the report's counts of deleted chunks and embedded tokens and its times are not modelled; SHA-256 is an injective function; text and line ranges of chunks depend on path and text only; embeddings depend on the normalized text only, which is what the cache key hashes; the embedder does not fail, a failure before a batch's writes being the same as a stop there; the source hash, modification time and caller metadata beside a row are stated where the row is made (`LookUp`) and not followed into the store, nor are the times of a file state.
- Ingest.CompletedIsRebuildIff: rows are compared by path, text, line range and embedding; modification times and caller metadata of unchanged files may be older than a rebuild's.
- Ingest.Store.Upsert: SQLite transactions are taken to be atomic; opening, provider changes, queries and statistics of the store are not modelled.
- Planner.BuildCandidateChain: the tables' lists of candidates and of providers for a bare model are given, already filtered and ordered; the comparators that order them are not modelled.
- Router.ModelRouter.Chat: calls follow one another; two chat calls in flight at once can reset a health record the other still holds. Delays are reals, so rounding is not modelled.
- Router.ModelHealthTracker.RecordFailure: a health record is a value in the map, so sharing of the record object is not modelled.
- Equivalence.MergeEquivalenceIndexes: the order of a map's keys is arbitrary; it does not affect any entry.
- Rounds.CompactConversation: the token counter is any function; additivity is assumed only where a lemma says so. Serialization for the summarizer and its timeout are one outcome.
- Dispatch.Dispatcher.ExecuteLocalTool: the runtime's tool names are taken to be distinct, so the error for a duplicate name does not arise; result texts are abbreviated.
- Agent.Agent.CompactWithReinjection: agents with a before-compaction hook are not covered, since the hook can compact again; the chat agent sets none.
- Agent.Agent.RunLoop: token counters, tool schemas, validators of final answers and callbacks of a compaction are taken not to throw.
- Agent.Agent.CallLLM: retry delays and the retry policy are replaced by any finite series of attempt outcomes.
- JsonScan.ExtractJsonCandidates: trimming and the fence expression are parameters, and so is JSON.parse.
- JsonScan.ParseLlmJsonAs: the detail texts and their cut to 300 characters are not modelled.
- Profiles.Resolver.MergeRuleChain: profile names that collide with built-in object properties are not modelled.
- Knowledge.KnowledgeStore.Run: skills and memories share one model with a kind; secret and path checks, schemas and the lock are verdicts given from outside; timestamps, the JSON copy in a row apart from its status, the reingest mark and the boot upsert of built-in skills are not modelled.
- Plan.PlanService.Run: operations follow one another, as the service's queue has them; git commits, archiving of stage knowledge and the records of stage runs are not modelled.
- Redaction.Merge: field and kind of a match are not modelled, nor are the rules that find matches; matches are not empty.
- Redaction.Redact: for spans that are not empty and lie within the text, as the scanner yields them.
- StateWriter.RuntimeTracker.Run: start times, process id and update times of a snapshot are not modelled; neither is the reset of tasks after a crash.
- Splitter.SplitParagraphBlock: the fenced branch is not covered, because there a line is not checked again; the split at sentence ends is any function that drops blanks only; strings are sequences of code points, so unpaired surrogates are not modelled.
- ToolNames.GetAllTools: the failure window and cooldown of external services are not modelled.
- User notes, the budget split of eager knowledge records and the cache of stage workers are not modelled.
- Network, subprocess, terminal and chat-service code is not modelled.
