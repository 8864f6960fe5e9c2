# Toffee memory engine: a verified model

This project models the memory engine of Toffee in Dafny and proves what its
operations keep. The engine stores memories extracted from an event log, files
contradictions as conflicts instead of overwriting them, keeps an in-memory vector
index beside its SQLite tables, and assembles token-budgeted context packages.

`Domain`, `Tables`, `VectorIndexes` and `Engines` define the state and every operation
as a total function on it, error paths and partial writes included; `Runtimes` gives
the same operations as methods that update the store and the index in place, each
proved to compute its function. What each operation leaves behind is then stated
without naming those functions, field by field: `OperationEffects`, `WorkerEffects`,
`ResolutionEffects`, `SearchEffects`, `MergedSources`, `PackageEffects`,
`ResolverEffects`. On top of that:

- `IndexInvariant`, `IndexCompleteness`, `VectorFidelity`: the side table, the
  embedding rows and the graph agree with the memories over every run.
- `Extraction`: which candidates one event can yield.
- `Conflicts`, `WorkerCoverage`, `ResolutionCoverage`, `StepCoverage`, `Coverage`,
  `AbsorbedContradictions`: what becomes of contradictions.
- `Supersession`, `OneScope`, `MultiScope`: what becomes of the `superseded_by`
  relation, for any scopes, with one scope per memory, and where it fails.
- `ReadPath`, `ReadPathSafety`, `ReadPathLaws`, `HiddenContests`, `MemorySearch`: what
  a package or a search may contain, its budget, what it does not depend on, and
  which contests it leaves out.
- `Checkpoint`, `Attempts`: the worker against crashes, panics and late events.
- `Tailer`, `TailerFailures`: byte offsets over growing files, batches, partial,
  oversize and undecodable lines, restarts.
- `RpcServer`, `RpcClient`, `RpcSession`: request correlation over one connection.
- `Metrics`, `Tune`, `TuningObjective`, `FitnessRange`: the retrieval evaluation and the
  tuning of the scoring weights on it.
- `EntityResolver`, `WholeWord`, `Multiline`, `HashEmbedder`: the algorithmic parts.
  `Utf8` and `Sorting` are shared groundwork.

## Where the code differs from what is promised of it

Each has its exact condition as a lemma; the runs named show that it is reached.

- The repository's DEVELOPMENT.md:270 calls reprocessing idempotent. The worker mints
  a fresh memory id each time (`crates/toffee-runtime/src/worker.rs:217-218`), so
  reprocessing is harmless exactly for discarded candidates
  (`WorkerCoverage.ReplayStoresTwice`, `WorkerCoverage.EventIsHarmless`).
- The repository's README.md:195 promises that a fact is never silently overwritten.
  A contested candidate is absorbed exactly when its links fail, the embedder refuses
  its text or there is no place to file it (`WorkerCoverage.ContestedCandidateCoverage`,
  run: `AbsorbedContradictions.FailedCandidateAbsorbs`); a manual add files no conflict
  (`Conflicts.RememberCoverage`, run: `AbsorbedContradictions.ManualAddAbsorbs`); and a
  merge can contradict a third memory, or fail after it stored a memory that
  contradicts the still active members (`ResolutionCoverage.MergeCoverage`, runs:
  `AbsorbedContradictions.MergeAbsorbs`, `AbsorbedContradictions.FailedMergeAbsorbs`).
- With memories in several scopes, two picks can make a `superseded_by` cycle with no
  active memory left (`Supersession.StepForest`, run: `MultiScope.CycleIsReachable`),
  and a contest can be invisible to a scope that shows both memories
  (`HiddenContests.UnsurfacedIsHidden`, run: `HiddenContests.ContestCanBeHidden`).
- An event appended with a key not above the checkpoint is never processed
  (`Attempts.AttemptedIff`, run: `Attempts.LateEventIsSkipped`).
- A line that is not UTF-8, also a partial last line cut inside a character, drops the
  lines read before it in the same call, those of files read before it for good
  (`TailerFailures.FailedReadLoses`); a complete one stops its source for ever
  (`TailerFailures.StuckFileStopsSource`, run: `TailerFailures.LineBeforeUndecodableIsLost`).
- Non-ASCII text: the whole-word search, the article stripping and the hash embedder
  can slice inside a character and panic, and a name whose Unicode and ASCII
  lower-casings differ cannot be resolved twice (`WholeWord.ContainsWholeWord`,
  `EntityResolver.CleanNamePanics`, `HashEmbedder.PiecesExist`,
  `EntityResolver.CreatedNameFoundAgain`, `EntityResolver.ResolveIsIdempotent`). A panic
  unwinds the worker before it moves the checkpoint
  (`crates/toffee-runtime/src/worker.rs:53-58`), so the event that causes it stops the
  queue for good (`Checkpoint.PanicStopsTheQueue`).
- A call is answered or closed only if the client's reader is running when it is made
  (`RpcSession.CallCompletesIff`); later ones wait for ever.
- A ranking that repeats a relevant id can score an nDCG above one
  (`Metrics.BoundedIffNoExtraHits`, `Metrics.RepeatExceedsOne`).
- Tuning claims to fit the scoring weights with the real read path as its objective
  (`crates/toffee-eval/src/tune.rs:1-6`). Its fitness is computed from vector search
  alone, which never looks at the weights (`crates/toffee-eval/src/retrieval.rs:115-128`),
  so every configuration is equally fit and tuning gives its start back, normalised
  (`TuningObjective.ObjectiveIsConstant`, `TuningObjective.TuneCorpus`).

## Model

| member | source | states |
|---|---|---|
| `IndexCompleteness.IndexAgreesWithMemories` | crates/toffee-runtime/src/lib.rs:190-309 | From a fresh daemon, over every run and every failure: the vector side table names only active memories, each under one seq_id below next_seq with its stored scope and kind; in a run whose operations complete under one model, and in any run whose accepted rows all get their links and embedding, it names exactly the active memories |
| `IndexInvariant.RunKeepsSafe` | crates/toffee-vector/src/index.rs:92-188 | The index invariant (side table = embedding rows of the live model, one row per memory and model, rows only for active memories, next_seq above every key) survives every run of all eight operations, failures and model changes included |
| `IndexInvariant.StepKeepsSafe` | crates/toffee-runtime/src/lib.rs:190-538 | Each single operation keeps the index invariant, in every outcome |
| `IndexCompleteness.StepKeepsComplete` | crates/toffee-runtime/src/lib.rs:190-538 | From a complete index each operation leaves it complete if and only if what it stores gets its links and an accepted embedding, stated on the state and inputs before the call |
| `IndexCompleteness.RunKeepsComplete` | crates/toffee-runtime/src/lib.rs:190-309 | In a run whose accepted rows get their links and embeddings every active memory stays indexed |
| `IndexCompleteness.CompletedLands` | crates/toffee-runtime/src/lib.rs:190-538 | An operation that completes (a drain whose events complete, an add, resolution or rebuild that returns Ok, a restart under the same model) satisfies that condition |
| `IndexCompleteness.RememberKeepsComplete` | crates/toffee-runtime/src/lib.rs:211-238 | After an insert the index is complete if and only if it was before and an accepted row also got its links and its embedding |
| `IndexInvariant.EmbedAndIndexKeepsSafe` | crates/toffee-runtime/src/lib.rs:242-267 | Embedding and indexing a stored active memory keeps the invariant, succeeds exactly when it was indexed or the embedder accepts its text, and touches no other memory |
| `IndexInvariant.UnindexKeepsSafe` | crates/toffee-store/src/embeddings.rs:87-95 | Retiring a memory and dropping its rows and entries keeps the invariant and leaves every other memory indexed as before |
| `IndexInvariant.RebuildRestores` | crates/toffee-runtime/src/lib.rs:295-309 | From any safe state, however incomplete, a rebuild succeeds exactly when the embedder accepts every active memory, and yields a complete index exactly when it succeeds |
| `IndexInvariant.RestartReloads` | crates/toffee-runtime/src/lib.rs:272-291 | Reloading after a restart rebuilds exactly the side table the rows of the live model describe, with next_seq above every stored seq_id, and writes nothing |
| `IndexCompleteness.RestartKeepsComplete` | crates/toffee-runtime/src/lib.rs:272-291 | A restart gives a complete index if and only if every active memory has an embedding under its model; under the same model it gives back the same side table |
| `IndexInvariant.UncontestedCompletes` | crates/toffee-runtime/src/worker.rs:98-147 | A candidate nothing contests is stored and indexed if and only if its id is new, its links succeed and the embedder takes its text |
| `IndexInvariant.WorkerRowPassesCheck` | crates/toffee-runtime/src/worker.rs:192-232 | The worker never trips the schema CHECK (schema.rs:40-43): it stores an episode without a fact, or another kind with the candidate's whole fact; it demotes exactly episodes, incomplete facts and confidences below 0.7 |
| `VectorFidelity.LiveEntriesRankedByOwnText` | crates/toffee-runtime/src/lib.rs:242-309 | Over every run: each live entry has exactly one point in the graph, and its vector is the live model's embedding of the text and fact of the memory it stands for |
| `VectorFidelity.StepKeepsFidelity` | crates/toffee-vector/src/index.rs:109-133 | Each operation keeps graph points distinct and true to the stored rows, stale points included |
| `WorkerCoverage.ReplayStoresTwice` | crates/toffee-runtime/src/worker.rs:217-218 | Processing a candidate again, under the fresh id it gets, leaves the memories as they are if and only if the candidate is discarded; any other, contested or not, is stored twice |
| `WorkerCoverage.ReplayIndexesTwice` | crates/toffee-runtime/src/worker.rs:192-232 | ... and both copies are indexed when its links and its embedding succeed |
| `WorkerCoverage.CandidateMemories` | crates/toffee-runtime/src/worker.rs:98-147 | A candidate changes no memory exactly when it is discarded or its id is taken; otherwise it adds exactly its row, completed or not |
| `WorkerCoverage.EventIsHarmless` | crates/toffee-runtime/src/worker.rs:98-147 | Processing an event, for the first time or again, leaves the memories as they are if and only if all its candidates are discarded |
| `Coverage.NoContradictionAbsorbed` | crates/toffee-runtime/src/worker.rs:98-147 | No contradiction is silently absorbed: in every run of completed drains, forgets, feedback, picks and reject-alls, any two active contradicting memories share one unresolved conflict; and in every run at all, unresolved conflicts on one subject and predicate have disjoint scopes |
| `Coverage.RunKeepsCovered` | crates/toffee-runtime/src/worker.rs:234-300 | The coverage claim as an invariant of a run from any well-formed covered state |
| `Coverage.RunKeepsGrounded` | crates/toffee-store/src/conflicts.rs:94-152 | Over every run: tables stay well formed, stored facts are neither changed, lost nor revived, and open conflicts on one topic keep disjoint scopes |
| `WorkerCoverage.ContestedCandidateCoverage` | crates/toffee-runtime/src/worker.rs:234-300 | A candidate leaves every contradiction covered if and only if its id is taken, nothing contests it, or its links succeed, the embedder takes its text, and an open conflict on its topic meets its scope or its conflict id is new |
| `WorkerCoverage.EventCoverage` | crates/toffee-runtime/src/worker.rs:98-147 | An event, which ends at its first failure, leaves every contradiction covered if and only if that holds of each candidate reached |
| `Extraction.ExtractedAreDistinct` | crates/toffee-runtime/src/extractor.rs:38-161 | Every candidate of an event is a whole fact in the event's own scope, good for promotion, and no two candidates of one event have the same predicate |
| `Extraction.ExtractEffect` | crates/toffee-runtime/src/extractor.rs:38-161 | The candidates of an event are exactly what its patterns yield, with kind, text, subject and predicate per pattern, stated by the user in the event's scope; the general assertion only when nothing else was captured |
| `Extraction.ContestedOnlyByEarlierEvents` | crates/toffee-runtime/src/worker.rs:98-147 | So a candidate is contested only by memories stored before its event |
| `WorkerCoverage.CandidateCompletes` | crates/toffee-runtime/src/worker.rs:98-300 | A candidate that is not discarded completes if and only if its id is new, its links succeed, the embedder takes its text and, when contested, there is a place to file it |
| `Conflicts.RememberCoverage` | crates/toffee-runtime/src/lib.rs:211-238 | A manual add leaves contradictions covered if and only if nothing active contradicts it |
| `ResolutionCoverage.MergeCoverage` | crates/toffee-runtime/src/lib.rs:490-520 | A merge, completed, failed or refused, leaves contradictions covered if and only if it is refused before it stores its memory, nothing active contradicts that memory, or only members of the conflict do and its links and embedding succeed |
| `AbsorbedContradictions.ManualAddAbsorbs` | crates/toffee-runtime/src/lib.rs:211-238 | On a fresh daemon with any embedder, two manual adds leave two active contradicting memories and no conflict |
| `AbsorbedContradictions.MergeAbsorbs` | crates/toffee-runtime/src/lib.rs:490-520 | Two events of one claim each, one drain, one manual add and one completed merge leave the merged memory contradicting an active third, with no open conflict on both |
| `AbsorbedContradictions.FailedMergeAbsorbs` | crates/toffee-runtime/src/lib.rs:490-520 | After the same two events and drain, a merge whose links fail leaves three contradicting active memories, and the still open conflict does not name the third |
| `AbsorbedContradictions.FailedCandidateAbsorbs` | crates/toffee-runtime/src/worker.rs:234-300 | Two events of one claim each, the second contradicting the first and refused by the embedder, leave both active and no conflict |
| `Conflicts.ResolveKeepsCovered` | crates/toffee-runtime/src/lib.rs:457-538 | Picks and reject-alls keep coverage, also when refused or failing |
| `Conflicts.DetectIsContradiction` | crates/toffee-runtime/src/conflict_detector.rs:18-37 | The detector returns exactly the active memories that contradict the candidate |
| `Conflicts.RecordConflictFiles` | crates/toffee-runtime/src/worker.rs:234-300 | Recording a conflict either files candidate and competition under one conflict or fails with the conflicts table unchanged; once the row is remembered it files exactly when an open conflict matches or the minted id is new |
| `Conflicts.FilingIsSound` | crates/toffee-runtime/src/worker.rs:258-292 | Filing keeps scopes on one topic disjoint and contests the candidate with everything that competes with it |
| `Conflicts.ExtendAllEffect` | crates/toffee-store/src/conflicts.rs:125-152 | Extending a conflict adds exactly the given members, once, and touches no other conflict |
| `OneScope.OneScopeForest` | crates/toffee-runtime/src/worker.rs:258-292 | In every run after which all memories carry one scope each: a memory lies in at most one unresolved conflict, members of unresolved conflicts are not superseded, and superseded_by is a forest |
| `Supersession.StepForest` | crates/toffee-store/src/memories.rs:157-173 | For any scopes, a step keeps superseded_by a forest if and only if it is not a pick whose winner's own chain runs into a loser |
| `Supersession.RedirectKeepsForest` | crates/toffee-store/src/memories.rs:157-173 | Redirecting a set of memories to a winner keeps a forest a forest if and only if the winner's chain avoids them |
| `OneScope.OneConflictEach` | crates/toffee-store/src/conflicts.rs:94-121 | Under the one-scope invariant two open conflicts never share a member |
| `OneScope.RunKeepsTidy` | crates/toffee-runtime/src/lib.rs:470-532 | The one-scope invariant holds after every run that stored only memories with one scope |
| `MultiScope.CycleIsReachable` | crates/toffee-runtime/src/lib.rs:470-488 | On a fresh daemon whose embedder takes four texts, four events of one claim each, one drain and two picks leave a superseded_by cycle and no active memory at all |
| `MultiScope.CrossedPicksCycle` | crates/toffee-runtime/src/lib.rs:470-488 | Any two picks of each other's losers in two open conflicts make a cycle |
| `MultiScope.PickEffect` | crates/toffee-runtime/src/lib.rs:470-488 | An accepted pick redirects exactly the other members to the winner and closes exactly that conflict |
| `Domain.ExpandInheritedIsClosure` | crates/toffee-core/src/scope.rs:55-72 | Scope expansion keeps the request as a prefix, adds exactly user:me and global to a non-empty request, and is idempotent |
| `Runtimes.Runtime.EmbedAndIndex` | crates/toffee-runtime/src/lib.rs:242-267 | The method computes the engine step: skip when already embedded, store the row before the index insert, keep the row when the index refuses the dimension |
| `Runtimes.Runtime.InsertMemoryAndLinkEntities` | crates/toffee-runtime/src/lib.rs:211-238 | Row, then links, then embedding; each failure keeps what was written before it |
| `OperationEffects.AddEffect` | crates/toffee-runtime/src/lib.rs:211-267 | An insert is refused for a taken id or a missing fact; otherwise it writes the row, the links, and the embedding of the text with the fact on a line of its own, under the next seq_id in table and index, up to the one that fails; nothing else changes |
| `Runtimes.Runtime.ForgetMemory` | crates/toffee-runtime/src/lib.rs:190-198 | Soft delete, then rows of every model, then index entries; NotFound changes nothing |
| `OperationEffects.ForgetEffect` | crates/toffee-runtime/src/lib.rs:190-198 | One row is marked deleted now, its embedding rows of every model and its side entries are gone, the graph and all other rows stay |
| `Runtimes.Runtime.RecordFeedback` | crates/toffee-runtime/src/lib.rs:175-186 | Adjusts the confidence by the feedback kind and touches nothing else |
| `OperationEffects.FeedbackEffect` | crates/toffee-runtime/src/lib.rs:175-186 | One confidence moves by 0.05, 0.1, -0.15 or -0.4, kept within zero and one; nothing else but the update time changes |
| `Runtimes.Runtime.RetireCompeting` | crates/toffee-runtime/src/lib.rs:470-532 | The loop over competing memories retires each once, stopping at the first missing one |
| `Runtimes.Runtime.CollectSourceEvents` | crates/toffee-runtime/src/lib.rs:608-625 | A merged memory's sources are exactly the union of its members' sources, each once, in the order first seen |
| `Runtimes.Runtime.ResolveConflict` | crates/toffee-runtime/src/lib.rs:457-538 | Pick, merge and reject-all with every refusal and error order of the original |
| `ResolutionEffects.MergeEffect` | crates/toffee-runtime/src/lib.rs:490-520 | A completed merge stores a claim with the conflict's scope, the given text, each part of the fact as given or else the conflict's, the confidence given or 0.95 and the union of the members' sources; every member is superseded by it now and none deleted; that conflict alone is marked merged |
| `ResolutionEffects.MergeCompletes` | crates/toffee-runtime/src/lib.rs:490-520 | A merge completes if and only if its id is new, its fact is whole, its links succeed and the embedder takes its text and fact |
| `ResolutionEffects.PickWinnerEffect` | crates/toffee-runtime/src/lib.rs:470-488 | A pick makes every other member superseded by the winner now, touches no other memory and marks that conflict picked |
| `ResolutionEffects.RejectAllEffect` | crates/toffee-runtime/src/lib.rs:522-532 | Rejecting deletes every member now, supersedes none, and marks that conflict rejected |
| `ResolutionEffects.RefusalEffect` | crates/toffee-runtime/src/lib.rs:457-475 | An unknown or resolved conflict and a winner outside it are refused with nothing changed |
| `Runtimes.Runtime.RebuildIndexes` | crates/toffee-runtime/src/lib.rs:295-309 | Clear rows and index, re-embed every active memory, stop at the first failure |
| `OperationEffects.RebuildEffect` | crates/toffee-runtime/src/lib.rs:295-309 | No earlier embedding row of any model survives a rebuild; the rows there are belong to active memories and hold the live embedding of their text and fact |
| `Runtimes.Runtime.LoadIndexFromStore` | crates/toffee-runtime/src/lib.rs:272-291 | Clear the index and insert the live model's rows under their stored seq_ids |
| `OperationEffects.RestartEffect` | crates/toffee-runtime/src/lib.rs:272-291 | After a restart the graph holds exactly the live model's stored vectors, each once, in seq_id order |
| `Runtimes.Runtime.Open` | crates/toffee-runtime/src/lib.rs:272-291 | Opening stored tables computes the engine's restart |
| `Runtimes.Runtime.RecordConflict` | crates/toffee-runtime/src/worker.rs:234-300 | Insert the candidate, extend the matching unresolved conflict or insert a new one |
| `Runtimes.Runtime.ProcessCandidate` | crates/toffee-runtime/src/worker.rs:104-145 | Discard, demote to episode, promote, or contest, as decided |
| `WorkerEffects.CandidateEffect` | crates/toffee-runtime/src/worker.rs:98-232 | A candidate lighter than 0.4 changes nothing, one with a taken id is refused, and any other stores one row with its own text, scope, sources, weight and time, as a whole fact from 0.7 on and otherwise as an episode without one, and its links |
| `WorkerEffects.CandidateIsEmbedded` | crates/toffee-runtime/src/worker.rs:98-147 | Its text, with its fact if kept, is embedded and indexed exactly when its links and its embedding succeed |
| `WorkerEffects.ContestEffect` | crates/toffee-runtime/src/worker.rs:234-300 | A processed candidate files a conflict exactly when it is kept as a fact and some active memory says otherwise in a shared scope: under the oldest open conflict on its topic, whose members grow by it and all that object, or under a new one with exactly those |
| `Runtimes.Runtime.ProcessEvent` | crates/toffee-runtime/src/worker.rs:98-147 | Candidates in order, stopping at the first failure |
| `WorkerEffects.EventEffect` | crates/toffee-runtime/src/worker.rs:98-147 | A completed event has stored the row of every candidate that is not discarded, and no other |
| `Runtimes.Runtime.DrainOnce` | crates/toffee-runtime/src/worker.rs:60-96 | One batch of at most 64 events past the checkpoint, each followed by its failure note and its checkpoint |
| `WorkerEffects.DrainEventEffect` | crates/toffee-runtime/src/worker.rs:68-92 | Draining an event moves the checkpoint to it either way and notes exactly its failure, with its id and error |
| `WorkerEffects.DrainInTurn` | crates/toffee-runtime/src/worker.rs:68-92 | Events of a batch are drained one after another |
| `WorkerEffects.DrainTakesNext` | crates/toffee-runtime/src/worker.rs:60-68 | A drain takes the next events of the log, 64 at most |
| `OperationEffects.AppendEffect` | crates/toffee-store/src/events.rs:26-50 | A new event goes to the end of the log, one whose id is known is refused with nothing changed |
| `Runtimes.Runtime.DrainUntilIdle` | crates/toffee-runtime/src/worker.rs:24-49 | Draining until a batch is empty terminates with no event behind the checkpoint and the log unchanged |
| `Runtimes.DrainShrinksQueue` | crates/toffee-store/src/worker_failures.rs:55-69 | A non-empty batch leaves strictly fewer events behind the checkpoint; an empty one means there are none |
| `Runtimes.DrainKeepsLog` | crates/toffee-runtime/src/worker.rs:60-96 | Draining leaves the log alone and ends with the last event's key as checkpoint, whatever its events do |
| `Tables.Store.FindUnresolvedConflictForSpo` | crates/toffee-store/src/conflicts.rs:94-121 | The search loop finds the oldest unresolved conflict on the subject and predicate whose scope meets the given one |
| `Tables.Store.InsertMemoryRow` | crates/toffee-store/src/memories.rs:19-50 | Refuses a used id or a non-episode without a full fact (the schema CHECK), otherwise adds exactly that row, active |
| `Tables.Store.SupersedeMemory` | crates/toffee-store/src/memories.rs:157-173 | Points exactly that row at the winner; reports a missing row |
| `Tables.Store.SoftDeleteMemory` | crates/toffee-store/src/memories.rs:144-155 | Marks exactly that row deleted; reports a missing row |
| `Tables.Store.InsertEmbeddingRow` | crates/toffee-store/src/embeddings.rs:30-50 | Takes the next autoincrement seq_id, never one used before |
| `Tables.Store.DeleteEmbeddingsForMemory` | crates/toffee-store/src/embeddings.rs:87-95 | Removes that memory's rows of every model and no others |
| `Tables.Store.ExtendConflictRow` | crates/toffee-store/src/conflicts.rs:125-152 | Adds the id to that conflict's members unless present |
| `Tables.Store.ResolveConflictRow` | crates/toffee-store/src/conflicts.rs:154-170 | Marks exactly that conflict resolved |
| `Tables.Store.SetWorkerCheckpoint` | crates/toffee-store/src/worker_state.rs:53-70 | Replaces the checkpoint |
| `Tables.Store.RecordWorkerFailure` | crates/toffee-store/src/worker_failures.rs:8-29 | Appends one failure row |
| `VectorIndexes.VectorIndex.InsertAt` | crates/toffee-vector/src/index.rs:109-133 | Inserting under a stored seq_id with a compare-and-swap on next_seq: however live inserts race with it, it terminates with next_seq above the seq_id and never moved back; undisturbed, it computes the maximum |
| `VectorIndexes.VectorIndex.Insert` | crates/toffee-vector/src/index.rs:92-104 | A live insert claims the next seq_id, or refuses a wrong dimension unchanged |
| `VectorIndexes.VectorIndex.ForgetMemory` | crates/toffee-vector/src/index.rs:182-188 | Drops exactly the memory's side entries and leaves the graph |
| `VectorIndexes.VectorIndex.Clear` | crates/toffee-vector/src/index.rs:173-179 | Empties graph and side table and resets next_seq |
| `Checkpoint.WorkerProgress` | crates/toffee-runtime/src/worker.rs:28-96 | Over every interleaving of in-order appends, batches, failures and crashes: first attempts are a prefix of the log without gaps, at most one event beyond the checkpoint; each event is attempted at most once plus once per crash, and all attempts together exceed the events reached by at most the crashes; queue depth is the number of events not checkpointed |
| `Checkpoint.PanicStopsTheQueue` | crates/toffee-runtime/src/worker.rs:30-98 | If no attempt of a logged event returns, then whatever arrives and however often the worker is restarted the checkpoint stays before that event, it and all later ones stay in the queue, and no later one is attempted |
| `Checkpoint.CheckpointAdvances` | crates/toffee-store/src/worker_state.rs:53-70 | The checkpoint never moves back, whatever order events arrive in |
| `Checkpoint.LateKeyNeverAttempted` | crates/toffee-store/src/worker_state.rs:75-106 | An event whose key is not above the checkpoint is never attempted in any continuation |
| `Attempts.AttemptedIff` | crates/toffee-store/src/worker_state.rs:75-106 | A logged event is attempted by draining on if and only if it is in the batch in flight and unhandled, or its key is above the last one of the batch; with no batch in flight, if and only if its key is above the checkpoint |
| `Attempts.LateEventIsSkipped` | crates/toffee-runtime/src/worker.rs:60-96 | After two appends between which the clock steps back, the second event is in the log and no continuation attempts it |
| `Checkpoint.EventsAfterIsSlice` | crates/toffee-store/src/worker_state.rs:75-106 | On an in-order log the query returns the next events in log order and the count is what remains |
| `Checkpoint.DrainIsOneBatch` | crates/toffee-runtime/src/worker.rs:60-96 | A drain of the full engine moves log and checkpoint as one uninterrupted batch of the crash machine |
| `ReadPathSafety.ReadContextIsSound` | crates/toffee-runtime/src/read_path.rs:54-228 | Under the index invariant, whatever the graph returns and however the map is walked: only active memories of the requested or inherited scopes at or above the floor, each once in the whole package and in the bucket of its kind; provenance lists claims, decisions, preferences, episodes exactly |
| `PackageEffects.PackageEffect` | crates/toffee-runtime/src/read_path.rs:127-267 | Each bucket holds the best candidates of its kind at or above the floor, by similarity, half a point for a named entity, recency and confidence times their weights, later update first on ties; it respects the cap and its rounded share of the budget unless it is a single memory, and with the best one left out it would not |
| `PackageEffects.ReportEffect` | crates/toffee-runtime/src/read_path.rs:230-267 | Every report entry gives its memory's fused score, similarity, entity match, recency, confidence, sources and source events |
| `PackageEffects.EstimateEffect` | crates/toffee-runtime/src/read_path.rs:193-196 | The token estimate is the sum over all memories in the package |
| `PackageEffects.TokensAddUp` | crates/toffee-core/src/context.rs:55-60 | A text costs a token for every four characters or part of them, and costs add up |
| `ReadPathLaws.EveryRunReadsSoundly` | crates/toffee-runtime/src/read_path.rs:54-228 | The same for every package read after any run of a fresh daemon |
| `ReadPathSafety.MergedItemsEligible` | crates/toffee-runtime/src/read_path.rs:75-125 | All three sources merge only eligible memories; the vector source is safe only by the index invariant, since get_memory returns deleted rows too |
| `ReadPathSafety.ProvenanceMatches` | crates/toffee-runtime/src/read_path.rs:193-227 | The provenance ids are claims ++ decisions ++ preferences ++ episodes |
| `ReadPathLaws.KeptIsLongestPrefix` | crates/toffee-runtime/src/read_path.rs:230-267 | Each bucket is the longest score-order prefix within max_per_kind and its share, the first item kept whatever its size |
| `ReadPathLaws.BudgetsTotal` | crates/toffee-core/src/context.rs:133-151 | With non-negative weights of positive sum the four shares together are within one token below and two above the budget |
| `ReadPathLaws.TokenEstimateWithinBudget` | crates/toffee-runtime/src/read_path.rs:193-196 | The estimate exceeds the budget by at most two tokens unless some bucket is one memory larger than its share |
| `ReadPathLaws.PackageIgnoresWalk` | crates/toffee-runtime/src/read_path.rs:127-183 | When no two candidates of one kind tie in score and update time the package does not depend on hash-map order, nor does its report up to the order in which an entry lists its sources |
| `ReadPathLaws.PackageIgnoresScale` | crates/toffee-core/src/config.rs:48-60 | Multiplying the four weights by one positive factor leaves the package unchanged |
| `ReadPathLaws.ContestedIsSurfaced` | crates/toffee-runtime/src/read_path.rs:185-193 | With one scope per memory, a package of a covered run that shows two contradicting memories lists an unresolved conflict naming both |
| `HiddenContests.SurfacedIff` | crates/toffee-runtime/src/read_path.rs:185-193 | For every state and request: a package lists a conflict naming both memories if and only if an unresolved conflict naming both has a scope that meets the expanded request |
| `HiddenContests.UnsurfacedIsHidden` | crates/toffee-store/src/conflicts.rs:125-152 | Under coverage, the contradictions a package shows without a conflict are exactly those contested only under scopes the request misses |
| `HiddenContests.RoomyShowsEligible` | crates/toffee-runtime/src/read_path.rs:54-228 | With room in every bucket and few enough memories, a package holds every eligible memory at or above the floor |
| `HiddenContests.HiddenContestIsShown` | crates/toffee-runtime/src/read_path.rs:54-228 | So every hidden contest between eligible memories is actually shown uncontested by such a request |
| `HiddenContests.ContestCanBeHidden` | crates/toffee-store/src/conflicts.rs:125-152 | With several scopes coverage is not enough: four events of one claim each and one drain after boot, a request is answered, whatever its neighbours and anchors, with a package that holds two contradicting memories and no conflict naming both |
| `Runtimes.Runtime.AllocateBucket` | crates/toffee-runtime/src/read_path.rs:230-267 | The greedy loop takes exactly the specified prefix and reports exactly what it takes |
| `Runtimes.Runtime.MergeSources` | crates/toffee-runtime/src/read_path.rs:61-125 | The three merge loops compute the merged items |
| `MergedSources.MergedItemsExactly` | crates/toffee-runtime/src/read_path.rs:61-125 | A memory is merged if and only if a returned neighbour stands for it in scope, or it is in scope and among the 16 newest active memories of a named entity or the 32 newest of all; its item names exactly the sources that bring it in and its best neighbour's similarity |
| `MergedSources.TakeIsAmongNewest` | crates/toffee-store/src/memories.rs:76-104 | The first n rows newest first are those with fewer than n newer ones |
| `Runtimes.Runtime.WalkItems` | crates/toffee-runtime/src/read_path.rs:127-149 | Walking the map visits every item once, in some order |
| `Runtimes.Runtime.ReadContext` | crates/toffee-runtime/src/read_path.rs:54-228 | The method returns the package of the order in which it happened to walk the map |
| `MemorySearch.OverFetchIsBruteForce` | crates/toffee-runtime/src/lib.rs:314-347 | With an exact ranking, over-fetch then post-filter equals brute force if and only if the window holds enough matches or no live match lies beyond it, stale points notwithstanding |
| `MemorySearch.WholeRankingIsBruteForce` | crates/toffee-vector/src/index.rs:138-169 | In particular when the window covers the ranking |
| `MemorySearch.BruteForceIsBest` | crates/toffee-vector/src/post_filter.rs:27-44 | Brute force returns live matches in descending similarity, and a live match left out loses to a full page |
| `MemorySearch.SearchIsSound` | crates/toffee-runtime/src/lib.rs:314-347 | Under the index invariant, search returns one active memory for every hit kept, in an expanded scope and of the requested kind |
| `SearchEffects.SearchFinds` | crates/toffee-runtime/src/lib.rs:314-347 | A search returns, in ranking order, the first limit wanted neighbours among the best max(5 * limit, 20), each with its stored memory and similarity |
| `SearchEffects.SearchFindsBest` | crates/toffee-runtime/src/lib.rs:314-347 | Those are the first wanted of the whole ranking when it fits that window or the window holds enough of them |
| `Tailer.ManyReadsEqualOne` | crates/toffee-tap/src/sources/claude_code.rs:89-143 | Over any interleaving of discovery, growth, capped reads and restarts without a failed read: each file's delivered lines are exactly its complete non-oversize lines up to the offset, once and in order; the offset is 0 or just past a newline and the saved one lags it only over oversize lines |
| `Tailer.StepConserves` | crates/toffee-tap/src/sources/claude_code.rs:89-143 | Every step but a failed read conserves every file |
| `TailerFailures.FailedReadLoses` | crates/toffee-tap/src/sources/jsonl_tail.rs:64-119 | A call fails if and only if some file has an undecodable line before the cap. It then loses what it took from the files up to the first such one, stated by that line; a restart brings back that file alone |
| `Tailer.PumpConserves` | crates/toffee-tap/src/sources/claude_code.rs:95-141 | Reading one file and advancing its registry entry line by line conserves that file |
| `Tailer.ReadFromCollects` | crates/toffee-tap/src/sources/jsonl_tail.rs:64-119 | One capped read stops at a line boundary and collects exactly the kept lines between its offsets |
| `Tailer.ReadFromExhausts` | crates/toffee-tap/src/sources/jsonl_tail.rs:64-119 | A read returns at most the cap, and fewer only when no complete line is left |
| `TailerFailures.ReadFailsIff` | crates/toffee-tap/src/sources/jsonl_tail.rs:64-119 | A read fails if and only if some undecodable line, complete or the partial last one, has fewer lines worth keeping before it than the cap leaves room for |
| `TailerFailures.ReadFailsAt` | crates/toffee-tap/src/sources/jsonl_tail.rs:64-119 | ... in which case it stops at the first undecodable line |
| `TailerFailures.UnblockedRunsConserve` | crates/toffee-tap/src/sources/claude_code.rs:89-143 | A run from no files has no failed read if and only if no file has such a line whenever the source is read, and then conserves every file |
| `TailerFailures.StuckFileStopsSource` | crates/toffee-tap/src/sources/claude_code.rs:89-143 | Once a file has a complete undecodable line within reach, no further line of any file is delivered by any continuation, restarts included |
| `TailerFailures.LineBeforeUndecodableIsLost` | crates/toffee-tap/src/sources/jsonl_tail.rs:64-119 | One file of two lines, the second not UTF-8: the first is read, and no continuation ever delivers it |
| `Tailer.JsonlTailer.ReadAvailableLines` | crates/toffee-tap/src/sources/jsonl_tail.rs:64-119 | The read loop: rotation and truncation start over, a partial last line stays unread, oversize lines are skipped but passed, an undecodable line drops the batch with the offset advanced |
| `Tailer.JsonlTailer.OpenWithRegistry` | crates/toffee-tap/src/sources/jsonl_tail.rs:38-61 | A tailer resumes at the registry's offset when inode and size allow, else at 0 |
| `Tailer.Registry.Advance` | crates/toffee-tap/src/registry.rs:97-109 | Moves one known entry's offset and ignores unknown paths |
| `Tailer.AdvanceOver` | crates/toffee-tap/src/sources/claude_code.rs:95-141 | The per-line loop leaves the registry at the last line's offset whether or not lines hold turns |
| `Tailer.PumpFile` | crates/toffee-tap/src/sources/claude_code.rs:95-141 | Reading a file through its tailer and advancing its registry entry moves offset, saved offset and delivered lines as one pump, and touches no other entry |
| `Tailer.ReadNext` | crates/toffee-tap/src/sources/claude_code.rs:89-143 | One call over all tailers, stopping at the first failed read, leaves every offset and saved offset as the pumps do, so the conservation laws are about it; it returns the turns of all lines or nothing |
| `Tailer.TurnsInOrder` | crates/toffee-tap/src/sources/claude_code.rs:103-141 | Turns come line by line, one for a line that parses and none for another |
| `TailerFailures.LineEffect` | crates/toffee-tap/src/sources/jsonl_tail.rs:84-110 | A line runs to the first newline, loses the newlines and carriage returns at its end, and is kept unless more than a mebibyte is left |
| `TailerFailures.BatchEffect` | crates/toffee-tap/src/sources/jsonl_tail.rs:84-119 | One read gives at most 256 kept lines, and fewer without an error only when no complete line is left |
| `RpcSession.CallSeesItsOwnAnswer` | crates/toffee-client/src/lib.rs:406-498 | In every interleaving of calls, writes, replies, notes and close: a call that completes was closed, failed to write, or sees the answer of the one exchange that served its own request |
| `RpcSession.OutcomeIsFinal` | crates/toffee-client/src/lib.rs:406-441 | A call completes at most once |
| `RpcSession.ExitClosesPending` | crates/toffee-client/src/lib.rs:490-497 | Reader exit closes every call then pending: whatever follows, it can only end closed or with its own write error, and ends when next scheduled |
| `RpcSession.CallCompletesIff` | crates/toffee-client/src/lib.rs:406-441 | A call whose request is written, whatever happens between registering and writing it, can complete if and only if the reader is running when the call is registered |
| `RpcSession.WaiterCompletesIff` | crates/toffee-client/src/lib.rs:406-441 | Once the reader has gone, a waiting call can complete if and only if its channel holds a reply or was dropped |
| `RpcSession.MadeWaits` | crates/toffee-client/src/lib.rs:406-441 | A call just written waits on an empty channel registered under its id, whether or not the reader is running |
| `RpcServer.Dispatch` | crates/toffee-rpc/src/server.rs:235-300 | A request is answered if and only if it carries an id, with that id and with result xor error (sections 4.1 and 5 of JSON-RPC 2.0) |
| `RpcServer.ServeEffect` | crates/toffee-rpc/src/server.rs:139-300 | What each event puts on the wire: the handler's answer, or error -32600 for another version and -32601 for an unknown method, to a request with an id; nothing for one without; the note of a notification; -32700 and the end for what cannot be read; the end after a failed write |
| `RpcServer.AnswersOnceInOrder` | crates/toffee-rpc/src/server.rs:139-186 | The replies on the wire are the answers owed to the requests with ids, each once, in arrival order; only the last can be missing, when its write failed |
| `RpcServer.OnlyParseErrorsLackAnId` | crates/toffee-rpc/src/server.rs:139-186 | A reply without an id is a parse error and the last frame of its connection |
| `RpcServer.HandleConnection` | crates/toffee-rpc/src/server.rs:139-186 | The connection loop writes exactly the specified frames for any events and write failures |
| `RpcClient.AnswerSurvivesTheWire` | crates/toffee-client/src/lib.rs:434-441 | The caller gets back the handler's value or error, null results included |
| `RpcClient.Connection.ReaderLoop` | crates/toffee-client/src/lib.rs:443-498 | The reader loop delivers each frame and then drops every sender left |
| `RpcClient.CallEffect` | crates/toffee-client/src/lib.rs:406-432 | A call gets the next id, an empty channel and a pending place, and loses that place when its request cannot be written, so that no reply reaches it |
| `RpcClient.DeliverEffect` | crates/toffee-client/src/lib.rs:443-490 | A reply with a pending id ends that call's wait with its error or result, a null read as none, and any other reply changes nothing |
| `RpcClient.NotesEffect` | crates/toffee-client/src/lib.rs:443-490 | Pushed notes reach the subscribers, all of them and in order |
| `RpcClient.Connection.BeginCall` | crates/toffee-client/src/lib.rs:406-420 | Registering claims the next id and an empty channel under it |
| `RpcClient.Connection.StartCall` | crates/toffee-client/src/lib.rs:406-432 | A call stays registered under its fresh id only if its request could be written |
| `Metrics.NdcgRange` | crates/toffee-eval/src/metrics.rs:44-63 | For a duplicate-free ranking and any positive strictly decreasing discount, nDCG@k is in [0,1], and is 1 exactly when the first min(relevant, k) positions exist and are relevant |
| `Metrics.RecallRange` | crates/toffee-eval/src/metrics.rs:31-41 | Recall@k is in [0,1], and is 1 exactly when every relevant id is among the first k |
| `Metrics.ReciprocalRankEffect` | crates/toffee-eval/src/metrics.rs:21-28 | One over the rank, from one, of the first relevant id, zero without one |
| `Metrics.EarlierIsBetter` | crates/toffee-eval/src/metrics.rs:44-63 | Ranking a relevant id before an irrelevant one instead of after it strictly raises nDCG |
| `Metrics.RecallEffect` | crates/toffee-eval/src/metrics.rs:31-41 | For a duplicate-free ranking recall@k is the share of the relevant ids found among the first k |
| `Metrics.RepeatExceedsOne` | crates/toffee-eval/src/metrics.rs:44-63 | For any ranking that starts with every relevant id there is room for, nDCG@k is at least 1, and exceeds 1 exactly when the first k positions name a relevant id once more |
| `Metrics.NdcgBounded` | crates/toffee-eval/src/metrics.rs:44-63 | For any ranking whose first k positions hold no more relevant entries than min(relevant, k), repeats or not, nDCG@k is in [0,1], and is 1 exactly for a perfect one |
| `Metrics.BoundedIffNoExtraHits` | crates/toffee-eval/src/metrics.rs:44-63 | Those are exactly the rankings whose nDCG@k stays within 1 under every decreasing discount |
| `Tune.Run` | crates/toffee-eval/src/tune.rs:39-99 | On success the best fitness is the objective at the un-normalised best point, no lower than the start, on the grid; either no single grid change beats it by more than the tolerance, or every pass gained more than the tolerance; a scale-invariant objective keeps its value under normalising; under a constant objective nothing moves and the first pass is the last; it fails only when an evaluation fails |
| `Tune.Pass` | crates/toffee-eval/src/tune.rs:57-85 | A pass that improves nothing has checked all 92 grid changes of the point it ends at |
| `Tune.LocalOptimumEffect` | crates/toffee-eval/src/tune.rs:36-85 | At a local optimum no weight set to a multiple of 0.05 up to one and none of the eight half-lives gains more than 1e-9 |
| `Tune.NormalizedIsScaled` | crates/toffee-eval/src/tune.rs:103-111 | Normalising scales the weights by one positive factor to sum 1 |
| `TuningObjective.ObjectiveIsConstant` | crates/toffee-eval/src/retrieval.rs:92-128 | The fitness tuning maximises, half mean reciprocal rank and half nDCG over vector searches of seeded daemons, is the same for every configuration |
| `TuningObjective.ScoresIgnoreScoring` | crates/toffee-eval/src/retrieval.rs:104-172 | Of a corpus's scores only the package recall depends on the configuration |
| `TuningObjective.TuneCorpus` | crates/toffee-eval/src/tune.rs:39-99 | Tuning fails exactly when scoring the start does, and otherwise gives the start back, normalised, after one pass and without gain |
| `TuningObjective.NormalizingKeepsScores` | crates/toffee-eval/src/tune.rs:101-111 | Normalising the weights changes no score of the corpus, package recall included |
| `FitnessRange.FitnessInUnit` | crates/toffee-eval/src/retrieval.rs:115-128 | When no case has two seeds with one text or one id and the graph returns each point once and best first, the fitness lies in [0,1] |
| `FitnessRange.RankingHasNoDuplicates` | crates/toffee-eval/src/retrieval.rs:115-126 | ... because then the ids ranked from a search never repeat |
| `FitnessRange.FitnessEffect` | crates/toffee-eval/src/tune.rs:16-19 | The fitness is the midpoint of mean reciprocal rank and mean nDCG, and is 1 exactly when every case scores full marks |
| `FitnessRange.CaseEffect` | crates/toffee-eval/src/retrieval.rs:104-128 | A case is scored on the first ten hits of a search in its scopes |
| `FitnessRange.PackageRecallEffect` | crates/toffee-eval/src/retrieval.rs:130-172 | The package recall of a case is the share of its relevant ids shown in the package read under the configuration |
| `FitnessRange.RankedInOrder` | crates/toffee-eval/src/retrieval.rs:122-126 | Hits become corpus ids by their text, in order, unknown texts dropped |
| `WholeWord.ContainsWholeWord` | crates/toffee-runtime/src/entity_resolver.rs:127-150 | The search terminates; it panics if and only if the needle starts with a multi-byte character and its first occurrence is rejected; otherwise it is true exactly when some occurrence has no word character on either side |
| `WholeWord.SearchDecides` | crates/toffee-runtime/src/entity_resolver.rs:127-150 | The same from any start, as used by the text scan |
| `EntityResolver.ResolveKeepsUnique` | crates/toffee-runtime/src/entity_resolver.rs:26-65 | Resolution keeps lower-cased names of live entities unique, only adds rows and returns no id twice |
| `ResolverEffects.ResolveEffect` | crates/toffee-runtime/src/entity_resolver.rs:26-65 | A resolving call gives the entities of subject and object, each once, and then every other live entity whose name or alias the lower-cased text has as a whole word, longest name first |
| `ResolverEffects.NameEffect` | crates/toffee-runtime/src/entity_resolver.rs:67-96 | Eighteen stop words and names under two bytes stand for nothing; a known name, or else a known alias, for its entity; any other is created unless its id or lower-cased name is taken |
| `ResolverEffects.CleanEffect` | crates/toffee-runtime/src/entity_resolver.rs:98-125 | Cleaning takes off the space around a name, one leading article and the punctuation at its end |
| `EntityResolver.ResolveIsIdempotent` | crates/toffee-runtime/src/entity_resolver.rs:26-96 | After a first call that resolves, a second one returns the same ids and adds nothing if and only if the two lower-casings agree on every name, subject or object, that the first call created |
| `EntityResolver.CreatedNameFoundAgain` | crates/toffee-store/src/entities.rs:39-73 | A created name is found again if and only if Unicode and SQLite's ASCII lower-casing agree on it; otherwise resolving it again fails on the unique index |
| `EntityResolver.CleanNamePanics` | crates/toffee-runtime/src/entity_resolver.rs:98-125 | Cleaning a name panics if and only if a character of the trimmed name lies across its second or fourth byte, or across its third with no "a " to strip first; never for ASCII |
| `EntityResolver.EntityTable.ResolveMention` | crates/toffee-runtime/src/entity_resolver.rs:26-65 | The loops with their ids and seen set compute the specified ids and rows, and even a failure only adds rows and keeps names unique |
| `EntityResolver.EntityTable.ResolveOrCreate` | crates/toffee-runtime/src/entity_resolver.rs:67-96 | Stop words and short names are ignored, known names found, others inserted unless the unique index refuses |
| `Multiline.StreamRoundTrip` | crates/toffee-tap/src/sources/stdin.rs:88-93 | Joining the emitted records and the final flush with newlines gives the lines joined with newlines |
| `Multiline.RecordsStartAtBoundaries` | crates/toffee-tap/src/multiline.rs:52-70 | A prefix line occurs only at the start of a record, and a record that does not start with one follows a record flushed for its size |
| `Multiline.RecordsConserveLines` | crates/toffee-tap/src/multiline.rs:52-79 | The records partition the lines in order |
| `Multiline.RecordsEffect` | crates/toffee-tap/src/multiline.rs:52-79 | Lines without the prefix follow one another in a record until it reaches the limit; any other line, and one after a record that reached it, starts the next; without a prefix every line does |
| `Multiline.MultilineAccumulator.PushLine` | crates/toffee-tap/src/multiline.rs:52-70 | The buffer method emits and keeps exactly the specified groups |
| `Multiline.Accumulate` | crates/toffee-tap/src/multiline.rs:52-79 | Feeding a stream through the object and flushing emits its records |
| `HashEmbedder.PiecesExist` | crates/toffee-vector/src/embedder.rs:95-106 | A token embeds if and only if it takes at most three bytes, or whole characters make up its first three and its last three bytes; ASCII always does |
| `HashEmbedder.AccentedWordPanics` | crates/toffee-vector/src/embedder.rs:95-106 | An ordinary accented word makes the embedder slice inside a character |
| `HashEmbedder.WeightOfPermutation` | crates/toffee-vector/src/embedder.rs:64-93 | Permuting tokens leaves the unnormalised vector unchanged |
| `HashEmbedder.WeightOfConcat` | crates/toffee-vector/src/embedder.rs:64-93 | The vector of two token lists together is the sum of their vectors |
| `HashEmbedder.TokenEffect` | crates/toffee-vector/src/embedder.rs:64-106 | A token adds two halves, and its first and last three bytes, or a short token once more, one half each, to the bucket their hash selects, signed by its 33rd bit |
| `HashEmbedder.HashEffect` | crates/toffee-vector/src/embedder.rs:108-115 | The hash is 64-bit FNV-1a, byte after byte |
| `HashEmbedder.TokensEffect` | crates/toffee-vector/src/embedder.rs:50-54 | A character that is not alphanumeric separates tokens; a run of characters that are is one token, lower-cased |
| `Utf8.EncodeEffect` | crates/toffee-vector/src/embedder.rs:64-70 | A character's bytes are its UTF-8 encoding: as many as its code needs, six bits in each continuation (section 3 of RFC 3629) |
| `Utf8.LowerAsciiEffect` | crates/toffee-vector/src/embedder.rs:50-54 | Lower-casing changes the 26 ASCII capitals and nothing else |
| `HashEmbedder.EmbeddingIgnoresCase` | crates/toffee-vector/src/embedder.rs:50-54 | Texts that differ only in ASCII case have the same tokens and vector |
| `HashEmbedder.Accumulate` | crates/toffee-vector/src/embedder.rs:64-93 | The nested loops panic exactly when some token cannot be sliced, or the dimension is zero and there is a token, and otherwise fill every bucket with its weight |

## Left out

- SQLite itself, JSON row encodings and RFC 3339 text: tables are maps and sequences, timestamps are ordered integers, identifiers are naturals; two memories' ids are compared as numbers where the tables order them as text.
- The HNSW graph search: a search takes the neighbours the graph returned as an input, so recall of the approximation is not modelled.
- Embedders other than the hash embedder, and its normalisation: an embedder is a function of the text that may refuse it; transient failures of the same text are not modelled.
- Floating point: scores, weights and confidences are reals, recency decay is an arbitrary function, hash amounts are counted in halves.
- The `entities` column of a memory row: links between memories and entities are modelled by the link table alone.
- Candidate extraction: what the patterns capture in an event's text is an input of the extractor, whose candidates, with the ids and clock readings minted for them, are inputs of a drain.
- Runtimes.Runtime.InsertMemoryAndLinkEntities: the entity resolver's answer, or its failure, is an input of an insert, because the resolver is modelled on its own.
- Runtimes.Runtime.ReadContext: the entities matched to the query and the neighbours the graph returned for its embedding are inputs of a read.
- The provenance cache ring buffer, worker status beyond the queue depth, and why-memory reports: they would only add easy members.
- Rendering a package as markdown, entity pages, the CLI and the MCP server: formatting.
- Broadcast lag of notifications, `select!` cancellation inside a frame and cancelled calls: reading or writing one frame is one step.
- Codex sources and rotation of a file followed by a restart: only in-process rotation and the Claude source are modelled, and a line parser is an arbitrary function.
- The order in which files are discovered: it is an input.
- Precision and F-scores, the bucket ratio and the misses of the evaluation: small arithmetic.
- TuningObjective: the graph of a seeded daemon returns the same neighbours each time a case is evaluated; the randomness of building it is not modelled.
- Bounds of machine integers: seq_ids, request ids and offsets do not wrap; a file of more than 2^64 bytes is out of reach.
- Threads: operations are atomic per public call or per event, so two threads inside one operation are not interleaved; only the race on next_seq is (`VectorIndexes.VectorIndex.InsertAt`).
- ReadPath: the order in which a report entry lists its sources, which the original takes from a hash set, is not modelled; an entry has a set of sources.
