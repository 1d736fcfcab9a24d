# GroundedOps: verified models

Dafny models of the algorithms and protocols of GroundedOps, and proofs of what they promise
over every input, every run and every interleaving. `dafny verify dfyconfig.toml` checks the
whole project.

| Part | Modules | Main results |
|---|---|---|
| Parsing and chunking | `Text`, `Parser`, `Chunker` | Sections and chunks tile the text and conserve it, its tokens and its provenance; the greedy merge is optimal, also around oversized sections; parsing normalized text again changes nothing. |
| Investigation | `Investigation`, `StopReasons`, `Workflow`, `Interleaving`, `ToolCalls` | A run ends within five advances and within every budget, and why it stops is exact; a completed one carried out its plan exactly. Concurrent workers and cancellations leave one linear history; every call made is accounted for, also of steps that lose their save. |
| Ingestion | `Ingestion`, `Worker` | Duplicate, failing and crashing deliveries: at most four claims, no illegal transition, each stage once and in order, promotion exactly on completion. |
| Documents and index | `Documents`, `Replay`, `LiveIndex` | Promotions converge in any order. When a rebuilt index agrees with the tables, and when the live one does though any request may fail, exactly. |
| Quotas | `Quotas`, `QuotaRows`, `QuotaLedger` | The two backends simulate each other. In both, counters are the outstanding leases, and any window-long span grants at most twice the limit. |
| Ask | `Policy`, `Evidences`, `Packer`, `Answering`, `Verifier`, `AskSession`, `AskProtocol`, `SessionEnds`, `AskReader` | From the retrieved evidence to the browser: packing, grounded deltas, one final event, which one exactly, verified answers, framing under any chunking. |
| Retrieval, cache, breaker | `Fusion`, `Cache`, `Breaker`, `Ordering` | Rank fusion is a strict ranking by exact scores. Cached and uncached services agree over an untrusted backend. The breaker limits probes under overlapping attempts. |

Code that changes state step by step is imperative here too. Each method is proved equal to a
specification function, and the theorems are about that function. Concurrent parts are state
machines whose actions are the atomic steps of the code: one read, computation, save, claim,
transaction, lock section. The one larger action is the preparation of a version in `LiveIndex`: its
requests may break off anywhere, but no other step of the same document comes between them, because
the run's transaction takes the document's row for update in `submit`
(`src/modules/ingestion/pipeline.py:219`, `src/adapters/postgres/ingestion_repository.py:84-88`)
before its upsert and holds it to its end; promotions and deletions of the document wait for the row,
and steps of other documents touch other chunks and rows.

## What the proofs found

Where a promise does not hold of the code as it is, the code is kept, the exact condition is
proved for all inputs, and a lemma shows one input that fails.

- **Replay and empty documents.** A version without chunks is skipped
  (`src/modules/indexing/replay.py:97-98`), so its predecessor keeps the current flag.
  `Replay.ReplayAgrees`: the rebuilt index agrees if and only if the current version has chunks or
  no completed version has any. Input: `Replay.EmptyCurrentVersionLeavesOldFlag`.
- **The live index flags before the tables decide, in several requests.** A stage prepares and
  flags a version's chunks before the guarded promotion
  (`src/modules/ingestion/pipeline.py:275-276`), and a rolled-back transaction leaves them. The
  bulk, the clean-up and the two flag updates (`src/adapters/opensearch/index_writer.py:75-133`)
  may each raise with any part of their effect; then the job is saved as retrying or failed
  (`src/modules/ingestion/pipeline.py:285-286`) and the index stays half done. At any time the
  flags of at most one version of a document stand, and some of its chunks may be bare, rewritten or
  unflagged since (`LiveIndex.RunKeeps`). `LiveIndex.LiveAgrees`: the index agrees on a document if
  and only if the standing version is the current one and none of its chunks is bare, or they differ, the
  standing one, if any, has only bare chunks, and the current one, if any, none in the index. A preparation that
  comes to its end settles the document: `LiveIndex.CompleteSettles`, it agrees if and only if the
  prepared version is current. `LiveIndex.IngestedAgree`: for complete deliveries one after the
  other, if and only if the last one is the latest. Inputs: `LiveIndex.LateOldVersionTakesFlag`, an
  old version that arrives after a newer one, and `LiveIndex.BrokenOffHidesCurrent`, an upsert that
  stops between the two updates and leaves the current version unflagged.
- **A session may break off without a final event.** `build_grounded_draft` builds the usage
  after its guarded checks (`src/modules/answering/generator.py:339-389`), so a completed, well
  grounded response with a blank model name or a negative count raises an error that
  `_events` does not catch. `AskProtocol.BreaksOff` is exact. Input:
  `AskProtocol.BlankModelBreaksOff`.
- **The reader's size limit depends on chunk boundaries.** It looks only at what is unfinished
  after each chunk (`web/lib/ask.ts:92`). `AskReader.ChunksDoNotMatter`: chunking does not matter
  if and only if no chunk leaves more than the limit unfinished. Input:
  `AskReader.LongLineDependsOnChunks`.
- **Sources can name a twin.** The verifier asks about the first evidence item of a cited
  identity, while the source list holds every item of it. `AskProtocol.SourcesAreReadable`: all
  cited items are readable if and only if items of one cited identity are readable alike. Input:
  `AskProtocol.TwinIsListed`, where both items could be read at retrieval and the twin lost its
  permission before verification. The retriever of the deployed service
  (`src/grounded_ops/runtime.py:194-197`) returns only what it authorizes, and no two hits of one
  index share a chunk identifier, so the twin needs another retriever as well;
  `AskProtocol.AuthorizedSourcesAreReadable`: with a retriever that authorizes, and permissions
  that last until verification, every source is readable.
- **Swapping retrieval legs** can change the result when both legs give the same identity for
  different documents. `Fusion.SwapChangesNothing` is exact. In one index a chunk and version name
  one document, so legs over the same index cannot (`Fusion.SameReferencesAgree`); the input,
  `Fusion.SwapCanMatter`, needs retrievers over different stores.
- **Quota backends and the clock.** With a clock that does not go back the backends decide alike.
  `QuotaRows.DecisionsAtAnyTime`: after such a run, for a request at any time, they decide alike if
  and only if, whenever a requested scope is blocked in the rows, some blocked one is still in
  that window in memory; memory never denies what the rows grant. Input:
  `QuotaRows.ClockMustNotGoBack`, reached from empty tables. The reasons of denials differ too
  (`QuotaRows.DenialReasons`, exact; input: `QuotaRows.ReasonsDiffer`, reached from empty tables),
  and with no scopes, which no caller passes, the rows grant (`QuotaRows.NoScopesAreGranted`).
- **An abandoned half-open probe blocks the breaker for good** exactly when no other attempt is
  inside (`Breaker.AbandonedProbeBlocks`); a closed generator records neither success nor failure.
  Input: `Breaker.ProbeAbandoned`.
- **A failed job can keep a checkpoint.** Queued and completed jobs have none, retrying jobs have
  one, and a failed job has one if and only if it failed with a worker error
  (`src/adapters/postgres/ingestion_repository.py:341-349`): part of the invariant of
  `Worker.DeliveriesTheorem`. Input: `Worker.FailedWithCheckpoint`.
- **Workers that lose a save have made their calls.** The tool budget binds the saved history, not
  the calls made. `ToolCalls.CallsAreAccounted` is exact: the calls made are the saved ones and
  those of steps not yet saved or lost. `ToolCalls.OnceEachWithinBudget`: they stay within the
  budget if no two advances are computed from one revision, as with one worker at a time that saves
  what it computes; otherwise at most one budget for each advance (`ToolCalls.CallsAreBounded`).
  Input: `ToolCalls.LosersExceedBudget`, from the beginning, with two advances from one revision.

## Model

| member | source | states |
|---|---|---|
| Text.TokenStartsAreTheTokens | src/modules/chunking/structural.py:31 | Scanning for `\S+` finds every token start of the range and nothing else, in order. |
| Text.CountIsNumberOfTokens | src/modules/chunking/structural.py:114-116 | The counter is the number of tokens the splitter sees. |
| Text.CountAcrossSeam | src/modules/chunking/structural.py:114-116 | Token counts of two ranges that meet at whitespace add up to the count of the whole. |
| Text.CountMonotone | src/modules/chunking/structural.py:114-116 | A wider range between such positions has at least as many tokens. |
| Text.CountBeforeToken | src/modules/chunking/structural.py:83-86 | Cutting just before the k-th token leaves exactly k tokens on the left. |
| Parser.NormalizeFixesClean | src/modules/parsing/parser.py:40 | Newline normalization leaves text without carriage returns alone, so it is idempotent. |
| Parser.NormalizeLaws | src/modules/parsing/parser.py:40 | A carriage return, with a line feed behind it or without, becomes one line feed; any other character is kept; and text may be normalized piece by piece unless such a pair is torn. |
| Parser.SplitLines | src/modules/parsing/parser.py:48 | No line has a line break before its end, all but the last end in one, and a carriage return is not torn from its line feed. |
| Parser.SplitLinesJoin | src/modules/parsing/parser.py:48 | Splitting into lines with their breaks loses nothing. |
| Parser.HeadsAreTheHeadings | src/modules/parsing/parser.py:48-73 | A line begins a section exactly if it is the first or a heading outside every fenced block. |
| Parser.LStripMeans | src/modules/parsing/parser.py:49 | Stripping takes the leading whitespace and nothing else. |
| Parser.FenceBegins | src/modules/parsing/parser.py:49-51 | A fence is a line that begins, behind whitespace, with three backticks or tildes. |
| Parser.FenceMeans | src/modules/parsing/parser.py:51-55 | A fenced block runs from a fence outside all blocks to the next fence with the same marker. |
| Parser.HeadsAreTitled | src/modules/parsing/parser.py:48-73 | Heads, titles and levels in these terms: a heading counts if its line is no fence and stands in no block. |
| Parser.ParseText | src/modules/parsing/parser.py:40-84 | The line scan produces exactly one section for every head, from it to the next, with title, level and exact span. |
| Parser.Parse | src/modules/parsing/parser.py:32-38 | Bytes are refused exactly when too long, holding a NUL or undecodable; otherwise their text is parsed. |
| Parser.SectionsTile | src/modules/parsing/parser.py:40-84 | Sections tile the normalized text from end to end, each nonempty, none beginning or ending inside a token. |
| Parser.ReparseIsStable | src/modules/parsing/parser.py:40-84 | Parsing normalized text again gives the same text and the same sections. |
| Chunker.SplitRange | src/modules/chunking/structural.py:77-88 | An oversized section falls into tiling pieces, all but the last with exactly the maximal token count, and no more pieces than its tokens need. |
| Chunker.MergeSections | src/modules/chunking/structural.py:43-70 | The merge tiles the text within the bound, cuts only inside oversized sections and never joins one with another section; no range but the last could reach further. |
| Chunker.StuckIsFewest | src/modules/chunking/structural.py:43-70 | Such ranges are at most as many as those of any division within the bound, ordinary sections whole and oversized ones on their own. |
| Chunker.DividesIsGrouping | src/modules/chunking/structural.py:43-70 | If no section is oversized, such divisions are exactly the groupings of consecutive whole sections within the bound. |
| Chunker.SpansFromTile | src/modules/chunking/structural.py:93-102 | The provenance spans of a chunk tile exactly that chunk. |
| Chunker.SpansComeFromSections | src/modules/chunking/structural.py:93-102 | Every span lies inside one section and carries its title and level. |
| Chunker.BuildChunkIsFaithful | src/modules/chunking/structural.py:90-112 | A chunk holds its slice of the text, its token count and spans that tile it. |
| Chunker.ChunksConserve | src/modules/chunking/structural.py:72-75 | Chunk texts concatenate to the text and chunk token counts sum to its token count. |
| Chunker.ChunkDocument | src/modules/chunking/structural.py:38-75 | All of it together for every parsed document, including that its chunks are the fewest of any division, oversized sections or not. |
| Investigation.CallToolSound | src/modules/investigation/workflow.py:530-581 | One tool call keeps counters, actions and results those of the calls made, within budget, and continues only after success. |
| Investigation.CallAllSound | src/modules/investigation/workflow.py:439-497 | A node's loop makes a prefix of its calls in order, and goes on only after all succeeded. |
| Investigation.AdvanceSound | src/modules/investigation/workflow.py:375-399 | Every advance, whatever the collaborators and the clock do, keeps the state invariant, moves strictly forward and raises the revision by one. By the invariant counters, results and actions, with node, duration, count and error, are those of the calls made; only the result of a last call that came too late is missing. |
| Investigation.CancelSound | src/modules/investigation/workflow.py:401-405 | Cancelling keeps the invariant and ends the investigation. |
| Investigation.AdvanceKeepsIdentity | src/modules/investigation/workflow.py:375-399 | No advance changes which investigation a state is. |
| StopReasons.CallAllEnds | src/modules/investigation/workflow.py:439-497 | The calls of a node are made in order, and stop exactly at the first that raises, fails or comes back late, at a call the budget no longer allows, or when all are made; with the state each of these leaves. |
| StopReasons.AtOnceStops | src/modules/investigation/workflow.py:386-388 | With its steps used up or its duration exceeded an investigation stops before a node runs, partially, for exactly that reason, with no call made and nothing used. |
| StopReasons.PlanEnds | src/modules/investigation/workflow.py:428-437 | Planning ends in failure if it raises, at the token budget, at the duration budget, or goes on to retrieve with the plan it was given. |
| StopReasons.VerdictEnds | src/modules/investigation/workflow.py:499-513 | Verification likewise, leaving success, insufficient evidence or the earlier tool failure to be reported. |
| StopReasons.ReportEnds | src/modules/investigation/workflow.py:515-528 | Reporting ends with the reason left for it unless the token or the duration budget is exceeded. |
| StopReasons.CallsEndSo | src/modules/investigation/workflow.py:439-497 | A call node goes on, or stops for a late call, a budget, a failure, exactly as its calls ended. |
| StopReasons.StopsExactly | src/modules/investigation/workflow.py:586-598 | An advance stops for its steps exactly if they were used up before it, for its duration exactly if a clock reading it acts on is late, for its tokens exactly if they are used up after it. |
| StopReasons.AdvanceLogged | src/modules/investigation/workflow.py:375-399 | Every advance keeps the record: steps, tokens and cost are the sums of what the nodes reported, plan, open questions and summary are those reported, and status, reason and verdict fit. |
| StopReasons.AdvanceTimes | src/modules/investigation/workflow.py:375-399 | The time of creation stays, that of the start is set once, that of the end with the reason. |
| Workflow.InMemoryInvestigationStore.Create | src/modules/investigation/workflow.py:289-292 | Creates exactly when the identifier is new and changes nothing otherwise. |
| Workflow.InMemoryInvestigationStore.Save | src/modules/investigation/workflow.py:297-305 | Compare-and-set: replaces exactly when the stored revision is the expected one and the new one follows it. |
| Workflow.RetrieveLoops | src/modules/investigation/workflow.py:439-477 | The two loops of the retrieve node make its planned calls one by one, as the node's specification does. |
| Workflow.CompareLoop | src/modules/investigation/workflow.py:479-497 | Likewise for the compare node. |
| Workflow.InvestigationWorkflow.StartInvestigation | src/modules/investigation/workflow.py:330-343 | A new investigation is queued at the first node, or refused when the identifier is taken. |
| Workflow.InvestigationWorkflow.AdvanceOnce | src/modules/investigation/workflow.py:375-399 | Loads, computes one node and saves it over whatever others made of the store meanwhile: exactly if the revision is still the one read, otherwise it fails and changes nothing; terminal states are returned unchanged. |
| Workflow.InvestigationWorkflow.Cancel | src/modules/investigation/workflow.py:401-405 | Saves the cancelled state in the same way, unless the investigation is terminal or unknown. |
| Workflow.InvestigationWorkflow.Run | src/modules/investigation/workflow.py:360-364 | Terminates, with the state that advancing to the end reaches. |
| Workflow.RunFromSound | src/modules/investigation/workflow.py:360-364 | From any sound state the run ends sound and terminal within as many advances as nodes remain. |
| Workflow.RunTheorem | src/modules/investigation/workflow.py:360-399 | A fresh investigation ends within five advances and within budget; if completed, every planned call was made once, in plan order, with success, its results are the calls' results, and the verifier found them sufficient. Its record is what its nodes reported, and it ends at the step, duration or token budget exactly if its last advance finds it exceeded. |
| Workflow.SmoothRunCompletes | src/modules/investigation/workflow.py:360-399 | Conversely, sufficient budgets, collaborators that answer in time and a satisfied verifier do complete it. |
| Interleaving.ActKeepsInv | src/modules/investigation/workflow.py:631-640 | Every read, computation, save or crash of any actor keeps the history linear and sound. |
| Interleaving.InterleavingTheorem | src/modules/investigation/workflow.py:375-405 | Under every interleaving of advancing and cancelling actors, the saved states form one history of legal single steps, revisions rising by one, no two saves from the same revision, nothing after a terminal state. |
| Interleaving.RecordIsOfSaved | src/modules/investigation/workflow.py:375-405 | Under every interleaving the latest state records exactly what the nodes of the saved steps reported. |
| Interleaving.TerminalIsFinal | src/modules/investigation/workflow.py:297-305 | A terminal state is never replaced, whoever still holds an older one. |
| Interleaving.StoresAgree | src/adapters/postgres/investigation_store.py:53-70 | The PostgreSQL store, which checks only the stored revision, accepts exactly the saves the in-memory store accepts. |
| Interleaving.AtMostFiveSaves | src/modules/investigation/workflow.py:375-405 | At most five saves ever succeed. |
| ToolCalls.SavedWithinBudget | src/modules/investigation/workflow.py:600-610 | The calls of all saved steps together stay within the tool budget. |
| ToolCalls.CallsAreBounded | src/modules/investigation/workflow.py:600-610 | The calls really made, also by actors whose save loses, are at most the tool budget for each advance computed. |
| ToolCalls.CallsAreAccounted | src/modules/investigation/workflow.py:530-581 | The calls really made are exactly those of the saved history, of steps still to be saved, and of steps that lost their save or whose actor crashed. |
| ToolCalls.OnceEachWithinBudget | src/modules/investigation/workflow.py:375-405 | If no two advances are computed from one revision, the calls really made stay within the tool budget, however actors cancel, crash and interleave. |
| ToolCalls.LosersCallToo | src/modules/investigation/workflow.py:631-640 | Two workers that read the same state both make all its calls, and one of them saves. |
| ToolCalls.LosersExceedBudget | src/modules/investigation/workflow.py:631-640 | A run from the beginning with a budget of one call and one planned retrieval, in which two workers make two calls. |
| Ingestion.ClaimKeeps | src/adapters/postgres/ingestion_repository.py:311-333 | The claiming transaction counts one delivery or fails the job at the limit, and keeps the row invariant. |
| Ingestion.RunStagesKeeps | src/modules/ingestion/pipeline.py:251-310 | From any stage a run completes and promotes after all its stages ended well, or ends at the first that did not: retrying from that very stage, or failed for want of attempts, with the error of that stage, or raising; it attempts no illegal transition. |
| Ingestion.RunKeeps | src/modules/ingestion/pipeline.py:231-310 | The running transaction keeps the row invariant or raises; it never attempts an illegal transition. |
| Ingestion.RunEnds | src/modules/ingestion/pipeline.py:212-286 | A run raises exactly if it does not reach the job or a stage raises, and completes the job exactly if all its stages end well. |
| Ingestion.RunStandsAfter | src/modules/ingestion/pipeline.py:251-310 | A committed run adds to the stages done exactly those it ended well, up to its checkpoint. |
| Ingestion.RecordErrorKeeps | src/adapters/postgres/ingestion_repository.py:335-355 | The error transaction keeps the row invariant. |
| Ingestion.RecordErrorMeans | src/adapters/postgres/ingestion_repository.py:335-355 | Terminal jobs stay; others retry exactly while attempts and deliveries are below the maximum, from the stage they stood at or were to resume at, or else from the first. |
| Ingestion.TransitionMeans | src/domain/ingestion.py:127-148 | A job moves only as permitted, never from its end, and gives up its checkpoint when it resumes. |
| Worker.IngestionRepository.ClaimDelivery | src/adapters/postgres/ingestion_repository.py:311-322 | Counts a delivery of a live job, and leaves every other row and terminal jobs alone. |
| Worker.IngestionRepository.FailLostDelivery | src/adapters/postgres/ingestion_repository.py:324-333 | Fails a live job as lost, and nothing else. |
| Worker.IngestionRepository.RecordWorkerError | src/adapters/postgres/ingestion_repository.py:335-355 | Moves a live job to retrying or failed with its checkpoint, and nothing else. |
| Worker.RunStage | src/modules/ingestion/pipeline.py:251-286 | One stage in place: fails its attempt, raises, or saves the next state with the promotion if it is the last. |
| Worker.RunStagesInPlace | src/modules/ingestion/pipeline.py:251-286 | The stages from the one the job stands at leave in the table what the specification of the stages leaves, or raise with it. |
| Worker.Resume | src/modules/ingestion/pipeline.py:212-310 | The stage-by-stage run in place leaves in the table what the specification of a run leaves, or raises with it. |
| Worker.RunJob | src/grounded_ops/worker.py:192-266 | One delivery: busy leaves the table alone; otherwise claim, run, and on an exception the row rolled back to the claim and the error recorded. |
| Worker.DeliveriesTheorem | src/grounded_ops/worker.py:192-266 | Under any mix of duplicate, failing and crashing deliveries every committed row satisfies the invariant, including when exactly it has a checkpoint; at most four claims commit, and once four have, the job is terminal. |
| Worker.StagesTheorem | src/modules/ingestion/pipeline.py:251-310 | Under any mix of deliveries a job is completed exactly if fetching, parsing and indexing ended well in committed runs, each once and in this order; a retrying job goes on with the first stage that has not. |
| Worker.FailedWithCheckpoint | src/adapters/postgres/ingestion_repository.py:335-355 | Three deliveries whose runs raise leave a failed job with a checkpoint. |
| Worker.OnlyHolderActs | src/grounded_ops/worker.py:199-210 | While a worker holds the advisory lock nobody else changes the row; a free lock goes to the first who asks; a worker that dies frees it and leaves the row as committed. |
| Worker.TerminalIsFinal | src/grounded_ops/worker.py:211-261 | A completed or failed row never changes again. |
| Worker.NoIllegalTransition | src/domain/ingestion.py:127-148 | No reachable run attempts an illegal transition. |
| Worker.DeliverIsFourActions | src/grounded_ops/worker.py:211-261 | An undisturbed delivery is the protocol's acquire, claim, run and error steps. |
| Documents.VersionLeIsTotalOrder | src/adapters/postgres/ingestion_repository.py:484-485 | Comparing timestamp, then source version, is a total order. |
| Documents.DocumentTables.PromoteVersion | src/adapters/postgres/ingestion_repository.py:466-496 | Promotes under the guard, fails for unknown versions, touches no other document. |
| Documents.DocumentTables.DeleteDocument | src/adapters/postgres/ingestion_repository.py:498-505 | Marks the document deleted without a current version. |
| Documents.PromotionConverges | src/adapters/postgres/ingestion_repository.py:466-505 | After promotions in any order and with any repetition the current version is the latest of those promoted; a deleted document is never revived. |
| Documents.OrderDoesNotMatter | src/adapters/postgres/ingestion_repository.py:477-488 | Two runs that promote the same versions end with the same current version. |
| Replay.OpenSearchIndex.Bulk | src/adapters/opensearch/index_writer.py:51-80 | Writes every chunk the server does not refuse, unflagged, and reports the refused and the written ones. |
| Replay.OpenSearchIndex.Cleanup | src/adapters/opensearch/index_writer.py:81-86 | Takes the written chunks out again, or raises having taken out some of them. |
| Replay.OpenSearchIndex.UnflagOthers | src/adapters/opensearch/index_writer.py:90-111 | Unflags the chunks of the other versions of the document, or raises having unflagged some of them; nothing else changes. |
| Replay.OpenSearchIndex.FlagOwn | src/adapters/opensearch/index_writer.py:112-133 | Flags the chunks of the version, or raises having flagged some of them; nothing else changes. |
| Replay.OpenSearchIndex.Upsert | src/adapters/opensearch/index_writer.py:49-133 | The whole index and result of an upsert whose every request may raise, having had any part of its effect: refused by policy it changes nothing, refused items are cleaned up and named, and completed it has written the version and flagged exactly it in its document. |
| Replay.UpsertEnds | src/adapters/opensearch/index_writer.py:49-133 | Exactly which result an upsert has; a refusal names exactly the refused chunks. |
| Replay.RefusedLeaves | src/adapters/opensearch/index_writer.py:81-88 | An upsert with refused chunks leaves none of its own in the index and every other entry as it was; when its clean-up raises, exactly the chunks it took out are gone. |
| Replay.UpsertLeaves | src/adapters/opensearch/index_writer.py:49-133 | Any other upsert that is allowed leaves the chunks that were not refused with their texts, unflagged if the bulk raised; other entries keep their text and, outside the document, their flag. |
| Replay.OpenSearchIndex.RemoveDocument | src/adapters/opensearch/index_writer.py:135-151 | Removes exactly the chunks of the document. |
| Replay.ReplayAuthoritative | src/modules/indexing/replay.py:57-128 | The count check, then the rows in order up to the first error: the index, the error, and on success the summary with counts and chunk identifiers. |
| Replay.ReplayedIsRebuilt | src/modules/indexing/replay.py:83-128 | The replay succeeds if and only if every row has intact artifacts and, where it has chunks, its upsert completes; then the index is exactly the rows' upserts, in order. |
| Replay.CurrentIsRestored | src/modules/indexing/replay.py:76-80 | The count check makes sure that the current version of every live document is among the rows. |
| Replay.RebuiltHas | src/modules/indexing/replay.py:83-125 | Every chunk of every row is in the index, flagged exactly when its row is the last of its document with chunks. |
| Replay.RebuiltHasOnly | src/modules/indexing/replay.py:83-125 | Nothing else is in the index. |
| Replay.ReplayAgrees | src/modules/indexing/replay.py:59-125 | A live document agrees with the tables if and only if its current version has chunks or none of its completed versions has. |
| Replay.ReplayIsComplete | src/modules/indexing/replay.py:59-125 | Every chunk of every completed version of a live document is present, and if its current version has chunks, flagged exactly if it belongs to that version. |
| Replay.ReplayAddsNothing | src/modules/indexing/replay.py:59-125 | Every indexed chunk is a chunk of a completed version of a live document. |
| Replay.EmptyCurrentVersionLeavesOldFlag | src/modules/indexing/replay.py:96-98 | Emptying a document that had text leaves the old text flagged current. |
| LiveIndex.LiveAgrees | src/modules/ingestion/pipeline.py:271-286 | Exactly when the live index agrees with the tables on a document, for any order of promotions, deletions, rollbacks and preparations, each of which may break off at any request. |
| LiveIndex.CompleteSettles | src/adapters/opensearch/index_writer.py:90-133 | After a preparation that comes to its end, whatever broke off before, the index agrees on its document if and only if the prepared version is the current one. |
| LiveIndex.RunKeeps | src/adapters/opensearch/index_writer.py:49-133 | Whatever breaks off where, the flagged chunks of a document are those of one version, the standing one, without its bare chunks. |
| LiveIndex.IngestedAgree | src/grounded_ops/worker.py:107-152 | Of versions ingested one after the other, the index agrees if and only if the last is the latest. |
| LiveIndex.LateOldVersionTakesFlag | src/modules/ingestion/pipeline.py:275-276 | An old version that arrives after a newer one takes the flag while the tables keep the newer. |
| LiveIndex.BrokenOffHidesCurrent | src/adapters/opensearch/index_writer.py:90-133 | An upsert that breaks off between its two updates leaves the current version in the index without a flag, and nothing flagged. |
| Quotas.WindowStartMonotone | src/modules/policy/quotas.py:205-210 | Windows never go back in time and distinct windows do not overlap. |
| Quotas.RetryReachesNextWindow | src/modules/policy/quotas.py:213-215 | Waiting the reported time reaches a later window, and a second less would not unless the report is the least possible. |
| Quotas.InMemoryQuotaBackend.CurrentBucket | src/modules/policy/quotas.py:138-143 | A bucket of another window is replaced by an empty one. |
| Quotas.InMemoryQuotaBackend.Reserve | src/modules/policy/quotas.py:103-129 | All scopes or none: the whole new table and the outcome. |
| Quotas.InMemoryQuotaBackend.Release | src/modules/policy/quotas.py:131-136 | Lowers the active counts of the lease's window only. |
| Quotas.MemoryGrants | src/modules/policy/quotas.py:103-129 | A request is granted exactly if no scope is at either limit in the current window. |
| QuotaRows.PostgresQuotaBackend.Reserve | src/adapters/postgres/quota_backend.py:25-93 | Inserting, reading once, resetting as it goes and stopping at the first blocked row gives the specified rows and outcome. |
| QuotaRows.PostgresQuotaBackend.Release | src/adapters/postgres/quota_backend.py:95-107 | Lowers the active counts of the lease's window only. |
| QuotaRows.ScanDenial | src/adapters/postgres/quota_backend.py:57-77 | The scan is decided by the first blocked scope. |
| QuotaRows.BackendsSimulateEachOther | src/adapters/postgres/quota_backend.py:25-107 | Over any run of reserves and releases with a clock that does not go back, both backends grant the same requests with the same leases and go on counting the same. |
| QuotaRows.DenialReasons | src/modules/policy/quotas.py:116-122 | Where both deny, exactly when they give the same reason. |
| QuotaRows.ReasonsDiffer | src/modules/policy/quotas.py:116-122 | A run from empty tables after which memory denies a request by rate and the rows by concurrency. |
| QuotaRows.NoScopesAreGranted | src/adapters/postgres/quota_backend.py:31-93 | With no scopes the rows grant a lease where memory reports an error. |
| QuotaRows.RunNeverBehind | src/adapters/postgres/quota_backend.py:57-70 | After any run in order of time memory is never behind the rows: in the same window they count the same, in a later one memory has counted nothing. |
| QuotaRows.DecisionsAtAnyTime | src/adapters/postgres/quota_backend.py:57-77 | For a request at any time, also an earlier one, exactly when the backends decide alike; memory never denies what the rows grant. |
| QuotaRows.ClockMustNotGoBack | src/adapters/postgres/quota_backend.py:57-77 | A run from empty tables after which a request at an earlier time is decided differently. |
| QuotaLedger.LedgerTheorem | src/modules/policy/quotas.py:103-136 | In either backend, at every moment of every run, a bucket's counters are the grants of its window and those not yet given back, both within the limits. |
| QuotaLedger.ClampNeverActs | src/modules/policy/quotas.py:136 | Giving back an outstanding lease never meets the clamp at zero. |
| QuotaLedger.TwiceTheLimit | src/modules/policy/quotas.py:103-129 | In either backend, in any span of window length, a scope is granted at most twice its request limit. |
| Policy.AuthorizeMeansEntry | src/modules/policy/authorizer.py:56-65 | The decision allows exactly if some entry of the policy is one of the principal's search-scope entries. |
| Policy.ReasonIsFirst | src/modules/policy/authorizer.py:56-65 | The reason is the first kind of entry that allows: public, principal, role, group. |
| Policy.AuthorizeReads | src/modules/policy/enforcement.py:109-180 | Exactly the references of the principal's own tenant whose live, matching metadata allow it are granted; the store's failure is the call's failure unless nothing had to be looked up. |
| Packer.Deduplicate | src/modules/answering/context_packer.py:45-53 | Keeps the first item of every identity, in order. |
| Packer.FirstsCover | src/modules/answering/context_packer.py:45-53 | Every retrieved identity is kept. |
| Packer.DiverseOrder | src/modules/answering/context_packer.py:56-67 | Terminates with a permutation that keeps each source's order and puts every d-th item of a source before any (d+1)-th, sources in order of first occurrence. |
| Packer.FittingIsMaximal | src/modules/answering/context_packer.py:29-34 | No skipped item would fit in what finally remains. |
| Packer.Pack | src/modules/answering/context_packer.py:24-42 | The whole packing: exact token count within the budget, conflicts, and truncated exactly when something was skipped. |
| Packer.PackedIsRetrieved | src/modules/answering/context_packer.py:24-42 | Only retrieved evidence is packed. |
| Packer.ConflictsAreListed | src/modules/answering/context_packer.py:70-80 | The conflicts are exactly the documents of which several versions were packed, sorted, each with exactly its packed versions, sorted. |
| Answering.DraftIsGrounded | src/modules/answering/generator.py:339-389 | Exactly when a response becomes a draft, a malformed output or an uncaught error; a draft's claims all cite packed evidence, and the domain accepts it. |
| Verifier.ResolveMeansIdentity | src/modules/answering/verifier.py:96-114 | A citation resolves exactly if some evidence has its chunk, version and span; otherwise the failure names the first part that nothing shares. |
| Verifier.ClaimVerifiedMeansSupported | src/modules/answering/verifier.py:42-81 | A claim has no failures if and only if all its citations resolve to evidence the principal may read and the cited texts contain its every word. |
| Verifier.ClaimFailuresMean | src/modules/answering/verifier.py:42-81 | Exactly which failures a claim has: no citation, else those of citations that do not resolve, else unauthorized evidence, else an unsupported word. |
| Verifier.CheckClaim | src/modules/answering/verifier.py:42-81 | The loop over citations gives exactly the specified failures and resolved citations. |
| Verifier.Verify | src/modules/answering/verifier.py:32-93 | The loop over claims gives exactly the specified verdict. |
| Verifier.VerdictNamesFailures | src/modules/answering/verifier.py:32-93 | The failures of an answer are those of its claims, each once; an abstention has none. |
| Verifier.VerifiedMeansSupported | src/modules/answering/verifier.py:32-93 | An unverified answer becomes verified if and only if every claim is supported, its claims unchanged but for resolved citations, and the domain constructor accepts the result; otherwise it is handed back with some failure. |
| AskSession.GroundedDeltaGuard.Filter | src/modules/security/untrusted_content.py:61-67 | Releases a delta exactly when everything given so far begins some evidence text. |
| AskSession.ReleasedIsPrefix | src/modules/security/untrusted_content.py:54-67 | What the guard releases in one stream is a prefix of what it was given and of one evidence text. |
| AskSession.StreamAttempt | src/interfaces/http/ask.py:164-184 | One attempt emits exactly the released deltas and keeps the last completion. |
| AskSession.GenerateWithRetries | src/interfaces/http/ask.py:155-219 | The retry loop: only retryable failures that showed nothing are retried, and every other end has its own event. |
| AskSession.RunSession | src/interfaces/http/ask.py:116-153 | The whole generator, run to its end, with the packing of what was retrieved. |
| AskSession.Stream | src/interfaces/http/ask.py:256-271 | Sends exactly the events up to the moment the request is found disconnected, and closes the session in any case. |
| AskProtocol.GenerationShape | src/interfaces/http/ask.py:155-219 | All deltas of a session come from one attempt, and generation ends the session with at most one final event, the last. |
| AskProtocol.SessionProtocol | src/interfaces/http/ask.py:116-219 | The first event says retrieving; a session that ends has exactly one final event, which is last; all deltas across retries join to a prefix of one packed evidence text. |
| AskProtocol.BreaksOff | src/interfaces/http/ask.py:116-153 | Exactly when a session ends without a final event. |
| AskProtocol.BlankModelBreaksOff | src/modules/answering/generator.py:339-389 | A grounded response under a blank model name ends the session without a final event. |
| AskProtocol.FinalAnswerIsVerified | src/interfaces/http/ask.py:289-302 | A passed draft becomes a final event of the question asked, with the claims of the draft, their texts joined as the answer, whose every citation and every word rests on cited evidence the principal may read, and whose sources are exactly the cited evidence, none of them empty. |
| AskProtocol.CitedAreLive | src/modules/policy/enforcement.py:109-180 | Every citation of a verified answer names evidence of the principal's tenant, of a live document in its known version, with an access entry that is the principal's. |
| AskProtocol.SourcesAreCited | src/interfaces/http/ask.py:405-423 | The source list is exactly the cited evidence. |
| AskProtocol.SourcesAreReadable | src/interfaces/http/ask.py:405-423 | All cited items, and so all sources, may be read if and only if items of one cited identity may be read alike. |
| AskProtocol.AuthorizedSourcesAreReadable | src/modules/retrieval/retriever.py:104-136 | With a retriever that authorizes, and permissions that last until verification, every source may be read. |
| AskProtocol.TwinIsListed | src/interfaces/http/ask.py:405-423 | A verified answer that lists a twin which could be read at retrieval and may not be read at verification. |
| AskProtocol.SessionAnswersAreVerified | src/interfaces/http/ask.py:143-153 | Every session that ends with a verified status ends with a verified final answer, and none ends with an unverified one. |
| SessionEnds.SessionEndsSo | src/interfaces/http/ask.py:116-219 | Exactly how a session ends that retrieved something: abstained before generating for want of packed evidence or for a conflict between versions; degraded with all evidence, failed with nothing, or broken off by its deciding attempt; and after a response malformed, broken off, answered exactly if every claim is supported, else abstained from. An answer shows the claims of the response in order and their texts joined. |
| SessionEnds.JoinLaws | src/interfaces/http/ask.py:295 | One text is joined to itself, and a further one is appended behind a blank. |
| SessionEnds.GenerationEnds | src/interfaces/http/ask.py:155-219 | Generation shows the deltas of the deciding attempt and ends as that attempt does, with the error and the sources that go with it. |
| SessionEnds.LastCompletionIs | src/interfaces/http/ask.py:164-184 | The response is the last one the stream completed. |
| SessionEnds.ConflictingIsIrreconcilable | src/modules/answering/abstention.py:115-124 | A conflict is irreconcilable exactly if a document is packed in several versions and its packed texts differ once folded. |
| SessionEnds.NothingRetrieved | src/interfaces/http/ask.py:121-130 | Unavailable retrieval fails the session with that error alone; retrieval that raises breaks it off. |
| AskProtocol.SessionIsAccepted | web/lib/ask.ts:33-67 | The browser accepts every event a session emits, except a verified answer whose question identifier has another form than it expects. |
| AskProtocol.UuidIsValid | src/interfaces/http/ask.py:240 | Question identifiers as the server makes them have the form the browser expects. |
| AskProtocol.BrowserRefuses | web/lib/ask.ts:47-65 | A verified answer is refused once it loses its claims, sources or identifier, or has a claim without citations or with one not resolved. |
| AskProtocol.SentIsRead | src/interfaces/http/ask.py:256-271 | Whatever part of a session's events is sent and however it is chunked within the limit, the browser reads exactly that part, and accepts exactly a whole session that ended. |
| AskProtocol.CutIsRead | web/lib/ask.ts:69-99 | Of a session cut off anywhere, also inside a line, the browser reads exactly the whole lines, and accepts exactly the whole of a session that ended. |
| AskProtocol.StreamedIsRead | src/interfaces/http/ask.py:256-271 | Of what the server streams, the browser accepts exactly a session that ended and was not disconnected. |
| AskReader.TrimMeans | web/lib/ask.ts:80 | Trimming takes what can be trimmed from both ends, and nothing else. |
| AskReader.Utf16LengthAdds | web/lib/ask.ts:92 | The measured length counts two for characters beyond the basic plane, one for others. |
| AskReader.DrainBuffer | web/lib/ask.ts:78-90 | The inner loop consumes exactly the complete lines. |
| AskReader.ReadAskStream | web/lib/ask.ts:69-98 | The reader yields and fails as specified, chunk by chunk. |
| AskReader.DrainConcat | web/lib/ask.ts:77-90 | Draining a concatenation is draining the first part, then what it left with the second. |
| AskReader.AfterChunksIsDrain | web/lib/ask.ts:75-93 | Chunk by chunk the reader gets where reading the concatenation gets, or stops for size. |
| AskReader.ChunksDoNotMatter | web/lib/ask.ts:69-99 | Events and verdict depend only on the concatenation if and only if no chunk leaves more than the limit unfinished. |
| AskReader.LongLineDependsOnChunks | web/lib/ask.ts:92 | A long line is read when its newline comes with it and refused when the newline comes in the next chunk. |
| AskReader.DrainPrinted | src/interfaces/http/ask.py:266 | Printed events are read back in order through the first final one, and an event after it is an error. |
| AskReader.FramingRoundTrip | web/lib/ask.ts:69-99 | Printed events, chunked in any way within the limit, are yielded and accepted if and only if the last is final and no other is. |
| Fusion.AddLeg | src/modules/retrieval/hybrid.py:42-48 | The dictionary loop adds one over k plus the rank for every occurrence and keeps the first evidence of an identity. |
| Fusion.Retrieve | src/modules/retrieval/hybrid.py:34-99 | Returns the first items of the strict ranking of the authorized candidates; unavailable exactly if both legs are, or the metadata are when something had to be looked up. |
| Fusion.SortRanks | src/modules/retrieval/hybrid.py:75-77 | Sorting items of distinct identities orders them strictly by descending score, then identity. |
| Fusion.CutKeepsTheBest | src/modules/retrieval/hybrid.py:75-86 | Each identity is ranked once; a candidate left out by the limit ranks below all that are returned, and only a reached limit leaves anything out. |
| Fusion.SwapChangesNothing | src/modules/retrieval/hybrid.py:42-77 | Swapping the legs changes neither identities, scores nor order if and only if shared identities are readable alike in both legs. |
| Fusion.SameReferencesAgree | src/modules/retrieval/hybrid.py:42-48 | Legs that take an identity they share for one document version meet that condition, whatever may be read. |
| Fusion.SwapCanMatter | src/modules/retrieval/hybrid.py:42-77 | Two legs whose swap makes the only result vanish. |
| Fusion.OneLegKeepsItsOrder | src/modules/retrieval/hybrid.py:42-86 | With either leg missing, fusion shows the readable items of the other leg, of distinct identities, in that leg's order. |
| Cache.SortedIsCanonical | src/modules/cache/cache_policy.py:84-85 | Sorting forgets the order of a list and nothing else. |
| Cache.KeysIdentifyRequests | src/modules/cache/cache_policy.py:168-197 | Two requests share a key if and only if kind, tenant, principal, roles and groups as multisets, versions and request fields agree. |
| Cache.VersionSafeCache.Retrieval | src/modules/cache/cache_policy.py:103-124 | A hit is a value loaded for the same request, not degraded, with granted evidence of the principal's tenant only, whatever the backend replays; a miss is the loader's value, kept if eligible. |
| Cache.VersionSafeCache.Answer | src/modules/cache/cache_policy.py:126-148 | Likewise for answers, which are verified and bound to the question asked now. |
| Cache.HitIsLoad | src/modules/cache/cache_policy.py:150-159 | A record is accepted only if it was loaded for the same request. |
| Cache.HitExactly | src/modules/cache/cache_policy.py:103-165 | Exactly when a reply is a hit and when a loaded value is written: for the same request, and a verified answer to the same text, or evidence not degraded, all of the principal's tenant and granted. |
| Cache.CacheAgrees | src/modules/cache/cache_policy.py:103-165 | Over any run, with a backend that may fail, drop or replay any record under any key, cached and uncached services give the same values, up to the question an answer is bound to. |
| Breaker.CircuitBreaker.Acquire | src/modules/resilience/policies.py:63-74 | Admits, rejects or lets one probe in, and never finds the breaker open without a time. |
| Breaker.CircuitBreaker.RecordFailure | src/modules/resilience/policies.py:82-93 | Counts the failure or opens, keeping the field invariant. |
| Breaker.CircuitBreaker.Attempt | src/modules/resilience/policies.py:52-61 | An attempt with each of its three ways out. |
| Breaker.TurnedAwayLeavesNoTrace | src/modules/resilience/policies.py:52-93 | An attempt is let in exactly while the breaker is closed or open for the recovery time; one turned away leaves no trace, whatever would have become of it. |
| Breaker.ClosedMeans | src/modules/resilience/policies.py:63-93 | Under any overlapping attempts the breaker is closed exactly while fewer failures than the threshold were recorded since the last success, and exactly while no opening time is set. |
| Breaker.ProbesAreApart | src/modules/resilience/policies.py:63-93 | Under any overlapping attempts the i-th and the j-th probe lie at least j - i recovery times apart. |
| Breaker.HalfOpenWaits | src/modules/resilience/policies.py:67-68 | A half-open breaker admits nobody until an attempt inside records its outcome. |
| Breaker.AbandonedProbeBlocks | src/modules/resilience/policies.py:52-68 | With the probe abandoned and nobody inside it never admits again; with somebody inside, a success reopens it. |
| Breaker.ProbeAbandoned | src/modules/resilience/policies.py:52-74 | A run from the beginning that ends in such a state. |
| Breaker.FailingCallersAreFew | src/modules/resilience/policies.py:63-93 | Callers one after another of an always-failing dependency are admitted at most threshold plus floor(time / recovery) times. |

## Left out

- The heading expression, UTF-8 decoding, case folding with token extraction, and printing and parsing JSON are parameters; only what a theorem needs of them is required. SHA-256, HMAC and canonical JSON are injective functions or data types.
- Times are integers, in the breaker reals; fusion scores are exact reals, so rounding and ties that only rounding makes are not modelled.
- PostgreSQL's collation is taken to order strings by code point.
- LiveIndex.LiveAgrees: a request that raised has no effect later on (one that timed out and completes afterwards, or that outlives its worker, is not modelled). Conflicts that an update by query skips need a concurrent writer of the same document, which the row lock excludes.
- Constructor checks of configuration (positive limits, budgets, windows, token bounds, attempts) are preconditions.
- Transactions are atomic: the worker's second transaction sees the row of the first because it holds the job's advisory lock throughout; rolling back restores the row. The advisory lock key is taken as unique to its job.
- `mark_dispatched` and `claim_recovery_batch`: scheduling of redeliveries only; deliveries come in any number and order here. Artifact writes and references, and a conflict of references, are only outcomes of a stage.
- Question texts and the report view of an investigation do not influence any step and are not part of the state.
- AskSession.RunSession: the breaker's admission of an attempt is an input, not the `Breaker` state. Cancellation is closing the generator where it waits, in `AskSession.Stream`; the provider's own cleanup is left out.
- Usage, degradation metadata and error messages of events, which the browser does not check, are left out of events.
- Cache.VersionSafeCache.Retrieval: lifetimes are not modelled; a backend may forget or keep a record at any time.
- Fusion.Retrieve: strategy names, timings and degradation reasons are left out; sorting is a function, as in the source it is built in.
- Documents, sources and versions beyond what promotion and replay read; source scanning; the search queries of the retrievers; telemetry, audit records, migrations, HTTP routing and the web interface.
- Alias switching, embedding batches, reranking, evaluation and release gates: small or one-pass; they would add only easy members.
