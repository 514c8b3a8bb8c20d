# ShowcaseHost, modelled and verified in Dafny

ShowcaseHost indexes source repositories and answers questions about them. This project models the
algorithms and protocols on which its results depend and proves what they promise, for every input,
every run and every interleaving. `dafny verify dfyconfig.toml` checks everything.

The files, from the chunker to the benchmarks:

| files | what they model |
|---|---|
| `Utf8`, `LossyText`, `Spans`, `SeqFacts`, `Options` | UTF-8 as in section 3 of RFC 3629, decoding with replacement characters, byte spans, lists of mutable span records |
| `LineSplitter`, `Merger`, `Structural`, `StructuralProofs`, `StructuralGaps`, `WrapperCuts`, `FileChunks` | the span splitter of the chunker: splitting at lines, the recursive tree splitter, the greedy merger, the assembly of a file |
| `Lines`, `Blocks`, `BlockCuts`, `Overlap` | line numbers, the bracket-depth and paragraph splitters, the search for a chunk's overlap |
| `Events`, `ChunkingWorker`, `EngineDispatch`, `ChunkingClient`, `WorkerProtocol` | the worker process that chunks files in batches with concurrent workers, which engine chunks which file, the client that reassembles the events, and both together |
| `JobQueue`, `JobLeases` | the leased job queue with retries and backoff, which the chunking, embedding and ingestion runners share |
| `ArtifactStore`, `ArtifactRecords`, `ArtifactReuse`, `ArtifactOutcomes`, `ArtifactProfiles`, `ArtifactRequests` | publishing chunked snapshots, reusing the artifacts of earlier ones, deletion and garbage collection, over runs in which processors run under any profiles and ask for any files |
| `EmbeddingStore`, `EmbeddingProofs`, `EmbeddingJobs`, `EmbeddingOutcomes` | embedding a snapshot's chunks into the vector store, with skipping and model fallback |
| `Sse`, `SseFrames`, `SseFragments` | the server-sent events of a chat and the client's streaming parser |
| `StableSort`, `RankFusion`, `FusedRanking`, `FusionProperties`, `FusionScores`, `RelevanceGate`, `History` | ranking, reciprocal rank fusion, the reranker's cutoff, the history that goes into a prompt |
| `RateLimiter` | the rolling-window rate limiter of the evaluations |
| `EvaluationRunner`, `EvaluationProofs`, `EvaluationRuns`, `EvaluationReports` | the two-pass evaluation runner with concurrent tasks, and resuming a run |
| `VectorCache`, `VectorAttempts`, `VectorRuns`, `RepositoryChunks` | the partial-vector cache across failed attempts, the overlapping retrieval windows |
| `Sampling`, `BalancedSamples` | balanced random samples |

Code that changes state in the original is a method here - over a class where an object is updated -
whose contract equates its effect with a specification function; the theorems are about those
functions. Protocols are state machines whose steps are the blocks between two suspension points or
one database transaction; the methods that perform a step have that step's function as contract.

## What turned out not to hold

- The documentation says that a syntax node is kept intact whenever it fits
  (`docs/architecture/ast-aware-chunking.md:48-52`). An oversized node whose only non-empty named child
  repeats its range is split at lines, and so are the nodes below it
  (`apps/chunker/src/tree-sitter-fallback.ts:328-335`). `FileChunks.NodesStayWholeIff` gives the exact
  trees for which the promise holds for every text, `FileChunks.WrapperExample` a concrete failure.
- One record above the reader's limit of a mebibyte fails a whole request
  (`apps/api/app/chunking/client.py:20`, `:138-142`), and nothing bounds a record: the token budget
  bounds a chunk's text, but the record also carries doc comments at their full length
  (`apps/chunker/src/tree-sitter-fallback.ts:510`). `ChunkingClient.AcceptsExactly` says exactly which
  lines are accepted, `ChunkingClient.OverlongRecord` and `WorkerProtocol.LongDocsFailRequest` that one
  long doc comment fails the request whatever else is in it.
- A file that the library does not know may be batched under a language of the library, such as a
  build file that the fallback catalogue calls Python (`apps/chunker/src/index.ts:555`), and the first
  file of a batch decides whether the library chunks all of it (`:420`). So the engine of a file can
  depend on the other files of the request: `EngineDispatch.ClashMisleads`.
  `EngineDispatch.EngineIndependentIff` says exactly when it never does.
- Incremental chunking asks the worker only for files that are not reused
  (`apps/api/app/services/chunking.py:233`). It agrees with chunking from scratch in every run if and
  only if what the worker makes of a file does not depend on the other files of the request:
  `ArtifactRequests.IncrementalIff`.
- A published chunking job can still change: the garbage collection that follows the commit of the
  publication runs under the same error handler (`apps/api/app/services/chunking.py:255-265`), so its
  failure re-queues or fails a job that succeeded. `JobQueue.TerminalChanges` says exactly when a
  finished job changes, `JobQueue.PublishedJobCanFail` gives a run.
- A lease that lapses re-queues a job without looking at its attempts
  (`apps/api/app/services/chunking.py:586-593`), so the number of attempts is bounded by the budget plus
  the lapsed leases and not by the budget: `JobQueue.RunGuarantees` gives the exact account,
  `JobQueue.CrashesAreNotCounted` runs with any number of attempts under any setting.
- A worker whose lease has lapsed goes on, and its writes carry no owner check, so two workers can work
  on one job: `JobQueue.TwoHolders`. `JobQueue.SecondHolderIff` says exactly which claims lead to that,
  `JobQueue.ExclusiveIff` exactly which runs avoid it.
- The processor chunks with its own profile and stores under the job's
  (`apps/api/app/services/chunking.py:239-241`), and what it stored is reused later.
  `ArtifactProfiles.PublishedAsFromScratchIff` says exactly when one publication agrees with chunking
  afresh, whatever the store holds, and `ArtifactReuse.AsFromScratchIff` exactly when a published
  snapshot does after any run. `ArtifactRequests.RevertedSettings` is the run in which a setting is
  changed and changed back: its last publication runs under the right profile and is still wrong.
  For a profile that is new to the store see `ArtifactProfiles.ProfilesMustAgree`.
- A chat stream cut off before its last frame ends like a complete one, because the parser ignores the
  closing event (`apps/web/src/lib/api-client.ts:142-148`): `Sse.CutOffUnnoticed`.
- A fragment boundary inside a CRLF keeps the carriage return
  (`apps/web/src/lib/api-client.ts:130`). `SseFragments.NormalizedIff` says exactly when normalising
  fragment by fragment equals normalising the whole, `SseFragments.LostEvent` gives a stream of which
  the client loses the event; the server prints no carriage returns, so the round trip holds for every
  fragmentation.
- The limiter's test of the number of requests never makes it wait, because spacing already bounds the
  requests of a minute: `RateLimiter.CountCheckRedundant`.
- Neighbouring retrieval windows may end at the same line, the later one lying inside the earlier:
  `RepositoryChunks.NextWindow` says when, `RepositoryChunks.RepeatedEnd` gives a file.

## Assumptions

- Node offsets lie inside the buffer, named children are ordered, disjoint and nested. That offsets are
  code-point boundaries of the byte buffer is needed only for texts: the parser is given a string
  (`apps/chunker/src/tree-sitter-fallback.ts:971`) while the spans index a buffer (`:965`);
  `FileChunks.FileText` also says what holds without it.
- The chunk limit is at least one byte, and at least four where code points are to stay whole.
- The library's chunk streams give one result per file and do not throw, and its entry points make the
  same chunks of a file; the requested paths are distinct; the files of a request arrive in the sorted
  order (`apps/chunker/src/index.ts:531-538`).
- Payloads of events are one line without surrounding whitespace, as compact JSON is; whether a payload
  is valid JSON is a parameter.
- Hashes and fingerprints are injective; the worker's answer about a file depends on the file, the
  profile and the files of the request, under one engine version. Where it must not depend on the
  latter, a hypothesis `Independent` says so. Artifact numbers are new when they are given.
  Each database transaction is atomic. The manifest of a snapshot lists each path once, which extraction
  enforces (`apps/api/app/integrations/snapshots/local.py:103-106`).
- No lease lapses while its holder lives: only where a hypothesis `LeasesKept` says so, for exclusive
  holding and for the changes of finished jobs. All else about jobs holds with stale workers too.
- The requests per minute and all batch sizes are at least one. The embedding batch size has no lower
  bound in the settings (`apps/api/app/core/config.py:40`); with zero the planning loop would not end.
- Saved evaluation results that a run recovers from come from an earlier run, where exactly the succeeded
  records carry scores.
- Clocks do not run backwards. Scores and times are reals. Shuffles permute, and are determined by the
  seed, what was shuffled before, and the list.

## Model

| member | source | states |
|---|---|---|
| `LineSplitter.FindCut` | apps/chunker/src/tree-sitter-fallback.ts:311-314 | the backward search for a newline, then off continuation bytes, gives the specified cut |
| `LineSplitter.SplitAtLines` | apps/chunker/src/tree-sitter-fallback.ts:302-319 | the loop terminates and pushes exactly the pieces of `SplitSpans` |
| `LineSplitter.SplitTiles` | apps/chunker/src/tree-sitter-fallback.ts:302-319 | the pieces are non-empty, tile the range and are each within the limit |
| `LineSplitter.SplitCuts` | apps/chunker/src/tree-sitter-fallback.ts:311-314 | on UTF-8 with room for any code point, all cuts fall between code points, and a cut is inside a line only where no newline is within the limit |
| `Utf8.ContinuationMask` | apps/chunker/src/tree-sitter-fallback.ts:313 | the bit test of the source is the range test of the model |
| `Utf8.RoundTrip` | apps/chunker/src/tree-sitter-fallback.ts:965 | the buffer decodes to the text it was made from |
| `Utf8.EncodedSplittable` | apps/chunker/src/tree-sitter-fallback.ts:965 | every buffer made from text allows a cut between code points within any four bytes |
| `Utf8.EncodeDecoded` | apps/chunker/src/index.ts:236-241 | what the strict decoder accepts is the encoding of what it returns, so the buffer that spans index is the decoded file |
| `Utf8.TruncatedNotDecodable` | apps/chunker/src/index.ts:236-241 | the strict decoder refuses a file that is cut off inside a code point |
| `LossyText.ReadDecodable` | apps/chunker/src/tree-sitter-fallback.ts:1007 | what the strict decoder accepts reads the same with replacement characters |
| `LossyText.ReadLength` | apps/chunker/src/tree-sitter-fallback.ts:1007 | reading any bytes gives at least a character for each code point they open, and one more if they start inside one |
| `Spans.TilesRebuild` | apps/chunker/src/tree-sitter-fallback.ts:1007 | the bytes of spans that tile a range concatenate to the range |
| `Spans.TextRebuild` | apps/chunker/src/tree-sitter-fallback.ts:1007 | their texts, read with replacement characters, concatenate to the text if and only if all cuts are on code points, and each other cut makes them longer |
| `Structural.StructuralUnits` | apps/chunker/src/tree-sitter-fallback.ts:321-357 | the recursion with its in-place edits of first and last records yields exactly `StructuralSpans` |
| `Structural.UnitsOfChildren` | apps/chunker/src/tree-sitter-fallback.ts:339-350 | the loop over the children, with gap bytes given to the first unit or split at lines |
| `Structural.ChildUnits` | apps/chunker/src/tree-sitter-fallback.ts:340-348 | one round of that loop appends exactly `Attached`, by assignment to the first record where the gap fits |
| `Structural.CloseUnits` | apps/chunker/src/tree-sitter-fallback.ts:351-355 | bytes behind the last child extend the last record in place or are split at lines |
| `StructuralProofs.StructuralTiles` | apps/chunker/src/tree-sitter-fallback.ts:321-357 | for every tree the units are non-empty, tile the node exactly and are within the limit |
| `StructuralProofs.WalkTiles` | apps/chunker/src/tree-sitter-fallback.ts:337-350 | the loop keeps its units tiling the node up to the cursor |
| `StructuralProofs.StructuralWhole` | apps/chunker/src/tree-sitter-fallback.ts:321-357 | if no wrapper is cut below it, a node that fits lies whole in one unit |
| `StructuralGaps.DividesIff` | apps/chunker/src/tree-sitter-fallback.ts:325-335 | exactly the oversized nodes with a non-empty named child of another range are divided at their children |
| `StructuralGaps.GapBeforeChild` | apps/chunker/src/tree-sitter-fallback.ts:341-347 | the bytes between a child and the one before it are in one unit with the child's own first unit if the two fit together, and otherwise line pieces in front of a unit that starts with the child |
| `StructuralGaps.TailBehindChildren` | apps/chunker/src/tree-sitter-fallback.ts:351-355 | the bytes behind the last child end the last unit if they fit with it, and otherwise are line pieces at the end |
| `StructuralGaps.ChildCutsKept` | apps/chunker/src/tree-sitter-fallback.ts:340-349 | inside a child the units of the node are cut exactly where the child's own units are |
| `StructuralGaps.UndividedAtLines` | apps/chunker/src/tree-sitter-fallback.ts:328-335 | an oversized node that is not divided is cut at lines and between code points |
| `FileChunks.StructuralAligned` | apps/chunker/src/tree-sitter-fallback.ts:321-357 | with offsets on code points and limit at least 4, all units start and end on code points |
| `WrapperCuts.NotIntactCut` | apps/chunker/src/tree-sitter-fallback.ts:328-335 | in a tree that is not intact some node that fits is cut in an ASCII text, between units that no merge can join |
| `FileChunks.ChunkSpans` | apps/chunker/src/tree-sitter-fallback.ts:974-984 | prefix, root and suffix units are assembled and merged as specified |
| `FileChunks.OuterAtLines` | apps/chunker/src/tree-sitter-fallback.ts:975-983 | the bytes before and behind the root are line pieces around the root's own units |
| `FileChunks.FileRebuilt` | apps/chunker/src/tree-sitter-fallback.ts:974-984 | the chunks tile the whole file within the limit, and their bytes concatenate to it |
| `FileChunks.FileText` | apps/chunker/src/tree-sitter-fallback.ts:1007 | chunk texts, read with replacement characters, concatenate to the file if and only if the cuts are on code points, which aligned nodes and a limit of at least 4 guarantee |
| `FileChunks.IntactStaysWhole` | apps/chunker/src/tree-sitter-fallback.ts:321-371 | in an intact tree every named node that fits lies whole in one final chunk, for every text |
| `FileChunks.NodesStayWholeIff` | apps/chunker/src/tree-sitter-fallback.ts:321-371 | the documented promise holds for all texts of a length if and only if the tree is intact |
| `FileChunks.WrapperExample` | apps/chunker/src/tree-sitter-fallback.ts:328-335 | a ten-byte tree for which a five-byte node is cut with limit six |
| `Merger.MergeAdjacent` | apps/chunker/src/tree-sitter-fallback.ts:359-371 | the pass over the records equals `MergeSpans` and leaves the caller's records alone |
| `Merger.MergeTiles` | apps/chunker/src/tree-sitter-fallback.ts:359-371 | blocks tile what the units tile, within the limit, with no new cut, each maximal |
| `Merger.NeighboursOverflow` | apps/chunker/src/tree-sitter-fallback.ts:364 | two neighbouring blocks total more than the limit |
| `Merger.StaysAhead` | apps/chunker/src/tree-sitter-fallback.ts:359-371 | the jth block ends no earlier than the jth block of any other grouping |
| `Merger.MergeOptimal` | apps/chunker/src/tree-sitter-fallback.ts:359-371 | no grouping of consecutive units within the limit has fewer blocks |
| `Merger.MergeCount` | apps/chunker/src/tree-sitter-fallback.ts:359-371 | k blocks over n bytes satisfy floor(k/2) * (limit + 1) <= n |
| `Merger.MergeIdempotent` | apps/chunker/src/tree-sitter-fallback.ts:359-371 | merging twice is merging once |
| `Merger.UnitsStayWhole` | apps/chunker/src/tree-sitter-fallback.ts:359-371 | every unit lies whole in one block |
| `Merger.EmptyUnitsIgnored` | apps/chunker/src/tree-sitter-fallback.ts:362 | empty units leave no trace |
| `Merger.MergeOnBoundaries` | apps/chunker/src/tree-sitter-fallback.ts:359-371 | cuts between code points stay between code points |
| `Lines.ComputeLineStarts` | apps/chunker/src/tree-sitter-fallback.ts:373-379 | the loop collects 0 and every index behind a newline |
| `Lines.LineAt` | apps/chunker/src/tree-sitter-fallback.ts:381-390 | the binary search finds the last start not behind the byte |
| `Lines.LineIsNewlineCount` | apps/chunker/src/tree-sitter-fallback.ts:373-390 | that line, and no other, is the number of newlines before the byte |
| `Lines.LineRange` | apps/chunker/src/tree-sitter-fallback.ts:870-873 | the line range of a chunk is that of its first and last byte |
| `Blocks.LogicalBlocks` | apps/chunker/src/tree-sitter-fallback.ts:737-754 | the bracket-depth scan yields exactly `BlocksOf` |
| `Blocks.LogicalUnits` | apps/chunker/src/tree-sitter-fallback.ts:730-763 | blocks too large are split at lines and the result merged, as specified |
| `Blocks.PlainTextBlocks` | apps/chunker/src/tree-sitter-fallback.ts:885-894 | the paragraph scan is the same scan without declarations and brackets |
| `Blocks.PlainTextUnits` | apps/chunker/src/tree-sitter-fallback.ts:883-903 | the paragraph units are the specified ones |
| `Blocks.BlocksTile` | apps/chunker/src/tree-sitter-fallback.ts:737-754 | blocks tile the file and are cut at line starts only, whatever the classification of lines |
| `BlockCuts.BlockStartsIff` | apps/chunker/src/tree-sitter-fallback.ts:740-753 | a line starts a block if and only if the largest surplus of openers over closers over the lines before it is zero, and it is a declaration or the line before it is blank |
| `BlockCuts.ParagraphStartsIff` | apps/chunker/src/tree-sitter-fallback.ts:887-893 | in plain text a line starts a paragraph if and only if the line before it is blank |
| `BlockCuts.BracketedWhole` | apps/chunker/src/tree-sitter-fallback.ts:746-753 | a run of lines whose every proper prefix leaves a bracket open lies whole in one block |
| `BlockCuts.UnitEnds` | apps/chunker/src/tree-sitter-fallback.ts:755-762 | every unit ends with a block, or inside one that does not fit, at the end of one of its line pieces |
| `Blocks.BlockUnitsRebuild` | apps/chunker/src/tree-sitter-fallback.ts:754-763 | units tile the file within the limit and concatenate to it |
| `Blocks.BlocksStayWhole` | apps/chunker/src/tree-sitter-fallback.ts:755-762 | a block that fits is never cut |
| `Blocks.BlockUnitsText` | apps/chunker/src/tree-sitter-fallback.ts:730-763 | on any text with limit at least 4 the unit texts, read with replacement characters, concatenate to the text |
| `Overlap.SelectLineOverlap` | apps/chunker/src/tree-sitter-fallback.ts:676-694 | despite the early exit: the whole-line suffix closest to the target in bytes, the longer one on a tie; none exactly for no target or no text |
| `Overlap.LongerIsFurther` | apps/chunker/src/tree-sitter-fallback.ts:691 | once past the target and further than the best, longer suffixes only get further |
| `Overlap.SelectedIsSuffix` | apps/chunker/src/tree-sitter-fallback.ts:678-693 | the selection is a non-empty suffix of the text from a line start, and the compared size is its UTF-8 size |
| `ChunkingWorker.AdaptChunks` | apps/chunker/src/index.ts:291-314 | chunks that are returned are within the budget, without retry exactly if the first ones were |
| `ChunkingWorker.AdaptDecides` | apps/chunker/src/index.ts:297-313 | the first of three attempts within the budget is taken, with its options and its number: as requested, a smaller size, that size with minimal context and no overlap; none if an attempt before it throws or none fits |
| `ChunkingWorker.ScaledSize` | apps/chunker/src/index.ts:301 | the smaller size is the whole number below size times budget over largest times 0.85, but at least 128 |
| `ChunkingWorker.ScaledShrinks` | apps/chunker/src/index.ts:301 | the retry asks for strictly smaller chunks above the floor of 128 |
| `ChunkingWorker.Settle` | apps/chunker/src/index.ts:363-405 | however a file ends, its chunks are within the budget, and there are none unless it succeeded |
| `ChunkingWorker.SettleDecides` | apps/chunker/src/index.ts:363-405 | a file fails exactly if its first chunks are missing, or do not fit and the first retry throws, or neither fits and the second retry throws or does not fit; otherwise it succeeds with the first attempt that fits |
| `ChunkingWorker.RefusedUnchunked` | apps/chunker/src/index.ts:505-547 | a file too large is skipped and one refused on loading ends as its check says, without chunks |
| `ChunkingWorker.Worker.EmitFile` | apps/chunker/src/index.ts:363-405 | the chunk events and then the file event of one file, closing its path |
| `ChunkingWorker.Worker.EmitResult` | apps/chunker/src/index.ts:363-405 | a file whose chunker returned or threw is closed once |
| `ChunkingWorker.Worker.SkipLarge` | apps/chunker/src/index.ts:539-547 | files above the size limit are closed as skipped, the others kept in order |
| `ChunkingWorker.Worker.RunBatch` | apps/chunker/src/index.ts:560 | loading and processing a batch closes every file of it |
| `ChunkingWorker.Worker.ProcessLargeFiles` | apps/chunker/src/index.ts:569-572 | every file above the streaming threshold is closed once |
| `ChunkingWorker.Worker.ProcessPool` | apps/chunker/src/index.ts:420-448 | any interleaving of the workers over the shared counter closes every file of the batch once |
| `ChunkingWorker.Worker.ProcessStream` | apps/chunker/src/index.ts:450-475 | the library stream, in any order, closes every file once |
| `ChunkingWorker.Worker.ProcessBatch` | apps/chunker/src/index.ts:407-476 | a batch closes all its files, each with the outcome that the library leads to if it knows the first or the file itself, and the other chunkers otherwise |
| `ChunkingWorker.Worker.LoadBatch` | apps/chunker/src/index.ts:505-525 | refused files are closed at once, the others returned in order |
| `ChunkingWorker.Worker.ProcessLarge` | apps/chunker/src/index.ts:478-503 | a large file is closed once, with the outcome of its own engine |
| `ChunkingWorker.Worker.ProcessOrdinary` | apps/chunker/src/index.ts:551-568 | the batching loop runs exactly the batches of the plan |
| `ChunkingWorker.Worker.ProcessRequest` | apps/chunker/src/index.ts:527-579 | every requested file is closed exactly once - its stream is its chunk events, then its file event - and completion comes last |
| `ChunkingWorker.BatchesSound` | apps/chunker/src/index.ts:551-568 | batches are the files in order, of one language each, and within the byte limit unless a single file |
| `ChunkingWorker.BatchesMaximal` | apps/chunker/src/index.ts:556-563 | a batch is closed only where the next file does not fit into it or has another language |
| `EngineDispatch.Serve` | apps/chunker/src/index.ts:527-579 | a request closes exactly its files, each with the outcome of the engine its batch decides |
| `EngineDispatch.EnginesAssigned` | apps/chunker/src/index.ts:420-450 | these engines are those of the batches that the batching loop makes |
| `EngineDispatch.ClashMisleads` | apps/chunker/src/index.ts:555 | two files that clash make a request in which the second gets the engine of the first, and another than in a request of its own |
| `EngineDispatch.ForeignEngineClashes` | apps/chunker/src/index.ts:420-450 | a file that does not get its own engine clashes with a batch mate |
| `EngineDispatch.OwnEngineIff` | apps/chunker/src/index.ts:531-568 | in every sorted request every file gets its own engine if and only if no two files of one batching language that fit a batch disagree on whether the library knows them |
| `EngineDispatch.EngineIndependentIff` | apps/chunker/src/index.ts:531-568 | a file gets the same engine in every sorted request it is in if and only if no two files clash |
| `ChunkingClient.ChunkingWorkerClient.ChunkFiles` | apps/api/app/chunking/client.py:87-157 | the read loop equals `Converse` on the lines, overlong and unreadable ones included; a failed request costs the process and counts a restart |
| `ChunkingClient.StepAgrees` | apps/api/app/chunking/client.py:116-137 | an event that fits the reader advances the desk exactly as the events of its own path demand |
| `ChunkingClient.AcceptsExactly` | apps/api/app/chunking/client.py:87-142 | for any lines: a request succeeds if and only if the first line that is no readable, well-formed event of it is its completion by the right engine and each path's own events before it are in order, and then each path gets the results of its own events |
| `ChunkingClient.ErrorNamesLine` | apps/api/app/chunking/client.py:90-142 | a request that fails does so for what is wrong with its first line that is no event, because there is none, or because a failed file had chunks |
| `ChunkingClient.AcceptsAnyInterleaving` | apps/api/app/chunking/client.py:87-142 | events followed by the completion succeed if and only if every record fits the reader and each path's own events are in order; one overlong record among events in order is the error raised |
| `ChunkingClient.ReassemblesStreams` | apps/api/app/chunking/client.py:87-142 | any interleaving of one complete stream per path is accepted exactly if all records fit, and yields each file once with exactly its chunks in order |
| `ChunkingClient.OverlongRecord` | apps/api/app/chunking/client.py:138-142 | one chunk with doc comments beyond the limit fails a request whose streams are complete and in order |
| `WorkerProtocol.RequestReassembled` | apps/chunker/src/index.ts:527-579 | what a worker writes for a request is accepted if and only if every record fits the reader, and then yields each file the outcome of its batch's engine, and no other file |
| `WorkerProtocol.LongDocsFailRequest` | apps/chunker/src/index.ts:197-212 | a file whose one chunk is within the token budget but carries doc comments beyond the reader's limit fails the whole request, whatever the other files are |
| `JobQueue.Database.ClaimNext` | apps/api/app/services/chunking.py:583-616 | lapsed leases go back to the queue; the oldest job that is due is claimed, started and leased, none only if none is due |
| `JobQueue.Database.Heartbeat` | apps/api/app/services/chunking.py:494-510 | sets the lease of a running job to the lease time from now and changes nothing else |
| `JobQueue.Database.RefreshLease` | apps/api/app/services/chunking.py:488-492 | sets the lease of the job to the lease time from now, whatever its state, and changes nothing else |
| `JobQueue.Database.RecordFailure` | apps/api/app/services/chunking.py:512-528 | retry with backoff of two to the attempts while attempts remain, else failed |
| `JobQueue.Database.RecordSuccess` | apps/api/app/services/chunking.py:471-473 | a published job is finished and gives up its lease |
| `JobQueue.Database.RequeueFailed` | apps/api/app/services/chunking.py:123-144 | only a failed job is queued afresh, and then it is like one just created |
| `JobQueue.Database.EnsureJob` | apps/api/app/services/chunking.py:94-120 | an existing job is left alone |
| `JobQueue.Database.DeleteJob` | apps/api/app/db/models.py:211-213 | deleting a snapshot deletes its job and no other |
| `JobQueue.EveryRunSound` | apps/api/app/services/chunking.py:488-616 | every reachable state of any number of workers, stale ones included, keeps the invariant of leases, attempts and their account |
| `JobQueue.RunGuarantees` | apps/api/app/services/chunking.py:488-616 | in every run, stale workers included, a running job has a lease, attempts are at most the budget plus lapsed leases, and are exactly the lapsed, the retried and the one under way or last |
| `JobQueue.RetryBacksOff` | apps/api/app/services/chunking.py:523-525 | in every run, stale workers and deletions included, a retried job is not claimed before its backoff has passed unless it is queued afresh |
| `JobQueue.BackoffMultiplies` | apps/api/app/services/chunking.py:523-525 | the backoff after a + b attempts is the product of those after a and after b |
| `JobQueue.EveryRunHeld` | apps/api/app/services/chunking.py:488-616 | as long as no live holder's lease lapses at a claim, each job is held by at most one worker and no other job has a lease |
| `JobQueue.HoldersExclusive` | apps/api/app/services/chunking.py:488-616 | then no two workers are busy with one job, exactly running jobs have leases, and attempts are exactly the lapsed, the retried and the last |
| `JobQueue.TwoHolders` | apps/api/app/services/chunking.py:586-593 | without that, a run in which two workers hold one job |
| `JobQueue.SecondHolderIff` | apps/api/app/services/chunking.py:583-616 | where jobs have one holder each, a claim gives its job a second one if and only if a live worker holds it and its lease has lapsed |
| `JobQueue.ExclusiveIff` | apps/api/app/services/chunking.py:583-616 | throughout a run no two workers work on one job if and only if no claim takes a job that another worker still works on |
| `JobLeases.LeaseHolds` | apps/api/app/services/chunking.py:488-510 | in every run, stale workers included, a job that is claimed or renewed runs on its lease for the lease time, as long as no worker ends it |
| `JobLeases.NotClaimedEarly` | apps/api/app/services/chunking.py:586-616 | so nobody claims it before the lease time is over |
| `JobLeases.RenewingKeepsExclusive` | apps/api/app/services/chunking.py:488-616 | if at every claim each live holder has claimed or renewed within the lease time, no lease lapses while its holder lives and no two workers work on one job |
| `JobLeases.LapsedIsTakenUp` | apps/api/app/services/chunking.py:586-606 | in every run a job whose lease has lapsed is due, so a worker that asks does not go away with nothing |
| `JobQueue.FinishedChangesBy` | apps/api/app/services/chunking.py:255-265 | whatever the leases, a finished job changes only by deletion, queueing it afresh, a failing collection, or a worker that still believes it holds it |
| `JobQueue.TerminalChanges` | apps/api/app/services/chunking.py:255-265 | as long as leases are kept, a finished job goes if and only if it is deleted with its snapshot, and changes if and only if a failed one is queued afresh or the collection after publishing fails |
| `JobQueue.PublishedJobCanFail` | apps/api/app/services/chunking.py:255-265 | for every setting a run in which a succeeded job is queued again, or fails if one attempt is allowed |
| `JobQueue.CrashesAreNotCounted` | apps/api/app/services/chunking.py:586-593 | for every setting and every n a run without failures in which a job is claimed n times |
| `ArtifactStore.Store.FindReusable` | apps/api/app/services/chunking.py:270-295 | an entry is reused exactly if not skipped and an artifact of the repository, profile, path and content exists |
| `ArtifactStore.Store.IndexByIdentity` | apps/api/app/services/chunking.py:280-290 | the index names only matching artifacts and leaves out none with a wanted content |
| `ArtifactStore.Store.Publish` | apps/api/app/services/chunking.py:297-475 | the loop, its counters and its errors equal `Published`; on an error nothing changes |
| `ArtifactStore.Store.GarbageCollect` | apps/api/app/services/chunking.py:530-539 | exactly the artifacts that a row names remain |
| `ArtifactStore.Store.DeleteSnapshot` | apps/api/app/db/models.py:317-330 | deleting a snapshot deletes its rows and reports and nothing else |
| `ArtifactRecords.PlaceRecords` | apps/api/app/services/chunking.py:321-450 | recording one entry adds exactly its row and at most the artifact of its own answer |
| `ArtifactRecords.PlacedRecords` | apps/api/app/services/chunking.py:321-450 | after the loop every entry has its row - skipped, the artifact reused, or the worker's answer - new artifacts are answers, and no other job's rows changed |
| `ArtifactRecords.PublishedRecords` | apps/api/app/services/chunking.py:297-475 | so much for a whole publication, whatever was collected or added since the batch was read |
| `ArtifactRecords.ReportAddsUp` | apps/api/app/services/chunking.py:457-461 | discovered is the sum of successful, skipped and failed, and something succeeded |
| `ArtifactRecords.ReportFields` | apps/api/app/services/chunking.py:457-462 | supported are the files a request for the whole snapshot would ask for, reused the artifacts found, created the chunks of the worker's answers |
| `ArtifactRecords.AskedAndReused` | apps/api/app/services/chunking.py:228-233 | files asked for and files reused add up to the files supported |
| `ArtifactReuse.PublishKeepsTables` | apps/api/app/services/chunking.py:297-475 | a publication under any profile keeps the tables sound: each artifact and row is what the request it comes from makes |
| `ArtifactReuse.CollectKeeps` | apps/api/app/services/chunking.py:530-539 | a collection keeps every published row right |
| `ArtifactReuse.DeleteKeeps` | apps/api/app/db/models.py:317-330 | a deletion keeps the rows of all other snapshots right |
| `ArtifactReuse.FoundIsSafe` | apps/api/app/services/chunking.py:270-295 | what was found for reuse stays right for as long as it exists |
| `ArtifactReuse.EveryRunSound` | apps/api/app/services/chunking.py:210-539 | the invariant holds after every sequence of finds, publications under any profiles, deletions and collections, with stale finds |
| `ArtifactReuse.HistoryRequested` | apps/api/app/services/chunking.py:228-241 | every request recorded as an origin was made by a processor of the run, under its profile and for the files not reused |
| `ArtifactReuse.ReachesOrigins` | apps/api/app/services/chunking.py:210-475 | after any run a published snapshot reaches file by file exactly what the requests behind its rows make |
| `ArtifactReuse.AsFromScratchIff` | apps/api/app/services/chunking.py:210-475 | after any run that is what chunking it from scratch gives if and only if each of these requests makes the same of its file as one for the whole snapshot under the job's profile |
| `ArtifactReuse.NoReferencedArtifactCollected` | apps/api/app/services/chunking.py:530-539 | after any run every row names an existing artifact |
| `ArtifactOutcomes.FreshPlacedSucceeds` | apps/api/app/services/chunking.py:321-450 | reusing what is there now never aborts a publication |
| `ArtifactOutcomes.ReportAsMade` | apps/api/app/services/chunking.py:452-462 | in every run a report counts each entry as it came out in the request that its row records, adding up to the manifest |
| `ArtifactOutcomes.PublishesUnlessNothingToChunk` | apps/api/app/services/chunking.py:452-456 | in every run, with a fresh look-up and complete answers, publishing fails if and only if no entry yields a chunk in the request behind it |
| `ArtifactProfiles.PublishedReaches` | apps/api/app/services/chunking.py:239-255 | a reused entry reaches its artifact, any other what the processor's request makes of it, whatever the store holds |
| `ArtifactProfiles.PublishedAsFromScratchIff` | apps/api/app/services/chunking.py:239-255 | a publication is as from scratch if and only if each artifact it reuses holds what chunking afresh gives and the processor's request makes the same of every other file |
| `ArtifactProfiles.ProfilesMustAgree` | apps/api/app/services/chunking.py:239-255 | under a profile new to the store it is so for every worker if and only if the two profiles are the same |
| `ArtifactRequests.IncrementalEqualsFromScratch` | apps/api/app/services/chunking.py:270-475 | with processors under the jobs' profiles and a worker that treats files alike in every request, a published snapshot reaches in every run, file by file and in order, the chunks of chunking it from scratch |
| `ArtifactRequests.IncrementalIff` | apps/api/app/services/chunking.py:230-241 | with processors under the jobs' profiles all runs agree with chunking from scratch if and only if the worker treats files alike in every request |
| `ArtifactRequests.ReportAsFromScratch` | apps/api/app/services/chunking.py:452-462 | under the same conditions for the kinds of outcome a report counts successful, skipped and failed files as chunking from scratch would |
| `ArtifactRequests.RevertedSettings` | apps/api/app/services/chunking.py:239-241 | a run with a setting changed and changed back, whose last snapshot is as from scratch if and only if the two profiles make the same of the file |
| `EmbeddingStore.Embedder.EmbedAndStore` | apps/api/app/services/embeddings.py:175-219 | an attempt's effect on the store, its reports and its counts are the specified ones; nothing is written unless all batches were answered |
| `EmbeddingStore.Embedder.Upsert` | apps/api/app/services/embeddings.py:214 | one batch of records is written |
| `EmbeddingStore.Embedder.WriteBatches` | apps/api/app/services/embeddings.py:212-216 | batches are written and reported one by one until the store or a report fails; a batch whose report fails stays written |
| `EmbeddingStore.Embedder.WriteAll` | apps/api/app/services/embeddings.py:212-219 | all batches, with a report even if there are none, which may fail too |
| `EmbeddingProofs.GatheredRecords` | apps/api/app/services/embeddings.py:199-211 | the gathered records are those of the batches, each with its own vector |
| `EmbeddingProofs.PendingExactly` | apps/api/app/services/embeddings.py:185-187 | pending are exactly the inputs whose stored hash is not that of their text |
| `EmbeddingProofs.BatchesPartition` | apps/api/app/services/embeddings.py:189-192 | batches hold the pending inputs in order and each once |
| `EmbeddingProofs.BatchesFull` | apps/api/app/services/embeddings.py:189-192 | every batch but the last is full, and none is empty or larger than the limit |
| `EmbeddingProofs.AttemptKeepsSound` | apps/api/app/services/embeddings.py:175-219 | however an attempt ends, every stored vector is that of the text whose hash it carries |
| `EmbeddingProofs.FinishedIsUpToDate` | apps/api/app/services/embeddings.py:175-219 | a finished attempt leaves every input stored with its current vector, and stored plus skipped are all inputs |
| `EmbeddingProofs.FinishedTwice` | apps/api/app/services/embeddings.py:185-188 | a second attempt stores nothing and skips everything, and can only fail to report that |
| `EmbeddingJobs.Try` | apps/api/app/services/embeddings.py:142-147 | one attempt with one model changes that model's data as specified and no other's |
| `EmbeddingJobs.Process` | apps/api/app/services/embeddings.py:122-172 | no inputs are an error that is not retried; otherwise one attempt with the first model its provider does not refuse decides - it succeeds once that is saved, else it is an internal error - and with none all models are unavailable; data and reports are those of that attempt alone |
| `EmbeddingJobs.JobKeepsSound` | apps/api/app/services/embeddings.py:122-172 | however a job ends, every stored vector is that of the text whose hash it carries |
| `EmbeddingJobs.JobSucceeded` | apps/api/app/services/embeddings.py:141-161 | a job that succeeds leaves every input stored with its current vector under the one model selected, and stored plus skipped are all inputs |
| `EmbeddingOutcomes.FinishesIff` | apps/api/app/services/embeddings.py:199-219 | an attempt finishes if and only if every batch is answered with as many vectors as it has texts, and no write and no report fails, of which there is at least one |
| `EmbeddingOutcomes.FinishedCounts` | apps/api/app/services/embeddings.py:188-219 | a finished attempt counts every input as stored or skipped, and says so in its last report |
| `EmbeddingOutcomes.NothingUnlessAnswered` | apps/api/app/services/embeddings.py:209-211 | unless every batch is answered with the right number of vectors, nothing is written or reported |
| `EmbeddingOutcomes.BreaksOff` | apps/api/app/services/embeddings.py:212-216 | there are as many reports as batches before the first failing write or report, each counting what is written by then |
| `EmbeddingOutcomes.SucceedsIff` | apps/api/app/services/embeddings.py:141-172 | a job with inputs and a willing model succeeds if and only if the attempt with the first one runs through and is saved; it reports the models refused before it, and what was stored and skipped |
| `Sse.ReadFrame` | apps/web/src/lib/api-client.ts:134-140 | the loop over the lines of a frame equals `ParseFrame` |
| `Sse.Dispatch` | apps/web/src/lib/api-client.ts:133-147 | handlers are called for the events in order until one ends the conversation |
| `Sse.StreamChat` | apps/web/src/lib/api-client.ts:127-149 | the read loop equals `ReceiveAll` on the fragments |
| `Sse.FrameParses` | apps/api/app/api/routes/chat.py:60-61 | a printed frame parses to its event |
| `Sse.TrimIs` | apps/api/app/api/routes/chat.py:137-138 | trimming a value removes the white space around it and nothing else |
| `SseFrames.FrameMeaning` | apps/web/src/lib/api-client.ts:134-141 | any frame is skipped without data lines, and is otherwise one event: the last name in it or "message", its data lines trimmed and joined in order; other lines do not matter |
| `Sse.SplitInParts` | apps/web/src/lib/api-client.ts:130-132 | splitting frames as fragments arrive equals splitting the whole, as long as the buffer is carried over |
| `Sse.NormalizeInParts` | apps/web/src/lib/api-client.ts:130 | normalising line ends in two parts equals normalising the whole if and only if no CRLF is cut |
| `Sse.FragmentationIrrelevant` | apps/web/src/lib/api-client.ts:127-149 | unless a CRLF is cut, only the concatenation of the fragments matters |
| `SseFragments.NormalizedIff` | apps/web/src/lib/api-client.ts:130 | normalising fragment by fragment is normalising the whole if and only if no border falls inside a CRLF |
| `SseFragments.ReceivesNormalized` | apps/web/src/lib/api-client.ts:127-149 | however a stream is cut, the client handles it like its normalised fragments in one piece |
| `SseFragments.LostEvent` | apps/web/src/lib/api-client.ts:130-149 | for every printable event a cut inside the CRLFs that close its frame makes the client lose it without an error |
| `Sse.RoundTrip` | apps/api/app/api/routes/chat.py:60-61 | for every list of printed events and every fragmentation the client handles exactly those events in order and ends with an empty buffer |
| `Sse.StreamedEvents` | apps/web/src/lib/api-client.ts:127-149 | of a stream cut off anywhere the client handles exactly the complete frames and buffers the rest |
| `Sse.ConversationDelivered` | apps/api/app/api/routes/chat.py:128-150 | sources once and first, then every delta in order, and an error is thrown exactly if the server sent one |
| `Sse.CutOffUnnoticed` | apps/web/src/lib/api-client.ts:142-148 | a conversation cut off before its last frame raises no error |
| `StableSort.SortStable` | apps/api/app/services/chat.py:75-88 | elements that tie keep their order |
| `StableSort.SortedUnique` | apps/api/app/services/chat.py:75-88 | only one arrangement is sorted and keeps the order of ties |
| `RankFusion.RankCharacterized` | apps/api/app/services/chat.py:75-88 | the ranking is the one permutation sorted by score and quality that keeps the order of ties |
| `RankFusion.AddChannel` | apps/api/app/services/chat.py:113-128 | one channel adds weight / (k + first rank) for each id once, keeps the best rank and merges payloads |
| `FusedRanking.BuildBoard` | apps/api/app/services/chat.py:105-128 | the board holds exactly the ids of both channels with their fused entries |
| `FusedRanking.SortedBoard` | apps/api/app/services/chat.py:130-138 | the fused entries in strict order |
| `FusedRanking.TopRecords` | apps/api/app/services/chat.py:139-146 | the first limit entries as records |
| `FusedRanking.Fuse` | apps/api/app/services/chat.py:91-146 | the limit best ids of both channels, strictly ordered by score, quality, best rank and id, each with the sum of its shares |
| `FusedRanking.FusionDistinct` | apps/api/app/services/chat.py:130-146 | no id twice, scores not increasing |
| `FusedRanking.FusionUnique` | apps/api/app/services/chat.py:130-146 | the fused list is the only list with these properties |
| `FusionScores.InBothChannels` | apps/api/app/services/chat.py:109-128 | a record listed in both channels scores the sum of each weight over k plus its first rank there, and has both payloads, the keyword channel's on top |
| `FusionScores.InDenseOnly` | apps/api/app/services/chat.py:109-128 | one listed in the dense channel only has that share and that payload |
| `FusionScores.InKeywordOnly` | apps/api/app/services/chat.py:109-128 | and likewise for the keyword channel |
| `FusionScores.ReturnedIsListed` | apps/api/app/services/chat.py:114-117 | only listed, non-empty ids are returned |
| `FusionScores.ListedIsReturned` | apps/api/app/services/chat.py:130-146 | and all of them, unless the limit is reached |
| `FusionScores.ReturnedOrder` | apps/api/app/services/chat.py:130-138 | earlier records have the higher score, then the higher quality, then the better rank in a channel, then the smaller id |
| `FusionScores.LessIs` | apps/api/app/services/chat.py:136 | ids are compared character by character |
| `FusionScores.RankedOrder` | apps/api/app/services/chat.py:75-88 | the ranking before fusion is by score, then quality |
| `FusionProperties.BetterRanksScoreHigher` | apps/api/app/services/chat.py:109-120 | an id ranked no worse in both channels never scores lower, and higher if better in either |
| `FusionProperties.FirstInBothIsFirst` | apps/api/app/services/chat.py:91-146 | what both channels rank first is returned first |
| `FusionProperties.TopSorted` | apps/api/app/services/chat.py:154-157 | ranking a ranked pool again changes nothing |
| `FusionProperties.Candidates` | apps/api/app/services/chat.py:149-162 | candidates are the fusion of the bounded pools |
| `RelevanceGate.ApplyRerankerScores` | apps/api/app/services/chat.py:165-195 | wrong counts and invalid scores are errors; otherwise the beginning of the ranking of the candidates whose score reaches the absolute threshold and the relative one under every score, as many as there are or the limit allows |
| `RelevanceGate.GateIsBestRelevant` | apps/api/app/services/chat.py:177-195 | the floor of the source selects exactly these candidates |
| `RelevanceGate.ReturnedAreRelevant` | apps/api/app/services/chat.py:181-195 | every record returned is a candidate with its score that reaches both thresholds |
| `RelevanceGate.Validate` | apps/api/app/services/chat.py:171-178 | accepts exactly scores between zero and one, and finds the highest |
| `RelevanceGate.Keep` | apps/api/app/services/chat.py:181-194 | keeps in order the candidates at or above the floor, with their new scores |
| `RelevanceGate.RankAtLeast` | apps/api/app/services/chat.py:181-195 | cutting at a floor and ranking commute |
| `RelevanceGate.RaisingThresholdsCuts` | apps/api/app/services/chat.py:177-195 | raising either threshold leaves a prefix of the earlier result |
| `RelevanceGate.ReturnsSomethingIff` | apps/api/app/services/chat.py:177-195 | something is returned if and only if some score reaches the absolute threshold |
| `History.FindsEveryTurn` | apps/api/app/services/chat.py:241-249 | the scan finds every question directly followed by its answer |
| `History.FindsOnlyTurns` | apps/api/app/services/chat.py:241-249 | it finds nothing else, and no two overlap |
| `History.CollectTurns` | apps/api/app/services/chat.py:241-249 | the scanning loop yields exactly these turns |
| `History.BoundedHistory` | apps/api/app/services/chat.py:238-259 | both loops yield the newest turns that `KeptFrom` selects, oldest first |
| `History.KeepsLongest` | apps/api/app/services/chat.py:253-258 | what is kept fits both budgets and no longer run of newest turns does |
| `History.LongestWithinBudgets` | apps/api/app/services/chat.py:251-259 | the messages that go into the prompt are within both budgets in number and characters, and with any number of older turns more they would not be |
| `History.KeptWithinBudgets` | apps/api/app/services/chat.py:251-259 | messages and characters kept are within the budgets, questions and answers alternate |
| `RateLimiter.EvaluationRateLimiter.Acquire` | apps/api/app/evaluation/rate_limit.py:39-66 | admits at a legal time, records it, sleeps at most window length + 1 times; with an exact sleeper at the earliest legal time |
| `RateLimiter.EvaluationRateLimiter.Check` | apps/api/app/evaluation/rate_limit.py:47-59 | purges the window and computes the wait without touching an empty window |
| `RateLimiter.EvaluationRateLimiter.Purge` | apps/api/app/evaluation/rate_limit.py:48-49 | drops exactly the admissions that are a minute old |
| `RateLimiter.EvaluationRateLimiter.ComputeWait` | apps/api/app/evaluation/rate_limit.py:50-59 | the wait is `WaitFor`, and the window is read only when it is not empty |
| `RateLimiter.EvaluationRateLimiter.AwaitTurn` | apps/api/app/evaluation/rate_limit.py:46-62 | the loop ends, within window length + 1 sleeps, when admission is legal |
| `RateLimiter.EvaluationRateLimiter.Admit` | apps/api/app/evaluation/rate_limit.py:63-66 | admits at the second clock reading, which is still legal |
| `RateLimiter.WaitIsNeeded` | apps/api/app/evaluation/rate_limit.py:50-60 | the wait is over exactly when admission is legal, and not before |
| `RateLimiter.WaitHelps` | apps/api/app/evaluation/rate_limit.py:58-62 | each sleep makes progress |
| `RateLimiter.LegalLater` | apps/api/app/evaluation/rate_limit.py:63 | an admission that is legal stays legal |
| `RateLimiter.EveryRunAdmissible` | apps/api/app/evaluation/rate_limit.py:39-66 | with a monotone clock every run admits legally, for any sleeper |
| `RateLimiter.EveryAdmissionRecorded` | apps/api/app/evaluation/rate_limit.py:63-66 | in every run each turn that finds its admission legal is recorded behind those before it, with its time and tokens |
| `RateLimiter.EveryMinuteWithinBudget` | apps/api/app/evaluation/rate_limit.py:39-66 | every half-open minute holds at most the budgeted requests and tokens |
| `RateLimiter.RunWithinBudget` | apps/api/app/evaluation/rate_limit.py:39-66 | any admissions less than a minute apart, with all between them, are within both budgets |
| `RateLimiter.AdmissionsApart` | apps/api/app/evaluation/rate_limit.py:44-52 | admissions are at least 60 / requests-per-minute apart |
| `RateLimiter.SpacingBoundsMinute` | apps/api/app/evaluation/rate_limit.py:44-52 | spacing alone keeps every minute within the request budget |
| `RateLimiter.SpacingBoundsRecent` | apps/api/app/evaluation/rate_limit.py:44-52 | when the spacing allows the next admission, fewer than the allowed requests are in the window |
| `RateLimiter.CountCheckRedundant` | apps/api/app/evaluation/rate_limit.py:50-59 | with admissions spaced as they are, the wait computed is the one computed without the test of the number of requests, at any time |
| `EvaluationRunner.Run.Begin` | apps/api/app/evaluation/service.py:98-126 | saved scored records are taken over at their index, or refused exactly if an index is invalid or repeated |
| `EvaluationRunner.Run.EndOfAttempt` | apps/api/app/evaluation/service.py:131-180 | the block at the end of an attempt is the step `EndAttempt` |
| `EvaluationRunner.Run.BeginSaving` | apps/api/app/evaluation/service.py:160-171 | the block under the lock is the step `BeginSave` |
| `EvaluationRunner.Run.EndSaving` | apps/api/app/evaluation/service.py:160-208 | the lock is released and the task is over or attempts again |
| `EvaluationRunner.Run.StartRetrying` | apps/api/app/evaluation/service.py:212-215 | one retry task per failed example, none without retries |
| `EvaluationProofs.StepKeeps` | apps/api/app/evaluation/service.py:131-215 | every block of every task keeps the invariant |
| `EvaluationRuns.ProgressAddsUp` | apps/api/app/evaluation/service.py:160-171 | in every interleaving each progress call sees completed = scored + failed, examples = completed + retrying, completed never falling |
| `EvaluationRuns.RetriesWaitForFirstPass` | apps/api/app/evaluation/service.py:184-215 | while a retry is under way every first attempt has been recorded |
| `EvaluationRuns.FinishedRun` | apps/api/app/evaluation/service.py:184-217 | a finished run has completed all, retries nothing, tried each example as often as recorded (1 to retries + 1, all of them if failed) and left recovered results alone |
| `EvaluationRuns.StepProgress` | apps/api/app/evaluation/service.py:184-215 | every block brings the end nearer |
| `EvaluationRuns.SomethingRunnable` | apps/api/app/evaluation/service.py:160-171 | no deadlock on the progress lock |
| `EvaluationRuns.RunPass` | apps/api/app/evaluation/service.py:184-215 | a pass ends with every task done, whatever the order and the outcomes |
| `EvaluationRuns.RecoveredSound` | apps/api/app/evaluation/service.py:105-115 | what is taken over are scored records at their own index |
| `EvaluationRuns.Evaluate` | apps/api/app/evaluation/service.py:98-217 | a whole run with any scheduling and any outcomes ends, and ends well, or is refused exactly if recovery is |
| `EvaluationRuns.ResumeRestoresScores` | apps/api/app/evaluation/service.py:105-115 | a run resumes from any report of any run with exactly the scored records |
| `EvaluationReports.ReportsEachSave` | apps/api/app/evaluation/service.py:160-171 | in every run there is one progress call at the start and one for each save, and the last one counts the records as they are: scored, failed, to be retried, tried more than once |
| `EvaluationReports.RecordsEveryError` | apps/api/app/evaluation/service.py:131-180 | the record a finished run keeps of an example lists the errors of its attempts in order, and it succeeded if and only if one attempt had none |
| `VectorCache.NextBatch` | apps/api/app/evaluation/retrieval.py:308-324 | the inner loop collects the run of missing inputs as far as both limits allow |
| `VectorCache.PlanBatches` | apps/api/app/evaluation/retrieval.py:302-325 | the planning loop yields exactly `Plan` |
| `VectorCache.PlanCovers` | apps/api/app/evaluation/retrieval.py:302-325 | the batches submit the missing indices in order and each once |
| `VectorCache.PlanGood` | apps/api/app/evaluation/retrieval.py:302-325 | each batch keeps the count limit and the character limit (single inputs excepted) and stops only where it must |
| `VectorAttempts.StoreBatch` | apps/api/app/evaluation/retrieval.py:340-341 | the vectors of a batch are stored at its indices |
| `VectorAttempts.EmbeddingCache.RunBatches` | apps/api/app/evaluation/retrieval.py:343-349 | the result of all batches does not depend on their order |
| `VectorAttempts.FirstFailure` | apps/api/app/evaluation/retrieval.py:350-352 | the error raised is that of the first failed batch in submission order |
| `VectorAttempts.FirstErrorIs` | apps/api/app/evaluation/retrieval.py:327-352 | that is the provider's error with its flag, a wrong number of vectors, or any other error of the first batch, in submission order, that did not work |
| `VectorAttempts.EmbeddingCache.EmbedBatch` | apps/api/app/evaluation/retrieval.py:327-341 | a retryable failure halves the batch size, a good answer is stored at its indices |
| `VectorAttempts.EmbeddingCache.EmbedDocuments` | apps/api/app/evaluation/retrieval.py:290-355 | in any order of batches: what works is kept, the first error in submission order is raised, else the list is complete |
| `VectorAttempts.EmbeddingCache.CachedDocumentVectors` | apps/api/app/evaluation/retrieval.py:275-288 | a complete list is cached and drops its partial state; other corpora are untouched |
| `VectorAttempts.NoErrorCompletes` | apps/api/app/evaluation/retrieval.py:350-354 | without errors nothing is missing, so the final check never fires |
| `VectorRuns.NeverResubmitted` | apps/api/app/evaluation/retrieval.py:302-325 | across all attempts a stored vector is never submitted again and never changes |
| `VectorRuns.EachMissingOnce` | apps/api/app/evaluation/retrieval.py:302-325 | each attempt submits exactly the missing inputs, each once, within the limits |
| `VectorRuns.SuccessIsAligned` | apps/api/app/evaluation/retrieval.py:290-355 | after any failed attempts, success gives every input its own embedding |
| `VectorRuns.SizesHalve` | apps/api/app/evaluation/retrieval.py:332-334 | batch sizes never grow, and n retryable failures reduce them to the nth part by two or to one |
| `RepositoryChunks.FileWindows` | apps/api/app/evaluation/retrieval.py:173-205 | the nested loops terminate with exactly `Windows` |
| `RepositoryChunks.GrowWindow` | apps/api/app/evaluation/retrieval.py:176-180 | the inner loop grows the window while it fits, and always by one line |
| `RepositoryChunks.StepBackFrom` | apps/api/app/evaluation/retrieval.py:199-205 | the loop that finds the next start |
| `RepositoryChunks.WindowFits` | apps/api/app/evaluation/retrieval.py:178 | a window fits and the following line does not |
| `RepositoryChunks.WindowsCover` | apps/api/app/evaluation/retrieval.py:173-205 | starts strictly increase, ends do not decrease, no line or gap is left, each window is within the target or one line |
| `RepositoryChunks.NextWindow` | apps/api/app/evaluation/retrieval.py:197-205 | the next window ends where this one does exactly if it overlaps it and the following line does not fit |
| `RepositoryChunks.OverlapSize` | apps/api/app/evaluation/retrieval.py:199-204 | the overlap reaches its target, or is all but the first line, and with a line less would not |
| `RepositoryChunks.WindowsFollow` | apps/api/app/evaluation/retrieval.py:173-205 | between any two neighbouring windows of a file: the line behind the first did not fit, and the second repeats as many of its last lines as reach the rounded share of its size (and a character), never its first line, and not one more |
| `RepositoryChunks.FileRebuilt` | apps/api/app/evaluation/retrieval.py:173-205 | dropping overlaps rebuilds the file |
| `RepositoryChunks.RepeatedEnd` | apps/api/app/evaluation/retrieval.py:197-205 | three lines whose second window lies inside the first |
| `Sampling.BalancedTargets` | apps/api/app/evaluation/datasets.py:193-198 | each group gets its share, the first in the seed's order one more |
| `Sampling.GroupRows` | apps/api/app/evaluation/datasets.py:208-212 | each group collects exactly its rows, in order |
| `Sampling.GroupedOnce` | apps/api/app/evaluation/datasets.py:208-212 | grouping uses no row twice |
| `Sampling.DrawAll` | apps/api/app/evaluation/datasets.py:222-227 | the rounds draw exactly count rows in turn, without reuse |
| `Sampling.DrawRound` | apps/api/app/evaluation/datasets.py:224-226 | one round draws the last row of every group that has one left |
| `BalancedSamples.ShuffleGroups` | apps/api/app/evaluation/datasets.py:219-220 | the groups are shuffled in turn by one generator |
| `BalancedSamples.RngRemembers` | apps/api/app/evaluation/datasets.py:218-220 | before a group is shuffled, the generator has shuffled exactly the order and the groups before it |
| `BalancedSamples.HasEnough` | apps/api/app/evaluation/datasets.py:213-215 | whether every group has as many rows as its target |
| `BalancedSamples.BalancedRandomSample` | apps/api/app/evaluation/datasets.py:201-227 | fails exactly if a group has too few rows, else exactly count rows without reuse, place p from group p mod g of the seed's order |
| `BalancedSamples.FailsOnlyIfImpossible` | apps/api/app/evaluation/datasets.py:213-217 | it fails only if no rows of the partition could be drawn in turn that often |
| `BalancedSamples.EveryPrefixBalanced` | apps/api/app/evaluation/datasets.py:222-227 | in every prefix any two groups differ by at most one |
| `BalancedSamples.PrefixCount` | apps/api/app/evaluation/datasets.py:222-227 | of n rows each group has one per whole round and one more if its turn has come |

## Left out

- Parsing, grammars and the contents of chunk context, entity extraction, signatures and formatting: given trees and abstract classifiers instead.
- `normalizeChunk`, quality bands, model catalogues and path filters: tables without a deep property.
- HTTP providers, Qdrant, SQL ranking, GitHub, tar and file handling, OAuth, React components, migrations: I/O or no deep property. Calls into them are parameters, and their failures outcomes.
- The order in which the database or Python reports one of several transient errors of a publication: the model reports the first in manifest order; the transaction is rolled back either way.
- Job counters other than those in a report (bytes, timings, adaptive retries) and error texts.
- One queue stands for three: the embedding runner (`apps/api/app/services/embeddings.py:284-377`) and the ingestion runner (`apps/api/app/services/ingestion.py:191-297`) claim, renew and retry alike.
- Delays between retries of an evaluation example and of a provider call: when a retry starts is a step of the scheduler.
- Cancellation of an evaluation in the middle: a run that stops is a prefix of a run.
- Context-window checks of the libraries, BM25, BLEU and floating-point rounding.
- The refresh of vector payloads when a chunk is skipped: the hash covers only the text, so agreement is stated for vectors and hashes.
- EmbeddingStore.Embedder.EmbedAndStore: which of several failing batches names the error is left to the outcome of the attempt, because the batches run concurrently.
- EmbeddingJobs.Process: retries with backoff inside one provider are part of that provider's outcome, and the choice of candidate models is a parameter.
- The part of the chat prompt that holds the sources.
- JobQueue.HoldersExclusive: no lease lapses while its holder lives; `JobQueue.SecondHolderIff` says what happens without that.
- Utf8.EncodeDecoded: a leading byte order mark, which the decoder drops, is not modelled.
- WorkerProtocol.RequestReassembled: how long a record is, is a parameter that is at least the length of its doc comments; the layout of its JSON is not modelled.
- ArtifactProfiles.ProfilesMustAgree: for a profile under which artifacts exist already, what holds is `ArtifactProfiles.PublishedAsFromScratchIff`.
- ChunkingWorker.Worker.ProcessStream: the library stream is taken to give one result per file and not to throw.
- ChunkingWorker.Worker.ProcessRequest: the sorting of the requested files is not modelled; the files are given in some order.
- Sampling.BalancedTargets: the shuffle is any permutation determined by the seed, not the generator's own.
- RepositoryChunks.FileWindows: how a file is split into lines and how the overlap share is rounded are parameters.
- VectorAttempts.EmbeddingCache.EmbedDocuments: that two batches run at the same time is modelled by running them in any order, since they store at different indices.
