/** The worker and the client together. */
module WorkerProtocol {
  import opened Options
  import opened Events
  import opened ChunkingClient
  import Producer = ChunkingWorker
  import Dispatch = EngineDispatch

  /** Whatever the scheduling of its workers, what the worker writes for a request is accepted by the
      client exactly if every line fits the client's reader. Then the client hands out for each
      requested path exactly one result, the outcome that the engine of its batch leads to, and
      nothing for other paths. A line that does not fit fails the whole request. */
  lemma RequestReassembled(w: Producer.Worker, files: seq<Producer.FileRequest>, requestId: string, engine: string,
                           sizes: Sizes)
    requires Producer.DistinctPaths(files) && Dispatch.Serves(w, files)
    requires w.Valid() && w.completed && w.requested.Keys == Producer.Paths(files) == w.outcomes.Keys
    ensures var reply := ReplyTo(w.out, requestId, engine, sizes);
            && reply.error == (if AllFit(w.out, sizes) then None else Some(RecordTooLong))
            && (AllFit(w.out, sizes) ==>
                 (forall i :: 0 <= i < |files| ==> OneResult(w, files, reply.results, files[i])) &&
                 (forall p :: p !in Producer.Paths(files) ==> ResultsFor(reply.results, p) == []))
  {
    forall p
      ensures IsStream(w.out, w.outcomes, p)
    {
      assert Producer.StreamRight(w.out, w.outcomes, p);
    }
    ReassemblesStreams(w.out, w.outcomes, requestId, engine, sizes);
    var reply := ReplyTo(w.out, requestId, engine, sizes);
    forall i | 0 <= i < |files| && AllFit(w.out, sizes)
      ensures OneResult(w, files, reply.results, files[i])
    {
      Dispatch.PathMember(files, i);
      assert w.Ends(files[i].path, w.outcomes[files[i].path]);
    }
  }

  ghost predicate OneResult(w: Producer.Worker, files: seq<Producer.FileRequest>, results: seq<FileResult>,
                            f: Producer.FileRequest)
  {
    var o := Producer.OutcomeBy(w.env, f, w.options, w.limits, Dispatch.EngineOf(w.env, w.limits, files, f));
    ResultsFor(results, f.path) == [FileResult(f.path, o.status, o.chunks)]
  }

  /** The token budget bounds a chunk's text and not its doc comments: whatever these are, a file that
      loads and whose one chunk is within the budget ends with that chunk. */
  lemma BudgetIgnoresDocs(env: Producer.Environment, f: Producer.FileRequest, options: Producer.WorkerOptions,
                          limits: Producer.Limits, native: bool, chunk: Chunk)
    requires f.size <= limits.maxFileBytes && env.load(f).Ready?
    requires env.chunk(native, f, options) == Some([chunk]) && chunk.tokenCount <= limits.tokenBudget
    ensures Producer.OutcomeBy(env, f, options, limits, native) == Outcome(Succeeded, [chunk])
  {
    assert Producer.WithinBudget([chunk], limits.tokenBudget);
  }

  /** So one such file with doc comments beyond the reader's limit fails its whole request, whatever
      the other files are. */
  lemma LongDocsFailRequest(w: Producer.Worker, files: seq<Producer.FileRequest>, i: nat, chunk: Chunk,
                            requestId: string, engine: string, sizes: Sizes)
    requires Producer.DistinctPaths(files) && Dispatch.Serves(w, files) && i < |files|
    requires w.Valid() && w.completed && w.requested.Keys == Producer.Paths(files) == w.outcomes.Keys
    requires files[i].size <= w.limits.maxFileBytes && w.env.load(files[i]).Ready?
    requires w.env.chunk(w.engines(files[i].path), files[i], w.options) == Some([chunk])
    requires chunk.tokenCount <= w.limits.tokenBudget && |chunk.docs| > STREAM_LIMIT_BYTES && CarriesDocs(sizes)
    ensures ReplyTo(w.out, requestId, engine, sizes).error == Some(RecordTooLong)
  {
    forall p
      ensures IsStream(w.out, w.outcomes, p)
    {
      assert Producer.StreamRight(w.out, w.outcomes, p);
    }
    Dispatch.PathMember(files, i);
    assert w.Ends(files[i].path, w.outcomes[files[i].path]);
    BudgetIgnoresDocs(w.env, files[i], w.options, w.limits, w.engines(files[i].path), chunk);
    OverlongRecord(w.out, w.outcomes, files[i].path, 0, requestId, engine, sizes);
  }
}
