/** processRequest and what it calls: size checks, batches, a pool of workers over one counter, and
    the events of every file. */
module ChunkingWorker {
  import opened Options
  import opened SeqFacts
  import opened Events

  datatype FileRequest = FileRequest(path: string, size: nat)

  datatype WorkerOptions = WorkerOptions(maxChunkSize: nat, minimalContext: bool, overlap: bool)

  datatype Limits = Limits(
    maxFileBytes: nat, streamingFileBytes: nat, batchBytes: nat, concurrency: nat, memoryBudgetBytes: nat,
    tokenBudget: nat)

  datatype Load = Ready | Refused(status: Status)

  /** What lies outside the model: reading and checking a file, whether the library knows its language,
      the language it is batched by, the order of paths, and what the library's engine (true) or the
      fallbacks (false) make of a file. A chunker that throws gives None. */
  datatype Environment = Environment(
    load: FileRequest -> Load,
    native: FileRequest -> bool,
    language: FileRequest -> Option<string>,
    pathBefore: (string, string) -> bool,
    chunk: (bool, FileRequest, WorkerOptions) -> Option<seq<Chunk>>)

  /** A file's own engine. */
  function ChunkFile(env: Environment, file: FileRequest, options: WorkerOptions): Option<seq<Chunk>>
  {
    env.chunk(env.native(file), file, options)
  }

  // ---------- Adapting chunks to the token budget ----------

  predicate WithinBudget(chunks: seq<Chunk>, budget: nat)
  {
    forall i :: 0 <= i < |chunks| ==> chunks[i].tokenCount <= budget
  }

  function Largest(chunks: seq<Chunk>): (n: nat)
    ensures forall i :: 0 <= i < |chunks| ==> chunks[i].tokenCount <= n
    ensures chunks != [] ==> exists i :: 0 <= i < |chunks| && chunks[i].tokenCount == n
  {
    if chunks == [] then 0
    else
      var rest := Largest(chunks[1..]);
      if chunks[0].tokenCount >= rest then chunks[0].tokenCount else rest
  }

  datatype Adapted = Adapted(chunks: seq<Chunk>, options: WorkerOptions, retries: nat)

  function ScaledSize(maxChunkSize: nat, budget: nat, largest: nat): (size: nat)
    requires largest > budget
    ensures size >= 128
    ensures var bound := maxChunkSize as real * (budget as real / largest as real) * 0.85;
            if size == 128 then bound < 129.0 else size as real <= bound < size as real + 1.0
  {
    var scaled := (maxChunkSize as real * (budget as real / largest as real) * 0.85).Floor;
    if scaled < 128 then 128 else scaled
  }

  /** A retry never asks for larger chunks than the first attempt, unless that was below 128 bytes. */
  lemma ScaledShrinks(maxChunkSize: nat, budget: nat, largest: nat)
    requires largest > budget && maxChunkSize > 128
    ensures ScaledSize(maxChunkSize, budget, largest) < maxChunkSize
  {
    var m, share := maxChunkSize as real, budget as real / largest as real;
    assert 0.0 <= share < 1.0;
    assert m * (1.0 - share) >= 0.0;
    assert m * (1.0 - share) == m - m * share;
    assert m * share * 0.85 < m;
  }

  /** Chunks that exceed the budget are made again with a smaller size, then with less context. */
  function AdaptChunks(env: Environment, file: FileRequest, initial: seq<Chunk>, options: WorkerOptions,
                       budget: nat): (r: Option<Adapted>)
    ensures r.Some? ==> WithinBudget(r.value.chunks, budget)
    ensures r.Some? && r.value.retries == 0 <==> WithinBudget(initial, budget)
  {
    if WithinBudget(initial, budget) then Some(Adapted(initial, options, 0))
    else
      var scaledOptions := options.(maxChunkSize := ScaledSize(options.maxChunkSize, budget, Largest(initial)));
      match ChunkFile(env, file, scaledOptions)
      case None => None
      case Some(scaled) =>
        if WithinBudget(scaled, budget) then Some(Adapted(scaled, scaledOptions, 1))
        else
          var fallbackOptions := scaledOptions.(minimalContext := true, overlap := false);
          match ChunkFile(env, file, fallbackOptions)
          case None => None
          case Some(fallback) =>
            if WithinBudget(fallback, budget) then Some(Adapted(fallback, fallbackOptions, 2)) else None
  }

  /** How a file ends whose chunker gave these chunks, or threw. */
  function Settle(env: Environment, file: FileRequest, chunks: Option<seq<Chunk>>, options: WorkerOptions,
                  budget: nat): (o: Outcome)
    ensures Sound(o) && WithinBudget(o.chunks, budget)
  {
    if chunks == None then Outcome(Failed, [])
    else
      match AdaptChunks(env, file, chunks.value, options, budget)
      case None => Outcome(Failed, [])
      case Some(adapted) => Outcome(Succeeded, adapted.chunks)
  }

  /** No chunk of the attempt takes more tokens than allowed. */
  ghost predicate Fitting(attempt: Option<seq<Chunk>>, budget: nat)
  {
    attempt.Some? && forall i :: 0 <= i < |attempt.value| ==> attempt.value[i].tokenCount <= budget
  }

  /** The options of the nth attempt: those requested, then a smaller size, then that size with minimal
      context and without overlap. */
  function OptionsOf(options: WorkerOptions, size: nat, n: nat): WorkerOptions
  {
    if n == 0 then options
    else if n == 1 then WorkerOptions(size, options.minimalContext, options.overlap)
    else WorkerOptions(size, true, false)
  }

  /** What the attempts of a file yield: its first chunks, and those of two retries by its own engine. */
  function AttemptOf(env: Environment, file: FileRequest, initial: seq<Chunk>, options: WorkerOptions, size: nat,
                     n: nat): Option<seq<Chunk>>
  {
    if n == 0 then Some(initial) else env.chunk(env.native(file), file, OptionsOf(options, size, n))
  }

  /** The first of three attempts that fits is taken, with its options and its number; none is if an
      attempt before it throws, or if none fits. */
  lemma AdaptDecides(env: Environment, file: FileRequest, initial: seq<Chunk>, options: WorkerOptions, budget: nat)
    ensures Fitting(Some(initial), budget) || Largest(initial) > budget
    ensures var size := if Largest(initial) > budget then ScaledSize(options.maxChunkSize, budget, Largest(initial))
            else 0;
            match AdaptChunks(env, file, initial, options, budget)
            case Some(adapted) =>
              && adapted.retries < 3 && adapted.options == OptionsOf(options, size, adapted.retries)
              && AttemptOf(env, file, initial, options, size, adapted.retries) == Some(adapted.chunks)
              && Fitting(Some(adapted.chunks), budget)
              && (forall n :: 0 <= n < adapted.retries ==>
                   AttemptOf(env, file, initial, options, size, n).Some? &&
                   !Fitting(AttemptOf(env, file, initial, options, size, n), budget))
            case None =>
              exists n :: 0 <= n < 3 && !Fitting(AttemptOf(env, file, initial, options, size, n), budget) &&
                (n == 2 || AttemptOf(env, file, initial, options, size, n) == None) &&
                forall m :: 0 <= m < n ==> !Fitting(AttemptOf(env, file, initial, options, size, m), budget)
  {
    var size := if Largest(initial) > budget then ScaledSize(options.maxChunkSize, budget, Largest(initial)) else 0;
    if AdaptChunks(env, file, initial, options, budget) == None {
      var n := if AttemptOf(env, file, initial, options, size, 1) == None then 1 else 2;
      assert !Fitting(AttemptOf(env, file, initial, options, size, n), budget);
    }
  }

  /** So a file fails exactly if its first chunks are missing, or they do not fit and the first retry
      throws, or neither fits and the second retry throws or does not fit either. Otherwise it succeeds
      with the chunks of the first attempt that fits. */
  lemma SettleDecides(env: Environment, file: FileRequest, chunks: Option<seq<Chunk>>, options: WorkerOptions,
                      budget: nat)
    ensures chunks == None ==> Settle(env, file, chunks, options, budget) == Outcome(Failed, [])
    ensures Fitting(chunks, budget) ==> Settle(env, file, chunks, options, budget) == Outcome(Succeeded, chunks.value)
    ensures chunks.Some? && !Fitting(chunks, budget) ==>
      Largest(chunks.value) > budget &&
      var size := ScaledSize(options.maxChunkSize, budget, Largest(chunks.value));
      var first := env.chunk(env.native(file), file, WorkerOptions(size, options.minimalContext, options.overlap));
      var second := env.chunk(env.native(file), file, WorkerOptions(size, true, false));
      Settle(env, file, chunks, options, budget) ==
      if first == None then Outcome(Failed, [])
      else if Fitting(first, budget) then Outcome(Succeeded, first.value)
      else if Fitting(second, budget) then Outcome(Succeeded, second.value)
      else Outcome(Failed, [])
  {
  }

  /** A file too large, or refused on loading, has no chunks and is not chunked. */
  lemma RefusedUnchunked(env: Environment, file: FileRequest, options: WorkerOptions, limits: Limits, native: bool)
    ensures file.size > limits.maxFileBytes ==>
              OutcomeBy(env, file, options, limits, native) == Outcome(Skipped, [])
    ensures file.size <= limits.maxFileBytes && env.load(file).Refused? ==>
              OutcomeBy(env, file, options, limits, native) == Outcome(env.load(file).status, [])
    ensures file.size <= limits.maxFileBytes && env.load(file).Ready? && env.chunk(native, file, options) == None ==>
              OutcomeBy(env, file, options, limits, native) == Outcome(Failed, [])
  {
  }

  /** How a requested file ends when this engine makes its first chunks: refused by size or on
      loading, or settled from those chunks. */
  function OutcomeBy(env: Environment, file: FileRequest, options: WorkerOptions, limits: Limits,
                     native: bool): (o: Outcome)
    ensures Sound(o)
  {
    if file.size > limits.maxFileBytes then Outcome(Skipped, [])
    else if env.load(file).Refused? then Outcome(env.load(file).status, [])
    else Settle(env, file, env.chunk(native, file, options), options, limits.tokenBudget)
  }

  // ---------- The worker ----------

  datatype Slot = Idle | Holding(file: nat) | Finished

  function Weight(slots: seq<Slot>): nat
  {
    if slots == [] then 0
    else
      var last := slots[|slots| - 1];
      Weight(slots[..|slots| - 1]) + if last.Idle? then 1 else if last.Holding? then 2 else 0
  }

  lemma {:induction false} WeightUpdate(slots: seq<Slot>, w: nat, s: Slot)
    requires w < |slots|
    ensures Weight(slots[w := s]) == Weight(slots) + Weight([s]) - Weight([slots[w]])
    decreases |slots|
  {
    var n := |slots| - 1;
    var changed := slots[w := s];
    assert [s][..0] == [] && [slots[w]][..0] == [];
    if w < n {
      WeightUpdate(slots[..n], w, s);
      assert changed[..n] == slots[..n][w := s];
    } else {
      assert changed[..n] == slots[..n];
    }
  }

  ghost predicate DistinctPaths(files: seq<FileRequest>)
  {
    forall i, j :: 0 <= i < j < |files| ==> files[i].path != files[j].path
  }

  function Indices(n: nat): (s: set<nat>)
    ensures forall i: nat :: i < n <==> i in s
  {
    set i: nat {:trigger Index(i)} | i < n && Index(i)
  }

  predicate Index(i: nat) { true }

  /** The paths of some of the files, given by index. */
  function PathsAt(files: seq<FileRequest>, at: set<nat>): set<string>
  {
    set i | i in at && i < |files| :: files[i].path
  }

  function Paths(files: seq<FileRequest>): set<string>
  {
    if files == [] then {} else Paths(files[..|files| - 1]) + {files[|files| - 1].path}
  }

  lemma PathsPush(files: seq<FileRequest>, f: FileRequest)
    ensures Paths(files + [f]) == Paths(files) + {f.path}
  {
    assert (files + [f])[..|files|] == files;
  }

  lemma {:induction false} PathsAll(files: seq<FileRequest>)
    ensures Paths(files) == PathsAt(files, Indices(|files|))
  {
    if files != [] {
      var n := |files| - 1;
      PathsAll(files[..n]);
      assert Indices(n + 1) == Indices(n) + {n};
      PathsAtPush(files, Indices(n), n);
      assert PathsAt(files, Indices(n)) == PathsAt(files[..n], Indices(n));
    }
  }

  lemma PathsAtPush(files: seq<FileRequest>, at: set<nat>, i: nat)
    requires i < |files|
    ensures PathsAt(files, at + {i}) == PathsAt(files, at) + {files[i].path}
  {
  }

  lemma NotYet(files: seq<FileRequest>, at: set<nat>, i: nat)
    requires DistinctPaths(files) && i < |files| && i !in at
    ensures files[i].path !in PathsAt(files, at)
  {
  }

  /** How a request sorts its files. */
  datatype Test = TooLarge | Candidate | Ordinary | Large | Refusal | Readiness

  predicate Passes(env: Environment, limits: Limits, test: Test, f: FileRequest)
  {
    match test
    case TooLarge => f.size > limits.maxFileBytes
    case Candidate => f.size <= limits.maxFileBytes
    case Ordinary => f.size < limits.streamingFileBytes
    case Large => f.size >= limits.streamingFileBytes
    case Refusal => env.load(f).Refused?
    case Readiness => env.load(f).Ready?
  }

  /** The files for which a test holds, in order. */
  function Select(env: Environment, limits: Limits, files: seq<FileRequest>, test: Test): seq<FileRequest>
  {
    if files == [] then []
    else
      var kept, last := Select(env, limits, files[..|files| - 1], test), files[|files| - 1];
      if Passes(env, limits, test, last) then kept + [last] else kept
  }

  lemma {:induction false} SelectMember(env: Environment, limits: Limits, files: seq<FileRequest>, test: Test, i: nat)
    requires i < |Select(env, limits, files, test)|
    ensures Select(env, limits, files, test)[i] in files &&
            Passes(env, limits, test, Select(env, limits, files, test)[i])
  {
    var front := files[..|files| - 1];
    if i < |Select(env, limits, front, test)| {
      SelectMember(env, limits, front, test, i);
      assert Select(env, limits, front, test)[i] in files;
    }
  }

  lemma SelectPush(env: Environment, limits: Limits, files: seq<FileRequest>, test: Test, i: nat)
    requires i < |files|
    ensures Select(env, limits, files[..i + 1], test) ==
            if Passes(env, limits, test, files[i]) then Select(env, limits, files[..i], test) + [files[i]]
            else Select(env, limits, files[..i], test)
  {
    assert files[..i + 1][..i] == files[..i];
  }

  lemma {:induction false} SelectDistinct(env: Environment, limits: Limits, files: seq<FileRequest>, test: Test)
    requires DistinctPaths(files)
    ensures DistinctPaths(Select(env, limits, files, test))
  {
    if files != [] {
      var n := |files| - 1;
      var front := Select(env, limits, files[..n], test);
      SelectDistinct(env, limits, files[..n], test);
      forall i | 0 <= i < |front|
        ensures front[i].path != files[n].path
      {
        SelectMember(env, limits, files[..n], test, i);
      }
    }
  }

  ghost predicate Contrary(env: Environment, limits: Limits, files: seq<FileRequest>, x: Test, y: Test)
  {
    forall i :: 0 <= i < |files| ==> (Passes(env, limits, x, files[i]) <==> !Passes(env, limits, y, files[i]))
  }

  lemma SelectLast(env: Environment, limits: Limits, files: seq<FileRequest>, test: Test)
    requires files != []
    ensures var front, last := files[..|files| - 1], files[|files| - 1];
            Paths(Select(env, limits, files, test)) ==
            Paths(Select(env, limits, front, test)) + if Passes(env, limits, test, last) then {last.path} else {}
  {
    PathsPush(Select(env, limits, files[..|files| - 1], test), files[|files| - 1]);
  }

  /** Which of two contrary tests a file passes settles which of the two selections has its path. */
  lemma {:induction false} SelectPaths(env: Environment, limits: Limits, files: seq<FileRequest>, x: Test, y: Test)
    requires Contrary(env, limits, files, x, y)
    ensures Paths(Select(env, limits, files, x)) + Paths(Select(env, limits, files, y)) == Paths(files)
  {
    if files != [] {
      var n := |files| - 1;
      assert Contrary(env, limits, files[..n], x, y);
      SelectPaths(env, limits, files[..n], x, y);
      SelectLast(env, limits, files, x);
      SelectLast(env, limits, files, y);
    }
  }

  lemma {:induction false} SelectsApart(env: Environment, limits: Limits, files: seq<FileRequest>, x: Test, y: Test)
    requires DistinctPaths(files) && Contrary(env, limits, files, x, y)
    ensures Paths(Select(env, limits, files, x)) !! Paths(Select(env, limits, files, y))
  {
    if files != [] {
      var n := |files| - 1;
      assert Contrary(env, limits, files[..n], x, y);
      SelectsApart(env, limits, files[..n], x, y);
      SelectPaths(env, limits, files[..n], x, y);
      SelectLast(env, limits, files, x);
      SelectLast(env, limits, files, y);
      FreshPath(files);
    }
  }

  lemma FreshPath(files: seq<FileRequest>)
    requires DistinctPaths(files) && files != []
    ensures files[|files| - 1].path !in Paths(files[..|files| - 1])
  {
    var n := |files| - 1;
    PathsAll(files[..n]);
    NotYet(files, Indices(n), n);
    assert PathsAt(files, Indices(n)) == PathsAt(files[..n], Indices(n));
  }

  lemma DistinctPrefix(files: seq<FileRequest>, n: nat)
    requires DistinctPaths(files) && n <= |files|
    ensures DistinctPaths(files[..n])
  {
    var front := files[..n];
    forall i, j | 0 <= i < j < |front|
      ensures front[i].path != front[j].path
    {
      assert front[i] == files[i] && front[j] == files[j];
    }
  }

  lemma PathsNext(files: seq<FileRequest>, i: nat)
    requires i < |files|
    ensures Paths(files[..i + 1]) == Paths(files[..i]) + {files[i].path}
  {
    assert files[..i + 1] == files[..i] + [files[i]];
    PathsPush(files[..i], files[i]);
  }

  lemma FreshNext(files: seq<FileRequest>, i: nat)
    requires DistinctPaths(files) && i < |files|
    ensures files[i].path !in Paths(files[..i])
  {
    DistinctPrefix(files, i + 1);
    FreshPath(files[..i + 1]);
    assert files[..i + 1][..i] == files[..i];
  }

  lemma NextPath(files: seq<FileRequest>, i: nat)
    requires DistinctPaths(files) && i < |files|
    ensures files[i].path !in Paths(files[..i]) && files[i].path in Paths(files)
    ensures Paths(files[..i + 1]) == Paths(files[..i]) + {files[i].path}
  {
    FreshNext(files, i);
    PathsNext(files, i);
    PrefixPaths(files, i + 1);
  }

  ghost predicate StreamRight(out: seq<Event>, outcomes: map<string, Outcome>, p: string)
  {
    Projection(out, p) == if p in outcomes then StreamOf(p, outcomes[p]) else []
  }

  /** The events are exactly the streams of the closed files. */
  ghost predicate Streams(out: seq<Event>, outcomes: map<string, Outcome>)
  {
    forall p :: StreamRight(out, outcomes, p)
  }

  lemma StreamPush(out: seq<Event>, outcomes: map<string, Outcome>, path: string, o: Outcome, p: string)
    requires StreamRight(out, outcomes, p) && path !in outcomes
    ensures StreamRight(out + StreamOf(path, o), outcomes[path := o], p)
  {
    ProjectionAppend(out, StreamOf(path, o), p);
    ProjectionOfStream(path, p, o);
  }

  lemma StreamsPush(out: seq<Event>, outcomes: map<string, Outcome>, path: string, o: Outcome)
    requires Streams(out, outcomes) && path !in outcomes
    ensures Streams(out + StreamOf(path, o), outcomes[path := o])
  {
    var after, closed := out + StreamOf(path, o), outcomes[path := o];
    forall p
      ensures StreamRight(after, closed, p)
    {
      assert StreamRight(out, outcomes, p);
      StreamPush(out, outcomes, path, o, p);
    }
  }

  class Worker {
    const env: Environment
    const options: WorkerOptions
    const limits: Limits
    /** The events written so far, and whether the completion has been written after them. */
    var out: seq<Event>
    var completed: bool
    /** The request's files by path, and those closed so far with their outcomes. */
    ghost const requested: map<string, FileRequest>
    ghost var outcomes: map<string, Outcome>
    /** The engine that makes each file's first chunks, as its batch decides. */
    ghost const engines: string -> bool

    constructor (env: Environment, options: WorkerOptions, limits: Limits, ghost requested: map<string, FileRequest>,
                 ghost engines: string -> bool)
      ensures this.env == env && this.options == options && this.limits == limits
      ensures this.requested == requested && this.engines == engines
      ensures Valid() && !completed && outcomes == map[] && out == []
    {
      this.env, this.options, this.limits, this.requested, this.engines := env, options, limits, requested, engines;
      out, completed, outcomes := [], false, map[];
    }

    /** The outcome that the path's engine leads to. */
    ghost predicate Ends(p: string, o: Outcome)
    {
      p in requested && o == OutcomeBy(env, requested[p], options, limits, engines(p))
    }

    /** Each closed file was requested, ended as its engine has it, and has written exactly its stream;
        no other path has written anything. */
    ghost predicate Valid()
      reads this
    {
      && (forall p :: p in outcomes ==> Ends(p, outcomes[p]))
      && Streams(out, outcomes)
    }

    ghost predicate Requested(f: FileRequest) { f.path in requested && requested[f.path] == f }

    /** These files may be processed now: requested, distinct and not closed yet. */
    ghost predicate Open(files: seq<FileRequest>)
      reads this
    {
      && DistinctPaths(files) && Paths(files) !! outcomes.Keys
      && (forall i :: 0 <= i < |files| ==> Requested(files[i]))
    }

    ghost predicate Parsable(f: FileRequest) { f.size <= limits.maxFileBytes && env.load(f).Ready? }

    /** Writes one file's chunks and its closing event. */
    method EmitFile(file: FileRequest, o: Outcome)
      requires Valid() && !completed && Requested(file) && file.path !in outcomes
      requires Ends(file.path, o)
      modifies this`out, this`outcomes
      ensures Valid() && outcomes == old(outcomes)[file.path := o]
    {
      var path := file.path;
      StreamsPush(out, outcomes, path, o);
      out := out + StreamOf(path, o);
      outcomes := outcomes[path := o];
    }

    /** emitSuccess, or the failure event when the chunker threw. */
    method EmitResult(file: FileRequest, chunks: Option<seq<Chunk>>)
      requires Valid() && !completed && Requested(file) && file.path !in outcomes && Parsable(file)
      requires chunks == env.chunk(engines(file.path), file, options)
      modifies this`out, this`outcomes
      ensures Valid() && outcomes.Keys == old(outcomes.Keys) + {file.path}
    {
      EmitFile(file, Settle(env, file, chunks, options, limits.tokenBudget));
    }

    /** The engine of a file in a loaded batch: the library's if it knows the first file's language,
        and else the file's own. */
    ghost predicate Led(loaded: seq<FileRequest>)
    {
      forall i :: 0 <= i < |loaded| ==> engines(loaded[i].path) == (env.native(loaded[0]) || env.native(loaded[i]))
    }

    /** The file has been closed, with the outcome that this engine leads to. */
    ghost predicate ClosedBy(f: FileRequest, native: bool)
      reads this
    {
      f.path in outcomes && outcomes[f.path] == OutcomeBy(env, f, options, limits, native)
    }

    /** Every batch is led by the first of its files that loads. */
    ghost predicate AllLed(batches: seq<seq<FileRequest>>)
    {
      forall k :: 0 <= k < |batches| ==> Led(Select(env, limits, batches[k], Readiness))
    }

    /** The workers of a batch: each takes the next index from the shared counter, chunks that file
        and writes its events. The order in which they proceed is arbitrary. */
    method ProcessPool(files: seq<FileRequest>, concurrency: nat)
      requires Valid() && !completed && Open(files) && concurrency >= 1
      requires forall i :: 0 <= i < |files| ==> Parsable(files[i]) && engines(files[i].path) == env.native(files[i])
      modifies this`out, this`outcomes
      ensures Valid() && outcomes.Keys == old(outcomes.Keys) + Paths(files)
    {
      var slots := seq(concurrency, _ => Idle);
      var next := 0;
      ghost var done: set<nat> := {};
      while exists w :: 0 <= w < |slots| && slots[w] != Finished
        invariant Valid() && |slots| == concurrency
        invariant PoolState(|files|, slots, next, done)
        invariant outcomes.Keys == old(outcomes.Keys) + PathsAt(files, done)
        decreases 3 * (|files| - next) + Weight(slots)
      {
        var w :| 0 <= w < |slots| && slots[w] != Finished;
        match slots[w] {
          case Idle =>
            if next < |files| {
              TakeNext(|files|, slots, next, done, w);
              slots, next := slots[w := Holding(next)], next + 1;
            } else {
              Stop(|files|, slots, next, done, w);
              slots := slots[w := Finished];
            }
          case Holding(i) =>
            EmitAt(files, i, ChunkFile(env, files[i], options), old(outcomes.Keys), done);
            Release(|files|, slots, next, done, w);
            slots, done := slots[w := Idle], done + {i};
        }
      }
      assert slots[0] == Finished;
      AllDone(|files|, slots, next, done);
      PathsAll(files);
    }

    lemma OpenAt(files: seq<FileRequest>, closed: set<string>, i: nat)
      requires Paths(files) !! closed && i < |files|
      ensures files[i].path !in closed
    {
      PathsAll(files);
      assert i in Indices(|files|);
    }

    /** The library's batch stream: one result per file, in any order. */
    method ProcessStream(files: seq<FileRequest>)
      requires Valid() && !completed && Open(files)
      requires forall i :: 0 <= i < |files| ==> Parsable(files[i]) && engines(files[i].path)
      modifies this`out, this`outcomes
      ensures Valid() && outcomes.Keys == old(outcomes.Keys) + Paths(files)
    {
      var pending := Indices(|files|);
      ghost var done: set<nat> := {};
      while pending != {}
        invariant Valid() && pending == Indices(|files|) - done && done <= Indices(|files|)
        invariant outcomes.Keys == old(outcomes.Keys) + PathsAt(files, done)
        decreases |pending|
      {
        var i :| i in pending;
        EmitAt(files, i, env.chunk(true, files[i], options), old(outcomes.Keys), done);
        pending, done := pending - {i}, done + {i};
      }
      assert done == Indices(|files|);
      PathsAll(files);
    }

    /** Closes one more file of a batch. */
    method EmitAt(files: seq<FileRequest>, i: nat, chunks: Option<seq<Chunk>>, ghost before: set<string>,
                  ghost done: set<nat>)
      requires Valid() && !completed && DistinctPaths(files) && Paths(files) !! before && i < |files| && i !in done
      requires Parsable(files[i]) && Requested(files[i])
      requires chunks == env.chunk(engines(files[i].path), files[i], options)
      requires outcomes.Keys == before + PathsAt(files, done)
      modifies this`out, this`outcomes
      ensures Valid() && outcomes.Keys == before + PathsAt(files, done + {i})
    {
      NotYet(files, done, i);
      OpenAt(files, before, i);
      EmitResult(files[i], chunks);
      PathsAtPush(files, done, i);
    }

    /** A loaded batch, by the engine of its first file. */
    method ProcessBatch(files: seq<FileRequest>)
      requires Valid() && !completed && Open(files) && Led(files)
      requires forall i :: 0 <= i < |files| ==> Parsable(files[i])
      modifies this`out, this`outcomes
      ensures Valid() && outcomes.Keys == old(outcomes.Keys) + Paths(files)
      ensures forall i :: 0 <= i < |files| ==> ClosedBy(files[i], env.native(files[0]) || env.native(files[i]))
    {
      if files != [] {
        var largest: nat := 0;
        for i := 0 to |files| {
          if files[i].size > largest { largest := files[i].size; }
        }
        var byMemory := limits.memoryBudgetBytes / (if largest > 1 then largest else 1);
        var concurrency := Min(limits.concurrency, Min(|files|, byMemory));
        if !env.native(files[0]) {
          ProcessPool(files, if concurrency > 1 then concurrency else 1);
        } else {
          ProcessStream(files);
        }
        BatchClosed(files);
      }
    }

    lemma BatchClosed(files: seq<FileRequest>)
      requires Valid() && Led(files) && Paths(files) <= outcomes.Keys
      requires forall i :: 0 <= i < |files| ==> Requested(files[i])
      ensures forall i :: 0 <= i < |files| ==> ClosedBy(files[i], env.native(files[0]) || env.native(files[i]))
    {
      PathsAll(files);
      forall i | 0 <= i < |files|
        ensures ClosedBy(files[i], env.native(files[0]) || env.native(files[i]))
      {
        assert i in Indices(|files|);
        assert Ends(files[i].path, outcomes[files[i].path]);
      }
    }

    /** A file above the streaming threshold, on its own. */
    method ProcessLarge(file: FileRequest)
      requires Valid() && !completed && Requested(file) && file.path !in outcomes && Parsable(file)
      requires engines(file.path) == env.native(file)
      modifies this`out, this`outcomes
      ensures Valid() && outcomes.Keys == old(outcomes.Keys) + {file.path}
      ensures ClosedBy(file, env.native(file))
    {
      EmitResult(file, if env.native(file) then env.chunk(true, file, options) else ChunkFile(env, file, options));
      assert Ends(file.path, outcomes[file.path]);
    }

    /** Loads files; those that are refused are closed at once. */
    method LoadBatch(files: seq<FileRequest>) returns (loaded: seq<FileRequest>)
      requires Valid() && !completed && Open(files)
      requires forall i :: 0 <= i < |files| ==> files[i].size <= limits.maxFileBytes
      modifies this`out, this`outcomes
      ensures Valid() && outcomes.Keys == old(outcomes.Keys) + Paths(Select(env, limits, files, Refusal))
      ensures loaded == Select(env, limits, files, Readiness)
    {
      loaded := [];
      ghost var refused: seq<FileRequest> := [];
      for i := 0 to |files|
        invariant Valid() && Loading(files, i, loaded, refused)
        invariant outcomes.Keys == old(outcomes.Keys) + Paths(refused)
      {
        var file := files[i];
        LoadingStep(files, i, loaded, refused);
        OpenAt(files, old(outcomes.Keys), i);
        if env.load(file).Refused? {
          Refuse(file, old(outcomes.Keys), refused);
          refused := refused + [file];
        } else {
          loaded := loaded + [file];
        }
      }
      assert files[..|files|] == files;
    }

    /** The files before index i are sorted into loaded and refused; the next one is new. */
    ghost predicate Loading(files: seq<FileRequest>, i: nat, loaded: seq<FileRequest>, refused: seq<FileRequest>)
      requires i <= |files|
    {
      && loaded == Select(env, limits, files[..i], Readiness) && refused == Select(env, limits, files[..i], Refusal)
      && (i < |files| ==> files[i].path !in Paths(refused))
    }

    lemma LoadingStep(files: seq<FileRequest>, i: nat, loaded: seq<FileRequest>, refused: seq<FileRequest>)
      requires i < |files| && DistinctPaths(files) && Loading(files, i, loaded, refused)
      ensures if env.load(files[i]).Refused? then Loading(files, i + 1, loaded, refused + [files[i]])
              else Loading(files, i + 1, loaded + [files[i]], refused)
    {
      SelectPush(env, limits, files, Readiness, i);
      SelectPush(env, limits, files, Refusal, i);
      if i + 1 < |files| { NextIsNew(files, i + 1); }
    }

    lemma NextIsNew(files: seq<FileRequest>, i: nat)
      requires i < |files| && DistinctPaths(files)
      ensures files[i].path !in Paths(Select(env, limits, files[..i], Refusal))
    {
      SelectPaths(env, limits, files[..i], Refusal, Readiness);
      assert files[..i + 1][..i] == files[..i];
      FreshPath(files[..i + 1]);
    }

    method Refuse(file: FileRequest, ghost before: set<string>, ghost refused: seq<FileRequest>)
      requires Valid() && !completed && Requested(file) && file.path !in outcomes
      requires outcomes.Keys == before + Paths(refused)
      requires Passes(env, limits, TooLarge, file) || env.load(file).Refused?
      modifies this`out, this`outcomes
      ensures Valid() && outcomes.Keys == before + Paths(refused + [file])
    {
      PathsPush(refused, file);
      EmitFile(file, Outcome(if file.size > limits.maxFileBytes then Skipped else env.load(file).status, []));
    }

    /** Loads and processes one batch: every file of it is closed. */
    method RunBatch(files: seq<FileRequest>)
      requires Valid() && !completed && Fresh(files, outcomes.Keys)
      requires Led(Select(env, limits, files, Readiness))
      modifies this`out, this`outcomes
      ensures Valid() && outcomes.Keys == old(outcomes.Keys) + Paths(files)
    {
      LoadedFresh(files, outcomes.Keys);
      var loaded := LoadBatch(files);
      ProcessBatch(loaded);
    }

    lemma LoadedFresh(files: seq<FileRequest>, before: set<string>)
      requires Fresh(files, before)
      ensures var loaded, refused := Select(env, limits, files, Readiness), Select(env, limits, files, Refusal);
              && Fresh(loaded, before + Paths(refused))
              && (forall i :: 0 <= i < |loaded| ==> Parsable(loaded[i]))
              && Paths(loaded) + Paths(refused) == Paths(files)
    {
      var loaded := Select(env, limits, files, Readiness);
      SelectDistinct(env, limits, files, Readiness);
      SelectPaths(env, limits, files, Readiness, Refusal);
      SelectsApart(env, limits, files, Readiness, Refusal);
      forall i | 0 <= i < |loaded|
        ensures Requested(loaded[i]) && Parsable(loaded[i])
      {
        SelectMember(env, limits, files, Readiness, i);
      }
    }

    /** The files that exceed the size limit are closed first. */
    method SkipLarge(files: seq<FileRequest>) returns (candidates: seq<FileRequest>)
      requires Valid() && !completed && Open(files)
      modifies this`out, this`outcomes
      ensures Valid() && outcomes.Keys == old(outcomes.Keys) + Paths(Select(env, limits, files, TooLarge))
      ensures candidates == Select(env, limits, files, Candidate)
    {
      candidates := [];
      ghost var skipped: seq<FileRequest> := [];
      for i := 0 to |files|
        invariant Valid() && Sieving(files, i, candidates, skipped)
        invariant outcomes.Keys == old(outcomes.Keys) + Paths(skipped)
      {
        var file := files[i];
        SievingStep(files, i, candidates, skipped);
        OpenAt(files, old(outcomes.Keys), i);
        if file.size > limits.maxFileBytes {
          Refuse(file, old(outcomes.Keys), skipped);
          skipped := skipped + [file];
        } else {
          candidates := candidates + [file];
        }
      }
      assert files[..|files|] == files;
    }

    ghost predicate Sieving(files: seq<FileRequest>, i: nat, candidates: seq<FileRequest>, skipped: seq<FileRequest>)
      requires i <= |files|
    {
      && candidates == Select(env, limits, files[..i], Candidate)
      && skipped == Select(env, limits, files[..i], TooLarge)
      && (i < |files| ==> files[i].path !in Paths(skipped))
    }

    lemma SievingStep(files: seq<FileRequest>, i: nat, candidates: seq<FileRequest>, skipped: seq<FileRequest>)
      requires i < |files| && DistinctPaths(files) && Sieving(files, i, candidates, skipped)
      ensures if files[i].size > limits.maxFileBytes then Sieving(files, i + 1, candidates, skipped + [files[i]])
              else Sieving(files, i + 1, candidates + [files[i]], skipped)
    {
      SelectPush(env, limits, files, Candidate, i);
      SelectPush(env, limits, files, TooLarge, i);
      if i + 1 < |files| { NextIsCandidate(files, i + 1); }
    }

    lemma NextIsCandidate(files: seq<FileRequest>, i: nat)
      requires i < |files| && DistinctPaths(files)
      ensures files[i].path !in Paths(Select(env, limits, files[..i], TooLarge))
    {
      SelectPaths(env, limits, files[..i], TooLarge, Candidate);
      assert files[..i + 1][..i] == files[..i];
      FreshPath(files[..i + 1]);
    }

    /** Groups the files into batches by language and size and runs each batch. */
    method ProcessOrdinary(files: seq<FileRequest>) returns (ghost batches: seq<seq<FileRequest>>)
      requires Valid() && !completed && Fresh(files, outcomes.Keys) && AllLed(Batches(env, limits, files))
      modifies this`out, this`outcomes
      ensures Valid() && outcomes.Keys == old(outcomes.Keys) + Paths(files)
      ensures batches == Batches(env, limits, files)
    {
      batches := [];
      var batch: seq<FileRequest> := [];
      var batchBytes: nat := 0;
      var batchLanguage: Option<string> := None;
      assert files[..0] == [];
      for i := 0 to |files|
        invariant Serving(files, i, batches, batch, old(outcomes.Keys))
        invariant OpenState(batch, batchBytes, batchLanguage)
      {
        batches, batch, batchBytes, batchLanguage :=
          AddFile(files, i, batches, batch, batchBytes, batchLanguage, old(outcomes.Keys));
      }
      AllPlanned(files, batches, batch);
      assert Batches(env, limits, files)[|batches|] == batch;
      RunOpen(batch, files, |files|, batches, old(outcomes.Keys));
      batches := batches + [batch];
    }

    lemma AllPlanned(files: seq<FileRequest>, batches: seq<seq<FileRequest>>, batch: seq<FileRequest>)
      requires Plan(batches, batch) == PlanOf(env, limits, files[..|files|])
      ensures Concat(batches + [batch]) == files && batches + [batch] == Batches(env, limits, files)
    {
      assert files[..|files|] == files;
      PlanConcat(env, limits, files);
      ConcatPush(batches, batch);
    }

    /** The first i files are planned and the closed batches have been run. */
    ghost predicate Serving(files: seq<FileRequest>, i: nat, batches: seq<seq<FileRequest>>, batch: seq<FileRequest>,
                            before: set<string>)
      reads this
    {
      && Valid() && i <= |files|
      && Plan(batches, batch) == PlanOf(env, limits, files[..i])
      && outcomes.Keys == before + Paths(Concat(batches))
    }

    predicate OpenState(batch: seq<FileRequest>, batchBytes: nat, batchLanguage: Option<string>)
    {
      batchBytes == Bytes(batch) && (batch != [] ==> batchLanguage == env.language(batch[0]))
    }

    /** One round of the batching loop. */
    method AddFile(files: seq<FileRequest>, i: nat, ghost batches: seq<seq<FileRequest>>, batch: seq<FileRequest>,
                   batchBytes: nat, batchLanguage: Option<string>, ghost before: set<string>)
      returns (ghost batches': seq<seq<FileRequest>>, batch': seq<FileRequest>, batchBytes': nat,
               batchLanguage': Option<string>)
      requires !completed && Fresh(files, before) && i < |files| && AllLed(Batches(env, limits, files))
      requires Serving(files, i, batches, batch, before) && OpenState(batch, batchBytes, batchLanguage)
      modifies this`out, this`outcomes
      ensures Serving(files, i + 1, batches', batch', before) && OpenState(batch', batchBytes', batchLanguage')
    {
      var file := files[i];
      var language := env.language(file);
      var closes := batch != [] && (batchBytes + file.size > limits.batchBytes || language != batchLanguage);
      PlanGrows(files, i, batches, batch, batchBytes, batchLanguage);
      if closes {
        ClosedStays(env, limits, files, i + 1, |batches|);
        RunOpen(batch, files, i, batches, before);
      }
      batches' := if closes then batches + [batch] else batches;
      batch' := (if closes then [] else batch) + [file];
      batchBytes' := (if closes then 0 else batchBytes) + file.size;
      batchLanguage' := language;
    }

    lemma PlanGrows(files: seq<FileRequest>, i: nat, batches: seq<seq<FileRequest>>, batch: seq<FileRequest>,
                    batchBytes: nat, batchLanguage: Option<string>)
      requires i < |files| && Plan(batches, batch) == PlanOf(env, limits, files[..i])
      requires OpenState(batch, batchBytes, batchLanguage)
      ensures var file := files[i];
              if batch != [] && (batchBytes + file.size > limits.batchBytes || env.language(file) != batchLanguage) then
                Plan(batches + [batch], [] + [file]) == PlanOf(env, limits, files[..i + 1])
                && OpenState([] + [file], 0 + file.size, env.language(file))
              else
                Plan(batches, batch + [file]) == PlanOf(env, limits, files[..i + 1])
                && OpenState(batch + [file], batchBytes + file.size, env.language(file))
    {
      PlanNext(env, limits, files, i);
      BytesPush(batch, files[i]);
      BytesPush([], files[i]);
      assert [] + [files[i]] == [files[i]];
    }

    /** The files are requested, within the size limit and distinct, and none was closed before. */
    ghost predicate Fresh(files: seq<FileRequest>, before: set<string>)
    {
      && DistinctPaths(files) && Paths(files) !! before
      && (forall i :: 0 <= i < |files| ==> Requested(files[i]) && files[i].size <= limits.maxFileBytes)
    }

    /** Runs the open batch of a plan. */
    method RunOpen(batch: seq<FileRequest>, ghost files: seq<FileRequest>, ghost i: nat,
                   ghost batches: seq<seq<FileRequest>>, ghost before: set<string>)
      requires Valid() && !completed && Fresh(files, before) && i <= |files|
      requires Led(Select(env, limits, batch, Readiness))
      requires Plan(batches, batch) == PlanOf(env, limits, files[..i])
      requires outcomes.Keys == before + Paths(Concat(batches))
      modifies this`out, this`outcomes
      ensures Valid() && outcomes.Keys == before + Paths(Concat(batches + [batch]))
    {
      OpenBatch(batch, files, i, batches, before);
      RunBatch(batch);
    }

    lemma OpenBatch(batch: seq<FileRequest>, files: seq<FileRequest>, i: nat, batches: seq<seq<FileRequest>>,
                    before: set<string>)
      requires Fresh(files, before) && i <= |files|
      requires Plan(batches, batch) == PlanOf(env, limits, files[..i])
      ensures Fresh(batch, before + Paths(Concat(batches)))
      ensures Paths(Concat(batches + [batch])) == Paths(Concat(batches)) + Paths(batch)
    {
      PlanConcat(env, limits, files[..i]);
      PrefixPaths(files, i);
      ConcatPush(batches, batch);
      FreshAppend(Concat(batches), batch, files[..i]);
      forall k | 0 <= k < |batch|
        ensures Requested(batch[k]) && batch[k].size <= limits.maxFileBytes
      {
        assert batch[k] == files[..i][|Concat(batches)| + k];
      }
    }

    /** The files above the streaming threshold, one by one. */
    method ProcessLargeFiles(files: seq<FileRequest>)
      requires Valid() && !completed && Open(files) && AllOwn(files)
      requires forall i :: 0 <= i < |files| ==> files[i].size <= limits.maxFileBytes
      modifies this`out, this`outcomes
      ensures Valid() && outcomes.Keys == old(outcomes.Keys) + Paths(files)
    {
      for i := 0 to |files|
        invariant Valid() && outcomes.Keys == old(outcomes.Keys) + Paths(files[..i])
      {
        LoadAndProcessLarge(files, i, old(outcomes.Keys));
      }
      assert files[..|files|] == files;
    }

    ghost predicate AllOwn(files: seq<FileRequest>)
    {
      forall i :: 0 <= i < |files| ==> engines(files[i].path) == env.native(files[i])
    }

    method LoadAndProcessLarge(files: seq<FileRequest>, i: nat, ghost before: set<string>)
      requires Valid() && !completed && DistinctPaths(files) && Paths(files) !! before && i < |files|
      requires Requested(files[i]) && files[i].size <= limits.maxFileBytes && AllOwn(files)
      requires outcomes.Keys == before + Paths(files[..i])
      modifies this`out, this`outcomes
      ensures Valid() && outcomes.Keys == before + Paths(files[..i + 1])
    {
      var file := files[i];
      NextPath(files, i);
      if env.load(file).Refused? {
        EmitFile(file, Outcome(env.load(file).status, []));
      } else {
        ProcessLarge(file);
      }
    }

    /** The engines are those that the request's own batches give its files. */
    ghost predicate Assigned(files: seq<FileRequest>)
    {
      && AllLed(Batches(env, limits, Ordinaries(env, limits, files)))
      && AllOwn(Select(env, limits, Select(env, limits, files, Candidate), Large))
    }

    /** One request: every file is closed exactly once, and the completion comes last. */
    method ProcessRequest(files: seq<FileRequest>) returns (ghost batches: seq<seq<FileRequest>>)
      requires Valid() && !completed && outcomes == map[] && Open(files) && Assigned(files)
      modifies this
      ensures Valid() && completed && outcomes.Keys == Paths(files)
      ensures batches == Batches(env, limits, Ordinaries(env, limits, files))
    {
      var candidates := SkipLarge(files);
      SelectPaths(env, limits, files, Candidate, TooLarge);
      SelectsApart(env, limits, files, Candidate, TooLarge);
      SelectDistinct(env, limits, files, Candidate);
      SelectOpen(files, Candidate);
      batches := ProcessCandidates(candidates);
      completed := true;
    }

    method ProcessCandidates(candidates: seq<FileRequest>) returns (ghost batches: seq<seq<FileRequest>>)
      requires Valid() && !completed && Open(candidates)
      requires forall i :: 0 <= i < |candidates| ==> candidates[i].size <= limits.maxFileBytes
      requires AllLed(Batches(env, limits, Select(env, limits, candidates, Ordinary)))
      requires AllOwn(Select(env, limits, candidates, Large))
      modifies this`out, this`outcomes
      ensures Valid() && outcomes.Keys == old(outcomes.Keys) + Paths(candidates)
      ensures batches == Batches(env, limits, Select(env, limits, candidates, Ordinary))
    {
      var ordinary, large := Select(env, limits, candidates, Ordinary), Select(env, limits, candidates, Large);
      SelectPaths(env, limits, candidates, Ordinary, Large);
      SelectsApart(env, limits, candidates, Ordinary, Large);
      SelectDistinct(env, limits, candidates, Ordinary);
      SelectDistinct(env, limits, candidates, Large);
      SelectOpen(candidates, Ordinary);
      SelectOpen(candidates, Large);
      batches := ProcessOrdinary(ordinary);
      ProcessLargeFiles(large);
    }

    lemma SelectOpen(files: seq<FileRequest>, test: Test)
      requires forall i :: 0 <= i < |files| ==> Requested(files[i])
      ensures var kept := Select(env, limits, files, test);
              forall i :: 0 <= i < |kept| ==>
                kept[i] in files && Requested(kept[i]) && Passes(env, limits, test, kept[i])
    {
      var kept := Select(env, limits, files, test);
      forall i | 0 <= i < |kept|
        ensures kept[i] in files && Passes(env, limits, test, kept[i])
      {
        SelectMember(env, limits, files, test, i);
      }
    }
  }

  // ---------- Batches ----------

  function Bytes(files: seq<FileRequest>): nat
  {
    if files == [] then 0 else Bytes(files[..|files| - 1]) + files[|files| - 1].size
  }

  lemma BytesPush(files: seq<FileRequest>, f: FileRequest)
    ensures Bytes(files + [f]) == Bytes(files) + f.size
  {
    assert (files + [f])[..|files|] == files;
  }

  /** A batch has one language, and more than one file only within the byte budget. */
  ghost predicate BatchFits(env: Environment, limits: Limits, batch: seq<FileRequest>)
  {
    && (|batch| <= 1 || Bytes(batch) <= limits.batchBytes)
    && (batch != [] ==> OneLanguage(env, batch, env.language(batch[0])))
  }

  ghost predicate OneLanguage(env: Environment, batch: seq<FileRequest>, language: Option<string>)
  {
    forall i :: 0 <= i < |batch| ==> env.language(batch[i]) == language
  }

  function Concat(batches: seq<seq<FileRequest>>): seq<FileRequest>
  {
    if batches == [] then [] else Concat(batches[..|batches| - 1]) + batches[|batches| - 1]
  }

  ghost predicate AllFit(env: Environment, limits: Limits, batches: seq<seq<FileRequest>>)
  {
    forall i :: 0 <= i < |batches| ==> BatchFits(env, limits, batches[i])
  }

  /** The batches closed so far and the one still open. */
  datatype Plan = Plan(closed: seq<seq<FileRequest>>, batch: seq<FileRequest>)

  /** A file that does not fit into the open batch, or has another language, opens a new one. */
  function PlanStep(env: Environment, limits: Limits, plan: Plan, file: FileRequest): Plan
  {
    if plan.batch != [] && (Bytes(plan.batch) + file.size > limits.batchBytes ||
                            env.language(file) != env.language(plan.batch[0]))
    then Plan(plan.closed + [plan.batch], [file])
    else Plan(plan.closed, plan.batch + [file])
  }

  function PlanOf(env: Environment, limits: Limits, files: seq<FileRequest>): Plan
  {
    if files == [] then Plan([], [])
    else PlanStep(env, limits, PlanOf(env, limits, files[..|files| - 1]), files[|files| - 1])
  }

  lemma PlanNext(env: Environment, limits: Limits, files: seq<FileRequest>, i: nat)
    requires i < |files|
    ensures PlanOf(env, limits, files[..i + 1]) == PlanStep(env, limits, PlanOf(env, limits, files[..i]), files[i])
  {
    assert files[..i + 1][..i] == files[..i];
  }

  function Planned(plan: Plan): seq<FileRequest> { Concat(plan.closed) + plan.batch }

  lemma PlanStepConcat(env: Environment, limits: Limits, plan: Plan, file: FileRequest)
    ensures Planned(PlanStep(env, limits, plan, file)) == Planned(plan) + [file]
  {
    ConcatPush(plan.closed, plan.batch);
    AppendAssociative(Concat(plan.closed), plan.batch, [file]);
  }

  function Batches(env: Environment, limits: Limits, files: seq<FileRequest>): seq<seq<FileRequest>>
  {
    PlanOf(env, limits, files).closed + [PlanOf(env, limits, files).batch]
  }

  /** Batches once closed stay. */
  lemma {:induction false} ClosedStays(env: Environment, limits: Limits, files: seq<FileRequest>, i: nat, k: nat)
    requires i <= |files| && k < |PlanOf(env, limits, files[..i]).closed|
    ensures k < |PlanOf(env, limits, files).closed|
    ensures PlanOf(env, limits, files).closed[k] == PlanOf(env, limits, files[..i]).closed[k] ==
            Batches(env, limits, files)[k]
    decreases |files| - i
  {
    if i < |files| {
      PlanNext(env, limits, files, i);
      ClosedStays(env, limits, files, i + 1, k);
    } else {
      assert files[..i] == files;
    }
  }

  /** The files that go into batches. */
  function Ordinaries(env: Environment, limits: Limits, files: seq<FileRequest>): seq<FileRequest>
  {
    Select(env, limits, Select(env, limits, files, Candidate), Ordinary)
  }

  lemma ConcatPush(batches: seq<seq<FileRequest>>, batch: seq<FileRequest>)
    ensures Concat(batches + [batch]) == Concat(batches) + batch
  {
    assert (batches + [batch])[..|batches|] == batches;
  }

  lemma {:induction false} PlanConcat(env: Environment, limits: Limits, files: seq<FileRequest>)
    ensures Planned(PlanOf(env, limits, files)) == files
  {
    if files != [] {
      var n := |files| - 1;
      PlanConcat(env, limits, files[..n]);
      PlanStepConcat(env, limits, PlanOf(env, limits, files[..n]), files[n]);
      LastSplit(files);
    }
  }

  lemma OneLanguageGrows(env: Environment, batch: seq<FileRequest>, file: FileRequest, language: Option<string>)
    requires OneLanguage(env, batch, language) && env.language(file) == language
    ensures OneLanguage(env, batch + [file], language)
  {
  }

  lemma BatchGrows(env: Environment, limits: Limits, batch: seq<FileRequest>, file: FileRequest)
    requires BatchFits(env, limits, batch)
    requires batch != [] ==>
               Bytes(batch) + file.size <= limits.batchBytes && env.language(file) == env.language(batch[0])
    ensures BatchFits(env, limits, batch + [file])
  {
    BytesPush(batch, file);
    if batch == [] {
      assert [] + [file] == [file];
    } else {
      OneLanguageGrows(env, batch, file, env.language(batch[0]));
    }
  }

  lemma AllFitPush(env: Environment, limits: Limits, batches: seq<seq<FileRequest>>, batch: seq<FileRequest>)
    requires AllFit(env, limits, batches) && BatchFits(env, limits, batch)
    ensures AllFit(env, limits, batches + [batch])
  {
  }

  lemma PlanStepFits(env: Environment, limits: Limits, plan: Plan, file: FileRequest)
    requires AllFit(env, limits, plan.closed) && BatchFits(env, limits, plan.batch)
    ensures AllFit(env, limits, PlanStep(env, limits, plan, file).closed) &&
            BatchFits(env, limits, PlanStep(env, limits, plan, file).batch)
  {
    AllFitPush(env, limits, plan.closed, plan.batch);
    if plan.batch != [] && (Bytes(plan.batch) + file.size > limits.batchBytes ||
                            env.language(file) != env.language(plan.batch[0])) {
      assert BatchFits(env, limits, [file]);
    } else {
      BatchGrows(env, limits, plan.batch, file);
    }
  }

  lemma {:induction false} PlanFits(env: Environment, limits: Limits, files: seq<FileRequest>)
    ensures AllFit(env, limits, PlanOf(env, limits, files).closed) &&
            BatchFits(env, limits, PlanOf(env, limits, files).batch)
  {
    if files != [] {
      var n := |files| - 1;
      PlanFits(env, limits, files[..n]);
      PlanStepFits(env, limits, PlanOf(env, limits, files[..n]), files[n]);
    }
  }

  /** The batches are the files in order, each of one language, and each within the byte budget
      unless it is a single file. */
  lemma BatchesSound(env: Environment, limits: Limits, files: seq<FileRequest>)
    ensures Concat(Batches(env, limits, files)) == files
    ensures AllFit(env, limits, Batches(env, limits, files))
  {
    PlanConcat(env, limits, files);
    PlanFits(env, limits, files);
    ConcatPush(PlanOf(env, limits, files).closed, PlanOf(env, limits, files).batch);
  }

  /** The first file of the next batch did not go into this one: for its size, or its language. */
  predicate ClosedFor(env: Environment, limits: Limits, batch: seq<FileRequest>, next: seq<FileRequest>)
  {
    && batch != [] && next != []
    && (Bytes(batch) + next[0].size > limits.batchBytes || env.language(next[0]) != env.language(batch[0]))
  }

  /** No batch is closed earlier than it must be. */
  lemma {:induction false} BatchesMaximal(env: Environment, limits: Limits, files: seq<FileRequest>, k: nat)
    requires k + 1 < |Batches(env, limits, files)|
    ensures ClosedFor(env, limits, Batches(env, limits, files)[k], Batches(env, limits, files)[k + 1])
    decreases |files|
  {
    var n := |files| - 1;
    var before, plan := PlanOf(env, limits, files[..n]), PlanOf(env, limits, files);
    if k + 1 < |before.closed| || (k + 1 == |before.closed| && |plan.closed| > |before.closed|) {
      BatchesMaximal(env, limits, files[..n], k);
    } else if k + 1 == |before.closed| {
      BatchesMaximal(env, limits, files[..n], k);
      assert plan.batch[0] == before.batch[0];
    }
  }

  lemma {:induction false} PathsAppend(xs: seq<FileRequest>, ys: seq<FileRequest>)
    ensures Paths(xs + ys) == Paths(xs) + Paths(ys)
    decreases |ys|
  {
    if ys == [] {
      assert xs + ys == xs;
    } else {
      var n := |ys| - 1;
      PathsAppend(xs, ys[..n]);
      AppendAssociative(xs, ys[..n], [ys[n]]);
      assert ys == ys[..n] + [ys[n]];
      PathsPush(xs + ys[..n], ys[n]);
    }
  }

  lemma FreshAppend(xs: seq<FileRequest>, ys: seq<FileRequest>, all: seq<FileRequest>)
    requires all == xs + ys && DistinctPaths(all)
    ensures DistinctPaths(ys) && Paths(xs) !! Paths(ys) && Paths(all) == Paths(xs) + Paths(ys)
  {
    PathsAppend(xs, ys);
    forall i, j | 0 <= i < j < |ys|
      ensures ys[i].path != ys[j].path
    {
      assert all[|xs| + i] == ys[i] && all[|xs| + j] == ys[j];
    }
    PathsAll(xs);
    PathsAll(ys);
    forall i, j | 0 <= i < |xs| && 0 <= j < |ys|
      ensures xs[i].path != ys[j].path
    {
      assert all[i] == xs[i] && all[|xs| + j] == ys[j];
    }
  }

  lemma {:induction false} PrefixPaths(files: seq<FileRequest>, n: nat)
    requires n <= |files|
    ensures Paths(files[..n]) <= Paths(files)
    decreases |files| - n
  {
    if n < |files| {
      PrefixPaths(files, n + 1);
      assert files[..n + 1] == files[..n] + [files[n]];
      PathsPush(files[..n], files[n]);
    } else {
      assert files[..n] == files;
    }
  }

  function Min(a: nat, b: nat): (m: nat)
    ensures m <= a && m <= b && m in {a, b}
  {
    if a < b then a else b
  }

  /** The counter has handed out the indices below it, each once: to a worker that still holds it,
      or it is done. A worker stops only when the counter has reached the end. */
  ghost predicate PoolState(n: nat, slots: seq<Slot>, next: nat, done: set<nat>)
  {
    && next <= n
    && (forall i :: i in done ==> i < next)
    && (forall w :: 0 <= w < |slots| && slots[w].Holding? ==> slots[w].file < next && slots[w].file !in done)
    && (forall v, w :: 0 <= v < w < |slots| && slots[v].Holding? && slots[w].Holding? ==>
        slots[v].file != slots[w].file)
    && (forall i :: 0 <= i < next ==> i in done || Held(slots, i))
    && (forall w :: 0 <= w < |slots| && slots[w] == Finished ==> next == n)
  }

  predicate Held(slots: seq<Slot>, i: nat) { Holding(i) in slots }

  lemma HeldElsewhere(slots: seq<Slot>, w: nat, s: Slot, i: nat)
    requires w < |slots| && Held(slots, i) && slots[w] != Holding(i)
    ensures Held(slots[w := s], i)
  {
    var v :| 0 <= v < |slots| && slots[v] == Holding(i);
    assert slots[w := s][v] == Holding(i);
  }

  lemma TakeNext(n: nat, slots: seq<Slot>, next: nat, done: set<nat>, w: nat)
    requires PoolState(n, slots, next, done) && w < |slots| && slots[w].Idle? && next < n
    ensures PoolState(n, slots[w := Holding(next)], next + 1, done)
    ensures Weight(slots[w := Holding(next)]) == Weight(slots) + 1
  {
    WeightUpdate(slots, w, Holding(next));
    var after := slots[w := Holding(next)];
    assert after[w] == Holding(next);
    forall i | 0 <= i < next && i !in done
      ensures Held(after, i)
    {
      HeldElsewhere(slots, w, Holding(next), i);
    }
  }

  lemma Stop(n: nat, slots: seq<Slot>, next: nat, done: set<nat>, w: nat)
    requires PoolState(n, slots, next, done) && w < |slots| && slots[w].Idle? && next == n
    ensures PoolState(n, slots[w := Finished], next, done)
    ensures Weight(slots[w := Finished]) < Weight(slots)
  {
    WeightUpdate(slots, w, Finished);
    forall i | 0 <= i < next && i !in done
      ensures Held(slots[w := Finished], i)
    {
      HeldElsewhere(slots, w, Finished, i);
    }
  }

  lemma Release(n: nat, slots: seq<Slot>, next: nat, done: set<nat>, w: nat)
    requires PoolState(n, slots, next, done) && w < |slots| && slots[w].Holding?
    ensures PoolState(n, slots[w := Idle], next, done + {slots[w].file})
    ensures Weight(slots[w := Idle]) < Weight(slots)
  {
    WeightUpdate(slots, w, Idle);
    forall i | 0 <= i < next && i !in done && i != slots[w].file
      ensures Held(slots[w := Idle], i)
    {
      HeldElsewhere(slots, w, Idle, i);
    }
  }

  lemma NoneHeld(slots: seq<Slot>, i: nat)
    requires forall w :: 0 <= w < |slots| ==> slots[w] == Finished
    ensures !Held(slots, i)
  {
    forall w | 0 <= w < |slots|
      ensures slots[w] != Holding(i)
    {
      assert slots[w] == Finished;
    }
  }

  lemma AllDone(n: nat, slots: seq<Slot>, next: nat, done: set<nat>)
    requires PoolState(n, slots, next, done) && slots != []
    requires forall w :: 0 <= w < |slots| ==> slots[w] == Finished
    ensures done == Indices(n)
  {
    assert slots[0] == Finished;
    forall i: nat
      ensures i in done <==> i in Indices(n)
    {
      NoneHeld(slots, i);
    }
  }
}
