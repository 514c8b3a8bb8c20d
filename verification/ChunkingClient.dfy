/** ChunkingWorkerClient.chunk: reads the worker's lines and hands out one result per file event,
    with the chunks collected for its path. */
module ChunkingClient {
  import opened Options
  import opened SeqFacts
  import opened Events

  const PROTOCOL_VERSION: int := 3

  /** The longest line, without its newline, that the reader accepts. */
  const STREAM_LIMIT_BYTES: nat := 1024 * 1024

  /** One line of the worker's output: its bytes, and what they hold as far as the client looks. */
  datatype Line = Line(size: nat, content: Content)

  datatype Content =
    | NotUtf8
    | NotAnObject
    | Message(protocolVersion: int, requestId: string, body: Body)

  datatype Body =
    | Fatal
    | Complete(engineVersion: string)
    | ChunkBody(path: Option<string>, chunk: Option<Chunk>)
    | FileBody(path: Option<string>, status: Status)
    | Unknown

  datatype Error =
    | ExitedUnexpectedly | InvalidJson | ProtocolMismatch | WorkerFailed | EngineMismatch
    | IncompleteFiles | InvalidChunkEvent | InvalidFileEvent | UnknownEvent | ChunksForFailedFile
    | RecordTooLong

  datatype FileResult = FileResult(path: string, status: Status, chunks: seq<Chunk>)

  /** What a request yields: its results, and the error it ends with if it does. */
  datatype Reply = Reply(results: seq<FileResult>, error: Option<Error>)

  /** The chunks waiting for their file event, and the results handed out so far. */
  datatype Desk = Desk(waiting: map<string, seq<Chunk>>, results: seq<FileResult>)

  datatype Step = Continue(desk: Desk) | Done(reply: Reply)

  function Waiting(desk: Desk, path: string): seq<Chunk>
  {
    if path in desk.waiting then desk.waiting[path] else []
  }

  function Raise(desk: Desk, error: Error): Step { Done(Reply(desk.results, Some(error))) }

  /** A line beyond the reader's limit, or one that is no text at all: both end alike. */
  predicate Unreadable(line: Line) { line.size > STREAM_LIMIT_BYTES || line.content.NotUtf8? }

  /** The effect of one line. */
  function HandleLine(desk: Desk, line: Line, requestId: string, engine: string): Step
  {
    if Unreadable(line) then Raise(desk, RecordTooLong)
    else if line.content.NotAnObject? then Raise(desk, InvalidJson)
    else if line.content.protocolVersion != PROTOCOL_VERSION || line.content.requestId != requestId then
      Raise(desk, ProtocolMismatch)
    else HandleBody(desk, line.content.body, engine)
  }

  function HandleBody(desk: Desk, body: Body, engine: string): Step
  {
    match body
    case Fatal => Raise(desk, WorkerFailed)
    case Complete(version) =>
      if version != engine then Raise(desk, EngineMismatch)
      else if desk.waiting != map[] then Raise(desk, IncompleteFiles)
      else Done(Reply(desk.results, None))
    case ChunkBody(path, chunk) =>
      if path.None? || chunk.None? then Raise(desk, InvalidChunkEvent)
      else Continue(desk.(waiting := desk.waiting[path.value := Waiting(desk, path.value) + [chunk.value]]))
    case Unknown => Raise(desk, UnknownEvent)
    case FileBody(path, status) =>
      if path.None? then Raise(desk, InvalidFileEvent)
      else if status != Succeeded && Waiting(desk, path.value) != [] then Raise(desk, ChunksForFailedFile)
      else
        var chunks := if status == Succeeded then Waiting(desk, path.value) else [];
        Continue(Desk(desk.waiting - {path.value}, desk.results + [FileResult(path.value, status, chunks)]))
  }

  function Converse(desk: Desk, lines: seq<Line>, requestId: string, engine: string): Reply
    decreases |lines|
  {
    if lines == [] then Reply(desk.results, Some(ExitedUnexpectedly))
    else
      match HandleLine(desk, lines[0], requestId, engine)
      case Done(reply) => reply
      case Continue(next) => Converse(next, lines[1..], requestId, engine)
  }

  /** The worker process: the lines it has still to write. */
  class Worker {
    var lines: seq<Line>

    constructor (lines: seq<Line>)
      ensures this.lines == lines
    {
      this.lines := lines;
    }

    /** The next line. One that is longer than the limit is not returned. */
    method ReadLine(limit: nat) returns (line: Option<Line>, overrun: bool)
      modifies this
      ensures old(lines) == [] ==> line == None && !overrun && lines == []
      ensures old(lines) != [] ==> lines == old(lines)[1..] && overrun == (old(lines)[0].size > limit)
      ensures old(lines) != [] ==> line == if overrun then None else Some(old(lines)[0])
    {
      line, overrun := None, false;
      if lines != [] {
        overrun := lines[0].size > limit;
        if !overrun { line := Some(lines[0]); }
        lines := lines[1..];
      }
    }
  }

  class ChunkingWorkerClient {
    const engine: string
    var process: Worker?
    var restartCount: nat

    constructor (engine: string)
      ensures this.engine == engine && process == null && restartCount == 0
    {
      this.engine, process, restartCount := engine, null, 0;
    }

    method DiscardProcess()
      modifies this
      ensures process == null && restartCount == old(restartCount) + 1
    {
      process := null;
      restartCount := restartCount + 1;
    }

    /** Serves one request on the running process. A request that ends in an error costs the process. */
    method ChunkFiles(requestId: string) returns (reply: Reply)
      requires process != null
      modifies this, process
      ensures reply == Converse(Desk(map[], []), old(process.lines), requestId, engine)
      ensures reply.error == None ==> process == old(process) && restartCount == old(restartCount)
      ensures reply.error != None ==> process == null && restartCount == old(restartCount) + 1
    {
      var waiting: map<string, seq<Chunk>> := map[];
      var results: seq<FileResult> := [];
      var error: Option<Error> := None;
      var worker := process;
      ghost var wanted := Converse(Desk(map[], []), worker.lines, requestId, engine);
      while true
        invariant process == worker == old(process) && restartCount == old(restartCount)
        invariant Converse(Desk(waiting, results), worker.lines, requestId, engine) == wanted
        decreases |worker.lines|
      {
        var line, overrun := worker.ReadLine(STREAM_LIMIT_BYTES);
        if overrun { error := Some(RecordTooLong); break; }
        if line.None? { error := Some(ExitedUnexpectedly); break; }
        if line.value.content.NotUtf8? { error := Some(RecordTooLong); break; }
        if line.value.content.NotAnObject? { error := Some(InvalidJson); break; }
        var Message(version, id, body) := line.value.content;
        if version != PROTOCOL_VERSION || id != requestId { error := Some(ProtocolMismatch); break; }
        if body.Fatal? { error := Some(WorkerFailed); break; }
        if body.Complete? {
          if body.engineVersion != engine { error := Some(EngineMismatch); }
          else if waiting != map[] { error := Some(IncompleteFiles); }
          break;
        }
        if body.ChunkBody? {
          if body.path.None? || body.chunk.None? { error := Some(InvalidChunkEvent); break; }
          var path := body.path.value;
          waiting := waiting[path := (if path in waiting then waiting[path] else []) + [body.chunk.value]];
          continue;
        }
        if !body.FileBody? { error := Some(UnknownEvent); break; }
        if body.path.None? { error := Some(InvalidFileEvent); break; }
        var path := body.path.value;
        var chunks := if path in waiting then waiting[path] else [];
        waiting := waiting - {path};
        if body.status != Succeeded && chunks != [] { error := Some(ChunksForFailedFile); break; }
        results := results + [FileResult(path, body.status, if body.status == Succeeded then chunks else [])];
      }
      reply := Reply(results, error);
      if error.Some? { DiscardProcess(); }
    }
  }

  // ---------- Which streams are accepted ----------

  /** How long the lines are that the worker writes. */
  datatype Sizes = Sizes(event: Event -> nat, completion: nat)

  predicate Fits(size: nat) { size <= STREAM_LIMIT_BYTES }

  /** Every line fits the reader. */
  ghost predicate AllFit(es: seq<Event>, sizes: Sizes)
  {
    Fits(sizes.completion) && forall i :: 0 <= i < |es| ==> Fits(sizes.event(es[i]))
  }

  /** The lines a well-behaved worker writes: events, then the completion. */
  function LineOf(e: Event, requestId: string, sizes: Sizes): Line
  {
    match e
    case ChunkEvent(path, chunk) =>
      Line(sizes.event(e), Message(PROTOCOL_VERSION, requestId, ChunkBody(Some(path), Some(chunk))))
    case FileEvent(path, status) =>
      Line(sizes.event(e), Message(PROTOCOL_VERSION, requestId, FileBody(Some(path), status)))
  }

  function LinesOf(es: seq<Event>, requestId: string, engine: string, sizes: Sizes): seq<Line>
  {
    if es == [] then [Line(sizes.completion, Message(PROTOCOL_VERSION, requestId, Complete(engine)))]
    else [LineOf(es[0], requestId, sizes)] + LinesOf(es[1..], requestId, engine, sizes)
  }

  /** What the client makes of such a stream. */
  function ReplyTo(es: seq<Event>, requestId: string, engine: string, sizes: Sizes): Reply
  {
    Converse(Desk(map[], []), LinesOf(es, requestId, engine, sizes), requestId, engine)
  }

  /** What one path's own events do: None when they break the protocol, otherwise the chunks still
      waiting and the results given. */
  datatype PathDesk = Broken | PathDesk(waiting: seq<Chunk>, results: seq<FileResult>)

  function HandleOwn(d: PathDesk, e: Event): PathDesk
  {
    if d.Broken? then Broken
    else
      match e
      case ChunkEvent(_, chunk) => PathDesk(d.waiting + [chunk], d.results)
      case FileEvent(path, status) =>
        if status != Succeeded && d.waiting != [] then Broken
        else PathDesk([], d.results + [FileResult(path, status, d.waiting)])
  }

  function HandleAll(es: seq<Event>): PathDesk
  {
    if es == [] then PathDesk([], []) else HandleOwn(HandleAll(es[..|es| - 1]), es[|es| - 1])
  }

  /** A path's events are in order: every group of chunks is closed by a succeeded file event. */
  predicate Accepted(es: seq<Event>) { var d := HandleAll(es); d.PathDesk? && d.waiting == [] }

  function ResultsFor(results: seq<FileResult>, path: string): seq<FileResult>
  {
    if results == [] then []
    else
      var last := results[|results| - 1];
      ResultsFor(results[..|results| - 1], path) + if last.path == path then [last] else []
  }

  /** The desk agrees with one path's events. */
  ghost predicate AgreesAt(desk: Desk, es: seq<Event>, p: string)
  {
    HandleAll(Projection(es, p)) == PathDesk(Waiting(desk, p), ResultsFor(desk.results, p))
  }

  /** The desk after some events agrees, path by path, with each path's own events. */
  ghost predicate Agrees(desk: Desk, es: seq<Event>)
  {
    && (forall p :: AgreesAt(desk, es, p))
    && (forall p :: p in desk.waiting ==> desk.waiting[p] != [])
  }

  lemma ResultsForPush(results: seq<FileResult>, r: FileResult, path: string)
    ensures ResultsFor(results + [r], path) == ResultsFor(results, path) + if r.path == path then [r] else []
  {
    assert (results + [r])[..|results|] == results;
  }

  lemma ProjectionPush(es: seq<Event>, e: Event, path: string)
    ensures Projection(es + [e], path) == Projection(es, path) + if e.path == path then [e] else []
  {
    assert (es + [e])[..|es|] == es;
  }

  lemma HandlePush(es: seq<Event>, e: Event)
    ensures HandleAll(es + [e]) == HandleOwn(HandleAll(es), e)
  {
    assert (es + [e])[..|es|] == es;
  }

  lemma OwnEvents(es: seq<Event>, e: Event, p: string)
    ensures HandleAll(Projection(es + [e], p)) ==
            if p == e.path then HandleOwn(HandleAll(Projection(es, p)), e) else HandleAll(Projection(es, p))
  {
    ProjectionPush(es, e, p);
    HandlePush(Projection(es, p), e);
    assert Projection(es, p) + [] == Projection(es, p);
  }

  lemma ChunkStepAgrees(desk: Desk, es: seq<Event>, path: string, chunk: Chunk, p: string)
    requires AgreesAt(desk, es, path) && AgreesAt(desk, es, p)
    ensures AgreesAt(desk.(waiting := desk.waiting[path := Waiting(desk, path) + [chunk]]),
                     es + [ChunkEvent(path, chunk)], p)
  {
    OwnEvents(es, ChunkEvent(path, chunk), p);
  }

  lemma FileStepAgrees(desk: Desk, es: seq<Event>, path: string, status: Status, p: string)
    requires AgreesAt(desk, es, path) && AgreesAt(desk, es, p)
    requires status != Succeeded ==> Waiting(desk, path) == []
    ensures AgreesAt(Desk(desk.waiting - {path}, desk.results + [FileResult(path, status, Waiting(desk, path))]),
                     es + [FileEvent(path, status)], p)
  {
    OwnEvents(es, FileEvent(path, status), p);
    ResultsForPush(desk.results, FileResult(path, status, Waiting(desk, path)), p);
  }

  /** The desk after an event that its path's events allow. */
  function After(desk: Desk, e: Event): Desk
  {
    match e
    case ChunkEvent(path, chunk) => desk.(waiting := desk.waiting[path := Waiting(desk, path) + [chunk]])
    case FileEvent(path, status) =>
      Desk(desk.waiting - {path}, desk.results + [FileResult(path, status, Waiting(desk, path))])
  }

  lemma AfterAgrees(desk: Desk, es: seq<Event>, e: Event, p: string)
    requires AgreesAt(desk, es, e.path) && AgreesAt(desk, es, p)
    requires e.FileEvent? && e.status != Succeeded ==> Waiting(desk, e.path) == []
    ensures AgreesAt(After(desk, e), es + [e], p)
  {
    match e
    case ChunkEvent(path, chunk) => ChunkStepAgrees(desk, es, path, chunk, p);
    case FileEvent(path, status) => FileStepAgrees(desk, es, path, status, p);
  }

  /** A readable line of this request that holds a chunk or closes a file. */
  predicate EventLine(line: Line, requestId: string)
  {
    && !Unreadable(line) && line.content.Message?
    && line.content.protocolVersion == PROTOCOL_VERSION && line.content.requestId == requestId
    && ((line.content.body.ChunkBody? && line.content.body.path.Some? && line.content.body.chunk.Some?) ||
        (line.content.body.FileBody? && line.content.body.path.Some?))
  }

  function EventOf(line: Line, requestId: string): Event
    requires EventLine(line, requestId)
  {
    match line.content.body
    case ChunkBody(path, chunk) => ChunkEvent(path.value, chunk.value)
    case FileBody(path, status) => FileEvent(path.value, status)
  }

  lemma AfterHandles(desk: Desk, line: Line, requestId: string, engine: string)
    requires EventLine(line, requestId)
    ensures var e := EventOf(line, requestId);
            HandleLine(desk, line, requestId, engine) ==
            if e.FileEvent? && e.status != Succeeded && Waiting(desk, e.path) != []
            then Raise(desk, ChunksForFailedFile)
            else Continue(After(desk, e))
  {
  }

  /** One more event line: the client goes on, in agreement, exactly when that path's events allow it. */
  lemma StepAgrees(desk: Desk, es: seq<Event>, line: Line, requestId: string, engine: string)
    requires Agrees(desk, es) && EventLine(line, requestId)
    ensures var e, step := EventOf(line, requestId), HandleLine(desk, line, requestId, engine);
            if HandleAll(Projection(es + [e], e.path)).Broken? then step == Raise(desk, ChunksForFailedFile)
            else step == Continue(After(desk, e)) && Agrees(After(desk, e), es + [e])
  {
    var e := EventOf(line, requestId);
    assert AgreesAt(desk, es, e.path);
    OwnEvents(es, e, e.path);
    AfterHandles(desk, line, requestId, engine);
    if !HandleAll(Projection(es + [e], e.path)).Broken? {
      var after, longer := After(desk, e), es + [e];
      forall p
        ensures AgreesAt(after, longer, p)
      {
        assert AgreesAt(desk, es, p);
        AfterAgrees(desk, es, e, p);
      }
    }
  }

  lemma {:induction false} BrokenStays(es: seq<Event>, more: seq<Event>)
    requires HandleAll(es).Broken?
    ensures HandleAll(es + more).Broken?
    decreases |more|
  {
    if more == [] {
      assert es + more == es;
    } else {
      var n := |more| - 1;
      BrokenStays(es, more[..n]);
      assert es + more == es + more[..n] + [more[n]];
      HandlePush(es + more[..n], more[n]);
    }
  }

  /** The client's verdict after any events, of which those of `before` have been handled. */
  ghost predicate VerdictRight(reply: Reply, before: seq<Event>, es: seq<Event>, sizes: Sizes)
  {
    && (reply.error == None <==> AllFit(es, sizes) && AllAccepted(before + es))
    && (AllAccepted(before + es) && !AllFit(es, sizes) ==> reply.error == Some(RecordTooLong))
    && (reply.error == None ==> AllResults(reply.results, before + es))
  }

  /** Each path's own events are in order. */
  ghost predicate AllAccepted(es: seq<Event>) { forall p :: Accepted(Projection(es, p)) }

  /** Each path has exactly the results of its own events. */
  ghost predicate AllResults(results: seq<FileResult>, es: seq<Event>)
  {
    forall p :: HandleAll(Projection(es, p)) == PathDesk([], ResultsFor(results, p))
  }

  /** Nothing is left waiting exactly if each path's own events are in order. */
  lemma NothingWaiting(desk: Desk, before: seq<Event>)
    requires Agrees(desk, before)
    ensures desk.waiting == map[] <==> AllAccepted(before)
    ensures desk.waiting == map[] ==> AllResults(desk.results, before)
  {
    forall p
      ensures HandleAll(Projection(before, p)) == PathDesk(Waiting(desk, p), ResultsFor(desk.results, p))
    {
      assert AgreesAt(desk, before, p);
    }
    if p :| p in desk.waiting {
      assert !Accepted(Projection(before, p));
    } else {
      assert desk.waiting == map[];
    }
  }

  lemma VerdictAtEnd(desk: Desk, before: seq<Event>, requestId: string, engine: string, sizes: Sizes)
    requires Agrees(desk, before)
    ensures VerdictRight(Converse(desk, LinesOf([], requestId, engine, sizes), requestId, engine), before, [], sizes)
  {
    assert before + [] == before;
    NothingWaiting(desk, before);
  }

  lemma BrokenForGood(before: seq<Event>, e: Event, rest: seq<Event>)
    requires HandleAll(Projection(before + [e], e.path)).Broken?
    ensures !AllAccepted(before + [e] + rest)
  {
    ProjectionAppend(before + [e], rest, e.path);
    BrokenStays(Projection(before + [e], e.path), Projection(rest, e.path));
    assert !Accepted(Projection(before + [e] + rest, e.path));
  }

  lemma AllFitTail(es: seq<Event>, sizes: Sizes)
    requires es != []
    ensures AllFit(es, sizes) <==> Fits(sizes.event(es[0])) && AllFit(es[1..], sizes)
  {
    assert es == [es[0]] + es[1..];
  }

  lemma {:induction false} ConverseFrom(desk: Desk, before: seq<Event>, es: seq<Event>, requestId: string,
                                        engine: string,
                                        sizes: Sizes)
    requires Agrees(desk, before)
    ensures VerdictRight(Converse(desk, LinesOf(es, requestId, engine, sizes), requestId, engine), before, es, sizes)
    decreases |es|
  {
    if es == [] {
      VerdictAtEnd(desk, before, requestId, engine, sizes);
    } else {
      var e, rest, lines := es[0], es[1..], LinesOf(es, requestId, engine, sizes);
      assert lines[0] == LineOf(e, requestId, sizes) && lines[1..] == LinesOf(rest, requestId, engine, sizes);
      assert before + es == before + [e] + rest;
      AllFitTail(es, sizes);
      if Fits(sizes.event(e)) {
        StepAgrees(desk, before, LineOf(e, requestId, sizes), requestId, engine);
        if HandleAll(Projection(before + [e], e.path)).Broken? {
          BrokenForGood(before, e, rest);
        } else {
          ConverseFrom(After(desk, e), before + [e], rest, requestId, engine, sizes);
        }
      }
    }
  }

  /** A request whose events are followed by the completion succeeds exactly when every line fits the
      reader and, for every path, the path's own events are in order. Then each path gets exactly the
      results of its own events, however the paths' events are interleaved. One line that does not fit
      is the end of the whole request. */
  lemma AcceptsAnyInterleaving(es: seq<Event>, requestId: string, engine: string, sizes: Sizes)
    ensures var reply := ReplyTo(es, requestId, engine, sizes);
            && (reply.error == None <==> AllFit(es, sizes) && AllAccepted(es))
            && (AllAccepted(es) && !AllFit(es, sizes) ==> reply.error == Some(RecordTooLong))
            && (reply.error == None ==> AllResults(reply.results, es))
  {
    assert [] + es == es;
    ConverseFrom(Desk(map[], []), [], es, requestId, engine, sizes);
  }

  // ---------- Any lines at all ----------

  /** The events of the lines before the first one that is no event. */
  function LeadingEvents(lines: seq<Line>, requestId: string): (es: seq<Event>)
    ensures |es| <= |lines|
  {
    if lines == [] || !EventLine(lines[0], requestId) then []
    else [EventOf(lines[0], requestId)] + LeadingEvents(lines[1..], requestId)
  }

  predicate CompletionLine(line: Line, requestId: string, engine: string)
  {
    !Unreadable(line) && line.content == Message(PROTOCOL_VERSION, requestId, Complete(engine))
  }

  /** After the events of `before`: the lines go on with events in order and then the completion. */
  ghost predicate Completes(before: seq<Event>, lines: seq<Line>, requestId: string, engine: string)
  {
    var es := LeadingEvents(lines, requestId);
    |es| < |lines| && CompletionLine(lines[|es|], requestId, engine) && AllAccepted(before + es)
  }

  lemma CompletesNext(before: seq<Event>, lines: seq<Line>, requestId: string, engine: string)
    requires lines != [] && EventLine(lines[0], requestId)
    ensures Completes(before, lines, requestId, engine) <==>
            Completes(before + [EventOf(lines[0], requestId)], lines[1..], requestId, engine)
    ensures before + LeadingEvents(lines, requestId) ==
            before + [EventOf(lines[0], requestId)] + LeadingEvents(lines[1..], requestId)
  {
    var e, rest := EventOf(lines[0], requestId), LeadingEvents(lines[1..], requestId);
    AppendAssociative(before, [e], rest);
    if |rest| < |lines| - 1 { assert lines[1..][|rest|] == lines[|rest| + 1]; }
  }

  lemma EndsHere(desk: Desk, before: seq<Event>, line: Line, requestId: string, engine: string)
    requires Agrees(desk, before) && !EventLine(line, requestId)
    ensures var step := HandleLine(desk, line, requestId, engine);
            && step.Done? && step.reply.results == desk.results
            && (step.reply.error == None <==> CompletionLine(line, requestId, engine) && AllAccepted(before))
  {
    NothingWaiting(desk, before);
  }

  ghost predicate RightFrom(reply: Reply, before: seq<Event>, lines: seq<Line>, requestId: string, engine: string)
  {
    && (reply.error == None <==> Completes(before, lines, requestId, engine))
    && (reply.error == None ==> AllResults(reply.results, before + LeadingEvents(lines, requestId)))
  }

  lemma {:induction false} RightFromHere(desk: Desk, before: seq<Event>, lines: seq<Line>, requestId: string,
                                         engine: string)
    requires Agrees(desk, before)
    ensures RightFrom(Converse(desk, lines, requestId, engine), before, lines, requestId, engine)
    decreases |lines|
  {
    if lines != [] && EventLine(lines[0], requestId) {
      var e, rest := EventOf(lines[0], requestId), LeadingEvents(lines[1..], requestId);
      CompletesNext(before, lines, requestId, engine);
      StepAgrees(desk, before, lines[0], requestId, engine);
      if HandleAll(Projection(before + [e], e.path)).Broken? {
        BrokenForGood(before, e, rest);
      } else {
        RightFromHere(After(desk, e), before + [e], lines[1..], requestId, engine);
      }
    } else if lines != [] {
      assert before + [] == before;
      EndsHere(desk, before, lines[0], requestId, engine);
      NothingWaiting(desk, before);
    }
  }

  /** Whatever a worker writes: the request succeeds exactly if the first line that is no event of this
      request, readable and well-formed, is its completion by the right engine, and the events before it
      are in order for each path. Then each path gets exactly the results of its own events. */
  lemma AcceptsExactly(lines: seq<Line>, requestId: string, engine: string)
    ensures var reply, es := Converse(Desk(map[], []), lines, requestId, engine), LeadingEvents(lines, requestId);
            && (reply.error == None <==>
                |es| < |lines| && CompletionLine(lines[|es|], requestId, engine) && AllAccepted(es))
            && (reply.error == None ==> AllResults(reply.results, es))
  {
    var es := LeadingEvents(lines, requestId);
    assert [] + es == es;
    RightFromHere(Desk(map[], []), [], lines, requestId, engine);
  }

  /** The error that a line brings when it is no event and not the completion. */
  ghost predicate ErrorOf(line: Line, requestId: string, engine: string, error: Error)
  {
    match error
    case RecordTooLong => line.size > STREAM_LIMIT_BYTES || line.content.NotUtf8?
    case InvalidJson => line.content.NotAnObject?
    case ProtocolMismatch =>
      line.content.Message? &&
      (line.content.protocolVersion != PROTOCOL_VERSION || line.content.requestId != requestId)
    case WorkerFailed => line.content.Message? && line.content.body.Fatal?
    case EngineMismatch =>
      line.content.Message? && line.content.body.Complete? && line.content.body.engineVersion != engine
    case IncompleteFiles => line.content.Message? && line.content.body == Complete(engine)
    case InvalidChunkEvent =>
      line.content.Message? && line.content.body.ChunkBody? &&
      (line.content.body.path == None || line.content.body.chunk == None)
    case InvalidFileEvent =>
      line.content.Message? && line.content.body.FileBody? && line.content.body.path == None
    case UnknownEvent => line.content.Message? && line.content.body.Unknown?
    case _ => false
  }

  /** The error of a request that fails: that of the first line that is no event, or that there is no
      such line, or that a failed file had chunks. */
  ghost predicate ErrorRight(reply: Reply, before: seq<Event>, lines: seq<Line>, requestId: string, engine: string)
  {
    reply.error.Some? ==>
      var es := LeadingEvents(lines, requestId);
      || (reply.error.value == ChunksForFailedFile && exists p :: HandleAll(Projection(before + es, p)).Broken?)
      || (reply.error.value == ExitedUnexpectedly && |es| == |lines|)
      || (|es| < |lines| && ErrorOf(lines[|es|], requestId, engine, reply.error.value))
  }

  lemma ErrorHere(desk: Desk, line: Line, requestId: string, engine: string)
    requires !EventLine(line, requestId)
    ensures var step := HandleLine(desk, line, requestId, engine);
            step.Done? && (step.reply.error.Some? ==> ErrorOf(line, requestId, engine, step.reply.error.value))
  {
  }

  lemma {:induction false} ErrorFromHere(desk: Desk, before: seq<Event>, lines: seq<Line>, requestId: string,
                                         engine: string)
    requires Agrees(desk, before)
    ensures ErrorRight(Converse(desk, lines, requestId, engine), before, lines, requestId, engine)
    decreases |lines|
  {
    if lines != [] && EventLine(lines[0], requestId) {
      var e, rest := EventOf(lines[0], requestId), LeadingEvents(lines[1..], requestId);
      CompletesNext(before, lines, requestId, engine);
      StepAgrees(desk, before, lines[0], requestId, engine);
      if HandleAll(Projection(before + [e], e.path)).Broken? {
        ProjectionAppend(before + [e], rest, e.path);
        BrokenStays(Projection(before + [e], e.path), Projection(rest, e.path));
        assert HandleAll(Projection(before + LeadingEvents(lines, requestId), e.path)).Broken?;
      } else {
        ErrorFromHere(After(desk, e), before + [e], lines[1..], requestId, engine);
        if |rest| < |lines| - 1 { assert lines[1..][|rest|] == lines[|rest| + 1]; }
      }
    } else if lines != [] {
      ErrorHere(desk, lines[0], requestId, engine);
    }
  }

  /** The error names what is wrong with the first line that is no event of this request. */
  lemma ErrorNamesLine(lines: seq<Line>, requestId: string, engine: string)
    ensures ErrorRight(Converse(Desk(map[], []), lines, requestId, engine), [], lines, requestId, engine)
  {
    ErrorFromHere(Desk(map[], []), [], lines, requestId, engine);
  }

  // ---------- Streams of files ----------

  lemma {:induction false} HandleChunks(path: string, chunks: seq<Chunk>)
    ensures HandleAll(ChunkEvents(path, chunks)) == PathDesk(chunks, [])
  {
    if chunks != [] {
      var n := |chunks| - 1;
      HandleChunks(path, chunks[..n]);
      HandlePush(ChunkEvents(path, chunks[..n]), ChunkEvent(path, chunks[n]));
      assert chunks == chunks[..n] + [chunks[n]];
    }
  }

  /** One file's own stream is in order and gives exactly one result, with its chunks in order. */
  lemma HandleStream(path: string, o: Outcome)
    requires Sound(o)
    ensures HandleAll(StreamOf(path, o)) == PathDesk([], [FileResult(path, o.status, o.chunks)])
  {
    HandleChunks(path, o.chunks);
    HandlePush(ChunkEvents(path, o.chunks), FileEvent(path, o.status));
  }

  /** The events are an interleaving of one complete stream per path. */
  ghost predicate AreStreams(es: seq<Event>, outcomes: map<string, Outcome>)
  {
    forall p :: IsStream(es, outcomes, p)
  }

  ghost predicate IsStream(es: seq<Event>, outcomes: map<string, Outcome>, p: string)
  {
    if p in outcomes then Sound(outcomes[p]) && Projection(es, p) == StreamOf(p, outcomes[p])
    else Projection(es, p) == []
  }

  /** Exactly one result for each of these paths, its status and its chunks in order, and no other. */
  ghost predicate Delivered(results: seq<FileResult>, outcomes: map<string, Outcome>)
  {
    forall p :: ResultsFor(results, p) ==
      if p in outcomes then [FileResult(p, outcomes[p].status, outcomes[p].chunks)] else []
  }

  lemma StreamAccepted(es: seq<Event>, outcomes: map<string, Outcome>, p: string)
    requires IsStream(es, outcomes, p)
    ensures Accepted(Projection(es, p))
    ensures HandleAll(Projection(es, p)).results ==
            if p in outcomes then [FileResult(p, outcomes[p].status, outcomes[p].chunks)] else []
  {
    if p in outcomes { HandleStream(p, outcomes[p]); }
  }

  /** Any interleaving of one complete stream per requested path is accepted exactly if all its lines
      fit the reader, and then hands out each path's outcome and nothing else. */
  lemma ReassemblesStreams(es: seq<Event>, outcomes: map<string, Outcome>, requestId: string, engine: string,
                           sizes: Sizes)
    requires AreStreams(es, outcomes)
    ensures var reply := ReplyTo(es, requestId, engine, sizes);
            && reply.error == (if AllFit(es, sizes) then None else Some(RecordTooLong))
            && (AllFit(es, sizes) ==> Delivered(reply.results, outcomes))
  {
    forall p
      ensures Accepted(Projection(es, p))
      ensures HandleAll(Projection(es, p)).results ==
              if p in outcomes then [FileResult(p, outcomes[p].status, outcomes[p].chunks)] else []
    {
      assert IsStream(es, outcomes, p);
      StreamAccepted(es, outcomes, p);
    }
    AcceptsAnyInterleaving(es, requestId, engine, sizes);
  }

  /** Lines as a worker writes them: a chunk's line holds the doc comments it carries at full length. */
  ghost predicate CarriesDocs(sizes: Sizes)
  {
    forall path, chunk :: sizes.event(ChunkEvent(path, chunk)) >= |chunk.docs|
  }

  /** One chunk with doc comments beyond the reader's limit fails a request that is in order. */
  lemma OverlongRecord(es: seq<Event>, outcomes: map<string, Outcome>, path: string, k: nat, requestId: string,
                       engine: string, sizes: Sizes)
    requires AreStreams(es, outcomes) && CarriesDocs(sizes)
    requires path in outcomes && k < |outcomes[path].chunks|
    requires |outcomes[path].chunks[k].docs| > STREAM_LIMIT_BYTES
    ensures ReplyTo(es, requestId, engine, sizes).error == Some(RecordTooLong)
  {
    var e := ChunkEvent(path, outcomes[path].chunks[k]);
    assert IsStream(es, outcomes, path);
    ChunkWritten(path, outcomes[path].chunks, k);
    ProjectionPart(es, path, e);
    assert sizes.event(e) >= |outcomes[path].chunks[k].docs|;
    ReassemblesStreams(es, outcomes, requestId, engine, sizes);
  }

  lemma {:induction false} ChunkWritten(path: string, chunks: seq<Chunk>, k: nat)
    requires k < |chunks|
    ensures ChunkEvent(path, chunks[k]) in ChunkEvents(path, chunks)
  {
    if k < |chunks| - 1 { ChunkWritten(path, chunks[..|chunks| - 1], k); }
  }

  lemma {:induction false} ProjectionPart(es: seq<Event>, path: string, e: Event)
    requires e in Projection(es, path)
    ensures e in es
  {
    if es != [] && e in Projection(es[..|es| - 1], path) { ProjectionPart(es[..|es| - 1], path, e); }
  }
}
