/** The events a chunking worker writes for the files of one request. */
module Events {

  /** A chunk, with the doc comments that its context carries along. */
  datatype Chunk = Chunk(index: nat, text: string, tokenCount: nat, docs: string)

  datatype Status = Succeeded | Skipped | Failed

  datatype Event =
    | ChunkEvent(path: string, chunk: Chunk)
    | FileEvent(path: string, status: Status)

  /** What happened to a file: its chunks, or the reason it has none. */
  datatype Outcome = Outcome(status: Status, chunks: seq<Chunk>)

  predicate Sound(o: Outcome) { o.status != Succeeded ==> o.chunks == [] }

  function ChunkEvents(path: string, chunks: seq<Chunk>): seq<Event>
  {
    if chunks == [] then [] else ChunkEvents(path, chunks[..|chunks| - 1]) + [ChunkEvent(path, chunks[|chunks| - 1])]
  }

  /** A file's own stream: its chunks in order, then the one event that closes the file. */
  function StreamOf(path: string, o: Outcome): seq<Event>
  {
    ChunkEvents(path, o.chunks) + [FileEvent(path, o.status)]
  }

  /** The events of one path, in order. */
  function Projection(es: seq<Event>, path: string): seq<Event>
  {
    if es == [] then []
    else Projection(es[..|es| - 1], path) + if es[|es| - 1].path == path then [es[|es| - 1]] else []
  }

  lemma {:induction false} ProjectionAppend(a: seq<Event>, b: seq<Event>, path: string)
    ensures Projection(a + b, path) == Projection(a, path) + Projection(b, path)
    decreases |b|
  {
    if b == [] {
      assert a + b == a;
    } else {
      var n := |b| - 1;
      assert (a + b)[..|a + b| - 1] == a + b[..n];
      ProjectionAppend(a, b[..n], path);
    }
  }

  lemma {:induction false} ProjectionOwn(path: string, other: string, chunks: seq<Chunk>)
    ensures Projection(ChunkEvents(path, chunks), other) == if other == path then ChunkEvents(path, chunks) else []
  {
    if chunks != [] {
      var n := |chunks| - 1;
      ProjectionOwn(path, other, chunks[..n]);
      var es := ChunkEvents(path, chunks);
      assert es[..|es| - 1] == ChunkEvents(path, chunks[..n]);
    }
  }

  /** A file's stream is its own projection and adds nothing to any other path. */
  lemma ProjectionOfStream(path: string, other: string, o: Outcome)
    ensures Projection(StreamOf(path, o), other) == if other == path then StreamOf(path, o) else []
  {
    ProjectionOwn(path, other, o.chunks);
    var es := StreamOf(path, o);
    assert es[..|es| - 1] == ChunkEvents(path, o.chunks);
  }
}
