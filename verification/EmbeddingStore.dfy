/** Embedding the chunks of a snapshot into the vector store: unchanged chunks are skipped, nothing is
    written before every batch has its vectors, and failing models fall back to the next. */
module EmbeddingStore {
  import opened Options

  type Vector = seq<real>
  type ModelId = string

  datatype Input = Input(id: string, text: string)

  datatype Entry = Entry(hash: string, vector: Vector)

  /** The records of one model. */
  type Collection = map<string, Entry>

  /** How an attempt with one model goes: the provider refuses it, something else breaks, or all
      batches are answered, and then the store fails after some writes, or the table of jobs after some
      reports, or neither ever. */
  datatype Attempt = Refused | Broken | Answered(vectors: Answers, writes: nat, reports: nat)

  /** The provider's answer to a batch, by its number and its texts. */
  type Answers = (nat, seq<string>) -> seq<Vector>

  datatype Outcome = Finished(stored: nat, skipped: nat) | ProviderFailed | OtherFailed

  datatype Progress = Progress(processed: nat, stored: nat, skipped: nat)

  ghost predicate DistinctIds(inputs: seq<Input>)
  {
    forall i, j :: 0 <= i < j < |inputs| ==> inputs[i].id != inputs[j].id
  }

  /** The stored record is of this text. */
  predicate Current(c: Collection, x: Input, hash: string -> string) { x.id in c && c[x.id].hash == hash(x.text) }

  function Pending(inputs: seq<Input>, c: Collection, hash: string -> string): seq<Input>
  {
    if inputs == [] then []
    else (if Current(c, inputs[0], hash) then [] else [inputs[0]]) + Pending(inputs[1..], c, hash)
  }

  function Batches(pending: seq<Input>, size: nat): seq<seq<Input>>
    requires size >= 1
  {
    if pending == [] then []
    else if |pending| <= size then [pending]
    else [pending[..size]] + Batches(pending[size..], size)
  }

  datatype Record = Record(id: string, entry: Entry)

  function Texts(batch: seq<Input>): (texts: seq<string>)
    ensures |texts| == |batch| && forall j :: 0 <= j < |batch| ==> texts[j] == batch[j].text
  {
    if batch == [] then [] else Texts(batch[..|batch| - 1]) + [batch[|batch| - 1].text]
  }

  function RecordsOf(batch: seq<Input>, vectors: seq<Vector>, hash: string -> string): (records: seq<Record>)
    requires |batch| == |vectors|
    ensures |records| == |batch|
    ensures forall j :: 0 <= j < |batch| ==> records[j] == Record(batch[j].id, Entry(hash(batch[j].text), vectors[j]))
  {
    if batch == [] then []
    else
      var n := |batch| - 1;
      RecordsOf(batch[..n], vectors[..n], hash) + [Record(batch[n].id, Entry(hash(batch[n].text), vectors[n]))]
  }

  /** The records of the first n batches, or None if some batch gets the wrong number of vectors. */
  function Gathered(batches: seq<seq<Input>>, vectors: Answers, hash: string -> string,
                    n: nat): (r: Option<seq<seq<Record>>>)
    requires n <= |batches|
    ensures r.Some? ==> |r.value| == n
  {
    if n == 0 then Some([])
    else
      var before := Gathered(batches, vectors, hash, n - 1);
      var answer := vectors(n - 1, Texts(batches[n - 1]));
      if before.None? || |answer| != |batches[n - 1]| then None
      else Some(before.value + [RecordsOf(batches[n - 1], answer, hash)])
  }

  /** The first n records are written. */
  function Put(c: Collection, records: seq<Record>, n: nat): Collection
    requires n <= |records|
  {
    if n == 0 then c else Put(c, records, n - 1)[records[n - 1].id := records[n - 1].entry]
  }

  /** The first n batches are written. */
  function PutBatches(c: Collection, batches: seq<seq<Record>>, n: nat): Collection
    requires n <= |batches|
  {
    if n == 0 then c else Put(PutBatches(c, batches, n - 1), batches[n - 1], |batches[n - 1]|)
  }

  function Total<T>(batches: seq<seq<T>>, n: nat): nat
    requires n <= |batches|
  {
    if n == 0 then 0 else Total(batches, n - 1) + |batches[n - 1]|
  }

  function Log(batches: seq<seq<Record>>, skipped: nat, n: nat): seq<Progress>
    requires n <= |batches|
  {
    if n == 0 then []
    else Log(batches, skipped, n - 1) + [Progress(Total(batches, n) + skipped, Total(batches, n), skipped)]
  }

  lemma LogNext(before: seq<Progress>, batches: seq<seq<Record>>, skipped: nat, n: nat)
    requires n < |batches|
    ensures before + Log(batches, skipped, n + 1) ==
            before + Log(batches, skipped, n) +
            [Progress(Total(batches, n + 1) + skipped, Total(batches, n + 1), skipped)]
  {
  }

  /** What an attempt leaves behind, reports and returns. */
  datatype Effect = Effect(collection: Collection, log: seq<Progress>, outcome: Outcome)

  /** How many of n batches are reported before something fails. */
  function ReportedOf(n: nat, writes: nat, reports: nat): (m: nat)
    ensures m <= n && m <= writes && m <= reports && m in {n, writes, reports}
  {
    if n <= writes && n <= reports then n else if writes <= reports then writes else reports
  }

  /** How many are written: one more, when it is the report that fails. */
  function WrittenOf(n: nat, writes: nat, reports: nat): (m: nat)
    ensures m <= n && m <= writes && m <= reports + 1 && m in {n, writes, reports + 1}
  {
    if n <= writes && n <= reports then n else if writes <= reports then writes else reports + 1
  }

  /** The batches are written and reported one by one, until something fails. With none there is still
      a report. */
  function Written(c: Collection, batches: seq<seq<Record>>, writes: nat, reports: nat, skipped: nat): Effect
  {
    var n := |batches|;
    var written, reported := WrittenOf(n, writes, reports), ReportedOf(n, writes, reports);
    if reported < n then Effect(PutBatches(c, batches, written), Log(batches, skipped, reported), OtherFailed)
    else if n > 0 then Effect(PutBatches(c, batches, n), Log(batches, skipped, n), Finished(Total(batches, n), skipped))
    else if reports == 0 then Effect(c, [], OtherFailed)
    else Effect(c, [Progress(skipped, 0, skipped)], Finished(0, skipped))
  }

  function Attempted(c: Collection, inputs: seq<Input>, size: nat, hash: string -> string, a: Attempt): Effect
    requires size >= 1
  {
    var pending := Pending(inputs, c, hash);
    var batches := Batches(pending, size);
    PendingShorter(inputs, c, hash);
    match a
    case Refused => Effect(c, [], ProviderFailed)
    case Broken => Effect(c, [], OtherFailed)
    case Answered(vectors, writes, reports) =>
      var records := Gathered(batches, vectors, hash, |batches|);
      if records.None? then Effect(c, [], OtherFailed) else Written(c, records.value, writes, reports,
                                                                    |inputs| - |pending|)
  }

  lemma {:induction false} PendingShorter(inputs: seq<Input>, c: Collection, hash: string -> string)
    ensures |Pending(inputs, c, hash)| <= |inputs|
  {
    if inputs != [] { PendingShorter(inputs[1..], c, hash); }
  }

  /** The vector store and the counters of the job. */
  class Embedder {
    const hash: string -> string
    const size: nat
    var collections: map<ModelId, Collection>
    var log: seq<Progress>

    function CollectionOf(model: ModelId): (c: Collection)
      reads this
      ensures forall id :: id in c ==> model in collections && id in collections[model]
      ensures model in collections ==> c == collections[model]
    {
      if model in collections then collections[model] else map[]
    }

    constructor (hash: string -> string, size: nat)
      ensures this.hash == hash && this.size == size && collections == map[] && log == []
    {
      this.hash, this.size, collections, log := hash, size, map[], [];
    }

    method Upsert(model: ModelId, records: seq<Record>)
      modifies this`collections
      ensures collections == old(collections)[model := Put(old(CollectionOf(model)), records, |records|)]
    {
      var c := CollectionOf(model);
      for n := 0 to |records|
        invariant c == Put(CollectionOf(model), records, n)
      {
        c := c[records[n].id := records[n].entry];
      }
      collections := collections[model := c];
    }

    /** Writes batch by batch, reporting after each; ends early when the store or a report fails. */
    method WriteBatches(model: ModelId, batches: seq<seq<Record>>, writes: nat, reports: nat, skipped: nat)
      returns (stored: nat, reported: nat)
      requires model in collections
      modifies this
      ensures reported == ReportedOf(|batches|, writes, reports)
      ensures reported == |batches| ==> stored == Total(batches, reported)
      ensures log == old(log) + Log(batches, skipped, reported)
      ensures collections == old(collections)[model :=
                PutBatches(old(collections)[model], batches, WrittenOf(|batches|, writes, reports))]
    {
      stored, reported := 0, 0;
      ghost var c := collections[model];
      while reported < |batches|
        invariant reported <= |batches| && reported <= writes && reported <= reports
        invariant stored == Total(batches, reported) && model in collections
        invariant log == old(log) + Log(batches, skipped, reported)
        invariant collections == old(collections)[model := PutBatches(c, batches, reported)]
      {
        if reported == writes { return; }
        Upsert(model, batches[reported]);
        stored := stored + |batches[reported]|;
        if reported == reports { return; }
        LogNext(old(log), batches, skipped, reported);
        log := log + [Progress(stored + skipped, stored, skipped)];
        reported := reported + 1;
      }
    }

    /** Writes all batches; with none there is still a report. */
    method WriteAll(model: ModelId, batches: seq<seq<Record>>, writes: nat, reports: nat, skipped: nat)
      returns (outcome: Outcome)
      requires model in collections
      modifies this
      ensures var e := Written(old(collections)[model], batches, writes, reports, skipped);
              && collections == old(collections)[model := e.collection]
              && log == old(log) + e.log && outcome == e.outcome
    {
      var stored, reported := WriteBatches(model, batches, writes, reports, skipped);
      if reported < |batches| { return OtherFailed; }
      if batches == [] {
        if reports == 0 { return OtherFailed; }
        log := log + [Progress(skipped, 0, skipped)];
      }
      outcome := Finished(stored, skipped);
    }

    /** One attempt with one model, whose collection exists by then. */
    method EmbedAndStore(inputs: seq<Input>, model: ModelId, a: Attempt) returns (outcome: Outcome)
      requires size >= 1 && model in collections
      modifies this
      ensures var e := Attempted(old(collections)[model], inputs, size, hash, a);
              && collections == old(collections)[model := e.collection]
              && log == old(log) + e.log && outcome == e.outcome
    {
      var pending := Pending(inputs, collections[model], hash);
      PendingShorter(inputs, collections[model], hash);
      match a
      case Refused => return ProviderFailed;
      case Broken => return OtherFailed;
      case Answered(vectors, writes, reports) =>
        var batches := Batches(pending, size);
        var records := Gathered(batches, vectors, hash, |batches|);
        if records.None? { return OtherFailed; }
        outcome := WriteAll(model, records.value, writes, reports, |inputs| - |pending|);
    }
  }
}
