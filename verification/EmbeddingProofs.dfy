/** What attempts to embed a snapshot leave in the vector store. */
module EmbeddingProofs {
  import opened EmbeddingStore
  import SeqFacts

  function RecordOf(x: Input, hash: string -> string, embed: string -> Vector): Entry
  {
    Entry(hash(x.text), embed(x.text))
  }

  /** The id holds the record of one of these inputs. */
  ghost predicate From(c: Collection, list: seq<Input>, id: string, hash: string -> string, embed: string -> Vector)
  {
    id in c && exists j :: 0 <= j < |list| && list[j].id == id && c[id] == RecordOf(list[j], hash, embed)
  }

  ghost predicate Kept(before: Collection, after: Collection, id: string)
  {
    (id in after <==> id in before) && (id in before ==> after[id] == before[id])
  }

  ghost predicate HasId(list: seq<Input>, id: string) { exists j :: 0 <= j < |list| && list[j].id == id }

  /** Exactly the ids of these inputs have been rewritten. */
  ghost predicate Rewritten(before: Collection, after: Collection, list: seq<Input>, hash: string -> string,
                            embed: string -> Vector)
  {
    forall id :: if HasId(list, id) then From(after, list, id, hash, embed) else Kept(before, after, id)
  }

  /** The records of these inputs. */
  ghost predicate AreRecords(records: seq<Record>, batch: seq<Input>, hash: string -> string, embed: string -> Vector)
  {
    |records| == |batch| &&
    forall j :: 0 <= j < |batch| ==> records[j] == Record(batch[j].id, RecordOf(batch[j], hash, embed))
  }

  ghost predicate AllRecords(records: seq<seq<Record>>, batches: seq<seq<Input>>, hash: string -> string,
                             embed: string -> Vector)
  {
    |records| == |batches| && forall k :: 0 <= k < |batches| ==> AreRecords(records[k], batches[k], hash, embed)
  }

  lemma FromMore(c: Collection, list: seq<Input>, more: seq<Input>, id: string, hash: string -> string,
                 embed: string -> Vector)
    requires From(c, list, id, hash, embed)
    ensures From(c, list + more, id, hash, embed) && From(c, more + list, id, hash, embed)
  {
    var j :| 0 <= j < |list| && list[j].id == id && c[id] == RecordOf(list[j], hash, embed);
    assert (list + more)[j] == list[j] && (more + list)[|more| + j] == list[j];
  }

  lemma HasIdAppend(a: seq<Input>, b: seq<Input>, id: string)
    ensures HasId(a + b, id) <==> HasId(a, id) || HasId(b, id)
  {
    if HasId(a, id) {
      var j :| 0 <= j < |a| && a[j].id == id;
      assert (a + b)[j].id == id;
    }
    if HasId(b, id) {
      var j :| 0 <= j < |b| && b[j].id == id;
      assert (a + b)[|a| + j].id == id;
    }
  }

  lemma RewrittenTwice(c0: Collection, c1: Collection, c2: Collection, a: seq<Input>, b: seq<Input>,
                       hash: string -> string, embed: string -> Vector)
    requires Rewritten(c0, c1, a, hash, embed) && Rewritten(c1, c2, b, hash, embed)
    ensures Rewritten(c0, c2, a + b, hash, embed)
  {
    forall id
      ensures if HasId(a + b, id) then From(c2, a + b, id, hash, embed) else Kept(c0, c2, id)
    {
      HasIdAppend(a, b, id);
      if HasId(b, id) {
        FromMore(c2, b, a, id, hash, embed);
      } else if HasId(a, id) {
        assert Kept(c1, c2, id) && From(c1, a, id, hash, embed);
        FromMore(c2, a, b, id, hash, embed);
      }
    }
  }

  lemma PutOneRewrites(c: Collection, x: Input, hash: string -> string, embed: string -> Vector)
    ensures Rewritten(c, c[x.id := RecordOf(x, hash, embed)], [x], hash, embed)
  {
    assert [x][0] == x;
  }

  lemma {:induction false} PutRewrites(c: Collection, records: seq<Record>, batch: seq<Input>, hash: string -> string,
                                       embed: string -> Vector, n: nat)
    requires n <= |batch| && AreRecords(records, batch, hash, embed)
    ensures Rewritten(c, Put(c, records, n), batch[..n], hash, embed)
  {
    if n > 0 {
      PutRewrites(c, records, batch, hash, embed, n - 1);
      var before := Put(c, records, n - 1);
      PutOneRewrites(before, batch[n - 1], hash, embed);
      RewrittenTwice(c, before, Put(c, records, n), batch[..n - 1], [batch[n - 1]], hash, embed);
      assert batch[..n] == batch[..n - 1] + [batch[n - 1]];
    }
  }

  function Flat(batches: seq<seq<Input>>, n: nat): seq<Input>
    requires n <= |batches|
  {
    if n == 0 then [] else Flat(batches, n - 1) + batches[n - 1]
  }

  lemma {:induction false} PutBatchesRewrites(c: Collection, records: seq<seq<Record>>, batches: seq<seq<Input>>,
                                              hash: string -> string, embed: string -> Vector, n: nat)
    requires n <= |batches| && AllRecords(records, batches, hash, embed)
    ensures Rewritten(c, PutBatches(c, records, n), Flat(batches, n), hash, embed)
  {
    if n > 0 {
      PutBatchesRewrites(c, records, batches, hash, embed, n - 1);
      var before, batch := PutBatches(c, records, n - 1), batches[n - 1];
      assert AreRecords(records[n - 1], batch, hash, embed);
      PutRewrites(before, records[n - 1], batch, hash, embed, |batch|);
      assert batch[..|batch|] == batch;
      RewrittenTwice(c, before, PutBatches(c, records, n), Flat(batches, n - 1), batch, hash, embed);
    }
  }

  // ---------- Batches partition what is pending ----------

  lemma {:induction false} FlatPush(first: seq<Input>, rest: seq<seq<Input>>, n: nat)
    requires n <= |rest|
    ensures Flat([first] + rest, n + 1) == first + Flat(rest, n) &&
            Total([first] + rest, n + 1) == |first| + Total(rest, n)
  {
    var all := [first] + rest;
    if n == 0 {
      assert Flat(all, 0) == [] && all[0] == first;
      assert [] + first == first && first + [] == first;
    } else {
      FlatPush(first, rest, n - 1);
      assert all[n] == rest[n - 1];
      SeqFacts.AppendAssociative(first, Flat(rest, n - 1), rest[n - 1]);
    }
  }

  /** The batches hold the pending inputs, in order and each once. */
  lemma {:induction false} BatchesPartition(pending: seq<Input>, size: nat)
    requires size >= 1
    ensures var batches := Batches(pending, size);
            Flat(batches, |batches|) == pending && Total(batches, |batches|) == |pending|
    decreases |pending|
  {
    if pending == [] {
    } else if |pending| <= size {
      assert Flat([pending], 0) == [] && [] + pending == pending;
    } else {
      BatchesPartition(pending[size..], size);
      var rest := Batches(pending[size..], size);
      FlatPush(pending[..size], rest, |rest|);
      assert pending[..size] + pending[size..] == pending;
    }
  }

  /** The kth batch is full unless it is the last, and not empty or larger than the limit. */
  predicate RightSize(batches: seq<seq<Input>>, size: nat, k: nat)
    requires k < |batches|
  {
    1 <= |batches[k]| <= size && (k < |batches| - 1 ==> |batches[k]| == size)
  }

  lemma {:induction false} BatchesFull(pending: seq<Input>, size: nat, k: nat)
    requires size >= 1 && k < |Batches(pending, size)|
    ensures RightSize(Batches(pending, size), size, k)
    decreases |pending|
  {
    if |pending| > size {
      var rest := Batches(pending[size..], size);
      assert Batches(pending, size) == [pending[..size]] + rest && rest != [];
      if k > 0 { BatchesFull(pending[size..], size, k - 1); }
    }
  }

  lemma {:induction false} FlatPrefix(batches: seq<seq<Input>>, n: nat, m: nat, id: string)
    requires n <= m <= |batches| && HasId(Flat(batches, n), id)
    ensures HasId(Flat(batches, m), id)
  {
    if n < m {
      FlatPrefix(batches, n, m - 1, id);
      HasIdAppend(Flat(batches, m - 1), batches[m - 1], id);
    }
  }

  /** Pending are exactly the inputs that the store does not hold for their current text. */
  lemma {:induction false} PendingExactly(inputs: seq<Input>, c: Collection, hash: string -> string, x: Input)
    ensures x in Pending(inputs, c, hash) <==> x in inputs && !Current(c, x, hash)
  {
    if inputs != [] {
      PendingExactly(inputs[1..], c, hash, x);
      assert inputs == [inputs[0]] + inputs[1..];
    }
  }

  lemma OwnRecord(inputs: seq<Input>, list: seq<Input>, c: Collection, i: nat, hash: string -> string,
                  embed: string -> Vector)
    requires DistinctIds(inputs) && i < |inputs| && From(c, list, inputs[i].id, hash, embed)
    requires forall x :: x in list ==> x in inputs
    ensures c[inputs[i].id] == RecordOf(inputs[i], hash, embed)
  {
    var j :| 0 <= j < |list| && list[j].id == inputs[i].id && c[inputs[i].id] == RecordOf(list[j], hash, embed);
    assert list[j] in inputs;
    var k :| 0 <= k < |inputs| && inputs[k] == list[j];
    assert k == i;
  }

  // ---------- One attempt ----------

  ghost predicate Injective(hash: string -> string) { forall a, b :: hash(a) == hash(b) ==> a == b }

  /** Every stored vector is the embedding of the text whose hash is stored with it. */
  ghost predicate Sound(c: Collection, hash: string -> string, embed: string -> Vector)
  {
    forall id, text :: id in c && hash(text) == c[id].hash ==> c[id].vector == embed(text)
  }

  ghost predicate FaithfulAnswer(texts: seq<string>, vectors: seq<Vector>, embed: string -> Vector)
  {
    |vectors| == |texts| ==> forall j :: 0 <= j < |texts| ==> vectors[j] == embed(texts[j])
  }

  /** The provider answers as many texts as it is given with their embeddings, in order. */
  ghost predicate FaithfulAttempt(a: Attempt, embed: string -> Vector)
  {
    a.Answered? ==> forall k: nat, texts: seq<string> :: FaithfulAnswer(texts, a.vectors(k, texts), embed)
  }

  lemma {:induction false} GatheredRecords(batches: seq<seq<Input>>, vectors: Answers, hash: string -> string,
                                           embed: string -> Vector, n: nat)
    requires n <= |batches| && Gathered(batches, vectors, hash, n).Some?
    requires forall k: nat, texts: seq<string> :: FaithfulAnswer(texts, vectors(k, texts), embed)
    ensures AllRecords(Gathered(batches, vectors, hash, n).value, batches[..n], hash, embed)
    ensures Total(Gathered(batches, vectors, hash, n).value, n) == Total(batches, n)
  {
    if n > 0 {
      GatheredRecords(batches, vectors, hash, embed, n - 1);
      var before, batch := Gathered(batches, vectors, hash, n - 1).value, batches[n - 1];
      var records := RecordsOf(batch, vectors(n - 1, Texts(batch)), hash);
      assert FaithfulAnswer(Texts(batch), vectors(n - 1, Texts(batch)), embed);
      assert batches[..n] == batches[..n - 1] + [batch];
      TotalPrefix(before, records, n - 1);
    }
  }

  lemma {:induction false} TotalPrefix<T>(batches: seq<seq<T>>, more: seq<T>, n: nat)
    requires n <= |batches|
    ensures Total(batches + [more], n) == Total(batches, n)
  {
    if n > 0 { TotalPrefix(batches, more, n - 1); }
  }

  ghost predicate UpToDate(c: Collection, x: Input, hash: string -> string, embed: string -> Vector)
  {
    x.id in c && c[x.id] == RecordOf(x, hash, embed)
  }

  lemma RewrittenSound(before: Collection, after: Collection, list: seq<Input>, hash: string -> string,
                       embed: string -> Vector)
    requires Sound(before, hash, embed) && Injective(hash) && Rewritten(before, after, list, hash, embed)
    ensures Sound(after, hash, embed)
  {
    forall id, text | id in after && hash(text) == after[id].hash
      ensures after[id].vector == embed(text)
    {
      if HasId(list, id) { assert From(after, list, id, hash, embed); } else { assert Kept(before, after, id); }
    }
  }

  /** The first batches of the provider's answers keep the store sound. */
  lemma WrittenSound(c: Collection, batches: seq<seq<Input>>, vectors: Answers, hash: string -> string,
                     embed: string -> Vector, n: nat)
    requires n <= |batches| && Gathered(batches, vectors, hash, |batches|).Some?
    requires forall k: nat, texts: seq<string> :: FaithfulAnswer(texts, vectors(k, texts), embed)
    requires Sound(c, hash, embed) && Injective(hash)
    ensures Sound(PutBatches(c, Gathered(batches, vectors, hash, |batches|).value, n), hash, embed)
  {
    var records := Gathered(batches, vectors, hash, |batches|).value;
    GatheredRecords(batches, vectors, hash, embed, |batches|);
    assert batches[..|batches|] == batches;
    PutBatchesRewrites(c, records, batches, hash, embed, n);
    RewrittenSound(c, PutBatches(c, records, n), Flat(batches, n), hash, embed);
  }

  /** However an attempt ends, the store stays sound. */
  lemma AttemptKeepsSound(c: Collection, inputs: seq<Input>, size: nat, hash: string -> string, a: Attempt,
                          embed: string -> Vector)
    requires size >= 1 && Sound(c, hash, embed) && Injective(hash) && FaithfulAttempt(a, embed)
    ensures Sound(Attempted(c, inputs, size, hash, a).collection, hash, embed)
  {
    var batches := Batches(Pending(inputs, c, hash), size);
    if a.Answered? && Gathered(batches, a.vectors, hash, |batches|).Some? {
      WrittenSound(c, batches, a.vectors, hash, embed, WrittenOf(|batches|, a.writes, a.reports));
    }
  }

  lemma AllRewritten(c: Collection, inputs: seq<Input>, size: nat, hash: string -> string, a: Attempt,
                     embed: string -> Vector)
    requires size >= 1 && FaithfulAttempt(a, embed)
    requires Attempted(c, inputs, size, hash, a).outcome.Finished?
    ensures Rewritten(c, Attempted(c, inputs, size, hash, a).collection, Pending(inputs, c, hash), hash, embed)
    ensures Attempted(c, inputs, size, hash, a).outcome.stored == |Pending(inputs, c, hash)|
  {
    var batches := Batches(Pending(inputs, c, hash), size);
    var records := Gathered(batches, a.vectors, hash, |batches|).value;
    GatheredRecords(batches, a.vectors, hash, embed, |batches|);
    assert batches[..|batches|] == batches;
    PutBatchesRewrites(c, records, batches, hash, embed, |batches|);
    BatchesPartition(Pending(inputs, c, hash), size);
  }

  /** A finished attempt leaves every input stored with the hash and the embedding of its text, and
      counts each input as stored or skipped. */
  lemma FinishedIsUpToDate(c: Collection, inputs: seq<Input>, size: nat, hash: string -> string, a: Attempt,
                           embed: string -> Vector, i: nat)
    requires size >= 1 && Sound(c, hash, embed) && DistinctIds(inputs) && i < |inputs|
    requires FaithfulAttempt(a, embed)
    requires Attempted(c, inputs, size, hash, a).outcome.Finished?
    ensures UpToDate(Attempted(c, inputs, size, hash, a).collection, inputs[i], hash, embed)
    ensures var outcome := Attempted(c, inputs, size, hash, a).outcome;
            outcome.stored + outcome.skipped == |inputs| && outcome.stored == |Pending(inputs, c, hash)|
  {
    var pending, after, x := Pending(inputs, c, hash), Attempted(c, inputs, size, hash, a).collection, inputs[i];
    AllRewritten(c, inputs, size, hash, a, embed);
    forall y
      ensures y in pending <==> y in inputs && !Current(c, y, hash)
    {
      PendingExactly(inputs, c, hash, y);
    }
    if HasId(pending, x.id) {
      OwnRecord(inputs, pending, after, i, hash, embed);
    } else {
      NotPending(pending, x);
      assert Kept(c, after, x.id);
    }
  }

  lemma NotPending(pending: seq<Input>, x: Input)
    requires !HasId(pending, x.id)
    ensures x !in pending
  {
    forall j | 0 <= j < |pending|
      ensures pending[j] != x
    {
      assert pending[j].id != x.id;
    }
  }

  /** After a finished attempt another one has nothing to do, whatever the provider would answer. */
  lemma {:induction false} NothingLeft(c: Collection, inputs: seq<Input>, hash: string -> string)
    requires forall i :: 0 <= i < |inputs| ==> Current(c, inputs[i], hash)
    ensures Pending(inputs, c, hash) == []
  {
    if inputs != [] { NothingLeft(c, inputs[1..], hash); }
  }

  lemma FinishedTwice(c: Collection, inputs: seq<Input>, size: nat, hash: string -> string, a: Attempt, b: Attempt,
                      embed: string -> Vector)
    requires size >= 1 && Sound(c, hash, embed) && DistinctIds(inputs)
    requires FaithfulAttempt(a, embed)
    requires Attempted(c, inputs, size, hash, a).outcome.Finished? && b.Answered?
    ensures var after := Attempted(c, inputs, size, hash, a).collection;
            Attempted(after, inputs, size, hash, b) ==
            if b.reports == 0 then Effect(after, [], OtherFailed)
            else Effect(after, [Progress(|inputs|, 0, |inputs|)], Finished(0, |inputs|))
  {
    var after := Attempted(c, inputs, size, hash, a).collection;
    forall i | 0 <= i < |inputs|
      ensures Current(after, inputs[i], hash)
    {
      FinishedIsUpToDate(c, inputs, size, hash, a, embed, i);
    }
    NothingLeft(after, inputs, hash);
  }
}
