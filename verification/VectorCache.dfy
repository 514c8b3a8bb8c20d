/** Embedding the chunks of a corpus in batches, and keeping the vectors of the batches that worked
    when an attempt fails. */
module VectorCache {
  import opened Options

  type Vector = seq<real>
  type Key = string
  type Partial = seq<Option<Vector>>

  datatype Batch = Batch(indices: seq<nat>, texts: seq<string>)

  /** What comes of one batch. Cancelling the attempt ends its batches with OtherFailure. */
  datatype Outcome = Vectors(vectors: seq<Vector>) | ProviderFailure(retryable: bool) | OtherFailure

  datatype Error = Provider(retryable: bool) | WrongNumber | Other
  datatype Result = Ok(vectors: seq<Vector>) | Err(error: Error)

  // ---------- Planning the batches ----------

  datatype Limits = Limits(count: nat, chars: nat)

  function Chars(texts: seq<string>): (n: nat)
    ensures texts == [] ==> n == 0
    ensures |texts| == 1 ==> n == |texts[0]|
  {
    if texts == [] then 0 else Chars(texts[..|texts| - 1]) + |texts[|texts| - 1]|
  }

  /** Whether the batch of inputs[first..next] takes in the next input. */
  predicate Extends(inputs: seq<string>, vectors: Partial, limits: Limits, first: nat, next: nat)
    requires first <= next < |inputs| == |vectors|
  {
    next - first < limits.count && vectors[next].None? &&
    (next == first || Chars(inputs[first..next]) + |inputs[next]| <= limits.chars)
  }

  function BatchEnd(inputs: seq<string>, vectors: Partial, limits: Limits, first: nat, next: nat): (end: nat)
    requires first <= next <= |inputs| == |vectors|
    ensures next <= end <= |inputs|
    decreases |inputs| - next
  {
    if next < |inputs| && Extends(inputs, vectors, limits, first, next)
    then BatchEnd(inputs, vectors, limits, first, next + 1) else next
  }

  function UpTo(first: nat, next: nat): (indices: seq<nat>)
    requires first <= next
    ensures |indices| == next - first && forall k :: 0 <= k < |indices| ==> indices[k] == first + k
  {
    if first == next then [] else UpTo(first, next - 1) + [next - 1]
  }

  function BatchOf(inputs: seq<string>, first: nat, next: nat): Batch
    requires first <= next <= |inputs|
  {
    Batch(UpTo(first, next), inputs[first..next])
  }

  /** The batches from an index on: runs of missing indices, each as long as the limits allow. */
  function Plan(inputs: seq<string>, vectors: Partial, limits: Limits, index: nat): seq<Batch>
    requires index <= |inputs| == |vectors| && limits.count >= 1
    decreases |inputs| - index
  {
    if index == |inputs| then []
    else if vectors[index].Some? then Plan(inputs, vectors, limits, index + 1)
    else
      var end := BatchEnd(inputs, vectors, limits, index, index + 1);
      [BatchOf(inputs, index, end)] + Plan(inputs, vectors, limits, end)
  }

  method NextBatch(inputs: seq<string>, vectors: Partial, limits: Limits, first: nat) returns (batch: Batch, next: nat)
    requires first < |inputs| == |vectors| && limits.count >= 1 && vectors[first].None?
    ensures next == BatchEnd(inputs, vectors, limits, first, first + 1)
    ensures batch == BatchOf(inputs, first, next)
  {
    next := first;
    var indices: seq<nat>, texts: seq<string>, chars := [], [], 0;
    while next < |inputs| && |texts| < limits.count
      invariant first <= next <= |inputs|
      invariant indices == UpTo(first, next) && texts == inputs[first..next] && chars == Chars(texts)
      invariant BatchEnd(inputs, vectors, limits, first, next) == BatchEnd(inputs, vectors, limits, first, first)
      decreases |inputs| - next
    {
      if vectors[next].Some? { break; }
      var value := inputs[next];
      if texts != [] && chars + |value| > limits.chars { break; }
      assert inputs[first..next + 1][..next - first] == inputs[first..next];
      indices := indices + [next];
      texts := texts + [value];
      chars := chars + |value|;
      next := next + 1;
    }
    batch := Batch(indices, texts);
  }

  method PlanBatches(inputs: seq<string>, vectors: Partial, limits: Limits) returns (batches: seq<Batch>)
    requires |inputs| == |vectors| && limits.count >= 1
    ensures batches == Plan(inputs, vectors, limits, 0)
  {
    batches := [];
    var index := 0;
    while index < |inputs|
      invariant index <= |inputs|
      invariant batches + Plan(inputs, vectors, limits, index) == Plan(inputs, vectors, limits, 0)
      decreases |inputs| - index
    {
      if vectors[index].Some? {
        index := index + 1;
      } else {
        var batch, next := NextBatch(inputs, vectors, limits, index);
        assert batches + ([batch] + Plan(inputs, vectors, limits, next)) ==
          batches + [batch] + Plan(inputs, vectors, limits, next);
        batches := batches + [batch];
        index := next;
      }
    }
  }

  // ---------- What a plan covers ----------

  function MissingFrom(vectors: Partial, index: nat): seq<nat>
    requires index <= |vectors|
    decreases |vectors| - index
  {
    if index == |vectors| then []
    else if vectors[index].None? then [index] + MissingFrom(vectors, index + 1)
    else MissingFrom(vectors, index + 1)
  }

  function Indices(batches: seq<Batch>): seq<nat>
  {
    if batches == [] then [] else batches[0].indices + Indices(batches[1..])
  }

  /** Non-empty, consecutive missing inputs with their texts, within the count limit, and within the
      character limit unless it is a single input. */
  ghost predicate BatchOk(b: Batch, inputs: seq<string>, vectors: Partial, limits: Limits)
    requires |inputs| == |vectors|
  {
    && b.indices != [] && |b.indices| <= limits.count
    && b.indices[0] + |b.indices| <= |inputs|
    && (forall k :: 0 <= k < |b.indices| ==> b.indices[k] == b.indices[0] + k && vectors[b.indices[0] + k].None?)
    && b.texts == inputs[b.indices[0]..b.indices[0] + |b.indices|]
    && (Chars(b.texts) <= limits.chars || |b.indices| == 1)
  }

  /** It stops only where it has to. */
  ghost predicate BatchFull(b: Batch, inputs: seq<string>, vectors: Partial, limits: Limits)
    requires |inputs| == |vectors| && BatchOk(b, inputs, vectors, limits)
  {
    var next := b.indices[0] + |b.indices|;
    || next == |inputs| || |b.indices| == limits.count || vectors[next].Some?
    || Chars(b.texts) + |inputs[next]| > limits.chars
  }

  lemma CharsNext(inputs: seq<string>, first: nat, next: nat)
    requires first <= next < |inputs|
    ensures Chars(inputs[first..next + 1]) == Chars(inputs[first..next]) + |inputs[next]|
  {
    assert inputs[first..next + 1][..next - first] == inputs[first..next];
  }

  /** The characters of two runs of texts are those of one and those of the other. */
  lemma {:induction false} CharsAppend(a: seq<string>, b: seq<string>)
    ensures Chars(a + b) == Chars(a) + Chars(b)
  {
    if b == [] {
      assert a + b == a;
    } else {
      var n := |b| - 1;
      CharsAppend(a, b[..n]);
      assert (a + b)[..|a| + n] == a + b[..n];
    }
  }

  ghost predicate RunOk(inputs: seq<string>, vectors: Partial, limits: Limits, first: nat, next: nat)
    requires first <= next <= |inputs| == |vectors|
  {
    && next - first <= limits.count
    && (forall i :: first <= i < next ==> vectors[i].None?)
    && (Chars(inputs[first..next]) <= limits.chars || next - first <= 1)
  }

  lemma {:induction false} BatchEndOk(inputs: seq<string>, vectors: Partial, limits: Limits, first: nat, next: nat)
    requires first <= next <= |inputs| == |vectors| && RunOk(inputs, vectors, limits, first, next)
    ensures var end := BatchEnd(inputs, vectors, limits, first, next);
            RunOk(inputs, vectors, limits, first, end) &&
              (end < |inputs| ==> !Extends(inputs, vectors, limits, first, end))
    decreases |inputs| - next
  {
    if next < |inputs| && Extends(inputs, vectors, limits, first, next) {
      CharsNext(inputs, first, next);
      BatchEndOk(inputs, vectors, limits, first, next + 1);
    }
  }

  lemma {:induction false} MissingRun(vectors: Partial, first: nat, next: nat)
    requires first <= next <= |vectors| && forall i :: first <= i < next ==> vectors[i].None?
    ensures MissingFrom(vectors, first) == UpTo(first, next) + MissingFrom(vectors, next)
    decreases next - first
  {
    if first < next {
      MissingRun(vectors, first, next - 1);
      assert MissingFrom(vectors, next - 1) == [next - 1] + MissingFrom(vectors, next);
    }
  }

  ghost predicate BatchGood(b: Batch, inputs: seq<string>, vectors: Partial, limits: Limits)
    requires |inputs| == |vectors|
  {
    BatchOk(b, inputs, vectors, limits) && BatchFull(b, inputs, vectors, limits)
  }

  lemma FirstBatchGood(inputs: seq<string>, vectors: Partial, limits: Limits, first: nat)
    requires first < |inputs| == |vectors| && limits.count >= 1 && vectors[first].None?
    ensures var end := BatchEnd(inputs, vectors, limits, first, first + 1);
            && BatchGood(BatchOf(inputs, first, end), inputs, vectors, limits)
            && MissingFrom(vectors, first) == UpTo(first, end) + MissingFrom(vectors, end)
  {
    var end := BatchEnd(inputs, vectors, limits, first, first + 1);
    BatchEndOk(inputs, vectors, limits, first, first + 1);
    MissingRun(vectors, first, end);
  }

  lemma IndicesPush(b: Batch, rest: seq<Batch>)
    ensures Indices([b] + rest) == b.indices + Indices(rest)
  {
    assert ([b] + rest)[1..] == rest;
  }

  /** A plan submits the missing indices, in order and each once. */
  lemma {:induction false} PlanCovers(inputs: seq<string>, vectors: Partial, limits: Limits, index: nat)
    requires index <= |inputs| == |vectors| && limits.count >= 1
    ensures Indices(Plan(inputs, vectors, limits, index)) == MissingFrom(vectors, index)
    decreases |inputs| - index
  {
    if index == |inputs| {
    } else if vectors[index].Some? {
      PlanCovers(inputs, vectors, limits, index + 1);
    } else {
      var end := BatchEnd(inputs, vectors, limits, index, index + 1);
      FirstBatchGood(inputs, vectors, limits, index);
      PlanCovers(inputs, vectors, limits, end);
      IndicesPush(BatchOf(inputs, index, end), Plan(inputs, vectors, limits, end));
    }
  }

  /** Each of its batches keeps the limits and stops only where it has to. */
  lemma {:induction false} PlanGood(inputs: seq<string>, vectors: Partial, limits: Limits, index: nat, k: nat)
    requires index <= |inputs| == |vectors| && limits.count >= 1 && k < |Plan(inputs, vectors, limits, index)|
    ensures BatchGood(Plan(inputs, vectors, limits, index)[k], inputs, vectors, limits)
    ensures Plan(inputs, vectors, limits, index)[k].indices[0] >= index
    ensures k > 0 ==> var a := Plan(inputs, vectors, limits, index)[k - 1];
            && BatchGood(a, inputs, vectors, limits)
            && a.indices[0] + |a.indices| <= Plan(inputs, vectors, limits, index)[k].indices[0]
    decreases |inputs| - index
  {
    if vectors[index].Some? {
      PlanGood(inputs, vectors, limits, index + 1, k);
    } else {
      var end := BatchEnd(inputs, vectors, limits, index, index + 1);
      FirstBatchGood(inputs, vectors, limits, index);
      if k > 0 { PlanGood(inputs, vectors, limits, end, k - 1); }
    }
  }
}
