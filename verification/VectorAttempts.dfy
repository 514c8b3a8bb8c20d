/** Attempts to embed a corpus: batches run in any order, those that work are kept, and the next
    attempt submits only what is missing. */
module VectorAttempts {
  import opened Options
  import opened VectorCache

  predicate Holds(b: Batch, i: nat) { b.indices != [] && b.indices[0] <= i < b.indices[0] + |b.indices| }

  predicate Worked(b: Batch, outcome: Outcome) { outcome.Vectors? && |outcome.vectors| == |b.indices| }

  /** The batch, among the first n, that an index belongs to. */
  function Owner(batches: seq<Batch>, i: nat, n: nat): (k: Option<nat>)
    requires n <= |batches|
    ensures k.Some? ==> k.value < n && Holds(batches[k.value], i)
  {
    if n == 0 then None else if Holds(batches[n - 1], i) then Some(n - 1) else Owner(batches, i, n - 1)
  }

  /** What an index holds after the batches have run: the vector its batch got for it, if that batch
      worked, and else what it held before. */
  function StoredAt(vectors: Partial, batches: seq<Batch>, answers: nat -> Outcome, i: nat): Option<Vector>
    requires i < |vectors|
  {
    var k := Owner(batches, i, |batches|);
    if k.Some? && Worked(batches[k.value], answers(k.value))
    then Some(answers(k.value).vectors[i - batches[k.value].indices[0]])
    else vectors[i]
  }

  ghost predicate Attempted(before: Partial, after: Partial, batches: seq<Batch>, answers: nat -> Outcome)
  {
    |after| == |before| && forall i :: 0 <= i < |before| ==> after[i] == StoredAt(before, batches, answers, i)
  }

  /** The same while only some batches are done. */
  ghost predicate PartlyAttempted(before: Partial, now: Partial, batches: seq<Batch>, answers: nat -> Outcome,
                                  pending: set<int>)
  {
    |now| == |before| &&
    forall i :: 0 <= i < |before| ==>
      var k := Owner(batches, i, |batches|);
      now[i] == if k.Some? && k.value in pending then before[i] else StoredAt(before, batches, answers, i)
  }

  function ErrorOf(b: Batch, outcome: Outcome): Option<Error>
  {
    match outcome
    case ProviderFailure(retryable) => Some(Provider(retryable))
    case OtherFailure => Some(Other)
    case Vectors(vectors) => if |vectors| == |b.indices| then None else Some(WrongNumber)
  }

  /** The error of the first failed batch, in submission order. */
  function FirstError(batches: seq<Batch>, answers: nat -> Outcome, n: nat): Option<Error>
    requires n <= |batches|
  {
    if n == 0 then None
    else
      var earlier := FirstError(batches, answers, n - 1);
      if earlier.Some? then earlier else ErrorOf(batches[n - 1], answers(n - 1))
  }

  ghost predicate Shrinks(batches: seq<Batch>, answers: nat -> Outcome)
  {
    exists k :: 0 <= k < |batches| && Failed(answers, k)
  }

  // ---------- Facts about plans ----------

  lemma {:induction false} PlanOrdered(inputs: seq<string>, vectors: Partial, limits: Limits, j: nat, k: nat)
    requires |inputs| == |vectors| && limits.count >= 1 && j < k < |Plan(inputs, vectors, limits, 0)|
    ensures var plan := Plan(inputs, vectors, limits, 0);
            plan[j].indices != [] && plan[k].indices != [] &&
              plan[j].indices[0] + |plan[j].indices| <= plan[k].indices[0]
  {
    PlanGood(inputs, vectors, limits, 0, k);
    if j < k - 1 {
      PlanGood(inputs, vectors, limits, 0, k - 1);
      PlanOrdered(inputs, vectors, limits, j, k - 1);
    }
  }

  lemma {:induction false} OwnerIs(inputs: seq<string>, vectors: Partial, limits: Limits, k: nat, i: nat, n: nat)
    requires |inputs| == |vectors| && limits.count >= 1 && k < n <= |Plan(inputs, vectors, limits, 0)|
    requires Holds(Plan(inputs, vectors, limits, 0)[k], i)
    ensures Owner(Plan(inputs, vectors, limits, 0), i, n) == Some(k)
  {
    if k < n - 1 {
      PlanOrdered(inputs, vectors, limits, k, n - 1);
      OwnerIs(inputs, vectors, limits, k, i, n - 1);
    }
  }

  /** Each missing index is in a batch, and no other is. */
  lemma {:induction false} MissingHasBatch(inputs: seq<string>, vectors: Partial, limits: Limits, index: nat, i: nat)
    returns (k: nat)
    requires index <= i < |inputs| == |vectors| && limits.count >= 1 && vectors[i].None?
    ensures k < |Plan(inputs, vectors, limits, index)| && Holds(Plan(inputs, vectors, limits, index)[k], i)
    decreases |inputs| - index
  {
    if vectors[index].Some? {
      k := MissingHasBatch(inputs, vectors, limits, index + 1, i);
    } else {
      var end := BatchEnd(inputs, vectors, limits, index, index + 1);
      if i < end {
        k := 0;
      } else {
        k := MissingHasBatch(inputs, vectors, limits, end, i);
        k := k + 1;
      }
    }
  }

  lemma HeldIsMissing(inputs: seq<string>, vectors: Partial, limits: Limits, k: nat, i: nat)
    requires |inputs| == |vectors| && limits.count >= 1 && k < |Plan(inputs, vectors, limits, 0)|
    requires Holds(Plan(inputs, vectors, limits, 0)[k], i)
    ensures i < |vectors| && vectors[i].None?
  {
    PlanGood(inputs, vectors, limits, 0, k);
    var b := Plan(inputs, vectors, limits, 0)[k];
    assert b.indices[i - b.indices[0]] == i;
  }

  lemma OwnerOf(inputs: seq<string>, vectors: Partial, limits: Limits, i: nat)
    requires i < |inputs| == |vectors| && limits.count >= 1
    ensures var plan := Plan(inputs, vectors, limits, 0);
            Owner(plan, i, |plan|).Some? <==> vectors[i].None?
  {
    var plan := Plan(inputs, vectors, limits, 0);
    if vectors[i].None? {
      var k := MissingHasBatch(inputs, vectors, limits, 0, i);
      OwnerIs(inputs, vectors, limits, k, i, |plan|);
    }
    if Owner(plan, i, |plan|).Some? { HeldIsMissing(inputs, vectors, limits, Owner(plan, i, |plan|).value, i); }
  }

  lemma {:induction false} NoErrorAllWorked(batches: seq<Batch>, answers: nat -> Outcome, n: nat, k: nat)
    requires k < n <= |batches| && FirstError(batches, answers, n).None?
    ensures Worked(batches[k], answers(k))
  {
    if k < n - 1 { NoErrorAllWorked(batches, answers, n - 1, k); }
  }

  /** An attempt without errors leaves nothing missing: the check for missing vectors that follows it
      never fires. */
  lemma NoErrorCompletes(inputs: seq<string>, before: Partial, after: Partial, limits: Limits,
                         answers: nat -> Outcome, i: nat)
    requires i < |inputs| == |before| && limits.count >= 1
    requires var plan := Plan(inputs, before, limits, 0);
             Attempted(before, after, plan, answers) && FirstError(plan, answers, |plan|).None?
    ensures after[i].Some?
  {
    var plan := Plan(inputs, before, limits, 0);
    OwnerOf(inputs, before, limits, i);
    if before[i].None? {
      NoErrorAllWorked(plan, answers, |plan|, Owner(plan, i, |plan|).value);
    }
  }

  // ---------- One attempt ----------

  /** Stores the vectors of one batch at its indices. */
  method StoreBatch(vectors: Partial, b: Batch, values: seq<Vector>) returns (after: Partial)
    requires b.indices != [] && |values| == |b.indices| && b.indices[0] + |b.indices| <= |vectors|
    requires forall k :: 0 <= k < |b.indices| ==> b.indices[k] == b.indices[0] + k
    ensures |after| == |vectors|
    ensures forall i :: 0 <= i < |vectors| ==>
            after[i] == if Holds(b, i) then Some(values[i - b.indices[0]]) else vectors[i]
  {
    after := vectors;
    for k := 0 to |values|
      invariant |after| == |vectors|
      invariant forall i :: 0 <= i < |vectors| ==>
        after[i] == if b.indices[0] <= i < b.indices[0] + k then Some(values[i - b.indices[0]]) else vectors[i]
    {
      after := after[b.indices[k] := Some(values[k])];
    }
  }

  /** One more batch is done. */
  lemma OneMoreDone(inputs: seq<string>, before: Partial, now: Partial, after: Partial, limits: Limits,
                    answers: nat -> Outcome, pending: set<int>, k: nat)
    requires |inputs| == |before| && limits.count >= 1
    requires var plan := Plan(inputs, before, limits, 0);
             && k < |plan| && k in pending && PartlyAttempted(before, now, plan, answers, pending) && |after| == |now|
             && forall i :: 0 <= i < |now| ==>
                  after[i] == if Worked(plan[k], answers(k)) && Holds(plan[k], i)
                              then Some(answers(k).vectors[i - plan[k].indices[0]]) else now[i]
    ensures PartlyAttempted(before, after, Plan(inputs, before, limits, 0), answers, pending - {k})
  {
    var plan := Plan(inputs, before, limits, 0);
    forall i | 0 <= i < |before|
      ensures Owner(plan, i, |plan|) == Some(k) <==> Holds(plan[k], i)
    {
      if Holds(plan[k], i) { OwnerIs(inputs, before, limits, k, i, |plan|); }
    }
  }

  /** The error that the attempt raises, if any. */
  method FirstFailure(batches: seq<Batch>, answers: nat -> Outcome) returns (error: Option<Error>)
    ensures error == FirstError(batches, answers, |batches|)
  {
    for k := 0 to |batches|
      invariant FirstError(batches, answers, k).None?
    {
      error := ErrorOf(batches[k], answers(k));
      if error.Some? {
        FirstErrorStays(batches, answers, k + 1, |batches|);
        return;
      }
    }
    error := None;
  }

  lemma AllStored(inputs: seq<string>, before: Partial, after: Partial, limits: Limits, answers: nat -> Outcome)
    requires |inputs| == |before| && limits.count >= 1
    requires var plan := Plan(inputs, before, limits, 0);
             Attempted(before, after, plan, answers) && FirstError(plan, answers, |plan|).None?
    ensures IsComplete(after, Present(after))
  {
    forall i | 0 <= i < |before|
      ensures after[i].Some?
    {
      NoErrorCompletes(inputs, before, after, limits, answers, i);
    }
    PresentComplete(after);
  }

  /** The vectors kept between attempts, by corpus. The key of a corpus determines its inputs. */
  class EmbeddingCache {
    const corpus: Key -> seq<string>
    const defaultSize: nat
    const maxChars: nat
    var documents: map<Key, seq<Vector>>
    var partials: map<Key, Partial>
    var sizes: map<Key, nat>

    ghost predicate Valid()
      reads this
    {
      && defaultSize >= 1
      && (forall key :: key in sizes ==> sizes[key] >= 1)
      && (forall key :: key in partials ==> |partials[key]| == |corpus(key)|)
      && (forall key :: key in documents ==> |documents[key]| == |corpus(key)|)
    }

    /** What is stored for a corpus that has no complete list yet. */
    function PartialOf(key: Key): (p: Partial)
      reads this
      ensures key in partials ==> p == partials[key]
      ensures key !in partials ==> |p| == |corpus(key)| && forall i :: 0 <= i < |p| ==> p[i].None?
    {
      if key in partials then partials[key] else seq(|corpus(key)|, _ => None)
    }

    function LimitsOf(key: Key): (limits: Limits)
      reads this
      ensures key in sizes ==> limits.count == sizes[key]
      ensures key !in sizes ==> limits.count == defaultSize
      ensures limits.chars == maxChars
    {
      Limits(if key in sizes then sizes[key] else defaultSize, maxChars)
    }

    function PlanOf(key: Key): seq<Batch>
      requires Valid()
      reads this
    {
      Plan(corpus(key), PartialOf(key), LimitsOf(key), 0)
    }

    constructor (corpus: Key -> seq<string>, embeddingBatch: nat, evaluationBatch: nat, maxChars: nat)
      requires embeddingBatch >= 1 && evaluationBatch >= 1
      ensures Valid() && documents == map[] && partials == map[] && sizes == map[]
    {
      this.corpus, this.maxChars := corpus, maxChars;
      defaultSize := if embeddingBatch < evaluationBatch then embeddingBatch else evaluationBatch;
      documents, partials, sizes := map[], map[], map[];
    }

    /** Runs one batch: a retryable failure halves the size for the next attempt, a good answer is
        stored at once. */
    method EmbedBatch(key: Key, b: Batch, outcome: Outcome, size: nat)
      requires Valid() && key in partials && size >= 1
      requires b.indices != [] && b.indices[0] + |b.indices| <= |partials[key]|
      requires forall k :: 0 <= k < |b.indices| ==> b.indices[k] == b.indices[0] + k
      modifies this
      ensures Valid() && documents == old(documents)
      ensures sizes == if outcome == ProviderFailure(true) then old(sizes)[key := Half(size)] else old(sizes)
      ensures key in partials && partials == old(partials)[key := partials[key]] &&
              |partials[key]| == |old(partials)[key]|
      ensures forall i :: 0 <= i < |partials[key]| ==>
                partials[key][i] == if Worked(b, outcome) && Holds(b, i) then Some(outcome.vectors[i - b.indices[0]])
                                    else old(partials)[key][i]
    {
      match outcome
      case ProviderFailure(retryable) =>
        if retryable { sizes := sizes[key := Half(size)]; }
      case OtherFailure =>
      case Vectors(vectors) =>
        if |vectors| == |b.indices| {
          var after := StoreBatch(partials[key], b, vectors);
          partials := partials[key := after];
        }
    }

    method RunBatch(key: Key, batches: seq<Batch>, answers: nat -> Outcome, k: nat, size: nat, ghost before: Partial,
                    ghost limits: Limits, ghost sizesBefore: map<Key, nat>, ghost pending: set<int>)
      requires Valid() && key in partials && size >= 1 && limits.count >= 1 && |corpus(key)| == |before|
      requires batches == Plan(corpus(key), before, limits, 0) && k < |batches| && k in pending
      requires PartlyAttempted(before, partials[key], batches, answers, pending)
      requires SizesSo(sizesBefore, sizes, key, Half(size), batches, answers, pending)
      modifies this
      ensures Valid() && documents == old(documents)
      ensures key in partials && partials == old(partials)[key := partials[key]]
      ensures PartlyAttempted(before, partials[key], batches, answers, pending - {k})
      ensures SizesSo(sizesBefore, sizes, key, Half(size), batches, answers, pending - {k})
    {
      PlanGood(corpus(key), before, limits, 0, k);
      ghost var now, sizesNow := partials[key], sizes;
      EmbedBatch(key, batches[k], answers(k), size);
      OneMoreDone(corpus(key), before, now, partials[key], limits, answers, pending, k);
      SizesNext(sizesBefore, sizesNow, sizes, key, Half(size), batches, answers, pending, k);
    }

    /** All batches of the plan, in any order. */
    method RunBatches(key: Key, batches: seq<Batch>, answers: nat -> Outcome)
      requires Valid() && key in partials && batches == PlanOf(key)
      modifies this
      ensures Valid() && documents == old(documents)
      ensures key in partials && partials == old(partials)[key := partials[key]]
      ensures Attempted(old(partials)[key], partials[key], batches, answers)
      ensures sizes == if Shrinks(batches, answers) then old(sizes)[key := Half(old(LimitsOf(key)).count)]
              else old(sizes)
    {
      var size := LimitsOf(key).count;
      var pending := Numbers(|batches|);
      ghost var before, limits := partials[key], LimitsOf(key);
      while pending != {}
        invariant Valid() && documents == old(documents) && key in partials
        invariant partials == old(partials)[key := partials[key]]
        invariant forall k :: k in pending ==> 0 <= k < |batches|
        invariant PartlyAttempted(before, partials[key], batches, answers, pending)
        invariant SizesSo(old(sizes), sizes, key, Half(size), batches, answers, pending)
        decreases |pending|
      {
        var k :| k in pending;
        RunBatch(key, batches, answers, k, size, before, limits, old(sizes), pending);
        pending := pending - {k};
      }
    }

    /** One attempt at a corpus: what is missing is submitted, what works is kept, and the attempt
        succeeds exactly if every batch does. */
    method EmbedDocuments(key: Key, answers: nat -> Outcome) returns (r: Result)
      requires Valid()
      modifies this
      ensures Valid() && documents == old(documents)
      ensures key in partials && partials == old(partials)[key := partials[key]]
      ensures Attempted(old(PartialOf(key)), partials[key], old(PlanOf(key)), answers)
      ensures sizes == if Shrinks(old(PlanOf(key)), answers)
                       then old(sizes)[key := Half(old(LimitsOf(key)).count)]
                       else old(sizes)
      ensures var e := FirstError(old(PlanOf(key)), answers, |old(PlanOf(key))|);
              if e.Some? then r == Err(e.value) else r.Ok? && IsComplete(partials[key], r.vectors)
    {
      var limits, vectors := LimitsOf(key), PartialOf(key);
      partials := partials[key := vectors];
      var batches := PlanBatches(corpus(key), vectors, limits);
      RunBatches(key, batches, answers);
      var error := FirstFailure(batches, answers);
      if error.Some? { return Err(error.value); }
      AllStored(corpus(key), vectors, partials[key], limits, answers);
      r := Ok(Present(partials[key]));
    }

    /** The complete list of a corpus, from the cache or from a new attempt. */
    method CachedDocumentVectors(key: Key, answers: nat -> Outcome) returns (r: Result)
      requires Valid()
      modifies this
      ensures Valid()
      ensures key in old(documents) ==> r == Ok(old(documents)[key]) && unchanged(this)
      ensures key !in old(documents) ==>
                var e := FirstError(old(PlanOf(key)), answers, |old(PlanOf(key))|);
                if e.Some? then
                  && r == Err(e.value) && documents == old(documents)
                  && key in partials && Attempted(old(PartialOf(key)), partials[key], old(PlanOf(key)), answers)
                else
                  && r.Ok? && documents == old(documents)[key := r.vectors]
                  && CompletedBy(old(PartialOf(key)), old(PlanOf(key)), answers, r.vectors)
                  && key !in partials && key !in sizes
      ensures forall other :: other != key ==>
                (other in documents <==> other in old(documents)) &&
                  (other in documents ==> documents[other] == old(documents)[other]) &&
                PartialOf(other) == old(PartialOf(other)) && LimitsOf(other) == old(LimitsOf(other))
    {
      if key in documents { return Ok(documents[key]); }
      r := EmbedDocuments(key, answers);
      if r.Ok? {
        documents := documents[key := r.vectors];
        partials := partials - {key};
        sizes := sizes - {key};
      }
    }
  }

  function Numbers(n: nat): (numbers: set<int>)
    ensures forall k :: k in numbers <==> 0 <= k < n
  {
    if n == 0 then {} else Numbers(n - 1) + {n - 1}
  }

  function Half(size: nat): (half: nat)
    ensures if size <= 3 then half == 1 else 2 * half <= size <= 2 * half + 1
  {
    if size / 2 > 1 then size / 2 else 1
  }

  ghost predicate Failed(answers: nat -> Outcome, k: nat) { answers(k) == ProviderFailure(true) }

  /** The sizes while batches are running: reduced once one of those done failed and may be retried. */
  ghost predicate SizesSo(before: map<Key, nat>, now: map<Key, nat>, key: Key, smaller: nat, batches: seq<Batch>,
                          answers: nat -> Outcome, pending: set<int>)
  {
    now == if (exists k :: 0 <= k < |batches| && k !in pending && Failed(answers, k)) then before[key := smaller]
           else before
  }

  lemma SizesNext(before: map<Key, nat>, now: map<Key, nat>, after: map<Key, nat>, key: Key, smaller: nat,
                  batches: seq<Batch>, answers: nat -> Outcome, pending: set<int>, k: nat)
    requires SizesSo(before, now, key, smaller, batches, answers, pending) && k in pending && k < |batches|
    requires after == if Failed(answers, k) then now[key := smaller] else now
    ensures SizesSo(before, after, key, smaller, batches, answers, pending - {k})
  {
    if Failed(answers, k) { assert k !in pending - {k}; }
    if j: nat :| j < |batches| && j !in pending - {k} && Failed(answers, j) && j != k {
      assert j !in pending;
    }
  }

  ghost predicate IsComplete(partial: Partial, vectors: seq<Vector>)
  {
    |vectors| == |partial| && forall i :: 0 <= i < |partial| ==> partial[i] == Some(vectors[i])
  }

  ghost predicate CompletedBy(before: Partial, batches: seq<Batch>, answers: nat -> Outcome, vectors: seq<Vector>)
  {
    |vectors| == |before| && forall i :: 0 <= i < |before| ==> StoredAt(before, batches, answers, i) == Some(vectors[i])
  }

  /** The error of an attempt is that of the first batch, in the order in which they are submitted, that
      did not get a vector for each of its inputs. */
  lemma {:induction false} FirstErrorIs(batches: seq<Batch>, answers: nat -> Outcome, k: nat)
    requires k < |batches| && forall j :: 0 <= j < k ==> Worked(batches[j], answers(j))
    requires !Worked(batches[k], answers(k))
    ensures FirstError(batches, answers, |batches|) ==
            Some(if answers(k).ProviderFailure? then Provider(answers(k).retryable)
                 else if answers(k).Vectors? then WrongNumber else Other)
  {
    AllWorkedNoError(batches, answers, k);
    FirstErrorStays(batches, answers, k + 1, |batches|);
  }

  lemma {:induction false} AllWorkedNoError(batches: seq<Batch>, answers: nat -> Outcome, n: nat)
    requires n <= |batches| && forall j :: 0 <= j < n ==> Worked(batches[j], answers(j))
    ensures FirstError(batches, answers, n) == None
  {
    if n > 0 { AllWorkedNoError(batches, answers, n - 1); }
  }

  lemma {:induction false} FirstErrorStays(batches: seq<Batch>, answers: nat -> Outcome, n: nat, m: nat)
    requires n <= m <= |batches| && FirstError(batches, answers, n).Some?
    ensures FirstError(batches, answers, m) == FirstError(batches, answers, n)
  {
    if n < m { FirstErrorStays(batches, answers, n, m - 1); }
  }

  function Present(partial: Partial): seq<Vector>
  {
    if partial == [] then []
    else
      var last := partial[|partial| - 1];
      Present(partial[..|partial| - 1]) + if last.Some? then [last.value] else []
  }

  lemma {:induction false} PresentComplete(partial: Partial)
    requires forall i :: 0 <= i < |partial| ==> partial[i].Some?
    ensures IsComplete(partial, Present(partial))
  {
    if partial != [] { PresentComplete(partial[..|partial| - 1]); }
  }
}
