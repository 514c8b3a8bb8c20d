/** When an attempt to embed a snapshot finishes, what it reports and how a job ends. */
module EmbeddingOutcomes {
  import opened EmbeddingStore
  import EmbeddingProofs
  import EmbeddingJobs

  /** The first n batches are answered with as many vectors as they have texts. */
  predicate AnsweredRight(batches: seq<seq<Input>>, vectors: Answers, n: nat)
    requires n <= |batches|
  {
    forall k :: 0 <= k < n ==> |vectors(k, Texts(batches[k]))| == |batches[k]|
  }

  lemma {:induction false} GatheredIff(batches: seq<seq<Input>>, vectors: Answers, hash: string -> string, n: nat)
    requires n <= |batches|
    ensures Gathered(batches, vectors, hash, n).Some? <==> AnsweredRight(batches, vectors, n)
  {
    if n > 0 { GatheredIff(batches, vectors, hash, n - 1); }
  }

  lemma {:induction false} GatheredTotal(batches: seq<seq<Input>>, vectors: Answers, hash: string -> string, n: nat,
                                         k: nat)
    requires k <= n <= |batches| && Gathered(batches, vectors, hash, n).Some?
    ensures Total(Gathered(batches, vectors, hash, n).value, k) == Total(batches, k)
  {
    if k > 0 { GatheredTotal(batches, vectors, hash, n, k - 1); GatheredSizes(batches, vectors, hash, n, k - 1); }
  }

  lemma {:induction false} GatheredSizes(batches: seq<seq<Input>>, vectors: Answers, hash: string -> string, n: nat,
                                         k: nat)
    requires k < n <= |batches| && Gathered(batches, vectors, hash, n).Some?
    ensures |Gathered(batches, vectors, hash, n).value[k]| == |batches[k]|
  {
    if k < n - 1 { GatheredSizes(batches, vectors, hash, n - 1, k); }
  }

  /** The jth report counts what the first j + 1 batches hold. */
  lemma {:induction false} LogAt(batches: seq<seq<Record>>, skipped: nat, n: nat, j: nat)
    requires j < n <= |batches|
    ensures |Log(batches, skipped, n)| == n
    ensures Log(batches, skipped, n)[j] ==
            Progress(Total(batches, j + 1) + skipped, Total(batches, j + 1), skipped)
  {
    if n > 1 { LogAt(batches, skipped, n - 1, if j < n - 1 then j else 0); }
  }

  /** Writing finishes exactly if every write and every report succeeds, of which there is at least one. */
  lemma WrittenFinishes(c: Collection, batches: seq<seq<Record>>, writes: nat, reports: nat, skipped: nat)
    ensures var e := Written(c, batches, writes, reports, skipped);
            var stored := Total(batches, |batches|);
            && (e.outcome.Finished? <==> |batches| <= writes && |batches| <= reports && 1 <= reports)
            && !e.outcome.ProviderFailed?
            && (e.outcome.Finished? ==>
                  && e.outcome == Finished(stored, skipped) && |e.log| > 0
                  && e.log[|e.log| - 1] == Progress(stored + skipped, stored, skipped))
  {
    if batches != [] { LogAt(batches, skipped, |batches|, |batches| - 1); }
  }

  /** What an attempt needs to finish: every batch is answered with the right number of vectors, every
      write succeeds, and so does every report, of which there is at least one. */
  predicate RunsThrough(c: Collection, inputs: seq<Input>, size: nat, hash: string -> string, a: Attempt)
    requires size >= 1
  {
    var batches := Batches(Pending(inputs, c, hash), size);
    && a.Answered? && AnsweredRight(batches, a.vectors, |batches|)
    && |batches| <= a.writes && |batches| <= a.reports && 1 <= a.reports
  }

  /** An attempt finishes exactly if it runs through. */
  lemma FinishesIff(c: Collection, inputs: seq<Input>, size: nat, hash: string -> string, a: Attempt)
    requires size >= 1
    ensures Attempted(c, inputs, size, hash, a).outcome.Finished? <==> RunsThrough(c, inputs, size, hash, a)
    ensures Attempted(c, inputs, size, hash, a).outcome.ProviderFailed? <==> a.Refused?
  {
    var pending := Pending(inputs, c, hash);
    var batches := Batches(pending, size);
    PendingShorter(inputs, c, hash);
    if a.Answered? {
      GatheredIff(batches, a.vectors, hash, |batches|);
      var records := Gathered(batches, a.vectors, hash, |batches|);
      if records.Some? { WrittenFinishes(c, records.value, a.writes, a.reports, |inputs| - |pending|); }
    }
  }

  /** An attempt whose batches are answered writes what was gathered, which holds all pending inputs. */
  lemma AttemptWrites(c: Collection, inputs: seq<Input>, size: nat, hash: string -> string, a: Attempt)
    returns (records: seq<seq<Record>>)
    requires size >= 1 && a.Answered?
    requires var batches := Batches(Pending(inputs, c, hash), size); AnsweredRight(batches, a.vectors, |batches|)
    ensures |Pending(inputs, c, hash)| <= |inputs| && |records| == |Batches(Pending(inputs, c, hash), size)|
    ensures Attempted(c, inputs, size, hash, a) ==
            Written(c, records, a.writes, a.reports, |inputs| - |Pending(inputs, c, hash)|)
    ensures forall k :: 0 <= k <= |records| ==>
              Total(records, k) == Total(Batches(Pending(inputs, c, hash), size), k)
  {
    var batches := Batches(Pending(inputs, c, hash), size);
    PendingShorter(inputs, c, hash);
    GatheredIff(batches, a.vectors, hash, |batches|);
    records := Gathered(batches, a.vectors, hash, |batches|).value;
    forall k | 0 <= k <= |records|
      ensures Total(records, k) == Total(batches, k)
    {
      GatheredTotal(batches, a.vectors, hash, |batches|, k);
    }
  }

  /** A finished attempt counts all inputs as stored or skipped, and says so in its last report. */
  lemma FinishedCounts(c: Collection, inputs: seq<Input>, size: nat, hash: string -> string, a: Attempt)
    requires size >= 1 && Attempted(c, inputs, size, hash, a).outcome.Finished?
    ensures var e := Attempted(c, inputs, size, hash, a);
            var stored := |Pending(inputs, c, hash)|;
            && stored <= |inputs| && e.outcome == Finished(stored, |inputs| - stored) && |e.log| > 0
            && e.log[|e.log| - 1] == Progress(|inputs|, stored, |inputs| - stored)
  {
    FinishesIff(c, inputs, size, hash, a);
    var records := AttemptWrites(c, inputs, size, hash, a);
    EmbeddingProofs.BatchesPartition(Pending(inputs, c, hash), size);
    var stored := |Pending(inputs, c, hash)|;
    EffectCounts(Attempted(c, inputs, size, hash, a), c, records, a.writes, a.reports, |inputs| - stored, stored);
  }

  lemma EffectCounts(e: Effect, c: Collection, records: seq<seq<Record>>, writes: nat, reports: nat, skipped: nat,
                     stored: nat)
    requires e == Written(c, records, writes, reports, skipped) && e.outcome.Finished?
    requires Total(records, |records|) == stored
    ensures e.outcome == Finished(stored, skipped) && |e.log| > 0
    ensures e.log[|e.log| - 1] == Progress(stored + skipped, stored, skipped)
  {
    WrittenFinishes(c, records, writes, reports, skipped);
  }

  /** Unless every batch is answered with the right number of vectors, nothing is written or reported. */
  lemma NothingUnlessAnswered(c: Collection, inputs: seq<Input>, size: nat, hash: string -> string, a: Attempt)
    requires size >= 1
    ensures var batches := Batches(Pending(inputs, c, hash), size);
            !(a.Answered? && AnsweredRight(batches, a.vectors, |batches|)) ==>
              Attempted(c, inputs, size, hash, a).collection == c && Attempted(c, inputs, size, hash, a).log == []
  {
    if a.Answered? {
      var batches := Batches(Pending(inputs, c, hash), size);
      GatheredIff(batches, a.vectors, hash, |batches|);
    }
  }

  /** There are as many reports as batches before the first failing write or report, and each of them
      counts what has been written by then. */
  lemma ReportsUpTo(c: Collection, batches: seq<seq<Record>>, writes: nat, reports: nat, skipped: nat, j: nat)
    requires j < |batches|
    ensures var e := Written(c, batches, writes, reports, skipped);
            && |e.log| <= |batches| && (j < |e.log| <==> j < writes && j < reports)
            && (j < |e.log| ==> e.log[j] == Progress(Total(batches, j + 1) + skipped, Total(batches, j + 1), skipped))
  {
    var n := ReportedOf(|batches|, writes, reports);
    if n > 0 { LogAt(batches, skipped, n, if j < n then j else 0); }
  }

  /** The same of an attempt that was answered. */
  lemma BreaksOff(c: Collection, inputs: seq<Input>, size: nat, hash: string -> string, a: Attempt, j: nat)
    requires size >= 1 && a.Answered?
    requires var batches := Batches(Pending(inputs, c, hash), size);
             AnsweredRight(batches, a.vectors, |batches|) && j < |batches|
    ensures var stored := Total(Batches(Pending(inputs, c, hash), size), j + 1);
            var skipped := |inputs| - |Pending(inputs, c, hash)|;
            var log := Attempted(c, inputs, size, hash, a).log;
            && skipped >= 0 && (j < |log| <==> j < a.writes && j < a.reports)
            && (j < |log| ==> log[j] == Progress(stored + skipped, stored, skipped))
  {
    var records := AttemptWrites(c, inputs, size, hash, a);
    ReportsUpTo(c, records, a.writes, a.reports, |inputs| - |Pending(inputs, c, hash)|, j);
  }

  /** A job succeeds exactly if its attempt with the first model that is not refused runs through and is
      saved. It then reports how many models were refused and what was stored and skipped. */
  lemma SucceedsIff(before: map<ModelId, Collection>, after: map<ModelId, Collection>, log: seq<Progress>,
                    inputs: seq<Input>, models: seq<ModelId>, size: nat, hash: string -> string,
                    attempts: nat -> Attempt, saved: bool, verdict: EmbeddingJobs.Verdict, k: nat)
    requires size >= 1 && inputs != [] && k < |models|
    requires EmbeddingJobs.JobDone(before, after, log, inputs, models, size, hash, attempts, saved, verdict)
    requires !attempts(k).Refused? && forall i :: 0 <= i < k ==> attempts(i).Refused?
    ensures var c := if models[k] in before then before[models[k]] else map[];
            var stored := |Pending(inputs, c, hash)|;
            && stored <= |inputs|
            && verdict == if saved && RunsThrough(c, inputs, size, hash, attempts(k))
                          then EmbeddingJobs.Succeeded(k, stored, |inputs| - stored)
                          else EmbeddingJobs.Failed("embedding_internal_error", true)
  {
    var c := if models[k] in before then before[models[k]] else map[];
    FinishesIff(c, inputs, size, hash, attempts(k));
    if RunsThrough(c, inputs, size, hash, attempts(k)) { FinishedCounts(c, inputs, size, hash, attempts(k)); }
    PendingShorter(inputs, c, hash);
    assert EmbeddingJobs.FirstWilling(attempts, 0, |models|) == k;
  }
}
