/** One embedding job: the candidate models in turn, until one of them embeds the snapshot. */
module EmbeddingJobs {
  import opened EmbeddingStore
  import opened EmbeddingProofs

  /** How a job ends: with a model, or with an error that is worth another attempt or not. */
  datatype Verdict = Succeeded(fallbacks: nat, stored: nat, skipped: nat) | Failed(code: string, transient: bool)

  const NO_INPUTS := Failed("no_embedding_inputs", false)
  const UNAVAILABLE := Failed("embedding_models_unavailable", true)
  const INTERNAL := Failed("embedding_internal_error", true)

  /** The first model from k on that its provider does not refuse. */
  function FirstWilling(attempts: nat -> Attempt, k: nat, count: nat): (n: nat)
    requires k <= count
    ensures k <= n <= count && (n < count ==> !attempts(n).Refused?)
    ensures forall i :: k <= i < n ==> attempts(i).Refused?
    decreases count - k
  {
    if k < count && attempts(k).Refused? then FirstWilling(attempts, k + 1, count) else k
  }

  function Held(collections: map<ModelId, Collection>, model: ModelId): (c: Collection)
    ensures if model in collections then c == collections[model] else |c| == 0
  {
    if model in collections then collections[model] else map[]
  }

  /** No collection but this one holds anything else than before. */
  ghost predicate SameElsewhere(before: map<ModelId, Collection>, after: map<ModelId, Collection>, model: ModelId)
  {
    forall other :: other != model ==> Held(after, other) == Held(before, other)
  }

  ghost predicate SameData(before: map<ModelId, Collection>, after: map<ModelId, Collection>)
  {
    forall model :: Held(after, model) == Held(before, model)
  }

  /** What the job leaves behind: nothing without inputs or without a willing model, and otherwise the
      effect of one attempt with the first willing model. */
  ghost predicate JobDone(before: map<ModelId, Collection>, after: map<ModelId, Collection>, log: seq<Progress>,
                          inputs: seq<Input>, models: seq<ModelId>, size: nat, hash: string -> string,
                          attempts: nat -> Attempt, saved: bool, verdict: Verdict)
    requires size >= 1
  {
    var n := FirstWilling(attempts, 0, |models|);
    if inputs == [] || n == |models| then
      SameData(before, after) && log == [] && verdict == if inputs == [] then NO_INPUTS else UNAVAILABLE
    else
      var e := Attempted(Held(before, models[n]), inputs, size, hash, attempts(n));
      && Held(after, models[n]) == e.collection && SameElsewhere(before, after, models[n]) && log == e.log
      && verdict == VerdictOf(n, e.outcome, saved)
  }

  /** A finished attempt succeeds once that is saved with the job. */
  function VerdictOf(fallbacks: nat, outcome: Outcome, saved: bool): Verdict
  {
    match outcome
    case Finished(stored, skipped) => if saved then Succeeded(fallbacks, stored, skipped) else INTERNAL
    case ProviderFailed => UNAVAILABLE
    case OtherFailed => INTERNAL
  }

  /** The model's collection holds every input. */
  ghost predicate AllUpToDate(c: Collection, inputs: seq<Input>, hash: string -> string, embed: string -> Vector)
  {
    forall i :: 0 <= i < |inputs| ==> UpToDate(c, inputs[i], hash, embed)
  }

  lemma AllFinished(c: Collection, inputs: seq<Input>, size: nat, hash: string -> string, a: Attempt,
                    embed: string -> Vector)
    requires size >= 1 && Sound(c, hash, embed) && DistinctIds(inputs)
    requires FaithfulAttempt(a, embed) && Attempted(c, inputs, size, hash, a).outcome.Finished?
    ensures AllUpToDate(Attempted(c, inputs, size, hash, a).collection, inputs, hash, embed)
  {
    forall i | 0 <= i < |inputs|
      ensures UpToDate(Attempted(c, inputs, size, hash, a).collection, inputs[i], hash, embed)
    {
      FinishedIsUpToDate(c, inputs, size, hash, a, embed, i);
    }
  }

  /** Prepares the model's collection and makes one attempt. */
  method Try(run: Embedder, inputs: seq<Input>, model: ModelId, a: Attempt) returns (outcome: Outcome)
    requires run.size >= 1
    modifies run
    ensures var e := Attempted(Held(old(run.collections), model), inputs, run.size, run.hash, a);
            && Held(run.collections, model) == e.collection
            && SameElsewhere(old(run.collections), run.collections, model)
            && run.log == old(run.log) + e.log && outcome == e.outcome
  {
    if model !in run.collections { run.collections := run.collections[model := map[]]; }
    outcome := run.EmbedAndStore(inputs, model, a);
  }

  /** Tries the models in turn. Only a provider's failure moves on to the next. */
  method Process(run: Embedder, inputs: seq<Input>, models: seq<ModelId>, attempts: nat -> Attempt, saved: bool)
    returns (verdict: Verdict, ghost reports: seq<Progress>)
    requires run.size >= 1
    modifies run
    ensures run.log == old(run.log) + reports
    ensures JobDone(old(run.collections), run.collections, reports, inputs, models, run.size, run.hash, attempts,
                    saved, verdict)
    ensures verdict == NO_INPUTS <==> inputs == []
    ensures verdict == UNAVAILABLE <==> inputs != [] && forall k :: 0 <= k < |models| ==> attempts(k).Refused?
    ensures verdict.Succeeded? ==>
              && saved && verdict.fallbacks < |models| && attempts(verdict.fallbacks).Answered?
              && forall k :: 0 <= k < verdict.fallbacks ==> attempts(k).Refused?
  {
    ghost var before := run.collections;
    verdict, reports := UNAVAILABLE, [];
    if inputs == [] { return NO_INPUTS, []; }
    for k := 0 to |models|
      invariant FirstWilling(attempts, 0, |models|) == FirstWilling(attempts, k, |models|)
      invariant SameData(before, run.collections) && run.log == old(run.log)
    {
      ghost var e := Attempted(Held(before, models[k]), inputs, run.size, run.hash, attempts(k));
      var outcome := Try(run, inputs, models[k], attempts(k));
      match outcome {
        case Finished(stored, skipped) => return if saved then Succeeded(k, stored, skipped) else INTERNAL, e.log;
        case ProviderFailed => assert attempts(k).Refused? && e.log == [];
        case OtherFailed => return INTERNAL, e.log;
      }
    }
  }

  /** Every stored vector is the one of its text, under every model. */
  ghost predicate DataSound(collections: map<ModelId, Collection>, hash: string -> string,
                            embed: ModelId -> string -> Vector)
  {
    forall model :: Sound(Held(collections, model), hash, embed(model))
  }

  ghost predicate AllFaithful(models: seq<ModelId>, attempts: nat -> Attempt, embed: ModelId -> string -> Vector)
  {
    forall k :: 0 <= k < |models| ==> FaithfulAttempt(attempts(k), embed(models[k]))
  }

  /** A job keeps stored vectors right, however it ends. */
  lemma JobKeepsSound(before: map<ModelId, Collection>, after: map<ModelId, Collection>, log: seq<Progress>,
                      inputs: seq<Input>, models: seq<ModelId>, size: nat, hash: string -> string,
                      attempts: nat -> Attempt, saved: bool, verdict: Verdict, embed: ModelId -> string -> Vector)
    requires size >= 1 && JobDone(before, after, log, inputs, models, size, hash, attempts, saved, verdict)
    requires Injective(hash) && DataSound(before, hash, embed) && AllFaithful(models, attempts, embed)
    ensures DataSound(after, hash, embed)
  {
    var n := FirstWilling(attempts, 0, |models|);
    if inputs != [] && n < |models| {
      AttemptKeepsSound(Held(before, models[n]), inputs, size, hash, attempts(n), embed(models[n]));
    }
    forall model
      ensures Sound(Held(after, model), hash, embed(model))
    {
      assert Sound(Held(before, model), hash, embed(model));
    }
  }

  /** A job that succeeds leaves every input of the snapshot stored under the one model it selected. */
  lemma JobSucceeded(before: map<ModelId, Collection>, after: map<ModelId, Collection>, log: seq<Progress>,
                     inputs: seq<Input>, models: seq<ModelId>, size: nat, hash: string -> string,
                     attempts: nat -> Attempt, saved: bool, verdict: Verdict, embed: ModelId -> string -> Vector)
    requires size >= 1 && JobDone(before, after, log, inputs, models, size, hash, attempts, saved, verdict)
    requires DistinctIds(inputs) && DataSound(before, hash, embed) && AllFaithful(models, attempts, embed)
    requires verdict.Succeeded?
    ensures verdict.fallbacks < |models| && verdict.stored + verdict.skipped == |inputs| > 0
    ensures var model := models[verdict.fallbacks]; AllUpToDate(Held(after, model), inputs, hash, embed(model))
  {
    var n := FirstWilling(attempts, 0, |models|);
    AllFinished(Held(before, models[n]), inputs, size, hash, attempts(n), embed(models[n]));
    FinishedIsUpToDate(Held(before, models[n]), inputs, size, hash, attempts(n), embed(models[n]), 0);
  }
}
