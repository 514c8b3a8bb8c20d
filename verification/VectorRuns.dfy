/** Any number of attempts at one corpus, failed or not. */
module VectorRuns {
  import opened Options
  import opened VectorCache
  import opened VectorAttempts

  /** The stored vectors and the batch size before each attempt, and the answers it got. */
  datatype Run = Run(vectors: seq<Partial>, sizes: seq<nat>, answers: seq<nat -> Outcome>)

  function PlanAt(run: Run, inputs: seq<string>, maxChars: nat, n: nat): seq<Batch>
    requires n < |run.vectors| && n < |run.sizes| && |run.vectors[n]| == |inputs| && run.sizes[n] >= 1
  {
    Plan(inputs, run.vectors[n], Limits(run.sizes[n], maxChars), 0)
  }

  ghost predicate Shaped(run: Run, inputs: seq<string>)
  {
    && |run.vectors| == |run.sizes| == |run.answers| + 1
    && (forall n :: 0 <= n < |run.vectors| ==> |run.vectors[n]| == |inputs| && run.sizes[n] >= 1)
  }

  /** The nth attempt is one of EmbeddingCache.EmbedDocuments. */
  ghost predicate AttemptAt(run: Run, inputs: seq<string>, maxChars: nat, n: nat)
    requires Shaped(run, inputs) && n < |run.answers|
  {
    var plan := PlanAt(run, inputs, maxChars, n);
    && Attempted(run.vectors[n], run.vectors[n + 1], plan, run.answers[n])
    && run.sizes[n + 1] == if Shrinks(plan, run.answers[n]) then Half(run.sizes[n]) else run.sizes[n]
  }

  ghost predicate IsRun(run: Run, inputs: seq<string>, maxChars: nat)
  {
    Shaped(run, inputs) && forall n :: 0 <= n < |run.answers| ==> AttemptAt(run, inputs, maxChars, n)
  }

  lemma {:induction false} InMissing(vectors: Partial, index: nat, i: nat)
    requires index <= |vectors|
    ensures i in MissingFrom(vectors, index) <==> index <= i < |vectors| && vectors[i].None?
    decreases |vectors| - index
  {
    if index < |vectors| { InMissing(vectors, index + 1, i); }
  }

  lemma StoredStays(run: Run, inputs: seq<string>, maxChars: nat, n: nat, i: nat)
    requires IsRun(run, inputs, maxChars) && n < |run.answers| && i < |inputs| && run.vectors[n][i].Some?
    ensures run.vectors[n + 1][i] == run.vectors[n][i]
  {
    assert AttemptAt(run, inputs, maxChars, n);
    OwnerOf(inputs, run.vectors[n], Limits(run.sizes[n], maxChars), i);
  }

  /** Once a vector is stored it is never submitted again, and never changes. */
  lemma {:induction false} NeverResubmitted(run: Run, inputs: seq<string>, maxChars: nat, m: nat, n: nat, i: nat)
    requires IsRun(run, inputs, maxChars) && m <= n < |run.vectors| && i < |inputs| && run.vectors[m][i].Some?
    ensures run.vectors[n][i] == run.vectors[m][i]
    ensures i !in Indices(PlanAt(run, inputs, maxChars, n))
    decreases n
  {
    if m < n {
      NeverResubmitted(run, inputs, maxChars, m, n - 1, i);
      StoredStays(run, inputs, maxChars, n - 1, i);
    }
    PlanCovers(inputs, run.vectors[n], Limits(run.sizes[n], maxChars), 0);
    InMissing(run.vectors[n], 0, i);
  }

  lemma {:induction false} MissingAscends(vectors: Partial, index: nat, j: nat, k: nat)
    requires index <= |vectors| && j < k < |MissingFrom(vectors, index)|
    ensures index <= MissingFrom(vectors, index)[j] < MissingFrom(vectors, index)[k]
    decreases |vectors| - index
  {
    if vectors[index].Some? {
      MissingAscends(vectors, index + 1, j, k);
    } else if j > 0 {
      MissingAscends(vectors, index + 1, j - 1, k - 1);
    } else {
      var rest := MissingFrom(vectors, index + 1);
      assert rest[k - 1] in rest;
      InMissing(vectors, index + 1, rest[k - 1]);
    }
  }

  /** Every attempt submits exactly the missing inputs, each once, in batches within the limits. */
  lemma EachMissingOnce(run: Run, inputs: seq<string>, maxChars: nat, n: nat)
    requires IsRun(run, inputs, maxChars) && n < |run.vectors|
    ensures var plan := PlanAt(run, inputs, maxChars, n);
            && (forall i: nat :: i in Indices(plan) <==> i < |inputs| && run.vectors[n][i].None?)
            && (forall j, k :: 0 <= j < k < |Indices(plan)| ==> Indices(plan)[j] < Indices(plan)[k])
            && (forall k :: 0 <= k < |plan| ==>
                BatchGood(plan[k], inputs, run.vectors[n], Limits(run.sizes[n], maxChars)))
  {
    var limits, plan := Limits(run.sizes[n], maxChars), PlanAt(run, inputs, maxChars, n);
    PlanCovers(inputs, run.vectors[n], limits, 0);
    forall i: nat
      ensures i in Indices(plan) <==> i < |inputs| && run.vectors[n][i].None?
    {
      InMissing(run.vectors[n], 0, i);
    }
    forall j, k | 0 <= j < k < |Indices(plan)|
      ensures Indices(plan)[j] < Indices(plan)[k]
    {
      MissingAscends(run.vectors[n], 0, j, k);
    }
    forall k | 0 <= k < |plan|
      ensures BatchGood(plan[k], inputs, run.vectors[n], limits)
    {
      PlanGood(inputs, run.vectors[n], limits, 0, k);
    }
  }

  // ---------- Alignment ----------

  /** The provider answers each text of a batch with its own embedding, in order. */
  ghost predicate Faithful(batches: seq<Batch>, answers: nat -> Outcome, embed: string -> Vector)
  {
    forall k :: 0 <= k < |batches| && Worked(batches[k], answers(k)) ==>
      Embeds(batches[k].texts, answers(k).vectors, embed)
  }

  ghost predicate Embeds(texts: seq<string>, vectors: seq<Vector>, embed: string -> Vector)
  {
    |vectors| == |texts| && forall j :: 0 <= j < |texts| ==> vectors[j] == embed(texts[j])
  }

  ghost predicate Aligned(partial: Partial, inputs: seq<string>, embed: string -> Vector)
  {
    |partial| == |inputs| && forall i :: 0 <= i < |inputs| && partial[i].Some? ==> partial[i] == Some(embed(inputs[i]))
  }

  lemma AttemptAligns(inputs: seq<string>, before: Partial, after: Partial, limits: Limits, answers: nat -> Outcome,
                      embed: string -> Vector)
    requires Aligned(before, inputs, embed) && limits.count >= 1
    requires var plan := Plan(inputs, before, limits, 0);
             Attempted(before, after, plan, answers) && Faithful(plan, answers, embed)
    ensures Aligned(after, inputs, embed)
  {
    var plan := Plan(inputs, before, limits, 0);
    forall i | 0 <= i < |inputs| && after[i].Some?
      ensures after[i] == Some(embed(inputs[i]))
    {
      var k := Owner(plan, i, |plan|);
      if k.Some? && Worked(plan[k.value], answers(k.value)) {
        PlanGood(inputs, before, limits, 0, k.value);
        var b := plan[k.value];
        assert Embeds(b.texts, answers(k.value).vectors, embed);
        assert b.texts[i - b.indices[0]] == inputs[i];
      }
    }
  }

  lemma {:induction false} RunAligns(run: Run, inputs: seq<string>, maxChars: nat, n: nat, embed: string -> Vector)
    requires IsRun(run, inputs, maxChars) && n < |run.vectors| && Aligned(run.vectors[0], inputs, embed)
    requires forall m :: 0 <= m < |run.answers| ==> Faithful(PlanAt(run, inputs, maxChars, m), run.answers[m], embed)
    ensures Aligned(run.vectors[n], inputs, embed)
  {
    if n > 0 {
      RunAligns(run, inputs, maxChars, n - 1, embed);
      assert AttemptAt(run, inputs, maxChars, n - 1);
      AttemptAligns(inputs, run.vectors[n - 1], run.vectors[n], Limits(run.sizes[n - 1], maxChars),
                    run.answers[n - 1], embed);
    }
  }

  /** When an attempt raises no error, whatever failed before it, each input has its own embedding. */
  lemma SuccessIsAligned(run: Run, inputs: seq<string>, maxChars: nat, n: nat, embed: string -> Vector, i: nat)
    requires IsRun(run, inputs, maxChars) && n < |run.answers| && i < |inputs|
    requires forall k :: 0 <= k < |inputs| ==> run.vectors[0][k].None?
    requires forall m :: 0 <= m < |run.answers| ==> Faithful(PlanAt(run, inputs, maxChars, m), run.answers[m], embed)
    requires FirstError(PlanAt(run, inputs, maxChars, n), run.answers[n], |PlanAt(run, inputs, maxChars, n)|).None?
    ensures run.vectors[n + 1][i] == Some(embed(inputs[i]))
  {
    RunAligns(run, inputs, maxChars, n + 1, embed);
    assert AttemptAt(run, inputs, maxChars, n);
    NoErrorCompletes(inputs, run.vectors[n], run.vectors[n + 1], Limits(run.sizes[n], maxChars), run.answers[n], i);
  }

  // ---------- Batch sizes ----------

  function Power2(n: nat): (p: nat)
    ensures p > n
  {
    if n == 0 then 1 else 2 * Power2(n - 1)
  }

  lemma HalfBound(size: nat, p: nat, start: nat)
    requires size >= 1 && p >= 1 && (size == 1 || size * p <= start)
    ensures Half(size) == 1 || Half(size) * (2 * p) <= start
  {
    if size / 2 > 1 {
      var h := size / 2;
      assert 2 * h <= size;
      assert (2 * h) * p <= size * p;
      assert h * (2 * p) == (2 * h) * p;
    }
  }

  /** Batches never grow, and after n attempts that each meet a retryable failure they are down to the
      nth part by two, or to single inputs. */
  lemma {:induction false} SizesHalve(run: Run, inputs: seq<string>, maxChars: nat, n: nat)
    requires IsRun(run, inputs, maxChars) && n < |run.vectors|
    ensures run.sizes[n] <= run.sizes[0]
    ensures (forall m :: 0 <= m < n ==> Shrinks(PlanAt(run, inputs, maxChars, m), run.answers[m])) ==>
              run.sizes[n] == 1 || run.sizes[n] * Power2(n) <= run.sizes[0]
  {
    if n > 0 {
      SizesHalve(run, inputs, maxChars, n - 1);
      assert AttemptAt(run, inputs, maxChars, n - 1);
      if forall m :: 0 <= m < n ==> Shrinks(PlanAt(run, inputs, maxChars, m), run.answers[m]) {
        HalfBound(run.sizes[n - 1], Power2(n - 1), run.sizes[0]);
      }
    }
  }
}
