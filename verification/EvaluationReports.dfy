/** What the records and the progress calls of an evaluation run say about the attempts made in it. */
module EvaluationReports {
  import opened EvaluationRunner
  import opened EvaluationProofs
  import EvaluationRuns

  // ---------- Progress calls ----------

  /** How many records have been saved. */
  function Saves(steps: seq<Step>): nat
  {
    if steps == [] then 0 else (if steps[0].BeginSave? then 1 else 0) + Saves(steps[1..])
  }

  /** The last report is of the present records. */
  ghost predicate Reported(s: State)
  {
    s.log != [] && s.log[|s.log| - 1] == Report(s.completed, s.details)
  }

  lemma {:induction false} RunReports(s: State, maxRetries: nat, steps: seq<Step>, t: State)
    requires EvaluationRuns.Reaches(s, maxRetries, steps, t) && Reported(s)
    ensures Reported(t) && |t.log| == |s.log| + Saves(steps) && |t.details| == |s.details|
    decreases |steps|
  {
    if steps != [] { RunReports(Apply(s, maxRetries, steps[0]), maxRetries, steps[1..], t); }
  }

  /** The examples whose saved record passes. */
  ghost function Having(details: Details, test: Detail -> bool): set<nat>
  {
    set i: nat | i < |details| && details[i].Some? && test(details[i].value)
  }

  lemma {:induction false} CountIs(details: Details, test: Test)
    ensures Count(details, test) == |Having(details, (d: Detail) => Passes(d, test))|
  {
    if details != [] {
      var n := |details| - 1;
      CountIs(details[..n], test);
      var before, all := Having(details[..n], (d: Detail) => Passes(d, test)),
        Having(details, (d: Detail) => Passes(d, test));
      if details[n].Some? && Passes(details[n].value, test) {
        assert all == before + {n};
      } else {
        assert all == before;
      }
    }
  }

  /** There is a progress call at the start and one for each save. The last one counts the records as
      they are: those with a score, those that failed or are to be retried, and those of examples tried
      more than once. */
  lemma ReportsEachSave(recovered: Details, maxRetries: nat, steps: seq<Step>, t: State)
    requires EvaluationRuns.Reaches(Start(recovered), maxRetries, steps, t)
    ensures |t.log| == 1 + Saves(steps)
    ensures var last := t.log[|t.log| - 1];
            && last.completed == t.completed && last.total == |recovered| == |t.details|
            && last.scored == |Having(t.details, (d: Detail) => d.scored)|
            && last.failed == |Having(t.details, (d: Detail) => d.status == Failed)|
            && last.retrying == |Having(t.details, (d: Detail) => d.status == Retrying)|
            && last.retried == |Having(t.details, (d: Detail) => d.attempts > 1)|
            && last.examples == Present(t.details)
  {
    RunReports(Start(recovered), maxRetries, steps, t);
    CountIs(t.details, IsScored);
    CountIs(t.details, HasStatus(Failed));
    CountIs(t.details, HasStatus(Retrying));
    CountIs(t.details, IsRetried);
    assert Having(t.details, (d: Detail) => d.scored) == Having(t.details, (d: Detail) => Passes(d, IsScored));
    assert Having(t.details, (d: Detail) => d.status == Failed) ==
      Having(t.details, (d: Detail) => Passes(d, HasStatus(Failed)));
    assert Having(t.details, (d: Detail) => d.status == Retrying) ==
      Having(t.details, (d: Detail) => Passes(d, HasStatus(Retrying)));
    assert Having(t.details, (d: Detail) => d.attempts > 1) == Having(t.details, (d: Detail) => Passes(d, IsRetried));
  }

  // ---------- The errors of an example ----------

  /** The errors of the attempts of an example, in order. */
  function Errors(steps: seq<Step>, i: nat): seq<string>
  {
    if steps == [] then []
    else if FailsIn(steps[0], i) then [steps[0].error.value] + Errors(steps[1..], i)
    else Errors(steps[1..], i)
  }

  /** The step ends an attempt of this example with an error. */
  predicate FailsIn(step: Step, i: nat) { step.EndAttempt? && step.i == i && step.error.Some? }

  lemma {:induction false} RunErrors(s: State, maxRetries: nat, steps: seq<Step>, t: State, i: nat)
    requires EvaluationRuns.Reaches(s, maxRetries, steps, t)
    ensures ErrorsOf(t, i) == ErrorsOf(s, i) + Errors(steps, i)
    decreases |steps|
  {
    if steps != [] {
      var next := Apply(s, maxRetries, steps[0]);
      RunErrors(next, maxRetries, steps[1..], t, i);
      if FailsIn(steps[0], i) { assert ErrorsOf(next, i) == ErrorsOf(s, i) + [steps[0].error.value]; }
    }
  }

  /** The record that a finished run keeps of an example lists the errors of its attempts in order, and
      it succeeded exactly if one attempt had none. */
  lemma RecordsEveryError(recovered: Details, maxRetries: nat, steps: seq<Step>, t: State, i: nat)
    requires Recoverable(recovered) && EvaluationRuns.Reaches(Start(recovered), maxRetries, steps, t)
    requires t.phase == Finished && i < |recovered| && recovered[i].None?
    ensures |t.details| == |recovered| && t.details[i].Some?
    ensures t.details[i].value.errors == Errors(steps, i)
    ensures t.details[i].value.status == Succeeded <==> |Errors(steps, i)| < EvaluationRuns.Tries(steps, i)
    ensures |Errors(steps, i)| >= EvaluationRuns.Tries(steps, i) - 1
  {
    StartOk(recovered, maxRetries);
    EvaluationRuns.RunKeeps(Start(recovered), recovered, maxRetries, steps, t);
    EvaluationRuns.FinishedRun(recovered, maxRetries, steps, t, i);
    RunErrors(Start(recovered), maxRetries, steps, t, i);
    assert IndexOk(t, recovered, maxRetries, i);
  }
}
