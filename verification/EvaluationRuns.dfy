/** Whole evaluation runs: how they end, that they end, and how they resume. */
module EvaluationRuns {
  import opened Options
  import opened EvaluationRunner
  import opened EvaluationProofs

  /** The steps lead from one state to the other, each possible when it is taken. */
  ghost predicate Reaches(s: State, maxRetries: nat, steps: seq<Step>, t: State)
    decreases |steps|
  {
    if steps == [] then s == t
    else LockOk(s) && Enabled(s, steps[0]) && Reaches(Apply(s, maxRetries, steps[0]), maxRetries, steps[1..], t)
  }

  lemma {:induction false} RunKeeps(s: State, recovered: Details, maxRetries: nat, steps: seq<Step>, t: State)
    requires Inv(s, recovered, maxRetries) && Reaches(s, maxRetries, steps, t)
    ensures Inv(t, recovered, maxRetries)
    decreases |steps|
  {
    if steps != [] {
      StepKeeps(s, recovered, maxRetries, steps[0]);
      RunKeeps(Apply(s, maxRetries, steps[0]), recovered, maxRetries, steps[1..], t);
    }
  }

  /** In every run each progress call sees completed = scored + failed and as many examples as are
      completed or retrying, and the completed count never goes back. */
  lemma ProgressAddsUp(recovered: Details, maxRetries: nat, steps: seq<Step>, t: State, k: nat)
    requires Recoverable(recovered) && Reaches(Start(recovered), maxRetries, steps, t) && k < |t.log|
    ensures ReportOk(t.log[k], |recovered|)
    ensures k > 0 ==> t.log[k - 1].completed <= t.log[k].completed
  {
    StartOk(recovered, maxRetries);
    RunKeeps(Start(recovered), recovered, maxRetries, steps, t);
  }

  /** While a retry is under way, every first attempt has been recorded. */
  lemma RetriesWaitForFirstPass(recovered: Details, maxRetries: nat, steps: seq<Step>, t: State, i: nat, k: nat)
    requires Recoverable(recovered) && Reaches(Start(recovered), maxRetries, steps, t)
    requires i in t.tasks && t.tasks[i].Attempting? && t.tasks[i].attempt >= 2
    requires k < |recovered|
    ensures |t.details| == |recovered| && t.details[k].Some?
  {
    StartOk(recovered, maxRetries);
    RunKeeps(Start(recovered), recovered, maxRetries, steps, t);
    assert IndexOk(t, recovered, maxRetries, i);
    assert IndexOk(t, recovered, maxRetries, k);
  }

  // ---------- How a run ends ----------

  /** Recovered records are untouched; all others succeeded or used up every attempt. */
  ghost predicate EndsWell(details: Details, recovered: Details, maxRetries: nat)
  {
    |details| == |recovered| &&
    forall i :: 0 <= i < |details| ==>
      details[i].Some? && details[i].value.status != Retrying &&
      if recovered[i].Some? then details[i] == recovered[i] else DetailOk(details[i].value, i, maxRetries)
  }

  lemma FinishedEndsWell(s: State, recovered: Details, maxRetries: nat)
    requires Recoverable(recovered) && Inv(s, recovered, maxRetries) && s.phase == Finished
    ensures EndsWell(s.details, recovered, maxRetries)
    ensures s.completed == |s.details| && Count(s.details, HasStatus(Retrying)) == 0
  {
    forall i | 0 <= i < |s.details|
      ensures s.details[i].Some? && s.details[i].value.status != Retrying
      ensures if recovered[i].Some? then s.details[i] == recovered[i] else DetailOk(s.details[i].value, i, maxRetries)
    {
      assert IndexOk(s, recovered, maxRetries, i);
    }
    AllPresent(s.details);
  }

  /** How often the example has been attempted. */
  function Tries(steps: seq<Step>, i: nat): nat
  {
    if steps == [] then 0 else (if steps[0].EndAttempt? && steps[0].i == i then 1 else 0) + Tries(steps[1..], i)
  }

  function TriesIn(s: State, i: nat): nat
  {
    if i in s.tasks && s.tasks[i].Attempting? then (if s.tasks[i].attempt == 0 then 0 else s.tasks[i].attempt - 1)
    else if i in s.tasks && s.tasks[i].Saving? then s.tasks[i].detail.attempts
    else if i < |s.details| && s.details[i].Some? then s.details[i].value.attempts
    else 0
  }

  lemma StepTries(s: State, recovered: Details, maxRetries: nat, step: Step, i: nat)
    requires Inv(s, recovered, maxRetries) && Enabled(s, step) && i < |recovered| && recovered[i] == None
    ensures TriesIn(Apply(s, maxRetries, step), i) == TriesIn(s, i) + if step.EndAttempt? && step.i == i then 1 else 0
  {
    assert IndexOk(s, recovered, maxRetries, i);
  }

  lemma {:induction false} RunTries(s: State, recovered: Details, maxRetries: nat, steps: seq<Step>, t: State, i: nat)
    requires Inv(s, recovered, maxRetries) && Reaches(s, maxRetries, steps, t) && i < |recovered| &&
             recovered[i] == None
    ensures TriesIn(t, i) == TriesIn(s, i) + Tries(steps, i)
    decreases |steps|
  {
    if steps != [] {
      StepTries(s, recovered, maxRetries, steps[0], i);
      StepKeeps(s, recovered, maxRetries, steps[0]);
      RunTries(Apply(s, maxRetries, steps[0]), recovered, maxRetries, steps[1..], t, i);
    }
  }

  /** A run that finishes has completed everything, retries nothing, left recovered results alone, and
      tried each other example as often as its record says: between once and one more than the retries,
      and that often if it failed. */
  lemma FinishedRun(recovered: Details, maxRetries: nat, steps: seq<Step>, t: State, i: nat)
    requires Recoverable(recovered) && Reaches(Start(recovered), maxRetries, steps, t) && t.phase == Finished
    requires i < |recovered|
    ensures t.completed == |recovered| == |t.details| && Count(t.details, HasStatus(Retrying)) == 0
    ensures recovered[i].Some? ==> t.details[i] == recovered[i]
    ensures recovered[i].None? ==>
              t.details[i].Some? && t.details[i].value.attempts == Tries(steps, i) &&
                1 <= Tries(steps, i) <= maxRetries + 1 &&
              (t.details[i].value.status == Succeeded || Tries(steps, i) == maxRetries + 1)
  {
    StartOk(recovered, maxRetries);
    RunKeeps(Start(recovered), recovered, maxRetries, steps, t);
    FinishedEndsWell(t, recovered, maxRetries);
    assert IndexOk(t, recovered, maxRetries, i);
    if recovered[i].None? { RunTries(Start(recovered), recovered, maxRetries, steps, t, i); }
  }

  // ---------- Every run ends ----------

  function Rank(phase: Phase): nat { match phase case FirstPass => 2 case RetryPass => 1 case Finished => 0 }

  /** What is left to do for a task, in steps. */
  function Left(tasks: map<nat, Task>, maxRetries: nat, i: nat): nat
  {
    if i !in tasks then 0
    else
      match tasks[i]
      case Attempting(a) => 3 + 3 * More(maxRetries, a)
      case Saving(d, _) => 2 + 3 * More(maxRetries, d.attempts)
      case Reporting(a, _) => 1 + 3 * More(maxRetries, a)
      case Done => 0
  }

  function More(maxRetries: nat, attempt: nat): nat { if attempt <= maxRetries then maxRetries + 1 - attempt else 0 }

  function AllLeft(tasks: map<nat, Task>, maxRetries: nat, n: nat): nat
  {
    if n == 0 then 0 else AllLeft(tasks, maxRetries, n - 1) + Left(tasks, maxRetries, n - 1)
  }

  lemma {:induction false} LeftDrops(tasks: map<nat, Task>, maxRetries: nat, i: nat, task: Task, n: nat)
    requires i in tasks && Left(tasks[i := task], maxRetries, i) < Left(tasks, maxRetries, i)
    ensures AllLeft(tasks[i := task], maxRetries, n) <= AllLeft(tasks, maxRetries, n)
    ensures i < n ==> AllLeft(tasks[i := task], maxRetries, n) < AllLeft(tasks, maxRetries, n)
  {
    if n > 0 { LeftDrops(tasks, maxRetries, i, task, n - 1); }
  }

  function Work(s: State, maxRetries: nat): nat { AllLeft(s.tasks, maxRetries, |s.details|) }

  /** Every step brings the end nearer. */
  lemma StepProgress(s: State, recovered: Details, maxRetries: nat, step: Step)
    requires Inv(s, recovered, maxRetries) && Enabled(s, step)
    ensures var t := Apply(s, maxRetries, step);
            Rank(t.phase) < Rank(s.phase) || (t.phase == s.phase && Work(t, maxRetries) < Work(s, maxRetries))
  {
    if !step.StartRetries? && !step.Finish? {
      var t := Apply(s, maxRetries, step);
      assert IndexOk(s, recovered, maxRetries, step.i);
      LeftDrops(s.tasks, maxRetries, step.i, t.tasks[step.i], |s.details|);
    }
  }

  /** A task that can go on now: it is not done and does not wait for the lock. */
  predicate Runnable(tasks: map<nat, Task>, lock: Option<nat>, i: nat)
  {
    i in tasks && (tasks[i].Attempting? || (tasks[i].Saving? && lock == None) || tasks[i].Reporting?)
  }

  /** No deadlock: some task can go on, or the pass is over. */
  lemma SomethingRunnable(s: State)
    requires LockOk(s) && !AllDone(s.tasks)
    ensures exists i :: Runnable(s.tasks, s.lock, i)
  {
    if s.lock.Some? {
      assert Runnable(s.tasks, s.lock, s.lock.value);
    } else {
      var i :| i in s.tasks && s.tasks[i] != Done;
      assert Runnable(s.tasks, s.lock, i);
    }
  }

  /** One suspension-free block of a task, with any outcome of the attempt. */
  method Advance(run: Run, i: nat, error: Option<string>, ghost recovered: Details)
    requires Inv(run.Contents(), recovered, run.maxRetries) && Runnable(run.tasks, run.lock, i)
    modifies run
    ensures Inv(run.Contents(), recovered, run.maxRetries) && run.phase == old(run.phase)
    ensures Work(run.Contents(), run.maxRetries) < old(Work(run.Contents(), run.maxRetries))
  {
    ghost var s := run.Contents();
    ghost var step :=
      match run.tasks[i]
      case Attempting(_) => EndAttempt(i, error)
      case Saving(_, _) => BeginSave(i)
      case _ => EndSave(i);
    StepKeeps(s, recovered, run.maxRetries, step);
    StepProgress(s, recovered, run.maxRetries, step);
    if run.tasks[i].Attempting? { run.EndOfAttempt(i, error); }
    else if run.tasks[i].Saving? { run.BeginSaving(i); }
    else { run.EndSaving(i); }
  }

  /** Runs the tasks of a pass to the end, in any order and with any outcomes. */
  method RunPass(run: Run, ghost recovered: Details)
    requires Inv(run.Contents(), recovered, run.maxRetries)
    modifies run
    ensures Inv(run.Contents(), recovered, run.maxRetries) && AllDone(run.tasks) && run.phase == old(run.phase)
  {
    while !AllDone(run.tasks)
      invariant Inv(run.Contents(), recovered, run.maxRetries) && run.phase == old(run.phase)
      decreases Work(run.Contents(), run.maxRetries)
    {
      SomethingRunnable(run.Contents());
      var i :| Runnable(run.tasks, run.lock, i);
      var error: Option<string> := *;
      Advance(run, i, error, recovered);
    }
  }

  // ---------- Recovery ----------

  /** What every saved result of a run satisfies. */
  ghost predicate SavedOk(saved: seq<Detail>)
  {
    forall i :: 0 <= i < |saved| ==> (saved[i].scored <==> saved[i].status == Succeeded)
  }

  lemma {:induction false} RecoveredSound(total: nat, saved: seq<Detail>, n: nat)
    requires n <= |saved| && SavedOk(saved)
    ensures Recovered(total, saved, n).Some? ==> Recoverable(Recovered(total, saved, n).value)
  {
    if n > 0 { RecoveredSound(total, saved, n - 1); }
  }

  /** A whole run. It is refused exactly if the saved records cannot be taken over, and otherwise ends
      well whatever its attempts come to and however its tasks are interleaved. */
  method Evaluate(total: nat, maxRetries: nat, saved: seq<Detail>) returns (result: Option<Details>)
    requires SavedOk(saved)
    ensures result.None? <==> Recovered(total, saved, |saved|).None?
    ensures result.Some? ==> EndsWell(result.value, Recovered(total, saved, |saved|).value, maxRetries)
  {
    var run := new Run(total, maxRetries);
    var valid := run.Begin(saved);
    if !valid { return None; }
    ghost var recovered := Recovered(total, saved, |saved|).value;
    RecoveredSound(total, saved, |saved|);
    StartOk(recovered, maxRetries);
    RunPass(run, recovered);
    StepKeeps(run.Contents(), recovered, maxRetries, StartRetries);
    run.StartRetrying();
    RunPass(run, recovered);
    StepKeeps(run.Contents(), recovered, maxRetries, Finish);
    FinishedEndsWell(Apply(run.Contents(), maxRetries, Finish), recovered, maxRetries);
    result := Some(run.details);
  }

  lemma {:induction false} RecoveredFirst(total: nat, saved: seq<Detail>, d: Detail, n: nat)
    requires n <= |saved|
    ensures Recovered(total, saved + [d], n) == Recovered(total, saved, n)
  {
    if n > 0 { RecoveredFirst(total, saved, d, n - 1); }
  }

  /** Exactly the scored ones of the first n records. */
  ghost predicate Restores(restored: Details, details: Details, n: nat)
  {
    |restored| == |details| &&
    forall i :: 0 <= i < |details| ==>
      restored[i] == if i < n && details[i].Some? && details[i].value.scored then details[i] else None
  }

  ghost predicate Placed(details: Details)
  {
    forall i :: 0 <= i < |details| && details[i].Some? ==> details[i].value.index == Some(i)
  }

  lemma RestoreNext(details: Details, n: nat, saved: seq<Detail>)
    requires n < |details| && Placed(details) && details[n].Some?
    requires Recovered(|details|, saved, |saved|).Some? &&
             Restores(Recovered(|details|, saved, |saved|).value, details, n)
    ensures var r := Recovered(|details|, saved + [details[n].value], |saved| + 1);
            r.Some? && Restores(r.value, details, n + 1)
  {
    RecoveredFirst(|details|, saved, details[n].value, |saved|);
  }

  lemma PresentNext(details: Details, n: nat)
    requires n < |details|
    ensures Present(details[..n + 1]) == if details[n].Some? then Present(details[..n]) + [details[n].value]
            else Present(details[..n])
  {
    assert details[..n + 1][..n] == details[..n];
  }

  lemma {:induction false} PrefixRestores(details: Details, n: nat)
    requires n <= |details| && Placed(details)
    ensures var saved := Present(details[..n]);
            var r := Recovered(|details|, saved, |saved|);
            r.Some? && Restores(r.value, details, n)
  {
    if n > 0 {
      PrefixRestores(details, n - 1);
      PresentNext(details, n - 1);
      if details[n - 1].Some? { RestoreNext(details, n - 1, Present(details[..n - 1])); }
    }
  }

  /** A run may be resumed from any progress report of any run over as many examples: exactly the
      scored records come back. */
  lemma ResumeRestoresScores(recovered: Details, maxRetries: nat, steps: seq<Step>, t: State)
    requires Recoverable(recovered) && Reaches(Start(recovered), maxRetries, steps, t)
    ensures var saved := Report(t.completed, t.details).examples;
            var r := Recovered(|recovered|, saved, |saved|);
            SavedOk(saved) && r.Some? && Restores(r.value, t.details, |t.details|)
  {
    StartOk(recovered, maxRetries);
    RunKeeps(Start(recovered), recovered, maxRetries, steps, t);
    AllPlaced(t, recovered, maxRetries);
    assert t.details[..|t.details|] == t.details;
    PrefixRestores(t.details, |t.details|);
    PresentOk(t.details);
  }

  lemma AllPlaced(s: State, recovered: Details, maxRetries: nat)
    requires Recoverable(recovered) && Inv(s, recovered, maxRetries)
    ensures Placed(s.details)
  {
    forall i | 0 <= i < |s.details| && s.details[i].Some?
      ensures s.details[i].value.index == Some(i)
    {
      assert IndexOk(s, recovered, maxRetries, i);
    }
  }

  lemma {:induction false} PresentOk(details: Details)
    requires Consistent(details)
    ensures SavedOk(Present(details))
  {
    if details != [] {
      assert forall i :: 0 <= i < |details| - 1 ==> details[..|details| - 1][i] == details[i];
      PresentOk(details[..|details| - 1]);
    }
  }
}
