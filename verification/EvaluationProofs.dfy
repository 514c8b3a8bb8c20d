/** What every interleaving of the tasks of an evaluation run keeps. */
module EvaluationProofs {
  import opened Options
  import opened EvaluationRunner

  // ---------- Counting ----------

  function One(d: Option<Detail>, test: Test): nat { if d.Some? && Passes(d.value, test) then 1 else 0 }

  lemma {:induction false} CountUpdate(details: Details, i: nat, d: Option<Detail>, test: Test)
    requires i < |details|
    ensures Count(details[i := d], test) + One(details[i], test) == Count(details, test) + One(d, test)
  {
    var n := |details| - 1;
    if i < n {
      assert details[i := d][..n] == details[..n][i := d];
      CountUpdate(details[..n], i, d, test);
    } else {
      assert details[i := d][..n] == details[..n];
    }
  }

  /** A record is scored exactly if its status says so. */
  ghost predicate Consistent(details: Details)
  {
    forall i :: 0 <= i < |details| && details[i].Some? ==>
      (details[i].value.scored <==> details[i].value.status == Succeeded)
  }

  lemma {:induction false} CountsAddUp(details: Details)
    requires Consistent(details)
    ensures Count(details, IsPresent) ==
            Count(details, IsScored) + Count(details, HasStatus(Failed)) + Count(details, HasStatus(Retrying))
    ensures |Present(details)| == Count(details, IsPresent) <= |details|
  {
    if details != [] {
      var n := |details| - 1;
      assert Consistent(details[..n]) by {
        assert forall i :: 0 <= i < n ==> details[..n][i] == details[i];
      }
      CountsAddUp(details[..n]);
      assert details[n].Some? ==> (details[n].value.scored <==> details[n].value.status == Succeeded);
    }
  }

  lemma {:induction false} AllPresent(details: Details)
    requires forall i :: 0 <= i < |details| ==> details[i].Some? && details[i].value.status != Retrying
    ensures Count(details, IsPresent) == |details| && Count(details, HasStatus(Retrying)) == 0
  {
    if details != [] { AllPresent(details[..|details| - 1]); }
  }

  lemma {:induction false} NoneRetrying(details: Details)
    requires forall i :: 0 <= i < |details| && details[i].Some? ==> details[i].value.status != Retrying
    ensures Count(details, HasStatus(Retrying)) == 0
  {
    if details != [] { NoneRetrying(details[..|details| - 1]); }
  }

  // ---------- The invariant ----------

  /** The record fits its example and its number of attempts. */
  ghost predicate DetailOk(d: Detail, i: nat, maxRetries: nat)
  {
    && d.index == Some(i) && 1 <= d.attempts <= maxRetries + 1
    && (d.scored <==> d.status == Succeeded)
    && (d.status == Retrying ==> d.attempts <= maxRetries)
    && (d.status == Failed ==> d.attempts == maxRetries + 1)
    && |d.errors| == d.attempts - if d.status == Succeeded then 1 else 0
  }

  ghost predicate Recorded(s: State, i: nat, maxRetries: nat)
    requires i < |s.details|
  {
    s.details[i].Some? && DetailOk(s.details[i].value, i, maxRetries)
  }

  ghost predicate WaitsForRetry(s: State, i: nat, maxRetries: nat)
    requires i < |s.details|
  {
    Recorded(s, i, maxRetries) && s.details[i].value.status == Retrying
  }

  ghost predicate Settled(s: State, i: nat, maxRetries: nat)
    requires i < |s.details|
  {
    Recorded(s, i, maxRetries) && s.details[i].value.status != Retrying &&
    ErrorsOf(s, i) == s.details[i].value.errors
  }

  ghost predicate AboutToSave(s: State, i: nat, d: Detail, final: bool, maxRetries: nat)
  {
    DetailOk(d, i, maxRetries) && ErrorsOf(s, i) == d.errors && (final <==> d.status != Retrying)
  }

  ghost predicate FirstOk(s: State, i: nat, maxRetries: nat)
    requires i < |s.details| && i in s.tasks
  {
    match s.tasks[i]
    case Attempting(a) => a == 1 && s.details[i] == None && i !in s.errors && i !in s.causes
    case Saving(d, final) =>
      s.details[i] == None && d.attempts == 1 && AboutToSave(s, i, d, final, maxRetries) &&
        (i in s.causes <==> d.status != Succeeded)
    case _ =>
      && Recorded(s, i, maxRetries) && s.details[i].value.attempts == 1 && ErrorsOf(s, i) == s.details[i].value.errors
      && (i in s.causes <==> s.details[i].value.status != Succeeded)
      && (s.tasks[i].Reporting? ==> s.tasks[i].attempt == 1)
  }

  ghost predicate RetryOk(s: State, i: nat, maxRetries: nat)
    requires i < |s.details| && i in s.tasks
  {
    match s.tasks[i]
    case Attempting(a) =>
      WaitsForRetry(s, i, maxRetries) && s.details[i].value.attempts == a - 1 &&
        ErrorsOf(s, i) == s.details[i].value.errors
    case Saving(d, final) =>
      WaitsForRetry(s, i, maxRetries) && s.details[i].value.attempts == d.attempts - 1 &&
        AboutToSave(s, i, d, final, maxRetries)
    case Reporting(a, final) =>
      && Recorded(s, i, maxRetries) && s.details[i].value.attempts == a && ErrorsOf(s, i) == s.details[i].value.errors
      && (final <==> s.details[i].value.status != Retrying)
    case Done => Settled(s, i, maxRetries)
  }

  ghost predicate IndexOk(s: State, recovered: Details, maxRetries: nat, i: nat)
    requires |recovered| == |s.details| && i < |recovered|
  {
    if recovered[i].Some? then s.details[i] == recovered[i] && i !in s.tasks && i !in s.causes
    else
      match s.phase
      case FirstPass => i in s.tasks && FirstOk(s, i, maxRetries)
      case RetryPass => if i in s.tasks then RetryOk(s, i, maxRetries) else Settled(s, i, maxRetries)
      case Finished => Settled(s, i, maxRetries) && (i in s.tasks ==> s.tasks[i] == Done)
  }

  ghost predicate ReportOk(p: Progress, total: nat)
  {
    && p.total == total && p.completed == p.scored + p.failed
    && |p.examples| == p.completed + p.retrying <= total
  }

  ghost predicate LockOk(s: State)
  {
    && (forall i :: i in s.tasks ==> i < |s.details|)
    && (forall i :: i in s.tasks && s.tasks[i].Reporting? ==> s.lock == Some(i))
    && (s.lock.Some? ==> s.lock.value in s.tasks && s.tasks[s.lock.value].Reporting?)
  }

  ghost predicate CountOk(s: State)
  {
    Consistent(s.details) && s.completed + Count(s.details, HasStatus(Retrying)) == Count(s.details, IsPresent)
  }

  /** Reports add up and never go back. */
  ghost predicate LogOk(s: State)
  {
    && (forall k :: 0 <= k < |s.log| ==> ReportOk(s.log[k], |s.details|) && s.log[k].completed <= s.completed)
    && (forall k :: 0 < k < |s.log| ==> s.log[k - 1].completed <= s.log[k].completed)
  }

  ghost predicate Inv(s: State, recovered: Details, maxRetries: nat)
  {
    && |recovered| == |s.details|
    && (forall i :: 0 <= i < |recovered| ==> IndexOk(s, recovered, maxRetries, i))
    && (forall i :: i in s.causes ==> i < |s.details|)
    && LockOk(s) && CountOk(s) && LogOk(s)
  }

  /** The records taken over are scored ones, each at its index. */
  ghost predicate Recoverable(recovered: Details)
  {
    forall i :: 0 <= i < |recovered| && recovered[i].Some? ==>
      recovered[i].value.index == Some(i) && recovered[i].value.scored && recovered[i].value.status == Succeeded
  }

  lemma StartOk(recovered: Details, maxRetries: nat)
    requires Recoverable(recovered)
    ensures Inv(Start(recovered), recovered, maxRetries)
  {
    var s := Start(recovered);
    NoneRetrying(recovered);
    ReportAddsUp(s.completed, recovered);
    forall i | 0 <= i < |recovered|
      ensures IndexOk(s, recovered, maxRetries, i)
    {
    }
  }

  lemma EndAttemptKeeps(s: State, recovered: Details, maxRetries: nat, i: nat, error: Option<string>)
    requires Inv(s, recovered, maxRetries) && Enabled(s, EndAttempt(i, error))
    ensures Inv(Apply(s, maxRetries, EndAttempt(i, error)), recovered, maxRetries)
  {
    var t := Apply(s, maxRetries, EndAttempt(i, error));
    assert IndexOk(s, recovered, maxRetries, i);
    forall k | 0 <= k < |recovered|
      ensures IndexOk(t, recovered, maxRetries, k)
    {
      assert IndexOk(s, recovered, maxRetries, k);
    }
  }

  lemma SaveCounts(s: State, recovered: Details, maxRetries: nat, i: nat)
    requires Inv(s, recovered, maxRetries) && Enabled(s, BeginSave(i))
    ensures CountOk(Apply(s, maxRetries, BeginSave(i)))
  {
    assert IndexOk(s, recovered, maxRetries, i);
    var d := Some(s.tasks[i].detail);
    CountUpdate(s.details, i, d, IsPresent);
    CountUpdate(s.details, i, d, HasStatus(Retrying));
  }

  lemma ReportAddsUp(completed: nat, details: Details)
    requires Consistent(details) && completed + Count(details, HasStatus(Retrying)) == Count(details, IsPresent)
    ensures ReportOk(Report(completed, details), |details|)
  {
    CountsAddUp(details);
  }

  lemma SaveLogs(s: State, recovered: Details, maxRetries: nat, i: nat)
    requires Inv(s, recovered, maxRetries) && Enabled(s, BeginSave(i))
    ensures LogOk(Apply(s, maxRetries, BeginSave(i)))
  {
    SaveCounts(s, recovered, maxRetries, i);
    var t := Apply(s, maxRetries, BeginSave(i));
    ReportAddsUp(t.completed, t.details);
  }

  lemma BeginSaveKeeps(s: State, recovered: Details, maxRetries: nat, i: nat)
    requires Inv(s, recovered, maxRetries) && Enabled(s, BeginSave(i))
    ensures Inv(Apply(s, maxRetries, BeginSave(i)), recovered, maxRetries)
  {
    SaveCounts(s, recovered, maxRetries, i);
    SaveLogs(s, recovered, maxRetries, i);
    assert IndexOk(s, recovered, maxRetries, i);
    var t := Apply(s, maxRetries, BeginSave(i));
    forall k | 0 <= k < |recovered|
      ensures IndexOk(t, recovered, maxRetries, k)
    {
      assert IndexOk(s, recovered, maxRetries, k);
    }
  }

  lemma EndSaveKeeps(s: State, recovered: Details, maxRetries: nat, i: nat)
    requires Inv(s, recovered, maxRetries) && Enabled(s, EndSave(i))
    ensures Inv(Apply(s, maxRetries, EndSave(i)), recovered, maxRetries)
  {
    assert IndexOk(s, recovered, maxRetries, i);
    var t := Apply(s, maxRetries, EndSave(i));
    forall k | 0 <= k < |recovered|
      ensures IndexOk(t, recovered, maxRetries, k)
    {
      assert IndexOk(s, recovered, maxRetries, k);
    }
  }

  lemma PassKeeps(s: State, recovered: Details, maxRetries: nat, step: Step)
    requires Inv(s, recovered, maxRetries) && Enabled(s, step) && (step.StartRetries? || step.Finish?)
    ensures Inv(Apply(s, maxRetries, step), recovered, maxRetries)
  {
    var t := Apply(s, maxRetries, step);
    forall k | 0 <= k < |recovered|
      ensures IndexOk(t, recovered, maxRetries, k)
    {
      assert IndexOk(s, recovered, maxRetries, k);
    }
  }

  lemma StepKeeps(s: State, recovered: Details, maxRetries: nat, step: Step)
    requires Inv(s, recovered, maxRetries) && Enabled(s, step)
    ensures Inv(Apply(s, maxRetries, step), recovered, maxRetries)
  {
    match step
    case EndAttempt(i, error) => EndAttemptKeeps(s, recovered, maxRetries, i, error);
    case BeginSave(i) => BeginSaveKeeps(s, recovered, maxRetries, i);
    case EndSave(i) => EndSaveKeeps(s, recovered, maxRetries, i);
    case _ => PassKeeps(s, recovered, maxRetries, step);
  }
}
