/** The two passes of an evaluation run: a first attempt for every pending example, then retries of
    the failures, with the tasks of each pass interleaved in any order. */
module EvaluationRunner {
  import opened Options

  datatype Status = Succeeded | Retrying | Failed

  /** The saved record of one example. Saved files may carry any index. */
  datatype Detail = Detail(index: Option<int>, status: Status, scored: bool, attempts: nat, errors: seq<string>)

  type Details = seq<Option<Detail>>

  datatype Test = IsPresent | IsScored | HasStatus(status: Status) | IsRetried

  predicate Passes(d: Detail, test: Test)
  {
    match test
    case IsPresent => true
    case IsScored => d.scored
    case HasStatus(status) => d.status == status
    case IsRetried => d.attempts > 1
  }

  function Count(details: Details, test: Test): nat
  {
    if details == [] then 0
    else
      var last := details[|details| - 1];
      Count(details[..|details| - 1], test) + if last.Some? && Passes(last.value, test) then 1 else 0
  }

  function Present(details: Details): seq<Detail>
  {
    if details == [] then []
    else
      var last := details[|details| - 1];
      Present(details[..|details| - 1]) + if last.Some? then [last.value] else []
  }

  /** What a progress call is given. */
  datatype Progress = Progress(
    completed: nat, total: nat, scored: nat, failed: nat, retrying: nat, retried: nat, examples: seq<Detail>)

  function Report(completed: nat, details: Details): Progress
  {
    Progress(completed, |details|, Count(details, IsScored), Count(details, HasStatus(Failed)),
             Count(details, HasStatus(Retrying)), Count(details, IsRetried), Present(details))
  }

  /** Where the task of one example stands: attempting, waiting for the progress lock with a record to
      save, or reporting while it holds the lock. */
  datatype Task =
    | Attempting(attempt: nat)
    | Saving(detail: Detail, final: bool)
    | Reporting(attempt: nat, final: bool)
    | Done

  datatype Phase = FirstPass | RetryPass | Finished

  datatype State = State(
    details: Details,
    completed: nat,
    phase: Phase,
    tasks: map<nat, Task>,
    errors: map<nat, seq<string>>,
    causes: set<nat>,
    lock: Option<nat>,
    log: seq<Progress>)

  datatype Step =
    | EndAttempt(i: nat, error: Option<string>)
    | BeginSave(i: nat)
    | EndSave(i: nat)
    | StartRetries
    | Finish

  predicate AllDone(tasks: map<nat, Task>) { forall i :: i in tasks ==> tasks[i] == Done }

  predicate Enabled(s: State, step: Step)
  {
    match step
    case EndAttempt(i, _) => i in s.tasks && s.tasks[i].Attempting?
    case BeginSave(i) => i in s.tasks && s.tasks[i].Saving? && s.lock == None
    case EndSave(i) => i in s.tasks && s.tasks[i].Reporting? && s.lock == Some(i)
    case StartRetries => s.phase == FirstPass && AllDone(s.tasks)
    case Finish => s.phase == RetryPass && AllDone(s.tasks)
  }

  function ErrorsOf(s: State, i: nat): seq<string> { if i in s.errors then s.errors[i] else [] }

  /** The record of an attempt: errors accumulate, and a failure is retried while attempts are left. */
  function AttemptDetail(i: nat, attempt: nat, errors: seq<string>, error: Option<string>, maxRetries: nat): Detail
  {
    if error.None? then Detail(Some(i), Succeeded, true, attempt, errors)
    else Detail(Some(i), if attempt <= maxRetries then Retrying else Failed, false, attempt, errors + [error.value])
  }

  function EndedAttempt(s: State, i: nat, attempt: nat, error: Option<string>, maxRetries: nat): State
  {
    var detail := AttemptDetail(i, attempt, ErrorsOf(s, i), error, maxRetries);
    var final := error.None? || if attempt == 1 then maxRetries == 0 else attempt > maxRetries;
    s.(tasks := s.tasks[i := Saving(detail, final)],
       errors := s.errors[i := detail.errors],
       causes := if error.Some? && attempt == 1 then s.causes + {i} else s.causes)
  }

  function Saved(s: State, i: nat, detail: Detail, final: bool): State
    requires i < |s.details|
  {
    var details := s.details[i := Some(detail)];
    var completed := if final then s.completed + 1 else s.completed;
    s.(details := details, completed := completed, tasks := s.tasks[i := Reporting(detail.attempts, final)],
       lock := Some(i), log := s.log + [Report(completed, details)])
  }

  /** After its save a first attempt is over; a retry is over if it was final, else tries again. */
  function AfterSave(phase: Phase, attempt: nat, final: bool): Task
  {
    if phase == FirstPass || final then Done else Attempting(attempt + 1)
  }

  function Retries(causes: set<nat>, total: nat, maxRetries: nat): map<nat, Task>
  {
    map i | i in causes && i < total && maxRetries > 0 :: Attempting(2)
  }

  function Apply(s: State, maxRetries: nat, step: Step): State
    requires forall i :: i in s.tasks ==> i < |s.details|
    requires Enabled(s, step)
  {
    match step
    case EndAttempt(i, error) => EndedAttempt(s, i, s.tasks[i].attempt, error, maxRetries)
    case BeginSave(i) => Saved(s, i, s.tasks[i].detail, s.tasks[i].final)
    case EndSave(i) =>
      s.(tasks := s.tasks[i := AfterSave(s.phase, s.tasks[i].attempt, s.tasks[i].final)], lock := None)
    case StartRetries => s.(phase := RetryPass, tasks := Retries(s.causes, |s.details|, maxRetries))
    case Finish => s.(phase := Finished)
  }

  /** The state when the first tasks have been created and the recovered records reported. */
  function Start(recovered: Details): State
  {
    State(recovered, Count(recovered, IsPresent), FirstPass,
          map i: nat | i < |recovered| && recovered[i] == None :: Attempting(1),
          map[], {}, None, [Report(Count(recovered, IsPresent), recovered)])
  }

  // ---------- Recovery ----------

  /** The first n saved records, with the scored ones put at their index; None if an index is invalid
      or repeated. */
  function Recovered(total: nat, saved: seq<Detail>, n: nat): (r: Option<Details>)
    requires n <= |saved|
    ensures r.Some? ==> |r.value| == total
  {
    if n == 0 then Some(seq(total, _ => None))
    else
      var before := Recovered(total, saved, n - 1);
      var d := saved[n - 1];
      if before.None? || !d.scored then before
      else if d.index.None? || !(0 <= d.index.value < total) || before.value[d.index.value].Some? then None
      else Some(before.value[d.index.value := Some(d)])
  }

  lemma {:induction false} RecoveredNone(total: nat, saved: seq<Detail>, n: nat, m: nat)
    requires n <= m <= |saved| && Recovered(total, saved, n) == None
    ensures Recovered(total, saved, m) == None
  {
    if n < m { RecoveredNone(total, saved, n, m - 1); }
  }

  /** The shared variables of one run, changed by its tasks between suspension points. */
  class Run {
    const maxRetries: nat
    var details: Details
    var completed: nat
    var phase: Phase
    var tasks: map<nat, Task>
    var errors: map<nat, seq<string>>
    var causes: set<nat>
    var lock: Option<nat>
    var log: seq<Progress>

    ghost function Contents(): State
      reads this
    {
      State(details, completed, phase, tasks, errors, causes, lock, log)
    }

    constructor (total: nat, maxRetries: nat)
      ensures this.maxRetries == maxRetries && details == seq(total, _ => None)
    {
      this.maxRetries := maxRetries;
      details := seq(total, _ => None);
      completed, phase, tasks, errors, causes, lock, log := 0, FirstPass, map[], map[], {}, None, [];
    }

    /** Takes over the scored records of an earlier run, and creates the first tasks. */
    method Begin(saved: seq<Detail>) returns (valid: bool)
      requires details == seq(|details|, _ => None)
      modifies this
      ensures valid <==> Recovered(old(|details|), saved, |saved|).Some?
      ensures valid ==> Contents() == Start(Recovered(old(|details|), saved, |saved|).value)
    {
      var total := |details|;
      var n := 0;
      while n < |saved|
        invariant n <= |saved| && |details| == total && Recovered(total, saved, n) == Some(details)
      {
        var d := saved[n];
        n := n + 1;
        if d.scored {
          if d.index.None? || !(0 <= d.index.value < |details|) || details[d.index.value].Some? {
            RecoveredNone(total, saved, n, |saved|);
            return false;
          }
          details := details[d.index.value := Some(d)];
        }
      }
      completed := Count(details, IsPresent);
      tasks := map i: nat | i < |details| && details[i] == None :: Attempting(1);
      phase, errors, causes, lock, log := FirstPass, map[], {}, None, [Report(completed, details)];
      valid := true;
    }

    /** The end of an attempt, up to the wait for the lock. */
    method EndOfAttempt(i: nat, error: Option<string>)
      requires forall k :: k in tasks ==> k < |details|
      requires Enabled(Contents(), EndAttempt(i, error))
      modifies this
      ensures Contents() == Apply(old(Contents()), maxRetries, EndAttempt(i, error))
    {
      var attempt := tasks[i].attempt;
      var messages := if i in errors then errors[i] else [];
      var detail;
      if error.None? {
        detail := Detail(Some(i), Succeeded, true, attempt, messages);
      } else {
        messages := messages + [error.value];
        detail := Detail(Some(i), if attempt <= maxRetries then Retrying else Failed, false, attempt, messages);
      }
      errors := errors[i := messages];
      var final;
      if attempt == 1 {
        if error.Some? { causes := causes + {i}; }
        final := error.None? || maxRetries == 0;
      } else {
        final := error.None? || attempt > maxRetries;
      }
      tasks := tasks[i := Saving(detail, final)];
    }

    /** With the lock: saves the record, counts it if final, and calls progress. */
    method BeginSaving(i: nat)
      requires forall k :: k in tasks ==> k < |details|
      requires Enabled(Contents(), BeginSave(i))
      modifies this
      ensures Contents() == Apply(old(Contents()), maxRetries, BeginSave(i))
    {
      var task := tasks[i];
      lock := Some(i);
      details := details[i := Some(task.detail)];
      if task.final { completed := completed + 1; }
      log := log + [Report(completed, details)];
      tasks := tasks[i := Reporting(task.detail.attempts, task.final)];
    }

    /** Releases the lock and goes on to the next attempt, if there is one. */
    method EndSaving(i: nat)
      requires forall k :: k in tasks ==> k < |details|
      requires Enabled(Contents(), EndSave(i))
      modifies this
      ensures Contents() == Apply(old(Contents()), maxRetries, EndSave(i))
    {
      var task := tasks[i];
      lock := None;
      if phase == FirstPass || task.final {
        tasks := tasks[i := Done];
      } else {
        tasks := tasks[i := Attempting(task.attempt + 1)];
      }
    }

    /** When the first pass is over: one retry task for each failed example. */
    method StartRetrying()
      requires forall k :: k in tasks ==> k < |details|
      requires Enabled(Contents(), StartRetries)
      modifies this
      ensures Contents() == Apply(old(Contents()), maxRetries, StartRetries)
    {
      phase := RetryPass;
      tasks := map[];
      for i := 0 to |details|
        invariant phase == RetryPass && details == old(details) && causes == old(causes)
        invariant tasks == map k | k in causes && k < i && maxRetries > 0 :: Attempting(2)
        invariant completed == old(completed) && errors == old(errors) && lock == old(lock) && log == old(log)
      {
        if i in causes && maxRetries > 0 { tasks := tasks[i := Attempting(2)]; }
      }
    }
  }
}
