/** The leased job queue that the chunking, embedding and ingestion runners share: claiming, lease
    renewal, retry with backoff, and what holds over every run of any number of workers. */
module JobQueue {
  import opened Options

  type JobId = nat
  type WorkerId = nat

  /** Points in time and durations, in microseconds. */
  const SECOND: int := 1_000_000

  datatype Status = Queued | Running | Succeeded | Failed

  datatype Job = Job(
    status: Status,
    attempts: nat,
    nextAttempt: Option<int>,
    lease: Option<int>,
    createdAt: int,
    startedAt: Option<int>,
    finishedAt: Option<int>)

  datatype Settings = Settings(maxAttempts: nat, leaseSeconds: nat)

  type Table = map<JobId, Job>

  function NewJob(createdAt: int): Job { Job(Queued, 0, None, None, createdAt, None, None) }

  function Power2(n: nat): (p: nat)
    ensures p >= 1 && (n == 0 ==> p == 1) && (n == 1 ==> p == 2)
  {
    if n == 0 then 1 else 2 * Power2(n - 1)
  }

  lemma {:induction false} BackoffMultiplies(a: nat, b: nat)
    ensures Power2(a + b) == Power2(a) * Power2(b)
  {
    if b > 0 { BackoffMultiplies(a, b - 1); }
  }

  // ---------- One session block each ----------

  predicate Lapsed(job: Job, now: int) { job.status == Running && job.lease.Some? && job.lease.value < now }

  /** Running jobs whose lease has lapsed go back to the queue. */
  function Expire(jobs: Table, now: int): Table
  {
    map j | j in jobs :: if Lapsed(jobs[j], now) then jobs[j].(status := Queued, lease := None) else jobs[j]
  }

  predicate Eligible(job: Job, now: int)
  {
    job.status == Queued && (job.nextAttempt.Some? ==> job.nextAttempt.value <= now)
  }

  function Claim(job: Job, settings: Settings, now: int): Job
  {
    job.(status := Running, attempts := job.attempts + 1,
         startedAt := if job.startedAt.Some? then job.startedAt else Some(now),
         nextAttempt := None, lease := Some(now + settings.leaseSeconds * SECOND))
  }

  /** j may be claimed now: no eligible job is older. */
  predicate Claimable(jobs: Table, j: JobId, now: int)
  {
    j in jobs && Eligible(jobs[j], now) &&
    forall k :: k in jobs && Eligible(jobs[k], now) ==> jobs[j].createdAt <= jobs[k].createdAt
  }

  function Renew(job: Job, settings: Settings, now: int): Job
  {
    job.(lease := Some(now + settings.leaseSeconds * SECOND))
  }

  function FailOrRetry(job: Job, settings: Settings, transient: bool, now: int): Job
  {
    if transient && job.attempts < settings.maxAttempts then
      job.(status := Queued, lease := None, nextAttempt := Some(now + Power2(job.attempts) * SECOND))
    else
      job.(status := Failed, lease := None, finishedAt := Some(now))
  }

  function Succeed(job: Job, now: int): Job { job.(status := Succeeded, lease := None, finishedAt := Some(now)) }

  function Requeue(job: Job): Job
  {
    if job.status != Failed then job
    else job.(status := Queued, attempts := 0, nextAttempt := None, lease := None, startedAt := None,
              finishedAt := None)
  }

  /** The job waits to be run: it is queued or its lease has lapsed, and no backoff is pending. */
  predicate Due(job: Job, now: int)
  {
    && (job.status == Queued || (job.status == Running && job.lease.Some? && job.lease.value < now))
    && (job.nextAttempt == None || job.nextAttempt.value <= now)
  }

  lemma DueIsEligible(jobs: Table, now: int)
    ensures forall j :: j in jobs ==> (Due(jobs[j], now) <==> Eligible(Expire(jobs, now)[j], now))
    ensures forall j :: j in jobs ==> Expire(jobs, now)[j].createdAt == jobs[j].createdAt
  {
  }

  /** The job table, changed by one session block at a time. */
  class Database {
    const settings: Settings
    var jobs: Table

    constructor (settings: Settings)
      ensures this.settings == settings && jobs == map[]
    {
      this.settings, jobs := settings, map[];
    }

    method EnsureJob(j: JobId, now: int)
      modifies this
      ensures jobs == if j in old(jobs) then old(jobs)
                      else old(jobs)[j := Job(Queued, 0, None, None, now, None, None)]
    {
      if j !in jobs { jobs := jobs[j := NewJob(now)]; }
    }

    /** Expires lapsed leases, then claims the oldest eligible job. */
    method ClaimNext(now: int) returns (claimed: Option<JobId>)
      modifies this
      ensures var expired := Expire(old(jobs), now);
              match claimed
              case None => jobs == expired && forall j :: j in expired ==> !Eligible(expired[j], now)
              case Some(j) => Claimable(expired, j, now) && jobs == expired[j := Claim(expired[j], settings, now)]
      ensures claimed == None ==> forall j :: j in old(jobs) ==> !Due(old(jobs)[j], now)
      ensures claimed.Some? ==>
        && claimed.value in old(jobs) && claimed.value in jobs && Due(old(jobs)[claimed.value], now)
        && (forall j :: j in old(jobs) && Due(old(jobs)[j], now) ==>
             old(jobs)[claimed.value].createdAt <= old(jobs)[j].createdAt)
        && var was := old(jobs)[claimed.value];
           jobs[claimed.value] == Job(Running, was.attempts + 1, None, Some(now + settings.leaseSeconds * SECOND),
                                      was.createdAt, if was.startedAt.Some? then was.startedAt else Some(now),
                                      was.finishedAt)
    {
      DueIsEligible(jobs, now);
      jobs := Expire(jobs, now);
      var pending := jobs.Keys;
      claimed := None;
      while pending != {}
        invariant jobs == Expire(old(jobs), now) && pending <= jobs.Keys
        invariant claimed == None ==> forall j :: j in jobs && j !in pending ==> !Eligible(jobs[j], now)
        invariant claimed.Some? ==> claimed.value in jobs && Eligible(jobs[claimed.value], now)
        invariant claimed.Some? ==>
          forall j :: j in jobs && j !in pending && Eligible(jobs[j], now) ==>
            jobs[claimed.value].createdAt <= jobs[j].createdAt
        decreases |pending|
      {
        var j :| j in pending;
        pending := pending - {j};
        if Eligible(jobs[j], now) && (claimed == None || jobs[j].createdAt < jobs[claimed.value].createdAt) {
          claimed := Some(j);
        }
      }
      if claimed.Some? {
        jobs := jobs[claimed.value := Claim(jobs[claimed.value], settings, now)];
      }
    }

    /** Renews the lease of a job that is still running. */
    method Heartbeat(j: JobId, now: int)
      modifies this
      ensures jobs == if j in old(jobs) && old(jobs)[j].status == Running
                      then old(jobs)[j := Renew(old(jobs)[j], settings, now)] else old(jobs)
      ensures j in old(jobs) && old(jobs)[j].status == Running ==>
        jobs[j] == old(jobs)[j].(lease := Some(now + settings.leaseSeconds * SECOND))
    {
      if j in jobs && jobs[j].status == Running { jobs := jobs[j := Renew(jobs[j], settings, now)]; }
    }

    /** Renews the lease between two phases of a worker's task, whatever has become of the job. */
    method RefreshLease(j: JobId, now: int)
      modifies this
      ensures jobs == if j in old(jobs) then old(jobs)[j := Renew(old(jobs)[j], settings, now)] else old(jobs)
      ensures j in old(jobs) ==> jobs[j] == old(jobs)[j].(lease := Some(now + settings.leaseSeconds * SECOND))
    {
      if j in jobs { jobs := jobs[j := Renew(jobs[j], settings, now)]; }
    }

    method RecordFailure(j: JobId, transient: bool, now: int)
      modifies this
      ensures jobs == if j in old(jobs) then old(jobs)[j := FailOrRetry(old(jobs)[j], settings, transient, now)]
              else old(jobs)
      ensures j in old(jobs) ==>
        var was := old(jobs)[j];
        jobs[j] == if transient && was.attempts < settings.maxAttempts
                   then Job(Queued, was.attempts, Some(now + Power2(was.attempts) * SECOND), None, was.createdAt,
                            was.startedAt, was.finishedAt)
                   else Job(Failed, was.attempts, was.nextAttempt, None, was.createdAt, was.startedAt, Some(now))
    {
      if j in jobs {
        var job := jobs[j].(lease := None);
        if transient && job.attempts < settings.maxAttempts {
          job := job.(status := Queued, nextAttempt := Some(now + Power2(job.attempts) * SECOND));
        } else {
          job := job.(status := Failed, finishedAt := Some(now));
        }
        jobs := jobs[j := job];
      }
    }

    method RecordSuccess(j: JobId, now: int)
      modifies this
      ensures jobs == if j in old(jobs) then old(jobs)[j := Succeed(old(jobs)[j], now)] else old(jobs)
      ensures j in old(jobs) ==>
        var was := old(jobs)[j];
        jobs[j] == Job(Succeeded, was.attempts, was.nextAttempt, None, was.createdAt, was.startedAt, Some(now))
    {
      if j in jobs { jobs := jobs[j := Succeed(jobs[j], now)]; }
    }

    /** Deleting a snapshot deletes its job. */
    method DeleteJob(j: JobId)
      modifies this
      ensures jobs == old(jobs) - {j}
    {
      jobs := jobs - {j};
    }

    method RequeueFailed(j: JobId) returns (requeued: bool)
      requires j in jobs
      modifies this
      ensures requeued <==> old(jobs)[j].status == Failed
      ensures jobs == old(jobs)[j := Requeue(old(jobs)[j])]
      ensures requeued ==> jobs[j] == NewJob(old(jobs)[j].createdAt)
      ensures !requeued ==> jobs == old(jobs)
    {
      if jobs[j].status != Failed { return false; }
      jobs := jobs[j := jobs[j].(status := Queued, attempts := 0, nextAttempt := None, lease := None,
                                 startedAt := None, finishedAt := None)];
      return true;
    }
  }

  // ---------- Runs ----------

  /** What a worker does: nothing, work on a job it claimed, or tidy up after publishing its result. */
  datatype Activity = Idle | Holding(job: JobId) | Collecting(job: JobId)

  /** What has become of a job since it was last queued afresh: how often its lease lapsed, how often
      it was sent back to be retried, and how often a worker ended it that had lost it to the queue. */
  datatype Tally = Tally(lapses: nat, retries: nat, overtaken: nat)

  /** The table and the workers, with the tallies and the deleted jobs as history. A worker may be
      stale: its lease has lapsed, or its job is gone, but it does not know. */
  datatype State = State(
    jobs: Table, now: int, workers: map<WorkerId, Activity>, tallies: map<JobId, Tally>, gone: set<JobId>)

  datatype Step =
    | Tick(later: int)
    | Create(j: JobId)
    | ClaimJob(w: WorkerId, j: JobId)
    | ClaimNothing(w: WorkerId)
    | Beat(w: WorkerId)
    | Refresh(w: WorkerId)
    | Publish(w: WorkerId)
    | Collect(w: WorkerId)
    | CollectFails(w: WorkerId)
    | Fail(w: WorkerId, transient: bool)
    | Crash(w: WorkerId)
    | RequeueJob(j: JobId)
    | Delete(j: JobId)

  function DoingNow(s: State, w: WorkerId): Activity { if w in s.workers then s.workers[w] else Idle }

  function TallyOf(s: State, j: JobId): Tally { if j in s.tallies then s.tallies[j] else Tally(0, 0, 0) }

  ghost predicate Enabled(s: State, step: Step)
  {
    match step
    case Tick(later) => later >= s.now
    case Create(j) => j !in s.jobs && j !in s.gone
    case ClaimJob(w, j) => DoingNow(s, w).Idle? && Claimable(Expire(s.jobs, s.now), j, s.now)
    case ClaimNothing(w) =>
      DoingNow(s, w).Idle? && forall j :: j in s.jobs ==> !Eligible(Expire(s.jobs, s.now)[j], s.now)
    case Beat(w) => DoingNow(s, w).Holding?
    case Refresh(w) => DoingNow(s, w).Holding?
    case Publish(w) => DoingNow(s, w).Holding?
    case Collect(w) => DoingNow(s, w).Collecting?
    case CollectFails(w) => DoingNow(s, w).Collecting?
    case Fail(w, _) => DoingNow(s, w).Holding?
    case Crash(w) => true
    case RequeueJob(j) => j in s.jobs
    case Delete(j) => true
  }

  function AfterExpiry(s: State): State
  {
    s.(jobs := Expire(s.jobs, s.now),
       tallies := map j | j in s.jobs ::
         var t := TallyOf(s, j); if Lapsed(s.jobs[j], s.now) then t.(lapses := t.lapses + 1) else t)
  }

  function Counted(t: Tally, before: Job, after: Job): Tally
  {
    if before.status == Queued && after.status != Queued then t.(overtaken := t.overtaken + 1)
    else if before.status != Queued && after.status == Queued then t.(retries := t.retries + 1)
    else t
  }

  /** A worker writes the end of its task to the job, in whatever state that is. */
  function Ended(s: State, w: WorkerId, j: JobId, job: Job, next: Activity): State
    requires j in s.jobs
  {
    s.(jobs := s.jobs[j := job], workers := s.workers[w := next],
       tallies := s.tallies[j := Counted(TallyOf(s, j), s.jobs[j], job)])
  }

  function GiveUp(s: State, settings: Settings, w: WorkerId, j: JobId, transient: bool): State
  {
    if j !in s.jobs then s.(workers := s.workers[w := Idle])
    else Ended(s, w, j, FailOrRetry(s.jobs[j], settings, transient, s.now), Idle)
  }

  function Renewed(s: State, settings: Settings, j: JobId): State
    requires j in s.jobs
  {
    s.(jobs := s.jobs[j := Renew(s.jobs[j], settings, s.now)])
  }

  function Apply(s: State, settings: Settings, step: Step): State
  {
    match step
    case Tick(later) => s.(now := later)
    case Create(j) => s.(jobs := s.jobs[j := NewJob(s.now)], tallies := s.tallies[j := Tally(0, 0, 0)])
    case ClaimJob(w, j) =>
      var e := AfterExpiry(s);
      if j !in e.jobs then s
      else e.(jobs := e.jobs[j := Claim(e.jobs[j], settings, s.now)], workers := s.workers[w := Holding(j)])
    case ClaimNothing(w) => AfterExpiry(s)
    case Beat(w) =>
      var d := DoingNow(s, w);
      if d.Holding? && d.job in s.jobs && s.jobs[d.job].status == Running then Renewed(s, settings, d.job) else s
    case Refresh(w) =>
      var d := DoingNow(s, w);
      if d.Holding? && d.job in s.jobs then Renewed(s, settings, d.job) else s
    case Publish(w) =>
      var d := DoingNow(s, w);
      if !d.Holding? then s
      else if d.job !in s.jobs then s.(workers := s.workers[w := Idle])
      else Ended(s, w, d.job, Succeed(s.jobs[d.job], s.now), Collecting(d.job))
    case Collect(w) => s.(workers := s.workers[w := Idle])
    case CollectFails(w) =>
      var d := DoingNow(s, w);
      if d.Collecting? then GiveUp(s, settings, w, d.job, true) else s
    case Fail(w, transient) =>
      var d := DoingNow(s, w);
      if d.Holding? then GiveUp(s, settings, w, d.job, transient) else s
    case Crash(w) => s.(workers := s.workers[w := Idle])
    case RequeueJob(j) =>
      if QueuesAfresh(s, step, j)
      then s.(jobs := s.jobs[j := Requeue(s.jobs[j])], tallies := s.tallies[j := Tally(0, 0, 0)])
      else s
    case Delete(j) => s.(jobs := s.jobs - {j}, gone := s.gone + {j})
  }

  predicate QueuesAfresh(s: State, step: Step, j: JobId)
  {
    step == RequeueJob(j) && j in s.jobs && s.jobs[j].status == Failed
  }

  function Start(now: int): State { State(map[], now, map[], map[], {}) }

  function Exec(now: int, settings: Settings, steps: seq<Step>): State
  {
    if steps == [] then Start(now) else Apply(Exec(now, settings, steps[..|steps| - 1]), settings, steps[|steps| - 1])
  }

  /** Each step was possible when it was taken. */
  ghost predicate Possible(now: int, settings: Settings, steps: seq<Step>)
  {
    forall i :: 0 <= i < |steps| ==> Enabled(Exec(now, settings, steps[..i]), steps[i])
  }

  lemma ExecPush(now: int, settings: Settings, steps: seq<Step>, step: Step)
    ensures Exec(now, settings, steps + [step]) == Apply(Exec(now, settings, steps), settings, step)
  {
    assert (steps + [step])[..|steps|] == steps;
  }

  lemma ExecNext(now: int, settings: Settings, steps: seq<Step>, i: nat)
    requires i < |steps|
    ensures Exec(now, settings, steps[..i + 1]) == Apply(Exec(now, settings, steps[..i]), settings, steps[i])
  {
    assert steps[..i + 1][..i] == steps[..i];
  }

  lemma PossibleUpTo(now: int, settings: Settings, steps: seq<Step>, n: nat)
    requires n <= |steps| && Possible(now, settings, steps)
    ensures Possible(now, settings, steps[..n])
  {
    forall i | 0 <= i < n
      ensures Enabled(Exec(now, settings, steps[..n][..i]), steps[..n][i])
    {
      assert steps[..n][..i] == steps[..i];
    }
  }

  // ---------- What every run keeps, stale workers included ----------

  /** A job gets at least one attempt, whatever the setting. */
  function Budget(settings: Settings): nat { if settings.maxAttempts == 0 then 1 else settings.maxAttempts }

  function Unqueued(job: Job): nat { if job.status == Queued then 0 else 1 }

  /** A running job has a lease; attempts stay within the budget plus the lapsed leases, and each of
      them is accounted for. */
  ghost predicate JobSound(s: State, settings: Settings, j: JobId)
    requires j in s.jobs
  {
    var job, t := s.jobs[j], TallyOf(s, j);
    && (job.status == Running ==> job.lease.Some? && job.nextAttempt == None && job.startedAt.Some?)
    && (job.status == Succeeded || job.status == Failed ==> job.finishedAt.Some?)
    && job.attempts <= Budget(settings) + t.lapses
    && (job.status == Queued ==> job.attempts < Budget(settings) + t.lapses)
    && job.attempts + t.overtaken == t.lapses + t.retries + Unqueued(job)
  }

  ghost predicate Sound(s: State, settings: Settings)
  {
    forall j :: j in s.jobs ==> JobSound(s, settings, j)
  }

  lemma ExpiryKeeps(s: State, settings: Settings)
    requires Sound(s, settings)
    ensures Sound(AfterExpiry(s), settings)
  {
    var e := AfterExpiry(s);
    forall j | j in e.jobs
      ensures JobSound(e, settings, j)
    {
      assert JobSound(s, settings, j);
    }
  }

  lemma EndKeeps(s: State, settings: Settings, w: WorkerId, j: JobId, job: Job, next: Activity)
    requires Sound(s, settings) && j in s.jobs
    requires job.attempts == s.jobs[j].attempts && job.status != Running
    requires job.status == Succeeded || job.status == Failed ==> job.finishedAt.Some?
    requires job.status == Queued ==> job.attempts < settings.maxAttempts
    ensures Sound(Ended(s, w, j, job, next), settings)
  {
    var t := Ended(s, w, j, job, next);
    assert JobSound(s, settings, j);
    forall k | k in t.jobs
      ensures JobSound(t, settings, k)
    {
      assert JobSound(s, settings, k);
    }
  }

  lemma GiveUpKeeps(s: State, settings: Settings, w: WorkerId, j: JobId, transient: bool)
    requires Sound(s, settings)
    ensures Sound(GiveUp(s, settings, w, j, transient), settings)
  {
    if j in s.jobs {
      EndKeeps(s, settings, w, j, FailOrRetry(s.jobs[j], settings, transient, s.now), Idle);
    } else {
      OthersKeep(s, GiveUp(s, settings, w, j, transient), settings, j);
    }
  }

  /** A step that changes one job at most, and leaves that one sound. */
  lemma OthersKeep(s: State, t: State, settings: Settings, j: JobId)
    requires Sound(s, settings) && (j in t.jobs ==> JobSound(t, settings, j))
    requires forall k :: k in t.jobs && k != j ==>
             k in s.jobs && t.jobs[k] == s.jobs[k] && TallyOf(t, k) == TallyOf(s, k)
    ensures Sound(t, settings)
  {
    forall k | k in t.jobs
      ensures JobSound(t, settings, k)
    {
      if k != j { assert JobSound(s, settings, k); }
    }
  }

  lemma ClaimKeeps(s: State, settings: Settings, w: WorkerId, j: JobId)
    requires Sound(s, settings) && Enabled(s, ClaimJob(w, j))
    ensures Sound(Apply(s, settings, ClaimJob(w, j)), settings)
  {
    ExpiryKeeps(s, settings);
    assert JobSound(AfterExpiry(s), settings, j);
    OthersKeep(AfterExpiry(s), Apply(s, settings, ClaimJob(w, j)), settings, j);
  }

  lemma RenewKeeps(s: State, settings: Settings, j: JobId)
    requires Sound(s, settings) && j in s.jobs
    ensures Sound(Renewed(s, settings, j), settings)
  {
    assert JobSound(s, settings, j);
    OthersKeep(s, Renewed(s, settings, j), settings, j);
  }

  lemma QuietKeeps(s: State, t: State, settings: Settings)
    requires Sound(s, settings) && t.jobs == s.jobs && t.tallies == s.tallies
    ensures Sound(t, settings)
  {
    forall k | k in t.jobs
      ensures JobSound(t, settings, k)
    {
      assert JobSound(s, settings, k);
    }
  }

  lemma StepKeeps(s: State, settings: Settings, step: Step)
    requires Sound(s, settings) && Enabled(s, step)
    ensures Sound(Apply(s, settings, step), settings)
  {
    match step
    case ClaimJob(w, j) => ClaimKeeps(s, settings, w, j);
    case ClaimNothing(w) => ExpiryKeeps(s, settings);
    case Beat(w) => if s.workers[w].job in s.jobs { RenewKeeps(s, settings, s.workers[w].job); }
    case Refresh(w) => if s.workers[w].job in s.jobs { RenewKeeps(s, settings, s.workers[w].job); }
    case Publish(w) => PublishKeeps(s, settings, w, s.workers[w].job);
    case Fail(w, transient) => GiveUpKeeps(s, settings, w, s.workers[w].job, transient);
    case CollectFails(w) => GiveUpKeeps(s, settings, w, s.workers[w].job, true);
    case RequeueJob(j) => OthersKeep(s, Apply(s, settings, step), settings, j);
    case Create(j) => OthersKeep(s, Apply(s, settings, step), settings, j);
    case Delete(j) => OthersKeep(s, Apply(s, settings, step), settings, j);
    case _ => QuietKeeps(s, Apply(s, settings, step), settings);
  }

  lemma PublishKeeps(s: State, settings: Settings, w: WorkerId, j: JobId)
    requires Sound(s, settings) && w in s.workers && s.workers[w] == Holding(j)
    ensures Sound(Apply(s, settings, Publish(w)), settings)
  {
    if j in s.jobs {
      EndKeeps(s, settings, w, j, Succeed(s.jobs[j], s.now), Collecting(j));
    } else {
      QuietKeeps(s, Apply(s, settings, Publish(w)), settings);
    }
  }

  /** Every reachable state is sound, whatever has become of the leases. */
  lemma {:induction false} EveryRunSound(now: int, settings: Settings, steps: seq<Step>)
    requires Possible(now, settings, steps)
    ensures Sound(Exec(now, settings, steps), settings)
  {
    if steps != [] {
      var n := |steps| - 1;
      PossibleUpTo(now, settings, steps, n);
      EveryRunSound(now, settings, steps[..n]);
      StepKeeps(Exec(now, settings, steps[..n]), settings, steps[n]);
    }
  }

  /** In every run, stale workers included: a running job has a lease and a start and awaits no retry, a
      finished one has an end, attempts are at most the budget plus the lapsed leases, and every attempt
      since the job was last queued afresh is one that lapsed, one that was retried, or the one that is
      under way or ended the job. */
  lemma RunGuarantees(now: int, settings: Settings, steps: seq<Step>, j: JobId)
    requires Possible(now, settings, steps) && j in Exec(now, settings, steps).jobs
    ensures var s := Exec(now, settings, steps);
            var job, t := s.jobs[j], TallyOf(s, j);
            && (job.status == Running ==> job.lease.Some? && job.nextAttempt == None && job.startedAt.Some?)
            && (job.status == Succeeded || job.status == Failed ==> job.finishedAt.Some?)
            && job.attempts <= Budget(settings) + t.lapses
            && (job.status == Queued ==> job.attempts < Budget(settings) + t.lapses)
            && job.attempts + t.overtaken == t.lapses + t.retries + Unqueued(job)
  {
    EveryRunSound(now, settings, steps);
    assert JobSound(Exec(now, settings, steps), settings, j);
  }

  // ---------- Backoff ----------

  lemma PowerGrows(a: nat, b: nat)
    requires a <= b
    ensures Power2(a) <= Power2(b)
    decreases b
  {
    if a < b { PowerGrows(a, b - 1); }
  }

  /** Since a retry after so many attempts at this time, the job has not run again; while it is queued
      its next attempt is not due before the backoff is over. It may have been deleted. */
  ghost predicate Waits(s: State, j: JobId, attempts: nat, since: int)
  {
    var until := since + Power2(attempts) * SECOND;
    && s.now >= since
    && (s.now >= until || (j !in s.jobs && j in s.gone) ||
        (j in s.jobs && s.jobs[j].attempts >= attempts && s.jobs[j].status != Running &&
         (s.jobs[j].status == Queued ==> s.jobs[j].nextAttempt.Some? && s.jobs[j].nextAttempt.value >= until)))
  }

  lemma GiveUpWaits(s: State, settings: Settings, w: WorkerId, k: JobId, transient: bool, j: JobId, attempts: nat,
                    since: int)
    requires Waits(s, j, attempts, since)
    ensures Waits(GiveUp(s, settings, w, k, transient), j, attempts, since)
  {
    if k == j && j in s.jobs && s.jobs[j].attempts >= attempts { PowerGrows(attempts, s.jobs[j].attempts); }
  }

  lemma ClaimWaits(s: State, settings: Settings, w: WorkerId, k: JobId, j: JobId, attempts: nat, since: int)
    requires Enabled(s, ClaimJob(w, k)) && Waits(s, j, attempts, since)
    ensures Waits(Apply(s, settings, ClaimJob(w, k)), j, attempts, since)
    ensures k == j ==> s.now >= since + Power2(attempts) * SECOND
  {
  }

  lemma WaitsOn(s: State, settings: Settings, step: Step, j: JobId, attempts: nat, since: int)
    requires Enabled(s, step) && Waits(s, j, attempts, since) && !QueuesAfresh(s, step, j)
    ensures Waits(Apply(s, settings, step), j, attempts, since)
  {
    match step
    case ClaimJob(w, k) => ClaimWaits(s, settings, w, k, j, attempts, since);
    case Fail(w, transient) => GiveUpWaits(s, settings, w, s.workers[w].job, transient, j, attempts, since);
    case CollectFails(w) => GiveUpWaits(s, settings, w, s.workers[w].job, true, j, attempts, since);
    case _ =>
  }

  /** The step sends the job back to the queue, to be retried later. */
  ghost predicate Retries(s: State, settings: Settings, step: Step, j: JobId)
  {
    && j in s.jobs && s.jobs[j].attempts < settings.maxAttempts
    && ((step.Fail? && step.transient && DoingNow(s, step.w) == Holding(j)) ||
        (step.CollectFails? && DoingNow(s, step.w) == Collecting(j)))
  }

  lemma RetryStarts(s: State, settings: Settings, step: Step, j: JobId)
    requires Retries(s, settings, step, j)
    ensures Waits(Apply(s, settings, step), j, s.jobs[j].attempts, s.now)
  {
  }

  ghost predicate NotQueuedAfresh(now: int, settings: Settings, steps: seq<Step>, i: nat, k: nat, j: JobId)
    requires k <= |steps|
  {
    forall m :: i <= m < k ==> !QueuesAfresh(Exec(now, settings, steps[..m]), steps[m], j)
  }

  lemma WaitsNext(now: int, settings: Settings, steps: seq<Step>, n: nat, j: JobId, attempts: nat, since: int)
    requires Possible(now, settings, steps) && n < |steps|
    requires !QueuesAfresh(Exec(now, settings, steps[..n]), steps[n], j)
    requires Waits(Exec(now, settings, steps[..n]), j, attempts, since)
    ensures Waits(Exec(now, settings, steps[..n + 1]), j, attempts, since)
  {
    ExecNext(now, settings, steps, n);
    WaitsOn(Exec(now, settings, steps[..n]), settings, steps[n], j, attempts, since);
  }

  lemma {:induction false} KeepsWaiting(now: int, settings: Settings, steps: seq<Step>, i: nat, k: nat, j: JobId,
                                        attempts: nat, since: int)
    requires Possible(now, settings, steps) && i <= k < |steps| && NotQueuedAfresh(now, settings, steps, i, k, j)
    requires Waits(Exec(now, settings, steps[..i]), j, attempts, since)
    ensures Waits(Exec(now, settings, steps[..k]), j, attempts, since)
    decreases k
  {
    if i < k {
      var n := k - 1;
      KeepsWaiting(now, settings, steps, i, n, j, attempts, since);
      WaitsNext(now, settings, steps, n, j, attempts, since);
    }
  }

  /** In every run, stale workers included, a job retried after so many attempts is not claimed again
      before two to that power seconds have passed, unless it is queued afresh in between. */
  lemma RetryBacksOff(now: int, settings: Settings, steps: seq<Step>, i: nat, k: nat, j: JobId)
    requires Possible(now, settings, steps) && i < k < |steps| && NotQueuedAfresh(now, settings, steps, i + 1, k, j)
    requires Retries(Exec(now, settings, steps[..i]), settings, steps[i], j)
    requires steps[k].ClaimJob? && steps[k].j == j
    ensures var s := Exec(now, settings, steps[..i]);
            Exec(now, settings, steps[..k]).now >= s.now + Power2(s.jobs[j].attempts) * SECOND
  {
    var s := Exec(now, settings, steps[..i]);
    RetryStarts(s, settings, steps[i], j);
    ExecNext(now, settings, steps, i);
    KeepsWaiting(now, settings, steps, i + 1, k, j, s.jobs[j].attempts, s.now);
    ClaimWaits(Exec(now, settings, steps[..k]), settings, steps[k].w, j, j, s.jobs[j].attempts, s.now);
  }

  // ---------- What the leases are for ----------

  /** No lease has lapsed while its holder lives. */
  ghost predicate LeasesHeld(s: State)
  {
    forall w :: w in s.workers && s.workers[w].Holding? && s.workers[w].job in s.jobs ==>
      !Lapsed(s.jobs[s.workers[w].job], s.now)
  }

  /** At no claim of the run had a live holder's lease lapsed. */
  ghost predicate LeasesKept(now: int, settings: Settings, steps: seq<Step>)
  {
    forall i :: 0 <= i < |steps| && (steps[i].ClaimJob? || steps[i].ClaimNothing?) ==>
      LeasesHeld(Exec(now, settings, steps[..i]))
  }

  ghost predicate Busy(s: State, w: WorkerId) { w in s.workers && !s.workers[w].Idle? }

  /** A worker holds a running job, or collects after one that succeeded, unless the job is gone. */
  ghost predicate WorkerSound(s: State, w: WorkerId)
    requires Busy(s, w)
  {
    var d := s.workers[w];
    if d.job in s.jobs then s.jobs[d.job].status == (if d.Holding? then Running else Succeeded) else d.job in s.gone
  }

  /** Only running jobs have leases, and nobody has lost a job unawares. */
  ghost predicate JobHeld(s: State, j: JobId)
    requires j in s.jobs
  {
    (s.jobs[j].lease.Some? ==> s.jobs[j].status == Running) && TallyOf(s, j).overtaken == 0
  }

  /** No two workers work on one job. */
  ghost predicate Exclusive(s: State)
  {
    forall v, w :: Busy(s, v) && Busy(s, w) && v != w ==> s.workers[v].job != s.workers[w].job
  }

  /** Workers are sound, and no two share a job. */
  ghost predicate Held(s: State)
  {
    && (forall j :: j in s.jobs ==> JobHeld(s, j))
    && (forall w :: Busy(s, w) ==> WorkerSound(s, w))
    && Exclusive(s)
  }

  lemma ExpiryHeld(s: State)
    requires Held(s) && LeasesHeld(s)
    ensures Held(AfterExpiry(s))
  {
    var e := AfterExpiry(s);
    forall j | j in e.jobs
      ensures JobHeld(e, j)
    {
      assert JobHeld(s, j);
    }
    forall w | Busy(e, w)
      ensures WorkerSound(e, w)
    {
      assert Busy(s, w) && WorkerSound(s, w);
    }
    forall v, w | Busy(e, v) && Busy(e, w) && v != w
      ensures e.workers[v].job != e.workers[w].job
    {
      assert Busy(s, v) && Busy(s, w);
    }
  }

  /** One worker and its job change; the job keeps fitting the worker, and no other worker has it. */
  lemma OneChanges(s: State, t: State, w: WorkerId, j: JobId)
    requires Held(s) && j in t.jobs && JobHeld(t, j)
    requires forall k :: k in t.jobs && k != j ==>
             k in s.jobs && t.jobs[k] == s.jobs[k] && TallyOf(t, k) == TallyOf(s, k)
    requires (forall k :: k in s.jobs ==> k in t.jobs) && s.gone <= t.gone
    requires forall v :: v != w && Busy(t, v) ==> Busy(s, v) && t.workers[v] == s.workers[v] && s.workers[v].job != j
    requires Busy(t, w) ==> t.workers[w].job == j && WorkerSound(t, w)
    ensures Held(t)
  {
    forall k | k in t.jobs
      ensures JobHeld(t, k)
    {
      if k != j { assert JobHeld(s, k); }
    }
    forall v | Busy(t, v)
      ensures WorkerSound(t, v)
    {
      if v != w { assert WorkerSound(s, v); }
    }
  }

  lemma ClaimHeld(s: State, settings: Settings, w: WorkerId, j: JobId)
    requires Held(s) && LeasesHeld(s) && Enabled(s, ClaimJob(w, j))
    ensures Held(Apply(s, settings, ClaimJob(w, j)))
  {
    ExpiryHeld(s);
    var e, t := AfterExpiry(s), Apply(s, settings, ClaimJob(w, j));
    assert JobHeld(e, j);
    forall v | v != w && Busy(t, v)
      ensures Busy(e, v) && t.workers[v] == e.workers[v] && e.workers[v].job != j
    {
      assert Busy(e, v) && WorkerSound(e, v);
    }
    OneChanges(e, t, w, j);
  }

  lemma EndHeld(s: State, w: WorkerId, job: Job, next: Activity)
    requires Held(s) && Busy(s, w) && s.workers[w].job in s.jobs && job.lease == None
    requires next.Idle? || (next == Collecting(s.workers[w].job) && job.status == Succeeded)
    ensures Held(Ended(s, w, s.workers[w].job, job, next))
  {
    var j := s.workers[w].job;
    assert WorkerSound(s, w) && JobHeld(s, j);
    OneChanges(s, Ended(s, w, j, job, next), w, j);
  }

  lemma RenewHeld(s: State, settings: Settings, w: WorkerId)
    requires Held(s) && Busy(s, w) && s.workers[w].Holding? && s.workers[w].job in s.jobs
    ensures Held(Renewed(s, settings, s.workers[w].job))
  {
    assert WorkerSound(s, w) && JobHeld(s, s.workers[w].job);
    OneChanges(s, Renewed(s, settings, s.workers[w].job), w, s.workers[w].job);
  }

  lemma IdleHeld(s: State, t: State, w: WorkerId)
    requires Held(s) && t == s.(workers := s.workers[w := Idle])
    ensures Held(t)
  {
    forall k | k in t.jobs
      ensures JobHeld(t, k)
    {
      assert JobHeld(s, k);
    }
    forall v | Busy(t, v)
      ensures WorkerSound(t, v) && Busy(s, v)
    {
      assert Busy(s, v) && WorkerSound(s, v);
    }
  }

  /** A job nobody is busy with is created or queued afresh. */
  lemma FreshHeld(s: State, settings: Settings, step: Step)
    requires Held(s) && Enabled(s, step) && (step.Create? || step.RequeueJob?)
    ensures Held(Apply(s, settings, step))
  {
    var t := Apply(s, settings, step);
    forall k | k in t.jobs
      ensures JobHeld(t, k)
    {
      if k in s.jobs { assert JobHeld(s, k); }
    }
    forall v | Busy(t, v)
      ensures WorkerSound(t, v)
    {
      assert Busy(s, v) && WorkerSound(s, v);
    }
  }

  lemma DeleteHeld(s: State, t: State, j: JobId)
    requires Held(s) && t == s.(jobs := s.jobs - {j}, gone := s.gone + {j})
    ensures Held(t)
  {
    forall k | k in t.jobs
      ensures JobHeld(t, k)
    {
      assert JobHeld(s, k);
    }
    forall v | Busy(t, v)
      ensures WorkerSound(t, v) && Busy(s, v)
    {
      assert Busy(s, v) && WorkerSound(s, v);
    }
  }

  lemma TickHeld(s: State, later: int)
    requires Held(s)
    ensures Held(s.(now := later))
  {
    var t := s.(now := later);
    forall k | k in t.jobs
      ensures JobHeld(t, k)
    {
      assert JobHeld(s, k);
    }
    forall v | Busy(t, v)
      ensures WorkerSound(t, v) && Busy(s, v)
    {
      assert Busy(s, v) && WorkerSound(s, v);
    }
  }

  lemma BusyHeld(s: State, settings: Settings, step: Step)
    requires Held(s) && Enabled(s, step)
    requires step.Beat? || step.Refresh? || step.Publish? || step.Fail? || step.CollectFails?
    ensures Held(Apply(s, settings, step))
  {
    var w, j := step.w, s.workers[step.w].job;
    assert Busy(s, w) && WorkerSound(s, w);
    if j !in s.jobs { IdleHeld(s, s.(workers := s.workers[w := Idle]), w); return; }
    match step
    case Publish(_) => EndHeld(s, w, Succeed(s.jobs[j], s.now), Collecting(j));
    case Fail(_, transient) => EndHeld(s, w, FailOrRetry(s.jobs[j], settings, transient, s.now), Idle);
    case CollectFails(_) => EndHeld(s, w, FailOrRetry(s.jobs[j], settings, true, s.now), Idle);
    case _ => RenewHeld(s, settings, w);
  }

  lemma StepHeld(s: State, settings: Settings, step: Step)
    requires Held(s) && Enabled(s, step) && (step.ClaimJob? || step.ClaimNothing? ==> LeasesHeld(s))
    ensures Held(Apply(s, settings, step))
  {
    match step
    case Tick(later) => TickHeld(s, later);
    case ClaimJob(w, j) => ClaimHeld(s, settings, w, j);
    case ClaimNothing(_) => ExpiryHeld(s);
    case Collect(w) => IdleHeld(s, Apply(s, settings, step), w);
    case Crash(w) => IdleHeld(s, Apply(s, settings, step), w);
    case Create(_) => FreshHeld(s, settings, step);
    case RequeueJob(_) => FreshHeld(s, settings, step);
    case Delete(j) => DeleteHeld(s, Apply(s, settings, step), j);
    case _ => BusyHeld(s, settings, step);
  }

  lemma KeptUpTo(now: int, settings: Settings, steps: seq<Step>, n: nat)
    requires n <= |steps| && LeasesKept(now, settings, steps)
    ensures LeasesKept(now, settings, steps[..n])
  {
    forall i | 0 <= i < n && (steps[i].ClaimJob? || steps[i].ClaimNothing?)
      ensures LeasesHeld(Exec(now, settings, steps[..n][..i]))
    {
      assert steps[..n][..i] == steps[..i];
    }
  }

  lemma {:induction false} EveryRunHeld(now: int, settings: Settings, steps: seq<Step>)
    requires Possible(now, settings, steps) && LeasesKept(now, settings, steps)
    ensures Held(Exec(now, settings, steps))
  {
    if steps != [] {
      var n := |steps| - 1;
      PossibleUpTo(now, settings, steps, n);
      KeptUpTo(now, settings, steps, n);
      EveryRunHeld(now, settings, steps[..n]);
      StepHeld(Exec(now, settings, steps[..n]), settings, steps[n]);
    }
  }

  /** As long as no lease lapses while its holder lives, each job is worked on by at most one worker,
      only running jobs have leases, and attempts are exactly the lapsed, the retried and the last. */
  lemma HoldersExclusive(now: int, settings: Settings, steps: seq<Step>, j: JobId, v: WorkerId, w: WorkerId)
    requires Possible(now, settings, steps) && LeasesKept(now, settings, steps)
    ensures var s := Exec(now, settings, steps);
            && (v != w && !DoingNow(s, v).Idle? && !DoingNow(s, w).Idle? ==> DoingNow(s, v).job != DoingNow(s, w).job)
            && (j in s.jobs ==>
                 (s.jobs[j].status == Running <==> s.jobs[j].lease.Some?) &&
                 s.jobs[j].attempts == TallyOf(s, j).lapses + TallyOf(s, j).retries + Unqueued(s.jobs[j]))
  {
    EveryRunHeld(now, settings, steps);
    var s := Exec(now, settings, steps);
    if j in s.jobs {
      assert JobHeld(s, j);
      RunGuarantees(now, settings, steps, j);
    }
    if !DoingNow(s, v).Idle? && !DoingNow(s, w).Idle? { assert Busy(s, v) && Busy(s, w); }
  }

  /** One job, held by worker 0, whose lease has lapsed. */
  ghost predicate LostOne(s: State)
  {
    && s.jobs.Keys == {0} && Lapsed(s.jobs[0], s.now) && s.jobs[0].nextAttempt == None
    && s.workers.Keys == {0} && s.workers[0] == Holding(0)
  }

  /** One job, just claimed by worker 0. */
  ghost predicate ClaimedOne(s: State, settings: Settings)
  {
    && s.jobs.Keys == {0} && s.workers.Keys == {0} && s.workers[0] == Holding(0)
    && s.jobs[0].status == Running && s.jobs[0].attempts == 1 && s.jobs[0].nextAttempt == None
    && s.jobs[0].lease == Some(s.now + settings.leaseSeconds * SECOND)
  }

  lemma FirstClaim(s: State, settings: Settings, created: Job)
    requires s.jobs == map[0 := created] && s.workers == map[] && created == NewJob(s.now)
    ensures Enabled(s, ClaimJob(0, 0)) && ClaimedOne(Apply(s, settings, ClaimJob(0, 0)), settings)
  {
  }

  lemma ClaimOne(now: int, settings: Settings) returns (steps: seq<Step>)
    ensures Possible(now, settings, steps) && |steps| == 2 && ClaimedOne(Exec(now, settings, steps), settings)
  {
    var created := PushStep(now, settings, [], Create(0));
    FirstClaim(Exec(now, settings, created), settings, NewJob(now));
    steps := PushStep(now, settings, created, ClaimJob(0, 0));
  }

  lemma LoseOne(now: int, settings: Settings) returns (steps: seq<Step>)
    ensures Possible(now, settings, steps) && LostOne(Exec(now, settings, steps))
  {
    var claimed := ClaimOne(now, settings);
    var s := Exec(now, settings, claimed);
    steps := PushStep(now, settings, claimed, Tick(s.now + settings.leaseSeconds * SECOND + 1));
  }

  lemma LostIsClaimed(s: State, settings: Settings)
    requires LostOne(s)
    ensures Enabled(s, ClaimJob(1, 0))
    ensures var t := Apply(s, settings, ClaimJob(1, 0)); DoingNow(t, 0) == Holding(0) == DoingNow(t, 1)
  {
  }

  /** Without that, two workers can hold one job. */
  lemma TwoHolders(now: int, settings: Settings) returns (steps: seq<Step>)
    ensures Possible(now, settings, steps)
    ensures DoingNow(Exec(now, settings, steps), 0) == Holding(0) == DoingNow(Exec(now, settings, steps), 1)
  {
    var lost := LoseOne(now, settings);
    LostIsClaimed(Exec(now, settings, lost), settings);
    steps := PushStep(now, settings, lost, ClaimJob(1, 0));
  }

  /** Some worker other than w works on the job. */
  ghost predicate BusyElsewhere(s: State, w: WorkerId, j: JobId)
  {
    exists v :: v != w && Busy(s, v) && s.workers[v].job == j
  }

  /** Some worker holds the job although its lease has lapsed. */
  ghost predicate HeldLapsed(s: State, j: JobId)
  {
    exists v :: v in s.workers && s.workers[v] == Holding(j) && j in s.jobs && Lapsed(s.jobs[j], s.now)
  }

  /** Where jobs have one holder each, a claim gives its job a second one exactly if a live worker
      holds it and its lease has lapsed. */
  lemma SecondHolderIff(s: State, settings: Settings, w: WorkerId, j: JobId)
    requires Held(s) && Enabled(s, ClaimJob(w, j))
    ensures BusyElsewhere(Apply(s, settings, ClaimJob(w, j)), w, j) <==> HeldLapsed(s, j)
  {
    var t := Apply(s, settings, ClaimJob(w, j));
    if BusyElsewhere(t, w, j) {
      var v :| v != w && Busy(t, v) && t.workers[v].job == j;
      assert Busy(s, v) && WorkerSound(s, v);
    }
    if HeldLapsed(s, j) {
      var v :| v in s.workers && s.workers[v] == Holding(j) && j in s.jobs && Lapsed(s.jobs[j], s.now);
      StaysBusy(s, t, w, v, j);
    }
  }

  lemma StaysBusy(s: State, t: State, w: WorkerId, v: WorkerId, j: JobId)
    requires v in s.workers && s.workers[v] == Holding(j) && DoingNow(s, w).Idle? &&
             t.workers == s.workers[w := Holding(j)]
    ensures BusyElsewhere(t, w, j)
  {
    assert v != w;
    assert Busy(t, v);
  }

  ghost predicate ClaimsFree(s: State, step: Step) { step.ClaimJob? ==> !BusyElsewhere(s, step.w, step.j) }

  lemma ExclusiveStep(s: State, settings: Settings, step: Step)
    requires Exclusive(s) && Enabled(s, step)
    ensures Exclusive(Apply(s, settings, step)) <==> ClaimsFree(s, step)
  {
    var t := Apply(s, settings, step);
    if step.ClaimJob? {
      ExclusiveClaim(s, t, step.w, step.j);
    } else {
      forall v | Busy(t, v)
        ensures Busy(s, v) && s.workers[v].job == t.workers[v].job
      {
      }
    }
  }

  lemma ExclusiveClaim(s: State, t: State, w: WorkerId, j: JobId)
    requires Exclusive(s) && !Busy(s, w) && t.workers == s.workers[w := Holding(j)]
    ensures Exclusive(t) <==> !BusyElsewhere(s, w, j)
  {
    assert Busy(t, w);
    if v :| v != w && Busy(s, v) && s.workers[v].job == j {
      assert Busy(t, v);
    } else {
      forall v | v != w && Busy(t, v)
        ensures Busy(s, v) && s.workers[v].job == t.workers[v].job && t.workers[v].job != j
      {
        assert Busy(s, v);
      }
    }
  }

  ghost predicate ExclusiveAt(now: int, settings: Settings, steps: seq<Step>, n: nat)
    requires n <= |steps|
  {
    Exclusive(Exec(now, settings, steps[..n]))
  }

  ghost predicate FreeAt(now: int, settings: Settings, steps: seq<Step>, n: nat)
    requires n < |steps|
  {
    ClaimsFree(Exec(now, settings, steps[..n]), steps[n])
  }

  lemma ExclusiveNext(now: int, settings: Settings, steps: seq<Step>, n: nat)
    requires Possible(now, settings, steps) && n < |steps| && ExclusiveAt(now, settings, steps, n)
    ensures ExclusiveAt(now, settings, steps, n + 1) <==> FreeAt(now, settings, steps, n)
  {
    ExecNext(now, settings, steps, n);
    ExclusiveStep(Exec(now, settings, steps[..n]), settings, steps[n]);
  }

  lemma {:induction false} FreeIsExclusive(now: int, settings: Settings, steps: seq<Step>, n: nat)
    requires Possible(now, settings, steps) && n <= |steps|
    requires forall m :: 0 <= m < n ==> FreeAt(now, settings, steps, m)
    ensures ExclusiveAt(now, settings, steps, n)
  {
    if n > 0 {
      FreeIsExclusive(now, settings, steps, n - 1);
      ExclusiveNext(now, settings, steps, n - 1);
    }
  }

  /** Throughout a run no two workers work on one job if and only if no claim takes a job that some
      other worker still works on. */
  lemma ExclusiveIff(now: int, settings: Settings, steps: seq<Step>)
    requires Possible(now, settings, steps)
    ensures (forall n :: 0 <= n <= |steps| ==> ExclusiveAt(now, settings, steps, n)) <==>
            (forall n :: 0 <= n < |steps| ==> FreeAt(now, settings, steps, n))
  {
    if forall n :: 0 <= n < |steps| ==> FreeAt(now, settings, steps, n) {
      forall n | 0 <= n <= |steps|
        ensures ExclusiveAt(now, settings, steps, n)
      {
        FreeIsExclusive(now, settings, steps, n);
      }
    }
    if forall n :: 0 <= n <= |steps| ==> ExclusiveAt(now, settings, steps, n) {
      forall n | 0 <= n < |steps|
        ensures FreeAt(now, settings, steps, n)
      {
        var next := n + 1;
        assert ExclusiveAt(now, settings, steps, next);
        ExclusiveNext(now, settings, steps, n);
      }
    }
  }

  // ---------- Terminal states ----------

  ghost predicate Terminal(s: State, j: JobId)
  {
    j in s.jobs && (s.jobs[j].status == Succeeded || s.jobs[j].status == Failed)
  }

  /** Whatever the leases, a finished job changes only when it is deleted or queued afresh, when the
      tidying up after its result fails, or by a worker that still believes it holds it. */
  lemma FinishedChangesBy(s: State, settings: Settings, step: Step, j: JobId)
    requires Enabled(s, step) && Terminal(s, j)
    requires var t := Apply(s, settings, step); j in t.jobs ==> t.jobs[j] != s.jobs[j]
    ensures step == Delete(j) || QueuesAfresh(s, step, j) ||
            (step.CollectFails? && DoingNow(s, step.w) == Collecting(j)) ||
            ((step.Publish? || step.Fail? || step.Refresh?) && DoingNow(s, step.w) == Holding(j))
  {
  }

  lemma TerminalStep(s: State, settings: Settings, step: Step, j: JobId)
    requires Held(s) && Enabled(s, step) && Terminal(s, j)
    ensures var t := Apply(s, settings, step);
            && (j !in t.jobs <==> step == Delete(j))
            && (j in t.jobs ==>
                 (t.jobs[j] != s.jobs[j] <==>
                  QueuesAfresh(s, step, j) || (step.CollectFails? && DoingNow(s, step.w) == Collecting(j))))
  {
    if !step.Tick? && !step.Create? && !step.RequeueJob? && !step.Delete? && Busy(s, step.w) {
      assert WorkerSound(s, step.w);
    }
  }

  /** As long as no lease lapses while its holder lives, a finished job changes exactly when a failed
      one is queued afresh, or when the tidying up after a published result fails, and goes exactly when
      it is deleted with its snapshot. */
  lemma TerminalChanges(now: int, settings: Settings, steps: seq<Step>, step: Step, j: JobId)
    requires Possible(now, settings, steps) && LeasesKept(now, settings, steps)
    requires Enabled(Exec(now, settings, steps), step) && Terminal(Exec(now, settings, steps), j)
    ensures var s := Exec(now, settings, steps);
            var t := Apply(s, settings, step);
            && (j !in t.jobs <==> step == Delete(j))
            && (j in t.jobs ==>
                 (t.jobs[j] != s.jobs[j] <==>
                  QueuesAfresh(s, step, j) || (step.CollectFails? && DoingNow(s, step.w) == Collecting(j))))
  {
    EveryRunHeld(now, settings, steps);
    TerminalStep(Exec(now, settings, steps), settings, step, j);
  }

  /** A job is created, claimed and published. */
  lemma PublishOne(now: int, settings: Settings) returns (steps: seq<Step>)
    ensures Possible(now, settings, steps) && |steps| == 3
    ensures var s := Exec(now, settings, steps);
            && 0 in s.jobs && s.jobs[0].status == Succeeded && s.jobs[0].attempts == 1
            && 0 in s.workers && s.workers[0] == Collecting(0)
  {
    var claimed := ClaimOne(now, settings);
    steps := PushStep(now, settings, claimed, Publish(0));
  }

  /** The second kind does happen: a job whose chunks were published is queued again when the garbage
      collection after it fails, or fails if no attempt is left. */
  lemma PublishedJobCanFail(now: int, settings: Settings) returns (steps: seq<Step>)
    ensures Possible(now, settings, steps)
    ensures |steps| == 4 && steps[3].CollectFails?
    ensures 0 in Exec(now, settings, steps[..3]).jobs && Exec(now, settings, steps[..3]).jobs[0].status == Succeeded
    ensures 0 in Exec(now, settings, steps).jobs
    ensures Exec(now, settings, steps).jobs[0].status == if settings.maxAttempts > 1 then Queued else Failed
  {
    var published := PublishOne(now, settings);
    steps := PushStep(now, settings, published, CollectFails(0));
    assert steps[..3] == published;
  }

  // ---------- Attempts ----------

  /** Lapsed leases are not counted against the attempts: whatever the number allowed, for every n
      there is a run in which a job is claimed n times because its worker keeps dying. */
  lemma {:induction false} CrashesAreNotCounted(now: int, settings: Settings, n: nat) returns (steps: seq<Step>)
    ensures Possible(now, settings, steps)
    ensures NoFailures(steps)
    ensures CrashLoop(Exec(now, settings, steps), n)
  {
    if n == 0 {
      steps := PushStep(now, settings, [], Create(0));
    } else {
      var before := CrashesAreNotCounted(now, settings, n - 1);
      steps := CrashRound(now, settings, before, n - 1);
    }
  }

  ghost predicate NoFailures(steps: seq<Step>)
  {
    forall i :: 0 <= i < |steps| ==> !steps[i].Fail? && !steps[i].CollectFails?
  }

  lemma CrashRound(now: int, settings: Settings, before: seq<Step>, n: nat) returns (steps: seq<Step>)
    requires Possible(now, settings, before) && NoFailures(before) && CrashLoop(Exec(now, settings, before), n)
    ensures Possible(now, settings, steps) && NoFailures(steps) && CrashLoop(Exec(now, settings, steps), n + 1)
  {
    var later := Exec(now, settings, before).now + settings.leaseSeconds * SECOND + 1;
    OnceMore(Exec(now, settings, before), settings, n);
    var claimed := PushStep(now, settings, before, ClaimJob(0, 0));
    var crashed := PushStep(now, settings, claimed, Crash(0));
    steps := PushStep(now, settings, crashed, Tick(later));
  }

  /** The only job has been claimed n times; its last worker has died and the lease has lapsed. */
  ghost predicate CrashLoop(s: State, n: nat)
  {
    && s.jobs.Keys == {0} && s.jobs[0].attempts == n && s.jobs[0].nextAttempt == None
    && (forall w :: w in s.workers ==> s.workers[w].Idle?)
    && if n == 0 then s.jobs[0].status == Queued else Lapsed(s.jobs[0], s.now)
  }

  lemma OnceMore(s: State, settings: Settings, n: nat)
    requires CrashLoop(s, n)
    ensures Enabled(s, ClaimJob(0, 0))
    ensures var claimed := Apply(s, settings, ClaimJob(0, 0));
            var crashed := Apply(claimed, settings, Crash(0));
            var later := s.now + settings.leaseSeconds * SECOND + 1;
            Enabled(crashed, Tick(later)) && CrashLoop(Apply(crashed, settings, Tick(later)), n + 1)
  {
    var claimed := Apply(s, settings, ClaimJob(0, 0));
    assert claimed.jobs.Keys == {0};
    assert claimed.jobs[0].attempts == n + 1;
  }

  lemma PushStep(now: int, settings: Settings, steps: seq<Step>, step: Step) returns (longer: seq<Step>)
    requires Possible(now, settings, steps) && Enabled(Exec(now, settings, steps), step)
    ensures longer == steps + [step] && Possible(now, settings, longer)
    ensures NoFailures(steps) && !step.Fail? && !step.CollectFails? ==> NoFailures(longer)
    ensures Exec(now, settings, longer) == Apply(Exec(now, settings, steps), settings, step)
  {
    longer := steps + [step];
    ExecPush(now, settings, steps, step);
    forall i | 0 <= i < |longer|
      ensures Enabled(Exec(now, settings, longer[..i]), longer[i])
    {
      if i < |steps| { assert longer[..i] == steps[..i]; } else { assert longer[..i] == steps; }
    }
  }
}
