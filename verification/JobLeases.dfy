/** What a lease is worth: a job that its holder has claimed or renewed is safe for the lease time, so
    holders that renew in time never share a job. */
module JobLeases {
  import opened JobQueue

  function LeaseTime(settings: Settings): int { settings.leaseSeconds * SECOND }

  /** The job runs on a lease that lasts at least until then, unless it has been deleted. */
  ghost predicate LeasedUntil(s: State, j: JobId, until: int)
  {
    || (j !in s.jobs && j in s.gone)
    || (j in s.jobs && s.jobs[j].status == Running && s.jobs[j].lease.Some? && s.jobs[j].lease.value >= until)
  }

  /** A worker writes the end of its task to the job. */
  predicate EndsJob(s: State, step: Step, j: JobId)
  {
    || ((step.Publish? || step.Fail?) && DoingNow(s, step.w) == Holding(j))
    || (step.CollectFails? && DoingNow(s, step.w) == Collecting(j))
  }

  /** The worker claims the job, or renews its lease while it runs. */
  ghost predicate Renews(s: State, step: Step, w: WorkerId, j: JobId)
  {
    || step == ClaimJob(w, j)
    || ((step == Beat(w) || step == Refresh(w)) && DoingNow(s, w) == Holding(j) &&
        j in s.jobs && s.jobs[j].status == Running)
  }

  lemma RenewalLeases(s: State, settings: Settings, step: Step, w: WorkerId, j: JobId)
    requires Enabled(s, step) && Renews(s, step, w, j)
    ensures LeasedUntil(Apply(s, settings, step), j, s.now + LeaseTime(settings))
  {
  }

  lemma LeaseStep(s: State, settings: Settings, step: Step, j: JobId, until: int)
    requires Enabled(s, step) && LeasedUntil(s, j, until) && !EndsJob(s, step, j)
    requires s.now <= until <= s.now + LeaseTime(settings)
    ensures LeasedUntil(Apply(s, settings, step), j, until)
  {
  }

  lemma {:induction false} TimePasses(now: int, settings: Settings, steps: seq<Step>, i: nat, k: nat)
    requires Possible(now, settings, steps) && i <= k <= |steps|
    ensures Exec(now, settings, steps[..i]).now <= Exec(now, settings, steps[..k]).now
    decreases k
  {
    if i < k {
      TimePasses(now, settings, steps, i, k - 1);
      ExecNext(now, settings, steps, k - 1);
      StepTakesTime(Exec(now, settings, steps[..k - 1]), settings, steps[k - 1]);
    }
  }

  lemma StepTakesTime(s: State, settings: Settings, step: Step)
    requires Enabled(s, step)
    ensures s.now <= Apply(s, settings, step).now
  {
  }

  /** No worker ends the job in the steps from i to k - 1. */
  ghost predicate Unended(now: int, settings: Settings, steps: seq<Step>, i: nat, k: nat, j: JobId)
    requires k <= |steps|
  {
    forall m :: i <= m < k ==> !EndsJob(Exec(now, settings, steps[..m]), steps[m], j)
  }

  /** In every run, stale workers included: a job that a worker claims or renews stays on its lease for
      the lease time, as long as no worker ends it. */
  lemma {:induction false} LeaseHolds(now: int, settings: Settings, steps: seq<Step>, i: nat, k: nat, w: WorkerId,
                                      j: JobId)
    requires Possible(now, settings, steps) && i < k <= |steps| && Unended(now, settings, steps, i + 1, k, j)
    requires Renews(Exec(now, settings, steps[..i]), steps[i], w, j)
    requires Exec(now, settings, steps[..k]).now <= Exec(now, settings, steps[..i]).now + LeaseTime(settings)
    ensures LeasedUntil(Exec(now, settings, steps[..k]), j, Exec(now, settings, steps[..i]).now + LeaseTime(settings))
    decreases k
  {
    var n := k - 1;
    ExecNext(now, settings, steps, n);
    if n == i {
      RenewalLeases(Exec(now, settings, steps[..i]), settings, steps[i], w, j);
    } else {
      TimePasses(now, settings, steps, i, n);
      TimePasses(now, settings, steps, n, k);
      LeaseHolds(now, settings, steps, i, n, w, j);
      LeaseStep(Exec(now, settings, steps[..n]), settings, steps[n], j,
                Exec(now, settings, steps[..i]).now + LeaseTime(settings));
    }
  }

  /** So nobody claims it before the lease time is over. */
  lemma NotClaimedEarly(now: int, settings: Settings, steps: seq<Step>, i: nat, k: nat, w: WorkerId, j: JobId)
    requires Possible(now, settings, steps) && i < k < |steps| && Unended(now, settings, steps, i + 1, k, j)
    requires Renews(Exec(now, settings, steps[..i]), steps[i], w, j)
    requires steps[k].ClaimJob? && steps[k].j == j
    ensures Exec(now, settings, steps[..k]).now > Exec(now, settings, steps[..i]).now + LeaseTime(settings)
  {
    if Exec(now, settings, steps[..k]).now <= Exec(now, settings, steps[..i]).now + LeaseTime(settings) {
      LeaseHolds(now, settings, steps, i, k, w, j);
    }
  }

  // ---------- Holders that renew in time ----------

  /** The worker has held the job since it claimed or renewed it at step i, and that was no longer ago
      than the lease time. */
  ghost predicate FreshSince(now: int, settings: Settings, steps: seq<Step>, i: nat, n: nat, w: WorkerId, j: JobId)
    requires n <= |steps|
  {
    && i < n && Renews(Exec(now, settings, steps[..i]), steps[i], w, j)
    && Exec(now, settings, steps[..n]).now <= Exec(now, settings, steps[..i]).now + LeaseTime(settings)
    && forall m :: i < m <= n ==> DoingNow(Exec(now, settings, steps[..m]), w) == Holding(j)
  }

  ghost predicate HolderFresh(now: int, settings: Settings, steps: seq<Step>, n: nat, w: WorkerId)
    requires n <= |steps|
  {
    DoingNow(Exec(now, settings, steps[..n]), w).Holding? ==>
      exists i :: FreshSince(now, settings, steps, i, n, w, DoingNow(Exec(now, settings, steps[..n]), w).job)
  }

  /** At every claim each live holder has claimed or renewed within the lease time. */
  ghost predicate RenewedInTime(now: int, settings: Settings, steps: seq<Step>)
  {
    forall n, w :: 0 <= n < |steps| && (steps[n].ClaimJob? || steps[n].ClaimNothing?) ==>
      HolderFresh(now, settings, steps, n, w)
  }

  /** While leases were kept, nobody ends a job that another worker holds. */
  lemma NoStranger(now: int, settings: Settings, steps: seq<Step>, m: nat, w: WorkerId, j: JobId)
    requires Possible(now, settings, steps) && m < |steps| && LeasesKept(now, settings, steps[..m])
    requires DoingNow(Exec(now, settings, steps[..m]), w) == Holding(j)
    requires DoingNow(Exec(now, settings, steps[..m + 1]), w) == Holding(j)
    ensures !EndsJob(Exec(now, settings, steps[..m]), steps[m], j)
  {
    PossibleUpTo(now, settings, steps, m);
    EveryRunHeld(now, settings, steps[..m]);
    ExecNext(now, settings, steps, m);
    var s, step := Exec(now, settings, steps[..m]), steps[m];
    if EndsJob(s, step, j) {
      assert Busy(s, w) && Busy(s, step.w);
      EndsHolding(s, settings, step, j);
    }
  }

  lemma EndsHolding(s: State, settings: Settings, step: Step, j: JobId)
    requires EndsJob(s, step, j)
    ensures DoingNow(Apply(s, settings, step), step.w) != Holding(j)
  {
  }

  lemma KeptPrefix(now: int, settings: Settings, steps: seq<Step>, n: nat, m: nat)
    requires m <= n <= |steps| && LeasesKept(now, settings, steps[..n])
    ensures LeasesKept(now, settings, steps[..m])
  {
    KeptUpTo(now, settings, steps[..n], m);
    assert steps[..n][..m] == steps[..m];
  }

  lemma FreshIsUnended(now: int, settings: Settings, steps: seq<Step>, i: nat, n: nat, w: WorkerId, j: JobId)
    requires Possible(now, settings, steps) && n <= |steps| && LeasesKept(now, settings, steps[..n])
    requires FreshSince(now, settings, steps, i, n, w, j)
    ensures Unended(now, settings, steps, i + 1, n, j)
  {
    forall m | i + 1 <= m < n
      ensures !EndsJob(Exec(now, settings, steps[..m]), steps[m], j)
    {
      KeptPrefix(now, settings, steps, n, m);
      NoStranger(now, settings, steps, m, w, j);
    }
  }

  /** At a claim, no holder's lease has lapsed. */
  lemma FreshLeasesHeld(now: int, settings: Settings, steps: seq<Step>, n: nat)
    requires Possible(now, settings, steps) && n < |steps| && LeasesKept(now, settings, steps[..n])
    requires forall w :: HolderFresh(now, settings, steps, n, w)
    ensures LeasesHeld(Exec(now, settings, steps[..n]))
  {
    var s := Exec(now, settings, steps[..n]);
    forall w | w in s.workers && s.workers[w].Holding? && s.workers[w].job in s.jobs
      ensures !Lapsed(s.jobs[s.workers[w].job], s.now)
    {
      var j := s.workers[w].job;
      assert HolderFresh(now, settings, steps, n, w);
      var i :| FreshSince(now, settings, steps, i, n, w, j);
      FreshIsUnended(now, settings, steps, i, n, w, j);
      LeaseHolds(now, settings, steps, i, n, w, j);
    }
  }

  lemma {:induction false} InTimeUpTo(now: int, settings: Settings, steps: seq<Step>, n: nat)
    requires Possible(now, settings, steps) && RenewedInTime(now, settings, steps) && n <= |steps|
    ensures LeasesKept(now, settings, steps[..n])
  {
    if n > 0 {
      var m := n - 1;
      InTimeUpTo(now, settings, steps, m);
      if steps[m].ClaimJob? || steps[m].ClaimNothing? {
        forall w
          ensures HolderFresh(now, settings, steps, m, w)
        {
        }
        FreshLeasesHeld(now, settings, steps, m);
      }
      KeptNext(now, settings, steps, m);
    }
  }

  lemma KeptNext(now: int, settings: Settings, steps: seq<Step>, m: nat)
    requires m < |steps| && LeasesKept(now, settings, steps[..m])
    requires steps[m].ClaimJob? || steps[m].ClaimNothing? ==> LeasesHeld(Exec(now, settings, steps[..m]))
    ensures LeasesKept(now, settings, steps[..m + 1])
  {
    var longer := steps[..m + 1];
    forall i | 0 <= i < |longer| && (longer[i].ClaimJob? || longer[i].ClaimNothing?)
      ensures LeasesHeld(Exec(now, settings, longer[..i]))
    {
      assert longer[..i] == steps[..i];
      if i < m { assert steps[..m][..i] == steps[..i]; }
    }
  }

  /** The purpose of leases: if at every claim each live holder has claimed or renewed within the lease
      time, no lease lapses while its holder lives, and no two workers work on one job. */
  lemma RenewingKeepsExclusive(now: int, settings: Settings, steps: seq<Step>)
    requires Possible(now, settings, steps) && RenewedInTime(now, settings, steps)
    ensures LeasesKept(now, settings, steps)
    ensures Exclusive(Exec(now, settings, steps))
  {
    InTimeUpTo(now, settings, steps, |steps|);
    assert steps[..|steps|] == steps;
    EveryRunHeld(now, settings, steps);
  }

  /** And what leases are for when a worker dies: in every run a job whose lease has lapsed is waiting to
      be run again, so a worker that asks for one does not go away with nothing. */
  lemma LapsedIsTakenUp(now: int, settings: Settings, steps: seq<Step>, j: JobId, w: WorkerId)
    requires Possible(now, settings, steps) && j in Exec(now, settings, steps).jobs
    requires Lapsed(Exec(now, settings, steps).jobs[j], Exec(now, settings, steps).now)
    ensures Due(Exec(now, settings, steps).jobs[j], Exec(now, settings, steps).now)
    ensures !Enabled(Exec(now, settings, steps), ClaimNothing(w))
  {
    var s := Exec(now, settings, steps);
    RunGuarantees(now, settings, steps, j);
    DueIsEligible(s.jobs, s.now);
  }
}
