/** What it takes of the worker and the processors that incremental chunking always agrees with
    chunking from scratch. */
module ArtifactRequests {
  import opened ArtifactStore
  import opened ArtifactRecords
  import opened ArtifactReuse
  import opened ArtifactOutcomes

  // ---------- Runs under the jobs' own profiles ----------

  ghost predicate OwnStep(s: State, step: Step)
  {
    step.Publish? && step.w in s.pending ==> step.running == s.pending[step.w].job.profile
  }

  /** Every publication of the run is by a processor under the profile of its job. */
  ghost predicate OwnProfiles(policy: Policy, steps: seq<Step>)
    decreases |steps|
  {
    steps != [] ==>
      OwnProfiles(policy, steps[..|steps| - 1]) && OwnStep(Exec(policy, steps[..|steps| - 1]), steps[|steps| - 1])
  }

  /** Artifacts and rows come from requests under the profile they are stored with. */
  ghost predicate OwnHistory(s: State)
  {
    && (forall id :: id in s.tables.artifacts && id in s.history.made ==>
         s.history.made[id].profile == s.tables.artifacts[id].profile)
    && (forall k :: k in s.tables.rows && k in s.history.origins ==> s.history.origins[k].profile == k.profile)
  }

  /** A published row comes from a request under the job's profile. */
  lemma OwnOrigin(t: Tables, after: Tables, h: History, b: Batch, skips: Path -> bool, request: Request, k: Key)
    requires Recorded(t, after, b, skips) && AllReuseSafe(b, t, skips)
    requires request.profile == b.job.profile && k in after.rows && OfJob(k, b.job)
    requires forall id :: id in t.artifacts ==> id in h.made && h.made[id].profile == t.artifacts[id].profile
    ensures Origin(b, h.made, request, k.path).profile == k.profile
  {
    assert k !in Without(t.rows, b.job);
    var i :| 0 <= i < |b.entries| && b.entries[i].path == k.path;
    assert EntryRecorded(t.artifacts, t.next, after.rows, after.artifacts, b, skips, b.entries[i]);
    assert ReuseSafe(b, t, skips, b.entries[i]);
  }

  lemma OwnArtifact(t: Tables, after: Tables, h: History, b: Batch, skips: Path -> bool, request: Request,
                    id: ArtifactId)
    requires Recorded(t, after, b, skips) && id in after.artifacts && request.profile == b.job.profile
    requires forall id :: id in t.artifacts ==> id in h.made && h.made[id].profile == t.artifacts[id].profile
    ensures var made := Extended(h, t, after, b, request).made;
            id in made && made[id].profile == after.artifacts[id].profile
  {
    MadeAfter(h, t, after, b, request, id);
    if id >= t.next {
      assert AnswerAmong(after.artifacts[id], b, skips, |b.entries|);
      var i :| 0 <= i < |b.entries| && AnswerAbout(after.artifacts[id], b, skips, b.entries[i]);
    }
  }

  /** The rows of the published job get its origins, the others keep theirs. */
  lemma OriginsAfter(h: History, t: Tables, after: Tables, b: Batch, request: Request, k: Key)
    requires k in after.rows
    ensures var origins := Extended(h, t, after, b, request).origins;
            if OfJob(k, b.job) then k in origins && origins[k] == Origin(b, h.made, request, k.path)
            else (k in origins <==> k in h.origins) && (k in origins ==> origins[k] == h.origins[k])
  {
  }

  lemma OwnPublish(s: State, policy: Policy, step: Step)
    requires Inv(s, policy) && OwnHistory(s) && Publishes(s, policy, step) && OwnStep(s, step)
    ensures OwnHistory(Apply(s, policy, step))
  {
    var b := s.pending[step.w].(events := step.events);
    var request, after := RequestOf(b, policy.skips, step.running), Apply(s, policy, step);
    BatchReady(s, policy, step);
    PublishedRecords(s.tables, b, policy.skips);
    forall id | id in after.tables.artifacts && id in after.history.made
      ensures after.history.made[id].profile == after.tables.artifacts[id].profile
    {
      OwnArtifact(s.tables, after.tables, s.history, b, policy.skips, request, id);
    }
    forall k | k in after.tables.rows && k in after.history.origins
      ensures after.history.origins[k].profile == k.profile
    {
      OriginsAfter(s.history, s.tables, after.tables, b, request, k);
      if OfJob(k, b.job) { OwnOrigin(s.tables, after.tables, s.history, b, policy.skips, request, k); }
    }
  }

  lemma OwnStepKeeps(s: State, policy: Policy, step: Step)
    requires Inv(s, policy) && OwnHistory(s) && Enabled(s, policy, step) && OwnStep(s, step)
    ensures OwnHistory(Apply(s, policy, step))
  {
    if Publishes(s, policy, step) { OwnPublish(s, policy, step); }
  }

  lemma {:induction false} OwnRun(policy: Policy, steps: seq<Step>)
    requires Possible(policy, steps) && OwnProfiles(policy, steps)
    ensures OwnHistory(Exec(policy, steps))
  {
    if steps != [] {
      var before := steps[..|steps| - 1];
      OwnRun(policy, before);
      EveryRunSound(policy, before);
      OwnStepKeeps(Exec(policy, before), policy, steps[|steps| - 1]);
    }
  }

  // ---------- Incremental equals from scratch ----------

  predicate MadeAlike(policy: Policy, profile: Profile, xs: seq<Entry>, ys: seq<Entry>, e: Entry)
  {
    Made(policy, Request(profile, xs), e) == Made(policy, Request(profile, ys), e)
  }

  /** What the worker makes of a file does not depend on the other files of the request. */
  ghost predicate Independent(policy: Policy)
  {
    forall profile, xs, ys, e :: e in xs && e in ys && Proper(xs, policy.skips) && Proper(ys, policy.skips) ==>
      MadeAlike(policy, profile, xs, ys, e)
  }

  lemma AskedProper(entries: seq<Entry>, policy: Policy, e: Entry)
    requires DistinctPaths(entries) && e in entries && !policy.skips(e.path)
    ensures var files := Asked(entries, policy.skips, map[]); e in files && Proper(files, policy.skips)
  {
    var b := Batch(Job(0, ""), 0, entries, map[], map[]);
    RequestProper(b, policy, "", e);
  }

  function AllReached(t: Tables, job: Job, entries: seq<Entry>): seq<Chunk>
  {
    if entries == [] then [] else Reached(t, job, entries[0]) + AllReached(t, job, entries[1..])
  }

  function AllMade(policy: Policy, r: Request, entries: seq<Entry>): seq<Chunk>
  {
    if entries == [] then [] else Made(policy, r, entries[0]) + AllMade(policy, r, entries[1..])
  }

  lemma {:induction false} AllAlike(t: Tables, job: Job, policy: Policy, r: Request, entries: seq<Entry>)
    requires forall i :: 0 <= i < |entries| ==> Reached(t, job, entries[i]) == Made(policy, r, entries[i])
    ensures AllReached(t, job, entries) == AllMade(policy, r, entries)
  {
    if entries != [] { AllAlike(t, job, policy, r, entries[1..]); }
  }

  /** If processors run under the profiles of their jobs, and the worker makes the same of a file
      whatever it is asked with, then after any run a published snapshot reaches file by file and in
      order the chunks that chunking it from scratch would give. */
  lemma IncrementalEqualsFromScratch(policy: Policy, steps: seq<Step>, job: Job)
    requires Possible(policy, steps) && OwnProfiles(policy, steps) && Independent(policy)
    requires job in Exec(policy, steps).tables.reports
    ensures var t := Exec(policy, steps).tables;
            job.snapshot in t.snapshots && AsFromScratch(t, policy, job) &&
            var entries := t.snapshots[job.snapshot].entries;
            AllReached(t, job, entries) == AllMade(policy, Afresh(job, entries, policy.skips), entries)
  {
    EveryRunSound(policy, steps);
    OwnRun(policy, steps);
    var s := Exec(policy, steps);
    assert JobRight(s.tables, s.history, job, policy);
    var entries := s.tables.snapshots[job.snapshot].entries;
    forall i | 0 <= i < |entries|
      ensures Reached(s.tables, job, entries[i]) == Made(policy, Afresh(job, entries, policy.skips), entries[i])
    {
      EntryAgrees(policy, steps, job, entries[i]);
    }
    AllAlike(s.tables, job, policy, Afresh(job, entries, policy.skips), entries);
  }

  lemma EntryAgrees(policy: Policy, steps: seq<Step>, job: Job, e: Entry)
    requires Possible(policy, steps) && OwnHistory(Exec(policy, steps)) && Independent(policy)
    requires var t := Exec(policy, steps).tables;
             job in t.reports && job.snapshot in t.snapshots && e in t.snapshots[job.snapshot].entries
    ensures var t := Exec(policy, steps).tables;
            var entries := t.snapshots[job.snapshot].entries;
            Reached(t, job, e) == Made(policy, Afresh(job, entries, policy.skips), e)
  {
    var s := Exec(policy, steps);
    var entries := s.tables.snapshots[job.snapshot].entries;
    ReachesOrigins(policy, steps, job, e);
    if !policy.skips(e.path) {
      var origin := s.history.origins[KeyOf(job, e)];
      RowExists(policy, steps, job, e);
      AskedProper(entries, policy, e);
      assert MadeAlike(policy, job.profile, origin.files, Asked(entries, policy.skips, map[]), e);
      assert origin == Request(job.profile, origin.files);
    }
  }

  lemma RowExists(policy: Policy, steps: seq<Step>, job: Job, e: Entry)
    requires Possible(policy, steps)
    requires var t := Exec(policy, steps).tables;
             job in t.reports && job.snapshot in t.snapshots && e in t.snapshots[job.snapshot].entries
    ensures KeyOf(job, e) in Exec(policy, steps).tables.rows
  {
    EveryRunSound(policy, steps);
    var s := Exec(policy, steps);
    assert JobRight(s.tables, s.history, job, policy);
    var snapshot := s.tables.snapshots[job.snapshot];
    var i :| 0 <= i < |snapshot.entries| && snapshot.entries[i] == e;
    assert EntryRight(s.tables, s.history, job, snapshot.repository, snapshot.entries[i], policy);
  }

  predicate KindAlike(policy: Policy, profile: Profile, xs: seq<Entry>, ys: seq<Entry>, e: Entry)
  {
    KindOf(policy, Request(profile, xs), e) == KindOf(policy, Request(profile, ys), e)
  }

  /** Whether a file succeeds, is skipped or fails does not depend on the other files of the request. */
  ghost predicate KindsIndependent(policy: Policy)
  {
    forall profile, xs, ys, e :: e in xs && e in ys && Proper(xs, policy.skips) && Proper(ys, policy.skips) ==>
      KindAlike(policy, profile, xs, ys, e)
  }

  function Repeat(r: Request, n: nat): (requests: seq<Request>)
    ensures |requests| == n && forall i :: 0 <= i < n ==> requests[i] == r
  {
    seq(n, i => r)
  }

  lemma OriginKind(policy: Policy, steps: seq<Step>, job: Job, e: Entry)
    requires Possible(policy, steps) && OwnProfiles(policy, steps) && KindsIndependent(policy)
    requires var t := Exec(policy, steps).tables;
             job in t.reports && job.snapshot in t.snapshots && e in t.snapshots[job.snapshot].entries
    ensures var s := Exec(policy, steps);
            var entries := s.tables.snapshots[job.snapshot].entries;
            KeyOf(job, e) in s.history.origins &&
            KindOf(policy, s.history.origins[KeyOf(job, e)], e) == KindOf(policy, Afresh(job, entries, policy.skips), e)
  {
    var s := Exec(policy, steps);
    var entries := s.tables.snapshots[job.snapshot].entries;
    ReachesOrigins(policy, steps, job, e);
    if !policy.skips(e.path) {
      var origin := s.history.origins[KeyOf(job, e)];
      OwnRun(policy, steps);
      RowExists(policy, steps, job, e);
      AskedProper(entries, policy, e);
      assert KindAlike(policy, job.profile, origin.files, Asked(entries, policy.skips, map[]), e);
      assert origin == Request(job.profile, origin.files);
    }
  }

  /** Under the same conditions, with outcomes for chunks, a report counts what chunking the snapshot
      from scratch would count, whatever was reused. */
  lemma ReportAsFromScratch(policy: Policy, steps: seq<Step>, step: Step)
    requires Possible(policy, steps) && OwnProfiles(policy, steps) && KindsIndependent(policy)
    requires Publishes(Exec(policy, steps), policy, step) && OwnStep(Exec(policy, steps), step)
    ensures var b, t := Exec(policy, steps).pending[step.w], Apply(Exec(policy, steps), policy, step).tables;
            b.job in t.reports &&
            ReportCounts(t.reports[b.job], policy, Repeat(Afresh(b.job, b.entries, policy.skips), |b.entries|),
                         b.entries)
  {
    var s := Exec(policy, steps);
    var b := s.pending[step.w].(events := step.events);
    var requests := Origins(b, s.history.made, RequestOf(b, policy.skips, step.running));
    var afresh := Repeat(Afresh(b.job, b.entries, policy.skips), |b.entries|);
    ReportAsMade(policy, steps, step);
    PushStep(policy, steps, step);
    EveryRunSound(policy, steps);
    BatchReady(s, policy, step);
    forall i | 0 <= i < |b.entries|
      ensures KindOf(policy, requests[i], b.entries[i]) == KindOf(policy, afresh[i], b.entries[i])
    {
      OriginKind(policy, steps + [step], b.job, b.entries[i]);
    }
    AllCountedAlike(policy, requests, afresh, b.entries);
  }

  lemma AllCountedAlike(policy: Policy, xs: seq<Request>, ys: seq<Request>, entries: seq<Entry>)
    requires |entries| == |xs| == |ys|
    requires forall i :: 0 <= i < |xs| ==> KindOf(policy, xs[i], entries[i]) == KindOf(policy, ys[i], entries[i])
    ensures forall r :: ReportCounts(r, policy, xs, entries) <==> ReportCounts(r, policy, ys, entries)
  {
    forall kind
      ensures CountOf(policy, xs, kind, entries, |entries|) == CountOf(policy, ys, kind, entries, |entries|)
    {
      CountedAlike(policy, xs, ys, kind, entries, |entries|);
    }
  }

  // ---------- A publication with a fresh look-up and full answers ----------

  /** Some artifact for each entry that has one. */
  ghost function Lookup(artifacts: Artifacts, repository: RepositoryId, entries: seq<Entry>, profile: Profile,
                        skips: Path -> bool): map<Path, ArtifactId>
  {
    if entries == [] then map[]
    else
      var e := entries[|entries| - 1];
      var before := Lookup(artifacts, repository, entries[..|entries| - 1], profile, skips);
      if !skips(e.path) && HasMatch(artifacts, repository, e, profile) then
        var id :| id in artifacts && Matches(artifacts[id], repository, e, profile);
        before[e.path := id]
      else before
  }

  lemma {:induction false} LookupFound(artifacts: Artifacts, repository: RepositoryId, entries: seq<Entry>,
                                       profile: Profile, skips: Path -> bool)
    requires DistinctPaths(entries)
    ensures Found(artifacts, repository, entries, profile, skips,
                  Lookup(artifacts, repository, entries, profile, skips))
  {
    if entries != [] {
      LookupFound(artifacts, repository, entries[..|entries| - 1], profile, skips);
      LookupNext(artifacts, repository, entries, profile, skips);
    }
  }

  lemma LookupNext(artifacts: Artifacts, repository: RepositoryId, entries: seq<Entry>, profile: Profile,
                   skips: Path -> bool)
    requires DistinctPaths(entries) && entries != []
    requires var front := entries[..|entries| - 1];
             Found(artifacts, repository, front, profile, skips, Lookup(artifacts, repository, front, profile, skips))
    ensures Found(artifacts, repository, entries, profile, skips,
                  Lookup(artifacts, repository, entries, profile, skips))
  {
    var n := |entries| - 1;
    var before := Lookup(artifacts, repository, entries[..n], profile, skips);
    var all := Lookup(artifacts, repository, entries, profile, skips);
    forall i | 0 <= i < n
      ensures ReuseRight(artifacts, repository, entries[i], profile, skips, all)
    {
      assert ReuseRight(artifacts, repository, entries[..n][i], profile, skips, before);
    }
    forall path | path in before
      ensures ListsUpTo(entries, n, path)
    {
      var i :| 0 <= i < n && entries[..n][i].path == path;
      assert entries[i].path == path;
    }
    LookupPaths(entries, before, all);
  }

  lemma LookupPaths(entries: seq<Entry>, before: map<Path, ArtifactId>, all: map<Path, ArtifactId>)
    requires DistinctPaths(entries) && entries != []
    requires forall path :: path in before ==> ListsUpTo(entries, |entries| - 1, path)
    requires forall path :: path in all ==> path in before || path == entries[|entries| - 1].path
    ensures entries[|entries| - 1].path !in before
    ensures forall path :: path in all ==> exists i :: 0 <= i < |entries| && entries[i].path == path
  {
    var n := |entries| - 1;
    assert !ListsUpTo(entries, n, entries[n].path);
    forall path | path in all
      ensures exists i :: 0 <= i < |entries| && entries[i].path == path
    {
      if path in before { assert ListsUpTo(entries, n, path); } else { assert entries[n].path == path; }
    }
  }

  function AnswersTo(policy: Policy, r: Request, entries: seq<Entry>): map<Path, Outcome>
  {
    if entries == [] then map[]
    else
      var e := entries[|entries| - 1];
      AnswersTo(policy, r, entries[..|entries| - 1])[e.path := policy.chunk(r, e)]
  }

  lemma {:induction false} AnswersToRight(policy: Policy, r: Request, entries: seq<Entry>, i: nat)
    requires DistinctPaths(entries) && i < |entries|
    ensures var answers := AnswersTo(policy, r, entries);
            entries[i].path in answers && answers[entries[i].path] == policy.chunk(r, entries[i])
  {
    var n := |entries| - 1;
    if i < n { AnswersToRight(policy, r, entries[..n], i); }
  }

  ghost function BatchFor(s: State, policy: Policy, job: Job, entries: seq<Entry>, running: Profile): Batch
  {
    var reusable := Lookup(s.tables.artifacts, 0, entries, job.profile, policy.skips);
    var r := Request(running, Asked(entries, policy.skips, reusable));
    Batch(job, 0, entries, reusable, AnswersTo(policy, r, entries))
  }

  lemma BatchAnswered(s: State, policy: Policy, job: Job, entries: seq<Entry>, running: Profile)
    requires DistinctPaths(entries)
    ensures var b := BatchFor(s, policy, job, entries, running);
            Answers(b, policy, running) && Complete(b, policy.skips) &&
            Found(s.tables.artifacts, 0, entries, job.profile, policy.skips, b.reusable)
  {
    var b := BatchFor(s, policy, job, entries, running);
    LookupFound(s.tables.artifacts, 0, entries, job.profile, policy.skips);
    forall i | 0 <= i < |entries|
      ensures entries[i].path in b.events && AnswerRight(b, policy, running, entries[i])
    {
      AnswersToRight(policy, RequestOf(b, policy.skips, running), entries, i);
    }
  }

  /** The batch, published. */
  ghost function AfterRound(s: State, policy: Policy, job: Job, entries: seq<Entry>, running: Profile): State
  {
    var b := BatchFor(s, policy, job, entries, running);
    var found := Apply(Added(s, job, entries), policy, Find(0, job, b.reusable));
    Apply(found, policy, Publish(0, running, b.events))
  }

  ghost function Added(s: State, job: Job, entries: seq<Entry>): State
  {
    s.(tables := s.tables.(snapshots := s.tables.snapshots[job.snapshot := Snapshot(0, entries)]),
       used := s.used + {job.snapshot})
  }

  /** Adding a snapshot, looking up its artifacts and publishing it. */
  ghost function Round(s: State, policy: Policy, job: Job, entries: seq<Entry>, running: Profile): seq<Step>
  {
    var b := BatchFor(s, policy, job, entries, running);
    [Add(job.snapshot, Snapshot(0, entries)), Find(0, job, b.reusable), Publish(0, running, b.events)]
  }

  lemma PushStep(policy: Policy, steps: seq<Step>, step: Step)
    requires Possible(policy, steps) && Enabled(Exec(policy, steps), policy, step)
    ensures Possible(policy, steps + [step]) && Exec(policy, steps + [step]) == Apply(Exec(policy, steps), policy, step)
    ensures OwnProfiles(policy, steps) && OwnStep(Exec(policy, steps), step) ==> OwnProfiles(policy, steps + [step])
  {
    assert (steps + [step])[..|steps|] == steps;
  }

  lemma RoundPossible(policy: Policy, steps: seq<Step>, job: Job, entries: seq<Entry>, running: Profile)
    returns (longer: seq<Step>)
    requires Possible(policy, steps) && job.snapshot !in Exec(policy, steps).used && DistinctPaths(entries)
    ensures longer == steps + Round(Exec(policy, steps), policy, job, entries, running)
    ensures Possible(policy, longer) && Exec(policy, longer) ==
            AfterRound(Exec(policy, steps), policy, job, entries, running)
    ensures OwnProfiles(policy, steps) && running == job.profile ==> OwnProfiles(policy, longer)
  {
    var s := Exec(policy, steps);
    var b := BatchFor(s, policy, job, entries, running);
    BatchAnswered(s, policy, job, entries, running);
    var add, find, publish := Add(job.snapshot, Snapshot(0, entries)), Find(0, job, b.reusable),
      Publish(0, running, b.events);
    PushStep(policy, steps, add);
    PushStep(policy, steps + [add], find);
    var pending := Exec(policy, steps + [add] + [find]).pending[0];
    assert pending.(events := b.events) == b;
    PushStep(policy, steps + [add] + [find], publish);
    longer := steps + [add] + [find] + [publish];
  }

  lemma {:induction false} CountSome(policy: Policy, requests: seq<Request>, entries: seq<Entry>, n: nat, i: nat)
    requires i < n <= |entries| == |requests| && KindOf(policy, requests[i], entries[i]) == Success
    ensures CountOf(policy, requests, Success, entries, n) > 0
  {
    if i < n - 1 { CountSome(policy, requests, entries, n - 1, i); }
  }

  /** One entry that yields a chunk is enough to publish. */
  lemma RoundPublishes(s: State, policy: Policy, job: Job, entries: seq<Entry>, running: Profile, i: nat)
    requires Inv(s, policy) && job.snapshot !in s.used && DistinctPaths(entries) && i < |entries|
    requires var b := BatchFor(s, policy, job, entries, running);
             Made(policy, Origin(b, s.history.made, RequestOf(b, policy.skips, running), entries[i].path),
                  entries[i]) != []
    ensures var b, t := BatchFor(s, policy, job, entries, running), Added(s, job, entries).tables;
            var after := AfterRound(s, policy, job, entries, running);
            && Published(t, b, policy.skips) == Ok(after.tables) && Recorded(t, after.tables, b, policy.skips)
            && after.history == Extended(s.history, t, after.tables, b, RequestOf(b, policy.skips, running))
  {
    var b, t := BatchFor(s, policy, job, entries, running), Added(s, job, entries).tables;
    var requests := Origins(b, s.history.made, RequestOf(b, policy.skips, running));
    BatchAnswered(s, policy, job, entries, running);
    AddKeeps(s.tables, s.history, job.snapshot, Snapshot(0, entries), policy);
    CountSome(policy, requests, entries, |entries|, i);
    FreshPublishes(t, s.history, b, policy, running);
    FoundSafe(t, b, policy.skips);
    PublishedRecords(t, b, policy.skips);
    RoundApplies(s, policy, job, entries, running);
  }

  lemma RoundApplies(s: State, policy: Policy, job: Job, entries: seq<Entry>, running: Profile)
    requires Published(Added(s, job, entries).tables, BatchFor(s, policy, job, entries, running), policy.skips).Ok?
    ensures var b, t := BatchFor(s, policy, job, entries, running), Added(s, job, entries).tables;
            var after := AfterRound(s, policy, job, entries, running);
            && after.tables == Published(t, b, policy.skips).value
            && after.history == Extended(s.history, t, after.tables, b, RequestOf(b, policy.skips, running))
  {
    var b, added := BatchFor(s, policy, job, entries, running), Added(s, job, entries);
    var found := Apply(added, policy, Find(0, job, b.reusable));
    assert found.pending[0].(events := b.events) == b;
    assert AfterRound(s, policy, job, entries, running) == PublishBatch(found, policy, b, running);
  }

  // ---------- Two publications, the second reusing an artifact of the first ----------

  /** The store after a first publication of these files, in which this one got chunks. */
  ghost predicate StoredOnce(s: State, r: Request, profile: Profile, e: Entry)
  {
    && s.used == {0} && HasMatch(s.tables.artifacts, 0, e, profile)
    && forall id :: id in s.tables.artifacts ==> id in s.history.made && s.history.made[id] == r
  }

  /** On an empty store the first publication asks for all files. */
  lemma FirstBatch(policy: Policy, profile: Profile, files: seq<Entry>, running: Profile)
    requires Proper(files, policy.skips)
    ensures var b := BatchFor(Start(), policy, Job(0, profile), files, running);
            b.reusable == map[] && RequestOf(b, policy.skips, running) == Request(running, files)
  {
    LookupEmpty(files, profile, policy.skips);
    AskedAll(files, policy.skips, map[]);
  }

  lemma FirstPublishes(policy: Policy, profile: Profile, files: seq<Entry>, running: Profile, i: nat)
    requires Proper(files, policy.skips) && i < |files| && Made(policy, Request(running, files), files[i]) != []
    ensures var b, t := BatchFor(Start(), policy, Job(0, profile), files, running),
            Added(Start(), Job(0, profile), files).tables;
            var after := AfterRound(Start(), policy, Job(0, profile), files, running);
            && Recorded(t, after.tables, b, policy.skips)
            && after.history == Extended(Start().history, t, after.tables, b, Request(running, files))
  {
    FirstBatch(policy, profile, files, running);
    EveryRunSound(policy, []);
    RoundPublishes(Start(), policy, Job(0, profile), files, running, i);
  }

  lemma FirstMatches(policy: Policy, profile: Profile, files: seq<Entry>, running: Profile, i: nat)
    requires Proper(files, policy.skips) && i < |files| && Made(policy, Request(running, files), files[i]) != []
    ensures var after := AfterRound(Start(), policy, Job(0, profile), files, running).tables;
            HasMatch(after.artifacts, 0, files[i], profile)
  {
    var job, e := Job(0, profile), files[i];
    var b, t := BatchFor(Start(), policy, job, files, running), Added(Start(), job, files).tables;
    var after := AfterRound(Start(), policy, job, files, running).tables;
    FirstBatch(policy, profile, files, running);
    FirstPublishes(policy, profile, files, running, i);
    BatchAnswered(Start(), policy, job, files, running);
    StoresMatch(t, after, b, policy, running, e, i);
  }

  /** A file that gets chunks is stored with the identity it is looked up by. */
  lemma StoresMatch(t: Tables, after: Tables, b: Batch, policy: Policy, running: Profile, e: Entry, i: nat)
    requires Recorded(t, after, b, policy.skips) && Answers(b, policy, running)
    requires i < |b.entries| && b.entries[i] == e && e.path !in b.reusable
    requires Made(policy, RequestOf(b, policy.skips, running), e) != []
    ensures HasMatch(after.artifacts, b.repository, e, b.job.profile)
  {
    assert EntryRecorded(t.artifacts, t.next, after.rows, after.artifacts, b, policy.skips, b.entries[i]);
    assert AnswerRight(b, policy, running, b.entries[i]);
    assert Matches(after.artifacts[after.rows[KeyOf(b.job, e)].artifact], b.repository, e, b.job.profile);
  }

  lemma FirstMade(policy: Policy, profile: Profile, files: seq<Entry>, running: Profile, i: nat, id: ArtifactId)
    requires Proper(files, policy.skips) && i < |files| && Made(policy, Request(running, files), files[i]) != []
    requires id in AfterRound(Start(), policy, Job(0, profile), files, running).tables.artifacts
    ensures var made := AfterRound(Start(), policy, Job(0, profile), files, running).history.made;
            id in made && made[id] == Request(running, files)
  {
    var b, t := BatchFor(Start(), policy, Job(0, profile), files, running),
      Added(Start(), Job(0, profile), files).tables;
    var after := AfterRound(Start(), policy, Job(0, profile), files, running);
    FirstPublishes(policy, profile, files, running, i);
    MadeAfter(Start().history, t, after.tables, b, Request(running, files), id);
  }

  lemma FirstStored(policy: Policy, profile: Profile, files: seq<Entry>, running: Profile, i: nat)
    requires Proper(files, policy.skips) && i < |files| && Made(policy, Request(running, files), files[i]) != []
    ensures StoredOnce(AfterRound(Start(), policy, Job(0, profile), files, running), Request(running, files), profile,
                       files[i])
  {
    FirstMatches(policy, profile, files, running, i);
    forall id | id in AfterRound(Start(), policy, Job(0, profile), files, running).tables.artifacts
      ensures var made := AfterRound(Start(), policy, Job(0, profile), files, running).history.made;
              id in made && made[id] == Request(running, files)
    {
      FirstMade(policy, profile, files, running, i, id);
    }
  }

  lemma FirstRound(policy: Policy, profile: Profile, files: seq<Entry>, running: Profile, i: nat)
    returns (steps: seq<Step>)
    requires Proper(files, policy.skips) && i < |files| && Made(policy, Request(running, files), files[i]) != []
    ensures |steps| == 3 && Possible(policy, steps) && (running == profile ==> OwnProfiles(policy, steps))
    ensures StoredOnce(Exec(policy, steps), Request(running, files), profile, files[i])
    ensures IsRound(steps, Job(0, profile), running)
  {
    FirstStored(policy, profile, files, running, i);
    steps := RoundPossible(policy, [], Job(0, profile), files, running);
  }

  /** The job's snapshot is looked up and published by a processor under the running profile. */
  predicate IsRound(steps: seq<Step>, job: Job, running: Profile)
  {
    |steps| == 3 && steps[1].Find? && steps[1].job == job && steps[2].Publish? && steps[2].running == running
  }

  lemma {:induction false} LookupEmpty(entries: seq<Entry>, profile: Profile, skips: Path -> bool)
    ensures Lookup(map[], 0, entries, profile, skips) == map[]
  {
    if entries != [] { LookupEmpty(entries[..|entries| - 1], profile, skips); }
  }

  lemma SecondPublishes(s: State, policy: Policy, profile: Profile, r: Request, files: seq<Entry>, running: Profile,
                        i: nat)
    requires Inv(s, policy) && Proper(files, policy.skips) && i < |files|
    requires StoredOnce(s, r, profile, files[i]) && Made(policy, r, files[i]) != []
    ensures var job, after := Job(1, profile), AfterRound(s, policy, Job(1, profile), files, running);
            && job in after.tables.reports && 1 in after.tables.snapshots && after.tables.snapshots[1].entries == files
            && KeyOf(job, files[i]) in after.history.origins && after.history.origins[KeyOf(job, files[i])] == r
  {
    var job := Job(1, profile);
    var b, t := BatchFor(s, policy, job, files, running), Added(s, job, files).tables;
    var after := AfterRound(s, policy, job, files, running);
    BatchAnswered(s, policy, job, files, running);
    assert ReuseRight(s.tables.artifacts, 0, files[i], profile, policy.skips, b.reusable);
    RoundPublishes(s, policy, job, files, running, i);
    assert EntryRecorded(t.artifacts, t.next, after.tables.rows, after.tables.artifacts, b, policy.skips, b.entries[i]);
    OriginsAfter(s.history, t, after.tables, b, RequestOf(b, policy.skips, running), KeyOf(job, files[i]));
  }

  lemma SecondRound(policy: Policy, profile: Profile, before: seq<Step>, r: Request, files: seq<Entry>,
                    running: Profile, i: nat)
    returns (steps: seq<Step>)
    requires Possible(policy, before) && Proper(files, policy.skips) && i < |files|
    requires StoredOnce(Exec(policy, before), r, profile, files[i]) && Made(policy, r, files[i]) != []
    ensures |steps| == |before| + 3 && Possible(policy, steps) && steps[..|before|] == before
    ensures OwnProfiles(policy, before) && running == profile ==> OwnProfiles(policy, steps)
    ensures IsRound(steps[|before|..], Job(1, profile), running)
    ensures var job, s := Job(1, profile), Exec(policy, steps);
            && job in s.tables.reports && 1 in s.tables.snapshots && s.tables.snapshots[1].entries == files
            && KeyOf(job, files[i]) in s.history.origins && s.history.origins[KeyOf(job, files[i])] == r
  {
    EveryRunSound(policy, before);
    SecondPublishes(Exec(policy, before), policy, profile, r, files, running, i);
    steps := RoundPossible(policy, before, Job(1, profile), files, running);
  }

  /** A file that got chunks in a first snapshot is reused in a second: there it reaches what the first
      request made of it. */
  lemma TwoRounds(policy: Policy, profile: Profile, xs: seq<Entry>, first: Profile, ys: seq<Entry>, second: Profile,
                  e: Entry)
    returns (steps: seq<Step>)
    requires Proper(xs, policy.skips) && Proper(ys, policy.skips) && e in xs && e in ys
    requires Made(policy, Request(first, xs), e) != []
    ensures |steps| == 6 && Possible(policy, steps)
    ensures first == second == profile ==> OwnProfiles(policy, steps)
    ensures IsRound(steps[..3], Job(0, profile), first) && IsRound(steps[3..], Job(1, profile), second)
    ensures var t := Exec(policy, steps).tables;
            && Job(1, profile) in t.reports && 1 in t.snapshots && t.snapshots[1].entries == ys
            && Reached(t, Job(1, profile), e) == Made(policy, Request(first, xs), e)
            && Afresh(Job(1, profile), ys, policy.skips) == Request(profile, ys)
  {
    var i :| 0 <= i < |xs| && xs[i] == e;
    var j :| 0 <= j < |ys| && ys[j] == e;
    var before := FirstRound(policy, profile, xs, first, i);
    steps := SecondRound(policy, profile, before, Request(first, xs), ys, second, j);
    ReachesOrigins(policy, steps, Job(1, profile), e);
    AskedAll(ys, policy.skips, map[]);
  }

  // ---------- Exactly when ----------

  ghost predicate RunAgrees(policy: Policy, steps: seq<Step>, job: Job)
  {
    Possible(policy, steps) && OwnProfiles(policy, steps) && job in Exec(policy, steps).tables.reports ==>
      job.snapshot in Exec(policy, steps).tables.snapshots && AsFromScratch(Exec(policy, steps).tables, policy, job)
  }

  lemma DependenceShows(policy: Policy, profile: Profile, xs: seq<Entry>, ys: seq<Entry>, e: Entry)
    returns (steps: seq<Step>)
    requires Proper(xs, policy.skips) && Proper(ys, policy.skips) && e in xs && e in ys
    requires Made(policy, Request(profile, xs), e) != [] && !MadeAlike(policy, profile, xs, ys, e)
    ensures !RunAgrees(policy, steps, Job(1, profile))
  {
    steps := TwoRounds(policy, profile, xs, profile, ys, profile, e);
    var j :| 0 <= j < |ys| && ys[j] == e;
    var t := Exec(policy, steps).tables;
    assert Reached(t, Job(1, profile), ys[j]) != Made(policy, Afresh(Job(1, profile), ys, policy.skips), ys[j]);
  }

  /** With processors under the profiles of their jobs, every published snapshot of every run is as from
      scratch if and only if what the worker makes of a file does not depend on the other files of the
      request: a reused file is left out of the next request. */
  lemma IncrementalIff(policy: Policy)
    ensures (forall steps, job :: RunAgrees(policy, steps, job)) <==> Independent(policy)
  {
    if Independent(policy) {
      forall steps, job
        ensures RunAgrees(policy, steps, job)
      {
        if Possible(policy, steps) && OwnProfiles(policy, steps) && job in Exec(policy, steps).tables.reports {
          IncrementalEqualsFromScratch(policy, steps, job);
        }
      }
    } else {
      var profile, xs, ys, e :| e in xs && e in ys && Proper(xs, policy.skips) && Proper(ys, policy.skips) &&
                                !MadeAlike(policy, profile, xs, ys, e);
      if Made(policy, Request(profile, xs), e) != [] {
        var steps := DependenceShows(policy, profile, xs, ys, e);
      } else {
        var steps := DependenceShows(policy, profile, ys, xs, e);
      }
    }
  }

  /** A setting that is changed and changed back: a snapshot queued under one profile is published by a
      processor under another, then the same files again by one under the first. The second snapshot
      reuses what the other profile made, so although its own profiles agree, it is as from scratch
      exactly if the two profiles make the same of the file. */
  lemma RevertedSettings(policy: Policy, queued: Profile, running: Profile, e: Entry) returns (steps: seq<Step>)
    requires !policy.skips(e.path) && Made(policy, Request(running, [e]), e) != []
    ensures |steps| == 6 && Possible(policy, steps)
    ensures IsRound(steps[..3], Job(0, queued), running) && IsRound(steps[3..], Job(1, queued), queued)
    ensures var t := Exec(policy, steps).tables;
            && Job(1, queued) in t.reports && 1 in t.snapshots && t.snapshots[1].entries == [e]
            && (AsFromScratch(t, policy, Job(1, queued)) <==>
                Made(policy, Request(running, [e]), e) == Made(policy, Request(queued, [e]), e))
  {
    steps := TwoRounds(policy, queued, [e], running, [e], queued, e);
    OneEntry(Exec(policy, steps).tables, policy, Job(1, queued), e);
  }

  lemma OneEntry(t: Tables, policy: Policy, job: Job, e: Entry)
    requires job.snapshot in t.snapshots && t.snapshots[job.snapshot].entries == [e]
    ensures AsFromScratch(t, policy, job) <==> Reached(t, job, e) == Made(policy, Afresh(job, [e], policy.skips), e)
  {
    var entries := t.snapshots[job.snapshot].entries;
    assert entries[0] == e;
  }
}
