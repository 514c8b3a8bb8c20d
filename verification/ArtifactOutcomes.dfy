/** What a publication reports, and when it succeeds. */
module ArtifactOutcomes {
  import opened ArtifactStore
  import opened ArtifactRecords
  import opened ArtifactReuse

  // ---------- Counts ----------

  datatype Kind = Success | Skip | Failure

  function KindOf(policy: Policy, r: Request, e: Entry): Kind
  {
    if policy.skips(e.path) || policy.chunk(r, e).Skipped? then Skip
    else if Made(policy, r, e) != [] then Success
    else Failure
  }

  /** How many of the first n entries come out this way, each chunked in the request beside it. */
  function CountOf(policy: Policy, requests: seq<Request>, kind: Kind, entries: seq<Entry>, n: nat): nat
    requires n <= |entries| == |requests|
  {
    if n == 0 then 0
    else
      CountOf(policy, requests, kind, entries, n - 1) +
      if KindOf(policy, requests[n - 1], entries[n - 1]) == kind then 1 else 0
  }

  /** The requests that a publication records, entry by entry. */
  function Origins(b: Batch, made: map<ArtifactId, Request>, request: Request): (requests: seq<Request>)
    ensures |requests| == |b.entries|
    ensures forall i :: 0 <= i < |requests| ==> requests[i] == Origin(b, made, request, b.entries[i].path)
  {
    seq(|b.entries|, i requires 0 <= i < |b.entries| => Origin(b, made, request, b.entries[i].path))
  }

  ghost predicate CountsRight(w: Work, b: Batch, n: nat, policy: Policy, requests: seq<Request>)
    requires n <= |b.entries| == |requests|
  {
    && w.successful == CountOf(policy, requests, Success, b.entries, n)
    && w.skipped == CountOf(policy, requests, Skip, b.entries, n)
    && w.failed == CountOf(policy, requests, Failure, b.entries, n)
  }

  /** A reused entry counts as a success, as it did in the request that made its artifact. */
  lemma ReusedIsSuccess(t: Tables, h: History, b: Batch, policy: Policy, request: Request, e: Entry)
    requires ArtifactsSound(t, h, policy) && ReuseSafe(b, t, policy.skips, e)
    requires e.path in b.reusable && b.reusable[e.path] in t.artifacts
    ensures KindOf(policy, Origin(b, h.made, request, e.path), e) == Success
  {
    assert ArtifactSound(t.artifacts[b.reusable[e.path]], h.made[b.reusable[e.path]], policy);
  }

  lemma PlaceCounts(t: Tables, h: History, u: Work, b: Batch, n: nat, policy: Policy, running: Profile)
    requires n < |b.entries| && ArtifactsSound(t, h, policy)
    requires ReuseSafe(b, t, policy.skips, b.entries[n]) && AnswerRight(b, policy, running, b.entries[n])
    requires Follows(Begin(t, b.job), u) && Place(u, b, policy.skips, b.entries[n]).Ok?
    requires CountsRight(u, b, n, policy, Origins(b, h.made, RequestOf(b, policy.skips, running)))
    ensures CountsRight(Place(u, b, policy.skips, b.entries[n]).value, b, n + 1, policy,
                        Origins(b, h.made, RequestOf(b, policy.skips, running)))
  {
    var e := b.entries[n];
    if !policy.skips(e.path) && e.path in b.reusable {
      ReusedIsSuccess(t, h, b, policy, RequestOf(b, policy.skips, running), e);
    }
  }

  lemma {:induction false} PlacedCountsRight(t: Tables, h: History, b: Batch, n: nat, policy: Policy, running: Profile)
    requires n <= |b.entries| && ArtifactsSound(t, h, policy) && DistinctPaths(b.entries)
    requires AllReuseSafe(b, t, policy.skips) && Answers(b, policy, running)
    requires Placed(Begin(t, b.job), b, policy.skips, n).Ok?
    ensures CountsRight(Placed(Begin(t, b.job), b, policy.skips, n).value, b, n, policy,
                        Origins(b, h.made, RequestOf(b, policy.skips, running)))
  {
    if n > 0 {
      PlacedCountsRight(t, h, b, n - 1, policy, running);
      PlacedRecords(Begin(t, b.job), b, policy.skips, n - 1);
      assert ReuseSafe(b, t, policy.skips, b.entries[n - 1]) && AnswerRight(b, policy, running, b.entries[n - 1]);
      PlaceCounts(t, h, Placed(Begin(t, b.job), b, policy.skips, n - 1).value, b, n - 1, policy, running);
    }
  }

  /** The counts of a report, given the request each entry is chunked in. */
  ghost predicate ReportCounts(r: Report, policy: Policy, requests: seq<Request>, entries: seq<Entry>)
    requires |requests| == |entries|
  {
    var n := |entries|;
    && r.discovered == n == r.successful + r.skipped + r.failed && r.successful > 0
    && r.successful == CountOf(policy, requests, Success, entries, n)
    && r.skipped == CountOf(policy, requests, Skip, entries, n)
    && r.failed == CountOf(policy, requests, Failure, entries, n)
  }

  /** What an enabled publication does when it succeeds. */
  ghost predicate Publishes(s: State, policy: Policy, step: Step)
  {
    && Enabled(s, policy, step) && step.Publish?
    && s.pending[step.w].job.snapshot in s.tables.snapshots
    && Published(s.tables, s.pending[step.w].(events := step.events), policy.skips).Ok?
  }

  lemma StepReports(s: State, policy: Policy, step: Step)
    requires Inv(s, policy) && Publishes(s, policy, step)
    ensures var b, after := s.pending[step.w].(events := step.events), Apply(s, policy, step);
            && b.job in after.tables.reports
            && ReportCounts(after.tables.reports[b.job], policy,
                            Origins(b, s.history.made, RequestOf(b, policy.skips, step.running)), b.entries)
  {
    var b := s.pending[step.w].(events := step.events);
    BatchReady(s, policy, step);
    PlacedCountsRight(s.tables, s.history, b, |b.entries|, policy, step.running);
    ReportAddsUp(s.tables, b, policy.skips);
  }

  lemma StepOrigins(s: State, policy: Policy, step: Step, i: nat)
    requires Inv(s, policy) && Publishes(s, policy, step) && i < |s.pending[step.w].entries|
    ensures var b, after := s.pending[step.w].(events := step.events), Apply(s, policy, step);
            && KeyOf(b.job, b.entries[i]) in after.history.origins
            && after.history.origins[KeyOf(b.job, b.entries[i])] ==
               Origin(b, s.history.made, RequestOf(b, policy.skips, step.running), b.entries[i].path)
  {
    var b := s.pending[step.w].(events := step.events);
    BatchReady(s, policy, step);
    PublishedRecords(s.tables, b, policy.skips);
    var after := Published(s.tables, b, policy.skips).value;
    assert EntryRecorded(s.tables.artifacts, s.tables.next, after.rows, after.artifacts, b, policy.skips, b.entries[i]);
  }

  /** In every run a report counts each entry as it came out in the request that its row records. */
  lemma ReportAsMade(policy: Policy, steps: seq<Step>, step: Step)
    requires Possible(policy, steps) && Publishes(Exec(policy, steps), policy, step)
    ensures var s := Exec(policy, steps);
            var b, after := s.pending[step.w].(events := step.events), Apply(s, policy, step);
            var requests := Origins(b, s.history.made, RequestOf(b, policy.skips, step.running));
            && b.job in after.tables.reports
            && ReportCounts(after.tables.reports[b.job], policy, requests, b.entries)
            && (forall i :: 0 <= i < |b.entries| ==> KeyOf(b.job, b.entries[i]) in after.history.origins)
            && (forall i :: 0 <= i < |b.entries| ==> after.history.origins[KeyOf(b.job, b.entries[i])] == requests[i])
  {
    EveryRunSound(policy, steps);
    var s := Exec(policy, steps);
    StepReports(s, policy, step);
    var b, after := s.pending[step.w].(events := step.events), Apply(s, policy, step);
    var requests := Origins(b, s.history.made, RequestOf(b, policy.skips, step.running));
    forall i | 0 <= i < |b.entries|
      ensures KeyOf(b.job, b.entries[i]) in after.history.origins
      ensures after.history.origins[KeyOf(b.job, b.entries[i])] == requests[i]
    {
      StepOrigins(s, policy, step, i);
    }
  }

  /** Entries that come out alike in two lists of requests are counted alike. */
  lemma {:induction false} CountedAlike(policy: Policy, xs: seq<Request>, ys: seq<Request>, kind: Kind,
                                        entries: seq<Entry>, n: nat)
    requires n <= |entries| == |xs| == |ys|
    requires forall i :: 0 <= i < n ==> KindOf(policy, xs[i], entries[i]) == KindOf(policy, ys[i], entries[i])
    ensures CountOf(policy, xs, kind, entries, n) == CountOf(policy, ys, kind, entries, n)
  {
    if n > 0 { CountedAlike(policy, xs, ys, kind, entries, n - 1); }
  }

  // ---------- When a publication succeeds ----------

  /** The worker answered for every file that is neither skipped nor reused. */
  ghost predicate Complete(b: Batch, skips: Path -> bool)
  {
    forall i :: 0 <= i < |b.entries| && !skips(b.entries[i].path) && b.entries[i].path !in b.reusable ==>
      b.entries[i].path in b.events
  }

  /** New artifacts are those of the first n entries. */
  ghost predicate NewListed(before: map<ArtifactId, Artifact>, after: map<ArtifactId, Artifact>, b: Batch, n: nat)
  {
    forall id :: id in after && !(id in before && after[id] == before[id]) ==> ListsUpTo(b.entries, n, after[id].path)
  }

  /** No artifact clashes with the nth entry's: an old one would have been reused, a new one has
      another path. */
  lemma NoClash(w: Work, u: Work, b: Batch, n: nat, a: Artifact, skips: Path -> bool)
    requires n < |b.entries| && DistinctPaths(b.entries)
    requires ReuseRight(w.artifacts, b.repository, b.entries[n], b.job.profile, skips, b.reusable)
    requires NewListed(w.artifacts, u.artifacts, b, n)
    requires !skips(b.entries[n].path) && b.entries[n].path !in b.reusable
    requires Matches(a, b.repository, b.entries[n], b.job.profile)
    ensures !Taken(u.artifacts, a)
  {
    forall id | id in u.artifacts
      ensures u.artifacts[id].(chunks := a.chunks) != a
    {
      if id in w.artifacts && u.artifacts[id] == w.artifacts[id] {
        assert !Matches(w.artifacts[id], b.repository, b.entries[n], b.job.profile);
      } else {
        var i :| 0 <= i < n && i < |b.entries| && b.entries[i].path == u.artifacts[id].path;
        assert b.entries[i].path != b.entries[n].path;
      }
    }
  }

  /** Reusing what is there now never aborts. */
  lemma PlaceSucceeds(w: Work, u: Work, b: Batch, n: nat, skips: Path -> bool)
    requires n < |b.entries| && DistinctPaths(b.entries) && Complete(b, skips)
    requires ReuseRight(w.artifacts, b.repository, b.entries[n], b.job.profile, skips, b.reusable)
    requires NewListed(w.artifacts, u.artifacts, b, n)
    requires forall id :: id in w.artifacts ==> id in u.artifacts && id < u.next
    ensures Place(u, b, skips, b.entries[n]).Ok?
    ensures var v := Place(u, b, skips, b.entries[n]).value;
            && NewListed(w.artifacts, v.artifacts, b, n + 1)
            && (forall id :: id in w.artifacts ==> id in v.artifacts && id < v.next)
  {
    var e := b.entries[n];
    if !skips(e.path) && e.path !in b.reusable && b.events[e.path].Chunked? {
      NoClash(w, u, b, n, NewArtifact(b, e, b.events[e.path]), skips);
    }
    NewListedOn(w, u, Place(u, b, skips, e).value, b, n, e);
  }

  lemma NewListedOn(w: Work, u: Work, v: Work, b: Batch, n: nat, e: Entry)
    requires n < |b.entries| && e == b.entries[n] && NewListed(w.artifacts, u.artifacts, b, n)
    requires v.artifacts == u.artifacts ||
             (u.next in v.artifacts && v.artifacts[u.next].path == e.path &&
              v.artifacts == u.artifacts[u.next := v.artifacts[u.next]])
    ensures NewListed(w.artifacts, v.artifacts, b, n + 1)
  {
    forall id | id in v.artifacts && !(id in w.artifacts && v.artifacts[id] == w.artifacts[id])
      ensures ListsUpTo(b.entries, n + 1, v.artifacts[id].path)
    {
      if id in u.artifacts && v.artifacts[id] == u.artifacts[id] {
        var i :| 0 <= i < n && i < |b.entries| && b.entries[i].path == u.artifacts[id].path;
      } else {
        assert b.entries[n].path == v.artifacts[id].path;
      }
    }
  }

  /** Nothing found is missing, and all else is new. */
  ghost predicate Undisturbed(w: Work, u: Work, b: Batch, n: nat)
  {
    && NewListed(w.artifacts, u.artifacts, b, n)
    && (forall id :: id in w.artifacts ==> id in u.artifacts && id < u.next)
  }

  ghost predicate FreshlyFound(w: Work, b: Batch, skips: Path -> bool)
  {
    && DistinctPaths(b.entries) && Complete(b, skips)
    && (forall i :: 0 <= i < |b.entries| ==>
         ReuseRight(w.artifacts, b.repository, b.entries[i], b.job.profile, skips, b.reusable))
  }

  lemma NextSucceeds(w: Work, u: Work, b: Batch, n: nat, skips: Path -> bool)
    requires n < |b.entries| && FreshlyFound(w, b, skips) && Undisturbed(w, u, b, n)
    ensures Place(u, b, skips, b.entries[n]).Ok?
    ensures Undisturbed(w, Place(u, b, skips, b.entries[n]).value, b, n + 1)
  {
    PlaceSucceeds(w, u, b, n, skips);
  }

  /** The first n entries can be recorded. */
  ghost predicate PlacedFresh(w: Work, b: Batch, n: nat, skips: Path -> bool)
    requires n <= |b.entries|
  {
    Placed(w, b, skips, n).Ok? && Undisturbed(w, Placed(w, b, skips, n).value, b, n)
  }

  lemma FreshNext(w: Work, b: Batch, n: nat, skips: Path -> bool)
    requires n < |b.entries| && FreshlyFound(w, b, skips) && PlacedFresh(w, b, n, skips)
    ensures PlacedFresh(w, b, n + 1, skips)
  {
    NextSucceeds(w, Placed(w, b, skips, n).value, b, n, skips);
  }

  lemma {:induction false} FreshPlacedSucceeds(w: Work, b: Batch, n: nat, skips: Path -> bool)
    requires n <= |b.entries| && FreshlyFound(w, b, skips) && PlacedFresh(w, b, 0, skips)
    ensures PlacedFresh(w, b, n, skips)
  {
    if n > 0 {
      FreshPlacedSucceeds(w, b, n - 1, skips);
      FreshNext(w, b, n - 1, skips);
    }
  }

  lemma {:induction false} SupportedBounds(policy: Policy, requests: seq<Request>, entries: seq<Entry>, n: nat)
    requires n <= |entries| == |requests|
    ensures CountOf(policy, requests, Success, entries, n) <= Supported(entries[..n], policy.skips)
  {
    if n > 0 {
      SupportedBounds(policy, requests, entries, n - 1);
      assert entries[..n][..n - 1] == entries[..n - 1];
    }
  }

  lemma FreshPublishes(t: Tables, h: History, b: Batch, policy: Policy, running: Profile)
    requires ArtifactsSound(t, h, policy) && DistinctPaths(b.entries)
    requires Found(t.artifacts, b.repository, b.entries, b.job.profile, policy.skips, b.reusable)
    requires Answers(b, policy, running) && Complete(b, policy.skips)
    ensures var requests := Origins(b, h.made, RequestOf(b, policy.skips, running));
            Published(t, b, policy.skips).Ok? <==> CountOf(policy, requests, Success, b.entries, |b.entries|) > 0
    ensures Published(t, b, policy.skips).Err? ==> Published(t, b, policy.skips).error == NothingChunked
  {
    FreshPlacedSucceeds(Begin(t, b.job), b, |b.entries|, policy.skips);
    FoundSafe(t, b, policy.skips);
    PlacedCountsRight(t, h, b, |b.entries|, policy, running);
    SupportedBounds(policy, Origins(b, h.made, RequestOf(b, policy.skips, running)), b.entries, |b.entries|);
    assert b.entries[..|b.entries|] == b.entries;
  }

  /** In every run, with a complete answer and nothing published or collected since the artifacts were
      looked up, a publication fails exactly when no entry yields a chunk: neither in the request whose
      artifact it reuses nor in the worker's. */
  lemma PublishesUnlessNothingToChunk(policy: Policy, steps: seq<Step>, b: Batch, running: Profile)
    requires Possible(policy, steps) && DistinctPaths(b.entries) && Answers(b, policy, running) &&
             Complete(b, policy.skips)
    requires var t := Exec(policy, steps).tables;
             Found(t.artifacts, b.repository, b.entries, b.job.profile, policy.skips, b.reusable)
    ensures var s := Exec(policy, steps);
            var requests := Origins(b, s.history.made, RequestOf(b, policy.skips, running));
            var published := Published(s.tables, b, policy.skips);
            && (published.Ok? <==> CountOf(policy, requests, Success, b.entries, |b.entries|) > 0)
            && (published.Err? ==> published.error == NothingChunked)
  {
    EveryRunSound(policy, steps);
    FreshPublishes(Exec(policy, steps).tables, Exec(policy, steps).history, b, policy, running);
  }

  lemma FoundSafe(t: Tables, b: Batch, skips: Path -> bool)
    requires Numbered(t.artifacts, t.next)
    requires Found(t.artifacts, b.repository, b.entries, b.job.profile, skips, b.reusable)
    ensures AllReuseSafe(b, t, skips)
  {
    forall i | 0 <= i < |b.entries|
      ensures ReuseSafe(b, t, skips, b.entries[i])
    {
      assert ReuseRight(t.artifacts, b.repository, b.entries[i], b.job.profile, skips, b.reusable);
    }
    forall path | path in b.reusable
      ensures b.reusable[path] < t.next
    {
      var i :| 0 <= i < |b.entries| && b.entries[i].path == path;
      assert ReuseSafe(b, t, skips, b.entries[i]);
    }
  }
}
