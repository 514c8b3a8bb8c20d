/** Incremental chunking over every run of publications, deletions and collections by any number of
    workers: what a published snapshot reaches, and when that is what chunking it afresh gives. */
module ArtifactReuse {
  import opened ArtifactStore
  import opened ArtifactRecords

  type WorkerId = nat

  /** For each artifact the request it answers, and for each row the request whose answer it records. */
  datatype History = History(made: map<ArtifactId, Request>, origins: map<Key, Request>)

  /** The tables; what each worker read before it publishes; every snapshot that ever was; and, for
      the proofs only, where artifacts and rows come from. */
  datatype State = State(tables: Tables, pending: map<WorkerId, Batch>, used: set<SnapshotId>, history: History)

  datatype Step =
    | Add(s: SnapshotId, snapshot: Snapshot)
    | Find(w: WorkerId, job: Job, reusable: map<Path, ArtifactId>)
    | Publish(w: WorkerId, running: Profile, events: map<Path, Outcome>)
    | Delete(s: SnapshotId)
    | Collect(after: Tables)

  /** The worker's answer, if it gives one, is that of a deterministic worker to this request. */
  predicate AnswerRight(b: Batch, policy: Policy, running: Profile, e: Entry)
  {
    ToChunk(e, policy.skips, b.reusable) && e.path in b.events ==>
      b.events[e.path] == policy.chunk(RequestOf(b, policy.skips, running), e)
  }

  /** The worker may leave files out. */
  ghost predicate Answers(b: Batch, policy: Policy, running: Profile)
  {
    forall i :: 0 <= i < |b.entries| ==> AnswerRight(b, policy, running, b.entries[i])
  }

  /** Nothing restricts the order of steps: artifacts found may be collected before they are used,
      others may be published in between, and the processor may run under any profile. */
  ghost predicate Enabled(s: State, policy: Policy, step: Step)
  {
    match step
    case Add(id, snapshot) => id !in s.used && DistinctPaths(snapshot.entries)
    case Find(w, job, reusable) =>
      job.snapshot in s.tables.snapshots &&
      var snapshot := s.tables.snapshots[job.snapshot];
      Found(s.tables.artifacts, snapshot.repository, snapshot.entries, job.profile, policy.skips, reusable)
    case Publish(w, running, events) => w in s.pending && Answers(s.pending[w].(events := events), policy, running)
    case Delete(id) => true
    case Collect(after) => Collected(s.tables, after)
  }

  /** The request behind the row of a path: that of the artifact reused, or the one just answered. */
  function Origin(b: Batch, made: map<ArtifactId, Request>, request: Request, path: Path): Request
  {
    if path in b.reusable && b.reusable[path] in made then made[b.reusable[path]] else request
  }

  function Extended(h: History, t: Tables, after: Tables, b: Batch, request: Request): History
  {
    History(
      h.made + map id | id in after.artifacts && id >= t.next :: request,
      h.origins + map k | k in after.rows && k.snapshot == b.job.snapshot && k.profile == b.job.profile ::
                    Origin(b, h.made, request, k.path))
  }

  function PublishBatch(s: State, policy: Policy, b: Batch, running: Profile): State
  {
    if b.job.snapshot !in s.tables.snapshots then s
    else
      var published := Published(s.tables, b, policy.skips);
      if published.Err? then s
      else
        s.(tables := published.value,
           history := Extended(s.history, s.tables, published.value, b, RequestOf(b, policy.skips, running)))
  }

  function Apply(s: State, policy: Policy, step: Step): State
  {
    match step
    case Add(id, snapshot) =>
      s.(tables := s.tables.(snapshots := s.tables.snapshots[id := snapshot]), used := s.used + {id})
    case Find(w, job, reusable) =>
      if job.snapshot !in s.tables.snapshots then s
      else
        var snapshot := s.tables.snapshots[job.snapshot];
        s.(pending := s.pending[w := Batch(job, snapshot.repository, snapshot.entries, reusable, map[])])
    case Publish(w, running, events) =>
      if w !in s.pending then s else PublishBatch(s, policy, s.pending[w].(events := events), running)
    case Delete(id) => s.(tables := WithoutSnapshot(s.tables, id))
    case Collect(after) => s.(tables := after)
  }

  function Start(): State
  {
    State(Tables(map[], map[], 0, map[], map[]), map[], {}, History(map[], map[]))
  }

  function Exec(policy: Policy, steps: seq<Step>): State
  {
    if steps == [] then Start() else Apply(Exec(policy, steps[..|steps| - 1]), policy, steps[|steps| - 1])
  }

  ghost predicate Possible(policy: Policy, steps: seq<Step>)
    decreases |steps|
  {
    steps != [] ==>
      Possible(policy, steps[..|steps| - 1]) && Enabled(Exec(policy, steps[..|steps| - 1]), policy, steps[|steps| - 1])
  }

  // ---------- What every run keeps ----------

  /** A request as processors make them: distinct files, none of them skipped. */
  ghost predicate Proper(files: seq<Entry>, skips: Path -> bool)
  {
    DistinctPaths(files) && forall i :: 0 <= i < |files| ==> !skips(files[i].path)
  }

  ghost predicate Asks(r: Request, e: Entry, policy: Policy) { e in r.files && Proper(r.files, policy.skips) }

  /** The artifact holds what the worker makes of its file for this request. */
  ghost predicate ArtifactSound(a: Artifact, r: Request, policy: Policy)
  {
    && a.chunks != [] && Asks(r, Entry(a.path, a.sha), policy)
    && policy.chunk(r, Entry(a.path, a.sha)) == Chunked(a.chunks, a.options)
  }

  ghost predicate ArtifactsSound(t: Tables, h: History, policy: Policy)
  {
    forall id :: id in t.artifacts ==> id < t.next && id in h.made && ArtifactSound(t.artifacts[id], h.made[id], policy)
  }

  /** The row says what the worker makes of its entry for this request. */
  ghost predicate RowRight(t: Tables, h: History, row: Row, origin: Request, repository: RepositoryId,
                           profile: Profile, e: Entry, policy: Policy)
  {
    if policy.skips(e.path) then row == SkippedRow
    else
      Asks(origin, e, policy) &&
      match policy.chunk(origin, e)
      case Skipped => row == SkippedRow
      case Failed => row == FailedRow
      case Chunked(chunks, _) =>
        if chunks == [] then row == FailedRow
        else
          && row.StoredRow? && row.artifact in t.artifacts && Matches(t.artifacts[row.artifact], repository, e, profile)
          && row.artifact in h.made && h.made[row.artifact] == origin
  }

  ghost predicate EntryRight(t: Tables, h: History, job: Job, repository: RepositoryId, e: Entry, policy: Policy)
  {
    var k := KeyOf(job, e);
    k in t.rows && k in h.origins && RowRight(t, h, t.rows[k], h.origins[k], repository, job.profile, e, policy)
  }

  ghost predicate JobRight(t: Tables, h: History, job: Job, policy: Policy)
  {
    job.snapshot in t.snapshots &&
    var snapshot := t.snapshots[job.snapshot];
    forall i :: 0 <= i < |snapshot.entries| ==> EntryRight(t, h, job, snapshot.repository, snapshot.entries[i], policy)
  }

  /** Each row belongs to an entry of a published snapshot. */
  ghost predicate RowOwned(t: Tables, k: Key)
  {
    && Job(k.snapshot, k.profile) in t.reports && k.snapshot in t.snapshots
    && var entries := t.snapshots[k.snapshot].entries; ListsUpTo(entries, |entries|, k.path)
  }

  ghost predicate TablesSound(t: Tables, h: History, policy: Policy)
  {
    && ArtifactsSound(t, h, policy)
    && (forall job :: job in t.reports ==> JobRight(t, h, job, policy))
    && (forall k :: k in t.rows ==> RowOwned(t, k))
  }

  /** An artifact found for an entry is the right one for as long as it exists. */
  ghost predicate ReuseSafe(b: Batch, t: Tables, skips: Path -> bool, e: Entry)
  {
    e.path in b.reusable ==>
      && !skips(e.path) && b.reusable[e.path] < t.next
      && (b.reusable[e.path] in t.artifacts ==>
          Matches(t.artifacts[b.reusable[e.path]], b.repository, e, b.job.profile))
  }

  ghost predicate AllReuseSafe(b: Batch, t: Tables, skips: Path -> bool)
  {
    && FoundEarlier(b, t.next)
    && forall i :: 0 <= i < |b.entries| ==> ReuseSafe(b, t, skips, b.entries[i])
  }

  ghost predicate BatchSafe(b: Batch, s: State, policy: Policy)
  {
    && b.job.snapshot in s.used && DistinctPaths(b.entries)
    && (b.job.snapshot in s.tables.snapshots ==>
        s.tables.snapshots[b.job.snapshot] == Snapshot(b.repository, b.entries))
    && AllReuseSafe(b, s.tables, policy.skips)
  }

  ghost predicate Inv(s: State, policy: Policy)
  {
    && TablesSound(s.tables, s.history, policy)
    && s.tables.snapshots.Keys <= s.used
    && (forall id :: id in s.tables.snapshots ==> DistinctPaths(s.tables.snapshots[id].entries))
    && (forall w :: w in s.pending ==> BatchSafe(s.pending[w], s, policy))
  }

  // ---------- Publications ----------

  /** What a publication finds. */
  ghost predicate Ready(t: Tables, h: History, b: Batch, policy: Policy, running: Profile)
  {
    && TablesSound(t, h, policy) && Answers(b, policy, running)
    && DistinctPaths(b.entries) && AllReuseSafe(b, t, policy.skips)
    && b.job.snapshot in t.snapshots && t.snapshots[b.job.snapshot] == Snapshot(b.repository, b.entries)
  }

  lemma RequestProper(b: Batch, policy: Policy, running: Profile, e: Entry)
    requires DistinctPaths(b.entries) && e in b.entries && ToChunk(e, policy.skips, b.reusable)
    ensures Asks(RequestOf(b, policy.skips, running), e, policy)
  {
    var files := Asked(b.entries, policy.skips, b.reusable);
    AskedDistinct(b.entries, policy.skips, b.reusable);
    AskedExactly(b.entries, policy.skips, b.reusable, e);
    forall i | 0 <= i < |files|
      ensures !policy.skips(files[i].path)
    {
      AskedExactly(b.entries, policy.skips, b.reusable, files[i]);
    }
  }

  lemma NewArtifactSound(a: Artifact, b: Batch, policy: Policy, running: Profile)
    requires AnswerAmong(a, b, policy.skips, |b.entries|)
    requires DistinctPaths(b.entries) && Answers(b, policy, running)
    ensures ArtifactSound(a, RequestOf(b, policy.skips, running), policy)
  {
    var i :| 0 <= i < |b.entries| && AnswerAbout(a, b, policy.skips, b.entries[i]);
    assert AnswerRight(b, policy, running, b.entries[i]);
    RequestProper(b, policy, running, b.entries[i]);
  }

  /** Each entry of the published job has its right row. */
  lemma PlacedRight(t: Tables, after: Tables, h: History, b: Batch, policy: Policy, running: Profile, e: Entry)
    requires ArtifactsSound(t, h, policy) && Recorded(t, after, b, policy.skips)
    requires e in b.entries && DistinctPaths(b.entries)
    requires ReuseSafe(b, t, policy.skips, e) && AnswerRight(b, policy, running, e)
    requires EntryRecorded(t.artifacts, t.next, after.rows, after.artifacts, b, policy.skips, e)
    ensures EntryRight(after, Extended(h, t, after, b, RequestOf(b, policy.skips, running)), b.job, b.repository, e,
                       policy)
  {
    if ToChunk(e, policy.skips, b.reusable) {
      RequestProper(b, policy, running, e);
    } else if !policy.skips(e.path) {
      assert ArtifactSound(t.artifacts[b.reusable[e.path]], h.made[b.reusable[e.path]], policy);
    }
  }

  /** The rows of other jobs stay right. */
  lemma OthersRight(t: Tables, after: Tables, h: History, b: Batch, policy: Policy, request: Request, job: Job)
    requires job != b.job && JobRight(t, h, job, policy) && Recorded(t, after, b, policy.skips)
    requires Numbered(t.artifacts, t.next)
    ensures JobRight(after, Extended(h, t, after, b, request), job, policy)
  {
    var snapshot := t.snapshots[job.snapshot];
    forall i | 0 <= i < |snapshot.entries|
      ensures EntryRight(after, Extended(h, t, after, b, request), job, snapshot.repository, snapshot.entries[i],
                         policy)
    {
      assert EntryRight(t, h, job, snapshot.repository, snapshot.entries[i], policy);
      assert !OfJob(KeyOf(job, snapshot.entries[i]), b.job);
    }
  }

  /** The history after a publication: new artifacts answer its request, old ones what they did. */
  lemma MadeAfter(h: History, t: Tables, after: Tables, b: Batch, request: Request, id: ArtifactId)
    requires id in after.artifacts
    ensures var made := Extended(h, t, after, b, request).made;
            if id >= t.next then id in made && made[id] == request
            else id in h.made ==> id in made && made[id] == h.made[id]
  {
  }

  lemma ArtifactStaysSound(t: Tables, after: Tables, h: History, b: Batch, policy: Policy, running: Profile,
                           id: ArtifactId)
    requires ArtifactsSound(t, h, policy) && Recorded(t, after, b, policy.skips) && id in after.artifacts
    requires DistinctPaths(b.entries) && Answers(b, policy, running)
    ensures var made := Extended(h, t, after, b, RequestOf(b, policy.skips, running)).made;
            id in made && ArtifactSound(after.artifacts[id], made[id], policy)
  {
    MadeAfter(h, t, after, b, RequestOf(b, policy.skips, running), id);
    if id >= t.next {
      assert AnswerAmong(after.artifacts[id], b, policy.skips, |b.entries|);
      NewArtifactSound(after.artifacts[id], b, policy, running);
    } else {
      assert ArtifactSound(t.artifacts[id], h.made[id], policy);
    }
  }

  lemma ArtifactsStaySound(t: Tables, after: Tables, h: History, b: Batch, policy: Policy, running: Profile)
    requires ArtifactsSound(t, h, policy) && Recorded(t, after, b, policy.skips)
    requires DistinctPaths(b.entries) && Answers(b, policy, running)
    ensures ArtifactsSound(after, Extended(h, t, after, b, RequestOf(b, policy.skips, running)), policy)
  {
    forall id | id in after.artifacts
      ensures var made := Extended(h, t, after, b, RequestOf(b, policy.skips, running)).made;
              id in made && ArtifactSound(after.artifacts[id], made[id], policy)
    {
      ArtifactStaysSound(t, after, h, b, policy, running, id);
    }
  }

  lemma RowsStayOwned(t: Tables, after: Tables, b: Batch, skips: Path -> bool, k: Key)
    requires Recorded(t, after, b, skips) && (forall k :: k in t.rows ==> RowOwned(t, k)) && k in after.rows
    requires b.job.snapshot in t.snapshots && t.snapshots[b.job.snapshot].entries == b.entries
    ensures RowOwned(after, k)
  {
    if k in Without(t.rows, b.job) { assert RowOwned(t, k); }
  }

  lemma PublishKeepsTables(t: Tables, h: History, b: Batch, policy: Policy, running: Profile)
    requires Ready(t, h, b, policy, running) && Published(t, b, policy.skips).Ok?
    ensures var after := Published(t, b, policy.skips).value;
            && Recorded(t, after, b, policy.skips)
            && TablesSound(after, Extended(h, t, after, b, RequestOf(b, policy.skips, running)), policy)
  {
    var after, request := Published(t, b, policy.skips).value, RequestOf(b, policy.skips, running);
    var later := Extended(h, t, after, b, request);
    PublishedRecords(t, b, policy.skips);
    ArtifactsStaySound(t, after, h, b, policy, running);
    forall job | job in after.reports
      ensures JobRight(after, later, job, policy)
    {
      if job != b.job { OthersRight(t, after, h, b, policy, request, job); }
      else { JobPlaced(t, after, h, b, policy, running); }
    }
    forall k | k in after.rows
      ensures RowOwned(after, k)
    {
      RowsStayOwned(t, after, b, policy.skips, k);
    }
  }

  lemma JobPlaced(t: Tables, after: Tables, h: History, b: Batch, policy: Policy, running: Profile)
    requires Ready(t, h, b, policy, running) && Recorded(t, after, b, policy.skips)
    ensures JobRight(after, Extended(h, t, after, b, RequestOf(b, policy.skips, running)), b.job, policy)
  {
    forall i | 0 <= i < |b.entries|
      ensures EntryRight(after, Extended(h, t, after, b, RequestOf(b, policy.skips, running)), b.job, b.repository,
                         b.entries[i], policy)
    {
      assert ReuseSafe(b, t, policy.skips, b.entries[i]) && AnswerRight(b, policy, running, b.entries[i]);
      PlacedRight(t, after, h, b, policy, running, b.entries[i]);
    }
  }

  // ---------- Steps ----------

  /** Where artifacts are only added under fresh ids, or removed, what was found stays right. */
  ghost predicate OnlyNew(t: Tables, after: Tables)
  {
    && t.next <= after.next
    && forall id :: id in after.artifacts && id < t.next ==>
        id in t.artifacts && after.artifacts[id] == t.artifacts[id]
  }

  lemma BatchStaysSafe(b: Batch, s: State, after: State, policy: Policy)
    requires BatchSafe(b, s, policy) && s.used <= after.used && OnlyNew(s.tables, after.tables)
    requires forall id :: id in after.tables.snapshots && id in s.used ==>
      id in s.tables.snapshots && after.tables.snapshots[id] == s.tables.snapshots[id]
    ensures BatchSafe(b, after, policy)
  {
    forall i | 0 <= i < |b.entries|
      ensures ReuseSafe(b, after.tables, policy.skips, b.entries[i])
    {
      assert ReuseSafe(b, s.tables, policy.skips, b.entries[i]);
    }
  }

  lemma BatchReady(s: State, policy: Policy, step: Step)
    requires Inv(s, policy) && Enabled(s, policy, step) && step.Publish?
    requires s.pending[step.w].job.snapshot in s.tables.snapshots
    ensures Ready(s.tables, s.history, s.pending[step.w].(events := step.events), policy, step.running)
  {
    var found := s.pending[step.w];
    var b := found.(events := step.events);
    assert BatchSafe(found, s, policy);
    forall i | 0 <= i < |b.entries|
      ensures ReuseSafe(b, s.tables, policy.skips, b.entries[i])
    {
      assert ReuseSafe(found, s.tables, policy.skips, found.entries[i]);
    }
  }

  lemma PublishKeeps(s: State, policy: Policy, step: Step)
    requires Inv(s, policy) && Enabled(s, policy, step) && step.Publish?
    ensures Inv(Apply(s, policy, step), policy)
  {
    var after, b := Apply(s, policy, step), s.pending[step.w].(events := step.events);
    if b.job.snapshot in s.tables.snapshots && Published(s.tables, b, policy.skips).Ok? {
      BatchReady(s, policy, step);
      PublishKeepsTables(s.tables, s.history, b, policy, step.running);
      forall w | w in after.pending
        ensures BatchSafe(after.pending[w], after, policy)
      {
        BatchStaysSafe(s.pending[w], s, after, policy);
      }
    }
  }

  /** Collecting garbage removes no artifact that a row names. */
  lemma RowsNameArtifacts(t: Tables, h: History, policy: Policy, k: Key)
    requires TablesSound(t, h, policy) && k in t.rows && t.rows[k].StoredRow?
    ensures t.rows[k].artifact in t.artifacts && Referenced(t.rows, t.rows[k].artifact)
  {
    assert RowOwned(t, k) && t.rows[k] == StoredRow(t.rows[k].artifact);
    var job, snapshot := Job(k.snapshot, k.profile), t.snapshots[k.snapshot];
    var i :| 0 <= i < |snapshot.entries| && snapshot.entries[i].path == k.path;
    assert JobRight(t, h, job, policy);
    assert EntryRight(t, h, job, snapshot.repository, snapshot.entries[i], policy);
    assert KeyOf(job, snapshot.entries[i]) == k;
  }

  lemma EntryCollected(t: Tables, after: Tables, h: History, job: Job, repository: RepositoryId, e: Entry,
                       policy: Policy)
    requires Collected(t, after) && EntryRight(t, h, job, repository, e, policy)
    ensures EntryRight(after, h, job, repository, e, policy)
  {
    var row := t.rows[KeyOf(job, e)];
    if row.StoredRow? { assert row == StoredRow(row.artifact); }
  }

  lemma JobCollected(t: Tables, after: Tables, h: History, job: Job, policy: Policy)
    requires Collected(t, after) && JobRight(t, h, job, policy)
    ensures JobRight(after, h, job, policy)
  {
    var snapshot := t.snapshots[job.snapshot];
    forall i | 0 <= i < |snapshot.entries|
      ensures EntryRight(after, h, job, snapshot.repository, snapshot.entries[i], policy)
    {
      EntryCollected(t, after, h, job, snapshot.repository, snapshot.entries[i], policy);
    }
  }

  lemma CollectKeeps(t: Tables, after: Tables, h: History, policy: Policy)
    requires TablesSound(t, h, policy) && Collected(t, after)
    ensures TablesSound(after, h, policy)
  {
    forall job | job in after.reports
      ensures JobRight(after, h, job, policy)
    {
      JobCollected(t, after, h, job, policy);
    }
    forall k | k in after.rows
      ensures RowOwned(after, k)
    {
      assert RowOwned(t, k);
    }
  }

  lemma DeleteKeeps(t: Tables, h: History, id: SnapshotId, policy: Policy)
    requires TablesSound(t, h, policy)
    ensures TablesSound(WithoutSnapshot(t, id), h, policy)
  {
    var after := WithoutSnapshot(t, id);
    forall job | job in after.reports
      ensures JobRight(after, h, job, policy)
    {
      JobAfterDelete(t, h, id, job, policy);
    }
    forall k | k in after.rows
      ensures RowOwned(after, k)
    {
      assert RowOwned(t, k);
    }
  }

  lemma JobAfterDelete(t: Tables, h: History, id: SnapshotId, job: Job, policy: Policy)
    requires JobRight(t, h, job, policy) && job.snapshot != id
    ensures JobRight(WithoutSnapshot(t, id), h, job, policy)
  {
    var after, snapshot := WithoutSnapshot(t, id), t.snapshots[job.snapshot];
    forall i | 0 <= i < |snapshot.entries|
      ensures EntryRight(after, h, job, snapshot.repository, snapshot.entries[i], policy)
    {
      assert EntryRight(t, h, job, snapshot.repository, snapshot.entries[i], policy);
    }
  }

  lemma AddKeeps(t: Tables, h: History, id: SnapshotId, snapshot: Snapshot, policy: Policy)
    requires TablesSound(t, h, policy) && id !in t.snapshots
    ensures TablesSound(t.(snapshots := t.snapshots[id := snapshot]), h, policy)
  {
    var after := t.(snapshots := t.snapshots[id := snapshot]);
    forall job | job in after.reports
      ensures JobRight(after, h, job, policy)
    {
      JobAfterAdd(t, h, id, snapshot, job, policy);
    }
    forall k | k in after.rows
      ensures RowOwned(after, k)
    {
      assert RowOwned(t, k);
    }
  }

  lemma JobAfterAdd(t: Tables, h: History, id: SnapshotId, snapshot: Snapshot, job: Job, policy: Policy)
    requires JobRight(t, h, job, policy) && job.snapshot != id
    ensures JobRight(t.(snapshots := t.snapshots[id := snapshot]), h, job, policy)
  {
    var after, own := t.(snapshots := t.snapshots[id := snapshot]), t.snapshots[job.snapshot];
    forall i | 0 <= i < |own.entries|
      ensures EntryRight(after, h, job, own.repository, own.entries[i], policy)
    {
      assert EntryRight(t, h, job, own.repository, own.entries[i], policy);
    }
  }

  lemma FoundIsSafe(s: State, policy: Policy, b: Batch)
    requires Inv(s, policy) && b.job.snapshot in s.tables.snapshots
    requires s.tables.snapshots[b.job.snapshot] == Snapshot(b.repository, b.entries)
    requires Found(s.tables.artifacts, b.repository, b.entries, b.job.profile, policy.skips, b.reusable)
    ensures BatchSafe(b, s, policy)
  {
    forall i | 0 <= i < |b.entries|
      ensures ReuseSafe(b, s.tables, policy.skips, b.entries[i])
    {
      assert ReuseRight(s.tables.artifacts, b.repository, b.entries[i], b.job.profile, policy.skips, b.reusable);
    }
    forall path | path in b.reusable
      ensures b.reusable[path] < s.tables.next
    {
      var i :| 0 <= i < |b.entries| && b.entries[i].path == path;
      assert ReuseSafe(b, s.tables, policy.skips, b.entries[i]);
    }
  }

  lemma FindKeeps(s: State, policy: Policy, step: Step)
    requires Inv(s, policy) && Enabled(s, policy, step) && step.Find?
    ensures Inv(Apply(s, policy, step), policy)
  {
    var after := Apply(s, policy, step);
    FoundIsSafe(s, policy, after.pending[step.w]);
    forall w | w in after.pending
      ensures BatchSafe(after.pending[w], after, policy)
    {
      if w != step.w { BatchStaysSafe(s.pending[w], s, after, policy); }
    }
  }

  lemma TableStepKeeps(s: State, policy: Policy, step: Step)
    requires Inv(s, policy) && Enabled(s, policy, step) && (step.Add? || step.Delete? || step.Collect?)
    ensures Inv(Apply(s, policy, step), policy)
  {
    var after := Apply(s, policy, step);
    match step {
      case Add(id, snapshot) => AddKeeps(s.tables, s.history, id, snapshot, policy);
      case Delete(id) => DeleteKeeps(s.tables, s.history, id, policy);
      case Collect(t) => CollectKeeps(s.tables, t, s.history, policy);
    }
    forall w | w in after.pending
      ensures BatchSafe(after.pending[w], after, policy)
    {
      BatchStaysSafe(s.pending[w], s, after, policy);
    }
  }

  lemma StepKeeps(s: State, policy: Policy, step: Step)
    requires Inv(s, policy) && Enabled(s, policy, step)
    ensures Inv(Apply(s, policy, step), policy)
  {
    match step
    case Publish(_, _, _) => PublishKeeps(s, policy, step);
    case Find(_, _, _) => FindKeeps(s, policy, step);
    case _ => TableStepKeeps(s, policy, step);
  }

  /** Every reachable state is sound, whatever profiles the processors run under. */
  lemma {:induction false} EveryRunSound(policy: Policy, steps: seq<Step>)
    requires Possible(policy, steps)
    ensures Inv(Exec(policy, steps), policy)
  {
    if steps != [] {
      var before, step := steps[..|steps| - 1], steps[|steps| - 1];
      EveryRunSound(policy, before);
      StepKeeps(Exec(policy, before), policy, step);
    }
  }

  // ---------- Where the history comes from ----------

  /** The nth step is a publication with this request. */
  ghost predicate RequestedAt(policy: Policy, steps: seq<Step>, n: nat, r: Request)
  {
    n < |steps| && steps[n].Publish? &&
    var s := Exec(policy, steps[..n]);
    steps[n].w in s.pending && r == RequestOf(s.pending[steps[n].w], policy.skips, steps[n].running)
  }

  ghost predicate Remembers(h: History, r: Request)
  {
    || (exists id :: id in h.made && h.made[id] == r)
    || (exists k :: k in h.origins && h.origins[k] == r)
  }

  /** Every request in the history is one that a processor of the run has made. */
  lemma {:induction false} HistoryRequested(policy: Policy, steps: seq<Step>, r: Request) returns (n: nat)
    requires Remembers(Exec(policy, steps).history, r)
    ensures RequestedAt(policy, steps, n, r)
  {
    n := |steps| - 1;
    if Remembers(Exec(policy, steps[..n]).history, r) {
      n := HistoryRequested(policy, steps[..n], r);
      assert steps[..|steps| - 1][..n] == steps[..n];
    } else {
      NewRequest(Exec(policy, steps[..n]), policy, steps[n], r);
    }
  }

  lemma NewRequest(s: State, policy: Policy, step: Step, r: Request)
    requires !Remembers(s.history, r) && Remembers(Apply(s, policy, step).history, r)
    ensures step.Publish? && step.w in s.pending && r == RequestOf(s.pending[step.w], policy.skips, step.running)
  {
    if step.Publish? && step.w in s.pending && Apply(s, policy, step).history != s.history {
      var b := s.pending[step.w].(events := step.events);
      var request := RequestOf(b, policy.skips, step.running);
      ExtendedRemembers(s.history, s.tables, Apply(s, policy, step).tables, b, request, r);
    }
  }

  lemma ExtendedRemembers(h: History, t: Tables, after: Tables, b: Batch, request: Request, r: Request)
    requires Remembers(Extended(h, t, after, b, request), r)
    ensures Remembers(h, r) || r == request
  {
    var later := Extended(h, t, after, b, request);
    if id :| id in later.made && later.made[id] == r {
    } else {
      var k :| k in later.origins && later.origins[k] == r;
      if k in h.origins && h.origins[k] == r {
      } else if k.path in b.reusable && b.reusable[k.path] in h.made {
        assert h.made[b.reusable[k.path]] == r || r == request;
      }
    }
  }

  // ---------- What a published snapshot reaches ----------

  /** The chunks that a snapshot reaches through the row of one entry. */
  function Reached(t: Tables, job: Job, e: Entry): seq<Chunk>
  {
    var key := KeyOf(job, e);
    if key in t.rows && t.rows[key].StoredRow? && t.rows[key].artifact in t.artifacts
    then t.artifacts[t.rows[key].artifact].chunks else []
  }

  /** What chunking the entry in this request gives. */
  function Made(policy: Policy, r: Request, e: Entry): seq<Chunk>
  {
    if policy.skips(e.path) then []
    else
      match policy.chunk(r, e)
      case Chunked(chunks, _) => chunks
      case _ => []
  }

  /** Chunking a snapshot from scratch asks for all its files at once, under the job's profile. */
  function Afresh(job: Job, entries: seq<Entry>, skips: Path -> bool): Request
  {
    Request(job.profile, Asked(entries, skips, map[]))
  }

  lemma RightReaches(t: Tables, h: History, job: Job, repository: RepositoryId, e: Entry, policy: Policy)
    requires ArtifactsSound(t, h, policy) && EntryRight(t, h, job, repository, e, policy)
    ensures Reached(t, job, e) == Made(policy, h.origins[KeyOf(job, e)], e)
  {
    var row := t.rows[KeyOf(job, e)];
    if row.StoredRow? { assert ArtifactSound(t.artifacts[row.artifact], h.made[row.artifact], policy); }
  }

  /** After any run, a published snapshot reaches file by file what the requests make that its rows
      record, under whatever profiles and with whatever other files those were. */
  lemma ReachesOrigins(policy: Policy, steps: seq<Step>, job: Job, e: Entry)
    requires Possible(policy, steps) && job in Exec(policy, steps).tables.reports
    ensures var s := Exec(policy, steps);
            && job.snapshot in s.tables.snapshots && DistinctPaths(s.tables.snapshots[job.snapshot].entries)
            && (e in s.tables.snapshots[job.snapshot].entries ==>
                 && KeyOf(job, e) in s.history.origins
                 && Reached(s.tables, job, e) == Made(policy, s.history.origins[KeyOf(job, e)], e)
                 && (!policy.skips(e.path) ==> Asks(s.history.origins[KeyOf(job, e)], e, policy)))
  {
    EveryRunSound(policy, steps);
    var s := Exec(policy, steps);
    assert JobRight(s.tables, s.history, job, policy);
    var snapshot := s.tables.snapshots[job.snapshot];
    if e in snapshot.entries {
      var i :| 0 <= i < |snapshot.entries| && snapshot.entries[i] == e;
      assert EntryRight(s.tables, s.history, job, snapshot.repository, snapshot.entries[i], policy);
      RightReaches(s.tables, s.history, job, snapshot.repository, e, policy);
    }
  }

  /** The snapshot reaches file by file what chunking it from scratch gives. */
  ghost predicate AsFromScratch(t: Tables, policy: Policy, job: Job)
    requires job.snapshot in t.snapshots
  {
    var entries := t.snapshots[job.snapshot].entries;
    forall i :: 0 <= i < |entries| ==>
      Reached(t, job, entries[i]) == Made(policy, Afresh(job, entries, policy.skips), entries[i])
  }

  /** After any run, a published snapshot is as from scratch exactly if, for each of its files, the
      request that its row records makes the same of it as chunking the snapshot from scratch. */
  lemma AsFromScratchIff(policy: Policy, steps: seq<Step>, job: Job)
    requires Possible(policy, steps) && job in Exec(policy, steps).tables.reports
    ensures var s := Exec(policy, steps);
            job.snapshot in s.tables.snapshots &&
            var entries := s.tables.snapshots[job.snapshot].entries;
            (forall i :: 0 <= i < |entries| ==> KeyOf(job, entries[i]) in s.history.origins) &&
            (AsFromScratch(s.tables, policy, job) <==>
             forall i :: 0 <= i < |entries| ==>
               Made(policy, s.history.origins[KeyOf(job, entries[i])], entries[i]) ==
               Made(policy, Afresh(job, entries, policy.skips), entries[i]))
  {
    var s := Exec(policy, steps);
    ReachesOrigins(policy, steps, job, Entry("", ""));
    var entries := s.tables.snapshots[job.snapshot].entries;
    forall i | 0 <= i < |entries|
      ensures KeyOf(job, entries[i]) in s.history.origins &&
              Reached(s.tables, job, entries[i]) == Made(policy, s.history.origins[KeyOf(job, entries[i])], entries[i])
    {
      ReachesOrigins(policy, steps, job, entries[i]);
    }
  }

  /** After any run, no row names a collected artifact. */
  lemma NoReferencedArtifactCollected(policy: Policy, steps: seq<Step>, k: Key)
    requires Possible(policy, steps)
    requires k in Exec(policy, steps).tables.rows && Exec(policy, steps).tables.rows[k].StoredRow?
    ensures Exec(policy, steps).tables.rows[k].artifact in Exec(policy, steps).tables.artifacts
  {
    EveryRunSound(policy, steps);
    RowsNameArtifacts(Exec(policy, steps).tables, Exec(policy, steps).history, policy, k);
  }
}
