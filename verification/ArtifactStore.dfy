/** Publishing chunked snapshots: rows and artifacts in one transaction, reuse of the artifacts of
    earlier snapshots, deletion of snapshots and garbage collection. */
module ArtifactStore {
  type Path = string
  type Digest = string
  type Profile = string
  type SnapshotId = nat
  type RepositoryId = nat
  type ArtifactId = nat

  datatype Entry = Entry(path: Path, sha: Digest)
  datatype Chunk = Chunk(start: nat, end: nat, text: string)

  /** The worker's last word on one file. */
  datatype Outcome = Chunked(chunks: seq<Chunk>, options: string) | Skipped | Failed

  datatype Artifact = Artifact(
    repository: RepositoryId, path: Path, sha: Digest, profile: Profile, options: string, chunks: seq<Chunk>)

  datatype Key = Key(snapshot: SnapshotId, profile: Profile, path: Path)
  datatype Row = SkippedRow | FailedRow | StoredRow(artifact: ArtifactId)
  datatype Snapshot = Snapshot(repository: RepositoryId, entries: seq<Entry>)
  datatype Job = Job(snapshot: SnapshotId, profile: Profile)
  datatype Report = Report(
    discovered: nat, supported: nat, reused: nat, successful: nat, skipped: nat, failed: nat, created: nat)

  datatype Error = IncompleteResult(path: Path) | Conflict | ArtifactGone | NothingChunked

  datatype Result<T> = Ok(value: T) | Err(error: Error)

  datatype Tables = Tables(
    snapshots: map<SnapshotId, Snapshot>,
    artifacts: map<ArtifactId, Artifact>,
    next: ArtifactId,
    rows: map<Key, Row>,
    reports: map<Job, Report>)

  /** What a worker is asked: the profile its processor runs under, and the files to chunk. */
  datatype Request = Request(profile: Profile, files: seq<Entry>)

  /** What decides the outcome of a file: paths that are never chunked, and the worker, whose answer
      depends on the request and the file only. */
  datatype Policy = Policy(skips: Path -> bool, chunk: (Request, Entry) -> Outcome)

  ghost predicate DistinctPaths(entries: seq<Entry>)
  {
    forall i, j :: 0 <= i < j < |entries| ==> entries[i].path != entries[j].path
  }

  // ---------- Reuse ----------

  predicate Matches(a: Artifact, repository: RepositoryId, e: Entry, profile: Profile)
  {
    a.repository == repository && a.path == e.path && a.sha == e.sha && a.profile == profile
  }

  ghost predicate HasMatch(artifacts: map<ArtifactId, Artifact>, repository: RepositoryId, e: Entry, profile: Profile)
  {
    exists id :: id in artifacts && Matches(artifacts[id], repository, e, profile)
  }

  type Index = map<(Path, Digest), ArtifactId>

  /** The index names only artifacts of the repository under this profile, by their path and content. */
  ghost predicate IndexSound(artifacts: map<ArtifactId, Artifact>, repository: RepositoryId, profile: Profile,
                             index: Index)
  {
    forall key :: key in index ==>
      index[key] in artifacts && Matches(artifacts[index[key]], repository, Entry(key.0, key.1), profile)
  }

  ghost predicate Indexed(a: Artifact, repository: RepositoryId, profile: Profile, hashes: set<Digest>, index: Index)
  {
    a.repository == repository && a.profile == profile && a.sha in hashes ==> (a.path, a.sha) in index
  }

  /** It leaves out none of them whose content is asked for. */
  ghost predicate IndexFull(artifacts: map<ArtifactId, Artifact>, repository: RepositoryId, profile: Profile,
                            hashes: set<Digest>, index: Index)
  {
    forall id :: id in artifacts ==> Indexed(artifacts[id], repository, profile, hashes, index)
  }

  /** The entry is reused exactly if it is not skipped and an artifact for it exists. */
  ghost predicate ReuseRight(artifacts: map<ArtifactId, Artifact>, repository: RepositoryId, e: Entry, profile: Profile,
                             skips: Path -> bool, reusable: map<Path, ArtifactId>)
  {
    && (e.path in reusable <==> !skips(e.path) && HasMatch(artifacts, repository, e, profile))
    && (e.path in reusable ==>
          reusable[e.path] in artifacts && Matches(artifacts[reusable[e.path]], repository, e, profile))
  }

  ghost predicate Found(artifacts: map<ArtifactId, Artifact>, repository: RepositoryId, entries: seq<Entry>,
                        profile: Profile,
                        skips: Path -> bool, reusable: map<Path, ArtifactId>)
  {
    && (forall i :: 0 <= i < |entries| ==> ReuseRight(artifacts, repository, entries[i], profile, skips, reusable))
    && (forall path :: path in reusable ==> exists i :: 0 <= i < |entries| && entries[i].path == path)
  }

  // ---------- One publication ----------

  datatype Work = Work(
    artifacts: map<ArtifactId, Artifact>,
    next: ArtifactId,
    rows: map<Key, Row>,
    successful: nat,
    skipped: nat,
    failed: nat,
    created: nat)

  /** The manifest, the artifacts found for reuse and the worker's answers, as read before the
      publishing transaction. */
  datatype Batch = Batch(
    job: Job, repository: RepositoryId, entries: seq<Entry>,
    reusable: map<Path, ArtifactId>, events: map<Path, Outcome>)

  /** An artifact with the same fingerprint: same repository, path, content, profile and options. */
  predicate Taken(artifacts: map<ArtifactId, Artifact>, a: Artifact)
  {
    exists id :: id in artifacts && artifacts[id].(chunks := a.chunks) == a
  }

  function KeyOf(job: Job, e: Entry): Key { Key(job.snapshot, job.profile, e.path) }

  function NewArtifact(b: Batch, e: Entry, outcome: Outcome): Artifact
    requires outcome.Chunked?
  {
    Artifact(b.repository, e.path, e.sha, b.job.profile, outcome.options, outcome.chunks)
  }

  function AddSkipped(w: Work, key: Key): Work { w.(rows := w.rows[key := SkippedRow], skipped := w.skipped + 1) }

  function AddFailed(w: Work, key: Key): Work { w.(rows := w.rows[key := FailedRow], failed := w.failed + 1) }

  function AddStored(w: Work, key: Key, id: ArtifactId): Work
  {
    w.(rows := w.rows[key := StoredRow(id)], successful := w.successful + 1)
  }

  /** Records one entry. A row that names a collected artifact, or an artifact that already exists,
      aborts the transaction. */
  function Place(w: Work, b: Batch, skips: Path -> bool, e: Entry): Result<Work>
  {
    var key := KeyOf(b.job, e);
    if skips(e.path) then Ok(AddSkipped(w, key))
    else if e.path in b.reusable then
      if b.reusable[e.path] in w.artifacts then Ok(AddStored(w, key, b.reusable[e.path])) else Err(ArtifactGone)
    else if e.path !in b.events then Err(IncompleteResult(e.path))
    else
      match b.events[e.path]
      case Skipped => Ok(AddSkipped(w, key))
      case Failed => Ok(AddFailed(w, key))
      case Chunked(chunks, _) =>
        if chunks == [] then Ok(AddFailed(w, key))
        else
          var a := NewArtifact(b, e, b.events[e.path]);
          if Taken(w.artifacts, a) then Err(Conflict)
          else
            var stored := w.(artifacts := w.artifacts[w.next := a], next := w.next + 1,
                             created := w.created + |chunks|);
            Ok(AddStored(stored, key, w.next))
  }

  /** Records the first n entries, or the first error. */
  function Placed(w: Work, b: Batch, skips: Path -> bool, n: nat): Result<Work>
    requires n <= |b.entries|
  {
    if n == 0 then Ok(w)
    else
      var before := Placed(w, b, skips, n - 1);
      if before.Err? then before else Place(before.value, b, skips, b.entries[n - 1])
  }

  function Without(rows: map<Key, Row>, job: Job): map<Key, Row>
  {
    map k | k in rows && !(k.snapshot == job.snapshot && k.profile == job.profile) :: rows[k]
  }

  function Begin(t: Tables, job: Job): Work { Work(t.artifacts, t.next, Without(t.rows, job), 0, 0, 0, 0) }

  function Supported(entries: seq<Entry>, skips: Path -> bool): nat
  {
    if entries == [] then 0
    else Supported(entries[..|entries| - 1], skips) + if skips(entries[|entries| - 1].path) then 0 else 1
  }

  function ReportOf(w: Work, b: Batch, skips: Path -> bool): Report
  {
    Report(|b.entries|, Supported(b.entries, skips), |b.reusable|, w.successful, w.skipped, w.failed, w.created)
  }

  /** The tables after a publication, or why it was rolled back. */
  function Published(t: Tables, b: Batch, skips: Path -> bool): Result<Tables>
  {
    var w := Placed(Begin(t, b.job), b, skips, |b.entries|);
    if w.Err? then Err(w.error)
    else if Supported(b.entries, skips) == 0 || w.value.successful == 0 then Err(NothingChunked)
    else Ok(t.(artifacts := w.value.artifacts, next := w.value.next, rows := w.value.rows,
               reports := t.reports[b.job := ReportOf(w.value, b, skips)]))
  }

  // ---------- What the worker is asked ----------

  predicate ToChunk(e: Entry, skips: Path -> bool, reusable: map<Path, ArtifactId>)
  {
    !skips(e.path) && e.path !in reusable
  }

  /** The entries to chunk, in the order of the manifest. */
  function Asked(entries: seq<Entry>, skips: Path -> bool, reusable: map<Path, ArtifactId>): seq<Entry>
  {
    if entries == [] then []
    else
      var n := |entries| - 1;
      Asked(entries[..n], skips, reusable) + if ToChunk(entries[n], skips, reusable) then [entries[n]] else []
  }

  function RequestOf(b: Batch, skips: Path -> bool, running: Profile): Request
  {
    Request(running, Asked(b.entries, skips, b.reusable))
  }

  lemma {:induction false} AskedExactly(entries: seq<Entry>, skips: Path -> bool, reusable: map<Path, ArtifactId>,
                                        e: Entry)
    ensures e in Asked(entries, skips, reusable) <==> e in entries && ToChunk(e, skips, reusable)
  {
    if entries != [] {
      var n := |entries| - 1;
      AskedExactly(entries[..n], skips, reusable, e);
      assert entries == entries[..n] + [entries[n]];
    }
  }

  lemma {:induction false} AskedDistinct(entries: seq<Entry>, skips: Path -> bool, reusable: map<Path, ArtifactId>)
    requires DistinctPaths(entries)
    ensures DistinctPaths(Asked(entries, skips, reusable))
  {
    if entries != [] {
      var n := |entries| - 1;
      AskedDistinct(entries[..n], skips, reusable);
      forall e | e in Asked(entries[..n], skips, reusable)
        ensures e.path != entries[n].path
      {
        AskedExactly(entries[..n], skips, reusable, e);
        var i :| 0 <= i < n && entries[i] == e;
      }
    }
  }

  lemma {:induction false} AskedAll(entries: seq<Entry>, skips: Path -> bool, reusable: map<Path, ArtifactId>)
    requires forall i :: 0 <= i < |entries| ==> ToChunk(entries[i], skips, reusable)
    ensures Asked(entries, skips, reusable) == entries
  {
    if entries != [] {
      var n := |entries| - 1;
      AskedAll(entries[..n], skips, reusable);
      assert entries == entries[..n] + [entries[n]];
    }
  }

  // ---------- Deletion and collection ----------

  /** Deleting a snapshot deletes its rows and its job. */
  function WithoutSnapshot(t: Tables, s: SnapshotId): Tables
  {
    t.(snapshots := t.snapshots - {s},
       rows := map k | k in t.rows && k.snapshot != s :: t.rows[k],
       reports := map j | j in t.reports && j.snapshot != s :: t.reports[j])
  }

  ghost predicate Referenced(rows: map<Key, Row>, id: ArtifactId)
  {
    exists k :: k in rows && rows[k] == StoredRow(id)
  }

  /** Exactly the referenced artifacts stay. */
  ghost predicate Collected(before: Tables, after: Tables)
  {
    && after == before.(artifacts := after.artifacts)
    && (forall id :: id in after.artifacts <==> id in before.artifacts && Referenced(before.rows, id))
    && (forall id :: id in after.artifacts ==> after.artifacts[id] == before.artifacts[id])
  }

  /** The tables of the service, changed by one transaction at a time. */
  class Store {
    var snapshots: map<SnapshotId, Snapshot>
    var artifacts: map<ArtifactId, Artifact>
    var next: ArtifactId
    var rows: map<Key, Row>
    var reports: map<Job, Report>

    ghost function Contents(): Tables
      reads this
    {
      Tables(snapshots, artifacts, next, rows, reports)
    }

    constructor ()
      ensures Contents() == Tables(map[], map[], 0, map[], map[])
    {
      snapshots, artifacts, next, rows, reports := map[], map[], 0, map[], map[];
    }

    /** Indexes the artifacts of the repository under this profile by path and content. */
    method IndexByIdentity(repository: RepositoryId, profile: Profile, hashes: set<Digest>) returns (byIdentity: Index)
      ensures IndexSound(artifacts, repository, profile, byIdentity)
      ensures IndexFull(artifacts, repository, profile, hashes, byIdentity)
    {
      byIdentity := map[];
      var pending := artifacts.Keys;
      while pending != {}
        invariant pending <= artifacts.Keys
        invariant IndexSound(artifacts, repository, profile, byIdentity)
        invariant forall id :: id in artifacts && id !in pending ==>
                  Indexed(artifacts[id], repository, profile, hashes, byIdentity)
        decreases |pending|
      {
        var id :| id in pending;
        pending := pending - {id};
        var a := artifacts[id];
        if a.repository == repository && a.profile == profile && a.sha in hashes {
          byIdentity := byIdentity[(a.path, a.sha) := id];
        }
      }
    }

    method FindReusable(repository: RepositoryId, entries: seq<Entry>, profile: Profile, skips: Path -> bool)
      returns (reusable: map<Path, ArtifactId>)
      requires DistinctPaths(entries)
      ensures Found(artifacts, repository, entries, profile, skips, reusable)
      ensures forall i :: 0 <= i < |entries| && entries[i].path in reusable ==>
        reusable[entries[i].path] in artifacts &&
        var a := artifacts[reusable[entries[i].path]];
        a == Artifact(repository, entries[i].path, entries[i].sha, profile, a.options, a.chunks)
      ensures forall i, id :: 0 <= i < |entries| && id in artifacts && !skips(entries[i].path) ==>
        var a := artifacts[id];
        a == Artifact(repository, entries[i].path, entries[i].sha, profile, a.options, a.chunks) ==>
          entries[i].path in reusable
    {
      var hashes := set i | 0 <= i < |entries| :: entries[i].sha;
      var byIdentity := IndexByIdentity(repository, profile, hashes);
      reusable := map[];
      for n := 0 to |entries|
        invariant forall i :: 0 <= i < n ==> ReuseRight(artifacts, repository, entries[i], profile, skips, reusable)
        invariant forall path :: path in reusable ==> exists i :: 0 <= i < n && entries[i].path == path
      {
        var e := entries[n];
        MatchIndexed(artifacts, repository, e, profile, hashes, byIdentity);
        if !skips(e.path) && (e.path, e.sha) in byIdentity {
          reusable := reusable[e.path := byIdentity[(e.path, e.sha)]];
        }
      }
    }

    /** Replaces the rows of the job's snapshot; on an error nothing changes. */
    method Publish(b: Batch, skips: Path -> bool) returns (outcome: Result<Report>)
      modifies this
      ensures match Published(old(Contents()), b, skips)
              case Err(e) => outcome == Err(e) && Contents() == old(Contents())
              case Ok(t) => Contents() == t && b.job in t.reports && outcome == Ok(t.reports[b.job])
    {
      ghost var t := Contents();
      ghost var start := Begin(t, b.job);
      var w := Work(artifacts, next, Without(rows, b.job), 0, 0, 0, 0);
      var supported := 0;
      for n := 0 to |b.entries|
        invariant Contents() == t && Placed(start, b, skips, n) == Ok(w)
        invariant supported == Supported(b.entries[..n], skips)
      {
        var placed := Place(w, b, skips, b.entries[n]);
        if placed.Err? {
          PlacedError(start, b, skips, n + 1, |b.entries|);
          return Err(placed.error);
        }
        w := placed.value;
        SupportedNext(b.entries, skips, n);
        if !skips(b.entries[n].path) { supported := supported + 1; }
      }
      assert b.entries[..|b.entries|] == b.entries;
      if supported == 0 || w.successful == 0 { return Err(NothingChunked); }
      var report := Report(|b.entries|, supported, |b.reusable|, w.successful, w.skipped, w.failed, w.created);
      artifacts, next, rows := w.artifacts, w.next, w.rows;
      reports := reports[b.job := report];
      outcome := Ok(report);
    }

    method DeleteSnapshot(s: SnapshotId)
      modifies this
      ensures Contents() == WithoutSnapshot(old(Contents()), s)
      ensures snapshots == old(snapshots) - {s} && artifacts == old(artifacts) && next == old(next)
      ensures forall k :: k in rows <==> k in old(rows) && k.snapshot != s
      ensures forall k :: k in rows ==> rows[k] == old(rows)[k]
      ensures forall j :: j in reports <==> j in old(reports) && j.snapshot != s
      ensures forall j :: j in reports ==> reports[j] == old(reports)[j]
    {
      snapshots := snapshots - {s};
      rows := map k | k in rows && k.snapshot != s :: rows[k];
      reports := map j | j in reports && j.snapshot != s :: reports[j];
    }

    method GarbageCollect()
      modifies this
      ensures Collected(old(Contents()), Contents())
    {
      var referenced := set k | k in rows && rows[k].StoredRow? :: rows[k].artifact;
      var orphans := artifacts.Keys - referenced;
      ghost var before := Contents();
      artifacts := artifacts - orphans;
      forall id | id in before.artifacts
        ensures id in artifacts <==> Referenced(rows, id)
      {
        if id in referenced {
          var k :| k in rows && rows[k].StoredRow? && rows[k].artifact == id;
          assert rows[k] == StoredRow(id);
        }
      }
    }
  }

  lemma SupportedNext(entries: seq<Entry>, skips: Path -> bool, n: nat)
    requires n < |entries|
    ensures Supported(entries[..n + 1], skips) ==
            Supported(entries[..n], skips) + if skips(entries[n].path) then 0 else 1
  {
    assert entries[..n + 1][..n] == entries[..n];
  }

  lemma MatchIndexed(artifacts: map<ArtifactId, Artifact>, repository: RepositoryId, e: Entry, profile: Profile,
                     hashes: set<Digest>, index: Index)
    requires e.sha in hashes
    requires IndexSound(artifacts, repository, profile, index) &&
             IndexFull(artifacts, repository, profile, hashes, index)
    ensures (e.path, e.sha) in index <==> HasMatch(artifacts, repository, e, profile)
    ensures (e.path, e.sha) in index ==>
              index[(e.path, e.sha)] in artifacts && Matches(artifacts[index[(e.path, e.sha)]], repository, e, profile)
  {
    if (e.path, e.sha) in index {
      assert Matches(artifacts[index[(e.path, e.sha)]], repository, Entry(e.path, e.sha), profile);
    }
    if HasMatch(artifacts, repository, e, profile) {
      var id :| id in artifacts && Matches(artifacts[id], repository, e, profile);
      assert Indexed(artifacts[id], repository, profile, hashes, index);
    }
  }

  lemma {:induction false} PlacedError(w: Work, b: Batch, skips: Path -> bool, n: nat, m: nat)
    requires n <= m <= |b.entries| && Placed(w, b, skips, n).Err?
    ensures Placed(w, b, skips, m) == Placed(w, b, skips, n)
  {
    if n < m { PlacedError(w, b, skips, n, m - 1); }
  }
}
