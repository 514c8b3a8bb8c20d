/** What one publication records, whatever the worker's answers are. */
module ArtifactRecords {
  import opened ArtifactStore

  type Artifacts = map<ArtifactId, Artifact>

  /** Artifacts are only added, under fresh ids. */
  ghost predicate Extends(later: Artifacts, earlier: Artifacts, next: ArtifactId)
  {
    && (forall id :: id in earlier ==> id in later && later[id] == earlier[id])
    && (forall id :: id in later && id < next ==> id in earlier)
  }

  ghost predicate Numbered(artifacts: Artifacts, next: ArtifactId) { forall id :: id in artifacts ==> id < next }

  ghost predicate Follows(w: Work, v: Work)
  {
    w.next <= v.next && Numbered(v.artifacts, v.next) && Extends(v.artifacts, w.artifacts, w.next)
  }

  /** Nothing found for reuse is an artifact still to come. */
  ghost predicate FoundEarlier(b: Batch, next: ArtifactId)
  {
    forall path :: path in b.reusable ==> b.reusable[path] < next
  }

  // ---------- One entry ----------

  /** The artifact is the worker's answer about this entry. */
  predicate AnswerAbout(a: Artifact, b: Batch, skips: Path -> bool, e: Entry)
  {
    && ToChunk(e, skips, b.reusable) && e.path in b.events
    && b.events[e.path].Chunked? && b.events[e.path].chunks != [] && a == NewArtifact(b, e, b.events[e.path])
  }

  /** The entry has its row: that it is skipped, the artifact reused, or the worker's answer. */
  predicate EntryRecorded(held: Artifacts, next: ArtifactId, rows: map<Key, Row>, artifacts: Artifacts, b: Batch,
                          skips: Path -> bool, e: Entry)
  {
    KeyOf(b.job, e) in rows &&
    var row := rows[KeyOf(b.job, e)];
    if skips(e.path) then row == SkippedRow
    else if e.path in b.reusable then row == StoredRow(b.reusable[e.path]) && row.artifact in held
    else
      e.path in b.events &&
      match b.events[e.path]
      case Skipped => row == SkippedRow
      case Failed => row == FailedRow
      case Chunked(chunks, _) =>
        if chunks == [] then row == FailedRow
        else
          && row.StoredRow? && row.artifact >= next && row.artifact in artifacts
          && AnswerAbout(artifacts[row.artifact], b, skips, e)
  }

  /** Recording one entry adds its row, at most one artifact, and touches nothing else. */
  ghost predicate OneRecorded(u: Work, v: Work, b: Batch, skips: Path -> bool, e: Entry)
  {
    && Follows(u, v)
    && EntryRecorded(u.artifacts, u.next, v.rows, v.artifacts, b, skips, e)
    && v.rows == u.rows[KeyOf(b.job, e) := v.rows[KeyOf(b.job, e)]]
    && (forall id :: id in v.artifacts && id >= u.next ==> AnswerAbout(v.artifacts[id], b, skips, e))
  }

  lemma PlaceRecords(u: Work, b: Batch, skips: Path -> bool, e: Entry)
    requires Numbered(u.artifacts, u.next) && Place(u, b, skips, e).Ok?
    ensures OneRecorded(u, Place(u, b, skips, e).value, b, skips, e)
  {
  }

  // ---------- All entries ----------

  ghost predicate OfJob(k: Key, job: Job) { k.snapshot == job.snapshot && k.profile == job.profile }

  ghost predicate ListsUpTo(entries: seq<Entry>, n: nat, path: Path)
  {
    exists i :: 0 <= i < n && i < |entries| && entries[i].path == path
  }

  /** Only rows of the job's first n entries are new. */
  ghost predicate RowsKept(before: map<Key, Row>, after: map<Key, Row>, b: Batch, n: nat)
  {
    && (forall k :: k in after && k !in before ==> OfJob(k, b.job) && ListsUpTo(b.entries, n, k.path))
    && (forall k :: k in before && !OfJob(k, b.job) ==> k in after && after[k] == before[k])
  }

  ghost predicate AnswerAmong(a: Artifact, b: Batch, skips: Path -> bool, n: nat)
  {
    exists i :: 0 <= i < n && i < |b.entries| && AnswerAbout(a, b, skips, b.entries[i])
  }

  /** New artifacts are answers about the first n entries. */
  ghost predicate NewAnswers(next: ArtifactId, artifacts: Artifacts, b: Batch, skips: Path -> bool, n: nat)
  {
    forall id :: id in artifacts && id >= next ==> AnswerAmong(artifacts[id], b, skips, n)
  }

  ghost predicate AllRecorded(w: Work, v: Work, b: Batch, skips: Path -> bool, n: nat)
    requires n <= |b.entries|
  {
    && Follows(w, v) && RowsKept(w.rows, v.rows, b, n) && NewAnswers(w.next, v.artifacts, b, skips, n)
    && forall i :: 0 <= i < n ==> EntryRecorded(w.artifacts, w.next, v.rows, v.artifacts, b, skips, b.entries[i])
  }

  lemma KeptLater(rows: map<Key, Row>, u: Work, v: Work, b: Batch, skips: Path -> bool, n: nat)
    requires n < |b.entries| && RowsKept(rows, u.rows, b, n) && OneRecorded(u, v, b, skips, b.entries[n])
    ensures RowsKept(rows, v.rows, b, n + 1)
  {
    forall k | k in v.rows && k !in rows
      ensures OfJob(k, b.job) && ListsUpTo(b.entries, n + 1, k.path)
    {
      if k in u.rows {
        var i :| 0 <= i < n && i < |b.entries| && b.entries[i].path == k.path;
      } else {
        assert k == KeyOf(b.job, b.entries[n]) && b.entries[n].path == k.path;
      }
    }
  }

  lemma RecordedLater(w: Work, u: Work, v: Work, b: Batch, skips: Path -> bool, e: Entry, other: Entry)
    requires e.path != other.path && OneRecorded(u, v, b, skips, other)
    requires EntryRecorded(w.artifacts, w.next, u.rows, u.artifacts, b, skips, e)
    ensures EntryRecorded(w.artifacts, w.next, v.rows, v.artifacts, b, skips, e)
  {
  }

  /** What is reused at any time was there from the start. */
  lemma RecordedFromStart(w: Work, u: Work, v: Work, b: Batch, skips: Path -> bool, e: Entry)
    requires Follows(w, u) && FoundEarlier(b, w.next)
    requires EntryRecorded(u.artifacts, u.next, v.rows, v.artifacts, b, skips, e)
    ensures EntryRecorded(w.artifacts, w.next, v.rows, v.artifacts, b, skips, e)
  {
  }

  lemma AnswersLater(w: Work, u: Work, v: Work, b: Batch, skips: Path -> bool, n: nat)
    requires n < |b.entries| && NewAnswers(w.next, u.artifacts, b, skips, n)
    requires OneRecorded(u, v, b, skips, b.entries[n])
    ensures NewAnswers(w.next, v.artifacts, b, skips, n + 1)
  {
    forall id | id in v.artifacts && id >= w.next
      ensures AnswerAmong(v.artifacts[id], b, skips, n + 1)
    {
      if id >= u.next {
        assert AnswerAbout(v.artifacts[id], b, skips, b.entries[n]);
      } else {
        assert AnswerAmong(u.artifacts[id], b, skips, n);
        var i :| 0 <= i < n && i < |b.entries| && AnswerAbout(u.artifacts[id], b, skips, b.entries[i]);
      }
    }
  }

  lemma ExtendsOn(w: Work, u: Work, v: Work)
    requires Follows(w, u) && Follows(u, v)
    ensures Follows(w, v)
  {
  }

  lemma RecordsNext(w: Work, u: Work, v: Work, b: Batch, skips: Path -> bool, n: nat)
    requires n < |b.entries| && DistinctPaths(b.entries) && FoundEarlier(b, w.next)
    requires AllRecorded(w, u, b, skips, n) && OneRecorded(u, v, b, skips, b.entries[n])
    ensures AllRecorded(w, v, b, skips, n + 1)
  {
    var e := b.entries[n];
    RecordedFromStart(w, u, v, b, skips, e);
    ExtendsOn(w, u, v);
    KeptLater(w.rows, u, v, b, skips, n);
    AnswersLater(w, u, v, b, skips, n);
    forall i | 0 <= i < n
      ensures EntryRecorded(w.artifacts, w.next, v.rows, v.artifacts, b, skips, b.entries[i])
    {
      RecordedLater(w, u, v, b, skips, b.entries[i], e);
    }
  }

  lemma {:induction false} PlacedRecords(w: Work, b: Batch, skips: Path -> bool, n: nat)
    requires n <= |b.entries| && DistinctPaths(b.entries) && Numbered(w.artifacts, w.next) && FoundEarlier(b, w.next)
    requires Placed(w, b, skips, n).Ok?
    ensures AllRecorded(w, Placed(w, b, skips, n).value, b, skips, n)
  {
    if n > 0 {
      PlacedRecords(w, b, skips, n - 1);
      RecordsPlaced(w, Placed(w, b, skips, n - 1).value, b, skips, n - 1);
    }
  }

  lemma RecordsPlaced(w: Work, u: Work, b: Batch, skips: Path -> bool, n: nat)
    requires n < |b.entries| && DistinctPaths(b.entries) && FoundEarlier(b, w.next)
    requires AllRecorded(w, u, b, skips, n) && Place(u, b, skips, b.entries[n]).Ok?
    ensures AllRecorded(w, Place(u, b, skips, b.entries[n]).value, b, skips, n + 1)
  {
    PlaceRecords(u, b, skips, b.entries[n]);
    RecordsNext(w, u, Place(u, b, skips, b.entries[n]).value, b, skips, n);
  }

  // ---------- A publication ----------

  /** What is known of the batch when it is published, whatever was collected or added since it was read. */
  ghost predicate Publishable(t: Tables, b: Batch)
  {
    DistinctPaths(b.entries) && Numbered(t.artifacts, t.next) && FoundEarlier(b, t.next)
  }

  /** The tables after a publication: a row for each entry of the job, the artifacts answered by the
      worker, a report, and everything else as before. */
  ghost predicate Recorded(t: Tables, after: Tables, b: Batch, skips: Path -> bool)
  {
    && after.snapshots == t.snapshots && b.job in after.reports
    && after.reports == t.reports[b.job := after.reports[b.job]]
    && t.next <= after.next && Numbered(after.artifacts, after.next) && Extends(after.artifacts, t.artifacts, t.next)
    && NewAnswers(t.next, after.artifacts, b, skips, |b.entries|)
    && RowsKept(Without(t.rows, b.job), after.rows, b, |b.entries|)
    && forall i :: 0 <= i < |b.entries| ==>
        EntryRecorded(t.artifacts, t.next, after.rows, after.artifacts, b, skips, b.entries[i])
  }

  lemma PublishedRecords(t: Tables, b: Batch, skips: Path -> bool)
    requires Publishable(t, b) && Published(t, b, skips).Ok?
    ensures Recorded(t, Published(t, b, skips).value, b, skips)
  {
    PlacedRecords(Begin(t, b.job), b, skips, |b.entries|);
  }

  // ---------- Counts ----------

  /** Every entry is counted once. */
  lemma {:induction false} PlacedCounts(w: Work, b: Batch, skips: Path -> bool, n: nat)
    requires n <= |b.entries| && Placed(w, b, skips, n).Ok?
    ensures var v := Placed(w, b, skips, n).value;
            v.successful + v.skipped + v.failed == w.successful + w.skipped + w.failed + n
  {
    if n > 0 { PlacedCounts(w, b, skips, n - 1); }
  }

  /** A published report accounts for every file of the manifest. */
  lemma ReportAddsUp(t: Tables, b: Batch, skips: Path -> bool)
    requires Published(t, b, skips).Ok?
    ensures var after := Published(t, b, skips).value;
            b.job in after.reports &&
            var r := after.reports[b.job];
            r.discovered == |b.entries| == r.successful + r.skipped + r.failed && r.successful > 0
  {
    PlacedCounts(Begin(t, b.job), b, skips, |b.entries|);
  }

  /** The chunks that the worker answered for the files it was asked about. */
  function ChunksAnswered(b: Batch, skips: Path -> bool, n: nat): nat
    requires n <= |b.entries|
  {
    if n == 0 then 0
    else
      var e := b.entries[n - 1];
      ChunksAnswered(b, skips, n - 1) +
      if ToChunk(e, skips, b.reusable) && e.path in b.events && b.events[e.path].Chunked?
      then |b.events[e.path].chunks| else 0
  }

  lemma {:induction false} CreatedUpTo(w: Work, b: Batch, skips: Path -> bool, n: nat)
    requires n <= |b.entries| && Placed(w, b, skips, n).Ok?
    ensures Placed(w, b, skips, n).value.created == w.created + ChunksAnswered(b, skips, n)
  {
    if n > 0 { CreatedUpTo(w, b, skips, n - 1); }
  }

  lemma {:induction false} SupportedAreAsked(entries: seq<Entry>, skips: Path -> bool)
    ensures Supported(entries, skips) == |Asked(entries, skips, map[])|
  {
    if entries != [] { SupportedAreAsked(entries[..|entries| - 1], skips); }
  }

  /** A report counts as supported the files a request for the whole snapshot would ask for, as reused
      the artifacts found, and as created the chunks of the worker's answers. */
  lemma ReportFields(t: Tables, b: Batch, skips: Path -> bool)
    requires Published(t, b, skips).Ok?
    ensures var after := Published(t, b, skips).value;
            b.job in after.reports &&
            var r := after.reports[b.job];
            && r.supported == |Asked(b.entries, skips, map[])| && r.reused == |b.reusable|
            && r.created == ChunksAnswered(b, skips, |b.entries|)
  {
    CreatedUpTo(Begin(t, b.job), b, skips, |b.entries|);
    SupportedAreAsked(b.entries, skips);
  }

  /** Files are asked for or reused, each once: with what was found for the snapshot, the two add up
      to the files supported. */
  lemma AskedAndReused(artifacts: Artifacts, b: Batch, skips: Path -> bool)
    requires DistinctPaths(b.entries)
    requires Found(artifacts, b.repository, b.entries, b.job.profile, skips, b.reusable)
    ensures |Asked(b.entries, skips, b.reusable)| + |b.reusable| == |Asked(b.entries, skips, map[])|
  {
    forall i | 0 <= i < |b.entries|
      ensures b.entries[i].path in b.reusable ==> !skips(b.entries[i].path)
    {
      assert ReuseRight(artifacts, b.repository, b.entries[i], b.job.profile, skips, b.reusable);
    }
    AskedAndReusedUpTo(b.entries, skips, b.reusable, |b.entries|);
    assert b.entries[..|b.entries|] == b.entries;
    assert b.reusable.Keys == PathsAmong(b.entries, b.reusable, |b.entries|);
    assert |b.reusable.Keys| == |b.reusable|;
  }

  function PathsAmong(entries: seq<Entry>, reusable: map<Path, ArtifactId>, n: nat): set<Path>
    requires n <= |entries|
  {
    set i | 0 <= i < n && entries[i].path in reusable :: entries[i].path
  }

  lemma {:induction false} AskedAndReusedUpTo(entries: seq<Entry>, skips: Path -> bool, reusable: map<Path,
                                              ArtifactId>, n: nat)
    requires n <= |entries| && DistinctPaths(entries)
    requires forall i :: 0 <= i < |entries| && entries[i].path in reusable ==> !skips(entries[i].path)
    ensures |Asked(entries[..n], skips, reusable)| + |PathsAmong(entries, reusable, n)| ==
            |Asked(entries[..n], skips, map[])|
  {
    if n > 0 {
      AskedAndReusedUpTo(entries, skips, reusable, n - 1);
      assert entries[..n][..n - 1] == entries[..n - 1];
      PathsNext(entries, reusable, n - 1);
    } else {
      assert PathsAmong(entries, reusable, 0) == {};
    }
  }

  lemma PathsNext(entries: seq<Entry>, reusable: map<Path, ArtifactId>, n: nat)
    requires n < |entries| && DistinctPaths(entries)
    ensures |PathsAmong(entries, reusable, n + 1)| ==
            |PathsAmong(entries, reusable, n)| + if entries[n].path in reusable then 1 else 0
  {
    var before, after := PathsAmong(entries, reusable, n), PathsAmong(entries, reusable, n + 1);
    if entries[n].path in reusable {
      assert after == before + {entries[n].path};
      assert entries[n].path !in before;
    } else {
      assert after == before;
    }
  }
}
