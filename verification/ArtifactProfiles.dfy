/** What a snapshot reaches when its job was queued under one profile and the processor that
    publishes it chunks under another. */
module ArtifactProfiles {
  import opened ArtifactStore
  import opened ArtifactRecords
  import opened ArtifactReuse

  // ---------- What it takes to be as from scratch ----------

  /** A publication that goes through, on whatever artifacts there are. */
  ghost predicate GoesThrough(t: Tables, b: Batch, skips: Path -> bool)
  {
    && Publishable(t, b) && Published(t, b, skips).Ok?
    && b.job.snapshot in t.snapshots && t.snapshots[b.job.snapshot].entries == b.entries
  }

  /** Skipped entries reach nothing, reused ones the artifact, and the others what the processor's
      request makes of them. */
  lemma PublishedReaches(t: Tables, b: Batch, policy: Policy, running: Profile, i: nat)
    requires GoesThrough(t, b, policy.skips) && Answers(b, policy, running) && i < |b.entries|
    ensures var e := b.entries[i];
            Reached(Published(t, b, policy.skips).value, b.job, e) ==
            if policy.skips(e.path) then []
            else if e.path in b.reusable then
              if b.reusable[e.path] in t.artifacts then t.artifacts[b.reusable[e.path]].chunks else []
            else Made(policy, RequestOf(b, policy.skips, running), e)
  {
    var e, after := b.entries[i], Published(t, b, policy.skips).value;
    PublishedRecords(t, b, policy.skips);
    assert EntryRecorded(t.artifacts, t.next, after.rows, after.artifacts, b, policy.skips, e);
    assert AnswerRight(b, policy, running, e);
  }

  /** The artifact reused, or the processor's answer, is what chunking the snapshot afresh makes. */
  predicate EntryAfresh(t: Tables, b: Batch, policy: Policy, running: Profile, e: Entry)
  {
    var afresh := Made(policy, Afresh(b.job, b.entries, policy.skips), e);
    if policy.skips(e.path) then true
    else if e.path in b.reusable then
      b.reusable[e.path] in t.artifacts && t.artifacts[b.reusable[e.path]].chunks == afresh
    else Made(policy, RequestOf(b, policy.skips, running), e) == afresh
  }

  lemma EntryAfreshIff(t: Tables, b: Batch, policy: Policy, running: Profile, i: nat)
    requires GoesThrough(t, b, policy.skips) && Answers(b, policy, running) && i < |b.entries|
    ensures Reached(Published(t, b, policy.skips).value, b.job, b.entries[i]) ==
            Made(policy, Afresh(b.job, b.entries, policy.skips), b.entries[i])
            <==> EntryAfresh(t, b, policy, running, b.entries[i])
  {
    var e, after := b.entries[i], Published(t, b, policy.skips).value;
    PublishedReaches(t, b, policy, running, i);
    PublishedRecords(t, b, policy.skips);
    assert EntryRecorded(t.artifacts, t.next, after.rows, after.artifacts, b, policy.skips, e);
  }

  /** Whatever the store holds and wherever it came from, a publication is as from scratch exactly if
      each artifact it reuses holds what chunking the snapshot afresh gives, and the processor's
      request makes the same of every other file. */
  lemma PublishedAsFromScratchIff(t: Tables, b: Batch, policy: Policy, running: Profile)
    requires GoesThrough(t, b, policy.skips) && Answers(b, policy, running)
    ensures b.job.snapshot in Published(t, b, policy.skips).value.snapshots
    ensures AsFromScratch(Published(t, b, policy.skips).value, policy, b.job) <==>
            forall i :: 0 <= i < |b.entries| ==> EntryAfresh(t, b, policy, running, b.entries[i])
  {
    PublishedRecords(t, b, policy.skips);
    var after := Published(t, b, policy.skips).value;
    forall i | 0 <= i < |b.entries|
      ensures Reached(after, b.job, b.entries[i]) ==
              Made(policy, Afresh(b.job, b.entries, policy.skips), b.entries[i])
              <==> EntryAfresh(t, b, policy, running, b.entries[i])
    {
      EntryAfreshIff(t, b, policy, running, i);
    }
  }

  // ---------- A profile that is new to the store ----------

  /** The two workers differ at most under this profile. */
  ghost predicate SameBut(policy: Policy, base: Policy, profile: Profile)
  {
    && policy.skips == base.skips
    && forall r: Request, e: Entry :: r.profile != profile ==> policy.chunk(r, e) == base.chunk(r, e)
  }

  ghost predicate RightUnder(t: Tables, b: Batch, policy: Policy, running: Profile)
  {
    Answers(b, policy, running) ==>
      && GoesThrough(t, b, policy.skips)
      && b.job.snapshot in Published(t, b, policy.skips).value.snapshots
      && AsFromScratch(Published(t, b, policy.skips).value, policy, b.job)
  }

  /** An outcome with other chunks. */
  function Differing(o: Outcome): Outcome
  {
    if o.Chunked? && o.chunks != [] then Failed else Chunked([Chunk(0, 1, "x")], "")
  }

  function DiffersUnder(base: Policy, queued: Profile, running: Profile): Policy
  {
    Policy(base.skips, (r: Request, e: Entry) =>
      if r.profile == queued then Differing(base.chunk(Request(running, r.files), e)) else base.chunk(r, e))
  }

  lemma {:induction false} SomeSupported(entries: seq<Entry>, skips: Path -> bool) returns (i: nat)
    requires Supported(entries, skips) > 0
    ensures i < |entries| && !skips(entries[i].path)
  {
    var n := |entries| - 1;
    if skips(entries[n].path) { i := SomeSupported(entries[..n], skips); } else { i := n; }
  }

  /** No artifact under this profile exists yet. */
  ghost predicate NewProfile(t: Tables, profile: Profile)
  {
    forall id :: id in t.artifacts ==> t.artifacts[id].profile != profile
  }

  /** With a profile that is new to the store nothing is reused, and the processor asks for all files. */
  lemma NothingReused(t: Tables, b: Batch, skips: Path -> bool)
    requires GoesThrough(t, b, skips) && AllReuseSafe(b, t, skips) && NewProfile(t, b.job.profile)
    ensures forall i :: 0 <= i < |b.entries| && !skips(b.entries[i].path) ==> b.entries[i].path !in b.reusable
    ensures Asked(b.entries, skips, b.reusable) == Asked(b.entries, skips, map[])
  {
    PublishedRecords(t, b, skips);
    var after := Published(t, b, skips).value;
    forall i | 0 <= i < |b.entries| && !skips(b.entries[i].path)
      ensures b.entries[i].path !in b.reusable
    {
      assert EntryRecorded(t.artifacts, t.next, after.rows, after.artifacts, b, skips, b.entries[i]);
      assert ReuseSafe(b, t, skips, b.entries[i]);
    }
    AskedAlike(b.entries, skips, b.reusable);
  }

  lemma {:induction false} AskedAlike(entries: seq<Entry>, skips: Path -> bool, reusable: map<Path, ArtifactId>)
    requires forall i :: 0 <= i < |entries| && !skips(entries[i].path) ==> entries[i].path !in reusable
    ensures Asked(entries, skips, reusable) == Asked(entries, skips, map[])
  {
    if entries != [] { AskedAlike(entries[..|entries| - 1], skips, reusable); }
  }

  lemma DiffersThere(base: Policy, queued: Profile, running: Profile, files: seq<Entry>, e: Entry)
    requires queued != running && !base.skips(e.path)
    ensures var policy := DiffersUnder(base, queued, running);
            Made(policy, Request(running, files), e) != Made(policy, Request(queued, files), e)
  {
    var policy, o := DiffersUnder(base, queued, running), base.chunk(Request(running, files), e);
    assert policy.chunk(Request(running, files), e) == o && policy.chunk(Request(queued, files), e) == Differing(o);
    if !(o.Chunked? && o.chunks != []) {
      assert Made(policy, Request(queued, files), e) == [Chunk(0, 1, "x")];
    }
  }

  lemma SameAnswers(b: Batch, base: Policy, policy: Policy, running: Profile)
    requires Answers(b, base, running) && SameBut(policy, base, b.job.profile) && b.job.profile != running
    ensures Answers(b, policy, running)
  {
    forall i | 0 <= i < |b.entries|
      ensures AnswerRight(b, policy, running, b.entries[i])
    {
      assert AnswerRight(b, base, running, b.entries[i]);
    }
  }

  lemma DifferentIsWrong(t: Tables, b: Batch, base: Policy, running: Profile)
    requires GoesThrough(t, b, base.skips) && AllReuseSafe(b, t, base.skips) && Answers(b, base, running)
    requires NewProfile(t, b.job.profile) && b.job.profile != running
    ensures SameBut(DiffersUnder(base, b.job.profile, running), base, b.job.profile)
    ensures !RightUnder(t, b, DiffersUnder(base, b.job.profile, running), running)
  {
    var policy := DiffersUnder(base, b.job.profile, running);
    var i := SomeSupported(b.entries, base.skips);
    NothingReused(t, b, base.skips);
    SameAnswers(b, base, policy, running);
    PublishedAsFromScratchIff(t, b, policy, running);
    DiffersThere(base, b.job.profile, running, Asked(b.entries, base.skips, map[]), b.entries[i]);
    assert !EntryAfresh(t, b, policy, running, b.entries[i]);
  }

  /** The processor never compares the two profiles. When a snapshot is published under a profile that
      is new to the store, the result agrees with chunking afresh, whatever the worker makes of that
      profile, exactly if the processor runs under it too. */
  lemma ProfilesMustAgree(t: Tables, b: Batch, base: Policy, running: Profile)
    requires GoesThrough(t, b, base.skips) && AllReuseSafe(b, t, base.skips) && Answers(b, base, running)
    requires NewProfile(t, b.job.profile)
    ensures (forall policy :: SameBut(policy, base, b.job.profile) ==> RightUnder(t, b, policy, running))
            <==> b.job.profile == running
  {
    if b.job.profile == running {
      NothingReused(t, b, base.skips);
      forall policy | SameBut(policy, base, b.job.profile) && Answers(b, policy, running)
        ensures RightUnder(t, b, policy, running)
      {
        PublishedAsFromScratchIff(t, b, policy, running);
      }
    } else {
      DifferentIsWrong(t, b, base, running);
    }
  }
}
