/** Which engine chunks which file of a request, and when that is each file's own. */
module EngineDispatch {
  import opened ChunkingWorker

  /** The first file of the batch that loads is one the library knows. */
  predicate LedNative(env: Environment, limits: Limits, batch: seq<FileRequest>)
  {
    var loaded := Select(env, limits, batch, Readiness);
    loaded != [] && env.native(loaded[0])
  }

  /** The path is in a batch led by a file that the library knows. */
  predicate InLedBatch(env: Environment, limits: Limits, batches: seq<seq<FileRequest>>, path: string)
  {
    batches != [] &&
    var n := |batches| - 1;
    if path in Paths(batches[n]) then LedNative(env, limits, batches[n])
    else InLedBatch(env, limits, batches[..n], path)
  }

  /** The engine of a file in a request: that of its batch, or its own. */
  function EngineOf(env: Environment, limits: Limits, files: seq<FileRequest>, f: FileRequest): bool
  {
    InLedBatch(env, limits, Batches(env, limits, Ordinaries(env, limits, files)), f.path) || env.native(f)
  }

  // ---------- The batches do give these engines ----------

  lemma PathMember(files: seq<FileRequest>, i: nat)
    requires i < |files|
    ensures files[i].path in Paths(files)
  {
    PathsAll(files);
    assert i in Indices(|files|);
  }

  lemma PathIndex(files: seq<FileRequest>, path: string) returns (i: nat)
    requires path in Paths(files)
    ensures i < |files| && files[i].path == path
  {
    PathsAll(files);
    i :| i in Indices(|files|) && files[i].path == path;
  }

  /** Only the batch that holds a path decides about it. */
  lemma {:induction false} BatchDecides(env: Environment, limits: Limits, batches: seq<seq<FileRequest>>, k: nat,
                                        path: string)
    requires k < |batches| && path in Paths(batches[k]) && DistinctPaths(Concat(batches))
    ensures InLedBatch(env, limits, batches, path) == LedNative(env, limits, batches[k])
  {
    var n := |batches| - 1;
    FreshAppend(Concat(batches[..n]), batches[n], Concat(batches));
    if k < n {
      ConcatHas(batches[..n], k, path);
      DistinctFront(Concat(batches[..n]), batches[n]);
      BatchDecides(env, limits, batches[..n], k, path);
    }
  }

  lemma DistinctFront(xs: seq<FileRequest>, ys: seq<FileRequest>)
    requires DistinctPaths(xs + ys)
    ensures DistinctPaths(xs)
  {
    forall i, j | 0 <= i < j < |xs|
      ensures xs[i].path != xs[j].path
    {
      assert (xs + ys)[i] == xs[i] && (xs + ys)[j] == xs[j];
    }
  }

  lemma {:induction false} ConcatHas(batches: seq<seq<FileRequest>>, k: nat, path: string)
    requires k < |batches| && path in Paths(batches[k])
    ensures path in Paths(Concat(batches))
  {
    var n := |batches| - 1;
    PathsAppend(Concat(batches[..n]), batches[n]);
    if k < n { ConcatHas(batches[..n], k, path); }
  }

  lemma OrdinariesDistinct(env: Environment, limits: Limits, files: seq<FileRequest>)
    requires DistinctPaths(files)
    ensures DistinctPaths(Ordinaries(env, limits, files))
  {
    SelectDistinct(env, limits, files, Candidate);
    SelectDistinct(env, limits, Select(env, limits, files, Candidate), Ordinary);
  }

  lemma LoadedInBatch(env: Environment, limits: Limits, batch: seq<FileRequest>, i: nat)
    requires i < |Select(env, limits, batch, Readiness)|
    ensures Select(env, limits, batch, Readiness)[i].path in Paths(batch)
  {
    SelectMember(env, limits, batch, Readiness, i);
    var k :| 0 <= k < |batch| && batch[k] == Select(env, limits, batch, Readiness)[i];
    PathMember(batch, k);
  }

  /** A large file is in no batch. */
  lemma LargeUnbatched(env: Environment, limits: Limits, files: seq<FileRequest>, i: nat)
    requires DistinctPaths(files) && i < |Select(env, limits, Select(env, limits, files, Candidate), Large)|
    ensures var large := Select(env, limits, Select(env, limits, files, Candidate), Large);
            large[i].path !in Paths(Ordinaries(env, limits, files))
  {
    var candidates := Select(env, limits, files, Candidate);
    SelectDistinct(env, limits, files, Candidate);
    SelectsApart(env, limits, candidates, Large, Ordinary);
    PathMember(Select(env, limits, candidates, Large), i);
  }

  lemma {:induction false} NotInAny(env: Environment, limits: Limits, batches: seq<seq<FileRequest>>, path: string)
    requires path !in Paths(Concat(batches))
    ensures !InLedBatch(env, limits, batches, path)
  {
    if batches != [] {
      var n := |batches| - 1;
      PathsAppend(Concat(batches[..n]), batches[n]);
      NotInAny(env, limits, batches[..n], path);
    }
  }

  /** The same by path. */
  function EngineAt(env: Environment, limits: Limits, files: seq<FileRequest>, path: string): bool
  {
    path in RequestMap(files) && EngineOf(env, limits, files, RequestMap(files)[path])
  }

  /** The worker has these files requested, each with its engine. */
  ghost predicate Serves(w: Worker, files: seq<FileRequest>)
  {
    forall i :: 0 <= i < |files| ==>
      w.Requested(files[i]) && w.engines(files[i].path) == EngineOf(w.env, w.limits, files, files[i])
  }

  method NewWorker(env: Environment, options: WorkerOptions, limits: Limits, files: seq<FileRequest>)
    returns (w: Worker)
    requires DistinctPaths(files)
    ensures fresh(w) && w.env == env && w.options == options && w.limits == limits
    ensures w.Valid() && !w.completed && w.outcomes == map[] && w.out == []
    ensures w.requested.Keys == Paths(files) && Serves(w, files)
  {
    RequestMapRight(files);
    w := new Worker(env, options, limits, RequestMap(files), path => EngineAt(env, limits, files, path));
  }

  /** Serves a request with a new worker. Every file is closed exactly once, as the engine of its
      batch has it. */
  method Serve(env: Environment, options: WorkerOptions, limits: Limits, files: seq<FileRequest>) returns (w: Worker)
    requires DistinctPaths(files)
    ensures fresh(w) && w.env == env && w.options == options && w.limits == limits
    ensures w.Valid() && w.completed && w.requested.Keys == Paths(files) == w.outcomes.Keys && Serves(w, files)
  {
    w := NewWorker(env, options, limits, files);
    EnginesAssigned(w, files);
    var _ := w.ProcessRequest(files);
  }

  function RequestMap(files: seq<FileRequest>): map<string, FileRequest>
  {
    if files == [] then map[] else RequestMap(files[..|files| - 1])[files[|files| - 1].path := files[|files| - 1]]
  }

  lemma {:induction false} RequestMapRight(files: seq<FileRequest>)
    requires DistinctPaths(files)
    ensures RequestMap(files).Keys == Paths(files)
    ensures forall i :: 0 <= i < |files| ==>
            files[i].path in RequestMap(files) && RequestMap(files)[files[i].path] == files[i]
  {
    if files != [] { RequestMapRight(files[..|files| - 1]); }
  }

  lemma EnginesAssigned(w: Worker, files: seq<FileRequest>)
    requires DistinctPaths(files) && Serves(w, files)
    ensures w.Assigned(files)
  {
    var env, limits, ordinary := w.env, w.limits, Ordinaries(w.env, w.limits, files);
    var batches := Batches(env, limits, ordinary);
    forall k | 0 <= k < |batches|
      ensures w.Led(Select(env, limits, batches[k], Readiness))
    {
      BatchLed(w, files, k);
    }
    var large := Select(env, limits, Select(env, limits, files, Candidate), Large);
    forall i | 0 <= i < |large|
      ensures w.engines(large[i].path) == env.native(large[i])
    {
      LargeOwn(w, files, i);
    }
  }

  lemma RequestMember(env: Environment, limits: Limits, files: seq<FileRequest>, f: FileRequest, test: Test)
    requires f in Select(env, limits, Select(env, limits, files, Candidate), test)
    ensures f in files && Passes(env, limits, Candidate, f) && Passes(env, limits, test, f)
  {
    var candidates := Select(env, limits, files, Candidate);
    var i :| 0 <= i < |Select(env, limits, candidates, test)| && Select(env, limits, candidates, test)[i] == f;
    SelectMember(env, limits, candidates, test, i);
    var k :| 0 <= k < |candidates| && candidates[k] == f;
    SelectMember(env, limits, files, Candidate, k);
  }

  lemma LargeOwn(w: Worker, files: seq<FileRequest>, i: nat)
    requires DistinctPaths(files) && Serves(w, files)
    requires i < |Select(w.env, w.limits, Select(w.env, w.limits, files, Candidate), Large)|
    ensures var large := Select(w.env, w.limits, Select(w.env, w.limits, files, Candidate), Large);
            w.engines(large[i].path) == w.env.native(large[i])
  {
    var f := Select(w.env, w.limits, Select(w.env, w.limits, files, Candidate), Large)[i];
    RequestMember(w.env, w.limits, files, f, Large);
    LargeUnbatched(w.env, w.limits, files, i);
    BatchesSound(w.env, w.limits, Ordinaries(w.env, w.limits, files));
    NotInAny(w.env, w.limits, Batches(w.env, w.limits, Ordinaries(w.env, w.limits, files)), f.path);
  }

  lemma BatchMember(env: Environment, limits: Limits, files: seq<FileRequest>, k: nat, f: FileRequest)
    requires k < |Batches(env, limits, Ordinaries(env, limits, files))|
    requires f in Batches(env, limits, Ordinaries(env, limits, files))[k]
    ensures f in files && Passes(env, limits, Candidate, f) && Passes(env, limits, Ordinary, f)
  {
    var ordinary := Ordinaries(env, limits, files);
    BatchesSound(env, limits, ordinary);
    ConcatMember(Batches(env, limits, ordinary), k, f);
    RequestMember(env, limits, files, f, Ordinary);
  }

  lemma {:induction false} ConcatMember(batches: seq<seq<FileRequest>>, k: nat, f: FileRequest)
    requires k < |batches| && f in batches[k]
    ensures f in Concat(batches)
  {
    var n := |batches| - 1;
    if k < n { ConcatMember(batches[..n], k, f); }
  }

  lemma BatchLed(w: Worker, files: seq<FileRequest>, k: nat)
    requires DistinctPaths(files) && Serves(w, files)
    requires k < |Batches(w.env, w.limits, Ordinaries(w.env, w.limits, files))|
    ensures w.Led(Select(w.env, w.limits, Batches(w.env, w.limits, Ordinaries(w.env, w.limits, files))[k], Readiness))
  {
    var env, limits, ordinary := w.env, w.limits, Ordinaries(w.env, w.limits, files);
    var batches := Batches(env, limits, ordinary);
    var loaded := Select(env, limits, batches[k], Readiness);
    BatchesSound(env, limits, ordinary);
    OrdinariesDistinct(env, limits, files);
    forall i | 0 <= i < |loaded|
      ensures w.engines(loaded[i].path) == (env.native(loaded[0]) || env.native(loaded[i]))
    {
      SelectMember(env, limits, batches[k], Readiness, i);
      BatchMember(env, limits, files, k, loaded[i]);
      LoadedInBatch(env, limits, batches[k], i);
      BatchDecides(env, limits, batches, k, loaded[i].path);
    }
  }

  // ---------- When every file gets its own engine ----------

  /** The order in which a request's files of one language are sorted. */
  predicate SortedBefore(env: Environment, f: FileRequest, g: FileRequest)
  {
    f.size < g.size || (f.size == g.size && env.pathBefore(f.path, g.path))
  }

  /** Smaller files first; of two as large, the one whose path comes first. */
  lemma SmallerFirst(env: Environment, f: FileRequest, g: FileRequest)
    requires env.pathBefore(f.path, g.path) <==> !env.pathBefore(g.path, f.path)
    ensures SortedBefore(env, f, g) <==> !SortedBefore(env, g, f)
    ensures f.size < g.size ==> SortedBefore(env, f, g)
    ensures f.size == g.size && SortedBefore(env, f, g) ==> env.pathBefore(f.path, g.path)
  {
  }

  ghost predicate SortedRequest(env: Environment, files: seq<FileRequest>)
  {
    forall i, j :: 0 <= i < j < |files| && env.language(files[i]) == env.language(files[j]) ==>
      SortedBefore(env, files[i], files[j])
  }

  ghost predicate OwnEngines(env: Environment, limits: Limits, files: seq<FileRequest>)
  {
    forall i :: 0 <= i < |files| && Passes(env, limits, Readiness, files[i]) ==>
      EngineOf(env, limits, files, files[i]) == env.native(files[i])
  }

  /** Two files that can share a batch: the first known to the library, the second not, although both
      are batched under one language. */
  ghost predicate Clash(env: Environment, limits: Limits, f: FileRequest, g: FileRequest)
  {
    && f.path != g.path && env.language(f) == env.language(g) && env.native(f) && !env.native(g)
    && Batchable(env, limits, f) && Batchable(env, limits, g)
    && SortedBefore(env, f, g) && f.size + g.size <= limits.batchBytes
  }

  predicate Batchable(env: Environment, limits: Limits, f: FileRequest)
  {
    Passes(env, limits, Candidate, f) && Passes(env, limits, Ordinary, f) && Passes(env, limits, Readiness, f)
  }

  lemma {:induction false} SelectSorted(env: Environment, limits: Limits, files: seq<FileRequest>, test: Test)
    requires SortedRequest(env, files)
    ensures SortedRequest(env, Select(env, limits, files, test))
  {
    if files != [] {
      var n := |files| - 1;
      var front := Select(env, limits, files[..n], test);
      SelectSorted(env, limits, files[..n], test);
      forall i | 0 <= i < |front| && env.language(front[i]) == env.language(files[n])
        ensures SortedBefore(env, front[i], files[n])
      {
        SelectMember(env, limits, files[..n], test, i);
      }
    }
  }

  lemma SortedParts(env: Environment, xs: seq<FileRequest>, ys: seq<FileRequest>)
    requires SortedRequest(env, xs + ys)
    ensures SortedRequest(env, xs) && SortedRequest(env, ys)
  {
    var all := xs + ys;
    forall i, j | 0 <= i < j < |xs| && env.language(xs[i]) == env.language(xs[j])
      ensures SortedBefore(env, xs[i], xs[j])
    {
      assert all[i] == xs[i] && all[j] == xs[j];
    }
    forall i, j | 0 <= i < j < |ys| && env.language(ys[i]) == env.language(ys[j])
      ensures SortedBefore(env, ys[i], ys[j])
    {
      assert all[|xs| + i] == ys[i] && all[|xs| + j] == ys[j];
    }
  }

  lemma {:induction false} BatchSorted(env: Environment, batches: seq<seq<FileRequest>>, k: nat)
    requires k < |batches| && SortedRequest(env, Concat(batches))
    ensures SortedRequest(env, batches[k])
  {
    var n := |batches| - 1;
    SortedParts(env, Concat(batches[..n]), batches[n]);
    if k < n { BatchSorted(env, batches[..n], k); }
  }

  lemma {:induction false} TwoInBatch(files: seq<FileRequest>, i: nat, j: nat)
    requires i < |files| && j < |files| && i != j
    ensures files[i].size + files[j].size <= Bytes(files)
  {
    var n := |files| - 1;
    if i == n {
      OneInBatch(files[..n], j);
    } else if j == n {
      OneInBatch(files[..n], i);
    } else {
      TwoInBatch(files[..n], i, j);
    }
  }

  lemma {:induction false} OneInBatch(files: seq<FileRequest>, i: nat)
    requires i < |files|
    ensures files[i].size <= Bytes(files)
  {
    if i < |files| - 1 { OneInBatch(files[..|files| - 1], i); }
  }

  /** The path of a batch led by the library is that of a batch. */
  lemma {:induction false} FindBatch(env: Environment, limits: Limits, batches: seq<seq<FileRequest>>, path: string)
    returns (k: nat)
    requires InLedBatch(env, limits, batches, path)
    ensures k < |batches| && path in Paths(batches[k]) && LedNative(env, limits, batches[k])
  {
    var n := |batches| - 1;
    if path in Paths(batches[n]) { k := n; } else { k := FindBatch(env, limits, batches[..n], path); }
  }

  /** In one batch, the leader and a file the library does not know clash. */
  lemma LeaderClashes(env: Environment, limits: Limits, batch: seq<FileRequest>, j: nat)
    requires BatchFits(env, limits, batch) && SortedRequest(env, batch) && DistinctPaths(batch)
    requires LedNative(env, limits, batch) && j < |Select(env, limits, batch, Readiness)|
    requires !env.native(Select(env, limits, batch, Readiness)[j])
    requires forall i :: 0 <= i < |batch| ==>
             Passes(env, limits, Candidate, batch[i]) && Passes(env, limits, Ordinary, batch[i])
    ensures Clash(env, limits, Select(env, limits, batch, Readiness)[0], Select(env, limits, batch, Readiness)[j])
  {
    var loaded := Select(env, limits, batch, Readiness);
    var f, g := loaded[0], loaded[j];
    SelectMember(env, limits, batch, Readiness, 0);
    SelectMember(env, limits, batch, Readiness, j);
    SelectSorted(env, limits, batch, Readiness);
    SelectDistinct(env, limits, batch, Readiness);
    var a :| 0 <= a < |batch| && batch[a] == f;
    var b :| 0 <= b < |batch| && batch[b] == g;
    TwoInBatch(batch, a, b);
    assert OneLanguage(env, batch, env.language(batch[0]));
  }

  lemma SelectHas(env: Environment, limits: Limits, files: seq<FileRequest>, test: Test, i: nat) returns (j: nat)
    requires i < |files| && Passes(env, limits, test, files[i])
    ensures j < |Select(env, limits, files, test)| && Select(env, limits, files, test)[j] == files[i]
    decreases |files|
  {
    var n := |files| - 1;
    if i == n {
      j := |Select(env, limits, files[..n], test)|;
    } else {
      j := SelectHas(env, limits, files[..n], test, i);
    }
  }

  /** A file that does not get its own engine has a batch mate with which it clashes. */
  lemma ForeignEngineClashes(env: Environment, limits: Limits, files: seq<FileRequest>, i: nat) returns (f: FileRequest)
    requires DistinctPaths(files) && SortedRequest(env, files) && i < |files|
    requires Passes(env, limits, Readiness, files[i]) && EngineOf(env, limits, files, files[i]) != env.native(files[i])
    ensures Clash(env, limits, f, files[i])
  {
    var ordinary, g := Ordinaries(env, limits, files), files[i];
    var batches := Batches(env, limits, ordinary);
    BatchesSound(env, limits, ordinary);
    var k := FindBatch(env, limits, batches, g.path);
    var b := PathIndex(batches[k], g.path);
    BatchMember(env, limits, files, k, batches[k][b]);
    assert batches[k][b] == g;
    SelectSorted(env, limits, files, Candidate);
    SelectSorted(env, limits, Select(env, limits, files, Candidate), Ordinary);
    BatchSorted(env, batches, k);
    OrdinariesDistinct(env, limits, files);
    BatchDistinct(batches, k);
    var j := SelectHas(env, limits, batches[k], Readiness, b);
    BatchFiles(env, limits, files, k);
    LeaderClashes(env, limits, batches[k], j);
    f := Select(env, limits, batches[k], Readiness)[0];
  }

  lemma BatchFiles(env: Environment, limits: Limits, files: seq<FileRequest>, k: nat)
    requires k < |Batches(env, limits, Ordinaries(env, limits, files))|
    ensures var batch := Batches(env, limits, Ordinaries(env, limits, files))[k];
            forall i :: 0 <= i < |batch| ==>
              Passes(env, limits, Candidate, batch[i]) && Passes(env, limits, Ordinary, batch[i])
  {
    var batch := Batches(env, limits, Ordinaries(env, limits, files))[k];
    forall i | 0 <= i < |batch|
      ensures Passes(env, limits, Candidate, batch[i]) && Passes(env, limits, Ordinary, batch[i])
    {
      BatchMember(env, limits, files, k, batch[i]);
    }
  }

  lemma {:induction false} BatchDistinct(batches: seq<seq<FileRequest>>, k: nat)
    requires k < |batches| && DistinctPaths(Concat(batches))
    ensures DistinctPaths(batches[k])
  {
    var n := |batches| - 1;
    FreshAppend(Concat(batches[..n]), batches[n], Concat(batches));
    if k < n {
      DistinctFront(Concat(batches[..n]), batches[n]);
      BatchDistinct(batches[..n], k);
    }
  }

  lemma SelectTwo(env: Environment, limits: Limits, f: FileRequest, g: FileRequest, test: Test)
    requires Passes(env, limits, test, f) && Passes(env, limits, test, g)
    ensures Select(env, limits, [f, g], test) == [f, g]
  {
    assert [f, g][..1] == [f] && [f][..0] == [];
    assert Select(env, limits, [f], test) == [f];
  }

  lemma PlanOne(env: Environment, limits: Limits, f: FileRequest)
    ensures PlanOf(env, limits, [f]) == Plan([], [f]) && Bytes([f]) == f.size
  {
    assert [f][..0] == [];
    assert [] + [f] == [f];
  }

  lemma PlanTwo(env: Environment, limits: Limits, f: FileRequest, g: FileRequest)
    requires env.language(f) == env.language(g) && f.size + g.size <= limits.batchBytes
    ensures PlanOf(env, limits, [f, g]) == Plan([], [f, g])
  {
    PlanOne(env, limits, f);
    assert [f, g][..1] == [f];
    assert [f] + [g] == [f, g];
  }

  lemma FirstLeads(env: Environment, limits: Limits, f: FileRequest, g: FileRequest)
    requires Clash(env, limits, f, g)
    ensures DistinctPaths([f, g]) && EngineOf(env, limits, [f, g], g) == env.native(f)
  {
    var files := [f, g];
    SelectTwo(env, limits, f, g, Candidate);
    SelectTwo(env, limits, f, g, Ordinary);
    SelectTwo(env, limits, f, g, Readiness);
    PlanTwo(env, limits, f, g);
    assert Batches(env, limits, files) == [files];
    PathMember(files, 1);
  }

  /** Two files that clash make up a request in which the second gets the engine of the first, while
      in a request of its own it gets its own. */
  lemma ClashMisleads(env: Environment, limits: Limits, f: FileRequest, g: FileRequest)
    requires Clash(env, limits, f, g)
    ensures DistinctPaths([f, g]) && SortedRequest(env, [f, g]) && !OwnEngines(env, limits, [f, g])
    ensures EngineOf(env, limits, [f, g], g) != EngineOf(env, limits, [g], g)
  {
    FirstLeads(env, limits, f, g);
    AloneOwn(env, limits, g);
    NotOwn(env, limits, [f, g], 1);
  }

  lemma NotOwn(env: Environment, limits: Limits, files: seq<FileRequest>, i: nat)
    requires i < |files| && Passes(env, limits, Readiness, files[i])
    requires EngineOf(env, limits, files, files[i]) != env.native(files[i])
    ensures !OwnEngines(env, limits, files)
  {
  }

  lemma AloneOwn(env: Environment, limits: Limits, g: FileRequest)
    requires Batchable(env, limits, g)
    ensures EngineOf(env, limits, [g], g) == env.native(g)
  {
    assert [g][..0] == [];
    assert Select(env, limits, [g], Candidate) == [g] && Select(env, limits, [g], Ordinary) == [g];
    assert Select(env, limits, [g], Readiness) == [g];
    PlanOne(env, limits, g);
    assert Batches(env, limits, [g]) == [[g]];
  }

  /** Every file of every request gets its own engine if and only if no two files clash: files batched
      under one language that fit into a batch agree on whether the library knows them. */
  lemma OwnEngineIff(env: Environment, limits: Limits)
    ensures (forall files :: DistinctPaths(files) && SortedRequest(env, files) ==> OwnEngines(env, limits, files)) <==>
            (forall f, g :: !Clash(env, limits, f, g))
  {
    if f, g :| Clash(env, limits, f, g) {
      ClashMisleads(env, limits, f, g);
    } else {
      forall files | DistinctPaths(files) && SortedRequest(env, files)
        ensures OwnEngines(env, limits, files)
      {
        forall i | 0 <= i < |files| && Passes(env, limits, Readiness, files[i])
          ensures EngineOf(env, limits, files, files[i]) == env.native(files[i])
        {
          if EngineOf(env, limits, files, files[i]) != env.native(files[i]) {
            var f := ForeignEngineClashes(env, limits, files, i);
            assert false;
          }
        }
      }
    }
  }

  ghost predicate Requestable(env: Environment, files: seq<FileRequest>)
  {
    DistinctPaths(files) && SortedRequest(env, files)
  }

  /** The file, if it loads, gets the same engine in both requests. */
  ghost predicate SameEngine(env: Environment, limits: Limits, xs: seq<FileRequest>, ys: seq<FileRequest>,
                             f: FileRequest)
  {
    Requestable(env, xs) && Requestable(env, ys) && f in xs && f in ys && Passes(env, limits, Readiness, f) ==>
      EngineOf(env, limits, xs, f) == EngineOf(env, limits, ys, f)
  }

  /** The engine of a file does not depend on the request it is in if and only if no two files clash. */
  lemma EngineIndependentIff(env: Environment, limits: Limits)
    ensures (forall xs, ys, f :: SameEngine(env, limits, xs, ys, f)) <==> (forall f, g :: !Clash(env, limits, f, g))
  {
    OwnEngineIff(env, limits);
    if f, g :| Clash(env, limits, f, g) {
      ClashMisleads(env, limits, f, g);
      assert Requestable(env, [f, g]) && Requestable(env, [g]) && g in [f, g] && g in [g];
      assert !SameEngine(env, limits, [f, g], [g], g);
    } else {
      forall xs, ys, f
        ensures SameEngine(env, limits, xs, ys, f)
      {
        if Requestable(env, xs) && Requestable(env, ys) && f in xs && f in ys && Passes(env, limits, Readiness, f) {
          OwnMember(env, limits, xs, f);
          OwnMember(env, limits, ys, f);
        }
      }
    }
  }

  lemma OwnMember(env: Environment, limits: Limits, files: seq<FileRequest>, f: FileRequest)
    requires OwnEngines(env, limits, files) && f in files && Passes(env, limits, Readiness, f)
    ensures EngineOf(env, limits, files, f) == env.native(f)
  {
    var i :| 0 <= i < |files| && files[i] == f;
  }
}
