/** The reranker's scores as cutoff and final order. */
module RelevanceGate {
  import opened StableSort
  import opened RankFusion
  import opened FusionProperties

  datatype Settings = Settings(threshold: real, relative: real, limit: nat)

  datatype Error = CountMismatch | InvalidScore
  datatype Result = Ok(records: seq<Record>) | Err(error: Error)

  predicate Valid(score: real) { 0.0 <= score <= 1.0 }

  predicate AllValid(scores: seq<real>) { forall i :: 0 <= i < |scores| ==> Valid(scores[i]) }

  /** The highest score, or zero. */
  function Highest(scores: seq<real>): (m: real)
    ensures m >= 0.0
  {
    if scores == [] then 0.0
    else var m := Highest(scores[..|scores| - 1]); if scores[|scores| - 1] > m then scores[|scores| - 1] else m
  }

  function FloorUnder(highest: real, s: Settings): real
  {
    if highest * s.relative > s.threshold then highest * s.relative else s.threshold
  }

  function Floor(scores: seq<real>, s: Settings): real { FloorUnder(Highest(scores), s) }

  function Rescored(candidate: Record, score: real): Record
  {
    Record(candidate.id, score, candidate.payload["reranker_score" := Number(score)])
  }

  /** The first n candidates with their new scores. */
  function AllRescored(candidates: seq<Record>, scores: seq<real>, n: nat): seq<Record>
    requires n <= |candidates| == |scores|
  {
    if n == 0 then [] else AllRescored(candidates, scores, n - 1) + [Rescored(candidates[n - 1], scores[n - 1])]
  }

  function AtLeast(records: seq<Record>, floor: real): seq<Record>
  {
    if records == [] then []
    else
      AtLeast(records[..|records| - 1], floor) +
      if records[|records| - 1].score < floor then [] else [records[|records| - 1]]
  }

  /** The best candidates at or above the floor. */
  function Gated(candidates: seq<Record>, scores: seq<real>, s: Settings): seq<Record>
    requires |candidates| == |scores|
  {
    Top(Rank(AtLeast(AllRescored(candidates, scores, |candidates|), Floor(scores, s))), s.limit)
  }

  /** The highest score, if all are valid. */
  method Validate(scores: seq<real>) returns (valid: bool, highest: real)
    ensures valid <==> AllValid(scores)
    ensures valid <==> forall i :: 0 <= i < |scores| ==> scores[i] >= 0.0 && !(scores[i] > 1.0)
    ensures valid ==> highest == Highest(scores)
  {
    highest := 0.0;
    for n := 0 to |scores|
      invariant forall i :: 0 <= i < n ==> Valid(scores[i])
      invariant highest == Highest(scores[..n])
    {
      if !Valid(scores[n]) { return false, 0.0; }
      assert scores[..n + 1][..n] == scores[..n];
      if scores[n] > highest { highest := scores[n]; }
    }
    assert scores[..|scores|] == scores;
    valid := true;
  }

  /** The candidates whose score reaches the floor, in order, with that score. */
  method Keep(candidates: seq<Record>, scores: seq<real>, floor: real) returns (kept: seq<Record>)
    requires |candidates| == |scores|
    ensures kept == AtLeast(AllRescored(candidates, scores, |candidates|), floor)
  {
    kept := [];
    for n := 0 to |candidates|
      invariant kept == AtLeast(AllRescored(candidates, scores, n), floor)
    {
      var record := Rescored(candidates[n], scores[n]);
      assert AllRescored(candidates, scores, n + 1) == AllRescored(candidates, scores, n) + [record];
      AtLeastPush(AllRescored(candidates, scores, n), record, floor);
      if !(record.score < floor) { kept := kept + [record]; }
    }
  }

  method ApplyRerankerScores(candidates: seq<Record>, scores: seq<real>, s: Settings) returns (r: Result)
    ensures |candidates| != |scores| ==> r == Err(CountMismatch)
    ensures |candidates| == |scores| && !AllValid(scores) ==> r == Err(InvalidScore)
    ensures |candidates| == |scores| && AllValid(scores) ==> r == Ok(Gated(candidates, scores, s))
    ensures r.Ok? ==>
              && BestRelevant(r.records, candidates, scores, s)
              && |r.records| == Least(RelevantCount(scores, s, |scores|), s.limit)
  {
    if |candidates| != |scores| { return Err(CountMismatch); }
    var valid, highest := Validate(scores);
    if !valid { return Err(InvalidScore); }
    var kept := Keep(candidates, scores, FloorUnder(highest, s));
    r := Ok(Top(Rank(kept), s.limit));
    GateIsBestRelevant(candidates, scores, s);
    RelevantLength(candidates, scores, s, |scores|);
  }

  function Least(a: nat, b: nat): (m: nat)
    ensures m <= a && m <= b && m in {a, b}
  {
    if a < b then a else b
  }

  // ---------- The gate cuts a prefix of the ranking ----------

  ghost predicate ByScore(records: seq<Record>)
  {
    forall i, j :: 0 <= i < j < |records| ==> records[i].score >= records[j].score
  }

  lemma RankedByScore(records: seq<Record>)
    ensures ByScore(Rank(records)) && Sorted(RankBefore, Rank(records))
  {
    RankOrder();
    SortSorts(RankBefore, records);
    var r := Rank(records);
    forall i, j | 0 <= i < j < |r|
      ensures r[i].score >= r[j].score
    {
      assert !RankBefore(r[j], r[i]);
    }
  }

  lemma AtLeastPush(records: seq<Record>, x: Record, floor: real)
    ensures AtLeast(records + [x], floor) == if x.score < floor then AtLeast(records, floor)
            else AtLeast(records, floor) + [x]
  {
    assert (records + [x])[..|records|] == records;
    assert AtLeast(records, floor) + [] == AtLeast(records, floor);
  }

  lemma {:induction false} AtLeastFront(x: Record, records: seq<Record>, floor: real)
    ensures AtLeast([x] + records, floor) == if x.score < floor then AtLeast(records, floor)
            else [x] + AtLeast(records, floor)
  {
    if records == [] {
      assert [x] + records == [] + [x];
      AtLeastPush([], x, floor);
    } else {
      var n := |records| - 1;
      assert [x] + records == ([x] + records[..n]) + [records[n]];
      AtLeastPush([x] + records[..n], records[n], floor);
      AtLeastFront(x, records[..n], floor);
    }
  }

  lemma {:induction false} NoneAtLeast(records: seq<Record>, floor: real)
    requires forall i :: 0 <= i < |records| ==> records[i].score < floor
    ensures AtLeast(records, floor) == []
  {
    if records != [] { NoneAtLeast(records[..|records| - 1], floor); }
  }

  lemma {:induction false} AtLeastMembers(records: seq<Record>, floor: real)
    ensures forall i :: 0 <= i < |AtLeast(records, floor)| ==> AtLeast(records, floor)[i].score >= floor
  {
    if records != [] { AtLeastMembers(records[..|records| - 1], floor); }
  }

  lemma InsertFrontAtLeast(h: Record, t: seq<Record>, x: Record, floor: real)
    requires ByScore([h] + t) && RankBefore(x, h)
    ensures AtLeast([x] + ([h] + t), floor) ==
            if x.score < floor then AtLeast([h] + t, floor) else Insert(RankBefore, AtLeast([h] + t, floor), x)
  {
    AtLeastFront(x, [h] + t, floor);
    AtLeastFront(h, t, floor);
    if h.score < floor {
      BelowFirst(h, t, floor);
    } else {
      assert AtLeast([h] + t, floor)[0] == h;
    }
  }

  lemma BelowFirst(h: Record, t: seq<Record>, floor: real)
    requires ByScore([h] + t) && h.score < floor
    ensures AtLeast([h] + t, floor) == []
  {
    var records := [h] + t;
    forall i | 0 <= i < |records|
      ensures records[i].score < floor
    {
      assert i > 0 ==> records[0].score >= records[i].score;
    }
    NoneAtLeast(records, floor);
  }

  lemma InsertBackAtLeast(h: Record, t: seq<Record>, x: Record, floor: real)
    requires !RankBefore(x, h)
    requires AtLeast(Insert(RankBefore, t, x), floor) ==
             if x.score < floor then AtLeast(t, floor) else Insert(RankBefore, AtLeast(t, floor), x)
    ensures AtLeast([h] + Insert(RankBefore, t, x), floor) ==
            if x.score < floor then AtLeast([h] + t, floor) else Insert(RankBefore, AtLeast([h] + t, floor), x)
  {
    AtLeastFront(h, t, floor);
    AtLeastFront(h, Insert(RankBefore, t, x), floor);
    if x.score >= floor { InsertBehind(h, AtLeast(t, floor), x); }
  }

  /** Inserting and cutting commute. */
  lemma {:induction false} InsertAtLeast(records: seq<Record>, x: Record, floor: real)
    requires ByScore(records)
    ensures AtLeast(Insert(RankBefore, records, x), floor) ==
            if x.score < floor then AtLeast(records, floor) else Insert(RankBefore, AtLeast(records, floor), x)
  {
    if records == [] {
      AtLeastPush([], x, floor);
      assert [] + [x] == [x];
    } else {
      var h, t := records[0], records[1..];
      assert records == [h] + t;
      if RankBefore(x, h) {
        InsertFrontAtLeast(h, t, x, floor);
      } else {
        InsertAtLeast(t, x, floor);
        InsertBackAtLeast(h, t, x, floor);
      }
    }
  }

  lemma InsertBehind(h: Record, t: seq<Record>, x: Record)
    requires !RankBefore(x, h)
    ensures Insert(RankBefore, [h] + t, x) == [h] + Insert(RankBefore, t, x)
  {
    assert ([h] + t)[1..] == t;
  }

  lemma RankAtLeastPush(records: seq<Record>, x: Record, floor: real)
    requires Rank(AtLeast(records, floor)) == AtLeast(Rank(records), floor)
    ensures Rank(AtLeast(records + [x], floor)) == AtLeast(Rank(records + [x]), floor)
  {
    AtLeastPush(records, x, floor);
    RankPush(records, x);
    RankedByScore(records);
    InsertAtLeast(Rank(records), x, floor);
    if x.score >= floor { RankPush(AtLeast(records, floor), x); }
  }

  /** Ranking and cutting commute. */
  lemma {:induction false} RankAtLeast(records: seq<Record>, floor: real)
    ensures Rank(AtLeast(records, floor)) == AtLeast(Rank(records), floor)
  {
    if records != [] {
      var n := |records| - 1;
      RankAtLeast(records[..n], floor);
      RankAtLeastPush(records[..n], records[n], floor);
      assert records == records[..n] + [records[n]];
    }
  }

  lemma RankPush(records: seq<Record>, x: Record)
    ensures Rank(records + [x]) == Insert(RankBefore, Rank(records), x)
  {
    assert (records + [x])[..|records|] == records;
  }

  lemma {:induction false} CutIsPrefix(records: seq<Record>, low: real, high: real)
    requires ByScore(records) && low <= high
    ensures AtLeast(records, high) <= AtLeast(records, low)
  {
    if records != [] {
      var n := |records| - 1;
      CutIsPrefix(records[..n], low, high);
      if records[n].score >= high { AllAtLeast(records[..n], low); AllAtLeast(records[..n], high); }
    }
  }

  lemma {:induction false} AllAtLeast(records: seq<Record>, floor: real)
    requires forall i :: 0 <= i < |records| ==> records[i].score >= floor
    ensures AtLeast(records, floor) == records
  {
    if records != [] {
      AllAtLeast(records[..|records| - 1], floor);
      assert records == records[..|records| - 1] + [records[|records| - 1]];
    }
  }

  lemma FloorRises(scores: seq<real>, low: Settings, high: Settings)
    requires low.threshold <= high.threshold && low.relative <= high.relative
    ensures Floor(scores, low) <= Floor(scores, high)
  {
    var h := Highest(scores);
    if h > 0.0 { Scaled(low.relative, high.relative, h); }
    assert low.relative * h == h * low.relative && high.relative * h == h * high.relative;
  }

  /** Raising either threshold leaves a prefix of what was returned before. */
  lemma RaisingThresholdsCuts(candidates: seq<Record>, scores: seq<real>, low: Settings, high: Settings)
    requires |candidates| == |scores| && low.limit == high.limit
    requires low.threshold <= high.threshold && low.relative <= high.relative
    ensures Gated(candidates, scores, high) <= Gated(candidates, scores, low)
  {
    var records := AllRescored(candidates, scores, |candidates|);
    FloorRises(scores, low, high);
    RankAtLeast(records, Floor(scores, low));
    RankAtLeast(records, Floor(scores, high));
    RankedByScore(records);
    CutIsPrefix(Rank(records), Floor(scores, low), Floor(scores, high));
  }

  // ---------- What passes ----------

  lemma {:induction false} HighestIsScore(scores: seq<real>)
    ensures forall i :: 0 <= i < |scores| ==> scores[i] <= Highest(scores)
    ensures Highest(scores) > 0.0 ==> exists i :: 0 <= i < |scores| && scores[i] == Highest(scores)
  {
    if scores != [] {
      var n := |scores| - 1;
      HighestIsScore(scores[..n]);
      forall i | 0 <= i < |scores|
        ensures scores[i] <= Highest(scores)
      {
        if i < n { assert scores[..n][i] <= Highest(scores[..n]); }
      }
      if Highest(scores) > 0.0 {
        if scores[n] != Highest(scores) {
          var i :| 0 <= i < n && scores[..n][i] == Highest(scores[..n]);
          assert scores[i] == Highest(scores);
        }
      }
    }
  }

  lemma {:induction false} RescoredScore(candidates: seq<Record>, scores: seq<real>, n: nat, i: nat)
    requires i < n <= |candidates| == |scores|
    ensures |AllRescored(candidates, scores, n)| == n && AllRescored(candidates, scores, n)[i].score == scores[i]
  {
    if i < n - 1 { RescoredScore(candidates, scores, n - 1, i); }
    else if n > 1 { RescoredScore(candidates, scores, n - 1, 0); }
  }

  lemma {:induction false} SomeAtLeast(records: seq<Record>, floor: real, i: nat)
    requires i < |records| && records[i].score >= floor
    ensures AtLeast(records, floor) != []
  {
    if i < |records| - 1 { SomeAtLeast(records[..|records| - 1], floor, i); }
  }

  lemma FloorReached(highest: real, s: Settings)
    requires highest >= 0.0 && highest >= s.threshold && 0.0 <= s.relative <= 1.0
    ensures FloorUnder(highest, s) <= highest
  {
    if highest > 0.0 { Scaled(s.relative, 1.0, highest); }
    assert s.relative * highest == highest * s.relative;
  }

  lemma TopScorePasses(candidates: seq<Record>, scores: seq<real>, s: Settings)
    requires |candidates| == |scores| && 0.0 <= s.relative <= 1.0
    requires exists i :: 0 <= i < |scores| && scores[i] >= s.threshold && scores[i] == Highest(scores)
    ensures AtLeast(AllRescored(candidates, scores, |candidates|), Floor(scores, s)) != []
  {
    var i :| 0 <= i < |scores| && scores[i] >= s.threshold && scores[i] == Highest(scores);
    FloorReached(Highest(scores), s);
    RescoredScore(candidates, scores, |candidates|, i);
    SomeAtLeast(AllRescored(candidates, scores, |candidates|), Floor(scores, s), i);
  }

  lemma BelowThresholdFails(candidates: seq<Record>, scores: seq<real>, s: Settings)
    requires |candidates| == |scores| && forall i :: 0 <= i < |scores| ==> scores[i] < s.threshold
    ensures AtLeast(AllRescored(candidates, scores, |candidates|), Floor(scores, s)) == []
  {
    var records := AllRescored(candidates, scores, |candidates|);
    if candidates != [] {
      RescoredScore(candidates, scores, |candidates|, 0);
      forall i | 0 <= i < |records|
        ensures records[i].score < Floor(scores, s)
      {
        RescoredScore(candidates, scores, |candidates|, i);
      }
      NoneAtLeast(records, Floor(scores, s));
    }
  }

  lemma RankKeepsLength(records: seq<Record>)
    ensures |Rank(records)| == |records|
  {
    SortPermutes(RankBefore, records);
    assert |multiset(Rank(records))| == |Rank(records)| && |multiset(records)| == |records|;
  }

  lemma KeptIff(candidates: seq<Record>, scores: seq<real>, s: Settings)
    requires |candidates| == |scores| && AllValid(scores) && 0.0 <= s.relative <= 1.0
    ensures AtLeast(AllRescored(candidates, scores, |candidates|), Floor(scores, s)) != [] <==>
            exists i :: 0 <= i < |scores| && scores[i] >= s.threshold
  {
    if i :| 0 <= i < |scores| && scores[i] >= s.threshold {
      HighestIsScore(scores);
      if Highest(scores) == 0.0 { assert scores[i] == Highest(scores); }
      TopScorePasses(candidates, scores, s);
    } else {
      BelowThresholdFails(candidates, scores, s);
    }
  }

  /** The relative threshold alone never empties the result: something is returned exactly if some
      candidate reaches the absolute threshold. */
  lemma ReturnsSomethingIff(candidates: seq<Record>, scores: seq<real>, s: Settings)
    requires |candidates| == |scores| && AllValid(scores)
    requires 0.0 <= s.relative <= 1.0 && s.limit >= 1
    ensures Gated(candidates, scores, s) != [] <==> exists i :: 0 <= i < |scores| && scores[i] >= s.threshold
  {
    KeptIff(candidates, scores, s);
    RankKeepsLength(AtLeast(AllRescored(candidates, scores, |candidates|), Floor(scores, s)));
  }

  // ---------- Exactly what is returned, in the scores alone ----------

  /** The ith score reaches the absolute threshold, and the relative one under every score. */
  ghost predicate Relevant(scores: seq<real>, s: Settings, i: nat)
    requires i < |scores|
  {
    scores[i] >= s.threshold && forall j :: 0 <= j < |scores| ==> scores[i] >= scores[j] * s.relative
  }

  /** The relevant ones among the first n candidates, in order, with their new scores. */
  ghost function RelevantUpTo(candidates: seq<Record>, scores: seq<real>, s: Settings, n: nat): seq<Record>
    requires n <= |candidates| == |scores|
  {
    if n == 0 then []
    else
      RelevantUpTo(candidates, scores, s, n - 1) +
      if Relevant(scores, s, n - 1)
      then [Record(candidates[n - 1].id, scores[n - 1],
                   candidates[n - 1].payload["reranker_score" := Number(scores[n - 1])])]
      else []
  }

  lemma ScaledBelow(score: real, other: real, highest: real, relative: real)
    requires 0.0 <= other <= highest && 0.0 <= score && score >= highest * relative
    ensures score >= other * relative
  {
    if relative > 0.0 { Scaled(other, highest, relative); }
    if relative < 0.0 { assert other * relative <= 0.0; }
  }

  lemma BelowHighest(scores: seq<real>, j: nat)
    requires j < |scores|
    ensures scores[j] <= Highest(scores)
  {
    HighestIsScore(scores);
  }

  lemma AboveFloorIsRelevant(scores: seq<real>, s: Settings, i: nat)
    requires AllValid(scores) && i < |scores| && scores[i] >= Floor(scores, s)
    ensures Relevant(scores, s, i)
  {
    forall j | 0 <= j < |scores|
      ensures scores[i] >= scores[j] * s.relative
    {
      BelowHighest(scores, j);
      ScaledBelow(scores[i], scores[j], Highest(scores), s.relative);
    }
  }

  lemma RelevantIsAboveFloor(scores: seq<real>, s: Settings, i: nat)
    requires AllValid(scores) && i < |scores| && Relevant(scores, s, i)
    ensures scores[i] >= Floor(scores, s)
  {
    HighestIsScore(scores);
    var h := Highest(scores);
    if h > 0.0 {
      var j :| 0 <= j < |scores| && scores[j] == h;
      assert scores[i] >= scores[j] * s.relative;
    } else {
      assert h * s.relative == 0.0;
    }
  }

  lemma RelevantIff(scores: seq<real>, s: Settings, i: nat)
    requires AllValid(scores) && i < |scores|
    ensures Relevant(scores, s, i) <==> scores[i] >= Floor(scores, s)
  {
    if Relevant(scores, s, i) { RelevantIsAboveFloor(scores, s, i); }
    if scores[i] >= Floor(scores, s) { AboveFloorIsRelevant(scores, s, i); }
  }

  lemma {:induction false} AtLeastIsRelevant(candidates: seq<Record>, scores: seq<real>, s: Settings, n: nat)
    requires n <= |candidates| == |scores| && AllValid(scores)
    ensures AtLeast(AllRescored(candidates, scores, n), Floor(scores, s)) == RelevantUpTo(candidates, scores, s, n)
  {
    if n > 0 {
      AtLeastIsRelevant(candidates, scores, s, n - 1);
      RelevantIff(scores, s, n - 1);
      AtLeastPush(AllRescored(candidates, scores, n - 1), Rescored(candidates[n - 1], scores[n - 1]), Floor(scores, s));
    }
  }

  /** What the gate returns is the beginning of the ranking of the relevant candidates: all of them, or
      as many as the limit allows. */
  ghost predicate BestRelevant(records: seq<Record>, candidates: seq<Record>, scores: seq<real>, s: Settings)
    requires |candidates| == |scores|
  {
    var relevant := RelevantUpTo(candidates, scores, s, |scores|);
    && records <= Rank(relevant)
    && |records| == if |relevant| < s.limit then |relevant| else s.limit
  }

  lemma GateIsBestRelevant(candidates: seq<Record>, scores: seq<real>, s: Settings)
    requires |candidates| == |scores| && AllValid(scores)
    ensures BestRelevant(Gated(candidates, scores, s), candidates, scores, s)
  {
    AtLeastIsRelevant(candidates, scores, s, |scores|);
    RankKeepsLength(RelevantUpTo(candidates, scores, s, |scores|));
  }

  lemma {:induction false} RelevantMembers(candidates: seq<Record>, scores: seq<real>, s: Settings, n: nat, x: Record)
    returns (i: nat)
    requires n <= |candidates| == |scores| && x in RelevantUpTo(candidates, scores, s, n)
    ensures i < n && Relevant(scores, s, i) && x.id == candidates[i].id && x.score == scores[i]
  {
    if x in RelevantUpTo(candidates, scores, s, n - 1) { i := RelevantMembers(candidates, scores, s, n - 1, x); }
    else { i := n - 1; }
  }

  /** Every record returned has the score of a candidate that reaches both thresholds. */
  lemma ReturnedAreRelevant(records: seq<Record>, candidates: seq<Record>, scores: seq<real>, s: Settings, k: nat)
    returns (i: nat)
    requires |candidates| == |scores| && BestRelevant(records, candidates, scores, s) && k < |records|
    ensures i < |scores| && records[k].id == candidates[i].id && records[k].score == scores[i] && Relevant(scores, s, i)
  {
    var relevant := RelevantUpTo(candidates, scores, s, |scores|);
    SortPermutes(RankBefore, relevant);
    assert records[k] == Rank(relevant)[k] && Rank(relevant)[k] in multiset(Rank(relevant));
    assert records[k] in relevant;
    i := RelevantMembers(candidates, scores, s, |scores|, records[k]);
  }

  /** How many of the first n candidates reach both thresholds. */
  ghost function RelevantCount(scores: seq<real>, s: Settings, n: nat): nat
    requires n <= |scores|
  {
    if n == 0 then 0 else RelevantCount(scores, s, n - 1) + if Relevant(scores, s, n - 1) then 1 else 0
  }

  lemma {:induction false} RelevantLength(candidates: seq<Record>, scores: seq<real>, s: Settings, n: nat)
    requires n <= |candidates| == |scores|
    ensures |RelevantUpTo(candidates, scores, s, n)| == RelevantCount(scores, s, n)
  {
    if n > 0 { RelevantLength(candidates, scores, s, n - 1); }
  }
}
