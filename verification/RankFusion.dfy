/** Reciprocal rank fusion of the dense and the keyword results. */
module RankFusion {
  import opened Options
  import opened StableSort

  /** A payload value, with its reading as a number: zero for a text that is none. */
  datatype Value = Number(number: real) | Text(text: string, number: real)

  type Payload = map<string, Value>

  datatype Record = Record(id: string, score: real, payload: Payload)

  function Quality(payload: Payload): real
  {
    if "quality_score" in payload then payload["quality_score"].number else 0.0
  }

  /** Relevance first, quality only on ties. */
  predicate RankBefore(a: Record, b: Record)
  {
    a.score > b.score || (a.score == b.score && Quality(a.payload) > Quality(b.payload))
  }

  function Rank(records: seq<Record>): seq<Record> { Sort(RankBefore, records) }

  lemma RankOrder()
    ensures WeakOrder(RankBefore)
  {
  }

  /** The ranking is the only permutation that is sorted by score and quality and keeps the order of
      records that tie. */
  lemma RankCharacterized(records: seq<Record>, t: seq<Record>)
    ensures t == Rank(records) <==> Sorted(RankBefore, t) && SameClasses(RankBefore, t, records)
    ensures multiset(Rank(records)) == multiset(records)
  {
    RankOrder();
    SortSorts(RankBefore, records);
    SortPermutes(RankBefore, records);
    forall y
      ensures Class(RankBefore, Rank(records), y) == Class(RankBefore, records, y)
    {
      SortStable(RankBefore, records, y);
    }
    if Sorted(RankBefore, t) && SameClasses(RankBefore, t, records) {
      forall y
        ensures Class(RankBefore, t, y) == Class(RankBefore, Rank(records), y)
      {
        assert Class(RankBefore, t, y) == Class(RankBefore, records, y);
      }
      SortedUnique(RankBefore, t, Rank(records));
    }
  }

  // ---------- What one channel contributes ----------

  /** The rank, from 1, of the first of the first n records with this id. */
  function FirstRank(ranked: seq<Record>, n: nat, id: string): (r: Option<nat>)
    requires n <= |ranked|
    ensures r.Some? ==> 1 <= r.value <= n && id != "" && ranked[r.value - 1].id == id
  {
    if n == 0 then None
    else
      var earlier := FirstRank(ranked, n - 1, id);
      if earlier.Some? then earlier else if id != "" && ranked[n - 1].id == id then Some(n) else None
  }

  function Share(rank: Option<nat>, weight: real, k: nat): real
    requires rank.Some? ==> rank.value >= 1
  {
    if rank.None? then 0.0 else weight / (k + rank.value) as real
  }

  function PayloadAt(ranked: seq<Record>, rank: Option<nat>): Payload
    requires rank.Some? ==> 1 <= rank.value <= |ranked|
  {
    if rank.None? then map[] else ranked[rank.value - 1].payload
  }

  // ---------- The board on which the channels are added up ----------

  datatype Entry = Entry(score: real, best: nat, payload: Payload)

  datatype Board = Board(entries: map<string, Entry>, order: seq<string>)

  function EmptyBoard(): Board { Board(map[], []) }

  function ScoreOn(b: Board, id: string): real { if id in b.entries then b.entries[id].score else 0.0 }

  function PayloadOn(b: Board, id: string): Payload { if id in b.entries then b.entries[id].payload else map[] }

  function Min(a: nat, b: nat): nat { if a < b then a else b }

  /** The entry of an id after a channel whose first occurrence of it has this rank. */
  function EntryAfter(b: Board, id: string, ranked: seq<Record>, rank: nat, weight: real, k: nat): Entry
    requires 1 <= rank <= |ranked|
  {
    Entry(ScoreOn(b, id) + weight / (k + rank) as real,
          Min(if id in b.entries then b.entries[id].best else rank, rank),
          PayloadOn(b, id) + ranked[rank - 1].payload)
  }

  ghost predicate EntryFor(before: Board, b: Board, ranked: seq<Record>, weight: real, k: nat, rank: Option<nat>,
                           id: string)
    requires rank.Some? ==> 1 <= rank.value <= |ranked|
  {
    if rank.Some? then id in b.entries && b.entries[id] == EntryAfter(before, id, ranked, rank.value, weight, k)
    else (id in b.entries <==> id in before.entries) && (id in b.entries ==> b.entries[id] == before.entries[id])
  }

  ghost predicate EntryRight(before: Board, b: Board, ranked: seq<Record>, weight: real, k: nat, n: nat, id: string)
    requires n <= |ranked|
  {
    EntryFor(before, b, ranked, weight, k, FirstRank(ranked, n, id), id)
  }

  /** The board after the first n records of a channel. */
  ghost predicate BoardAfter(before: Board, b: Board, ranked: seq<Record>, weight: real, k: nat, n: nat)
    requires n <= |ranked|
  {
    forall id :: EntryRight(before, b, ranked, weight, k, n, id)
  }

  /** The order lists each id on the board once. */
  ghost predicate OrderRight(b: Board)
  {
    && (forall i :: 0 <= i < |b.order| ==> b.order[i] in b.entries)
    && (forall id :: id in b.entries ==> Listed(b.order, id))
    && (forall i, j :: 0 <= i < j < |b.order| ==> b.order[i] != b.order[j])
  }

  ghost predicate Listed(ids: seq<string>, id: string) { exists i :: 0 <= i < |ids| && ids[i] == id }

  function Put(b: Board, id: string, e: Entry): Board
  {
    Board(b.entries[id := e], if id in b.entries then b.order else b.order + [id])
  }

  lemma PutOrder(b: Board, id: string, e: Entry)
    requires OrderRight(b)
    ensures OrderRight(Put(b, id, e))
  {
    var c := Put(b, id, e);
    forall x | x in c.entries
      ensures Listed(c.order, x)
    {
      if x in b.entries {
        var i :| 0 <= i < |b.order| && b.order[i] == x;
        assert c.order[i] == x;
      } else {
        assert c.order[|b.order|] == x;
      }
    }
  }

  /** Adds one channel, counting each id at its best rank only. */
  method AddChannel(before: Board, ranked: seq<Record>, weight: real, k: nat) returns (b: Board)
    requires OrderRight(before)
    ensures OrderRight(b) && BoardAfter(before, b, ranked, weight, k, |ranked|)
  {
    b := before;
    var seen: set<string> := {};
    for n := 0 to |ranked|
      invariant OrderRight(b) && BoardAfter(before, b, ranked, weight, k, n)
      invariant forall id :: id in seen <==> FirstRank(ranked, n, id).Some?
    {
      var record, rank := ranked[n], n + 1;
      if record.id != "" && record.id !in seen {
        seen := seen + {record.id};
        NotSeen(before, b, ranked, weight, k, n);
        var e := Entry(ScoreOn(b, record.id) + weight / (k + rank) as real,
                       Min(if record.id in b.entries then b.entries[record.id].best else rank, rank),
                       PayloadOn(b, record.id) + record.payload);
        PutOrder(b, record.id, e);
        PutRight(before, b, ranked, weight, k, n, e);
        b := Put(b, record.id, e);
      } else {
        SkipRight(before, b, ranked, weight, k, n);
      }
    }
  }

  lemma NotSeen(before: Board, b: Board, ranked: seq<Record>, weight: real, k: nat, n: nat)
    requires n < |ranked| && BoardAfter(before, b, ranked, weight, k, n) && FirstRank(ranked, n, ranked[n].id).None?
    ensures var id := ranked[n].id;
            (id in b.entries <==> id in before.entries) && (id in b.entries ==> b.entries[id] == before.entries[id])
  {
    assert EntryRight(before, b, ranked, weight, k, n, ranked[n].id);
  }

  lemma PutElsewhere(before: Board, b: Board, ranked: seq<Record>, weight: real, k: nat, rank: Option<nat>,
                     at: string, e: Entry, id: string)
    requires rank.Some? ==> 1 <= rank.value <= |ranked|
    requires EntryFor(before, b, ranked, weight, k, rank, id) && id != at
    ensures EntryFor(before, Put(b, at, e), ranked, weight, k, rank, id)
  {
  }

  lemma FirstRankNext(ranked: seq<Record>, n: nat, id: string)
    requires n < |ranked|
    ensures id != ranked[n].id ==> FirstRank(ranked, n + 1, id) == FirstRank(ranked, n, id)
    ensures id == ranked[n].id != "" && FirstRank(ranked, n, id).None? ==> FirstRank(ranked, n + 1, id) == Some(n + 1)
  {
  }

  lemma PutRight(before: Board, b: Board, ranked: seq<Record>, weight: real, k: nat, n: nat, e: Entry)
    requires n < |ranked| && BoardAfter(before, b, ranked, weight, k, n) && ranked[n].id != ""
    requires FirstRank(ranked, n, ranked[n].id).None? && e == EntryAfter(before, ranked[n].id, ranked, n + 1, weight, k)
    ensures BoardAfter(before, Put(b, ranked[n].id, e), ranked, weight, k, n + 1)
  {
    var m, c := n + 1, Put(b, ranked[n].id, e);
    forall id
      ensures EntryRight(before, c, ranked, weight, k, m, id)
    {
      FirstRankNext(ranked, n, id);
      if id != ranked[n].id {
        assert EntryRight(before, b, ranked, weight, k, n, id);
        PutElsewhere(before, b, ranked, weight, k, FirstRank(ranked, n, id), ranked[n].id, e, id);
      }
    }
  }

  lemma SkipRight(before: Board, b: Board, ranked: seq<Record>, weight: real, k: nat, n: nat)
    requires n < |ranked| && BoardAfter(before, b, ranked, weight, k, n)
    requires ranked[n].id == "" || FirstRank(ranked, n, ranked[n].id).Some?
    ensures BoardAfter(before, b, ranked, weight, k, n + 1)
  {
    var m := n + 1;
    forall id
      ensures EntryRight(before, b, ranked, weight, k, m, id)
    {
      assert EntryRight(before, b, ranked, weight, k, n, id);
    }
  }

  // ---------- The fused list ----------

  datatype Weights = Weights(k: nat, dense: real, keyword: real)

  /** Both channels, each ranked. */
  datatype Channels = Channels(dense: seq<Record>, keyword: seq<Record>)

  function DenseRank(c: Channels, id: string): Option<nat> { FirstRank(c.dense, |c.dense|, id) }

  function KeywordRank(c: Channels, id: string): Option<nat> { FirstRank(c.keyword, |c.keyword|, id) }

  ghost predicate Occurs(c: Channels, id: string) { DenseRank(c, id).Some? || KeywordRank(c, id).Some? }

  /** The sum over the channels of weight / (k + rank). */
  function FusedScore(c: Channels, w: Weights, id: string): real
  {
    Share(DenseRank(c, id), w.dense, w.k) + Share(KeywordRank(c, id), w.keyword, w.k)
  }

  function BestRank(c: Channels, id: string): nat
  {
    var d, k := DenseRank(c, id), KeywordRank(c, id);
    if d.Some? && k.Some? then Min(d.value, k.value) else if d.Some? then d.value else if k.Some? then k.value else 0
  }

  /** The payloads of both first occurrences; where they differ, the keyword channel's. */
  function FusedPayload(c: Channels, id: string): Payload
  {
    PayloadAt(c.dense, DenseRank(c, id)) + PayloadAt(c.keyword, KeywordRank(c, id))
  }

  datatype Fused = Fused(id: string, entry: Entry)

  function FusedOf(c: Channels, w: Weights, id: string): Fused
  {
    Fused(id, Entry(FusedScore(c, w, id), BestRank(c, id), FusedPayload(c, id)))
  }

  /** The order of strings by their characters. */
  predicate Less(a: string, b: string)
  {
    b != "" && (a == "" || a[0] < b[0] || (a[0] == b[0] && Less(a[1..], b[1..])))
  }

  /** Score, then quality, then best rank, then id. */
  predicate FusedBefore(a: Fused, b: Fused)
  {
    var qa, qb := Quality(a.entry.payload), Quality(b.entry.payload);
    || a.entry.score > b.entry.score
    || (a.entry.score == b.entry.score && qa > qb)
    || (a.entry.score == b.entry.score && qa == qb && a.entry.best < b.entry.best)
    || (a.entry.score == b.entry.score && qa == qb && a.entry.best == b.entry.best && Less(a.id, b.id))
  }

  lemma {:induction false} LessOrder(a: string, b: string, c: string)
    ensures !Less(a, a)
    ensures Less(a, b) && Less(b, c) ==> Less(a, c)
    ensures Less(a, b) || a == b || Less(b, a)
    decreases |a|
  {
    if a != "" {
      LessOrder(a[1..], if b == "" then "" else b[1..], if c == "" then "" else c[1..]);
      if b != "" && a[0] == b[0] && a[1..] == b[1..] { assert a == [a[0]] + a[1..] && b == [b[0]] + b[1..]; }
    }
  }

  lemma FusedOrder()
    ensures WeakOrder(FusedBefore)
  {
    forall a: Fused, b: Fused, c: Fused
      ensures !FusedBefore(a, a)
      ensures FusedBefore(a, b) && FusedBefore(b, c) ==> FusedBefore(a, c)
      ensures !FusedBefore(a, b) && !FusedBefore(b, c) ==> !FusedBefore(a, c)
    {
      LessOrder(a.id, b.id, c.id);
      LessOrder(c.id, b.id, a.id);
      LessOrder(b.id, c.id, a.id);
      LessOrder(a.id, c.id, b.id);
    }
  }

  /** No two ids tie. */
  lemma FusedTotal(a: Fused, b: Fused)
    requires a.id != b.id
    ensures FusedBefore(a, b) || FusedBefore(b, a)
  {
    LessOrder(a.id, b.id, a.id);
  }
}
