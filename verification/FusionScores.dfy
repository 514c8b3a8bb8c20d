/** What the fused list says about each of its records, told by the places in the two channels. */
module FusionScores {
  import opened Options
  import opened StableSort
  import opened RankFusion
  import opened FusedRanking

  /** The id's first place in a channel, from 0. */
  ghost predicate FirstAt(ranked: seq<Record>, id: string, n: nat)
  {
    n < |ranked| && ranked[n].id == id && forall j :: 0 <= j < n ==> ranked[j].id != id
  }

  ghost predicate Absent(ranked: seq<Record>, id: string) { forall j :: 0 <= j < |ranked| ==> ranked[j].id != id }

  lemma {:induction false} FirstRankIs(ranked: seq<Record>, n: nat, id: string)
    requires n <= |ranked| && id != ""
    ensures match FirstRank(ranked, n, id)
            case Some(rank) => 1 <= rank <= n && FirstAt(ranked, id, rank - 1)
            case None => forall j :: 0 <= j < n ==> ranked[j].id != id
  {
    if n > 0 { FirstRankIs(ranked, n - 1, id); }
  }

  lemma RankAt(ranked: seq<Record>, id: string, n: nat)
    requires id != "" && FirstAt(ranked, id, n)
    ensures FirstRank(ranked, |ranked|, id) == Some(n + 1)
  {
    FirstRankIs(ranked, |ranked|, id);
  }

  lemma NoRank(ranked: seq<Record>, id: string)
    requires id != "" && Absent(ranked, id)
    ensures FirstRank(ranked, |ranked|, id) == None
  {
    FirstRankIs(ranked, |ranked|, id);
  }

  /** A record listed first at place n of one channel and m of the other has the sum of the weights
      divided by its ranks behind the offset k, and both payloads, the keyword channel's on top. */
  lemma InBothChannels(r: seq<Record>, c: Channels, w: Weights, limit: nat, i: nat, n: nat, m: nat)
    requires IsFusion(r, c, w, limit) && i < |r| && w.k >= 0
    requires r[i].id != "" && FirstAt(c.dense, r[i].id, n) && FirstAt(c.keyword, r[i].id, m)
    ensures r[i].score == w.dense / (w.k + n + 1) as real + w.keyword / (w.k + m + 1) as real
    ensures r[i].payload == c.dense[n].payload + c.keyword[m].payload
    ensures FusedOf(c, w, r[i].id).entry.best == if n < m then n + 1 else m + 1
  {
    RankAt(c.dense, r[i].id, n);
    RankAt(c.keyword, r[i].id, m);
  }

  lemma InDenseOnly(r: seq<Record>, c: Channels, w: Weights, limit: nat, i: nat, n: nat)
    requires IsFusion(r, c, w, limit) && i < |r|
    requires r[i].id != "" && FirstAt(c.dense, r[i].id, n) && Absent(c.keyword, r[i].id)
    ensures r[i].score == w.dense / (w.k + n + 1) as real && r[i].payload == c.dense[n].payload
    ensures FusedOf(c, w, r[i].id).entry.best == n + 1
  {
    RankAt(c.dense, r[i].id, n);
    NoRank(c.keyword, r[i].id);
    assert c.dense[n].payload + map[] == c.dense[n].payload;
  }

  lemma InKeywordOnly(r: seq<Record>, c: Channels, w: Weights, limit: nat, i: nat, m: nat)
    requires IsFusion(r, c, w, limit) && i < |r|
    requires r[i].id != "" && Absent(c.dense, r[i].id) && FirstAt(c.keyword, r[i].id, m)
    ensures r[i].score == w.keyword / (w.k + m + 1) as real && r[i].payload == c.keyword[m].payload
    ensures FusedOf(c, w, r[i].id).entry.best == m + 1
  {
    NoRank(c.dense, r[i].id);
    RankAt(c.keyword, r[i].id, m);
    assert map[] + c.keyword[m].payload == c.keyword[m].payload;
  }

  /** Every id returned is listed in one channel at least, and is not empty. */
  lemma ReturnedIsListed(r: seq<Record>, c: Channels, w: Weights, limit: nat, i: nat)
    requires IsFusion(r, c, w, limit) && i < |r|
    ensures r[i].id != "" && (!Absent(c.dense, r[i].id) || !Absent(c.keyword, r[i].id))
  {
    if r[i].id != "" && Absent(c.dense, r[i].id) && Absent(c.keyword, r[i].id) {
      NoRank(c.dense, r[i].id);
      NoRank(c.keyword, r[i].id);
    }
  }

  /** And every listed id that is not empty is returned, or the limit has been reached. */
  lemma ListedIsReturned(r: seq<Record>, c: Channels, w: Weights, limit: nat, id: string)
    requires IsFusion(r, c, w, limit) && id != "" && (!Absent(c.dense, id) || !Absent(c.keyword, id))
    ensures ListedIn(r, id) || |r| == limit
  {
    FirstRankIs(c.dense, |c.dense|, id);
    FirstRankIs(c.keyword, |c.keyword|, id);
  }

  // ---------- The order ----------

  /** The number in the payload, or zero. */
  ghost predicate HasQuality(payload: Payload, q: real)
  {
    q == if "quality_score" in payload then payload["quality_score"].number else 0.0
  }

  /** One string comes before the other: it is a proper prefix, or smaller where they first differ. */
  ghost predicate Precedes(a: string, b: string)
  {
    || (a <= b && a != b)
    || exists i :: DiffersAt(a, b, i)
  }

  lemma {:induction false} LessIs(a: string, b: string)
    ensures Less(a, b) <==> Precedes(a, b)
    decreases |a|
  {
    if a != "" && b != "" {
      LessIs(a[1..], b[1..]);
      if a[0] == b[0] { PrecedesTail(a, b); } else { PrecedesHead(a, b); }
    }
  }

  lemma PrecedesHead(a: string, b: string)
    requires a != "" && b != "" && a[0] != b[0]
    ensures Precedes(a, b) <==> a[0] < b[0]
  {
    if a[0] < b[0] { assert DiffersAt(a, b, 0); }
    forall i | 0 < i
      ensures !DiffersAt(a, b, i)
    {
      if i < |a| && i < |b| { HeadsDiffer(a, b, i); }
    }
  }

  lemma HeadsDiffer(a: string, b: string, i: nat)
    requires 0 < i < |a| && i < |b| && a[0] != b[0]
    ensures a[..i] != b[..i]
  {
    assert a[..i][0] == a[0] && b[..i][0] == b[0];
  }

  ghost predicate DiffersAt(a: string, b: string, i: int)
  {
    0 <= i < |a| && i < |b| && a[..i] == b[..i] && a[i] < b[i]
  }

  lemma DiffersBefore(first: char, s: string, t: string, i: int)
    requires DiffersAt(s, t, i)
    ensures DiffersAt([first] + s, [first] + t, i + 1)
  {
    assert ([first] + s)[..i + 1] == [first] + s[..i] && ([first] + t)[..i + 1] == [first] + t[..i];
  }

  lemma DiffersBehind(first: char, s: string, t: string, i: int)
    requires DiffersAt([first] + s, [first] + t, i)
    ensures DiffersAt(s, t, i - 1)
  {
    var a, b := [first] + s, [first] + t;
    assert s[..i - 1] == a[..i][1..] && t[..i - 1] == b[..i][1..];
  }

  lemma PrefixBehind(first: char, s: string, t: string)
    ensures [first] + s <= [first] + t && [first] + s != [first] + t <==> s <= t && s != t
  {
    var a, b := [first] + s, [first] + t;
    if a <= b { assert b[..|a|] == a; assert t[..|s|] == b[..|a|][1..] == s; }
    if s <= t { assert b[..|a|] == [first] + t[..|s|]; }
    if a == b { assert s == a[1..] == b[1..] == t; }
  }

  lemma PrecedesTail(a: string, b: string)
    requires a != "" && b != "" && a[0] == b[0]
    ensures Precedes(a, b) <==> Precedes(a[1..], b[1..])
  {
    var s, t := a[1..], b[1..];
    assert a == [a[0]] + s && b == [a[0]] + t;
    PrefixBehind(a[0], s, t);
    if i :| DiffersAt(s, t, i) { DiffersBefore(a[0], s, t, i); }
    if i :| DiffersAt(a, b, i) { DiffersBehind(a[0], s, t, i); }
  }

  /** Earlier records have the higher score, on a tie the higher quality, then the better place in a
      channel, then the smaller id. */
  lemma ReturnedOrder(r: seq<Record>, c: Channels, w: Weights, limit: nat, i: nat, j: nat, p: real, q: real)
    requires IsFusion(r, c, w, limit) && i < j < |r| && HasQuality(r[i].payload, p) && HasQuality(r[j].payload, q)
    ensures var a, b := FusedOf(c, w, r[i].id).entry.best, FusedOf(c, w, r[j].id).entry.best;
            || r[i].score > r[j].score
            || (r[i].score == r[j].score &&
                (p > q || (p == q && (a < b || (a == b && Precedes(r[i].id, r[j].id))))))
  {
    assert FusedBefore(FusedOf(c, w, r[i].id), FusedOf(c, w, r[j].id));
    LessIs(r[i].id, r[j].id);
  }

  /** The ranking before fusion: higher scores first, on a tie higher quality. */
  lemma RankedOrder(records: seq<Record>, i: nat, j: nat, p: real, q: real)
    requires i < j < |Rank(records)|
    requires HasQuality(Rank(records)[i].payload, p) && HasQuality(Rank(records)[j].payload, q)
    ensures Rank(records)[i].score >= Rank(records)[j].score
    ensures Rank(records)[i].score == Rank(records)[j].score ==> p >= q
  {
    RankOrder();
    SortSorts(RankBefore, records);
    assert !RankBefore(Rank(records)[j], Rank(records)[i]);
  }

  /** Records that tie in both keep their order. */
  lemma TiesKeepOrder(records: seq<Record>, x: Record, y: Record)
    requires x.score == y.score && Quality(x.payload) == Quality(y.payload)
    ensures Equal(RankBefore, x, y)
    ensures Class(RankBefore, Rank(records), x) == Class(RankBefore, records, x)
  {
    RankOrder();
    SortStable(RankBefore, records, x);
  }
}
