/** How ranks decide the fused order, and the pools from which candidates are taken. */
module FusionProperties {
  import opened Options
  import opened StableSort
  import opened RankFusion
  import opened FusedRanking

  /** Ranked no worse: absent counts as worst. */
  predicate NoWorse(a: Option<nat>, b: Option<nat>) { b.Some? ==> a.Some? && a.value <= b.value }

  lemma SignOfProduct(d: real, x: real)
    requires x > 0.0
    ensures (d * x > 0.0 <==> d > 0.0) && (d * x == 0.0 <==> d == 0.0)
  {
  }

  lemma Scaled(a: real, b: real, x: real)
    requires x > 0.0
    ensures (a * x < b * x <==> a < b) && (a * x == b * x <==> a == b)
  {
    SignOfProduct(b - a, x);
    assert (b - a) * x == b * x - a * x;
  }

  lemma Quotients(weight: real, x: real, y: real)
    requires 0.0 < x <= y && weight >= 0.0
    ensures weight / x >= weight / y >= 0.0
    ensures weight > 0.0 ==> weight / x > 0.0
    ensures weight > 0.0 && x < y ==> weight / x > weight / y
  {
    var p, q := weight / x, weight / y;
    assert p * x == weight && q * y == weight;
    SignOfProduct(p, x);
    SignOfProduct(q, y);
    if weight > 0.0 {
      Scaled(x, y, q);
      assert x * q == q * x && y * q == q * y;
      Scaled(q, p, x);
    }
  }

  lemma ShareOrdered(a: nat, b: nat, weight: real, k: nat)
    requires 1 <= a <= b && weight >= 0.0
    ensures weight / (k + a) as real >= weight / (k + b) as real >= 0.0
    ensures weight > 0.0 ==> weight / (k + a) as real > 0.0
    ensures weight > 0.0 && a < b ==> weight / (k + a) as real > weight / (k + b) as real
  {
    Quotients(weight, (k + a) as real, (k + b) as real);
  }

  lemma ShareNoWorse(a: Option<nat>, b: Option<nat>, weight: real, k: nat)
    requires a.Some? ==> a.value >= 1
    requires b.Some? ==> b.value >= 1
    requires weight >= 0.0 && NoWorse(a, b)
    ensures Share(a, weight, k) >= Share(b, weight, k)
    ensures weight > 0.0 && a != b ==> Share(a, weight, k) > Share(b, weight, k)
  {
    if a.Some? {
      ShareOrdered(a.value, if b.Some? then b.value else a.value, weight, k);
    }
  }

  /** An id ranked no worse than another in both channels never scores lower, and scores higher if it
      is ranked better in either. */
  lemma BetterRanksScoreHigher(c: Channels, w: Weights, a: string, b: string)
    requires w.dense > 0.0 && w.keyword > 0.0
    requires NoWorse(DenseRank(c, a), DenseRank(c, b)) && NoWorse(KeywordRank(c, a), KeywordRank(c, b))
    ensures FusedScore(c, w, a) >= FusedScore(c, w, b)
    ensures DenseRank(c, a) != DenseRank(c, b) || KeywordRank(c, a) != KeywordRank(c, b) ==>
            FusedScore(c, w, a) > FusedScore(c, w, b)
  {
    ShareNoWorse(DenseRank(c, a), DenseRank(c, b), w.dense, w.k);
    ShareNoWorse(KeywordRank(c, a), KeywordRank(c, b), w.keyword, w.k);
  }

  lemma NotOutranked(r: seq<Record>, c: Channels, w: Weights, limit: nat, id: string)
    requires IsFusion(r, c, w, limit) && limit >= 1
    requires forall other :: other != id ==> FusedBefore(FusedOf(c, w, id), FusedOf(c, w, other))
    ensures !Outranked(r, c, w, limit, id)
  {
    FusedOrder();
    if |r| == limit { assert !FusedBefore(FusedOf(c, w, r[0].id), FusedOf(c, w, id)); }
  }

  /** What both channels rank first is returned first. */
  lemma FirstInBothIsFirst(r: seq<Record>, c: Channels, w: Weights, limit: nat, id: string)
    requires IsFusion(r, c, w, limit) && limit >= 1 && w.dense > 0.0 && w.keyword > 0.0
    requires DenseRank(c, id) == Some(1) && KeywordRank(c, id) == Some(1)
    ensures r != [] && r[0].id == id
  {
    forall other | other != id
      ensures FusedBefore(FusedOf(c, w, id), FusedOf(c, w, other))
    {
      BetterRanksScoreHigher(c, w, id, other);
    }
    NotOutranked(r, c, w, limit, id);
    FusedOrder();
    forall i | 0 < i < |r|
      ensures r[i].id != id
    {
      assert FusedBefore(FusedOf(c, w, r[0].id), FusedOf(c, w, r[i].id));
    }
    assert ListedIn(r, id);
  }

  // ---------- Candidates ----------

  datatype Limits = Limits(candidates: nat, rerank: nat, retrieval: nat)

  function Max(a: nat, b: nat): (m: nat)
    ensures m >= a && m >= b && m in {a, b}
  {
    if a > b then a else b
  }

  function Top(records: seq<Record>, n: nat): (top: seq<Record>)
    ensures top <= records && |top| == if n < |records| then n else |records|
  {
    if n < |records| then records[..n] else records
  }

  lemma TopSorted(records: seq<Record>, n: nat)
    ensures Rank(Top(Rank(records), n)) == Top(Rank(records), n)
  {
    RankOrder();
    SortSorts(RankBefore, records);
    SortedFixed(RankBefore, Top(Rank(records), n));
  }

  /** Fuses the bounded pools of both channels. Ranking them again inside the fusion changes nothing:
      ranks are positions in the pools. */
  method Candidates(dense: seq<Record>, keyword: seq<Record>, limits: Limits, w: Weights) returns (r: seq<Record>)
    requires limits.retrieval >= 1
    ensures var pool := Max(limits.candidates, limits.retrieval);
            IsFusion(r, Channels(Top(Rank(dense), pool), Top(Rank(keyword), pool)), w,
                     Max(limits.rerank, limits.retrieval))
  {
    var pool := Max(limits.candidates, limits.retrieval);
    TopSorted(dense, pool);
    TopSorted(keyword, pool);
    r := Fuse(Top(Rank(dense), pool), Top(Rank(keyword), pool), Max(limits.rerank, limits.retrieval), w);
  }
}
