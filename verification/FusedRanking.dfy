/** What fusion returns, and how the candidates for reranking are chosen. */
module FusedRanking {
  import opened StableSort
  import opened RankFusion

  function RecordOf(f: Fused): Record { Record(f.id, f.entry.score, f.entry.payload) }

  ghost predicate ListedIn(r: seq<Record>, id: string) { exists i :: 0 <= i < |r| && r[i].id == id }

  /** The limit best ids of both channels, best first, each with its fused score and payload. */
  ghost predicate IsFusion(r: seq<Record>, c: Channels, w: Weights, limit: nat)
  {
    && |r| <= limit
    && (forall i :: 0 <= i < |r| ==> Occurs(c, r[i].id) && r[i] == RecordOf(FusedOf(c, w, r[i].id)))
    && (forall i, j :: 0 <= i < j < |r| ==> FusedBefore(FusedOf(c, w, r[i].id), FusedOf(c, w, r[j].id)))
    && (forall id :: Occurs(c, id) && !ListedIn(r, id) ==> Outranked(r, c, w, limit, id))
  }

  ghost predicate Outranked(r: seq<Record>, c: Channels, w: Weights, limit: nat, id: string)
  {
    |r| == limit && forall i :: 0 <= i < |r| ==> FusedBefore(FusedOf(c, w, r[i].id), FusedOf(c, w, id))
  }

  // ---------- The board holds the fused entries ----------

  lemma BoardIsFused(c: Channels, w: Weights, b: Board, fused: Board, id: string)
    requires BoardAfter(EmptyBoard(), b, c.dense, w.dense, w.k, |c.dense|)
    requires BoardAfter(b, fused, c.keyword, w.keyword, w.k, |c.keyword|)
    ensures id in fused.entries <==> Occurs(c, id)
    ensures id in fused.entries ==> fused.entries[id] == FusedOf(c, w, id).entry
  {
    assert EntryRight(EmptyBoard(), b, c.dense, w.dense, w.k, |c.dense|, id);
    assert EntryRight(b, fused, c.keyword, w.keyword, w.k, |c.keyword|, id);
    var d, k := PayloadAt(c.dense, DenseRank(c, id)), PayloadAt(c.keyword, KeywordRank(c, id));
    assert map[] + d == d && map[] + k == k && d + map[] == d;
  }

  ghost predicate HoldsFused(board: Board, c: Channels, w: Weights)
  {
    && OrderRight(board)
    && (forall id :: id in board.entries <==> Occurs(c, id))
    && (forall id :: id in board.entries ==> board.entries[id] == FusedOf(c, w, id).entry)
  }

  /** The entries of the board in the order of their ids. */
  ghost predicate EntriesOf(list: seq<Fused>, board: Board, n: nat)
    requires n <= |board.order|
  {
    |list| == n && forall i :: 0 <= i < n ==>
      board.order[i] in board.entries && list[i] == Fused(board.order[i], board.entries[board.order[i]])
  }

  // ---------- Sorting them ----------

  ghost predicate Distinct(list: seq<Fused>) { forall i, j :: 0 <= i < j < |list| ==> list[i].id != list[j].id }

  ghost predicate HasId(list: seq<Fused>, id: string) { exists i :: 0 <= i < |list| && list[i].id == id }

  lemma {:induction false} InsertIds(list: seq<Fused>, x: Fused, id: string)
    ensures HasId(Insert(FusedBefore, list, x), id) <==> HasId(list, id) || x.id == id
  {
    var r := Insert(FusedBefore, list, x);
    if list == [] || FusedBefore(x, list[0]) {
      assert r == [x] + list;
      ConsIds(x, list, id);
    } else {
      InsertIds(list[1..], x, id);
      ConsIds(list[0], Insert(FusedBefore, list[1..], x), id);
      ConsIds(list[0], list[1..], id);
      assert list == [list[0]] + list[1..];
    }
  }

  lemma ConsIds(x: Fused, list: seq<Fused>, id: string)
    ensures HasId([x] + list, id) <==> x.id == id || HasId(list, id)
  {
    var r := [x] + list;
    if HasId(list, id) {
      var i :| 0 <= i < |list| && list[i].id == id;
      assert r[i + 1].id == id;
    }
    if x.id == id { assert r[0].id == id; }
  }

  ghost predicate StrictlySorted(list: seq<Fused>)
  {
    forall i, j :: 0 <= i < j < |list| ==> FusedBefore(list[i], list[j])
  }

  lemma {:induction false} InsertStrict(list: seq<Fused>, x: Fused)
    requires StrictlySorted(list) && !HasId(list, x.id)
    ensures StrictlySorted(Insert(FusedBefore, list, x))
  {
    FusedOrder();
    if list == [] {
    } else if FusedBefore(x, list[0]) {
      StrictPush(x, list);
    } else {
      assert list[0].id != x.id;
      FusedTotal(list[0], x);
      assert list == [list[0]] + list[1..];
      ConsIds(list[0], list[1..], x.id);
      InsertStrict(list[1..], x);
      InsertAfter(list[1..], x, list[0]);
      StrictPush(list[0], Insert(FusedBefore, list[1..], x));
    }
  }

  lemma StrictPush(x: Fused, list: seq<Fused>)
    requires StrictlySorted(list) && (list != [] ==> FusedBefore(x, list[0]))
    ensures StrictlySorted([x] + list)
  {
    FusedOrder();
    forall i | 0 <= i < |list|
      ensures FusedBefore(x, list[i])
    {
      assert i > 0 ==> FusedBefore(list[0], list[i]);
    }
  }

  lemma InsertAfter(list: seq<Fused>, x: Fused, first: Fused)
    requires FusedBefore(first, x) && (list != [] ==> FusedBefore(first, list[0]))
    ensures var r := Insert(FusedBefore, list, x); r != [] && FusedBefore(first, r[0])
  {
  }

  lemma {:induction false} SortIds(list: seq<Fused>, id: string)
    ensures HasId(Sort(FusedBefore, list), id) <==> HasId(list, id)
  {
    if list != [] {
      var n := |list| - 1;
      SortIds(list[..n], id);
      InsertIds(Sort(FusedBefore, list[..n]), list[n], id);
      LastIds(list, id);
    }
  }

  lemma LastIds(list: seq<Fused>, id: string)
    requires list != []
    ensures HasId(list, id) <==> HasId(list[..|list| - 1], id) || list[|list| - 1].id == id
  {
    if HasId(list[..|list| - 1], id) {
      var i :| 0 <= i < |list| - 1 && list[..|list| - 1][i].id == id;
      assert list[i].id == id;
    }
  }

  /** Sorting entries of distinct ids orders them strictly and loses none. */
  lemma {:induction false} SortStrict(list: seq<Fused>)
    requires Distinct(list)
    ensures StrictlySorted(Sort(FusedBefore, list)) && |Sort(FusedBefore, list)| == |list|
  {
    if list != [] {
      var n := |list| - 1;
      SortStrict(list[..n]);
      SortIds(list[..n], list[n].id);
      InsertStrict(Sort(FusedBefore, list[..n]), list[n]);
      InsertLength(Sort(FusedBefore, list[..n]), list[n]);
    }
  }

  lemma {:induction false} InsertLength(list: seq<Fused>, x: Fused)
    ensures |Insert(FusedBefore, list, x)| == |list| + 1
  {
    if list != [] { InsertLength(list[1..], x); }
  }

  ghost predicate AllFused(list: seq<Fused>, c: Channels, w: Weights)
  {
    forall i :: 0 <= i < |list| ==> Occurs(c, list[i].id) && list[i] == FusedOf(c, w, list[i].id)
  }

  lemma {:induction false} InsertFused(list: seq<Fused>, x: Fused, c: Channels, w: Weights)
    requires AllFused(list, c, w) && Occurs(c, x.id) && x == FusedOf(c, w, x.id)
    ensures AllFused(Insert(FusedBefore, list, x), c, w)
  {
    if list != [] && !FusedBefore(x, list[0]) { InsertFused(list[1..], x, c, w); }
  }

  lemma {:induction false} SortFused(list: seq<Fused>, c: Channels, w: Weights)
    requires AllFused(list, c, w)
    ensures AllFused(Sort(FusedBefore, list), c, w)
  {
    if list != [] {
      SortFused(list[..|list| - 1], c, w);
      InsertFused(Sort(FusedBefore, list[..|list| - 1]), list[|list| - 1], c, w);
    }
  }

  /** The first limit of the sorted entries are the fusion. */
  lemma TopIsFusion(sorted: seq<Fused>, r: seq<Record>, c: Channels, w: Weights, limit: nat)
    requires StrictlySorted(sorted) && AllFused(sorted, c, w) && forall id :: Occurs(c, id) ==> HasId(sorted, id)
    requires |r| == Min(limit, |sorted|) && forall i :: 0 <= i < |r| ==> r[i] == RecordOf(sorted[i])
    ensures IsFusion(r, c, w, limit)
  {
    forall id | Occurs(c, id)
      ensures ListedIn(r, id) || Outranked(r, c, w, limit, id)
    {
      var i :| 0 <= i < |sorted| && sorted[i].id == id;
      if i < |r| { assert r[i].id == id; }
    }
  }

  lemma EntriesFused(list: seq<Fused>, board: Board, c: Channels, w: Weights)
    requires HoldsFused(board, c, w) && EntriesOf(list, board, |board.order|)
    ensures Distinct(list) && AllFused(list, c, w) && forall id :: Occurs(c, id) ==> HasId(list, id)
  {
    forall i | 0 <= i < |list|
      ensures Occurs(c, list[i].id) && list[i] == FusedOf(c, w, list[i].id)
    {
      assert board.order[i] in board.entries;
    }
    forall id | Occurs(c, id)
      ensures HasId(list, id)
    {
      assert id in board.entries && Listed(board.order, id);
      var i :| 0 <= i < |board.order| && board.order[i] == id;
      assert list[i].id == id;
    }
  }

  lemma SortedEntries(list: seq<Fused>, c: Channels, w: Weights)
    requires Distinct(list) && AllFused(list, c, w) && forall id :: Occurs(c, id) ==> HasId(list, id)
    ensures var sorted := Sort(FusedBefore, list);
            StrictlySorted(sorted) && AllFused(sorted, c, w) && forall id :: Occurs(c, id) ==> HasId(sorted, id)
  {
    SortStrict(list);
    SortFused(list, c, w);
    forall id | Occurs(c, id)
      ensures HasId(Sort(FusedBefore, list), id)
    {
      SortIds(list, id);
    }
  }

  // ---------- Fusion ----------

  method BuildBoard(c: Channels, w: Weights) returns (board: Board)
    ensures HoldsFused(board, c, w)
  {
    var dense := AddChannel(EmptyBoard(), c.dense, w.dense, w.k);
    board := AddChannel(dense, c.keyword, w.keyword, w.k);
    forall id
      ensures id in board.entries <==> Occurs(c, id)
      ensures id in board.entries ==> board.entries[id] == FusedOf(c, w, id).entry
    {
      BoardIsFused(c, w, dense, board, id);
    }
  }

  method ListEntries(board: Board) returns (list: seq<Fused>)
    requires OrderRight(board)
    ensures EntriesOf(list, board, |board.order|)
  {
    list := [];
    for n := 0 to |board.order|
      invariant EntriesOf(list, board, n)
    {
      list := list + [Fused(board.order[n], board.entries[board.order[n]])];
    }
  }

  method TopRecords(sorted: seq<Fused>, limit: nat) returns (r: seq<Record>)
    ensures |r| == Min(limit, |sorted|) && forall i :: 0 <= i < |r| ==> r[i] == RecordOf(sorted[i])
  {
    r := [];
    for n := 0 to Min(limit, |sorted|)
      invariant |r| == n && forall i :: 0 <= i < n ==> r[i] == RecordOf(sorted[i])
    {
      r := r + [RecordOf(sorted[n])];
    }
  }

  /** The fused entries of both channels, in order. */
  method SortedBoard(c: Channels, w: Weights) returns (sorted: seq<Fused>)
    ensures StrictlySorted(sorted) && AllFused(sorted, c, w) && forall id :: Occurs(c, id) ==> HasId(sorted, id)
  {
    var board := BuildBoard(c, w);
    var list := ListEntries(board);
    EntriesFused(list, board, c, w);
    SortedEntries(list, c, w);
    sorted := Sort(FusedBefore, list);
  }

  /** Fuses two result lists by reciprocal rank. */
  method Fuse(dense: seq<Record>, keyword: seq<Record>, limit: int, w: Weights) returns (r: seq<Record>)
    ensures limit <= 0 ==> r == []
    ensures limit > 0 ==> IsFusion(r, Channels(Rank(dense), Rank(keyword)), w, limit)
  {
    if limit <= 0 { return []; }
    var c := Channels(Rank(dense), Rank(keyword));
    var sorted := SortedBoard(c, w);
    r := TopRecords(sorted, limit);
    TopIsFusion(sorted, r, c, w, limit);
  }

  /** No id is returned twice, and the list is the only one of its kind. */
  lemma FusionDistinct(r: seq<Record>, c: Channels, w: Weights, limit: nat, i: nat, j: nat)
    requires IsFusion(r, c, w, limit) && i < j < |r|
    ensures r[i].id != r[j].id && r[i].score >= r[j].score
  {
    FusedOrder();
    assert FusedBefore(FusedOf(c, w, r[i].id), FusedOf(c, w, r[j].id));
  }

  /** Every place is settled: of two fusions of the same channels neither can differ at a place where
      they agree before it. */
  lemma FusionUniqueAt(r: seq<Record>, t: seq<Record>, c: Channels, w: Weights, limit: nat, n: nat)
    requires IsFusion(r, c, w, limit) && IsFusion(t, c, w, limit)
    requires n <= |r| && n <= |t| && r[..n] == t[..n] && n < |r|
    ensures n < |t| && !FusedBefore(FusedOf(c, w, r[n].id), FusedOf(c, w, t[n].id))
  {
    NotEarlier(r, t, c, w, limit, n);
    if ListedIn(t, r[n].id) {
      var i :| 0 <= i < |t| && t[i].id == r[n].id;
      assert i >= n;
      FusedOrder();
      if i > n { assert FusedBefore(FusedOf(c, w, t[n].id), FusedOf(c, w, t[i].id)); }
    } else {
      assert Outranked(t, c, w, limit, r[n].id);
      FusedOrder();
      assert FusedBefore(FusedOf(c, w, t[n].id), FusedOf(c, w, r[n].id));
    }
  }

  lemma NotEarlier(r: seq<Record>, t: seq<Record>, c: Channels, w: Weights, limit: nat, n: nat)
    requires IsFusion(r, c, w, limit) && IsFusion(t, c, w, limit) && n < |r| && n <= |t| && r[..n] == t[..n]
    ensures forall i :: 0 <= i < n ==> t[i].id != r[n].id
  {
    forall i | 0 <= i < n
      ensures t[i].id != r[n].id
    {
      assert t[i] == r[..n][i];
      FusionDistinct(r, c, w, limit, i, n);
    }
  }

  lemma FusionUniqueNext(r: seq<Record>, t: seq<Record>, c: Channels, w: Weights, limit: nat, n: nat)
    requires IsFusion(r, c, w, limit) && IsFusion(t, c, w, limit)
    requires n < |r| && n <= |t| && r[..n] == t[..n]
    ensures n < |t| && r[..n + 1] == t[..n + 1]
  {
    FusionUniqueAt(r, t, c, w, limit, n);
    FusionUniqueAt(t, r, c, w, limit, n);
    SamePlace(r, t, c, w, limit, n);
    assert r[..n + 1] == r[..n] + [r[n]] && t[..n + 1] == t[..n] + [t[n]];
  }

  lemma {:induction false} FusionUnique(r: seq<Record>, t: seq<Record>, c: Channels, w: Weights, limit: nat, n: nat)
    requires IsFusion(r, c, w, limit) && IsFusion(t, c, w, limit) && n <= |r| && n <= |t| && r[..n] == t[..n]
    ensures r == t
    decreases |r| - n
  {
    if n < |r| {
      FusionUniqueNext(r, t, c, w, limit, n);
      FusionUnique(r, t, c, w, limit, n + 1);
    } else if n < |t| {
      FusionUniqueAt(t, r, c, w, limit, n);
    }
  }

  lemma SamePlace(r: seq<Record>, t: seq<Record>, c: Channels, w: Weights, limit: nat, n: nat)
    requires IsFusion(r, c, w, limit) && IsFusion(t, c, w, limit) && n < |r| && n < |t|
    requires !FusedBefore(FusedOf(c, w, r[n].id), FusedOf(c, w, t[n].id)) &&
             !FusedBefore(FusedOf(c, w, t[n].id), FusedOf(c, w, r[n].id))
    ensures r[n] == t[n]
  {
    if r[n].id != t[n].id { FusedTotal(FusedOf(c, w, r[n].id), FusedOf(c, w, t[n].id)); }
  }
}
