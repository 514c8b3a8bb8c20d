/** mergeAdjacent: the greedy pass that joins neighbouring spans while they fit together. */
module Merger {
  import opened Utf8
  import opened Spans

  function MergeStep(merged: seq<Span>, unit: Span, maxSize: nat): seq<Span>
  {
    var last := |merged| - 1;
    if unit.end <= unit.start then merged
    else if merged != [] && unit.start == merged[last].end && unit.end - merged[last].start <= maxSize then
      merged[last := Span(merged[last].start, unit.end)]
    else merged + [unit]
  }

  /** What the pass has built after the first n units. */
  function MergeFirst(units: seq<Span>, n: nat, maxSize: nat): seq<Span>
    requires n <= |units|
  {
    if n == 0 then [] else MergeStep(MergeFirst(units, n - 1, maxSize), units[n - 1], maxSize)
  }

  function MergeSpans(units: seq<Span>, maxSize: nat): seq<Span>
  {
    MergeFirst(units, |units|, maxSize)
  }

  /** The pass copies the records it keeps, so the caller's records do not change. */
  method MergeAdjacent(units: SpanList, maxSize: nat) returns (merged: SpanList)
    requires units.Valid()
    ensures merged.Valid() && fresh(merged.Repr)
    ensures units.Valid() && units.Contents == old(units.Contents)
    ensures merged.Contents == MergeSpans(units.Contents, maxSize)
  {
    merged := new SpanList();
    for n := 0 to units.Length()
      invariant merged.Valid() && fresh(merged.Repr)
      invariant units.Valid() && units.Contents == old(units.Contents)
      invariant merged.Contents == MergeFirst(units.Contents, n, maxSize)
    {
      var unit := units.At(n);
      if unit.end > unit.start {
        var length := merged.Length();
        if length > 0 && unit.start == merged.At(length - 1).end && unit.end - merged.At(length - 1).start <= maxSize {
          merged.SetLastEnd(unit.end);
        } else {
          merged.Push(unit.start, unit.end);
        }
      }
    }
  }

  function NonEmpty(units: seq<Span>): seq<Span>
  {
    if units == [] then []
    else
      var last := units[|units| - 1];
      NonEmpty(units[..|units| - 1]) + if last.end <= last.start then [] else [last]
  }

  lemma {:induction false} MergeFirstPrefix(units: seq<Span>, n: nat, maxSize: nat)
    requires n <= |units|
    ensures MergeFirst(units, n, maxSize) == MergeSpans(units[..n], maxSize)
    decreases n
  {
    if n > 0 {
      MergeFirstPrefix(units, n - 1, maxSize);
      MergeFirstPrefix(units[..n], n - 1, maxSize);
      assert units[..n][..n - 1] == units[..n - 1];
    }
  }

  /** Empty units leave no trace. */
  lemma {:induction false} EmptyUnitsIgnored(units: seq<Span>, maxSize: nat)
    ensures MergeSpans(units, maxSize) == MergeSpans(NonEmpty(units), maxSize)
  {
    if units != [] {
      var n := |units| - 1;
      MergeFirstPrefix(units, n, maxSize);
      EmptyUnitsIgnored(units[..n], maxSize);
      var kept := NonEmpty(units[..n]);
      if units[n].end <= units[n].start {
        assert NonEmpty(units) == kept;
      } else {
        MergeFirstPrefix(kept + [units[n]], |kept|, maxSize);
        assert (kept + [units[n]])[..|kept|] == kept;
      }
    }
  }

  /** Every cut of `coarse` is a cut of `fine`. */
  ghost predicate CutsAmong(coarse: seq<Span>, fine: seq<Span>)
  {
    forall i :: 0 <= i < |coarse| ==> exists k :: 0 <= k < |fine| && fine[k].end == coarse[i].end
  }

  /** Where a block was closed, the next unit did not fit into it any more. */
  ghost predicate Exhausted(blocks: seq<Span>, units: seq<Span>, maxSize: int)
  {
    forall i, k :: 0 <= i < |blocks| - 1 && 0 <= k < |units| && units[k].start == blocks[i].end ==>
      units[k].end - blocks[i].start > maxSize
  }

  lemma {:induction false} MergeFirstTiles(units: seq<Span>, n: nat, lo: int, hi: int, maxSize: nat)
    requires Tiles(units, lo, hi) && Fits(units, maxSize) && 0 < n <= |units|
    ensures var merged := MergeFirst(units, n, maxSize);
            merged != [] && Tiles(merged, lo, units[n - 1].end) && Fits(merged, maxSize)
  {
    if n > 1 {
      MergeFirstTiles(units, n - 1, lo, hi, maxSize);
      var i := n - 2;
      assert units[i].end == units[n - 1].start;
    } else {
      assert MergeFirst(units, 0, maxSize) == [];
    }
  }

  lemma {:induction false} MergeFirstCuts(units: seq<Span>, n: nat, maxSize: nat)
    requires n <= |units|
    ensures CutsAmong(MergeFirst(units, n, maxSize), units[..n])
  {
    if n > 0 {
      MergeFirstCuts(units, n - 1, maxSize);
      var before, merged := MergeFirst(units, n - 1, maxSize), MergeFirst(units, n, maxSize);
      forall i | 0 <= i < |merged|
        ensures exists k :: 0 <= k < |units[..n]| && units[..n][k].end == merged[i].end
      {
        if i < |before| && merged[i] == before[i] {
          var k :| 0 <= k < |units[..n - 1]| && units[..n - 1][k].end == before[i].end;
          assert units[..n][k] == units[..n - 1][k];
        } else {
          assert units[..n][n - 1].end == merged[i].end;
        }
      }
    }
  }

  /** No block of the pass could have taken the unit after it. */
  lemma {:induction false} MergeFirstExhausted(units: seq<Span>, n: nat, lo: int, hi: int, maxSize: nat)
    requires Tiles(units, lo, hi) && Fits(units, maxSize) && n <= |units|
    ensures Exhausted(MergeFirst(units, n, maxSize), units[..n], maxSize)
  {
    if n > 1 {
      MergeFirstExhausted(units, n - 1, lo, hi, maxSize);
      MergeFirstTiles(units, n - 1, lo, hi, maxSize);
      var before, merged := MergeFirst(units, n - 1, maxSize), MergeFirst(units, n, maxSize);
      var j := n - 2;
      assert units[j].end == units[n - 1].start;
      forall i, k | 0 <= i < |merged| - 1 && 0 <= k < |units[..n]| && units[..n][k].start == merged[i].end
        ensures units[..n][k].end - merged[i].start > maxSize
      {
        assert merged[i] == before[i];
        if k == n - 1 {
          TilesOrdered(before, lo, units[j].end, i, |before| - 1);
          assert i == |before| - 1;
        } else {
          assert units[..n - 1][k] == units[..n][k];
          if i == |before| - 1 { TilesOrdered(units, lo, hi, k, n - 1); }
        }
      }
    }
  }

  /** The pass tiles the range its units tile, within the limit, adding no cut. */
  lemma MergeTiles(units: seq<Span>, lo: int, hi: int, maxSize: nat)
    requires Tiles(units, lo, hi) && Fits(units, maxSize)
    ensures var merged := MergeSpans(units, maxSize);
            Tiles(merged, lo, hi) && Fits(merged, maxSize) && CutsAmong(merged, units) &&
              Exhausted(merged, units, maxSize)
  {
    if units != [] { MergeFirstTiles(units, |units|, lo, hi, maxSize); }
    MergeFirstCuts(units, |units|, maxSize);
    MergeFirstExhausted(units, |units|, lo, hi, maxSize);
    assert units[..|units|] == units;
  }

  /** In a tiling, the tile that starts at an inner cut of a coarser tiling. */
  lemma TileFrom(units: seq<Span>, coarse: seq<Span>, lo: int, hi: int, i: nat) returns (k: nat)
    requires Tiles(units, lo, hi) && Tiles(coarse, lo, hi) && CutsAmong(coarse, units)
    requires i < |coarse| - 1
    ensures k < |units| && units[k].start == coarse[i].end
  {
    TilesOrdered(coarse, lo, hi, i, i + 1);
    k := TileAt(units, lo, hi, coarse[i].end);
    if units[k].start < coarse[i].end {
      var m :| 0 <= m < |units| && units[m].end == coarse[i].end;
      if m < k { TilesOrdered(units, lo, hi, m, k); } else { TilesOrdered(units, lo, hi, k, m); }
    }
  }

  /** Two neighbouring blocks never fit together. */
  lemma NeighboursOverflow(units: seq<Span>, lo: int, hi: int, maxSize: nat, i: nat)
    requires Tiles(units, lo, hi) && Fits(units, maxSize)
    requires i + 1 < |MergeSpans(units, maxSize)|
    ensures var merged := MergeSpans(units, maxSize); merged[i + 1].end - merged[i].start > maxSize
  {
    var merged := MergeSpans(units, maxSize);
    MergeTiles(units, lo, hi, maxSize);
    var k := TileFrom(units, merged, lo, hi, i);
    var j := i + 1;
    assert merged[j].start == merged[i].end;
    var m :| 0 <= m < |units| && units[m].end == merged[j].end;
    if m < k { TilesOrdered(units, lo, hi, m, k); } else { TilesOrdered(units, lo, hi, k, m); }
  }

  /** The greedy pass stays ahead: its j-th block ends no earlier than the j-th block of any grouping. */
  lemma {:induction false} StaysAhead(units: seq<Span>, ts: seq<Span>, lo: int, hi: int, maxSize: nat, j: nat)
    requires Tiles(units, lo, hi) && Fits(units, maxSize)
    requires Tiles(ts, lo, hi) && Fits(ts, maxSize) && CutsAmong(ts, units)
    requires j < |ts| && j < |MergeSpans(units, maxSize)|
    ensures ts[j].end <= MergeSpans(units, maxSize)[j].end
  {
    var merged := MergeSpans(units, maxSize);
    MergeTiles(units, lo, hi, maxSize);
    if j > 0 {
      StaysAhead(units, ts, lo, hi, maxSize, j - 1);
      var i := j - 1;
      assert merged[j].start == merged[i].end && ts[j].start == ts[i].end;
    }
    assert ts[j].start <= merged[j].start;
    if merged[j].end < ts[j].end {
      TilesOrdered(ts, lo, hi, j, j);
      assert j < |merged| - 1;
      var k := TileFrom(units, merged, lo, hi, j);
      var m :| 0 <= m < |units| && units[m].end == ts[j].end;
      UnitBeforeCut(units, lo, hi, k, m);
    }
  }

  /** A unit that starts before a unit's end also ends there or earlier. */
  lemma UnitBeforeCut(units: seq<Span>, lo: int, hi: int, k: nat, m: nat)
    requires Tiles(units, lo, hi) && k < |units| && m < |units| && units[k].start < units[m].end
    ensures units[k].end <= units[m].end
  {
    if m < k { TilesOrdered(units, lo, hi, m, k); } else { TilesOrdered(units, lo, hi, k, m); }
  }

  /** No grouping of consecutive units into blocks within the limit has fewer blocks. */
  lemma MergeOptimal(units: seq<Span>, ts: seq<Span>, lo: int, hi: int, maxSize: nat)
    requires Tiles(units, lo, hi) && Fits(units, maxSize)
    requires Tiles(ts, lo, hi) && Fits(ts, maxSize) && CutsAmong(ts, units)
    ensures |MergeSpans(units, maxSize)| <= |ts|
  {
    var merged := MergeSpans(units, maxSize);
    MergeTiles(units, lo, hi, maxSize);
    if |ts| < |merged| {
      TilesSpan(merged, lo, hi);
      TilesSpan(ts, lo, hi);
      var j := |ts| - 1;
      StaysAhead(units, ts, lo, hi, maxSize, j);
      TilesOrdered(merged, lo, hi, j, j + 1);
    }
  }

  /** Any two neighbours take more than the limit. */
  ghost predicate NeighboursExceed(blocks: seq<Span>, maxSize: nat)
  {
    forall i, j :: 0 <= i && j == i + 1 && j < |blocks| ==> blocks[j].end - blocks[i].start > maxSize
  }

  lemma MergedExceed(units: seq<Span>, lo: int, hi: int, maxSize: nat)
    requires Tiles(units, lo, hi) && Fits(units, maxSize)
    ensures NeighboursExceed(MergeSpans(units, maxSize), maxSize)
  {
    var merged := MergeSpans(units, maxSize);
    forall i, j | 0 <= i && j == i + 1 && j < |merged|
      ensures merged[j].end - merged[i].start > maxSize
    {
      NeighboursOverflow(units, lo, hi, maxSize, i);
    }
  }

  lemma ExceedTail(blocks: seq<Span>, maxSize: nat)
    requires NeighboursExceed(blocks, maxSize) && |blocks| >= 2
    ensures NeighboursExceed(blocks[2..], maxSize) && blocks[1].end - blocks[0].start > maxSize
  {
    var i, j := 0, 1;
    assert blocks[j].end - blocks[i].start > maxSize;
  }

  /** Every two blocks take more than the limit, so the number of blocks is bounded by the length. */
  lemma {:induction false} BlockCount(blocks: seq<Span>, lo: int, hi: int, maxSize: nat)
    requires Tiles(blocks, lo, hi) && NeighboursExceed(blocks, maxSize)
    ensures |blocks| / 2 * (maxSize + 1) <= hi - lo
    decreases |blocks|
  {
    TilesSpan(blocks, lo, hi);
    if |blocks| >= 2 {
      TilesPrefix(blocks, lo, hi, 2);
      ExceedTail(blocks, maxSize);
      BlockCount(blocks[2..], blocks[1].end, hi, maxSize);
      OnePairMore(|blocks|, maxSize + 1);
    }
  }

  lemma OnePairMore(n: nat, width: nat)
    requires n >= 2
    ensures n / 2 * width == (n - 2) / 2 * width + width
  {
    assert n / 2 == 1 + (n - 2) / 2;
  }

  lemma MergeCount(units: seq<Span>, lo: int, hi: int, maxSize: nat)
    requires Tiles(units, lo, hi) && Fits(units, maxSize)
    ensures |MergeSpans(units, maxSize)| / 2 * (maxSize + 1) <= hi - lo
  {
    var merged := MergeSpans(units, maxSize);
    MergeTiles(units, lo, hi, maxSize);
    MergedExceed(units, lo, hi, maxSize);
    BlockCount(merged, lo, hi, maxSize);
  }

  lemma {:induction false} NothingToMerge(blocks: seq<Span>, lo: int, hi: int, maxSize: nat, n: nat)
    requires Tiles(blocks, lo, hi) && n <= |blocks|
    requires NeighboursExceed(blocks, maxSize)
    ensures MergeFirst(blocks, n, maxSize) == blocks[..n]
  {
    if n > 0 {
      NothingToMerge(blocks, lo, hi, maxSize, n - 1);
      if n > 1 {
        var i := n - 2;
        assert blocks[n - 1].end - blocks[i].start > maxSize;
      }
    }
  }

  /** A second pass changes nothing. */
  lemma MergeIdempotent(units: seq<Span>, lo: int, hi: int, maxSize: nat)
    requires Tiles(units, lo, hi) && Fits(units, maxSize)
    ensures MergeSpans(MergeSpans(units, maxSize), maxSize) == MergeSpans(units, maxSize)
  {
    var merged := MergeSpans(units, maxSize);
    MergeTiles(units, lo, hi, maxSize);
    MergedExceed(units, lo, hi, maxSize);
    NothingToMerge(merged, lo, hi, maxSize, |merged|);
  }

  /** A unit is never cut: each lies whole inside one block. */
  lemma UnitsStayWhole(units: seq<Span>, lo: int, hi: int, maxSize: nat, u: nat)
    requires Tiles(units, lo, hi) && Fits(units, maxSize) && u < |units|
    ensures Covered(MergeSpans(units, maxSize), units[u])
  {
    var merged := MergeSpans(units, maxSize);
    MergeTiles(units, lo, hi, maxSize);
    TilesOrdered(units, lo, hi, u, u);
    var k := TileAt(merged, lo, hi, units[u].start);
    if merged[k].end < units[u].end {
      var m :| 0 <= m < |units| && units[m].end == merged[k].end;
      if m < u { TilesOrdered(units, lo, hi, m, u); } else { TilesOrdered(units, lo, hi, u, m); }
    }
  }

  /** Merging moves no cut, so it keeps cuts between code points. */
  lemma MergeOnBoundaries(source: seq<Byte>, units: seq<Span>, lo: nat, hi: nat, maxSize: nat)
    requires Tiles(units, lo, hi) && Fits(units, maxSize) && OnBoundaries(source, units)
    ensures OnBoundaries(source, MergeSpans(units, maxSize))
  {
    var merged := MergeSpans(units, maxSize);
    MergeTiles(units, lo, hi, maxSize);
    forall i | 0 <= i < |merged|
      ensures Boundary(source, merged[i].start) && Boundary(source, merged[i].end)
    {
      var k :| 0 <= k < |units| && units[k].end == merged[i].end;
      if i > 0 {
        var j := i - 1;
        assert merged[j].end == merged[i].start;
        var m :| 0 <= m < |units| && units[m].end == merged[j].end;
      } else {
        assert merged[0].start == units[0].start;
      }
    }
  }
}
