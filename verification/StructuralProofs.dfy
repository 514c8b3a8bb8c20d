/** What the recursive splitter promises: its units tile the node within the limit and on code-point
    boundaries, and exactly which trees it splits without cutting a node that fits. */
module StructuralProofs {
  import opened Utf8
  import opened Spans
  import opened LineSplitter
  import opened Structural

  // ---------- Tiling ----------

  lemma AttachedTiles(childUnits: seq<Span>, cursor: nat, childStart: nat, childEnd: nat, source: seq<Byte>,
                      maxSize: nat)
    requires cursor <= childStart < childEnd <= |source| && maxSize >= 1
    requires Tiles(childUnits, childStart, childEnd) && Fits(childUnits, maxSize)
    ensures Tiles(Attached(childUnits, cursor, childStart, source, maxSize), cursor, childEnd)
    ensures Fits(Attached(childUnits, cursor, childStart, source, maxSize), maxSize)
  {
    if childStart > cursor {
      if childUnits[0].end - cursor <= maxSize {
        StretchFirst(childUnits, childStart, childEnd, cursor);
      } else {
        SplitTiles(source, cursor, childStart, maxSize);
        TilesAppend(SplitSpans(source, cursor, childStart, maxSize), childUnits, cursor, childStart, childEnd);
      }
    }
  }

  lemma StretchFirst(us: seq<Span>, lo: nat, hi: nat, cursor: nat)
    requires Tiles(us, lo, hi) && us != [] && cursor <= lo
    ensures Tiles(us[0 := Span(cursor, us[0].end)], cursor, hi)
  {
  }

  lemma StretchLast(us: seq<Span>, lo: nat, hi: nat, end: nat)
    requires Tiles(us, lo, hi) && us != [] && hi <= end
    ensures Tiles(us[|us| - 1 := Span(us[|us| - 1].start, end)], lo, end)
  {
  }

  lemma CloseTailTiles(units: seq<Span>, lo: nat, cursor: nat, end: nat, source: seq<Byte>, maxSize: nat)
    requires lo <= cursor <= end <= |source| && maxSize >= 1
    requires Tiles(units, lo, cursor) && Fits(units, maxSize)
    ensures Tiles(CloseTail(units, cursor, end, source, maxSize), lo, end)
    ensures Fits(CloseTail(units, cursor, end, source, maxSize), maxSize)
  {
    var last := |units| - 1;
    if cursor < end {
      if units != [] && end - units[last].start <= maxSize {
        StretchLast(units, lo, cursor, end);
      } else {
        SplitTiles(source, cursor, end, maxSize);
        TilesAppend(units, SplitSpans(source, cursor, end, maxSize), lo, cursor, end);
      }
    }
  }

  /** The units of a non-empty node are non-empty, tile it exactly and fit. */
  lemma {:induction false} StructuralTiles(node: Node, source: seq<Byte>, maxSize: nat)
    requires WellFormed(node) && node.start < node.end <= |source| && maxSize >= 1
    ensures Tiles(StructuralSpans(node, source, maxSize), node.start, node.end)
    ensures Fits(StructuralSpans(node, source, maxSize), maxSize)
    decreases node, |node.children| + 1
  {
    if node.end - node.start > maxSize {
      var kept := Kept(node.children, node.start);
      KeptOrdered(node, node.children, node.start, node.start);
      if kept == [] || SameExtent(node, kept) {
        SplitTiles(source, node.start, node.end, maxSize);
      } else {
        WalkTiles(node, kept, source, maxSize, node.start, []);
        var walked := WalkChildren(node, kept, source, maxSize, node.start, []);
        CloseTailTiles(walked.0, node.start, walked.1, node.end, source, maxSize);
      }
    }
  }

  lemma {:induction false} WalkTiles(parent: Node, cs: seq<Node>, source: seq<Byte>, maxSize: nat, cursor: nat,
                                     units: seq<Span>)
    requires Below(cs, parent) && Ordered(parent, cs, cursor) && parent.end <= |source| && maxSize >= 1
    requires forall i :: 0 <= i < |cs| ==> cs[i].start < cs[i].end
    requires parent.start <= cursor <= parent.end
    requires Tiles(units, parent.start, cursor) && Fits(units, maxSize)
    ensures var walked := WalkChildren(parent, cs, source, maxSize, cursor, units);
            cursor <= walked.1 <= parent.end && Tiles(walked.0, parent.start, walked.1) && Fits(walked.0, maxSize)
    decreases parent, |cs|
  {
    if cs != [] {
      var child := cs[0];
      StructuralTiles(child, source, maxSize);
      var added := Attached(StructuralSpans(child, source, maxSize), cursor, child.start, source, maxSize);
      AttachedTiles(StructuralSpans(child, source, maxSize), cursor, child.start, child.end, source, maxSize);
      TilesAppend(units, added, parent.start, cursor, child.end);
      WalkTiles(parent, cs[1..], source, maxSize, child.end, units + added);
    }
  }

  // ---------- Which nodes stay whole ----------

  /** d is the node itself or a named descendant of it. */
  ghost predicate Within(d: Node, node: Node)
  {
    d == node || exists i :: 0 <= i < |node.children| && Within(d, node.children[i])
  }

  lemma {:induction false} OrderedAt(parent: Node, cs: seq<Node>, lo: nat, i: nat)
    requires Below(cs, parent) && Ordered(parent, cs, lo) && i < |cs|
    ensures WellFormed(cs[i]) && lo <= cs[i].start && cs[i].end <= parent.end
    decreases |cs|
  {
    if i > 0 { OrderedAt(parent, cs[1..], cs[0].end, i - 1); }
  }

  lemma {:induction false} WithinBounds(d: Node, node: Node)
    requires WellFormed(node) && Within(d, node)
    ensures node.start <= d.start <= d.end <= node.end
    decreases node
  {
    if d != node {
      var i :| 0 <= i < |node.children| && Within(d, node.children[i]);
      OrderedAt(node, node.children, node.start, i);
      WithinBounds(d, node.children[i]);
    }
  }

  /** Some named descendant fits and is long enough to be cut. */
  predicate HasCuttable(node: Node, maxSize: nat)
  {
    (2 <= node.end - node.start <= maxSize) ||
    exists i :: 0 <= i < |node.children| && HasCuttable(node.children[i], maxSize)
  }

  lemma {:induction false} CuttableWitness(node: Node, maxSize: nat) returns (d: Node)
    requires HasCuttable(node, maxSize)
    ensures Within(d, node) && 2 <= d.end - d.start <= maxSize
  {
    if 2 <= node.end - node.start <= maxSize {
      d := node;
    } else {
      var i :| 0 <= i < |node.children| && HasCuttable(node.children[i], maxSize);
      d := CuttableWitness(node.children[i], maxSize);
    }
  }

  lemma {:induction false} CuttableIf(d: Node, node: Node, maxSize: nat)
    requires Within(d, node) && 2 <= d.end - d.start <= maxSize
    ensures HasCuttable(node, maxSize)
    decreases node
  {
    if d != node {
      var i :| 0 <= i < |node.children| && Within(d, node.children[i]);
      CuttableIf(d, node.children[i], maxSize);
    }
  }

  /** The check a caller can make on a tree: wherever the recursion meets an oversized node whose
      only non-empty child has the same range - there it stops and splits at lines - nothing below
      that node could be cut by it. */
  predicate Intact(node: Node, maxSize: nat)
  {
    node.end - node.start <= maxSize ||
    (var kept := Kept(node.children, node.start);
     if SameExtent(node, kept) then !HasCuttable(node, maxSize)
     else forall i :: 0 <= i < |kept| ==> Intact(kept[i], maxSize))
  }

  lemma CoveredKept(us: seq<Span>, extra: seq<Span>, s: Span)
    ensures Covered(us, s) ==> Covered(us + extra, s) && Covered(extra + us, s)
  {
    if Covered(us, s) {
      var i :| 0 <= i < |us| && us[i].start <= s.start && s.end <= us[i].end;
      assert (us + extra)[i] == us[i] && (extra + us)[|extra| + i] == us[i];
    }
  }

  lemma AttachedCovers(childUnits: seq<Span>, cursor: nat, childStart: nat, source: seq<Byte>, maxSize: nat, s: Span)
    requires childStart <= |source| && maxSize >= 1
    requires childUnits != [] ==> childUnits[0].start == childStart
    requires Covered(childUnits, s)
    ensures Covered(Attached(childUnits, cursor, childStart, source, maxSize), s)
  {
    var i :| 0 <= i < |childUnits| && childUnits[i].start <= s.start && s.end <= childUnits[i].end;
    if childStart > cursor {
      if childUnits[0].end - cursor <= maxSize {
        var stretched := childUnits[0 := Span(cursor, childUnits[0].end)];
        assert stretched[i].start <= s.start && s.end <= stretched[i].end;
      } else {
        CoveredKept(childUnits, SplitSpans(source, cursor, childStart, maxSize), s);
      }
    }
  }

  lemma CloseTailCovers(units: seq<Span>, cursor: nat, end: nat, source: seq<Byte>, maxSize: nat, s: Span)
    requires end <= |source| && maxSize >= 1 && cursor <= end
    requires units != [] ==> units[|units| - 1].end == cursor
    requires Covered(units, s)
    ensures Covered(CloseTail(units, cursor, end, source, maxSize), s)
  {
    var last := |units| - 1;
    var i :| 0 <= i < |units| && units[i].start <= s.start && s.end <= units[i].end;
    if cursor < end {
      if end - units[last].start <= maxSize {
        var stretched := units[last := Span(units[last].start, end)];
        assert stretched[i].start <= s.start && s.end <= stretched[i].end;
      } else {
        CoveredKept(units, SplitSpans(source, cursor, end, maxSize), s);
      }
    }
  }

  /** In an intact tree every named node that fits lies whole inside one unit. */
  lemma {:induction false} StructuralWhole(node: Node, source: seq<Byte>, maxSize: nat, d: Node)
    requires WellFormed(node) && node.start < node.end <= |source| && maxSize >= 1
    requires Intact(node, maxSize) && Within(d, node) && d.end - d.start <= maxSize
    ensures Covered(StructuralSpans(node, source, maxSize), Extent(d))
    decreases node, |node.children| + 1, 0
  {
    WithinBounds(d, node);
    StructuralTiles(node, source, maxSize);
    if d.end - d.start <= 1 {
      TinyCovered(StructuralSpans(node, source, maxSize), node.start, node.end, Extent(d));
    } else if node.end - node.start <= maxSize {
      assert StructuralSpans(node, source, maxSize)[0] == Extent(node);
    } else {
      CuttableIf(d, node, maxSize);
      var k := KeptAncestor(node, d);
      LargeWhole(node, source, maxSize, k, d);
    }
  }

  /** A non-empty proper descendant lies in one of the children kept. */
  lemma KeptAncestor(node: Node, d: Node) returns (k: nat)
    requires WellFormed(node) && Within(d, node) && d != node && d.start < d.end
    ensures var kept := Kept(node.children, node.start); k < |kept| && Within(d, kept[k])
  {
    var i :| 0 <= i < |node.children| && Within(d, node.children[i]);
    OrderedAt(node, node.children, node.start, i);
    WithinBounds(d, node.children[i]);
    assert node.children[i] in Kept(node.children, node.start);
    k :| 0 <= k < |Kept(node.children, node.start)| && Kept(node.children, node.start)[k] == node.children[i];
  }

  /** An oversized node keeps whole what one of its kept children keeps whole. */
  lemma {:induction false} LargeWhole(node: Node, source: seq<Byte>, maxSize: nat, k: nat, d: Node)
    requires WellFormed(node) && node.end <= |source| && maxSize >= 1 && node.end - node.start > maxSize
    requires var kept := Kept(node.children, node.start);
             !SameExtent(node, kept) && k < |kept| && Within(d, kept[k]) && Intact(kept[k], maxSize)
    requires d.end - d.start <= maxSize
    ensures Covered(StructuralSpans(node, source, maxSize), Extent(d))
    decreases node, |node.children|, 1
  {
    var kept := Kept(node.children, node.start);
    KeptOrdered(node, node.children, node.start, node.start);
    WalkTiles(node, kept, source, maxSize, node.start, []);
    WalkWhole(node, kept, source, maxSize, node.start, [], k, d);
    var walked := WalkChildren(node, kept, source, maxSize, node.start, []);
    CloseTailCovers(walked.0, walked.1, node.end, source, maxSize, Extent(d));
  }

  lemma {:induction false} WalkKeeps(parent: Node, cs: seq<Node>, source: seq<Byte>, maxSize: nat, cursor: nat,
                                     units: seq<Span>, s: Span)
    requires Below(cs, parent) && Ordered(parent, cs, cursor) && parent.end <= |source| && maxSize >= 1
    requires Covered(units, s)
    ensures Covered(WalkChildren(parent, cs, source, maxSize, cursor, units).0, s)
    decreases |cs|
  {
    if cs != [] {
      var child := cs[0];
      var added := Attached(StructuralSpans(child, source, maxSize), cursor, child.start, source, maxSize);
      CoveredKept(units, added, s);
      WalkKeeps(parent, cs[1..], source, maxSize, Max(cursor, child.end), units + added, s);
    }
  }

  lemma {:induction false} WalkWhole(parent: Node, cs: seq<Node>, source: seq<Byte>, maxSize: nat, cursor: nat,
                                     units: seq<Span>, k: nat, d: Node)
    requires Below(cs, parent) && Ordered(parent, cs, cursor) && parent.end <= |source| && maxSize >= 1
    requires forall i :: 0 <= i < |cs| ==> cs[i].start < cs[i].end
    requires k < |cs| && Intact(cs[k], maxSize) && Within(d, cs[k]) && d.end - d.start <= maxSize
    ensures Covered(WalkChildren(parent, cs, source, maxSize, cursor, units).0, Extent(d))
    decreases parent, |cs|, 0
  {
    var child := cs[0];
    var childUnits := StructuralSpans(child, source, maxSize);
    var added := Attached(childUnits, cursor, child.start, source, maxSize);
    if k == 0 {
      StructuralTiles(child, source, maxSize);
      StructuralWhole(child, source, maxSize, d);
      AttachedCovers(childUnits, cursor, child.start, source, maxSize, Extent(d));
      CoveredKept(added, units, Extent(d));
      WalkKeeps(parent, cs[1..], source, maxSize, Max(cursor, child.end), units + added, Extent(d));
    } else {
      WalkWhole(parent, cs[1..], source, maxSize, Max(cursor, child.end), units + added, k - 1, d);
    }
  }
}
