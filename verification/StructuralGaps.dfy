/** Where the splitter puts the bytes between and behind the children of an oversized node: with the
    neighbouring piece when they fit there together, and into line pieces of their own otherwise. */
module StructuralGaps {
  import opened Utf8
  import opened Spans
  import opened LineSplitter
  import opened Structural
  import opened StructuralProofs

  /** From index m on the units are exactly these pieces, and then one that starts at s. */
  ghost predicate LaidAt(us: seq<Span>, m: int, pieces: seq<Span>, s: nat)
  {
    0 <= m && m + |pieces| < |us| && us[m..m + |pieces|] == pieces && us[m + |pieces|].start == s
  }

  ghost predicate LaidOut(us: seq<Span>, pieces: seq<Span>, s: nat) { exists m :: LaidAt(us, m, pieces, s) }

  /** The gap from p to s goes with the unit behind it, which ends at e, if the two fit together. If
      not, it makes up units of its own, cut at lines, and the next unit starts at s. */
  ghost predicate GapPlaced(us: seq<Span>, source: seq<Byte>, maxSize: nat, p: nat, s: nat, e: nat)
    requires p <= s <= |source| && maxSize >= 1
  {
    if e - p <= maxSize then Covered(us, Span(p, e)) else LaidOut(us, SplitSpans(source, p, s, maxSize), s)
  }

  /** The bytes from p to the end go with the last unit, which starts at a, if the two fit together. If
      not, they make up the last units, cut at lines, behind one that ends at p. */
  ghost predicate TailPlaced(us: seq<Span>, source: seq<Byte>, maxSize: nat, a: nat, p: nat, end: nat)
    requires p <= end <= |source| && maxSize >= 1
  {
    us != [] &&
    if end - a <= maxSize then us[|us| - 1] == Span(a, end)
    else exists m :: EndsWith(us, m, SplitSpans(source, p, end, maxSize), p)
  }

  ghost predicate EndsWith(us: seq<Span>, m: int, pieces: seq<Span>, p: nat)
  {
    0 < m <= |us| && us[m..] == pieces && us[m - 1].end == p
  }

  // ---------- Laying out is kept ----------

  lemma LaidFollowed(us: seq<Span>, more: seq<Span>, pieces: seq<Span>, s: nat)
    requires LaidOut(us, pieces, s)
    ensures LaidOut(us + more, pieces, s)
  {
    var m :| LaidAt(us, m, pieces, s);
    assert (us + more)[m..m + |pieces|] == us[m..m + |pieces|];
    assert LaidAt(us + more, m, pieces, s);
  }

  lemma LaidPreceded(before: seq<Span>, us: seq<Span>, pieces: seq<Span>, s: nat)
    requires LaidOut(us, pieces, s)
    ensures LaidOut(before + us, pieces, s)
  {
    var m :| LaidAt(us, m, pieces, s);
    var n := |before| + m;
    assert (before + us)[n..n + |pieces|] == us[m..m + |pieces|];
    assert LaidAt(before + us, n, pieces, s);
  }

  lemma LaidStretched(us: seq<Span>, end: nat, pieces: seq<Span>, s: nat)
    requires LaidOut(us, pieces, s)
    ensures LaidOut(us[|us| - 1 := Span(us[|us| - 1].start, end)], pieces, s)
  {
    var m :| LaidAt(us, m, pieces, s);
    var v := us[|us| - 1 := Span(us[|us| - 1].start, end)];
    assert v[m..m + |pieces|] == us[m..m + |pieces|];
    assert LaidAt(v, m, pieces, s);
  }

  lemma PlacedFollowed(us: seq<Span>, more: seq<Span>, source: seq<Byte>, maxSize: nat, p: nat, s: nat, e: nat)
    requires p <= s <= |source| && maxSize >= 1 && GapPlaced(us, source, maxSize, p, s, e)
    ensures GapPlaced(us + more, source, maxSize, p, s, e)
  {
    if e - p <= maxSize { CoveredKept(us, more, Span(p, e)); }
    else { LaidFollowed(us, more, SplitSpans(source, p, s, maxSize), s); }
  }

  lemma PlacedPreceded(before: seq<Span>, us: seq<Span>, source: seq<Byte>, maxSize: nat, p: nat, s: nat, e: nat)
    requires p <= s <= |source| && maxSize >= 1 && GapPlaced(us, source, maxSize, p, s, e)
    ensures GapPlaced(before + us, source, maxSize, p, s, e)
  {
    if e - p <= maxSize { CoveredKept(us, before, Span(p, e)); }
    else { LaidPreceded(before, us, SplitSpans(source, p, s, maxSize), s); }
  }

  lemma PlacedClosed(us: seq<Span>, source: seq<Byte>, maxSize: nat, p: nat, s: nat, e: nat, cursor: nat, end: nat)
    requires p <= s <= |source| && maxSize >= 1 && GapPlaced(us, source, maxSize, p, s, e)
    requires cursor <= end <= |source| && us != [] && us[|us| - 1].end == cursor
    ensures GapPlaced(CloseTail(us, cursor, end, source, maxSize), source, maxSize, p, s, e)
  {
    if e - p <= maxSize {
      CloseTailCovers(us, cursor, end, source, maxSize, Span(p, e));
    } else if cursor < end {
      LaidFollowed(us, SplitSpans(source, cursor, end, maxSize), SplitSpans(source, p, s, maxSize), s);
      LaidStretched(us, end, SplitSpans(source, p, s, maxSize), s);
    }
  }

  // ---------- One child ----------

  lemma AttachedPlaced(childUnits: seq<Span>, cursor: nat, start: nat, source: seq<Byte>, maxSize: nat)
    requires cursor <= start <= |source| && maxSize >= 1
    requires childUnits != [] && childUnits[0].start == start && Size(childUnits[0]) <= maxSize
    ensures GapPlaced(Attached(childUnits, cursor, start, source, maxSize), source, maxSize, cursor, start,
                      childUnits[0].end)
  {
    var e := childUnits[0].end;
    var added := Attached(childUnits, cursor, start, source, maxSize);
    if e - cursor <= maxSize {
      assert added[0].start <= cursor && e <= added[0].end;
    } else {
      var pieces := SplitSpans(source, cursor, start, maxSize);
      assert added[0..|pieces|] == pieces;
      assert LaidAt(added, 0, pieces, start);
    }
  }

  lemma {:induction false} WalkKeepsPlaced(parent: Node, cs: seq<Node>, source: seq<Byte>, maxSize: nat, cursor: nat,
                                           units: seq<Span>, p: nat, s: nat, e: nat)
    requires Below(cs, parent) && Ordered(parent, cs, cursor) && parent.end <= |source| && maxSize >= 1
    requires p <= s <= |source| && GapPlaced(units, source, maxSize, p, s, e)
    ensures GapPlaced(WalkChildren(parent, cs, source, maxSize, cursor, units).0, source, maxSize, p, s, e)
    decreases |cs|
  {
    if cs != [] {
      var child := cs[0];
      var added := Attached(StructuralSpans(child, source, maxSize), cursor, child.start, source, maxSize);
      PlacedFollowed(units, added, source, maxSize, p, s, e);
      WalkKeepsPlaced(parent, cs[1..], source, maxSize, Max(cursor, child.end), units + added, p, s, e);
    }
  }

  /** Where the child before the kth ends, or the walk began. */
  function EndBefore(cs: seq<Node>, start: nat, k: nat): nat
    requires k < |cs|
  {
    if k == 0 then start else cs[k - 1].end
  }

  lemma FirstUnit(child: Node, source: seq<Byte>, maxSize: nat)
    requires WellFormed(child) && child.start < child.end <= |source| && maxSize >= 1
    ensures var us := StructuralSpans(child, source, maxSize);
            us != [] && us[0].start == child.start && Size(us[0]) <= maxSize && us[|us| - 1].end == child.end
  {
    StructuralTiles(child, source, maxSize);
  }

  lemma {:induction false} WalkPlaces(parent: Node, cs: seq<Node>, source: seq<Byte>, maxSize: nat, cursor: nat,
                                      units: seq<Span>, k: nat)
    requires Below(cs, parent) && Ordered(parent, cs, cursor) && parent.end <= |source| && maxSize >= 1
    requires (forall i :: 0 <= i < |cs| ==> cs[i].start < cs[i].end) && k < |cs|
    ensures WellFormed(cs[k]) && EndBefore(cs, cursor, k) <= cs[k].start && cs[k].end <= |source|
    ensures StructuralSpans(cs[k], source, maxSize) != []
    ensures GapPlaced(WalkChildren(parent, cs, source, maxSize, cursor, units).0, source, maxSize,
                      EndBefore(cs, cursor, k), cs[k].start, StructuralSpans(cs[k], source, maxSize)[0].end)
    decreases |cs|
  {
    var child := cs[0];
    var childUnits := StructuralSpans(child, source, maxSize);
    var added := Attached(childUnits, cursor, child.start, source, maxSize);
    FirstUnit(child, source, maxSize);
    if k == 0 {
      AttachedPlaced(childUnits, cursor, child.start, source, maxSize);
      PlacedPreceded(units, added, source, maxSize, cursor, child.start, childUnits[0].end);
      WalkKeepsPlaced(parent, cs[1..], source, maxSize, child.end, units + added, cursor, child.start,
                      childUnits[0].end);
    } else {
      WalkPlaces(parent, cs[1..], source, maxSize, child.end, units + added, k - 1);
    }
  }

  // ---------- The last child ----------

  /** Where the last unit starts, before the bytes behind the last child are placed: if the last child
      is one unit that takes the gap before it, at the beginning of that gap. */
  ghost function LastStart(childUnits: seq<Span>, p: nat, maxSize: nat): nat
    requires childUnits != []
  {
    if |childUnits| == 1 && childUnits[0].end - p <= maxSize then p else childUnits[|childUnits| - 1].start
  }

  lemma {:induction false} WalkEnds(parent: Node, cs: seq<Node>, source: seq<Byte>, maxSize: nat, cursor: nat,
                                    units: seq<Span>)
    requires Below(cs, parent) && Ordered(parent, cs, cursor) && parent.end <= |source| && maxSize >= 1
    requires (forall i :: 0 <= i < |cs| ==> cs[i].start < cs[i].end) && cs != []
    ensures var k := |cs| - 1;
            && WellFormed(cs[k]) && cs[k].end <= parent.end && StructuralSpans(cs[k], source, maxSize) != []
            && var (us, end) := WalkChildren(parent, cs, source, maxSize, cursor, units);
               us != [] && end == cs[k].end && us[|us| - 1] ==
               Span(LastStart(StructuralSpans(cs[k], source, maxSize), EndBefore(cs, cursor, k), maxSize), end)
    decreases |cs|
  {
    if |cs| > 1 {
      var added := Attached(StructuralSpans(cs[0], source, maxSize), cursor, cs[0].start, source, maxSize);
      WalkUnfolds(parent, cs, source, maxSize, cursor, units);
      WalkEnds(parent, cs[1..], source, maxSize, cs[0].end, units + added);
    } else {
      OneChildEnds(parent, cs, source, maxSize, cursor, units);
    }
  }

  lemma OneChildEnds(parent: Node, cs: seq<Node>, source: seq<Byte>, maxSize: nat, cursor: nat, units: seq<Span>)
    requires Below(cs, parent) && Ordered(parent, cs, cursor) && parent.end <= |source| && maxSize >= 1
    requires |cs| == 1 && cs[0].start < cs[0].end
    ensures WellFormed(cs[0]) && cs[0].end <= parent.end && StructuralSpans(cs[0], source, maxSize) != []
    ensures var (us, end) := WalkChildren(parent, cs, source, maxSize, cursor, units);
            us != [] && end == cs[0].end && us[|us| - 1] ==
            Span(LastStart(StructuralSpans(cs[0], source, maxSize), cursor, maxSize), end)
  {
    var child := cs[0];
    var childUnits := StructuralSpans(child, source, maxSize);
    FirstUnit(child, source, maxSize);
    WalkUnfolds(parent, cs, source, maxSize, cursor, units);
    AttachedEnds(childUnits, cursor, child.start, source, maxSize);
    WalkDone(parent, source, maxSize, child.end, units,
             Attached(childUnits, cursor, child.start, source, maxSize));
  }

  lemma WalkUnfolds(parent: Node, cs: seq<Node>, source: seq<Byte>, maxSize: nat, cursor: nat, units: seq<Span>)
    requires Below(cs, parent) && Ordered(parent, cs, cursor) && parent.end <= |source| && maxSize >= 1
    requires cs != [] && cs[0].start < cs[0].end
    ensures Ordered(parent, cs[1..], cs[0].end)
    ensures WalkChildren(parent, cs, source, maxSize, cursor, units) ==
            WalkChildren(parent, cs[1..], source, maxSize, cs[0].end,
                         units + Attached(StructuralSpans(cs[0], source, maxSize), cursor, cs[0].start, source,
                                          maxSize))
  {
  }

  lemma WalkDone(parent: Node, source: seq<Byte>, maxSize: nat, cursor: nat, units: seq<Span>, added: seq<Span>)
    requires parent.end <= |source| && maxSize >= 1 && added != []
    ensures WalkChildren(parent, [], source, maxSize, cursor, units + added) == (units + added, cursor)
    ensures (units + added)[|units + added| - 1] == added[|added| - 1]
  {
  }

  lemma AttachedEnds(childUnits: seq<Span>, cursor: nat, start: nat, source: seq<Byte>, maxSize: nat)
    requires cursor <= start <= |source| && maxSize >= 1
    requires childUnits != [] && childUnits[0].start == start && Size(childUnits[0]) <= maxSize
    ensures var added := Attached(childUnits, cursor, start, source, maxSize);
            added != [] && added[|added| - 1] ==
            Span(LastStart(childUnits, cursor, maxSize), childUnits[|childUnits| - 1].end)
  {
  }

  lemma CloseTailPlaced(us: seq<Span>, source: seq<Byte>, maxSize: nat, cursor: nat, end: nat)
    requires us != [] && us[|us| - 1].end == cursor <= end <= |source| && maxSize >= 1 && Size(us[|us| - 1]) <= maxSize
    ensures TailPlaced(CloseTail(us, cursor, end, source, maxSize), source, maxSize, us[|us| - 1].start, cursor, end)
  {
    if end - us[|us| - 1].start > maxSize {
      var pieces := SplitSpans(source, cursor, end, maxSize);
      assert EndsWith(us + pieces, |us|, pieces, cursor);
    }
  }

  // ---------- An oversized node ----------

  /** The children that the splitter recurses into. */
  ghost predicate Divides(node: Node, kept: seq<Node>, maxSize: nat)
  {
    node.end - node.start > maxSize && kept == Kept(node.children, node.start) && kept != [] && !SameExtent(node, kept)
  }

  lemma DividesWalk(node: Node, kept: seq<Node>, source: seq<Byte>, maxSize: nat)
    requires WellFormed(node) && node.end <= |source| && maxSize >= 1 && Divides(node, kept, maxSize)
    ensures Below(kept, node) && Ordered(node, kept, node.start)
    ensures var (us, cursor) := WalkChildren(node, kept, source, maxSize, node.start, []);
            StructuralSpans(node, source, maxSize) == CloseTail(us, cursor, node.end, source, maxSize)
  {
    KeptOrdered(node, node.children, node.start, node.start);
  }

  /** The bytes before a child, from where the one before it ends, go with the child's first unit if
      they fit with it. If not, they are line pieces between the two children. */
  lemma GapBeforeChild(node: Node, kept: seq<Node>, source: seq<Byte>, maxSize: nat, k: nat)
    requires WellFormed(node) && node.end <= |source| && maxSize >= 1 && Divides(node, kept, maxSize) && k < |kept|
    ensures WellFormed(kept[k]) && EndBefore(kept, node.start, k) <= kept[k].start && kept[k].end <= |source|
    ensures StructuralSpans(kept[k], source, maxSize) != []
    ensures GapPlaced(StructuralSpans(node, source, maxSize), source, maxSize, EndBefore(kept, node.start, k),
                      kept[k].start, StructuralSpans(kept[k], source, maxSize)[0].end)
  {
    DividesWalk(node, kept, source, maxSize);
    WalkPlaces(node, kept, source, maxSize, node.start, [], k);
    WalkEnds(node, kept, source, maxSize, node.start, []);
    var (us, cursor) := WalkChildren(node, kept, source, maxSize, node.start, []);
    PlacedClosed(us, source, maxSize, EndBefore(kept, node.start, k), kept[k].start,
                 StructuralSpans(kept[k], source, maxSize)[0].end, cursor, node.end);
  }

  /** The bytes behind the last child go with the last unit if they fit with it. If not, they are line
      pieces at the end. */
  lemma TailBehindChildren(node: Node, kept: seq<Node>, source: seq<Byte>, maxSize: nat)
    requires WellFormed(node) && node.end <= |source| && maxSize >= 1 && Divides(node, kept, maxSize)
    ensures var last := kept[|kept| - 1];
            && WellFormed(last) && last.end <= node.end && StructuralSpans(last, source, maxSize) != []
            && TailPlaced(StructuralSpans(node, source, maxSize), source, maxSize,
                          LastStart(StructuralSpans(last, source, maxSize), EndBefore(kept, node.start, |kept| - 1),
                                    maxSize),
                          last.end, node.end)
  {
    DividesWalk(node, kept, source, maxSize);
    WalkEnds(node, kept, source, maxSize, node.start, []);
    WalkTiles(node, kept, source, maxSize, node.start, []);
    var (us, cursor) := WalkChildren(node, kept, source, maxSize, node.start, []);
    CloseTailPlaced(us, source, maxSize, cursor, node.end);
  }

  // ---------- What a child's own units become ----------

  ghost predicate StartsAt(us: seq<Span>, q: nat) { exists i :: 0 <= i < |us| && us[i].start == q }

  lemma StartsAppend(a: seq<Span>, b: seq<Span>, q: nat)
    ensures StartsAt(a + b, q) <==> StartsAt(a, q) || StartsAt(b, q)
  {
    if i :| 0 <= i < |a| && a[i].start == q { assert (a + b)[i].start == q; }
    if i :| 0 <= i < |b| && b[i].start == q { assert (a + b)[|a| + i].start == q; }
  }

  lemma StartsOutside(us: seq<Span>, lo: nat, hi: nat, q: nat)
    requires Tiles(us, lo, hi) && (q < lo || q >= hi)
    ensures !StartsAt(us, q)
  {
    forall i | 0 <= i < |us|
      ensures us[i].start != q
    {
      TilesStarts(us, lo, hi, i);
      TilesEnds(us, lo, hi, i);
    }
  }

  lemma ReplaceFirst(us: seq<Span>, s: Span, q: nat)
    requires us != [] && q != us[0].start && q != s.start
    ensures StartsAt(us[0 := s], q) <==> StartsAt(us, q)
  {
    var v := us[0 := s];
    if i :| 0 <= i < |us| && us[i].start == q { assert v[i].start == q; }
  }

  lemma AttachedStarts(childUnits: seq<Span>, cursor: nat, start: nat, source: seq<Byte>, maxSize: nat, q: nat)
    requires cursor <= start < q && start <= |source| && maxSize >= 1
    requires childUnits != [] && childUnits[0].start == start
    ensures StartsAt(Attached(childUnits, cursor, start, source, maxSize), q) <==> StartsAt(childUnits, q)
  {
    ReplaceFirst(childUnits, Span(cursor, childUnits[0].end), q);
    SplitTiles(source, cursor, start, maxSize);
    StartsOutside(SplitSpans(source, cursor, start, maxSize), cursor, start, q);
    StartsAppend(SplitSpans(source, cursor, start, maxSize), childUnits, q);
  }

  lemma ChildAdds(child: Node, source: seq<Byte>, maxSize: nat, cursor: nat)
    requires WellFormed(child) && cursor <= child.start < child.end <= |source| && maxSize >= 1
    ensures Tiles(Attached(StructuralSpans(child, source, maxSize), cursor, child.start, source, maxSize), cursor,
                  child.end)
  {
    StructuralTiles(child, source, maxSize);
    AttachedTiles(StructuralSpans(child, source, maxSize), cursor, child.start, child.end, source, maxSize);
  }

  lemma {:induction false} WalkAddsNone(parent: Node, cs: seq<Node>, source: seq<Byte>, maxSize: nat, cursor: nat,
                                        units: seq<Span>, q: nat)
    requires Below(cs, parent) && Ordered(parent, cs, cursor) && parent.end <= |source| && maxSize >= 1
    requires (forall i :: 0 <= i < |cs| ==> cs[i].start < cs[i].end) && q < cursor
    ensures StartsAt(WalkChildren(parent, cs, source, maxSize, cursor, units).0, q) <==> StartsAt(units, q)
    decreases |cs|
  {
    if cs != [] {
      var child := cs[0];
      var added := Attached(StructuralSpans(child, source, maxSize), cursor, child.start, source, maxSize);
      ChildAdds(child, source, maxSize, cursor);
      StartsOutside(added, cursor, child.end, q);
      StartsAppend(units, added, q);
      WalkAddsNone(parent, cs[1..], source, maxSize, child.end, units + added, q);
    }
  }

  lemma {:induction false} WalkStarts(parent: Node, cs: seq<Node>, source: seq<Byte>, maxSize: nat, cursor: nat,
                                      units: seq<Span>, k: nat, q: nat)
    requires Below(cs, parent) && Ordered(parent, cs, cursor) && parent.end <= |source| && maxSize >= 1
    requires (forall i :: 0 <= i < |cs| ==> cs[i].start < cs[i].end) && k < |cs|
    requires cs[k].start < q < cs[k].end && !StartsAt(units, q)
    ensures WellFormed(cs[k]) && cs[k].end <= |source|
    ensures StartsAt(WalkChildren(parent, cs, source, maxSize, cursor, units).0, q) <==>
            StartsAt(StructuralSpans(cs[k], source, maxSize), q)
    decreases |cs|
  {
    var child := cs[0];
    var childUnits := StructuralSpans(child, source, maxSize);
    var added := Attached(childUnits, cursor, child.start, source, maxSize);
    StartsAppend(units, added, q);
    if k == 0 {
      FirstUnit(child, source, maxSize);
      AttachedStarts(childUnits, cursor, child.start, source, maxSize, q);
      WalkAddsNone(parent, cs[1..], source, maxSize, child.end, units + added, q);
    } else {
      OrderedAt(parent, cs[1..], child.end, k - 1);
      ChildAdds(child, source, maxSize, cursor);
      StartsOutside(added, cursor, child.end, q);
      WalkStarts(parent, cs[1..], source, maxSize, child.end, units + added, k - 1, q);
    }
  }

  lemma CloseTailStarts(us: seq<Span>, source: seq<Byte>, maxSize: nat, cursor: nat, end: nat, q: nat)
    requires us != [] && cursor <= end <= |source| && maxSize >= 1 && q < cursor
    ensures StartsAt(CloseTail(us, cursor, end, source, maxSize), q) <==> StartsAt(us, q)
  {
    var last := |us| - 1;
    var v := us[last := Span(us[last].start, end)];
    if i :| 0 <= i < |us| && us[i].start == q { assert v[i].start == q; }
    SplitTiles(source, cursor, end, maxSize);
    StartsOutside(SplitSpans(source, cursor, end, maxSize), cursor, end, q);
    StartsAppend(us, SplitSpans(source, cursor, end, maxSize), q);
  }

  /** Inside a child the units of the node are cut exactly where the child's own units are. */
  lemma ChildCutsKept(node: Node, kept: seq<Node>, source: seq<Byte>, maxSize: nat, k: nat, q: nat)
    requires WellFormed(node) && node.end <= |source| && maxSize >= 1 && Divides(node, kept, maxSize) && k < |kept|
    requires kept[k].start < q < kept[k].end
    ensures WellFormed(kept[k]) && kept[k].end <= |source|
    ensures StartsAt(StructuralSpans(node, source, maxSize), q) <==>
            StartsAt(StructuralSpans(kept[k], source, maxSize), q)
  {
    DividesWalk(node, kept, source, maxSize);
    WalkStarts(node, kept, source, maxSize, node.start, [], k, q);
    WalkEnds(node, kept, source, maxSize, node.start, []);
    OrderedUpTo(node, kept, node.start, k);
    var (us, cursor) := WalkChildren(node, kept, source, maxSize, node.start, []);
    CloseTailStarts(us, source, maxSize, cursor, node.end, q);
  }

  lemma {:induction false} OrderedUpTo(parent: Node, cs: seq<Node>, lo: nat, k: nat)
    requires Below(cs, parent) && Ordered(parent, cs, lo) && k < |cs|
    requires forall i :: 0 <= i < |cs| ==> cs[i].start < cs[i].end
    ensures cs[k].end <= cs[|cs| - 1].end
    decreases |cs|
  {
    var n := |cs| - 1;
    if k > 0 { OrderedUpTo(parent, cs[1..], cs[0].end, k - 1); }
    else if n > 0 { OrderedAt(parent, cs[1..], cs[0].end, n - 1); }
  }

  /** An oversized node that the splitter does not divide is cut at lines. */
  lemma UndividedAtLines(node: Node, source: seq<Byte>, maxSize: nat)
    requires WellFormed(node) && node.end <= |source| && node.end - node.start > maxSize
    requires Splittable(source) && maxSize >= 4 && Boundary(source, node.start) && Boundary(source, node.end)
    requires !Divides(node, Kept(node.children, node.start), maxSize)
    ensures OnBoundaries(source, StructuralSpans(node, source, maxSize))
    ensures GoodCuts(source, StructuralSpans(node, source, maxSize), node.end, maxSize)
  {
    KeptOrdered(node, node.children, node.start, node.start);
    SplitCuts(source, node.start, node.end, maxSize);
  }

  lemma PartDivides(node: Node, maxSize: nat, i: nat)
    requires WellFormed(node) && node.end - node.start > maxSize
    requires i < |node.children| && Part(node.children[i], node)
    ensures Divides(node, Kept(node.children, node.start), maxSize)
  {
    OrderedAt(node, node.children, node.start, i);
    assert node.children[i] in Kept(node.children, node.start);
  }

  lemma DividesPart(node: Node, maxSize: nat) returns (i: nat)
    requires WellFormed(node) && Divides(node, Kept(node.children, node.start), maxSize)
    ensures i < |node.children| && Part(node.children[i], node)
  {
    var kept := Kept(node.children, node.start);
    KeptOrdered(node, node.children, node.start, node.start);
    if |kept| > 1 { TwoKept(node, kept); }
    var first := kept[0];
    assert Part(first, node);
    i :| 0 <= i < |node.children| && node.children[i] == first;
  }

  /** The splitter divides exactly the oversized nodes with a non-empty named child of another range. */
  lemma DividesIff(node: Node, maxSize: nat)
    requires WellFormed(node)
    ensures Divides(node, Kept(node.children, node.start), maxSize) <==>
            node.end - node.start > maxSize &&
            exists i :: 0 <= i < |node.children| && Part(node.children[i], node)
  {
    if Divides(node, Kept(node.children, node.start), maxSize) {
      var i := DividesPart(node, maxSize);
    } else if node.end - node.start > maxSize {
      forall i | 0 <= i < |node.children|
        ensures !Part(node.children[i], node)
      {
        if Part(node.children[i], node) { PartDivides(node, maxSize, i); }
      }
    }
  }

  predicate Part(child: Node, node: Node)
  {
    child.start < child.end && (child.start, child.end) != (node.start, node.end)
  }

  lemma TwoKept(node: Node, kept: seq<Node>)
    requires Below(kept, node) && Ordered(node, kept, node.start) && |kept| > 1 && kept[1].start < kept[1].end
    ensures kept[0].end < node.end
  {
    OrderedAt(node, kept[1..], kept[0].end, 0);
  }
}
