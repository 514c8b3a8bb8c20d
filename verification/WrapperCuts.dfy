/** The other half of "a node that fits stays whole": when the check on the tree fails, there is a
    plain ASCII source for which a named node that fits is cut in two. */
module WrapperCuts {
  import opened Utf8
  import opened Spans
  import opened LineSplitter
  import opened Structural
  import opened StructuralProofs

  /** Two neighbouring units meet at q and do not fit together, so no later merge removes the cut. */
  ghost predicate HardCut(us: seq<Span>, q: nat, maxSize: nat)
  {
    exists j :: HardCutBefore(us, j, q, maxSize)
  }

  predicate HardCutBefore(us: seq<Span>, j: int, q: nat, maxSize: nat)
  {
    1 <= j < |us| && us[j - 1].end == q == us[j].start && us[j].end - us[j - 1].start > maxSize
  }

  predicate Striped(q: int, p: int, maxSize: nat)
    requires maxSize >= 1
  {
    (q - 1 - p) % maxSize == 0
  }

  /** A source of letters with a newline before q and before every position a multiple of maxSize away. */
  function Stripes(len: nat, q: nat, maxSize: nat): (source: seq<Byte>)
    requires maxSize >= 1
    ensures |source| == len
    ensures forall p :: 0 <= p < len ==> source[p] == if Striped(q, p, maxSize) then NEWLINE else 0x61
  {
    seq(len, p => if Striped(q, p, maxSize) then NEWLINE else 0x61)
  }

  lemma StripesSplittable(len: nat, q: nat, maxSize: nat)
    requires maxSize >= 1
    ensures Splittable(Stripes(len, q, maxSize))
  {
    var source := Stripes(len, q, maxSize);
    forall p | 0 <= p <= len ensures Boundary(source, p) {}
    forall p | 3 <= p < len ensures NearBoundary(source, p) {
      assert Boundary(source, p);
    }
  }

  lemma AtLeastOnce(m: int, d: int)
    requires m >= 1
    ensures d > 0 ==> m * d >= m
    ensures d < 0 ==> m * d <= -m
  {
  }

  lemma RemainderUnique(a: int, m: int, k: int, r: int)
    requires m >= 1 && a == m * k + r && 0 <= r < m
    ensures a % m == r && a / m == k
  {
    var d := k - a / m;
    assert m * d == m * k - m * (a / m);
    assert m * d == a % m - r;
    AtLeastOnce(m, d);
  }

  /** The stripe inside the first maxSize bytes from the cursor. */
  lemma StripeInWindow(q: int, cursor: int, m: nat) returns (p: int)
    requires m >= 1
    ensures cursor <= p < cursor + m && Striped(q, p, m)
    ensures cursor < q <= cursor + m ==> p == q - 1
    ensures cursor + m < q ==> q - 1 - p >= m
  {
    var a := q - 1 - cursor;
    p := cursor + a % m;
    var k := a / m;
    assert q - 1 - p == m * k;
    RemainderUnique(q - 1 - p, m, k, 0);
    if cursor < q <= cursor + m { RemainderUnique(a, m, 0, a); }
    AtLeastOnce(m, k);
  }

  lemma OneStripePerWindow(q: int, p: int, r: int, m: nat)
    requires m >= 1 && Striped(q, p, m) && p < r < p + m
    ensures !Striped(q, r, m)
  {
    var k := (q - 1 - p) / m;
    var s := r - p;
    assert q - 1 - p == m * k;
    assert m * (k - 1) == m * k - m;
    RemainderUnique(q - 1 - r, m, k - 1, m - s);
  }

  lemma StripeCut(len: nat, q: nat, maxSize: nat, cursor: nat, end: nat) returns (p: nat)
    requires maxSize >= 1 && cursor + maxSize < end <= len
    ensures CutPoint(Stripes(len, q, maxSize), cursor, end, maxSize) == p + 1
    ensures cursor <= p < cursor + maxSize
    ensures cursor < q <= cursor + maxSize ==> p + 1 == q
    ensures cursor + maxSize < q ==> p + 1 + maxSize <= q
  {
    var source := Stripes(len, q, maxSize);
    var r := StripeInWindow(q, cursor, maxSize);
    p := r;
    assert source[p] == NEWLINE;
    var newline := LastNewline(source, cursor + maxSize - 1);
    if newline > p { OneStripePerWindow(q, p, newline, maxSize); }
    assert !IsContinuation(source[p + 1]);
  }

  /** Where the first piece of a range is cut: at q as soon as q is in reach, a whole piece ahead
      of it before that, and a full piece behind it. */
  predicate CutRight(source: seq<Byte>, q: nat, maxSize: nat, cursor: nat, end: nat)
    requires maxSize >= 1 && cursor + maxSize < end <= |source|
  {
    var cut := CutPoint(source, cursor, end, maxSize);
    && cursor < cut <= cursor + maxSize
    && (cursor < q <= cursor + maxSize ==> cut == q)
    && (cursor + maxSize < q ==> cut + maxSize <= q)
    && (cursor == q ==> cut == q + maxSize)
  }

  ghost predicate CutsRight(source: seq<Byte>, q: nat, maxSize: nat)
    requires maxSize >= 1
  {
    forall cursor: nat, end: nat :: cursor + maxSize < end <= |source| ==> CutRight(source, q, maxSize, cursor, end)
  }

  lemma StripesCutRight(len: nat, q: nat, maxSize: nat)
    requires maxSize >= 1
    ensures CutsRight(Stripes(len, q, maxSize), q, maxSize)
  {
    var source := Stripes(len, q, maxSize);
    forall cursor: nat, end: nat | cursor + maxSize < end <= |source|
      ensures CutRight(source, q, maxSize, cursor, end)
    {
      var p := StripeCut(len, q, maxSize, cursor, end);
      if cursor == q {
        StripesShift(len, q, maxSize);
        var r := StripeCut(len, q + maxSize, maxSize, cursor, end);
      }
    }
  }

  /** Splitting an oversized range with such cuts cuts at q for good. */
  lemma {:induction false} SplitHard(source: seq<Byte>, q: nat, maxSize: nat, cursor: nat, end: nat)
    requires maxSize >= 1 && CutsRight(source, q, maxSize)
    requires cursor < q < end <= |source| && cursor + maxSize < end
    ensures HardCut(SplitSpans(source, cursor, end, maxSize), q, maxSize)
    decreases end - cursor
  {
    assert CutRight(source, q, maxSize, cursor, end);
    var cut := CutPoint(source, cursor, end, maxSize);
    var rest := SplitSpans(source, cut, end, maxSize);
    if q <= cursor + maxSize {
      assert q + maxSize < end ==> CutRight(source, q, maxSize, q, end);
      HardCutFront(cursor, rest, q, maxSize);
    } else {
      SplitHard(source, q, maxSize, cut, end);
      HardCutPreceded([Span(cursor, cut)], rest, q, maxSize);
    }
  }

  lemma HardCutFront(cursor: nat, rest: seq<Span>, q: nat, maxSize: nat)
    requires cursor < q && rest != [] && rest[0].start == q && rest[0].end > cursor + maxSize
    ensures HardCut([Span(cursor, q)] + rest, q, maxSize)
  {
    var us := [Span(cursor, q)] + rest;
    assert HardCutBefore(us, 1, q, maxSize);
  }

  lemma StripesShift(len: nat, q: nat, maxSize: nat)
    requires maxSize >= 1
    ensures Stripes(len, q + maxSize, maxSize) == Stripes(len, q, maxSize)
  {
    forall p | 0 <= p < len
      ensures Striped(q + maxSize, p, maxSize) == Striped(q, p, maxSize)
    {
      StripedShift(q, p, maxSize);
    }
  }

  lemma StripedShift(q: int, p: int, m: nat)
    requires m >= 1
    ensures Striped(q + m, p, m) == Striped(q, p, m)
  {
    var a := q - 1 - p;
    assert a + m == m * (a / m + 1) + a % m;
    RemainderUnique(a + m, m, a / m + 1, a % m);
  }

  lemma HardCutKept(before: seq<Span>, us: seq<Span>, after: seq<Span>, q: nat, maxSize: nat)
    requires HardCut(us, q, maxSize)
    ensures HardCut(before + us + after, q, maxSize)
  {
    var j :| HardCutBefore(us, j, q, maxSize);
    var all, n := before + us + after, |before| + j;
    assert all[n - 1] == us[j - 1] && all[n] == us[j];
    assert HardCutBefore(all, n, q, maxSize);
  }

  /** Stretching the outer units outwards keeps the cut. */
  lemma HardCutStretched(us: seq<Span>, k: nat, s: Span, q: nat, maxSize: nat)
    requires HardCut(us, q, maxSize) && k < |us|
    requires (k == 0 && s.start <= us[0].start && s.end == us[0].end) ||
             (k == |us| - 1 && s.start == us[k].start && s.end >= us[k].end)
    ensures HardCut(us[k := s], q, maxSize)
  {
    var j :| HardCutBefore(us, j, q, maxSize);
    assert HardCutBefore(us[k := s], j, q, maxSize);
  }

  lemma {:induction false} WalkKeepsHardCut(parent: Node, cs: seq<Node>, source: seq<Byte>, maxSize: nat, cursor: nat,
                                            units: seq<Span>, q: nat)
    requires Below(cs, parent) && Ordered(parent, cs, cursor) && parent.end <= |source| && maxSize >= 1
    requires HardCut(units, q, maxSize)
    ensures HardCut(WalkChildren(parent, cs, source, maxSize, cursor, units).0, q, maxSize)
    decreases |cs|
  {
    if cs != [] {
      var child := cs[0];
      var added := Attached(StructuralSpans(child, source, maxSize), cursor, child.start, source, maxSize);
      HardCutFollowed(units, added, q, maxSize);
      WalkKeepsHardCut(parent, cs[1..], source, maxSize, Max(cursor, child.end), units + added, q);
    }
  }

  lemma AttachedHardCut(childUnits: seq<Span>, cursor: nat, childStart: nat, source: seq<Byte>, maxSize: nat, q: nat)
    requires childStart <= |source| && maxSize >= 1
    requires HardCut(childUnits, q, maxSize) && childUnits[0].start == childStart
    ensures HardCut(Attached(childUnits, cursor, childStart, source, maxSize), q, maxSize)
  {
    if childStart > cursor {
      if childUnits[0].end - cursor <= maxSize {
        HardCutStretched(childUnits, 0, Span(cursor, childUnits[0].end), q, maxSize);
      } else {
        HardCutPreceded(SplitSpans(source, cursor, childStart, maxSize), childUnits, q, maxSize);
      }
    }
  }

  lemma {:induction false} WalkHardCut(parent: Node, cs: seq<Node>, source: seq<Byte>, maxSize: nat, cursor: nat,
                                       units: seq<Span>, k: nat, q: nat)
    requires Below(cs, parent) && Ordered(parent, cs, cursor) && parent.end <= |source| && maxSize >= 1
    requires forall i :: 0 <= i < |cs| ==> cs[i].start < cs[i].end
    requires k < |cs| && WellFormed(cs[k]) && cs[k].end <= |source| &&
             HardCut(StructuralSpans(cs[k], source, maxSize), q, maxSize)
    ensures HardCut(WalkChildren(parent, cs, source, maxSize, cursor, units).0, q, maxSize)
    decreases |cs|
  {
    var child := cs[0];
    var childUnits := StructuralSpans(child, source, maxSize);
    var added := Attached(childUnits, cursor, child.start, source, maxSize);
    if k == 0 {
      StructuralTiles(child, source, maxSize);
      AttachedHardCut(childUnits, cursor, child.start, source, maxSize, q);
      HardCutPreceded(units, added, q, maxSize);
      WalkKeepsHardCut(parent, cs[1..], source, maxSize, Max(cursor, child.end), units + added, q);
    } else {
      WalkHardCut(parent, cs[1..], source, maxSize, Max(cursor, child.end), units + added, k - 1, q);
    }
  }

  /** Stripes placed to hit the node d cut it in two for good when `node` is split. */
  ghost predicate CutApart(node: Node, len: nat, maxSize: nat, d: Node)
    requires WellFormed(node) && node.end <= len && maxSize >= 1
  {
    HardCut(StructuralSpans(node, Stripes(len, d.start + 1, maxSize), maxSize), d.start + 1, maxSize)
  }

  lemma WrapperHardCut(node: Node, len: nat, maxSize: nat) returns (d: Node)
    requires WellFormed(node) && node.end <= len && maxSize >= 1 && node.end - node.start > maxSize
    requires SameExtent(node, Kept(node.children, node.start)) && HasCuttable(node, maxSize)
    ensures Within(d, node) && 2 <= d.end - d.start <= maxSize
    ensures CutApart(node, len, maxSize, d)
  {
    d := CuttableWitness(node, maxSize);
    WithinBounds(d, node);
    StripesCutRight(len, d.start + 1, maxSize);
    WrapperCutAt(node, Stripes(len, d.start + 1, maxSize), maxSize, d.start + 1);
  }

  lemma WrapperCutAt(node: Node, source: seq<Byte>, maxSize: nat, q: nat)
    requires WellFormed(node) && node.end <= |source| && maxSize >= 1 && node.end - node.start > maxSize
    requires SameExtent(node, Kept(node.children, node.start))
    requires CutsRight(source, q, maxSize) && node.start < q < node.end
    ensures HardCut(StructuralSpans(node, source, maxSize), q, maxSize)
  {
    KeptOrdered(node, node.children, node.start, node.start);
    SplitHard(source, q, maxSize, node.start, node.end);
  }

  lemma WithinChild(d: Node, child: Node, node: Node)
    requires child in node.children && Within(d, child)
    ensures Within(d, node)
  {
    var i :| 0 <= i < |node.children| && node.children[i] == child;
    assert Within(d, node.children[i]);
  }

  /** A tree that is not intact has a named node that fits and, on stripes placed to hit it, is cut
      in two for good. */
  lemma {:induction false} NotIntactCut(node: Node, len: nat, maxSize: nat) returns (d: Node)
    requires WellFormed(node) && node.start < node.end <= len && maxSize >= 1 && !Intact(node, maxSize)
    ensures Within(d, node) && 2 <= d.end - d.start <= maxSize
    ensures CutApart(node, len, maxSize, d)
    decreases node
  {
    var kept := Kept(node.children, node.start);
    KeptOrdered(node, node.children, node.start, node.start);
    if SameExtent(node, kept) {
      d := WrapperHardCut(node, len, maxSize);
    } else {
      var k :| 0 <= k < |kept| && !Intact(kept[k], maxSize);
      OrderedAt(node, kept, node.start, k);
      d := NotIntactCut(kept[k], len, maxSize);
      WithinChild(d, kept[k], node);
      ChildCutApart(node, len, maxSize, k, d);
    }
  }

  lemma ChildCutApart(node: Node, len: nat, maxSize: nat, k: nat, d: Node)
    requires WellFormed(node) && node.end <= len && maxSize >= 1 && node.end - node.start > maxSize
    requires var kept := Kept(node.children, node.start);
             && !SameExtent(node, kept) && k < |kept| && WellFormed(kept[k]) && kept[k].end <= len
             && CutApart(kept[k], len, maxSize, d)
    ensures CutApart(node, len, maxSize, d)
  {
    ChildHardCut(node, Stripes(len, d.start + 1, maxSize), maxSize, k, d.start + 1);
  }

  /** A hard cut in the units of one kept child is one in the units of the node. */
  lemma ChildHardCut(node: Node, source: seq<Byte>, maxSize: nat, k: nat, q: nat)
    requires WellFormed(node) && node.end <= |source| && maxSize >= 1 && node.end - node.start > maxSize
    requires var kept := Kept(node.children, node.start);
             && !SameExtent(node, kept) && k < |kept|
             && WellFormed(kept[k]) && kept[k].end <= |source|
             && HardCut(StructuralSpans(kept[k], source, maxSize), q, maxSize)
    ensures HardCut(StructuralSpans(node, source, maxSize), q, maxSize)
  {
    var kept := Kept(node.children, node.start);
    KeptOrdered(node, node.children, node.start, node.start);
    WalkedHardCut(node, kept, source, maxSize, k, q);
    var walked := WalkChildren(node, kept, source, maxSize, node.start, []);
    CloseTailHardCut(walked.0, walked.1, node.end, source, maxSize, q);
    LargeSpans(node, source, maxSize);
  }

  lemma LargeSpans(node: Node, source: seq<Byte>, maxSize: nat)
    requires WellFormed(node) && node.end <= |source| && maxSize >= 1 && node.end - node.start > maxSize
    requires var kept := Kept(node.children, node.start);
             && kept != [] && !SameExtent(node, kept) && Below(kept, node) && Ordered(node, kept, node.start)
    ensures var walked := WalkChildren(node, Kept(node.children, node.start), source, maxSize, node.start, []);
            StructuralSpans(node, source, maxSize) == CloseTail(walked.0, walked.1, node.end, source, maxSize)
  {
  }

  lemma WalkedHardCut(node: Node, kept: seq<Node>, source: seq<Byte>, maxSize: nat, k: nat, q: nat)
    requires WellFormed(node) && node.end <= |source| && maxSize >= 1
    requires Below(kept, node) && Ordered(node, kept, node.start)
    requires forall i :: 0 <= i < |kept| ==> kept[i].start < kept[i].end
    requires k < |kept| && WellFormed(kept[k]) && kept[k].end <= |source|
    requires HardCut(StructuralSpans(kept[k], source, maxSize), q, maxSize)
    ensures var (units, cursor) := WalkChildren(node, kept, source, maxSize, node.start, []);
            HardCut(units, q, maxSize) && units[|units| - 1].end == cursor <= node.end
  {
    WalkTiles(node, kept, source, maxSize, node.start, []);
    WalkHardCut(node, kept, source, maxSize, node.start, [], k, q);
  }

  lemma CloseTailHardCut(units: seq<Span>, cursor: nat, end: nat, source: seq<Byte>, maxSize: nat, q: nat)
    requires cursor <= end <= |source| && maxSize >= 1
    requires HardCut(units, q, maxSize) && units[|units| - 1].end == cursor
    ensures HardCut(CloseTail(units, cursor, end, source, maxSize), q, maxSize)
  {
    var last := |units| - 1;
    if cursor < end {
      if end - units[last].start <= maxSize {
        HardCutStretched(units, last, Span(units[last].start, end), q, maxSize);
      } else {
        HardCutFollowed(units, SplitSpans(source, cursor, end, maxSize), q, maxSize);
      }
    }
  }

  lemma HardCutFollowed(us: seq<Span>, after: seq<Span>, q: nat, maxSize: nat)
    requires HardCut(us, q, maxSize)
    ensures HardCut(us + after, q, maxSize)
  {
    assert [] + us + after == us + after;
    HardCutKept([], us, after, q, maxSize);
  }

  lemma HardCutPreceded(before: seq<Span>, us: seq<Span>, q: nat, maxSize: nat)
    requires HardCut(us, q, maxSize)
    ensures HardCut(before + us, q, maxSize)
  {
    assert before + us + [] == before + us;
    HardCutKept(before, us, [], q, maxSize);
  }
}
