/** chunkWithTreeSitter: the bytes before the root, the root's units and the bytes after it, merged;
    and what that gives for the whole file. */
module FileChunks {
  import opened SeqFacts
  import opened Utf8
  import opened Spans
  import opened LineSplitter
  import opened Merger
  import opened Structural
  import opened StructuralProofs
  import opened WrapperCuts

  ghost function FileUnits(root: Node, source: seq<Byte>, maxSize: nat): seq<Span>
    requires WellFormed(root) && root.end <= |source| && maxSize >= 1
  {
    Before(root, source, maxSize) + StructuralSpans(root, source, maxSize) + After(root, source, maxSize)
  }

  function Before(root: Node, source: seq<Byte>, maxSize: nat): seq<Span>
    requires root.start <= |source| && maxSize >= 1
  {
    if root.start > 0 then SplitSpans(source, 0, root.start, maxSize) else []
  }

  function After(root: Node, source: seq<Byte>, maxSize: nat): seq<Span>
    requires root.end <= |source| && maxSize >= 1
  {
    if root.end < |source| then SplitSpans(source, root.end, |source|, maxSize) else []
  }

  ghost function FileSpans(root: Node, source: seq<Byte>, maxSize: nat): seq<Span>
    requires WellFormed(root) && root.end <= |source| && maxSize >= 1
  {
    MergeSpans(FileUnits(root, source, maxSize), maxSize)
  }

  method ChunkSpans(root: Node, source: seq<Byte>, maxSize: nat) returns (spans: SpanList)
    requires WellFormed(root) && root.end <= |source| && maxSize >= 1
    ensures spans.Valid() && fresh(spans.Repr)
    ensures spans.Contents == FileSpans(root, source, maxSize)
  {
    var rootUnits := StructuralUnits(root, source, maxSize);
    var units := new SpanList();
    if root.start > 0 { units := SplitAtLines(source, 0, root.start, maxSize); }
    units.PushAll(rootUnits);
    if root.end < |source| {
      var after := SplitAtLines(source, root.end, |source|, maxSize);
      units.PushAll(after);
    }
    assert units.Contents == FileUnits(root, source, maxSize);
    spans := MergeAdjacent(units, maxSize);
  }

  lemma {:induction false} NonEmptyAppend(a: seq<Span>, b: seq<Span>)
    ensures NonEmpty(a + b) == NonEmpty(a) + NonEmpty(b)
    decreases |b|
  {
    if b == [] {
      assert a + b == a;
    } else {
      var n := |b| - 1;
      NonEmptyAppend(a, b[..n]);
      assert (a + b)[..|a + b| - 1] == a + b[..n];
      AppendAssociative(NonEmpty(a), NonEmpty(b[..n]), if b[n].end <= b[n].start then [] else [b[n]]);
    }
  }

  lemma {:induction false} NonEmptyTiles(us: seq<Span>, lo: int, hi: int)
    requires Tiles(us, lo, hi)
    ensures NonEmpty(us) == us
    decreases |us|
  {
    if us != [] {
      var n := |us| - 1;
      if n > 0 { TilesPrefix(us, lo, hi, n); NonEmptyTiles(us[..n], lo, us[n - 1].end); }
      assert us == us[..n] + [us[n]];
    }
  }

  /** The root's units without the empty one that an empty root gives. */
  ghost function RootUnits(root: Node, source: seq<Byte>, maxSize: nat): seq<Span>
    requires WellFormed(root) && root.end <= |source| && maxSize >= 1
  {
    if root.start < root.end then StructuralSpans(root, source, maxSize) else []
  }

  lemma RootUnitsTile(root: Node, source: seq<Byte>, maxSize: nat)
    requires WellFormed(root) && root.end <= |source| && maxSize >= 1
    ensures Tiles(RootUnits(root, source, maxSize), root.start, root.end) &&
            Fits(RootUnits(root, source, maxSize), maxSize)
    ensures NonEmpty(StructuralSpans(root, source, maxSize)) == RootUnits(root, source, maxSize)
  {
    var mid := StructuralSpans(root, source, maxSize);
    if root.start < root.end {
      StructuralTiles(root, source, maxSize);
      NonEmptyTiles(mid, root.start, root.end);
    } else {
      assert mid == [Extent(root)];
      assert NonEmpty(mid[..0]) == [];
    }
  }

  lemma OuterTiles(root: Node, source: seq<Byte>, maxSize: nat)
    requires WellFormed(root) && root.end <= |source| && maxSize >= 1
    ensures Tiles(Before(root, source, maxSize), 0, root.start) && Fits(Before(root, source, maxSize), maxSize)
    ensures Tiles(After(root, source, maxSize), root.end, |source|) && Fits(After(root, source, maxSize), maxSize)
    ensures NonEmpty(Before(root, source, maxSize)) == Before(root, source, maxSize)
    ensures NonEmpty(After(root, source, maxSize)) == After(root, source, maxSize)
  {
    SplitTiles(source, 0, root.start, maxSize);
    SplitTiles(source, root.end, |source|, maxSize);
    NonEmptyTiles(Before(root, source, maxSize), 0, root.start);
    NonEmptyTiles(After(root, source, maxSize), root.end, |source|);
  }

  /** The bytes outside the root are cut at lines. */
  lemma OuterAtLines(root: Node, source: seq<Byte>, maxSize: nat) returns (before: seq<Span>, after: seq<Span>)
    requires WellFormed(root) && root.end <= |source| && Splittable(source) && maxSize >= 4
    requires Boundary(source, root.start) && Boundary(source, root.end)
    ensures FileUnits(root, source, maxSize) == before + StructuralSpans(root, source, maxSize) + after
    ensures Tiles(before, 0, root.start) && Tiles(after, root.end, |source|)
    ensures GoodCuts(source, before, root.start, maxSize) && GoodCuts(source, after, |source|, maxSize)
  {
    before, after := Before(root, source, maxSize), After(root, source, maxSize);
    OuterTiles(root, source, maxSize);
    SplitCuts(source, 0, root.start, maxSize);
    SplitCuts(source, root.end, |source|, maxSize);
  }

  lemma NonEmptyFileUnits(root: Node, source: seq<Byte>, maxSize: nat)
    requires WellFormed(root) && root.end <= |source| && maxSize >= 1
    ensures NonEmpty(FileUnits(root, source, maxSize)) ==
            Before(root, source, maxSize) + RootUnits(root, source, maxSize) + After(root, source, maxSize)
  {
    var before, after := Before(root, source, maxSize), After(root, source, maxSize);
    var mid := StructuralSpans(root, source, maxSize);
    RootUnitsTile(root, source, maxSize);
    OuterTiles(root, source, maxSize);
    NonEmptyAppend(before, mid);
    NonEmptyAppend(before + mid, after);
  }

  lemma TilesAppendThree(a: seq<Span>, b: seq<Span>, c: seq<Span>, lo: int, m: int, n: int, hi: int, maxSize: int)
    requires Tiles(a, lo, m) && Tiles(b, m, n) && Tiles(c, n, hi)
    requires Fits(a, maxSize) && Fits(b, maxSize) && Fits(c, maxSize)
    ensures Tiles(a + b + c, lo, hi) && Fits(a + b + c, maxSize)
  {
    TilesAppend(a, b, lo, m, n);
    TilesAppend(a + b, c, lo, n, hi);
  }

  /** The non-empty units tile the file and fit; an empty root contributes nothing. */
  lemma FileUnitsTile(root: Node, source: seq<Byte>, maxSize: nat)
    requires WellFormed(root) && root.end <= |source| && maxSize >= 1
    ensures var units := NonEmpty(FileUnits(root, source, maxSize));
            Tiles(units, 0, |source|) && Fits(units, maxSize) &&
            FileSpans(root, source, maxSize) == MergeSpans(units, maxSize)
  {
    RootUnitsTile(root, source, maxSize);
    OuterTiles(root, source, maxSize);
    NonEmptyFileUnits(root, source, maxSize);
    TilesAppendThree(Before(root, source, maxSize), RootUnits(root, source, maxSize), After(root, source, maxSize),
                     0, root.start, root.end, |source|, maxSize);
    EmptyUnitsIgnored(FileUnits(root, source, maxSize), maxSize);
  }

  /** Every chunk is within the limit, and concatenating the chunks' bytes gives the file back. */
  lemma FileRebuilt(root: Node, source: seq<Byte>, maxSize: nat)
    requires WellFormed(root) && root.end <= |source| && maxSize >= 1
    ensures Tiles(FileSpans(root, source, maxSize), 0, |source|)
    ensures Fits(FileSpans(root, source, maxSize), maxSize)
    ensures forall i :: 0 <= i < |FileSpans(root, source, maxSize)| ==>
              FileSpans(root, source, maxSize)[i].start <= FileSpans(root, source, maxSize)[i].end <= |source|
    ensures Bytes(source, FileSpans(root, source, maxSize)) == source
  {
    FileUnitsTile(root, source, maxSize);
    MergeTiles(NonEmpty(FileUnits(root, source, maxSize)), 0, |source|, maxSize);
    TilesRebuild(source, FileSpans(root, source, maxSize), 0, |source|);
  }

  // ---------- Code points ----------

  /** Every node starts and ends between code points of the buffer. */
  ghost predicate Aligned(node: Node, source: seq<Byte>)
  {
    && Boundary(source, node.start) && Boundary(source, node.end)
    && (forall i :: 0 <= i < |node.children| ==> Aligned(node.children[i], source))
  }

  lemma {:induction false} StructuralAligned(node: Node, source: seq<Byte>, maxSize: nat)
    requires WellFormed(node) && node.start < node.end <= |source| && maxSize >= 4
    requires Splittable(source) && Aligned(node, source)
    ensures OnBoundaries(source, StructuralSpans(node, source, maxSize))
    decreases node, |node.children| + 1
  {
    if node.end - node.start > maxSize {
      var kept := Kept(node.children, node.start);
      KeptOrdered(node, node.children, node.start, node.start);
      if kept == [] || SameExtent(node, kept) {
        SplitCuts(source, node.start, node.end, maxSize);
      } else {
        WalkTiles(node, kept, source, maxSize, node.start, []);
        WalkAligned(node, kept, source, maxSize, node.start, []);
        var walked := WalkChildren(node, kept, source, maxSize, node.start, []);
        SplitCuts(source, walked.1, node.end, maxSize);
        OnBoundariesAppend(source, walked.0, SplitSpans(source, walked.1, node.end, maxSize));
      }
    }
  }

  lemma {:induction false} WalkAligned(parent: Node, cs: seq<Node>, source: seq<Byte>, maxSize: nat, cursor: nat,
                                       units: seq<Span>)
    requires Below(cs, parent) && Ordered(parent, cs, cursor) && parent.end <= |source| && maxSize >= 4
    requires forall i :: 0 <= i < |cs| ==> cs[i].start < cs[i].end && Aligned(cs[i], source)
    requires Splittable(source) && Boundary(source, cursor) && OnBoundaries(source, units)
    ensures OnBoundaries(source, WalkChildren(parent, cs, source, maxSize, cursor, units).0)
    ensures Boundary(source, WalkChildren(parent, cs, source, maxSize, cursor, units).1)
    decreases parent, |cs|
  {
    if cs != [] {
      var child := cs[0];
      var childUnits := StructuralSpans(child, source, maxSize);
      var added := Attached(childUnits, cursor, child.start, source, maxSize);
      StructuralAligned(child, source, maxSize);
      SplitCuts(source, cursor, child.start, maxSize);
      OnBoundariesAppend(source, SplitSpans(source, cursor, child.start, maxSize), childUnits);
      OnBoundariesAppend(source, units, added);
      WalkAligned(parent, cs[1..], source, maxSize, child.end, units + added);
    }
  }

  /** The chunks' texts concatenate to the file's text exactly when no chunk cut falls inside a code
      point, and grow by each cut that does. None does when node offsets lie between code points and
      the limit has room for any code point. */
  lemma FileText(root: Node, code: seq<Scalar>, maxSize: nat)
    requires WellFormed(root) && root.end <= |Encode(code)| && maxSize >= 1
    ensures var source, spans := Encode(code), FileSpans(root, Encode(code), maxSize);
            && (forall i :: 0 <= i < |spans| ==> spans[i].start <= spans[i].end <= |source|)
            && (Text(source, spans) == code <==> OnBoundaries(source, spans))
            && |Text(source, spans)| >= |code| + Torn(source, spans)
            && (Aligned(root, source) && maxSize >= 4 ==> OnBoundaries(source, spans))
  {
    var source, spans := Encode(code), FileSpans(root, Encode(code), maxSize);
    FileRebuilt(root, source, maxSize);
    EncodedSplittable(code);
    TextRebuild(code, spans);
    if Aligned(root, source) && maxSize >= 4 {
      FileUnitsTile(root, source, maxSize);
      FileUnitsAligned(root, source, maxSize);
      MergeOnBoundaries(source, NonEmpty(FileUnits(root, source, maxSize)), 0, |source|, maxSize);
    }
  }

  lemma FileUnitsAligned(root: Node, source: seq<Byte>, maxSize: nat)
    requires WellFormed(root) && root.end <= |source| && maxSize >= 4
    requires Splittable(source) && Aligned(root, source)
    ensures OnBoundaries(source, NonEmpty(FileUnits(root, source, maxSize)))
  {
    SplitCuts(source, 0, root.start, maxSize);
    SplitCuts(source, root.end, |source|, maxSize);
    if root.start < root.end { StructuralAligned(root, source, maxSize); }
    NonEmptyOnBoundaries(source, FileUnits(root, source, maxSize));
  }

  lemma {:induction false} NonEmptyOnBoundaries(source: seq<Byte>, us: seq<Span>)
    requires OnBoundaries(source, us)
    ensures OnBoundaries(source, NonEmpty(us))
  {
    if us != [] { NonEmptyOnBoundaries(source, us[..|us| - 1]); }
  }

  // ---------- Nodes that fit ----------

  /** Every named node that fits in the limit lies whole inside one chunk. */
  ghost predicate NodesStayWhole(root: Node, source: seq<Byte>, maxSize: nat)
    requires WellFormed(root) && root.end <= |source| && maxSize >= 1
  {
    forall d: Node :: Within(d, root) && d.end - d.start <= maxSize ==>
      Covered(FileSpans(root, source, maxSize), Extent(d))
  }

  lemma CoveredThrough(us: seq<Span>, vs: seq<Span>, s: Span)
    requires Covered(us, s) && forall i :: 0 <= i < |us| ==> Covered(vs, us[i])
    ensures Covered(vs, s)
  {
    var i :| 0 <= i < |us| && us[i].start <= s.start && s.end <= us[i].end;
    assert Covered(vs, us[i]);
  }

  lemma NonEmptyMember(us: seq<Span>, i: nat)
    requires i < |us| && us[i].start < us[i].end
    ensures us[i] in NonEmpty(us)
    decreases |us|
  {
    if i < |us| - 1 { NonEmptyMember(us[..|us| - 1], i); }
  }

  /** If the tree is intact, every named node that fits is whole in one chunk, whatever the text. */
  lemma IntactStaysWhole(root: Node, source: seq<Byte>, maxSize: nat)
    requires WellFormed(root) && root.end <= |source| && maxSize >= 1 && Intact(root, maxSize)
    requires |source| > 0
    ensures NodesStayWhole(root, source, maxSize)
  {
    var units := NonEmpty(FileUnits(root, source, maxSize));
    var spans := FileSpans(root, source, maxSize);
    FileRebuilt(root, source, maxSize);
    FileUnitsTile(root, source, maxSize);
    forall d: Node | Within(d, root) && d.end - d.start <= maxSize
      ensures Covered(spans, Extent(d))
    {
      WithinBounds(d, root);
      if d.end - d.start <= 1 {
        TinyCovered(spans, 0, |source|, Extent(d));
      } else {
        StructuralWhole(root, source, maxSize, d);
        StructuralTiles(root, source, maxSize);
        var us := StructuralSpans(root, source, maxSize);
        forall i | 0 <= i < |us|
          ensures Covered(spans, us[i])
        {
          assert us[i] in FileUnits(root, source, maxSize);
          var k :| 0 <= k < |FileUnits(root, source, maxSize)| && FileUnits(root, source, maxSize)[k] == us[i];
          NonEmptyMember(FileUnits(root, source, maxSize), k);
          var u :| 0 <= u < |units| && units[u] == us[i];
          UnitsStayWhole(units, 0, |source|, maxSize, u);
        }
        CoveredThrough(us, spans, Extent(d));
      }
    }
  }

  /** A hard cut of the units is a cut of the chunks: nothing across it stays whole. */
  lemma HardCutSurvives(units: seq<Span>, lo: nat, hi: nat, maxSize: nat, q: nat, s: Span)
    requires Tiles(units, lo, hi) && Fits(units, maxSize) && HardCut(units, q, maxSize)
    requires s.start < q < s.end
    ensures !Covered(MergeSpans(units, maxSize), s)
  {
    var merged := MergeSpans(units, maxSize);
    if Covered(merged, s) {
      var m :| 0 <= m < |merged| && merged[m].start <= s.start && s.end <= merged[m].end;
      var j :| HardCutBefore(units, j, q, maxSize);
      UnitInBlock(units, lo, hi, maxSize, j - 1, m, q - 1);
      UnitInBlock(units, lo, hi, maxSize, j, m, q);
      BlockFits(units, lo, hi, maxSize, m);
    }
  }

  lemma BlockFits(units: seq<Span>, lo: nat, hi: nat, maxSize: nat, m: nat)
    requires Tiles(units, lo, hi) && Fits(units, maxSize) && m < |MergeSpans(units, maxSize)|
    ensures Size(MergeSpans(units, maxSize)[m]) <= maxSize
  {
    MergeTiles(units, lo, hi, maxSize);
  }

  /** The block that holds one byte of a unit holds the whole unit. */
  lemma UnitInBlock(units: seq<Span>, lo: nat, hi: nat, maxSize: nat, u: nat, m: nat, p: int)
    requires Tiles(units, lo, hi) && Fits(units, maxSize) && u < |units| && units[u].start <= p < units[u].end
    requires m < |MergeSpans(units, maxSize)|
    requires MergeSpans(units, maxSize)[m].start <= p < MergeSpans(units, maxSize)[m].end
    ensures MergeSpans(units, maxSize)[m].start <= units[u].start && units[u].end <= MergeSpans(units, maxSize)[m].end
  {
    var merged := MergeSpans(units, maxSize);
    MergeTiles(units, lo, hi, maxSize);
    UnitsStayWhole(units, lo, hi, maxSize, u);
    var a :| 0 <= a < |merged| && merged[a].start <= units[u].start && units[u].end <= merged[a].end;
    SameTile(merged, lo, hi, a, m, p);
  }

  /** The documented promise that a node that fits stays whole holds for every text of the file's
      length exactly when the tree is intact; when it is not, even an ASCII text breaks it. */
  lemma NodesStayWholeIff(root: Node, len: nat, maxSize: nat)
    requires WellFormed(root) && root.end <= len && maxSize >= 1 && len > 0
    ensures Intact(root, maxSize) ==>
              forall source: seq<Byte> :: |source| == len ==> NodesStayWhole(root, source, maxSize)
    ensures !Intact(root, maxSize) ==>
              exists source: seq<Byte> :: |source| == len && Splittable(source) &&
                !NodesStayWhole(root, source, maxSize)
  {
    if Intact(root, maxSize) {
      forall source: seq<Byte> | |source| == len
        ensures NodesStayWhole(root, source, maxSize)
      {
        IntactStaysWhole(root, source, maxSize);
      }
    } else {
      var d := NotIntactCut(root, len, maxSize);
      var q := d.start + 1;
      var source := Stripes(len, q, maxSize);
      StripesSplittable(len, q, maxSize);
      StructuralTiles(root, source, maxSize);
      FileUnitsTile(root, source, maxSize);
      FileHardCut(root, source, maxSize, q);
      HardCutSurvives(NonEmpty(FileUnits(root, source, maxSize)), 0, len, maxSize, q, Extent(d));
    }
  }

  lemma FileHardCut(root: Node, source: seq<Byte>, maxSize: nat, q: nat)
    requires WellFormed(root) && root.start < root.end <= |source| && maxSize >= 1
    requires HardCut(StructuralSpans(root, source, maxSize), q, maxSize)
    ensures HardCut(NonEmpty(FileUnits(root, source, maxSize)), q, maxSize)
  {
    var before, after := Before(root, source, maxSize), After(root, source, maxSize);
    var mid := StructuralSpans(root, source, maxSize);
    StructuralTiles(root, source, maxSize);
    NonEmptyTiles(mid, root.start, root.end);
    NonEmptyAppend(before, mid);
    NonEmptyAppend(before + mid, after);
    HardCutKept(NonEmpty(before), mid, NonEmpty(after), q, maxSize);
  }

  /** The promise does fail: a ten-byte node whose only child repeats its range, holding two
      five-byte nodes. With a limit of six bytes and no newline the second of them is cut. */
  lemma WrapperExample()
    ensures var left, right := Node(0, 5, []), Node(5, 10, []);
            var root := Node(0, 10, [Node(0, 10, [left, right])]);
            var source: seq<Byte> := seq(10, i => 0x61);
            && WellFormed(root) && Within(right, root) && right.end - right.start <= 6
            && !Covered(FileSpans(root, source, 6), Extent(right))
  {
    var left, right := Node(0, 5, []), Node(5, 10, []);
    var inner := Node(0, 10, [left, right]);
    var root := Node(0, 10, [inner]);
    var source: seq<Byte> := seq(10, i => 0x61);
    assert [right][1..] == [] && [left, right][1..] == [right];
    assert WellFormed(left) && WellFormed(right);
    assert Ordered(inner, [], 10);
    assert Ordered(inner, [right], 5);
    assert WellFormed(inner);
    assert root.children[1..] == [];
    assert WellFormed(root);
    assert Within(right, inner.children[1]);
    assert Within(right, root.children[0]);
    assert Kept(root.children, 0) == [inner];
    SplitWithoutNewline();
    var units := [Span(0, 6), Span(6, 10)];
    assert FileUnits(root, source, 6) == units;
    assert MergeFirst(units, 1, 6) == [Span(0, 6)];
    assert MergeSpans(units, 6) == units;
  }

  lemma SplitWithoutNewline()
    ensures SplitSpans(seq(10, i => 0x61), 0, 10, 6) == [Span(0, 6), Span(6, 10)]
  {
    var source: seq<Byte> := seq(10, i => 0x61);
    assert LastNewline(source, 5) == -1;
    assert CutPoint(source, 0, 10, 6) == 6;
  }
}
