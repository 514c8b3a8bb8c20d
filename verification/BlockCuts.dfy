/** Where the block scanners cut a file, told by the bracket counts, declarations and blank lines of
    its lines alone. */
module BlockCuts {
  import opened Utf8
  import opened Spans
  import opened LineSplitter
  import opened Merger
  import opened Lines
  import opened Blocks

  /** The text of line i. */
  ghost function TextOf(source: seq<Byte>, i: nat): seq<Byte>
    requires i < |LineStarts(source)|
  {
    StartsIncreasing(source, |source|);
    source[LineStarts(source)[i]..LineEnd(source, LineStarts(source), i)]
  }

  /** How many more brackets the lines j to i - 1 open than they close. */
  ghost function Surplus(c: Classifier, source: seq<Byte>, j: nat, i: nat): int
    requires j <= i <= |LineStarts(source)|
    decreases i
  {
    if j == i then 0
    else Surplus(c, source, j, i - 1) + c.opens(TextOf(source, i - 1)) - c.closes(TextOf(source, i - 1))
  }

  /** The bracket depth before line i: the largest surplus of a run of lines that ends there. */
  ghost predicate IsDepth(c: Classifier, source: seq<Byte>, i: nat, depth: int)
    requires i <= |LineStarts(source)|
  {
    && (exists j :: 0 <= j <= i && Surplus(c, source, j, i) == depth)
    && (forall j :: 0 <= j <= i ==> Surplus(c, source, j, i) <= depth)
  }

  /** Line i starts a block: it is outside brackets, and a declaration or behind a blank line. */
  ghost predicate CutBefore(c: Classifier, source: seq<Byte>, i: nat)
    requires 0 < i < |LineStarts(source)|
  {
    IsDepth(c, source, i, 0) && (c.isDeclaration(TextOf(source, i)) || c.isBlank(TextOf(source, i - 1)))
  }

  // ---------- The depth ----------

  lemma DepthNext(c: Classifier, source: seq<Byte>, i: nat, depth: nat)
    requires i < |LineStarts(source)| && IsDepth(c, source, i, depth)
    ensures IsDepth(c, source, i + 1, Nest(c, TextOf(source, i), depth))
  {
    var next := i + 1;
    var gain := c.opens(TextOf(source, i)) - c.closes(TextOf(source, i));
    forall j | 0 <= j <= i
      ensures Surplus(c, source, j, next) == Surplus(c, source, j, i) + gain
    {
    }
    assert Surplus(c, source, next, next) == 0;
    var j :| 0 <= j <= i && Surplus(c, source, j, i) == depth;
    assert Surplus(c, source, j, next) == depth + gain;
  }

  lemma {:induction false} ScanDepth(c: Classifier, source: seq<Byte>, i: nat)
    requires i <= |LineStarts(source)|
    ensures IsDepth(c, source, i, ScanLines(c, source, i).depth)
  {
    if i == 0 {
      assert Surplus(c, source, 0, 0) == 0;
    } else {
      ScanDepth(c, source, i - 1);
      DepthNext(c, source, i - 1, ScanLines(c, source, i - 1).depth);
    }
  }

  lemma DepthUnique(c: Classifier, source: seq<Byte>, i: nat, a: int, b: int)
    requires i <= |LineStarts(source)| && IsDepth(c, source, i, a) && IsDepth(c, source, i, b)
    ensures a == b
  {
  }

  // ---------- The cuts ----------

  /** A block of the scan, closed or open, starts at p. */
  ghost predicate Opened(s: Scan, p: nat)
  {
    p == s.blockStart || exists k :: 0 <= k < |s.blocks| && s.blocks[k].start == p
  }

  lemma OpenedPush(s: Scan, next: nat, depth: nat, p: nat)
    ensures Opened(Scan(s.blocks + [Span(s.blockStart, next)], next, depth), p) <==> Opened(s, p) || p == next
  {
    var t := Scan(s.blocks + [Span(s.blockStart, next)], next, depth);
    if k :| 0 <= k < |s.blocks| && s.blocks[k].start == p { assert t.blocks[k].start == p; }
    assert t.blocks[|s.blocks|].start == s.blockStart;
  }

  /** One line opens a block at its start if it is a declaration outside brackets, and one at its end
      if it is blank and leaves no bracket open. */
  lemma OpenedByLine(c: Classifier, source: seq<Byte>, s: Scan, start: nat, end: nat, p: nat)
    requires s.blockStart <= start <= end <= |source|
    ensures var text, after := source[start..end], ScanLine(c, source, s, start, end);
            Opened(after, p) <==>
            || Opened(s, p)
            || (p == start && s.depth == 0 && c.isDeclaration(text))
            || (p == end && after.depth == 0 && c.isBlank(text))
  {
    var text := source[start..end];
    var begun := BeginBlock(c, text, s, start);
    var nested := begun.(depth := Nest(c, text, begun.depth));
    OpenedPush(s, start, s.depth, p);
    OpenedPush(nested, end, nested.depth, p);
    assert Opened(nested, p) <==> Opened(begun, p);
  }

  lemma OpenedBefore(c: Classifier, source: seq<Byte>, i: nat, p: nat)
    requires i < |LineStarts(source)| && Opened(ScanLines(c, source, i), p)
    ensures p <= LineStarts(source)[i]
  {
    ScanTiles(c, source, i);
    var s := ScanLines(c, source, i);
    if k :| 0 <= k < |s.blocks| && s.blocks[k].start == p { TilesEnds(s.blocks, 0, s.blockStart, k); }
  }

  lemma LineBounds(source: seq<Byte>, i: nat)
    requires i < |LineStarts(source)|
    ensures LineStarts(source)[i] <= LineEnd(source, LineStarts(source), i) <= |source|
    ensures i + 1 < |LineStarts(source)| ==>
              LineEnd(source, LineStarts(source), i) == LineStarts(source)[i + 1] > LineStarts(source)[i]
    ensures i + 1 == |LineStarts(source)| ==> LineEnd(source, LineStarts(source), i) == |source|
  {
    StartsIncreasing(source, |source|);
  }

  /** After line i the scan has one more line: what it opens depends on that line alone. */
  lemma OpenedNext(c: Classifier, source: seq<Byte>, i: nat, p: nat)
    requires i < |LineStarts(source)|
    ensures var s, after := ScanLines(c, source, i), ScanLines(c, source, i + 1);
            Opened(after, p) <==>
            || Opened(s, p)
            || (p == LineStarts(source)[i] && s.depth == 0 && c.isDeclaration(TextOf(source, i)))
            || (p == LineEnd(source, LineStarts(source), i) && after.depth == 0 && c.isBlank(TextOf(source, i)))
  {
    ScanTiles(c, source, i);
    LineBounds(source, i);
    var starts := LineStarts(source);
    OpenedByLine(c, source, ScanLines(c, source, i), starts[i], LineEnd(source, starts, i), p);
  }

  /** Just before line i a block is open from its start exactly if the line before it ended one. */
  lemma OpenHere(c: Classifier, source: seq<Byte>, i: nat)
    requires 0 < i < |LineStarts(source)|
    ensures Opened(ScanLines(c, source, i), LineStarts(source)[i]) <==>
            ScanLines(c, source, i).depth == 0 && c.isBlank(TextOf(source, i - 1))
  {
    LineBounds(source, i - 1);
    OpenedNext(c, source, i - 1, LineStarts(source)[i]);
    if Opened(ScanLines(c, source, i - 1), LineStarts(source)[i]) {
      OpenedBefore(c, source, i - 1, LineStarts(source)[i]);
    }
  }

  lemma DepthZero(c: Classifier, source: seq<Byte>, i: nat)
    requires i <= |LineStarts(source)|
    ensures IsDepth(c, source, i, 0) <==> ScanLines(c, source, i).depth == 0
  {
    ScanDepth(c, source, i);
    if IsDepth(c, source, i, 0) { DepthUnique(c, source, i, 0, ScanLines(c, source, i).depth); }
  }

  /** Later lines do not change whether a block starts at line m. */
  lemma {:induction false} OpenedAt(c: Classifier, source: seq<Byte>, m: nat, i: nat)
    requires 0 < m < i <= |LineStarts(source)| && LineStarts(source)[m] < |source|
    ensures Opened(ScanLines(c, source, i), LineStarts(source)[m]) <==> CutBefore(c, source, m)
    decreases i
  {
    var p, n := LineStarts(source)[m], i - 1;
    StartsIncreasing(source, |source|);
    LineBounds(source, n);
    OpenedNext(c, source, n, p);
    if m == n {
      OpenHere(c, source, m);
      DepthZero(c, source, m);
    } else {
      OpenedAt(c, source, m, n);
    }
  }

  /** A line inside the file starts a block if and only if no bracket is open before it, and it is a
      declaration or the line before it is blank. */
  lemma BlockStartsIff(c: Classifier, source: seq<Byte>, i: nat)
    requires 0 < i < |LineStarts(source)| && LineStarts(source)[i] < |source|
    ensures (exists k :: 0 <= k < |BlocksOf(c, source)| && BlocksOf(c, source)[k].start == LineStarts(source)[i]) <==>
            CutBefore(c, source, i)
  {
    var n, p := |LineStarts(source)|, LineStarts(source)[i];
    var s, blocks := ScanLines(c, source, n), BlocksOf(c, source);
    OpenedAt(c, source, i, n);
    if k :| 0 <= k < |s.blocks| && s.blocks[k].start == p { assert blocks[k].start == p; }
    if p == s.blockStart { assert blocks[|s.blocks|].start == p; }
  }

  /** Without brackets and declarations: exactly behind blank lines. */
  lemma ParagraphStartsIff(isBlank: seq<Byte> -> bool, source: seq<Byte>, i: nat)
    requires 0 < i < |LineStarts(source)| && LineStarts(source)[i] < |source|
    ensures var blocks := BlocksOf(PlainText(isBlank), source);
            (exists k :: 0 <= k < |blocks| && blocks[k].start == LineStarts(source)[i]) <==>
              isBlank(TextOf(source, i - 1))
  {
    BlockStartsIff(PlainText(isBlank), source, i);
    NoBrackets(isBlank, source, i);
  }

  lemma {:induction false} NoBrackets(isBlank: seq<Byte> -> bool, source: seq<Byte>, i: nat)
    requires i <= |LineStarts(source)|
    ensures IsDepth(PlainText(isBlank), source, i, 0)
  {
    if i == 0 {
      assert Surplus(PlainText(isBlank), source, 0, 0) == 0;
    } else {
      NoBrackets(isBlank, source, i - 1);
      DepthNext(PlainText(isBlank), source, i - 1, 0);
    }
  }

  // ---------- What stays together ----------

  /** Every proper prefix of the lines a to b - 1 leaves a bracket open. */
  ghost predicate Bracketed(c: Classifier, source: seq<Byte>, a: nat, b: nat)
    requires a < b <= |LineStarts(source)|
  {
    forall i :: a < i < b ==> Surplus(c, source, a, i) > 0
  }

  /** No block starts inside such a run of lines. */
  lemma BracketedUncut(c: Classifier, source: seq<Byte>, a: nat, b: nat, i: nat)
    requires a < i < b <= |LineStarts(source)| && Bracketed(c, source, a, b)
    ensures !CutBefore(c, source, i)
  {
    assert Surplus(c, source, a, i) > 0;
  }

  lemma LineStartIndex(source: seq<Byte>, p: nat) returns (i: nat)
    requires p in LineStarts(source)
    ensures i < |LineStarts(source)| && LineStarts(source)[i] == p
  {
    i :| 0 <= i < |LineStarts(source)| && LineStarts(source)[i] == p;
  }

  /** So it lies whole inside one block, and in one unit if that block fits. */
  lemma BracketedWhole(c: Classifier, source: seq<Byte>, a: nat, b: nat)
    requires a < b <= |LineStarts(source)| && Bracketed(c, source, a, b)
    requires LineStarts(source)[a] < |source|
    ensures Covered(BlocksOf(c, source), Span(LineStarts(source)[a], LineEnd(source, LineStarts(source), b - 1)))
  {
    var starts, blocks := LineStarts(source), BlocksOf(c, source);
    var lo, hi := starts[a], LineEnd(source, starts, b - 1);
    BlocksTile(c, source);
    LineBounds(source, b - 1);
    var k := TileAt(blocks, 0, |source|, lo);
    if blocks[k].end < hi {
      TilesEnds(blocks, 0, |source|, k);
      assert LineCut(source, blocks[k].end);
      NextStarts(blocks, |source|, k);
      var i := LineStartIndex(source, blocks[k].end);
      LinesBetween(source, a, b, i);
      BlockStartsHere(c, source, k + 1, i);
      BracketedUncut(c, source, a, b, i);
    }
  }

  lemma BlockStartsHere(c: Classifier, source: seq<Byte>, k: nat, i: nat)
    requires 0 < i < |LineStarts(source)| && LineStarts(source)[i] < |source|
    requires k < |BlocksOf(c, source)| && BlocksOf(c, source)[k].start == LineStarts(source)[i]
    ensures CutBefore(c, source, i)
  {
    BlockStartsIff(c, source, i);
  }

  lemma NextStarts(us: seq<Span>, hi: nat, k: nat)
    requires Tiles(us, 0, hi) && k < |us| && us[k].end < hi
    ensures k + 1 < |us| && us[k + 1].start == us[k].end
  {
  }

  lemma LinesBetween(source: seq<Byte>, a: nat, b: nat, i: nat)
    requires a < b <= |LineStarts(source)| && i < |LineStarts(source)|
    requires LineStarts(source)[a] < LineStarts(source)[i] < LineEnd(source, LineStarts(source), b - 1)
    ensures a < i < b
  {
    StartsIncreasing(source, |source|);
    LineBounds(source, b - 1);
  }

  // ---------- The cuts of the units ----------

  lemma {:induction false} FlattenFrom(parts: seq<seq<Span>>, s: Span) returns (k: nat)
    requires s in Flatten(parts)
    ensures k < |parts| && s in parts[k]
    decreases |parts|
  {
    var n := |parts| - 1;
    InAppend(Flatten(parts[..n]), parts[n], s);
    if s in parts[n] { k := n; } else { k := FlattenFrom(parts[..n], s); }
  }

  /** A line piece of the block ends at p. */
  ghost predicate PieceEnds(source: seq<Byte>, block: Span, maxSize: nat, p: nat)
    requires block.start <= block.end <= |source| && maxSize >= 1
  {
    exists j :: 0 <= j < |SplitSpans(source, block.start, block.end, maxSize)| &&
                SplitSpans(source, block.start, block.end, maxSize)[j].end == p
  }

  /** Every unit ends with a block, or inside one that does not fit, with one of its line pieces. */
  lemma UnitEnds(c: Classifier, source: seq<Byte>, maxSize: nat, u: nat) returns (k: nat)
    requires maxSize >= 1 && u < |BlockUnits(c, source, maxSize)|
    ensures k < |BlocksOf(c, source)|
    ensures var block, p := BlocksOf(c, source)[k], BlockUnits(c, source, maxSize)[u].end;
            block.start < block.end <= |source| &&
            (p == block.end || (Size(block) > maxSize && PieceEnds(source, block, maxSize, p)))
  {
    var blocks := BlocksOf(c, source);
    var s := MergedEnd(c, source, maxSize, u);
    k := FlattenFrom(Parts(source, blocks, maxSize), s);
    BlocksTile(c, source);
    TilesEnds(blocks, 0, |source|, k);
    var j :| 0 <= j < |SplitBlock(source, blocks[k], maxSize)| && SplitBlock(source, blocks[k], maxSize)[j] == s;
  }

  lemma MergedEnd(c: Classifier, source: seq<Byte>, maxSize: nat, u: nat) returns (s: Span)
    requires maxSize >= 1 && u < |BlockUnits(c, source, maxSize)|
    ensures s in SplitBlocks(source, BlocksOf(c, source), maxSize) && s.end == BlockUnits(c, source, maxSize)[u].end
  {
    var pieces := BlockPieces(c, source, maxSize);
    MergeTiles(pieces, 0, |source|, maxSize);
    var m :| 0 <= m < |pieces| && pieces[m].end == BlockUnits(c, source, maxSize)[u].end;
    s := pieces[m];
  }
}
