/** logicalUnits and plainTextUnits: group lines into blocks, split the blocks that are too large
    at lines, and merge neighbours that fit together. */
module Blocks {
  import opened Utf8
  import opened Spans
  import opened LineSplitter
  import opened Merger
  import opened Lines

  /** What the block scanner asks about a line's text; the patterns behind it are not modelled. */
  datatype Classifier = Classifier(
    isDeclaration: seq<Byte> -> bool,
    opens: seq<Byte> -> nat,
    closes: seq<Byte> -> nat,
    isBlank: seq<Byte> -> bool)

  /** The plain-text scanner knows no declarations and no brackets. */
  function PlainText(isBlank: seq<Byte> -> bool): Classifier
  {
    Classifier(_ => false, _ => 0, _ => 0, isBlank)
  }

  datatype Scan = Scan(blocks: seq<Span>, blockStart: nat, depth: nat)

  /** A declaration outside brackets opens a block. */
  function BeginBlock(c: Classifier, text: seq<Byte>, s: Scan, start: nat): Scan
  {
    if start > s.blockStart && s.depth <= 0 && c.isDeclaration(text) then
      Scan(s.blocks + [Span(s.blockStart, start)], start, s.depth)
    else s
  }

  function Nest(c: Classifier, text: seq<Byte>, depth: nat): (r: nat)
  {
    var balance: int := depth + c.opens(text) - c.closes(text);
    if balance < 0 then 0 else balance
  }

  /** A blank line outside brackets ends a block. */
  function EndBlock(c: Classifier, text: seq<Byte>, s: Scan, end: nat): Scan
  {
    if s.depth == 0 && c.isBlank(text) && end > s.blockStart then
      Scan(s.blocks + [Span(s.blockStart, end)], end, s.depth)
    else s
  }

  function ScanLine(c: Classifier, source: seq<Byte>, s: Scan, start: nat, end: nat): Scan
    requires start <= end <= |source|
  {
    var text := source[start..end];
    var begun := BeginBlock(c, text, s, start);
    EndBlock(c, text, begun.(depth := Nest(c, text, begun.depth)), end)
  }

  /** The lines before line i have been scanned. */
  ghost function ScanLines(c: Classifier, source: seq<Byte>, i: nat): Scan
    requires i <= |LineStarts(source)|
  {
    if i == 0 then Scan([], 0, 0)
    else
      var starts := LineStarts(source);
      StartsIncreasing(source, |source|);
      ScanLine(c, source, ScanLines(c, source, i - 1), starts[i - 1], LineEnd(source, starts, i - 1))
  }

  /** All blocks: those the scan closed and what is left at the end of the file. */
  ghost function BlocksOf(c: Classifier, source: seq<Byte>): seq<Span>
  {
    var s := ScanLines(c, source, |LineStarts(source)|);
    if s.blockStart < |source| then s.blocks + [Span(s.blockStart, |source|)] else s.blocks
  }

  function SplitBlock(source: seq<Byte>, block: Span, maxSize: nat): seq<Span>
    requires maxSize >= 1
  {
    if Size(block) > maxSize && block.end <= |source|
    then SplitSpans(source, block.start, block.end, maxSize)
    else [block]
  }

  function Flatten(parts: seq<seq<Span>>): seq<Span>
  {
    if parts == [] then [] else Flatten(parts[..|parts| - 1]) + parts[|parts| - 1]
  }

  function Parts(source: seq<Byte>, blocks: seq<Span>, maxSize: nat): (parts: seq<seq<Span>>)
    requires maxSize >= 1
    ensures |parts| == |blocks|
    ensures forall i :: 0 <= i < |parts| ==> parts[i] == SplitBlock(source, blocks[i], maxSize)
  {
    seq(|blocks|, i requires 0 <= i < |blocks| => SplitBlock(source, blocks[i], maxSize))
  }

  /** The blocks, those that are too large cut at lines. */
  function SplitBlocks(source: seq<Byte>, blocks: seq<Span>, maxSize: nat): seq<Span>
    requires maxSize >= 1
  {
    Flatten(Parts(source, blocks, maxSize))
  }

  ghost function BlockUnits(c: Classifier, source: seq<Byte>, maxSize: nat): seq<Span>
    requires maxSize >= 1
  {
    MergeSpans(SplitBlocks(source, BlocksOf(c, source), maxSize), maxSize)
  }

  method LogicalBlocks(c: Classifier, source: seq<Byte>) returns (blocks: SpanList)
    ensures blocks.Valid() && fresh(blocks.Repr)
    ensures blocks.Contents == BlocksOf(c, source)
  {
    var starts := ComputeLineStarts(source);
    StartsIncreasing(source, |source|);
    blocks := new SpanList();
    var blockStart: nat, depth: nat := 0, 0;
    for i := 0 to |starts|
      invariant blocks.Valid() && fresh(blocks.Repr)
      invariant Scan(blocks.Contents, blockStart, depth) == ScanLines(c, source, i)
    {
      ghost var before := Scan(blocks.Contents, blockStart, depth);
      var start, end := starts[i], LineEnd(source, starts, i);
      var text := source[start..end];
      var declaration := c.isDeclaration(text);
      if start > blockStart && depth <= 0 && declaration {
        blocks.Push(blockStart, start);
        blockStart := start;
      }
      depth := Nest(c, text, depth);
      if depth == 0 && c.isBlank(text) && end > blockStart {
        blocks.Push(blockStart, end);
        blockStart := end;
      }
      assert Scan(blocks.Contents, blockStart, depth) == ScanLine(c, source, before, start, end);
    }
    if blockStart < |source| { blocks.Push(blockStart, |source|); }
  }

  method PlainTextBlocks(isBlank: seq<Byte> -> bool, source: seq<Byte>) returns (blocks: SpanList)
    ensures blocks.Valid() && fresh(blocks.Repr)
    ensures blocks.Contents == BlocksOf(PlainText(isBlank), source)
  {
    var starts := ComputeLineStarts(source);
    StartsIncreasing(source, |source|);
    blocks := new SpanList();
    var blockStart: nat := 0;
    for i := 0 to |starts|
      invariant blocks.Valid() && fresh(blocks.Repr)
      invariant Scan(blocks.Contents, blockStart, 0) == ScanLines(PlainText(isBlank), source, i)
    {
      var end := LineEnd(source, starts, i);
      if isBlank(source[starts[i]..end]) && end > blockStart {
        blocks.Push(blockStart, end);
        blockStart := end;
      }
    }
    if blockStart < |source| { blocks.Push(blockStart, |source|); }
  }

  ghost predicate InRange(source: seq<Byte>, block: Span)
  {
    block.start <= block.end <= |source|
  }

  /** The pass that cuts the blocks that are too large, and the merge after it. */
  method UnitsOfBlocks(source: seq<Byte>, blocks: SpanList, maxSize: nat) returns (units: SpanList)
    requires blocks.Valid() && maxSize >= 1
    requires forall i :: 0 <= i < |blocks.Contents| ==> InRange(source, blocks.Contents[i])
    ensures units.Valid() && fresh(units.Repr)
    ensures units.Contents == MergeSpans(SplitBlocks(source, blocks.Contents, maxSize), maxSize)
  {
    var pieces := new SpanList();
    ghost var parts := Parts(source, blocks.Contents, maxSize);
    for i := 0 to blocks.Length()
      invariant pieces.Valid() && fresh(pieces.Repr)
      invariant pieces.Contents == Flatten(parts[..i])
    {
      PushPieces(source, blocks.At(i), maxSize, pieces);
      FlattenPush(parts, i);
    }
    assert parts[..|parts|] == parts;
    units := MergeAdjacent(pieces, maxSize);
  }

  lemma FlattenPush(parts: seq<seq<Span>>, i: nat)
    requires i < |parts|
    ensures Flatten(parts[..i + 1]) == Flatten(parts[..i]) + parts[i]
  {
    assert parts[..i + 1][..i] == parts[..i];
  }

  method PushPieces(source: seq<Byte>, block: Span, maxSize: nat, pieces: SpanList)
    requires pieces.Valid() && maxSize >= 1 && InRange(source, block)
    modifies pieces
    ensures pieces.Valid() && fresh(pieces.Repr - old(pieces.Repr))
    ensures pieces.Contents == old(pieces.Contents) + SplitBlock(source, block, maxSize)
  {
    if block.end - block.start > maxSize {
      var split := SplitAtLines(source, block.start, block.end, maxSize);
      pieces.PushAll(split);
    } else {
      pieces.Push(block.start, block.end);
    }
  }

  method LogicalUnits(c: Classifier, source: seq<Byte>, maxSize: nat) returns (units: SpanList)
    requires maxSize >= 1
    ensures units.Valid() && fresh(units.Repr)
    ensures units.Contents == BlockUnits(c, source, maxSize)
  {
    var blocks := LogicalBlocks(c, source);
    BlocksTile(c, source);
    TilesRebuild(source, BlocksOf(c, source), 0, |source|);
    units := UnitsOfBlocks(source, blocks, maxSize);
  }

  method PlainTextUnits(isBlank: seq<Byte> -> bool, source: seq<Byte>, maxSize: nat) returns (units: SpanList)
    requires maxSize >= 1
    ensures units.Valid() && fresh(units.Repr)
    ensures units.Contents == BlockUnits(PlainText(isBlank), source, maxSize)
  {
    var blocks := PlainTextBlocks(isBlank, source);
    BlocksTile(PlainText(isBlank), source);
    TilesRebuild(source, BlocksOf(PlainText(isBlank), source), 0, |source|);
    units := UnitsOfBlocks(source, blocks, maxSize);
  }

  // ---------- The blocks ----------

  lemma PushTile(us: seq<Span>, lo: int, mid: nat, hi: nat)
    requires Tiles(us, lo, mid) && mid < hi
    ensures Tiles(us + [Span(mid, hi)], lo, hi)
  {
  }

  /** A block ends at a line start or at the end of the file. */
  ghost predicate LineCut(source: seq<Byte>, p: int)
  {
    p == |source| || p in LineStarts(source)
  }

  ghost predicate LineCuts(source: seq<Byte>, us: seq<Span>)
  {
    forall k :: 0 <= k < |us| ==> LineCut(source, us[k].end)
  }

  lemma PushBlock(source: seq<Byte>, s: Scan, p: nat)
    requires Tiles(s.blocks, 0, s.blockStart) && LineCuts(source, s.blocks)
    requires s.blockStart < p && LineCut(source, p)
    ensures Tiles(s.blocks + [Span(s.blockStart, p)], 0, p) && LineCuts(source, s.blocks + [Span(s.blockStart, p)])
  {
    PushTile(s.blocks, 0, s.blockStart, p);
  }

  /** The blocks closed so far tile the file up to the open block, cut at line starts. */
  ghost predicate ScanSound(source: seq<Byte>, s: Scan)
  {
    Tiles(s.blocks, 0, s.blockStart) && LineCuts(source, s.blocks)
  }

  lemma BeginBlockSound(c: Classifier, text: seq<Byte>, source: seq<Byte>, s: Scan, start: nat)
    requires ScanSound(source, s) && LineCut(source, start) && s.blockStart <= start
    ensures ScanSound(source, BeginBlock(c, text, s, start)) && BeginBlock(c, text, s, start).blockStart <= start
  {
    if start > s.blockStart { PushBlock(source, s, start); }
  }

  lemma EndBlockSound(c: Classifier, text: seq<Byte>, source: seq<Byte>, s: Scan, end: nat)
    requires ScanSound(source, s) && LineCut(source, end) && s.blockStart <= end
    ensures ScanSound(source, EndBlock(c, text, s, end)) && EndBlock(c, text, s, end).blockStart <= end
  {
    if end > s.blockStart { PushBlock(source, s, end); }
  }

  lemma ScanLineSound(c: Classifier, source: seq<Byte>, s: Scan, start: nat, end: nat)
    requires ScanSound(source, s) && s.blockStart <= start <= end <= |source|
    requires LineCut(source, start) && LineCut(source, end)
    ensures ScanSound(source, ScanLine(c, source, s, start, end)) &&
            ScanLine(c, source, s, start, end).blockStart <= end
  {
    var text := source[start..end];
    BeginBlockSound(c, text, source, s, start);
    var begun := BeginBlock(c, text, s, start);
    EndBlockSound(c, text, source, begun.(depth := Nest(c, text, begun.depth)), end);
  }

  lemma {:induction false} ScanTiles(c: Classifier, source: seq<Byte>, i: nat)
    requires i <= |LineStarts(source)|
    ensures var s := ScanLines(c, source, i);
            && ScanSound(source, s)
            && s.blockStart <= (if i == |LineStarts(source)| then |source| else LineStarts(source)[i])
  {
    StartsIncreasing(source, |source|);
    if i > 0 {
      ScanTiles(c, source, i - 1);
      var starts := LineStarts(source);
      ScanLineSound(c, source, ScanLines(c, source, i - 1), starts[i - 1], LineEnd(source, starts, i - 1));
    }
  }

  /** The blocks tile the file, cut at line starts only. */
  lemma BlocksTile(c: Classifier, source: seq<Byte>)
    ensures Tiles(BlocksOf(c, source), 0, |source|)
    ensures LineCuts(source, BlocksOf(c, source))
  {
    var n := |LineStarts(source)|;
    ScanTiles(c, source, n);
    var s := ScanLines(c, source, n);
    if s.blockStart < |source| { PushBlock(source, s, |source|); }
  }

  // ---------- The units ----------

  lemma SplitBlockTiles(source: seq<Byte>, block: Span, maxSize: nat)
    requires block.start < block.end <= |source| && maxSize >= 1
    ensures Tiles(SplitBlock(source, block, maxSize), block.start, block.end) &&
            Fits(SplitBlock(source, block, maxSize), maxSize)
  {
    if Size(block) > maxSize { SplitTiles(source, block.start, block.end, maxSize); }
  }

  ghost predicate TilesBlock(part: seq<Span>, block: Span, maxSize: int)
  {
    Tiles(part, block.start, block.end) && Fits(part, maxSize)
  }

  lemma TilesJoin(a: seq<Span>, b: seq<Span>, lo: int, mid: int, hi: int, maxSize: int)
    requires Tiles(a, lo, mid) && Fits(a, maxSize) && Tiles(b, mid, hi) && Fits(b, maxSize)
    ensures Tiles(a + b, lo, hi) && Fits(a + b, maxSize)
  {
    TilesAppend(a, b, lo, mid, hi);
  }

  /** Flattening tilings of the blocks of a tiling gives a tiling. */
  lemma {:induction false} FlattenTiles(parts: seq<seq<Span>>, blocks: seq<Span>, lo: int, hi: int, maxSize: nat)
    requires Tiles(blocks, lo, hi) && |parts| == |blocks|
    requires forall i :: 0 <= i < |parts| ==> TilesBlock(parts[i], blocks[i], maxSize)
    ensures Tiles(Flatten(parts), lo, hi) && Fits(Flatten(parts), maxSize)
    decreases |parts|
  {
    if parts != [] {
      var n := |parts| - 1;
      TilesPrefixBefore(blocks, lo, hi, n);
      FlattenTiles(parts[..n], blocks[..n], lo, blocks[n].start, maxSize);
      assert TilesBlock(parts[n], blocks[n], maxSize);
      TilesJoin(Flatten(parts[..n]), parts[n], lo, blocks[n].start, hi, maxSize);
    }
  }

  lemma TilesPrefixBefore(us: seq<Span>, lo: int, hi: int, n: nat)
    requires Tiles(us, lo, hi) && n < |us|
    ensures Tiles(us[..n], lo, us[n].start)
  {
    if n > 0 {
      var i := n - 1;
      assert us[i].end == us[n].start;
      TilesPrefix(us, lo, hi, n);
    }
  }

  lemma BlockPieces(c: Classifier, source: seq<Byte>, maxSize: nat) returns (pieces: seq<Span>)
    requires maxSize >= 1
    ensures pieces == SplitBlocks(source, BlocksOf(c, source), maxSize)
    ensures Tiles(pieces, 0, |source|) && Fits(pieces, maxSize)
  {
    var blocks := BlocksOf(c, source);
    var parts := Parts(source, blocks, maxSize);
    BlocksTile(c, source);
    forall i | 0 <= i < |parts|
      ensures TilesBlock(parts[i], blocks[i], maxSize)
    {
      TilesEnds(blocks, 0, |source|, i);
      SplitBlockTiles(source, blocks[i], maxSize);
    }
    FlattenTiles(parts, blocks, 0, |source|, maxSize);
    pieces := Flatten(parts);
  }

  /** Whatever the classifier says, the units tile the file within the limit. */
  lemma BlockUnitsRebuild(c: Classifier, source: seq<Byte>, maxSize: nat)
    requires maxSize >= 1
    ensures Tiles(BlockUnits(c, source, maxSize), 0, |source|) && Fits(BlockUnits(c, source, maxSize), maxSize)
    ensures forall i :: 0 <= i < |BlockUnits(c, source, maxSize)| ==>
              BlockUnits(c, source, maxSize)[i].start <= BlockUnits(c, source, maxSize)[i].end <= |source|
    ensures Bytes(source, BlockUnits(c, source, maxSize)) == source
  {
    var pieces := BlockPieces(c, source, maxSize);
    MergeTiles(pieces, 0, |source|, maxSize);
    TilesRebuild(source, BlockUnits(c, source, maxSize), 0, |source|);
  }

  lemma InAppend(a: seq<Span>, b: seq<Span>, s: Span)
    ensures s in a + b <==> s in a || s in b
  {
  }

  lemma {:induction false} FlattenHas(parts: seq<seq<Span>>, k: nat, s: Span)
    requires k < |parts| && s in parts[k]
    ensures s in Flatten(parts)
    decreases |parts|
  {
    var n := |parts| - 1;
    if k < n { FlattenHas(parts[..n], k, s); }
    InAppend(Flatten(parts[..n]), parts[n], s);
  }

  /** A block - a declaration with its body, a paragraph - that fits is never cut. */
  lemma BlocksStayWhole(c: Classifier, source: seq<Byte>, maxSize: nat, k: nat)
    requires maxSize >= 1 && k < |BlocksOf(c, source)| && Size(BlocksOf(c, source)[k]) <= maxSize
    ensures Covered(BlockUnits(c, source, maxSize), BlocksOf(c, source)[k])
  {
    var blocks := BlocksOf(c, source);
    var pieces := BlockPieces(c, source, maxSize);
    FlattenHas(Parts(source, blocks, maxSize), k, blocks[k]);
    var u :| 0 <= u < |pieces| && pieces[u] == blocks[k];
    UnitsStayWhole(pieces, 0, |source|, maxSize, u);
  }

  ghost predicate AlignedBlock(source: seq<Byte>, block: Span)
  {
    InRange(source, block) && Boundary(source, block.start) && Boundary(source, block.end)
  }

  lemma SplitBlockAligned(source: seq<Byte>, block: Span, maxSize: nat)
    requires Splittable(source) && maxSize >= 4 && AlignedBlock(source, block)
    ensures OnBoundaries(source, SplitBlock(source, block, maxSize))
  {
    if Size(block) > maxSize { SplitCuts(source, block.start, block.end, maxSize); }
  }

  lemma {:induction false} FlattenAligned(source: seq<Byte>, parts: seq<seq<Span>>)
    requires forall i :: 0 <= i < |parts| ==> OnBoundaries(source, parts[i])
    ensures OnBoundaries(source, Flatten(parts))
    decreases |parts|
  {
    if parts != [] {
      var n := |parts| - 1;
      FlattenAligned(source, parts[..n]);
      OnBoundariesAppend(source, Flatten(parts[..n]), parts[n]);
    }
  }

  lemma SplitBlocksAligned(source: seq<Byte>, blocks: seq<Span>, maxSize: nat)
    requires Splittable(source) && maxSize >= 4
    requires forall i :: 0 <= i < |blocks| ==> AlignedBlock(source, blocks[i])
    ensures OnBoundaries(source, SplitBlocks(source, blocks, maxSize))
  {
    var parts := Parts(source, blocks, maxSize);
    forall i | 0 <= i < |parts|
      ensures OnBoundaries(source, parts[i])
    {
      SplitBlockAligned(source, blocks[i], maxSize);
    }
    FlattenAligned(source, parts);
  }

  /** On any text, with room for any code point, every unit starts and ends between code points, and
      the units' texts decode and concatenate to the text. */
  lemma BlockUnitsText(c: Classifier, code: seq<Scalar>, maxSize: nat)
    requires maxSize >= 4
    ensures var source, units := Encode(code), BlockUnits(c, Encode(code), maxSize);
            && OnBoundaries(source, units)
            && (forall i :: 0 <= i < |units| ==> units[i].start <= units[i].end <= |source|)
            && Text(source, units) == code
  {
    var source, blocks := Encode(code), BlocksOf(c, Encode(code));
    EncodedSplittable(code);
    BlocksAligned(c, source);
    BlocksTile(c, source);
    TilesRebuild(source, blocks, 0, |source|);
    SplitBlocksAligned(source, blocks, maxSize);
    var pieces := BlockPieces(c, source, maxSize);
    MergeOnBoundaries(source, pieces, 0, |source|, maxSize);
    BlockUnitsRebuild(c, source, maxSize);
    TextRebuild(code, BlockUnits(c, source, maxSize));
  }

  lemma BlocksAligned(c: Classifier, source: seq<Byte>)
    requires Splittable(source)
    ensures OnBoundaries(source, BlocksOf(c, source))
  {
    var blocks := BlocksOf(c, source);
    BlocksTile(c, source);
    StartsOnBoundaries(source, |source|);
    forall i | 0 <= i < |blocks|
      ensures Boundary(source, blocks[i].start) && Boundary(source, blocks[i].end)
    {
      assert LineCut(source, blocks[i].end);
      if i > 0 {
        var j := i - 1;
        assert blocks[j].end == blocks[i].start;
        assert LineCut(source, blocks[j].end);
      }
    }
  }
}
