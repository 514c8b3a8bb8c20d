/** splitAtLines: cut a byte range into pieces of at most maxSize bytes, at line ends where there
    are any and never inside a code point. */
module LineSplitter {
  import opened SeqFacts
  import opened Utf8
  import opened Spans

  /** The last newline at or before `from`, or -1. */
  function LastNewline(source: seq<Byte>, from: int): (p: int)
    requires -1 <= from < |source|
    ensures -1 <= p <= from
    ensures p >= 0 ==> source[p] == NEWLINE
    ensures forall q :: p < q <= from ==> source[q] != NEWLINE
    decreases from + 1
  {
    if from == -1 || source[from] == NEWLINE then from else LastNewline(source, from - 1)
  }

  /** Steps back over continuation bytes, but not past the cursor. */
  function BackOff(source: seq<Byte>, cursor: nat, split: nat): (r: nat)
    requires cursor <= split <= |source|
    ensures cursor <= r <= split
    ensures r > cursor ==> Boundary(source, r)
    ensures forall p :: r < p <= split ==> !Boundary(source, p)
    decreases split
  {
    if split > cursor && split < |source| && IsContinuation(source[split])
    then BackOff(source, cursor, split - 1)
    else split
  }

  /** Where a range that does not fit is cut first. */
  function CutPoint(source: seq<Byte>, cursor: nat, end: nat, maxSize: nat): (cut: nat)
    requires cursor + maxSize < end <= |source| && maxSize >= 1
    ensures cursor < cut <= cursor + maxSize
  {
    var limit := cursor + maxSize;
    var newline := LastNewline(source, limit - 1);
    var split := BackOff(source, cursor, if newline >= cursor then newline + 1 else limit);
    if split == cursor then limit else split
  }

  function SplitSpans(source: seq<Byte>, cursor: nat, end: nat, maxSize: nat): seq<Span>
    requires cursor <= end <= |source| && maxSize >= 1
    decreases end - cursor
  {
    if cursor >= end then []
    else if end - cursor <= maxSize then [Span(cursor, end)]
    else
      var cut := CutPoint(source, cursor, end, maxSize);
      [Span(cursor, cut)] + SplitSpans(source, cut, end, maxSize)
  }

  /** The body of the splitting loop: look back for a newline, then off continuation bytes. */
  method FindCut(source: seq<Byte>, cursor: nat, end: nat, maxSize: nat) returns (split: nat)
    requires cursor + maxSize < end <= |source| && maxSize >= 1
    ensures split == CutPoint(source, cursor, end, maxSize)
  {
    var limit := cursor + maxSize;
    var newline := LastNewline(source, limit - 1);
    split := if newline >= cursor then newline + 1 else limit;
    ghost var wanted := BackOff(source, cursor, split);
    while split > cursor && split < end && IsContinuation(source[split])
      invariant cursor <= split <= limit
      invariant BackOff(source, cursor, split) == wanted
    {
      split := split - 1;
    }
    if split == cursor { split := limit; }
  }

  method SplitAtLines(source: seq<Byte>, start: nat, end: nat, maxSize: nat) returns (spans: SpanList)
    requires start <= end <= |source| && maxSize >= 1
    ensures spans.Valid() && fresh(spans.Repr)
    ensures spans.Contents == SplitSpans(source, start, end, maxSize)
  {
    spans := new SpanList();
    var cursor := start;
    while cursor < end
      invariant start <= cursor <= end
      invariant spans.Valid() && fresh(spans.Repr)
      invariant spans.Contents + SplitSpans(source, cursor, end, maxSize) == SplitSpans(source, start, end, maxSize)
    {
      ghost var before := spans.Contents;
      var limit := if cursor + maxSize < end then cursor + maxSize else end;
      if limit == end {
        spans.Push(cursor, end);
        break;
      }
      var split := FindCut(source, cursor, end, maxSize);
      spans.Push(cursor, split);
      AppendAssociative(before, [Span(cursor, split)], SplitSpans(source, split, end, maxSize));
      cursor := split;
    }
  }

  lemma {:induction false} SplitTiles(source: seq<Byte>, start: nat, end: nat, maxSize: nat)
    requires start <= end <= |source| && maxSize >= 1
    ensures Tiles(SplitSpans(source, start, end, maxSize), start, end)
    ensures Fits(SplitSpans(source, start, end, maxSize), maxSize)
    decreases end - start
  {
    if end - start > maxSize {
      SplitTiles(source, CutPoint(source, start, end, maxSize), end, maxSize);
    }
  }

  /** What a cut at `cut` of a piece starting at `start` is allowed to be: after the last newline
      within the limit; if the limit holds no newline, the last code-point boundary within it. */
  ghost predicate GoodCut(source: seq<Byte>, start: nat, cut: nat, maxSize: nat)
    requires start + maxSize <= |source|
  {
    && start < cut <= start + maxSize
    && Boundary(source, cut)
    && (forall p :: cut <= p < start + maxSize ==> source[p] != NEWLINE)
    && (source[cut - 1] != NEWLINE ==>
         && (forall p :: start <= p < start + maxSize ==> source[p] != NEWLINE)
         && (forall p :: cut < p <= start + maxSize ==> !Boundary(source, p)))
  }

  lemma CutPointGood(source: seq<Byte>, cursor: nat, end: nat, maxSize: nat)
    requires Splittable(source) && maxSize >= 4
    requires cursor + maxSize < end <= |source|
    ensures GoodCut(source, cursor, CutPoint(source, cursor, end, maxSize), maxSize)
  {
    var limit := cursor + maxSize;
    var newline := LastNewline(source, limit - 1);
    if newline >= cursor {
      assert BoundaryAfterAscii(source, newline);
    } else {
      assert NearBoundary(source, limit);
    }
  }

  /** Every piece but the last ends in a good cut, and did not fit together with what follows. */
  ghost predicate GoodCuts(source: seq<Byte>, us: seq<Span>, end: nat, maxSize: nat)
    requires end <= |source|
  {
    forall i :: 0 <= i < |us| - 1 ==>
      us[i].start + maxSize < end && GoodCut(source, us[i].start, us[i].end, maxSize)
  }

  /** On UTF-8 text with room for any code point, every piece starts and ends between code points,
      and every cut is good. */
  lemma {:induction false} SplitCuts(source: seq<Byte>, start: nat, end: nat, maxSize: nat)
    requires Splittable(source) && maxSize >= 4 && start <= end <= |source|
    requires Boundary(source, start) && Boundary(source, end)
    ensures OnBoundaries(source, SplitSpans(source, start, end, maxSize))
    ensures GoodCuts(source, SplitSpans(source, start, end, maxSize), end, maxSize)
    decreases end - start
  {
    if end - start > maxSize {
      var cut := CutPoint(source, start, end, maxSize);
      CutPointGood(source, start, end, maxSize);
      SplitCuts(source, cut, end, maxSize);
      var rest := SplitSpans(source, cut, end, maxSize);
      var us := [Span(start, cut)] + rest;
      OnBoundariesCons(source, us);
      assert us[1..] == rest;
      assert forall i :: 1 <= i < |us| ==> us[i] == rest[i - 1];
    }
  }
}
