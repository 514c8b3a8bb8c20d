/** structuralUnits: split a syntax node that is too large at its named children, recursively, and
    give the bytes between children to a neighbouring piece when they fit there. */
module Structural {
  import opened Utf8
  import opened Spans
  import opened LineSplitter

  /** A syntax node: its byte range and its named children. */
  datatype Node = Node(start: nat, end: nat, children: seq<Node>)

  function Extent(node: Node): Span { Span(node.start, node.end) }

  ghost predicate Below(cs: seq<Node>, parent: Node)
  {
    forall i :: 0 <= i < |cs| ==> cs[i] < parent
  }

  /** Named children are in order, disjoint and inside their parent, at every level. */
  ghost predicate WellFormed(node: Node)
    decreases node, |node.children| + 1
  {
    node.start <= node.end && Ordered(node, node.children, node.start)
  }

  ghost predicate Ordered(parent: Node, cs: seq<Node>, lo: nat)
    requires Below(cs, parent)
    decreases parent, |cs|
  {
    cs == [] ||
    (lo <= cs[0].start && cs[0].end <= parent.end && WellFormed(cs[0]) && Ordered(parent, cs[1..], cs[0].end))
  }

  /** The children the splitter looks at: the non-empty ones. */
  function Kept(cs: seq<Node>, nodeStart: nat): (kept: seq<Node>)
    ensures |kept| <= |cs|
    ensures forall i :: 0 <= i < |kept| ==> kept[i] in cs && kept[i].end > kept[i].start
    ensures forall i :: 0 <= i < |cs| && cs[i].end > cs[i].start && cs[i].start >= nodeStart ==> cs[i] in kept
  {
    if cs == [] then []
    else if cs[0].end > cs[0].start && cs[0].start >= nodeStart then [cs[0]] + Kept(cs[1..], nodeStart)
    else Kept(cs[1..], nodeStart)
  }

  lemma {:induction false} KeptOrdered(parent: Node, cs: seq<Node>, lo: nat, nodeStart: nat)
    requires Below(cs, parent)
    requires Ordered(parent, cs, lo)
    ensures Below(Kept(cs, nodeStart), parent)
    ensures forall lower: nat :: lower <= lo ==> Ordered(parent, Kept(cs, nodeStart), lower)
    decreases |cs|
  {
    if cs != [] {
      KeptOrdered(parent, cs[1..], cs[0].end, nodeStart);
    }
  }

  /** The children repeat the node: a single one, with the same range. */
  predicate SameExtent(node: Node, kept: seq<Node>)
  {
    |kept| == 1 && kept[0].start == node.start && kept[0].end == node.end
  }

  function Max(a: nat, b: nat): nat { if a < b then b else a }

  /** What a child adds to the units: a gap before the child goes to the child's first unit when
      that still fits, and is split at lines otherwise. */
  function Attached(childUnits: seq<Span>, cursor: nat, childStart: nat, source: seq<Byte>, maxSize: nat): seq<Span>
    requires childStart <= |source| && maxSize >= 1
  {
    if childStart > cursor && childUnits != [] then
      if childUnits[0].end - cursor <= maxSize then
        childUnits[0 := Span(cursor, childUnits[0].end)]
      else
        SplitSpans(source, cursor, childStart, maxSize) + childUnits
    else childUnits
  }

  /** What is left behind the last child goes to the last unit, or is split at lines. */
  function CloseTail(units: seq<Span>, cursor: nat, end: nat, source: seq<Byte>, maxSize: nat): seq<Span>
    requires end <= |source| && maxSize >= 1
  {
    var last := |units| - 1;
    if cursor < end then
      if units != [] && end - units[last].start <= maxSize then
        units[last := Span(units[last].start, end)]
      else
        units + SplitSpans(source, cursor, end, maxSize)
    else units
  }

  ghost function StructuralSpans(node: Node, source: seq<Byte>, maxSize: nat): seq<Span>
    requires WellFormed(node) && node.end <= |source| && maxSize >= 1
    decreases node, |node.children| + 1
  {
    if node.end - node.start <= maxSize then [Extent(node)]
    else
      var kept := Kept(node.children, node.start);
      KeptOrdered(node, node.children, node.start, node.start);
      if kept == [] || SameExtent(node, kept) then
        SplitSpans(source, node.start, node.end, maxSize)
      else
        var walked := WalkChildren(node, kept, source, maxSize, node.start, []);
        CloseTail(walked.0, walked.1, node.end, source, maxSize)
  }

  /** The loop over the children: the units so far and the end of the last child. */
  ghost function WalkChildren(parent: Node, cs: seq<Node>, source: seq<Byte>, maxSize: nat,
                              cursor: nat, units: seq<Span>): (seq<Span>, nat)
    requires Below(cs, parent)
    requires Ordered(parent, cs, cursor) && parent.end <= |source| && maxSize >= 1
    decreases parent, |cs|
  {
    if cs == [] then (units, cursor)
    else
      var child := cs[0];
      var childUnits := StructuralSpans(child, source, maxSize);
      WalkChildren(parent, cs[1..], source, maxSize, Max(cursor, child.end),
                   units + Attached(childUnits, cursor, child.start, source, maxSize))
  }

  method StructuralUnits(node: Node, source: seq<Byte>, maxSize: nat) returns (units: SpanList)
    requires WellFormed(node) && node.end <= |source| && maxSize >= 1
    ensures units.Valid() && fresh(units.Repr)
    ensures units.Contents == StructuralSpans(node, source, maxSize)
    decreases node, 2
  {
    var children := Kept(node.children, node.start);
    if node.end - node.start <= maxSize {
      units := new SpanList();
      units.Push(node.start, node.end);
    } else if children == [] || SameExtent(node, children) {
      units := SplitAtLines(source, node.start, node.end, maxSize);
    } else {
      KeptOrdered(node, node.children, node.start, node.start);
      var cursor;
      units, cursor := UnitsOfChildren(node, children, source, maxSize);
      CloseUnits(units, cursor, node.end, source, maxSize);
    }
  }

  /** The loop over the children. */
  method UnitsOfChildren(node: Node, children: seq<Node>, source: seq<Byte>, maxSize: nat)
    returns (units: SpanList, cursor: nat)
    requires Below(children, node) && Ordered(node, children, node.start)
    requires node.end <= |source| && maxSize >= 1
    ensures units.Valid() && fresh(units.Repr)
    ensures (units.Contents, cursor) == WalkChildren(node, children, source, maxSize, node.start, [])
    decreases node, 1
  {
    units := new SpanList();
    cursor := node.start;
    ghost var walked := WalkChildren(node, children, source, maxSize, cursor, []);
    var rest := children;
    while rest != []
      invariant units.Valid() && fresh(units.Repr)
      invariant Below(rest, node) && Ordered(node, rest, cursor)
      invariant WalkChildren(node, rest, source, maxSize, cursor, units.Contents) == walked
      decreases |rest|
    {
      var child := rest[0];
      var childUnits := ChildUnits(node, child, source, maxSize, cursor);
      units.PushAll(childUnits);
      cursor, rest := Max(cursor, child.end), rest[1..];
    }
  }

  /** One round of the loop over the children: what it appends. */
  method ChildUnits(parent: Node, child: Node, source: seq<Byte>, maxSize: nat, cursor: nat)
    returns (added: SpanList)
    requires child < parent && WellFormed(child) && child.end <= |source| && maxSize >= 1
    ensures added.Valid() && fresh(added.Repr)
    ensures added.Contents == Attached(StructuralSpans(child, source, maxSize), cursor, child.start, source, maxSize)
    decreases parent, 0
  {
    added := StructuralUnits(child, source, maxSize);
    if child.start > cursor && added.Length() > 0 {
      if added.At(0).end - cursor <= maxSize {
        added.SetFirstStart(cursor);
      } else {
        var gap := SplitAtLines(source, cursor, child.start, maxSize);
        gap.PushAll(added);
        added := gap;
      }
    }
  }

  /** The bytes behind the last child: an assignment to the last record, or more records. */
  method CloseUnits(units: SpanList, cursor: nat, end: nat, source: seq<Byte>, maxSize: nat)
    requires units.Valid() && end <= |source| && maxSize >= 1
    modifies units.Repr
    ensures units.Valid() && fresh(units.Repr - old(units.Repr))
    ensures units.Contents == CloseTail(old(units.Contents), cursor, end, source, maxSize)
  {
    if cursor < end {
      var length := units.Length();
      if length > 0 && end - units.At(length - 1).start <= maxSize {
        units.SetLastEnd(end);
      } else {
        var tail := SplitAtLines(source, cursor, end, maxSize);
        units.PushAll(tail);
      }
    }
  }
}
