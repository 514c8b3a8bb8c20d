/** Byte ranges of a source buffer, and what it means for a list of them to tile a range. */
module Spans {
  import opened SeqFacts
  import opened Utf8
  import opened LossyText

  datatype Span = Span(start: nat, end: nat)

  function Size(s: Span): int { s.end - s.start }

  /** The spans are non-empty, follow each other without gap or overlap, and run from lo to hi. */
  ghost predicate Tiles(us: seq<Span>, lo: int, hi: int)
  {
    && (us == [] ==> lo == hi)
    && (us != [] ==> us[0].start == lo && us[|us| - 1].end == hi)
    && (forall i :: 0 <= i < |us| ==> us[i].start < us[i].end)
    && (forall i, j :: 0 <= i && j == i + 1 && j < |us| ==> us[i].end == us[j].start)
  }

  predicate Fits(us: seq<Span>, max: int)
  {
    forall i :: 0 <= i < |us| ==> Size(us[i]) <= max
  }

  /** One of the spans contains s whole. */
  predicate Covered(us: seq<Span>, s: Span)
  {
    exists i :: 0 <= i < |us| && us[i].start <= s.start && s.end <= us[i].end
  }

  /** All cuts, including the outer two, fall between code points. */
  predicate OnBoundaries(source: seq<Byte>, us: seq<Span>)
  {
    forall i :: 0 <= i < |us| ==> Boundary(source, us[i].start) && Boundary(source, us[i].end)
  }

  lemma TilesAppend(a: seq<Span>, b: seq<Span>, lo: int, mid: int, hi: int)
    requires Tiles(a, lo, mid) && Tiles(b, mid, hi)
    ensures Tiles(a + b, lo, hi)
  {
  }

  lemma TilesPrefix(us: seq<Span>, lo: int, hi: int, n: nat)
    requires Tiles(us, lo, hi) && 0 < n <= |us|
    ensures Tiles(us[..n], lo, us[n - 1].end) && Tiles(us[n..], us[n - 1].end, hi)
  {
  }

  /** Later tiles lie further right. */
  lemma {:induction false} TilesOrdered(us: seq<Span>, lo: int, hi: int, i: nat, j: nat)
    requires Tiles(us, lo, hi) && i <= j < |us|
    ensures lo <= us[i].start && us[j].end <= hi
    ensures us[i].start <= us[j].start && us[i].end <= us[j].end
    ensures i < j ==> us[i].end <= us[j].start
    decreases |us|
  {
    TilesStarts(us, lo, hi, i);
    TilesEnds(us, lo, hi, j);
    if i < j { TilesStep(us, lo, hi, i, j); }
  }

  lemma {:induction false} TilesStarts(us: seq<Span>, lo: int, hi: int, i: nat)
    requires Tiles(us, lo, hi) && i < |us|
    ensures lo <= us[i].start
  {
    if i > 0 {
      var h := i - 1;
      TilesStarts(us, lo, hi, h);
      assert us[h].end == us[i].start;
    }
  }

  lemma {:induction false} TilesEnds(us: seq<Span>, lo: int, hi: int, j: nat)
    requires Tiles(us, lo, hi) && j < |us|
    ensures us[j].end <= hi
    decreases |us| - j
  {
    if j + 1 < |us| {
      var k := j + 1;
      TilesEnds(us, lo, hi, k);
      assert us[j].end == us[k].start;
    }
  }

  lemma {:induction false} TilesStep(us: seq<Span>, lo: int, hi: int, i: nat, j: nat)
    requires Tiles(us, lo, hi) && i < j < |us|
    ensures us[i].end <= us[j].start
    decreases j - i
  {
    var h := j - 1;
    assert us[h].end == us[j].start;
    if i < h { TilesStep(us, lo, hi, i, h); }
  }

  lemma TilesSpan(us: seq<Span>, lo: int, hi: int)
    requires Tiles(us, lo, hi)
    ensures lo <= hi && (us == [] <==> lo == hi)
  {
    if us != [] { TilesOrdered(us, lo, hi, 0, |us| - 1); }
  }

  /** Every position of a tiled range lies in one of the tiles. */
  lemma {:induction false} TileAt(us: seq<Span>, lo: int, hi: int, p: int) returns (k: nat)
    requires Tiles(us, lo, hi) && lo <= p < hi
    ensures k < |us| && us[k].start <= p < us[k].end
    decreases |us|
  {
    if p < us[0].end {
      k := 0;
    } else {
      TilesPrefix(us, lo, hi, 1);
      var m := TileAt(us[1..], us[0].end, hi, p);
      k := m + 1;
    }
  }

  /** Only one tile holds a given position. */
  lemma SameTile(us: seq<Span>, lo: int, hi: int, a: nat, b: nat, p: int)
    requires Tiles(us, lo, hi) && a < |us| && b < |us|
    requires us[a].start <= p < us[a].end && us[b].start <= p < us[b].end
    ensures a == b
  {
    if a < b { TilesOrdered(us, lo, hi, a, b); }
    if b < a { TilesOrdered(us, lo, hi, b, a); }
  }

  /** A range of at most one byte is always inside one tile. */
  lemma TinyCovered(us: seq<Span>, lo: int, hi: int, s: Span)
    requires Tiles(us, lo, hi) && lo < hi && lo <= s.start && s.end <= hi && Size(s) <= 1
    ensures Covered(us, s)
  {
    var p := if s.start < hi then s.start else hi - 1;
    var k := TileAt(us, lo, hi, p);
  }

  /** The bytes of the spans, concatenated. */
  function Bytes(source: seq<Byte>, us: seq<Span>): seq<Byte>
    requires forall i :: 0 <= i < |us| ==> us[i].start <= us[i].end <= |source|
  {
    if us == [] then [] else source[us[0].start..us[0].end] + Bytes(source, us[1..])
  }

  lemma TilesWithin(us: seq<Span>, lo: nat, hi: nat)
    requires Tiles(us, lo, hi)
    ensures lo <= hi && forall i :: 0 <= i < |us| ==> us[i].start <= us[i].end <= hi
  {
    TilesSpan(us, lo, hi);
    forall i | 0 <= i < |us|
      ensures us[i].start <= us[i].end <= hi
    {
      TilesEnds(us, lo, hi, i);
    }
  }

  /** Concatenating tiles gives back exactly the tiled range. */
  lemma {:induction false} TilesRebuild(source: seq<Byte>, us: seq<Span>, lo: nat, hi: nat)
    requires Tiles(us, lo, hi) && hi <= |source|
    ensures lo <= hi
    ensures forall i :: 0 <= i < |us| ==> us[i].start <= us[i].end <= |source|
    ensures Bytes(source, us) == source[lo..hi]
    decreases |us|
  {
    TilesWithin(us, lo, hi);
    if us != [] {
      var mid := us[0].end;
      TilesPrefix(us, lo, hi, 1);
      TilesRebuild(source, us[1..], mid, hi);
      TilesSpan(us[1..], mid, hi);
      assert source[lo..hi] == source[lo..mid] + source[mid..hi];
    }
  }

  /** The texts of the spans, concatenated. */
  function Text(source: seq<Byte>, us: seq<Span>): seq<Scalar>
    requires forall i :: 0 <= i < |us| ==> us[i].start <= us[i].end <= |source|
  {
    if us == [] then [] else Read(source[us[0].start..us[0].end]) + Text(source, us[1..])
  }

  /** How many of the spans start inside a code point. */
  function Torn(source: seq<Byte>, us: seq<Span>): nat
  {
    if us == [] then 0 else (if Boundary(source, us[0].start) then 0 else 1) + Torn(source, us[1..])
  }

  /** Reading on from a position where the rest of the code starts: the next slice between
      boundaries holds the next characters. */
  lemma SliceText(source: seq<Byte>, lo: nat, mid: nat, rest: seq<Scalar>) returns (m: nat)
    requires lo <= mid <= |source| && source[lo..] == Encode(rest) && Boundary(source, mid)
    ensures m <= |rest| && source[mid..] == Encode(rest[m..]) && Read(source[lo..mid]) == rest[..m]
  {
    BoundaryOfTail(source, lo, mid);
    SliceAfterDrop(source, lo, mid - lo);
    m := PrefixText(source[lo..], mid - lo, rest);
  }

  lemma PrefixText(tail: seq<Byte>, n: nat, rest: seq<Scalar>) returns (m: nat)
    requires tail == Encode(rest) && n <= |tail| && Boundary(tail, n)
    ensures m <= |rest| && tail[n..] == Encode(rest[m..]) && Read(tail[..n]) == rest[..m]
  {
    m := BoundaryIndex(rest, n);
    ReadEncoded(rest[..m]);
  }

  lemma ReadEncoded(code: seq<Scalar>)
    ensures Read(Encode(code)) == code
  {
    RoundTrip(code);
    ReadDecodable(Encode(code));
  }

  lemma BoundaryOfTail(source: seq<Byte>, lo: nat, mid: nat)
    requires lo <= mid <= |source| && Boundary(source, mid)
    ensures Boundary(source[lo..], mid - lo)
  {
  }

  lemma OnBoundariesAppend(source: seq<Byte>, a: seq<Span>, b: seq<Span>)
    requires OnBoundaries(source, a) && OnBoundaries(source, b)
    ensures OnBoundaries(source, a + b)
  {
  }

  lemma OnBoundariesCons(source: seq<Byte>, us: seq<Span>)
    requires us != []
    ensures OnBoundaries(source, us) <==>
            Boundary(source, us[0].start) && Boundary(source, us[0].end) && OnBoundaries(source, us[1..])
  {
    if OnBoundaries(source, us[1..]) {
      assert forall i :: 1 <= i < |us| ==> us[i] == us[1..][i - 1];
    }
  }

  /** When no cut falls inside a code point, chunk texts concatenate to the characters of the
      tiled range. */
  lemma {:induction false} TextOfAligned(source: seq<Byte>, us: seq<Span>, lo: nat, rest: seq<Scalar>)
    requires lo <= |source| && source[lo..] == Encode(rest)
    requires Tiles(us, lo, |source|) && OnBoundaries(source, us)
    ensures forall i :: 0 <= i < |us| ==> us[i].start <= us[i].end <= |source|
    ensures Text(source, us) == rest
    decreases |us|
  {
    TilesRebuild(source, us, lo, |source|);
    if us == [] {
      OpeningsOfText(rest);
      assert source[lo..] == [];
    } else {
      TilesPrefix(us, lo, |source|, 1);
      OnBoundariesCons(source, us);
      var m := SliceText(source, lo, us[0].end, rest);
      TextOfAligned(source, us[1..], us[0].end, rest[m..]);
      JoinAt(rest, m);
    }
  }

  /** Every cut inside a code point adds at least one character. */
  lemma {:induction false} TextLength(source: seq<Byte>, us: seq<Span>, lo: nat, hi: nat)
    requires Tiles(us, lo, hi) && hi <= |source|
    ensures forall i :: 0 <= i < |us| ==> us[i].start <= us[i].end <= |source|
    ensures lo <= hi && |Text(source, us)| >= Openings(source[lo..hi]) + Torn(source, us)
    decreases |us|
  {
    TilesRebuild(source, us, lo, hi);
    if us != [] {
      var mid := us[0].end;
      TilesPrefix(us, lo, hi, 1);
      TextLength(source, us[1..], mid, hi);
      SliceLength(source, lo, mid, hi);
    }
  }

  lemma SliceLength(source: seq<Byte>, lo: nat, mid: nat, hi: nat)
    requires lo < mid <= hi <= |source|
    ensures |Read(source[lo..mid])| + Openings(source[mid..hi]) >=
            Openings(source[lo..hi]) + if Boundary(source, lo) then 0 else 1
  {
    ReadLength(source[lo..mid]);
    OpeningsAppend(source[lo..mid], source[mid..hi]);
    assert source[lo..hi] == source[lo..mid] + source[mid..hi];
    assert source[lo..mid][0] == source[lo];
  }

  /** Tiles up to the end are all between code points as soon as none of them starts inside one. */
  lemma {:induction false} TornNone(source: seq<Byte>, us: seq<Span>, lo: nat)
    requires Tiles(us, lo, |source|)
    ensures Torn(source, us) == 0 <==> OnBoundaries(source, us)
    decreases |us|
  {
    if us != [] {
      TilesPrefix(us, lo, |source|, 1);
      TornNone(source, us[1..], us[0].end);
      OnBoundariesCons(source, us);
      if |us| > 1 { OnBoundariesCons(source, us[1..]); }
    }
  }

  /** Chunk texts concatenate to the text exactly when no cut falls inside a code point. Every cut
      that does makes the concatenation longer by at least one character. */
  lemma TextRebuild(code: seq<Scalar>, us: seq<Span>)
    requires Tiles(us, 0, |Encode(code)|)
    ensures forall i :: 0 <= i < |us| ==> us[i].start <= us[i].end <= |Encode(code)|
    ensures Text(Encode(code), us) == code <==> OnBoundaries(Encode(code), us)
    ensures |Text(Encode(code), us)| >= |code| + Torn(Encode(code), us)
  {
    var source := Encode(code);
    TornNone(source, us, 0);
    TextLength(source, us, 0, |source|);
    OpeningsOfText(code);
    assert source[0..|source|] == source && source[0..] == source && code[0..] == code;
    if OnBoundaries(source, us) { TextOfAligned(source, us, 0, code); }
  }

  /** A span record of the source program: the splitters assign to its fields in place. */
  class SpanCell {
    var start: nat
    var end: nat

    constructor (start: nat, end: nat)
      ensures this.start == start && this.end == end
    {
      this.start, this.end := start, end;
    }
  }

  /** A growing list of span records, as the splitters use it. The records of one list are distinct,
      so assigning to a field of one of them changes that entry only. */
  class SpanList {
    ghost var Contents: seq<Span>
    ghost var Repr: set<object>
    var cells: seq<SpanCell>

    ghost predicate Valid()
      reads this, Repr
    {
      && this in Repr
      && |Contents| == |cells|
      && (forall i :: 0 <= i < |cells| ==> cells[i] in Repr && Contents[i] == Span(cells[i].start, cells[i].end))
      && (forall i, j :: 0 <= i < j < |cells| ==> cells[i] != cells[j])
    }

    constructor ()
      ensures Valid() && fresh(Repr) && Contents == []
    {
      cells, Contents, Repr := [], [], {this};
    }

    method Push(start: nat, end: nat)
      requires Valid()
      modifies this
      ensures Valid() && fresh(Repr - old(Repr))
      ensures Contents == old(Contents) + [Span(start, end)]
    {
      var cell := new SpanCell(start, end);
      cells, Contents, Repr := cells + [cell], Contents + [Span(start, end)], Repr + {cell};
    }

    /** Takes over the records of another list. */
    method PushAll(other: SpanList)
      requires Valid() && other.Valid() && Repr !! other.Repr
      modifies this
      ensures Valid() && Repr == old(Repr) + other.Repr
      ensures Contents == old(Contents) + other.Contents
    {
      cells, Contents, Repr := cells + other.cells, Contents + other.Contents, Repr + other.Repr;
    }

    /** Assigns to the start of the first record. */
    method SetFirstStart(start: nat)
      requires Valid() && Contents != []
      modifies Repr
      ensures Valid() && Repr == old(Repr)
      ensures Contents == old(Contents)[0 := Span(start, old(Contents)[0].end)]
    {
      cells[0].start := start;
      Contents := Contents[0 := Span(start, Contents[0].end)];
    }

    /** Assigns to the end of the last record. */
    method SetLastEnd(end: nat)
      requires Valid() && Contents != []
      modifies Repr
      ensures Valid() && Repr == old(Repr)
      ensures Contents == old(Contents)[|old(Contents)| - 1 := Span(old(Contents)[|old(Contents)| - 1].start, end)]
    {
      cells[|cells| - 1].end := end;
      Contents := Contents[|Contents| - 1 := Span(Contents[|Contents| - 1].start, end)];
    }

    function Length(): (n: nat)
      requires Valid()
      reads this, Repr
      ensures n == |Contents|
    {
      |cells|
    }

    function At(i: nat): (s: Span)
      requires Valid() && i < |Contents|
      reads this, Repr
      ensures s == Contents[i]
    {
      Span(cells[i].start, cells[i].end)
    }
  }
}
