/** lineStarts and lineAt: where lines begin, and the line a byte is on. */
module Lines {
  import opened Utf8
  import opened Spans

  /** The line starts at or before position n: 0 and every position behind a newline. */
  function StartsUpTo(source: seq<Byte>, n: nat): (starts: seq<nat>)
    requires n <= |source|
    ensures starts != [] && starts[0] == 0
  {
    if n == 0 then [0]
    else StartsUpTo(source, n - 1) + if source[n - 1] == NEWLINE then [n] else []
  }

  function LineStarts(source: seq<Byte>): seq<nat> { StartsUpTo(source, |source|) }

  /** The first newline at or after `from`, or -1. */
  function NextNewline(source: seq<Byte>, from: nat): (p: int)
    requires from <= |source|
    ensures p == -1 || from <= p < |source|
    ensures p != -1 ==> source[p] == NEWLINE
    ensures forall q :: from <= q < (if p == -1 then |source| else p) ==> source[q] != NEWLINE
    decreases |source| - from
  {
    if from == |source| then -1 else if source[from] == NEWLINE then from else NextNewline(source, from + 1)
  }

  lemma {:induction false} NoStartBetween(source: seq<Byte>, a: nat, b: nat)
    requires a <= b <= |source| && forall q :: a <= q < b ==> source[q] != NEWLINE
    ensures StartsUpTo(source, b) == StartsUpTo(source, a)
    decreases b
  {
    if a < b { NoStartBetween(source, a, b - 1); }
  }

  method ComputeLineStarts(source: seq<Byte>) returns (starts: seq<nat>)
    ensures starts == LineStarts(source)
  {
    starts := [0];
    var from := 0;
    var index := NextNewline(source, 0);
    while index >= 0
      invariant from <= |source| && index == NextNewline(source, from)
      invariant starts == StartsUpTo(source, from)
      decreases |source| - from
    {
      NoStartBetween(source, from, index);
      starts := starts + [index + 1];
      from := index + 1;
      index := NextNewline(source, from);
    }
    NoStartBetween(source, from, |source|);
  }

  ghost predicate Increasing(starts: seq<nat>)
  {
    forall i, j :: 0 <= i < j < |starts| ==> starts[i] < starts[j]
  }

  /** The line starts are increasing, and there is one more of them than newlines so far. */
  lemma {:induction false} StartsIncreasing(source: seq<Byte>, n: nat)
    requires n <= |source|
    ensures Increasing(StartsUpTo(source, n))
    ensures forall i :: 0 <= i < |StartsUpTo(source, n)| ==> StartsUpTo(source, n)[i] <= n
    ensures |StartsUpTo(source, n)| == NewlinesBefore(source, n) + 1
  {
    if n > 0 { StartsIncreasing(source, n - 1); }
  }

  function NewlinesBefore(source: seq<Byte>, n: nat): nat
    requires n <= |source|
  {
    if n == 0 then 0 else NewlinesBefore(source, n - 1) + if source[n - 1] == NEWLINE then 1 else 0
  }

  method LineAt(starts: seq<nat>, byteIndex: nat) returns (line: nat)
    requires starts != [] && starts[0] == 0 && Increasing(starts)
    ensures line < |starts| && starts[line] <= byteIndex
    ensures line + 1 < |starts| ==> byteIndex < starts[line + 1]
  {
    var low, high := 0, |starts|;
    while low < high
      invariant 0 <= low <= high <= |starts|
      invariant forall i :: 0 <= i < low ==> starts[i] <= byteIndex
      invariant forall i :: high <= i < |starts| ==> byteIndex < starts[i]
    {
      var middle := (low + high) / 2;
      if starts[middle] <= byteIndex { low := middle + 1; } else { high := middle; }
    }
    assert low > 0;
    line := low - 1;
  }

  lemma {:induction false} StartsPrefix(source: seq<Byte>, m: nat, n: nat)
    requires m <= n <= |source|
    ensures StartsUpTo(source, m) <= StartsUpTo(source, n)
    ensures forall i :: |StartsUpTo(source, m)| <= i < |StartsUpTo(source, n)| ==> m < StartsUpTo(source, n)[i]
    decreases n
  {
    if m < n { StartsPrefix(source, m, n - 1); }
  }

  /** The line the binary search finds is the number of newlines before the byte, and no other
      index meets its contract. */
  lemma LineIsNewlineCount(source: seq<Byte>, byteIndex: nat, line: nat)
    requires byteIndex <= |source|
    ensures var starts := LineStarts(source);
            line < |starts| && starts[line] <= byteIndex && (line + 1 < |starts| ==> byteIndex < starts[line + 1])
            <==> line == NewlinesBefore(source, byteIndex)
  {
    var starts, upTo := LineStarts(source), StartsUpTo(source, byteIndex);
    StartsPrefix(source, byteIndex, |source|);
    StartsIncreasing(source, byteIndex);
    StartsIncreasing(source, |source|);
    var n := NewlinesBefore(source, byteIndex);
    assert starts[n] == upTo[n] <= byteIndex;
  }

  /** The line range reported for a chunk. */
  method LineRange(starts: seq<nat>, span: Span) returns (first: nat, last: nat)
    requires starts != [] && starts[0] == 0 && Increasing(starts) && span.start < span.end
    ensures forall source :: starts == LineStarts(source) && span.end <= |source| ==>
              first == NewlinesBefore(source, span.start) && last == NewlinesBefore(source, span.end - 1)
  {
    first := LineAt(starts, span.start);
    last := LineAt(starts, if span.start <= span.end - 1 then span.end - 1 else span.start);
    forall source | starts == LineStarts(source) && span.end <= |source|
      ensures first == NewlinesBefore(source, span.start) && last == NewlinesBefore(source, span.end - 1)
    {
      LineIsNewlineCount(source, span.start, first);
      LineIsNewlineCount(source, span.end - 1, last);
    }
  }

  /** The lines of the source as ranges, line i from starts[i] to the next start or the end. */
  function LineEnd(source: seq<Byte>, starts: seq<nat>, i: nat): nat
    requires i < |starts|
  {
    if i + 1 < |starts| then starts[i + 1] else |source|
  }

  lemma {:induction false} StartsOnBoundaries(source: seq<Byte>, n: nat)
    requires Splittable(source) && n <= |source|
    ensures forall i :: 0 <= i < |StartsUpTo(source, n)| ==> Boundary(source, StartsUpTo(source, n)[i])
  {
    if n > 0 {
      StartsOnBoundaries(source, n - 1);
      assert BoundaryAfterAscii(source, n - 1);
    }
  }
}
