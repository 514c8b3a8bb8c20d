/** selectLineOverlap: the run of whole lines at the end of a chunk whose size in bytes is closest
    to a target. */
module Overlap {
  import opened Options
  import opened SeqFacts
  import opened Utf8

  const LF: Scalar := 0x0A

  /** Where the first line of a non-empty text ends, its newline included. */
  function FirstLineLength(text: seq<Scalar>): (n: nat)
    requires text != []
    ensures 1 <= n <= |text|
    ensures n < |text| ==> text[n - 1] == LF
    ensures forall i :: 0 <= i < n - 1 ==> text[i] != LF
  {
    if text[0] == LF || |text| == 1 then 1 else 1 + FirstLineLength(text[1..])
  }

  /** The lines of a text, each with its newline; the last may lack one. */
  function LinesOf(text: seq<Scalar>): (lines: seq<seq<Scalar>>)
    ensures forall i :: 0 <= i < |lines| ==> lines[i] != []
    ensures text != [] ==> lines != []
  {
    if text == [] then []
    else
      var n := FirstLineLength(text);
      [text[..n]] + LinesOf(text[n..])
  }

  function Join(lines: seq<seq<Scalar>>): seq<Scalar>
  {
    if lines == [] then [] else lines[0] + Join(lines[1..])
  }

  lemma {:induction false} JoinAppend(a: seq<seq<Scalar>>, b: seq<seq<Scalar>>)
    ensures Join(a + b) == Join(a) + Join(b)
  {
    if a == [] {
      assert a + b == b;
    } else {
      AppendTail(a, b);
      JoinAppend(a[1..], b);
      AppendAssociative(a[0], Join(a[1..]), Join(b));
    }
  }

  lemma {:induction false} JoinLines(text: seq<Scalar>)
    ensures Join(LinesOf(text)) == text
    decreases |text|
  {
    if text != [] { JoinLines(text[FirstLineLength(text)..]); }
  }

  /** The size in bytes of the lines from index i on. */
  function SuffixBytes(lines: seq<seq<Scalar>>, i: nat): nat
    requires i <= |lines|
    decreases |lines| - i
  {
    if i == |lines| then 0 else |Encode(lines[i])| + SuffixBytes(lines, i + 1)
  }

  function Distance(target: int, bytes: int): nat { if target < bytes then bytes - target else target - bytes }

  /** Sizes on either side of the target and equally far from it are at the same distance. */
  lemma DistanceEitherSide(target: int, n: nat)
    ensures Distance(target, target + n) == n == Distance(target, target - n)
  {
  }

  /** Line index best starts the suffix closest to the target; a longer suffix is strictly further. */
  ghost predicate Closest(lines: seq<seq<Scalar>>, target: int, best: nat, from: nat)
    requires from <= best < |lines|
  {
    && (forall i :: from <= i < |lines| ==>
        Distance(target, SuffixBytes(lines, best)) <= Distance(target, SuffixBytes(lines, i)))
    && (forall i :: from <= i < best ==>
        Distance(target, SuffixBytes(lines, best)) < Distance(target, SuffixBytes(lines, i)))
  }

  lemma {:induction false} SuffixGrows(lines: seq<seq<Scalar>>, i: nat, j: nat)
    requires i < j <= |lines| && forall k :: 0 <= k < |lines| ==> lines[k] != []
    ensures SuffixBytes(lines, i) > SuffixBytes(lines, j)
    decreases j - i
  {
    assert |Encode(lines[i])| >= 1;
    if i + 1 < j { SuffixGrows(lines, i + 1, j); }
  }

  /** One line further back: a suffix at least as close takes over, a worse one does not. */
  lemma ClosestNext(lines: seq<seq<Scalar>>, target: int, best: nat, index: nat)
    requires index < best < |lines| && Closest(lines, target, best, index + 1)
    ensures if Distance(target, SuffixBytes(lines, index)) <= Distance(target, SuffixBytes(lines, best))
            then Closest(lines, target, index, index) else Closest(lines, target, best, index)
  {
  }

  /** The early exit is safe: past the target and already further than the best, longer suffixes
      only get further. */
  lemma LongerIsFurther(lines: seq<seq<Scalar>>, target: int, best: nat, index: nat)
    requires index < best < |lines| && forall k :: 0 <= k < |lines| ==> lines[k] != []
    requires Closest(lines, target, best, index) && SuffixBytes(lines, index) >= target
    ensures Closest(lines, target, best, 0)
  {
    forall i | 0 <= i < index
      ensures Distance(target, SuffixBytes(lines, best)) < Distance(target, SuffixBytes(lines, i))
    {
      SuffixGrows(lines, i, index);
    }
  }

  method SelectLineOverlap(text: seq<Scalar>, target: int) returns (r: Option<seq<Scalar>>)
    ensures r == None <==> target <= 0 || text == []
    ensures r.Some? ==>
      exists best :: 0 <= best < |LinesOf(text)| && Closest(LinesOf(text), target, best, 0)
                     && r.value == Join(LinesOf(text)[best..])
  {
    if target <= 0 || text == [] { return None; }
    var lines := LinesOf(text);
    var bestStart: nat := |lines| - 1;
    var bestDistance: Option<nat> := None;
    var tokens := 0;
    var index := |lines| - 1;
    while index >= 0
      invariant -1 <= index < |lines|
      invariant tokens == SuffixBytes(lines, index + 1)
      invariant bestDistance == None <==> index == |lines| - 1
      invariant bestDistance.Some? ==>
        (index < bestStart < |lines|
         && bestDistance.value == Distance(target, SuffixBytes(lines, bestStart))
         && Closest(lines, target, bestStart, index + 1))
    {
      tokens := tokens + |Encode(lines[index])|;
      var distance := Distance(target, tokens);
      if bestDistance.Some? { ClosestNext(lines, target, bestStart, index); }
      if bestDistance == None || distance <= bestDistance.value {
        bestStart := index;
        bestDistance := Some(distance);
      }
      if tokens >= target && distance > bestDistance.value {
        LongerIsFurther(lines, target, bestStart, index);
        break;
      }
      index := index - 1;
    }
    r := Some(Join(lines[bestStart..]));
  }

  /** What is selected is the end of the text, cut at a line start, and its size in bytes is the one
      the selection compared. */
  lemma SelectedIsSuffix(text: seq<Scalar>, best: nat)
    requires best < |LinesOf(text)|
    ensures text == Join(LinesOf(text)[..best]) + Join(LinesOf(text)[best..])
    ensures |Encode(Join(LinesOf(text)[best..]))| == SuffixBytes(LinesOf(text), best)
    ensures Join(LinesOf(text)[best..]) != []
  {
    var lines := LinesOf(text);
    JoinLines(text);
    JoinAppend(lines[..best], lines[best..]);
    SplitAt(lines, best, best);
    SuffixSize(lines, best);
    assert lines[best..][0] == lines[best];
  }

  lemma {:induction false} SuffixSize(lines: seq<seq<Scalar>>, i: nat)
    requires i <= |lines|
    ensures |Encode(Join(lines[i..]))| == SuffixBytes(lines, i)
    decreases |lines| - i
  {
    if i < |lines| {
      SuffixSize(lines, i + 1);
      assert lines[i..][1..] == lines[i + 1..];
      EncodeAppend(lines[i], Join(lines[i + 1..]));
    }
  }
}
