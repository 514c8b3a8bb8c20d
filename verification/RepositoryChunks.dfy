/** Overlapping, line-aligned retrieval chunks of one file. */
module RepositoryChunks {

  /** Lines start..end of a file; end is exclusive. */
  datatype Window = Window(start: nat, end: nat)

  function Chars(lines: seq<string>): (n: nat)
    ensures lines == [] ==> n == 0
    ensures |lines| == 1 ==> n == |lines[0]|
  {
    if lines == [] then 0 else Chars(lines[..|lines| - 1]) + |lines[|lines| - 1]|
  }

  /** How many characters an overlap aims at: a rounded share of the chunk, and at least one. */
  function OverlapTarget(rounded: nat -> nat, size: nat): (target: nat)
    ensures target >= 1 && target >= rounded(size) && target in {1, rounded(size)}
  {
    if rounded(size) > 1 then rounded(size) else 1
  }

  /** Grows a window from start while it fits the target; the first line always goes in. */
  function WindowEnd(lines: seq<string>, targetChars: nat, start: nat, end: nat): (r: nat)
    requires start <= end <= |lines|
    ensures end <= r <= |lines| && (start < |lines| ==> start < r)
    decreases |lines| - end
  {
    if end < |lines| && (Chars(lines[start..end]) + |lines[end]| <= targetChars || end == start)
    then WindowEnd(lines, targetChars, start, end + 1) else end
  }

  /** Steps back from the end of a window until the overlap is large enough, never to its start. */
  function StepBack(lines: seq<string>, start: nat, end: nat, target: nat, next: nat): (r: nat)
    requires start < next <= end <= |lines|
    ensures start < r <= next
    decreases next
  {
    if next > start + 1 && Chars(lines[next..end]) < target then StepBack(lines, start, end, target, next - 1) else next
  }

  function NextStart(lines: seq<string>, rounded: nat -> nat, start: nat, end: nat): (r: nat)
    requires start < end <= |lines|
    ensures start < r <= end
  {
    StepBack(lines, start, end, OverlapTarget(rounded, Chars(lines[start..end])), end)
  }

  /** The windows from a line on. */
  function Windows(lines: seq<string>, targetChars: nat, rounded: nat -> nat, start: nat): seq<Window>
    requires start < |lines|
    decreases |lines| - start
  {
    var end := WindowEnd(lines, targetChars, start, start);
    if end == |lines| then [Window(start, end)]
    else [Window(start, end)] + Windows(lines, targetChars, rounded, NextStart(lines, rounded, start, end))
  }

  lemma CharsPush(lines: seq<string>, start: nat, end: nat)
    requires start <= end < |lines|
    ensures Chars(lines[start..end + 1]) == Chars(lines[start..end]) + |lines[end]|
  {
    assert lines[start..end + 1][..end - start] == lines[start..end];
  }

  lemma {:induction false} CharsAppend(a: seq<string>, b: seq<string>)
    ensures Chars(a + b) == Chars(a) + Chars(b)
  {
    if b == [] {
      assert a + b == a;
    } else {
      var n := |b| - 1;
      assert (a + b)[..|a| + n] == a + b[..n];
      CharsAppend(a, b[..n]);
    }
  }

  lemma CharsFront(lines: seq<string>, start: nat, end: nat)
    requires start < end <= |lines|
    ensures Chars(lines[start..end]) == |lines[start]| + Chars(lines[start + 1..end])
  {
    assert lines[start..end] == [lines[start]] + lines[start + 1..end];
    CharsAppend([lines[start]], lines[start + 1..end]);
    assert [lines[start]][..0] == [];
  }

  /** Grows one window. */
  method GrowWindow(lines: seq<string>, targetChars: nat, start: nat) returns (end: nat, size: nat)
    requires start < |lines|
    ensures end == WindowEnd(lines, targetChars, start, start) && size == Chars(lines[start..end])
  {
    end, size := start, 0;
    while end < |lines| && (size + |lines[end]| <= targetChars || end == start)
      invariant start <= end <= |lines| && size == Chars(lines[start..end])
      invariant WindowEnd(lines, targetChars, start, end) == WindowEnd(lines, targetChars, start, start)
      decreases |lines| - end
    {
      CharsPush(lines, start, end);
      size := size + |lines[end]|;
      end := end + 1;
    }
  }

  /** Where the next window starts. */
  method StepBackFrom(lines: seq<string>, start: nat, end: nat, target: nat) returns (next: nat)
    requires start < end <= |lines|
    ensures next == StepBack(lines, start, end, target, end)
  {
    next := end;
    var overlap := 0;
    while next > start + 1 && overlap < target
      invariant start < next <= end && overlap == Chars(lines[next..end])
      invariant StepBack(lines, start, end, target, next) == StepBack(lines, start, end, target, end)
    {
      next := next - 1;
      CharsFront(lines, next, end);
      overlap := overlap + |lines[next]|;
    }
  }

  /** The windows of a file. An empty file has one empty line. */
  method FileWindows(source: seq<string>, targetChars: nat, rounded: nat -> nat) returns (windows: seq<Window>)
    ensures windows == Windows(if source == [] then [""] else source, targetChars, rounded, 0)
  {
    var lines := if source == [] then [""] else source;
    windows := [];
    var start := 0;
    while true
      invariant start < |lines|
      invariant windows + Windows(lines, targetChars, rounded, start) == Windows(lines, targetChars, rounded, 0)
      decreases |lines| - start
    {
      var end, size := GrowWindow(lines, targetChars, start);
      if end >= |lines| {
        windows := windows + [Window(start, end)];
        return;
      }
      var next := StepBackFrom(lines, start, end, OverlapTarget(rounded, size));
      WindowsPush(lines, targetChars, rounded, windows, start);
      windows := windows + [Window(start, end)];
      start := if next > start then next else end;
    }
  }

  lemma WindowsPush(lines: seq<string>, targetChars: nat, rounded: nat -> nat, before: seq<Window>, start: nat)
    requires start < |lines| && WindowEnd(lines, targetChars, start, start) < |lines|
    ensures var end := WindowEnd(lines, targetChars, start, start);
            before + Windows(lines, targetChars, rounded, start) ==
            before + [Window(start, end)] + Windows(lines, targetChars, rounded, NextStart(lines, rounded, start, end))
  {
  }

  // ---------- One window ----------

  ghost predicate Fits(lines: seq<string>, targetChars: nat, start: nat, end: nat)
    requires start <= end <= |lines|
  {
    Chars(lines[start..end]) <= targetChars || end <= start + 1
  }

  /** A window fits, and the line after it does not. */
  lemma {:induction false} WindowFits(lines: seq<string>, targetChars: nat, start: nat, end: nat)
    requires start <= end <= |lines| && Fits(lines, targetChars, start, end)
    ensures var r := WindowEnd(lines, targetChars, start, end);
            && Fits(lines, targetChars, start, r)
            && (r < |lines| && r > start ==> Chars(lines[start..r + 1]) > targetChars)
    decreases |lines| - end
  {
    if end < |lines| {
      CharsPush(lines, start, end);
      if Chars(lines[start..end]) + |lines[end]| <= targetChars || end == start {
        WindowFits(lines, targetChars, start, end + 1);
      }
    }
  }

  lemma {:induction false} CharsShrink(lines: seq<string>, start: nat, later: nat, end: nat)
    requires start <= later <= end <= |lines|
    ensures Chars(lines[later..end]) <= Chars(lines[start..end])
    decreases later
  {
    if start < later {
      CharsFront(lines, later - 1, end);
      CharsShrink(lines, start, later - 1, end);
    }
  }

  /** A window grows at least up to any end it fits with. */
  lemma {:induction false} WindowReaches(lines: seq<string>, targetChars: nat, start: nat, end: nat, goal: nat)
    requires start <= end <= goal <= |lines| && (Chars(lines[start..goal]) <= targetChars || goal <= start + 1)
    ensures WindowEnd(lines, targetChars, start, end) >= goal
    decreases |lines| - end
  {
    if end < goal {
      CharsPush(lines, start, end);
      if goal > start + 1 { PrefixSmaller(lines, start, end + 1, goal); }
      WindowReaches(lines, targetChars, start, end + 1, goal);
    }
  }

  lemma {:induction false} PrefixSmaller(lines: seq<string>, start: nat, end: nat, goal: nat)
    requires start <= end <= goal <= |lines|
    ensures Chars(lines[start..end]) <= Chars(lines[start..goal])
    decreases goal
  {
    if end < goal {
      CharsPush(lines, start, goal - 1);
      PrefixSmaller(lines, start, end, goal - 1);
    }
  }

  /** The overlap reaches its target, unless it is everything but the window's first line; it would
      not reach it with a line less. */
  lemma {:induction false} OverlapSize(lines: seq<string>, start: nat, end: nat, target: nat, next: nat)
    requires start < next <= end <= |lines| && (next < end ==> Chars(lines[next + 1..end]) < target)
    ensures var r := StepBack(lines, start, end, target, next);
            && (r == start + 1 || Chars(lines[r..end]) >= target)
            && (r < end ==> Chars(lines[r + 1..end]) < target)
    decreases next
  {
    if next > start + 1 && Chars(lines[next..end]) < target {
      OverlapSize(lines, start, end, target, next - 1);
    }
  }

  // ---------- All windows ----------

  /** The next window starts later, leaves no gap and ends no earlier; it ends where this one does
      exactly if it overlaps it and the line after does not fit. */
  lemma NextWindow(lines: seq<string>, targetChars: nat, rounded: nat -> nat, start: nat)
    requires start < |lines| && WindowEnd(lines, targetChars, start, start) < |lines|
    ensures var end := WindowEnd(lines, targetChars, start, start);
            var next := NextStart(lines, rounded, start, end);
            var nextEnd := WindowEnd(lines, targetChars, next, next);
            && start < next <= end <= nextEnd
            && (nextEnd == end <==> next < end && Chars(lines[next..end + 1]) > targetChars)
  {
    var end := WindowEnd(lines, targetChars, start, start);
    var next := NextStart(lines, rounded, start, end);
    WindowFits(lines, targetChars, start, start);
    CharsShrink(lines, start, next, end);
    WindowReaches(lines, targetChars, next, next, end);
    WindowFits(lines, targetChars, next, next);
    var nextEnd := WindowEnd(lines, targetChars, next, next);
    if nextEnd > end { PrefixSmaller(lines, next, end + 1, nextEnd); }
  }

  /** Ends do repeat: with a target of 3 and lines of 1, 2 and 2 characters, the second window lies
      within the first. */
  lemma RepeatedEnd(rounded: nat -> nat)
    requires rounded(3) <= 2
    ensures Windows(["a", "bc", "de"], 3, rounded, 0) == [Window(0, 2), Window(1, 2), Window(2, 3)]
  {
    var lines := ["a", "bc", "de"];
    CharsOf(lines);
    assert WindowEnd(lines, 3, 0, 0) == 2;
    assert NextStart(lines, rounded, 0, 2) == 1;
    assert WindowEnd(lines, 3, 1, 1) == 2;
    assert NextStart(lines, rounded, 1, 2) == 2;
    assert WindowEnd(lines, 3, 2, 2) == 3;
  }

  lemma CharsOf(lines: seq<string>)
    requires lines == ["a", "bc", "de"]
    ensures Chars(lines[0..0]) == 0 && Chars(lines[0..1]) == 1 && Chars(lines[0..2]) == 3
    ensures Chars(lines[1..1]) == 0 && Chars(lines[1..2]) == 2 && Chars(lines[2..2]) == 0 && Chars(lines[2..3]) == 2
  {
    CharsPush(lines, 0, 0);
    CharsPush(lines, 0, 1);
    CharsPush(lines, 1, 1);
    CharsPush(lines, 2, 2);
  }

  /** Neighbouring windows have increasing starts, ends that do not decrease, and no gap. */
  ghost predicate Advances(a: Window, b: Window) { a.start < b.start <= a.end <= b.end }

  ghost predicate Covers(windows: seq<Window>, lines: seq<string>, targetChars: nat, start: nat)
  {
    && windows != [] && windows[0].start == start && windows[|windows| - 1].end == |lines|
    && (forall k :: 0 <= k < |windows| ==>
         windows[k].start < windows[k].end <= |lines| && Fits(lines, targetChars, windows[k].start, windows[k].end))
    && (forall k :: 0 < k < |windows| ==> Advances(windows[k - 1], windows[k]))
  }

  /** The windows leave out no line, advance, and are each within the target or a single line. */
  lemma {:induction false} WindowsCover(lines: seq<string>, targetChars: nat, rounded: nat -> nat, start: nat)
    requires start < |lines|
    ensures Covers(Windows(lines, targetChars, rounded, start), lines, targetChars, start)
    decreases |lines| - start
  {
    var end := WindowEnd(lines, targetChars, start, start);
    WindowFits(lines, targetChars, start, start);
    if end < |lines| {
      var next := NextStart(lines, rounded, start, end);
      NextWindow(lines, targetChars, rounded, start);
      WindowsCover(lines, targetChars, rounded, next);
      CoversPush(Window(start, end), Windows(lines, targetChars, rounded, next), lines, targetChars);
    }
  }

  lemma CoversPush(w: Window, rest: seq<Window>, lines: seq<string>, targetChars: nat)
    requires rest != [] && Covers(rest, lines, targetChars, rest[0].start) && Advances(w, rest[0])
    requires w.start < w.end <= |lines| && Fits(lines, targetChars, w.start, w.end)
    ensures Covers([w] + rest, lines, targetChars, w.start)
  {
    var all := [w] + rest;
    forall k | 0 < k < |all|
      ensures Advances(all[k - 1], all[k])
    {
      if k > 1 { assert all[k - 1] == rest[k - 2] && all[k] == rest[k - 1]; }
    }
  }

  /** One window follows another: it repeats as many of its last lines as it takes to reach the rounded
      share of its characters, or one character, but never its first line; and the line behind it did not fit. */
  ghost predicate Follows(lines: seq<string>, targetChars: nat, rounded: nat -> nat, a: Window, b: Window)
  {
    && a.start < b.start <= a.end < |lines|
    && Chars(lines[a.start..a.end + 1]) > targetChars
    && var share := rounded(Chars(lines[a.start..a.end]));
       var overlap := Chars(lines[b.start..a.end]);
       && (b.start == a.start + 1 || (overlap >= share && overlap >= 1))
       && (b.start < a.end ==> Chars(lines[b.start + 1..a.end]) < share || Chars(lines[b.start + 1..a.end]) < 1)
  }

  lemma {:induction false} WindowsFollow(lines: seq<string>, targetChars: nat, rounded: nat -> nat, start: nat, k: nat)
    requires start < |lines| && k < |Windows(lines, targetChars, rounded, start)| - 1
    ensures var windows := Windows(lines, targetChars, rounded, start);
            Follows(lines, targetChars, rounded, windows[k], windows[k + 1])
    decreases |lines| - start
  {
    var end := WindowEnd(lines, targetChars, start, start);
    var next := NextStart(lines, rounded, start, end);
    var rest := Windows(lines, targetChars, rounded, next);
    assert Windows(lines, targetChars, rounded, start) == [Window(start, end)] + rest;
    if k > 0 {
      WindowsFollow(lines, targetChars, rounded, next, k - 1);
    } else {
      assert rest[0].start == next;
      NextFollows(lines, targetChars, rounded, start, rest[0].end);
    }
  }

  lemma NextFollows(lines: seq<string>, targetChars: nat, rounded: nat -> nat, start: nat, nextEnd: nat)
    requires start < |lines| && WindowEnd(lines, targetChars, start, start) < |lines|
    ensures var end := WindowEnd(lines, targetChars, start, start);
            var next := NextStart(lines, rounded, start, end);
            Follows(lines, targetChars, rounded, Window(start, end), Window(next, nextEnd))
  {
    var end := WindowEnd(lines, targetChars, start, start);
    WindowFits(lines, targetChars, start, start);
    OverlapSize(lines, start, end, OverlapTarget(rounded, Chars(lines[start..end])), end);
  }

  /** The lines of the windows, each without what the windows before it already have. */
  function WithoutOverlaps(lines: seq<string>, windows: seq<Window>, done: nat): seq<string>
    requires forall k :: 0 <= k < |windows| ==> windows[k].end <= |lines|
    requires windows != [] ==> done <= windows[0].end
    requires forall k :: 0 < k < |windows| ==> windows[k - 1].end <= windows[k].end
  {
    if windows == [] then [] else lines[done..windows[0].end] + WithoutOverlaps(lines, windows[1..], windows[0].end)
  }

  /** Dropping the overlaps gives back the file, each window giving only lines of its own. */
  lemma {:induction false} WindowsRebuild(lines: seq<string>, windows: seq<Window>, targetChars: nat, done: nat)
    requires windows != [] && Covers(windows, lines, targetChars, windows[0].start)
    requires windows[0].start <= done <= windows[0].end
    ensures WithoutOverlaps(lines, windows, done) == lines[done..]
    decreases |windows|
  {
    var end := windows[0].end;
    if |windows| == 1 {
      assert WithoutOverlaps(lines, windows[1..], end) == [];
      assert lines[done..end] == lines[done..];
    } else {
      assert Advances(windows[0], windows[1]);
      TailCovers(windows, lines, targetChars);
      WindowsRebuild(lines, windows[1..], targetChars, end);
      assert lines[done..end] + lines[end..] == lines[done..];
    }
  }

  lemma TailCovers(windows: seq<Window>, lines: seq<string>, targetChars: nat)
    requires |windows| >= 2 && Covers(windows, lines, targetChars, windows[0].start)
    ensures Covers(windows[1..], lines, targetChars, windows[1].start)
  {
    var rest := windows[1..];
    forall k | 0 < k < |rest|
      ensures Advances(rest[k - 1], rest[k])
    {
      assert rest[k - 1] == windows[k] && rest[k] == windows[k + 1];
    }
  }

  /** Every file is rebuilt from its windows. */
  lemma FileRebuilt(lines: seq<string>, targetChars: nat, rounded: nat -> nat)
    requires lines != []
    ensures Covers(Windows(lines, targetChars, rounded, 0), lines, targetChars, 0)
    ensures WithoutOverlaps(lines, Windows(lines, targetChars, rounded, 0), 0) == lines
  {
    WindowsCover(lines, targetChars, rounded, 0);
    WindowsRebuild(lines, Windows(lines, targetChars, rounded, 0), targetChars, 0);
  }
}
