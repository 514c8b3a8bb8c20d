/** The chat stream: frames printed by the server, and the client loop that reassembles them from
    fragments of text. */
module Sse {
  import opened Options
  import opened SeqFacts

  datatype Event = Event(name: string, payload: string)

  // ---------- Printing ----------

  function FrameText(e: Event): string { "event: " + e.name + "\ndata: " + e.payload }

  function Sse(e: Event): string { FrameText(e) + "\n\n" }

  function PrintAll(es: seq<Event>): string
  {
    if es == [] then "" else Sse(es[0]) + PrintAll(es[1..])
  }

  /** Event names and payloads as the server makes them: one line, without outer whitespace. */
  predicate OneLine(s: string)
  {
    '\n' !in s && '\r' !in s && NoOuterSpace(s)
  }

  predicate Printable(e: Event) { OneLine(e.name) && OneLine(e.payload) }

  predicate AllPrintable(es: seq<Event>) { forall i :: 0 <= i < |es| ==> Printable(es[i]) }

  // ---------- Text operations of the client ----------

  predicate IsSpace(c: char)
  {
    c == ' ' || c == '\t' || c == '\n' || c == '\r' || c == '\U{000B}' || c == '\U{000C}'
    || c == '\U{00A0}' || c == '\U{FEFF}' || c == '\U{1680}' || ('\U{2000}' <= c <= '\U{200A}')
    || c == '\U{2028}' || c == '\U{2029}' || c == '\U{202F}' || c == '\U{205F}' || c == '\U{3000}'
  }

  function TrimStart(s: string): string
  {
    if s != [] && IsSpace(s[0]) then TrimStart(s[1..]) else s
  }

  function TrimEnd(s: string): string
  {
    if s != [] && IsSpace(s[|s| - 1]) then TrimEnd(s[..|s| - 1]) else s
  }

  function Trim(s: string): string { TrimEnd(TrimStart(s)) }

  predicate NoOuterSpace(s: string) { s != [] ==> !IsSpace(s[0]) && !IsSpace(s[|s| - 1]) }

  predicate AllSpace(s: string) { forall i :: 0 <= i < |s| ==> IsSpace(s[i]) }

  /** Trimming removes the white space around a text and nothing else. */
  lemma {:induction false} TrimIs(before: string, s: string, after: string)
    requires AllSpace(before) && NoOuterSpace(s) && AllSpace(after)
    ensures Trim(before + s + after) == s
  {
    var all := before + s + after;
    if before != [] {
      assert all[0] == before[0] && all[1..] == before[1..] + s + after;
      TrimIs(before[1..], s, after);
    } else if s == [] {
      assert all == after;
      AllTrimmed(after);
    } else {
      assert all == s + after && all[0] == s[0];
      EndTrimmed(s, after);
    }
  }

  lemma {:induction false} AllTrimmed(s: string)
    requires AllSpace(s)
    ensures Trim(s) == []
  {
    if s != [] { AllTrimmed(s[1..]); }
  }

  lemma {:induction false} EndTrimmed(s: string, after: string)
    requires s != [] && NoOuterSpace(s) && AllSpace(after)
    ensures TrimEnd(s + after) == s
  {
    if after == [] {
      assert s + after == s;
    } else {
      var n := |after| - 1;
      assert (s + after)[|s| + n] == after[n] && (s + after)[..|s| + n] == s + after[..n];
      EndTrimmed(s, after[..n]);
    }
  }

  predicate StartsWith(s: string, prefix: string) { prefix <= s }

  /** Line ends of two characters become newlines. */
  function Normalize(s: string): string
  {
    if |s| >= 2 && s[0] == '\r' && s[1] == '\n' then "\n" + Normalize(s[2..])
    else if s == [] then []
    else [s[0]] + Normalize(s[1..])
  }

  predicate BreakAt(text: string, i: nat) { i + 2 <= |text| && text[i] == '\n' && text[i + 1] == '\n' }

  /** The first blank line, or the length of the text when there is none. */
  function FirstBreak(text: string, from: nat): (i: nat)
    requires from <= |text|
    ensures from <= i <= |text|
    ensures i < |text| ==> BreakAt(text, i)
    ensures forall j :: from <= j < i ==> !BreakAt(text, j)
    decreases |text| - from
  {
    if from == |text| || BreakAt(text, from) then from else FirstBreak(text, from + 1)
  }

  datatype Frames = Frames(frames: seq<string>, rest: string)

  /** Splitting at blank lines and keeping the last piece. */
  function SplitFrames(text: string): Frames
    decreases |text|
  {
    var i := FirstBreak(text, 0);
    if i == |text| then Frames([], text)
    else
      var tail := SplitFrames(text[i + 2..]);
      Frames([text[..i]] + tail.frames, tail.rest)
  }

  function SplitLines(text: string): (lines: seq<string>)
    ensures lines != []
    decreases |text|
  {
    if '\n' !in text then [text]
    else
      var i := FirstNewline(text);
      [text[..i]] + SplitLines(text[i + 1..])
  }

  function FirstNewline(text: string): (i: nat)
    requires '\n' in text
    ensures i < |text| && text[i] == '\n' && forall j :: 0 <= j < i ==> text[j] != '\n'
  {
    if text[0] == '\n' then 0 else 1 + FirstNewline(text[1..])
  }

  function JoinLines(lines: seq<string>): string
  {
    if lines == [] then "" else if |lines| == 1 then lines[0] else lines[0] + "\n" + JoinLines(lines[1..])
  }

  // ---------- Parsing ----------

  /** The event name and the data lines read so far. */
  datatype Reading = Reading(name: string, data: seq<string>)

  function ReadLine(r: Reading, line: string): Reading
  {
    var named := if StartsWith(line, "event:") then r.(name := Trim(line[6..])) else r;
    if StartsWith(line, "data:") then named.(data := named.data + [Trim(line[5..])]) else named
  }

  function ReadLines(lines: seq<string>): Reading
  {
    if lines == [] then Reading("message", []) else ReadLine(ReadLines(lines[..|lines| - 1]), lines[|lines| - 1])
  }

  /** A frame without data is skipped. */
  function ParseFrame(frame: string): Option<Event>
  {
    var r := ReadLines(SplitLines(frame));
    if r.data == [] then None else Some(Event(r.name, JoinLines(r.data)))
  }

  function ParseFrames(frames: seq<string>): seq<Event>
  {
    if frames == [] then []
    else
      match ParseFrame(frames[0])
      case None => ParseFrames(frames[1..])
      case Some(e) => [e] + ParseFrames(frames[1..])
  }

  // ---------- Handlers ----------

  datatype Call = OnSources(payload: string) | OnDelta(payload: string)

  datatype End = Resolved | ApiError(payload: string) | InvalidJson

  /** The handler calls made and how the conversation stands: None while it goes on. */
  datatype Talk = Talk(calls: seq<Call>, end: Option<End>)

  function Handle(t: Talk, e: Event, parses: string -> bool): Talk
  {
    if t.end.Some? then t
    else if !parses(e.payload) then t.(end := Some(InvalidJson))
    else if e.name == "sources" then t.(calls := t.calls + [OnSources(e.payload)])
    else if e.name == "delta" then t.(calls := t.calls + [OnDelta(e.payload)])
    else if e.name == "error" then t.(end := Some(ApiError(e.payload)))
    else t
  }

  function HandleAll(t: Talk, es: seq<Event>, parses: string -> bool): Talk
    decreases |es|
  {
    if es == [] then t else HandleAll(Handle(t, es[0], parses), es[1..], parses)
  }

  class Handlers {
    var calls: seq<Call>
    constructor ()
      ensures calls == []
    {
      calls := [];
    }
  }

  /** The frame loop's body: the lines of one frame. */
  method ReadFrame(frame: string) returns (e: Option<Event>)
    ensures e == ParseFrame(frame)
  {
    var event := "message";
    var data: seq<string> := [];
    var lines := SplitLines(frame);
    for i := 0 to |lines|
      invariant Reading(event, data) == ReadLines(lines[..i])
    {
      var line := lines[i];
      assert lines[..i + 1][..i] == lines[..i];
      if StartsWith(line, "event:") { event := Trim(line[6..]); }
      if StartsWith(line, "data:") { data := data + [Trim(line[5..])]; }
    }
    assert lines[..|lines|] == lines;
    if data == [] { return None; }
    return Some(Event(event, JoinLines(data)));
  }

  /** Calls the handlers for the frames of one read. */
  method Dispatch(frames: seq<string>, handlers: Handlers, parses: string -> bool) returns (end: Option<End>)
    modifies handlers
    ensures Talk(handlers.calls, end) == HandleAll(Talk(old(handlers.calls), None), ParseFrames(frames), parses)
  {
    end := None;
    var rest := frames;
    while rest != []
      invariant HandleAll(Talk(handlers.calls, end), ParseFrames(rest), parses) ==
                HandleAll(Talk(old(handlers.calls), None), ParseFrames(frames), parses)
      invariant end == None
      decreases |rest|
    {
      var e := ReadFrame(rest[0]);
      if e.Some? {
        ghost var later := ParseFrames(rest[1..]);
        assert ParseFrames(rest) == [e.value] + later && ([e.value] + later)[1..] == later;
        var payload := e.value.payload;
        if !parses(payload) {
          HandleEnded(Talk(handlers.calls, Some(InvalidJson)), later, parses);
          return Some(InvalidJson);
        }
        if e.value.name == "sources" { handlers.calls := handlers.calls + [OnSources(payload)]; }
        if e.value.name == "delta" { handlers.calls := handlers.calls + [OnDelta(payload)]; }
        if e.value.name == "error" {
          HandleEnded(Talk(handlers.calls, Some(ApiError(payload))), later, parses);
          return Some(ApiError(payload));
        }
      }
      rest := rest[1..];
    }
  }

  lemma {:induction false} HandleEnded(t: Talk, es: seq<Event>, parses: string -> bool)
    requires t.end.Some?
    ensures HandleAll(t, es, parses) == t
    decreases |es|
  {
    if es != [] { HandleEnded(t, es[1..], parses); }
  }

  /** What the client does with a text that arrives in these fragments. */
  datatype Stream = Stream(buffer: string, talk: Talk)

  function Receive(s: Stream, fragment: string, parses: string -> bool): Stream
  {
    if s.talk.end.Some? then s
    else
      var split := SplitFrames(s.buffer + Normalize(fragment));
      Stream(split.rest, HandleAll(s.talk, ParseFrames(split.frames), parses))
  }

  function ReceiveAll(fragments: seq<string>, parses: string -> bool): Stream
  {
    if fragments == [] then Stream("", Talk([], None))
    else Receive(ReceiveAll(fragments[..|fragments| - 1], parses), fragments[|fragments| - 1], parses)
  }

  /** The reads of a stream: its fragments and the empty one that reports the end. */
  function Reads(fragments: seq<string>): seq<string> { fragments + [""] }

  /** The read loop. */
  method StreamChat(fragments: seq<string>, handlers: Handlers, parses: string -> bool)
    returns (end: End, ghost buffer: string)
    requires handlers.calls == []
    modifies handlers
    ensures var s := ReceiveAll(Reads(fragments), parses);
            && handlers.calls == s.talk.calls && end == (if s.talk.end.Some? then s.talk.end.value else Resolved)
            && (s.talk.end == None ==> buffer == s.buffer)
  {
    var pieces := Reads(fragments);
    var text := "";
    for i := 0 to |pieces|
      invariant ReceiveAll(pieces[..i], parses) == Stream(text, Talk(handlers.calls, None))
    {
      ReceiveNext(pieces, i, parses);
      var thrown;
      text, thrown := ReadOnce(text, pieces[i], handlers, parses);
      if thrown.Some? {
        EndedStays(pieces, i + 1, parses);
        return thrown.value, text;
      }
    }
    assert pieces[..|pieces|] == pieces;
    return Resolved, text;
  }

  lemma ReceiveNext(pieces: seq<string>, i: nat, parses: string -> bool)
    requires i < |pieces|
    ensures ReceiveAll(pieces[..i + 1], parses) == Receive(ReceiveAll(pieces[..i], parses), pieces[i], parses)
  {
    assert pieces[..i + 1][..i] == pieces[..i];
  }

  /** One read: the frames it completes are dispatched, the rest stays in the buffer. */
  method ReadOnce(text: string, fragment: string, handlers: Handlers, parses: string -> bool)
    returns (rest: string, thrown: Option<End>)
    modifies handlers
    ensures Stream(rest, Talk(handlers.calls, thrown)) ==
            Receive(Stream(text, Talk(old(handlers.calls), None)), fragment, parses)
  {
    var split := SplitFrames(text + Normalize(fragment));
    rest := split.rest;
    thrown := Dispatch(split.frames, handlers, parses);
  }

  lemma {:induction false} EndedStays(fragments: seq<string>, i: nat, parses: string -> bool)
    requires i <= |fragments| && ReceiveAll(fragments[..i], parses).talk.end.Some?
    ensures ReceiveAll(fragments, parses).talk == ReceiveAll(fragments[..i], parses).talk
    decreases |fragments|
  {
    if i < |fragments| {
      var n := |fragments| - 1;
      assert fragments[..n][..i] == fragments[..i];
      EndedStays(fragments[..n], i, parses);
    } else {
      assert fragments[..i] == fragments;
    }
  }

  lemma {:induction false} RestUnbroken(text: string)
    ensures SplitFrames(SplitFrames(text).rest) == Frames([], SplitFrames(text).rest)
    decreases |text|
  {
    var i := FirstBreak(text, 0);
    if i < |text| { RestUnbroken(text[i + 2..]); }
  }

  /** The last, empty read changes nothing. */
  lemma LastReadEmpty(fragments: seq<string>, parses: string -> bool)
    ensures ReceiveAll(Reads(fragments), parses) == ReceiveAll(fragments, parses)
  {
    ReceiveNext(Reads(fragments), |fragments|, parses);
    assert Reads(fragments)[..|fragments|] == fragments && Reads(fragments)[..|fragments| + 1] == Reads(fragments);
    var text := ReceiveAll(fragments, parses).buffer;
    assert text + Normalize("") == text;
    if fragments == [] {
      assert FirstBreak("", 0) == 0;
    } else {
      var before := ReceiveAll(fragments[..|fragments| - 1], parses);
      if before.talk.end == None {
        RestUnbroken(before.buffer + Normalize(fragments[|fragments| - 1]));
      }
    }
  }

  // ---------- Fragmentation ----------

  lemma {:induction false} BreakInFirstPart(a: string, b: string, from: nat)
    requires from <= |a| && FirstBreak(a, from) < |a|
    ensures FirstBreak(a + b, from) == FirstBreak(a, from)
    decreases |a| - from
  {
    assert BreakAt(a, from) == BreakAt(a + b, from) || from + 2 > |a|;
    if !BreakAt(a, from) {
      BreakInFirstPart(a, b, from + 1);
      assert from + 2 <= |a|;
    }
  }

  /** Splitting a text at once, or a first part and then what is left of it with the second part,
      gives the same frames and the same rest. */
  lemma {:induction false} SplitInParts(a: string, b: string)
    ensures var first := SplitFrames(a);
            var second := SplitFrames(first.rest + b);
            SplitFrames(a + b) == Frames(first.frames + second.frames, second.rest)
    decreases |a|
  {
    var i := FirstBreak(a, 0);
    if i < |a| {
      BreakInFirstPart(a, b, 0);
      AppendSlices(a, b, i);
      var tail := SplitFrames(a[i + 2..]);
      SplitInParts(a[i + 2..], b);
      AppendAssociative([a[..i]], tail.frames, SplitFrames(tail.rest + b).frames);
    } else {
      assert SplitFrames(a) == Frames([], a);
      assert [] + SplitFrames(a + b).frames == SplitFrames(a + b).frames;
    }
  }

  lemma AppendSlices(a: string, b: string, i: nat)
    requires i + 2 <= |a|
    ensures (a + b)[i + 2..] == a[i + 2..] + b && (a + b)[..i] == a[..i]
  {
  }

  lemma {:induction false} ParseInParts(a: seq<string>, b: seq<string>)
    ensures ParseFrames(a + b) == ParseFrames(a) + ParseFrames(b)
    decreases |a|
  {
    if a == [] {
      assert a + b == b;
    } else {
      AppendTail(a, b);
      ParseInParts(a[1..], b);
    }
  }

  lemma {:induction false} HandleInParts(t: Talk, a: seq<Event>, b: seq<Event>, parses: string -> bool)
    ensures HandleAll(t, a + b, parses) == HandleAll(HandleAll(t, a, parses), b, parses)
    decreases |a|
  {
    if a == [] {
      assert a + b == b;
    } else {
      AppendTail(a, b);
      HandleInParts(Handle(t, a[0], parses), a[1..], b, parses);
    }
  }

  function Flatten(fragments: seq<string>): string
  {
    if fragments == [] then "" else Flatten(fragments[..|fragments| - 1]) + fragments[|fragments| - 1]
  }

  /** A text without carriage returns is not changed by the line-end rule. */
  lemma {:induction false} NormalizePlain(s: string)
    requires '\r' !in s
    ensures Normalize(s) == s
  {
    if s != [] { NormalizePlain(s[1..]); }
  }

  predicate CutsLineEnd(a: string, b: string)
  {
    a != [] && b != [] && a[|a| - 1] == '\r' && b[0] == '\n'
  }

  /** The line-end rule applied to two parts gives the rule applied to the whole exactly when the cut
      does not fall inside a two-character line end. */
  lemma {:induction false} NormalizeInParts(a: string, b: string)
    ensures Normalize(a) + Normalize(b) == Normalize(a + b) <==> !CutsLineEnd(a, b)
    ensures CutsLineEnd(a, b) ==> |Normalize(a + b)| < |Normalize(a)| + |Normalize(b)|
    decreases |a|
  {
    if a == [] {
      assert a + b == b;
    } else if |a| >= 2 && a[0] == '\r' && a[1] == '\n' {
      assert (a + b)[2..] == a[2..] + b;
      NormalizeInParts(a[2..], b);
      AppendAssociative("\n", Normalize(a[2..]), Normalize(b));
    } else if |a| >= 2 || b == [] || a[0] != '\r' || b[0] != '\n' {
      AppendTail(a, b);
      NormalizeInParts(a[1..], b);
      AppendAssociative([a[0]], Normalize(a[1..]), Normalize(b));
    } else {
      NormalizeCut(b);
      assert a == ['\r'];
    }
  }

  lemma NormalizeCut(b: string)
    requires b != [] && b[0] == '\n'
    ensures Normalize(['\r'] + b) == ['\n'] + Normalize(b[1..])
    ensures Normalize(b) == ['\n'] + Normalize(b[1..]) && Normalize(['\r']) == ['\r']
  {
    assert (['\r'] + b)[2..] == b[1..];
    assert ['\r'][1..] == [];
  }

  /** The border before the ith fragment falls inside a two-character line end. */
  predicate CutAt(fragments: seq<string>, i: nat)
    requires i < |fragments|
  {
    CutsLineEnd(Flatten(fragments[..i]), fragments[i])
  }

  /** No fragment border falls inside a two-character line end. */
  ghost predicate WholeLineEnds(fragments: seq<string>)
  {
    forall i :: 0 <= i < |fragments| ==> !CutAt(fragments, i)
  }

  lemma CutBefore(fragments: seq<string>, n: nat, i: nat)
    requires i < n <= |fragments|
    ensures CutAt(fragments[..n], i) == CutAt(fragments, i)
  {
    assert fragments[..n][..i] == fragments[..i];
  }

  lemma WholeBefore(fragments: seq<string>)
    requires fragments != []
    ensures var n := |fragments| - 1;
            WholeLineEnds(fragments) <==> WholeLineEnds(fragments[..n]) && !CutAt(fragments, n)
  {
    var n := |fragments| - 1;
    forall i | 0 <= i < n
      ensures CutAt(fragments[..n], i) == CutAt(fragments, i)
    {
      CutBefore(fragments, n, i);
    }
  }

  lemma PlainWholeLineEnds(fragments: seq<string>)
    requires '\r' !in Flatten(fragments)
    ensures WholeLineEnds(fragments)
  {
    forall i | 0 <= i < |fragments|
      ensures !CutAt(fragments, i)
    {
      FlattenPrefix(fragments, i);
    }
  }

  lemma {:induction false} FlattenPrefix(fragments: seq<string>, i: nat)
    requires i <= |fragments|
    ensures Flatten(fragments[..i]) <= Flatten(fragments)
    decreases |fragments|
  {
    if i < |fragments| {
      var n := |fragments| - 1;
      FlattenPrefix(fragments[..n], i);
      assert fragments[..n][..i] == fragments[..i];
    } else {
      assert fragments[..i] == fragments;
    }
  }

  /** What the client makes of the whole text in one piece. */
  function Whole(text: string, parses: string -> bool): Stream
  {
    var split := SplitFrames(text);
    Stream(split.rest, HandleAll(Talk([], None), ParseFrames(split.frames), parses))
  }

  /** For every text and every way to cut it into fragments that leaves its line ends whole, the
      handler calls and the end are those of the uncut text, and so is the final buffer unless the
      client stopped at an error. */
  lemma {:induction false} FragmentationIrrelevant(fragments: seq<string>, parses: string -> bool)
    requires WholeLineEnds(fragments)
    ensures var s, whole := ReceiveAll(fragments, parses), Whole(Normalize(Flatten(fragments)), parses);
            && s.talk == whole.talk
            && (s.talk.end == None ==> s.buffer == whole.buffer)
  {
    if fragments == [] {
      assert FirstBreak("", 0) == 0;
    } else {
      var n := |fragments| - 1;
      WholeBefore(fragments);
      FragmentationIrrelevant(fragments[..n], parses);
      NormalizeInParts(Flatten(fragments[..n]), fragments[n]);
      WholeInParts(Normalize(Flatten(fragments[..n])), Normalize(fragments[n]), parses);
    }
  }

  /** Going on from what a first part left behind is the same as taking both parts at once. */
  lemma WholeInParts(a: string, b: string, parses: string -> bool)
    ensures var first, whole := Whole(a, parses), Whole(a + b, parses);
            var second := SplitFrames(first.buffer + b);
            && (first.talk.end == None ==>
                whole == Stream(second.rest, HandleAll(first.talk, ParseFrames(second.frames), parses)))
            && (first.talk.end.Some? ==> whole.talk == first.talk)
  {
    SplitInParts(a, b);
    var first := SplitFrames(a);
    var second := SplitFrames(first.rest + b);
    ParseInParts(first.frames, second.frames);
    HandleInParts(Talk([], None), ParseFrames(first.frames), ParseFrames(second.frames), parses);
    if Whole(a, parses).talk.end.Some? {
      HandleEnded(Whole(a, parses).talk, ParseFrames(second.frames), parses);
    }
  }

  // ---------- Round trip ----------

  lemma FrameParses(e: Event)
    requires Printable(e)
    ensures ParseFrame(FrameText(e)) == Some(e)
  {
    var first, second := "event: " + e.name, "data: " + e.payload;
    assert FrameText(e) == first + "\n" + second;
    OneNewline(first, second);
    EventLine(e.name);
    DataLine(e.name, e.payload);
    assert [first, second][..1] == [first] && [first][..0] == [];
    assert ReadLines([first]) == ReadLine(ReadLines([]), first);
    assert ReadLines([first, second]) == ReadLine(ReadLines([first]), second);
  }

  lemma EventLine(name: string)
    requires OneLine(name)
    ensures ReadLine(Reading("message", []), "event: " + name) == Reading(name, [])
  {
    var line := "event: " + name;
    assert line[6..] == " " + name && line[0] == 'e';
    TrimSpace(name);
    assert !StartsWith(line, "data:");
  }

  lemma DataLine(name: string, payload: string)
    requires OneLine(payload)
    ensures ReadLine(Reading(name, []), "data: " + payload) == Reading(name, [payload])
  {
    var line := "data: " + payload;
    assert line[5..] == " " + payload && line[0] == 'd';
    TrimSpace(payload);
    assert !StartsWith(line, "event:");
  }

  lemma TrimSpace(s: string)
    requires NoOuterSpace(s)
    ensures Trim(" " + s) == s
  {
    assert " " + s == " " + s + [];
    TrimIs(" ", s, []);
  }

  lemma OneNewline(first: string, second: string)
    requires '\n' !in first && '\n' !in second
    ensures SplitLines(first + "\n" + second) == [first, second]
  {
    var text := first + "\n" + second;
    assert text[|first|] == '\n';
    var i := FirstNewline(text);
    assert forall j :: 0 <= j < |first| ==> text[j] == first[j];
    assert i == |first|;
    assert text[..i] == first && text[i + 1..] == second;
  }

  /** A frame's text has its only blank line at its end. */
  lemma FrameBreak(e: Event, tail: string)
    requires Printable(e)
    ensures FirstBreak(Sse(e) + tail, 0) == |FrameText(e)|
  {
    var text, n := Sse(e) + tail, |FrameText(e)|;
    var k := |"event: " + e.name|;
    FrameTextShape(e);
    assert BreakAt(text, n);
    forall j | 0 <= j < n
      ensures !BreakAt(text, j)
    {
      assert text[j] == FrameText(e)[j];
      if j == k { assert text[j + 1] == FrameText(e)[j + 1]; }
    }
    BreakUnique(text, 0, n);
  }

  lemma FrameTextShape(e: Event)
    requires Printable(e)
    ensures var k := |"event: " + e.name|;
            forall j :: 0 <= j < |FrameText(e)| ==> (FrameText(e)[j] == '\n' <==> j == k)
    ensures var k := |"event: " + e.name|; k + 1 < |FrameText(e)| && FrameText(e)[k + 1] == 'd'
  {
    var first, second := "event: " + e.name, "data: " + e.payload;
    assert FrameText(e) == first + "\n" + second;
    assert '\n' !in first && '\n' !in second;
  }

  lemma BreakUnique(text: string, from: nat, n: nat)
    requires from <= n < |text| && BreakAt(text, n) && forall j :: from <= j < n ==> !BreakAt(text, j)
    ensures FirstBreak(text, from) == n
  {
  }

  function FrameTexts(es: seq<Event>): seq<string>
  {
    if es == [] then [] else [FrameText(es[0])] + FrameTexts(es[1..])
  }

  /** The first n characters of a printed list hold exactly k frames in full. */
  ghost predicate HoldsInFull(es: seq<Event>, n: nat, k: nat)
  {
    && k <= |es| && |PrintAll(es[..k])| <= n
    && (k < |es| ==> n < |PrintAll(es[..k + 1])|)
  }

  lemma HoldsMore(es: seq<Event>, n: nat, m: nat)
    requires es != [] && |Sse(es[0])| <= n && HoldsInFull(es[1..], n - |Sse(es[0])|, m)
    ensures HoldsInFull(es, n, m + 1)
    ensures PrintAll(es[..m + 1]) == Sse(es[0]) + PrintAll(es[1..][..m])
    ensures FrameTexts(es[..m + 1]) == [FrameText(es[0])] + FrameTexts(es[1..][..m])
  {
    PrintedPrefix(es, m + 1);
    if m + 1 < |es| { PrintedPrefix(es, m + 2); }
  }

  /** They split into those frames and what follows them. */
  ghost predicate SplitsInto(es: seq<Event>, n: nat, k: nat)
    requires n <= |PrintAll(es)|
  {
    && HoldsInFull(es, n, k)
    && SplitFrames(PrintAll(es)[..n]) == Frames(FrameTexts(es[..k]), PrintAll(es)[|PrintAll(es[..k])|..n])
  }

  lemma SplitsIntoEmpty(n: nat)
    requires n == 0
    ensures SplitsInto([], n, 0)
  {
    assert FirstBreak("", 0) == 0;
  }

  lemma SplitsIntoNone(es: seq<Event>, n: nat)
    requires AllPrintable(es) && es != [] && n < |Sse(es[0])| && n <= |PrintAll(es)|
    ensures SplitsInto(es, n, 0)
  {
    NoBreakBefore(es[0], PrintAll(es[1..]), n);
    PrintedPrefix(es, 1);
    assert es[..0] == [] && es[1..][..0] == [];
    assert PrintAll(es)[0..n] == PrintAll(es)[..n];
  }

  lemma SplitsIntoMore(es: seq<Event>, n: nat, m: nat)
    requires AllPrintable(es) && es != [] && |Sse(es[0])| <= n <= |PrintAll(es)|
    requires SplitsInto(es[1..], n - |Sse(es[0])|, m)
    ensures SplitsInto(es, n, m + 1)
  {
    HoldsMore(es, n, m);
    FramesMore(es[0], PrintAll(es[1..]), n, FrameTexts(es[1..][..m]), |PrintAll(es[1..][..m])|);
  }

  lemma FramesMore(e: Event, tail: string, n: nat, texts: seq<string>, i: nat)
    requires Printable(e) && |Sse(e)| <= n <= |Sse(e)| + |tail| && i <= n - |Sse(e)|
    requires SplitFrames(tail[..n - |Sse(e)|]) == Frames(texts, tail[i..n - |Sse(e)|])
    ensures SplitFrames((Sse(e) + tail)[..n]) == Frames([FrameText(e)] + texts, (Sse(e) + tail)[|Sse(e)| + i..n])
  {
    SplitFirst(e, tail, n);
    SliceOfAppend(Sse(e), tail, i, n - |Sse(e)|);
  }

  /** A printed list cut off anywhere splits into exactly the frames printed in full; what follows
      them stays in the buffer. */
  lemma {:induction false} SplitPrinted(es: seq<Event>, n: nat) returns (k: nat)
    requires AllPrintable(es) && n <= |PrintAll(es)|
    ensures SplitsInto(es, n, k)
    decreases |es|
  {
    if es == [] {
      SplitsIntoEmpty(n);
      k := 0;
    } else if n < |Sse(es[0])| {
      SplitsIntoNone(es, n);
      k := 0;
    } else {
      var m := SplitPrinted(es[1..], n - |Sse(es[0])|);
      SplitsIntoMore(es, n, m);
      k := m + 1;
    }
  }

  lemma SliceOfAppend(a: string, b: string, i: nat, j: nat)
    requires i <= j <= |b|
    ensures (a + b)[|a| + i..|a| + j] == b[i..j]
  {
  }

  /** Splitting a text that starts with a whole printed frame. */
  lemma SplitFirst(e: Event, tail: string, n: nat)
    requires Printable(e) && |Sse(e)| <= n <= |Sse(e)| + |tail|
    ensures SplitFrames((Sse(e) + tail)[..n]) ==
            Frames([FrameText(e)] + SplitFrames(tail[..n - |Sse(e)|]).frames, SplitFrames(tail[..n - |Sse(e)|]).rest)
  {
    var cut := tail[..n - |Sse(e)|];
    assert (Sse(e) + tail)[..n] == Sse(e) + cut;
    FrameBreak(e, cut);
    assert (Sse(e) + cut)[|FrameText(e)| + 2..] == cut && (Sse(e) + cut)[..|FrameText(e)|] == FrameText(e);
  }

  lemma PrintedPrefix(es: seq<Event>, k: nat)
    requires 0 < k <= |es|
    ensures PrintAll(es[..k]) == Sse(es[0]) + PrintAll(es[1..][..k - 1])
    ensures FrameTexts(es[..k]) == [FrameText(es[0])] + FrameTexts(es[1..][..k - 1])
  {
    assert es[..k][1..] == es[1..][..k - 1];
  }

  lemma NoBreakBefore(e: Event, tail: string, n: nat)
    requires Printable(e) && n < |Sse(e)|
    ensures SplitFrames((Sse(e) + tail)[..n]) == Frames([], (Sse(e) + tail)[..n])
  {
    var text := Sse(e) + tail;
    FrameBreak(e, tail);
    forall j | 0 <= j < n
      ensures !BreakAt(text[..n], j)
    {
      assert BreakAt(text[..n], j) ==> BreakAt(text, j);
    }
  }

  lemma {:induction false} TextsParse(es: seq<Event>)
    requires AllPrintable(es)
    ensures ParseFrames(FrameTexts(es)) == es
  {
    if es != [] {
      FrameParses(es[0]);
      TextsParse(es[1..]);
      assert FrameTexts(es)[1..] == FrameTexts(es[1..]);
    }
  }

  lemma {:induction false} PrintedPlain(es: seq<Event>)
    requires AllPrintable(es)
    ensures '\r' !in PrintAll(es)
  {
    if es != [] {
      PrintedPlain(es[1..]);
      assert '\r' !in Sse(es[0]);
    }
  }

  lemma WholePrefix(es: seq<Event>, n: nat, parses: string -> bool) returns (k: nat)
    requires AllPrintable(es) && n <= |PrintAll(es)|
    ensures HoldsInFull(es, n, k)
    ensures Whole(PrintAll(es)[..n], parses) ==
            Stream(PrintAll(es)[|PrintAll(es[..k])|..n], HandleAll(Talk([], None), es[..k], parses))
  {
    k := SplitPrinted(es, n);
    TextsParse(es[..k]);
  }

  /** For every list of printed events cut off after any number of characters, and every way that
      text is fragmented, the client handles exactly the events printed in full, in order; unless one
      of them ended the conversation, the rest of the text is what its buffer holds. */
  lemma StreamedEvents(es: seq<Event>, n: nat, fragments: seq<string>, parses: string -> bool) returns (k: nat)
    requires AllPrintable(es) && n <= |PrintAll(es)| && Flatten(fragments) == PrintAll(es)[..n]
    ensures HoldsInFull(es, n, k)
    ensures var s := ReceiveAll(Reads(fragments), parses);
            && s.talk == HandleAll(Talk([], None), es[..k], parses)
            && (s.talk.end == None ==> s.buffer == PrintAll(es)[|PrintAll(es[..k])|..n])
  {
    PrintedPlain(es);
    PlainWholeLineEnds(fragments);
    NormalizePlain(Flatten(fragments));
    LastReadEmpty(fragments, parses);
    FragmentationIrrelevant(fragments, parses);
    k := WholePrefix(es, n, parses);
  }

  lemma {:induction false} PrintedLonger(es: seq<Event>, k: nat)
    requires k < |es|
    ensures |PrintAll(es[..k])| < |PrintAll(es)|
    decreases |es|
  {
    if k > 0 {
      PrintedPrefix(es, k);
      PrintedLonger(es[1..], k - 1);
    } else {
      assert es[..0] == [];
    }
  }

  /** For every list of printed events and every fragmentation of the whole text, the client handles
      exactly those events in order and ends with an empty buffer. */
  lemma RoundTrip(es: seq<Event>, fragments: seq<string>, parses: string -> bool)
    requires AllPrintable(es) && Flatten(fragments) == PrintAll(es)
    ensures var s := ReceiveAll(Reads(fragments), parses);
            && s.talk == HandleAll(Talk([], None), es, parses)
            && (s.talk.end == None ==> s.buffer == "")
  {
    var n := |PrintAll(es)|;
    assert PrintAll(es)[..n] == PrintAll(es);
    var k := StreamedEvents(es, n, fragments, parses);
    if k < |es| {
      PrintedShorter(es, k + 1);
    }
    assert es[..k] == es;
  }

  lemma PrintedShorter(es: seq<Event>, k: nat)
    requires k <= |es|
    ensures |PrintAll(es[..k])| <= |PrintAll(es)|
  {
    if k < |es| { PrintedLonger(es, k); } else { assert es[..k] == es; }
  }

  // ---------- The server's conversations ----------

  /** What the server sends: the sources, the answer piece by piece, and how it ended. */
  function Conversation(sources: string, deltas: seq<string>, last: Event): seq<Event>
  {
    [Event("sources", sources)] + Deltas(deltas) + [last]
  }

  function Deltas(deltas: seq<string>): (es: seq<Event>)
    ensures |es| == |deltas| && forall i :: 0 <= i < |es| ==> es[i] == Event("delta", deltas[i])
  {
    seq(|deltas|, i requires 0 <= i < |deltas| => Event("delta", deltas[i]))
  }

  function DeltaCalls(deltas: seq<string>): (calls: seq<Call>)
    ensures |calls| == |deltas| && forall i :: 0 <= i < |calls| ==> calls[i] == OnDelta(deltas[i])
  {
    seq(|deltas|, i requires 0 <= i < |deltas| => OnDelta(deltas[i]))
  }

  function ThrownBy(last: Event): Option<End>
  {
    if last.name == "error" then Some(ApiError(last.payload)) else None
  }

  lemma {:induction false} HandleDeltas(calls: seq<Call>, deltas: seq<string>, parses: string -> bool)
    requires forall i :: 0 <= i < |deltas| ==> parses(deltas[i])
    ensures HandleAll(Talk(calls, None), Deltas(deltas), parses) == Talk(calls + DeltaCalls(deltas), None)
    decreases |deltas|
  {
    if deltas == [] {
      assert calls + DeltaCalls([]) == calls;
    } else {
      assert Deltas(deltas)[1..] == Deltas(deltas[1..]);
      HandleDeltas(calls + [OnDelta(deltas[0])], deltas[1..], parses);
      assert calls + DeltaCalls(deltas) == calls + [OnDelta(deltas[0])] + DeltaCalls(deltas[1..]);
    }
  }

  /** The first k events of a conversation: the sources first, then the deltas in order; only a last
      error event makes the client throw. */
  lemma HandleConversation(sources: string, deltas: seq<string>, last: Event, k: nat, parses: string -> bool)
    requires k <= |deltas| + 2 && parses(sources) && parses(last.payload)
    requires forall i :: 0 <= i < |deltas| ==> parses(deltas[i])
    requires last.name == "done" || last.name == "error"
    ensures HandleAll(Talk([], None), Conversation(sources, deltas, last)[..k], parses) ==
            if k == 0 then Talk([], None)
            else if k <= |deltas| + 1 then Talk([OnSources(sources)] + DeltaCalls(deltas[..k - 1]), None)
            else Talk([OnSources(sources)] + DeltaCalls(deltas), ThrownBy(last))
  {
    var es := Conversation(sources, deltas, last);
    if k > 0 {
      var m := if k <= |deltas| + 1 then k - 1 else |deltas|;
      var shown := deltas[..m];
      var first := [Event("sources", sources)] + Deltas(shown);
      assert first[1..] == Deltas(shown);
      HandleDeltas([OnSources(sources)], shown, parses);
      assert [] + [OnSources(sources)] == [OnSources(sources)];
      if k <= |deltas| + 1 {
        assert es[..k] == first;
      } else {
        assert shown == deltas && es[..k] == first + [last];
        HandleInParts(Talk([], None), first, [last], parses);
        assert [last][1..] == [];
      }
    }
  }

  /** Over every fragmentation of a conversation's text the client shows the sources once and first,
      then every delta in order, and throws exactly when the server sent an error. */
  lemma ConversationDelivered(sources: string, deltas: seq<string>, last: Event, fragments: seq<string>,
                              parses: string -> bool)
    requires parses(sources) && parses(last.payload) && forall i :: 0 <= i < |deltas| ==> parses(deltas[i])
    requires last.name == "done" || last.name == "error"
    requires AllPrintable(Conversation(sources, deltas, last))
    requires Flatten(fragments) == PrintAll(Conversation(sources, deltas, last))
    ensures ReceiveAll(Reads(fragments), parses).talk ==
            Talk([OnSources(sources)] + DeltaCalls(deltas), ThrownBy(last))
  {
    var es := Conversation(sources, deltas, last);
    RoundTrip(es, fragments, parses);
    HandleConversation(sources, deltas, last, |es|, parses);
    assert es[..|es|] == es;
  }

  /** A conversation cut off before its last frame is complete ends like one that was completed: the
      client throws nothing, so its caller cannot tell. */
  lemma CutOffUnnoticed(sources: string, deltas: seq<string>, last: Event, n: nat, fragments: seq<string>,
                        parses: string -> bool)
    requires parses(sources) && parses(last.payload) && forall i :: 0 <= i < |deltas| ==> parses(deltas[i])
    requires last.name == "done" || last.name == "error"
    requires AllPrintable(Conversation(sources, deltas, last))
    requires n < |PrintAll(Conversation(sources, deltas, last))|
    requires Flatten(fragments) == PrintAll(Conversation(sources, deltas, last))[..n]
    ensures ReceiveAll(Reads(fragments), parses).talk.end == None
    ensures ReceiveAll(Reads(fragments), parses).talk.calls <= [OnSources(sources)] + DeltaCalls(deltas)
  {
    var es := Conversation(sources, deltas, last);
    var k := StreamedEvents(es, n, fragments, parses);
    assert es[..|es|] == es;
    assert k < |es|;
    HandleConversation(sources, deltas, last, k, parses);
    if k > 0 {
      assert DeltaCalls(deltas[..k - 1]) == DeltaCalls(deltas)[..k - 1];
    }
  }
}
