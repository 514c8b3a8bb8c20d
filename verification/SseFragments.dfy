/** How the fragments of a stream are normalised one by one, and what is lost when a fragment border
    falls inside a line end. */
module SseFragments {
  import opened Options
  import opened Chat = Sse

  /** The text that the client puts together: its fragments, normalised one by one. */
  function Normalized(fragments: seq<string>): string
  {
    if fragments == [] then ""
    else Normalized(fragments[..|fragments| - 1]) + Normalize(fragments[|fragments| - 1])
  }

  /** Every cut inside a line end makes the normalised text longer. */
  lemma {:induction false} NormalizedLength(fragments: seq<string>)
    ensures if WholeLineEnds(fragments) then Normalized(fragments) == Normalize(Flatten(fragments))
            else |Normalized(fragments)| > |Normalize(Flatten(fragments))|
  {
    if fragments != [] {
      var n := |fragments| - 1;
      NormalizedLength(fragments[..n]);
      WholeBefore(fragments);
      NormalizeInParts(Flatten(fragments[..n]), fragments[n]);
    }
  }

  /** Normalising fragment by fragment is normalising the whole if and only if no fragment border falls
      inside a two-character line end. */
  lemma NormalizedIff(fragments: seq<string>)
    ensures Normalized(fragments) == Normalize(Flatten(fragments)) <==> WholeLineEnds(fragments)
  {
    NormalizedLength(fragments);
  }

  /** However a stream is cut, the client handles it like the normalised fragments in one piece. */
  lemma {:induction false} ReceivesNormalized(fragments: seq<string>, parses: string -> bool)
    ensures var s, whole := ReceiveAll(fragments, parses), Whole(Normalized(fragments), parses);
            && s.talk == whole.talk
            && (s.talk.end == None ==> s.buffer == whole.buffer)
  {
    if fragments == [] {
      assert FirstBreak("", 0) == 0;
    } else {
      var n := |fragments| - 1;
      ReceivesNormalized(fragments[..n], parses);
      WholeInParts(Normalized(fragments[..n]), Normalize(fragments[n]), parses);
    }
  }

  /** The uncut text of one event, its frame ended by two-character line ends. */
  function CarriageFrame(e: Event): string { FrameText(e) + "\r\n\r\n" }

  lemma FrameThen(e: Event, tail: string)
    requires Printable(e)
    ensures Normalize(FrameText(e) + tail) == FrameText(e) + Normalize(tail)
  {
    var text := FrameText(e);
    assert '\r' !in "event: " && '\r' !in "\ndata: ";
    assert '\r' !in text;
    NormalizePlain(text);
    NormalizeInParts(text, tail);
    assert text != [] ==> text[|text| - 1] in text;
  }

  lemma LineEnds()
    ensures Normalize("\r\n\r\n") == "\n\n" && Normalize("\r\n\r") == "\n\r" && Normalize("\n") == "\n"
  {
    var a, b, c, d, e := "\r\n\r\n", "\r\n", "\r\n\r", "\r", "\n";
    assert a[2..] == b && b[2..] == "" && c[2..] == d && d[1..] == "" && e[1..] == "";
    assert Normalize("") == "";
    assert Normalize(b) == "\n" && Normalize(d) == "\r";
  }

  lemma OneFrame(e: Event)
    requires Printable(e)
    ensures SplitFrames(Sse(e)) == Frames([FrameText(e)], "")
  {
    var text, n := Sse(e), |FrameText(e)|;
    FrameBreak(e, "");
    assert text + "" == text && text[n + 2..] == "" && text[..n] == FrameText(e);
    assert SplitFrames("") == Frames([], "");
  }

  lemma WholeFrame(e: Event, parses: string -> bool)
    requires Printable(e) && e.name == "delta" && parses(e.payload)
    ensures Whole(Sse(e), parses) == Stream("", Talk([OnDelta(e.payload)], None))
  {
    OneFrame(e);
    FrameParses(e);
    var frames := [FrameText(e)];
    assert frames[1..] == [] && ParseFrames(frames[1..]) == [];
    assert ParseFrames(frames) == [e];
    HandleOne(Talk([], None), e, parses);
  }

  lemma HandleOne(t: Talk, e: Event, parses: string -> bool)
    ensures HandleAll(t, [e], parses) == Handle(t, e, parses)
  {
    assert [e][1..] == [];
    assert HandleAll(Handle(t, e, parses), [], parses) == Handle(t, e, parses);
  }

  lemma NoFrame(e: Event)
    requires Printable(e)
    ensures SplitFrames(FrameText(e) + "\n\r\n") == Frames([], FrameText(e) + "\n\r\n")
  {
    var text, n := FrameText(e) + "\n\r\n", |FrameText(e)|;
    FrameTextShape(e);
    forall j | 0 <= j < |text|
      ensures !BreakAt(text, j)
    {
      if j < n { assert text[j] == FrameText(e)[j]; }
      if j + 1 < n { assert text[j + 1] == FrameText(e)[j + 1]; }
    }
    assert !(FirstBreak(text, 0) < |text|);
  }

  /** A cut inside the line end that closes a frame loses the event: the client calls no handler, ends
      without an error, and leaves the frame in its buffer. */
  lemma LostEvent(e: Event, parses: string -> bool) returns (fragments: seq<string>)
    requires Printable(e) && e.name == "delta" && parses(e.payload)
    ensures |fragments| == 2 && Flatten(fragments) == CarriageFrame(e)
    ensures Whole(Normalize(Flatten(fragments)), parses).talk == Talk([OnDelta(e.payload)], None)
    ensures ReceiveAll(Reads(fragments), parses) == Stream(FrameText(e) + "\n\r\n", Talk([], None))
  {
    var first, second := FrameText(e) + "\r\n\r", "\n";
    fragments := [first, second];
    TwoFragments(first, second);
    LineEnds();
    FrameThen(e, "\r\n\r");
    FrameThen(e, "\r\n\r\n");
    assert first + second == CarriageFrame(e);
    assert FrameText(e) + "\n\r" + "\n" == FrameText(e) + "\n\r\n";
    WholeFrame(e, parses);
    NoFrame(e);
    ReceivesNormalized(fragments, parses);
    LastReadEmpty(fragments, parses);
  }

  lemma TwoFragments(first: string, second: string)
    ensures Flatten([first, second]) == first + second
    ensures Normalized([first, second]) == Normalize(first) + Normalize(second)
  {
    var both, one := [first, second], [first];
    assert both[..1] == one && one[..0] == [];
    assert Flatten(one) == Flatten([]) + first == first;
    assert Normalized(one) == Normalized([]) + Normalize(first) == Normalize(first);
  }
}
