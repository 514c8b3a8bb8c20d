/** What any frame means to the client: its last event name, and its data lines in order. */
module SseFrames {
  import opened Options
  import opened Chat = Sse

  /** A line of a frame: an event name, data, or something the client does not look at. */
  datatype FrameLine = Named(name: string) | Data(payload: string) | Other(text: string)

  function LineText(line: FrameLine): string
  {
    match line
    case Named(name) => "event:" + name
    case Data(payload) => "data:" + payload
    case Other(text) => text
  }

  predicate OneFrameLine(line: FrameLine)
  {
    '\n' !in LineText(line) && (line.Other? ==> !StartsWith(line.text, "event:") && !StartsWith(line.text, "data:"))
  }

  function Texts(lines: seq<FrameLine>): (texts: seq<string>)
    ensures |texts| == |lines| && forall i :: 0 <= i < |lines| ==> texts[i] == LineText(lines[i])
  {
    seq(|lines|, i requires 0 <= i < |lines| => LineText(lines[i]))
  }

  /** The name in the last line that has one. */
  function NameOf(lines: seq<FrameLine>): string
  {
    if lines == [] then "message"
    else
      var last := lines[|lines| - 1];
      if last.Named? then Trim(last.name) else NameOf(lines[..|lines| - 1])
  }

  /** The data lines in order. */
  function DataOf(lines: seq<FrameLine>): seq<string>
  {
    if lines == [] then []
    else
      var last := lines[|lines| - 1];
      DataOf(lines[..|lines| - 1]) + if last.Data? then [Trim(last.payload)] else []
  }

  lemma {:induction false} LinesRead(lines: seq<FrameLine>)
    requires forall i :: 0 <= i < |lines| ==> OneFrameLine(lines[i])
    ensures ReadLines(Texts(lines)) == Reading(NameOf(lines), DataOf(lines))
  {
    if lines != [] {
      var n := |lines| - 1;
      LinesRead(lines[..n]);
      assert Texts(lines)[..n] == Texts(lines[..n]);
      OneLineRead(ReadLines(Texts(lines[..n])), lines[n]);
      assert DataOf(lines[..n]) + [] == DataOf(lines[..n]);
    }
  }

  lemma OneLineRead(r: Reading, line: FrameLine)
    requires OneFrameLine(line)
    ensures ReadLine(r, LineText(line)) ==
            match line
            case Named(name) => r.(name := Trim(name))
            case Data(payload) => r.(data := r.data + [Trim(payload)])
            case Other(_) => r
  {
    var text := LineText(line);
    match line
    case Named(name) => assert text[6..] == name && text[0] == 'e';
    case Data(payload) => assert text[5..] == payload && text[0] == 'd';
    case Other(_) =>
  }

  lemma {:induction false} SplitJoined(texts: seq<string>)
    requires texts != [] && forall i :: 0 <= i < |texts| ==> '\n' !in texts[i]
    ensures SplitLines(JoinLines(texts)) == texts
  {
    if |texts| > 1 {
      SplitJoined(texts[1..]);
      SplitFirstLine(texts[0], JoinLines(texts[1..]));
    }
  }

  lemma SplitFirstLine(first: string, rest: string)
    requires '\n' !in first
    ensures SplitLines(first + "\n" + rest) == [first] + SplitLines(rest)
  {
    var text, n := first + "\n" + rest, |first|;
    assert text[n] == '\n';
    assert forall j :: 0 <= j < n ==> text[j] == first[j];
    assert FirstNewline(text) == n;
    assert text[..n] == first && text[n + 1..] == rest;
  }

  /** A frame without data is skipped. Any other is one event: under the last name in it, or "message",
      its data lines joined in order, each without outer whitespace. Other lines do not matter. */
  lemma FrameMeaning(lines: seq<FrameLine>)
    requires lines != [] && forall i :: 0 <= i < |lines| ==> OneFrameLine(lines[i])
    ensures ParseFrame(JoinLines(Texts(lines))) ==
            if DataOf(lines) == [] then None else Some(Event(NameOf(lines), JoinLines(DataOf(lines))))
  {
    SplitJoined(Texts(lines));
    LinesRead(lines);
  }
}
