/** Text as `Buffer.toString("utf8")` reads it from any bytes: nothing is refused, and each longest
    run of bytes that opens no code point becomes one replacement character
    (chapter 3.9 of the Unicode Standard, "U+FFFD Substitution of Maximal Subparts"). */
module LossyText {
  import opened Utf8
  import opened SeqFacts

  const REPLACEMENT: Scalar := 0xFFFD

  /** Whether this byte may be the second one of a sequence opened by `lead`. */
  predicate MayBeSecond(lead: Byte, b: Byte)
  {
    && IsContinuation(b)
    && (lead == 0xE0 ==> 0xA0 <= b)
    && (lead == 0xED ==> b < 0xA0)
    && (lead == 0xF0 ==> 0x90 <= b)
    && (lead == 0xF4 ==> b < 0x90)
  }

  /** How many bytes one replacement character stands for. */
  function MaximalSubpart(bs: seq<Byte>): (n: nat)
    requires bs != []
    ensures 1 <= n <= |bs| && n <= 4
    ensures forall i :: 1 <= i < n ==> IsContinuation(bs[i])
  {
    var length := SequenceLength(bs[0]);
    if length < 2 || |bs| < 2 || !MayBeSecond(bs[0], bs[1]) then 1
    else if length < 3 || |bs| < 3 || !IsContinuation(bs[2]) then 2
    else if length < 4 || |bs| < 4 || !IsContinuation(bs[3]) then 3
    else 4
  }

  /** The next character, and how many bytes it takes. */
  function ReadFirst(bs: seq<Byte>): (r: (Scalar, nat))
    requires bs != []
    ensures 1 <= r.1 <= |bs| && r.1 <= 4
    ensures forall i :: 1 <= i < r.1 ==> IsContinuation(bs[i])
  {
    match DecodeFirst(bs)
    case Some(pair) => pair
    case None => (REPLACEMENT, MaximalSubpart(bs))
  }

  function Read(bs: seq<Byte>): seq<Scalar>
  {
    if bs == [] then []
    else
      var (c, n) := ReadFirst(bs);
      [c] + Read(bs[n..])
  }

  /** Bytes that a strict decoder accepts are read the same way. */
  lemma {:induction false} ReadDecodable(bs: seq<Byte>)
    requires Decode(bs).Some?
    ensures Read(bs) == Decode(bs).value
  {
    if bs != [] { ReadDecodable(bs[DecodeFirst(bs).value.1..]); }
  }

  /** How many code points the bytes open. */
  function Openings(bs: seq<Byte>): nat
  {
    if bs == [] then 0 else (if IsContinuation(bs[0]) then 0 else 1) + Openings(bs[1..])
  }

  /** One more character than the bytes open code points, when they start inside of one. */
  function TornAt(bs: seq<Byte>): nat
  {
    if bs != [] && IsContinuation(bs[0]) then 1 else 0
  }

  lemma {:induction false} OpeningsAppend(a: seq<Byte>, b: seq<Byte>)
    ensures Openings(a + b) == Openings(a) + Openings(b)
  {
    if a == [] {
      assert a + b == b;
    } else {
      AppendTail(a, b);
      OpeningsAppend(a[1..], b);
    }
  }

  /** Continuation bytes open nothing. */
  lemma {:induction false} OpeningsSkip(bs: seq<Byte>, n: nat)
    requires n <= |bs| && forall i :: 0 <= i < n ==> IsContinuation(bs[i])
    ensures Openings(bs) == Openings(bs[n..])
  {
    if n == 0 {
      assert bs[0..] == bs;
    } else {
      var rest := bs[1..];
      assert forall i :: 0 <= i < n - 1 ==> rest[i] == bs[i + 1];
      OpeningsSkip(rest, n - 1);
      TakeTail(bs, n);
    }
  }

  /** Reading never loses the start of a code point, and a torn beginning adds a character. */
  lemma {:induction false} ReadLength(bs: seq<Byte>)
    ensures |Read(bs)| >= Openings(bs) + TornAt(bs)
  {
    if bs != [] {
      var n := ReadFirst(bs).1;
      var rest := bs[1..];
      assert forall i :: 0 <= i < n - 1 ==> rest[i] == bs[i + 1];
      OpeningsSkip(rest, n - 1);
      TakeTail(bs, n);
      ReadLength(bs[n..]);
    }
  }

  lemma OpeningsOfScalar(c: Scalar)
    ensures Openings(EncodeScalar(c)) == 1
  {
    var bs := EncodeScalar(c);
    var rest := bs[1..];
    assert forall i :: 0 <= i < |rest| ==> rest[i] == bs[i + 1];
    OpeningsSkip(rest, |rest|);
    assert rest[|rest|..] == [];
  }

  lemma {:induction false} OpeningsOfText(code: seq<Scalar>)
    ensures Openings(Encode(code)) == |code|
  {
    if code != [] {
      OpeningsOfScalar(code[0]);
      OpeningsOfText(code[1..]);
      OpeningsAppend(EncodeScalar(code[0]), Encode(code[1..]));
    }
  }
}
