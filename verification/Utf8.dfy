/** UTF-8 as `Buffer.from(code, "utf8")` writes it and a strict decoder reads it back
    (section 3 of RFC 3629), and what the byte splitter relies on: where code points start. */
module Utf8 {
  import opened Options
  import opened SeqFacts

  type Byte = b: int | 0 <= b < 0x100

  /** A Unicode scalar value: a code point that is not a surrogate. */
  type Scalar = c: int | 0 <= c < 0xD800 || 0xE000 <= c < 0x11_0000

  const NEWLINE: Byte := 0x0A

  predicate IsContinuation(b: Byte) { 0x80 <= b < 0xC0 }

  /** The source tests `(byte & 0xc0) === 0x80`; this is the range test used here. */
  lemma ContinuationMask(b: bv8)
    ensures (b & 0xC0) == 0x80 <==> 0x80 <= b < 0xC0
  {
  }

  function EncodeScalar(c: Scalar): (bs: seq<Byte>)
    ensures 1 <= |bs| <= 4
    ensures !IsContinuation(bs[0])
    ensures forall i :: 1 <= i < |bs| ==> IsContinuation(bs[i])
    ensures bs[0] < 0x80 <==> |bs| == 1
    ensures |bs| == 1 ==> bs[0] == c
  {
    if c < 0x80 then [c]
    else if c < 0x800 then [0xC0 + c / 0x40, 0x80 + c % 0x40]
    else if c < 0x1_0000 then [0xE0 + c / 0x1000, 0x80 + c / 0x40 % 0x40, 0x80 + c % 0x40]
    else [0xF0 + c / 0x4_0000, 0x80 + c / 0x1000 % 0x40, 0x80 + c / 0x40 % 0x40, 0x80 + c % 0x40]
  }

  function Encode(code: seq<Scalar>): (bs: seq<Byte>)
  {
    if code == [] then [] else EncodeScalar(code[0]) + Encode(code[1..])
  }

  /** How many bytes the sequence opened by this byte has; 0 when no sequence opens with it. */
  function SequenceLength(lead: Byte): nat
  {
    if lead < 0x80 then 1
    else if 0xC2 <= lead < 0xE0 then 2
    else if 0xE0 <= lead < 0xF0 then 3
    else if 0xF0 <= lead < 0xF5 then 4
    else 0
  }

  /** The payload bits of a continuation byte. */
  function Payload(b: Byte): (p: int)
    requires IsContinuation(b)
    ensures 0 <= p < 0x40
  {
    b as int - 0x80
  }

  /** Reads one code point. Refuses truncated, overlong, surrogate and out-of-range sequences. */
  function DecodeFirst(bs: seq<Byte>): (r: Option<(Scalar, nat)>)
    requires bs != []
    ensures r.Some? ==> 1 <= r.value.1 <= |bs| && r.value.1 == SequenceLength(bs[0])
    ensures r.Some? ==> forall i :: 1 <= i < r.value.1 ==> IsContinuation(bs[i])
  {
    var n := SequenceLength(bs[0]);
    if n == 0 || |bs| < n || exists i :: 1 <= i < n && !IsContinuation(bs[i]) then None
    else if n == 1 then Some((bs[0], 1))
    else if n == 2 then Some((0x40 * (bs[0] as int - 0xC0) + Payload(bs[1]), 2))
    else if n == 3 then
      var c := 0x40 * (0x40 * (bs[0] as int - 0xE0) + Payload(bs[1])) + Payload(bs[2]);
      if c < 0x800 || 0xD800 <= c < 0xE000 then None else Some((c, 3))
    else
      var c := 0x40 * (0x40 * (0x40 * (bs[0] as int - 0xF0) + Payload(bs[1])) + Payload(bs[2])) + Payload(bs[3]);
      if c < 0x1_0000 || 0x11_0000 <= c then None else Some((c, 4))
  }

  function Decode(bs: seq<Byte>): (r: Option<seq<Scalar>>)
  {
    if bs == [] then Some([])
    else
      match DecodeFirst(bs)
      case None => None
      case Some(pair) =>
        match Decode(bs[pair.1..])
        case None => None
        case Some(rest) => Some([pair.0] + rest)
  }

  lemma DecodeFirstEncoded(c: Scalar, rest: seq<Byte>)
    ensures DecodeFirst(EncodeScalar(c) + rest) == Some((c, |EncodeScalar(c)|))
  {
    var es := EncodeScalar(c);
    var bs := es + rest;
    assert SequenceLength(bs[0]) == |es|;
    assert forall i :: 0 <= i < |es| ==> bs[i] == es[i];
    assert c / 0x40 / 0x40 == c / 0x1000 && c / 0x1000 / 0x40 == c / 0x4_0000;
    Digits(c);
    Digits(c / 0x40);
    Digits(c / 0x1000);
  }

  lemma Digits(c: int)
    ensures c == 0x40 * (c / 0x40) + c % 0x40
  {
  }

  /** Decoding undoes encoding. */
  lemma {:induction false} RoundTrip(code: seq<Scalar>)
    ensures Decode(Encode(code)) == Some(code)
  {
    if code == [] {
    } else {
      DecodeFirstEncoded(code[0], Encode(code[1..]));
      RoundTrip(code[1..]);
      assert code == [code[0]] + code[1..];
      assert Encode(code)[|EncodeScalar(code[0])|..] == Encode(code[1..]);
    }
  }

  lemma DecodedDigits(a: int, b: int)
    requires 0 <= b < 0x40
    ensures (0x40 * a + b) / 0x40 == a && (0x40 * a + b) % 0x40 == b
  {
  }

  /** The bytes of a decoded code point are its encoding. */
  lemma EncodeFirstDecoded(bs: seq<Byte>)
    requires bs != [] && DecodeFirst(bs).Some?
    ensures var (c, n) := DecodeFirst(bs).value; n <= |bs| && EncodeScalar(c) == bs[..n]
  {
    var n := SequenceLength(bs[0]);
    if n == 2 {
      DecodedDigits(bs[0] - 0xC0, Payload(bs[1]));
    } else if n == 3 {
      var high := 0x40 * (bs[0] - 0xE0) + Payload(bs[1]);
      DecodedDigits(bs[0] - 0xE0, Payload(bs[1]));
      DecodedDigits(high, Payload(bs[2]));
      ThousandDigits(0x40 * high + Payload(bs[2]));
    } else if n == 4 {
      var top := 0x40 * (bs[0] - 0xF0) + Payload(bs[1]);
      var high := 0x40 * top + Payload(bs[2]);
      DecodedDigits(bs[0] - 0xF0, Payload(bs[1]));
      DecodedDigits(top, Payload(bs[2]));
      DecodedDigits(high, Payload(bs[3]));
      ThousandDigits(0x40 * high + Payload(bs[3]));
    }
  }

  lemma ThousandDigits(c: int)
    ensures c / 0x40 / 0x40 == c / 0x1000 && c / 0x1000 / 0x40 == c / 0x4_0000
  {
  }

  /** Encoding undoes decoding: the buffer that spans index is the decoded file. */
  lemma {:induction false} EncodeDecoded(bs: seq<Byte>)
    requires Decode(bs).Some?
    ensures Encode(Decode(bs).value) == bs
  {
    if bs != [] {
      var (c, n) := DecodeFirst(bs).value;
      EncodeDecoded(bs[n..]);
      EncodeFirstDecoded(bs);
      EncodeCons(c, Decode(bs[n..]).value);
      JoinAt(bs, n);
    }
  }

  lemma EncodeCons(c: Scalar, code: seq<Scalar>)
    ensures Encode([c] + code) == EncodeScalar(c) + Encode(code)
  {
    assert ([c] + code)[1..] == code;
  }

  lemma {:induction false} EncodeAppend(a: seq<Scalar>, b: seq<Scalar>)
    ensures Encode(a + b) == Encode(a) + Encode(b)
  {
    if a == [] {
      assert a + b == b;
    } else {
      AppendTail(a, b);
      EncodeAppend(a[1..], b);
      AppendAssociative(EncodeScalar(a[0]), Encode(a[1..]), Encode(b));
    }
  }

  /** A cut at `i` falls between code points: at the end, or before a byte that opens one. */
  predicate Boundary(source: seq<Byte>, i: int)
  {
    i == |source| || (0 <= i < |source| && !IsContinuation(source[i]))
  }

  /** A boundary of an encoded string is the end of the encoding of some prefix. */
  lemma {:induction false} BoundaryIndex(code: seq<Scalar>, i: nat) returns (k: nat)
    requires Boundary(Encode(code), i)
    ensures k <= |code|
    ensures Encode(code)[..i] == Encode(code[..k]) && Encode(code)[i..] == Encode(code[k..])
    ensures i > 0 ==> k > 0
  {
    if i == 0 {
      k := 0;
    } else {
      var first, rest := EncodeScalar(code[0]), Encode(code[1..]);
      assert i >= |first|;
      var j := BoundaryIndex(code[1..], i - |first|);
      k := j + 1;
      TakeTail(code, k);
      AppendPrefix(first, rest, i);
    }
  }

  lemma AppendPrefix(first: seq<Byte>, rest: seq<Byte>, i: nat)
    requires |first| <= i <= |first| + |rest|
    ensures (first + rest)[..i] == first + rest[..i - |first|] && (first + rest)[i..] == rest[i - |first|..]
  {
  }

  /** What a byte splitter may rely on: offset 0 is a boundary, a boundary is never more than
      three bytes back, and the byte after an ASCII byte opens a code point. */
  ghost predicate Splittable(source: seq<Byte>)
  {
    && Boundary(source, 0)
    && (forall p :: 3 <= p < |source| ==> NearBoundary(source, p))
    && (forall p :: 0 <= p < |source| ==> BoundaryAfterAscii(source, p))
  }

  predicate NearBoundary(source: seq<Byte>, p: int)
  {
    Boundary(source, p) || Boundary(source, p - 1) || Boundary(source, p - 2) || Boundary(source, p - 3)
  }

  predicate BoundaryAfterAscii(source: seq<Byte>, p: int)
    requires 0 <= p < |source|
  {
    source[p] < 0x80 ==> Boundary(source, p + 1)
  }

  lemma {:induction false} EncodedSplittable(code: seq<Scalar>)
    ensures Splittable(Encode(code))
  {
    if code == [] {
    } else {
      var first, rest := EncodeScalar(code[0]), Encode(code[1..]);
      var source := first + rest;
      EncodedSplittable(code[1..]);
      forall p | 0 <= p < |source|
        ensures BoundaryAfterAscii(source, p)
      {
        if p >= |first| {
          assert BoundaryAfterAscii(rest, p - |first|);
        }
      }
      forall p | 3 <= p < |source|
        ensures NearBoundary(source, p)
      {
        var q := p - |first|;
        if q >= 3 {
          assert NearBoundary(rest, q);
        } else if q >= 0 {
          assert Boundary(rest, 0);
        } else {
          assert Boundary(source, 0);
        }
      }
    }
  }

  lemma DecodePrefixed(c: Scalar, rest: seq<Byte>)
    ensures Decode(EncodeScalar(c) + rest) ==
            match Decode(rest) case None => None case Some(code) => Some([c] + code)
  {
    DecodeFirstEncoded(c, rest);
    assert (EncodeScalar(c) + rest)[|EncodeScalar(c)|..] == rest;
  }

  lemma TruncatedScalar(c: Scalar, n: nat)
    requires 0 < n < |EncodeScalar(c)|
    ensures Decode(EncodeScalar(c)[..n]) == None
  {
    var es := EncodeScalar(c);
    DecodeFirstEncoded(c, []);
    assert es + [] == es;
    assert es[..n][0] == es[0];
  }

  /** A cut inside a code point leaves text that does not decode. */
  lemma {:induction false} TruncatedNotDecodable(code: seq<Scalar>, n: nat)
    requires n <= |Encode(code)| && !Boundary(Encode(code), n)
    ensures Decode(Encode(code)[..n]) == None
  {
    var first, rest := EncodeScalar(code[0]), Encode(code[1..]);
    var source := first + rest;
    assert n > 0;
    if n < |first| {
      assert source[..n] == first[..n];
      TruncatedScalar(code[0], n);
    } else {
      EncodedSplittable(code[1..]);
      TruncatedNotDecodable(code[1..], n - |first|);
      assert source[..n] == first + rest[..n - |first|];
      DecodePrefixed(code[0], rest[..n - |first|]);
    }
  }
}
