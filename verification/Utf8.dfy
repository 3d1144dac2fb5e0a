/** UTF-8 (section 3 of RFC 3629): the encoder behind Buffer.from(text), and the decoder behind
    toString("utf8") and decodeURIComponent. */
module Utf8 {
  import opened JsText

  function EncodePoint(p: Point): seq<Byte> {
    if p < 0x80 then [p]
    else if p < 0x800 then [0xC0 + p / 64, 0x80 + p % 64]
    else if p < 0x1_0000 then [0xE0 + p / 4096, 0x80 + p / 64 % 64, 0x80 + p % 64]
    else [0xF0 + p / 262144, 0x80 + p / 4096 % 64, 0x80 + p / 64 % 64, 0x80 + p % 64]
  }

  const REPLACEMENT: Point := 0xFFFD

  // The first code point of a text, a lone surrogate read as the replacement character, and its units.
  function FirstPoint(s: Text): Point
    requires s != []
  {
    if StartsWithPair(s) then PairPoint(s[0], s[1])
    else if Surrogate(s[0]) then REPLACEMENT
    else s[0]
  }

  function FirstWidth(s: Text): nat { if StartsWithPair(s) then 2 else 1 }

  // Buffer.from(text): lone surrogates become the replacement character.
  function Encode(s: Text): seq<Byte> {
    if s == [] then [] else EncodePoint(FirstPoint(s)) + Encode(s[FirstWidth(s)..])
  }

  // What survives encoding: the text with each lone surrogate replaced.
  function Scrubbed(s: Text): Text {
    if s == [] then [] else UnitsOf(FirstPoint(s)) + Scrubbed(s[FirstWidth(s)..])
  }

  function SequenceLength(lead: Byte): nat {
    if lead < 0x80 then 1
    else if 0xC2 <= lead < 0xE0 then 2
    else if 0xE0 <= lead < 0xF0 then 3
    else if 0xF0 <= lead < 0xF5 then 4
    else 0
  }

  predicate Continuation(b: Byte) { 0x80 <= b < 0xC0 }

  function Payload(b: int): int { b - 0x80 }

  // The second octet also rules out overlong forms, surrogates and values above U+10FFFF.
  predicate SecondOk(lead: Byte, b: Byte) {
    && Continuation(b)
    && (lead == 0xE0 ==> b >= 0xA0)
    && (lead == 0xED ==> b < 0xA0)
    && (lead == 0xF0 ==> b >= 0x90)
    && (lead == 0xF4 ==> b < 0x90)
  }

  datatype Decoded = Good(point: Point, len: nat) | Malformed(len: nat)

  // One code point, or the length of the maximal malformed part.
  function DecodeOne(bs: seq<Byte>): (d: Decoded)
    requires bs != []
    ensures 1 <= d.len <= |bs|
  {
    var n := SequenceLength(bs[0]);
    var lead: int := bs[0];
    if n == 0 then Malformed(1)
    else if n == 1 then Good(bs[0], 1)
    else if |bs| < 2 || !SecondOk(bs[0], bs[1]) then Malformed(1)
    else if n == 2 then Good((lead - 0xC0) * 64 + Payload(bs[1]), 2)
    else if |bs| < 3 || !Continuation(bs[2]) then Malformed(2)
    else if n == 3 then Good((lead - 0xE0) * 4096 + Payload(bs[1]) * 64 + Payload(bs[2]), 3)
    else if |bs| < 4 || !Continuation(bs[3]) then Malformed(3)
    else Good((lead - 0xF0) * 262144 + Payload(bs[1]) * 4096 + Payload(bs[2]) * 64 + Payload(bs[3]), 4)
  }

  // buffer.toString("utf8"): each maximal malformed part becomes one replacement character.
  function Decode(bs: seq<Byte>): Text {
    if bs == [] then []
    else
      var d := DecodeOne(bs);
      UnitsOf(if d.Good? then d.point else REPLACEMENT) + Decode(bs[d.len..])
  }

  lemma DecodeEncodedPoint(p: Point, rest: seq<Byte>)
    ensures var bs := EncodePoint(p); DecodeOne(bs + rest) == Good(p, |bs|)
  {
    var bs := EncodePoint(p);
    assert (bs + rest)[..|bs|] == bs;
    assert p == p / 64 * 64 + p % 64;
    assert p / 64 == p / 64 / 64 * 64 + p / 64 % 64 && p / 64 / 64 == p / 4096;
    assert p / 4096 == p / 4096 / 64 * 64 + p / 4096 % 64 && p / 4096 / 64 == p / 262144;
  }

  // One to four octets by the point's range: a lead octet that says how many, then continuations, and the
  // number their free bits spell is the point.
  lemma PointSpelled(p: Point)
    ensures var bs := EncodePoint(p);
            && |bs| == (if p < 0x80 then 1 else if p < 0x800 then 2 else if p < 0x1_0000 then 3 else 4)
            && (forall i | 1 <= i < |bs| :: 0x80 <= bs[i] < 0xC0)
            && (|bs| == 1 ==> bs[0] == p)
            && (|bs| == 2 ==> 0xC0 <= bs[0] < 0xE0 && p == (bs[0] as int - 0xC0) * 64 + (bs[1] as int - 0x80))
            && (|bs| == 3 ==> 0xE0 <= bs[0] < 0xF0 && p == (bs[0] as int - 0xE0) * 4096 + (bs[1] as int - 0x80) * 64 + (bs[2] as int - 0x80))
            && (|bs| == 4 ==>
                  0xF0 <= bs[0] < 0xF8
                  && p == (bs[0] as int - 0xF0) * 262144 + (bs[1] as int - 0x80) * 4096 + (bs[2] as int - 0x80) * 64 + (bs[3] as int - 0x80))
  {
    assert p == p / 64 * 64 + p % 64;
    assert p / 64 == p / 64 / 64 * 64 + p / 64 % 64 && p / 64 / 64 == p / 4096;
    assert p / 4096 == p / 4096 / 64 * 64 + p / 4096 % 64 && p / 4096 / 64 == p / 262144;
  }

  // Decoding undoes encoding for every text, up to the lone surrogates the encoder replaced.
  lemma {:induction false} DecodeEncode(s: Text)
    ensures Decode(Encode(s)) == Scrubbed(s)
  {
    if s != [] {
      var head, rest := EncodePoint(FirstPoint(s)), Encode(s[FirstWidth(s)..]);
      DecodeEncodedPoint(FirstPoint(s), rest);
      assert (head + rest)[|head|..] == rest;
      DecodeEncode(s[FirstWidth(s)..]);
    }
  }

  // A text survives UTF-8 exactly when it holds no lone surrogate.
  lemma {:induction false} ScrubbedIsIdentity(s: Text)
    ensures |Scrubbed(s)| == |s|
    ensures Scrubbed(s) == s <==> WellFormed(s)
  {
    if s != [] {
      var n := FirstWidth(s);
      ScrubbedIsIdentity(s[n..]);
      assert s == s[..n] + s[n..];
      assert |UnitsOf(FirstPoint(s))| == n;
      assert Scrubbed(s)[..n] == UnitsOf(FirstPoint(s)) && Scrubbed(s)[n..] == Scrubbed(s[n..]);
      assert StartsWithPair(s) ==> UnitsOf(FirstPoint(s)) == s[..n] by {
        if StartsWithPair(s) {
          PairUnits(s[0], s[1]);
        }
      }
    }
  }

  lemma PairUnits(hi: Unit, lo: Unit)
    requires High(hi) && Low(lo)
    ensures UnitsOf(PairPoint(hi, lo)) == [hi, lo]
  {
    var v := PairPoint(hi, lo) - 0x1_0000;
    assert v == (hi - 0xD800) * 0x400 + (lo - 0xDC00);
    assert v / 0x400 == hi - 0xD800 && v % 0x400 == lo - 0xDC00;
  }
}
