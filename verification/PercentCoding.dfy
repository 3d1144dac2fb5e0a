/** The global functions encodeURIComponent, decodeURIComponent, escape and unescape of ECMA-262.
    A thrown URIError is None. */
module PercentCoding {
  import opened JsText
  import opened Utf8

  const PERCENT: Unit := '%' as int

  predicate Alphanumeric(u: Unit) {
    'A' as int <= u <= 'Z' as int || 'a' as int <= u <= 'z' as int || '0' as int <= u <= '9' as int
  }

  // A-Z a-z 0-9 - _ . ! ~ * ' ( )
  predicate UriUnreserved(u: Unit) {
    Alphanumeric(u) || u in {0x2D, 0x5F, 0x2E, 0x21, 0x7E, 0x2A, 0x27, 0x28, 0x29}
  }

  // A-Z a-z 0-9 @ * _ + - . /
  predicate EscapeUnreserved(u: Unit) {
    Alphanumeric(u) || u in {0x40, 0x2A, 0x5F, 0x2B, 0x2D, 0x2E, 0x2F}
  }

  function HexDigit(n: nat): Unit
    requires n < 16
  {
    if n < 10 then '0' as int + n else 'A' as int + (n - 10)
  }

  function HexValue(u: Unit): Option<nat> {
    if '0' as int <= u <= '9' as int then Some(u - '0' as int)
    else if 'A' as int <= u <= 'F' as int then Some(u - 'A' as int + 10)
    else if 'a' as int <= u <= 'f' as int then Some(u - 'a' as int + 10)
    else None
  }

  function Percent(b: Byte): Text { [PERCENT, HexDigit(b / 16), HexDigit(b % 16)] }

  // The byte written by two hexadecimal digits at position i.
  function HexByte(t: Text, i: nat): (r: Option<Byte>)
    ensures r.Some? ==> i + 2 <= |t|
  {
    if i + 2 > |t| then None
    else match (HexValue(t[i]), HexValue(t[i + 1]))
      case (Some(h), Some(l)) => if h < 16 && l < 16 then Some(16 * h + l) else None
      case _ => None
  }

  function EncodeURIComponent(s: Text): Option<Text> {
    if s == [] then Some([])
    else if !StartsWithPair(s) && Surrogate(s[0]) then None
    else match EncodeURIComponent(s[FirstWidth(s)..])
      case None => None
      case Some(rest) =>
        Some((if UriUnreserved(s[0]) then [s[0]] else Percents(EncodePoint(FirstPoint(s)))) + rest)
  }

  function Percents(bs: seq<Byte>): Text {
    if bs == [] then [] else Percent(bs[0]) + Percents(bs[1..])
  }

  function Unescape(t: Text): Text {
    if t == [] then []
    else if t[0] == PERCENT && |t| >= 6 && t[1] == 'u' as int && HexByte(t, 2).Some? && HexByte(t, 4).Some? then
      [256 * HexByte(t, 2).value as int + HexByte(t, 4).value] + Unescape(t[6..])
    else if t[0] == PERCENT && HexByte(t, 1).Some? then
      [HexByte(t, 1).value] + Unescape(t[3..])
    else [t[0]] + Unescape(t[1..])
  }

  function EscapeUnit(u: Unit): Text {
    if EscapeUnreserved(u) then [u]
    else if u < 256 then Percent(u)
    else [PERCENT, 'u' as int] + Percent(u / 256)[1..] + Percent(u % 256)[1..]
  }

  function Escape(t: Text): Text {
    if t == [] then [] else EscapeUnit(t[0]) + Escape(t[1..])
  }

  function LeadingOnes(b: Byte): nat {
    if b < 0x80 then 0 else if b < 0xC0 then 1 else if b < 0xE0 then 2 else if b < 0xF0 then 3
    else if b < 0xF8 then 4 else 5
  }

  // n percent-encoded octets in a row at the front of t.
  function Octets(t: Text, n: nat): (r: Option<seq<Byte>>)
    ensures r.Some? ==> |t| >= 3 * n && |r.value| == n
  {
    if n == 0 then Some([])
    else if t == [] || t[0] != PERCENT then None
    else match HexByte(t, 1)
      case None => None
      case Some(b) =>
        match Octets(t[3..], n - 1)
        case None => None
        case Some(bs) => Some([b] + bs)
  }

  // The code point at a percent sign and the units it takes up.
  function PercentPoint(t: Text): (r: Option<(Point, nat)>)
    requires t != []
    ensures r.Some? ==> 3 <= r.value.1 <= |t|
  {
    match HexByte(t, 1)
    case None => None
    case Some(b) =>
      var n := if b < 0x80 then 1 else LeadingOnes(b);
      if b >= 0x80 && (n == 1 || n > 4) then None
      else match Octets(t, n)
        case None => None
        case Some(bs) =>
          match DecodeOne(bs)
          case Good(p, len) => if len == n then Some((p, 3 * n)) else None
          case Malformed(_) => None
  }

  function DecodeURIComponent(t: Text): Option<Text>
    decreases |t|
  {
    if t == [] then Some([])
    else if t[0] != PERCENT then
      match DecodeURIComponent(t[1..])
      case None => None
      case Some(rest) => Some([t[0]] + rest)
    else
      match PercentPoint(t)
      case None => None
      case Some((p, used)) =>
        match DecodeURIComponent(t[used..])
        case None => None
        case Some(rest) => Some(UnitsOf(p) + rest)
  }

  lemma HexByteOfPercent(b: Byte, rest: Text)
    ensures HexByte(Percent(b) + rest, 1) == Some(b)
    ensures (Percent(b) + rest)[3..] == rest && (Percent(b) + rest)[1] != 'u' as int
  {
    assert (Percent(b) + rest)[1] == HexDigit(b / 16) && (Percent(b) + rest)[2] == HexDigit(b % 16);
  }

  lemma UnescapePercent(b: Byte, tail: Text)
    ensures Unescape(Percent(b) + tail) == [b] + Unescape(tail)
  {
    HexByteOfPercent(b, tail);
    assert (Percent(b) + tail)[0] == PERCENT;
  }

  lemma FirstPercent(bs: seq<Byte>, rest: Text)
    requires bs != []
    ensures Percents(bs) + rest == Percent(bs[0]) + (Percents(bs[1..]) + rest)
  {
  }

  lemma FirstOf(t: Text, rest: Text)
    requires t != []
    ensures t + rest == [t[0]] + (t[1..] + rest)
  {
  }

  lemma {:induction false} UnescapePercents(bs: seq<Byte>, rest: Text)
    ensures Unescape(Percents(bs) + rest) == bs + Unescape(rest)
  {
    if bs == [] {
      assert Percents(bs) + rest == rest;
    } else {
      var tail := Percents(bs[1..]) + rest;
      FirstPercent(bs, rest);
      UnescapePercent(bs[0], tail);
      UnescapePercents(bs[1..], rest);
      FirstOf(bs, Unescape(rest));
    }
  }

  // unescape(encodeURIComponent(s)) is the UTF-8 form of s as a binary string; it fails
  // exactly when s holds a lone surrogate.
  lemma {:induction false} UnescapeOfEncode(s: Text)
    ensures EncodeURIComponent(s).Some? <==> WellFormed(s)
    ensures WellFormed(s) ==> Unescape(EncodeURIComponent(s).value) == Encode(s)
  {
    if s != [] {
      var tail := s[FirstWidth(s)..];
      UnescapeOfEncode(tail);
      if WellFormed(s) {
        var rest := EncodeURIComponent(tail).value;
        if UriUnreserved(s[0]) {
          assert ([s[0]] + rest)[1..] == rest;
          assert EncodePoint(FirstPoint(s)) == [s[0]];
        } else {
          UnescapePercents(EncodePoint(FirstPoint(s)), rest);
        }
      }
    }
  }

  lemma {:induction false} EscapeAppend(a: Text, b: Text)
    ensures Escape(a + b) == Escape(a) + Escape(b)
  {
    if a == [] {
      assert a + b == b;
    } else {
      assert (a + b)[1..] == a[1..] + b;
      EscapeAppend(a[1..], b);
    }
  }

  lemma {:induction false} EscapeHighBytes(bs: seq<Byte>)
    requires forall i :: 0 <= i < |bs| ==> bs[i] >= 0x80
    ensures Escape(bs) == Percents(bs)
  {
    if bs != [] {
      EscapeHighBytes(bs[1..]);
    }
  }

  lemma {:induction false} OctetsOfPercents(bs: seq<Byte>, rest: Text)
    ensures Octets(Percents(bs) + rest, |bs|) == Some(bs)
    ensures |Percents(bs)| == 3 * |bs| && (Percents(bs) + rest)[3 * |bs|..] == rest
  {
    if bs == [] {
      assert Percents(bs) + rest == rest;
    } else {
      var tail := Percents(bs[1..]) + rest;
      assert Percents(bs) + rest == Percent(bs[0]) + tail;
      HexByteOfPercent(bs[0], tail);
      OctetsOfPercents(bs[1..], rest);
      assert bs == [bs[0]] + bs[1..];
    }
  }

  lemma EncodePointShape(p: Point)
    ensures var bs := EncodePoint(p);
            if p < 0x80 then bs == [p]
            else |bs| == LeadingOnes(bs[0]) && 2 <= |bs| <= 4 && forall i :: 0 <= i < |bs| ==> bs[i] >= 0x80
  {
  }

  lemma PercentPointOfPercents(p: Point, rest: Text)
    ensures var bs := EncodePoint(p);
            var t := Percents(bs) + rest;
            t != [] && t[0] == PERCENT && PercentPoint(t) == Some((p, 3 * |bs|)) && t[3 * |bs|..] == rest
  {
    var bs := EncodePoint(p);
    OctetsOfPercents(bs, rest);
    var tail := Percents(bs[1..]) + rest;
    assert Percents(bs) + rest == Percent(bs[0]) + tail;
    HexByteOfPercent(bs[0], tail);
    DecodeEncodedPoint(p, []);
    assert bs + [] == bs;
    EncodePointShape(p);
  }

  // decodeURIComponent reads back one escaped code point.
  lemma DecodeEscapedPoint(p: Point, rest: Text)
    requires DecodeURIComponent(rest).Some?
    ensures DecodeURIComponent(Escape(EncodePoint(p)) + rest) == Some(UnitsOf(p) + DecodeURIComponent(rest).value)
  {
    var bs := EncodePoint(p);
    EncodePointShape(p);
    if p < 0x80 && EscapeUnreserved(p) {
      assert Escape(bs) == [p];
      assert ([p] + rest)[1..] == rest;
    } else {
      assert Escape(bs) == Percents(bs) by {
        if p < 0x80 {
          assert bs[1..] == [];
        } else {
          EscapeHighBytes(bs);
        }
      }
      PercentPointOfPercents(p, rest);
    }
  }

  lemma UnitsOfFirstPoint(s: Text)
    requires s != [] && WellFormed(s)
    ensures UnitsOf(FirstPoint(s)) == s[..FirstWidth(s)]
  {
    if StartsWithPair(s) {
      PairUnits(s[0], s[1]);
    }
  }

  lemma EscapeEncoded(s: Text)
    requires s != []
    ensures Escape(Encode(s)) == Escape(EncodePoint(FirstPoint(s))) + Escape(Encode(s[FirstWidth(s)..]))
  {
    EscapeAppend(EncodePoint(FirstPoint(s)), Encode(s[FirstWidth(s)..]));
  }

  // decodeURIComponent(escape(bytes)) reads UTF-8 back.
  lemma {:induction false} DecodeOfEscape(s: Text)
    requires WellFormed(s)
    ensures DecodeURIComponent(Escape(Encode(s))) == Some(s)
  {
    if s != [] {
      var p, n := FirstPoint(s), FirstWidth(s);
      DecodeOfEscape(s[n..]);
      EscapeEncoded(s);
      DecodeEscapedPoint(p, Escape(Encode(s[n..])));
      UnitsOfFirstPoint(s);
      assert s == s[..n] + s[n..];
    }
  }
}
