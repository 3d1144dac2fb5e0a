/** Base64 (sections 4 and 5 of RFC 4648): the encoder, Node's lenient decoder and the browser's atob. */
module Base64 {
  import opened JsText

  type Sextet = v: int | 0 <= v < 64

  const PAD: Unit := '=' as int

  function Letter(v: Sextet): Unit {
    if v < 26 then 'A' as int + v
    else if v < 52 then 'a' as int + (v - 26)
    else if v < 62 then '0' as int + (v - 52)
    else if v == 62 then '+' as int
    else '/' as int
  }

  // The value of a letter of the standard alphabet.
  function Value(u: Unit): Option<Sextet> {
    if 'A' as int <= u <= 'Z' as int then Some(u - 'A' as int)
    else if 'a' as int <= u <= 'z' as int then Some(u - 'a' as int + 26)
    else if '0' as int <= u <= '9' as int then Some(u - '0' as int + 52)
    else if u == '+' as int then Some(62)
    else if u == '/' as int then Some(63)
    else None
  }

  function ToSextets(bs: seq<Byte>): (vs: seq<Sextet>)
    ensures |vs| == (4 * |bs| + 2) / 3
  {
    if bs == [] then []
    else if |bs| == 1 then [bs[0] / 4, bs[0] % 4 * 16]
    else if |bs| == 2 then [bs[0] / 4, bs[0] % 4 * 16 + bs[1] / 16, bs[1] % 16 * 4]
    else
      [bs[0] / 4, bs[0] % 4 * 16 + bs[1] / 16, bs[1] % 16 * 4 + bs[2] / 64, bs[2] % 64] + ToSextets(bs[3..])
  }

  // A last group of one sextet carries no whole byte and is dropped.
  function FromSextets(vs: seq<Sextet>): seq<Byte> {
    if |vs| < 2 then []
    else if |vs| == 2 then [HighByte(vs[0], vs[1])]
    else if |vs| == 3 then [HighByte(vs[0], vs[1]), MiddleByte(vs[1], vs[2])]
    else [HighByte(vs[0], vs[1]), MiddleByte(vs[1], vs[2]), LowByte(vs[2], vs[3])] + FromSextets(vs[4..])
  }

  function HighByte(v: int, w: int): Byte
    requires 0 <= v < 64 && 0 <= w < 64
  {
    v * 4 + w / 16
  }

  function MiddleByte(v: int, w: int): Byte
    requires 0 <= v < 64 && 0 <= w < 64
  {
    v % 16 * 16 + w / 4
  }

  function LowByte(v: int, w: int): Byte
    requires 0 <= v < 64 && 0 <= w < 64
  {
    v % 4 * 64 + w
  }

  function Letters(vs: seq<Sextet>): (t: Text)
    ensures |t| == |vs| && forall i :: 0 <= i < |vs| ==> t[i] == Letter(vs[i])
  {
    seq(|vs|, i requires 0 <= i < |vs| => Letter(vs[i]))
  }

  function Padding(n: nat): Text { Repeat(PAD, (4 - n % 4) % 4) }

  // buffer.toString("base64") and btoa.
  function Encode(bs: seq<Byte>): Text {
    var t := Letters(ToSextets(bs));
    t + Padding(|t|)
  }

  // Buffer.from(text, "base64"): both alphabets are accepted, the first "=" ends the
  // input and every other character is skipped.
  function LenientSextets(t: Text): seq<Sextet> {
    if t == [] || t[0] == PAD then []
    else match LenientValue(t[0])
      case None => LenientSextets(t[1..])
      case Some(v) => [v] + LenientSextets(t[1..])
  }

  function LenientValue(u: Unit): Option<Sextet> {
    if u == '-' as int then Some(62)
    else if u == '_' as int then Some(63)
    else Value(u)
  }

  function LenientDecode(t: Text): seq<Byte> { FromSextets(LenientSextets(t)) }

  function AllValues(t: Text): Option<seq<Sextet>> {
    if t == [] then Some([])
    else match (Value(t[0]), AllValues(t[1..]))
      case (Some(v), Some(vs)) => Some([v] + vs)
      case _ => None
  }

  predicate AsciiSpace(u: Unit) { u in {9, 10, 12, 13, 32} }

  function WithoutSpace(t: Text): Text {
    if t == [] then []
    else if AsciiSpace(t[0]) then WithoutSpace(t[1..])
    else [t[0]] + WithoutSpace(t[1..])
  }

  function WithoutPadding(t: Text): Text {
    if |t| % 4 != 0 || t == [] || t[|t| - 1] != PAD then t
    else if t[|t| - 2] == PAD then t[..|t| - 2]
    else t[..|t| - 1]
  }

  // atob, the forgiving-base64 decode of the WHATWG Infra standard; None is the thrown error.
  function Atob(t: Text): Option<seq<Byte>> {
    var s := WithoutPadding(WithoutSpace(t));
    if |s| % 4 == 1 then None
    else match AllValues(s)
      case None => None
      case Some(vs) => Some(FromSextets(vs))
  }

  // Table 1 of RFC 4648, and its padding.
  lemma AlphabetIs(v: Sextet)
    ensures v < 26 ==> Letter(v) == 0x41 + v
    ensures 26 <= v < 52 ==> Letter(v) == 0x61 + v - 26
    ensures 52 <= v < 62 ==> Letter(v) == 0x30 + v - 52
    ensures v == 62 ==> Letter(v) == 0x2B
    ensures v == 63 ==> Letter(v) == 0x2F
    ensures PAD == 0x3D
  {
  }

  // Three bytes and their four sextets are the same 24-bit number; a rest is filled up with zero bits.
  lemma {:induction false} GroupsAreNumbers(bs: seq<Byte>, g: nat)
    requires 3 * g < |bs|
    ensures var vs := ToSextets(bs);
            var rest := |bs| - 3 * g;
            && |vs| >= 4 * g + (if rest >= 3 then 4 else rest + 1)
            && var b := bs[3 * g] as int * 65536 + (if rest > 1 then bs[3 * g + 1] as int * 256 else 0) + (if rest > 2 then bs[3 * g + 2] as int else 0);
               b == vs[4 * g] as int * 262144 + vs[4 * g + 1] as int * 4096
                    + (if rest > 1 then vs[4 * g + 2] as int * 64 else 0) + (if rest > 2 then vs[4 * g + 3] as int else 0)
    decreases g
  {
    if g > 0 {
      GroupsAreNumbers(bs[3..], g - 1);
      assert forall i | 4 <= i < |ToSextets(bs)| :: ToSextets(bs)[i] == ToSextets(bs[3..])[i - 4];
      assert forall i | 3 <= i < |bs| :: bs[i] == bs[3..][i - 3];
    }
  }

  lemma GroupReads(a: Byte, b: Byte, c: Byte, vs: seq<Sextet>)
    ensures FromSextets([a / 4, a % 4 * 16 + b / 16, b % 16 * 4 + c / 64, c % 64] + vs) == [a, b, c] + FromSextets(vs)
  {
    var head := [a / 4, a % 4 * 16 + b / 16, b % 16 * 4 + c / 64, c % 64];
    assert (head + vs)[4..] == vs;
    assert HighByte(head[0], head[1]) == a && MiddleByte(head[1], head[2]) == b && LowByte(head[2], head[3]) == c;
  }

  lemma {:induction false} SextetsRoundTrip(bs: seq<Byte>)
    ensures FromSextets(ToSextets(bs)) == bs
  {
    if |bs| >= 3 {
      SextetsRoundTrip(bs[3..]);
      GroupReads(bs[0], bs[1], bs[2], ToSextets(bs[3..]));
      assert bs == [bs[0], bs[1], bs[2]] + bs[3..];
    }
  }

  lemma LetterValue(v: Sextet)
    ensures Value(Letter(v)) == Some(v) && LenientValue(Letter(v)) == Some(v)
    ensures Letter(v) != PAD && !AsciiSpace(Letter(v))
  {
  }

  lemma LettersCons(vs: seq<Sextet>)
    requires vs != []
    ensures Letters(vs) == [Letter(vs[0])] + Letters(vs[1..])
  {
  }

  lemma LetterReads(v: Sextet, t: Text, vs: seq<Sextet>)
    requires AllValues(t) == Some(vs) && WithoutSpace(t) == t
    ensures AllValues([Letter(v)] + t) == Some([v] + vs) && WithoutSpace([Letter(v)] + t) == [Letter(v)] + t
  {
    LetterValue(v);
    assert ([Letter(v)] + t)[1..] == t;
  }

  lemma {:induction false} LettersRead(vs: seq<Sextet>)
    ensures AllValues(Letters(vs)) == Some(vs)
    ensures WithoutSpace(Letters(vs)) == Letters(vs)
  {
    if vs != [] {
      LettersRead(vs[1..]);
      LettersCons(vs);
      LetterReads(vs[0], Letters(vs[1..]), vs[1..]);
      assert vs == [vs[0]] + vs[1..];
    }
  }

  lemma {:induction false} WithoutSpaceAppend(a: Text, b: Text)
    ensures WithoutSpace(a + b) == WithoutSpace(a) + WithoutSpace(b)
  {
    if a == [] {
      assert a + b == b;
    } else {
      assert (a + b)[1..] == a[1..] + b;
      WithoutSpaceAppend(a[1..], b);
    }
  }

  lemma {:induction false} PaddingHasNoSpace(n: nat)
    ensures WithoutSpace(Repeat(PAD, n)) == Repeat(PAD, n)
  {
    if n != 0 {
      PaddingHasNoSpace(n - 1);
      assert Repeat(PAD, n)[1..] == Repeat(PAD, n - 1);
    }
  }

  // A text that ends in no padding, with n characters of it up to a multiple of four.
  lemma PadsComeOff(t: Text, n: nat)
    requires n <= 2 && (|t| + n) % 4 == 0
    requires t != [] ==> t[|t| - 1] != PAD
    ensures WithoutPadding(t + Repeat(PAD, n)) == t
  {
    var s := t + Repeat(PAD, n);
    if n == 0 {
      assert s == t;
    } else {
      assert s[|s| - 1] == PAD && s[..|t|] == t;
      assert n == 1 ==> s[|s| - 2] == t[|t| - 1];
    }
  }

  lemma PaddingComesOff(t: Text)
    requires |t| % 4 != 1
    requires t != [] ==> t[|t| - 1] != PAD
    ensures WithoutPadding(t + Padding(|t|)) == t
  {
    PadCount(|t|);
    PadsComeOff(t, (4 - |t| % 4) % 4);
  }

  lemma PadCount(length: nat)
    requires length % 4 != 1
    ensures var n := (4 - length % 4) % 4; n <= 2 && (length + n) % 4 == 0
  {
    var q, r := length / 4, length % 4;
    assert length == 4 * q + r;
    assert r != 0 ==> length + (4 - r) == 4 * (q + 1);
  }

  lemma EncodedHasNoSpace(vs: seq<Sextet>, n: nat)
    ensures WithoutSpace(Letters(vs) + Repeat(PAD, n)) == Letters(vs) + Repeat(PAD, n)
  {
    LettersRead(vs);
    WithoutSpaceAppend(Letters(vs), Repeat(PAD, n));
    PaddingHasNoSpace(n);
  }

  lemma EncodedPaddingComesOff(vs: seq<Sextet>)
    requires |vs| % 4 != 1
    ensures WithoutPadding(Letters(vs) + Padding(|vs|)) == Letters(vs)
  {
    if vs != [] {
      LetterValue(vs[|vs| - 1]);
    }
    PaddingComesOff(Letters(vs));
  }

  lemma SextetCount(n: nat)
    ensures (4 * n + 2) / 3 % 4 != 1
  {
    var q, r := n / 3, n % 3;
    assert n == 3 * q + r;
    assert (4 * n + 2) / 3 == 4 * q + (4 * r + 2) / 3;
  }

  // The browser's decoder undoes the encoder.
  lemma AtobEncode(bs: seq<Byte>)
    ensures Atob(Encode(bs)) == Some(bs)
  {
    var vs := ToSextets(bs);
    SextetCount(|bs|);
    EncodedHasNoSpace(vs, |Padding(|vs|)|);
    EncodedPaddingComesOff(vs);
    LettersRead(vs);
    SextetsRoundTrip(bs);
  }

  // Node's decoder reads the same sextets after any interleaving of skipped characters: only the
  // letters count.
  predicate Skipped(u: Unit) { u != PAD && LenientValue(u) == None }

  function Unskipped(t: Text): Text {
    if t == [] then []
    else if Skipped(t[0]) then Unskipped(t[1..])
    else [t[0]] + Unskipped(t[1..])
  }

  lemma {:induction false} SkippingChangesNothing(t: Text)
    ensures LenientSextets(t) == LenientSextets(Unskipped(t))
  {
    if t != [] {
      SkippingChangesNothing(t[1..]);
      if !Skipped(t[0]) {
        assert Unskipped(t)[0] == t[0] && Unskipped(t)[1..] == Unskipped(t[1..]);
      }
    }
  }

  lemma LenientLetterReads(v: Sextet, t: Text)
    ensures LenientSextets([Letter(v)] + t) == [v] + LenientSextets(t)
  {
    LetterValue(v);
    assert ([Letter(v)] + t)[1..] == t;
  }

  lemma {:induction false} LenientLetters(vs: seq<Sextet>, n: nat)
    ensures LenientSextets(Letters(vs) + Repeat(PAD, n)) == vs
  {
    if vs != [] {
      var t := Letters(vs[1..]) + Repeat(PAD, n);
      LenientLetters(vs[1..], n);
      LenientLetterReads(vs[0], t);
      LettersCons(vs);
      assert Letters(vs) + Repeat(PAD, n) == [Letter(vs[0])] + t;
      assert vs == [vs[0]] + vs[1..];
    }
  }

  lemma LenientEncode(bs: seq<Byte>)
    ensures LenientDecode(Encode(bs)) == bs
  {
    LenientLetters(ToSextets(bs), |Padding(|ToSextets(bs)|)|);
    assert Padding(|ToSextets(bs)|) == Repeat(PAD, |Padding(|ToSextets(bs)|)|);
    SextetsRoundTrip(bs);
  }
}
