/** JavaScript strings as sequences of UTF-16 code units, and the few string operations the codecs share. */
module JsText {

  datatype Option<+T> = None | Some(value: T)

  type Byte = b: int | 0 <= b < 0x100
  type Unit = u: int | 0 <= u < 0x1_0000
  type Text = seq<Unit>

  const BACKSLASH: Unit := 0x5C
  const COLON: Unit := 0x3A

  // A Unicode scalar value: what UTF-8 can carry.
  type Point = p: int | 0 <= p < 0xD800 || 0xE000 <= p < 0x11_0000

  predicate High(u: Unit) { 0xD800 <= u < 0xDC00 }

  predicate Low(u: Unit) { 0xDC00 <= u < 0xE000 }

  predicate Surrogate(u: Unit) { 0xD800 <= u < 0xE000 }

  predicate StartsWithPair(s: Text) { |s| >= 2 && High(s[0]) && Low(s[1]) }

  // No lone surrogate anywhere.
  predicate WellFormed(s: Text) {
    s == [] ||
    if StartsWithPair(s) then WellFormed(s[2..]) else !Surrogate(s[0]) && WellFormed(s[1..])
  }

  function PairPoint(hi: Unit, lo: Unit): Point
    requires High(hi) && Low(lo)
  {
    0x1_0000 + (hi - 0xD800) * 0x400 + (lo - 0xDC00)
  }

  // UTF16EncodeCodePoint of ECMA-262.
  function UnitsOf(p: Point): Text {
    if p < 0x1_0000 then [p]
    else [0xD800 + (p - 0x1_0000) / 0x400, 0xDC00 + (p - 0x1_0000) % 0x400]
  }

  function Ascii(s: string): (t: Text)
    requires forall i :: 0 <= i < |s| ==> s[i] < '\U{80}'
    ensures |t| == |s| && forall i :: 0 <= i < |s| ==> t[i] == s[i] as int
  {
    seq(|s|, i requires 0 <= i < |s| => s[i] as int)
  }

  function Repeat<T>(x: T, n: nat): (t: seq<T>)
    ensures |t| == n && forall i :: 0 <= i < n ==> t[i] == x
  {
    seq(n, _ => x)
  }

  // Math.pow(2, n).
  function Power2(n: nat): (p: nat)
    ensures p >= 1
  {
    if n == 0 then 1 else 2 * Power2(n - 1)
  }

  predicate HasPrefix<T(==)>(t: seq<T>, p: seq<T>) { |p| <= |t| && t[..|p|] == p }

  // String.prototype.includes.
  predicate Includes<T(==)>(t: seq<T>, p: seq<T>) {
    HasPrefix(t, p) || (t != [] && Includes(t[1..], p))
  }

  // A string without lone surrogates stays one when two are put end to end.
  lemma {:induction false} WellFormedAppend(a: Text, b: Text)
    requires WellFormed(a) && WellFormed(b)
    ensures WellFormed(a + b)
  {
    if a == [] {
      assert a + b == b;
    } else if StartsWithPair(a) {
      WellFormedAppend(a[2..], b);
      assert (a + b)[2..] == a[2..] + b;
    } else {
      WellFormedAppend(a[1..], b);
      assert (a + b)[1..] == a[1..] + b;
    }
  }

  lemma {:induction false} AsciiWellFormed(a: Text)
    requires forall i :: 0 <= i < |a| ==> !Surrogate(a[i])
    ensures WellFormed(a)
  {
    if a != [] {
      AsciiWellFormed(a[1..]);
    }
  }
}
