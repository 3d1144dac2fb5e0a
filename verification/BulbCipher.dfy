/** The LAN bulb cipher of src/util.js: 0x05 padding, then PKCS#7 (section 6.3 of RFC 5652) and CBC
    (section 6.2 of NIST SP 800-38A) with the key as IV, then base64 with escaped slashes. The block
    cipher itself is any keyed permutation. */
module BulbCipher {
  import opened JsText
  import Base64

  const BLOCK_SIZE: nat := 16
  const PADDING: Byte := 5
  const SLASH: Unit := '/' as int

  type Block = b: seq<Byte> | |b| == BLOCK_SIZE witness seq(BLOCK_SIZE, _ => 0)

  datatype BlockCipher = BlockCipher(encrypt: (Block, Block) -> Block, decrypt: (Block, Block) -> Block)

  // Decrypting under a key undoes encrypting under it.
  ghost predicate Permutes(c: BlockCipher) {
    forall k, b :: c.decrypt(k, c.encrypt(k, b)) == b
  }

  // --- Exclusive or ------------------------------------------------------------------------

  function XorBits(a: nat, b: nat, bits: nat): nat {
    if bits == 0 then 0 else LowXor(a, b) + 2 * XorBits(a / 2, b / 2, bits - 1)
  }

  function LowXor(a: nat, b: nat): nat { if a % 2 == b % 2 then 0 else 1 }

  lemma {:induction false} XorBitsUndone(a: nat, b: nat, bits: nat)
    requires a < Power2(bits)
    ensures XorBits(a, b, bits) < Power2(bits)
    ensures XorBits(XorBits(a, b, bits), b, bits) == a
  {
    if bits != 0 {
      XorBitsUndone(a / 2, b / 2, bits - 1);
      var high := XorBits(a / 2, b / 2, bits - 1);
      var x := LowXor(a, b) + 2 * high;
      assert x / 2 == high && x % 2 == LowXor(a, b);
      assert LowXor(x, b) == a % 2;
    }
  }

  lemma ByteRange()
    ensures Power2(8) == 256
  {
    assert Power2(4) == 16;
  }

  function XorByte(a: Byte, b: Byte): Byte {
    ByteRange();
    XorBitsUndone(a, b, 8);
    XorBits(a, b, 8)
  }

  function Xor(a: Block, b: Block): (r: Block)
    ensures forall i :: 0 <= i < BLOCK_SIZE ==> r[i] == XorByte(a[i], b[i])
  {
    seq(BLOCK_SIZE, i requires 0 <= i < BLOCK_SIZE => XorByte(a[i], b[i]))
  }

  lemma XorUndone(a: Block, b: Block)
    ensures Xor(Xor(a, b), b) == a
  {
    forall i | 0 <= i < BLOCK_SIZE
      ensures Xor(Xor(a, b), b)[i] == a[i]
    {
      ByteRange();
      XorBitsUndone(a[i], b[i], 8);
    }
  }

  // --- Cipher block chaining ---------------------------------------------------------------

  function CbcEncrypt(c: BlockCipher, key: Block, iv: Block, bs: seq<Byte>): (r: seq<Byte>)
    requires |bs| % BLOCK_SIZE == 0
    ensures |r| == |bs|
    decreases |bs|
  {
    if bs == [] then []
    else
      var block: seq<Byte> := c.encrypt(key, Xor(bs[..BLOCK_SIZE], iv));
      block + CbcEncrypt(c, key, block, bs[BLOCK_SIZE..])
  }

  function CbcDecrypt(c: BlockCipher, key: Block, iv: Block, bs: seq<Byte>): (r: seq<Byte>)
    requires |bs| % BLOCK_SIZE == 0
    ensures |r| == |bs|
    decreases |bs|
  {
    if bs == [] then []
    else Xor(c.decrypt(key, bs[..BLOCK_SIZE]), iv) + CbcDecrypt(c, key, bs[..BLOCK_SIZE], bs[BLOCK_SIZE..])
  }

  lemma {:induction false} CbcUndone(c: BlockCipher, key: Block, iv: Block, bs: seq<Byte>)
    requires Permutes(c) && |bs| % BLOCK_SIZE == 0
    ensures CbcDecrypt(c, key, iv, CbcEncrypt(c, key, iv, bs)) == bs
    decreases |bs|
  {
    if bs != [] {
      var plain: Block := bs[..BLOCK_SIZE];
      var block: seq<Byte> := c.encrypt(key, Xor(plain, iv));
      var rest := CbcEncrypt(c, key, block, bs[BLOCK_SIZE..]);
      assert (block + rest)[..BLOCK_SIZE] == block && (block + rest)[BLOCK_SIZE..] == rest;
      CbcUndone(c, key, block, bs[BLOCK_SIZE..]);
      XorUndone(plain, iv);
      assert bs == plain + bs[BLOCK_SIZE..];
    }
  }

  // --- Paddings ----------------------------------------------------------------------------

  // Buffer.from(text, "ascii") keeps the low byte of every unit.
  function LowBytes(t: Text): (r: seq<Byte>)
    ensures |r| == |t| && forall i :: 0 <= i < |t| ==> r[i] == t[i] % 256
  {
    seq(|t|, i requires 0 <= i < |t| => t[i] % 256)
  }

  // buffer.toString("ascii") clears the high bit of every byte.
  function SevenBits(bs: seq<Byte>): (t: Text)
    ensures |t| == |bs| && forall i :: 0 <= i < |bs| ==> t[i] == bs[i] % 128
  {
    seq(|bs|, i requires 0 <= i < |bs| => bs[i] % 128)
  }

  // pad() of the source: a whole block when the length is already a multiple.
  function Pad(t: Text): (r: seq<Byte>)
    ensures |r| % BLOCK_SIZE == 0
  {
    LowBytes(t) + Repeat(PADDING, BLOCK_SIZE - |t| % BLOCK_SIZE)
  }

  function Pkcs7(bs: seq<Byte>): (r: seq<Byte>)
    ensures |r| % BLOCK_SIZE == 0 && |r| > |bs|
  {
    var n := BLOCK_SIZE - |bs| % BLOCK_SIZE;
    bs + Repeat<Byte>(n, n)
  }

  // What decipher.final() checks and strips.
  function Unpad(bs: seq<Byte>): Option<seq<Byte>> {
    if bs == [] then None
    else
      var n: int := bs[|bs| - 1];
      if 1 <= n <= BLOCK_SIZE && n <= |bs| && bs[|bs| - n..] == Repeat<Byte>(n, n) then Some(bs[..|bs| - n]) else None
  }

  // What the cipher is fed: the text's bytes, 0x05 up to a whole block (a further block when there is
  // nothing to fill), and a block of 0x10.
  lemma PlaintextLayout(text: Text)
    ensures Pkcs7(Pad(text)) == LowBytes(text) + Repeat<Byte>(0x05, 16 - |text| % 16) + Repeat<Byte>(0x10, 16)
  {
  }

  // Block n of the ciphertext is the encryption of block n of the plaintext combined with the ciphertext
  // block before it, with the initialisation vector before the first.
  lemma {:induction false} CbcBlocks(c: BlockCipher, key: Block, iv: Block, bs: seq<Byte>, n: nat)
    requires |bs| % BLOCK_SIZE == 0 && BLOCK_SIZE * (n + 1) <= |bs|
    ensures var enc := CbcEncrypt(c, key, iv, bs);
            enc[16 * n..16 * n + 16]
            == c.encrypt(key, Xor(bs[16 * n..16 * n + 16], if n == 0 then iv else enc[16 * (n - 1)..16 * n]))
    decreases n
  {
    var block: seq<Byte> := c.encrypt(key, Xor(bs[..BLOCK_SIZE], iv));
    var rest := CbcEncrypt(c, key, block, bs[BLOCK_SIZE..]);
    var enc := CbcEncrypt(c, key, iv, bs);
    assert enc == block + rest;
    if n == 0 {
      assert enc[0..16] == block && bs[0..16] == bs[..16];
    } else {
      var at := 16 * (n - 1);
      assert 16 * n == at + 16;
      CbcBlocks(c, key, block, bs[BLOCK_SIZE..], n - 1);
      assert bs[BLOCK_SIZE..] == bs[16..];
      LaterPart(bs, bs[..16], bs[16..], at, at + 16);
      LaterPart(enc, block, rest, at, at + 16);
      if n == 1 {
        assert enc[0..16] == block;
      } else {
        assert 16 * (n - 1 - 1) == at - 16;
        LaterPart(enc, block, rest, at - 16, at);
      }
    }
  }

  lemma LaterPart(whole: seq<Byte>, head: seq<Byte>, tail: seq<Byte>, i: nat, j: nat)
    requires whole == head + tail && |head| == 16 && i <= j <= |tail|
    ensures whole[i + 16..j + 16] == tail[i..j]
  {
  }

  // The key is also the initialisation vector.
  lemma FirstBlock(c: BlockCipher, key: Text, text: Text)
    requires |key| == BLOCK_SIZE
    ensures Ciphertext(c, key, text).Some? && |Ciphertext(c, key, text).value| >= 32
    ensures Ciphertext(c, key, text).value[0..16]
            == c.encrypt(LowBytes(key), Xor(Pkcs7(Pad(text))[0..16], LowBytes(key)))
  {
    PlaintextLayout(text);
    CbcBlocks(c, LowBytes(key), LowBytes(key), Pkcs7(Pad(text)), 0);
  }

  lemma UnpadPkcs7(bs: seq<Byte>)
    ensures Unpad(Pkcs7(bs)) == Some(bs)
  {
    var n := BLOCK_SIZE - |bs| % BLOCK_SIZE;
    var p := Pkcs7(bs);
    assert p[|bs|..] == Repeat<Byte>(n, n) && p[..|bs|] == bs;
  }

  // --- wyzeEncrypt and wyzeDecrypt ---------------------------------------------------------

  function EscapeSlashes(t: Text): Text {
    if t == [] then []
    else (if t[0] == SLASH then [BACKSLASH, SLASH] else [t[0]]) + EscapeSlashes(t[1..])
  }

  function WithoutFives(t: Text): Text {
    if t == [] then []
    else if t[0] == PADDING then WithoutFives(t[1..])
    else [t[0]] + WithoutFives(t[1..])
  }

  // The ciphertext; None is the error for a key that is not 16 characters long.
  function Ciphertext(c: BlockCipher, key: Text, text: Text): Option<seq<Byte>> {
    if |key| != BLOCK_SIZE then None
    else Some(CbcEncrypt(c, LowBytes(key), LowBytes(key), Pkcs7(Pad(text))))
  }

  function WyzeEncrypt(c: BlockCipher, key: Text, text: Text): Option<Text> {
    match Ciphertext(c, key, text)
    case None => None
    case Some(bs) => Some(EscapeSlashes(Base64.Encode(bs)))
  }

  function WyzeDecrypt(c: BlockCipher, key: Text, enc: Text): Option<Text> {
    var bs := Base64.LenientDecode(enc);
    if |key| != BLOCK_SIZE || |bs| % BLOCK_SIZE != 0 then None
    else match Unpad(CbcDecrypt(c, LowBytes(key), LowBytes(key), bs))
      case None => None
      case Some(raw) => Some(WithoutFives(SevenBits(raw)))
  }

  // What of a text survives the trip: seven bits of each unit, and no 0x05.
  function Surviving(text: Text): Text { WithoutFives(SevenBits(LowBytes(text))) }

  predicate SevenBit(text: Text) { forall i :: 0 <= i < |text| ==> text[i] < 128 }

  lemma BackslashIsSkipped(t: Text)
    ensures Base64.Unskipped([BACKSLASH, SLASH] + t) == Base64.Unskipped([SLASH] + t)
  {
    UnskippedUnit(BACKSLASH, [SLASH] + t);
    TwoUnits(BACKSLASH, SLASH, t);
  }

  lemma TwoUnits(a: Unit, b: Unit, t: Text)
    ensures [a, b] + t == [a] + ([b] + t)
  {
  }

  lemma UnskippedUnit(u: Unit, t: Text)
    ensures Base64.Unskipped([u] + t) == (if Base64.Skipped(u) then [] else [u]) + Base64.Unskipped(t)
  {
    assert ([u] + t)[1..] == t;
  }

  lemma {:induction false} EscapedSlashesAreSkipped(t: Text)
    ensures Base64.Unskipped(EscapeSlashes(t)) == Base64.Unskipped(t)
  {
    if t != [] {
      var rest := EscapeSlashes(t[1..]);
      EscapedSlashesAreSkipped(t[1..]);
      BackslashIsSkipped(rest);
      UnskippedUnit(t[0], rest);
    }
  }

  // The lenient decoder reads the same bytes with and without the escapes.
  lemma EscapedSlashesDecode(bs: seq<Byte>)
    ensures Base64.LenientDecode(EscapeSlashes(Base64.Encode(bs))) == bs
  {
    var t := Base64.Encode(bs);
    EscapedSlashesAreSkipped(t);
    Base64.SkippingChangesNothing(EscapeSlashes(t));
    Base64.SkippingChangesNothing(t);
    Base64.LenientEncode(bs);
  }

  lemma {:induction false} WithoutFivesAppend(a: Text, b: Text)
    ensures WithoutFives(a + b) == WithoutFives(a) + WithoutFives(b)
  {
    if a == [] {
      assert a + b == b;
    } else {
      assert (a + b)[1..] == a[1..] + b;
      WithoutFivesAppend(a[1..], b);
    }
  }

  lemma {:induction false} OnlyFives(n: nat)
    ensures WithoutFives(Repeat(PADDING, n)) == []
  {
    if n != 0 {
      assert Repeat(PADDING, n)[1..] == Repeat(PADDING, n - 1);
      OnlyFives(n - 1);
    }
  }

  lemma PadIsDropped(text: Text)
    ensures WithoutFives(SevenBits(Pad(text))) == Surviving(text)
  {
    var n := BLOCK_SIZE - |text| % BLOCK_SIZE;
    assert SevenBits(Pad(text)) == SevenBits(LowBytes(text)) + Repeat(PADDING, n);
    WithoutFivesAppend(SevenBits(LowBytes(text)), Repeat(PADDING, n));
    OnlyFives(n);
  }

  lemma DecryptsBytes(c: BlockCipher, key: Text, text: Text, enc: Text)
    requires Permutes(c) && |key| == BLOCK_SIZE
    requires Base64.LenientDecode(enc) == Ciphertext(c, key, text).value
    ensures WyzeDecrypt(c, key, enc) == Some(Surviving(text))
  {
    CbcUndone(c, LowBytes(key), LowBytes(key), Pkcs7(Pad(text)));
    UnpadPkcs7(Pad(text));
    PadIsDropped(text);
  }

  // Decrypting what was encrypted gives the text's seven-bit units without 0x05, for every text,
  // every 16-character key and every keyed permutation; plain base64 decrypts the same.
  lemma DecryptEncrypt(c: BlockCipher, key: Text, text: Text)
    requires Permutes(c)
    ensures WyzeEncrypt(c, key, text).Some? <==> |key| == BLOCK_SIZE
    ensures |key| == BLOCK_SIZE ==>
              && WyzeDecrypt(c, key, WyzeEncrypt(c, key, text).value) == Some(Surviving(text))
              && WyzeDecrypt(c, key, Base64.Encode(Ciphertext(c, key, text).value)) == Some(Surviving(text))
  {
    if |key| == BLOCK_SIZE {
      var bs := Ciphertext(c, key, text).value;
      EscapedSlashesDecode(bs);
      Base64.LenientEncode(bs);
      DecryptsBytes(c, key, text, EscapeSlashes(Base64.Encode(bs)));
      DecryptsBytes(c, key, text, Base64.Encode(bs));
    }
  }

  lemma {:induction false} WithoutFivesShrinks(t: Text)
    ensures |WithoutFives(t)| <= |t|
    ensures |WithoutFives(t)| == |t| ==> WithoutFives(t) == t
    ensures PADDING in t <==> |WithoutFives(t)| < |t|
  {
    if t != [] {
      WithoutFivesShrinks(t[1..]);
      assert t == [t[0]] + t[1..];
    }
  }

  lemma SevenBitsExactly(text: Text)
    ensures |SevenBits(LowBytes(text))| == |text|
    ensures SevenBits(LowBytes(text)) == text <==> SevenBit(text)
  {
    var seven := SevenBits(LowBytes(text));
    forall i | 0 <= i < |text|
      ensures seven[i] == text[i] <==> text[i] < 128
    {
      assert seven[i] == text[i] % 256 % 128;
    }
    if seven == text {
      assert SevenBit(text);
    }
  }

  // A text comes back unchanged exactly when it is seven-bit and holds no 0x05.
  lemma SurvivesUnchanged(text: Text)
    ensures Surviving(text) == text <==> SevenBit(text) && PADDING !in text
  {
    WithoutFivesShrinks(SevenBits(LowBytes(text)));
    SevenBitsExactly(text);
  }
}
