/** JSON.stringify without indentation and JSON.parse (RFC 8259, with the escapes of ECMA-262's
    QuoteJSONString). A number is kept as its written form. */
module JsonText {
  import opened JsText
  import PercentCoding

  datatype Json =
    | Null
    | Bool(b: bool)
    | Number(lexeme: Text)
    | Str(s: Text)
    | Arr(items: seq<Json>)
    | Obj(members: seq<Member>)

  datatype Member = Member(key: Text, value: Json)

  const QUOTE: Unit := 0x22
  const COMMA: Unit := 0x2C

  // --- Numbers -----------------------------------------------------------------------------

  predicate Digit(u: Unit) { '0' as int <= u <= '9' as int }

  predicate NumberUnit(u: Unit) { Digit(u) || u in {0x2D, 0x2B, 0x2E, 0x45, 0x65} }

  function DigitRun(t: Text): (n: nat)
    ensures n <= |t|
  {
    if t == [] || !Digit(t[0]) then 0 else 1 + DigitRun(t[1..])
  }

  predicate ValidNumber(t: Text) {
    && (forall i :: 0 <= i < |t| ==> NumberUnit(t[i]))
    && ValidInteger(if HasPrefix(t, [0x2D]) then t[1..] else t)
  }

  predicate ValidInteger(t: Text) {
    var n := DigitRun(t);
    n > 0 && (t[0] == '0' as int ==> n == 1) && ValidFraction(t[n..])
  }

  predicate ValidFraction(t: Text) {
    if HasPrefix(t, [0x2E]) then
      var n := DigitRun(t[1..]);
      n > 0 && ValidExponent(t[1 + n..])
    else ValidExponent(t)
  }

  predicate ValidExponent(t: Text) {
    t == [] ||
    (t[0] in {0x45, 0x65} &&
     var d := if |t| > 1 && t[1] in {0x2B, 0x2D} then t[2..] else t[1..];
     |d| > 0 && DigitRun(d) == |d|)
  }

  ghost predicate Valid(v: Json) {
    match v
    case Null | Bool(_) | Str(_) => true
    case Number(lexeme) => ValidNumber(lexeme)
    case Arr(items) => forall i | 0 <= i < |items| :: Valid(items[i])
    case Obj(members) => forall i | 0 <= i < |members| :: Valid(members[i].value)
  }

  // --- JSON.stringify ----------------------------------------------------------------------

  function LowerHex(n: nat): Unit
    requires n < 16
  {
    if n < 10 then '0' as int + n else 'a' as int + (n - 10)
  }

  function UnicodeEscape(u: Unit): Text {
    [BACKSLASH, 'u' as int, LowerHex(u / 4096), LowerHex(u / 256 % 16), LowerHex(u / 16 % 16), LowerHex(u % 16)]
  }

  function QuoteUnit(u: Unit): Text {
    if u == QUOTE || u == BACKSLASH then [BACKSLASH, u]
    else if u == 8 then [BACKSLASH, 'b' as int]
    else if u == 9 then [BACKSLASH, 't' as int]
    else if u == 10 then [BACKSLASH, 'n' as int]
    else if u == 12 then [BACKSLASH, 'f' as int]
    else if u == 13 then [BACKSLASH, 'r' as int]
    else if u < 0x20 || Surrogate(u) then UnicodeEscape(u)
    else [u]
  }

  // A surrogate pair is written as it is, a lone surrogate escaped.
  function QuoteBody(s: Text): Text {
    if s == [] then []
    else if StartsWithPair(s) then s[..2] + QuoteBody(s[2..])
    else QuoteUnit(s[0]) + QuoteBody(s[1..])
  }

  function Quote(s: Text): Text { [QUOTE] + QuoteBody(s) + [QUOTE] }

  const NULL: Text := ['n' as int, 'u' as int, 'l' as int, 'l' as int]
  const TRUE: Text := ['t' as int, 'r' as int, 'u' as int, 'e' as int]
  const FALSE: Text := ['f' as int, 'a' as int, 'l' as int, 's' as int, 'e' as int]

  function Stringify(v: Json): Text
    decreases v, 1
  {
    match v
    case Null => NULL
    case Bool(b) => if b then TRUE else FALSE
    case Number(lexeme) => lexeme
    case Str(s) => Quote(s)
    case Arr(items) => ['[' as int] + Items(items) + [']' as int]
    case Obj(members) => ['{' as int] + Members(members) + ['}' as int]
  }

  function Items(items: seq<Json>): Text
    decreases items, 0
  {
    if items == [] then []
    else Stringify(items[0]) + (if |items| == 1 then [] else [COMMA] + Items(items[1..]))
  }

  function Members(members: seq<Member>): Text
    decreases members, 0
  {
    if members == [] then []
    else
      Quote(members[0].key) + [COLON] + Stringify(members[0].value)
      + (if |members| == 1 then [] else [COMMA] + Members(members[1..]))
  }

  // --- JSON.parse --------------------------------------------------------------------------

  datatype Parsed<+T> = Fail | Got(value: T, rest: Text)

  predicate Space(u: Unit) { u in {9, 10, 13, 32} }

  function SkipSpace(t: Text): (r: Text)
    ensures |r| <= |t|
    ensures t != [] && !Space(t[0]) ==> r == t
  {
    if t != [] && Space(t[0]) then SkipSpace(t[1..]) else t
  }

  // The rest of a string literal after its opening quote.
  function ParseString(t: Text): (r: Parsed<Text>)
    ensures r.Got? ==> |r.rest| < |t|
  {
    if t == [] || t[0] < 0x20 then Fail
    else if t[0] == QUOTE then Got([], t[1..])
    else if t[0] != BACKSLASH then Prepend(t[0], ParseString(t[1..]))
    else if |t| < 2 then Fail
    else if t[1] != 'u' as int then
      match Unescaped(t[1])
      case None => Fail
      case Some(u) => Prepend(u, ParseString(t[2..]))
    else
      match FourHex(t)
      case None => Fail
      case Some(u) => Prepend(u, ParseString(t[6..]))
  }

  function Prepend(u: Unit, r: Parsed<Text>): Parsed<Text> {
    if r.Got? then Got([u] + r.value, r.rest) else Fail
  }

  function Unescaped(u: Unit): Option<Unit> {
    if u in {QUOTE, BACKSLASH, '/' as int} then Some(u)
    else if u == 'b' as int then Some(8)
    else if u == 't' as int then Some(9)
    else if u == 'n' as int then Some(10)
    else if u == 'f' as int then Some(12)
    else if u == 'r' as int then Some(13)
    else None
  }

  function FourHex(t: Text): (r: Option<Unit>)
    ensures r.Some? ==> |t| >= 6
  {
    if |t| < 6 then None
    else match (PercentCoding.HexByte(t, 2), PercentCoding.HexByte(t, 4))
      case (Some(h), Some(l)) => Some(256 * h as int + l)
      case _ => None
  }

  function NumberRun(t: Text): (n: nat)
    ensures n <= |t|
  {
    if t == [] || !NumberUnit(t[0]) then 0 else 1 + NumberRun(t[1..])
  }

  function ParseNumber(t: Text): (r: Parsed<Json>)
    ensures r.Got? ==> |r.rest| < |t|
  {
    var n := NumberRun(t);
    if n > 0 && ValidNumber(t[..n]) then Got(Number(t[..n]), t[n..]) else Fail
  }

  function ParseWord(t: Text, word: Text, v: Json): (r: Parsed<Json>)
    requires word != []
    ensures r.Got? ==> |r.rest| < |t|
  {
    if HasPrefix(t, word) then Got(v, t[|word|..]) else Fail
  }

  function ParseValue(t: Text): (r: Parsed<Json>)
    ensures r.Got? ==> |r.rest| < |t|
    decreases |t|, 0
  {
    if t == [] then Fail
    else if t[0] == 'n' as int then ParseWord(t, NULL, Null)
    else if t[0] == 't' as int then ParseWord(t, TRUE, Bool(true))
    else if t[0] == 'f' as int then ParseWord(t, FALSE, Bool(false))
    else if t[0] == QUOTE then
      var s := ParseString(t[1..]);
      if s.Got? then Got(Str(s.value), s.rest) else Fail
    else if t[0] == '[' as int then
      var u := SkipSpace(t[1..]);
      if u != [] && u[0] == ']' as int then Got(Arr([]), u[1..])
      else
        var items := ParseItems(u);
        if items.Got? then Got(Arr(items.value), items.rest) else Fail
    else if t[0] == '{' as int then
      var u := SkipSpace(t[1..]);
      if u != [] && u[0] == '}' as int then Got(Obj([]), u[1..])
      else
        var members := ParseMembers(u);
        if members.Got? then Got(Obj(members.value), members.rest) else Fail
    else ParseNumber(t)
  }

  // Items up to and including the closing bracket.
  function ParseItems(t: Text): (r: Parsed<seq<Json>>)
    ensures r.Got? ==> |r.rest| < |t|
    decreases |t|, 1
  {
    var first := ParseValue(t);
    if first.Fail? then Fail
    else
      var u := SkipSpace(first.rest);
      if u == [] then Fail
      else if u[0] == ']' as int then Got([first.value], u[1..])
      else if u[0] != COMMA then Fail
      else
        var others := ParseItems(SkipSpace(u[1..]));
        if others.Got? then Got([first.value] + others.value, others.rest) else Fail
  }

  // Members up to and including the closing brace.
  function ParseMembers(t: Text): (r: Parsed<seq<Member>>)
    ensures r.Got? ==> |r.rest| < |t|
    decreases |t|, 1
  {
    var first := ParseMember(t);
    if first.Fail? then Fail
    else
      var u := SkipSpace(first.rest);
      if u == [] then Fail
      else if u[0] == '}' as int then Got([first.value], u[1..])
      else if u[0] != COMMA then Fail
      else
        var others := ParseMembers(SkipSpace(u[1..]));
        if others.Got? then Got([first.value] + others.value, others.rest) else Fail
  }

  function ParseMember(t: Text): (r: Parsed<Member>)
    ensures r.Got? ==> |r.rest| < |t|
    decreases |t|, 0
  {
    if t == [] || t[0] != QUOTE then Fail
    else
      var key := ParseString(t[1..]);
      if key.Fail? then Fail
      else
        var u := SkipSpace(key.rest);
        if u == [] || u[0] != COLON then Fail
        else
          var value := ParseValue(SkipSpace(u[1..]));
          if value.Got? then Got(Member(key.value, value.value), value.rest) else Fail
  }

  // JSON.parse; None is the thrown SyntaxError.
  function Parse(t: Text): Option<Json> {
    var r := ParseValue(SkipSpace(t));
    if r.Got? && SkipSpace(r.rest) == [] then Some(r.value) else None
  }

  // --- Reading back what was written -------------------------------------------------------

  lemma HexRoundTrip(n: nat)
    requires n < 16
    ensures PercentCoding.HexValue(LowerHex(n)) == Some(n)
  {
  }

  lemma FourHexOf(t: Text, a: nat, b: nat, c: nat, d: nat)
    requires a < 16 && b < 16 && c < 16 && d < 16 && |t| >= 6
    requires t[2] == LowerHex(a) && t[3] == LowerHex(b) && t[4] == LowerHex(c) && t[5] == LowerHex(d)
    ensures FourHex(t) == Some(4096 * a + 256 * b + 16 * c + d)
  {
    HexRoundTrip(a);
    HexRoundTrip(b);
    HexRoundTrip(c);
    HexRoundTrip(d);
  }

  lemma HexDigitsOf(u: Unit)
    ensures 4096 * (u / 4096) + 256 * (u / 256 % 16) + 16 * (u / 16 % 16) + u % 16 == u
  {
    var sixteenths := u / 16;
    var rest := sixteenths / 16;
    assert u / 256 == rest && u / 4096 == rest / 16;
  }

  lemma FourHexOfEscape(u: Unit, rest: Text)
    ensures FourHex(UnicodeEscape(u) + rest) == Some(u) && (UnicodeEscape(u) + rest)[6..] == rest
  {
    FourHexOf(UnicodeEscape(u) + rest, u / 4096, u / 256 % 16, u / 16 % 16, u % 16);
    HexDigitsOf(u);
  }

  lemma QuotedUnitReads(u: Unit, rest: Text)
    ensures ParseString(QuoteUnit(u) + rest) == Prepend(u, ParseString(rest))
  {
    var q := QuoteUnit(u);
    assert (q + rest)[|q|..] == rest;
    if |q| == 6 {
      FourHexOfEscape(u, rest);
    }
  }

  lemma LiteralReads(u: Unit, rest: Text)
    requires u >= 0x20 && u != QUOTE && u != BACKSLASH
    ensures ParseString([u] + rest) == Prepend(u, ParseString(rest))
  {
    assert ([u] + rest)[1..] == rest;
  }

  lemma QuotedPairReads(hi: Unit, lo: Unit, s: Text, tail: Text, rest: Text)
    requires High(hi) && Low(lo) && ParseString(tail) == Got(s, rest)
    ensures ParseString([hi] + ([lo] + tail)) == Got([hi] + ([lo] + s), rest)
  {
    LiteralReads(lo, tail);
    LiteralReads(hi, [lo] + tail);
  }

  lemma QuoteBodyFirst(s: Text, rest: Text)
    requires s != []
    ensures QuoteBody(s) + rest
            == if StartsWithPair(s) then [s[0]] + ([s[1]] + (QuoteBody(s[2..]) + rest))
               else QuoteUnit(s[0]) + (QuoteBody(s[1..]) + rest)
  {
  }

  lemma QuotedFirst(s: Text, tail: Text, end: Text, rest: Text)
    requires s != [] && tail == s[if StartsWithPair(s) then 2 else 1..]
    requires ParseString(QuoteBody(tail) + end) == Got(tail, rest)
    ensures ParseString(QuoteBody(s) + end) == Got(s, rest)
  {
    var u := QuoteBody(tail) + end;
    QuoteBodyFirst(s, end);
    if StartsWithPair(s) {
      QuotedPairReads(s[0], s[1], tail, u, rest);
      assert s == [s[0]] + ([s[1]] + tail);
    } else {
      QuotedUnitReads(s[0], u);
      assert s == [s[0]] + tail;
    }
  }

  lemma {:induction false} QuotedReads(s: Text, rest: Text)
    ensures ParseString(QuoteBody(s) + ([QUOTE] + rest)) == Got(s, rest)
  {
    if s == [] {
      assert QuoteBody(s) + ([QUOTE] + rest) == [QUOTE] + rest;
      assert ([QUOTE] + rest)[1..] == rest;
    } else {
      var tail := s[if StartsWithPair(s) then 2 else 1..];
      QuotedReads(tail, rest);
      QuotedFirst(s, tail, [QUOTE] + rest, rest);
    }
  }

  // A text that cannot continue a number.
  predicate Stops(t: Text) { t == [] || !NumberUnit(t[0]) }

  lemma {:induction false} NumberRunOfLexeme(lexeme: Text, rest: Text)
    requires forall i :: 0 <= i < |lexeme| ==> NumberUnit(lexeme[i])
    requires Stops(rest)
    ensures NumberRun(lexeme + rest) == |lexeme|
  {
    if lexeme == [] {
      assert lexeme + rest == rest;
    } else {
      assert (lexeme + rest)[1..] == lexeme[1..] + rest;
      NumberRunOfLexeme(lexeme[1..], rest);
    }
  }

  predicate StartUnit(u: Unit) {
    Digit(u) || u in {'-' as int, QUOTE, '[' as int, '{' as int, 'n' as int, 't' as int, 'f' as int}
  }

  lemma WrittenStarts(v: Json)
    requires Valid(v)
    ensures Stringify(v) != [] && StartUnit(Stringify(v)[0])
  {
  }

  lemma NumberReads(lexeme: Text, rest: Text)
    requires ValidNumber(lexeme) && Stops(rest)
    ensures ParseValue(lexeme + rest) == Got(Number(lexeme), rest)
  {
    WrittenStarts(Number(lexeme));
    NumberRunOfLexeme(lexeme, rest);
    var t := lexeme + rest;
    assert t[..|lexeme|] == lexeme && t[|lexeme|..] == rest;
    assert t[0] == lexeme[0] && NumberUnit(lexeme[0]);
  }

  lemma WordReads(word: Text, rest: Text, v: Json)
    requires word != []
    ensures ParseWord(word + rest, word, v) == Got(v, rest)
  {
    assert (word + rest)[..|word|] == word && (word + rest)[|word|..] == rest;
  }

  lemma StringReads(s: Text, rest: Text)
    ensures ParseValue(Quote(s) + rest) == Got(Str(s), rest)
  {
    var t := QuoteBody(s) + ([QUOTE] + rest);
    QuoteThen(s, rest);
    assert ([QUOTE] + t)[1..] == t;
    QuotedReads(s, rest);
  }

  lemma ArrayReads(u: Text, items: seq<Json>, rest: Text)
    requires u != [] && !Space(u[0])
    requires if u[0] == ']' as int then items == [] && rest == u[1..] else ParseItems(u) == Got(items, rest)
    ensures ParseValue(['[' as int] + u) == Got(Arr(items), rest)
  {
    assert (['[' as int] + u)[1..] == u;
  }

  lemma ObjectReads(u: Text, members: seq<Member>, rest: Text)
    requires u != [] && !Space(u[0])
    requires if u[0] == '}' as int then members == [] && rest == u[1..] else ParseMembers(u) == Got(members, rest)
    ensures ParseValue(['{' as int] + u) == Got(Obj(members), rest)
  {
    assert (['{' as int] + u)[1..] == u;
  }

  lemma LastItem(t: Text, v: Json, rest: Text)
    requires ParseValue(t) == Got(v, [']' as int] + rest)
    ensures ParseItems(t) == Got([v], rest)
  {
    assert ([']' as int] + rest)[1..] == rest;
  }

  lemma NextItem(t: Text, v: Json, u: Text, items: seq<Json>, rest: Text)
    requires ParseValue(t) == Got(v, [COMMA] + u)
    requires u != [] && !Space(u[0]) && ParseItems(u) == Got(items, rest)
    ensures ParseItems(t) == Got([v] + items, rest)
  {
    assert ([COMMA] + u)[1..] == u;
  }

  lemma LastMember(t: Text, m: Member, rest: Text)
    requires ParseMember(t) == Got(m, ['}' as int] + rest)
    ensures ParseMembers(t) == Got([m], rest)
  {
    assert (['}' as int] + rest)[1..] == rest;
  }

  lemma NextMember(t: Text, m: Member, u: Text, members: seq<Member>, rest: Text)
    requires ParseMember(t) == Got(m, [COMMA] + u)
    requires u != [] && !Space(u[0]) && ParseMembers(u) == Got(members, rest)
    ensures ParseMembers(t) == Got([m] + members, rest)
  {
    assert ([COMMA] + u)[1..] == u;
  }

  lemma MemberReads(t: Text, key: Text, u: Text, v: Json, rest: Text)
    requires ParseString(t) == Got(key, [COLON] + u)
    requires u != [] && !Space(u[0]) && ParseValue(u) == Got(v, rest)
    ensures ParseMember([QUOTE] + t) == Got(Member(key, v), rest)
  {
    assert ([QUOTE] + t)[1..] == t;
    assert ([COLON] + u)[1..] == u;
  }

  lemma KeyReads(key: Text, u: Text, v: Json, rest: Text)
    requires u != [] && !Space(u[0]) && ParseValue(u) == Got(v, rest)
    ensures ParseMember(Quote(key) + ([COLON] + u)) == Got(Member(key, v), rest)
  {
    QuotedReads(key, [COLON] + u);
    MemberReads(QuoteBody(key) + ([QUOTE] + ([COLON] + u)), key, u, v, rest);
    QuoteThen(key, [COLON] + u);
  }

  lemma QuoteThen(s: Text, rest: Text)
    ensures Quote(s) + rest == [QUOTE] + (QuoteBody(s) + ([QUOTE] + rest))
  {
  }

  // Whatever valid value is written, parsing reads it back and leaves what follows.
  lemma {:induction false} ValueReads(v: Json, rest: Text)
    requires Valid(v) && Stops(rest)
    ensures ParseValue(Stringify(v) + rest) == Got(v, rest)
    decreases v, 1
  {
    match v {
      case Null => WordReads(NULL, rest, v);
      case Bool(b) => WordReads(if b then TRUE else FALSE, rest, v);
      case Number(lexeme) => NumberReads(lexeme, rest);
      case Str(s) => StringReads(s, rest);
      case Arr(items) =>
        if items != [] {
          ItemsRead(items, rest);
        }
        ArrayShape(items, rest);
      case Obj(members) =>
        if members != [] {
          MembersRead(members, rest);
        }
        ObjectShape(members, rest);
    }
  }

  lemma ArrayShape(items: seq<Json>, rest: Text)
    requires Valid(Arr(items))
    requires items != [] ==> ParseItems(Items(items) + ([']' as int] + rest)) == Got(items, rest)
    ensures ParseValue(Stringify(Arr(items)) + rest) == Got(Arr(items), rest)
  {
    var u := Items(items) + ([']' as int] + rest);
    ArrayText(items, rest);
    if items != [] {
      ItemsStart(items, [']' as int] + rest);
    }
    ArrayReads(u, items, rest);
  }

  lemma ObjectShape(members: seq<Member>, rest: Text)
    requires members != [] ==> ParseMembers(Members(members) + (['}' as int] + rest)) == Got(members, rest)
    ensures ParseValue(Stringify(Obj(members)) + rest) == Got(Obj(members), rest)
  {
    var u := Members(members) + (['}' as int] + rest);
    ObjectText(members, rest);
    if members != [] {
      MembersStart(members, ['}' as int] + rest);
    }
    ObjectReads(u, members, rest);
  }

  lemma ArrayText(items: seq<Json>, rest: Text)
    ensures Stringify(Arr(items)) + rest == ['[' as int] + (Items(items) + ([']' as int] + rest))
  {
  }

  lemma ObjectText(members: seq<Member>, rest: Text)
    ensures Stringify(Obj(members)) + rest == ['{' as int] + (Members(members) + (['}' as int] + rest))
  {
  }

  lemma ItemsStart(items: seq<Json>, rest: Text)
    requires items != [] && Valid(items[0])
    ensures var u := Items(items) + rest; u != [] && StartUnit(u[0])
  {
    WrittenStarts(items[0]);
    assert (Items(items) + rest)[0] == Stringify(items[0])[0];
  }

  lemma ItemsShape(items: seq<Json>, rest: Text)
    requires |items| > 1
    ensures Items(items) + rest == Stringify(items[0]) + ([COMMA] + (Items(items[1..]) + rest))
  {
  }

  lemma OneItemReads(item: Json, rest: Text)
    requires ParseValue(Stringify(item) + ([']' as int] + rest)) == Got(item, [']' as int] + rest)
    ensures ParseItems(Items([item]) + ([']' as int] + rest)) == Got([item], rest)
  {
    LastItem(Stringify(item) + ([']' as int] + rest), item, rest);
    assert Items([item]) == Stringify(item);
  }

  lemma {:induction false} ItemsRead(items: seq<Json>, rest: Text)
    requires items != [] && forall i | 0 <= i < |items| :: Valid(items[i])
    ensures ParseItems(Items(items) + ([']' as int] + rest)) == Got(items, rest)
    decreases items, 0
  {
    var close: Text := [']' as int] + rest;
    if |items| == 1 {
      ValueReads(items[0], close);
      OneItemReads(items[0], rest);
      assert items == [items[0]];
    } else {
      var u := Items(items[1..]) + close;
      ValueReads(items[0], [COMMA] + u);
      ItemsRead(items[1..], rest);
      ItemsShape(items, close);
      ItemsStart(items[1..], close);
      NextItem(Items(items) + close, items[0], u, items[1..], rest);
      FirstAndMore(items);
    }
  }

  lemma MembersShape(members: seq<Member>, rest: Text)
    requires members != []
    ensures Members(members) + rest
            == Quote(members[0].key) + ([COLON] + (Stringify(members[0].value) + AfterMember(members, rest)))
  {
    var m, tail := members[0], AfterMember(members, rest);
    var more: Text := if |members| == 1 then [] else [COMMA] + Members(members[1..]);
    assert more + rest == tail;
    var k, v := Quote(m.key), Stringify(m.value);
    assert Members(members) == k + [COLON] + v + more;
    Regroup(k, [COLON], v, more, rest);
  }

  function AfterMember(members: seq<Member>, rest: Text): Text
    requires members != []
  {
    if |members| == 1 then rest else [COMMA] + (Members(members[1..]) + rest)
  }

  lemma Regroup(a: Text, b: Text, c: Text, d: Text, e: Text)
    ensures a + b + c + d + e == a + (b + (c + (d + e)))
  {
  }

  lemma ValueStart(v: Json, rest: Text)
    requires Valid(v)
    ensures Stringify(v) + rest != [] && StartUnit((Stringify(v) + rest)[0])
  {
    WrittenStarts(v);
    assert (Stringify(v) + rest)[0] == Stringify(v)[0];
  }

  lemma FirstMemberReads(members: seq<Member>, close: Text)
    requires members != [] && Valid(members[0].value)
    requires var tail := AfterMember(members, close);
             ParseValue(Stringify(members[0].value) + tail) == Got(members[0].value, tail)
    ensures ParseMember(Members(members) + close) == Got(members[0], AfterMember(members, close))
  {
    var m, tail := members[0], AfterMember(members, close);
    MembersShape(members, close);
    ValueStart(m.value, tail);
    KeyReads(m.key, Stringify(m.value) + tail, m.value, tail);
  }

  lemma MembersStart(members: seq<Member>, rest: Text)
    requires members != []
    ensures var u := Members(members) + rest; u != [] && u[0] == QUOTE
  {
    MembersShape(members, rest);
  }

  lemma FirstAndMore<T>(items: seq<T>)
    requires items != []
    ensures [items[0]] + items[1..] == items
  {
  }

  lemma {:induction false} MembersRead(members: seq<Member>, rest: Text)
    requires members != [] && forall i | 0 <= i < |members| :: Valid(members[i].value)
    ensures ParseMembers(Members(members) + (['}' as int] + rest)) == Got(members, rest)
    decreases members, 0
  {
    var close: Text := ['}' as int] + rest;
    ValueReads(members[0].value, AfterMember(members, close));
    FirstMemberReads(members, close);
    if |members| == 1 {
      LastMember(Members(members) + close, members[0], rest);
      assert members == [members[0]];
    } else {
      MembersRead(members[1..], rest);
      MembersStart(members[1..], close);
      NextMember(Members(members) + close, members[0], Members(members[1..]) + close, members[1..], rest);
      FirstAndMore(members);
    }
  }

  // JSON.parse undoes JSON.stringify.
  lemma ParseStringify(v: Json)
    requires Valid(v)
    ensures Parse(Stringify(v)) == Some(v)
  {
    ValueReads(v, []);
    assert Stringify(v) + [] == Stringify(v);
    WrittenStarts(v);
  }

  // Units that JSON writes as they are.
  predicate Plain(t: Text) {
    forall i :: 0 <= i < |t| ==> 0x20 <= t[i] < 0x80 && t[i] != QUOTE && t[i] != BACKSLASH
  }

  lemma {:induction false} PlainQuotes(t: Text)
    requires Plain(t)
    ensures QuoteBody(t) == t
  {
    if t != [] {
      PlainQuotes(t[1..]);
      assert t == [t[0]] + t[1..];
    }
  }

  lemma PlainKey(key: Text)
    requires Plain(key)
    ensures Quote(key) == [0x22] + key + [0x22]
  {
    PlainQuotes(key);
  }

  // How an object's member is written, what comes between two, and how the whole begins and ends.
  lemma MemberForm(m: Member)
    requires Plain(m.key)
    ensures Members([m]) == Ascii("\"") + m.key + Ascii("\":") + Stringify(m.value)
  {
    PlainKey(m.key);
    assert Ascii("\":") == [0x22] + [COLON] && Ascii("\"") == [0x22];
    assert Members([m]) == Quote(m.key) + [COLON] + Stringify(m.value);
  }

  lemma ObjectForms(m: Member, more: seq<Member>)
    requires more != []
    ensures Members([m] + more) == Members([m]) + Ascii(",") + Members(more)
    ensures Stringify(Obj(more)) == Ascii("{") + Members(more) + Ascii("}")
  {
    assert ([m] + more)[1..] == more;
    assert Ascii(",") == [COMMA] && Ascii("{") == ['{' as int] && Ascii("}") == ['}' as int];
  }

  lemma ArrayForms(v: Json, more: seq<Json>)
    requires more != []
    ensures Items([v]) == Stringify(v) && Items([v] + more) == Items([v]) + Ascii(",") + Items(more)
    ensures Stringify(Arr(more)) == Ascii("[") + Items(more) + Ascii("]")
  {
    assert ([v] + more)[1..] == more;
    assert Ascii(",") == [COMMA] && Ascii("[") == ['[' as int] && Ascii("]") == [']' as int];
  }

  // --- What a written text never holds -----------------------------------------------------

  // No lone surrogate and no raw control character.
  ghost predicate Clean(t: Text) {
    WellFormed(t) && forall i :: 0 <= i < |t| ==> t[i] >= 0x20
  }

  lemma CleanAppend(a: Text, b: Text)
    requires Clean(a) && Clean(b)
    ensures Clean(a + b)
  {
    WellFormedAppend(a, b);
  }

  lemma CleanAscii(a: Text)
    requires forall i :: 0 <= i < |a| ==> 0x20 <= a[i] < 0x80
    ensures Clean(a)
  {
    AsciiWellFormed(a);
  }

  lemma {:induction false} QuoteBodyClean(s: Text)
    ensures Clean(QuoteBody(s))
  {
    if s == [] {
    } else if StartsWithPair(s) {
      QuoteBodyClean(s[2..]);
      assert s[..2][2..] == [];
      CleanAppend(s[..2], QuoteBody(s[2..]));
    } else {
      QuoteBodyClean(s[1..]);
      AsciiWellFormed(QuoteUnit(s[0]));
      CleanAppend(QuoteUnit(s[0]), QuoteBody(s[1..]));
    }
  }

  lemma QuoteClean(s: Text)
    ensures Clean(Quote(s))
  {
    QuoteBodyClean(s);
    CleanAscii([QUOTE]);
    CleanAppend([QUOTE], QuoteBody(s));
    CleanAppend([QUOTE] + QuoteBody(s), [QUOTE]);
  }

  // Written JSON is always well-formed UTF-16 and free of control characters, whatever its strings hold.
  lemma {:induction false} StringifyClean(v: Json)
    requires Valid(v)
    ensures Clean(Stringify(v))
    decreases v, 1
  {
    match v {
      case Null => CleanAscii(NULL);
      case Bool(b) => CleanAscii(if b then TRUE else FALSE);
      case Number(lexeme) => CleanAscii(lexeme);
      case Str(s) => QuoteClean(s);
      case Arr(items) =>
        ItemsClean(items);
        Bracketed('[' as int, Items(items), ']' as int);
      case Obj(members) =>
        MembersClean(members);
        Bracketed('{' as int, Members(members), '}' as int);
    }
  }

  lemma Bracketed(open: Unit, t: Text, close: Unit)
    requires Clean(t) && 0x20 <= open < 0x80 && 0x20 <= close < 0x80
    ensures Clean([open] + t + [close])
  {
    CleanAscii([open]);
    CleanAscii([close]);
    CleanAppend([open], t);
    CleanAppend([open] + t, [close]);
  }

  lemma {:induction false} ItemsClean(items: seq<Json>)
    requires forall i | 0 <= i < |items| :: Valid(items[i])
    ensures Clean(Items(items))
    decreases items, 0
  {
    if items != [] {
      StringifyClean(items[0]);
      CleanAscii([COMMA]);
      if |items| > 1 {
        ItemsClean(items[1..]);
        CleanAppend([COMMA], Items(items[1..]));
        CleanAppend(Stringify(items[0]), [COMMA] + Items(items[1..]));
      } else {
        assert Items(items) == Stringify(items[0]);
      }
    }
  }

  lemma {:induction false} MembersClean(members: seq<Member>)
    requires forall i | 0 <= i < |members| :: Valid(members[i].value)
    ensures Clean(Members(members))
    decreases members, 0
  {
    if members != [] {
      var m := members[0];
      var head := Quote(m.key) + [COLON] + Stringify(m.value);
      QuoteClean(m.key);
      CleanAscii([COLON]);
      CleanAscii([COMMA]);
      StringifyClean(m.value);
      CleanAppend(Quote(m.key), [COLON]);
      CleanAppend(Quote(m.key) + [COLON], Stringify(m.value));
      if |members| > 1 {
        MembersClean(members[1..]);
        CleanAppend([COMMA], Members(members[1..]));
        CleanAppend(head, [COMMA] + Members(members[1..]));
      } else {
        assert Members(members) == head;
      }
    }
  }

  // --- Reading an object's field -----------------------------------------------------------

  // A repeated key keeps its last value.
  function Field(members: seq<Member>, key: Text): Option<Json> {
    if members == [] then None
    else
      var n := |members| - 1;
      if members[n].key == key then Some(members[n].value) else Field(members[..n], key)
  }

  // obj.key for the value JSON.parse returned; anything but an object has no such field.
  function Get(v: Json, key: Text): Option<Json> {
    if v.Obj? then Field(v.members, key) else None
  }
}
