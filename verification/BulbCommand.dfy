/** localBulbCommand's request body: encrypted characteristics inside JSON whose doubled backslashes are
    collapsed by hand (src/index.js). */
module BulbCommand {
  import opened JsText
  import opened JsonText
  import Base64
  import opened BulbCipher

  const REQUEST: Text := Ascii("request")
  const SET_STATUS: Text := Ascii("set_status")
  const IS_SEND_QUEUE: Text := Ascii("isSendQueue")
  const CHARACTERISTICS: Text := Ascii("characteristics")

  const MAC: Text := Ascii("mac")
  const INDEX: Text := Ascii("index")
  const TS: Text := Ascii("ts")
  const PLIST: Text := Ascii("plist")
  const PID: Text := Ascii("pid")
  const PVALUE: Text := Ascii("pvalue")
  const ONE: Text := ['1' as int]

  // macUpper is the MAC in upper case, ts the written form of Date.now().
  function Characteristics(macUpper: Text, ts: Text, propertyId: Text, propertyValue: Text): Json {
    Obj([
          Member(MAC, Str(macUpper)),
          Member(INDEX, Str(ONE)),
          Member(TS, Number(ts)),
          Member(PLIST,
                 Arr([Obj([Member(PID, Str(propertyId)), Member(PVALUE, Str(propertyValue))])]))
        ])
  }

  function Payload(characteristics: Text): Json {
    Obj([
          Member(REQUEST, Str(SET_STATUS)),
          Member(IS_SEND_QUEUE, Number(ZERO)),
          Member(CHARACTERISTICS, Str(characteristics))
        ])
  }

  // .replace(/\\\\/g, "\\"): every pair of backslashes, left to right, becomes one.
  function Collapse(t: Text): Text {
    if t == [] then []
    else if |t| >= 2 && t[0] == BACKSLASH && t[1] == BACKSLASH then [t[0]] + Collapse(t[2..])
    else [t[0]] + Collapse(t[1..])
  }

  // The body posted to the bulb; None is the cipher's error.
  function Body(c: BlockCipher, key: Text, characteristics: Json): Option<Text> {
    match WyzeEncrypt(c, key, Stringify(characteristics))
    case None => None
    case Some(enc) => Some(Collapse(Stringify(Payload(enc))))
  }

  lemma {:induction false} CollapseKeeps(a: Text, b: Text)
    requires forall i :: 0 <= i < |a| ==> a[i] != BACKSLASH
    ensures Collapse(a + b) == a + Collapse(b)
  {
    if a == [] {
      assert a + b == b;
    } else {
      assert (a + b)[1..] == a[1..] + b;
      CollapseKeeps(a[1..], b);
      assert a + Collapse(b) == [a[0]] + (a[1..] + Collapse(b));
    }
  }

  // Quoting doubles the backslash of every escaped slash; collapsing puts it back, slash by slash.
  lemma {:induction false} CollapseQuoted(t: Text, rest: Text)
    requires Plain(t)
    ensures Collapse(QuoteBody(EscapeSlashes(t)) + rest) == EscapeSlashes(t) + Collapse(rest)
  {
    if t == [] {
      assert QuoteBody(EscapeSlashes(t)) + rest == rest;
    } else {
      CollapseQuoted(t[1..], rest);
      if t[0] == SLASH {
        CollapseSlash(EscapeSlashes(t[1..]), rest);
      } else {
        CollapseOther(t[0], EscapeSlashes(t[1..]), rest);
      }
    }
  }

  lemma CollapseSlash(tail: Text, rest: Text)
    requires Collapse(QuoteBody(tail) + rest) == tail + Collapse(rest)
    ensures Collapse(QuoteBody([BACKSLASH, SLASH] + tail) + rest)
            == [BACKSLASH, SLASH] + tail + Collapse(rest)
  {
    var bs: Unit := BACKSLASH;
    EscapedSlashQuoted(tail);
    Append3([bs, bs], [SLASH], QuoteBody(tail), rest);
    CollapsePair(QuoteBody(tail) + rest);
    Append3([bs], [SLASH], tail, Collapse(rest));
    assert [bs] + ([SLASH] + tail) == [bs, SLASH] + tail;
  }

  lemma Append3(a: Text, b: Text, c: Text, d: Text)
    ensures a + (b + c) + d == a + (b + (c + d))
  {
  }

  lemma CollapsePair(t: Text)
    ensures Collapse([BACKSLASH, BACKSLASH] + ([SLASH] + t))
            == [BACKSLASH] + ([SLASH] + Collapse(t))
  {
    var bs: Unit := BACKSLASH;
    assert ([bs, bs] + ([SLASH] + t))[2..] == [SLASH] + t;
    assert ([SLASH] + t)[1..] == t;
  }

  lemma QuotePlainUnit(u: Unit, tail: Text)
    requires 0x20 <= u < 0x80 && u != QUOTE && u != BACKSLASH
    ensures QuoteBody([u] + tail) == [u] + QuoteBody(tail)
  {
    assert ([u] + tail)[1..] == tail && !StartsWithPair([u] + tail);
  }

  lemma CollapsePlainUnit(u: Unit, t: Text)
    requires u != BACKSLASH
    ensures Collapse([u] + t) == [u] + Collapse(t)
  {
    assert ([u] + t)[1..] == t;
  }

  lemma CollapseOther(u: Unit, tail: Text, rest: Text)
    requires Plain([u]) && Collapse(QuoteBody(tail) + rest) == tail + Collapse(rest)
    ensures Collapse(QuoteBody([u] + tail) + rest) == [u] + tail + Collapse(rest)
  {
    assert [u][0] == u;
    QuotePlainUnit(u, tail);
    Append([u], QuoteBody(tail), rest);
    CollapsePlainUnit(u, QuoteBody(tail) + rest);
    Append([u], tail, Collapse(rest));
  }

  lemma Append(a: Text, b: Text, c: Text)
    ensures a + b + c == a + (b + c)
  {
  }

  lemma EscapedSlashQuoted(tail: Text)
    ensures var bs: Unit := BACKSLASH;
            QuoteBody([bs, SLASH] + tail) == [bs, bs] + ([SLASH] + QuoteBody(tail))
  {
    var bs: Unit := BACKSLASH;
    assert ([bs, SLASH] + tail)[1..] == [SLASH] + tail;
    assert ([SLASH] + tail)[1..] == tail;
  }

  lemma EscapedSlashReads(tail: Text)
    ensures ParseString([BACKSLASH, SLASH] + tail) == Prepend(SLASH, ParseString(tail))
  {
    var t: Text := [BACKSLASH, SLASH] + tail;
    assert t[2..] == tail && t[0] == BACKSLASH && t[1] == SLASH;
  }

  lemma EscapeFirst(t: Text, rest: Text)
    requires t != []
    ensures EscapeSlashes(t) + rest
            == (if t[0] == SLASH then [BACKSLASH, SLASH] else [t[0]]) + (EscapeSlashes(t[1..]) + rest)
  {
  }

  lemma FirstEscapedReads(u: Unit, t: Text, tail: Text, rest: Text)
    requires Plain([u]) && ParseString(tail) == Got(t, rest)
    ensures ParseString((if u == SLASH then [BACKSLASH, SLASH] else [u]) + tail) == Got([u] + t, rest)
  {
    assert [u][0] == u;
    if u == SLASH {
      EscapedSlashReads(tail);
    } else {
      LiteralReads(u, tail);
    }
  }

  // A JSON string literal with escaped slashes reads as the plain text.
  lemma {:induction false} EscapedSlashesRead(t: Text, rest: Text)
    requires Plain(t)
    ensures ParseString(EscapeSlashes(t) + ([QUOTE] + rest)) == Got(t, rest)
  {
    if t == [] {
      QuotedReads([], rest);
    } else {
      EscapedSlashesRead(t[1..], rest);
      EscapeFirst(t, [QUOTE] + rest);
      FirstEscapedReads(t[0], t[1..], EscapeSlashes(t[1..]) + ([QUOTE] + rest), rest);
      assert t == [t[0]] + t[1..];
    }
  }

  // A member whose value's text and everything after it is l.
  function Keyed(key: Text, l: Text): Text { Quote(key) + ([COLON] + l) }

  const ZERO: Text := ['0' as int]

  // The payload's text when the last value is written as l, up to the end.
  function BodyText(l: Text): Text {
    ['{' as int] + Keyed(REQUEST, Quote(SET_STATUS) + ([COMMA] + AfterRequest(l)))
  }

  function AfterRequest(l: Text): Text { Keyed(IS_SEND_QUEUE, ZERO + ([COMMA] + Keyed(CHARACTERISTICS, l))) }

  lemma MemberThenMore(m: Member, more: seq<Member>, rest: Text)
    requires more != []
    ensures Members([m] + more) + rest == Keyed(m.key, Stringify(m.value) + ([COMMA] + (Members(more) + rest)))
  {
    MembersShape([m] + more, rest);
    assert ([m] + more)[1..] == more;
  }

  lemma MemberAlone(m: Member, rest: Text)
    ensures Members([m]) + rest == Keyed(m.key, Stringify(m.value) + rest)
  {
    MembersShape([m], rest);
  }

  lemma PayloadWritten(s: Text)
    ensures Stringify(Payload(s)) == BodyText(Quote(s) + ['}' as int])
  {
    var a, b, c := Member(REQUEST, Str(SET_STATUS)), Member(IS_SEND_QUEUE, Number(ZERO)), Member(CHARACTERISTICS, Str(s));
    MemberThenMore(a, [b, c], ['}' as int]);
    MemberThenMore(b, [c], ['}' as int]);
    MemberAlone(c, ['}' as int]);
    assert [a] + [b, c] == Payload(s).members && [b] + [c] == [b, c];
    ObjectWritten(Payload(s).members);
  }

  lemma ObjectWritten(members: seq<Member>)
    ensures Stringify(Obj(members)) == ['{' as int] + (Members(members) + ['}' as int])
  {
  }

  lemma CollapseKeyed(key: Text, l: Text)
    requires Plain(key)
    ensures Collapse(Keyed(key, l)) == Keyed(key, Collapse(l))
  {
    var head := Quote(key) + [COLON];
    PlainQuotes(key);
    CollapseKeeps(head, l);
    assert head + l == Keyed(key, l) && head + Collapse(l) == Keyed(key, Collapse(l));
  }

  lemma CollapseBefore(head: Text, l: Text)
    requires Plain(head)
    ensures Collapse(head + ([COMMA] + l)) == head + ([COMMA] + Collapse(l))
    ensures Collapse(Quote(head) + ([COMMA] + l)) == Quote(head) + ([COMMA] + Collapse(l))
  {
    PlainQuotes(head);
    CollapseKeeps([COMMA], l);
    CollapseKeeps(head, [COMMA] + l);
    CollapseKeeps(Quote(head), [COMMA] + l);
  }

  lemma NamesArePlain()
    ensures Plain(REQUEST) && Plain(SET_STATUS) && Plain(IS_SEND_QUEUE) && Plain(CHARACTERISTICS) && Plain(ZERO)
  {
  }

  lemma CollapseAfterRequest(l: Text)
    ensures Collapse(AfterRequest(l)) == AfterRequest(Collapse(l))
  {
    NamesArePlain();
    CollapseKeyed(CHARACTERISTICS, l);
    CollapseBefore(ZERO, Keyed(CHARACTERISTICS, l));
    CollapseKeyed(IS_SEND_QUEUE, ZERO + ([COMMA] + Keyed(CHARACTERISTICS, l)));
  }

  lemma CollapseBody(l: Text)
    ensures Collapse(BodyText(l)) == BodyText(Collapse(l))
  {
    NamesArePlain();
    CollapseAfterRequest(l);
    CollapseBefore(SET_STATUS, AfterRequest(l));
    CollapseKeyed(REQUEST, Quote(SET_STATUS) + ([COMMA] + AfterRequest(l)));
    CollapseKeeps(['{' as int], Keyed(REQUEST, Quote(SET_STATUS) + ([COMMA] + AfterRequest(l))));
  }

  lemma ZeroIsNumber()
    ensures ValidNumber(ZERO)
  {
    assert ZERO[1..] == [];
    assert DigitRun(ZERO) == 1;
  }

  lemma LastMemberReads(l: Text, t: Text)
    requires l != [] && !Space(l[0]) && ParseValue(l) == Got(Str(t), ['}' as int])
    ensures ParseMembers(Keyed(CHARACTERISTICS, l)) == Got([Member(CHARACTERISTICS, Str(t))], [])
  {
    var close: Text := ['}' as int];
    assert close + [] == close;
    KeyReads(CHARACTERISTICS, l, Str(t), close);
    LastMember(Keyed(CHARACTERISTICS, l), Member(CHARACTERISTICS, Str(t)), []);
  }

  lemma ZeroReads(rest: Text)
    ensures ParseMember(Keyed(IS_SEND_QUEUE, ZERO + ([COMMA] + rest)))
            == Got(Member(IS_SEND_QUEUE, Number(ZERO)), [COMMA] + rest)
  {
    ZeroIsNumber();
    NumberReads(ZERO, [COMMA] + rest);
    KeyReads(IS_SEND_QUEUE, ZERO + ([COMMA] + rest), Number(ZERO), [COMMA] + rest);
  }

  lemma KeyedStarts(key: Text, l: Text)
    ensures Keyed(key, l) != [] && Keyed(key, l)[0] == QUOTE
  {
  }

  lemma SecondAndThirdRead(third: Text, member: Member, more: seq<Member>)
    requires third != [] && third[0] == QUOTE && ParseMembers(third) == Got(more, [])
    requires ParseMember(Keyed(IS_SEND_QUEUE, ZERO + ([COMMA] + third))) == Got(member, [COMMA] + third)
    ensures ParseMembers(Keyed(IS_SEND_QUEUE, ZERO + ([COMMA] + third))) == Got([member] + more, [])
  {
    NextMember(Keyed(IS_SEND_QUEUE, ZERO + ([COMMA] + third)), member, third, more, []);
  }

  lemma AfterRequestReads(l: Text, t: Text)
    requires l != [] && !Space(l[0]) && ParseValue(l) == Got(Str(t), ['}' as int])
    ensures ParseMembers(AfterRequest(l)) == Got(Payload(t).members[1..], [])
  {
    var third := Keyed(CHARACTERISTICS, l);
    var second := Member(IS_SEND_QUEUE, Number(ZERO));
    LastMemberReads(l, t);
    ZeroReads(third);
    KeyedStarts(CHARACTERISTICS, l);
    SecondAndThirdRead(third, second, [Member(CHARACTERISTICS, Str(t))]);
    LaterTwo(Member(REQUEST, Str(SET_STATUS)), second, Member(CHARACTERISTICS, Str(t)));
  }

  lemma LaterTwo(a: Member, b: Member, c: Member)
    ensures [a, b, c][1..] == [b] + [c]
  {
  }

  lemma StatusReads(tail: Text)
    ensures ParseMember(Keyed(REQUEST, Quote(SET_STATUS) + tail)) == Got(Member(REQUEST, Str(SET_STATUS)), tail)
  {
    StringReads(SET_STATUS, tail);
    KeyReads(REQUEST, Quote(SET_STATUS) + tail, Str(SET_STATUS), tail);
  }

  lemma BodyReads(l: Text, t: Text)
    requires l != [] && !Space(l[0]) && ParseValue(l) == Got(Str(t), ['}' as int])
    ensures ParseValue(BodyText(l)) == Got(Payload(t), [])
  {
    AfterRequestReads(l, t);
    var tail := [COMMA] + AfterRequest(l);
    StatusReads(tail);
    var first := Keyed(REQUEST, Quote(SET_STATUS) + tail);
    NextMember(first, Member(REQUEST, Str(SET_STATUS)), AfterRequest(l), Payload(t).members[1..], []);
    assert [Member(REQUEST, Str(SET_STATUS))] + Payload(t).members[1..] == Payload(t).members;
    ObjectReads(first, Payload(t).members, []);
  }

  lemma LiteralWithEscapes(t: Text)
    requires Plain(t)
    ensures ParseValue([QUOTE] + (EscapeSlashes(t) + [QUOTE, '}' as int])) == Got(Str(t), ['}' as int])
  {
    var l := [QUOTE] + (EscapeSlashes(t) + [QUOTE, '}' as int]);
    assert l[1..] == EscapeSlashes(t) + ([QUOTE] + ['}' as int]);
    EscapedSlashesRead(t, ['}' as int]);
  }

  const END: Text := [QUOTE, '}' as int]

  lemma EndCollapses()
    ensures Collapse(END) == END
  {
    CollapseKeeps(END, []);
    assert END + [] == END;
  }

  lemma CollapseWritten(t: Text)
    requires Plain(t)
    ensures Collapse(Stringify(Payload(EscapeSlashes(t)))) == BodyText([QUOTE] + (EscapeSlashes(t) + END))
  {
    var written := [QUOTE] + (QuoteBody(EscapeSlashes(t)) + END);
    PayloadWritten(EscapeSlashes(t));
    assert Quote(EscapeSlashes(t)) + ['}' as int] == written;
    CollapseBody(written);
    CollapseKeeps([QUOTE], QuoteBody(EscapeSlashes(t)) + END);
    CollapseQuoted(t, END);
    EndCollapses();
  }

  // Whatever slashes the text holds, the rewritten body is JSON whose characteristics are the plain text.
  lemma CollapsedBodyReads(t: Text)
    requires Plain(t)
    ensures Parse(Collapse(Stringify(Payload(EscapeSlashes(t))))) == Some(Payload(t))
  {
    var l: Text := [QUOTE] + (EscapeSlashes(t) + END);
    CollapseWritten(t);
    LiteralWithEscapes(t);
    BodyReads(l, t);
    assert BodyText(l)[0] == '{' as int;
  }

  lemma Base64IsPlain(bs: seq<Byte>)
    ensures Plain(Base64.Encode(bs))
  {
    var vs := Base64.ToSextets(bs);
    forall i | 0 <= i < |vs|
      ensures 0x2B <= Base64.Letter(vs[i]) < 0x80 && Base64.Letter(vs[i]) != BACKSLASH
    {
    }
  }

  // Without the collapse the decoded field would still carry the backslashes.
  lemma UncollapsedBodyReads(s: Text)
    ensures Parse(Stringify(Payload(s))) == Some(Payload(s))
  {
    ZeroIsNumber();
    ParseStringify(Payload(s));
  }

  lemma CharacteristicsField(t: Text)
    ensures Get(Payload(t), CHARACTERISTICS) == Some(Str(t))
  {
  }

  // A bulb that parses the body, takes the field and decrypts it gets the characteristics back exactly
  // when they are written in seven-bit characters; the body is there exactly when the key fits.
  lemma BulbReadsCommand(c: BlockCipher, key: Text, v: Json)
    requires Permutes(c) && Valid(v)
    ensures Body(c, key, v).Some? <==> |key| == BLOCK_SIZE
    ensures |key| == BLOCK_SIZE ==>
              var field := Base64.Encode(Ciphertext(c, key, Stringify(v)).value);
              && Parse(Body(c, key, v).value) == Some(Payload(field))
              && Get(Payload(field), CHARACTERISTICS) == Some(Str(field))
              && (WyzeDecrypt(c, key, field) == Some(Stringify(v)) <==> SevenBit(Stringify(v)))
              && Parse(Stringify(v)) == Some(v)
  {
    var text := Stringify(v);
    DecryptEncrypt(c, key, text);
    if |key| == BLOCK_SIZE {
      var bs := Ciphertext(c, key, text).value;
      Base64IsPlain(bs);
      CollapsedBodyReads(Base64.Encode(bs));
      CharacteristicsField(Base64.Encode(bs));
      StringifyClean(v);
      SurvivesUnchanged(text);
      ParseStringify(v);
    }
  }

  lemma NamesAsWritten()
    ensures MAC == Ascii("mac") && INDEX == Ascii("index") && TS == Ascii("ts") && PLIST == Ascii("plist")
    ensures PID == Ascii("pid") && PVALUE == Ascii("pvalue") && ONE == Ascii("1")
    ensures REQUEST == Ascii("request") && SET_STATUS == Ascii("set_status")
    ensures IS_SEND_QUEUE == Ascii("isSendQueue") && ZERO == Ascii("0") && CHARACTERISTICS == Ascii("characteristics")
  {
  }

  lemma NamesDiffer()
    ensures MAC != INDEX && MAC != TS && MAC != PLIST && INDEX != TS && INDEX != PLIST && TS != PLIST && PID != PVALUE
  {
    assert |MAC| == 3 && |INDEX| == 5 && |TS| == 2 && |PLIST| == 5 && |PID| == 3 && |PVALUE| == 6;
    assert PLIST[0] == 'p' as int && INDEX[0] == 'i' as int;
  }

  // Every value is under its own name.
  lemma CharacteristicsReadBack(macUpper: Text, ts: Text, propertyId: Text, propertyValue: Text)
    requires ValidNumber(ts)
    ensures var c := Characteristics(macUpper, ts, propertyId, propertyValue);
            && Parse(Stringify(c)) == Some(c)
            && Get(c, MAC) == Some(Str(macUpper)) && Get(c, INDEX) == Some(Str(ONE)) && Get(c, TS) == Some(Number(ts))
            && exists property :: Get(c, PLIST) == Some(Arr([property]))
                 && Get(property, PID) == Some(Str(propertyId)) && Get(property, PVALUE) == Some(Str(propertyValue))
  {
    CharacteristicsAreValid(macUpper, ts, propertyId, propertyValue);
    var c := Characteristics(macUpper, ts, propertyId, propertyValue);
    ParseStringify(c);
    NamesDiffer();
    FieldsOfFour(c.members);
    var property := c.members[3].value.items[0];
    FieldsOfTwo(property.members);
    assert c.members[0].key == MAC && c.members[1].key == INDEX && c.members[2].key == TS && c.members[3].key == PLIST;
    assert property.members[0].key == PID && property.members[1].key == PVALUE;
    assert c.members[3].value == Arr([property]);
  }

  lemma FieldsOfTwo(ms: seq<Member>)
    requires |ms| == 2 && ms[0].key != ms[1].key
    ensures Field(ms, ms[0].key) == Some(ms[0].value) && Field(ms, ms[1].key) == Some(ms[1].value)
  {
    assert ms[..1][0] == ms[0];
  }

  lemma FieldsOfFour(ms: seq<Member>)
    requires |ms| == 4 && forall i, j | 0 <= i < j < 4 :: ms[i].key != ms[j].key
    ensures forall i | 0 <= i < 4 :: Field(ms, ms[i].key) == Some(ms[i].value)
  {
    var three := ms[..3];
    FieldsOfTwo(three[..2]);
    assert three[..2][0] == ms[0] && three[..2][1] == ms[1] && three[2] == ms[2];
    assert Field(three, ms[2].key) == Some(ms[2].value);
    forall i | 0 <= i < 4
      ensures Field(ms, ms[i].key) == Some(ms[i].value)
    {
      if i < 3 {
        assert Field(ms, ms[i].key) == Field(three, ms[i].key);
      }
    }
  }

  // The rest of the command: what it asks for, and whether to send at once.
  lemma CommandReadsBack(t: Text)
    ensures Get(Payload(t), REQUEST) == Some(Str(SET_STATUS))
    ensures Get(Payload(t), IS_SEND_QUEUE) == Some(Number(ZERO))
    ensures Get(Payload(t), CHARACTERISTICS) == Some(Str(t))
  {
    var ms := Payload(t).members;
    assert |REQUEST| == 7 && |IS_SEND_QUEUE| == 11 && |CHARACTERISTICS| == 15;
    FieldsOfTwo(ms[..2]);
    assert ms[..2][0] == ms[0] && ms[..2][1] == ms[1];
    assert Field(ms, ms[0].key) == Field(ms[..2], ms[0].key) && Field(ms, ms[1].key) == Field(ms[..2], ms[1].key);
  }

  lemma CharacteristicsAreValid(macUpper: Text, ts: Text, propertyId: Text, propertyValue: Text)
    requires ValidNumber(ts)
    ensures Valid(Characteristics(macUpper, ts, propertyId, propertyValue))
  {
    var property := Obj([Member(PID, Str(propertyId)), Member(PVALUE, Str(propertyValue))]);
    assert Valid(property);
    assert Valid(Arr([property]));
  }
}
