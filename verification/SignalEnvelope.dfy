/** The signalling envelope, written once for Node and once for the browser: JSON whose messagePayload is
    the base64 of the UTF-8 of an inner JSON text. */
module SignalEnvelope {
  import opened JsText
  import opened JsonText
  import Utf8
  import Base64
  import opened PercentCoding

  // --- Browser: b64Encode, b64Decode, parseSignalPayload -----------------------------------

  function Btoa(t: Text): Option<Text> {
    if forall i :: 0 <= i < |t| ==> t[i] < 256 then Some(Base64.Encode(t)) else None
  }

  function B64Encode(value: Text): Option<Text> {
    match EncodeURIComponent(value)
    case None => None
    case Some(t) => Btoa(Unescape(t))
  }

  function Replaced(t: Text, from: Unit, to: Unit): (r: Text)
    ensures |r| == |t|
  {
    seq(|t|, i requires 0 <= i < |t| => if t[i] == from then to else t[i])
  }

  // Back to the standard alphabet.
  function Normalised(t: Text): Text {
    Replaced(Replaced(t, '-' as int, '+' as int), '_' as int, '/' as int)
  }

  function B64Decode(value: Text): Option<Text> {
    var norm := Normalised(value);
    match Base64.Atob(norm + Base64.Padding(|norm|))
    case None => None
    case Some(bs) => DecodeURIComponent(Escape(bs))
  }

  // The null that stands for "no payload" is the JSON null.
  function ParseSignalPayload(raw: Option<Text>): Json {
    if raw.None? || raw.value == [] || raw.value == NULL then Null
    else match Parse(raw.value)
      case Some(v) => v
      case None =>
        match B64Decode(raw.value)
        case None => Null
        case Some(t) =>
          match Parse(t)
          case Some(v) => v
          case None => Null
  }

  // --- Envelopes ---------------------------------------------------------------------------

  // The written forms of the field names.
  const ACTION: Text := Ascii("action")
  const MESSAGE_TYPE: Text := Ascii("messageType")
  const MESSAGE_PAYLOAD: Text := Ascii("messagePayload")
  const RECIPIENT: Text := Ascii("recipientClientId")

  function Envelope(action: Text, encoded: Text, recipient: Text): Json {
    Obj([
          Member(ACTION, Str(action)),
          Member(MESSAGE_PAYLOAD, Str(encoded)),
          Member(RECIPIENT, Str(recipient))
        ])
  }

  // A JSON value as UTF-8 in base64.
  function Encoded(v: Json): Text { Base64.Encode(Utf8.Encode(Stringify(v))) }

  // Node's _sendSignal.
  function NodeSend(action: Text, payload: Json, recipient: Text): Text {
    Stringify(Envelope(action, Encoded(payload), recipient))
  }

  // The browser's _send; None is an exception.
  function BrowserSend(action: Text, payload: Json, recipient: Text): Option<Text> {
    match B64Encode(Stringify(payload))
    case None => None
    case Some(encoded) => Some(Stringify(Envelope(action, encoded, recipient)))
  }

  predicate Truthy(v: Option<Json>) {
    match v
    case None | Some(Null) => false
    case Some(Bool(b)) => b
    case Some(Number(lexeme)) => exists i :: 0 <= i < MantissaLength(lexeme) && '1' as int <= lexeme[i] <= '9' as int
    case Some(Str(s)) => s != []
    case Some(_) => true
  }

  function MantissaLength(t: Text): (n: nat)
    ensures n <= |t|
  {
    if t == [] || t[0] in {0x45, 0x65} then 0 else 1 + MantissaLength(t[1..])
  }

  // env.messageType || env.action
  function TypeOf(env: Json): Option<Json> {
    if Truthy(Get(env, MESSAGE_TYPE)) then Get(env, MESSAGE_TYPE) else Get(env, ACTION)
  }

  datatype Signal = Signal(kind: Option<Json>, payload: Json)

  // Node's _parseSignalMessage.
  function NodeReceive(raw: Text): Option<Signal> {
    match Parse(raw)
    case None => None
    case Some(env) =>
      if !Truthy(TypeOf(env)) then None
      else Some(Signal(TypeOf(env), NodePayload(Get(env, MESSAGE_PAYLOAD))))
  }

  function NodePayload(field: Option<Json>): Json {
    if field.Some? && field.value.Str? && field.value.s != [] then
      match Parse(Utf8.Decode(Base64.LenientDecode(field.value.s)))
      case Some(v) => v
      case None => Null
    else Null
  }

  // The browser's onmessage up to its dispatch on the type: a message without a payload is ignored.
  function BrowserReceive(raw: Text): Option<Signal> {
    match Parse(raw)
    case None => None
    case Some(env) =>
      var field := Get(env, MESSAGE_PAYLOAD);
      var payload := ParseSignalPayload(if field.Some? && field.value.Str? then Some(field.value.s) else None);
      if Truthy(Some(payload)) then Some(Signal(TypeOf(env), payload)) else None
  }

  // --- The two encoders agree, and both decoders undo them ----------------------------------

  // The browser encoder throws exactly on lone surrogates; otherwise it is the Node encoder.
  lemma BrowserEncoderIsNodeEncoder(s: Text)
    ensures B64Encode(s) == if WellFormed(s) then Some(Base64.Encode(Utf8.Encode(s))) else None
  {
    UnescapeOfEncode(s);
    if WellFormed(s) {
      var bs := Utf8.Encode(s);
      assert forall i :: 0 <= i < |bs| ==> bs[i] < 256;
    }
  }

  lemma DecodeOfLetters(s: Text, t: Text)
    requires WellFormed(s)
    requires var b := Base64.Encode(Utf8.Encode(s));
             Normalised(t) + Base64.Padding(|Normalised(t)|) == b
    ensures B64Decode(t) == Some(s)
  {
    Base64.AtobEncode(Utf8.Encode(s));
    DecodeOfEscape(s);
  }

  // b64Decode undoes b64Encode.
  lemma BrowserRoundTrip(s: Text)
    requires WellFormed(s)
    ensures B64Encode(s).Some? && B64Decode(B64Encode(s).value) == Some(s)
  {
    BrowserEncoderIsNodeEncoder(s);
    var b := Base64.Encode(Utf8.Encode(s));
    StandardTextNeedsNothing(Utf8.Encode(s));
    DecodeOfLetters(s, b);
  }

  lemma StandardTextNeedsNothing(bs: seq<Byte>)
    ensures var b := Base64.Encode(bs); Normalised(b) + Base64.Padding(|Normalised(b)|) == b
  {
    var b := Base64.Encode(bs);
    StandardTextIsNormal(Base64.ToSextets(bs));
    assert |b| % 4 == 0;
    assert b + [] == b;
  }

  lemma StandardTextIsNormal(vs: seq<Base64.Sextet>)
    ensures Normalised(Base64.Letters(vs)) == Base64.Letters(vs)
    ensures var t := Base64.Letters(vs) + Base64.Padding(|vs|); Normalised(t) == t
  {
    var t := Base64.Letters(vs) + Base64.Padding(|vs|);
    forall i | 0 <= i < |t|
      ensures t[i] != '-' as int && t[i] != '_' as int
    {
      if i < |vs| {
        assert t[i] == Base64.Letter(vs[i]);
      }
    }
  }

  // The URL-safe alphabet of section 5 of RFC 4648, without padding.
  function UrlSafe(t: Text): Text {
    if t == [] then []
    else if t[0] == Base64.PAD then UrlSafe(t[1..])
    else
      [if t[0] == '+' as int then '-' as int else if t[0] == '/' as int then '_' as int else t[0]] + UrlSafe(t[1..])
  }

  lemma {:induction false} UrlSafeOfLetters(vs: seq<Base64.Sextet>, n: nat)
    ensures var u := UrlSafe(Base64.Letters(vs) + Repeat(Base64.PAD, n));
            |u| == |vs| && Normalised(u) == Base64.Letters(vs)
    decreases |vs| + n
  {
    var t := Base64.Letters(vs) + Repeat(Base64.PAD, n);
    if vs == [] {
      if n != 0 {
        assert t[1..] == Base64.Letters(vs) + Repeat(Base64.PAD, n - 1);
        UrlSafeOfLetters(vs, n - 1);
      }
    } else {
      Base64.LetterValue(vs[0]);
      assert t[1..] == Base64.Letters(vs[1..]) + Repeat(Base64.PAD, n);
      UrlSafeOfLetters(vs[1..], n);
      var u, v := UrlSafe(t), UrlSafe(t[1..]);
      assert forall i :: 1 <= i < |u| ==> Normalised(u)[i] == Normalised(v)[i - 1];
      assert Base64.Letters(vs)[1..] == Base64.Letters(vs[1..]);
      assert Normalised(u)[0] == Base64.Letter(vs[0]);
    }
  }

  // b64Decode also reads the URL-safe form with the padding left off.
  lemma UrlSafeRoundTrip(s: Text)
    requires WellFormed(s)
    ensures B64Decode(UrlSafe(Base64.Encode(Utf8.Encode(s)))) == Some(s)
  {
    var vs := Base64.ToSextets(Utf8.Encode(s));
    UrlSafeOfLetters(vs, |Base64.Padding(|vs|)|);
    assert Base64.Padding(|vs|) == Repeat(Base64.PAD, |Base64.Padding(|vs|)|);
    DecodeOfLetters(s, UrlSafe(Base64.Encode(Utf8.Encode(s))));
  }

  // The base64 of a text that begins like JSON does not itself begin like JSON.
  lemma FirstLetter(t: Text)
    requires t != [] && StartUnit(t[0])
    ensures var b := Base64.Encode(Utf8.Encode(t));
            b != [] && !StartUnit(b[0]) && !Space(b[0]) && (t[0] == '{' as int ==> b[0] == 'e' as int)
  {
    var bs := Utf8.Encode(t);
    assert bs[0] == t[0];
    assert Base64.ToSextets(bs)[0] == bs[0] / 4;
    assert Base64.Encode(bs)[0] == Base64.Letter(bs[0] / 4);
  }

  lemma NotJson(b: Text)
    requires b != [] && !StartUnit(b[0]) && !Space(b[0])
    ensures Parse(b) == None
  {
  }

  lemma NotReadDirectly(v: Json)
    requires Valid(v)
    ensures var b := Encoded(v); b != [] && b != NULL && Parse(b) == None && (v.Obj? ==> b[0] == 'e' as int)
  {
    WrittenStarts(v);
    FirstLetter(Stringify(v));
    NotJson(Encoded(v));
  }

  lemma ReadsBase64(v: Json)
    requires Valid(v)
    ensures B64Decode(Encoded(v)) == Some(Stringify(v))
  {
    StringifyClean(v);
    BrowserEncoderIsNodeEncoder(Stringify(v));
    BrowserRoundTrip(Stringify(v));
  }

  lemma SecondReading(raw: Text, t: Text, v: Json)
    requires raw != [] && raw != NULL && Parse(raw) == None
    requires B64Decode(raw) == Some(t) && Parse(t) == Some(v)
    ensures ParseSignalPayload(Some(raw)) == v
  {
  }

  // For every JSON payload the direct reading fails and the base64 reading returns the payload.
  lemma PayloadRoundTrip(v: Json)
    requires Valid(v)
    ensures Parse(Encoded(v)) == None
    ensures B64Decode(Encoded(v)) == Some(Stringify(v)) && ParseSignalPayload(Some(Encoded(v))) == v
    ensures v.Obj? ==> Encoded(v) != [] && Encoded(v)[0] == 'e' as int
  {
    NotReadDirectly(v);
    ReadsBase64(v);
    ParseStringify(v);
    SecondReading(Encoded(v), Stringify(v), v);
  }

  lemma NodePayloadRoundTrip(v: Json)
    requires Valid(v)
    ensures NodePayload(Some(Str(Encoded(v)))) == v
  {
    var t := Stringify(v);
    WrittenStarts(v);
    FirstLetter(t);
    StringifyClean(v);
    Base64.LenientEncode(Utf8.Encode(t));
    Utf8.DecodeEncode(t);
    Utf8.ScrubbedIsIdentity(t);
    ParseStringify(v);
  }

  lemma EnvelopeFields(action: Text, encoded: Text, recipient: Text)
    ensures var env := Envelope(action, encoded, recipient);
            && Parse(Stringify(env)) == Some(env)
            && Get(env, MESSAGE_TYPE) == None
            && Get(env, ACTION) == Some(Str(action))
            && Get(env, MESSAGE_PAYLOAD) == Some(Str(encoded))
  {
    var env := Envelope(action, encoded, recipient);
    ParseStringify(env);
    var ms := env.members;
    assert |ACTION| == 6 && |MESSAGE_TYPE| == 11 && |MESSAGE_PAYLOAD| == 14 && |RECIPIENT| == 17;
    forall key | key in {ACTION, MESSAGE_TYPE, MESSAGE_PAYLOAD}
      ensures Field(ms, key) == Field(ms[..2], key)
      ensures key != MESSAGE_PAYLOAD ==> Field(ms[..2], key) == Field(ms[..1], key)
      ensures key == MESSAGE_TYPE ==> Field(ms[..1], key) == None
    {
      assert ms[..2][..1] == ms[..1] && ms[..1][..0] == [];
    }
  }

  // Both senders write the same envelope, and the browser's never throws.
  lemma SendersAgree(action: Text, payload: Json, recipient: Text)
    requires Valid(payload)
    ensures BrowserSend(action, payload, recipient) == Some(NodeSend(action, payload, recipient))
  {
    StringifyClean(payload);
    BrowserEncoderIsNodeEncoder(Stringify(payload));
  }

  lemma Received(raw: Text, env: Json, action: Text, field: Text, payload: Json)
    requires Parse(raw) == Some(env)
    requires Get(env, MESSAGE_TYPE) == None && Get(env, ACTION) == Some(Str(action))
    requires Get(env, MESSAGE_PAYLOAD) == Some(Str(field))
    requires ParseSignalPayload(Some(field)) == payload == NodePayload(Some(Str(field)))
    ensures NodeReceive(raw) == if action == [] then None else Some(Signal(Some(Str(action)), payload))
    ensures BrowserReceive(raw) == if Truthy(Some(payload)) then Some(Signal(Some(Str(action)), payload)) else None
  {
  }

  // What either side sends, either side reads back.
  lemma EnvelopeRoundTrip(action: Text, payload: Json, recipient: Text)
    requires Valid(payload)
    ensures var raw := NodeSend(action, payload, recipient);
            && NodeReceive(raw) == (if action == [] then None else Some(Signal(Some(Str(action)), payload)))
            && BrowserReceive(raw) == (if Truthy(Some(payload)) then Some(Signal(Some(Str(action)), payload)) else None)
  {
    var encoded := Encoded(payload);
    var env := Envelope(action, encoded, recipient);
    PayloadRoundTrip(payload);
    NodePayloadRoundTrip(payload);
    EnvelopeFields(action, encoded, recipient);
    Received(Stringify(env), env, action, encoded, payload);
  }

  // --- What the receivers make of any message -------------------------------------------------

  // The names of the fields, sign by sign.
  lemma NamesAsWritten()
    ensures ACTION == Ascii("action") && MESSAGE_TYPE == Ascii("messageType")
    ensures MESSAGE_PAYLOAD == Ascii("messagePayload") && RECIPIENT == Ascii("recipientClientId")
  {
  }

  lemma ReadAs(raw: Text, env: Json, kind: Json, field: Text, payload: Json)
    requires Parse(raw) == Some(env) && TypeOf(env) == Some(kind) && Truthy(Some(kind))
    requires Get(env, MESSAGE_PAYLOAD) == Some(Str(field))
    requires ParseSignalPayload(Some(field)) == payload == NodePayload(Some(Str(field)))
    ensures NodeReceive(raw) == Some(Signal(Some(kind), payload))
    ensures BrowserReceive(raw) == if Truthy(Some(payload)) then Some(Signal(Some(kind), payload)) else None
  {
  }

  // A written message that carries a messageType is of that type, whatever its action.
  lemma TypedMessageReads(env: Json, t: Text, payload: Json)
    requires Valid(env) && Valid(payload) && t != []
    requires Get(env, MESSAGE_TYPE) == Some(Str(t))
    requires Get(env, MESSAGE_PAYLOAD) == Some(Str(Encoded(payload)))
    ensures NodeReceive(Stringify(env)) == Some(Signal(Some(Str(t)), payload))
    ensures BrowserReceive(Stringify(env)) == if Truthy(Some(payload)) then Some(Signal(Some(Str(t)), payload)) else None
  {
    ParseStringify(env);
    PayloadRoundTrip(payload);
    NodePayloadRoundTrip(payload);
    ReadAs(Stringify(env), env, Str(t), Encoded(payload), payload);
  }

  // One whose messageType is missing, null, false or empty is of its action's type.
  lemma UntypedMessageReads(env: Json, action: Text, payload: Json)
    requires Valid(env) && Valid(payload) && action != []
    requires Get(env, MESSAGE_TYPE) in {None, Some(Null), Some(Bool(false)), Some(Str([]))}
    requires Get(env, ACTION) == Some(Str(action))
    requires Get(env, MESSAGE_PAYLOAD) == Some(Str(Encoded(payload)))
    ensures NodeReceive(Stringify(env)) == Some(Signal(Some(Str(action)), payload))
    ensures BrowserReceive(Stringify(env)) == if Truthy(Some(payload)) then Some(Signal(Some(Str(action)), payload)) else None
  {
    ParseStringify(env);
    PayloadRoundTrip(payload);
    NodePayloadRoundTrip(payload);
    ReadAs(Stringify(env), env, Str(action), Encoded(payload), payload);
  }

  // A payload that is not encoded is read by the browser as it stands.
  lemma PlainPayloadReads(v: Json)
    requires Valid(v)
    ensures ParseSignalPayload(Some(Stringify(v))) == v
  {
    ParseStringify(v);
    WrittenStarts(v);
    if Stringify(v) == NULL {
      ParseStringify(Null);
    }
  }

  // A payload that can be read neither way is null, and so is a missing one, on both sides.
  lemma UnreadablePayloads(raw: Text, other: Json)
    ensures Parse(raw).None? && (B64Decode(raw).None? || Parse(B64Decode(raw).value).None?) ==> ParseSignalPayload(Some(raw)) == Null
    ensures ParseSignalPayload(None) == Null && ParseSignalPayload(Some([])) == Null
    ensures Parse(Utf8.Decode(Base64.LenientDecode(raw))).None? ==> NodePayload(Some(Str(raw))) == Null
    ensures NodePayload(None) == Null && (!other.Str? ==> NodePayload(Some(other)) == Null)
  {
  }

  // Objects, arrays, non-empty strings and true are payloads to act on; null, false and "" are not.
  lemma TruthyPayloads(members: seq<Member>, items: seq<Json>, s: Text)
    ensures Truthy(Some(Obj(members))) && Truthy(Some(Arr(items))) && Truthy(Some(Bool(true)))
    ensures Truthy(Some(Str(s))) <==> s != []
    ensures !Truthy(None) && !Truthy(Some(Null)) && !Truthy(Some(Bool(false)))
  {
  }

  // The fields the senders write are the ones the receivers ask for.
  lemma EnvelopeNames(action: Text, encoded: Text, recipient: Text)
    ensures var env := Envelope(action, encoded, recipient);
            && Get(env, ACTION) == Some(Str(action))
            && Get(env, MESSAGE_PAYLOAD) == Some(Str(encoded))
            && Get(env, RECIPIENT) == Some(Str(recipient))
  {
    EnvelopeFields(action, encoded, recipient);
  }
}
