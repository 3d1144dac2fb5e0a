/** The stream-info cache of src/index.js: getCameraWebRTCConnectionInfo, clearCameraStreamCache and the
    normalisation of what the API returns, with fetches overlapping at their await. */
module StreamCache {
  import opened JsText
  import opened PercentCoding

  // --- The bundle --------------------------------------------------------------------------

  const ENCODED_PERCENT: Text := [0x25, 0x32, 0x35]

  // normalizeCameraSignalingUrl
  function NormalizeUrl(url: Text): Text {
    if Includes(url, ENCODED_PERCENT) then
      match DecodeURIComponent(url)
      case None => url
      case Some(t) => t
    else url
  }

  // An entry of ice_servers; an empty text is a missing field.
  datatype RawServer = NoServer | RawServer(url: Text, username: Text, credential: Text)

  datatype IceServer = IceServer(urls: Text, username: Option<Text>, credential: Option<Text>)

  function Present(t: Text): Option<Text> { if t == [] then None else Some(t) }

  // sanitizeCameraIceServers
  function Sanitize(servers: seq<RawServer>): seq<IceServer> {
    if servers == [] then []
    else if servers[0].NoServer? || servers[0].url == [] then Sanitize(servers[1..])
    else [IceServer(servers[0].url, Present(servers[0].username), Present(servers[0].credential))] + Sanitize(servers[1..])
  }

  datatype Info = Info(signalingUrl: Text, iceServers: seq<RawServer>, authToken: Option<Text>)

  datatype Bundle = Bundle(signalingUrl: Text, iceServers: seq<IceServer>, authToken: Option<Text>)

  function Normalize(info: Info): Bundle {
    Bundle(NormalizeUrl(info.signalingUrl), Sanitize(info.iceServers), info.authToken)
  }

  // What one entry of the answer becomes.
  predicate Matches(raw: RawServer, server: IceServer) {
    && raw.RawServer? && raw.url != [] && server.urls == raw.url
    && (if raw.username == [] then server.username == None else server.username == Some(raw.username))
    && (if raw.credential == [] then server.credential == None else server.credential == Some(raw.credential))
  }

  predicate Usable(raw: RawServer) { raw.RawServer? && raw.url != [] }

  // The servers are the usable entries, in order and one for one; kept holds their places.
  ghost predicate KeptInOrder(raw: seq<RawServer>, servers: seq<IceServer>, kept: seq<nat>) {
    && |kept| == |servers|
    && (forall k | 0 <= k < |kept| :: kept[k] < |raw| && Matches(raw[kept[k]], servers[k]))
    && (forall j, k | 0 <= j < k < |kept| :: kept[j] < kept[k])
    && (forall i | 0 <= i < |raw| :: Usable(raw[i]) ==> i in kept)
  }

  ghost predicate SameServers(raw: seq<RawServer>, servers: seq<IceServer>) {
    exists kept :: KeptInOrder(raw, servers, kept)
  }

  function Moved(kept: seq<nat>): seq<nat> { seq(|kept|, k requires 0 <= k < |kept| => kept[k] + 1) }

  lemma SkippedFirst(r: RawServer, raw: seq<RawServer>, servers: seq<IceServer>, kept: seq<nat>)
    requires KeptInOrder(raw, servers, kept) && !Usable(r)
    ensures KeptInOrder([r] + raw, servers, Moved(kept))
  {
    forall i | 0 <= i < |raw| + 1 && Usable(([r] + raw)[i])
      ensures i in Moved(kept)
    {
      var k :| 0 <= k < |kept| && kept[k] == i - 1;
      assert Moved(kept)[k] == i;
    }
  }

  lemma PlacesFirst(r: RawServer, raw: seq<RawServer>, kept: seq<nat>, i: nat)
    requires (forall i | 0 <= i < |raw| :: Usable(raw[i]) ==> i in kept) && i <= |raw| && Usable(([r] + raw)[i])
    ensures i in [0] + Moved(kept)
  {
    if i > 0 {
      var k :| 0 <= k < |kept| && kept[k] == i - 1;
      assert Moved(kept)[k] == i && ([0] + Moved(kept))[k + 1] == i;
    }
  }

  lemma KeptFirst(r: RawServer, raw: seq<RawServer>, server: IceServer, servers: seq<IceServer>, kept: seq<nat>)
    requires KeptInOrder(raw, servers, kept) && Matches(r, server)
    ensures KeptInOrder([r] + raw, [server] + servers, [0] + Moved(kept))
  {
    var places := [0] + Moved(kept);
    forall k | 0 <= k < |places|
      ensures places[k] < |raw| + 1 && Matches(([r] + raw)[places[k]], ([server] + servers)[k])
    {
      if k > 0 {
        assert places[k] == kept[k - 1] + 1 && ([r] + raw)[places[k]] == raw[kept[k - 1]];
      }
    }
    forall i: nat | i <= |raw| && Usable(([r] + raw)[i])
      ensures i in places
    {
      PlacesFirst(r, raw, kept, i);
    }
  }

  lemma {:induction false} SanitizeKeeps(raw: seq<RawServer>)
    ensures SameServers(raw, Sanitize(raw))
  {
    if raw == [] {
      assert KeptInOrder(raw, Sanitize(raw), []);
    } else {
      SanitizeKeeps(raw[1..]);
      var later :| KeptInOrder(raw[1..], Sanitize(raw[1..]), later);
      assert raw == [raw[0]] + raw[1..];
      if Usable(raw[0]) {
        KeptFirst(raw[0], raw[1..], Sanitize(raw)[0], Sanitize(raw[1..]), later);
      } else {
        SkippedFirst(raw[0], raw[1..], Sanitize(raw[1..]), later);
      }
    }
  }

  lemma {:induction false} DecodingShrinks(t: Text)
    requires DecodeURIComponent(t).Some?
    ensures |DecodeURIComponent(t).value| <= |t|
    ensures PERCENT in t ==> |DecodeURIComponent(t).value| < |t|
    decreases |t|
  {
    if t != [] {
      if t[0] != PERCENT {
        DecodingShrinks(t[1..]);
        assert t == [t[0]] + t[1..];
      } else {
        DecodingShrinks(t[PercentPoint(t).value.1..]);
      }
    }
  }

  lemma {:induction false} IncludesPercent(t: Text)
    requires Includes(t, ENCODED_PERCENT)
    ensures PERCENT in t
  {
    if HasPrefix(t, ENCODED_PERCENT) {
      assert t[0] == t[..3][0];
    } else {
      IncludesPercent(t[1..]);
    }
  }

  predicate Decodable(url: Text) { Includes(url, ENCODED_PERCENT) && DecodeURIComponent(url).Some? }

  // A URL is returned untouched exactly when it holds no "%25" or cannot be decoded.
  lemma UntouchedExactly(url: Text)
    ensures NormalizeUrl(url) == url <==> !Decodable(url)
  {
    if Decodable(url) {
      IncludesPercent(url);
      DecodingShrinks(url);
    }
  }

  // Normalising again changes something exactly for a URL that can be decoded, holds "%25", and decodes to
  // one of which the same is true.
  lemma NormalizeUrlTwice(url: Text)
    ensures NormalizeUrl(NormalizeUrl(url)) != NormalizeUrl(url)
            <==> Decodable(url) && Decodable(DecodeURIComponent(url).value)
  {
    UntouchedExactly(NormalizeUrl(url));
    UntouchedExactly(url);
  }

  lemma DecodesEscape(hi: Unit, lo: Unit, rest: Text)
    requires HexValue(hi) == Some(2) && HexValue(lo) == Some(5) && DecodeURIComponent(rest).Some?
    ensures DecodeURIComponent([PERCENT, hi, lo] + rest) == Some([PERCENT] + DecodeURIComponent(rest).value)
  {
    var t: Text := [PERCENT, hi, lo] + rest;
    assert t[3..] == rest && t[0] == PERCENT && t[1] == hi && t[2] == lo;
    var bs: seq<Byte> := [0x25];
    assert HexByte(t, 1) == Some(bs[0]) && bs + [] == bs;
    assert Octets(t[3..], 0) == Some([]);
    assert Octets(t, 1) == Some(bs);
    assert PercentPoint(t) == Some((0x25, 3));
  }

  lemma DecodesLiteral(u: Unit, rest: Text)
    requires u != PERCENT && DecodeURIComponent(rest).Some?
    ensures DecodeURIComponent([u] + rest) == Some([u] + DecodeURIComponent(rest).value)
  {
    assert ([u] + rest)[1..] == rest;
  }

  // n times "25" after a percent sign loses one of them by each decoding.
  function Encoded(n: nat): Text { if n == 0 then [] else [0x32, 0x35] + Encoded(n - 1) }

  lemma {:induction false} PlainDigitsDecode(n: nat)
    ensures DecodeURIComponent(Encoded(n)) == Some(Encoded(n))
  {
    if n > 0 {
      PlainDigitsDecode(n - 1);
      DecodesLiteral(0x35, Encoded(n - 1));
      DecodesLiteral(0x32, [0x35] + Encoded(n - 1));
      assert Encoded(n) == [0x32] + ([0x35] + Encoded(n - 1));
    }
  }

  lemma Regroup(rest: Text)
    ensures [PERCENT] + ([0x32, 0x35] + rest) == [PERCENT, 0x32, 0x35] + rest
    ensures HasPrefix([PERCENT] + ([0x32, 0x35] + rest), ENCODED_PERCENT)
  {
  }

  lemma TimesEncoded(n: nat)
    requires n > 0
    ensures Includes([PERCENT] + Encoded(n), ENCODED_PERCENT)
    ensures DecodeURIComponent([PERCENT] + Encoded(n)) == Some([PERCENT] + Encoded(n - 1))
  {
    var rest := Encoded(n - 1);
    PlainDigitsDecode(n - 1);
    DecodesEscape(0x32, 0x35, rest);
    Regroup(rest);
  }

  // "%2525" goes to "%25", and that to "%".
  lemma TwiceEncodedIsNotSettled()
    ensures NormalizeUrl([PERCENT] + Encoded(2)) == ENCODED_PERCENT
    ensures NormalizeUrl(ENCODED_PERCENT) == [PERCENT]
  {
    TimesEncoded(2);
    TimesEncoded(1);
    assert Encoded(0) == [] && Encoded(1) == [0x32, 0x35];
    assert [PERCENT] + Encoded(1) == ENCODED_PERCENT && [PERCENT] + Encoded(0) == [PERCENT];
  }

  // --- Keys --------------------------------------------------------------------------------

  const SUB: Text := ['s' as int, 'u' as int, 'b' as int]
  const MAIN: Text := ['m' as int, 'a' as int, 'i' as int, 'n' as int]

  datatype Stream = Stream(mac: Text, model: Text, substream: bool)

  // _streamCacheKey
  function Key(s: Stream): Text {
    s.mac + ([COLON] + (s.model + ([COLON] + if s.substream then SUB else MAIN)))
  }

  // The last colon of a joined text is the joint.
  lemma NoLaterColon(a: Text, b: Text)
    requires COLON !in b
    ensures forall n :: |a| < n < |a + ([COLON] + b)| ==> (a + ([COLON] + b))[n] != COLON
  {
    var x := a + ([COLON] + b);
    forall n | |a| < n < |x|
      ensures x[n] != COLON
    {
      assert x[n] == b[n - |a| - 1] && b[n - |a| - 1] in b;
    }
  }

  lemma JoinIsInjective(a: Text, b: Text, c: Text, d: Text)
    requires COLON !in b && COLON !in d
    requires a + ([COLON] + b) == c + ([COLON] + d)
    ensures a == c && b == d
  {
    var x, y := a + ([COLON] + b), c + ([COLON] + d);
    assert x[|a|] == COLON && y[|c|] == COLON;
    NoLaterColon(a, b);
    NoLaterColon(c, d);
    assert x[..|a|] == a && x[|a| + 1..] == b && y[..|c|] == c && y[|c| + 1..] == d;
  }

  // The key tells streams apart as long as models hold no colon.
  lemma KeyIsInjective(s: Stream, t: Stream)
    requires COLON !in s.model && COLON !in t.model
    ensures Key(s) == Key(t) <==> s == t
  {
    if Key(s) == Key(t) {
      var p, q := s.mac + ([COLON] + s.model), t.mac + ([COLON] + t.model);
      var u, v := if s.substream then SUB else MAIN, if t.substream then SUB else MAIN;
      assert Key(s) == p + ([COLON] + u) && Key(t) == q + ([COLON] + v);
      JoinIsInjective(p, u, q, v);
      JoinIsInjective(s.mac, s.model, t.mac, t.model);
      assert |SUB| != |MAIN|;
    }
  }

  // With a colon in a model it does not.
  lemma ColonInModelCollides(mac: Text, x: Text, y: Text, substream: bool)
    ensures var s := Stream(mac, x + ([COLON] + y), substream);
            var t := Stream(mac + ([COLON] + x), y, substream);
            s != t && Key(s) == Key(t)
  {
    var last := [COLON] + if substream then SUB else MAIN;
    assert |mac + ([COLON] + x)| > |mac|;
    assert mac + ([COLON] + ((x + ([COLON] + y)) + last)) == (mac + ([COLON] + x)) + ([COLON] + (y + last));
  }

  lemma {:induction false} AtLastColon(t: Text) returns (x: Text, y: Text)
    requires COLON in t
    ensures t == x + ([COLON] + y) && COLON !in y
  {
    if COLON in t[1..] {
      x, y := AtLastColon(t[1..]);
      assert t == [t[0]] + t[1..];
      assert t == [t[0]] + x + ([COLON] + y);
      x := [t[0]] + x;
    } else {
      assert t == [t[0]] + t[1..];
      x, y := [], t[1..];
    }
  }

  // A stream shares its key with another one, whose model has no colon, exactly when its own has one.
  lemma CollidesExactly(s: Stream)
    ensures (exists t: Stream :: t != s && COLON !in t.model && Key(t) == Key(s)) <==> COLON in s.model
  {
    if COLON in s.model {
      var x, y := AtLastColon(s.model);
      ColonInModelCollides(s.mac, x, y, s.substream);
      assert Key(Stream(s.mac + ([COLON] + x), y, s.substream)) == Key(s);
    } else {
      forall t: Stream | COLON !in t.model && Key(t) == Key(s)
        ensures t == s
      {
        KeyIsInjective(s, t);
      }
    }
  }

  // A colon after the MAC is the one before the stream's name.
  lemma ColonsOfKey(s: Stream)
    requires COLON !in s.model
    ensures forall n :: |s.mac| < n < |Key(s)| && Key(s)[n] == COLON ==> n == |s.mac| + 1 + |s.model|
  {
    var head := s.mac + ([COLON] + s.model);
    var last := if s.substream then SUB else MAIN;
    assert Key(s) == head + ([COLON] + last);
    NoLaterColon(head, last);
    NoLaterColon(s.mac, s.model);
    assert forall n :: 0 <= n < |head| ==> Key(s)[n] == head[n];
  }

  predicate SpelledBy(mac: Text, s: Stream) {
    s.mac == mac || HasPrefix(s.mac, mac + [COLON]) || mac == s.mac + ([COLON] + s.model)
  }

  lemma SpelledIsPrefix(mac: Text, s: Stream)
    requires SpelledBy(mac, s)
    ensures HasPrefix(Key(s), mac + [COLON])
  {
    var rest := s.model + ([COLON] + if s.substream then SUB else MAIN);
    var p := mac + [COLON];
    if s.mac == mac {
      assert Key(s) == p + rest;
    } else if mac == s.mac + ([COLON] + s.model) {
      assert Key(s) == p + if s.substream then SUB else MAIN;
    } else {
      assert s.mac == p + s.mac[|p|..];
      assert Key(s) == p + (s.mac[|p|..] + ([COLON] + rest));
    }
  }

  // What clearCameraStreamCache(mac) deletes: with colon-free models, the camera's own streams, those of a
  // MAC that extends it with a colon, and those whose MAC and model spell it.
  lemma ClearedStreams(mac: Text, s: Stream)
    requires COLON !in s.model
    ensures HasPrefix(Key(s), mac + [COLON]) <==> SpelledBy(mac, s)
  {
    var k, p := Key(s), mac + [COLON];
    if SpelledBy(mac, s) {
      SpelledIsPrefix(mac, s);
    } else if HasPrefix(k, p) {
      ColonsOfKey(s);
      PrefixIsSpelled(mac, s);
    }
  }

  lemma PrefixIsSpelled(mac: Text, s: Stream)
    requires HasPrefix(Key(s), mac + [COLON])
    requires forall n :: |s.mac| < n < |Key(s)| && Key(s)[n] == COLON ==> n == |s.mac| + 1 + |s.model|
    ensures SpelledBy(mac, s)
  {
    var k, p := Key(s), mac + [COLON];
    assert k[|mac|] == k[..|p|][|mac|] == COLON;
    assert k[..|mac|] == k[..|p|][..|mac|] == mac;
    assert k[..|s.mac|] == s.mac && k[..|s.mac| + 1 + |s.model|] == s.mac + ([COLON] + s.model);
    if |mac| < |s.mac| {
      assert k[..|p|] == s.mac[..|p|];
    }
  }

  // --- The cache as a state machine --------------------------------------------------------

  datatype Entry = Entry(bundle: Bundle, expiresAt: nat)

  // A call waiting for the API.
  datatype Fetch = Fetch(stream: Stream, noCache: bool, ttl: nat, open: bool)

  // An answer of the API to such a call.
  datatype Answer = Answer(stream: Stream, info: Info, at: nat, ttl: nat)

  datatype Result = Result(stream: Stream, bundle: Bundle, cached: bool, at: nat)

  datatype State = State(
    clock: nat,
    cache: map<Text, Entry>,
    fetches: seq<Fetch>,
    answers: seq<Answer>,
    results: seq<Result>)

  datatype Event =
    | Call(stream: Stream, noCache: bool, ttl: nat)
    | Answered(fetch: nat, info: Info)
    | Failed(fetch: nat)
    | ClearAll
    | Clear(mac: Text)
    | Tick(ms: nat)

  function Initial(): State { State(0, map[], [], [], []) }

  predicate Enabled(s: State, e: Event) {
    match e
    case Answered(i, _) => i < |s.fetches| && s.fetches[i].open
    case Failed(i) => i < |s.fetches| && s.fetches[i].open
    case _ => true
  }

  predicate Hit(s: State, stream: Stream, noCache: bool) {
    !noCache && Key(stream) in s.cache && s.cache[Key(stream)].expiresAt > s.clock
  }

  function Without(cache: map<Text, Entry>, prefix: Text): map<Text, Entry> {
    map k | k in cache && !HasPrefix(k, prefix) :: cache[k]
  }

  function Step(s: State, e: Event): State
    requires Enabled(s, e)
  {
    match e
    case Call(stream, noCache, ttl) =>
      if Hit(s, stream, noCache) then
        s.(results := s.results + [Result(stream, s.cache[Key(stream)].bundle, true, s.clock)])
      else s.(fetches := s.fetches + [Fetch(stream, noCache, ttl, true)])
    case Answered(i, info) =>
      var f := s.fetches[i];
      s.(fetches := s.fetches[i := f.(open := false)],
         answers := s.answers + [Answer(f.stream, info, s.clock, f.ttl)],
         cache := if f.noCache then s.cache else s.cache[Key(f.stream) := Entry(Normalize(info), s.clock + f.ttl)],
         results := s.results + [Result(f.stream, Normalize(info), false, s.clock)])
    case Failed(i) => s.(fetches := s.fetches[i := s.fetches[i].(open := false)])
    case ClearAll => s.(cache := map[])
    case Clear(mac) => s.(cache := if mac == [] then map[] else Without(s.cache, mac + [COLON]))
    case Tick(ms) => s.(clock := s.clock + ms)
  }

  function Run(s: State, run: seq<Event>): Option<State>
    decreases |run|
  {
    if run == [] then Some(s)
    else if Enabled(s, run[0]) then Run(Step(s, run[0]), run[1..])
    else None
  }

  // Answer i backs a bundle that lives until expiresAt.
  predicate Backs(a: Answer, key: Text, bundle: Bundle, expiresAt: nat) {
    Key(a.stream) == key && Normalize(a.info) == bundle && a.at + a.ttl == expiresAt
  }

  // Every entry under a key with the prefix comes from an answer from the first on.
  ghost predicate Backed(s: State, prefix: Text, first: nat) {
    forall k | k in s.cache && HasPrefix(k, prefix) ::
      exists i :: first <= i < |s.answers| && Backs(s.answers[i], k, s.cache[k].bundle, s.cache[k].expiresAt)
  }

  // A cached result is the normalised answer for its key, given before it and less than its TTL ago; one
  // that is not cached is the normalised answer of its own fetch, given at that very time.
  ghost predicate ResultBacked(s: State, r: Result) {
    exists i :: 0 <= i < |s.answers| &&
      var a := s.answers[i];
      && Key(a.stream) == Key(r.stream) && Normalize(a.info) == r.bundle
      && if r.cached then a.at <= r.at < a.at + a.ttl else a.stream == r.stream && a.at == r.at
  }

  ghost predicate Inv(s: State) {
    && Backed(s, [], 0)
    && (forall i | 0 <= i < |s.answers| :: s.answers[i].at <= s.clock)
    && (forall i | 0 <= i < |s.results| :: ResultBacked(s, s.results[i]))
  }

  lemma StepKeepsBacked(s: State, e: Event, prefix: Text, first: nat)
    requires Backed(s, prefix, first) && Enabled(s, e) && first <= |s.answers|
    ensures Backed(Step(s, e), prefix, first)
  {
    var t := Step(s, e);
    forall k | k in t.cache && HasPrefix(k, prefix)
      ensures exists i :: first <= i < |t.answers| && Backs(t.answers[i], k, t.cache[k].bundle, t.cache[k].expiresAt)
    {
      if k in s.cache && t.cache[k] == s.cache[k] {
        var i :| first <= i < |s.answers| && Backs(s.answers[i], k, s.cache[k].bundle, s.cache[k].expiresAt);
        assert t.answers[i] == s.answers[i];
      } else {
        assert Backs(t.answers[|s.answers|], k, t.cache[k].bundle, t.cache[k].expiresAt);
      }
    }
  }

  lemma ResultsStayBacked(s: State, e: Event)
    requires Inv(s) && Enabled(s, e)
    ensures forall i | 0 <= i < |s.results| :: ResultBacked(Step(s, e), s.results[i])
  {
    var t := Step(s, e);
    forall i | 0 <= i < |s.results|
      ensures ResultBacked(t, s.results[i])
    {
      var r := s.results[i];
      var j :| 0 <= j < |s.answers| && Key(s.answers[j].stream) == Key(r.stream) && Normalize(s.answers[j].info) == r.bundle
               && if r.cached then s.answers[j].at <= r.at < s.answers[j].at + s.answers[j].ttl
                  else s.answers[j].stream == r.stream && s.answers[j].at == r.at;
      assert t.answers[j] == s.answers[j];
    }
  }

  lemma NewResultIsBacked(s: State, e: Event)
    requires Inv(s) && Enabled(s, e) && |Step(s, e).results| > |s.results|
    ensures ResultBacked(Step(s, e), Step(s, e).results[|s.results|])
  {
    var t := Step(s, e);
    if e.Call? {
      var k := Key(e.stream);
      assert HasPrefix(k, []);
      var i :| 0 <= i < |s.answers| && Backs(s.answers[i], k, s.cache[k].bundle, s.cache[k].expiresAt);
      assert t.answers[i] == s.answers[i];
    } else {
      assert t.answers[|s.answers|].at == s.clock;
    }
  }

  lemma StepKeepsInv(s: State, e: Event)
    requires Inv(s) && Enabled(s, e)
    ensures Inv(Step(s, e))
  {
    var t := Step(s, e);
    StepKeepsBacked(s, e, [], 0);
    ResultsStayBacked(s, e);
    if |t.results| > |s.results| {
      NewResultIsBacked(s, e);
    }
    assert s.results <= t.results;
  }

  lemma {:induction false} RunKeepsInv(s: State, run: seq<Event>)
    requires Inv(s) && Run(s, run).Some?
    ensures Inv(Run(s, run).value)
    decreases |run|
  {
    if run != [] {
      StepKeepsInv(s, run[0]);
      RunKeepsInv(Step(s, run[0]), run[1..]);
    }
  }

  // In every run of overlapping fetches, clears and clock ticks each result is what a direct fetch
  // brought: its own, or for a cached one a fetch for the same key less than its TTL before.
  lemma CacheRefinesFetching(run: seq<Event>, t: State)
    requires Run(Initial(), run) == Some(t)
    ensures forall r | r in t.results ::
              exists i :: 0 <= i < |t.answers| &&
                var a := t.answers[i];
                && Key(a.stream) == Key(r.stream) && Normalize(a.info) == r.bundle
                && if r.cached then a.at <= r.at < a.at + a.ttl else a.stream == r.stream && a.at == r.at
  {
    RunKeepsInv(Initial(), run);
    forall r | r in t.results
      ensures ResultBacked(t, r)
    {
      var j :| 0 <= j < |t.results| && t.results[j] == r;
    }
  }

  lemma HitsAreForTheSameStream(run: seq<Event>, t: State, r: Result)
    requires Run(Initial(), run) == Some(t) && r in t.results && r.cached
    requires COLON !in r.stream.model && forall i | 0 <= i < |t.answers| :: COLON !in t.answers[i].stream.model
    ensures exists i :: 0 <= i < |t.answers| &&
              t.answers[i].stream == r.stream && Normalize(t.answers[i].info) == r.bundle
              && t.answers[i].at <= r.at < t.answers[i].at + t.answers[i].ttl
  {
    RunKeepsInv(Initial(), run);
    var j :| 0 <= j < |t.results| && t.results[j] == r;
    assert ResultBacked(t, r);
    var i :| 0 <= i < |t.answers| && Key(t.answers[i].stream) == Key(r.stream) && Normalize(t.answers[i].info) == r.bundle
             && t.answers[i].at <= r.at < t.answers[i].at + t.answers[i].ttl;
    KeyIsInjective(t.answers[i].stream, r.stream);
  }

  lemma {:induction false} RunKeepsBacked(s: State, run: seq<Event>, prefix: Text, first: nat)
    requires Backed(s, prefix, first) && first <= |s.answers| && Run(s, run).Some?
    ensures Backed(Run(s, run).value, prefix, first)
    decreases |run|
  {
    if run != [] {
      StepKeepsBacked(s, run[0], prefix, first);
      RunKeepsBacked(Step(s, run[0]), run[1..], prefix, first);
    }
  }

  // Right after clearing a MAC nothing of it is cached, everything else still is; and in any run from
  // there what is cached of it was answered after the clear.
  lemma ClearForgets(s: State, mac: Text, run: seq<Event>, t: State)
    requires mac != [] && Run(Step(s, Clear(mac)), run) == Some(t)
    ensures forall k | k in Step(s, Clear(mac)).cache :: !HasPrefix(k, mac + [COLON])
    ensures forall k | k in s.cache && !HasPrefix(k, mac + [COLON]) ::
              k in Step(s, Clear(mac)).cache && Step(s, Clear(mac)).cache[k] == s.cache[k]
    ensures Backed(t, mac + [COLON], |s.answers|)
  {
    RunKeepsBacked(Step(s, Clear(mac)), run, mac + [COLON], |s.answers|);
  }

  // --- What is cached, from the run itself ------------------------------------------------------

  lemma {:induction false} RunLast(s: State, run: seq<Event>)
    requires run != [] && Run(s, run).Some?
    ensures var n := |run| - 1;
            && Run(s, run[..n]).Some? && Enabled(Run(s, run[..n]).value, run[n])
            && Run(s, run).value == Step(Run(s, run[..n]).value, run[n])
    decreases |run|
  {
    if |run| > 1 {
      var n := |run| - 1;
      RunLast(Step(s, run[0]), run[1..]);
      assert run[..n][1..] == run[1..][..n - 1];
    } else {
      assert run[..0] == [] && run[1..] == [];
    }
  }

  // What event e puts into the cache from state s, if anything.
  function Stores(s: State, e: Event): Option<(Text, Entry)> {
    if e.Answered? && e.fetch < |s.fetches| && !s.fetches[e.fetch].noCache then
      Some((Key(s.fetches[e.fetch].stream), Entry(Normalize(e.info), s.clock + s.fetches[e.fetch].ttl)))
    else None
  }

  predicate Clears(e: Event, key: Text) {
    e.ClearAll? || (e.Clear? && (e.mac == [] || HasPrefix(key, e.mac + [COLON])))
  }

  // Event n stored the entry under the key.
  ghost predicate StoredAt(run: seq<Event>, n: nat, key: Text, entry: Entry)
    requires n < |run|
  {
    Run(Initial(), run[..n]).Some? && Stores(Run(Initial(), run[..n]).value, run[n]) == Some((key, entry))
  }

  ghost predicate TouchedAt(run: seq<Event>, n: nat, key: Text)
    requires n < |run|
  {
    || Clears(run[n], key)
    || (Run(Initial(), run[..n]).Some?
        && var stored := Stores(Run(Initial(), run[..n]).value, run[n]); stored.Some? && stored.value.0 == key)
  }

  ghost predicate KeptSince(run: seq<Event>, n: nat, key: Text, entry: Entry)
    requires n < |run|
  {
    StoredAt(run, n, key, entry) && forall m: nat | n < m < |run| :: !TouchedAt(run, m, key)
  }

  lemma StepTouches(s: State, e: Event, key: Text)
    requires Enabled(s, e)
    ensures var t := Step(s, e);
            if Stores(s, e).Some? && Stores(s, e).value.0 == key then key in t.cache && t.cache[key] == Stores(s, e).value.1
            else if Clears(e, key) then key !in t.cache
            else (key in t.cache <==> key in s.cache) && (key in t.cache ==> t.cache[key] == s.cache[key])
  {
  }

  lemma TouchedEarlier(run: seq<Event>, m: nat, key: Text, entry: Entry)
    requires m + 1 < |run|
    ensures TouchedAt(run[..|run| - 1], m, key) <==> TouchedAt(run, m, key)
    ensures StoredAt(run[..|run| - 1], m, key, entry) <==> StoredAt(run, m, key, entry)
  {
    assert run[..|run| - 1][..m] == run[..m];
  }

  lemma KeptEarlier(run: seq<Event>, k: nat, key: Text, entry: Entry)
    requires k + 1 < |run|
    ensures KeptSince(run, k, key, entry)
            <==> KeptSince(run[..|run| - 1], k, key, entry) && !TouchedAt(run, |run| - 1, key)
  {
    var n := |run| - 1;
    TouchedEarlier(run, k, key, entry);
    if KeptSince(run, k, key, entry) {
      forall m: nat | k < m < n
        ensures !TouchedAt(run[..n], m, key)
      {
        TouchedEarlier(run, m, key, entry);
      }
    }
    if KeptSince(run[..n], k, key, entry) && !TouchedAt(run, n, key) {
      forall m: nat | k < m < |run|
        ensures !TouchedAt(run, m, key)
      {
        if m < n {
          TouchedEarlier(run, m, key, entry);
        }
      }
    }
  }

  // The cache holds an entry under a key exactly when some answer of the run stored it there and no later
  // answer or clear has touched the key.
  lemma {:induction false} CachedExactly(run: seq<Event>, t: State, key: Text, entry: Entry)
    requires Run(Initial(), run) == Some(t)
    ensures (key in t.cache && t.cache[key] == entry) <==> exists n: nat :: n < |run| && KeptSince(run, n, key, entry)
  {
    if run != [] {
      var n := |run| - 1;
      RunLast(Initial(), run);
      var u := Run(Initial(), run[..n]).value;
      CachedExactly(run[..n], u, key, entry);
      StepTouches(u, run[n], key);
      LastTouch(run, u, key, entry);
      forall k: nat | k < n
        ensures KeptSince(run, k, key, entry) <==> KeptSince(run[..n], k, key, entry) && !TouchedAt(run, n, key)
      {
        KeptEarlier(run, k, key, entry);
      }
      if exists k: nat :: k < n && KeptSince(run[..n], k, key, entry) {
        var k: nat :| k < n && KeptSince(run[..n], k, key, entry);
        assert KeptSince(run, k, key, entry) <==> !TouchedAt(run, n, key);
      }
    }
  }

  lemma LastTouch(run: seq<Event>, u: State, key: Text, entry: Entry)
    requires run != [] && Run(Initial(), run[..|run| - 1]) == Some(u)
    ensures var n := |run| - 1;
            && (KeptSince(run, n, key, entry) <==> Stores(u, run[n]) == Some((key, entry)))
            && (TouchedAt(run, n, key) <==> Clears(run[n], key) || (Stores(u, run[n]).Some? && Stores(u, run[n]).value.0 == key))
  {
  }

  // So a call is answered from the cache exactly when such an answer is left whose TTL is not over.
  lemma HitsExactly(run: seq<Event>, t: State, stream: Stream, noCache: bool)
    requires Run(Initial(), run) == Some(t)
    ensures Hit(t, stream, noCache) <==>
            !noCache && exists n: nat, entry :: n < |run| && KeptSince(run, n, Key(stream), entry) && entry.expiresAt > t.clock
  {
    var key := Key(stream);
    if Hit(t, stream, noCache) {
      CachedExactly(run, t, key, t.cache[key]);
    }
    forall n: nat, entry | n < |run| && KeptSince(run, n, key, entry)
      ensures key in t.cache && t.cache[key] == entry
    {
      CachedExactly(run, t, key, entry);
    }
  }

  // The key, sign by sign.
  lemma KeySpelled(mac: Text, model: Text)
    ensures Key(Stream(mac, model, true)) == mac + Ascii(":") + model + Ascii(":sub")
    ensures Key(Stream(mac, model, false)) == mac + Ascii(":") + model + Ascii(":main")
  {
    assert Ascii(":sub") == Ascii(":") + SUB && Ascii(":main") == Ascii(":") + MAIN;
  }

  // --- The object --------------------------------------------------------------------------

  class StreamInfoCache {
    var clock: nat
    var streamInfoCache: map<Text, Entry>
    var fetches: seq<Fetch>
    ghost var answers: seq<Answer>
    ghost var results: seq<Result>

    ghost function View(): State
      reads this
    {
      State(clock, streamInfoCache, fetches, answers, results)
    }

    ghost predicate Valid()
      reads this
    {
      Inv(View())
    }

    constructor ()
      ensures View() == Initial() && Valid()
    {
      clock, streamInfoCache, fetches, answers, results := 0, map[], [], [], [];
    }

    // getCameraWebRTCConnectionInfo up to its await, or to its return on a hit.
    method GetConnectionInfo(stream: Stream, noCache: bool, ttl: nat) returns (bundle: Option<Bundle>)
      requires Valid()
      modifies this
      ensures View() == Step(old(View()), Call(stream, noCache, ttl)) && Valid()
      ensures bundle.Some? <==> old(Hit(View(), stream, noCache))
      ensures bundle.Some? ==>
                && results == old(results) + [Result(stream, bundle.value, true, clock)]
                && ResultBacked(View(), Result(stream, bundle.value, true, clock))
    {
      StepKeepsInv(View(), Call(stream, noCache, ttl));
      if Hit(View(), stream, noCache) {
        NewResultIsBacked(View(), Call(stream, noCache, ttl));
      }
      bundle := None;
      if !noCache && Key(stream) in streamInfoCache {
        var entry := streamInfoCache[Key(stream)];
        if entry.expiresAt > clock {
          bundle := Some(entry.bundle);
        }
      }
      if bundle.Some? {
        results := results + [Result(stream, bundle.value, true, clock)];
      } else {
        fetches := fetches + [Fetch(stream, noCache, ttl, true)];
      }
    }

    // The rest of it once the API has answered.
    method OnAnswer(i: nat, info: Info) returns (bundle: Bundle)
      requires Valid() && Enabled(View(), Answered(i, info))
      modifies this
      ensures View() == Step(old(View()), Answered(i, info)) && Valid()
      ensures bundle == Normalize(info)
      ensures SameServers(info.iceServers, bundle.iceServers) && bundle.authToken == info.authToken
      ensures bundle.signalingUrl == info.signalingUrl <==> !Decodable(info.signalingUrl)
    {
      SanitizeKeeps(info.iceServers);
      UntouchedExactly(info.signalingUrl);
      StepKeepsInv(View(), Answered(i, info));
      var f := fetches[i];
      bundle := Bundle(NormalizeUrl(info.signalingUrl), Sanitize(info.iceServers), info.authToken);
      if !f.noCache {
        streamInfoCache := streamInfoCache[Key(f.stream) := Entry(bundle, clock + f.ttl)];
      }
      fetches := fetches[i := f.(open := false)];
      answers := answers + [Answer(f.stream, info, clock, f.ttl)];
      results := results + [Result(f.stream, bundle, false, clock)];
    }

    // clearCameraStreamCache(mac), key by key.
    method ClearCamera(mac: Text)
      requires Valid()
      modifies this
      ensures View() == Step(old(View()), Clear(mac)) && Valid()
    {
      StepKeepsInv(View(), Clear(mac));
      if mac == [] {
        streamInfoCache := map[];
        return;
      }
      var prefix := mac + [COLON];
      var keys := streamInfoCache.Keys;
      while keys != {}
        invariant keys <= old(streamInfoCache).Keys && streamInfoCache.Keys <= old(streamInfoCache).Keys
        invariant forall k | k in old(streamInfoCache) && (k in keys || !HasPrefix(k, prefix)) ::
                    k in streamInfoCache && streamInfoCache[k] == old(streamInfoCache)[k]
        invariant forall k | k in streamInfoCache :: k in keys || !HasPrefix(k, prefix)
        invariant clock == old(clock) && fetches == old(fetches)
        invariant answers == old(answers) && results == old(results)
        decreases keys
      {
        var k :| k in keys;
        keys := keys - {k};
        if HasPrefix(k, prefix) {
          streamInfoCache := streamInfoCache - {k};
        }
      }
      assert streamInfoCache == Without(old(streamInfoCache), prefix);
    }
  }
}
