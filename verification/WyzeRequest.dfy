/** request() of src/index.js with everything it awaits: login, rate limits, token refresh, one retry.
    The outside world is a script: each await takes the next wake-up, which says how much later it comes,
    what other callers have meanwhile done to the shared fields, and what the awaited operation brought. */
module WyzeRequest {
  import opened JsText
  import LoginDebounce

  // A response's `code`: missing, a number, or a string with the number it converts to, if any.
  datatype Code = NoCode | NumberCode(n: int) | StringCode(parsed: Option<int>)

  datatype Tokens = Tokens(access: string, refresh: string)

  // What a post brought. tokens is data (login) or data.data (refresh) when present.
  datatype Reply =
    | NetworkError
    | Reply(code: Code, msg: string, description: string, tokens: Option<Tokens>, rateLimitSleep: nat)

  datatype Kind = Api | LoginPost | RefreshPost

  // A post: the tokens its body carried, the access token the client held, when it was sent, and what came back;
  // None when nothing has come back or the answer is not awaited.
  datatype Post = Post(kind: Kind, carried: Tokens, held: string, at: nat, reply: Option<Reply>)

  // The fields other callers share.
  datatype Shared = Shared(token: string, refresh: string, last: nat, debounce: nat)

  datatype Wake = Wake(later: nat, shared: Shared, reply: Reply, fileOk: bool, loaded: Option<Tokens>)

  datatype World = World(
    shared: Shared,
    clock: nat,
    hasApiKeys: bool,
    posts: seq<Post>,
    // What was written to the token file.
    written: seq<Tokens>,
    script: seq<Wake>)

  // NotOk is the {ok: false, error} object; Pending is an await that never resumes.
  datatype Outcome = Ok(reply: Reply) | NotOk(retryAfter: nat) | Threw | Pending

  // --- Classifying an answer ---------------------------------------------------------------

  function ToLower(s: string): string {
    if s == "" then "" else [if 'A' <= s[0] <= 'Z' then s[0] + 32 as char else s[0]] + ToLower(s[1..])
  }

  function Message(r: Reply): string
    requires r.Reply?
  {
    if r.msg != "" then r.msg else if r.description != "" then r.description else "Unknown Wyze API Error"
  }

  predicate Mentions(r: Reply, part: string)
    requires r.Reply?
  {
    Includes(ToLower(Message(r)), part)
  }

  // No code, or Number(code) === 1.
  predicate Accepted(r: Reply) {
    r.Reply? && (r.code.NoCode? || r.code == NumberCode(1) || r.code == StringCode(Some(1)))
  }

  predicate InvalidCredentials(r: Reply) {
    r.Reply? && (Mentions(r, "usernameorpassworderror") || Mentions(r, "userislocked") || Mentions(r, "invalid user name or password"))
  }

  predicate RateLimit(r: Reply) {
    r.Reply? && (r.code == NumberCode(3044) || (r.code == NumberCode(1000) && Mentions(r, "too many failed attempts")))
  }

  predicate TokenError(r: Reply) {
    r.Reply? && (r.code == NumberCode(2001) || Mentions(r, "accesstokenerror") || Mentions(r, "access token is error"))
  }

  // The branch of _handleApiResponse an answer takes.
  datatype Class = Accept | BadCredentials | Limited | BadToken | OtherError

  function Classify(r: Reply): Class
    requires r.Reply?
  {
    if Accepted(r) then Accept
    else if InvalidCredentials(r) then BadCredentials
    else if RateLimit(r) then Limited
    else if TokenError(r) then BadToken
    else OtherError
  }

  // No caller has set the debounce above its cap.
  ghost predicate Capped(w: World) {
    && w.shared.debounce <= LoginDebounce.CAP
    && (forall i | 0 <= i < |w.script| :: w.script[i].shared.debounce <= LoginDebounce.CAP)
  }

  // --- The operations ----------------------------------------------------------------------

  function Resume(w: World, ms: nat): World
    requires w.script != []
  {
    var wake := w.script[0];
    w.(clock := w.clock + ms + wake.later, shared := wake.shared, script := w.script[1..])
  }

  function SetTokens(w: World, t: Tokens): World {
    w.(shared := w.shared.(token := t.access, refresh := t.refresh))
  }

  const NONE: Tokens := Tokens("", "")

  // The tokens the client holds, and those of a request's own data.
  function Held(w: World): Tokens { Tokens(w.shared.token, w.shared.refresh) }

  function OwnData(w: World): Tokens { Tokens(w.shared.token, "") }

  function ClearToken(w: World): World { w.(shared := w.shared.(token := "")) }

  // _performRequest, for a body carrying the given access token.
  function Perform(w: World, kind: Kind, carried: Tokens): (r: (World, Outcome))
    ensures |r.0.script| <= |w.script| && w.posts <= r.0.posts && (r.1.Pending? ==> r.0.script == [])
    decreases |w.script|, 0
  {
    var w1 := Posted(w, kind, carried);
    if w.script == [] || (w1.script == [] && w.script[0].reply.Reply?) then (w1, Pending)
    else if w.script[0].reply.NetworkError? then (w1, Threw)
    else HandleResponse(Resume(w1, w.script[0].reply.rateLimitSleep), w.script[0].reply)
  }

  // The post, and its answer if one comes.
  function Posted(w: World, kind: Kind, carried: Tokens): World {
    if w.script == [] then w.(posts := w.posts + [Post(kind, carried, w.shared.token, w.clock, None)])
    else Resume(w, 0).(posts := w.posts + [Post(kind, carried, w.shared.token, w.clock, Some(w.script[0].reply))])
  }

  // _handleApiResponse
  function HandleResponse(w: World, reply: Reply): (r: (World, Outcome))
    requires reply.Reply?
    ensures |r.0.script| <= |w.script| && w.posts <= r.0.posts && (r.1.Pending? ==> r.0.script == [])
    decreases |w.script|, 4
  {
    match Classify(reply)
    case Accept => (w, Ok(reply))
    case BadCredentials => (ClearToken(w), Threw)
    case Limited => (w, NotOk(w.clock + 600000))
    case BadToken => HandleTokenError(w)
    case OtherError => (w, Threw)
  }

  // _handleAccessTokenError
  function HandleTokenError(w: World): (r: (World, Outcome))
    ensures |r.0.script| <= |w.script| && w.posts <= r.0.posts && (r.1.Pending? ==> r.0.script == [])
    decreases |w.script|, 3
  {
    var w0 := ClearToken(w);
    var (w1, o) := RefreshFrom(w0, Held(w0), 0);
    if o.Ok? then (w1, NotOk(if w1.shared.token != "" then w1.clock else 0)) else (w1, o)
  }

  // The loop of refreshToken from the given attempt on; the request data is built once, before it.
  function RefreshFrom(w: World, carried: Tokens, attempt: nat): (r: (World, Outcome))
    ensures |r.0.script| <= |w.script| && w.posts <= r.0.posts && (r.1.Pending? ==> r.0.script == [])
    ensures !r.1.NotOk?
    decreases |w.script|, 2
  {
    var (w1, o) := RefreshOnce(w, carried);
    if o.Ok? || o.Pending? then (w1, o)
    else if attempt + 1 >= 2 then (w1, Threw)
    else if w1.script == [] then (w1, Pending)
    else RefreshFrom(Resume(w1, 2000), carried, attempt + 1)
  }

  // One turn of that loop: post, check the shape, store the tokens.
  function RefreshOnce(w: World, carried: Tokens): (r: (World, Outcome))
    ensures |r.0.script| <= |w.script| && w.posts <= r.0.posts && (r.1.Pending? ==> r.0.script == [])
    ensures !r.1.NotOk?
    decreases |w.script|, 1
  {
    var (w1, o) := Perform(w, RefreshPost, carried);
    if o.Pending? then (w1, Pending)
    else if !o.Ok? || !o.reply.Reply? || o.reply.tokens.None? then (w1, Threw)
    else
      var (w2, stored) := PersistFrom(SetTokens(w1, o.reply.tokens.value), Held(SetTokens(w1, o.reply.tokens.value)), 0);
      (w2, if stored.Ok? then o else stored)
  }

  // _persistTokens from the given attempt on; what it writes is put together before the loop. Its Ok carries no answer of its own.
  function PersistFrom(w: World, data: Tokens, attempt: nat): (r: (World, Outcome))
    requires attempt < 2
    ensures |r.0.script| <= |w.script| <= |r.0.script| + 3 - 2 * attempt && r.0.posts == w.posts && w.clock <= r.0.clock
    ensures Capped(w) ==> Capped(r.0)
    ensures r.1.Pending? ==> r.0.script == []
    ensures !r.1.NotOk?
    decreases |w.script|
  {
    if w.script == [] then (w, Pending)
    else
      var w1 := Resume(w, 0);
      if w.script[0].fileOk then (w1.(written := w1.written + [data]), Ok(NetworkError))
      else if attempt + 1 >= 2 then (w1, Threw)
      else if w1.script == [] then (w1, Pending)
      else PersistFrom(Resume(w1, 2000), data, attempt + 1)
  }

  // login()
  function Login(w: World): (r: (World, Outcome))
    ensures |r.0.script| <= |w.script| && w.posts <= r.0.posts && (r.1.Pending? ==> r.0.script == [])
    ensures !r.1.NotOk?
  {
    if !w.hasApiKeys then (w, Threw)
    else
      var (w1, o) := Perform(w, LoginPost, NONE);
      if o.Pending? then (w1, Pending)
      else if !o.Ok? || !o.reply.Reply? || o.reply.tokens.None? || o.reply.tokens.value.access == "" then (w1, Threw)
      else
        var (w2, stored) := PersistFrom(SetTokens(w1, o.reply.tokens.value), Held(SetTokens(w1, o.reply.tokens.value)), 0);
        (w2, if stored.Ok? then o else stored)
  }

  // updateDebounceAndLogin, which maybeLogin does not await: only its synchronous part happens here.
  function LoginWithoutWaiting(w: World, now: nat): World {
    w.(shared := w.shared.(last := now, debounce := LoginDebounce.Doubled(w.shared.debounce)),
       posts := if w.hasApiKeys then w.posts + [Post(LoginPost, NONE, w.shared.token, w.clock, None)] else w.posts)
  }

  // waitForDebounceClearance from the given number of sleeps on, and what follows it.
  function WaitFrom(w: World, now: nat, sleeps: nat): (r: (World, Outcome))
    ensures |r.0.script| <= |w.script| && w.posts <= r.0.posts && (r.1.Pending? ==> r.0.script == [])
    ensures !r.1.NotOk?
    decreases |w.script|
  {
    if sleeps * LoginDebounce.SLEEP >= w.shared.debounce then
      (if w.shared.token == "" then LoginWithoutWaiting(w, now) else w, Ok(NetworkError))
    else if w.script == [] then (w, Pending)
    else
      var w1 := Resume(w, LoginDebounce.SLEEP);
      if w1.shared.token != "" then (w1, Ok(NetworkError)) else WaitFrom(w1, now, sleeps + 1)
  }

  // _loadPersistedTokens
  function AfterLoad(w: World): World
    requires w.script != []
  {
    var loaded := w.script[0].loaded;
    if loaded.Some? then SetTokens(Resume(w, 0), loaded.value) else Resume(w, 0)
  }

  // maybeLogin
  function MaybeLogin(w: World): (r: (World, Outcome))
    ensures |r.0.script| <= |w.script| && w.posts <= r.0.posts && (r.1.Pending? ==> r.0.script == [])
    ensures !r.1.NotOk?
  {
    if w.shared.token != "" then (w, Ok(NetworkError))
    else if w.script == [] then (w, Pending)
    else
      var w1 := AfterLoad(w);
      if w1.shared.token != "" then (w1, Ok(NetworkError))
      else if LoginDebounce.Cleared(w1.shared.last, w1.shared.debounce, w1.clock) then
        var d := LoginDebounce.ResetIfNeeded(w1.shared.last, w1.shared.debounce, w1.clock);
        Login(w1.(shared := w1.shared.(last := w1.clock, debounce := d)))
      else WaitFrom(w1, w1.clock, 0)
  }

  // A round: log in if need be, then post with the token of that moment.
  function Round(w: World, url: Kind): (r: (World, Outcome))
    ensures |r.0.script| <= |w.script| && w.posts <= r.0.posts && (r.1.Pending? ==> r.0.script == [])
  {
    var (w1, o) := MaybeLogin(w);
    if !o.Ok? then (w1, o)
    else if w1.script == [] then (w1, Pending)
    else
      var w2 := Resume(w1, 0);
      Perform(w2, url, OwnData(w2))
  }

  // request() is a round, and _handleRetry another one after a wait; others can come between the two.
  function Request(w: World): (r: (World, Outcome))
    ensures w.posts <= r.0.posts && (r.1.Pending? ==> r.0.script == [])
  {
    var (w1, o) := Round(w, Api);
    if !o.NotOk? then (w1, o)
    else if o.retryAfter == 0 then (w1, Threw)
    else if w1.script == [] then (w1, Pending)
    else Retry(Resume(w1, 0), o.retryAfter)
  }

  function Retry(w: World, retryAfter: nat): (r: (World, Outcome))
    ensures w.posts <= r.0.posts && (r.1.Pending? ==> r.0.script == [])
  {
    if retryAfter > w.clock && w.script == [] then (w, Pending)
    else
      var w1 := if retryAfter > w.clock then Resume(w, retryAfter - w.clock) else w;
      var (w2, o) := Round(w1, Api);
      (w2, if o.NotOk? then Threw else o)
  }

  // --- Counting posts and awaits -----------------------------------------------------------

  ghost function Count(posts: seq<Post>, kind: Kind): nat {
    if posts == [] then 0
    else Count(posts[..|posts| - 1], kind) + if posts[|posts| - 1].kind == kind then 1 else 0
  }

  lemma {:induction false} CountAppend(a: seq<Post>, b: seq<Post>, kind: Kind)
    ensures Count(a + b, kind) == Count(a, kind) + Count(b, kind)
  {
    if b == [] {
      assert a + b == a;
    } else {
      var n := |b| - 1;
      assert (a + b)[..|a| + n] == a + b[..n];
      CountAppend(a, b[..n], kind);
    }
  }

  // The posts sent between two worlds.
  ghost function Sent(w: World, v: World): seq<Post>
    requires |w.posts| <= |v.posts|
  {
    v.posts[|w.posts|..]
  }

  // Login and refresh answers that would send the engine into another refresh.
  ghost predicate Tame(posts: seq<Post>) {
    forall p :: p in posts && !p.kind.Api? && p.reply.Some? && p.reply.value.Reply? ==> Classify(p.reply.value) != BadToken
  }

  // v comes after w: posts were only added, at most so many of each kind, none dated back and each of our
  // own carrying the token then held; at most so many wake-ups were used.
  ghost predicate Within(w: World, v: World, api: nat, login: nat, refresh: nat, wakes: nat) {
    && w.posts <= v.posts
    && Count(Sent(w, v), Api) <= api
    && Count(Sent(w, v), LoginPost) <= login
    && Count(Sent(w, v), RefreshPost) <= refresh
    && |v.script| <= |w.script| <= |v.script| + wakes
    && w.clock <= v.clock
    && (Capped(w) ==> Capped(v))
    && (forall p :: p in Sent(w, v) ==> w.clock <= p.at && (p.kind.Api? ==> p.carried.access == p.held))
  }

  lemma SentAppend(u: World, v: World, w: World)
    requires u.posts <= v.posts <= w.posts
    ensures Sent(u, w) == Sent(u, v) + Sent(v, w)
    ensures Tame(Sent(u, w)) ==> Tame(Sent(u, v)) && Tame(Sent(v, w))
  {
    assert Sent(u, w) == Sent(u, v) + Sent(v, w);
    if Tame(Sent(u, w)) {
      assert forall p :: p in Sent(u, v) ==> p in Sent(u, w);
      assert forall p :: p in Sent(v, w) ==> p in Sent(u, w);
    }
  }

  lemma Chain(u: World, v: World, w: World, a: nat, l: nat, r: nat, n: nat, a': nat, l': nat, r': nat, n': nat)
    requires Within(u, v, a, l, r, n) && Within(v, w, a', l', r', n')
    ensures Within(u, w, a + a', l + l', r + r', n + n')
  {
    SentAppend(u, v, w);
    CountAppend(Sent(u, v), Sent(v, w), Api);
    CountAppend(Sent(u, v), Sent(v, w), LoginPost);
    CountAppend(Sent(u, v), Sent(v, w), RefreshPost);
  }

  // Nothing is sent while waiting.
  lemma Quiet(w: World, v: World, wakes: nat)
    requires w.posts == v.posts && |v.script| <= |w.script| <= |v.script| + wakes && w.clock <= v.clock
    requires Capped(w) ==> Capped(v)
    ensures Within(w, v, 0, 0, 0, wakes)
  {
    assert Sent(w, v) == [];
  }

  lemma OnePost(w: World, v: World, p: Post, wakes: nat)
    requires v.posts == w.posts + [p] && |v.script| <= |w.script| <= |v.script| + wakes && w.clock <= v.clock
    requires Capped(w) ==> Capped(v)
    requires w.clock <= p.at && (p.kind.Api? ==> p.carried.access == p.held)
    ensures Within(w, v, if p.kind.Api? then 1 else 0, if p.kind.LoginPost? then 1 else 0,
                   if p.kind.RefreshPost? then 1 else 0, wakes)
    ensures Sent(w, v) == [p]
  {
    assert Sent(w, v) == [p];
    assert [p][..0] == [];
    assert Count([p][..0], Api) == Count([p][..0], LoginPost) == Count([p][..0], RefreshPost) == 0;
  }

  lemma PostedBounds(w: World, kind: Kind, carried: Tokens)
    requires kind.Api? ==> carried.access == w.shared.token
    ensures Within(w, Posted(w, kind, carried), if kind.Api? then 1 else 0, if kind.LoginPost? then 1 else 0,
                   if kind.RefreshPost? then 1 else 0, 1)
    ensures w.script != [] ==> Sent(w, Posted(w, kind, carried))
                               == [Post(kind, carried, w.shared.token, w.clock, Some(w.script[0].reply))]
  {
    var v := Posted(w, kind, carried);
    OnePost(w, v, v.posts[|w.posts|], 1);
  }

  // Unless the answer is a token error nothing follows a post but the wait for the rate limit.
  lemma PostWithoutRefresh(w: World, kind: Kind, carried: Tokens)
    requires kind.Api? ==> carried.access == w.shared.token
    requires w.script != [] && w.script[0].reply.Reply? ==> Classify(w.script[0].reply) != BadToken
    ensures Within(w, Perform(w, kind, carried).0, if kind.Api? then 1 else 0, if kind.LoginPost? then 1 else 0,
                   if kind.RefreshPost? then 1 else 0, 2)
  {
    PostedBounds(w, kind, carried);
    var w1, v := Posted(w, kind, carried), Perform(w, kind, carried).0;
    Quiet(w1, v, 1);
    Chain(w, w1, v, if kind.Api? then 1 else 0, if kind.LoginPost? then 1 else 0,
          if kind.RefreshPost? then 1 else 0, 1, 0, 0, 0, 1);
  }

  // A login or refresh answer that is no token error ends its post.
  lemma AuthPost(w: World, kind: Kind, carried: Tokens)
    requires !kind.Api? && Tame(Sent(w, Perform(w, kind, carried).0))
    ensures Within(w, Perform(w, kind, carried).0, 0, if kind.LoginPost? then 1 else 0,
                   if kind.RefreshPost? then 1 else 0, 2)
  {
    if w.script != [] {
      PostedBounds(w, kind, carried);
      var w1, v := Posted(w, kind, carried), Perform(w, kind, carried).0;
      assert w1.posts <= v.posts;
      SentAppend(w, w1, v);
      var p := Post(kind, carried, w.shared.token, w.clock, Some(w.script[0].reply));
      assert Sent(w, w1)[0] == p;
    }
    PostWithoutRefresh(w, kind, carried);
  }

  lemma RefreshOnceBounds(w: World, carried: Tokens)
    requires Tame(Sent(w, RefreshOnce(w, carried).0))
    ensures Within(w, RefreshOnce(w, carried).0, 0, 0, 1, 5)
  {
    var v := RefreshOnce(w, carried).0;
    var w1 := Perform(w, RefreshPost, carried).0;
    assert v.posts == w1.posts;
    AuthPost(w, RefreshPost, carried);
    Quiet(w1, v, 3);
    Chain(w, w1, v, 0, 0, 1, 2, 0, 0, 0, 3);
  }

  lemma RefreshBounds(w: World, carried: Tokens)
    requires Tame(Sent(w, RefreshFrom(w, carried, 0).0))
    ensures Within(w, RefreshFrom(w, carried, 0).0, 0, 0, 2, 11)
  {
    var v := RefreshFrom(w, carried, 0).0;
    var (w1, o) := RefreshOnce(w, carried);
    if o.Ok? || o.Pending? || w1.script == [] {
      RefreshOnceBounds(w, carried);
    } else {
      var w2 := Resume(w1, 2000);
      assert v == RefreshFrom(w2, carried, 1).0;
      assert v == RefreshOnce(w2, carried).0;
      SentAppend(w, w1, v);
      assert Sent(w1, v) == Sent(w2, v);
      RefreshOnceBounds(w, carried);
      Quiet(w1, w2, 1);
      RefreshOnceBounds(w2, carried);
      Chain(w, w1, w2, 0, 0, 1, 5, 0, 0, 0, 1);
      Chain(w, w2, v, 0, 0, 1, 6, 0, 0, 1, 5);
    }
  }

  // The client after a post answered by a token error, on its way into the refresh.
  function BeforeRefresh(w: World, kind: Kind, carried: Tokens): World
    requires |w.script| >= 2 && w.script[0].reply.Reply?
  {
    ClearToken(Resume(Posted(w, kind, carried), w.script[0].reply.rateLimitSleep))
  }

  lemma TokenErrorRefreshes(w: World, kind: Kind, carried: Tokens)
    requires |w.script| >= 2 && w.script[0].reply.Reply? && Classify(w.script[0].reply) == BadToken
    ensures var (v, o) := RefreshFrom(BeforeRefresh(w, kind, carried), Held(BeforeRefresh(w, kind, carried)), 0);
            Perform(w, kind, carried)
            == (v, if o.Ok? then NotOk(if v.shared.token != "" then v.clock else 0) else o)
  {
    var reply := w.script[0].reply;
    var w1 := Resume(Posted(w, kind, carried), reply.rateLimitSleep);
    assert Perform(w, kind, carried) == HandleResponse(w1, reply);
    assert HandleResponse(w1, reply) == HandleTokenError(w1);
  }

  predicate AnswersBadly(w: World) {
    w.script != [] && w.script[0].reply.Reply? && Classify(w.script[0].reply) == BadToken
  }

  lemma PostedOnly(w: World, kind: Kind, carried: Tokens)
    requires !AnswersBadly(w)
    ensures Perform(w, kind, carried).0.posts == Posted(w, kind, carried).posts
  {
    var w1 := Posted(w, kind, carried);
    if w.script != [] && w.script[0].reply.Reply? && w1.script != [] {
      var reply := w.script[0].reply;
      var w2 := Resume(w1, reply.rateLimitSleep);
      assert Perform(w, kind, carried) == HandleResponse(w2, reply);
      assert HandleResponse(w2, reply).0.posts == w2.posts;
    }
  }

  lemma PostedAtLeast(w: World, kind: Kind, carried: Tokens)
    ensures Posted(w, kind, carried).posts <= Perform(w, kind, carried).0.posts
  {
    if AnswersBadly(w) {
      if |w.script| >= 2 {
        TokenErrorRefreshes(w, kind, carried);
      }
    } else {
      PostedOnly(w, kind, carried);
    }
  }

  lemma PostOk(w: World, kind: Kind, carried: Tokens)
    requires Perform(w, kind, carried).1.Ok?
    ensures |w.script| >= 2 && w.script[0].reply.Reply?
    ensures Perform(w, kind, carried)
            == (Resume(Posted(w, kind, carried), w.script[0].reply.rateLimitSleep), Ok(w.script[0].reply))
  {
    var reply := w.script[0].reply;
    var w2 := Resume(Posted(w, kind, carried), reply.rateLimitSleep);
    assert Perform(w, kind, carried) == HandleResponse(w2, reply);
    if Classify(reply) == BadToken {
      TokenErrorRefreshes(w, kind, carried);
    }
  }

  lemma ApiPostWithRefresh(w: World)
    requires |w.script| >= 2 && w.script[0].reply.Reply? && Classify(w.script[0].reply) == BadToken
    requires Tame(Sent(w, Perform(w, Api, OwnData(w)).0))
    ensures Within(w, Perform(w, Api, OwnData(w)).0, 1, 0, 2, 13)
  {
    var w1, w2 := Posted(w, Api, OwnData(w)), BeforeRefresh(w, Api, OwnData(w));
    var v := RefreshFrom(w2, Held(w2), 0).0;
    TokenErrorRefreshes(w, Api, OwnData(w));
    PostedBounds(w, Api, OwnData(w));
    Quiet(w1, w2, 1);
    SentAppend(w, w2, v);
    RefreshBounds(w2, Held(w2));
    Chain(w, w1, w2, 1, 0, 0, 1, 0, 0, 0, 1);
    Chain(w, w2, v, 1, 0, 0, 2, 0, 0, 2, 11);
  }

  lemma ApiPostCutShort(w: World)
    requires |w.script| == 1 && w.script[0].reply.Reply?
    ensures Within(w, Perform(w, Api, OwnData(w)).0, 1, 0, 2, 13)
  {
    assert Perform(w, Api, OwnData(w)).0 == Posted(w, Api, OwnData(w));
    PostedBounds(w, Api, OwnData(w));
  }

  lemma ApiPost(w: World)
    requires Tame(Sent(w, Perform(w, Api, OwnData(w)).0))
    ensures Within(w, Perform(w, Api, OwnData(w)).0, 1, 0, 2, 13)
  {
    if w.script == [] || w.script[0].reply.NetworkError? || Classify(w.script[0].reply) != BadToken {
      PostWithoutRefresh(w, Api, OwnData(w));
    } else if |w.script| == 1 {
      ApiPostCutShort(w);
    } else {
      ApiPostWithRefresh(w);
    }
  }

  lemma LoginBounds(w: World)
    requires Tame(Sent(w, Login(w).0))
    ensures Within(w, Login(w).0, 0, 1, 0, 5)
  {
    var v := Login(w).0;
    if w.hasApiKeys {
      var w1 := Perform(w, LoginPost, NONE).0;
      assert v.posts == w1.posts;
      AuthPost(w, LoginPost, NONE);
      Quiet(w1, v, 3);
      Chain(w, w1, v, 0, 1, 0, 2, 0, 0, 0, 3);
    } else {
      Quiet(w, v, 5);
    }
  }

  lemma {:induction false} WaitBounds(w: World, now: nat, sleeps: nat)
    requires Capped(w) && sleeps <= 150
    ensures Within(w, WaitFrom(w, now, sleeps).0, 0, 1, 0, 150 - sleeps)
    decreases |w.script|
  {
    var v := WaitFrom(w, now, sleeps).0;
    if sleeps * LoginDebounce.SLEEP >= w.shared.debounce {
      if v.posts == w.posts {
        Quiet(w, v, 0);
      } else {
        OnePost(w, v, v.posts[|w.posts|], 0);
      }
    } else if w.script == [] {
      Quiet(w, v, 0);
    } else {
      var w1 := Resume(w, LoginDebounce.SLEEP);
      Quiet(w, w1, 1);
      if w1.shared.token == "" {
        WaitBounds(w1, now, sleeps + 1);
        Chain(w, w1, v, 0, 0, 0, 1, 0, 1, 0, 149 - sleeps);
      }
    }
  }

  lemma MaybeLoginBounds(w: World)
    requires Capped(w) && Tame(Sent(w, MaybeLogin(w).0))
    ensures Within(w, MaybeLogin(w).0, 0, 1, 0, 151)
  {
    var v := MaybeLogin(w).0;
    if w.shared.token != "" || w.script == [] {
      Quiet(w, v, 151);
    } else {
      var w1 := AfterLoad(w);
      Quiet(w, w1, 1);
      if w1.shared.token != "" {
      } else if LoginDebounce.Cleared(w1.shared.last, w1.shared.debounce, w1.clock) {
        var d := LoginDebounce.ResetIfNeeded(w1.shared.last, w1.shared.debounce, w1.clock);
        var w2 := w1.(shared := w1.shared.(last := w1.clock, debounce := d));
        assert Sent(w2, v) == Sent(w, v);
        LoginBounds(w2);
        Chain(w, w2, v, 0, 0, 0, 1, 0, 1, 0, 5);
      } else {
        WaitBounds(w1, w1.clock, 0);
        Chain(w, w1, v, 0, 0, 0, 1, 0, 1, 0, 150);
      }
    }
  }

  lemma RoundBounds(w: World)
    requires Capped(w) && Tame(Sent(w, Round(w, Api).0))
    ensures Within(w, Round(w, Api).0, 1, 1, 2, 165)
  {
    var v := Round(w, Api).0;
    var (w1, o) := MaybeLogin(w);
    SentAppend(w, w1, v);
    MaybeLoginBounds(w);
    if o.Ok? && w1.script != [] {
      var w2 := Resume(w1, 0);
      assert Sent(w2, v) == Sent(w1, v);
      Quiet(w1, w2, 1);
      ApiPost(w2);
      Chain(w, w1, w2, 0, 1, 0, 151, 0, 0, 0, 1);
      Chain(w, w2, v, 0, 1, 0, 152, 1, 0, 2, 13);
    }
  }

  // --- What one request() can do -----------------------------------------------------------

  // An answer handed on as it is has code 1 or none.
  lemma OnlyAcceptedIsReturned(w: World, kind: Kind, carried: Tokens)
    ensures var o := Perform(w, kind, carried).1; o.Ok? ==> Accepted(o.reply)
  {
    var o := Perform(w, kind, carried).1;
    if |w.script| >= 2 && w.script[0].reply.Reply? {
      var reply := w.script[0].reply;
      var w1 := Resume(Posted(w, kind, carried), reply.rateLimitSleep);
      assert Perform(w, kind, carried) == HandleResponse(w1, reply);
      if Classify(reply) == BadToken {
        TokenErrorRefreshes(w, kind, carried);
      }
    }
  }

  // Why a post can ask for another: a rate limit, or a token error whose refresh left a token.
  predicate AsksAgain(p: Post, retryAfter: nat, v: World) {
    && p.kind.Api? && p.reply.Some? && p.reply.value.Reply?
    && match Classify(p.reply.value)
       case Limited => retryAfter == v.clock + 600000
       case BadToken => retryAfter == if v.shared.token != "" then v.clock else 0
       case _ => false
  }

  lemma PostAsksAgain(w: World, carried: Tokens)
    requires Perform(w, Api, carried).1.NotOk?
    ensures var (v, o) := Perform(w, Api, carried);
            |v.posts| > |w.posts| && AsksAgain(v.posts[|w.posts|], o.retryAfter, v)
  {
    var reply := w.script[0].reply;
    var p := Post(Api, carried, w.shared.token, w.clock, Some(reply));
    var w1 := Resume(Posted(w, Api, carried), reply.rateLimitSleep);
    assert w1.posts[|w.posts|] == p;
    assert Perform(w, Api, carried) == HandleResponse(w1, reply);
    if Classify(reply) == BadToken {
      TokenErrorRefreshes(w, Api, carried);
    }
  }

  lemma RoundOutcome(w: World)
    ensures var (v, o) := Round(w, Api);
            && (o.Ok? ==> Accepted(o.reply))
            && (o.NotOk? ==> exists i :: |w.posts| <= i < |v.posts| && AsksAgain(v.posts[i], o.retryAfter, v))
  {
    var (w1, o1) := MaybeLogin(w);
    if o1.Ok? && w1.script != [] {
      var w2 := Resume(w1, 0);
      OnlyAcceptedIsReturned(w2, Api, OwnData(w2));
      if Perform(w2, Api, OwnData(w2)).1.NotOk? {
        PostAsksAgain(w2, OwnData(w2));
      }
    }
  }

  lemma RetryBounds(w: World, retryAfter: nat)
    requires Capped(w) && Tame(Sent(w, Retry(w, retryAfter).0))
    ensures Within(w, Retry(w, retryAfter).0, 1, 1, 2, 166)
    ensures forall p :: p in Sent(w, Retry(w, retryAfter).0) ==> retryAfter <= p.at
    ensures var o := Retry(w, retryAfter).1; !o.NotOk? && (o.Ok? ==> Accepted(o.reply))
  {
    var v := Retry(w, retryAfter).0;
    if retryAfter > w.clock && w.script == [] {
      Quiet(w, v, 0);
      assert Sent(w, v) == [];
    } else {
      var w1 := if retryAfter > w.clock then Resume(w, retryAfter - w.clock) else w;
      Quiet(w, w1, 1);
      assert Sent(w1, v) == Sent(w, v);
      RoundBounds(w1);
      RoundOutcome(w1);
      Chain(w, w1, v, 0, 0, 0, 1, 1, 1, 2, 165);
    }
  }

  // However the awaits interleave with other callers: one request sends at most two posts of its own and
  // four refreshes, each of its own with the token held at that moment; it needs at most 332 wake-ups, so
  // with more it ends; and it returns only an answer whose code is 1 or missing.
  lemma RequestBounds(w: World)
    requires Capped(w) && Tame(Sent(w, Request(w).0))
    ensures Within(w, Request(w).0, 2, 2, 4, 332)
    ensures |w.script| > 332 ==> !Request(w).1.Pending?
    ensures var o := Request(w).1; !o.NotOk? && (o.Ok? ==> Accepted(o.reply))
  {
    var v := Request(w).0;
    var (w1, o) := Round(w, Api);
    assert w.posts <= w1.posts <= v.posts;
    SentAppend(w, w1, v);
    RoundBounds(w);
    RoundOutcome(w);
    if o.NotOk? && o.retryAfter != 0 && w1.script != [] {
      var w2 := Resume(w1, 0);
      assert Sent(w2, v) == Sent(w1, v);
      Quiet(w1, w2, 1);
      RetryBounds(w2, o.retryAfter);
      Chain(w, w1, w2, 1, 1, 2, 165, 0, 0, 0, 1);
      Chain(w, w2, v, 1, 1, 2, 166, 1, 1, 2, 166);
    }
  }

  // A second post of its own is sent only after a first one asked for it, and not before that time.
  lemma SecondPostIsEarned(w: World)
    requires Capped(w) && Tame(Sent(w, Request(w).0))
    requires Count(Sent(w, Request(w).0), Api) >= 2
    ensures var (w1, o) := Round(w, Api);
            && o.NotOk? && o.retryAfter > 0
            && (exists i :: |w.posts| <= i < |w1.posts| && AsksAgain(w1.posts[i], o.retryAfter, w1))
            && Count(Sent(w, w1), Api) == 1
            && w1.posts <= Request(w).0.posts
            && forall p :: p in Sent(w1, Request(w).0) ==> o.retryAfter <= p.at
  {
    var v := Request(w).0;
    var (w1, o) := Round(w, Api);
    assert w.posts <= w1.posts <= v.posts;
    SentAppend(w, w1, v);
    RoundBounds(w);
    RoundOutcome(w);
    assert o.NotOk? && o.retryAfter > 0 && w1.script != [];
    assert Sent(Resume(w1, 0), v) == Sent(w1, v);
    RetryBounds(Resume(w1, 0), o.retryAfter);
    CountAppend(Sent(w, w1), Sent(w1, v), Api);
  }
}
