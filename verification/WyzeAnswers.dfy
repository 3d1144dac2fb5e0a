/** What an answer of the Wyze cloud leads to, told from its code and text alone, and when a request is
    posted again (src/index.js). */
module WyzeAnswers {
  import opened JsText
  import LoginDebounce
  import opened WyzeRequest

  // --- What an answer leads to ------------------------------------------------------------------

  // The answer's own text.
  function Said(r: Reply): string
    requires r.Reply?
  {
    if r.msg != "" then r.msg else r.description
  }

  predicate Says(r: Reply, part: string)
    requires r.Reply?
  {
    Includes(ToLower(Said(r)), part)
  }

  predicate Succeeds(r: Reply)
    requires r.Reply?
  {
    match r.code
    case NoCode => true
    case NumberCode(n) => n == 1
    case StringCode(parsed) => parsed == Some(1)
  }

  predicate NamesCredentials(r: Reply)
    requires r.Reply?
  {
    Says(r, "usernameorpassworderror") || Says(r, "userislocked") || Says(r, "invalid user name or password")
  }

  predicate NamesLimit(r: Reply)
    requires r.Reply?
  {
    r.code == NumberCode(3044) || (r.code == NumberCode(1000) && Says(r, "too many failed attempts"))
  }

  predicate NamesToken(r: Reply)
    requires r.Reply?
  {
    r.code == NumberCode(2001) || Says(r, "accesstokenerror") || Says(r, "access token is error")
  }

  lemma {:induction false} IncludesItsUnits(t: string, part: string)
    requires Includes(t, part)
    ensures forall c :: c in part ==> c in t
  {
    if HasPrefix(t, part) {
      assert forall c :: c in part ==> c in t[..|part|];
    } else {
      IncludesItsUnits(t[1..], part);
    }
  }

  lemma {:induction false} ToLowerUnits(t: string)
    ensures |ToLower(t)| == |t|
    ensures forall i | 0 <= i < |t| :: ToLower(t)[i] == if 'A' <= t[i] <= 'Z' then t[i] + 32 as char else t[i]
  {
    if t != "" {
      ToLowerUnits(t[1..]);
    }
  }

  lemma WithoutS(t: string, part: string)
    requires 's' in part && forall i | 0 <= i < |t| :: t[i] != 's' && t[i] != 'S'
    ensures !Includes(ToLower(t), part)
  {
    ToLowerUnits(t);
    assert 's' !in ToLower(t);
    if Includes(ToLower(t), part) {
      IncludesItsUnits(ToLower(t), part);
    }
  }

  // The text put in for an answer without one holds no "s", so none of the phrases.
  lemma DefaultSaysNothing(r: Reply, part: string)
    requires r.Reply? && r.msg == "" && r.description == "" && 's' in part
    ensures !Mentions(r, part) && !Says(r, part)
  {
    WithoutS(Message(r), part);
    WithoutS("", part);
  }

  lemma MentionsWhatItSays(r: Reply, part: string)
    requires r.Reply? && 's' in part
    ensures Mentions(r, part) <==> Says(r, part)
  {
    if r.msg == "" && r.description == "" {
      DefaultSaysNothing(r, part);
    }
  }

  // What becomes of an answer, from its code and text alone.
  lemma ClassifiedExactly(r: Reply)
    requires r.Reply?
    ensures Classify(r) == if Succeeds(r) then Accept
                           else if NamesCredentials(r) then BadCredentials
                           else if NamesLimit(r) then Limited
                           else if NamesToken(r) then BadToken
                           else OtherError
  {
    assert "usernameorpassworderror"[1] == 's' && "userislocked"[1] == 's' && "invalid user name or password"[9] == 's';
    assert "too many failed attempts"[23] == 's' && "accesstokenerror"[4] == 's' && "access token is error"[4] == 's';
    MentionsWhatItSays(r, "usernameorpassworderror");
    MentionsWhatItSays(r, "userislocked");
    MentionsWhatItSays(r, "invalid user name or password");
    MentionsWhatItSays(r, "too many failed attempts");
    MentionsWhatItSays(r, "accesstokenerror");
    MentionsWhatItSays(r, "access token is error");
  }

  // The client when it handles the answer to a post: the post is on record, a rate-limit wait over.
  function Answered(w: World, kind: Kind, carried: Tokens): World
    requires |w.script| >= 2 && w.script[0].reply.Reply?
  {
    Resume(Posted(w, kind, carried), w.script[0].reply.rateLimitSleep)
  }

  // A post answered by a rate limit asks for a retry ten minutes later.
  lemma RateLimitAsksAgain(w: World, kind: Kind, carried: Tokens)
    requires |w.script| >= 2 && w.script[0].reply.Reply?
    requires var r := w.script[0].reply; !Succeeds(r) && !NamesCredentials(r) && NamesLimit(r)
    ensures var v := Answered(w, kind, carried);
            Perform(w, kind, carried) == (v, NotOk(v.clock + 600000))
  {
    ClassifiedExactly(w.script[0].reply);
    var v := Answered(w, kind, carried);
    assert Perform(w, kind, carried) == HandleResponse(v, w.script[0].reply);
  }

  // One answered by a token error asks for a retry at once if its refresh leaves a token.
  lemma TokenErrorAsksAgain(w: World, kind: Kind, carried: Tokens)
    requires |w.script| >= 2 && w.script[0].reply.Reply?
    requires var r := w.script[0].reply;
             !Succeeds(r) && !NamesCredentials(r) && !NamesLimit(r) && NamesToken(r)
    requires var w2 := BeforeRefresh(w, kind, carried);
             RefreshFrom(w2, Held(w2), 0).1.Ok? && RefreshFrom(w2, Held(w2), 0).0.shared.token != ""
    ensures var w2 := BeforeRefresh(w, kind, carried);
            var v := RefreshFrom(w2, Held(w2), 0).0;
            Perform(w, kind, carried) == (v, NotOk(v.clock))
  {
    ClassifiedExactly(w.script[0].reply);
    TokenErrorRefreshes(w, kind, carried);
  }

  // Bad credentials take the token away and end the request.
  lemma CredentialsEndIt(w: World, kind: Kind, carried: Tokens)
    requires |w.script| >= 2 && w.script[0].reply.Reply?
    requires !Succeeds(w.script[0].reply) && NamesCredentials(w.script[0].reply)
    ensures Perform(w, kind, carried).1 == Threw && Perform(w, kind, carried).0.shared.token == ""
    ensures Perform(w, kind, carried).0.posts == Answered(w, kind, carried).posts
  {
    ClassifiedExactly(w.script[0].reply);
    var v := Answered(w, kind, carried);
    assert Perform(w, kind, carried) == HandleResponse(v, w.script[0].reply);
  }

  // The refresh sends the refresh token that was held when the token error was handled.
  lemma RefreshCarriesHeld(w: World, kind: Kind, carried: Tokens)
    requires |w.script| >= 2 && w.script[0].reply.Reply? && Classify(w.script[0].reply) == BadToken
    ensures var v := Perform(w, kind, carried).0;
            |v.posts| > |w.posts| + 1 && v.posts[|w.posts| + 1].kind.RefreshPost?
            && v.posts[|w.posts| + 1].carried == Tokens("", w.script[1].shared.refresh)
  {
    var w2 := BeforeRefresh(w, kind, carried);
    TokenErrorRefreshes(w, kind, carried);
    PostedAtLeast(w2, RefreshPost, Held(w2));
    assert Posted(w2, RefreshPost, Held(w2)).posts <= RefreshOnce(w2, Held(w2)).0.posts <= Perform(w, kind, carried).0.posts;
  }

  // A refresh that failed is tried again with the same data, two seconds later at the earliest.
  lemma RefreshIsTriedAgain(w: World, carried: Tokens)
    requires var (w1, o) := RefreshOnce(w, carried); !o.Ok? && !o.Pending? && w1.script != []
    ensures var w1 := RefreshOnce(w, carried).0;
            var v := RefreshFrom(w, carried, 0).0;
            |v.posts| > |w1.posts| && v.posts[|w1.posts|].kind.RefreshPost?
            && v.posts[|w1.posts|].carried == carried && v.posts[|w1.posts|].at >= w1.clock + 2000
  {
    var w2 := Resume(RefreshOnce(w, carried).0, 2000);
    PostedAtLeast(w2, RefreshPost, carried);
    assert Posted(w2, RefreshPost, carried).posts <= RefreshOnce(w2, carried).0.posts;
    assert RefreshFrom(w, carried, 0) == RefreshFrom(w2, carried, 1);
    assert RefreshFrom(w2, carried, 1).0 == RefreshOnce(w2, carried).0;
  }

  lemma {:induction false} PersistWrites(w: World, data: Tokens, attempt: nat)
    requires attempt < 2 && PersistFrom(w, data, attempt).1.Ok?
    ensures PersistFrom(w, data, attempt).0.written == w.written + [data]
    decreases 2 - attempt
  {
    if !w.script[0].fileOk {
      PersistWrites(Resume(Resume(w, 0), 2000), data, attempt + 1);
    }
  }

  // A login or refresh that succeeds has written both tokens of its answer, each in its place.
  lemma LoginWrites(w: World)
    requires Login(w).1.Ok?
    ensures var (v, o) := Login(w); o.reply.Reply? && o.reply.tokens.Some? && v.written == w.written + [o.reply.tokens.value]
  {
    var (w1, o) := Perform(w, LoginPost, NONE);
    PostOk(w, LoginPost, NONE);
    PersistWrites(SetTokens(w1, o.reply.tokens.value), Held(SetTokens(w1, o.reply.tokens.value)), 0);
  }

  lemma RefreshWrites(w: World, carried: Tokens)
    requires RefreshOnce(w, carried).1.Ok?
    ensures var (v, o) := RefreshOnce(w, carried);
            o.reply.Reply? && o.reply.tokens.Some? && v.written == w.written + [o.reply.tokens.value]
  {
    var (w1, o) := Perform(w, RefreshPost, carried);
    PostOk(w, RefreshPost, carried);
    PersistWrites(SetTokens(w1, o.reply.tokens.value), Held(SetTokens(w1, o.reply.tokens.value)), 0);
  }

  // --- When the retry is sent -------------------------------------------------------------------

  // The client when its retry's wait is over.
  function AfterRetryWait(w: World, retryAfter: nat): World
    requires retryAfter > w.clock ==> w.script != []
  {
    if retryAfter > w.clock then Resume(w, retryAfter - w.clock) else w
  }

  // A round that asked for a retry is followed by one: given the wake-ups and a login that succeeds, a
  // second post of its own goes out, not before the time asked for, and decides the outcome.
  lemma RetryIsSent(w: World)
    requires var (w1, o) := Round(w, Api);
             && o.NotOk? && o.retryAfter > 0 && w1.script != []
             && (o.retryAfter > Resume(w1, 0).clock ==> Resume(w1, 0).script != [])
             && var w3 := AfterRetryWait(Resume(w1, 0), o.retryAfter);
                MaybeLogin(w3).1.Ok? && MaybeLogin(w3).0.script != []
    ensures var (w1, o) := Round(w, Api);
            var w4 := MaybeLogin(AfterRetryWait(Resume(w1, 0), o.retryAfter)).0;
            var w5 := Resume(w4, 0);
            var v := Request(w).0;
            && |w1.posts| <= |w4.posts| < |v.posts|
            && v.posts[|w4.posts|].kind.Api? && v.posts[|w4.posts|].at >= o.retryAfter
            && v.posts[|w4.posts|].carried == OwnData(w5)
            && (Request(w).1.Ok? <==> Perform(w5, Api, OwnData(w5)).1.Ok?)
  {
    var (w1, o) := Round(w, Api);
    var w2 := Resume(w1, 0);
    var w3 := AfterRetryWait(w2, o.retryAfter);
    var w5 := Resume(MaybeLogin(w3).0, 0);
    ClockRuns(w3);
    PostedAtLeast(w5, Api, OwnData(w5));
    assert Request(w).0 == Perform(w5, Api, OwnData(w5)).0;
  }

  lemma {:induction false} WaitClockRuns(w: World, now: nat, sleeps: nat)
    ensures w.clock <= WaitFrom(w, now, sleeps).0.clock
    decreases |w.script|
  {
    if sleeps * LoginDebounce.SLEEP < w.shared.debounce && w.script != [] {
      WaitClockRuns(Resume(w, LoginDebounce.SLEEP), now, sleeps + 1);
    }
  }

  lemma ClockRuns(w: World)
    requires MaybeLogin(w).1.Ok?
    ensures w.clock <= MaybeLogin(w).0.clock
  {
    if w.shared.token == "" {
      var w1 := AfterLoad(w);
      if w1.shared.token == "" {
        if LoginDebounce.Cleared(w1.shared.last, w1.shared.debounce, w1.clock) {
          var d := LoginDebounce.ResetIfNeeded(w1.shared.last, w1.shared.debounce, w1.clock);
          PostOk(w1.(shared := w1.shared.(last := w1.clock, debounce := d)), LoginPost, NONE);
        } else {
          WaitClockRuns(w1, w1.clock, 0);
        }
      }
    }
  }

  ghost predicate TokenThroughout(w: World) {
    w.shared.token != "" && forall i | 0 <= i < |w.script| :: w.script[i].shared.token != ""
  }

  lemma LimitedRound(w: World)
    requires TokenThroughout(w) && |w.script| >= 3 && w.script[1].reply.Reply?
    requires var r := w.script[1].reply; !Succeeds(r) && !NamesCredentials(r) && NamesLimit(r)
    ensures var w1 := Resume(w, 0);
            var v := Answered(w1, Api, OwnData(w1));
            && Round(w, Api) == (v, NotOk(v.clock + 600000)) && TokenThroughout(v) && v.script == w.script[3..]
            && |v.posts| == |w.posts| + 1 && v.posts[|w.posts|].kind.Api?
  {
    var w1 := Resume(w, 0);
    RateLimitAsksAgain(w1, Api, OwnData(w1));
    assert MaybeLogin(w) == (w, Ok(NetworkError));
    assert Round(w, Api) == Perform(w1, Api, OwnData(w1));
  }

  lemma TokenSurvivesWait(w: World, retryAfter: nat)
    requires TokenThroughout(w) && |w.script| >= 2
    ensures var v := AfterRetryWait(w, retryAfter); v.script != [] && MaybeLogin(v) == (v, Ok(NetworkError)) && v.posts == w.posts
  {
  }

  // So a request whose first post is rate limited posts again, ten minutes after the answer or later, when
  // a token is there all the while.
  lemma RateLimitedRequestIsRetried(w: World)
    requires TokenThroughout(w) && |w.script| >= 6 && w.script[1].reply.Reply?
    requires var r := w.script[1].reply; !Succeeds(r) && !NamesCredentials(r) && NamesLimit(r)
    ensures var v := Request(w).0;
            var w1 := Resume(w, 0);
            && |v.posts| >= |w.posts| + 2
            && v.posts[|w.posts|].kind.Api? && v.posts[|w.posts| + 1].kind.Api?
            && v.posts[|w.posts| + 1].at >= Answered(w1, Api, OwnData(w1)).clock + 600000
  {
    LimitedRound(w);
    var (v, o) := Round(w, Api);
    var w2 := Resume(v, 0);
    assert TokenThroughout(w2);
    TokenSurvivesWait(w2, o.retryAfter);
    RetryIsSent(w);
    assert v.posts <= Request(w).0.posts;
  }
}
