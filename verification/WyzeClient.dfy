/** The request, refresh and login methods of the WyzeAPI class, with their loops and fields. Each computes
    what WyzeRequest says of it. */
module WyzeClient {
  import opened JsText
  import LoginDebounce
  import W = WyzeRequest
  import WyzeAnswers
  import WyzeTokens

  class Client {
    var accessToken: string
    var refreshTokenValue: string
    var lastLoginAttempt: nat
    var loginAttemptDebounceMilliseconds: nat
    const hasApiKeys: bool
    // The environment.
    var clock: nat
    var script: seq<W.Wake>
    ghost var posts: seq<W.Post>
    ghost var written: seq<W.Tokens>

    ghost function View(): W.World
      reads this
    {
      W.World(W.Shared(accessToken, refreshTokenValue, lastLoginAttempt, loginAttemptDebounceMilliseconds),
              clock, hasApiKeys, posts, written, script)
    }

    constructor (hasApiKeys: bool, clock: nat, script: seq<W.Wake>)
      ensures View() == W.World(W.Shared("", "", 0, LoginDebounce.INITIAL), clock, hasApiKeys, [], [], script)
    {
      accessToken, refreshTokenValue, lastLoginAttempt := "", "", 0;
      loginAttemptDebounceMilliseconds := LoginDebounce.INITIAL;
      this.hasApiKeys, this.clock, this.script, posts, written := hasApiKeys, clock, script, [], [];
    }

    // An await that resumes after at least ms.
    method Await(ms: nat) returns (wake: W.Wake)
      requires script != []
      modifies this
      ensures View() == W.Resume(old(View()), ms) && wake == old(script)[0]
    {
      wake := script[0];
      script := script[1..];
      clock := clock + ms + wake.later;
      accessToken, refreshTokenValue := wake.shared.token, wake.shared.refresh;
      lastLoginAttempt, loginAttemptDebounceMilliseconds := wake.shared.last, wake.shared.debounce;
    }

    // An answer that is a rate limit by its code and text.
    static predicate Limits(r: W.Reply) {
      r.Reply? && !WyzeAnswers.Succeeds(r) && !WyzeAnswers.NamesCredentials(r) && WyzeAnswers.NamesLimit(r)
    }

    method PerformRequest(kind: W.Kind, carried: W.Tokens) returns (o: W.Outcome)
      modifies this
      ensures (View(), o) == W.Perform(old(View()), kind, carried)
      ensures o.Ok? ==> W.Accepted(o.reply)
      ensures old(|script| >= 2 && Limits(script[0].reply)) ==> o == W.NotOk(clock + 600000)
      decreases |script|, 0
    {
      ghost var before := View();
      if |script| >= 2 && Limits(script[0].reply) {
        WyzeAnswers.RateLimitAsksAgain(before, kind, carried);
      }
      W.OnlyAcceptedIsReturned(before, kind, carried);
      if script == [] {
        posts := posts + [W.Post(kind, carried, accessToken, clock, None)];
        return W.Pending;
      }
      posts := posts + [W.Post(kind, carried, accessToken, clock, Some(script[0].reply))];
      var wake := Await(0);
      assert View() == W.Posted(before, kind, carried);
      if wake.reply.NetworkError? {
        return W.Threw;
      }
      if script == [] {
        return W.Pending;
      }
      var _ := Await(wake.reply.rateLimitSleep);
      o := HandleApiResponse(wake.reply);
    }

    method HandleApiResponse(reply: W.Reply) returns (o: W.Outcome)
      requires reply.Reply?
      modifies this
      ensures (View(), o) == W.HandleResponse(old(View()), reply)
      decreases |script|, 4
    {
      match W.Classify(reply) {
        case Accept => o := W.Ok(reply);
        case BadCredentials =>
          accessToken := "";
          o := W.Threw;
        case Limited => o := W.NotOk(clock + 600000);
        case BadToken => o := HandleAccessTokenError();
        case OtherError => o := W.Threw;
      }
    }

    method HandleAccessTokenError() returns (o: W.Outcome)
      modifies this
      ensures (View(), o) == W.HandleTokenError(old(View()))
      decreases |script|, 3
    {
      accessToken := "";
      o := RefreshToken();
      if o.Ok? {
        o := W.NotOk(if accessToken != "" then clock else 0);
      }
    }

    method RefreshToken() returns (o: W.Outcome)
      modifies this
      ensures (View(), o) == W.RefreshFrom(old(View()), old(W.Held(View())), 0)
      ensures W.Tame(W.Sent(old(View()), View())) ==> W.Within(old(View()), View(), 0, 0, 2, 11)
      decreases |script|, 2
    {
      if W.Tame(W.Sent(View(), W.RefreshFrom(View(), W.Held(View()), 0).0)) {
        W.RefreshBounds(View(), W.Held(View()));
      }
      var carried := W.Tokens(accessToken, refreshTokenValue);
      var attempt := 0;
      while true
        invariant attempt < 2 && |script| <= |old(script)|
        invariant W.RefreshFrom(old(View()), carried, 0) == W.RefreshFrom(View(), carried, attempt)
        decreases 2 - attempt
      {
        o := RefreshOnce(carried);
        if o.Ok? || o.Pending? {
          return;
        }
        attempt := attempt + 1;
        if attempt >= 2 {
          return W.Threw;
        }
        if script == [] {
          return W.Pending;
        }
        var _ := Await(2000);
      }
    }

    // The try block of that loop.
    method RefreshOnce(carried: W.Tokens) returns (o: W.Outcome)
      modifies this
      ensures (View(), o) == W.RefreshOnce(old(View()), carried)
      decreases |script|, 1
    {
      o := PerformRequest(W.RefreshPost, carried);
      if o.Pending? {
        return;
      }
      if !o.Ok? || !o.reply.Reply? || o.reply.tokens.None? {
        return W.Threw;
      }
      var stored := UpdateTokens(o.reply.tokens.value);
      o := if stored.Ok? then o else stored;
    }

    method UpdateTokens(t: W.Tokens) returns (o: W.Outcome)
      modifies this
      ensures (View(), o) == W.PersistFrom(W.SetTokens(old(View()), t), t, 0)
    {
      accessToken, refreshTokenValue := t.access, t.refresh;
      o := PersistTokens();
    }

    method PersistTokens() returns (o: W.Outcome)
      modifies this
      ensures (View(), o) == W.PersistFrom(old(View()), old(W.Held(View())), 0)
    {
      var data := W.Tokens(accessToken, refreshTokenValue);
      var attempt := 0;
      while true
        invariant attempt < 2
        invariant W.PersistFrom(old(View()), data, 0) == W.PersistFrom(View(), data, attempt)
        decreases 2 - attempt
      {
        if script == [] {
          return W.Pending;
        }
        var write := Await(0);
        if write.fileOk {
          written := written + [data];
          return W.Ok(W.NetworkError);
        }
        attempt := attempt + 1;
        if attempt >= 2 {
          return W.Threw;
        }
        if script == [] {
          return W.Pending;
        }
        var _ := Await(2000);
      }
    }

    method Login() returns (o: W.Outcome)
      modifies this
      ensures (View(), o) == W.Login(old(View()))
    {
      if !hasApiKeys {
        return W.Threw;
      }
      o := PerformRequest(W.LoginPost, W.NONE);
      if o.Pending? {
        return;
      }
      if !o.Ok? || !o.reply.Reply? || o.reply.tokens.None? || o.reply.tokens.value.access == "" {
        return W.Threw;
      }
      var stored := UpdateTokens(o.reply.tokens.value);
      o := if stored.Ok? then o else stored;
    }

    // At most one login, whatever others do to the bound of the wait; and on return either a token or a
    // login that is not awaited, unless a token was taken away meanwhile.
    method MaybeLogin() returns (o: W.Outcome)
      modifies this
      ensures (View(), o) == W.MaybeLogin(old(View()))
      ensures old(W.Capped(View())) && W.Tame(W.Sent(old(View()), View())) ==> W.Within(old(View()), View(), 0, 1, 0, 151)
      ensures old(WyzeTokens.TokensStay(View())) && hasApiKeys && o.Ok? ==> (accessToken == "" <==> WyzeTokens.LeftLogin(old(View()), View()))
    {
      MaybeLoginFacts(View());
      if accessToken == "" {
        if script == [] {
          return W.Pending;
        }
        var file := Await(0);
        if file.loaded.Some? {
          accessToken, refreshTokenValue := file.loaded.value.access, file.loaded.value.refresh;
        }
      }
      if accessToken != "" {
        return W.Ok(W.NetworkError);
      }
      var now := clock;
      if LoginDebounce.Cleared(lastLoginAttempt, loginAttemptDebounceMilliseconds, now) {
        loginAttemptDebounceMilliseconds :=
          LoginDebounce.ResetIfNeeded(lastLoginAttempt, loginAttemptDebounceMilliseconds, now);
        lastLoginAttempt := now;
        o := Login();
      } else {
        o := WaitForDebounceClearance(now);
      }
    }

    lemma MaybeLoginFacts(w: W.World)
      ensures W.Capped(w) && W.Tame(W.Sent(w, W.MaybeLogin(w).0)) ==> W.Within(w, W.MaybeLogin(w).0, 0, 1, 0, 151)
      ensures WyzeTokens.TokensStay(w) && w.hasApiKeys && W.MaybeLogin(w).1.Ok? ==>
                (W.MaybeLogin(w).0.shared.token == "" <==> WyzeTokens.LeftLogin(w, W.MaybeLogin(w).0))
    {
      if W.Capped(w) && W.Tame(W.Sent(w, W.MaybeLogin(w).0)) {
        W.MaybeLoginBounds(w);
      }
      if WyzeTokens.TokensStay(w) && w.hasApiKeys && W.MaybeLogin(w).1.Ok? {
        WyzeTokens.MaybeLoginLeavesLogin(w);
      }
    }

    // The wait loop and the login after it, which is started but not awaited. The bound of the loop is
    // read anew at every turn, and other callers may have moved it; still it sleeps at most 150 times.
    method WaitForDebounceClearance(now: nat) returns (o: W.Outcome)
      modifies this
      ensures (View(), o) == W.WaitFrom(old(View()), now, 0)
      ensures old(W.Capped(View())) ==> |old(script)| - |script| <= 150
    {
      var sleeps := 0;
      while sleeps * LoginDebounce.SLEEP < loginAttemptDebounceMilliseconds
        invariant W.WaitFrom(old(View()), now, 0) == W.WaitFrom(View(), now, sleeps)
        invariant |script| + sleeps == |old(script)|
        invariant old(W.Capped(View())) ==> W.Capped(View()) && sleeps <= 150
        decreases |script|
      {
        if script == [] {
          return W.Pending;
        }
        var _ := Await(LoginDebounce.SLEEP);
        sleeps := sleeps + 1;
        if accessToken != "" {
          return W.Ok(W.NetworkError);
        }
      }
      if accessToken == "" {
        UpdateDebounceAndLogin(now);
      }
      o := W.Ok(W.NetworkError);
    }

    method UpdateDebounceAndLogin(now: nat)
      modifies this
      ensures View() == W.LoginWithoutWaiting(old(View()), now)
      ensures lastLoginAttempt == now
      ensures loginAttemptDebounceMilliseconds
              == if 2 * old(loginAttemptDebounceMilliseconds) < 300000 then 2 * old(loginAttemptDebounceMilliseconds) else 300000
      ensures |posts| == |old(posts)| + if hasApiKeys then 1 else 0
    {
      lastLoginAttempt := now;
      loginAttemptDebounceMilliseconds := LoginDebounce.Min(loginAttemptDebounceMilliseconds * 2, LoginDebounce.CAP);
      if hasApiKeys {
        posts := posts + [W.Post(W.LoginPost, W.NONE, accessToken, clock, None)];
      }
    }

    // maybeLogin and the post that follows it.
    method LoginAndPost() returns (o: W.Outcome)
      modifies this
      ensures (View(), o) == W.Round(old(View()), W.Api)
    {
      o := MaybeLogin();
      if o.Ok? {
        if script == [] {
          return W.Pending;
        }
        var _ := Await(0);
        o := PerformRequest(W.Api, W.Tokens(accessToken, ""));
      }
    }

    method HandleRetry(retryAfter: nat) returns (o: W.Outcome)
      modifies this
      ensures (View(), o) == W.Retry(old(View()), retryAfter)
      ensures old(W.Capped(View())) && W.Tame(W.Sent(old(View()), View())) ==>
                && W.Within(old(View()), View(), 1, 1, 2, 166)
                && (forall p :: p in W.Sent(old(View()), View()) ==> retryAfter <= p.at)
                && !o.NotOk? && (o.Ok? ==> W.Accepted(o.reply))
    {
      if W.Capped(View()) && W.Tame(W.Sent(View(), W.Retry(View(), retryAfter).0)) {
        W.RetryBounds(View(), retryAfter);
      }
      if retryAfter > clock {
        if script == [] {
          return W.Pending;
        }
        var _ := Await(retryAfter - clock);
      }
      o := LoginAndPost();
      if o.NotOk? {
        o := W.Threw;
      }
    }

    // request(): what it may send, and when it returns, are those of WyzeRequest.
    method Request() returns (o: W.Outcome)
      modifies this
      ensures (View(), o) == W.Request(old(View()))
      ensures old(W.Capped(View())) && W.Tame(W.Sent(old(View()), View())) ==>
                && W.Count(W.Sent(old(View()), View()), W.Api) <= 2
                && W.Count(W.Sent(old(View()), View()), W.RefreshPost) <= 4
                && (o.Pending? ==> |old(script)| <= 332)
                && (o.Ok? ==> W.Accepted(o.reply))
                && !o.NotOk?
    {
      ghost var before := View();
      o := LoginAndPost();
      if o.NotOk? {
        if o.retryAfter == 0 {
          o := W.Threw;
        } else if script == [] {
          o := W.Pending;
        } else {
          var _ := Await(0);
          o := HandleRetry(o.retryAfter);
        }
      }
      if W.Capped(before) && W.Tame(W.Sent(before, View())) {
        W.RequestBounds(before);
      }
    }
  }
}
