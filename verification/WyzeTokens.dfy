/** When a request posts its own URL without a token: the login after a debounce wait is not awaited
    (src/index.js). */
module WyzeTokens {
  import opened JsText
  import LoginDebounce
  import opened WyzeRequest

  // A wake-up that puts a token in somebody's hands.
  predicate Brings(wake: Wake) {
    || wake.shared.token != ""
    || (wake.loaded.Some? && wake.loaded.value.access != "")
    || (wake.reply.Reply? && wake.reply.tokens.Some? && wake.reply.tokens.value.access != "")
  }

  // Nobody else takes a token away once there is one.
  ghost predicate TokensStay(w: World) {
    && (w.shared.token != "" ==> forall i | 0 <= i < |w.script| :: w.script[i].shared.token != "")
    && (forall i, j | 0 <= i < j < |w.script| :: Brings(w.script[i]) ==> w.script[j].shared.token != "")
  }

  // A single login was posted, and its answer is not awaited.
  predicate LeftLogin(w: World, v: World) {
    |v.posts| == |w.posts| + 1 && v.posts[|w.posts|].kind.LoginPost? && v.posts[|w.posts|].reply.None?
  }

  lemma ResumeKeepsTokens(w: World, ms: nat)
    requires TokensStay(w) && w.script != []
    ensures TokensStay(Resume(w, ms))
    ensures w.shared.token != "" ==> Resume(w, ms).shared.token != ""
    ensures Brings(w.script[0]) ==> forall i | 0 <= i < |Resume(w, ms).script| :: Resume(w, ms).script[i].shared.token != ""
  {
    var v := Resume(w, ms);
    forall i, j | 0 <= i < j < |v.script| && Brings(v.script[i])
      ensures v.script[j].shared.token != ""
    {
      assert Brings(w.script[i + 1]);
    }
  }

  lemma {:induction false} PersistKeepsToken(w: World, data: Tokens, attempt: nat)
    requires attempt < 2 && TokensStay(w) && w.shared.token != ""
    ensures var v := PersistFrom(w, data, attempt).0; TokensStay(v) && v.shared.token != ""
    decreases 2 - attempt
  {
    if w.script != [] {
      var w1 := Resume(w, 0);
      ResumeKeepsTokens(w, 0);
      if !w.script[0].fileOk && attempt + 1 < 2 && w1.script != [] {
        ResumeKeepsTokens(w1, 2000);
        PersistKeepsToken(Resume(w1, 2000), data, attempt + 1);
      }
    }
  }

  lemma TwoResumesKeepTokens(w: World, ms: nat)
    requires TokensStay(w) && |w.script| >= 2
    ensures var v := Resume(Posted(w, LoginPost, NONE), ms);
            && TokensStay(v)
            && (Brings(w.script[0]) ==> forall i | 0 <= i < |v.script| :: v.script[i].shared.token != "")
  {
    ResumeKeepsTokens(w, 0);
    ResumeKeepsTokens(Posted(w, LoginPost, NONE), ms);
  }

  lemma LoginPostOk(w: World)
    requires TokensStay(w) && Perform(w, LoginPost, NONE).1.Ok?
    ensures |w.script| >= 2 && Perform(w, LoginPost, NONE).1 == Ok(w.script[0].reply)
    ensures var v := Perform(w, LoginPost, NONE).0;
            && TokensStay(v)
            && v.posts == w.posts + [Post(LoginPost, NONE, w.shared.token, w.clock, Some(w.script[0].reply))]
            && (Brings(w.script[0]) ==> forall i | 0 <= i < |v.script| :: v.script[i].shared.token != "")
  {
    var reply := w.script[0].reply;
    PostOk(w, LoginPost, NONE);
    TwoResumesKeepTokens(w, reply.rateLimitSleep);
  }

  lemma LoginLeavesToken(w: World)
    requires TokensStay(w) && Login(w).1.Ok?
    ensures var v := Login(w).0; TokensStay(v) && v.shared.token != "" && !LeftLogin(w, v)
  {
    LoginPostOk(w);
    var (w1, o) := Perform(w, LoginPost, NONE);
    PersistKeepsToken(SetTokens(w1, o.reply.tokens.value), Held(SetTokens(w1, o.reply.tokens.value)), 0);
  }

  lemma {:induction false} WaitLeavesLogin(w: World, now: nat, sleeps: nat)
    requires TokensStay(w) && w.hasApiKeys && WaitFrom(w, now, sleeps).1.Ok?
    ensures var v := WaitFrom(w, now, sleeps).0; TokensStay(v) && (v.shared.token == "" <==> LeftLogin(w, v))
    decreases |w.script|
  {
    if sleeps * LoginDebounce.SLEEP < w.shared.debounce && w.script != [] {
      var w1 := Resume(w, LoginDebounce.SLEEP);
      ResumeKeepsTokens(w, LoginDebounce.SLEEP);
      if w1.shared.token == "" {
        WaitLeavesLogin(w1, now, sleeps + 1);
      }
    }
  }

  lemma MaybeLoginLeavesLogin(w: World)
    requires TokensStay(w) && w.hasApiKeys && MaybeLogin(w).1.Ok?
    ensures var v := MaybeLogin(w).0; TokensStay(v) && (v.shared.token == "" <==> LeftLogin(w, v))
  {
    if w.shared.token == "" {
      var w1 := AfterLoad(w);
      ResumeKeepsTokens(w, 0);
      if w1.shared.token != "" {
      } else if LoginDebounce.Cleared(w1.shared.last, w1.shared.debounce, w1.clock) {
        var d := LoginDebounce.ResetIfNeeded(w1.shared.last, w1.shared.debounce, w1.clock);
        LoginLeavesToken(w1.(shared := w1.shared.(last := w1.clock, debounce := d)));
      } else {
        WaitLeavesLogin(w1, w1.clock, 0);
      }
    }
  }

  // A token held, or one found in the token file, is used as it is: nothing is posted.
  lemma TokenFoundIsUsed(w: World)
    ensures w.shared.token != "" ==> MaybeLogin(w) == (w, Ok(NetworkError))
    ensures w.shared.token == "" && w.script != [] && w.script[0].loaded.Some? && w.script[0].loaded.value.access != "" ==>
              var v := MaybeLogin(w).0;
              MaybeLogin(w).1.Ok? && Held(v) == w.script[0].loaded.value && v.posts == w.posts
  {
  }

  // The guard of maybeLogin's wait: no token held, none loaded, and the debounce not cleared at that moment.
  predicate MustWait(w: World) {
    && w.shared.token == "" && w.script != []
    && var w1 := AfterLoad(w);
       w1.shared.token == "" && !LoginDebounce.Cleared(w1.shared.last, w1.shared.debounce, w1.clock)
  }

  // With neither and no need to wait, a login is posted at that very moment.
  lemma LoginIsPosted(w: World)
    requires w.hasApiKeys && w.shared.token == "" && w.script != [] && AfterLoad(w).shared.token == "" && !MustWait(w)
    ensures var v := MaybeLogin(w).0;
            |v.posts| > |w.posts| && v.posts[|w.posts|].kind.LoginPost? && v.posts[|w.posts|].at == AfterLoad(w).clock
  {
    var w1 := AfterLoad(w);
    var d := LoginDebounce.ResetIfNeeded(w1.shared.last, w1.shared.debounce, w1.clock);
    var w2 := w1.(shared := w1.shared.(last := w1.clock, debounce := d));
    PostedAtLeast(w2, LoginPost, NONE);
    assert Posted(w2, LoginPost, NONE).posts <= Login(w2).0.posts;
  }

  ghost predicate NoTokens(w: World) { forall i | 0 <= i < |w.script| :: w.script[i].shared.token == "" }

  lemma {:induction false} WaitsWithoutToken(w: World, now: nat, sleeps: nat)
    requires w.shared.token == "" && NoTokens(w)
    ensures var v := WaitFrom(w, now, sleeps).0; v.shared.token == "" && NoTokens(v)
    decreases |w.script|
  {
    if sleeps * LoginDebounce.SLEEP < w.shared.debounce && w.script != [] {
      WaitsWithoutToken(Resume(w, LoginDebounce.SLEEP), now, sleeps + 1);
    }
  }

  lemma OnlyWaitsEndWithoutToken(w: World)
    requires TokensStay(w) && MaybeLogin(w).1.Ok? && MaybeLogin(w).0.shared.token == ""
    ensures MustWait(w)
  {
    if w.shared.token == "" && !MustWait(w) {
      var w1 := AfterLoad(w);
      ResumeKeepsTokens(w, 0);
      if w1.shared.token == "" {
        var d := LoginDebounce.ResetIfNeeded(w1.shared.last, w1.shared.debounce, w1.clock);
        LoginLeavesToken(w1.(shared := w1.shared.(last := w1.clock, debounce := d)));
      }
    }
  }

  lemma OwnPost(w: World)
    requires MaybeLogin(w).1.Ok? && MaybeLogin(w).0.script != []
    ensures var w1, v := MaybeLogin(w).0, Round(w, Api).0;
            && |v.posts| > |w1.posts| && v.posts[|w1.posts|].kind.Api?
            && v.posts[|w1.posts|].carried.access == w1.script[0].shared.token
  {
    var w2 := Resume(MaybeLogin(w).0, 0);
    assert Posted(w2, Api, OwnData(w2)).posts <= Perform(w2, Api, OwnData(w2)).0.posts;
  }

  // While nobody takes a token away, and nobody else brings one to a caller that has to wait, a post of
  // its own carries no token exactly when the caller had to wait.
  lemma PostsWithoutTokenExactly(w: World)
    requires TokensStay(w) && (MustWait(w) ==> NoTokens(w))
    requires MaybeLogin(w).1.Ok? && MaybeLogin(w).0.script != []
    ensures var w1, v := MaybeLogin(w).0, Round(w, Api).0;
            && |v.posts| > |w1.posts| && v.posts[|w1.posts|].kind.Api?
            && (v.posts[|w1.posts|].carried.access == "" <==> MustWait(w))
  {
    var w1 := MaybeLogin(w).0;
    OwnPost(w);
    if MustWait(w) {
      WaitsWithoutToken(AfterLoad(w), AfterLoad(w).clock, 0);
    } else if w1.script[0].shared.token == "" {
      TokenHeldIsPosted(w);
    }
  }

  lemma TokenHeldIsPosted(w: World)
    requires TokensStay(w) && !MustWait(w) && MaybeLogin(w).1.Ok? && MaybeLogin(w).0.script != []
    ensures MaybeLogin(w).0.script[0].shared.token != ""
  {
    var w1 := MaybeLogin(w).0;
    KeepsTokensStay(w);
    ResumeKeepsTokens(w1, 0);
    if w1.shared.token == "" {
      OnlyWaitsEndWithoutToken(w);
    }
  }

  lemma KeepsTokensStay(w: World)
    requires TokensStay(w) && !MustWait(w) && MaybeLogin(w).1.Ok?
    ensures TokensStay(MaybeLogin(w).0)
  {
    if w.shared.token == "" {
      var w1 := AfterLoad(w);
      ResumeKeepsTokens(w, 0);
      if w1.shared.token == "" {
        var d := LoginDebounce.ResetIfNeeded(w1.shared.last, w1.shared.debounce, w1.clock);
        LoginLeavesToken(w1.(shared := w1.shared.(last := w1.clock, debounce := d)));
      }
    }
  }

  function Wakes(): seq<Wake> {
    var before, after := Shared("", "", 1000, 1000), Shared("", "", 1500, 2000);
    [Wake(0, before, NetworkError, true, None), Wake(0, before, NetworkError, true, None),
     Wake(0, after, NetworkError, true, None), Wake(0, after, NetworkError, true, None)]
  }

  // It happens with nobody else about: a second caller within the debounce posts without a token.
  lemma APostWithoutToken()
    ensures Request(World(Shared("", "", 1000, 1000), 1500, true, [], [], Wakes())).0.posts
            == [Post(LoginPost, NONE, "", 3500, None), Post(Api, NONE, "", 3500, Some(NetworkError))]
  {
    var w := World(Shared("", "", 1000, 1000), 1500, true, [], [], Wakes());
    var w1 := Resume(w, 0);
    var w2 := Resume(w1, 2000);
    assert WaitFrom(w2, 1500, 1) == (LoginWithoutWaiting(w2, 1500), Ok(NetworkError));
    assert WaitFrom(w1, 1500, 0) == WaitFrom(w2, 1500, 1);
    assert MaybeLogin(w) == (LoginWithoutWaiting(w2, 1500), Ok(NetworkError));
  }
}
