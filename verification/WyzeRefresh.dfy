/** How many posts a token refresh sends, exactly: one whose own answers are token errors nests another
    inside (src/index.js). */
module WyzeRefresh {
  import opened JsText
  import opened WyzeRequest

  lemma CountOne(p: Post, kind: Kind)
    ensures Count([p], kind) == if p.kind == kind then 1 else 0
  {
    assert [p][..0] == [];
  }

  lemma TameAppend(a: seq<Post>, b: seq<Post>)
    ensures Tame(a + b) <==> Tame(a) && Tame(b)
  {
    assert forall p :: p in a + b <==> p in a || p in b;
  }

  // The post a turn of any kind begins with, and what follows it.
  lemma PostFirst(w: World, kind: Kind, carried: Tokens, v: World)
    requires Posted(w, kind, carried).posts <= v.posts
    ensures var w1 := Posted(w, kind, carried);
            var p := w1.posts[|w.posts|];
            && Sent(w, v) == [p] + Sent(w1, v) && p.kind == kind
            && p.reply == (if w.script == [] then None else Some(w.script[0].reply))
            && Count(Sent(w, v), RefreshPost) == (if kind.RefreshPost? then 1 else 0) + Count(Sent(w1, v), RefreshPost)
            && (Tame(Sent(w, v)) <==> Tame([p]) && Tame(Sent(w1, v)))
  {
    var w1 := Posted(w, kind, carried);
    var p := w1.posts[|w.posts|];
    assert Sent(w, w1) == [p];
    SentAppend(w, w1, v);
    CountAppend([p], Sent(w1, v), RefreshPost);
    CountOne(p, RefreshPost);
    TameAppend([p], Sent(w1, v));
  }

  lemma TurnPosts(w: World, carried: Tokens)
    ensures Count(Sent(w, RefreshOnce(w, carried).0), RefreshPost) >= 1
  {
    var v := RefreshOnce(w, carried).0;
    assert v.posts == Perform(w, RefreshPost, carried).0.posts;
    PostedAtLeast(w, RefreshPost, carried);
    PostFirst(w, RefreshPost, carried, v);
  }

  // A post answered by a token error is followed by the posts of a refresh.
  lemma BadPostIsFollowed(w: World, kind: Kind, carried: Tokens)
    requires AnswersBadly(w) && !Perform(w, kind, carried).1.Pending?
    ensures !Perform(w, kind, carried).1.Ok?
    ensures var v := Perform(w, kind, carried).0;
            && Count(Sent(w, v), RefreshPost) >= (if kind.RefreshPost? then 2 else 1)
            && (kind.Api? || !Tame(Sent(w, v)))
  {
    var v := Perform(w, kind, carried).0;
    var w1, w2 := Posted(w, kind, carried), BeforeRefresh(w, kind, carried);
    var inner := RefreshOnce(w2, Held(w2)).0;
    TokenErrorRefreshes(w, kind, carried);
    PostFirst(w, kind, carried, v);
    TurnPosts(w2, Held(w2));
    SentAppend(w2, inner, v);
    CountAppend(Sent(w2, inner), Sent(inner, v), RefreshPost);
    assert Sent(w2, v) == Sent(w1, v);
    var p := w1.posts[|w.posts|];
    assert p in [p] && p.reply.Some? && Classify(p.reply.value) == BadToken;
  }

  // A turn answered by a token error fails, having sent a second post from inside.
  lemma BadTurnPosts(w: World, carried: Tokens)
    requires AnswersBadly(w) && !RefreshOnce(w, carried).1.Pending?
    ensures Count(Sent(w, RefreshOnce(w, carried).0), RefreshPost) >= 2 && !RefreshOnce(w, carried).1.Ok?
    ensures !Tame(Sent(w, RefreshOnce(w, carried).0))
  {
    BadPostIsFollowed(w, RefreshPost, carried);
    assert RefreshOnce(w, carried).0.posts == Perform(w, RefreshPost, carried).0.posts;
  }

  lemma PlainPostIsTame(w: World, kind: Kind, carried: Tokens)
    requires !AnswersBadly(w)
    ensures Tame(Sent(w, Perform(w, kind, carried).0))
    ensures kind.RefreshPost? || Count(Sent(w, Perform(w, kind, carried).0), RefreshPost) == 0
  {
    var v := Perform(w, kind, carried).0;
    PostedOnly(w, kind, carried);
    PostFirst(w, kind, carried, v);
    assert Sent(Posted(w, kind, carried), v) == [];
  }

  lemma PlainTurnPosts(w: World, carried: Tokens)
    requires !AnswersBadly(w)
    ensures Tame(Sent(w, RefreshOnce(w, carried).0))
  {
    PlainPostIsTame(w, RefreshPost, carried);
    assert RefreshOnce(w, carried).0.posts == Perform(w, RefreshPost, carried).0.posts;
  }

  // A refresh that comes to an end sends at most two posts exactly when none of its answers is itself a
  // token error.
  lemma RefreshBoundExactly(w: World, carried: Tokens)
    requires !RefreshFrom(w, carried, 0).1.Pending?
    ensures Count(Sent(w, RefreshFrom(w, carried, 0).0), RefreshPost) <= 2
            <==> Tame(Sent(w, RefreshFrom(w, carried, 0).0))
  {
    var v := RefreshFrom(w, carried, 0).0;
    if Tame(Sent(w, v)) {
      RefreshBounds(w, carried);
    } else {
      WildRefreshPosts(w, carried);
    }
  }

  lemma WildRefreshPosts(w: World, carried: Tokens)
    requires !RefreshFrom(w, carried, 0).1.Pending? && !Tame(Sent(w, RefreshFrom(w, carried, 0).0))
    ensures Count(Sent(w, RefreshFrom(w, carried, 0).0), RefreshPost) >= 3
  {
    var v := RefreshFrom(w, carried, 0).0;
    var (w1, o) := RefreshOnce(w, carried);
    if AnswersBadly(w) {
      BadTurnPosts(w, carried);
    } else {
      PlainTurnPosts(w, carried);
      TurnPosts(w, carried);
    }
    assert !o.Ok? && w1.script != [];
    var w2 := Resume(w1, 2000);
    assert v == RefreshOnce(w2, carried).0;
    if AnswersBadly(w2) {
      BadTurnPosts(w2, carried);
    } else {
      PlainTurnPosts(w2, carried);
      TurnPosts(w2, carried);
    }
    SentAppend(w, w1, v);
    assert Sent(w1, v) == Sent(w2, v);
    TameAppend(Sent(w, w1), Sent(w1, v));
    CountAppend(Sent(w, w1), Sent(w1, v), RefreshPost);
  }

  // The same of a post of its own, with the refresh it leads to.
  lemma OwnPostRefreshesExactly(w: World, carried: Tokens)
    requires !Perform(w, Api, carried).1.Pending?
    ensures Count(Sent(w, Perform(w, Api, carried).0), RefreshPost) <= 2
            <==> Tame(Sent(w, Perform(w, Api, carried).0))
  {
    if AnswersBadly(w) {
      OwnBadPostRefreshes(w, carried);
    } else {
      PlainPostIsTame(w, Api, carried);
    }
  }

  lemma OwnBadPostRefreshes(w: World, carried: Tokens)
    requires AnswersBadly(w) && !Perform(w, Api, carried).1.Pending?
    ensures Count(Sent(w, Perform(w, Api, carried).0), RefreshPost) <= 2
            <==> Tame(Sent(w, Perform(w, Api, carried).0))
  {
    var v := Perform(w, Api, carried).0;
    var w1, w2 := Posted(w, Api, carried), BeforeRefresh(w, Api, carried);
    TokenErrorRefreshes(w, Api, carried);
    RefreshBoundExactly(w2, Held(w2));
    assert Sent(w2, v) == Sent(w1, v);
    PostFirst(w, Api, carried, v);
    assert forall p :: p in [w1.posts[|w.posts|]] ==> p.kind.Api?;
  }

  // And a login posts no refresh exactly when its answer is no token error.
  lemma LoginRefreshesNothingExactly(w: World)
    requires !Login(w).1.Pending?
    ensures Count(Sent(w, Login(w).0), RefreshPost) == 0 <==> !(w.hasApiKeys && AnswersBadly(w))
  {
    var v := Login(w).0;
    if w.hasApiKeys {
      assert v.posts == Perform(w, LoginPost, NONE).0.posts;
      if AnswersBadly(w) {
        BadPostIsFollowed(w, LoginPost, NONE);
      } else {
        PlainPostIsTame(w, LoginPost, NONE);
      }
    } else {
      assert Sent(w, v) == [];
    }
  }

  // Each refresh answered by another token error starts a refresh inside the first: n times two wake-ups
  // make n refresh posts, whatever n is.
  lemma {:induction false} RefreshesNestWithoutBound(w: World, carried: Tokens, n: nat)
    requires |w.script| >= 2 * n
    requires forall i | 0 <= i < |w.script| :: w.script[i].reply.Reply? && Classify(w.script[i].reply) == BadToken
    ensures Count(Sent(w, Perform(w, RefreshPost, carried).0), RefreshPost) >= n
    decreases n
  {
    if n != 0 {
      var w1, w2 := Posted(w, RefreshPost, carried), BeforeRefresh(w, RefreshPost, carried);
      var v := RefreshFrom(w2, Held(w2), 0).0;
      var inner := Perform(w2, RefreshPost, Held(w2)).0;
      TokenErrorRefreshes(w, RefreshPost, carried);
      PostedBounds(w, RefreshPost, carried);
      RefreshesNestWithoutBound(w2, Held(w2), n - 1);
      assert Count(Sent(w, w1)[..0], RefreshPost) == 0 && Count(Sent(w, w1), RefreshPost) == 1;
      assert w2.posts <= inner.posts <= RefreshOnce(w2, Held(w2)).0.posts <= v.posts;
      SentAppend(w2, inner, v);
      CountAppend(Sent(w2, inner), Sent(inner, v), RefreshPost);
      SentAppend(w, w2, v);
      CountAppend(Sent(w, w2), Sent(w2, v), RefreshPost);
    }
  }

  // There is such an answer.
  lemma ATokenError(sleep: nat)
    ensures Classify(Reply(NumberCode(2001), "x", "", None, sleep)) == BadToken
  {
    assert ToLower("x") == "x";
    assert forall part: string | |part| > 1 :: !Includes("x", part);
  }
}
