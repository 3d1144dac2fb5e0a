/** The login debounce of src/index.js: maybeLogin and its helpers, with any number of callers
    interleaving at their awaits. Date.now() is the model's clock. */
module LoginDebounce {
  import opened JsText
  import opened History

  const INITIAL: nat := 1000
  const CAP: nat := 300000
  const RESET_AFTER: nat := 43200000
  const SLEEP: nat := 2000

  function Min(a: nat, b: nat): nat { if a < b then a else b }

  predicate Cleared(last: nat, debounce: nat, now: nat) { last + debounce < now }

  function ResetIfNeeded(last: nat, debounce: nat, now: nat): nat {
    if now > last + RESET_AFTER then INITIAL else debounce
  }

  function Doubled(debounce: nat): nat { Min(debounce * 2, CAP) }

  // Where a caller of maybeLogin is: reading the token file, asleep in the wait loop, past the loop, or
  // awaiting its login. The login after a wait is not awaited: its answer shows up as TokenArrived.
  datatype Caller = Loading | Waiting(now: nat, sleeps: nat, started: nat) | Waited(now: nat) | LoggingIn | Finished

  // A login that was sent: when, and the last recorded attempt and debounce in force just before.
  datatype Login = Login(at: nat, last: nat, debounce: nat, afterWait: bool)

  datatype State = State(
    clock: nat,
    token: bool,
    last: nat,
    debounce: nat,
    callers: seq<Caller>,
    logins: seq<Login>,
    doublings: nat)

  datatype Event =
    | Call
    | Loaded(caller: nat, found: bool)
    | Woken(caller: nat)
    | AfterWait(caller: nat)
    | LoginAnswered(caller: nat, ok: bool)
    | TokenCleared
    | TokenArrived
    | Tick(ms: nat)

  function Initial(clock: nat): State { State(clock, false, 0, INITIAL, [], [], 0) }

  ghost predicate Enabled(s: State, e: Event) {
    match e
    case Loaded(c, _) => c < |s.callers| && s.callers[c].Loading?
    case Woken(c) =>
      && c < |s.callers| && s.callers[c].Waiting?
      && s.callers[c].started + SLEEP * (s.callers[c].sleeps + 1) <= s.clock
    case AfterWait(c) => c < |s.callers| && s.callers[c].Waited?
    case LoginAnswered(c, _) => c < |s.callers| && s.callers[c].LoggingIn?
    case _ => true
  }

  // maybeLogin from the check of the token on.
  function Proceed(s: State, c: nat): State
    requires c < |s.callers|
  {
    if s.token then s.(callers := s.callers[c := Finished])
    else if Cleared(s.last, s.debounce, s.clock) then
      var d := ResetIfNeeded(s.last, s.debounce, s.clock);
      s.(debounce := d,
         doublings := if s.clock > s.last + RESET_AFTER then 0 else s.doublings,
         last := s.clock,
         logins := s.logins + [Login(s.clock, s.last, d, false)],
         callers := s.callers[c := LoggingIn])
    else s.(callers := s.callers[c := Waiting(s.clock, 0, s.clock)])
  }

  // updateDebounceAndLogin: the recorded attempt is the time before the wait.
  function LoginAfterWait(s: State, c: nat, now: nat): State
    requires c < |s.callers|
  {
    s.(last := now,
       debounce := Doubled(s.debounce),
       doublings := s.doublings + 1,
       logins := s.logins + [Login(s.clock, s.last, s.debounce, true)],
       callers := s.callers[c := Finished])
  }

  function Step(s: State, e: Event): State
    requires Enabled(s, e)
  {
    match e
    case Call =>
      var t := s.(callers := s.callers + [Loading]);
      if s.token then t.(callers := s.callers + [Finished]) else t
    case Loaded(c, found) => Proceed(s.(token := s.token || found), c)
    case Woken(c) =>
      var w := s.callers[c];
      var sleeps := w.sleeps + 1;
      if s.token || sleeps * SLEEP >= s.debounce then s.(callers := s.callers[c := Waited(w.now)])
      else s.(callers := s.callers[c := w.(sleeps := sleeps)])
    case AfterWait(c) =>
      if s.token then s.(callers := s.callers[c := Finished]) else LoginAfterWait(s, c, s.callers[c].now)
    case LoginAnswered(c, ok) => s.(token := s.token || ok, callers := s.callers[c := Finished])
    case TokenCleared => s.(token := false)
    case TokenArrived => s.(token := true)
    case Tick(ms) => s.(clock := s.clock + ms)
  }

  ghost function After(start: nat, run: seq<Event>): Option<State> {
    if run == [] then Some(Initial(start))
    else
      var n := |run| - 1;
      match After(start, run[..n])
      case None => None
      case Some(s) => if Enabled(s, run[n]) then Some(Step(s, run[n])) else None
  }

  ghost predicate CallerOk(s: State, c: Caller) {
    match c
    case Waiting(now, sleeps, started) =>
      now == started <= s.clock && started + SLEEP * sleeps <= s.clock && SLEEP * sleeps < CAP
    case Waited(now) => now <= s.clock
    case _ => true
  }

  ghost predicate Inv(s: State) {
    && s.debounce == Min(INITIAL * Power2(s.doublings), CAP)
    && s.last <= s.clock
    && (forall c | 0 <= c < |s.callers| :: CallerOk(s, s.callers[c]))
  }

  lemma DoublingFollowsPowers(k: nat)
    ensures Doubled(Min(INITIAL * Power2(k), CAP)) == Min(INITIAL * Power2(k + 1), CAP)
  {
  }

  lemma StepKeepsInv(s: State, e: Event)
    requires Inv(s) && Enabled(s, e)
    ensures Inv(Step(s, e))
  {
    DoublingFollowsPowers(s.doublings);
    var t := Step(s, e);
    forall c | 0 <= c < |t.callers|
      ensures CallerOk(t, t.callers[c])
    {
      if c < |s.callers| {
        assert CallerOk(s, s.callers[c]);
      }
    }
  }

  // In every run the debounce is min(1000 * 2^k, 300000), k being the waits that ended in a login since
  // the last reset; and no caller is ever in its 151st sleep.
  lemma {:induction false} DebounceFormula(start: nat, run: seq<Event>)
    requires After(start, run).Some?
    ensures Inv(After(start, run).value)
    ensures forall c :: c in After(start, run).value.callers && c.Waiting? ==> c.sleeps + 1 <= 150
  {
    if run != [] {
      var n := |run| - 1;
      DebounceFormula(start, run[..n]);
      StepKeepsInv(After(start, run[..n]).value, run[n]);
    }
    var s := After(start, run).value;
    forall c | c in s.callers && c.Waiting?
      ensures c.sleeps + 1 <= 150
    {
      assert CallerOk(s, c);
    }
  }

  // The waits that ended in a login since the last login that came more than twelve hours after the
  // recorded attempt before it.
  function WaitsSinceReset(logins: seq<Login>): nat {
    if logins == [] then 0
    else
      var n := |logins| - 1;
      if logins[n].afterWait then 1 + WaitsSinceReset(logins[..n])
      else if logins[n].at - logins[n].last > 12 * 60 * 60 * 1000 then 0
      else WaitsSinceReset(logins[..n])
  }

  // What a step adds to the logins.
  lemma LoginsOnlyBy(s: State, e: Event)
    requires Enabled(s, e)
    ensures var t := Step(s, e);
            match e
            case Loaded(_, found) =>
              if !s.token && !found && s.last + s.debounce < s.clock then
                |t.logins| == |s.logins| + 1 && t.logins[..|s.logins|] == s.logins
                && t.logins[|s.logins|] == Login(s.clock, s.last, t.debounce, false) && t.last == s.clock
                && t.debounce == (if s.clock - s.last > 43200000 then 1000 else s.debounce)
              else t.logins == s.logins && t.debounce == s.debounce
            case AfterWait(c) =>
              if !s.token then
                |t.logins| == |s.logins| + 1 && t.logins[..|s.logins|] == s.logins
                && t.logins[|s.logins|] == Login(s.clock, s.last, s.debounce, true) && t.last == s.callers[c].now
                && t.debounce == (if 2 * s.debounce < 300000 then 2 * s.debounce else 300000)
              else t.logins == s.logins && t.debounce == s.debounce
            case _ => t.logins == s.logins && t.debounce == s.debounce
  {
  }

  lemma {:induction false} DoublingsAsLogged(start: nat, run: seq<Event>)
    requires After(start, run).Some?
    ensures After(start, run).value.doublings == WaitsSinceReset(After(start, run).value.logins)
  {
    if run != [] {
      var n := |run| - 1;
      var s := After(start, run[..n]).value;
      DoublingsAsLogged(start, run[..n]);
      DebounceFormula(start, run[..n]);
      LoginsOnlyBy(s, run[n]);
      DoublingsOnlyBy(s, run[n]);
    }
  }

  lemma DoublingsOnlyBy(s: State, e: Event)
    requires Enabled(s, e) && s.last <= s.clock
    ensures var t := Step(s, e);
            if |t.logins| == |s.logins| then t.doublings == s.doublings
            else if e.AfterWait? then t.doublings == s.doublings + 1
            else t.doublings == if s.clock - s.last > 43200000 then 0 else s.doublings
  {
  }

  // So the debounce follows from the logins alone.
  lemma DebounceExactly(start: nat, run: seq<Event>, s: State)
    requires After(start, run) == Some(s)
    ensures s.debounce == Min(1000 * Power2(WaitsSinceReset(s.logins)), 300000)
  {
    DebounceFormula(start, run);
    DoublingsAsLogged(start, run);
  }

  // A wait ends with the first sleep after which a token is there or 2 s times the sleeps reach the debounce.
  lemma WaitEndsExactly(s: State, c: nat)
    requires Enabled(s, Woken(c))
    ensures var sleeps := s.callers[c].sleeps + 1;
            Step(s, Woken(c)).callers[c]
            == if s.token || 2000 * sleeps >= s.debounce then Waited(s.callers[c].now)
               else Waiting(s.callers[c].now, sleeps, s.callers[c].started)
    ensures s.clock >= s.callers[c].started + 2000 * (s.callers[c].sleeps + 1)
  {
  }

  function BringsToken(): Event -> bool {
    (e: Event) => (e.Loaded? && e.found) || (e.LoginAnswered? && e.ok) || e.TokenArrived?
  }

  function TakesToken(): Event -> bool { (e: Event) => e.TokenCleared? }

  // There is a token exactly when the file, a login or somebody else brought one that was not cleared since.
  lemma {:induction false} TokenExactly(start: nat, run: seq<Event>)
    requires After(start, run).Some?
    ensures After(start, run).value.token <==> Since(run, BringsToken(), TakesToken())
  {
    if run != [] {
      var n := |run| - 1;
      TokenExactly(start, run[..n]);
      SinceLast(run, BringsToken(), TakesToken());
      TokenOnlyBy(After(start, run[..n]).value, run[n]);
    }
  }

  lemma TokenOnlyBy(s: State, e: Event)
    requires Enabled(s, e)
    ensures Step(s, e).token <==> BringsToken()(e) || (s.token && !TakesToken()(e))
  {
  }

  // A caller that finds a token is through, and logs in no more.
  lemma TokenMeansDone(s: State, e: Event)
    requires Enabled(s, e) && (e.Call? || e.Loaded? || e.AfterWait?) && (s.token || (e.Loaded? && e.found))
    ensures var t := Step(s, e);
            t.logins == s.logins && t.callers == if e.Call? then s.callers + [Finished] else s.callers[e.caller := Finished]
  {
  }

  // Without one, and when the debounce is not cleared, the caller waits from now on.
  lemma NoTokenMeansWaiting(s: State, c: nat)
    requires Enabled(s, Loaded(c, false)) && !s.token && s.last + s.debounce >= s.clock
    ensures Step(s, Loaded(c, false)).callers == s.callers[c := Waiting(s.clock, 0, s.clock)]
  {
  }

  // --- One caller at a time ----------------------------------------------------------------

  // A call comes only when no other is under way, and the token does not vanish between the end of a
  // wait and the check that follows it.
  ghost predicate Calm(s: State, e: Event) {
    && (e.Call? ==> forall c | 0 <= c < |s.callers| :: s.callers[c].Finished?)
    && (e.TokenCleared? ==> forall c | 0 <= c < |s.callers| :: !s.callers[c].Waited?)
  }

  ghost predicate CalmRun(start: nat, run: seq<Event>) {
    forall i | 0 <= i < |run| :: After(start, run[..i]).Some? ==> Calm(After(start, run[..i]).value, run[i])
  }

  ghost predicate SoleCallerOk(s: State, c: Caller) {
    match c
    case Waiting(now, _, _) => s.last <= now
    case Waited(now) => s.last <= now && (s.token || now + s.debounce <= s.clock)
    case _ => true
  }

  ghost predicate Sole(s: State) {
    && (forall i, j | 0 <= i < |s.callers| && 0 <= j < |s.callers| && i != j ::
          s.callers[i].Finished? || s.callers[j].Finished?)
    && (forall c | 0 <= c < |s.callers| :: SoleCallerOk(s, s.callers[c]))
    && (forall i | 0 <= i < |s.logins| :: s.logins[i].last + s.logins[i].debounce <= s.logins[i].at)
  }

  lemma StepKeepsSole(s: State, e: Event)
    requires Inv(s) && Sole(s) && Enabled(s, e) && Calm(s, e)
    ensures Sole(Step(s, e))
  {
    var t := Step(s, e);
    forall c | 0 <= c < |t.callers|
      ensures SoleCallerOk(t, t.callers[c])
    {
      if c < |s.callers| {
        assert SoleCallerOk(s, s.callers[c]) && CallerOk(s, s.callers[c]);
      }
    }
  }

  // With calls one at a time, every login is sent no earlier than the recorded attempt before it plus
  // the debounce then in force.
  lemma {:induction false} LoginsKeepTheDebounce(start: nat, run: seq<Event>)
    requires After(start, run).Some? && CalmRun(start, run)
    ensures Sole(After(start, run).value)
  {
    if run != [] {
      var n := |run| - 1;
      CalmPrefix(start, run, n);
      LoginsKeepTheDebounce(start, run[..n]);
      DebounceFormula(start, run[..n]);
      StepKeepsSole(After(start, run[..n]).value, run[n]);
    }
  }

  // --- Spacing between one login and the next ------------------------------------------------

  // The recorded attempt is the last login's time, unless that login followed a wait.
  ghost predicate Linked(s: State) {
    && (s.logins != [] && !s.logins[|s.logins| - 1].afterWait ==> s.last == s.logins[|s.logins| - 1].at)
    && (forall i | 1 <= i < |s.logins| :: !s.logins[i - 1].afterWait ==> s.logins[i].last == s.logins[i - 1].at)
  }

  lemma LinkedAfter(s: State, t: State, login: Login)
    requires Linked(s) && t.logins == s.logins + [login] && login.last == s.last
    requires login.afterWait || t.last == login.at
    ensures Linked(t)
  {
    var n := |s.logins|;
    forall i | 1 <= i < |t.logins| && !t.logins[i - 1].afterWait
      ensures t.logins[i].last == t.logins[i - 1].at
    {
      if i < n {
        assert t.logins[i] == s.logins[i] && t.logins[i - 1] == s.logins[i - 1];
      }
    }
  }

  lemma StepKeepsLinked(s: State, e: Event)
    requires Linked(s) && Enabled(s, e)
    ensures Linked(Step(s, e))
  {
    var t := Step(s, e);
    if t.logins == s.logins {
      assert t.last == s.last;
    } else {
      LinkedAfter(s, t, t.logins[|s.logins|]);
    }
  }

  lemma {:induction false} RunKeepsLinked(start: nat, run: seq<Event>)
    requires After(start, run).Some?
    ensures Linked(After(start, run).value)
  {
    if run != [] {
      var n := |run| - 1;
      RunKeepsLinked(start, run[..n]);
      StepKeepsLinked(After(start, run[..n]).value, run[n]);
    }
  }

  // Login i came no earlier than the debounce then in force after the login before it.
  ghost predicate Spaced(s: State, i: nat)
    requires 1 <= i < |s.logins|
  {
    s.logins[i - 1].at + s.logins[i].debounce <= s.logins[i].at
  }

  // With calls one at a time two successive logins keep the debounce apart, unless the first followed a wait.
  lemma LoginsAreSpaced(start: nat, run: seq<Event>, s: State, i: nat)
    requires After(start, run) == Some(s) && CalmRun(start, run)
    requires 1 <= i < |s.logins| && !s.logins[i - 1].afterWait
    ensures Spaced(s, i)
  {
    LoginsKeepTheDebounce(start, run);
    RunKeepsLinked(start, run);
  }

  // And if it did, the next login of some calm continuation comes too early.
  lemma AfterWaitTheNextCanCrowd(start: nat, run: seq<Event>, s: State, c: nat) returns (longer: seq<Event>, t: State)
    requires After(start, run) == Some(s) && CalmRun(start, run) && Enabled(s, AfterWait(c)) && !s.token
    ensures run + [AfterWait(c)] <= longer && CalmRun(start, longer) && After(start, longer) == Some(t)
    ensures |t.logins| == |s.logins| + 2 && !Spaced(t, |s.logins| + 1)
  {
    DebounceFormula(start, run);
    LoginsKeepTheDebounce(start, run);
    assert SoleCallerOk(s, s.callers[c]);
    longer, t := Advance(start, run, s, AfterWait(c));
    longer, t := Crowd(start, longer, t);
  }

  // A fresh call, as soon as the recorded attempt lets it log in at once.
  lemma Crowd(start: nat, run: seq<Event>, s: State) returns (longer: seq<Event>, t: State)
    requires After(start, run) == Some(s) && CalmRun(start, run) && !s.token && s.debounce > 0
    requires forall i | 0 <= i < |s.callers| :: s.callers[i].Finished?
    requires s.logins != [] && s.logins[|s.logins| - 1].at == s.clock && s.last + 1 < s.clock && s.debounce <= CAP
    ensures run <= longer && CalmRun(start, longer) && After(start, longer) == Some(t)
    ensures |t.logins| == |s.logins| + 1 && !Spaced(t, |s.logins|)
  {
    var ms := if s.last + s.debounce < s.clock then 0 else s.last + s.debounce + 1 - s.clock;
    longer, t := Advance(start, run, s, Tick(ms));
    longer, t := Advance(start, longer, t, Call);
    longer, t := Advance(start, longer, t, Loaded(|s.callers|, false));
  }

  // If more is a calm continuation that brings login n, that login is spaced from the one before.
  ghost predicate KeepsSpacing(start: nat, run: seq<Event>, more: seq<Event>, n: nat)
    requires n >= 1
  {
    After(start, run + more).Some? && CalmRun(start, run + more) ==>
      var t := After(start, run + more).value;
      n < |t.logins| ==> Spaced(t, n)
  }

  lemma PlainLoginIsSpaced(start: nat, run: seq<Event>, s: State, more: seq<Event>)
    requires After(start, run) == Some(s) && s.logins != [] && !s.logins[|s.logins| - 1].afterWait
    ensures KeepsSpacing(start, run, more, |s.logins|)
  {
    if After(start, run + more).Some? && CalmRun(start, run + more) {
      var t := After(start, run + more).value;
      LoginsOnlyGrow(start, run, more);
      if |s.logins| < |t.logins| {
        LoginsAreSpaced(start, run + more, t, |s.logins|);
      }
    }
  }

  lemma OnlyWaitsEndSo(s: State, e: Event)
    requires Enabled(s, e) && |Step(s, e).logins| > |s.logins| && Step(s, e).logins[|s.logins|].afterWait
    ensures e.AfterWait? && !s.token && |Step(s, e).logins| == |s.logins| + 1
  {
  }

  lemma AfterWaitLoginIsNot(start: nat, run: seq<Event>, u: State, e: Event) returns (more: seq<Event>)
    requires After(start, run) == Some(u) && CalmRun(start, run) && Enabled(u, e)
    requires |Step(u, e).logins| > |u.logins| && Step(u, e).logins[|u.logins|].afterWait
    ensures !KeepsSpacing(start, run + [e], more, |Step(u, e).logins|)
  {
    OnlyWaitsEndSo(u, e);
    var longer, t := AfterWaitTheNextCanCrowd(start, run, u, e.caller);
    more := longer[|run| + 1..];
    assert longer == run + [e] + more;
  }

  // So for the login a calm run ends with, every calm continuation keeps the next one a debounce away
  // exactly when this one did not follow a wait.
  lemma SpacedExactly(start: nat, run: seq<Event>, u: State, e: Event)
    requires After(start, run) == Some(u) && CalmRun(start, run) && Enabled(u, e) && Calm(u, e)
    requires |Step(u, e).logins| > |u.logins|
    ensures (forall more :: KeepsSpacing(start, run + [e], more, |Step(u, e).logins|))
            <==> !Step(u, e).logins[|u.logins|].afterWait
  {
    var longer, s := Advance(start, run, u, e);
    OneLoginAtATime(u, e);
    if s.logins[|u.logins|].afterWait {
      var more := AfterWaitLoginIsNot(start, run, u, e);
    } else {
      forall more
        ensures KeepsSpacing(start, run + [e], more, |s.logins|)
      {
        PlainLoginIsSpaced(start, longer, s, more);
      }
    }
  }

  lemma OneLoginAtATime(s: State, e: Event)
    requires Enabled(s, e)
    ensures |Step(s, e).logins| <= |s.logins| + 1
  {
  }

  lemma CalmPrefix(start: nat, run: seq<Event>, n: nat)
    requires CalmRun(start, run) && n <= |run|
    ensures CalmRun(start, run[..n])
  {
    forall i | 0 <= i < n && After(start, run[..n][..i]).Some?
      ensures Calm(After(start, run[..n][..i]).value, run[i])
    {
      assert run[..n][..i] == run[..i];
    }
  }

  lemma {:induction false} LoginsOnlyGrow(start: nat, run: seq<Event>, more: seq<Event>)
    requires After(start, run + more).Some?
    ensures After(start, run).Some? && After(start, run).value.logins <= After(start, run + more).value.logins
    decreases |more|
  {
    if more == [] {
      assert run + more == run;
    } else {
      var n := |more| - 1;
      assert (run + more)[..|run| + n] == run + more[..n];
      LoginsOnlyGrow(start, run, more[..n]);
    }
  }

  lemma Advance(start: nat, run: seq<Event>, s: State, e: Event) returns (longer: seq<Event>, t: State)
    requires After(start, run) == Some(s) && CalmRun(start, run) && Enabled(s, e) && Calm(s, e)
    ensures longer == run + [e] && t == Step(s, e)
    ensures After(start, longer) == Some(t) && CalmRun(start, longer)
  {
    longer, t := run + [e], Step(s, e);
    assert longer[..|run|] == run;
    forall i | 0 <= i < |longer| && After(start, longer[..i]).Some?
      ensures Calm(After(start, longer[..i]).value, longer[i])
    {
      if i < |run| {
        assert longer[..i] == run[..i];
      }
    }
  }

  lemma FirstCallerLogsIn() returns (run: seq<Event>, s: State)
    ensures CalmRun(5000, run) && After(5000, run) == Some(s)
    ensures s == State(5000, false, 5000, 1000, [Finished], [Login(5000, 0, 1000, false)], 0)
  {
    run, s := Advance(5000, [], Initial(5000), Call);
    run, s := Advance(5000, run, s, Loaded(0, false));
    run, s := Advance(5000, run, s, LoginAnswered(0, false));
  }

  lemma SecondCallerWaits() returns (run: seq<Event>, s: State)
    ensures CalmRun(5000, run) && After(5000, run) == Some(s)
    ensures s == State(5000, false, 5000, 1000, [Finished, Waiting(5000, 0, 5000)], [Login(5000, 0, 1000, false)], 0)
  {
    run, s := FirstCallerLogsIn();
    run, s := Advance(5000, run, s, Call);
    run, s := Advance(5000, run, s, Loaded(1, false));
  }

  lemma SecondCallerLogsIn() returns (run: seq<Event>, s: State)
    ensures CalmRun(5000, run) && After(5000, run) == Some(s)
    ensures s == State(7000, false, 5000, 2000, [Finished, Finished],
                       [Login(5000, 0, 1000, false), Login(7000, 5000, 1000, true)], 1)
  {
    run, s := SecondCallerWaits();
    run, s := Advance(5000, run, s, Tick(2000));
    run, s := Advance(5000, run, s, Woken(1));
    run, s := Advance(5000, run, s, AfterWait(1));
  }

  // The attempt recorded after a wait is the time before it, so two logins can still follow each other
  // within a millisecond while the debounce in force is two seconds.
  lemma LoginsCanBeAMillisecondApart() returns (run: seq<Event>, s: State)
    ensures CalmRun(5000, run) && After(5000, run) == Some(s)
    ensures s.logins == [Login(5000, 0, 1000, false), Login(7000, 5000, 1000, true), Login(7001, 5000, 2000, false)]
  {
    run, s := SecondCallerLogsIn();
    run, s := Advance(5000, run, s, Tick(1));
    run, s := Advance(5000, run, s, Call);
    run, s := Advance(5000, run, s, Loaded(2, false));
  }

  // --- The object --------------------------------------------------------------------------

  class Debouncer {
    var clock: nat
    var accessToken: bool
    var lastLoginAttempt: nat
    var loginAttemptDebounceMilliseconds: nat
    var callers: seq<Caller>
    ghost var logins: seq<Login>
    ghost var doublings: nat

    ghost function View(): State
      reads this
    {
      State(clock, accessToken, lastLoginAttempt, loginAttemptDebounceMilliseconds, callers, logins, doublings)
    }

    ghost predicate Valid()
      reads this
    {
      Inv(View())
    }

    constructor (now: nat)
      ensures View() == Initial(now) && Valid()
    {
      clock, accessToken, lastLoginAttempt, loginAttemptDebounceMilliseconds := now, false, 0, INITIAL;
      callers, logins, doublings := [], [], 0;
    }

    // maybeLogin up to its first await.
    method MaybeLogin()
      requires Valid()
      modifies this
      ensures View() == Step(old(View()), Call) && Valid()
    {
      StepKeepsInv(View(), Call);
      callers := callers + [if accessToken then Finished else Loading];
    }

    // maybeLogin once the token file was read.
    method AfterLoad(c: nat, found: bool)
      requires Valid() && Enabled(View(), Loaded(c, found))
      modifies this
      ensures View() == Step(old(View()), Loaded(c, found)) && Valid()
    {
      StepKeepsInv(View(), Loaded(c, found));
      if found {
        accessToken := true;
      }
      if accessToken {
        callers := callers[c := Finished];
        return;
      }
      var now := clock;
      if lastLoginAttempt + loginAttemptDebounceMilliseconds < now {
        ResetDebounceIfNeeded(now);
        logins := logins + [Login(now, lastLoginAttempt, loginAttemptDebounceMilliseconds, false)];
        lastLoginAttempt := now;
        callers := callers[c := LoggingIn];
      } else {
        callers := callers[c := Waiting(now, 0, now)];
      }
    }

    method ResetDebounceIfNeeded(now: nat)
      modifies this`loginAttemptDebounceMilliseconds, this`doublings
      ensures loginAttemptDebounceMilliseconds
              == ResetIfNeeded(lastLoginAttempt, old(loginAttemptDebounceMilliseconds), now)
      ensures doublings == if now > lastLoginAttempt + RESET_AFTER then 0 else old(doublings)
    {
      if now > lastLoginAttempt + RESET_AFTER {
        loginAttemptDebounceMilliseconds := INITIAL;
        doublings := 0;
      }
    }

    // One turn of waitForDebounceClearance's loop.
    method AfterSleep(c: nat)
      requires Valid() && Enabled(View(), Woken(c))
      modifies this
      ensures View() == Step(old(View()), Woken(c)) && Valid()
    {
      StepKeepsInv(View(), Woken(c));
      var sleeps := callers[c].sleeps + 1;
      if accessToken || sleeps * SLEEP >= loginAttemptDebounceMilliseconds {
        callers := callers[c := Waited(callers[c].now)];
      } else {
        callers := callers[c := callers[c].(sleeps := sleeps)];
      }
    }

    // maybeLogin after the wait, and updateDebounceAndLogin, which it does not await.
    method AfterWait(c: nat)
      requires Valid() && Enabled(View(), Event.AfterWait(c))
      modifies this
      ensures View() == Step(old(View()), Event.AfterWait(c)) && Valid()
    {
      StepKeepsInv(View(), Event.AfterWait(c));
      if !accessToken {
        logins := logins + [Login(clock, lastLoginAttempt, loginAttemptDebounceMilliseconds, true)];
        lastLoginAttempt := callers[c].now;
        loginAttemptDebounceMilliseconds := Min(loginAttemptDebounceMilliseconds * 2, CAP);
        doublings := doublings + 1;
      }
      callers := callers[c := Finished];
    }

    method AfterLogin(c: nat, ok: bool)
      requires Valid() && Enabled(View(), LoginAnswered(c, ok))
      modifies this
      ensures View() == Step(old(View()), LoginAnswered(c, ok)) && Valid()
    {
      StepKeepsInv(View(), LoginAnswered(c, ok));
      if ok {
        accessToken := true;
      }
      callers := callers[c := Finished];
    }
  }
}
