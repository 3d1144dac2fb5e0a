/** The browser's StreamSession around its signalling: start, stop, the session token that guards every
    callback, the one automatic restart and the promises that wait for a start's result. */
module StreamSession {
  import opened JsText

  const START_TIMEOUT: nat := 2500
  const RESTART_DELAY: nat := 500

  // A start that went on to fetch its stream parameters.
  datatype Start = Start(token: nat, fetching: bool)

  // The timer of an automatic restart.
  datatype Restart = Restart(token: nat, at: nat, live: bool)

  // A promise made by _waitForStartResult, with its own timer.
  datatype Waiter = Waiter(deadline: nat, timerLive: bool, result: Option<bool>)

  datatype State = State(
    clock: nat,
    sessionToken: nat,
    incompatibleRetryCount: nat,
    // The token of the start whose _connect made the current peer connection.
    connection: Option<nat>,
    starts: seq<Start>,
    restarts: seq<Restart>,
    waiters: seq<Waiter>,
    startWaiters: seq<nat>,
    // Automatic restarts since the last start by the user.
    automatic: nat)

  datatype Event =
    | UserStart(online: bool)
    | UserStop
    | Fetched(start: nat, ok: bool)
    | VideoTrack(token: nat)
    | ConnectionLost(token: nat)
    | SocketClosed(token: nat)
    // An error in a message handler past its guard, which is not asked again.
    | SignalError(token: nat)
    | IncompatibleAnswer(token: nat)
    | RestartDue(restart: nat, online: bool)
    | WaiterTimeout(waiter: nat)
    | Tick(ms: nat)

  function Initial(): State { State(0, 0, 0, None, [], [], [], [], 0) }

  ghost predicate Enabled(s: State, e: Event) {
    match e
    case Fetched(i, _) => i < |s.starts| && s.starts[i].fetching
    case SignalError(t) => t <= s.sessionToken
    case IncompatibleAnswer(t) => t <= s.sessionToken
    case RestartDue(i, _) => i < |s.restarts| && s.restarts[i].live && s.restarts[i].at <= s.clock
    case WaiterTimeout(i) => i < |s.waiters| && s.waiters[i].timerLive && s.waiters[i].deadline <= s.clock
    case Tick(ms) => forall i | 0 <= i < |s.waiters| :: s.waiters[i].timerLive ==> s.clock + ms <= s.waiters[i].deadline
    case _ => true
  }

  // A waiter's resolver: it clears the timer and resolves; a promise resolves once.
  function Resolved(w: Waiter, value: bool): Waiter {
    w.(timerLive := false, result := if w.result.None? then Some(value) else w.result)
  }

  // _resolveStartWaiters
  function ResolveAll(s: State, value: bool): (t: State)
    ensures |t.waiters| == |s.waiters|
  {
    s.(waiters := seq(|s.waiters|, i requires 0 <= i < |s.waiters| =>
                        if i in s.startWaiters then Resolved(s.waiters[i], value) else s.waiters[i]),
       startWaiters := [])
  }

  function StopStep(s: State): State {
    ResolveAll(s.(sessionToken := s.sessionToken + 1, connection := None), false)
  }

  function StartStep(s: State, isRetry: bool, online: bool): State {
    var t := StopStep(s);
    var u := t.(sessionToken := t.sessionToken + 1,
                incompatibleRetryCount := if isRetry then t.incompatibleRetryCount else 0,
                automatic := if isRetry then t.automatic + 1 else 0);
    if online then u.(starts := u.starts + [Start(u.sessionToken, true)]) else ResolveAll(u, false)
  }

  function FetchedStep(s: State, i: nat, ok: bool): State
    requires i < |s.starts|
  {
    var t := s.(starts := s.starts[i := s.starts[i].(fetching := false)]);
    if ok then
      t.(connection := Some(s.starts[i].token),
         waiters := s.waiters + [Waiter(s.clock + START_TIMEOUT, true, None)],
         startWaiters := s.startWaiters + [|s.waiters|])
    else ResolveAll(t, false)
  }

  function IncompatibleStep(s: State, token: nat): State {
    var t := ResolveAll(s, false);
    if s.incompatibleRetryCount < 1 then
      t.(incompatibleRetryCount := s.incompatibleRetryCount + 1,
         restarts := s.restarts + [Restart(token, s.clock + RESTART_DELAY, true)])
    else t
  }

  function Step(s: State, e: Event): State
    requires Enabled(s, e)
  {
    match e
    case UserStart(online) => StartStep(s, false, online)
    case UserStop => StopStep(s)
    case Fetched(i, ok) => FetchedStep(s, i, ok)
    case VideoTrack(token) => if token == s.sessionToken then ResolveAll(s, true) else s
    case ConnectionLost(token) => if token == s.sessionToken then ResolveAll(s, false) else s
    case SocketClosed(token) => if token == s.sessionToken then ResolveAll(s, false) else s
    case SignalError(_) => ResolveAll(s, false)
    case IncompatibleAnswer(token) => IncompatibleStep(s, token)
    case RestartDue(i, online) =>
      var t := s.(restarts := s.restarts[i := s.restarts[i].(live := false)]);
      if s.restarts[i].token == s.sessionToken then StartStep(t, true, online) else t
    case WaiterTimeout(i) => s.(waiters := s.waiters[i := Resolved(s.waiters[i], false)])
    case Tick(ms) => s.(clock := s.clock + ms)
  }

  // The state after a run from s, if each of its events can happen.
  ghost function Run(s: State, run: seq<Event>): Option<State>
    decreases |run|
  {
    if run == [] then Some(s)
    else if Enabled(s, run[0]) then Run(Step(s, run[0]), run[1..])
    else None
  }

  // --- Tokens ------------------------------------------------------------------------------

  predicate Restarts(s: State, e: Event) {
    e.UserStart? || e.UserStop?
    || (e.RestartDue? && e.restart < |s.restarts| && s.restarts[e.restart].token == s.sessionToken)
  }

  // Starts and stops, and nothing else, raise the token.
  lemma TokensRise(s: State, e: Event)
    requires Enabled(s, e)
    ensures if Restarts(s, e) then Step(s, e).sessionToken > s.sessionToken
            else Step(s, e).sessionToken == s.sessionToken
  {
  }

  // A callback of a superseded start never passes its guard again.
  lemma {:induction false} GuardsStayShut(s: State, run: seq<Event>, token: nat)
    requires Run(s, run).Some? && token < s.sessionToken
    ensures token < Run(s, run).value.sessionToken
    decreases |run|
  {
    if run != [] {
      TokensRise(s, run[0]);
      GuardsStayShut(Step(s, run[0]), run[1..], token);
    }
  }

  // --- The automatic restart ---------------------------------------------------------------

  // Restart timers that would still pass their guard.
  ghost function Due(restarts: seq<Restart>, token: nat): nat {
    if restarts == [] then 0
    else
      var r := restarts[|restarts| - 1];
      Due(restarts[..|restarts| - 1], token) + if r.live && r.token == token then 1 else 0
  }

  ghost predicate RestartInv(s: State) {
    && s.automatic + Due(s.restarts, s.sessionToken) <= s.incompatibleRetryCount <= 1
    && (forall i | 0 <= i < |s.restarts| :: s.restarts[i].token <= s.sessionToken)
    && (forall i | 0 <= i < |s.starts| :: s.starts[i].token <= s.sessionToken)
  }

  lemma {:induction false} NoneDueLater(restarts: seq<Restart>, token: nat)
    requires forall i | 0 <= i < |restarts| :: restarts[i].token < token
    ensures Due(restarts, token) == 0
  {
    if restarts != [] {
      NoneDueLater(restarts[..|restarts| - 1], token);
    }
  }

  lemma {:induction false} FiringOne(restarts: seq<Restart>, i: nat, token: nat)
    requires i < |restarts| && restarts[i].live
    ensures Due(restarts[i := restarts[i].(live := false)], token)
            == Due(restarts, token) - if restarts[i].token == token then 1 else 0
  {
    var n := |restarts| - 1;
    var fired := restarts[i := restarts[i].(live := false)];
    if i == n {
      assert fired[..n] == restarts[..n];
    } else {
      assert fired[..n] == restarts[..n][i := restarts[i].(live := false)];
      FiringOne(restarts[..n], i, token);
    }
  }

  lemma RestartsAfterStart(s: State, isRetry: bool, online: bool)
    requires forall i | 0 <= i < |s.restarts| :: s.restarts[i].token <= s.sessionToken
    requires forall i | 0 <= i < |s.starts| :: s.starts[i].token <= s.sessionToken
    requires s.incompatibleRetryCount <= 1 && (isRetry ==> s.automatic + 1 <= s.incompatibleRetryCount)
    ensures RestartInv(StartStep(s, isRetry, online))
  {
    NoneDueLater(s.restarts, s.sessionToken + 2);
  }

  lemma RestartsAfterFiring(s: State, i: nat, online: bool)
    requires RestartInv(s) && Enabled(s, RestartDue(i, online))
    ensures RestartInv(Step(s, RestartDue(i, online)))
  {
    var t := s.(restarts := s.restarts[i := s.restarts[i].(live := false)]);
    FiringOne(s.restarts, i, s.sessionToken);
    if s.restarts[i].token == s.sessionToken {
      RestartsAfterStart(t, true, online);
    }
  }

  lemma StepKeepsRestartInv(s: State, e: Event)
    requires RestartInv(s) && Enabled(s, e)
    ensures RestartInv(Step(s, e))
  {
    match e {
      case RestartDue(i, online) => RestartsAfterFiring(s, i, online);
      case UserStart(online) => RestartsAfterStart(s, false, online);
      case UserStop => NoneDueLater(s.restarts, s.sessionToken + 1);
      case IncompatibleAnswer(_) =>
        var t := Step(s, e);
        assert s.incompatibleRetryCount < 1 ==> t.restarts[..|s.restarts|] == s.restarts;
      case _ =>
    }
  }

  // Between two starts by the user there is at most one automatic restart.
  lemma {:induction false} AtMostOneRestart(s: State, run: seq<Event>)
    requires RestartInv(s) && Run(s, run).Some?
    ensures RestartInv(Run(s, run).value) && Run(s, run).value.automatic <= 1
    decreases |run|
  {
    if run != [] {
      StepKeepsRestartInv(s, run[0]);
      AtMostOneRestart(Step(s, run[0]), run[1..]);
    }
  }

  // --- Start waiters -----------------------------------------------------------------------

  ghost predicate WaiterOk(s: State, i: nat)
    requires i < |s.waiters|
  {
    var w := s.waiters[i];
    && (w.timerLive <==> w.result.None?)
    && (w.timerLive ==> i in s.startWaiters && s.clock <= w.deadline)
    && w.deadline <= s.clock + START_TIMEOUT
  }

  ghost predicate WaitersOk(s: State) { forall i | 0 <= i < |s.waiters| :: WaiterOk(s, i) }

  lemma StepKeepsWaiters(s: State, e: Event)
    requires WaitersOk(s) && Enabled(s, e)
    ensures WaitersOk(Step(s, e))
    ensures forall i | 0 <= i < |s.waiters| :: s.waiters[i].result.Some? ==>
              i < |Step(s, e).waiters| && Step(s, e).waiters[i].result == s.waiters[i].result
  {
    var t := Step(s, e);
    forall i | 0 <= i < |t.waiters|
      ensures WaiterOk(t, i)
    {
      if i < |s.waiters| {
        assert WaiterOk(s, i);
      }
    }
    forall i | 0 <= i < |s.waiters| && s.waiters[i].result.Some?
      ensures i < |t.waiters| && t.waiters[i].result == s.waiters[i].result
    {
      assert WaiterOk(s, i);
    }
  }

  // Every start's promise has settled once its 2.5 s are over, and never changes then.
  lemma {:induction false} WaitersSettle(s: State, run: seq<Event>)
    requires WaitersOk(s) && Run(s, run).Some?
    ensures var t := Run(s, run).value;
            && WaitersOk(t)
            && (forall i | 0 <= i < |t.waiters| :: t.waiters[i].deadline < t.clock ==> t.waiters[i].result.Some?)
            && (forall i | 0 <= i < |s.waiters| && s.waiters[i].result.Some? ::
                  i < |t.waiters| && t.waiters[i].result == s.waiters[i].result)
    decreases |run|
  {
    if run == [] {
      forall i | 0 <= i < |s.waiters|
        ensures s.waiters[i].deadline < s.clock ==> s.waiters[i].result.Some?
      {
        assert WaiterOk(s, i);
      }
    } else {
      StepKeepsWaiters(s, run[0]);
      WaitersSettle(Step(s, run[0]), run[1..]);
    }
  }

  // All of it holds of the runs of a new session.
  lemma NewSession(run: seq<Event>, s: State)
    requires Run(Initial(), run) == Some(s)
    ensures RestartInv(s) && s.automatic <= 1 && WaitersOk(s)
    ensures forall i | 0 <= i < |s.waiters| :: s.waiters[i].deadline < s.clock ==> s.waiters[i].result.Some?
  {
    AtMostOneRestart(Initial(), run);
    WaitersSettle(Initial(), run);
  }

  // --- What a start's promise tells --------------------------------------------------------------

  // The video came, for the start that is current.
  predicate Succeeds(s: State, e: Event) { e.VideoTrack? && e.token == s.sessionToken }

  // The waiter's own timeout, a stop or a start, or a failure.
  predicate Fails(s: State, e: Event, i: nat) {
    match e
    case WaiterTimeout(n) => n == i
    case UserStart(_) => true
    case UserStop => true
    case RestartDue(n, _) => n < |s.restarts| && s.restarts[n].token == s.sessionToken
    case ConnectionLost(token) => token == s.sessionToken
    case SocketClosed(token) => token == s.sessionToken
    case SignalError(_) => true
    case IncompatibleAnswer(_) => true
    case Fetched(_, ok) => !ok
    case _ => false
  }

  lemma SettledBy(s: State, e: Event, i: nat)
    requires WaitersOk(s) && Enabled(s, e) && i < |s.waiters| && s.waiters[i].result.None?
    ensures i < |Step(s, e).waiters|
    ensures Step(s, e).waiters[i].result
            == if Succeeds(s, e) then Some(true) else if Fails(s, e, i) then Some(false) else None
  {
    assert WaiterOk(s, i);
  }

  // The first of those events decides.
  ghost function Verdict(s: State, run: seq<Event>, i: nat): Option<bool>
    decreases |run|
  {
    if run == [] || !Enabled(s, run[0]) then None
    else if Succeeds(s, run[0]) then Some(true)
    else if Fails(s, run[0], i) then Some(false)
    else Verdict(Step(s, run[0]), run[1..], i)
  }

  // Over any run a start's promise resolves true exactly when the first event that settles it is a video
  // track of the current start, and false exactly when it is one of the others.
  lemma {:induction false} PromisesTellExactly(s: State, run: seq<Event>, i: nat)
    requires WaitersOk(s) && Run(s, run).Some? && i < |s.waiters| && s.waiters[i].result.None?
    ensures i < |Run(s, run).value.waiters| && Run(s, run).value.waiters[i].result == Verdict(s, run, i)
    decreases |run|
  {
    if run != [] {
      var t := Step(s, run[0]);
      SettledBy(s, run[0], i);
      StepKeepsWaiters(s, run[0]);
      WaitersSettle(t, run[1..]);
      if t.waiters[i].result.None? {
        PromisesTellExactly(t, run[1..], i);
      }
    }
  }

  // A fetch that succeeds makes such a promise, with 2.5 s to go, and nothing else does.
  lemma PromisesAreMade(s: State, e: Event)
    requires WaitersOk(s) && Enabled(s, e)
    ensures var t := Step(s, e);
            if e.Fetched? && e.ok then
              |t.waiters| == |s.waiters| + 1 && t.waiters[|s.waiters|] == Waiter(s.clock + 2500, true, None)
            else |t.waiters| == |s.waiters|
  {
  }

  // --- When the automatic restart happens --------------------------------------------------------

  // An incompatible answer brings a restart half a second later if and only if none was used since the
  // last start by the user.
  lemma RestartIsMadeExactly(s: State, token: nat)
    requires RestartInv(s) && Enabled(s, IncompatibleAnswer(token))
    ensures var t := Step(s, IncompatibleAnswer(token));
            t.restarts == s.restarts + if s.incompatibleRetryCount == 0 then [Restart(token, s.clock + 500, true)] else []
  {
  }

  lemma UserStartAllowsRestart(s: State, online: bool)
    requires RestartInv(s)
    ensures Step(s, UserStart(online)).incompatibleRetryCount == 0
  {
  }

  // Any start fetches exactly when the camera is online; a restart is one exactly when its token is current.
  lemma StartsFetchExactly(s: State, e: Event)
    requires RestartInv(s) && Enabled(s, e)
    ensures var t := Step(s, e);
            |t.starts| == |s.starts|
            + if (e.UserStart? && e.online)
                 || (e.RestartDue? && e.online && s.restarts[e.restart].token == s.sessionToken) then 1 else 0
    ensures var t := Step(s, e);
            |t.starts| > |s.starts| ==> t.starts[|s.starts|] == Start(t.sessionToken, true)
  {
  }

  // --- The peer connection -----------------------------------------------------------------

  // Some event of the run was a start, a stop, or a restart that passed its guard.
  ghost predicate Superseded(s: State, run: seq<Event>)
    decreases |run|
  {
    run != [] && Enabled(s, run[0]) && (Restarts(s, run[0]) || Superseded(Step(s, run[0]), run[1..]))
  }

  lemma {:induction false} TokenStaysExactly(s: State, run: seq<Event>)
    requires Run(s, run).Some?
    ensures Run(s, run).value.sessionToken == s.sessionToken <==> !Superseded(s, run)
    decreases |run|
  {
    if run != [] {
      TokensRise(s, run[0]);
      if Restarts(s, run[0]) {
        GuardsStayShut(Step(s, run[0]), run[1..], s.sessionToken);
      } else {
        TokenStaysExactly(Step(s, run[0]), run[1..]);
      }
    }
  }

  lemma {:induction false} StartsKeepTheirToken(s: State, run: seq<Event>, i: nat)
    requires Run(s, run).Some? && i < |s.starts|
    ensures i < |Run(s, run).value.starts| && Run(s, run).value.starts[i].token == s.starts[i].token
    decreases |run|
  {
    if run != [] {
      StartsKeepTheirToken(Step(s, run[0]), run[1..], i);
    }
  }

  // No guard stands between a start's fetch and its _connect. Whatever happens between a start, by the user
  // or automatic, and the answer to its fetch: the connection made then belongs to the current session
  // exactly when there was no start, stop or effective restart in between.
  lemma FetchConnects(s: State, isRetry: bool, run: seq<Event>, u: State)
    requires var i := |s.starts|;
             Run(StartStep(s, isRetry, true), run) == Some(u) && Enabled(u, Fetched(i, true))
    ensures var v := Step(u, Fetched(|s.starts|, true));
            && v.connection == Some(StartStep(s, isRetry, true).sessionToken)
            && (v.connection == Some(v.sessionToken) <==> !Superseded(StartStep(s, isRetry, true), run))
  {
    var t := StartStep(s, isRetry, true);
    TokenStaysExactly(t, run);
    StartsKeepTheirToken(t, run, |s.starts|);
  }

  // So a slow fetch of a superseded start can replace the live connection.
  lemma SlowFetchReplacesConnection()
    ensures var s := Run(Initial(), [UserStart(true), UserStart(true), Fetched(1, true)]);
            && s.Some? && s.value.connection == Some(4) && s.value.sessionToken == 4
            && Enabled(s.value, Fetched(0, true))
            && Step(s.value, Fetched(0, true)).connection == Some(2)
  {
    var run := [UserStart(true), UserStart(true), Fetched(1, true)];
    var s1 := Step(Initial(), run[0]);
    var s2 := Step(s1, run[1]);
    assert s2.starts == [Start(2, true), Start(4, true)];
    var s3 := Step(s2, run[2]);
    assert s3.starts == [Start(2, true), Start(4, false)];
    assert run[1..] == [run[1], run[2]] && run[1..][1..] == [run[2]] && [run[2]][1..] == [];
    assert Run(s3, []) == Some(s3);
    assert Run(s2, [run[2]]) == Some(s3);
    assert Run(s1, run[1..]) == Some(s3);
  }

  ghost predicate Inv(s: State) { RestartInv(s) && WaitersOk(s) }

  lemma StepKeepsInv(s: State, e: Event)
    requires Inv(s) && Enabled(s, e)
    ensures Inv(Step(s, e))
  {
    StepKeepsRestartInv(s, e);
    StepKeepsWaiters(s, e);
  }

  lemma StartKeepsInv(s: State, isRetry: bool, online: bool)
    requires Inv(s) && (isRetry ==> s.automatic + 1 <= s.incompatibleRetryCount)
    ensures Inv(StartStep(s, isRetry, online)) && AllSettled(StartStep(s, isRetry, online).waiters)
    ensures Told(s.waiters, StartStep(s, isRetry, online).waiters, false)
  {
    RestartsAfterStart(s, isRetry, online);
    StepKeepsWaiters(s, UserStart(online));
    StoppingSettlesAll(s);
    var t, u := StartStep(s, isRetry, online), StartStep(s, false, online);
    forall i | 0 <= i < |t.waiters|
      ensures WaiterOk(t, i)
    {
      assert WaiterOk(u, i);
    }
  }

  lemma FiringKeepsInv(s: State, i: nat)
    requires Inv(s) && i < |s.restarts| && s.restarts[i].live
    ensures var t := s.(restarts := s.restarts[i := s.restarts[i].(live := false)]);
            Inv(t) && (s.restarts[i].token == s.sessionToken ==> t.automatic + 1 <= t.incompatibleRetryCount)
  {
    var t := s.(restarts := s.restarts[i := s.restarts[i].(live := false)]);
    FiringOne(s.restarts, i, s.sessionToken);
    forall n | 0 <= n < |t.waiters|
      ensures WaiterOk(t, n)
    {
      assert WaiterOk(s, n);
    }
  }

  // Resolving the list settles every promise there is: one with a live timer is always on it.
  predicate AllSettled(waiters: seq<Waiter>) { forall i | 0 <= i < |waiters| :: waiters[i].result.Some? }

  // Promises open before hold the value now.
  predicate Told(before: seq<Waiter>, after: seq<Waiter>, value: bool) {
    |before| <= |after| && forall i | 0 <= i < |before| :: before[i].result.None? ==> after[i].result == Some(value)
  }

  lemma ResolvingSettlesAll(s: State, value: bool)
    requires WaitersOk(s)
    ensures AllSettled(ResolveAll(s, value).waiters) && Told(s.waiters, ResolveAll(s, value).waiters, value)
  {
    forall i | 0 <= i < |s.waiters|
      ensures ResolveAll(s, value).waiters[i].result.Some?
      ensures s.waiters[i].result.None? ==> ResolveAll(s, value).waiters[i].result == Some(value)
    {
      assert WaiterOk(s, i);
    }
  }

  lemma FailedFetchSettlesAll(s: State, i: nat)
    requires WaitersOk(s) && i < |s.starts|
    ensures AllSettled(FetchedStep(s, i, false).waiters) && Told(s.waiters, FetchedStep(s, i, false).waiters, false)
  {
    var t := s.(starts := s.starts[i := s.starts[i].(fetching := false)]);
    forall n | 0 <= n < |t.waiters|
      ensures WaiterOk(t, n)
    {
      assert WaiterOk(s, n);
    }
    ResolvingSettlesAll(t, false);
  }

  lemma StoppingSettlesAll(s: State)
    requires WaitersOk(s)
    ensures AllSettled(StopStep(s).waiters) && Told(s.waiters, StopStep(s).waiters, false)
  {
    var t := s.(sessionToken := s.sessionToken + 1, connection := None);
    forall i | 0 <= i < |t.waiters|
      ensures WaiterOk(t, i)
    {
      assert WaiterOk(s, i);
    }
    ResolvingSettlesAll(t, false);
  }

  // --- What a superseded start can still do --------------------------------------------------

  // The token of the start an event comes from.
  predicate Stale(s: State, e: Event) {
    match e
    case VideoTrack(t) => t < s.sessionToken
    case ConnectionLost(t) => t < s.sessionToken
    case SocketClosed(t) => t < s.sessionToken
    case SignalError(t) => t < s.sessionToken
    case IncompatibleAnswer(t) => t < s.sessionToken
    case Fetched(i, _) => i < |s.starts| && s.starts[i].token < s.sessionToken
    case RestartDue(i, _) => i < |s.restarts| && s.restarts[i].token < s.sessionToken
    case _ => false
  }

  // The current session's token, connection, promises and automatic restart.
  predicate Undisturbed(s: State, t: State) {
    && t.sessionToken == s.sessionToken && t.connection == s.connection && t.waiters == s.waiters
    && t.incompatibleRetryCount == s.incompatibleRetryCount
  }

  lemma SettledStay(s: State, value: bool)
    requires WaitersOk(s)
    ensures ResolveAll(s, value).waiters == s.waiters <==> AllSettled(s.waiters)
  {
    ResolvingSettlesAll(s, value);
    forall i | 0 <= i < |s.waiters| && s.waiters[i].result.Some?
      ensures ResolveAll(s, value).waiters[i] == s.waiters[i]
    {
      assert WaiterOk(s, i);
    }
  }

  // An event of a superseded start leaves the current session alone exactly when its guard stops it, or
  // when it is a late error or failed fetch and no promise is open, and for a late incompatible answer also
  // the automatic restart is used up already. A late successful fetch never leaves it alone.
  lemma StaleEventsDisturbExactly(s: State, e: Event)
    requires Inv(s) && Enabled(s, e) && Stale(s, e)
    ensures Undisturbed(s, Step(s, e)) <==>
            match e
            case SignalError(_) => AllSettled(s.waiters)
            case IncompatibleAnswer(_) => AllSettled(s.waiters) && s.incompatibleRetryCount >= 1
            case Fetched(_, ok) => !ok && AllSettled(s.waiters)
            case _ => true
  {
    match e
    case SignalError(_) => SettledStay(s, false);
    case IncompatibleAnswer(_) => SettledStay(s, false);
    case Fetched(i, ok) =>
      if !ok {
        StaleFailedFetch(s, i);
      } else {
        assert |Step(s, e).waiters| == |s.waiters| + 1;
      }
    case _ =>
  }

  lemma StaleFailedFetch(s: State, i: nat)
    requires WaitersOk(s) && i < |s.starts|
    ensures FetchedStep(s, i, false).waiters == s.waiters <==> AllSettled(s.waiters)
  {
    var t := s.(starts := s.starts[i := s.starts[i].(fetching := false)]);
    forall n | 0 <= n < |t.waiters|
      ensures WaiterOk(t, n)
    {
      assert WaiterOk(s, n);
    }
    SettledStay(t, false);
  }

  // A late incompatible answer uses the automatic restart up without making one that is due.
  lemma StaleAnswerWastesRestart(s: State, token: nat)
    requires Inv(s) && token < s.sessionToken && s.incompatibleRetryCount == 0
    ensures var t := Step(s, IncompatibleAnswer(token));
            t.incompatibleRetryCount == 1 && t.automatic == 0 && Due(t.restarts, t.sessionToken) == 0
  {
    var t := Step(s, IncompatibleAnswer(token));
    assert t.restarts[..|s.restarts|] == s.restarts;
  }

  // --- The object --------------------------------------------------------------------------

  class Session {
    var clock: nat
    var sessionToken: nat
    var incompatibleRetryCount: nat
    var connection: Option<nat>
    var starts: seq<Start>
    var restarts: seq<Restart>
    var waiters: seq<Waiter>
    var startWaiters: seq<nat>
    ghost var automatic: nat

    ghost function View(): State
      reads this
    {
      State(clock, sessionToken, incompatibleRetryCount, connection, starts, restarts, waiters, startWaiters, automatic)
    }

    ghost predicate Valid()
      reads this
    {
      Inv(View())
    }

    constructor ()
      ensures View() == Initial() && Valid()
    {
      clock, sessionToken, incompatibleRetryCount, connection := 0, 0, 0, None;
      starts, restarts, waiters, startWaiters, automatic := [], [], [], [], 0;
    }

    method ResolveStartWaiters(value: bool)
      modifies this`waiters, this`startWaiters
      ensures View() == ResolveAll(old(View()), value)
    {
      var list := startWaiters;
      startWaiters := [];
      var before := waiters;
      for n := 0 to |list|
        invariant startWaiters == [] && |waiters| == |before|
        invariant forall i | 0 <= i < |before| ::
                    waiters[i] == if i in list[..n] then Resolved(before[i], value) else before[i]
      {
        if list[n] < |waiters| {
          waiters := waiters[list[n] := Resolved(waiters[list[n]], value)];
        }
        assert list[..n + 1] == list[..n] + [list[n]];
      }
      assert list[..|list|] == list;
    }

    method Stop()
      requires Valid()
      modifies this
      ensures View() == Step(old(View()), UserStop) && Valid()
      ensures AllSettled(waiters) && Told(old(waiters), waiters, false) && connection == None
    {
      StepKeepsInv(View(), UserStop);
      StoppingSettlesAll(View());
      sessionToken := sessionToken + 1;
      connection := None;
      ResolveStartWaiters(false);
    }

    // start() up to its fetch. No earlier callback passes its guard afterwards, and every earlier waiter is
    // settled.
    method BeginStart(isRetry: bool, online: bool)
      requires Valid() && (isRetry ==> automatic + 1 <= incompatibleRetryCount)
      modifies this
      ensures View() == StartStep(old(View()), isRetry, online) && Valid()
      ensures old(sessionToken) < sessionToken && AllSettled(waiters) && Told(old(waiters), waiters, false)
    {
      StartKeepsInv(View(), isRetry, online);
      Stop();
      if !isRetry {
        incompatibleRetryCount := 0;
      }
      automatic := if isRetry then automatic + 1 else 0;
      sessionToken := sessionToken + 1;
      if online {
        starts := starts + [Start(sessionToken, true)];
      } else {
        ResolveStartWaiters(false);
      }
    }

    // start() after its fetch: _connect and _waitForStartResult, or the catch.
    method OnFetched(i: nat, ok: bool)
      requires Valid() && Enabled(View(), Fetched(i, ok))
      modifies this
      ensures View() == Step(old(View()), Fetched(i, ok)) && Valid()
      ensures ok ==> connection == Some(starts[i].token) && |waiters| == |old(waiters)| + 1 && waiters[|old(waiters)|].timerLive
      ensures !ok ==> AllSettled(waiters) && Told(old(waiters), waiters, false)
    {
      if !ok {
        FailedFetchSettlesAll(View(), i);
      }
      StepKeepsInv(View(), Fetched(i, ok));
      starts := starts[i := starts[i].(fetching := false)];
      if ok {
        connection := Some(starts[i].token);
        startWaiters := startWaiters + [|waiters|];
        waiters := waiters + [Waiter(clock + START_TIMEOUT, true, None)];
      } else {
        ResolveStartWaiters(false);
      }
    }

    method OnVideoTrack(token: nat)
      requires Valid()
      modifies this
      ensures View() == Step(old(View()), VideoTrack(token)) && Valid()
      ensures token == sessionToken ==> AllSettled(waiters) && Told(old(waiters), waiters, true)
    {
      StepKeepsInv(View(), VideoTrack(token));
      ResolvingSettlesAll(View(), true);
      if token != sessionToken {
        return;
      }
      ResolveStartWaiters(true);
    }

    method OnSocketClosed(token: nat)
      requires Valid()
      modifies this
      ensures View() == Step(old(View()), SocketClosed(token)) && Valid()
      ensures token == sessionToken ==> AllSettled(waiters) && Told(old(waiters), waiters, false)
    {
      StepKeepsInv(View(), SocketClosed(token));
      ResolvingSettlesAll(View(), false);
      if token != sessionToken {
        return;
      }
      ResolveStartWaiters(false);
    }

    method OnConnectionLost(token: nat)
      requires Valid()
      modifies this
      ensures View() == Step(old(View()), ConnectionLost(token)) && Valid()
      ensures token == sessionToken ==> AllSettled(waiters) && Told(old(waiters), waiters, false)
    {
      StepKeepsInv(View(), ConnectionLost(token));
      ResolvingSettlesAll(View(), false);
      if token != sessionToken {
        return;
      }
      ResolveStartWaiters(false);
    }

    method OnSignalError(token: nat)
      requires Valid() && Enabled(View(), SignalError(token))
      modifies this
      ensures View() == Step(old(View()), SignalError(token)) && Valid()
      ensures AllSettled(waiters) && Told(old(waiters), waiters, false)
    {
      StepKeepsInv(View(), SignalError(token));
      ResolvingSettlesAll(View(), false);
      ResolveStartWaiters(false);
    }

    // setRemoteDescription failed with "incompatible send direction".
    method OnIncompatibleAnswer(token: nat)
      requires Valid() && Enabled(View(), IncompatibleAnswer(token))
      modifies this
      ensures View() == Step(old(View()), IncompatibleAnswer(token)) && Valid()
      ensures AllSettled(waiters) && Told(old(waiters), waiters, false) && incompatibleRetryCount <= 1
    {
      StepKeepsInv(View(), IncompatibleAnswer(token));
      ResolvingSettlesAll(View(), false);
      ResolveStartWaiters(false);
      if incompatibleRetryCount < 1 {
        incompatibleRetryCount := incompatibleRetryCount + 1;
        restarts := restarts + [Restart(token, clock + RESTART_DELAY, true)];
      }
    }

    method OnRestartDue(i: nat, online: bool)
      requires Valid() && Enabled(View(), RestartDue(i, online))
      modifies this
      ensures View() == Step(old(View()), RestartDue(i, online)) && Valid()
      ensures automatic <= 1
    {
      FiringKeepsInv(View(), i);
      restarts := restarts[i := restarts[i].(live := false)];
      if restarts[i].token != sessionToken {
        return;
      }
      BeginStart(true, online);
    }

    method OnWaiterTimeout(i: nat)
      requires Valid() && Enabled(View(), WaiterTimeout(i))
      modifies this
      ensures View() == Step(old(View()), WaiterTimeout(i)) && Valid()
      ensures i < |waiters| && waiters[i].result.Some?
    {
      StepKeepsInv(View(), WaiterTimeout(i));
      waiters := waiters[i := Resolved(waiters[i], false)];
    }
  }
}
