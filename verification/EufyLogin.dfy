/** The Eufy cloud login of eufy/server.js: captcha and 2FA challenges answered from the page, the connected
    flag and the timer that gives a silent login up. */
module EufyLogin {
  import opened JsText
  import opened History

  const FAIL_AFTER: nat := 5000

  datatype Status = Connecting | Captcha | Tfa | Connected | Error

  datatype Challenge = CaptchaChallenge(id: string, image: string) | TfaChallenge

  // What eufy.connect is called with.
  datatype Answer = CaptchaAnswer(id: Option<string>, code: string) | TfaAnswer(code: string)

  // An answer given to the cloud, and how many challenges had come by then.
  datatype Submission = Submission(answer: Answer, after: nat)

  datatype Reply = EmptyCode | NoPendingChallenge | Submitted

  datatype State = State(
    clock: nat,
    connected: bool,
    status: Status,
    captchaId: Option<string>,
    captchaImage: Option<string>,
    failAt: Option<nat>,
    challenges: seq<Challenge>,
    submissions: seq<Submission>)

  datatype Event =
    | TfaRequest
    | CaptchaRequest(id: string, image: string)
    | Connect
    | Close
    | Submit(code: string)
    | FailTimer
    | Tick(ms: nat)

  // As initEufy leaves it: the first login attempt is under way.
  function Initial(): State { State(0, false, Connecting, None, None, Some(FAIL_AFTER), [], []) }

  predicate Enabled(s: State, e: Event) {
    match e
    case FailTimer => s.failAt.Some? && s.failAt.value <= s.clock
    case Tick(ms) => s.failAt.Some? ==> s.clock + ms <= s.failAt.value
    case _ => true
  }

  predicate Pending(s: State) { s.status.Captcha? || s.status.Tfa? }

  const DATA: string := "data:"
  const PNG: string := "data:image/png;base64,"

  // normalizeCaptcha
  function Normalized(captcha: string): string {
    if DATA <= captcha then captcha else PNG + captcha
  }

  function ReplyTo(s: State, code: string): Reply {
    if code == "" then EmptyCode else if Pending(s) then Submitted else NoPendingChallenge
  }

  function SubmitStep(s: State, code: string): State {
    if code == "" then s
    else if s.status.Captcha? then
      s.(status := Connecting, failAt := Some(s.clock + FAIL_AFTER),
         submissions := s.submissions
                        + [Submission(CaptchaAnswer(s.captchaId, code), |s.challenges|)])
    else if s.status.Tfa? then
      s.(status := Connecting, failAt := Some(s.clock + FAIL_AFTER),
         submissions := s.submissions + [Submission(TfaAnswer(code), |s.challenges|)])
    else s
  }

  function Step(s: State, e: Event): State {
    match e
    case TfaRequest => s.(failAt := None, status := Tfa, challenges := s.challenges + [TfaChallenge])
    case CaptchaRequest(id, image) =>
      s.(failAt := None, status := Captcha, captchaId := Some(id), captchaImage := Some(Normalized(image)),
         challenges := s.challenges + [CaptchaChallenge(id, image)])
    case Connect => s.(connected := true, failAt := None, status := Connected, captchaImage := None)
    case Close => s.(connected := false, status := if s.status.Connected? then Connecting else s.status)
    case Submit(code) => SubmitStep(s, code)
    case FailTimer =>
      s.(failAt := None, status := if !s.connected && s.status.Connecting? then Error else s.status)
    case Tick(ms) => s.(clock := s.clock + ms)
  }

  ghost function Run(s: State, run: seq<Event>): Option<State>
    decreases |run|
  {
    if run == [] then Some(s)
    else if Enabled(s, run[0]) then Run(Step(s, run[0]), run[1..])
    else None
  }

  // --- Answers and challenges ----------------------------------------------------------------

  predicate Fits(answer: Answer, challenge: Challenge) {
    match answer
    case CaptchaAnswer(id, _) => challenge.CaptchaChallenge? && id == Some(challenge.id)
    case TfaAnswer(_) => challenge.TfaChallenge?
  }

  // Each submission answered the challenge that was then the latest, and no two the same one.
  ghost predicate Paired(s: State) {
    && (forall i | 0 <= i < |s.submissions| ::
          && 0 < s.submissions[i].after <= |s.challenges|
          && Fits(s.submissions[i].answer, s.challenges[s.submissions[i].after - 1]))
    && (forall i, j | 0 <= i < j < |s.submissions| :: s.submissions[i].after < s.submissions[j].after)
  }

  ghost predicate Inv(s: State) {
    && Paired(s)
    && (s.status.Connected? ==> s.connected && s.failAt.None? && s.captchaImage.None?)
    && (s.status.Error? ==> !s.connected)
    && (Pending(s) ==>
          && |s.challenges| > 0 && s.failAt.None?
          && (forall i | 0 <= i < |s.submissions| :: s.submissions[i].after < |s.challenges|))
    // The challenge shown on the page is the latest one.
    && (s.status.Captcha? ==>
          var last := s.challenges[|s.challenges| - 1];
          && last.CaptchaChallenge? && s.captchaId == Some(last.id) && s.captchaImage == Some(Normalized(last.image)))
    && (s.status.Tfa? ==> s.challenges[|s.challenges| - 1].TfaChallenge?)
    && (s.failAt.Some? ==> s.clock <= s.failAt.value <= s.clock + FAIL_AFTER)
  }

  // A further challenge, and a further answer to the latest one.
  lemma PairedMoreChallenges(s: State, challenge: Challenge)
    requires Paired(s)
    ensures Paired(s.(challenges := s.challenges + [challenge]))
  {
  }

  lemma PairedMoreAnswers(s: State, answer: Answer)
    requires Paired(s) && |s.challenges| > 0 && Fits(answer, s.challenges[|s.challenges| - 1])
    requires forall i | 0 <= i < |s.submissions| :: s.submissions[i].after < |s.challenges|
    ensures Paired(s.(submissions := s.submissions + [Submission(answer, |s.challenges|)]))
  {
  }

  lemma SamePairs(s: State, t: State)
    requires Paired(s) && s.challenges == t.challenges && s.submissions == t.submissions
    ensures Paired(t)
  {
  }

  lemma StepKeepsPaired(s: State, e: Event)
    requires Inv(s) && Enabled(s, e)
    ensures Paired(Step(s, e))
  {
    match e
    case TfaRequest =>
      PairedMoreChallenges(s, TfaChallenge);
      SamePairs(s.(challenges := s.challenges + [TfaChallenge]), Step(s, e));
    case CaptchaRequest(id, image) =>
      PairedMoreChallenges(s, CaptchaChallenge(id, image));
      SamePairs(s.(challenges := s.challenges + [CaptchaChallenge(id, image)]), Step(s, e));
    case Submit(code) =>
      if code != "" && Pending(s) {
        var answer := if s.status.Captcha? then CaptchaAnswer(s.captchaId, code) else TfaAnswer(code);
        PairedMoreAnswers(s, answer);
        SamePairs(s.(submissions := s.submissions + [Submission(answer, |s.challenges|)]), Step(s, e));
      }
    case _ => SamePairs(s, Step(s, e));
  }

  lemma StepKeepsInv(s: State, e: Event)
    requires Inv(s) && Enabled(s, e)
    ensures Inv(Step(s, e))
  {
    StepKeepsPaired(s, e);
  }

  lemma {:induction false} RunKeepsInv(s: State, run: seq<Event>)
    requires Inv(s) && Run(s, run).Some?
    ensures Inv(Run(s, run).value)
    decreases |run|
  {
    if run != [] {
      StepKeepsInv(s, run[0]);
      RunKeepsInv(Step(s, run[0]), run[1..]);
    }
  }

  lemma {:induction false} RisingIsShort(submissions: seq<Submission>, n: nat)
    requires forall i | 0 <= i < |submissions| :: 0 < submissions[i].after <= n
    requires forall i, j | 0 <= i < j < |submissions| :: submissions[i].after < submissions[j].after
    ensures |submissions| <= n
    decreases |submissions|
  {
    if submissions != [] {
      var last := |submissions| - 1;
      RisingIsShort(submissions[..last], submissions[last].after - 1);
    }
  }

  // In every run: each answer went to the challenge that was the latest when it was given, no challenge was
  // answered twice, and so answers never outnumber challenges.
  lemma AnswersMatchChallenges(run: seq<Event>)
    requires Run(Initial(), run).Some?
    ensures var t := Run(Initial(), run).value;
            && Inv(t) && Paired(t)
            && (t.status.Connected? ==> t.connected) && (t.status.Error? ==> !t.connected)
            && |t.submissions| + (if Pending(t) then 1 else 0) <= |t.challenges|
  {
    RunKeepsInv(Initial(), run);
    var t := Run(Initial(), run).value;
    RisingIsShort(t.submissions, if Pending(t) then |t.challenges| - 1 else |t.challenges|);
  }

  // --- Waiting for the cloud -----------------------------------------------------------------

  // The page says "connecting" and nothing will ever change that but the cloud.
  predicate Silent(s: State) { s.status.Connecting? && s.failAt.None? }

  // A login that was connected and closed, or one whose timer ran out on an open connection.
  predicate FallsSilent(s: State, e: Event) {
    (e.Close? && s.status.Connected?) || (e.FailTimer? && s.status.Connecting? && s.connected)
  }

  lemma SilenceBegins(s: State, e: Event)
    requires Inv(s) && Enabled(s, e) && !Silent(s)
    ensures Silent(Step(s, e)) <==> FallsSilent(s, e)
  {
  }

  // Until the first connection, every login attempt is given up or answered within FAIL_AFTER.
  lemma {:induction false} NeverSilentBeforeConnecting(s: State, run: seq<Event>)
    requires Inv(s) && !s.connected && !Silent(s) && Run(s, run).Some?
    requires forall i | 0 <= i < |run| :: !run[i].Connect?
    ensures var t := Run(s, run).value;
            !t.connected && (t.status.Connecting? ==> t.failAt.Some? && t.clock <= t.failAt.value <= t.clock + FAIL_AFTER)
    decreases |run|
  {
    if run != [] {
      StepKeepsInv(s, run[0]);
      SilenceBegins(s, run[0]);
      NeverSilentBeforeConnecting(Step(s, run[0]), run[1..]);
    }
  }

  predicate FromCloud(e: Event) { e.TfaRequest? || e.CaptchaRequest? || e.Connect? }

  // Once silent, the page stays so until the cloud speaks, whatever codes are entered and however long.
  lemma {:induction false} SilenceLasts(s: State, run: seq<Event>)
    requires Silent(s) && Run(s, run).Some? && forall i | 0 <= i < |run| :: !FromCloud(run[i])
    ensures Silent(Run(s, run).value)
    decreases |run|
  {
    if run != [] {
      SilenceLasts(Step(s, run[0]), run[1..]);
    }
  }

  // Both ways into silence happen.
  lemma ClosedLoginIsSilent()
    ensures var s := Run(Initial(), [Connect, Close]); s.Some? && Silent(s.value)
  {
    var s1 := Step(Initial(), Connect);
    var s2 := Step(s1, Close);
    assert [Connect, Close][1..] == [Close] && [Close][1..] == [];
    assert Run(s2, []) == Some(s2);
    assert Run(s1, [Close]) == Some(s2);
  }

  lemma ConnectedChallengeFallsSilent(id: string, image: string, code: string)
    requires code != ""
    ensures var s := Run(Initial(), [Connect, CaptchaRequest(id, image), Submit(code), Tick(FAIL_AFTER), FailTimer]);
            s.Some? && s.value.connected && Silent(s.value)
  {
    var run := [Connect, CaptchaRequest(id, image), Submit(code), Tick(FAIL_AFTER), FailTimer];
    var s1 := Step(Initial(), run[0]);
    var s2 := Step(s1, run[1]);
    var s3 := Step(s2, run[2]);
    var s4 := Step(s3, run[3]);
    var s5 := Step(s4, run[4]);
    assert run[4..][1..] == [] && run[3..][1..] == run[4..] && run[2..][1..] == run[3..] && run[1..][1..] == run[2..];
    assert Run(s5, []) == Some(s5);
    assert Run(s4, run[4..]) == Some(s5);
    assert Run(s3, run[3..]) == Some(s5);
    assert Run(s2, run[2..]) == Some(s5);
    assert Run(s1, run[1..]) == Some(s5);
  }

  // The first attempt is one of them.
  lemma FirstAttemptIsTimed(run: seq<Event>)
    requires Run(Initial(), run).Some? && forall i | 0 <= i < |run| :: !run[i].Connect?
    ensures Initial().failAt == Some(5000) && Initial().status.Connecting?
    ensures var t := Run(Initial(), run).value;
            t.status.Connecting? ==> t.failAt.Some? && t.clock <= t.failAt.value <= t.clock + 5000
  {
    NeverSilentBeforeConnecting(Initial(), run);
  }

  // --- What the run itself says ------------------------------------------------------------------

  function Connects(): Event -> bool { (e: Event) => e.Connect? }

  function Closes(): Event -> bool { (e: Event) => e.Close? }

  lemma {:induction false} ConnectedExactly(s: State, run: seq<Event>)
    requires Run(s, run).Some?
    ensures Run(s, run).value.connected <==> Since(run, Connects(), Closes()) || (s.connected && Never(run, Closes()))
    decreases |run|
  {
    if run != [] {
      SinceFirst(run, Connects(), Closes());
      ConnectedExactly(Step(s, run[0]), run[1..]);
      assert OnSince(run, 0, Connects(), Closes()) <==> run[0].Connect? && Never(run[1..], Closes());
    }
  }

  function Challenges(): Event -> bool { (e: Event) => e.TfaRequest? || e.CaptchaRequest? }

  function Settles(): Event -> bool { (e: Event) => e.Connect? || (e.Submit? && e.code != "") }

  // A challenge is pending exactly when one came that neither a code nor a connection has settled.
  lemma {:induction false} PendingExactly(s: State, run: seq<Event>)
    requires Run(s, run).Some?
    ensures Pending(Run(s, run).value) <==> Since(run, Challenges(), Settles()) || (Pending(s) && Never(run, Settles()))
    decreases |run|
  {
    if run != [] {
      SinceFirst(run, Challenges(), Settles());
      PendingExactly(Step(s, run[0]), run[1..]);
      assert OnSince(run, 0, Challenges(), Settles())
             <==> (run[0].TfaRequest? || run[0].CaptchaRequest?) && Never(run[1..], Settles());
    }
  }

  // The challenges of a run, and the codes that answered them.
  function Asked(run: seq<Event>): seq<Challenge> {
    if run == [] then []
    else
      match run[0]
      case TfaRequest => [TfaChallenge] + Asked(run[1..])
      case CaptchaRequest(id, image) => [CaptchaChallenge(id, image)] + Asked(run[1..])
      case _ => Asked(run[1..])
  }

  ghost function Entered(s: State, run: seq<Event>): seq<string>
    decreases |run|
  {
    if run == [] || !Enabled(s, run[0]) then []
    else
      (if run[0].Submit? && run[0].code != "" && Pending(s) then [run[0].code] else [])
      + Entered(Step(s, run[0]), run[1..])
  }

  function CodesOf(submissions: seq<Submission>): seq<string> {
    seq(|submissions|, i requires 0 <= i < |submissions| => submissions[i].answer.code)
  }

  lemma {:induction false} ChallengesAsAsked(s: State, run: seq<Event>)
    requires Run(s, run).Some?
    ensures Run(s, run).value.challenges == s.challenges + Asked(run)
    decreases |run|
  {
    if run != [] {
      ChallengesAsAsked(Step(s, run[0]), run[1..]);
    }
  }

  lemma StepEnters(s: State, e: Event)
    requires Enabled(s, e)
    ensures CodesOf(Step(s, e).submissions)
            == CodesOf(s.submissions) + if e.Submit? && e.code != "" && Pending(s) then [e.code] else []
  {
  }

  // The cloud gets each code as it was typed, in order, and none that met no challenge.
  lemma {:induction false} CodesAsTyped(s: State, run: seq<Event>)
    requires Run(s, run).Some?
    ensures CodesOf(Run(s, run).value.submissions) == CodesOf(s.submissions) + Entered(s, run)
    decreases |run|
  {
    if run != [] {
      StepEnters(s, run[0]);
      CodesAsTyped(Step(s, run[0]), run[1..]);
    }
  }

  // A data URI stays; anything else is taken for bare base64 of a PNG.
  lemma NormalizedForm(captcha: string)
    ensures Normalized(captcha) == if "data:" <= captcha then captcha else "data:image/png;base64," + captcha
  {
  }

  lemma NormalizedTwice(captcha: string)
    ensures Normalized(Normalized(captcha)) == Normalized(captcha)
  {
    assert DATA <= PNG + captcha;
  }

  // --- The server's own state ----------------------------------------------------------------

  class Login {
    var clock: nat
    var connected: bool
    var status: Status
    var captchaId: Option<string>
    var captchaImage: Option<string>
    var failAt: Option<nat>
    ghost var challenges: seq<Challenge>
    ghost var submissions: seq<Submission>

    ghost function View(): State
      reads this
    {
      State(clock, connected, status, captchaId, captchaImage, failAt, challenges, submissions)
    }

    ghost predicate Valid()
      reads this
    {
      Inv(View())
    }

    constructor ()
      ensures View() == Initial() && Valid()
    {
      clock, connected, status, captchaId, captchaImage := 0, false, Connecting, None, None;
      failAt, challenges, submissions := Some(FAIL_AFTER), [], [];
    }

    method ArmLoginFailTimer()
      modifies this`failAt
      ensures failAt == Some(clock + FAIL_AFTER)
    {
      failAt := Some(clock + FAIL_AFTER);
    }

    // submitAuthCode up to its await of eufy.connect, which changes nothing here.
    method SubmitAuthCode(code: string) returns (reply: Reply)
      requires Valid()
      modifies this
      ensures View() == Step(old(View()), Submit(code)) && Valid()
      ensures reply == ReplyTo(old(View()), code)
      ensures reply.Submitted? ==>
                && |submissions| == |old(submissions)| + 1 && |challenges| > 0
                && Fits(submissions[|old(submissions)|].answer, challenges[|challenges| - 1])
                && submissions[|old(submissions)|].answer.code == code
                && !Silent(View()) && failAt == Some(clock + 5000)
      ensures reply.EmptyCode? <==> code == ""
      ensures reply.Submitted? <==> code != "" && old(Pending(View()))
      ensures !reply.Submitted? ==> View() == old(View())
    {
      StepKeepsInv(View(), Submit(code));
      if code == "" {
        return EmptyCode;
      }
      if status.Captcha? {
        var id := captchaId;
        status := Connecting;
        ArmLoginFailTimer();
        submissions := submissions + [Submission(CaptchaAnswer(id, code), |challenges|)];
        return Submitted;
      }
      if status.Tfa? {
        status := Connecting;
        ArmLoginFailTimer();
        submissions := submissions + [Submission(TfaAnswer(code), |challenges|)];
        return Submitted;
      }
      return NoPendingChallenge;
    }

    method OnFailTimer()
      requires Valid() && Enabled(View(), FailTimer)
      modifies this
      ensures View() == Step(old(View()), FailTimer) && Valid()
      ensures status.Error? ==> !connected
      ensures Silent(View()) <==> old(status.Connecting? && connected)
    {
      StepKeepsInv(View(), FailTimer);
      SilenceBegins(View(), FailTimer);
      failAt := None;
      if !connected && status.Connecting? {
        status := Error;
      }
    }

    method OnTfaRequest()
      requires Valid()
      modifies this
      ensures View() == Step(old(View()), TfaRequest) && Valid()
      ensures Pending(View()) && failAt.None? && forall i | 0 <= i < |submissions| :: submissions[i].after < |challenges|
    {
      StepKeepsInv(View(), TfaRequest);
      failAt := None;
      status := Tfa;
      challenges := challenges + [TfaChallenge];
    }

    method OnCaptchaRequest(id: string, captcha: string)
      requires Valid()
      modifies this
      ensures View() == Step(old(View()), CaptchaRequest(id, captcha)) && Valid()
      ensures Pending(View()) && failAt.None? && forall i | 0 <= i < |submissions| :: submissions[i].after < |challenges|
    {
      StepKeepsInv(View(), CaptchaRequest(id, captcha));
      failAt := None;
      status := Captcha;
      captchaId := Some(id);
      captchaImage := Some(Normalized(captcha));
      challenges := challenges + [CaptchaChallenge(id, captcha)];
    }

    method OnConnect()
      requires Valid()
      modifies this
      ensures View() == Step(old(View()), Connect) && Valid()
      ensures status.Connected? && connected && !Silent(View())
    {
      StepKeepsInv(View(), Connect);
      connected := true;
      failAt := None;
      status := Connected;
      captchaImage := None;
    }

    method OnClose()
      requires Valid()
      modifies this
      ensures View() == Step(old(View()), Close) && Valid()
      ensures !connected && (Silent(View()) <==> old(Silent(View()) || status.Connected?))
    {
      StepKeepsInv(View(), Close);
      connected := false;
      if status.Connected? {
        status := Connecting;
      }
    }
  }
}
