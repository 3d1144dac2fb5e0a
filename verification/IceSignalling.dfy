/** One signalling session of the browser's StreamSession: SDP answer and ICE candidate handling across its
    awaits, up to the session's stop. */
module IceSignalling {
  import opened JsText

  // An RTCIceCandidate, of which nothing matters here but which one it is.
  type Candidate = string

  // The peer connection's signalingState, as far as the handler looks at it.
  datatype Signaling = NoOffer | HaveLocalOffer | Stable

  // The answer handler: idle, awaiting setRemoteDescription, back from it, or awaiting addIceCandidate
  // for the queue's element before the given index.
  datatype Handler = Idle | Applying | Back(ok: bool) | Flushing(next: nat)

  datatype State = State(
    signaling: Signaling,
    remoteDescription: bool,
    hasRemoteDesc: bool,
    isApplyingRemoteAnswer: bool,
    pendingCandidates: seq<Candidate>,
    handler: Handler,
    // What has happened: candidates received, handed to addIceCandidate and dropped, answers applied,
    // and how much of the queue was handed over.
    received: seq<Candidate>,
    handed: seq<Candidate>,
    dropped: seq<Candidate>,
    applied: nat,
    flushed: nat)

  datatype Event =
    | OfferSet
    | AnswerArrives
    | DescriptionSettles(ok: bool)
    | AnswerResumes
    | FlushResumes(ok: bool)
    | CandidateArrives(c: Candidate)

  function Initial(): State {
    State(NoOffer, false, false, false, [], Idle, [], [], [], 0, 0)
  }

  predicate Enabled(s: State, e: Event) {
    match e
    case OfferSet => s.signaling.NoOffer?
    case DescriptionSettles(_) => s.handler.Applying?
    case AnswerResumes => s.handler.Back?
    case FlushResumes(_) => s.handler.Flushing?
    case _ => true
  }

  // for (const c of this.pendingCandidates): hand over the next one, or finish.
  function FlushFrom(s: State, next: nat): State {
    if next < |s.pendingCandidates| then
      s.(handed := s.handed + [s.pendingCandidates[next]], flushed := next + 1, handler := Flushing(next + 1))
    else s.(pendingCandidates := [], flushed := 0, isApplyingRemoteAnswer := false, handler := Idle)
  }

  function Step(s: State, e: Event): State
    requires Enabled(s, e)
  {
    match e
    case OfferSet => s.(signaling := HaveLocalOffer)
    case AnswerArrives =>
      if s.hasRemoteDesc || s.isApplyingRemoteAnswer || s.signaling != HaveLocalOffer then s
      else s.(isApplyingRemoteAnswer := true, handler := Applying)
    case DescriptionSettles(ok) =>
      if ok then s.(signaling := Stable, remoteDescription := true, applied := s.applied + 1, handler := Back(true))
      else s.(handler := Back(false))
    case AnswerResumes =>
      if s.handler.ok then FlushFrom(s.(hasRemoteDesc := true), 0)
      else s.(isApplyingRemoteAnswer := false, handler := Idle)
    case FlushResumes(ok) =>
      if ok then FlushFrom(s, s.handler.next)
      else s.(isApplyingRemoteAnswer := false, handler := Idle)
    case CandidateArrives(c) =>
      var t := s.(received := s.received + [c]);
      if !s.hasRemoteDesc then t.(pendingCandidates := s.pendingCandidates + [c])
      else if s.remoteDescription then t.(handed := s.handed + [c])
      else t.(dropped := s.dropped + [c])
  }

  // The state after a run from s, if each of its events can happen.
  ghost function Run(s: State, run: seq<Event>): Option<State>
    decreases |run|
  {
    if run == [] then Some(s)
    else if Enabled(s, run[0]) then Run(Step(s, run[0]), run[1..])
    else None
  }

  // The queue's part that has not been handed over.
  function Waiting(s: State): seq<Candidate>
    requires s.flushed <= |s.pendingCandidates|
  {
    s.pendingCandidates[s.flushed..]
  }

  ghost predicate Phases(s: State) {
    && (s.isApplyingRemoteAnswer <==> !s.handler.Idle?)
    && s.applied == (if s.signaling.Stable? then 1 else 0)
    && (s.remoteDescription <==> s.signaling.Stable?)
    && (s.hasRemoteDesc ==> s.remoteDescription)
    && (s.handler.Applying? ==> s.signaling.HaveLocalOffer? && !s.hasRemoteDesc)
    && (s.handler.Back? ==> !s.hasRemoteDesc && (s.handler.ok <==> s.remoteDescription))
    && (s.handler.Flushing? ==> s.hasRemoteDesc)
    && (s.handler.Idle? && s.remoteDescription ==> s.hasRemoteDesc)
  }

  ghost predicate Queue(s: State) {
    && s.flushed <= |s.pendingCandidates|
    && (s.handler.Flushing? ==> s.handler.next == s.flushed)
    && (!s.hasRemoteDesc ==> s.handed == [] && s.flushed == 0 && s.pendingCandidates == s.received)
    && s.dropped == []
  }

  ghost predicate Conserved(s: State)
    requires Queue(s)
  {
    multiset(s.received) == multiset(s.handed) + multiset(Waiting(s))
  }

  // An answer that could not be applied leaves the offer standing, and the next one is accepted.
  lemma FailedAnswerLeavesOffer(s: State)
    requires Phases(s) && s.handler.Applying?
    ensures var t := Step(Step(s, DescriptionSettles(false)), AnswerResumes);
            && t.signaling == HaveLocalOffer && t.handler.Idle? && t.pendingCandidates == s.pendingCandidates
            && Step(t, AnswerArrives).handler.Applying?
  {
  }

  ghost predicate Inv(s: State) { Phases(s) && Queue(s) && Conserved(s) }

  lemma FlushKeepsConserved(s: State, next: nat)
    requires Queue(s) && Conserved(s) && s.hasRemoteDesc && next == s.flushed
    ensures Queue(FlushFrom(s, next)) && Conserved(FlushFrom(s, next))
  {
    var t := FlushFrom(s, next);
    if next < |s.pendingCandidates| {
      assert Waiting(s) == [s.pendingCandidates[next]] + Waiting(t);
    } else {
      assert Waiting(s) == [] && Waiting(t) == [];
    }
  }

  lemma StepKeepsPhases(s: State, e: Event)
    requires Inv(s) && Enabled(s, e)
    ensures Phases(Step(s, e))
  {
  }

  lemma StepKeepsInv(s: State, e: Event)
    requires Inv(s) && Enabled(s, e)
    ensures Inv(Step(s, e))
  {
    StepKeepsPhases(s, e);
    StepKeepsQueue(s, e);
  }

  lemma StepKeepsQueue(s: State, e: Event)
    requires Inv(s) && Enabled(s, e)
    ensures Queue(Step(s, e)) && Conserved(Step(s, e))
  {
    var t := Step(s, e);
    match e {
      case CandidateArrives(c) =>
        assert !s.hasRemoteDesc ==> Waiting(t) == Waiting(s) + [c];
      case AnswerResumes =>
        if s.handler.ok {
          FlushKeepsConserved(s.(hasRemoteDesc := true), 0);
        }
      case FlushResumes(ok) =>
        if ok {
          FlushKeepsConserved(s, s.handler.next);
        }
      case _ =>
    }
  }

  lemma {:induction false} RunKeepsInv(s: State, run: seq<Event>)
    requires Inv(s) && Run(s, run).Some?
    ensures Inv(Run(s, run).value)
    decreases |run|
  {
    if run != [] {
      StepKeepsInv(s, run[0]);
      RunKeepsInv(Step(s, run[0]), run[1..]);
    }
  }

  // In every interleaving at most one answer is applied, no candidate is handed over before it, none is
  // dropped, and the received are exactly the handed over and the waiting ones.
  lemma CandidatesAreConserved(run: seq<Event>, s: State)
    requires Run(Initial(), run) == Some(s)
    ensures s.applied <= 1 && (s.handed != [] ==> s.applied == 1) && s.dropped == []
    ensures s.flushed <= |s.pendingCandidates|
    ensures multiset(s.received) == multiset(s.handed) + multiset(Waiting(s))
  {
    RunKeepsInv(Initial(), run);
  }

  // Through with its answer: nothing is awaited any more.
  predicate Through(s: State) { s.hasRemoteDesc && s.handler.Idle? }

  // The step that gives up on a queued candidate with others behind it.
  predicate Abandons(s: State, e: Event) {
    e == FlushResumes(false) && s.handler.Flushing? && s.handler.next < |s.pendingCandidates|
  }

  ghost predicate AbandonedIn(s: State, run: seq<Event>)
    decreases |run|
  {
    run != [] && Enabled(s, run[0]) && (Abandons(s, run[0]) || AbandonedIn(Step(s, run[0]), run[1..]))
  }

  lemma ThroughStays(s: State, e: Event)
    requires Inv(s) && Enabled(s, e) && Through(s)
    ensures Through(Step(s, e)) && Waiting(Step(s, e)) == Waiting(s) && !Abandons(s, e)
    ensures s.received <= Step(s, e).received
    ensures Step(s, e).handed == s.handed + Step(s, e).received[|s.received|..]
  {
  }

  lemma ThroughAt(s: State, e: Event)
    requires Inv(s) && Enabled(s, e) && !Through(s) && Through(Step(s, e))
    ensures Queue(Step(s, e)) && (Waiting(Step(s, e)) == [] <==> !Abandons(s, e))
  {
    assert e == AnswerResumes || e.FlushResumes?;
  }

  lemma {:induction false} WaitingExactly(s: State, run: seq<Event>)
    requires Inv(s) && Run(s, run).Some? && Through(Run(s, run).value)
    ensures Queue(Run(s, run).value)
    ensures Waiting(Run(s, run).value) == []
            <==> !AbandonedIn(s, run) && (Through(s) ==> Waiting(s) == [])
    decreases |run|
  {
    if run != [] {
      var t := Step(s, run[0]);
      StepKeepsInv(s, run[0]);
      WaitingExactly(t, run[1..]);
      if Through(s) {
        ThroughStays(s, run[0]);
      } else if Through(t) {
        ThroughAt(s, run[0]);
        NeverAbandonedAgain(t, run[1..]);
      } else {
        OnlyThroughAbandons(s, run[0]);
      }
    }
  }

  lemma OnlyThroughAbandons(s: State, e: Event)
    requires Inv(s) && Enabled(s, e) && !Through(Step(s, e))
    ensures !Abandons(s, e)
  {
  }

  lemma {:induction false} NeverAbandonedAgain(s: State, run: seq<Event>)
    requires Inv(s) && Through(s)
    ensures !AbandonedIn(s, run)
    decreases |run|
  {
    if run != [] && Enabled(s, run[0]) {
      ThroughStays(s, run[0]);
      StepKeepsInv(s, run[0]);
      NeverAbandonedAgain(Step(s, run[0]), run[1..]);
    }
  }

  // Once an answer was applied and its handler is through, every candidate received was handed over
  // exactly as often as it came, unless the handler gave up on a queued one with others behind it.
  lemma AllHandedOverExactly(run: seq<Event>, s: State)
    requires Run(Initial(), run) == Some(s) && Through(s)
    ensures multiset(s.received) == multiset(s.handed) <==> !AbandonedIn(Initial(), run)
  {
    CandidatesAreConserved(run, s);
    WaitingExactly(Initial(), run);
    NoneMore(multiset(s.handed), Waiting(s));
  }

  lemma NoneMore(x: multiset<Candidate>, rest: seq<Candidate>)
    ensures x == x + multiset(rest) <==> rest == []
  {
    if rest != [] {
      assert rest[0] in multiset(rest);
      assert (x + multiset(rest))[rest[0]] > x[rest[0]];
    }
  }

  lemma {:induction false} OnlyLaterOnesAreHanded(s: State, run: seq<Event>)
    requires Inv(s) && Through(s) && Run(s, run).Some?
    ensures var t := Run(s, run).value;
            && Through(t) && Queue(t) && Waiting(t) == Waiting(s) && s.received <= t.received
            && t.handed == s.handed + t.received[|s.received|..]
    decreases |run|
  {
    if run != [] {
      var m := Step(s, run[0]);
      ThroughStays(s, run[0]);
      StepKeepsInv(s, run[0]);
      OnlyLaterOnesAreHanded(m, run[1..]);
      LaterPart(s.received, m.received, Run(s, run).value.received);
    } else {
      assert s.handed + s.received[|s.received|..] == s.handed;
    }
  }

  lemma LaterPart(a: seq<Candidate>, b: seq<Candidate>, c: seq<Candidate>)
    requires a <= b <= c
    ensures b[|a|..] + c[|b|..] == c[|a|..]
  {
  }

  // What was behind a queued candidate that failed stays in the queue in every continuation; only
  // candidates that arrive later are handed over.
  lemma AbandonedForEver(s: State, run: seq<Event>)
    requires Inv(s) && Abandons(s, FlushResumes(false)) && Run(Step(s, FlushResumes(false)), run).Some?
    ensures var t := Run(Step(s, FlushResumes(false)), run).value;
            && t.flushed <= |t.pendingCandidates|
            && Waiting(t) == s.pendingCandidates[s.handler.next..] != []
            && s.received <= t.received
            && t.handed == s.handed + t.received[|s.received|..]
  {
    StepKeepsInv(s, FlushResumes(false));
    OnlyLaterOnesAreHanded(Step(s, FlushResumes(false)), run);
  }

  // Two candidates before the answer, the first of which fails: the second is abandoned.
  lemma AFailureAbandons(a: Candidate, b: Candidate)
    ensures var run := [OfferSet, CandidateArrives(a), CandidateArrives(b), AnswerArrives, DescriptionSettles(true),
                        AnswerResumes, FlushResumes(false)];
            var t := Run(Initial(), run);
            t.Some? && t.value.received == [a, b] && t.value.handed == [a] && Through(t.value)
            && AbandonedIn(Initial(), run)
  {
    var run := [CandidateArrives(b), AnswerArrives, DescriptionSettles(true), AnswerResumes, FlushResumes(false)];
    var s := Step(Step(Initial(), OfferSet), CandidateArrives(a));
    Prepend(Step(Initial(), OfferSet), CandidateArrives(a), run);
    Prepend(Initial(), OfferSet, [CandidateArrives(a)] + run);
    QueueOfTwo(a, b);
    assert [OfferSet] + ([CandidateArrives(a)] + run)
           == [OfferSet, CandidateArrives(a), CandidateArrives(b), AnswerArrives, DescriptionSettles(true),
               AnswerResumes, FlushResumes(false)];
  }

  lemma Prepend(s: State, e: Event, run: seq<Event>)
    requires Enabled(s, e)
    ensures Run(s, [e] + run) == Run(Step(s, e), run)
    ensures AbandonedIn(s, [e] + run) <==> Abandons(s, e) || AbandonedIn(Step(s, e), run)
  {
    assert ([e] + run)[1..] == run;
  }

  function Waited(queue: seq<Candidate>): State {
    State(HaveLocalOffer, false, false, false, queue, Idle, queue, [], [], 0, 0)
  }

  lemma QueueOfTwo(a: Candidate, b: Candidate)
    ensures Step(Step(Initial(), OfferSet), CandidateArrives(a)) == Waited([a])
    ensures var run := [CandidateArrives(b), AnswerArrives, DescriptionSettles(true), AnswerResumes, FlushResumes(false)];
            var t := Run(Waited([a]), run);
            t.Some? && t.value.received == [a, b] && t.value.handed == [a] && Through(t.value) && AbandonedIn(Waited([a]), run)
  {
    var s := Waited([a, b]);
    var flushing := State(Stable, true, true, true, [a, b], Flushing(1), [a, b], [a], [], 1, 1);
    assert Step(Waited([a]), CandidateArrives(b)) == s;
    var s1 := Step(s, AnswerArrives);
    var s2 := Step(s1, DescriptionSettles(true));
    assert Step(s2, AnswerResumes) == flushing;
    var last := Step(flushing, FlushResumes(false));
    assert Run(last, []) == Some(last);
    Prepend(flushing, FlushResumes(false), []);
    Prepend(s2, AnswerResumes, [FlushResumes(false)]);
    Prepend(s1, DescriptionSettles(true), [AnswerResumes, FlushResumes(false)]);
    Prepend(s, AnswerArrives, [DescriptionSettles(true), AnswerResumes, FlushResumes(false)]);
    Prepend(Waited([a]), CandidateArrives(b), [AnswerArrives, DescriptionSettles(true), AnswerResumes, FlushResumes(false)]);
    assert [FlushResumes(false)] + [] == [FlushResumes(false)];
    assert [AnswerResumes] + [FlushResumes(false)] == [AnswerResumes, FlushResumes(false)];
    assert [DescriptionSettles(true)] + [AnswerResumes, FlushResumes(false)]
           == [DescriptionSettles(true), AnswerResumes, FlushResumes(false)];
    assert [AnswerArrives] + [DescriptionSettles(true), AnswerResumes, FlushResumes(false)]
           == [AnswerArrives, DescriptionSettles(true), AnswerResumes, FlushResumes(false)];
    assert [CandidateArrives(b)] + [AnswerArrives, DescriptionSettles(true), AnswerResumes, FlushResumes(false)]
           == [CandidateArrives(b), AnswerArrives, DescriptionSettles(true), AnswerResumes, FlushResumes(false)];
  }

  // --- The object --------------------------------------------------------------------------

  class Session {
    var signaling: Signaling
    var remoteDescription: bool
    var hasRemoteDesc: bool
    var isApplyingRemoteAnswer: bool
    var pendingCandidates: seq<Candidate>
    var handler: Handler
    ghost var received: seq<Candidate>
    ghost var handed: seq<Candidate>
    ghost var dropped: seq<Candidate>
    ghost var applied: nat
    ghost var flushed: nat

    ghost function View(): State
      reads this
    {
      State(signaling, remoteDescription, hasRemoteDesc, isApplyingRemoteAnswer, pendingCandidates, handler,
            received, handed, dropped, applied, flushed)
    }

    ghost predicate Valid()
      reads this
    {
      Inv(View())
    }

    constructor ()
      ensures View() == Initial() && Valid()
    {
      signaling, remoteDescription, hasRemoteDesc, isApplyingRemoteAnswer := NoOffer, false, false, false;
      pendingCandidates, handler := [], Idle;
      received, handed, dropped, applied, flushed := [], [], [], 0, 0;
    }

    method OnOfferSet()
      requires Valid() && Enabled(View(), OfferSet)
      modifies this
      ensures View() == Step(old(View()), OfferSet) && Valid()
    {
      StepKeepsInv(View(), OfferSet);
      signaling := HaveLocalOffer;
    }

    // An SDP_ANSWER message, up to the await of setRemoteDescription.
    method OnAnswer() returns (accepted: bool)
      requires Valid()
      modifies this
      ensures View() == Step(old(View()), AnswerArrives) && Valid()
      ensures accepted <==> View() != old(View())
      ensures accepted ==> applied == 0 && handed == []
      ensures accepted <==> old(signaling == HaveLocalOffer && handler.Idle?)
    {
      StepKeepsInv(View(), AnswerArrives);
      accepted := !(hasRemoteDesc || isApplyingRemoteAnswer || signaling != HaveLocalOffer);
      if accepted {
        isApplyingRemoteAnswer := true;
        handler := Applying;
      }
    }

    method OnDescriptionSettled(ok: bool)
      requires Valid() && Enabled(View(), DescriptionSettles(ok))
      modifies this
      ensures View() == Step(old(View()), DescriptionSettles(ok)) && Valid()
    {
      StepKeepsInv(View(), DescriptionSettles(ok));
      if ok {
        signaling, remoteDescription := Stable, true;
        applied := applied + 1;
      }
      handler := Back(ok);
    }

    method HandOver(c: Candidate)
      modifies this`handed
      ensures handed == old(handed) + [c]
    {
      handed := handed + [c];
    }

    // One turn of the loop over the queue, from its test to its next await.
    method Flush(next: nat)
      modifies this
      ensures View() == FlushFrom(old(View()), next)
    {
      if next < |pendingCandidates| {
        HandOver(pendingCandidates[next]);
        flushed := next + 1;
        handler := Flushing(next + 1);
      } else {
        pendingCandidates := [];
        flushed := 0;
        isApplyingRemoteAnswer := false;
        handler := Idle;
      }
    }

    method ResumeAnswer()
      requires Valid() && Enabled(View(), AnswerResumes)
      modifies this
      ensures View() == Step(old(View()), AnswerResumes) && Valid()
    {
      StepKeepsInv(View(), AnswerResumes);
      if handler.ok {
        hasRemoteDesc := true;
        Flush(0);
      } else {
        isApplyingRemoteAnswer := false;
        handler := Idle;
      }
    }

    method ResumeFlush(ok: bool)
      requires Valid() && Enabled(View(), FlushResumes(ok))
      modifies this
      ensures View() == Step(old(View()), FlushResumes(ok)) && Valid()
    {
      StepKeepsInv(View(), FlushResumes(ok));
      if ok {
        Flush(handler.next);
      } else {
        isApplyingRemoteAnswer := false;
        handler := Idle;
      }
    }

    // An ICE_CANDIDATE message.
    method OnCandidate(c: Candidate)
      modifies this
      ensures View() == Step(old(View()), CandidateArrives(c))
      ensures old(Valid()) ==> Valid() && dropped == []
      ensures old(Valid()) ==> handed == (if old(hasRemoteDesc) then old(handed) + [c] else old(handed))
    {
      if Inv(View()) {
        StepKeepsInv(View(), CandidateArrives(c));
      }
      received := received + [c];
      if !hasRemoteDesc {
        pendingCandidates := pendingCandidates + [c];
      } else if remoteDescription {
        HandOver(c);
      } else {
        dropped := dropped + [c];
      }
    }
  }
}
