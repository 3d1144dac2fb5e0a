/** On-demand snapshots and livestream dispatch of eufy/server.js, as a state machine whose steps are the
    code that runs between two awaits. Timers fire on time; microtasks run before the clock moves. */
module Snapshots {
  import opened JsText
  import opened History

  type Serial = string

  const RECORD_TIMEOUT: nat := 15000
  const CAPTURE_TIMEOUT: nat := 10000

  datatype Outcome = Resolved | Rejected

  // The answer to a record's own startStationLivestream.
  datatype Start = InFlight | Accepted | Failed

  // What refreshSnapshot puts into pendingSnapshots: a timer and a promise, awaited once a handler is on it.
  datatype Record = Record(
    sn: Serial,
    deadline: nat,
    timerLive: bool,
    start: Start,
    outcome: Option<Outcome>,
    awaited: bool)

  // captureSnapshotFromStream, then the .then/.catch that settles the record, then the .finally.
  datatype Stage = Capturing | Finished(ok: bool) | Handed | Done

  datatype Capture = Capture(rec: nat, deadline: nat, stage: Stage)

  // Why a stopStationLivestream was issued.
  datatype Cause = TimedOut(rec: nat) | CaptureEnded(capture: nat) | NoViewer(start: nat) | ViewerGone(session: nat)

  // What became of one "station livestream start" event.
  datatype Route = ToCapture(capture: nat) | ToSession(session: nat) | Stopped

  datatype Dispatch = Dispatch(sn: Serial, route: Route)

  // One call of refreshSnapshot.
  datatype Call = Refused | Created(rec: nat) | Coalesced(rec: nat)

  datatype State = State(
    clock: nat,
    connected: bool,
    pending: map<Serial, nat>,
    recs: seq<Record>,
    captures: seq<Capture>,
    sessions: map<Serial, nat>,
    // The serials of all sessions opened so far.
    openings: seq<Serial>,
    startsIssued: nat,
    stops: multiset<Cause>,
    dispatches: seq<Dispatch>,
    calls: seq<Call>)

  datatype Event =
    | Connect
    | Close
    | Refresh(sn: Serial)
    | StartAnswered(rec: nat, ok: bool)
    | RecordTimer(rec: nat)
    | LivestreamStart(sn: Serial)
    | CaptureFinish(capture: nat, ok: bool)
    | CaptureHand(capture: nat)
    | CaptureCleanup(capture: nat)
    | ViewerStop(sn: Serial)
    | ViewerOpen(sn: Serial)
    | ViewerStartFailed(sn: Serial)
    | Tick(ms: nat)

  function Initial(): State {
    State(0, false, map[], [], [], map[], [], 0, multiset{}, [], [])
  }

  // --- Steps -------------------------------------------------------------------------------

  // A promise rejected with no handler on it.
  predicate Unheard(rec: Record) { rec.outcome == Some(Rejected) && !rec.awaited }

  // Node ends the process over such a promise once the microtasks have run.
  ghost predicate Alive(s: State) { forall r | 0 <= r < |s.recs| :: !Unheard(s.recs[r]) }

  // What may still run before that.
  predicate Microtask(e: Event) { e.StartAnswered? || e.CaptureHand? || e.CaptureCleanup? }

  ghost predicate Enabled(s: State, e: Event) {
    (Microtask(e) || Alive(s)) && CanHappen(s, e)
  }

  ghost predicate CanHappen(s: State, e: Event) {
    match e
    case Refresh(sn) => sn in s.pending ==> s.pending[sn] < |s.recs|
    case StartAnswered(r, _) => r < |s.recs| && s.recs[r].start.InFlight?
    case RecordTimer(r) => r < |s.recs| && s.recs[r].timerLive && s.recs[r].deadline <= s.clock
    case CaptureFinish(c, _) => c < |s.captures| && s.captures[c].stage.Capturing?
    case CaptureHand(c) => c < |s.captures| && s.captures[c].stage.Finished? && s.captures[c].rec < |s.recs|
    case CaptureCleanup(c) => c < |s.captures| && s.captures[c].stage.Handed? && s.captures[c].rec < |s.recs|
    case Tick(ms) => CanWait(s, ms)
    case _ => true
  }

  // The clock moves only with no microtask queued and never past a live timer or a watchdog.
  ghost predicate CanWait(s: State, ms: nat) {
    && (forall r | 0 <= r < |s.recs| :: s.recs[r].timerLive ==> s.clock + ms <= s.recs[r].deadline)
    && (forall c | 0 <= c < |s.captures| ::
          var stage := s.captures[c].stage;
          stage.Done? || (stage.Capturing? && s.clock + ms <= s.captures[c].deadline))
  }

  // A promise settles once; later calls of resolve and reject do nothing.
  function Settle(rec: Record, o: Outcome): Record {
    if rec.outcome.None? then rec.(outcome := Some(o)) else rec
  }

  function RefreshStep(s: State, sn: Serial): State
    requires sn in s.pending ==> s.pending[sn] < |s.recs|
  {
    if !s.connected || sn in s.sessions then s.(calls := s.calls + [Refused])
    else if sn in s.pending then
      var r := s.pending[sn];
      s.(recs := s.recs[r := s.recs[r].(awaited := true)], calls := s.calls + [Coalesced(r)])
    else
      var r := |s.recs|;
      s.(recs := s.recs + [Record(sn, s.clock + RECORD_TIMEOUT, true, InFlight, None, false)],
         pending := s.pending[sn := r],
         startsIssued := s.startsIssued + 1,
         calls := s.calls + [Created(r)])
  }

  function StartAnsweredStep(s: State, r: nat, ok: bool): State
    requires r < |s.recs|
  {
    var rec := s.recs[r];
    if ok then s.(recs := s.recs[r := rec.(start := Accepted, awaited := true)])
    else s.(recs := s.recs[r := rec.(start := Failed, timerLive := false)], pending := s.pending - {rec.sn})
  }

  function RecordTimerStep(s: State, r: nat): State
    requires r < |s.recs|
  {
    var rec := s.recs[r];
    s.(recs := s.recs[r := Settle(rec, Rejected).(timerLive := false)],
       pending := s.pending - {rec.sn},
       stops := s.stops + multiset{TimedOut(r)})
  }

  function LivestreamStartStep(s: State, sn: Serial): State {
    if sn in s.pending then
      s.(captures := s.captures + [Capture(s.pending[sn], s.clock + CAPTURE_TIMEOUT, Capturing)],
         dispatches := s.dispatches + [Dispatch(sn, ToCapture(|s.captures|))])
    else if sn in s.sessions then s.(dispatches := s.dispatches + [Dispatch(sn, ToSession(s.sessions[sn]))])
    else
      s.(stops := s.stops + multiset{NoViewer(|s.dispatches|)},
         dispatches := s.dispatches + [Dispatch(sn, Stopped)])
  }

  function CaptureHandStep(s: State, c: nat): State
    requires c < |s.captures| && s.captures[c].stage.Finished? && s.captures[c].rec < |s.recs|
  {
    var cap := s.captures[c];
    s.(captures := s.captures[c := cap.(stage := Handed)],
       recs := s.recs[cap.rec := Settle(s.recs[cap.rec], if cap.stage.ok then Resolved else Rejected)])
  }

  function CaptureCleanupStep(s: State, c: nat): State
    requires c < |s.captures| && s.captures[c].rec < |s.recs|
  {
    var cap := s.captures[c];
    var rec := s.recs[cap.rec];
    s.(captures := s.captures[c := cap.(stage := Done)],
       recs := s.recs[cap.rec := rec.(timerLive := false)],
       pending := s.pending - {rec.sn},
       stops := s.stops + multiset{CaptureEnded(c)})
  }

  function ViewerStopStep(s: State, sn: Serial): State {
    if sn in s.sessions then
      s.(sessions := s.sessions - {sn}, stops := s.stops + multiset{ViewerGone(s.sessions[sn])})
    else s
  }

  function Step(s: State, e: Event): State
    requires Enabled(s, e)
  {
    match e
    case Connect => s.(connected := true)
    case Close => s.(connected := false)
    case Refresh(sn) => RefreshStep(s, sn)
    case StartAnswered(r, ok) => StartAnsweredStep(s, r, ok)
    case RecordTimer(r) => RecordTimerStep(s, r)
    case LivestreamStart(sn) => LivestreamStartStep(s, sn)
    case CaptureFinish(c, ok) => s.(captures := s.captures[c := s.captures[c].(stage := Finished(ok))])
    case CaptureHand(c) => CaptureHandStep(s, c)
    case CaptureCleanup(c) => CaptureCleanupStep(s, c)
    case ViewerStop(sn) => ViewerStopStep(s, sn)
    case ViewerOpen(sn) => s.(sessions := s.sessions[sn := |s.openings|], openings := s.openings + [sn])
    case ViewerStartFailed(sn) => s.(sessions := s.sessions - {sn})
    case Tick(ms) => s.(clock := s.clock + ms)
  }

  // The state after a run, if each of its events could happen.
  ghost function After(run: seq<Event>): Option<State> {
    if run == [] then Some(Initial())
    else
      var n := |run| - 1;
      match After(run[..n])
      case None => None
      case Some(s) => if Enabled(s, run[n]) then Some(Step(s, run[n])) else None
  }

  // --- The invariant -----------------------------------------------------------------------

  ghost predicate Covered(s: State, rec: Record) {
    && (rec.timerLive || rec.outcome.Some? || rec.start.Failed?)
    && (rec.timerLive ==> s.clock <= rec.deadline <= s.clock + RECORD_TIMEOUT)
  }

  // Every record has a live timer, or is settled, or its own start failed.
  ghost predicate RecordsCovered(s: State) {
    forall r | 0 <= r < |s.recs| :: Covered(s, s.recs[r])
  }

  // The map holds a record under its own serial, and only with a live timer.
  ghost predicate PendingIsLive(s: State) {
    forall sn | sn in s.pending ::
      s.pending[sn] < |s.recs| && s.recs[s.pending[sn]].sn == sn && s.recs[s.pending[sn]].timerLive
  }

  ghost predicate CaptureOk(s: State, c: nat)
    requires c < |s.captures|
  {
    var cap := s.captures[c];
    && cap.rec < |s.recs|
    && cap.deadline <= s.clock + CAPTURE_TIMEOUT
    && cap.deadline <= s.recs[cap.rec].deadline + CAPTURE_TIMEOUT
    && (cap.stage.Done? || s.clock <= cap.deadline)
    && (cap.stage.Handed? || cap.stage.Done? ==> s.recs[cap.rec].outcome.Some?)
    && s.stops[CaptureEnded(c)] == if cap.stage.Done? then 1 else 0
  }

  // Captures settle on time, and issue their stop exactly once, at the end.
  ghost predicate CapturesOk(s: State) {
    && (forall c | 0 <= c < |s.captures| :: CaptureOk(s, c))
    && (forall c :: c >= |s.captures| ==> s.stops[CaptureEnded(c)] == 0)
  }

  ghost predicate StopIssuedFor(s: State, r: nat) {
    || TimedOut(r) in s.stops
    || exists c :: 0 <= c < |s.captures| && s.captures[c].rec == r && CaptureEnded(c) in s.stops
  }

  // A record whose timer is gone has had a stop issued, unless its start failed.
  ghost predicate StopsIssued(s: State) {
    forall r | 0 <= r < |s.recs| :: s.recs[r].timerLive || s.recs[r].start.Failed? || StopIssuedFor(s, r)
  }

  ghost predicate DispatchOk(s: State, i: nat)
    requires i < |s.dispatches|
  {
    match s.dispatches[i].route
    case ToCapture(c) =>
      c < |s.captures| && s.captures[c].rec < |s.recs| && s.recs[s.captures[c].rec].sn == s.dispatches[i].sn
    case ToSession(id) => id < |s.openings| && s.openings[id] == s.dispatches[i].sn
    case Stopped => s.stops[NoViewer(i)] == 1
  }

  // Every event went where it belongs, no two of them to the same capture.
  ghost predicate Dispatched(s: State) {
    && (forall i | 0 <= i < |s.dispatches| :: DispatchOk(s, i))
    && (forall i :: i >= |s.dispatches| ==> s.stops[NoViewer(i)] == 0)
    && (forall i, j | 0 <= i < j < |s.dispatches| ::
          s.dispatches[i].route.ToCapture? ==> s.dispatches[i].route != s.dispatches[j].route)
  }

  // Session id is the last one opened for the camera.
  ghost predicate Latest(s: State, sn: Serial, id: nat) {
    id < |s.openings| && s.openings[id] == sn && forall later | id < later < |s.openings| :: s.openings[later] != sn
  }

  ghost predicate SessionsOk(s: State) { forall sn | sn in s.sessions :: Latest(s, sn, s.sessions[sn]) }

  // A viewer's leaving is answered by one stop, and not while the session is open.
  ghost predicate GoneOk(s: State) {
    && (forall sn | sn in s.sessions :: s.stops[ViewerGone(s.sessions[sn])] == 0)
    && (forall id :: id >= |s.openings| ==> s.stops[ViewerGone(id)] == 0)
    && (forall id :: s.stops[ViewerGone(id)] <= 1)
  }

  ghost predicate Joined(s: State, r: nat) { Coalesced(r) in s.calls }

  // A record's promise has a handler once its start was accepted or somebody joined.
  ghost predicate CallsOk(s: State) {
    && s.startsIssued == |s.recs|
    && (forall i | 0 <= i < |s.calls| :: s.calls[i].Refused? || s.calls[i].rec < |s.recs|)
    && (forall r | 0 <= r < |s.recs| :: s.recs[r].awaited <==> s.recs[r].start.Accepted? || Joined(s, r))
  }

  ghost predicate Inv(s: State) {
    && RecordsCovered(s)
    && PendingIsLive(s)
    && CapturesOk(s)
    && StopsIssued(s)
    && Dispatched(s)
    && SessionsOk(s)
    && GoneOk(s)
    && CallsOk(s)
  }

  // --- What one step changes -----------------------------------------------------------------

  // The record an event acts on.
  function Subject(s: State, e: Event): Option<nat> {
    match e
    case Refresh(sn) => if sn in s.pending then Some(s.pending[sn]) else None
    case StartAnswered(r, _) => Some(r)
    case RecordTimer(r) => Some(r)
    case CaptureHand(c) => if c < |s.captures| then Some(s.captures[c].rec) else None
    case CaptureCleanup(c) => if c < |s.captures| then Some(s.captures[c].rec) else None
    case _ => None
  }

  lemma OnlySubjectChanges(s: State, e: Event)
    requires Enabled(s, e)
    ensures |s.recs| <= |Step(s, e).recs|
    ensures forall r | 0 <= r < |s.recs| :: Subject(s, e) != Some(r) ==> Step(s, e).recs[r] == s.recs[r]
  {
  }

  lemma ClockMovesOnlyByTick(s: State, e: Event)
    requires Enabled(s, e)
    ensures !e.Tick? ==> Step(s, e).clock == s.clock
    ensures e.Tick? ==> Step(s, e) == s.(clock := s.clock + e.ms)
  {
  }

  // Records keep their serial and deadline, captures their record; both only grow in number.
  ghost predicate Extends(s: State, t: State) {
    && |s.recs| <= |t.recs|
    && |s.captures| <= |t.captures|
    && (forall r | 0 <= r < |s.recs| :: t.recs[r].sn == s.recs[r].sn && t.recs[r].deadline == s.recs[r].deadline)
    && (forall c | 0 <= c < |s.captures| ::
          t.captures[c].rec == s.captures[c].rec && t.captures[c].deadline == s.captures[c].deadline)
  }

  lemma CapturesExtend(s: State, e: Event)
    requires Enabled(s, e)
    ensures |s.captures| <= |Step(s, e).captures|
    ensures forall c | 0 <= c < |s.captures| ::
              Step(s, e).captures[c].rec == s.captures[c].rec && Step(s, e).captures[c].deadline == s.captures[c].deadline
  {
  }

  lemma SubjectKeepsSerial(s: State, e: Event, r: nat)
    requires Enabled(s, e) && r < |s.recs| && Subject(s, e) == Some(r)
    ensures r < |Step(s, e).recs|
    ensures Step(s, e).recs[r].sn == s.recs[r].sn && Step(s, e).recs[r].deadline == s.recs[r].deadline
  {
  }

  lemma StepExtends(s: State, e: Event)
    requires Enabled(s, e)
    ensures Extends(s, Step(s, e))
  {
    OnlySubjectChanges(s, e);
    CapturesExtend(s, e);
    if Subject(s, e).Some? && Subject(s, e).value < |s.recs| {
      SubjectKeepsSerial(s, e, Subject(s, e).value);
    }
  }

  lemma StopsOnlyGrow(s: State, e: Event)
    requires Enabled(s, e)
    ensures s.stops <= Step(s, e).stops
    ensures e.RecordTimer? ==> TimedOut(e.rec) in Step(s, e).stops
  {
  }

  lemma CaptureStops(s: State, e: Event)
    requires Enabled(s, e)
    ensures forall c :: Step(s, e).stops[CaptureEnded(c)]
                        == s.stops[CaptureEnded(c)] + if e == CaptureCleanup(c) then 1 else 0
  {
  }

  lemma OutcomesStay(s: State, e: Event)
    requires Enabled(s, e)
    ensures |s.recs| <= |Step(s, e).recs|
    ensures forall r | 0 <= r < |s.recs| :: s.recs[r].outcome.Some? ==> Step(s, e).recs[r].outcome == s.recs[r].outcome
  {
    OnlySubjectChanges(s, e);
  }

  // --- The invariant is kept -----------------------------------------------------------------

  lemma RecordStaysCovered(s: State, e: Event, r: nat)
    requires Inv(s) && Enabled(s, e) && r < |s.recs|
    ensures r < |Step(s, e).recs| && Covered(Step(s, e), Step(s, e).recs[r])
  {
    assert Covered(s, s.recs[r]);
    OnlySubjectChanges(s, e);
    ClockMovesOnlyByTick(s, e);
    if e.CaptureCleanup? {
      assert CaptureOk(s, e.capture);
    }
  }

  lemma RecordsStayCovered(s: State, e: Event)
    requires Inv(s) && Enabled(s, e)
    ensures RecordsCovered(Step(s, e))
  {
    var t := Step(s, e);
    forall r | 0 <= r < |t.recs|
      ensures Covered(t, t.recs[r])
    {
      if r < |s.recs| {
        RecordStaysCovered(s, e, r);
      }
    }
  }

  // An entry of the map afterwards was there before, or is the new record's.
  lemma MapOnlyGainsNewRecord(s: State, e: Event, sn: Serial)
    requires Enabled(s, e) && sn in Step(s, e).pending
    ensures (sn in s.pending && Step(s, e).pending[sn] == s.pending[sn])
            || (e == Refresh(sn) && sn !in s.pending && Step(s, e).pending[sn] == |s.recs| && |Step(s, e).recs| == |s.recs| + 1
                && Step(s, e).recs[|s.recs|] == Record(sn, s.clock + RECORD_TIMEOUT, true, InFlight, None, false))
  {
  }

  // Whatever ends a timer takes the record's serial out of the map.
  lemma TimerGoesWithEntry(s: State, e: Event, r: nat)
    requires Enabled(s, e) && r < |s.recs| && s.recs[r].timerLive
    ensures r < |Step(s, e).recs|
    ensures Step(s, e).recs[r].timerLive || s.recs[r].sn !in Step(s, e).pending
  {
    OnlySubjectChanges(s, e);
  }

  lemma PendingStaysLive(s: State, e: Event)
    requires Inv(s) && Enabled(s, e)
    ensures PendingIsLive(Step(s, e))
  {
    var t := Step(s, e);
    StepExtends(s, e);
    forall sn | sn in t.pending
      ensures t.pending[sn] < |t.recs| && t.recs[t.pending[sn]].sn == sn && t.recs[t.pending[sn]].timerLive
    {
      MapOnlyGainsNewRecord(s, e, sn);
      if sn in s.pending {
        TimerGoesWithEntry(s, e, s.pending[sn]);
      }
    }
  }

  // A capture moves only by its own events.
  lemma CaptureMovesByItself(s: State, e: Event, c: nat)
    requires Enabled(s, e) && c < |s.captures|
    ensures c < |Step(s, e).captures|
    ensures Step(s, e).captures[c] == s.captures[c] || e == CaptureCleanup(c) || e == CaptureHand(c)
            || (e.CaptureFinish? && e.capture == c)
  {
  }

  lemma CaptureAdvances(s: State, e: Event, c: nat)
    requires Enabled(s, e) && c < |s.captures|
    ensures c < |Step(s, e).captures|
    ensures Step(s, e).captures[c].stage.Done? <==> s.captures[c].stage.Done? || e == CaptureCleanup(c)
    ensures Step(s, e).captures[c].stage.Handed? ==> s.captures[c].stage.Handed? || e == CaptureHand(c)
    ensures s.captures[c].stage.Handed? ==> Step(s, e).captures[c].stage.Handed? || Step(s, e).captures[c].stage.Done?
  {
    CaptureMovesByItself(s, e, c);
  }

  lemma HandingSettles(s: State, c: nat)
    requires Enabled(s, CaptureHand(c))
    ensures var t := Step(s, CaptureHand(c));
            && s.captures[c].rec < |t.recs| && t.recs[s.captures[c].rec].outcome.Some?
  {
  }

  lemma CaptureStaysOk(s: State, e: Event, c: nat)
    requires Inv(s) && Enabled(s, e) && c < |s.captures|
    ensures c < |Step(s, e).captures| && CaptureOk(Step(s, e), c)
  {
    assert CaptureOk(s, c);
    CaptureStops(s, e);
    StepExtends(s, e);
    OutcomesStay(s, e);
    ClockMovesOnlyByTick(s, e);
    CaptureAdvances(s, e, c);
    if e == CaptureHand(c) {
      HandingSettles(s, c);
    }
  }

  lemma NewCapture(s: State, e: Event)
    requires Enabled(s, e)
    ensures |s.captures| <= |Step(s, e).captures| <= |s.captures| + 1
    ensures |Step(s, e).captures| > |s.captures| ==>
              && e.LivestreamStart? && e.sn in s.pending
              && Step(s, e).captures[|s.captures|] == Capture(s.pending[e.sn], s.clock + CAPTURE_TIMEOUT, Capturing)
  {
  }

  lemma CapturesStayOk(s: State, e: Event)
    requires Inv(s) && Enabled(s, e)
    ensures CapturesOk(Step(s, e))
  {
    var t := Step(s, e);
    CaptureStops(s, e);
    StepExtends(s, e);
    NewCapture(s, e);
    ClockMovesOnlyByTick(s, e);
    forall c | 0 <= c < |t.captures|
      ensures CaptureOk(t, c)
    {
      if c < |s.captures| {
        CaptureStaysOk(s, e, c);
      } else {
        assert Covered(s, s.recs[s.pending[e.sn]]);
      }
    }
  }

  lemma StopStaysIssued(s: State, e: Event, r: nat)
    requires Enabled(s, e) && StopIssuedFor(s, r)
    ensures StopIssuedFor(Step(s, e), r)
  {
    StopsOnlyGrow(s, e);
    StepExtends(s, e);
    if TimedOut(r) !in s.stops {
      var c :| 0 <= c < |s.captures| && s.captures[c].rec == r && CaptureEnded(c) in s.stops;
      assert Step(s, e).captures[c].rec == r && CaptureEnded(c) in Step(s, e).stops;
    }
  }

  // A timer goes out with a stop, or by the failure of the start.
  lemma TimerGoesWithStop(s: State, e: Event, r: nat)
    requires Enabled(s, e) && r < |s.recs|
    ensures r < |Step(s, e).recs|
    ensures s.recs[r].start.Failed? ==> Step(s, e).recs[r].start.Failed?
    ensures s.recs[r].timerLive ==>
              Step(s, e).recs[r].timerLive || Step(s, e).recs[r].start.Failed? || StopIssuedFor(Step(s, e), r)
  {
    StopsOnlyGrow(s, e);
    CaptureStops(s, e);
    OnlySubjectChanges(s, e);
    if e.CaptureCleanup? && s.captures[e.capture].rec == r {
      assert Step(s, e).captures[e.capture].rec == r && CaptureEnded(e.capture) in Step(s, e).stops;
    }
  }

  lemma NewRecordIsLive(s: State, e: Event)
    requires Enabled(s, e)
    ensures |s.recs| <= |Step(s, e).recs| <= |s.recs| + 1
    ensures |Step(s, e).recs| > |s.recs| ==>
              Step(s, e).recs[|s.recs|].timerLive && Step(s, e).recs[|s.recs|].outcome.None?
  {
  }

  lemma StopsStayIssued(s: State, e: Event)
    requires Inv(s) && Enabled(s, e)
    ensures StopsIssued(Step(s, e))
  {
    var t := Step(s, e);
    NewRecordIsLive(s, e);
    forall r | 0 <= r < |t.recs|
      ensures t.recs[r].timerLive || t.recs[r].start.Failed? || StopIssuedFor(t, r)
    {
      if r < |s.recs| {
        TimerGoesWithStop(s, e, r);
        if StopIssuedFor(s, r) {
          StopStaysIssued(s, e, r);
        }
      }
    }
  }

  lemma DispatchesOnlyGrow(s: State, e: Event)
    requires Enabled(s, e)
    ensures s.dispatches <= Step(s, e).dispatches
    ensures s.openings <= Step(s, e).openings
  {
  }

  lemma NoViewerStops(s: State, e: Event)
    requires Enabled(s, e)
    ensures forall i :: i != |s.dispatches| ==> Step(s, e).stops[NoViewer(i)] == s.stops[NoViewer(i)]
  {
  }

  lemma NothingIsRerouted(s: State, e: Event, i: nat)
    requires Inv(s) && Enabled(s, e) && i < |s.dispatches|
    ensures i < |Step(s, e).dispatches| && Step(s, e).dispatches[i] == s.dispatches[i]
    ensures DispatchOk(Step(s, e), i)
  {
    StepExtends(s, e);
    NoViewerStops(s, e);
    DispatchesOnlyGrow(s, e);
    assert DispatchOk(s, i);
  }

  // Where a livestream event is sent from state s; t is what holds afterwards.
  ghost predicate Routed(s: State, t: State, i: nat)
    requires i < |t.dispatches|
  {
    var sn := t.dispatches[i].sn;
    match t.dispatches[i].route
    case ToCapture(c) =>
      && sn in s.pending && |s.captures| <= c < |t.captures| && t.captures[c].rec == s.pending[sn]
      && s.pending[sn] < |s.recs| && s.recs[s.pending[sn]].timerLive && s.recs[s.pending[sn]].sn == sn
    case ToSession(id) => sn !in s.pending && sn in s.sessions && s.sessions[sn] == id && Latest(s, sn, id)
    case Stopped => sn !in s.pending && sn !in s.sessions && t.stops[NoViewer(i)] == 1
  }

  lemma NewDispatch(s: State, e: Event)
    requires Inv(s) && Enabled(s, e)
    ensures var t := Step(s, e);
            if e.LivestreamStart? then
              |t.dispatches| == |s.dispatches| + 1 && t.dispatches[|s.dispatches|].sn == e.sn && Routed(s, t, |s.dispatches|)
            else t.dispatches == s.dispatches
  {
  }

  lemma NewDispatchOk(s: State, sn: Serial)
    requires Inv(s) && Enabled(s, LivestreamStart(sn))
    ensures var t := Step(s, LivestreamStart(sn));
            |t.dispatches| > |s.dispatches| && DispatchOk(t, |s.dispatches|)
  {
    NewDispatch(s, LivestreamStart(sn));
  }

  lemma RoutesStayDistinct(s: State, e: Event)
    requires Inv(s) && Enabled(s, e)
    ensures var t := Step(s, e);
            forall i, j | 0 <= i < j < |t.dispatches| ::
              t.dispatches[i].route.ToCapture? ==> t.dispatches[i].route != t.dispatches[j].route
  {
    NewDispatch(s, e);
    DispatchesOnlyGrow(s, e);
    forall i | 0 <= i < |s.dispatches| && s.dispatches[i].route.ToCapture?
      ensures s.dispatches[i].route.capture < |s.captures|
    {
      assert DispatchOk(s, i);
    }
  }

  lemma StaysDispatched(s: State, e: Event)
    requires Inv(s) && Enabled(s, e)
    ensures Dispatched(Step(s, e))
  {
    var t := Step(s, e);
    NewDispatch(s, e);
    NoViewerStops(s, e);
    DispatchesOnlyGrow(s, e);
    RoutesStayDistinct(s, e);
    forall i | 0 <= i < |t.dispatches|
      ensures DispatchOk(t, i)
    {
      if i < |s.dispatches| {
        NothingIsRerouted(s, e, i);
      } else {
        NewDispatchOk(s, e.sn);
      }
    }
  }

  lemma SessionsStayOk(s: State, e: Event)
    requires Inv(s) && Enabled(s, e)
    ensures SessionsOk(Step(s, e))
  {
    var t := Step(s, e);
    forall sn | sn in t.sessions
      ensures Latest(t, sn, t.sessions[sn])
    {
      assert sn in s.sessions ==> Latest(s, sn, s.sessions[sn]);
    }
  }

  // The session whose end an event is.
  function Leaves(s: State, e: Event): Option<nat> {
    if e.ViewerStop? && e.sn in s.sessions then Some(s.sessions[e.sn]) else None
  }

  lemma GoneStops(s: State, e: Event)
    requires Enabled(s, e)
    ensures forall id :: Step(s, e).stops[ViewerGone(id)]
                         == s.stops[ViewerGone(id)] + if Leaves(s, e) == Some(id) then 1 else 0
  {
  }

  lemma SessionsOnlyBy(s: State, e: Event, sn: Serial)
    requires Enabled(s, e)
    ensures |s.openings| <= |Step(s, e).openings|
    ensures sn in Step(s, e).sessions ==>
              (sn in s.sessions && Step(s, e).sessions[sn] == s.sessions[sn] && e != ViewerStop(sn))
              || (e == ViewerOpen(sn) && Step(s, e).sessions[sn] == |s.openings|)
  {
  }

  lemma GoneStaysOk(s: State, e: Event)
    requires Inv(s) && Enabled(s, e)
    ensures GoneOk(Step(s, e))
  {
    var t := Step(s, e);
    GoneStops(s, e);
    if Leaves(s, e).Some? {
      assert Latest(s, e.sn, s.sessions[e.sn]);
    }
    forall sn | sn in t.sessions
      ensures t.stops[ViewerGone(t.sessions[sn])] == 0
    {
      SessionsOnlyBy(s, e, sn);
      assert sn in s.sessions ==> Latest(s, sn, s.sessions[sn]);
    }
    assert |s.openings| <= |t.openings| by { SessionsOnlyBy(s, e, ""); }
  }

  lemma CallsOnlyGrow(s: State, e: Event)
    requires Enabled(s, e)
    ensures s.calls <= Step(s, e).calls
    ensures forall r :: Joined(Step(s, e), r) <==>
                        Joined(s, r) || (e.Refresh? && Step(s, e).calls == s.calls + [Coalesced(r)])
  {
    var t := Step(s, e);
    forall r
      ensures Joined(t, r) <==> Joined(s, r) || (e.Refresh? && t.calls == s.calls + [Coalesced(r)])
    {
      if e.Refresh? {
        assert t.calls[|s.calls|] in t.calls;
        assert forall call :: call in t.calls <==> call in s.calls || call == t.calls[|s.calls|];
      }
    }
  }

  lemma AwaitedStays(s: State, e: Event, r: nat)
    requires Inv(s) && Enabled(s, e) && r < |s.recs|
    ensures r < |Step(s, e).recs|
    ensures Step(s, e).recs[r].awaited <==> Step(s, e).recs[r].start.Accepted? || Joined(Step(s, e), r)
  {
    OnlySubjectChanges(s, e);
    CallsOnlyGrow(s, e);
  }

  lemma CallsStayOk(s: State, e: Event)
    requires Inv(s) && Enabled(s, e)
    ensures CallsOk(Step(s, e))
  {
    var t := Step(s, e);
    CallsOnlyGrow(s, e);
    forall r | 0 <= r < |t.recs|
      ensures t.recs[r].awaited <==> t.recs[r].start.Accepted? || Joined(t, r)
    {
      if r < |s.recs| {
        AwaitedStays(s, e, r);
      } else {
        assert !Joined(s, r);
      }
    }
  }

  lemma StepKeepsInv(s: State, e: Event)
    requires Inv(s) && Enabled(s, e)
    ensures Inv(Step(s, e))
  {
    RecordsStayCovered(s, e);
    PendingStaysLive(s, e);
    CapturesStayOk(s, e);
    StopsStayIssued(s, e);
    StaysDispatched(s, e);
    SessionsStayOk(s, e);
    GoneStaysOk(s, e);
    CallsStayOk(s, e);
  }

  lemma {:induction false} RunKeepsInv(run: seq<Event>)
    requires After(run).Some?
    ensures Inv(After(run).value)
  {
    if run != [] {
      var n := |run| - 1;
      RunKeepsInv(run[..n]);
      StepKeepsInv(After(run[..n]).value, run[n]);
    }
  }

  // --- What single events leave behind -----------------------------------------------------------

  lemma TimerLeaves(s: State, r: nat)
    requires Enabled(s, RecordTimer(r))
    ensures var t := Step(s, RecordTimer(r));
            && r < |t.recs| && t.recs[r].outcome.Some? && TimedOut(r) in t.stops && t.recs[r].sn !in t.pending
  {
  }

  lemma FailedStartLeaves(s: State, r: nat)
    requires Enabled(s, StartAnswered(r, false))
    ensures var t := Step(s, StartAnswered(r, false));
            && r < |t.recs| && t.recs[r].sn !in t.pending
  {
  }

  // --- What every run guarantees -----------------------------------------------------------

  // No later than 15 s after its creation a record is settled, unless its own start failed; no later
  // than 10 s after its livestream event a capture has settled its record and issued its stop.
  lemma SettledInTime(run: seq<Event>, s: State)
    requires After(run) == Some(s)
    ensures forall r | 0 <= r < |s.recs| ::
              s.recs[r].deadline < s.clock ==> s.recs[r].outcome.Some? || s.recs[r].start.Failed?
    ensures forall c | 0 <= c < |s.captures| && s.captures[c].deadline < s.clock ::
              && s.captures[c].stage.Done?
              && s.captures[c].rec < |s.recs|
              && s.recs[s.captures[c].rec].outcome.Some?
              && s.stops[CaptureEnded(c)] == 1
  {
    RunKeepsInv(run);
    forall r | 0 <= r < |s.recs| && s.recs[r].deadline < s.clock
      ensures s.recs[r].outcome.Some? || s.recs[r].start.Failed?
    {
      assert Covered(s, s.recs[r]);
    }
    forall c | 0 <= c < |s.captures| && s.captures[c].deadline < s.clock
      ensures s.captures[c].stage.Done? && s.captures[c].rec < |s.recs|
      ensures s.recs[s.captures[c].rec].outcome.Some? && s.stops[CaptureEnded(c)] == 1
    {
      assert CaptureOk(s, c);
    }
  }

  ghost predicate DispatchedAt(run: seq<Event>, n: nat, s: State, i: nat)
    requires n < |run| && i < |s.dispatches|
  {
    && run[n] == LivestreamStart(s.dispatches[i].sn)
    && After(run[..n]).Some?
    && var u := After(run[..n]).value;
       |u.dispatches| == i && Routed(u, s, i)
  }

  lemma RoutedStays(u: State, s: State, e: Event, i: nat)
    requires Inv(s) && Enabled(s, e) && i < |s.dispatches| && Routed(u, s, i)
    ensures i < |Step(s, e).dispatches| && Routed(u, Step(s, e), i)
  {
    NothingIsRerouted(s, e, i);
    NoViewerStops(s, e);
    DispatchesOnlyGrow(s, e);
    StepExtends(s, e);
  }

  // In every run each livestream event was sent, at its moment, to a new capture of the live record then
  // mapped for its camera; with none mapped, to the camera's open session, the last one opened; and
  // stopped at once exactly when there was neither.
  lemma {:induction false} EveryEventWasRouted(run: seq<Event>, s: State, i: nat) returns (n: nat)
    requires After(run) == Some(s) && i < |s.dispatches|
    ensures n < |run| && DispatchedAt(run, n, s, i)
  {
    var m := |run| - 1;
    var u := After(run[..m]).value;
    RunKeepsInv(run[..m]);
    NewDispatch(u, run[m]);
    DispatchesOnlyGrow(u, run[m]);
    if i < |u.dispatches| {
      n := EveryEventWasRouted(run[..m], u, i);
      assert run[..m][..n] == run[..n];
      RoutedStays(After(run[..n]).value, u, run[m], i);
    } else {
      n := m;
    }
  }

  // --- What the run itself says ----------------------------------------------------------------

  function Connects(): Event -> bool { (e: Event) => e.Connect? }

  function Closes(): Event -> bool { (e: Event) => e.Close? }

  // The server is connected exactly when the cloud connected and has not closed since.
  lemma {:induction false} ConnectedExactly(run: seq<Event>, s: State)
    requires After(run) == Some(s)
    ensures s.connected <==> Since(run, Connects(), Closes())
  {
    if run != [] {
      var n := |run| - 1;
      ConnectedExactly(run[..n], After(run[..n]).value);
      SinceLast(run, Connects(), Closes());
      ConnectionOnlyBy(After(run[..n]).value, run[n]);
    }
  }

  lemma ConnectionOnlyBy(s: State, e: Event)
    requires Enabled(s, e)
    ensures Step(s, e).connected <==> e.Connect? || (s.connected && !e.Close?)
  {
  }

  function Opens(sn: Serial): Event -> bool { (e: Event) => e == ViewerOpen(sn) }

  function Ends(sn: Serial): Event -> bool { (e: Event) => e == ViewerStop(sn) || e == ViewerStartFailed(sn) }

  // A camera has a viewer exactly when one was opened for it and it was neither stopped nor failed since.
  lemma {:induction false} ViewedExactly(run: seq<Event>, s: State, sn: Serial)
    requires After(run) == Some(s)
    ensures sn in s.sessions <==> Since(run, Opens(sn), Ends(sn))
  {
    if run != [] {
      var n := |run| - 1;
      ViewedExactly(run[..n], After(run[..n]).value, sn);
      SinceLast(run, Opens(sn), Ends(sn));
      ViewersOnlyBy(After(run[..n]).value, run[n], sn);
    }
  }

  lemma ViewersOnlyBy(s: State, e: Event, sn: Serial)
    requires Enabled(s, e)
    ensures sn in Step(s, e).sessions <==>
            e == ViewerOpen(sn) || (sn in s.sessions && e != ViewerStop(sn) && e != ViewerStartFailed(sn))
  {
  }

  // Event n stops the camera's viewer while it has session id.
  ghost predicate LeftAt(run: seq<Event>, n: nat, id: nat)
    requires n < |run|
  {
    After(run[..n]).Some? && Leaves(After(run[..n]).value, run[n]) == Some(id)
  }

  ghost predicate WasLeft(run: seq<Event>, id: nat) { exists n: nat :: n < |run| && LeftAt(run, n, id) }

  lemma LeftAtEarlier(run: seq<Event>, k: nat, id: nat)
    requires k + 1 < |run|
    ensures LeftAt(run[..|run| - 1], k, id) <==> LeftAt(run, k, id)
  {
    assert run[..|run| - 1][..k] == run[..k];
  }

  lemma WasLeftLast(run: seq<Event>, id: nat)
    requires run != []
    ensures WasLeft(run, id) <==> WasLeft(run[..|run| - 1], id) || LeftAt(run, |run| - 1, id)
  {
    var n := |run| - 1;
    if WasLeft(run, id) && !LeftAt(run, n, id) {
      var k: nat :| k < |run| && LeftAt(run, k, id);
      LeftAtEarlier(run, k, id);
    }
    if WasLeft(run[..n], id) {
      var k: nat :| k < n && LeftAt(run[..n], k, id);
      LeftAtEarlier(run, k, id);
    }
  }

  // A session has had exactly one stop for its viewer's leaving when it was ended so, and none otherwise.
  lemma {:induction false} GoneExactly(run: seq<Event>, s: State, id: nat)
    requires After(run) == Some(s)
    ensures s.stops[ViewerGone(id)] == if WasLeft(run, id) then 1 else 0
  {
    if run != [] {
      var n := |run| - 1;
      RunKeepsInv(run);
      GoneExactly(run[..n], After(run[..n]).value, id);
      GoneStops(After(run[..n]).value, run[n]);
      WasLeftLast(run, id);
    }
  }

  // How capture c ended is how the run says it did.
  ghost predicate EndedAsRun(run: seq<Event>, s: State, c: nat) {
    if c >= |s.captures| || s.captures[c].stage.Capturing? then CaptureFinish(c, true) !in run && CaptureFinish(c, false) !in run
    else s.captures[c].stage.Finished? ==>
        CaptureFinish(c, s.captures[c].stage.ok) in run && CaptureFinish(c, !s.captures[c].stage.ok) !in run
  }

  lemma {:induction false} CapturesEndAsRun(run: seq<Event>, s: State, c: nat)
    requires After(run) == Some(s)
    ensures EndedAsRun(run, s, c)
  {
    if run != [] {
      var n := |run| - 1;
      var u := After(run[..n]).value;
      CapturesEndAsRun(run[..n], u, c);
      assert forall e :: e in run <==> e in run[..n] || e == run[n];
      CaptureStages(u, run[n], c);
    }
  }

  lemma CaptureStages(s: State, e: Event, c: nat)
    requires Enabled(s, e)
    ensures e.CaptureFinish? && e.capture == c ==>
              c < |s.captures| && s.captures[c].stage.Capturing?
              && c < |Step(s, e).captures| && Step(s, e).captures[c].stage == Finished(e.ok)
    ensures !(e.CaptureFinish? && e.capture == c) && c < |Step(s, e).captures| ==>
              var stage := Step(s, e).captures[c].stage;
              && (stage.Finished? ==> c < |s.captures| && stage == s.captures[c].stage)
              && (stage.Capturing? ==> c >= |s.captures| || s.captures[c].stage.Capturing?)
    ensures c >= |Step(s, e).captures| ==> c >= |s.captures|
  {
  }

  // What the run says became of record r: the first of its timer and its captures' ends decides.
  ghost function Verdict(run: seq<Event>, r: nat): Option<Outcome> {
    if run == [] then None
    else
      var n := |run| - 1;
      if Verdict(run[..n], r).Some? then Verdict(run[..n], r)
      else
        match run[n]
        case RecordTimer(q) => if q == r then Some(Rejected) else None
        case CaptureHand(c) =>
          if After(run[..n]).Some? && c < |After(run[..n]).value.captures| && After(run[..n]).value.captures[c].rec == r then
            Some(if CaptureFinish(c, true) in run[..n] then Resolved else Rejected)
          else None
        case _ => None
  }

  // A record is resolved exactly by a capture of it that ended well, rejected exactly by its timer or a
  // capture that did not, whichever came first.
  lemma {:induction false} OutcomeExactly(run: seq<Event>, s: State, r: nat)
    requires After(run) == Some(s)
    ensures if r < |s.recs| then s.recs[r].outcome == Verdict(run, r) else Verdict(run, r) == None
  {
    if run != [] {
      var n := |run| - 1;
      var u := After(run[..n]).value;
      OutcomeExactly(run[..n], u, r);
      RunKeepsInv(run[..n]);
      if run[n].CaptureHand? {
        CapturesEndAsRun(run[..n], u, run[n].capture);
      }
      OutcomeOnlyBy(u, run[n], r);
    }
  }

  lemma OutcomeOnlyBy(s: State, e: Event, r: nat)
    requires Inv(s) && Enabled(s, e)
    ensures r >= |Step(s, e).recs| ==> r >= |s.recs|
    ensures e == RecordTimer(r) || (e.CaptureHand? && s.captures[e.capture].rec == r) ==> r < |s.recs|
    ensures r < |Step(s, e).recs| ==>
              Step(s, e).recs[r].outcome
              == if r < |s.recs| && s.recs[r].outcome.Some? then s.recs[r].outcome
                 else if e == RecordTimer(r) then Some(Rejected)
                 else if e.CaptureHand? && s.captures[e.capture].rec == r then
                   Some(if s.captures[e.capture].stage.ok then Resolved else Rejected)
                 else None
  {
    OnlySubjectChanges(s, e);
    NewRecordIsLive(s, e);
    if e.CaptureHand? {
      assert CaptureOk(s, e.capture);
    }
  }

  lemma LastStep(run: seq<Event>, more: seq<Event>)
    requires more != [] && After(run + more).Some?
    ensures var n := |more| - 1;
            && After(run + more[..n]).Some? && Enabled(After(run + more[..n]).value, more[n])
            && After(run + more).value == Step(After(run + more[..n]).value, more[n])
  {
    var n := |more| - 1;
    assert (run + more)[..|run| + n] == run + more[..n];
    assert (run + more)[|run| + n] == more[n];
  }

  // A settled promise keeps its outcome in every continuation.
  lemma {:induction false} SettlesOnce(run: seq<Event>, more: seq<Event>, r: nat)
    requires After(run).Some? && After(run + more).Some?
    requires r < |After(run).value.recs| && After(run).value.recs[r].outcome.Some?
    ensures r < |After(run + more).value.recs|
    ensures After(run + more).value.recs[r].outcome == After(run).value.recs[r].outcome
    decreases |more|
  {
    if more == [] {
      assert run + more == run;
    } else {
      var n := |more| - 1;
      LastStep(run, more);
      SettlesOnce(run, more[..n], r);
      OutcomesStay(After(run + more[..n]).value, more[n]);
    }
  }

  // --- When the process ends -----------------------------------------------------------------

  // The step that makes a rejection unheard: the record's timer, or a failed capture of it, while its start
  // has not been accepted and nobody has joined.
  predicate RejectsUnheard(s: State, e: Event, r: nat) {
    && r < |s.recs| && s.recs[r].outcome.None? && !s.recs[r].awaited
    && (e == RecordTimer(r)
        || (e.CaptureHand? && e.capture < |s.captures| && s.captures[e.capture].rec == r
            && s.captures[e.capture].stage == Finished(false)))
  }

  lemma UnheardExactly(s: State, e: Event, r: nat)
    requires Enabled(s, e) && r < |s.recs| && !Unheard(s.recs[r])
    ensures r < |Step(s, e).recs| && (Unheard(Step(s, e).recs[r]) <==> RejectsUnheard(s, e, r))
  {
    OnlySubjectChanges(s, e);
  }

  lemma NewRecordIsHeard(s: State, e: Event)
    requires Enabled(s, e)
    ensures |s.recs| <= |Step(s, e).recs| <= |s.recs| + 1
    ensures |Step(s, e).recs| > |s.recs| ==> !Unheard(Step(s, e).recs[|s.recs|])
  {
  }

  // A step leaves the process without a future exactly when it rejects a record whose start was not
  // accepted and which nobody joined.
  lemma ProcessEndsExactly(s: State, e: Event)
    requires Inv(s) && Alive(s) && Enabled(s, e)
    ensures !Alive(Step(s, e)) <==> exists r: nat :: RejectsUnheard(s, e, r)
    ensures forall r: nat | RejectsUnheard(s, e, r) :: !s.recs[r].start.Accepted? && !Joined(s, r)
  {
    var t := Step(s, e);
    NewRecordIsHeard(s, e);
    forall r | 0 <= r < |s.recs|
      ensures r < |t.recs| && (Unheard(t.recs[r]) <==> RejectsUnheard(s, e, r))
    {
      UnheardExactly(s, e, r);
    }
  }

  // --- Records out of the map ------------------------------------------------------------------

  predicate Mapped(s: State, r: nat) {
    r < |s.recs| && s.recs[r].sn in s.pending && s.pending[s.recs[r].sn] == r
  }

  // A step that deletes r's serial on behalf of another record.
  predicate Sweeps(s: State, e: Event, r: nat) {
    && (match e
        case StartAnswered(_, ok) => !ok
        case RecordTimer(_) => true
        case CaptureCleanup(_) => true
        case _ => false)
    && Subject(s, e).Some?
    && var q := Subject(s, e).value;
       q != r && q < |s.recs| && r < |s.recs| && s.recs[q].sn == s.recs[r].sn
  }

  // A mapped record ends up out of the map with its timer live exactly by the deletes of an older record
  // of the same camera: its failed start, its own timer, or the end of a capture of it.
  lemma SweptExactly(s: State, e: Event, r: nat)
    requires Inv(s) && Enabled(s, e) && Mapped(s, r)
    ensures r < |Step(s, e).recs|
    ensures Step(s, e).recs[r].timerLive && !Mapped(Step(s, e), r) <==> Sweeps(s, e, r)
  {
    OnlySubjectChanges(s, e);
    StepExtends(s, e);
  }

  // Out of the map is out for good, and new captures go to mapped records only.
  lemma UnmappedStays(s: State, e: Event, r: nat)
    requires Inv(s) && Enabled(s, e) && r < |s.recs| && !Mapped(s, r)
    ensures !Mapped(Step(s, e), r)
    ensures |Step(s, e).captures| > |s.captures| ==> Step(s, e).captures[|s.captures|].rec != r
  {
    StepExtends(s, e);
    NewCapture(s, e);
    var sn := s.recs[r].sn;
    if sn in Step(s, e).pending {
      MapOnlyGainsNewRecord(s, e, sn);
    }
  }

  ghost predicate SweptAt(run: seq<Event>, n: nat, r: nat)
    requires n < |run|
  {
    && After(run[..n]).Some? && Mapped(After(run[..n]).value, r)
    && Sweeps(After(run[..n]).value, run[n], r)
  }

  lemma {:induction false} UnmappedWasSwept(run: seq<Event>, s: State, r: nat) returns (n: nat)
    requires After(run) == Some(s) && r < |s.recs| && s.recs[r].timerLive && !Mapped(s, r)
    ensures n < |run| && SweptAt(run, n, r)
  {
    var m := |run| - 1;
    var u := After(run[..m]).value;
    RunKeepsInv(run[..m]);
    TimersOnlyGoOut(u, run[m], r);
    if Mapped(u, r) {
      SweptExactly(u, run[m], r);
      n := m;
    } else {
      n := UnmappedWasSwept(run[..m], u, r);
      assert run[..m][..n] == run[..n];
    }
  }

  lemma TimersOnlyGoOut(s: State, e: Event, r: nat)
    requires Enabled(s, e) && r < |Step(s, e).recs| && Step(s, e).recs[r].timerLive && !Mapped(Step(s, e), r)
    ensures r < |s.recs| && s.recs[r].timerLive
  {
    OnlySubjectChanges(s, e);
  }

  lemma {:induction false} UnmappedForever(run: seq<Event>, more: seq<Event>, r: nat)
    requires After(run).Some? && After(run + more).Some?
    requires r < |After(run).value.recs| && !Mapped(After(run).value, r)
    ensures r < |After(run + more).value.recs| && !Mapped(After(run + more).value, r)
    decreases |more|
  {
    if more == [] {
      assert run + more == run;
    } else {
      var n := |more| - 1;
      LastStep(run, more);
      UnmappedForever(run, more[..n], r);
      RunKeepsInv(run + more[..n]);
      UnmappedStays(After(run + more[..n]).value, more[n], r);
      StepExtends(After(run + more[..n]).value, more[n]);
    }
  }

  // In every run: a record with a live timer is missing from the map exactly when some step of the run
  // swept it out.
  lemma LiveUnmappedExactly(run: seq<Event>, s: State, r: nat)
    requires After(run) == Some(s) && r < |s.recs| && s.recs[r].timerLive
    ensures !Mapped(s, r) <==> exists n :: 0 <= n < |run| && SweptAt(run, n, r)
  {
    if !Mapped(s, r) {
      var n := UnmappedWasSwept(run, s, r);
    }
    forall n | 0 <= n < |run| && SweptAt(run, n, r)
      ensures !Mapped(s, r)
    {
      SweptStaysOut(run, s, r, n);
    }
  }

  lemma SweptStaysOut(run: seq<Event>, s: State, r: nat, n: nat)
    requires After(run) == Some(s) && n < |run| && SweptAt(run, n, r)
    ensures !Mapped(s, r)
  {
    var first, more := run[..n + 1], run[n + 1..];
    assert run == first + more && first[..n] == run[..n];
    PrefixHappens(run, n + 1);
    RunKeepsInv(run[..n]);
    SweptExactly(After(run[..n]).value, run[n], r);
    UnmappedForever(first, more, r);
  }

  lemma {:induction false} PrefixHappens(run: seq<Event>, n: nat)
    requires After(run).Some? && n <= |run|
    ensures After(run[..n]).Some?
  {
    if n == |run| {
      assert run[..n] == run;
    } else {
      var m := |run| - 1;
      assert run[..m][..n] == run[..n];
      PrefixHappens(run[..m], n);
    }
  }

  // --- When a coalesced caller never hears back --------------------------------------------

  predicate IsOpen(cap: Capture, r: nat) { cap.rec == r && (cap.stage.Capturing? || cap.stage.Finished?) }

  predicate OpenCapture(s: State, r: nat) {
    exists c :: 0 <= c < |s.captures| && IsOpen(s.captures[c], r)
  }

  // Unsettled with nothing left that could settle it.
  predicate Stuck(s: State, r: nat) {
    r < |s.recs| && !s.recs[r].timerLive && s.recs[r].outcome.None? && !OpenCapture(s, r)
  }

  lemma NoNewCapture(s: State, e: Event, r: nat)
    requires Inv(s) && Enabled(s, e) && r < |s.recs| && !Mapped(s, r) && !OpenCapture(s, r)
    ensures !OpenCapture(Step(s, e), r)
  {
    var t := Step(s, e);
    UnmappedStays(s, e, r);
    NewCapture(s, e);
    StepExtends(s, e);
    forall c | 0 <= c < |t.captures|
      ensures !IsOpen(t.captures[c], r)
    {
      if c < |s.captures| {
        assert !IsOpen(s.captures[c], r);
        CaptureAdvances(s, e, c);
      }
    }
  }

  lemma CaptureStaysOpen(s: State, e: Event, r: nat)
    requires Inv(s) && Enabled(s, e) && OpenCapture(s, r)
    ensures OpenCapture(Step(s, e), r) || (r < |Step(s, e).recs| && Step(s, e).recs[r].outcome.Some?)
  {
    var c :| 0 <= c < |s.captures| && IsOpen(s.captures[c], r);
    assert CaptureOk(s, c);
    assert IsOpen(Step(s, e).captures[c], r) || e == CaptureHand(c);
  }

  lemma StuckStays(s: State, e: Event, r: nat)
    requires Inv(s) && Enabled(s, e) && Stuck(s, r)
    ensures Stuck(Step(s, e), r)
  {
    OnlySubjectChanges(s, e);
    NoNewCapture(s, e, r);
    if e.CaptureHand? {
      assert !IsOpen(s.captures[e.capture], r);
    }
  }

  lemma FailedStartSticks(s: State, r: nat)
    requires Inv(s) && Enabled(s, StartAnswered(r, false)) && s.recs[r].outcome.None? && !OpenCapture(s, r)
    ensures Stuck(Step(s, StartAnswered(r, false)), r)
  {
    assert Step(s, StartAnswered(r, false)).captures == s.captures;
  }

  lemma NothingElseSticks(s: State, e: Event, r: nat)
    requires Inv(s) && Enabled(s, e) && r < |s.recs| && !Stuck(s, r)
    requires !(e == StartAnswered(r, false) && s.recs[r].outcome.None? && !OpenCapture(s, r))
    ensures !Stuck(Step(s, e), r)
  {
    OnlySubjectChanges(s, e);
    OutcomesStay(s, e);
    if OpenCapture(s, r) {
      CaptureStaysOpen(s, e, r);
    } else if e.CaptureCleanup? {
      assert CaptureOk(s, e.capture);
    }
  }

  // The only step that leaves a record stuck is the failure of its own start while it is unsettled
  // and no capture of it is open; and once stuck it stays stuck.
  lemma StuckExactlyByFailedStart(s: State, e: Event, r: nat)
    requires Inv(s) && Enabled(s, e) && r < |s.recs|
    ensures Stuck(Step(s, e), r) <==>
            Stuck(s, r) || (e == StartAnswered(r, false) && s.recs[r].outcome.None? && !OpenCapture(s, r))
  {
    if Stuck(s, r) {
      StuckStays(s, e, r);
    } else if e == StartAnswered(r, false) && s.recs[r].outcome.None? && !OpenCapture(s, r) {
      FailedStartSticks(s, r);
    } else {
      NothingElseSticks(s, e, r);
    }
  }

  lemma {:induction false} StuckForever(run: seq<Event>, more: seq<Event>, r: nat)
    requires After(run).Some? && After(run + more).Some? && Stuck(After(run).value, r)
    ensures Stuck(After(run + more).value, r)
    decreases |more|
  {
    if more == [] {
      assert run + more == run;
    } else {
      var n := |more| - 1;
      LastStep(run, more);
      StuckForever(run, more[..n], r);
      RunKeepsInv(run + more[..n]);
      StuckExactlyByFailedStart(After(run + more[..n]).value, more[n], r);
    }
  }

  // What a caller of refreshSnapshot has heard: the caller that created the record also waits for the
  // start command, the others only for the promise.
  function Heard(s: State, call: Call): Option<Outcome>
    requires call.Refused? || call.rec < |s.recs|
  {
    match call
    case Refused => Some(Rejected)
    case Coalesced(r) => s.recs[r].outcome
    case Created(r) =>
      match s.recs[r].start
      case InFlight => None
      case Failed => Some(Rejected)
      case Accepted => s.recs[r].outcome
  }

  // 25 s after a record was created its coalesced callers have heard, or never will: the second exactly
  // when the record is stuck. The caller that created it has heard once the start was answered.
  lemma EveryCallerHears(run: seq<Event>, s: State, i: nat)
    requires After(run) == Some(s) && i < |s.calls|
    requires !s.calls[i].Refused? ==> s.calls[i].rec < |s.recs| && s.recs[s.calls[i].rec].deadline + CAPTURE_TIMEOUT < s.clock
    ensures s.calls[i].Coalesced? ==> (Heard(s, s.calls[i]).None? <==> Stuck(s, s.calls[i].rec))
    ensures s.calls[i].Created? ==> (Heard(s, s.calls[i]).None? <==> s.recs[s.calls[i].rec].start.InFlight?)
    ensures s.calls[i].Refused? ==> Heard(s, s.calls[i]) == Some(Rejected)
  {
    RunKeepsInv(run);
    SettledInTime(run, s);
    if !s.calls[i].Refused? {
      var r := s.calls[i].rec;
      assert !s.recs[r].timerLive;
      forall c | 0 <= c < |s.captures|
        ensures !IsOpen(s.captures[c], r)
      {
        assert CaptureOk(s, c);
      }
    }
  }

  // A record out of the map with no open capture is never resolved: at best its timer rejects it.
  lemma {:induction false} UnmappedNeverResolves(run: seq<Event>, more: seq<Event>, r: nat)
    requires After(run).Some? && After(run + more).Some?
    requires var s := After(run).value;
             r < |s.recs| && !Mapped(s, r) && !OpenCapture(s, r) && s.recs[r].outcome != Some(Resolved)
    ensures var t := After(run + more).value;
            r < |t.recs| && !Mapped(t, r) && !OpenCapture(t, r) && t.recs[r].outcome != Some(Resolved)
    decreases |more|
  {
    if more == [] {
      assert run + more == run;
    } else {
      var n := |more| - 1;
      LastStep(run, more);
      UnmappedNeverResolves(run, more[..n], r);
      var u := After(run + more[..n]).value;
      RunKeepsInv(run + more[..n]);
      UnmappedStays(u, more[n], r);
      NoNewCapture(u, more[n], r);
      OnlyCapturesResolve(u, more[n], r);
    }
  }

  lemma OnlyCapturesResolve(s: State, e: Event, r: nat)
    requires Enabled(s, e) && r < |s.recs| && !OpenCapture(s, r) && s.recs[r].outcome != Some(Resolved)
    ensures r < |Step(s, e).recs| && Step(s, e).recs[r].outcome != Some(Resolved)
  {
    OnlySubjectChanges(s, e);
    if e.CaptureHand? {
      assert !IsOpen(s.captures[e.capture], r);
    }
  }

  // --- Runs in which it goes wrong -------------------------------------------------------------

  lemma Advance(run: seq<Event>, s: State, e: Event) returns (longer: seq<Event>, t: State)
    requires After(run) == Some(s) && Enabled(s, e)
    ensures longer == run + [e] && t == Step(s, e) && After(longer) == Some(t)
  {
    longer, t := run + [e], Step(s, e);
    assert longer[..|run|] == run;
  }

  lemma OneRecord(sn: Serial) returns (run: seq<Event>, s: State)
    ensures run == [Connect, Refresh(sn)] && After(run) == Some(s)
    ensures s == State(0, true, map[sn := 0], [Record(sn, 15000, true, InFlight, None, false)], [], map[], [], 1,
                       multiset{}, [], [Created(0)])
  {
    run, s := Advance([], Initial(), Connect);
    run, s := Advance(run, s, Refresh(sn));
  }

  // A coalesced caller is left waiting for ever.
  lemma CoalescedCallerCanHang(sn: Serial) returns (run: seq<Event>, s: State)
    ensures run == [Connect, Refresh(sn), Refresh(sn), StartAnswered(0, false)] && After(run) == Some(s)
    ensures s.calls == [Created(0), Coalesced(0)] && Stuck(s, 0) && Alive(s)
  {
    run, s := OneRecord(sn);
    run, s := Advance(run, s, Refresh(sn));
    run, s := Advance(run, s, StartAnswered(0, false));
  }

  // A start that is not answered within 15 s ends the process when nobody has joined.
  lemma LoneTimeoutEndsProcess(sn: Serial) returns (run: seq<Event>, s: State)
    ensures run == [Connect, Refresh(sn), Tick(15000), RecordTimer(0)] && After(run) == Some(s)
    ensures !Alive(s) && forall e | Enabled(s, e) :: e.StartAnswered?
  {
    run, s := OneRecord(sn);
    run, s := Advance(run, s, Tick(15000));
    run, s := Advance(run, s, RecordTimer(0));
    assert Unheard(s.recs[0]);
  }

  lemma JoinedTimesOut(sn: Serial) returns (run: seq<Event>, s: State)
    ensures After(run) == Some(s)
    ensures s.clock == 15000 && s.connected && s.pending == map[] && s.sessions == map[] && s.captures == []
    ensures s.recs == [Record(sn, 15000, false, InFlight, Some(Rejected), true)]
  {
    run, s := OneRecord(sn);
    run, s := Advance(run, s, Refresh(sn));
    run, s := Advance(run, s, Tick(15000));
    run, s := Advance(run, s, RecordTimer(0));
  }

  // The late failure of an old record's start takes a newer record out of the map.
  lemma OldFailureRemovesNewerRecord(sn: Serial) returns (run: seq<Event>, s: State)
    ensures After(run) == Some(s) && Alive(s)
    ensures s.clock == 15000 && s.connected && s.pending == map[] && s.sessions == map[] && s.captures == []
    ensures s.recs == [Record(sn, 15000, false, Failed, Some(Rejected), true), Record(sn, 30000, true, InFlight, None, false)]
  {
    run, s := JoinedTimesOut(sn);
    run, s := Advance(run, s, Refresh(sn));
    run, s := Advance(run, s, StartAnswered(0, false));
  }

  // And the timer of a record so removed takes out a third one.
  lemma OldTimerRemovesNewerRecord(sn: Serial) returns (run: seq<Event>, s: State)
    ensures After(run) == Some(s) && Alive(s)
    ensures |s.recs| == 3 && s.recs[2].timerLive && s.recs[2].deadline > s.clock && !Mapped(s, 2)
  {
    run, s := UnmappedIsAccepted(sn);
    run, s := Advance(run, s, Refresh(sn));
    run, s := OldTimerFires(sn, run, s);
  }

  lemma UnmappedIsAccepted(sn: Serial) returns (run: seq<Event>, s: State)
    ensures After(run) == Some(s)
    ensures s.clock == 16000 && s.connected && s.pending == map[] && s.sessions == map[] && s.captures == []
    ensures s.recs == [Record(sn, 15000, false, Failed, Some(Rejected), true), Record(sn, 30000, true, Accepted, None, true)]
  {
    run, s := OldFailureRemovesNewerRecord(sn);
    run, s := Advance(run, s, StartAnswered(1, true));
    run, s := Advance(run, s, Tick(1000));
  }

  lemma OldTimerFires(sn: Serial, before: seq<Event>, u: State) returns (run: seq<Event>, s: State)
    requires After(before) == Some(u)
    requires u.clock == 16000 && u.pending == map[sn := 2] && u.captures == []
    requires u.recs == [Record(sn, 15000, false, Failed, Some(Rejected), true),
                        Record(sn, 30000, true, Accepted, None, true), Record(sn, 31000, true, InFlight, None, false)]
    ensures After(run) == Some(s) && Alive(s)
    ensures |s.recs| == 3 && s.recs[2].timerLive && s.recs[2].deadline > s.clock && !Mapped(s, 2)
  {
    run, s := Advance(before, u, Tick(14000));
    run, s := Advance(run, s, RecordTimer(1));
  }

  lemma LateCapture(sn: Serial) returns (run: seq<Event>, s: State)
    ensures After(run) == Some(s)
    ensures s.clock == 14000 && s.connected && s.pending == map[sn := 0] && s.sessions == map[]
    ensures s.recs == [Record(sn, 15000, true, Accepted, None, true)]
    ensures s.captures == [Capture(0, 24000, Capturing)]
  {
    run, s := OneRecord(sn);
    run, s := Advance(run, s, StartAnswered(0, true));
    run, s := Advance(run, s, Tick(14000));
    run, s := Advance(run, s, LivestreamStart(sn));
  }

  lemma TimedOutWhileCapturing(sn: Serial) returns (run: seq<Event>, s: State)
    ensures After(run) == Some(s)
    ensures s.clock == 15000 && s.connected && s.pending == map[] && s.sessions == map[]
    ensures s.recs == [Record(sn, 15000, false, Accepted, Some(Rejected), true)]
    ensures s.captures == [Capture(0, 24000, Capturing)]
  {
    run, s := LateCapture(sn);
    run, s := Advance(run, s, Tick(1000));
    run, s := Advance(run, s, RecordTimer(0));
  }

  lemma SecondRecordAccepted(sn: Serial) returns (run: seq<Event>, s: State)
    ensures After(run) == Some(s)
    ensures s.recs == [Record(sn, 15000, false, Accepted, Some(Rejected), true), Record(sn, 30000, true, Accepted, None, true)]
    ensures s.captures == [Capture(0, 24000, Capturing)] && s.pending == map[sn := 1]
  {
    run, s := TimedOutWhileCapturing(sn);
    run, s := Advance(run, s, Refresh(sn));
    run, s := Advance(run, s, StartAnswered(1, true));
  }

  // With every start accepted, the end of an old record's capture takes a newer record out of the map.
  lemma OldCaptureRemovesNewerRecord(sn: Serial) returns (run: seq<Event>, s: State)
    ensures After(run) == Some(s) && Alive(s)
    ensures |s.recs| == 2 && s.recs[0].start.Accepted? && s.recs[1].start.Accepted?
    ensures s.recs[1].timerLive && !Mapped(s, 1)
  {
    run, s := SecondRecordAccepted(sn);
    run, s := Advance(run, s, CaptureFinish(0, true));
    run, s := Advance(run, s, CaptureHand(0));
    run, s := Advance(run, s, CaptureCleanup(0));
  }
}
