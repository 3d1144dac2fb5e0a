/** Browser alerts: what GET /api/events returns, and the poller that notifies each event once and moves its
    watermark (cam-frontend/server.js, cam-frontend/public/viewer.html). */
module EventPoller {
  import opened JsText
  import opened History

  datatype Ev = Ev(id: string, time: int)

  // --- The answer to a poll ----------------------------------------------------------------

  function After(events: seq<Ev>, since: int): seq<Ev> {
    if events == [] then []
    else if events[0].time > since then [events[0]] + After(events[1..], since)
    else After(events[1..], since)
  }

  // A stable sort by time, latest first or earliest first.
  function Insert(e: Ev, events: seq<Ev>, descending: bool): seq<Ev> {
    if events == [] || (if descending then e.time >= events[0].time else e.time <= events[0].time) then [e] + events
    else [events[0]] + Insert(e, events[1..], descending)
  }

  function Sort(events: seq<Ev>, descending: bool): seq<Ev> {
    if events == [] then [] else Insert(events[0], Sort(events[1..], descending), descending)
  }

  // The server's .filter(e => e.time > since).sort((a, b) => b.time - a.time).
  function Served(events: seq<Ev>, since: int): seq<Ev> { Sort(After(events, since), true) }

  // What the poller goes through: the served events, earliest first.
  function Polled(events: seq<Ev>, since: int): seq<Ev> { Sort(Served(events, since), false) }

  ghost predicate Ascending(events: seq<Ev>) {
    forall i, j :: 0 <= i < j < |events| ==> events[i].time <= events[j].time
  }

  lemma {:induction false} InsertIsPermutation(e: Ev, events: seq<Ev>, descending: bool)
    ensures multiset(Insert(e, events, descending)) == multiset(events) + multiset{e}
  {
    if events != [] {
      assert events == [events[0]] + events[1..];
      InsertIsPermutation(e, events[1..], descending);
    }
  }

  lemma {:induction false} SortIsPermutation(events: seq<Ev>, descending: bool)
    ensures multiset(Sort(events, descending)) == multiset(events)
  {
    if events != [] {
      SortIsPermutation(events[1..], descending);
      InsertIsPermutation(events[0], Sort(events[1..], descending), descending);
      assert events == [events[0]] + events[1..];
    }
  }

  lemma {:induction false} InsertKeepsAscending(e: Ev, events: seq<Ev>)
    requires Ascending(events)
    ensures Ascending(Insert(e, events, false))
  {
    if events != [] && e.time > events[0].time {
      InsertKeepsAscending(e, events[1..]);
      InsertIsPermutation(e, events[1..], false);
      var rest := Insert(e, events[1..], false);
      forall j | 0 <= j < |rest|
        ensures events[0].time <= rest[j].time
      {
        assert rest[j] in multiset(rest);
        assert rest[j] == e || rest[j] in events[1..];
      }
    }
  }

  lemma {:induction false} SortAscends(events: seq<Ev>)
    ensures Ascending(Sort(events, false))
  {
    if events != [] {
      SortAscends(events[1..]);
      InsertKeepsAscending(events[0], Sort(events[1..], false));
    }
  }

  lemma {:induction false} AfterIsFilter(events: seq<Ev>, since: int)
    ensures forall e :: e in After(events, since) <==> e in events && e.time > since
  {
    if events != [] {
      AfterIsFilter(events[1..], since);
      assert events == [events[0]] + events[1..];
    }
  }

  // The poller sees exactly the events after the watermark it asked with, in order of time.
  lemma PolledIsExact(events: seq<Ev>, since: int)
    ensures Ascending(Polled(events, since))
    ensures forall e :: e in Polled(events, since) <==> e in events && e.time > since
  {
    var filtered := After(events, since);
    SortAscends(Served(events, since));
    AfterIsFilter(events, since);
    SortIsPermutation(filtered, true);
    SortIsPermutation(Served(events, since), false);
    forall e
      ensures e in Polled(events, since) <==> e in filtered
    {
      assert e in Polled(events, since) <==> e in multiset(Polled(events, since));
      assert e in filtered <==> e in multiset(filtered);
    }
  }

  // --- The poller --------------------------------------------------------------------------

  // A notification and the poll it came from.
  datatype Note = Note(ev: Ev, poll: nat)

  datatype Poll = Poll(since: int, open: bool)

  datatype State = State(
    alertsOn: bool,
    eventsSince: int,
    seenEvents: set<string>,
    polls: seq<Poll>,
    notes: seq<Note>,
    // When the current period of alerts began, and the notifications before it.
    startTime: int,
    startNotes: nat)

  datatype Event =
    | StartAlerts(now: int)
    | StopAlerts
    | PollDue
    | Answered(poll: nat, events: seq<Ev>)
    | Failed(poll: nat)

  function Initial(now: int): State { State(false, now, {}, [], [], now, 0) }

  predicate Enabled(s: State, e: Event) {
    match e
    case PollDue => s.alertsOn
    case Answered(i, _) => i < |s.polls| && s.polls[i].open
    case Failed(i) => i < |s.polls| && s.polls[i].open
    case _ => true
  }

  // The loop of pollEvents over the sorted events.
  function Handle(s: State, events: seq<Ev>, poll: nat): State
    decreases |events|
  {
    if events == [] then s
    else Handle(HandleOne(s, events[0], poll), events[1..], poll)
  }

  function HandleOne(s: State, e: Ev, poll: nat): State {
    if e.id in s.seenEvents then s
    else
      s.(seenEvents := s.seenEvents + {e.id},
         eventsSince := if e.time > s.eventsSince then e.time else s.eventsSince,
         notes := s.notes + [Note(e, poll)])
  }

  function Step(s: State, e: Event): State
    requires Enabled(s, e)
  {
    match e
    case StartAlerts(now) =>
      if s.alertsOn then s
      else
        s.(alertsOn := true, eventsSince := now, polls := s.polls + [Poll(now, true)],
           startTime := now, startNotes := |s.notes|)
    case StopAlerts => s.(alertsOn := false)
    case PollDue => s.(polls := s.polls + [Poll(s.eventsSince, true)])
    case Answered(i, events) =>
      Handle(s.(polls := s.polls[i := s.polls[i].(open := false)]), Polled(events, s.polls[i].since), i)
    case Failed(i) => s.(polls := s.polls[i := s.polls[i].(open := false)])
  }

  ghost function Run(s: State, run: seq<Event>): Option<State>
    decreases |run|
  {
    if run == [] then Some(s)
    else if Enabled(s, run[0]) then Run(Step(s, run[0]), run[1..])
    else None
  }

  // --- Once only, and the watermark: in every run -------------------------------------------

  ghost predicate Once(s: State) {
    && (forall i, j :: 0 <= i < j < |s.notes| ==> s.notes[i].ev.id != s.notes[j].ev.id)
    && (forall id :: id in s.seenEvents <==> exists i :: 0 <= i < |s.notes| && s.notes[i].ev.id == id)
  }

  // The watermark is the greatest of the period's start and the times notified in it.
  ghost predicate Watermark(s: State) {
    && s.startNotes <= |s.notes|
    && s.startTime <= s.eventsSince
    && (forall i :: s.startNotes <= i < |s.notes| ==> s.notes[i].ev.time <= s.eventsSince)
    && (s.eventsSince == s.startTime || exists i :: s.startNotes <= i < |s.notes| && s.notes[i].ev.time == s.eventsSince)
  }

  lemma HandleOneKeeps(s: State, e: Ev, poll: nat)
    requires Once(s) && Watermark(s)
    ensures Once(HandleOne(s, e, poll)) && Watermark(HandleOne(s, e, poll))
  {
    var t := HandleOne(s, e, poll);
    if e.id !in s.seenEvents {
      assert t.notes[|s.notes|].ev == e;
      forall id
        ensures id in t.seenEvents <==> exists i :: 0 <= i < |t.notes| && t.notes[i].ev.id == id
      {
        if id in s.seenEvents {
          var i :| 0 <= i < |s.notes| && s.notes[i].ev.id == id;
          assert t.notes[i].ev.id == id;
        }
      }
      if t.eventsSince == s.eventsSince && s.eventsSince != s.startTime {
        var i :| s.startNotes <= i < |s.notes| && s.notes[i].ev.time == s.eventsSince;
        assert t.notes[i].ev.time == s.eventsSince;
      }
    }
  }

  lemma {:induction false} HandleKeeps(s: State, events: seq<Ev>, poll: nat)
    requires Once(s) && Watermark(s)
    ensures Once(Handle(s, events, poll)) && Watermark(Handle(s, events, poll))
    decreases |events|
  {
    if events != [] {
      HandleOneKeeps(s, events[0], poll);
      HandleKeeps(HandleOne(s, events[0], poll), events[1..], poll);
    }
  }

  // What handling a list of events leaves alone, and what it adds.
  ghost predicate Grown(s: State, t: State, events: seq<Ev>, poll: nat) {
    && t == s.(seenEvents := t.seenEvents, eventsSince := t.eventsSince, notes := t.notes)
    && s.notes <= t.notes && s.seenEvents <= t.seenEvents
    && (forall i :: |s.notes| <= i < |t.notes| ==> t.notes[i].poll == poll && t.notes[i].ev in events)
    && (forall e :: e in events ==> e.id in t.seenEvents)
  }

  lemma GrownCons(s: State, m: State, t: State, events: seq<Ev>, poll: nat)
    requires events != [] && Grown(s, m, [events[0]], poll) && Grown(m, t, events[1..], poll)
    ensures Grown(s, t, events, poll)
  {
    assert events == [events[0]] + events[1..];
    forall i | |s.notes| <= i < |t.notes|
      ensures t.notes[i].poll == poll && t.notes[i].ev in events
    {
      if i < |m.notes| {
        assert t.notes[i] == m.notes[i];
      }
    }
  }

  lemma {:induction false} HandleGrows(s: State, events: seq<Ev>, poll: nat)
    ensures Grown(s, Handle(s, events, poll), events, poll)
    decreases |events|
  {
    if events != [] {
      var m := HandleOne(s, events[0], poll);
      HandleGrows(m, events[1..], poll);
      GrownCons(s, m, Handle(s, events, poll), events, poll);
    }
  }

  lemma StepKeeps(s: State, e: Event)
    requires Once(s) && Watermark(s) && Enabled(s, e)
    ensures Once(Step(s, e)) && Watermark(Step(s, e))
    ensures s.notes <= Step(s, e).notes && s.seenEvents <= Step(s, e).seenEvents
  {
    if e.Answered? {
      var t := s.(polls := s.polls[e.poll := s.polls[e.poll].(open := false)]);
      HandleKeeps(t, Polled(e.events, s.polls[e.poll].since), e.poll);
      HandleGrows(t, Polled(e.events, s.polls[e.poll].since), e.poll);
    }
  }

  // In every run, overlapping polls or not: no event is notified twice, and the watermark is the maximum of
  // the period's start and the times handled in it.
  lemma {:induction false} NotifiedOnce(s: State, run: seq<Event>)
    requires Once(s) && Watermark(s) && Run(s, run).Some?
    ensures var t := Run(s, run).value;
            Once(t) && Watermark(t) && s.notes <= t.notes && s.seenEvents <= t.seenEvents
    decreases |run|
  {
    if run != [] {
      StepKeeps(s, run[0]);
      NotifiedOnce(Step(s, run[0]), run[1..]);
    }
  }

  // Every event a poll returns has been notified by then, exactly once, and stays so.
  lemma ReturnedIsNotified(s: State, i: nat, events: seq<Ev>, run: seq<Event>, e: Ev)
    requires Once(s) && Watermark(s) && Enabled(s, Answered(i, events))
    requires Run(Step(s, Answered(i, events)), run).Some?
    requires e in events && e.time > s.polls[i].since
    ensures var t := Run(Step(s, Answered(i, events)), run).value;
            && (exists j :: 0 <= j < |t.notes| && t.notes[j].ev.id == e.id)
            && (forall j, k :: 0 <= j < k < |t.notes| ==> !(t.notes[j].ev.id == e.id == t.notes[k].ev.id))
  {
    var t := Step(s, Answered(i, events));
    PolledIsExact(events, s.polls[i].since);
    HandleGrows(s.(polls := s.polls[i := s.polls[i].(open := false)]), Polled(events, s.polls[i].since), i);
    assert e.id in t.seenEvents;
    StepKeeps(s, Answered(i, events));
    NotifiedOnce(t, run);
    assert e.id in Run(t, run).value.seenEvents;
  }

  function Starts(): Event -> bool { (e: Event) => e.StartAlerts? }

  function Stops(): Event -> bool { (e: Event) => e.StopAlerts? }

  // Alerts are on exactly when they were started and not stopped since; only then do further polls begin.
  lemma {:induction false} AlertsOnExactly(s: State, run: seq<Event>)
    requires Run(s, run).Some?
    ensures Run(s, run).value.alertsOn <==> Since(run, Starts(), Stops()) || (s.alertsOn && Never(run, Stops()))
    decreases |run|
  {
    if run != [] {
      SinceFirst(run, Starts(), Stops());
      if run[0].Answered? {
        HandleGrows(s.(polls := s.polls[run[0].poll := s.polls[run[0].poll].(open := false)]),
                    Polled(run[0].events, s.polls[run[0].poll].since), run[0].poll);
      }
      AlertsOnExactly(Step(s, run[0]), run[1..]);
      assert OnSince(run, 0, Starts(), Stops()) <==> run[0].StartAlerts? && Never(run[1..], Stops());
    }
  }

  // --- Order, when polls do not overlap ----------------------------------------------------

  // No poll starts, and no period begins, while another poll is open.
  ghost predicate Apart(s: State, e: Event) {
    e.StartAlerts? || e.PollDue? ==> forall i | 0 <= i < |s.polls| :: !s.polls[i].open
  }

  // The period's notifications: never back in time, strictly forward from one poll to another.
  ghost predicate Rising(notes: seq<Note>, from: nat) {
    forall i, j | from <= i < j < |notes| ::
      && notes[i].ev.time <= notes[j].ev.time
      && (notes[i].poll != notes[j].poll ==> notes[i].ev.time < notes[j].ev.time)
  }

  ghost predicate InOrder(s: State) {
    && s.startNotes <= |s.notes|
    && (forall i | 0 <= i < |s.polls| && s.polls[i].open :: i == |s.polls| - 1 && s.polls[i].since == s.eventsSince)
    && (forall i | 0 <= i < |s.notes| :: s.notes[i].poll < |s.polls| && !s.polls[s.notes[i].poll].open)
    && (forall i | s.startNotes <= i < |s.notes| :: s.notes[i].ev.time <= s.eventsSince)
    && Rising(s.notes, s.startNotes)
  }

  // Handling poll's events, none later than bound so far, all from another poll no later than floor.
  ghost predicate Handling(s: State, poll: nat, floor: int, bound: int) {
    && s.startNotes <= |s.notes|
    && Rising(s.notes, s.startNotes)
    && (forall i | s.startNotes <= i < |s.notes| ::
          s.notes[i].ev.time <= bound && (s.notes[i].poll != poll ==> s.notes[i].ev.time <= floor))
  }

  lemma HandlingOne(s: State, e: Ev, poll: nat, floor: int, bound: int)
    requires Handling(s, poll, floor, bound) && floor < e.time && bound <= e.time
    ensures Handling(HandleOne(s, e, poll), poll, floor, e.time)
  {
  }

  lemma {:induction false} HandlingAll(s: State, events: seq<Ev>, poll: nat, floor: int, bound: int)
    requires Handling(s, poll, floor, bound) && Ascending(events)
    requires forall i :: 0 <= i < |events| ==> floor < events[i].time && bound <= events[i].time
    ensures Rising(Handle(s, events, poll).notes, s.startNotes)
    decreases |events|
  {
    if events != [] {
      HandlingOne(s, events[0], poll, floor, bound);
      HandlingAll(HandleOne(s, events[0], poll), events[1..], poll, floor, events[0].time);
    }
  }

  lemma AnswerRises(s: State, i: nat, events: seq<Ev>)
    requires InOrder(s) && Enabled(s, Answered(i, events))
    ensures Rising(Step(s, Answered(i, events)).notes, s.startNotes)
  {
    var t := s.(polls := s.polls[i := s.polls[i].(open := false)]);
    var todo := Polled(events, s.polls[i].since);
    PolledIsExact(events, s.polls[i].since);
    forall k | 0 <= k < |todo|
      ensures s.eventsSince < todo[k].time
    {
      assert todo[k] in todo;
    }
    HandlingAll(t, todo, i, s.eventsSince, s.eventsSince);
  }

  lemma AnswerKeepsOrder(s: State, i: nat, events: seq<Ev>)
    requires Once(s) && Watermark(s) && InOrder(s) && Enabled(s, Answered(i, events))
    ensures InOrder(Step(s, Answered(i, events)))
  {
    var t := s.(polls := s.polls[i := s.polls[i].(open := false)]);
    var todo := Polled(events, s.polls[i].since);
    AnswerRises(s, i, events);
    StepKeeps(s, Answered(i, events));
    HandleGrows(t, todo, i);
    HandledInOrder(t, Handle(t, todo, i), todo, i);
  }

  lemma HandledInOrder(t: State, u: State, todo: seq<Ev>, i: nat)
    requires i < |t.polls| && (forall k :: 0 <= k < |t.polls| ==> !t.polls[k].open)
    requires forall k | 0 <= k < |t.notes| :: t.notes[k].poll < |t.polls|
    requires Grown(t, u, todo, i) && Watermark(u) && Rising(u.notes, u.startNotes)
    ensures InOrder(u)
  {
    forall k | 0 <= k < |u.notes|
      ensures u.notes[k].poll < |u.polls|
    {
      if k < |t.notes| {
        assert u.notes[k] == t.notes[k];
      }
    }
  }

  lemma StepKeepsOrder(s: State, e: Event)
    requires Once(s) && Watermark(s) && InOrder(s) && Enabled(s, e) && Apart(s, e)
    ensures InOrder(Step(s, e))
  {
    if e.Answered? {
      AnswerKeepsOrder(s, e.poll, e.events);
    }
  }

  ghost predicate ApartRun(s: State, run: seq<Event>)
    decreases |run|
  {
    run == [] || (Enabled(s, run[0]) && Apart(s, run[0]) && ApartRun(Step(s, run[0]), run[1..]))
  }

  // Without overlapping polls the notifications of a period never go back in time, and go strictly
  // forward from one poll to the next.
  lemma {:induction false} NotifiedInOrder(s: State, run: seq<Event>)
    requires Once(s) && Watermark(s) && InOrder(s) && ApartRun(s, run)
    ensures Run(s, run).Some? && InOrder(Run(s, run).value)
    decreases |run|
  {
    if run != [] {
      StepKeeps(s, run[0]);
      StepKeepsOrder(s, run[0]);
      NotifiedInOrder(Step(s, run[0]), run[1..]);
    }
  }

  lemma AnswerSees(s: State, i: nat, events: seq<Ev>)
    requires Enabled(s, Answered(i, events))
    ensures var t := Step(s, Answered(i, events));
            && (forall e | e in events && e.time > s.polls[i].since :: e.id in t.seenEvents)
            && s.notes <= t.notes && s.seenEvents <= t.seenEvents
  {
    PolledIsExact(events, s.polls[i].since);
    HandleGrows(s.(polls := s.polls[i := s.polls[i].(open := false)]), Polled(events, s.polls[i].since), i);
  }

  lemma NewPage(now: int)
    ensures Once(Initial(now)) && Watermark(Initial(now)) && InOrder(Initial(now))
  {
  }

  // --- The object --------------------------------------------------------------------------

  class Poller {
    var alertsOn: bool
    var eventsSince: int
    var seenEvents: set<string>
    var polls: seq<Poll>
    var notes: seq<Note>
    ghost var startTime: int
    ghost var startNotes: nat

    ghost function View(): State
      reads this
    {
      State(alertsOn, eventsSince, seenEvents, polls, notes, startTime, startNotes)
    }

    ghost predicate Valid()
      reads this
    {
      Once(View()) && Watermark(View())
    }

    constructor (now: int)
      ensures View() == Initial(now) && Valid()
    {
      alertsOn, eventsSince, seenEvents, polls, notes := false, now, {}, [], [];
      startTime, startNotes := now, 0;
    }

    method BeginAlerts(now: int)
      requires Valid()
      modifies this
      ensures View() == Step(old(View()), StartAlerts(now)) && Valid()
      ensures old(alertsOn) ==> View() == old(View())
      ensures !old(alertsOn) ==> |polls| == |old(polls)| + 1 && polls[|old(polls)|] == Poll(now, true)
    {
      StepKeeps(View(), StartAlerts(now));
      if alertsOn {
        return;
      }
      alertsOn := true;
      eventsSince := now;
      startTime, startNotes := now, |notes|;
      BeginPoll();
    }

    method EndAlerts()
      requires Valid()
      modifies this
      ensures View() == Step(old(View()), StopAlerts) && Valid()
    {
      StepKeeps(View(), StopAlerts);
      alertsOn := false;
    }

    // A poll asks from the watermark on: from the latest time notified in this period, or its start.
    method BeginPoll()
      requires Valid()
      modifies this`polls
      ensures polls == old(polls) + [Poll(eventsSince, true)] && Valid()
      ensures forall i | startNotes <= i < |notes| :: notes[i].ev.time <= polls[|old(polls)|].since
    {
      polls := polls + [Poll(eventsSince, true)];
    }

    // pollEvents after its fetch: the loop over the events, earliest first.
    method OnAnswer(i: nat, events: seq<Ev>)
      requires Valid() && Enabled(View(), Answered(i, events))
      modifies this
      ensures View() == Step(old(View()), Answered(i, events)) && Valid()
      ensures forall e | e in events && e.time > old(polls)[i].since :: e.id in seenEvents
      ensures old(notes) <= notes && old(seenEvents) <= seenEvents
    {
      StepKeeps(View(), Answered(i, events));
      AnswerSees(View(), i, events);
      var todo := Polled(events, polls[i].since);
      polls := polls[i := polls[i].(open := false)];
      ghost var begun := View();
      for n := 0 to |todo|
        invariant Handle(begun, todo, i) == Handle(View(), todo[n..], i)
      {
        var e := todo[n];
        assert todo[n..][0] == e && todo[n..][1..] == todo[n + 1..];
        if e.id !in seenEvents {
          seenEvents := seenEvents + {e.id};
          if e.time > eventsSince {
            eventsSince := e.time;
          }
          notes := notes + [Note(e, i)];
        }
      }
    }
  }
}
