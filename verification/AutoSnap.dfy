/** The automatic snapshot schedule of eufy/server.js: configured minutes, interval timers, the stored file. */
module AutoSnap {
  import opened JsText

  type Serial = string

  const ALLOWED: seq<real> := [1.0, 5.0, 15.0, 30.0, 60.0]
  const MINUTE: real := 60000.0

  // A running interval: the camera its callback refreshes, and its period.
  datatype Interval = Interval(sn: Serial, ms: real)

  // The stored file: each camera's Number(minutes), None where that is not finite.
  type Stored = map<Serial, Option<real>>

  datatype State = State(
    minutes: map<Serial, real>,
    timers: map<Serial, nat>,
    live: map<nat, Interval>,
    nextHandle: nat,
    stored: Stored,
    // The last write of the file succeeded.
    inSync: bool,
    everConnected: bool,
    shutDown: bool)

  datatype Event =
    | Set(sn: Serial, wanted: Option<real>, written: bool)
    | Connected(order: seq<Serial>)
    | Interrupted(order: seq<Serial>)

  // Each of keys, once.
  ghost predicate Lists(order: seq<Serial>, keys: set<Serial>) {
    && (forall sn :: sn in order <==> sn in keys)
    && (forall i, j :: 0 <= i < j < |order| ==> order[i] != order[j])
  }

  ghost predicate Enabled(s: State, e: Event) {
    match e
    case Set(_, _, _) => true
    case Connected(order) => Lists(order, s.minutes.Keys)
    case Interrupted(order) => Lists(order, s.timers.Keys)
  }

  // --- Steps -------------------------------------------------------------------------------

  // loadAutoSnapConfig
  function Loaded(stored: Stored): map<Serial, real> {
    map sn | sn in stored && stored[sn].Some? && stored[sn].value >= 1.0 :: stored[sn].value
  }

  function Boot(stored: Stored): State {
    State(Loaded(stored), map[], map[], 0, stored, true, false, false)
  }

  // persistAutoSnapConfig
  function Persisted(s: State, written: bool): State {
    s.(stored := if written then map sn | sn in s.minutes :: Some(s.minutes[sn]) else s.stored, inSync := written)
  }

  function Cleared(s: State, sn: Serial): State {
    s.(live := if sn in s.timers then s.live - {s.timers[sn]} else s.live, timers := s.timers - {sn})
  }

  function Scheduled(s: State, sn: Serial): State {
    var t := Cleared(s, sn);
    if sn !in s.minutes || s.minutes[sn] == 0.0 then t
    else
      t.(live := t.live[s.nextHandle := Interval(sn, s.minutes[sn] * MINUTE)],
         nextHandle := s.nextHandle + 1,
         timers := t.timers[sn := s.nextHandle])
  }

  function ScheduledAll(s: State, order: seq<Serial>): State
    decreases |order|
  {
    if order == [] then s else ScheduledAll(Scheduled(s, order[0]), order[1..])
  }

  function ClearedAll(s: State, order: seq<Serial>): State
    decreases |order|
  {
    if order == [] then s else ClearedAll(Cleared(s, order[0]), order[1..])
  }

  predicate Off(wanted: Option<real>) { wanted.None? || wanted.value == 0.0 }

  predicate Refused(wanted: Option<real>) { !Off(wanted) && wanted.value !in ALLOWED }

  // setAutoSnap
  function SetStep(s: State, sn: Serial, wanted: Option<real>, written: bool): State {
    if Off(wanted) then Persisted(Cleared(s.(minutes := s.minutes - {sn}), sn), written)
    else if Refused(wanted) then s
    else Persisted(Scheduled(s.(minutes := s.minutes[sn := wanted.value]), sn), written)
  }

  function Step(s: State, e: Event): State {
    match e
    case Set(sn, wanted, written) => SetStep(s, sn, wanted, written)
    case Connected(order) => ScheduledAll(s, order).(everConnected := true)
    case Interrupted(order) => ClearedAll(s, order).(shutDown := true)
  }

  ghost function Run(s: State, run: seq<Event>): Option<State>
    decreases |run|
  {
    if run == [] then Some(s)
    else if Enabled(s, run[0]) then Run(Step(s, run[0]), run[1..])
    else None
  }

  // --- The intervals in every run ------------------------------------------------------------

  // Live intervals are exactly the values of timers: one for each scheduled camera, with its own period.
  ghost predicate Matched(s: State) {
    && (forall h :: h in s.live ==> h < s.nextHandle && s.live[h].sn in s.timers && s.timers[s.live[h].sn] == h)
    && (forall sn :: sn in s.timers ==> s.timers[sn] in s.live && s.live[s.timers[sn]].sn == sn)
  }

  // Camera sn's interval, if it has one, runs at its configured period.
  ghost predicate RunsAt(s: State, sn: Serial) {
    sn in s.timers ==>
      sn in s.minutes && s.timers[sn] in s.live && s.live[s.timers[sn]] == Interval(sn, s.minutes[sn] * MINUTE)
  }

  // Everything but the stored file.
  ghost predicate InMemory(s: State) {
    && Matched(s)
    && (forall sn :: RunsAt(s, sn))
    && (forall sn :: sn in s.minutes ==> s.minutes[sn] >= 1.0)
    && (s.everConnected && !s.shutDown ==> s.timers.Keys == s.minutes.Keys)
  }

  ghost predicate Inv(s: State) {
    InMemory(s) && (s.inSync ==> Loaded(s.stored) == s.minutes)
  }

  lemma ClearedKeeps(s: State, sn: Serial)
    requires Matched(s)
    ensures Matched(Cleared(s, sn))
    ensures forall other :: RunsAt(s, other) ==> RunsAt(Cleared(s, sn), other)
    ensures RunsAt(Cleared(s, sn), sn) && sn !in Cleared(s, sn).timers
    ensures forall h :: h in Cleared(s, sn).live ==> h in s.live && s.live[h].sn != sn
  {
  }

  lemma AddedKeeps(s: State, sn: Serial, ms: real)
    requires Matched(s) && sn !in s.timers
    ensures var t := s.(live := s.live[s.nextHandle := Interval(sn, ms)], nextHandle := s.nextHandle + 1,
                        timers := s.timers[sn := s.nextHandle]);
            && Matched(t)
            && (forall other | other != sn :: RunsAt(s, other) ==> RunsAt(t, other))
            && (sn in s.minutes && ms == s.minutes[sn] * MINUTE ==> RunsAt(t, sn))
  {
  }

  lemma ScheduledKeeps(s: State, sn: Serial)
    requires Matched(s)
    ensures Matched(Scheduled(s, sn))
    ensures forall other :: RunsAt(s, other) ==> RunsAt(Scheduled(s, sn), other)
    ensures RunsAt(Scheduled(s, sn), sn)
    ensures Scheduled(s, sn).timers.Keys
            == s.timers.Keys - {sn} + if sn in s.minutes && s.minutes[sn] != 0.0 then {sn} else {}
  {
    ClearedKeeps(s, sn);
    if sn in s.minutes && s.minutes[sn] != 0.0 {
      AddedKeeps(Cleared(s, sn), sn, s.minutes[sn] * MINUTE);
    }
  }

  lemma HeadAndTail(order: seq<Serial>)
    requires order != []
    ensures (set sn | sn in order) == {order[0]} + (set sn | sn in order[1..])
    ensures forall sn :: sn in order[1..] ==> sn in order
  {
    assert order == [order[0]] + order[1..];
  }

  lemma {:induction false} ScheduledAllKeeps(s: State, order: seq<Serial>)
    requires Matched(s) && (forall sn :: RunsAt(s, sn))
    requires forall sn :: sn in order ==> sn in s.minutes && s.minutes[sn] != 0.0
    ensures var t := ScheduledAll(s, order);
            && Matched(t) && (forall sn :: RunsAt(t, sn))
            && t.timers.Keys == s.timers.Keys + (set sn | sn in order)
            && t == s.(timers := t.timers, live := t.live, nextHandle := t.nextHandle)
    decreases |order|
  {
    if order != [] {
      var m := Scheduled(s, order[0]);
      ScheduledKeeps(s, order[0]);
      forall sn
        ensures RunsAt(m, sn)
      {
        assert RunsAt(s, sn);
      }
      ScheduledAllKeeps(m, order[1..]);
      HeadAndTail(order);
    }
  }

  lemma {:induction false} ClearedAllKeeps(s: State, order: seq<Serial>)
    requires Matched(s) && (forall sn :: RunsAt(s, sn))
    ensures var t := ClearedAll(s, order);
            && Matched(t) && (forall sn :: RunsAt(t, sn))
            && t.timers.Keys == s.timers.Keys - (set sn | sn in order)
            && t == s.(timers := t.timers, live := t.live)
    decreases |order|
  {
    if order != [] {
      ClearedKeeps(s, order[0]);
      ClearedAllKeeps(Cleared(s, order[0]), order[1..]);
      HeadAndTail(order);
    }
  }

  lemma SameTables(s: State, t: State)
    requires s.minutes == t.minutes && s.timers == t.timers && s.live == t.live && s.nextHandle == t.nextHandle
    ensures Matched(s) <==> Matched(t)
    ensures forall sn :: RunsAt(s, sn) ==> RunsAt(t, sn)
  {
  }

  lemma PersistedFits(s: State, written: bool)
    requires InMemory(s)
    ensures Inv(Persisted(s, written))
  {
    var t := Persisted(s, written);
    SameTables(s, t);
    if written {
      assert Loaded(t.stored) == s.minutes;
    }
  }

  lemma RemovedFits(s: State, sn: Serial)
    requires InMemory(s)
    ensures InMemory(Cleared(s.(minutes := s.minutes - {sn}), sn))
  {
    var t := s.(minutes := s.minutes - {sn});
    forall other | other != sn
      ensures RunsAt(t, other)
    {
      assert RunsAt(s, other);
    }
    ClearedKeeps(t, sn);
  }

  lemma ChangedFits(s: State, sn: Serial, minutes: real)
    requires InMemory(s) && minutes >= 1.0
    ensures InMemory(Scheduled(s.(minutes := s.minutes[sn := minutes]), sn))
  {
    var t := s.(minutes := s.minutes[sn := minutes]);
    forall other | other != sn
      ensures RunsAt(t, other)
    {
      assert RunsAt(s, other);
    }
    ScheduledKeeps(t, sn);
  }

  lemma SetKeepsInv(s: State, sn: Serial, wanted: Option<real>, written: bool)
    requires Inv(s)
    ensures Inv(SetStep(s, sn, wanted, written))
  {
    if Off(wanted) {
      RemovedFits(s, sn);
      PersistedFits(Cleared(s.(minutes := s.minutes - {sn}), sn), written);
    } else if !Refused(wanted) {
      assert wanted.value >= 1.0;
      ChangedFits(s, sn, wanted.value);
      PersistedFits(Scheduled(s.(minutes := s.minutes[sn := wanted.value]), sn), written);
    }
  }

  lemma StepKeepsInv(s: State, e: Event)
    requires Inv(s) && Enabled(s, e)
    ensures Inv(Step(s, e))
  {
    match e
    case Set(sn, wanted, written) => SetKeepsInv(s, sn, wanted, written);
    case Connected(order) => ConnectedKeepsInv(s, order);
    case Interrupted(order) =>
      ClearedAllKeeps(s, order);
      SameTables(ClearedAll(s, order), Step(s, e));
  }

  lemma ConnectedKeepsInv(s: State, order: seq<Serial>)
    requires Inv(s) && Enabled(s, Connected(order))
    ensures Inv(Step(s, Connected(order))) && Step(s, Connected(order)).timers.Keys == s.minutes.Keys
    ensures Step(s, Connected(order)).minutes == s.minutes
  {
    ScheduledAllKeeps(s, order);
    var t := ScheduledAll(s, order);
    SameTables(t, Step(s, Connected(order)));
    forall sn | sn in s.timers
      ensures sn in s.minutes
    {
      assert RunsAt(s, sn);
    }
    assert t.timers.Keys == s.minutes.Keys;
  }

  lemma {:induction false} RunKeepsInv(s: State, run: seq<Event>)
    requires Inv(s) && Run(s, run).Some?
    ensures Inv(Run(s, run).value)
    decreases |run|
  {
    if run != [] {
      StepKeepsInv(s, run[0]);
      RunKeepsInv(Step(s, run[0]), run[1..]);
    }
  }

  // --- What the schedule amounts to ----------------------------------------------------------

  // The period at which each camera is being refreshed.
  ghost function Periods(s: State): map<Serial, real>
    requires Matched(s)
  {
    map sn | sn in s.timers :: s.live[s.timers[sn]].ms
  }

  ghost function Wanted(minutes: map<Serial, real>): map<Serial, real> {
    map sn | sn in minutes :: minutes[sn] * 60.0 * 1000.0
  }

  lemma {:induction false} AsManyAs(timers: map<Serial, nat>, handles: set<nat>)
    requires forall a, b :: a in timers && b in timers && timers[a] == timers[b] ==> a == b
    requires handles == timers.Values
    ensures |handles| == |timers|
    decreases |timers|
  {
    if timers.Keys != {} {
      var sn :| sn in timers;
      var fewer := timers - {sn};
      assert fewer.Keys == timers.Keys - {sn};
      forall h
        ensures h in fewer.Values <==> h in handles - {timers[sn]}
      {
        if h in handles - {timers[sn]} {
          var a :| a in timers && timers[a] == h;
          assert a in fewer && fewer[a] == h;
        }
      }
      assert fewer.Values == handles - {timers[sn]};
      AsManyAs(fewer, handles - {timers[sn]});
    }
  }

  lemma OneIntervalEach(s: State)
    requires Matched(s)
    ensures s.live.Keys == s.timers.Values && |s.live| == |s.timers|
  {
    forall h
      ensures h in s.live <==> h in s.timers.Values
    {
      if h in s.live {
        assert s.timers[s.live[h].sn] == h;
      }
    }
    assert forall a, b :: a in s.timers && b in s.timers && s.timers[a] == s.timers[b] ==>
             s.live[s.timers[a]].sn == s.live[s.timers[b]].sn;
    AsManyAs(s.timers, s.live.Keys);
  }

  // In every run from a start of the server: between the first connection and shutdown the running
  // intervals are exactly the configured schedule, however often the cloud reconnects, and after
  // shutdown or before connecting they are part of it.
  lemma ScheduleIsKept(stored: Stored, run: seq<Event>)
    requires Run(Boot(stored), run).Some?
    ensures var t := Run(Boot(stored), run).value;
            && Inv(t) && t.live.Keys == t.timers.Values && |t.live| == |t.timers|
            && t.timers.Keys <= t.minutes.Keys
            && (t.everConnected && !t.shutDown ==> Periods(t) == Wanted(t.minutes) && |t.live| == |t.minutes|)
  {
    BootFits(stored);
    RunKeepsInv(Boot(stored), run);
    var t := Run(Boot(stored), run).value;
    OneIntervalEach(t);
    forall sn | sn in t.timers
      ensures sn in t.minutes
    {
      assert RunsAt(t, sn);
    }
    if t.everConnected && !t.shutDown {
      PeriodsAreWanted(t);
    }
  }

  lemma PeriodsAreWanted(t: State)
    requires Inv(t) && t.timers.Keys == t.minutes.Keys
    ensures Periods(t) == Wanted(t.minutes) && |t.timers| == |t.minutes|
  {
    forall sn | sn in t.timers
      ensures t.live[t.timers[sn]].ms == t.minutes[sn] * MINUTE
    {
      assert RunsAt(t, sn);
    }
    assert |t.timers.Keys| == |t.minutes.Keys|;
    assert Periods(t).Keys == Wanted(t.minutes).Keys;
  }

  // What may be asked for, and what a stored file brings.
  lemma AllowedExactly(wanted: Option<real>)
    ensures Refused(wanted) <==> wanted.Some? && wanted.value !in {0.0, 1.0, 5.0, 15.0, 30.0, 60.0}
    ensures Off(wanted) <==> wanted in {None, Some(0.0)}
  {
  }

  lemma LoadedExactly(stored: Stored, sn: Serial, m: real)
    ensures (sn in Loaded(stored) && Loaded(stored)[sn] == m) <==> sn in stored && stored[sn] == Some(m) && m >= 1.0
  {
  }

  // A change touches the entries of its own camera only, and nothing at all when refused; a camera
  // scheduled anew gets a fresh interval.
  lemma OnlyItsOwnCamera(s: State, sn: Serial, wanted: Option<real>, written: bool)
    requires Inv(s)
    ensures var t := SetStep(s, sn, wanted, written);
            && (forall other | other != sn ::
                  && (other in t.minutes <==> other in s.minutes) && (other in t.timers <==> other in s.timers)
                  && (other in s.minutes ==> t.minutes[other] == s.minutes[other])
                  && (other in s.timers ==> t.timers[other] == s.timers[other]))
            && (if Refused(wanted) then t == s
                else if Off(wanted) then sn !in t.minutes && sn !in t.timers
                else sn in t.timers && sn in t.minutes && t.minutes[sn] == wanted.value
                     && t.timers[sn] !in s.live && t.timers[sn] in t.live)
  {
    if !Refused(wanted) && !Off(wanted) {
      assert wanted.value >= 1.0;
    }
  }

  // Shutting down leaves no interval.
  lemma ShutdownClears(s: State, order: seq<Serial>)
    requires Inv(s) && Enabled(s, Interrupted(order))
    ensures Step(s, Interrupted(order)).live == map[] && Step(s, Interrupted(order)).timers == map[]
  {
    ClearedAllKeeps(s, order);
    var t := ClearedAll(s, order);
    assert t.timers.Keys == {};
    assert t.timers == map[];
    forall h
      ensures h !in t.live
    {
    }
  }

  // A server started from the stored file takes the same schedule up again on its first connection,
  // unless the file's last write failed.
  lemma RestartRestores(s: State, order: seq<Serial>)
    requires Inv(s) && s.everConnected && !s.shutDown && s.inSync
    requires Enabled(Boot(s.stored), Connected(order))
    ensures var t := Step(Boot(s.stored), Connected(order));
            Inv(t) && t.minutes == s.minutes && Periods(t) == Periods(s)
  {
    BootFits(s.stored);
    ConnectedKeepsInv(Boot(s.stored), order);
    SamePeriods(s, Step(Boot(s.stored), Connected(order)));
  }

  lemma BootFits(stored: Stored)
    ensures Inv(Boot(stored))
  {
  }

  lemma SamePeriods(s: State, t: State)
    requires Inv(s) && Inv(t) && s.minutes == t.minutes && s.timers.Keys == t.timers.Keys
    ensures Periods(s) == Periods(t)
  {
    forall sn | sn in s.timers
      ensures t.live[t.timers[sn]].ms == s.live[s.timers[sn]].ms
    {
      assert RunsAt(t, sn) && RunsAt(s, sn);
    }
  }

  // --- The server's own state ----------------------------------------------------------------

  class Scheduler {
    var autoSnapMinutes: map<Serial, real>
    var autoSnapTimers: map<Serial, nat>
    var intervals: map<nat, Interval>
    var nextHandle: nat
    var file: Stored
    ghost var inSync: bool
    ghost var everConnected: bool
    ghost var shutDown: bool

    ghost function View(): State
      reads this
    {
      State(autoSnapMinutes, autoSnapTimers, intervals, nextHandle, file, inSync, everConnected, shutDown)
    }

    ghost predicate Valid()
      reads this
    {
      Inv(View())
    }

    constructor (stored: Stored)
      ensures View() == Boot(stored) && Valid()
    {
      autoSnapMinutes, autoSnapTimers, intervals, nextHandle, file := map[], map[], map[], 0, stored;
      inSync, everConnected, shutDown := true, false, false;
      new;
      var todo := stored.Keys;
      while todo != {}
        invariant todo <= stored.Keys
        invariant autoSnapMinutes
                  == map sn | sn in Loaded(stored) && sn !in todo :: stored[sn].value
        invariant View() == Boot(stored).(minutes := autoSnapMinutes)
        decreases |todo|
      {
        var sn :| sn in todo;
        if stored[sn].Some? && stored[sn].value >= 1.0 {
          autoSnapMinutes := autoSnapMinutes[sn := stored[sn].value];
        }
        todo := todo - {sn};
      }
    }

    // No interval of the camera is left, and every other camera's is.
    method ClearAutoSnapTimer(sn: Serial)
      requires Matched(View())
      modifies this
      ensures View() == Cleared(old(View()), sn) && Matched(View())
      ensures forall h :: h in intervals <==> h in old(intervals) && old(intervals)[h].sn != sn
    {
      ClearedKeeps(View(), sn);
      if sn in autoSnapTimers {
        intervals := intervals - {autoSnapTimers[sn]};
      }
      autoSnapTimers := autoSnapTimers - {sn};
    }

    // A configured camera has one interval now, a new one, at its period; another one has none.
    method ScheduleAutoSnap(sn: Serial)
      requires Matched(View())
      modifies this
      ensures View() == Scheduled(old(View()), sn) && Matched(View())
      ensures RunsAt(View(), sn)
      ensures sn in autoSnapTimers <==> sn in autoSnapMinutes && autoSnapMinutes[sn] != 0.0
    {
      ScheduledKeeps(View(), sn);
      ClearAutoSnapTimer(sn);
      if sn !in autoSnapMinutes || autoSnapMinutes[sn] == 0.0 {
        return;
      }
      var handle := nextHandle;
      intervals := intervals[handle := Interval(sn, autoSnapMinutes[sn] * MINUTE)];
      nextHandle := handle + 1;
      autoSnapTimers := autoSnapTimers[sn := handle];
    }

    method SetAutoSnap(sn: Serial, wanted: Option<real>, written: bool) returns (ok: bool)
      requires Valid()
      modifies this
      ensures View() == Step(old(View()), Set(sn, wanted, written)) && Valid()
      ensures ok == !Refused(wanted)
      ensures ok && written ==> Loaded(file) == autoSnapMinutes
      ensures !ok ==> View() == old(View())
    {
      if wanted.None? || wanted.value == 0.0 {
        Disable(sn);
      } else {
        if wanted.value !in ALLOWED {
          return false;
        }
        Enable(sn, wanted.value);
      }
      PersistAutoSnapConfig(written);
      return true;
    }

    // The two branches of setAutoSnap that change the schedule.
    method Disable(sn: Serial)
      requires InMemory(View())
      modifies this
      ensures View() == Cleared(old(View()).(minutes := old(autoSnapMinutes) - {sn}), sn) && InMemory(View())
    {
      RemovedFits(View(), sn);
      autoSnapMinutes := autoSnapMinutes - {sn};
      ClearAutoSnapTimer(sn);
    }

    method Enable(sn: Serial, minutes: real)
      requires InMemory(View()) && minutes >= 1.0
      modifies this
      ensures View() == Scheduled(old(View()).(minutes := old(autoSnapMinutes)[sn := minutes]), sn) && InMemory(View())
    {
      ChangedFits(View(), sn, minutes);
      autoSnapMinutes := autoSnapMinutes[sn := minutes];
      ScheduleAutoSnap(sn);
    }

    // What was written loads as the minutes it was written from.
    method PersistAutoSnapConfig(written: bool)
      requires InMemory(View())
      modifies this`file, this`inSync
      ensures View() == Persisted(old(View()), written) && Valid()
      ensures written ==> Loaded(file) == autoSnapMinutes
    {
      PersistedFits(View(), written);
      if written {
        file := map sn | sn in autoSnapMinutes :: Some(autoSnapMinutes[sn]);
      }
      inSync := written;
    }

    // The loop runs over the configured cameras in the map's own order.
    method StartAllAutoSnapTimers(order: seq<Serial>)
      requires Matched(View())
      modifies this
      ensures View() == ScheduledAll(old(View()), order)
    {
      for i := 0 to |order|
        invariant Matched(View())
        invariant ScheduledAll(old(View()), order) == ScheduledAll(View(), order[i..])
      {
        assert order[i..][0] == order[i] && order[i..][1..] == order[i + 1..];
        ScheduleAutoSnap(order[i]);
      }
    }

    // The "connect" handler: the running intervals are the configured schedule, once for each camera.
    method OnConnect(order: seq<Serial>)
      requires Valid() && Enabled(View(), Connected(order))
      modifies this
      ensures View() == Step(old(View()), Connected(order)) && Valid()
      ensures Periods(View()) == Wanted(autoSnapMinutes) && |intervals| == |autoSnapMinutes|
    {
      ConnectedKeepsInv(View(), order);
      PeriodsAreWanted(Step(View(), Connected(order)));
      OneIntervalEach(Step(View(), Connected(order)));
      StartAllAutoSnapTimers(order);
      everConnected := true;
    }

    // The SIGINT handler's first loop.
    method OnInterrupt(order: seq<Serial>)
      requires Valid() && Enabled(View(), Interrupted(order))
      modifies this
      ensures View() == Step(old(View()), Interrupted(order)) && Valid()
      ensures intervals == map[] && autoSnapTimers == map[]
    {
      StepKeepsInv(View(), Interrupted(order));
      ShutdownClears(View(), order);
      for i := 0 to |order|
        invariant Matched(View())
        invariant ClearedAll(old(View()), order) == ClearedAll(View(), order[i..])
      {
        assert order[i..][0] == order[i] && order[i..][1..] == order[i + 1..];
        ClearAutoSnapTimer(order[i]);
      }
      shutDown := true;
    }
  }
}
