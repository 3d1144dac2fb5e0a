/** The handlers of eufy/server.js over its module-level maps. A server is valid when the machine's invariant
    of Snapshots holds of it; every handler keeps it so. */
module SnapshotServer {
  import opened JsText
  import opened Snapshots

  class Server {
    var clock: nat
    var connected: bool
    var pendingSnapshots: map<Serial, nat>
    var records: seq<Record>
    var captures: seq<Capture>
    var sessions: map<Serial, nat>
    var openings: seq<Serial>
    // What the outside has seen.
    ghost var startsIssued: nat
    ghost var stops: multiset<Cause>
    ghost var dispatches: seq<Dispatch>
    ghost var calls: seq<Call>

    ghost function View(): State
      reads this
    {
      State(clock, connected, pendingSnapshots, records, captures, sessions, openings,
            startsIssued, stops, dispatches, calls)
    }

    ghost predicate Valid()
      reads this
    {
      Inv(View())
    }

    // The event can happen now.
    ghost predicate Ready(e: Event)
      reads this
    {
      Valid() && Enabled(View(), e)
    }

    constructor ()
      ensures View() == Initial() && Valid()
    {
      clock, connected, pendingSnapshots, records, captures := 0, false, map[], [], [];
      sessions, openings, startsIssued, stops, dispatches, calls := map[], [], 0, multiset{}, [], [];
    }

    method StopStationLivestream(ghost cause: Cause)
      modifies this`stops
      ensures stops == old(stops) + multiset{cause}
    {
      stops := stops + multiset{cause};
    }

    method OnConnect()
      requires Ready(Connect)
      modifies this
      ensures View() == Step(old(View()), Connect) && Valid()
    {
      StepKeepsInv(View(), Connect);
      connected := true;
    }

    method OnClose()
      requires Ready(Close)
      modifies this
      ensures View() == Step(old(View()), Close) && Valid()
    {
      StepKeepsInv(View(), Close);
      connected := false;
    }

    // refreshSnapshot up to its first await. A caller that is not refused waits for a record of its own
    // camera with a live timer, which runs out within 15 s; a start is issued for a new record only.
    method RefreshSnapshot(sn: Serial) returns (call: Call)
      requires Ready(Refresh(sn))
      modifies this
      ensures View() == Step(old(View()), Refresh(sn)) && Valid()
      ensures calls == old(calls) + [call]
      ensures call.Refused? <==> !connected || sn in sessions
      ensures !call.Refused? ==>
                && Mapped(View(), call.rec) && records[call.rec].sn == sn && records[call.rec].timerLive
                && clock <= records[call.rec].deadline <= clock + RECORD_TIMEOUT
      ensures startsIssued == old(startsIssued) + if call.Created? then 1 else 0
    {
      StepKeepsInv(View(), Refresh(sn));
      if !connected || sn in sessions {
        call := Refused;
      } else if sn in pendingSnapshots {
        var r := pendingSnapshots[sn];
        call := Coalesced(r);
        assert Covered(View(), records[r]);
        records := records[r := records[r].(awaited := true)];
      } else {
        var r := |records|;
        records := records + [Record(sn, clock + RECORD_TIMEOUT, true, InFlight, None, false)];
        pendingSnapshots := pendingSnapshots[sn := r];
        startsIssued := startsIssued + 1;
        call := Created(r);
      }
      calls := calls + [call];
    }

    // refreshSnapshot after startStationLivestream has answered.
    method StartAnswered(r: nat, ok: bool)
      requires Ready(Event.StartAnswered(r, ok))
      modifies this
      ensures View() == Step(old(View()), Event.StartAnswered(r, ok)) && Valid()
      ensures !ok ==> !Mapped(View(), r)
    {
      StepKeepsInv(View(), Event.StartAnswered(r, ok));
      if !ok {
        FailedStartLeaves(View(), r);
      }
      if ok {
        records := records[r := records[r].(start := Accepted, awaited := true)];
      } else {
        ClearTimer(r);
        records := records[r := records[r].(start := Failed)];
        pendingSnapshots := pendingSnapshots - {records[r].sn};
      }
    }

    method ClearTimer(r: nat)
      requires r < |records|
      modifies this`records
      ensures records == old(records)[r := old(records)[r].(timerLive := false)]
    {
      records := records[r := records[r].(timerLive := false)];
    }

    method SettleRecord(r: nat, o: Outcome)
      requires r < |records|
      modifies this`records
      ensures records == old(records)[r := Settle(old(records)[r], o)]
    {
      if records[r].outcome.None? {
        records := records[r := records[r].(outcome := Some(o))];
      }
    }

    // The 15 s timer of a record: the record is settled then, and a stop issued for it.
    method OnRecordTimer(r: nat)
      requires Ready(RecordTimer(r))
      modifies this
      ensures View() == Step(old(View()), RecordTimer(r)) && Valid()
      ensures r < |records| && records[r].outcome.Some? && StopIssuedFor(View(), r) && !Mapped(View(), r)
    {
      StepKeepsInv(View(), RecordTimer(r));
      TimerLeaves(View(), r);
      ClearTimer(r);
      pendingSnapshots := pendingSnapshots - {records[r].sn};
      StopStationLivestream(TimedOut(r));
      SettleRecord(r, Rejected);
    }

    // "station livestream start": to a new capture of the camera's live record, else to its latest
    // session, else stopped.
    method OnLivestreamStart(sn: Serial)
      requires Ready(LivestreamStart(sn))
      modifies this
      ensures View() == Step(old(View()), LivestreamStart(sn)) && Valid()
      ensures |dispatches| == |old(dispatches)| + 1 && dispatches[|old(dispatches)|].sn == sn
      ensures Routed(old(View()), View(), |old(dispatches)|)
    {
      StepKeepsInv(View(), LivestreamStart(sn));
      NewDispatch(View(), LivestreamStart(sn));
      ghost var route: Route;
      if sn in pendingSnapshots {
        route := ToCapture(|captures|);
        captures := captures + [Capture(pendingSnapshots[sn], clock + CAPTURE_TIMEOUT, Capturing)];
      } else if sn in sessions {
        route := ToSession(sessions[sn]);
      } else {
        route := Stopped;
        StopStationLivestream(NoViewer(|dispatches|));
      }
      dispatches := dispatches + [Dispatch(sn, route)];
    }

    // finish() of captureSnapshotFromStream: ffmpeg closed or failed, or the watchdog fired.
    method OnCaptureFinish(c: nat, ok: bool)
      requires Ready(CaptureFinish(c, ok))
      modifies this
      ensures View() == Step(old(View()), CaptureFinish(c, ok)) && Valid()
      ensures captures[c].stage == Finished(ok)
    {
      StepKeepsInv(View(), CaptureFinish(c, ok));
      captures := captures[c := captures[c].(stage := Finished(ok))];
    }

    // The .then or .catch of the capture: its record is settled afterwards, by it or before.
    method HandOver(c: nat)
      requires Ready(CaptureHand(c))
      modifies this
      ensures View() == Step(old(View()), CaptureHand(c)) && Valid()
      ensures records[captures[c].rec].outcome
              == if old(records[captures[c].rec]).outcome.Some? then old(records[captures[c].rec]).outcome
                 else Some(if old(captures)[c].stage.ok then Resolved else Rejected)
    {
      StepKeepsInv(View(), CaptureHand(c));
      SettleRecord(captures[c].rec, if captures[c].stage.ok then Resolved else Rejected);
      captures := captures[c := captures[c].(stage := Handed)];
    }

    // The .finally of the capture, which issues its one stop.
    method CleanUp(c: nat)
      requires Ready(CaptureCleanup(c))
      modifies this
      ensures View() == Step(old(View()), CaptureCleanup(c)) && Valid()
      ensures old(stops)[CaptureEnded(c)] == 0 && stops[CaptureEnded(c)] == 1
      ensures records[captures[c].rec].outcome.Some? && !Mapped(View(), captures[c].rec)
    {
      StepKeepsInv(View(), CaptureCleanup(c));
      assert CaptureOk(View(), c);
      var r := captures[c].rec;
      ClearTimer(r);
      pendingSnapshots := pendingSnapshots - {records[r].sn};
      StopStationLivestream(CaptureEnded(c));
      captures := captures[c := captures[c].(stage := Done)];
    }

    // stopSession up to its await: the viewer's session is gone, with its one stop.
    method StopSession(sn: Serial)
      requires Ready(ViewerStop(sn))
      modifies this
      ensures View() == Step(old(View()), ViewerStop(sn)) && Valid()
      ensures sn !in sessions
      ensures sn in old(sessions) ==> stops[ViewerGone(old(sessions)[sn])] == 1
    {
      StepKeepsInv(View(), ViewerStop(sn));
      GoneStops(View(), ViewerStop(sn));
      if sn in sessions {
        ghost var id := sessions[sn];
        sessions := sessions - {sn};
        StopStationLivestream(ViewerGone(id));
      }
    }

    // startSession once the old session is gone.
    method OpenSession(sn: Serial)
      requires Ready(ViewerOpen(sn))
      modifies this
      ensures View() == Step(old(View()), ViewerOpen(sn)) && Valid()
      ensures sn in sessions && Latest(View(), sn, sessions[sn])
    {
      StepKeepsInv(View(), ViewerOpen(sn));
      sessions := sessions[sn := |openings|];
      openings := openings + [sn];
    }

    // startSession's catch.
    method SessionStartFailed(sn: Serial)
      requires Ready(ViewerStartFailed(sn))
      modifies this
      ensures View() == Step(old(View()), ViewerStartFailed(sn)) && Valid()
      ensures sn !in sessions && stops == old(stops)
    {
      StepKeepsInv(View(), ViewerStartFailed(sn));
      sessions := sessions - {sn};
    }

    method Wait(ms: nat)
      requires Ready(Tick(ms))
      modifies this
      ensures View() == Step(old(View()), Tick(ms)) && Valid()
    {
      StepKeepsInv(View(), Tick(ms));
      clock := clock + ms;
    }
  }
}
