/** The WebSocket proxy for Eufy video in cam-frontend/server.js: what the browser sends before the
    upstream socket is open is queued. */
module ProxyQueue {
  import opened JsText

  type Message = string

  datatype Ready = Connecting | Open | Closing | Closed

  datatype State = State(
    upstream: Ready,
    client: Ready,
    pending: seq<Message>,
    // What was sent upstream, what came from the browser, what was sent to it and what came from upstream.
    forwarded: seq<Message>,
    received: seq<Message>,
    delivered: seq<Message>,
    arrived: seq<Message>)

  // A socket is closing from its peer's close frame on, and gone with its "close" or "error".
  datatype Event =
    | UpstreamOpen
    | UpstreamMessage(m: Message)
    | UpstreamClosing
    | UpstreamGone
    | ClientMessage(m: Message)
    | ClientClosing
    | ClientGone

  // handleUpgrade hands over an open client.
  function Initial(): State { State(Connecting, Open, [], [], [], [], []) }

  predicate Enabled(s: State, e: Event) {
    match e
    case UpstreamOpen => s.upstream.Connecting?
    // After its peer's close frame nothing more comes; after our own close something may.
    case UpstreamMessage(_) => s.upstream.Open? || (s.upstream.Closing? && !s.client.Open?)
    case UpstreamClosing => s.upstream.Open?
    case ClientClosing => s.client.Open?
    case _ => true
  }

  // WebSocket.close()
  function Shut(r: Ready): Ready { if r.Closed? then Closed else Closing }

  function Step(s: State, e: Event): State {
    match e
    case UpstreamOpen => s.(upstream := Open, forwarded := s.forwarded + s.pending, pending := [])
    case UpstreamMessage(m) =>
      s.(arrived := s.arrived + [m], delivered := if s.client.Open? then s.delivered + [m] else s.delivered)
    case UpstreamClosing => s.(upstream := Closing)
    case UpstreamGone => s.(upstream := Closed, client := Shut(s.client))
    case ClientMessage(m) =>
      if s.upstream.Open? then s.(received := s.received + [m], forwarded := s.forwarded + [m])
      else s.(received := s.received + [m], pending := s.pending + [m])
    case ClientClosing => s.(client := Closing)
    case ClientGone => s.(client := Closed, upstream := Shut(s.upstream))
  }

  ghost function Run(s: State, run: seq<Event>): Option<State>
    decreases |run|
  {
    if run == [] then Some(s)
    else if Enabled(s, run[0]) then Run(Step(s, run[0]), run[1..])
    else None
  }

  ghost predicate Inv(s: State) {
    && s.forwarded + s.pending == s.received
    && (s.upstream.Open? ==> s.pending == [])
    && (s.upstream.Connecting? ==> s.forwarded == [])
    && s.delivered <= s.arrived
    && (s.client.Open? ==> s.delivered == s.arrived)
    && (s.upstream.Closed? ==> !s.client.Open?)
    && (s.client.Closed? ==> s.upstream.Closing? || s.upstream.Closed?)
    && !s.client.Connecting?
  }

  lemma StepKeepsInv(s: State, e: Event)
    requires Inv(s) && Enabled(s, e)
    ensures Inv(Step(s, e))
    ensures s.forwarded <= Step(s, e).forwarded && s.received <= Step(s, e).received
  {
    if e.ClientMessage? {
      assert s.forwarded + (s.pending + [e.m]) == (s.forwarded + s.pending) + [e.m];
      if s.upstream.Open? {
        assert s.forwarded == s.received;
      }
    }
  }

  // At every point of every run: what went upstream followed by what still waits is what the browser
  // sent, in order; nothing waits while the upstream is open; what reached the browser is what came from
  // upstream, up to when the browser's socket began to shut; and a socket that is gone has shut the other.
  lemma {:induction false} NothingIsLostOrReordered(s: State, run: seq<Event>)
    requires Inv(s) && Run(s, run).Some?
    ensures var t := Run(s, run).value; Inv(t) && s.forwarded <= t.forwarded && s.received <= t.received
    decreases |run|
  {
    if run != [] {
      StepKeepsInv(s, run[0]);
      NothingIsLostOrReordered(Step(s, run[0]), run[1..]);
    }
  }

  lemma NewProxy(run: seq<Event>)
    requires Run(Initial(), run).Some?
    ensures Inv(Run(Initial(), run).value)
  {
    NothingIsLostOrReordered(Initial(), run);
  }

  // Once the upstream has begun to close, nothing more is forwarded: later messages wait for ever.
  lemma {:induction false} NoneAfterClosing(s: State, run: seq<Event>)
    requires Inv(s) && Run(s, run).Some? && (s.upstream.Closing? || s.upstream.Closed?)
    ensures var t := Run(s, run).value;
            t.forwarded == s.forwarded && s.pending <= t.pending && t.delivered == s.delivered
    decreases |run|
  {
    if run != [] {
      StepKeepsInv(s, run[0]);
      NoneAfterClosing(Step(s, run[0]), run[1..]);
    }
  }

  lemma OpeningEmptiesQueue(s: State)
    requires s.upstream.Connecting?
    ensures Run(s, [UpstreamOpen]).Some? && Run(s, [UpstreamOpen]).value.pending == []
  {
    assert [UpstreamOpen][1..] == [];
    assert Run(Step(s, UpstreamOpen), []) == Some(Step(s, UpstreamOpen));
  }

  // What is pending can still be forwarded, in some run, exactly when the upstream has not opened yet.
  lemma CanBeEmptiedExactly(s: State)
    requires Inv(s)
    ensures (exists run :: Run(s, run).Some? && Run(s, run).value.pending == [])
            <==> s.pending == [] || s.upstream.Connecting?
  {
    if s.upstream.Connecting? {
      OpeningEmptiesQueue(s);
    } else if s.pending == [] {
      assert Run(s, []) == Some(s);
    } else {
      forall run | Run(s, run).Some?
        ensures Run(s, run).value.pending != []
      {
        NoneAfterClosing(s, run);
      }
    }
  }

  // A message sent between the upstream's close frame and its end is stuck.
  lemma AMessageIsStuck(m: Message)
    ensures var s := Run(Initial(), [UpstreamOpen, UpstreamClosing, ClientMessage(m)]);
            && s.Some? && s.value.client.Open? && s.value.pending == [m]
            && forall run | Run(s.value, run).Some? :: Run(s.value, run).value.pending != []
  {
    var run := [UpstreamOpen, UpstreamClosing, ClientMessage(m)];
    var s1 := Step(Initial(), run[0]);
    var s2 := Step(s1, run[1]);
    var s3 := Step(s2, run[2]);
    assert run[2..][1..] == [] && run[1..][1..] == run[2..];
    assert Run(s3, []) == Some(s3);
    assert Run(s2, run[2..]) == Some(s3);
    assert Run(s1, run[1..]) == Some(s3);
    NewProxy(run);
    CanBeEmptiedExactly(s3);
  }

  class Proxy {
    var upstream: Ready
    var client: Ready
    var pending: seq<Message>
    var forwarded: seq<Message>
    ghost var received: seq<Message>
    var delivered: seq<Message>
    ghost var arrived: seq<Message>

    ghost function View(): State
      reads this
    {
      State(upstream, client, pending, forwarded, received, delivered, arrived)
    }

    ghost predicate Valid()
      reads this
    {
      Inv(View())
    }

    constructor ()
      ensures View() == Initial() && Valid()
    {
      upstream, client, pending, forwarded, received, delivered, arrived := Connecting, Open, [], [], [], [], [];
    }

    method OnUpstreamOpen()
      requires Valid() && Enabled(View(), UpstreamOpen)
      modifies this
      ensures View() == Step(old(View()), UpstreamOpen) && Valid()
      ensures forwarded == received && pending == []
    {
      StepKeepsInv(View(), UpstreamOpen);
      upstream := Open;
      for i := 0 to |pending|
        invariant pending == old(pending)
        invariant View() == old(View()).(upstream := Open, forwarded := old(forwarded) + pending[..i])
      {
        forwarded := forwarded + [pending[i]];
      }
      pending := [];
    }

    method OnUpstreamMessage(m: Message)
      requires Valid() && Enabled(View(), UpstreamMessage(m))
      modifies this
      ensures View() == Step(old(View()), UpstreamMessage(m)) && Valid()
      ensures client.Open? ==> delivered == arrived
    {
      StepKeepsInv(View(), UpstreamMessage(m));
      arrived := arrived + [m];
      if client.Open? {
        delivered := delivered + [m];
      }
    }

    method OnUpstreamClosing()
      requires Valid() && Enabled(View(), UpstreamClosing)
      modifies this
      ensures View() == Step(old(View()), UpstreamClosing) && Valid()
      ensures upstream.Closing? && client == old(client)
    {
      StepKeepsInv(View(), UpstreamClosing);
      upstream := Closing;
    }

    method OnClientClosing()
      requires Valid() && Enabled(View(), ClientClosing)
      modifies this
      ensures View() == Step(old(View()), ClientClosing) && Valid()
      ensures client.Closing? && upstream == old(upstream)
    {
      StepKeepsInv(View(), ClientClosing);
      client := Closing;
    }

    method OnUpstreamGone()
      requires Valid()
      modifies this
      ensures View() == Step(old(View()), UpstreamGone) && Valid()
      ensures !client.Open?
    {
      StepKeepsInv(View(), UpstreamGone);
      upstream := Closed;
      client := Shut(client);
    }

    method OnClientMessage(m: Message)
      requires Valid()
      modifies this
      ensures View() == Step(old(View()), ClientMessage(m)) && Valid()
      ensures forwarded + pending == old(forwarded) + old(pending) + [m]
      ensures upstream.Open? ==> forwarded == received
    {
      StepKeepsInv(View(), ClientMessage(m));
      received := received + [m];
      if upstream.Open? {
        forwarded := forwarded + [m];
      } else {
        pending := pending + [m];
      }
    }

    method OnClientGone()
      requires Valid()
      modifies this
      ensures View() == Step(old(View()), ClientGone) && Valid()
      ensures upstream.Closing? || upstream.Closed?
    {
      StepKeepsInv(View(), ClientGone);
      client := Closed;
      upstream := Shut(upstream);
    }
  }
}
