/** The sidecar's connection handler and accept loop (src/bin/lain-git-sidecar.rs). */
module SidecarServer {
  import opened Outcomes
  import opened SidecarMessages

  /** What the next frame read on a connection meets. A request carries the state of the
      repository at the moment it is served. */
  datatype Arrival =
    | Frame(req: Request, repo: Repository)
    | EndOfFile
    | Unreadable

  /** An arrival, and whether the reply to it could be written. */
  datatype Event = Event(arrival: Arrival, writes: bool)

  datatype Phase =
    | AwaitingHandshake
    | Serving
    | Stopped    // Ok(true): a Shutdown was answered
    | Closed     // Ok(false): the peer closed the connection
    | Broken     // Err

  datatype Connection = Connection(phase: Phase, dispatched: seq<Request>, sent: seq<Response>)

  const FRESH: Connection := Connection(AwaitingHandshake, [], [])

  predicate Over(c: Connection) {
    c.phase.Stopped? || c.phase.Closed? || c.phase.Broken?
  }

  function Greeting(req: Request, binary: Binary): Response {
    match req
    case Handshake(v) =>
      if v == binary.version then HandshakeAck(binary.version, binary.build)
      else HandshakeNack(binary.version, v, "protocol version mismatch")
    case _ => HandshakeNack(binary.version, 0, "initial message must be a handshake")
  }

  /** Only a handshake of the matching version is acknowledged. */
  lemma GreetingAcknowledges(req: Request, binary: Binary)
    ensures Greeting(req, binary).HandshakeAck? <==> req == Handshake(binary.version)
    ensures Greeting(req, binary).HandshakeAck? ==> Greeting(req, binary) == HandshakeAck(binary.version, binary.build)
    ensures Greeting(req, binary).HandshakeAck? || Greeting(req, binary).HandshakeNack?
  {
  }

  /** A refusal names both versions, or version 0 for a first message that is no handshake. A
      handshake later in a connection is answered just like the first. */
  lemma RefusalSaysWhy(req: Request, binary: Binary, repo: Repository)
    ensures Greeting(req, binary).HandshakeNack? ==>
              && Greeting(req, binary).expected == binary.version
              && Greeting(req, binary).received == match req case Handshake(v) => v case _ => 0
    ensures req.Handshake? ==> Dispatch(req, binary, repo) == Greeting(req, binary)
  {
  }

  function Handle(c: Connection, e: Event, binary: Binary): Connection {
    if Over(c) then c
    else match e.arrival
      case EndOfFile => c.(phase := Closed)
      case Unreadable => c.(phase := Broken)
      case Frame(req, repo) =>
        if c.phase.AwaitingHandshake? then
          var reply := Greeting(req, binary);
          c.(phase := if reply.HandshakeAck? && e.writes then Serving else Broken,
             sent := if e.writes then c.sent + [reply] else c.sent)
        else
          c.(phase := if !e.writes then Broken else if req.Shutdown? then Stopped else Serving,
             dispatched := c.dispatched + [req],
             sent := if e.writes then c.sent + [Dispatch(req, binary, repo)] else c.sent)
  }

  /** The connection after a list of events. */
  function Run(events: seq<Event>, binary: Binary): Connection {
    if events == [] then FRESH
    else Handle(Run(events[..|events| - 1], binary), events[|events| - 1], binary)
  }

  /** What the handler does with a frame, and whether it returns after answering it. */
  function Reply(first: bool, e: Event, binary: Binary): Response
    requires e.arrival.Frame?
  {
    if first then Greeting(e.arrival.req, binary) else Dispatch(e.arrival.req, binary, e.arrival.repo)
  }

  function Returns(first: bool, e: Event, binary: Binary): bool
    requires e.arrival.Frame?
  {
    !e.writes || if first then !Greeting(e.arrival.req, binary).HandshakeAck? else e.arrival.req.Shutdown?
  }

  /** One more frame on a connection that is not over. */
  lemma MeetsFrame(events: seq<Event>, e: Event, binary: Binary)
    requires !Over(Run(events, binary)) && e.arrival.Frame?
    requires Run(events, binary).phase.AwaitingHandshake? <==> events == []
    ensures var c, c' := Run(events, binary), Run(events + [e], binary);
            && c'.sent == (if e.writes then c.sent + [Reply(events == [], e, binary)] else c.sent)
            && (Over(c') <==> Returns(events == [], e, binary))
            && !c'.phase.AwaitingHandshake?
            && c'.dispatched == (if events == [] then c.dispatched else c.dispatched + [e.arrival.req])
  {
    hide Dispatch, Greeting;
    assert (events + [e])[..|events|] == events;
    GreetingAcknowledges(e.arrival.req, binary);
  }

  predicate Greets(events: seq<Event>, binary: Binary) {
    events != [] && events[0].arrival.Frame? && events[0].arrival.req == Handshake(binary.version)
  }

  /** The i-th dispatch is of the i-th frame after the handshake, and so is its reply. */
  ghost predicate AnswersFrame(c: Connection, events: seq<Event>, binary: Binary, i: nat)
    requires i < |c.dispatched|
  {
    && i + 1 < |events|
    && events[i + 1].arrival.Frame?
    && events[i + 1].arrival.req == c.dispatched[i]
    && (i + 1 < |c.sent| ==>
          c.sent[i + 1] == Dispatch(c.dispatched[i], binary, events[i + 1].arrival.repo))
  }

  /** The invariant of a connection. `n` requests have been dispatched: exactly those of the
      frames after the handshake, in order; every reply but possibly the last was written. */
  ghost predicate InOrder(c: Connection, events: seq<Event>, binary: Binary) {
    var n := |c.dispatched|;
    && (c.phase.AwaitingHandshake? ==> events == [] && c.sent == [])
    && (n > 0 || c.phase.Serving? || c.phase.Stopped? ==> Greets(events, binary) && events[0].writes)
    && (n > 0 ==> n < |events|)
    && (forall i | 0 <= i < n :: AnswersFrame(c, events, binary, i))
    && (forall i | 0 <= i < n - 1 :: !c.dispatched[i].Shutdown?)
    && (n > 0 ==> c.sent != [] && c.sent[0] == HandshakeAck(binary.version, binary.build))
    && (n == 0 ==> |c.sent| <= 1)
    && (n > 0 && |c.sent| != n + 1 ==> c.phase.Broken? && |c.sent| == n)
    && (c.phase.Serving? ==> |events| == n + 1 && |c.sent| == n + 1
                             && c.sent[0] == HandshakeAck(binary.version, binary.build)
                             && (n > 0 ==> !c.dispatched[n - 1].Shutdown?))
    && (c.phase.Stopped? <==> n > 0 && c.dispatched[n - 1].Shutdown? && |c.sent| == n + 1)
  }

  lemma {:induction false} ConnectionInOrder(events: seq<Event>, binary: Binary)
    ensures InOrder(Run(events, binary), events, binary)
  {
    hide Dispatch, Greeting;
    if events != [] {
      var front := events[..|events| - 1];
      ConnectionInOrder(front, binary);
      var c := Run(front, binary);
      assert forall i | 0 <= i < |front| :: front[i] == events[i];
      var c' := Run(events, binary);
      forall i | 0 <= i < |c.dispatched| ensures AnswersFrame(c', events, binary, i) {
        assert AnswersFrame(c, front, binary, i);
      }
      if Over(c) {
      } else if c.phase.AwaitingHandshake? {
        assert front == [];
        if events[0].arrival.Frame? { GreetingAcknowledges(events[0].arrival.req, binary); }
      } else {
        assert |front| == |c.dispatched| + 1;
      }
    }
  }

  /** Nothing is dispatched unless the first frame is a handshake with the matching version. */
  lemma DispatchIsGated(events: seq<Event>, binary: Binary)
    ensures Run(events, binary).dispatched != [] ==> Greets(events, binary)
    ensures events != [] && !Greets(events, binary) ==>
              var c := Run(events, binary);
              Over(c) && c.dispatched == [] && forall r <- c.sent :: r.HandshakeNack?
  {
    ConnectionInOrder(events, binary);
    if events != [] && !Greets(events, binary) { Rejected(events, binary); }
  }

  lemma {:induction false} Rejected(events: seq<Event>, binary: Binary)
    requires events != [] && !Greets(events, binary)
    ensures var c := Run(events, binary);
            Over(c) && c.dispatched == [] && forall r <- c.sent :: r.HandshakeNack?
  {
    var front := events[..|events| - 1];
    if front == [] {
      assert Run(front, binary) == FRESH;
    } else {
      Rejected(front, binary);
    }
  }

  /** While a connection is being served it has written exactly one reply per frame, and the
      reply to the i-th frame answers the i-th frame. */
  lemma OneReplyPerRequest(events: seq<Event>, binary: Binary, i: nat)
    requires Run(events, binary).phase.Serving? || Run(events, binary).phase.Stopped?
    requires i < |Run(events, binary).dispatched|
    ensures var c := Run(events, binary);
            && |c.sent| == |c.dispatched| + 1
            && Greets(events, binary)
            && i + 1 < |events| && events[i + 1].arrival.Frame?
            && c.dispatched[i] == events[i + 1].arrival.req
            && c.sent[i + 1] == Dispatch(events[i + 1].arrival.req, binary, events[i + 1].arrival.repo)
  {
    ConnectionInOrder(events, binary);
    assert AnswersFrame(Run(events, binary), events, binary, i);
  }

  /** A connection reports a shutdown exactly when it dispatched one and its reply got out, and
      nothing is dispatched after that. */
  lemma StopsOnlyOnAnsweredShutdown(events: seq<Event>, binary: Binary)
    ensures var c := Run(events, binary);
            c.phase.Stopped? <==>
              exists i :: 0 <= i < |c.dispatched| && c.dispatched[i].Shutdown? && i + 1 < |c.sent|
    ensures var c := Run(events, binary);
            forall i | 0 <= i < |c.dispatched| - 1 :: !c.dispatched[i].Shutdown?
  {
    ConnectionInOrder(events, binary);
  }

  lemma {:induction false} OverStays(events: seq<Event>, k: nat, binary: Binary)
    requires k <= |events| && Over(Run(events[..k], binary))
    ensures Run(events, binary) == Run(events[..k], binary)
  {
    if k == |events| {
      assert events[..k] == events;
    } else {
      var front := events[..|events| - 1];
      assert front[..k] == events[..k];
      OverStays(front, k, binary);
    }
  }

  /** `handle_connection`: the handshake, then a loop that reads, dispatches and replies until
      it returns. The script lists what each read meets and whether each write succeeds. */
  method HandleConnection(script: seq<Event>, binary: Binary) returns (c: Connection)
    requires script != [] && !script[|script| - 1].arrival.Frame?
    ensures c == Run(script, binary) && Over(c)
  {
    hide Dispatch, Greeting;
    c := FRESH;
    var first := script[0];
    assert script[..1][..0] == [];
    match first.arrival {
      case EndOfFile =>
        c := c.(phase := Closed);
        OverStays(script, 1, binary);
        return;
      case Unreadable =>
        c := c.(phase := Broken);
        OverStays(script, 1, binary);
        return;
      case Frame(req, _) =>
        var reply := Greeting(req, binary);
        if first.writes { c := c.(sent := [reply]); }
        if !reply.HandshakeAck? || !first.writes {
          c := c.(phase := Broken);
          OverStays(script, 1, binary);
          return;
        }
        c := c.(phase := Serving);
    }
    var k := 1;
    while k < |script|
      invariant 1 <= k <= |script|
      invariant c == Run(script[..k], binary) && c.phase.Serving?
      invariant forall i | 0 <= i < k :: script[i].arrival.Frame?
    {
      var e := script[k];
      assert script[..k + 1][..k] == script[..k];
      k := k + 1;
      match e.arrival {
        case EndOfFile =>
          c := c.(phase := Closed);
          OverStays(script, k, binary);
          return;
        case Unreadable =>
          c := c.(phase := Broken);
          OverStays(script, k, binary);
          return;
        case Frame(req, repo) =>
          var resp := Dispatch(req, binary, repo);
          c := c.(dispatched := c.dispatched + [req]);
          if !e.writes {
            c := c.(phase := Broken);
            OverStays(script, k, binary);
            return;
          }
          c := c.(sent := c.sent + [resp]);
          if req.Shutdown? {
            c := c.(phase := Stopped);
            OverStays(script, k, binary);
            return;
          }
      }
    }
  }

  /** The accept loop serves connections one after another, and only an answered shutdown ends
      it: accept errors, closed and broken connections do not. `served` counts the accepts. */
  method AcceptLoop(incoming: seq<Option<seq<Event>>>, binary: Binary) returns (served: nat, stopped: bool)
    requires forall i | 0 <= i < |incoming| && incoming[i].Some? ::
               incoming[i].value != [] && !incoming[i].value[|incoming[i].value| - 1].arrival.Frame?
    ensures served <= |incoming|
    ensures !stopped ==> served == |incoming|
    ensures stopped ==> served > 0 && incoming[served - 1].Some?
                        && Run(incoming[served - 1].value, binary).phase.Stopped?
    ensures forall i | 0 <= i < (if stopped then served - 1 else served) :: incoming[i].Some? ==>
              !Run(incoming[i].value, binary).phase.Stopped?
  {
    served, stopped := 0, false;
    while served < |incoming|
      invariant served <= |incoming|
      invariant forall i | 0 <= i < served :: incoming[i].Some? ==>
                  !Run(incoming[i].value, binary).phase.Stopped?
    {
      var stream := incoming[served];
      served := served + 1;
      if stream.Some? {
        var c := HandleConnection(stream.value, binary);
        if c.phase.Stopped? { return served, true; }
      }
    }
  }
}
