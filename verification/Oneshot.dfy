/** The one-shot client's call loop (src/cli/oneshot.rs) over its two sessions
    (src/cli/mcp_stdio.rs and src/cli/socket_session.rs). Instants are nanoseconds. */
module Oneshot {
  import opened Instants
  import opened Outcomes

  const ID_INITIALIZE: int := 1
  const ID_CALL: int := 2

  /** What a message says. Only the result of a call can say that the server is warming up. */
  datatype Body = Warming(retryAfterMs: Option<nat>) | Other(text: string)

  datatype Message =
    | Reply(id: int, body: Body)
    | Notification(text: string)

  /** The reply the client may stop at. */
  predicate IsFinal(m: Message) {
    m.Reply? && m.id != ID_INITIALIZE && m.body.Other?
  }

  /** The ids 1, 2, 3 and so on, each used once. */
  predicate FreshIds(sent: seq<int>) {
    forall i | 0 <= i < |sent| :: sent[i] == i + 1
  }

  datatype Received = Got(msg: Message) | TimedOut | Disconnected

  datatype Outcome = Answer(msg: Message) | NoAnswer

  // ---------------------------------------------------------------- the two sessions on one inbox

  /** The message the call loop stops at, given everything the session hands it: the first that
      is neither the initialize reply nor a warming-up result. */
  function Accepted(inbox: seq<Message>): Option<Message> {
    if inbox == [] then None
    else if inbox[0].Reply? && (inbox[0].id == ID_INITIALIZE || inbox[0].body.Warming?) then Accepted(inbox[1..])
    else Some(inbox[0])
  }

  /** What the warming-up results among some messages asked for. */
  function Delays(inbox: seq<Message>): seq<Option<nat>> {
    if inbox == [] then []
    else
      var m := inbox[|inbox| - 1];
      Delays(inbox[..|inbox| - 1])
      + if m.Reply? && m.id != ID_INITIALIZE && m.body.Warming? then [m.body.retryAfterMs] else []
  }

  lemma DelaysAppend(inbox: seq<Message>, m: Message)
    ensures Delays(inbox + [m])
         == if m.Reply? && m.id != ID_INITIALIZE && m.body.Warming? then Delays(inbox) + [m.body.retryAfterMs]
            else Delays(inbox)
  {
    assert (inbox + [m])[..|inbox|] == inbox;
  }

  /** A sleep of the loop, with the number of requests sent before it. */
  datatype Pause = Pause(start: nat, length: nat, sent: nat)

  /** The loop pauses once for every delay asked for, as long as asked, or a second if nothing was
      said, but not past the deadline; and it sends exactly one call after each pause. */
  predicate PausesAsTold(pauses: seq<Pause>, delays: seq<Option<nat>>, deadline: nat) {
    && |pauses| <= |delays|
    && forall k | 0 <= k < |pauses| ::
         var asked := match delays[k] case Some(ms) => ms * 1_000_000 case None => 1_000_000_000;
         && pauses[k].start < deadline && pauses[k].sent == k + 2
         && pauses[k].length == if asked < deadline - pauses[k].start then asked else deadline - pauses[k].start
  }

  lemma NoDelays(deadline: nat)
    ensures Delays([]) == [] && PausesAsTold([], [], deadline)
  {
  }

  /** The stdio session forwards only messages that carry an id. */
  function Forwarded(inbox: seq<Message>): seq<Message> {
    if inbox == [] then []
    else (if inbox[0].Reply? then [inbox[0]] else []) + Forwarded(inbox[1..])
  }

  /** No notification arrives before the final reply, or at all if there is none. */
  predicate QuietUntilFinal(inbox: seq<Message>) {
    inbox == [] || (inbox[0].Reply? && (IsFinal(inbox[0]) || QuietUntilFinal(inbox[1..])))
  }

  lemma {:induction false} StdioStopsAtReply(inbox: seq<Message>)
    ensures Accepted(Forwarded(inbox)).Some? ==> IsFinal(Accepted(Forwarded(inbox)).value)
  {
    if inbox != [] {
      StdioStopsAtReply(inbox[1..]);
      var rest := Forwarded(inbox[1..]);
      assert ([inbox[0]] + rest)[1..] == rest;
      assert [] + rest == rest;
    }
  }

  /** Over the socket the loop stops at the same message as over stdio exactly when no
      notification comes first: otherwise it takes the notification for the answer. */
  lemma {:induction false} SocketAgreesIff(inbox: seq<Message>)
    ensures Accepted(inbox) == Accepted(Forwarded(inbox)) <==> QuietUntilFinal(inbox)
  {
    if inbox != [] {
      SocketAgreesIff(inbox[1..]);
      StdioStopsAtReply(inbox[1..]);
      var rest := Forwarded(inbox[1..]);
      assert ([inbox[0]] + rest)[1..] == rest;
      assert [] + rest == rest;
    }
  }

  /** One more message matters only if nothing before it was accepted. */
  lemma {:induction false} AcceptedAppend(inbox: seq<Message>, m: Message)
    ensures Accepted(inbox + [m]) == if Accepted(inbox).Some? then Accepted(inbox) else Accepted([m])
  {
    if inbox == [] {
      assert [] + [m] == [m];
    } else {
      assert (inbox + [m])[1..] == inbox[1..] + [m];
      AcceptedAppend(inbox[1..], m);
    }
  }

  lemma AcceptedOne(m: Message)
    ensures Accepted([m]) == if m.Reply? && (m.id == ID_INITIALIZE || m.body.Warming?) then None else Some(m)
  {
  }

  lemma {:induction false} ForwardedAppend(inbox: seq<Message>, m: Message)
    ensures Forwarded(inbox + [m]) == Forwarded(inbox) + if m.Reply? then [m] else []
  {
    if inbox == [] {
      assert [] + [m] == [m];
      assert [m][1..] == [];
    } else {
      assert (inbox + [m])[1..] == inbox[1..] + [m];
      ForwardedAppend(inbox[1..], m);
      var first := if inbox[0].Reply? then [inbox[0]] else [];
      var rest, last := Forwarded(inbox[1..]), if m.Reply? then [m] else [];
      assert Forwarded(inbox + [m]) == first + (rest + last);
      assert Forwarded(inbox) == first + rest;
      assert first + (rest + last) == (first + rest) + last;
    }
  }

  // ---------------------------------------------------------------- the loop

  /** A session with a server that answers each request once, in any order and at any time. A
      receive takes at least one tick of the clock. */
  class Session {
    const forwardsAll: bool      // the socket session; the stdio one drops notifications
    const serverNotifies: bool
    var clock: nat
    var unanswered: set<int>
    ghost var sent: seq<int>
    ghost var atSend: seq<set<int>>    // the calls still unanswered when each of them was sent
    ghost var inbox: seq<Message>      // everything that has arrived
    ghost var broken: bool             // a send has failed or the other side is gone
    ghost var waits: seq<(nat, nat)>   // when each receive or sleep started, and its longest end
    ghost var pauses: seq<Pause>       // the sleeps alone

    constructor (forwardsAll: bool, serverNotifies: bool, clock: nat)
      ensures this.forwardsAll == forwardsAll && this.serverNotifies == serverNotifies
      ensures unanswered == {} && sent == [] && atSend == [] && inbox == []
      ensures waits == [] && pauses == [] && !broken && this.clock == clock
    {
      this.forwardsAll, this.serverNotifies, this.clock := forwardsAll, serverNotifies, clock;
      unanswered, sent, atSend, inbox, waits, pauses, broken := {}, [], [], [], [], [], false;
    }

    /** What the session hands to the loop of what has arrived. */
    ghost function Seen(): seq<Message>
      reads this
    {
      if forwardsAll then inbox else Forwarded(inbox)
    }

    lemma NothingSeen()
      requires inbox == [] && waits == []
      ensures Seen() == [] && Accepted([]) == None && forall d: nat :: WaitsWithin(d)
    {
    }

    method Send(id: int) returns (ok: bool)
      modifies `unanswered, `sent, `atSend, `broken
      ensures sent == old(sent) + [id] && atSend == old(atSend) + [old(Outstanding())]
      ensures unanswered == if ok then old(unanswered) + {id} else old(unanswered)
      ensures broken == (old(broken) || !ok)
    {
      sent, atSend := sent + [id], atSend + [Outstanding()];
      ok := *;
      if ok {
        unanswered := unanswered + {id};
      } else {
        broken := true;
      }
    }

    method Receive(timeout: nat) returns (r: Received)
      requires timeout > 0
      modifies `clock, `unanswered, `inbox, `waits, `broken
      ensures Seen() == old(Seen()) + if r.Got? then [r.msg] else []
      ensures waits == old(waits) + [(old(clock), old(clock) + timeout)]
      ensures old(clock) < clock
      ensures r.Got? && r.msg.Reply? ==>
                r.msg.id in old(unanswered) && unanswered == old(unanswered) - {r.msg.id}
      ensures r.Got? && r.msg.Notification? ==>
                forwardsAll && serverNotifies && unanswered == old(unanswered)
      ensures !r.Got? ==> unanswered == old(unanswered)
      ensures r.TimedOut? ==> clock >= old(clock) + timeout
      ensures broken == (old(broken) || r.Disconnected?)
    {
      waits := waits + [(clock, clock + timeout)];
      DropNotifications();
      var taken :| 0 < taken <= timeout;
      var choice :| 0 <= choice < 4;
      clock := clock + taken;
      var id: int := *;
      if choice == 0 && id in unanswered {
        var body: Body := *;
        unanswered := unanswered - {id};
        Arrive(Reply(id, body));
        return Got(Reply(id, body));
      }
      if choice == 1 && forwardsAll && serverNotifies {
        var text: string := *;
        Arrive(Notification(text));
        return Got(Notification(text));
      }
      if choice == 2 {
        broken := true;
        return Disconnected;
      }
      clock := clock + (timeout - taken);
      return TimedOut;
    }

    ghost method Arrive(m: Message)
      requires m.Reply? || forwardsAll
      modifies `inbox
      ensures Seen() == old(Seen()) + [m]
    {
      ForwardedAppend(inbox, m);
      inbox := inbox + [m];
    }

    /** Over stdio any number of notifications may come and go unseen. */
    method DropNotifications()
      modifies `inbox
      ensures Seen() == old(Seen())
    {
      var n :| n >= 0;
      if forwardsAll || !serverNotifies { return; }
      while n > 0
        invariant Seen() == old(Seen())
      {
        var text: string := *;
        ForwardedAppend(inbox, Notification(text));
        inbox := inbox + [Notification(text)];
        n := n - 1;
      }
    }

    method Sleep(length: nat)
      modifies `clock, `waits, `pauses
      ensures clock >= old(clock) + length && waits == old(waits) + [(old(clock), old(clock) + length)]
      ensures pauses == old(pauses) + [Pause(old(clock), length, |sent|)]
    {
      pauses := pauses + [Pause(clock, length, |sent|)];
      waits := waits + [(clock, clock + length)];
      clock := clock + length;
    }

    /** The calls (not the initialize request) still waiting for their answer. */
    ghost function Outstanding(): set<int>
      reads this
    {
      unanswered - {ID_INITIALIZE}
    }

    /** Every call was sent with no other call unanswered. */
    ghost predicate OneAtATime()
      reads this
    {
      forall i | 0 <= i < |atSend| :: atSend[i] == {}
    }

    ghost predicate WaitsWithin(deadline: nat)
      reads this
    {
      forall i | 0 <= i < |waits| :: waits[i].1 <= deadline
    }

    /** Initialize, and call without waiting for the answer. */
    method Open() returns (ok: bool, lastId: int)
      requires unanswered == {} && sent == [] && atSend == [] && !broken
      modifies `unanswered, `sent, `atSend, `broken
      ensures FreshIds(sent) && lastId == |sent| <= 2 && |sent| >= if ok then 2 else 1
      ensures broken == !ok && OneAtATime()
      ensures Outstanding() == if ok then {lastId} else {}
    {
      lastId := ID_INITIALIZE;
      ok := Send(ID_INITIALIZE);
      if !ok { return; }
      lastId := ID_CALL;
      ok := Send(ID_CALL);
    }

    /** Wait as told, but not past the deadline, and call again. */
    method CallAgain(lastId: int, retryAfterMs: Option<nat>, deadline: nat, ghost delays: seq<Option<nat>>)
      returns (ok: bool, next: int)
      requires clock < deadline && FreshIds(sent) && lastId == |sent| >= 2 && !broken && WaitsWithin(deadline)
      requires |sent| == |pauses| + 2 == |delays| + 2 && PausesAsTold(pauses, delays, deadline)
      modifies `clock, `waits, `pauses, `unanswered, `sent, `atSend, `broken
      ensures |sent| == |pauses| + 2 && |pauses| == |old(pauses)| + 1
      ensures PausesAsTold(pauses, delays + [retryAfterMs], deadline)
      ensures FreshIds(sent) && next == |sent| == lastId + 1 && broken == !ok && WaitsWithin(deadline)
      ensures old(OneAtATime()) && old(Outstanding()) == {} ==> OneAtATime()
      ensures Outstanding() == old(Outstanding()) + if ok then {next} else {}
      ensures old(clock) <= clock
    {
      var pause := (match retryAfterMs case Some(ms) => ms case None => 1000) * MILLISECOND;
      var remaining := deadline - clock;
      Sleep(if pause < remaining then pause else remaining);
      next := lastId + 1;
      ok := Send(next);
    }

    /** One receive of the loop, until the deadline at the latest. */
    method Await(deadline: nat) returns (r: Received)
      requires clock < deadline && Accepted(Seen()) == None && !broken && WaitsWithin(deadline)
      modifies `clock, `unanswered, `inbox, `waits, `broken
      ensures old(clock) < clock && WaitsWithin(deadline)
      ensures !r.Got? ==> Accepted(Seen()) == None && Delays(Seen()) == old(Delays(Seen()))
      ensures !r.Got? ==> broken || clock >= deadline
      ensures r.Got? ==>
                && !broken
                && Accepted(Seen()) == if r.msg.Reply? && (r.msg.id == ID_INITIALIZE || r.msg.body.Warming?)
                                       then None else Some(r.msg)
      ensures r.Got? ==>
                Delays(Seen()) == if r.msg.Reply? && r.msg.id != ID_INITIALIZE && r.msg.body.Warming?
                                  then old(Delays(Seen())) + [r.msg.body.retryAfterMs] else old(Delays(Seen()))
      ensures !forwardsAll || !serverNotifies ==>
                && (!r.Got? ==> Outstanding() == old(Outstanding()))
                && (r.Got? ==> r.msg.Reply? && if r.msg.id == ID_INITIALIZE then Outstanding() == old(Outstanding())
                               else r.msg.id in old(Outstanding()) && Outstanding() == old(Outstanding()) - {r.msg.id})
    {
      hide Seen, Accepted, Delays;
      ghost var seen := Seen();
      r := Receive(deadline - clock);
      if r.Got? {
        AcceptedOne(r.msg);
        AcceptedAppend(seen, r.msg);
        DelaysAppend(seen, r.msg);
      } else {
        assert seen + [] == seen;
      }
    }

    /** Initialize, call, and call again under a fresh id for as long as the server is warming
        up. Unless notifications get through, every call is sent with no other call outstanding,
        the answer is the final reply to the latest call, and in all cases no receive or sleep
        can run past the deadline. It gives up only when the deadline has passed, a send failed
        or the other side is gone. */
    method CallLoop(timeout: nat) returns (r: Outcome, lastId: int)
      requires unanswered == {} && sent == [] && atSend == [] && inbox == [] && waits == [] && !broken
      requires pauses == []
      modifies this
      ensures FreshIds(sent) && lastId == |sent| >= if broken then 1 else 2
      ensures PausesAsTold(pauses, Delays(Seen()), old(clock) + timeout)
      ensures lastId >= 2 ==> |sent| == |pauses| + 2
      ensures |pauses| < |Delays(Seen())| ==>
                r.NoAnswer? && clock >= old(clock) + timeout && |pauses| == |Delays(Seen())| - 1
      ensures Accepted(Seen()) == match r case Answer(m) => Some(m) case NoAnswer => None
      ensures r.NoAnswer? ==> broken || clock >= old(clock) + timeout
      ensures r.Answer? ==> !broken && (IsFinal(r.msg) || r.msg.Notification?)
      ensures WaitsWithin(old(clock) + timeout)
      ensures !forwardsAll || !serverNotifies ==>
                && OneAtATime() && Outstanding() <= {lastId}
                && (r.Answer? ==> IsFinal(r.msg) && r.msg.id == lastId && Outstanding() == {})
    {
      NothingSeen();
      hide Seen, Forwarded, FreshIds, OneAtATime, Delays, PausesAsTold, WaitsWithin, Outstanding, Accepted;
      NoDelays(old(clock) + timeout);
      var started := clock;
      var deadline := started + timeout;
      var ok: bool;
      ok, lastId := Open();
      if !ok { return NoAnswer, lastId; }
      ghost var paired := !forwardsAll || !serverNotifies;
      while true
        invariant started == old(clock) <= clock && deadline == started + timeout
        invariant Accepted(Seen()) == None
        invariant !broken && lastId == |sent| >= 2 && FreshIds(sent)
        invariant WaitsWithin(deadline)
        invariant |sent| == |pauses| + 2 && |pauses| == |Delays(Seen())|
        invariant PausesAsTold(pauses, Delays(Seen()), deadline)
        invariant paired ==> Outstanding() == {lastId} && OneAtATime()
        decreases deadline - clock
      {
        if clock >= deadline { return NoAnswer, lastId; }
        ghost var delays := Delays(Seen());
        var received := Await(deadline);
        if !received.Got? { return NoAnswer, lastId; }
        var msg := received.msg;
        if msg.Reply? && msg.id == ID_INITIALIZE { continue; }
        if !(msg.Reply? && msg.body.Warming?) { return Answer(msg), lastId; }
        if clock >= deadline { return NoAnswer, lastId; }
        ok, lastId := CallAgain(lastId, msg.body.retryAfterMs, deadline, delays);
        if !ok { return NoAnswer, lastId; }
      }
    }
  }
}
