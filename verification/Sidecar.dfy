/** The supervisor of the git sidecar process (src/sidecar.rs).

    Every method below is the code's own sequence of system calls; before each of them, and
    inside the loops that wait, the environment of SidecarWorld.dfy takes any number of steps. */
module Sidecar {
  import opened Instants
  import opened Outcomes
  import opened LainErrors
  import opened SidecarMessages
  import opened SidecarWorld
  import opened RespawnBudget

  // ---------------------------------------------------------------- system calls

  datatype Waited = Gone | Alive | Unknown

  /** What the supervisor's system calls told it, apart from time and names: every failure, and
      the successes that later ones are judged by. */
  datatype Event =
    | NoBinary
    | NotSpawned
    | FoundDead(child: nat)
    | Unpolled(child: nat)               // `try_wait` itself failed
    | Killed(child: nat, at: nat)
    | Declined(path: nat)                // a connect that reached nobody
    | Rested(length: nat)
    | Wrote(conn: nat, sent: Sent)
    | Unwritten(conn: nat)
    | Heard(conn: nat, theirs: Binary)   // a reply, and the binary at the other end
    | Unread(conn: nat)

  /** How much of everything there was at some moment. */
  datatype Moment = Moment(events: nat, children: nat, conns: nat, paths: nat, clock: nat)

  predicate NoLater(a: Moment, b: Moment) {
    && a.events <= b.events && a.children <= b.children && a.conns <= b.conns && a.paths <= b.paths
    && a.clock <= b.clock
  }

  class Environment {
    var w: World
    ghost var seen: seq<Event>
    /** What the rest of the world will try to do, in order. Nothing is assumed about it. */
    var agenda: seq<Step>

    constructor (agenda: seq<Step>)
      ensures w == World(0, 0, [], [], {}, []) && Inv(w) && seen == []
    {
      w, seen := World(0, 0, [], [], {}, []), [];
      this.agenda := agenda;
    }

    ghost function At(): Moment
      reads this
    {
      Moment(|seen|, |w.children|, |w.conns|, w.nextPath, w.clock)
    }

    /** Nothing seen is unseen, and nothing gets fewer. */
    ghost predicate Continues(before: seq<Event>, m: Moment)
      reads this
    {
      before <= seen && NoLater(m, At())
    }

    ghost method See(e: Event)
      modifies `seen
      ensures seen == old(seen) + [e]
    {
      seen := seen + [e];
    }

    method Others()
      requires Inv(w)
      modifies `w, `agenda
      ensures Inv(w) && Evolves(old(w), w)
    {
      var n :| 0 <= n <= |agenda|;
      for i := 0 to n
        invariant Inv(w) && Evolves(old(w), w) && agenda == old(agenda)
      {
        if Enabled(w, agenda[i]) {
          StepKeepsInv(w, agenda[i]);
          EvolvesTransitive(old(w), w, Take(w, agenda[i]));
          w := Take(w, agenda[i]);
        }
      }
      agenda := agenda[n..];
    }

    method Now() returns (t: nat)
      requires Inv(w)
      modifies `w, `agenda
      ensures Inv(w) && Evolves(old(w), w) && t == w.clock
    {
      Others();
      t := w.clock;
    }

    method Sleep(d: nat)
      requires Inv(w)
      modifies this
      ensures Inv(w) && Evolves(old(w), w) && w.clock >= old(w.clock) + d
      ensures seen == old(seen) + [Rested(d)]
    {
      See(Rested(d));
      Others();
      ghost var mid := w;
      StepKeepsInv(w, Tick(d));
      w := Take(w, Tick(d));
      EvolvesTransitive(old(w), mid, w);
    }

    method GenerateSocketPath() returns (path: nat, ghost mid: World)
      requires Inv(w)
      modifies `w, `agenda
      ensures Inv(w) && Inv(mid) && Evolves(old(w), mid) && w == NewPath(mid) && path == mid.nextPath
    {
      Others();
      mid := w;
      path := w.nextPath;
      SameTraffic(w, NewPath(w));
      w := NewPath(w);
    }

    /** Locating the sidecar binary; which one is found is up to the machine. */
    method ResolveBinary() returns (binary: Option<Binary>)
      requires Inv(w)
      modifies this
      ensures Inv(w) && Evolves(old(w), w)
      ensures seen == old(seen) + if binary.None? then [NoBinary] else []
    {
      Others();
      var found: bool := *;
      var b: Binary := *;
      binary := if found then Some(b) else None;
      if !found { See(NoBinary); }
    }

    method SpawnChild(path: nat, binary: Binary) returns (child: Option<nat>, ghost mid: World)
      requires Inv(w) && path < w.nextPath
      requires forall c | 0 <= c < |w.children| :: w.children[c].path != path
      requires forall c | 0 <= c < |w.children| && w.children[c].mine :: w.children[c].status.Reaped?
      modifies this
      ensures Inv(w) && Inv(mid) && Evolves(old(w), mid)
      ensures child.None? ==> w == mid
      ensures child.Some? ==> w == Spawn(mid, path, binary) && child.value == |mid.children|
      ensures seen == old(seen) + if child.None? then [NotSpawned] else []
    {
      Others();
      mid := w;
      var fails: bool := *;
      if fails {
        See(NotSpawned);
        return None, mid;
      }
      child := Some(|w.children|);
      forall c | 0 <= c < |w.children|
        ensures w.children[c].path != path && (w.children[c].mine ==> w.children[c].status.Reaped?)
      {
        if c < |old(w).children| { assert ChildEvolves(old(w).children[c], w.children[c]); }
      }
      SameTraffic(w, Spawn(w, path, binary));
      w := Spawn(w, path, binary);
    }

    /** `try_wait`: reaps a child that has exited, and remembers one already reaped. */
    method TryWait(c: nat) returns (r: Waited, ghost mid: World)
      requires Inv(w) && c < |w.children|
      modifies this
      ensures Inv(w) && Inv(mid) && Evolves(old(w), mid)
      ensures r.Gone? ==> c < |mid.children| && !mid.children[c].status.Running? && w == Reap(mid, c)
      ensures !r.Gone? ==> w == mid
      ensures r.Alive? ==> c < |w.children| && w.children[c].status.Running?
      ensures seen == old(seen) + match r case Gone => [FoundDead(c)] case Alive => [] case Unknown => [Unpolled(c)]
    {
      Others();
      mid := w;
      var fails: bool := *;
      if fails {
        See(Unpolled(c));
        return Unknown, mid;
      }
      if w.children[c].status.Running? { return Alive, mid; }
      See(FoundDead(c));
      SameTraffic(w, Reap(w, c));
      w := Reap(w, c);
      return Gone, mid;
    }

    method Kill(c: nat)
      requires Inv(w) && c < |w.children|
      modifies this
      ensures Inv(w) && Evolves(old(w), w) && c < |w.children| && !w.children[c].status.Running?
      ensures seen == old(seen) || (seen == old(seen) + [Killed(c, w.clock)])
      ensures !old(w).children[c].status.Running? ==> seen == old(seen)
    {
      Others();
      ghost var mid := w;
      if w.children[c].status.Running? {
        See(Killed(c, w.clock));
        StepKeepsInv(w, Die(c, false));
        w := Take(w, Die(c, false));
        EvolvesTransitive(old(w), mid, w);
      }
    }

    /** `wait` on a child that cannot be running any more. */
    method Wait(c: nat) returns (ghost mid: World)
      requires Inv(w) && c < |w.children| && !w.children[c].status.Running?
      modifies `w, `agenda
      ensures Inv(w) && Inv(mid) && Evolves(old(w), mid)
      ensures c < |mid.children| && w == Reap(mid, c)
    {
      Others();
      mid := w;
      SameTraffic(w, Reap(w, c));
      w := Reap(w, c);
    }

    /** Connecting succeeds only if a child listens on that path; the connection is to it. */
    method Connect(path: nat) returns (k: Option<nat>, ghost c: nat, ghost mid: World)
      requires Inv(w)
      modifies this
      ensures Inv(w) && Inv(mid) && Evolves(old(w), mid)
      ensures k.None? ==> w == mid
      ensures k.Some? ==> c < |mid.children| && mid.children[c].path == path
                          && k.value == |mid.conns| && w == Open(mid, c)
      ensures seen == old(seen) + if k.None? then [Declined(path)] else []
    {
      Others();
      mid := w;
      c := 0;
      k := None;
      var i := 0;
      while i < |w.children|
      {
        if Listening(w, i) && w.children[i].path == path {
          c := i;
          k := Some(|w.conns|);
          OpenKeepsInv(w, i);
          w := Open(w, i);
          return;
        }
        i := i + 1;
      }
      See(Declined(path));
    }

    /** Writing a frame. A failure may come before, in the middle of or after it. What follows
        a torn frame is not a frame any more. */
    method WriteFrame(k: nat, sent: Sent) returns (ok: bool, ghost mid: World)
      requires Inv(w) && k < |w.conns|
      requires !sent.origin.Garbage? && (sent.origin.Attempt? ==> Untagged(w, sent.origin))
      modifies this
      ensures Inv(w) && Inv(mid) && Evolves(old(w), mid) && k < |mid.conns|
      ensures ok && !mid.conns[k].torn ==> w == Write(mid, k, sent)
      ensures w == mid || w == Tear(mid, k) || (!mid.conns[k].torn && w == Write(mid, k, sent))
      ensures seen == old(seen) + [if ok then Wrote(k, sent) else Unwritten(k)]
    {
      Others();
      mid := w;
      assert ConnEvolves(old(w).conns[k], w.conns[k]);
      if sent.origin.Attempt? { TagsKept(old(w), w, sent.origin); }
      var outcome :| 0 <= outcome < 4;
      ok := outcome == 3;
      See(if ok then Wrote(k, sent) else Unwritten(k));
      if !w.conns[k].torn {
        if outcome >= 2 {
          WriteKeepsInv(w, k, sent);
          w := Write(w, k, sent);
        } else if outcome == 1 {
          TearKeepsInv(w, k);
          w := Tear(w, k);
        }
      }
    }

    /** Reading a frame: the next reply if it arrives in time. It may also time out although
        the reply is about to come. */
    method ReadFrame(k: nat) returns (resp: Option<Response>, ghost mid: World)
      requires Inv(w) && k < |w.conns|
      modifies this
      ensures Inv(w) && Inv(mid) && Evolves(old(w), mid) && k < |mid.conns|
      ensures resp.None? ==> w == mid
      ensures resp.Some? ==> mid.conns[k].read < |mid.conns[k].replies|
                             && resp.value == mid.conns[k].replies[mid.conns[k].read]
                             && w == ReadOne(mid, k)
      ensures resp.None? ==> seen == old(seen) + [Unread(k)]
      ensures resp.Some? ==> w.conns[k].child < |w.children|
                             && seen == old(seen) + [Heard(k, w.children[w.conns[k].child].binary)]
    {
      Others();
      mid := w;
      var fails: bool := *;
      if fails || w.conns[k].read >= |w.conns[k].replies| {
        See(Unread(k));
        return None, mid;
      }
      resp := Some(w.conns[k].replies[w.conns[k].read]);
      ReadKeepsInv(w, k);
      w := ReadOne(w, k);
      See(Heard(k, w.children[w.conns[k].child].binary));
    }

    method RemoveFile(path: nat) returns (ghost mid: World)
      requires Inv(w)
      modifies `w, `agenda
      ensures Inv(w) && Inv(mid) && Evolves(old(w), mid) && w == Unlink(mid, path)
    {
      Others();
      mid := w;
      SameTraffic(w, Unlink(w, path));
      w := Unlink(w, path);
    }
  }

  // ---------------------------------------------------------------- what the supervisor keeps true

  /** The child slot accounts for every child ever spawned: all the others have been reaped and
      their socket files are gone. */
  ghost predicate SlotOk(w: World, child: Option<nat>, path: nat) {
    && path < w.nextPath
    && (child.Some? ==> child.value < |w.children| && w.children[child.value].mine
                        && w.children[child.value].path == path)
    && (forall c | 0 <= c < |w.children| && w.children[c].mine && child != Some(c) ::
          w.children[c].status.Reaped? && w.children[c].path !in w.files)
  }

  ghost predicate StreamOk(w: World, child: Option<nat>, stream: Option<nat>) {
    stream.Some? ==> child.Some? && stream.value < |w.conns| && w.conns[stream.value].child == child.value
  }

  /** A connection fit for the next request: greeted by a sidecar of this protocol version
      (and, in a release build, of this build), with every reply read. */
  ghost predicate Ready(w: World, k: nat, build: string, release: bool) {
    && k < |w.conns|
    && var c := w.conns[k];
    && c.child < |w.children|
    && !c.torn
    && c.requests != [] && c.requests[0] == Sent(Hello, Handshake(PROTOCOL_VERSION))
    && c.read == |c.requests| <= |c.replies|
    && w.children[c.child].binary.version == PROTOCOL_VERSION
    && c.replies[0] == HandshakeAck(PROTOCOL_VERSION, w.children[c.child].binary.build)
    && (release ==> w.children[c.child].binary.build == build)
  }

  /** How a step of the supervisor that is not an attempt at a call may move the world. */
  ghost predicate Moves(w: World, w': World) {
    && w.clock <= w'.clock
    && |w.children| <= |w'.children| && |w.conns| <= |w'.conns| && w.nextPath <= w'.nextPath
    && w.log <= w'.log
    && (forall o: Origin | o.Attempt? && Untagged(w, o) :: Untagged(w', o))
  }

  lemma EvolvesReflexive(w: World)
    ensures Evolves(w, w)
  {
  }

  lemma MovesReflexive(w: World)
    ensures Moves(w, w)
  {
  }

  lemma MovesTransitive(a: World, b: World, c: World)
    requires Moves(a, b) && Moves(b, c)
    ensures Moves(a, c)
  {
  }

  lemma MovesOn(w: World, w': World)
    requires Moves(w, w')
    ensures w.clock <= w'.clock && w.nextPath <= w'.nextPath
    ensures |w.children| <= |w'.children| && |w.conns| <= |w'.conns|
  {
  }

  lemma EvolvesMoves(w: World, w': World)
    requires Evolves(w, w')
    ensures Moves(w, w')
  {
    forall o: Origin | o.Attempt? && Untagged(w, o) ensures Untagged(w', o) { TagsKept(w, w', o); }
  }

  /** No request of a call not yet made has been written. */
  ghost predicate CallsBelow(w: World, n: nat) {
    forall call: nat, retry: bool | call >= n :: Untagged(w, Attempt(call, retry))
  }

  /** A supervisor without attempts has kept its budget. */
  lemma NoAttempts(now: nat)
    ensures Budgeted([]) && Remembers([], [], now)
  {
  }

  /** In an environment without children or requests of ours, a first socket path. */
  lemma NothingYet(before: World, mid: World)
    requires Evolves(before, mid) && Mine(before) == {} && CallsBelow(before, 0)
    ensures var w := NewPath(mid);
            && SlotOk(w, None, mid.nextPath) && Mine(w) == {} && CallsBelow(w, 0)
            && |before.children| <= |w.children| && |before.conns| <= |w.conns|
            && before.nextPath <= w.nextPath && before.clock <= w.clock
  {
    var w := NewPath(mid);
    forall c | 0 <= c < |w.children| ensures !w.children[c].mine {
      if c < |before.children| {
        assert ChildEvolves(before.children[c], mid.children[c]);
        assert c !in Mine(before);
      }
    }
    assert Mine(w) == {};
    forall call: nat, retry: bool ensures Untagged(w, Attempt(call, retry)) {
      TagsKept(before, mid, Attempt(call, retry));
      assert Untagged(mid, Attempt(call, retry));
    }
  }

  function Mine(w: World): set<nat> {
    set c: nat | c < |w.children| && w.children[c].mine
  }

  lemma SlotKept(w: World, w': World, child: Option<nat>, path: nat)
    requires Inv(w) && Evolves(w, w') && SlotOk(w, child, path)
    ensures SlotOk(w', child, path) && Mine(w') == Mine(w)
  {
    forall c | 0 <= c < |w'.children| && w'.children[c].mine && child != Some(c)
      ensures w'.children[c].status.Reaped? && w'.children[c].path !in w'.files
    {
      assert ChildEvolves(w.children[c], w'.children[c]);
    }
    forall c: nat | c < |w'.children| ensures c in Mine(w') <==> c in Mine(w) {
      if c < |w.children| { assert ChildEvolves(w.children[c], w'.children[c]); }
    }
  }

  lemma TagsKept(w: World, w': World, o: Origin)
    requires Evolves(w, w') && Untagged(w, o)
    ensures Untagged(w', o)
  {
    forall k, i | 0 <= k < |w'.conns| && 0 <= i < |w'.conns[k].requests|
      ensures w'.conns[k].requests[i].origin != o
    {
      assert ConnEvolves(w.conns[k], w'.conns[k]);
    }
  }

  /** The slot, and how far the world has moved since `w0`, across steps of the environment. */
  lemma Settle(w0: World, a: World, b: World, child: Option<nat>, path: nat)
    requires Inv(a) && SlotOk(a, child, path) && Moves(w0, a) && Evolves(a, b)
    ensures SlotOk(b, child, path) && Mine(b) == Mine(a) && Moves(w0, b)
  {
    SlotKept(a, b, child, path);
    EvolvesMoves(a, b);
    MovesTransitive(w0, a, b);
  }

  lemma Reaping(w0: World, a: World, c: nat, path: nat)
    requires SlotOk(a, Some(c), path) && Moves(w0, a)
    ensures SlotOk(Reap(a, c), Some(c), path) && Mine(Reap(a, c)) == Mine(a) && Moves(w0, Reap(a, c))
  {
    var b := Reap(a, c);
    forall o: Origin | o.Attempt? && Untagged(w0, o) ensures Untagged(b, o) { assert Untagged(a, o); }
  }

  /** With its child reaped, removing the socket file empties the slot. */
  lemma Emptying(w0: World, a: World, child: Option<nat>, path: nat)
    requires SlotOk(a, child, path) && Moves(w0, a)
    requires child.Some? ==> a.children[child.value].status.Reaped?
    ensures SlotOk(Unlink(a, path), None, path) && Mine(Unlink(a, path)) == Mine(a) && Moves(w0, Unlink(a, path))
  {
    var b := Unlink(a, path);
    forall o: Origin | o.Attempt? && Untagged(w0, o) ensures Untagged(b, o) { assert Untagged(a, o); }
  }

  /** A written frame that is not an attempt, or a torn one, moves nothing callers track. */
  lemma Writing(w0: World, a: World, b: World, k: nat, sent: Sent)
    requires Moves(w0, a) && k < |a.conns| && !sent.origin.Attempt?
    requires b == a || b == Tear(a, k) || b == Write(a, k, sent)
    ensures Moves(w0, b) && b.children == a.children && b.files == a.files && Mine(b) == Mine(a)
  {
    forall o: Origin | o.Attempt? && Untagged(w0, o) ensures Untagged(b, o) { assert Untagged(a, o); }
  }

  lemma ReadingMoves(w0: World, a: World, k: nat)
    requires Moves(w0, a) && k < |a.conns|
    ensures Moves(w0, ReadOne(a, k))
  {
    forall o: Origin | o.Attempt? && Untagged(w0, o) ensures Untagged(ReadOne(a, k), o) { assert Untagged(a, o); }
  }

  /** An empty slot can take over a path just generated. */
  lemma FreshPath(w0: World, a: World)
    requires Inv(a) && Moves(w0, a) && (exists p :: SlotOk(a, None, p))
    ensures SlotOk(NewPath(a), None, a.nextPath) && Mine(NewPath(a)) == Mine(a) && Moves(w0, NewPath(a))
    ensures forall c | 0 <= c < |a.children| :: a.children[c].path != a.nextPath
  {
    forall o: Origin | o.Attempt? && Untagged(w0, o) ensures Untagged(NewPath(a), o) { assert Untagged(a, o); }
  }

  lemma EmptySlot(w: World, path: nat)
    requires SlotOk(w, None, path)
    ensures path < w.nextPath
    ensures forall c | 0 <= c < |w.children| && w.children[c].mine :: w.children[c].status.Reaped?
  {
  }

  lemma SlotBound(w: World, c: nat, path: nat)
    requires SlotOk(w, Some(c), path)
    ensures c < |w.children|
  {
  }

  lemma PathStaysFresh(a: World, b: World, path: nat)
    requires Evolves(a, b) && path < a.nextPath
    requires forall c | 0 <= c < |a.children| :: a.children[c].path != path
    ensures forall c | 0 <= c < |b.children| :: b.children[c].path != path
  {
    forall c | 0 <= c < |b.children| ensures b.children[c].path != path {
      if c < |a.children| { assert ChildEvolves(a.children[c], b.children[c]); }
    }
  }

  lemma Spawning(w0: World, a: World, path: nat, binary: Binary)
    requires SlotOk(a, None, path) && Moves(w0, a)
    ensures var b := Spawn(a, path, binary);
            && SlotOk(b, Some(|a.children|), path) && Moves(w0, b)
            && Mine(b) == Mine(a) + {|a.children|} && |Mine(b)| == |Mine(a)| + 1
  {
    var b := Spawn(a, path, binary);
    assert |a.children| !in Mine(a);
    assert Mine(b) == Mine(a) + {|a.children|};
    forall o: Origin | o.Attempt? && Untagged(w0, o) ensures Untagged(b, o) { assert Untagged(a, o); }
  }

  /** A connection to the slot's socket path is a connection to the slot's child. */
  lemma Opening(w0: World, a: World, c: nat, child: Option<nat>, path: nat)
    requires Inv(a) && SlotOk(a, child, path) && Moves(w0, a) && child.Some?
    requires c < |a.children| && a.children[c].path == path
    ensures c == child.value
    ensures SlotOk(Open(a, c), child, path) && Mine(Open(a, c)) == Mine(a) && Moves(w0, Open(a, c))
  {
    forall o: Origin | o.Attempt? && Untagged(w0, o) ensures Untagged(Open(a, c), o) { assert Untagged(a, o); }
  }

  function Living(w: World): set<nat> {
    set c: nat | c < |w.children| && w.children[c].mine && w.children[c].status.Running?
  }

  /** Every child ever spawned has been reaped, its socket file gone with it, or is the one in
      the slot: at most one is alive. */
  lemma ChildrenConserved(w: World, child: Option<nat>, path: nat)
    requires SlotOk(w, child, path)
    ensures forall c | c in Mine(w) && child != Some(c) ::
              w.children[c].status.Reaped? && w.children[c].path !in w.files
    ensures child.Some? ==> child.value in Mine(w)
    ensures forall c | c in Living(w) :: child == Some(c)
    ensures |Living(w)| <= 1
  {
    if child.Some? {
      AtMostOne(Living(w), child.value);
    } else {
      assert Living(w) == {};
    }
  }

  /** Not only between calls: in every reachable state of the world at most one child of the
      supervisor's is alive. */
  lemma OneAliveAlways(w: World)
    requires Inv(w)
    ensures |Living(w)| <= 1
  {
    if Living(w) != {} {
      var x :| x in Living(w);
      assert IsAlive(w.children[x]);
      forall y | y in Living(w) ensures y == x { assert IsAlive(w.children[y]); }
      AtMostOne(Living(w), x);
    }
  }

  lemma AtMostOne(s: set<nat>, x: nat)
    requires forall y | y in s :: y == x
    ensures |s| <= 1
  {
    assert s == {} || s == {x};
  }

  /** By time T a supervisor has spawned at most 1 + 3 * (T / 30s + 1) children. */
  lemma SpawnsBounded(w: World, history: seq<nat>, attempts: seq<nat>)
    requires Budgeted(attempts) && Remembers(history, attempts, w.clock)
    requires |Mine(w)| <= |attempts| + 1
    ensures |Mine(w)| <= 1 + 3 * (w.clock / RESPAWN_WINDOW + 1)
  {
    TotalAttempts(attempts, w.clock);
  }

  /** A handshake written to a fresh connection is its only frame. */
  lemma Greeted(first: World, m: World, w: World, k: nat, hello: Sent, written: bool)
    requires Evolves(first, m) && k < |first.conns| && k < |m.conns| && hello.origin.Hello?
    requires first.conns[k].requests == [] && !first.conns[k].torn && first.conns[k].read == 0
    requires w == m || w == Tear(m, k) || w == Write(m, k, hello)
    requires written && !m.conns[k].torn ==> w == Write(m, k, hello)
    ensures Moves(first, w)
    ensures written ==> FreshlyGreeted(w, k, hello)
    ensures k < |w.conns| && w.conns[k].read == 0
  {
    EvolvesMoves(first, m);
    Writing(first, m, w, k, hello);
    assert ConnEvolves(first.conns[k], m.conns[k]);
  }

  predicate FreshlyGreeted(w: World, k: nat, hello: Sent) {
    k < |w.conns| && w.conns[k].requests == [hello] && !w.conns[k].torn && w.conns[k].read == 0
  }

  lemma StillUnread(before: World, m: World, k: nat)
    requires Evolves(before, m) && k < |before.conns|
    ensures k < |m.conns| && m.conns[k].read == before.conns[k].read
  {
    assert ConnEvolves(before.conns[k], m.conns[k]);
  }

  /** The reply to it, if it is an acknowledgement of this version and of an acceptable build,
      makes the connection ready. */
  lemma GreetingRead(before: World, m: World, k: nat, build: string, release: bool)
    requires FreshlyGreeted(before, k, Sent(Hello, Handshake(PROTOCOL_VERSION)))
    requires Evolves(before, m) && Inv(m) && k < |m.conns| && m.conns[k].replies != []
    ensures m.conns[k].read == 0 && m.conns[k].child < |m.children|
    ensures var ack := m.conns[k].replies[0];
            ack.HandshakeAck? && ack.version == PROTOCOL_VERSION && (ack.build == build || !release) ==>
              Ready(ReadOne(m, k), k, build, release)
    ensures var theirs := m.children[m.conns[k].child].binary;
            && (m.conns[k].replies[0].HandshakeAck? <==> theirs.version == PROTOCOL_VERSION)
            && (theirs.version == PROTOCOL_VERSION ==>
                  m.conns[k].replies[0] == HandshakeAck(PROTOCOL_VERSION, theirs.build))
  {
    assert ConnEvolves(before.conns[k], m.conns[k]);
    assert ConnOk(m, k) && Answers(m, k, 0);
  }

  /** A reply handed to the caller, and the attempt that read it. */
  datatype Delivery = Delivery(call: nat, retry: bool, req: Request, resp: Response)

  /** The delivery is a dispatch of the very request that this attempt wrote: not one of another
      call, and not one of the call's other attempt. */
  ghost predicate Genuine(log: seq<Dispatched>, d: Delivery, from: nat) {
    exists j :: from <= j < |log| && IsAnswer(log[j], d)
  }

  predicate IsAnswer(e: Dispatched, d: Delivery) {
    e.sent == Sent(Attempt(d.call, d.retry), d.req) && e.resp == d.resp
  }

  /** Writing the request of an attempt on a ready connection, which may fail, leaves all other
      tags as they were. */
  lemma AttemptWritten(first: World, m: World, w: World, k: nat, sent: Sent, ok: bool, build: string, release: bool)
    requires Evolves(first, m) && Ready(first, k, build, release) && k < |m.conns|
    requires w == m || w == Tear(m, k) || w == Write(m, k, sent)
    requires ok && !m.conns[k].torn ==> w == Write(m, k, sent)
    ensures ok ==> w == Write(m, k, sent)
    ensures first.clock <= w.clock && first.log <= w.log
    ensures forall o: Origin | o != sent.origin && Untagged(first, o) :: Untagged(w, o)
  {
    TagOnlyOne(m, w, k, sent);
    forall o: Origin | o != sent.origin && Untagged(first, o) ensures Untagged(w, o) { TagsKept(first, m, o); }
    assert ConnEvolves(first.conns[k], m.conns[k]);
  }

  /** The next reply on that connection, which leaves it ready again, was dispatched for this
      attempt after its request was written. */
  lemma AttemptRead(first: World, m: World, m2: World, k: nat, sent: Sent, build: string, release: bool)
    requires Inv(first) && Evolves(first, m) && Ready(first, k, build, release) && k < |m.conns|
    requires sent.origin.Attempt? && Untagged(first, sent.origin)
    requires Inv(m2) && Evolves(Write(m, k, sent), m2) && k < |m2.conns|
    requires m2.conns[k].read < |m2.conns[k].replies|
    ensures Ready(ReadOne(m2, k), k, build, release)
    ensures var resp := m2.conns[k].replies[m2.conns[k].read];
            Genuine(m2.log, Delivery(sent.origin.call, sent.origin.retry, sent.req, resp), |first.log|)
  {
    var w := Write(m, k, sent);
    var p := |m.conns[k].requests|;
    assert ConnEvolves(first.conns[k], m.conns[k]) && ConnEvolves(w.conns[k], m2.conns[k]);
    var c := first.conns[k].child;
    assert ChildEvolves(first.children[c], m.children[c]) && ChildEvolves(w.children[c], m2.children[c]);
    assert m2.conns[k].read == p && m2.conns[k].requests[p] == sent;
    assert ConnOk(m2, k) && Answers(m2, k, p);
    FreshTagNotLogged(first, m2.log, sent.origin);
    var j :| 0 <= j < |m2.log| && IsDispatch(m2.log[j], k, p, sent, m2.conns[k].replies[p]);
    assert IsAnswer(m2.log[j], Delivery(sent.origin.call, sent.origin.retry, sent.req, m2.conns[k].replies[p]));
  }

  /** Waiting for a reply, and reading one, adds no tags. */
  lemma ReadingKeepsTags(a: World, b: World, k: nat)
    requires Evolves(a, b) && k < |b.conns|
    ensures a.clock <= b.clock && a.log <= b.log
    ensures forall o: Origin | Untagged(a, o) :: Untagged(b, o) && Untagged(ReadOne(b, k), o)
  {
    forall o: Origin | Untagged(a, o) ensures Untagged(b, o) && Untagged(ReadOne(b, k), o) {
      TagsKept(a, b, o);
      assert Untagged(b, o);
    }
  }

  // ---------------------------------------------------------------- what may go wrong

  /** A sidecar this lain can work with. */
  predicate Acceptable(theirs: Binary, build: string, release: bool) {
    theirs.version == 2 && (release ==> theirs.build == build)
  }

  /** Dialling until the patience is gone: every pause is a fortieth of a second and follows a
      dial that reached nobody, as does the end. */
  predicate Dialling(events: seq<Event>, path: nat) {
    && events != [] && events[|events| - 1] == Declined(path)
    && forall i | 0 <= i < |events| ::
         || events[i] == Declined(path) || events[i].Unpolled?
         || (events[i] == Rested(SECOND / 40) && i > 0 && events[i - 1] == Declined(path))
  }

  /** Such events since the n-th, whatever comes next. */
  predicate Dials(seen: seq<Event>, n: nat, path: nat) {
    && n <= |seen|
    && forall i | n <= i < |seen| ::
         || seen[i] == Declined(path) || seen[i].Unpolled?
         || (seen[i] == Rested(SECOND / 40) && i > n && seen[i - 1] == Declined(path))
  }

  lemma DialsOn(seen: seq<Event>, n: nat, path: nat, e: Event)
    requires Dials(seen, n, path)
    requires || e == Declined(path) || e.Unpolled?
             || (e == Rested(SECOND / 40) && |seen| > n && seen[|seen| - 1] == Declined(path))
    ensures Dials(seen + [e], n, path)
  {
  }

  lemma DialsNothing(seen: seq<Event>, path: nat)
    ensures Dials(seen, |seen|, path)
  {
  }

  ghost predicate Dialled(seen: seq<Event>, since: nat, path: nat) {
    exists a: nat, b: nat | since <= a <= b <= |seen| :: Dialling(seen[a..b], path)
  }

  ghost predicate Seen(seen: seq<Event>, since: nat, e: Event) {
    exists i: nat | since <= i < |seen| :: seen[i] == e
  }

  /** Why a child could not be started and greeted since some moment: there was no binary, or it
      could not be run, or it died before it could be reached, or for two seconds nobody was
      listening, or the greeting could not be written or was not answered, or what answered is
      another version or, in a release build, another build. */
  ghost predicate Excuse(why: Event, seen: seq<Event>, since: Moment, now: nat, build: string, release: bool) {
    && Seen(seen, since.events, why)
    && match why
       case NoBinary => true
       case NotSpawned => true
       case FoundDead(c) => c >= since.children
       case Declined(path) =>
         path >= since.paths && now >= since.clock + 2 * SECOND && Dialled(seen, since.events, path)
       case Unwritten(k) => k >= since.conns
       case Unread(k) => k >= since.conns
       case Heard(k, theirs) => k >= since.conns && !Acceptable(theirs, build, release)
       case _ => false
  }

  /** A child found dead is an excuse. */
  lemma DeadExcuses(c: nat, seen: seq<Event>, since: Moment, now: nat, build: string, release: bool)
    requires since.events < |seen| && seen[|seen| - 1] == FoundDead(c) && c >= since.children
    ensures Excuse(FoundDead(c), seen, since, now, build, release)
  {
  }

  /** So is dialling for two seconds. */
  lemma DialsExcuse(path: nat, seen: seq<Event>, n: nat, since: Moment, now: nat, build: string, release: bool)
    requires Dials(seen, n, path) && since.events <= n < |seen| && seen[|seen| - 1] == Declined(path)
    requires path >= since.paths && now >= since.clock + 2 * SECOND
    ensures Excuse(Declined(path), seen, since, now, build, release)
  {
    assert Dialling(seen[n..|seen|], path);
  }

  lemma LastSeen(seen: seq<Event>, since: nat)
    requires since < |seen|
    ensures Seen(seen, since, seen[|seen| - 1])
  {
  }

  lemma SeenEarlier(seen: seq<Event>, since: nat, earlier: nat, e: Event)
    requires earlier <= since && Seen(seen, since, e)
    ensures Seen(seen, earlier, e)
  {
  }

  lemma SeenStill(seen: seq<Event>, seen': seq<Event>, since: nat, e: Event)
    requires seen <= seen' && Seen(seen, since, e)
    ensures Seen(seen', since, e)
  {
    var i: nat :| since <= i < |seen| && seen[i] == e;
    assert seen'[i] == e;
  }

  lemma ExcuseStands(why: Event, seen: seq<Event>, since: Moment, now: nat, build: string, release: bool,
                     seen': seq<Event>, since': Moment, now': nat)
    requires Excuse(why, seen, since, now, build, release)
    requires seen <= seen' && NoLater(since', since) && now <= now'
    ensures Excuse(why, seen', since', now', build, release)
  {
    SeenStill(seen, seen', since.events, why);
    if why.Declined? {
      var a: nat, b: nat :| since.events <= a <= b <= |seen| && Dialling(seen[a..b], why.path);
      assert seen'[a..b] == seen[a..b];
    }
  }

  /** A child is only killed half a second after it was told to go, or because it could not be
      polled; until then it is looked at every ten milliseconds. */
  ghost predicate Graceful(seen: seq<Event>, since: Moment) {
    && (forall i: nat | since.events <= i < |seen| && seen[i].Killed? ::
          seen[i].at >= since.clock + SECOND / 2 || Seen(seen, since.events, Unpolled(seen[i].child)))
    && (forall i: nat | since.events <= i < |seen| && seen[i].Rested? :: seen[i].length == SECOND / 100)
  }

  lemma GracefulEarlier(seen: seq<Event>, earlier: Moment, since: Moment, idle: bool)
    requires NoLater(earlier, since) && since.events <= |seen|
    requires forall i: nat | earlier.events <= i < since.events :: !seen[i].Killed? && !seen[i].Rested?
    requires if idle then since.events == |seen| else Graceful(seen, since)
    ensures Graceful(seen, earlier)
  {
    forall i: nat | earlier.events <= i < |seen| && seen[i].Killed?
      ensures seen[i].at >= earlier.clock + SECOND / 2 || Seen(seen, earlier.events, Unpolled(seen[i].child))
    {
      assert i >= since.events;
      assert seen[i].at >= since.clock + SECOND / 2 || Seen(seen, since.events, Unpolled(seen[i].child));
    }
  }

  datatype Connecting = Connected | Refused | Failed

  datatype Outcome = Answered(answer: Result<Answer, LainError>) | Unanswered

  /** The supervisor's two ways of trying something, and how they went. */
  datatype Trial = Connect(result: Connecting, at: nat, why: Option<Event>) | Try(fault: Option<Event>)

  /** A trial that went wrong did so for one of the known reasons. */
  ghost predicate Justified(t: Trial, seen: seq<Event>, since: Moment, now: nat, build: string, release: bool) {
    match t
    case Connect(Connected, _, why) => why.None?
    case Connect(Refused, at, why) => why.None? && since.clock <= at <= now
    case Connect(Failed, _, why) => why.Some? && Excuse(why.value, seen, since, now, build, release)
    case Try(None) => true
    case Try(Some(why)) => (why.Unwritten? || why.Unread?) && Seen(seen, since.events, why)
  }

  ghost predicate AllJustified(ts: seq<Trial>, seen: seq<Event>, since: Moment, now: nat, build: string,
                               release: bool)
  {
    forall i | 0 <= i < |ts| :: Justified(ts[i], seen, since, now, build, release)
  }

  predicate EndsRefused(ts: seq<Trial>) {
    ts != [] && ts[|ts| - 1].Connect? && ts[|ts| - 1].result.Refused?
  }

  /** A refusal, which ends a call, was due: three respawns had been attempted lately. */
  ghost predicate RefusedIn(ts: seq<Trial>, attempts: seq<nat>) {
    EndsRefused(ts) ==> CountBetween(attempts, ts[|ts| - 1].at - 30 * SECOND, ts[|ts| - 1].at) >= 3
  }

  lemma JustifiedInAll(ts: seq<Trial>, more: seq<Trial>, seen: seq<Event>, since: Moment, now: nat, build: string,
                       release: bool, seen': seq<Event>, since': Moment, now': nat)
    requires AllJustified(ts, seen, since, now, build, release)
    requires more == [] || AllJustified(more, seen', since', now', build, release)
    requires seen <= seen' && NoLater(since, since') && now <= now'
    ensures AllJustified(ts + more, seen', since, now', build, release)
    ensures ts + [] == ts
  {
    hide Justified;
    forall i | 0 <= i < |ts| ensures Justified(ts[i], seen', since, now', build, release) {
      StillJustified(ts[i], seen, since, now, build, release, seen', since, now');
    }
    forall i | 0 <= i < |more| ensures Justified(more[i], seen', since, now', build, release) {
      StillJustified(more[i], seen', since', now', build, release, seen', since, now');
    }
  }

  lemma JustifiedSince(ts: seq<Trial>, seen: seq<Event>, since: Moment, now: nat, build: string, release: bool,
                       earlier: Moment)
    requires AllJustified(ts, seen, since, now, build, release) && NoLater(earlier, since)
    ensures AllJustified(ts, seen, earlier, now, build, release)
  {
    hide Justified;
    forall i | 0 <= i < |ts| ensures Justified(ts[i], seen, earlier, now, build, release) {
      StillJustified(ts[i], seen, since, now, build, release, seen, earlier, now);
    }
  }

  lemma RefusedLast(ts: seq<Trial>, more: seq<Trial>, attempts: seq<nat>)
    requires more != [] && RefusedIn(more, attempts)
    ensures RefusedIn(ts + more, attempts)
  {
    assert (ts + more)[|ts + more| - 1] == more[|more| - 1];
  }

  lemma StillJustified(t: Trial, seen: seq<Event>, since: Moment, now: nat, build: string, release: bool,
                       seen': seq<Event>, since': Moment, now': nat)
    requires Justified(t, seen, since, now, build, release)
    requires seen <= seen' && NoLater(since', since) && now <= now'
    ensures Justified(t, seen', since', now', build, release)
  {
    match t
    case Connect(Failed, _, Some(why)) => ExcuseStands(why, seen, since, now, build, release, seen', since', now');
    case Try(Some(why)) =>
      SeenStill(seen, seen', since.events, why);
    case _ =>
  }

  predicate Linked(t: Trial) {
    t.Connect? && t.result.Connected?
  }

  predicate Unlinked(t: Trial) {
    t.Connect? && !t.result.Connected?
  }

  /** The course of one call: it stops at the first answer, at the first connection it cannot
      get, or after its one retry, and at nothing else. */
  predicate Course(trials: seq<Trial>, answered: bool) {
    if |trials| == 1 then Unlinked(trials[0]) && !answered
    else
      && |trials| >= 2 && Linked(trials[0]) && trials[1].Try?
      && if |trials| == 2 then trials[1].fault.None? && answered
         else trials[1].fault.Some? && Retried(trials[2..], answered)
  }

  predicate Retried(trials: seq<Trial>, answered: bool) {
    if |trials| == 1 then Unlinked(trials[0]) && !answered
    else |trials| == 2 && Linked(trials[0]) && trials[1].Try? && (trials[1].fault.None? <==> answered)
  }

  predicate NewTry(before: seq<Trial>, after: seq<Trial>, answered: bool) {
    && |after| == |before| + 1 && after[..|before|] == before
    && after[|before|].Try? && (after[|before|].fault.None? <==> answered)
  }

  /** The failure count after some trials. */
  function Failures(before: nat, trials: seq<Trial>): nat {
    if trials == [] then before
    else
      var n := Failures(before, trials[..|trials| - 1]);
      match trials[|trials| - 1]
      case Try(None) => 0
      case Try(Some(_)) => AddOne(n)
      case Connect(_, _, _) => n
  }

  /** One round of a call: a connection and, if there is one, an attempt. */
  predicate Round(ts: seq<Trial>, connected: bool, answered: bool) {
    if !connected then |ts| == 1 && Unlinked(ts[0]) && !answered
    else |ts| == 2 && Linked(ts[0]) && ts[1].Try? && (ts[1].fault.None? <==> answered)
  }

  lemma OneRound(before: nat, ts: seq<Trial>, connected: bool, answered: bool)
    requires Round(ts, connected, answered)
    ensures !connected || answered ==> Course(ts, answered)
    ensures Failures(before, ts) == if answered then 0 else if connected then AddOne(before) else before
  {
    var c := ts[0];
    assert [c][..0] == [];
    assert Failures(before, [c]) == before;
    if connected {
      assert ts == [c] + [ts[1]] && ts[..1] == [c];
    } else {
      assert ts == [c];
    }
  }

  /** A round without an answer, a failure counted, and the retry. */
  lemma LongCourse(before: nat, ts: seq<Trial>, retry: seq<Trial>, answered: bool)
    requires Round(ts, true, false) && Retried(retry, answered)
    ensures Course(ts + retry, answered)
    ensures Failures(before, ts + retry) == if answered then 0
                                            else if |retry| == 1 then AddOne(before)
                                            else AddOne(AddOne(before))
  {
    var all := ts + retry;
    OneRound(before, ts, true, false);
    assert all[2..] == retry;
    assert (ts + [retry[0]])[..2] == ts;
    assert Failures(before, ts + [retry[0]]) == AddOne(before);
    if |retry| == 1 {
      assert all == ts + [retry[0]];
    } else {
      assert all[..3] == ts + [retry[0]];
    }
  }

  datatype Health = Health(alive: bool, child: Option<nat>, consecutiveFailures: nat, respawnsInWindow: nat)

  // ---------------------------------------------------------------- the supervisor

  class SidecarInner {
    const env: Environment
    const build: string       // the build identity of this lain
    const release: bool       // compiled without debug assertions
    var child: Option<nat>
    var stream: Option<nat>
    var socketPath: nat
    var respawnHistory: seq<nat>
    var consecutiveFailures: nat
    var lastCallDuration: int
    var isInitialBoot: bool
    ghost var attempts: seq<nat>         // when every respawn was attempted, successful or not
    var nextCall: nat                    // numbers the calls; only the tags use it
    ghost var deliveries: seq<Delivery>  // every reply ever handed to a caller
    ghost var trials: seq<Trial>         // every attempt at connecting or calling so far

    /** The process slot, the socket file and the stream belong together. */
    ghost predicate Held()
      reads this, env
    {
      Inv(env.w) && SlotOk(env.w, child, socketPath) && StreamOk(env.w, child, stream)
    }

    /** The respawn budget has been kept so far, and every spawn is accounted for. */
    ghost predicate Ledger()
      reads this, env
    {
      && Budgeted(attempts)
      && Remembers(respawnHistory, attempts, env.w.clock)
      && |Mine(env.w)| <= |attempts| + if isInitialBoot then 0 else 1
    }

    /** Every reply handed out so far answered its own call's request. */
    ghost predicate Delivered()
      reads this, env
    {
      && (forall i | 0 <= i < |deliveries| :: deliveries[i].call < nextCall && Genuine(env.w.log, deliveries[i], 0))
      && (forall i, j | 0 <= i < j < |deliveries| :: deliveries[i].call < deliveries[j].call)
    }

    /** What holds whenever no call is in progress. */
    ghost predicate Valid()
      reads this, env
    {
      && Held() && Ledger() && Delivered()
      && CallsBelow(env.w, nextCall)
      && (stream.Some? ==> Ready(env.w, stream.value, build, release) && consecutiveFailures == 0)
    }

    constructor (env: Environment, build: string, release: bool)
      requires Inv(env.w) && Mine(env.w) == {} && CallsBelow(env.w, 0)
      modifies env
      ensures Valid() && this.env == env && isInitialBoot && stream.None? && nextCall == 0
      ensures this.build == build && this.release == release
      ensures consecutiveFailures == 0 && deliveries == [] && attempts == [] && trials == []
      ensures env.Continues(old(env.seen), old(env.At()))
    {
      this.env := env;
      this.build := build;
      this.release := release;
      child, stream := None, None;
      respawnHistory, attempts := [], [];
      consecutiveFailures, lastCallDuration := 0, 0;
      isInitialBoot := true;
      nextCall, deliveries, trials := 0, [], [];
      new;
      hide Inv, Evolves, SlotOk, Mine, CallsBelow, NewPath, Valid, Held, Ledger, Delivered;
      ghost var before := env.w;
      ghost var mid: World;
      socketPath, mid := env.GenerateSocketPath();
      NothingYet(before, mid);
      StartsValid();
    }

    lemma StartsValid()
      requires Inv(env.w) && SlotOk(env.w, None, socketPath) && Mine(env.w) == {} && CallsBelow(env.w, 0)
      requires child.None? && stream.None? && isInitialBoot && nextCall == 0
      requires respawnHistory == [] && attempts == [] && deliveries == []
      ensures Valid()
    {
      hide Inv, SlotOk, CallsBelow, Ready, Genuine, Budgeted, Remembers, Mine;
      NoAttempts(env.w.clock);
    }

    /** `new_with_options`, past its checks of the workspace: the first boot. A supervisor that
        cannot connect is dropped again and leaves nothing behind. */
    static method Launch(env: Environment, build: string, release: bool) returns (s: SidecarInner, ok: bool)
      requires Inv(env.w) && Mine(env.w) == {} && CallsBelow(env.w, 0)
      modifies env
      ensures fresh(s) && s.env == env && s.stream.Some? == ok
      ensures ok ==> s.Valid() && s.deliveries == []
      ensures !ok ==> forall c | c in Mine(env.w) ::
                        env.w.children[c].status.Reaped? && env.w.children[c].path !in env.w.files
      ensures |Mine(env.w)| <= 1
      ensures |s.trials| == 1 && s.trials[0].Connect? && !s.trials[0].result.Refused?
      ensures ok <==> s.trials[0].result.Connected?
      ensures Justified(s.trials[0], env.seen, old(env.At()), env.w.clock, build, release)
    {
      hide Inv, Ready, Evolves, Moves, Untagged, Justified;
      s := new SidecarInner(env, build, release);
      ghost var first, at := env.w, env.At();
      var r, _ := s.EnsureConnected();
      ok := r.Connected?;
      ghost var seen, now := env.seen, env.w.clock;
      Carried(first, env.w, 0);
      TagsAbove(first, env.w, 0);
      if !ok {
        s.Drop();
      }
      StillJustified(s.trials[0], seen, at, now, build, release, env.seen, old(env.At()), env.w.clock);
    }

    /** What a supervisor between two calls has cost so far, and what its stream is worth. */
    lemma Costs()
      requires Valid()
      ensures stream.Some? ==>
                && consecutiveFailures == 0 && child == Some(env.w.conns[stream.value].child)
                && env.w.conns[stream.value].replies != []
                && env.w.conns[stream.value].replies[0].HandshakeAck?
                && env.w.conns[stream.value].replies[0].version == PROTOCOL_VERSION
      ensures |Mine(env.w)| <= 1 + 3 * (env.w.clock / (30 * SECOND) + 1)
      ensures |Living(env.w)| <= 1 && forall c | c in Living(env.w) :: child == Some(c)
    {
      SpawnsBounded(env.w, respawnHistory, attempts);
      ChildrenConserved(env.w, child, socketPath);
    }

    method WriteRequest(sent: Sent) returns (ok: bool, ghost mid: World)
      requires Held() && !sent.origin.Garbage?
      requires sent.origin.Attempt? ==> Untagged(env.w, sent.origin)
      modifies env
      ensures Held() && Inv(mid) && Evolves(old(env.w), mid) && Mine(env.w) == Mine(mid) == Mine(old(env.w))
      ensures stream.None? ==> !ok && env.w == mid
      ensures stream.Some? ==>
                var k := stream.value;
                && k < |mid.conns|
                && (ok && !mid.conns[k].torn ==> env.w == Write(mid, k, sent))
                && (env.w == mid || env.w == Tear(mid, k) || env.w == Write(mid, k, sent))
      ensures env.Continues(old(env.seen), old(env.At()))
      ensures env.seen == old(env.seen) + if stream.None? then []
                                          else [if ok then Wrote(stream.value, sent) else Unwritten(stream.value)]
    {
      if stream.None? {
        EvolvesReflexive(env.w);
        return false, env.w;
      }
      ghost var before := env.w;
      ok, mid := env.WriteFrame(stream.value, sent);
      SlotKept(before, mid, child, socketPath);
      assert ConnEvolves(before.conns[stream.value], mid.conns[stream.value]);
    }

    method ReadResponse() returns (resp: Option<Response>, ghost mid: World)
      requires Held()
      modifies env
      ensures Held() && Inv(mid) && Evolves(old(env.w), mid) && Mine(env.w) == Mine(mid) == Mine(old(env.w))
      ensures resp.None? ==> env.w == mid
      ensures resp.Some? ==>
                && stream.Some? && stream.value < |mid.conns|
                && mid.conns[stream.value].read < |mid.conns[stream.value].replies|
                && resp.value == mid.conns[stream.value].replies[mid.conns[stream.value].read]
                && env.w == ReadOne(mid, stream.value)
      ensures env.Continues(old(env.seen), old(env.At()))
      ensures resp.None? ==> env.seen == old(env.seen) + if stream.None? then [] else [Unread(stream.value)]
      ensures resp.Some? ==>
                var k := stream.value;
                && env.w.conns[k].child < |env.w.children|
                && env.seen == old(env.seen) + [Heard(k, env.w.children[env.w.conns[k].child].binary)]
    {
      if stream.None? {
        EvolvesReflexive(env.w);
        return None, env.w;
      }
      ghost var before := env.w;
      resp, mid := env.ReadFrame(stream.value);
      SlotKept(before, mid, child, socketPath);
      assert ConnEvolves(before.conns[stream.value], mid.conns[stream.value]);
    }

    /** Gives a child half a second to act on the goodbye. */
    method AwaitExit(c: nat)
      requires Inv(env.w) && SlotOk(env.w, Some(c), socketPath)
      modifies env
      ensures Inv(env.w) && SlotOk(env.w, Some(c), socketPath)
      ensures Moves(old(env.w), env.w) && Mine(env.w) == Mine(old(env.w))
      ensures env.Continues(old(env.seen), old(env.At()))
      ensures forall i | |old(env.seen)| <= i < |env.seen| ::
                !env.seen[i].Killed? && (env.seen[i].Rested? ==> env.seen[i].length == SECOND / 100)
      ensures || env.w.clock >= old(env.w.clock) + SECOND / 2
              || env.w.children[c].status.Reaped?
              || Seen(env.seen, |old(env.seen)|, Unpolled(c))
    {
      hide Inv, Mine, Moves, Evolves, SlotOk, Seen;
      ghost var first := env.w;
      ghost var before := env.w;
      var now := env.Now();
      Settle(first, before, env.w, Some(c), socketPath);
      MovesOn(first, env.w);
      SlotBound(env.w, c, socketPath);
      var deadline := now + SECOND / 2;
      while now < deadline
        invariant Inv(env.w) && SlotOk(env.w, Some(c), socketPath)
        invariant Moves(first, env.w) && Mine(env.w) == Mine(first)
        invariant now <= env.w.clock && c < |env.w.children| && env.Continues(old(env.seen), old(env.At()))
        invariant forall i | |old(env.seen)| <= i < |env.seen| ::
                    !env.seen[i].Killed? && (env.seen[i].Rested? ==> env.seen[i].length == SECOND / 100)
        decreases deadline - now
      {
        before := env.w;
        var waited, m := env.TryWait(c);
        Settle(first, before, m, Some(c), socketPath);
        Reaping(first, m, c, socketPath);
        MovesOn(first, env.w);
        SlotBound(env.w, c, socketPath);
        if !waited.Alive? {
          LastSeen(env.seen, |old(env.seen)|);
          return;
        }
        before := env.w;
        env.Sleep(SECOND / 100);
        Settle(first, before, env.w, Some(c), socketPath);
        before := env.w;
        now := env.Now();
        Settle(first, before, env.w, Some(c), socketPath);
        MovesOn(first, env.w);
        SlotBound(env.w, c, socketPath);
      }
    }

    /** Waits for the child, then kills it if it is still running, and reaps it. */
    method StopChild(c: nat)
      requires Inv(env.w) && SlotOk(env.w, Some(c), socketPath)
      modifies env
      ensures Inv(env.w) && SlotOk(env.w, Some(c), socketPath) && env.w.children[c].status.Reaped?
      ensures Moves(old(env.w), env.w) && Mine(env.w) == Mine(old(env.w))
      ensures env.Continues(old(env.seen), old(env.At())) && Graceful(env.seen, old(env.At()))
    {
      hide Inv, Mine, Moves, Evolves;
      ghost var first := env.w;
      AwaitExit(c);
      MovesOn(first, env.w);
      ghost var before, waited := env.w, env.seen;
      env.Kill(c);
      Settle(first, before, env.w, Some(c), socketPath);
      if Seen(waited, |old(env.seen)|, Unpolled(c)) { SeenStill(waited, env.seen, |old(env.seen)|, Unpolled(c)); }
      before := env.w;
      ghost var mid := env.Wait(c);
      Settle(first, before, mid, Some(c), socketPath);
      Reaping(first, mid, c, socketPath);
      MovesOn(first, env.w);
    }

    /** Lets go of the stream, with a last word that may or may not get through. */
    method SayGoodbye()
      requires Held()
      modifies `stream, env
      ensures Held() && stream.None? && Moves(old(env.w), env.w) && Mine(env.w) == Mine(old(env.w))
      ensures match old(stream)
              case None => env.seen == old(env.seen)
              case Some(k) =>
                || env.seen == old(env.seen) + [Wrote(k, Sent(Goodbye, Shutdown))]
                || env.seen == old(env.seen) + [Unwritten(k)]
    {
      hide Inv, Mine, Moves, Evolves;
      ghost var first := env.w;
      MovesReflexive(first);
      if stream.Some? {
        var k := stream.value;
        stream := None;
        var _, m := env.WriteFrame(k, Sent(Goodbye, Shutdown));
        Settle(first, first, m, child, socketPath);
        Writing(first, m, env.w, k, Sent(Goodbye, Shutdown));
      }
    }

    /** Says goodbye on the stream, stops and reaps the child, and only then removes its socket
        file. Afterwards nothing this supervisor ever spawned is left. */
    method ForceTeardown()
      requires Held()
      modifies `child, `stream, env
      ensures Held() && child.None? && stream.None?
      ensures Moves(old(env.w), env.w) && Mine(env.w) == Mine(old(env.w))
      ensures forall c | 0 <= c < |env.w.children| && env.w.children[c].mine ::
                env.w.children[c].status.Reaped? && env.w.children[c].path !in env.w.files
      ensures env.Continues(old(env.seen), old(env.At())) && Graceful(env.seen, old(env.At()))
      ensures match old(stream)
              case None => true
              case Some(k) =>
                && |env.seen| > |old(env.seen)|
                && (|| env.seen[|old(env.seen)|] == Wrote(k, Sent(Goodbye, Shutdown))
                    || env.seen[|old(env.seen)|] == Unwritten(k))
    {
      hide Inv, Mine, Moves;
      ghost var first := env.w;
      SayGoodbye();
      MovesOn(first, env.w);
      ghost var at, said := env.At(), env.seen;
      ghost var slot := child;
      ghost var before := env.w;
      if child.Some? {
        var c := child.value;
        child := None;
        StopChild(c);
        MovesTransitive(first, before, env.w);
      }
      GracefulEarlier(env.seen, old(env.At()), at, slot.None?);
      before := env.w;
      ghost var mid := env.RemoveFile(socketPath);
      Settle(first, before, mid, slot, socketPath);
      if slot.Some? { assert ChildEvolves(before.children[slot.value], mid.children[slot.value]); }
      Emptying(first, mid, slot, socketPath);
    }

    /** The handshake on a connection just opened. It succeeds exactly if the greeting is written,
        is answered, and the sidecar at the other end is acceptable. */
    method PerformHandshake() returns (ok: bool, ghost why: Event)
      requires Held() && stream.Some?
      requires var c := env.w.conns[stream.value]; c.requests == [] && !c.torn && c.read == 0
      modifies env
      ensures Held() && Moves(old(env.w), env.w) && Mine(env.w) == Mine(old(env.w))
      ensures env.Continues(old(env.seen), old(env.At())) && |env.seen| > |old(env.seen)|
      ensures why == env.seen[|env.seen| - 1]
      ensures why == Unwritten(stream.value) || why == Unread(stream.value) || (why.Heard? && why.conn == stream.value)
      ensures ok <==> why.Heard? && Acceptable(why.theirs, build, release)
      ensures ok ==> Ready(env.w, stream.value, build, release)
      ensures var c := env.w.conns[stream.value];
              c.read == 1 && Acceptable(env.w.children[c.child].binary, build, release) ==> ok
    {
      hide Inv, Mine, Moves, Evolves, SlotOk, Ready;
      ghost var first := env.w;
      var k := stream.value;
      var hello := Sent(Hello, Handshake(PROTOCOL_VERSION));
      var written, m := WriteRequest(hello);
      Greeted(first, m, env.w, k, hello, written);
      why := Unwritten(k);
      if !written { return false, why; }
      ghost var before := env.w;
      var resp, m2 := ReadResponse();
      EvolvesMoves(before, m2);
      MovesTransitive(first, before, m2);
      why := env.seen[|env.seen| - 1];
      if resp.None? {
        StillUnread(before, m2, k);
        return false, why;
      }
      ReadingMoves(first, m2, k);
      GreetingRead(before, m2, k, build, release);
      match resp.value
      case HandshakeAck(version, theirs) =>
        if version != PROTOCOL_VERSION { return false, why; }
        if theirs != build && release { return false, why; }
        return true, why;
      case _ =>
        return false, why;
    }

    /** Replaces the child: tear down, spawn on a new socket path, connect for at most two
        seconds while the child lives, and shake hands. */
    method SpawnChildAndConnect() returns (ok: bool, ghost why: Event)
      requires Held()
      modifies `child, `stream, `socketPath, env
      ensures Held() && Moves(old(env.w), env.w)
      ensures |Mine(env.w)| <= |Mine(old(env.w))| + 1
      ensures ok ==> stream.Some? && Ready(env.w, stream.value, build, release)
      ensures !ok ==> child.None? && stream.None?
      ensures !ok ==> Excuse(why, env.seen, old(env.At()), env.w.clock, build, release)
      ensures env.Continues(old(env.seen), old(env.At()))
    {
      hide Mine, Inv, Moves, Evolves, SlotOk, Dialled, Graceful, Seen;
      ghost var first, start := env.w, env.At();
      ok, why := ReplaceChild();
      if !ok { return; }
      ghost var before := env.w;
      ok, why := ConnectToChild(start);
      MovesTransitive(first, before, env.w);
      if !ok { return; }
      before := env.w;
      ok, why := PerformHandshake();
      MovesTransitive(first, before, env.w);
      LastSeen(env.seen, start.events);
      if !ok {
        before := env.w;
        GiveUp(why, start);
        MovesTransitive(first, before, env.w);
      }
    }

    /** The old child is torn down and a new one spawned on a new path. */
    method ReplaceChild() returns (ok: bool, ghost why: Event)
      requires Held()
      modifies `child, `stream, `socketPath, env
      ensures Held() && Moves(old(env.w), env.w) && stream.None? && (ok <==> child.Some?)
      ensures |Mine(env.w)| <= |Mine(old(env.w))| + 1
      ensures ok ==> child.value >= |old(env.w.children)| && socketPath >= old(env.w.nextPath)
      ensures !ok ==> (why.NoBinary? || why.NotSpawned?) && Seen(env.seen, |old(env.seen)|, why)
      ensures env.Continues(old(env.seen), old(env.At()))
    {
      hide Mine, Inv, Moves, Evolves, SlotOk, Graceful, Seen;
      ghost var first := env.w;
      ForceTeardown();
      ghost var before := env.w;
      ghost var mid: World;
      var path: nat;
      path, mid := env.GenerateSocketPath();
      Settle(first, before, mid, None, socketPath);
      socketPath := path;
      FreshPath(first, mid);
      MovesOn(first, mid);
      before := env.w;
      ghost var n := |env.seen|;
      ok, why := SpawnChild();
      if !ok { SeenEarlier(env.seen, n, |old(env.seen)|, why); }
      MovesTransitive(first, before, env.w);
    }

    /** Finds the binary and spawns it on the path just made. */
    method SpawnChild() returns (ok: bool, ghost why: Event)
      requires Held() && child.None? && stream.None?
      requires forall c | 0 <= c < |env.w.children| :: env.w.children[c].path != socketPath
      modifies `child, env
      ensures Held() && Moves(old(env.w), env.w) && (ok <==> child.Some?)
      ensures |Mine(env.w)| <= |Mine(old(env.w))| + 1
      ensures ok ==> child.value >= |old(env.w.children)|
      ensures !ok ==> (why.NoBinary? || why.NotSpawned?) && Seen(env.seen, |old(env.seen)|, why)
      ensures env.Continues(old(env.seen), old(env.At()))
    {
      hide Mine, Inv, Moves, Evolves, SlotOk, Seen;
      ghost var first, n := env.w, |env.seen|;
      MovesReflexive(first);
      EmptySlot(first, socketPath);
      var binary := env.ResolveBinary();
      Settle(first, first, env.w, None, socketPath);
      MovesOn(first, env.w);
      if binary.None? {
        LastSeen(env.seen, n);
        return false, NoBinary;
      }
      PathStaysFresh(first, env.w, socketPath);
      EmptySlot(env.w, socketPath);
      ghost var before := env.w;
      ghost var mid: World;
      child, mid := env.SpawnChild(socketPath, binary.value);
      Settle(first, before, mid, None, socketPath);
      MovesOn(first, mid);
      if child.None? {
        LastSeen(env.seen, n);
        return false, NotSpawned;
      }
      Spawning(first, mid, socketPath, binary.value);
      return true, NotSpawned;
    }

    /** The connect loop. It gives up only on a child found dead, or after dialling its socket
        for two seconds. */
    method ConnectToChild(ghost since: Moment) returns (ok: bool, ghost why: Event)
      requires Held() && child.Some? && stream.None?
      requires NoLater(since, env.At()) && child.value >= since.children && socketPath >= since.paths
      modifies `child, `stream, env
      ensures Held() && Moves(old(env.w), env.w) && Mine(env.w) == Mine(old(env.w))
      ensures ok ==> stream.Some? && stream.value >= |old(env.w.conns)| &&
                     var c := env.w.conns[stream.value]; c.requests == [] && !c.torn && c.read == 0
      ensures !ok ==> child.None? && stream.None? && Excuse(why, env.seen, since, env.w.clock, build, release)
      ensures !ok ==> why == FoundDead(old(child.value)) || why == Declined(socketPath)
      ensures !ok && why.Declined? ==> env.w.clock >= old(env.w.clock) + 2 * SECOND
      ensures env.Continues(old(env.seen), old(env.At()))
    {
      hide Inv, Mine, Moves, Evolves, SlotOk, Graceful, Excuse, Dials;
      ghost var first, n := env.w, |env.seen|;
      DialsNothing(env.seen, socketPath);
      ghost var before := env.w;
      var start := env.Now();
      Settle(first, before, env.w, child, socketPath);
      while true
        invariant Held() && child == old(child) && stream.None?
        invariant Moves(first, env.w) && Mine(env.w) == Mine(first)
        invariant first.clock <= start <= env.w.clock
        invariant env.Continues(old(env.seen), old(env.At()))
        invariant Dials(env.seen, n, socketPath)
        decreases start + 2 * SECOND - env.w.clock
      {
        before := env.w;
        var gone := DialChild(n);
        MovesTransitive(first, before, env.w);
        if stream.Some? { return true, Declined(socketPath); }
        before := env.w;
        if gone {
          why := FoundDead(child.value);
          DeadExcuses(child.value, env.seen, since, env.w.clock, build, release);
          GiveUp(why, since);
          MovesTransitive(first, before, env.w);
          return false, why;
        }
        var now := Clock();
        MovesTransitive(first, before, env.w);
        before := env.w;
        if now - start < 2 * SECOND {
          Rest(n);
          MovesTransitive(first, before, env.w);
        } else {
          why := Declined(socketPath);
          DialsExcuse(socketPath, env.seen, n, since, env.w.clock, build, release);
          GiveUp(why, since);
          MovesTransitive(first, before, env.w);
          return false, why;
        }
      }
    }

    /** Pauses between two dials. */
    method Rest(ghost n: nat)
      requires Held() && Dials(env.seen, n, socketPath) && |env.seen| > n
      requires env.seen[|env.seen| - 1] == Declined(socketPath)
      modifies env
      ensures Held() && Moves(old(env.w), env.w) && Mine(env.w) == Mine(old(env.w))
      ensures env.Continues(old(env.seen), old(env.At())) && env.w.clock >= old(env.w.clock) + SECOND / 40
      ensures Dials(env.seen, n, socketPath)
    {
      hide Inv, Mine, Moves, Evolves, Dials;
      ghost var first, seen := env.w, env.seen;
      MovesReflexive(first);
      env.Sleep(SECOND / 40);
      DialsOn(seen, n, socketPath, Rested(SECOND / 40));
      Settle(first, first, env.w, child, socketPath);
      MovesOn(first, env.w);
      if stream.Some? { assert ConnEvolves(first.conns[stream.value], env.w.conns[stream.value]); }
    }

    /** Looks whether the child is gone and, if not, dials its socket. */
    method DialChild(ghost n: nat) returns (gone: bool)
      requires Held() && child.Some? && stream.None? && Dials(env.seen, n, socketPath)
      modifies `stream, env
      ensures Held() && Moves(old(env.w), env.w) && Mine(env.w) == Mine(old(env.w))
      ensures env.Continues(old(env.seen), old(env.At()))
      ensures gone ==> stream.None? && |env.seen| > |old(env.seen)|
                       && env.seen[|env.seen| - 1] == FoundDead(child.value)
      ensures stream.Some? ==>
                && stream.value >= |old(env.w.conns)|
                && var c := env.w.conns[stream.value]; c.requests == [] && !c.torn && c.read == 0
      ensures !gone && stream.None? ==>
                && Dials(env.seen, n, socketPath) && |env.seen| > |old(env.seen)|
                && env.seen[|env.seen| - 1] == Declined(socketPath)
    {
      hide Inv, Mine, Moves, Evolves, Dials;
      ghost var first, seen := env.w, env.seen;
      MovesReflexive(first);
      var waited, m := env.TryWait(child.value);
      Settle(first, first, m, child, socketPath);
      Reaping(first, m, child.value, socketPath);
      MovesOn(first, env.w);
      if waited.Gone? { return true; }
      if waited.Unknown? {
        DialsOn(seen, n, socketPath, Unpolled(child.value));
      } else {
        assert seen + [] == seen;
      }
      ghost var before := env.w;
      seen := env.seen;
      var k, c, m2 := env.Connect(socketPath);
      Settle(first, before, m2, child, socketPath);
      MovesOn(first, m2);
      if k.Some? {
        Opening(first, m2, c, child, socketPath);
        stream := k;
        return false;
      }
      DialsOn(seen, n, socketPath, Declined(socketPath));
      return false;
    }

    /** A failed connection tears the child down; the reason stands. */
    method GiveUp(ghost why: Event, ghost since: Moment)
      requires Held() && Excuse(why, env.seen, since, env.w.clock, build, release)
      modifies `child, `stream, env
      ensures Held() && child.None? && stream.None?
      ensures Moves(old(env.w), env.w) && Mine(env.w) == Mine(old(env.w))
      ensures env.Continues(old(env.seen), old(env.At()))
      ensures Excuse(why, env.seen, since, env.w.clock, build, release)
    {
      hide Inv, Mine, Moves, SlotOk, Excuse, Graceful;
      ghost var seen, now := env.seen, env.w.clock;
      ForceTeardown();
      ExcuseStands(why, seen, since, now, build, release, env.seen, since, env.w.clock);
    }

    /** Pops the attempts older than the window off the front of the queue. */
    method PruneHistory(now: nat)
      modifies `respawnHistory
      ensures respawnHistory == Pruned(old(respawnHistory), now)
    {
      while respawnHistory != [] && now - respawnHistory[0] > RESPAWN_WINDOW
        invariant Pruned(respawnHistory, now) == Pruned(old(respawnHistory), now)
        decreases |respawnHistory|
      {
        respawnHistory := respawnHistory[1..];
      }
    }

    /** Connects if need be. A disconnected supervisor past its first boot refuses exactly when
        three respawns were attempted in the last thirty seconds; otherwise the attempt is
        recorded before it is made. */
    method EnsureConnected() returns (r: Connecting, ghost now: nat)
      requires Held() && Ledger() && (stream.Some? ==> Ready(env.w, stream.value, build, release))
      modifies `child, `stream, `socketPath, `respawnHistory, `isInitialBoot, `attempts, `trials, env
      ensures Held() && Ledger() && Moves(old(env.w), env.w)
      ensures |trials| == |old(trials)| + 1 && trials[..|old(trials)|] == old(trials)
      ensures var t := trials[|old(trials)|];
              && t.Connect? && t.result == r && t.at == now
              && Justified(t, env.seen, old(env.At()), env.w.clock, build, release)
      ensures env.Continues(old(env.seen), old(env.At()))
      ensures r.Connected? ==> stream.Some? && Ready(env.w, stream.value, build, release)
      ensures !r.Connected? ==> stream.None?
      ensures r.Failed? ==> child.None?
      ensures old(stream.Some?) ==> r.Connected? && env.w == old(env.w) && stream == old(stream)
      ensures old(stream.Some? || isInitialBoot) ==> attempts == old(attempts)
      ensures old(stream.None?) ==> !isInitialBoot
      ensures old(stream.None? && !isInitialBoot) ==>
                && old(env.w.clock) <= now <= env.w.clock
                && (r.Refused? <==> CountBetween(old(attempts), now - 30 * SECOND, now) >= 3)
                && attempts == (if r.Refused? then old(attempts) else old(attempts) + [now])
                && (r.Refused? ==> Mine(env.w) == Mine(old(env.w)))
      ensures !old(stream.None? && !isInitialBoot) ==> !r.Refused?
    {
      hide Inv, SlotOk, Ready, Budgeted, Remembers, Mine, Moves, Recent, Excuse;
      now := env.w.clock;
      MovesReflexive(env.w);
      if stream.Some? {
        trials := trials + [Connect(Connected, now, None)];
        return Connected, now;
      }
      ghost var first, since := env.w, env.At();
      if isInitialBoot {
        isInitialBoot := false;
        var ok, why := SpawnChildAndConnect();
        Carried(first, env.w, 0);
        RemembersLater(respawnHistory, attempts, first.clock, env.w.clock);
        r := if ok then Connected else Failed;
        trials := trials + [Connect(r, now, if ok then None else Some(why))];
        return r, now;
      }
      var admitted: bool;
      admitted, now := AdmitRespawn();
      LastThirtySeconds(old(attempts), now);
      if !admitted {
        trials := trials + [Connect(Refused, now, None)];
        return Refused, now;
      }
      ghost var before, at := env.w, env.At();
      var ok, why := SpawnChildAndConnect();
      Carried(before, env.w, 0);
      RemembersLater(respawnHistory, attempts, before.clock, env.w.clock);
      MovesTransitive(first, before, env.w);
      r := if ok then Connected else Failed;
      if !ok { ExcuseStands(why, env.seen, at, env.w.clock, build, release, env.seen, since, env.w.clock); }
      trials := trials + [Connect(r, now, if ok then None else Some(why))];
    }

    /** The budget check: prune the history, count it, and record the attempt if it may be made. */
    method AdmitRespawn() returns (admitted: bool, ghost now: nat)
      requires Held() && Ledger()
      modifies `respawnHistory, `attempts, env
      ensures Held() && Ledger() && Moves(old(env.w), env.w) && Mine(env.w) == Mine(old(env.w))
      ensures old(env.w.clock) <= now <= env.w.clock
      ensures admitted <==> Recent(old(attempts), now) < MAX_RESPAWNS_PER_WINDOW
      ensures attempts == if admitted then old(attempts) + [now] else old(attempts)
      ensures env.Continues(old(env.seen), old(env.At()))
    {
      hide Inv, SlotOk, Moves, Mine, Budgeted, Recent, Remembers, Pruned;
      ghost var first := env.w;
      var instant := env.Now();
      now := instant;
      Settle(first, first, env.w, child, socketPath);
      Admission(respawnHistory, attempts, first.clock, instant);
      PruneHistory(instant);
      if |respawnHistory| >= MAX_RESPAWNS_PER_WINDOW { return false, now; }
      respawnHistory := respawnHistory + [instant];
      attempts := attempts + [instant];
      return true, now;
    }

    /** One attempt at a call: write the request and read one reply, on a ready connection. What
        is read was dispatched for this very attempt, after the request was written. */
    method AttemptCall(req: Request, origin: Origin) returns (resp: Option<Response>)
      requires Held() && stream.Some? && Ready(env.w, stream.value, build, release)
      requires origin.Attempt? && Untagged(env.w, origin)
      modifies env
      ensures Held() && Mine(env.w) == Mine(old(env.w))
      ensures old(env.w.clock) <= env.w.clock && old(env.w.log) <= env.w.log
      ensures forall o: Origin | o.Attempt? && o != origin && Untagged(old(env.w), o) :: Untagged(env.w, o)
      ensures resp.Some? ==>
                && Ready(env.w, stream.value, build, release)
                && Genuine(env.w.log, Delivery(origin.call, origin.retry, req, resp.value), |old(env.w.log)|)
      ensures env.Continues(old(env.seen), old(env.At())) && |env.seen| > |old(env.seen)|
      ensures resp.None? ==> env.seen[|env.seen| - 1] == Unwritten(stream.value)
                             || env.seen[|env.seen| - 1] == Unread(stream.value)
    {
      hide Inv, Mine, SlotOk, Moves, Evolves, Ready, Genuine, Untagged;
      ghost var first := env.w;
      var k := stream.value;
      var sent := Sent(origin, req);
      var ok, m := WriteRequest(sent);
      AttemptWritten(first, m, env.w, k, sent, ok, build, release);
      if !ok { return None; }
      ghost var before := env.w;
      ghost var m2: World;
      resp, m2 := ReadResponse();
      ReadingKeepsTags(before, m2, k);
      if resp.None? { return; }
      AttemptRead(first, m, m2, k, sent, build, release);
    }

    /** `Instant::now()`, which gives the others a chance to run like any other call. */
    method Clock() returns (t: nat)
      requires Held()
      modifies env
      ensures Held() && Moves(old(env.w), env.w) && Mine(env.w) == Mine(old(env.w)) && t == env.w.clock
      ensures env.seen == old(env.seen) && env.Continues(old(env.seen), old(env.At()))
      ensures stream.Some? && Ready(old(env.w), stream.value, build, release) ==>
                Ready(env.w, stream.value, build, release)
    {
      ghost var first := env.w;
      t := env.Now();
      Settle(first, first, env.w, child, socketPath);
      if stream.Some? {
        assert ConnEvolves(first.conns[stream.value], env.w.conns[stream.value]);
        if Ready(first, stream.value, build, release) {
          assert ChildEvolves(first.children[child.value], env.w.children[child.value]);
        }
      }
    }

    /** What holds inside call number `n`, between its attempts. */
    ghost predicate During(n: nat)
      reads this, env
    {
      Held() && Ledger() && Delivered() && CallsBelow(env.w, n + 1) && nextCall == n + 1
    }

    /** Numbers a call. */
    method Begin() returns (n: nat)
      requires Valid()
      modifies `nextCall
      ensures n == old(nextCall) && During(n)
      ensures stream.Some? ==> Ready(env.w, stream.value, build, release)
      ensures forall retry: bool :: Untagged(env.w, Attempt(n, retry))
      ensures forall i | 0 <= i < |deliveries| :: deliveries[i].call < n
    {
      hide Inv, SlotOk, StreamOk, Ready, Budgeted, Remembers, Mine, CallsBelow, Genuine, Untagged;
      n := nextCall;
      nextCall := nextCall + 1;
      NextTag(env.w, n);
    }

    /** `Instant::now()` in the middle of a call. */
    method Instant(n: nat) returns (t: nat)
      requires During(n)
      modifies env
      ensures During(n) && old(env.w.clock) <= t == env.w.clock && old(env.w.log) <= env.w.log
      ensures env.Continues(old(env.seen), old(env.At()))
      ensures forall retry: bool ::
                Untagged(old(env.w), Attempt(n, retry)) ==> Untagged(env.w, Attempt(n, retry))
      ensures stream.Some? && Ready(old(env.w), stream.value, build, release) ==>
                Ready(env.w, stream.value, build, release)
    {
      hide Inv, SlotOk, StreamOk, Ready, Budgeted, Remembers, Mine, CallsBelow, Moves, Genuine, Untagged, Evolves;
      ghost var first := env.w;
      t := Clock();
      Carried(first, env.w, n);
      TagsAbove(first, env.w, n + 1);
      RemembersLater(respawnHistory, attempts, first.clock, env.w.clock);
      DeliveredGrows(first.log, env.w.log, deliveries);
    }

    /** The writing and reading of one attempt, in the middle of its call. */
    method AttemptDuring(req: Request, n: nat, retry: bool) returns (resp: Option<Response>)
      requires During(n) && stream.Some? && Ready(env.w, stream.value, build, release)
      requires Untagged(env.w, Attempt(n, retry))
      modifies `trials, env
      ensures During(n) && old(env.w.clock) <= env.w.clock && old(env.w.log) <= env.w.log
      ensures NewTry(old(trials), trials, resp.Some?)
      ensures Justified(trials[|old(trials)|], env.seen, old(env.At()), env.w.clock, build, release)
      ensures env.Continues(old(env.seen), old(env.At()))
      ensures !retry && Untagged(old(env.w), Attempt(n, true)) ==> Untagged(env.w, Attempt(n, true))
      ensures resp.Some? ==>
                && Ready(env.w, stream.value, build, release)
                && Genuine(env.w.log, Delivery(n, retry, req, resp.value), |old(env.w.log)|)
    {
      hide Inv, SlotOk, StreamOk, Ready, Budgeted, Remembers, Mine, CallsBelow, Moves, Genuine, Untagged, Evolves;
      ghost var first := env.w;
      resp := AttemptCall(req, Attempt(n, retry));
      TagsAboveAttempt(first, env.w, n, retry);
      RemembersLater(respawnHistory, attempts, first.clock, env.w.clock);
      DeliveredGrows(first.log, env.w.log, deliveries);
      trials := trials + [Try(if resp.Some? then None else Some(env.seen[|env.seen| - 1]))];
    }

    /** Hands a reply to the caller: the failure count is reset and the duration noted. */
    method Deliver(ghost d: Delivery, duration: nat)
      requires During(d.call) && Genuine(env.w.log, d, 0)
      requires forall i | 0 <= i < |deliveries| :: deliveries[i].call < d.call
      modifies `lastCallDuration, `consecutiveFailures, `deliveries
      ensures During(d.call) && consecutiveFailures == 0 && deliveries == old(deliveries) + [d]
      ensures lastCallDuration == duration
    {
      hide Inv, SlotOk, StreamOk, Budgeted, Remembers, Mine, CallsBelow, Genuine;
      lastCallDuration := duration;
      consecutiveFailures := 0;
      deliveries := deliveries + [d];
    }

    /** One attempt with its bookkeeping; the reply is interpreted for the caller. */
    method TryOnce(req: Request, n: nat, retry: bool) returns (r: Outcome)
      requires During(n) && Operational(req)
      requires stream.Some? && Ready(env.w, stream.value, build, release)
      requires Untagged(env.w, Attempt(n, retry))
      requires forall i | 0 <= i < |deliveries| :: deliveries[i].call < n
      modifies `lastCallDuration, `consecutiveFailures, `deliveries, `trials, env
      ensures During(n) && old(env.w.log) <= env.w.log
      ensures NewTry(old(trials), trials, r.Answered?)
      ensures Justified(trials[|old(trials)|], env.seen, old(env.At()), env.w.clock, build, release)
      ensures env.Continues(old(env.seen), old(env.At()))
      ensures !retry && Untagged(old(env.w), Attempt(n, true)) ==> Untagged(env.w, Attempt(n, true))
      ensures r.Unanswered? ==> deliveries == old(deliveries) && consecutiveFailures == old(consecutiveFailures)
      ensures r.Answered? ==>
                && Ready(env.w, stream.value, build, release) && consecutiveFailures == 0
                && AnsweredSince(env.w.log, |old(env.w.log)|, Attempt(n, retry), req, r.answer)
                && NewDelivery(old(deliveries), deliveries, Attempt(n, retry), req, r.answer)
    {
      hide Inv, SlotOk, StreamOk, Ready, Mine, CallsBelow, Genuine, Untagged, Evolves, AnsweredSince, Interpret,
           Operational, Ledger, Delivered, Justified, Excuse;
      ghost var first, past := env.w, trials;
      var started := Instant(n);
      ghost var before, at := env.w, env.At();
      var resp := AttemptDuring(req, n, retry);
      ghost var t := trials[|past|];
      if resp.None? {
        StillJustified(t, env.seen, at, env.w.clock, build, release, env.seen, old(env.At()), env.w.clock);
        return Unanswered;
      }
      ghost var after, seen := env.w, env.seen;
      var now := Instant(n);
      StillJustified(t, seen, at, after.clock, build, release, env.seen, old(env.At()), env.w.clock);
      ghost var d := Delivery(n, retry, req, resp.value);
      GenuineGrows(after.log, env.w.log, d, |before.log|, |first.log|);
      Faithful(env.w, d, |first.log|);
      Deliver(d, now - started);
      r := Answered(Interpret(req, resp.value));
    }

    /** Connect if need be, try once, and on a failed attempt replace the child and try once
        more. An answer is the in-process sensor's, relayed, on the state the repository had at a
        moment during this very call; its reply was dispatched for the attempt the call ended
        with, never for the one it abandoned. */
    method Call(req: Request) returns (r: Outcome)
      requires Valid() && Operational(req)
      modifies this, env
      ensures Valid() && nextCall == old(nextCall) + 1 && old(env.w.log) <= env.w.log
      ensures r.Answered? ==>
                && stream.Some?
                && AnsweredSince(env.w.log, |old(env.w.log)|, Final(old(nextCall), old(trials), trials), req, r.answer)
                && NewDelivery(old(deliveries), deliveries, Final(old(nextCall), old(trials), trials), req, r.answer)
      ensures r.Unanswered? ==> deliveries == old(deliveries) && stream.None?
      ensures r.Unanswered? ==> child.None? || EndsRefused(trials)
      ensures old(trials) <= trials && Course(trials[|old(trials)|..], r.Answered?)
      ensures AllJustified(trials[|old(trials)|..], env.seen, old(env.At()), env.w.clock, build, release)
      ensures RefusedIn(trials[|old(trials)|..], attempts)
      ensures consecutiveFailures == Failures(old(consecutiveFailures), trials[|old(trials)|..])
    {
      hide Held, Ledger, Delivered, Ready, CallsBelow, Genuine, Untagged, Evolves, AnsweredSince, Interpret,
           Operational, Course, Retried, Failures, NewDelivery, AddOne, AllJustified, RefusedIn;
      ghost var first, since := env.w, env.At();
      ghost var failures, past := consecutiveFailures, trials;
      var n := Begin();
      var connected: bool;
      r, connected := ConnectAndTry(req, n, false);
      ghost var begun := trials[|past|..];
      OneRound(failures, begun, connected, r.Answered?);
      if !connected { return; }
      if r.Answered? {
        SinceEarlier(env.w.log, |first.log|, Attempt(n, false), req, r.answer);
        return;
      }
      ghost var before, seen, at, now := trials, env.seen, env.At(), env.w.clock;
      r := Retry(req, n);
      ghost var more := trials[|before|..];
      assert trials[|past|..] == begun + more;
      LongCourse(failures, begun, more, r.Answered?);
      JustifiedInAll(begun, more, seen, since, now, build, release, env.seen, at, env.w.clock);
      RefusedLast(begun, more, attempts);
      if r.Answered? { SinceEarlier(env.w.log, |first.log|, Attempt(n, true), req, r.answer); }
    }

    /** Connects if need be, and if that succeeds makes one attempt. */
    method ConnectAndTry(req: Request, n: nat, retry: bool) returns (r: Outcome, connected: bool)
      requires During(n) && Operational(req) && (stream.Some? ==> Ready(env.w, stream.value, build, release))
      requires Untagged(env.w, Attempt(n, retry))
      requires forall i | 0 <= i < |deliveries| :: deliveries[i].call < n
      modifies this, env
      ensures During(n) && old(env.w.log) <= env.w.log && env.Continues(old(env.seen), old(env.At()))
      ensures old(trials) <= trials && Round(trials[|old(trials)|..], connected, r.Answered?)
      ensures AllJustified(trials[|old(trials)|..], env.seen, old(env.At()), env.w.clock, build, release)
      ensures RefusedIn(trials[|old(trials)|..], attempts)
      ensures !retry && Untagged(old(env.w), Attempt(n, true)) ==> Untagged(env.w, Attempt(n, true))
      ensures !connected ==> stream.None? && (child.None? || EndsRefused(trials))
      ensures r.Unanswered? ==> deliveries == old(deliveries) && consecutiveFailures == old(consecutiveFailures)
      ensures r.Answered? ==>
                && stream.Some? && Ready(env.w, stream.value, build, release) && consecutiveFailures == 0
                && AnsweredSince(env.w.log, |old(env.w.log)|, Attempt(n, retry), req, r.answer)
                && NewDelivery(old(deliveries), deliveries, Attempt(n, retry), req, r.answer)
    {
      hide Held, Ledger, Delivered, Ready, CallsBelow, Genuine, Untagged, Evolves, AnsweredSince, Interpret,
           Operational, NewDelivery, Justified, Recent;
      ghost var first, since, past := env.w, env.At(), trials;
      connected := ConnectFor(n);
      ghost var c, seen, at, now := trials[|past|], env.seen, env.At(), env.w.clock;
      assert trials[|past|..] == [c];
      r := Unanswered;
      if !connected { return; }
      r := TryOnce(req, n, retry);
      ghost var t := trials[|past| + 1];
      assert trials[|past|..] == [c, t];
      StillJustified(c, seen, since, now, build, release, env.seen, since, env.w.clock);
      StillJustified(t, env.seen, at, env.w.clock, build, release, env.seen, since, env.w.clock);
      if r.Answered? { SinceEarlier(env.w.log, |first.log|, Attempt(n, retry), req, r.answer); }
    }

    /** The single retry: replace the child, connect again within the budget, and try once. */
    method Retry(req: Request, n: nat) returns (r: Outcome)
      requires During(n) && Operational(req)
      requires Untagged(env.w, Attempt(n, true))
      requires forall i | 0 <= i < |deliveries| :: deliveries[i].call < n
      modifies this, env
      ensures Valid() && nextCall == n + 1 && old(env.w.log) <= env.w.log
      ensures r.Answered? ==>
                && stream.Some?
                && AnsweredSince(env.w.log, |old(env.w.log)|, Attempt(n, true), req, r.answer)
                && NewDelivery(old(deliveries), deliveries, Attempt(n, true), req, r.answer)
      ensures r.Unanswered? ==> deliveries == old(deliveries) && stream.None?
      ensures r.Unanswered? ==> child.None? || EndsRefused(trials)
      ensures old(trials) <= trials && Retried(trials[|old(trials)|..], r.Answered?)
      ensures AllJustified(trials[|old(trials)|..], env.seen, old(env.At()), env.w.clock, build, release)
      ensures RefusedIn(trials[|old(trials)|..], attempts)
      ensures env.Continues(old(env.seen), old(env.At()))
      ensures consecutiveFailures
           == if r.Answered? then 0
              else if |trials| == |old(trials)| + 1 then AddOne(old(consecutiveFailures))
              else AddOne(AddOne(old(consecutiveFailures)))
    {
      hide Held, Ledger, Delivered, Ready, CallsBelow, Genuine, Untagged, Evolves, AnsweredSince, Interpret,
           Operational, AllJustified, RefusedIn;
      ghost var first, since, past := env.w, env.At(), trials;
      Abandon(n);
      ghost var at, failures := env.At(), consecutiveFailures;
      var connected: bool;
      r, connected := ConnectAndTry(req, n, true);
      ghost var ts, seen, now := trials[|past|..], env.seen, env.w.clock;
      if r.Answered? { SinceEarlier(env.w.log, |first.log|, Attempt(n, true), req, r.answer); }
      if connected && r.Unanswered? { Abandon(n); }
      JustifiedInAll(ts, [], seen, at, now, build, release, env.seen, env.At(), env.w.clock);
      JustifiedSince(ts, env.seen, at, env.w.clock, build, release, since);
    }

    /** What a failed attempt costs: the child is torn down and the failure counted. */
    method Abandon(n: nat)
      requires During(n)
      modifies `child, `stream, `consecutiveFailures, env
      ensures During(n) && child.None? && stream.None? && old(env.w.log) <= env.w.log
      ensures Untagged(old(env.w), Attempt(n, true)) ==> Untagged(env.w, Attempt(n, true))
      ensures consecutiveFailures == AddOne(old(consecutiveFailures))
      ensures env.Continues(old(env.seen), old(env.At()))
    {
      hide Inv, SlotOk, StreamOk, Ready, Budgeted, Remembers, Mine, CallsBelow, Moves, Genuine, Untagged,
           Evolves, Recent, AnsweredSince, Interpret, Operational, Graceful;
      ghost var first := env.w;
      ForceTeardown();
      consecutiveFailures := AddOne(consecutiveFailures);
      Carried(first, env.w, n);
      TagsAbove(first, env.w, n + 1);
      RemembersLater(respawnHistory, attempts, first.clock, env.w.clock);
      DeliveredGrows(first.log, env.w.log, deliveries);
    }

    /** `ensure_connected` in the middle of a call. */
    method ConnectFor(n: nat) returns (connected: bool)
      requires During(n) && (stream.Some? ==> Ready(env.w, stream.value, build, release))
      modifies `child, `stream, `socketPath, `respawnHistory, `isInitialBoot, `attempts, `trials, env
      ensures During(n) && old(env.w.log) <= env.w.log
      ensures |trials| == |old(trials)| + 1 && trials[..|old(trials)|] == old(trials)
      ensures trials[|old(trials)|].Connect? && (connected <==> trials[|old(trials)|].result.Connected?)
      ensures Justified(trials[|old(trials)|], env.seen, old(env.At()), env.w.clock, build, release)
      ensures trials[|old(trials)|].result.Refused? ==>
                CountBetween(attempts, trials[|old(trials)|].at - 30 * SECOND, trials[|old(trials)|].at) >= 3
      ensures env.Continues(old(env.seen), old(env.At()))
      ensures forall retry: bool ::
                Untagged(old(env.w), Attempt(n, retry)) ==> Untagged(env.w, Attempt(n, retry))
      ensures if connected then stream.Some? && Ready(env.w, stream.value, build, release) else stream.None?
      ensures trials[|old(trials)|].result.Failed? ==> child.None?
    {
      hide Inv, SlotOk, StreamOk, Ready, Budgeted, Remembers, Mine, CallsBelow, Moves, Genuine, Untagged,
           Evolves, Recent, AnsweredSince, Interpret, Operational, Justified, Excuse;
      ghost var first := env.w;
      var r, _ := EnsureConnected();
      connected := r.Connected?;
      Carried(first, env.w, n);
      TagsAbove(first, env.w, n + 1);
      DeliveredGrows(first.log, env.w.log, deliveries);
    }

    /** The health snapshot; finding the child gone also drops the stream. */
    method GetHealth() returns (h: Health, ghost now: nat)
      requires Valid()
      modifies `stream, env
      ensures Valid() && now <= env.w.clock
      ensures h.alive <==> stream.Some?
      ensures h.child == child && (h.alive ==> h.child.Some?)
      ensures stream == old(stream) || (stream.None? && child.Some? && env.w.children[child.value].status.Reaped?)
      ensures h.respawnsInWindow == CountBetween(attempts, now - 30 * SECOND, now) <= 3
      ensures h.consecutiveFailures == consecutiveFailures
      ensures h.alive ==> || env.w.children[child.value].status.Running?
                          || Seen(env.seen, |old(env.seen)|, Unpolled(child.value))
    {
      hide Inv, SlotOk, Ready, Budgeted, Remembers, Mine, CallsBelow, Moves, Genuine, Untagged, Recent;
      ghost var first := env.w;
      var instant := Clock();
      now := instant;
      Carried(first, env.w, nextCall);
      TagsAbove(first, env.w, nextCall);
      RemembersLater(respawnHistory, attempts, first.clock, instant);
      DeliveredGrows(first.log, env.w.log, deliveries);
      var respawns := Recent(respawnHistory, instant);
      RecentOfHistory(respawnHistory, attempts, instant);
      LastThirtySeconds(attempts, instant);
      if child.Some? {
        var gone := PollChild(child.value);
        if gone { stream := None; }
      }
      h := Health(stream.Some? && consecutiveFailures == 0, child, consecutiveFailures, respawns);
    }

    /** `try_wait` on the child in the slot. */
    method PollChild(c: nat) returns (gone: bool)
      requires Valid() && child == Some(c)
      modifies env
      ensures Valid() && old(env.w.clock) <= env.w.clock
      ensures gone ==> env.w.children[c].status.Reaped?
      ensures !gone ==> env.w.children[c].status.Running? || Seen(env.seen, |old(env.seen)|, Unpolled(c))
    {
      hide Inv, Ready, Budgeted, Remembers, Mine, CallsBelow, Moves, Evolves, Genuine, Untagged;
      ghost var before := env.w;
      var waited, m := env.TryWait(c);
      gone := waited.Gone?;
      if waited.Unknown? { assert env.seen[|env.seen| - 1] == Unpolled(c); }
      MovesReflexive(before);
      Settle(before, before, m, child, socketPath);
      Reaping(before, m, c, socketPath);
      Carried(before, env.w, nextCall);
      if stream.Some? { ReadyAcross(before, m, stream.value, c, build, release); }
      TagsAbove(before, env.w, nextCall);
      RemembersLater(respawnHistory, attempts, before.clock, env.w.clock);
      DeliveredGrows(before.log, env.w.log, deliveries);
    }

    /** `Drop`: no child is left to reap and no socket file of any child remains. */
    method Drop()
      requires Valid()
      modifies `child, `stream, env
      ensures Held() && child.None? && stream.None?
      ensures Mine(env.w) == Mine(old(env.w))
      ensures env.Continues(old(env.seen), old(env.At()))
      ensures forall c | c in Mine(env.w) ::
                env.w.children[c].status.Reaped? && env.w.children[c].path !in env.w.files
    {
      ForceTeardown();
    }
  }

  /** A 32-bit counter, as a release build increments it. */
  function AddOne(n: nat): (m: nat)
    ensures n < 0xFFFF_FFFF ==> m == n + 1
    ensures n == 0xFFFF_FFFF ==> m == 0
  {
    (n + 1) % 0x1_0000_0000
  }

  /** The log entry is a dispatch of `req` for that attempt, and `answer` is what the in-process
      sensor would have said of the repository as it was then, relayed. */
  ghost predicate AnswersAttempt(e: Dispatched, o: Origin, req: Request, answer: Result<Answer, LainError>) {
    e.sent == Sent(o, req) && Operational(req) && answer == Relayed(InProcess(req, e.repo))
  }

  /** Such an entry was added to the log after its first `from` entries. */
  ghost predicate AnsweredSince(log: seq<Dispatched>, from: nat,
                                o: Origin, req: Request, answer: Result<Answer, LainError>)
  {
    exists j :: from <= j < |log| && AnswersAttempt(log[j], o, req, answer)
  }

  lemma SinceEarlier(log: seq<Dispatched>, from: nat, o: Origin, req: Request, answer: Result<Answer, LainError>)
    requires exists later: nat :: later >= from && AnsweredSince(log, later, o, req, answer)
    ensures AnsweredSince(log, from, o, req, answer)
  {
  }

  /** Exactly one reply has been handed out, to that attempt for that request, and it says
      `answer`. */
  predicate NewDelivery(before: seq<Delivery>, after: seq<Delivery>,
                        o: Origin, req: Request, answer: Result<Answer, LainError>)
  {
    && |after| == |before| + 1 && before == after[..|before|]
    && o == Attempt(after[|before|].call, after[|before|].retry) && after[|before|].req == req
    && answer == Interpret(req, after[|before|].resp)
  }

  /** The attempt a call ended with, going by its trials. */
  function Final(call: nat, before: seq<Trial>, after: seq<Trial>): Origin {
    Attempt(call, |after| > |before| + 2)
  }

  lemma GenuineGrows(a: seq<Dispatched>, b: seq<Dispatched>, d: Delivery, from: nat, earlier: nat)
    requires a <= b && earlier <= from && Genuine(a, d, from)
    ensures Genuine(b, d, earlier) && Genuine(b, d, 0)
  {
    var j :| from <= j < |a| && IsAnswer(a[j], d);
    assert IsAnswer(b[j], d);
  }

  lemma DeliveredGrows(a: seq<Dispatched>, b: seq<Dispatched>, deliveries: seq<Delivery>)
    requires a <= b && forall i | 0 <= i < |deliveries| :: Genuine(a, deliveries[i], 0)
    ensures forall i | 0 <= i < |deliveries| :: Genuine(b, deliveries[i], 0)
  {
    forall i | 0 <= i < |deliveries| ensures Genuine(b, deliveries[i], 0) {
      GenuineGrows(a, b, deliveries[i], 0, 0);
    }
  }

  /** A genuine reply is a faithful answer. */
  lemma Faithful(w: World, d: Delivery, from: nat)
    requires Inv(w) && Genuine(w.log, d, from) && Operational(d.req)
    ensures AnsweredSince(w.log, from, Attempt(d.call, d.retry), d.req, Interpret(d.req, d.resp))
  {
    var j :| from <= j < |w.log| && IsAnswer(w.log[j], d);
    assert LogOk(w, j);
    RemoteIsInProcess(d.req, w.children[w.conns[w.log[j].conn].child].binary, w.log[j].repo);
    assert AnswersAttempt(w.log[j], Attempt(d.call, d.retry), d.req, Interpret(d.req, d.resp));
  }

  /** What a move keeps, for callers that need no more. */
  lemma Carried(a: World, b: World, n: nat)
    requires Moves(a, b)
    ensures a.clock <= b.clock && a.log <= b.log
    ensures forall retry: bool :: Untagged(a, Attempt(n, retry)) ==> Untagged(b, Attempt(n, retry))
  {
  }

  lemma NextTag(w: World, n: nat)
    requires CallsBelow(w, n)
    ensures CallsBelow(w, n + 1) && Untagged(w, Attempt(n, false)) && Untagged(w, Attempt(n, true))
  {
  }

  lemma TagsAboveAttempt(a: World, b: World, n: nat, retry: bool)
    requires CallsBelow(a, n + 1)
    requires forall o: Origin | o.Attempt? && o != Attempt(n, retry) && Untagged(a, o) :: Untagged(b, o)
    ensures CallsBelow(b, n + 1)
  {
    forall call: nat, retry: bool | call >= n + 1 ensures Untagged(b, Attempt(call, retry)) {
      assert Untagged(a, Attempt(call, retry));
    }
  }

  lemma ReadyAcross(a: World, b: World, k: nat, c: nat, build: string, release: bool)
    requires Ready(a, k, build, release) && a.conns[k].child == c && Evolves(a, b)
    ensures Ready(b, k, build, release) && Ready(Reap(b, c), k, build, release)
    ensures k < |b.conns| && b.conns[k].child == c
  {
    assert ConnEvolves(a.conns[k], b.conns[k]) && ChildEvolves(a.children[c], b.children[c]);
  }

  lemma TagsAbove(a: World, b: World, n: nat)
    requires Moves(a, b) && CallsBelow(a, n)
    ensures CallsBelow(b, n)
  {
    forall call: nat, retry: bool | call >= n ensures Untagged(b, Attempt(call, retry)) {
      assert Untagged(a, Attempt(call, retry));
    }
  }


  lemma TagOnlyOne(a: World, b: World, k: nat, sent: Sent)
    requires k < |a.conns| && (b == a || b == Tear(a, k) || b == Write(a, k, sent))
    ensures forall o: Origin | o != sent.origin && Untagged(a, o) :: Untagged(b, o)
  {
    forall o: Origin | o != sent.origin && Untagged(a, o)
      ensures Untagged(b, o)
    {
      forall k', i | 0 <= k' < |b.conns| && 0 <= i < |b.conns[k'].requests|
        ensures b.conns[k'].requests[i].origin != o
      {
        if i < |a.conns[k'].requests| { assert a.conns[k'].requests[i].origin != o; }
      }
    }
  }
}
