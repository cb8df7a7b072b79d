/** Everything outside the sidecar supervisor: the clock, the child processes, the sockets and
    what the sidecars do on their end of each connection. The supervisor itself is in
    Sidecar.dfy; here is the step relation of its environment, and what every step keeps.

    A request is tagged with why it was written. The tag is not on the wire: it only serves to
    state which reply answers which attempt. */
module SidecarWorld {
  import opened SidecarMessages
  import Names
  import SidecarServer

  datatype Status = Running | Exited | Reaped

  /** A sidecar process; `path` numbers its socket path, `mine` tells the supervisor's own
      children from the other sidecars of this process. */
  datatype Child = Child(path: nat, binary: Binary, status: Status, bound: bool, mine: bool)

  datatype Origin =
    | Hello
    | Attempt(call: nat, retry: bool)
    | Goodbye
    | Garbage

  datatype Sent = Sent(origin: Origin, req: Request)

  datatype Conn = Conn(
    child: nat,
    requests: seq<Sent>,     // the frames that reached the socket whole
    torn: bool,              // the client then wrote part of a frame
    taken: nat,              // how many of them the sidecar has read
    ended: bool,             // its connection handler has returned
    replies: seq<Response>,  // what it wrote back
    read: nat,               // how many replies the client has read
    history: seq<SidecarServer.Event>)  // what its handler has met so far

  /** One call of the sidecar's `dispatch`, for the frame at `position` of a connection. */
  datatype Dispatched = Dispatched(conn: nat, position: nat, sent: Sent, repo: Repository, resp: Response)

  datatype World = World(
    clock: nat,
    nextPath: nat,
    children: seq<Child>,
    conns: seq<Conn>,
    files: set<nat>,
    log: seq<Dispatched>)

  // ---------------------------------------------------------------- steps of the environment

  datatype Step =
    | Tick(elapsed: nat)
    | Die(child: nat, cleans: bool)
    | Bind(child: nat)
    | Serve(conn: nat, repo: Repository, writes: bool)
    | Rave(conn: nat, req: Request, repo: Repository, writes: bool)
    | Stranger(binary: Binary)

  predicate Listening(w: World, c: nat) {
    c < |w.children| && w.children[c].status.Running? && w.children[c].bound
  }

  predicate Enabled(w: World, step: Step) {
    match step
    case Tick(_) => true
    case Die(c, _) => c < |w.children| && w.children[c].status.Running?
    case Bind(c) => c < |w.children| && w.children[c].status.Running? && !w.children[c].bound
    case Serve(k, _, _) =>
      && k < |w.conns| && !w.conns[k].ended && w.conns[k].taken < |w.conns[k].requests|
      && Listening(w, w.conns[k].child)
    case Rave(k, _, _, _) =>
      && k < |w.conns| && !w.conns[k].ended && w.conns[k].torn
      && w.conns[k].taken == |w.conns[k].requests|
      && Listening(w, w.conns[k].child)
    case Stranger(_) => true
  }

  /** The sidecar reads the next frame of a connection and answers it: the handshake on the
      first frame, `dispatch` on every other. A reply that cannot be written, a refused
      handshake and a shutdown end the connection. */
  function Served(w: World, k: nat, repo: Repository, writes: bool): World
    requires k < |w.conns| && w.conns[k].taken < |w.conns[k].requests|
    requires w.conns[k].child < |w.children|
  {
    var c := w.conns[k];
    var sent := c.requests[c.taken];
    var binary := w.children[c.child].binary;
    var e := SidecarServer.Event(SidecarServer.Frame(sent.req, repo), writes);
    var after := Met(c, e, binary).(taken := c.taken + 1);
    w.(conns := w.conns[k := after],
       log := if c.history == [] then w.log
              else w.log + [Dispatched(k, c.taken, sent, repo, SidecarServer.Reply(false, e, binary))])
  }

  /** Behind a torn frame the sidecar may make anything of the bytes it finds. */
  function Raved(w: World, k: nat, req: Request, repo: Repository, writes: bool): World
    requires k < |w.conns| && w.conns[k].child < |w.children|
  {
    var c := w.conns[k];
    var binary := w.children[c.child].binary;
    var e := SidecarServer.Event(SidecarServer.Frame(req, repo), writes);
    w.(conns := w.conns[k := Met(c, e, binary)],
       log := if c.history == [] then w.log
              else w.log + [Dispatched(k, |c.requests|, Sent(Garbage, req), repo,
                                         SidecarServer.Reply(false, e, binary))])
  }

  /** The connection once its handler has met a frame. */
  function Met(c: Conn, e: SidecarServer.Event, binary: Binary): Conn
    requires e.arrival.Frame?
  {
    c.(ended := SidecarServer.Returns(c.history == [], e, binary),
       replies := if e.writes then c.replies + [SidecarServer.Reply(c.history == [], e, binary)] else c.replies,
       history := c.history + [e])
  }

  function Take(w: World, step: Step): World
    requires Enabled(w, step)
  {
    match step
    case Tick(d) => w.(clock := w.clock + d)
    case Die(c, cleans) =>
      w.(children := w.children[c := w.children[c].(status := Exited)],
         files := if cleans then w.files - {w.children[c].path} else w.files)
    case Bind(c) =>
      w.(children := w.children[c := w.children[c].(bound := true)], files := w.files + {w.children[c].path})
    case Serve(k, repo, writes) => Served(w, k, repo, writes)
    case Rave(k, req, repo, writes) => Raved(w, k, req, repo, writes)
    case Stranger(binary) =>
      w.(nextPath := w.nextPath + 1,
         children := w.children + [Child(w.nextPath, binary, Running, false, false)])
  }

  // ---------------------------------------------------------------- what the supervisor does to it

  function NewPath(w: World): World {
    w.(nextPath := w.nextPath + 1)
  }

  function Spawn(w: World, path: nat, binary: Binary): World {
    w.(children := w.children + [Child(path, binary, Running, false, true)])
  }

  function Open(w: World, c: nat): World {
    w.(conns := w.conns + [Conn(c, [], false, 0, false, [], 0, [])])
  }

  function Write(w: World, k: nat, sent: Sent): World
    requires k < |w.conns|
  {
    w.(conns := w.conns[k := w.conns[k].(requests := w.conns[k].requests + [sent])])
  }

  function Tear(w: World, k: nat): World
    requires k < |w.conns|
  {
    w.(conns := w.conns[k := w.conns[k].(torn := true)])
  }

  function ReadOne(w: World, k: nat): World
    requires k < |w.conns|
  {
    w.(conns := w.conns[k := w.conns[k].(read := w.conns[k].read + 1)])
  }

  function Reap(w: World, c: nat): World
    requires c < |w.children|
  {
    w.(children := w.children[c := w.children[c].(status := Reaped)])
  }

  function Unlink(w: World, path: nat): World {
    w.(files := w.files - {path})
  }

  // ---------------------------------------------------------------- the invariant

  /** Reply i of a connection answers its request i, and from the second on was dispatched. */
  ghost predicate Answers(w: World, k: nat, i: nat)
    requires k < |w.conns| && i < |w.conns[k].replies| && i < |w.conns[k].requests|
    requires w.conns[k].child < |w.children|
  {
    var c := w.conns[k];
    if i == 0 then c.replies[0] == SidecarServer.Greeting(c.requests[0].req, w.children[c.child].binary)
    else exists j :: 0 <= j < |w.log| && IsDispatch(w.log[j], k, i, c.requests[i], c.replies[i])
  }

  predicate IsDispatch(d: Dispatched, k: nat, i: nat, sent: Sent, resp: Response) {
    d.conn == k && d.position == i && d.sent == sent && d.resp == resp
  }

  ghost predicate ConnOk(w: World, k: nat)
    requires k < |w.conns|
  {
    var c := w.conns[k];
    && c.child < |w.children|
    && c.read <= |c.replies|
    && c.taken <= |c.requests|
    && (!c.torn || c.taken < |c.requests| ==> |c.replies| <= c.taken)
    && (!c.ended ==> |c.replies| >= c.taken)
    && (forall i | 0 <= i < |c.replies| && i < |c.requests| :: Answers(w, k, i))
  }

  ghost predicate LogOk(w: World, j: nat)
    requires j < |w.log|
  {
    var d := w.log[j];
    && d.conn < |w.conns|
    && w.conns[d.conn].child < |w.children|
    && d.resp == Dispatch(d.sent.req, w.children[w.conns[d.conn].child].binary, d.repo)
    && (!d.sent.origin.Garbage? ==>
          && 1 <= d.position < w.conns[d.conn].taken <= |w.conns[d.conn].requests|
          && w.conns[d.conn].requests[d.position] == d.sent)
  }

  /** An attempt writes its request at most once, anywhere. */
  ghost predicate AttemptsDistinct(w: World) {
    forall k, i, k', i' |
      && 0 <= k < |w.conns| && 0 <= i < |w.conns[k].requests|
      && 0 <= k' < |w.conns| && 0 <= i' < |w.conns[k'].requests|
      && w.conns[k].requests[i].origin == w.conns[k'].requests[i'].origin
      && w.conns[k].requests[i].origin.Attempt? ::
      k == k' && i == i'
  }

  /** A frame is dispatched at most once. */
  ghost predicate LogDistinct(w: World) {
    forall i, j | 0 <= i < j < |w.log| && !w.log[i].sent.origin.Garbage? && !w.log[j].sent.origin.Garbage? ::
      w.log[i].conn != w.log[j].conn || w.log[i].position != w.log[j].position
  }

  /** At most one child of the supervisor's own is running. */
  ghost predicate OneAlive(w: World) {
    forall c, d | 0 <= c < |w.children| && 0 <= d < |w.children|
                  && IsAlive(w.children[c]) && IsAlive(w.children[d]) :: c == d
  }

  predicate IsAlive(c: Child) {
    c.mine && c.status.Running?
  }

  ghost predicate PathsOk(w: World) {
    && (forall c | 0 <= c < |w.children| :: w.children[c].path < w.nextPath)
    && (forall c, c' | 0 <= c < c' < |w.children| :: w.children[c].path != w.children[c'].path)
    && (forall p | p in w.files :: p < w.nextPath)
  }

  ghost predicate NoGarbageWritten(w: World) {
    forall k, i | 0 <= k < |w.conns| && 0 <= i < |w.conns[k].requests| :: !w.conns[k].requests[i].origin.Garbage?
  }

  /** The replies and the end of a connection are those of its handler, as SidecarServer.dfy has
      it, after what it has met. */
  predicate HandlerRan(history: seq<SidecarServer.Event>, replies: seq<Response>, ended: bool, binary: Binary) {
    var s := SidecarServer.Run(history, binary);
    && s.sent == replies
    && (SidecarServer.Over(s) <==> ended)
    && (s.phase.AwaitingHandshake? <==> history == [])
    && (history != [] ==> |s.dispatched| == |history| - 1)
    && (!ended ==> |replies| == |history|)
  }

  /** What it has met are the frames read from the connection, in order, and then whatever
      followed a torn one. */
  predicate HandlerTook(c: Conn) {
    && c.taken <= |c.history| && c.taken <= |c.requests|
    && (!c.torn || c.taken < |c.requests| ==> |c.history| == c.taken)
    && (forall i | 0 <= i < c.taken :: c.history[i].arrival.Frame? && c.history[i].arrival.req == c.requests[i].req)
  }

  predicate HandlerOk(c: Conn, binary: Binary) {
    HandlerRan(c.history, c.replies, c.ended, binary) && HandlerTook(c)
  }

  ghost predicate HandlersOk(w: World) {
    forall k | 0 <= k < |w.conns| ::
      w.conns[k].child < |w.children| && HandlerOk(w.conns[k], w.children[w.conns[k].child].binary)
  }

  ghost predicate Inv(w: World) {
    && HandlersOk(w)
    && (forall k | 0 <= k < |w.conns| :: ConnOk(w, k))
    && (forall j | 0 <= j < |w.log| :: LogOk(w, j))
    && AttemptsDistinct(w)
    && LogDistinct(w)
    && NoGarbageWritten(w)
    && PathsOk(w)
    && OneAlive(w)
  }

  /** What the supervisor can rely on while others run: nothing it wrote, read or reaped is
      undone, no reply already written changes, and only a running child can create a file. */
  ghost predicate Evolves(w: World, w': World) {
    && w.clock <= w'.clock
    && w.nextPath <= w'.nextPath
    && |w.children| <= |w'.children|
    && (forall c | 0 <= c < |w.children| :: ChildEvolves(w.children[c], w'.children[c]))
    && (forall c | |w.children| <= c < |w'.children| :: !w'.children[c].mine && w'.children[c].path >= w.nextPath)
    && |w.conns| == |w'.conns|
    && (forall k | 0 <= k < |w.conns| :: ConnEvolves(w.conns[k], w'.conns[k]))
    && w.log <= w'.log
    && (forall p | p in w'.files :: p in w.files || FileFromRunning(w, p) || p >= w.nextPath)
  }

  predicate ChildEvolves(c: Child, c': Child) {
    && c'.path == c.path && c'.binary == c.binary && c'.mine == c.mine
    && (c.status.Reaped? <==> c'.status.Reaped?)
    && (c.status.Exited? ==> c'.status.Exited?)
  }

  predicate ConnEvolves(c: Conn, c': Conn) {
    && c'.child == c.child && c'.requests == c.requests && c'.torn == c.torn && c'.read == c.read
    && c.replies <= c'.replies
  }

  ghost predicate FileFromRunning(w: World, p: nat) {
    exists c :: 0 <= c < |w.children| && w.children[c].status.Running? && w.children[c].path == p
  }

  lemma EvolvesTransitive(a: World, b: World, c: World)
    requires Evolves(a, b) && Evolves(b, c)
    ensures Evolves(a, c)
  {
    forall p | p in c.files
      ensures p in a.files || FileFromRunning(a, p) || p >= a.nextPath
    {
      if p !in b.files && p < b.nextPath {
        var i :| 0 <= i < |b.children| && b.children[i].status.Running? && b.children[i].path == p;
        if i < |a.children| { assert ChildEvolves(a.children[i], b.children[i]); }
      }
    }
    forall i | 0 <= i < |a.children|
      ensures ChildEvolves(a.children[i], c.children[i])
    {
      assert ChildEvolves(a.children[i], b.children[i]) && ChildEvolves(b.children[i], c.children[i]);
    }
    forall k | 0 <= k < |a.conns|
      ensures ConnEvolves(a.conns[k], c.conns[k])
    {
      assert ConnEvolves(a.conns[k], b.conns[k]) && ConnEvolves(b.conns[k], c.conns[k]);
    }
    forall i | |a.children| <= i < |c.children|
      ensures !c.children[i].mine && c.children[i].path >= a.nextPath
    {
      if i < |b.children| { assert ChildEvolves(b.children[i], c.children[i]); }
    }
  }

  // ---------------------------------------------------------------- every step keeps the invariant

  /** Steps that touch neither connections nor the log. */
  lemma SameTraffic(w: World, w': World)
    requires Inv(w) && PathsOk(w') && OneAlive(w')
    requires w'.conns == w.conns && w'.log == w.log && |w.children| <= |w'.children|
    requires forall c | 0 <= c < |w.children| :: w'.children[c].binary == w.children[c].binary
    ensures Inv(w')
  {
    forall k | 0 <= k < |w'.conns| ensures ConnOk(w', k) {
      assert ConnOk(w, k);
      forall i | 0 <= i < |w.conns[k].replies| && i < |w.conns[k].requests| ensures Answers(w', k, i) {
        assert Answers(w, k, i);
      }
    }
    forall j | 0 <= j < |w'.log| ensures LogOk(w', j) {
      assert LogOk(w, j);
    }
  }

  /** Steps that change connection `k` and may add to the log. What is left to show is about
      that connection and about the new entry. */
  lemma OneConnection(w: World, w': World, k: nat)
    requires Inv(w) && k < |w.conns| == |w'.conns|
    requires w' == w.(conns := w'.conns, log := w'.log) && w.log <= w'.log
    requires forall k' | 0 <= k' < |w.conns| && k' != k :: w'.conns[k'] == w.conns[k']
    requires w'.conns[k].child == w.conns[k].child && w.conns[k].requests <= w'.conns[k].requests
    requires w.conns[k].taken <= w'.conns[k].taken <= |w'.conns[k].requests|
    requires AttemptsDistinct(w') && LogDistinct(w') && NoGarbageWritten(w')
    requires ConnOk(w', k) && HandlerOk(w'.conns[k], w.children[w'.conns[k].child].binary)
    requires forall j | |w.log| <= j < |w'.log| :: LogOk(w', j)
    ensures Inv(w')
  {
    forall k' | 0 <= k' < |w'.conns| ensures ConnOk(w', k') {
      if k' != k {
        assert ConnOk(w, k');
        forall i | 0 <= i < |w.conns[k'].replies| && i < |w.conns[k'].requests| ensures Answers(w', k', i) {
          AnswersKept(w, w', k', i);
        }
      }
    }
    forall j | 0 <= j < |w'.log| ensures LogOk(w', j) {
      if j < |w.log| { assert LogOk(w, j); }
    }
  }

  lemma AnswersKept(w: World, w': World, k: nat, i: nat)
    requires k < |w.conns| && k < |w'.conns|
    requires i < |w.conns[k].replies| && i < |w'.conns[k].replies|
    requires i < |w.conns[k].requests| && i < |w'.conns[k].requests|
    requires w.conns[k].child < |w.children|
    requires w'.conns[k].child == w.conns[k].child < |w'.children|
    requires w'.children[w.conns[k].child].binary == w.children[w.conns[k].child].binary
    requires w'.conns[k].replies[i] == w.conns[k].replies[i]
    requires w'.conns[k].requests[i] == w.conns[k].requests[i]
    requires i == 0 ==> w'.conns[k].requests[0] == w.conns[k].requests[0]
    requires w.log <= w'.log
    requires Answers(w, k, i)
    ensures Answers(w', k, i)
  {
    if i > 0 {
      var j :| 0 <= j < |w.log| && IsDispatch(w.log[j], k, i, w.conns[k].requests[i], w.conns[k].replies[i]);
      assert w'.log[j] == w.log[j];
    }
  }

  /** Meeting one more frame: the next one written, or anything behind a torn one. */
  lemma HandlerMeets(c: Conn, e: SidecarServer.Event, binary: Binary, taken: nat)
    requires HandlerOk(c, binary) && !c.ended && e.arrival.Frame?
    requires (taken == c.taken == |c.requests| && c.torn) ||
             (taken == c.taken + 1 <= |c.requests| && e.arrival.req == c.requests[c.taken].req)
    ensures HandlerOk(Met(c, e, binary).(taken := taken), binary)
  {
    MeetsMore(c.history, c.replies, e, binary);
    TookMore(c, Met(c, e, binary).(taken := taken), e);
    hide HandlerRan, HandlerTook, SidecarServer.Returns, SidecarServer.Reply;
  }

  lemma TookMore(c: Conn, c': Conn, e: SidecarServer.Event)
    requires HandlerTook(c) && e.arrival.Frame?
    requires c'.history == c.history + [e] && c'.requests == c.requests && c'.torn == c.torn
    requires (c'.taken == c.taken == |c.requests| && c.torn) ||
             (c'.taken == c.taken + 1 <= |c.requests| && e.arrival.req == c.requests[c.taken].req)
    ensures HandlerTook(c')
  {
    forall i | 0 <= i < c'.taken
      ensures c'.history[i].arrival.Frame? && c'.history[i].arrival.req == c'.requests[i].req
    {
      if i < c.taken { assert c'.history[i] == c.history[i]; }
    }
  }

  lemma MeetsMore(history: seq<SidecarServer.Event>, replies: seq<Response>, e: SidecarServer.Event, binary: Binary)
    requires HandlerRan(history, replies, false, binary) && e.arrival.Frame?
    ensures HandlerRan(history + [e],
                       if e.writes then replies + [SidecarServer.Reply(history == [], e, binary)] else replies,
                       SidecarServer.Returns(history == [], e, binary), binary)
  {
    SidecarServer.MeetsFrame(history, e, binary);
    ReturnsIfUnwritten(history == [], e, binary);
    NothingMet(binary);
    hide SidecarServer.Run, SidecarServer.Returns, SidecarServer.Reply, SidecarServer.Over;
  }

  lemma ReturnsIfUnwritten(first: bool, e: SidecarServer.Event, binary: Binary)
    requires e.arrival.Frame?
    ensures !e.writes ==> SidecarServer.Returns(first, e, binary)
  {
  }

  lemma NothingMet(binary: Binary)
    ensures SidecarServer.Run([], binary).dispatched == []
  {
  }

  /** The reply to a frame that the sidecar reads answers that frame. */
  lemma ServeAnswers(w: World, k: nat, repo: Repository, writes: bool)
    requires Inv(w) && Enabled(w, Serve(k, repo, writes))
    ensures ConnOk(Served(w, k, repo, writes), k)
  {
    var req := w.conns[k].requests[w.conns[k].taken].req;
    ReturnsIfUnwritten(w.conns[k].history == [], SidecarServer.Event(SidecarServer.Frame(req, repo), writes),
                       w.children[w.conns[k].child].binary);
    hide Dispatch, SidecarServer.Greeting, SidecarServer.Returns, SidecarServer.Run;
    var w' := Served(w, k, repo, writes);
    var c, c' := w.conns[k], w'.conns[k];
    assert ConnOk(w, k);
    forall i | 0 <= i < |c'.replies| && i < |c'.requests| ensures Answers(w', k, i) {
      if i < |c.replies| {
        AnswersKept(w, w', k, i);
      } else if i > 0 {
        assert IsDispatch(w'.log[|w.log|], k, i, c'.requests[i], c'.replies[i]);
      }
    }
  }

  /** A frame is logged once, with the answer to it. */
  lemma ServeLogs(w: World, k: nat, repo: Repository, writes: bool)
    requires Inv(w) && Enabled(w, Serve(k, repo, writes))
    ensures LogDistinct(Served(w, k, repo, writes))
    ensures forall j | |w.log| <= j < |Served(w, k, repo, writes).log| :: LogOk(Served(w, k, repo, writes), j)
  {
    hide HandlerRan, Dispatch, SidecarServer.Greeting, SidecarServer.Returns, SidecarServer.Run;
    var w' := Served(w, k, repo, writes);
    assert ConnOk(w, k) && HandlerTook(w.conns[k]);
    forall i, j | 0 <= i < j < |w'.log| && !w'.log[i].sent.origin.Garbage? && !w'.log[j].sent.origin.Garbage?
      ensures w'.log[i].conn != w'.log[j].conn || w'.log[i].position != w'.log[j].position
    {
      assert LogOk(w, i);
      if j < |w.log| { assert w'.log[j] == w.log[j]; }
    }
  }

  lemma SameRequests(w: World, w': World)
    requires |w.conns| == |w'.conns| && forall k | 0 <= k < |w.conns| :: w'.conns[k].requests == w.conns[k].requests
    requires AttemptsDistinct(w) && NoGarbageWritten(w)
    ensures AttemptsDistinct(w') && NoGarbageWritten(w')
  {
  }

  lemma ServeKeepsInv(w: World, k: nat, repo: Repository, writes: bool)
    requires Inv(w) && Enabled(w, Serve(k, repo, writes))
    ensures Inv(Served(w, k, repo, writes))
  {
    var w' := Served(w, k, repo, writes);
    var c := w.conns[k];
    var e := SidecarServer.Event(SidecarServer.Frame(c.requests[c.taken].req, repo), writes);
    assert HandlerOk(c, w.children[c.child].binary);
    HandlerMeets(c, e, w.children[c.child].binary, c.taken + 1);
    ServeAnswers(w, k, repo, writes);
    ServeLogs(w, k, repo, writes);
    SameRequests(w, w');
    hide HandlerOk, ConnOk, LogOk, LogDistinct, AttemptsDistinct, NoGarbageWritten;
    OneConnection(w, w', k);
  }

  lemma RaveAnswers(w: World, k: nat, req: Request, repo: Repository, writes: bool)
    requires Inv(w) && Enabled(w, Rave(k, req, repo, writes))
    ensures ConnOk(Raved(w, k, req, repo, writes), k)
  {
    ReturnsIfUnwritten(w.conns[k].history == [], SidecarServer.Event(SidecarServer.Frame(req, repo), writes),
                       w.children[w.conns[k].child].binary);
    hide HandlerRan, Dispatch, SidecarServer.Greeting, SidecarServer.Returns, SidecarServer.Run, SidecarServer.Reply;
    var w' := Raved(w, k, req, repo, writes);
    assert ConnOk(w, k);
    forall i | 0 <= i < |w'.conns[k].replies| && i < |w'.conns[k].requests| ensures Answers(w', k, i) {
      AnswersKept(w, w', k, i);
    }
  }

  lemma RaveLogs(w: World, k: nat, req: Request, repo: Repository, writes: bool)
    requires Inv(w) && Enabled(w, Rave(k, req, repo, writes))
    ensures LogDistinct(Raved(w, k, req, repo, writes))
    ensures forall j | |w.log| <= j < |Raved(w, k, req, repo, writes).log| :: LogOk(Raved(w, k, req, repo, writes), j)
  {
    hide HandlerOk, Dispatch, SidecarServer.Greeting, SidecarServer.Returns, SidecarServer.Run;
    assert ConnOk(w, k);
  }

  lemma RaveKeepsInv(w: World, k: nat, req: Request, repo: Repository, writes: bool)
    requires Inv(w) && Enabled(w, Rave(k, req, repo, writes))
    ensures Inv(Raved(w, k, req, repo, writes))
  {
    var w' := Raved(w, k, req, repo, writes);
    var c := w.conns[k];
    var e := SidecarServer.Event(SidecarServer.Frame(req, repo), writes);
    assert HandlerOk(c, w.children[c.child].binary);
    HandlerMeets(c, e, w.children[c.child].binary, c.taken);
    RaveAnswers(w, k, req, repo, writes);
    RaveLogs(w, k, req, repo, writes);
    SameRequests(w, w');
    hide HandlerOk, ConnOk, LogOk, LogDistinct, AttemptsDistinct, NoGarbageWritten;
    OneConnection(w, w', k);
  }

  lemma QuietStepKeepsInv(w: World, step: Step)
    requires Inv(w) && Enabled(w, step) && !step.Serve? && !step.Rave?
    ensures Inv(Take(w, step))
  {
    SameTraffic(w, Take(w, step));
  }

  lemma StepEvolves(w: World, step: Step)
    requires PathsOk(w) && Enabled(w, step)
    requires step.Serve? ==> w.conns[step.conn].child < |w.children|
    ensures Evolves(w, Take(w, step))
  {
    var w' := Take(w, step);
    forall k | 0 <= k < |w.conns| ensures ConnEvolves(w.conns[k], w'.conns[k]) { }
    forall c | 0 <= c < |w.children| ensures ChildEvolves(w.children[c], w'.children[c]) { }
  }

  lemma StepKeepsInv(w: World, step: Step)
    requires Inv(w) && Enabled(w, step)
    ensures Inv(Take(w, step)) && Evolves(w, Take(w, step))
  {
    StepEvolves(w, step);
    match step
    case Serve(k, repo, writes) => ServeKeepsInv(w, k, repo, writes);
    case Rave(k, req, repo, writes) => RaveKeepsInv(w, k, req, repo, writes);
    case _ => QuietStepKeepsInv(w, step);
  }

  // ---------------------------------------------------------------- the supervisor's own steps

  /** No request carries this tag yet. */
  ghost predicate Untagged(w: World, o: Origin) {
    forall k, i | 0 <= k < |w.conns| && 0 <= i < |w.conns[k].requests| :: w.conns[k].requests[i].origin != o
  }

  lemma OpenKeepsInv(w: World, c: nat)
    requires Inv(w) && c < |w.children|
    ensures Inv(Open(w, c))
  {
    var w' := Open(w, c);
    forall k | 0 <= k < |w'.conns| ensures ConnOk(w', k) {
      if k < |w.conns| {
        assert ConnOk(w, k);
        forall i | 0 <= i < |w.conns[k].replies| && i < |w.conns[k].requests| ensures Answers(w', k, i) {
          AnswersKept(w, w', k, i);
        }
      }
    }
    forall j | 0 <= j < |w'.log| ensures LogOk(w', j) { assert LogOk(w, j); }
  }

  lemma WriteKeepsInv(w: World, k: nat, sent: Sent)
    requires Inv(w) && k < |w.conns| && !w.conns[k].torn
    requires !sent.origin.Garbage?
    requires sent.origin.Attempt? ==> Untagged(w, sent.origin)
    ensures Inv(Write(w, k, sent))
  {
    hide HandlerRan;
    var w' := Write(w, k, sent);
    var c, c' := w.conns[k], w'.conns[k];
    assert ConnOk(w, k);
    forall i | 0 <= i < |c'.replies| && i < |c'.requests| ensures Answers(w', k, i) {
      AnswersKept(w, w', k, i);
    }
    OneConnection(w, w', k);
  }

  lemma TearKeepsInv(w: World, k: nat)
    requires Inv(w) && k < |w.conns|
    ensures Inv(Tear(w, k))
  {
    var w' := Tear(w, k);
    assert ConnOk(w, k);
    forall i | 0 <= i < |w.conns[k].replies| && i < |w.conns[k].requests| ensures Answers(w', k, i) {
      AnswersKept(w, w', k, i);
    }
    assert AttemptsDistinct(w') by {
      assert forall k' | 0 <= k' < |w.conns| :: w'.conns[k'].requests == w.conns[k'].requests;
    }
    OneConnection(w, w', k);
  }

  lemma ReadKeepsInv(w: World, k: nat)
    requires Inv(w) && k < |w.conns| && w.conns[k].read < |w.conns[k].replies|
    ensures Inv(ReadOne(w, k))
  {
    var w' := ReadOne(w, k);
    assert ConnOk(w, k);
    forall i | 0 <= i < |w.conns[k].replies| && i < |w.conns[k].requests| ensures Answers(w', k, i) {
      AnswersKept(w, w', k, i);
    }
    assert AttemptsDistinct(w') by {
      assert forall k' | 0 <= k' < |w.conns| :: w'.conns[k'].requests == w.conns[k'].requests;
    }
    OneConnection(w, w', k);
  }

  // ---------------------------------------------------------------- what follows from the invariant

  /** A request written under a fresh tag can only have been dispatched after that moment: no
      entry of the log as it then was carries the tag. */
  lemma FreshTagNotLogged(w: World, log: seq<Dispatched>, o: Origin)
    requires Inv(w) && o.Attempt? && Untagged(w, o) && w.log <= log
    ensures forall j | 0 <= j < |w.log| :: log[j].sent.origin != o
  {
    forall j | 0 <= j < |w.log| ensures log[j].sent.origin != o {
      assert LogOk(w, j) && log[j] == w.log[j];
    }
  }

  /** Each attempt's request is dispatched at most once. */
  lemma AttemptDispatchedOnce(w: World, i: nat, j: nat)
    requires Inv(w) && i < |w.log| && j < |w.log|
    requires w.log[i].sent.origin == w.log[j].sent.origin && w.log[i].sent.origin.Attempt?
    ensures i == j
  {
    assert LogOk(w, i) && LogOk(w, j);
    assert w.log[i].conn == w.log[j].conn && w.log[i].position == w.log[j].position;
  }

  /** Each connection of the world is a run of the handler of SidecarServer.dfy: its replies are
      what the handler sent, it has ended exactly when the handler returned, and what the handler
      met first are the frames written, in order, so far as they were read. */
  lemma ConnectionIsHandlerRun(w: World, k: nat)
    requires Inv(w) && k < |w.conns|
    ensures var c := w.conns[k];
            && c.child < |w.children|
            && var s := SidecarServer.Run(c.history, w.children[c.child].binary);
            && c.replies == s.sent && (c.ended <==> SidecarServer.Over(s))
            && c.taken <= |c.history| && c.taken <= |c.requests|
            && forall i | 0 <= i < c.taken ::
                 c.history[i].arrival.Frame? && c.history[i].arrival.req == c.requests[i].req
  {
  }

  /** So the order of its replies holds in the world: on a connection still being served, what
      the client has read or will read of the frames taken so far is, in order, the greeting and
      then for each request the answer to that very request. */
  lemma RepliesInOrder(w: World, k: nat, i: nat)
    requires Inv(w) && k < |w.conns| && !w.conns[k].ended && !w.conns[k].torn
    requires 0 < i < w.conns[k].taken
    ensures var c := w.conns[k];
            && c.child < |w.children| && |c.replies| == c.taken == |c.history|
            && c.history[i].arrival.Frame?
            && c.replies[i] == Dispatch(c.requests[i].req, w.children[c.child].binary, c.history[i].arrival.repo)
  {
    var c := w.conns[k];
    ConnectionIsHandlerRun(w, k);
    assert HandlerOk(c, w.children[c.child].binary);
    hide Dispatch, SidecarServer.Run;
    SidecarServer.OneReplyPerRequest(c.history, w.children[c.child].binary, i - 1);
  }

  /** The socket paths behind the path numbers, whatever the clock read when each was made and
      wherever each ended up, are different for different children. */
  lemma PathsAreDistinctSockets(w: World, tempDir: string, unix: bool, pid: nat, nanos: nat -> nat, c: nat, d: nat)
    requires Inv(w) && c < |w.children| && d < |w.children| && c != d
    ensures var p, q := w.children[c].path, w.children[d].path;
            Names.SocketPath(tempDir, unix, pid, p, nanos(p)) != Names.SocketPath(tempDir, unix, pid, q, nanos(q))
  {
    hide Names.SocketPath;
    var p, q := w.children[c].path, w.children[d].path;
    assert PathsOk(w) && p != q;
    if Names.SocketPath(tempDir, unix, pid, p, nanos(p)) == Names.SocketPath(tempDir, unix, pid, q, nanos(q)) {
      Names.SocketPathInjective(tempDir, unix, pid, p, nanos(p), tempDir, unix, pid, q, nanos(q));
    }
  }

  /** And so the gate of the handler holds in the world: whatever is dispatched of what the supervisor
      wrote came on a connection that opened with a handshake of the sidecar's own version. */
  lemma DispatchGatedInWorld(w: World, j: nat)
    requires Inv(w) && j < |w.log| && !w.log[j].sent.origin.Garbage?
    ensures w.log[j].conn < |w.conns|
    ensures var c := w.conns[w.log[j].conn];
            c.requests != [] && c.child < |w.children|
            && c.requests[0].req == Handshake(w.children[c.child].binary.version)
  {
    assert LogOk(w, j);
    var c := w.conns[w.log[j].conn];
    assert HandlerOk(c, w.children[c.child].binary);
    SidecarServer.DispatchIsGated(c.history, w.children[c.child].binary);
  }

  /** The places in the log where the requests of one call were dispatched. */
  function DispatchesOf(w: World, call: nat): set<nat> {
    set j: nat | j < |w.log| && w.log[j].sent.origin.Attempt? && w.log[j].sent.origin.call == call
  }

  /** Whatever timeouts, deaths and respawns a call lived through, the sidecars dispatched its
      request at most twice in all. */
  lemma CallDispatchedAtMostTwice(w: World, call: nat)
    requires Inv(w)
    ensures |DispatchesOf(w, call)| <= 2
  {
    var all := DispatchesOf(w, call);
    var first := set j | j in all && !w.log[j].sent.origin.retry;
    var second := set j | j in all && w.log[j].sent.origin.retry;
    assert all == first + second;
    AtMostOne(w, first, Attempt(call, false));
    AtMostOne(w, second, Attempt(call, true));
  }

  lemma AtMostOne(w: World, s: set<nat>, o: Origin)
    requires Inv(w) && o.Attempt?
    requires forall j | j in s :: j < |w.log| && w.log[j].sent.origin == o
    ensures |s| <= 1
  {
    if s != {} {
      var i :| i in s;
      forall j | j in s ensures j == i {
        AttemptDispatchedOnce(w, i, j);
      }
      assert s == {i};
    }
  }
}
