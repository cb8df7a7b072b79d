/** Many clients, many daemons: starting, growing and exiting daemons, and what a client that
    attaches to one can count on (`attach_or_start`, `start_detached_daemon` and `only_shared`
    of src/cli/shared_daemon.rs). */
module SharedDaemon {
  import opened Discovery
  import opened Instants
  import opened Outcomes

  /** A daemon process. It was started for the set `keyed` on that set's socket. */
  datatype Daemon = Daemon(socket: Path, keyed: set<Path>, served: set<Path>, shared: bool, live: bool)

  datatype Fleet = Fleet(daemons: seq<Daemon>, clock: nat)

  datatype Step =
    | Start(keyed: set<Path>, shared: bool)    // a daemon binds its set's socket
    | Grow(daemon: nat, paths: set<Path>)      // add_workspaces
    | Exit(daemon: nat)                        // idle exit, or a crash
    | Tick(elapsed: nat)

  /** Nothing listens on the socket. */
  predicate Unbound(f: Fleet, socket: Path) {
    forall d | 0 <= d < |f.daemons| :: f.daemons[d].live ==> f.daemons[d].socket != socket
  }

  /** Binding is exclusive, and a daemon that does not share refuses to grow. */
  predicate Enabled(key: set<Path> -> Path, f: Fleet, step: Step) {
    match step
    case Start(keyed, _) => Unbound(f, key(keyed))
    case Grow(d, _) => d < |f.daemons| && f.daemons[d].live && f.daemons[d].shared
    case Exit(d) => d < |f.daemons| && f.daemons[d].live
    case Tick(_) => true
  }

  function Take(key: set<Path> -> Path, f: Fleet, step: Step): Fleet
    requires Enabled(key, f, step)
  {
    match step
    case Start(keyed, shared) => f.(daemons := f.daemons + [Daemon(key(keyed), keyed, keyed, shared, true)])
    case Grow(d, paths) =>
      f.(daemons := f.daemons[d := f.daemons[d].(served := f.daemons[d].served + paths)])
    case Exit(d) => f.(daemons := f.daemons[d := f.daemons[d].(live := false)])
    case Tick(e) => f.(clock := f.clock + e)
  }

  predicate Runs(key: set<Path> -> Path, f: Fleet, steps: seq<Step>)
    decreases |steps|
  {
    steps == [] || (Enabled(key, f, steps[0]) && Runs(key, Take(key, f, steps[0]), steps[1..]))
  }

  function After(key: set<Path> -> Path, f: Fleet, steps: seq<Step>): Fleet
    requires Runs(key, f, steps)
    decreases |steps|
  {
    if steps == [] then f else After(key, Take(key, f, steps[0]), steps[1..])
  }

  const NO_DAEMONS: Fleet := Fleet([], 0)

  // ---------------------------------------------------------------- coverage

  /** Every daemon serves at least the set its socket is keyed by, and a socket has at most one
      live daemon. */
  ghost predicate Inv(key: set<Path> -> Path, f: Fleet) {
    && (forall d | 0 <= d < |f.daemons| ::
          f.daemons[d].socket == key(f.daemons[d].keyed) && f.daemons[d].keyed <= f.daemons[d].served)
    && (forall d, e | 0 <= d < e < |f.daemons| && f.daemons[d].live && f.daemons[e].live ::
          f.daemons[d].socket != f.daemons[e].socket)
  }

  lemma StepKeepsInv(key: set<Path> -> Path, f: Fleet, step: Step)
    requires Inv(key, f) && Enabled(key, f, step)
    ensures Inv(key, Take(key, f, step))
  {
  }

  lemma {:induction false} RunKeepsInv(key: set<Path> -> Path, f: Fleet, steps: seq<Step>)
    requires Inv(key, f) && Runs(key, f, steps)
    ensures Inv(key, After(key, f, steps))
    decreases |steps|
  {
    if steps != [] {
      StepKeepsInv(key, f, steps[0]);
      RunKeepsInv(key, Take(key, f, steps[0]), steps[1..]);
    }
  }

  ghost predicate Injective(key: set<Path> -> Path) {
    forall s: set<Path>, t: set<Path> :: key(s) == key(t) ==> s == t
  }

  /** In every run, whoever is live on a set's own socket covers that set, however often daemons
      were started, grown and lost. */
  lemma OwnSocketCovers(key: set<Path> -> Path, steps: seq<Step>, needed: set<Path>, d: nat)
    requires Injective(key) && Runs(key, NO_DAEMONS, steps)
    requires d < |After(key, NO_DAEMONS, steps).daemons|
    requires After(key, NO_DAEMONS, steps).daemons[d].socket == key(needed)
    ensures needed <= After(key, NO_DAEMONS, steps).daemons[d].served
  {
    RunKeepsInv(key, NO_DAEMONS, steps);
  }

  /** A socket is safe for a client if whoever may ever be live on it covers the client. */
  ghost predicate SafeSocket(key: set<Path> -> Path, keyed: set<Path>, needed: set<Path>) {
    forall steps: seq<Step>, d: nat |
      Runs(key, NO_DAEMONS, steps) && OnSocket(After(key, NO_DAEMONS, steps), d, key(keyed)) ::
      needed <= After(key, NO_DAEMONS, steps).daemons[d].served
  }

  predicate OnSocket(f: Fleet, d: nat, socket: Path) {
    d < |f.daemons| && f.daemons[d].live && f.daemons[d].socket == socket
  }

  lemma RunOne(key: set<Path> -> Path, f: Fleet, step: Step, rest: seq<Step>)
    requires Enabled(key, f, step) && Runs(key, Take(key, f, step), rest)
    ensures Runs(key, f, [step] + rest)
    ensures After(key, f, [step] + rest) == After(key, Take(key, f, step), rest)
  {
    assert ([step] + rest)[1..] == rest;
  }

  /** Attaching through a socket keyed by another set is unsafe against restarts exactly when
      that set does not already contain what the client needs: being covered at the moment of
      discovery, by a daemon that has grown, is not enough. */
  lemma SafeSocketIff(key: set<Path> -> Path, keyed: set<Path>, needed: set<Path>)
    requires Injective(key)
    ensures SafeSocket(key, keyed, needed) <==> needed <= keyed
  {
    if needed <= keyed {
      forall steps: seq<Step>, d: nat |
        Runs(key, NO_DAEMONS, steps) && OnSocket(After(key, NO_DAEMONS, steps), d, key(keyed))
        ensures needed <= After(key, NO_DAEMONS, steps).daemons[d].served
      {
        OwnSocketCovers(key, steps, keyed, d);
      }
    } else {
      var before, after, d := CoverageLost(key, keyed, needed);
      assert OnSocket(After(key, NO_DAEMONS, before + after), d, key(keyed));
    }
  }

  /** The run that loses coverage: a daemon grown to cover the client is discovered; it exits;
      another client restarts one for the original set; the client connects to that. */
  lemma CoverageLost(key: set<Path> -> Path, keyed: set<Path>, needed: set<Path>)
    returns (before: seq<Step>, after: seq<Step>, d: nat)
    requires !(needed <= keyed)
    ensures Runs(key, NO_DAEMONS, before) && Runs(key, NO_DAEMONS, before + after)
    ensures var f := After(key, NO_DAEMONS, before);
            && OnSocket(f, 0, key(keyed)) && f.daemons[0].shared && f.daemons[0].served == keyed + needed
            && |f.daemons| == 1
    ensures var f := After(key, NO_DAEMONS, before + after);
            && OnSocket(f, d, key(keyed)) && f.daemons[d].shared && !(needed <= f.daemons[d].served)
            && forall e: nat :: OnSocket(f, e, key(keyed)) ==> e == d
  {
    d := 1;
    var f1 := Take(key, NO_DAEMONS, Start(keyed, true));
    var f2 := Take(key, f1, Grow(0, needed));
    var f3 := Take(key, f2, Exit(0));
    var f4 := Take(key, f3, Start(keyed, true));
    RunOne(key, f3, Start(keyed, true), []);
    RunOne(key, f2, Exit(0), [Start(keyed, true)] + []);
    RunOne(key, f1, Grow(0, needed), [Exit(0)] + ([Start(keyed, true)] + []));
    RunOne(key, NO_DAEMONS, Start(keyed, true), [Grow(0, needed)] + ([Exit(0)] + ([Start(keyed, true)] + [])));
    RunOne(key, f1, Grow(0, needed), []);
    RunOne(key, NO_DAEMONS, Start(keyed, true), [Grow(0, needed)] + []);
    before := [Start(keyed, true)] + ([Grow(0, needed)] + []);
    after := [Exit(0)] + ([Start(keyed, true)] + []);
    assert before + after == [Start(keyed, true)] + ([Grow(0, needed)] + ([Exit(0)] + ([Start(keyed, true)] + [])));
    assert f4.daemons[1] == Daemon(key(keyed), keyed, keyed, true, true);
  }

  /** Seen from one client: asking the only daemon there is, it finds itself covered and is sent
      to that daemon's socket; when it dials, whoever answers there does not cover it. */
  lemma DiscoveredThenLost(key: set<Path> -> Path, keyed: set<Path>, needed: set<Path>, listing: seq<Path>)
    returns (before: seq<Step>, after: seq<Step>, scan: Scan)
    requires !(needed <= keyed) && Elements(listing) == keyed + needed
    ensures Runs(key, NO_DAEMONS, before) && Runs(key, NO_DAEMONS, before + after)
    ensures scan.candidates == [key(keyed)] && scan.answers == map[key(keyed) := Info(listing, true)]
    ensures var f := After(key, NO_DAEMONS, before);
            && |f.daemons| == 1 && OnSocket(f, 0, key(keyed)) && f.daemons[0].shared
            && f.daemons[0].served == Elements(listing)
    ensures IsBest(scan, needed, key(needed), Covering(key(keyed)))
    ensures var f := After(key, NO_DAEMONS, before + after);
            && (exists d: nat :: OnSocket(f, d, key(keyed)))
            && forall d: nat :: OnSocket(f, d, key(keyed)) ==> !(needed <= f.daemons[d].served)
  {
    var d: nat;
    before, after, d := CoverageLost(key, keyed, needed);
    assert OnSocket(After(key, NO_DAEMONS, before + after), d, key(keyed));
    scan := Scan([key(keyed)], map[key(keyed) := Info(listing, true)], (p: Path) => p);
    IdentityScan(scan, listing);
    assert scan.Covers(key(keyed), needed);
    forall t: Path | scan.Covers(t, needed)
      ensures Before(scan.Preference(key(keyed), key(needed)), scan.Preference(t, key(needed)))
    {
      assert t == key(keyed);
    }
  }

  // ---------------------------------------------------------------- how a fleet evolves

  /** What others cannot undo: a daemon keeps its socket and never serves less; the dead stay
      dead. */
  ghost predicate Evolves(f: Fleet, f': Fleet) {
    && f.clock <= f'.clock
    && |f.daemons| <= |f'.daemons|
    && forall d | 0 <= d < |f.daemons| :: DaemonEvolves(f.daemons[d], f'.daemons[d])
  }

  predicate DaemonEvolves(d: Daemon, d': Daemon) {
    && d'.socket == d.socket && d'.keyed == d.keyed && d'.shared == d.shared
    && d.served <= d'.served && (d'.live ==> d.live)
  }

  lemma EvolvesReflexive(f: Fleet)
    ensures Evolves(f, f)
  {
  }

  lemma OneEvolves(a: Fleet, b: Fleet, d: nat)
    requires Evolves(a, b) && d < |a.daemons|
    ensures d < |b.daemons| && DaemonEvolves(a.daemons[d], b.daemons[d])
  {
  }

  lemma EvolvesFollow(a: Fleet, b: Fleet)
    requires Evolves(a, b)
    ensures a.clock <= b.clock
  {
  }

  lemma EvolvesTransitive(a: Fleet, b: Fleet, c: Fleet)
    requires Evolves(a, b) && Evolves(b, c)
    ensures Evolves(a, c)
  {
    forall d | 0 <= d < |a.daemons| ensures DaemonEvolves(a.daemons[d], c.daemons[d]) {
      assert DaemonEvolves(a.daemons[d], b.daemons[d]) && DaemonEvolves(b.daemons[d], c.daemons[d]);
    }
  }

  /** How long a fresh daemon may take to accept its first connection. */
  const START_WAIT: nat := 60 * SECOND

  // ---------------------------------------------------------------- the client

  /** A probe: who answered, and what it said. */
  datatype Asked = Asked(socket: Path, answeredBy: Option<nat>, served: set<Path>, shared: bool)

  datatype Dialled = Dialled(socket: Path, reached: Option<nat>)

  datatype Handed = Handed(daemon: nat, paths: set<Path>, accepted: bool)

  /** What the client noticed while it waited for a daemon of its own. */
  datatype Noticed = SpawnFailed | ChildExited | Rested(length: nat)

  /** How far the client's logs had got at some moment, and when that was. */
  datatype Moment = Moment(dialled: nat, asked: nat, noticed: nat, spawned: seq<set<Path>>, handed: seq<Handed>,
                           clock: nat)

  /** A candidate was dialled and, if that reached a daemon, is on record with just what that
      daemon said. */
  ghost predicate Recorded(s: Path, answers: map<Path, Info>, d: Dialled, a: Asked) {
    && d == Dialled(s, a.answeredBy) && a.socket == s
    && (s in answers <==> a.answeredBy.Some?)
    && (s in answers ==> Elements(answers[s].workspaces) == a.served && answers[s].shared == a.shared)
  }

  /** The first `n` candidates are on record. */
  ghost predicate AllRecorded(candidates: seq<Path>, n: nat, answers: map<Path, Info>,
                              dialled: seq<Dialled>, d: nat, asked: seq<Asked>, a: nat)
  {
    && n <= |candidates| && d + n <= |dialled| && a + n <= |asked|
    && forall i | 0 <= i < n :: Recorded(candidates[i], answers, dialled[d + i], asked[a + i])
  }

  lemma NothingRecorded(candidates: seq<Path>, dialled: seq<Dialled>, asked: seq<Asked>)
    ensures AllRecorded(candidates, 0, map[], dialled, |dialled|, asked, |asked|)
  {
  }

  lemma OneRecorded(s: Path, answers: map<Path, Info>, d: Dialled, a: Asked)
    requires d == Dialled(s, a.answeredBy) && a.socket == s && (s in answers <==> a.answeredBy.Some?)
    requires s in answers ==> Elements(answers[s].workspaces) == a.served && answers[s].shared == a.shared
    ensures Recorded(s, answers, d, a)
  {
  }

  lemma RecordedNext(candidates: seq<Path>, n: nat, answers: map<Path, Info>, answers': map<Path, Info>,
                     dialled: seq<Dialled>, d: nat, asked: seq<Asked>, a: nat, d': Dialled, a': Asked)
    requires StrictlySorted(candidates) && n < |candidates| && |dialled| == d + n && |asked| == a + n
    requires AllRecorded(candidates, n, answers, dialled, d, asked, a)
    requires Recorded(candidates[n], answers', d', a')
    requires forall s | s != candidates[n] :: (s in answers <==> s in answers')
    requires forall s | s != candidates[n] && s in answers :: answers'[s] == answers[s]
    ensures AllRecorded(candidates, n + 1, answers', dialled + [d'], d, asked + [a'], a)
  {
  }

  lemma RecordedStill(candidates: seq<Path>, n: nat, answers: map<Path, Info>, dialled: seq<Dialled>, d: nat,
                      asked: seq<Asked>, a: nat, dialled': seq<Dialled>, asked': seq<Asked>)
    requires AllRecorded(candidates, n, answers, dialled, d, asked, a) && dialled <= dialled' && asked <= asked'
    ensures AllRecorded(candidates, n, answers, dialled', d, asked', a)
  {
  }

  /** The one moment is no earlier than the other. */
  predicate Follow(a: Moment, b: Moment) {
    a.dialled <= b.dialled && a.asked <= b.asked && a.noticed <= b.noticed && a.clock <= b.clock
  }

  /** The rests between dials are a twentieth of a second, and no two without a dial between. */
  predicate Polling(noticed: seq<Noticed>, dials: nat) {
    |noticed| <= dials + 1 && forall i | 0 <= i < |noticed| :: noticed[i].Rested? ==> noticed[i].length == SECOND / 20
  }

  class Machine {
    const key: set<Path> -> Path
    /** Whether a socket path fits the platform's limit. */
    const fits: Path -> bool
    var f: Fleet
    var agenda: seq<Step>
    ghost var dialled: seq<Dialled>        // every connection the client tried
    ghost var asked: seq<Asked>            // every probe the client made, with who answered
    ghost var spawned: seq<set<Path>>      // the sets it tried to start a daemon for
    ghost var handed: seq<Handed>          // the paths it handed to daemons
    ghost var noticed: seq<Noticed>

    ghost function At(): Moment
      reads this
    {
      Moment(|dialled|, |asked|, |noticed|, spawned, handed, f.clock)
    }

    ghost predicate Valid()
      reads this
    {
      Injective(key) && Inv(key, f)
    }

    constructor (key: set<Path> -> Path, fits: Path -> bool, agenda: seq<Step>)
      requires Injective(key)
      ensures Valid()
    {
      dialled, asked, spawned, handed, noticed := [], [], [], [], [];
      this.key, this.fits := key, fits;
      f := NO_DAEMONS;
      this.agenda := agenda;
    }

    /** The other clients and the daemons themselves get to run. */
    method Others()
      requires Valid()
      modifies `f, `agenda
      ensures Valid() && Evolves(old(f), f)
    {
      var n :| 0 <= n <= |agenda|;
      for i := 0 to n
        invariant Valid() && Evolves(old(f), f) && agenda == old(agenda)
      {
        if Enabled(key, f, agenda[i]) {
          StepKeepsInv(key, f, agenda[i]);
          EvolvesTransitive(old(f), f, Take(key, f, agenda[i]));
          f := Take(key, f, agenda[i]);
        }
      }
      agenda := agenda[n..];
    }

    method Sleep(elapsed: nat)
      requires Valid()
      modifies `f, `agenda, `noticed
      ensures Valid() && Evolves(old(f), f) && f.clock >= old(f.clock) + elapsed
      ensures noticed == old(noticed) + [Rested(elapsed)]
    {
      noticed := noticed + [Rested(elapsed)];
      Others();
      EvolvesTransitive(old(f), f, Take(key, f, Tick(elapsed)));
      f := Take(key, f, Tick(elapsed));
    }

    /** Connecting reaches the daemon live on the socket at that moment, if any. */
    method Connect(socket: Path) returns (d: Option<nat>)
      requires Valid()
      modifies `f, `agenda, `dialled
      ensures dialled == old(dialled) + [Dialled(socket, d)]
      ensures Valid() && Evolves(old(f), f)
      ensures d.Some? ==> OnSocket(f, d.value, socket)
    {
      Others();
      var fails: bool := *;
      dialled := dialled + [Dialled(socket, None)];
      if fails { return None; }
      var i := 0;
      while i < |f.daemons|
        invariant dialled == old(dialled) + [Dialled(socket, None)]
      {
        if f.daemons[i].live && f.daemons[i].socket == socket {
          dialled := dialled[..|dialled| - 1] + [Dialled(socket, Some(i))];
          return Some(i);
        }
        i := i + 1;
      }
      return None;
    }

    /** Spawning a daemon process for a set; its bind is one of the steps the others take. */
    method Spawn(needed: set<Path>) returns (ok: bool)
      modifies `spawned, `noticed
      ensures spawned == old(spawned) + [needed]
      ensures noticed == old(noticed) + if ok then [] else [SpawnFailed]
    {
      spawned := spawned + [needed];
      ok := *;
      if !ok { noticed := noticed + [SpawnFailed]; }
    }

    /** `try_wait` on the process spawned. */
    method HasExited() returns (exited: bool)
      modifies `noticed
      ensures noticed == old(noticed) + if exited then [ChildExited] else []
    {
      exited := *;
      if exited { noticed := noticed + [ChildExited]; }
    }

    /** `query_daemon_info`: what the daemon on the socket says of itself, or silence. */
    method Probe(socket: Path) returns (info: Option<(nat, bool, set<Path>)>)
      requires Valid()
      modifies `f, `agenda, `dialled, `asked
      ensures dialled == old(dialled) + [Dialled(socket, if info.Some? then Some(info.value.0) else None)]
      ensures asked == old(asked) + [if info.Some? then Asked(socket, Some(info.value.0), info.value.2, info.value.1)
                                     else Asked(socket, None, {}, false)]
      ensures Valid() && Evolves(old(f), f)
      ensures info.Some? ==>
                && OnSocket(f, info.value.0, socket)
                && info.value.1 == f.daemons[info.value.0].shared
                && info.value.2 == f.daemons[info.value.0].served
    {
      var d := Connect(socket);
      match d
      case None =>
        asked := asked + [Asked(socket, None, {}, false)];
        return None;
      case Some(i) =>
        asked := asked + [Asked(socket, d, f.daemons[i].served, f.daemons[i].shared)];
        return Some((i, f.daemons[i].shared, f.daemons[i].served));
    }

    /** `only_shared`: refuses a connection only if the probe of its socket is answered by a
        daemon that does not share. */
    method OnlyShared(d: nat, socket: Path) returns (r: Option<nat>, ghost prober: Option<nat>)
      requires Valid() && d < |f.daemons| && f.daemons[d].socket == socket
      modifies `f, `agenda, `dialled, `asked
      ensures Valid() && Evolves(old(f), f)
      ensures dialled == old(dialled) + [Dialled(socket, prober)]
      ensures |asked| == |old(asked)| + 1 && old(asked) <= asked
      ensures asked[|old(asked)|].socket == socket && asked[|old(asked)|].answeredBy == prober
      ensures r == None || r == Some(d)
      ensures prober.Some? ==> OnSocket(f, prober.value, socket)
      ensures r.None? <==> prober.Some? && !f.daemons[prober.value].shared
    {
      var info := Probe(socket);
      match info
      case Some(i) =>
        return if i.1 then Some(d) else None, Some(i.0);
      case None =>
        return Some(d), None;
    }

    /** Why a daemon for the client's own set could not be reached: it could not be spawned, or it
        exited and a last dial found nobody else listening either, or for the whole wait, dialling
        all along, nobody was. */
    ghost predicate NotStarted(needed: set<Path>, since: Moment, wait: nat)
      reads this
    {
      && since.noticed <= |noticed| && since.dialled <= |dialled|
      && if |noticed| > since.noticed && noticed[|noticed| - 1].SpawnFailed? then true
         else
           && Polling(noticed[since.noticed..], |dialled| - since.dialled)
           && (forall i | since.dialled <= i < |dialled| :: dialled[i] == Dialled(key(needed), None))
           && (|| f.clock >= since.clock + wait
               || (|noticed| > since.noticed && noticed[|noticed| - 1].ChildExited?
                   && |dialled| - since.dialled > |noticed| - since.noticed))
    }

    /** `start_detached_daemon`: spawns a daemon for the set and polls the socket until it accepts,
        the child exits or the wait is over. */
    method StartDetached(needed: set<Path>, wait: nat) returns (d: Option<nat>)
      requires Valid()
      modifies `f, `agenda, `dialled, `spawned, `noticed
      ensures old(dialled) <= dialled
      ensures spawned == old(spawned) + [needed]
      ensures Valid() && Evolves(old(f), f)
      ensures d.Some? ==> OnSocket(f, d.value, key(needed)) && needed <= f.daemons[d.value].served
                          && |dialled| > |old(dialled)| && dialled[|dialled| - 1] == Dialled(key(needed), d)
      ensures d.None? ==> NotStarted(needed, old(At()), wait)
    {
      var ok := Spawn(needed);
      if !ok { return None; }
      ghost var first := f;
      var start := f.clock;
      while f.clock < start + wait
        invariant Valid() && Evolves(first, f) && spawned == old(spawned) + [needed] && old(dialled) <= dialled
        invariant |noticed| - |old(noticed)| == |dialled| - |old(dialled)| && old(noticed) <= noticed
        invariant forall i | |old(noticed)| <= i < |noticed| :: noticed[i] == Rested(SECOND / 20)
        invariant forall i | |old(dialled)| <= i < |dialled| :: dialled[i] == Dialled(key(needed), None)
        decreases start + wait - f.clock
      {
        ghost var before := f;
        d := Connect(key(needed));
        EvolvesTransitive(first, before, f);
        if d.Some? { return; }
        var exited := HasExited();
        before := f;
        if exited {
          d := Connect(key(needed));
          EvolvesTransitive(first, before, f);
          return;
        }
        Sleep(SECOND / 20);
        EvolvesTransitive(first, before, f);
      }
      return None;
    }

    /** Starts a daemon for the client's own set and bridges to whoever listens there. */
    method StartOwn(needed: set<Path>, ghost probed: Option<nat>) returns (r: Option<nat>, ghost prober: Option<nat>)
      requires Valid()
      modifies `f, `agenda, `dialled, `asked, `spawned, `noticed
      ensures Valid() && Evolves(old(f), f) && old(dialled) <= dialled && old(asked) <= asked
      ensures spawned == old(spawned) + [needed] && handed == old(handed)
      ensures Dealt(old(At()), needed, r, prober)
      ensures r.Some? ==> Bridged(needed, r.value, probed, prober)
    {
      ghost var first, m := f, At();
      var d := StartDetached(needed, START_WAIT);
      if d.None? {
        assert NotStarted(needed, m, 60 * SECOND);
        return None, None;
      }
      ghost var mid := f;
      r, prober := OnlyShared(d.value, key(needed));
      EvolvesTransitive(first, mid, f);
      assert DaemonEvolves(mid.daemons[d.value], f.daemons[d.value]);
    }

    /** Asks every candidate in turn, and notes which daemon answered for which socket. */
    method ScanAll(candidates: seq<Path>)
      returns (answers: map<Path, Info>, ghost source: map<Path, nat>)
      requires Valid() && StrictlySorted(candidates)
      modifies `f, `agenda, `dialled, `asked
      ensures Valid() && Evolves(old(f), f)
      ensures old(dialled) <= dialled && |dialled| == |old(dialled)| + |candidates|
      ensures old(asked) <= asked && |asked| == |old(asked)| + |candidates|
      ensures AllRecorded(candidates, |candidates|, answers, dialled, |old(dialled)|, asked, |old(asked)|)
      ensures forall s <- answers :: s in candidates && Answered(s, answers[s], source)
    {
      hide Inv, Injective, Evolves, AllRecorded, Recorded;
      answers, source := map[], map[];
      ghost var first := f;
      EvolvesReflexive(f);
      NothingRecorded(candidates, dialled, asked);
      for n := 0 to |candidates|
        invariant Valid() && Evolves(first, f)
        invariant old(dialled) <= dialled && |dialled| == |old(dialled)| + n
        invariant old(asked) <= asked && |asked| == |old(asked)| + n
        invariant AllRecorded(candidates, n, answers, dialled, |old(dialled)|, asked, |old(asked)|)
        invariant forall s <- answers :: s in candidates[..n] && Answered(s, answers[s], source)
      {
        ghost var before, said := f, answers;
        ghost var d, a := dialled, asked;
        var info := Probe(candidates[n]);
        EvolvesTransitive(first, before, f);
        StillAnswered(before, answers, source);
        if info.Some? {
          var listed := Listing(info.value.2);
          answers := answers[candidates[n] := Info(listed, info.value.1)];
          source := source[candidates[n] := info.value.0];
        }
        OneRecorded(candidates[n], answers, dialled[|d|], asked[|a|]);
        RecordedNext(candidates, n, said, answers, d, |old(dialled)|, a, |old(asked)|, dialled[|d|], asked[|a|]);
      }
    }

    /** Some daemon on the socket, not necessarily live any more, said so of itself, and still
        serves at least that. */
    ghost predicate Answered(s: Path, info: Info, source: map<Path, nat>)
      reads this
    {
      && s in source && source[s] < |f.daemons|
      && f.daemons[source[s]].socket == s && f.daemons[source[s]].shared == info.shared
      && (forall w <- info.workspaces :: w in f.daemons[source[s]].served)
    }

    lemma StillAnswered(before: Fleet, answers: map<Path, Info>, source: map<Path, nat>)
      requires Evolves(before, f)
      requires forall s <- answers ::
                 && s in source && source[s] < |before.daemons| && before.daemons[source[s]].socket == s
                 && before.daemons[source[s]].shared == answers[s].shared
                 && (forall w <- answers[s].workspaces :: w in before.daemons[source[s]].served)
      ensures forall s <- answers :: Answered(s, answers[s], source)
    {
      forall s | s in answers ensures Answered(s, answers[s], source) {
        assert DaemonEvolves(before.daemons[source[s]], f.daemons[source[s]]);
      }
    }

    /** `admin_add_workspaces` on a connection to `d`: a daemon that accepts serves the paths. */
    method AddWorkspaces(d: nat, paths: set<Path>) returns (ok: bool)
      requires Valid() && d < |f.daemons|
      modifies `f, `agenda, `handed
      ensures Valid() && Evolves(old(f), f)
      ensures handed == old(handed) + [Handed(d, paths, ok)]
      ensures ok ==> paths <= f.daemons[d].served
    {
      Others();
      var fails: bool := *;
      ok := !fails && Enabled(key, f, Grow(d, paths));
      handed := handed + [Handed(d, paths, ok)];
      if !ok { return; }
      EvolvesTransitive(old(f), f, Take(key, f, Grow(d, paths)));
      StepKeepsInv(key, f, Grow(d, paths));
      f := Take(key, f, Grow(d, paths));
      return true;
    }

    /** What a client may rely on. `probed` is the daemon that answered discovery on the socket
        chosen, `prober` the one that answered the last probe. */
    ghost predicate Bridged(needed: set<Path>, d: nat, probed: Option<nat>, prober: Option<nat>)
      reads this
    {
      && d < |f.daemons|
      && (f.daemons[d].socket == key(needed) ==> needed <= f.daemons[d].served)
      && (needed <= f.daemons[d].keyed ==> needed <= f.daemons[d].served)
      && (probed == Some(d) ==> needed <= f.daemons[d].served)
      && (prober == Some(d) ==> f.daemons[d].shared)
    }

    /** The client's dealings since a moment: it starts at most one daemon, for its own set, it
        bridges only to the daemon it dialled last but for a probe of the same socket, and goes
        without a bridge only if that probe told it not to share, or if it tried to start a daemon
        and could not. */
    ghost predicate Dealt(since: Moment, needed: set<Path>, r: Option<nat>, prober: Option<nat>)
      reads this
    {
      && (spawned == since.spawned || spawned == since.spawned + [needed])
      && match r
         case Some(d) =>
           && d < |f.daemons| && Probed(f.daemons[d].socket, since, prober) && dialled[|dialled| - 2].reached == r
         case None =>
           || (prober.Some? && prober.value < |f.daemons| && !f.daemons[prober.value].shared
               && Probed(f.daemons[prober.value].socket, since, prober))
           || (spawned == since.spawned + [needed] && CouldNotStart(needed, since))
    }

    /** The last thing done was to dial a socket, with success, and to probe it. */
    ghost predicate Probed(socket: Path, since: Moment, prober: Option<nat>)
      reads this
    {
      && |dialled| >= since.dialled + 2
      && dialled[|dialled| - 2].socket == socket && dialled[|dialled| - 2].reached.Some?
      && dialled[|dialled| - 1] == Dialled(socket, prober)
      && |asked| > since.asked && asked[|asked| - 1].socket == socket && asked[|asked| - 1].answeredBy == prober
    }

    ghost predicate CouldNotStart(needed: set<Path>, since: Moment)
      reads this
    {
      exists m: Moment :: Follow(since, m) && NotStarted(needed, m, 60 * SECOND)
    }

    /** What the client does with what it found, `n` dials into its log. It dials the socket
        found. A daemon that covers it is bridged to; one that does not is handed exactly the
        missing paths and, if it accepts, dialled again. A daemon of its own it starts exactly if
        nothing was found, a dial reached nobody, or the paths were refused. */
    ghost predicate Follows(found: Found, n: nat, since: Moment)
      reads this
    {
      match found
      case Nothing => handed == since.handed && spawned != since.spawned
      case Covering(socket) =>
        && handed == since.handed
        && n < |dialled| && dialled[n].socket == socket && (spawned == since.spawned <==> dialled[n].reached.Some?)
      case Partial(socket, missing) =>
        && n < |dialled| && dialled[n].socket == socket
        && match dialled[n].reached
           case None => handed == since.handed && spawned != since.spawned
           case Some(d) =>
             && |handed| == |since.handed| + 1
             && handed == since.handed + [Handed(d, Elements(missing), handed[|handed| - 1].accepted)]
             && if !handed[|handed| - 1].accepted then spawned != since.spawned
                else
                  && n + 1 < |dialled| && dialled[n + 1].socket == socket
                  && (spawned == since.spawned <==> dialled[n + 1].reached.Some?)
    }

    /** Dealings since a later moment, before which nothing was started. */
    lemma DealtSince(since: Moment, earlier: Moment, needed: set<Path>, r: Option<nat>, prober: Option<nat>)
      requires Dealt(since, needed, r, prober) && Follow(earlier, since) && earlier.spawned == since.spawned
      ensures Dealt(earlier, needed, r, prober)
    {
      if CouldNotStart(needed, since) {
        var m: Moment :| Follow(since, m) && NotStarted(needed, m, 60 * SECOND);
        assert Follow(earlier, m);
      }
    }

    /** Bridges to the daemon now live on `socket`, or starts one if nobody is. `probed` covered
        the client when it was last heard of. */
    method Bridge(needed: set<Path>, socket: Path, ghost probed: nat)
      returns (r: Option<nat>, ghost prober: Option<nat>)
      requires Valid()
      requires probed < |f.daemons| && f.daemons[probed].socket == socket
      requires f.daemons[probed].live ==> needed <= f.daemons[probed].served
      modifies this
      ensures Valid() && Evolves(old(f), f)
      ensures old(asked) <= asked
      ensures old(dialled) <= dialled && Follows(Covering(socket), |old(dialled)|, old(At()))
      ensures r.Some? ==> Bridged(needed, r.value, Some(probed), prober)
      ensures Dealt(old(At()), needed, r, prober)
    {
      ghost var first := f;
      var d := Connect(socket);
      ghost var mid := f;
      assert DaemonEvolves(first.daemons[probed], mid.daemons[probed]);
      if d.Some? {
        r, prober := OnlyShared(d.value, socket);
        EvolvesTransitive(first, mid, f);
        assert DaemonEvolves(mid.daemons[d.value], f.daemons[d.value]);
        if f.daemons[d.value].socket == key(needed) { assert f.daemons[d.value].keyed == needed; }
      } else {
        r, prober := StartOwn(needed, Some(probed));
        EvolvesTransitive(first, mid, f);
      }
    }

    /** `attach_or_start`. A client that opts out, or whose socket path is too long, serves
        privately. A bridge always lands on a daemon that covers the client, provided it is the
        daemon that answered discovery or it listens on the client's own socket. */
    method AttachOrStart(workspaces: seq<Path>, candidates: seq<Path>, noShare: bool)
      returns (r: Option<nat>, ghost probed: Option<nat>, ghost prober: Option<nat>,
               ghost scan: Scan, ghost found: Found)
      requires Valid() && StrictlySorted(candidates)
      modifies this
      ensures Valid() && Evolves(old(f), f)
      ensures noShare || !fits(key(Elements(workspaces))) ==> r.None? && f == old(f) && spawned == old(spawned)
      ensures !noShare && fits(key(Elements(workspaces))) ==>
                && Dealt(old(At()), Elements(workspaces), r, prober)
                && scan.candidates == candidates
                && AllRecorded(candidates, |candidates|, scan.answers, dialled, |old(dialled)|, asked, |old(asked)|)
                && IsBest(scan, Elements(workspaces), key(Elements(workspaces)), found)
                && Follows(found, |old(dialled)| + |candidates|, old(At()))
      ensures r.Some? ==> Bridged(Elements(workspaces), r.value, probed, prober)
    {
      hide IsBest, Evolves, Inv, Injective, Bridged, Dealt, AllRecorded;
      r, probed, prober := None, None, None;
      scan, found := Scan([], map[], (p: Path) => p), Nothing;
      EvolvesReflexive(f);
      if noShare { return; }
      var needed := set w | w in workspaces;
      var socketKey := key(needed);
      if !fits(socketKey) { return; }
      ghost var first := f;
      var choice;
      choice, scan, probed := Survey(workspaces, candidates);
      found := choice;
      ghost var mid, m, d, a := f, At(), dialled, asked;
      match choice {
        case Covering(socket) => r, prober := Bridge(needed, socket, probed.value);
        case Partial(socket, missing) => r, prober := HandOver(needed, socket, missing, probed.value);
        case Nothing => r, prober := StartOwn(needed, None);
      }
      EvolvesTransitive(first, mid, f);
      EvolvesFollow(first, mid);
      DealtSince(m, old(At()), needed, r, prober);
      RecordedStill(candidates, |candidates|, scan.answers, d, |old(dialled)|, a, |old(asked)|, dialled, asked);
    }

    /** What is known of the daemon that answered on the socket found. */
    ghost predicate Heard(found: Found, needed: set<Path>, probed: Option<nat>)
      reads this
    {
      match found
      case Nothing => probed.None?
      case Covering(socket) =>
        && probed.Some? && probed.value < |f.daemons| && f.daemons[probed.value].socket == socket
        && needed <= f.daemons[probed.value].served
      case Partial(socket, missing) =>
        && probed.Some? && probed.value < |f.daemons| && f.daemons[probed.value].socket == socket
        && forall w | w in needed && w !in missing :: w in f.daemons[probed.value].served
    }

    /** Discovery over the live answers of all the candidates. */
    method Survey(workspaces: seq<Path>, candidates: seq<Path>)
      returns (found: Found, ghost scan: Scan, ghost probed: Option<nat>)
      requires Valid() && StrictlySorted(candidates)
      modifies `f, `agenda, `dialled, `asked
      ensures Valid() && Evolves(old(f), f)
      ensures old(dialled) <= dialled && |dialled| == |old(dialled)| + |candidates|
      ensures old(asked) <= asked && |asked| == |old(asked)| + |candidates|
      ensures scan.candidates == candidates && forall p: Path :: scan.canon(p) == p
      ensures AllRecorded(candidates, |candidates|, scan.answers, dialled, |old(dialled)|, asked, |old(asked)|)
      ensures IsBest(scan, Elements(workspaces), key(Elements(workspaces)), found)
      ensures Heard(found, Elements(workspaces), probed)
    {
      var needed := set w | w in workspaces;
      var answers, source := ScanAll(candidates);
      var heard := Scan(candidates, answers, (p: Path) => p);
      scan := heard;
      IdentityScan(scan, workspaces);
      found := Discover(heard, workspaces, key(needed));
      match found
      case Covering(socket) =>
        probed := Some(source[socket]);
        IdentityScan(scan, answers[socket].workspaces);
      case Partial(socket, missing) =>
        probed := Some(source[socket]);
        IdentityScan(scan, answers[socket].workspaces);
        forall w | w in needed && w !in missing ensures w in f.daemons[source[socket]].served {
          assert w !in Elements(missing);
        }
      case Nothing =>
        probed := None;
    }

    /** The hand-off: connect, add the missing paths, and bridge on a fresh connection; if it
        fails, start a daemon for the client's own set instead. */
    method HandOver(needed: set<Path>, socket: Path, missing: seq<Path>, ghost probed: nat)
      returns (r: Option<nat>, ghost prober: Option<nat>)
      requires Valid()
      requires probed < |f.daemons| && f.daemons[probed].socket == socket
      requires forall w | w in needed && w !in missing :: w in f.daemons[probed].served
      modifies this
      ensures Valid() && Evolves(old(f), f)
      ensures old(asked) <= asked
      ensures old(dialled) <= dialled && Follows(Partial(socket, missing), |old(dialled)|, old(At()))
      ensures r.Some? ==> Bridged(needed, r.value, Some(probed), prober)
      ensures Dealt(old(At()), needed, r, prober)
    {
      hide Dealt, Evolves, Bridged;
      ghost var first := f;
      var admin := Connect(socket);
      ghost var mid := f;
      OneEvolves(first, mid, probed);
      var accepted := false;
      if admin.Some? {
        accepted := AddWorkspaces(admin.value, set w | w in missing);
        EvolvesTransitive(first, mid, f);
        OneEvolves(mid, f, probed);
        OneEvolves(mid, f, admin.value);
      }
      ghost var before, m := f, At();
      EvolvesFollow(first, before);
      if accepted {
        if f.daemons[probed].live { assert admin.value == probed; }
        r, prober := Bridge(needed, socket, probed);
      } else {
        r, prober := StartOwn(needed, Some(probed));
      }
      EvolvesTransitive(first, before, f);
      DealtSince(m, old(At()), needed, r, prober);
    }
  }

  lemma IdentityScan(scan: Scan, workspaces: seq<Path>)
    requires forall p: Path :: scan.canon(p) == p
    ensures scan.CanonicalSet(workspaces) == Elements(workspaces) == set w | w in workspaces
  {
    forall x ensures x in scan.CanonicalSet(workspaces) <==> x in workspaces {
      if x in workspaces {
        var i: nat :| i < |workspaces| && workspaces[i] == x;
        assert scan.canon(workspaces[i]) == x;
      }
    }
  }

  /** The served set as a list, in some order. */
  method Listing(served: set<Path>) returns (r: seq<Path>)
    ensures forall w <- r :: w in served
    ensures forall w <- served :: w in r
  {
    r := [];
    var rest := served;
    while rest != {}
      invariant rest <= served
      invariant forall w <- r :: w in served
      invariant forall w <- served - rest :: w in r
      decreases rest
    {
      var w :| w in rest;
      r := r + [w];
      rest := rest - {w};
    }
  }
}
