/** The cadence on which a running server fetches its clone sources (the refresh loop of
    `index_federation`, src/cli/server.rs). */
module Refresh {
  import opened Instants
  import opened Outcomes

  datatype Source = LocalClone | ShallowClone(refreshSecs: nat) | WorkspaceDir

  /** A listed repository. Its source is gone if it was removed since the listing. */
  datatype Repo = Repo(id: string, source: Option<Source>)

  datatype Fetch = Fetch(id: string, at: nat, every: nat)

  /** The loop's map of timestamps, the fetches it has started, and the clock. */
  datatype State = State(last: map<string, nat>, fetches: seq<Fetch>, clock: nat)

  /** The interval of a source in seconds, if it is fetched at all. */
  function Interval(source: Source): Option<nat> {
    match source
    case LocalClone => Some(300)
    case ShallowClone(secs) => Some(if secs > 30 then secs else 30)
    case WorkspaceDir => None
  }

  function Every(repo: Repo): Option<nat> {
    match repo.source case Some(s) => Interval(s) case None => None
  }

  /** Whole seconds between two instants. */
  function Seconds(from: nat, to: nat): nat
    requires from <= to
  {
    (to - from) / SECOND
  }

  /** One repository's turn in one tick, at the instant `now`. */
  function Visit(s: State, repo: Repo, now: nat): State
    requires s.clock <= now
    requires forall id <- s.last :: s.last[id] <= s.clock
  {
    match Every(repo)
    case None => s.(clock := now)
    case Some(every) =>
      if repo.id !in s.last then s.(last := s.last[repo.id := now], clock := now)
      else if Seconds(s.last[repo.id], now) < every then s.(clock := now)
      else State(s.last[repo.id := now], s.fetches + [Fetch(repo.id, now, every)], now)
  }

  ghost predicate Timely(s: State) {
    forall id <- s.last :: s.last[id] <= s.clock
  }

  ghost predicate Ordered(clock: nat, times: seq<nat>) {
    && (forall i | 0 <= i < |times| :: clock <= times[i])
    && (forall i, j | 0 <= i < j < |times| :: times[i] <= times[j])
  }

  function VisitAll(s: State, repos: seq<Repo>, times: seq<nat>): (r: State)
    requires Timely(s) && |repos| == |times| && Ordered(s.clock, times)
    ensures Timely(r) && s.clock <= r.clock
    ensures |times| > 0 ==> r.clock == times[|times| - 1]
    ensures |times| == 0 ==> r == s
    decreases |repos|
  {
    if repos == [] then s
    else
      var s' := VisitAll(s, repos[..|repos| - 1], times[..|times| - 1]);
      Visit(s', repos[|repos| - 1], times[|times| - 1])
  }

  /** The timestamps of repositories that are still live. */
  function Retain(last: map<string, nat>, live: set<string>): map<string, nat> {
    map id | id in last && id in live :: last[id]
  }

  /** One tick: `live` is the listing that prunes the map, `repos` the listing that is walked
      right after it, and `times` the clock readings. */
  datatype Tick = Tick(live: set<string>, repos: seq<Repo>, times: seq<nat>)

  ghost predicate TickOk(s: State, t: Tick) {
    |t.repos| == |t.times| && Ordered(s.clock, t.times)
  }

  function AfterTick(s: State, t: Tick): (r: State)
    requires Timely(s) && TickOk(s, t)
    ensures Timely(r) && s.clock <= r.clock
  {
    VisitAll(s.(last := Retain(s.last, t.live)), t.repos, t.times)
  }

  ghost predicate Runs(s: State, ticks: seq<Tick>)
    requires Timely(s)
    decreases |ticks|
  {
    ticks == [] || (TickOk(s, ticks[0]) && Runs(AfterTick(s, ticks[0]), ticks[1..]))
  }

  ghost function AfterAll(s: State, ticks: seq<Tick>): (r: State)
    requires Timely(s) && Runs(s, ticks)
    ensures Timely(r)
    decreases |ticks|
  {
    if ticks == [] then s else AfterAll(AfterTick(s, ticks[0]), ticks[1..])
  }

  const FRESH: State := State(map[], [], 0)

  // ---------------------------------------------------------------- cadence

  /** Any two fetches of one repository are the later one's interval apart, and no interval is
      under thirty seconds. */
  ghost predicate Paced(fetches: seq<Fetch>) {
    && (forall i | 0 <= i < |fetches| :: fetches[i].every >= 30)
    && (forall i, j | 0 <= i < j < |fetches| && fetches[i].id == fetches[j].id ::
          fetches[i].at <= fetches[j].at && Seconds(fetches[i].at, fetches[j].at) >= fetches[j].every)
  }

  /** A remembered timestamp is no older than any fetch of that repository. */
  ghost predicate Inv(s: State) {
    && Timely(s) && Paced(s.fetches)
    && forall i | 0 <= i < |s.fetches| ::
         s.fetches[i].at <= s.clock && (s.fetches[i].id in s.last ==> s.fetches[i].at <= s.last[s.fetches[i].id])
  }

  lemma LaterStill(a: nat, b: nat, c: nat, every: nat)
    requires a <= b <= c && Seconds(b, c) >= every
    ensures Seconds(a, c) >= every
  {
    assert c - a >= c - b;
  }

  lemma VisitKeepsInv(s: State, repo: Repo, now: nat)
    requires Inv(s) && s.clock <= now
    ensures Inv(Visit(s, repo, now))
  {
    var s' := Visit(s, repo, now);
    if |s'.fetches| > |s.fetches| {
      var f := s'.fetches[|s.fetches|];
      forall i | 0 <= i < |s.fetches| && s.fetches[i].id == f.id
        ensures Seconds(s.fetches[i].at, now) >= f.every
      {
        LaterStill(s.fetches[i].at, s.last[f.id], now, f.every);
      }
    }
  }

  lemma {:induction false} VisitsKeepInv(s: State, repos: seq<Repo>, times: seq<nat>)
    requires Inv(s) && |repos| == |times| && Ordered(s.clock, times)
    ensures Inv(VisitAll(s, repos, times))
    decreases |repos|
  {
    if repos != [] {
      var n := |repos| - 1;
      VisitsKeepInv(s, repos[..n], times[..n]);
      VisitKeepsInv(VisitAll(s, repos[..n], times[..n]), repos[n], times[n]);
    }
  }

  lemma TickKeepsInv(s: State, t: Tick)
    requires Inv(s) && TickOk(s, t)
    ensures Inv(AfterTick(s, t))
  {
    VisitsKeepInv(s.(last := Retain(s.last, t.live)), t.repos, t.times);
  }

  lemma {:induction false} RunKeepsInv(s: State, ticks: seq<Tick>)
    requires Inv(s) && Runs(s, ticks)
    ensures Inv(AfterAll(s, ticks))
    decreases |ticks|
  {
    if ticks != [] {
      TickKeepsInv(s, ticks[0]);
      RunKeepsInv(AfterTick(s, ticks[0]), ticks[1..]);
    }
  }

  /** Over any sequence of ticks, with repositories added, removed and added again at will and
      their intervals changing, the fetches are paced. */
  lemma FetchesArePaced(ticks: seq<Tick>)
    requires Runs(FRESH, ticks)
    ensures Paced(AfterAll(FRESH, ticks).fetches)
  {
    RunKeepsInv(FRESH, ticks);
  }

  // ---------------------------------------------------------------- what one tick does

  predicate Fetchable(repos: seq<Repo>, id: string) {
    exists i :: 0 <= i < |repos| && repos[i].id == id && Every(repos[i]).Some?
  }

  predicate DistinctIds(repos: seq<Repo>) {
    forall i, j | 0 <= i < j < |repos| :: repos[i].id != repos[j].id
  }

  /** After a walk the map holds what it held plus every fetchable repository walked. */
  lemma {:induction false} KeysAfterVisits(s: State, repos: seq<Repo>, times: seq<nat>)
    requires Timely(s) && |repos| == |times| && Ordered(s.clock, times)
    ensures forall id :: id in VisitAll(s, repos, times).last <==> id in s.last || Fetchable(repos, id)
    decreases |repos|
  {
    if repos != [] {
      var n := |repos| - 1;
      KeysAfterVisits(s, repos[..n], times[..n]);
      forall id
        ensures Fetchable(repos, id) <==> Fetchable(repos[..n], id) || (repos[n].id == id && Every(repos[n]).Some?)
      {
        if Fetchable(repos[..n], id) {
          var i :| 0 <= i < n && repos[..n][i].id == id && Every(repos[..n][i]).Some?;
          assert repos[i].id == id;
        }
        if Fetchable(repos, id) {
          var i :| 0 <= i < |repos| && repos[i].id == id && Every(repos[i]).Some?;
          if i < n { assert repos[..n][i].id == id; }
        }
      }
    }
  }

  /** After a tick the map holds exactly the still-live ones it knew and the fetchable ones it
      walked: only live ones, precisely if the second listing has no fetchable repository that
      the first did not have. */
  lemma MapHoldsOnlyLive(s: State, t: Tick)
    requires Timely(s) && TickOk(s, t)
    ensures forall id :: id in AfterTick(s, t).last <==> (id in s.last && id in t.live) || Fetchable(t.repos, id)
    ensures AfterTick(s, t).last.Keys <= t.live <==> forall id :: Fetchable(t.repos, id) ==> id in t.live
  {
    KeysAfterVisits(s.(last := Retain(s.last, t.live)), t.repos, t.times);
  }

  /** A repository that appears between the two listings of a tick is in the map after it. */
  lemma NewcomerRemembered(at: nat)
    ensures var t := Tick({}, [Repo("new", Some(LocalClone))], [at]);
            && TickOk(FRESH, t)
            && AfterTick(FRESH, t).last.Keys == {"new"} && !(AfterTick(FRESH, t).last.Keys <= t.live)
  {
    var t := Tick({}, [Repo("new", Some(LocalClone))], [at]);
    MapHoldsOnlyLive(FRESH, t);
    assert Fetchable(t.repos, "new") by { assert t.repos[0].id == "new"; }
  }

  /** Exactly the repositories whose turn has come are fetched: known before the tick, still
      live, and last fetched or first seen at least an interval ago. A first sighting, also
      after a removal, never fetches. */
  lemma FetchedIffDue(s: State, t: Tick, k: nat)
    requires Timely(s) && TickOk(s, t) && DistinctIds(t.repos) && k < |t.repos|
    ensures Every(t.repos[k]).Some? ==>
              (Fetched(s, AfterTick(s, t), t.repos[k].id) <==>
                 && t.repos[k].id in s.last && t.repos[k].id in t.live
                 && Seconds(s.last[t.repos[k].id], t.times[k]) >= Every(t.repos[k]).value)
    ensures Every(t.repos[k]).None? ==> !Fetched(s, AfterTick(s, t), t.repos[k].id)
  {
    WalkFetches(s.(last := Retain(s.last, t.live)), t.repos, t.times, k);
  }

  /** In figures: a local clone is fetched every five minutes, a shallow one as often as it is
      configured to be but not more than every thirty seconds, and nothing else at all. */
  lemma FetchedOnSchedule(s: State, t: Tick, k: nat)
    requires Timely(s) && TickOk(s, t) && DistinctIds(t.repos) && k < |t.repos|
    ensures Fetched(s, AfterTick(s, t), t.repos[k].id) <==>
            && t.repos[k].id in s.last && t.repos[k].id in t.live
            && match t.repos[k].source
               case None => false
               case Some(WorkspaceDir) => false
               case Some(LocalClone) => t.times[k] - s.last[t.repos[k].id] >= 300_000_000_000
               case Some(ShallowClone(secs)) =>
                 && t.times[k] - s.last[t.repos[k].id] >= 30_000_000_000
                 && t.times[k] - s.last[t.repos[k].id] >= secs * 1_000_000_000
  {
    FetchedIffDue(s, t, k);
    hide Fetched, VisitAll, AfterTick;
    if t.repos[k].id in s.last {
      var elapsed := t.times[k] - s.last[t.repos[k].id];
      match t.repos[k].source
      case Some(ShallowClone(secs)) =>
        WholeSeconds(elapsed, secs);
        WholeSeconds(elapsed, 30);
      case _ => WholeSeconds(elapsed, 300);
    }
  }

  lemma WholeSeconds(elapsed: nat, n: nat)
    ensures elapsed / SECOND >= n <==> elapsed >= n * 1_000_000_000
  {
  }

  /** The fetch log has grown by a fetch of `id`. */
  ghost predicate Fetched(s: State, s': State, id: string) {
    exists i :: |s.fetches| <= i < |s'.fetches| && s'.fetches[i].id == id
  }

  lemma {:induction false} WalkFetches(s: State, repos: seq<Repo>, times: seq<nat>, k: nat)
    requires Timely(s) && |repos| == |times| && Ordered(s.clock, times) && DistinctIds(repos) && k < |repos|
    ensures var id := repos[k].id;
            Fetched(s, VisitAll(s, repos, times), id) <==>
              Every(repos[k]).Some? && id in s.last && Seconds(s.last[id], times[k]) >= Every(repos[k]).value
    decreases |repos|
  {
    var n := |repos| - 1;
    var id := repos[k].id;
    var s' := VisitAll(s, repos[..n], times[..n]);
    var s'' := VisitAll(s, repos, times);
    if k < n {
      WalkFetches(s, repos[..n], times[..n], k);
      LogGrows(s, repos[..n], times[..n]);
      assert Fetched(s, s'', id) <==> Fetched(s, s', id) by { SameFetches(s, s', s'', id); }
    } else {
      Untouched(s, repos[..n], times[..n], id);
      LogGrows(s, repos[..n], times[..n]);
      if |s''.fetches| > |s'.fetches| { assert s''.fetches[|s'.fetches|].id == id; }
    }
  }

  lemma SameFetches(s: State, s': State, s'': State, id: string)
    requires |s.fetches| <= |s'.fetches| && s'.fetches <= s''.fetches
    requires forall i | |s'.fetches| <= i < |s''.fetches| :: s''.fetches[i].id != id
    ensures Fetched(s, s'', id) <==> Fetched(s, s', id)
  {
    if Fetched(s, s', id) {
      var i :| |s.fetches| <= i < |s'.fetches| && s'.fetches[i].id == id;
      assert s''.fetches[i].id == id;
    }
  }

  lemma {:induction false} LogGrows(s: State, repos: seq<Repo>, times: seq<nat>)
    requires Timely(s) && |repos| == |times| && Ordered(s.clock, times)
    ensures s.fetches <= VisitAll(s, repos, times).fetches
    decreases |repos|
  {
    if repos != [] { LogGrows(s, repos[..|repos| - 1], times[..|times| - 1]); }
  }

  /** Walking other repositories neither fetches this one nor moves its timestamp. */
  lemma {:induction false} Untouched(s: State, repos: seq<Repo>, times: seq<nat>, id: string)
    requires Timely(s) && |repos| == |times| && Ordered(s.clock, times)
    requires forall i | 0 <= i < |repos| :: repos[i].id != id
    ensures var s' := VisitAll(s, repos, times);
            && !Fetched(s, s', id)
            && (id in s'.last <==> id in s.last) && (id in s.last ==> s'.last[id] == s.last[id])
    decreases |repos|
  {
    if repos != [] {
      var n := |repos| - 1;
      Untouched(s, repos[..n], times[..n], id);
      LogGrows(s, repos[..n], times[..n]);
      SameFetches(s, VisitAll(s, repos[..n], times[..n]), VisitAll(s, repos, times), id);
    }
  }

  // ---------------------------------------------------------------- the code

  class Refresher {
    var lastFetch: map<string, nat>
    var clock: nat
    ghost var fetches: seq<Fetch>

    ghost function View(): State
      reads this
    {
      State(lastFetch, fetches, clock)
    }

    constructor ()
      ensures View() == FRESH
    {
      lastFetch, clock, fetches := map[], 0, [];
    }

    /** A reading of the clock, no earlier than the last one. */
    method Now() returns (now: nat)
      ensures now >= clock
    {
      var elapsed :| elapsed >= 0;
      now := clock + elapsed;
    }

    /** One turn of the loop: drop the repositories that are gone, then walk the listing. */
    method RunTick(live: set<string>, repos: seq<Repo>) returns (ghost times: seq<nat>)
      requires Timely(View())
      modifies this
      ensures TickOk(old(View()), Tick(live, repos, times))
      ensures View() == AfterTick(old(View()), Tick(live, repos, times))
    {
      times := [];
      lastFetch := Retain(lastFetch, live);
      ghost var start := View();
      for n := 0 to |repos|
        invariant |times| == n && Ordered(start.clock, times)
        invariant View() == VisitAll(start, repos[..n], times)
      {
        var now := Now();
        ghost var before := View();
        VisitRepo(repos[n], now);
        VisitNext(start, repos, n, times, now);
        times := times + [now];
      }
      assert repos[..|repos|] == repos;
    }

    /** One repository's turn. */
    method VisitRepo(repo: Repo, now: nat)
      requires Timely(View()) && clock <= now
      modifies this
      ensures View() == Visit(old(View()), repo, now)
    {
      clock := now;
      var source := repo.source;
      if source.None? { return; }
      var interval := Interval(source.value);
      if interval.None? { return; }
      if repo.id !in lastFetch {
        lastFetch := lastFetch[repo.id := now];
        return;
      }
      if (now - lastFetch[repo.id]) / SECOND < interval.value { return; }
      fetches := fetches + [Fetch(repo.id, now, interval.value)];
      lastFetch := lastFetch[repo.id := now];
    }
  }

  lemma VisitNext(s: State, repos: seq<Repo>, n: nat, times: seq<nat>, now: nat)
    requires Timely(s) && n < |repos| && |times| == n && Ordered(s.clock, times)
    requires VisitAll(s, repos[..n], times).clock <= now
    ensures Ordered(s.clock, times + [now])
    ensures VisitAll(s, repos[..n + 1], times + [now]) == Visit(VisitAll(s, repos[..n], times), repos[n], now)
  {
    assert repos[..n + 1][..n] == repos[..n];
    assert (times + [now])[..n] == times;
  }
}
