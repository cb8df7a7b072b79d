/** The arithmetic of the sidecar's respawn budget (src/sidecar.rs): at most three attempts in
    any thirty seconds. */
module RespawnBudget {
  import opened Instants

  const RESPAWN_WINDOW: nat := 30 * SECOND
  const MAX_RESPAWNS_PER_WINDOW: nat := 3

  /** The attempts of a run, oldest first: every fourth one is more than a window later. */
  predicate Budgeted(attempts: seq<nat>) {
    && (forall i, j | 0 <= i <= j < |attempts| :: attempts[i] <= attempts[j])
    && (forall i | 0 <= i < |attempts| - MAX_RESPAWNS_PER_WINDOW ::
          attempts[i + MAX_RESPAWNS_PER_WINDOW] - attempts[i] > RESPAWN_WINDOW)
  }

  /** How many attempts fall between two instants, both included. */
  function CountBetween(attempts: seq<nat>, from: int, to: int): nat {
    if attempts == [] then 0
    else (if from <= attempts[0] <= to then 1 else 0) + CountBetween(attempts[1..], from, to)
  }

  /** The attempts no older than the window, as seen at `now`. */
  function Recent(attempts: seq<nat>, now: nat): nat {
    CountBetween(attempts, now - RESPAWN_WINDOW, now)
  }

  /** In figures. */
  lemma LastThirtySeconds(attempts: seq<nat>, now: nat)
    ensures Recent(attempts, now) == CountBetween(attempts, now - 30 * SECOND, now)
    ensures MAX_RESPAWNS_PER_WINDOW == 3
  {
  }

  /** The history queue after the loop that pops expired entries off its front. */
  function Pruned(history: seq<nat>, now: nat): seq<nat> {
    if history != [] && now - history[0] > RESPAWN_WINDOW then Pruned(history[1..], now)
    else history
  }

  lemma {:induction false} PrunedFront(history: seq<nat>, now: nat)
    ensures Pruned(history, now) != [] ==> now - Pruned(history, now)[0] <= RESPAWN_WINDOW
  {
    if history != [] && now - history[0] > RESPAWN_WINDOW { PrunedFront(history[1..], now); }
  }

  lemma {:induction false} CountAll(attempts: seq<nat>, from: int, to: int)
    requires forall i | 0 <= i < |attempts| :: from <= attempts[i] <= to
    ensures CountBetween(attempts, from, to) == |attempts|
  {
    if attempts != [] { CountAll(attempts[1..], from, to); }
  }

  lemma {:induction false} CountLate(attempts: seq<nat>, from: int, to: int)
    requires forall i | 0 <= i < |attempts| :: to < attempts[i]
    ensures CountBetween(attempts, from, to) == 0
  {
    if attempts != [] { CountLate(attempts[1..], from, to); }
  }

  /** Any closed window of thirty seconds, wherever it starts, holds at most three attempts. */
  lemma {:induction false} WindowHoldsThree(attempts: seq<nat>, from: int)
    requires Budgeted(attempts)
    ensures CountBetween(attempts, from, from + RESPAWN_WINDOW) <= MAX_RESPAWNS_PER_WINDOW
  {
    var to := from + RESPAWN_WINDOW;
    if attempts == [] {
    } else if attempts[0] < from || to < attempts[0] {
      TailBudgeted(attempts);
      WindowHoldsThree(attempts[1..], from);
    } else {
      CountAtMost(attempts, from, to, MAX_RESPAWNS_PER_WINDOW);
    }
  }

  lemma TailBudgeted(attempts: seq<nat>)
    requires Budgeted(attempts) && attempts != []
    ensures Budgeted(attempts[1..])
  {
    var rest := attempts[1..];
    forall i | 0 <= i < |rest| - MAX_RESPAWNS_PER_WINDOW
      ensures rest[i + MAX_RESPAWNS_PER_WINDOW] - rest[i] > RESPAWN_WINDOW
    {
      assert attempts[(i + 1) + MAX_RESPAWNS_PER_WINDOW] - attempts[i + 1] > RESPAWN_WINDOW;
    }
  }

  lemma {:induction false} CountAtMost(attempts: seq<nat>, from: int, to: int, k: nat)
    requires forall i, j | 0 <= i <= j < |attempts| :: attempts[i] <= attempts[j]
    requires k < |attempts| ==> to < attempts[k]
    ensures CountBetween(attempts, from, to) <= k
    decreases |attempts|
  {
    if attempts == [] {
    } else if k == 0 {
      CountLate(attempts, from, to);
    } else {
      CountAtMost(attempts[1..], from, to, k - 1);
    }
  }

  /** Every third attempt is at least one more window away from the first. */
  lemma {:induction false} ThirdsAreWindowsApart(attempts: seq<nat>, q: nat)
    requires Budgeted(attempts) && 3 * q < |attempts|
    ensures attempts[3 * q] >= attempts[0] + q * RESPAWN_WINDOW
  {
    if q > 0 {
      ThirdsAreWindowsApart(attempts, q - 1);
      assert attempts[3 * (q - 1) + MAX_RESPAWNS_PER_WINDOW] - attempts[3 * (q - 1)] > RESPAWN_WINDOW;
    }
  }

  /** Over a whole run, the attempts made up to time T number at most 3 * (T / 30s + 1). */
  lemma TotalAttempts(attempts: seq<nat>, T: nat)
    requires Budgeted(attempts)
    requires forall i | 0 <= i < |attempts| :: attempts[i] <= T
    ensures |attempts| <= 3 * (T / RESPAWN_WINDOW + 1)
  {
    if attempts != [] {
      var q := (|attempts| - 1) / 3;
      ThirdsAreWindowsApart(attempts, q);
      assert q * RESPAWN_WINDOW <= T;
    }
  }

  /** The queue holds the newest attempts; everything older had expired when last pruned. */
  ghost predicate Remembers(history: seq<nat>, attempts: seq<nat>, now: nat) {
    && |history| <= |attempts|
    && history == attempts[|attempts| - |history|..]
    && (forall i, j | 0 <= i <= j < |attempts| :: attempts[i] <= attempts[j])
    && (forall i | 0 <= i < |attempts| :: attempts[i] <= now)
    && (forall i | 0 <= i < |attempts| - |history| :: now - attempts[i] > RESPAWN_WINDOW)
  }

  /** After pruning, the queue's length is exactly the number of attempts in the last thirty
      seconds, so the refusal test counts what it is meant to count. */
  lemma {:induction false} PrunedCountsRecent(history: seq<nat>, attempts: seq<nat>, now: nat)
    requires Remembers(history, attempts, now)
    ensures Remembers(Pruned(history, now), attempts, now)
    ensures |Pruned(history, now)| == Recent(attempts, now)
    decreases |history|
  {
    if history != [] && now - history[0] > RESPAWN_WINDOW {
      PrunedCountsRecent(history[1..], attempts, now);
    } else {
      var expired := attempts[..|attempts| - |history|];
      assert attempts == expired + history;
      CountExpired(expired, history, now);
      CountAll(history, now - RESPAWN_WINDOW, now);
    }
  }

  lemma {:induction false} CountExpired(expired: seq<nat>, history: seq<nat>, now: nat)
    requires forall i | 0 <= i < |expired| :: now - expired[i] > RESPAWN_WINDOW
    ensures Recent(expired + history, now) == Recent(history, now)
  {
    if expired == [] {
      assert expired + history == history;
    } else {
      assert (expired + history)[1..] == expired[1..] + history;
      CountExpired(expired[1..], history, now);
    }
  }

  lemma RemembersLater(history: seq<nat>, attempts: seq<nat>, before: nat, now: nat)
    requires Remembers(history, attempts, before) && before <= now
    ensures Remembers(history, attempts, now)
  {
  }

  /** The queue still knows every attempt that matters, even before it is pruned again. */
  lemma RecentOfHistory(history: seq<nat>, attempts: seq<nat>, now: nat)
    requires Budgeted(attempts) && Remembers(history, attempts, now)
    ensures Recent(history, now) == Recent(attempts, now) <= MAX_RESPAWNS_PER_WINDOW
  {
    var expired := attempts[..|attempts| - |history|];
    assert attempts == expired + history;
    CountExpired(expired, history, now);
    WindowHoldsThree(attempts, now - RESPAWN_WINDOW);
  }

  /** Recording one more attempt when fewer than three are recent keeps the run budgeted. */
  lemma RecordKeepsBudget(history: seq<nat>, attempts: seq<nat>, now: nat)
    requires Budgeted(attempts) && Remembers(history, attempts, now)
    requires history != [] ==> now - history[0] <= RESPAWN_WINDOW
    requires |history| < MAX_RESPAWNS_PER_WINDOW
    ensures Budgeted(attempts + [now])
    ensures Remembers(history + [now], attempts + [now], now)
  {
    var n, h := |attempts|, |history|;
    if n >= 3 {
      assert n - 3 < n - h;
      assert now - attempts[n - 3] > RESPAWN_WINDOW;
    }
    AppendKeepsBudget(attempts, now);
    RemembersAppend(history, attempts, now);
  }

  lemma RemembersAppend(history: seq<nat>, attempts: seq<nat>, now: nat)
    requires Remembers(history, attempts, now)
    ensures Remembers(history + [now], attempts + [now], now)
  {
    assert (attempts + [now])[|attempts| - |history|..] == history + [now];
  }

  /** The budget check as a whole, at an instant no earlier than the last one. */
  lemma Admission(history: seq<nat>, attempts: seq<nat>, before: nat, now: nat)
    requires Budgeted(attempts) && Remembers(history, attempts, before) && before <= now
    ensures var kept := Pruned(history, now);
            && |kept| == Recent(attempts, now)
            && Remembers(kept, attempts, now)
            && (|kept| < MAX_RESPAWNS_PER_WINDOW ==>
                  Budgeted(attempts + [now]) && Remembers(kept + [now], attempts + [now], now))
  {
    assert Remembers(history, attempts, now);
    PrunedCountsRecent(history, attempts, now);
    PrunedFront(history, now);
    var kept := Pruned(history, now);
    if |kept| < MAX_RESPAWNS_PER_WINDOW { RecordKeepsBudget(kept, attempts, now); }
  }

  /** Three recent attempts, and only they, make a further one break the budget. */
  lemma FourthWouldBreakBudget(attempts: seq<nat>, now: nat)
    requires Budgeted(attempts)
    requires forall i | 0 <= i < |attempts| :: attempts[i] <= now
    ensures Budgeted(attempts + [now]) <==> Recent(attempts, now) < MAX_RESPAWNS_PER_WINDOW
  {
    var n := |attempts|;
    if n >= 3 && now - attempts[n - 3] <= RESPAWN_WINDOW {
      ThirdLastRecent(attempts, now);
    } else {
      ThirdLastExpired(attempts, now);
    }
  }

  lemma ThirdLastRecent(attempts: seq<nat>, now: nat)
    requires Budgeted(attempts) && |attempts| >= 3 && now - attempts[|attempts| - 3] <= RESPAWN_WINDOW
    requires forall i | 0 <= i < |attempts| :: attempts[i] <= now
    ensures Recent(attempts, now) >= MAX_RESPAWNS_PER_WINDOW && !Budgeted(attempts + [now])
  {
    var i := |attempts| - 3;
    var all := attempts + [now];
    assert all[i + MAX_RESPAWNS_PER_WINDOW] - all[i] <= RESPAWN_WINDOW;
    var last := attempts[i..];
    assert attempts == attempts[..i] + last;
    CountAll(last, now - RESPAWN_WINDOW, now);
    CountSplit(attempts[..i], last, now - RESPAWN_WINDOW, now);
  }

  lemma ThirdLastExpired(attempts: seq<nat>, now: nat)
    requires Budgeted(attempts)
    requires forall i | 0 <= i < |attempts| :: attempts[i] <= now
    requires |attempts| >= 3 ==> now - attempts[|attempts| - 3] > RESPAWN_WINDOW
    ensures Recent(attempts, now) < MAX_RESPAWNS_PER_WINDOW && Budgeted(attempts + [now])
  {
    var k := if |attempts| >= 3 then |attempts| - 2 else 0;
    assert attempts == attempts[..k] + attempts[k..];
    CountExpired(attempts[..k], attempts[k..], now);
    CountShort(attempts[k..], now - RESPAWN_WINDOW, now);
    AppendKeepsBudget(attempts, now);
  }

  lemma AppendKeepsBudget(attempts: seq<nat>, now: nat)
    requires Budgeted(attempts)
    requires forall i | 0 <= i < |attempts| :: attempts[i] <= now
    requires |attempts| >= 3 ==> now - attempts[|attempts| - 3] > RESPAWN_WINDOW
    ensures Budgeted(attempts + [now])
  {
    var all := attempts + [now];
    forall i | 0 <= i < |all| - MAX_RESPAWNS_PER_WINDOW
      ensures all[i + MAX_RESPAWNS_PER_WINDOW] - all[i] > RESPAWN_WINDOW
    {
      if i + MAX_RESPAWNS_PER_WINDOW < |attempts| {
        assert attempts[i + MAX_RESPAWNS_PER_WINDOW] - attempts[i] > RESPAWN_WINDOW;
      }
    }
  }

  lemma {:induction false} CountShort(attempts: seq<nat>, from: int, to: int)
    ensures CountBetween(attempts, from, to) <= |attempts|
  {
    if attempts != [] { CountShort(attempts[1..], from, to); }
  }

  lemma {:induction false} CountSplit(a: seq<nat>, b: seq<nat>, from: int, to: int)
    ensures CountBetween(a + b, from, to) == CountBetween(a, from, to) + CountBetween(b, from, to)
  {
    if a == [] {
      assert a + b == b;
    } else {
      assert (a + b)[1..] == a[1..] + b;
      CountSplit(a[1..], b, from, to);
    }
  }
}
