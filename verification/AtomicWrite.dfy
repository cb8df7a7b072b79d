/** Atomic publication of a file through a temp file and a rename (src/cli/io.rs).

    The state is one directory with one target file in it, and any number of writers of that
    target, in any number of processes that may crash at any moment and whose process ids may
    be used again. Every access to the directory is a separate step. */
module AtomicWrite {
  import opened Names

  type Bytes = seq<nat>

  datatype Phase =
    | Open          // the caller is still writing
    | Committing    // `commit` has taken the buffered writer
    | Synced        // flushed and fsynced, about to rename
    | Published
    | CommitFailed
    | Dropped       // dropped without `commit`
    | Crashed       // its process died

  datatype Writer = Writer(pid: nat, counter: nat, phase: Phase, accepted: Bytes, buffered: Bytes)

  datatype State = State(
    dest: string,
    files: map<string, Bytes>,
    counters: map<nat, nat>,    // the per-process counter of temp names
    writers: seq<Writer>,
    published: seq<nat>)        // which writers renamed their file over the target, in order

  datatype Step =
    | Create(pid: nat)
    | CreateFails(pid: nat)
    | Accept(writer: nat, chunk: Bytes)
    | Spill(writer: nat, count: nat)
    | BeginCommit(writer: nat)
    | Sync(writer: nat)
    | Rename(writer: nat)
    | Fail(writer: nat)
    | Drop(writer: nat)
    | Crash(pid: nat)

  predicate Live(w: Writer) {
    w.phase.Open? || w.phase.Committing? || w.phase.Synced?
  }

  function Tmp(s: State, w: Writer): string {
    TempName(s.dest, w.pid, w.counter)
  }

  function NextCounter(s: State, pid: nat): nat {
    if pid in s.counters then s.counters[pid] else 0
  }

  predicate Enabled(s: State, step: Step) {
    match step
    case Create(_) => true
    case CreateFails(_) => true
    case Accept(w, _) => w < |s.writers| && s.writers[w].phase.Open?
    case Spill(w, n) =>
      && w < |s.writers| && (s.writers[w].phase.Open? || s.writers[w].phase.Committing?)
      && n <= |s.writers[w].buffered| && Tmp(s, s.writers[w]) in s.files
    case BeginCommit(w) => w < |s.writers| && s.writers[w].phase.Open?
    case Sync(w) => w < |s.writers| && s.writers[w].phase.Committing? && s.writers[w].buffered == []
    case Rename(w) => w < |s.writers| && s.writers[w].phase.Synced? && Tmp(s, s.writers[w]) in s.files
    case Fail(w) => w < |s.writers| && (s.writers[w].phase.Committing? || s.writers[w].phase.Synced?)
    case Drop(w) => w < |s.writers| && s.writers[w].phase.Open?
    case Crash(_) => true
  }

  function SetPhase(s: State, w: nat, phase: Phase): State
    requires w < |s.writers|
  {
    s.(writers := s.writers[w := s.writers[w].(phase := phase)])
  }

  /** The writers once a process has died. */
  function AfterCrash(writers: seq<Writer>, pid: nat): (r: seq<Writer>)
    ensures |r| == |writers|
  {
    seq(|writers|, i requires 0 <= i < |writers| =>
      if writers[i].pid == pid && Live(writers[i]) then writers[i].(phase := Crashed) else writers[i])
  }

  function Take(s: State, step: Step): State
    requires Enabled(s, step)
  {
    match step
    case Create(pid) =>
      var w := Writer(pid, NextCounter(s, pid), Open, [], []);
      s.(files := s.files[Tmp(s, w) := []],
         counters := s.counters[pid := NextCounter(s, pid) + 1],
         writers := s.writers + [w])
    case CreateFails(pid) =>
      s.(counters := s.counters[pid := NextCounter(s, pid) + 1])
    case Accept(w, chunk) =>
      s.(writers := s.writers[w := s.writers[w].(accepted := s.writers[w].accepted + chunk,
                                                  buffered := s.writers[w].buffered + chunk)])
    case Spill(w, n) =>
      var tmp := Tmp(s, s.writers[w]);
      s.(files := s.files[tmp := s.files[tmp] + s.writers[w].buffered[..n]],
         writers := s.writers[w := s.writers[w].(buffered := s.writers[w].buffered[n..])])
    case BeginCommit(w) => SetPhase(s, w, Committing)
    case Sync(w) => SetPhase(s, w, Synced)
    case Rename(w) =>
      var tmp := Tmp(s, s.writers[w]);
      SetPhase(s, w, Published).(files := (s.files - {tmp})[s.dest := s.files[tmp]],
                                 published := s.published + [w])
    case Fail(w) => SetPhase(s, w, CommitFailed)
    case Drop(w) => SetPhase(s, w, Dropped).(files := s.files - {Tmp(s, s.writers[w])})
    case Crash(pid) => s.(writers := AfterCrash(s.writers, pid), counters := s.counters - {pid})
  }

  predicate Runs(s: State, steps: seq<Step>)
    decreases |steps|
  {
    steps == [] || (Enabled(s, steps[0]) && Runs(Take(s, steps[0]), steps[1..]))
  }

  function After(s: State, steps: seq<Step>): State
    requires Runs(s, steps)
    decreases |steps|
  {
    if steps == [] then s else After(Take(s, steps[0]), steps[1..])
  }

  /** Before the first writer: any files at all, even leftovers of crashed writers. */
  predicate Init(s: State) {
    s.counters == map[] && s.writers == [] && s.published == []
  }

  // ---------------------------------------------------------------- the invariant

  /** A live writer's temp file holds what the caller wrote, up to what is still buffered. */
  ghost predicate WriterOk(s: State, w: nat)
    requires w < |s.writers|
  {
    var x := s.writers[w];
    && x.counter < NextCounter(s, x.pid)
    && Tmp(s, x) in s.files
    && s.files[Tmp(s, x)] + x.buffered == x.accepted
    && (x.phase.Synced? ==> x.buffered == [])
  }

  /** The target holds what the last rename put there. */
  ghost predicate TargetOk(s0: State, s: State) {
    if s.published == [] then (s.dest in s.files <==> s.dest in s0.files)
                              && (s.dest in s.files ==> s.files[s.dest] == s0.files[s.dest])
    else
      var last := s.published[|s.published| - 1];
      last < |s.writers| && s.dest in s.files && s.files[s.dest] == s.writers[last].accepted
  }

  /** Why a file other than the target may be there. */
  ghost predicate Explained(s0: State, s: State, name: string) {
    name in s0.files || (exists w :: 0 <= w < |s.writers| && Leaves(s.writers[w]) && Tmp(s, s.writers[w]) == name)
  }

  /** Writers that are not over, and those that may leave their temp file behind. */
  predicate Leaves(w: Writer) {
    Live(w) || w.phase.CommitFailed? || w.phase.Crashed?
  }

  ghost predicate Inv(s0: State, s: State) {
    && s.dest == s0.dest
    && LiveOk(s)
    && TargetOk(s0, s)
    && (forall i | 0 <= i < |s.published| :: s.published[i] < |s.writers| && s.writers[s.published[i]].phase.Published?)
    && AllExplained(s0, s)
    && AllKept(s0, s)
  }

  /** Live writers' files are as they left them, and no two of them share one. */
  ghost predicate LiveOk(s: State) {
    && (forall w | 0 <= w < |s.writers| && Live(s.writers[w]) :: WriterOk(s, w))
    && (forall w, x | 0 <= w < x < |s.writers| && Live(s.writers[w]) && Live(s.writers[x]) ::
          Tmp(s, s.writers[w]) != Tmp(s, s.writers[x]))
  }

  ghost predicate AllExplained(s0: State, s: State) {
    forall name | name in s.files && name != s.dest :: Explained(s0, s, name)
  }

  /** Files that were there before and are nobody's temp file are still there, unchanged. */
  ghost predicate AllKept(s0: State, s: State) {
    forall name | name in s0.files && name != s.dest && NobodysTemp(s, name) ::
      name in s.files && s.files[name] == s0.files[name]
  }

  /** Not the temp name of any writer there ever was. */
  ghost predicate NobodysTemp(s: State, name: string) {
    forall w | 0 <= w < |s.writers| :: Tmp(s, s.writers[w]) != name
  }

  lemma TmpIsNotTarget(s: State, w: Writer)
    ensures Tmp(s, w) != s.dest
  {
    TempNameIsNotTarget(s.dest, w.pid, w.counter);
  }

  /** A name fresh to its process is fresh among the live writers. */
  lemma FreshTmp(s0: State, s: State, w: Writer)
    requires Inv(s0, s) && w.counter == NextCounter(s, w.pid)
    ensures forall x | 0 <= x < |s.writers| && Live(s.writers[x]) :: Tmp(s, s.writers[x]) != Tmp(s, w)
  {
    hide TempName;
    forall x | 0 <= x < |s.writers| && Live(s.writers[x]) ensures Tmp(s, s.writers[x]) != Tmp(s, w) {
      assert WriterOk(s, x);
      var y := s.writers[x];
      if Tmp(s, y) == Tmp(s, w) { TempNameInjective(s.dest, y.pid, y.counter, s.dest, w.pid, w.counter); }
    }
  }

  lemma CreateKeepsInv(s0: State, s: State, pid: nat)
    requires Inv(s0, s)
    ensures Inv(s0, Take(s, Create(pid)))
  {
    hide TempName, Explained, WriterOk, LiveOk;
    var s' := Take(s, Create(pid));
    var n := |s.writers|;
    TmpIsNotTarget(s, s'.writers[n]);
    CreateKeepsLive(s0, s, pid);
    assert forall x | 0 <= x < n :: s'.writers[x] == s.writers[x];
    forall name | name in s'.files && name != s'.dest ensures Explained(s0, s', name) {
      if name == Tmp(s, s'.writers[n]) {
        OwnExplained(s0, s', n);
      } else {
        ExplainedStill(s0, s, s', name);
      }
    }
    KeptStill(s0, s, s');
  }

  lemma CreateKeepsLive(s0: State, s: State, pid: nat)
    requires Inv(s0, s)
    ensures LiveOk(Take(s, Create(pid)))
  {
    hide TempName, AllExplained, AllKept, TargetOk;
    var s' := Take(s, Create(pid));
    FreshTmp(s0, s, s'.writers[|s.writers|]);
    forall x | 0 <= x < |s'.writers| && Live(s'.writers[x]) ensures WriterOk(s', x) {
      if x < |s.writers| { assert WriterOk(s, x); }
    }
  }

  lemma OwnExplained(s0: State, s: State, w: nat)
    requires w < |s.writers| && Leaves(s.writers[w])
    ensures Explained(s0, s, Tmp(s, s.writers[w]))
  {
  }

  /** A step that only changes writers' temp files and the target keeps the bystanders. */
  lemma KeptStill(s0: State, s: State, s': State)
    requires AllKept(s0, s) && s'.dest == s.dest && |s.writers| <= |s'.writers|
    requires forall x | 0 <= x < |s.writers| :: Tmp(s', s'.writers[x]) == Tmp(s, s.writers[x])
    requires forall name | name in s.files && name != s.dest && NobodysTemp(s', name) ::
               name in s'.files && s'.files[name] == s.files[name]
    ensures AllKept(s0, s')
  {
    hide TempName;
    forall name | name in s0.files && name != s'.dest && NobodysTemp(s', name)
      ensures name in s'.files && s'.files[name] == s0.files[name]
    {
      assert NobodysTemp(s, name) by {
        forall x | 0 <= x < |s.writers| ensures Tmp(s, s.writers[x]) != name {
          assert Tmp(s', s'.writers[x]) != name;
        }
      }
    }
  }

  lemma ExplainedStill(s0: State, s: State, s': State, name: string)
    requires Explained(s0, s, name) && s'.dest == s.dest && |s.writers| <= |s'.writers|
    requires forall w | 0 <= w < |s.writers| && Leaves(s.writers[w]) && Tmp(s, s.writers[w]) == name ::
               Leaves(s'.writers[w]) && Tmp(s', s'.writers[w]) == name
    ensures Explained(s0, s', name)
  {
    if name !in s0.files {
      var w :| 0 <= w < |s.writers| && Leaves(s.writers[w]) && Tmp(s, s.writers[w]) == name;
      assert Leaves(s'.writers[w]);
    }
  }

  /** Steps of one live writer on its own temp file. What is left to show is about that writer
      and about the target. */
  lemma OneWriter(s0: State, s: State, s': State, w: nat)
    requires Inv(s0, s) && w < |s.writers| == |s'.writers| && Live(s.writers[w])
    requires s'.dest == s.dest && s'.counters == s.counters
    requires forall x | 0 <= x < |s.writers| && x != w :: s'.writers[x] == s.writers[x]
    requires s'.writers[w].pid == s.writers[w].pid && s'.writers[w].counter == s.writers[w].counter
    requires forall name | name != Tmp(s, s.writers[w]) && name != s.dest ::
               (name in s'.files <==> name in s.files) && (name in s.files ==> s'.files[name] == s.files[name])
    requires Tmp(s, s.writers[w]) in s'.files ==> Leaves(s'.writers[w])
    requires Live(s'.writers[w]) ==> WriterOk(s', w)
    requires TargetOk(s0, s')
    requires forall i | 0 <= i < |s'.published| ::
               s'.published[i] < |s'.writers| && s'.writers[s'.published[i]].phase.Published?
    ensures Inv(s0, s')
  {
    hide TempName;
    forall x | 0 <= x < |s'.writers| && Live(s'.writers[x]) ensures WriterOk(s', x) {
      if x != w {
        assert WriterOk(s, x);
        TmpIsNotTarget(s, s.writers[x]);
        assert Tmp(s, s.writers[x]) != Tmp(s, s.writers[w]);
      }
    }
    forall name | name in s'.files && name != s'.dest ensures Explained(s0, s', name) {
      if name == Tmp(s, s.writers[w]) {
        assert Leaves(s'.writers[w]) && Tmp(s', s'.writers[w]) == name;
      } else {
        assert Explained(s0, s, name);
        ExplainedStill(s0, s, s', name);
      }
    }
    assert forall x | 0 <= x < |s.writers| :: Tmp(s', s'.writers[x]) == Tmp(s, s.writers[x]);
    assert forall name | NobodysTemp(s', name) :: name != Tmp(s', s'.writers[w]);
    KeptStill(s0, s, s');
  }

  lemma CrashKeepsInv(s0: State, s: State, pid: nat)
    requires Inv(s0, s)
    ensures Inv(s0, Take(s, Crash(pid)))
  {
    hide TempName, Explained;
    var s' := Take(s, Crash(pid));
    forall x | 0 <= x < |s'.writers| && Live(s'.writers[x]) ensures WriterOk(s', x) {
      assert WriterOk(s, x);
    }
    forall name | name in s'.files && name != s'.dest ensures Explained(s0, s', name) {
      ExplainedStill(s0, s, s', name);
    }
    KeptStill(s0, s, s');
  }

  lemma StepKeepsInv(s0: State, s: State, step: Step)
    requires Inv(s0, s) && Enabled(s, step)
    ensures Inv(s0, Take(s, step))
  {
    var s' := Take(s, step);
    match step
    case Create(pid) => CreateKeepsInv(s0, s, pid);
    case Crash(pid) => CrashKeepsInv(s0, s, pid);
    case CreateFails(pid) => CreateFailsKeepsInv(s0, s, pid);
    case Rename(w) => RenameKeepsInv(s0, s, w);
    case Spill(w, n) => SpillKeepsInv(s0, s, w, n);
    case Accept(w, chunk) => OwnStepKeepsInv(s0, s, step, w);
    case BeginCommit(w) => OwnStepKeepsInv(s0, s, step, w);
    case Sync(w) => OwnStepKeepsInv(s0, s, step, w);
    case Fail(w) => OwnStepKeepsInv(s0, s, step, w);
    case Drop(w) => OwnStepKeepsInv(s0, s, step, w);
  }

  lemma CreateFailsKeepsInv(s0: State, s: State, pid: nat)
    requires Inv(s0, s)
    ensures Inv(s0, Take(s, CreateFails(pid)))
  {
    hide TempName;
    var s' := Take(s, CreateFails(pid));
    forall x | 0 <= x < |s'.writers| && Live(s'.writers[x]) ensures WriterOk(s', x) { assert WriterOk(s, x); }
    forall name | name in s'.files && name != s'.dest ensures Explained(s0, s', name) {
      assert Explained(s0, s, name);
      ExplainedStill(s0, s, s', name);
    }
    KeptStill(s0, s, s');
  }

  lemma OwnStepKeepsInv(s0: State, s: State, step: Step, w: nat)
    requires Inv(s0, s) && Enabled(s, step)
    requires step == BeginCommit(w) || step == Sync(w) || step == Fail(w) || step == Drop(w)
             || (step.Accept? && step.writer == w)
    ensures Inv(s0, Take(s, step))
  {
    hide TempName;
    assert WriterOk(s, w);
    TmpIsNotTarget(s, s.writers[w]);
    OneWriter(s0, s, Take(s, step), w);
  }

  lemma SpillKeepsInv(s0: State, s: State, w: nat, n: nat)
    requires Inv(s0, s) && Enabled(s, Spill(w, n))
    ensures Inv(s0, Take(s, Spill(w, n)))
  {
    hide TempName;
    var s' := Take(s, Spill(w, n));
    assert WriterOk(s, w);
    TmpIsNotTarget(s, s.writers[w]);
    assert WriterOk(s', w) by {
      var x := s.writers[w];
      assert x.buffered == x.buffered[..n] + x.buffered[n..];
    }
    OneWriter(s0, s, s', w);
  }

  lemma RenameKeepsInv(s0: State, s: State, w: nat)
    requires Inv(s0, s) && Enabled(s, Rename(w))
    ensures Inv(s0, Take(s, Rename(w)))
  {
    hide TempName;
    var s' := Take(s, Rename(w));
    assert WriterOk(s, w);
    TmpIsNotTarget(s, s.writers[w]);
    assert s'.published[|s.published|] == w;
    OneWriter(s0, s, s', w);
  }

  lemma {:induction false} RunKeepsInv(s0: State, s: State, steps: seq<Step>)
    requires Inv(s0, s) && Runs(s, steps)
    ensures Inv(s0, After(s, steps))
    decreases |steps|
  {
    if steps != [] {
      StepKeepsInv(s0, s, steps[0]);
      RunKeepsInv(s0, Take(s, steps[0]), steps[1..]);
    }
  }

  // ---------------------------------------------------------------- what readers and the directory see

  /** At every moment of every run the target is either untouched or holds the complete payload
      of the writer that renamed last: never a prefix, never a mixture. */
  lemma ReaderSeesWholeFile(s0: State, steps: seq<Step>)
    requires Init(s0) && Runs(s0, steps)
    ensures var s := After(s0, steps);
            if s.published == [] then
              && (s0.dest in s.files <==> s0.dest in s0.files)
              && (s0.dest in s.files ==> s.files[s0.dest] == s0.files[s0.dest])
            else
              var last := s.published[|s.published| - 1];
              && last < |s.writers| && s.writers[last].phase.Published?
              && s0.dest in s.files && s.files[s0.dest] == s.writers[last].accepted
  {
    RunKeepsInv(s0, s0, steps);
  }

  /** When every writer has committed or been dropped, no new file is left but the target; the
      only leftovers there can ever be are those of failed commits and crashed processes. */
  lemma NoLeftovers(s0: State, steps: seq<Step>)
    requires Init(s0) && Runs(s0, steps)
    requires forall w | 0 <= w < |After(s0, steps).writers| ::
               After(s0, steps).writers[w].phase.Published? || After(s0, steps).writers[w].phase.Dropped?
    ensures After(s0, steps).files.Keys <= s0.files.Keys + {s0.dest}
  {
    RunKeepsInv(s0, s0, steps);
    var s := After(s0, steps);
    forall name | name in s.files ensures name in s0.files || name == s0.dest {
      if name != s.dest { assert Explained(s0, s, name); }
    }
  }

  /** Files that are nobody's temp file are never touched. */
  lemma BystandersUntouched(s0: State, steps: seq<Step>, name: string)
    requires Init(s0) && Runs(s0, steps)
    requires name in s0.files && name != s0.dest && NobodysTemp(After(s0, steps), name)
    ensures name in After(s0, steps).files && After(s0, steps).files[name] == s0.files[name]
  {
    RunKeepsInv(s0, s0, steps);
  }

  lemma {:induction false} RunsAppend(s: State, steps: seq<Step>, step: Step)
    requires Runs(s, steps) && Enabled(After(s, steps), step)
    ensures Runs(s, steps + [step]) && After(s, steps + [step]) == Take(After(s, steps), step)
    decreases |steps|
  {
    if steps == [] {
      assert [] + [step] == [step];
      assert [step][1..] == [];
      assert Runs(Take(s, step), []);
    } else {
      RunsAppend(Take(s, steps[0]), steps[1..], step);
      assert (steps + [step])[1..] == steps[1..] + [step];
    }
  }

  // ---------------------------------------------------------------- the code

  /** The directory, with everybody else who works in it. */
  class Directory {
    var s: State
    ghost var faults: nat    // how often the file system has refused to flush, sync or rename
    var agenda: seq<Step>
    ghost var start: State
    ghost var history: seq<Step>

    ghost predicate Valid()
      reads this
    {
      Init(start) && Runs(start, history) && s == After(start, history) && Inv(start, s)
    }

    constructor (dest: string, files: map<string, Bytes>, agenda: seq<Step>)
      ensures Valid() && s == State(dest, files, map[], [], [])
    {
      s := State(dest, files, map[], [], []);
      start := State(dest, files, map[], [], []);
      history, faults := [], 0;
      this.agenda := agenda;
    }

    /** Whether the file system does as it is told. */
    method Complies() returns (ok: bool)
      modifies `faults
      ensures faults == old(faults) + if ok then 0 else 1
    {
      ok := *;
      if !ok { faults := faults + 1; }
    }

    method Do(step: Step)
      requires Valid() && Enabled(s, step)
      modifies `s, `history
      ensures Valid() && s == Take(old(s), step) && start == old(start) && agenda == old(agenda)
    {
      RunsAppend(start, history, step);
      StepKeepsInv(start, s, step);
      s := Take(s, step);
      history := history + [step];
    }

    /** Other writers, in this process and in others, take any steps; a process other than
        `pid` may crash. The writer `me` is left alone. */
    method Others(me: nat, pid: nat)
      requires Valid()
      modifies `s, `history, `agenda
      ensures Valid() && start == old(start) && Undisturbed(old(s), s, me)
    {
      hide TempName;
      var n :| 0 <= n <= |agenda|;
      for i := 0 to n
        invariant Valid() && start == old(start) && agenda == old(agenda)
        invariant Undisturbed(old(s), s, me)
      {
        var step := agenda[i];
        if Enabled(s, step) && Foreign(s, step, me, pid) {
          ForeignStep(start, s, step, me, pid);
          Do(step);
        }
      }
      agenda := agenda[n..];
    }
  }

  lemma LiveWriterOk(s0: State, s: State, w: nat)
    requires Inv(s0, s) && w < |s.writers| && Live(s.writers[w])
    ensures WriterOk(s, w)
  {
  }

  /** A step of somebody else. */
  predicate Foreign(s: State, step: Step, me: nat, pid: nat) {
    match step
    case Create(_) => true
    case CreateFails(_) => true
    case Crash(p) => p != pid && (me < |s.writers| ==> s.writers[me].pid != p)
    case Accept(w, _) => w != me
    case Spill(w, _) => w != me
    case BeginCommit(w) => w != me
    case Sync(w) => w != me
    case Rename(w) => w != me
    case Fail(w) => w != me
    case Drop(w) => w != me
  }

  /** Nobody else touches my writer or its temp file. */
  ghost predicate Undisturbed(s: State, s': State, me: nat) {
    && s'.dest == s.dest && |s.writers| <= |s'.writers| && s.published <= s'.published
    && (me < |s.writers| ==>
          && s'.writers[me] == s.writers[me]
          && (Live(s.writers[me]) && Tmp(s, s.writers[me]) in s.files ==>
                Tmp(s, s.writers[me]) in s'.files && s'.files[Tmp(s, s.writers[me])] == s.files[Tmp(s, s.writers[me])]))
  }

  lemma ForeignStep(s0: State, s: State, step: Step, me: nat, pid: nat)
    requires Inv(s0, s) && Enabled(s, step) && Foreign(s, step, me, pid)
    ensures Undisturbed(s, Take(s, step), me)
  {
    hide TempName;
    if me < |s.writers| && Live(s.writers[me]) {
      TmpIsNotTarget(s, s.writers[me]);
      if step.Create? { FreshTmp(s0, s, Writer(step.pid, NextCounter(s, step.pid), Open, [], [])); }
      if (step.Spill? || step.Rename? || step.Drop?) && Live(s.writers[step.writer]) {
        assert Tmp(s, s.writers[step.writer]) != Tmp(s, s.writers[me]);
      }
    }
  }

  class AtomicWriter {
    const dir: Directory
    const pid: nat
    const me: nat                // which writer of the directory's state this is
    var open: bool               // `out` is Some: not committed and not dropped

    ghost predicate Valid()
      reads this, dir
    {
      && dir.Valid() && me < |dir.s.writers| && dir.s.writers[me].pid == pid
      && (open <==> dir.s.writers[me].phase.Open?)
      && (open ==> WriterOk(dir.s, me))
    }

    /** Everything the caller has written so far. */
    ghost function Contents(): Bytes
      reads this, dir
      requires Valid()
    {
      dir.s.writers[me].accepted
    }

    constructor (dir: Directory, pid: nat)
      requires dir.Valid()
      modifies dir
      ensures Valid() && open && this.dir == dir && Contents() == [] && fresh(this)
    {
      this.dir, this.pid := dir, pid;
      me := |dir.s.writers|;
      open := true;
      new;
      dir.Do(Create(pid));
      assert Live(dir.s.writers[me]);
    }

    /** Bytes reach the buffer, and any part of the buffer may reach the temp file. */
    method Write(chunk: Bytes)
      requires Valid() && open
      modifies dir
      ensures Valid() && Contents() == old(Contents()) + chunk
      ensures old(dir.s.published) <= dir.s.published
    {
      hide TempName;
      dir.Others(me, pid);
      assert Live(dir.s.writers[me]);
      dir.Do(Accept(me, chunk));
      assert Live(dir.s.writers[me]);
      var n :| 0 <= n <= |dir.s.writers[me].buffered|;
      dir.Do(Spill(me, n));
      assert Live(dir.s.writers[me]);
    }

    /** Flush, fsync, rename. On success the target holds exactly what the caller wrote, as of
        the rename; on failure the target is as others left it, and the temp file may remain. */
    method Commit() returns (ok: bool)
      requires Valid() && open
      modifies this, dir
      ensures Valid() && !open
      ensures ok ==> me in dir.s.published && dir.s.writers[me].phase.Published?
                     && dir.s.writers[me].accepted == old(Contents())
                     && dir.s.dest in dir.s.files && dir.s.files[dir.s.dest] == old(Contents())
      ensures !ok ==> dir.s.writers[me].phase.CommitFailed? && dir.faults > old(dir.faults)
    {
      hide TempName, Inv, Init, Runs, After;
      open := false;
      dir.Others(me, pid);
      dir.Do(BeginCommit(me));
      ok := FlushAndSync();
      if !ok { return; }
      dir.Others(me, pid);
      LiveWriterOk(dir.start, dir.s, me);
      ok := dir.Complies();
      if !ok {
        dir.Do(Fail(me));
        return;
      }
      dir.Do(Rename(me));
      assert dir.s.published[|dir.s.published| - 1] == me;
    }

    /** The rest of the buffer reaches the file, and the file the disk. */
    method FlushAndSync() returns (ok: bool)
      requires Valid() && !open && dir.s.writers[me].phase.Committing?
      modifies dir
      ensures Valid() && dir.s.writers[me].accepted == old(dir.s.writers[me].accepted)
      ensures dir.s.writers[me].phase == if ok then Synced else CommitFailed
      ensures old(dir.faults) <= dir.faults && (!ok ==> dir.faults > old(dir.faults))
    {
      hide TempName, Inv, Init, Runs, After;
      dir.Others(me, pid);
      LiveWriterOk(dir.start, dir.s, me);
      ok := dir.Complies();
      if !ok {
        dir.Do(Fail(me));
        return;
      }
      dir.Do(Spill(me, |dir.s.writers[me].buffered|));
      LiveWriterOk(dir.start, dir.s, me);
      dir.Others(me, pid);
      dir.Do(Sync(me));
    }

    /** Dropping a writer that was never committed removes its temp file and nothing else. */
    method DropWriter()
      requires Valid()
      modifies this, dir
      ensures Valid() && !open
      ensures old(open) ==> dir.s.writers[me].phase.Dropped? && Tmp(dir.s, dir.s.writers[me]) !in dir.s.files
      ensures !old(open) ==> dir.s == old(dir.s)
    {
      hide TempName;
      if open {
        open := false;
        dir.Others(me, pid);
        dir.Do(Drop(me));
      }
    }
  }
}
