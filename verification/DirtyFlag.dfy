/** The clear-before-read protocol of DirtyFlag (src/sync.rs).

    Any number of lock-free writers change input cells and then mark the flag. Rebuilders are
    serialised by a mutex; one of them loads the flag, stores it, and reads the cells one at a
    time, each as a separate step that writers may interleave with. */
module DirtyFlag {
  /** Where the rebuilder that holds the mutex is in run_if_dirty. */
  datatype Phase<V> =
    | Outside                              // nobody holds the mutex
    | Entered                              // about to load the flag
    | Loaded(dirty: bool)                  // the flag has been read
    | Reading(cleared: bool, seen: map<nat, V>)  // the rebuild is reading its inputs
    | Published                            // the rebuild has stored its result
    | Failed                               // the rebuild returned an error
    | Leaving                              // about to release the mutex

  datatype State<V, D> = State(
    inputs: seq<V>,      // the input cells
    flag: bool,
    derived: D,          // what rebuilds compute
    pending: set<nat>,   // writers that have changed a cell and not yet marked
    phase: Phase<V>)

  datatype Step<V> =
    | Write(writer: nat, cell: nat, value: V)
    | Mark(writer: nat)
    | Enter
    | Load
    | Clear
    | StartReading
    | Read(cell: nat)
    | Publish
    | Fail
    | Restore
    | Leave

  /** The two orders in which the flag can be cleared. The code uses ClearFirst. */
  datatype Order = ClearFirst | ClearLast

  function AsInputs<V>(n: nat, seen: map<nat, V>): seq<V>
    requires forall c | 0 <= c < n :: c in seen
  {
    seq(n, c requires 0 <= c < n => seen[c])
  }

  /** Whether `step` can be taken from `s`. */
  predicate Enabled<V, D>(order: Order, s: State<V, D>, step: Step<V>) {
    match step
    case Write(_, c, _) => c < |s.inputs|
    case Mark(w) => true
    case Enter => s.phase.Outside?
    case Load => s.phase.Entered?
    case Clear => if order.ClearFirst? then s.phase == Loaded(true) else s.phase.Published?
    case StartReading => order.ClearLast? && s.phase == Loaded(true)
    case Read(c) => s.phase.Reading? && c < |s.inputs|
    case Publish => s.phase.Reading? && forall c | 0 <= c < |s.inputs| :: c in s.phase.seen
    case Fail => s.phase.Reading?
    case Restore => s.phase.Failed?
    case Leave => s.phase.Leaving? || s.phase == Loaded(false)
  }

  /** The state after the step. `derive` is what a rebuild computes from its inputs. */
  function Take<V, D>(order: Order, derive: seq<V> -> D, s: State<V, D>, step: Step<V>): State<V, D>
    requires Enabled(order, s, step)
  {
    match step
    case Write(w, c, v) => s.(inputs := s.inputs[c := v], pending := s.pending + {w})
    case Mark(w) => s.(flag := true, pending := s.pending - {w})
    case Enter => s.(phase := Entered)
    case Load => s.(phase := Loaded(s.flag))
    case Clear => s.(flag := false,
                     phase := if order.ClearFirst? then Reading(true, map[]) else Leaving)
    case StartReading => s.(phase := Reading(false, map[]))
    case Read(c) => s.(phase := s.phase.(seen := s.phase.seen[c := s.inputs[c]]))
    case Publish => s.(derived := derive(AsInputs(|s.inputs|, s.phase.seen)),
                       phase := if order.ClearFirst? then Leaving else Published)
    case Fail => s.(phase := Failed)
    case Restore => s.(flag := true, phase := Leaving)
    case Leave => s.(phase := Outside)
  }

  ghost predicate Init<V(!new), D(!new)>(derive: seq<V> -> D, s: State<V, D>) {
    && s.pending == {}
    && s.phase.Outside?
    && (s.flag || s.derived == derive(s.inputs))
  }

  /** A run: a list of steps, each enabled where it is taken. */
  predicate Runs<V, D>(order: Order, derive: seq<V> -> D, s: State<V, D>, steps: seq<Step<V>>)
    decreases |steps|
  {
    steps == [] ||
    (Enabled(order, s, steps[0]) && Runs(order, derive, Take(order, derive, s, steps[0]), steps[1..]))
  }

  function After<V, D>(order: Order, derive: seq<V> -> D, s: State<V, D>, steps: seq<Step<V>>): State<V, D>
    requires Runs(order, derive, s, steps)
    decreases |steps|
  {
    if steps == [] then s
    else After(order, derive, Take(order, derive, s, steps[0]), steps[1..])
  }

  /** No writer is between its write and its mark, and nobody holds the mutex. */
  predicate Quiescent<V, D>(s: State<V, D>) {
    s.pending == {} && s.phase.Outside?
  }

  // ---------------------------------------------------------------- the invariant

  /** With the flag clear and no writer about to mark, whatever the current rebuild has read
      is still current, and outside a rebuild the derived value is. */
  ghost predicate Inv<V(!new), D(!new)>(derive: seq<V> -> D, s: State<V, D>) {
    && (s.phase == Loaded(true) ==> s.flag)
    && (s.phase.Reading? ==>
          s.phase.cleared && forall c | c in s.phase.seen :: c < |s.inputs|)
    && !s.phase.Published?
    && (!s.flag && s.pending == {} ==>
          match s.phase
          case Reading(_, seen) => forall c | c in seen :: c < |s.inputs| && seen[c] == s.inputs[c]
          case Failed => true
          case _ => s.derived == derive(s.inputs))
  }

  lemma StepKeepsInv<V(!new), D(!new)>(derive: seq<V> -> D, s: State<V, D>, step: Step<V>)
    requires Inv(derive, s) && Enabled(ClearFirst, s, step)
    ensures Inv(derive, Take(ClearFirst, derive, s, step))
  {
    if step.Publish? && !s.flag && s.pending == {} {
      assert AsInputs(|s.inputs|, s.phase.seen) == s.inputs;
    }
  }

  lemma {:induction false} RunKeepsInv<V(!new), D(!new)>(derive: seq<V> -> D, s: State<V, D>, steps: seq<Step<V>>)
    requires Inv(derive, s) && Runs(ClearFirst, derive, s, steps)
    ensures Inv(derive, After(ClearFirst, derive, s, steps))
    decreases |steps|
  {
    if steps != [] {
      StepKeepsInv(derive, s, steps[0]);
      RunKeepsInv(derive, Take(ClearFirst, derive, s, steps[0]), steps[1..]);
    }
  }

  /** Convergence: in every run, for any number of writers and cells and with rebuilds that
      fail, a quiescent state with a clear flag holds a derived value computed from exactly
      the current inputs. */
  lemma Convergence<V(!new), D(!new)>(derive: seq<V> -> D, s: State<V, D>, steps: seq<Step<V>>)
    requires Init(derive, s) && Runs(ClearFirst, derive, s, steps)
    ensures var t := After(ClearFirst, derive, s, steps);
            Quiescent(t) && !t.flag ==> t.derived == derive(t.inputs)
  {
    RunKeepsInv(derive, s, steps);
  }

  /** No update is lost: at every moment a stale derived value is announced by the flag, by a
      writer about to mark, or by a rebuild in flight. */
  lemma NoLostUpdate<V(!new), D(!new)>(derive: seq<V> -> D, s: State<V, D>, steps: seq<Step<V>>)
    requires Init(derive, s) && Runs(ClearFirst, derive, s, steps)
    ensures var t := After(ClearFirst, derive, s, steps);
            t.derived != derive(t.inputs) ==> t.flag || t.pending != {} || t.phase.Reading? || t.phase.Failed?
  {
    RunKeepsInv(derive, s, steps);
  }

  // ---------------------------------------------------------------- one more rebuild

  lemma {:induction false} RunsAppend<V, D>(order: Order, derive: seq<V> -> D, s: State<V, D>,
                                            a: seq<Step<V>>, b: seq<Step<V>>)
    requires Runs(order, derive, s, a) && Runs(order, derive, After(order, derive, s, a), b)
    ensures Runs(order, derive, s, a + b)
    ensures After(order, derive, s, a + b) == After(order, derive, After(order, derive, s, a), b)
    decreases |a|
  {
    if a == [] {
      assert a + b == b;
    } else {
      RunsAppend(order, derive, Take(order, derive, s, a[0]), a[1..], b);
      assert (a + b)[1..] == a[1..] + b;
    }
  }

  /** Reading the cells from `c` on, left to right. */
  lemma {:induction false} ReadRest<V(!new), D(!new)>(derive: seq<V> -> D, s: State<V, D>, c: nat)
    returns (steps: seq<Step<V>>)
    requires s.phase.Reading? && c <= |s.inputs|
    requires forall i | 0 <= i < c :: i in s.phase.seen && s.phase.seen[i] == s.inputs[i]
    ensures Runs(ClearFirst, derive, s, steps)
    ensures forall i | 0 <= i < |steps| :: steps[i].Read?
    ensures var t := After(ClearFirst, derive, s, steps);
            && t == s.(phase := t.phase) && t.phase.Reading?
            && forall i | 0 <= i < |s.inputs| :: i in t.phase.seen && t.phase.seen[i] == s.inputs[i]
    decreases |s.inputs| - c
  {
    if c == |s.inputs| {
      steps := [];
    } else {
      var t := Take(ClearFirst, derive, s, Read(c));
      var rest := ReadRest(derive, t, c + 1);
      steps := [Read(c)] + rest;
      assert steps[1..] == rest;
    }
  }

  lemma RunsOne<V, D>(order: Order, derive: seq<V> -> D, s: State<V, D>, step: Step<V>, rest: seq<Step<V>>)
    requires Enabled(order, s, step)
    requires Runs(order, derive, Take(order, derive, s, step), rest)
    ensures Runs(order, derive, s, [step] + rest)
    ensures After(order, derive, s, [step] + rest)
         == After(order, derive, Take(order, derive, s, step), rest)
  {
    assert ([step] + rest)[1..] == rest;
  }

  /** An undisturbed pass over the cells, then publishing and leaving. */
  lemma FinishRebuild<V(!new), D(!new)>(derive: seq<V> -> D, s: State<V, D>) returns (steps: seq<Step<V>>)
    requires s.phase == Reading(true, map[])
    ensures Runs(ClearFirst, derive, s, steps)
    ensures After(ClearFirst, derive, s, steps) == s.(derived := derive(s.inputs), phase := Outside)
    ensures forall i | 0 <= i < |steps| :: steps[i].Read? || steps[i].Publish? || steps[i].Leave?
  {
    var readAll := ReadRest(derive, s, 0);
    var full := After(ClearFirst, derive, s, readAll);
    assert AsInputs(|full.inputs|, full.phase.seen) == s.inputs;
    var published := full.(derived := derive(s.inputs), phase := Leaving);
    RunsOne(ClearFirst, derive, published, Leave, []);
    RunsOne(ClearFirst, derive, full, Publish, [Leave]);
    RunsAppend(ClearFirst, derive, s, readAll, [Publish] + [Leave]);
    steps := readAll + ([Publish] + [Leave]);
  }

  /** One undisturbed run_if_dirty, from its lock to its unlock. */
  lemma OneRebuild<V(!new), D(!new)>(derive: seq<V> -> D, s: State<V, D>) returns (steps: seq<Step<V>>)
    requires s.phase.Outside?
    ensures Runs(ClearFirst, derive, s, steps)
    ensures After(ClearFirst, derive, s, steps)
         == if s.flag then s.(flag := false, derived := derive(s.inputs)) else s
    ensures Undisturbed(steps) && Entering(steps)
  {
    if s.flag {
      var tail := FinishRebuild(derive, s.(flag := false, phase := Reading(true, map[])));
      RunsOne(ClearFirst, derive, s.(phase := Loaded(true)), Clear, tail);
      RunsOne(ClearFirst, derive, s.(phase := Entered), Load, [Clear] + tail);
      RunsOne(ClearFirst, derive, s, Enter, [Load] + ([Clear] + tail));
      steps := [Enter] + ([Load] + ([Clear] + tail));
    } else {
      RunsOne(ClearFirst, derive, s.(phase := Loaded(false)), Leave, []);
      RunsOne(ClearFirst, derive, s.(phase := Entered), Load, [Leave]);
      RunsOne(ClearFirst, derive, s, Enter, [Load] + [Leave]);
      steps := [Enter] + ([Load] + [Leave]);
    }
    assert steps[0].Enter?;
  }

  /** Nobody writes or marks, and no rebuild fails. */
  predicate Undisturbed<V>(steps: seq<Step<V>>) {
    forall i | 0 <= i < |steps| :: !steps[i].Write? && !steps[i].Mark? && !steps[i].Fail?
  }

  /** A rebuilder has taken the mutex. */
  predicate Entering<V>(steps: seq<Step<V>>) {
    exists i :: 0 <= i < |steps| && steps[i].Enter?
  }

  /** What holds on the way through undisturbed passes: past the clear the flag stays clear, and
      so it is once a pass is over. */
  predicate OnTrack<V, D>(s: State<V, D>, entered: bool) {
    && s.pending == {}
    && match s.phase
       case Outside => entered ==> !s.flag
       case Loaded(dirty) => dirty == s.flag
       case Reading(_, _) => !s.flag
       case Leaving => !s.flag
       case Entered => true
       case _ => false
  }

  lemma StepOnTrack<V, D>(derive: seq<V> -> D, s: State<V, D>, step: Step<V>, entered: bool)
    requires OnTrack(s, entered) && Enabled(ClearFirst, s, step)
    requires !step.Write? && !step.Mark? && !step.Fail?
    ensures OnTrack(Take(ClearFirst, derive, s, step), entered || step.Enter?)
    ensures Take(ClearFirst, derive, s, step).inputs == s.inputs
  {
  }

  lemma {:induction false} RunOnTrack<V, D>(derive: seq<V> -> D, s: State<V, D>, steps: seq<Step<V>>, entered: bool)
    requires OnTrack(s, entered) && Runs(ClearFirst, derive, s, steps) && Undisturbed(steps)
    ensures OnTrack(After(ClearFirst, derive, s, steps), entered || Entering(steps))
    ensures After(ClearFirst, derive, s, steps).inputs == s.inputs
    decreases |steps|
  {
    if steps != [] {
      hide OnTrack;
      StepOnTrack(derive, s, steps[0], entered);
      RunOnTrack(derive, Take(ClearFirst, derive, s, steps[0]), steps[1..], entered || steps[0].Enter?);
      EnteringTail(steps);
    }
  }

  lemma EnteringTail<V>(steps: seq<Step<V>>)
    requires steps != []
    ensures Entering(steps) <==> steps[0].Enter? || Entering(steps[1..])
  {
    if i :| 0 <= i < |steps| && steps[i].Enter? {
      if i > 0 { assert steps[1..][i - 1].Enter?; }
    }
    if i :| 0 <= i < |steps[1..]| && steps[1..][i].Enter? { assert steps[i + 1].Enter?; }
  }

  /** From any quiescent state of any run, every further pass that nobody disturbs and that does
      not fail converges: in whatever order and however often it reads the cells, and however
      many passes follow, once the mutex is free again the flag is clear and the derived value up
      to date. */
  lemma OneMoreRebuildConverges<V(!new), D(!new)>(derive: seq<V> -> D, s: State<V, D>,
                                                  steps: seq<Step<V>>, more: seq<Step<V>>)
    requires Init(derive, s) && Runs(ClearFirst, derive, s, steps)
    requires Quiescent(After(ClearFirst, derive, s, steps))
    requires Runs(ClearFirst, derive, After(ClearFirst, derive, s, steps), more)
    requires Undisturbed(more) && Entering(more)
    requires After(ClearFirst, derive, After(ClearFirst, derive, s, steps), more).phase.Outside?
    ensures var now := After(ClearFirst, derive, s, steps);
            var t := After(ClearFirst, derive, now, more);
            Quiescent(t) && !t.flag && t.inputs == now.inputs && t.derived == derive(t.inputs)
  {
    RunOnTrack(derive, After(ClearFirst, derive, s, steps), more, false);
    RunsAppend(ClearFirst, derive, s, steps, more);
    Convergence(derive, s, steps + more);
  }

  /** Such a pass is always possible. */
  lemma OneMoreRebuildPossible<V(!new), D(!new)>(derive: seq<V> -> D, s: State<V, D>, steps: seq<Step<V>>)
    returns (more: seq<Step<V>>)
    requires Init(derive, s) && Runs(ClearFirst, derive, s, steps)
    requires Quiescent(After(ClearFirst, derive, s, steps))
    ensures Runs(ClearFirst, derive, s, steps + more) && Undisturbed(more) && Entering(more)
    ensures var now := After(ClearFirst, derive, s, steps);
            var t := After(ClearFirst, derive, s, steps + more);
            Quiescent(t) && !t.flag && t.inputs == now.inputs && t.derived == derive(t.inputs)
  {
    Convergence(derive, s, steps);
    more := OneRebuild(derive, After(ClearFirst, derive, s, steps));
    RunsAppend(ClearFirst, derive, s, steps, more);
  }

  // ---------------------------------------------------------------- the order that loses updates

  /** A writer lands after the read and its mark is overwritten by the late clear. */
  lemma LateClear(derive: seq<nat> -> nat, s: State<nat, nat>) returns (steps: seq<Step<nat>>)
    requires s.phase.Published? && |s.inputs| == 1 && s.pending == {}
    ensures Runs(ClearLast, derive, s, steps)
    ensures After(ClearLast, derive, s, steps) == State([5], false, s.derived, {}, Outside)
  {
    var wrote := Take(ClearLast, derive, s, Write(1, 0, 5));
    var marked := Take(ClearLast, derive, wrote, Mark(1));
    var cleared := Take(ClearLast, derive, marked, Clear);
    assert wrote.inputs == [5] && marked.pending == {};
    RunsOne(ClearLast, derive, cleared, Leave, []);
    RunsOne(ClearLast, derive, marked, Clear, [Leave] + []);
    RunsOne(ClearLast, derive, wrote, Mark(1), [Clear] + ([Leave] + []));
    RunsOne(ClearLast, derive, s, Write(1, 0, 5), [Mark(1)] + ([Clear] + ([Leave] + [])));
    steps := [Write(1, 0, 5)] + ([Mark(1)] + ([Clear] + ([Leave] + [])));
  }

  /** A rebuild of a single cell, up to its publication. */
  lemma ReadAndPublish(derive: seq<nat> -> nat, s: State<nat, nat>) returns (steps: seq<Step<nat>>)
    requires s.phase.Outside? && s.flag && |s.inputs| == 1
    ensures Runs(ClearLast, derive, s, steps)
    ensures After(ClearLast, derive, s, steps) == s.(derived := derive(s.inputs), phase := Published)
  {
    var entered := Take(ClearLast, derive, s, Enter);
    var loaded := Take(ClearLast, derive, entered, Load);
    var reading := Take(ClearLast, derive, loaded, StartReading);
    var read := Take(ClearLast, derive, reading, Read(0));
    assert AsInputs(1, read.phase.seen) == s.inputs;
    RunsOne(ClearLast, derive, read, Publish, []);
    RunsOne(ClearLast, derive, reading, Read(0), [Publish] + []);
    RunsOne(ClearLast, derive, loaded, StartReading, [Read(0)] + ([Publish] + []));
    RunsOne(ClearLast, derive, entered, Load, [StartReading] + ([Read(0)] + ([Publish] + [])));
    steps := [Load] + ([StartReading] + ([Read(0)] + ([Publish] + [])));
    RunsOne(ClearLast, derive, s, Enter, steps);
    steps := [Enter] + steps;
  }

  /** Clearing after the rebuild, in the same system and for any rebuild that tells the two
      inputs apart: there is a run that ends quiescent, clean and stale. */
  lemma ClearLastLosesUpdate(derive: seq<nat> -> nat) returns (s: State<nat, nat>, steps: seq<Step<nat>>)
    requires derive([0]) != derive([5])
    ensures Init(derive, s) && Runs(ClearLast, derive, s, steps)
    ensures var t := After(ClearLast, derive, s, steps);
            Quiescent(t) && !t.flag && t.derived != derive(t.inputs)
  {
    s := State([0], true, 7, {}, Outside);
    var a := ReadAndPublish(derive, s);
    var b := LateClear(derive, After(ClearLast, derive, s, a));
    RunsAppend(ClearLast, derive, s, a, b);
    steps := a + b;
  }

  // ---------------------------------------------------------------- the code

  /** A writer has marked after the first `n` steps. */
  ghost predicate MarkedSince<V>(history: seq<Step<V>>, n: nat) {
    exists i | n <= i < |history| :: history[i].Mark?
  }

  lemma StillMarked<V>(before: seq<Step<V>>, after: seq<Step<V>>, n: nat, earlier: nat)
    requires MarkedSince(before, n) && before <= after && earlier <= n
    ensures MarkedSince(after, earlier)
  {
    var i :| n <= i < |before| && before[i].Mark?;
    assert after[i].Mark?;
  }

  /** A flag found set was marked before the others ran, or while they did. */
  lemma MarkAdded<V>(before: seq<Step<V>>, now: seq<Step<V>>, after: seq<Step<V>>, marked: bool, n: nat)
    requires before <= now <= after && n <= |before|
    requires if marked then MarkedSince(before, n) else MarkedSince(now, |before|)
    ensures MarkedSince(after, n)
  {
    if marked { StillMarked(before, after, n, n); } else { StillMarked(now, after, |before|, n); }
  }

  /** The flag with the memory around it. Each method below is a list of atomic accesses;
      before every one of them any other thread may have run. */
  class Shared<V(0, !new), D(!new)> {
    const derive: seq<V> -> D
    var state: State<V, D>
    ghost var start: State<V, D>
    ghost var history: seq<Step<V>>
    ghost var errors: nat       // how often a rebuild closure has failed

    /** The memory is what a run of the protocol has made of it. */
    ghost predicate Valid()
      reads this
    {
      && Init(derive, start)
      && Runs(ClearFirst, derive, start, history)
      && state == After(ClearFirst, derive, start, history)
    }

    constructor (derive: seq<V> -> D, inputs: seq<V>, derived: D)
      ensures Valid()
      ensures state == State(inputs, true, derived, {}, Outside) && this.derive == derive
    {
      this.derive := derive;
      state := State(inputs, true, derived, {}, Outside);
      start := State(inputs, true, derived, {}, Outside);
      history, errors := [], 0;
    }

    /** Whether the rebuild closure meets an error of its own. */
    method Errs() returns (fails: bool)
      modifies `errors
      ensures errors == old(errors) + if fails then 1 else 0
    {
      fails := *;
      if fails { errors := errors + 1; }
    }

    method Do(step: Step<V>)
      requires Valid() && Enabled(ClearFirst, state, step)
      modifies `state, `history
      ensures Valid() && history == old(history) + [step] && start == old(start)
      ensures state == Take(ClearFirst, derive, old(state), step)
    {
      RunsOne(ClearFirst, derive, state, step, []);
      RunsAppend(ClearFirst, derive, start, history, [step]);
      assert [step] + [] == [step];
      state := Take(ClearFirst, derive, state, step);
      history := history + [step];
    }

    /** The writers get to run: any number of writes and marks, by any of them. */
    method Others()
      requires Valid()
      modifies `state, `history
      ensures Valid() && start == old(start) && state.phase == old(state.phase)
      ensures |state.inputs| == |old(state.inputs)|
      ensures old(state.flag) ==> state.flag
      ensures old(history) <= history
      ensures state.flag && !old(state.flag) ==>
                MarkedSince(history, |old(history)|)
    {
      var n :| n >= 0;
      while n > 0
        invariant Valid() && start == old(start) && state.phase == old(state.phase)
        invariant |state.inputs| == |old(state.inputs)|
        invariant old(state.flag) ==> state.flag
        invariant old(history) <= history
        invariant state.flag && !old(state.flag) ==>
                    MarkedSince(history, |old(history)|)
      {
        var w, c :| w >= 0 && c >= 0;
        var v: V := *;
        var marks: bool := *;
        ghost var before := history;
        if marks {
          Do(Mark(w));
          assert history[|before|].Mark?;
        } else if c < |state.inputs| {
          Do(Write(w, c, v));
          assert history[..|before|] == before;
        }
        n := n - 1;
      }
    }

    /** `mark`, called by writer `w` after its last write. */
    method MarkDirty(w: nat)
      requires Valid()
      modifies this
      ensures Valid() && state == old(state).(flag := true, pending := old(state.pending) - {w})
    {
      Do(Mark(w));
    }

    /** `is_dirty`, as the rebuilder holding the mutex calls it. */
    method IsDirty() returns (dirty: bool)
      requires Valid() && state.phase.Entered?
      modifies `state, `history
      ensures Valid() && dirty == old(state.flag) && history == old(history) + [Load]
      ensures state == old(state).(phase := Loaded(dirty)) && start == old(start)
    {
      Do(Load);
      dirty := state.phase.dirty;
    }

    /** run_if_dirty under the rebuilders' mutex. The rebuild runs exactly when the flag is
        found set, a failed rebuild leaves the flag set, after a successful one only a mark made
        meanwhile can have, and a flag found clear at the end with no writer pending means the
        derived value is up to date. */
    method RunIfDirty() returns (ran: bool, ok: bool)
      requires Valid() && state.phase.Entered?
      modifies this
      ensures Valid() && start == old(start) && state.phase.Outside?
      ensures old(state.flag) ==> ran
      ensures ran && !old(state.flag) ==>
                MarkedSince(history, |old(history)|)
      ensures !ok ==> ran && state.flag && errors > old(errors)
      ensures ok && state.flag ==> MarkedSince(history, |old(history)|)
      ensures !state.flag && state.pending == {} ==> state.derived == derive(state.inputs)
    {
      hide MarkedSince, Runs, After;
      Others();
      ghost var before := history;
      ran := IsDirty();
      ok := true;
      ghost var loaded := history;
      ghost var rebuilt := history;
      if ran {
        ok := CleanUp();
        rebuilt := history;
      }
      Do(Leave);
      if ran && !old(state.flag) { StillMarked(before, history, |old(history)|, |old(history)|); }
      if ok && state.flag { StillMarked(rebuilt, history, |loaded|, |old(history)|); }
      Convergence(derive, start, history);
    }

    /** From the clear of the flag on. */
    method CleanUp() returns (ok: bool)
      requires Valid() && state.phase == Loaded(true)
      modifies this
      ensures Valid() && start == old(start) && state.phase.Leaving? && old(history) <= history
      ensures !ok ==> state.flag && errors > old(errors)
      ensures ok && state.flag ==> MarkedSince(history, |old(history)|)
    {
      hide MarkedSince, Runs, After, Init;
      Others();
      Do(Clear);
      ghost var cleared := history;
      ok := Rebuild();
      if !ok {
        Others();
        Do(Restore);
      }
      ghost var before, marked := history, state.flag;
      Others();
      if ok && state.flag {
        if marked {
          StillMarked(before, history, |cleared|, |old(history)|);
        } else {
          StillMarked(history, history, |before|, |old(history)|);
        }
      }
    }

    /** The rebuild closure: reads every cell, one access at a time, and publishes; it may give
        up at any point. */
    method Rebuild() returns (ok: bool)
      requires Valid() && state.phase == Reading(true, map[])
      modifies this
      ensures Valid() && start == old(start) && old(history) <= history
      ensures ok && state.flag && !old(state.flag) ==> MarkedSince(history, |old(history)|)
      ensures state.phase == if ok then Leaving else Failed
      ensures !ok ==> errors > old(errors)
    {
      hide MarkedSince, Runs, After, Init;
      var c := 0;
      while c < |state.inputs|
        invariant Valid() && start == old(start) && old(history) <= history
        invariant c <= |state.inputs| && state.phase.Reading?
        invariant state.flag && !old(state.flag) ==> MarkedSince(history, |old(history)|)
        invariant forall i | 0 <= i < c :: i in state.phase.seen
        invariant errors == old(errors)
      {
        ghost var before, marked := history, state.flag;
        Others();
        var giveUp := Errs();
        if giveUp {
          Do(Fail);
          return false;
        }
        ghost var now := history;
        Do(Read(c));
        if state.flag && !old(state.flag) { MarkAdded(before, now, history, marked, |old(history)|); }
        c := c + 1;
      }
      ghost var before, marked := history, state.flag;
      Others();
      ghost var now := history;
      Do(Publish);
      if state.flag && !old(state.flag) { MarkAdded(before, now, history, marked, |old(history)|); }
      return true;
    }
  }
}
