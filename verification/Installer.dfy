/** Concurrent first-run installation of one release into one cache directory
    (`ensureBinary` and its helpers, npm-shim/scripts/runtime.js).

    Any number of installers run side by side; each may fail or be killed at any step, and a
    rename may fail because of another installer. File contents are numbers. DLL names are
    taken case-folded, as the file systems of the one platform that has DLLs compare them. */
module Installer {
  import opened Outcomes

  type Content = nat

  /** What is packed at the root of a release archive. */
  datatype Archive = Archive(binary: Option<Content>, sidecar: Option<Content>, dlls: map<string, Content>)

  /** The release being installed and the machine it is installed on. */
  datatype Setting = Setting(
    release: Archive,
    windows: bool,
    digest: Archive -> nat,          // the archive checksum
    reports: Content -> bool,        // `lain --version` prints this version
    reportsSidecar: Content -> bool) // `lain-git-sidecar --version` does
  {
    /** The one assumption on the checksum: no other archive has the release's. */
    ghost predicate Authentic() {
      forall a: Archive :: digest(a) == digest(release) ==> a == release
    }
  }

  const DIRECTML := "directml.dll"

  datatype Phase =
    | Arriving                  // about to look for the final binary
    | Checking                  // found it; running the cached-path checks
    | Fetching                  // in a temporary directory of its own
    | Fetched(got: Archive)     // downloaded something
    | Unpacked(got: Archive)    // its checksum was right
    | SidecarReady(got: Archive)  // binary and sidecar report the version
    | SidecarDone(got: Archive)   // the sidecar, if there is one, is in place
    | PlacingDlls(got: Archive, left: set<string>)
    | BinaryReady(got: Archive)   // all but the binary is in place
    | Finished
    | Failed                      // threw, or was killed

  datatype State = State(
    binary: Option<Content>,
    sidecar: Option<Content>,
    dlls: map<string, Content>,
    installers: seq<Phase>)

  datatype Step =
    | Arrive
    | Look(i: nat)
    | CheckCached(i: nat)
    | Download(i: nat, got: Archive)
    | VerifyArchive(i: nat)
    | VerifyExtracted(i: nat)
    | PlaceSidecar(i: nat, renamed: bool)
    | ListDlls(i: nat)
    | PlaceDll(i: nat, name: string, renamed: bool)
    | DllsPlaced(i: nat)
    | PlaceBinary(i: nat, renamed: bool)
    | Die(i: nat)

  /** The checks made when the final binary already exists. */
  predicate CachedChecksPass(m: Setting, s: State) {
    && s.binary.Some? && m.reports(s.binary.value)
    && (m.windows ==> DIRECTML in s.dlls)
    && (s.sidecar.Some? ==> m.reportsSidecar(s.sidecar.value))
  }

  predicate Enabled(s: State, step: Step) {
    match step
    case Arrive => true
    case Look(i) => i < |s.installers| && s.installers[i].Arriving?
    case CheckCached(i) => i < |s.installers| && s.installers[i].Checking?
    case Download(i, _) => i < |s.installers| && s.installers[i].Fetching?
    case VerifyArchive(i) => i < |s.installers| && s.installers[i].Fetched?
    case VerifyExtracted(i) => i < |s.installers| && s.installers[i].Unpacked?
    case PlaceSidecar(i, _) => i < |s.installers| && s.installers[i].SidecarReady?
    case ListDlls(i) => i < |s.installers| && s.installers[i].SidecarDone?
    case PlaceDll(i, name, _) =>
      && i < |s.installers| && s.installers[i].PlacingDlls?
      && name in s.installers[i].left && name in s.installers[i].got.dlls
    case DllsPlaced(i) => i < |s.installers| && s.installers[i].PlacingDlls? && s.installers[i].left == {}
    case PlaceBinary(i, _) => i < |s.installers| && s.installers[i].BinaryReady?
    case Die(i) => i < |s.installers| && !s.installers[i].Finished?
  }

  function To(s: State, i: nat, phase: Phase): State
    requires i < |s.installers|
  {
    s.(installers := s.installers[i := phase])
  }

  function Take(m: Setting, s: State, step: Step): State
    requires Enabled(s, step)
  {
    match step
    case Arrive => s.(installers := s.installers + [Arriving])
    case Look(i) => To(s, i, if s.binary.Some? then Checking else Fetching)
    case CheckCached(i) => To(s, i, if CachedChecksPass(m, s) then Finished else Failed)
    case Download(i, got) => To(s, i, Fetched(got))
    case VerifyArchive(i) =>
      var got := s.installers[i].got;
      To(s, i, if m.digest(got) == m.digest(m.release) then Unpacked(got) else Failed)
    case VerifyExtracted(i) =>
      var got := s.installers[i].got;
      if got.binary.None? || !m.reports(got.binary.value) then To(s, i, Failed)
      else if got.sidecar.None? then To(s, i, SidecarDone(got))
      else To(s, i, if m.reportsSidecar(got.sidecar.value) then SidecarReady(got) else Failed)
    case PlaceSidecar(i, renamed) =>
      var got := s.installers[i].got;
      if renamed then To(s.(sidecar := got.sidecar), i, SidecarDone(got))
      else To(s, i, if s.sidecar.Some? && m.reportsSidecar(s.sidecar.value) then SidecarDone(got) else Failed)
    case ListDlls(i) =>
      var got := s.installers[i].got;
      if !m.windows then To(s, i, BinaryReady(got))
      else To(s, i, if DIRECTML in got.dlls then PlacingDlls(got, got.dlls.Keys) else Failed)
    case PlaceDll(i, name, renamed) =>
      var p := s.installers[i];
      if renamed then To(s.(dlls := s.dlls[name := p.got.dlls[name]]), i, PlacingDlls(p.got, p.left - {name}))
      else To(s, i, if name in s.dlls then PlacingDlls(p.got, p.left - {name}) else Failed)
    case DllsPlaced(i) => To(s, i, BinaryReady(s.installers[i].got))
    case PlaceBinary(i, renamed) =>
      var got := s.installers[i].got;
      if renamed then To(s.(binary := got.binary), i, Finished)
      else To(s, i, if s.binary.Some? && m.reports(s.binary.value) then Finished else Failed)
    case Die(i) => To(s, i, Failed)
  }

  predicate Runs(m: Setting, s: State, steps: seq<Step>)
    decreases |steps|
  {
    steps == [] || (Enabled(s, steps[0]) && Runs(m, Take(m, s, steps[0]), steps[1..]))
  }

  function After(m: Setting, s: State, steps: seq<Step>): State
    requires Runs(m, s, steps)
    decreases |steps|
  {
    if steps == [] then s else After(m, Take(m, s, steps[0]), steps[1..])
  }

  const EMPTY: State := State(None, None, map[], [])

  // ---------------------------------------------------------------- the invariant

  /** The sidecar is the release's, if the release ships one. */
  predicate SidecarInPlace(m: Setting, s: State) {
    m.release.sidecar.Some? ==> s.sidecar == m.release.sidecar
  }

  predicate DllsInPlace(m: Setting, s: State) {
    m.windows ==> forall name | name in m.release.dlls :: name in s.dlls && s.dlls[name] == m.release.dlls[name]
  }

  /** A complete, verified installation. */
  predicate Installed(m: Setting, s: State) {
    && s.binary.Some? && s.binary == m.release.binary && m.reports(s.binary.value)
    && SidecarInPlace(m, s) && (s.sidecar.Some? ==> m.reportsSidecar(s.sidecar.value))
    && DllsInPlace(m, s) && (m.windows ==> "directml.dll" in s.dlls)
  }

  /** What an installer that has come this far knows. */
  ghost predicate PhaseOk(m: Setting, s: State, p: Phase) {
    match p
    case Checking => s.binary.Some?
    case Unpacked(got) => got == m.release
    case SidecarReady(got) =>
      && got == m.release && Vetted(m)
      && got.sidecar.Some?
    case SidecarDone(got) => got == m.release && Vetted(m) && SidecarInPlace(m, s)
    case PlacingDlls(got, left) =>
      && got == m.release && Vetted(m) && SidecarInPlace(m, s) && DIRECTML in got.dlls
      && forall name | name in m.release.dlls && name !in left :: name in s.dlls && s.dlls[name] == m.release.dlls[name]
    case BinaryReady(got) =>
      && got == m.release && Vetted(m) && SidecarInPlace(m, s) && DllsInPlace(m, s)
      && (m.windows ==> DIRECTML in m.release.dlls)
    case Finished => s.binary.Some?
    case _ => true
  }

  /** The release's own binaries report the right version. */
  predicate Vetted(m: Setting) {
    && m.release.binary.Some? && m.reports(m.release.binary.value)
    && (m.release.sidecar.Some? ==> m.reportsSidecar(m.release.sidecar.value))
  }

  ghost predicate Inv(m: Setting, s: State) {
    && (s.binary.Some? ==> Installed(m, s))
    && (s.sidecar.Some? ==> s.sidecar == m.release.sidecar && m.reportsSidecar(s.sidecar.value))
    && (forall name | name in s.dlls :: name in m.release.dlls && s.dlls[name] == m.release.dlls[name])
    && (forall i | 0 <= i < |s.installers| :: PhaseOk(m, s, s.installers[i]))
  }

  /** Nothing that has been put in place is ever taken away or changed. */
  predicate Grows(s: State, s': State) {
    && (s.binary.Some? ==> s'.binary == s.binary)
    && (s.sidecar.Some? ==> s'.sidecar == s.sidecar)
    && (forall name | name in s.dlls :: name in s'.dlls && s'.dlls[name] == s.dlls[name])
    && |s.installers| <= |s'.installers|
  }

  lemma GrowsReflexive(s: State)
    ensures Grows(s, s)
  {
  }

  lemma GrowsTransitive(a: State, b: State, c: State)
    requires Grows(a, b) && Grows(b, c)
    ensures Grows(a, c)
  {
  }

  lemma PhaseStillOk(m: Setting, s: State, s': State, p: Phase)
    requires PhaseOk(m, s, p) && Grows(s, s')
    ensures PhaseOk(m, s', p)
  {
  }

  lemma StepKeepsInv(m: Setting, s: State, step: Step)
    requires m.Authentic() && Inv(m, s) && Enabled(s, step)
    ensures Inv(m, Take(m, s, step)) && Grows(s, Take(m, s, step))
  {
    hide Installed, SidecarInPlace, DllsInPlace;
    var s' := Take(m, s, step);
    GrowsByOne(m, s, step);
    PlacedIsReleased(m, s, step);
    forall i | 0 <= i < |s'.installers| ensures PhaseOk(m, s', s'.installers[i]) {
      if i < |s.installers| && (step.Arrive? || step.i != i) {
        PhaseStillOk(m, s, s', s.installers[i]);
      } else if i < |s.installers| {
        MoverOk(m, s, step);
      }
    }
  }

  /** The installer that takes the step keeps what it must know. */
  lemma MoverOk(m: Setting, s: State, step: Step)
    requires m.Authentic() && Inv(m, s) && Enabled(s, step) && !step.Arrive?
    ensures PhaseOk(m, Take(m, s, step), Take(m, s, step).installers[step.i])
  {
    hide Installed;
    assert PhaseOk(m, s, s.installers[step.i]);
  }

  /** What is in place after the step is the release's, and complete once the binary is. */
  lemma PlacedIsReleased(m: Setting, s: State, step: Step)
    requires m.Authentic() && Inv(m, s) && Enabled(s, step)
    ensures var s' := Take(m, s, step);
            && (s'.binary.Some? ==> Installed(m, s'))
            && (s'.sidecar.Some? ==> s'.sidecar == m.release.sidecar && m.reportsSidecar(s'.sidecar.value))
            && (forall name | name in s'.dlls :: name in m.release.dlls && s'.dlls[name] == m.release.dlls[name])
  {
    if !step.Arrive? { assert PhaseOk(m, s, s.installers[step.i]); }
  }

  lemma GrowsByOne(m: Setting, s: State, step: Step)
    requires m.Authentic() && Inv(m, s) && Enabled(s, step)
    ensures Grows(s, Take(m, s, step))
  {
    if step.PlaceSidecar? || step.PlaceDll? || step.PlaceBinary? {
      assert PhaseOk(m, s, s.installers[step.i]);
    }
  }

  lemma {:induction false} RunKeepsInv(m: Setting, s: State, steps: seq<Step>)
    requires m.Authentic() && Inv(m, s) && Runs(m, s, steps)
    ensures Inv(m, After(m, s, steps))
    decreases |steps|
  {
    if steps != [] {
      StepKeepsInv(m, s, steps[0]);
      RunKeepsInv(m, Take(m, s, steps[0]), steps[1..]);
    }
  }

  // ---------------------------------------------------------------- the commit point

  /** The rename of the binary is the commit point: in every state of every run, wherever other
      installers were killed, a final binary means a complete verified installation, and the
      checks of the cached path succeed on it. */
  lemma BinaryIsCommitPoint(m: Setting, steps: seq<Step>)
    requires m.Authentic() && Runs(m, EMPTY, steps)
    ensures var s := After(m, EMPTY, steps);
            s.binary.Some? ==> Installed(m, s) && CachedChecksPass(m, s)
  {
    RunKeepsInv(m, EMPTY, steps);
  }

  /** An installer that finishes, on either path, leaves a complete installation behind. */
  lemma FinishedMeansInstalled(m: Setting, steps: seq<Step>, i: nat)
    requires m.Authentic() && Runs(m, EMPTY, steps)
    requires i < |After(m, EMPTY, steps).installers| && After(m, EMPTY, steps).installers[i].Finished?
    ensures Installed(m, After(m, EMPTY, steps))
  {
    RunKeepsInv(m, EMPTY, steps);
    assert PhaseOk(m, After(m, EMPTY, steps), After(m, EMPTY, steps).installers[i]);
  }

  /** Nothing of another archive is ever put in place, however the downloads went wrong. */
  lemma OnlyTheRelease(m: Setting, steps: seq<Step>)
    requires m.Authentic() && Runs(m, EMPTY, steps)
    ensures var s := After(m, EMPTY, steps);
            && (s.binary.Some? ==> s.binary == m.release.binary)
            && (s.sidecar.Some? ==> s.sidecar == m.release.sidecar)
            && (forall name | name in s.dlls :: name in m.release.dlls && s.dlls[name] == m.release.dlls[name])
  {
    RunKeepsInv(m, EMPTY, steps);
  }

  // ---------------------------------------------------------------- the code

  /** The two outcomes of one rename. */
  predicate Renames(step: Step, failed: Step) {
    match step
    case PlaceSidecar(i, r) => r && failed == PlaceSidecar(i, false)
    case PlaceDll(i, name, r) => r && failed == PlaceDll(i, name, false)
    case PlaceBinary(i, r) => r && failed == PlaceBinary(i, false)
    case _ => false
  }

  /** Whether the file to be put in place is there already. */
  predicate There(s: State, step: Step) {
    match step
    case PlaceSidecar(_, _) => s.sidecar.Some?
    case PlaceDll(_, name, _) => name in s.dlls
    case PlaceBinary(_, _) => s.binary.Some?
    case _ => false
  }

  lemma ExcuseSince(m: Setting, events: seq<Event>, since: nat, earlier: nat)
    requires Excuse(m, events, since) && earlier <= since
    ensures Excuse(m, events, earlier)
  {
  }

  /** Losing the rename of the sidecar or of the binary is fatal only if the file is not there. */
  lemma LostSidecar(m: Setting, s: State, i: nat, s': State, before: seq<Event>, events: seq<Event>)
    requires Inv(m, s) && i < |s.installers| && s.installers[i].SidecarReady?
    requires || (s' == Take(m, s, PlaceSidecar(i, true)) && events == before)
             || (s' == Take(m, s, PlaceSidecar(i, false)) && events == before + [RenameFailed(s.sidecar.Some?)])
    ensures i < |s'.installers| && (s'.installers[i].Failed? ==> Excuse(m, events, |before|))
  {
    if s'.installers[i].Failed? { assert IsExcuse(m, events[|before|]); }
  }

  lemma LostBinary(m: Setting, s: State, i: nat, s': State, before: seq<Event>, events: seq<Event>)
    requires Inv(m, s) && i < |s.installers| && s.installers[i].BinaryReady?
    requires || (s' == Take(m, s, PlaceBinary(i, true)) && events == before)
             || (s' == Take(m, s, PlaceBinary(i, false)) && events == before + [RenameFailed(s.binary.Some?)])
    requires i < |s'.installers| && s'.installers[i].Failed?
    ensures Excuse(m, events, |before|)
  {
    assert IsExcuse(m, events[|before|]);
  }

  lemma LostDll(m: Setting, s: State, i: nat, name: string, s': State, before: seq<Event>, events: seq<Event>)
    requires Enabled(s, PlaceDll(i, name, true))
    requires || (s' == Take(m, s, PlaceDll(i, name, true)) && events == before)
             || (s' == Take(m, s, PlaceDll(i, name, false)) && events == before + [RenameFailed(name in s.dlls)])
    requires s'.installers[i].Failed?
    ensures Excuse(m, events, |before|)
  {
    assert IsExcuse(m, events[|before|]);
  }

  lemma AllPlaced(m: Setting, s: State, i: nat)
    requires Inv(m, s) && i < |s.installers| && s.installers[i].BinaryReady?
    ensures DllsInPlace(m, s)
  {
    assert PhaseOk(m, s, s.installers[i]);
  }

  /** A release for Windows without the DLL that must be there cannot be installed. */
  lemma ListingFails(m: Setting, s: State, i: nat, events: seq<Event>, since: nat)
    requires Inv(m, s) && i < |s.installers| && s.installers[i].SidecarDone?
    ensures Take(m, s, ListDlls(i)).installers[i].Failed? ==> Excuse(m, events, since)
  {
    assert PhaseOk(m, s, s.installers[i]);
  }

  predicate Over(p: Phase) {
    p.Finished? || p.Failed?
  }

  /** What an installation met: a download that threw, or what it brought, and each rename that
      failed, with whether its target was there all the same. */
  datatype Event =
    | NotDownloaded
    | Downloaded(got: Archive)
    | RenameFailed(there: bool)

  /** Why an installation may throw: nothing was downloaded, or not the release, or a rename failed
      and nobody else had put the file there; or the release itself is at fault. */
  ghost predicate Excuse(m: Setting, events: seq<Event>, since: nat) {
    || !Vetted(m)
    || (m.windows && DIRECTML !in m.release.dlls)
    || exists i | since <= i < |events| :: IsExcuse(m, events[i])
  }

  predicate IsExcuse(m: Setting, e: Event) {
    e.NotDownloaded? || (e.Downloaded? && e.got != m.release) || e == RenameFailed(false)
  }

  class Cache {
    const m: Setting
    var s: State
    var agenda: seq<Step>
    ghost var events: seq<Event>

    ghost predicate Valid()
      reads this
    {
      m.Authentic() && Inv(m, s)
    }

    constructor (m: Setting, agenda: seq<Step>)
      requires m.Authentic()
      ensures Valid() && s == EMPTY && this.m == m
    {
      this.m := m;
      s, events := EMPTY, [];
      this.agenda := agenda;
    }

    method Do(step: Step)
      requires Valid() && Enabled(s, step)
      modifies `s
      ensures Valid() && s == Take(m, old(s), step) && Grows(old(s), s) && agenda == old(agenda)
      ensures |old(s).installers| <= |s.installers|
    {
      StepKeepsInv(m, s, step);
      s := Take(m, s, step);
    }

    /** The other installers get to run, or are killed. */
    method Others(me: nat)
      requires Valid() && me < |s.installers|
      modifies `s, `agenda
      ensures Valid() && Grows(old(s), s)
      ensures me < |s.installers| && s.installers[me] == old(s).installers[me]
    {
      var n :| 0 <= n <= |agenda|;
      for k := 0 to n
        invariant Valid() && Grows(old(s), s) && agenda == old(agenda)
        invariant s.installers[me] == old(s).installers[me]
      {
        if Enabled(s, agenda[k]) && (agenda[k].Arrive? || agenda[k].i != me) {
          Do(agenda[k]);
        }
      }
      agenda := agenda[n..];
    }

    /** A rename into place, which may fail; the step says what becomes of that. */
    method Rename(step: Step, retried: Step)
      requires Valid() && Enabled(s, step) && Enabled(s, retried)
      requires Renames(step, retried)
      modifies `s, `events
      ensures Valid() && Grows(old(s), s) && |old(s).installers| <= |s.installers|
      ensures || (s == Take(m, old(s), step) && events == old(events))
              || (s == Take(m, old(s), retried) && events == old(events) + [RenameFailed(There(old(s), step))])
    {
      var fails: bool := *;
      if fails {
        events := events + [RenameFailed(There(s, step))];
        Do(retried);
      } else {
        Do(step);
      }
    }

    /** `ensureBinary`. Success means that a complete, verified installation is in the cache, and
        is certain once a final binary is there; a failure has one of the known causes. What others
        had put in place before is never disturbed, and a failed installation never leaves a final
        binary that is not complete. */
    method EnsureBinary() returns (ok: bool)
      requires Valid()
      modifies this
      ensures Valid() && Grows(old(s), s)
      ensures |old(s).installers| < |s.installers| && Over(s.installers[|old(s).installers|])
      ensures ok <==> s.installers[|old(s).installers|].Finished?
      ensures ok ==> Installed(m, s)
      ensures old(s).binary.Some? ==> ok
      ensures !ok ==> Excuse(m, events, |old(events)|)
      ensures s.binary.Some? ==> Installed(m, s)
    {
      var me := |s.installers|;
      Do(Arrive);
      Others(me);
      Do(Look(me));
      if s.installers[me].Checking? {
        Others(me);
        Do(CheckCached(me));
      } else {
        FetchAndInstall(me);
      }
      ok := s.installers[me].Finished?;
      assert PhaseOk(m, s, s.installers[me]);
    }

    /** The download path: fetch, verify the checksum, unpack, verify the versions, then rename
        sidecar, DLLs and binary into place, in this order. */
    method FetchAndInstall(me: nat)
      requires Valid() && me < |s.installers| && s.installers[me].Fetching?
      modifies this
      ensures Valid() && Grows(old(s), s) && me < |s.installers| && Over(s.installers[me])
      ensures old(events) <= events
      ensures s.installers[me].Failed? ==> Excuse(m, events, |old(events)|)
    {
      hide Excuse, Inv, PhaseOk;
      FetchAndVerify(me);
      if s.installers[me].Failed? { return; }
      ghost var before, n := s, |events|;
      Place(me);
      GrowsTransitive(old(s), before, s);
      if s.installers[me].Failed? { ExcuseSince(m, events, n, |old(events)|); }
    }

    method FetchAndVerify(me: nat)
      requires Valid() && me < |s.installers| && s.installers[me].Fetching?
      modifies this
      ensures Valid() && Grows(old(s), s) && me < |s.installers|
      ensures s.installers[me].Failed? || s.installers[me].SidecarReady? || s.installers[me].SidecarDone?
      ensures old(events) <= events
      ensures s.installers[me].Failed? ==> Excuse(m, events, |old(events)|)
    {
      hide Inv, PhaseOk;
      Others(me);
      var got := FetchSomething();
      assert events[|old(events)|] == if got.None? then NotDownloaded else Downloaded(got.value);
      if got.None? {
        Do(Die(me));
        return;
      }
      Do(Download(me, got.value));
      Do(VerifyArchive(me));
      if s.installers[me].Failed? { return; }
      Do(VerifyExtracted(me));
    }

    /** Sidecar, DLLs and binary are renamed into place. */
    method Place(me: nat)
      requires Valid() && me < |s.installers| && (s.installers[me].SidecarReady? || s.installers[me].SidecarDone?)
      modifies this
      ensures Valid() && Grows(old(s), s) && me < |s.installers| && Over(s.installers[me])
      ensures old(events) <= events
      ensures s.installers[me].Failed? ==> Excuse(m, events, |old(events)|)
    {
      hide Inv, PhaseOk, Grows, Excuse;
      ghost var first := s;
      GrowsReflexive(s);
      if s.installers[me].SidecarReady? {
        InstallSidecar(me);
      }
      if s.installers[me].Failed? { return; }
      ghost var before := s;
      Do(ListDlls(me));
      ListingFails(m, before, me, events, |old(events)|);
      GrowsTransitive(first, before, s);
      if s.installers[me].Failed? { return; }
      before := s;
      ghost var n := |events|;
      if s.installers[me].PlacingDlls? {
        InstallDlls(me);
        GrowsTransitive(first, before, s);
      }
      if s.installers[me].Failed? {
        ExcuseSince(m, events, n, |old(events)|);
        return;
      }
      before, n := s, |events|;
      InstallBinary(me);
      GrowsTransitive(first, before, s);
      if s.installers[me].Failed? { ExcuseSince(m, events, n, |old(events)|); }
    }

    method InstallSidecar(me: nat)
      requires Valid() && me < |s.installers| && s.installers[me].SidecarReady?
      modifies this
      ensures Valid() && Grows(old(s), s) && me < |s.installers| && old(events) <= events
      ensures s.installers[me].SidecarDone? || s.installers[me].Failed?
      ensures s.installers[me].Failed? ==> Excuse(m, events, |old(events)|)
    {
      hide Inv, PhaseOk, Grows, Excuse;
      ghost var first := s;
      Others(me);
      ghost var mid := s;
      Rename(PlaceSidecar(me, true), PlaceSidecar(me, false));
      GrowsTransitive(first, mid, s);
      LostSidecar(m, mid, me, s, old(events), events);
    }

    method InstallBinary(me: nat)
      requires Valid() && me < |s.installers| && s.installers[me].BinaryReady?
      modifies this
      ensures Valid() && Grows(old(s), s) && me < |s.installers| && old(events) <= events && Over(s.installers[me])
      ensures s.installers[me].Failed? ==> Excuse(m, events, |old(events)|)
    {
      hide Inv, PhaseOk, Grows, Excuse;
      ghost var first := s;
      Others(me);
      ghost var mid := s;
      Rename(PlaceBinary(me, true), PlaceBinary(me, false));
      GrowsTransitive(first, mid, s);
      if s.installers[me].Failed? { LostBinary(m, mid, me, s, old(events), events); }
    }

    /** `installWindowsRuntimeDlls`: one rename per DLL; a failed rename is forgiven if the DLL
        is there all the same. */
    method InstallDlls(me: nat)
      requires Valid() && me < |s.installers| && s.installers[me].PlacingDlls?
      requires s.installers[me].left <= s.installers[me].got.dlls.Keys
      modifies this
      ensures Valid() && Grows(old(s), s)
      ensures me < |s.installers| && (s.installers[me].Failed? || s.installers[me].BinaryReady?)
      ensures s.installers[me].BinaryReady? ==> DllsInPlace(m, s)
      ensures old(events) <= events
      ensures s.installers[me].Failed? ==> Excuse(m, events, |old(events)|)
    {
      hide Inv, PhaseOk, Grows, Excuse, DllsInPlace;
      GrowsReflexive(s);
      while me < |s.installers| && s.installers[me].left != {}
        invariant me < |s.installers| && Valid() && Grows(old(s), s) && old(events) <= events
        invariant s.installers[me].PlacingDlls?
        invariant s.installers[me].left <= s.installers[me].got.dlls.Keys
        decreases s.installers[me].left
      {
        ghost var placed := s;
        Others(me);
        GrowsTransitive(old(s), placed, s);
        var name :| name in s.installers[me].left;
        ghost var before, met := s, events;
        Rename(PlaceDll(me, name, true), PlaceDll(me, name, false));
        GrowsTransitive(old(s), before, s);
        if s.installers[me].Failed? {
          LostDll(m, before, me, name, s, met, events);
          ExcuseSince(m, events, |met|, |old(events)|);
          return;
        }
      }
      ghost var before := s;
      Do(DllsPlaced(me));
      GrowsTransitive(old(s), before, s);
      AllPlaced(m, s, me);
    }

    /** A download either throws or yields some archive, possibly a damaged one. */
    method FetchSomething() returns (got: Option<Archive>)
      modifies `events
      ensures events == old(events) + [if got.None? then NotDownloaded else Downloaded(got.value)]
    {
      var fails: bool := *;
      var a: Archive := *;
      got := if fails then None else Some(a);
      events := events + [if fails then NotDownloaded else Downloaded(a)];
    }
  }
}
