/** Choosing a resident daemon to attach to (`canonical_set` and `discover` of
    src/cli/shared_daemon.rs).

    A path is represented by its rank in path order, so that comparing ranks compares paths. */
module Discovery {
  import opened Outcomes

  type Path = nat

  /** What a daemon answers when asked who it is. */
  datatype Info = Info(workspaces: seq<Path>, shared: bool)

  datatype Found =
    | Covering(socket: Path)
    | Partial(socket: Path, missing: seq<Path>)
    | Nothing

  /** One scan of the run directory: the candidate sockets in order, and who answered. */
  datatype Scan = Scan(candidates: seq<Path>, answers: map<Path, Info>, canon: Path -> Path) {

    function CanonicalSet(workspaces: seq<Path>): set<Path> {
      set i: nat | i < |workspaces| :: canon(workspaces[i])
    }

    /** A live daemon that shares. No other candidate matters. */
    predicate Serving(s: Path) {
      s in candidates && s in answers && answers[s].shared
    }

    function Served(s: Path): set<Path>
      requires Serving(s)
    {
      CanonicalSet(answers[s].workspaces)
    }

    predicate Covers(s: Path, needed: set<Path>) {
      Serving(s) && needed <= Served(s)
    }

    function Overlap(s: Path, needed: set<Path>): nat
      requires Serving(s)
    {
      |needed * Served(s)|
    }

    /** The preference among covering daemons: the exact set's own socket, then the smallest
        served set, then path order. */
    function Preference(s: Path, exact: Path): (bool, nat, Path)
      requires Serving(s)
    {
      (s != exact, |Served(s)|, s)
    }
  }

  /** Tuples are compared component by component, and false sorts before true. */
  predicate Before(a: (bool, nat, Path), b: (bool, nat, Path)) {
    if a.0 != b.0 then !a.0
    else if a.1 != b.1 then a.1 < b.1
    else a.2 <= b.2
  }

  predicate StrictlySorted(s: seq<Path>) {
    forall i, j | 0 <= i < j < |s| :: s[i] < s[j]
  }

  ghost function Elements(s: seq<Path>): set<Path> {
    set x | x in s
  }

  // ---------------------------------------------------------------- what the scan should find

  /** The best answer for a client that needs `needed`, whose own socket would be `exact`. */
  ghost predicate IsBest(scan: Scan, needed: set<Path>, exact: Path, r: Found) {
    match r
    case Covering(s) =>
      && scan.Covers(s, needed)
      && forall t: Path | scan.Covers(t, needed) :: Before(scan.Preference(s, exact), scan.Preference(t, exact))
    case Partial(s, missing) =>
      && (forall t: Path :: !scan.Covers(t, needed))
      && scan.Serving(s)
      && (forall t: Path | scan.Serving(t) :: scan.Overlap(t, needed) <= scan.Overlap(s, needed))
      && (forall t: Path | scan.Serving(t) && t < s :: scan.Overlap(t, needed) < scan.Overlap(s, needed))
      && StrictlySorted(missing) && Elements(missing) == needed - scan.Served(s)
    case Nothing =>
      forall s: Path :: !scan.Serving(s)
  }

  /** There is only one best answer. */
  lemma BestIsUnique(scan: Scan, needed: set<Path>, exact: Path, r: Found, r': Found)
    requires IsBest(scan, needed, exact, r) && IsBest(scan, needed, exact, r')
    ensures r == r'
  {
    match (r, r')
    case (Partial(s, m), Partial(s', m')) =>
      assert scan.Overlap(s, needed) == scan.Overlap(s', needed);
      SortedUnique(m, m');
    case _ =>
  }

  /** A partial answer always names something to hand over. */
  lemma PartialMissesSomething(scan: Scan, needed: set<Path>, exact: Path, r: Found)
    requires IsBest(scan, needed, exact, r) && r.Partial?
    ensures r.missing != [] && forall p <- r.missing :: p in needed && p !in scan.Served(r.socket)
  {
    assert !scan.Covers(r.socket, needed);
    var p :| p in needed && p !in scan.Served(r.socket);
    assert p in Elements(r.missing);
    forall p | p in r.missing ensures p in needed && p !in scan.Served(r.socket) {
      assert p in Elements(r.missing);
    }
  }

  /** When the client's own socket is among the covering ones it is the one chosen. */
  lemma ExactSocketPreferred(scan: Scan, needed: set<Path>, exact: Path, r: Found)
    requires IsBest(scan, needed, exact, r) && scan.Covers(exact, needed)
    ensures r == Covering(exact)
  {
  }

  /** Among covering daemons, other than the client's own: the one that serves least, and of two
      that serve as much the one whose socket comes first. */
  lemma SmallestCoveringPreferred(scan: Scan, needed: set<Path>, exact: Path, s: Path, t: Path)
    requires IsBest(scan, needed, exact, Covering(s)) && scan.Covers(t, needed) && t != exact
    ensures scan.Serving(s) && (s == exact || |scan.Served(s)| < |scan.Served(t)|
                                || (|scan.Served(s)| == |scan.Served(t)| && s <= t))
  {
    assert Before(scan.Preference(s, exact), scan.Preference(t, exact));
  }

  /** Daemons that do not share, and sockets nobody answers on, never influence the answer. */
  lemma OnlySharersMatter(scan: Scan, scan': Scan, needed: set<Path>, exact: Path, r: Found)
    requires scan'.canon == scan.canon
    requires forall s: Path :: scan.Serving(s) <==> scan'.Serving(s)
    requires forall s: Path | scan.Serving(s) && scan'.Serving(s) :: scan'.answers[s] == scan.answers[s]
    ensures IsBest(scan, needed, exact, r) ==> IsBest(scan', needed, exact, r)
  {
    forall s: Path | scan.Serving(s)
      ensures scan'.Served(s) == scan.Served(s)
      ensures scan'.Covers(s, needed) == scan.Covers(s, needed)
    { }
    if IsBest(scan, needed, exact, r) {
      forall t ensures scan'.Covers(t, needed) == scan.Covers(t, needed) {
        assert scan.Serving(t) <==> scan'.Serving(t);
      }
    }
  }

  lemma {:induction false} SortedUnique(a: seq<Path>, b: seq<Path>)
    requires StrictlySorted(a) && StrictlySorted(b) && Elements(a) == Elements(b)
    ensures a == b
  {
    SortedSize(a);
    SortedSize(b);
    if a != [] {
      assert a[0] in Elements(a) && b[0] in Elements(b);
      assert a[0] == b[0];
      forall x ensures x in Elements(a[1..]) <==> x in Elements(a) && x != a[0] { SortedTail(a, x); }
      forall x ensures x in Elements(b[1..]) <==> x in Elements(b) && x != b[0] { SortedTail(b, x); }
      SortedUnique(a[1..], b[1..]);
      assert a == [a[0]] + a[1..] && b == [b[0]] + b[1..];
    }
  }

  lemma SortedTail(a: seq<Path>, x: Path)
    requires StrictlySorted(a) && a != []
    ensures x in a[1..] <==> x in a && x != a[0]
  {
    if x in a && x != a[0] {
      var i :| 0 <= i < |a| && a[i] == x;
      assert a[1..][i - 1] == x;
    }
  }

  lemma {:induction false} SortedSize(s: seq<Path>)
    requires StrictlySorted(s)
    ensures |Elements(s)| == |s|
  {
    if s != [] {
      var n := |s| - 1;
      SortedSize(s[..n]);
      assert s[n] !in s[..n];
      assert Elements(s) == Elements(s[..n]) + {s[n]};
    }
  }

  // ---------------------------------------------------------------- the code

  /** Insertion into a sorted list without duplicates, which is what sorting and deduplicating
      one element at a time comes to. */
  method Insert(s: seq<Path>, x: Path) returns (r: seq<Path>)
    requires StrictlySorted(s)
    ensures StrictlySorted(r) && Elements(r) == Elements(s) + {x}
  {
    var i := 0;
    while i < |s| && s[i] < x
      invariant 0 <= i <= |s| && forall j | 0 <= j < i :: s[j] < x
    {
      i := i + 1;
    }
    if i < |s| && s[i] == x { return s; }
    r := s[..i] + [x] + s[i..];
    assert Elements(r) == Elements(s) + {x} by {
      assert s == s[..i] + s[i..];
    }
  }

  /** `canonical_set`: the canonical paths, sorted, without duplicates. */
  method CanonicalSet(scan: Scan, workspaces: seq<Path>) returns (r: seq<Path>)
    ensures StrictlySorted(r) && Elements(r) == scan.CanonicalSet(workspaces)
    ensures |r| == |scan.CanonicalSet(workspaces)|
  {
    r := [];
    for n := 0 to |workspaces|
      invariant StrictlySorted(r) && Elements(r) == scan.CanonicalSet(workspaces[..n])
    {
      r := Insert(r, scan.canon(workspaces[n]));
      CanonicalNext(scan, workspaces, n);
    }
    assert workspaces[..|workspaces|] == workspaces;
    SortedSize(r);
  }

  lemma CanonicalNext(scan: Scan, workspaces: seq<Path>, n: nat)
    requires n < |workspaces|
    ensures scan.CanonicalSet(workspaces[..n + 1]) == scan.CanonicalSet(workspaces[..n]) + {scan.canon(workspaces[n])}
  {
    var a, b := scan.CanonicalSet(workspaces[..n + 1]), scan.CanonicalSet(workspaces[..n]);
    forall x | x in b ensures x in a {
      var i: nat :| i < n && scan.canon(workspaces[..n][i]) == x;
      assert workspaces[..n + 1][i] == workspaces[..n][i];
    }
    forall x | x in a ensures x in b + {scan.canon(workspaces[n])} {
      var i: nat :| i < n + 1 && scan.canon(workspaces[..n + 1][i]) == x;
      if i < n { assert workspaces[..n][i] == workspaces[..n + 1][i]; }
    }
    assert workspaces[..n + 1][n] == workspaces[n];
  }

  /** The needed paths a daemon does not serve, in order. */
  method Missing(needed: seq<Path>, served: seq<Path>) returns (missing: seq<Path>)
    requires StrictlySorted(needed)
    ensures StrictlySorted(missing) && Elements(missing) == Elements(needed) - Elements(served)
  {
    missing := [];
    for n := 0 to |needed|
      invariant StrictlySorted(missing)
      invariant forall x :: x in missing <==> x in needed[..n] && x !in served
    {
      assert needed[..n + 1] == needed[..n] + [needed[n]];
      assert forall i | 0 <= i < |missing| :: missing[i] in missing && missing[i] in needed[..n];
      assert forall i | 0 <= i < |missing| :: missing[i] < needed[n];
      if needed[n] !in served {
        missing := missing + [needed[n]];
      }
    }
    assert needed[..|needed|] == needed;
  }

  /** The first of the covering daemons after sorting them by preference. */
  method First(covering: seq<(bool, nat, Path)>) returns (best: (bool, nat, Path))
    requires covering != []
    ensures best in covering && forall c <- covering :: Before(best, c)
  {
    best := covering[0];
    for n := 1 to |covering|
      invariant best in covering && forall i | 0 <= i < n :: Before(best, covering[i])
    {
      if !Before(best, covering[n]) { best := covering[n]; }
    }
  }

  /** What one daemon that shares has to offer a client. */
  method Assess(scan: Scan, needed: seq<Path>, socket: Path) returns (missing: seq<Path>, size: nat)
    requires scan.Serving(socket) && StrictlySorted(needed)
    ensures size == |scan.Served(socket)|
    ensures StrictlySorted(missing) && Elements(missing) == Elements(needed) - scan.Served(socket)
    ensures missing == [] <==> scan.Covers(socket, Elements(needed))
    ensures |missing| <= |needed| && |needed| - |missing| == scan.Overlap(socket, Elements(needed))
  {
    var served := CanonicalSet(scan, scan.answers[socket].workspaces);
    size := |served|;
    missing := Missing(needed, served);
    ghost var want, have := Elements(needed), scan.Served(socket);
    SortedSize(needed);
    SortedSize(missing);
    assert want == (want * have) + Elements(missing);
    assert (want * have) * Elements(missing) == {};
    if missing != [] { assert missing[0] in Elements(missing); }
  }

  /** The best partial candidate among the first `n`. */
  ghost predicate IsPartial(scan: Scan, needed: set<Path>, n: nat, p: (Path, nat, seq<Path>))
    requires n <= |scan.candidates|
  {
    && p.0 in scan.candidates[..n]
    && scan.Serving(p.0)
    && p.1 == scan.Overlap(p.0, needed)
    && StrictlySorted(p.2) && Elements(p.2) == needed - scan.Served(p.0)
    && forall i | 0 <= i < n && scan.Serving(scan.candidates[i]) && !scan.Covers(scan.candidates[i], needed) ::
          && scan.Overlap(scan.candidates[i], needed) <= p.1
          && (scan.candidates[i] < p.0 ==> scan.Overlap(scan.candidates[i], needed) < p.1)
  }

  /** The covering daemons among the first `n`, each with its preference. */
  ghost predicate IsCovering(scan: Scan, needed: set<Path>, exact: Path, n: nat, covering: seq<(bool, nat, Path)>)
    requires n <= |scan.candidates|
  {
    && (forall c <- covering :: scan.Covers(c.2, needed) && c == scan.Preference(c.2, exact))
    && (forall i | 0 <= i < n && scan.Covers(scan.candidates[i], needed) ::
          scan.Preference(scan.candidates[i], exact) in covering)
  }

  lemma NothingCovering(scan: Scan, exact: Path)
    ensures forall want: set<Path> :: IsCovering(scan, want, exact, 0, [])
  {
  }

  lemma NotCoveringNext(scan: Scan, needed: set<Path>, exact: Path, n: nat, covering: seq<(bool, nat, Path)>)
    requires n < |scan.candidates| && IsCovering(scan, needed, exact, n, covering)
    requires !scan.Covers(scan.candidates[n], needed)
    ensures IsCovering(scan, needed, exact, n + 1, covering)
  {
    hide Scan.Served;
  }

  lemma CoveringNext(scan: Scan, needed: set<Path>, exact: Path, n: nat, covering: seq<(bool, nat, Path)>)
    requires n < |scan.candidates| && IsCovering(scan, needed, exact, n, covering)
    requires scan.Covers(scan.candidates[n], needed)
    ensures var s := scan.candidates[n];
            IsCovering(scan, needed, exact, n + 1, covering + [(s != exact, |scan.Served(s)|, s)])
  {
    hide Scan.Served;
  }

  /** The best partial candidate so far stays the best unless the next one overlaps more. */
  lemma PartialNext(scan: Scan, needed: set<Path>, n: nat, p: (Path, nat, seq<Path>))
    requires StrictlySorted(scan.candidates) && n < |scan.candidates| && IsPartial(scan, needed, n, p)
    ensures var s := scan.candidates[n];
            || (scan.Serving(s) && !scan.Covers(s, needed) && scan.Overlap(s, needed) > p.1)
            || IsPartial(scan, needed, n + 1, p)
  {
    hide Scan.Served, Scan.Overlap;
    var k :| 0 <= k < n && scan.candidates[k] == p.0;
    assert scan.candidates[..n + 1][k] == p.0;
  }

  lemma BetterPartial(scan: Scan, needed: set<Path>, n: nat, best: Option<(Path, nat, seq<Path>)>,
                      p: (Path, nat, seq<Path>))
    requires StrictlySorted(scan.candidates) && n < |scan.candidates|
    requires p.0 == scan.candidates[n] && scan.Serving(p.0) && p.1 == scan.Overlap(p.0, needed)
    requires StrictlySorted(p.2) && Elements(p.2) == needed - scan.Served(p.0)
    requires match best
             case Some(q) => IsPartial(scan, needed, n, q) && p.1 > q.1
             case None => forall i | 0 <= i < n && scan.Serving(scan.candidates[i]) ::
                            scan.Covers(scan.candidates[i], needed)
    ensures IsPartial(scan, needed, n + 1, p)
  {
    hide Scan.Served, Scan.Overlap;
    assert scan.candidates[..n + 1][n] == p.0;
  }

  /** `discover`: asks every candidate in order, collects those that cover the needed set, and
      keeps the first one of largest overlap among the rest. */
  method Discover(scan: Scan, workspaces: seq<Path>, exact: Path) returns (r: Found)
    requires StrictlySorted(scan.candidates)
    ensures IsBest(scan, scan.CanonicalSet(workspaces), exact, r)
  {
    hide Scan.Served, Scan.CanonicalSet, Scan.Overlap, IsBest, IsCovering, IsPartial;
    NothingCovering(scan, exact);
    var needed := CanonicalSet(scan, workspaces);
    ghost var want := Elements(needed);
    var covering: seq<(bool, nat, Path)> := [];
    var partial: Option<(Path, nat, seq<Path>)> := None;
    for n := 0 to |scan.candidates|
      invariant IsCovering(scan, want, exact, n, covering)
      invariant partial.Some? ==> IsPartial(scan, want, n, partial.value)
      invariant partial.None? ==>
                  forall i | 0 <= i < n && scan.Serving(scan.candidates[i]) :: scan.Covers(scan.candidates[i], want)
    {
      var socket := scan.candidates[n];
      assert scan.candidates[..n + 1] == scan.candidates[..n] + [socket];
      if socket in scan.answers && scan.answers[socket].shared {
        var missing, size := Assess(scan, needed, socket);
        if partial.Some? { PartialNext(scan, want, n, partial.value); }
        if missing == [] {
          CoveringNext(scan, want, exact, n, covering);
          covering := covering + [(socket != exact, size, socket)];
        } else {
          NotCoveringNext(scan, want, exact, n, covering);
          var overlap := |needed| - |missing|;
          if partial.None? || overlap > partial.value.1 {
            BetterPartial(scan, want, n, partial, (socket, overlap, missing));
            partial := Some((socket, overlap, missing));
          }
        }
      } else {
        NotCoveringNext(scan, want, exact, n, covering);
        if partial.Some? { PartialNext(scan, want, n, partial.value); }
      }
    }
    r := Choose(scan, want, exact, covering, partial);
  }

  /** Covering daemons are preferred over partial ones. */
  method Choose(scan: Scan, ghost needed: set<Path>, exact: Path,
                covering: seq<(bool, nat, Path)>, partial: Option<(Path, nat, seq<Path>)>) returns (r: Found)
    requires IsCovering(scan, needed, exact, |scan.candidates|, covering)
    requires partial.Some? ==> IsPartial(scan, needed, |scan.candidates|, partial.value)
    requires partial.None? ==> forall i | 0 <= i < |scan.candidates| && scan.Serving(scan.candidates[i]) ::
                                 scan.Covers(scan.candidates[i], needed)
    ensures IsBest(scan, needed, exact, r)
  {
    forall t: Path | scan.Serving(t) ensures exists i :: 0 <= i < |scan.candidates| && scan.candidates[i] == t { }
    if covering != [] {
      var best := First(covering);
      return Covering(best.2);
    }
    match partial
    case Some(p) => return Partial(p.0, p.2);
    case None => return Nothing;
  }
}
