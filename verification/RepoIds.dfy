/** Repository ids of a synthesized multi-workspace configuration (src/cli/mcp.rs).

    Each workspace is registered under its basename; a basename met before gets a "-N" suffix.
    The loader rejects duplicate ids, so what matters is when the emitted ids are distinct. */
module RepoIds {
  import opened Outcomes
  import opened Numerals

  /** A workspace path with its last component, when it has one that is valid text. */
  datatype Workspace = Workspace(path: string, fileName: Option<string>)

  datatype Entry = Entry(id: string, path: string)

  function Basename(ws: Workspace): string {
    match ws.fileName
    case Some(name) => name
    case None => "workspace"
  }

  function Basenames(workspaces: seq<Workspace>): (bases: seq<string>)
    ensures |bases| == |workspaces|
  {
    seq(|workspaces|, i requires 0 <= i < |workspaces| => Basename(workspaces[i]))
  }

  function Count(bases: seq<string>, b: string): nat {
    if bases == [] then 0
    else Count(bases[..|bases| - 1], b) + if bases[|bases| - 1] == b then 1 else 0
  }

  function Suffixed(b: string, k: nat): string {
    b + "-" + Decimal(k)
  }

  /** The id of the i-th workspace: how often its basename occurred before decides the suffix. */
  function Id(bases: seq<string>, i: nat): string
    requires i < |bases|
  {
    var k := Count(bases[..i], bases[i]);
    if k == 0 then bases[i] else Suffixed(bases[i], k)
  }

  ghost predicate DistinctIds(bases: seq<string>) {
    forall i, j | 0 <= i < j < |bases| :: Id(bases, i) != Id(bases, j)
  }

  /** Some workspace is literally named like the k-th repeat of another basename. */
  ghost predicate NameTaken(bases: seq<string>) {
    exists b: string, k: nat :: k >= 1 && Count(bases, b) > k && Suffixed(b, k) in bases
  }

  /** How often the map has seen `b`; an absent key has been seen zero times. */
  function Tally(seen: map<string, nat>, b: string): nat {
    if b in seen then seen[b] else 0
  }

  lemma CountNext(bases: seq<string>, n: nat, b: string)
    requires n < |bases|
    ensures Count(bases[..n + 1], b) == Count(bases[..n], b) + if bases[n] == b then 1 else 0
  {
    assert bases[..n + 1][..n] == bases[..n];
  }

  /** Emits the entries in order, counting basenames in a map as it goes. */
  method BuildEntries(workspaces: seq<Workspace>) returns (entries: seq<Entry>)
    ensures |entries| == |workspaces|
    ensures forall i | 0 <= i < |workspaces| ::
              entries[i] == Entry(Id(Basenames(workspaces), i), workspaces[i].path)
  {
    ghost var bases := Basenames(workspaces);
    entries := [];
    var seen: map<string, nat> := map[];
    for n := 0 to |workspaces|
      invariant |entries| == n
      invariant forall i | 0 <= i < n :: entries[i] == Entry(Id(bases, i), workspaces[i].path)
      invariant forall b :: Tally(seen, b) == Count(bases[..n], b)
    {
      var base := Basename(workspaces[n]);
      var count := Tally(seen, base);
      var id := if count == 0 then base else Suffixed(base, count);
      ghost var before := seen;
      seen := seen[base := count + 1];
      entries := entries + [Entry(id, workspaces[n].path)];
      forall b ensures Tally(seen, b) == Count(bases[..n + 1], b) {
        assert Tally(before, b) == Count(bases[..n], b);
        CountNext(bases, n, b);
      }
    }
  }

  // ---------------------------------------------------------------- counting occurrences

  lemma {:induction false} CountPrefix(bases: seq<string>, i: nat, j: nat, b: string)
    requires i <= j <= |bases|
    ensures Count(bases[..i], b) <= Count(bases[..j], b)
    ensures i < j && bases[i] == b ==> Count(bases[..i], b) < Count(bases[..j], b)
  {
    if i < j {
      CountPrefix(bases, i, j - 1, b);
      assert bases[..j][..j - 1] == bases[..j - 1];
    }
  }

  /** The (k+1)-th occurrence of a basename that occurs more than k times. */
  lemma {:induction false} Occurrence(bases: seq<string>, b: string, k: nat) returns (i: nat)
    requires Count(bases, b) > k
    ensures i < |bases| && bases[i] == b && Count(bases[..i], b) == k
  {
    var n := |bases| - 1;
    if Count(bases[..n], b) > k {
      i := Occurrence(bases[..n], b, k);
      assert bases[..n][..i] == bases[..i];
    } else {
      i := n;
    }
  }

  lemma {:induction false} CountZero(bases: seq<string>, b: string)
    ensures Count(bases, b) == 0 <==> b !in bases
  {
    if bases != [] {
      var n := |bases| - 1;
      CountZero(bases[..n], b);
      assert bases == bases[..n] + [bases[n]];
    }
  }

  lemma SuffixedInjective(b: string, k: nat, b': string, k': nat)
    requires Suffixed(b, k) == Suffixed(b', k')
    ensures b == b' && k == k'
  {
    NumeralAvoids(k, 10, '-');
    NumeralAvoids(k', 10, '-');
    SplitAtLast(b, Decimal(k), b', Decimal(k'), '-');
    NumeralInjective(k, k', 10);
  }

  /** Two entries with one id: one of them is named like a repeat of the other's basename. */
  lemma ClashMeansNameTaken(bases: seq<string>, i: nat, j: nat)
    requires i < j < |bases| && Id(bases, i) == Id(bases, j)
    ensures NameTaken(bases)
  {
    var p, q := Count(bases[..i], bases[i]), Count(bases[..j], bases[j]);
    CountPrefix(bases, i, j, bases[i]);
    CountPrefix(bases, i, |bases|, bases[i]);
    CountPrefix(bases, j, |bases|, bases[j]);
    assert bases[..|bases|] == bases;
    if p > 0 && q > 0 {
      SuffixedInjective(bases[i], p, bases[j], q);
    } else if p > 0 {
      assert Suffixed(bases[i], p) in bases;
    } else if q > 0 {
      assert Suffixed(bases[j], q) in bases;
    }
  }

  /** The emitted ids are pairwise distinct exactly when no workspace is named like a repeat
      of another one that really occurs that often. */
  lemma DistinctIffNoNameTaken(bases: seq<string>)
    ensures DistinctIds(bases) <==> !NameTaken(bases)
  {
    if NameTaken(bases) {
      var b: string, k: nat :| k >= 1 && Count(bases, b) > k && Suffixed(b, k) in bases;
      var c := Suffixed(b, k);
      CountZero(bases, c);
      var i := Occurrence(bases, b, k);
      var j := Occurrence(bases, c, 0);
      assert |c| > |b|;
      assert Id(bases, i) == c && Id(bases, j) == c;
    } else {
      forall i, j | 0 <= i < j < |bases|
        ensures Id(bases, i) != Id(bases, j)
      {
        if Id(bases, i) == Id(bases, j) { ClashMeansNameTaken(bases, i, j); }
      }
    }
  }

  /** What the id of a workspace is, said of the workspaces alone: its name, or "workspace" if it
      has none, and from the second of that name on a dash and how many came before. */
  lemma IdsSpelledOut(workspaces: seq<Workspace>, i: nat)
    requires i < |workspaces|
    ensures var name := match workspaces[i].fileName case Some(n) => n case None => "workspace";
            var before := set j | 0 <= j < i &&
                            (match workspaces[j].fileName case Some(n) => n case None => "workspace") == name;
            Id(Basenames(workspaces), i) == if before == {} then name else name + "-" + Decimal(|before|)
  {
    var bases := Basenames(workspaces);
    CountsEarlier(bases, i, bases[i]);
    hide Count, Decimal;
    assert (set j | 0 <= j < i && bases[j] == bases[i])
        == set j | 0 <= j < i &&
             (match workspaces[j].fileName case Some(n) => n case None => "workspace") == bases[i];
    var before := set j | 0 <= j < i && bases[j] == bases[i];
    assert before == {} <==> |before| == 0;
  }

  lemma {:induction false} CountsEarlier(bases: seq<string>, n: nat, b: string)
    requires n <= |bases|
    ensures Count(bases[..n], b) == |set j | 0 <= j < n && bases[j] == b|
  {
    var earlier := set j | 0 <= j < n && bases[j] == b;
    if n == 0 {
      assert earlier == {};
    } else {
      CountsEarlier(bases, n - 1, b);
      CountNext(bases, n - 1, b);
      var before := set j | 0 <= j < n - 1 && bases[j] == b;
      if bases[n - 1] == b {
        assert earlier == before + {n - 1};
      } else {
        assert earlier == before;
      }
    }
  }

  /** The first workspace of each basename keeps the basename as its id. */
  lemma FirstOccurrenceUnsuffixed(bases: seq<string>, i: nat)
    requires i < |bases| && bases[i] !in bases[..i]
    ensures Id(bases, i) == bases[i]
  {
    CountZero(bases[..i], bases[i]);
  }

  /** Three workspaces for which the configuration is rejected. */
  lemma ClashExample()
    ensures NameTaken(["repo", "repo", "repo-1"])
    ensures !DistinctIds(["repo", "repo", "repo-1"])
  {
    var bases := ["repo", "repo", "repo-1"];
    CountNext(bases, 0, "repo");
    CountNext(bases, 1, "repo");
    CountNext(bases, 2, "repo");
    assert bases[..3] == bases;
    assert Count(bases, "repo") == 2;
    assert Suffixed("repo", 1) == "repo-1";
    assert Suffixed("repo", 1) in bases;
    DistinctIffNoNameTaken(bases);
  }
}
