/** Scoring an agent's claims against a predeclared oracle (scripts/acceptance/ab_metrics.py). */
module Scoring {
  import opened Outcomes
  import Text

  datatype Claim = Claim(symbol: string, evidence: string, asserts: bool)

  datatype Place = Place(repo: string, symbol: string) {
    function Key(): string { repo + ":" + symbol }
  }

  datatype Entry = Entry(place: Place, evidence: string, acceptable: Option<seq<string>>, coupling: Option<string>) {
    function Class(): string {
      if coupling.None? || coupling.value == "" then "unclassified" else coupling.value
    }
  }

  /** `outside` is the pattern that recognises claims about code outside the workspace. */
  datatype Oracle = Oracle(entries: seq<Entry>, traps: seq<Place>,
                           overrides: map<string, seq<string>>, outside: string -> bool)

  /** The evidence classes that count as right for an entry: its own list wins over the
      override table, which wins over the entry's evidence. */
  function Accepted(o: Oracle, e: Entry): seq<string> {
    if e.acceptable.Some? then e.acceptable.value
    else if e.place.Key() in o.overrides then o.overrides[e.place.Key()]
    else [e.evidence]
  }

  function Places(es: seq<Entry>): (ps: seq<Place>)
    ensures |ps| == |es| && forall i | 0 <= i < |es| :: ps[i] == es[i].place
  {
    seq(|es|, i requires 0 <= i < |es| => es[i].place)
  }

  // ---------------------------------------------------------------- which claims hit an entry

  function InRepo(places: seq<Place>, repo: string): nat {
    if places == [] then 0
    else InRepo(places[1..], repo) + (if places[0].repo == repo then 1 else 0)
  }

  /** A claim hits a place of its own repository by naming the symbol, or by being in a
      repository that hosts only that place. Must-find entries outside the workspace are
      matched by the pattern instead. */
  predicate Hits(c: Claim, places: seq<Place>, outside: Option<string -> bool>, j: nat)
    requires j < |places|
  {
    var p := places[j];
    if outside.Some? && p.repo == "external" then outside.value(c.symbol)
    else p.repo + ":" <= c.symbol && (Text.EndsWith(c.symbol, ":" + p.symbol) || InRepo(places, p.repo) == 1)
  }

  /** How many of the first `n` places are recorded under `key` and hit by the claim. */
  function Copies(c: Claim, places: seq<Place>, outside: Option<string -> bool>, key: string, n: nat): nat
    requires n <= |places|
  {
    if n == 0 then 0
    else Copies(c, places, outside, key, n - 1)
         + (if places[n - 1].Key() == key && Hits(c, places, outside, n - 1) then 1 else 0)
  }

  function Times(c: Claim, n: nat): seq<Claim> {
    if n == 0 then [] else Times(c, n - 1) + [c]
  }

  lemma {:induction false} InTimes(c: Claim, n: nat, d: Claim)
    ensures d in Times(c, n) <==> n > 0 && d == c
  {
    if n > 0 { InTimes(c, n - 1, d); }
  }

  /** The claims recorded under `key`, in order, once for every place of that key they hit. */
  function HitsOn(claims: seq<Claim>, places: seq<Place>, outside: Option<string -> bool>, key: string): seq<Claim> {
    if claims == [] then []
    else
      var c := claims[|claims| - 1];
      HitsOn(claims[..|claims| - 1], places, outside, key)
        + Times(c, Copies(c, places, outside, key, |places|))
  }

  function EntryHits(o: Oracle, claims: seq<Claim>, e: Entry): seq<Claim> {
    HitsOn(claims, Places(o.entries), Some(o.outside), e.place.Key())
  }

  function TrapHits(o: Oracle, claims: seq<Claim>, p: Place): seq<Claim> {
    HitsOn(claims, o.traps, None, p.Key())
  }

  lemma {:induction false} CopiesPositive(c: Claim, places: seq<Place>, outside: Option<string -> bool>,
                                          key: string, n: nat)
    requires n <= |places|
    ensures Copies(c, places, outside, key, n) > 0
       <==> exists j :: 0 <= j < n && places[j].Key() == key && Hits(c, places, outside, j)
  {
    if n > 0 { CopiesPositive(c, places, outside, key, n - 1); }
  }

  /** Nothing is recorded that did not hit, and every hit is recorded. */
  lemma {:induction false} RecordedIffHit(claims: seq<Claim>, places: seq<Place>, outside: Option<string -> bool>,
                                          key: string, c: Claim)
    ensures c in HitsOn(claims, places, outside, key)
       <==> c in claims && exists j :: 0 <= j < |places| && places[j].Key() == key && Hits(c, places, outside, j)
  {
    if claims != [] {
      var last := claims[|claims| - 1];
      RecordedIffHit(claims[..|claims| - 1], places, outside, key, c);
      CopiesPositive(last, places, outside, key, |places|);
      assert claims == claims[..|claims| - 1] + [last];
      InTimes(last, Copies(last, places, outside, key, |places|), c);
    }
  }

  lemma {:induction false} NoneInRepo(places: seq<Place>, repo: string)
    ensures InRepo(places, repo) == 0 <==> forall k | 0 <= k < |places| :: places[k].repo != repo
  {
    if places != [] {
      NoneInRepo(places[1..], repo);
      assert forall k | 0 < k < |places| :: places[k] == places[1..][k - 1];
      if InRepo(places, repo) == 0 {
        forall k | 0 <= k < |places| ensures places[k].repo != repo {
          if k > 0 { assert places[1..][k - 1].repo != repo; }
        }
      }
    }
  }

  lemma {:induction false} AloneInRepo(places: seq<Place>, j: nat)
    requires j < |places|
    ensures InRepo(places, places[j].repo) == 1
       <==> forall k | 0 <= k < |places| && k != j :: places[k].repo != places[j].repo
  {
    var repo := places[j].repo;
    NoneInRepo(places[1..], repo);
    assert forall k | 0 < k < |places| :: places[k] == places[1..][k - 1];
    if j > 0 {
      AloneInRepo(places[1..], j - 1);
      if places[0].repo != repo && forall k | 0 <= k < |places[1..]| && k != j - 1 :: places[1..][k].repo != repo {
        forall k | 0 <= k < |places| && k != j ensures places[k].repo != repo {
          if k > 0 { assert places[1..][k - 1].repo != repo; }
        }
      }
      if forall k | 0 <= k < |places| && k != j :: places[k].repo != repo {
        forall k | 0 <= k < |places[1..]| && k != j - 1 ensures places[1..][k].repo != repo {
          assert places[k + 1].repo != repo;
        }
      }
    } else if forall k | 0 <= k < |places| && k != j :: places[k].repo != repo {
      forall k | 0 <= k < |places[1..]| ensures places[1..][k].repo != repo { assert places[k + 1].repo != repo; }
    }
    if InRepo(places, repo) == 1 && places[0].repo == repo {
      assert InRepo(places[1..], repo) == 0;
      forall k | 0 < k < |places| ensures places[k].repo != repo { assert places[1..][k - 1].repo != repo; }
    }
  }

  /** Which claims are recorded, said of the places alone: a place outside the workspace takes
      what the pattern recognises; any other takes the claims of its repository that name its
      symbol, and if it is alone in its repository all of them. */
  lemma RecordedExactly(claims: seq<Claim>, places: seq<Place>, outside: Option<string -> bool>, key: string, c: Claim)
    ensures c in HitsOn(claims, places, outside, key)
       <==> && c in claims
            && exists j ::
                 && 0 <= j < |places| && places[j].repo + ":" + places[j].symbol == key
                 && if outside.Some? && places[j].repo == "external" then outside.value(c.symbol)
                    else
                      && places[j].repo + ":" <= c.symbol
                      && (|| Text.EndsWith(c.symbol, ":" + places[j].symbol)
                          || forall k | 0 <= k < |places| && k != j :: places[k].repo != places[j].repo)
  {
    RecordedIffHit(claims, places, outside, key, c);
    forall j | 0 <= j < |places|
      ensures Hits(c, places, outside, j) <==>
              if outside.Some? && places[j].repo == "external" then outside.value(c.symbol)
              else places[j].repo + ":" <= c.symbol
                   && (|| Text.EndsWith(c.symbol, ":" + places[j].symbol)
                       || forall k | 0 <= k < |places| && k != j :: places[k].repo != places[j].repo)
      ensures places[j].Key() == places[j].repo + ":" + places[j].symbol
    {
      AloneInRepo(places, j);
    }
    hide Hits, InRepo, HitsOn, Place.Key, Text.EndsWith;
  }

  /** A place that is the only one of its repository is credited with every claim about that
      repository, whatever symbol it names. */
  lemma LonePlaceTakesAll(claims: seq<Claim>, places: seq<Place>, outside: Option<string -> bool>, j: nat, c: Claim)
    requires j < |places| && c in claims && places[j].repo + ":" <= c.symbol
    requires outside.None? || places[j].repo != "external"
    requires forall k | 0 <= k < |places| && k != j :: places[k].repo != places[j].repo
    ensures c in HitsOn(claims, places, outside, places[j].Key())
  {
    RecordedExactly(claims, places, outside, places[j].Key(), c);
    hide HitsOn, Text.EndsWith;
  }

  /** Where two places share a repository, a claim must name one's symbol to be recorded under
      its key, unless its key is also that of a place elsewhere. */
  lemma SharedRepositoryNeedsSymbol(claims: seq<Claim>, places: seq<Place>, outside: Option<string -> bool>,
                                    i: nat, j: nat, c: Claim)
    requires i < |places| && j < |places| && i != j && places[i].repo == places[j].repo
    requires outside.None? || places[j].repo != "external"
    requires forall k | 0 <= k < |places| && places[k].Key() == places[j].Key() :: places[k] == places[j]
    ensures c in HitsOn(claims, places, outside, places[j].Key())
       <==> c in claims && places[j].repo + ":" <= c.symbol && Text.EndsWith(c.symbol, ":" + places[j].symbol)
  {
    RecordedExactly(claims, places, outside, places[j].Key(), c);
    hide HitsOn, Text.EndsWith;
    assert forall k | 0 <= k < |places| && places[k] == places[j] :: (if k == i then j else i) != k;
  }

  /** Must-find places outside the workspace are credited with what the pattern recognises. */
  lemma ExternalByPattern(claims: seq<Claim>, places: seq<Place>, outside: string -> bool, j: nat, c: Claim)
    requires j < |places| && places[j].repo == "external"
    requires forall k | 0 <= k < |places| && places[k].Key() == places[j].Key() :: places[k] == places[j]
    ensures c in HitsOn(claims, places, Some(outside), places[j].Key()) <==> c in claims && outside(c.symbol)
  {
    RecordedExactly(claims, places, Some(outside), places[j].Key(), c);
    hide HitsOn, Text.EndsWith;
  }

  function HittingClaims(claims: seq<Claim>, places: seq<Place>, outside: Option<string -> bool>, j: nat): seq<Claim>
    requires j < |places|
  {
    if claims == [] then []
    else HittingClaims(claims[..|claims| - 1], places, outside, j)
         + (if Hits(claims[|claims| - 1], places, outside, j) then [claims[|claims| - 1]] else [])
  }

  /** A claim hits some other place with this one's key. */
  ghost predicate HitsNamesake(c: Claim, places: seq<Place>, outside: Option<string -> bool>, j: nat)
    requires j < |places|
  {
    exists i :: 0 <= i < |places| && i != j && places[i].Key() == places[j].Key() && Hits(c, places, outside, i)
  }

  lemma {:induction false} CopiesAtLeastOwn(c: Claim, places: seq<Place>, outside: Option<string -> bool>,
                                            j: nat, n: nat)
    requires j < |places| && n <= |places|
    ensures var own := if j < n && Hits(c, places, outside, j) then 1 else 0;
            Copies(c, places, outside, places[j].Key(), n) >= own
            && (Copies(c, places, outside, places[j].Key(), n) == own <==>
                  forall i | 0 <= i < n && i != j && places[i].Key() == places[j].Key() :: !Hits(c, places, outside, i))
  {
    if n > 0 { CopiesAtLeastOwn(c, places, outside, j, n - 1); }
  }

  /** A place's record is at least as long as the list of claims that hit it, and as long only if
      no claim hits a namesake. */
  lemma {:induction false} RecordLength(claims: seq<Claim>, places: seq<Place>, outside: Option<string -> bool>, j: nat)
    requires j < |places|
    ensures |HitsOn(claims, places, outside, places[j].Key())| >= |HittingClaims(claims, places, outside, j)|
    ensures |HitsOn(claims, places, outside, places[j].Key())| == |HittingClaims(claims, places, outside, j)| ==>
              forall c <- claims :: !HitsNamesake(c, places, outside, j)
  {
    if claims != [] {
      var c := claims[|claims| - 1];
      RecordLength(claims[..|claims| - 1], places, outside, j);
      CopiesAtLeastOwn(c, places, outside, j, |places|);
      TimesLength(c, Copies(c, places, outside, places[j].Key(), |places|));
      assert forall x <- claims :: x == c || x in claims[..|claims| - 1];
    }
  }

  lemma {:induction false} TimesLength(c: Claim, n: nat)
    ensures |Times(c, n)| == n
  {
    if n > 0 { TimesLength(c, n - 1); }
  }

  lemma {:induction false} RecordOfOwn(claims: seq<Claim>, places: seq<Place>, outside: Option<string -> bool>, j: nat)
    requires j < |places| && forall c <- claims :: !HitsNamesake(c, places, outside, j)
    ensures HitsOn(claims, places, outside, places[j].Key()) == HittingClaims(claims, places, outside, j)
  {
    if claims != [] {
      var c := claims[|claims| - 1];
      assert c in claims && forall x <- claims[..|claims| - 1] :: x in claims;
      RecordOfOwn(claims[..|claims| - 1], places, outside, j);
      CopiesAtLeastOwn(c, places, outside, j, |places|);
      assert Times(c, 0) == [];
    }
  }

  /** A place's record is exactly the claims that hit it, unless one of the claims also hits
      another place of the same key: then, and only then, something is counted that should not
      be. */
  lemma CountedOnceIff(claims: seq<Claim>, places: seq<Place>, outside: Option<string -> bool>, j: nat)
    requires j < |places|
    ensures HitsOn(claims, places, outside, places[j].Key()) == HittingClaims(claims, places, outside, j)
       <==> forall c <- claims :: !HitsNamesake(c, places, outside, j)
  {
    RecordLength(claims, places, outside, j);
    if forall c <- claims :: !HitsNamesake(c, places, outside, j) { RecordOfOwn(claims, places, outside, j); }
  }

  /** Two entries for one place: a single claim that hits it is recorded twice. */
  lemma DoubleCountExample(c: Claim)
    requires c.symbol == "r:f"
    ensures var places := [Place("r", "f"), Place("r", "f")];
            HittingClaims([c], places, None, 0) == [c] && HitsOn([c], places, None, "r:f") == [c, c]
  {
    var places := [Place("r", "f"), Place("r", "f")];
    assert "r" + ":" == "r:" && "r" + ":" + "f" == "r:f" && ":" + "f" == ":f";
    assert "r:" <= "r:f" && "r:f"[1..] == ":f";
    assert Hits(c, places, None, 0) && Hits(c, places, None, 1);
    assert places[0].Key() == "r:f" && places[1].Key() == "r:f";
    assert Copies(c, places, None, "r:f", 1) == 1 && Copies(c, places, None, "r:f", 2) == 2;
    assert [c][..0] == [];
    assert Times(c, 1) == [c] && Times(c, 2) == [c, c];
    hide Hits, Place.Key, Copies;
  }

  // ---------------------------------------------------------------- recording the hits

  datatype Slot = Slot(must: bool, key: string)

  function Lookup(record: map<Slot, seq<Claim>>, slot: Slot): seq<Claim> {
    if slot in record then record[slot] else []
  }

  function Append(record: map<Slot, seq<Claim>>, slot: Slot, c: Claim): map<Slot, seq<Claim>> {
    record[slot := Lookup(record, slot) + [c]]
  }

  /** What one claim adds under a slot after the first `n` places. */
  function Gain(c: Claim, places: seq<Place>, outside: Option<string -> bool>, must: bool, slot: Slot, n: nat)
    : seq<Claim>
    requires n <= |places|
  {
    if slot.must == must then Times(c, Copies(c, places, outside, slot.key, n)) else []
  }

  lemma GainStep(record: map<Slot, seq<Claim>>, now: map<Slot, seq<Claim>>, c: Claim, places: seq<Place>,
                 outside: Option<string -> bool>, must: bool, slot: Slot, j: nat)
    requires j < |places|
    requires Lookup(now, slot) == Lookup(record, slot) + Gain(c, places, outside, must, slot, j)
    ensures var after := if Hits(c, places, outside, j) then Append(now, Slot(must, places[j].Key()), c) else now;
            Lookup(after, slot) == Lookup(record, slot) + Gain(c, places, outside, must, slot, j + 1)
  {
    hide Hits, Place.Key;
    var before := Gain(c, places, outside, must, slot, j);
    assert (Lookup(record, slot) + before) + [c] == Lookup(record, slot) + (before + [c]);
  }

  method AddHits(record: map<Slot, seq<Claim>>, must: bool, c: Claim, places: seq<Place>,
                 outside: Option<string -> bool>)
    returns (after: map<Slot, seq<Claim>>)
    ensures forall s: Slot :: Lookup(after, s) == Lookup(record, s) + Gain(c, places, outside, must, s, |places|)
  {
    hide Hits, Place.Key, Lookup, Gain, Append;
    after := record;
    forall s: Slot
      ensures Lookup(record, s) == Lookup(record, s) + Gain(c, places, outside, must, s, 0)
    {
      NoGain(c, places, outside, must, s);
    }
    for j := 0 to |places|
      invariant forall s: Slot :: Lookup(after, s) == Lookup(record, s) + Gain(c, places, outside, must, s, j)
    {
      ghost var now := after;
      if Hits(c, places, outside, j) {
        after := Append(after, Slot(must, places[j].Key()), c);
      }
      forall s: Slot
        ensures Lookup(after, s) == Lookup(record, s) + Gain(c, places, outside, must, s, j + 1)
      {
        GainStep(record, now, c, places, outside, must, s, j);
      }
    }
  }

  lemma NoGain(c: Claim, places: seq<Place>, outside: Option<string -> bool>, must: bool, slot: Slot)
    ensures Gain(c, places, outside, must, slot, 0) == []
  {
  }

  method CollectHits(o: Oracle, claims: seq<Claim>) returns (record: map<Slot, seq<Claim>>)
    ensures forall key: string ::
              Lookup(record, Slot(true, key)) == HitsOn(claims, Places(o.entries), Some(o.outside), key)
    ensures forall key: string :: Lookup(record, Slot(false, key)) == HitsOn(claims, o.traps, None, key)
  {
    record := map[];
    for i := 0 to |claims|
      invariant forall key: string ::
                  Lookup(record, Slot(true, key)) == HitsOn(claims[..i], Places(o.entries), Some(o.outside), key)
      invariant forall key: string :: Lookup(record, Slot(false, key)) == HitsOn(claims[..i], o.traps, None, key)
    {
      assert claims[..i + 1][..i] == claims[..i];
      record := AddHits(record, true, claims[i], Places(o.entries), Some(o.outside));
      record := AddHits(record, false, claims[i], o.traps, None);
    }
    assert claims[..|claims|] == claims;
  }

  // ---------------------------------------------------------------- the verdict on one entry

  datatype Status = Ok | Omitted | Contradicted | Misclassified(evidence: string)

  predicate IsOk(hits: seq<Claim>, accepted: seq<string>) {
    exists c <- hits :: c.asserts && c.evidence in accepted
  }

  /** An entry is right as soon as one hit is; failing that, the last hit decides. */
  function Verdict(hits: seq<Claim>, accepted: seq<string>): Status {
    if hits == [] then Omitted
    else if IsOk(hits, accepted) then Ok
    else if !hits[|hits| - 1].asserts then Contradicted
    else Misclassified(hits[|hits| - 1].evidence)
  }

  method Judge(hits: seq<Claim>, accepted: seq<string>) returns (st: Status)
    requires hits != []
    ensures st == Verdict(hits, accepted)
  {
    st := Omitted;
    for i := 0 to |hits|
      invariant !IsOk(hits[..i], accepted)
      invariant st == Verdict(hits[..i], accepted)
    {
      var c := hits[i];
      assert hits[..i + 1] == hits[..i] + [c];
      if !c.asserts {
        st := Contradicted;
      } else if c.evidence in accepted {
        assert c in hits;
        return Ok;
      } else {
        st := Misclassified(c.evidence);
      }
    }
    assert hits[..|hits|] == hits;
  }

  function EntryStatus(o: Oracle, claims: seq<Claim>, e: Entry): Status {
    Verdict(EntryHits(o, claims, e), Accepted(o, e))
  }

  /** An entry is omitted exactly when no claim hits a place of its key, and right exactly when
      some claim that does asserts impact with an accepted class of evidence. */
  lemma StatusOfClaims(o: Oracle, claims: seq<Claim>, e: Entry)
    ensures EntryStatus(o, claims, e).Omitted? <==>
            !exists c <- claims, j: nat :: j < |o.entries| && o.entries[j].place.Key() == e.place.Key()
                                           && Hits(c, Places(o.entries), Some(o.outside), j)
    ensures EntryStatus(o, claims, e).Ok? <==>
            exists c <- claims, j: nat :: j < |o.entries| && o.entries[j].place.Key() == e.place.Key()
                                          && Hits(c, Places(o.entries), Some(o.outside), j)
                                          && c.asserts
                                          && (match e.acceptable
                                              case Some(list) => c.evidence in list
                                              case None =>
                                                if e.place.Key() in o.overrides
                                                then c.evidence in o.overrides[e.place.Key()]
                                                else c.evidence == e.evidence)
  {
    assert forall c: Claim :: c.evidence in Accepted(o, e) <==>
             match e.acceptable
             case Some(list) => c.evidence in list
             case None => if e.place.Key() in o.overrides then c.evidence in o.overrides[e.place.Key()]
                          else c.evidence == e.evidence;
    hide Accepted;
    var hits := EntryHits(o, claims, e);
    forall c: Claim
      ensures c in hits <==>
              c in claims && exists j: nat ::
                               j < |o.entries| && o.entries[j].place.Key() == e.place.Key()
                               && Hits(c, Places(o.entries), Some(o.outside), j)
    {
      RecordedIffHit(claims, Places(o.entries), Some(o.outside), e.place.Key(), c);
    }
    assert hits != [] <==> exists c :: c in hits by {
      if hits != [] { assert hits[0] in hits; }
    }
  }

  /** A claim about a field is credited to the one entry of its repository, which names a function. */
  lemma FallbackExample()
    ensures var place := Place("billing-svc", "build_invoice");
            var e := Entry(place, "verified", None, None);
            var o := Oracle([e], [], map[], s => false);
            EntryStatus(o, [Claim("billing-svc:src/main.py:data[\"customer_id\"]", "verified", true)], e) == Ok
  {
    var place := Place("billing-svc", "build_invoice");
    var e := Entry(place, "verified", None, None);
    var o := Oracle([e], [], map[], s => false);
    var c := Claim("billing-svc:src/main.py:data[\"customer_id\"]", "verified", true);
    assert "billing-svc" + ":" == "billing-svc:" && c.symbol[..12] == "billing-svc:";
    assert "billing-svc"[0] == 'b' && "external"[0] == 'e';
    assert Places([e]) == [place];
    LonePlaceTakesAll([c], [place], Some(o.outside), 0, c);
    assert c in EntryHits(o, [c], e) && c.evidence in [e.evidence];
    hide HitsOn;
  }

  /** The last claim that hits is the last on record. */
  lemma {:induction false} LastOnRecord(claims: seq<Claim>, places: seq<Place>, outside: Option<string -> bool>,
                                        key: string, i: nat)
    requires i < |claims| && Copies(claims[i], places, outside, key, |places|) > 0
    requires forall k | i < k < |claims| :: Copies(claims[k], places, outside, key, |places|) == 0
    ensures var hits := HitsOn(claims, places, outside, key); hits != [] && hits[|hits| - 1] == claims[i]
  {
    hide Hits, Place.Key, Copies;
    var n := |claims| - 1;
    var c := claims[n];
    if i < n {
      LastOnRecord(claims[..n], places, outside, key, i);
      assert Times(c, 0) == [];
    } else {
      var times := Times(c, Copies(c, places, outside, key, |places|));
      TimesLength(c, Copies(c, places, outside, key, |places|));
      assert times[|times| - 1] == c;
    }
  }

  /** The claim hits a place of that key. */
  ghost predicate HitsKey(c: Claim, places: seq<Place>, outside: Option<string -> bool>, key: string) {
    exists j :: 0 <= j < |places| && places[j].Key() == key && Hits(c, places, outside, j)
  }

  /** When no hit is right, the last claim that hits decides. */
  lemma LastHitDecides(o: Oracle, claims: seq<Claim>, e: Entry, i: nat)
    requires i < |claims| && !EntryStatus(o, claims, e).Ok?
    requires HitsKey(claims[i], Places(o.entries), Some(o.outside), e.place.Key())
    requires forall k | i < k < |claims| :: !HitsKey(claims[k], Places(o.entries), Some(o.outside), e.place.Key())
    ensures EntryStatus(o, claims, e) == if claims[i].asserts then Misclassified(claims[i].evidence) else Contradicted
  {
    var places, outside, key := Places(o.entries), Some(o.outside), e.place.Key();
    forall k | 0 <= k < |claims|
      ensures Copies(claims[k], places, outside, key, |places|) > 0 <==> HitsKey(claims[k], places, outside, key)
    {
      CopiesPositive(claims[k], places, outside, key, |places|);
    }
    LastOnRecord(claims, places, outside, key, i);
    hide HitsOn, Hits, HitsKey, Copies, Accepted, IsOk, Place.Key;
  }

  // ---------------------------------------------------------------- the whole score

  datatype TrapStatus = NotClaimed | ListedNegated | SeriousFalsePositive | FalsePositive(evidence: string)

  function TrapVerdict(hits: seq<Claim>): TrapStatus {
    if hits == [] then NotClaimed
    else
      var c := hits[|hits| - 1];
      if !c.asserts then ListedNegated
      else if c.evidence == "verified" then SeriousFalsePositive
      else FalsePositive(c.evidence)
  }

  /** A trap's status is that of the last claim that hits it: listed but negated, a serious false
      positive if it claims to have verified the impact, a false positive otherwise. */
  lemma TrapStatusOfClaims(o: Oracle, claims: seq<Claim>, p: Place, i: nat)
    requires i < |claims| && HitsKey(claims[i], o.traps, None, p.Key())
    requires forall k | i < k < |claims| :: !HitsKey(claims[k], o.traps, None, p.Key())
    ensures TrapVerdict(TrapHits(o, claims, p))
         == if !claims[i].asserts then ListedNegated
            else if claims[i].evidence == "verified" then SeriousFalsePositive
            else FalsePositive(claims[i].evidence)
  {
    var key := p.Key();
    forall k | 0 <= k < |claims|
      ensures Copies(claims[k], o.traps, None, key, |o.traps|) > 0 <==> HitsKey(claims[k], o.traps, None, key)
    {
      CopiesPositive(claims[k], o.traps, None, key, |o.traps|);
    }
    LastOnRecord(claims, o.traps, None, key, i);
    hide HitsOn, Hits, HitsKey, Copies, Place.Key;
  }

  /** A trap that no claim hits is not claimed, and any other is. */
  lemma NotClaimedIff(o: Oracle, claims: seq<Claim>, p: Place)
    ensures TrapVerdict(TrapHits(o, claims, p)) == NotClaimed <==>
            forall c <- claims :: !HitsKey(c, o.traps, None, p.Key())
  {
    var hits := TrapHits(o, claims, p);
    forall c: Claim ensures c in hits <==> c in claims && HitsKey(c, o.traps, None, p.Key()) {
      RecordedIffHit(claims, o.traps, None, p.Key(), c);
    }
    if hits != [] { assert hits[0] in hits; }
    hide HitsOn, Hits, HitsKey, Place.Key;
  }

  /** The asserting (or the negated) hits, as (key, evidence) pairs. */
  function Tagged(key: string, hits: seq<Claim>, asserting: bool): seq<(string, string)> {
    if hits == [] then []
    else Tagged(key, hits[..|hits| - 1], asserting)
         + (if hits[|hits| - 1].asserts == asserting then [(key, hits[|hits| - 1].evidence)] else [])
  }

  function TrapClaims(o: Oracle, claims: seq<Claim>, ps: seq<Place>, asserting: bool): seq<(string, string)> {
    if ps == [] then []
    else TrapClaims(o, claims, ps[..|ps| - 1], asserting)
         + Tagged(ps[|ps| - 1].Key(), TrapHits(o, claims, ps[|ps| - 1]), asserting)
  }

  function TotalHits(o: Oracle, claims: seq<Claim>, ps: seq<Place>): nat {
    if ps == [] then 0
    else TotalHits(o, claims, ps[..|ps| - 1]) + |TrapHits(o, claims, ps[|ps| - 1])|
  }

  lemma {:induction false} TaggedPartition(key: string, hits: seq<Claim>)
    ensures |Tagged(key, hits, true)| + |Tagged(key, hits, false)| == |hits|
  {
    if hits != [] { TaggedPartition(key, hits[..|hits| - 1]); }
  }

  /** Every hit on a must-not-claim place is reported, once: as a serious false positive if it
      asserts impact, as a misuse of the protocol if it does not. */
  lemma {:induction false} TrapConservation(o: Oracle, claims: seq<Claim>, ps: seq<Place>)
    ensures |TrapClaims(o, claims, ps, true)| + |TrapClaims(o, claims, ps, false)| == TotalHits(o, claims, ps)
  {
    if ps != [] {
      TrapConservation(o, claims, ps[..|ps| - 1]);
      TaggedPartition(ps[|ps| - 1].Key(), TrapHits(o, claims, ps[|ps| - 1]));
    }
  }

  method JudgeTrap(key: string, hits: seq<Claim>)
    returns (st: TrapStatus, serious: seq<(string, string)>, misuse: seq<(string, string)>)
    ensures st == TrapVerdict(hits)
    ensures serious == Tagged(key, hits, true) && misuse == Tagged(key, hits, false)
  {
    st, serious, misuse := NotClaimed, [], [];
    for i := 0 to |hits|
      invariant st == TrapVerdict(hits[..i])
      invariant serious == Tagged(key, hits[..i], true) && misuse == Tagged(key, hits[..i], false)
    {
      var c := hits[i];
      assert hits[..i + 1][..i] == hits[..i];
      if !c.asserts {
        st := ListedNegated;
        misuse := misuse + [(key, c.evidence)];
      } else {
        st := if c.evidence == "verified" then SeriousFalsePositive else FalsePositive(c.evidence);
        serious := serious + [(key, c.evidence)];
      }
    }
    assert hits[..|hits|] == hits;
  }

  /** The keys of the entries nobody claimed. */
  function Omissions(o: Oracle, claims: seq<Claim>, es: seq<Entry>): seq<string> {
    if es == [] then []
    else Omissions(o, claims, es[..|es| - 1])
         + (if EntryHits(o, claims, es[|es| - 1]) == [] then [es[|es| - 1].place.Key()] else [])
  }

  function Wrong(o: Oracle, claims: seq<Claim>, es: seq<Entry>): seq<(string, string)> {
    if es == [] then []
    else
      var e := es[|es| - 1];
      var st := EntryStatus(o, claims, e);
      Wrong(o, claims, es[..|es| - 1]) + (if st.Misclassified? then [(e.place.Key(), st.evidence)] else [])
  }

  datatype Score = Score(
    mustFind: seq<(string, Status)>, omissions: seq<string>, misclassified: seq<(string, string)>,
    mustNotClaim: seq<(string, TrapStatus)>, serious: seq<(string, string)>, misuse: seq<(string, string)>,
    recallByClass: Option<map<string, Bucket>>)

  method ScoreEntries(o: Oracle, claims: seq<Claim>, record: map<Slot, seq<Claim>>)
    returns (mustFind: seq<(string, Status)>, omissions: seq<string>, misclassified: seq<(string, string)>)
    requires forall e <- o.entries :: Lookup(record, Slot(true, e.place.Key())) == EntryHits(o, claims, e)
    ensures |mustFind| == |o.entries|
    ensures forall i | 0 <= i < |o.entries| ::
              mustFind[i] == (o.entries[i].place.Key(), EntryStatus(o, claims, o.entries[i]))
    ensures omissions == Omissions(o, claims, o.entries) && misclassified == Wrong(o, claims, o.entries)
  {
    hide HitsOn, IsOk, Accepted;
    mustFind, omissions, misclassified := [], [], [];
    for i := 0 to |o.entries|
      invariant |mustFind| == i
      invariant forall k | 0 <= k < i ::
                  mustFind[k] == (o.entries[k].place.Key(), EntryStatus(o, claims, o.entries[k]))
      invariant omissions == Omissions(o, claims, o.entries[..i])
      invariant misclassified == Wrong(o, claims, o.entries[..i])
    {
      var e := o.entries[i];
      assert o.entries[..i + 1][..i] == o.entries[..i];
      var key := e.place.Key();
      var hits := Lookup(record, Slot(true, key));
      if hits == [] {
        omissions := omissions + [key];
        mustFind := mustFind + [(key, Omitted)];
        continue;
      }
      var st := Judge(hits, Accepted(o, e));
      if st.Misclassified? {
        misclassified := misclassified + [(key, st.evidence)];
      }
      mustFind := mustFind + [(key, st)];
    }
    assert o.entries[..|o.entries|] == o.entries;
  }

  method ScoreTraps(o: Oracle, claims: seq<Claim>, record: map<Slot, seq<Claim>>)
    returns (mustNotClaim: seq<(string, TrapStatus)>, serious: seq<(string, string)>, misuse: seq<(string, string)>)
    requires forall p <- o.traps :: Lookup(record, Slot(false, p.Key())) == TrapHits(o, claims, p)
    ensures |mustNotClaim| == |o.traps|
    ensures forall i | 0 <= i < |o.traps| ::
              mustNotClaim[i] == (o.traps[i].Key(), TrapVerdict(TrapHits(o, claims, o.traps[i])))
    ensures serious == TrapClaims(o, claims, o.traps, true) && misuse == TrapClaims(o, claims, o.traps, false)
  {
    hide HitsOn, Tagged, TrapVerdict, Place.Key;
    mustNotClaim, serious, misuse := [], [], [];
    for i := 0 to |o.traps|
      invariant |mustNotClaim| == i
      invariant forall k | 0 <= k < i ::
                  mustNotClaim[k] == (o.traps[k].Key(), TrapVerdict(TrapHits(o, claims, o.traps[k])))
      invariant serious == TrapClaims(o, claims, o.traps[..i], true)
      invariant misuse == TrapClaims(o, claims, o.traps[..i], false)
    {
      var key := o.traps[i].Key();
      assert o.traps[..i + 1][..i] == o.traps[..i];
      var st, s, m := JudgeTrap(key, Lookup(record, Slot(false, key)));
      serious, misuse := serious + s, misuse + m;
      mustNotClaim := mustNotClaim + [(key, st)];
    }
    assert o.traps[..|o.traps|] == o.traps;
  }

  method ScoreGroundTruth(o: Oracle, claims: seq<Claim>) returns (r: Score)
    ensures |r.mustFind| == |o.entries|
    ensures forall i | 0 <= i < |o.entries| ::
              r.mustFind[i] == (o.entries[i].place.Key(), EntryStatus(o, claims, o.entries[i]))
    ensures r.omissions == Omissions(o, claims, o.entries) && r.misclassified == Wrong(o, claims, o.entries)
    ensures |r.mustNotClaim| == |o.traps|
    ensures forall i | 0 <= i < |o.traps| ::
              r.mustNotClaim[i] == (o.traps[i].Key(), TrapVerdict(TrapHits(o, claims, o.traps[i])))
    ensures r.serious == TrapClaims(o, claims, o.traps, true) && r.misuse == TrapClaims(o, claims, o.traps, false)
    ensures |r.serious| + |r.misuse| == TotalHits(o, claims, o.traps)
    ensures r.recallByClass.Some? <==> exists e <- o.entries :: e.coupling.Some?
    ensures r.recallByClass.Some? ==>
              forall cls: string :: BucketIn(r.recallByClass.value, cls) == BucketOf(o, claims, o.entries, cls)
    ensures r.recallByClass.Some? ==>
              forall cls: string :: cls in r.recallByClass.value <==>
                exists e <- o.entries :: match e.coupling
                                         case Some(c) => if c == "" then cls == "unclassified" else cls == c
                                         case None => cls == "unclassified"
  {
    var record := CollectHits(o, claims);
    var mustFind, omissions, misclassified := ScoreEntries(o, claims, record);
    var mustNotClaim, serious, misuse := ScoreTraps(o, claims, record);
    TrapConservation(o, claims, o.traps);
    var recall := None;
    if exists e <- o.entries :: e.coupling.Some? {
      var buckets := RecallByClass(o, claims, record);
      recall := Some(buckets);
    }
    r := Score(mustFind, omissions, misclassified, mustNotClaim, serious, misuse, recall);
  }

  // ---------------------------------------------------------------- recall by class

  datatype Bucket = Bucket(found: nat, total: nat, correct: nat,
                           omitted: seq<string>, misclassified: seq<(string, set<string>)>)

  const EMPTY: Bucket := Bucket(0, 0, 0, [], [])

  function BucketIn(recall: map<string, Bucket>, cls: string): Bucket {
    if cls in recall then recall[cls] else EMPTY
  }

  function Evidences(hits: seq<Claim>): set<string> {
    set c <- hits :: c.evidence
  }

  /** One more entry in its class's bucket. Negated hits count here. */
  function Add(o: Oracle, claims: seq<Claim>, b: Bucket, e: Entry): Bucket {
    var hits := EntryHits(o, claims, e);
    var counted := b.(total := b.total + 1);
    if hits == [] then counted.(omitted := b.omitted + [e.place.Key()])
    else if exists c <- hits :: c.evidence in Accepted(o, e) then
      counted.(found := b.found + 1, correct := b.correct + 1)
    else
      counted.(found := b.found + 1, misclassified := b.misclassified + [(e.place.Key(), Evidences(hits))])
  }

  function BucketOf(o: Oracle, claims: seq<Claim>, es: seq<Entry>, cls: string): Bucket {
    if es == [] then EMPTY
    else
      var b := BucketOf(o, claims, es[..|es| - 1], cls);
      if es[|es| - 1].Class() == cls then Add(o, claims, b, es[|es| - 1]) else b
  }

  method CountEntry(o: Oracle, claims: seq<Claim>, b: Bucket, e: Entry, hits: seq<Claim>) returns (counted: Bucket)
    requires hits == EntryHits(o, claims, e)
    ensures counted == Add(o, claims, b, e)
  {
    hide HitsOn, Accepted, Evidences, Place.Key;
    counted := b.(total := b.total + 1);
    if hits == [] {
      counted := counted.(omitted := b.omitted + [e.place.Key()]);
    } else {
      counted := counted.(found := b.found + 1);
      if exists c <- hits :: c.evidence in Accepted(o, e) {
        counted := counted.(correct := b.correct + 1);
      } else {
        counted := counted.(misclassified := b.misclassified + [(e.place.Key(), Evidences(hits))]);
      }
    }
  }

  method RecallByClass(o: Oracle, claims: seq<Claim>, record: map<Slot, seq<Claim>>)
    returns (recall: map<string, Bucket>)
    requires forall e <- o.entries :: Lookup(record, Slot(true, e.place.Key())) == EntryHits(o, claims, e)
    ensures forall cls: string :: BucketIn(recall, cls) == BucketOf(o, claims, o.entries, cls)
    ensures forall cls: string :: cls in recall <==> exists e <- o.entries :: e.Class() == cls
  {
    hide HitsOn, Add, Place.Key, Entry.Class;
    recall := map[];
    for i := 0 to |o.entries|
      invariant forall cls: string :: BucketIn(recall, cls) == BucketOf(o, claims, o.entries[..i], cls)
      invariant forall cls: string :: cls in recall <==> exists e <- o.entries[..i] :: e.Class() == cls
    {
      var e := o.entries[i];
      assert o.entries[..i + 1] == o.entries[..i] + [e];
      assert o.entries[..i + 1][..i] == o.entries[..i];
      var b := CountEntry(o, claims, BucketIn(recall, e.Class()), e, Lookup(record, Slot(true, e.place.Key())));
      recall := recall[e.Class() := b];
    }
    assert o.entries[..|o.entries|] == o.entries;
  }

  /** An entry of a class is listed as misclassified exactly if something hit it and nothing that
      did carries an accepted class of evidence; listed with it is all the evidence of its hits. */
  lemma {:induction false} MisclassifiedIff(o: Oracle, claims: seq<Claim>, es: seq<Entry>, cls: string,
                                            key: string, evidences: set<string>)
    ensures (key, evidences) in BucketOf(o, claims, es, cls).misclassified
       <==> exists i :: 0 <= i < |es| && Misses(o, claims, es[i], cls, key, evidences)
  {
    if es != [] {
      var n := |es| - 1;
      MisclassifiedIff(o, claims, es[..n], cls, key, evidences);
      assert forall i | 0 <= i < n :: es[..n][i] == es[i];
      if es[n].Class() == cls {
        OneMore(o, claims, es[n], BucketOf(o, claims, es[..n], cls), cls, key, evidences);
      } else {
        assert !Misses(o, claims, es[n], cls, key, evidences);
      }
      hide Misses, Add;
      if exists i :: 0 <= i < n && Misses(o, claims, es[..n][i], cls, key, evidences) {
        var i :| 0 <= i < n && Misses(o, claims, es[..n][i], cls, key, evidences);
        assert Misses(o, claims, es[i], cls, key, evidences);
      }
      if i :| 0 <= i < |es| && Misses(o, claims, es[i], cls, key, evidences) {
        if i < n { assert Misses(o, claims, es[..n][i], cls, key, evidences); }
      }
    }
  }

  ghost predicate Misses(o: Oracle, claims: seq<Claim>, e: Entry, cls: string, key: string, evidences: set<string>) {
    && e.Class() == cls && e.place.Key() == key && EntryHits(o, claims, e) != []
    && (forall c <- EntryHits(o, claims, e) :: c.evidence !in Accepted(o, e))
    && forall v :: v in evidences <==> exists c <- EntryHits(o, claims, e) :: c.evidence == v
  }

  lemma OneMore(o: Oracle, claims: seq<Claim>, e: Entry, b: Bucket, cls: string, key: string, evidences: set<string>)
    requires e.Class() == cls
    ensures (key, evidences) in Add(o, claims, b, e).misclassified
       <==> (key, evidences) in b.misclassified || Misses(o, claims, e, cls, key, evidences)
  {
    var hits := EntryHits(o, claims, e);
    hide EntryHits, Accepted, Entry.Class, Place.Key;
    assert (forall v :: v in evidences <==> exists c <- hits :: c.evidence == v) <==> evidences == Evidences(hits);
  }

  /** How many entries of the class got the status Ok. */
  function OkIn(o: Oracle, claims: seq<Claim>, es: seq<Entry>, cls: string): nat {
    if es == [] then 0
    else
      var e := es[|es| - 1];
      OkIn(o, claims, es[..|es| - 1], cls) + (if e.Class() == cls && EntryStatus(o, claims, e).Ok? then 1 else 0)
  }

  /** The entry has a hit with an accepted class of evidence, but every such hit is negated. */
  predicate OnlyNegated(o: Oracle, claims: seq<Claim>, e: Entry) {
    !EntryStatus(o, claims, e).Ok? && exists c <- EntryHits(o, claims, e) :: c.evidence in Accepted(o, e)
  }

  function OnlyNegatedIn(o: Oracle, claims: seq<Claim>, es: seq<Entry>, cls: string): nat {
    if es == [] then 0
    else
      var e := es[|es| - 1];
      OnlyNegatedIn(o, claims, es[..|es| - 1], cls) + (if e.Class() == cls && OnlyNegated(o, claims, e) then 1 else 0)
  }

  /** In every class each entry is found or omitted, each found one is right or misclassified,
      and the right ones are the Ok ones plus those whose only accepted hits are negated: the
      two parts of the report agree exactly when there are none of the latter. */
  lemma {:induction false} BucketBalances(o: Oracle, claims: seq<Claim>, es: seq<Entry>, cls: string)
    ensures var b := BucketOf(o, claims, es, cls);
            && b.found + |b.omitted| == b.total
            && b.found == b.correct + |b.misclassified|
            && b.correct == OkIn(o, claims, es, cls) + OnlyNegatedIn(o, claims, es, cls)
  {
    if es != [] {
      BucketBalances(o, claims, es[..|es| - 1], cls);
      var e := es[|es| - 1];
      assert EntryStatus(o, claims, e).Ok? ==> exists c <- EntryHits(o, claims, e) :: c.evidence in Accepted(o, e);
    }
  }

  /** An entry whose one claim carries the right evidence but denies impact is right in the recall
      of its class and contradicted in its status. */
  lemma RightButContradictedExample(o: Oracle, claims: seq<Claim>, e: Entry, c: Claim)
    requires EntryHits(o, claims, e) == [c] && !c.asserts && c.evidence in Accepted(o, e)
    ensures EntryStatus(o, claims, e) == Contradicted
    ensures BucketOf(o, claims, [e], e.Class()) == Bucket(1, 1, 1, [], [])
  {
    assert c in [c];
    assert [e][..0] == [];
    hide EntryHits, Accepted, Entry.Class;
  }

  /** Such an oracle, entry and claim. */
  lemma ContradictedExample() returns (o: Oracle, e: Entry, c: Claim)
    ensures o.entries == [e] && EntryStatus(o, [c], e) == Contradicted
    ensures BucketOf(o, [c], [e], e.Class()) == Bucket(1, 1, 1, [], [])
  {
    e := Entry(Place("r", "f"), "verified", None, Some("A"));
    c := Claim("r:f", "verified", false);
    o := Oracle([e], [], map[], s => false);
    SingleHit(c, Some(o.outside));
    assert Places([e]) == [Place("r", "f")];
    assert e.place.Key() == "r:f" by { assert "r" + ":" + "f" == "r:f"; }
    RightButContradictedExample(o, [c], e, c);
  }

  lemma SingleHit(c: Claim, outside: Option<string -> bool>)
    requires c.symbol == "r:f"
    ensures HitsOn([c], [Place("r", "f")], outside, "r:f") == [c]
  {
    var places := [Place("r", "f")];
    assert "r" + ":" == "r:" && "r" + ":" + "f" == "r:f" && ":" + "f" == ":f" && "r:f"[1..] == ":f";
    assert "r" != "external" by { assert |"r"| == 1; }
    assert Hits(c, places, outside, 0) && places[0].Key() == "r:f";
    assert Copies(c, places, outside, "r:f", 1) == 1;
    assert [c][..0] == [] && Times(c, 1) == [c];
    hide Hits, Place.Key, Copies;
  }

  /** The omissions of the classes in `order`, one class after another. */
  function OmissionsByClass(o: Oracle, claims: seq<Claim>, es: seq<Entry>, order: seq<string>): seq<string> {
    if order == [] then []
    else BucketOf(o, claims, es, order[0]).omitted + OmissionsByClass(o, claims, es, order[1..])
  }

  lemma {:induction false} OmissionsAddOne(o: Oracle, claims: seq<Claim>, es: seq<Entry>, order: seq<string>)
    requires es != []
    requires forall i, j | 0 <= i < j < |order| :: order[i] != order[j]
    ensures multiset(OmissionsByClass(o, claims, es, order))
         == multiset(OmissionsByClass(o, claims, es[..|es| - 1], order))
          + if es[|es| - 1].Class() in order && EntryHits(o, claims, es[|es| - 1]) == []
            then multiset{es[|es| - 1].place.Key()} else multiset{}
  {
    if order != [] {
      OmissionsAddOne(o, claims, es, order[1..]);
      assert order == [order[0]] + order[1..];
    }
  }

  lemma OmissionsOfNothing(o: Oracle, claims: seq<Claim>, order: seq<string>)
    ensures OmissionsByClass(o, claims, [], order) == []
  {
  }

  /** The classes' omissions together are exactly the omissions of the report, counted with
      their multiplicity, in whatever order the classes are listed. */
  lemma {:induction false} OmissionsPartition(o: Oracle, claims: seq<Claim>, es: seq<Entry>, order: seq<string>)
    requires forall i, j | 0 <= i < j < |order| :: order[i] != order[j]
    requires forall e <- es :: e.Class() in order
    ensures multiset(OmissionsByClass(o, claims, es, order)) == multiset(Omissions(o, claims, es))
  {
    if es == [] {
      OmissionsOfNothing(o, claims, order);
    } else {
      var e := es[|es| - 1];
      assert e in es;
      OmissionsPartition(o, claims, es[..|es| - 1], order);
      OmissionsAddOne(o, claims, es, order);
    }
  }
}
