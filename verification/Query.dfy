/** The pipe syntax of graph queries (src/cli/query.rs). */
module Query {
  import opened Outcomes
  import opened Text

  datatype NameSelector = Exact(text: string) | Glob(text: string) | StartsWith(text: string)
  datatype Direction = Incoming | Outgoing | Both
  datatype Depth = Single(n: nat) | Range(min: nat, max: nat)
  datatype SortField = ByName | ByType | ByLabel

  datatype Op =
    | FindOp(nodeType: Option<string>, name: Option<NameSelector>)
    | ConnectOp(edge: string, direction: Direction, depth: Depth)
    | FilterOp(labelled: Option<string>, nodeType: Option<string>, name: Option<NameSelector>)
    | SemanticOp(text: string)
    | SortOp(field: SortField, descending: bool)
    | GroupOp(field: SortField)
    | LimitOp(count: nat)

  const U32: nat := 0x1_0000_0000
  const USIZE: nat := 0x1_0000_0000_0000_0000

  // ---------------------------------------------------------------- the parser

  /** The parser's variables. */
  datatype Parser = Parser(
    nodeType: Option<string>,
    name: Option<NameSelector>,
    edge: Option<string>,
    direction: Direction,
    depth: Depth,
    limit: nat,
    extra: seq<Op>)

  const START: Parser := Parser(None, None, None, Outgoing, Single(1), 100, [])

  function FirstWord(s: string, default: string): string {
    var ws := Words(s);
    if ws == [] then default else ws[0]
  }

  function SecondWord(s: string): Option<string> {
    var ws := Words(s);
    if |ws| < 2 then None else Some(ws[1])
  }

  /** The text between the first occurrence of the pattern and the next, if it occurs. */
  function Following(s: string, pattern: string): Option<string>
    requires pattern != []
  {
    var pieces := SplitSub(s, pattern);
    if |pieces| < 2 then None else Some(pieces[1])
  }

  function Selector(s: string): NameSelector {
    if '*' in s || '?' in s then Glob(s)
    else if |s| > 2 && s[0] == '/' && s[|s| - 1] == '/' then StartsWith(s[1..|s| - 1])
    else Exact(s)
  }

  function FindStep(p: Parser, remainder: string): Parser {
    var q := if remainder != [] && !("name " <= remainder) && !("limit" <= remainder)
             then p.(nodeType := Some(FirstWord(remainder, remainder))) else p;
    match Following(remainder, "name ")
    case None => q
    case Some(part) =>
      q.(name := Some(Selector(TrimEndChar(TrimStartChar(FirstWord(part, part), '"'), '"'))))
  }

  function Directed(d: Direction, word: string): Direction {
    if word == "incoming" || word == "in" then Incoming
    else if word == "outgoing" || word == "out" then Outgoing
    else if word == "both" then Both
    else d
  }

  function DirectedAll(d: Direction, words: seq<string>): Direction
    decreases |words|
  {
    if words == [] then d else DirectedAll(Directed(d, words[0]), words[1..])
  }

  function OrElse(n: Option<nat>, default: nat): nat {
    match n case Some(v) => v case None => default
  }

  function DepthOf(d: Depth, text: string): Depth {
    if Contains(text, "..") then
      var parts := SplitSub(text, "..");
      var min := OrElse(ParseUnsigned(parts[0], U32), 1);
      Range(min, OrElse(ParseUnsigned(TrimStartChar(parts[|parts| - 1], '='), U32), min))
    else match ParseUnsigned(text, U32)
      case Some(n) => Single(n)
      case None => d
  }

  function ConnectStep(p: Parser, remainder: string): Parser {
    var q := p.(edge := Some(FirstWord(remainder, "Calls")), direction := DirectedAll(p.direction, Words(remainder)));
    match Following(remainder, "depth ")
    case None => q
    case Some(part) => q.(depth := DepthOf(p.depth, FirstWord(part, "1")))
  }

  function FilterStep(p: Parser, remainder: string): Parser {
    var op :=
      if "label " <= remainder then FilterOp(SecondWord(remainder), None, None)
      else if "type " <= remainder then FilterOp(None, SecondWord(remainder), None)
      else if "name " <= remainder then
        FilterOp(None, None, Some(Selector(match SecondWord(remainder) case Some(w) => w case None => "")))
      else FilterOp(None, None, None);
    p.(extra := p.extra + [op])
  }

  function SortStep(p: Parser, remainder: string): Parser {
    var w := FirstWord(remainder, "name");
    var field := if w == "type" then ByType else if w == "label" then ByLabel else ByName;
    p.(extra := p.extra + [SortOp(field, Contains(remainder, "desc") || Contains(remainder, "descending"))])
  }

  function GroupStep(p: Parser, remainder: string): Parser {
    var w := FirstWord(remainder, "type");
    var field := if w == "label" then ByLabel else if w == "name" then ByName else ByType;
    p.(extra := p.extra + [GroupOp(field)])
  }

  /** What one step of the pipe does to the parser's variables. */
  function ParseStep(p: Parser, part: string): Parser {
    if "find " <= part then FindStep(p, Trim(part[5..]))
    else if "connect " <= part then ConnectStep(p, Trim(part[8..]))
    else if "filter " <= part then FilterStep(p, Trim(part[7..]))
    else if "semantic_filter " <= part then
      var remainder := Trim(part[16..]);
      if "like" <= remainder then p.(extra := p.extra + [SemanticOp(remainder)]) else p
    else if "sort " <= part then SortStep(p, Trim(part[5..]))
    else if "group " <= part then GroupStep(p, Trim(part[6..]))
    else if "limit " <= part then
      p.(limit := OrElse(ParseUnsigned(FirstWord(Trim(part[6..]), ""), USIZE), 100))
    else p
  }

  function ParseSteps(p: Parser, parts: seq<string>): Parser
    decreases |parts|
  {
    if parts == [] then p else ParseSteps(ParseStep(p, parts[0]), parts[1..])
  }

  function Finish(p: Parser): seq<Op> {
    [FindOp(p.nodeType, p.name)]
    + (match p.edge case Some(e) => [ConnectOp(e, p.direction, p.depth)] case None => [])
    + p.extra + [LimitOp(p.limit)]
  }

  // ---------------------------------------------------------------- the word check

  const STEPS: seq<string> := ["find", "connect", "filter", "semantic_filter", "sort", "group", "limit"]

  predicate FindWordsOk(words: seq<string>, i: nat)
    decreases |words| - i
  {
    i < |words| ==>
      (words[i] == "name" || words[i] == "limit") && i + 1 < |words| && FindWordsOk(words, i + 2)
  }

  predicate IsDirection(w: string) {
    w == "incoming" || w == "in" || w == "outgoing" || w == "out" || w == "both"
  }

  predicate ConnectWordsOk(words: seq<string>, i: nat)
    decreases |words| - i
  {
    i < |words| ==>
      if IsDirection(words[i]) then ConnectWordsOk(words, i + 1)
      else words[i] == "depth" && i + 1 < |words| && ConnectWordsOk(words, i + 2)
  }

  /** The check on the words of one step. */
  predicate WordsOk(part: string) {
    var words := Words(part);
    if words == [] then true
    else if words[0] == "find" then
      FindWordsOk(words, if |words| > 1 && words[1] != "name" && words[1] != "limit" then 2 else 1)
    else if words[0] == "connect" then ConnectWordsOk(words, 2)
    else true
  }

  predicate IsFindKey(w: string) {
    w == "name" || w == "limit"
  }

  /** The words of a find step: an optional type, then keys and values in turn. */
  ghost predicate FindSentence(words: seq<string>)
    requires words != []
  {
    var rest := if |words| > 1 && !IsFindKey(words[1]) then words[2..] else words[1..];
    && |rest| % 2 == 0
    && forall i | 0 <= i < |rest| && i % 2 == 0 :: IsFindKey(rest[i])
  }

  /** After its edge a connect step is made of direction words and of "depth" with a value. */
  predicate ConnectPhrase(phrase: seq<string>) {
    (|phrase| == 1 && IsDirection(phrase[0])) || (|phrase| == 2 && phrase[0] == "depth")
  }

  function Flatten(phrases: seq<seq<string>>): seq<string> {
    if phrases == [] then [] else phrases[0] + Flatten(phrases[1..])
  }

  ghost predicate MadeOf(words: seq<string>, phrases: seq<seq<string>>) {
    Flatten(phrases) == words && forall i | 0 <= i < |phrases| :: ConnectPhrase(phrases[i])
  }

  ghost predicate ConnectSentence(words: seq<string>) {
    |words| > 2 ==> exists phrases: seq<seq<string>> :: MadeOf(words[2..], phrases)
  }

  /** What the check demands of the words of a step: nothing but for find and connect. */
  ghost predicate WellFormed(words: seq<string>) {
    && (words != [] && words[0] == "find" ==> FindSentence(words))
    && (words != [] && words[0] == "connect" ==> ConnectSentence(words))
  }

  lemma {:induction false} FindKeysInTurn(words: seq<string>, i: nat)
    requires i <= |words|
    ensures FindWordsOk(words, i) <==>
            (|words| - i) % 2 == 0 && forall k | i <= k < |words| && (k - i) % 2 == 0 :: IsFindKey(words[k])
    decreases |words| - i
  {
    if i + 1 < |words| {
      FindKeysInTurn(words, i + 2);
    }
  }

  /** Phrases found one after another make up a sentence the loop accepts. */
  lemma {:induction false} PhrasesAccepted(words: seq<string>, i: nat, phrases: seq<seq<string>>)
    requires i <= |words| && MadeOf(words[i..], phrases)
    ensures ConnectWordsOk(words, i)
    decreases |phrases|
  {
    if phrases != [] {
      var n := |phrases[0]|;
      assert words[i..][..n] == phrases[0];
      assert words[i] == phrases[0][0];
      assert words[i + n..] == words[i..][n..] == Flatten(phrases[1..]);
      PhrasesAccepted(words, i + n, phrases[1..]);
    }
  }

  /** What the loop accepts can be cut into phrases. */
  lemma {:induction false} AcceptedInPhrases(words: seq<string>, i: nat) returns (phrases: seq<seq<string>>)
    requires i <= |words| && ConnectWordsOk(words, i)
    ensures MadeOf(words[i..], phrases)
    decreases |words| - i
  {
    if i == |words| {
      phrases := [];
    } else {
      var n := if IsDirection(words[i]) then 1 else 2;
      var rest := AcceptedInPhrases(words, i + n);
      phrases := [words[i..i + n]] + rest;
      assert phrases[1..] == rest;
      assert words[i..] == words[i..i + n] + words[i + n..];
    }
  }

  /** The check accepts a step exactly when its words form a sentence of its kind. */
  lemma WordsOkIff(part: string)
    ensures WordsOk(part) <==> WellFormed(Words(part))
  {
    var words := Words(part);
    hide Words;
    if words != [] && words[0] == "find" {
      FindSentenceIff(words);
    } else if words != [] && words[0] == "connect" && |words| > 2 {
      if ConnectWordsOk(words, 2) {
        var phrases := AcceptedInPhrases(words, 2);
      }
      if phrases: seq<seq<string>> :| MadeOf(words[2..], phrases) {
        PhrasesAccepted(words, 2, phrases);
      }
    }
  }

  lemma FindSentenceIff(words: seq<string>)
    requires words != []
    ensures FindWordsOk(words, if |words| > 1 && words[1] != "name" && words[1] != "limit" then 2 else 1)
       <==> FindSentence(words)
  {
    var i := if |words| > 1 && !IsFindKey(words[1]) then 2 else 1;
    FindKeysInTurn(words, i);
    var rest := words[i..];
    assert (forall k | 0 <= k < |rest| && k % 2 == 0 :: IsFindKey(rest[k]))
      <==> (forall k | i <= k < |words| && (k - i) % 2 == 0 :: IsFindKey(words[k])) by {
      assert forall k | 0 <= k < |rest| :: rest[k] == words[i + k];
      if forall k | 0 <= k < |rest| && k % 2 == 0 :: IsFindKey(rest[k]) {
        forall k | i <= k < |words| && (k - i) % 2 == 0 ensures IsFindKey(words[k]) { assert rest[k - i] == words[k]; }
      }
    }
  }

  predicate PartOk(part: string) {
    FirstWord(part, "") in STEPS && WordsOk(part)
  }

  datatype Outcome =
    | Json                      // a JSON query, parsed elsewhere
    | Rejected(part: string)
    | Parsed(ops: seq<Op>)

  /** `parse_query` */
  function ParseQuery(expr: string): Outcome {
    var t := Trim(expr);
    if t != [] && (t[0] == '{' || t[0] == '[') then Json
    else match FirstBad(Pieces(t))
      case Some(part) => Rejected(part)
      case None => Parsed(Finish(ParseSteps(START, Pieces(t))))
  }

  function FirstBad(parts: seq<string>): Option<string> {
    if parts == [] then None
    else if !PartOk(parts[0]) then Some(parts[0])
    else FirstBad(parts[1..])
  }

  // ---------------------------------------------------------------- the code's loops

  method CheckStepWords(part: string) returns (ok: bool)
    ensures ok == WordsOk(part)
    ensures ok <==> WellFormed(Words(part))
  {
    WordsOkIff(part);
    hide WellFormed;
    var words := Words(part);
    if words == [] { return true; }
    if words[0] == "find" {
      var i := 1;
      if i < |words| && words[i] != "name" && words[i] != "limit" { i := i + 1; }
      ghost var want := FindWordsOk(words, i);
      while i < |words|
        invariant want == FindWordsOk(words, i)
        decreases |words| - i
      {
        if !((words[i] == "name" || words[i] == "limit") && i + 1 < |words|) { return false; }
        i := i + 2;
      }
      return true;
    }
    if words[0] == "connect" {
      var i := 2;
      ghost var want := ConnectWordsOk(words, i);
      while i < |words|
        invariant want == ConnectWordsOk(words, i)
        decreases |words| - i
      {
        if IsDirection(words[i]) {
          i := i + 1;
        } else if words[i] == "depth" && i + 1 < |words| {
          i := i + 2;
        } else {
          return false;
        }
      }
      return true;
    }
    return true;
  }

  method ParseConnect(p: Parser, remainder: string) returns (q: Parser)
    ensures q == ConnectStep(p, remainder)
  {
    q := p.(edge := Some(FirstWord(remainder, "Calls")));
    var words := Words(remainder);
    var n := 0;
    while n < |words|
      invariant n <= |words|
      invariant q == p.(edge := q.edge, direction := q.direction) && q.edge == Some(FirstWord(remainder, "Calls"))
      invariant DirectedAll(p.direction, words) == DirectedAll(q.direction, words[n..])
    {
      q := q.(direction := Directed(q.direction, words[n]));
      n := n + 1;
    }
    var part := Following(remainder, "depth ");
    if part.Some? { q := q.(depth := DepthOf(q.depth, FirstWord(part.value, "1"))); }
  }

  method ParseQueryString(expr: string) returns (ops: seq<Op>)
    ensures ops == Finish(ParseSteps(START, Pieces(Trim(expr))))
  {
    hide Pieces, Trim, Words, Finish, FindStep, ConnectStep, FilterStep, SortStep, GroupStep, FirstWord;
    var parts := Pieces(Trim(expr));
    var p := START;
    var n := 0;
    while n < |parts|
      invariant n <= |parts|
      invariant ParseSteps(START, parts) == ParseSteps(p, parts[n..])
    {
      var part := parts[n];
      if !("find " <= part) && "connect " <= part {
        p := ParseConnect(p, Trim(part[8..]));
      } else {
        p := ParseStep(p, part);
      }
      n := n + 1;
    }
    ops := Finish(p);
  }

  method Parse(expr: string) returns (r: Outcome)
    ensures r == ParseQuery(expr)
  {
    hide Pieces, Trim, Words, Finish, WordsOk, FirstWord, ParseSteps;
    var t := Trim(expr);
    if t != [] && (t[0] == '{' || t[0] == '[') { return Json; }
    var parts := Pieces(t);
    var n := 0;
    while n < |parts|
      invariant n <= |parts|
      invariant FirstBad(parts) == FirstBad(parts[n..])
    {
      if FirstWord(parts[n], "") !in STEPS { return Rejected(parts[n]); }
      var ok := CheckStepWords(parts[n]);
      if !ok { return Rejected(parts[n]); }
      n := n + 1;
    }
    TrimTwice(expr);
    var ops := ParseQueryString(t);
    return Parsed(ops);
  }

  lemma {:induction false} TrimTwice(s: string)
    ensures Trim(Trim(s)) == Trim(s)
  {
    var a := TrimStart(s);
    TrimEndEnds(a);
    TrimEndStarts(a);
    TrimIdentity(Trim(s));
  }

  lemma {:induction false} TrimEndEnds(s: string)
    ensures TrimEnd(s) == [] || !IsSpace(TrimEnd(s)[|TrimEnd(s)| - 1])
  {
    if s != [] && IsSpace(s[|s| - 1]) { TrimEndEnds(s[..|s| - 1]); }
  }

  lemma {:induction false} TrimEndStarts(s: string)
    requires s == [] || !IsSpace(s[0])
    ensures TrimEnd(s) == [] || TrimEnd(s)[0] == s[0]
  {
    if s != [] && IsSpace(s[|s| - 1]) { TrimEndStarts(s[..|s| - 1]); }
  }
}
