/** Rules of the pipe syntax over whole queries: which step decides a value that several steps
    may give, and which words of an accepted step decide nothing. */
module QueryRules {
  import opened Outcomes
  import opened Numerals
  import opened Text
  import opened Query
  import opened QueryWords
  import opened QueryRoundTrip

  // ---------------------------------------------------------------- what a step gives

  function GivenType(part: string): Option<string> {
    if !("find " <= part) then None
    else
      var rest := Trim(part[5..]);
      if rest == [] || "name " <= rest || "limit" <= rest then None else Some(FirstWord(rest, rest))
  }

  function GivenName(part: string): Option<NameSelector> {
    if !("find " <= part) then None
    else match Following(Trim(part[5..]), "name ")
      case None => None
      case Some(text) => Some(Selector(TrimEndChar(TrimStartChar(FirstWord(text, text), '"'), '"')))
  }

  function GivenEdge(part: string): Option<string> {
    if "connect " <= part then Some(FirstWord(Trim(part[8..]), "Calls")) else None
  }

  function AsDirection(w: string): Option<Direction> {
    if w == "incoming" || w == "in" then Some(Incoming)
    else if w == "outgoing" || w == "out" then Some(Outgoing)
    else if w == "both" then Some(Both)
    else None
  }

  /** The last direction among some words. */
  function NamedDirection(words: seq<string>): Option<Direction> {
    if words == [] then None
    else match AsDirection(words[|words| - 1])
      case Some(d) => Some(d)
      case None => NamedDirection(words[..|words| - 1])
  }

  function GivenDirection(part: string): Option<Direction> {
    if "connect " <= part then NamedDirection(Words(Trim(part[8..]))) else None
  }

  function AsDepth(text: string): Option<Depth> {
    if Contains(text, "..") then
      var parts := SplitSub(text, "..");
      var min := OrElse(ParseUnsigned(parts[0], U32), 1);
      Some(Range(min, OrElse(ParseUnsigned(TrimStartChar(parts[|parts| - 1], '='), U32), min)))
    else match ParseUnsigned(text, U32)
      case Some(n) => Some(Single(n))
      case None => None
  }

  function GivenDepth(part: string): Option<Depth> {
    if !("connect " <= part) then None
    else match Following(Trim(part[8..]), "depth ")
      case None => None
      case Some(text) => AsDepth(FirstWord(text, "1"))
  }

  /** A limit step always gives one: 100, if its number cannot be read. */
  function GivenLimit(part: string): Option<nat> {
    if "limit " <= part then Some(OrElse(ParseUnsigned(FirstWord(Trim(part[6..]), ""), USIZE), 100)) else None
  }

  /** The operations a step adds to the query. */
  function GivenOps(part: string): seq<Op> {
    ParseStep(START, part).extra
  }

  // ---------------------------------------------------------------- the last step that gives one

  /** The last value given, looking back from the end. */
  function LastGiven<T>(parts: seq<string>, given: string -> Option<T>): Option<T> {
    if parts == [] then None
    else match given(parts[|parts| - 1])
      case Some(v) => Some(v)
      case None => LastGiven(parts[..|parts| - 1], given)
  }

  /** It is the one step that gives a value with none after it that does. */
  lemma {:induction false} LastGivenIff<T>(parts: seq<string>, given: string -> Option<T>, v: T)
    ensures LastGiven(parts, given) == Some(v) <==>
            exists i :: 0 <= i < |parts| && given(parts[i]) == Some(v)
                        && forall j | i < j < |parts| :: given(parts[j]) == None
    ensures LastGiven(parts, given) == None <==> forall i | 0 <= i < |parts| :: given(parts[i]) == None
  {
    if parts != [] {
      var n := |parts| - 1;
      LastGivenIff(parts[..n], given, v);
      assert forall i | 0 <= i < n :: parts[..n][i] == parts[i];
      if given(parts[n]).None? {
        if i :| 0 <= i < n && given(parts[..n][i]) == Some(v)
                && forall j | i < j < n :: given(parts[..n][j]) == None {
          assert given(parts[i]) == Some(v) && forall j | i < j < |parts| :: given(parts[j]) == None;
        }
        if i :| 0 <= i < |parts| && given(parts[i]) == Some(v)
                && forall j | i < j < |parts| :: given(parts[j]) == None {
          assert given(parts[..n][i]) == Some(v);
          assert forall j | i < j < n :: given(parts[..n][j]) == None;
        }
      }
    }
  }

  function OrKeep<T>(given: Option<T>, kept: T): T {
    match given case Some(v) => v case None => kept
  }

  function AsOption<T>(given: Option<T>, kept: Option<T>): Option<T> {
    if given.Some? then given else kept
  }

  lemma {:induction false} DirectedIsNamed(d: Direction, words: seq<string>)
    ensures DirectedAll(d, words) == OrKeep(NamedDirection(words), d)
  {
    if words != [] {
      var n := |words| - 1;
      DirectedIsNamed(d, words[..n]);
      DirectedLast(d, words[..n], words[n]);
      assert words == words[..n] + [words[n]];
    }
  }

  lemma {:induction false} DirectedLast(d: Direction, words: seq<string>, w: string)
    ensures DirectedAll(d, words + [w]) == Directed(DirectedAll(d, words), w)
    decreases |words|
  {
    if words == [] {
      assert ([] + [w])[1..] == [];
    } else {
      assert (words + [w])[1..] == words[1..] + [w];
      DirectedLast(Directed(d, words[0]), words[1..], w);
    }
  }

  /** The variables after a step: what it gives, and for the rest what there was. */
  function Updated(p: Parser, part: string): Parser {
    Parser(AsOption(GivenType(part), p.nodeType), AsOption(GivenName(part), p.name),
           AsOption(GivenEdge(part), p.edge), OrKeep(GivenDirection(part), p.direction),
           OrKeep(GivenDepth(part), p.depth), OrKeep(GivenLimit(part), p.limit), p.extra + GivenOps(part))
  }

  lemma OneStepGives(p: Parser, part: string)
    ensures ParseStep(p, part) == Updated(p, part)
  {
    Exclusive(part);
    hide Words, Trim, FirstWord, SecondWord, Following, Contains, Selector, TrimStartChar, TrimEndChar, SplitSub,
         ParseUnsigned, DirectedAll, NamedDirection;
    if "connect " <= part { DirectedIsNamed(p.direction, Words(Trim(part[8..]))); }
    if !("filter " <= part) && !("sort " <= part) && !("group " <= part) && !("semantic_filter " <= part) {
      assert p.extra + [] == p.extra;
    }
  }

  /** A step has one keyword. */
  lemma Exclusive(part: string)
    ensures "find " <= part ==> !("connect " <= part) && !("limit " <= part)
    ensures "connect " <= part ==> !("find " <= part) && !("limit " <= part)
    ensures "limit " <= part ==>
              !("filter " <= part) && !("semantic_filter " <= part) && !("sort " <= part) && !("group " <= part)
    ensures "connect " <= part || "find " <= part ==>
              !("filter " <= part) && !("semantic_filter " <= part) && !("sort " <= part) && !("group " <= part)
  {
    assert "find "[0] == 'f' && "find "[1] == 'i' && "find "[2] == 'n' && "filter "[2] == 'l';
    assert "connect "[0] == 'c' && "limit "[0] == 'l' && "filter "[0] == 'f' && "semantic_filter "[0] == 's';
    assert "sort "[0] == 's' && "group "[0] == 'g';
  }

  function AllOps(parts: seq<string>): seq<Op> {
    if parts == [] then [] else AllOps(parts[..|parts| - 1]) + GivenOps(parts[|parts| - 1])
  }

  /** The variables after some steps: each the last value given, or the one there was before. */
  function LastValues(p: Parser, parts: seq<string>): Parser {
    Parser(AsOption(LastGiven(parts, GivenType), p.nodeType), AsOption(LastGiven(parts, GivenName), p.name),
           AsOption(LastGiven(parts, GivenEdge), p.edge), OrKeep(LastGiven(parts, GivenDirection), p.direction),
           OrKeep(LastGiven(parts, GivenDepth), p.depth), OrKeep(LastGiven(parts, GivenLimit), p.limit),
           p.extra + AllOps(parts))
  }

  lemma LastValuesStep(p: Parser, parts: seq<string>)
    requires parts != []
    ensures LastValues(p, parts) == Updated(LastValues(p, parts[..|parts| - 1]), parts[|parts| - 1])
  {
    hide GivenType, GivenName, GivenEdge, GivenDirection, GivenDepth, GivenLimit, GivenOps;
  }

  /** Over any list of steps, whatever their order and number, the last value given wins: a
      direction or depth that the last connect step leaves out carries over from an earlier one,
      a type or name from an earlier find, and the operations of the other steps add up in
      order. */
  lemma {:induction false} LastOneGivenWins(p: Parser, parts: seq<string>)
    ensures ParseSteps(p, parts) == LastValues(p, parts)
  {
    if parts == [] {
      assert p.extra + [] == p.extra;
    } else {
      hide ParseStep, LastValues, Updated;
      var n := |parts| - 1;
      LastOneGivenWins(p, parts[..n]);
      ParseStepsAppend(p, parts[..n], [parts[n]]);
      assert parts == parts[..n] + [parts[n]] && [parts[n]][1..] == [];
      OneStepGives(ParseSteps(p, parts[..n]), parts[n]);
      LastValuesStep(p, parts);
    }
  }

  lemma {:induction false} ParseStepsAppend(p: Parser, a: seq<string>, b: seq<string>)
    ensures ParseSteps(p, a + b) == ParseSteps(ParseSteps(p, a), b)
    decreases |a|
  {
    hide ParseStep;
    if a == [] {
      assert a + b == b;
    } else {
      assert (a + b)[1..] == a[1..] + b;
      ParseStepsAppend(ParseStep(p, a[0]), a[1..], b);
    }
  }

  /** A direction and a depth that survive a later connect step. */
  lemma CarryOverExample(first: string)
    requires first == JoinWords(ConnectPart("Calls", Some(Incoming), Some(Single(2)), false))
    ensures ParseSteps(START, [first, "connect Uses"])
         == START.(edge := Some("Uses"), direction := Incoming, depth := Single(2))
  {
    hide ParseStep, JoinWords, ConnectPart;
    assert !EndsWith("Calls", "depth");
    var p := START.(edge := Some("Calls"), direction := Incoming, depth := Single(2));
    ConnectPartRead(START, "Calls", Some(Incoming), Some(Single(2)), false);
    UsesText();
    ConnectPartRead(p, "Uses", None, None, false);
    assert [first, "connect Uses"][1..] == ["connect Uses"] && ["connect Uses"][1..] == [];
  }

  lemma UsesText()
    ensures JoinWords(ConnectPart("Uses", None, None, false)) == "connect Uses"
  {
    assert ConnectPart("Uses", None, None, false) == ["connect", "Uses"];
    assert ["connect", "Uses"][1..] == ["Uses"];
  }

  // ---------------------------------------------------------------- the same for written-out steps

  /** Steps of other kinds leave alone what a find, connect or limit step set. */
  lemma OtherStepsKeep(p: Parser, parts: seq<string>)
    ensures var q := ParseSteps(p, parts);
            && ((forall i | 0 <= i < |parts| :: !("find " <= parts[i])) ==>
                  q.nodeType == p.nodeType && q.name == p.name)
            && ((forall i | 0 <= i < |parts| :: !("connect " <= parts[i])) ==>
                  q.edge == p.edge && q.direction == p.direction && q.depth == p.depth)
            && ((forall i | 0 <= i < |parts| :: !("limit " <= parts[i])) ==> q.limit == p.limit)
            && p.extra <= q.extra
  {
    LastOneGivenWins(p, parts);
    if forall i | 0 <= i < |parts| :: !("find " <= parts[i]) {
      NoneGiven(parts, GivenType);
      NoneGiven(parts, GivenName);
    }
    if forall i | 0 <= i < |parts| :: !("connect " <= parts[i]) {
      NoneGiven(parts, GivenEdge);
      NoneGiven(parts, GivenDirection);
      NoneGiven(parts, GivenDepth);
    }
    if forall i | 0 <= i < |parts| :: !("limit " <= parts[i]) { NoneGiven(parts, GivenLimit); }
    hide ParseSteps, LastGiven, AllOps, Trim, Words;
  }

  lemma {:induction false} NoneGiven<T>(parts: seq<string>, given: string -> Option<T>)
    requires forall i | 0 <= i < |parts| :: given(parts[i]) == None
    ensures LastGiven(parts, given) == None
  {
    if parts != [] { NoneGiven(parts[..|parts| - 1], given); }
  }

  lemma ThenStep(p: Parser, before: seq<string>, part: string, after: seq<string>)
    ensures ParseSteps(p, before + [part] + after) == ParseSteps(ParseStep(ParseSteps(p, before), part), after)
  {
    hide ParseStep;
    ParseStepsAppend(p, before + [part], after);
    ParseStepsAppend(p, before, [part]);
    assert [part][1..] == [];
  }

  /** Of several limits the last one counts, whatever came before and after it. */
  lemma LastLimitWins(p: Parser, before: seq<string>, n: nat, after: seq<string>)
    requires n < USIZE && forall i | 0 <= i < |after| :: !("limit " <= after[i])
    ensures ParseSteps(p, before + [JoinWords(["limit", Decimal(n)])] + after).limit == n
  {
    hide ParseStep, ParseSteps, JoinWords, Decimal;
    var part := JoinWords(["limit", Decimal(n)]);
    ThenStep(p, before, part, after);
    LimitRoundTrip(ParseSteps(p, before), n);
    OtherStepsKeep(ParseStep(ParseSteps(p, before), part), after);
  }

  /** Of several connect steps the last one counts; what it leaves out is as the steps before it
      left it. */
  lemma LastConnectWins(p: Parser, before: seq<string>, edge: string, dir: Option<Direction>, depth: Option<Depth>,
                        inclusive: bool, after: seq<string>)
    requires Token(edge) && (depth.Some? ==> PlainDepth(depth.value))
    requires forall i | 0 <= i < |after| :: !("connect " <= after[i])
    ensures var was := ParseSteps(p, before);
            var q := ParseSteps(p, before + [JoinWords(ConnectPart(edge, dir, depth, inclusive))] + after);
            && q.edge == Some(edge)
            && q.direction == (if dir.Some? then dir.value else Directed(was.direction, edge))
            && q.depth == DepthRead(was.depth, edge, dir, depth)
  {
    hide ParseStep, ParseSteps, JoinWords, ConnectPart, Directed, DepthRead;
    var part := JoinWords(ConnectPart(edge, dir, depth, inclusive));
    ThenStep(p, before, part, after);
    ConnectPartRead(ParseSteps(p, before), edge, dir, depth, inclusive);
    OtherStepsKeep(ParseStep(ParseSteps(p, before), part), after);
  }

  /** Of several find steps the last one counts; a type or name it leaves out is as the steps
      before it left it. */
  lemma LastFindWins(p: Parser, before: seq<string>, nodeType: Option<string>, name: Option<NameSelector>,
                     after: seq<string>)
    requires nodeType.Some? ==> PlainType(nodeType.value, name.Some?)
    requires name.Some? ==> PlainName(name.value) && Unquoted(ShowName(name.value))
    requires forall i | 0 <= i < |after| :: !("find " <= after[i])
    ensures var was := ParseSteps(p, before);
            var q := ParseSteps(p, before + [JoinWords(FindWords(nodeType, name))] + after);
            && q.nodeType == AsOption(nodeType, was.nodeType)
            && q.name == AsOption(name, was.name)
  {
    hide ParseStep, ParseSteps, JoinWords, FindWords, PlainType, PlainName;
    var part := JoinWords(FindWords(nodeType, name));
    ThenStep(p, before, part, after);
    FindRoundTrip(ParseSteps(p, before), nodeType, name);
    OtherStepsKeep(ParseStep(ParseSteps(p, before), part), after);
  }

  // ---------------------------------------------------------------- words that decide nothing

  /** After its number a limit step may say anything. */
  lemma LimitReadsOneWord(p: Parser, n: string, rest: seq<string>)
    requires Tokens([n] + rest)
    ensures ParseStep(p, JoinWords(["limit", n] + rest)) == ParseStep(p, JoinWords(["limit", n]))
  {
    Extended(p, "limit", [n], rest);
    hide ParseStep, JoinWords, ParseUnsigned;
  }

  /** So may a group step after its field. */
  lemma GroupReadsOneWord(p: Parser, f: string, rest: seq<string>)
    requires Tokens([f] + rest)
    ensures ParseStep(p, JoinWords(["group", f] + rest)) == ParseStep(p, JoinWords(["group", f]))
  {
    Extended(p, "group", [f], rest);
    hide ParseStep, JoinWords;
  }

  /** And a filter step after its kind and value. */
  lemma FilterReadsTwoWords(p: Parser, kind: string, value: string, rest: seq<string>)
    requires Tokens([kind, value] + rest)
    ensures ParseStep(p, JoinWords(["filter", kind, value] + rest)) == ParseStep(p, JoinWords(["filter", kind, value]))
  {
    hide ParseStep, JoinWords, Selector, Tokens;
    Extended(p, "filter", [kind, value], rest);
    assert ["filter"] + [kind, value] == ["filter", kind, value];
  }

  /** Of what follows its field a sort step reads only whether a word contains "desc". */
  lemma SortReadsDesc(p: Parser, f: string, rest: seq<string>)
    requires Tokens([f] + rest)
    ensures ParseStep(p, JoinWords(["sort", f] + rest)) == ParseStep(p, JoinWords(["sort", f]))
       <==> Contains(f, "desc") || !AnyContains(rest, "desc")
  {
    hide ParseStep, JoinWords, Contains, AnyContains, Token;
    Extended(p, "sort", [f], rest);
    assert ["sort"] + [f] + rest == ["sort", f] + rest && ["sort"] + [f] == ["sort", f];
    var ws := [f] + rest;
    FirstOrRest(f, rest, "desc");
    FirstOrRest(f, [], "desc");
    assert [f] + [] == [f];
    assert (p.extra + [SortOp(FieldMeant(f, ByName), AnyContains(ws, "desc"))])[|p.extra|]
        == SortOp(FieldMeant(f, ByName), AnyContains(ws, "desc"));
    assert (p.extra + [SortOp(FieldMeant(f, ByName), AnyContains([f], "desc"))])[|p.extra|]
        == SortOp(FieldMeant(f, ByName), AnyContains([f], "desc"));
  }

  lemma FirstOrRest(w: string, rest: seq<string>, pattern: string)
    ensures AnyContains([w] + rest, pattern) <==> Contains(w, pattern) || AnyContains(rest, pattern)
    ensures !AnyContains([], pattern)
  {
    hide Contains;
    var ws := [w] + rest;
    if i :| 0 <= i < |rest| && Contains(rest[i], pattern) { assert ws[i + 1] == rest[i]; }
    if Contains(w, pattern) { assert Contains(ws[0], pattern); }
  }

  /** The meaning of a step with and without some more words. */
  lemma Extended(p: Parser, keyword: string, ws: seq<string>, rest: seq<string>)
    requires keyword in PLAIN_STEPS && ws != [] && Tokens(ws + rest)
    ensures ParseStep(p, JoinWords([keyword] + ws + rest)) == Meaning(p, [keyword] + (ws + rest))
    ensures ParseStep(p, JoinWords([keyword] + ws)) == Meaning(p, [keyword] + ws)
    ensures ([keyword] + (ws + rest))[1..] == ws + rest && ([keyword] + ws)[1..] == ws
  {
    assert [keyword] + ws + rest == [keyword] + (ws + rest);
    assert forall i | 0 <= i < |ws| :: (ws + rest)[i] == ws[i];
    KeywordIsToken(keyword);
    hide Token;
    StepMeans(p, [keyword] + (ws + rest));
    StepMeans(p, [keyword] + ws);
  }

  lemma TokensMore(keyword: string, ws: seq<string>, rest: seq<string>)
    requires Tokens([keyword] + ws) && Tokens(rest)
    ensures Tokens(ws + rest)
  {
    hide Token;
    assert forall i | 0 <= i < |ws| :: ws[i] == ([keyword] + ws)[i + 1];
  }

  lemma KeywordIsToken(keyword: string)
    requires keyword in PLAIN_STEPS
    ensures Token(keyword)
  {
  }

  lemma {:induction false} NoValueIff(ws: seq<string>, keyword: string)
    ensures ValueAfter(ws, keyword) == None <==> forall i | 0 <= i < |ws| - 1 :: !EndsWith(ws[i], keyword)
  {
    hide EndsWith;
    if |ws| >= 2 {
      NoValueIff(ws[1..], keyword);
      if forall i | 0 <= i < |ws| - 1 :: !EndsWith(ws[i], keyword) {
        forall i | 0 <= i < |ws[1..]| - 1 ensures !EndsWith(ws[1..][i], keyword) { assert ws[1..][i] == ws[i + 1]; }
      }
      if !EndsWith(ws[0], keyword) && forall i | 0 <= i < |ws[1..]| - 1 :: !EndsWith(ws[1..][i], keyword) {
        forall i | 0 <= i < |ws| - 1 ensures !EndsWith(ws[i], keyword) {
          if i > 0 { assert ws[i] == ws[1..][i - 1]; }
        }
      }
    }
  }

  lemma TypedMeaning(p: Parser, ws: seq<string>)
    requires ws != [] && ws[0] != "name" && !("limit" <= ws[0])
    ensures FindMeaning(p, ws) == p.(nodeType := Some(ws[0]), name := AsOption(NameMeant(ws), p.name))
    ensures NameMeant(ws).Some? <==> ValueAfter(ws, "name").Some?
  {
    hide Selector, ValueAfter, TrimStartChar, TrimEndChar;
  }

  /** The words after the type of a find step that gives only a type have no effect exactly if
      none of its words but the last ends in "name", or the name they give is the one held: so a
      limit inside it is accepted and has none. */
  lemma FindTypeReads(p: Parser, t: string, rest: seq<string>)
    requires Tokens([t] + rest) && PlainType(t, false)
    ensures ParseStep(p, JoinWords(["find", t] + rest)) == ParseStep(p, JoinWords(["find", t]))
       <==> (forall i | 0 <= i < |rest| :: !EndsWith(([t] + rest)[i], "name")) || p.name == NameMeant([t] + rest)
  {
    hide ParseStep, JoinWords, EndsWith, ValueAfter, FindMeaning, NameMeant, Tokens, Token;
    Extended(p, "find", [t], rest);
    assert ["find"] + [t] + rest == ["find", t] + rest && ["find"] + [t] == ["find", t];
    NoValueIff([t] + rest, "name");
    NoValueIff([t], "name");
    TypedMeaning(p, [t] + rest);
    TypedMeaning(p, [t]);
  }

  /** A name, type or not, that something follows is read whole exactly if it does not itself end
      in "name"; otherwise it loses that end. */
  lemma FindNameReads(p: Parser, nodeType: Option<string>, n: NameSelector, rest: seq<string>)
    requires Tokens(rest) && rest != [] && PlainName(n) && Unquoted(ShowName(n))
    requires nodeType.Some? ==> PlainType(nodeType.value, true)
    ensures ParseStep(p, JoinWords(FindWords(nodeType, Some(n)) + rest))
         == ParseStep(p, JoinWords(FindWords(nodeType, Some(n))))
       <==> !EndsWith(ShowName(n), "name")
  {
    var shown := ShowName(n);
    var ws := (match nodeType case Some(t) => [t] case None => []) + ["name", shown];
    FindTokens(nodeType, Some(n));
    assert FindWords(nodeType, Some(n)) == ["find"] + ws;
    TokensMore("find", ws, rest);
    Extended(p, "find", ws, rest);
    NameValue(nodeType, shown);
    NameCut(nodeType, shown, rest);
    SelectorOfName(n);
    StripQuotes(shown);
    if EndsWith(shown, "name") { SelectorShows(shown, shown[..|shown| - 4]); }
    hide ParseStep, JoinWords, Selector, ValueAfter, TrimStartChar, TrimEndChar, ShowName, PlainName, Unquoted;
  }

  lemma NameCut(nodeType: Option<string>, n: string, rest: seq<string>)
    requires rest != [] && (nodeType.Some? ==> !EndsWith(nodeType.value, "name"))
    ensures var ws := (match nodeType case Some(t) => [t] case None => []) + ["name", n] + rest;
            ValueAfter(ws, "name") == Some(if EndsWith(n, "name") then n[..|n| - 4] else n)
  {
    assert EndsWith("name", "name");
    var tail := ["name", n] + rest;
    assert ValueAfter(tail, "name") == Some(if EndsWith(n, "name") then n[..|n| - 4] else n);
    match nodeType
    case None => assert [] + ["name", n] + rest == tail;
    case Some(t) =>
      assert [t] + ["name", n] + rest == [t] + tail;
      assert ([t] + tail)[1..] == tail;
  }

  /** Different texts select differently, even after quotes are stripped from the shorter. */
  lemma SelectorShows(longer: string, shorter: string)
    requires |shorter| < |longer|
    ensures Selector(TrimEndChar(TrimStartChar(shorter, '"'), '"')) != Selector(longer)
  {
    var s := TrimEndChar(TrimStartChar(shorter, '"'), '"');
    StripShortens(shorter);
    ShowSelector(s);
    ShowSelector(longer);
    hide Selector, ShowName, TrimEndChar, TrimStartChar;
  }

  lemma ShowSelector(s: string)
    ensures ShowName(Selector(s)) == s
  {
    if |s| > 2 && s[0] == '/' && s[|s| - 1] == '/' { assert "/" + s[1..|s| - 1] + "/" == s; }
  }

  lemma StripShortens(s: string)
    ensures |TrimEndChar(TrimStartChar(s, '"'), '"')| <= |s|
  {
    StripStart(s);
    StripEnd(TrimStartChar(s, '"'));
  }

  lemma {:induction false} StripStart(s: string)
    ensures |TrimStartChar(s, '"')| <= |s|
  {
    if s != [] && s[0] == '"' { StripStart(s[1..]); }
  }

  lemma {:induction false} StripEnd(s: string)
    ensures |TrimEndChar(s, '"')| <= |s|
  {
    if s != [] && s[|s| - 1] == '"' { StripEnd(s[..|s| - 1]); }
  }

  /** The depth the words of a connect step give: the value of the first "depth", if it is one. */
  function NamedDepth(words: seq<string>): Option<Depth> {
    match ValueAfter(words, "depth")
    case None => None
    case Some(v) => AsDepth(if v == "" then "1" else v)
  }

  /** A value is kept if none is given or the one given is the same. */
  predicate Keeps<T(==)>(given: Option<T>, held: T) {
    given == None || given == Some(held)
  }

  /** Words after a connect step, complete or not, change nothing exactly if the last direction
      among them, if any, is the one the step leaves, and the step writes its own depth or the
      first depth it now gives, if any, is the one held. */
  lemma ConnectReads(p: Parser, edge: string, dir: Option<Direction>, depth: Option<Depth>, inclusive: bool,
                     rest: seq<string>)
    requires Token(edge) && (depth.Some? ==> PlainDepth(depth.value)) && Tokens(rest)
    ensures ParseStep(p, JoinWords(ConnectPart(edge, dir, depth, inclusive) + rest))
         == ParseStep(p, JoinWords(ConnectPart(edge, dir, depth, inclusive)))
       <==> && Keeps(NamedDirection(rest), if dir.Some? then dir.value else Directed(p.direction, edge))
            && (depth.Some? || Keeps(NamedDepth(ConnectPart(edge, dir, None, inclusive)[1..] + rest), p.depth))
  {
    hide ParseStep, JoinWords, Token, DirectedAll, Directed, NamedDirection, ValueAfter, DepthOf, DepthRead, NamedDepth;
    hide ConnectPart;
    var words := ConnectPart(edge, dir, depth, inclusive);
    ConnectPartTokens(edge, dir, depth, inclusive);
    PartWords(edge, dir, depth, inclusive);
    var ws := words[1..];
    assert words == ["connect"] + ws;
    TokensMore("connect", ws, rest);
    Extended(p, "connect", ws, rest);
    ConnectPartRead(p, edge, dir, depth, inclusive);
    DirectedAppend(p.direction, ws, rest);
    DirectedIsNamed(DirectedAll(p.direction, ws), rest);
    if depth.Some? {
      DepthFound(edge, dir, depth.value, inclusive, rest);
    } else {
      DepthIsNamed(p.depth, ws + rest);
      assert DepthRead(p.depth, edge, dir, depth) == p.depth by { NoDepthRead(p.depth, edge, dir); }
    }
  }

  /** After a complete connect step only a direction word still counts. */
  lemma ConnectReadsDirections(p: Parser, c: Op, inclusive: bool, rest: seq<string>)
    requires c.ConnectOp? && Token(c.edge) && PlainDepth(c.depth) && Tokens(rest)
    ensures ParseStep(p, JoinWords(ConnectWords(c, inclusive) + rest))
         == ParseStep(p, JoinWords(ConnectWords(c, inclusive)))
       <==> Keeps(NamedDirection(rest), c.direction)
  {
    hide ParseStep, JoinWords, NamedDirection, NamedDepth;
    ConnectReads(p, c.edge, Some(c.direction), Some(c.depth), inclusive, rest);
    assert ConnectWords(c, inclusive) == ConnectPart(c.edge, Some(c.direction), Some(c.depth), inclusive);
  }

  lemma PartWords(edge: string, dir: Option<Direction>, depth: Option<Depth>, inclusive: bool)
    ensures var words := ConnectPart(edge, dir, depth, inclusive);
            |words| > 1 && words[0] == "connect" && words[1] == edge
  {
  }

  lemma NoDepthRead(before: Depth, edge: string, dir: Option<Direction>)
    ensures DepthRead(before, edge, dir, None) == before
  {
  }

  lemma DepthIsNamed(before: Depth, ws: seq<string>)
    ensures (match ValueAfter(ws, "depth")
             case None => before
             case Some(v) => DepthOf(before, if v == "" then "1" else v)) == OrKeep(NamedDepth(ws), before)
  {
    hide ValueAfter, Contains, SplitSub, ParseUnsigned, TrimStartChar;
  }

  /** A depth that is written, or the edge that hides it, is found before any further word. */
  lemma DepthFound(edge: string, dir: Option<Direction>, depth: Depth, inclusive: bool, rest: seq<string>)
    ensures var ws := ConnectPart(edge, dir, Some(depth), inclusive)[1..];
            ValueAfter(ws + rest, "depth") == ValueAfter(ws, "depth")
  {
    var shown := ShowDepth(depth, inclusive);
    DepthEndsInDigit(depth, inclusive);
    var tail := ["depth", shown];
    DepthAtFront(shown, rest);
    DepthAtFront(shown, []);
    assert tail + [] == tail;
    hide EndsWith, ShowDirection, ShowDepth, ValueAfter;
    match dir
    case None =>
      assert ConnectPart(edge, dir, Some(depth), inclusive)[1..] == [edge] + tail;
      assert [edge] + tail + rest == [edge] + (tail + rest);
      ValueAfterFirst(edge, tail, "depth");
      ValueAfterFirst(edge, tail + rest, "depth");
    case Some(d) =>
      var w := ShowDirection(d);
      NotAKeyword(d, Single(1));
      assert ConnectPart(edge, dir, Some(depth), inclusive)[1..] == [edge] + ([w] + tail);
      assert [edge] + ([w] + tail) + rest == [edge] + ([w] + (tail + rest));
      ValueAfterFirst(w, tail, "depth");
      ValueAfterFirst(w, tail + rest, "depth");
      ValueAfterFirst(edge, [w] + tail, "depth");
      ValueAfterFirst(edge, [w] + (tail + rest), "depth");
  }

  lemma DepthAtFront(shown: string, rest: seq<string>)
    requires !EndsWith(shown, "depth")
    ensures ValueAfter(["depth", shown] + rest, "depth") == Some(shown)
  {
    assert EndsWith("depth", "depth");
    hide EndsWith;
  }

  lemma ValueAfterFirst(w: string, ws: seq<string>, keyword: string)
    requires |ws| > 1
    ensures ValueAfter([w] + ws, keyword)
         == if !EndsWith(w, keyword) then ValueAfter(ws, keyword)
            else Some(if EndsWith(ws[0], keyword) then ws[0][..|ws[0]| - |keyword|] else ws[0])
  {
    assert ([w] + ws)[1..] == ws;
  }

  lemma DepthEndsInDigit(d: Depth, inclusive: bool)
    ensures !EndsWith(ShowDepth(d, inclusive), "depth")
  {
    var n := if d.Single? then d.n else d.max;
    var s := Decimal(n);
    assert DigitValue(s[|s| - 1], 10).Some?;
    assert ShowDepth(d, inclusive)[|ShowDepth(d, inclusive)| - 1] == s[|s| - 1];
    assert "depth"[4] == 'h' && DigitValue('h', 10) == None;
  }

  lemma {:induction false} DirectedAppend(d: Direction, a: seq<string>, b: seq<string>)
    ensures DirectedAll(d, a + b) == DirectedAll(DirectedAll(d, a), b)
    decreases |a|
  {
    if a == [] {
      assert a + b == b;
    } else {
      assert (a + b)[1..] == a[1..] + b;
      DirectedAppend(Directed(d, a[0]), a[1..], b);
    }
  }

  // ---------------------------------------------------------------- numbers too large

  /** A number that does not fit the machine's type is as good as none: a limit is then 100, and a
      depth is left as it was. */
  lemma TooLargeIsIgnored(p: Parser, n: nat)
    ensures ParseStep(p, JoinWords(["limit", Decimal(n)])).limit == if n < 0x1_0000_0000_0000_0000 then n else 100
    ensures DepthOf(p.depth, Decimal(n)) == if n < 0x1_0000_0000 then Single(n) else p.depth
  {
    DecimalToken(n);
    assert Token("limit");
    StepMeans(p, ["limit", Decimal(n)]);
    NumeralValue(n, 10);
    NumeralAvoids(n, 10, '+');
    assert ParseUnsigned(Decimal(n), USIZE) == if n < USIZE then Some(n) else None;
    assert ParseUnsigned(Decimal(n), U32) == if n < U32 then Some(n) else None;
    DotsNowhere(Decimal(n));
    hide ParseStep, JoinWords, Decimal, ParseUnsigned, Find, SplitSub, Token;
    assert ["limit", Decimal(n)][1..] == [Decimal(n)];
  }

  // ---------------------------------------------------------------- what is accepted at all

  /** A text is taken for JSON exactly if the first thing in it is an opening brace or bracket. */
  lemma JsonIff(expr: string)
    ensures ParseQuery(expr).Json? <==>
            exists i ::
              && 0 <= i < |expr| && (expr[i] == '{' || expr[i] == '[')
              && forall j | 0 <= j < i :: IsSpace(expr[j])
  {
    StartTrimmed(expr);
    var a := TrimStart(expr);
    if a != [] { TrimEndKeepsStart(a); }
    hide TrimStart, TrimEnd;
    assert Trim(expr) == TrimEnd(a);
    var n := |expr| - |a|;
    assert a != [] ==> expr[n] == a[0];
    if i :| 0 <= i < |expr| && (expr[i] == '{' || expr[i] == '[') && forall j | 0 <= j < i :: IsSpace(expr[j]) {
      assert !IsSpace(expr[i]);
      assert i == n;
    }
  }

  lemma {:induction false} StartTrimmed(s: string)
    ensures var n := |s| - |TrimStart(s)|; TrimStart(s) == s[n..] && forall j | 0 <= j < n :: IsSpace(s[j])
  {
    if s != [] && IsSpace(s[0]) {
      StartTrimmed(s[1..]);
      assert forall j | 0 < j < |s| :: s[j] == s[1..][j - 1];
    }
  }

  lemma {:induction false} TrimEndKeepsStart(s: string)
    requires s != [] && !IsSpace(s[0])
    ensures TrimEnd(s) != [] && TrimEnd(s)[0] == s[0]
  {
    if IsSpace(s[|s| - 1]) { TrimEndKeepsStart(s[..|s| - 1]); }
  }

  /** Anything else is parsed exactly if every step begins with one of the seven keywords and its
      words are in order; otherwise the first step that is not so is reported. */
  lemma ParsedIff(expr: string)
    requires !ParseQuery(expr).Json?
    ensures ParseQuery(expr).Parsed? <==> forall i | 0 <= i < |Pieces(Trim(expr))| :: InOrder(Pieces(Trim(expr))[i])
    ensures match ParseQuery(expr)
            case Rejected(part) =>
              exists i :: 0 <= i < |Pieces(Trim(expr))| && Pieces(Trim(expr))[i] == part && !InOrder(part)
                          && forall j | 0 <= j < i :: InOrder(Pieces(Trim(expr))[j])
            case _ => true
  {
    hide Trim, Pieces, InOrder, PartOk, Finish, ParseSteps;
    FirstBadIs(Pieces(Trim(expr)));
  }

  /** A step that begins with a keyword and whose words form a sentence. */
  ghost predicate InOrder(part: string) {
    var ws := Words(part);
    && ws != [] && WellFormed(ws)
    && (ws[0] == "find" || ws[0] == "connect" || ws[0] == "filter" || ws[0] == "semantic_filter"
        || ws[0] == "sort" || ws[0] == "group" || ws[0] == "limit")
  }

  lemma PartOkIff(part: string)
    ensures PartOk(part) <==> InOrder(part)
  {
    WordsOkIff(part);
    hide WordsOk, WellFormed;
    assert STEPS[0] == "find" && STEPS[1] == "connect" && STEPS[2] == "filter" && STEPS[3] == "semantic_filter"
           && STEPS[4] == "sort" && STEPS[5] == "group" && STEPS[6] == "limit" && "" !in STEPS;
  }

  lemma {:induction false} FirstBadIs(parts: seq<string>)
    ensures match FirstBad(parts)
            case None => forall i | 0 <= i < |parts| :: InOrder(parts[i])
            case Some(part) =>
              exists i :: 0 <= i < |parts| && parts[i] == part && !InOrder(part)
                          && forall j | 0 <= j < i :: InOrder(parts[j])
  {
    if parts != [] {
      PartOkIff(parts[0]);
      FirstBadIs(parts[1..]);
      hide InOrder, PartOk;
      assert forall i | 0 < i < |parts| :: parts[i] == parts[1..][i - 1];
      if InOrder(parts[0]) && FirstBad(parts[1..]).Some? {
        var k :| 0 <= k < |parts[1..]| && parts[1..][k] == FirstBad(parts[1..]).value
                 && forall j | 0 <= j < k :: InOrder(parts[1..][j]);
        assert parts[k + 1] == FirstBad(parts).value;
      }
    }
  }

  /** A depth whose lower end is left out starts at 1, one whose upper end is ends where it
      starts, and one that is no number at all changes nothing. */
  lemma DepthDefaults(before: Depth, n: nat, w: string)
    requires n < U32
    ensures DepthOf(before, ".." + Decimal(n)) == Range(1, n)
    ensures DepthOf(before, Decimal(n) + "..") == Range(n, n)
    ensures '.' !in w && !Digits(w, 10) && (w == [] || w[0] != '+') ==> DepthOf(before, w) == before
  {
    DecimalToken(n);
    ParseDecimal(n, U32);
    DropEquals(Decimal(n));
    DotsBetween("", Decimal(n));
    DotsBetween(Decimal(n), "");
    assert "" + ".." + Decimal(n) == ".." + Decimal(n) && Decimal(n) + ".." + "" == Decimal(n) + "..";
    assert ParseUnsigned("", U32) == None;
    assert TrimStartChar("", '=') == "";
    if '.' !in w { DotsNowhere(w); }
    hide Decimal, Find, SplitSub, TrimStartChar, Value;
  }

  /** A keyword separated from what follows it by any white space but a plain space: the check
      sees the same words as if it were one, but the parser drops the whole step. */
  lemma OnlyASpaceSeparates(p: Parser, keyword: string, c: char, rest: string)
    requires keyword in STEPS && IsSpace(c) && c != ' '
    ensures PartOk(keyword + [c] + rest) <==> PartOk(keyword + " " + rest)
    ensures ParseStep(p, keyword + [c] + rest) == p
  {
    KeywordHasNoSpace(keyword);
    KeywordsSpaceless();
    hide ParseStep, PartOk, IsSpace, Words, Spaceless;
    SameWords(keyword, c, rest);
    SameWords(keyword, ' ', rest);
    assert " " == [' '];
    WordsDecide(keyword + [c] + rest, keyword + " " + rest);
    NotBegun(keyword, c, rest, "find");
    NotBegun(keyword, c, rest, "connect");
    NotBegun(keyword, c, rest, "filter");
    NotBegun(keyword, c, rest, "semantic_filter");
    NotBegun(keyword, c, rest, "sort");
    NotBegun(keyword, c, rest, "group");
    NotBegun(keyword, c, rest, "limit");
    NoStep(p, keyword + [c] + rest);
  }

  lemma KeywordsSpaceless()
    ensures Spaceless("find") && Spaceless("connect") && Spaceless("filter") && Spaceless("semantic_filter")
    ensures Spaceless("sort") && Spaceless("group") && Spaceless("limit") && IsSpace(' ')
  {
  }

  lemma KeywordHasNoSpace(keyword: string)
    requires keyword in STEPS
    ensures keyword != [] && Spaceless(keyword)
  {
  }

  /** The check goes by the words alone. */
  lemma WordsDecide(a: string, b: string)
    requires Words(a) == Words(b)
    ensures PartOk(a) <==> PartOk(b)
  {
    hide Words;
  }

  lemma SameWords(keyword: string, c: char, rest: string)
    requires keyword != [] && Spaceless(keyword) && IsSpace(c)
    ensures Words(keyword + [c] + rest) == [keyword] + Words(rest)
  {
    WordsStep(keyword, [c] + rest);
    assert keyword + [c] + rest == keyword + ([c] + rest);
    SpaceSkipped(c, rest);
    hide Words, Spaceless, IsSpace;
  }

  lemma SpaceSkipped(c: char, rest: string)
    requires IsSpace(c)
    ensures Words([c] + rest) == Words(rest)
  {
    hide IsSpace;
    assert ([c] + rest)[1..] == rest;
    assert TrimStart([c] + rest) == TrimStart(rest);
  }

  /** Such a step does not begin with any keyword and a space. */
  lemma NotBegun(keyword: string, c: char, rest: string, other: string)
    requires Spaceless(keyword) && Spaceless(other) && IsSpace(c) && c != ' '
    ensures !(other + " " <= keyword + [c] + rest)
  {
    var part, begin := keyword + [c] + rest, other + " ";
    assert begin[|other|] == ' ' && part[|keyword|] == c;
    assert |other| < |keyword| ==> part[|other|] == keyword[|other|];
    assert |keyword| < |other| ==> begin[|keyword|] == other[|keyword|];
  }

  lemma NoStep(p: Parser, part: string)
    requires !("find" + " " <= part) && !("connect" + " " <= part) && !("filter" + " " <= part)
    requires !("semantic_filter" + " " <= part) && !("sort" + " " <= part) && !("group" + " " <= part)
    requires !("limit" + " " <= part)
    ensures ParseStep(p, part) == p
  {
    hide FindStep, ConnectStep, FilterStep, SortStep, GroupStep, Trim;
    assert "find" + " " == "find " && "connect" + " " == "connect " && "filter" + " " == "filter "
           && "semantic_filter" + " " == "semantic_filter " && "sort" + " " == "sort " && "group" + " " == "group "
           && "limit" + " " == "limit ";
  }

  /** A tab hides a step: every node is found. */
  lemma TabExample(p: Parser)
    ensures PartOk("find\tFunction") && ParseStep(p, "find\tFunction") == p
  {
    hide PartOk, ParseStep, Tokens, JoinWords, Token;
    ExampleTokens();
    assert STEPS[0] == "find";
    OnlyASpaceSeparates(p, "find", '\t', "Function");
    assert "find" + ['\t'] + "Function" == "find\tFunction";
    var ws := ["find", "Function"];
    assert Tokens(ws) && FindWordsOk(ws, 2) by { FunctionToken(); }
    Checked(ws);
    JoinMore("find", ["Function"]);
    assert ["find"] + ["Function"] == ws && JoinWords(["Function"]) == "Function" by { LoneWord("Function"); }
  }

  lemma FunctionToken()
    ensures Tokens(["find", "Function"])
  {
  }

  lemma LoneWord(w: string)
    ensures JoinWords([w]) == w
  {
  }

  // ---------------------------------------------------------------- accepted, and yet dropped

  /** Steps the check accepts although the parser drops words of them. */
  lemma UnusedWords(p: Parser)
    ensures PartOk("limit 5 banana") && ParseStep(p, "limit 5 banana") == ParseStep(p, "limit 5")
    ensures PartOk("group type nonsense") && ParseStep(p, "group type nonsense") == ParseStep(p, "group type")
    ensures PartOk("sort name sideways") && ParseStep(p, "sort name sideways") == ParseStep(p, "sort name")
    ensures PartOk("find Function limit 5") && ParseStep(p, "find Function limit 5") == ParseStep(p, "find Function")
  {
    LimitBanana(p);
    GroupNonsense(p);
    SortSideways(p);
    FindLimit(p);
    hide PartOk, ParseStep;
  }

  lemma ExampleTokens()
    ensures Token("limit") && Token("5") && Token("banana") && Token("group") && Token("type") && Token("nonsense")
    ensures Token("sort") && Token("name") && Token("sideways") && Token("find") && Token("Function")
  {
  }

  lemma LimitBanana(p: Parser)
    ensures PartOk("limit 5 banana") && ParseStep(p, "limit 5 banana") == ParseStep(p, "limit 5")
  {
    hide PartOk, ParseStep, Tokens, JoinWords, Token;
    ExampleTokens();
    ThreeTokens("limit", "5", "banana");
    assert STEPS[6] == "limit";
    Checked(["limit", "5", "banana"]);
    LimitReadsOneWord(p, "5", ["banana"]);
    JoinThree("limit", "5", "banana");
    assert "limit" + " " + ("5" + " " + "banana") == "limit 5 banana" && "limit" + " " + "5" == "limit 5";
  }

  lemma GroupNonsense(p: Parser)
    ensures PartOk("group type nonsense") && ParseStep(p, "group type nonsense") == ParseStep(p, "group type")
  {
    hide PartOk, ParseStep, Tokens, JoinWords, Token;
    ExampleTokens();
    ThreeTokens("group", "type", "nonsense");
    assert STEPS[5] == "group";
    Checked(["group", "type", "nonsense"]);
    GroupReadsOneWord(p, "type", ["nonsense"]);
    JoinThree("group", "type", "nonsense");
    assert "group" + " " + ("type" + " " + "nonsense") == "group type nonsense";
    assert "group" + " " + "type" == "group type";
  }

  lemma SortSideways(p: Parser)
    ensures PartOk("sort name sideways") && ParseStep(p, "sort name sideways") == ParseStep(p, "sort name")
  {
    hide PartOk, ParseStep, Tokens, JoinWords, Token, Contains;
    ExampleTokens();
    ThreeTokens("sort", "name", "sideways");
    assert STEPS[4] == "sort";
    Checked(["sort", "name", "sideways"]);
    SortReadsDesc(p, "name", ["sideways"]);
    NoDesc();
    JoinThree("sort", "name", "sideways");
    assert "sort" + " " + ("name" + " " + "sideways") == "sort name sideways" && "sort" + " " + "name" == "sort name";
  }

  lemma NoDesc()
    ensures !Contains("sideways", "desc")
  {
    var w := "sideways";
    forall i: nat ensures !MatchesAt(w, "desc", i) {
      if i + 4 <= |w| { assert w[i..i + 4][3] == w[i + 3] && "desc"[3] == 'c'; }
    }
    FindNowhere(w, "desc");
  }

  lemma FindLimit(p: Parser)
    ensures PartOk("find Function limit 5") && ParseStep(p, "find Function limit 5") == ParseStep(p, "find Function")
  {
    hide PartOk, ParseStep, Tokens, JoinWords, Token, EndsWith;
    var ws := ["find", "Function", "limit", "5"];
    ExampleTokens();
    ThreeTokens("Function", "limit", "5");
    FourTokens("find", "Function", "limit", "5");
    assert STEPS[0] == "find" && FindWordsOk(ws, 4) && FindWordsOk(ws, 2);
    Checked(ws);
    FunctionIsPlain();
    FindTypeReads(p, "Function", ["limit", "5"]);
    FindText();
    assert ["find", "Function"] + ["limit", "5"] == ws && ["Function"] + ["limit", "5"] == ["Function", "limit", "5"];
  }

  lemma FunctionIsPlain()
    ensures PlainType("Function", false) && !EndsWith("Function", "name") && !EndsWith("limit", "name")
  {
    assert "Function"[0] == 'F' && "limit"[0] == 'l' && "Function"[7] == 'n' && "limit"[4] == 't' && "name"[3] == 'e';
    assert "Function"[|"Function"| - 4..][3] == 'n' && "limit"[|"limit"| - 4..][3] == 't';
  }

  lemma FindText()
    ensures JoinWords(["find", "Function", "limit", "5"]) == "find Function limit 5"
    ensures JoinWords(["find", "Function"]) == "find Function"
  {
    hide JoinWords;
    JoinThree("Function", "limit", "5");
    JoinMore("find", ["Function", "limit", "5"]);
    JoinThree("find", "Function", "");
    assert ["find"] + ["Function", "limit", "5"] == ["find", "Function", "limit", "5"];
    assert "find" + " " + ("Function" + " " + ("limit" + " " + "5")) == "find Function limit 5";
    assert "find" + " " + "Function" == "find Function";
  }

  /** An accepted list of words, as text. */
  lemma Checked(ws: seq<string>)
    requires Tokens(ws) && ws != [] && ws[0] in STEPS && ws[0] != "connect"
    requires ws[0] == "find" ==> FindWordsOk(ws, if |ws| > 1 && ws[1] != "name" && ws[1] != "limit" then 2 else 1)
    ensures PartOk(JoinWords(ws))
  {
    JoinedAccepted(ws);
  }

  lemma ThreeTokens(a: string, b: string, c: string)
    requires Token(a) && Token(b) && Token(c)
    ensures Tokens([a, b, c]) && Tokens([b] + [c]) && [b] + [c] == [b, c]
    ensures Tokens([a] + [b, c]) && [a] + [b, c] == [a, b, c]
  {
  }

  lemma FourTokens(a: string, b: string, c: string, d: string)
    requires Token(a) && Token(b) && Token(c) && Token(d)
    ensures Tokens([a, b, c, d])
  {
  }

  lemma JoinMore(a: string, ws: seq<string>)
    requires ws != []
    ensures JoinWords([a] + ws) == a + " " + JoinWords(ws)
  {
    assert ([a] + ws)[1..] == ws;
  }

  lemma JoinThree(a: string, b: string, c: string)
    ensures [a, b] + [c] == [a, b, c] && JoinWords([a, b]) == a + " " + b
    ensures JoinWords([a, b, c]) == a + " " + (b + " " + c)
  {
    JoinMore(b, [c]);
    JoinMore(a, [b, c]);
    JoinMore(a, [b]);
    assert [b] + [c] == [b, c] && [a] + [b, c] == [a, b, c] && [a] + [b] == [a, b];
  }
}
