/** What a query step means, word by word: the parser's searches through the text of a step
    (src/cli/query.rs) reduced to its words, for steps whose words are joined by single spaces. */
module QueryWords {
  import opened Outcomes
  import opened Text
  import opened Query

  // ---------------------------------------------------------------- keywords inside a step

  /** The word after the first one that ends in the keyword, which must not be the last. The
      value loses the keyword if it ends in it too and more words follow. */
  function ValueAfter(ws: seq<string>, keyword: string): Option<string> {
    if |ws| < 2 then None
    else if EndsWith(ws[0], keyword) then
      Some(if |ws| > 2 && EndsWith(ws[1], keyword) then ws[1][..|ws[1]| - |keyword|] else ws[1])
    else ValueAfter(ws[1..], keyword)
  }

  /** A search finds the first match, or there is none. */
  lemma {:induction false} FindsFirst(s: string, pattern: string)
    ensures match Find(s, pattern)
            case None => forall i: nat :: !MatchesAt(s, pattern, i)
            case Some(n) => MatchesAt(s, pattern, n) && forall i: nat | i < n :: !MatchesAt(s, pattern, i)
  {
    if |s| >= |pattern| && s != [] {
      FindsFirst(s[1..], pattern);
      assert MatchesAt(s, pattern, 0) <==> s[..|pattern|] == pattern by {
        assert s[0..|pattern|] == s[..|pattern|];
      }
      forall i: nat | i > 0 ensures MatchesAt(s, pattern, i) <==> MatchesAt(s[1..], pattern, i - 1) {
        if i + |pattern| <= |s| { assert s[1..][i - 1..i - 1 + |pattern|] == s[i..i + |pattern|]; }
      }
    }
  }

  /** A word, a space and more text. */
  function Spaced(w: string, rest: string): string {
    w + " " + rest
  }

  /** A keyword as the parser searches for it. */
  function Sought(keyword: string): (pattern: string)
    ensures pattern != []
  {
    keyword + " "
  }

  predicate Sensible(keyword: string) {
    keyword != [] && ' ' !in keyword
  }

  /** A keyword and a space match inside a word and the space after it only at the word's end. */
  lemma MatchInWord(w: string, rest: string, keyword: string, i: nat)
    requires Token(w) && Sensible(keyword) && i <= |w|
    ensures MatchesAt(Spaced(w, rest), Sought(keyword), i) <==> i + |keyword| == |w| && EndsWith(w, keyword)
  {
    var s, pattern, k := w + " " + rest, keyword + " ", |keyword|;
    assert pattern[k] == ' ' && pattern[..k] == keyword;
    if i + k + 1 <= |s| {
      var m := s[i..i + k + 1];
      assert m[k] == s[i + k] && m[..k] == s[i..i + k];
      if i + k < |w| {
        assert s[i + k] == w[i + k];
      } else if i + k == |w| {
        assert s[i..i + k] == w[i..];
        assert m == m[..k] + [m[k]];
      } else {
        assert m[|w| - i] == ' ';
        assert pattern[|w| - i] == keyword[|w| - i] && keyword[|w| - i] in keyword;
      }
    }
  }

  lemma MatchAfterWord(w: string, rest: string, pattern: string, i: nat)
    ensures MatchesAt(Spaced(w, rest), pattern, |w| + 1 + i) <==> MatchesAt(rest, pattern, i)
  {
    var s, n := w + " " + rest, |w| + 1 + i;
    if i + |pattern| <= |rest| { assert s[n..n + |pattern|] == rest[i..i + |pattern|]; }
  }

  lemma FindInWord(w: string, rest: string, keyword: string)
    requires Token(w) && Sensible(keyword) && EndsWith(w, keyword)
    ensures Find(Spaced(w, rest), Sought(keyword)) == Some(|w| - |keyword|)
  {
    var n := |w| - |keyword|;
    hide Find, Spaced, Sought, MatchesAt;
    forall i: nat | i < n ensures !MatchesAt(Spaced(w, rest), Sought(keyword), i) { MatchInWord(w, rest, keyword, i); }
    MatchInWord(w, rest, keyword, n);
    FindAt(Spaced(w, rest), Sought(keyword), n);
  }

  lemma NotUpTo(w: string, rest: string, keyword: string, i: nat)
    requires Token(w) && Sensible(keyword) && !EndsWith(w, keyword)
    requires i > |w| ==> !MatchesAt(rest, Sought(keyword), i - |w| - 1)
    ensures !MatchesAt(Spaced(w, rest), Sought(keyword), i)
  {
    hide Spaced, Sought, MatchesAt;
    if i <= |w| {
      MatchInWord(w, rest, keyword, i);
    } else {
      MatchAfterWord(w, rest, Sought(keyword), i - |w| - 1);
    }
  }

  /** Searching for the keyword in a word, a space and more text: it is not in a word that does
      not end in it. */
  lemma FindAfterWord(w: string, rest: string, keyword: string)
    requires Token(w) && Sensible(keyword) && !EndsWith(w, keyword)
    ensures Find(Spaced(w, rest), Sought(keyword))
         == match Find(rest, Sought(keyword)) case None => None case Some(n) => Some(|w| + 1 + n)
  {
    hide Find, Spaced, Sought, MatchesAt, Token, Sensible, EndsWith;
    var s, pattern := Spaced(w, rest), Sought(keyword);
    FindsFirst(rest, pattern);
    match Find(rest, pattern)
    case None =>
      forall i: nat ensures !MatchesAt(s, pattern, i) { NotUpTo(w, rest, keyword, i); }
      FindNowhere(s, pattern);
    case Some(n) =>
      forall i: nat | i < |w| + 1 + n ensures !MatchesAt(s, pattern, i) { NotUpTo(w, rest, keyword, i); }
      MatchAfterWord(w, rest, pattern, n);
      FindAt(s, pattern, |w| + 1 + n);
  }

  lemma SplitAt(s: string, pattern: string, n: nat)
    requires pattern != [] && Find(s, pattern) == Some(n)
    ensures n + |pattern| <= |s| && SplitSub(s, pattern) == [s[..n]] + SplitSub(s[n + |pattern|..], pattern)
  {
    hide Find;
  }

  lemma SplitNowhere(s: string, pattern: string)
    requires pattern != [] && Find(s, pattern) == None
    ensures SplitSub(s, pattern) == [s]
  {
    hide Find;
  }

  /** Splitting a word, a space and more text at the keyword. */
  lemma SplitInWord(w: string, rest: string, keyword: string)
    requires Token(w) && Sensible(keyword) && EndsWith(w, keyword)
    ensures SplitSub(Spaced(w, rest), Sought(keyword))
         == [w[..|w| - |keyword|]] + SplitSub(rest, Sought(keyword))
  {
    hide Find, SplitSub;
    var s, n := w + " " + rest, |w| - |keyword|;
    FindInWord(w, rest, keyword);
    SplitAt(s, Sought(keyword), n);
    assert s[..n] == w[..n] && s[n + |keyword| + 1..] == rest;
  }

  lemma SplitAfterWord(w: string, rest: string, keyword: string)
    requires Token(w) && Sensible(keyword) && !EndsWith(w, keyword)
    ensures var there := SplitSub(rest, Sought(keyword));
            SplitSub(Spaced(w, rest), Sought(keyword)) == [Spaced(w, there[0])] + there[1..]
  {
    hide Find, SplitSub, Sought;
    var s, pattern := w + " " + rest, Sought(keyword);
    FindAfterWord(w, rest, keyword);
    match Find(rest, pattern)
    case None =>
      SplitNowhere(rest, pattern);
      SplitNowhere(s, pattern);
    case Some(n) =>
      var k := n + |pattern|;
      SplitAt(s, pattern, |w| + 1 + n);
      SplitAt(rest, pattern, n);
      assert s[..|w| + 1 + n] == w + " " + rest[..n] && s[|w| + 1 + k..] == rest[k..];
      assert ([rest[..n]] + SplitSub(rest[k..], pattern))[1..] == SplitSub(rest[k..], pattern);
  }

  /** The first word of a text, which is empty only if the text is. */
  predicate StartsWithWord(text: string, w: string) {
    if w == [] then text == [] else Words(text) != [] && Words(text)[0] == w
  }

  lemma WordAtFront(w: string, rest: string)
    requires Token(w)
    ensures StartsWithWord(w, w) && StartsWithWord(Spaced(w, rest), w)
  {
    WordsStep(w, "");
    assert w + "" == w;
    WordsStep(w, " " + rest);
    assert w + " " + rest == w + (" " + rest);
  }

  lemma PrefixAtFront(w: string)
    requires Spaceless(w)
    ensures StartsWithWord(w, w)
  {
    if w != [] {
      WordsStep(w, "");
      assert w + "" == w;
    }
  }

  lemma JoinSpaced(ws: seq<string>)
    requires |ws| > 1
    ensures JoinWords(ws) == Spaced(ws[0], JoinWords(ws[1..]))
  {
  }

  /** What comes before the next keyword starts with the first word, or with what the keyword
      leaves of it. */
  lemma PieceStart(ws: seq<string>, keyword: string)
    requires Tokens(ws) && ws != [] && Sensible(keyword)
    ensures StartsWithWord(SplitSub(JoinWords(ws), Sought(keyword))[0],
                           if |ws| > 1 && EndsWith(ws[0], keyword) then ws[0][..|ws[0]| - |keyword|] else ws[0])
  {
    var w := ws[0];
    if |ws| == 1 {
      KeywordNeedsSpace(w, keyword);
      WordAtFront(w, "");
    } else {
      hide Words, StartsWithWord, SplitSub, Sought, Spaced, JoinWords;
      var rest := JoinWords(ws[1..]);
      JoinSpaced(ws);
      if EndsWith(w, keyword) {
        SplitInWord(w, rest, keyword);
        PrefixAtFront(w[..|w| - |keyword|]);
      } else {
        SplitAfterWord(w, rest, keyword);
        WordAtFront(w, SplitSub(rest, Sought(keyword))[0]);
      }
    }
  }

  /** The parser's search for a keyword comes to ValueAfter. */
  lemma {:induction false} FollowingWord(ws: seq<string>, keyword: string)
    requires Tokens(ws) && Sensible(keyword)
    ensures Following(JoinWords(ws), Sought(keyword)).Some? <==> ValueAfter(ws, keyword).Some?
    ensures ValueAfter(ws, keyword).Some? ==>
              StartsWithWord(Following(JoinWords(ws), Sought(keyword)).value, ValueAfter(ws, keyword).value)
  {
    if |ws| < 2 {
      assert ' ' !in JoinWords(ws);
      KeywordNeedsSpace(JoinWords(ws), keyword);
    } else {
      hide StartsWithWord, SplitSub, Sought, Spaced, JoinWords;
      JoinSpaced(ws);
      if EndsWith(ws[0], keyword) {
        SplitInWord(ws[0], JoinWords(ws[1..]), keyword);
        PieceStart(ws[1..], keyword);
      } else {
        SplitAfterWord(ws[0], JoinWords(ws[1..]), keyword);
        FollowingWord(ws[1..], keyword);
      }
    }
  }

  // ---------------------------------------------------------------- the meaning of each step

  function NameMeant(ws: seq<string>): Option<NameSelector> {
    match ValueAfter(ws, "name")
    case None => None
    case Some(v) => Some(Selector(TrimEndChar(TrimStartChar(v, '"'), '"')))
  }

  /** The first word is the type, unless it begins with "limit" or is "name" with words to
      follow; the name is the value of the first "name". */
  function FindMeaning(p: Parser, ws: seq<string>): Parser
    requires ws != []
  {
    var q := if (ws[0] == "name" && |ws| > 1) || "limit" <= ws[0] then p else p.(nodeType := Some(ws[0]));
    match NameMeant(ws) case None => q case Some(n) => q.(name := Some(n))
  }

  /** The edge is the first word, the direction the last word that names one, and the depth the
      value of the first "depth". */
  function ConnectMeaning(p: Parser, ws: seq<string>): Parser
    requires ws != []
  {
    p.(edge := Some(ws[0]),
       direction := DirectedAll(p.direction, ws),
       depth := match ValueAfter(ws, "depth")
                case None => p.depth
                case Some(v) => DepthOf(p.depth, if v == "" then "1" else v))
  }

  function FilterMeant(ws: seq<string>): Op {
    if |ws| < 2 then FilterOp(None, None, None)
    else if ws[0] == "label" then FilterOp(Some(ws[1]), None, None)
    else if ws[0] == "type" then FilterOp(None, Some(ws[1]), None)
    else if ws[0] == "name" then FilterOp(None, None, Some(Selector(ws[1])))
    else FilterOp(None, None, None)
  }

  function FieldMeant(w: string, default: SortField): SortField {
    if w == "name" then ByName else if w == "type" then ByType else if w == "label" then ByLabel else default
  }

  predicate AnyContains(ws: seq<string>, pattern: string) {
    exists i :: 0 <= i < |ws| && Contains(ws[i], pattern)
  }

  /** A step of the given words, the keyword first. A keyword alone does nothing. */
  function Meaning(p: Parser, words: seq<string>): Parser
    requires words != []
  {
    var ws := words[1..];
    if ws == [] then p
    else if words[0] == "find" then FindMeaning(p, ws)
    else if words[0] == "connect" then ConnectMeaning(p, ws)
    else if words[0] == "filter" then p.(extra := p.extra + [FilterMeant(ws)])
    else if words[0] == "sort" then p.(extra := p.extra + [SortOp(FieldMeant(ws[0], ByName), AnyContains(ws, "desc"))])
    else if words[0] == "group" then p.(extra := p.extra + [GroupOp(FieldMeant(ws[0], ByType))])
    else if words[0] == "limit" then p.(limit := OrElse(ParseUnsigned(ws[0], USIZE), 100))
    else p
  }

  const PLAIN_STEPS: seq<string> := ["find", "connect", "filter", "sort", "group", "limit"]

  lemma NoSpacePrefix(s: string, prefix: string)
    requires ' ' !in s && ' ' in prefix
    ensures !(prefix <= s)
  {
    var i :| 0 <= i < |prefix| && prefix[i] == ' ';
    assert i < |s| ==> s[i] in s;
  }

  /** A joined step begins with a word and a space exactly if that is its first word and not its
      only one. */
  lemma JoinStarts(ws: seq<string>, w: string)
    requires Tokens(ws) && ws != [] && Token(w)
    ensures w + " " <= JoinWords(ws) <==> |ws| > 1 && ws[0] == w
  {
    var s := JoinWords(ws);
    if w + " " <= s {
      WordsOfJoin(ws);
      WordsStep(w, s[|w|..]);
      assert s == w + s[|w|..];
      hide Words;
      if |ws| == 1 { NoSpacePrefix(s, w + " "); }
    } else if |ws| > 1 {
      var rest := JoinWords(ws[1..]);
      assert s == ws[0] + " " + rest && (ws[0] + " " + rest)[..|ws[0]| + 1] == ws[0] + " ";
    }
  }

  /** A joined step begins with a given text without spaces exactly if its first word does. */
  lemma JoinBegins(ws: seq<string>, prefix: string)
    requires Tokens(ws) && ws != [] && ' ' !in prefix
    ensures prefix <= JoinWords(ws) <==> prefix <= ws[0]
  {
    if |ws| > 1 {
      var s, v := JoinWords(ws), ws[0];
      assert s == v + " " + JoinWords(ws[1..]) && s[..|v|] == v && s[|v|] == ' ';
      if prefix <= v { assert s[..|prefix|] == v[..|prefix|]; }
    }
  }

  lemma FindMeans(p: Parser, ws: seq<string>)
    requires Tokens(ws) && ws != []
    ensures FindStep(p, JoinWords(ws)) == FindMeaning(p, ws)
  {
    JoinEnds(ws);
    WordsOfJoin(ws);
    JoinStarts(ws, "name");
    JoinBegins(ws, "limit");
    FollowingWord(ws, "name");
    assert "name" + " " == "name " == Sought("name");
    hide JoinWords, Tokens, Sought;
    NameRead(Following(JoinWords(ws), "name "), ws);
    hide Following, ValueAfter, Selector, TrimStartChar, TrimEndChar, StartsWithWord, NameMeant;
  }

  lemma NameRead(part: Option<string>, ws: seq<string>)
    requires part.Some? <==> ValueAfter(ws, "name").Some?
    requires part.Some? ==> StartsWithWord(part.value, ValueAfter(ws, "name").value)
    ensures match part
            case None => NameMeant(ws) == None
            case Some(text) =>
              NameMeant(ws) == Some(Selector(TrimEndChar(TrimStartChar(FirstWord(text, text), '"'), '"')))
  {
    hide ValueAfter, Selector, TrimStartChar, TrimEndChar;
  }

  lemma ConnectMeans(p: Parser, ws: seq<string>)
    requires Tokens(ws) && ws != []
    ensures ConnectStep(p, JoinWords(ws)) == ConnectMeaning(p, ws)
  {
    WordsOfJoin(ws);
    FollowingWord(ws, "depth");
    assert "depth" + " " == "depth " == Sought("depth");
    hide JoinWords, Following, ValueAfter, DepthOf, DirectedAll, Tokens, Sought;
  }

  lemma FilterMeans(p: Parser, ws: seq<string>)
    requires Tokens(ws) && ws != []
    ensures FilterStep(p, JoinWords(ws)) == p.(extra := p.extra + [FilterMeant(ws)])
  {
    WordsOfJoin(ws);
    JoinKinds(ws);
    hide JoinWords, Words, Tokens, Selector;
  }

  lemma JoinKinds(ws: seq<string>)
    requires Tokens(ws) && ws != []
    ensures "label " <= JoinWords(ws) <==> |ws| > 1 && ws[0] == "label"
    ensures "type " <= JoinWords(ws) <==> |ws| > 1 && ws[0] == "type"
    ensures "name " <= JoinWords(ws) <==> |ws| > 1 && ws[0] == "name"
  {
    hide JoinWords, Tokens;
    JoinStarts(ws, "label");
    JoinStarts(ws, "type");
    JoinStarts(ws, "name");
    assert "label" + " " == "label " && "type" + " " == "type " && "name" + " " == "name ";
  }

  /** A text without spaces occurs in joined words exactly if it occurs in one of them. */
  lemma {:induction false} JoinContains(ws: seq<string>, pattern: string)
    requires Tokens(ws) && pattern != [] && ' ' !in pattern
    ensures Contains(JoinWords(ws), pattern) <==> AnyContains(ws, pattern)
  {
    if |ws| > 1 {
      JoinContains(ws[1..], pattern);
      ContainsPastWord(ws[0], JoinWords(ws[1..]), pattern);
      hide Contains;
      JoinSpaced(ws);
      assert AnyContains(ws, pattern) <==> Contains(ws[0], pattern) || AnyContains(ws[1..], pattern) by {
        if i :| 0 <= i < |ws| && Contains(ws[i], pattern) {
          if i > 0 { assert ws[1..][i - 1] == ws[i]; }
        }
        if AnyContains(ws[1..], pattern) {
          var i :| 0 <= i < |ws[1..]| && Contains(ws[1..][i], pattern);
          assert ws[i + 1] == ws[1..][i];
        }
      }
    }
  }

  lemma ContainsPastWord(w: string, rest: string, pattern: string)
    requires pattern != [] && ' ' !in pattern
    ensures Contains(Spaced(w, rest), pattern) <==> Contains(w, pattern) || Contains(rest, pattern)
  {
    var s := Spaced(w, rest);
    FindsFirst(s, pattern);
    FindsFirst(w, pattern);
    FindsFirst(rest, pattern);
    hide Find, Spaced, MatchesAt;
    if Contains(s, pattern) {
      var i := Find(s, pattern).value;
      MatchSomewhere(w, rest, pattern, i);
    }
    if Contains(w, pattern) { MatchSomewhere(w, rest, pattern, Find(w, pattern).value); }
    if Contains(rest, pattern) { MatchAfterWord(w, rest, pattern, Find(rest, pattern).value); }
  }

  /** A text without spaces never matches across the space. */
  lemma MatchSomewhere(w: string, rest: string, pattern: string, i: nat)
    requires pattern != [] && ' ' !in pattern
    ensures MatchesAt(w, pattern, i) ==> MatchesAt(Spaced(w, rest), pattern, i)
    ensures MatchesAt(Spaced(w, rest), pattern, i) ==>
              MatchesAt(w, pattern, i) || (i > |w| && MatchesAt(rest, pattern, i - |w| - 1))
  {
    var s, n := w + " " + rest, |pattern|;
    if i + n <= |w| {
      assert s[i..i + n] == w[i..i + n];
    } else if i > |w| {
      MatchAfterWord(w, rest, pattern, i - |w| - 1);
    } else if i + n <= |s| {
      assert s[i..i + n][|w| - i] == s[|w|] == ' ';
      assert pattern[|w| - i] in pattern;
    }
  }

  /** "descending" contains "desc". */
  lemma DescendingContainsDesc(s: string)
    ensures Contains(s, "descending") ==> Contains(s, "desc")
  {
    FindsFirst(s, "desc");
    hide Find;
    if Contains(s, "descending") {
      var i := Find(s, "descending").value;
      assert "descending"[..4] == "desc";
      assert s[i..i + 4] == s[i..i + 10][..4];
      assert MatchesAt(s, "desc", i);
    }
  }

  lemma SortMeans(p: Parser, ws: seq<string>)
    requires Tokens(ws) && ws != []
    ensures SortStep(p, JoinWords(ws))
         == p.(extra := p.extra + [SortOp(FieldMeant(ws[0], ByName), AnyContains(ws, "desc"))])
  {
    WordsOfJoin(ws);
    JoinContains(ws, "desc");
    DescendingContainsDesc(JoinWords(ws));
    hide JoinWords, Words, Contains, AnyContains;
  }

  lemma GroupMeans(p: Parser, ws: seq<string>)
    requires Tokens(ws) && ws != []
    ensures GroupStep(p, JoinWords(ws)) == p.(extra := p.extra + [GroupOp(FieldMeant(ws[0], ByType))])
  {
    WordsOfJoin(ws);
    hide JoinWords, Words;
  }

  // ---------------------------------------------------------------- which step a keyword selects

  /** A step's text begins with its own keyword and with no other. */
  lemma OwnKeyword(keyword: string, r: string)
    requires keyword in PLAIN_STEPS
    ensures var part := Spaced(keyword, r);
            && ("find " <= part <==> keyword == "find")
            && ("connect " <= part <==> keyword == "connect")
            && ("filter " <= part <==> keyword == "filter")
            && !("semantic_filter " <= part)
            && ("sort " <= part <==> keyword == "sort")
            && ("group " <= part <==> keyword == "group")
            && ("limit " <= part <==> keyword == "limit")
  {
    var part := keyword + " " + r;
    assert part[0] == keyword[0] && part[1] == keyword[1] && part[2] == keyword[2];
  }

  lemma LoneKeyword(p: Parser, keyword: string)
    requires keyword in PLAIN_STEPS
    ensures ParseStep(p, keyword) == p
  {
    assert ' ' !in keyword;
    assert "find "[4] == ' ' && "connect "[7] == ' ' && "filter "[6] == ' ' && "semantic_filter "[15] == ' '
           && "sort "[4] == ' ' && "group "[5] == ' ' && "limit "[5] == ' ';
    NoSpacePrefix(keyword, "find ");
    NoSpacePrefix(keyword, "connect ");
    NoSpacePrefix(keyword, "filter ");
    NoSpacePrefix(keyword, "semantic_filter ");
    NoSpacePrefix(keyword, "sort ");
    NoSpacePrefix(keyword, "group ");
    NoSpacePrefix(keyword, "limit ");
  }

  /** The rest of a step, as the parser sees it after stripping the keyword. */
  lemma Remainder(keyword: string, ws: seq<string>)
    requires Tokens(ws) && ws != []
    ensures Trim(Spaced(keyword, JoinWords(ws))[|keyword| + 1..]) == JoinWords(ws)
  {
    JoinEnds(ws);
    TrimIdentity(JoinWords(ws));
    assert (keyword + " " + JoinWords(ws))[|keyword| + 1..] == JoinWords(ws);
  }

  /** The parser does to its variables what the words of the step mean. */
  lemma StepMeans(p: Parser, words: seq<string>)
    requires Tokens(words) && words != [] && words[0] in PLAIN_STEPS
    ensures ParseStep(p, JoinWords(words)) == Meaning(p, words)
  {
    var ws := words[1..];
    if ws == [] {
      assert words == [words[0]];
      LoneKeyword(p, words[0]);
    } else {
      JoinSpaced(words);
      Remainder(words[0], ws);
      OwnKeyword(words[0], JoinWords(ws));
      FindMeans(p, ws);
      ConnectMeans(p, ws);
      FilterMeans(p, ws);
      SortMeans(p, ws);
      GroupMeans(p, ws);
      WordsOfJoin(ws);
      hide Words, Trim, JoinWords, Spaced, FindStep, ConnectStep, FilterStep, SortStep, GroupStep, FindMeaning,
           ConnectMeaning, FilterMeant, FieldMeant, AnyContains, ParseUnsigned;
    }
  }
}
