/** The string operations the query parser is written in, with the meaning Rust's standard
    library gives them. */
module Text {
  import opened Outcomes
  import opened Numerals

  /** Unicode White_Space. */
  predicate IsSpace(c: char) {
    var n := c as int;
    || 0x09 <= n <= 0x0D || n == 0x20 || n == 0x85 || n == 0xA0 || n == 0x1680
    || 0x2000 <= n <= 0x200A || n == 0x2028 || n == 0x2029 || n == 0x202F || n == 0x205F || n == 0x3000
  }

  /** The twenty-five characters with that property. */
  lemma WhiteSpace(c: char)
    ensures IsSpace(c) <==> c as int in {
      0x09, 0x0A, 0x0B, 0x0C, 0x0D, 0x20, 0x85, 0xA0, 0x1680, 0x2000, 0x2001, 0x2002, 0x2003, 0x2004, 0x2005, 0x2006,
      0x2007, 0x2008, 0x2009, 0x200A, 0x2028, 0x2029, 0x202F, 0x205F, 0x3000}
  {
  }

  function TrimStart(s: string): (r: string)
    ensures |r| <= |s|
    ensures r == [] || !IsSpace(r[0])
  {
    if s != [] && IsSpace(s[0]) then TrimStart(s[1..]) else s
  }

  function TrimEnd(s: string): (r: string)
    ensures |r| <= |s|
  {
    if s != [] && IsSpace(s[|s| - 1]) then TrimEnd(s[..|s| - 1]) else s
  }

  function Trim(s: string): string {
    TrimEnd(TrimStart(s))
  }

  /** The length of the word at the front. */
  function WordLength(s: string): (n: nat)
    ensures n <= |s|
    ensures forall i | 0 <= i < n :: !IsSpace(s[i])
    ensures n < |s| ==> IsSpace(s[n])
  {
    if s == [] || IsSpace(s[0]) then 0 else 1 + WordLength(s[1..])
  }

  /** `split_whitespace` */
  function Words(s: string): seq<string>
    decreases |s|
  {
    var t := TrimStart(s);
    if t == [] then []
    else
      var n := WordLength(t);
      [t[..n]] + Words(t[n..])
  }

  /** Where `c` first occurs, or the length. */
  function IndexOf(s: string, c: char): (n: nat)
    ensures n <= |s|
    ensures forall i | 0 <= i < n :: s[i] != c
    ensures n < |s| ==> s[n] == c
  {
    if s == [] || s[0] == c then 0 else 1 + IndexOf(s[1..], c)
  }

  /** `split` on a character */
  function SplitOn(s: string, c: char): (r: seq<string>)
    ensures r != []
    decreases |s|
  {
    var n := IndexOf(s, c);
    if n == |s| then [s] else [s[..n]] + SplitOn(s[n + 1..], c)
  }

  /** Where the pattern first occurs. */
  function Find(s: string, pattern: string): (r: Option<nat>)
    ensures r.Some? ==> r.value + |pattern| <= |s| && s[r.value..r.value + |pattern|] == pattern
  {
    if |s| < |pattern| then None
    else if s[..|pattern|] == pattern then Some(0)
    else if s == [] then None
    else match Find(s[1..], pattern)
      case None => None
      case Some(i) =>
        assert s[1..][i..i + |pattern|] == s[i + 1..i + 1 + |pattern|];
        Some(i + 1)
  }

  predicate Contains(s: string, pattern: string) {
    Find(s, pattern).Some?
  }

  /** `split` on a pattern */
  function SplitSub(s: string, pattern: string): (r: seq<string>)
    requires pattern != []
    ensures r != []
    decreases |s|
  {
    match Find(s, pattern)
    case None => [s]
    case Some(i) => [s[..i]] + SplitSub(s[i + |pattern|..], pattern)
  }

  function TrimStartChar(s: string, c: char): string {
    if s != [] && s[0] == c then TrimStartChar(s[1..], c) else s
  }

  function TrimEndChar(s: string, c: char): string {
    if s != [] && s[|s| - 1] == c then TrimEndChar(s[..|s| - 1], c) else s
  }

  /** Parsing an unsigned integer below `limit`; a leading plus sign is accepted. */
  function ParseUnsigned(s: string, limit: nat): Option<nat> {
    var d := if s != [] && s[0] == '+' then s[1..] else s;
    if Digits(d, 10) && Value(d, 10) < limit then Some(Value(d, 10)) else None
  }

  lemma ParseDecimal(n: nat, limit: nat)
    requires n < limit
    ensures ParseUnsigned(Decimal(n), limit) == Some(n)
  {
    NumeralValue(n, 10);
    NumeralAvoids(n, 10, '+');
  }

  // ---------------------------------------------------------------- words joined by single spaces

  predicate Spaceless(s: string) {
    forall i | 0 <= i < |s| :: !IsSpace(s[i])
  }

  /** A word: not empty, no white space, no pipe. */
  predicate Token(s: string) {
    s != [] && Spaceless(s) && '|' !in s
  }

  predicate Tokens(ws: seq<string>) {
    forall i | 0 <= i < |ws| :: Token(ws[i])
  }

  function JoinWords(ws: seq<string>): string {
    if ws == [] then [] else if |ws| == 1 then ws[0] else ws[0] + " " + JoinWords(ws[1..])
  }

  lemma {:induction false} WordLengthAt(s: string, n: nat)
    requires n <= |s| && (forall i | 0 <= i < n :: !IsSpace(s[i])) && (n < |s| ==> IsSpace(s[n]))
    ensures WordLength(s) == n
  {
  }

  lemma WordsStep(w: string, rest: string)
    requires w != [] && Spaceless(w) && (rest == [] || IsSpace(rest[0]))
    ensures Words(w + rest) == [w] + Words(rest)
  {
    var s := w + rest;
    assert TrimStart(s) == s;
    WordLengthAt(s, |w|);
    assert s[..|w|] == w && s[|w|..] == rest;
  }

  lemma WordsSkip(s: string)
    ensures Words(" " + s) == Words(s)
  {
    assert TrimStart(" " + s) == TrimStart((" " + s)[1..]);
    assert (" " + s)[1..] == s;
  }

  /** Splitting at white space undoes joining with single spaces. */
  lemma {:induction false} WordsOfJoin(ws: seq<string>)
    requires Tokens(ws)
    ensures Words(JoinWords(ws)) == ws
  {
    if ws == [] {
    } else if |ws| == 1 {
      WordsStep(ws[0], "");
      assert ws[0] + "" == ws[0] && ws == [ws[0]];
    } else {
      WordsOfJoin(ws[1..]);
      WordsSkip(JoinWords(ws[1..]));
      WordsStep(ws[0], " " + JoinWords(ws[1..]));
      assert JoinWords(ws) == ws[0] + (" " + JoinWords(ws[1..]));
      assert ws == [ws[0]] + ws[1..];
    }
  }

  /** A joined list of words has a word at both ends and no pipe. */
  lemma {:induction false} JoinEnds(ws: seq<string>)
    requires Tokens(ws) && ws != []
    ensures var s := JoinWords(ws); s != [] && !IsSpace(s[0]) && !IsSpace(s[|s| - 1]) && '|' !in s
    ensures ws[0] <= JoinWords(ws)
  {
    if |ws| > 1 {
      JoinEnds(ws[1..]);
    }
  }

  lemma TrimIdentity(s: string)
    requires s == [] || (!IsSpace(s[0]) && !IsSpace(s[|s| - 1]))
    ensures Trim(s) == s
  {
  }

  // ---------------------------------------------------------------- pieces between pipes

  function TrimAll(ss: seq<string>): (r: seq<string>)
    ensures |r| == |ss|
  {
    seq(|ss|, i requires 0 <= i < |ss| => Trim(ss[i]))
  }

  function Pieces(s: string): seq<string> {
    TrimAll(SplitOn(s, '|'))
  }

  function JoinPipes(parts: seq<string>): string
    requires parts != []
  {
    if |parts| == 1 then parts[0] else parts[0] + " | " + JoinPipes(parts[1..])
  }

  lemma IndexOfAt(s: string, c: char, n: nat)
    requires n <= |s| && (forall i | 0 <= i < n :: s[i] != c) && (n < |s| ==> s[n] == c)
    ensures IndexOf(s, c) == n
  {
  }

  lemma TrimLeadingSpace(s: string)
    ensures Trim(" " + s) == Trim(s)
  {
    assert (" " + s)[1..] == s;
  }

  lemma TrimTrailingSpace(s: string)
    requires s != [] && !IsSpace(s[0]) && !IsSpace(s[|s| - 1])
    ensures Trim(s + " ") == s
  {
    assert TrimStart(s + " ") == s + " ";
    assert (s + " ")[..|s|] == s;
    assert TrimEnd(s + " ") == TrimEnd(s);
  }

  lemma PiecesLeadingSpace(s: string)
    ensures Pieces(" " + s) == Pieces(s)
  {
    hide Trim;
    var n := IndexOf(s, '|');
    IndexOfAt(" " + s, '|', n + 1);
    if n == |s| {
      TrimLeadingSpace(s);
      assert Pieces(" " + s) == [Trim(" " + s)];
    } else {
      assert (" " + s)[..n + 1] == " " + s[..n];
      assert (" " + s)[n + 2..] == s[n + 1..];
      TrimLeadingSpace(s[..n]);
      assert SplitOn(" " + s, '|') == [" " + s[..n]] + SplitOn(s[n + 1..], '|');
      assert SplitOn(s, '|') == [s[..n]] + SplitOn(s[n + 1..], '|');
      assert TrimAll(SplitOn(" " + s, '|')) == TrimAll(SplitOn(s, '|'));
    }
  }

  predicate Part(s: string) {
    s != [] && !IsSpace(s[0]) && !IsSpace(s[|s| - 1]) && '|' !in s
  }

  /** Splitting at pipes and trimming undoes joining with " | ". */
  lemma {:induction false} PiecesOfJoin(parts: seq<string>)
    requires parts != [] && forall i | 0 <= i < |parts| :: Part(parts[i])
    ensures Pieces(JoinPipes(parts)) == parts
  {
    var p := parts[0];
    if |parts| == 1 {
      IndexOfAt(p, '|', |p|);
      TrimIdentity(p);
      assert SplitOn(p, '|') == [p];
      assert TrimAll([p]) == [p];
    } else {
      PiecesOfJoin(parts[1..]);
      PiecesLeadingSpace(JoinPipes(parts[1..]));
      FirstPiece(p, JoinPipes(parts[1..]));
      assert parts == [p] + parts[1..];
    }
  }

  lemma FirstPiece(p: string, rest: string)
    requires Part(p)
    ensures Pieces(p + " | " + rest) == [p] + Pieces(" " + rest)
  {
    var s := p + " | " + rest;
    IndexOfAt(s, '|', |p| + 1);
    assert s[..|p| + 1] == p + " ";
    assert s[|p| + 2..] == " " + rest;
    TrimTrailingSpace(p);
    TrimCons(p + " ", SplitOn(" " + rest, '|'));
  }

  lemma TrimCons(s: string, ss: seq<string>)
    ensures TrimAll([s] + ss) == [Trim(s)] + TrimAll(ss)
  {
  }

  lemma {:induction false} JoinPipesEnds(parts: seq<string>)
    requires parts != [] && forall i | 0 <= i < |parts| :: Part(parts[i])
    ensures var s := JoinPipes(parts); s != [] && !IsSpace(s[0]) && !IsSpace(s[|s| - 1])
    ensures parts[0] <= JoinPipes(parts)
  {
    if |parts| > 1 { JoinPipesEnds(parts[1..]); }
  }

  // ---------------------------------------------------------------- keywords inside a step

  predicate MatchesAt(s: string, pattern: string, i: nat) {
    i + |pattern| <= |s| && s[i..i + |pattern|] == pattern
  }

  lemma {:induction false} MatchShift(s: string, pattern: string, i: nat)
    requires s != []
    ensures MatchesAt(s[1..], pattern, i) <==> MatchesAt(s, pattern, i + 1)
  {
    if i + 1 + |pattern| <= |s| { assert s[1..][i..i + |pattern|] == s[i + 1..i + 1 + |pattern|]; }
  }

  lemma {:induction false} FindAt(s: string, pattern: string, n: nat)
    requires MatchesAt(s, pattern, n) && forall i: nat | i < n :: !MatchesAt(s, pattern, i)
    ensures Find(s, pattern) == Some(n)
  {
    if |pattern| <= |s| { assert s[0..|pattern|] == s[..|pattern|]; }
    if n > 0 {
      assert !MatchesAt(s, pattern, 0);
      FindLater(s, pattern);
      hide MatchesAt, Find;
      forall i: nat | i < n - 1 ensures !MatchesAt(s[1..], pattern, i) { MatchShift(s, pattern, i); }
      MatchShift(s, pattern, n - 1);
      FindAt(s[1..], pattern, n - 1);
    }
  }

  /** A text that does not begin with the pattern has it where the rest does. */
  lemma {:induction false} FindLater(s: string, pattern: string)
    requires s != [] && |pattern| <= |s| && s[..|pattern|] != pattern
    ensures Find(s, pattern) == match Find(s[1..], pattern) case None => None case Some(i) => Some(i + 1)
  {
  }

  lemma {:induction false} FindNowhere(s: string, pattern: string)
    requires forall i: nat :: !MatchesAt(s, pattern, i)
    ensures Find(s, pattern) == None
  {
    assert Find(s, pattern).Some? ==> MatchesAt(s, pattern, Find(s, pattern).value);
  }

  /** A keyword followed by a space does not occur in a text without spaces. */
  lemma KeywordNeedsSpace(s: string, keyword: string)
    requires ' ' !in s
    ensures Find(s, keyword + " ") == None
  {
    var pattern := keyword + " ";
    assert pattern[|keyword|] == ' ';
    forall i: nat ensures !MatchesAt(s, pattern, i) {
      if i + |pattern| <= |s| { assert s[i..i + |pattern|][|keyword|] == s[i + |keyword|] && s[i + |keyword|] in s; }
    }
    FindNowhere(s, keyword + " ");
  }

  /** Whether a word ends in another. */
  predicate EndsWith(s: string, suffix: string) {
    |suffix| <= |s| && s[|s| - |suffix|..] == suffix
  }
}
