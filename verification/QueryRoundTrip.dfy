/** Writing a query as pipe text and parsing it gives the query back. */
module QueryRoundTrip {
  import opened Outcomes
  import opened Numerals
  import opened Text
  import opened Query
  import opened QueryWords

  /** A connect step as it may be written: direction and depth can be left out. */
  datatype Connection = Connection(edge: string, direction: Option<Direction>, depth: Option<Depth>)

  /** A query in the shape the pipe syntax can express. */
  datatype Pipe = Pipe(
    nodeType: Option<string>,
    name: Option<NameSelector>,
    connect: Option<Connection>,
    steps: seq<Op>,       // filter, semantic filter, sort and group steps, in order
    limit: Option<nat>)

  /** What the query means. Edges are followed outwards and one step deep, and a hundred results
      are asked for, unless the query says otherwise. */
  function OpsOf(q: Pipe): seq<Op> {
    [FindOp(q.nodeType, q.name)]
    + (match q.connect
       case Some(c) => [ConnectOp(c.edge,
                                  match c.direction case Some(d) => d case None => Outgoing,
                                  match c.depth case Some(d) => d case None => Single(1))]
       case None => [])
    + q.steps
    + [LimitOp(match q.limit case Some(n) => n case None => 100)]
  }

  // ---------------------------------------------------------------- rendering

  function ShowName(n: NameSelector): string {
    match n
    case Exact(s) => s
    case Glob(s) => s
    case StartsWith(s) => "/" + s + "/"
  }

  /** `a..b` and `a..=b` are both accepted, and mean the same. */
  function ShowDepth(d: Depth, inclusive: bool): string {
    match d
    case Single(n) => Decimal(n)
    case Range(min, max) => Decimal(min) + ".." + (if inclusive then "=" else "") + Decimal(max)
  }

  function ShowDirection(d: Direction): string {
    match d case Incoming => "incoming" case Outgoing => "outgoing" case Both => "both"
  }

  function ShowField(f: SortField): string {
    match f case ByName => "name" case ByType => "type" case ByLabel => "label"
  }

  function FindWords(nodeType: Option<string>, name: Option<NameSelector>): seq<string> {
    ["find"]
    + (match nodeType case Some(t) => [t] case None => [])
    + (match name case Some(n) => ["name", ShowName(n)] case None => [])
  }

  function ConnectWords(c: Op, inclusive: bool): seq<string>
    requires c.ConnectOp?
  {
    ["connect", c.edge, ShowDirection(c.direction), "depth", ShowDepth(c.depth, inclusive)]
  }

  function StepWords(op: Op): seq<string>
    requires PlainStep(op)
  {
    match op
    case FilterOp(Some(l), _, _) => ["filter", "label", l]
    case FilterOp(None, Some(t), _) => ["filter", "type", t]
    case FilterOp(None, None, Some(n)) => ["filter", "name", ShowName(n)]
    case SortOp(f, d) => ["sort", ShowField(f)] + if d then ["desc"] else []
    case GroupOp(f) => ["group", ShowField(f)]
    case SemanticOp(t) => ["semantic_filter", t]
  }

  function StepParts(steps: seq<Op>): (r: seq<string>)
    requires forall i | 0 <= i < |steps| :: PlainStep(steps[i])
    ensures |r| == |steps|
  {
    seq(|steps|, i requires 0 <= i < |steps| => JoinWords(StepWords(steps[i])))
  }

  function Parts(q: Pipe, inclusive: bool): seq<string>
    requires Plain(q)
  {
    [JoinWords(FindWords(q.nodeType, q.name))] + ConnectParts(q.connect, inclusive) + StepParts(q.steps)
    + LimitParts(q.limit)
  }

  function ConnectParts(connect: Option<Connection>, inclusive: bool): seq<string> {
    match connect
    case Some(c) => [JoinWords(ConnectPart(c.edge, c.direction, c.depth, inclusive))]
    case None => []
  }

  function LimitParts(limit: Option<nat>): seq<string> {
    match limit case Some(n) => [JoinWords(["limit", Decimal(n)])] case None => []
  }

  function Render(q: Pipe, inclusive: bool): string
    requires Plain(q)
  {
    JoinPipes(Parts(q, inclusive))
  }

  // ---------------------------------------------------------------- what can be written

  predicate HasGlob(s: string) {
    '*' in s || '?' in s
  }

  predicate PlainName(n: NameSelector) {
    && Token(ShowName(n))
    && match n
       case Exact(s) => !HasGlob(s) && !(|s| > 2 && s[0] == '/' && s[|s| - 1] == '/')
       case Glob(s) => HasGlob(s)
       case StartsWith(s) => s != [] && !HasGlob(s)
  }

  /** The name of a find step additionally loses double quotes at its ends. */
  predicate Unquoted(s: string) {
    s != [] ==> s[0] != '"' && s[|s| - 1] != '"'
  }

  /** A node type must not begin with "limit", must not be the keyword "name", and if a name
      follows it must not end in "name": the parser looks for these inside the text. */
  predicate PlainType(t: string, named: bool) {
    Token(t) && !("limit" <= t) && t != "name" && (named ==> !EndsWith(t, "name"))
  }

  predicate PlainDepth(d: Depth) {
    match d case Single(n) => n < U32 case Range(a, b) => a < U32 && b < U32
  }

  predicate PlainConnect(c: Op) {
    c.ConnectOp? && Token(c.edge) && !EndsWith(c.edge, "depth") && PlainDepth(c.depth)
  }

  predicate PlainStep(op: Op) {
    match op
    case FilterOp(Some(l), None, None) => Token(l)
    case FilterOp(None, Some(t), None) => Token(t)
    case FilterOp(None, None, Some(n)) => PlainName(n)
    case SortOp(_, _) => true
    case GroupOp(_) => true
    case SemanticOp(t) => Part(t) && "like" <= t
    case _ => false
  }

  /** An edge must not itself be a direction word if no direction is given, nor end in "depth" if
      a depth is. */
  predicate PlainConnection(c: Connection) {
    && Token(c.edge)
    && (c.direction.None? ==> !IsDirection(c.edge))
    && (c.depth.Some? ==> !EndsWith(c.edge, "depth") && PlainDepth(c.depth.value))
  }

  predicate Plain(q: Pipe) {
    && (q.nodeType.Some? ==> PlainType(q.nodeType.value, q.name.Some?))
    && (q.name.Some? ==> PlainName(q.name.value) && Unquoted(ShowName(q.name.value)))
    && (q.connect.Some? ==> PlainConnection(q.connect.value))
    && (forall i | 0 <= i < |q.steps| :: PlainStep(q.steps[i]))
    && (q.limit.Some? ==> q.limit.value < USIZE)
  }

  // ---------------------------------------------------------------- tokens

  lemma DecimalToken(n: nat)
    ensures Token(Decimal(n)) && ' ' !in Decimal(n) && '.' !in Decimal(n) && '=' !in Decimal(n)
  {
    var s := Decimal(n);
    NumeralAvoids(n, 10, '|');
    NumeralAvoids(n, 10, ' ');
    NumeralAvoids(n, 10, '.');
    NumeralAvoids(n, 10, '=');
    assert forall i | 0 <= i < |s| :: DigitValue(s[i], 10).Some?;
  }

  lemma DepthToken(d: Depth, inclusive: bool)
    ensures Token(ShowDepth(d, inclusive)) && ' ' !in ShowDepth(d, inclusive)
  {
    match d
    case Single(n) => DecimalToken(n);
    case Range(a, b) =>
      DecimalToken(a);
      DecimalToken(b);
      var s := ShowDepth(d, inclusive);
      forall i | 0 <= i < |s| ensures !IsSpace(s[i]) && s[i] != '|' && s[i] != ' ' { }
  }

  lemma SelectorOfName(n: NameSelector)
    requires PlainName(n)
    ensures Selector(ShowName(n)) == n
  {
    match n
    case StartsWith(s) =>
      var t := "/" + s + "/";
      assert t[1..|t| - 1] == s;
      assert forall c | c in t :: c in s || c == '/';
    case _ =>
  }

  // ---------------------------------------------------------------- depths

  lemma DepthRoundTrip(d: Depth, before: Depth, inclusive: bool)
    requires PlainDepth(d)
    ensures DepthOf(before, ShowDepth(d, inclusive)) == d
  {
    match d
    case Single(n) =>
      DecimalToken(n);
      DotsNowhere(Decimal(n));
      ParseDecimal(n, U32);
    case Range(a, b) => RangeRoundTrip(a, b, before, inclusive);
  }

  lemma RangeRoundTrip(a: nat, b: nat, before: Depth, inclusive: bool)
    requires a < U32 && b < U32
    ensures DepthOf(before, ShowDepth(Range(a, b), inclusive)) == Range(a, b)
  {
    hide Decimal, ParseUnsigned, Find, SplitSub, Token;
    var right := (if inclusive then "=" else "") + Decimal(b);
    DecimalToken(a);
    DecimalToken(b);
    DotsBetween(Decimal(a), right);
    ParseDecimal(a, U32);
    ParseDecimal(b, U32);
    DropEquals(Decimal(b));
    assert ShowDepth(Range(a, b), inclusive) == Decimal(a) + ".." + right;
    assert "" + Decimal(b) == Decimal(b);
  }

  lemma DropEquals(s: string)
    requires '=' !in s
    ensures TrimStartChar(s, '=') == s && TrimStartChar("=" + s, '=') == s
  {
    assert ("=" + s)[1..] == s;
    if s != [] { assert s[0] in s; }
  }

  lemma DotsNowhere(s: string)
    requires '.' !in s
    ensures Find(s, "..") == None && SplitSub(s, "..") == [s]
  {
    forall i: nat ensures !MatchesAt(s, "..", i) {
      if i + 2 <= |s| { assert s[i..i + 2][0] == s[i] && s[i] in s; }
    }
    FindNowhere(s, "..");
  }

  lemma DotsBetween(left: string, right: string)
    requires '.' !in left && '.' !in right
    ensures Contains(left + ".." + right, "..")
    ensures SplitSub(left + ".." + right, "..") == [left, right]
  {
    var s := left + ".." + right;
    forall i: nat | i < |left| ensures !MatchesAt(s, "..", i) {
      assert s[i] == left[i] && left[i] in left;
      if i + 2 <= |s| { assert s[i..i + 2][0] == s[i]; }
    }
    assert s[|left|..|left| + 2] == "..";
    FindAt(s, "..", |left|);
    assert s[..|left|] == left && s[|left| + 2..] == right;
    DotsNowhere(right);
    assert SplitSub(s, "..") == [left] + SplitSub(right, "..");
  }

  // ---------------------------------------------------------------- one step at a time

  lemma StripQuotes(s: string)
    requires Unquoted(s)
    ensures TrimEndChar(TrimStartChar(s, '"'), '"') == s
  {
  }

  /** A find step sets what it gives, and keeps what it does not. */
  lemma FindRoundTrip(p: Parser, nodeType: Option<string>, name: Option<NameSelector>)
    requires nodeType.Some? ==> PlainType(nodeType.value, name.Some?)
    requires name.Some? ==> PlainName(name.value) && Unquoted(ShowName(name.value))
    ensures ParseStep(p, JoinWords(FindWords(nodeType, name)))
         == p.(nodeType := if nodeType.Some? then nodeType else p.nodeType, name := if name.Some? then name else p.name)
  {
    var words := FindWords(nodeType, name);
    FindTokens(nodeType, name);
    StepMeans(p, words);
    hide ParseStep, JoinWords, Selector, TrimStartChar, TrimEndChar, Token;
    if name.Some? {
      SelectorOfName(name.value);
      StripQuotes(ShowName(name.value));
      NameValue(nodeType, ShowName(name.value));
      hide ShowName;
    }
    match nodeType
    case None => assert words[1..] == if name.Some? then ["name", ShowName(name.value)] else [];
    case Some(t) => assert words[1..] == [t] + if name.Some? then ["name", ShowName(name.value)] else [];
  }

  lemma FindTokens(nodeType: Option<string>, name: Option<NameSelector>)
    requires nodeType.Some? ==> Token(nodeType.value)
    requires name.Some? ==> PlainName(name.value)
    ensures Tokens(FindWords(nodeType, name))
  {
    assert Token("find") && Token("name");
  }

  lemma NameValue(nodeType: Option<string>, n: string)
    requires nodeType.Some? ==> !EndsWith(nodeType.value, "name")
    ensures var ws := (match nodeType case Some(t) => [t] case None => []) + ["name", n];
            ValueAfter(ws, "name") == Some(n)
  {
    assert EndsWith("name", "name");
    assert ValueAfter(["name", n], "name") == Some(n);
    if nodeType.Some? { assert ([nodeType.value] + ["name", n])[1..] == ["name", n]; }
  }

  lemma ConnectRoundTrip(p: Parser, c: Op, inclusive: bool)
    requires PlainConnect(c)
    ensures ParseStep(p, JoinWords(ConnectWords(c, inclusive)))
         == p.(edge := Some(c.edge), direction := c.direction, depth := c.depth)
  {
    ConnectPartRead(p, c.edge, Some(c.direction), Some(c.depth), inclusive);
    assert ConnectWords(c, inclusive) == ConnectPart(c.edge, Some(c.direction), Some(c.depth), inclusive);
  }

  /** A connect step that may leave out its direction, its depth or both. */
  function ConnectPart(edge: string, dir: Option<Direction>, depth: Option<Depth>, inclusive: bool): seq<string> {
    ["connect", edge]
    + (match dir case Some(d) => [ShowDirection(d)] case None => [])
    + (match depth case Some(d) => ["depth", ShowDepth(d, inclusive)] case None => [])
  }

  /** What the depth of such a step comes to. An edge ending in "depth" is itself taken for the
      keyword, and hides the depth that was written. */
  function DepthRead(before: Depth, edge: string, dir: Option<Direction>, depth: Option<Depth>): Depth {
    match depth
    case None => before
    case Some(d) => if !EndsWith(edge, "depth") then d else if dir.Some? then before else Single(1)
  }

  /** Exactly what a connect step sets: its edge always, its direction if it names one (an edge
      that is a direction word names one too), and its depth if it gives one. What it leaves out
      it keeps from the steps before. */
  lemma ConnectPartRead(p: Parser, edge: string, dir: Option<Direction>, depth: Option<Depth>, inclusive: bool)
    requires Token(edge) && (depth.Some? ==> PlainDepth(depth.value))
    ensures ParseStep(p, JoinWords(ConnectPart(edge, dir, depth, inclusive)))
         == p.(edge := Some(edge),
               direction := if dir.Some? then dir.value else Directed(p.direction, edge),
               depth := DepthRead(p.depth, edge, dir, depth))
  {
    var words := ConnectPart(edge, dir, depth, inclusive);
    ConnectPartTokens(edge, dir, depth, inclusive);
    StepMeans(p, words);
    hide ParseStep, JoinWords, DepthOf, Token;
    var ws := [edge]
      + (match dir case Some(d) => [ShowDirection(d)] case None => [])
      + (match depth case Some(d) => ["depth", ShowDepth(d, inclusive)] case None => []);
    assert words[1..] == ws;
    DirectionRead(p.direction, edge, dir, depth, inclusive);
    DepthReadFrom(p.depth, edge, dir, depth, inclusive);
  }

  lemma ConnectPartTokens(edge: string, dir: Option<Direction>, depth: Option<Depth>, inclusive: bool)
    requires Token(edge)
    ensures Tokens(ConnectPart(edge, dir, depth, inclusive))
  {
    assert Token("connect") && Token("depth");
    if dir.Some? { DirectionToken(dir.value); }
    if depth.Some? { DepthToken(depth.value, inclusive); }
    hide Token, ShowDepth, ShowDirection;
  }

  lemma DirectionToken(d: Direction)
    ensures Token(ShowDirection(d))
  {
  }

  lemma DepthIsNoDirection(d: Depth, inclusive: bool)
    ensures !IsDirection(ShowDepth(d, inclusive))
  {
    var n := if d.Single? then d.n else d.min;
    assert DigitValue(Decimal(n)[0], 10).Some?;
    assert ShowDepth(d, inclusive)[0] == Decimal(n)[0];
    assert DigitValue('i', 10) == None && DigitValue('o', 10) == None && DigitValue('b', 10) == None;
  }

  /** The direction word comes after the edge and before anything else that could be one. */
  lemma DirectionRead(d: Direction, edge: string, dir: Option<Direction>, depth: Option<Depth>, inclusive: bool)
    ensures var ws := [edge]
              + (match dir case Some(d) => [ShowDirection(d)] case None => [])
              + (match depth case Some(d) => ["depth", ShowDepth(d, inclusive)] case None => []);
            DirectedAll(d, ws) == if dir.Some? then dir.value else Directed(d, edge)
  {
    var tail := match depth case Some(x) => ["depth", ShowDepth(x, inclusive)] case None => [];
    NoDirection(if dir.Some? then dir.value else Directed(d, edge), depth, inclusive);
    match dir
    case None =>
      assert ([edge] + [] + tail)[1..] == tail;
    case Some(x) =>
      var ws := [edge] + [ShowDirection(x)] + tail;
      assert ws[1..] == [ShowDirection(x)] + tail;
      assert ws[1..][1..] == tail;
      assert DirectedAll(d, ws) == DirectedAll(Directed(d, edge), ws[1..]);
      assert Directed(Directed(d, edge), ShowDirection(x)) == x;
      assert DirectedAll(Directed(d, edge), ws[1..]) == DirectedAll(x, tail);
  }

  lemma NoDirection(d: Direction, depth: Option<Depth>, inclusive: bool)
    ensures DirectedAll(d, match depth case Some(x) => ["depth", ShowDepth(x, inclusive)] case None => []) == d
  {
    if depth.Some? {
      DepthIsNoDirection(depth.value, inclusive);
      var shown := ShowDepth(depth.value, inclusive);
      var ws := ["depth", shown];
      assert ws[1..] == [shown] && [shown][1..] == [];
      assert Directed(d, "depth") == d && Directed(d, shown) == d;
      assert DirectedAll(d, ws) == DirectedAll(Directed(d, "depth"), ws[1..]);
      assert DirectedAll(d, [shown]) == DirectedAll(Directed(d, shown), [shown][1..]);
    }
  }

  lemma DepthReadFrom(before: Depth, edge: string, dir: Option<Direction>, depth: Option<Depth>, inclusive: bool)
    requires depth.Some? ==> PlainDepth(depth.value)
    ensures var ws := [edge]
              + (match dir case Some(d) => [ShowDirection(d)] case None => [])
              + (match depth case Some(d) => ["depth", ShowDepth(d, inclusive)] case None => []);
            (match ValueAfter(ws, "depth")
             case None => before
             case Some(v) => DepthOf(before, if v == "" then "1" else v)) == DepthRead(before, edge, dir, depth)
  {
    hide DepthOf, ShowDepth;
    if depth.Some? {
      var shown := ShowDepth(depth.value, inclusive);
      DepthRoundTrip(depth.value, before, inclusive);
      DepthToken(depth.value, inclusive);
      assert ValueAfter(["depth", shown], "depth") == Some(shown) by { assert EndsWith("depth", "depth"); }
      DepthOfOne(before);
      if dir.None? {
        assert ([edge] + [] + ["depth", shown])[1..] == ["depth", shown];
        if EndsWith(edge, "depth") { assert EndsWith("depth", "depth") && "depth"[..0] == ""; }
      } else {
        var w := ShowDirection(dir.value);
        NotAKeyword(dir.value, before);
        var ws := [edge] + [w] + ["depth", shown];
        assert ws[1..] == [w] + ["depth", shown] && ws[1..][1..] == ["depth", shown];
        assert ws[1] == w;
      }
    } else if dir.Some? {
      var w := ShowDirection(dir.value);
      NotAKeyword(dir.value, before);
      assert [edge] + [w] + [] == [edge, w] && [edge, w][1..] == [w];
    } else {
      assert [edge] + [] + [] == [edge];
    }
  }

  /** A direction word neither ends in "depth" nor reads as a depth. */
  lemma NotAKeyword(d: Direction, before: Depth)
    ensures !EndsWith(ShowDirection(d), "depth") && ShowDirection(d) != ""
    ensures DepthOf(before, ShowDirection(d)) == before
  {
    var w := ShowDirection(d);
    assert w[|w| - 1] != '.' && forall c <- w :: c != '.';
    DotsNowhere(w);
    assert DigitValue(w[0], 10) == None && w[0] != '+';
    NotANumber(w);
    hide Find, ParseUnsigned, SplitSub, DigitValue;
  }

  lemma NotANumber(w: string)
    requires w != [] && DigitValue(w[0], 10) == None && w[0] != '+'
    ensures ParseUnsigned(w, U32) == None
  {
    hide Value, DigitValue;
  }

  lemma DepthOfOne(before: Depth)
    ensures DepthOf(before, "1") == Single(1)
  {
    DotsNowhere("1");
    assert DigitValue('1', 10) == Some(1);
    hide Find, SplitSub;
  }

  lemma StepRoundTrip(p: Parser, op: Op)
    requires PlainStep(op)
    ensures ParseStep(p, JoinWords(StepWords(op))) == p.(extra := p.extra + [op])
  {
    if op.SemanticOp? { SemanticRoundTrip(p, op.text); } else { WordStepRoundTrip(p, op); }
  }

  /** A semantic filter is read back with its text, spaces and all. */
  lemma SemanticRoundTrip(p: Parser, t: string)
    requires Part(t) && "like" <= t
    ensures ParseStep(p, JoinWords(["semantic_filter", t])) == p.(extra := p.extra + [SemanticOp(t)])
  {
    var part := "semantic_filter" + " " + t;
    assert ["semantic_filter", t][1..] == [t];
    assert part[16..] == t && "semantic_filter " <= part && part[0] == 's' && part[1] == 'e';
    assert "sort "[1] == 'o';
    TrimIdentity(t);
    hide Trim, FindStep, ConnectStep, FilterStep, SortStep, GroupStep;
  }

  lemma SemanticAccepted(t: string)
    requires Part(t)
    ensures Accepted(JoinWords(["semantic_filter", t]))
  {
    var part := "semantic_filter" + " " + t;
    assert ["semantic_filter", t][1..] == [t];
    assert JoinWords(["semantic_filter", t]) == part;
    SemanticPart(t);
    SemanticWords(t);
    hide JoinWords, Words, Part;
  }

  lemma SemanticPart(t: string)
    requires Part(t)
    ensures Part("semantic_filter" + " " + t)
  {
    var part := "semantic_filter" + " " + t;
    assert part[0] == 's' && part[|part| - 1] == t[|t| - 1];
    assert forall c <- "semantic_filter" :: c != '|';
  }

  lemma SemanticWords(t: string)
    ensures PartOk("semantic_filter" + " " + t)
  {
    assert "semantic_filter" + " " + t == "semantic_filter" + (" " + t);
    WordsStep("semantic_filter", " " + t);
    assert STEPS[3] == "semantic_filter";
    assert "semantic_filter"[0] != "find"[0] && "semantic_filter"[0] != "connect"[0];
    hide Words;
  }

  lemma WordStepRoundTrip(p: Parser, op: Op)
    requires PlainStep(op) && !op.SemanticOp?
    ensures ParseStep(p, JoinWords(StepWords(op))) == p.(extra := p.extra + [op])
  {
    var words := StepWords(op);
    StepTokens(op);
    StepKeyword(op);
    StepMeans(p, words);
    hide ParseStep, JoinWords, Tokens, Contains, Selector, AnyContains, StepWords, FindMeaning, ConnectMeaning,
         FilterMeant, FieldMeant, ShowField, PlainStep;
    match op
    case FilterOp(_, _, _) => FilterRead(op);
    case SortOp(f, d) => SortFlag(f, d);
    case GroupOp(f) => GroupRead(f);
    case _ => assert false;
  }

  lemma StepKeyword(op: Op)
    requires PlainStep(op) && !op.SemanticOp?
    ensures op.FilterOp? || op.SortOp? || op.GroupOp?
    ensures |StepWords(op)| > 1 && StepWords(op)[0] in PLAIN_STEPS
    ensures StepWords(op)[0] == if op.FilterOp? then "filter" else if op.SortOp? then "sort" else "group"
  {
    assert "filter" == PLAIN_STEPS[2] && "sort" == PLAIN_STEPS[3] && "group" == PLAIN_STEPS[4];
  }

  lemma FilterRead(op: Op)
    requires PlainStep(op) && op.FilterOp?
    ensures FilterMeant(StepWords(op)[1..]) == op
  {
    match op
    case FilterOp(Some(l), _, _) => assert StepWords(op)[1..] == ["label", l];
    case FilterOp(None, Some(t), _) => assert StepWords(op)[1..] == ["type", t];
    case FilterOp(None, None, Some(n)) =>
      SelectorOfName(n);
      hide Selector;
      assert StepWords(op)[1..] == ["name", ShowName(n)];
  }

  lemma GroupRead(f: SortField)
    ensures FieldMeant(StepWords(GroupOp(f))[1..][0], ByType) == f
  {
  }

  lemma SortFlag(f: SortField, d: bool)
    ensures var ws := StepWords(SortOp(f, d))[1..];
            FieldMeant(ws[0], ByName) == f && (AnyContains(ws, "desc") <==> d)
  {
    var ws := StepWords(SortOp(f, d))[1..];
    assert ws == [ShowField(f)] + if d then ["desc"] else [];
    FieldHasNoDesc(f);
    assert Contains("desc", "desc") by { assert "desc"[..4] == "desc"; }
    hide Contains;
    if d { assert ws[1] == "desc"; }
  }

  lemma FieldHasNoDesc(f: SortField)
    ensures !Contains(ShowField(f), "desc")
  {
    var w := ShowField(f);
    forall i: nat ensures !MatchesAt(w, "desc", i) {
      if i + 4 <= |w| { assert w[i..i + 4][0] == w[i] && "desc"[0] == 'd'; }
    }
    FindNowhere(w, "desc");
  }

  lemma LimitRoundTrip(p: Parser, n: nat)
    requires n < USIZE
    ensures ParseStep(p, JoinWords(["limit", Decimal(n)])) == p.(limit := n)
  {
    DecimalToken(n);
    assert Token("limit");
    StepMeans(p, ["limit", Decimal(n)]);
    ParseDecimal(n, USIZE);
    hide ParseStep, JoinWords, Decimal, ParseUnsigned;
    assert ["limit", Decimal(n)][1..] == [Decimal(n)];
  }

  // ---------------------------------------------------------------- the whole query

  lemma {:induction false} StepsRoundTrip(p: Parser, steps: seq<Op>, last: seq<string>)
    requires forall i | 0 <= i < |steps| :: PlainStep(steps[i])
    ensures ParseSteps(p, StepParts(steps) + last) == ParseSteps(p.(extra := p.extra + steps), last)
    decreases |steps|
  {
    hide ParseStep, StepWords, JoinWords, PlainStep;
    var parts := StepParts(steps) + last;
    if steps == [] {
      assert parts == last && p.extra + steps == p.extra;
    } else {
      StepRoundTrip(p, steps[0]);
      assert parts[0] == JoinWords(StepWords(steps[0]));
      assert parts[1..] == StepParts(steps[1..]) + last;
      StepsRoundTrip(p.(extra := p.extra + [steps[0]]), steps[1..], last);
      assert p.extra + [steps[0]] + steps[1..] == p.extra + steps;
    }
  }

  /** A connect step from the start sets what it gives and leaves the defaults. */
  lemma ConnectFromStart(p: Parser, connect: Option<Connection>, inclusive: bool, last: seq<string>)
    requires connect.Some? ==> PlainConnection(connect.value)
    requires p.direction.Outgoing? && p.depth == Single(1)
    ensures ParseSteps(p, ConnectParts(connect, inclusive) + last)
         == ParseSteps(match connect
                       case None => p
                       case Some(c) => p.(edge := Some(c.edge),
                                          direction := match c.direction case Some(d) => d case None => Outgoing,
                                          depth := match c.depth case Some(d) => d case None => Single(1)), last)
  {
    hide ParseStep, JoinWords, Token, ConnectPart;
    var parts := ConnectParts(connect, inclusive) + last;
    match connect
    case None => assert parts == last;
    case Some(c) =>
      ConnectPartRead(p, c.edge, c.direction, c.depth, inclusive);
      assert parts[1..] == last;
  }

  /** So does a limit. */
  lemma LimitFromStart(p: Parser, limit: Option<nat>)
    requires limit.Some? ==> limit.value < USIZE
    requires p.limit == 100
    ensures ParseSteps(p, LimitParts(limit)) == p.(limit := match limit case Some(n) => n case None => 100)
  {
    hide ParseStep, JoinWords, Decimal;
    match limit
    case None =>
    case Some(n) =>
      LimitRoundTrip(p, n);
      assert [JoinWords(["limit", Decimal(n)])][1..] == [];
  }

  lemma PartsParse(q: Pipe, inclusive: bool)
    requires Plain(q)
    ensures Finish(ParseSteps(START, Parts(q, inclusive))) == OpsOf(q)
  {
    hide ParseStep, JoinWords, FindWords, StepWords, PlainStep, PlainName, PlainType, PlainConnection, Decimal,
         ConnectParts, LimitParts;
    var find, limit := JoinWords(FindWords(q.nodeType, q.name)), LimitParts(q.limit);
    var steps := StepParts(q.steps) + limit;
    assert Parts(q, inclusive) == [find] + (ConnectParts(q.connect, inclusive) + steps);
    assert ([find] + (ConnectParts(q.connect, inclusive) + steps))[1..] == ConnectParts(q.connect, inclusive) + steps;
    FindRoundTrip(START, q.nodeType, q.name);
    var p := START.(nodeType := q.nodeType, name := q.name);
    ConnectFromStart(p, q.connect, inclusive, steps);
    var p' := match q.connect
      case None => p
      case Some(c) => p.(edge := Some(c.edge),
                         direction := match c.direction case Some(d) => d case None => Outgoing,
                         depth := match c.depth case Some(d) => d case None => Single(1));
    StepsRoundTrip(p', q.steps, limit);
    assert p'.extra + q.steps == q.steps;
    LimitFromStart(p'.(extra := q.steps), q.limit);
  }

  /** Every part is accepted by the word check and splits off cleanly. */
  predicate Accepted(part: string) {
    Part(part) && PartOk(part)
  }

  lemma JoinedAccepted(ws: seq<string>)
    requires Tokens(ws) && ws != [] && ws[0] in STEPS
    requires ws[0] == "find" ==> FindWordsOk(ws, if |ws| > 1 && ws[1] != "name" && ws[1] != "limit" then 2 else 1)
    requires ws[0] == "connect" ==> ConnectWordsOk(ws, 2)
    ensures Accepted(JoinWords(ws))
  {
    JoinEnds(ws);
    WordsOfJoin(ws);
  }

  lemma FindAccepted(nodeType: Option<string>, name: Option<NameSelector>)
    requires nodeType.Some? ==> PlainType(nodeType.value, name.Some?)
    requires name.Some? ==> PlainName(name.value)
    ensures Accepted(JoinWords(FindWords(nodeType, name)))
  {
    assert "find" == STEPS[0];
    JoinedAccepted(FindWords(nodeType, name));
  }

  lemma ConnectAccepted(c: Op, inclusive: bool)
    requires c.ConnectOp? && Token(c.edge)
    ensures Accepted(JoinWords(ConnectWords(c, inclusive)))
  {
    ConnectionAccepted(Connection(c.edge, Some(c.direction), Some(c.depth)), inclusive);
    assert ConnectWords(c, inclusive) == ConnectPart(c.edge, Some(c.direction), Some(c.depth), inclusive);
  }

  lemma ConnectionAccepted(c: Connection, inclusive: bool)
    requires Token(c.edge)
    ensures Accepted(JoinWords(ConnectPart(c.edge, c.direction, c.depth, inclusive)))
  {
    var ws := ConnectPart(c.edge, c.direction, c.depth, inclusive);
    ConnectPartTokens(c.edge, c.direction, c.depth, inclusive);
    if c.direction.Some? { assert IsDirection(ShowDirection(c.direction.value)); }
    assert !IsDirection("depth");
    hide Accepted, JoinWords, Token, ShowDepth, ShowDirection, IsDirection;
    assert "connect" == STEPS[1];
    var n := if c.direction.Some? then 3 else 2;
    assert ConnectWordsOk(ws, |ws|);
    if c.depth.Some? { assert ws[n] == "depth" && n + 2 == |ws|; }
    assert ConnectWordsOk(ws, n);
    JoinedAccepted(ws);
  }

  lemma StepAccepted(op: Op)
    requires PlainStep(op)
    ensures Accepted(JoinWords(StepWords(op)))
  {
    if op.SemanticOp? {
      SemanticAccepted(op.text);
      return;
    }
    hide Accepted, JoinWords;
    assert "filter" == STEPS[2] && "sort" == STEPS[4] && "group" == STEPS[5];
    var ws := StepWords(op);
    assert ws[0] == "filter" || ws[0] == "sort" || ws[0] == "group";
    StepTokens(op);
    JoinedAccepted(ws);
  }

  lemma StepTokens(op: Op)
    requires PlainStep(op) && !op.SemanticOp?
    ensures Tokens(StepWords(op))
  {
    KeywordTokens();
    hide Token;
    match op
    case FilterOp(Some(l), _, _) => TokensThree("filter", "label", l);
    case FilterOp(None, Some(t), _) => TokensThree("filter", "type", t);
    case FilterOp(None, None, Some(n)) => TokensThree("filter", "name", ShowName(n));
    case _ =>
  }

  lemma KeywordTokens()
    ensures Token("filter") && Token("sort") && Token("group") && Token("desc")
    ensures Token("label") && Token("type") && Token("name")
  {
  }

  lemma TokensThree(a: string, b: string, c: string)
    requires Token(a) && Token(b) && Token(c)
    ensures Tokens([a, b, c])
  {
  }

  lemma LimitAccepted(n: nat)
    ensures Accepted(JoinWords(["limit", Decimal(n)]))
  {
    DecimalToken(n);
    assert "limit" == STEPS[6];
    JoinedAccepted(["limit", Decimal(n)]);
  }

  lemma AllAccepted(q: Pipe, inclusive: bool)
    requires Plain(q)
    ensures forall i | 0 <= i < |Parts(q, inclusive)| :: Accepted(Parts(q, inclusive)[i])
  {
    hide Accepted, JoinWords, StepWords, FindWords, ConnectPart, PlainStep, PlainName, PlainType;
    FindAccepted(q.nodeType, q.name);
    if q.connect.Some? { ConnectionAccepted(q.connect.value, inclusive); }
    forall i | 0 <= i < |q.steps| ensures Accepted(StepParts(q.steps)[i]) { StepAccepted(q.steps[i]); }
    if q.limit.Some? { LimitAccepted(q.limit.value); }
  }

  lemma {:induction false} NoneBad(parts: seq<string>)
    requires forall i | 0 <= i < |parts| :: Accepted(parts[i])
    ensures FirstBad(parts) == None
  {
    if parts != [] { NoneBad(parts[1..]); }
  }

  /** The round trip: every plain query, written as pipe text with either form of a depth range,
      passes the word check and parses back to exactly itself. */
  lemma PipeRoundTrip(q: Pipe, inclusive: bool)
    requires Plain(q)
    ensures ParseQuery(Render(q, inclusive)) == Parsed(OpsOf(q))
  {
    hide Parts, PartOk, Pieces, Trim, JoinPipes, Finish, FirstBad, ParseSteps, Plain;
    var parts := Parts(q, inclusive);
    var text := Render(q, inclusive);
    PartsStart(q, inclusive);
    AllAccepted(q, inclusive);
    PiecesOfJoin(parts);
    JoinPipesEnds(parts);
    TrimIdentity(text);
    NoneBad(parts);
    PartsParse(q, inclusive);
  }

  lemma PartsStart(q: Pipe, inclusive: bool)
    requires Plain(q)
    ensures var parts := Parts(q, inclusive); parts != [] && parts[0] != [] && parts[0][0] == 'f'
  {
    StartsWithFind(q.nodeType, q.name);
  }

  lemma StartsWithFind(nodeType: Option<string>, name: Option<NameSelector>)
    requires nodeType.Some? ==> Token(nodeType.value)
    requires name.Some? ==> Token(ShowName(name.value))
    ensures var s := JoinWords(FindWords(nodeType, name)); s != [] && s[0] == 'f'
  {
    JoinEnds(FindWords(nodeType, name));
    assert FindWords(nodeType, name)[0] == "find";
  }

  // ---------------------------------------------------------------- the conditions are exact

  /** The condition on node types excludes nothing that would have survived: a find step with a
      type of one word passes the check and is parsed back exactly when the type is plain. */
  lemma TypeConditionExact(t: string, name: Option<NameSelector>)
    requires Token(t)
    requires name.Some? ==> PlainName(name.value) && Unquoted(ShowName(name.value))
    ensures var part := JoinWords(FindWords(Some(t), name));
            (PartOk(part) && ParseStep(START, part) == START.(nodeType := Some(t), name := name))
            <==> PlainType(t, name.Some?)
  {
    var ws := FindWords(Some(t), name);
    if PlainType(t, name.Some?) {
      FindAccepted(Some(t), name);
      FindRoundTrip(START, Some(t), name);
    } else if "limit" <= t {
      LimitHidesType(t, name);
    } else if t == "name" && name.None? {
      WordsOfJoin(ws);
    } else {
      NameHidesType(t, name.value);
    }
  }

  lemma LimitHidesType(t: string, name: Option<NameSelector>)
    requires Token(t) && "limit" <= t
    requires name.Some? ==> PlainName(name.value)
    ensures ParseStep(START, JoinWords(FindWords(Some(t), name))).nodeType == None
  {
    FindTokens(Some(t), name);
    StepMeans(START, FindWords(Some(t), name));
    hide ParseStep, JoinWords, Token, NameMeant;
    assert FindWords(Some(t), name)[1] == t;
  }

  /** A type that ends in "name" makes the parser take the text after it for the name. */
  lemma NameHidesType(t: string, n: NameSelector)
    requires Token(t) && EndsWith(t, "name") && PlainName(n)
    ensures ParseStep(START, JoinWords(FindWords(Some(t), Some(n)))).name == Some(Exact(""))
  {
    FindTokens(Some(t), Some(n));
    StepMeans(START, FindWords(Some(t), Some(n)));
    hide ParseStep, JoinWords, Token;
    assert FindWords(Some(t), Some(n))[1..] == [t, "name", ShowName(n)];
    assert EndsWith("name", "name") && "name"[..0] == "";
    EmptyText();
    hide Selector, TrimStartChar, TrimEndChar, ShowName;
  }

  lemma EmptyText()
    ensures Selector(TrimEndChar(TrimStartChar("", '"'), '"')) == Exact("")
  {
  }

  /** The condition on edges is as exact: a full connect step is read back exactly when its edge
      does not end in "depth", or the depth it hides is the one already there. */
  lemma EdgeConditionExact(p: Parser, c: Op, inclusive: bool)
    requires c.ConnectOp? && Token(c.edge) && PlainDepth(c.depth)
    ensures var part := JoinWords(ConnectWords(c, inclusive));
            (PartOk(part) && ParseStep(p, part)
                             == p.(edge := Some(c.edge), direction := c.direction, depth := c.depth))
            <==> !EndsWith(c.edge, "depth") || p.depth == c.depth
  {
    ConnectPartRead(p, c.edge, Some(c.direction), Some(c.depth), inclusive);
    assert ConnectWords(c, inclusive) == ConnectPart(c.edge, Some(c.direction), Some(c.depth), inclusive);
    ConnectAccepted(c, inclusive);
    hide ParseStep, JoinWords;
  }
}
