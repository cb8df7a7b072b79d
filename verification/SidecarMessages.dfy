/** Requests, responses and the conversions on both sides of the wire (src/sidecar_proto.rs,
    the `dispatch` of src/bin/lain-git-sidecar.rs and the `parse` closures of src/sidecar.rs). */
module SidecarMessages {
  import opened Outcomes
  import opened LainErrors

  const PROTOCOL_VERSION: nat := 2

  datatype Request =
    | Handshake(version: nat)
    | GetLatestCommitInfo
    | GetChangedFilesSince(sinceHash: string)
    | GetAllTrackedFiles
    | AnalyzeCoChanges(window: nat, minPair: nat, maxFiles: nat)
    | GetUncommittedChanges
    | IsIgnored(path: string)
    | GetFileDiff(path: string)
    | GetCurrentBranch
    | GetCommitHistory(count: nat)
    | GetRepoIdentity
    | GetNewCommitsSince(sinceHash: string)
    | Shutdown

  datatype Response =
    | HandshakeAck(version: nat, build: string)
    | HandshakeNack(expected: nat, received: nat, reason: string)
    | LatestCommitInfo(commit: string, timestamp: int)
    | ChangedFiles(files: seq<string>)
    | TrackedFiles(files: seq<string>)
    | CoChanges(pairs: seq<CoChangePair>)
    | UncommittedChanges(changes: seq<FileChange>)
    | Ignored(ignored: bool)
    | FileDiff(diff: string)
    | CurrentBranch(branch: string)
    | CommitHistory(commits: seq<WireCommit>)
    | Identity(id: Option<RepoIdentity>)
    | Done
    | Error(message: string)

  datatype CoChangePair = CoChangePair(file1: string, file2: string, count: nat)
  datatype ChangeType = Added | Modified | Deleted
  datatype FileChange = FileChange(path: string, change: ChangeType, staged: bool)
  datatype RepoIdentity = RepoIdentity(owner: string, name: string)

  /** A commit as git reports it, and as it travels: the wire form has no author. */
  datatype Commit = Commit(id: string, message: string, files: seq<string>, time: int, author: string)
  datatype WireCommit = WireCommit(id: string, message: string, files: seq<string>, time: int)

  /** What libgit2 would answer about the repository at one moment. */
  datatype Repository = Repository(
    latest: Result<(string, int), LainError>,
    changedSince: string -> Result<seq<string>, LainError>,
    tracked: Result<seq<string>, LainError>,
    coChanges: (nat, nat, nat) -> Result<seq<CoChangePair>, LainError>,
    uncommitted: Result<seq<FileChange>, LainError>,
    ignored: string -> Result<bool, LainError>,
    diff: string -> Result<string, LainError>,
    branch: Result<string, LainError>,
    history: nat -> Result<seq<Commit>, LainError>,
    identity: Result<Option<RepoIdentity>, LainError>,
    newSince: string -> Result<seq<Commit>, LainError>)

  /** The version and build a sidecar binary was compiled with. */
  datatype Binary = Binary(version: nat, build: string)

  function ToWire(c: Commit): WireCommit {
    WireCommit(c.id, c.message, c.files, c.time)
  }

  function FromWire(c: WireCommit): Commit {
    Commit(c.id, c.message, c.files, c.time, "")
  }

  function CommitsToWire(cs: seq<Commit>): seq<WireCommit> {
    seq(|cs|, i requires 0 <= i < |cs| => ToWire(cs[i]))
  }

  function CommitsFromWire(cs: seq<WireCommit>): seq<Commit> {
    seq(|cs|, i requires 0 <= i < |cs| => FromWire(cs[i]))
  }

  /** The sidecar's answer to one request. An error travels as its displayed text. */
  function Dispatch(req: Request, binary: Binary, repo: Repository): Response {
    match req
    case Handshake(v) =>
      if v == binary.version then HandshakeAck(binary.version, binary.build)
      else HandshakeNack(binary.version, v, "protocol version mismatch")
    case GetLatestCommitInfo =>
      (match repo.latest case Success(c) => LatestCommitInfo(c.0, c.1) case Failure(e) => Error(Display(e)))
    case GetChangedFilesSince(h) =>
      (match repo.changedSince(h) case Success(fs) => ChangedFiles(fs) case Failure(e) => Error(Display(e)))
    case GetAllTrackedFiles =>
      (match repo.tracked case Success(fs) => TrackedFiles(fs) case Failure(e) => Error(Display(e)))
    case AnalyzeCoChanges(w, p, f) =>
      (match repo.coChanges(w, p, f) case Success(ps) => CoChanges(ps) case Failure(e) => Error(Display(e)))
    case GetUncommittedChanges =>
      (match repo.uncommitted case Success(cs) => UncommittedChanges(cs) case Failure(e) => Error(Display(e)))
    case IsIgnored(p) =>
      (match repo.ignored(p) case Success(b) => Ignored(b) case Failure(e) => Error(Display(e)))
    case GetFileDiff(p) =>
      (match repo.diff(p) case Success(d) => FileDiff(d) case Failure(e) => Error(Display(e)))
    case GetCurrentBranch =>
      (match repo.branch case Success(b) => CurrentBranch(b) case Failure(e) => Error(Display(e)))
    case GetCommitHistory(n) =>
      (match repo.history(n) case Success(cs) => CommitHistory(CommitsToWire(cs)) case Failure(e) => Error(Display(e)))
    case GetRepoIdentity =>
      (match repo.identity case Success(id) => Identity(id) case Failure(e) => Error(Display(e)))
    case GetNewCommitsSince(h) =>
      (match repo.newSince(h) case Success(cs) => CommitHistory(CommitsToWire(cs)) case Failure(e) => Error(Display(e)))
    case Shutdown => Done
  }

  /** What a caller of the git sensor gets back. */
  datatype Answer =
    | Head(commit: string, timestamp: int)
    | Paths(paths: seq<string>)
    | Pairs(pairs: seq<CoChangePair>)
    | Changes(changes: seq<FileChange>)
    | Verdict(yes: bool)
    | Text(text: string)
    | Commits(commits: seq<Commit>)
    | Origin(id: Option<RepoIdentity>)

  /** The requests the sensor's public methods send. */
  predicate Operational(req: Request) {
    !req.Handshake? && !req.Shutdown?
  }

  /** The `parse` closure each public method passes along with its request. Every response of
      another kind is an error. */
  function Interpret(req: Request, resp: Response): Result<Answer, LainError> {
    match (req, resp)
    case (_, Error(m)) => Failure(Git(m))
    case (GetLatestCommitInfo, LatestCommitInfo(c, t)) => Success(Head(c, t))
    case (GetChangedFilesSince(_), ChangedFiles(fs)) => Success(Paths(fs))
    case (GetAllTrackedFiles, TrackedFiles(fs)) => Success(Paths(fs))
    case (AnalyzeCoChanges(_, _, _), CoChanges(ps)) => Success(Pairs(ps))
    case (GetUncommittedChanges, UncommittedChanges(cs)) => Success(Changes(cs))
    case (IsIgnored(_), Ignored(b)) => Success(Verdict(b))
    case (GetFileDiff(_), FileDiff(d)) => Success(Text(d))
    case (GetCurrentBranch, CurrentBranch(b)) => Success(Text(b))
    case (GetCommitHistory(_), CommitHistory(cs)) => Success(Commits(CommitsFromWire(cs)))
    case (GetRepoIdentity, Identity(id)) => Success(Origin(id))
    case (GetNewCommitsSince(_), CommitHistory(cs)) => Success(Commits(CommitsFromWire(cs)))
    case _ => Failure(Git("unexpected response"))
  }

  /** What the in-process sensor would have returned for the same request. */
  function InProcess(req: Request, repo: Repository): Result<Answer, LainError>
    requires Operational(req)
  {
    match req
    case GetLatestCommitInfo => Lift(repo.latest, (c: (string, int)) => Head(c.0, c.1))
    case GetChangedFilesSince(h) => Lift(repo.changedSince(h), fs => Paths(fs))
    case GetAllTrackedFiles => Lift(repo.tracked, fs => Paths(fs))
    case AnalyzeCoChanges(w, p, f) => Lift(repo.coChanges(w, p, f), ps => Pairs(ps))
    case GetUncommittedChanges => Lift(repo.uncommitted, cs => Changes(cs))
    case IsIgnored(p) => Lift(repo.ignored(p), b => Verdict(b))
    case GetFileDiff(p) => Lift(repo.diff(p), d => Text(d))
    case GetCurrentBranch => Lift(repo.branch, b => Text(b))
    case GetCommitHistory(n) => Lift(repo.history(n), cs => Commits(cs))
    case GetRepoIdentity => Lift(repo.identity, id => Origin(id))
    case GetNewCommitsSince(h) => Lift(repo.newSince(h), cs => Commits(cs))
  }

  function Lift<T>(r: Result<T, LainError>, f: T -> Answer): Result<Answer, LainError> {
    match r case Success(v) => Success(f(v)) case Failure(e) => Failure(e)
  }

  /** What the wire loses of an answer. */
  function WithoutAuthors(a: Answer): Answer {
    match a
    case Commits(cs) => Commits(seq(|cs|, i requires 0 <= i < |cs| => cs[i].(author := "")))
    case _ => a
  }

  /** An in-process result as it comes back through the sidecar: commits without authors, and
      errors as git errors about their displayed text. */
  function Relayed(r: Result<Answer, LainError>): Result<Answer, LainError> {
    match r
    case Success(a) => Success(WithoutAuthors(a))
    case Failure(e) => Failure(Wrapped(e))
  }

  /** Asking through the sidecar succeeds exactly when the in-process sensor would, with its
      answer but for commit authors, and fails exactly when it would, with its error displayed
      and wrapped. */
  lemma RemoteIsInProcess(req: Request, binary: Binary, repo: Repository)
    requires Operational(req)
    ensures Interpret(req, Dispatch(req, binary, repo)) == Relayed(InProcess(req, repo))
  {
    hide Display;
    match req
    case GetCommitHistory(n) => WireCommits(repo.history(n));
    case GetNewCommitsSince(h) => WireCommits(repo.newSince(h));
    case _ =>
  }

  lemma WireCommits(r: Result<seq<Commit>, LainError>)
    ensures r.Success? ==>
              (CommitsFromWire(CommitsToWire(r.value))
               == seq(|r.value|, i requires 0 <= i < |r.value| => r.value[i].(author := "")))
  {
  }

  /** No commit in the answer names its author. */
  predicate Anonymous(a: Answer) {
    a.Commits? ==> forall c <- a.commits :: c.author == ""
  }

  /** The two sensors are told apart by every error and by every commit author, and by nothing
      else. */
  lemma SameResultIff(req: Request, binary: Binary, repo: Repository)
    requires Operational(req)
    ensures Interpret(req, Dispatch(req, binary, repo)) == InProcess(req, repo)
       <==> InProcess(req, repo).Success? && Anonymous(InProcess(req, repo).value)
  {
    RemoteIsInProcess(req, binary, repo);
    match InProcess(req, repo)
    case Failure(e) => NoErrorSurvives(e);
    case Success(a) =>
      if a.Commits? {
        var there, back := a.commits, WithoutAuthors(a).commits;
        if back == there {
          forall c | c in there ensures c.author == "" {
            var i :| 0 <= i < |there| && there[i] == c;
            assert back[i].author == "";
          }
        }
      }
  }

  /** The git error "x" comes back as the git error "Git error: x". */
  lemma WrappedTwiceExample(repo: Repository, binary: Binary)
    requires repo.branch == Failure(Git("x"))
    ensures InProcess(GetCurrentBranch, repo) == Failure(Git("x"))
    ensures Interpret(GetCurrentBranch, Dispatch(GetCurrentBranch, binary, repo)) == Failure(Git("Git error: x"))
    ensures Display(Git("Git error: x")) == "Git error: Git error: x"
  {
    assert "Git error: " + "x" == "Git error: x";
    assert "Git error: " + "Git error: x" == "Git error: Git error: x";
  }
}
