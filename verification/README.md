# Verified models of lain's protocols

lain is a code-graph server for agents. Around its graph stand several small protocols between
processes, threads and files whose promises hold, or fail, over whole runs and not in one
function body. This project states those promises and proves them for every run.

- **The git sidecar** (`LainErrors`, `SidecarMessages`, `SidecarProto`, `SidecarServer`, `SidecarWorld`,
  `RespawnBudget`, `Sidecar`). lain keeps libgit2 in a child process. `SidecarWorld` is the
  environment: clock, processes, sockets, and a server that serves, dies, replies late or never.
  `Sidecar` is the supervisor as a class whose methods are the code's own sequence of system
  calls; before each call the environment takes any number of steps, none of which the supervisor
  chooses. Requests carry a ghost tag saying which attempt of which call wrote them. The main
  result is that an answer is what the in-process sensor would have said, relayed, at a moment of
  that very call, and that its reply was dispatched for the attempt that read it and not for the
  one given up, whatever timed out, died or was respawned before. With it come the respawn budget,
  the conservation of children and socket files, and the at-most-two dispatches of a call. The
  connections of the environment are runs of the server's handler, so its gate and its reply order
  hold there too.
- **The rebuild flag** (`DirtyFlag`): any number of writers, a rebuilder that reads the input
  cells one by one and may fail, and the flag's load and store as separate steps.
- **The shared daemon** (`Discovery`, `SharedDaemon`): the optimal choice among the daemons that
  answer, and what a client can count on after attaching, growing or starting one, while other
  clients do the same and daemons exit.
- **Publication** (`AtomicWrite`, `Installer`, `Names`, `Numerals`): concurrent writers of one
  file with crashes, concurrent installers of one release with crashes, and why generated names
  never collide.
- **Algorithms** (`Query`, `QueryWords`, `QueryRoundTrip`, `QueryRules`, `Text`, `RepoIds`, `Refresh`, `Oneshot`,
  `Scoring`):
  the pipe query parser, repository ids, the fetch cadence, the one-shot call loop and the oracle
  scorer.

Wherever the code changes state step by step, the model is a class or a loop proved against a step
relation or a function, and the theorems are about that relation or function. Ghost logs (`history`,
`log`, `deliveries`, `trials`, `seen`, `dialled`, `asked`, `handed`, `noticed`, `spawned`, `attempts`, `atSend`,
`pauses`, `inbox`, `events`) make "in every run", "exactly once" and "only because" statable; nothing the code
does depends on them. An `agenda` lists what the
rest of the world will try to do; nothing is assumed about it. `Outcomes` and `Instants` hold the
optional values and the units of time they share.

## Where the code and its comments differ

- `attach_or_start` is meant to hand out only connections to a daemon that covers the client. That
  holds for the daemon that answered discovery and for the client's own socket. It fails for a
  socket keyed by another set if its daemon, grown to cover the client, exits and is started again
  for its original set before the client connects (`SharedDaemon.CoverageLost`). A socket is safe
  against this exactly when the set it is keyed by contains the client's
  (`SharedDaemon.SafeSocketIff`).
- A sensor behind the sidecar is told apart from the one in the process by every error and by
  every commit author (`SidecarMessages.SameResultIff`). An error travels as its displayed text and
  comes back wrapped as a git error, so the git error "x" is "Git error: x" afterwards, and is
  displayed as "Git error: Git error: x" (`SidecarMessages.WrappedTwiceExample`). No error survives
  the trip, as a value or as displayed (`LainErrors.NoErrorSurvives`).
- The word check of the pipe syntax is meant to reject words the parser would skip. It looks only
  at find and connect steps, and accepts `limit 5 banana`, `sort name sideways`,
  `group type nonsense` and `find Function limit 5`, of which the parser drops words
  (`QueryRules.UnusedWords`). It splits at any white space where the parser wants a plain space, so a
  tab after a keyword makes the parser drop an accepted step (`QueryRules.OnlyASpaceSeparates`,
  `QueryRules.TabExample`). Which further words of a step decide nothing is stated exactly, step
  by step, in `QueryRules`. A name followed by anything loses a trailing "name"
  (`QueryRules.FindNameReads`), and an edge ending in "depth" hides the depth
  (`QueryRoundTrip.EdgeConditionExact`).
- The pipe parser drops a node type that begins with "limit", rejects the type "name", and takes
  the text after a type ending in "name" for the name. `QueryRoundTrip.TypeConditionExact` shows
  that these are the only one-word types that do not survive.
- Repository ids are "uniquely suffixed" only if no workspace is itself named like a suffixed
  repeat of another (`RepoIds.DistinctIffNoNameTaken`, `RepoIds.ClashExample`).
- The one-shot loop over the socket takes a notification for the answer; it agrees with the stdio
  loop exactly when no notification comes first (`Oneshot.SocketAgreesIff`).
- The refresh loop prunes by one listing and walks a second one, so after a tick the map may also
  hold ids that appeared in between. It holds only live ids exactly if no fetchable repository did
  (`Refresh.MapHoldsOnlyLive`, `Refresh.NewcomerRemembered`).
- In the oracle score an entry can be counted right in `recall_by_class` and contradicted in its
  status, because negated hits count there (`Scoring.BucketBalances`,
  `Scoring.ContradictedExample`). Entries that share a key count each other's hits: an entry's
  record is right exactly if no claim hits another entry of its key (`Scoring.CountedOnceIff`,
  `Scoring.DoubleCountExample`).

## Model

| member | source | states |
|---|---|---|
| SidecarProto.LengthPrefixRoundTrip | src/sidecar_proto.rs:160-176 | the 4-byte big-endian length is inverted exactly over the whole 32-bit range, in both directions |
| SidecarProto.StreamRoundTrip | src/sidecar_proto.rs:160-181 | any messages written one frame after another are read back in order, and every byte is consumed |
| SidecarProto.StrictPrefixIsShort | src/sidecar_proto.rs:172-181 | a strict prefix of a frame never yields a message |
| SidecarProto.CutStream | src/sidecar_proto.rs:160-181 | a stream cut at any byte yields exactly the messages whose frames arrived whole, and then an incomplete frame |
| SidecarProto.WriteFrame | src/sidecar_proto.rs:160-168 | an unencodable or oversized message is refused before a byte is written; otherwise success appends exactly one frame, and failure, which only a failed write causes, leaves a strict prefix of it |
| SidecarProto.ByteSource.ReadExact | src/sidecar_proto.rs:174-177 | filling a buffer from any chunking of the stream takes exactly the next bytes, or fails the way the stream ends |
| SidecarProto.ReadFrame | src/sidecar_proto.rs:172-181 | for any chunking a read gives the first frame's message and leaves the bytes after it, or reports a malformed or incomplete frame |
| SidecarProto.WriteFrames | src/sidecar_proto.rs:160-168 | writing messages one after another puts exactly their stream on the wire, unless one cannot be framed or a write fails |
| SidecarProto.ReadFrames | src/sidecar_proto.rs:172-181 | reading until a read fails yields exactly the messages in the bytes, for any chunking, and the error their end calls for |
| SidecarProto.Transfer | src/sidecar_proto.rs:160-181 | from writer through any chunked delivery to reader, what arrives is what was sent, and sending fails only if a message cannot be framed or a write fails |
| LainErrors.NoErrorSurvives | src/server/error.rs:5-89 | an error displayed and wrapped as a git error differs from the error, as a value and as displayed |
| SidecarMessages.RemoteIsInProcess | src/bin/lain-git-sidecar.rs:268-346 | through the sidecar a request succeeds exactly when it would in the process, with the same answer but for commit authors, and fails exactly when it would, with that error displayed and wrapped as a git error |
| SidecarMessages.SameResultIff | src/sidecar.rs:113-271 | the two results are equal exactly for successes in which no commit names its author |
| SidecarMessages.WrappedTwiceExample | src/sidecar.rs:223-231 | the git error "x" comes back as the git error "Git error: x" |
| SidecarServer.ConnectionInOrder | src/bin/lain-git-sidecar.rs:197-266 | the invariant of a connection over every sequence of arrivals and write outcomes: the i-th dispatch and reply belong to the i-th frame after the handshake |
| SidecarServer.DispatchIsGated | src/bin/lain-git-sidecar.rs:197-247 | nothing is dispatched unless the first frame is a handshake of the matching version; otherwise the connection ends with at most a refusal sent |
| SidecarServer.OneReplyPerRequest | src/bin/lain-git-sidecar.rs:248-265 | a connection being served has written exactly one reply per request, in request order, each the dispatch of its request |
| SidecarServer.StopsOnlyOnAnsweredShutdown | src/bin/lain-git-sidecar.rs:248-265 | a connection reports a shutdown exactly when it dispatched one and its reply was written, and dispatches nothing after it |
| SidecarServer.HandleConnection | src/bin/lain-git-sidecar.rs:197-266 | the handler's loop ends in the state that the run of its arrivals describes |
| SidecarServer.AcceptLoop | src/bin/lain-git-sidecar.rs:173-192 | the accept loop ends only after a connection whose shutdown was answered; errors and closed connections do not end it |
| SidecarWorld.StepKeepsInv | src/bin/lain-git-sidecar.rs:173-266 | every step of the environment (serving, dying, unlinking, other sidecars, time) keeps the invariant on replies, log, tags and paths, and undoes nothing the supervisor wrote, read or reaped |
| SidecarWorld.ConnectionIsHandlerRun | src/bin/lain-git-sidecar.rs:197-266 | part of that invariant: every connection of the supervisor's environment is a run of the server's handler on the frames written to it, in order |
| SidecarWorld.RepliesInOrder | src/bin/lain-git-sidecar.rs:248-265 | on a served connection of that environment the replies are, in order, the dispatches of the requests written to it |
| SidecarWorld.PathsAreDistinctSockets | src/sidecar.rs:597-620 | two children of a supervisor have different socket paths, whatever the clock read and whichever directory they are in |
| SidecarWorld.DispatchGatedInWorld | src/bin/lain-git-sidecar.rs:197-247 | whatever is dispatched of what the supervisor wrote came on a connection opened by a handshake of the sidecar's version |
| SidecarWorld.WriteKeepsInv | src/sidecar.rs:369-383 | writing a request under a fresh tag keeps that invariant |
| SidecarWorld.FreshTagNotLogged | src/sidecar.rs:319-367 | a request can only have been dispatched after it was written |
| SidecarWorld.AttemptDispatchedOnce | src/bin/lain-git-sidecar.rs:248-265 | the request of one attempt is dispatched at most once |
| SidecarWorld.CallDispatchedAtMostTwice | src/sidecar.rs:319-367 | of the requests written as whole frames, those of one call are dispatched at most twice in all; what a sidecar makes of the bytes behind a torn frame is outside the count |
| RespawnBudget.WindowHoldsThree | src/sidecar.rs:34-35 | in a budgeted run any closed 30-second window, wherever it starts, holds at most three attempts |
| RespawnBudget.TotalAttempts | src/sidecar.rs:397-430 | the attempts made up to time T number at most 3 * (T / 30s + 1) |
| RespawnBudget.PrunedCountsRecent | src/sidecar.rs:407-422 | after the pruning loop the queue's length is the number of attempts in the last 30 seconds, though older ones were forgotten |
| RespawnBudget.Admission | src/sidecar.rs:397-430 | pruning, testing and recording keep the run budgeted and the queue a faithful memory of it |
| RespawnBudget.FourthWouldBreakBudget | src/sidecar.rs:407-422 | one more attempt would break the budget exactly when three are recent: the refusal is neither too early nor too late |
| RespawnBudget.RecentOfHistory | src/sidecar.rs:296-303 | the queue counts recent attempts correctly even before it is pruned again, and never more than three |
| Sidecar.SidecarInner.constructor | src/sidecar.rs:74-86 | a new supervisor satisfies the invariant on an environment that holds none of its children |
| Sidecar.SidecarInner.Launch | src/sidecar.rs:60-96 | the first boot yields a connected supervisor, or leaves no child and no socket file behind; it fails only for one of the reasons `Excuse` lists |
| Sidecar.SidecarInner.Costs | src/sidecar.rs:397-430 | between calls at most 1 + 3 * (T / 30s + 1) children were ever spawned, at most one is alive, the one in the slot, and a stream present has been acknowledged at this version with no failure counted |
| Sidecar.OneAliveAlways | src/sidecar.rs:432-506 | in every state satisfying the invariant that every system call and environment step keeps, inside calls too, at most one child of the supervisor is alive |
| Sidecar.ChildrenConserved | src/sidecar.rs:432-506 | every child ever spawned has been reaped and its socket file is gone, or it is the one in the slot |
| Sidecar.SidecarInner.StopChild | src/sidecar.rs:557-576 | whatever the child does, it is reaped when the grace period, kill and wait are over, and it is killed only after half a second or if it cannot be polled |
| Sidecar.SidecarInner.ForceTeardown | src/sidecar.rs:551-579 | afterwards no child is left to reap and no socket file of any child remains; a child that was connected is told to go first and killed only half a second later |
| Sidecar.SidecarInner.PerformHandshake | src/sidecar.rs:508-549 | succeeds exactly if the greeting is written and answered and the sidecar at the other end has this protocol version and, in a release build, this build; nothing is then left unread |
| Sidecar.SidecarInner.ConnectToChild | src/sidecar.rs:465-493 | the connect loop ends with a fresh connection to the child in the slot, or with an empty slot; it gives up only on a child found dead or after dialling its socket for two seconds with pauses of 25 ms |
| Sidecar.SidecarInner.SpawnChildAndConnect | src/sidecar.rs:432-506 | replaces the child by at most one new one; success means a connection that has been greeted, failure leaves no child and no stream, and has one of the causes: no binary, no spawn, child found dead, two seconds of dialling, greeting not written or not answered, or a sidecar of another version or build |
| Sidecar.SidecarInner.PruneHistory | src/sidecar.rs:408-415 | the loop leaves the queue without its expired front |
| Sidecar.SidecarInner.EnsureConnected | src/sidecar.rs:397-430 | a disconnected supervisor past its first boot refuses exactly when three attempts lie in the last 30 seconds, and otherwise records one; the first boot is free; a connected one does nothing; it fails only for such a cause |
| Sidecar.SidecarInner.AttemptCall | src/sidecar.rs:369-395 | the reply read was dispatched for this very attempt, first or retry, after its request was written; without a reply, the write or the read has failed |
| Sidecar.AttemptRead | src/sidecar.rs:325-331 | the next reply on a ready connection answers the request just written and no earlier one, and leaves the connection ready |
| Sidecar.SidecarInner.TryOnce | src/sidecar.rs:325-336 | an answered attempt resets the failure count and hands out exactly one reply, dispatched for that attempt; an unanswered one hands out none |
| Sidecar.SidecarInner.Call | src/sidecar.rs:319-367 | an answer is the in-process one, relayed, on the repository as it was during this call, and its reply was dispatched for the attempt the call ended with, never for the one abandoned; there is one retry after one failed attempt, and the failure count follows the attempts; every connection and attempt that went wrong has one of the known causes, and a refusal three attempts in the last 30 seconds |
| Sidecar.SidecarInner.GetHealth | src/sidecar.rs:296-317 | alive exactly when a stream is present; the respawns reported are the attempts of the last 30 seconds, at most three; a child reported alive is running, unless it could not be polled |
| Sidecar.SidecarInner.Drop | src/sidecar.rs:582-586 | after drop every child ever spawned is reaped and none of their socket files remains |
| Sidecar.Faithful | src/sidecar.rs:113-271 | a reply dispatched for an attempt, once interpreted, is the in-process result at the moment of its dispatch, with authors dropped and an error displayed and wrapped |
| DirtyFlag.StepKeepsInv | src/sync.rs:75-97 | every step of every thread keeps: with the flag clear and no writer pending, what a rebuild has read is current and what was derived is up to date |
| DirtyFlag.Convergence | src/sync.rs:85-97 | in every run a quiescent state with a clear flag has derived exactly from the current inputs |
| DirtyFlag.NoLostUpdate | src/sync.rs:56-63 | at every moment a stale derived value is announced by the flag, a pending writer or a rebuild in flight |
| DirtyFlag.OneMoreRebuildConverges | src/sync.rs:85-97 | from any reachable quiescent state, every further rebuild that succeeds undisturbed, whatever cells it reads, in whatever order and however often, ends clean with the value derived from the current inputs |
| DirtyFlag.OneMoreRebuildPossible | src/sync.rs:85-97 | from every such state there is such a rebuild |
| DirtyFlag.ClearLastLosesUpdate | src/sync.rs:58-63 | clearing after the rebuild, in the same system, has a run that ends quiescent, clean and stale |
| DirtyFlag.Shared.RunIfDirty | src/sync.rs:85-97 | among interleaved writers: a set flag is never passed over, a failed rebuild leaves the flag set, a successful one leaves it set only if a mark was made meanwhile, and a clear flag with no writer pending means an up-to-date value; it fails only if the rebuild itself does |
| DirtyFlag.Shared.MarkDirty | src/sync.rs:75-77 | a writer's mark sets the flag and ends its update, and changes nothing else |
| Discovery.CanonicalSet | src/cli/shared_daemon.rs:145-153 | the canonical workspaces, strictly sorted, each once |
| Discovery.Discover | src/cli/shared_daemon.rs:203-247 | the best answer: the exact socket, else the smallest covering set, ties by path; else the first daemon of largest overlap with exactly what it misses; nothing only if nobody shares |
| Discovery.BestIsUnique | src/cli/shared_daemon.rs:203-247 | there is only one best answer |
| Discovery.PartialMissesSomething | src/cli/shared_daemon.rs:222-236 | a partial answer names at least one path, all needed and none served |
| Discovery.ExactSocketPreferred | src/cli/shared_daemon.rs:238-244 | the client's own socket is chosen whenever it covers |
| Discovery.SmallestCoveringPreferred | src/cli/shared_daemon.rs:239-245 | of the other covering daemons the one that serves least is taken, and of two that serve as much the first in path order |
| Discovery.OnlySharersMatter | src/cli/shared_daemon.rs:200-214 | daemons that do not share, and sockets nobody answers on, never influence the answer |
| SharedDaemon.OwnSocketCovers | src/cli/shared_daemon.rs:255-303 | in every run whoever listens on a set's own socket serves that set |
| SharedDaemon.SafeSocketIff | src/cli/shared_daemon.rs:409-493 | a socket is safe for a client against restarts exactly when its key set contains what the client needs |
| SharedDaemon.CoverageLost | src/cli/shared_daemon.rs:409-431 | a run in which a discovered covering daemon is replaced by one that does not cover |
| SharedDaemon.DiscoveredThenLost | src/cli/shared_daemon.rs:409-431 | seen by one client: discovery finds a daemon that covers it, and whoever answers on that socket when it is dialled does not |
| SharedDaemon.Machine.OnlyShared | src/cli/shared_daemon.rs:524-535 | the connection is refused exactly if its socket is probed and a daemon that does not share answers |
| SharedDaemon.Machine.StartDetached | src/cli/shared_daemon.rs:255-303 | spawns once and ends with a connection to a daemon on the set's own socket that covers it, or without one because the spawn failed, the child exited and nobody else listened, or polling every 50 ms for the whole wait reached nobody |
| SharedDaemon.Machine.AddWorkspaces | src/cli/shared_daemon.rs:308-350 | an accepted hand-off means the daemon behind that connection serves the paths |
| SharedDaemon.Machine.HandOver | src/cli/shared_daemon.rs:432-493 | a daemon reached is handed exactly the missing paths; if it accepts, the same socket is dialled again and bridged to; a daemon of its own is started exactly if a dial reached nobody or the paths were refused; what is handed out covers the client if it is the daemon discovered or on the client's own socket |
| SharedDaemon.Machine.AttachOrStart | src/cli/shared_daemon.rs:393-513 | probes every candidate and goes by exactly what those reached say; attaches to a covering daemon, hands the missing paths to a partial one, and starts one, its own, exactly if that reaches nobody or is refused; it is without a bridge only if told not to share or if its daemon could not be started; the bridge covers the client and shares, for the daemon discovered or the client's own socket |
| AtomicWrite.StepKeepsInv | src/cli/io.rs:49-104 | every step of any writer in any process, crashes and reused process ids included, keeps the invariant on target, temp files and bystanders |
| AtomicWrite.ReaderSeesWholeFile | src/cli/io.rs:39-48 | at every moment the target is untouched or holds the complete payload of the writer that renamed last |
| AtomicWrite.NoLeftovers | src/cli/io.rs:97-104 | when every writer has committed or been dropped, the target is the only new file |
| AtomicWrite.BystandersUntouched | src/cli/io.rs:10-22 | files that are nobody's temp file are never touched |
| AtomicWrite.AtomicWriter.constructor | src/cli/io.rs:61-74 | an open writer with nothing written, on a temp file no other live writer has |
| AtomicWrite.AtomicWriter.Write | src/cli/io.rs:87-95 | the bytes are appended to what this writer has accepted, however others interleave |
| AtomicWrite.AtomicWriter.Commit | src/cli/io.rs:76-84 | success puts exactly the writer's payload at the target; failure, which only the file system causes, publishes nothing of it |
| AtomicWrite.AtomicWriter.DropWriter | src/cli/io.rs:97-104 | dropping an open writer removes its temp file; after a commit it does nothing |
| Names.TempNameInjective | src/cli/io.rs:10-22 | a temp name determines its target, process and counter value |
| Names.SocketNameInjective | src/sidecar.rs:597-611 | a socket name determines process, sequence number and timestamp |
| Names.SocketPathInjective | src/sidecar.rs:597-620 | so does a socket path, whichever of the two directories it ends up in |
| Names.SocketPathFits | src/sidecar.rs:612-620 | with the machine's integer widths every socket path fits the platform limit |
| Installer.StepKeepsInv | npm-shim/scripts/runtime.js:153-209 | every step of any installer, failing or killed ones included, keeps the invariant, and nothing put in place is ever taken away or changed |
| Installer.BinaryIsCommitPoint | npm-shim/scripts/runtime.js:163-206 | in every state of every run a final binary means a complete verified installation, on which the cached-path checks succeed |
| Installer.FinishedMeansInstalled | npm-shim/scripts/runtime.js:163-206 | an installer that returns, on either path, leaves a complete installation |
| Installer.OnlyTheRelease | npm-shim/scripts/runtime.js:178-179 | nothing of another archive is ever put in place |
| Installer.Cache.EnsureBinary | npm-shim/scripts/runtime.js:153-209 | returns only with a complete installation, always when a final binary was there, and disturbs nothing that was in place; it throws only if nothing or another archive was downloaded, a rename failed with nobody else's file in place, or the release itself is faulty |
| Installer.Cache.InstallDlls | npm-shim/scripts/runtime.js:79-98 | the loop ends with every DLL of the archive in place or with a failure |
| Query.CheckStepWords | src/cli/query.rs:123-166 | accepts a find step exactly if an optional type is followed by name or limit keys and values in turn, a connect step exactly if its edge is followed by direction words and depths with values, and every other step |
| Query.WordsOkIff | src/cli/query.rs:123-166 | the index loop agrees with those sentences |
| Query.ParseConnect | src/cli/query.rs:208-244 | the word loop and the depth text update the parser as the step's meaning says |
| Query.Parse | src/cli/query.rs:88-118 | JSON goes elsewhere, the first bad step is reported, and otherwise the whole text is parsed |
| QueryWords.FollowingWord | src/cli/query.rs:198-207 | searching a step's text for a keyword and splitting there finds the word after the first word that ends in it |
| QueryWords.StepMeans | src/cli/query.rs:184-367 | what the parser does with the text of a find, connect, filter, sort, group or limit step is determined by its words as described, for all words |
| QueryRoundTrip.PipeRoundTrip | src/cli/query.rs:88-367 | every plain query written as pipe text, with direction, depth and limit given or left out, passes the check and parses to exactly itself, with outgoing, 1 and 100 for what was left out |
| QueryRoundTrip.TypeConditionExact | src/cli/query.rs:184-207 | a one-word type survives exactly if it does not begin with "limit", is not "name" and, before a name, does not end in "name" |
| QueryRoundTrip.LimitHidesType | src/cli/query.rs:186-197 | a type that begins with "limit" is always dropped |
| QueryRoundTrip.NameHidesType | src/cli/query.rs:198-207 | a type that ends in "name" makes the parser lose the name |
| QueryRoundTrip.DepthRoundTrip | src/cli/query.rs:223-244 | single depths, `a..b` and `a..=b` are read back as written |
| QueryRoundTrip.FindRoundTrip | src/cli/query.rs:184-207 | a find step sets the type and name it gives and keeps the others, whatever the parser held before |
| QueryRoundTrip.ConnectRoundTrip | src/cli/query.rs:208-244 | a full connect step is read back whatever the parser held before |
| QueryRoundTrip.ConnectPartRead | src/cli/query.rs:208-244 | exactly what a connect step with or without direction and depth sets and keeps, for every edge |
| QueryRoundTrip.EdgeConditionExact | src/cli/query.rs:223-244 | a full connect step is read back exactly if its edge does not end in "depth", or the depth there was is the one written |
| QueryRules.LastOneGivenWins | src/cli/query.rs:168-367 | over any list of steps every variable holds the last value given for it, or the one before; operations add up in order |
| QueryRules.LastGivenIff | src/cli/query.rs:168-367 | the last value given is that of the one step that gives one with none after it that does |
| QueryRules.OtherStepsKeep | src/cli/query.rs:168-367 | steps of other kinds leave find, connect and limit alone |
| QueryRules.LastLimitWins | src/cli/query.rs:168-367 | of several limits the last counts, whatever surrounds it |
| QueryRules.LastConnectWins | src/cli/query.rs:208-244 | of several connect steps the last counts, and a direction or depth it leaves out is as the steps before left it |
| QueryRules.LastFindWins | src/cli/query.rs:184-207 | of several find steps the last counts, and a type or name it leaves out is as the steps before left it |
| QueryRules.CarryOverExample | src/cli/query.rs:208-244 | a direction and a depth that survive a later connect step |
| QueryRules.LimitReadsOneWord | src/cli/query.rs:329-336 | nothing after its number changes a limit step |
| QueryRules.GroupReadsOneWord | src/cli/query.rs:321-328 | nothing after its field changes a group step |
| QueryRules.FilterReadsTwoWords | src/cli/query.rs:245-272 | nothing after its kind and value changes a filter step |
| QueryRules.SortReadsDesc | src/cli/query.rs:305-320 | the words after the field change a sort step exactly if one contains "desc" and the field does not |
| QueryRules.FindTypeReads | src/cli/query.rs:184-207 | the words after the type have no effect on a find step exactly if none of its words but the last ends in "name" or the name they give is already held, so a limit inside it has none |
| QueryRules.FindNameReads | src/cli/query.rs:198-207 | words after the name change a find step exactly if the name ends in "name" |
| QueryRules.ConnectReads | src/cli/query.rs:208-244 | words after a connect step, with or without direction and depth, change nothing exactly if the last direction among them is none or the one the step leaves, and the depth is written in the step or the first one now given is none or the one held |
| QueryRules.ConnectReadsDirections | src/cli/query.rs:208-244 | so words after a full connect step change it exactly if the last direction among them is another one |
| QueryRules.UnusedWords | src/cli/query.rs:88-166 | four accepted steps of which the parser drops words |
| QueryRules.JsonIff | src/cli/query.rs:88-98 | a text is taken for JSON exactly if it begins, after white space, with a brace or a bracket |
| QueryRules.ParsedIff | src/cli/query.rs:88-166 | what is not JSON is parsed exactly if every step begins with one of the seven keywords and its words are in order; otherwise the first step that is not so is reported |
| QueryRules.DepthDefaults | src/cli/query.rs:223-244 | a range without a lower end starts at 1, one without an upper end stops where it starts, and a depth that is no number changes nothing |
| QueryRules.TooLargeIsIgnored | src/cli/query.rs:223-336 | a limit of 2^64 or more counts as 100, and a depth of 2^32 or more changes nothing |
| QueryRules.OnlyASpaceSeparates | src/cli/query.rs:184-336 | a keyword followed by any other white space than a plain space passes the check as if it were one, and the parser drops the step |
| QueryRules.TabExample | src/cli/query.rs:184-186 | `find` and `Function` with a tab between are accepted and find everything |
| RepoIds.BuildEntries | src/cli/mcp.rs:156-176 | the counting map gives every workspace its id, in order |
| RepoIds.IdsSpelledOut | src/cli/mcp.rs:156-176 | an id is the file name, or "workspace" without one, with a dash and the number of earlier ones of that name if there are any |
| RepoIds.DistinctIffNoNameTaken | src/cli/mcp.rs:156-176 | the ids are pairwise distinct exactly when no basename equals the k-th repeat of one that occurs more than k times |
| RepoIds.FirstOccurrenceUnsuffixed | src/cli/mcp.rs:163-168 | the first workspace of a basename keeps it unsuffixed |
| RepoIds.ClashExample | src/cli/mcp.rs:156-176 | three workspaces whose ids clash |
| Refresh.FetchesArePaced | src/cli/server.rs:394-464 | over any ticks, with repositories added, removed and added again, two fetches of one id are the later one's interval apart, never under thirty seconds |
| Refresh.FetchedIffDue | src/cli/server.rs:411-433 | in one tick exactly the known, live repositories whose interval has passed are fetched; a first sighting never is |
| Refresh.FetchedOnSchedule | src/cli/server.rs:411-433 | a local clone is fetched after 300 seconds, a shallow one after its configured interval but no less than 30, and nothing else ever |
| Refresh.MapHoldsOnlyLive | src/cli/server.rs:403-433 | after a tick the map holds exactly the still-live ids it knew and the fetchable ones it walked, and only live ones exactly if every fetchable one it walked was in the first listing |
| Refresh.NewcomerRemembered | src/cli/server.rs:403-433 | a repository that appears between the listings is in the map after the tick |
| Refresh.Refresher.RunTick | src/cli/server.rs:400-464 | a turn of the loop, at any clock readings, is a tick of the system the cadence theorems are about |
| Oneshot.StdioStopsAtReply | src/cli/mcp_stdio.rs:63-78 | what the stdio loop accepts is a final reply, never a notification |
| Oneshot.SocketAgreesIff | src/cli/socket_session.rs:66-85 | the socket loop stops at the same message exactly when no notification comes before the final reply |
| Oneshot.Session.CallLoop | src/cli/oneshot.rs:351-449 | ids are fresh; every call is sent with no other outstanding, and the answer is the final reply to the latest one unless notifications get through; the first acceptable message is taken; each warming-up reply is followed by a pause of just what it asks for, or a second, cut at the deadline, and by one call; no wait runs past the deadline; it gives up only at the deadline or when the session is gone |
| Scoring.CollectHits | scripts/acceptance/ab_metrics.py:192-205 | the hit table holds, per key, the claims that hit, in order, once per place of that key |
| Scoring.RecordedIffHit | scripts/acceptance/ab_metrics.py:184-205 | a claim is recorded under a key exactly if it hits a place of that key |
| Scoring.RecordedExactly | scripts/acceptance/ab_metrics.py:176-205 | what is recorded under a key, said of the places alone |
| Scoring.LonePlaceTakesAll | scripts/acceptance/ab_metrics.py:176-190 | the only entry of a repository takes every claim on that repository |
| Scoring.SharedRepositoryNeedsSymbol | scripts/acceptance/ab_metrics.py:184-190 | where a repository has two entries, exactly the claims naming an entry's symbol are recorded under its key |
| Scoring.ExternalByPattern | scripts/acceptance/ab_metrics.py:196-199 | must-find entries outside the workspace take exactly the claims the pattern recognises |
| Scoring.FallbackExample | scripts/acceptance/ab_metrics.py:173-190 | a claim on a field of a repository with one entry makes that entry ok |
| Scoring.CountedOnceIff | scripts/acceptance/ab_metrics.py:192-205 | an entry's record is exactly the claims that hit it if and only if no claim hits another entry of the same key |
| Scoring.DoubleCountExample | scripts/acceptance/ab_metrics.py:192-205 | one claim recorded twice under two entries of one key |
| Scoring.Judge | scripts/acceptance/ab_metrics.py:218-226 | one right hit decides; failing that, the last hit does |
| Scoring.StatusOfClaims | scripts/acceptance/ab_metrics.py:210-230 | an entry is omitted exactly when no claim hits its key, and ok exactly when a claim that does asserts impact with evidence on the entry's own list, else in the override table, else equal to the entry's |
| Scoring.LastHitDecides | scripts/acceptance/ab_metrics.py:218-226 | an entry that is not ok has the status of the last claim that hits it: contradicted, or misclassified with its evidence |
| Scoring.TrapConservation | scripts/acceptance/ab_metrics.py:231-249 | every hit on a must-not-claim entry is reported once: asserting ones as serious false positives, negated ones as misuse |
| Scoring.TrapStatusOfClaims | scripts/acceptance/ab_metrics.py:231-249 | a trap's status is that of the last claim that hits it |
| Scoring.NotClaimedIff | scripts/acceptance/ab_metrics.py:231-249 | a trap is not claimed exactly if no claim hits it |
| Scoring.ScoreGroundTruth | scripts/acceptance/ab_metrics.py:150-275 | every entry gets its one status, in order; omissions, misclassifications and trap reports are exactly those of the entries; recall appears exactly if a class is declared |
| Scoring.RecallByClass | scripts/acceptance/ab_metrics.py:121-147 | there is a bucket for exactly the classes that occur, holding what its entries add up to |
| Scoring.BucketBalances | scripts/acceptance/ab_metrics.py:121-147 | per class found plus omitted is total, found is right plus misclassified, and the right ones are the ok ones plus those with only negated accepted hits |
| Scoring.MisclassifiedIff | scripts/acceptance/ab_metrics.py:137-146 | a class lists as misclassified exactly its entries hit without accepted evidence, with all the evidence of their hits |
| Scoring.ContradictedExample | scripts/acceptance/ab_metrics.py:121-147 | an entry that is right in the recall of its class and contradicted in its status |
| Scoring.OmissionsPartition | scripts/acceptance/ab_metrics.py:121-147 | the classes' omissions together are the report's omissions, with multiplicity |

## Left out

- The bincode byte format, serde and JSON: a codec is any partial encoder with a left inverse, and messages arrive parsed.
- Real sockets, processes, signals, HTTP, tar and libgit2: their outcomes are nondeterministic, and the repository's answers are a parameter.
- The text in the error for a response of the wrong kind, which `SidecarMessages.RemoteIsInProcess` shows never to arise, and the errors of calls that get no reply.
- Weak memory: the flag's loads and stores interleave in one order. A rebuild that panics (the flag then stays clear) is not a step of the model.
- SidecarWorld.CallDispatchedAtMostTwice: counts the requests written as whole frames, because what the bytes behind a torn frame are decoded as is not modelled: the model lets the sidecar dispatch anything after one, on a connection the supervisor never reads again.
- `wait` and `remove_file` in the supervisor's teardown are taken to succeed; a call's deadline is sampled at the instant of the wait it bounds, and each receive takes at least one nanosecond.
- `new_with_options`: canonicalising the workspace and opening it as a repository before the first boot.
- How long a read or a write on the sidecar's socket may take before it times out, and the duration of the last call.
- The search for the sidecar binary, the socket clean-up and parent-death handling inside the child process.
- The set key of a shared socket is taken to be injective (the code keeps 16 hex digits of a hash), a successful `add_workspaces` to mean that the paths are served, and a path to be its canonical form, represented by its rank.
- Sorting the covering daemons is modelled as picking the least one, and the sort of `canonical_set` as repeated insertion.
- `rpc_call`, the file-name filter of `candidate_sockets`, the stdio bridge and the idle-exit timer.
- SharedDaemon.Machine.AttachOrStart: coverage is stated for the daemon that answered discovery and for the client's own socket, because it is false of a restarted daemon on a foreign socket.
- `write_file_atomic` as a member of its own: it is a writer that accepts, spills and renames, without the fsync. A single `write` that accepts only part of its buffer is a smaller chunk. Creating the parent directory is left out.
- Installer: the temporary directory of each installer, redirects, parsing of the checksum file, file modes. The checksum is taken to identify the archive. DLL names are compared as the case-insensitive file system does.
- The thresholds of `semantic_filter` (its text is carried along) and JSON queries; `QueryWords` and what builds on it are about steps whose words are joined by single spaces; the token order inside filter, sort and group steps is a function, not a loop.
- The text of the generated configuration around the ids, and YAML quoting.
- The body of a fetch, its timeout, and the projection of stale repositories after the walk.
- `run_oneshot`'s printing, its argument parsing and the start of the server it talks to.
- Scoring: the noise list, extraction of claims from a transcript, and the rendering of keys with evidence (pairs here). The pattern for claims outside the workspace is a parameter.
- `sanitize_agent_name`, `mcp_endpoint`, thread counts, status printing and the other one-expression helpers: true but easy.
