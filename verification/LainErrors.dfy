/** lain's errors and how they are displayed (src/server/error.rs). */
module LainErrors {
  import opened Numerals

  /** `AmbiguousSymbol` carries the repositories as they are printed, `Json` the text of the
      JSON library's own error. */
  datatype LainError =
    | Git(text: string)
    | Graph(text: string)
    | Database(text: string)
    | Lsp(text: string)
    | Nlp(text: string)
    | Mcp(text: string)
    | Io(text: string)
    | Serialization(text: string)
    | UnsupportedManifestVersion(version: nat)
    | Json(text: string)
    | InvalidArgument(text: string)
    | NotFound(text: string)
    | Unavailable(text: string)
    | SnapshotResidencyBusy(retryAfterMs: nat)
    | InvalidRepoId(text: string)
    | InvalidGlobalId(text: string)
    | Fatal(text: string)
    | Config(text: string)
    | Workspace(text: string)
    | NotImplemented(text: string)
    | Cancelled
    | Other(text: string)
    | AmbiguousSymbol(repos: string)
    | FederationSchemaMismatch(found: nat, required: nat)
    | FederationPayloadCorrupt(reason: string)

  /** The fixed text a displayed error begins with. */
  function Prefix(e: LainError): string {
    match e
    case Git(_) => "Git error: "
    case Graph(_) => "Graph database error: "
    case Database(_) => "Database error: "
    case Lsp(_) => "LSP error: "
    case Nlp(_) => "NLP error: "
    case Mcp(_) => "MCP error: "
    case Io(_) => "IO error: "
    case Serialization(_) => "Serialization error: "
    case UnsupportedManifestVersion(_) => "Unsupported manifest version: "
    case Json(_) => "JSON error: "
    case InvalidArgument(_) => "Invalid argument: "
    case NotFound(_) => "Not found: "
    case Unavailable(_) => "Unavailable: "
    case SnapshotResidencyBusy(_) => "snapshot residency busy (retry after "
    case InvalidRepoId(_) => "Invalid repo id: "
    case InvalidGlobalId(_) => "Invalid global id: "
    case Fatal(_) => "Fatal: "
    case Config(_) => "Config error: "
    case Workspace(_) => "Workspace error: "
    case NotImplemented(_) => "Not implemented: "
    case Cancelled => "Operation cancelled"
    case Other(_) => "Other error: "
    case AmbiguousSymbol(_) => "Ambiguous symbol: matches repos "
    case FederationSchemaMismatch(_, _) => "federation graph was written by schema v"
    case FederationPayloadCorrupt(_) => "federation graph payload is corrupt: "
  }

  /** What follows the prefix. */
  function Details(e: LainError): string {
    match e
    case UnsupportedManifestVersion(v) => Decimal(v)
    case SnapshotResidencyBusy(ms) => Decimal(ms) + "ms)"
    case Cancelled => ""
    case AmbiguousSymbol(repos) =>
      repos + ". Pass `repo_id` to choose one (for a cross-repo blast radius: `get_cross_repo_blast_radius_for_repo`)."
    case FederationSchemaMismatch(found, required) =>
      Decimal(found) + "; this build expects schema v" + Decimal(required) + ". Run `lain reindex` to rebuild."
    case FederationPayloadCorrupt(reason) => reason + ". Run `lain reindex` to rebuild."
    case _ => e.text
  }

  function Display(e: LainError): string {
    Prefix(e) + Details(e)
  }

  /** An error after a trip through the sidecar: its displayed text, wrapped as a git error. */
  function Wrapped(e: LainError): LainError {
    Git(Display(e))
  }

  /** No error is what it was after the trip, neither as a value nor as displayed. */
  lemma NoErrorSurvives(e: LainError)
    ensures Wrapped(e) != e
    ensures Display(Wrapped(e)) == "Git error: " + Display(e) != Display(e)
  {
    assert |Display(Wrapped(e))| > |Display(e)|;
  }
}
