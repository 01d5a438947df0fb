/** Values carried by a PDF-download job: requests, per-entry results, snapshots and events. */
module DownloadTypes {
  import opened Common

  /** The zero value stands for the unset time. */
  const ZERO_TIME: Instant := 0

  type JobID = string

  datatype PaperID = PaperID(source: string, sourceID: string, version: string)

  datatype Request = Request(paperID: PaperID, pdfURL: string)

  datatype EntryStatus = Pending | Success | Failed

  datatype EntryResult = EntryResult(
    paperID: PaperID, status: EntryStatus, bytes: nat,
    category: string, description: string, completedAt: Instant)

  datatype JobSnapshot = JobSnapshot(
    jobID: JobID, total: nat, succeeded: nat, failed: nat,
    completed: bool, completedAt: Instant, entries: seq<EntryResult>)

  /** Exactly one of a progress result or the terminal summary. */
  datatype Event = Progress(jobID: JobID, result: EntryResult) | Summary(jobID: JobID, snapshot: JobSnapshot)

  /** What a store attempt came back with; the description is the sanitized error text. */
  datatype EnsureOutcome =
    | Stored(size: Option<nat>)
    | InvalidKey(description: string)
    | FetchError(description: string)
    | StoreError(description: string)
    | OtherError(description: string)

  /** The (status, category, description) triple recorded for an outcome. */
  function Classify(outcome: EnsureOutcome): (EntryStatus, string, string) {
    match outcome
    case Stored(_) => (Success, "", "")
    case InvalidKey(d) => (Failed, "invalid_key", d)
    case FetchError(d) => (Failed, "fetch", d)
    case StoreError(d) => (Failed, "store", d)
    case OtherError(d) => (Failed, "unknown", d)
  }

  /** One download attempt: the classified result, with the file size when it could be read. */
  function RunEntry(req: Request, outcome: EnsureOutcome, at: Instant): EntryResult {
    var (status, category, description) := Classify(outcome);
    var bytes := if outcome.Stored? && outcome.size.Some? then outcome.size.value else 0;
    EntryResult(req.paperID, status, bytes, category, description, at)
  }

  function PendingEntry(req: Request): EntryResult {
    EntryResult(req.paperID, Pending, 0, "", "", ZERO_TIME)
  }

  function CountStatus(entries: seq<EntryResult>, status: EntryStatus): nat {
    if entries == [] then 0
    else CountStatus(entries[..|entries| - 1], status) + (if entries[|entries| - 1].status == status then 1 else 0)
  }
}
