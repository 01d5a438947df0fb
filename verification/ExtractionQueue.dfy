/**
 The extraction queue over all interleavings: submissions from any number of requests, the single
 worker with its lossy wake channel, storage faults, crashes, and the start-up that follows them.
 */
module ExtractionQueue {
  import opened Common
  import opened ExtractionTable
  import opened ExtractionVerdict

  /** The worker: blocked on its wake channel, in its drain loop, or there holding a peeked or claimed row. */
  datatype Worker = Idle | Draining | Peeked(id: RowID, row: Row) | Claimed(id: RowID, row: Row)

  /** The process: down, recovered but not yet serving, or serving. */
  datatype Boot = Down | Recovering | Up

  datatype Request = Request(payload: Payload, createdAt: Instant)

  /**
   Beside the table and the wake channel, the history the claims below refer to: the row and
   payload of each extractor run, the row last peeked for each id, the last request upserted between that peek and the
   worker's next update of the row, the clock reading of each expiry, and the rows whose final update
   was not stored.
   */
  datatype Queue = Queue(
    rows: Table, wake: nat, notifying: nat, worker: Worker, boot: Boot,
    ran: seq<(RowID, Payload)>, peeked: map<RowID, Row>, window: map<RowID, Request>, expiredAt: map<RowID, Instant>,
    lost: set<RowID>)

  /** The settings, and the extractor: what run `n` returns for a payload. */
  datatype Config = Config(buffer: nat, maxWords: nat, jobExpiry: int, extract: (nat, Payload) -> Outcome)

  datatype Action =
    | Upsert(payload: Payload, freshID: RowID, now: Instant)  // first half of Submit
    | Notify                                                  // second half of a Submit
    | Receive
    | Peek(id: RowID)
    | PeekEmpty
    | PeekFault
    | Expire(now: Instant)
    | ExpireFault(now: Instant)
    | Claim(now: Instant)
    | ClaimFault(now: Instant)
    | Process                                                 // extract, then mark the row
    | ProcessFault                                            // extract, but the mark is not stored
    | Crash
    | Recover
    | Serve

  const START := Queue(map[], 0, 0, Idle, Down, [], map[], map[], map[], {})

  predicate IsExpired(c: Config, row: Row, now: Instant) { now > row.createdAt + c.jobExpiry }

  ghost predicate Enabled(c: Config, q: Queue, a: Action) {
    match a
    case Upsert(_, freshID, _) => q.boot.Up? && freshID !in q.rows
    case Notify => q.boot.Up? && q.notifying > 0
    case Receive => q.boot.Up? && q.worker.Idle? && q.wake > 0
    case Peek(id) => q.worker.Draining? && IsOldestPending(q.rows, id)
    case PeekEmpty => q.worker.Draining? && !HasPending(q.rows)
    case PeekFault => q.worker.Draining?
    case Expire(now) => q.worker.Peeked? && IsExpired(c, q.worker.row, now)
    case ExpireFault(now) => q.worker.Peeked? && IsExpired(c, q.worker.row, now)
    case Claim(now) => q.worker.Peeked? && !IsExpired(c, q.worker.row, now)
    case ClaimFault(now) => q.worker.Peeked? && !IsExpired(c, q.worker.row, now)
    case Process => q.worker.Claimed?
    case ProcessFault => q.worker.Claimed?
    case Crash => true
    case Recover => q.boot.Down?
    case Serve => q.boot.Recovering?
  }

  function Verdicted(t: Table, id: RowID, v: Verdict): Table {
    match v
    case Succeed(artifact) => DoneIn(t, id, artifact)
    case Fail(reason, message) => FailedIn(t, id, reason, message)
  }

  function Signal(buffer: nat, wake: nat): nat { if wake < buffer then wake + 1 else wake }

  function Signals(buffer: nat, wake: nat, n: nat): nat
    decreases n
  {
    if n == 0 then wake else Signals(buffer, Signal(buffer, wake), n - 1)
  }

  function PendingIDs(t: Table): set<RowID> { set id | id in t && t[id].status.Pending? }

  ghost function Next(c: Config, q: Queue, a: Action): Queue
    requires Enabled(c, q, a)
  {
    match a
    case Upsert(payload, freshID, now) =>
      q.(rows := Upserted(q.rows, payload, freshID, now), notifying := q.notifying + 1,
         window := if q.worker.Peeked? && SameKey(q.worker.row, payload)
                   then q.window[q.worker.id := Request(payload, now)] else q.window,
         lost := set id | id in q.lost && id in q.rows && !SameKey(q.rows[id], payload))
    case Notify => q.(notifying := q.notifying - 1, wake := Signal(c.buffer, q.wake))
    case Receive => q.(wake := q.wake - 1, worker := Draining)
    case Peek(id) =>
      q.(worker := Peeked(id, q.rows[id]), peeked := q.peeked[id := q.rows[id]], window := q.window - {id})
    case PeekEmpty => q.(worker := Idle)
    case PeekFault => q.(worker := Idle)
    case Expire(now) =>
      var row := q.worker.row;
      q.(rows := FailedIn(q.rows, q.worker.id, Expired, OlderThanExpiry(row.createdAt, c.jobExpiry)),
         expiredAt := q.expiredAt[q.worker.id := now], worker := Draining)
    case ExpireFault(_) => q.(worker := Draining)
    case Claim(_) =>
      q.(rows := ClaimedIn(q.rows, q.worker.id),
         worker := if InStatus(q.rows, q.worker.id, Pending) then Claimed(q.worker.id, q.worker.row) else Draining)
    case ClaimFault(_) => q.(worker := Draining)
    case Process =>
      var p := q.worker.row.payload;
      q.(rows := Verdicted(q.rows, q.worker.id, VerdictOf(p, c.extract(|q.ran|, p), c.maxWords)),
         ran := q.ran + [(q.worker.id, p)], worker := Draining)
    case ProcessFault =>
      q.(ran := q.ran + [(q.worker.id, q.worker.row.payload)], worker := Draining,
         lost := if InStatus(q.rows, q.worker.id, Running) then q.lost + {q.worker.id} else q.lost)
    case Crash => q.(wake := 0, notifying := 0, worker := Idle, boot := Down)
    case Recover => q.(rows := Recovered(q.rows), lost := {}, boot := Recovering)
    case Serve => q.(wake := Signals(c.buffer, q.wake, |PendingIDs(q.rows)|), boot := Up)
  }

  /** The state after the actions, or None when one of them is not enabled where it is taken. */
  ghost function Run(c: Config, q: Queue, actions: seq<Action>): Option<Queue>
    decreases |actions|
  {
    if actions == [] then Some(q)
    else if Enabled(c, q, actions[0]) then Run(c, Next(c, q, actions[0]), actions[1..])
    else None
  }

  ghost predicate Reaches(c: Config, actions: seq<Action>, q: Queue) { Run(c, START, actions) == Some(q) }
}
