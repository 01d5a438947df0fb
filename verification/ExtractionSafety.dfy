/** What every run of the extraction queue keeps, whatever fails and whenever the process dies. */
module ExtractionSafety {
  import opened Common
  import opened ExtractionTable
  import opened ExtractionVerdict
  import opened ExtractionQueue

  /** The request a row stood for when the worker last updated it: the peeked one, unless overwritten since. */
  ghost function InForce(q: Queue, id: RowID): Request
    requires id in q.peeked
  {
    if id in q.window then q.window[id] else Request(q.peeked[id].payload, q.peeked[id].createdAt)
  }

  ghost predicate Faithful(q: Queue, id: RowID) {
    id in q.rows && id in q.peeked && Request(q.rows[id].payload, q.rows[id].createdAt) == InForce(q, id)
  }

  /** Run `n` of the extractor was made for row `id` on payload `p` and gave this verdict. */
  ghost predicate RunGave(c: Config, q: Queue, n: nat, id: RowID, p: Payload, v: Verdict) {
    n < |q.ran| && q.ran[n] == (id, p) && v == VerdictOf(p, c.extract(n, p), c.maxWords)
  }

  /** Some extractor run for the row, on the payload peeked for it, gave this verdict. */
  ghost predicate CameFrom(c: Config, q: Queue, id: RowID, v: Verdict) {
    id in q.peeked && exists n: nat :: RunGave(c, q, n, id, q.peeked[id].payload, v)
  }

  /** Where each row's status, artifact and failure come from. */
  ghost predicate Provenance(c: Config, q: Queue, id: RowID)
    requires id in q.rows
  {
    var r := q.rows[id];
    match r.status
    case Pending => true
    case Running => Faithful(q, id)
    case Done => Faithful(q, id) && CameFrom(c, q, id, Succeed(r.artifact))
    case Failed =>
      if r.reason == ProcessRestart then r.message == ExitedInFlight
      else if r.reason == Expired then
        Faithful(q, id) && id in q.expiredAt && IsExpired(c, q.peeked[id], q.expiredAt[id])
      else Faithful(q, id) && CameFrom(c, q, id, Fail(r.reason, r.message))
  }

  ghost predicate WorkerInv(q: Queue) {
    match q.worker
    case Idle => true
    case Draining => q.boot.Up?
    case Peeked(id, row) =>
      q.boot.Up? && id in q.peeked && q.peeked[id] == row && InStatus(q.rows, id, Pending) && Faithful(q, id) &&
          SameIdentity(q.rows[id], row)
    case Claimed(id, row) =>
      q.boot.Up? && id in q.peeked && q.peeked[id] == row && id in q.rows && SameIdentity(q.rows[id], row) &&
      (q.rows[id].status.Running? || q.rows[id].status.Pending?)
  }

  predicate SameIdentity(r: Row, s: Row) { r.sourceType == s.sourceType && r.sourceID == s.sourceID }

  ghost predicate QueueInv(c: Config, q: Queue) {
    && TableInv(q.rows)
    && WorkerInv(q)
    && (q.wake <= c.buffer)
    && (!q.boot.Up? ==> q.worker.Idle? && q.wake == 0 && q.notifying == 0)
    && (q.boot.Recovering? ==> forall id :: !InStatus(q.rows, id, Running))
    && (forall id :: id in q.rows ==> Provenance(c, q, id))
  }

  lemma {:induction false} SignalsBound(buffer: nat, wake: nat, n: nat)
    requires wake <= buffer
    ensures wake <= Signals(buffer, wake, n) <= buffer
    ensures n > 0 && buffer > 0 ==> Signals(buffer, wake, n) > 0
    decreases n
  {
    if n > 0 { SignalsBound(buffer, Signal(buffer, wake), n - 1); }
  }

  /** A row that keeps its columns, with the same history, keeps its provenance. */
  lemma SameRow(c: Config, q: Queue, q': Queue, id: RowID)
    requires id in q.rows && Provenance(c, q, id) && id in q'.rows && q'.rows[id] == q.rows[id]
    requires q.ran <= q'.ran
    requires q.rows[id].status.Pending? ||
             ((id in q.peeked ==> id in q'.peeked && q'.peeked[id] == q.peeked[id]) &&
              (id in q.window <==> id in q'.window) && (id in q.window ==> q'.window[id] == q.window[id]) &&
              (id in q.expiredAt ==> id in q'.expiredAt && q'.expiredAt[id] == q.expiredAt[id]))
    ensures Provenance(c, q', id)
  {
    var r := q.rows[id];
    if r.status.Done? {
      SameRun(c, q, q', id, Succeed(r.artifact));
    } else if r.status.Failed? && r.reason != ProcessRestart && r.reason != Expired {
      SameRun(c, q, q', id, Fail(r.reason, r.message));
    }
  }

  lemma SameRun(c: Config, q: Queue, q': Queue, id: RowID, v: Verdict)
    requires CameFrom(c, q, id, v) && q.ran <= q'.ran && id in q'.peeked && q'.peeked[id] == q.peeked[id]
    ensures CameFrom(c, q', id, v)
  {
    var n: nat :| RunGave(c, q, n, id, q.peeked[id].payload, v);
    assert RunGave(c, q', n, id, q.peeked[id].payload, v);
  }

  lemma UpsertStep(c: Config, q: Queue, a: Action)
    requires QueueInv(c, q) && a.Upsert? && Enabled(c, q, a)
    ensures QueueInv(c, Next(c, q, a))
  {
    var q' := Next(c, q, a);
    UpsertKeeps(q.rows, a.payload, a.freshID, a.now);
    forall id | id in q'.rows ensures Provenance(c, q', id) {
      if SameKey(q'.rows[id], a.payload) {
        assert q'.rows[id].status.Pending?;
      } else {
        SameRow(c, q, q', id);
      }
    }
  }

  lemma PeekStep(c: Config, q: Queue, a: Action)
    requires QueueInv(c, q) && a.Peek? && Enabled(c, q, a)
    ensures QueueInv(c, Next(c, q, a))
  {
    var q' := Next(c, q, a);
    forall id | id in q'.rows ensures Provenance(c, q', id) {
      if id != a.id { SameRow(c, q, q', id); }
    }
  }

  lemma ExpireStep(c: Config, q: Queue, a: Action)
    requires QueueInv(c, q) && a.Expire? && Enabled(c, q, a)
    ensures QueueInv(c, Next(c, q, a))
  {
    var q', id0 := Next(c, q, a), q.worker.id;
    FailedKeeps(q.rows, id0, Expired, OlderThanExpiry(q.worker.row.createdAt, c.jobExpiry));
    forall id | id in q'.rows ensures Provenance(c, q', id) {
      if id != id0 { SameRow(c, q, q', id); }
    }
  }

  lemma ClaimStep(c: Config, q: Queue, a: Action)
    requires QueueInv(c, q) && a.Claim? && Enabled(c, q, a)
    ensures QueueInv(c, Next(c, q, a)) && Next(c, q, a).worker.Claimed?
  {
    var q', id0 := Next(c, q, a), q.worker.id;
    ClaimKeeps(q.rows, id0);
    forall id | id in q'.rows ensures Provenance(c, q', id) {
      if id != id0 { SameRow(c, q, q', id); }
    }
  }

  lemma VerdictKeeps(t: Table, id: RowID, v: Verdict)
    requires TableInv(t) && (v.Fail? ==> v.reason != NoReason && v.reason != Expired)
    ensures TableInv(Verdicted(t, id, v)) && StableIDs(t, Verdicted(t, id, v))
    ensures forall other :: other in t && other != id ==> Verdicted(t, id, v)[other] == t[other]
    ensures Verdicted(t, id, v) == t || (InStatus(t, id, Running) && Verdicted(t, id, v)[id] ==
              match v
              case Succeed(artifact) => t[id].(status := Done, artifact := artifact)
              case Fail(reason, message) => t[id].(status := Failed, reason := reason, message := message))
  {
    match v {
      case Succeed(artifact) => DoneKeeps(t, id, artifact);
      case Fail(reason, message) => FailedKeeps(t, id, reason, message);
    }
  }

  lemma ProcessStep(c: Config, q: Queue, a: Action)
    requires QueueInv(c, q) && a.Process? && Enabled(c, q, a)
    ensures QueueInv(c, Next(c, q, a))
  {
    var q', id0, row := Next(c, q, a), q.worker.id, q.worker.row;
    var v := VerdictOf(row.payload, c.extract(|q.ran|, row.payload), c.maxWords);
    VerdictKeeps(q.rows, id0, v);
    assert RunGave(c, q', |q.ran|, id0, row.payload, v);
    forall id | id in q'.rows ensures Provenance(c, q', id) {
      if id != id0 || q'.rows == q.rows {
        SameRow(c, q, q', id);
      } else {
        assert Faithful(q', id);
      }
    }
  }

  lemma RecoverStep(c: Config, q: Queue, a: Action)
    requires QueueInv(c, q) && a.Recover? && Enabled(c, q, a)
    ensures QueueInv(c, Next(c, q, a))
  {
    var q' := Next(c, q, a);
    RecoverKeeps(q.rows);
    forall id | id in q'.rows ensures Provenance(c, q', id) {
      if !q.rows[id].status.Running? { SameRow(c, q, q', id); }
    }
  }

  /** Steps that leave the table and the history alone. */
  lemma QuietStep(c: Config, q: Queue, a: Action)
    requires QueueInv(c, q) && Enabled(c, q, a)
    requires a.Notify? || a.Receive? || a.PeekEmpty? || a.PeekFault? || a.ExpireFault? || a.ClaimFault? ||
              a.ProcessFault? || a.Crash? || a.Serve?
    ensures QueueInv(c, Next(c, q, a))
  {
    var q' := Next(c, q, a);
    SignalsBound(c.buffer, q.wake, |PendingIDs(q.rows)|);
    forall id | id in q'.rows ensures Provenance(c, q', id) {
      SameRow(c, q, q', id);
    }
  }

  lemma StepInv(c: Config, q: Queue, a: Action)
    requires QueueInv(c, q) && Enabled(c, q, a)
    ensures QueueInv(c, Next(c, q, a))
  {
    match a
    case Upsert(_, _, _) => UpsertStep(c, q, a);
    case Peek(_) => PeekStep(c, q, a);
    case Expire(_) => ExpireStep(c, q, a);
    case Claim(_) => ClaimStep(c, q, a);
    case Process => ProcessStep(c, q, a);
    case Recover => RecoverStep(c, q, a);
    case _ => QuietStep(c, q, a);
  }

  lemma {:induction false} RunKeeps(c: Config, q: Queue, actions: seq<Action>, t: Queue)
    requires QueueInv(c, q) && Run(c, q, actions) == Some(t)
    ensures QueueInv(c, t)
    decreases |actions|
  {
    if actions != [] {
      StepInv(c, q, actions[0]);
      RunKeeps(c, Next(c, q, actions[0]), actions[1..], t);
    }
  }

  lemma Reachable(c: Config, actions: seq<Action>, q: Queue)
    requires Reaches(c, actions, q)
    ensures QueueInv(c, q)
  {
    RunKeeps(c, START, actions, q);
  }
}
