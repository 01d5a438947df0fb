/** What submitters and readers of extractions may rely on, over every run of the queue. */
module ExtractionGuarantees {
  import opened Common
  import opened ExtractionTable
  import opened ExtractionVerdict
  import opened ExtractionQueue
  import opened ExtractionSafety
  import Text

  // -------------------------------------------------------- wake signals

  /** Pending work is never left with nobody coming for it. */
  ghost predicate Attended(q: Queue) {
    q.boot.Up? && HasPending(q.rows) ==> q.wake > 0 || !q.worker.Idle? || q.notifying > 0
  }

  /** Only a failed peek leaves a row unattended, and no step leaves it that way. */
  lemma AttendedStep(c: Config, q: Queue, a: Action)
    requires c.buffer >= 1 && QueueInv(c, q) && Enabled(c, q, a)
    ensures !Attended(Next(c, q, a)) <==> a.PeekFault? && HasPending(q.rows) && q.wake == 0 && q.notifying == 0
  {
    if a.Serve? && HasPending(q.rows) {
      var id :| InStatus(q.rows, id, Pending);
      assert id in PendingIDs(q.rows);
      SignalsBound(c.buffer, q.wake, |PendingIDs(q.rows)|);
    }
  }

  /**
   No lost wake-up, through any faults, crashes and start-ups: a pending row has a signal buffered, the
   worker short of an empty peek, or a submission about to signal, unless the very last step was a failed
   peek with no signal left.
   */
  lemma NoLostWakeUp(c: Config, actions: seq<Action>, q: Queue)
    requires c.buffer >= 1 && Reaches(c, actions, q)
    ensures !Attended(q) <==>
              && actions != [] && actions[|actions| - 1].PeekFault?
              && HasPending(q.rows) && q.wake == 0 && q.notifying == 0
  {
    if actions != [] {
      var last := |actions| - 1;
      RunSplit(c, START, actions, q);
      var s := Run(c, START, actions[..last]).value;
      Reachable(c, actions[..last], s);
      AttendedStep(c, s, actions[last]);
    }
  }

  /** How many of the actions put a signal up, and how many take one down. */
  function Notifies(actions: seq<Action>): nat {
    if actions == [] then 0 else (if actions[0].Notify? then 1 else 0) + Notifies(actions[1..])
  }

  function Receives(actions: seq<Action>): nat {
    if actions == [] then 0 else (if actions[0].Receive? then 1 else 0) + Receives(actions[1..])
  }

  /** Signals are used up: between start-ups every receive takes one, and only those that found no room are lost. */
  lemma {:induction false} SignalsAccounted(c: Config, q: Queue, actions: seq<Action>, t: Queue)
    requires Run(c, q, actions) == Some(t) && forall k :: 0 <= k < |actions| ==>
              !actions[k].Crash? && !actions[k].Serve?
    ensures t.wake + Receives(actions) <= q.wake + Notifies(actions)
    ensures q.wake + Notifies(actions) <= c.buffer ==> t.wake + Receives(actions) == q.wake + Notifies(actions)
    decreases |actions|
  {
    if actions != [] {
      assert forall k :: 0 <= k < |actions[1..]| ==> actions[1..][k] == actions[k + 1];
      SignalsAccounted(c, Next(c, q, actions[0]), actions[1..], t);
    }
  }

  lemma RunCons(c: Config, q: Queue, a: Action, rest: seq<Action>)
    requires Enabled(c, q, a)
    ensures Run(c, q, [a] + rest) == Run(c, Next(c, q, a), rest)
  {
    assert ([a] + rest)[1..] == rest;
  }

  /** A first submission, with the worker woken for it, whatever comes after. */
  lemma FirstSubmission(c: Config, p: Payload, id: RowID, now: Instant, rest: seq<Action>) returns (q: Queue)
    requires c.buffer >= 1
    ensures q.boot.Up? && q.worker.Draining? && q.wake == 0 && q.notifying == 0 && q.ran == []
    ensures q.lost == {} && q.rows == map[id := FreshRow(p, now)]
    ensures Run(c, START, [Recover] + ([Serve] + ([Upsert(p, id, now)] + ([Notify] + ([Receive] + rest))))) ==
              Run(c, q, rest)
  {
    var q1 := Next(c, START, Recover);
    assert PendingIDs(q1.rows) == {};
    var q2 := Next(c, q1, Serve);
    var q3 := Next(c, q2, Upsert(p, id, now));
    var q4 := Next(c, q3, Notify);
    q := Next(c, q4, Receive);
    RunCons(c, q4, Receive, rest);
    RunCons(c, q3, Notify, [Receive] + rest);
    RunCons(c, q2, Upsert(p, id, now), [Notify] + ([Receive] + rest));
    RunCons(c, q1, Serve, [Upsert(p, id, now)] + ([Notify] + ([Receive] + rest)));
    RunCons(c, START, Recover, [Serve] + ([Upsert(p, id, now)] + ([Notify] + ([Receive] + rest))));
  }

  /** One failed peek is enough to strand a row until the next submission or start-up. */
  lemma PeekFaultStrands(c: Config, p: Payload, id: RowID, now: Instant) returns (q: Queue)
    requires c.buffer >= 1
    ensures Reaches(
              c, [Recover] + ([Serve] + ([Upsert(p, id, now)] + ([Notify] + ([Receive] + ([PeekFault] + []))))), q)
    ensures !Attended(q)
  {
    var q5 := FirstSubmission(c, p, id, now, [PeekFault] + []);
    q := Next(c, q5, PeekFault);
    RunCons(c, q5, PeekFault, []);
    assert InStatus(q.rows, id, Pending);
  }

  /** A submission is picked up, a second one overwrites it before the claim, and the run ends normally. */
  ghost function StaleRun(p: Payload, p': Payload, id: RowID, other: RowID, now: Instant, now': Instant): seq<Action> {
    [Recover] + ([Serve] + ([Upsert(p, id, now)] + ([Notify] + ([Receive] +
    ([Peek(id)] + ([Upsert(p', other, now')] + ([Claim(now)] + ([Process] + ([Notify] + [])))))))))
  }

  /**
   The window is real: a request upserted between peek and claim ends up on a done row whose artifact
   was made from the request before it, and with nothing pending that would make it good.
   */
  lemma StaleArtifact(c: Config, p: Payload, p': Payload, id: RowID, other: RowID, now: Instant, now': Instant)
    returns (q: Queue)
    requires c.buffer >= 1 && c.jobExpiry >= 0 && id != other
    requires p' == p.(pdfPath := p'.pdfPath) && VerdictOf(p, c.extract(0, p), c.maxWords).Succeed?
    ensures Reaches(c, StaleRun(p, p', id, other, now, now'), q)
    ensures InStatus(q.rows, id, Done) && q.rows[id].payload == p' && !HasPending(q.rows) && q.notifying == 0
    ensures Succeed(q.rows[id].artifact) == VerdictOf(p, c.extract(0, p), c.maxWords)
  {
    var q0 := FirstSubmission(c, p, id, now,
        [Peek(id)] + ([Upsert(p', other, now')] + ([Claim(now)] + ([Process] + ([Notify] + [])))));
    var q2 := StalePeek(c, q0, p, p', id, other, now, now', [Claim(now)] + ([Process] + ([Notify] + [])));
    var q3 := StaleClaim(c, q2, p, p', id, now, now', [Process] + ([Notify] + []));
    q := StaleEnd(c, q3, p, p', id, now, now');
  }

  /** Peek, then an upsert that overwrites the peeked row. */
  lemma StalePeek(c: Config, q0: Queue, p: Payload, p': Payload, id: RowID, other: RowID,
                  now: Instant, now': Instant, rest: seq<Action>) returns (q2: Queue)
    requires id != other && p' == p.(pdfPath := p'.pdfPath)
    requires q0.boot.Up? && q0.worker.Draining? && q0.notifying == 0 && q0.ran == []
    requires q0.rows == map[id := FreshRow(p, now)]
    ensures Run(c, q0, [Peek(id)] + ([Upsert(p', other, now')] + rest)) == Run(c, q2, rest)
    ensures q2.boot.Up? && q2.worker == Peeked(id, FreshRow(p, now)) && q2.notifying == 1 && q2.ran == []
    ensures q2.rows == map[id := FreshRow(p', now')]
  {
    assert IsOldestPending(q0.rows, id);
    var q1 := Next(c, q0, Peek(id));
    q2 := Next(c, q1, Upsert(p', other, now'));
    Overwritten(p, p', id, other, now, now');
    RunCons(c, q1, Upsert(p', other, now'), rest);
    RunCons(c, q0, Peek(id), [Upsert(p', other, now')] + rest);
  }

  /** The claim of what is still a pending row. */
  lemma StaleClaim(c: Config, q2: Queue, p: Payload, p': Payload, id: RowID, now: Instant, now': Instant,
                   rest: seq<Action>)
    returns (q3: Queue)
    requires c.jobExpiry >= 0
    requires q2.boot.Up? && q2.worker == Peeked(id, FreshRow(p, now)) && q2.notifying == 1 && q2.ran == []
    requires q2.rows == map[id := FreshRow(p', now')]
    ensures Run(c, q2, [Claim(now)] + rest) == Run(c, q3, rest)
    ensures q3.boot.Up? && q3.worker == Claimed(id, FreshRow(p, now)) && q3.notifying == 1 && q3.ran == []
    ensures q3.rows == map[id := FreshRow(p', now').(status := Running)]
  {
    assert InStatus(q2.rows, id, Pending);
    q3 := Next(c, q2, Claim(now));
    RunCons(c, q2, Claim(now), rest);
  }

  lemma StaleEnd(c: Config, q3: Queue, p: Payload, p': Payload, id: RowID, now: Instant, now': Instant)
    returns (q: Queue)
    requires VerdictOf(p, c.extract(0, p), c.maxWords).Succeed?
    requires q3.boot.Up? && q3.worker == Claimed(id, FreshRow(p, now)) && q3.notifying == 1 && q3.ran == []
    requires q3.rows == map[id := FreshRow(p', now').(status := Running)]
    ensures Run(c, q3, [Process] + ([Notify] + [])) == Some(q)
    ensures InStatus(q.rows, id, Done) && q.rows[id].payload == p' && !HasPending(q.rows) && q.notifying == 0
    ensures Succeed(q.rows[id].artifact) == VerdictOf(p, c.extract(0, p), c.maxWords)
  {
    var q4 := Next(c, q3, Process);
    q := Next(c, q4, Notify);
    RunCons(c, q4, Notify, []);
    RunCons(c, q3, Process, [Notify] + []);
  }

  lemma Overwritten(p: Payload, p': Payload, id: RowID, other: RowID, now: Instant, now': Instant)
    requires id != other && p' == p.(pdfPath := p'.pdfPath)
    ensures Upserted(map[id := FreshRow(p, now)], p', other, now') == map[id := FreshRow(p', now')]
  {
    var t := map[id := FreshRow(p, now)];
    assert id in t && SameKey(t[id], p');
  }

  /** A submission is picked up, a second one overwrites it, and the expiry of the first fails the second. */
  ghost function ExpiryRun(p: Payload, p': Payload, id: RowID, other: RowID, now: Instant, now': Instant,
                           at: Instant): seq<Action> {
    [Recover] + ([Serve] + ([Upsert(p, id, now)] + ([Notify] + ([Receive] +
    ([Peek(id)] + ([Upsert(p', other, now')] + ([Expire(at)] + ([Notify] + []))))))))
  }

  /**
   The same window cuts a resubmission's own expiry window short: a request upserted between peek and
   expiry fails as expired although its time is not up, with nothing pending that would make it good.
   */
  lemma StaleExpiry(c: Config, p: Payload, p': Payload, id: RowID, other: RowID, now: Instant, now': Instant,
                    at: Instant)
    returns (q: Queue)
    requires c.buffer >= 1 && id != other && p' == p.(pdfPath := p'.pdfPath)
    requires now + c.jobExpiry < at <= now' + c.jobExpiry
    ensures Reaches(c, ExpiryRun(p, p', id, other, now, now', at), q)
    ensures InStatus(q.rows, id, Failed) && q.rows[id].reason == Expired && q.rows[id].payload == p'
    ensures id in q.expiredAt && q.expiredAt[id] == at && !IsExpired(c, q.rows[id], at)
    ensures !HasPending(q.rows) && q.notifying == 0
  {
    var q0 := FirstSubmission(c, p, id, now,
        [Peek(id)] + ([Upsert(p', other, now')] + ([Expire(at)] + ([Notify] + []))));
    var q2 := StalePeek(c, q0, p, p', id, other, now, now', [Expire(at)] + ([Notify] + []));
    q := ExpiryEnd(c, q2, p, p', id, now, now', at);
  }

  lemma ExpiryEnd(c: Config, q2: Queue, p: Payload, p': Payload, id: RowID, now: Instant, now': Instant, at: Instant)
    returns (q: Queue)
    requires now + c.jobExpiry < at <= now' + c.jobExpiry
    requires q2.boot.Up? && q2.worker == Peeked(id, FreshRow(p, now)) && q2.notifying == 1
    requires q2.rows == map[id := FreshRow(p', now')]
    ensures Run(c, q2, [Expire(at)] + ([Notify] + [])) == Some(q)
    ensures InStatus(q.rows, id, Failed) && q.rows[id].reason == Expired && q.rows[id].payload == p'
    ensures id in q.expiredAt && q.expiredAt[id] == at && !IsExpired(c, q.rows[id], at)
    ensures !HasPending(q.rows) && q.notifying == 0
  {
    var q3 := Next(c, q2, Expire(at));
    q := Next(c, q3, Notify);
    RunCons(c, q3, Notify, []);
    RunCons(c, q2, Expire(at), [Notify] + []);
  }

  // ----------------------------------------------------- the row machine

  /** The changes a stored row may undergo. */
  predicate MayBecome(r: Row, r': Row) {
    || r' == r
    || (SameIdentity(r, r') && r' == FreshRow(r'.payload, r'.createdAt))                       // resubmitted
    || (r.status.Pending? && r' == r.(status := Running))                                      // claimed
    || (r.status.Pending? && r' == r.(status := Failed, reason := Expired, message := r'.message))
    || (r.status.Running? && r'.status.Done? && r' == r.(status := Done, artifact := r'.artifact))
    || (r.status.Running? && r'.reason != Expired && r'.reason != NoReason &&
        r' == r.(status := Failed, reason := r'.reason, message := r'.message))
  }

  lemma UpsertMoves(t: Table, p: Payload, freshID: RowID, now: Instant, id: RowID)
    requires TableInv(t) && freshID !in t && id in t
    ensures var u := Upserted(t, p, freshID, now);
            id in u && MayBecome(t[id], u[id]) && (u[id] != t[id] ==> SameKey(t[id], p) && u[id] == FreshRow(p, now))
  {
    UpsertKeeps(t, p, freshID, now);
  }

  lemma PickupMoves(t: Table, updated: RowID, message: Message, id: RowID)
    requires id in t
    ensures id in ClaimedIn(t, updated) && MayBecome(t[id], ClaimedIn(t, updated)[id])
    ensures var u := FailedIn(t, updated, Expired, message); id in u && MayBecome(t[id], u[id])
    ensures !t[id].status.Pending? ==> ClaimedIn(t, updated)[id] == t[id] == FailedIn(t, updated, Expired, message)[id]
  {
  }

  lemma VerdictMoves(t: Table, updated: RowID, v: Verdict, id: RowID)
    requires (v.Fail? ==> v.reason != Expired && v.reason != NoReason)
    ensures var u := Verdicted(t, updated, v);
            && (id in u <==> id in t)
            && (id in t ==> MayBecome(t[id], u[id]) && (!t[id].status.Running? ==> u[id] == t[id]))
  {
  }

  lemma RowStep(c: Config, q: Queue, a: Action, id: RowID)
    requires QueueInv(c, q) && Enabled(c, q, a) && id in q.rows
    ensures id in Next(c, q, a).rows && MayBecome(q.rows[id], Next(c, q, a).rows[id])
    ensures var r, r' := q.rows[id], Next(c, q, a).rows[id];
            (r.status.Done? || r.status.Failed?) && r' != r ==>
              a.Upsert? && SameKey(r, a.payload) && r' == FreshRow(a.payload, a.now)
  {
    if a.Upsert? {
      UpsertMoves(q.rows, a.payload, a.freshID, a.now, id);
    } else if a.Process? {
      var p := q.worker.row.payload;
      VerdictMoves(q.rows, q.worker.id, VerdictOf(p, c.extract(|q.ran|, p), c.maxWords), id);
    } else if a.Recover? {
      RecoverKeeps(q.rows);
    } else if a.Expire? || a.Claim? {
      PickupMoves(q.rows, q.worker.id, OlderThanExpiry(q.worker.row.createdAt, c.jobExpiry), id);
    }
  }

  /** Every step moves every row along the state machine, and only a resubmission leaves done or failed. */
  lemma RowMachine(c: Config, actions: seq<Action>, q: Queue, a: Action, id: RowID)
    requires Reaches(c, actions, q) && Enabled(c, q, a) && id in q.rows
    ensures TableInv(q.rows) && id in Next(c, q, a).rows && MayBecome(q.rows[id], Next(c, q, a).rows[id])
    ensures var r, r' := q.rows[id], Next(c, q, a).rows[id];
            (r.status.Done? || r.status.Failed?) && r' != r ==>
              a.Upsert? && SameKey(r, a.payload) && r' == FreshRow(a.payload, a.now)
    ensures Next(c, q, a).boot.Recovering? ==> !InStatus(Next(c, q, a).rows, id, Running)
  {
    Reachable(c, actions, q);
    RowStep(c, q, a, id);
    StepInv(c, q, a);
  }

  // ------------------------------------------------------- what is running

  /** The row the worker holds, while it is running. */
  ghost predicate Held(q: Queue, id: RowID) { q.worker.Claimed? && q.worker.id == id && InStatus(q.rows, id, Running) }

  /** While the process is up, nothing is running but what the worker holds. */
  ghost predicate SingleRun(q: Queue) { forall id :: InStatus(q.rows, id, Running) ==> Held(q, id) }

  /** The running rows are those whose final update was lost and the one the worker holds. */
  ghost predicate LostInv(q: Queue) {
    && (forall id :: InStatus(q.rows, id, Running) <==> id in q.lost || Held(q, id))
    && (q.worker.Claimed? ==> q.worker.id !in q.lost)
  }

  lemma LostUpsert(c: Config, q: Queue, a: Action)
    requires QueueInv(c, q) && LostInv(q) && Enabled(c, q, a) && a.Upsert?
    ensures LostInv(Next(c, q, a))
  {
    UpsertKeeps(q.rows, a.payload, a.freshID, a.now);
    var q' := Next(c, q, a);
    forall id
      ensures InStatus(q'.rows, id, Running) <==> InStatus(q.rows, id, Running) && !SameKey(q.rows[id], a.payload)
    {
      if id in q.rows { UpsertMoves(q.rows, a.payload, a.freshID, a.now, id); }
    }
  }

  lemma LostProcess(c: Config, q: Queue, a: Action)
    requires QueueInv(c, q) && LostInv(q) && Enabled(c, q, a) && a.Process?
    ensures LostInv(Next(c, q, a))
  {
    var p, id0 := q.worker.row.payload, q.worker.id;
    var v := VerdictOf(p, c.extract(|q.ran|, p), c.maxWords);
    VerdictKeeps(q.rows, id0, v);
    StopsVerdict(q.rows, id0, v);
  }

  /** A verdict leaves its row not running, and every other row as it was. */
  lemma StopsVerdict(t: Table, id0: RowID, v: Verdict)
    requires v.Fail? ==> v.reason != Expired
    ensures forall id :: InStatus(Verdicted(t, id0, v), id, Running) <==> InStatus(t, id, Running) && id != id0
  {
  }

  lemma LostFault(c: Config, q: Queue, a: Action)
    requires LostInv(q) && Enabled(c, q, a) && a.ProcessFault?
    ensures LostInv(Next(c, q, a))
  {
  }

  lemma LostStep(c: Config, q: Queue, a: Action)
    requires QueueInv(c, q) && (q.boot.Down? || LostInv(q)) && Enabled(c, q, a)
    ensures Next(c, q, a).boot.Down? || LostInv(Next(c, q, a))
  {
    if a.Recover? {
      RecoverKeeps(q.rows);
    } else if a.Upsert? {
      LostUpsert(c, q, a);
    } else if a.Process? {
      LostProcess(c, q, a);
    } else if a.ProcessFault? {
      LostFault(c, q, a);
    }
  }

  lemma {:induction false} LostRun(c: Config, q: Queue, actions: seq<Action>, t: Queue)
    requires QueueInv(c, q) && (q.boot.Down? || LostInv(q)) && Run(c, q, actions) == Some(t)
    ensures t.boot.Down? || LostInv(t)
    decreases |actions|
  {
    if actions != [] {
      StepInv(c, q, actions[0]);
      LostStep(c, q, actions[0]);
      LostRun(c, Next(c, q, actions[0]), actions[1..], t);
    }
  }

  /**
   While the process is up the running rows are exactly those whose final update was lost since they were
   claimed, and the one the worker holds; so at most one row is running if and only if none was lost.
   */
  lemma AtMostOneRunning(c: Config, actions: seq<Action>, q: Queue)
    requires Reaches(c, actions, q) && !q.boot.Down?
    ensures forall id :: InStatus(q.rows, id, Running) <==> id in q.lost || Held(q, id)
    ensures SingleRun(q) <==> q.lost == {}
  {
    LostRun(c, START, actions, q);
    if q.lost != {} {
      var id :| id in q.lost;
      assert InStatus(q.rows, id, Running) && !Held(q, id);
    }
  }

  /** Losing the final update of a run is enough to leave a row running that nobody holds. */
  lemma LostUpdateStrands(c: Config, p: Payload, id: RowID, now: Instant) returns (q: Queue)
    requires c.buffer >= 1 && c.jobExpiry >= 0
    ensures Reaches(c, [Recover] + ([Serve] + ([Upsert(p, id, now)] + ([Notify] + ([Receive] +
                       ([Peek(id)] + ([Claim(now)] + ([ProcessFault] + []))))))), q)
    ensures q.lost == {id} && InStatus(q.rows, id, Running) && !SingleRun(q)
  {
    var q0 := FirstSubmission(c, p, id, now, [Peek(id)] + ([Claim(now)] + ([ProcessFault] + [])));
    assert IsOldestPending(q0.rows, id);
    var q1 := Next(c, q0, Peek(id));
    assert InStatus(q1.rows, id, Pending);
    var q2 := Next(c, q1, Claim(now));
    q := Next(c, q2, ProcessFault);
    RunCons(c, q2, ProcessFault, []);
    RunCons(c, q1, Claim(now), [ProcessFault] + []);
    RunCons(c, q0, Peek(id), [Claim(now)] + ([ProcessFault] + []));
    assert InStatus(q.rows, id, Running) && !Held(q, id);
  }

  // ----------------------------------------------------------- provenance

  /** Some extractor run for the row, on the payload peeked for it, came to this verdict by what it returned. */
  ghost predicate FromRun(c: Config, q: Queue, id: RowID, v: Verdict) {
    id in q.peeked && exists n: nat :: RunMade(c, q, n, id, q.peeked[id].payload, v)
  }

  ghost predicate RunMade(c: Config, q: Queue, n: nat, id: RowID, p: Payload, v: Verdict) {
    n < |q.ran| && q.ran[n] == (id, p) && Judged(p, c.extract(n, p), c.maxWords, v)
  }

  lemma CameFromRun(c: Config, q: Queue, id: RowID, v: Verdict)
    requires CameFrom(c, q, id, v)
    ensures FromRun(c, q, id, v)
  {
    var p := q.peeked[id].payload;
    var n: nat :| RunGave(c, q, n, id, p, v);
    VerdictIsJudged(p, c.extract(n, p), c.maxWords);
    assert RunMade(c, q, n, id, p, v);
  }

  /**
   A done row's artifact is the verdict of an extractor run for that row on the payload last peeked for
   it. That is the row's current payload exactly when the last upsert between peek and claim, if any,
   repeated it.
   */
  lemma DoneProvenance(c: Config, actions: seq<Action>, q: Queue, id: RowID)
    requires Reaches(c, actions, q) && InStatus(q.rows, id, Done)
    ensures CameFrom(c, q, id, Succeed(q.rows[id].artifact)) && FromRun(c, q, id, Succeed(q.rows[id].artifact))
    ensures q.rows[id].payload == q.peeked[id].payload <==>
              id !in q.window || q.window[id].payload == q.peeked[id].payload
    ensures q.rows[id].artifact.wordCount <= c.maxWords
    ensures q.rows[id].artifact.wordCount == Text.WordCount(q.rows[id].artifact.body)
  {
    Reachable(c, actions, q);
    assert Provenance(c, q, id);
    var p := q.peeked[id].payload;
    var n: nat :| RunGave(c, q, n, id, p, Succeed(q.rows[id].artifact));
    CameFromRun(c, q, id, Succeed(q.rows[id].artifact));
    WordGate(p, c.extract(n, p), c.maxWords);
  }

  /** Run `n`, made for row `id` on payload `p`, extracted a raw text over the threshold. */
  predicate RanOver(c: Config, q: Queue, n: nat, id: RowID, p: Payload) {
    n < |q.ran| && q.ran[n] == (id, p) && c.extract(n, p).Extracted? &&
        Text.WordCount(c.extract(n, p).markdown) > c.maxWords
  }

  /**
   A failed row's reason is the verdict of a run for that row on the peeked payload, an expiry of the
   peeked request, or a restart; `too_large` only ever names a document whose raw text exceeds the threshold.
   */
  lemma FailedProvenance(c: Config, actions: seq<Action>, q: Queue, id: RowID)
    requires Reaches(c, actions, q) && InStatus(q.rows, id, Failed) && q.rows[id].reason != ProcessRestart
    ensures q.rows[id].reason == Expired ==>
              id in q.peeked && id in q.expiredAt && q.expiredAt[id] > q.peeked[id].createdAt + c.jobExpiry
    ensures q.rows[id].reason != Expired ==>
              && CameFrom(c, q, id, Fail(q.rows[id].reason, q.rows[id].message))
              && FromRun(c, q, id, Fail(q.rows[id].reason, q.rows[id].message))
    ensures q.rows[id].reason == TooLarge ==>
              id in q.peeked && exists n: nat :: RanOver(c, q, n, id, q.peeked[id].payload)
  {
    Reachable(c, actions, q);
    assert Provenance(c, q, id);
    if q.rows[id].reason != Expired { CameFromRun(c, q, id, Fail(q.rows[id].reason, q.rows[id].message)); }
    if q.rows[id].reason == TooLarge {
      var p := q.peeked[id].payload;
      var n: nat :| RunGave(c, q, n, id, p, Fail(q.rows[id].reason, q.rows[id].message));
      WordGate(p, c.extract(n, p), c.maxWords);
      assert RanOver(c, q, n, id, p);
    }
  }

  /**
   The request an expired row stands for had itself expired exactly when none was upserted between the
   peek and the expiry, or the last one upserted there had no more time left either.
   */
  lemma ExpiredOwnRequest(c: Config, actions: seq<Action>, q: Queue, id: RowID)
    requires Reaches(c, actions, q) && InStatus(q.rows, id, Failed) && q.rows[id].reason == Expired
    ensures id in q.peeked && id in q.expiredAt
    ensures q.expiredAt[id] > q.rows[id].createdAt + c.jobExpiry <==>
              id !in q.window || q.expiredAt[id] > q.window[id].createdAt + c.jobExpiry
  {
    Reachable(c, actions, q);
    assert Provenance(c, q, id);
  }

  predicate Submissions(actions: seq<Action>) {
    forall k :: 0 <= k < |actions| ==> actions[k].Upsert? || actions[k].Notify?
  }

  /** The last request upserted under the row's key, if any. */
  function LastRequest(actions: seq<Action>, r: Row): Option<Request>
    decreases |actions|
  {
    if actions == [] then None
    else
      var last := actions[|actions| - 1];
      if last.Upsert? && SameKey(r, last.payload) then Some(Request(last.payload, last.now))
      else LastRequest(actions[..|actions| - 1], r)
  }

  /**
   A request upserted after the claim survives the run it overtook: whatever that run ends with, its
   update is refused and the row stays pending with the newest request.
   */
  lemma NewRequestSurvives(c: Config, q: Queue, mid: seq<Action>, t: Queue)
    requires QueueInv(c, q) && q.worker.Claimed? && Submissions(mid) && Run(c, q, mid) == Some(t)
    requires LastRequest(mid, q.worker.row).Some?
    ensures var id, request := q.worker.id, LastRequest(mid, q.worker.row).value;
            && t.worker == q.worker && id in t.rows
            && t.rows[id] == FreshRow(request.payload, request.createdAt)
            && Next(c, t, Process).rows == t.rows && Next(c, t, ProcessFault).rows == t.rows
  {
    Overtaken(c, q, mid, t);
    Refused(c, t);
  }

  /** The guarded update of a row that is no longer running changes nothing. */
  lemma Refused(c: Config, q: Queue)
    requires q.worker.Claimed?
    ensures !InStatus(q.rows, q.worker.id, Running) ==> Next(c, q, Process).rows == q.rows
    ensures Next(c, q, ProcessFault).rows == q.rows
  {
  }

  lemma {:induction false} Overtaken(c: Config, q: Queue, mid: seq<Action>, t: Queue)
    requires QueueInv(c, q) && q.worker.Claimed? && Submissions(mid) && Run(c, q, mid) == Some(t)
    ensures t.worker == q.worker && QueueInv(c, t)
    ensures match LastRequest(mid, q.worker.row)
            case None => t.rows[q.worker.id] == q.rows[q.worker.id]
            case Some(request) => t.rows[q.worker.id] == FreshRow(request.payload, request.createdAt)
    decreases |mid|
  {
    if mid != [] {
      var last := |mid| - 1;
      RunSplit(c, q, mid, t);
      var s := Run(c, q, mid[..last]).value;
      assert forall k :: 0 <= k < last ==> mid[..last][k] == mid[k];
      Overtaken(c, q, mid[..last], s);
      OvertakenStep(c, s, mid[last]);
    }
  }

  lemma OvertakenStep(c: Config, q: Queue, a: Action)
    requires QueueInv(c, q) && q.worker.Claimed? && Enabled(c, q, a) && (a.Upsert? || a.Notify?)
    ensures var t, id := Next(c, q, a), q.worker.id;
            && QueueInv(c, t) && t.worker == q.worker && id in q.rows && id in t.rows
            && t.rows[id] ==
               if a.Upsert? && SameKey(q.worker.row, a.payload) then FreshRow(a.payload, a.now) else q.rows[id]
  {
    StepInv(c, q, a);
    if a.Upsert? {
      UpsertKeeps(q.rows, a.payload, a.freshID, a.now);
    }
  }

  lemma {:induction false} RunSplit(c: Config, q: Queue, actions: seq<Action>, t: Queue)
    requires actions != [] && Run(c, q, actions) == Some(t)
    ensures var last := |actions| - 1;
            Run(c, q, actions[..last]).Some? && Enabled(c, Run(c, q, actions[..last]).value, actions[last]) &&
            t == Next(c, Run(c, q, actions[..last]).value, actions[last])
    decreases |actions|
  {
    if |actions| == 1 {
      assert actions[..0] == [] && actions[1..] == [];
    } else {
      RunSplit(c, Next(c, q, actions[0]), actions[1..], t);
      assert actions[1..][..|actions| - 2] == actions[..|actions| - 1][1..];
    }
  }
}
