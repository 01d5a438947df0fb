/** What a job's entries, snapshots and summary say about the downloads and the clock readings they come from. */
module DownloadRecords {
  import opened Common
  import opened DownloadTypes
  import opened DownloadProtocol
  import opened DownloadSafety
  import opened DownloadGuarantees

  /** What has to be on record for one attempt: success means stored, and every error keeps its kind and text. */
  predicate Recorded(e: EntryResult, r: Request, outcome: EnsureOutcome, at: Instant) {
    && e.paperID == r.paperID && e.completedAt == at
    && (e.status == Success <==> outcome.Stored?) && (e.status == Failed <==> !outcome.Stored?)
    && match outcome
       case Stored(Some(size)) => e.category == "" && e.description == "" && e.bytes == size
       case Stored(None) => e.category == "" && e.description == "" && e.bytes == 0
       case InvalidKey(text) => e.category == "invalid_key" && e.description == text && e.bytes == 0
       case FetchError(text) => e.category == "fetch" && e.description == text && e.bytes == 0
       case StoreError(text) => e.category == "store" && e.description == text && e.bytes == 0
       case OtherError(text) => e.category == "unknown" && e.description == text && e.bytes == 0
  }

  /** An entry nobody has attempted yet. */
  predicate Untouched(e: EntryResult, r: Request) {
    e == EntryResult(r.paperID, Pending, 0, "", "", 0)
  }

  lemma AttemptRecorded(r: Request, outcome: EnsureOutcome, at: Instant)
    ensures Recorded(RunEntry(r, outcome, at), r, outcome, at)
  {
  }

  /** The attempts of a run, in order. */
  function Attempts(actions: seq<Action>): (attempts: seq<(EnsureOutcome, Instant)>)
    ensures |attempts| <= |actions|
  {
    if actions == [] then []
    else (if actions[0].Work? then [(actions[0].outcome, actions[0].at)] else []) + Attempts(actions[1..])
  }

  lemma {:induction false} AttemptsAppend(a: seq<Action>, b: seq<Action>)
    ensures Attempts(a + b) == Attempts(a) + Attempts(b)
  {
    if a == [] {
      assert a + b == b;
    } else {
      var first := if a[0].Work? then [(a[0].outcome, a[0].at)] else [];
      assert (a + b)[0] == a[0] && (a + b)[1..] == a[1..] + b;
      AttemptsAppend(a[1..], b);
      assert first + (Attempts(a[1..]) + Attempts(b)) == (first + Attempts(a[1..])) + Attempts(b);
    }
  }

  lemma {:induction false} NoAttempts(actions: seq<Action>)
    requires forall k :: 0 <= k < |actions| ==> !actions[k].Work?
    ensures Attempts(actions) == []
  {
    if actions != [] {
      assert forall k :: 0 <= k < |actions[1..]| ==> actions[1..][k] == actions[k + 1];
      NoAttempts(actions[1..]);
    }
  }

  /** How many entries the worker has been through. */
  function Done(s: System): nat { if s.next <= |s.job.requests| then s.next else |s.job.requests| }

  /** The attempts fill the entries one by one from where the worker stood; every other entry stays. */
  ghost predicate Fills(s: System, attempts: seq<(EnsureOutcome, Instant)>, t: System) {
    && t.job.requests == s.job.requests && |t.job.entries| == |s.job.entries| == |s.job.requests|
    && Done(s) + |attempts| == Done(t)
    && (forall k :: 0 <= k < |s.job.entries| && (k < Done(s) || Done(t) <= k) ==> t.job.entries[k] == s.job.entries[k])
    && (forall k :: Done(s) <= k < Done(t) ==>
          Recorded(t.job.entries[k], s.job.requests[k], attempts[k - Done(s)].0, attempts[k - Done(s)].1))
  }

  lemma OneFills(s: System, a: Action)
    requires Enabled(s, a) && |s.job.entries| == |s.job.requests|
    ensures Fills(s, Attempts([a]), Next(s, a))
  {
    assert [a][1..] == [];
    if a.Work? {
      AttemptRecorded(s.job.requests[s.next], a.outcome, a.at);
    }
  }

  lemma FillsOn(s: System, a: seq<(EnsureOutcome, Instant)>, t: System, b: seq<(EnsureOutcome, Instant)>, u: System)
    requires Fills(s, a, t) && Fills(t, b, u)
    ensures Fills(s, a + b, u)
  {
    forall k | Done(s) <= k < Done(u)
      ensures Recorded(u.job.entries[k], s.job.requests[k], (a + b)[k - Done(s)].0, (a + b)[k - Done(s)].1)
    {
      if k < Done(t) {
        assert (a + b)[k - Done(s)] == a[k - Done(s)];
      } else {
        assert (a + b)[k - Done(s)] == b[k - Done(t)];
      }
    }
  }

  lemma {:induction false} RunFills(s: System, actions: seq<Action>, t: System)
    requires Run(s, actions) == Some(t) && |s.job.entries| == |s.job.requests|
    ensures Fills(s, Attempts(actions), t)
    decreases |actions|
  {
    if actions != [] {
      var a, rest := actions[0], actions[1..];
      OneFills(s, a);
      RunFills(Next(s, a), rest, t);
      FillsOn(s, Attempts([a]), Next(s, a), Attempts(rest), t);
      assert actions == [a] + rest;
      AttemptsAppend([a], rest);
    }
  }

  lemma FilledFromZero(s: System, attempts: seq<(EnsureOutcome, Instant)>, t: System)
    requires Fills(s, attempts, t) && s.next == 0
    ensures |attempts| == Done(t) <= |t.job.entries|
    ensures forall k :: 0 <= k < Done(t) ==>
              Recorded(t.job.entries[k], s.job.requests[k], attempts[k].0, attempts[k].1)
    ensures forall k :: Done(t) <= k < |t.job.entries| ==> t.job.entries[k] == s.job.entries[k]
  {
    forall k | 0 <= k < Done(t) ensures Recorded(t.job.entries[k], s.job.requests[k], attempts[k].0, attempts[k].1) {
      assert attempts[k - Done(s)] == attempts[k];
    }
  }

  lemma FromStart(id: JobID, requests: seq<Request>, buffer: nat, actions: seq<Action>, s: System)
    requires Reaches(id, requests, buffer, actions, s)
    ensures Inv(s) && s.job.id == id && s.job.requests == requests && |s.job.entries| == |requests|
    ensures |Attempts(actions)| == Done(s)
    ensures forall k :: 0 <= k < Done(s) ==>
              Recorded(s.job.entries[k], requests[k], Attempts(actions)[k].0, Attempts(actions)[k].1)
    ensures forall k :: Done(s) <= k < |requests| ==> Untouched(s.job.entries[k], requests[k])
  {
    var s0 := Start(id, requests, buffer);
    RunInv(id, requests, buffer, actions, s);
    RunFills(s0, actions, s);
    FilledFromZero(s0, Attempts(actions), s);
    assert forall k :: 0 <= k < |requests| ==> Untouched(s0.job.entries[k], requests[k]);
  }

  /** A run of the worker from its first request through as many attempts as there are requests records them all. */
  lemma AllRecorded(s: System, attempts: seq<(EnsureOutcome, Instant)>, t: System)
    requires Fills(s, attempts, t) && s.next == 0 && |attempts| == |s.job.requests|
    ensures |t.job.entries| == |attempts| && t.job.requests == s.job.requests
    ensures forall k :: 0 <= k < |attempts| ==>
              Recorded(t.job.entries[k], s.job.requests[k], attempts[k].0, attempts[k].1)
  {
    FilledFromZero(s, attempts, t);
  }

  /**
   Over every run, entry k is what the k-th attempt came to: success exactly for a stored download, with
   its size when known, the error's kind and text otherwise. Entries not yet attempted are untouched.
   */
  lemma EntriesRecord(id: JobID, requests: seq<Request>, buffer: nat, actions: seq<Action>, s: System)
    requires Reaches(id, requests, buffer, actions, s)
    ensures var n, attempts := |requests|, Attempts(actions);
            && |s.job.entries| == n && |attempts| <= n && |attempts| <= |s.job.events|
            && (forall k :: 0 <= k < |attempts| ==>
                  && Recorded(s.job.entries[k], requests[k], attempts[k].0, attempts[k].1)
                  && s.job.events[k] == Event.Progress(id, s.job.entries[k]))
            && (forall k :: |attempts| <= k < n ==> Untouched(s.job.entries[k], requests[k]))
            && (s.job.completed ==> |attempts| == n)
  {
    FromStart(id, requests, buffer, actions, s);
  }

  // -------------------------------------------------------------- counts

  /** The entries with a status, as a set of positions. */
  function WithStatus(entries: seq<EntryResult>, status: EntryStatus): set<nat> {
    set k: nat | k < |entries| && entries[k].status == status
  }

  lemma {:induction false} CountIsSize(entries: seq<EntryResult>, status: EntryStatus)
    ensures CountStatus(entries, status) == |WithStatus(entries, status)|
  {
    if entries != [] {
      var last := |entries| - 1;
      CountIsSize(entries[..last], status);
      var before := WithStatus(entries[..last], status);
      if entries[last].status == status {
        assert WithStatus(entries, status) == before + {last};
      } else {
        assert WithStatus(entries, status) == before;
      }
    }
  }

  /** The attempts that stored their file. */
  function StoredAt(attempts: seq<(EnsureOutcome, Instant)>): set<nat> {
    set k: nat | k < |attempts| && attempts[k].0.Stored?
  }

  /** In every reachable state a snapshot counts exactly the stored and the other attempts so far. */
  lemma SnapshotCountsDownloads(id: JobID, requests: seq<Request>, buffer: nat, actions: seq<Action>, s: System)
    requires Reaches(id, requests, buffer, actions, s)
    ensures var snap, attempts := Snapshot(s.job), Attempts(actions);
            && snap.jobID == id && snap.total == |requests| && snap.entries == s.job.entries
            && snap.succeeded == |StoredAt(attempts)| <= |attempts| && snap.failed == |attempts| - |StoredAt(attempts)|
  {
    var entries, attempts := s.job.entries, Attempts(actions);
    FromStart(id, requests, buffer, actions, s);
    CountIsSize(entries, Success);
    CommittedCount(entries, s.next);
    assert WithStatus(entries, Success) == StoredAt(attempts);
  }

  // --------------------------------------------------------------- dates

  /** What a snapshot of these fields has to hold. */
  function Projection(id: JobID, total: nat, entries: seq<EntryResult>, completed: bool,
                      completedAt: Instant): JobSnapshot {
    JobSnapshot(id, total, |WithStatus(entries, Success)|, |WithStatus(entries, Failed)|,
                completed, completedAt, entries)
  }

  lemma SnapshotIsProjection(j: Job, completed: bool, at: Instant)
    ensures SnapshotOf(j, completed, at) == Projection(j.id, |j.requests|, j.entries, completed, at)
  {
    CountIsSize(j.entries, Success);
    CountIsSize(j.entries, Failed);
  }

  /** The job is complete, dated `at`, and its log closes with a summary of all entries with that date. */
  predicate Closed(j: Job, at: Instant) {
    && j.completed && j.completedAt == at && j.events != []
    && j.events[|j.events| - 1] == Event.Summary(j.id, Projection(j.id, |j.requests|, j.entries, true, at))
  }

  /** The same, of a job whose worker went through all requests. */
  ghost predicate Dated(j: Job, at: Instant) { Closed(j, at) && |j.events| == |j.requests| + 1 }

  lemma FinishCloses(j: Job, at: Instant)
    ensures Closed(FinishJob(j, at), at) && FinishJob(j, at).entries == j.entries
  {
    SnapshotIsProjection(j, true, at);
  }

  lemma FinishDates(s: System, at: Instant)
    requires LogInv(s) && Enabled(s, Finish(at))
    ensures Dated(Next(s, Finish(at)).job, at)
  {
    FinishCloses(s.job, at);
  }

  lemma StaysDated(s: System, a: Action, at: Instant)
    requires LogInv(s) && Enabled(s, a) && Dated(s.job, at)
    ensures Dated(Next(s, a).job, at) && !a.Finish? && !a.Work?
  {
  }

  lemma {:induction false} RunDates(s: System, actions: seq<Action>, t: System, at: Instant)
    requires Inv(s) && Run(s, actions) == Some(t)
    requires s.job.completed ==> Dated(s.job, s.job.completedAt)
    ensures t.job.completed ==> Dated(t.job, t.job.completedAt)
    ensures t.job.completed && t.job.completedAt == at <==>
              (s.job.completed && s.job.completedAt == at) || Finish(at) in actions
    ensures t.job.completed <==> s.job.completed || exists i :: 0 <= i < |actions| && actions[i].Finish?
    decreases |actions|
  {
    if actions != [] {
      var a, rest, s1 := actions[0], actions[1..], Next(s, actions[0]);
      StepInv(s, a);
      if a.Finish? {
        FinishDates(s, a.at);
      } else if s.job.completed {
        StaysDated(s, a, s.job.completedAt);
      }
      RunDates(s1, rest, t, at);
      assert actions == [a] + rest;
    }
  }

  /**
   The worker's end dates the job: it is complete exactly once the worker has ended, its date is the clock
   reading of that step, and its log closes with a summary of all entries carrying the same date.
   */
  lemma CompletionDate(id: JobID, requests: seq<Request>, buffer: nat, actions: seq<Action>, s: System, at: Instant)
    requires Reaches(id, requests, buffer, actions, s)
    ensures s.job.completed && s.job.completedAt == at <==> Finish(at) in actions
    ensures s.job.completed <==> exists i :: 0 <= i < |actions| && actions[i].Finish?
    ensures Finish(at) in actions ==> Dated(s.job, at)
  {
    StartInv(id, requests, buffer);
    RunDates(Start(id, requests, buffer), actions, s, at);
  }
}
