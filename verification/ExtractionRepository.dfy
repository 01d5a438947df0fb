/** The row store and the wake channel as objects, and the submission that uses both. */
module ExtractionRepository {
  import opened Common
  import opened ExtractionTable
  import Q = ExtractionQueue
  import opened Text

  datatype StoreError = CatalogueUnavailable | InvalidTransition

  datatype PriorState = PriorState(status: Status, reason: Reason)

  /** The request is the row's own again, pending and without an outcome, and no other row has changed. */
  ghost predicate Requested(before: Table, after: Table, p: Payload, now: Instant, id: RowID) {
    && id in after && after.Keys == before.Keys + {id}
    && after[id] == Row(p.sourceType, p.sourceID, Pending, p, Artifact("", "", "", 0), NoReason, NoMessage, now)
    && (forall k :: k in before && k != id ==> after[k] == before[k])
    && (forall k :: k in before ==>
         (before[k].sourceType == p.sourceType && before[k].sourceID == p.sourceID <==> k == id))
  }

  lemma UpsertRequests(t: Table, p: Payload, freshID: RowID, now: Instant, id: RowID)
    requires TableInv(t) && freshID !in t && (if HasKey(t, p) then id in t && SameKey(t[id], p) else id == freshID)
    ensures Requested(t, Upserted(t, p, freshID, now), p, now, id)
  {
    UpsertKeeps(t, p, freshID, now);
    forall k | k in t && SameKey(t[k], p) ensures k == id {
      assert RowInv(t[id]) && SameKey(t[k], t[id].payload);
    }
  }

  lemma RecoveredCount(t: Table)
    ensures t == Recovered(t) <==> |set id | id in t && t[id].status.Running?| == 0
  {
    var running := set id | id in t && t[id].status.Running?;
    if running == {} {
      assert forall id :: id in t ==> id !in running;
    } else {
      var id :| id in running;
      assert Recovered(t)[id] != t[id];
    }
  }

  /** A `fault` argument stands for the storage failing that call; a failed call stores nothing. */
  class Repository {
    var rows: Table
    var nextID: RowID  // source of fresh ids

    ghost predicate Valid()
      reads this
    {
      TableInv(rows) && forall id :: id in rows ==> id < nextID
    }

    constructor ()
      ensures Valid() && rows == map[]
    {
      rows, nextID := map[], 0;
    }

    /** Insert a pending row, or overwrite the row with the same key, keeping its id and reporting its prior state. */
    method Upsert(payload: Payload, now: Instant, fault: bool)
      returns (id: RowID, prior: Option<PriorState>, err: Option<StoreError>)
      requires Valid()
      modifies this
      ensures Valid()
      ensures fault ==> err == Some(CatalogueUnavailable) && rows == old(rows)
      ensures !fault ==>
                && err == None && rows == Upserted(old(rows), payload, old(nextID), now)
                && Requested(old(rows), rows, payload, now, id) && (prior.Some? <==> id in old(rows))
                && (prior.Some? ==> prior.value == PriorState(old(rows)[id].status, old(rows)[id].reason))
    {
      id, prior, err := nextID, None, None;
      if fault { return id, None, Some(CatalogueUnavailable); }
      UpsertKeeps(rows, payload, nextID, now);
      var hits := set k | k in rows && SameKey(rows[k], payload);
      if hits == {} {
        assert forall k :: k in rows ==> k !in hits;
        UpsertRequests(rows, payload, nextID, now, id);
        rows := rows[id := FreshRow(payload, now)];
        nextID := nextID + 1;
      } else {
        id :| id in hits;
        UpsertRequests(rows, payload, nextID, now, id);
        prior := Some(PriorState(rows[id].status, rows[id].reason));
        rows := map k | k in rows :: if SameKey(rows[k], payload) then Reset(rows[k], payload, now) else rows[k];
      }
    }

    /** A row of `ids` that none of them predates, as an ascending ORDER BY created_at puts it first. */
    method Oldest(ids: set<RowID>) returns (oldest: RowID)
      requires ids != {} && ids <= rows.Keys
      ensures oldest in ids && forall id :: id in ids ==> rows[oldest].createdAt <= rows[id].createdAt
    {
      oldest :| oldest in ids;
      var todo := ids;
      while todo != {}
        invariant todo <= ids && oldest in ids
        invariant forall id :: id in ids && id !in todo ==> rows[oldest].createdAt <= rows[id].createdAt
        decreases |todo|
      {
        var id :| id in todo;
        todo := todo - {id};
        if rows[id].createdAt < rows[oldest].createdAt { oldest := id; }
      }
    }

    /** The oldest pending row, left as it is. */
    method PeekNextPending(fault: bool) returns (found: Option<RowID>, err: Option<StoreError>)
      ensures fault ==> err == Some(CatalogueUnavailable) && found == None
      ensures !fault ==> err == None
      ensures !fault && found.None? ==> !HasPending(rows)
      ensures found.Some? ==> IsOldestPending(rows, found.value)
      ensures found.Some? ==>
                && found.value in rows && rows[found.value].status == Pending
                && forall id :: id in rows && rows[id].status == Pending ==>
                     rows[found.value].createdAt <= rows[id].createdAt
    {
      if fault { return None, Some(CatalogueUnavailable); }
      var pending := Q.PendingIDs(rows);
      if pending == {} {
        assert forall id :: id in rows ==> id !in pending;
        return None, None;
      }
      var id := Oldest(pending);
      found, err := Some(id), None;
    }

    /** Every pending row once, oldest first. */
    method ListPendingIDs(fault: bool) returns (ids: seq<RowID>, err: Option<StoreError>)
      ensures fault ==> err == Some(CatalogueUnavailable) && ids == []
      ensures !fault ==> err == None && |ids| == |Q.PendingIDs(rows)|
      ensures !fault ==> forall id :: id in ids <==> InStatus(rows, id, Pending)
      ensures forall i, j :: 0 <= i < j < |ids| ==>
                ids[i] in rows && ids[j] in rows && ids[i] != ids[j] && rows[ids[i]].createdAt <= rows[ids[j]].createdAt
    {
      ids, err := [], None;
      if fault { return [], Some(CatalogueUnavailable); }
      var todo := Q.PendingIDs(rows);
      while todo != {}
        invariant todo <= Q.PendingIDs(rows) && |ids| + |todo| == |Q.PendingIDs(rows)|
        invariant forall id :: id in ids <==> id in Q.PendingIDs(rows) && id !in todo
        invariant forall i, id :: 0 <= i < |ids| && id in todo ==>
                  ids[i] in rows && rows[ids[i]].createdAt <= rows[id].createdAt
        invariant forall i, j :: 0 <= i < j < |ids| ==>
                    ids[i] in rows && ids[j] in rows && ids[i] != ids[j] &&
                        rows[ids[i]].createdAt <= rows[ids[j]].createdAt
        decreases |todo|
      {
        var id := Oldest(todo);
        ids, todo := ids + [id], todo - {id};
      }
    }

    /** The guarded update every status change goes through. */
    method Transition(id: RowID, expected: Status, update: Row -> Row, fault: bool) returns (err: Option<StoreError>)
      modifies this`rows
      ensures fault ==> err == Some(CatalogueUnavailable) && rows == old(rows)
      ensures !fault && InStatus(old(rows), id, expected) ==>
                err == None && rows == old(rows)[id := update(old(rows)[id])]
      ensures !fault && !InStatus(old(rows), id, expected) ==> err == Some(InvalidTransition) && rows == old(rows)
    {
      if fault { return Some(CatalogueUnavailable); }
      if !InStatus(rows, id, expected) { return Some(InvalidTransition); }
      rows := rows[id := update(rows[id])];
      err := None;
    }

    method ClaimPending(id: RowID, fault: bool) returns (err: Option<StoreError>)
      requires Valid()
      modifies this`rows
      ensures Valid() && rows == if fault then old(rows) else ClaimedIn(old(rows), id)
      ensures err == Some(CatalogueUnavailable) <==> fault
      ensures err == None <==> !fault && id in old(rows) && old(rows)[id].status == Pending
      ensures rows == if err == None then old(rows)[id := old(rows)[id].(status := Running)] else old(rows)
    {
      ClaimKeeps(rows, id);
      err := Transition(id, Pending, (r: Row) => r.(status := Running), fault);
    }

    method MarkDone(id: RowID, artifact: Artifact, fault: bool) returns (err: Option<StoreError>)
      requires Valid()
      modifies this`rows
      ensures Valid() && rows == if fault then old(rows) else DoneIn(old(rows), id, artifact)
      ensures err == Some(CatalogueUnavailable) <==> fault
      ensures err == None <==> !fault && id in old(rows) && old(rows)[id].status == Running
      ensures rows ==
              if err == None then old(rows)[id := old(rows)[id].(status := Done, artifact := artifact)] else old(rows)
    {
      DoneKeeps(rows, id, artifact);
      err := Transition(id, Running, (r: Row) => r.(status := Done, artifact := artifact), fault);
    }

    method MarkFailed(id: RowID, reason: Reason, message: Message, fault: bool) returns (err: Option<StoreError>)
      requires Valid() && reason != NoReason
      modifies this`rows
      ensures Valid() && rows == if fault then old(rows) else FailedIn(old(rows), id, reason, message)
      ensures err == Some(CatalogueUnavailable) <==> fault
      ensures err == None <==>
                !fault && id in old(rows) && old(rows)[id].status == if reason == Expired then Pending else Running
      ensures rows ==
              if err != None then old(rows)
              else old(rows)[id := old(rows)[id].(status := Failed, reason := reason, message := message)]
    {
      FailedKeeps(rows, id, reason, message);
      var expected := if reason == Expired then Pending else Running;
      err := Transition(id, expected, (r: Row) => r.(status := Failed, reason := reason, message := message), fault);
    }

    /** Every running row fails as a restart; a second call finds none. */
    method RecoverRunningOnStartup(fault: bool) returns (recovered: nat, err: Option<StoreError>)
      requires Valid()
      modifies this`rows
      ensures Valid()
      ensures fault ==> err == Some(CatalogueUnavailable) && recovered == 0 && rows == old(rows)
      ensures !fault ==>
                && err == None && rows == Recovered(old(rows))
                && recovered == |set id | id in old(rows) && old(rows)[id].status.Running?|
                && (old(rows) == Recovered(old(rows)) <==> recovered == 0)
      ensures !fault ==>
                && rows.Keys == old(rows).Keys
                && (forall id :: id in rows && old(rows)[id].status != Running ==> rows[id] == old(rows)[id])
                && (forall id :: id in rows && old(rows)[id].status == Running ==>
                      rows[id] == old(rows)[id].(status := Failed, reason := ProcessRestart, message := ExitedInFlight))
    {
      if fault { return 0, Some(CatalogueUnavailable); }
      RecoverKeeps(rows);
      RecoveredCount(rows);
      recovered, err := |set id | id in rows && rows[id].status.Running?|, None;
      rows := map id | id in rows :: RecoveredRow(rows[id]);
    }
  }

  /** The buffered wake channel: a full buffer swallows further signals. */
  class ChannelNotifier {
    const buffer: nat
    var signals: nat

    constructor (buffer: nat)
      ensures this.buffer == buffer && signals == 0
    {
      this.buffer, signals := buffer, 0;
    }

    /** A receive on a channel that holds a signal. */
    method Receive()
      requires signals > 0
      modifies this
      ensures signals == old(signals) - 1
    {
      signals := signals - 1;
    }

    method Notify()
      modifies this
      ensures signals == if old(signals) < buffer then old(signals) + 1 else old(signals)
    {
      if signals < buffer {
        signals := signals + 1;
      }
    }
  }

  // -------------------------------------------------------------- submit

  datatype SubmitError = InvalidRequest | UnsupportedSourceType | Unavailable

  /** Empty fields are reported before an unsupported source type. */
  function Validate(p: Payload): Option<SubmitError> {
    if TrimSpace(p.sourceType) == "" || TrimSpace(p.sourceID) == "" || TrimSpace(p.pdfPath) == "" then
      Some(InvalidRequest)
    else if p.sourceType != "paper" then Some(UnsupportedSourceType)
    else None
  }

  lemma ValidateByCharacters(p: Payload)
    ensures Validate(p) == Some(InvalidRequest) <==> Blank(p.sourceType) || Blank(p.sourceID) || Blank(p.pdfPath)
    ensures Validate(p) == Some(UnsupportedSourceType) <==>
              !Blank(p.sourceType) && !Blank(p.sourceID) && !Blank(p.pdfPath) && p.sourceType != "paper"
    ensures Validate(p) != Some(Unavailable) && !Blank("paper")
  {
    BlankIsTrimmed(p.sourceType);
    BlankIsTrimmed(p.sourceID);
    BlankIsTrimmed(p.pdfPath);
    assert "paper"[0] == 'p';
  }

  /**
   A refused or failed submission stores nothing and wakes nobody; an accepted one leaves its row pending and a
   signal buffered.
   */
  method Submit(repo: Repository, notifier: ChannelNotifier, payload: Payload, now: Instant, fault: bool)
    returns (id: RowID, err: Option<SubmitError>)
    requires repo.Valid()
    modifies repo, notifier
    ensures repo.Valid()
    ensures err == Some(InvalidRequest) <==>
              Blank(payload.sourceType) || Blank(payload.sourceID) || Blank(payload.pdfPath)
    ensures err == Some(UnsupportedSourceType) <==>
              && !Blank(payload.sourceType) && !Blank(payload.sourceID) && !Blank(payload.pdfPath)
              && payload.sourceType != "paper"
    ensures err == Some(Unavailable) <==>
              !Blank(payload.sourceID) && !Blank(payload.pdfPath) && payload.sourceType == "paper" && fault
    ensures err.Some? ==> repo.rows == old(repo.rows) && notifier.signals == old(notifier.signals)
    ensures err.None? ==>
              && repo.rows == Upserted(old(repo.rows), payload, old(repo.nextID), now)
              && Requested(old(repo.rows), repo.rows, payload, now, id)
              && (notifier.buffer > 0 ==> notifier.signals > 0)
  {
    ValidateByCharacters(payload);
    id, err := 0, Validate(payload);
    if err.Some? { return; }
    var prior, storeErr;
    id, prior, storeErr := repo.Upsert(payload, now, fault);
    if storeErr.Some? { return id, Some(Unavailable); }
    notifier.Notify();
  }

  // ------------------------------------------------------------- start-up

  /** As many signals as fit. */
  lemma {:induction false} SignalsFill(buffer: nat, wake: nat, n: nat)
    ensures Q.Signals(buffer, wake, n) ==
            if wake >= buffer then wake else if wake + n <= buffer then wake + n else buffer
    decreases n
  {
    if n > 0 { SignalsFill(buffer, Q.Signal(buffer, wake), n - 1); }
  }

  /**
   Recovery, then one signal for each surviving pending row, before the worker starts. A failing call
   stops the start-up: nothing is signalled and no worker is started.
   */
  method StartUp(repo: Repository, notifier: ChannelNotifier, recoverFault: bool, listFault: bool)
    returns (started: bool, err: Option<StoreError>)
    requires repo.Valid()
    modifies repo`rows, notifier
    ensures repo.Valid() && repo.rows == if recoverFault then old(repo.rows) else Recovered(old(repo.rows))
    ensures started == err.None? == (!recoverFault && !listFault)
    ensures started && old(notifier.signals) == 0 ==>
              var pending := |Q.PendingIDs(repo.rows)|;
              notifier.signals == if pending <= notifier.buffer then pending else notifier.buffer
    ensures notifier.signals ==
              if started then Q.Signals(notifier.buffer, old(notifier.signals), |Q.PendingIDs(repo.rows)|)
              else old(notifier.signals)
  {
    var _, recoverErr := repo.RecoverRunningOnStartup(recoverFault);
    if recoverErr.Some? { return false, recoverErr; }
    var pendingIDs, listErr := repo.ListPendingIDs(listFault);
    if listErr.Some? { return false, listErr; }
    SignalsFill(notifier.buffer, notifier.signals, |pendingIDs|);
    NotifyEach(notifier, pendingIDs);
    started, err := true, None;
  }

  method NotifyEach(notifier: ChannelNotifier, ids: seq<RowID>)
    modifies notifier
    ensures notifier.signals == Q.Signals(notifier.buffer, old(notifier.signals), |ids|)
  {
    for i := 0 to |ids|
      invariant Q.Signals(notifier.buffer, notifier.signals, |ids| - i)
             == Q.Signals(notifier.buffer, old(notifier.signals), |ids|)
    {
      notifier.Notify();
    }
  }
}
