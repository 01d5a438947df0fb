/** The persisted extraction rows and the guarded updates that are their only writers. */
module ExtractionTable {
  import opened Common

  /** Row ids are opaque; numbers stand for the UUIDs. */
  type RowID = nat

  datatype Status = Pending | Running | Done | Failed

  datatype Reason = NoReason | ScannedPDF | ParseFailed | ExtractorFailure | TooLarge | Expired | ProcessRestart

  /** Failure texts; the formatted ones keep their operands. */
  datatype Message =
    | NoMessage
    | ErrorText(text: string)
    | WordsOverThreshold(words: nat, maxWords: nat)
    | OlderThanExpiry(createdAt: Instant, jobExpiry: int)
    | ExitedInFlight

  datatype Payload = Payload(sourceType: string, sourceID: string, pdfPath: string)

  datatype Artifact = Artifact(title: string, body: string, contentType: string, wordCount: nat)

  const NO_ARTIFACT := Artifact("", "", "", 0)

  datatype Row = Row(
    sourceType: string, sourceID: string, status: Status, payload: Payload,
    artifact: Artifact, reason: Reason, message: Message, createdAt: Instant)

  type Table = map<RowID, Row>

  // ------------------------------------------------------ domain and columns

  datatype Failure = Failure(reason: Reason, message: Message)

  /** The aggregate read back from a row: an artifact only when done, a failure only when failed. */
  datatype Extraction = Extraction(
    sourceType: string, sourceID: string, status: Status, payload: Payload,
    artifact: Option<Artifact>, failure: Option<Failure>, createdAt: Instant)

  function ToDomain(r: Row): Extraction {
    Extraction(r.sourceType, r.sourceID, r.status, r.payload,
               if r.status.Done? then Some(r.artifact) else None,
               if r.status.Failed? then Some(Failure(r.reason, r.message)) else None, r.createdAt)
  }

  function FromDomain(e: Extraction): Row {
    Row(e.sourceType, e.sourceID, e.status, e.payload,
        if e.artifact.Some? then e.artifact.value else NO_ARTIFACT,
        if e.failure.Some? then e.failure.value.reason else NoReason,
        if e.failure.Some? then e.failure.value.message else NoMessage, e.createdAt)
  }

  /** Artifact columns are filled only on done rows, failure columns only on failed ones. */
  predicate Columns(r: Row) {
    && (!r.status.Done? ==> r.artifact == NO_ARTIFACT)
    && (!r.status.Failed? ==> r.reason == NoReason && r.message == NoMessage)
    && (r.status.Failed? ==> r.reason != NoReason)
  }

  /** Reading a row back and storing it again loses nothing exactly when the columns fit the status. */
  lemma ColumnsRoundTrip(r: Row)
    ensures FromDomain(ToDomain(r)) == r <==>
              (!r.status.Done? ==> r.artifact == NO_ARTIFACT) &&
              (!r.status.Failed? ==> r.reason == NoReason && r.message == NoMessage)
  {
  }

  // ----------------------------------------------------------- the updates

  predicate SameKey(r: Row, p: Payload) { r.sourceType == p.sourceType && r.sourceID == p.sourceID }

  function FreshRow(p: Payload, now: Instant): Row {
    Row(p.sourceType, p.sourceID, Pending, p, NO_ARTIFACT, NoReason, NoMessage, now)
  }

  /** The overwrite of a conflicting row: back to pending, both outcomes cleared, a new request and expiry window. */
  function Reset(r: Row, p: Payload, now: Instant): Row {
    r.(status := Pending, artifact := NO_ARTIFACT, reason := NoReason, message := NoMessage, payload := p,
       createdAt := now)
  }

  predicate HasKey(t: Table, p: Payload) { exists id :: id in t && SameKey(t[id], p) }

  function Upserted(t: Table, p: Payload, freshID: RowID, now: Instant): Table {
    if HasKey(t, p) then map id | id in t :: if SameKey(t[id], p) then Reset(t[id], p, now) else t[id]
    else t[freshID := FreshRow(p, now)]
  }

  predicate InStatus(t: Table, id: RowID, status: Status) { id in t && t[id].status == status }

  ghost predicate HasPending(t: Table) { exists id :: InStatus(t, id, Pending) }

  function ClaimedIn(t: Table, id: RowID): Table {
    if InStatus(t, id, Pending) then t[id := t[id].(status := Running)] else t
  }

  function DoneIn(t: Table, id: RowID, artifact: Artifact): Table {
    if InStatus(t, id, Running) then t[id := t[id].(status := Done, artifact := artifact)] else t
  }

  /** Expiry is decided while the row is pending, every other failure while it is running. */
  function PriorOf(reason: Reason): Status { if reason == Expired then Pending else Running }

  function FailedIn(t: Table, id: RowID, reason: Reason, message: Message): Table {
    if InStatus(t, id, PriorOf(reason)) then
      t[id := t[id].(status := Failed, reason := reason, message := message)]
    else t
  }

  function RecoveredRow(r: Row): Row {
    if r.status.Running? then r.(status := Failed, reason := ProcessRestart, message := ExitedInFlight) else r
  }

  function Recovered(t: Table): Table { map id | id in t :: RecoveredRow(t[id]) }

  /** A pending row that no pending row predates. */
  ghost predicate IsOldestPending(t: Table, id: RowID) {
    InStatus(t, id, Pending) && forall other :: InStatus(t, other, Pending) ==> t[id].createdAt <= t[other].createdAt
  }

  // ------------------------------------------------------------- invariant

  predicate UniqueKeys(t: Table) { forall a, b :: a in t && b in t && SameKey(t[a], t[b].payload) ==> a == b }

  predicate RowInv(r: Row) { Columns(r) && SameKey(r, r.payload) }

  predicate TableInv(t: Table) { UniqueKeys(t) && forall id :: id in t ==> RowInv(t[id]) }

  /** Rows never disappear and never change identity. */
  predicate StableIDs(t: Table, t': Table) {
    forall id :: id in t ==> id in t' && t'[id].sourceType == t[id].sourceType && t'[id].sourceID == t[id].sourceID
  }

  /** Updates that leave every row's key alone leave the keys unique. */
  lemma KeysStay(t: Table, u: Table)
    requires TableInv(t) && u.Keys == t.Keys && StableIDs(t, u) && forall id :: id in u ==> RowInv(u[id])
    ensures TableInv(u)
  {
    forall a, b | a in u && b in u && SameKey(u[a], u[b].payload) ensures a == b {
      assert RowInv(u[b]) && RowInv(t[b]);
      assert SameKey(t[a], t[b].payload);
    }
  }

  lemma NewKeyKeeps(t: Table, p: Payload, freshID: RowID, now: Instant)
    requires TableInv(t) && freshID !in t && !HasKey(t, p)
    ensures TableInv(t[freshID := FreshRow(p, now)])
  {
    var u := t[freshID := FreshRow(p, now)];
    forall a, b | a in u && b in u && SameKey(u[a], u[b].payload) ensures a == b {
      assert a in t && b in t ==> SameKey(t[a], t[b].payload);
      assert a in t ==> RowInv(t[a]) && !SameKey(t[a], p);
      assert b in t ==> RowInv(t[b]) && !SameKey(t[b], p);
    }
  }

  lemma OverwriteKeeps(t: Table, p: Payload, freshID: RowID, now: Instant)
    requires TableInv(t) && HasKey(t, p)
    ensures TableInv(Upserted(t, p, freshID, now)) && StableIDs(t, Upserted(t, p, freshID, now))
    ensures forall id :: id in t && SameKey(t[id], p) ==> Upserted(t, p, freshID, now)[id] == FreshRow(p, now)
  {
    KeysStay(t, Upserted(t, p, freshID, now));
  }

  lemma UpsertKeeps(t: Table, p: Payload, freshID: RowID, now: Instant)
    requires TableInv(t) && freshID !in t
    ensures TableInv(Upserted(t, p, freshID, now)) && StableIDs(t, Upserted(t, p, freshID, now))
    ensures HasPending(Upserted(t, p, freshID, now)) && HasKey(Upserted(t, p, freshID, now), p)
    ensures forall id :: id in Upserted(t, p, freshID, now) && SameKey(Upserted(t, p, freshID, now)[id], p) ==>
              Upserted(t, p, freshID, now)[id] == FreshRow(p, now)
    ensures forall id :: id in t && !SameKey(t[id], p) ==> Upserted(t, p, freshID, now)[id] == t[id]
  {
    var u := Upserted(t, p, freshID, now);
    var id := freshID;
    if HasKey(t, p) {
      OverwriteKeeps(t, p, freshID, now);
      id :| id in t && SameKey(t[id], p);
    } else {
      NewKeyKeeps(t, p, freshID, now);
    }
    assert InStatus(u, id, Pending) && SameKey(u[id], p);
  }

  lemma ReplaceKeeps(t: Table, id: RowID, r: Row)
    requires TableInv(t) && id in t && RowInv(r)
    requires r.sourceType == t[id].sourceType && r.sourceID == t[id].sourceID
    ensures TableInv(t[id := r]) && StableIDs(t, t[id := r])
  {
    var u := t[id := r];
    forall a, b | a in u && b in u && SameKey(u[a], u[b].payload) ensures a == b {
      assert RowInv(u[a]) && RowInv(u[b]) && RowInv(t[a]) && RowInv(t[b]);
      assert SameKey(t[a], t[b].payload);
    }
  }

  lemma ClaimKeeps(t: Table, id: RowID)
    requires TableInv(t)
    ensures TableInv(ClaimedIn(t, id)) && StableIDs(t, ClaimedIn(t, id))
  {
    if InStatus(t, id, Pending) { ReplaceKeeps(t, id, ClaimedIn(t, id)[id]); }
  }

  lemma DoneKeeps(t: Table, id: RowID, artifact: Artifact)
    requires TableInv(t)
    ensures TableInv(DoneIn(t, id, artifact)) && StableIDs(t, DoneIn(t, id, artifact))
  {
    if InStatus(t, id, Running) { ReplaceKeeps(t, id, DoneIn(t, id, artifact)[id]); }
  }

  lemma FailedKeeps(t: Table, id: RowID, reason: Reason, message: Message)
    requires TableInv(t) && reason != NoReason
    ensures TableInv(FailedIn(t, id, reason, message)) && StableIDs(t, FailedIn(t, id, reason, message))
  {
    if InStatus(t, id, PriorOf(reason)) { ReplaceKeeps(t, id, FailedIn(t, id, reason, message)[id]); }
  }

  lemma RecoverKeeps(t: Table)
    requires TableInv(t)
    ensures TableInv(Recovered(t)) && StableIDs(t, Recovered(t))
    ensures forall id :: !InStatus(Recovered(t), id, Running)
    ensures forall id :: InStatus(Recovered(t), id, Pending) <==> InStatus(t, id, Pending)
    ensures Recovered(Recovered(t)) == Recovered(t)
  {
    KeysStay(t, Recovered(t));
  }
}
