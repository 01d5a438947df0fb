/** The worker's drain loop over the row store, run against submissions, storage faults and cancellation. */
module ExtractionWorker {
  import opened Common
  import opened ExtractionTable
  import opened ExtractionVerdict
  import opened ExtractionQueue
  import opened ExtractionSafety
  import opened ExtractionRepository
  import Text
  import Normalize

  // ------------------------------------------------------ what is pending

  lemma UpsertPending(t: Table, p: Payload, freshID: RowID, now: Instant)
    requires TableInv(t) && freshID !in t
    ensures var u := Upserted(t, p, freshID, now);
            PendingIDs(t) <= PendingIDs(u) && |PendingIDs(u)| <= |PendingIDs(t)| + 1
  {
    var u, id := Upserted(t, p, freshID, now), freshID;
    UpsertKeeps(t, p, freshID, now);
    if HasKey(t, p) {
      id :| id in t && SameKey(t[id], p);
      forall other | other in t && SameKey(t[other], p) ensures other == id {
        assert RowInv(t[id]);
        assert SameKey(t[other], t[id].payload);
      }
    }
    assert PendingIDs(u) <= PendingIDs(t) + {id};
    Grows(PendingIDs(u), PendingIDs(t), id);
  }

  lemma Grows(big: set<RowID>, small: set<RowID>, id: RowID)
    requires big <= small + {id}
    ensures |big| <= |small| + 1
  {
    Fewer(big - {id}, small);
    if id in big { assert big == (big - {id}) + {id}; } else { assert big == big - {id}; }
  }

  lemma {:induction false} Fewer(a: set<RowID>, b: set<RowID>)
    requires a <= b
    ensures |a| <= |b|
    decreases a
  {
    if a != {} {
      var x :| x in a;
      Fewer(a - {x}, b - {x});
    }
  }

  lemma PickupPending(t: Table, id: RowID, message: Message)
    requires InStatus(t, id, Pending)
    ensures PendingIDs(ClaimedIn(t, id)) == PendingIDs(t) - {id} == PendingIDs(FailedIn(t, id, Expired, message))
    ensures |PendingIDs(t) - {id}| == |PendingIDs(t)| - 1
  {
    assert id in PendingIDs(t);
  }

  lemma VerdictPending(t: Table, id: RowID, v: Verdict)
    requires v.Fail? ==> v.reason != Expired
    ensures PendingIDs(Verdicted(t, id, v)) == PendingIDs(t)
  {
  }

  // -------------------------------------------------------- joining runs

  lemma {:induction false} RunAppend(c: Config, q: Queue, xs: seq<Action>, s: Queue, ys: seq<Action>)
    requires Run(c, q, xs) == Some(s)
    ensures Run(c, q, xs + ys) == Run(c, s, ys)
    decreases |xs|
  {
    if xs == [] {
      assert xs + ys == ys;
    } else {
      assert (xs + ys)[1..] == xs[1..] + ys;
      RunAppend(c, Next(c, q, xs[0]), xs[1..], s, ys);
    }
  }

  lemma RunSnoc(c: Config, q: Queue, xs: seq<Action>, s: Queue, a: Action)
    requires Run(c, q, xs) == Some(s) && Enabled(c, s, a)
    ensures Run(c, q, xs + [a]) == Some(Next(c, s, a))
  {
    RunAppend(c, q, xs, s, [a]);
    assert [a][1..] == [];
  }

  // ------------------------------------------------------------- process

  datatype Ending = Written | Interrupted | NotWritten

  /** What a run leaves in its row: each error by kind and text, an excess of words, or the artifact. */
  ghost predicate RunStored(r: Row, r': Row, p: Payload, o: Outcome, maxWords: nat) {
    match o
    case ScannedPDFError(text) => r' == r.(status := Failed, reason := ScannedPDF, message := ErrorText(text))
    case ParseFailedError(text) => r' == r.(status := Failed, reason := ParseFailed, message := ErrorText(text))
    case ExtractorFailureError(text) =>
      r' == r.(status := Failed, reason := ExtractorFailure, message := ErrorText(text))
    case UnknownError(text) => r' == r.(status := Failed, reason := ExtractorFailure, message := ErrorText(text))
    case Extracted(markdown) => BodyStored(r, r', p, Normalize.Body(markdown), maxWords)
  }

  ghost predicate BodyStored(r: Row, r': Row, p: Payload, body: string, maxWords: nat) {
    var words := Text.WordCount(body);
    if words > maxWords then
      r' == r.(status := Failed, reason := TooLarge, message := WordsOverThreshold(words, maxWords))
    else
      && Titled(body, p.pdfPath, r'.artifact.title)
      && r' == r.(status := Done, artifact := Artifact(r'.artifact.title, body, p.sourceType, words))
  }

  lemma JudgedIsStored(r: Row, p: Payload, o: Outcome, maxWords: nat, v: Verdict)
    requires Judged(p, o, maxWords, v)
    ensures RunStored(r, SettledAs(r, v), p, o, maxWords)
  {
  }

  /** The update a verdict makes: on a running row what the run came to, otherwise nothing. */
  lemma VerdictStored(t: Table, id: RowID, p: Payload, o: Outcome, maxWords: nat)
    ensures var u := Verdicted(t, id, VerdictOf(p, o, maxWords));
            && (!InStatus(t, id, Running) ==> u == t)
            && (InStatus(t, id, Running) ==>
                  && u.Keys == t.Keys && RunStored(t[id], u[id], p, o, maxWords)
                  && forall other :: other in u && other != id ==> u[other] == t[other])
  {
    var v := VerdictOf(p, o, maxWords);
    VerdictIsJudged(p, o, maxWords);
    VerdictUpdates(t, id, v);
    if id in t { JudgedIsStored(t[id], p, o, maxWords, v); }
  }

  lemma VerdictUpdates(t: Table, id: RowID, v: Verdict)
    requires v.Fail? ==> v.reason != Expired
    ensures var u := Verdicted(t, id, v);
            && (!InStatus(t, id, Running) ==> u == t)
            && (InStatus(t, id, Running) ==> u == t[id := SettledAs(t[id], v)])
  {
  }

  /** One run of the extractor on a claimed row: a cancelled run that failed writes nothing. */
  method Process(repo: Repository, id: RowID, payload: Payload, outcome: Outcome, maxWords: nat, cancelled: bool,
                 fault: bool)
    returns (ending: Ending)
    requires repo.Valid()
    modifies repo`rows
    ensures repo.Valid()
    ensures ending == Interrupted <==> cancelled && !outcome.Extracted?
    ensures ending == Interrupted || fault ==> repo.rows == old(repo.rows)
    ensures ending != Interrupted && !fault ==>
              repo.rows == Verdicted(old(repo.rows), id, VerdictOf(payload, outcome, maxWords))
    ensures ending == Written <==>
              ending != Interrupted && !fault && id in old(repo.rows) && old(repo.rows)[id].status == Running
    ensures ending == Written ==>
              && repo.rows.Keys == old(repo.rows).Keys
              && RunStored(old(repo.rows)[id], repo.rows[id], payload, outcome, maxWords)
              && forall other :: other in repo.rows && other != id ==> repo.rows[other] == old(repo.rows)[other]
    ensures ending != Written ==> repo.rows == old(repo.rows)
  {
    var err;
    VerdictStored(repo.rows, id, payload, outcome, maxWords);
    if !outcome.Extracted? {
      if cancelled { return Interrupted; }
      var (reason, text, _) := ClassifyExtractorError(outcome);
      err := repo.MarkFailed(id, reason, ErrorText(text), fault);
    } else {
      var artifact := ArtifactOf(payload, outcome.markdown);
      if artifact.wordCount > maxWords {
        err := repo.MarkFailed(id, TooLarge, WordsOverThreshold(artifact.wordCount, maxWords), fault);
      } else {
        err := repo.MarkDone(id, artifact, fault);
      }
    }
    ending := if err == None then Written else NotWritten;
  }

  // --------------------------------------------------------------- turns

  /**
   What happens around the worker during one drain iteration: submissions stored before the peek, between
   peek and pickup, and during extraction; calls that fail; and the readings of its context.
   */
  datatype Turn = Turn(
    beforePeek: seq<Request>, beforePickup: seq<Request>, beforeMark: seq<Request>,
    peekFault: bool, pickupFault: bool, markFault: bool,
    stopAtTop: bool, stopAtPickup: bool, stopInProcess: bool, stopAfter: bool)

  const QUIET := Turn([], [], [], false, false, false, false, false, false, false)

  function Charge(fault: bool): nat { if fault then 1 else 0 }

  function Upserts(t: Turn): nat { |t.beforePeek| + |t.beforePickup| + |t.beforeMark| }

  function Faults(t: Turn): nat { Charge(t.peekFault) + Charge(t.pickupFault) + Charge(t.markFault) }

  predicate Stops(t: Turn) { t.stopAtTop || t.stopAtPickup || t.stopInProcess || t.stopAfter }

  /** Submissions and failed calls over all turns. */
  function Noise(turns: seq<Turn>): nat {
    if turns == [] then 0 else Upserts(turns[0]) + Faults(turns[0]) + Noise(turns[1..])
  }

  /** The worker's view of one queue state: its store holds the rows, and it is up and in its drain loop. */
  ghost predicate InStep(c: Config, q: Queue, repo: Repository)
    reads repo
  {
    repo.Valid() && QueueInv(c, q) && q.boot.Up? && repo.rows == q.rows
  }

  /** Submissions stored while the worker holds still. */
  method Arrive(c: Config, repo: Repository, requests: seq<Request>, ghost q: Queue)
    returns (ghost trace: seq<Action>, ghost q': Queue)
    requires InStep(c, q, repo)
    modifies repo
    ensures InStep(c, q', repo) && Run(c, q, trace) == Some(q')
    ensures q'.worker == q.worker && q'.ran == q.ran
    ensures PendingIDs(q.rows) <= PendingIDs(q'.rows) && |PendingIDs(q'.rows)| <= |PendingIDs(q.rows)| + |requests|
    ensures requests == [] ==> q' == q
  {
    trace, q' := [], q;
    var k := 0;
    while k < |requests|
      invariant 0 <= k <= |requests|
      invariant InStep(c, q', repo) && Run(c, q, trace) == Some(q')
      invariant q'.worker == q.worker && q'.ran == q.ran
      invariant PendingIDs(q.rows) <= PendingIDs(q'.rows) && |PendingIDs(q'.rows)| <= |PendingIDs(q.rows)| + k
      invariant requests == [] ==> q' == q
    {
      ghost var a := Upsert(requests[k].payload, repo.nextID, requests[k].createdAt);
      UpsertPending(q'.rows, requests[k].payload, repo.nextID, requests[k].createdAt);
      StepInv(c, q', a);
      RunSnoc(c, q, trace, q', a);
      trace, q' := trace + [a], Next(c, q', a);
      var _, _, _ := repo.Upsert(requests[k].payload, requests[k].createdAt, false);
      k := k + 1;
    }
  }

  /** Peeks one row; a failed or empty peek ends the drain. */
  method Peek(c: Config, repo: Repository, fault: bool, ghost q: Queue)
    returns (found: Option<RowID>, ghost trace: seq<Action>, ghost q': Queue)
    requires InStep(c, q, repo) && q.worker.Draining?
    ensures InStep(c, q', repo) && Run(c, q, trace) == Some(q') && q'.rows == q.rows && q'.ran == q.ran
    ensures found.None? ==> q'.worker.Idle? && (fault || !HasPending(q.rows))
    ensures found.Some? ==>
              !fault && IsOldestPending(q.rows, found.value) && q'.worker == Peeked(found.value, q.rows[found.value])
  {
    var err;
    found, err := repo.PeekNextPending(fault);
    ghost var a := if fault then PeekFault else if found.None? then PeekEmpty else Action.Peek(found.value);
    StepInv(c, q, a);
    RunSnoc(c, q, [], q, a);
    trace, q' := [] + [a], Next(c, q, a);
  }

  /** Fails the peeked row when its window has passed, claims it otherwise. */
  method Pickup(c: Config, repo: Repository, id: RowID, row: Row, now: Instant, fault: bool, ghost q: Queue)
    returns (claimed: bool, expired: bool, ghost trace: seq<Action>, ghost q': Queue)
    requires InStep(c, q, repo) && q.worker == Peeked(id, row)
    modifies repo
    ensures InStep(c, q', repo) && Run(c, q, trace) == Some(q') && q'.ran == q.ran
    ensures expired == IsExpired(c, row, now) && claimed == (!expired && !fault)
    ensures q'.worker == if claimed then Claimed(id, row) else Draining
    ensures InStatus(q.rows, id, Pending)
    ensures q'.rows == if fault then q.rows
                       else if expired then FailedIn(q.rows, id, Expired, OlderThanExpiry(row.createdAt, c.jobExpiry))
                       else ClaimedIn(q.rows, id)
    ensures |PendingIDs(q'.rows)| < |PendingIDs(q.rows)| + Charge(fault)
  {
    expired := now > row.createdAt + c.jobExpiry;
    ghost var a :=
      if expired then (if fault then ExpireFault(now) else Expire(now))
      else if fault then ClaimFault(now) else Claim(now);
    PickupPending(q.rows, id, OlderThanExpiry(row.createdAt, c.jobExpiry));
    StepInv(c, q, a);
    RunSnoc(c, q, [], q, a);
    trace, q' := [] + [a], Next(c, q, a);
    var err;
    if expired {
      err := repo.MarkFailed(id, Expired, OlderThanExpiry(row.createdAt, c.jobExpiry), fault);
      claimed := false;
    } else {
      err := repo.ClaimPending(id, fault);
      claimed := err == None;
    }
  }

  /** Runs the extractor on the claimed row and stores its verdict. */
  method Finish(c: Config, repo: Repository, id: RowID, row: Row, run: nat, cancelled: bool, fault: bool,
                ghost q: Queue)
    returns (ending: Ending, ghost trace: seq<Action>, ghost q': Queue)
    requires InStep(c, q, repo) && q.worker == Claimed(id, row) && |q.ran| == run
    modifies repo
    ensures InStep(c, q', repo) && Run(c, q, trace) == Some(q')
    ensures PendingIDs(q'.rows) == PendingIDs(q.rows)
    ensures ending == Interrupted <==> cancelled && !c.extract(run, row.payload).Extracted?
    ensures ending == Interrupted ==> q' == q
    ensures ending == Written ==> !fault
    ensures ending != Interrupted ==> q'.worker.Draining? && |q'.ran| == run + 1
    ensures ending != Interrupted && !fault ==>
              q'.rows == Verdicted(q.rows, id, VerdictOf(row.payload, c.extract(run, row.payload), c.maxWords))
  {
    var outcome := c.extract(run, row.payload);
    ending := Process(repo, id, row.payload, outcome, c.maxWords, cancelled, fault);
    if ending == Interrupted { return ending, [], q; }
    ghost var a := if fault then ProcessFault else Action.Process;
    VerdictPending(q.rows, id, VerdictOf(row.payload, outcome, c.maxWords));
    StepInv(c, q, a);
    RunSnoc(c, q, [], q, a);
    trace, q' := [] + [a], Next(c, q, a);
  }

  // --------------------------------------------------------------- drain

  datatype Flow = Again | Drained | PeekFailed | Cancelled

  datatype Visit = Visit(id: RowID, run: nat, now: Instant)

  /** The row one undisturbed iteration leaves behind. */
  function Settled(c: Config, v: Visit, r: Row): Row {
    if v.now > r.createdAt + c.jobExpiry then
      r.(status := Failed, reason := Expired, message := OlderThanExpiry(r.createdAt, c.jobExpiry))
    else SettledAs(r, VerdictOf(r.payload, c.extract(v.run, r.payload), c.maxWords))
  }

  function SettledAs(r: Row, verdict: Verdict): Row {
    match verdict
    case Succeed(artifact) => r.(status := Done, artifact := artifact)
    case Fail(reason, message) => r.(status := Failed, reason := reason, message := message)
  }

  /** One undisturbed iteration settles the oldest pending row. */
  ghost predicate Visits(c: Config, t: Table, v: Visit, u: Table) {
    IsOldestPending(t, v.id) && u == t[v.id := Settled(c, v, t[v.id])]
  }

  lemma ExpiredVisit(c: Config, t: Table, v: Visit)
    requires IsOldestPending(t, v.id) && IsExpired(c, t[v.id], v.now)
    ensures Visits(c, t, v, FailedIn(t, v.id, Expired, OlderThanExpiry(t[v.id].createdAt, c.jobExpiry)))
  {
  }

  lemma ClaimedThenSettled(t: Table, id: RowID, verdict: Verdict)
    requires InStatus(t, id, Pending) && (verdict.Fail? ==> verdict.reason != Expired)
    ensures Verdicted(ClaimedIn(t, id), id, verdict) == t[id := SettledAs(t[id], verdict)]
  {
  }

  lemma ProcessedVisit(c: Config, t: Table, v: Visit, verdict: Verdict)
    requires IsOldestPending(t, v.id) && !IsExpired(c, t[v.id], v.now)
    requires verdict == VerdictOf(t[v.id].payload, c.extract(v.run, t[v.id].payload), c.maxWords)
    ensures Visits(c, t, v, Verdicted(ClaimedIn(t, v.id), v.id, verdict))
  {
    ClaimedThenSettled(t, v.id, verdict);
  }

  lemma Joined(c: Config, q: Queue, xs: seq<Action>, s: Queue, ys: seq<Action>, t: Queue)
    requires Run(c, q, xs) == Some(s) && Run(c, s, ys) == Some(t)
    ensures Run(c, q, xs + ys) == Some(t)
  {
    RunAppend(c, q, xs, s, ys);
  }

  /** Submissions, then the pickup of the row peeked before them. */
  method Take(c: Config, repo: Repository, id: RowID, row: Row, now: Instant, turn: Turn, ghost q: Queue)
    returns (claimed: bool, flow: Flow, ghost trace: seq<Action>, ghost q': Queue)
    requires InStep(c, q, repo) && q.worker == Peeked(id, row)
    modifies repo
    ensures InStep(c, q', repo) && Run(c, q, trace) == Some(q') && q'.ran == q.ran
    ensures q'.worker == if claimed then Claimed(id, row) else Draining
    ensures flow == Again || (flow == Cancelled && Stops(turn) && !claimed)
    ensures claimed == (now <= row.createdAt + c.jobExpiry && !turn.pickupFault)
    ensures flow == Cancelled <==> now <= row.createdAt + c.jobExpiry && turn.pickupFault && turn.stopAtPickup
    ensures |PendingIDs(q'.rows)| < |PendingIDs(q.rows)| + |turn.beforePickup| + Charge(turn.pickupFault)
    ensures turn == QUIET ==>
              && claimed == !IsExpired(c, row, now)
              && q'.rows ==
                 if claimed then ClaimedIn(q.rows, id)
                 else FailedIn(q.rows, id, Expired, OlderThanExpiry(row.createdAt, c.jobExpiry))
  {
    ghost var q1, t1, t2;
    t1, q1 := Arrive(c, repo, turn.beforePickup, q);
    var expired;
    claimed, expired, t2, q' := Pickup(c, repo, id, row, now, turn.pickupFault, q1);
    Joined(c, q, t1, q1, t2, q');
    trace := t1 + t2;
    flow := if !claimed && !expired && turn.stopAtPickup then Cancelled else Again;
  }

  /** Submissions while the extractor runs, then its verdict. */
  method Complete(c: Config, repo: Repository, id: RowID, row: Row, run: nat, turn: Turn, ghost q: Queue)
    returns (flow: Flow, run': nat, ghost trace: seq<Action>, ghost q': Queue)
    requires InStep(c, q, repo) && q.worker == Claimed(id, row) && |q.ran| == run
    modifies repo
    ensures InStep(c, q', repo) && Run(c, q, trace) == Some(q') && |q'.ran| == run'
    ensures (flow == Again && q'.worker.Draining?) || (flow == Cancelled && Stops(turn))
    ensures turn.stopInProcess && (!c.extract(run, row.payload).Extracted? || turn.markFault) ==> flow == Cancelled
    ensures turn.stopAfter && turn.markFault ==> flow == Cancelled
    ensures |PendingIDs(q'.rows)| <= |PendingIDs(q.rows)| + |turn.beforeMark|
    ensures turn == QUIET ==>
              q'.rows == Verdicted(q.rows, id, VerdictOf(row.payload, c.extract(run, row.payload), c.maxWords))
  {
    ghost var q1, t1, t2;
    t1, q1 := Arrive(c, repo, turn.beforeMark, q);
    var ending;
    ending, t2, q' := Finish(c, repo, id, row, run, turn.stopInProcess, turn.markFault, q1);
    Joined(c, q, t1, q1, t2, q');
    trace := t1 + t2;
    run' := if ending == Interrupted then run else run + 1;
    flow :=
      if ending == Interrupted || (ending == NotWritten && (turn.stopInProcess || turn.stopAfter)) then Cancelled
      else Again;
  }

  /**
   One iteration from a non-empty peek on. Unless cancelled the worker is back at its loop head, with one
   row fewer pending but for submissions and failed calls.
   */
  method Handle(c: Config, repo: Repository, id: RowID, row: Row, run: nat, now: Instant, turn: Turn, ghost q: Queue)
    returns (flow: Flow, run': nat, ghost trace: seq<Action>, ghost q': Queue)
    requires InStep(c, q, repo) && q.worker == Peeked(id, row) && |q.ran| == run
    requires IsOldestPending(q.rows, id) && q.rows[id] == row
    modifies repo
    ensures InStep(c, q', repo) && Run(c, q, trace) == Some(q') && |q'.ran| == run'
    ensures (flow == Again && q'.worker.Draining?) || (flow == Cancelled && Stops(turn))
    ensures |PendingIDs(q'.rows)| < |PendingIDs(q.rows)| + |turn.beforePickup| + |turn.beforeMark| +
              Charge(turn.pickupFault)
    ensures turn == QUIET ==> Visits(c, q.rows, Visit(id, run, now), q'.rows)
  {
    ghost var q1, t1, t2;
    var claimed;
    run', q', t2 := run, q, [];
    claimed, flow, t1, q1 := Take(c, repo, id, row, now, turn, q);
    if claimed {
      flow, run', t2, q' := Complete(c, repo, id, row, run, turn, q1);
      if turn == QUIET {
        ProcessedVisit(c, q.rows, Visit(id, run, now), VerdictOf(row.payload, c.extract(run, row.payload), c.maxWords));
      }
      Joined(c, q, t1, q1, t2, q');
      return flow, run', t1 + t2, q';
    }
    if turn == QUIET { ExpiredVisit(c, q.rows, Visit(id, run, now)); }
    trace, q' := t1, q1;
  }

  /** How a turn may end, and what its readings and faults make it end with. */
  ghost predicate TurnEnds(turn: Turn, flow: Flow, peeked: bool, q: Queue, q': Queue) {
    && peeked == !turn.stopAtTop
    && (turn.stopAtTop ==> flow == Cancelled && q' == q)
    && (!turn.stopAtTop && turn.peekFault ==> flow == PeekFailed)
    && match flow
       case Again =>
         && peeked && q'.worker.Draining?
         && |PendingIDs(q'.rows)| < |PendingIDs(q.rows)| + Upserts(turn) + Faults(turn)
       case Drained => !HasPending(q'.rows)
       case PeekFailed => turn.peekFault
       case Cancelled => Stops(turn)
  }

  /** One drain iteration; `peeked` tells whether it got as far as its peek. */
  method TakeTurn(c: Config, repo: Repository, turn: Turn, now: Instant, run: nat, ghost q: Queue)
    returns (flow: Flow, peeked: bool, visit: Visit, run': nat, ghost trace: seq<Action>, ghost q': Queue)
    requires InStep(c, q, repo) && q.worker.Draining? && |q.ran| == run
    modifies repo
    ensures InStep(c, q', repo) && Run(c, q, trace) == Some(q') && |q'.ran| == run'
    ensures TurnEnds(turn, flow, peeked, q, q')
    ensures turn == QUIET ==>
              || (flow == Drained && q'.rows == q.rows)
              || (flow == Again && Visits(c, q.rows, visit, q'.rows) && visit.now == now)
  {
    ghost var q1, q2, t1, t2, t3;
    visit, run' := Visit(0, run, now), run;
    if turn.stopAtTop { return Cancelled, false, visit, run, [], q; }
    t1, q1 := Arrive(c, repo, turn.beforePeek, q);
    var found;
    found, t2, q2 := Peek(c, repo, turn.peekFault, q1);
    Joined(c, q, t1, q1, t2, q2);
    if found.None? { return if turn.peekFault then PeekFailed else Drained, true, visit, run, t1 + t2, q2; }
    visit := Visit(found.value, run, now);
    flow, run', t3, q' := Handle(c, repo, found.value, repo.rows[found.value], run, now, turn, q2);
    Joined(c, q, t1 + t2, q2, t3, q');
    peeked, trace := true, t1 + t2 + t3;
  }

  function TurnAt(turns: seq<Turn>, k: nat): Turn { if k < |turns| then turns[k] else QUIET }

  function NoiseFrom(turns: seq<Turn>, k: nat): nat { if k < |turns| then Noise(turns[k..]) else 0 }

  lemma NoiseStep(turns: seq<Turn>, k: nat)
    ensures NoiseFrom(turns, k) == Upserts(TurnAt(turns, k)) + Faults(TurnAt(turns, k)) + NoiseFrom(turns, k + 1)
  {
    if k < |turns| {
      assert turns[k..][1..] == turns[k + 1..];
    }
  }

  predicate Undisturbed(turns: seq<Turn>) { forall k :: 0 <= k < |turns| ==> turns[k] == QUIET }

  /** The visited rows were pending and are settled; all other rows are as they were. */
  ghost predicate Settles(c: Config, t: Table, visits: seq<Visit>, u: Table) {
    && u.Keys == t.Keys
    && (forall i :: 0 <= i < |visits| ==>
         InStatus(t, visits[i].id, Pending) && u[visits[i].id] == Settled(c, visits[i], t[visits[i].id]))
    && (forall id :: id in t && NotVisited(visits, id) ==> u[id] == t[id])
  }

  predicate NotVisited(visits: seq<Visit>, id: RowID) { forall i :: 0 <= i < |visits| ==> visits[i].id != id }

  /** Each row once, oldest first. */
  ghost predicate OldestFirst(t: Table, visits: seq<Visit>) {
    forall i, j :: 0 <= i < j < |visits| ==> visits[i].id != visits[j].id && NotYounger(t, visits[i].id, visits[j].id)
  }

  /** No visited row is younger than one still pending. */
  ghost predicate YoungerLeft(t: Table, visits: seq<Visit>, u: Table) {
    forall i, id :: 0 <= i < |visits| && InStatus(u, id, Pending) ==> NotYounger(t, visits[i].id, id)
  }

  predicate NotYounger(t: Table, a: RowID, b: RowID) { a in t && b in t && t[a].createdAt <= t[b].createdAt }

  ghost predicate Swept(c: Config, t: Table, visits: seq<Visit>, u: Table) {
    Settles(c, t, visits, u) && OldestFirst(t, visits) && YoungerLeft(t, visits, u)
  }

  /** A settled row is expired when its time was up at the visit, and what its run came to otherwise. */
  lemma SettledMeans(c: Config, v: Visit, r: Row)
    ensures v.now > r.createdAt + c.jobExpiry ==>
              Settled(c, v, r) ==
              r.(status := Failed, reason := Expired, message := OlderThanExpiry(r.createdAt, c.jobExpiry))
    ensures v.now <= r.createdAt + c.jobExpiry ==>
              RunStored(r, Settled(c, v, r), r.payload, c.extract(v.run, r.payload), c.maxWords)
  {
    var o := c.extract(v.run, r.payload);
    VerdictIsJudged(r.payload, o, c.maxWords);
    JudgedIsStored(r, r.payload, o, c.maxWords, VerdictOf(r.payload, o, c.maxWords));
  }

  lemma StillPending(c: Config, t: Table, visits: seq<Visit>, u: Table, id: RowID)
    requires Settles(c, t, visits, u) && InStatus(u, id, Pending)
    ensures NotVisited(visits, id) && id in t && u[id] == t[id]
  {
  }

  lemma SettlesOn(c: Config, t: Table, visits: seq<Visit>, u: Table, v: Visit, w: Table)
    requires Settles(c, t, visits, u) && Visits(c, u, v, w)
    ensures Settles(c, t, visits + [v], w)
  {
    var more := visits + [v];
    StillPending(c, t, visits, u, v.id);
    forall i | 0 <= i < |more|
      ensures InStatus(t, more[i].id, Pending) && w[more[i].id] == Settled(c, more[i], t[more[i].id])
    {
      if i < |visits| { assert more[i] == visits[i]; }
    }
    forall id | id in t && NotVisited(more, id) ensures w[id] == t[id] {
      assert more[|visits|].id != id;
      forall i | 0 <= i < |visits| ensures visits[i].id != id { assert more[i] == visits[i]; }
      assert NotVisited(visits, id);
    }
  }

  lemma SweepOn(c: Config, t: Table, visits: seq<Visit>, u: Table, v: Visit, w: Table)
    requires Swept(c, t, visits, u) && Visits(c, u, v, w)
    ensures Swept(c, t, visits + [v], w)
  {
    var more := visits + [v];
    SettlesOn(c, t, visits, u, v, w);
    StillPending(c, t, visits, u, v.id);
    forall i, j | 0 <= i < j < |more| ensures more[i].id != more[j].id && NotYounger(t, more[i].id, more[j].id) {
      assert more[i] == visits[i];
      if j == |visits| { assert more[j] == v; } else { assert more[j] == visits[j]; }
    }
    forall i, id | 0 <= i < |more| && InStatus(w, id, Pending) ensures NotYounger(t, more[i].id, id) {
      assert id != v.id && InStatus(u, id, Pending);
      StillPending(c, t, visits, u, id);
      if i < |visits| { assert more[i] == visits[i]; } else { assert more[i] == v; }
    }
  }

  /** When nothing is pending any more, the visits were to exactly the rows that were. */
  lemma SweptAll(c: Config, t: Table, visits: seq<Visit>, u: Table)
    requires Settles(c, t, visits, u) && !HasPending(u)
    ensures PendingIDs(t) == set v | v in visits :: v.id
  {
    forall id | id in PendingIDs(t) ensures exists v :: v in visits && v.id == id {
      assert !InStatus(u, id, Pending);
      assert !NotVisited(visits, id);
    }
  }

  /** Where the loop stands after k turns, against its budget of peeks. */
  ghost predicate WithinBudget(turns: seq<Turn>, k: nat, peeks: nat, end: Flow, q: Queue, budget: nat) {
    && peeks <= budget + 1
    && match end
       case Again => q.worker.Draining? && peeks + |PendingIDs(q.rows)| + NoiseFrom(turns, k) <= budget
       case Drained => !HasPending(q.rows)
       case PeekFailed => exists k :: 0 <= k < |turns| && turns[k].peekFault
       case Cancelled => exists k :: 0 <= k < |turns| && Stops(turns[k])
  }

  /** The loop never peeks in a turn it finds itself cancelled in, and never again after a failed peek. */
  ghost predicate Heeds(turns: seq<Turn>, k: nat, peeks: nat, end: Flow) {
    && peeks <= k && (end == Again ==> peeks == k)
    && forall j :: 0 <= j < k && j < |turns| ==>
         (turns[j].stopAtTop ==> peeks <= j) && (turns[j].peekFault ==> peeks <= j + 1 && end != Again)
  }

  lemma TurnCounted(turns: seq<Turn>, k: nat, peeks: nat, end: Flow, peeked: bool, q: Queue, q': Queue, budget: nat)
    requires WithinBudget(turns, k, peeks, Again, q, budget) && Heeds(turns, k, peeks, Again)
    requires TurnEnds(TurnAt(turns, k), end, peeked, q, q')
    ensures var peeks' := if peeked then peeks + 1 else peeks;
            WithinBudget(turns, k + 1, peeks', end, q', budget) && Heeds(turns, k + 1, peeks', end)
  {
    NoiseStep(turns, k);
  }

  /** With nothing disturbing it, the first k turns settled k rows. */
  ghost predicate Undisturbedly(c: Config, clock: nat -> Instant, k: nat, t: Table, visits: seq<Visit>, u: Table,
                                end: Flow) {
    && Swept(c, t, visits, u)
    && (forall i :: 0 <= i < |visits| ==> visits[i].now == clock(i))
    && (end == Drained || (end == Again && |visits| == k))
  }

  lemma TurnTaken(c: Config, clock: nat -> Instant, k: nat, t: Table, visits: seq<Visit>, u: Table, v: Visit, w: Table,
                  end: Flow)
    requires Undisturbedly(c, clock, k, t, visits, u, Again)
    requires (end == Drained && w == u) || (end == Again && Visits(c, u, v, w) && v.now == clock(k))
    ensures Undisturbedly(c, clock, k + 1, t, if end == Again then visits + [v] else visits, w, end)
  {
    if end == Again { SweepOn(c, t, visits, u, v, w); }
  }

  /**
   The drain loop. It peeks at most once more than there are rows pending, submissions and failed calls;
   it stops for an empty peek, a failed one or cancellation only; all it does is a run of the queue.
   Undisturbed, it settles exactly the pending rows, oldest first, and leaves none.
   */
  method Drain(c: Config, repo: Repository, turns: seq<Turn>, clock: nat -> Instant, run: nat, ghost q: Queue)
    returns (peeks: nat, visits: seq<Visit>, end: Flow, ghost trace: seq<Action>, ghost q': Queue)
    requires InStep(c, q, repo) && q.worker.Draining? && |q.ran| == run
    modifies repo
    ensures InStep(c, q', repo) && Run(c, q, trace) == Some(q')
    ensures peeks <= |PendingIDs(old(repo.rows))| + Noise(turns) + 1
    ensures match end
            case Again => false
            case Drained => !HasPending(repo.rows)
            case PeekFailed => exists k :: 0 <= k < |turns| && turns[k].peekFault
            case Cancelled => exists k :: 0 <= k < |turns| && Stops(turns[k])
    ensures forall j :: 0 <= j < |turns| ==>
              (turns[j].stopAtTop ==> peeks <= j) && (turns[j].peekFault ==> peeks <= j + 1)
    ensures Undisturbed(turns) ==>
              && end == Drained && Swept(c, old(repo.rows), visits, repo.rows)
              && PendingIDs(old(repo.rows)) == (set v | v in visits :: v.id)
              && forall i :: 0 <= i < |visits| ==> visits[i].now == clock(i)
  {
    peeks, visits, end, trace, q' := 0, [], Again, [], q;
    ghost var budget := |PendingIDs(q.rows)| + Noise(turns);
    var k: nat, run' := 0, run;
    assert turns[0..] == turns;
    while end == Again
      invariant InStep(c, q', repo) && Run(c, q, trace) == Some(q') && |q'.ran| == run'
      invariant WithinBudget(turns, k, peeks, end, q', budget) && Heeds(turns, k, peeks, end)
      invariant Undisturbed(turns) ==> Undisturbedly(c, clock, k, q.rows, visits, q'.rows, end)
      decreases end == Again, |PendingIDs(q'.rows)| + NoiseFrom(turns, k)
    {
      ghost var before, t := q', [];
      var peeked, visit;
      end, peeked, visit, run', t, q' := TakeTurn(c, repo, TurnAt(turns, k), clock(k), run', before);
      Joined(c, q, trace, before, t, q');
      trace := trace + t;
      NoiseStep(turns, k);
      TurnCounted(turns, k, peeks, end, peeked, before, q', budget);
      if Undisturbed(turns) { TurnTaken(c, clock, k, q.rows, visits, before.rows, visit, q'.rows, end); }
      if peeked { peeks := peeks + 1; }
      if end == Again { visits := visits + [visit]; }
      k := k + 1;
    }
    if Undisturbed(turns) { SweptAll(c, q.rows, visits, repo.rows); }
  }

  /** One round of the worker's outer loop: take a signal off the channel, then drain. */
  method Serve(c: Config, repo: Repository, notifier: ChannelNotifier, turns: seq<Turn>, clock: nat -> Instant,
               run: nat,
               ghost q: Queue)
    returns (peeks: nat, visits: seq<Visit>, end: Flow, ghost trace: seq<Action>, ghost q': Queue)
    requires InStep(c, q, repo) && q.worker.Idle? && |q.ran| == run
    requires notifier.signals == q.wake > 0
    modifies repo, notifier
    ensures InStep(c, q', repo) && Run(c, q, trace) == Some(q')
    ensures notifier.signals == old(notifier.signals) - 1
    ensures end == Drained ==> !HasPending(repo.rows)
    ensures Undisturbed(turns) ==> end == Drained && Swept(c, old(repo.rows), visits, repo.rows)
  {
    notifier.Receive();
    StepInv(c, q, Receive);
    ghost var q1, t := Next(c, q, Receive), [];
    RunSnoc(c, q, [], q, Receive);
    peeks, visits, end, t, q' := Drain(c, repo, turns, clock, run, q1);
    Joined(c, q, [] + [Receive], q1, t, q');
    trace := [] + [Receive] + t;
  }

  // ----------------------------------------------- pending work can be done

  lemma {:induction false} OldestOf(t: Table, ids: set<RowID>) returns (oldest: RowID)
    requires ids != {} && ids <= t.Keys
    ensures oldest in ids && forall id :: id in ids ==> t[oldest].createdAt <= t[id].createdAt
    decreases ids
  {
    var id :| id in ids;
    oldest := id;
    assert ids == (ids - {id}) + {id};
    if ids - {id} != {} {
      var other := OldestOf(t, ids - {id});
      if t[other].createdAt < t[id].createdAt { oldest := other; }
    }
  }

  /** Nothing but the worker's own fault-free steps and the second halves of submissions. */
  predicate WorkersOwn(actions: seq<Action>) {
    forall k :: 0 <= k < |actions| ==>
      var a := actions[k];
      a.Notify? || a.Receive? || a.Peek? || a.PeekEmpty? || a.Expire? || a.Claim? || a.Process?
  }

  lemma RunCons(c: Config, q: Queue, a: Action, rest: seq<Action>, t: Queue)
    requires Enabled(c, q, a) && Run(c, Next(c, q, a), rest) == Some(t)
    ensures Run(c, q, [a] + rest) == Some(t)
  {
    assert ([a] + rest)[1..] == rest;
  }

  /** The worker's step from a peeked or claimed row brings it to its loop head sooner or later, with one row fewer. */
  lemma StepOn(c: Config, q: Queue, now: Instant) returns (a: Action, q': Queue)
    requires QueueInv(c, q) && q.boot.Up? && (q.worker.Peeked? || q.worker.Claimed?)
    ensures Enabled(c, q, a) && q' == Next(c, q, a) && WorkersOwn([a]) && QueueInv(c, q') && q'.boot.Up?
    ensures q'.worker.Draining? || (q.worker.Peeked? && q'.worker.Claimed?)
    ensures |PendingIDs(q'.rows)| == if q.worker.Peeked? then |PendingIDs(q.rows)| - 1 else |PendingIDs(q.rows)|
  {
    if q.worker.Peeked? {
      a := if IsExpired(c, q.worker.row, now) then Expire(now) else Claim(now);
      PickupPending(q.rows, q.worker.id, OlderThanExpiry(q.worker.row.createdAt, c.jobExpiry));
    } else {
      var p := q.worker.row.payload;
      a := Action.Process;
      VerdictPending(q.rows, q.worker.id, VerdictOf(p, c.extract(|q.ran|, p), c.maxWords));
    }
    q' := Next(c, q, a);
    StepInv(c, q, a);
  }

  function Rank(q: Queue): nat {
    match q.worker
    case Idle => 0
    case Draining => 3 * |PendingIDs(q.rows)|
    case Peeked(_, _) => 3 * |PendingIDs(q.rows)| - if |PendingIDs(q.rows)| > 0 then 1 else 0
    case Claimed(_, _) => 3 * |PendingIDs(q.rows)| + 1
  }

  /** A working worker, left alone, ends with nothing pending. */
  lemma {:induction false} WorkerFinishes(c: Config, q: Queue, now: Instant) returns (actions: seq<Action>, t: Queue)
    requires QueueInv(c, q) && q.boot.Up? && !q.worker.Idle?
    ensures Run(c, q, actions) == Some(t) && WorkersOwn(actions) && !HasPending(t.rows) && t.worker.Idle?
    decreases Rank(q)
  {
    var a, q1;
    if q.worker.Draining? {
      if HasPending(q.rows) {
        var some :| InStatus(q.rows, some, Pending);
        assert some in PendingIDs(q.rows);
        var id := OldestOf(q.rows, PendingIDs(q.rows));
        a := Action.Peek(id);
      } else {
        a := PeekEmpty;
      }
      q1 := Next(c, q, a);
      StepInv(c, q, a);
    } else {
      if q.worker.Peeked? { assert q.worker.id in PendingIDs(q.rows); }
      a, q1 := StepOn(c, q, now);
    }
    actions, t := [], q1;
    if q1.worker != Idle { actions, t := WorkerFinishes(c, q1, now); }
    RunCons(c, q, a, actions, t);
    actions := [a] + actions;
  }

  /**
   Pending work is never out of reach: from every state that is attended, the worker's own steps, and the
   signals of submissions already stored, can leave nothing pending.
   */
  lemma PendingCanBeServed(c: Config, q: Queue, now: Instant) returns (actions: seq<Action>, t: Queue)
    requires c.buffer >= 1 && QueueInv(c, q) && q.boot.Up?
    requires q.wake > 0 || !q.worker.Idle? || q.notifying > 0
    ensures Run(c, q, actions) == Some(t) && WorkersOwn(actions) && !HasPending(t.rows)
  {
    if !q.worker.Idle? {
      actions, t := WorkerFinishes(c, q, now);
    } else {
      var q1 := q;
      if q.wake == 0 {
        q1 := Next(c, q, Notify);
        StepInv(c, q, Notify);
      }
      var q2 := Next(c, q1, Receive);
      StepInv(c, q1, Receive);
      var rest;
      rest, t := WorkerFinishes(c, q2, now);
      RunCons(c, q1, Receive, rest, t);
      actions := [Receive] + rest;
      if q.wake == 0 {
        RunCons(c, q, Notify, actions, t);
        actions := [Notify] + actions;
      }
    }
  }
}
