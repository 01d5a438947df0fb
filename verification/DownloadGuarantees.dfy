/** What the download registry promises its readers, over every run of the protocol. */
module DownloadGuarantees {
  import opened Common
  import opened DownloadTypes
  import opened DownloadProtocol
  import opened DownloadSafety

  /** State `s` is reached by the actions from a freshly scheduled job. */
  ghost predicate Reaches(id: JobID, requests: seq<Request>, buffer: nat, actions: seq<Action>, s: System) {
    Run(Start(id, requests, buffer), actions) == Some(s)
  }

  /** The worker's next critical section finds subscriber `i` registered and without room. */
  ghost predicate Drops(s: System, a: Action, i: nat) {
    (a.Work? || a.Finish?) && i in s.job.registered && !HasRoom(s.job.subs, s.job.buffer, i)
  }

  /** Some step of the run dropped subscriber `i`. */
  ghost predicate EverDropped(s: System, actions: seq<Action>, i: nat)
    requires Run(s, actions).Some?
    decreases |actions|
  {
    actions != [] && (Drops(s, actions[0], i) || EverDropped(Next(s, actions[0]), actions[1..], i))
  }

  ghost predicate Missing(j: Job, i: nat) { i < |j.subs| && |j.subs[i].Given()| < |j.events| }

  lemma FanOutMissing(j: Job, ev: Event, i: nat)
    requires ChannelInv(j) && !j.completed && i < |j.subs| && SubInv(j, i)
    ensures var t := FanOut(j.(events := j.events + [ev]), ev);
            && i < |t.subs|
            && (Missing(t, i) <==> Missing(j, i) || (i in j.registered && !HasRoom(j.subs, j.buffer, i)))
            && (i in j.registered && !HasRoom(j.subs, j.buffer, i) ==> |j.subs[i].buf| == j.buffer && t.subs[i].closed)
  {
  }

  lemma FinishMissing(j: Job, at: Instant, i: nat)
    requires i < |j.subs|
    ensures var ev := Event.Summary(j.id, SnapshotOf(j, true, at));
            && i < |FinishJob(j, at).subs|
            && (Missing(FinishJob(j, at), i) <==> Missing(FanOut(j.(events := j.events + [ev]), ev), i))
            && (FanOut(j.(events := j.events + [ev]), ev).subs[i].closed ==> FinishJob(j, at).subs[i].closed)
  {
  }

  lemma QuietMissing(s: System, a: Action, i: nat)
    requires Enabled(s, a) && !a.Work? && !a.Finish?
    ensures Missing(Next(s, a).job, i) <==> Missing(s.job, i)
  {
    if a == Turn(i) && s.handlers[i].pos >= |s.job.subs[i].backlog| && s.job.subs[i].buf != [] {
      assert Next(s, a).job.subs[i].Given() == s.job.subs[i].Given();
    } else if a.Attach? && i == |s.job.subs| {
      assert Next(s, a).job.subs[i].Given() == s.job.events;
    }
  }

  /** A subscriber starts missing events exactly at the step that drops it, with a full channel. */
  lemma DropStep(s: System, a: Action, i: nat)
    requires Inv(s) && Enabled(s, a)
    ensures Missing(Next(s, a).job, i) <==> Missing(s.job, i) || Drops(s, a, i)
    ensures Drops(s, a, i) ==>
              i < |s.job.subs| <= |Next(s, a).job.subs| && |s.job.subs[i].buf| == s.job.buffer &&
                  Next(s, a).job.subs[i].closed
  {
    var j := s.job;
    if a.Work? || a.Finish? {
      if i < |j.subs| {
        assert SubInv(j, i);
        if a.Work? {
          var result := RunEntry(j.requests[s.next], a.outcome, a.at);
          FanOutMissing(j.(entries := j.entries[s.next := result]), Event.Progress(j.id, result), i);
        } else {
          FanOutMissing(j, Event.Summary(j.id, SnapshotOf(j, true, a.at)), i);
          FinishMissing(j, a.at, i);
        }
      }
    } else {
      QuietMissing(s, a, i);
    }
  }

  lemma {:induction false} DroppedStaysMissing(s: System, actions: seq<Action>, t: System, i: nat)
    requires Inv(s) && Run(s, actions) == Some(t)
    ensures Missing(t.job, i) <==> Missing(s.job, i) || EverDropped(s, actions, i)
    decreases |actions|
  {
    if actions != [] {
      StepInv(s, actions[0]);
      DropStep(s, actions[0], i);
      DroppedStaysMissing(Next(s, actions[0]), actions[1..], t, i);
    }
  }

  /** A subscriber lacks events of the log if and only if some step dropped it. */
  lemma DroppedIffMissing(id: JobID, requests: seq<Request>, buffer: nat, actions: seq<Action>, s: System, i: nat)
    requires Reaches(id, requests, buffer, actions, s)
    ensures EverDropped(Start(id, requests, buffer), actions, i) <==> Missing(s.job, i)
  {
    StartInv(id, requests, buffer);
    DroppedStaysMissing(Start(id, requests, buffer), actions, s, i);
  }

  /** Exactly-once hand-off: backlog, then received, then buffered, is the log, gap-free and repetition-free. */
  lemma HandOff(id: JobID, requests: seq<Request>, buffer: nat, actions: seq<Action>, s: System, i: nat)
    requires Reaches(id, requests, buffer, actions, s) && i < |s.job.subs|
    ensures s.job.subs[i].Given() <= s.job.events
    ensures i in s.job.registered ==> s.job.subs[i].Given() == s.job.events
    ensures s.job.subs[i].Given() == s.job.events <==> !EverDropped(Start(id, requests, buffer), actions, i)
    ensures s.job.completed && !EverDropped(Start(id, requests, buffer), actions, i) ==>
              var given := s.job.subs[i].Given();
              |given| == |requests| + 1 && |s.job.entries| == |requests| &&
                  given[|requests|] == Event.Summary(id, Snapshot(s.job)) &&
              forall k :: 0 <= k < |requests| ==> given[k] == Event.Progress(id, s.job.entries[k])
  {
    RunInv(id, requests, buffer, actions, s);
    DroppedIffMissing(id, requests, buffer, actions, s, i);
    assert SubInv(s.job, i);
  }

  /** A channel as large as the rest of the log is never found full. */
  lemma DropBound(id: JobID, requests: seq<Request>, buffer: nat, actions: seq<Action>, s: System, i: nat)
    requires Reaches(id, requests, buffer, actions, s) && i < |s.job.subs|
    ensures buffer + |s.job.subs[i].backlog| >= |requests| + 1 ==>
              !EverDropped(Start(id, requests, buffer), actions, i)
    ensures EverDropped(Start(id, requests, buffer), actions, i) ==>
              |s.job.subs[i].backlog| + buffer <= |s.job.subs[i].Given()| < |s.job.events|
  {
    RunInv(id, requests, buffer, actions, s);
    DroppedIffMissing(id, requests, buffer, actions, s, i);
    assert SubInv(s.job, i);
  }

  /** The bound is tight: of a finished job, whoever had room for less than the rest of the log was dropped. */
  lemma DropBoundIsTight(id: JobID, requests: seq<Request>, buffer: nat, actions: seq<Action>, s: System, i: nat)
    requires Reaches(id, requests, buffer, actions, s) && i < |s.job.subs| && s.job.completed
    requires |s.job.subs[i].backlog| + |s.job.subs[i].received| + buffer <= |requests|
    ensures EverDropped(Start(id, requests, buffer), actions, i)
  {
    RunInv(id, requests, buffer, actions, s);
    DroppedIffMissing(id, requests, buffer, actions, s, i);
    assert SubInv(s.job, i);
  }

  /** The worker's position, and all it leaves alone at a subscriber. */
  ghost predicate Worked(s: System, t: System, m: nat) {
    && t.next == s.next + m && t.job.requests == s.job.requests && |t.job.entries| == |s.job.entries|
    && |t.job.events| == |s.job.events| + m && |t.job.subs| == |s.job.subs|
    && (|s.job.subs| > 0 ==>
          t.job.subs[0].backlog == s.job.subs[0].backlog && t.job.subs[0].received == s.job.subs[0].received)
  }

  lemma WorkOnce(s: System, a: Action)
    requires a.Work? && Enabled(s, a)
    ensures Worked(s, Next(s, a), 1)
  {
  }

  /** The worker's loop alone, `m` requests of it. */
  lemma {:induction false} WorkOn(s: System, a: Action, m: nat) returns (t: System)
    requires a.Work? && s.next + m <= |s.job.requests| == |s.job.entries|
    ensures Run(s, Repeat(a, m)) == Some(t) && Worked(s, t, m)
    decreases m
  {
    if m == 0 {
      t := s;
    } else {
      WorkOnce(s, a);
      t := WorkOn(Next(s, a), a, m - 1);
      assert Repeat(a, m)[1..] == Repeat(a, m - 1);
    }
  }

  /** The first `k` requests, a subscriber that never reads, the other requests, the end. */
  function SlowReader(requests: seq<Request>, k: nat, outcome: EnsureOutcome, at: Instant): seq<Action>
    requires k <= |requests|
  {
    var w := Work(outcome, at);
    Repeat(w, k) + ([Attach] + (Repeat(w, |requests| - k) + [Finish(at)]))
  }

  /** A subscriber attached after `k` requests. */
  lemma AttachLate(s0: System, a: Action, k: nat) returns (s2: System)
    requires a.Work? && s0.next == 0 && s0.job.subs == [] && s0.job.events == []
    requires k <= |s0.job.requests| == |s0.job.entries|
    ensures s2.next == k && s2.job.requests == s0.job.requests && |s2.job.entries| == |s0.job.entries|
    ensures |s2.job.subs| == 1 && |s2.job.subs[0].backlog| == k && s2.job.subs[0].received == []
    ensures Run(s0, Repeat(a, k) + [Attach]) == Some(s2)
  {
    var s1 := WorkOn(s0, a, k);
    s2 := Next(s1, Attach);
    RunSnoc(s0, Repeat(a, k), Attach);
  }

  lemma SlowReaderRuns(id: JobID, requests: seq<Request>, buffer: nat, k: nat, outcome: EnsureOutcome, at: Instant)
    returns (s3: System)
    requires k <= |requests|
    ensures s3.next == |s3.job.requests| == |requests| && |s3.job.subs| == 1
    ensures |s3.job.subs[0].backlog| == k && s3.job.subs[0].received == []
    ensures Run(Start(id, requests, buffer), SlowReader(requests, k, outcome, at)) == Run(s3, [Finish(at)])
  {
    var s0, a, m := Start(id, requests, buffer), Work(outcome, at), |requests| - k;
    var s2 := AttachLate(s0, a, k);
    s3 := WorkOn(s2, a, m);
    RunAppend(s2, Repeat(a, m), s3, [Finish(at)]);
    RunAppend(s0, Repeat(a, k) + [Attach], s2, Repeat(a, m) + [Finish(at)]);
    Regroup(Repeat(a, k), [Attach], Repeat(a, m) + [Finish(at)]);
  }

  lemma Regroup(x: seq<Action>, y: seq<Action>, z: seq<Action>)
    ensures x + y + z == x + (y + z)
  {
  }

  lemma FinishNow(s: System, at: Instant) returns (t: System)
    requires s.next == |s.job.requests| && |s.job.subs| == 1
    ensures Run(s, [Finish(at)]) == Some(t) && t.job.completed && |t.job.subs| == 1
    ensures t.job.subs[0].backlog == s.job.subs[0].backlog && t.job.subs[0].received == s.job.subs[0].received
  {
    t := Next(s, Finish(at));
    assert [Finish(at)][1..] == [];
  }

  /** For every job, backlog and buffer short of the bound there is a run that drops the subscriber. */
  lemma ShortBufferDrops(id: JobID, requests: seq<Request>, buffer: nat, k: nat, outcome: EnsureOutcome, at: Instant)
    returns (s: System)
    requires k + buffer <= |requests|
    ensures Reaches(id, requests, buffer, SlowReader(requests, k, outcome, at), s)
    ensures |s.job.subs| == 1 && |s.job.subs[0].backlog| == k
    ensures EverDropped(Start(id, requests, buffer), SlowReader(requests, k, outcome, at), 0)
  {
    var s3 := SlowReaderRuns(id, requests, buffer, k, outcome, at);
    s := FinishNow(s3, at);
    DropBoundIsTight(id, requests, buffer, SlowReader(requests, k, outcome, at), s, 0);
  }

  lemma ClosedIsFinal(s: System, a: Action, i: nat)
    requires ChannelInv(s.job) && Enabled(s, a) && i < |s.job.subs| && s.job.subs[i].closed
    ensures var t := Next(s, a).job;
            i < |t.subs| && t.subs[i].closed && t.subs[i].Given() == s.job.subs[i].Given()
  {
    if a == Turn(i) && s.handlers[i].pos >= |s.job.subs[i].backlog| && s.job.subs[i].buf != [] {
      assert Next(s, a).job.subs[i].Given() == s.job.subs[i].Given();
    }
  }

  /** Registered channels are distinct and open; nothing enters or reopens a closed channel. */
  lemma ChannelSafety(id: JobID, requests: seq<Request>, buffer: nat, actions: seq<Action>, s: System, a: Action)
    requires Reaches(id, requests, buffer, actions, s) && Enabled(s, a)
    ensures Distinct(s.job.registered)
    ensures forall i: nat :: i in s.job.registered <==> i < |s.job.subs| && !s.job.subs[i].closed
    ensures var t := Next(s, a).job;
            forall i :: 0 <= i < |s.job.subs| && s.job.subs[i].closed ==>
              i < |t.subs| && t.subs[i].closed && t.subs[i].Given() == s.job.subs[i].Given()
  {
    RunInv(id, requests, buffer, actions, s);
    forall i: nat | i < |s.job.subs| && s.job.subs[i].closed
      ensures i < |Next(s, a).job.subs| && Next(s, a).job.subs[i].closed
      ensures Next(s, a).job.subs[i].Given() == s.job.subs[i].Given()
    {
      ClosedIsFinal(s, a, i);
    }
  }

  // ---------------------------------------------- snapshot, log, summary

  lemma {:induction false} CommittedCount(entries: seq<EntryResult>, next: nat)
    requires forall k :: 0 <= k < |entries| ==> (entries[k].status.Pending? <==> next <= k)
    ensures CountStatus(entries, Success) + CountStatus(entries, Failed) ==
            if next <= |entries| then next else |entries|
  {
    if entries != [] {
      CommittedCount(entries[..|entries| - 1], next);
    }
  }

  /** Snapshot, log and summary never disagree, and a finished job's snapshot is its summary's for good. */
  lemma SnapshotAgrees(id: JobID, requests: seq<Request>, buffer: nat, actions: seq<Action>, s: System)
    requires Reaches(id, requests, buffer, actions, s)
    ensures var n, log, snap := |requests|, s.job.events, Snapshot(s.job);
            && |log| <= n + 1 && |snap.entries| == snap.total == n
            && (forall k :: 0 <= k < n ==>
                  if k < |log| then
                    log[k] == Event.Progress(id, snap.entries[k]) && snap.entries[k].paperID == requests[k].paperID
                  else snap.entries[k] == PendingEntry(requests[k]))
            && snap.succeeded + snap.failed == (if |log| <= n then |log| else n)
            && (snap.completed <==> |log| == n + 1)
            && (snap.completed ==> log[n] == Event.Summary(id, snap))
    ensures s.job.completed ==> forall a :: Enabled(s, a) ==> Snapshot(Next(s, a).job) == Snapshot(s.job)
  {
    RunInv(id, requests, buffer, actions, s);
    CommittedCount(s.job.entries, s.next);
  }

  // --------------------------------------------------------- the streams

  /** The complete stream of a job: one progress frame per request, in order, then one summary. */
  ghost predicate WholeStream(frames: seq<Frame>, j: Job) {
    var n := |j.requests|;
    && |frames| == n + 1
    && |j.entries| == n
    && (forall k :: 0 <= k < n ==>
         frames[k] == ProgressFrame(j.entries[k]) && j.entries[k].paperID == j.requests[k].paperID)
    && frames[n] == SummaryFrame(j.id, n, CountStatus(j.entries, Success), CountStatus(j.entries, Failed))
  }

  lemma StreamShape(s: System, i: nat)
    requires Inv(s) && i < |s.handlers|
    ensures var h, w := s.handlers[i], |Written(s.job.subs[i], s.handlers[i])|;
            && w <= |s.job.events|
            && h.frames == FramesOf(s.job.events)[..w] + (if h.phase.Errored? then [STREAM_CLOSED] else [])
            && (h.phase.Summarised? ==> w == |s.job.requests| + 1)
            && (h.phase.Errored? ==> w == |s.job.subs[i].Given()| < |s.job.events|)
  {
    var j, sub, h := s.job, s.job.subs[i], s.handlers[i];
    assert SubInv(j, i) && HandlerInv(sub, h);
    var w := Written(sub, h);
    WrittenIsGiven(j, sub, h);
    OnlyLastIsSummary(s, w);
    assert FramesOf(j.events[..|w|]) == FramesOf(j.events)[..|w|];
    if h.phase.Errored? {
      assert w == sub.Given();
    }
  }

  /**
   Every stream is a prefix of the log's frames. One that ended by itself is either the whole stream
   of the finished job, or a proper prefix followed by one error frame; the latter only after a drop.
   */
  lemma StreamOutcome(id: JobID, requests: seq<Request>, buffer: nat, actions: seq<Action>, s: System, i: nat)
    requires Reaches(id, requests, buffer, actions, s) && i < |s.handlers|
    ensures |s.handlers| == |s.job.subs|
    ensures var h, dropped := s.handlers[i], EverDropped(Start(id, requests, buffer), actions, i);
            match h.phase
            case Summarised => s.job.completed && WholeStream(h.frames, s.job)
            case Errored =>
              var k := |h.frames| - 1;
              && dropped && |s.job.subs[i].backlog| + buffer <= k < |s.job.events|
              && h.frames == FramesOf(s.job.events)[..k] + [STREAM_CLOSED]
            case _ => h.frames <= FramesOf(s.job.events) && STREAM_CLOSED !in h.frames
  {
    RunInv(id, requests, buffer, actions, s);
    DroppedIffMissing(id, requests, buffer, actions, s, i);
    StreamShape(s, i);
    assert SubInv(s.job, i);
    var w := |Written(s.job.subs[i], s.handlers[i])|;
    if s.handlers[i].phase.Summarised? {
      assert s.handlers[i].frames == FramesOf(s.job.events)[..w] == FramesOf(s.job.events);
      LogIsWhole(s);
    }
  }

  lemma LogIsWhole(s: System)
    requires LogInv(s) && |s.job.events| == |s.job.requests| + 1
    ensures s.job.completed && WholeStream(FramesOf(s.job.events), s.job)
  {
  }

  /** Every frame before the end is the progress of its entry, and the error frame names its reason. */
  lemma StreamFrames(id: JobID, requests: seq<Request>, buffer: nat, actions: seq<Action>, s: System, i: nat)
    requires Reaches(id, requests, buffer, actions, s) && i < |s.handlers|
    ensures var frames, phase, n := s.handlers[i].frames, s.handlers[i].phase, |s.job.entries|;
            match phase
            case Summarised => |frames| == n + 1 && AllProgress(frames[..n], s.job)
            case Errored =>
              0 < |frames| <= n + 1 && AllProgress(frames[..|frames| - 1], s.job) &&
              frames[|frames| - 1] == ErrorFrame("stream_closed")
            case _ => AllProgress(frames, s.job)
  {
    RunInv(id, requests, buffer, actions, s);
    ShapeFrames(s, i);
  }

  lemma ProgressPrefix(s: System, w: nat)
    requires LogInv(s) && w <= |s.job.events| && w <= |s.job.requests|
    ensures |FramesOf(s.job.events)| == |s.job.events| && AllProgress(FramesOf(s.job.events)[..w], s.job)
  {
  }

  lemma ShapeFrames(s: System, i: nat)
    requires Inv(s) && i < |s.handlers|
    ensures var frames, phase, n := s.handlers[i].frames, s.handlers[i].phase, |s.job.entries|;
            match phase
            case Summarised => |frames| == n + 1 && AllProgress(frames[..n], s.job)
            case Errored =>
              0 < |frames| <= n + 1 && AllProgress(frames[..|frames| - 1], s.job) &&
              frames[|frames| - 1] == ErrorFrame("stream_closed")
            case _ => AllProgress(frames, s.job)
  {
    var h, n := s.handlers[i], |s.job.requests|;
    var w := |Written(s.job.subs[i], h)|;
    var all := FramesOf(s.job.events);
    StreamShape(s, i);
    if h.phase.Summarised? {
      ProgressPrefix(s, n);
      assert h.frames[..n] == all[..n];
    } else {
      NoEarlySummary(s, i);
      ProgressPrefix(s, w);
      assert h.frames[..w] == all[..w];
      assert h.frames == all[..w] + if h.phase.Errored? then [STREAM_CLOSED] else [];
    }
  }

  predicate AllProgress(frames: seq<Frame>, j: Job) {
    |frames| <= |j.entries| && forall k :: 0 <= k < |frames| ==> frames[k] == ProgressFrame(j.entries[k])
  }

  /** A response that is still open, or was left, shows no summary. */
  lemma NoEarlySummary(s: System, i: nat)
    requires Inv(s) && i < |s.handlers| && !s.handlers[i].phase.Summarised?
    ensures |Written(s.job.subs[i], s.handlers[i])| <= |s.job.requests|
  {
    var sub, h := s.job.subs[i], s.handlers[i];
    assert SubInv(s.job, i) && HandlerInv(sub, h);
    WrittenIsGiven(s.job, sub, h);
    OnlyLastIsSummary(s, Written(sub, h));
  }

  lemma WrittenIsGiven(j: Job, sub: Sub, h: Handler)
    requires sub.Given() <= j.events && HandlerInv(sub, h)
    ensures |Written(sub, h)| <= |j.events| && Written(sub, h) == j.events[..|Written(sub, h)|]
  {
    var w := Written(sub, h);
    if h.pos < |sub.backlog| {
      assert w == sub.backlog[..h.pos];
      assert sub.Given()[..h.pos] == w;
    } else {
      assert w == sub.backlog + sub.received;
      assert sub.Given()[..|w|] == w;
    }
  }

  // ------------------------------------------------- streams terminate

  function Repeat(a: Action, m: nat): seq<Action> { seq(m, _ => a) }

  function Unread(sub: Sub, h: Handler): int { |sub.backlog| - h.pos + |sub.buf| }

  /** A turn on a finished job's open stream uses up an unread event, or ends the stream. */
  lemma TurnOnFinished(s: System, i: nat)
    requires Inv(s) && s.job.completed && i < |s.handlers| && s.handlers[i].phase.Streaming?
    ensures Enabled(s, Turn(i))
    ensures var t := Next(s, Turn(i));
            && Inv(t) && t.job.completed && i < |t.handlers| && (Missing(t.job, i) <==> Missing(s.job, i))
            && Unread(s.job.subs[i], s.handlers[i]) >= 0
            && (t.handlers[i].phase.Streaming? ==>
                  Unread(t.job.subs[i], t.handlers[i]) == Unread(s.job.subs[i], s.handlers[i]) - 1)
            && !t.handlers[i].phase.Disconnected?
  {
    assert SubInv(s.job, i) && HandlerInv(s.job.subs[i], s.handlers[i]);
    StepInv(s, Turn(i));
    DropStep(s, Turn(i), i);
  }

  /** Once the job is finished a stream is never blocked: reading on ends it, with the summary unless it was dropped. */
  lemma {:induction false} StreamTerminates(s: System, i: nat) returns (m: nat, t: System)
    requires Inv(s) && s.job.completed && i < |s.handlers| && s.handlers[i].phase.Streaming?
    ensures Run(s, Repeat(Turn(i), m)) == Some(t)
    ensures m <= Unread(s.job.subs[i], s.handlers[i]) + 1
    ensures i < |t.handlers| && t.handlers[i].phase == if Missing(s.job, i) then Errored else Summarised
    decreases Unread(s.job.subs[i], s.handlers[i])
  {
    var a := Turn(i);
    TurnOnFinished(s, i);
    var s1 := Next(s, a);
    if s1.handlers[i].phase.Streaming? {
      TurnOnFinished(s1, i);
      m, t := StreamTerminates(s1, i);
      m := m + 1;
      assert Repeat(a, m)[1..] == Repeat(a, m - 1);
    } else {
      m, t := 1, s1;
      assert Repeat(a, 1)[1..] == [];
      EndedStream(s1, i);
    }
  }

  /** A finished job's stream that ended by itself was dropped if and only if it shows an error. */
  lemma EndedStream(s: System, i: nat)
    requires Inv(s) && s.job.completed && i < |s.handlers| &&
              (s.handlers[i].phase.Summarised? || s.handlers[i].phase.Errored?)
    ensures s.handlers[i].phase.Errored? <==> Missing(s.job, i)
  {
    var j, sub, h := s.job, s.job.subs[i], s.handlers[i];
    assert SubInv(j, i) && HandlerInv(sub, h);
    var w := Written(sub, h);
    WrittenIsGiven(j, sub, h);
    OnlyLastIsSummary(s, w);
    if h.phase.Errored? {
      assert w == sub.Given();
    }
  }
}
