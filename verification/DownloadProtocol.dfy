/**
 The download registry's per-job protocol: one worker, any number of subscribers, and the SSE
 handlers that consume the subscriptions. Each critical section under the job mutex, and each turn
 of an SSE handler, is one atomic step; a run is any interleaving of such steps.
 */
module DownloadProtocol {
  import opened Common
  import opened DownloadTypes

  // ---------------------------------------------------------------- state

  /** A subscription: the backlog handed over, what was received since, and the live channel. */
  datatype Sub = Sub(backlog: seq<Event>, received: seq<Event>, buf: seq<Event>, closed: bool) {
    /** Everything this subscriber was ever given, in order. */
    function Given(): seq<Event> { backlog + received + buf }
  }

  /** The job record; `registered` lists the open subscriptions by index into `subs`. */
  datatype Job = Job(
    id: JobID, requests: seq<Request>, buffer: nat,
    entries: seq<EntryResult>, events: seq<Event>,
    subs: seq<Sub>, registered: seq<nat>,
    completed: bool, completedAt: Instant)

  function NewJob(id: JobID, requests: seq<Request>, buffer: nat): Job {
    Job(id, requests, buffer, seq(|requests|, i requires 0 <= i < |requests| => PendingEntry(requests[i])),
        [], [], [], false, ZERO_TIME)
  }

  function SnapshotOf(j: Job, completed: bool, completedAt: Instant): JobSnapshot {
    JobSnapshot(j.id, |j.requests|, CountStatus(j.entries, Success), CountStatus(j.entries, Failed),
                completed, completedAt, j.entries)
  }

  function Snapshot(j: Job): JobSnapshot { SnapshotOf(j, j.completed, j.completedAt) }

  // ------------------------------------------------- critical sections

  /** The non-blocking send: deliver when there is room, otherwise close the channel. */
  function Send(s: Sub, buffer: nat, ev: Event): Sub {
    if |s.buf| < buffer then s.(buf := s.buf + [ev]) else s.(closed := true)
  }

  predicate HasRoom(subs: seq<Sub>, buffer: nat, i: nat) { i < |subs| && |subs[i].buf| < buffer }

  /** The registered subscribers that keep their place: those with room, in order. */
  function Kept(registered: seq<nat>, subs: seq<Sub>, buffer: nat): seq<nat> {
    if registered == [] then []
    else
      var last := |registered| - 1;
      Kept(registered[..last], subs, buffer) +
      if HasRoom(subs, buffer, registered[last]) then [registered[last]] else []
  }

  function SendTo(subs: seq<Sub>, listed: seq<nat>, buffer: nat, ev: Event): seq<Sub> {
    seq(|subs|, i requires 0 <= i < |subs| => if i in listed then Send(subs[i], buffer, ev) else subs[i])
  }

  function FanOut(j: Job, ev: Event): Job {
    j.(subs := SendTo(j.subs, j.registered, j.buffer, ev),
       registered := Kept(j.registered, j.subs, j.buffer))
  }

  function AppendAndFanOut(j: Job, idx: nat, result: EntryResult): Job
    requires idx < |j.entries|
  {
    var ev := Event.Progress(j.id, result);
    FanOut(j.(entries := j.entries[idx := result], events := j.events + [ev]), ev)
  }

  function CloseAll(subs: seq<Sub>, listed: seq<nat>): seq<Sub> {
    seq(|subs|, i requires 0 <= i < |subs| => if i in listed then subs[i].(closed := true) else subs[i])
  }

  function CloseRegistered(j: Job): Job {
    j.(subs := CloseAll(j.subs, j.registered), registered := [])
  }

  function FinishJob(j: Job, at: Instant): Job {
    var ev := Event.Summary(j.id, SnapshotOf(j, true, at));
    CloseRegistered(FanOut(j.(events := j.events + [ev]), ev)).(completed := true, completedAt := at)
  }

  /** The new subscription is always the last of `subs`. */
  function Subscribe(j: Job): Job {
    j.(subs := j.subs + [Sub(j.events, [], [], j.completed)],
       registered := if j.completed then j.registered else j.registered + [|j.subs|])
  }

  /** The receiver takes the oldest buffered event. */
  function Receive(j: Job, i: nat): Job
    requires i < |j.subs| && j.subs[i].buf != []
  {
    var s := j.subs[i];
    j.(subs := j.subs[i := s.(received := s.received + [s.buf[0]], buf := s.buf[1..])])
  }

  // ------------------------------------------------------- SSE handlers

  datatype Frame =
    | ProgressFrame(result: EntryResult)
    | SummaryFrame(jobID: JobID, total: nat, succeeded: nat, failed: nat)
    | ErrorFrame(reason: string)

  function FrameOf(ev: Event): Frame {
    match ev
    case Progress(_, result) => ProgressFrame(result)
    case Summary(_, s) => SummaryFrame(s.jobID, s.total, s.succeeded, s.failed)
  }

  function FramesOf(events: seq<Event>): seq<Frame> {
    seq(|events|, i requires 0 <= i < |events| => FrameOf(events[i]))
  }

  const STREAM_CLOSED := ErrorFrame("stream_closed")

  datatype Phase = Streaming | Summarised | Errored | Disconnected

  /** A handler replays its backlog up to `pos`, then forwards the live channel. */
  datatype Handler = Handler(pos: nat, frames: seq<Frame>, phase: Phase)

  const NEW_HANDLER := Handler(0, [], Streaming)

  /** Write one event; a summary ends the response. */
  function WriteEvent(h: Handler, ev: Event): Handler {
    h.(frames := h.frames + [FrameOf(ev)], phase := if ev.Summary? then Summarised else h.phase)
  }

  // --------------------------------------------------- the interleaving

  /** `next` is the worker's position: entries before it are committed; total + 1 means it is done. */
  datatype System = System(job: Job, next: nat, handlers: seq<Handler>)

  datatype Action =
    | Work(outcome: EnsureOutcome, at: Instant)  // one iteration of the worker's loop
    | Finish(at: Instant)                        // the worker's last critical section
    | Attach                                     // a handler subscribes
    | Turn(i: nat)                               // handler i writes a backlog event or selects the live channel
    | Disconnect(i: nat)                         // handler i selects its cancelled request context

  function Start(id: JobID, requests: seq<Request>, buffer: nat): System {
    System(NewJob(id, requests, buffer), 0, [])
  }

  predicate Enabled(s: System, a: Action) {
    match a
    case Work(_, _) => s.next < |s.job.requests| && s.next < |s.job.entries|
    case Finish(_) => s.next == |s.job.requests|
    case Attach => true
    case Turn(i) =>
      i < |s.handlers| && i < |s.job.subs| && s.handlers[i].phase.Streaming? &&
      (s.handlers[i].pos < |s.job.subs[i].backlog| || s.job.subs[i].buf != [] || s.job.subs[i].closed)
    case Disconnect(i) =>
      i < |s.handlers| && i < |s.job.subs| && s.handlers[i].phase.Streaming? &&
      s.handlers[i].pos >= |s.job.subs[i].backlog|
  }

  function Next(s: System, a: Action): System
    requires Enabled(s, a)
  {
    match a
    case Work(outcome, at) =>
      s.(job := AppendAndFanOut(s.job, s.next, RunEntry(s.job.requests[s.next], outcome, at)), next := s.next + 1)
    case Finish(at) =>
      s.(job := FinishJob(s.job, at), next := s.next + 1)
    case Attach =>
      s.(job := Subscribe(s.job), handlers := s.handlers + [NEW_HANDLER])
    case Turn(i) =>
      var h, sub := s.handlers[i], s.job.subs[i];
      if h.pos < |sub.backlog| then
        s.(handlers := s.handlers[i := WriteEvent(h, sub.backlog[h.pos]).(pos := h.pos + 1)])
      else if sub.buf != [] then
        s.(job := Receive(s.job, i), handlers := s.handlers[i := WriteEvent(h, sub.buf[0])])
      else
        s.(handlers := s.handlers[i := h.(frames := h.frames + [STREAM_CLOSED], phase := Errored)])
    case Disconnect(i) =>
      s.(handlers := s.handlers[i := s.handlers[i].(phase := Disconnected)])
  }

  /** The state after the actions, or None when one of them is not enabled where it is taken. */
  function Run(s: System, actions: seq<Action>): Option<System>
    decreases |actions|
  {
    if actions == [] then Some(s)
    else if Enabled(s, actions[0]) then Run(Next(s, actions[0]), actions[1..])
    else None
  }

  // ---------------------------------------------------------- invariants

  /** The log is the committed entries' progress events, then the summary of the finished job. */
  ghost predicate LogInv(s: System) {
    var j, n := s.job, |s.job.requests|;
    && |j.entries| == n && s.next <= n + 1 && |j.events| == s.next
    && (forall k :: 0 <= k < n ==>
          j.entries[k].paperID == j.requests[k].paperID && (j.entries[k].status.Pending? <==> s.next <= k))
    && (forall k :: s.next <= k < n ==> j.entries[k] == PendingEntry(j.requests[k]))
    && (forall k :: 0 <= k < s.next && k < n ==> j.events[k] == Event.Progress(j.id, j.entries[k]))
    && (j.completed <==> s.next == n + 1)
    && (j.completed ==> j.events[n] == Event.Summary(j.id, Snapshot(j)))
  }

  predicate Distinct(xs: seq<nat>) { forall a, b :: 0 <= a < b < |xs| ==> xs[a] != xs[b] }

  /** The registered subscriptions are exactly the open channels, each listed once. */
  ghost predicate ChannelInv(j: Job) {
    && Distinct(j.registered)
    && (forall i :: i in j.registered ==> i < |j.subs|)
    && (forall i :: 0 <= i < |j.subs| ==> (j.subs[i].closed <==> i !in j.registered))
    && (j.completed ==> j.registered == [])
  }

  /** What one subscription was given, against the log so far. */
  ghost predicate SubInv(j: Job, i: nat)
    requires i < |j.subs|
  {
    var s := j.subs[i];
    && |s.buf| <= j.buffer
    && s.Given() <= j.events
    && (!s.closed ==> s.Given() == j.events)
    && (|s.Given()| < |j.events| ==> |s.backlog| + j.buffer <= |s.Given()|)
    && (s.closed ==> j.completed || |s.Given()| < |j.events|)
  }

  /** The events a handler has put on the wire. */
  function Written(sub: Sub, h: Handler): seq<Event> {
    sub.backlog[..if h.pos <= |sub.backlog| then h.pos else |sub.backlog|] + sub.received
  }

  ghost predicate HandlerInv(sub: Sub, h: Handler) {
    var w := Written(sub, h);
    && h.pos <= |sub.backlog|
    && (h.pos < |sub.backlog| ==> sub.received == [])
    && h.frames == FramesOf(w) + (if h.phase.Errored? then [STREAM_CLOSED] else [])
    && (forall k :: 0 <= k < |w| - 1 ==> !w[k].Summary?)
    && (h.phase.Summarised? <==> w != [] && w[|w| - 1].Summary?)
    && (h.phase.Errored? ==> sub.closed && sub.buf == [] && h.pos == |sub.backlog|)
  }

  ghost predicate Inv(s: System) {
    && LogInv(s)
    && ChannelInv(s.job)
    && |s.handlers| == |s.job.subs|
    && (forall i :: 0 <= i < |s.job.subs| ==> SubInv(s.job, i))
    && (forall i :: 0 <= i < |s.job.subs| ==> HandlerInv(s.job.subs[i], s.handlers[i]))
  }
}
