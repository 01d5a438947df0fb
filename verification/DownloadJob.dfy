/**
 The job record as the registry holds it: buffered channels, a subscriber slice over a backing array,
 and critical sections that update them in place. Each method is proved equal to the protocol's step.
 */
module DownloadJob {
  import opened Common
  import opened DownloadTypes
  import P = DownloadProtocol
  import S = DownloadSafety
  import opened DownloadRecords

  /** A buffered channel. Sending to, or closing, a closed channel would panic; neither may be attempted. */
  class Channel {
    const cap: nat
    var buf: seq<Event>
    var closed: bool
    ghost var received: seq<Event>  // everything the receiver took out

    constructor (cap: nat)
      ensures this.cap == cap && buf == [] && !closed && received == []
    {
      this.cap, buf, closed, received := cap, [], false, [];
    }

    /** The send arm of a select with a default: false when the buffer is full. */
    method TrySend(ev: Event) returns (sent: bool)
      requires !closed
      modifies this`buf
      ensures sent <==> |old(buf)| < cap
      ensures buf == if sent then old(buf) + [ev] else old(buf)
    {
      sent := |buf| < cap;
      if sent { buf := buf + [ev]; }
    }

    method Close()
      requires !closed
      modifies this`closed
      ensures closed
    {
      closed := true;
    }

    /** A receive that does not block: the oldest event, or None from a closed, drained channel. */
    method Receive() returns (ev: Option<Event>)
      requires buf != [] || closed
      modifies this`buf, this`received
      ensures old(buf) == [] ==> ev == None && buf == [] && received == old(received)
      ensures old(buf) != [] ==>
                ev == Some(old(buf)[0]) && buf == old(buf)[1..] && received == old(received) + [old(buf)[0]]
    {
      if buf == [] { return None; }
      ev := Some(buf[0]);
      received := received + [buf[0]];
      buf := buf[1..];
    }
  }

  predicate OthersOnly(actions: seq<P.Action>) {
    forall k :: 0 <= k < |actions| ==> !actions[k].Work? && !actions[k].Finish?
  }

  /**
   What is left to happen from request `i` on: the worker's critical section for each request followed
   by whatever others do before the next one, and the worker's end.
   */
  function Remaining(outcomes: seq<(EnsureOutcome, Instant)>, between: seq<seq<P.Action>>, at: Instant,
                     i: nat): seq<P.Action>
    requires i <= |outcomes| < |between|
    decreases |outcomes| - i
  {
    if i == |outcomes| then [P.Finish(at)]
    else [P.Work(outcomes[i].0, outcomes[i].1)] + (between[i + 1] + Remaining(outcomes, between, at, i + 1))
  }

  lemma RemainingStep(outcomes: seq<(EnsureOutcome, Instant)>, between: seq<seq<P.Action>>, at: Instant, i: nat,
                      s: P.System)
    requires i < |outcomes| < |between| && P.Run(s, Remaining(outcomes, between, at, i)).Some?
    ensures var step := [P.Work(outcomes[i].0, outcomes[i].1)] + between[i + 1];
            && P.Run(s, step).Some?
            && P.Run(P.Run(s, step).value, Remaining(outcomes, between, at, i + 1)) ==
                 P.Run(s, Remaining(outcomes, between, at, i))
  {
    var step := [P.Work(outcomes[i].0, outcomes[i].1)] + between[i + 1];
    assert Remaining(outcomes, between, at, i) == step + Remaining(outcomes, between, at, i + 1);
    S.RunSplits(s, step, Remaining(outcomes, between, at, i + 1));
  }

  lemma {:induction false} RemainingAttempts(outcomes: seq<(EnsureOutcome, Instant)>, between: seq<seq<P.Action>>,
                                             at: Instant, i: nat)
    requires i <= |outcomes| < |between| && forall k :: 0 <= k < |between| ==> OthersOnly(between[k])
    ensures Attempts(Remaining(outcomes, between, at, i)) == outcomes[i..]
    decreases |outcomes| - i
  {
    if i == |outcomes| {
      assert [P.Finish(at)][1..] == [];
    } else {
      var w, rest := P.Work(outcomes[i].0, outcomes[i].1), Remaining(outcomes, between, at, i + 1);
      RemainingAttempts(outcomes, between, at, i + 1);
      NoAttempts(between[i + 1]);
      AttemptsAppend(between[i + 1], rest);
      assert ([w] + (between[i + 1] + rest))[1..] == between[i + 1] + rest;
      assert outcomes[i..] == [outcomes[i]] + outcomes[i + 1..];
    }
  }

  lemma AllAttempts(outcomes: seq<(EnsureOutcome, Instant)>, between: seq<seq<P.Action>>, at: Instant)
    requires |outcomes| < |between| && forall k :: 0 <= k < |between| ==> OthersOnly(between[k])
    ensures Attempts(between[0] + Remaining(outcomes, between, at, 0)) == outcomes
  {
    NoAttempts(between[0]);
    AttemptsAppend(between[0], Remaining(outcomes, between, at, 0));
    RemainingAttempts(outcomes, between, at, 0);
    assert outcomes[0..] == outcomes;
  }

  /** What the worker's whole run leaves behind: every request's own outcome, and a closed log. */
  predicate Worked(j: P.Job, outcomes: seq<(EnsureOutcome, Instant)>, at: Instant) {
    && |j.entries| == |j.requests| == |outcomes|
    && (forall k :: 0 <= k < |outcomes| ==> Recorded(j.entries[k], j.requests[k], outcomes[k].0, outcomes[k].1))
    && Closed(j, at)
  }

  lemma WholeRun(s: P.System, actions: seq<P.Action>, outcomes: seq<(EnsureOutcome, Instant)>, t: P.System, at: Instant)
    requires P.Run(s, actions) == Some(t) && Attempts(actions) == outcomes
    requires s.next == 0 && |s.job.entries| == |s.job.requests| == |outcomes| && Closed(t.job, at)
    ensures Worked(t.job, outcomes, at)
  {
    RunFills(s, actions, t);
    AllRecorded(s, outcomes, t);
  }

  /** From here on the actions left lead to where the whole run leads. */
  predicate OnCourse(s: P.System, outcomes: seq<(EnsureOutcome, Instant)>, between: seq<seq<P.Action>>, at: Instant,
                     i: nat, whole: Option<P.System>)
    requires i <= |outcomes| < |between|
  {
    whole.Some? && P.Run(s, Remaining(outcomes, between, at, i)) == whole
  }

  class JobRecord {
    const id: JobID
    const requests: seq<Request>
    const buffer: nat
    const entries: array<EntryResult>
    var events: seq<Event>
    var slots: array<Channel?>  // backing array of the subscriber slice
    var count: nat              // its length
    var completed: bool
    var completedAt: Instant

    ghost var chans: seq<Channel>          // every channel handed out, in order
    ghost var live: set<Channel>           // the same channels, as a footprint
    ghost var backlogs: seq<seq<Event>>    // the backlog handed out with each
    ghost var registered: seq<nat>         // the subscriber slice, as indices into chans

    /** The channels handed out are distinct objects of the configured capacity. */
    ghost predicate Channels()
      reads this
    {
      && |backlogs| == |chans|
      && (forall i, j :: 0 <= i < j < |chans| ==> chans[i] != chans[j])
      && (forall i :: 0 <= i < |chans| ==> chans[i] in live && chans[i].cap == buffer)
    }

    /** Slots from `lo` up to `hi` hold the channels that `listed` names there. */
    ghost predicate Lists(listed: seq<nat>, lo: nat, hi: nat)
      reads this, slots
    {
      && hi <= |listed| && hi <= slots.Length
      && forall k :: lo <= k < hi ==> listed[k] < |chans| && slots[k] == chans[listed[k]]
    }

    /** The listed channels are distinct and open. */
    ghost predicate Open(listed: seq<nat>)
      reads this, live
    {
      && P.Distinct(listed)
      && forall k :: 0 <= k < |listed| ==> listed[k] < |chans| && chans[listed[k]] in live && !chans[listed[k]].closed
    }

    /** The records share no object either of them may change. */
    ghost predicate Apart(other: JobRecord)
      reads this, other
    {
      this != other && entries != other.entries && slots != other.slots && live !! other.live
    }

    ghost predicate Valid()
      reads this, entries, slots, live
    {
      && entries.Length == |requests|
      && Channels()
      && count == |registered|
      && Lists(registered, 0, count)
      && Open(registered)
    }

    ghost function SubOf(i: nat): P.Sub
      requires Channels() && i < |chans|
      reads this, live
    {
      P.Sub(backlogs[i], chans[i].received, chans[i].buf, chans[i].closed)
    }

    ghost function Subs(): (subs: seq<P.Sub>)
      requires Channels()
      reads this, live
      ensures |subs| == |chans|
    {
      seq(|chans|, i requires 0 <= i < |chans| && Channels() reads this, live => SubOf(i))
    }

    /** The protocol state this record stands for. */
    ghost function Abs(): P.Job
      requires Valid()
      reads this, entries, slots, live
    {
      P.Job(id, requests, buffer, entries[..], events, Subs(), registered, completed, completedAt)
    }

    /** The record is in the job's state of `s`, and the clients hold the channels handed out. */
    ghost predicate At(s: P.System, held: seq<Channel>)
      reads this, entries, slots, live
    {
      Valid() && Abs() == s.job && held == chans
    }

    constructor (id: JobID, requests: seq<Request>, buffer: nat)
      ensures Valid() && Abs() == P.NewJob(id, requests, buffer)
      ensures this.id == id && fresh(entries) && fresh(slots) && live == {}
    {
      this.id, this.requests, this.buffer := id, requests, buffer;
      entries := new EntryResult[|requests|](i requires 0 <= i < |requests| => PendingEntry(requests[i]));
      slots, count := new Channel?[0], 0;
      events, completed, completedAt := [], false, ZERO_TIME;
      chans, live, backlogs, registered := [], {}, [], [];
    }

    /** One send of the fan-out: deliver or close, leaving every other channel alone. */
    method Offer(ch: Channel, ev: Event, ghost c: nat) returns (sent: bool)
      requires Channels() && c < |chans| && ch == chans[c] && !ch.closed
      modifies ch
      ensures sent <==> P.HasRoom(old(Subs()), buffer, c)
      ensures Subs() == old(Subs())[c := P.Send(old(Subs())[c], buffer, ev)]
    {
      sent := ch.TrySend(ev);
      if !sent {
        ch.Close();
      }
    }

    /** Append to the compacted slice, over the backing array it shares with the slice being read. */
    method Place(ch: Channel, kept: nat, i: nat, ghost keep: seq<nat>)
      requires kept <= i < count == |registered| && kept == |keep| && Lists(keep, 0, kept) &&
                Lists(registered, i, count)
      requires ch == chans[registered[i]]
      modifies slots
      ensures Lists(keep + [registered[i]], 0, kept + 1) && Lists(registered, i + 1, count)
    {
      slots[kept] := ch;
    }

    /** The loop's invariant: `i` subscribers served, the first `kept` slots compacted. */
    ghost predicate Served(subs: seq<P.Sub>, ev: Event, i: nat, kept: nat, keep: seq<nat>)
      requires Channels() && i <= |registered| && forall k :: 0 <= k < |registered| ==> registered[k] < |subs|
      reads this, slots, live
    {
      && kept <= i <= count == |registered|
      && keep == P.Kept(registered[..i], subs, buffer) && |keep| == kept
      && Lists(keep, 0, kept) && Lists(registered, i, count)
      && Subs() == S.SendEach(subs, registered[..i], buffer, ev)
    }

    method SendNext(ev: Event, i: nat, kept: nat, ghost keep: seq<nat>, ghost subs: seq<P.Sub>)
      returns (kept': nat, ghost keep': seq<nat>)
      requires Channels() && i < count == |registered| && P.Distinct(registered)
      requires forall k :: 0 <= k < count ==> registered[k] < |subs| && !subs[registered[k]].closed
      requires Served(subs, ev, i, kept, keep)
      modifies slots, live
      ensures Served(subs, ev, i + 1, kept', keep')
    {
      var ch := slots[i];
      kept', keep' := kept, keep;
      S.SendEachStep(subs, registered, i, buffer, ev);
      S.KeptStep(registered, subs, i, buffer);
      assert ch.closed == Subs()[registered[i]].closed;
      var sent := Offer(ch, ev, registered[i]);
      if sent {
        Place(ch, kept, i, keep);
        kept', keep' := kept + 1, keep + [registered[i]];
      }
    }

    /**
     The send loop: every subscriber gets the event or is closed, and the slice is compacted over its
     own backing array, a kept channel being written at or before the slot just read.
     */
    method SendAll(ev: Event) returns (kept: nat, ghost keep: seq<nat>)
      requires Channels() && count == |registered| && Lists(registered, 0, count) && P.Distinct(registered)
      requires forall k :: 0 <= k < count ==> !Subs()[registered[k]].closed
      modifies slots, live
      ensures keep == P.Kept(registered, old(Subs()), buffer) && |keep| == kept <= count
      ensures Lists(keep, 0, kept)
      ensures Subs() == S.SendEach(old(Subs()), registered, buffer, ev)
    {
      kept, keep := 0, [];
      var i := 0;
      ghost var subs := Subs();
      while i < count
        invariant i <= count
        invariant Served(subs, ev, i, kept, keep)
      {
        kept, keep := SendNext(ev, i, kept, keep, subs);
        i := i + 1;
      }
      assert registered[..count] == registered;
    }

    /** Nil out the slots past the compacted slice, so that dropped channels are not retained, and publish it. */
    method Truncate(kept: nat, ghost keep: seq<nat>)
      requires entries.Length == |requests| && Channels() && count <= slots.Length
      requires kept <= count && |keep| == kept && Lists(keep, 0, kept) && Open(keep)
      modifies this`count, this`registered, slots
      ensures Valid() && count == kept && registered == keep && Subs() == old(Subs())
      ensures forall k :: kept <= k < old(count) ==> slots[k] == null
    {
      var z := kept;
      while z < count
        invariant kept <= z <= count == old(count)
        invariant Lists(keep, 0, kept)
        invariant forall k :: kept <= k < z ==> slots[k] == null
      {
        slots[z] := null;
        z := z + 1;
      }
      count, registered := kept, keep;
    }

    method FanOutLocked(ev: Event) returns (dropped: nat)
      requires Valid()
      modifies this`count, this`registered, slots, live
      ensures Valid() && Abs() == P.FanOut(old(Abs()), ev)
      ensures dropped == old(count) - count
      ensures forall k :: count <= k < old(count) ==> slots[k] == null
    {
      FanOutPlan(ev);
      var kept, keep := SendAll(ev);
      StillOpen(keep);
      dropped := count - kept;
      Truncate(kept, keep);
    }

    lemma FanOutPlan(ev: Event)
      requires Channels() && Open(registered)
      ensures forall k :: 0 <= k < |registered| ==> !Subs()[registered[k]].closed
      ensures var keep, sent := P.Kept(registered, Subs(), buffer), S.SendEach(Subs(), registered, buffer, ev);
              && sent == P.SendTo(Subs(), registered, buffer, ev) && P.Distinct(keep)
              && forall k :: 0 <= k < |keep| ==> keep[k] < |chans| && !sent[keep[k]].closed
    {
      assert forall k :: 0 <= k < |registered| ==> Subs()[registered[k]] == SubOf(registered[k]);
      S.FanOutOpens(registered, Subs(), buffer, ev);
    }

    lemma StillOpen(listed: seq<nat>)
      requires Channels() && P.Distinct(listed)
      requires forall k :: 0 <= k < |listed| ==> listed[k] < |chans| && !Subs()[listed[k]].closed
      ensures Open(listed)
    {
      assert forall k :: 0 <= k < |listed| ==> Subs()[listed[k]] == SubOf(listed[k]);
    }

    method AppendAndFanOut(idx: nat, result: EntryResult) returns (dropped: nat)
      requires Valid() && idx < entries.Length
      modifies this`count, this`registered, this`events, entries, slots, live
      ensures Valid() && Abs() == P.AppendAndFanOut(old(Abs()), idx, result)
      ensures entries[..] == old(entries[..])[idx := result] && events == old(events) + [Event.Progress(id, result)]
      ensures dropped == old(count) - count
    {
      var ev := Event.Progress(id, result);
      ghost var job := Abs();
      entries[idx] := result;
      events := events + [ev];
      assert Subs() == job.subs && entries[..] == job.entries[idx := result];
      dropped := FanOutLocked(ev);
    }

    /** The projection handed to readers, counting the terminal statuses in one pass. */
    method BuildSnapshotLocked(completed: bool, completedAt: Instant) returns (snapshot: JobSnapshot)
      requires Valid()
      ensures snapshot == P.SnapshotOf(Abs(), completed, completedAt)
      ensures snapshot == Projection(id, |requests|, entries[..], completed, completedAt)
    {
      var succeeded, failed := 0, 0;
      for i := 0 to entries.Length
        invariant succeeded == CountStatus(entries[..i], Success) && failed == CountStatus(entries[..i], Failed)
      {
        assert entries[..i + 1][..i] == entries[..i];
        match entries[i].status
        case Success => succeeded := succeeded + 1;
        case Failed => failed := failed + 1;
        case Pending =>
      }
      assert entries[..entries.Length] == entries[..];
      CountIsSize(entries[..], Success);
      CountIsSize(entries[..], Failed);
      snapshot := JobSnapshot(id, |requests|, succeeded, failed, completed, completedAt, entries[..]);
    }

    method CloseAt(i: nat, ghost subs: seq<P.Sub>)
      requires Channels() && i < count == |registered| && Lists(registered, 0, count) && P.Distinct(registered)
      requires |subs| == |chans| && !subs[registered[i]].closed
      requires Subs() == P.CloseAll(subs, registered[..i])
      modifies live
      ensures Subs() == P.CloseAll(subs, registered[..i + 1])
    {
      var ch := slots[i];
      S.CloseAllStep(subs, registered, i);
      assert ch.closed == Subs()[registered[i]].closed;
      ch.Close();
    }

    method CloseSubscribers()
      requires Channels() && count == |registered| && Lists(registered, 0, count) && Open(registered)
      modifies live
      ensures Subs() == P.CloseAll(old(Subs()), registered)
    {
      ghost var subs := Subs();
      assert forall k :: 0 <= k < |registered| ==> subs[registered[k]] == SubOf(registered[k]);
      var i := 0;
      while i < count
        invariant i <= count
        invariant Subs() == P.CloseAll(subs, registered[..i])
      {
        CloseAt(i, subs);
        i := i + 1;
      }
      assert registered[..count] == registered;
    }

    /** Close whoever is left, empty the slice and mark the job complete. */
    method Complete(at: Instant)
      requires Valid()
      modifies this`slots, this`count, this`registered, this`completed, this`completedAt, live
      ensures Valid() && Abs() == P.CloseRegistered(old(Abs())).(completed := true, completedAt := at)
      ensures fresh(slots)
    {
      CloseSubscribers();
      Reset();
      completed, completedAt := true, at;
    }

    /** Drop the subscriber slice. */
    method Reset()
      requires Channels() && entries.Length == |requests|
      modifies this`slots, this`count, this`registered
      ensures Valid() && Subs() == old(Subs()) && registered == [] && fresh(slots)
    {
      slots, count, registered := new Channel?[0], 0, [];
    }

    method FinishJob(completedAt: Instant) returns (dropped: nat, snapshot: JobSnapshot)
      requires Valid()
      modifies this`slots, this`count, this`registered, this`completed, this`completedAt, this`events, slots, live
      ensures Valid() && Abs() == P.FinishJob(old(Abs()), completedAt)
      ensures completed && this.completedAt == completedAt &&
                snapshot == Projection(id, |requests|, entries[..], true, completedAt)
      ensures entries[..] == old(entries[..]) && events == old(events) + [Event.Summary(id, snapshot)]
      ensures fresh(slots)
    {
      ghost var subs := Subs();
      snapshot := BuildSnapshotLocked(true, completedAt);
      var ev := Event.Summary(id, snapshot);
      events := events + [ev];
      assert Subs() == subs;
      dropped := FanOutLocked(ev);
      Complete(completedAt);
    }

    method WorkOnce(i: nat, outcome: EnsureOutcome, at: Instant)
      requires Valid() && i < |requests|
      modifies this`count, this`registered, this`events, entries, slots, live
      ensures Valid() && Abs() == P.AppendAndFanOut(old(Abs()), i, RunEntry(requests[i], outcome, at))
      ensures Recorded(entries[i], requests[i], outcome, at) && events == old(events) + [Event.Progress(id, entries[i])]
      ensures entries[..] == old(entries[..])[i := entries[i]]
    {
      AttemptRecorded(requests[i], outcome, at);
      var result := RunEntry(requests[i], outcome, at);
      var _ := AppendAndFanOut(i, result);
    }

    /** One step of somebody else: a subscription, a receive by the client holding the channel, or a handler alone. */
    method Other(a: P.Action, s: P.System, held: seq<Channel>) returns (held': seq<Channel>)
      requires At(s, held)
      requires !a.Work? && !a.Finish? && P.Enabled(s, a)
      modifies this, slots, live
      ensures At(P.Next(s, a), held')
      ensures (slots == old(slots) || fresh(slots)) && fresh(live - old(live))
    {
      held' := held;
      if a.Attach? {
        var _, channel := Subscribe();
        held' := held + [channel];
      } else if a.Turn? && s.handlers[a.i].pos >= |s.job.subs[a.i].backlog| && s.job.subs[a.i].buf != [] {
        var _ := ReceiveFrom(a.i, held[a.i]);
      }
    }

    /** Whatever others do between two critical sections of the worker, in any number and order. */
    method Others(actions: seq<P.Action>, s: P.System, held: seq<Channel>) returns (t: P.System, held': seq<Channel>)
      requires At(s, held)
      requires OthersOnly(actions) && P.Run(s, actions).Some?
      modifies this, slots, live
      ensures At(t, held') && P.Run(s, actions) == Some(t) && t.next == s.next
      ensures (slots == old(slots) || fresh(slots)) && fresh(live - old(live))
    {
      t, held' := s, held;
      var k := 0;
      assert actions[0..] == actions;
      while k < |actions|
        invariant 0 <= k <= |actions| && At(t, held') && t.next == s.next
        invariant P.Run(t, actions[k..]) == P.Run(s, actions)
        invariant (slots == old(slots) || fresh(slots)) && fresh(live - old(live))
      {
        assert actions[k..][0] == actions[k] && actions[k..][1..] == actions[k + 1..];
        held' := Other(actions[k], t, held');
        t := P.Next(t, actions[k]);
        k := k + 1;
      }
    }

    /** One request, then whatever others do before the next critical section. */
    method WorkThenOthers(i: nat, outcome: EnsureOutcome, at: Instant, after: seq<P.Action>, s: P.System,
                          held: seq<Channel>)
      returns (t: P.System, held': seq<Channel>)
      requires At(s, held) && s.next == i < |requests| && OthersOnly(after)
      requires P.Run(s, [P.Work(outcome, at)] + after).Some?
      modifies this, entries, slots, live
      ensures At(t, held') && P.Run(s, [P.Work(outcome, at)] + after) == Some(t) && t.next == i + 1
      ensures (slots == old(slots) || fresh(slots)) && fresh(live - old(live))
    {
      assert ([P.Work(outcome, at)] + after)[1..] == after;
      WorkOnce(i, outcome, at);
      t := P.Next(s, P.Work(outcome, at));
      t, held' := Others(after, t, held);
    }

    method ServeNext(i: nat, outcomes: seq<(EnsureOutcome, Instant)>, at: Instant, between: seq<seq<P.Action>>,
                     s: P.System, held: seq<Channel>, ghost whole: Option<P.System>)
      returns (t: P.System, held': seq<Channel>)
      requires At(s, held) && s.next == i < |requests|
      requires |outcomes| == |requests| && |between| == |requests| + 1 && OthersOnly(between[i + 1])
      requires OnCourse(s, outcomes, between, at, i, whole)
      modifies this, entries, slots, live
      ensures At(t, held') && t.next == i + 1
      ensures OnCourse(t, outcomes, between, at, i + 1, whole)
      ensures (slots == old(slots) || fresh(slots)) && fresh(live - old(live))
    {
      RemainingStep(outcomes, between, at, i, s);
      t, held' := WorkThenOthers(i, outcomes[i].0, outcomes[i].1, between[i + 1], s, held);
    }

    /** The worker's loop. */
    method ServeRequests(outcomes: seq<(EnsureOutcome, Instant)>, at: Instant, between: seq<seq<P.Action>>,
                         s: P.System, held: seq<Channel>) returns (t: P.System, held': seq<Channel>)
      requires At(s, held) && s.next == 0
      requires |outcomes| == |requests| && |between| == |requests| + 1
      requires forall k :: 0 <= k < |between| ==> OthersOnly(between[k])
      requires P.Run(s, Remaining(outcomes, between, at, 0)).Some?
      modifies this, entries, slots, live
      ensures At(t, held') && t.next == |requests|
      ensures P.Run(t, [P.Finish(at)]) == P.Run(s, Remaining(outcomes, between, at, 0))
      ensures (slots == old(slots) || fresh(slots)) && fresh(live - old(live))
    {
      t, held' := s, held;
      ghost var whole := P.Run(s, Remaining(outcomes, between, at, 0));
      var i := 0;
      while i < |requests|
        invariant 0 <= i <= |requests| && At(t, held') && t.next == i
        invariant (slots == old(slots) || fresh(slots)) && fresh(live - old(live))
        invariant OnCourse(t, outcomes, between, at, i, whole)
      {
        t, held' := ServeNext(i, outcomes, at, between, t, held', whole);
        i := i + 1;
      }
    }

    /** The worker's last critical section. */
    method End(at: Instant, s: P.System, ghost held: seq<Channel>) returns (t: P.System)
      requires At(s, held) && s.next == |requests|
      modifies this`slots, this`count, this`registered, this`completed, this`completedAt, this`events, slots, live
      ensures At(t, held) && P.Run(s, [P.Finish(at)]) == Some(t) && t.next == |requests| + 1
      ensures Closed(t.job, at)
    {
      assert [P.Finish(at)][1..] == [];
      var _, _ := FinishJob(at);
      t := P.Next(s, P.Finish(at));
      FinishCloses(s.job, at);
    }

    /**
     The worker among all others: every request attempted once, in order, then the summary. Whatever
     others do between its critical sections, the record ends in the state of that interleaving.
     */
    method RunJob(outcomes: seq<(EnsureOutcome, Instant)>, completedAt: Instant, between: seq<seq<P.Action>>,
                  s: P.System, held: seq<Channel>) returns (t: P.System, held': seq<Channel>)
      requires At(s, held) && s.next == 0
      requires |outcomes| == |requests| && |between| == |requests| + 1
      requires forall k :: 0 <= k < |between| ==> OthersOnly(between[k])
      requires P.Run(s, between[0] + Remaining(outcomes, between, completedAt, 0)).Some?
      modifies this, entries, slots, live
      ensures At(t, held') && P.Run(s, between[0] + Remaining(outcomes, between, completedAt, 0)) == Some(t)
      ensures t.next == |requests| + 1
      ensures Worked(t.job, outcomes, completedAt)
    {
      S.RunSplits(s, between[0], Remaining(outcomes, between, completedAt, 0));
      t, held' := Others(between[0], s, held);
      t, held' := ServeRequests(outcomes, completedAt, between, t, held');
      t := End(completedAt, t, held');
      AllAttempts(outcomes, between, completedAt);
      WholeRun(s, between[0] + Remaining(outcomes, between, completedAt, 0), outcomes, t, completedAt);
    }

    /** Append to the slice, in place when the backing array has room, otherwise into a larger one. */
    method AppendSlot(ch: Channel)
      requires count <= slots.Length
      modifies this`slots, this`count, slots
      ensures count == old(count) + 1 <= slots.Length && slots[old(count)] == ch
      ensures forall k :: 0 <= k < old(count) ==> slots[k] == old(slots[k])
      ensures slots == old(slots) || fresh(slots)
    {
      var n := count;
      if n == slots.Length {
        var grown := new Channel?[2 * n + 1];
        forall k | 0 <= k < n {
          grown[k] := slots[k];
        }
        slots := grown;
      }
      slots[n] := ch;
      count := n + 1;
    }

    /** Capture the log and, unless the job is complete, register a live channel, as one step. */
    method Subscribe() returns (backlog: seq<Event>, channel: Channel)
      requires Valid()
      modifies this, slots
      ensures Valid() && Abs() == P.Subscribe(old(Abs()))
      ensures backlog == old(events) && chans == old(chans) + [channel] && fresh(channel)
      ensures live == old(live) + {channel} && (slots == old(slots) || fresh(slots))
    {
      backlog := events;
      channel := new Channel(buffer);
      assert forall k :: 0 <= k < |registered| ==> registered[k] < |chans|;
      HandOut(channel, backlog);
      if completed {
        ClosePristine(channel);
      } else {
        Register(channel);
      }
    }

    /** A job that is already complete hands out a channel that is already closed. */
    method ClosePristine(channel: Channel)
      requires Valid() && chans != [] && channel == chans[|chans| - 1] && !channel.closed && |chans| - 1 !in registered
      modifies channel`closed
      ensures Valid()
      ensures Abs() == old(Abs()).(subs := old(Subs())[|chans| - 1 := old(Subs())[|chans| - 1].(closed := true)])
    {
      channel.Close();
    }

    method Register(channel: Channel)
      requires Valid() && chans != [] && channel == chans[|chans| - 1] && !channel.closed && |chans| - 1 !in registered
      modifies this`slots, this`count, this`registered, slots
      ensures Valid() && Abs() == old(Abs()).(registered := old(registered) + [|chans| - 1])
      ensures slots == old(slots) || fresh(slots)
    {
      AppendSlot(channel);
      registered := registered + [|chans| - 1];
    }

    ghost method HandOut(channel: Channel, backlog: seq<Event>)
      requires Valid() && channel !in live && channel.cap == buffer
      requires channel.buf == channel.received == [] && !channel.closed
      modifies this`chans, this`live, this`backlogs
      ensures Valid() && chans == old(chans) + [channel] && live == old(live) + {channel}
      ensures Abs() == old(Abs()).(subs := old(Subs()) + [P.Sub(backlog, [], [], false)])
    {
      assert forall i :: 0 <= i < |chans| ==> chans[i] in live;
      chans, live, backlogs := chans + [channel], live + {channel}, backlogs + [backlog];
    }

    /** A receive by whoever holds channel `i`. */
    method ReceiveFrom(ghost i: nat, channel: Channel) returns (ev: Event)
      requires Valid() && i < |chans| && channel == chans[i] && channel.buf != []
      modifies channel`buf, channel`received
      ensures Valid() && Abs() == P.Receive(old(Abs()), i) && ev == old(channel.buf)[0]
    {
      ghost var subs := Subs();
      var got := channel.Receive();
      ev := got.value;
      assert Subs() == P.Receive(old(Abs()), i).subs;
    }
  }
}
