/** Every step keeps the protocol's invariants, so every run does; the guarantees follow. */
module DownloadSafety {
  import opened Common
  import opened DownloadTypes
  import opened DownloadProtocol

  // ------------------------------------------------------- fan-out facts

  lemma {:induction false} KeptIsFilter(registered: seq<nat>, subs: seq<Sub>, buffer: nat)
    requires Distinct(registered)
    ensures Distinct(Kept(registered, subs, buffer))
    ensures forall i :: i in Kept(registered, subs, buffer) <==> i in registered && HasRoom(subs, buffer, i)
  {
    if registered != [] {
      var last := |registered| - 1;
      var init, kept := registered[..last], Kept(registered[..last], subs, buffer);
      KeptIsFilter(init, subs, buffer);
      assert registered == init + [registered[last]];
      assert registered[last] !in init;
      forall i ensures i in Kept(registered, subs, buffer) <==> i in registered && HasRoom(subs, buffer, i) {
        assert i in registered <==> i in init || i == registered[last];
      }
    }
  }

  /** The compaction keeps the order: kept subscribers come from increasing places in the list. */
  lemma {:induction false} KeptInOrder(registered: seq<nat>, subs: seq<Sub>, buffer: nat) returns (places: seq<nat>)
    ensures |places| == |Kept(registered, subs, buffer)|
    ensures forall k :: 0 <= k < |places| ==>
              places[k] < |registered| && Kept(registered, subs, buffer)[k] == registered[places[k]]
    ensures forall a, b :: 0 <= a < b < |places| ==> places[a] < places[b]
  {
    places := [];
    if registered != [] {
      var last := |registered| - 1;
      places := KeptInOrder(registered[..last], subs, buffer);
      if HasRoom(subs, buffer, registered[last]) { places := places + [last]; }
    }
  }

  lemma KeptStep(registered: seq<nat>, subs: seq<Sub>, i: nat, buffer: nat)
    requires i < |registered|
    ensures Kept(registered[..i + 1], subs, buffer)
         == Kept(registered[..i], subs, buffer) + if HasRoom(subs, buffer, registered[i]) then [registered[i]] else []
  {
    assert registered[..i + 1][..i] == registered[..i];
  }

  /** The sends one after the other, in slice order. */
  ghost function SendEach(subs: seq<Sub>, listed: seq<nat>, buffer: nat, ev: Event): (r: seq<Sub>)
    requires forall k :: 0 <= k < |listed| ==> listed[k] < |subs|
    ensures |r| == |subs|
  {
    if listed == [] then subs
    else
      var last := |listed| - 1;
      var before := SendEach(subs, listed[..last], buffer, ev);
      before[listed[last] := Send(before[listed[last]], buffer, ev)]
  }

  lemma {:induction false} SendEachIsSendTo(subs: seq<Sub>, listed: seq<nat>, buffer: nat, ev: Event)
    requires Distinct(listed) && forall k :: 0 <= k < |listed| ==> listed[k] < |subs|
    ensures SendEach(subs, listed, buffer, ev) == SendTo(subs, listed, buffer, ev)
  {
    if listed != [] {
      var last := |listed| - 1;
      SendEachIsSendTo(subs, listed[..last], buffer, ev);
      assert listed == listed[..last] + [listed[last]] && listed[last] !in listed[..last];
    }
  }

  lemma SendEachStep(subs: seq<Sub>, listed: seq<nat>, i: nat, buffer: nat, ev: Event)
    requires Distinct(listed) && i < |listed| && forall k :: 0 <= k < |listed| ==> listed[k] < |subs|
    ensures SendEach(subs, listed[..i], buffer, ev)[listed[i]] == subs[listed[i]]
    ensures SendEach(subs, listed[..i + 1], buffer, ev)
         == SendEach(subs, listed[..i], buffer, ev)[listed[i] := Send(subs[listed[i]], buffer, ev)]
  {
    assert listed[..i + 1][..i] == listed[..i];
    SendEachIsSendTo(subs, listed[..i], buffer, ev);
    assert listed[i] !in listed[..i];
  }

  /** After the sends, the kept subscribers are distinct and open. */
  lemma FanOutOpens(registered: seq<nat>, subs: seq<Sub>, buffer: nat, ev: Event)
    requires Distinct(registered)
    requires forall k :: 0 <= k < |registered| ==> registered[k] < |subs| && !subs[registered[k]].closed
    ensures var keep, sent := Kept(registered, subs, buffer), SendEach(subs, registered, buffer, ev);
            && sent == SendTo(subs, registered, buffer, ev)
            && Distinct(keep)
            && forall k :: 0 <= k < |keep| ==> keep[k] < |subs| && !sent[keep[k]].closed
  {
    var keep := Kept(registered, subs, buffer);
    KeptIsFilter(registered, subs, buffer);
    SendEachIsSendTo(subs, registered, buffer, ev);
    forall k | 0 <= k < |keep| ensures keep[k] < |subs| && !SendTo(subs, registered, buffer, ev)[keep[k]].closed {
      assert keep[k] in keep && keep[k] in registered;
    }
  }

  // ------------------------------------------------- one step at a time

  /** The fields set once, when the job is scheduled. */
  predicate SameJob(s: System, t: System) {
    t.job.id == s.job.id && t.job.requests == s.job.requests && t.job.buffer == s.job.buffer
  }

  lemma WorkLog(s: System, a: Action)
    requires LogInv(s) && a.Work? && Enabled(s, a)
    ensures LogInv(Next(s, a))
    ensures SameJob(s, Next(s, a)) && s.job.events <= Next(s, a).job.events
  {
  }

  lemma FinishLog(s: System, a: Action)
    requires LogInv(s) && a.Finish? && Enabled(s, a)
    ensures LogInv(Next(s, a))
    ensures SameJob(s, Next(s, a)) && s.job.events <= Next(s, a).job.events
  {
  }

  /** Subscribers and handlers leave the log and the worker's position alone. */
  lemma QuietLog(s: System, a: Action)
    requires !a.Work? && !a.Finish? && Enabled(s, a)
    ensures var t := Next(s, a);
            && SameJob(s, t) && t.next == s.next && t.job.entries == s.job.entries && t.job.events == s.job.events
            && t.job.completed == s.job.completed && t.job.completedAt == s.job.completedAt
  {
  }

  lemma StepLog(s: System, a: Action)
    requires LogInv(s) && Enabled(s, a)
    ensures LogInv(Next(s, a))
    ensures SameJob(s, Next(s, a)) && s.job.events <= Next(s, a).job.events
  {
    match a
    case Work(_, _) => WorkLog(s, a);
    case Finish(_) => FinishLog(s, a);
    case _ => QuietLog(s, a);
  }

  lemma FanOutChannels(j: Job, ev: Event)
    requires ChannelInv(j)
    ensures ChannelInv(FanOut(j, ev))
    ensures forall i :: 0 <= i < |j.subs| ==> (CloseRegistered(FanOut(j, ev)).subs[i].closed)
  {
    KeptIsFilter(j.registered, j.subs, j.buffer);
    var t := FanOut(j, ev);
    assert forall i :: 0 <= i < |j.subs| && i !in t.registered ==> t.subs[i].closed;
  }

  lemma FinishChannels(j: Job, at: Instant)
    requires ChannelInv(j)
    ensures ChannelInv(FinishJob(j, at))
  {
    var ev := Event.Summary(j.id, SnapshotOf(j, true, at));
    FanOutChannels(j.(events := j.events + [ev]), ev);
  }

  lemma SubscribeChannels(j: Job)
    requires ChannelInv(j)
    ensures ChannelInv(Subscribe(j))
  {
    var r := j.registered + [|j.subs|];
    forall a, b | 0 <= a < b < |r| ensures r[a] != r[b] {
      assert r[a] in j.registered;
    }
    assert forall i :: i in r <==> i in j.registered || i == |j.subs|;
  }

  lemma StepChannels(s: System, a: Action)
    requires LogInv(s) && ChannelInv(s.job) && Enabled(s, a)
    ensures ChannelInv(Next(s, a).job)
  {
    var j := s.job;
    match a
    case Work(outcome, at) =>
      var result := RunEntry(j.requests[s.next], outcome, at);
      FanOutChannels(j.(entries := j.entries[s.next := result], events := j.events + [Event.Progress(j.id, result)]),
                     Event.Progress(j.id, result));
    case Finish(at) => FinishChannels(j, at);
    case Attach => SubscribeChannels(j);
    case _ =>
  }

  lemma CloseAllStep(subs: seq<Sub>, listed: seq<nat>, i: nat)
    requires Distinct(listed) && i < |listed| && listed[i] < |subs|
    ensures CloseAll(subs, listed[..i])[listed[i]] == subs[listed[i]]
    ensures CloseAll(subs, listed[..i + 1])
         == CloseAll(subs, listed[..i])[listed[i] := subs[listed[i]].(closed := true)]
  {
    assert listed[..i + 1] == listed[..i] + [listed[i]];
    assert listed[i] !in listed[..i];
  }

  lemma SendKeepsPlace(j: Job, ev: Event, i: nat)
    requires ChannelInv(j) && !j.completed && i < |j.subs| && SubInv(j, i)
    ensures var t := FanOut(j.(events := j.events + [ev]), ev);
            && SubInv(t.(completed := false), i)
            && t.subs[i].Given() <= t.events
            && (!t.subs[i].closed ==> t.subs[i].Given() == t.events)
  {
    var s := j.subs[i];
    if !s.closed && |s.buf| < j.buffer {
      assert s.backlog + s.received + (s.buf + [ev]) == s.Given() + [ev];
    }
  }

  lemma AppendKeeps(j: Job, idx: nat, result: EntryResult, i: nat)
    requires ChannelInv(j) && !j.completed && idx < |j.entries| && i < |j.subs| && SubInv(j, i)
    ensures SubInv(AppendAndFanOut(j, idx, result), i)
  {
    SendKeepsPlace(j.(entries := j.entries[idx := result]), Event.Progress(j.id, result), i);
  }

  lemma FinishKeeps(j: Job, at: Instant, i: nat)
    requires ChannelInv(j) && !j.completed && i < |j.subs| && SubInv(j, i)
    ensures SubInv(FinishJob(j, at), i)
  {
    var ev := Event.Summary(j.id, SnapshotOf(j, true, at));
    SendKeepsPlace(j, ev, i);
    var t := FanOut(j.(events := j.events + [ev]), ev);
    assert CloseRegistered(t).subs[i].Given() == t.subs[i].Given();
  }

  lemma SubscribeKeeps(j: Job, i: nat)
    requires i <= |j.subs| && (i < |j.subs| ==> SubInv(j, i))
    ensures SubInv(Subscribe(j), i)
  {
    if i == |j.subs| {
      assert Subscribe(j).subs[i].Given() == j.events;
    }
  }

  lemma ReceiveKeeps(j: Job, k: nat, i: nat)
    requires k < |j.subs| && j.subs[k].buf != [] && i < |j.subs| && SubInv(j, i)
    ensures SubInv(Receive(j, k), i)
  {
    assert Receive(j, k).subs[k].Given() == j.subs[k].Given();
  }

  lemma StepSubs(s: System, a: Action, i: nat)
    requires LogInv(s) && ChannelInv(s.job) && Enabled(s, a)
    requires i < |s.job.subs| ==> SubInv(s.job, i)
    requires i < |Next(s, a).job.subs|
    ensures SubInv(Next(s, a).job, i)
  {
    match a
    case Work(outcome, at) => AppendKeeps(s.job, s.next, RunEntry(s.job.requests[s.next], outcome, at), i);
    case Finish(at) => FinishKeeps(s.job, at, i);
    case Attach => SubscribeKeeps(s.job, i);
    case Turn(k) =>
      if s.handlers[k].pos >= |s.job.subs[k].backlog| && s.job.subs[k].buf != [] {
        ReceiveKeeps(s.job, k, i);
      }
    case Disconnect(_) =>
  }

  // ------------------------------------------------------ handler turns

  /** Whether the log, hence anything given from it, holds a summary anywhere but at its end. */
  lemma OnlyLastIsSummary(s: System, given: seq<Event>)
    requires LogInv(s) && given <= s.job.events
    ensures forall k :: 0 <= k < |given| && given[k].Summary? ==> k == |s.job.requests| == |given| - 1
  {
    assert forall k :: 0 <= k < |given| ==> given[k] == s.job.events[k];
  }

  lemma WriteKeeps(sub: Sub, h: Handler, sub': Sub, h': Handler, ev: Event)
    requires HandlerInv(sub, h) && h.phase.Streaming?
    requires Written(sub', h') == Written(sub, h) + [ev]
    requires h' == WriteEvent(h, ev).(pos := h'.pos)
    requires h'.pos <= |sub'.backlog| && (h'.pos < |sub'.backlog| ==> sub'.received == [])
    ensures HandlerInv(sub', h')
  {
  }

  lemma TurnKeeps(s: System, i: nat)
    requires Enabled(s, Turn(i)) && HandlerInv(s.job.subs[i], s.handlers[i])
    ensures var t := Next(s, Turn(i)); HandlerInv(t.job.subs[i], t.handlers[i])
  {
    var t := Next(s, Turn(i));
    var h, sub, h', sub' := s.handlers[i], s.job.subs[i], t.handlers[i], t.job.subs[i];
    if h.pos < |sub.backlog| {
      assert sub.backlog[..h.pos + 1] == sub.backlog[..h.pos] + [sub.backlog[h.pos]];
      WriteKeeps(sub, h, sub', h', sub.backlog[h.pos]);
    } else if sub.buf != [] {
      WriteKeeps(sub, h, sub', h', sub.buf[0]);
    }
  }

  /** The worker and the other handlers leave alone whatever a subscription has handed over or closed. */
  lemma OthersFrame(s: System, a: Action, i: nat)
    requires ChannelInv(s.job) && |s.handlers| == |s.job.subs| && Enabled(s, a) && a != Turn(i)
    requires i < |s.job.subs|
    ensures var t := Next(s, a);
            && |t.handlers| == |t.job.subs| >= |s.job.subs|
            && t.job.subs[i].backlog == s.job.subs[i].backlog && t.job.subs[i].received == s.job.subs[i].received
            && (s.job.subs[i].closed ==> t.job.subs[i] == s.job.subs[i])
            && (t.handlers[i] == s.handlers[i] ||
                (s.handlers[i].phase.Streaming? && t.handlers[i] == s.handlers[i].(phase := Disconnected)))
  {
  }

  lemma FrameKeeps(sub: Sub, h: Handler, sub': Sub, h': Handler)
    requires HandlerInv(sub, h)
    requires sub'.backlog == sub.backlog && sub'.received == sub.received && (sub.closed ==> sub' == sub)
    requires h' == h || (h.phase.Streaming? && h' == h.(phase := Disconnected))
    ensures HandlerInv(sub', h')
  {
  }

  lemma StepHandlers(s: System, a: Action, i: nat)
    requires ChannelInv(s.job) && |s.handlers| == |s.job.subs| && Enabled(s, a)
    requires i < |s.job.subs| ==> HandlerInv(s.job.subs[i], s.handlers[i])
    requires i < |Next(s, a).job.subs|
    ensures var t := Next(s, a); |t.handlers| == |t.job.subs| && HandlerInv(t.job.subs[i], t.handlers[i])
  {
    if a == Turn(i) {
      TurnKeeps(s, i);
    } else if i < |s.job.subs| {
      OthersFrame(s, a, i);
      FrameKeeps(s.job.subs[i], s.handlers[i], Next(s, a).job.subs[i], Next(s, a).handlers[i]);
    }
  }

  lemma StepInv(s: System, a: Action)
    requires Inv(s) && Enabled(s, a)
    ensures Inv(Next(s, a))
  {
    var t := Next(s, a);
    StepLog(s, a);
    StepChannels(s, a);
    forall i | 0 <= i < |t.job.subs|
      ensures SubInv(t.job, i) && |t.handlers| == |t.job.subs| && HandlerInv(t.job.subs[i], t.handlers[i])
    {
      if i < |s.job.subs| {
        assert SubInv(s.job, i) && HandlerInv(s.job.subs[i], s.handlers[i]);
      }
      StepSubs(s, a, i);
      StepHandlers(s, a, i);
    }
    assert |t.handlers| == |t.job.subs|;
  }

  /** Every run from a state with the invariants keeps them, and only ever extends the log. */
  lemma {:induction false} RunKeeps(s: System, actions: seq<Action>, t: System)
    requires Inv(s) && Run(s, actions) == Some(t)
    ensures Inv(t) && SameJob(s, t) && s.job.events <= t.job.events
    decreases |actions|
  {
    if actions != [] {
      var s1 := Next(s, actions[0]);
      StepInv(s, actions[0]);
      StepLog(s, actions[0]);
      RunKeeps(s1, actions[1..], t);
    }
  }

  /** A run can be cut anywhere. */
  lemma {:induction false} RunSplits(s: System, actions: seq<Action>, more: seq<Action>)
    requires Run(s, actions + more).Some?
    ensures Run(s, actions).Some? && Run(s, actions + more) == Run(Run(s, actions).value, more)
    decreases |actions|
  {
    if actions == [] {
      assert actions + more == more;
    } else {
      assert (actions + more)[1..] == actions[1..] + more;
      RunSplits(Next(s, actions[0]), actions[1..], more);
    }
  }

  lemma {:induction false} RunAppend(s: System, actions: seq<Action>, t: System, more: seq<Action>)
    requires Run(s, actions) == Some(t)
    ensures Run(s, actions + more) == Run(t, more)
    decreases |actions|
  {
    if actions == [] {
      assert actions + more == more;
    } else {
      assert (actions + more)[1..] == actions[1..] + more;
      RunAppend(Next(s, actions[0]), actions[1..], t, more);
    }
  }

  lemma {:induction false} RunSnoc(s: System, actions: seq<Action>, a: Action)
    ensures Run(s, actions + [a]) ==
            match Run(s, actions)
            case None => None
            case Some(t) => if Enabled(t, a) then Some(Next(t, a)) else None
    decreases |actions|
  {
    if actions == [] {
      assert (actions + [a])[1..] == [];
    } else {
      assert (actions + [a])[1..] == actions[1..] + [a];
      if Enabled(s, actions[0]) {
        RunSnoc(Next(s, actions[0]), actions[1..], a);
      }
    }
  }

  lemma StartInv(id: JobID, requests: seq<Request>, buffer: nat)
    ensures Inv(Start(id, requests, buffer))
  {
  }

  /** Every run from a freshly scheduled job satisfies the invariants. */
  lemma RunInv(id: JobID, requests: seq<Request>, buffer: nat, actions: seq<Action>, t: System)
    requires Run(Start(id, requests, buffer), actions) == Some(t)
    ensures Inv(t)
    ensures t.job.id == id && t.job.requests == requests && t.job.buffer == buffer
  {
    StartInv(id, requests, buffer);
    RunKeeps(Start(id, requests, buffer), actions, t);
  }
}
