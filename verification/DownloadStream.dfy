/** The SSE handler as a loop over its backlog and then its live channel. */
module DownloadStream {
  import opened DownloadTypes
  import opened DownloadProtocol

  /** What one select came back with: an event, the closed channel, or the cancelled request context. */
  datatype Select = Got(ev: Event) | Closed | Cancelled

  /** The events received before the first select that is not one. */
  function Gots(live: seq<Select>): (evs: seq<Event>)
    ensures |evs| <= |live|
  {
    if live == [] || !live[0].Got? then [] else [live[0].ev] + Gots(live[1..])
  }

  /** The events through the first summary, or all of them. */
  function ThroughSummary(evs: seq<Event>): (w: seq<Event>)
    ensures w <= evs
  {
    if evs == [] then [] else if evs[0].Summary? then [evs[0]] else [evs[0]] + ThroughSummary(evs[1..])
  }

  predicate HasSummary(evs: seq<Event>) { evs != [] && (evs[0].Summary? || HasSummary(evs[1..])) }

  lemma {:induction false} SummaryFree(evs: seq<Event>)
    requires forall k :: 0 <= k < |evs| ==> !evs[k].Summary?
    ensures !HasSummary(evs) && ThroughSummary(evs) == evs
  {
    if evs != [] {
      SummaryFree(evs[1..]);
    }
  }

  lemma {:induction false} SummaryAppend(evs: seq<Event>, more: seq<Event>)
    ensures HasSummary(evs + more) <==> HasSummary(evs) || HasSummary(more)
    ensures ThroughSummary(evs + more) == if HasSummary(evs) then ThroughSummary(evs) else evs + ThroughSummary(more)
  {
    if evs == [] {
      assert evs + more == more;
    } else {
      assert (evs + more)[1..] == evs[1..] + more;
      SummaryAppend(evs[1..], more);
    }
  }

  lemma ThroughAt(all: seq<Event>, m: nat)
    requires m < |all| && !HasSummary(all[..m]) && all[m].Summary?
    ensures HasSummary(all) && ThroughSummary(all) == all[..m + 1]
  {
    assert all == all[..m] + all[m..] && all[..m + 1] == all[..m] + [all[m]];
    SummaryAppend(all[..m], all[m..]);
  }

  lemma FreeSnoc(evs: seq<Event>, ev: Event)
    requires !HasSummary(evs) && !ev.Summary?
    ensures !HasSummary(evs + [ev])
  {
    SummaryAppend(evs, [ev]);
  }

  /** The frames through the event at `m`. */
  lemma OneFrame(all: seq<Event>, m: nat)
    requires m < |all|
    ensures FramesOf(all[..m + 1]) == FramesOf(all[..m]) + [FrameOf(all[m])]
  {
  }

  lemma StillFree(all: seq<Event>, m: nat)
    requires m < |all| && !HasSummary(all[..m]) && !all[m].Summary?
    ensures !HasSummary(all[..m + 1])
  {
    FreeSnoc(all[..m], all[m]);
    assert all[..m + 1] == all[..m] + [all[m]];
  }

  /** Writing the event at `m`, nothing before it being a summary. */
  lemma WriteStep(all: seq<Event>, m: nat)
    requires m < |all| && !HasSummary(all[..m])
    ensures FramesOf(all[..m + 1]) == FramesOf(all[..m]) + [FrameOf(all[m])]
    ensures all[m].Summary? ==> HasSummary(all) && ThroughSummary(all) == all[..m + 1]
    ensures !all[m].Summary? ==> !HasSummary(all[..m + 1])
  {
    OneFrame(all, m);
    if all[m].Summary? {
      ThroughAt(all, m);
    } else {
      StillFree(all, m);
    }
  }

  lemma ThroughAll(evs: seq<Event>)
    requires !HasSummary(evs)
    ensures ThroughSummary(evs) == evs
  {
    SummaryAppend(evs, []);
    assert evs + [] == evs;
  }

  lemma {:induction false} GotsPrefix(live: seq<Select>, k: nat)
    requires k <= |live| && forall i :: 0 <= i < k ==> live[i].Got?
    ensures |Gots(live)| >= k && forall i :: 0 <= i < k ==> Gots(live)[i] == live[i].ev
    ensures k == |live| || !live[k].Got? ==> |Gots(live)| == k
  {
    if k > 0 {
      assert forall i :: 0 <= i < k - 1 ==> live[1..][i] == live[i + 1];
      GotsPrefix(live[1..], k - 1);
    }
  }

  /** The frame a client has to see for an event. */
  predicate Shows(f: Frame, ev: Event) {
    match ev
    case Progress(_, result) => f == ProgressFrame(result)
    case Summary(_, s) => f == SummaryFrame(s.jobID, s.total, s.succeeded, s.failed)
  }

  method WriteDownloadEvent(frames: seq<Frame>, ev: Event) returns (frames': seq<Frame>, terminal: bool)
    ensures frames' == frames + [FrameOf(ev)] && Shows(FrameOf(ev), ev) && (terminal <==> ev.Summary?)
  {
    match ev
    case Summary(_, s) => frames', terminal := frames + [SummaryFrame(s.jobID, s.total, s.succeeded, s.failed)], true;
    case Progress(_, result) => frames', terminal := frames + [ProgressFrame(result)], false;
  }

  /** The first loop: write the backlog, up to a summary if it holds one. */
  method Replay(backlog: seq<Event>, ghost rest: seq<Event>) returns (frames: seq<Frame>, terminal: bool)
    ensures terminal ==> HasSummary(backlog + rest) && frames == FramesOf(ThroughSummary(backlog + rest))
    ensures !terminal ==> !HasSummary(backlog) && frames == FramesOf(backlog)
  {
    frames, terminal := [], false;
    for i := 0 to |backlog|
      invariant !terminal && frames == FramesOf(backlog[..i]) && !HasSummary(backlog[..i])
    {
      frames, terminal := WriteDownloadEvent(frames, backlog[i]);
      WriteStep(backlog, i);
      if terminal {
        SummaryAppend(backlog, rest);
        return;
      }
    }
    assert backlog[..|backlog|] == backlog;
  }

  /** The next live event, `k` of them after the backlog. */
  lemma LiveEvent(backlog: seq<Event>, live: seq<Select>, k: nat)
    requires k < |live| && forall i :: 0 <= i <= k ==> live[i].Got?
    ensures var all := backlog + Gots(live); |backlog| + k < |all| && all[|backlog| + k] == live[k].ev
  {
    GotsPrefix(live, k + 1);
  }

  /** Selects that end without a summary: everything received was written. */
  lemma ForwardEnd(backlog: seq<Event>, live: seq<Select>, k: nat)
    requires k <= |live| && (forall i :: 0 <= i < k ==> live[i].Got?) && (k == |live| || !live[k].Got?)
    requires |backlog| + k <= |backlog + Gots(live)| && !HasSummary((backlog + Gots(live))[..|backlog| + k])
    ensures var all := backlog + Gots(live);
            |Gots(live)| == k && !HasSummary(all) && ThroughSummary(all) == all == all[..|backlog| + k]
  {
    var all := backlog + Gots(live);
    GotsPrefix(live, k);
    assert all[..|backlog| + k] == all;
    ThroughAll(all);
  }

  /** What the response ends up as, for the backlog and the selects. */
  ghost predicate Streamed(backlog: seq<Event>, live: seq<Select>, frames: seq<Frame>, phase: Phase) {
    var all, n := backlog + Gots(live), |Gots(live)|;
    && frames == FramesOf(ThroughSummary(all)) + (if phase.Errored? then [STREAM_CLOSED] else [])
    && phase == if HasSummary(all) then Summarised
                else if n == |live| then Streaming
                else if live[n].Closed? then Errored else Disconnected
  }

  /** Selects that end without a summary: the frames of everything received, and how the response stands. */
  lemma EndOfStream(backlog: seq<Event>, live: seq<Select>, k: nat, frames: seq<Frame>, phase: Phase)
    requires k <= |live| && (forall i :: 0 <= i < k ==> live[i].Got?) && (k == |live| || !live[k].Got?)
    requires |backlog| + k <= |backlog + Gots(live)| && !HasSummary((backlog + Gots(live))[..|backlog| + k])
    requires phase == if k == |live| then Streaming else if live[k].Closed? then Errored else Disconnected
    requires frames == FramesOf((backlog + Gots(live))[..|backlog| + k]) +
                       if phase.Errored? then [STREAM_CLOSED] else []
    ensures Streamed(backlog, live, frames, phase)
  {
    ForwardEnd(backlog, live, k);
  }

  /** Where the second loop stands after `k` selects. */
  ghost predicate Forwarded(backlog: seq<Event>, live: seq<Select>, k: nat, frames: seq<Frame>) {
    && k <= |live| && (forall i :: 0 <= i < k ==> live[i].Got?)
    && |backlog| + k <= |backlog + Gots(live)|
    && FramesOf(backlog) + frames == FramesOf((backlog + Gots(live))[..|backlog| + k])
    && !HasSummary((backlog + Gots(live))[..|backlog| + k])
  }

  lemma ForwardStart(backlog: seq<Event>, live: seq<Select>)
    requires !HasSummary(backlog)
    ensures Forwarded(backlog, live, 0, [])
  {
    assert (backlog + Gots(live))[..|backlog|] == backlog;
    assert FramesOf(backlog) + [] == FramesOf(backlog);
  }

  /** A select that is no event ends the response. */
  lemma ForwardStops(backlog: seq<Event>, live: seq<Select>, k: nat, frames: seq<Frame>, phase: Phase)
    requires Forwarded(backlog, live, k, frames) && (k == |live| || !live[k].Got?)
    requires phase == if k == |live| then Streaming else if live[k].Closed? then Errored else Disconnected
    ensures Streamed(backlog, live, FramesOf(backlog) + (frames + if phase.Errored? then [STREAM_CLOSED] else []),
              phase)
  {
    var last := if phase.Errored? then [STREAM_CLOSED] else [];
    assert FramesOf(backlog) + (frames + last) == (FramesOf(backlog) + frames) + last;
    EndOfStream(backlog, live, k, FramesOf(backlog) + (frames + last), phase);
  }

  /** An event is written; a summary ends the response. */
  lemma ForwardEvent(backlog: seq<Event>, live: seq<Select>, k: nat, frames: seq<Frame>)
    requires Forwarded(backlog, live, k, frames) && k < |live| && live[k].Got?
    ensures var more := frames + [FrameOf(live[k].ev)];
            if live[k].ev.Summary? then Streamed(backlog, live, FramesOf(backlog) + more, Summarised)
            else Forwarded(backlog, live, k + 1, more)
  {
    LiveEvent(backlog, live, k);
    WriteStep(backlog + Gots(live), |backlog| + k);
    var f := FrameOf(live[k].ev);
    assert FramesOf(backlog) + (frames + [f]) == (FramesOf(backlog) + frames) + [f];
  }

  /** The second loop: forward live events until a summary, the end of the channel, or the client's leaving. */
  method Forward(backlog: seq<Event>, live: seq<Select>) returns (frames: seq<Frame>, phase: Phase)
    requires !HasSummary(backlog)
    ensures Streamed(backlog, live, FramesOf(backlog) + frames, phase)
  {
    var k := 0;
    frames := [];
    ForwardStart(backlog, live);
    while k < |live|
      invariant Forwarded(backlog, live, k, frames)
    {
      if live[k].Cancelled? {
        ForwardStops(backlog, live, k, frames, Disconnected);
        assert frames + [] == frames;
        return frames, Disconnected;
      }
      if live[k].Closed? {
        ForwardStops(backlog, live, k, frames, Errored);
        return frames + [STREAM_CLOSED], Errored;
      }
      ForwardEvent(backlog, live, k, frames);
      var terminal;
      frames, terminal := WriteDownloadEvent(frames, live[k].ev);
      if terminal { return frames, Summarised; }
      k := k + 1;
    }
    ForwardStops(backlog, live, k, frames, Streaming);
    assert frames + [] == frames;
    phase := Streaming;
  }

  /**
   Replay, then forward. The frames are those of backlog and live events through the first summary,
   followed by one error frame exactly when the channel closed before any summary.
   */
  method Stream(backlog: seq<Event>, live: seq<Select>) returns (frames: seq<Frame>, phase: Phase)
    ensures Streamed(backlog, live, frames, phase)
  {
    var terminal;
    frames, terminal := Replay(backlog, Gots(live));
    if terminal { return frames, Summarised; }
    var more;
    more, phase := Forward(backlog, live);
    frames := frames + more;
  }

  /** The events of the first `n` selects. */
  function Events(live: seq<Select>, n: nat): seq<Event>
    requires n <= |live| && forall i :: 0 <= i < n ==> live[i].Got?
  {
    seq(n, i requires 0 <= i < n => live[i].ev)
  }

  lemma GotsAre(live: seq<Select>, n: nat)
    requires n <= |live| && (forall i :: 0 <= i < n ==> live[i].Got?) && (n == |live| || !live[n].Got?)
    ensures Gots(live) == Events(live, n)
  {
    GotsPrefix(live, n);
  }

  /** With a first summary at position `m` of all events, the response is the frames through it. */
  lemma StreamToSummary(backlog: seq<Event>, live: seq<Select>, n: nat, m: nat, frames: seq<Frame>, phase: Phase)
    requires n <= |live| && (forall i :: 0 <= i < n ==> live[i].Got?) && (n == |live| || !live[n].Got?)
    requires Streamed(backlog, live, frames, phase)
    requires var all := backlog + Events(live, n);
             m < |all| && all[m].Summary? && forall k :: 0 <= k < m ==> !all[k].Summary?
    ensures phase == Summarised && |frames| == m + 1
    ensures forall k :: 0 <= k <= m ==> Shows(frames[k], (backlog + Events(live, n))[k])
  {
    var all := backlog + Events(live, n);
    GotsAre(live, n);
    SummaryFree(all[..m]);
    ThroughAt(all, m);
  }

  /**
   Without a summary every event has its frame, and the response stands as the first select that is not an
   event says: still open, left by the client, or closed with one last error frame.
   */
  lemma StreamToEnd(backlog: seq<Event>, live: seq<Select>, n: nat, frames: seq<Frame>, phase: Phase)
    requires n <= |live| && (forall i :: 0 <= i < n ==> live[i].Got?) && (n == |live| || !live[n].Got?)
    requires Streamed(backlog, live, frames, phase)
    requires forall k :: 0 <= k < |backlog| + n ==> !(backlog + Events(live, n))[k].Summary?
    ensures |frames| == |backlog| + n + if phase == Errored then 1 else 0
    ensures forall k :: 0 <= k < |backlog| + n ==> Shows(frames[k], (backlog + Events(live, n))[k])
    ensures phase == Errored ==> frames[|backlog| + n] == ErrorFrame("stream_closed")
    ensures phase == if n == |live| then Streaming else if live[n].Closed? then Errored else Disconnected
  {
    GotsAre(live, n);
    SummaryFree(backlog + Events(live, n));
  }

  /** In the protocol, a handler's frames are what this loop writes for the events it consumed. */
  lemma HandlerIsStream(sub: Sub, h: Handler)
    requires HandlerInv(sub, h)
    ensures h.frames == FramesOf(ThroughSummary(Written(sub, h))) + (if h.phase.Errored? then [STREAM_CLOSED] else [])
    ensures h.phase.Summarised? <==> HasSummary(Written(sub, h))
  {
    var w := Written(sub, h);
    if w != [] {
      var last := |w| - 1;
      SummaryFree(w[..last]);
      WriteStep(w, last);
      if !w[last].Summary? {
        SummaryFree(w);
      }
    }
  }
}
