/**
 Fetching new papers: each entry is saved in order, first seen wins, and what was new is scheduled for
 download. Any number of Fetch calls share one catalogue and interleave between their saves.
 */
module ArxivFetch {
  import opened Common
  import opened DownloadTypes

  datatype Entry = Entry(source: string, sourceID: string, version: string, title: string, pdfURL: string)

  datatype Key = Key(source: string, sourceID: string)

  function KeyOf(e: Entry): Key { Key(e.source, e.sourceID) }

  type Catalogue = map<Key, Entry>

  /** A row is inserted only under a key not there yet. */
  function Saved(c: Catalogue, e: Entry): Catalogue { if KeyOf(e) in c then c else c[KeyOf(e) := e] }

  function ToRequest(e: Entry): Request { Request(PaperID(e.source, e.sourceID, e.version), e.pdfURL) }

  /** The request names the entry's paper, version included, and its own PDF address. */
  predicate Asks(r: Request, e: Entry) {
    && r.paperID.source == e.source && r.paperID.sourceID == e.sourceID && r.paperID.version == e.version
    && r.pdfURL == e.pdfURL
  }

  function RequestKey(r: Request): Key { Key(r.paperID.source, r.paperID.sourceID) }

  function Requests(entries: seq<Entry>): (requests: seq<Request>)
    ensures |requests| == |entries|
    ensures forall k :: 0 <= k < |entries| ==> requests[k] == ToRequest(entries[k]) && Asks(requests[k], entries[k])
  {
    seq(|entries|, k requires 0 <= k < |entries| => ToRequest(entries[k]))
  }

  // ------------------------------------------------------ interleaved calls

  /** A Fetch call past its upstream request: for each entry saved so far, whether it was new. */
  datatype Call = Call(entries: seq<Entry>, flags: seq<bool>, phase: Phase)

  /** A call ends with its batch handed to the scheduler, refused by it, or with a failed save. */
  datatype Phase = Saving | Scheduled | Refused | Aborted

  /** The entries flagged new, in order. */
  function Picked(entries: seq<Entry>, flags: seq<bool>): seq<Entry>
    requires |flags| <= |entries|
    decreases |flags|
  {
    if flags == [] then []
    else
      var last := |flags| - 1;
      Picked(entries, flags[..last]) + if flags[last] then [entries[last]] else []
  }

  /** The catalogue, the calls, every request handed to the scheduler, and which call inserted each row. */
  datatype System = System(catalogue: Catalogue, calls: seq<Call>, log: seq<Request>, owner: map<Key, nat>)

  datatype Action = Begin(entries: seq<Entry>) | Save(call: nat, fault: bool) | Schedule(call: nat, refused: bool)

  predicate Enabled(s: System, a: Action) {
    match a
    case Begin(_) => true
    case Save(i, _) => i < |s.calls| && s.calls[i].phase.Saving? && |s.calls[i].flags| < |s.calls[i].entries|
    case Schedule(i, _) => i < |s.calls| && s.calls[i].phase.Saving? && |s.calls[i].flags| == |s.calls[i].entries|
  }

  function Next(s: System, a: Action): System
    requires Enabled(s, a)
  {
    match a
    case Begin(entries) => s.(calls := s.calls + [Call(entries, [], Saving)])
    case Save(i, fault) =>
      var call := s.calls[i];
      if fault then s.(calls := s.calls[i := call.(phase := Aborted)])
      else
        var e := call.entries[|call.flags|];
        var isNew := KeyOf(e) !in s.catalogue;
        s.(catalogue := Saved(s.catalogue, e), calls := s.calls[i := call.(flags := call.flags + [isNew])],
           owner := if isNew then s.owner[KeyOf(e) := i] else s.owner)
    case Schedule(i, refused) =>
      var call := s.calls[i];
      if refused then s.(calls := s.calls[i := call.(phase := Refused)])
      else s.(calls := s.calls[i := call.(phase := Scheduled)],
              log := s.log + Requests(Picked(call.entries, call.flags)))
  }

  function Run(s: System, actions: seq<Action>): Option<System>
    decreases |actions|
  {
    if actions == [] then Some(s)
    else if Enabled(s, actions[0]) then Run(Next(s, actions[0]), actions[1..])
    else None
  }

  function Start(c: Catalogue): System { System(c, [], [], map[]) }

  // ------------------------------------------------------------ counting

  function Count(log: seq<Request>, k: Key): nat {
    if log == [] then 0 else Count(log[..|log| - 1], k) + if RequestKey(log[|log| - 1]) == k then 1 else 0
  }

  lemma {:induction false} CountAppend(a: seq<Request>, b: seq<Request>, k: Key)
    ensures Count(a + b, k) == Count(a, k) + Count(b, k)
    decreases |b|
  {
    if b == [] {
      assert a + b == a;
    } else {
      assert (a + b)[..|a + b| - 1] == a + b[..|b| - 1];
      CountAppend(a, b[..|b| - 1], k);
    }
  }

  predicate Distinct(entries: seq<Entry>) {
    forall i, j :: 0 <= i < j < |entries| ==> KeyOf(entries[i]) != KeyOf(entries[j])
  }

  predicate Mentions(entries: seq<Entry>, k: Key) { exists i :: 0 <= i < |entries| && KeyOf(entries[i]) == k }

  lemma {:induction false} CountDistinct(entries: seq<Entry>, k: Key)
    requires Distinct(entries)
    ensures Count(Requests(entries), k) == if Mentions(entries, k) then 1 else 0
    decreases |entries|
  {
    if entries != [] {
      var last := |entries| - 1;
      var front := entries[..last];
      assert Requests(entries)[..last] == Requests(front);
      CountDistinct(front, k);
      assert Requests(entries)[last] == ToRequest(entries[last]);
      if Mentions(front, k) {
        var i :| 0 <= i < last && KeyOf(front[i]) == k;
        assert KeyOf(entries[i]) == k && KeyOf(entries[last]) != k;
      }
      MentionsSnoc(front, entries[last], k);
      assert entries == front + [entries[last]];
    }
  }

  lemma MentionsSnoc(front: seq<Entry>, e: Entry, k: Key)
    ensures Mentions(front + [e], k) <==> Mentions(front, k) || KeyOf(e) == k
  {
    if Mentions(front, k) {
      var i :| 0 <= i < |front| && KeyOf(front[i]) == k;
      assert KeyOf((front + [e])[i]) == k;
    }
    assert (front + [e])[|front|] == e;
  }

  /** The entries a call found new and, once it scheduled, handed on. */
  function New(call: Call): seq<Entry> {
    if |call.flags| <= |call.entries| then Picked(call.entries, call.flags) else []
  }

  // ------------------------------------------------------------ invariant

  ghost predicate CallInv(s: System, i: nat)
    requires i < |s.calls|
  {
    var call := s.calls[i];
    && |call.flags| <= |call.entries|
    && Distinct(New(call))
    && forall j :: 0 <= j < |New(call)| ==> KeyOf(New(call)[j]) in s.owner && s.owner[KeyOf(New(call)[j])] == i
  }

  /** How often a key has been scheduled: once, if the call that inserted it got to scheduling. */
  function Due(s: System, k: Key): nat {
    if k in s.owner && s.owner[k] < |s.calls| && s.calls[s.owner[k]].phase.Scheduled? then 1 else 0
  }

  ghost predicate CallsInv(s: System) { forall i :: 0 <= i < |s.calls| ==> CallInv(s, i) }

  ghost predicate OwnersInv(s: System) {
    forall k :: k in s.owner ==> s.owner[k] < |s.calls| && Mentions(New(s.calls[s.owner[k]]), k)
  }

  ghost predicate RowsInv(start: Catalogue, s: System) {
    && s.catalogue.Keys == start.Keys + s.owner.Keys && start.Keys !! s.owner.Keys
    && (forall k :: k in start ==> k in s.catalogue && s.catalogue[k] == start[k])
  }

  ghost predicate CountsInv(s: System) { forall k :: Count(s.log, k) == Due(s, k) }

  ghost predicate FetchInv(start: Catalogue, s: System) {
    CallsInv(s) && OwnersInv(s) && RowsInv(start, s) && CountsInv(s)
  }

  lemma PickedSnoc(entries: seq<Entry>, flags: seq<bool>, flag: bool)
    requires |flags| < |entries|
    ensures Picked(entries, flags + [flag]) == Picked(entries, flags) + if flag then [entries[|flags|]] else []
  {
    assert (flags + [flag])[..|flags|] == flags;
  }
}
