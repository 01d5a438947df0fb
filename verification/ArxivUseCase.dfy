/** The fetch use case over its catalogue and the download registry, one call from start to result. */
module ArxivUseCase {
  import opened Common
  import opened DownloadTypes
  import opened ArxivFetch
  import P = DownloadProtocol
  import R = DownloadRegistry

  class PaperRepository {
    var rows: Catalogue

    /** First seen wins: a key already there is a skip, not an error. */
    method Save(e: Entry, fault: bool) returns (isNew: bool, failed: bool)
      modifies this
      ensures failed == fault && (fault ==> rows == old(rows) && !isNew)
      ensures !fault ==> rows == Saved(old(rows), e) && (isNew <==> Key(e.source, e.sourceID) !in old(rows))
      ensures rows == if isNew then old(rows)[Key(e.source, e.sourceID) := e] else old(rows)
    {
      if fault { return false, true; }
      isNew, failed := KeyOf(e) !in rows, false;
      if isNew { rows := rows[KeyOf(e) := e]; }
    }
  }

  datatype FetchError = UpstreamFailed | CatalogueUnavailable

  datatype Result = Result(entry: Entry, isNew: bool)

  // -------------------------------------------- what a call alone finds

  /** The rows after saving the entries in order. */
  function SavedAll(c: Catalogue, entries: seq<Entry>): Catalogue {
    if entries == [] then c else Saved(SavedAll(c, entries[..|entries| - 1]), entries[|entries| - 1])
  }

  /** New: not in the catalogue before, and the first of its key in the feed. */
  predicate FirstSeen(c: Catalogue, entries: seq<Entry>, k: nat)
    requires k < |entries|
  {
    KeyOf(entries[k]) !in c && !Mentions(entries[..k], KeyOf(entries[k]))
  }

  /** Saving keeps every row there was and adds the first entry of every other key. */
  lemma {:induction false} FirstSeenWins(c: Catalogue, entries: seq<Entry>)
    ensures forall k :: k in SavedAll(c, entries) <==> k in c || Mentions(entries, k)
    ensures forall k :: k in c ==> k in SavedAll(c, entries) && SavedAll(c, entries)[k] == c[k]
    ensures forall i :: 0 <= i < |entries| && FirstSeen(c, entries, i) ==>
              KeyOf(entries[i]) in SavedAll(c, entries) && SavedAll(c, entries)[KeyOf(entries[i])] == entries[i]
    decreases |entries|
  {
    if entries != [] {
      var last := |entries| - 1;
      var front := entries[..last];
      FirstSeenWins(c, front);
      assert entries == front + [entries[last]];
      forall k
        ensures Mentions(entries, k) <==> Mentions(front, k) || KeyOf(entries[last]) == k
      {
        MentionsSnoc(front, entries[last], k);
      }
      forall i | 0 <= i < |entries| && FirstSeen(c, entries, i) 
        ensures KeyOf(entries[i]) in SavedAll(c, entries) && SavedAll(c, entries)[KeyOf(entries[i])] == entries[i]
      {
        if i < last {
          assert front[i] == entries[i] && front[..i] == entries[..i];
          assert FirstSeen(c, front, i);
          assert Mentions(front, KeyOf(front[i]));
        }
      }
    }
  }

  predicate SavedWithout(faults: nat -> bool, n: nat) { forall k :: 0 <= k < n ==> !faults(k) }

  function NewOf(c: Catalogue, entries: seq<Entry>): seq<Entry>
    decreases |entries|
  {
    if entries == [] then []
    else
      var last := |entries| - 1;
      NewOf(c, entries[..last]) + if FirstSeen(c, entries, last) then [entries[last]] else []
  }

  lemma NewOfSnoc(c: Catalogue, entries: seq<Entry>, k: nat)
    requires k < |entries|
    ensures SavedAll(c, entries[..k + 1]) == Saved(SavedAll(c, entries[..k]), entries[k])
    ensures NewOf(c, entries[..k + 1]) == NewOf(c, entries[..k]) + if FirstSeen(c, entries, k) then [entries[k]] else []
    ensures KeyOf(entries[k]) !in SavedAll(c, entries[..k]) <==> FirstSeen(c, entries, k)
  {
    assert entries[..k + 1][..k] == entries[..k];
    FirstSeenWins(c, entries[..k]);
  }

  lemma {:induction false} PickedPrefix(entries: seq<Entry>, n: nat, flags: seq<bool>)
    requires |flags| <= n <= |entries|
    ensures Picked(entries[..n], flags) == Picked(entries, flags)
    decreases |flags|
  {
    if flags != [] { PickedPrefix(entries, n, flags[..|flags| - 1]); }
  }

  /** What a call alone hands on is what the protocol's flags pick when each says whether its entry is first seen. */
  lemma {:induction false} NewOfIsPicked(c: Catalogue, entries: seq<Entry>, flags: seq<bool>)
    requires |flags| == |entries| && forall k :: 0 <= k < |entries| ==> flags[k] == FirstSeen(c, entries, k)
    ensures NewOf(c, entries) == Picked(entries, flags)
    decreases |entries|
  {
    if entries != [] {
      var last := |entries| - 1;
      forall k | 0 <= k < last ensures flags[..last][k] == FirstSeen(c, entries[..last], k) {
        assert entries[..last][..k] == entries[..k];
      }
      NewOfIsPicked(c, entries[..last], flags[..last]);
      PickedPrefix(entries, last, flags[..last]);
    }
  }

  /** Where the save loop stands: what is stored, what was reported, what was new. */
  ghost predicate SavedSoFar(c: Catalogue, entries: seq<Entry>, results: seq<Result>, newEntries: seq<Entry>,
                             rows: Catalogue) {
    && |results| <= |entries|
    && rows == SavedAll(c, entries[..|results|])
    && newEntries == NewOf(c, entries[..|results|])
    && (forall k :: 0 <= k < |results| ==> results[k] == Result(entries[k], FirstSeen(c, entries, k)))
  }

  lemma OneMore(c: Catalogue, entries: seq<Entry>, results: seq<Result>, newEntries: seq<Entry>, rows: Catalogue)
    requires SavedSoFar(c, entries, results, newEntries, rows) && |results| < |entries|
    ensures var e := entries[|results|]; var isNew := KeyOf(e) !in rows;
            SavedSoFar(c, entries, results + [Result(e, isNew)],
                       if isNew then newEntries + [e] else newEntries, Saved(rows, e))
  {
    NewOfSnoc(c, entries, |results|);
    var more := results + [Result(entries[|results|], KeyOf(entries[|results|]) !in rows)];
    assert |more| == |results| + 1;
    forall k | 0 <= k < |more| ensures more[k] == Result(entries[k], FirstSeen(c, entries, k)) {
      assert k < |results| ==> more[k] == results[k];
    }
    assert newEntries + [] == newEntries;
  }

  /** Saves the entries up to the first failure. */
  method SaveEach(repo: PaperRepository, entries: seq<Entry>, faults: nat -> bool)
    returns (results: seq<Result>, newEntries: seq<Entry>, failed: bool)
    modifies repo
    ensures SavedSoFar(old(repo.rows), entries, results, newEntries, repo.rows)
    ensures SavedWithout(faults, |results|)
    ensures if failed then |results| < |entries| && faults(|results|) else |results| == |entries|
  {
    results, newEntries, failed := [], [], false;
    while |results| < |entries|
      invariant SavedSoFar(old(repo.rows), entries, results, newEntries, repo.rows)
      invariant SavedWithout(faults, |results|)
      decreases |entries| - |results|
    {
      var e := entries[|results|];
      OneMore(old(repo.rows), entries, results, newEntries, repo.rows);
      var isNew;
      isNew, failed := repo.Save(e, faults(|results|));
      if failed { return; }
      results := results + [Result(e, isNew)];
      if isNew { newEntries := newEntries + [e]; }
    }
  }

  method RequestsFromEntries(entries: seq<Entry>) returns (out: seq<Request>)
    ensures out == Requests(entries)
    ensures |out| == |entries| && forall k :: 0 <= k < |entries| ==> Asks(out[k], entries[k])
  {
    out := [];
    for i := 0 to |entries|
      invariant |out| == i && forall k :: 0 <= k < i ==> out[k] == ToRequest(entries[k])
    {
      var e := entries[i];
      out := out + [Request(PaperID(e.source, e.sourceID, e.version), e.pdfURL)];
    }
  }

  /** The rows and the report of a call that got past its saves. */
  ghost predicate Reported(c: Catalogue, entries: seq<Entry>, rows: Catalogue, results: seq<Result>) {
    && rows == SavedAll(c, entries) && |results| == |entries|
    && (forall k :: 0 <= k < |results| ==> results[k] == Result(entries[k], FirstSeen(c, entries, k)))
  }

  /** What the registry holds after a batch was handed to it: one more job for the entries, unless there are none. */
  twostate predicate Handed(registry: R.Registry, entries: seq<Entry>, id: JobID, job: JobSnapshot)
    reads *
  {
    if entries == [] then registry.jobs == old(registry.jobs) && job == R.NO_JOB
    else
      && registry.jobs.Keys == old(registry.jobs).Keys + {id}
      && registry.jobs == old(registry.jobs)[id := registry.jobs[id]]
      && registry.jobs[id].Valid()
      && registry.jobs[id].Abs() == P.NewJob(id, Requests(entries), registry.buffer)
      && job == P.Snapshot(registry.jobs[id].Abs())
  }

  method ScheduleNew(registry: R.Registry, newEntries: seq<Entry>, id: JobID, ghost w: R.World)
    returns (job: JobSnapshot)
    requires registry.Valid() && id !in registry.jobs
    modifies registry`jobs
    ensures registry.Valid() && Handed(registry, newEntries, id, job)
  {
    var requests := RequestsFromEntries(newEntries);
    job := registry.Schedule(id, requests, w);
  }

  /**
   A call that succeeds reports every entry in feed order, new exactly when first seen, and schedules one
   job for the new ones, if any; when the scheduler refuses, it reports the same entries without a job. A
   call that fails, upstream or at a save, schedules nothing.
   */
  method Fetch(
    repo: PaperRepository, registry: R.Registry, upstream: Option<seq<Entry>>, faults: nat -> bool,
    refused: bool, id: JobID, ghost w: R.World)
    returns (results: seq<Result>, job: JobSnapshot, err: Option<FetchError>)
    requires registry.Valid() && id !in registry.jobs
    modifies repo, registry`jobs
    ensures registry.Valid()
    ensures err == Some(UpstreamFailed) <==> upstream.None?
    ensures err == Some(CatalogueUnavailable) <==> upstream.Some? && !SavedWithout(faults, |upstream.value|)
    ensures upstream.None? ==> repo.rows == old(repo.rows)
    ensures err.Some? ==> results == []
    ensures err.None? ==> Reported(old(repo.rows), upstream.value, repo.rows, results)
    ensures err.Some? || refused ==> registry.jobs == old(registry.jobs) && job == R.NO_JOB
    ensures err.None? && !refused ==> Handed(registry, NewOf(old(repo.rows), upstream.value), id, job)
  {
    if upstream.None? { return [], R.NO_JOB, Some(UpstreamFailed); }
    var newEntries, failed;
    results, newEntries, failed := SaveEach(repo, upstream.value, faults);
    if failed { return [], R.NO_JOB, Some(CatalogueUnavailable); }
    assert upstream.value[..|results|] == upstream.value;
    if refused { return results, R.NO_JOB, None; }
    err := None;
    job := ScheduleNew(registry, newEntries, id, w);
  }
}
