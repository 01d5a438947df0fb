/** Atomic publish: what every interleaving of Ensure calls keeps true of the cache directory. */
module PdfStoreSafety {
  import opened Common
  import opened PdfStore

  predicate HasTemp(call: Call) { call.Write? || call.Close? || call.Rename? }

  predicate OwnTemp(call: Call, p: Path) { HasTemp(call) && call.temp == p }

  predicate NonEmpty(d: Disk, p: Path) { p in d && Size(d[p]) > 0 }

  predicate Downloaded(fetched: set<(Path, Bytes)>, k: Key, body: Bytes) {
    body != [] && (CanonicalPath(k), body) in fetched
  }

  /**
   What a call knows: its body is a finished fetch, its temporary file is its own, its locator has something
   behind it.
   */
  predicate CallInv(d: Disk, fetched: set<(Path, Bytes)>, call: Call) {
    match call
    case Returned(key, Located(p)) => p == CanonicalPath(key) && NonEmpty(d, p)
    case Returned(_, _) => true
    case Publish(key, body) => Downloaded(fetched, key, body)
    case Write(key, body, temp, written) => Downloaded(fetched, key, body) && written < |body| &&
         TempHolds(d, temp, body[..written])
    case Close(key, body, temp) => Downloaded(fetched, key, body) && TempHolds(d, temp, body)
    case Rename(key, body, temp) => Downloaded(fetched, key, body) && TempHolds(d, temp, body)
    case _ => true
  }

  predicate TempHolds(d: Disk, temp: Path, bytes: Bytes) { IsTempName(temp) && temp in d && d[temp] == File(bytes) }

  predicate Unshared(calls: seq<Call>) {
    forall i, j :: 0 <= i < j < |calls| && HasTemp(calls[i]) && HasTemp(calls[j]) ==> calls[i].temp != calls[j].temp
  }

  predicate Rejected(call: Call) { call.Returned? && call.result.InvalidKey? }

  /** The directory of a call whose key was accepted. */
  predicate MayMake(call: Call, p: Path) { !Rejected(call) && Parent(call.key) == p }

  predicate IsParent(calls: seq<Call>, p: Path) { exists i :: 0 <= i < |calls| && MayMake(calls[i], p) }

  predicate LiveTemp(calls: seq<Call>, p: Path) { exists i :: 0 <= i < |calls| && OwnTemp(calls[i], p) }

  ghost predicate Complete(s: System, p: Path)
    requires p in s.disk
  {
    exists body :: body != [] && (p, body) in s.fetched && s.disk[p] == File(body)
  }

  /** How a path came to hold what it holds. */
  ghost predicate Origin(start: Disk, s: System, p: Path)
    requires p in s.disk
  {
    if p in start && s.disk[p] == start[p] then true
    else if s.disk[p].Directory? then p !in start && IsParent(s.calls, p)
    else if IsTempName(p) then LiveTemp(s.calls, p) || p in s.litter
    else Complete(s, p)
  }

  ghost predicate StoreInv(start: Disk, s: System) {
    && (forall i :: 0 <= i < |s.calls| ==> CallInv(s.disk, s.fetched, s.calls[i]))
    && Unshared(s.calls)
    && (forall p :: p in s.disk ==> Origin(start, s, p))
    && start.Keys <= s.disk.Keys
    && (forall i :: 0 <= i < |s.calls| && HasTemp(s.calls[i]) ==> s.calls[i].temp !in start)
  }

  // ------------------------------------------------------------ one step

  /** A step leaves every path alone but its own temporary file and, on rename, its own canonical path. */
  lemma Untouched(s: System, call: Call, m: Move, q: Path)
    requires Allowed(call, s.disk, m) && q in s.disk && !OwnTemp(call, q) &&
              (m.Renamed? ==> q != CanonicalPath(call.key))
    ensures q in DiskAfter(call, s.disk, m) && DiskAfter(call, s.disk, m)[q] == s.disk[q]
  {
  }

  /** Nothing that is not a temporary file ever disappears, turns empty, or changes kind. */
  lemma NeverReverts(s: System, call: Call, m: Move, q: Path)
    requires Allowed(call, s.disk, m) && CallInv(s.disk, s.fetched, call) && q in s.disk && !OwnTemp(call, q)
    ensures var d := DiskAfter(call, s.disk, m);
            q in d && (NonEmpty(s.disk, q) ==> NonEmpty(d, q)) && (d[q].Directory? <==> s.disk[q].Directory?)
  {
    if !(m.Renamed? && q == CanonicalPath(call.key)) { Untouched(s, call, m, q); }
  }

  lemma OwnCall(s: System, call: Call, m: Move)
    requires Allowed(call, s.disk, m) && CallInv(s.disk, s.fetched, call)
    ensures CallInv(DiskAfter(call, s.disk, m),
                    if m.Fetched? && m.body != [] then s.fetched + {(CanonicalPath(call.key), m.body)} else s.fetched,
                    CallAfter(call, s.disk, m))
  {
    if m.TempMade? {
      TempNames(call.key, m.random);
    } else if m.Wrote? {
      assert call.written + m.count == |call.body| ==> call.body[..call.written + m.count] == call.body;
    }
  }

  lemma OtherCall(s: System, i: nat, m: Move, other: Call)
    requires i < |s.calls| && Allowed(s.calls[i], s.disk, m) && CallInv(s.disk, s.fetched, s.calls[i]) &&
              CallInv(s.disk, s.fetched, other)
    requires HasTemp(other) ==> !OwnTemp(s.calls[i], other.temp)
    ensures var t := Next(s, Step(i, m)); CallInv(t.disk, t.fetched, other)
  {
    var call := s.calls[i];
    TempNames(call.key, "");
    if HasTemp(other) {
      Untouched(s, call, m, other.temp);
    } else if other.Returned? && other.result.Located? {
      TempNames(other.key, "");
      NeverReverts(s, call, m, other.result.path);
    }
  }

  lemma CallsStep(start: Disk, s: System, i: nat, m: Move)
    requires StoreInv(start, s) && Enabled(s, Step(i, m))
    ensures var t := Next(s, Step(i, m));
            Unshared(t.calls) && forall j :: 0 <= j < |t.calls| ==> CallInv(t.disk, t.fetched, t.calls[j])
  {
    var t, call := Next(s, Step(i, m)), s.calls[i];
    forall j | 0 <= j < |t.calls| ensures CallInv(t.disk, t.fetched, t.calls[j]) {
      if j == i {
        OwnCall(s, call, m);
      } else {
        assert HasTemp(s.calls[j]) ==> !OwnTemp(call, s.calls[j].temp);
        OtherCall(s, i, m, s.calls[j]);
      }
    }
    forall j, k | 0 <= j < k < |t.calls| && HasTemp(t.calls[j]) && HasTemp(t.calls[k])
      ensures t.calls[j].temp != t.calls[k].temp
    {
      if m.TempMade? {
        assert j != i ==> CallInv(s.disk, s.fetched, s.calls[j]);
        assert k != i ==> CallInv(s.disk, s.fetched, s.calls[k]);
      }
    }
  }

  /** What a step leaves of the kinds of path that carry an origin. */
  lemma KindsKept(s: System, i: nat, m: Move, p: Path)
    requires Enabled(s, Step(i, m))
    ensures var t := Next(s, Step(i, m));
            && (IsParent(s.calls, p) ==> IsParent(t.calls, p))
            && s.fetched <= t.fetched && s.litter <= t.litter
            && (LiveTemp(s.calls, p) && !OwnTemp(s.calls[i], p) ==> LiveTemp(t.calls, p))
  {
    var t := Next(s, Step(i, m));
    if IsParent(s.calls, p) {
      var j :| 0 <= j < |s.calls| && MayMake(s.calls[j], p);
      assert MayMake(t.calls[j], p);
    }
    if LiveTemp(s.calls, p) && !OwnTemp(s.calls[i], p) {
      var j :| 0 <= j < |s.calls| && OwnTemp(s.calls[j], p);
      assert t.calls[j] == s.calls[j];
    }
  }

  /** A path the step did not touch keeps its origin. */
  lemma SameOrigin(start: Disk, s: System, i: nat, m: Move, p: Path)
    requires Enabled(s, Step(i, m)) && p in s.disk && Origin(start, s, p)
    requires !OwnTemp(s.calls[i], p) && (m.Renamed? ==> p != CanonicalPath(s.calls[i].key))
    ensures var t := Next(s, Step(i, m)); p in t.disk && Origin(start, t, p)
  {
    var t := Next(s, Step(i, m));
    Untouched(s, s.calls[i], m, p);
    KindsKept(s, i, m, p);
    if Complete(s, p) { assert Complete(t, p); }
  }

  /** The step's own temporary file is still its own, gone, renamed, or left behind. */
  lemma TempOrigin(start: Disk, s: System, i: nat, m: Move, p: Path)
    requires Enabled(s, Step(i, m)) && CallInv(s.disk, s.fetched, s.calls[i]) && OwnTemp(s.calls[i], p)
    ensures var t := Next(s, Step(i, m));
            p in t.disk ==> Origin(start, t, p)
  {
    var t, call := Next(s, Step(i, m)), s.calls[i];
    if m.Renamed? {
      TempNames(call.key, "");
    } else if m.Wrote? || m.Closed? {
      assert OwnTemp(t.calls[i], p);
    }
  }

  /** A path that appears is the step's directory or temporary file; a renamed one holds a finished fetch. */
  lemma NewOrigin(start: Disk, s: System, i: nat, m: Move, p: Path)
    requires StoreInv(start, s) && Enabled(s, Step(i, m)) && p in Next(s, Step(i, m)).disk
    requires p !in s.disk || (m.Renamed? && p == CanonicalPath(s.calls[i].key))
    ensures Origin(start, Next(s, Step(i, m)), p)
  {
    var t, call := Next(s, Step(i, m)), s.calls[i];
    assert CallInv(s.disk, s.fetched, call);
    if m.Renamed? {
      TempNames(call.key, "");
      assert Complete(t, p);
    } else if m.TempMade? {
      TempNames(call.key, m.random);
      assert OwnTemp(t.calls[i], p);
    } else {
      assert MayMake(t.calls[i], p);
    }
  }

  lemma StartStays(start: Disk, s: System, i: nat, m: Move)
    requires StoreInv(start, s) && Enabled(s, Step(i, m))
    ensures var t := Next(s, Step(i, m));
            start.Keys <= t.disk.Keys && forall j :: 0 <= j < |t.calls| && HasTemp(t.calls[j]) ==>
                t.calls[j].temp !in start
  {
    var t, call := Next(s, Step(i, m)), s.calls[i];
    forall p | p in start ensures p in t.disk {
      assert !OwnTemp(call, p);
      assert CallInv(s.disk, s.fetched, call);
      NeverReverts(s, call, m, p);
    }
    forall j | 0 <= j < |t.calls| && HasTemp(t.calls[j]) ensures t.calls[j].temp !in start {
      if j != i { assert t.calls[j] == s.calls[j]; }
    }
  }

  lemma MoveInv(start: Disk, s: System, i: nat, m: Move)
    requires StoreInv(start, s) && Enabled(s, Step(i, m))
    ensures StoreInv(start, Next(s, Step(i, m)))
  {
    var t, call := Next(s, Step(i, m)), s.calls[i];
    CallsStep(start, s, i, m);
    StartStays(start, s, i, m);
    forall p | p in t.disk ensures Origin(start, t, p) {
      assert CallInv(s.disk, s.fetched, call);
      if p !in s.disk || (m.Renamed? && p == CanonicalPath(call.key)) {
        NewOrigin(start, s, i, m, p);
      } else if OwnTemp(call, p) {
        TempOrigin(start, s, i, m, p);
      } else {
        SameOrigin(start, s, i, m, p);
      }
    }
  }

  lemma OneMoreCall(start: Disk, s: System, c: Call, p: Path)
    requires StoreInv(start, s) && p in s.disk
    ensures Origin(start, s.(calls := s.calls + [c]), p)
  {
    var t := s.(calls := s.calls + [c]);
    assert Origin(start, s, p);
    if Complete(s, p) { assert Complete(t, p); }
    if IsParent(s.calls, p) {
      var i :| 0 <= i < |s.calls| && MayMake(s.calls[i], p);
      assert MayMake(t.calls[i], p);
    }
    if LiveTemp(s.calls, p) {
      var i :| 0 <= i < |s.calls| && OwnTemp(s.calls[i], p);
      assert OwnTemp(t.calls[i], p);
    }
  }

  lemma NewCall(start: Disk, s: System, c: Call)
    requires StoreInv(start, s) && (c.Gate? || Rejected(c))
    ensures StoreInv(start, s.(calls := s.calls + [c]))
  {
    var t := s.(calls := s.calls + [c]);
    assert forall i :: 0 <= i < |s.calls| ==> t.calls[i] == s.calls[i];
    forall p | p in t.disk ensures Origin(start, t, p) { OneMoreCall(start, s, c, p); }
  }

  lemma BeginInv(start: Disk, s: System, k: Key)
    requires StoreInv(start, s)
    ensures StoreInv(start, Next(s, Begin(k)))
  {
    NewCall(start, s, Entered(k));
  }

  lemma StepInv(start: Disk, s: System, a: Action)
    requires StoreInv(start, s) && Enabled(s, a)
    ensures StoreInv(start, Next(s, a))
  {
    match a
    case Begin(key) => BeginInv(start, s, key);
    case Step(i, m) => MoveInv(start, s, i, m);
  }

  lemma {:induction false} RunKeeps(start: Disk, s: System, actions: seq<Action>, t: System)
    requires StoreInv(start, s) && Run(s, actions) == Some(t)
    ensures StoreInv(start, t)
    decreases |actions|
  {
    if actions != [] {
      StepInv(start, s, actions[0]);
      RunKeeps(start, Next(s, actions[0]), actions[1..], t);
    }
  }

  // ------------------------------------------------------------ guarantees

  /** States reached from a directory that only these calls write to. */
  ghost predicate Reaches(start: Disk, actions: seq<Action>, s: System) { Run(Start(start), actions) == Some(s) }

  lemma Reachable(start: Disk, actions: seq<Action>, s: System)
    requires Reaches(start, actions, s)
    ensures StoreInv(start, s)
  {
    RunKeeps(start, Start(start), actions, s);
  }

  /**
   Atomic publish: a key's path is absent, as it started, or the complete non-empty body of a finished
   fetch for that path; failing that it is the directory of another key of the same run.
   */
  lemma AtomicPublish(start: Disk, actions: seq<Action>, s: System, k: Key)
    requires Reaches(start, actions, s)
    ensures var p := CanonicalPath(k);
            p in s.disk ==>
              || (p in start && s.disk[p] == start[p])
              || (exists body :: body != [] && (p, body) in s.fetched && s.disk[p] == File(body))
              || (s.disk[p].Directory? && IsParent(s.calls, p))
  {
    Reachable(start, actions, s);
    TempNames(k, "");
  }

  lemma {:induction false} NeverRevertsRun(start: Disk, s: System, actions: seq<Action>, t: System, p: Path)
    requires StoreInv(start, s) && Run(s, actions) == Some(t) && NonEmpty(s.disk, p) && !IsTempName(p)
    ensures NonEmpty(t.disk, p) && (t.disk[p].Directory? <==> s.disk[p].Directory?)
    decreases |actions|
  {
    if actions != [] {
      var a := actions[0];
      StepInv(start, s, a);
      if a.Step? {
        assert CallInv(s.disk, s.fetched, s.calls[a.call]);
        NeverReverts(s, s.calls[a.call], a.move, p);
      }
      NeverRevertsRun(start, Next(s, a), actions[1..], t, p);
    }
  }

  /** Once a key's path has content it has content for good, whatever later calls do or fail at. */
  lemma StaysPublished(start: Disk, before: seq<Action>, s: System, after: seq<Action>, t: System, k: Key)
    requires Reaches(start, before, s) && Run(s, after) == Some(t) && NonEmpty(s.disk, CanonicalPath(k))
    ensures NonEmpty(t.disk, CanonicalPath(k))
    ensures t.disk[CanonicalPath(k)].Directory? <==> s.disk[CanonicalPath(k)].Directory?
  {
    Reachable(start, before, s);
    TempNames(k, "");
    NeverRevertsRun(start, s, after, t, CanonicalPath(k));
  }

  /** Every call was either rejected or has an acceptable key. */
  ghost predicate Checked(s: System, ok: Key -> bool) {
    forall i :: 0 <= i < |s.calls| ==> Rejected(s.calls[i]) || ok(s.calls[i].key)
  }

  lemma MoveChecked(s: System, i: nat, m: Move, ok: Key -> bool)
    requires Checked(s, ok) && Enabled(s, Step(i, m))
    ensures Checked(Next(s, Step(i, m)), ok)
  {
  }

  lemma BeginChecked(s: System, k: Key, ok: Key -> bool)
    requires Checked(s, ok) && (Rejected(Entered(k)) || ok(Entered(k).key))
    ensures Checked(Next(s, Begin(k)), ok)
  {
  }

  lemma {:induction false} CheckedRun(s: System, actions: seq<Action>, t: System, ok: Key -> bool)
    requires Checked(s, ok) && Run(s, actions) == Some(t)
    requires forall k :: Rejected(Entered(k)) || ok(Entered(k).key)
    ensures Checked(t, ok)
    decreases |actions|
  {
    if actions != [] {
      if actions[0].Begin? {
        BeginChecked(s, actions[0].key, ok);
      } else {
        MoveChecked(s, actions[0].call, actions[0].move, ok);
      }
      CheckedRun(Next(s, actions[0]), actions[1..], t, ok);
    }
  }

  lemma EnteredChecked()
    ensures forall k :: Rejected(Entered(k)) || Valid(Entered(k).key)
  {
  }

  /** Only calls with valid keys get past the first check. */
  lemma AcceptedAreValid(start: Disk, actions: seq<Action>, s: System, i: nat)
    requires Reaches(start, actions, s) && i < |s.calls| && !Rejected(s.calls[i])
    ensures Valid(s.calls[i].key)
  {
    EnteredChecked();
    CheckedRun(Start(start), actions, s, Valid);
  }

  /** A valid key of some call whose directory is where the file of `k` belongs. */
  ghost predicate Shadowed(calls: seq<Call>, k: Key) {
    k.sourceType == "." &&
    exists j :: 0 <= j < |calls| && Valid(calls[j].key) && calls[j].key.sourceType == k.sourceID + ".pdf"
  }

  /**
   A locator names a non-empty file, now and ever after, unless its path was a directory from the start
   or the valid key of some call, type included, makes it one.
   */
  lemma LocatorsAreGood(start: Disk, actions: seq<Action>, s: System, i: nat)
    requires Reaches(start, actions, s) && i < |s.calls| && s.calls[i].Returned? && s.calls[i].result.Located?
    ensures var k := s.calls[i].key; var p := CanonicalPath(k);
            && s.calls[i].result.path == p && NonEmpty(s.disk, p)
            && (!IsDirectory(start, p) && !Shadowed(s.calls, k) ==> s.disk[p].File? && s.disk[p].bytes != [])
  {
    Reachable(start, actions, s);
    var k := s.calls[i].key;
    var p := CanonicalPath(k);
    assert CallInv(s.disk, s.fetched, s.calls[i]) && Origin(start, s, p);
    if s.disk[p].Directory? && !IsDirectory(start, p) {
      var j :| 0 <= j < |s.calls| && MayMake(s.calls[j], p);
      AcceptedAreValid(start, actions, s, j);
      SharedPath(k, s.calls[j].key);
    }
  }

  lemma SharedPath(k: Key, other: Key)
    requires Parent(other) == CanonicalPath(k)
    ensures k.sourceType == "." && other.sourceType == k.sourceID + ".pdf"
  {
    assert CanonicalPath(k)[|CanonicalPath(k)| - 1] == k.sourceID + ".pdf";
  }

  /**
   When every call has returned and every removal succeeded, what is new on disk is directories and complete
   files.
   */
  lemma NothingLeftBehind(start: Disk, actions: seq<Action>, s: System, p: Path)
    requires Reaches(start, actions, s) && s.litter == {} && forall i :: 0 <= i < |s.calls| ==> s.calls[i].Returned?
    requires p in s.disk && p !in start
    ensures || (s.disk[p].Directory? && IsParent(s.calls, p))
            || exists body :: body != [] && (p, body) in s.fetched && s.disk[p] == File(body)
  {
    Reachable(start, actions, s);
    assert Origin(start, s, p);
    assert !LiveTemp(s.calls, p);
  }

  lemma RunCons(s: System, a: Action, rest: seq<Action>)
    requires Enabled(s, a)
    ensures Run(s, [a] + rest) == Run(Next(s, a), rest)
  {
    assert ([a] + rest)[1..] == rest;
  }

  lemma RunBegin(s: System, k: Key, rest: seq<Action>)
    requires Entered(k) == Gate(k)
    ensures Run(s, [Begin(k)] + rest) == Run(s.(calls := s.calls + [Gate(k)]), rest)
  {
    RunCons(s, Begin(k), rest);
  }

  lemma DirectoryMade(s1: System, other: Key, size: nat, rest: seq<Action>) returns (s: System)
    requires s1.disk == map[] && s1.calls == [Gate(other)] && Parent(other) == [other.sourceType]
    ensures Run(s1, [Step(0, Stat)] + ([Step(0, MadeDir(size))] + rest)) == Run(s, rest)
    ensures s.disk == map[[other.sourceType] := Directory(size)] && s.calls == [Fetch(other)]
  {
    var s2 := Next(s1, Step(0, Stat));
    s := Next(s2, Step(0, MadeDir(size)));
    RunCons(s2, Step(0, MadeDir(size)), rest);
    RunCons(s1, Step(0, Stat), [Step(0, MadeDir(size))] + rest);
  }

  lemma DirectoryFound(s4: System, k: Key) returns (s: System)
    requires |s4.calls| == 2 && s4.calls[1] == Gate(k)
    requires NonEmpty(s4.disk, CanonicalPath(k)) && IsDirectory(s4.disk, CanonicalPath(k))
    ensures Run(s4, [Step(1, Stat)] + []) == Some(s)
    ensures |s.calls| == 2 && s.calls[1] == Returned(k, Located(CanonicalPath(k)))
    ensures IsDirectory(s.disk, CanonicalPath(k))
  {
    s := Next(s4, Step(1, Stat));
    RunCons(s4, Step(1, Stat), []);
  }

  /** The other key's directory is made first, then the key's own call looks for its file. */
  function DirectoryRun(k: Key, other: Key, size: nat): seq<Action> {
    [Begin(other)] + ([Step(0, Stat)] + ([Step(0, MadeDir(size))] + ([Begin(k)] + ([Step(1, Stat)] + []))))
  }

  lemma DirectoryRuns(k: Key, other: Key, size: nat) returns (s: System)
    requires Entered(k) == Gate(k) && Entered(other) == Gate(other) && size > 0
    requires CanonicalPath(k) == Parent(other) == [other.sourceType]
    ensures Reaches(map[], DirectoryRun(k, other, size), s)
    ensures |s.calls| == 2 && s.calls[1] == Returned(k, Located(CanonicalPath(k)))
    ensures IsDirectory(s.disk, CanonicalPath(k))
  {
    var find := [Begin(k)] + ([Step(1, Stat)] + []);
    RunBegin(Start(map[]), other, [Step(0, Stat)] + ([Step(0, MadeDir(size))] + find));
    var s1 := Start(map[]).(calls := [] + [Gate(other)]);
    var s3 := DirectoryMade(s1, other, size, find);
    RunBegin(s3, k, [Step(1, Stat)] + []);
    s := DirectoryFound(s3.(calls := s3.calls + [Gate(k)]), k);
  }

  /** The exception is real: a directory made for one key answers the stat gate of the other. */
  lemma DirectoryServed(k: Key, other: Key, size: nat) returns (s: System)
    requires Valid(k) && Valid(other) && size > 0 && k.sourceType == "." && other.sourceType == k.sourceID + ".pdf"
    ensures Reaches(map[], DirectoryRun(k, other, size), s)
    ensures |s.calls| == 2 && s.calls[1] == Returned(k, Located(CanonicalPath(k)))
    ensures IsDirectory(s.disk, CanonicalPath(k))
  {
    PathsAreKeys(k, other);
    s := DirectoryRuns(k, other, size);
  }
}
