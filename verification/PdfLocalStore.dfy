/** The store as an object: one Ensure call from its checks to its result, as the code sequences them. */
module PdfLocalStore {
  import opened Common
  import opened PdfStore

  /** What the filesystem, the fetcher and the context answer during one call. */
  datatype Answers = Answers(
    madeDir: bool, dirSize: nat, fetched: Option<Bytes>, cancelled: bool, madeTemp: bool, random: string,
    wrote: bool, closed: bool, renamed: bool, removed: bool)

  /** The moves of one call alone on a disk. */
  function Moves(call: Call, d: Disk, moves: seq<Move>): Option<(Call, Disk)>
    decreases |moves|
  {
    if moves == [] then Some((call, d))
    else if Allowed(call, d, moves[0]) then
      Moves(CallAfter(call, d, moves[0]), DiskAfter(call, d, moves[0]), moves[1..])
    else None
  }

  lemma Then(call: Call, d: Disk, m: Move, rest: seq<Move>)
    requires Allowed(call, d, m)
    ensures Moves(call, d, [m] + rest) == Moves(CallAfter(call, d, m), DiskAfter(call, d, m), rest)
  {
    assert ([m] + rest)[1..] == rest;
  }

  predicate Publishes(k: Key, d: Disk, a: Answers) {
    !a.cancelled && a.madeTemp && a.wrote && a.closed && a.renamed && !IsDirectory(d, CanonicalPath(k))
  }

  function PublishResult(k: Key, d: Disk, a: Answers): Result {
    if Publishes(k, d, a) then Located(CanonicalPath(k)) else StoreError
  }

  /** The disk a publication leaves: the whole body in place, or nothing but a temporary file that would not go away. */
  function Published(k: Key, body: Bytes, d: Disk, a: Answers): Disk {
    if Publishes(k, d, a) then d[CanonicalPath(k) := File(body)]
    else if a.cancelled || !a.madeTemp || a.removed then d
    else d[TempPath(k, a.random) := File(if a.wrote then body else [])]
  }

  function ClosingMoves(k: Key, d: Disk, a: Answers): seq<Move> {
    if !a.closed then [CloseFailed(a.removed)] + []
    else [Closed] + ([if Publishes(k, d, a) then Renamed else RenameFailed(a.removed)] + [])
  }

  function PublishMoves(k: Key, body: Bytes, d: Disk, a: Answers): seq<Move> {
    if a.cancelled then [Cancelled] + []
    else if !a.madeTemp then [NoTemp] + []
    else if !a.wrote then [TempMade(a.random)] + ([WriteFailed(a.removed)] + [])
    else [TempMade(a.random)] + ([Wrote(|body|)] + ClosingMoves(k, d, a))
  }

  /** The moves after the temporary file exists. */
  lemma WrittenMoves(k: Key, body: Bytes, d: Disk, a: Answers)
    requires body != [] && a.madeTemp && !a.cancelled && a.wrote && TempPath(k, a.random) !in d
    ensures var temp := TempPath(k, a.random);
            Moves(Close(k, body, temp), d[temp := File(body)], ClosingMoves(k, d, a)) ==
                Some((Returned(k, PublishResult(k, d, a)), Published(k, body, d, a)))
  {
    var temp := TempPath(k, a.random);
    var written := d[temp := File(body)];
    TempNames(k, a.random);
    assert written - {temp} == d;
    if !a.closed {
      Then(Close(k, body, temp), written, CloseFailed(a.removed), []);
    } else {
      var m := if Publishes(k, d, a) then Renamed else RenameFailed(a.removed);
      Then(Close(k, body, temp), written, Closed, [m] + []);
      Then(Rename(k, body, temp), written, m, []);
    }
  }

  /** A publication is a sequence of moves of the protocol. */
  lemma PublicationIsMoves(k: Key, body: Bytes, d: Disk, a: Answers)
    requires body != [] && (a.madeTemp ==> TempPath(k, a.random) !in d)
    ensures Moves(Publish(k, body), d, PublishMoves(k, body, d, a))
         == Some((Returned(k, PublishResult(k, d, a)), Published(k, body, d, a)))
  {
    var temp := TempPath(k, a.random);
    var rest := ClosingMoves(k, d, a);
    if a.cancelled {
      Then(Publish(k, body), d, Cancelled, []);
    } else if !a.madeTemp {
      Then(Publish(k, body), d, NoTemp, []);
    } else {
      var started := d[temp := File([])];
      assert started - {temp} == d && body[..|body|] == body;
      assert started[temp := File(body)] == d[temp := File(body)];
      if !a.wrote {
        Then(Publish(k, body), d, TempMade(a.random), [WriteFailed(a.removed)] + []);
        Then(Write(k, body, temp, 0), started, WriteFailed(a.removed), []);
      } else {
        Then(Publish(k, body), d, TempMade(a.random), [Wrote(|body|)] + rest);
        Then(Write(k, body, temp, 0), started, Wrote(|body|), rest);
        WrittenMoves(k, body, d, a);
      }
    }
  }

  lemma DirIsElsewhere(k: Key)
    ensures Parent(k) != CanonicalPath(k) && forall random :: TempPath(k, random) != Parent(k)
  {
    assert |CanonicalPath(k)| == |Parent(k)| + 1;
  }

  /** A publication changes the key's path only by succeeding. */
  lemma PublishedPath(k: Key, body: Bytes, d: Disk, a: Answers)
    requires a.madeTemp ==> TempPath(k, a.random) !in d
    ensures var p, d' := CanonicalPath(k), Published(k, body, d, a);
            && (Publishes(k, d, a) ==> p in d' && d'[p] == File(body))
            && (!Publishes(k, d, a) ==> (p in d <==> p in d') && (p in d ==> d'[p] == d[p]))
  {
    TempNames(k, a.random);
  }

  /** Something is at the path, with content. */
  predicate HasContent(d: Disk, p: Path) {
    p in d && ((d[p].File? && d[p].bytes != []) || (d[p].Directory? && d[p].size > 0))
  }

  /** The disk once the directory is there. */
  function WithParent(k: Key, d: Disk, size: nat): Disk {
    if Parent(k) == [] || Parent(k) in d then d else d[Parent(k) := Directory(size)]
  }

  /** What one call has to come to, case by case. */
  predicate Effect(k: Key, a: Answers, d: Disk, result: Result, d': Disk) {
    var p := CanonicalPath(k);
    if HasContent(d, p) then result == Located(p) && d' == d
    else if !a.madeDir || (Parent(k) != [] && Parent(k) in d && d[Parent(k)].File?) then result == StoreError && d' == d
    else FetchEffect(k, a, WithParent(k, d, a.dirSize), result, d')
  }

  predicate FetchEffect(k: Key, a: Answers, d: Disk, result: Result, d': Disk) {
    var p := CanonicalPath(k);
    if a.fetched.None? || a.fetched.value == [] then result == FetchError && d' == d
    else if a.cancelled || !a.madeTemp then result == StoreError && d' == d
    else if !a.wrote || !a.closed || !a.renamed || (p in d && d[p].Directory?) then
      result == StoreError && (a.removed ==> d' == d) && d' - {TempPath(k, a.random)} == d - {TempPath(k, a.random)}
    else result == Located(p) && d' == d[p := File(a.fetched.value)]
  }

  lemma PublishedEffect(k: Key, a: Answers, d: Disk)
    requires !NoBody(a)
    ensures FetchEffect(k, a, d, PublishResult(k, d, a), Published(k, a.fetched.value, d, a))
  {
  }

  class LocalStore {
    var disk: Disk

    /** Writes, closes and renames a temporary file, removing it on the first failure. */
    method PublishBody(k: Key, body: Bytes, a: Answers) returns (result: Result)
      requires body != [] && (a.madeTemp ==> TempPath(k, a.random) !in disk)
      modifies this
      ensures result == PublishResult(k, old(disk), a)
      ensures disk == Published(k, body, old(disk), a)
    {
      TempNames(k, a.random);
      if a.cancelled || !a.madeTemp { return StoreError; }
      var temp := TempPath(k, a.random);
      disk := disk[temp := File([])];
      if !a.wrote {
        if a.removed { disk := disk - {temp}; }
        return StoreError;
      }
      disk := disk[temp := File(body)];
      if !a.closed {
        if a.removed { disk := disk - {temp}; }
        return StoreError;
      }
      if !a.renamed || IsDirectory(disk, CanonicalPath(k)) {
        if a.removed { disk := disk - {temp}; }
        return StoreError;
      }
      disk := (disk - {temp})[CanonicalPath(k) := disk[temp]];
      result := Located(CanonicalPath(k));
    }

    /**
     One whole call: a sequence of moves of the protocol. It locates the key's file exactly on a cache hit or
     when every operation succeeds, and an error leaves the file as it was.
     */
    method Ensure(k: Key, a: Answers) returns (result: Result, ghost moves: seq<Move>)
      requires a.madeTemp ==> TempPath(k, a.random) !in disk
      modifies this
      ensures Moves(Entered(k), old(disk), moves) == Some((Returned(k, result), disk))
      ensures result == InvalidKey <==> !Valid(k)
      ensures if Valid(k) then Effect(k, a, old(disk), result, disk) else disk == old(disk)
      ensures result == FetchError <==> Valid(k) && !Hit(k, old(disk)) && DirReady(k, old(disk), a) && NoBody(a)
      ensures result.Located? <==>
                Valid(k) && (Hit(k, old(disk)) ||
                    (DirReady(k, old(disk), a) && !NoBody(a) && Publishes(k, old(disk), a)))
      ensures result.Located? ==>
                && result.path == CanonicalPath(k) && Hit(k, disk)
                && (if Hit(k, old(disk)) then disk == old(disk) else disk[CanonicalPath(k)] == File(a.fetched.value))
      ensures !result.Located? && CanonicalPath(k) in old(disk) ==>
                CanonicalPath(k) in disk && disk[CanonicalPath(k)] == old(disk)[CanonicalPath(k)]
      ensures !result.Located? ==> CanonicalPath(k) in disk ==> CanonicalPath(k) in old(disk)
    {
      if !Valid(k) { return InvalidKey, []; }
      result, moves := EnsureValid(k, a);
    }

    method EnsureValid(k: Key, a: Answers) returns (result: Result, ghost moves: seq<Move>)
      requires a.madeTemp ==> TempPath(k, a.random) !in disk
      modifies this
      ensures Moves(Gate(k), old(disk), moves) == Some((Returned(k, result), disk))
      ensures result != InvalidKey && Effect(k, a, old(disk), result, disk)
      ensures result == FetchError <==> !Hit(k, old(disk)) && DirReady(k, old(disk), a) && NoBody(a)
      ensures result.Located? <==>
                Hit(k, old(disk)) || (DirReady(k, old(disk), a) && !NoBody(a) && Publishes(k, old(disk), a))
      ensures result.Located? ==>
                && result.path == CanonicalPath(k) && Hit(k, disk)
                && (if Hit(k, old(disk)) then disk == old(disk) else disk[CanonicalPath(k)] == File(a.fetched.value))
      ensures !result.Located? && CanonicalPath(k) in old(disk) ==>
                CanonicalPath(k) in disk && disk[CanonicalPath(k)] == old(disk)[CanonicalPath(k)]
      ensures !result.Located? ==> CanonicalPath(k) in disk ==> CanonicalPath(k) in old(disk)
    {
      var canonical := CanonicalPath(k);
      DirIsElsewhere(k);
      if canonical in disk && Size(disk[canonical]) > 0 {
        Then(Gate(k), disk, Stat, []);
        return Located(canonical), [Stat] + [];
      }
      if !DirReady(k, disk, a) {
        Then(Gate(k), disk, Stat, [NoDir] + []);
        Then(MakeDir(k), disk, NoDir, []);
        return StoreError, [Stat] + ([NoDir] + []);
      }
      if Parent(k) != [] && Parent(k) !in disk { disk := disk[Parent(k) := Directory(a.dirSize)]; }
      assert CanonicalPath(k) in disk <==> CanonicalPath(k) in old(disk);
      ghost var rest;
      ghost var before := disk;
      result, rest := FetchBody(k, a);
      assert before == WithParent(k, old(disk), a.dirSize);
      if !NoBody(a) { PublishedEffect(k, a, before); }
      if !NoBody(a) { PublishedPath(k, a.fetched.value, before, a); }
      Then(Gate(k), old(disk), Stat, [MadeDir(a.dirSize)] + rest);
      Then(MakeDir(k), old(disk), MadeDir(a.dirSize), rest);
      moves := [Stat] + ([MadeDir(a.dirSize)] + rest);
    }

    method FetchBody(k: Key, a: Answers) returns (result: Result, ghost moves: seq<Move>)
      requires a.madeTemp ==> TempPath(k, a.random) !in disk
      modifies this
      ensures Moves(Fetch(k), old(disk), moves) == Some((Returned(k, result), disk))
      ensures NoBody(a) ==> result == FetchError && disk == old(disk)
      ensures !NoBody(a) ==>
                result == PublishResult(k, old(disk), a) && disk == Published(k, a.fetched.value, old(disk), a)
    {
      if a.fetched.None? {
        Then(Fetch(k), disk, FetchFailed, []);
        return FetchError, [FetchFailed] + [];
      }
      var body := a.fetched.value;
      if |body| == 0 {
        Then(Fetch(k), disk, Fetched([]), []);
        return FetchError, [Fetched([])] + [];
      }
      PublicationIsMoves(k, body, disk, a);
      Then(Fetch(k), disk, Fetched(body), PublishMoves(k, body, disk, a));
      moves := [Fetched(body)] + PublishMoves(k, body, disk, a);
      result := PublishBody(k, body, a);
    }
  }

  predicate Hit(k: Key, d: Disk) { HasContent(d, CanonicalPath(k)) }

  predicate NoBody(a: Answers) { a.fetched.None? || a.fetched.value == [] }

  predicate DirReady(k: Key, d: Disk, a: Answers) {
    a.madeDir && (Parent(k) == [] || Parent(k) !in d || IsDirectory(d, Parent(k)))
  }
}
