/**
 The PDF cache on disk under any number of interleaved Ensure calls: stat gate, directory, fetch,
 temporary file, rename. Every filesystem call, fetch and context check may go either way.
 */
module PdfStore {
  import opened Common
  import opened Text

  datatype Key = Key(sourceType: string, sourceID: string, url: string)

  type Bytes = seq<bv8>

  /** Path elements below the store root; the root itself is []. */
  type Path = seq<string>

  datatype Node = Directory(size: nat) | File(bytes: Bytes)

  type Disk = map<Path, Node>

  function Size(n: Node): nat { if n.Directory? then n.size else |n.bytes| }

  // ------------------------------------------------------------------ keys

  predicate HasDotDot(s: string) { exists k :: 0 < k < |s| && s[k - 1] == '.' && s[k] == '.' }

  predicate BadIdentifier(s: string) { HasDotDot(s) || '/' in s || '\\' in s }

  /** Every field has more than space in it, and the identifiers have no separator and no two dots in a row. */
  predicate Valid(k: Key) {
    !Blank(k.sourceType) && !Blank(k.sourceID) && !Blank(k.url) &&
    !BadIdentifier(k.sourceType) && !BadIdentifier(k.sourceID)
  }

  /** Validation in the terms of the string functions it calls. */
  lemma ValidByTrimming(k: Key)
    ensures Valid(k) <==>
              && TrimSpace(k.sourceType) != "" && TrimSpace(k.sourceID) != "" && TrimSpace(k.url) != ""
              && Index(k.sourceType, "..", 0) < 0 && '/' !in k.sourceType && '\\' !in k.sourceType
              && Index(k.sourceID, "..", 0) < 0 && '/' !in k.sourceID && '\\' !in k.sourceID
  {
    BlankIsTrimmed(k.sourceType);
    BlankIsTrimmed(k.sourceID);
    BlankIsTrimmed(k.url);
    DotDotIsFound(k.sourceType);
    DotDotIsFound(k.sourceID);
  }

  lemma DotDotIsFound(s: string)
    ensures HasDotDot(s) <==> Index(s, "..", 0) >= 0
  {
    var i := Index(s, "..", 0);
    if HasDotDot(s) {
      var k :| 0 < k < |s| && s[k - 1] == '.' && s[k] == '.';
      assert s[k - 1..][..2] == "..";
      assert ".." <= s[k - 1..];
    }
    if i >= 0 {
      assert s[i..][0] == '.' && s[i..][1] == '.';
      assert s[i + 1 - 1] == '.' && s[i + 1] == '.';
    }
  }

  /** The directory of a key's file; joining a path drops a lone dot. */
  function Parent(k: Key): Path { if k.sourceType == "." then [] else [k.sourceType] }

  function CanonicalPath(k: Key): Path { Parent(k) + [k.sourceID + ".pdf"] }

  /** The name os.CreateTemp builds around its random part. */
  function TempPath(k: Key, random: string): Path { Parent(k) + [k.sourceID + "." + random + ".pdf.tmp"] }

  predicate EndsWith(s: string, suffix: string) { |suffix| <= |s| && s[|s| - |suffix|..] == suffix }

  predicate IsTempName(p: Path) { p != [] && EndsWith(p[|p| - 1], ".tmp") }

  /** A path is built from plain elements only, so joining it stays below the root. */
  predicate BelowRoot(p: Path) { p != [] && forall k :: 0 <= k < |p| ==> Plain(p[k]) }

  predicate Plain(element: string) { element != "" && element != "." && element != ".." && '/' !in element }

  lemma PlainElement(s: string)
    requires !BadIdentifier(s) && !Blank(s)
    ensures s == "." || Plain(s)
  {
    var dots := "..";
    assert dots[1 - 1] == '.' && dots[1] == '.';
    assert HasDotDot(dots);
  }

  /** The file name of a key gives the id back. */
  lemma FileName(id: string, id': string)
    requires id == "." || Plain(id)
    ensures id + ".pdf" == id' + ".pdf" <==> id == id'
    ensures Plain(id + ".pdf")
  {
    var name := id + ".pdf";
    assert name[..|name| - 4] == id && (id' + ".pdf")[..|id'|] == id';
    assert name[|name| - 1] == 'f' && |name| >= 4;
  }

  /** No key's file is named like a temporary file, and every temporary file is. */
  lemma TempNames(k: Key, random: string)
    ensures !IsTempName(CanonicalPath(k)) && IsTempName(TempPath(k, random))
  {
    var name := k.sourceID + ".pdf";
    assert CanonicalPath(k)[|CanonicalPath(k)| - 1] == name && name[|name| - 4..] == ".pdf";
    var temp := k.sourceID + "." + random + ".pdf.tmp";
    assert TempPath(k, random)[|TempPath(k, random)| - 1] == temp && temp[|temp| - 4..] == ".tmp";
  }

  /**
   Valid keys are told apart by their paths, which stay below the root; one key's file can only be another's
   directory under the type `.`.
   */
  lemma PathsAreKeys(a: Key, b: Key)
    requires Valid(a) && Valid(b)
    ensures CanonicalPath(a) == CanonicalPath(b) <==> a.sourceType == b.sourceType && a.sourceID == b.sourceID
    ensures CanonicalPath(a) ==
            if a.sourceType == "." then [a.sourceID + ".pdf"] else [a.sourceType, a.sourceID + ".pdf"]
    ensures BelowRoot(CanonicalPath(a))
    ensures CanonicalPath(a) == Parent(b) <==> a.sourceType == "." && b.sourceType == a.sourceID + ".pdf"
  {
    PlainElement(a.sourceType);
    PlainElement(a.sourceID);
    FileName(a.sourceID, b.sourceID);
    Shapes(a.sourceType, a.sourceID + ".pdf", b.sourceType, b.sourceID + ".pdf");
    PlainParts(a.sourceType, a.sourceID + ".pdf");
  }

  lemma PlainParts(t: string, name: string)
    requires (t == "." || Plain(t)) && Plain(name)
    ensures BelowRoot((if t == "." then [] else [t]) + [name])
  {
  }

  /** One or two elements, told apart by length and content. */
  lemma Shapes(t: string, name: string, t': string, name': string)
    requires name != "."
    ensures (if t == "." then [] else [t]) + [name] == (if t' == "." then [] else [t']) + [name'] <==>
              t == t' && name == name'
    ensures (if t == "." then [] else [t]) + [name] == (if t' == "." then [] else [t']) <==> t == "." && t' == name
  {
    var p, p' := (if t == "." then [] else [t]) + [name], (if t' == "." then [] else [t']) + [name'];
    assert p[|p| - 1] == name && p'[|p'| - 1] == name';
    assert |p| == 2 ==> p[0] == t;
    assert |p'| == 2 ==> p'[0] == t';
    if t == "." && t' == name { assert p == [t']; }
  }

  // ------------------------------------------------------------ one call

  datatype Result = Located(path: Path) | InvalidKey | FetchError | StoreError

  /** Where a call of Ensure stands. */
  datatype Call =
    | Gate(key: Key)
    | MakeDir(key: Key)
    | Fetch(key: Key)
    | Publish(key: Key, body: Bytes)
    | Write(key: Key, body: Bytes, temp: Path, written: nat)
    | Close(key: Key, body: Bytes, temp: Path)
    | Rename(key: Key, body: Bytes, temp: Path)
    | Returned(key: Key, result: Result)

  /** How the next operation of a call comes out; `removed` says whether the temporary file could be deleted. */
  datatype Move =
    | Stat
    | MadeDir(size: nat)
    | NoDir
    | Fetched(body: Bytes)
    | FetchFailed
    | Cancelled
    | TempMade(random: string)
    | NoTemp
    | Wrote(count: nat)
    | WriteFailed(removed: bool)
    | Closed
    | CloseFailed(removed: bool)
    | Renamed
    | RenameFailed(removed: bool)

  predicate IsDirectory(d: Disk, p: Path) { p in d && d[p].Directory? }

  function Entered(k: Key): Call { if Valid(k) then Gate(k) else Returned(k, InvalidKey) }

  predicate Allowed(call: Call, d: Disk, m: Move) {
    match call
    case Gate(_) => m.Stat?
    case MakeDir(key) =>
      m.NoDir? || (m.MadeDir? && (Parent(key) == [] || Parent(key) !in d || IsDirectory(d, Parent(key))))
    case Fetch(_) => m.Fetched? || m.FetchFailed?
    case Publish(key, _) => m.Cancelled? || m.NoTemp? || (m.TempMade? && TempPath(key, m.random) !in d)
    case Write(_, body, _, written) => m.WriteFailed? || (m.Wrote? && 0 < m.count <= |body| - written)
    case Close(_, _, _) => m.Closed? || m.CloseFailed?
    case Rename(key, _, temp) => m.RenameFailed? || (m.Renamed? && temp in d && !IsDirectory(d, CanonicalPath(key)))
    case Returned(_, _) => false
  }

  function Discard(d: Disk, temp: Path, removed: bool): Disk { if removed then d - {temp} else d }

  function CallAfter(call: Call, d: Disk, m: Move): Call
    requires Allowed(call, d, m)
  {
    var k := call.key;
    match m
    case Stat =>
      if CanonicalPath(k) in d && Size(d[CanonicalPath(k)]) > 0 then Returned(k, Located(CanonicalPath(k)))
      else MakeDir(k)
    case MadeDir(_) => Fetch(k)
    case Fetched(body) => if body == [] then Returned(k, FetchError) else Publish(k, body)
    case FetchFailed => Returned(k, FetchError)
    case TempMade(random) => Write(k, call.body, TempPath(k, random), 0)
    case Wrote(count) =>
      if call.written + count == |call.body| then Close(k, call.body, call.temp)
      else Write(k, call.body, call.temp, call.written + count)
    case Closed => Rename(k, call.body, call.temp)
    case Renamed => Returned(k, Located(CanonicalPath(k)))
    case _ => Returned(k, StoreError)
  }

  function DiskAfter(call: Call, d: Disk, m: Move): Disk
    requires Allowed(call, d, m)
  {
    match m
    case MadeDir(size) =>
      if Parent(call.key) == [] || Parent(call.key) in d then d
      else d[Parent(call.key) := Directory(size)]
    case TempMade(random) => d[TempPath(call.key, random) := File([])]
    case Wrote(count) => d[call.temp := File(call.body[..call.written + count])]
    case WriteFailed(removed) => Discard(d, call.temp, removed)
    case CloseFailed(removed) => Discard(d, call.temp, removed)
    case RenameFailed(removed) => Discard(d, call.temp, removed)
    case Renamed => (d - {call.temp})[CanonicalPath(call.key) := d[call.temp]]
    case _ => d
  }

  // ------------------------------------------------------------ all calls

  /** The disk and the calls so far, with the completed fetches and the temporary files that could not be deleted. */
  datatype System = System(disk: Disk, calls: seq<Call>, fetched: set<(Path, Bytes)>, litter: set<Path>)

  datatype Action = Begin(key: Key) | Step(call: nat, move: Move)

  predicate Enabled(s: System, a: Action) {
    a.Begin? || (a.call < |s.calls| && Allowed(s.calls[a.call], s.disk, a.move))
  }

  predicate Leaves(m: Move) {
    (m.WriteFailed? && !m.removed) || (m.CloseFailed? && !m.removed) || (m.RenameFailed? && !m.removed)
  }

  function Next(s: System, a: Action): System
    requires Enabled(s, a)
  {
    match a
    case Begin(key) => s.(calls := s.calls + [Entered(key)])
    case Step(i, m) =>
      var call := s.calls[i];
      System(DiskAfter(call, s.disk, m), s.calls[i := CallAfter(call, s.disk, m)],
             if m.Fetched? && m.body != [] then s.fetched + {(CanonicalPath(call.key), m.body)} else s.fetched,
             if Leaves(m) then s.litter + {call.temp} else s.litter)
  }

  function Run(s: System, actions: seq<Action>): Option<System>
    decreases |actions|
  {
    if actions == [] then Some(s)
    else if Enabled(s, actions[0]) then Run(Next(s, actions[0]), actions[1..])
    else None
  }

  function Start(d: Disk): System { System(d, [], {}, {}) }
}
