/** arXiv entry ids: splitting off the version, and the artifact key that joins the two again. */
module AbsID {
  import opened Text
  import opened DownloadTypes

  const PREFIX := "http://arxiv.org/abs/"

  predicate IsDigit(c: char) { '0' <= c <= '9' }

  function TrimPrefix(s: string, prefix: string): string { if prefix <= s then s[|prefix|..] else s }

  /** The id without surrounding space and the abs prefix. */
  function Bare(id: string): string { TrimPrefix(TrimSpace(id), PREFIX) }

  /** A `v` and one or more digits. */
  predicate IsVersion(v: string) { |v| >= 2 && v[0] == 'v' && forall k :: 1 <= k < |v| ==> IsDigit(v[k]) }

  predicate Splits(bare: string, sourceID: string, version: string) {
    bare == sourceID + version && sourceID != "" && IsVersion(version)
  }

  /** A version starts at the last character that is not a digit. */
  lemma VersionStart(s: string, a: string, v: string)
    requires s == a + v && IsVersion(v)
    ensures |a| < |s| && s[|a|] == 'v' && forall k :: |a| < k < |s| ==> IsDigit(s[k])
    ensures s[..|a|] == a && s[|a|..] == v
  {
  }

  /** A bare id can be split in at most one way. */
  lemma SplitIsUnique(a: string, v: string, b: string, w: string)
    requires IsVersion(v) && IsVersion(w) && a + v == b + w
    ensures a == b && v == w
  {
    VersionStart(a + v, a, v);
    VersionStart(a + v, b, w);
  }

  ghost predicate HasVersion(bare: string) { exists k :: 0 <= k <= |bare| && Splits(bare, bare[..k], bare[k..]) }

  /** What the split of an id must be: the parts of its only split, or the bare id and no version. */
  ghost predicate IsSplitOf(id: string, sourceID: string, version: string) { DividesInto(Bare(id), sourceID, version) }

  ghost predicate DividesInto(bare: string, sourceID: string, version: string) {
    sourceID + version == bare &&
    if version == "" then !HasVersion(bare) else Splits(bare, sourceID, version)
  }

  method SplitAbsID(id: string) returns (sourceID: string, version: string)
    ensures IsSplitOf(id, sourceID, version)
    ensures TrimSpace(id) == sourceID + version || TrimSpace(id) == "http://arxiv.org/abs/" + (sourceID + version)
    ensures "http://arxiv.org/abs/" <= TrimSpace(id) ==> TrimSpace(id) == "http://arxiv.org/abs/" + (sourceID + version)
  {
    sourceID, version := SplitTail(TrimPrefix(TrimSpace(id), PREFIX));
  }

  /** Walks back over the trailing digits. */
  method SplitTail(tail: string) returns (sourceID: string, version: string)
    ensures DividesInto(tail, sourceID, version)
  {
    var i := |tail| - 1;
    while i >= 0
      invariant -1 <= i < |tail|
      invariant forall k :: i < k < |tail| ==> IsDigit(tail[k])
    {
      if tail[i] < '0' || tail[i] > '9' {
        NoOtherSplit(tail, i);
        if tail[i] == 'v' && i > 0 && i < |tail| - 1 {
          assert tail == tail[..i] + tail[i..];
          return tail[..i], tail[i..];
        }
        return tail, "";
      }
      i := i - 1;
    }
    VersionHasV(tail);
    return tail, "";
  }

  /** Where the trailing digits end is where a version has to begin. */
  lemma NoOtherSplit(bare: string, i: nat)
    requires i < |bare| && !IsDigit(bare[i]) && forall k :: i < k < |bare| ==> IsDigit(bare[k])
    ensures HasVersion(bare) ==> bare[i] == 'v' && 0 < i < |bare| - 1
  {
    if HasVersion(bare) {
      var k :| 0 <= k <= |bare| && Splits(bare, bare[..k], bare[k..]);
      VersionStart(bare, bare[..k], bare[k..]);
    }
  }

  lemma VersionHasV(bare: string)
    ensures HasVersion(bare) ==> exists k :: 0 <= k < |bare| && bare[k] == 'v'
  {
    if HasVersion(bare) {
      var k :| 0 <= k <= |bare| && Splits(bare, bare[..k], bare[k..]);
      assert bare[k] == bare[k..][0];
    }
  }

  /** The artifact key of a paper: id and version joined. */
  function PDFArtifactKey(id: PaperID): string { id.sourceID + id.version }

  /** A paper id as the parser builds it. */
  ghost predicate Parsed(p: PaperID) { exists id :: IsSplitOf(id, p.sourceID, p.version) }

  /** Equal keys are equal papers: the key gives both parts back. */
  lemma KeysAreInjective(p: PaperID, q: PaperID)
    requires Parsed(p) && Parsed(q)
    ensures PDFArtifactKey(p) == PDFArtifactKey(q) <==> p.sourceID == q.sourceID && p.version == q.version
  {
    var a :| IsSplitOf(a, p.sourceID, p.version);
    var b :| IsSplitOf(b, q.sourceID, q.version);
    if PDFArtifactKey(p) == PDFArtifactKey(q) { SplitDecides(a, p.sourceID, p.version, b, q.sourceID, q.version); }
  }

  /** The split depends on the bare id alone. */
  lemma SplitDecides(a: string, s: string, v: string, b: string, t: string, w: string)
    requires IsSplitOf(a, s, v) && IsSplitOf(b, t, w) && Bare(a) == Bare(b)
    ensures s == t && v == w
  {
    SplitMeansVersion(Bare(a), s, v);
    SplitMeansVersion(Bare(b), t, w);
    if v != "" && w != "" { SplitIsUnique(s, v, t, w); }
    assert v == "" && w == "" ==> s + "" == s && t + "" == t;
  }

  lemma SplitMeansVersion(bare: string, s: string, v: string)
    requires s + v == bare
    ensures Splits(bare, s, v) ==> HasVersion(bare)
  {
    assert bare[..|s|] == s && bare[|s|..] == v;
  }

  lemma {:induction false} TrimIsIdentity(s: string)
    requires s != "" && !IsSpace(s[0]) && !IsSpace(s[|s| - 1])
    ensures TrimSpace(s) == s
  {
  }

  /** A bare id never ends in space, so putting the prefix back gives an id with the same bare part. */
  lemma BareAgain(id: string)
    ensures Bare(PREFIX + Bare(id)) == Bare(id)
  {
    var trimmed, bare := TrimSpace(id), Bare(id);
    var again := PREFIX + bare;
    assert bare != "" ==> bare[|bare| - 1] == trimmed[|trimmed| - 1];
    assert again[|again| - 1] == if bare == "" then PREFIX[|PREFIX| - 1] else bare[|bare| - 1];
    TrimIsIdentity(again);
    assert again[|PREFIX|..] == bare;
  }

  /** Round trip: the abs id rebuilt from a parsed paper's artifact key splits into that paper's parts again. */
  lemma KeyRoundTrip(id: string, p: PaperID, s: string, v: string)
    requires IsSplitOf(id, p.sourceID, p.version)
    ensures IsSplitOf(PREFIX + PDFArtifactKey(p), s, v) <==> s == p.sourceID && v == p.version
  {
    BareAgain(id);
    if IsSplitOf(PREFIX + PDFArtifactKey(p), s, v) {
      SplitDecides(PREFIX + PDFArtifactKey(p), s, v, id, p.sourceID, p.version);
    }
  }
}
