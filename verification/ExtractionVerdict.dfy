/** What the use case makes of one extractor run: the error taxonomy, normalization and the word gate. */
module ExtractionVerdict {
  import opened ExtractionTable
  import Text
  import Normalize
  import NormalizeOutputs
  import LineRules

  /** What the extractor returned: markdown, one of the documented errors, or any other error. */
  datatype Outcome =
    | Extracted(markdown: string)
    | ScannedPDFError(text: string)
    | ParseFailedError(text: string)
    | ExtractorFailureError(text: string)
    | UnknownError(text: string)

  datatype Verdict = Succeed(artifact: Artifact) | Fail(reason: Reason, message: Message)

  /** Reason, text, and whether the error was one of the documented ones. */
  function ClassifyExtractorError(o: Outcome): (Reason, string, bool)
    requires !o.Extracted?
  {
    match o
    case ScannedPDFError(text) => (ScannedPDF, text, true)
    case ParseFailedError(text) => (ParseFailed, text, true)
    case ExtractorFailureError(text) => (ExtractorFailure, text, true)
    case UnknownError(text) => (ExtractorFailure, text, false)
  }

  // ------------------------------------------------------ fallback title

  function DropSlashes(path: string): string {
    if path != "" && path[|path| - 1] == '/' then DropSlashes(path[..|path| - 1]) else path
  }

  /** The part after the last slash. */
  function LastElement(path: string): string {
    if path == "" || path[|path| - 1] == '/' then ""
    else LastElement(path[..|path| - 1]) + [path[|path| - 1]]
  }

  /** filepath.Base. */
  function Base(path: string): string {
    if path == "" then "." else if DropSlashes(path) == "" then "/" else LastElement(DropSlashes(path))
  }

  /** The suffix of one path element from its final dot, or nothing. */
  function ExtIn(element: string): string {
    if element == "" then ""
    else if element[|element| - 1] == '.' then "."
    else
      var shorter := ExtIn(element[..|element| - 1]);
      if shorter == "" then "" else shorter + [element[|element| - 1]]
  }

  /** filepath.Ext. */
  function Ext(path: string): string { ExtIn(LastElement(path)) }

  function TrimSuffix(s: string, suffix: string): string {
    if |suffix| <= |s| && s[|s| - |suffix|..] == suffix then s[..|s| - |suffix|] else s
  }

  function FallbackTitle(pdfPath: string): string { TrimSuffix(Base(pdfPath), Ext(pdfPath)) }

  predicate AllSlashes(s: string) { forall k :: 0 <= k < |s| ==> s[k] == '/' }

  lemma {:induction false} DropAllSlashes(path: string, slashes: string)
    requires AllSlashes(slashes) && (path != "" ==> path[|path| - 1] != '/')
    ensures DropSlashes(path + slashes) == path
    decreases |slashes|
  {
    if slashes == "" {
      assert path + slashes == path;
    } else {
      var last := |slashes| - 1;
      assert (path + slashes)[..|path| + last] == path + slashes[..last];
      DropAllSlashes(path, slashes[..last]);
    }
  }

  lemma {:induction false} LastOf(dir: string, name: string)
    requires '/' !in name && (dir != "" ==> dir[|dir| - 1] == '/')
    ensures LastElement(dir + name) == name
    decreases |name|
  {
    if name == "" {
      assert dir + name == dir;
    } else {
      var last := |name| - 1;
      assert (dir + name)[..|dir| + last] == dir + name[..last];
      LastOf(dir, name[..last]);
    }
  }

  /** The place of the final dot of an element, or its length when it has none. */
  predicate FinalDot(name: string, i: nat) {
    && i <= |name| && (i < |name| ==> name[i] == '.') && (i == |name| ==> '.' !in name)
    && forall k :: i < k < |name| ==> name[k] != '.'
  }

  /** The suffix from the last dot on. */
  lemma {:induction false} ExtAt(name: string, i: nat)
    requires FinalDot(name, i)
    ensures ExtIn(name) == name[i..]
    decreases |name|
  {
    var last := |name| - 1;
    if name != "" && name[last] != '.' {
      ExtAt(name[..last], if i < |name| then i else last);
      if i < |name| { assert name[i..] == name[..last][i..] + [name[last]]; }
    }
  }

  predicate IsElement(dir: string, name: string) {
    name != "" && '/' !in name && (dir != "" ==> dir[|dir| - 1] == '/')
  }

  lemma BaseOf(dir: string, name: string, slashes: string)
    requires IsElement(dir, name) && AllSlashes(slashes)
    ensures Base(dir + name + slashes) == name
  {
    assert (dir + name)[|dir + name| - 1] == name[|name| - 1];
    DropAllSlashes(dir + name, slashes);
    LastOf(dir, name);
  }

  lemma ExtOf(dir: string, name: string, slashes: string, i: nat)
    requires IsElement(dir, name) && AllSlashes(slashes) && FinalDot(name, i)
    ensures Ext(dir + name + slashes) == if slashes == "" then name[i..] else ""
  {
    var path := dir + name + slashes;
    if slashes == "" {
      assert path == dir + name;
      LastOf(dir, name);
      ExtAt(name, i);
    } else {
      LastOf(path, "");
      assert path + "" == path && path[|path| - 1] == slashes[|slashes| - 1];
    }
  }

  lemma SuffixOff(name: string, i: nat)
    requires i <= |name|
    ensures TrimSuffix(name, name[i..]) == name[..i] && TrimSuffix(name, "") == name
  {
  }

  /**
   The fallback title is the last path element without its final extension; trailing slashes keep the
   extension in.
   */
  lemma FallbackIsStem(dir: string, name: string, slashes: string, i: nat)
    requires IsElement(dir, name) && AllSlashes(slashes) && FinalDot(name, i)
    ensures FallbackTitle(dir + name + slashes) == if slashes == "" then name[..i] else name
  {
    BaseOf(dir, name, slashes);
    ExtOf(dir, name, slashes, i);
    SuffixOff(name, i);
  }

  /** The two paths without an element. */
  lemma FallbackOfNothing(slashes: string)
    requires AllSlashes(slashes)
    ensures FallbackTitle(slashes) == if slashes == "" then "." else "/"
  {
    if slashes != "" {
      assert "" + slashes == slashes;
      DropAllSlashes("", slashes);
      LastOf(slashes, "");
      assert slashes + "" == slashes;
    }
  }

  // ------------------------------------------------------------- verdict

  function ArtifactOf(p: Payload, markdown: string): Artifact {
    var n := Normalize.Normalized(markdown, FallbackTitle(p.pdfPath));
    Artifact(n.title, n.body, p.sourceType, n.wordCount)
  }

  function VerdictOf(p: Payload, o: Outcome, maxWords: nat): (v: Verdict)
    ensures v.Fail? ==> v.reason != NoReason && v.reason != Expired && v.reason != ProcessRestart
  {
    if o.Extracted? then
      var artifact := ArtifactOf(p, o.markdown);
      if artifact.wordCount > maxWords then Fail(TooLarge, WordsOverThreshold(artifact.wordCount, maxWords))
      else Succeed(artifact)
    else
      var (reason, text, _) := ClassifyExtractorError(o);
      Fail(reason, ErrorText(text))
  }

  /** The title of a body: the trimmed rest of its first title line, or the path's fallback. */
  ghost predicate Titled(body: string, path: string, title: string) {
    exists k: nat :: Normalize.FirstTitle(Text.Lines(body), k) &&
      title == if k < |Text.Lines(body)| then Text.TrimSpace(Text.Lines(body)[k][2..]) else FallbackTitle(path)
  }

  /** What has to come of a run: each error keeps its kind and text, and a body within the threshold is the artifact. */
  ghost predicate Judged(p: Payload, o: Outcome, maxWords: nat, v: Verdict) {
    match o
    case ScannedPDFError(text) => v == Fail(ScannedPDF, ErrorText(text))
    case ParseFailedError(text) => v == Fail(ParseFailed, ErrorText(text))
    case ExtractorFailureError(text) => v == Fail(ExtractorFailure, ErrorText(text))
    case UnknownError(text) => v == Fail(ExtractorFailure, ErrorText(text))
    case Extracted(markdown) => Gated(p, Normalize.Body(markdown), maxWords, v)
  }

  ghost predicate Gated(p: Payload, body: string, maxWords: nat, v: Verdict) {
    var words := Text.WordCount(body);
    if words > maxWords then v == Fail(TooLarge, WordsOverThreshold(words, maxWords))
    else
      && v.Succeed? && v.artifact.body == body && v.artifact.wordCount == words
      && v.artifact.contentType == p.sourceType && Titled(body, p.pdfPath, v.artifact.title)
  }

  lemma VerdictIsJudged(p: Payload, o: Outcome, maxWords: nat)
    ensures Judged(p, o, maxWords, VerdictOf(p, o, maxWords))
  {
    if o.Extracted? {
      var body := Normalize.Body(o.markdown);
      var k := Normalize.TitleLine(Text.Lines(body));
      Normalize.TitleIsFirst(Text.Lines(body), FallbackTitle(p.pdfPath), k);
    }
  }

  /** The word gate passes only what fits, and never stops a document whose raw text already fits. */
  lemma WordGate(p: Payload, o: Outcome, maxWords: nat)
    ensures var v := VerdictOf(p, o, maxWords);
            && (v.Succeed? ==> o.Extracted? && v.artifact.wordCount <= maxWords &&
                               v.artifact.wordCount == Text.WordCount(v.artifact.body) ==
                                   Text.WordCount(Normalize.Body(o.markdown)))
            && (v.Fail? && v.reason == TooLarge ==> o.Extracted? && Text.WordCount(o.markdown) > maxWords)
            && (o.Extracted? && Text.WordCount(o.markdown) <= maxWords ==> v.Succeed?)
  {
    if o.Extracted? {
      NormalizeOutputs.WordsNeverGrow(LineRules.MARKDOWN, o.markdown);
    }
  }
}
