/**
 The normalization of extracted markdown: math delimiters, references tail, block stripping, blank
 runs, trailing newlines, title and word count. The stages are functions of the text; those the
 program runs as loops are methods proved equal to them.
 */
module Normalize {
  import opened Text
  import opened LineRules

  datatype NormalizedArtifact = NormalizedArtifact(title: string, body: string, wordCount: nat)

  // ------------------------------------------------------ math delimiters

  /**
   Every leftmost `open` with a `close` at least one character later, up to the nearest such `close`,
   has both delimiters replaced by `mark`; the scan goes on after the close.
   */
  function RewriteMath(s: string, open: string, close: string, mark: string): string
    requires |open| == |close| == 2
    decreases |s|
  {
    var i := Index(s, open, 0);
    if i < 0 then s
    else
      var j := Index(s, close, i + 3);
      if j < 0 then s
      else s[..i] + mark + s[i + 2..j] + mark + RewriteMath(s[j + 2..], open, close, mark)
  }

  const DISPLAY_OPEN := "\\["
  const DISPLAY_CLOSE := "\\]"
  const INLINE_OPEN := "\\("
  const INLINE_CLOSE := "\\)"

  function RewriteDisplay(s: string): string { RewriteMath(s, DISPLAY_OPEN, DISPLAY_CLOSE, "$$") }

  function RewriteInline(s: string): string { RewriteMath(s, INLINE_OPEN, INLINE_CLOSE, "$") }

  predicate IsTableStart(rules: Rules, lines: seq<string>) {
    |lines| >= 2 && rules.bar(lines[0]) && rules.separator(lines[1])
  }

  // --------------------------------------------------------------- stages

  function BeforeReferences(rules: Rules, lines: seq<string>): seq<string> {
    if lines == [] || rules.heading(lines[0]) then [] else [lines[0]] + BeforeReferences(rules, lines[1..])
  }

  function TruncateAtReferences(rules: Rules, s: string): string { Join(BeforeReferences(rules, Lines(s))) }

  function AfterBars(rules: Rules, lines: seq<string>): (rest: seq<string>)
    ensures |rest| <= |lines| && rest == lines[|lines| - |rest|..]
  {
    if lines != [] && rules.bar(lines[0]) then AfterBars(rules, lines[1..]) else lines
  }

  function Stripped(rules: Rules, lines: seq<string>): seq<string>
    decreases |lines|
  {
    if lines == [] then []
    else if IsTableStart(rules, lines) then Stripped(rules, AfterBars(rules, lines[2..]))
    else if rules.dropped(lines[0]) then Stripped(rules, lines[1..])
    else [lines[0]] + Stripped(rules, lines[1..])
  }

  function StripBlocks(rules: Rules, s: string): string { Join(Stripped(rules, Lines(s))) }

  /** Runs of three or more newlines become two; `run` newlines were just emitted. */
  function CollapseFrom(s: string, run: nat): string
    decreases |s|
  {
    if s == "" then ""
    else if s[0] != '\n' then [s[0]] + CollapseFrom(s[1..], 0)
    else if run < 2 then "\n" + CollapseFrom(s[1..], run + 1)
    else CollapseFrom(s[1..], run)
  }

  function CollapseBlankRuns(s: string): string { CollapseFrom(s, 0) }

  function TrimNewlines(s: string): (r: string)
    ensures |r| <= |s| && r == s[..|r|]
    ensures r != "" ==> r[|r| - 1] != '\n'
  {
    if s != "" && s[|s| - 1] == '\n' then TrimNewlines(s[..|s| - 1]) else s
  }

  function BodyBy(rules: Rules, markdown: string): string {
    var rewritten := RewriteInline(RewriteDisplay(markdown));
    TrimNewlines(CollapseBlankRuns(StripBlocks(rules, TruncateAtReferences(rules, rewritten))))
  }

  function Body(markdown: string): string { BodyBy(MARKDOWN, markdown) }

  function TitleIn(lines: seq<string>, fallbackTitle: string): string {
    if lines == [] then fallbackTitle
    else if HasPrefix(lines[0], "# ") then TrimSpace(lines[0][2..])
    else TitleIn(lines[1..], fallbackTitle)
  }

  function Normalized(markdown: string, fallbackTitle: string): NormalizedArtifact {
    var body := Body(markdown);
    NormalizedArtifact(TitleIn(Lines(body), fallbackTitle), body, WordCount(body))
  }

  // ---------------------------------------------------------------- loops

  method TruncateAtReferencesLoop(rules: Rules, s: string) returns (r: string)
    ensures r == TruncateAtReferences(rules, s)
  {
    var lines := Lines(s);
    for i := 0 to |lines|
      invariant BeforeReferences(rules, lines) == lines[..i] + BeforeReferences(rules, lines[i..])
    {
      if rules.heading(lines[i]) {
        assert BeforeReferences(rules, lines) == lines[..i];
        return Join(lines[..i]);
      }
      assert lines[..i + 1] == lines[..i] + [lines[i]] && lines[i..][1..] == lines[i + 1..];
    }
    assert BeforeReferences(rules, lines) == lines;
    JoinLines(s);
    r := s;
  }

  /** One turn of the scanner at line `i`. */
  lemma StrippedAt(rules: Rules, lines: seq<string>, i: nat)
    requires i < |lines|
    ensures Stripped(rules, lines[i..]) ==
            if i + 1 < |lines| && rules.bar(lines[i]) && rules.separator(lines[i + 1]) then
              Stripped(rules, AfterBars(rules, lines[i + 2..]))
            else if rules.dropped(lines[i]) then Stripped(rules, lines[i + 1..])
            else [lines[i]] + Stripped(rules, lines[i + 1..])
  {
    var rest := lines[i..];
    assert rest[0] == lines[i] && rest[1..] == lines[i + 1..];
    if i + 1 < |lines| {
      assert rest[1] == lines[i + 1] && rest[2..] == lines[i + 2..];
    }
  }

  /** The first line from `from` on that is not a bar line. */
  method SkipBars(rules: Rules, lines: seq<string>, from: nat) returns (j: nat)
    requires from <= |lines|
    ensures from <= j <= |lines| && AfterBars(rules, lines[from..]) == lines[j..]
    ensures forall k :: from <= k < j ==> rules.bar(lines[k])
    ensures j < |lines| ==> !rules.bar(lines[j])
  {
    j := from;
    while j < |lines| && rules.bar(lines[j])
      invariant from <= j <= |lines| && AfterBars(rules, lines[from..]) == AfterBars(rules, lines[j..])
      invariant forall k :: from <= k < j ==> rules.bar(lines[k])
    {
      assert lines[j..][1..] == lines[j + 1..];
      j := j + 1;
    }
  }

  /** The scanner: a table header skips ahead past its whole run of bar lines. */
  method StripBlocksLoop(rules: Rules, s: string) returns (r: string)
    ensures r == StripBlocks(rules, s)
  {
    var lines, out, i := Lines(s), [], 0;
    assert lines[0..] == lines;
    while i < |lines|
      invariant 0 <= i <= |lines| && Stripped(rules, lines) == out + Stripped(rules, lines[i..])
    {
      StrippedAt(rules, lines, i);
      if rules.bar(lines[i]) && i + 1 < |lines| && rules.separator(lines[i + 1]) {
        i := SkipBars(rules, lines, i + 2);
      } else {
        if !rules.dropped(lines[i]) {
          out := out + [lines[i]];
        }
        i := i + 1;
      }
    }
    assert Stripped(rules, lines) == out;
    r := Join(out);
  }

  predicate IsTitleLine(line: string) { HasPrefix(line, "# ") }

  /** `k` is the first title line, or one past the last line when there is none. */
  predicate FirstTitle(lines: seq<string>, k: nat) {
    k <= |lines| && (k < |lines| ==> IsTitleLine(lines[k])) && forall j :: 0 <= j < k ==> !IsTitleLine(lines[j])
  }

  lemma {:induction false} TitleLine(lines: seq<string>) returns (k: nat)
    ensures FirstTitle(lines, k)
  {
    if lines == [] || IsTitleLine(lines[0]) {
      k := 0;
    } else {
      k := TitleLine(lines[1..]);
      k := k + 1;
      assert forall j :: 1 <= j < |lines| ==> lines[j] == lines[1..][j - 1];
    }
  }

  /** The title is the trimmed rest of the first title line, the fallback when there is none. */
  lemma {:induction false} TitleIsFirst(lines: seq<string>, fallbackTitle: string, k: nat)
    requires FirstTitle(lines, k)
    ensures TitleIn(lines, fallbackTitle) == if k < |lines| then TrimSpace(lines[k][2..]) else fallbackTitle
    decreases k
  {
    if k > 0 {
      assert forall j :: 0 <= j < k - 1 ==> lines[1..][j] == lines[j + 1];
      assert !IsTitleLine(lines[0]);
      TitleIsFirst(lines[1..], fallbackTitle, k - 1);
    }
  }

  method SelectTitle(body: string, fallbackTitle: string) returns (title: string)
    ensures title == TitleIn(Lines(body), fallbackTitle)
    ensures exists k: nat :: FirstTitle(Lines(body), k) &&
              title == if k < |Lines(body)| then TrimSpace(Lines(body)[k][2..]) else fallbackTitle
  {
    var lines := Lines(body);
    for i := 0 to |lines|
      invariant TitleIn(lines, fallbackTitle) == TitleIn(lines[i..], fallbackTitle)
      invariant forall j :: 0 <= j < i ==> !IsTitleLine(lines[j])
    {
      if HasPrefix(lines[i], "# ") {
        assert FirstTitle(lines, i);
        return TrimSpace(lines[i][2..]);
      }
      assert lines[i..][1..] == lines[i + 1..];
    }
    assert FirstTitle(lines, |lines|);
    title := fallbackTitle;
  }

  method Normalize(markdown: string, fallbackTitle: string) returns (a: NormalizedArtifact)
    ensures a == Normalized(markdown, fallbackTitle)
    ensures a.body == Body(markdown) && a.wordCount == WordCount(a.body)
    ensures exists k: nat :: FirstTitle(Lines(a.body), k) &&
              a.title == if k < |Lines(a.body)| then TrimSpace(Lines(a.body)[k][2..]) else fallbackTitle
  {
    var body := RewriteInline(RewriteDisplay(markdown));
    body := TruncateAtReferencesLoop(MARKDOWN, body);
    body := StripBlocksLoop(MARKDOWN, body);
    body := TrimNewlines(CollapseBlankRuns(body));
    var title := SelectTitle(body, fallbackTitle);
    a := NormalizedArtifact(title, body, WordCount(body));
  }
}
