/** The line patterns of the normalization, as the program's regular expressions accept them. */
module LineRules {
  import opened Text

  /** The tests the stages put to a raw line. */
  datatype Rules = Rules(heading: string -> bool, bar: string -> bool, separator: string -> bool,
      dropped: string -> bool)

  /** The regular expressions' white space. */
  predicate IsReSpace(c: char) { c == '\t' || c == '\n' || c == '\U{0C}' || c == '\r' || c == ' ' }

  function SkipReSpace(s: string): string {
    if s != "" && IsReSpace(s[0]) then SkipReSpace(s[1..]) else s
  }

  function DropReSpace(s: string): string {
    if s != "" && IsReSpace(s[|s| - 1]) then DropReSpace(s[..|s| - 1]) else s
  }

  function ReTrim(s: string): string { DropReSpace(SkipReSpace(s)) }

  /** Case folding restricted to what can fold onto the headings' letters. */
  function Fold(s: string): string {
    if s == "" then ""
    else [if 'A' <= s[0] <= 'Z' then s[0] - 'A' + 'a'
          else if s[0] == '\U{17F}' then 's'
          else if s[0] == '\U{212A}' then 'k' else s[0]]
         + Fold(s[1..])
  }

  function Hashes(s: string): (n: nat)
    ensures n <= |s|
  {
    if s != "" && s[0] == '#' then 1 + Hashes(s[1..]) else 0
  }

  /** On a trimmed line: one to six hashes, white space, and exactly one of three headings. */
  predicate IsReferencesHeading(t: string) {
    var n := Hashes(t);
    && 1 <= n <= 6 && n < |t| && IsReSpace(t[n])
    && Fold(SkipReSpace(t[n..])) in ["references", "bibliography", "works cited"]
  }

  function Dashes(s: string): (n: nat)
    ensures n <= |s|
  {
    if s != "" && s[0] == '-' then 1 + Dashes(s[1..]) else 0
  }

  /** Three or more dashes between optional colons. */
  predicate IsDashCell(cell: string) {
    var s := if HasPrefix(cell, ":") then cell[1..] else cell;
    Dashes(s) >= 3 && s[Dashes(s)..] in ["", ":"]
  }

  /** What is left without a bar at either end. */
  function Inside(t: string): string {
    var s := if HasPrefix(t, "|") then t[1..] else t;
    if s != "" && s[|s| - 1] == '|' then s[..|s| - 1] else s
  }

  /** Two or more dash cells separated by bars, with optional bars at the ends. */
  predicate IsTableSeparator(line: string) {
    var cells := Split(Inside(ReTrim(line)), '|');
    |cells| >= 2 && forall k :: 0 <= k < |cells| ==> IsDashCell(ReTrim(cells[k]))
  }

  /** On a trimmed line: an image and nothing else. */
  predicate IsImageLine(t: string) {
    |t| >= 5 && HasPrefix(t, "![") && t[|t| - 1] == ')' && 0 <= Index(t, "](", 2) < |t| - 2
  }

  predicate IsCaption(t: string) { HasPrefix(t, "Figure ") || HasPrefix(t, "Fig. ") }

  predicate IsHeadingLine(line: string) { IsReferencesHeading(TrimSpace(line)) }

  predicate IsBarLine(line: string) { HasPrefix(TrimSpace(line), "|") }

  predicate IsDroppedLine(line: string) { IsImageLine(TrimSpace(line)) || IsCaption(TrimSpace(line)) }

  const MARKDOWN := Rules(IsHeadingLine, IsBarLine, IsTableSeparator, IsDroppedLine)

  /** No test but the separator's accepts an empty line, and neither does that one. */
  lemma EmptyLineIsPlain()
    ensures !MARKDOWN.heading("") && !MARKDOWN.bar("") && !MARKDOWN.separator("") && !MARKDOWN.dropped("")
  {
  }
}
