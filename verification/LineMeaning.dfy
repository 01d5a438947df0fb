/** The line patterns and the word count, as concatenations and positions rather than as scans. */
module LineMeaning {
  import opened Text
  import opened LineRules

  predicate AllReSpace(s: string) { forall k :: 0 <= k < |s| ==> IsReSpace(s[k]) }

  predicate AllAre(s: string, c: char) { forall k :: 0 <= k < |s| ==> s[k] == c }

  /** Folding works character by character, on what can fold onto the headings' letters. */
  lemma {:induction false} FoldMeaning(s: string, k: nat)
    requires k < |s|
    ensures |Fold(s)| == |s|
    ensures Fold(s)[k] ==
            if 'A' <= s[k] <= 'Z' then s[k] - 'A' + 'a'
            else if s[k] == '\U{17F}' then 's' else if s[k] == '\U{212A}' then 'k' else s[k]
    decreases |s|
  {
    if k > 0 {
      FoldMeaning(s[1..], k - 1);
    } else if |s| > 1 {
      FoldMeaning(s[1..], 0);
    }
  }

  // -------------------------------------------------------------- headings

  lemma {:induction false} HashesMeaning(s: string)
    ensures AllAre(s[..Hashes(s)], '#') && (Hashes(s) < |s| ==> s[Hashes(s)] != '#')
  {
    if s != "" && s[0] == '#' {
      HashesMeaning(s[1..]);
      var n := Hashes(s);
      assert forall k :: 1 <= k < n ==> s[..n][k] == s[1..][..n - 1][k - 1];
    }
  }

  lemma {:induction false} SkipMeaning(s: string)
    ensures var r := SkipReSpace(s);
            |r| <= |s| && r == s[|s| - |r|..] && AllReSpace(s[..|s| - |r|]) && (r != "" ==> !IsReSpace(r[0]))
  {
    if s != "" && IsReSpace(s[0]) {
      SkipMeaning(s[1..]);
      var n := |s| - |SkipReSpace(s)|;
      assert forall k :: 1 <= k < n ==> s[..n][k] == s[1..][..n - 1][k - 1];
    }
  }

  lemma {:induction false} HashesOf(hashes: string, rest: string)
    requires AllAre(hashes, '#') && (rest != "" ==> rest[0] != '#')
    ensures Hashes(hashes + rest) == |hashes|
  {
    if hashes == "" {
      assert hashes + rest == rest;
    } else {
      assert (hashes + rest)[1..] == hashes[1..] + rest;
      HashesOf(hashes[1..], rest);
    }
  }

  lemma {:induction false} SkipOf(space: string, rest: string)
    requires AllReSpace(space) && (rest != "" ==> !IsReSpace(rest[0]))
    ensures SkipReSpace(space + rest) == rest
  {
    if space == "" {
      assert space + rest == rest;
    } else {
      assert (space + rest)[1..] == space[1..] + rest;
      SkipOf(space[1..], rest);
    }
  }

  /** The heading pattern: one to six hashes, white space, one of the three words in any case. */
  ghost predicate MatchesHeading(t: string, hashes: string, space: string, word: string) {
    && t == hashes + space + word && 1 <= |hashes| <= 6 && AllAre(hashes, '#') && space != "" && AllReSpace(space)
    && (Fold(word) == "references" || Fold(word) == "bibliography" || Fold(word) == "works cited")
  }

  lemma HeadingAccepted(t: string) returns (hashes: string, space: string, word: string)
    ensures IsReferencesHeading(t) ==> MatchesHeading(t, hashes, space, word)
  {
    var n := Hashes(t);
    hashes, space, word := t[..n], "", "";
    HashesMeaning(t);
    if IsReferencesHeading(t) {
      space, word := SpaceThenWord(t[n..]);
      assert t == hashes + t[n..];
      assert hashes + (space + word) == hashes + space + word;
    }
  }

  lemma SpaceThenWord(rest: string) returns (space: string, word: string)
    requires rest != "" && IsReSpace(rest[0])
    ensures rest == space + word && word == SkipReSpace(rest) && space != "" && AllReSpace(space)
  {
    word := SkipReSpace(rest);
    SkipMeaning(rest);
    space := rest[..|rest| - |word|];
  }

  lemma FoldedWord(word: string)
    requires Fold(word) == "references" || Fold(word) == "bibliography" || Fold(word) == "works cited"
    ensures word != "" && !IsReSpace(word[0])
  {
    assert |Fold(word)| > 0;
    assert Fold(word)[0] in ['r', 'b', 'w'];
  }

  lemma HeadingMatched(t: string, hashes: string, space: string, word: string)
    requires MatchesHeading(t, hashes, space, word)
    ensures IsReferencesHeading(t)
  {
    FoldedWord(word);
    assert t == hashes + (space + word) && (space + word)[0] == space[0];
    HashesOf(hashes, space + word);
    assert t[|hashes|..] == space + word;
    SkipOf(space, word);
  }

  // ----------------------------------------------------------------- images

  /** The image pattern: alternative text in brackets, an address in parentheses, nothing else. */
  ghost predicate MatchesImage(t: string, alt: string, url: string) { t == "![" + alt + "](" + url + ")" }

  lemma ImageAccepted(t: string) returns (alt: string, url: string)
    ensures IsImageLine(t) ==> MatchesImage(t, alt, url)
  {
    alt, url := "", "";
    if IsImageLine(t) {
      var i := Index(t, "](", 2);
      alt, url := t[2..i], t[i + 2..|t| - 1];
      assert t[i..][..2] == "](" && t[i..i + 2] == "](";
      assert t[..2] == "![" && t[|t| - 1..] == ")";
      assert t == t[..2] + t[2..i] + t[i..i + 2] + t[i + 2..|t| - 1] + t[|t| - 1..];
    }
  }

  lemma ImageMatched(t: string, alt: string, url: string)
    requires MatchesImage(t, alt, url)
    ensures IsImageLine(t)
  {
    var k := 2 + |alt|;
    assert t[k..] == "](" + url + ")";
    assert "](" <= t[k..];
    assert t[..2] == "![";
  }

  // ------------------------------------------------------------- separators

  predicate Optional(s: string, c: char) { s == "" || s == [c] }

  /** A cell of a separator: three or more dashes between optional colons. */
  ghost predicate MatchesDashes(cell: string) {
    exists c1, dashes, c2 :: MatchesCell(cell, c1, dashes, c2)
  }

  predicate MatchesCell(cell: string, c1: string, dashes: string, c2: string) {
    && cell == c1 + dashes + c2 && Optional(c1, ':') && Optional(c2, ':')
    && |dashes| >= 3 && AllAre(dashes, '-')
  }

  lemma {:induction false} DashesOf(dashes: string, rest: string)
    requires AllAre(dashes, '-') && (rest != "" ==> rest[0] != '-')
    ensures Dashes(dashes + rest) == |dashes|
  {
    if dashes == "" {
      assert dashes + rest == rest;
    } else {
      assert (dashes + rest)[1..] == dashes[1..] + rest;
      DashesOf(dashes[1..], rest);
    }
  }

  lemma {:induction false} DashesMeaning(s: string)
    ensures AllAre(s[..Dashes(s)], '-')
  {
    if s != "" && s[0] == '-' {
      DashesMeaning(s[1..]);
      var n := Dashes(s);
      assert forall k :: 1 <= k < n ==> s[..n][k] == s[1..][..n - 1][k - 1];
    }
  }

  lemma CellMatched(cell: string, c1: string, dashes: string, c2: string)
    requires MatchesCell(cell, c1, dashes, c2)
    ensures IsDashCell(cell)
  {
    var s := dashes + c2;
    assert cell == c1 + s;
    DashesOf(dashes, c2);
    assert s[|dashes|..] == c2;
    if c1 == "" {
      assert cell == s && s[0] == dashes[0];
    } else {
      assert cell[1..] == s && cell[0] == ':';
    }
  }

  lemma CellMeaning(cell: string)
    ensures IsDashCell(cell) <==> MatchesDashes(cell)
  {
    if IsDashCell(cell) {
      var c1 := if HasPrefix(cell, ":") then ":" else "";
      var s := if HasPrefix(cell, ":") then cell[1..] else cell;
      DashesMeaning(s);
      assert s == s[..Dashes(s)] + s[Dashes(s)..];
      assert cell == c1 + s;
      assert MatchesCell(cell, c1, s[..Dashes(s)], s[Dashes(s)..]);
    }
    if MatchesDashes(cell) {
      var c1, dashes, c2 :| MatchesCell(cell, c1, dashes, c2);
      CellMatched(cell, c1, dashes, c2);
    }
  }

  /** Cells with bars between them. */
  function JoinBars(cells: seq<string>): string
    requires cells != []
  {
    if |cells| == 1 then cells[0] else cells[0] + "|" + JoinBars(cells[1..])
  }

  lemma {:induction false} JoinOfSplit(s: string)
    ensures JoinBars(Split(s, '|')) == s
  {
    if s != "" {
      var rest := Split(s[1..], '|');
      JoinOfSplit(s[1..]);
      assert s == [s[0]] + s[1..];
      if s[0] == '|' {
        assert ([""] + rest)[1..] == rest;
      } else {
        assert ([[s[0]] + rest[0]] + rest[1..])[1..] == rest[1..];
      }
    }
  }

  lemma {:induction false} SplitCell(cell: string, rest: string)
    requires '|' !in cell
    ensures Split(cell + "|" + rest, '|') == [cell] + Split(rest, '|')
    decreases |cell|
  {
    var s := cell + "|" + rest;
    if cell == "" {
      assert s[1..] == rest;
    } else {
      assert s[1..] == cell[1..] + "|" + rest;
      SplitCell(cell[1..], rest);
      assert cell == [cell[0]] + cell[1..];
    }
  }

  lemma {:induction false} SplitLast(cell: string)
    requires '|' !in cell
    ensures Split(cell, '|') == [cell]
  {
    if cell != "" {
      SplitLast(cell[1..]);
      assert cell == [cell[0]] + cell[1..];
    }
  }

  lemma {:induction false} SplitOfJoin(cells: seq<string>)
    requires cells != [] && forall k :: 0 <= k < |cells| ==> '|' !in cells[k]
    ensures Split(JoinBars(cells), '|') == cells
  {
    if |cells| == 1 {
      SplitLast(cells[0]);
    } else {
      SplitOfJoin(cells[1..]);
      SplitCell(cells[0], JoinBars(cells[1..]));
    }
  }

  /** A cell with its padding. */
  ghost predicate Padded(cell: string) {
    exists left, core, right :: IsPadded(cell, left, core, right)
  }

  ghost predicate IsPadded(cell: string, left: string, core: string, right: string) {
    cell == left + core + right && AllReSpace(left) && AllReSpace(right) && MatchesDashes(core)
  }

  lemma {:induction false} DropMeaning(s: string)
    ensures var r := DropReSpace(s);
            |r| <= |s| && r == s[..|r|] && AllReSpace(s[|r|..]) && (r != "" ==> !IsReSpace(r[|r| - 1]))
  {
    if s != "" && IsReSpace(s[|s| - 1]) {
      var t := s[..|s| - 1];
      DropMeaning(t);
      assert s[|DropReSpace(s)|..] == t[|DropReSpace(t)|..] + [s[|s| - 1]];
    }
  }

  /** Trimming white space of the patterns: it comes off both ends, and nothing else does. */
  lemma ReTrimMeaning(s: string) returns (left: string, t: string, right: string)
    ensures t == ReTrim(s) && s == left + t + right && AllReSpace(left) && AllReSpace(right)
    ensures t != "" ==> !IsReSpace(t[0]) && !IsReSpace(t[|t| - 1])
  {
    var l := SkipReSpace(s);
    t := DropReSpace(l);
    SkipMeaning(s);
    DropMeaning(l);
    left, right := s[..|s| - |l|], l[|t|..];
    ThreeParts(s, l, left, t, right);
  }

  lemma {:induction false} DropOf(rest: string, space: string)
    requires AllReSpace(space) && (rest != "" ==> !IsReSpace(rest[|rest| - 1]))
    ensures DropReSpace(rest + space) == rest
    decreases |space|
  {
    if space == "" {
      assert rest + space == rest;
    } else {
      var last := |space| - 1;
      assert (rest + space)[..|rest| + last] == rest + space[..last];
      DropOf(rest, space[..last]);
    }
  }

  lemma ReTrimOf(left: string, t: string, right: string)
    requires AllReSpace(left) && AllReSpace(right) && t != "" && !IsReSpace(t[0]) && !IsReSpace(t[|t| - 1])
    ensures ReTrim(left + t + right) == t
  {
    assert left + t + right == left + (t + right) && (t + right)[0] == t[0];
    SkipOf(left, t + right);
    DropOf(t, right);
  }

  lemma DashesPlain(core: string)
    requires MatchesDashes(core)
    ensures core != "" && '|' !in core && !IsReSpace(core[0]) && !IsReSpace(core[|core| - 1])
    ensures core[0] != '|' && core[|core| - 1] != '|'
  {
    var c1, dashes, c2 :| MatchesCell(core, c1, dashes, c2);
    forall k | 0 <= k < |core| ensures core[k] == ':' || core[k] == '-' {
      assert core[k] in c1 || core[k] in dashes || core[k] in c2;
    }
  }

  lemma PaddedMeaning(cell: string)
    ensures IsDashCell(ReTrim(cell)) <==> Padded(cell)
    ensures Padded(cell) ==> '|' !in cell
  {
    if IsDashCell(ReTrim(cell)) {
      var left, core, right := ReTrimMeaning(cell);
      CellMeaning(core);
      assert IsPadded(cell, left, core, right);
    }
    if Padded(cell) {
      var left, core, right :| IsPadded(cell, left, core, right);
      DashesPlain(core);
      ReTrimOf(left, core, right);
      CellMeaning(core);
    }
  }

  /**
   The separator pattern: two or more padded dash cells with bars between them, an optional bar before
   and after, white space around. White space that no bar sets off from a cell belongs to the outside.
   */
  ghost predicate MatchesSeparator(line: string, left: string, lead: string, cells: seq<string>, trail: string,
                                   right: string) {
    && |cells| >= 2 && (forall k :: 0 <= k < |cells| ==> Padded(cells[k]))
    && line == left + (lead + JoinBars(cells) + trail) + right
    && Optional(lead, '|') && Optional(trail, '|') && AllReSpace(left) && AllReSpace(right)
    && (lead == "" ==> !IsReSpace(cells[0][0])) && (trail == "" ==> EndsPlain(cells[|cells| - 1]))
  }

  predicate EndsPlain(s: string) { s != "" && !IsReSpace(s[|s| - 1]) }

  lemma {:induction false} JoinEnds(cells: seq<string>)
    requires cells != [] && forall k :: 0 <= k < |cells| ==> cells[k] != ""
    ensures var s := JoinBars(cells);
            s != "" && s[0] == cells[0][0] && s[|s| - 1] == cells[|cells| - 1][|cells[|cells| - 1]| - 1]
  {
    if |cells| > 1 { JoinEnds(cells[1..]); }
  }

  lemma PaddedCells(cells: seq<string>)
    requires forall k :: 0 <= k < |cells| ==> Padded(cells[k])
    ensures forall k :: 0 <= k < |cells| ==> cells[k] != "" && '|' !in cells[k] && IsDashCell(ReTrim(cells[k]))
  {
    forall k | 0 <= k < |cells| ensures cells[k] != "" && '|' !in cells[k] && IsDashCell(ReTrim(cells[k])) {
      PaddedMeaning(cells[k]);
      var left, core, right :| IsPadded(cells[k], left, core, right);
      DashesPlain(core);
    }
  }

  lemma CellsPadded(cells: seq<string>)
    requires forall k :: 0 <= k < |cells| ==> IsDashCell(ReTrim(cells[k]))
    ensures forall k :: 0 <= k < |cells| ==> Padded(cells[k])
  {
    forall k | 0 <= k < |cells| ensures Padded(cells[k]) { PaddedMeaning(cells[k]); }
  }

  lemma InsideParts(t: string) returns (lead: string, trail: string)
    ensures t == lead + Inside(t) + trail && Optional(lead, '|') && Optional(trail, '|')
  {
    lead := if HasPrefix(t, "|") then "|" else "";
    var s := if HasPrefix(t, "|") then t[1..] else t;
    trail := if s != "" && s[|s| - 1] == '|' then "|" else "";
    assert t == lead + s && s == Inside(t) + trail;
  }

  lemma InsideOf(lead: string, body: string, trail: string)
    requires Optional(lead, '|') && Optional(trail, '|') && body != "" && body[0] != '|' && body[|body| - 1] != '|'
    ensures Inside(lead + body + trail) == body
  {
    var t := lead + body + trail;
    assert t[|lead|..] == body + trail;
    assert lead == "" ==> t[0] == body[0];
    assert (body + trail)[..|body|] == body;
  }

  lemma SeparatorAccepted(line: string)
    returns (left: string, lead: string, cells: seq<string>, trail: string, right: string)
    ensures IsTableSeparator(line) ==> MatchesSeparator(line, left, lead, cells, trail, right)
  {
    var t;
    left, t, right := ReTrimMeaning(line);
    lead, trail := InsideParts(t);
    cells := Split(Inside(t), '|');
    if IsTableSeparator(line) {
      JoinOfSplit(Inside(t));
      CellsPadded(cells);
      PaddedCells(cells);
      JoinEnds(cells);
      EndsOf(t, lead, Inside(t), trail);
      Assembled(line, left, t, lead, cells, trail, right);
    }
  }

  lemma Assembled(line: string, left: string, t: string, lead: string, cells: seq<string>, trail: string, right: string)
    requires |cells| >= 2 && forall k :: 0 <= k < |cells| ==> Padded(cells[k]) && cells[k] != ""
    requires line == left + t + right && t == lead + JoinBars(cells) + trail
    requires Optional(lead, '|') && Optional(trail, '|') && AllReSpace(left) && AllReSpace(right)
    requires t != "" && !IsReSpace(t[0]) && !IsReSpace(t[|t| - 1])
    requires lead == "" ==> t[0] == cells[0][0]
    requires trail == "" ==> t[|t| - 1] == cells[|cells| - 1][|cells[|cells| - 1]| - 1]
    ensures MatchesSeparator(line, left, lead, cells, trail, right)
  {
  }

  lemma EndsOf(t: string, lead: string, body: string, trail: string)
    requires t == lead + body + trail && body != ""
    ensures lead == "" ==> t[0] == body[0]
    ensures trail == "" ==> t[|t| - 1] == body[|body| - 1]
  {
  }

  lemma SeparatorMatched(line: string, left: string, lead: string, cells: seq<string>, trail: string, right: string)
    requires MatchesSeparator(line, left, lead, cells, trail, right)
    ensures IsTableSeparator(line)
  {
    var body := JoinBars(cells);
    var t := lead + body + trail;
    PaddedCells(cells);
    JoinEnds(cells);
    assert body[0] in cells[0] && body[|body| - 1] in cells[|cells| - 1];
    EndsOf(t, lead, body, trail);
    InsideOf(lead, body, trail);
    ReTrimOf(left, t, right);
    SplitOfJoin(cells);
  }

  // -------------------------------------------------------------- the tests

  /** The scanner tests a line without its surrounding space, but the separator pattern takes the line as it is. */
  lemma MarkdownRules(line: string) returns (left: string, t: string, right: string)
    ensures line == left + t + right && Blank(left) && Blank(right)
    ensures t != "" ==> !IsSpace(t[0]) && !IsSpace(t[|t| - 1])
    ensures MARKDOWN.bar(line) <==> t != "" && t[0] == '|'
    ensures MARKDOWN.heading(line) <==> exists hashes, space, word :: MatchesHeading(t, hashes, space, word)
    ensures MARKDOWN.dropped(line) <==>
              (exists alt, url :: MatchesImage(t, alt, url)) || "Figure " <= t || "Fig. " <= t
    ensures MARKDOWN.separator(line) <==>
              exists left, lead, cells, trail, right :: MatchesSeparator(line, left, lead, cells, trail, right)
  {
    left, t, right := TrimMeaning(line);
    OnTrimmed(line, t);
    SeparatorMeaning(line);
  }

  lemma OnTrimmed(line: string, t: string)
    requires t == TrimSpace(line)
    ensures MARKDOWN.bar(line) <==> t != "" && t[0] == '|'
    ensures MARKDOWN.heading(line) <==> exists hashes, space, word :: MatchesHeading(t, hashes, space, word)
    ensures MARKDOWN.dropped(line) <==>
              (exists alt, url :: MatchesImage(t, alt, url)) || "Figure " <= t || "Fig. " <= t
  {
    HeadingMeaning(t);
    ImageMeaning(t);
    assert "|" <= t <==> t != "" && t[0] == '|';
  }

  lemma HeadingMeaning(t: string)
    ensures IsReferencesHeading(t) <==> exists hashes, space, word :: MatchesHeading(t, hashes, space, word)
  {
    var hashes, space, word := HeadingAccepted(t);
    forall hashes, space, word | MatchesHeading(t, hashes, space, word) ensures IsReferencesHeading(t) {
      HeadingMatched(t, hashes, space, word);
    }
  }

  lemma ImageMeaning(t: string)
    ensures IsImageLine(t) <==> exists alt, url :: MatchesImage(t, alt, url)
  {
    var alt, url := ImageAccepted(t);
    forall alt, url | MatchesImage(t, alt, url) ensures IsImageLine(t) { ImageMatched(t, alt, url); }
  }

  lemma SeparatorMeaning(line: string)
    ensures IsTableSeparator(line) <==>
              exists left, lead, cells, trail, right :: MatchesSeparator(line, left, lead, cells, trail, right)
  {
    var left, lead, cells, trail, right := SeparatorAccepted(line);
    forall left, lead, cells, trail, right | MatchesSeparator(line, left, lead, cells, trail, right)
      ensures IsTableSeparator(line)
    {
      SeparatorMatched(line, left, lead, cells, trail, right);
    }
  }

  // ------------------------------------------------------------------ words

  /** A position where a word starts. */
  predicate StartsAt(s: string, k: nat) { k < |s| && !IsSpace(s[k]) && (k == 0 || IsSpace(s[k - 1])) }

  function WordStarts(s: string): set<nat> { set k: nat | k < |s| && StartsAt(s, k) }

  lemma {:induction false} StartsFromEnd(s: string)
    ensures Starts(s, false) == |WordStarts(s)|
    decreases |s|
  {
    if s != "" {
      var last := |s| - 1;
      var t := s[..last];
      StartsFromEnd(t);
      assert s == t + [s[last]];
      StartsAppend(t, [s[last]], false);
      assert [s[last]][1..] == "";
      var before := WordStarts(t);
      if StartsAt(s, last) {
        assert WordStarts(s) == before + {last};
      } else {
        assert WordStarts(s) == before;
      }
    }
  }

  /** The word count is the number of positions where a word starts. */
  lemma WordCountMeaning(s: string)
    ensures WordCount(s) == |WordStarts(s)|
  {
    FieldsAreStarts(s, "");
    StartsFromEnd(s);
  }
}
