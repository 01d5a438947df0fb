/** Two texts that a second normalization changes, one for each condition an output can miss. */
module NormalizeNotIdempotent {
  import opened Text
  import opened LineRules
  import opened Normalize
  import opened MathLaws
  import opened NormalizeLaws

  lemma LeavesAlone(s: string)
    requires s != "" && !IsSpace(s[0]) && !IsSpace(s[|s| - 1])
    ensures TrimSpace(s) == s
  {
  }

  // -------------------------------------------------- nested delimiters

  const NESTED := "\\[\\[a\\]b\\]"
  const NESTED_ONCE := "$$\\[a$$b\\]"

  lemma NestedOnce()
    ensures RewriteDisplay(NESTED) == NESTED_ONCE
  {
    var s := NESTED;
    assert DISPLAY_OPEN <= s[0..];
    assert s[5..] == "\\]b\\]" && DISPLAY_CLOSE <= s[5..];
    assert Index(s, DISPLAY_OPEN, 0) == 0;
    assert s[3..][0] == '[' && s[4..][0] == 'a';
    assert Index(s, DISPLAY_CLOSE, 3) == 5;
    var rest := s[7..];
    assert rest == "b\\]";
    if HasPair(rest, DISPLAY_OPEN, DISPLAY_CLOSE) {
      PairNeeds(rest, DISPLAY_OPEN, DISPLAY_CLOSE);
    }
    var _, _, _, _, _, _ := RewritesLeftmostNearest(rest, DISPLAY_OPEN, DISPLAY_CLOSE, "$$");
    assert s[..0] == "" && s[2..5] == "\\[a";
    assert "" + "$$" + "\\[a" + "$$" + "b\\]" == NESTED_ONCE;
  }

  lemma StillPaired()
    ensures HasPair(NESTED_ONCE, DISPLAY_OPEN, DISPLAY_CLOSE) && !HasPair(NESTED_ONCE, INLINE_OPEN, INLINE_CLOSE)
  {
    var r := NESTED_ONCE;
    assert r[2..] == "\\[a$$b\\]" && r[8..] == "\\]";
    assert IsPair(r, DISPLAY_OPEN, DISPLAY_CLOSE, 2, 8);
    if HasPair(r, INLINE_OPEN, INLINE_CLOSE) {
      PairNeeds(r, INLINE_OPEN, INLINE_CLOSE);
    }
  }

  lemma PlainMarkdown(line: string)
    requires line != "" && !IsSpace(line[0]) && !IsSpace(line[|line| - 1])
    ensures line[0] != '#' ==> !MARKDOWN.heading(line)
    ensures line[0] != '!' && line[0] != 'F' ==> !MARKDOWN.dropped(line)
    ensures MARKDOWN.bar(line) <==> line[0] == '|'
  {
    LeavesAlone(line);
  }

  lemma PlainSamples()
    ensures '\n' !in NESTED_ONCE
    ensures PlainText(BAR) && PlainText(IMAGE) && PlainText(SEPARATOR)
  {
  }

  lemma SingleLine(s: string)
    requires '\n' !in s
    ensures Lines(s) == [s] && NoBlankRun(s) && NoFinalNewline(s)
  {
    SplitPrefix(s, "");
    assert s + "" == s;
  }

  /** One line that no stage after the math rewriting touches. */
  lemma OneLine(rules: Rules, s: string)
    requires PlainEmptyLine(rules) && Lines(s) == [s] && !rules.heading(s) && !rules.dropped(s)
    requires NoBlankRun(s) && NoFinalNewline(s)
    ensures TrimNewlines(CollapseBlankRuns(StripBlocks(rules, TruncateAtReferences(rules, s)))) == s
  {
    TruncateFixed(rules, s);
    StripFixed(rules, s);
    CollapseFixed(s);
  }

  lemma NestedShape(s: string, once: string)
    requires s == NESTED && once == RewriteDisplay(s)
    ensures HasPair(once, DISPLAY_OPEN, DISPLAY_CLOSE) && !HasPair(once, INLINE_OPEN, INLINE_CLOSE)
    ensures once != "" && once[0] == '$' && !IsSpace(once[|once| - 1]) && '\n' !in once
  {
    NestedOnce();
    StillPaired();
    PlainSamples();
  }

  lemma PlainLeftOver(s: string, once: string)
    requires once == RewriteDisplay(s)
    requires HasPair(once, DISPLAY_OPEN, DISPLAY_CLOSE) && !HasPair(once, INLINE_OPEN, INLINE_CLOSE)
    requires once != "" && once[0] == '$' && !IsSpace(once[|once| - 1]) && '\n' !in once
    ensures Body(s) == once && Body(once) != once
  {
    SingleLine(once);
    PlainMarkdown(once);
    EmptyLineIsPlain();
    LeftOver(MARKDOWN, s, once);
  }

  /** The outer delimiters are left over, and they form a new pair. */
  lemma NestedDelimiters(s: string)
    requires s == NESTED
    ensures Body(Body(s)) != Body(s)
  {
    NestedShape(s, RewriteDisplay(s));
    PlainLeftOver(s, RewriteDisplay(s));
  }

  lemma LeftOver(rules: Rules, s: string, once: string)
    requires PlainEmptyLine(rules) && RewriteDisplay(s) == once
    requires HasPair(once, DISPLAY_OPEN, DISPLAY_CLOSE) && !HasPair(once, INLINE_OPEN, INLINE_CLOSE)
    requires Lines(once) == [once] && !rules.heading(once) && !rules.dropped(once) && NoBlankRun(once) &&
              NoFinalNewline(once)
    ensures BodyBy(rules, s) == once && BodyBy(rules, once) != once
  {
    FixedPoint(rules, once);
    RewriteFixed(once, INLINE_OPEN, INLINE_CLOSE, "$");
    OneLine(rules, once);
  }

  // ------------------------------------------------- a table brought together

  /** Dropping what stood between a bar line and a separator leaves a table header. */
  lemma BroughtTogether(rules: Rules, bar: string, dropped: string, separator: string)
    requires rules.bar(bar) && rules.separator(separator) && rules.dropped(dropped)
    requires !rules.separator(dropped) && !rules.bar(dropped) && !rules.dropped(bar) && !rules.dropped(separator)
    ensures Stripped(rules, [bar, dropped, separator]) == [bar, separator]
    ensures !NoTable(rules, [bar, separator])
  {
    var lines := [bar, dropped, separator];
    assert lines[1..] == [dropped, separator] && lines[1..][1..] == [separator] && lines[1..][1..][1..] == [];
    assert Stripped(rules, [separator]) == [separator];
    assert Stripped(rules, [dropped, separator]) == [separator];
    assert [bar, separator][1 - 1] == bar && [bar, separator][1] == separator;
  }

  lemma FirstPass(rules: Rules, text: string, once: string, lines: seq<string>, kept: seq<string>)
    requires PlainEmptyLine(rules) && '\\' !in text && NoBlankRun(once) && NoFinalNewline(once)
    requires Lines(text) == lines && NoHeading(rules, lines) && Stripped(rules, lines) == kept && Join(kept) == once
    ensures BodyBy(rules, text) == once
  {
    NoBackslash(text);
    TruncateFixed(rules, text);
    CollapseFixed(once);
  }

  /** The dropped line goes in the first pass; bar line and separator, now neighbours, go in the second. */
  lemma TablePair(rules: Rules, bar: string, dropped: string, separator: string)
    requires PlainEmptyLine(rules)
    requires rules.bar(bar) && rules.separator(separator) && rules.dropped(dropped)
    requires !rules.separator(dropped) && !rules.bar(dropped) && !rules.dropped(bar) && !rules.dropped(separator)
    requires !rules.heading(bar) && !rules.heading(dropped) && !rules.heading(separator)
    requires PlainText(bar) && PlainText(dropped) && PlainText(separator)
    ensures var text, once := Join([bar, dropped, separator]), Join([bar, separator]);
            BodyBy(rules, text) == once && BodyBy(rules, once) != once
  {
    var lines, kept := [bar, dropped, separator], [bar, separator];
    BroughtTogether(rules, bar, dropped, separator);
    LinesJoin(lines);
    LinesJoin(kept);
    JoinShapes(bar, dropped, separator);
    FirstPass(rules, Join(lines), Join(kept), lines, kept);
    FixedPoint(rules, Join(kept));
  }

  predicate PlainText(line: string) { line != "" && '\n' !in line && '\\' !in line }

  lemma JoinShapes(bar: string, dropped: string, separator: string)
    requires PlainText(bar) && PlainText(dropped) && PlainText(separator)
    ensures '\\' !in Join([bar, dropped, separator])
    ensures NoBlankRun(Join([bar, separator])) && NoFinalNewline(Join([bar, separator]))
  {
    assert [bar, dropped, separator][1..] == [dropped, separator] && [dropped, separator][1..] == [separator];
    assert [bar, separator][1..] == [separator];
    var once := bar + "\n" + separator;
    assert Join([bar, separator]) == once;
    assert forall k :: 0 <= k < |once| && k != |bar| ==> once[k] != '\n';
    assert forall k :: 0 <= k < |once| - 1 ==> once[k] != '\n' || once[k + 1] != '\n';
  }

  const BAR := "|a"
  const IMAGE := "![]()"
  const SEPARATOR := "---|---"

  lemma SplitAt(cell: string, rest: string)
    requires '|' !in cell
    ensures Split(cell + "|" + rest, '|') == [cell] + Split(rest, '|')
    decreases |cell|
  {
    if cell == "" {
      assert (cell + "|" + rest)[1..] == rest;
    } else {
      assert (cell + "|" + rest)[1..] == cell[1..] + "|" + rest;
      SplitAt(cell[1..], rest);
      assert cell == [cell[0]] + cell[1..];
    }
  }

  lemma NoBar(s: string)
    requires '|' !in s
    ensures Split(s, '|') == [s]
  {
    if s != "" {
      NoBar(s[1..]);
      assert s == [s[0]] + s[1..];
    }
  }

  lemma NoReSpace(s: string)
    requires s != "" && !IsReSpace(s[0]) && !IsReSpace(s[|s| - 1])
    ensures ReTrim(s) == s
  {
  }

  lemma ThreeDashes()
    ensures IsDashCell(ReTrim("---"))
  {
    NoReSpace("---");
    assert "---"[1..] == "--" && "--"[1..] == "-" && "-"[1..] == "";
    assert Dashes("--") == 2;
  }

  lemma SeparatorLine()
    ensures IsTableSeparator(SEPARATOR)
  {
    NoReSpace(SEPARATOR);
    assert SEPARATOR == "---" + "|" + "---";
    SplitAt("---", "---");
    NoBar("---");
    assert Split(SEPARATOR, '|') == ["---", "---"];
    ThreeDashes();
  }

  lemma ImageLine(line: string)
    requires line == IMAGE
    ensures IsImageLine(line)
  {
    assert "](" <= line[2..];
  }

  lemma NotSeparator(line: string)
    requires line != "" && !IsReSpace(line[0]) && !IsReSpace(line[|line| - 1]) && '|' !in line
    ensures !IsTableSeparator(line)
  {
    NoReSpace(line);
    NoBar(line);
  }

  lemma MarkdownLines(bar: string, image: string, separator: string)
    requires bar == BAR && image == IMAGE && separator == SEPARATOR
    ensures MARKDOWN.bar(bar) && MARKDOWN.separator(separator) && MARKDOWN.dropped(image)
    ensures !MARKDOWN.separator(image) && !MARKDOWN.bar(image) && !MARKDOWN.dropped(bar) && !MARKDOWN.dropped(separator)
    ensures !MARKDOWN.heading(bar) && !MARKDOWN.heading(image) && !MARKDOWN.heading(separator)
  {
    PlainMarkdown(bar);
    PlainMarkdown(image);
    PlainMarkdown(separator);
    SeparatorLine();
    NotSeparator(image);
    ImageLine(image);
    LeavesAlone(image);
  }

  /** An image line between a bar line and a separator. */
  lemma TableBroughtTogether(bar: string, image: string, separator: string)
    requires bar == BAR && image == IMAGE && separator == SEPARATOR
    ensures Body(Join([bar, image, separator])) == Join([bar, separator])
    ensures Body(Join([bar, separator])) != Join([bar, separator])
  {
    MarkdownLines(bar, image, separator);
    PlainSamples();
    EmptyLineIsPlain();
    TablePair(MARKDOWN, bar, image, separator);
  }

  lemma NoBackslash(s: string)
    requires '\\' !in s
    ensures RewriteInline(RewriteDisplay(s)) == s
  {
    if HasPair(s, DISPLAY_OPEN, DISPLAY_CLOSE) {
      PairNeeds(s, DISPLAY_OPEN, DISPLAY_CLOSE);
    } else if HasPair(s, INLINE_OPEN, INLINE_CLOSE) {
      PairNeeds(s, INLINE_OPEN, INLINE_CLOSE);
    }
    RewriteFixed(s, DISPLAY_OPEN, DISPLAY_CLOSE, "$$");
    RewriteFixed(s, INLINE_OPEN, INLINE_CLOSE, "$");
  }
}
